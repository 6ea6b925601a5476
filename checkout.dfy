/**
 * The client's checkout step (`createOrder` in src/store/orderStore.ts): it
 * sends the cart's lines to the order service as `{productId, quantity}` and
 * clears the cart only when the server accepts the order. The network round
 * trip is a parameter: `reply` is what `fetch` and `response.json()` give back
 * for the request, if one is sent.
 */
module Checkout {
  import opened Wrappers
  import Seqs
  import Cart
  import Orders

  /** The outcome of the `POST /orders` round trip as the client observes it. */
  datatype Reply =
    | Accepted(order: Orders.Order)  // `response.ok`, the body is the created order
    | Rejected(message: string)      // not ok; the body's `message` ("" when it has none)
    | Threw(reason: string)          // `fetch` or `response.json()` rejected with an Error carrying `reason`

  const AuthRequired := "Authentication required"
  const CartEmpty := "Cart is empty"
  const CreateFailed := "Failed to create order"

  /** The token is truthy: present and not the empty string. */
  predicate HasToken(token: Option<string>)
  {
    token.Some? && token.value != ""
  }

  /** The request body's lines: each cart line's product id and quantity. */
  function Payload(items: seq<Cart.CartItem>): seq<Orders.ItemRequest>
  {
    Seqs.Map(items, (item: Cart.CartItem) => Orders.ItemRequest(item.productId, item.quantity))
  }

  /**
   * The payload has one request line per cart line, in cart order, each with
   * that line's product id and quantity; a non-empty cart never meets the
   * server's empty-order rejection.
   */
  lemma PayloadShape(items: seq<Cart.CartItem>)
    ensures |Payload(items)| == |items|
    ensures forall k :: 0 <= k < |items| ==>
              Payload(items)[k].productId == items[k].productId &&
              Payload(items)[k].quantity == items[k].quantity
    ensures items != [] <==> Payload(items) != []
  {
  }

  /**
   * A cart whose product ids are unique and whose every line fits its
   * product's stock is admitted line by line by the server: no earlier line
   * takes stock from a later line's product.
   */
  lemma {:induction false} UniqueCartAdmitted(products: Orders.Catalog, items: seq<Cart.CartItem>)
    requires Cart.UniqueProducts(items)
    requires forall k :: 0 <= k < |items| ==>
               items[k].productId in products && products[items[k].productId].stock >= items[k].quantity
    ensures Orders.Admitted(products, Payload(items))
  {
    if items != [] {
      Cart.UniqueTail(items);
      var req := Orders.ItemRequest(items[0].productId, items[0].quantity);
      var next := Orders.Take(products, req);
      assert Payload(items)[0] == req;
      assert Payload(items)[1..] == Payload(items[1..]);
      forall k | 0 <= k < |items[1..]|
        ensures items[1..][k].productId in next && next[items[1..][k].productId].stock >= items[1..][k].quantity
      {
        assert items[1..][k] == items[k + 1];
      }
      UniqueCartAdmitted(next, items[1..]);
    }
  }

  lemma {:induction false} LinesTotalMatchesCart(lines: seq<Orders.OrderLine>, items: seq<Cart.CartItem>)
    requires |lines| == |items|
    requires forall k :: 0 <= k < |items| ==> lines[k].price == items[k].price && lines[k].quantity == items[k].quantity
    ensures Orders.LinesTotal(lines) == Cart.TotalPrice(items)
  {
    if items != [] {
      LinesTotalMatchesCart(lines[1..], items[1..]);
    }
  }

  /**
   * When the server's prices are those the cart recorded, an order placed
   * from the cart's payload costs exactly the cart's `totalPrice`.
   */
  lemma OrderTotalIsCartTotal(products: Orders.Catalog, items: seq<Cart.CartItem>)
    requires Orders.Admitted(products, Payload(items))
    requires forall k :: 0 <= k < |items| ==>
               items[k].productId in products ==> products[items[k].productId].price == items[k].price
    ensures Orders.PlaceLines(products, Payload(items)).outcome.Success?
    ensures Orders.LinesTotal(Orders.PlaceLines(products, Payload(items)).outcome.value) == Cart.TotalPrice(items)
  {
    var payload := Payload(items);
    Orders.PlaceLinesSuccess(products, payload);
    var lines := Orders.PlaceLines(products, payload).outcome.value;
    forall k | 0 <= k < |items| ensures lines[k].price == items[k].price && lines[k].quantity == items[k].quantity {
      assert payload[k].productId == items[k].productId;
    }
    LinesTotalMatchesCart(lines, items);
  }

  /** The client's order store: the fields `createOrder` sets. */
  class OrderStore {
    var orders: seq<Orders.Order>
    var currentOrder: Option<Orders.Order>
    var isLoading: bool
    var error: Option<string>

    constructor ()
      ensures orders == [] && currentOrder == None && !isLoading && error == None
    {
      orders, currentOrder, isLoading, error := [], None, false, None;
    }

    /**
     * `createOrder()`. Returns the request body's lines when a request is
     * sent, None when a guard stops it first; `reply` is used only when a
     * request is sent.
     */
    method CreateOrder(token: Option<string>, cart: Cart.CartStore, reply: Reply)
      returns (sent: Option<seq<Orders.ItemRequest>>)
      requires cart.Valid()
      modifies this, cart
      ensures cart.Valid()
      ensures !isLoading
      ensures orders == old(orders)
      ensures !HasToken(token) ==>
                sent == None && error == Some(AuthRequired) &&
                cart.items == old(cart.items) && currentOrder == old(currentOrder)
      ensures HasToken(token) && old(cart.items) == [] ==>
                sent == None && error == Some(CartEmpty) && cart.items == old(cart.items) &&
                currentOrder == old(currentOrder)
      ensures HasToken(token) && old(cart.items) != [] ==>
                sent == Some(Payload(old(cart.items)))
      ensures sent.Some? && reply.Accepted? ==>
                error == None && currentOrder == Some(reply.order) &&
                cart.items == [] && cart.totalItems == 0 && cart.totalPrice == 0
      ensures sent.Some? && reply.Rejected? ==>
                error == Some(if reply.message == "" then CreateFailed else reply.message) &&
                cart.items == old(cart.items) && currentOrder == old(currentOrder)
      ensures sent.Some? && reply.Threw? ==>
                error == Some(reply.reason) && cart.items == old(cart.items) && currentOrder == old(currentOrder)
      ensures cart.items != old(cart.items) ==> sent.Some? && reply.Accepted?
    {
      isLoading, error := true, None;
      var items := cart.items;
      if !HasToken(token) {
        error, isLoading := Some(AuthRequired), false;
        return None;
      }
      if |items| == 0 {
        error, isLoading := Some(CartEmpty), false;
        return None;
      }
      var orderItems := Payload(items);
      sent := Some(orderItems);
      match reply
      case Threw(reason) =>
        error, isLoading := Some(reason), false;
      case Rejected(message) =>
        error, isLoading := Some(if message == "" then CreateFailed else message), false;
      case Accepted(order) =>
        cart.ClearCart();
        currentOrder, isLoading := Some(order), false;
    }
  }
}
