/**
 * The order service (server/routes/orders.js). The product table is a map
 * from product id to name, price and stock; the order table is a sequence of
 * rows. Each request runs to completion before the next one starts.
 * Prices, totals and stock are integers (cents and units).
 */
module Orders {
  import opened Wrappers
  import Seqs

  type ProductId = string
  type OrderId = string
  type UserId = string

  /** A product row as the order routes see it. */
  datatype Product = Product(name: string, price: int, stock: int)

  /** The product table. */
  type Catalog = map<ProductId, Product>

  /** One requested line of `POST /` (`{productId, quantity}`). */
  datatype ItemRequest = ItemRequest(productId: ProductId, quantity: int)

  /** A stored order line; `price` is the product's price when the order was placed. */
  datatype OrderLine = OrderLine(productId: ProductId, quantity: int, price: int)

  datatype Status = PENDING | PROCESSING | SHIPPED | DELIVERED | CANCELLED

  /** An order row; `createdAt` is a timestamp. */
  datatype Order = Order(id: OrderId, userId: UserId, status: Status, total: int, createdAt: int, items: seq<OrderLine>)

  /** The authenticated caller, as the authentication middleware leaves it in `req.user`. */
  datatype User = User(id: UserId, role: string)

  /** The error responses of the order routes. */
  datatype ApiError =
    | EmptyOrder                                        // "Order must contain at least one item"
    | ProductNotFound(productId: ProductId)             // "Product with ID ... not found"
    | NotEnoughStock(productName: string, available: int) // "Not enough stock for ... Available: ..."
    | OrderNotFound
    | NotAuthorized
    | NotPending                                        // "Only pending orders can be cancelled"
    | InvalidStatus
    | ServerError                                       // a database call threw; the `catch` answers 500

  /** The HTTP status code each error is sent with. */
  function HttpStatus(e: ApiError): int
  {
    match e
    case EmptyOrder => 400
    case ProductNotFound(_) => 404
    case NotEnoughStock(_, _) => 400
    case OrderNotFound => 404
    case NotAuthorized => 403
    case NotPending => 400
    case InvalidStatus => 400
    case ServerError => 500
  }

  /** The status as it is spelled in requests and in the database. */
  function StatusName(s: Status): string
  {
    match s
    case PENDING => "PENDING"
    case PROCESSING => "PROCESSING"
    case SHIPPED => "SHIPPED"
    case DELIVERED => "DELIVERED"
    case CANCELLED => "CANCELLED"
  }

  /** `validStatuses.includes(status)`: the status a request names, if it names one of the five. */
  function ParseStatus(text: string): (r: Option<Status>)
    ensures r.Some? ==> StatusName(r.value) == text
    ensures r.None? ==> forall s: Status :: StatusName(s) != text
  {
    if text == "PENDING" then Some(PENDING)
    else if text == "PROCESSING" then Some(PROCESSING)
    else if text == "SHIPPED" then Some(SHIPPED)
    else if text == "DELIVERED" then Some(DELIVERED)
    else if text == "CANCELLED" then Some(CANCELLED)
    else None
  }

  /** Every status is accepted under its own name. */
  lemma ParseStatusName(s: Status)
    ensures ParseStatus(StatusName(s)) == Some(s)
  {
    match s
    case PENDING =>
    case PROCESSING =>
    case SHIPPED =>
    case DELIVERED =>
    case CANCELLED =>
  }

  predicate IsAdmin(user: User)
  {
    user.role == "ADMIN"
  }

  /** The caller may see and cancel `order`: an administrator, or its owner. */
  predicate MayAccess(user: User, order: Order)
  {
    IsAdmin(user) || order.userId == user.id
  }

  /** Σ price × quantity over order lines. */
  function LinesTotal(lines: seq<OrderLine>): int
  {
    if lines == [] then 0 else lines[0].price * lines[0].quantity + LinesTotal(lines[1..])
  }

  lemma {:induction false} LinesTotalAppend(lines: seq<OrderLine>, line: OrderLine)
    ensures LinesTotal(lines + [line]) == LinesTotal(lines) + line.price * line.quantity
  {
    if lines == [] {
      assert [line][1..] == [];
    } else {
      assert (lines + [line])[1..] == lines[1..] + [line];
      LinesTotalAppend(lines[1..], line);
    }
  }

  // ---------------------------------------------------------------------------
  // Placing an order: the validate-then-decrement loop of `POST /`
  // ---------------------------------------------------------------------------

  /** Why the loop stops at `item`, if it does: a missing product or too little stock. */
  function Check(products: Catalog, item: ItemRequest): Option<ApiError>
  {
    if item.productId !in products then Some(ProductNotFound(item.productId))
    else if products[item.productId].stock < item.quantity then
      Some(NotEnoughStock(products[item.productId].name, products[item.productId].stock))
    else None
  }

  /** The product table after `item`'s quantity is taken from its product's stock. */
  function Take(products: Catalog, item: ItemRequest): Catalog
  {
    if item.productId in products then
      products[item.productId := products[item.productId].(stock := products[item.productId].stock - item.quantity)]
    else products
  }

  /** The state the loop leaves behind: the product table and either the order lines or the error. */
  datatype Placement = Placement(products: Catalog, outcome: Result<seq<OrderLine>, ApiError>)

  /**
   * The loop from the point where the lines `done` have been processed and
   * `items` remain: each line is checked against the current table, then its
   * stock is written at once; the first failing line ends the request and
   * nothing already written is undone.
   */
  function Place(products: Catalog, items: seq<ItemRequest>, done: seq<OrderLine>): Placement
    decreases |items|
  {
    if items == [] then Placement(products, Success(done))
    else
      match Check(products, items[0])
      case Some(e) => Placement(products, Failure(e))
      case None =>
        var product := products[items[0].productId];
        Place(Take(products, items[0]), items[1..],
              done + [OrderLine(items[0].productId, items[0].quantity, product.price)])
  }

  /** The whole loop over the requested lines. */
  function PlaceLines(products: Catalog, items: seq<ItemRequest>): Placement
  {
    Place(products, items, [])
  }

  /** Reference definition: every line passes its check, each against the table its predecessors left. */
  predicate Admitted(products: Catalog, items: seq<ItemRequest>)
    decreases |items|
  {
    items == [] || (Check(products, items[0]).None? && Admitted(Take(products, items[0]), items[1..]))
  }

  /** Reference definition: the table after all of `items` are taken from it, with no checks. */
  function Drawn(products: Catalog, items: seq<ItemRequest>): Catalog
    decreases |items|
  {
    if items == [] then products else Drawn(Take(products, items[0]), items[1..])
  }

  /** The total quantity `items` ask for of `productId`. */
  function Requested(items: seq<ItemRequest>, productId: ProductId): int
  {
    if items == [] then 0
    else (if items[0].productId == productId then items[0].quantity else 0) + Requested(items[1..], productId)
  }

  /** Taking `items` lowers each product's stock by the total requested of it and changes nothing else. */
  lemma {:induction false} DrawnStock(products: Catalog, items: seq<ItemRequest>)
    ensures Drawn(products, items).Keys == products.Keys
    ensures forall p :: p in products ==>
              Drawn(products, items)[p] == products[p].(stock := products[p].stock - Requested(items, p))
  {
    if items != [] {
      DrawnStock(Take(products, items[0]), items[1..]);
    }
  }

  lemma {:induction false} PlaceSucceedsIffAdmitted(products: Catalog, items: seq<ItemRequest>, done: seq<OrderLine>)
    ensures Place(products, items, done).outcome.Success? <==> Admitted(products, items)
  {
    if items != [] && Check(products, items[0]).None? {
      var line := OrderLine(items[0].productId, items[0].quantity, products[items[0].productId].price);
      PlaceSucceedsIffAdmitted(Take(products, items[0]), items[1..], done + [line]);
    }
  }

  lemma {:induction false} PlaceSuccess(products: Catalog, items: seq<ItemRequest>, done: seq<OrderLine>)
    requires Admitted(products, items)
    ensures Place(products, items, done).products == Drawn(products, items)
    ensures Place(products, items, done).outcome.Success?
    ensures |Place(products, items, done).outcome.value| == |done| + |items|
    ensures Place(products, items, done).outcome.value[..|done|] == done
    ensures forall k :: 0 <= k < |items| ==>
              items[k].productId in products &&
              Place(products, items, done).outcome.value[|done| + k]
                == OrderLine(items[k].productId, items[k].quantity, products[items[k].productId].price)
  {
    if items != [] {
      var next := Take(products, items[0]);
      var line := OrderLine(items[0].productId, items[0].quantity, products[items[0].productId].price);
      PlaceSuccess(next, items[1..], done + [line]);
      var lines := Place(products, items, done).outcome.value;
      assert lines == Place(next, items[1..], done + [line]).outcome.value;
      assert lines[..|done| + 1] == done + [line];
      assert lines[..|done|] == (lines[..|done| + 1])[..|done|];
      forall k | 0 <= k < |items|
        ensures items[k].productId in products
        ensures lines[|done| + k] == OrderLine(items[k].productId, items[k].quantity, products[items[k].productId].price)
      {
        if k == 0 {
          assert lines[|done|] == (lines[..|done| + 1])[|done|];
        } else {
          assert items[k] == items[1..][k - 1];
          assert |done + [line]| + (k - 1) == |done| + k;
        }
      }
    }
  }

  /**
   * When every line is admitted, `POST /` succeeds: the table is `Drawn`
   * (each product's stock lowered by the total ordered of it, in list order),
   * and the i-th order line records the i-th requested product and quantity
   * with the price the product had when it was checked, so the order total is
   * Σ price × quantity at check time.
   */
  lemma PlaceLinesSuccess(products: Catalog, items: seq<ItemRequest>)
    requires Admitted(products, items)
    ensures PlaceLines(products, items).outcome.Success?
    ensures PlaceLines(products, items).products == Drawn(products, items)
    ensures |PlaceLines(products, items).outcome.value| == |items|
    ensures forall k :: 0 <= k < |items| ==>
              items[k].productId in products &&
              PlaceLines(products, items).outcome.value[k]
                == OrderLine(items[k].productId, items[k].quantity, products[items[k].productId].price)
  {
    PlaceSuccess(products, items, []);
  }

  lemma {:induction false} PlaceFailure(products: Catalog, items: seq<ItemRequest>, done: seq<OrderLine>)
    requires !Admitted(products, items)
    ensures Place(products, items, done).outcome.Failure?
    ensures exists k :: 0 <= k < |items| &&
              Admitted(products, items[..k]) &&
              Place(products, items, done).products == Drawn(products, items[..k]) &&
              Check(Drawn(products, items[..k]), items[k]) == Some(Place(products, items, done).outcome.error)
  {
    assert items != [];
    assert items[..0] == [];
    if Check(products, items[0]).None? {
      var next := Take(products, items[0]);
      var line := OrderLine(items[0].productId, items[0].quantity, products[items[0].productId].price);
      PlaceFailure(next, items[1..], done + [line]);
      var p := Place(products, items, done);
      assert p == Place(next, items[1..], done + [line]);
      var k' :| 0 <= k' < |items[1..]| &&
                Admitted(next, items[1..][..k']) &&
                p.products == Drawn(next, items[1..][..k']) &&
                Check(Drawn(next, items[1..][..k']), items[1..][k']) == Some(p.outcome.error);
      var k := k' + 1;
      assert items[..k][0] == items[0];
      assert items[..k][1..] == items[1..][..k'];
      assert items[k] == items[1..][k'];
      assert Admitted(products, items[..k]);
      assert Drawn(products, items[..k]) == Drawn(next, items[1..][..k']);
    }
  }

  /**
   * When some line fails, `POST /` fails with that line's error: there is a
   * first failing line k, the lines before k passed and stay taken from
   * stock, line k and the lines after it leave the table untouched, and the
   * error is 404 for a missing product or 400 carrying the available stock.
   */
  lemma PlaceLinesFailure(products: Catalog, items: seq<ItemRequest>)
    requires !Admitted(products, items)
    ensures PlaceLines(products, items).outcome.Failure?
    ensures exists k :: 0 <= k < |items| &&
              Admitted(products, items[..k]) &&
              PlaceLines(products, items).products == Drawn(products, items[..k]) &&
              Check(Drawn(products, items[..k]), items[k]) == Some(PlaceLines(products, items).outcome.error)
  {
    PlaceFailure(products, items, []);
  }

  /** Whatever the outcome of `POST /`, no stock that was non-negative becomes negative. */
  lemma {:induction false} PlaceKeepsStockNonNegative(products: Catalog, items: seq<ItemRequest>, done: seq<OrderLine>)
    requires forall p :: p in products ==> products[p].stock >= 0
    ensures forall p :: p in Place(products, items, done).products ==> Place(products, items, done).products[p].stock >= 0
  {
    if items != [] && Check(products, items[0]).None? {
      var line := OrderLine(items[0].productId, items[0].quantity, products[items[0].productId].price);
      PlaceKeepsStockNonNegative(Take(products, items[0]), items[1..], done + [line]);
    }
  }

  // ---------------------------------------------------------------------------
  // Restocking: the increment loop of `PUT /:id/cancel`
  // ---------------------------------------------------------------------------

  /** The product table after a restock, and whether every increment found its product. */
  datatype Restocking = Restocking(products: Catalog, complete: bool)

  /**
   * Each line's quantity added back to its product's stock, in order; an
   * update of a missing product throws, which ends the loop with the earlier
   * increments kept.
   */
  function Restock(products: Catalog, lines: seq<OrderLine>): Restocking
    decreases |lines|
  {
    if lines == [] then Restocking(products, true)
    else if lines[0].productId !in products then Restocking(products, false)
    else
      var p := products[lines[0].productId];
      Restock(products[lines[0].productId := p.(stock := p.stock + lines[0].quantity)], lines[1..])
  }

  /** The total quantity of `productId` that `lines` hold. */
  function Returned(lines: seq<OrderLine>, productId: ProductId): int
  {
    if lines == [] then 0
    else (if lines[0].productId == productId then lines[0].quantity else 0) + Returned(lines[1..], productId)
  }

  /**
   * A restock completes exactly when every line's product exists; then each
   * product's stock rises by the quantity the lines hold of it. Products no
   * line refers to are never changed.
   */
  lemma {:induction false} RestockEffect(products: Catalog, lines: seq<OrderLine>)
    ensures Restock(products, lines).products.Keys == products.Keys
    ensures Restock(products, lines).complete <==> forall k :: 0 <= k < |lines| ==> lines[k].productId in products
    ensures Restock(products, lines).complete ==>
              forall p :: p in products ==>
                Restock(products, lines).products[p] == products[p].(stock := products[p].stock + Returned(lines, p))
    ensures forall p :: p in products && (forall k :: 0 <= k < |lines| ==> lines[k].productId != p) ==>
              Restock(products, lines).products[p] == products[p]
  {
    if lines != [] && lines[0].productId in products {
      var p0 := products[lines[0].productId];
      var next := products[lines[0].productId := p0.(stock := p0.stock + lines[0].quantity)];
      RestockEffect(next, lines[1..]);
      forall p | p in products && (forall k :: 0 <= k < |lines| ==> lines[k].productId != p)
        ensures Restock(products, lines).products[p] == products[p]
      {
        assert lines[0].productId != p;
        assert forall k :: 0 <= k < |lines[1..]| ==> lines[1..][k] == lines[k + 1];
      }
      assert (forall k :: 0 <= k < |lines| ==> lines[k].productId in products)
         <==> (forall k :: 0 <= k < |lines[1..]| ==> lines[1..][k].productId in next) by {
        if forall k :: 0 <= k < |lines[1..]| ==> lines[1..][k].productId in next {
          forall k | 0 <= k < |lines| ensures lines[k].productId in products {
            if k > 0 { assert lines[k] == lines[1..][k - 1]; }
          }
        }
      }
    }
  }

  lemma {:induction false} ReturnedMatchesRequested(lines: seq<OrderLine>, items: seq<ItemRequest>, productId: ProductId)
    requires |lines| == |items|
    requires forall k :: 0 <= k < |items| ==>
               lines[k].productId == items[k].productId && lines[k].quantity == items[k].quantity
    ensures Returned(lines, productId) == Requested(items, productId)
  {
    if lines != [] {
      ReturnedMatchesRequested(lines[1..], items[1..], productId);
    }
  }

  /**
   * Cancelling restores what placing took: restocking the lines of a
   * successfully placed order on the table the placement left gives back the
   * original table, with every increment finding its product.
   */
  lemma CancelUndoesPlace(products: Catalog, items: seq<ItemRequest>)
    requires PlaceLines(products, items).outcome.Success?
    ensures Restock(PlaceLines(products, items).products, PlaceLines(products, items).outcome.value)
         == Restocking(products, true)
  {
    PlaceSucceedsIffAdmitted(products, items, []);
    PlaceLinesSuccess(products, items);
    DrawnStock(products, items);
    var placed := PlaceLines(products, items);
    var lines := placed.outcome.value;
    RestockEffect(placed.products, lines);
    var back := Restock(placed.products, lines);
    forall k | 0 <= k < |lines| ensures lines[k].productId in placed.products {
      assert items[k].productId in products;
    }
    forall p | p in products ensures back.products[p] == products[p] {
      ReturnedMatchesRequested(lines, items, p);
    }
    assert back.products == products;
  }

  // ---------------------------------------------------------------------------
  // The order table and the read routes
  // ---------------------------------------------------------------------------

  /** Order ids are unique in the table. */
  ghost predicate UniqueIds(orders: seq<Order>)
  {
    forall i, j :: 0 <= i < j < |orders| ==> orders[i].id != orders[j].id
  }

  /** `findUnique({where: {id}})`: the position of the row with id `id`. */
  function IndexOf(orders: seq<Order>, id: OrderId): (r: Option<nat>)
    ensures r.Some? ==> r.value < |orders| && orders[r.value].id == id
    ensures r.Some? ==> forall j :: 0 <= j < r.value ==> orders[j].id != id
    ensures r.None? ==> forall j :: 0 <= j < |orders| ==> orders[j].id != id
  {
    if orders == [] then None
    else if orders[0].id == id then Some(0)
    else match IndexOf(orders[1..], id)
      case None => None
      case Some(k) => Some(k + 1)
  }

  /** `GET /:id`: 404 for an unknown id, 403 unless the caller is an administrator or the owner. */
  function ViewOrder(orders: seq<Order>, user: User, id: OrderId): Result<Order, ApiError>
  {
    match IndexOf(orders, id)
    case None => Failure(OrderNotFound)
    case Some(k) => if !MayAccess(user, orders[k]) then Failure(NotAuthorized) else Success(orders[k])
  }

  /**
   * With unique ids, viewing answers 404 exactly when no order has the id,
   * returns the order exactly when the caller may access it, and answers 403
   * exactly when the caller may not.
   */
  lemma ViewOrderAccess(orders: seq<Order>, user: User, id: OrderId)
    requires UniqueIds(orders)
    ensures ViewOrder(orders, user, id) == Failure(OrderNotFound) <==> forall o :: o in orders ==> o.id != id
    ensures forall o :: o in orders && o.id == id ==>
              (ViewOrder(orders, user, id) == Success(o) <==> MayAccess(user, o)) &&
              (ViewOrder(orders, user, id) == Failure(NotAuthorized) <==> !MayAccess(user, o))
  {
    forall o | o in orders && o.id == id ensures IndexOf(orders, id).Some? && orders[IndexOf(orders, id).value] == o {
      var i :| 0 <= i < |orders| && orders[i] == o;
      var k := IndexOf(orders, id).value;
      assert k == i;
    }
  }

  /** Newest first. */
  predicate NewerOrSame(a: Order, b: Order)
  {
    a.createdAt >= b.createdAt
  }

  /** `GET /my-orders`: the caller's orders, ordered by `createdAt` descending. */
  function MyOrders(orders: seq<Order>, user: User): seq<Order>
  {
    Seqs.Sort(Seqs.Filter(orders, (o: Order) => o.userId == user.id), NewerOrSame)
  }

  /**
   * My-orders returns exactly the caller's orders, each as often as it is in
   * the table and no other, with `createdAt` non-increasing along the list.
   */
  lemma MyOrdersSpec(orders: seq<Order>, user: User)
    ensures forall o :: o in MyOrders(orders, user) <==> o in orders && o.userId == user.id
    ensures forall o :: multiset(MyOrders(orders, user))[o] == if o.userId == user.id then multiset(orders)[o] else 0
    ensures forall i, j :: 0 <= i < j < |MyOrders(orders, user)| ==>
              MyOrders(orders, user)[i].createdAt >= MyOrders(orders, user)[j].createdAt
  {
    var mine := Seqs.Filter(orders, (o: Order) => o.userId == user.id);
    var r := MyOrders(orders, user);
    Seqs.FilterCount(orders, (o: Order) => o.userId == user.id);
    assert multiset(r) == multiset(mine);
    forall o ensures o in r <==> o in mine {
      assert o in r <==> multiset(r)[o] > 0;
    }
    Seqs.SortSorted(mine, NewerOrSame);
    Seqs.SortedPairwise(r, NewerOrSame);
  }

  /** For a caller who is not an administrator, the orders they may view are exactly those my-orders lists. */
  lemma ViewMatchesMyOrders(orders: seq<Order>, user: User, o: Order)
    requires UniqueIds(orders)
    requires !IsAdmin(user)
    requires o in orders
    ensures ViewOrder(orders, user, o.id) == Success(o) <==> o in MyOrders(orders, user)
  {
    ViewOrderAccess(orders, user, o.id);
    MyOrdersSpec(orders, user);
  }

  /** The order row `POST /` creates; the status is the schema's default, assumed PENDING. */
  function NewOrder(id: OrderId, userId: UserId, lines: seq<OrderLine>, createdAt: int): Order
  {
    Order(id, userId, PENDING, LinesTotal(lines), createdAt, lines)
  }

  // ---------------------------------------------------------------------------
  // The writing routes
  // ---------------------------------------------------------------------------

  /** The two tables, updated in place by the writing routes. */
  class OrderService {
    var products: Catalog
    var orders: seq<Order>

    ghost predicate Valid()
      reads this
    {
      UniqueIds(orders)
    }

    constructor (products: Catalog)
      ensures Valid()
      ensures this.products == products && orders == []
    {
      this.products := products;
      orders := [];
    }

    /**
     * `POST /`. `items` is the request body's `items` (None when missing or
     * not an array); `newId` and `now` are the id and timestamp the database
     * gives the new row.
     */
    method CreateOrder(user: User, items: Option<seq<ItemRequest>>, newId: OrderId, now: int)
      returns (r: Result<Order, ApiError>)
      requires Valid()
      requires forall o :: o in orders ==> o.id != newId
      modifies this
      ensures Valid()
      ensures items.None? || items.value == [] ==>
                r == Failure(EmptyOrder) && products == old(products) && orders == old(orders)
      ensures items.Some? && items.value != [] ==>
                products == PlaceLines(old(products), items.value).products
      ensures items.Some? && items.value != [] ==>
                match PlaceLines(old(products), items.value).outcome
                case Success(lines) =>
                  r == Success(NewOrder(newId, user.id, lines, now)) && orders == old(orders) + [r.value]
                case Failure(e) => r == Failure(e) && orders == old(orders)
    {
      if items.None? || items.value == [] {
        return Failure(EmptyOrder);
      }
      var requests := items.value;
      ghost var start := products;
      var total := 0;
      var orderItems: seq<OrderLine> := [];
      var i := 0;
      while i < |requests|
        invariant 0 <= i <= |requests|
        invariant orders == old(orders)
        invariant total == LinesTotal(orderItems)
        invariant Place(products, requests[i..], orderItems) == PlaceLines(start, requests)
      {
        var item := requests[i];
        assert requests[i..][0] == item && requests[i..][1..] == requests[i + 1..];
        if item.productId !in products {
          return Failure(ProductNotFound(item.productId));
        }
        var product := products[item.productId];
        if product.stock < item.quantity {
          return Failure(NotEnoughStock(product.name, product.stock));
        }
        var line := OrderLine(item.productId, item.quantity, product.price);
        LinesTotalAppend(orderItems, line);
        total := total + product.price * item.quantity;
        orderItems := orderItems + [line];
        products := products[item.productId := product.(stock := product.stock - item.quantity)];
        i := i + 1;
      }
      var order := Order(newId, user.id, PENDING, total, now, orderItems);
      orders := orders + [order];
      r := Success(order);
    }

    /** `PUT /:id/status` (the administrator check is the route's middleware). */
    method UpdateStatus(id: OrderId, status: string) returns (r: Result<Order, ApiError>)
      requires Valid()
      modifies this
      ensures Valid()
      ensures products == old(products)
      ensures ParseStatus(status).None? ==> r == Failure(InvalidStatus) && orders == old(orders)
      ensures ParseStatus(status).Some? && IndexOf(old(orders), id).None? ==>
                r == Failure(ServerError) && orders == old(orders)
      ensures ParseStatus(status).Some? && IndexOf(old(orders), id).Some? ==>
                var k := IndexOf(old(orders), id).value;
                orders == old(orders)[k := old(orders)[k].(status := ParseStatus(status).value)] &&
                r == Success(orders[k])
    {
      var s := ParseStatus(status);
      if s.None? {
        return Failure(InvalidStatus);
      }
      var k := IndexOf(orders, id);
      if k.None? {
        return Failure(ServerError);
      }
      var updated := orders[k.value].(status := s.value);
      orders := orders[k.value := updated];
      r := Success(updated);
    }

    /** `PUT /:id/cancel`. */
    method CancelOrder(user: User, id: OrderId) returns (r: Result<Order, ApiError>)
      requires Valid()
      modifies this
      ensures Valid()
      ensures IndexOf(old(orders), id).None? ==>
                r == Failure(OrderNotFound) && products == old(products) && orders == old(orders)
      ensures IndexOf(old(orders), id).Some? && !MayAccess(user, old(orders)[IndexOf(old(orders), id).value]) ==>
                r == Failure(NotAuthorized) && products == old(products) && orders == old(orders)
      ensures IndexOf(old(orders), id).Some? && MayAccess(user, old(orders)[IndexOf(old(orders), id).value]) &&
              old(orders)[IndexOf(old(orders), id).value].status != PENDING ==>
                r == Failure(NotPending) && products == old(products) && orders == old(orders)
      ensures IndexOf(old(orders), id).Some? && MayAccess(user, old(orders)[IndexOf(old(orders), id).value]) &&
              old(orders)[IndexOf(old(orders), id).value].status == PENDING ==>
                var k := IndexOf(old(orders), id).value;
                var restocked := Restock(old(products), old(orders)[k].items);
                orders == old(orders)[k := old(orders)[k].(status := CANCELLED)] &&
                products == restocked.products &&
                r == (if restocked.complete then Success(orders[k]) else Failure(ServerError))
    {
      var found := IndexOf(orders, id);
      if found.None? {
        return Failure(OrderNotFound);
      }
      var k := found.value;
      var order := orders[k];
      if !MayAccess(user, order) {
        return Failure(NotAuthorized);
      }
      if order.status != PENDING {
        return Failure(NotPending);
      }
      var updated := order.(status := CANCELLED);
      orders := orders[k := updated];
      var lines := order.items;
      ghost var start := products;
      var i := 0;
      while i < |lines|
        invariant 0 <= i <= |lines|
        invariant orders == old(orders)[k := updated]
        invariant Restock(products, lines[i..]) == Restock(start, lines)
      {
        assert lines[i..][0] == lines[i] && lines[i..][1..] == lines[i + 1..];
        var line := lines[i];
        if line.productId !in products {
          return Failure(ServerError);
        }
        var p := products[line.productId];
        products := products[line.productId := p.(stock := p.stock + line.quantity)];
        i := i + 1;
      }
      r := Success(updated);
    }
  }
}
