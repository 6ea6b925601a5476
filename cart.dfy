/**
 * The client-side shopping cart (src/store/cartStore.ts): a list of cart
 * lines keyed by product id, with the number of items and the total price
 * held beside it and recomputed from the lines after every change.
 * Prices are integer cents.
 */
module Cart {
  import opened Wrappers
  import Seqs

  /** What `addItem` is given about a product. */
  datatype Product = Product(id: string, name: string, price: int, imageUrl: Option<string>)

  /** One line of the cart; `id` is an opaque line identifier chosen when the line is created. */
  datatype CartItem = CartItem(id: string, productId: string, name: string, price: int, quantity: int, imageUrl: Option<string>)

  /** The sum of the line quantities (the first `reduce`). */
  function TotalItems(items: seq<CartItem>): int
  {
    if items == [] then 0 else items[0].quantity + TotalItems(items[1..])
  }

  /** The sum of price times quantity over the lines (the second `reduce`). */
  function TotalPrice(items: seq<CartItem>): int
  {
    if items == [] then 0 else items[0].price * items[0].quantity + TotalPrice(items[1..])
  }

  /** Some line is for `productId` (`items.find` succeeds). */
  predicate HasProduct(items: seq<CartItem>, productId: string)
  {
    exists k :: 0 <= k < |items| && items[k].productId == productId
  }

  /** No two lines are for the same product. */
  ghost predicate UniqueProducts(items: seq<CartItem>)
  {
    forall i, j :: 0 <= i < j < |items| ==> items[i].productId != items[j].productId
  }

  /** Every line for `productId` with `quantity` more (the `map` of `addItem`). */
  function MergeQuantity(items: seq<CartItem>, productId: string, quantity: int): seq<CartItem>
  {
    Seqs.Map(items, (item: CartItem) =>
      if item.productId == productId then item.(quantity := item.quantity + quantity) else item)
  }

  /** The line `addItem` creates for a product not yet in the cart. */
  function NewItem(product: Product, quantity: int, newId: string): CartItem
  {
    CartItem(newId, product.id, product.name, product.price, quantity, product.imageUrl)
  }

  /** The lines after `addItem(product, quantity)`; `newId` stands for `Date.now().toString()`. */
  function AddedItems(items: seq<CartItem>, product: Product, quantity: int, newId: string): seq<CartItem>
  {
    if HasProduct(items, product.id) then MergeQuantity(items, product.id, quantity)
    else items + [NewItem(product, quantity, newId)]
  }

  /** The lines not for `productId`, in order (the `filter` of `removeItem`). */
  function WithoutProduct(items: seq<CartItem>, productId: string): seq<CartItem>
  {
    Seqs.Filter(items, (item: CartItem) => item.productId != productId)
  }

  /** Every line for `productId` with its quantity overwritten (the `map` of `updateQuantity`). */
  function SetQuantity(items: seq<CartItem>, productId: string, quantity: int): seq<CartItem>
  {
    Seqs.Map(items, (item: CartItem) =>
      if item.productId == productId then item.(quantity := quantity) else item)
  }

  lemma UniqueTail(items: seq<CartItem>)
    requires items != [] && UniqueProducts(items)
    ensures UniqueProducts(items[1..])
    ensures forall j :: 1 <= j < |items| ==> items[j].productId != items[0].productId
  {
    forall i, j | 0 <= i < j < |items| - 1
      ensures items[1..][i].productId != items[1..][j].productId
    {
      assert items[1..][i] == items[i + 1] && items[1..][j] == items[j + 1];
    }
  }

  /** The totals of a concatenation are the sums of the totals. */
  lemma {:induction false} TotalsAppend(a: seq<CartItem>, b: seq<CartItem>)
    ensures TotalItems(a + b) == TotalItems(a) + TotalItems(b)
    ensures TotalPrice(a + b) == TotalPrice(a) + TotalPrice(b)
  {
    if a != [] {
      assert (a + b)[1..] == a[1..] + b;
      TotalsAppend(a[1..], b);
    } else {
      assert a + b == b;
    }
  }

  /** Replacing one line changes the totals by exactly that line's contribution. */
  lemma {:induction false} TotalsAfterReplace(items: seq<CartItem>, r: seq<CartItem>, k: nat)
    requires |r| == |items| && k < |items|
    requires forall j :: 0 <= j < |items| && j != k ==> r[j] == items[j]
    ensures TotalItems(r) == TotalItems(items) - items[k].quantity + r[k].quantity
    ensures TotalPrice(r) == TotalPrice(items) - items[k].price * items[k].quantity + r[k].price * r[k].quantity
  {
    if k == 0 {
      assert r[1..] == items[1..];
    } else {
      TotalsAfterReplace(items[1..], r[1..], k - 1);
      assert r[0] == items[0];
    }
  }

  /**
   * `addItem` for a product already in the cart raises that line's quantity
   * by `quantity` and leaves the number of lines and every other line as
   * they were; the totals grow by `quantity` items at the line's own price.
   */
  lemma AddToExisting(items: seq<CartItem>, product: Product, quantity: int, newId: string, k: nat)
    requires UniqueProducts(items)
    requires k < |items| && items[k].productId == product.id
    ensures |AddedItems(items, product, quantity, newId)| == |items|
    ensures AddedItems(items, product, quantity, newId)[k] == items[k].(quantity := items[k].quantity + quantity)
    ensures forall j :: 0 <= j < |items| && j != k ==> AddedItems(items, product, quantity, newId)[j] == items[j]
    ensures TotalItems(AddedItems(items, product, quantity, newId)) == TotalItems(items) + quantity
    ensures TotalPrice(AddedItems(items, product, quantity, newId)) == TotalPrice(items) + items[k].price * quantity
  {
    var r := AddedItems(items, product, quantity, newId);
    assert r == MergeQuantity(items, product.id, quantity);
    forall j | 0 <= j < |items| && j != k ensures r[j] == items[j] {
      if j < k { assert items[j].productId != items[k].productId; }
      else { assert items[k].productId != items[j].productId; }
    }
    TotalsAfterReplace(items, r, k);
    assert items[k].price * (items[k].quantity + quantity)
        == items[k].price * items[k].quantity + items[k].price * quantity;
  }

  /**
   * `addItem` for a product not yet in the cart appends exactly one line at
   * the end, carrying the product's name, price and image and the given
   * quantity; the totals grow by that line.
   */
  lemma AddNewProduct(items: seq<CartItem>, product: Product, quantity: int, newId: string)
    requires !HasProduct(items, product.id)
    ensures AddedItems(items, product, quantity, newId)
         == items + [CartItem(newId, product.id, product.name, product.price, quantity, product.imageUrl)]
    ensures TotalItems(AddedItems(items, product, quantity, newId)) == TotalItems(items) + quantity
    ensures TotalPrice(AddedItems(items, product, quantity, newId)) == TotalPrice(items) + product.price * quantity
  {
    var line := NewItem(product, quantity, newId);
    TotalsAppend(items, [line]);
    assert [line][1..] == [];
  }

  /** `addItem` keeps product ids unique. */
  lemma AddKeepsUnique(items: seq<CartItem>, product: Product, quantity: int, newId: string)
    requires UniqueProducts(items)
    ensures UniqueProducts(AddedItems(items, product, quantity, newId))
  {
    var r := AddedItems(items, product, quantity, newId);
    if HasProduct(items, product.id) {
      forall j | 0 <= j < |items| ensures r[j].productId == items[j].productId { }
    } else {
      assert forall j :: 0 <= j < |items| ==> r[j] == items[j];
    }
  }

  /** Adding the same product twice gives one line with the summed quantity, not two lines. */
  lemma AddTwice(items: seq<CartItem>, product: Product, q1: int, q2: int, id1: string, id2: string)
    ensures AddedItems(AddedItems(items, product, q1, id1), product, q2, id2)
         == AddedItems(items, product, q1 + q2, id1)
  {
    var once := AddedItems(items, product, q1, id1);
    var twice := AddedItems(once, product, q2, id2);
    var both := AddedItems(items, product, q1 + q2, id1);
    if HasProduct(items, product.id) {
      var k :| 0 <= k < |items| && items[k].productId == product.id;
      assert once[k].productId == product.id;
      assert twice == MergeQuantity(once, product.id, q2);
      assert |twice| == |both|;
      forall j | 0 <= j < |twice| ensures twice[j] == both[j] { }
    } else {
      assert once[|items|].productId == product.id;
      assert twice == MergeQuantity(once, product.id, q2);
      assert |twice| == |both|;
      forall j | 0 <= j < |twice| ensures twice[j] == both[j] {
        if j < |items| { assert items[j].productId != product.id; }
      }
    }
  }

  /**
   * `removeItem(productId)` leaves no line for `productId`, keeps every other
   * line in its original order, and changes nothing when the product is absent.
   */
  lemma RemoveItemContents(items: seq<CartItem>, productId: string)
    ensures !HasProduct(WithoutProduct(items, productId), productId)
    ensures Seqs.IsSubsequence(WithoutProduct(items, productId), items)
    ensures forall x :: x in items && x.productId != productId ==> x in WithoutProduct(items, productId)
    ensures !HasProduct(items, productId) ==> WithoutProduct(items, productId) == items
  {
    var r := WithoutProduct(items, productId);
    Seqs.FilterIsSubsequence(items, (item: CartItem) => item.productId != productId);
    forall k | 0 <= k < |r| ensures r[k].productId != productId {
      assert r[k] in r;
    }
    if !HasProduct(items, productId) {
      Seqs.FilterKeepsAll(items, (item: CartItem) => item.productId != productId);
    }
  }

  /** `removeItem` keeps product ids unique. */
  lemma {:induction false} RemoveKeepsUnique(items: seq<CartItem>, productId: string)
    requires UniqueProducts(items)
    ensures UniqueProducts(WithoutProduct(items, productId))
  {
    if items != [] {
      UniqueTail(items);
      RemoveKeepsUnique(items[1..], productId);
      var rest := WithoutProduct(items[1..], productId);
      var r := WithoutProduct(items, productId);
      if items[0].productId != productId {
        assert r == [items[0]] + rest;
        forall i, j | 0 <= i < j < |r| ensures r[i].productId != r[j].productId {
          assert r[j] == rest[j - 1] && rest[j - 1] in rest;
          if i > 0 { assert r[i] == rest[i - 1]; }
        }
      } else {
        assert r == rest;
      }
    }
  }

  /** Removing the line for a product lowers the totals by exactly that line. */
  lemma {:induction false} RemoveTotals(items: seq<CartItem>, productId: string, k: nat)
    requires UniqueProducts(items)
    requires k < |items| && items[k].productId == productId
    ensures TotalItems(WithoutProduct(items, productId)) == TotalItems(items) - items[k].quantity
    ensures TotalPrice(WithoutProduct(items, productId)) == TotalPrice(items) - items[k].price * items[k].quantity
  {
    UniqueTail(items);
    if k == 0 {
      Seqs.FilterKeepsAll(items[1..], (item: CartItem) => item.productId != productId);
    } else {
      RemoveTotals(items[1..], productId, k - 1);
    }
  }

  /**
   * `updateQuantity(productId, quantity)` on a line present in the cart sets
   * only that line's quantity; the number of lines, every other line, and
   * uniqueness are kept, and the totals move by the difference.
   */
  lemma UpdatePresent(items: seq<CartItem>, productId: string, quantity: int, k: nat)
    requires UniqueProducts(items)
    requires k < |items| && items[k].productId == productId
    ensures |SetQuantity(items, productId, quantity)| == |items|
    ensures SetQuantity(items, productId, quantity)[k] == items[k].(quantity := quantity)
    ensures forall j :: 0 <= j < |items| && j != k ==> SetQuantity(items, productId, quantity)[j] == items[j]
    ensures UniqueProducts(SetQuantity(items, productId, quantity))
    ensures TotalItems(SetQuantity(items, productId, quantity)) == TotalItems(items) - items[k].quantity + quantity
    ensures TotalPrice(SetQuantity(items, productId, quantity))
         == TotalPrice(items) - items[k].price * items[k].quantity + items[k].price * quantity
  {
    var r := SetQuantity(items, productId, quantity);
    forall j | 0 <= j < |items| && j != k ensures r[j] == items[j] {
      if j < k { assert items[j].productId != items[k].productId; }
      else { assert items[k].productId != items[j].productId; }
    }
    assert forall j :: 0 <= j < |items| ==> r[j].productId == items[j].productId;
    TotalsAfterReplace(items, r, k);
  }

  /** `updateQuantity` for a product not in the cart changes nothing. */
  lemma UpdateAbsent(items: seq<CartItem>, productId: string, quantity: int)
    requires !HasProduct(items, productId)
    ensures SetQuantity(items, productId, quantity) == items
  {
    var r := SetQuantity(items, productId, quantity);
    forall j | 0 <= j < |items| ensures r[j] == items[j] {
      assert items[j].productId != productId;
    }
  }

  /**
   * The cart store. `Valid()` is the invariant every operation keeps: the two
   * totals agree with the lines, and no product has two lines.
   */
  class CartStore {
    var items: seq<CartItem>
    var totalItems: int
    var totalPrice: int

    ghost predicate Valid()
      reads this
    {
      && totalItems == TotalItems(items)
      && totalPrice == TotalPrice(items)
      && UniqueProducts(items)
    }

    /** The store's initial state. */
    constructor ()
      ensures Valid()
      ensures items == [] && totalItems == 0 && totalPrice == 0
    {
      items, totalItems, totalPrice := [], 0, 0;
    }

    /** `addItem(product, quantity)`; `newId` is the fresh line id. */
    method AddItem(product: Product, quantity: int, newId: string)
      requires Valid()
      modifies this
      ensures Valid()
      ensures items == AddedItems(old(items), product, quantity, newId)
      ensures totalItems == old(totalItems) + quantity
      ensures forall k :: 0 <= k < |old(items)| && old(items)[k].productId == product.id ==>
                totalPrice == old(totalPrice) + old(items)[k].price * quantity
      ensures !HasProduct(old(items), product.id) ==> totalPrice == old(totalPrice) + product.price * quantity
    {
      var updated := AddedItems(items, product, quantity, newId);
      AddKeepsUnique(items, product, quantity, newId);
      if HasProduct(items, product.id) {
        forall k | 0 <= k < |items| && items[k].productId == product.id
          ensures TotalItems(updated) == totalItems + quantity
          ensures TotalPrice(updated) == totalPrice + items[k].price * quantity
        {
          AddToExisting(items, product, quantity, newId, k);
        }
      } else {
        AddNewProduct(items, product, quantity, newId);
      }
      items, totalItems, totalPrice := updated, TotalItems(updated), TotalPrice(updated);
    }

    /** `removeItem(productId)`. */
    method RemoveItem(productId: string)
      requires Valid()
      modifies this
      ensures Valid()
      ensures items == WithoutProduct(old(items), productId)
      ensures forall k :: 0 <= k < |old(items)| && old(items)[k].productId == productId ==>
                totalItems == old(totalItems) - old(items)[k].quantity &&
                totalPrice == old(totalPrice) - old(items)[k].price * old(items)[k].quantity
      ensures !HasProduct(old(items), productId) ==> items == old(items)
    {
      var updated := WithoutProduct(items, productId);
      RemoveKeepsUnique(items, productId);
      RemoveItemContents(items, productId);
      forall k | 0 <= k < |items| && items[k].productId == productId
        ensures TotalItems(updated) == totalItems - items[k].quantity
        ensures TotalPrice(updated) == totalPrice - items[k].price * items[k].quantity
      {
        RemoveTotals(items, productId, k);
      }
      items, totalItems, totalPrice := updated, TotalItems(updated), TotalPrice(updated);
    }

    /** `updateQuantity(productId, quantity)`: a quantity of zero or less removes the line. */
    method UpdateQuantity(productId: string, quantity: int)
      requires Valid()
      modifies this
      ensures Valid()
      ensures quantity <= 0 ==> items == WithoutProduct(old(items), productId)
      ensures quantity > 0 ==> items == SetQuantity(old(items), productId, quantity)
      ensures quantity > 0 ==> forall k :: 0 <= k < |old(items)| && old(items)[k].productId == productId ==>
                totalItems == old(totalItems) - old(items)[k].quantity + quantity
    {
      if quantity <= 0 {
        RemoveItem(productId);
        return;
      }
      var updated := SetQuantity(items, productId, quantity);
      if HasProduct(items, productId) {
        var k :| 0 <= k < |items| && items[k].productId == productId;
        UpdatePresent(items, productId, quantity, k);
        forall k' | 0 <= k' < |items| && items[k'].productId == productId
          ensures TotalItems(updated) == totalItems - items[k'].quantity + quantity
        {
          assert k' == k;
        }
      } else {
        UpdateAbsent(items, productId, quantity);
      }
      items, totalItems, totalPrice := updated, TotalItems(updated), TotalPrice(updated);
    }

    /** `clearCart()`: from any state, an empty cart with zero totals. */
    method ClearCart()
      modifies this
      ensures Valid()
      ensures items == [] && totalItems == 0 && totalPrice == 0
    {
      items, totalItems, totalPrice := [], 0, 0;
    }
  }
}
