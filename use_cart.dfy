/**
 A model of the shopping-cart state kept by `CartProvider` (src/hooks/useCart.tsx).

 The cart is an ordered sequence of line items keyed by product id. Three
 operations change it: add one unit of a product, remove a product, and set
 the amount of a product. Every accepted change is written through to a
 single storage slot; every rejected change emits one notification and
 leaves both the cart and the slot as they were.

 The remote stock and catalog lookups are given to the operations as
 parameters (`Remote<T>`), the storage slot is an `Option` of a cart, and the
 notification is recorded as a `Msg` category.
 */
module UseCart {

  datatype Option<+T> = None | Some(value: T)

  /** The answer of a remote lookup: a value, or a failed call. */
  datatype Remote<+T> = Ok(value: T) | Fail

  /** Product attributes other than id and amount (name, price, image, ...). */
  type Attributes(==)

  /** A cart line item, or a product record returned by the catalog. */
  datatype Item = Item(id: int, amount: int, attrs: Attributes)

  /** The notification categories the cart emits. */
  datatype Msg = OutOfStock | AddError | RemoveError | UpdateError

  /** What an operation decides: a new cart to commit, a refusal with its
      notification, or a silent no-op. */
  datatype Outcome = Changed(cart: seq<Item>) | Refused(msg: Msg) | Ignored

  // ---------------------------------------------------------------------
  // Cart predicates

  predicate InCart(cart: seq<Item>, id: int) {
    exists j :: 0 <= j < |cart| && cart[j].id == id
  }

  /** `k` is the position of the first item of `cart` with this id. */
  predicate FirstMatch(cart: seq<Item>, id: int, k: int) {
    && 0 <= k < |cart|
    && cart[k].id == id
    && forall j :: 0 <= j < k ==> cart[j].id != id
  }

  /** At most one line item per product id. */
  predicate UniqueIds(cart: seq<Item>) {
    forall i, j :: 0 <= i < j < |cart| ==> cart[i].id != cart[j].id
  }

  /** Every line item has a positive amount. */
  predicate PositiveAmounts(cart: seq<Item>) {
    forall i :: 0 <= i < |cart| ==> cart[i].amount >= 1
  }

  predicate WellFormed(cart: seq<Item>) {
    UniqueIds(cart) && PositiveAmounts(cart)
  }

  // ---------------------------------------------------------------------
  // Specification of the operations

  /** The index `Array.prototype.findIndex` returns for the predicate
      "item.id equals id": the first match, or -1 when there is none. */
  function IndexOf(cart: seq<Item>, id: int): (r: int)
    ensures -1 <= r < |cart|
    ensures r >= 0 ==> FirstMatch(cart, id, r)
    ensures r < 0 <==> !InCart(cart, id)
  {
    if |cart| == 0 then -1
    else if cart[0].id == id then 0
    else
      var k := IndexOf(cart[1..], id);
      if k < 0 then -1 else k + 1
  }

  /** The cart that results from an outcome. */
  function After(cart: seq<Item>, o: Outcome): (c: seq<Item>) {
    if o.Changed? then o.cart else cart
  }

  /** What the slot holds after an outcome. */
  function StoredAfter(stored: Option<seq<Item>>, o: Outcome): (s: Option<seq<Item>>) {
    if o.Changed? then Some(o.cart) else stored
  }

  /** The cart read back from the storage slot: its value, or empty. */
  function Load(stored: Option<seq<Item>>): (c: seq<Item>) {
    if stored.Some? then stored.value else []
  }

  /** addProduct: fetch stock; bump an existing item below stock, or fetch
      the product and append it with amount 1. */
  function Add(cart: seq<Item>, id: int, stock: Remote<int>, catalog: Remote<Item>): (o: Outcome)
    ensures !o.Ignored?
    ensures o.Refused? ==> o.msg == OutOfStock || o.msg == AddError
    ensures o.Changed? ==> stock.Ok?
    ensures o.Changed? && InCart(cart, id) ==> |o.cart| == |cart|
    ensures o.Changed? && !InCart(cart, id) ==> |o.cart| == |cart| + 1 && o.cart[..|cart|] == cart
  {
    if stock.Fail? then Refused(AddError)
    else
      var i := IndexOf(cart, id);
      if i >= 0 then
        if cart[i].amount >= stock.value then Refused(OutOfStock)
        else Changed(cart[i := cart[i].(amount := cart[i].amount + 1)])
      else if catalog.Fail? then Refused(AddError)
      else Changed(cart + [catalog.value.(amount := 1)])
  }

  /** removeProduct: splice out the first item with the id, or fail. */
  function Remove(cart: seq<Item>, id: int): (o: Outcome)
    ensures !o.Ignored?
    ensures o.Refused? <==> !InCart(cart, id)
    ensures o.Refused? ==> o.msg == RemoveError
    ensures o.Changed? ==> |o.cart| == |cart| - 1
  {
    var i := IndexOf(cart, id);
    if i < 0 then Refused(RemoveError)
    else Changed(cart[..i] + cart[i + 1..])
  }

  /** updateProductAmount: ignore a non-positive amount; fetch stock; refuse
      an amount above stock; set the amount of the matching item. Indexing
      the copy at -1 when the id is absent throws, which the catch turns
      into the generic update error. */
  function Update(cart: seq<Item>, id: int, amount: int, stock: Remote<int>): (o: Outcome)
    ensures o.Ignored? <==> amount <= 0
    ensures o.Refused? ==> o.msg == OutOfStock || o.msg == UpdateError
    ensures o.Changed? ==> stock.Ok? && 0 < amount <= stock.value && |o.cart| == |cart|
  {
    if amount <= 0 then Ignored
    else if stock.Fail? then Refused(UpdateError)
    else if amount > stock.value then Refused(OutOfStock)
    else
      var i := IndexOf(cart, id);
      if i < 0 then Refused(UpdateError)
      else Changed(cart[i := cart[i].(amount := amount)])
  }

  // ---------------------------------------------------------------------
  // Properties of addProduct

  /** A failed remote call, and only that, yields the generic add error. */
  lemma AddRemoteFailure(cart: seq<Item>, id: int, stock: Remote<int>, catalog: Remote<Item>)
    ensures Add(cart, id, stock, catalog) == Refused(AddError)
        <==> stock.Fail? || (!InCart(cart, id) && catalog.Fail?)
  {}

  /** An existing item: out of stock exactly when its amount has reached the
      reported stock; otherwise exactly that item's amount rises by one, so
      it never passes the stock. */
  lemma AddExisting(cart: seq<Item>, id: int, stock: int, catalog: Remote<Item>, k: int)
    requires FirstMatch(cart, id, k)
    ensures Add(cart, id, Ok(stock), catalog) == Refused(OutOfStock) <==> cart[k].amount >= stock
    ensures var o := Add(cart, id, Ok(stock), catalog);
      cart[k].amount < stock ==>
        && o.Changed?
        && |o.cart| == |cart|
        && o.cart[k] == Item(id, cart[k].amount + 1, cart[k].attrs)
        && (forall j :: 0 <= j < |cart| && j != k ==> o.cart[j] == cart[j])
    ensures var o := Add(cart, id, Ok(stock), catalog);
      o.Changed? ==> o.cart[k].amount <= stock
  {}

  /** A new product: appended at the end with amount 1 and the catalog's
      attributes, whatever the reported stock; earlier items unchanged. */
  lemma AddNew(cart: seq<Item>, id: int, stock: int, p: Item)
    requires !InCart(cart, id)
    ensures var o := Add(cart, id, Ok(stock), Ok(p));
      && o.Changed?
      && |o.cart| == |cart| + 1
      && o.cart[..|cart|] == cart
      && o.cart[|cart|] == Item(p.id, 1, p.attrs)
  {}

  /** Add keeps at most one item per id and every amount positive, given
      that the catalog returns the product that was asked for. */
  lemma AddPreservesWellFormed(cart: seq<Item>, id: int, stock: Remote<int>, catalog: Remote<Item>)
    requires WellFormed(cart)
    requires catalog.Ok? ==> catalog.value.id == id
    ensures WellFormed(After(cart, Add(cart, id, stock, catalog)))
  {}

  /** `n` adds of a product already in the cart, each seeing the same stock. */
  function AddTimes(cart: seq<Item>, id: int, stock: int, n: nat): (c: seq<Item>)
    decreases n
  {
    if n == 0 then cart
    else
      var c := AddTimes(cart, id, stock, n - 1);
      After(c, Add(c, id, Ok(stock), Fail))
  }

  function Min(a: int, b: int): (m: int) { if a <= b then a else b }

  /** Repeated adds raise the amount one at a time up to the stock and then
      stop there; no other item changes. */
  lemma {:induction false} AddTimesCapsAtStock(cart: seq<Item>, id: int, stock: int, n: nat, k: int)
    requires FirstMatch(cart, id, k)
    ensures var c := AddTimes(cart, id, stock, n);
      && |c| == |cart|
      && FirstMatch(c, id, k)
      && c[k].attrs == cart[k].attrs
      && c[k].amount == (if cart[k].amount >= stock then cart[k].amount
                         else Min(cart[k].amount + n, stock))
      && (forall j :: 0 <= j < |cart| && j != k ==> c[j] == cart[j])
    decreases n
  {
    if n > 0 {
      AddTimesCapsAtStock(cart, id, stock, n - 1, k);
      var c := AddTimes(cart, id, stock, n - 1);
      AddExisting(c, id, stock, Fail, k);
    }
  }

  // ---------------------------------------------------------------------
  // Properties of removeProduct

  /** Removing an absent id changes nothing and yields the remove error. */
  lemma RemoveAbsent(cart: seq<Item>, id: int)
    requires !InCart(cart, id)
    ensures Remove(cart, id) == Refused(RemoveError)
  {}

  /** Removing a present id deletes exactly its first item; items before it
      stay in place, items after it shift down by one. */
  lemma RemovePresent(cart: seq<Item>, id: int, k: int)
    requires FirstMatch(cart, id, k)
    ensures var o := Remove(cart, id);
      && o.Changed?
      && |o.cart| == |cart| - 1
      && (forall j :: 0 <= j < k ==> o.cart[j] == cart[j])
      && (forall j :: k <= j < |o.cart| ==> o.cart[j] == cart[j + 1])
      && multiset(o.cart) + multiset{cart[k]} == multiset(cart)
  {
    assert IndexOf(cart, id) == k;
    assert cart == cart[..k] + [cart[k]] + cart[k + 1..];
  }

  /** In a cart with unique ids, a removed product is gone afterwards. */
  lemma RemoveUniqueLeavesNone(cart: seq<Item>, id: int)
    requires UniqueIds(cart)
    ensures !InCart(After(cart, Remove(cart, id)), id)
  {}

  lemma RemovePreservesWellFormed(cart: seq<Item>, id: int)
    requires WellFormed(cart)
    ensures WellFormed(After(cart, Remove(cart, id)))
  {}

  // ---------------------------------------------------------------------
  // Properties of updateProductAmount

  /** The refusals of update, each exactly characterised: a failed stock
      call or an absent id gives the update error, an amount above stock
      gives out-of-stock; all only for a positive amount. */
  lemma UpdateRejections(cart: seq<Item>, id: int, amount: int, stock: Remote<int>)
    ensures Update(cart, id, amount, stock) == Refused(OutOfStock)
        <==> amount > 0 && stock.Ok? && amount > stock.value
    ensures Update(cart, id, amount, stock) == Refused(UpdateError)
        <==> amount > 0 && (stock.Fail? || (amount <= stock.value && !InCart(cart, id)))
  {}

  /** An accepted update sets exactly the matching item's amount, an amount
      equal to the stock included. */
  lemma UpdateSetsAmount(cart: seq<Item>, id: int, amount: int, stock: int, k: int)
    requires FirstMatch(cart, id, k)
    requires 0 < amount <= stock
    ensures var o := Update(cart, id, amount, Ok(stock));
      && o.Changed?
      && |o.cart| == |cart|
      && o.cart[k] == Item(id, amount, cart[k].attrs)
      && (forall j :: 0 <= j < |cart| && j != k ==> o.cart[j] == cart[j])
  {}

  lemma UpdatePreservesWellFormed(cart: seq<Item>, id: int, amount: int, stock: Remote<int>)
    requires WellFormed(cart)
    ensures WellFormed(After(cart, Update(cart, id, amount, stock)))
  {}

  // ---------------------------------------------------------------------
  // Persistence

  /** Reading back what an outcome leaves in the slot gives the cart it
      leaves in memory, provided the two agreed before. */
  lemma WriteThrough(cart: seq<Item>, stored: Option<seq<Item>>, o: Outcome)
    requires cart == Load(stored)
    ensures Load(StoredAfter(stored, o)) == After(cart, o)
    ensures !o.Changed? ==> StoredAfter(stored, o) == stored
  {}

  // ---------------------------------------------------------------------
  // Implementation

  /** The position of the first item with this id, or -1, as `findIndex`
      returns it. */
  method FindIndex(items: seq<Item>, id: int) returns (i: int)
    ensures -1 <= i < |items|
    ensures i >= 0 ==> FirstMatch(items, id, i)
    ensures i < 0 ==> forall j :: 0 <= j < |items| ==> items[j].id != id
    ensures i == IndexOf(items, id)
  {
    var k := 0;
    while k < |items|
      invariant 0 <= k <= |items|
      invariant forall j :: 0 <= j < k ==> items[j].id != id
    {
      if items[k].id == id {
        return k;
      }
      k := k + 1;
    }
    return -1;
  }

  /** The state of `CartProvider`: the cart, the storage slot it is written
      through to, and the notification the last operation emitted. */
  class CartStore {
    var cart: seq<Item>
    var stored: Option<seq<Item>>
    var lastToast: Option<Msg>

    /** The in-memory cart is what reading the slot back would give. */
    ghost predicate Valid()
      reads this
    {
      cart == Load(stored)
    }

    /** The state after committing outcome `o` to a store that held
        `cart0` and `stored0`. */
    ghost predicate Took(o: Outcome, cart0: seq<Item>, stored0: Option<seq<Item>>)
      reads this
    {
      && cart == After(cart0, o)
      && stored == StoredAfter(stored0, o)
      && lastToast == (if o.Refused? then Some(o.msg) else None)
    }

    /** The `useState` initialiser: the stored cart if the slot holds one,
        the empty cart otherwise. */
    constructor (slot: Option<seq<Item>>)
      ensures stored == slot && lastToast == None
      ensures slot.Some? ==> cart == slot.value
      ensures slot.None? ==> cart == []
      ensures Valid()
    {
      stored := slot;
      lastToast := None;
      if slot.Some? {
        cart := slot.value;
      } else {
        cart := [];
      }
    }

    /** Commit a new cart: write the slot, then replace the state. */
    method Commit(cartArray: seq<Item>)
      modifies this
      ensures cart == cartArray && stored == Some(cartArray) && lastToast == None
    {
      stored := Some(cartArray);
      cart := cartArray;
      lastToast := None;
    }

    method AddProduct(productId: int, stock: Remote<int>, catalog: Remote<Item>)
      requires Valid()
      modifies this
      ensures Valid()
      ensures Took(Add(old(cart), productId, stock, catalog), old(cart), old(stored))
      ensures old(WellFormed(cart)) && (catalog.Ok? ==> catalog.value.id == productId)
              ==> WellFormed(cart)
    {
      ghost var cart0 := cart;
      if stock.Fail? {
        lastToast := Some(AddError);
        return;
      }
      var i := FindIndex(cart, productId);
      var cartArray := cart;
      if i >= 0 {
        if cartArray[i].amount >= stock.value {
          lastToast := Some(OutOfStock);
          return;
        }
        cartArray := cartArray[i := cartArray[i].(amount := cartArray[i].amount + 1)];
      } else {
        if catalog.Fail? {
          lastToast := Some(AddError);
          return;
        }
        var productToAdd := catalog.value.(amount := 1);
        cartArray := cartArray + [productToAdd];
      }
      Commit(cartArray);
      if WellFormed(cart0) && (catalog.Ok? ==> catalog.value.id == productId) {
        AddPreservesWellFormed(cart0, productId, stock, catalog);
      }
    }

    method RemoveProduct(productId: int)
      requires Valid()
      modifies this
      ensures Valid()
      ensures Took(Remove(old(cart), productId), old(cart), old(stored))
      ensures old(WellFormed(cart)) ==> WellFormed(cart)
    {
      ghost var cart0 := cart;
      var i := FindIndex(cart, productId);
      if i < 0 {
        lastToast := Some(RemoveError);
        return;
      }
      var cartArray := cart;
      cartArray := cartArray[..i] + cartArray[i + 1..];
      Commit(cartArray);
      if WellFormed(cart0) {
        RemovePreservesWellFormed(cart0, productId);
      }
    }

    method UpdateProductAmount(productId: int, amount: int, stock: Remote<int>)
      requires Valid()
      modifies this
      ensures Valid()
      ensures Took(Update(old(cart), productId, amount, stock), old(cart), old(stored))
      ensures old(WellFormed(cart)) ==> WellFormed(cart)
    {
      ghost var cart0 := cart;
      if amount <= 0 {
        lastToast := None;
        return;
      }
      if stock.Fail? {
        lastToast := Some(UpdateError);
        return;
      }
      if amount > stock.value {
        lastToast := Some(OutOfStock);
        return;
      }
      var i := FindIndex(cart, productId);
      if i < 0 {
        lastToast := Some(UpdateError);
        return;
      }
      var cartArray := cart;
      cartArray := cartArray[i := cartArray[i].(amount := amount)];
      Commit(cartArray);
      if WellFormed(cart0) {
        UpdatePreservesWellFormed(cart0, productId, amount, stock);
      }
    }
  }

  /** The scenario of a product with stock 5: two adds give amount 2, adds
      up to the stock succeed, the next one is refused; updating to 0 and
      removing an absent product change nothing. */
  method StockScenario(a: Attributes) {
    var p := Item(1, 0, a);
    var s := new CartStore(None);
    s.AddProduct(1, Ok(5), Ok(p));
    assert s.cart == [Item(1, 1, a)];
    s.AddProduct(1, Ok(5), Ok(p));
    assert s.cart == [Item(1, 2, a)];
    s.AddProduct(1, Ok(5), Ok(p));
    assert s.cart == [Item(1, 3, a)];
    s.AddProduct(1, Ok(5), Ok(p));
    assert s.cart == [Item(1, 4, a)];
    s.AddProduct(1, Ok(5), Ok(p));
    assert s.cart == [Item(1, 5, a)] && s.lastToast == None;
    s.AddProduct(1, Ok(5), Ok(p));
    assert s.cart == [Item(1, 5, a)] && s.lastToast == Some(OutOfStock);
    s.UpdateProductAmount(1, 0, Ok(5));
    assert s.cart == [Item(1, 5, a)] && s.lastToast == None;
    s.RemoveProduct(99);
    assert s.cart == [Item(1, 5, a)] && s.lastToast == Some(RemoveError);
    assert s.stored == Some(s.cart);
  }
}
