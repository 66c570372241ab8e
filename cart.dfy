/**
 * The page-global cart of cart.js: an array of `{id, name, price, image,
 * quantity}` changed in place by `addToCart`, `removeFromCart` and
 * `updateQuantity`, with the count and the summary derived from it. Prices
 * here are in naira.
 */
module ClientCart {
  import opened Wrappers
  import opened Catalog
  import ServerOrders

  /** The object `addToCart` receives. */
  datatype CartProduct = CartProduct(id: ItemId, name: string, price: int, image: string)

  /** One element of the `cart` array. */
  datatype CartItem = CartItem(id: ItemId, name: string, price: int, image: string, quantity: int)

  /** The element `addToCart` pushes for a product not yet in the cart. */
  function NewItem(p: CartProduct): CartItem {
    CartItem(p.id, p.name, p.price, p.image, 1)
  }

  /** The index of the element `cart.find(item => item.id === id)` returns, if there is one. */
  function FirstIndexOf(items: seq<CartItem>, id: ItemId): (r: Option<nat>)
    ensures r.Some? ==> (r.value < |items| && items[r.value].id == id
                         && forall j :: 0 <= j < r.value ==> items[j].id != id)
    ensures r.None? ==> forall j :: 0 <= j < |items| ==> items[j].id != id
  {
    if items == [] then None
    else if items[0].id == id then Some(0)
    else
      match FirstIndexOf(items[1..], id)
      case None => None
      case Some(k) => Some(k + 1)
  }

  /** The cart after `addToCart(p)`: the first element with `p`'s id gains one, or `p` is appended with quantity 1. */
  function Added(items: seq<CartItem>, p: CartProduct): seq<CartItem> {
    match FirstIndexOf(items, p.id)
    case Some(k) => items[k := items[k].(quantity := items[k].quantity + 1)]
    case None => items + [NewItem(p)]
  }

  /** The position `splice(index, 1)` starts at: a negative index counts from the end, and both ends are clamped. */
  function SpliceStart(len: nat, index: int): (start: nat)
    ensures start <= len
    ensures 0 <= index <= len ==> start == index
    ensures index > len ==> start == len
    ensures index < 0 ==> start == if len + index < 0 then 0 else len + index
  {
    if index < 0 then (if len + index < 0 then 0 else len + index)
    else if index > len then len
    else index
  }

  /** The cart after `cart.splice(index, 1)`. */
  function Spliced(items: seq<CartItem>, index: int): seq<CartItem> {
    var start := SpliceStart(|items|, index);
    if start < |items| then items[..start] + items[start + 1..] else items
  }

  /** `q += change; if (q < 1) q = 1;`: the smallest quantity that is at least 1 and at least the sum. */
  function ClampedSum(quantity: int, change: int): (r: int)
    ensures r >= 1 && r >= quantity + change
    ensures r == 1 || r == quantity + change
  {
    var q := quantity + change;
    if q < 1 then 1 else q
  }

  /** The cart after `updateQuantity(index, change)` for an index inside the array. */
  function Bumped(items: seq<CartItem>, index: nat, change: int): seq<CartItem>
    requires index < |items|
  {
    items[index := items[index].(quantity := ClampedSum(items[index].quantity, change))]
  }

  /** `cart.reduce((sum, item) => sum + item.quantity, 0)`, shown by `updateCartCount`. */
  function TotalQuantity(items: seq<CartItem>): int {
    if items == [] then 0 else TotalQuantity(items[..|items| - 1]) + items[|items| - 1].quantity
  }

  /** `cart.reduce((sum, item) => sum + (item.price * item.quantity), 0)` */
  function Subtotal(items: seq<CartItem>): int {
    if items == [] then 0
    else Subtotal(items[..|items| - 1]) + items[|items| - 1].price * items[|items| - 1].quantity
  }

  /** Every quantity is at least one. */
  predicate QuantitiesPositive(items: seq<CartItem>) {
    forall k :: 0 <= k < |items| ==> items[k].quantity >= 1
  }

  /** No id occurs twice. */
  predicate UniqueItemIds(items: seq<CartItem>) {
    forall j, k :: 0 <= j < k < |items| ==> items[j].id != items[k].id
  }

  /** The four amounts `updateCartSummary` displays; tax is the exact 7.5% of the subtotal. */
  datatype Summary = Summary(subtotal: int, shipping: int, tax: real, total: real)

  /** Shipping is free for a subtotal strictly above ₦50,000. */
  const FreeShippingAboveNaira: int := 50000
  /** Otherwise shipping costs ₦1,500. */
  const FlatShippingNaira: int := 1500

  /** Lines 112-115 of cart.js. */
  function CartSummary(items: seq<CartItem>): (s: Summary)
    ensures s.subtotal == Subtotal(items)
    ensures s.shipping == 0 <==> s.subtotal > FreeShippingAboveNaira
    ensures s.shipping != 0 ==> s.shipping == FlatShippingNaira
    ensures s.tax == s.subtotal as real * 3.0 / 40.0
    ensures s.total == s.subtotal as real + s.shipping as real + s.tax
  {
    var subtotal := Subtotal(items);
    var shipping := if subtotal > 50000 then 0 else 1500;
    var tax := subtotal as real * 0.075;
    Summary(subtotal, shipping, tax, subtotal as real + shipping as real + tax)
  }

  /**
   * The page and the order endpoint agree for a subtotal in whole naira: the
   * server's shipping in kobo is the page's times 100, and the server's tax in
   * kobo is the page's exact tax converted to kobo, rounded half up.
   */
  lemma SummaryAgreesWithServer(items: seq<CartItem>)
    ensures ServerOrders.Shipping(100 * CartSummary(items).subtotal) == 100 * CartSummary(items).shipping
    ensures -0.5 < ServerOrders.Tax(100 * CartSummary(items).subtotal) as real - 100.0 * CartSummary(items).tax <= 0.5
  {
    var s := CartSummary(items);
    var t := ServerOrders.Tax(100 * s.subtotal);
    assert 1000 * t - 500 <= 7500 * s.subtotal < 1000 * t + 500;
    assert 100.0 * s.tax == 7.5 * s.subtotal as real;
    assert (1000 * t) as real - 500.0 <= (7500 * s.subtotal) as real < (1000 * t) as real + 500.0;
    var x := 7.5 * s.subtotal as real;
    assert 1000.0 * t as real - 500.0 <= 1000.0 * x < 1000.0 * t as real + 500.0;
    assert t as real - 0.5 <= x < t as real + 0.5;
  }

  // Sums over a changed cart.

  lemma {:induction false} TotalQuantityAppend(a: seq<CartItem>, b: seq<CartItem>)
    ensures TotalQuantity(a + b) == TotalQuantity(a) + TotalQuantity(b)
  {
    if b == [] {
      assert a + b == a;
    } else {
      assert (a + b)[..|a + b| - 1] == a + b[..|b| - 1];
      TotalQuantityAppend(a, b[..|b| - 1]);
    }
  }

  lemma TotalQuantityUpdate(items: seq<CartItem>, k: nat, x: CartItem)
    requires k < |items|
    ensures TotalQuantity(items[k := x]) == TotalQuantity(items) - items[k].quantity + x.quantity
  {
    assert items == items[..k] + [items[k]] + items[k + 1..];
    assert items[k := x] == items[..k] + [x] + items[k + 1..];
    TotalQuantityAppend(items[..k] + [items[k]], items[k + 1..]);
    TotalQuantityAppend(items[..k] + [x], items[k + 1..]);
    TotalQuantityAppend(items[..k], [items[k]]);
    TotalQuantityAppend(items[..k], [x]);
    assert TotalQuantity([x]) == x.quantity by { assert [x][..0] == []; }
    assert TotalQuantity([items[k]]) == items[k].quantity by { assert [items[k]][..0] == []; }
  }

  /** When every quantity is at least one the count is at least the number of lines. */
  lemma {:induction false} CountCoversLines(items: seq<CartItem>)
    ensures QuantitiesPositive(items) ==> TotalQuantity(items) >= |items|
  {
    if items != [] && QuantitiesPositive(items) {
      CountCoversLines(items[..|items| - 1]);
    }
  }

  // addToCart

  /** For a product already in the cart: the length stays, the first element with its id gains exactly one, and nothing else changes. */
  lemma AddExistingIncrements(items: seq<CartItem>, p: CartProduct, k: nat)
    requires k < |items| && items[k].id == p.id
    requires forall j :: 0 <= j < k ==> items[j].id != p.id
    ensures |Added(items, p)| == |items|
    ensures Added(items, p)[k] == items[k].(quantity := items[k].quantity + 1)
    ensures forall j :: 0 <= j < |items| && j != k ==> Added(items, p)[j] == items[j]
    ensures TotalQuantity(Added(items, p)) == TotalQuantity(items) + 1
  {
    var r := FirstIndexOf(items, p.id);
    assert r == Some(k);
    TotalQuantityUpdate(items, k, items[k].(quantity := items[k].quantity + 1));
  }

  /** For a new product: it is appended with quantity 1 and ids that were unique stay unique. */
  lemma AddNewAppends(items: seq<CartItem>, p: CartProduct)
    requires forall j :: 0 <= j < |items| ==> items[j].id != p.id
    ensures Added(items, p) == items + [NewItem(p)]
    ensures UniqueItemIds(items) ==> UniqueItemIds(Added(items, p))
    ensures TotalQuantity(Added(items, p)) == TotalQuantity(items) + 1
  {
    TotalQuantityAppend(items, [NewItem(p)]);
    assert TotalQuantity([NewItem(p)]) == 1 by { assert [NewItem(p)][..0] == []; }
  }

  /** `addToCart` keeps every quantity at least one and every id unique, and adds one to the count. */
  lemma AddKeepsInvariants(items: seq<CartItem>, p: CartProduct)
    ensures QuantitiesPositive(items) ==> QuantitiesPositive(Added(items, p))
    ensures UniqueItemIds(items) ==> UniqueItemIds(Added(items, p))
    ensures TotalQuantity(Added(items, p)) == TotalQuantity(items) + 1
  {
    match FirstIndexOf(items, p.id)
    case Some(k) => AddExistingIncrements(items, p, k);
    case None => AddNewAppends(items, p);
  }

  // removeFromCart

  /** For an index inside the cart exactly that element goes, the others keep their order, and the count drops by its quantity. */
  lemma RemoveInRange(items: seq<CartItem>, index: int)
    requires 0 <= index < |items|
    ensures Spliced(items, index) == items[..index] + items[index + 1..]
    ensures |Spliced(items, index)| == |items| - 1
    ensures TotalQuantity(Spliced(items, index)) == TotalQuantity(items) - items[index].quantity
  {
    assert items == items[..index] + [items[index]] + items[index + 1..];
    TotalQuantityAppend(items[..index] + [items[index]], items[index + 1..]);
    TotalQuantityAppend(items[..index], [items[index]]);
    TotalQuantityAppend(items[..index], items[index + 1..]);
    assert TotalQuantity([items[index]]) == items[index].quantity by { assert [items[index]][..0] == []; }
  }

  /** An index at or past the end removes nothing; a negative one removes from the end, `-1` the last element. */
  lemma RemoveOutOfRange(items: seq<CartItem>, index: int)
    ensures index >= |items| ==> Spliced(items, index) == items
    ensures -|items| <= index < 0 ==> Spliced(items, index) == Spliced(items, |items| + index)
  {
  }

  /** `removeFromCart` keeps every quantity at least one and every id unique. */
  lemma RemoveKeepsInvariants(items: seq<CartItem>, index: int)
    ensures QuantitiesPositive(items) ==> QuantitiesPositive(Spliced(items, index))
    ensures UniqueItemIds(items) ==> UniqueItemIds(Spliced(items, index))
  {
    var start := SpliceStart(|items|, index);
    if start < |items| {
      DropKeepsInvariants(items, start);
    }
  }

  /** Dropping the element at `start` keeps both invariants. */
  lemma DropKeepsInvariants(items: seq<CartItem>, start: nat)
    requires start < |items|
    ensures QuantitiesPositive(items) ==> QuantitiesPositive(items[..start] + items[start + 1..])
    ensures UniqueItemIds(items) ==> UniqueItemIds(items[..start] + items[start + 1..])
  {
    var r := items[..start] + items[start + 1..];
    forall k | 0 <= k < |r|
      ensures r[k] == items[Skip(start, k)]
    {
      if k < start {
        assert r[k] == items[..start][k];
      } else {
        assert r[k] == items[start + 1..][k - start];
      }
    }
    if UniqueItemIds(items) {
      forall j, k | 0 <= j < k < |r|
        ensures r[j].id != r[k].id
      {
        assert Skip(start, j) < Skip(start, k);
      }
    }
  }

  /** The index in the old cart of element k after removing index `start`. */
  function Skip(start: nat, k: nat): (i: nat)
    ensures i == k || i == k + 1
  {
    if k < start then k else k + 1
  }

  // updateQuantity

  /** `updateQuantity(i, change)` sets element i's quantity to the larger of 1 and old + change, changes nothing else, and keeps the invariants. */
  lemma UpdateQuantityEffect(items: seq<CartItem>, index: nat, change: int)
    requires index < |items|
    ensures |Bumped(items, index, change)| == |items|
    ensures Bumped(items, index, change)[index].quantity >= 1
    ensures Bumped(items, index, change)[index].quantity == if items[index].quantity + change > 1 then items[index].quantity + change else 1
    ensures forall j :: 0 <= j < |items| && j != index ==> Bumped(items, index, change)[j] == items[j]
    ensures QuantitiesPositive(items) ==> QuantitiesPositive(Bumped(items, index, change))
    ensures UniqueItemIds(items) ==> UniqueItemIds(Bumped(items, index, change))
    ensures TotalQuantity(Bumped(items, index, change)) ==
      TotalQuantity(items) - items[index].quantity + Bumped(items, index, change)[index].quantity
  {
    TotalQuantityUpdate(items, index, Bumped(items, index, change)[index]);
  }

  /** The cart the page works on, loaded unchecked from storage. */
  class Cart {
    var items: seq<CartItem>

    /** `JSON.parse(localStorage.getItem('cart')) || []` */
    constructor (stored: Option<seq<CartItem>>)
      ensures items == stored.GetOr([])
    {
      items := stored.GetOr([]);
    }

    /** The number shown by `updateCartCount`. */
    function Count(): (n: int)
      reads this
      ensures n == TotalQuantity(items)
      ensures QuantitiesPositive(items) ==> n >= |items|
    {
      CountCoversLines(items);
      TotalQuantity(items)
    }

    /** The amounts shown by `updateCartSummary`. */
    function Summary(): Summary
      reads this
    {
      CartSummary(items)
    }

    /** `addToCart(product)`: find the element with the same id; bump it, or push a new one. */
    method AddToCart(product: CartProduct)
      modifies this
      ensures items == Added(old(items), product)
      ensures Count() == old(Count()) + 1
      ensures old(QuantitiesPositive(items)) ==> QuantitiesPositive(items)
      ensures old(UniqueItemIds(items)) ==> UniqueItemIds(items)
    {
      AddKeepsInvariants(items, product);
      var i := 0;
      while i < |items| && items[i].id != product.id
        invariant 0 <= i <= |items|
        invariant forall j :: 0 <= j < i ==> items[j].id != product.id
      {
        i := i + 1;
      }
      if i < |items| {
        items := items[i := items[i].(quantity := items[i].quantity + 1)];
      } else {
        items := items + [NewItem(product)];
      }
    }

    /** `removeFromCart(index)`: `cart.splice(index, 1)`. */
    method RemoveFromCart(index: int)
      modifies this
      ensures items == Spliced(old(items), index)
      ensures old(QuantitiesPositive(items)) ==> QuantitiesPositive(items)
      ensures old(UniqueItemIds(items)) ==> UniqueItemIds(items)
    {
      RemoveKeepsInvariants(items, index);
      var start := SpliceStart(|items|, index);
      if start < |items| {
        items := items[..start] + items[start + 1..];
      }
    }

    /**
     * `updateQuantity(index, change)`. For an index outside the array
     * `cart[index]` is undefined and the call throws before changing anything:
     * `ok` is false then.
     */
    method UpdateQuantity(index: int, change: int) returns (ok: bool)
      modifies this
      ensures ok <==> 0 <= index < |old(items)|
      ensures ok ==> items == Bumped(old(items), index, change)
      ensures !ok ==> items == old(items)
      ensures old(QuantitiesPositive(items)) ==> QuantitiesPositive(items)
      ensures old(UniqueItemIds(items)) ==> UniqueItemIds(items)
    {
      if index < 0 || index >= |items| {
        return false;
      }
      UpdateQuantityEffect(items, index, change);
      var q := items[index].quantity + change;
      if q < 1 {
        q := 1;
      }
      items := items[index := items[index].(quantity := q)];
      ok := true;
    }
  }
}
