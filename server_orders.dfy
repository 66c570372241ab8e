/**
 * Validation and pricing of `POST /api/orders` (src/server.js): the three
 * rejections, one snapshot per request line, and the kobo arithmetic of
 * subtotal, shipping, tax and total, then the receipt in whole naira.
 */
module ServerOrders {
  import opened Wrappers
  import opened JsValues
  import opened Catalog
  import Seqs

  /** One element of the request's `items`, after `Number(...)` of its two fields. */
  datatype RequestItem = RequestItem(productId: Num, quantity: Num)

  /**
   * One element of `items` as the JSON body delivers it. Reading a field of
   * `null` throws; any other value has its fields read, a non-object's as
   * `undefined`, which `Number` turns into NaN.
   */
  datatype Line = Null | Object(item: RequestItem)

  /** No element of `items` is `null`. */
  predicate NoNullLines(lines: seq<Line>) {
    forall k :: 0 <= k < |lines| ==> lines[k].Object?
  }

  /** The fields read from each line, once no line is `null`. */
  function Objects(lines: seq<Line>): (items: seq<RequestItem>)
    requires NoNullLines(lines)
    ensures |items| == |lines|
    ensures forall k :: 0 <= k < |lines| ==> lines[k] == Object(items[k])
  {
    seq(|lines|, k requires 0 <= k < |lines| => lines[k].item)
  }

  /** The snapshot stored with an order: the product as it was at purchase time. */
  datatype OrderItem = OrderItem(productId: int, name: string, image: string, priceAtPurchase: int, quantity: int)

  /** The priced order, all amounts in kobo. */
  datatype PricedOrder = PricedOrder(items: seq<OrderItem>, subtotal: int, shipping: int, tax: int, total: int)

  /** ItemsRequired, InvalidProductIds, ProductsNotFound answer 400; Failed is the 500 of the catch block. */
  datatype OrderError = ItemsRequired | InvalidProductIds | ProductsNotFound | Failed

  /** Shipping is free for a subtotal strictly above ₦50,000. */
  const FreeShippingAboveKobo: int := 50000 * 100
  /** Otherwise shipping costs ₦1,500. */
  const FlatShippingKobo: int := 1500 * 100

  /** Every line's product id converted to a number. */
  predicate AllNumeric(items: seq<RequestItem>) {
    forall k :: 0 <= k < |items| ==> items[k].productId.Int?
  }

  /** No two lines name the same product. */
  predicate DistinctIds(items: seq<RequestItem>) {
    forall j, k :: 0 <= j < k < |items| ==> items[j].productId != items[k].productId
  }

  /** The ids of a list of rows. */
  function IdSet(ps: seq<Product>): set<int> {
    set k | 0 <= k < |ps| :: ps[k].id
  }

  /** Every numeric id of the request names a catalogue row. */
  predicate AllListed(items: seq<RequestItem>, catalogue: seq<Product>) {
    forall k :: 0 <= k < |items| && items[k].productId.Int? ==> items[k].productId.value in IdSet(catalogue)
  }

  /** `items.map(it => Number(it.productId)).filter(n => !Number.isNaN(n))` */
  function ProductIds(items: seq<RequestItem>): (ids: seq<int>)
    ensures |ids| <= |items|
    ensures |ids| == |items| <==> AllNumeric(items)
    ensures AllNumeric(items) ==> forall k :: 0 <= k < |items| ==> ids[k] == items[k].productId.value
  {
    if items == [] then []
    else
      match items[0].productId
      case NaN => ProductIds(items[1..])
      case Int(n) => [n] + ProductIds(items[1..])
  }

  /** `prisma.product.findMany({ where: { id: { in: ids } } })`: the catalogue rows whose id is among `ids`, each row once. */
  function FindMany(catalogue: seq<Product>, ids: seq<int>): (rows: seq<Product>)
    ensures |rows| <= |catalogue|
    ensures forall k :: 0 <= k < |rows| ==> rows[k] in catalogue && rows[k].id in ids
    ensures forall k :: 0 <= k < |catalogue| && catalogue[k].id in ids ==> catalogue[k] in rows
  {
    Seqs.Filter(catalogue, (p: Product) => p.id in ids)
  }

  /** `rows.find(dp => dp.id === id)`: the first row with that id, if any. */
  function FindById(rows: seq<Product>, id: int): (r: Option<Product>)
    ensures r.Some? <==> id in IdSet(rows)
    ensures r.Some? ==> r.value in rows && r.value.id == id
    ensures UniqueIds(rows) ==> forall k :: 0 <= k < |rows| && rows[k].id == id ==> r == Some(rows[k])
  {
    if rows == [] then None
    else if rows[0].id == id then Some(rows[0])
    else
      assert IdSet(rows) == {rows[0].id} + IdSet(rows[1..]) by {
        forall x | x in IdSet(rows) ensures x in {rows[0].id} + IdSet(rows[1..]) {
          var k :| 0 <= k < |rows| && rows[k].id == x;
          if k > 0 { assert rows[1..][k - 1] == rows[k]; }
        }
      }
      FindById(rows[1..], id)
  }

  /** `Math.max(1, Number(it.quantity) || 1)`: at least 1; NaN, 0 and anything below 1 become 1. */
  function ClampQuantity(q: Num): (r: int)
    ensures r >= 1
    ensures q.Int? && q.value >= 1 ==> r == q.value
    ensures q.NaN? || q.value < 1 ==> r == 1
  {
    var n := if q.NaN? || q.value == 0 then 1 else q.value;
    if 1 >= n then 1 else n
  }

  /** The snapshot of lines 275-281: id, name, image and price copied from the product. */
  function Snapshot(p: Product, q: Num): OrderItem {
    OrderItem(p.id, p.name, p.image, p.price, ClampQuantity(q))
  }

  /**
   * `items.map(...)` of lines 272-282. None when some line's product is not
   * among `rows`: `p` is then undefined and reading `p.id` throws.
   */
  function Snapshots(items: seq<RequestItem>, rows: seq<Product>): (r: Option<seq<OrderItem>>)
    ensures r.Some? <==> forall k :: 0 <= k < |items| ==>
      items[k].productId.Int? && items[k].productId.value in IdSet(rows)
    ensures r.Some? ==> |r.value| == |items| && forall k :: 0 <= k < |items| ==>
      items[k].productId.Int? && FindById(rows, items[k].productId.value).Some?
      && r.value[k] == Snapshot(FindById(rows, items[k].productId.value).value, items[k].quantity)
  {
    if items == [] then Some([])
    else
      match items[0].productId
      case NaN => None
      case Int(id) =>
        match FindById(rows, id)
        case None => None
        case Some(p) =>
          match Snapshots(items[1..], rows)
          case None => None
          case Some(rest) =>
            assert forall k :: 1 <= k < |items| ==> items[1..][k - 1] == items[k];
            Some([Snapshot(p, items[0].quantity)] + rest)
  }

  /** `itemsDetailed.reduce((sum, it) => sum + it.priceAtPurchase * it.quantity, 0)` */
  function Subtotal(items: seq<OrderItem>): int {
    if items == [] then 0
    else Subtotal(items[..|items| - 1]) + items[|items| - 1].priceAtPurchase * items[|items| - 1].quantity
  }

  /** Shipping is free exactly when the subtotal exceeds ₦50,000; at ₦50,000 or below it is the flat ₦1,500. */
  function Shipping(subtotal: int): (r: int)
    ensures r == 0 <==> subtotal > FreeShippingAboveKobo
    ensures r != 0 ==> r == FlatShippingKobo
  {
    if subtotal > 50000 * 100 then 0 else 1500 * 100
  }

  /**
   * `Math.round(subtotalKobo * 0.075)` computed exactly: 7.5% of the subtotal
   * rounded to the nearest kobo, halves upwards.
   */
  function Tax(subtotal: int): (r: int)
    ensures 1000 * r - 500 <= 75 * subtotal < 1000 * r + 500
  {
    (75 * subtotal + 500) / 1000
  }

  /** The amounts an order is stored with; tax is charged on the subtotal and not on shipping. */
  predicate PricedBy(o: PricedOrder) {
    && o.subtotal == Subtotal(o.items)
    && o.shipping == Shipping(o.subtotal)
    && o.tax == Tax(o.subtotal)
    && o.total == o.subtotal + o.shipping + o.tax
  }

  /** Lines 284-287. */
  function Totals(items: seq<OrderItem>): (o: PricedOrder)
    ensures o.items == items && PricedBy(o)
  {
    var subtotal := Subtotal(items);
    var shipping := Shipping(subtotal);
    var tax := Tax(subtotal);
    PricedOrder(items, subtotal, shipping, tax, subtotal + shipping + tax)
  }

  /** One step of `findMany`: the first catalogue row is kept exactly when its id is requested. */
  lemma FindManyStep(catalogue: seq<Product>, ids: seq<int>)
    requires catalogue != []
    ensures FindMany(catalogue, ids) == (if catalogue[0].id in ids then [catalogue[0]] else []) + FindMany(catalogue[1..], ids)
  {
  }

  /** The rows `findMany` returns keep every row of a requested id, in catalogue order, so `find` over them sees what `find` over the catalogue sees. */
  lemma {:induction false} FindByIdInRows(catalogue: seq<Product>, ids: seq<int>, id: int)
    requires id in ids
    ensures FindById(FindMany(catalogue, ids), id) == FindById(catalogue, id)
  {
    if catalogue != [] {
      var rows, rest := FindMany(catalogue, ids), FindMany(catalogue[1..], ids);
      FindManyStep(catalogue, ids);
      FindByIdInRows(catalogue[1..], ids, id);
      if catalogue[0].id == id {
        assert rows[0] == catalogue[0];
      } else if catalogue[0].id in ids {
        assert rows == [catalogue[0]] + rest;
        assert rows[1..] == rest;
      } else {
        assert rows == rest;
      }
    }
  }

  /**
   * The handler of lines 253-324 up to the writes: reject a missing, non-array
   * or empty `items`; a `null` line throws at line 261 and answers 500; then
   * reject any id that is NaN, then a lookup that found fewer rows than there
   * are lines; otherwise one snapshot per line, in request order, and the
   * kobo amounts.
   */
  function PriceOrder(items: Option<seq<Line>>, catalogue: seq<Product>): (r: Result<PricedOrder, OrderError>)
    ensures r == Failure(ItemsRequired) <==> items.None? || items.value == []
    ensures items.Some? && !NoNullLines(items.value) ==> r == Failure(Failed)
    ensures r == Failure(InvalidProductIds) <==>
      items.Some? && items.value != [] && NoNullLines(items.value) && !AllNumeric(Objects(items.value))
    ensures r == Failure(ProductsNotFound) <==>
      (items.Some? && items.value != [] && NoNullLines(items.value) && AllNumeric(Objects(items.value))
       && |FindMany(catalogue, ProductIds(Objects(items.value)))| != |items.value|)
    ensures r.Success? ==> items.Some? && NoNullLines(items.value) && |r.value.items| == |items.value|
    ensures r.Success? ==> forall k :: 0 <= k < |items.value| ==>
      items.value[k].item.productId.Int? && FindById(catalogue, items.value[k].item.productId.value).Some?
      && r.value.items[k] == Snapshot(FindById(catalogue, items.value[k].item.productId.value).value, items.value[k].item.quantity)
    ensures r.Success? ==> forall k :: 0 <= k < |r.value.items| ==> r.value.items[k].quantity >= 1
    ensures r.Success? ==> PricedBy(r.value)
  {
    if items.None? || |items.value| == 0 then Failure(ItemsRequired)
    else if !NoNullLines(items.value) then Failure(Failed)
    else PriceLines(Objects(items.value), catalogue)
  }

  /** `PriceOrder` once `items` is known to be a non-empty array. */
  function PriceLines(items: seq<RequestItem>, catalogue: seq<Product>): (r: Result<PricedOrder, OrderError>)
    requires items != []
    ensures r != Failure(ItemsRequired)
    ensures r == Failure(InvalidProductIds) <==> !AllNumeric(items)
    ensures r == Failure(ProductsNotFound) <==> AllNumeric(items) && |FindMany(catalogue, ProductIds(items))| != |items|
    ensures r.Success? ==> |r.value.items| == |items|
    ensures r.Success? ==> forall k :: 0 <= k < |items| ==>
      items[k].productId.Int? && FindById(catalogue, items[k].productId.value).Some?
      && r.value.items[k] == Snapshot(FindById(catalogue, items[k].productId.value).value, items[k].quantity)
    ensures r.Success? ==> forall k :: 0 <= k < |r.value.items| ==> r.value.items[k].quantity >= 1
    ensures r.Success? ==> PricedBy(r.value)
  {
    var ids := ProductIds(items);
    if |ids| != |items| then Failure(InvalidProductIds)
    else
      var rows := FindMany(catalogue, ids);
      if |rows| != |ids| then Failure(ProductsNotFound)
      else
        match Snapshots(items, rows)
        case None => Failure(Failed)
        case Some(snapshots) =>
          SnapshotsFromCatalogue(items, catalogue, snapshots);
          Success(Totals(snapshots))
  }

  /** The snapshots taken from the looked-up rows are those of the catalogue's rows, each with a positive quantity. */
  lemma SnapshotsFromCatalogue(items: seq<RequestItem>, catalogue: seq<Product>, snapshots: seq<OrderItem>)
    requires AllNumeric(items)
    requires Snapshots(items, FindMany(catalogue, ProductIds(items))) == Some(snapshots)
    ensures |snapshots| == |items|
    ensures forall k :: 0 <= k < |items| ==>
      FindById(catalogue, items[k].productId.value).Some?
      && snapshots[k] == Snapshot(FindById(catalogue, items[k].productId.value).value, items[k].quantity)
    ensures forall k :: 0 <= k < |snapshots| ==> snapshots[k].quantity >= 1
  {
    var ids := ProductIds(items);
    forall k | 0 <= k < |items|
      ensures FindById(FindMany(catalogue, ids), items[k].productId.value) == FindById(catalogue, items[k].productId.value)
    {
      assert ids[k] == items[k].productId.value;
      FindByIdInRows(catalogue, ids, items[k].productId.value);
    }
  }

  /** The distinct values of a list of ids. */
  function Elements(ids: seq<int>): set<int> {
    set k | 0 <= k < |ids| :: ids[k]
  }

  predicate Distinct(ids: seq<int>) {
    forall j, k :: 0 <= j < k < |ids| ==> ids[j] != ids[k]
  }

  lemma SubsetCard(a: set<int>, b: set<int>)
    requires a <= b
    ensures |a| <= |b|
    ensures |a| == |b| ==> a == b
  {
    var d := b - a;
    assert b == a + d;
    assert a !! d;
  }

  /** A list has at most as many distinct values as elements, and exactly as many when no value repeats. */
  lemma {:induction false} ElementsCount(ids: seq<int>)
    ensures |Elements(ids)| <= |ids|
    ensures |Elements(ids)| == |ids| <==> Distinct(ids)
  {
    if ids == [] {
      assert Elements(ids) == {};
    } else {
      var t := ids[1..];
      ElementsCount(t);
      assert Elements(ids) == {ids[0]} + Elements(t) by {
        forall x | x in Elements(ids) ensures x in {ids[0]} + Elements(t) {
          var k :| 0 <= k < |ids| && ids[k] == x;
          if k > 0 { assert t[k - 1] == x; }
        }
        forall x | x in Elements(t) ensures x in Elements(ids) {
          var k :| 0 <= k < |t| && t[k] == x;
          assert ids[k + 1] == x;
        }
      }
      if ids[0] in Elements(t) {
        var k :| 0 <= k < |t| && t[k] == ids[0];
        assert ids[k + 1] == ids[0];
        assert !Distinct(ids);
      } else {
        assert |Elements(ids)| == 1 + |Elements(t)|;
        if Distinct(t) {
          forall j, k | 0 <= j < k < |ids| ensures ids[j] != ids[k] {
            assert ids[k] == t[k - 1];
            if j > 0 { assert ids[j] == t[j - 1]; }
          }
        } else {
          var j, k :| 0 <= j < k < |t| && t[j] == t[k];
          assert ids[j + 1] == ids[k + 1];
        }
      }
    }
  }

  /** With unique catalogue ids, `findMany` returns one row per requested id that the catalogue holds. */
  lemma {:induction false} FindManyCount(catalogue: seq<Product>, ids: seq<int>)
    requires UniqueIds(catalogue)
    ensures |FindMany(catalogue, ids)| == |IdSet(catalogue) * Elements(ids)|
  {
    if catalogue == [] {
      assert IdSet(catalogue) == {};
    } else {
      var t := catalogue[1..];
      FindManyStep(catalogue, ids);
      UniqueTail(catalogue);
      FindManyCount(t, ids);
      IdSetCons(catalogue);
      InElements(ids, catalogue[0].id);
      CountStep(catalogue[0].id, IdSet(t), Elements(ids));
    }
  }

  lemma InElements(ids: seq<int>, x: int)
    ensures x in ids <==> x in Elements(ids)
  {
    if x in ids {
      var k :| 0 <= k < |ids| && ids[k] == x;
    }
  }

  /** Adding a new element `x` to a set adds one to its overlap with `e` exactly when `x` is in `e`. */
  lemma CountStep(x: int, rest: set<int>, e: set<int>)
    requires x !in rest
    ensures |({x} + rest) * e| == (if x in e then 1 else 0) + |rest * e|
  {
    if x in e {
      assert ({x} + rest) * e == {x} + rest * e;
    } else {
      assert ({x} + rest) * e == rest * e;
    }
  }

  /** The ids of a non-empty list: the first row's and those of the rest, which with unique ids lack the first. */
  lemma IdSetCons(ps: seq<Product>)
    requires ps != [] && UniqueIds(ps)
    ensures IdSet(ps) == {ps[0].id} + IdSet(ps[1..])
    ensures ps[0].id !in IdSet(ps[1..])
  {
    var t := ps[1..];
    forall x | x in IdSet(ps) ensures x in {ps[0].id} + IdSet(t) {
      var k :| 0 <= k < |ps| && ps[k].id == x;
      if k > 0 { assert t[k - 1].id == x; }
    }
    forall x | x in IdSet(t) ensures x in IdSet(ps) {
      var k :| 0 <= k < |t| && t[k].id == x;
      assert ps[k + 1].id == x;
    }
    forall k | 0 <= k < |t| ensures t[k].id != ps[0].id {
      assert t[k] == ps[k + 1];
    }
  }

  lemma UniqueTail(ps: seq<Product>)
    requires ps != [] && UniqueIds(ps)
    ensures UniqueIds(ps[1..])
  {
    var t := ps[1..];
    forall i, j | 0 <= i < j < |t| ensures t[i].id != t[j].id {
      assert t[i] == ps[i + 1] && t[j] == ps[j + 1];
    }
  }

  /** With unique catalogue ids, `findMany` returns as many rows as there are ids exactly when no id repeats and each is in the catalogue. */
  lemma FindManyCountIff(catalogue: seq<Product>, ids: seq<int>)
    requires UniqueIds(catalogue)
    ensures |FindMany(catalogue, ids)| == |ids| <==> Distinct(ids) && Elements(ids) <= IdSet(catalogue)
  {
    var cat, e := IdSet(catalogue), Elements(ids);
    ElementsCount(ids);
    FindManyCount(catalogue, ids);
    SubsetCard(cat * e, e);
    if Distinct(ids) && e <= cat {
      assert cat * e == e;
    }
  }

  /** Every requested id that the catalogue holds can be found among the returned rows. */
  lemma FoundInRows(catalogue: seq<Product>, ids: seq<int>, id: int)
    requires id in ids && id in IdSet(catalogue)
    ensures id in IdSet(FindMany(catalogue, ids))
  {
    var rows := FindMany(catalogue, ids);
    var j :| 0 <= j < |catalogue| && catalogue[j].id == id;
    assert catalogue[j] in rows;
    var i :| 0 <= i < |rows| && rows[i] == catalogue[j];
  }

  /**
   * With the catalogue's unique ids, a non-empty array of objects is accepted
   * exactly when every id is numeric, no id repeats and every id is in the
   * catalogue; and the lookup inside `map` never misses.
   */
  lemma LinesAcceptedExactly(items: seq<RequestItem>, catalogue: seq<Product>)
    requires items != [] && UniqueIds(catalogue)
    ensures PriceLines(items, catalogue).Success? <==>
      AllNumeric(items) && DistinctIds(items) && AllListed(items, catalogue)
    ensures PriceLines(items, catalogue) != Failure(Failed)
  {
    if AllNumeric(items) {
      var ids := ProductIds(items);
      FindManyCountIff(catalogue, ids);
      assert forall k :: 0 <= k < |items| ==> items[k].productId == Int(ids[k]);
      assert DistinctIds(items) <==> Distinct(ids);
      assert AllListed(items, catalogue) <==> Elements(ids) <= IdSet(catalogue);
      if |FindMany(catalogue, ids)| == |ids| {
        forall k | 0 <= k < |items| ensures items[k].productId.value in IdSet(FindMany(catalogue, ids)) {
          assert ids[k] in Elements(ids);
          FoundInRows(catalogue, ids, ids[k]);
        }
      }
    }
  }

  /**
   * With the catalogue's unique ids, an order is accepted exactly when
   * `items` is non-empty, no line is `null`, every id is numeric, no id
   * repeats and every id is in the catalogue; and it answers 500 exactly
   * when some line is `null`.
   */
  lemma AcceptedExactly(lines: seq<Line>, catalogue: seq<Product>)
    requires UniqueIds(catalogue)
    ensures PriceOrder(Some(lines), catalogue).Success? <==>
      lines != [] && NoNullLines(lines)
      && AllNumeric(Objects(lines)) && DistinctIds(Objects(lines)) && AllListed(Objects(lines), catalogue)
    ensures PriceOrder(Some(lines), catalogue) == Failure(Failed) <==> !NoNullLines(lines)
  {
    if lines != [] && NoNullLines(lines) {
      LinesAcceptedExactly(Objects(lines), catalogue);
    }
  }

  /** One id the catalogue lacks rejects the whole order. */
  lemma UnknownIdRejects(items: seq<RequestItem>, catalogue: seq<Product>, k: nat)
    requires UniqueIds(catalogue)
    requires AllNumeric(items) && k < |items| && items[k].productId.value !in IdSet(catalogue)
    ensures PriceLines(items, catalogue) == Failure(ProductsNotFound)
  {
    LinesAcceptedExactly(items, catalogue);
  }

  /** A repeated id rejects the whole order: the `in` lookup returns a single row for it. */
  lemma RepeatedIdRejects(items: seq<RequestItem>, catalogue: seq<Product>, j: nat, k: nat)
    requires UniqueIds(catalogue)
    requires AllNumeric(items) && j < k < |items| && items[j].productId == items[k].productId
    ensures PriceLines(items, catalogue) == Failure(ProductsNotFound)
  {
    LinesAcceptedExactly(items, catalogue);
  }

  /** The 201 body of lines 312-319. */
  datatype Receipt = Receipt(id: nat, subtotal: int, shipping: int, tax: int, total: int, status: string)

  /** The status every new order is stored with. */
  const Pending: string := "pending"

  /** The receipt for a stored order: each kobo amount rounded to the nearest naira, halves upwards. */
  function ToReceipt(id: nat, o: PricedOrder): (r: Receipt)
    ensures r.id == id && r.status == Pending
    ensures 100 * r.subtotal - 50 <= o.subtotal < 100 * r.subtotal + 50
    ensures 100 * r.shipping - 50 <= o.shipping < 100 * r.shipping + 50
    ensures 100 * r.tax - 50 <= o.tax < 100 * r.tax + 50
    ensures 100 * r.total - 50 <= o.total < 100 * r.total + 50
  {
    Receipt(id, RoundDiv100(o.subtotal), RoundDiv100(o.shipping), RoundDiv100(o.tax), RoundDiv100(o.total), Pending)
  }

  /**
   * Only the kobo amounts add up: a ₦5.40 item gives a receipt whose rounded
   * parts sum to ₦1,505 while its rounded total is ₦1,506.
   */
  lemma ReceiptPartsNeedNotAddUp()
    ensures var o := Totals([OrderItem(1, "", "", 540, 1)]);
      var r := ToReceipt(1, o);
      o.total == o.subtotal + o.shipping + o.tax
      && r.subtotal + r.shipping + r.tax == 1505 && r.total == 1506
  {
    var items := [OrderItem(1, "", "", 540, 1)];
    assert items[..0] == [];
    assert Subtotal(items) == 540;
  }

  /** The amounts at and around the policy boundaries. */
  lemma PricingExamples()
    ensures Tax(100000) == 7500 && Tax(29900) == 2243
    ensures Shipping(5000000) == FlatShippingKobo && Shipping(5000001) == 0
  {
  }

  /** With non-negative prices and quantities the subtotal, the tax and the total are non-negative and the total covers the subtotal. */
  lemma {:induction false} SubtotalNonNegative(items: seq<OrderItem>)
    requires forall k :: 0 <= k < |items| ==> items[k].priceAtPurchase >= 0 && items[k].quantity >= 0
    ensures Subtotal(items) >= 0 && Tax(Subtotal(items)) >= 0
    ensures Subtotal(items) <= Totals(items).total
  {
    if items != [] {
      SubtotalNonNegative(items[..|items| - 1]);
      var last := items[|items| - 1];
      assert last.priceAtPurchase * last.quantity >= 0;
    }
  }
}
