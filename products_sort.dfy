/**
 * The price sort of the product page (products.js:69-72): `merged.sort` with
 * the comparator `a.priceNaira - b.priceNaira` (or the reverse). The
 * built-in sort is stable, so entries with equal prices keep their merged
 * order; that order is specified by an insertion sort on sequences, and the
 * in-place array method is proved to produce it.
 */
module ProductSort {
  import opened Wrappers
  import opened Catalog
  import opened ProductListing
  import JsText
  import Seqs

  /** Which comparator the sort select applies; any other value leaves the merged order. */
  datatype SortOrder = Unsorted | PriceAsc | PriceDesc

  /** `x` must be placed before `y`: the comparator says `y` comes strictly after. */
  predicate Precedes(x: Entry, y: Entry, desc: bool) {
    if desc then x.priceNaira > y.priceNaira else x.priceNaira < y.priceNaira
  }

  /** No entry is followed by one that should precede it. */
  predicate SortedBy(s: seq<Entry>, desc: bool) {
    forall i, j :: 0 <= i < j < |s| ==> !Precedes(s[j], s[i], desc)
  }

  /** `e` placed after every entry it does not precede, scanning from the end. */
  function Insert(s: seq<Entry>, e: Entry, desc: bool): seq<Entry> {
    if s == [] || !Precedes(e, s[|s| - 1], desc) then s + [e]
    else Insert(s[..|s| - 1], e, desc) + [s[|s| - 1]]
  }

  /** The stable sort of `s`. */
  function SortByPrice(s: seq<Entry>, desc: bool): seq<Entry> {
    if s == [] then [] else Insert(SortByPrice(s[..|s| - 1], desc), s[|s| - 1], desc)
  }

  /** The entries costing exactly `price`, in order. */
  function WithPrice(s: seq<Entry>, price: int): seq<Entry> {
    Seqs.Filter(s, (e: Entry) => e.priceNaira == price)
  }

  lemma {:induction false} InsertPermutes(s: seq<Entry>, e: Entry, desc: bool)
    ensures multiset(Insert(s, e, desc)) == multiset(s) + multiset{e}
  {
    if s != [] && Precedes(e, s[|s| - 1], desc) {
      InsertPermutes(s[..|s| - 1], e, desc);
      assert s == s[..|s| - 1] + [s[|s| - 1]];
    }
  }

  lemma {:induction false} InsertSorted(s: seq<Entry>, e: Entry, desc: bool)
    requires SortedBy(s, desc)
    ensures SortedBy(Insert(s, e, desc), desc)
  {
    if s != [] && Precedes(e, s[|s| - 1], desc) {
      var init, last := s[..|s| - 1], s[|s| - 1];
      InsertSorted(init, e, desc);
      InsertPermutes(init, e, desc);
      var t := Insert(init, e, desc);
      forall i | 0 <= i < |t|
        ensures !Precedes(last, t[i], desc)
      {
        assert t[i] in multiset(t);
        if t[i] != e {
          assert t[i] in multiset(init);
          var k :| 0 <= k < |init| && init[k] == t[i];
          assert s[k] == t[i];
        }
      }
      assert forall i :: 0 <= i < |t| ==> (t + [last])[i] == t[i];
    }
  }

  /** Inserting `e` adds it to the entries of its own price and leaves every other price's entries as they were. */
  lemma {:induction false} InsertStable(s: seq<Entry>, e: Entry, desc: bool, price: int)
    ensures WithPrice(Insert(s, e, desc), price) == WithPrice(s, price) + WithPrice([e], price)
  {
    if s == [] || !Precedes(e, s[|s| - 1], desc) {
      WithPriceAppend(s, [e], price);
    } else {
      var init, last := s[..|s| - 1], s[|s| - 1];
      var a, ofE, ofLast := WithPrice(init, price), WithPrice([e], price), WithPrice([last], price);
      assert s == init + [last];
      WithPriceOne(e, price);
      WithPriceOne(last, price);
      calc {
        WithPrice(Insert(s, e, desc), price);
        WithPrice(Insert(init, e, desc) + [last], price);
        { WithPriceAppend(Insert(init, e, desc), [last], price); }
        WithPrice(Insert(init, e, desc), price) + ofLast;
        { InsertStable(init, e, desc, price); }
        a + ofE + ofLast;
        { assert ofE == [] || ofLast == []; }
        a + ofLast + ofE;
        { WithPriceAppend(init, [last], price); }
        WithPrice(s, price) + ofE;
      }
    }
  }

  lemma WithPriceAppend(a: seq<Entry>, b: seq<Entry>, price: int)
    ensures WithPrice(a + b, price) == WithPrice(a, price) + WithPrice(b, price)
  {
    Seqs.FilterAppend(a, b, (x: Entry) => x.priceNaira == price);
  }

  lemma WithPriceOne(e: Entry, price: int)
    ensures WithPrice([e], price) == if e.priceNaira == price then [e] else []
  {
    assert [e][1..] == [];
  }

  /** The sort orders by price. */
  lemma {:induction false} SortSorted(s: seq<Entry>, desc: bool)
    ensures SortedBy(SortByPrice(s, desc), desc)
  {
    if s != [] {
      SortSorted(s[..|s| - 1], desc);
      InsertSorted(SortByPrice(s[..|s| - 1], desc), s[|s| - 1], desc);
    }
  }

  /** The sort neither adds nor drops an entry. */
  lemma {:induction false} SortPermutes(s: seq<Entry>, desc: bool)
    ensures multiset(SortByPrice(s, desc)) == multiset(s)
  {
    if s != [] {
      SortPermutes(s[..|s| - 1], desc);
      InsertPermutes(SortByPrice(s[..|s| - 1], desc), s[|s| - 1], desc);
      assert s == s[..|s| - 1] + [s[|s| - 1]];
    }
  }

  /** The sort is stable: the entries of any one price appear in their merged order. */
  lemma {:induction false} SortStable(s: seq<Entry>, desc: bool, price: int)
    ensures WithPrice(SortByPrice(s, desc), price) == WithPrice(s, price)
  {
    if s != [] {
      var init, last := s[..|s| - 1], s[|s| - 1];
      SortStable(init, desc, price);
      InsertStable(SortByPrice(init, desc), last, desc, price);
      WithPriceAppend(init, [last], price);
      assert s == init + [last];
    }
  }

  /** `Insert` walks back over a tail of entries that `e` precedes. */
  lemma InsertSkipsTail(s: seq<Entry>, e: Entry, desc: bool, j: nat)
    requires j <= |s|
    requires forall k :: j <= k < |s| ==> Precedes(e, s[k], desc)
    ensures Insert(s, e, desc) == Insert(s[..j], e, desc) + s[j..]
    decreases |s|
  {
    if j < |s| {
      var init, last := s[..|s| - 1], s[|s| - 1];
      assert Insert(s, e, desc) == Insert(init, e, desc) + [last];
      assert init[..j] == s[..j];
      InsertSkipsTail(init, e, desc, j);
      assert init[j..] + [last] == s[j..];
      assert Insert(init, e, desc) + [last] == Insert(s[..j], e, desc) + (init[j..] + [last]);
    } else {
      assert s[..j] == s && s[j..] == [];
    }
  }

  /** One pass of the sort: `a[i]` moved back into the sorted prefix `a[..i]`, the rest of the array untouched. */
  method InsertAt(a: array<Entry>, i: nat, desc: bool)
    requires i < a.Length
    modifies a
    ensures a[..i + 1] == Insert(old(a[..i]), old(a[i]), desc)
    ensures a[i + 1..] == old(a[i + 1..])
  {
    ghost var t := a[..i];
    var e := a[i];
    var j := i;
    while j > 0 && Precedes(e, a[j - 1], desc)
      invariant 0 <= j <= i
      invariant forall k :: 0 <= k < j ==> a[k] == t[k]
      invariant forall k :: j < k <= i ==> a[k] == t[k - 1]
      invariant forall k :: i < k < a.Length ==> a[k] == old(a[k])
      invariant forall k :: j <= k < i ==> Precedes(e, t[k], desc)
    {
      a[j] := a[j - 1];
      j := j - 1;
    }
    a[j] := e;
    Shifted(t, e, desc, j, a[..i + 1]);
  }

  /** The array prefix `InsertAt` leaves behind: `t` with `e` dropped in at `j`, where the backward scan stopped. */
  lemma Shifted(t: seq<Entry>, e: Entry, desc: bool, j: nat, b: seq<Entry>)
    requires j <= |t| && |b| == |t| + 1
    requires forall k :: j <= k < |t| ==> Precedes(e, t[k], desc)
    requires j == 0 || !Precedes(e, t[j - 1], desc)
    requires forall k :: 0 <= k < j ==> b[k] == t[k]
    requires b[j] == e
    requires forall k :: j < k < |b| ==> b[k] == t[k - 1]
    ensures b == Insert(t, e, desc)
  {
    InsertSkipsTail(t, e, desc, j);
    var r := t[..j] + [e] + t[j..];
    forall k | 0 <= k < |b|
      ensures b[k] == r[k]
    {
      if k > j {
        assert r[k] == t[k - 1];
      }
    }
  }

  /** `a.sort(comparator)` on the array: afterwards `a` holds the stable sort of what it held. */
  method SortInPlace(a: array<Entry>, desc: bool)
    modifies a
    ensures a[..] == SortByPrice(old(a[..]), desc)
  {
    ghost var s := a[..];
    for i := 0 to a.Length
      invariant a[..i] == SortByPrice(s[..i], desc)
      invariant a[i..] == s[i..]
    {
      SortStep(s, i, desc);
      assert a[i] == s[i];
      InsertAt(a, i, desc);
    }
    assert s[..a.Length] == s;
  }

  /** Sorting one more entry inserts it into the sorted prefix. */
  lemma SortStep(s: seq<Entry>, i: nat, desc: bool)
    requires i < |s|
    ensures SortByPrice(s[..i + 1], desc) == Insert(SortByPrice(s[..i], desc), s[i], desc)
  {
    assert s[..i + 1][..i] == s[..i];
  }

  /** The order the grid lists the merged entries in. */
  function Ordered(m: seq<Entry>, order: SortOrder): seq<Entry> {
    match order
    case Unsorted => m
    case PriceAsc => SortByPrice(m, false)
    case PriceDesc => SortByPrice(m, true)
  }

  /** The grid holds exactly the merged entries, in price order when a price sort is chosen, ties in merged order. */
  lemma OrderedFacts(m: seq<Entry>, order: SortOrder, price: int)
    ensures multiset(Ordered(m, order)) == multiset(m) && |Ordered(m, order)| == |m|
    ensures order == PriceAsc ==> SortedBy(Ordered(m, order), false)
    ensures order == PriceDesc ==> SortedBy(Ordered(m, order), true)
    ensures WithPrice(Ordered(m, order), price) == WithPrice(m, price)
  {
    var desc := order == PriceDesc;
    if order != Unsorted {
      SortPermutes(m, desc);
      SortSorted(m, desc);
      SortStable(m, desc, price);
      assert |multiset(Ordered(m, order))| == |multiset(m)|;
    }
  }

  /**
   * The suggestion dropdown previews the merged list before its price sort
   * (products.js:190 shows `merged` unsorted); when no price sort is chosen,
   * that is the grid exactly as it is shown.
   */
  lemma DropdownPreviewsUnsortedGrid(input: string, rows: seq<Product>, statics: seq<StaticItem>)
    requires |JsText.Trim(input)| >= 2
    ensures PreviewsListing(LoadSuggestions(input, Some(rows), statics), Ordered(Merged(rows, statics, input), Unsorted))
  {
    SuggestionsPreviewListing(input, rows, statics);
  }

  /** What the grid shows after `loadProducts`. */
  datatype Grid = LoadError | NoProducts | Cards(entries: seq<Entry>)

  /**
   * `loadProducts` (lines 27-120) once the two fetches have answered: `rows`
   * is `None` when the product request is not OK, which shows the error
   * message; otherwise the merged list is sorted in place and an empty one
   * shows "No products available.".
   */
  method LoadProducts(rows: Option<seq<Product>>, statics: seq<StaticItem>, input: string, order: SortOrder)
    returns (g: Grid)
    ensures g == LoadError <==> rows.None?
    ensures rows.Some? ==> (g == NoProducts <==> Merged(rows.value, statics, input) == [])
    ensures g.Cards? ==> rows.Some? && g.entries == Ordered(Merged(rows.value, statics, input), order)
  {
    if rows.None? {
      return LoadError;
    }
    var m := Merged(rows.value, statics, input);
    var a := new Entry[|m|](k requires 0 <= k < |m| => m[k]);
    assert a[..] == m;
    if order == PriceAsc {
      SortInPlace(a, false);
    } else if order == PriceDesc {
      SortInPlace(a, true);
    }
    if a.Length == 0 {
      return NoProducts;
    }
    g := Cards(a[..]);
  }
}
