/**
 * The header search of main.js: the kobo display helper `toNaira`, the
 * `searchProducts` merge of the product query's answer with the matching
 * static items, and the input and submit handlers that call it.
 */
module HeaderSearch {
  import opened Wrappers
  import opened JsText
  import opened JsValues
  import opened Catalog
  import Seqs
  import ProductListing

  /** The whole naira `toNaira` (main.js:3) shows for a kobo amount; what `Number` cannot read shows 0. */
  function ToNaira(kobo: Num): (r: int)
    ensures kobo == NaN ==> r == 0
    ensures kobo.Int? ==> 100 * r - 50 <= kobo.value < 100 * r + 50
  {
    RoundDiv100(OrZero(kobo))
  }

  /** One search result: a product row as the query returned it, or a static match rebuilt at line 120 with its price in kobo. */
  datatype Hit =
    | ApiHit(product: Product)
    | StaticHit(id: Option<string>, name: Option<string>, category: Option<string>, image: Option<string>, price: int)

  /** Line 120: `{ id: s.id || null, ..., price: (Number(s.price)||0)*100 }`. */
  function StaticHitOf(s: StaticItem): (h: Hit)
    ensures h.StaticHit? && h.price == 100 * OrZero(s.price)
    ensures h.id == (if Truthy(s.id) then s.id else None)
  {
    StaticHit(if Truthy(s.id) then s.id else None, s.name, s.category, s.image, (OrZero(s.price)) * 100)
  }

  function ApiHits(rows: seq<Product>): (r: seq<Hit>)
    ensures |r| == |rows|
    ensures forall k :: 0 <= k < |r| ==> r[k] == ApiHit(rows[k])
  {
    if rows == [] then [] else ApiHits(rows[..|rows| - 1]) + [ApiHit(rows[|rows| - 1])]
  }

  function StaticHits(matches: seq<StaticItem>): (r: seq<Hit>)
    ensures |r| == |matches|
    ensures forall k :: 0 <= k < |r| ==> r[k] == StaticHitOf(matches[k])
  {
    if matches == [] then [] else StaticHits(matches[..|matches| - 1]) + [StaticHitOf(matches[|matches| - 1])]
  }

  /** The static items whose lowercase name or category contains the lowercase trimmed query, in catalogue order. */
  function StaticMatchesOf(query: string, statics: seq<StaticItem>): seq<StaticItem> {
    var qLower := Lower(Trim(query));
    Seqs.Filter(statics, (s: StaticItem) => ProductListing.StaticMatches(s, qLower))
  }

  /**
   * `searchProducts(query)` (lines 109-124) once both fetches have answered:
   * `rows` is `None` when the response is not OK, read as no rows. The result
   * lists the rows first, then the static matches, and at most ten in all.
   */
  function SearchProducts(query: string, rows: Option<seq<Product>>, statics: seq<StaticItem>): (r: seq<Hit>)
    ensures var all := ApiHits(rows.GetOr([])) + StaticHits(StaticMatchesOf(query, statics));
            |r| == (if |all| < 10 then |all| else 10) && r == all[..|r|]
  {
    Seqs.Take(ApiHits(rows.GetOr([])) + StaticHits(StaticMatchesOf(query, statics)), 10)
  }

  /**
   * What the results hold: the rows in their order, then the static items that
   * match, each once and in catalogue order, cut at ten.
   */
  lemma SearchLayout(query: string, rows: seq<Product>, statics: seq<StaticItem>)
    ensures |SearchProducts(query, Some(rows), statics)| ==
              if |rows| + |StaticMatchesOf(query, statics)| < 10 then |rows| + |StaticMatchesOf(query, statics)| else 10
    ensures forall k :: 0 <= k < |SearchProducts(query, Some(rows), statics)| && k < |rows| ==>
              SearchProducts(query, Some(rows), statics)[k] == ApiHit(rows[k])
    ensures forall k :: |rows| <= k < |SearchProducts(query, Some(rows), statics)| ==>
              SearchProducts(query, Some(rows), statics)[k] == StaticHitOf(StaticMatchesOf(query, statics)[k - |rows|])
  {
    var matches := StaticMatchesOf(query, statics);
    HitsLayout(rows, matches);
    TakeLayout(rows, matches, SearchProducts(query, Some(rows), statics));
  }

  lemma TakeLayout(rows: seq<Product>, matches: seq<StaticItem>, r: seq<Hit>)
    requires var all := ApiHits(rows) + StaticHits(matches);
             |r| == (if |all| < 10 then |all| else 10) && r == all[..|r|]
    ensures |r| == if |rows| + |matches| < 10 then |rows| + |matches| else 10
    ensures forall k :: 0 <= k < |r| && k < |rows| ==> r[k] == ApiHit(rows[k])
    ensures forall k :: |rows| <= k < |r| ==> r[k] == StaticHitOf(matches[k - |rows|])
  {
    HitsLayout(rows, matches);
  }

  lemma HitsLayout(rows: seq<Product>, matches: seq<StaticItem>)
    ensures var all := ApiHits(rows) + StaticHits(matches);
            |all| == |rows| + |matches|
            && (forall k :: 0 <= k < |rows| ==> all[k] == ApiHit(rows[k]))
            && (forall k :: |rows| <= k < |all| ==> all[k] == StaticHitOf(matches[k - |rows|]))
  {
    var a, b := ApiHits(rows), StaticHits(matches);
    assert forall k :: |a| <= k < |a| + |b| ==> (a + b)[k] == b[k - |a|];
  }

  /** A static item is among the matches exactly when its lowercase name or category contains the lowercase trimmed query. */
  lemma StaticMatchesExactly(query: string, statics: seq<StaticItem>)
    ensures forall k :: 0 <= k < |StaticMatchesOf(query, statics)| ==>
              StaticMatchesOf(query, statics)[k] in statics
              && ProductListing.StaticMatches(StaticMatchesOf(query, statics)[k], Lower(Trim(query)))
    ensures forall k :: 0 <= k < |statics| && ProductListing.StaticMatches(statics[k], Lower(Trim(query))) ==>
              statics[k] in StaticMatchesOf(query, statics)
  {
  }

  /** A static match shows its catalogue naira price: converting to kobo and back through `toNaira` loses nothing. */
  lemma StaticPriceShown(s: StaticItem)
    ensures ToNaira(Int(StaticHitOf(s).price)) == OrZero(s.price)
  {
    RoundDiv100OfHundreds(OrZero(s.price));
  }

  /** The results box after an event: hidden, shown with results, or left as it was. */
  datatype ResultsBox = Hidden | Showing(hits: seq<Hit>) | Unchanged

  /** Lines 126-134: typing searches once the trimmed value has two characters, and hides the box otherwise. */
  function OnSearchInput(value: string, rows: Option<seq<Product>>, statics: seq<StaticItem>): (b: ResultsBox)
    ensures b.Showing? <==> |Trim(value)| >= 2
    ensures b == Hidden <==> |Trim(value)| < 2
  {
    var query := Trim(value);
    if |query| >= 2 then Showing(SearchProducts(query, rows, statics)) else Hidden
  }

  /** Lines 136-143: submitting searches under the same rule but leaves the box alone for a short query. */
  function OnSearchSubmit(value: string, rows: Option<seq<Product>>, statics: seq<StaticItem>): (b: ResultsBox)
    ensures b.Showing? <==> |Trim(value)| >= 2
    ensures b == Unchanged <==> |Trim(value)| < 2
  {
    var query := Trim(value);
    if |query| >= 2 then Showing(SearchProducts(query, rows, statics)) else Unchanged
  }

  /**
   * Typing and submitting the same text show the same results, and those are
   * the results for the untrimmed text: the second trim inside
   * `searchProducts` changes nothing.
   */
  lemma InputAndSubmitAgree(value: string, rows: Option<seq<Product>>, statics: seq<StaticItem>)
    requires |Trim(value)| >= 2
    ensures OnSearchInput(value, rows, statics) == OnSearchSubmit(value, rows, statics)
    ensures OnSearchInput(value, rows, statics) == Showing(SearchProducts(value, rows, statics))
  {
    TrimIdempotent(value);
  }
}
