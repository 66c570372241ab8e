/**
 * The `q` filter of `GET /api/products` (src/server.js:73-81): applied in
 * memory, case-insensitively, to name, category and description.
 */
module ServerProducts {
  import opened Wrappers
  import opened JsText
  import opened JsValues
  import opened Catalog
  import Seqs

  /** Some of name, category and description, lowercased, contains the lowercased query. */
  predicate MatchesQuery(p: Product, qLower: string) {
    Includes(Lower(p.name), qLower) || Includes(Lower(p.category), qLower) || Includes(Lower(p.description), qLower)
  }

  /**
   * Lines 74-81. A falsy `q` leaves the rows as they are; otherwise a row is
   * kept exactly when it matches, and the kept rows stay in their order.
   */
  function FilterByQuery(products: seq<Product>, q: Option<string>): (r: seq<Product>)
    ensures !Truthy(q) ==> r == products
    ensures Truthy(q) ==> r == Seqs.Filter(products, (p: Product) => MatchesQuery(p, Lower(q.value)))
    ensures Truthy(q) ==> forall k :: 0 <= k < |r| ==> r[k] in products && MatchesQuery(r[k], Lower(q.value))
    ensures Truthy(q) ==> forall k :: 0 <= k < |products| && MatchesQuery(products[k], Lower(q.value)) ==> products[k] in r
  {
    if Truthy(q) then
      var qStr := Lower(q.value);
      Seqs.Filter(products, (p: Product) => MatchesQuery(p, qStr))
    else products
  }

  /** The query's letter case does not matter: a query and its lowercase form select the same rows. */
  lemma QueryCaseInsensitive(products: seq<Product>, q: string)
    ensures FilterByQuery(products, Some(q)) == FilterByQuery(products, Some(Lower(q)))
  {
    LowerIdempotent(q);
  }

  /** A name that contains the query in any letter case keeps its row. */
  lemma NameMatchKept(products: seq<Product>, q: string, k: nat)
    requires q != [] && k < |products| && Includes(Lower(products[k].name), Lower(q))
    ensures products[k] in FilterByQuery(products, Some(q))
  {
  }
}
