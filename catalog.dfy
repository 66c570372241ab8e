/** The product record shared by the server and the storefront pages. */
module Catalog {
  import opened Wrappers
  import opened JsValues

  /**
   * A row of the Product table as `findMany` and `/api/products` return it.
   * `price` is in kobo; a null category or description is the empty string.
   */
  datatype Product = Product(id: int, name: string, category: string, description: string, image: string, price: int)

  /**
   * An element of the static catalogue file. Every field may be missing;
   * `price` is in naira, as `Number(s.price)` reads it.
   */
  datatype StaticItem = StaticItem(id: Option<string>, name: Option<string>, category: Option<string>, image: Option<string>, price: Num)

  /** An id compared with `===` in the cart: a database id is a number, a static catalogue id a string. */
  datatype ItemId = NumId(n: int) | StrId(s: string)

  /** The primary-key property of the Product table: no id occurs twice. */
  predicate UniqueIds(ps: seq<Product>) {
    forall i, j :: 0 <= i < j < |ps| ==> ps[i].id != ps[j].id
  }
}
