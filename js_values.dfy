/** The JavaScript value conversions the storefront applies to numbers and optional strings. */
module JsValues {
  import opened Wrappers

  /**
   * What `Number(v)` yields for the values the storefront handles: NaN, or an
   * integer. Fractional and infinite results are not part of this model.
   */
  datatype Num = NaN | Int(value: int)

  /** `Number(v) || 0`: NaN is falsy and becomes 0. */
  function OrZero(n: Num): int {
    match n
    case NaN => 0
    case Int(i) => i
  }

  /** A string value that JavaScript treats as true in a condition: present and not empty. */
  predicate Truthy(s: Option<string>) {
    s.Some? && s.value != ""
  }

  /** `Math.round(x / 100)`: the nearest whole hundredth, halves rounded upwards. */
  function RoundDiv100(x: int): (r: int)
    ensures 100 * r - 50 <= x < 100 * r + 50
  {
    (x + 50) / 100
  }

  /** Rounding an exact multiple of 100 loses nothing: naira sent as kobo come back unchanged. */
  lemma RoundDiv100OfHundreds(n: int)
    ensures RoundDiv100(100 * n) == n
  {
  }
}
