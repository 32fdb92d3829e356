/** The number conversions of the source's language. */
module PyNumber {

  /** `int(x)` on a float: truncation toward zero. */
  function Trunc(x: real): int {
    if x >= 0.0 then x.Floor else -(-x).Floor
  }

  lemma TruncBounds(x: real)
    requires x >= 0.0
    ensures 0 <= Trunc(x) && Trunc(x) as real <= x
  {
  }
}
