/**
 * JavaScript number operations on integers, written out where they differ from
 * Dafny's Euclidean `/` and `%`.
 */
module Numbers {

  /** `Math.floor(a / b)` for a positive divisor. */
  function FloorDiv(a: int, b: int): (q: int)
    requires b > 0
    ensures b * q <= a < b * q + b
  {
    a / b
  }

  /** JavaScript `a % b` for a positive divisor: the remainder takes the sign of `a`. */
  function TruncRem(a: int, b: int): (r: int)
    requires b > 0
    ensures a >= 0 ==> 0 <= r < b
    ensures a < 0 ==> -b < r <= 0
  {
    if a >= 0 then a % b else -((-a) % b)
  }

  /**
   * `Math.round(t / c)` for a positive count: the nearest integer, halves
   * rounded up, which is `floor((2t + c) / 2c)`.
   */
  function Round(t: int, c: int): (r: int)
    requires c > 0
    ensures 2 * c * r <= 2 * t + c < 2 * c * r + 2 * c
  {
    (2 * t + c) / (2 * c)
  }

  /** The rounded quotient is within half a unit of the exact one. */
  lemma RoundNearest(t: int, c: int)
    requires c > 0
    ensures 2 * t - c <= 2 * c * Round(t, c) <= 2 * t + c
  {
  }

  /** For a non-negative numerator the JavaScript and Euclidean remainders agree. */
  lemma TruncRemNonNegative(a: int, b: int)
    requires a >= 0 && b > 0
    ensures TruncRem(a, b) == a % b && a == b * FloorDiv(a, b) + TruncRem(a, b)
  {
  }
}
