/**
  The arithmetic of JavaScript's `Math` object over exact reals:
  `Math.min`, `Math.max` and `Math.round`.
 */
module Numeric {
  function Min(a: real, b: real): (m: real)
    ensures m <= a && m <= b && (m == a || m == b)
  {
    if a <= b then a else b
  }

  function Max(a: real, b: real): (m: real)
    ensures m >= a && m >= b && (m == a || m == b)
  {
    if a >= b then a else b
  }

  /** `Math.round`: the nearest integer, halves rounded towards +infinity. */
  function Round(x: real): (n: int)
    ensures x - 0.5 < n as real <= x + 0.5
  {
    (x + 0.5).Floor
  }

  /** Rounding is monotone and leaves integers as they are. */
  lemma RoundMonotone(x: real, y: real)
    requires x <= y
    ensures Round(x) <= Round(y)
  {
  }

  lemma RoundInteger(n: int)
    ensures Round(n as real) == n
  {
  }
}
