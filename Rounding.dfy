/** Integer rendering of JavaScript's `Math.round` applied to a quotient. */
module Rounding {

  /** `Math.round(n / d)`: the nearest integer, halves rounded towards +infinity.
      `Math.round(x)` is `floor(x + 1/2)`, and `floor((2n + d) / (2d))` is that
      value for `x = n / d`. */
  function RoundHalfUp(n: int, d: int): (r: int)
    requires d > 0
    ensures 2 * d * r - d <= 2 * n < 2 * d * r + d
  {
    var r := (2 * n + d) / (2 * d);
    DivBounds(2 * n + d, 2 * d);
    r
  }

  /** Floor division brackets its dividend. */
  lemma DivBounds(a: int, b: int)
    requires b > 0
    ensures b * (a / b) <= a < b * (a / b) + b
  {
  }

  /** Scaling by a non-negative factor preserves order. */
  lemma MulLe(k: int, a: int, b: int)
    requires k >= 0 && a <= b
    ensures k * a <= k * b
  {
    assert k * b - k * a == k * (b - a);
  }

  /** The result of `RoundHalfUp` is the only integer within half a unit. */
  lemma RoundHalfUpUnique(n: int, d: int, r: int)
    requires d > 0
    requires 2 * d * r - d <= 2 * n < 2 * d * r + d
    ensures r == RoundHalfUp(n, d)
  {
    var q := RoundHalfUp(n, d);
    if r < q {
      MulLe(2 * d, r + 1, q);
    } else if r > q {
      MulLe(2 * d, q + 1, r);
    }
  }

  /** Rounding preserves the order of numerators. */
  lemma RoundHalfUpMonotone(n: int, m: int, d: int)
    requires d > 0 && n <= m
    ensures RoundHalfUp(n, d) <= RoundHalfUp(m, d)
  {
    var a, b := RoundHalfUp(n, d), RoundHalfUp(m, d);
    if a > b {
      MulLe(2 * d, b + 1, a);
    }
  }
}
