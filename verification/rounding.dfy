/** Output rounding: `Math.round(x * k) / k` over exact reals.
    `Math.round` rounds to the nearest integer, halves upward. */
module Rounding {

  /** The nearest integer to `x`; a tie goes to the larger integer. */
  function Round(x: real): (n: int)
    ensures n as real - 0.5 <= x < n as real + 0.5
  {
    (x + 0.5).Floor
  }

  /** `x` rounded to a multiple of `1/scale` (scale 10: one decimal place,
      scale 100: two decimal places, scale 1: whole numbers). */
  function RoundTo(x: real, scale: real): (r: real)
    requires scale > 0.0
    ensures r * scale == Round(x * scale) as real
    ensures r * scale - 0.5 <= x * scale < r * scale + 0.5
  {
    Round(x * scale) as real / scale
  }

  /** At most half a step away from the value rounded. */
  lemma RoundToIsClose(x: real, scale: real)
    requires scale > 0.0
    ensures -0.5 / scale < RoundTo(x, scale) - x <= 0.5 / scale
  {
    var r := RoundTo(x, scale);
    assert (r - x) * scale <= 0.5;
    assert -0.5 < (r - x) * scale;
  }

  /** `Round` never reverses the order of two values. */
  lemma {:induction false} RoundMonotone(x: real, y: real)
    requires x <= y
    ensures Round(x) <= Round(y)
  {
  }

  /** `RoundTo` never reverses the order of two values. */
  lemma RoundToMonotone(x: real, y: real, scale: real)
    requires scale > 0.0
    requires x <= y
    ensures RoundTo(x, scale) <= RoundTo(y, scale)
  {
    assert x * scale <= y * scale;
    RoundMonotone(x * scale, y * scale);
  }

  /** A value already on the grid `n / scale` is left as it is. */
  lemma RoundToExact(n: int, scale: real)
    requires scale > 0.0
    ensures RoundTo(n as real / scale, scale) == n as real / scale
  {
    var x := n as real / scale;
    RoundToFixesGridPoint(x, scale, n);
  }

  /** The grid value `n` of `x` is the one `Round` picks, so rounding
      leaves `x` where it is. */
  lemma RoundToFixesGridPoint(x: real, scale: real, n: int)
    requires scale > 0.0
    requires x * scale == n as real
    ensures RoundTo(x, scale) == x
  {
    var r := RoundTo(x, scale);
    assert Round(x * scale) == n;
    assert r * scale == n as real;
    assert (r - x) * scale == 0.0;
  }

  /** A bound on the grid survives rounding: from below ... */
  lemma RoundToKeepsLowerBound(n: int, x: real, scale: real)
    requires scale > 0.0
    requires n as real / scale <= x
    ensures n as real / scale <= RoundTo(x, scale)
  {
    RoundToMonotone(n as real / scale, x, scale);
    RoundToExact(n, scale);
  }

  /** ... and from above. */
  lemma RoundToKeepsUpperBound(n: int, x: real, scale: real)
    requires scale > 0.0
    requires x <= n as real / scale
    ensures RoundTo(x, scale) <= n as real / scale
  {
    RoundToMonotone(x, n as real / scale, scale);
    RoundToExact(n, scale);
  }
}
