/** JavaScript's `Math.round(p / q)` on integers, computed exactly on the rationals (the
    floating-point artefacts at .5 boundaries are not modelled). */
module Rounding {

  /** `Math.round(n / d)`: the integer nearest to n/d, halves rounded towards +infinity
      (`Math.round(x)` is `floor(x + 1/2)`). For d > 0 the result r is characterised by
      r - 1/2 <= n/d < r + 1/2, which the first ensures states multiplied out by 2d. */
  function RoundQuot(n: int, d: int): (r: int)
    requires d != 0
    ensures d > 0 ==> 2 * d * r - d <= 2 * n < 2 * d * r + d
    ensures d < 0 ==> 2 * (-d) * r + d <= -2 * n < 2 * (-d) * r - d
  {
    if d > 0 then (2 * n + d) / (2 * d) else (-2 * n - d) / (-2 * d)
  }

  /** Multiplying by a positive number preserves strict order, with a gap of at least d. */
  lemma {:induction false} MulStep(a: int, b: int, d: int)
    requires d > 0 && a < b
    ensures d * a + d <= d * b
    decreases b - a
  {
    if a + 1 < b {
      MulStep(a, b - 1, d);
      assert d * (b - 1) + d == d * b;
    } else {
      assert d * (a + 1) == d * a + d;
    }
  }

  /** At most one integer satisfies the rounding characterisation, so it determines RoundQuot. */
  lemma RoundUnique(n: int, d: int, r: int)
    requires d > 0
    requires 2 * d * r - d <= 2 * n < 2 * d * r + d
    ensures RoundQuot(n, d) == r
  {
    var q := RoundQuot(n, d);
    if q < r {
      MulStep(q, r, 2 * d);
    } else if r < q {
      MulStep(r, q, 2 * d);
    }
  }

  /** Whole quotients are returned exactly. */
  lemma RoundExact(k: int, d: int)
    requires d > 0
    ensures RoundQuot(k * d, d) == k
  {
    assert 2 * d * k == 2 * (k * d);
    RoundUnique(k * d, d, k);
  }

  /** A percentage `Math.round(part / whole * 100)` of a part between 0 and the whole lies in [0, 100]. */
  lemma PercentInRange(part: int, whole: int)
    requires whole > 0 && 0 <= part <= whole
    ensures 0 <= RoundQuot(100 * part, whole) <= 100
  {
    var r := RoundQuot(100 * part, whole);
    if r < 0 {
      MulStep(r, 0, 2 * whole);
    } else if r > 100 {
      MulStep(100, r, 2 * whole);
    }
  }

  /** Rounding is monotone in the numerator. */
  lemma RoundMonotone(n1: int, n2: int, d: int)
    requires d > 0 && n1 <= n2
    ensures RoundQuot(n1, d) <= RoundQuot(n2, d)
  {
    var r1, r2 := RoundQuot(n1, d), RoundQuot(n2, d);
    if r2 < r1 {
      MulStep(r2, r1, 2 * d);
    }
  }
}
