/** Scalar helpers shared by the analyzer and the web layer: Python's
    min/max/abs on reals, the `max(lo, min(hi, x))` clip idiom (also what
    `np.clip` computes), and `round(x, n)` modelled on exact reals. */
module Numeric {

  function Abs(x: real): real { if x < 0.0 then -x else x }

  function Min(a: real, b: real): real { if a <= b then a else b }

  function Max(a: real, b: real): real { if a >= b then a else b }

  /** `max(lo, min(hi, x))`: the result always lies in [lo, hi], a value
      already inside is returned unchanged, and one outside goes to the
      nearer bound. */
  function Clip(x: real, lo: real, hi: real): (r: real)
    requires lo <= hi
    ensures lo <= r <= hi
    ensures lo <= x <= hi ==> r == x
    ensures x < lo ==> r == lo
    ensures x > hi ==> r == hi
  {
    Max(lo, Min(hi, x))
  }

  lemma ClipIdempotent(x: real, lo: real, hi: real)
    requires lo <= hi
    ensures Clip(Clip(x, lo, hi), lo, hi) == Clip(x, lo, hi)
  {
  }

  lemma ClipMonotone(x: real, y: real, lo: real, hi: real)
    requires lo <= hi && x <= y
    ensures Clip(x, lo, hi) <= Clip(y, lo, hi)
  {
  }

  function Pow10(n: nat): (p: nat)
    ensures p >= 1
  {
    if n == 0 then 1 else 10 * Pow10(n - 1)
  }

  /** Python's rounding rule on a scaled value: the nearest integer, an exact
      tie going to the even neighbour (see RoundHalfEvenNearest). */
  function RoundHalfEven(y: real): int
  {
    var fl := y.Floor;
    var frac := y - fl as real;
    if frac < 0.5 then fl
    else if frac > 0.5 then fl + 1
    else if fl % 2 == 0 then fl
    else fl + 1
  }

  /** RoundHalfEven(y) is an integer nearest to y, and on a tie the even one. */
  lemma RoundHalfEvenNearest(y: real)
    ensures y - 0.5 <= RoundHalfEven(y) as real <= y + 0.5
    ensures Abs(RoundHalfEven(y) as real - y) == 0.5 ==> RoundHalfEven(y) % 2 == 0
  {
  }

  lemma RoundHalfEvenMonotone(y1: real, y2: real)
    requires y1 <= y2
    ensures RoundHalfEven(y1) <= RoundHalfEven(y2)
  {
    var f1, f2 := y1.Floor, y2.Floor;
    assert f1 <= f2;
    if f1 < f2 {
      assert RoundHalfEven(y1) <= f1 + 1 <= f2 <= RoundHalfEven(y2);
    }
  }

  lemma RoundHalfEvenOfInt(k: int)
    ensures RoundHalfEven(k as real) == k
  {
    assert (k as real).Floor == k;
  }

  /** `round(x, digits)` on an exact real: x scaled by 10^digits, rounded half
      to even, scaled back. Binary floating-point representation is not
      modelled. */
  function RoundTo(x: real, digits: nat): (r: real)
    ensures OnGrid(r, digits)
  {
    var p := Pow10(digits) as real;
    RoundAtScaleTimesScale(x, p);
    OnGridOf(RoundAtScale(x, p), digits, RoundHalfEven(x * p));
    RoundAtScale(x, p)
  }

  /** x has at most `digits` places after the decimal point: scaled by
      10^digits it is a whole number. */
  predicate OnGrid(x: real, digits: nat)
  {
    (x * Pow10(digits) as real).Floor as real == x * Pow10(digits) as real
  }

  lemma OnGridOf(r: real, digits: nat, m: int)
    requires r * Pow10(digits) as real == m as real
    ensures OnGrid(r, digits)
  {
    assert (r * Pow10(digits) as real).Floor == m;
  }

  /** x rounded to the nearest multiple of 1/p, ties to an even multiple. */
  function RoundAtScale(x: real, p: real): real
    requires p > 0.0
  {
    RoundHalfEven(x * p) as real / p
  }

  /** Scaled back by p, x rounded at scale p is the half-even rounding of
      x * p, a whole number. */
  lemma RoundAtScaleTimesScale(x: real, p: real)
    requires p >= 1.0
    ensures RoundAtScale(x, p) * p == RoundHalfEven(x * p) as real
  {
    var m := RoundHalfEven(x * p) as real;
    assert m / p * p == m;
  }

  /** The rounded value is within half a unit in the last kept place. */
  lemma RoundToError(x: real, digits: nat)
    ensures Abs(RoundTo(x, digits) - x) <= 0.5 / (Pow10(digits) as real)
  {
    RoundAtScaleError(x, Pow10(digits) as real);
  }

  lemma RoundAtScaleError(x: real, p: real)
    requires p > 0.0
    ensures Abs(RoundAtScale(x, p) - x) <= 0.5 / p
  {
    var m := RoundHalfEven(x * p);
    RoundHalfEvenNearest(x * p);
    DivSub(m as real, x, p);
    DivMonotone(m as real - x * p, 0.5, p);
    DivMonotone(-0.5, m as real - x * p, p);
    DivNeg(0.5, p);
  }

  lemma DivMonotone(a: real, b: real, p: real)
    requires p > 0.0 && a <= b
    ensures a / p <= b / p
  {
  }

  lemma DivSub(m: real, x: real, p: real)
    requires p > 0.0
    ensures m / p - x == (m - x * p) / p
  {
  }

  lemma DivNeg(a: real, p: real)
    requires p > 0.0
    ensures (-a) / p == -(a / p)
  {
  }

  lemma DivLessIff(d: real, m: real, k: real)
    requires m > 0.0
    ensures d / m < k <==> d < k * m
  {
    assert d / m * m == d;
    if d / m < k { assert d / m * m < k * m; }
    if d < k * m { assert d / m * m < k * m; }
  }

  /** Dividing by p and by q, then multiplying back by both, gives the
      dividend. */
  lemma DivDivTimes(a: real, p: real, q: real)
    requires p > 0.0 && q > 0.0
    ensures (a / p) / q * q * p == a
  {
  }

  lemma MulMonotone(a: real, b: real, p: real)
    requires a <= b && p > 0.0
    ensures a * p <= b * p
  {
  }

  lemma RoundToMonotone(x: real, y: real, digits: nat)
    requires x <= y
    ensures RoundTo(x, digits) <= RoundTo(y, digits)
  {
    RoundAtScaleMonotone(x, y, Pow10(digits) as real);
  }

  lemma RoundAtScaleMonotone(x: real, y: real, p: real)
    requires x <= y && p > 0.0
    ensures RoundAtScale(x, p) <= RoundAtScale(y, p)
  {
    MulMonotone(x, y, p);
    RoundHalfEvenMonotone(x * p, y * p);
    DivMonotone(RoundHalfEven(x * p) as real, RoundHalfEven(y * p) as real, p);
  }

  lemma RoundToInteger(k: int, digits: nat)
    ensures RoundTo(k as real, digits) == k as real
  {
    RoundAtScaleInteger(k, Pow10(digits));
  }

  lemma RoundAtScaleInteger(k: int, n: nat)
    requires n >= 1
    ensures RoundAtScale(k as real, n as real) == k as real
  {
    IntMulAsReal(k, n);
    RoundHalfEvenOfInt(k * n);
    assert RoundHalfEven((k as real) * (n as real)) == k * n;
    DivInt(k, n);
  }

  lemma IntMulAsReal(k: int, n: int)
    ensures (k as real) * (n as real) == (k * n) as real
  {
  }

  lemma DivInt(k: int, n: nat)
    requires n >= 1
    ensures ((k * n) as real) / (n as real) == k as real
  {
  }

  /** Rounding a value that lies between two whole numbers keeps it there:
      every clip-then-round in the analyzer has whole-number bounds. */
  lemma RoundToWithin(x: real, lo: int, hi: int, digits: nat)
    requires lo as real <= x <= hi as real
    ensures lo as real <= RoundTo(x, digits) <= hi as real
  {
    RoundToMonotone(lo as real, x, digits);
    RoundToMonotone(x, hi as real, digits);
    RoundToInteger(lo, digits);
    RoundToInteger(hi, digits);
  }
}
