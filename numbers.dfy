/** Real-number helpers standing for Python's `max`/`min` clamps, `abs`,
    `int()` truncation and `round(x, 4)` (round half to even, taken on the
    exact value, as Python does for the float it is given). */
module Numbers {

  function Max(a: real, b: real): real { if a >= b then a else b }

  function Min(a: real, b: real): real { if a <= b then a else b }

  function MinInt(a: int, b: int): int { if a <= b then a else b }

  function Abs(x: real): (r: real)
    ensures r >= 0.0
    ensures r == x || r == -x
  {
    if x >= 0.0 then x else -x
  }

  /** `max(lo, min(hi, x))` */
  function Clamp(lo: real, hi: real, x: real): (r: real)
    ensures lo <= hi ==> lo <= r <= hi
    ensures lo <= x <= hi ==> r == x
    ensures x > hi ==> r == Max(lo, hi)
    ensures x < lo ==> r == lo
  {
    Max(lo, Min(hi, x))
  }

  /** Python's `int(x)` on a float: truncation toward zero. */
  function Trunc(x: real): (r: int)
    ensures x >= 0.0 ==> 0 <= r && r as real <= x < r as real + 1.0
    ensures x < 0.0 ==> r <= 0 && r as real - 1.0 < x <= r as real
  {
    if x >= 0.0 then x.Floor else -((-x).Floor)
  }

  /** Round half to even to an integer. */
  function RoundHalfEven(y: real): (n: int)
    ensures -0.5 <= n as real - y <= 0.5
  {
    var f := y.Floor;
    var d := y - f as real;
    if d < 0.5 then f
    else if d > 0.5 then f + 1
    else if f % 2 == 0 then f
    else f + 1
  }

  lemma RoundHalfEvenMonotone(x: real, y: real)
    requires x <= y
    ensures RoundHalfEven(x) <= RoundHalfEven(y)
  {
    var fx, fy := x.Floor, y.Floor;
    assert fx <= fy;
    if fx == fy {
      // Same integer part: the fractional part of y is at least that of x.
    } else {
      assert RoundHalfEven(x) <= fx + 1 <= fy <= RoundHalfEven(y);
    }
  }

  /** The integer part of a real pinned down by bounds. */
  lemma FloorIs(x: real, k: int)
    requires k as real <= x < k as real + 1.0
    ensures x.Floor == k
  {
  }

  lemma RoundHalfEvenOfInt(k: int)
    ensures RoundHalfEven(k as real) == k
  {
    assert (k as real).Floor == k;
  }

  /** `round(x, 4)` */
  function Round4(x: real): (r: real)
    ensures -0.00005 <= r - x <= 0.00005
  {
    RoundHalfEven(x * 10000.0) as real / 10000.0
  }

  /** A value strictly within half a unit of k/10000 rounds to it. */
  lemma Round4At(x: real, k: int)
    requires k as real - 0.5 < x * 10000.0 < k as real + 0.5
    ensures Round4(x) == k as real / 10000.0
  {
    var y := x * 10000.0;
    if y >= k as real {
      FloorIs(y, k);
    } else {
      FloorIs(y, k - 1);
    }
  }

  /** Rounding to four places keeps a probability a probability and
      preserves order. */
  lemma Round4Monotone(x: real, y: real)
    requires x <= y
    ensures Round4(x) <= Round4(y)
  {
    RoundHalfEvenMonotone(x * 10000.0, y * 10000.0);
  }

  lemma {:induction false} Round4UnitInterval(x: real)
    requires 0.0 <= x <= 1.0
    ensures 0.0 <= Round4(x) <= 1.0
  {
    RoundHalfEvenMonotone(0.0, x * 10000.0);
    RoundHalfEvenMonotone(x * 10000.0, 10000.0);
    RoundHalfEvenOfInt(0);
    RoundHalfEvenOfInt(10000);
  }

  /** A quotient of a value between 0 and the (positive) divisor lies in
      [0, 1]. */
  lemma QuotientInUnit(s: real, d: real)
    requires d > 0.0 && 0.0 <= s <= d
    ensures 0.0 <= s / d <= 1.0
  {
    var q := s / d;
    assert q * d == s;
    assert (1.0 - q) * d == d - s;
  }

  /** Clamping preserves order. */
  lemma ClampMonotone(lo: real, hi: real, x: real, y: real)
    requires x <= y
    ensures Clamp(lo, hi, x) <= Clamp(lo, hi, y)
  {
  }

  /** Multiplying by a non-negative factor preserves order. */
  lemma MulMonotone(a: real, b: real, c: real)
    requires a <= b && c >= 0.0
    ensures a * c <= b * c
  {
    var d := b - a;
    assert d * c >= 0.0;
    assert b * c - a * c == d * c;
  }

  /** Three four-place roundings the pipeline meets: 0.55 is kept, 0.89996
      rounds up to 0.9 and 55/64 = 0.859375 rounds down to 0.8594. */
  lemma Round4Examples()
    ensures Round4(0.55) == 0.55
    ensures Round4(0.89996) == 0.9
    ensures Round4(55.0 / 64.0) == 0.8594
  {
    Round4At(0.55, 5500);
    Round4At(0.89996, 9000);
    Round4At(55.0 / 64.0, 8594);
  }
}
