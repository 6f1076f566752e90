/** Exact arithmetic shared by the models: the 1e-9 guard, clamping, and Python's `round`. */
module Numerics {

  /** The `_EPS` guard of the reconciler and of the quoters. */
  const EPS: real := 0.000000001

  function Abs(x: real): real { if x < 0.0 then -x else x }

  function Min(x: real, y: real): real { if x <= y then x else y }

  function Max(x: real, y: real): real { if x >= y then x else y }

  function Clamp(x: real, lo: real, hi: real): real { Min(Max(x, lo), hi) }

  function Sum(xs: seq<real>): real {
    if xs == [] then 0.0 else xs[0] + Sum(xs[1..])
  }

  function Ceil(x: real): int { -((-x).Floor) }

  /** Python's one-argument `round`: to the nearest integer, ties to even. */
  function RoundInt(x: real): int {
    var n := x.Floor;
    var frac := x - n as real;
    if frac < 0.5 then n
    else if frac > 0.5 then n + 1
    else if n % 2 == 0 then n else n + 1
  }

  /** Python's `round(x, d)` with `unit` = 10**-d. */
  function RoundTo(x: real, unit: real): real
    requires unit > 0.0
  {
    RoundInt(x / unit) as real * unit
  }

  /** A whole number of units. */
  predicate OnGrid(x: real, unit: real)
    requires unit > 0.0
  {
    (x / unit).Floor as real == x / unit
  }

  lemma FloorOfInt(n: int)
    ensures (n as real).Floor == n
  {
  }

  lemma MulDiv(n: real, unit: real)
    requires unit > 0.0
    ensures (n * unit) / unit == n
    ensures (n / unit) * unit == n
  {
  }

  lemma MulNonNegative(a: real, b: real)
    requires a >= 0.0 && b >= 0.0
    ensures a * b >= 0.0
  {
  }

  lemma MulMono(a: real, b: real, unit: real)
    requires unit > 0.0
    ensures a <= b <==> a * unit <= b * unit
    ensures a < b <==> a * unit < b * unit
    ensures a <= b <==> a / unit <= b / unit
  {
    MulDiv(a, unit);
    MulDiv(b, unit);
    if a / unit <= b / unit {
      assert (a / unit) * unit <= (b / unit) * unit;
    }
    if a / unit > b / unit {
      assert (a / unit) * unit > (b / unit) * unit;
    }
  }

  /** `n` copies of `x`. */
  function Copies(n: int, x: real): real { n as real * x }

  lemma OneMore(n: int, x: real)
    ensures Copies(n + 1, x) == Copies(n, x) + x
  {
    assert (n + 1) as real == n as real + 1.0;
  }

  lemma NoCopies(x: real)
    ensures Copies(0, x) == 0.0
  {
  }

  lemma CopiesNonNegative(n: int, x: real)
    requires n >= 0 && x >= 0.0
    ensures Copies(n, x) >= 0.0
  {
  }

  lemma ScaledMonotone(a: real, x: real, y: real)
    requires a >= 0.0 && x <= y
    ensures a * x <= a * y
  {
    MulNonNegative(a, y - x);
    assert a * y - a * x == a * (y - x);
  }

  /** A product under a name, so that it is compared as a whole. */
  function Times(a: real, b: real): real { a * b }

  lemma TimesMonotone(a: real, x: real, y: real)
    requires a >= 0.0 && x <= y
    ensures Times(a, x) <= Times(a, y)
  {
    ScaledMonotone(a, x, y);
  }

  lemma TimesLeft(x: real, y: real, b: real)
    requires b >= 0.0 && x <= y
    ensures Times(x, b) <= Times(y, b)
  {
    TimesMonotone(b, x, y);
  }

  lemma TimesInUnit(a: real, b: real)
    requires 0.0 <= a <= 1.0 && 0.0 <= b <= 1.0
    ensures 0.0 <= Times(a, b) <= 1.0
  {
    MulNonNegative(a, b);
    TimesMonotone(a, b, 1.0);
    assert Times(a, 1.0) == a;
  }

  lemma TimesAdds(a: real, x: real, y: real)
    ensures Times(a, x + y) == Times(a, x) + Times(a, y)
  {
  }

  lemma RoundIntMonotone(x: real, y: real)
    requires x <= y
    ensures RoundInt(x) <= RoundInt(y)
  {
    if x.Floor == y.Floor {
    } else {
      assert x.Floor + 1 <= y.Floor;
    }
  }

  /** `round` is within half a unit of its argument. */
  lemma RoundNear(x: real, unit: real)
    requires unit > 0.0
    ensures Abs(RoundTo(x, unit) - x) <= 0.5 * unit
  {
    var n := RoundInt(x / unit) as real;
    assert -0.5 <= n - x / unit <= 0.5;
    MulDiv(x, unit);
    MulMono(n - x / unit, 0.5, unit);
    MulMono(-0.5, n - x / unit, unit);
    var d := n - x / unit;
    assert n == d + x / unit;
    assert n * unit == d * unit + (x / unit) * unit;
    assert RoundTo(x, unit) - x == d * unit;
    assert -0.5 * unit <= d * unit <= 0.5 * unit;
  }

  /** `round` is monotone. */
  lemma RoundMonotone(x: real, y: real, unit: real)
    requires unit > 0.0 && x <= y
    ensures RoundTo(x, unit) <= RoundTo(y, unit)
  {
    MulMono(x, y, unit);
    RoundIntMonotone(x / unit, y / unit);
    MulMono(RoundInt(x / unit) as real, RoundInt(y / unit) as real, unit);
  }

  /** `round` leaves a multiple of the unit alone. */
  lemma RoundExact(k: int, unit: real)
    requires unit > 0.0
    ensures RoundTo(k as real * unit, unit) == k as real * unit
  {
    MulDiv(k as real, unit);
    FloorOfInt(k);
  }
}
