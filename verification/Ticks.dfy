/** Prices on the tick grid: `round_to_tick` (src/polymaker/strategy/quoting.py) and its exact effect. */
module Ticks {
  import opened Numerics

  /** A market's tick, and the unit of the last printed decimal that `price_decimals` derives from it. */
  datatype Grid = Grid(tick: real, unit: real) {
    ghost predicate Valid() {
      0.0 < unit && 0.0 < tick && 2.0 * tick < 1.0 && OnGrid(tick, unit) && OnGrid(1.0, unit)
    }

    /** Python's `round(price, price_decimals)`. */
    function Round(price: real): real
      requires unit > 0.0
    {
      RoundTo(price, unit)
    }
  }

  /** The nearest whole number of ticks at or below the price (at or above, if `up`), with the guard. */
  function SnapCount(price: real, tick: real, up: bool): int
    requires tick > 0.0
  {
    if up then Ceil(price / tick - EPS) else (price / tick + EPS).Floor
  }

  function Snap(price: real, tick: real, up: bool): real
    requires tick > 0.0
  {
    SnapCount(price, tick, up) as real * tick
  }

  function RoundToTick(price: real, g: Grid, up: bool): real
    requires g.Valid()
  {
    Min(Max(g.Round(Snap(price, g.tick, up)), g.tick), 1.0 - g.tick)
  }

  // ── The grid ─────────────────────────────────────────────────────────

  lemma MultipleOf(k: int, n: int, tick: real, unit: real)
    requires tick == n as real * unit
    ensures k as real * tick == (k * n) as real * unit
  {
    assert (k * n) as real == k as real * n as real;
    assert k as real * (n as real * unit) == (k as real * n as real) * unit;
  }

  lemma DifferenceOf(n: int, m: int, a: real, b: real, unit: real)
    requires a == n as real * unit && b == m as real * unit
    ensures a - b == (n - m) as real * unit
  {
    assert (n as real - m as real) * unit == n as real * unit - m as real * unit;
  }

  lemma MultiplesPrint(x: real, n: int, unit: real)
    requires unit > 0.0 && x == n as real * unit
    ensures RoundTo(x, unit) == x
  {
    RoundExact(n, unit);
  }

  /** Whole ticks have only printable decimals, so rounding leaves them alone. */
  lemma TicksPrint(k: int, g: Grid)
    requires g.Valid()
    ensures g.Round(k as real * g.tick) == k as real * g.tick
  {
    var n := (g.tick / g.unit).Floor;
    MultipleOf(k, n, g.tick, g.unit);
    MultiplesPrint(k as real * g.tick, k * n, g.unit);
  }

  /** One minus a tick is printable too. */
  lemma ComplementPrints(g: Grid)
    requires g.Valid()
    ensures g.Round(1.0 - g.tick) == 1.0 - g.tick
  {
    var n, m := (1.0 / g.unit).Floor, (g.tick / g.unit).Floor;
    DifferenceOf(n, m, 1.0, g.tick, g.unit);
    MultiplesPrint(1.0 - g.tick, n - m, g.unit);
  }

  lemma PrintsAt(p: real, k: int, g: Grid)
    requires g.Valid() && p == k as real * g.tick
    ensures g.Round(p) == p
  {
    TicksPrint(k, g);
  }

  lemma SnapPrints(price: real, g: Grid, up: bool)
    requires g.Valid()
    ensures g.Round(Snap(price, g.tick, up)) == Snap(price, g.tick, up)
  {
    PrintsAt(Snap(price, g.tick, up), SnapCount(price, g.tick, up), g);
  }

  lemma TickPrints(g: Grid)
    requires g.Valid()
    ensures g.Round(g.tick) == g.tick
  {
    MultiplesPrint(g.tick, (g.tick / g.unit).Floor, g.unit);
  }

  lemma RoundToTickClamps(price: real, g: Grid, up: bool)
    requires g.Valid()
    ensures RoundToTick(price, g, up) == Min(Max(Snap(price, g.tick, up), g.tick), 1.0 - g.tick)
    ensures g.Round(RoundToTick(price, g, up)) == RoundToTick(price, g, up)
  {
    SnapPrints(price, g, up);
    TickPrints(g);
    ComplementPrints(g);
    var p := RoundToTick(price, g, up);
    assert p == Snap(price, g.tick, up) || p == g.tick || p == 1.0 - g.tick;
  }

  /** The floor with its guard: at most EPS ticks above the price, less than a tick below. */
  lemma FloorTick(x: real, tick: real)
    requires tick > 0.0
    ensures var p := Snap(x, tick, false); x + EPS * tick - tick < p <= x + EPS * tick
  {
    var n := x / tick;
    var k := (n + EPS).Floor as real;
    MulDiv(x, tick);
    assert (n + EPS) * tick == x + EPS * tick;
    MulMono(k, n + EPS, tick);
    MulMono(n + EPS - 1.0, k, tick);
    assert (n + EPS - 1.0) * tick == x + EPS * tick - tick;
  }

  lemma FloorBelow(y: real, n: int)
    requires y <= n as real
    ensures (y + EPS).Floor <= n && ((y + EPS).Floor == n <==> n as real <= y + EPS)
  {
  }

  /** Scaling a count of ticks to a price. */
  lemma Scale(y: real, n: int, x: real, b: real, tick: real)
    requires tick > 0.0 && x == y * tick && b == n as real * tick
    ensures n as real <= y + EPS <==> x >= b - EPS * tick
    ensures y <= n as real <==> x <= b
  {
    MulMono(n as real, y + EPS, tick);
    MulMono(y, n as real, tick);
    assert (y + EPS) * tick == x + EPS * tick;
  }

  /** Against a grid price: never above one the price does not exceed, and equal to it just within the guard. */
  lemma FloorTickBelow(x: real, b: real, tick: real)
    requires tick > 0.0 && OnGrid(b, tick) && x <= b
    ensures var p := Snap(x, tick, false); p <= b && (p == b <==> x >= b - EPS * tick)
  {
    var n := (b / tick).Floor;
    MulDiv(x, tick);
    Scale(x / tick, n, x, b, tick);
    FloorBelow(x / tick, n);
    CountsAndPrices(SnapCount(x, tick, false), n, tick);
  }

  lemma CountsAndPrices(k: int, n: int, tick: real)
    requires tick > 0.0
    ensures k <= n <==> k as real * tick <= n as real * tick
    ensures k == n <==> k as real * tick == n as real * tick
  {
    MulMono(k as real, n as real, tick);
    MulMono(n as real, k as real, tick);
  }

  lemma SnapMonotone(x: real, y: real, tick: real)
    requires tick > 0.0 && x <= y
    ensures Snap(x, tick, false) <= Snap(y, tick, false)
  {
    MulMono(x, y, tick);
    CountsAndPrices(SnapCount(x, tick, false), SnapCount(y, tick, false), tick);
  }

  /** The ceiling with its guard, against a grid price the argument reaches. */
  lemma CeilTickAbove(x: real, b: real, tick: real)
    requires tick > 0.0 && OnGrid(b, tick) && x >= b
    ensures Snap(x, tick, true) >= b
  {
    var n := (b / tick).Floor;
    MulDiv(n as real, tick);
    assert b / tick == n as real;
    MulMono(b, x, tick);
    var k := Ceil(x / tick - EPS);
    assert k >= n;
    MulMono(n as real, k as real, tick);
  }

  /** Rounding down: the result is a printable price in [tick, 1 - tick], at most EPS ticks above the argument
      unless clamped up to one tick. */
  lemma RoundDown(x: real, g: Grid)
    requires g.Valid()
    ensures var p := RoundToTick(x, g, false);
      && g.tick <= p <= 1.0 - g.tick && p <= Max(x + EPS * g.tick, g.tick)
      && g.Round(p) == p
  {
    FloorTick(x, g.tick);
    RoundToTickClamps(x, g, false);
  }

  /** Rounding down a price that does not exceed a grid price of at least one tick stays at or below it, and
      reaches it exactly within the guard. */
  lemma RoundDownBelow(x: real, b: real, g: Grid)
    requires g.Valid() && OnGrid(b, g.tick) && x <= b && g.tick <= b
    ensures var p := RoundToTick(x, g, false);
      && p <= b
      && (g.tick < b <= 1.0 - g.tick ==> (p == b <==> x >= b - EPS * g.tick))
  {
    FloorTickBelow(x, b, g.tick);
    RoundToTickClamps(x, g, false);
  }

  /** Rounding up a price that reaches a grid price stays at or above it, up to the clamp at 1 - tick. */
  lemma RoundUpAbove(x: real, b: real, g: Grid)
    requires g.Valid() && OnGrid(b, g.tick) && x >= b && b <= 1.0 - g.tick
    ensures b <= RoundToTick(x, g, true) <= 1.0 - g.tick
  {
    CeilTickAbove(x, b, g.tick);
    RoundToTickClamps(x, g, true);
  }

  /** Stepping down from a printable price and rounding never goes above it. */
  lemma LayerBelow(top: real, offset: real, g: Grid)
    requires g.Valid() && g.Round(top) == top && offset >= 0.0
    ensures g.Round(top - offset) <= top
  {
    RoundMonotone(top - offset, top, g.unit);
  }
}
