/** Exactly which quotes the two-sided maker wants (src/polymaker/strategy/quoting.py): its prices as the highest or lowest
    that its limits allow, its sizes as shares of its budget, its layers one by one. */
module MakerTargets {
  import opened Numerics
  import opened Domain
  import opened Dict
  import opened Ticks
  import opened Quoting
  import S = MakerSafety
  import C = MakerControl

  // ── Bids ─────────────────────────────────────────────────────────────

  /** A price is on the tick grid, above its lowest and not above its highest price. */
  ghost predicate Inside(price: real, g: Grid)
    requires g.Valid()
  {
    OnGrid(price, g.tick) && g.tick < price <= 1.0 - g.tick
  }

  /** Against a grid price, rounding down is only a matter of the guard. */
  lemma RoundDownReaches(x: real, p: real, g: Grid)
    requires g.Valid() && Inside(p, g)
    ensures p <= RoundToTick(x, g, false) <==> p <= x + EPS * g.tick
  {
    hide Grid.Round, RoundToTick;
    RoundToTickClamps(x, g, false);
    SnapReaches(x, p, g.tick);
  }

  lemma SnapReaches(x: real, p: real, tick: real)
    requires tick > 0.0 && OnGrid(p, tick)
    ensures p <= Snap(x, tick, false) <==> p <= x + EPS * tick
  {
    var n, k := (p / tick).Floor, SnapCount(x, tick, false);
    MulDiv(x, tick);
    MulDiv(p, tick);
    Scale(x / tick, n, x, p, tick);
    FloorReaches(x / tick, n);
    CountsAndPrices(n, k, tick);
  }

  lemma FloorReaches(y: real, n: int)
    ensures n <= (y + EPS).Floor <==> n as real <= y + EPS
  {
  }

  /** A bid at `price` respects the target, the edge, the best bid, and, with no bid to join, the ask it was aimed at. */
  ghost predicate Allows(price: real, target: real, cap: real, view: View, tick: real) {
    && price <= target + 0.000000001 * tick
    && price <= cap + 0.000000001 * tick
    && (view.bestBid.Some? ==> price <= view.bestBid.value)
    && (view.bestBid.None? && view.bestAsk.Some? && view.bestAsk.value <= target && view.bestAsk.value <= cap ==>
          price < view.bestAsk.value)
  }

  lemma OneTickBelow(p: real, q: real, tick: real)
    requires tick > 0.0 && OnGrid(p, tick) && OnGrid(q, tick)
    ensures p < q <==> p <= q - tick
    ensures p <= q <==> p <= q + EPS * tick
    ensures p < q <==> p <= (q - tick) + EPS * tick
  {
    var n, m := (p / tick).Floor, (q / tick).Floor;
    MulDiv(p, tick);
    MulDiv(q, tick);
    CountsAndPrices(n, m, tick);
    CountsAndPrices(m, n, tick);
    assert EPS * tick < tick;
    if n < m {
      C.FewerTicks(n, m, p, q, tick);
    } else if m < n {
      C.FewerTicks(m, n, q, p, tick);
    }
  }

  lemma RawAllows(target: real, view: View, g: Grid, fv: real, minEdgeTicks: int, p: real)
    requires g.Valid() && S.OnGridView(view, g) && Inside(p, g)
    ensures p <= BidBeforeRounding(target, view, g.tick, fv, minEdgeTicks) + EPS * g.tick <==>
            Allows(p, target, EdgeCap(fv, minEdgeTicks, g.tick), view, g.tick)
  {
    hide EdgeCap, OnGrid;
    if view.bestBid.Some? {
      OneTickBelow(p, view.bestBid.value, g.tick);
    }
    if view.bestAsk.Some? {
      OneTickBelow(p, view.bestAsk.value, g.tick);
    }
  }

  lemma EdgeIs(fv: real, minEdgeTicks: int, tick: real)
    ensures EdgeCap(fv, minEdgeTicks, tick) == fv - Times(minEdgeTicks as real, tick)
  {
  }

  /** BID: on a book the exchange can show, the bid is the highest grid price that target, minimum edge and touch allow; a
      tick if they allow none. */
  lemma BidIsHighest(target: real, view: View, g: Grid, fv: real, minEdgeTicks: int, p: real)
    requires g.Valid() && S.OnGridView(view, g) && Inside(p, g)
    ensures var bid := PlaceBid(target, view, g, fv, minEdgeTicks);
      && bid.Some? && g.tick <= bid.value <= 1.0 - g.tick
      && (p <= bid.value <==> Allows(p, target, fv - Times(minEdgeTicks as real, g.tick), view, g.tick))
  {
    hide RoundToTick, BidBeforeRounding, Allows, S.OnGridView, OnGrid, EdgeCap, Times;
    EdgeIs(fv, minEdgeTicks, g.tick);
    var x := BidBeforeRounding(target, view, g.tick, fv, minEdgeTicks);
    RoundToTickClamps(x, g, false);
    RawAllows(target, view, g, fv, minEdgeTicks, p);
    RoundDownReaches(x, p, g);
  }

  /** And it is a grid price itself, or the highest price there is. */
  lemma BidIsOnGrid(target: real, view: View, g: Grid, fv: real, minEdgeTicks: int)
    requires g.Valid()
    ensures var bid := PlaceBid(target, view, g, fv, minEdgeTicks);
      bid.Some? && (OnGrid(bid.value, g.tick) || bid.value == 1.0 - g.tick)
  {
    hide BidBeforeRounding, RoundToTick;
    var x := BidBeforeRounding(target, view, g.tick, fv, minEdgeTicks);
    RoundToTickClamps(x, g, false);
    S.MultipleOnGrid(Snap(x, g.tick, false), SnapCount(x, g.tick, false), g.tick);
    assert g.tick == 1 as real * g.tick;
    S.MultipleOnGrid(g.tick, 1, g.tick);
  }

  /** Inventory in YES terms, valued at fair value, as a share of the most that may be held. */
  lemma UtilizationIs(inp: Inputs)
    requires inp.Valid()
    ensures var most := inp.profile.qMaxUsdc;
      var held := (inp.posYes.size - inp.posNo.size) * Max(inp.fv, inp.meta.grid.tick);
      var u := Utilization(inp);
      if most <= 0.0 then u == 0.0
      else if held >= most then u == 1.0
      else if held <= -most then u == -1.0
      else u * most == held
  {
    var price, most := Max(inp.fv, inp.meta.grid.tick), inp.profile.qMaxUsdc;
    assert price > 0.0;
    ShareOfCap(inp.posYes.size - inp.posNo.size, most, price);
  }

  lemma ShareOfCap(net: real, most: real, price: real)
    requires price > 0.0
    ensures (most / price > 0.0) <==> (most > 0.0)
    ensures most > 0.0 ==>
              && (net / (most / price)) * most == net * price
              && (net / (most / price) >= 1.0 <==> net * price >= most)
              && (net / (most / price) <= -1.0 <==> net * price <= -most)
  {
    MulMono(0.0, most, price);
    if most > 0.0 {
      var cap := most / price;
      MulDiv(most, price);
      MulDiv(net, cap);
      var u := net / cap;
      assert u * cap == net && cap * price == most;
      assert u * most == u * (cap * price) == (u * cap) * price == net * price;
      MulMono(1.0, u, most);
      MulMono(u, -1.0, most);
    }
  }

  lemma CentreIs(inp: Inputs)
    requires inp.Valid()
    ensures Reservation(inp) == inp.fv - Times(inp.profile.gamma * inp.volShort, Utilization(inp))
  {
    hide Utilization;
  }

  /** BIDS OF A MARKET: fair value leaned against the inventory, less the half-spread, within edge and touch. */
  lemma BidsAreHighest(inp: Inputs, p: real)
    requires inp.Valid() && Inside(p, inp.meta.grid)
    ensures var tick, edge := inp.meta.grid.tick, Times(inp.profile.minEdgeTicks as real, inp.meta.grid.tick);
      var centre := inp.fv - Times(inp.profile.gamma * inp.volShort, Utilization(inp));
      && (S.OnGridView(inp.yesView, inp.meta.grid) ==>
            YesBid(inp).Some? &&
            (p <= YesBid(inp).value <==> Allows(p, centre - HalfSpread(inp), inp.fv - edge, inp.yesView, tick)))
      && (S.OnGridView(inp.noView, inp.meta.grid) ==>
            NoBid(inp).Some? &&
            (p <= NoBid(inp).value <==> Allows(p, 1.0 - centre - HalfSpread(inp), 1.0 - inp.fv - edge, inp.noView, tick)))
  {
    CentreIs(inp);
    hide PlaceBid, HalfSpread, Utilization, Allows, S.OnGridView, Inside, Grid.Valid, Times, Reservation;
    var m, centre := inp.meta, Reservation(inp);
    if S.OnGridView(inp.yesView, m.grid) {
      BidIsHighest(centre - HalfSpread(inp), inp.yesView, m.grid, inp.fv, inp.profile.minEdgeTicks, p);
    }
    if S.OnGridView(inp.noView, m.grid) {
      BidIsHighest((1.0 - centre) - HalfSpread(inp), inp.noView, m.grid, 1.0 - inp.fv, inp.profile.minEdgeTicks, p);
    }
  }

  // ── Sizes ────────────────────────────────────────────────────────────

  function InUnit(x: real): real { if x < 0.0 then 0.0 else if x > 1.0 then 1.0 else x }

  /** SCALE of an entry: half while trending, what the risk manager grants, what the inventory leaves room for; and a part
      in one plus ten times the toxicity of that. */
  lemma ScaleIs(inp: Inputs, u: real)
    requires inp.Valid()
    ensures EntryScale(inp, u) * (1.0 + 10.0 * inp.toxicity) ==
            (if inp.regime == TRENDING then 0.5 else 1.0) * InUnit(inp.riskSizeScale) * (1.0 - if u > 0.0 then u else 0.0)
  {
    var t := 1.0 + inp.toxicity * 10.0;
    MulDiv(1.0, t);
    assert ToxicityScale(inp.toxicity) * t == 1.0;
    Rearrange(RegimeScale(inp), ToxicityScale(inp.toxicity), Clamp(inp.riskSizeScale, 0.0, 1.0), 1.0 - Max(u, 0.0), t);
  }

  lemma Rearrange(a: real, b: real, c: real, d: real, t: real)
    requires b * t == 1.0
    ensures ((a * b * c) * d) * t == a * c * d
  {
    assert (a * b * c) * t == (a * c) * (b * t);
    assert ((a * b * c) * d) * t == ((a * b * c) * t) * d;
  }

  /** SIZE of an entry: the shares that the scaled base buys at the bid, rounded to hundredths. */
  lemma SizeIs(inp: Inputs, price: real, u: real)
    requires inp.Valid() && price >= inp.meta.grid.tick && inp.profile.baseSizeUsdc >= 0.0 && u <= 1.0
    ensures var (size, money) := (EntrySize(inp, price, u), Times(inp.profile.baseSizeUsdc, EntryScale(inp, u)));
      Times(price, size - 0.005) <= money <= Times(price, size + 0.005)
  {
    hide EntryScale, RawShares, SizeShares, Times, Grid.Valid;
    C.TickPositive(inp);
    C.ScaleShrinks(inp, inp.toxicity, u);
    assert C.Stressed(inp, inp.toxicity) == inp;
    var (base, scale, tick) := (inp.profile.baseSizeUsdc, EntryScale(inp, u), inp.meta.grid.tick);
    var (raw, size) := (RawShares(base, price, scale, tick), EntrySize(inp, price, u));
    C.RawCost(base, price, scale, tick);
    C.SharesNear(base, price, scale, tick);
    TimesMonotone(price, size - 0.005, raw);
    TimesMonotone(price, raw, size + 0.005);
  }

  // ── Layers ───────────────────────────────────────────────────────────

  function EqualShare(total: real, n: int): real
    requires n >= 1
  {
    RoundTo(total / n as real, 0.01)
  }

  /** `n` is the largest number of layers, up to `want`, whose equal shares reach half the floor, or one. */
  ghost predicate Splits(total: real, want: int, floor: real, n: int, share: real) {
    && 1 <= n <= want && share == EqualShare(total, n)
    && (floor <= 0.0 ==> n == want)
    && (floor > 0.0 ==>
          && (n == 1 || share >= 0.5 * floor)
          && forall k :: n < k <= want ==> EqualShare(total, k) < 0.5 * floor)
  }

  lemma {:induction false} ConsolidateSplits(total: real, want: int, floor: real)
    requires want >= 1
    ensures var n := Consolidate(total, want, floor); Splits(total, want, floor, n, PerLayer(total, n))
  {
    hide RoundTo;
    if want > 1 && TooThin(total, want, floor) {
      ConsolidateSplits(total, want - 1, floor);
    }
  }

  /** The ladder is its layers, one by one. */
  lemma {:induction false} LadderIs(token: string, top: real, g: Grid, step: int, per: real, layers: nat, q: Quote)
    requires g.Valid()
    ensures q in Ladder(token, BUY, top, g, step, true, per, layers) <==>
            exists i :: 0 <= i < layers && q == Quote(token, BUY, Rung(top, g, step, i), per) && 0.0 < q.price < 1.0
  {
    hide Grid.Round;
    if layers > 0 {
      LadderIs(token, top, g, step, per, layers - 1, q);
      RungIs(top, g, step, layers - 1);
    }
  }

  /** `i` steps below the top, printed. */
  function Rung(top: real, g: Grid, step: int, i: int): real
    requires g.Valid()
  {
    g.Round(top - i as real * step as real * g.tick)
  }

  lemma RungIs(top: real, g: Grid, step: int, i: nat)
    requires g.Valid()
    ensures LayerPrice(top, g, step, true, i) == Rung(top, g, step, i)
  {
    hide Grid.Round;
  }

  lemma RewardIs(inp: Inputs)
    ensures RewardFloor(inp) == Times(inp.meta.rewardsMinSize, inp.profile.rewardSizeMult)
  {
  }

  /** LAYERS: an entry becomes equal orders a step apart, starting at the bid: as many as reach half the larger of the
      reward size and the exchange minimum, bumped up to that, and none below the exchange minimum. */
  lemma EntriesAre(inp: Inputs, token: string, e: Entry) returns (n: int, share: real)
    requires inp.Valid() && e.Entry? && e.total > 0.0
    ensures var want := if inp.profile.layers >= 1 then inp.profile.layers else 1;
      var reward := Times(inp.meta.rewardsMinSize, inp.profile.rewardSizeMult);
      var floor := if reward >= inp.meta.minOrderSize then reward else inp.meta.minOrderSize;
      var per := if floor > 0.0 && 0.5 * floor <= share < floor then floor else share;
      && Splits(e.total, want, floor, n, share)
      && forall q :: q in Entries(inp, token, e) <==>
           && per >= inp.meta.minOrderSize && per > 0.0
           && exists i :: 0 <= i < n && q == Quote(token, BUY, Rung(e.price, inp.meta.grid, inp.profile.layerStepTicks, i), per)
                          && 0.0 < q.price < 1.0
  {
    RewardIs(inp);
    hide PerLayer, Consolidate, Ladder, Rung, Grid.Valid, Splits, RewardFloor, Times;
    var m, p := inp.meta, inp.profile;
    var want := if p.layers >= 1 then p.layers else 1;
    var floor := Max(RewardFloor(inp), m.minOrderSize);
    n := Consolidate(e.total, want, floor);
    share := PerLayer(e.total, n);
    ConsolidateSplits(e.total, want, floor);
    forall q
      ensures q in Ladder(token, BUY, e.price, m.grid, p.layerStepTicks, true, Bumped(share, floor), n) <==>
              exists i :: 0 <= i < n && q == Quote(token, BUY, Rung(e.price, m.grid, p.layerStepTicks, i), Bumped(share, floor))
                          && 0.0 < q.price < 1.0
    {
      LadderIs(token, e.price, m.grid, p.layerStepTicks, Bumped(share, floor), n, q);
    }
  }

  // ── Exits ────────────────────────────────────────────────────────────

  /** Against a grid price, rounding up is only a matter of the guard. */
  lemma RoundUpReaches(x: real, p: real, g: Grid)
    requires g.Valid() && OnGrid(p, g.tick) && g.tick <= p < 1.0 - g.tick
    ensures RoundToTick(x, g, true) <= p <==> x <= p + EPS * g.tick
  {
    hide Grid.Round, RoundToTick;
    RoundToTickClamps(x, g, true);
    SnapUpReaches(x, p, g.tick);
  }

  lemma SnapUpReaches(x: real, p: real, tick: real)
    requires tick > 0.0 && OnGrid(p, tick)
    ensures Snap(x, tick, true) <= p <==> x <= p + EPS * tick
  {
    var n, k := (p / tick).Floor, SnapCount(x, tick, true);
    MulDiv(x, tick);
    MulDiv(p, tick);
    ScaleUp(x / tick, n, x, p, tick);
    CeilReaches(x / tick, n);
    CountsAndPrices(k, n, tick);
  }

  lemma CeilReaches(y: real, n: int)
    ensures Ceil(y - EPS) <= n <==> y - EPS <= n as real
  {
  }

  lemma ScaleUp(y: real, n: int, x: real, b: real, tick: real)
    requires tick > 0.0 && x == y * tick && b == n as real * tick
    ensures y - EPS <= n as real <==> x <= b + EPS * tick
  {
    MulMono(y - EPS, n as real, tick);
    assert (y - EPS) * tick == x - EPS * tick;
  }

  /** ASK of an exit before rounding: on the way from fair value plus the half-spread to a tick above the bid, as far as
      the urgency says, at least half in REDUCE_ONLY; never below that end of the way, and never on it without a bid. */
  lemma AskIs(fv: real, delta: real, view: View, tick: real, urgency: real, regime: Regime)
    ensures var haste := if regime == REDUCE_ONLY && urgency < 0.5 then 0.5 else urgency;
      var ask := AskBeforeRounding(fv, delta, view, tick, urgency, regime);
      if view.bestBid.None? then ask == fv + delta
      else
        var near := view.bestBid.value + tick;
        var target := Times(fv + delta, 1.0 - haste) + Times(near, haste);
        ask == if target >= near then target else near
  {
    if view.bestBid.None? {
      var u := if regime == REDUCE_ONLY then Max(urgency, 0.5) else urgency;
      assert (fv + delta) * (1.0 - u) + (fv + delta) * u == fv + delta;
    }
  }

  /** URGENCY: more of it never raises the ask; at its fullest an exit asks a tick above the bid. */
  lemma UrgencyLowersAsk(fv: real, delta: real, view: View, tick: real, urgency: real, more: real, regime: Regime)
    requires 0.0 <= urgency <= more <= 1.0
    ensures AskBeforeRounding(fv, delta, view, tick, more, regime) <= AskBeforeRounding(fv, delta, view, tick, urgency, regime)
    ensures view.bestBid.Some? ==> AskBeforeRounding(fv, delta, view, tick, 1.0, regime) == view.bestBid.value + tick
  {
    hide AskBeforeRounding, Times;
    AskIs(fv, delta, view, tick, urgency, regime);
    AskIs(fv, delta, view, tick, more, regime);
    AskIs(fv, delta, view, tick, 1.0, regime);
    if view.bestBid.Some? {
      var (far, near) := (fv + delta, view.bestBid.value + tick);
      var u := if regime == REDUCE_ONLY && urgency < 0.5 then 0.5 else urgency;
      var v := if regime == REDUCE_ONLY && more < 0.5 then 0.5 else more;
      Blend(far, near, u, v);
      Blend(far, near, v, 1.0);
    }
  }

  lemma Blend(far: real, near: real, u: real, v: real)
    requires 0.0 <= u <= v <= 1.0
    ensures var (x, y) := (Times(far, 1.0 - u) + Times(near, u), Times(far, 1.0 - v) + Times(near, v));
      && (far >= near ==> near <= y <= x)
      && (far <= near ==> x <= near && y <= near)
      && (v == 1.0 ==> y == near)
  {
    var d := far - near;
    Apart(far, near, u);
    Apart(far, near, v);
    hide Times;
    if d >= 0.0 {
      TimesMonotone(d, 1.0 - v, 1.0 - u);
    } else {
      TimesMonotone(-d, 1.0 - v, 1.0 - u);
    }
  }

  lemma Apart(far: real, near: real, u: real)
    requires 0.0 <= u <= 1.0
    ensures Times(far, 1.0 - u) + Times(near, u) == near + Times(far - near, 1.0 - u)
    ensures Times(near - far, 1.0 - u) == -Times(far - near, 1.0 - u)
    ensures far >= near ==> Times(far - near, 1.0 - u) >= 0.0
    ensures far <= near ==> Times(far - near, 1.0 - u) <= 0.0
    ensures u == 1.0 ==> Times(far - near, 1.0 - u) == 0.0
  {
    if far >= near {
      MulNonNegative(far - near, 1.0 - u);
    } else {
      MulNonNegative(near - far, 1.0 - u);
    }
  }

  /** EXIT: one order for the whole hundredths of a holding that reach the exchange minimum, and no other. */
  lemma ExitIs(token: string, pos: Position, fv: real, delta: real, view: View, g: Grid, urgency: real, minOrderSize: real,
               regime: Regime)
    requires g.Valid()
    ensures var size := (pos.size * 100.0).Floor as real / 100.0;
      Exit(token, pos, fv, delta, view, g, urgency, minOrderSize, regime) ==
      if size >= minOrderSize
      then [Quote(token, SELL, RoundToTick(AskBeforeRounding(fv, delta, view, g.tick, urgency, regime), g, true), size)]
      else []
  {
    hide RoundToTick, AskBeforeRounding;
    S.FloorSharesBelow(pos.size);
    var ask := AskBeforeRounding(fv, delta, view, g.tick, urgency, regime);
    assert 0.0 < RoundToTick(ask, g, true) < 1.0 by {
      RoundToTickClamps(ask, g, true);
    }
  }

  /** Its price is the lowest grid price that reaches the ask, or the highest price there is. */
  lemma ExitIsLowest(token: string, pos: Position, fv: real, delta: real, view: View, g: Grid, urgency: real,
                     minOrderSize: real, regime: Regime, q: Quote, p: real)
    requires g.Valid() && q in Exit(token, pos, fv, delta, view, g, urgency, minOrderSize, regime)
    requires OnGrid(p, g.tick) && g.tick <= p < 1.0 - g.tick
    ensures q.price <= p <==> AskBeforeRounding(fv, delta, view, g.tick, urgency, regime) <= p + 0.000000001 * g.tick
    ensures g.tick <= q.price <= 1.0 - g.tick
  {
    hide RoundToTick, AskBeforeRounding, OnGrid;
    ExitIs(token, pos, fv, delta, view, g, urgency, minOrderSize, regime);
    var ask := AskBeforeRounding(fv, delta, view, g.tick, urgency, regime);
    RoundToTickClamps(ask, g, true);
    RoundUpReaches(ask, p, g);
  }

  // ── The whole set ────────────────────────────────────────────────────

  /** QUOTE SET: bids for YES below the soft cap, bids for NO above its negative, both only in QUIET and TRENDING; exits of
      either holding unless the market is in EVENT or HALTED; and nothing else. */
  lemma QuotesAre(inp: Inputs, q: Quote)
    requires inp.Valid()
    ensures YesBid(inp).Some? && NoBid(inp).Some?
    ensures var (m, u) := (inp.meta, Utilization(inp));
      q in MakerQuotes(inp) <==>
        || (inp.regime in {QUIET, TRENDING} && u < inp.profile.qSoftFrac
            && q in Entries(inp, m.yes, Entry(YesBid(inp).value, EntrySize(inp, YesBid(inp).value, u))))
        || (inp.regime in {QUIET, TRENDING} && u > -inp.profile.qSoftFrac
            && q in Entries(inp, m.no, Entry(NoBid(inp).value, EntrySize(inp, NoBid(inp).value, -u))))
        || (inp.regime !in {EVENT, HALTED}
            && q in Exit(m.yes, inp.posYes, inp.fv, HalfSpread(inp), inp.yesView, m.grid, inp.yesUrgency, m.minOrderSize, inp.regime))
        || (inp.regime !in {EVENT, HALTED}
            && q in Exit(m.no, inp.posNo, 1.0 - inp.fv, HalfSpread(inp), inp.noView, m.grid, inp.noUrgency, m.minOrderSize,
                         inp.regime))
  {
    hide YesBid, NoBid, Utilization, HalfSpread, EntrySize, Exit, Entries, Grid.Valid;
    C.BidsInBand(inp);
    NoEntryNoOrders(inp, inp.meta.yes);
    NoEntryNoOrders(inp, inp.meta.no);
  }

  lemma NoEntryNoOrders(inp: Inputs, token: string)
    requires inp.Valid()
    ensures Entries(inp, token, NoEntry) == []
  {
  }
}
