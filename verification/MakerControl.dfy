/** How the two-sided maker reacts to what it holds and to the market: it leans against its inventory, pulls the
    adding side, widens and shrinks under stress (src/polymaker/strategy/quoting.py). */
module MakerControl {
  import opened Numerics
  import opened Domain
  import opened Dict
  import opened Ticks
  import opened Quoting
  import S = MakerSafety

  // ── Sides ────────────────────────────────────────────────────────────

  /** PULLING A SIDE: a token is bid for only outside REDUCE_ONLY, EVENT and HALTED and while its own utilization is
      below the soft cap. */
  lemma BuysNeedRoom(inp: Inputs, q: Quote)
    requires inp.Valid() && q in MakerQuotes(inp) && q.side == BUY
    ensures inp.regime == QUIET || inp.regime == TRENDING
    ensures q.tokenId == inp.meta.yes ==> Utilization(inp) < inp.profile.qSoftFrac
    ensures q.tokenId == inp.meta.no ==> -Utilization(inp) < inp.profile.qSoftFrac
  {
    hide Entries, Utilization, HalfSpread, YesBid, NoBid, Exit, EntrySize, Grid.Valid;
    var m, u := inp.meta, Utilization(inp);
    S.EntriesBuy(inp, m.yes, EntryAt(inp, YesBid(inp), u));
    S.EntriesBuy(inp, m.no, EntryAt(inp, NoBid(inp), -u));
    if q in YesExit(inp) || q in NoExit(inp) {
      S.ExitsSell(inp, q);
    }
  }

  // ── Inventory skew ───────────────────────────────────────────────────

  /** The same market with other holdings. */
  function Holding(inp: Inputs, yes: Position, no: Position): Inputs {
    inp.(posYes := yes, posNo := no)
  }

  lemma ClampMonotone(x: real, y: real)
    requires x <= y
    ensures Clamp(x, -1.0, 1.0) <= Clamp(y, -1.0, 1.0)
  {
  }

  lemma UtilizationMonotone(inp: Inputs, yes: Position, no: Position)
    requires inp.Valid() && inp.posYes.size - inp.posNo.size <= yes.size - no.size
    ensures -1.0 <= Utilization(inp) <= Utilization(Holding(inp, yes, no)) <= 1.0
  {
    var cap := inp.profile.qMaxUsdc / Max(inp.fv, inp.meta.grid.tick);
    if cap > 0.0 {
      MulMono(inp.posYes.size - inp.posNo.size, yes.size - no.size, cap);
      ClampMonotone((inp.posYes.size - inp.posNo.size) / cap, (yes.size - no.size) / cap);
    }
  }

  function Lean(inp: Inputs): real { inp.profile.gamma * inp.volShort }

  lemma ReservationIs(inp: Inputs)
    requires inp.Valid()
    ensures Reservation(inp) == inp.fv - Lean(inp) * Utilization(inp)
  {
    hide Utilization;
  }

  /** A longer YES position lowers the reservation price, or raises it if the lean is negative. */
  lemma ReservationFalls(inp: Inputs, yes: Position, no: Position)
    requires inp.Valid()
    requires inp.posYes.size - inp.posNo.size <= yes.size - no.size
    ensures Lean(inp) >= 0.0 ==> Reservation(Holding(inp, yes, no)) <= Reservation(inp)
    ensures Lean(inp) <= 0.0 ==> Reservation(Holding(inp, yes, no)) >= Reservation(inp)
  {
    hide Utilization, Reservation, Lean;
    var more := Holding(inp, yes, no);
    UtilizationMonotone(inp, yes, no);
    ReservationIs(inp);
    ReservationIs(more);
    SameLean(inp, yes, no);
    if Lean(inp) >= 0.0 {
      ScaledMonotone(Lean(inp), Utilization(inp), Utilization(more));
    }
    if Lean(inp) <= 0.0 {
      ScaledMonotone(-Lean(inp), Utilization(inp), Utilization(more));
    }
  }

  lemma SameLean(inp: Inputs, yes: Position, no: Position)
    ensures Lean(Holding(inp, yes, no)) == Lean(inp)
  {
  }

  /** A bid is shown below any ask, so the ask never decides where to bid; or the ask is one the exchange can show. */
  ghost predicate PlainBook(view: View, g: Grid)
    requires g.Valid()
  {
    view.bestAsk.Some? ==>
      || BidBelowAsk(view)
      || (OnGrid(view.bestAsk.value, g.tick) && g.tick <= view.bestAsk.value <= 1.0 - g.tick)
  }

  predicate BidBelowAsk(view: View)
    requires view.bestAsk.Some?
  {
    view.bestBid.Some? && view.bestBid.value < view.bestAsk.value
  }

  /** The lower of two targets bids more than the higher one: no bid stands below the ask, the lower capped target lies
      within the guard under it and is rounded up to it, the higher one reaches it and is sent a tick below it. */
  predicate Overtakes(low: real, high: real, view: View, cap: real, tick: real) {
    && view.bestAsk.Some? && !BidBelowAsk(view) && view.bestAsk.value > tick
    && view.bestAsk.value - EPS * tick <= Min(low, cap) < view.bestAsk.value <= Min(high, cap)
  }

  lemma RoundToTickMonotone(x: real, y: real, g: Grid)
    requires g.Valid() && x <= y
    ensures RoundToTick(x, g, false) <= RoundToTick(y, g, false)
  {
    hide Snap, RoundToTick, Grid.Round;
    RoundToTickClamps(x, g, false);
    RoundToTickClamps(y, g, false);
    SnapMonotone(x, y, g.tick);
  }

  /** Under a grid price: within the guard the rounded price is that price, below the guard at least a tick less. */
  lemma RoundUnder(x: real, b: real, g: Grid)
    requires g.Valid() && OnGrid(b, g.tick) && g.tick < b <= 1.0 - g.tick && x < b
    ensures RoundToTick(b - g.tick, g, false) == b - g.tick
    ensures RoundToTick(x, g, false) <= b - g.tick <==> x < b - EPS * g.tick
  {
    hide RoundToTick, Grid.Round, OnGrid;
    RoundToTickClamps(b - g.tick, g, false);
    RoundToTickClamps(x, g, false);
    SnapUnder(x, b, g.tick);
  }

  lemma OneTickLess(b: real, n: int, tick: real)
    requires tick > 0.0 && b == n as real * tick && tick < b
    ensures b - tick == (n - 1) as real * tick && b - tick >= tick
  {
    if n <= 1 {
      MulMono(n as real, 1.0, tick);
      assert false;
    }
    MulMono(2.0, n as real, tick);
    assert 2.0 * tick <= b;
  }

  lemma SnapUnder(x: real, b: real, tick: real)
    requires tick > 0.0 && OnGrid(b, tick) && tick < b && x < b
    ensures b - tick >= tick && Snap(b - tick, tick, false) == b - tick
    ensures var p := Snap(x, tick, false); if x < b - EPS * tick then p <= b - tick else p == b
  {
    var n := (b / tick).Floor;
    MulDiv(b, tick);
    OneTickLess(b, n, tick);
    S.MultipleOnGrid(b - tick, n - 1, tick);
    FloorTickBelow(x, b, tick);
    FloorTickBelow(b - tick, b - tick, tick);
    var k := SnapCount(x, tick, false);
    CountsAndPrices(k, n, tick);
    if k < n {
      FewerTicks(k, n, Snap(x, tick, false), b, tick);
    }
  }

  lemma FewerTicks(k: int, n: int, p: real, b: real, tick: real)
    requires tick > 0.0 && k < n && p == k as real * tick && b == n as real * tick
    ensures p <= b - tick
  {
    AtLeastOneMore(k as real, n as real, p, b, tick);
  }

  lemma AtLeastOneMore(x: real, y: real, p: real, b: real, tick: real)
    requires tick > 0.0 && x + 1.0 <= y && p == x * tick && b == y * tick
    ensures p <= b - tick
  {
    MulNonNegative(y - x - 1.0, tick);
    assert (y - x - 1.0) * tick == b - p - tick;
  }

  /** A higher target never lowers the bid, but for that one case. */
  lemma PlaceBidMonotone(low: real, high: real, view: View, g: Grid, fv: real, minEdgeTicks: int)
    requires g.Valid() && PlainBook(view, g) && low <= high
    ensures PlaceBid(low, view, g, fv, minEdgeTicks).Some? && PlaceBid(high, view, g, fv, minEdgeTicks).Some?
    ensures PlaceBid(low, view, g, fv, minEdgeTicks).value <= PlaceBid(high, view, g, fv, minEdgeTicks).value <==>
            !Overtakes(low, high, view, EdgeCap(fv, minEdgeTicks, g.tick), g.tick)
  {
    hide RoundToTick, EdgeCap, Grid.Round, OnGrid, Grid.Valid;
    assert g.tick > 0.0 && 2.0 * g.tick < 1.0 by { TickRange(g); }
    var cap := EdgeCap(fv, minEdgeTicks, g.tick);
    var x := BidBeforeRounding(low, view, g.tick, fv, minEdgeTicks);
    var y := BidBeforeRounding(high, view, g.tick, fv, minEdgeTicks);
    S.BidCap(low, view, g, fv, minEdgeTicks);
    S.BidCap(high, view, g, fv, minEdgeTicks);
    if view.bestAsk.Some? && !BidBelowAsk(view) && Min(low, cap) < view.bestAsk.value <= Min(high, cap) {
      var ask := view.bestAsk.value;
      if ask > g.tick {
        RoundUnder(x, ask, g);
      } else {
        RoundDown(x, g);
        RoundDown(y, g);
        RoundDownBelow(x, ask, g);
      }
    } else {
      RoundToTickMonotone(x, y, g);
    }
  }

  lemma TickRange(g: Grid)
    requires g.Valid()
    ensures g.tick > 0.0 && 2.0 * g.tick < 1.0
  {
  }

  /** The prices the two bids aim at. */
  function YesTarget(inp: Inputs): real
    requires inp.Valid()
  {
    Reservation(inp) - HalfSpread(inp)
  }

  function NoTarget(inp: Inputs): real
    requires inp.Valid()
  {
    (1.0 - Reservation(inp)) - HalfSpread(inp)
  }

  function Bid(inp: Inputs, yes: bool): Option<real>
    requires inp.Valid()
  {
    if yes then YesBid(inp) else NoBid(inp)
  }

  function Target(inp: Inputs, yes: bool): real
    requires inp.Valid()
  {
    if yes then YesTarget(inp) else NoTarget(inp)
  }

  function LegView(inp: Inputs, yes: bool): View { if yes then inp.yesView else inp.noView }

  /** One market quoted twice, on one of its tokens: the lower target bids more. */
  predicate Jumps(low: Inputs, high: Inputs, yes: bool)
    requires low.Valid() && high.Valid()
  {
    Overtakes(Target(low, yes), Target(high, yes), LegView(low, yes),
              EdgeCap(if yes then low.fv else 1.0 - low.fv, low.profile.minEdgeTicks, low.meta.grid.tick), low.meta.grid.tick)
  }

  /** `low` bids no more than `high`, unless its target jumps ahead. */
  ghost predicate BidsInOrder(low: Inputs, high: Inputs, yes: bool)
    requires low.Valid() && high.Valid()
  {
    && Bid(low, yes).Some? && Bid(high, yes).Some?
    && (Bid(low, yes).value <= Bid(high, yes).value <==> !Jumps(low, high, yes))
  }

  /** Of two markets that differ in nothing a bid depends on but its target. */
  lemma BidsFollowTargets(low: Inputs, high: Inputs, yes: bool)
    requires low.Valid() && high.Valid() && low.meta == high.meta && low.profile == high.profile && low.fv == high.fv
    requires low.yesView == high.yesView && low.noView == high.noView && PlainBook(LegView(low, yes), low.meta.grid)
    requires Target(low, yes) <= Target(high, yes)
    ensures BidsInOrder(low, high, yes)
  {
    hide PlaceBid, Reservation, HalfSpread, Overtakes, PlainBook, EdgeCap;
    var p := low.profile;
    PlaceBidMonotone(Target(low, yes), Target(high, yes), LegView(low, yes), low.meta.grid,
                     if yes then low.fv else 1.0 - low.fv, p.minEdgeTicks);
  }

  /** LEANING AGAINST INVENTORY: holding more YES (or less NO) never raises the YES bid and never lowers the NO bid,
      unless a target jumps ahead at the ask; with a negative product of risk aversion and volatility it is the other way
      round. */
  lemma InventoryLeansQuotes(inp: Inputs, yes: Position, no: Position)
    requires inp.Valid() && PlainBook(inp.yesView, inp.meta.grid) && PlainBook(inp.noView, inp.meta.grid)
    requires inp.posYes.size - inp.posNo.size <= yes.size - no.size
    ensures var more := Holding(inp, yes, no);
      && (Lean(inp) >= 0.0 ==> BidsInOrder(more, inp, true) && BidsInOrder(inp, more, false))
      && (Lean(inp) <= 0.0 ==> BidsInOrder(inp, more, true) && BidsInOrder(more, inp, false))
  {
    hide YesBid, NoBid, Reservation, HalfSpread, Utilization, Lean, PlainBook, BidsInOrder;
    var more := Holding(inp, yes, no);
    ReservationFalls(inp, yes, no);
    SameSpread(inp, yes, no);
    if Lean(inp) >= 0.0 {
      BidsFollowTargets(more, inp, true);
      BidsFollowTargets(inp, more, false);
    }
    if Lean(inp) <= 0.0 {
      BidsFollowTargets(inp, more, true);
      BidsFollowTargets(more, inp, false);
    }
  }

  lemma SameSpread(inp: Inputs, yes: Position, no: Position)
    requires inp.Valid()
    ensures HalfSpread(Holding(inp, yes, no)) == HalfSpread(inp)
  {
  }

  // ── Spread and size under stress ─────────────────────────────────────

  /** SPREAD: at least a tick; in QUIET, with rewards on offer, at least the base and inside the reward band unless the
      base or a tick is wider. */
  lemma SpreadBounds(inp: Inputs)
    requires inp.Valid()
    ensures HalfSpread(inp) >= inp.meta.grid.tick
    ensures inp.regime == QUIET && RewardBand(inp) > 0.0 ==>
              && BaseSpread(inp) <= HalfSpread(inp) <= Max(Max(BaseSpread(inp), RewardBand(inp)), inp.meta.grid.tick)
              && (HalfSpread(inp) > RewardBand(inp) <==> BaseSpread(inp) > RewardBand(inp) || inp.meta.grid.tick > RewardBand(inp))
  {
    hide RawSpread, BaseSpread, RewardBand;
  }

  lemma RawSpreadGrows(inp: Inputs, toxicity: real)
    requires toxicity >= inp.toxicity && inp.profile.cTox >= 0.0
    ensures RawSpread(inp.(toxicity := toxicity)) >= RawSpread(inp)
    ensures BaseSpread(inp.(toxicity := toxicity)) == BaseSpread(inp)
    ensures RewardBand(inp.(toxicity := toxicity)) == RewardBand(inp)
  {
    ScaledMonotone(inp.profile.cTox, inp.toxicity, toxicity);
  }

  lemma SpreadWidens(inp: Inputs, toxicity: real)
    requires inp.Valid() && toxicity >= inp.toxicity && inp.profile.cTox >= 0.0
    ensures HalfSpread(inp.(toxicity := toxicity)) >= HalfSpread(inp)
  {
    hide RawSpread, BaseSpread, RewardBand;
    RawSpreadGrows(inp, toxicity);
  }

  /** The same market, more volatile. */
  function Wilder(inp: Inputs, vol: real): Inputs { inp.(volShort := vol) }

  /** HALF-SPREAD: the minimum ticks plus what volatility and toxicity add; in QUIET, with rewards on offer, no less than
      the minimum and no more than the band that earns them, if that is wider; always at least a tick. */
  lemma HalfSpreadIs(inp: Inputs)
    requires inp.Valid()
    ensures var tick, band := inp.meta.grid.tick, inp.meta.rewardsMaxSpread / 100.0;
      var least := inp.profile.deltaMinTicks as real * tick;
      var most := if band > least then band else least;
      var raw := least + inp.profile.cVol * inp.volShort + inp.profile.cTox * inp.toxicity;
      var kept := if inp.regime != QUIET || band <= 0.0 then raw else if raw < least then least else if raw > most then most else raw;
      HalfSpread(inp) == if kept >= tick then kept else tick
  {
    hide Grid.Valid;
  }

  /** VOLATILITY, spread: more of it never narrows the half-spread; where neither clamp acts it adds just its weight. */
  lemma VolatilityWidens(inp: Inputs, vol: real)
    requires inp.Valid() && vol >= inp.volShort && inp.profile.cVol >= 0.0
    ensures HalfSpread(Wilder(inp, vol)) >= HalfSpread(inp)
    ensures (inp.regime != QUIET || inp.meta.rewardsMaxSpread <= 0.0) && HalfSpread(inp) > inp.meta.grid.tick ==>
              HalfSpread(Wilder(inp, vol)) == HalfSpread(inp) + inp.profile.cVol * (vol - inp.volShort)
  {
    hide Grid.Valid;
    assert inp.profile.cVol * vol - inp.profile.cVol * inp.volShort == inp.profile.cVol * (vol - inp.volShort);
    MulNonNegative(inp.profile.cVol, vol - inp.volShort);
  }

  lemma FlatUtilization(inp: Inputs)
    requires inp.Valid() && inp.posYes.size == inp.posNo.size
    ensures Utilization(inp) == 0.0 && Reservation(inp) == inp.fv
  {
    var cap := inp.profile.qMaxUsdc / Max(inp.fv, inp.meta.grid.tick);
    if cap > 0.0 {
      MulDiv(0.0, cap);
    }
  }

  /** VOLATILITY, prices: with no net inventory more volatility never raises a bid, unless its target jumps ahead at the
      ask. */
  lemma VolatilityLowersBids(inp: Inputs, vol: real, yes: bool)
    requires inp.Valid() && vol >= inp.volShort && inp.profile.cVol >= 0.0
    requires inp.posYes.size == inp.posNo.size && PlainBook(LegView(inp, yes), inp.meta.grid)
    ensures BidsInOrder(Wilder(inp, vol), inp, yes)
  {
    hide HalfSpread, Reservation, Utilization, YesBid, NoBid, PlainBook, BidsInOrder;
    VolatilityWidens(inp, vol);
    FlatUtilization(inp);
    FlatUtilization(Wilder(inp, vol));
    BidsFollowTargets(Wilder(inp, vol), inp, yes);
  }

  lemma ToxicityScaleFalls(x: real, y: real)
    requires 0.0 <= x <= y
    ensures 0.0 <= ToxicityScale(y) <= ToxicityScale(x) <= 1.0
  {
    var a, b := 1.0 + x * 10.0, 1.0 + y * 10.0;
    MulMono(0.0, 1.0, a);
    MulMono(0.0, 1.0, b);
    MulDiv(1.0, a);
    MulDiv(1.0, b);
    assert ToxicityScale(x) * a == 1.0 && ToxicityScale(y) * b == 1.0;
    MulNonNegative(ToxicityScale(y), b - a);
    assert ToxicityScale(y) * a <= 1.0;
    MulMono(ToxicityScale(y), ToxicityScale(x), a);
    MulNonNegative(ToxicityScale(x), a - 1.0);
    assert ToxicityScale(x) * a - ToxicityScale(x) == ToxicityScale(x) * (a - 1.0);
  }

  /** What the regime and the risk manager leave of the size. */
  function Allowance(inp: Inputs): real { RegimeScale(inp) * Clamp(inp.riskSizeScale, 0.0, 1.0) }

  lemma Reorder(a: real, b: real, c: real)
    ensures a * b * c == (a * c) * b
  {
    calc {
      a * b * c;
      a * (b * c);
      a * (c * b);
      (a * c) * b;
    }
  }

  lemma AllowanceInUnit(inp: Inputs)
    ensures 0.0 <= Allowance(inp) <= 1.0
  {
    TimesInUnit(RegimeScale(inp), Clamp(inp.riskSizeScale, 0.0, 1.0));
  }

  lemma CommonScaleIs(inp: Inputs)
    requires inp.Valid()
    ensures CommonScale(inp) == Times(Allowance(inp), ToxicityScale(inp.toxicity))
  {
    hide ToxicityScale, Grid.Valid, Clamp, RegimeScale;
    Reorder(RegimeScale(inp), ToxicityScale(inp.toxicity), Clamp(inp.riskSizeScale, 0.0, 1.0));
  }

  lemma EntryScaleIs(inp: Inputs, u: real)
    requires inp.Valid()
    ensures EntryScale(inp, u) == Times(CommonScale(inp), 1.0 - Max(u, 0.0))
  {
    hide CommonScale;
  }

  /** The scale of an entry is a fraction, and toxicity only lowers it. */
  lemma ScaleShrinks(inp: Inputs, toxicity: real, u: real)
    requires inp.Valid() && toxicity >= inp.toxicity && u <= 1.0
    ensures 0.0 <= EntryScale(inp.(toxicity := toxicity), u) <= EntryScale(inp, u) <= 1.0
  {
    hide EntryScale, CommonScale, ToxicityScale, Allowance, Times, Grid.Valid;
    var worse, room := inp.(toxicity := toxicity), 1.0 - Max(u, 0.0);
    CommonScaleIs(inp);
    CommonScaleIs(worse);
    AllowanceInUnit(inp);
    SameAllowance(inp, toxicity);
    ToxicityScaleFalls(inp.toxicity, toxicity);
    TimesMonotone(Allowance(inp), ToxicityScale(toxicity), ToxicityScale(inp.toxicity));
    TimesInUnit(Allowance(inp), ToxicityScale(inp.toxicity));
    TimesInUnit(Allowance(inp), ToxicityScale(toxicity));
    EntryScaleIs(inp, u);
    EntryScaleIs(worse, u);
    TimesLeft(CommonScale(worse), CommonScale(inp), room);
    TimesInUnit(CommonScale(inp), room);
    TimesInUnit(CommonScale(worse), room);
  }

  lemma SameAllowance(inp: Inputs, toxicity: real)
    ensures Allowance(inp.(toxicity := toxicity)) == Allowance(inp)
  {
  }

  lemma RawMonotone(base: real, price: real, low: real, high: real, tick: real)
    requires tick > 0.0 && base >= 0.0 && 0.0 <= low <= high
    ensures 0.0 <= RawShares(base, price, low, tick) <= RawShares(base, price, high, tick)
  {
    var each := base / Max(price, tick);
    MulMono(0.0, base, Max(price, tick));
    ScaledMonotone(each, low, high);
    MulNonNegative(each, low);
  }

  lemma NonNegativeRound(x: real)
    requires x >= 0.0
    ensures RoundTo(x, 0.01) >= 0.0
  {
    RoundMonotone(0.0, x, 0.01);
    RoundExact(0, 0.01);
  }

  // ── Size ─────────────────────────────────────────────────────────────

  /** At a price of a tick or more the shares cost exactly the scaled base. */
  lemma RawCost(base: real, price: real, scale: real, tick: real)
    requires tick > 0.0 && price >= tick && scale >= 0.0
    ensures Times(price, RawShares(base, price, scale, tick)) == Times(base, scale)
  {
    var each := base / price;
    MulDiv(base, price);
    assert each * price == base;
    assert price * (each * scale) == (each * price) * scale;
  }

  lemma SharesNear(base: real, price: real, scale: real, tick: real)
    requires tick > 0.0 && base >= 0.0 && scale >= 0.0
    ensures var raw := RawShares(base, price, scale, tick);
      raw >= 0.0 && raw - 0.005 <= SizeShares(base, price, scale, tick) <= raw + 0.005
  {
    hide RawShares, RoundTo;
    RawMonotone(base, price, scale, scale, tick);
    RoundNear(RawShares(base, price, scale, tick), 0.01);
  }

  lemma SharesCost(base: real, price: real, scale: real, tick: real)
    requires tick > 0.0 && base >= 0.0 && price >= tick && scale >= 0.0
    ensures Times(price, SizeShares(base, price, scale, tick)) <= Times(base, scale) + Times(price, 0.005)
  {
    hide RawShares, SizeShares, Times;
    var raw := RawShares(base, price, scale, tick);
    RawCost(base, price, scale, tick);
    SharesNear(base, price, scale, tick);
    TimesMonotone(price, SizeShares(base, price, scale, tick), raw + 0.005);
    TimesAdds(price, raw, 0.005);
  }

  /** More shares at a lower price and scale, exactly if the price falls faster than the scale. */
  lemma RawSharesGrow(base: real, price: real, scale: real, price': real, scale': real, tick: real)
    requires tick > 0.0 && base > 0.0 && price >= tick && price' >= tick && scale >= 0.0 && scale' >= 0.0
    ensures RawShares(base, price', scale', tick) > RawShares(base, price, scale, tick) <==>
              Times(scale', price) > Times(scale, price')
  {
    hide RawShares;
    var a, b := RawShares(base, price, scale, tick), RawShares(base, price', scale', tick);
    RawCost(base, price, scale, tick);
    RawCost(base, price', scale', tick);
    CrossMultiply(base, price, scale, a, price', scale', b);
  }

  lemma CrossMultiply(base: real, price: real, scale: real, a: real, price': real, scale': real, b: real)
    requires base > 0.0 && price > 0.0 && price' > 0.0
    requires Times(price, a) == Times(base, scale) && Times(price', b) == Times(base, scale')
    ensures b > a <==> Times(scale', price) > Times(scale, price')
  {
    MulMono(a, b, price * price');
    assert a * (price * price') == (price * a) * price' == base * (scale * price');
    assert b * (price * price') == (price' * b) * price == base * (scale' * price);
    MulMono(scale * price', scale' * price, base);
  }

  /** Rounding to hundredths keeps the order of two counts, strictly once they are more than a hundredth apart. */
  lemma CountsKeepOrder(base: real, price: real, scale: real, price': real, scale': real, tick: real)
    requires tick > 0.0 && base >= 0.0 && scale >= 0.0 && scale' >= 0.0
    ensures var raw, raw' := RawShares(base, price, scale, tick), RawShares(base, price', scale', tick);
      var n, n' := SizeShares(base, price, scale, tick), SizeShares(base, price', scale', tick);
      && (raw' <= raw ==> n' <= n)
      && (raw' > raw + 0.01 ==> n' > n)
  {
    SharesNear(base, price, scale, tick);
    SharesNear(base, price', scale', tick);
    hide RawShares, RoundTo;
    var raw, raw' := RawShares(base, price, scale, tick), RawShares(base, price', scale', tick);
    if raw' <= raw {
      RoundMonotone(raw', raw, 0.01);
      NonNegativeRound(raw);
    }
  }

  /** The price and size of a bid on one token. */
  function Leg(inp: Inputs, yes: bool): Entry
    requires inp.Valid()
  {
    if yes then EntryAt(inp, YesBid(inp), Utilization(inp)) else EntryAt(inp, NoBid(inp), -Utilization(inp))
  }

  function LegScale(inp: Inputs, yes: bool): real
    requires inp.Valid()
  {
    EntryScale(inp, if yes then Utilization(inp) else -Utilization(inp))
  }

  function LegShares(inp: Inputs, yes: bool, price: real): real
    requires inp.Valid()
  {
    RawShares(inp.profile.baseSizeUsdc, price, LegScale(inp, yes), inp.meta.grid.tick)
  }

  lemma UtilizationInUnit(inp: Inputs)
    requires inp.Valid()
    ensures -1.0 <= Utilization(inp) <= 1.0
  {
    UtilizationMonotone(inp, inp.posYes, inp.posNo);
  }

  lemma LegIs(inp: Inputs, yes: bool)
    requires inp.Valid()
    ensures 0.0 <= LegScale(inp, yes) <= 1.0
    ensures var e := Leg(inp, yes); e.Entry? ==>
              && inp.meta.grid.tick <= e.price <= 1.0 - inp.meta.grid.tick && inp.meta.grid.Round(e.price) == e.price
              && e.total == SizeShares(inp.profile.baseSizeUsdc, e.price, LegScale(inp, yes), inp.meta.grid.tick)
  {
    hide YesBid, NoBid, Utilization, SizeShares, EntryScale, EdgeCap, Grid.Round;
    UtilizationInUnit(inp);
    ScaleShrinks(inp, inp.toxicity, Utilization(inp));
    ScaleShrinks(inp, inp.toxicity, -Utilization(inp));
    S.BidsCapped(inp);
    BidsInBand(inp);
  }

  lemma BidsInBand(inp: Inputs)
    requires inp.Valid()
    ensures YesBid(inp).Some? && inp.meta.grid.tick <= YesBid(inp).value <= 1.0 - inp.meta.grid.tick
    ensures NoBid(inp).Some? && inp.meta.grid.tick <= NoBid(inp).value <= 1.0 - inp.meta.grid.tick
  {
    hide BidBeforeRounding, Reservation, HalfSpread, RoundToTick, S.Tops;
    var m, p := inp.meta, inp.profile;
    S.BidFromTarget(Reservation(inp) - HalfSpread(inp), inp.yesView, m.grid, inp.fv, p.minEdgeTicks);
    S.BidFromTarget((1.0 - Reservation(inp)) - HalfSpread(inp), inp.noView, m.grid, 1.0 - inp.fv, p.minEdgeTicks);
  }

  /** The same market, more toxic. */
  function Stressed(inp: Inputs, toxicity: real): Inputs { inp.(toxicity := toxicity) }

  lemma StressedTargets(inp: Inputs, toxicity: real, yes: bool)
    requires inp.Valid() && toxicity >= inp.toxicity && inp.profile.cTox >= 0.0
    ensures Target(Stressed(inp, toxicity), yes) <= Target(inp, yes)
  {
    hide HalfSpread, Utilization;
    SpreadWidens(inp, toxicity);
    SameUtilization(inp, toxicity);
    assert Reservation(Stressed(inp, toxicity)) == Reservation(inp);
    hide Reservation;
  }

  lemma SameUtilization(inp: Inputs, toxicity: real)
    requires inp.Valid() && toxicity >= 0.0
    ensures Utilization(Stressed(inp, toxicity)) == Utilization(inp)
  {
  }

  /** STRESS, prices: more toxicity never narrows the spread and opens or closes no side; it never raises a bid unless
      its target jumps ahead at the ask. */
  lemma ToxicityWidens(inp: Inputs, toxicity: real, yes: bool)
    requires inp.Valid() && toxicity >= inp.toxicity && inp.profile.cTox >= 0.0
    ensures var worse := Stressed(inp, toxicity);
      && HalfSpread(worse) >= HalfSpread(inp)
      && (Leg(worse, yes).Entry? <==> Leg(inp, yes).Entry?)
      && (PlainBook(LegView(inp, yes), inp.meta.grid) && Leg(inp, yes).Entry? ==>
            (Leg(worse, yes).price <= Leg(inp, yes).price <==> !Jumps(worse, inp, yes)))
  {
    hide PlaceBid, HalfSpread, Utilization, EntrySize, YesBid, NoBid, PlainBook, Jumps, Target;
    var worse := Stressed(inp, toxicity);
    SpreadWidens(inp, toxicity);
    SameUtilization(inp, toxicity);
    BidsInBand(inp);
    BidsInBand(worse);
    if PlainBook(LegView(inp, yes), inp.meta.grid) {
      StressedTargets(inp, toxicity, yes);
      BidsFollowTargets(worse, inp, yes);
    }
  }

  /** STRESS, money: what a bid costs is bounded by the base size times a scale that toxicity only lowers. */
  lemma ToxicityLowersNotional(inp: Inputs, toxicity: real, yes: bool)
    requires inp.Valid() && toxicity >= inp.toxicity && inp.profile.baseSizeUsdc >= 0.0
    ensures var worse := Stressed(inp, toxicity);
      var e := Leg(worse, yes);
      && 0.0 <= LegScale(worse, yes) <= LegScale(inp, yes) <= 1.0
      && (e.Entry? ==> e.price * e.total <= inp.profile.baseSizeUsdc * LegScale(worse, yes) + e.price * 0.005)
  {
    hide Leg, SizeShares, EntryScale, Utilization, Grid.Round, Grid.Valid;
    var worse, u := Stressed(inp, toxicity), Utilization(inp);
    SameUtilization(inp, toxicity);
    UtilizationInUnit(inp);
    ScaleShrinks(inp, toxicity, if yes then u else -u);
    LegIs(worse, yes);
    TickPositive(inp);
    if Leg(worse, yes).Entry? {
      SharesCost(inp.profile.baseSizeUsdc, Leg(worse, yes).price, LegScale(worse, yes), inp.meta.grid.tick);
    }
  }

  /** STRESS, shares: the count can grow, because the price falls. Before rounding it grows exactly if the price falls
      faster than the scale; rounded to hundredths it does not grow otherwise, and does grow once it is more than a
      hundredth larger. */
  lemma ToxicityGrowsShares(inp: Inputs, toxicity: real, yes: bool)
    requires inp.Valid() && toxicity >= inp.toxicity && inp.profile.baseSizeUsdc > 0.0
    requires Leg(inp, yes).Entry? && Leg(Stressed(inp, toxicity), yes).Entry?
    ensures var worse := Stressed(inp, toxicity);
      var e, e' := Leg(inp, yes), Leg(worse, yes);
      var raw, raw' := LegShares(inp, yes, e.price), LegShares(worse, yes, e'.price);
      && (raw' > raw <==> LegScale(worse, yes) * e.price > LegScale(inp, yes) * e'.price)
      && (raw' <= raw ==> e'.total <= e.total)
      && (raw' > raw + 0.01 ==> e'.total > e.total)
  {
    hide Leg, LegScale, SizeShares, RawShares, Grid.Round, Grid.Valid;
    var worse, base, tick := Stressed(inp, toxicity), inp.profile.baseSizeUsdc, inp.meta.grid.tick;
    LegIs(inp, yes);
    LegIs(worse, yes);
    TickPositive(inp);
    RawSharesGrow(base, Leg(inp, yes).price, LegScale(inp, yes), Leg(worse, yes).price, LegScale(worse, yes), tick);
    CountsKeepOrder(base, Leg(inp, yes).price, LegScale(inp, yes), Leg(worse, yes).price, LegScale(worse, yes), tick);
  }

  lemma TickPositive(inp: Inputs)
    requires inp.Valid()
    ensures inp.meta.grid.tick > 0.0
  {
  }

  // ── Money resting on one token ───────────────────────────────────────

  function CostOf(quotes: seq<Quote>): real {
    if quotes == [] then 0.0
    else
      var n := |quotes| - 1;
      CostOf(quotes[..n]) + Times(quotes[n].price, quotes[n].size)
  }

  lemma {:induction false} CostBelow(quotes: seq<Quote>, top: real)
    requires top >= 0.0 && forall q :: q in quotes ==> q.price <= top && q.size >= 0.0
    ensures CostOf(quotes) <= Times(top, S.QuotedSize(quotes))
  {
    hide Times;
    if quotes == [] {
      TimesMonotone(top, 0.0, 0.0);
      assert Times(top, 0.0) == 0.0 by { Nothing(top); }
    } else {
      var n := |quotes| - 1;
      assert quotes[n] in quotes && forall q :: q in quotes[..n] ==> q in quotes;
      CostBelow(quotes[..n], top);
      TimesLeft(quotes[n].price, top, quotes[n].size);
      TimesAdds(top, S.QuotedSize(quotes[..n]), quotes[n].size);
    }
  }

  lemma Nothing(a: real)
    ensures Times(a, 0.0) == 0.0
  {
  }

  /** The reward bump applies. */
  predicate IsBumped(inp: Inputs, total: real) {
    var layers := if inp.profile.layers >= 1 then inp.profile.layers else 1;
    var floor := Max(RewardFloor(inp), inp.meta.minOrderSize);
    var per := PerLayer(total, Consolidate(total, layers, floor));
    Bumped(per, floor) != per
  }

  function LayerCount(inp: Inputs): nat { if inp.profile.layers >= 1 then inp.profile.layers else 1 }

  lemma EntriesSize(inp: Inputs, token: string, e: Entry)
    requires inp.Valid() && e.Entry? && e.total > 0.0
    ensures var size := S.QuotedSize(Entries(inp, token, e));
      && size <= 2.0 * e.total + 0.01 * LayerCount(inp) as real
      && (!IsBumped(inp, e.total) ==> size <= e.total + 0.005 * LayerCount(inp) as real)
  {
    hide Layers, RewardFloor, S.QuotedSize, PerLayer, Bumped, Consolidate;
    var m, p := inp.meta, inp.profile;
    S.LayersSize(token, BUY, e.price, m.grid, e.total, p.layers, p.layerStepTicks, true, m.minOrderSize, RewardFloor(inp));
    if !IsBumped(inp, e.total) {
      S.UnbumpedSize(token, BUY, e.price, m.grid, e.total, p.layers, p.layerStepTicks, true, m.minOrderSize, RewardFloor(inp));
    }
  }

  /** MONEY: the orders emitted for one token cost at most the scaled base size, unless the reward bump applies, and then
      at most twice that; up to a hundredth of a share per layer and one for rounding. */
  lemma EntriesCost(inp: Inputs, token: string, yes: bool)
    requires inp.Valid() && inp.profile.baseSizeUsdc >= 0.0
    requires S.Descends(inp.profile.layers, inp.profile.layerStepTicks) && Leg(inp, yes).Entry?
    ensures var e := Leg(inp, yes);
      var money := inp.profile.baseSizeUsdc * LegScale(inp, yes);
      var cost := CostOf(Entries(inp, token, e));
      && cost <= 2.0 * money + e.price * (0.01 * (LayerCount(inp) + 1) as real)
      && (!IsBumped(inp, e.total) ==> cost <= money + e.price * (0.005 * (LayerCount(inp) + 1) as real))
  {
    hide Leg, LegScale, Entries, SizeShares, CostOf, Grid.Round, Grid.Valid, S.QuotedSize, IsBumped;
    var e, base := Leg(inp, yes), inp.profile.baseSizeUsdc;
    LegIs(inp, yes);
    TickPositive(inp);
    S.EntriesBelowBid(inp, token, e);
    CostBelow(Entries(inp, token, e), e.price);
    ToxicityLowersNotional(inp, inp.toxicity, yes);
    if e.total <= 0.0 {
      NothingEmitted(inp, token, e);
      MulNonNegative(base, LegScale(inp, yes));
      MulNonNegative(e.price, 0.01 * (LayerCount(inp) + 1) as real);
    } else {
      EntriesSize(inp, token, e);
      var size, n := S.QuotedSize(Entries(inp, token, e)), LayerCount(inp) as real;
      CostOfSize(e.price, e.total, size, base * LegScale(inp, yes), n, 2.0);
      if !IsBumped(inp, e.total) {
        CostOfSize(e.price, e.total, size, base * LegScale(inp, yes), n, 1.0);
      }
    }
  }

  lemma NothingEmitted(inp: Inputs, token: string, e: Entry)
    requires inp.Valid() && e.Entry? && e.total <= 0.0
    ensures CostOf(Entries(inp, token, e)) == 0.0
  {
  }

  lemma CostOfSize(price: real, total: real, size: real, money: real, n: real, k: real)
    requires price > 0.0 && price * total <= money + price * 0.005 && k > 0.0 && size <= k * total + 0.005 * k * n
    ensures Times(price, size) <= k * money + price * (0.005 * k * (n + 1.0))
  {
    TimesMonotone(price, size, k * total + 0.005 * k * n);
    assert price * (k * total) == k * (price * total);
    ScaledMonotone(k, price * total, money + price * 0.005);
    assert k * (price * 0.005) == price * (0.005 * k);
    assert price * (0.005 * k * n) + price * (0.005 * k) == price * (0.005 * k * (n + 1.0));
  }
}
