/** What every quote set of the two-sided maker guarantees. */
module MakerSafety {
  import opened Numerics
  import opened Domain
  import opened Dict
  import opened Ticks
  import opened Quoting

  /** Layers step down, or there is only one. */
  predicate Descends(layers: int, stepTicks: int) { stepTicks >= 0 || layers <= 1 }

  // ── Layers ───────────────────────────────────────────────────────────

  lemma OffsetNonNegative(i: nat, stepTicks: int, tick: real)
    requires (stepTicks >= 0 || i == 0) && tick > 0.0
    ensures Offset(i, stepTicks, tick) >= 0.0
  {
    if i > 0 {
      MulNonNegative(i as real, stepTicks as real);
      MulNonNegative(i as real * stepTicks as real, tick);
    }
  }

  lemma LayerPriceBelow(top: real, g: Grid, stepTicks: int, i: nat)
    requires g.Valid() && g.Round(top) == top && (stepTicks >= 0 || i == 0)
    ensures LayerPrice(top, g, stepTicks, true, i) <= top
  {
    hide Grid.Round;
    OffsetNonNegative(i, stepTicks, g.tick);
    LayerBelow(top, Offset(i, stepTicks, g.tick), g);
  }

  /** Every order of a ladder is on its token and side, whichever way it steps. */
  lemma {:induction false} LadderNames(token: string, side: Side, top: real, g: Grid, stepTicks: int, down: bool, per: real, layers: nat)
    requires g.Valid()
    ensures forall q :: q in Ladder(token, side, top, g, stepTicks, down, per, layers) ==> q.side == side && q.tokenId == token
  {
    hide LayerPrice;
    if layers > 0 {
      LadderNames(token, side, top, g, stepTicks, down, per, layers - 1);
    }
  }

  /** Every order of a ladder stepping down is on its token and side, of its size, and at or below the top. */
  lemma {:induction false} LadderMembers(token: string, side: Side, top: real, g: Grid, stepTicks: int, per: real, layers: nat)
    requires g.Valid() && g.Round(top) == top && Descends(layers, stepTicks)
    ensures forall q :: q in Ladder(token, side, top, g, stepTicks, true, per, layers) ==>
              q.tokenId == token && q.side == side && q.size == per && 0.0 < q.price < 1.0 && q.price <= top
  {
    hide LayerPrice;
    if layers > 0 {
      LadderMembers(token, side, top, g, stepTicks, per, layers - 1);
      LayerPriceBelow(top, g, stepTicks, layers - 1);
    }
  }

  lemma LayersMembers(token: string, side: Side, top: real, g: Grid, total: real, layers: int, stepTicks: int,
                      exchangeMin: real, rewardFloor: real)
    requires g.Valid() && g.Round(top) == top && Descends(layers, stepTicks)
    ensures forall q :: q in Layers(token, side, top, g, total, layers, stepTicks, true, exchangeMin, rewardFloor) ==>
              && q.tokenId == token && q.side == side && q.size >= exchangeMin && q.size > 0.0
              && 0.0 < q.price < 1.0 && q.price <= top
  {
    hide PerLayer, Ladder, Consolidate;
    if total > 0.0 {
      var floor := Max(rewardFloor, exchangeMin);
      var n := Consolidate(total, if layers >= 1 then layers else 1, floor);
      LadderMembers(token, side, top, g, stepTicks, Bumped(PerLayer(total, n), floor), n);
    }
  }

  /** CONSOLIDATION: the layer count chosen is the largest, up to the one asked for, whose orders reach half the
      floor; if none does it is one. */
  lemma {:induction false} ConsolidateIsLargest(total: real, layers: int, floor: real)
    requires layers >= 1
    ensures var l := Consolidate(total, layers, floor);
      && (l == 1 || !TooThin(total, l, floor))
      && forall k :: l < k <= layers ==> TooThin(total, k, floor)
  {
    if layers > 1 && TooThin(total, layers, floor) {
      ConsolidateIsLargest(total, layers - 1, floor);
    }
  }

  function QuotedSize(quotes: seq<Quote>): real {
    if quotes == [] then 0.0 else QuotedSize(quotes[..|quotes| - 1]) + quotes[|quotes| - 1].size
  }

  lemma QuotedSizeOfAppend(rest: seq<Quote>, q: Quote)
    ensures QuotedSize(rest + [q]) == QuotedSize(rest) + q.size
  {
    assert (rest + [q])[..|rest|] == rest;
  }

  lemma {:induction false} LadderSize(token: string, side: Side, top: real, g: Grid, stepTicks: int, down: bool, per: real, layers: nat)
    requires g.Valid() && per >= 0.0
    ensures QuotedSize(Ladder(token, side, top, g, stepTicks, down, per, layers)) <= Copies(layers, per)
  {
    hide LayerPrice, Copies, QuotedSize;
    if layers == 0 {
      assert Copies(0, per) == 0.0 by { NoCopies(per); }
      assert QuotedSize([]) == 0.0 by { NothingQuoted(); }
    } else {
      var rest := Ladder(token, side, top, g, stepTicks, down, per, layers - 1);
      var price := LayerPrice(top, g, stepTicks, down, layers - 1);
      LadderSize(token, side, top, g, stepTicks, down, per, layers - 1);
      OneMore(layers - 1, per);
      QuotedSizeOfAppend(rest, Quote(token, side, price, per));
      assert rest + [] == rest;
    }
  }

  lemma NothingQuoted()
    ensures QuotedSize([]) == 0.0
  {
  }

  /** A share of the total, rounded to hundredths. */
  lemma ShareSize(total: real, n: int)
    requires n >= 1 && total > 0.0
    ensures Copies(n, PerLayer(total, n)) <= total + 0.005 * n as real
  {
    var share := total / n as real;
    RoundNear(share, 0.01);
    MulDiv(total, n as real);
    assert share * n as real == total;
    MulMono(PerLayer(total, n), share + 0.005, n as real);
    assert (share + 0.005) * n as real == total + 0.005 * n as real;
  }

  /** LAYER SPLITTING: the bump never more than doubles what is emitted, up to a hundredth per layer. */
  lemma LayersSize(token: string, side: Side, top: real, g: Grid, total: real, layers: int, stepTicks: int, down: bool,
                   exchangeMin: real, rewardFloor: real)
    requires g.Valid()
    ensures var n := if layers >= 1 then layers else 1;
      QuotedSize(Layers(token, side, top, g, total, layers, stepTicks, down, exchangeMin, rewardFloor)) <=
      if total <= 0.0 then 0.0 else 2.0 * total + 0.01 * n as real
  {
    hide PerLayer, Bumped, Ladder, Consolidate, QuotedSize;
    NothingQuoted();
    if total > 0.0 {
      var want := if layers >= 1 then layers else 1;
      var floor := Max(rewardFloor, exchangeMin);
      var n := Consolidate(total, want, floor);
      var share := PerLayer(total, n);
      var per := Bumped(share, floor);
      ShareSize(total, n);
      if per > 0.0 {
        LadderSize(token, side, top, g, stepTicks, down, per, n);
        BumpDoubles(share, per, floor, n, total);
      }
    }
  }

  /** Without the bump nothing is added but rounding. */
  lemma UnbumpedSize(token: string, side: Side, top: real, g: Grid, total: real, layers: int, stepTicks: int, down: bool,
                     exchangeMin: real, rewardFloor: real)
    requires g.Valid() && total > 0.0
    requires var floor := Max(rewardFloor, exchangeMin);
      var per := PerLayer(total, Consolidate(total, if layers >= 1 then layers else 1, floor));
      Bumped(per, floor) == per
    ensures var n := if layers >= 1 then layers else 1;
      QuotedSize(Layers(token, side, top, g, total, layers, stepTicks, down, exchangeMin, rewardFloor)) <= total + 0.005 * n as real
  {
    hide PerLayer, Bumped, Ladder, Consolidate, QuotedSize, Copies;
    NothingQuoted();
    var floor := Max(rewardFloor, exchangeMin);
    var n := Consolidate(total, if layers >= 1 then layers else 1, floor);
    var share := PerLayer(total, n);
    ShareSize(total, n);
    if share > 0.0 {
      LadderSize(token, side, top, g, stepTicks, down, share, n);
    }
  }

  lemma BumpDoubles(share: real, per: real, floor: real, n: int, total: real)
    requires n >= 1 && total > 0.0 && per > 0.0 && per == Bumped(share, floor)
    requires Copies(n, share) <= total + 0.005 * n as real
    ensures Copies(n, per) <= 2.0 * total + 0.01 * n as real
  {
    if per == share {
      assert n as real > 0.0;
    } else {
      assert per <= 2.0 * share;
      MulMono(per, 2.0 * share, n as real);
      assert n as real * per == per * n as real && (2.0 * share) * n as real == 2.0 * (n as real * share);
    }
  }

  // ── Bids ─────────────────────────────────────────────────────────────

  /** A bid is a printable price at least the minimum edge below fair value (up to the guard), unless the clamp
      lifts it to one tick. */
  ghost predicate Capped(bid: Option<real>, g: Grid, fv: real, minEdgeTicks: int)
    requires g.Valid()
  {
    && bid.Some? && g.Round(bid.value) == bid.value
    && g.tick <= bid.value <= Max(EdgeCap(fv, minEdgeTicks, g.tick) + EPS * g.tick, g.tick)
  }

  lemma BidCap(target: real, view: View, g: Grid, fv: real, minEdgeTicks: int)
    requires g.Valid()
    ensures Capped(PlaceBid(target, view, g, fv, minEdgeTicks), g, fv, minEdgeTicks)
  {
    hide RoundToTick, Grid.Round, EdgeCap;
    RoundDown(BidBeforeRounding(target, view, g.tick, fv, minEdgeTicks), g);
  }

  lemma BidsCapped(inp: Inputs)
    requires inp.Valid()
    ensures Capped(YesBid(inp), inp.meta.grid, inp.fv, inp.profile.minEdgeTicks)
    ensures Capped(NoBid(inp), inp.meta.grid, 1.0 - inp.fv, inp.profile.minEdgeTicks)
  {
    hide PlaceBid, Capped, HalfSpread, Reservation;
    var m, p := inp.meta, inp.profile;
    BidCap(Reservation(inp) - HalfSpread(inp), inp.yesView, m.grid, inp.fv, p.minEdgeTicks);
    BidCap((1.0 - Reservation(inp)) - HalfSpread(inp), inp.noView, m.grid, 1.0 - inp.fv, p.minEdgeTicks);
  }

  /** The entries of a token buy that token, and there are none without an entry. */
  lemma EntriesBuy(inp: Inputs, token: string, e: Entry)
    requires inp.Valid()
    ensures e.NoEntry? ==> Entries(inp, token, e) == []
    ensures forall q :: q in Entries(inp, token, e) ==> q.side == BUY && q.tokenId == token
  {
    hide Ladder, RewardFloor, Consolidate, PerLayer;
    if e.Entry? && e.total > 0.0 {
      var m, p := inp.meta, inp.profile;
      var floor := Max(RewardFloor(inp), m.minOrderSize);
      var n := Consolidate(e.total, if p.layers >= 1 then p.layers else 1, floor);
      LadderNames(token, BUY, e.price, m.grid, p.layerStepTicks, true, Bumped(PerLayer(e.total, n), floor), n);
    }
  }

  lemma EntriesBelowBid(inp: Inputs, token: string, e: Entry)
    requires inp.Valid() && Descends(inp.profile.layers, inp.profile.layerStepTicks)
    requires e.Entry? ==> inp.meta.grid.Round(e.price) == e.price
    ensures forall q :: q in Entries(inp, token, e) ==>
              && e.Entry? && q.tokenId == token && q.side == BUY && 0.0 < q.price <= e.price
              && q.size >= inp.meta.minOrderSize && q.size > 0.0
  {
    hide Layers, Grid.Round, RewardFloor;
    if e.Entry? {
      LayersMembers(token, BUY, e.price, inp.meta.grid, e.total, inp.profile.layers, inp.profile.layerStepTicks,
                    inp.meta.minOrderSize, RewardFloor(inp));
    }
  }

  lemma EntryBids(inp: Inputs, token: string, bid: Option<real>, u: real, fv: real, q: Quote)
    requires inp.Valid() && Descends(inp.profile.layers, inp.profile.layerStepTicks)
    requires Capped(bid, inp.meta.grid, fv, inp.profile.minEdgeTicks)
    requires q in Entries(inp, token, EntryAt(inp, bid, u))
    ensures q.side == BUY && q.tokenId == token && 0.0 < q.price <= bid.value
  {
    hide Entries, Grid.Round, EntrySize, EdgeCap;
    EntriesBelowBid(inp, token, EntryAt(inp, bid, u));
  }

  // ── Exits ────────────────────────────────────────────────────────────

  lemma FloorSharesBelow(size: real)
    ensures FloorShares(size) <= size < FloorShares(size) + 0.01
  {
    var n := (size * 100.0).Floor;
    assert n as real <= size * 100.0 < n as real + 1.0;
  }

  lemma NextTick(b: real, tick: real)
    requires tick > 0.0 && OnGrid(b, tick)
    ensures OnGrid(b + tick, tick)
  {
    var n := (b / tick).Floor;
    assert (n + 1) as real == n as real + 1.0;
    MultipleOnGrid(b + tick, n + 1, tick);
  }

  lemma MultipleOnGrid(p: real, n: int, tick: real)
    requires tick > 0.0 && p == n as real * tick
    ensures OnGrid(p, tick)
  {
    MulDiv(n as real, tick);
  }

  /** A book the exchange can show: touches on the tick grid, uncrossed, a tick of room on either side. */
  ghost predicate OnGridView(view: View, g: Grid)
    requires g.Valid()
  {
    && (view.bestBid.Some? ==> OnGrid(view.bestBid.value, g.tick) && g.tick <= view.bestBid.value <= 1.0 - 2.0 * g.tick)
    && (view.bestAsk.Some? ==> OnGrid(view.bestAsk.value, g.tick) && 2.0 * g.tick <= view.bestAsk.value <= 1.0 - g.tick)
    && (view.bestBid.Some? && view.bestAsk.Some? ==> view.bestBid.value < view.bestAsk.value)
  }

  lemma AskAboveBid(fv: real, delta: real, view: View, tick: real, urgency: real, regime: Regime)
    requires view.bestBid.Some?
    ensures AskBeforeRounding(fv, delta, view, tick, urgency, regime) >= view.bestBid.value + tick
  {
  }

  /** MAKER-ONLY SELLS: every exit rests at least one tick above the best bid, for no more than is held. */
  lemma ExitIsPassive(token: string, pos: Position, fv: real, delta: real, view: View, g: Grid, urgency: real,
                      minOrderSize: real, regime: Regime, q: Quote)
    requires g.Valid() && q in Exit(token, pos, fv, delta, view, g, urgency, minOrderSize, regime)
    ensures q.side == SELL && q.tokenId == token && minOrderSize <= q.size <= pos.size
    ensures OnGridView(view, g) && view.bestBid.Some? ==> q.price >= view.bestBid.value + g.tick
  {
    hide RoundToTick, AskBeforeRounding, FloorShares, OnGrid;
    FloorSharesBelow(pos.size);
    if OnGridView(view, g) && view.bestBid.Some? {
      AskAboveBid(fv, delta, view, g.tick, urgency, regime);
      NextTick(view.bestBid.value, g.tick);
      RoundUpAbove(AskBeforeRounding(fv, delta, view, g.tick, urgency, regime), view.bestBid.value + g.tick, g);
    }
  }

  // ── Locked edge ──────────────────────────────────────────────────────

  /** Where a maker quote comes from: a bid layer or an exit, on one of the two tokens. */
  lemma Origin(inp: Inputs, q: Quote)
    requires inp.Valid() && Descends(inp.profile.layers, inp.profile.layerStepTicks) && q in MakerQuotes(inp)
    ensures q.side == BUY ==>
              || (q.tokenId == inp.meta.yes && 0.0 < q.price <= YesBid(inp).value)
              || (q.tokenId == inp.meta.no && 0.0 < q.price <= NoBid(inp).value)
    ensures q.side == SELL ==> q in YesExit(inp) || q in NoExit(inp)
    ensures YesBid(inp).Some? && NoBid(inp).Some?
  {
    hide Entries, EntryAt, Exit, YesBid, NoBid, Utilization, HalfSpread, EdgeCap, Grid.Round;
    var m, u := inp.meta, Utilization(inp);
    BidsCapped(inp);
    if q in Entries(inp, m.yes, EntryAt(inp, YesBid(inp), u)) {
      EntryBids(inp, m.yes, YesBid(inp), u, inp.fv, q);
    } else if q in Entries(inp, m.no, EntryAt(inp, NoBid(inp), -u)) {
      EntryBids(inp, m.no, NoBid(inp), -u, 1.0 - inp.fv, q);
    } else {
      ExitsSell(inp, q);
    }
  }

  lemma ExitsSell(inp: Inputs, q: Quote)
    requires inp.Valid() && (q in YesExit(inp) || q in NoExit(inp))
    ensures q.side == SELL
  {
    hide RoundToTick, AskBeforeRounding, FloorShares, HalfSpread;
  }

  lemma EdgeIsATick(fv: real, minEdgeTicks: int, tick: real)
    requires minEdgeTicks >= 1 && tick > 0.0
    ensures EdgeCap(fv, minEdgeTicks, tick) <= fv - tick
  {
    MulMono(1.0, minEdgeTicks as real, tick);
  }

  /** Two caps a tick below complementary fair values leave room below one. */
  lemma CapsBelowOne(fv: real, tick: real, a: real, b: real, capA: real, capB: real)
    requires 0.0 < tick && 2.0 * tick < 1.0 && tick <= fv <= 1.0 - tick
    requires capA <= fv - tick && capB <= 1.0 - fv - tick
    requires a <= Max(capA + EPS * tick, tick) && b <= Max(capB + EPS * tick, tick)
    ensures a + b < 1.0
  {
    assert EPS * tick < tick;
  }

  /** LOCKED EDGE: every BUY of YES and every BUY of NO in one quote set cost less than one together, also when
      rounding clamps a leg up to one tick. */
  lemma LockedEdge(inp: Inputs, q: Quote, r: Quote)
    requires inp.Valid() && Descends(inp.profile.layers, inp.profile.layerStepTicks) && inp.profile.minEdgeTicks >= 1
    requires inp.meta.grid.tick <= inp.fv <= 1.0 - inp.meta.grid.tick
    requires q in MakerQuotes(inp) && q.side == BUY && q.tokenId == inp.meta.yes
    requires r in MakerQuotes(inp) && r.side == BUY && r.tokenId == inp.meta.no
    ensures q.price + r.price < 1.0
  {
    hide MakerQuotes, YesBid, NoBid, EdgeCap, Grid.Round;
    var e, tick := inp.profile.minEdgeTicks, inp.meta.grid.tick;
    Origin(inp, q);
    Origin(inp, r);
    BidsCapped(inp);
    EdgeIsATick(inp.fv, e, tick);
    EdgeIsATick(1.0 - inp.fv, e, tick);
    CapsBelowOne(inp.fv, tick, YesBid(inp).value, NoBid(inp).value, EdgeCap(inp.fv, e, tick), EdgeCap(1.0 - inp.fv, e, tick));
  }

  // ── Locked edge without a minimum edge ───────────────────────────────

  /** Rounding down reaches the highest price there is. */
  predicate Tops(x: real, g: Grid)
    requires g.Valid()
  {
    Snap(x, g.tick, false) >= 1.0 - g.tick
  }

  /** On a grid that divides one, that takes a price within the guard of it. */
  lemma TopsWithinGuard(x: real, g: Grid)
    requires g.Valid() && OnGrid(1.0 - g.tick, g.tick)
    ensures Tops(x, g) <==> x >= 1.0 - g.tick - EPS * g.tick
  {
    hide Snap;
    if x <= 1.0 - g.tick {
      FloorTickBelow(x, 1.0 - g.tick, g.tick);
    } else {
      FloorTickBelow(1.0 - g.tick, 1.0 - g.tick, g.tick);
      SnapMonotone(1.0 - g.tick, x, g.tick);
    }
  }

  /** A bid against its target alone. */
  lemma BidFromTarget(target: real, view: View, g: Grid, fv: real, minEdgeTicks: int)
    requires g.Valid()
    ensures var bid := PlaceBid(target, view, g, fv, minEdgeTicks);
      && bid.Some? && g.tick <= bid.value <= 1.0 - g.tick
      && bid.value <= Max(target + EPS * g.tick, g.tick)
      && (bid.value == 1.0 - g.tick <==> Tops(BidBeforeRounding(target, view, g.tick, fv, minEdgeTicks), g))
  {
    hide RoundToTick, Grid.Round, EdgeCap, Snap;
    RoundDown(BidBeforeRounding(target, view, g.tick, fv, minEdgeTicks), g);
    RoundToTickClamps(BidBeforeRounding(target, view, g.tick, fv, minEdgeTicks), g, false);
  }

  /** The prices the two legs are rounded from. */
  function YesRaw(inp: Inputs): real
    requires inp.Valid()
  {
    BidBeforeRounding(Reservation(inp) - HalfSpread(inp), inp.yesView, inp.meta.grid.tick, inp.fv, inp.profile.minEdgeTicks)
  }

  function NoRaw(inp: Inputs): real
    requires inp.Valid()
  {
    BidBeforeRounding((1.0 - Reservation(inp)) - HalfSpread(inp), inp.noView, inp.meta.grid.tick, 1.0 - inp.fv,
                      inp.profile.minEdgeTicks)
  }

  /** Targets two ticks or more short of one together. */
  lemma PairOfBids(tick: real, s: real, t: real, a: real, b: real)
    requires 0.0 < tick && 2.0 * tick < 1.0 && s + t <= 1.0 - 2.0 * tick
    requires tick <= a <= 1.0 - tick && a <= Max(s + EPS * tick, tick)
    requires tick <= b <= 1.0 - tick && b <= Max(t + EPS * tick, tick)
    ensures a + b <= 1.0
    ensures a + b == 1.0 <==> a == 1.0 - tick || b == 1.0 - tick
    ensures a == 1.0 - tick ==> b == tick
    ensures b == 1.0 - tick ==> a == tick
  {
    assert EPS * tick < 0.5 * tick;
  }

  lemma SpreadIsATick(inp: Inputs)
    requires inp.Valid()
    ensures HalfSpread(inp) >= inp.meta.grid.tick
  {
    hide RawSpread, BaseSpread, RewardBand, Clamp;
  }

  /** THE PAIR NEVER EXCEEDS ONE: whatever the edge, the fair value and the books, the two bids cost at most one
      together; they cost one exactly when one leg bids the highest price there is, and then the other bids a tick. */
  lemma BidsAtMostOne(inp: Inputs)
    requires inp.Valid()
    ensures YesBid(inp).Some? && NoBid(inp).Some?
    ensures YesBid(inp).value + NoBid(inp).value <= 1.0
    ensures YesBid(inp).value + NoBid(inp).value == 1.0 <==> Tops(YesRaw(inp), inp.meta.grid) || Tops(NoRaw(inp), inp.meta.grid)
    ensures Tops(YesRaw(inp), inp.meta.grid) ==> YesBid(inp).value == 1.0 - inp.meta.grid.tick && NoBid(inp).value == inp.meta.grid.tick
    ensures Tops(NoRaw(inp), inp.meta.grid) ==> NoBid(inp).value == 1.0 - inp.meta.grid.tick && YesBid(inp).value == inp.meta.grid.tick
  {
    hide PlaceBid, BidBeforeRounding, Reservation, HalfSpread, Tops;
    var m, p := inp.meta, inp.profile;
    var r, d := Reservation(inp), HalfSpread(inp);
    BidFromTarget(r - d, inp.yesView, m.grid, inp.fv, p.minEdgeTicks);
    BidFromTarget((1.0 - r) - d, inp.noView, m.grid, 1.0 - inp.fv, p.minEdgeTicks);
    SpreadIsATick(inp);
    PairOfBids(m.grid.tick, r - d, (1.0 - r) - d, YesBid(inp).value, NoBid(inp).value);
  }

  /** The first layer of a non-empty ladder is the bid itself. */
  lemma {:induction false} LadderLeads(token: string, side: Side, top: real, g: Grid, stepTicks: int, down: bool, per: real, layers: nat)
    requires g.Valid() && g.Round(top) == top && 0.0 < top < 1.0 && layers > 0
    ensures Quote(token, side, top, per) in Ladder(token, side, top, g, stepTicks, down, per, layers)
  {
    hide Grid.Round;
    if layers == 1 {
      assert Ladder(token, side, top, g, stepTicks, down, per, 0) == [];
      assert LayerPrice(top, g, stepTicks, down, 0) == top;
    } else {
      LadderLeads(token, side, top, g, stepTicks, down, per, layers - 1);
    }
  }

  lemma EntriesLead(inp: Inputs, token: string, e: Entry)
    requires inp.Valid() && Entries(inp, token, e) != [] && (e.Entry? ==> inp.meta.grid.Round(e.price) == e.price && 0.0 < e.price < 1.0)
    ensures e.Entry? && exists q :: q in Entries(inp, token, e) && q.price == e.price && q.side == BUY && q.tokenId == token
  {
    hide Ladder, Consolidate, PerLayer, Bumped, Grid.Round, RewardFloor;
    var m, p := inp.meta, inp.profile;
    var floor := Max(RewardFloor(inp), m.minOrderSize);
    var n := Consolidate(e.total, if p.layers >= 1 then p.layers else 1, floor);
    LadderLeads(token, BUY, e.price, m.grid, p.layerStepTicks, true, Bumped(PerLayer(e.total, n), floor), n);
  }

  lemma BidQuoted(inp: Inputs, token: string)
    requires inp.Valid() && Descends(inp.profile.layers, inp.profile.layerStepTicks) && token in {inp.meta.yes, inp.meta.no}
    requires exists q :: q in MakerQuotes(inp) && q.side == BUY && q.tokenId == token
    ensures var bid := if token == inp.meta.yes then YesBid(inp) else NoBid(inp);
      bid.Some? && exists q :: q in MakerQuotes(inp) && q.side == BUY && q.tokenId == token && q.price == bid.value
  {
    hide Entries, EntrySize, Exit, YesBid, NoBid, Utilization, HalfSpread, EdgeCap, Grid.Round;
    var m, u := inp.meta, Utilization(inp);
    BidsCapped(inp);
    BidsAtMostOne(inp);
    var yes, no := EntryAt(inp, YesBid(inp), u), EntryAt(inp, NoBid(inp), -u);
    var q :| q in MakerQuotes(inp) && q.side == BUY && q.tokenId == token;
    BidsInside(inp);
    if q in Entries(inp, m.yes, yes) {
      EntryBids(inp, m.yes, YesBid(inp), u, inp.fv, q);
      EntriesLead(inp, m.yes, yes);
    } else if q in Entries(inp, m.no, no) {
      EntryBids(inp, m.no, NoBid(inp), -u, 1.0 - inp.fv, q);
      EntriesLead(inp, m.no, no);
    } else {
      ExitsSell(inp, q);
    }
  }

  lemma BidsInside(inp: Inputs)
    requires inp.Valid()
    ensures YesBid(inp).Some? && 0.0 < YesBid(inp).value < 1.0 && NoBid(inp).Some? && 0.0 < NoBid(inp).value < 1.0
  {
    hide RoundToTick;
    BidsAtMostOne(inp);
  }

  /** LOCKED EDGE, exactly: no pair of BUYs in a quote set ever costs more than one. Where both tokens are bid for, some
      pair costs exactly one if and only if a leg is rounded to the highest price there is. */
  lemma PairsAtMostOne(inp: Inputs, q: Quote, r: Quote)
    requires inp.Valid() && Descends(inp.profile.layers, inp.profile.layerStepTicks)
    requires q in MakerQuotes(inp) && q.side == BUY && q.tokenId == inp.meta.yes
    requires r in MakerQuotes(inp) && r.side == BUY && r.tokenId == inp.meta.no
    ensures q.price + r.price <= 1.0
    ensures (exists a, b :: a in MakerQuotes(inp) && b in MakerQuotes(inp) && Paired(inp, a, b) && a.price + b.price == 1.0)
            <==> Tops(YesRaw(inp), inp.meta.grid) || Tops(NoRaw(inp), inp.meta.grid)
  {
    hide MakerQuotes, YesBid, NoBid, Tops, YesRaw, NoRaw;
    Origin(inp, q);
    Origin(inp, r);
    BidsAtMostOne(inp);
    BidQuoted(inp, inp.meta.yes);
    BidQuoted(inp, inp.meta.no);
    var a :| a in MakerQuotes(inp) && a.side == BUY && a.tokenId == inp.meta.yes && a.price == YesBid(inp).value;
    var b :| b in MakerQuotes(inp) && b.side == BUY && b.tokenId == inp.meta.no && b.price == NoBid(inp).value;
    assert Paired(inp, a, b);
    forall x, y | x in MakerQuotes(inp) && y in MakerQuotes(inp) && Paired(inp, x, y) && x.price + y.price == 1.0
      ensures YesBid(inp).value + NoBid(inp).value == 1.0
    {
      Origin(inp, x);
      Origin(inp, y);
    }
  }

  predicate Paired(inp: Inputs, a: Quote, b: Quote) {
    a.side == BUY && a.tokenId == inp.meta.yes && b.side == BUY && b.tokenId == inp.meta.no
  }

  // ── Maker-only ───────────────────────────────────────────────────────

  /** A bid that keeps to the touch and to its edge. */
  ghost predicate Passive(bid: real, view: View, g: Grid, cap: real) {
    && bid <= cap + EPS * g.tick
    && (view.bestBid.Some? ==> bid <= view.bestBid.value)
    && (view.bestAsk.Some? ==> bid <= view.bestAsk.value && (view.bestBid.Some? ==> bid < view.bestAsk.value))
  }

  /** MAKER-ONLY BUYS: a bid joins or sits behind the best bid and keeps its edge, whenever fair value leaves room
      for it. Below the ask it stays strictly, unless there is no bid to join: then it meets the ask exactly when
      the capped target lies within the guard of it. */
  lemma BidIsPassive(target: real, view: View, g: Grid, fv: real, minEdgeTicks: int)
    requires g.Valid() && OnGridView(view, g)
    requires EdgeCap(fv, minEdgeTicks, g.tick) >= g.tick
    ensures var bid := PlaceBid(target, view, g, fv, minEdgeTicks);
      var capped := Min(target, EdgeCap(fv, minEdgeTicks, g.tick));
      && bid.Some?
      && Passive(bid.value, view, g, EdgeCap(fv, minEdgeTicks, g.tick))
      && (view.bestAsk.Some? ==>
            (bid.value == view.bestAsk.value <==>
                  view.bestBid.None? && view.bestAsk.value - EPS * g.tick <= capped < view.bestAsk.value))
  {
    hide RoundToTick, Grid.Round, EdgeCap, OnGrid;
    var x := BidBeforeRounding(target, view, g.tick, fv, minEdgeTicks);
    BidCap(target, view, g, fv, minEdgeTicks);
    assert EPS * g.tick < g.tick;
    if view.bestBid.Some? {
      RoundDownBelow(x, view.bestBid.value, g);
    }
    if view.bestAsk.Some? {
      RoundDownBelow(x, view.bestAsk.value, g);
    }
  }

  /** The book, the fair value and the holding a token is quoted with. */
  function ViewOf(inp: Inputs, token: string): View { if token == inp.meta.yes then inp.yesView else inp.noView }

  function FairOf(inp: Inputs, token: string): real { if token == inp.meta.yes then inp.fv else 1.0 - inp.fv }

  function HeldOf(inp: Inputs, token: string): real { if token == inp.meta.yes then inp.posYes.size else inp.posNo.size }

  function CapOf(inp: Inputs, token: string): real {
    EdgeCap(FairOf(inp, token), inp.profile.minEdgeTicks, inp.meta.grid.tick)
  }

  lemma YesBidPassive(inp: Inputs)
    requires inp.Valid() && OnGridView(inp.yesView, inp.meta.grid) && CapOf(inp, inp.meta.yes) >= inp.meta.grid.tick
    ensures YesBid(inp).Some? && Passive(YesBid(inp).value, inp.yesView, inp.meta.grid, CapOf(inp, inp.meta.yes))
  {
    hide PlaceBid, EdgeCap, Passive, OnGridView, HalfSpread, Reservation;
    BidIsPassive(Reservation(inp) - HalfSpread(inp), inp.yesView, inp.meta.grid, inp.fv, inp.profile.minEdgeTicks);
  }

  lemma NoBidPassive(inp: Inputs)
    requires inp.Valid() && OnGridView(inp.noView, inp.meta.grid) && CapOf(inp, inp.meta.no) >= inp.meta.grid.tick
    ensures NoBid(inp).Some? && Passive(NoBid(inp).value, inp.noView, inp.meta.grid, CapOf(inp, inp.meta.no))
  {
    hide PlaceBid, EdgeCap, Passive, OnGridView, HalfSpread, Reservation;
    BidIsPassive((1.0 - Reservation(inp)) - HalfSpread(inp), inp.noView, inp.meta.grid, 1.0 - inp.fv,
                 inp.profile.minEdgeTicks);
  }

  /** MAKER-ONLY: whenever a token's fair value leaves room for the edge above one tick, every BUY on it is below its
      best ask (at most at it when no bid is shown), not above its best bid, and at least the minimum edge below fair
      value; every SELL is at least one tick above the best bid and for no more than is held. */
  lemma MakerOnly(inp: Inputs, q: Quote)
    requires inp.Valid() && Descends(inp.profile.layers, inp.profile.layerStepTicks) && q in MakerQuotes(inp)
    requires OnGridView(ViewOf(inp, q.tokenId), inp.meta.grid)
    ensures q.tokenId == inp.meta.yes || q.tokenId == inp.meta.no
    ensures q.side == BUY && CapOf(inp, q.tokenId) >= inp.meta.grid.tick ==>
              Passive(q.price, ViewOf(inp, q.tokenId), inp.meta.grid, CapOf(inp, q.tokenId))
    ensures q.side == SELL ==> q.size <= HeldOf(inp, q.tokenId)
    ensures q.side == SELL && ViewOf(inp, q.tokenId).bestBid.Some? ==>
              q.price >= ViewOf(inp, q.tokenId).bestBid.value + inp.meta.grid.tick
  {
    hide MakerQuotes, YesBid, NoBid, CapOf, OnGridView, Exit, HalfSpread;
    Origin(inp, q);
    if q.side == BUY {
      if CapOf(inp, q.tokenId) >= inp.meta.grid.tick {
        if q.tokenId == inp.meta.yes {
          YesBidPassive(inp);
        } else {
          NoBidPassive(inp);
        }
      }
    } else {
      ExitsPassive(inp, q);
    }
  }

  lemma ExitsPassive(inp: Inputs, q: Quote)
    requires inp.Valid() && (q in YesExit(inp) || q in NoExit(inp))
    ensures q.tokenId == inp.meta.yes || q.tokenId == inp.meta.no
    ensures q.side == SELL && q.size <= HeldOf(inp, q.tokenId)
    ensures OnGridView(ViewOf(inp, q.tokenId), inp.meta.grid) && ViewOf(inp, q.tokenId).bestBid.Some? ==>
              q.price >= ViewOf(inp, q.tokenId).bestBid.value + inp.meta.grid.tick
  {
    hide OnGridView, Exit, HalfSpread;
    var m, delta := inp.meta, HalfSpread(inp);
    if q in YesExit(inp) {
      ExitIsPassive(m.yes, inp.posYes, inp.fv, delta, inp.yesView, m.grid, inp.yesUrgency, m.minOrderSize, inp.regime, q);
    } else {
      ExitIsPassive(m.no, inp.posNo, 1.0 - inp.fv, delta, inp.noView, m.grid, inp.noUrgency, m.minOrderSize, inp.regime, q);
    }
  }

  // ── Fair value ───────────────────────────────────────────────────────

  lemma Nudge(z: real, tick: real)
    requires tick > 0.0 && -1.0 <= z <= 1.0
    ensures -0.5 * tick <= 0.5 * z * tick <= 0.5 * tick
  {
    MulMono(0.5 * z, 0.5, tick);
    MulMono(-0.5, 0.5 * z, tick);
  }

  /** FAIR VALUE: between touches inside [tick, 1 - tick] it stays within half a tick of them. */
  lemma FairValueNearTouch(bid: real, ask: real, micro: real, z: real, tick: real)
    requires 0.0 < tick && 2.0 * tick < 1.0 && tick <= bid <= micro <= ask <= 1.0 - tick && -1.0 <= z <= 1.0
    ensures var fv := ComputeFairValue(micro, z, tick, 0.5);
      && bid - 0.5 * tick <= fv <= ask + 0.5 * tick
      && tick <= fv <= 1.0 - tick
  {
    Nudge(z, tick);
    var nudge := 0.5 * z * tick;
    assert ComputeFairValue(micro, z, tick, 0.5) == Clamp(micro + nudge, tick, 1.0 - tick);
  }

  /** FLOW AND FAIR VALUE: buying pressure never lowers it and selling pressure never raises it; where the clamp does not
      act, a full score moves it by half a tick. */
  lemma FairValueFollowsFlow(micro: real, z: real, more: real, tick: real)
    requires 0.0 < tick && z <= more
    ensures ComputeFairValue(micro, z, tick, 0.5) <= ComputeFairValue(micro, more, tick, 0.5)
    ensures var fv := ComputeFairValue(micro, z, tick, 0.5);
      tick < fv < 1.0 - tick ==> fv == micro + Times(0.5 * tick, z)
  {
    FairValueIs(micro, z, tick);
    FairValueIs(micro, more, tick);
    TimesMonotone(0.5 * tick, z, more);
    hide ComputeFairValue, Times;
  }

  lemma FairValueIs(micro: real, z: real, tick: real)
    ensures ComputeFairValue(micro, z, tick, 0.5) == Clamp(micro + Times(0.5 * tick, z), tick, 1.0 - tick)
  {
  }
}
