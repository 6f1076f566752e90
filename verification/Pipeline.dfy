/** End-to-end claims: from the book, the flow and the regime through the quotes and the plan to what rests on the
    exchange. */
module Pipeline {
  import opened Numerics
  import opened Domain
  import opened Reconciler
  import opened Execution
  import B = OrderBook
  import E = Estimators
  import M = RegimeMachine
  import Q = Quoting
  import S = MakerSafety
  import C = MakerControl
  import W = OneWay
  import V = OneWaySafety
  import T = Ticks

  // ── Book and flow to fair value ──────────────────────────────────────

  /** BOUNDED FAIR VALUE: whatever the flow has been, on an uncrossed book inside [tick, 1 - tick] the fair value stays
      within half a tick of the touches and inside [tick, 1 - tick]. */
  lemma FairValueBounded(bids: B.Levels, asks: B.Levels, levels: int, decay: E.Decay, es: seq<E.Event>, tick: real)
    requires B.Positive(bids) && B.Positive(asks) && bids != [] && asks != [] && 0.0 < tick && 2.0 * tick < 1.0
    requires tick <= bids[|bids| - 1].price <= asks[0].price <= 1.0 - tick
    ensures var fv := Q.ComputeFairValue(B.Microprice(bids, asks, levels).value, E.Z(E.Run(decay, es)), tick, 0.5);
      && bids[|bids| - 1].price - 0.5 * tick <= fv <= asks[0].price + 0.5 * tick
      && tick <= fv <= 1.0 - tick
  {
    hide B.Weighted, B.TopBids, B.TopAsks, Q.ComputeFairValue, E.Z, E.Run;
    B.MicropriceBetween(bids, asks, levels);
    E.ScoreBounded(decay, es);
    S.FairValueNearTouch(bids[|bids| - 1].price, asks[0].price, B.Microprice(bids, asks, levels).value,
                         E.Z(E.Run(decay, es)), tick);
  }

  /** A flow threshold above one can never be reached: TRENDING is then decided by volatility alone. */
  lemma FlowNeverTrends(until: real, inp: M.Inputs, p: M.Profile, decay: E.Decay, es: seq<E.Event>)
    requires inp.tick > 0.0 && p.trendFlowZ > 1.0 && inp.flowZ == E.Z(E.Run(decay, es))
    ensures M.Decision(until, inp, p).0 == TRENDING ==> inp.volRatio >= p.trendVolRatio
  {
    E.ScoreBounded(decay, es);
    M.TrendingIsVolatility(until, inp, p);
  }

  // ── Regime to plan: silence ──────────────────────────────────────────

  lemma {:induction false} NoTargetsDropAll(live: seq<OpenOrder>)
    ensures |Dropped(live, {})| == |live|
    ensures forall i :: 0 <= i < |live| ==> Dropped(live, {})[i] == live[i].orderId
    ensures Survivors(live, {}) == []
  {
    if live != [] {
      NoTargetsDropAll(live[1..]);
    }
  }

  lemma NoTargetsPlan(live: seq<OpenOrder>, tol: Tolerance)
    ensures var p := Plan([], live, tol);
      && p.toPlace == [] && |p.toCancel| == |live|
      && forall i :: 0 <= i < |live| ==> p.toCancel[i] == live[i].orderId
    ensures forall after, placed :: Executed(after, [], live, tol, placed) ==> after == []
  {
    NoTargetsDropAll(live);
    assert Kept([]) == {};
    forall after, placed | Executed(after, [], live, tol, placed)
      ensures after == []
    {
      NothingAfter(live, tol, after, placed);
    }
  }

  lemma FirstHasItsKey(orders: seq<OpenOrder>)
    ensures orders == [] || ByKey(orders, KeyOf(orders[0])) != []
  {
  }

  lemma NothingAfter(live: seq<OpenOrder>, tol: Tolerance, after: seq<OpenOrder>, placed: seq<OpenOrder>)
    requires Executed(after, [], live, tol, placed)
    ensures after == []
  {
    NoTargetsDropAll(live);
    assert Kept([]) == {} && placed == [];
    assert Survivors(live, {}) + placed == [];
    FirstHasItsKey(after);
  }

  /** COOL-OFF SILENCE: every decision less than the cool-off after a non-halted sweep or jump makes both strategies
      quote nothing; the plan then cancels every live order, places none, and leaves the market empty. */
  lemma CooloffClearsTheMarket(inputs: seq<M.Inputs>, p: M.Profile, i: nat, j: nat, maker: Q.Inputs, oneWay: W.Inputs,
                               live: seq<OpenOrder>, tol: Tolerance)
    requires M.Clocked(inputs) && i <= j < |inputs| && M.Fires(inputs, p, i)
    requires inputs[j].now < inputs[i].now + p.eventCooloffS
    requires maker.Valid() && maker.regime == M.RegimeAt(inputs, p, j)
    requires oneWay.meta.Valid() && oneWay.regime == M.RegimeAt(inputs, p, j)
    ensures Q.MakerQuotes(maker) == [] && W.OneWayQuotes(oneWay) == W.Quoted([])
    ensures var plan := Plan(Q.MakerQuotes(maker), live, tol);
      && plan.toPlace == [] && |plan.toCancel| == |live|
      && forall k :: 0 <= k < |live| ==> plan.toCancel[k] == live[k].orderId
    ensures forall after, placed :: Executed(after, [], live, tol, placed) ==> after == []
  {
    hide M.RegimeAt, Plan, Executed, Q.Entries, Q.Exit, W.BuyLayersOf, W.Sells;
    M.CooloffIsSilent(inputs, p, i, j);
    NoTargetsPlan(live, tol);
  }

  // ── Regime to quotes: reduce-only ────────────────────────────────────

  /** REDUCE ONLY: while the risk manager says so, the inventory is at its cap, or the end is near, neither strategy quotes
      a single BUY. */
  lemma ReduceOnlyNeverBuys(inputs: seq<M.Inputs>, p: M.Profile, j: nat, maker: Q.Inputs, oneWay: W.Inputs, q: Quote)
    requires M.Clocked(inputs) && j < |inputs| && M.MustReduce(inputs[j], p)
    requires maker.Valid() && maker.regime == M.RegimeAt(inputs, p, j)
    requires oneWay.meta.Valid() && oneWay.regime == M.RegimeAt(inputs, p, j)
    ensures q in Q.MakerQuotes(maker) ==> q.side == SELL
    ensures W.OneWayQuotes(oneWay).Quoted?
    ensures q in W.OneWayQuotes(oneWay).quotes ==> q.side == SELL
  {
    hide M.RegimeAt, M.MustHalt, M.Shaken, M.Runs, Q.MakerQuotes, W.Sells, W.PyramidOf, W.BuyLayersOf, W.BuyQuotes, W.Utilization;
    M.RegimeFollowsInputs(inputs, p, j);
    if q in Q.MakerQuotes(maker) && q.side == BUY {
      C.BuysNeedRoom(maker, q);
    }
    if q in W.OneWayQuotes(oneWay).quotes && q.side == BUY {
      V.BrakesHold(oneWay, q);
    }
  }

  // ── Quotes to exposure: no overselling ───────────────────────────────

  lemma EntriesAreBuys(inp: Q.Inputs, token: string, e: Q.Entry, t: string)
    requires inp.Valid()
    ensures TargetSizeAt(Q.Entries(inp, token, e), (t, SELL)) == 0.0
    ensures CountAt(Q.Entries(inp, token, e), (t, SELL)) == 0
  {
    hide Q.Entries;
    S.EntriesBuy(inp, token, e);
    V.NoTargetAt(Q.Entries(inp, token, e), (t, SELL));
  }

  lemma ExitWithin(token: string, pos: Position, fv: real, delta: real, view: Q.View, g: T.Grid, urgency: real,
                   minOrderSize: real, regime: Regime, t: string)
    requires g.Valid() && pos.size >= 0.0
    ensures var exit := Q.Exit(token, pos, fv, delta, view, g, urgency, minOrderSize, regime);
      && TargetSizeAt(exit, (t, SELL)) <= (if t == token then pos.size else 0.0)
      && CountAt(exit, (t, SELL)) <= (if t == token then 1 else 0)
      && (forall q :: q in exit ==> q.side == SELL && q.size >= minOrderSize)
  {
    hide T.RoundToTick, Q.AskBeforeRounding, Q.FloorShares;
    S.FloorSharesBelow(pos.size);
    var exit := Q.Exit(token, pos, fv, delta, view, g, urgency, minOrderSize, regime);
    if exit != [] {
      V.SingleTarget(exit[0]);
      if t != token {
        V.NoTargetAt(exit, (t, SELL));
      }
    }
  }

  /** The maker's SELL targets on a token total at most what is held of it, in at most one order. */
  lemma MakerNeverOversells(inp: Q.Inputs, t: string)
    requires inp.Valid() && inp.posYes.size >= 0.0 && inp.posNo.size >= 0.0 && t in {inp.meta.yes, inp.meta.no}
    ensures TargetSizeAt(Q.MakerQuotes(inp), (t, SELL)) <= S.HeldOf(inp, t)
    ensures CountAt(Q.MakerQuotes(inp), (t, SELL)) <= 1
  {
    hide Q.Entries, Q.EntryAt, Q.YesBid, Q.NoBid, Q.Utilization, Q.HalfSpread, Q.Exit, TargetSizeAt, CountAt;
    var m, u, delta := inp.meta, Q.Utilization(inp), Q.HalfSpread(inp);
    var k := (t, SELL);
    var a, b := Q.Entries(inp, m.yes, Q.EntryAt(inp, Q.YesBid(inp), u)), Q.Entries(inp, m.no, Q.EntryAt(inp, Q.NoBid(inp), -u));
    V.NoTargetAt([], k);
    TargetSizeConcat(a + b + Q.YesExit(inp), Q.NoExit(inp), k);
    TargetSizeConcat(a + b, Q.YesExit(inp), k);
    TargetSizeConcat(a, b, k);
    EntriesAreBuys(inp, m.yes, Q.EntryAt(inp, Q.YesBid(inp), u), t);
    EntriesAreBuys(inp, m.no, Q.EntryAt(inp, Q.NoBid(inp), -u), t);
    ExitWithin(m.yes, inp.posYes, inp.fv, delta, inp.yesView, m.grid, inp.yesUrgency, m.minOrderSize, inp.regime, t);
    ExitWithin(m.no, inp.posNo, 1.0 - inp.fv, delta, inp.noView, m.grid, inp.noUrgency, m.minOrderSize, inp.regime, t);
  }

  lemma Stretch(frac: real, sold: real, held: real, n: int, most: int)
    requires frac >= 0.0 && sold <= held && n <= most
    ensures (1.0 + frac) * sold + n as real * EPS <= (1.0 + frac) * held + most as real * EPS
  {
    MulNonNegative(1.0 + frac, held - sold);
    assert (1.0 + frac) * held - (1.0 + frac) * sold == (1.0 + frac) * (held - sold);
  }

  /** NO OVERSELLING, maker: after any executed plan the live SELL size of a token is at most what is held of it,
      stretched by the resize tolerance and the guard of one order. */
  lemma MakerLiveSells(inp: Q.Inputs, t: string, live: seq<OpenOrder>, tol: Tolerance, placed: seq<OpenOrder>,
                       after: seq<OpenOrder>)
    requires inp.Valid() && inp.posYes.size >= 0.0 && inp.posNo.size >= 0.0 && t in {inp.meta.yes, inp.meta.no}
    requires inp.meta.minOrderSize > 0.0 && UniqueIds(live) && tol.NonNegative()
    requires Executed(after, Q.MakerQuotes(inp), live, tol, placed)
    ensures SizeAt(after, (t, SELL)) <= (1.0 + tol.resizeFrac) * S.HeldOf(inp, t) + EPS
  {
    hide Q.MakerQuotes, Executed, SizeAt, TargetSizeAt, CountAt;
    var targets, k := Q.MakerQuotes(inp), (t, SELL);
    MakerNeverOversells(inp, t);
    forall q | q in targets && QuoteKey(q) == k
      ensures q.size > 0.0
    {
      MakerSellSize(inp, q);
    }
    ExposureBound(targets, live, tol, placed, after, k);
    Stretch(tol.resizeFrac, TargetSizeAt(targets, k), S.HeldOf(inp, t), CountAt(targets, k), 1);
  }

  lemma MakerSellSize(inp: Q.Inputs, q: Quote)
    requires inp.Valid() && q in Q.MakerQuotes(inp) && q.side == SELL
    ensures q.size >= inp.meta.minOrderSize
  {
    hide Q.Entries, Q.EntryAt, Q.YesBid, Q.NoBid, Q.Utilization, Q.HalfSpread, T.RoundToTick, Q.AskBeforeRounding, Q.FloorShares;
    var m, u := inp.meta, Q.Utilization(inp);
    S.EntriesBuy(inp, m.yes, Q.EntryAt(inp, Q.YesBid(inp), u));
    S.EntriesBuy(inp, m.no, Q.EntryAt(inp, Q.NoBid(inp), -u));
  }

  /** NO OVERSELLING, one-way: the same on the traded token, with one guard per sell layer. */
  lemma OneWayLiveSells(inp: W.Inputs, live: seq<OpenOrder>, tol: Tolerance, placed: seq<OpenOrder>, after: seq<OpenOrder>)
    requires inp.meta.Valid() && W.PosOf(inp).size >= 0.0 && inp.meta.minOrderSize > 0.0
    requires W.OneWayQuotes(inp).Quoted? && UniqueIds(live) && tol.NonNegative()
    requires Executed(after, W.OneWayQuotes(inp).quotes, live, tol, placed)
    ensures var layers := if inp.profile.sellLayers >= 1 then inp.profile.sellLayers else 1;
      SizeAt(after, (W.TokenOf(inp), SELL)) <= (1.0 + tol.resizeFrac) * W.PosOf(inp).size + layers as real * EPS
  {
    hide W.OneWayQuotes, Executed, SizeAt, TargetSizeAt, CountAt;
    var targets, k := W.OneWayQuotes(inp).quotes, (W.TokenOf(inp), SELL);
    V.NeverOversells(inp, W.TokenOf(inp));
    forall q | q in targets && QuoteKey(q) == k
      ensures q.size > 0.0
    {
      OneWaySellSize(inp, q);
    }
    ExposureBound(targets, live, tol, placed, after, k);
    Stretch(tol.resizeFrac, TargetSizeAt(targets, k), W.PosOf(inp).size, CountAt(targets, k),
            if inp.profile.sellLayers >= 1 then inp.profile.sellLayers else 1);
  }

  lemma OneWaySellSize(inp: W.Inputs, q: Quote)
    requires inp.meta.Valid() && W.OneWayQuotes(inp).Quoted? && q in W.OneWayQuotes(inp).quotes && q.side == SELL
    ensures q.size >= inp.meta.minOrderSize
  {
    hide W.BuyLayersOf, W.BuyQuotes, W.Offer.QuotesFrom, W.Raises, W.Utilization;
    V.OffersAreSells(W.OfferOf(inp), W.TokenOf(inp), inp.meta.grid, 0);
    var layers := W.BuyLayersOf(inp, W.Utilization(inp));
    if q in W.BuyQuotes(W.TokenOf(inp), inp.meta.grid, layers) {
      V.BuyQuoteMembers(W.TokenOf(inp), inp.meta.grid, layers, q);
    }
  }

  // ── Quotes to resting orders: how much of the edge survives ──────────

  /** After an executed plan every live order serves some target, within the churn tolerances. */
  lemma EveryOrderHasATarget(targets: seq<Quote>, live: seq<OpenOrder>, tol: Tolerance, placed: seq<OpenOrder>,
                             after: seq<OpenOrder>, o: OpenOrder)
    requires UniqueIds(live) && tol.NonNegative() && Executed(after, targets, live, tol, placed) && o in after
    ensures exists q :: q in targets && Within(o, q, tol)
  {
    var g := Greedy(targets, live, tol);
    var k, survivors := KeyOf(o), Survivors(live, Kept(g));
    ByKeyMembers(after, k);
    ByKeyMembers(survivors + placed, k);
    assert o in survivors || o in placed;
    SurvivorMembers(live, Kept(g));
    UnplacedMembers(targets, g);
    if o in survivors {
      var i :| 0 <= i < |g| && g[i].Some? && g[i].value.orderId == o.orderId;
      GreedyFacts(targets, live, tol, i);
      assert g[i].value == o;
      assert targets[i] in targets && Within(o, targets[i], tol);
    } else {
      var i :| 0 <= i < |placed| && placed[i] == o;
      var q := Plan(targets, live, tol).toPlace[i];
      assert q in Unplaced(targets, g);
      PlacedServes(o, q, tol);
      assert q in targets && Within(o, q, tol);
    }
  }

  lemma PlacedServes(o: OpenOrder, q: Quote, tol: Tolerance)
    requires tol.NonNegative() && KeyOf(o) == QuoteKey(q) && o.price == q.price && o.size == q.size
    ensures Within(o, q, tol)
  {
    MulNonNegative(tol.repriceTicks as real, tol.tick);
    if q.size > 0.0 {
      MulNonNegative(tol.resizeFrac, q.size);
    }
  }

  /** A resting BUY is at most the reprice tolerance above the bid it was placed for. */
  lemma LiveBidsDrift(inp: Q.Inputs, live: seq<OpenOrder>, tol: Tolerance, placed: seq<OpenOrder>, after: seq<OpenOrder>,
                      o: OpenOrder)
    requires inp.Valid() && S.Descends(inp.profile.layers, inp.profile.layerStepTicks)
    requires UniqueIds(live) && tol.NonNegative() && Executed(after, Q.MakerQuotes(inp), live, tol, placed) && o in after
    requires o.side == BUY && o.tokenId in {inp.meta.yes, inp.meta.no}
    ensures var bid := if o.tokenId == inp.meta.yes then Q.YesBid(inp) else Q.NoBid(inp);
      bid.Some? && o.price <= bid.value + tol.Price()
  {
    hide Q.MakerQuotes, Executed, Tolerance.Price, Q.YesBid, Q.NoBid;
    var targets := Q.MakerQuotes(inp);
    EveryOrderHasATarget(targets, live, tol, placed, after, o);
    var q :| q in targets && Within(o, q, tol);
    S.Origin(inp, q);
  }

  /** LIVE PAIRS: a resting BUY of YES and a resting BUY of NO cost at most one, up to the reprice tolerance of each:
      kept orders may have drifted that far from their targets. */
  lemma LivePairBound(inp: Q.Inputs, live: seq<OpenOrder>, tol: Tolerance, placed: seq<OpenOrder>, after: seq<OpenOrder>,
                      a: OpenOrder, b: OpenOrder)
    requires inp.Valid() && S.Descends(inp.profile.layers, inp.profile.layerStepTicks)
    requires UniqueIds(live) && tol.NonNegative() && Executed(after, Q.MakerQuotes(inp), live, tol, placed)
    requires a in after && KeyOf(a) == (inp.meta.yes, BUY) && b in after && KeyOf(b) == (inp.meta.no, BUY)
    ensures a.price + b.price <= 1.0 + 2.0 * tol.Price()
  {
    hide Q.MakerQuotes, Executed, Tolerance.Price, Q.YesBid, Q.NoBid, S.Tops;
    LiveBidsDrift(inp, live, tol, placed, after, a);
    LiveBidsDrift(inp, live, tol, placed, after, b);
    S.BidsAtMostOne(inp);
  }

  /** How far a kept order may have drifted, guard aside. */
  function Drift(tol: Tolerance): real { Times(tol.repriceTicks as real, tol.tick) }

  lemma PriceIsDrift(tol: Tolerance)
    ensures tol.Price() == Drift(tol) + EPS
  {
  }

  /** An edge of more than two drifts, in ticks. */
  lemma EdgeCoversDrift(fv: real, edge: int, tol: Tolerance)
    requires tol.tick > 0.0 && tol.repriceTicks >= 0 && edge > 2 * tol.repriceTicks
    ensures Drift(tol) >= 0.0 && Q.EdgeCap(fv, edge, tol.tick) <= fv - (2.0 * Drift(tol) + tol.tick)
  {
    hide Q.EdgeCap, Times;
    var r, e := tol.repriceTicks as real, edge as real;
    assert e >= 2.0 * r + 1.0;
    EdgeInTicks(e, r, tol.tick);
    EdgeCapIs(fv, edge, e, tol.tick);
  }

  lemma EdgeCapIs(fv: real, edge: int, e: real, tick: real)
    requires e == edge as real
    ensures Q.EdgeCap(fv, edge, tick) == fv - Times(e, tick)
  {
  }

  lemma EdgeInTicks(e: real, r: real, tick: real)
    requires tick > 0.0 && r >= 0.0 && e >= 2.0 * r + 1.0
    ensures Times(r, tick) >= 0.0 && Times(e, tick) >= 2.0 * Times(r, tick) + tick
  {
    MulNonNegative(r, tick);
    MulNonNegative(e - (2.0 * r + 1.0), tick);
    assert (2.0 * r + 1.0) * tick == 2.0 * (r * tick) + tick;
  }

  /** Two bids whose caps leave an edge of more than two drifts, or that are clamped up to a tick. */
  lemma DriftedPair(fv: real, tick: real, drift: real, guard: real, x: real, y: real, a: real, b: real)
    requires 4.0 * EPS < tick <= fv <= 1.0 - tick && 0.0 <= guard < EPS && drift >= 0.0 && 2.0 * drift + 3.0 * tick < 1.0
    requires (x <= fv - (2.0 * drift + tick) + guard || x <= tick) && (y <= (1.0 - fv) - (2.0 * drift + tick) + guard || y <= tick)
    requires a <= x + drift + EPS && b <= y + drift + EPS
    ensures a + b < 1.0
  {
  }

  lemma GuardBelowEps(tick: real)
    requires 0.0 < tick < 1.0
    ensures 0.0 <= EPS * tick < EPS
  {
  }

  /** LOCKED EDGE, resting: if the minimum edge exceeds twice the reprice tolerance and fair value is in its band, a
      resting BUY of YES and a resting BUY of NO cost less than one together, however far kept orders have drifted. */
  lemma LivePairLocked(inp: Q.Inputs, live: seq<OpenOrder>, tol: Tolerance, placed: seq<OpenOrder>, after: seq<OpenOrder>,
                       a: OpenOrder, b: OpenOrder)
    requires inp.Valid() && S.Descends(inp.profile.layers, inp.profile.layerStepTicks)
    requires UniqueIds(live) && tol.NonNegative() && Executed(after, Q.MakerQuotes(inp), live, tol, placed)
    requires a in after && KeyOf(a) == (inp.meta.yes, BUY) && b in after && KeyOf(b) == (inp.meta.no, BUY)
    requires tol.tick == inp.meta.grid.tick && 4.0 * EPS < tol.tick <= inp.fv <= 1.0 - tol.tick
    requires inp.profile.minEdgeTicks > 2 * tol.repriceTicks && 2.0 * Drift(tol) + 3.0 * tol.tick < 1.0
    ensures a.price + b.price < 1.0
  {
    hide Q.MakerQuotes, Executed, Q.YesBid, Q.NoBid, T.Grid.Round, T.Grid.Valid, Q.EdgeCap, Drift, Tolerance.Price;
    LiveBidsDrift(inp, live, tol, placed, after, a);
    LiveBidsDrift(inp, live, tol, placed, after, b);
    PriceIsDrift(tol);
    S.BidsCapped(inp);
    EdgeCoversDrift(inp.fv, inp.profile.minEdgeTicks, tol);
    EdgeCoversDrift(1.0 - inp.fv, inp.profile.minEdgeTicks, tol);
    GuardBelowEps(tol.tick);
    assert inp.meta.yes != inp.meta.no;
    DriftedPair(inp.fv, tol.tick, Drift(tol), EPS * tol.tick, Q.YesBid(inp).value, Q.NoBid(inp).value, a.price, b.price);
  }
}
