/** Concrete inputs of the two-sided maker where something one might expect does not hold. */
module MakerWitnesses {
  import opened Numerics
  import opened Domain
  import opened Dict
  import opened Ticks
  import opened Quoting
  import C = MakerControl
  import S = MakerSafety

  // ── Reading off a quote set ──────────────────────────────────────────

  const CENTS := Grid(0.01, 0.01)

  lemma CentsAreValid()
    ensures CENTS.Valid()
  {
    assert 1.0 / 0.01 == 100.0 && 0.01 / 0.01 == 1.0;
  }

  lemma CentPrints(k: int, p: real)
    requires p == k as real * 0.01
    ensures RoundTo(p, 0.01) == p && CENTS.Round(p) == p && Snap(p, 0.01, false) == p
  {
    hide RoundTo, Snap;
    RoundExact(k, 0.01);
    CentSnaps(k, p);
  }

  lemma CentSnaps(k: int, p: real)
    requires p == k as real * 0.01
    ensures Snap(p, 0.01, false) == p
  {
    assert p / 0.01 == k as real;
    assert (k as real + EPS).Floor == k;
  }

  /** The spread without rewards and without a volatility term. */
  lemma PlainSpread(inp: Inputs, d: real)
    requires inp.Valid() && inp.regime == QUIET && inp.meta.rewardsMaxSpread == 0.0 && inp.profile.cVol == 0.0
    requires inp.profile.deltaMinTicks as real * inp.meta.grid.tick + inp.profile.cTox * inp.toxicity == d
    requires d >= inp.meta.grid.tick
    ensures HalfSpread(inp) == d
  {
    hide Grid.Valid;
    assert RawSpread(inp) == d;
    assert RewardBand(inp) == 0.0;
    hide RawSpread, BaseSpread, RewardBand;
  }

  lemma UtilizationIs(inp: Inputs, cap: real, u: real)
    requires inp.Valid() && cap > 0.0 && inp.profile.qMaxUsdc == cap * Max(inp.fv, inp.meta.grid.tick)
    requires -1.0 <= u <= 1.0 && inp.posYes.size - inp.posNo.size == u * cap
    ensures Utilization(inp) == u
  {
    assert Max(inp.fv, inp.meta.grid.tick) > 0.0;
    hide Grid.Valid, Max;
    RatioIs(inp.posYes.size - inp.posNo.size, inp.profile.qMaxUsdc, Max(inp.fv, inp.meta.grid.tick), cap, u);
  }

  lemma RatioIs(net: real, most: real, price: real, cap: real, u: real)
    requires price > 0.0 && cap > 0.0 && most == cap * price && net == u * cap
    ensures most / price == cap && net / cap == u
  {
    MulDiv(cap, price);
    MulDiv(u, cap);
  }

  lemma BidOnGrid(target: real, view: View, g: Grid, fv: real, minEdgeTicks: int, p: real)
    requires g.Valid() && BidBeforeRounding(target, view, g.tick, fv, minEdgeTicks) == p
    requires Snap(p, g.tick, false) == p && g.tick <= p <= 1.0 - g.tick
    ensures PlaceBid(target, view, g, fv, minEdgeTicks) == Some(p)
  {
    hide RoundToTick, BidBeforeRounding, Snap, Grid.Round;
    RoundToTickClamps(p, g, false);
  }

  /** Without a book a bid is its target, or the edge below fair value. */
  lemma LoneBid(target: real, g: Grid, fv: real, minEdgeTicks: int, p: real)
    requires g.Valid() && p == Min(target, fv - minEdgeTicks as real * g.tick)
    requires Snap(p, g.tick, false) == p && g.tick <= p <= 1.0 - g.tick
    ensures PlaceBid(target, View(None, None), g, fv, minEdgeTicks) == Some(p)
  {
    hide Snap, RoundToTick;
    BidOnGrid(target, View(None, None), g, fv, minEdgeTicks, p);
  }

  lemma ZeroOver(cap: real)
    requires cap > 0.0
    ensures 0.0 / cap == 0.0
  {
  }

  lemma ZeroClamps()
    ensures Clamp(0.0, -1.0, 1.0) == 0.0
  {
  }

  lemma FlatUtilization(inp: Inputs)
    requires inp.Valid() && inp.posYes.size == inp.posNo.size
    ensures Utilization(inp) == 0.0 && Reservation(inp) == inp.fv
  {
    var cap := inp.profile.qMaxUsdc / Max(inp.fv, inp.meta.grid.tick);
    hide Grid.Valid, Max;
    if cap > 0.0 {
      ZeroOver(cap);
    }
    assert Clamp(0.0, -1.0, 1.0) == 0.0 by { ZeroClamps(); }
    assert Utilization(inp) == 0.0;
    hide Utilization;
    NoLean(inp.profile.gamma, inp.volShort, Utilization(inp));
  }

  lemma NoLean(gamma: real, vol: real, u: real)
    requires u == 0.0
    ensures gamma * vol * u == 0.0
  {
  }

  /** The YES bid of a flat market without a book. */
  lemma FlatYesBid(inp: Inputs, price: real)
    requires inp.Valid() && inp.posYes.size == inp.posNo.size && inp.yesView == View(None, None)
    requires price == Min(inp.fv - HalfSpread(inp), EdgeCap(inp.fv, inp.profile.minEdgeTicks, inp.meta.grid.tick))
    requires Snap(price, inp.meta.grid.tick, false) == price && inp.meta.grid.tick <= price <= 1.0 - inp.meta.grid.tick
    ensures Utilization(inp) == 0.0 && YesBid(inp) == Some(price)
  {
    FlatUtilization(inp);
    hide Snap, PlaceBid, Utilization, Reservation, HalfSpread, Grid.Valid, EdgeCap;
    assert BidBeforeRounding(inp.fv - HalfSpread(inp), inp.yesView, inp.meta.grid.tick, inp.fv, inp.profile.minEdgeTicks) == price;
    BidOnGrid(inp.fv - HalfSpread(inp), inp.yesView, inp.meta.grid, inp.fv, inp.profile.minEdgeTicks, price);
  }

  /** What is bid for YES on a flat market, from its price and size. */
  lemma FlatLeg(inp: Inputs, price: real, total: real)
    requires inp.Valid() && inp.regime == QUIET && inp.profile.qSoftFrac > 0.0
    requires Utilization(inp) == 0.0 && YesBid(inp) == Some(price) && EntrySize(inp, price, 0.0) == total
    ensures C.Leg(inp, true) == Entry(price, total)
  {
    hide Utilization, YesBid, EntrySize, Grid.Valid;
  }

  /** Shares at a price that is a tick or more, rounded to `k` hundredths. */
  lemma SizeIs(inp: Inputs, price: real, u: real, scale: real, shares: real, k: int)
    requires inp.Valid() && EntryScale(inp, u) == scale && scale >= 0.0
    requires price >= inp.meta.grid.tick && shares > 0.0
    requires inp.profile.baseSizeUsdc * scale == shares * price
    requires -0.5 < shares * 100.0 - k as real < 0.5
    ensures EntrySize(inp, price, u) == k as real * 0.01
  {
    assert inp.meta.grid.tick > 0.0;
    hide Grid.Valid, EntryScale;
    RawSharesAre(inp.profile.baseSizeUsdc, price, scale, inp.meta.grid.tick, shares);
    RoundsTo(shares, k);
    hide RawShares, RoundTo;
  }

  /** The scale in QUIET without a risk cut. */
  lemma QuietScale(inp: Inputs, u: real, room: real, calm: real)
    requires inp.Valid() && inp.regime == QUIET && inp.riskSizeScale == 1.0
    requires calm * (1.0 + inp.toxicity * 10.0) == 1.0 && room == 1.0 - Max(u, 0.0)
    ensures EntryScale(inp, u) == calm * room
  {
    MulDiv(calm, 1.0 + inp.toxicity * 10.0);
    hide Grid.Valid;
    assert ToxicityScale(inp.toxicity) == calm;
    assert CommonScale(inp) == calm by { hide ToxicityScale; }
    hide CommonScale;
  }

  lemma RawSharesAre(base: real, price: real, room: real, tick: real, shares: real)
    requires tick > 0.0 && price >= tick && shares > 0.0 && base * room == shares * price && room >= 0.0
    ensures RawShares(base, price, room, tick) == shares
  {
    var each := base / price;
    MulDiv(base, price);
    assert each * price == base;
    assert (each * room) * price == shares * price;
    MulMono(each * room, shares, price);
    MulMono(shares, each * room, price);
  }

  lemma RoundsTo(x: real, k: int)
    requires -0.5 < x * 100.0 - k as real < 0.5
    ensures RoundTo(x, 0.01) == k as real * 0.01
  {
    hide RoundInt;
    assert x / 0.01 == x * 100.0;
    RoundIntIs(x * 100.0, k);
  }

  lemma RoundIntIs(y: real, k: int)
    requires -0.5 < y - k as real < 0.5
    ensures RoundInt(y) == k
  {
  }

  /** A single layer without rewards is one order of the whole size. */
  lemma SingleLayer(inp: Inputs, token: string, price: real, total: real)
    requires inp.Valid() && inp.profile.layers == 1 && RewardFloor(inp) <= inp.meta.minOrderSize
    requires inp.meta.grid.Round(price) == price && 0.0 < price < 1.0
    requires total > 0.0 && RoundTo(total, 0.01) == total && total >= inp.meta.minOrderSize
    ensures Entries(inp, token, Entry(price, total)) == [Quote(token, BUY, price, total)]
  {
    hide Grid.Round, RewardFloor, RoundTo, Grid.Valid;
    assert PerLayer(total, 1) == total;
    var g, step := inp.meta.grid, inp.profile.layerStepTicks;
    assert Ladder(token, BUY, price, g, step, true, total, 0) == [];
    assert LayerPrice(price, g, step, true, 0) == price;
    assert Ladder(token, BUY, price, g, step, true, total, 1) == [Quote(token, BUY, price, total)];
  }

  /** The entries of both tokens are part of the quote set. */
  lemma EntriesAreQuoted(inp: Inputs, yes: Entry, no: Entry)
    requires inp.Valid() && inp.regime == QUIET
    requires yes == EntryAt(inp, YesBid(inp), Utilization(inp)) && no == EntryAt(inp, NoBid(inp), -Utilization(inp))
    ensures forall q :: q in Entries(inp, inp.meta.yes, yes) || q in Entries(inp, inp.meta.no, no) ==> q in MakerQuotes(inp)
  {
    hide Utilization, YesBid, NoBid, EntryAt, Entries, YesExit, NoExit, Grid.Valid;
  }

  // ── A pair at one ────────────────────────────────────────────────────

  /** No minimum edge, a fair value at the top of its band, and a NO position that lifts the YES target past it. */
  const TOPPED := Inputs(Meta("y", "n", CENTS, 5.0, 0.0, 0.0),
                         Profile(990.0, 1.0, 1, 0.0, 0.0, 50.0, 0.75, 1, 1, 0.0, 0),
                         View(None, None), View(None, None), 0.99, 0.1, 0.0, Position(0.0, 0.0), Position(500.0, 0.5),
                         QUIET, 1.0, 0.0, 0.0)

  lemma ToppedBids()
    requires TOPPED.Valid()
    ensures Utilization(TOPPED) == -0.5
    ensures YesBid(TOPPED) == Some(0.99) && NoBid(TOPPED) == Some(0.01)
  {
    UtilizationIs(TOPPED, 1000.0, -0.5);
    PlainSpread(TOPPED, 0.01);
    assert Reservation(TOPPED) == 1.04 by { hide Utilization; }
    CentPrints(99, 0.99);
    hide Utilization, HalfSpread, Reservation, Grid.Valid, PlaceBid;
    assert S.YesRaw(TOPPED) == 0.99;
    assert S.Tops(S.YesRaw(TOPPED), CENTS) by { hide Snap; }
    S.BidsAtMostOne(TOPPED);
  }

  lemma ToppedEntries()
    requires TOPPED.Valid()
    ensures EntrySize(TOPPED, 0.99, -0.5) == 50.51 && EntrySize(TOPPED, 0.01, 0.5) == 2500.0
    ensures Entries(TOPPED, "y", Entry(0.99, 50.51)) == [Quote("y", BUY, 0.99, 50.51)]
    ensures Entries(TOPPED, "n", Entry(0.01, 2500.0)) == [Quote("n", BUY, 0.01, 2500.0)]
  {
    hide Entries, EntrySize, Grid.Round, RoundTo, Snap, Grid.Valid;
    QuietScale(TOPPED, -0.5, 1.0, 1.0);
    QuietScale(TOPPED, 0.5, 0.5, 1.0);
    hide EntryScale;
    SizeIs(TOPPED, 0.99, -0.5, 1.0, 50.0 / 0.99, 5051);
    SizeIs(TOPPED, 0.01, 0.5, 0.5, 2500.0, 250000);
    CentPrints(99, 0.99);
    CentPrints(1, 0.01);
    CentPrints(5051, 50.51);
    CentPrints(250000, 2500.0);
    SingleLayer(TOPPED, "y", 0.99, 50.51);
    SingleLayer(TOPPED, "n", 0.01, 2500.0);
  }

  /** The pair bound is attained: both legs are quoted, at 0.99 and at 0.01. */
  lemma PairReachesOne()
    ensures TOPPED.Valid()
    ensures Quote("y", BUY, 0.99, 50.51) in MakerQuotes(TOPPED)
    ensures Quote("n", BUY, 0.01, 2500.0) in MakerQuotes(TOPPED)
  {
    CentsAreValid();
    hide Utilization, YesBid, NoBid, EntrySize, Entries, MakerQuotes, Grid.Valid;
    ToppedBids();
    ToppedEntries();
    EntriesAreQuoted(TOPPED, Entry(0.99, 50.51), Entry(0.01, 2500.0));
  }

  // ── Climbing layers ──────────────────────────────────────────────────

  /** Layers configured to climb: two of them, ten ticks up. */
  const CLIMBING := Inputs(Meta("y", "n", CENTS, 5.0, 0.0, 0.0),
                           Profile(500.0, 0.0, 1, 0.0, 0.0, 49.0, 0.75, 2, -10, 0.0, 1),
                           View(None, None), View(None, None), 0.5, 0.0, 0.0, Position(0.0, 0.0), Position(0.0, 0.0),
                           QUIET, 1.0, 0.0, 0.0)

  lemma ClimbingBids()
    requires CLIMBING.Valid()
    ensures Utilization(CLIMBING) == 0.0
    ensures YesBid(CLIMBING) == Some(0.49) && NoBid(CLIMBING) == Some(0.49)
  {
    UtilizationIs(CLIMBING, 1000.0, 0.0);
    PlainSpread(CLIMBING, 0.01);
    assert Reservation(CLIMBING) == 0.5 by { hide Utilization; }
    CentPrints(49, 0.49);
    hide Utilization, HalfSpread, Reservation, Grid.Valid, PlaceBid, Snap, Grid.Round, RoundTo;
    LoneBid(0.49, CENTS, 0.5, 1, 0.49);
  }

  lemma ClimbingEntries(token: string)
    requires CLIMBING.Valid()
    ensures EntrySize(CLIMBING, 0.49, 0.0) == 100.0
    ensures Quote(token, BUY, 0.59, 50.0) in Entries(CLIMBING, token, Entry(0.49, 100.0))
  {
    QuietScale(CLIMBING, 0.0, 1.0, 1.0);
    SizeIs(CLIMBING, 0.49, 0.0, 1.0, 100.0, 10000);
    CentPrints(5000, 50.0);
    CentPrints(59, 0.59);
    hide EntrySize, Grid.Round, RoundTo, Snap, Grid.Valid;
    assert PerLayer(100.0, 2) == 50.0;
    assert LayerPrice(0.49, CENTS, -10, true, 1) == 0.59;
  }

  /** Climbing layers break the lock: a pair at 0.59 each. */
  lemma ClimbingLayersBreakTheLock()
    ensures CLIMBING.Valid()
    ensures Quote("y", BUY, 0.59, 50.0) in MakerQuotes(CLIMBING)
    ensures Quote("n", BUY, 0.59, 50.0) in MakerQuotes(CLIMBING)
  {
    CentsAreValid();
    hide Utilization, YesBid, NoBid, EntrySize, Entries, MakerQuotes, Grid.Valid;
    ClimbingBids();
    ClimbingEntries("y");
    ClimbingEntries("n");
    EntriesAreQuoted(CLIMBING, Entry(0.49, 100.0), Entry(0.49, 100.0));
  }

  // ── More shares under stress ─────────────────────────────────────────

  /** A flat market at ten cents whose spread reacts to toxicity. */
  function Cheap(toxicity: real): Inputs {
    Inputs(Meta("y", "n", CENTS, 5.0, 0.0, 0.0),
           Profile(500.0, 0.0, 2, 0.0, 2.0, 50.0, 0.75, 1, 1, 0.0, 1),
           View(None, None), View(None, None), 0.1, 0.0, toxicity, Position(0.0, 0.0), Position(0.0, 0.0),
           QUIET, 1.0, 0.0, 0.0)
  }

  lemma CheapSpread(toxicity: real)
    requires CENTS.Valid() && toxicity >= 0.0
    ensures Cheap(toxicity).Valid() && HalfSpread(Cheap(toxicity)) == 0.02 + 2.0 * toxicity
  {
    hide Grid.Valid;
    PlainSpread(Cheap(toxicity), 0.02 + 2.0 * toxicity);
  }

  lemma CheapPrice(toxicity: real, price: real, k: int)
    requires CENTS.Valid() && toxicity >= 0.0 && price == 0.08 - 2.0 * toxicity == k as real * 0.01 && k >= 1
    ensures Utilization(Cheap(toxicity)) == 0.0 && YesBid(Cheap(toxicity)) == Some(price)
  {
    hide Snap, Grid.Valid, Grid.Round, RoundTo, HalfSpread, Utilization, YesBid;
    CheapSpread(toxicity);
    CentPrints(k, price);
    FlatYesBid(Cheap(toxicity), price);
  }

  lemma CheapSize(toxicity: real, price: real, scale: real, shares: real, n: int)
    requires CENTS.Valid() && toxicity >= 0.0 && price >= 0.01
    requires scale * (1.0 + toxicity * 10.0) == 1.0 && scale >= 0.0
    requires shares > 0.0 && 50.0 * scale == shares * price && -0.5 < shares * 100.0 - n as real < 0.5
    ensures EntrySize(Cheap(toxicity), price, 0.0) == n as real * 0.01
  {
    hide EntryScale, EntrySize, Grid.Valid;
    QuietScale(Cheap(toxicity), 0.0, 1.0, scale);
    SizeIs(Cheap(toxicity), price, 0.0, scale, shares, n);
  }

  /** Two hundredths of toxicity halve the price and take a sixth off the scale: 625 shares become 1041.67. */
  lemma ToxicityEnlargesAnOrder()
    ensures Cheap(0.0).Valid() && Cheap(0.02) == C.Stressed(Cheap(0.0), 0.02)
    ensures C.Leg(Cheap(0.0), true) == Entry(0.08, 625.0)
    ensures C.Leg(Cheap(0.02), true) == Entry(0.04, 1041.67)
  {
    CentsAreValid();
    hide C.Leg, Grid.Valid, EntrySize, Utilization, YesBid;
    CheapPrice(0.0, 0.08, 8);
    CheapPrice(0.02, 0.04, 4);
    CheapSize(0.0, 0.08, 1.0, 625.0, 62500);
    CheapSize(0.02, 0.04, 1.0 / 1.2, 50.0 / 0.048, 104167);
    FlatLeg(Cheap(0.0), 0.08, 625.0);
    FlatLeg(Cheap(0.02), 0.04, 1041.67);
  }

  // ── Money under the reward bump ──────────────────────────────────────

  /** Half the reward minimum is in reach of the base size. */
  const REWARDED := Inputs(Meta("y", "n", CENTS, 5.0, 150.0, 0.0),
                           Profile(510.0, 0.0, 1, 0.0, 0.0, 50.0, 0.75, 1, 1, 1.0, 1),
                           View(None, None), View(None, None), 0.51, 0.0, 0.0, Position(0.0, 0.0), Position(0.0, 0.0),
                           QUIET, 1.0, 0.0, 0.0)

  lemma RewardedLeg()
    requires REWARDED.Valid()
    ensures C.Leg(REWARDED, true) == Entry(0.5, 100.0)
  {
    hide Snap, Grid.Valid, Grid.Round, RoundTo, HalfSpread, EntryScale, Utilization, YesBid, EntrySize, C.Leg;
    PlainSpread(REWARDED, 0.01);
    CentPrints(50, 0.5);
    QuietScale(REWARDED, 0.0, 1.0, 1.0);
    FlatYesBid(REWARDED, 0.5);
    SizeIs(REWARDED, 0.5, 0.0, 1.0, 100.0, 10000);
    FlatLeg(REWARDED, 0.5, 100.0);
  }

  lemma RewardedShare()
    ensures PerLayer(100.0, 1) == 100.0 && C.IsBumped(REWARDED, 100.0) && Bumped(100.0, 150.0) == 150.0
  {
    CentPrints(10000, 100.0);
    hide RoundTo;
  }

  lemma RewardedLadder()
    requires CENTS.Valid()
    ensures Ladder("y", BUY, 0.5, CENTS, 1, true, 150.0, 1) == [Quote("y", BUY, 0.5, 150.0)]
  {
    CentPrints(50, 0.5);
    hide Grid.Round, RoundTo, Grid.Valid;
    assert Ladder("y", BUY, 0.5, CENTS, 1, true, 150.0, 0) == [];
    assert LayerPrice(0.5, CENTS, 1, true, 0) == 0.5;
  }

  /** A base size of 50 is bumped to 150 shares at one half, which cost 75. */
  lemma BumpExceedsTheBase()
    ensures REWARDED.Valid() && C.Leg(REWARDED, true) == Entry(0.5, 100.0) && C.IsBumped(REWARDED, 100.0)
    ensures Entries(REWARDED, "y", C.Leg(REWARDED, true)) == [Quote("y", BUY, 0.5, 150.0)]
    ensures C.CostOf(Entries(REWARDED, "y", C.Leg(REWARDED, true))) == 75.0
  {
    CentsAreValid();
    hide C.Leg, PerLayer, Bumped, Ladder, Grid.Valid, C.IsBumped;
    RewardedLeg();
    RewardedShare();
    RewardedLadder();
    var quotes := Entries(REWARDED, "y", Entry(0.5, 100.0));
    assert quotes == [Quote("y", BUY, 0.5, 150.0)];
    assert quotes[..0] == [];
  }
}
