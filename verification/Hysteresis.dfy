/** The adaptive factors cannot chatter, and when recalculating them fails. */
module Hysteresis {
  import opened Numerics
  import opened Dict
  import opened Adaptive

  // ── One step ─────────────────────────────────────────────────────────

  /** Thresholds further apart than the hysteresis. */
  ghost predicate Separated(c: Config) {
    var t := c.thresholds;
    && 0.0 <= c.hysteresis <= 1.0 && 0.0 <= t.low <= t.mid <= t.high
    && t.low <= Eased(t.mid, c.hysteresis) && t.mid <= Eased(t.high, c.hysteresis)
  }

  /** What one downward switch has to cost at least. */
  function Unit(c: Config): real { c.thresholds.low * c.hysteresis }

  lemma EasedBelow(t: real, c: Config)
    requires Separated(c) && t >= c.thresholds.low
    ensures 0.0 <= Eased(t, c.hysteresis) <= t - Unit(c) && Unit(c) >= 0.0
  {
    var low, h := c.thresholds.low, c.hysteresis;
    assert t - Eased(t, h) == t * h;
    MulNonNegative(t, 1.0 - h);
    MulNonNegative(low, h);
    MulNonNegative(t - low, h);
    assert t * h - low * h == (t - low) * h;
  }

  /** The tier a factor belongs to, 0 to 3. */
  function Tier(factor: real): nat {
    if factor >= 1.5 then 3 else if factor >= 1.0 then 2 else if factor >= 0.7 then 1 else 0
  }

  /** The average volume that takes a market up into a tier. */
  function Entry(t: Thresholds, tier: nat): real
    requires 1 <= tier <= 3
  {
    if tier == 1 then t.low else if tier == 2 then t.mid else t.high
  }

  /** HYSTERESIS: a market keeps its tier exactly while its average volume is between the eased threshold below it and
      the plain threshold above it; otherwise it takes the plain tier of that volume. */
  lemma KeepsOrPlain(c: Config, current: real, avg: real)
    requires Separated(c)
    ensures var t, k := c.thresholds, Tier(current);
      var next := Tier(CalcVolFactor(avg, AdjustedThresholds(t, c.hysteresis, Some(current))));
      var keeps := (k > 0 ==> avg >= Eased(Entry(t, k), c.hysteresis)) && (k < 3 ==> avg < Entry(t, k + 1));
      && (next == k <==> keeps)
      && (!keeps ==> next == Tier(CalcVolFactor(avg, t)))
      && (next < k ==> avg < Eased(Entry(t, k), c.hysteresis))
  {
    hide Eased;
    EasedBelow(c.thresholds.low, c);
    EasedBelow(c.thresholds.mid, c);
    EasedBelow(c.thresholds.high, c);
  }

  /** The plain tier is the one whose threshold the volume has reached. */
  lemma PlainTier(t: Thresholds, avg: real)
    requires t.low <= t.mid <= t.high
    ensures var k := Tier(CalcVolFactor(avg, t));
      (k > 0 ==> avg >= Entry(t, k)) && (k < 3 ==> avg < Entry(t, k + 1))
  {
  }

  /** The buffers around the thresholds of the volatility factor, below which and above which it moves. */
  predicate InBuffer(lowRatio: real, highRatio: real, current: real, h: real) {
    if current >= 1.5 then lowRatio < 0.8 && 0.5 * (1.0 - h) <= highRatio < 0.5
    else if current <= 0.8 then 0.8 * (1.0 - h) <= lowRatio < 0.8
    else lowRatio < 0.8 && 0.5 <= highRatio < 0.5 * (1.0 + h)
  }

  /** The volatility factor takes its plain value exactly outside the buffer of the factor in force. Inside it, it goes
      to the regime that factor belongs to; that is the factor itself unless the one in force, such as that of the
      transition mode, is none of the three. */
  lemma RegimeKeepsOrPlain(lowRatio: real, highRatio: real, current: real, h: real)
    requires 0.0 <= h <= 1.0
    ensures var next := RegimeFor(lowRatio, highRatio, RegimeThresholds(Some(current), h));
      var plain := RegimeFor(lowRatio, highRatio, RegimeThresholds(None, h));
      && (next == plain <==> !InBuffer(lowRatio, highRatio, current, h))
      && (InBuffer(lowRatio, highRatio, current, h) ==>
            next == if current >= 1.5 then 1.5 else if current <= 0.8 then 0.8 else 1.0)
      && (next != plain && next != current <==> InBuffer(lowRatio, highRatio, current, h) && current !in {0.8, 1.0, 1.5})
  {
  }

  /** Leaving the default transition mode with half of the buckets high, it is neither kept nor plain. */
  lemma TransitionIsNeither()
    ensures RegimeFor(0.0, 0.5, RegimeThresholds(Some(1.2), 0.2)) == 1.0
    ensures RegimeFor(0.0, 0.5, RegimeThresholds(None, 0.2)) == 1.5
  {
  }

  // ── Runs in normal mode ──────────────────────────────────────────────

  /** One recalculation: an average volume and a volatility factor. */
  datatype Reading = Reading(avg: real, regime: real, buckets: nat)

  function Step(c: Config, was: Option<Factors>, r: Reading): Option<Factors> {
    var o := Update(c.hysteresis, was, NormalFactors(c, was, r.avg, r.regime, r.buckets));
    if o.Used? then Some(o.factors) else was
  }

  function Run(c: Config, start: Option<Factors>, rs: seq<Reading>): Option<Factors> {
    if rs == [] then start else Step(c, Run(c, start, rs[..|rs| - 1]), rs[|rs| - 1])
  }

  function TierIn(f: Option<Factors>): nat { if f.Some? then Tier(f.value.vol) else 0 }

  /** Downward tier switches of a run. */
  function Downs(c: Config, start: Option<Factors>, rs: seq<Reading>): nat {
    if rs == [] then 0
    else
      var prev := rs[..|rs| - 1];
      Downs(c, start, prev) + if TierIn(Run(c, start, rs)) < TierIn(Run(c, start, prev)) then 1 else 0
  }

  /** Total downward variation of the average volume. */
  function Fall(rs: seq<Reading>): real {
    if |rs| <= 1 then 0.0
    else Fall(rs[..|rs| - 1]) + Max(0.0, rs[|rs| - 2].avg - rs[|rs| - 1].avg)
  }

  /** How far the volume has sunk below the threshold that holds the tier. */
  function Depth(c: Config, tier: nat, avg: real): real
    requires tier <= 3
  {
    if tier == 0 then 0.0 else Max(0.0, Entry(c.thresholds, tier) - avg)
  }

  /** In normal mode a step keeps the tier or moves to the one the hysteresis names. */
  lemma StepTier(c: Config, was: Option<Factors>, r: Reading)
    ensures var next := NormalFactors(c, was, r.avg, r.regime, r.buckets).vol;
      var now := Step(c, was, r);
      TierIn(now) == TierIn(was) || TierIn(now) == Tier(next)
  {
    hide Change, CalcVolFactor, AdjustedThresholds;
  }

  /** A tier change pays for itself: the depth it leaves covers one unit and the depth it starts with. */
  lemma SwitchPays(c: Config, current: real, avg: real, next: nat)
    requires Separated(c)
    requires next == Tier(CalcVolFactor(avg, AdjustedThresholds(c.thresholds, c.hysteresis, Some(current))))
    requires next != Tier(current)
    ensures Depth(c, next, avg) == 0.0
    ensures next < Tier(current) ==> Depth(c, Tier(current), avg) >= Unit(c)
  {
    hide Eased, Unit, CalcVolFactor, AdjustedThresholds;
    KeepsOrPlain(c, current, avg);
    PlainTier(c.thresholds, avg);
    if Tier(current) > 0 {
      EasedBelow(Entry(c.thresholds, Tier(current)), c);
    }
  }

  lemma DepthMoves(c: Config, tier: nat, before: real, after: real)
    requires tier <= 3
    ensures Depth(c, tier, after) <= Depth(c, tier, before) + Max(0.0, before - after)
  {
  }

  /** Nothing is owed at the start: the cache is empty or holds a conservative factor of the lowest tier. */
  ghost predicate Fresh(start: Option<Factors>) {
    start.None? || Tier(start.value.vol) == 0
  }

  /** One step: what is owed after it and for it is covered by what was owed and the fall of the volume. */
  lemma StepOwes(c: Config, was: Option<Factors>, before: real, r: Reading)
    requires Separated(c)
    ensures var now := Step(c, was, r);
      Depth(c, TierIn(now), r.avg) + (if TierIn(now) < TierIn(was) then Unit(c) else 0.0)
        <= Depth(c, TierIn(was), before) + Max(0.0, before - r.avg)
  {
    hide Unit, Step, Depth;
    DepthMoves(c, TierIn(was), before, r.avg);
    DepthNonNegative(c, TierIn(was), r.avg);
    if TierIn(Step(c, was, r)) != TierIn(was) {
      LaterTier(c, was, r);
    }
  }

  lemma DownsSnoc(c: Config, start: Option<Factors>, rs: seq<Reading>)
    requires rs != []
    ensures var prev := rs[..|rs| - 1];
      var was := Run(c, start, prev);
      Copies(Downs(c, start, rs), Unit(c)) ==
        Copies(Downs(c, start, prev), Unit(c)) + if TierIn(Step(c, was, rs[|rs| - 1])) < TierIn(was) then Unit(c) else 0.0
  {
    hide Unit, Copies, Step;
    OneMore(Downs(c, start, rs[..|rs| - 1]), Unit(c));
  }

  lemma FallSnoc(rs: seq<Reading>)
    requires |rs| > 1
    ensures var prev := rs[..|rs| - 1];
      Fall(rs) == Fall(prev) + Max(0.0, prev[|prev| - 1].avg - rs[|rs| - 1].avg)
  {
  }

  lemma {:induction false} Owed(c: Config, start: Option<Factors>, rs: seq<Reading>)
    requires Separated(c) && Fresh(start) && rs != []
    ensures Copies(Downs(c, start, rs), Unit(c)) + Depth(c, TierIn(Run(c, start, rs)), rs[|rs| - 1].avg) <= Fall(rs)
  {
    hide Unit, Copies, Step, Depth;
    var prev, r := rs[..|rs| - 1], rs[|rs| - 1];
    var was := Run(c, start, prev);
    DownsSnoc(c, start, rs);
    if prev == [] {
      NoDowns(c, start);
      NoDepth(c, r.avg);
      if TierIn(Step(c, was, r)) != TierIn(was) {
        FirstTier(c, start, r);
      }
      NotBelowFresh(c, start, r);
    } else {
      Owed(c, start, prev);
      FallSnoc(rs);
      StepOwes(c, was, prev[|prev| - 1].avg, r);
    }
  }

  /** From any start: nothing has switched yet, or the debt is covered but for one unit. */
  lemma {:induction false} OwedFromAnywhere(c: Config, start: Option<Factors>, rs: seq<Reading>)
    requires Separated(c) && rs != []
    ensures
      || (Downs(c, start, rs) == 0 && TierIn(Run(c, start, rs)) == TierIn(start))
      || Copies(Downs(c, start, rs), Unit(c)) + Depth(c, TierIn(Run(c, start, rs)), rs[|rs| - 1].avg) <= Fall(rs) + Unit(c)
  {
    hide Unit, Copies, Step, Depth;
    var prev, r := rs[..|rs| - 1], rs[|rs| - 1];
    var was := Run(c, start, prev);
    DownsSnoc(c, start, rs);
    NoDowns(c, start);
    UnitNonNegative(c);
    FallNonNegative(rs);
    if prev != [] {
      OwedFromAnywhere(c, start, prev);
    }
    if Downs(c, start, prev) == 0 && TierIn(was) == TierIn(start) {
      if TierIn(Step(c, was, r)) != TierIn(was) {
        LaterTier(c, was, r);
      }
    } else {
      FallSnoc(rs);
      StepOwes(c, was, prev[|prev| - 1].avg, r);
    }
  }

  lemma UnitNonNegative(c: Config)
    requires Separated(c)
    ensures Unit(c) >= 0.0
  {
    MulNonNegative(c.thresholds.low, c.hysteresis);
  }

  lemma {:induction false} FallNonNegative(rs: seq<Reading>)
    ensures Fall(rs) >= 0.0
  {
    if |rs| > 1 {
      FallNonNegative(rs[..|rs| - 1]);
    }
  }

  lemma NoDepth(c: Config, avg: real)
    ensures Depth(c, 0, avg) == 0.0
  {
  }

  lemma NotBelowFresh(c: Config, start: Option<Factors>, r: Reading)
    requires Fresh(start)
    ensures TierIn(start) == 0 && TierIn(Step(c, start, r)) >= TierIn(start)
  {
  }

  lemma FirstTier(c: Config, start: Option<Factors>, r: Reading)
    requires Separated(c) && Fresh(start) && TierIn(Step(c, start, r)) != TierIn(start)
    ensures Depth(c, TierIn(Step(c, start, r)), r.avg) == 0.0
  {
    hide Change, Eased;
    StepTier(c, start, r);
    PlainTier(c.thresholds, r.avg);
  }

  lemma LaterTier(c: Config, was: Option<Factors>, r: Reading)
    requires Separated(c) && TierIn(Step(c, was, r)) != TierIn(was)
    ensures Depth(c, TierIn(Step(c, was, r)), r.avg) == 0.0
    ensures TierIn(Step(c, was, r)) < TierIn(was) ==> Depth(c, TierIn(was), r.avg) >= Unit(c)
  {
    hide Depth, Unit, Change, CalcVolFactor, AdjustedThresholds, Step;
    StepTier(c, was, r);
    if was.Some? {
      SwitchPays(c, was.value.vol, r.avg, TierIn(Step(c, was, r)));
    } else {
      FirstTier(c, was, r);
    }
  }

  /** NO CHATTER: over any run in normal mode, whatever the volatility factor does, the downward tier switches cost at
      least the low threshold times the hysteresis each, paid for by falls of the average volume; one is free if the
      run starts with a factor of a higher tier in the cache. */
  lemma NoChatter(c: Config, start: Option<Factors>, rs: seq<Reading>)
    requires Separated(c)
    ensures Downs(c, start, rs) as real * (c.hysteresis * c.thresholds.low) <=
            Fall(rs) + if Fresh(start) then 0.0 else c.hysteresis * c.thresholds.low
  {
    hide Unit, Copies, Depth, Run, Downs, Separated;
    CopiesIs(Downs(c, start, rs), c);
    UnitNonNegative(c);
    FallNonNegative(rs);
    NoDowns(c, start);
    if rs != [] {
      DepthNonNegative(c, TierIn(Run(c, start, rs)), rs[|rs| - 1].avg);
      if Fresh(start) {
        Owed(c, start, rs);
      } else {
        OwedFromAnywhere(c, start, rs);
      }
    }
  }

  lemma NoDowns(c: Config, start: Option<Factors>)
    ensures Copies(Downs(c, start, []), Unit(c)) == 0.0
  {
    NoCopies(Unit(c));
  }

  lemma DepthNonNegative(c: Config, tier: nat, avg: real)
    requires tier <= 3
    ensures Depth(c, tier, avg) >= 0.0
  {
  }

  lemma CopiesIs(n: nat, c: Config)
    ensures Copies(n, Unit(c)) == n as real * (c.hysteresis * c.thresholds.low)
    ensures Unit(c) == c.hysteresis * c.thresholds.low
  {
    assert Unit(c) == c.hysteresis * c.thresholds.low;
  }

  // ── Outliers ─────────────────────────────────────────────────────────

  /** Every bucket left out weighs at least the bound. */
  lemma {:induction false} LeftOut(vs: seq<real>, bound: real)
    ensures |Below(vs, bound)| <= |vs|
    ensures Sum(vs) >= Sum(Below(vs, bound)) + Copies(|vs| - |Below(vs, bound)|, bound)
  {
    hide Copies;
    if vs == [] {
      NoCopies(bound);
    } else {
      LeftOut(vs[1..], bound);
      var rest := Below(vs[1..], bound);
      assert ([vs[0]] + rest)[1..] == rest;
      if vs[0] >= bound {
        OneMore(|vs[1..]| - |rest|, bound);
      }
    }
  }

  lemma CopiesSplit(n: nat, k: nat, unit: real)
    requires k <= n
    ensures Copies(n, unit) == Copies(k, unit) + Copies(n - k, unit)
  {
    assert n as real == k as real + (n - k) as real;
  }

  lemma CopiesGrow(n: nat, unit: real)
    requires unit >= 0.0
    ensures Copies(n, unit * 3.0) >= Copies(n, unit)
  {
    MulNonNegative(n as real, unit);
    assert n as real * (unit * 3.0) == 3.0 * (n as real * unit);
  }

  lemma MeanIs(vs: seq<real>)
    requires vs != []
    ensures Copies(|vs|, Mean(vs)) == Sum(vs)
  {
    MulDiv(Sum(vs), |vs| as real);
  }

  lemma MeanAtMost(vs: seq<real>, m: real)
    requires vs != [] && Sum(vs) <= Copies(|vs|, m)
    ensures Mean(vs) <= m
  {
    MulMono(Sum(vs), m * |vs| as real, |vs| as real);
    MulDiv(m, |vs| as real);
  }

  lemma {:induction false} SumNonNegative(vs: seq<real>)
    requires forall v :: v in vs ==> v >= 0.0
    ensures Sum(vs) >= 0.0
  {
    if vs != [] {
      assert vs[0] in vs;
      assert forall v :: v in vs[1..] ==> v in vs;
      SumNonNegative(vs[1..]);
    }
  }

  lemma MeanNonNegative(vs: seq<real>)
    requires vs != [] && forall v :: v in vs ==> v >= 0.0
    ensures Mean(vs) >= 0.0
  {
    SumNonNegative(vs);
    MulMono(0.0, Sum(vs), |vs| as real);
  }

  lemma {:induction false} BelowMembers(vs: seq<real>, bound: real)
    ensures forall v :: v in Below(vs, bound) <==> v in vs && v < bound
  {
    if vs != [] {
      BelowMembers(vs[1..], bound);
      assert vs == [vs[0]] + vs[1..];
    }
  }

  /** OUTLIERS: leaving out buckets of three times the mean or more never raises the average. */
  lemma OutliersOnlyLower(vs: seq<real>)
    requires vs != [] && forall v :: v in vs ==> v >= 0.0
    ensures 0.0 <= AverageVolume(vs) <= Mean(vs)
  {
    hide Copies, Sum, Below, Mean;
    var m := Mean(vs);
    var usual := Below(vs, m * 3.0);
    MeanNonNegative(vs);
    if usual != [] {
      LeftOut(vs, m * 3.0);
      BelowMembers(vs, m * 3.0);
      MeanIs(vs);
      CopiesGrow(|vs| - |usual|, m);
      CopiesSplit(|vs|, |usual|, m);
      MeanAtMost(usual, m);
      MeanNonNegative(usual);
    }
  }

  // ── Zero factors ─────────────────────────────────────────────────────

  function Recalculate(c: Config, was: Option<Factors>, ss: seq<Snapshot>): Outcome {
    Update(c.hysteresis, was, CalcFactors(c, was, ss))
  }

  /** The cache after recalculating on one snapshot history after the other; a failed one leaves it alone. */
  function Cached(c: Config, histories: seq<seq<Snapshot>>): Option<Factors> {
    if histories == [] then None
    else
      var was := Cached(c, histories[..|histories| - 1]);
      var o := Recalculate(c, was, histories[|histories| - 1]);
      if o.Used? then Some(o.factors) else was
  }

  /** Factors one can divide by. */
  ghost predicate Divisible(f: Option<Factors>) {
    f.Some? ==> f.value.vol != 0.0 && f.value.regime != 0.0
  }

  /** No factor for an empty history is zero, and none for a short one, where one bucket can be too few. */
  ghost predicate Nonzero(c: Config) {
    && !c.newMarketNoOrder && c.conservativeVol != 0.0 && c.conservativeRegime != 0.0
    && (c.minBuckets > 1 ==> c.transitionVol != 0.0 && c.transitionRegime != 0.0)
  }

  lemma CalcDivisible(c: Config, was: Option<Factors>, ss: seq<Snapshot>)
    requires Nonzero(c)
    ensures Divisible(Some(CalcFactors(c, was, ss)))
  {
    hide AverageVolume, AdjustedThresholds, RegimeThresholds, CountOf;
  }

  /** With such factors no recalculation of any run divides by zero. */
  lemma {:induction false} NeverRaises(c: Config, histories: seq<seq<Snapshot>>, ss: seq<Snapshot>)
    requires Nonzero(c)
    ensures Divisible(Cached(c, histories))
    ensures Recalculate(c, Cached(c, histories), ss).Used?
  {
    hide CalcFactors, Change, Nonzero;
    if histories != [] {
      var n := |histories| - 1;
      NeverRaises(c, histories[..n], histories[n]);
      CalcDivisible(c, Cached(c, histories[..n]), histories[n]);
    }
  }

  /** Otherwise the second recalculation on an empty or one-bucket history does. */
  lemma RaisingRun(c: Config) returns (hs: seq<seq<Snapshot>>, ss: seq<Snapshot>)
    requires !Nonzero(c)
    ensures Recalculate(c, Cached(c, hs), ss).ZeroDivisionError?
  {
    hide Change, NormalFactors;
    var zero := c.newMarketNoOrder || c.conservativeVol == 0.0 || c.conservativeRegime == 0.0;
    ss := if zero then [] else [Snapshot(0.0, Normal)];
    hs := [ss];
    assert hs[..0] == [];
    assert Cached(c, hs) == Some(CalcFactors(c, None, ss));
  }

  /** NO FAILURE: a configuration divides by zero on some run if and only if one of those factors is zero. */
  lemma RaisesOnSomeRun(c: Config)
    ensures (exists hs, ss :: Recalculate(c, Cached(c, hs), ss).ZeroDivisionError?) <==> !Nonzero(c)
  {
    hide Recalculate, Cached;
    if Nonzero(c) {
      forall hs, ss
        ensures !Recalculate(c, Cached(c, hs), ss).ZeroDivisionError?
      {
        NeverRaises(c, hs, ss);
      }
    } else {
      var hs, ss := RaisingRun(c);
    }
  }

  /** Too few buckets for the normal mode. */
  predicate Short(c: Config, ss: seq<Snapshot>) { |Recent(ss)| < 1 || |Recent(ss)| < c.minBuckets }

  /** A factor in conservative mode that cannot be divided by. */
  predicate Stuck(f: Option<Factors>) {
    f.Some? && f.value.conservative && (f.value.vol == 0.0 || f.value.regime == 0.0)
  }

  lemma ModeIsLength(c: Config, was: Option<Factors>, ss: seq<Snapshot>)
    ensures CalcFactors(c, was, ss).conservative <==> Short(c, ss)
  {
    hide AverageVolume, CalcVolFactor, AdjustedThresholds, CalcVolRegimeFactor;
  }

  /** A stuck market fails exactly on a short history. */
  lemma StuckFails(c: Config, was: Option<Factors>, ss: seq<Snapshot>)
    requires Stuck(was)
    ensures Recalculate(c, was, ss).ZeroDivisionError? <==> Short(c, ss)
  {
    hide CalcFactors, Change, Short;
    ModeIsLength(c, was, ss);
  }

  lemma CalcNormal(c: Config, was: Option<Factors>, ss: seq<Snapshot>)
    ensures var f := CalcFactors(c, was, ss); !f.conservative ==> f.vol > 0.0 && f.regime > 0.0
  {
    hide AverageVolume, AdjustedThresholds, RegimeThresholds, CountOf;
  }

  /** A factor computed in normal mode is never zero. */
  lemma {:induction false} NormalIsPositive(c: Config, hs: seq<seq<Snapshot>>)
    ensures var f := Cached(c, hs); f.Some? && !f.value.conservative ==> f.value.vol > 0.0 && f.value.regime > 0.0
  {
    hide CalcFactors, Change;
    if hs != [] {
      var n := |hs| - 1;
      NormalIsPositive(c, hs[..n]);
      CalcNormal(c, Cached(c, hs[..n]), hs[n]);
    }
  }

  /** FAILURE: for every configuration and after any run, a recalculation divides by zero exactly if the cached factor
      was set in conservative mode to zero and the history is still short. */
  lemma {:induction false} RaisesIff(c: Config, hs: seq<seq<Snapshot>>, ss: seq<Snapshot>)
    ensures Recalculate(c, Cached(c, hs), ss).ZeroDivisionError? <==> Stuck(Cached(c, hs)) && Short(c, ss)
  {
    hide CalcFactors, Change, Short, Cached;
    NormalIsPositive(c, hs);
    ModeIsLength(c, Cached(c, hs), ss);
  }

  /** And short histories leave it as it is. */
  lemma {:induction false} StaysStuck(c: Config, before: seq<seq<Snapshot>>, hs: seq<seq<Snapshot>>)
    requires Stuck(Cached(c, before)) && forall ss :: ss in hs ==> Short(c, ss)
    ensures Cached(c, before + hs) == Cached(c, before)
  {
    hide Recalculate, Short, Stuck;
    if hs == [] {
      assert before + hs == before;
    } else {
      var n := |hs| - 1;
      assert (before + hs)[..|before| + n] == before + hs[..n];
      assert hs[n] in hs && forall ss :: ss in hs[..n] ==> ss in hs;
      StaysStuck(c, before, hs[..n]);
      StuckFails(c, Cached(c, before), hs[n]);
    }
  }

  /** Configured factors of a sensible sign, new markets unquoted. */
  ghost predicate Unquoted(c: Config) {
    && c.newMarketNoOrder && c.hysteresis <= 1.0
    && c.transitionVol >= 0.0 && c.conservativeRegime > 0.0 && c.transitionRegime > 0.0
  }

  /** Cached factors then are positive, or zero in conservative mode. */
  ghost predicate Sane(f: Option<Factors>) {
    f.Some? ==> f.value.vol >= 0.0 && f.value.regime > 0.0 && (f.value.vol == 0.0 ==> f.value.conservative)
  }

  lemma CalcSane(c: Config, was: Option<Factors>, ss: seq<Snapshot>)
    requires Unquoted(c)
    ensures Sane(Some(CalcFactors(c, was, ss)))
  {
    hide AverageVolume, AdjustedThresholds, RegimeThresholds, CountOf;
  }

  lemma {:induction false} AlwaysSane(c: Config, hs: seq<seq<Snapshot>>)
    requires Unquoted(c)
    ensures Sane(Cached(c, hs))
  {
    hide CalcFactors, Change, Unquoted;
    if hs != [] {
      var n := |hs| - 1;
      AlwaysSane(c, hs[..n]);
      CalcSane(c, Cached(c, hs[..n]), hs[n]);
    }
  }

  lemma ChangeToZero(from: real)
    requires from > 0.0
    ensures Change(from, 0.0) == 1.0
  {
  }

  /** Without history the factor becomes zero, whatever mode the market was in. */
  lemma EmptyHistoryZeroes(c: Config, was: Option<Factors>)
    requires Unquoted(c) && Sane(was)
    ensures var o := Recalculate(c, was, []);
      var now := if o.Used? then Some(o.factors) else was;
      now.Some? && now.value.vol == 0.0 && now.value.conservative
  {
    hide Change;
    if was.Some? && was.value.vol > 0.0 {
      ChangeToZero(was.value.vol);
    }
  }

  /** ZERO STICKS: with new markets unquoted, a market seen without history at any point of any run gets factor zero.
      From then on it keeps it through every short history, and a recalculation fails exactly on a short one. */
  lemma ZeroFactorSticks(c: Config, before: seq<seq<Snapshot>>, hs: seq<seq<Snapshot>>, ss: seq<Snapshot>)
    requires Unquoted(c) && forall s :: s in hs ==> Short(c, s)
    ensures var was := Cached(c, before + [[]] + hs);
      && was.Some? && was.value.vol == 0.0 && was.value.conservative
      && (Recalculate(c, was, ss).ZeroDivisionError? <==> Short(c, ss))
  {
    hide Recalculate, Short, Unquoted, Sane;
    var nothing: seq<Snapshot> := [];
    var seen := before + [nothing];
    AlwaysSane(c, before);
    assert seen[..|before|] == before && seen[|before|] == nothing;
    EmptyHistoryZeroes(c, Cached(c, before));
    assert Stuck(Cached(c, seen));
    StaysStuck(c, seen, hs);
    StuckFails(c, Cached(c, seen), ss);
  }
}
