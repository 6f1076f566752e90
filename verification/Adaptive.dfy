/** Adaptive sizing factors and their hysteresis (src/polymaker/catalog/adaptive.py). */
module Adaptive {
  import opened Numerics
  import opened Dict

  datatype Factors = Factors(vol: real, regime: real, buckets: nat, conservative: bool)

  datatype Thresholds = Thresholds(low: real, mid: real, high: real)

  datatype VolRegime = Low | Normal | High

  datatype Snapshot = Snapshot(volumeDelta: real, volRegime: VolRegime)

  datatype Config = Config(hysteresis: real, interval: real, conservativeVol: real, conservativeRegime: real,
                           transitionVol: real, transitionRegime: real, newMarketNoOrder: bool, minBuckets: int,
                           thresholds: Thresholds)

  /** The factors in use and whether they have just changed, or the exception of dividing by a zero factor. */
  datatype Outcome = Used(factors: Factors, switched: bool) | ZeroDivisionError

  // ── Volume factor ────────────────────────────────────────────────────

  function CalcVolFactor(avg: real, t: Thresholds): real {
    if avg < t.low then 0.3 else if avg < t.mid then 0.7 else if avg < t.high then 1.0 else 1.5
  }

  function Eased(t: real, hysteresis: real): real { t * (1.0 - hysteresis) }

  /** The threshold that holds up the current factor is eased; the others stay. */
  function AdjustedThresholds(t: Thresholds, hysteresis: real, current: Option<real>): Thresholds {
    if current.None? then t
    else if current.value >= 1.5 then t.(high := Eased(t.high, hysteresis))
    else if current.value >= 1.0 then t.(mid := Eased(t.mid, hysteresis))
    else if current.value >= 0.7 then t.(low := Eased(t.low, hysteresis))
    else t
  }

  function Below(vs: seq<real>, bound: real): seq<real> {
    if vs == [] then []
    else if vs[0] < bound then [vs[0]] + Below(vs[1..], bound) else Below(vs[1..], bound)
  }

  function Mean(vs: seq<real>): real
    requires vs != []
  {
    Sum(vs) / |vs| as real
  }

  /** The mean volume without buckets of three times the mean or more. */
  function AverageVolume(vs: seq<real>): real
    requires vs != []
  {
    var usual := Below(vs, Mean(vs) * 3.0);
    if usual == [] then Mean(vs) else Mean(usual)
  }

  /** The newest twelve snapshots. */
  function Recent(ss: seq<Snapshot>): seq<Snapshot> { if |ss| > 12 then ss[..12] else ss }

  // ── Volatility factor ────────────────────────────────────────────────

  function CountOf(ss: seq<Snapshot>, r: VolRegime): nat {
    if ss == [] then 0 else CountOf(ss[1..], r) + if ss[0].volRegime == r then 1 else 0
  }

  /** Shares of low and high buckets that it takes, eased for the regime in force, raised for leaving the normal one. */
  function RegimeThresholds(current: Option<real>, h: real): (real, real) {
    if current.None? then (0.8, 0.5)
    else if current.value >= 1.5 then (0.8, 0.5 * (1.0 - h))
    else if current.value <= 0.8 then (0.8 * (1.0 - h), 0.5)
    else (0.8, 0.5 * (1.0 + h))
  }

  function RegimeFor(lowRatio: real, highRatio: real, t: (real, real)): real {
    if lowRatio >= t.0 then 0.8 else if highRatio >= t.1 then 1.5 else 1.0
  }

  function CalcVolRegimeFactor(ss: seq<Snapshot>, current: Option<real>, h: real): real {
    if ss == [] then 1.0
    else
      var recent := Recent(ss);
      RegimeFor(CountOf(recent, Low) as real / |recent| as real, CountOf(recent, High) as real / |recent| as real,
                RegimeThresholds(current, h))
  }

  // ── Recalculation ────────────────────────────────────────────────────

  function Volumes(ss: seq<Snapshot>): (vs: seq<real>)
    ensures |vs| == |ss|
  {
    seq(|ss|, i requires 0 <= i < |ss| => ss[i].volumeDelta)
  }

  /** Candidate factors for an average volume and a volatility factor in normal mode. */
  function NormalFactors(c: Config, was: Option<Factors>, avg: real, regime: real, buckets: nat): Factors {
    var current := if was.Some? then Some(was.value.vol) else None;
    Factors(CalcVolFactor(avg, AdjustedThresholds(c.thresholds, c.hysteresis, current)), regime, buckets, false)
  }

  function CalcFactors(c: Config, was: Option<Factors>, all: seq<Snapshot>): Factors {
    var ss := Recent(all);
    if |ss| < 1 then Factors(if c.newMarketNoOrder then 0.0 else c.conservativeVol, c.conservativeRegime, 0, true)
    else if |ss| < c.minBuckets then Factors(c.transitionVol, c.transitionRegime, |ss|, true)
    else
      NormalFactors(c, was, AverageVolume(Volumes(ss)),
                    CalcVolRegimeFactor(ss, if was.Some? then Some(was.value.regime) else None, c.hysteresis), |ss|)
  }

  /** Relative change from an old factor. */
  function Change(was: real, next: real): real
    requires was != 0.0
  {
    Abs(next - was) / was
  }

  /** What the cache makes of new factors: adopt them if it is empty, if the mode changes, or if either factor moved by
      the hysteresis; otherwise keep the old ones. */
  function Update(hysteresis: real, was: Option<Factors>, next: Factors): Outcome {
    if was.None? || was.value.conservative != next.conservative then Used(next, true)
    else if was.value.vol == 0.0 || was.value.regime == 0.0 then ZeroDivisionError
    else if Change(was.value.vol, next.vol) >= hysteresis || Change(was.value.regime, next.regime) >= hysteresis
    then Used(next, true)
    else Used(was.value, false)
  }

  class AdaptiveCache {
    const hysteresis: real
    var cache: map<string, Factors>

    constructor (hysteresis: real)
      ensures this.hysteresis == hysteresis && cache == map[]
    {
      this.hysteresis, cache := hysteresis, map[];
    }

    function Get(cid: string): Option<Factors>
      reads this
    {
      if cid in cache then Some(cache[cid]) else None
    }

    method MaybeUpdate(cid: string, next: Factors) returns (r: Outcome)
      modifies this
      ensures r == Update(hysteresis, old(Get(cid)), next)
      ensures r.Used? ==> cache == old(cache)[cid := r.factors]
      ensures r.ZeroDivisionError? ==> cache == old(cache)
    {
      if cid !in cache {
        cache := cache[cid := next];
        return Used(next, true);
      }
      var was := cache[cid];
      if was.conservative != next.conservative {
        cache := cache[cid := next];
        return Used(next, true);
      }
      if was.vol == 0.0 {
        return ZeroDivisionError;
      }
      var volChange := Abs(next.vol - was.vol) / was.vol;
      if was.regime == 0.0 {
        return ZeroDivisionError;
      }
      var regimeChange := Abs(next.regime - was.regime) / was.regime;
      if volChange >= hysteresis || regimeChange >= hysteresis {
        cache := cache[cid := next];
        return Used(next, true);
      }
      assert cache[cid := was] == cache;
      r := Used(was, false);
    }
  }

  class AdaptiveEngine {
    const config: Config
    const cache: AdaptiveCache
    var lastRecalc: map<string, real>

    ghost predicate Valid()
      reads this
    {
      cache.hysteresis == config.hysteresis
    }

    constructor (config: Config)
      ensures Valid() && this.config == config && fresh(cache) && cache.cache == map[] && lastRecalc == map[]
    {
      this.config := config;
      this.cache := new AdaptiveCache(config.hysteresis);
      this.lastRecalc := map[];
    }

    function Last(cid: string): real
      reads this
    {
      if cid in lastRecalc then lastRecalc[cid] else 0.0
    }

    /** The factors in use at `now`: the cached ones until the interval is over, then recalculated ones. A failed
        recalculation leaves everything as it was, so it is attempted again on the next call. */
    method GetFactors(cid: string, snapshots: seq<Snapshot>, now: real) returns (r: Outcome)
      requires Valid()
      modifies this`lastRecalc, cache
      ensures Valid()
      ensures var was := old(cache.Get(cid));
        if now - old(Last(cid)) < config.interval && was.Some? then
          r == Used(was.value, false) && cache.cache == old(cache.cache) && lastRecalc == old(lastRecalc)
        else
          && r == Update(config.hysteresis, was, CalcFactors(config, was, snapshots))
          && (r.Used? ==> cache.cache == old(cache.cache)[cid := r.factors] && lastRecalc == old(lastRecalc)[cid := now])
          && (r.ZeroDivisionError? ==> cache.cache == old(cache.cache) && lastRecalc == old(lastRecalc))
    {
      var was := cache.Get(cid);
      if now - Last(cid) < config.interval {
        if was.Some? {
          return Used(was.value, false);
        }
      }
      r := cache.MaybeUpdate(cid, CalcFactors(config, was, snapshots));
      if r.Used? {
        lastRecalc := lastRecalc[cid := now];
      }
    }
  }
}
