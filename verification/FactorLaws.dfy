/** What the adaptive factors are computed from and when new ones are adopted (src/polymaker/catalog/adaptive.py). */
module FactorLaws {
  import opened Numerics
  import opened Dict
  import opened Adaptive
  import H = Hysteresis

  // ── The average volume ───────────────────────────────────────────────

  lemma {:induction false} BelowIsFilter(vs: seq<real>, bound: real)
    ensures forall v :: multiset(Below(vs, bound))[v] == if v < bound then multiset(vs)[v] else 0
  {
    if vs != [] {
      BelowIsFilter(vs[1..], bound);
      assert vs == [vs[0]] + vs[1..];
      assert multiset(vs) == multiset([vs[0]]) + multiset(vs[1..]);
    }
  }

  /** AVERAGE: the mean of the volumes below three times the mean of all; of all, if none is below. */
  lemma AverageIs(vs: seq<real>) returns (bound: real, usual: seq<real>)
    requires vs != []
    ensures Times(bound, |vs| as real) == 3.0 * Sum(vs)
    ensures forall v :: multiset(usual)[v] == if v < bound then multiset(vs)[v] else 0
    ensures if usual == [] then Times(AverageVolume(vs), |vs| as real) == Sum(vs)
            else Times(AverageVolume(vs), |usual| as real) == Sum(usual)
  {
    bound := Mean(vs) * 3.0;
    usual := Below(vs, bound);
    BelowIsFilter(vs, bound);
    MeanOf(vs);
    if usual != [] {
      MeanOf(usual);
    }
    assert Times(bound, |vs| as real) == 3.0 * Times(Mean(vs), |vs| as real);
  }

  lemma MeanOf(vs: seq<real>)
    requires vs != []
    ensures Times(Mean(vs), |vs| as real) == Sum(vs)
  {
    MulDiv(Sum(vs), |vs| as real);
  }

  // ── The share of a regime ────────────────────────────────────────────

  /** The snapshots of one regime. */
  ghost function Those(ss: seq<Snapshot>, r: VolRegime): set<int> {
    set i | 0 <= i < |ss| && ss[i].volRegime == r
  }

  lemma {:induction false} CountSnoc(ss: seq<Snapshot>, s: Snapshot, r: VolRegime)
    ensures CountOf(ss + [s], r) == CountOf(ss, r) + if s.volRegime == r then 1 else 0
  {
    if ss == [] {
      assert ([s])[1..] == [] && [] + [s] == [s];
    } else {
      CountSnoc(ss[1..], s, r);
      assert (ss + [s])[1..] == ss[1..] + [s];
    }
  }

  lemma {:induction false} CountIs(ss: seq<Snapshot>, r: VolRegime)
    ensures CountOf(ss, r) == |Those(ss, r)|
  {
    if ss == [] {
      assert Those(ss, r) == {};
    } else {
      var n := |ss| - 1;
      CountIs(ss[..n], r);
      CountSnoc(ss[..n], ss[n], r);
      assert ss == ss[..n] + [ss[n]];
      if ss[n].volRegime == r {
        assert Those(ss, r) == Those(ss[..n], r) + {n};
      } else {
        assert Those(ss, r) == Those(ss[..n], r);
      }
    }
  }

  /** VOLATILITY FACTOR, nothing cached: low if four fifths of the snapshots are, else high if half of them are. */
  lemma PlainRegimeIs(ss: seq<Snapshot>, h: real)
    requires 0 < |ss| <= 12
    ensures CalcVolRegimeFactor(ss, None, h) ==
            if 5 * |Those(ss, Low)| >= 4 * |ss| then 0.8 else if 2 * |Those(ss, High)| >= |ss| then 1.5 else 1.0
  {
    CountIs(ss, Low);
    CountIs(ss, High);
    RatioReaches(CountOf(ss, Low), |ss|, 4, 5);
    RatioReaches(CountOf(ss, High), |ss|, 1, 2);
  }

  lemma RatioReaches(k: nat, n: nat, a: nat, b: nat)
    requires n > 0 && b > 0
    ensures k as real / n as real >= a as real / b as real <==> b * k >= a * n
  {
    var (x, y) := (k as real / n as real, a as real / b as real);
    MulDiv(k as real, n as real);
    MulDiv(a as real, b as real);
    var t := n as real * b as real;
    MulNonNegative(n as real, b as real);
    assert t > 0.0;
    MulMono(y, x, t);
    assert x * t == (x * n as real) * b as real == k as real * b as real == (b * k) as real;
    assert y * t == (y * b as real) * n as real == a as real * n as real == (a * n) as real;
  }

  // ── The factors of a history ─────────────────────────────────────────

  /** FACTORS: of the newest twelve snapshots at most. Without any, nothing is quoted or the conservative factors are
      used; with fewer than needed, the transition factors; otherwise the factors of volume and volatility. */
  lemma FactorsAre(c: Config, was: Option<Factors>, ss: seq<Snapshot>)
    ensures var n := if |ss| > 12 then 12 else |ss|;
      var f := CalcFactors(c, was, ss);
      && f.buckets == n
      && (f.conservative <==> n == 0 || n < c.minBuckets)
      && (n == 0 ==> f.vol == (if c.newMarketNoOrder then 0.0 else c.conservativeVol) && f.regime == c.conservativeRegime)
      && (0 < n < c.minBuckets ==> f.vol == c.transitionVol && f.regime == c.transitionRegime)
      && (!f.conservative ==>
            && f.vol == CalcVolFactor(AverageVolume(Volumes(ss[..n])),
                                      AdjustedThresholds(c.thresholds, c.hysteresis, if was.Some? then Some(was.value.vol) else None))
            && f.regime == CalcVolRegimeFactor(ss[..n], if was.Some? then Some(was.value.regime) else None, c.hysteresis))
  {
    hide AverageVolume, CalcVolFactor, AdjustedThresholds, RegimeFor, RegimeThresholds, CountOf;
    assert ss[..|ss|] == ss;
    if |ss| > 0 {
      SameRecent(ss, if was.Some? then Some(was.value.regime) else None, c.hysteresis);
    }
  }

  lemma SameRecent(ss: seq<Snapshot>, current: Option<real>, h: real)
    requires ss != []
    ensures CalcVolRegimeFactor(Recent(ss), current, h) == CalcVolRegimeFactor(ss, current, h)
    ensures Recent(Recent(ss)) == Recent(ss) && Recent(ss) == ss[..if |ss| > 12 then 12 else |ss|]
  {
    hide RegimeFor, RegimeThresholds, CountOf;
  }

  /** VOLUME FACTOR: 0.3, 0.7, 1.0 or 1.5 by the thresholds that the average volume has reached. */
  lemma VolFactorIs(avg: real, t: Thresholds)
    requires t.low <= t.mid <= t.high
    ensures var f := CalcVolFactor(avg, t);
      && f in {0.3, 0.7, 1.0, 1.5}
      && (f >= 0.7 <==> avg >= t.low) && (f >= 1.0 <==> avg >= t.mid) && (f >= 1.5 <==> avg >= t.high)
  {
  }

  // ── Adoption ─────────────────────────────────────────────────────────

  /** One factor is off by the hysteresis or more, relative to the one in use. */
  ghost predicate Off(used: real, computed: real, h: real) {
    computed - used >= h * used || used - computed >= h * used
  }

  lemma ChangeIsOff(used: real, computed: real, h: real)
    requires used > 0.0
    ensures Change(used, computed) >= h <==> Off(used, computed, h)
  {
    var d := Abs(computed - used);
    MulDiv(d, used);
    MulMono(h, d / used, used);
  }

  /** ADOPTION: new factors are adopted if none are in use, if the mode changes, or exactly if one of them is off by the
      hysteresis or more; otherwise those in use stay. */
  lemma AdoptedIff(c: Config, was: Option<Factors>, ss: seq<Snapshot>)
    requires was.Some? ==> was.value.vol > 0.0 && was.value.regime > 0.0
    ensures var next := CalcFactors(c, was, ss);
      H.Recalculate(c, was, ss) ==
      if was.None? || was.value.conservative != next.conservative
         || Off(was.value.vol, next.vol, c.hysteresis) || Off(was.value.regime, next.regime, c.hysteresis)
      then Used(next, true) else Used(was.value, false)
  {
    hide CalcFactors, Change, Off;
    if was.Some? {
      var next := CalcFactors(c, was, ss);
      ChangeIsOff(was.value.vol, next.vol, c.hysteresis);
      ChangeIsOff(was.value.regime, next.regime, c.hysteresis);
    }
  }

  /** CLOSE: whatever is used after a recalculation that succeeds is of the computed mode and, from a cache that can be
      divided by, off by less than the hysteresis, if that is positive. */
  lemma UsedIsClose(c: Config, was: Option<Factors>, ss: seq<Snapshot>)
    requires (was.Some? ==> was.value.vol > 0.0 && was.value.regime > 0.0) && c.hysteresis > 0.0
    ensures var (o, next) := (H.Recalculate(c, was, ss), CalcFactors(c, was, ss));
      && o.Used? && o.factors.conservative == next.conservative
      && (o.factors == next || (!Off(o.factors.vol, next.vol, c.hysteresis) && !Off(o.factors.regime, next.regime, c.hysteresis)))
  {
    hide CalcFactors, Off, H.Recalculate;
    AdoptedIff(c, was, ss);
  }
}
