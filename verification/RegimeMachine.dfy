/** The per-market regime and its event cool-off (src/polymaker/strategy/regime.py). */
module RegimeMachine {
  import opened Numerics
  import opened Domain
  import opened Dict

  datatype Inputs = Inputs(now: real, tick: real, fv: real, prevFv: Option<real>, volRatio: real, flowZ: real,
                           inventoryUtil: real, hoursToEnd: Option<real>, sweepFlagged: bool,
                           marketResolved: bool, wsStale: bool, riskHalt: bool, riskReduceOnly: bool)

  datatype Profile = Profile(haltBeforeHours: real, reduceOnlyHours: real, eventCooloffS: real, eventJumpTicks: int,
                             trendFlowZ: real, trendVolRatio: real)

  /** Kill switch, blindness, resolution, or the halt window before the end. */
  predicate Halted(inp: Inputs, p: Profile) {
    || inp.riskHalt || inp.wsStale || inp.marketResolved
    || (inp.hoursToEnd.Some? && inp.hoursToEnd.value <= p.haltBeforeHours)
  }

  /** A fresh sweep, or a fair-value jump of at least `eventJumpTicks` ticks. */
  predicate Triggered(inp: Inputs, p: Profile)
    requires inp.tick > 0.0
  {
    inp.sweepFlagged ||
    (if inp.prevFv.Some? then Abs(inp.fv - inp.prevFv.value) / inp.tick else 0.0) >= p.eventJumpTicks as real
  }

  function Decision(until: real, inp: Inputs, p: Profile): (r: (Regime, real))
    requires inp.tick > 0.0
  {
    if Halted(inp, p) then (HALTED, until)
    else if Triggered(inp, p) then (EVENT, inp.now + p.eventCooloffS)
    else if inp.now < until then (EVENT, until)
    else if inp.riskReduceOnly || inp.inventoryUtil >= 1.0 then (REDUCE_ONLY, until)
    else if inp.hoursToEnd.Some? && inp.hoursToEnd.value <= p.reduceOnlyHours then (REDUCE_ONLY, until)
    else if Abs(inp.flowZ) >= p.trendFlowZ || inp.volRatio >= p.trendVolRatio then (TRENDING, until)
    else (QUIET, until)
  }

  class RegimeMachine {
    var eventUntil: real

    constructor ()
      ensures eventUntil == 0.0
    {
      eventUntil := 0.0;
    }

    method Decide(inp: Inputs, p: Profile) returns (r: Regime)
      requires inp.tick > 0.0
      modifies this
      ensures (r, eventUntil) == Decision(old(eventUntil), inp, p)
    {
      if inp.riskHalt || inp.wsStale || inp.marketResolved {
        return HALTED;
      }
      if inp.hoursToEnd.Some? && inp.hoursToEnd.value <= p.haltBeforeHours {
        return HALTED;
      }
      var jump := if inp.prevFv.Some? then Abs(inp.fv - inp.prevFv.value) / inp.tick else 0.0;
      if inp.sweepFlagged || jump >= p.eventJumpTicks as real {
        eventUntil := inp.now + p.eventCooloffS;
        return EVENT;
      }
      if inp.now < eventUntil {
        return EVENT;
      }
      if inp.riskReduceOnly || inp.inventoryUtil >= 1.0 {
        return REDUCE_ONLY;
      }
      if inp.hoursToEnd.Some? && inp.hoursToEnd.value <= p.reduceOnlyHours {
        return REDUCE_ONLY;
      }
      if Abs(inp.flowZ) >= p.trendFlowZ || inp.volRatio >= p.trendVolRatio {
        return TRENDING;
      }
      r := QUIET;
    }

    method CooloffRemaining(now: real) returns (s: real)
      ensures s >= 0.0 && (s > 0.0 <==> now < eventUntil) && (s > 0.0 ==> now + s == eventUntil)
    {
      s := Max(0.0, eventUntil - now);
    }
  }

  // ── Runs of decisions ────────────────────────────────────────────────

  /** The cool-off end before decision `i`. */
  function Until(inputs: seq<Inputs>, p: Profile, i: nat): real
    requires i <= |inputs| && forall k :: 0 <= k < |inputs| ==> inputs[k].tick > 0.0
  {
    if i == 0 then 0.0 else Decision(Until(inputs, p, i - 1), inputs[i - 1], p).1
  }

  /** The regime of decision `i`. */
  function RegimeAt(inputs: seq<Inputs>, p: Profile, i: nat): Regime
    requires i < |inputs| && forall k :: 0 <= k < |inputs| ==> inputs[k].tick > 0.0
  {
    Decision(Until(inputs, p, i), inputs[i], p).0
  }

  /** A run: positive ticks, a clock that never goes back and starts at or after zero. */
  ghost predicate Clocked(inputs: seq<Inputs>) {
    && (forall i :: 0 <= i < |inputs| ==> inputs[i].tick > 0.0 && inputs[i].now >= 0.0)
    && (forall i, j :: 0 <= i <= j < |inputs| ==> inputs[i].now <= inputs[j].now)
  }

  /** Decision `i` is a non-halted sweep or jump. */
  ghost predicate Fires(inputs: seq<Inputs>, p: Profile, i: nat)
    requires i < |inputs| && inputs[i].tick > 0.0
  {
    !Halted(inputs[i], p) && Triggered(inputs[i], p)
  }

  /** Some earlier decision fired less than the cool-off before decision `j`. */
  ghost predicate CoolingOff(inputs: seq<Inputs>, p: Profile, j: nat)
    requires j < |inputs| && Clocked(inputs)
  {
    exists i :: 0 <= i < j && Fires(inputs, p, i) && inputs[j].now < inputs[i].now + p.eventCooloffS
  }

  /** The cool-off end is that of the last decision that fired: no earlier one is later, and it was some decision's. */
  lemma {:induction false} UntilIsLatest(inputs: seq<Inputs>, p: Profile, j: nat)
    requires Clocked(inputs) && j <= |inputs|
    ensures forall i :: 0 <= i < j && Fires(inputs, p, i) ==> inputs[i].now + p.eventCooloffS <= Until(inputs, p, j)
    ensures Until(inputs, p, j) == 0.0 ||
            exists i :: 0 <= i < j && Fires(inputs, p, i) && Until(inputs, p, j) == inputs[i].now + p.eventCooloffS
  {
    if j > 0 {
      UntilIsLatest(inputs, p, j - 1);
      if Fires(inputs, p, j - 1) {
        assert Until(inputs, p, j) == inputs[j - 1].now + p.eventCooloffS;
      } else {
        assert Until(inputs, p, j) == Until(inputs, p, j - 1);
      }
    }
  }

  /** COOL-OFF: in any run, a non-halted decision is EVENT exactly when it fires itself or an earlier one fired
      less than the cool-off ago. */
  lemma EventIffCoolingOff(inputs: seq<Inputs>, p: Profile, j: nat)
    requires Clocked(inputs) && j < |inputs| && !Halted(inputs[j], p)
    ensures RegimeAt(inputs, p, j) == EVENT <==> Fires(inputs, p, j) || CoolingOff(inputs, p, j)
  {
    UntilIsLatest(inputs, p, j);
    var until := Until(inputs, p, j);
    if inputs[j].now < until {
      var i :| 0 <= i < j && Fires(inputs, p, i) && until == inputs[i].now + p.eventCooloffS;
      assert CoolingOff(inputs, p, j);
    }
  }

  // ── The whole priority order, in the terms of the inputs ─────────────

  /** Nothing may be quoted: kill switch, stale feed, resolution, or the halt window before the end. */
  ghost predicate MustHalt(inp: Inputs, p: Profile) {
    inp.riskHalt || inp.wsStale || inp.marketResolved || (inp.hoursToEnd.Some? && inp.hoursToEnd.value <= p.haltBeforeHours)
  }

  /** A sweep, or a move of fair value by the jump ticks or more. */
  ghost predicate Shock(inp: Inputs, p: Profile) {
    inp.sweepFlagged ||
    (if inp.prevFv.Some? then Abs(inp.fv - inp.prevFv.value) else 0.0) >= p.eventJumpTicks as real * inp.tick
  }

  /** A shock at decision `i` still counts at decision `j`. */
  ghost predicate Shaken(inputs: seq<Inputs>, p: Profile, i: nat, j: nat)
    requires i <= j < |inputs|
  {
    !MustHalt(inputs[i], p) && Shock(inputs[i], p) && (i == j || inputs[j].now < inputs[i].now + p.eventCooloffS)
  }

  /** Only exits: the risk manager says so, the inventory is at its cap, or the end is near. */
  ghost predicate MustReduce(inp: Inputs, p: Profile) {
    inp.riskReduceOnly || inp.inventoryUtil >= 1.0 || (inp.hoursToEnd.Some? && inp.hoursToEnd.value <= p.reduceOnlyHours)
  }

  /** One-sided flow or elevated volatility. */
  ghost predicate Runs(inp: Inputs, p: Profile) {
    inp.flowZ >= p.trendFlowZ || -inp.flowZ >= p.trendFlowZ || inp.volRatio >= p.trendVolRatio
  }

  lemma ShockIsTriggered(inp: Inputs, p: Profile)
    requires inp.tick > 0.0
    ensures Shock(inp, p) <==> Triggered(inp, p)
  {
    var move := if inp.prevFv.Some? then Abs(inp.fv - inp.prevFv.value) else 0.0;
    MulDiv(move, inp.tick);
    MulMono(p.eventJumpTicks as real, move / inp.tick, inp.tick);
  }

  /** REGIME: in any run every decision follows the priority order, in the terms of its inputs. */
  lemma RegimeFollowsInputs(inputs: seq<Inputs>, p: Profile, j: nat)
    requires Clocked(inputs) && j < |inputs|
    ensures var (r, inp) := (RegimeAt(inputs, p, j), inputs[j]);
      r == if MustHalt(inp, p) then HALTED
           else if exists i :: 0 <= i <= j && Shaken(inputs, p, i, j) then EVENT
           else if MustReduce(inp, p) then REDUCE_ONLY
           else if Runs(inp, p) then TRENDING else QUIET
  {
    hide Triggered, Until;
    forall i | 0 <= i <= j
      ensures Shaken(inputs, p, i, j) <==>
              Fires(inputs, p, i) && (i == j || inputs[j].now < inputs[i].now + p.eventCooloffS)
    {
      ShockIsTriggered(inputs[i], p);
    }
    if !MustHalt(inputs[j], p) {
      EventIffCoolingOff(inputs, p, j);
      if CoolingOff(inputs, p, j) {
        var i :| 0 <= i < j && Fires(inputs, p, i) && inputs[j].now < inputs[i].now + p.eventCooloffS;
        assert Shaken(inputs, p, i, j);
      }
      if Fires(inputs, p, j) {
        assert Shaken(inputs, p, j, j);
      }
    }
  }

  /** During the cool-off nothing but EVENT or HALTED is ever decided. */
  lemma CooloffIsSilent(inputs: seq<Inputs>, p: Profile, i: nat, j: nat)
    requires Clocked(inputs) && i <= j < |inputs| && Fires(inputs, p, i)
    requires inputs[j].now < inputs[i].now + p.eventCooloffS
    ensures RegimeAt(inputs, p, j) in {EVENT, HALTED}
  {
    if !Halted(inputs[j], p) {
      EventIffCoolingOff(inputs, p, j);
      assert i < j ==> CoolingOff(inputs, p, j);
    }
  }

  /** While |z| stays below the flow threshold, TRENDING is decided by volatility alone. */
  lemma TrendingIsVolatility(until: real, inp: Inputs, p: Profile)
    requires inp.tick > 0.0 && Abs(inp.flowZ) <= 1.0 && p.trendFlowZ > 1.0
    ensures Decision(until, inp, p).0 == TRENDING ==> inp.volRatio >= p.trendVolRatio
  {
  }
}
