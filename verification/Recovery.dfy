/** What a market goes through before it quotes again: after a failed cancel, a short placement or soft rejections, and
    after the exchange wiped its orders (src/polymaker/engine.py). Everything is said about the steps of a run. */
module Recovery {
  import opened Domain
  import opened Dict
  import opened OrderMaps
  import opened OrderProtocol
  import R = Reconciler
  import T = Tracker

  // ── A run, step by step ──────────────────────────────────────────────

  /** The state before step `j`. */
  ghost function At(now: real, ms: map<string, Tokens>, steps: seq<Step>, j: nat): State
    requires j <= |steps|
  {
    Run(Init(now), ms, steps[..j])
  }

  ghost function PhaseAt(now: real, ms: map<string, Tokens>, steps: seq<Step>, j: nat, cid: string): Phase
    requires j <= |steps|
  {
    PhaseOf(At(now, ms, steps, j), cid)
  }

  lemma {:induction false} ValidPrefix(now: real, ms: map<string, Tokens>, steps: seq<Step>, j: nat)
    requires ValidRun(Init(now), ms, steps) && j <= |steps|
    ensures ValidRun(Init(now), ms, steps[..j])
    decreases |steps|
  {
    hide Run, Enabled;
    if j == |steps| {
      assert steps[..j] == steps;
    } else {
      var n := |steps| - 1;
      ValidPrefix(now, ms, steps[..n], j);
      assert steps[..n][..j] == steps[..j];
    }
  }

  lemma OneStep(now: real, ms: map<string, Tokens>, steps: seq<Step>, j: nat)
    requires ValidRun(Init(now), ms, steps) && j < |steps|
    ensures var s := At(now, ms, steps, j);
      && Inv(s, ms) && s.live <= s.used.Keys && Enabled(s, ms, steps[j])
      && At(now, ms, steps, j + 1) == Apply(s, ms, steps[j])
      && Inv(At(now, ms, steps, j + 1), ms)
  {
    hide Apply, Enabled, Inv;
    ValidPrefix(now, ms, steps, j);
    ValidPrefix(now, ms, steps, j + 1);
    assert steps[..j + 1][..j] == steps[..j] && steps[..j + 1][j] == steps[j];
    AlwaysInv(ms, now, steps[..j]);
    AlwaysInv(ms, now, steps[..j + 1]);
  }

  // ── How a lock moves ─────────────────────────────────────────────────

  /** A market that is neither cancelling nor placing gets there only by a plan. */
  lemma OnlyAPlan(s: State, ms: map<string, Tokens>, step: Step, cid: string)
    requires s.live <= s.used.Keys && Enabled(s, ms, step)
    ensures var p, p' := PhaseOf(s, cid), PhaseOf(Apply(s, ms, step), cid);
      !p.Cancelling? && !p.Placing? && (p'.Cancelling? || p'.Placing?) ==> step.Plan? && step.cid == cid && p.Idle?
  {
    hide Adopt, UpsertAll, PopAll, Forget;
  }

  /** A resync ends only by applying its read. */
  lemma OnlyTheRead(s: State, ms: map<string, Tokens>, step: Step, cid: string)
    requires s.live <= s.used.Keys && Enabled(s, ms, step) && PhaseOf(s, cid).Refreshing?
    ensures var p, p' := PhaseOf(s, cid), PhaseOf(Apply(s, ms, step), cid);
      if step == RefreshApply(cid) then p.read.Some? && p'.Idle?
      else
        && p'.Refreshing? && p'.grace == p.grace
        && (p'.read == p.read || (step.RefreshRead? && step.cid == cid && p'.read == Some(Snapshot(s.now, step.read))))
  {
    hide Adopt, UpsertAll, PopAll, Forget;
  }

  /** A quarantine moves on only when a cancel of a whole token has returned. */
  lemma OnlyAWipe(s: State, ms: map<string, Tokens>, step: Step, cid: string)
    requires s.live <= s.used.Keys && Enabled(s, ms, step) && (PhaseOf(s, cid).WipingYes? || PhaseOf(s, cid).WipingNo?)
    ensures var p, p' := PhaseOf(s, cid), PhaseOf(Apply(s, ms, step), cid);
      if step == WipeReturns(cid) then p' == if p.WipingYes? then WipingNo else Refreshing(0.0, None) else p' == p
  {
    hide Adopt, UpsertAll, PopAll, Forget;
  }

  lemma {:induction false} PlanFirst(now: real, ms: map<string, Tokens>, steps: seq<Step>, cid: string, i: nat, k: nat)
    requires ValidRun(Init(now), ms, steps) && i <= k <= |steps|
    requires var p := PhaseAt(now, ms, steps, i, cid); !p.Cancelling? && !p.Placing?
    requires var p := PhaseAt(now, ms, steps, k, cid); p.Cancelling? || p.Placing?
    ensures exists q :: i <= q < k && steps[q].Plan? && steps[q].cid == cid && PhaseAt(now, ms, steps, q, cid).Idle?
  {
    hide Apply, Enabled, Inv, At, PhaseOf;
    OneStep(now, ms, steps, k - 1);
    OnlyAPlan(At(now, ms, steps, k - 1), ms, steps[k - 1], cid);
    var p := PhaseAt(now, ms, steps, k - 1, cid);
    if p.Cancelling? || p.Placing? {
      PlanFirst(now, ms, steps, cid, i, k - 1);
    }
  }

  /** A resync under way at `i` and over at `k` has applied its read in between. */
  lemma Resynced(now: real, ms: map<string, Tokens>, steps: seq<Step>, cid: string, i: nat, k: nat) returns (c: nat)
    requires ValidRun(Init(now), ms, steps) && i <= k <= |steps|
    requires PhaseAt(now, ms, steps, i, cid).Refreshing? && !PhaseAt(now, ms, steps, k, cid).Refreshing?
    ensures i <= c < k && steps[c] == RefreshApply(cid)
    ensures forall j :: i <= j <= c ==>
              PhaseAt(now, ms, steps, j, cid).Refreshing? && PhaseAt(now, ms, steps, j, cid).grace == PhaseAt(now, ms, steps, i, cid).grace
  {
    hide Apply, Enabled, Inv, At, PhaseOf;
    c := i;
    while true
      invariant i <= c < k
      invariant forall j :: i <= j <= c ==>
              PhaseAt(now, ms, steps, j, cid).Refreshing? && PhaseAt(now, ms, steps, j, cid).grace == PhaseAt(now, ms, steps, i, cid).grace
      decreases k - c
    {
      OneStep(now, ms, steps, c);
      assert PhaseAt(now, ms, steps, c, cid).Refreshing?;
      OnlyTheRead(At(now, ms, steps, c), ms, steps[c], cid);
      if steps[c] == RefreshApply(cid) {
        return;
      }
      assert PhaseAt(now, ms, steps, c + 1, cid).Refreshing?;
      c := c + 1;
    }
  }

  /** The read it applies is the list of some read that returned meanwhile. */
  lemma {:induction false} ReadMeanwhile(now: real, ms: map<string, Tokens>, steps: seq<Step>, cid: string, i: nat, c: nat)
    requires ValidRun(Init(now), ms, steps) && i <= c <= |steps|
    requires forall j :: i <= j <= c ==> PhaseAt(now, ms, steps, j, cid).Refreshing?
    requires PhaseAt(now, ms, steps, i, cid).read.None? && PhaseAt(now, ms, steps, c, cid).read.Some?
    ensures exists r :: i <= r < c && steps[r].RefreshRead? && steps[r].cid == cid
                        && steps[r].read == PhaseAt(now, ms, steps, c, cid).read.value.live
  {
    hide Apply, Enabled, Inv, At, PhaseOf;
    OneStep(now, ms, steps, c - 1);
    assert PhaseAt(now, ms, steps, c - 1, cid).Refreshing?;
    OnlyTheRead(At(now, ms, steps, c - 1), ms, steps[c - 1], cid);
    if PhaseAt(now, ms, steps, c - 1, cid).read == PhaseAt(now, ms, steps, c, cid).read {
      ReadMeanwhile(now, ms, steps, cid, i, c - 1);
    } else {
      assert steps[c - 1].RefreshRead?;
    }
  }

  /** A half of a quarantine under way at `i` and over at `k` has seen its cancel return. */
  lemma WipedMeanwhile(now: real, ms: map<string, Tokens>, steps: seq<Step>, cid: string, i: nat, k: nat) returns (a: nat)
    requires ValidRun(Init(now), ms, steps) && i <= k <= |steps|
    requires var p := PhaseAt(now, ms, steps, i, cid); (p.WipingYes? || p.WipingNo?) && PhaseAt(now, ms, steps, k, cid).Idle?
    ensures i <= a < k && steps[a] == WipeReturns(cid) && PhaseAt(now, ms, steps, a, cid) == PhaseAt(now, ms, steps, i, cid)
  {
    hide Apply, Enabled, Inv, At, PhaseOf;
    a := i;
    while true
      invariant i <= a < k && PhaseAt(now, ms, steps, a, cid) == PhaseAt(now, ms, steps, i, cid)
      decreases k - a
    {
      OneStep(now, ms, steps, a);
      OnlyAWipe(At(now, ms, steps, a), ms, steps[a], cid);
      if steps[a] == WipeReturns(cid) {
        return;
      }
      a := a + 1;
    }
  }

  // ── What the history of a market says ────────────────────────────────

  /** The last plan of a market. */
  function LastPlan(steps: seq<Step>, cid: string): Option<R.ReconcilePlan> {
    if steps == [] then None
    else
      var n := |steps| - 1;
      if steps[n].Plan? && steps[n].cid == cid then Some(steps[n].plan) else LastPlan(steps[..n], cid)
  }

  /** The rate budget allowed placing when it was last asked. */
  predicate Allowed(steps: seq<Step>, cid: string) {
    if steps == [] then false
    else
      var n := |steps| - 1;
      if (steps[n].Plan? || steps[n].CancelReturns?) && steps[n].cid == cid then !steps[n].shed else Allowed(steps[..n], cid)
  }

  /** Placements in a row that were softly rejected, up to now. */
  function SoftInRow(steps: seq<Step>, cid: string): nat {
    if steps == [] then 0
    else
      var n := |steps| - 1;
      if steps[n].PlaceReturns? && steps[n].cid == cid then (if steps[n].soft then SoftInRow(steps[..n], cid) + 1 else 0)
      else SoftInRow(steps[..n], cid)
  }

  lemma StreakStep(s: State, ms: map<string, Tokens>, step: Step, cid: string)
    ensures StreakOf(Apply(s, ms, step), cid) ==
            if step.PlaceReturns? && step.cid == cid then (if step.soft then StreakOf(s, cid) + 1 else 0) else StreakOf(s, cid)
  {
    hide Adopt, UpsertAll, PopAll, Forget, AdoptBoth, T.AfterOrder;
  }

  lemma {:induction false} StreakIsSoftInRow(now: real, ms: map<string, Tokens>, steps: seq<Step>, cid: string)
    ensures StreakOf(Run(Init(now), ms, steps), cid) == SoftInRow(steps, cid)
  {
    hide Apply;
    if steps != [] {
      var n := |steps| - 1;
      StreakIsSoftInRow(now, ms, steps[..n], cid);
      StreakStep(Run(Init(now), ms, steps[..n]), ms, steps[n], cid);
    }
  }

  /** What the phase of a market has to do with its last plan. */
  ghost predicate FollowsPlan(s: State, steps: seq<Step>, cid: string) {
    var p, plan := PhaseOf(s, cid), LastPlan(steps, cid);
    && (p.Cancelling? ==>
          && plan.Some? && p.ids == plan.value.toCancel && p.toPlace == |plan.value.toPlace|
          && forall id :: id in p.ids ==> id in s.used)
    && (p.Placing? ==>
          && plan.Some? && p.count == |plan.value.toPlace| && Allowed(steps, cid)
          && forall id :: id in plan.value.toCancel ==> id in s.used && id !in s.live)
  }

  lemma PlannedAreKnown(s: State, ms: map<string, Tokens>, cid: string, plan: R.ReconcilePlan, shed: bool)
    requires Inv(s, ms) && Enabled(s, ms, Plan(cid, plan, shed))
    ensures forall id :: id in plan.toCancel ==> id in s.used
  {
    OrdersForMembers(s.orders, ms[cid].yes);
    OrdersForMembers(s.orders, ms[cid].no);
    forall id | id in plan.toCancel
      ensures id in s.used
    {
      var o :| o in View(s.orders, ms[cid]) && o.orderId == id;
    }
  }

  /** A step of the market's own, or one that can only take orders off the exchange or add unknown ones. */
  lemma OthersChangeLittle(s: State, ms: map<string, Tokens>, step: Step, cid: string)
    requires s.live <= s.used.Keys && Enabled(s, ms, step)
    ensures var s' := Apply(s, ms, step);
      && (forall id :: id in s.used ==> id in s'.used && (id !in s.live ==> id !in s'.live))
      && (!(step.Plan? && step.cid == cid) && !(step.CancelReturns? && step.cid == cid) && !(step.PlaceReturns? && step.cid == cid) ==>
            PhaseOf(s', cid) == PhaseOf(s, cid)
            || (!PhaseOf(s, cid).Cancelling? && !PhaseOf(s, cid).Placing? && !PhaseOf(s', cid).Cancelling? && !PhaseOf(s', cid).Placing?))
  {
    hide Adopt, AdoptBoth, UpsertAll, PopAll, Forget, View, T.AfterOrder, IdsOf, Listed, TakenOver;
  }

  /** What each of the market's own steps does to its phase. */
  lemma OwnPhase(s: State, ms: map<string, Tokens>, step: Step, cid: string)
    requires s.live <= s.used.Keys && Enabled(s, ms, step)
    ensures var (s', p, p') := (Apply(s, ms, step), PhaseOf(s, cid), PhaseOf(Apply(s, ms, step), cid));
      && (step.Plan? && step.cid == cid ==>
            && s'.used == s.used && s'.live == s.live
            && (p'.Cancelling? ==> p'.ids == step.plan.toCancel && p'.toPlace == |step.plan.toPlace|)
            && (p'.Placing? ==> step.plan.toCancel == [] && p'.count == |step.plan.toPlace| && !step.shed))
      && (step.CancelReturns? && step.cid == cid ==>
            && p.Cancelling? && s'.used == s.used && s'.live == s.live && !p'.Cancelling?
            && (p'.Placing? ==> p'.count == p.toPlace && !step.shed && forall id :: id in p.ids ==> id !in s.live))
      && (step.PlaceReturns? && step.cid == cid ==> !p'.Cancelling? && !p'.Placing?)
  {
    hide UpsertAll, PopAll, View, IdsOf, Adopt, AdoptBoth, Forget, Listed, TakenOver, T.AfterOrder;
  }

  lemma FollowsPlanStep(s: State, ms: map<string, Tokens>, before: seq<Step>, step: Step, cid: string)
    requires Inv(s, ms) && Enabled(s, ms, step) && FollowsPlan(s, before, cid)
    ensures FollowsPlan(Apply(s, ms, step), before + [step], cid)
  {
    assert (before + [step])[..|before|] == before;
    OthersChangeLittle(s, ms, step, cid);
    OwnPhase(s, ms, step, cid);
    if step.Plan? && step.cid == cid {
      PlannedAreKnown(s, ms, cid, step.plan, step.shed);
    }
    hide Apply, Enabled, Inv;
  }

  /** PLACING: while quotes are on their way, every order the plan cancelled has left the exchange, the budget allowed
      placing, and the count that decides about a shortfall is that of the plan. */
  lemma {:induction false} PlacingFollowsItsPlan(now: real, ms: map<string, Tokens>, steps: seq<Step>, cid: string)
    requires ValidRun(Init(now), ms, steps)
    ensures FollowsPlan(Run(Init(now), ms, steps), steps, cid)
  {
    hide Apply, Enabled, Inv, FollowsPlan;
    if steps == [] {
      NothingPlanned(now, cid);
    } else {
      var n := |steps| - 1;
      PlacingFollowsItsPlan(now, ms, steps[..n], cid);
      AlwaysInv(ms, now, steps[..n]);
      FollowsPlanStep(Run(Init(now), ms, steps[..n]), ms, steps[..n], steps[n], cid);
      assert steps == steps[..n] + [steps[n]];
    }
  }

  lemma NothingPlanned(now: real, cid: string)
    ensures FollowsPlan(Init(now), [], cid)
  {
  }

  // ── After a failed cancel or a soft rejection: resync, then plan again ──

  /** What makes a market resync: a cancel that failed, or quotes softly rejected for the first to fourth time in a row. */
  ghost predicate MustResync(steps: seq<Step>, cid: string, i: nat)
    requires i < |steps|
  {
    || (steps[i].CancelReturns? && steps[i].cid == cid && !steps[i].ok)
    || (steps[i].PlaceReturns? && steps[i].cid == cid && steps[i].soft && SoftInRow(steps[..i + 1], cid) < 5)
  }

  lemma StreakAfter(now: real, ms: map<string, Tokens>, steps: seq<Step>, cid: string, i: nat)
    requires i < |steps| && steps[i].PlaceReturns? && steps[i].cid == cid && steps[i].soft
    ensures StreakOf(At(now, ms, steps, i), cid) + 1 == SoftInRow(steps[..i + 1], cid)
  {
    hide Run;
    assert steps[..i + 1][..i] == steps[..i];
    StreakIsSoftInRow(now, ms, steps[..i], cid);
  }

  lemma ResyncEntered(now: real, ms: map<string, Tokens>, steps: seq<Step>, cid: string, i: nat)
    requires ValidRun(Init(now), ms, steps) && i < |steps| && MustResync(steps, cid, i)
    ensures PhaseAt(now, ms, steps, i + 1, cid) == Refreshing(10.0, None)
  {
    hide Inv, At, SoftInRow, UpsertAll;
    OneStep(now, ms, steps, i);
    if steps[i].PlaceReturns? {
      StreakAfter(now, ms, steps, cid, i);
    }
  }

  /** Orders and reads are never dated in the future. */
  ghost predicate Dated(s: State) {
    forall id :: Get(s.orders, id).Some? ==> Get(s.orders, id).value.createdTs <= s.now
  }

  lemma DatedAdopt(s: State, token: string, snap: Snapshot, grace: real)
    requires WellFiled(s.orders) && Dated(s) && SoundSnapshot(s, snap)
    ensures Dated(s.(orders := Adopt(s.orders, token, snap, grace, s.now))) && WellFiled(Adopt(s.orders, token, snap, grace, s.now))
  {
    hide ReplaceOpenOrders, WellFiled;
    OfTokenMembers(snap.live, token);
    FiledReplace(s.orders, token, OfToken(snap.live, token), grace, s.now);
    forall id | Get(Adopt(s.orders, token, snap, grace, s.now), id).Some?
      ensures Get(Adopt(s.orders, token, snap, grace, s.now), id).value.createdTs <= s.now
    {
      GetReplaced(s.orders, token, OfToken(snap.live, token), grace, s.now, id);
    }
  }

  lemma DatedBoth(s: State, t: Tokens, snap: Snapshot, grace: real)
    requires WellFiled(s.orders) && Dated(s) && SoundSnapshot(s, snap)
    ensures Dated(s.(orders := AdoptBoth(s.orders, t, snap, grace, s.now)))
  {
    hide Adopt, Dated, SoundSnapshot, WellFiled;
    DatedAdopt(s, t.yes, snap, grace);
    var s1 := s.(orders := Adopt(s.orders, t.yes, snap, grace, s.now));
    assert SoundSnapshot(s1, snap) by { SameSnapshot(s, s1, snap); }
    DatedAdopt(s1, t.no, snap, grace);
  }

  lemma SameSnapshot(s: State, s1: State, snap: Snapshot)
    requires SoundSnapshot(s, snap) && s1 == s.(orders := s1.orders)
    ensures SoundSnapshot(s1, snap)
  {
  }

  lemma DatedEvent(s: State, ms: map<string, Tokens>, ev: T.OrderEvent)
    requires Dated(s)
    ensures Dated(Apply(s, ms, UserEvent(ev)))
  {
    forall id {
      T.OrderEventIs(s.orders, ev, s.now, id);
    }
    hide T.AfterOrder, Get;
  }

  lemma DatedLoop(s: State, ms: map<string, Tokens>, cid: string, yes: bool, no: bool)
    requires Inv(s, ms) && Enabled(s, ms, LoopApply(cid, yes, no)) && Dated(s)
    ensures Dated(Apply(s, ms, LoopApply(cid, yes, no)))
  {
    hide Adopt, Dated, WellFiled, SoundSnapshot;
    var s1 := if yes then s.(orders := Adopt(s.orders, ms[cid].yes, s.loop.value, 10.0, s.now)) else s;
    if yes {
      DatedAdopt(s, ms[cid].yes, s.loop.value, 10.0);
      SameSnapshot(s, s1, s.loop.value);
    }
    var s2 := if no then s1.(orders := Adopt(s1.orders, ms[cid].no, s.loop.value, 10.0, s1.now)) else s1;
    if no {
      DatedAdopt(s1, ms[cid].no, s.loop.value, 10.0);
    }
    DatedOrders(s2, Apply(s, ms, LoopApply(cid, yes, no)));
  }

  lemma DatedOrders(s: State, s': State)
    requires Dated(s) && s'.orders == s.orders && s'.now >= s.now
    ensures Dated(s')
  {
  }

  lemma DatedStep(s: State, ms: map<string, Tokens>, step: Step)
    requires Inv(s, ms) && Enabled(s, ms, step) && Dated(s)
    ensures Dated(Apply(s, ms, step))
  {
    hide Adopt, UpsertAll, PopAll, Forget, AdoptBoth, OrdersFor, WellFiled, SoundSnapshot, Get;
    match step
    case UserEvent(ev) => DatedEvent(s, ms, ev);
    case CancelReturns(cid, ok, shed) =>
      if ok {
        forall id {
          GetPopAll(s.orders, PhaseOf(s, cid).ids, id);
        }
      }
    case PlaceReturns(cid, placed, soft) =>
      forall id {
        GetUpsertAll(s.orders, placed, id);
      }
    case WipeReturns(cid) =>
      var token := if PhaseOf(s, cid).WipingYes? then ms[cid].yes else ms[cid].no;
      forall id {
        GetForgotten(s.orders, token, id);
      }
    case RefreshApply(cid) => DatedBoth(s, ms[cid], PhaseOf(s, cid).read.value, PhaseOf(s, cid).grace);
    case LoopApply(cid, yes, no) => DatedLoop(s, ms, cid, yes, no);
    case ServerWiped => NothingDated(s.now);
    case RecoveryApply(cid) => DatedBoth(s, ms[cid], s.recovery.value, 0.0);
    case _ =>
  }

  lemma {:induction false} AlwaysDated(now: real, ms: map<string, Tokens>, steps: seq<Step>)
    requires ValidRun(Init(now), ms, steps)
    ensures Dated(Run(Init(now), ms, steps))
  {
    hide Apply, Enabled, Inv, Dated;
    if steps == [] {
      assert Dated(Init(now)) by { NothingDated(now); }
    } else {
      var n := |steps| - 1;
      AlwaysDated(now, ms, steps[..n]);
      AlwaysInv(ms, now, steps[..n]);
      DatedStep(Run(Init(now), ms, steps[..n]), ms, steps[n]);
    }
  }

  lemma NothingDated(now: real)
    ensures Dated(Init(now))
  {
  }

  /** Taking a read over for both tokens: an order younger than the grace stays known, and one that the read does not
      list stays only if it is younger. */
  lemma TakenOverBoth(s: State, t: Tokens, snap: Snapshot, grace: real, id: string)
    requires WellFiled(s.orders)
    ensures var before, after := Get(s.orders, id), Get(AdoptBoth(s.orders, t, snap, grace, s.now), id);
      && (before.Some? && s.now - before.value.createdTs < grace ==> after.Some?)
      && (after.Some? && after.value.tokenId in {t.yes, t.no} && id !in IdsOf(snap.live) ==>
            before == after && s.now - before.value.createdTs < grace)
  {
    hide ReplaceOpenOrders, WellFiled;
    var yes, no := OfToken(snap.live, t.yes), OfToken(snap.live, t.no);
    OfTokenMembers(snap.live, t.yes);
    OfTokenMembers(snap.live, t.no);
    GetReplaced(s.orders, t.yes, yes, grace, s.now, id);
    FiledReplace(s.orders, t.yes, yes, grace, s.now);
    GetReplaced(Adopt(s.orders, t.yes, snap, grace, s.now), t.no, no, grace, s.now, id);
  }

  /** The market waits from step `i` until step `c` takes over the list that step `r` has read, keeping every order
      younger than ten seconds. */
  ghost predicate ResyncsFrom(now: real, ms: map<string, Tokens>, steps: seq<Step>, cid: string, i: nat, r: nat, c: nat)
    requires c < |steps|
  {
    && i < r < c && steps[r].RefreshRead? && steps[r].cid == cid && steps[c] == RefreshApply(cid)
    && (forall j :: i < j <= c ==> !(steps[j].Plan? && steps[j].cid == cid) && !(steps[j].PlaceReturns? && steps[j].cid == cid))
    && forall id :: Get(At(now, ms, steps, c).orders, id).Some? ==>
         At(now, ms, steps, c).now - Get(At(now, ms, steps, c).orders, id).value.createdTs < 10.0 ==>
         Get(At(now, ms, steps, c + 1).orders, id).Some?
  }

  lemma RefreshingDoesNothingElse(s: State, ms: map<string, Tokens>, step: Step, cid: string)
    requires s.live <= s.used.Keys && Enabled(s, ms, step) && !PhaseOf(s, cid).Idle? && !PhaseOf(s, cid).Placing?
    ensures !(step.Plan? && step.cid == cid) && !(step.PlaceReturns? && step.cid == cid)
  {
  }

  lemma AppliesBoth(now: real, ms: map<string, Tokens>, steps: seq<Step>, cid: string, c: nat)
    requires ValidRun(Init(now), ms, steps) && c < |steps| && steps[c] == RefreshApply(cid)
    ensures var s, s' := At(now, ms, steps, c), At(now, ms, steps, c + 1);
      && cid in ms && PhaseOf(s, cid).Refreshing? && PhaseOf(s, cid).read.Some?
      && s'.orders == AdoptBoth(s.orders, ms[cid], PhaseOf(s, cid).read.value, PhaseOf(s, cid).grace, s.now)
      && WellFiled(s.orders)
  {
    hide At, AdoptBoth;
    OneStep(now, ms, steps, c);
  }

  /** RESYNC: after a failed cancel, or fewer than five soft rejections in a row, a market whose lock is free again has
      read its orders and taken the list over. */
  lemma ResyncBeforeRelease(now: real, ms: map<string, Tokens>, steps: seq<Step>, cid: string, i: nat, k: nat)
    requires ValidRun(Init(now), ms, steps) && i < k <= |steps| && MustResync(steps, cid, i)
    requires PhaseAt(now, ms, steps, k, cid).Idle?
    ensures exists r: nat, c: nat :: c < k && ResyncsFrom(now, ms, steps, cid, i, r, c)
  {
    hide At, Apply, Enabled, Inv, AdoptBoth, MustResync;
    ResyncEntered(now, ms, steps, cid, i);
    var c := Resynced(now, ms, steps, cid, i + 1, k);
    AppliesBoth(now, ms, steps, cid, c);
    assert forall j :: i + 1 <= j <= c ==> PhaseAt(now, ms, steps, j, cid).Refreshing?;
    ReadMeanwhile(now, ms, steps, cid, i + 1, c);
    var r :| i + 1 <= r < c && steps[r].RefreshRead? && steps[r].cid == cid
             && steps[r].read == PhaseAt(now, ms, steps, c, cid).read.value.live;
    forall j | i < j <= c
      ensures !(steps[j].Plan? && steps[j].cid == cid) && !(steps[j].PlaceReturns? && steps[j].cid == cid)
    {
      OneStep(now, ms, steps, j);
      assert PhaseAt(now, ms, steps, j, cid).Refreshing?;
      RefreshingDoesNothingElse(At(now, ms, steps, j), ms, steps[j], cid);
    }
    assert PhaseAt(now, ms, steps, c, cid).grace == 10.0;
    var s := At(now, ms, steps, c);
    forall id {
      TakenOverBoth(s, ms[cid], PhaseOf(s, cid).read.value, 10.0, id);
    }
    assert ResyncsFrom(now, ms, steps, cid, i, r, c);
  }

  lemma PlacingAt(now: real, ms: map<string, Tokens>, steps: seq<Step>, cid: string, k: nat)
    requires ValidRun(Init(now), ms, steps) && k < |steps| && steps[k].PlaceReturns? && steps[k].cid == cid
    ensures PhaseAt(now, ms, steps, k, cid).Placing?
  {
    hide At, Apply, Inv;
    OneStep(now, ms, steps, k);
  }

  /** NO DOUBLES: after a failed cancel nothing is placed before the orders have been read back and planned anew. */
  lemma NothingPlacedBlindly(now: real, ms: map<string, Tokens>, steps: seq<Step>, cid: string, i: nat, k: nat)
    requires ValidRun(Init(now), ms, steps) && i < k < |steps|
    requires steps[i].CancelReturns? && steps[i].cid == cid && !steps[i].ok
    requires steps[k].PlaceReturns? && steps[k].cid == cid
    ensures exists r: nat, c: nat, q: nat :: c < q < k && ResyncsFrom(now, ms, steps, cid, i, r, c) && steps[q].Plan? && steps[q].cid == cid
  {
    hide At, Apply, Enabled, Inv, ResyncsFrom, PhaseOf;
    ResyncEntered(now, ms, steps, cid, i);
    PlacingAt(now, ms, steps, cid, k);
    PlanFirst(now, ms, steps, cid, i + 1, k);
    var q :| i + 1 <= q < k && steps[q].Plan? && steps[q].cid == cid && PhaseAt(now, ms, steps, q, cid).Idle?;
    ResyncBeforeRelease(now, ms, steps, cid, i, q);
    var r: nat, c: nat :| c < q && ResyncsFrom(now, ms, steps, cid, i, r, c);
  }

  // ── Carrying a plan out ──────────────────────────────────────────────

  /** A plan is carried out: first the cancels, if there are any; otherwise the placements, if there are any and the budget
      allows them. */
  lemma AfterPlanning(now: real, ms: map<string, Tokens>, steps: seq<Step>, cid: string, i: nat)
    requires ValidRun(Init(now), ms, steps) && i < |steps| && steps[i].Plan? && steps[i].cid == cid
    ensures var (p, plan) := (PhaseAt(now, ms, steps, i + 1, cid), steps[i].plan);
      && (p.Cancelling? <==> plan.toCancel != [])
      && (p.Placing? <==> plan.toCancel == [] && plan.toPlace != [] && !steps[i].shed)
      && (p.Idle? <==> plan.toCancel == [] && (plan.toPlace == [] || steps[i].shed))
  {
    hide Inv, At, View;
    OneStep(now, ms, steps, i);
  }

  /** After the cancels: a resync if they failed; otherwise the placements, if there are any and the budget allows them. */
  lemma AfterCancelling(now: real, ms: map<string, Tokens>, steps: seq<Step>, cid: string, i: nat)
    requires ValidRun(Init(now), ms, steps) && i < |steps| && steps[i].CancelReturns? && steps[i].cid == cid
    ensures var (p, plan) := (PhaseAt(now, ms, steps, i + 1, cid), LastPlan(steps[..i], cid));
      && plan.Some?
      && (p == Refreshing(10.0, None) <==> !steps[i].ok)
      && (p.Placing? <==> steps[i].ok && plan.value.toPlace != [] && !steps[i].shed)
      && (p.Idle? <==> steps[i].ok && (plan.value.toPlace == [] || steps[i].shed))
  {
    hide Inv, Run, PopAll, LastPlan, Allowed;
    OneStep(now, ms, steps, i);
    ValidPrefix(now, ms, steps, i);
    PlacingFollowsItsPlan(now, ms, steps[..i], cid);
  }

  // ── After a short placement or the fifth soft rejection: quarantine ───

  /** What makes a market go into quarantine: fewer orders acknowledged than planned without a soft rejection, or quotes
      softly rejected for at least the fifth time in a row. */
  ghost predicate MustQuarantine(steps: seq<Step>, cid: string, i: nat)
    requires i < |steps|
  {
    && steps[i].PlaceReturns? && steps[i].cid == cid
    && if steps[i].soft then SoftInRow(steps[..i + 1], cid) >= 5
       else LastPlan(steps[..i], cid).Some? && |steps[i].placed| < |LastPlan(steps[..i], cid).value.toPlace|
  }

  /** What a placement leads to: resync, quarantine, or a free lock. */
  lemma AfterPlacing(now: real, ms: map<string, Tokens>, steps: seq<Step>, cid: string, i: nat)
    requires ValidRun(Init(now), ms, steps) && i < |steps| && steps[i].PlaceReturns? && steps[i].cid == cid
    ensures var p := PhaseAt(now, ms, steps, i + 1, cid);
      && LastPlan(steps[..i], cid).Some?
      && (p == Refreshing(10.0, None) <==> MustResync(steps, cid, i))
      && (p.WipingYes? <==> MustQuarantine(steps, cid, i))
      && (p.Idle? <==> !steps[i].soft && |steps[i].placed| >= |LastPlan(steps[..i], cid).value.toPlace|)
  {
    hide Inv, Run, SoftInRow, UpsertAll, LastPlan, Allowed;
    OneStep(now, ms, steps, i);
    ValidPrefix(now, ms, steps, i);
    PlacingFollowsItsPlan(now, ms, steps[..i], cid);
    if steps[i].soft {
      StreakAfter(now, ms, steps, cid, i);
    }
  }

  /** From step `i` on the orders of one token and then of the other are cancelled and forgotten (steps `a` and `b`), the
      list is read (`r`), and after step `c` the market knows no order that is not on it. */
  ghost predicate QuarantinesFrom(now: real, ms: map<string, Tokens>, steps: seq<Step>, cid: string, i: nat, a: nat, b: nat,
                                  r: nat, c: nat)
    requires c < |steps| && cid in ms
  {
    && i < a < b < r < c && steps[a] == WipeReturns(cid) && steps[b] == WipeReturns(cid)
    && steps[r].RefreshRead? && steps[r].cid == cid && steps[c] == RefreshApply(cid)
    && OrdersFor(At(now, ms, steps, a + 1).orders, ms[cid].yes) == []
    && OrdersFor(At(now, ms, steps, b + 1).orders, ms[cid].no) == []
    && forall o :: o in View(At(now, ms, steps, c + 1).orders, ms[cid]) ==> o.orderId in IdsOf(steps[r].read)
  }

  lemma ForgetsAll(orders: Orders, token: string)
    requires WellFiled(orders)
    ensures OrdersFor(Forget(orders, token), token) == []
  {
    hide PopAll;
    var left := OrdersFor(Forget(orders, token), token);
    FiledPopAll(orders, Ids(OrdersFor(orders, token)));
    OrdersForMembers(Forget(orders, token), token);
    if left != [] {
      assert left[0] in left;
      var i :| 0 <= i < |Forget(orders, token)| && Forget(orders, token)[i].1 == left[0];
      WellFiledGet(Forget(orders, token), i);
      GetForgotten(orders, token, left[0].orderId);
    }
  }

  lemma WipeForgets(now: real, ms: map<string, Tokens>, steps: seq<Step>, cid: string, a: nat)
    requires ValidRun(Init(now), ms, steps) && a < |steps| && steps[a] == WipeReturns(cid)
    ensures var yes := PhaseAt(now, ms, steps, a, cid).WipingYes?;
      && cid in ms && (yes || PhaseAt(now, ms, steps, a, cid).WipingNo?)
      && PhaseAt(now, ms, steps, a + 1, cid) == (if yes then WipingNo else Refreshing(0.0, None))
      && OrdersFor(At(now, ms, steps, a + 1).orders, if yes then ms[cid].yes else ms[cid].no) == []
  {
    hide At, Forget, OrdersFor;
    OneStep(now, ms, steps, a);
    var s := At(now, ms, steps, a);
    ForgetsAll(s.orders, if PhaseOf(s, cid).WipingYes? then ms[cid].yes else ms[cid].no);
  }

  /** After an authoritative read a market knows no order that is not on the list. */
  lemma ListIsAll(s: State, t: Tokens, snap: Snapshot)
    requires WellFiled(s.orders) && Dated(s) && WellFiled(AdoptBoth(s.orders, t, snap, 0.0, s.now))
    ensures forall o :: o in View(AdoptBoth(s.orders, t, snap, 0.0, s.now), t) ==> o.orderId in IdsOf(snap.live)
  {
    hide AdoptBoth, WellFiled;
    var after := AdoptBoth(s.orders, t, snap, 0.0, s.now);
    OrdersForMembers(after, t.yes);
    OrdersForMembers(after, t.no);
    forall o | o in View(after, t)
      ensures o.orderId in IdsOf(snap.live)
    {
      var i :| 0 <= i < |after| && after[i].1 == o;
      WellFiledGet(after, i);
      TakenOverBoth(s, t, snap, 0.0, o.orderId);
    }
  }

  /** Both halves of a quarantine that is over. */
  lemma BothWiped(now: real, ms: map<string, Tokens>, steps: seq<Step>, cid: string, i: nat, k: nat) returns (a: nat, b: nat)
    requires ValidRun(Init(now), ms, steps) && i <= k <= |steps|
    requires PhaseAt(now, ms, steps, i, cid).WipingYes? && PhaseAt(now, ms, steps, k, cid).Idle?
    ensures i <= a < b < k && steps[a] == WipeReturns(cid) && steps[b] == WipeReturns(cid) && cid in ms
    ensures OrdersFor(At(now, ms, steps, a + 1).orders, ms[cid].yes) == []
    ensures OrdersFor(At(now, ms, steps, b + 1).orders, ms[cid].no) == []
    ensures PhaseAt(now, ms, steps, b + 1, cid) == Refreshing(0.0, None)
  {
    hide At, Apply, Enabled, OrdersFor, PhaseOf;
    a := WipedMeanwhile(now, ms, steps, cid, i, k);
    WipeForgets(now, ms, steps, cid, a);
    b := WipedMeanwhile(now, ms, steps, cid, a + 1, k);
    WipeForgets(now, ms, steps, cid, b);
  }

  /** An authoritative resync that is over. */
  lemma ReadBack(now: real, ms: map<string, Tokens>, steps: seq<Step>, cid: string, i: nat, k: nat) returns (r: nat, c: nat)
    requires ValidRun(Init(now), ms, steps) && i <= k <= |steps|
    requires PhaseAt(now, ms, steps, i, cid) == Refreshing(0.0, None) && PhaseAt(now, ms, steps, k, cid).Idle?
    ensures i <= r < c < k && steps[r].RefreshRead? && steps[r].cid == cid && steps[c] == RefreshApply(cid) && cid in ms
    ensures forall o :: o in View(At(now, ms, steps, c + 1).orders, ms[cid]) ==> o.orderId in IdsOf(steps[r].read)
  {
    hide At, Apply, Enabled, AdoptBoth, View, Dated;
    c := Resynced(now, ms, steps, cid, i, k);
    AppliesBoth(now, ms, steps, cid, c);
    assert forall j :: i <= j <= c ==> PhaseAt(now, ms, steps, j, cid).Refreshing?;
    ReadMeanwhile(now, ms, steps, cid, i, c);
    r :| i <= r < c && steps[r].RefreshRead? && steps[r].cid == cid
         && steps[r].read == PhaseAt(now, ms, steps, c, cid).read.value.live;
    assert PhaseAt(now, ms, steps, c, cid).grace == 0.0;
    OneStep(now, ms, steps, c);
    DatedAt(now, ms, steps, c);
    ListIsAll(At(now, ms, steps, c), ms[cid], PhaseAt(now, ms, steps, c, cid).read.value);
  }

  /** QUARANTINE: after a placement shorter than planned, or five soft rejections in a row, the lock is not free again
      before both tokens were wiped and read back. */
  lemma QuarantineBeforeRelease(now: real, ms: map<string, Tokens>, steps: seq<Step>, cid: string, i: nat, k: nat)
    requires ValidRun(Init(now), ms, steps) && i < k <= |steps| && MustQuarantine(steps, cid, i)
    requires PhaseAt(now, ms, steps, k, cid).Idle?
    ensures cid in ms && exists a: nat, b: nat, r: nat, c: nat :: c < k && QuarantinesFrom(now, ms, steps, cid, i, a, b, r, c)
  {
    hide At, OrdersFor, View, SoftInRow, LastPlan, PhaseOf;
    AfterPlacing(now, ms, steps, cid, i);
    var a, b := BothWiped(now, ms, steps, cid, i + 1, k);
    var r, c := ReadBack(now, ms, steps, cid, b + 1, k);
    assert QuarantinesFrom(now, ms, steps, cid, i, a, b, r, c);
  }

  lemma DatedAt(now: real, ms: map<string, Tokens>, steps: seq<Step>, c: nat)
    requires ValidRun(Init(now), ms, steps) && c <= |steps|
    ensures Dated(At(now, ms, steps, c))
  {
    hide Dated, Run;
    ValidPrefix(now, ms, steps, c);
    AlwaysDated(now, ms, steps[..c]);
  }

  // ── After the exchange wiped the orders, and in the reconcile loop ────

  /** A step that makes order `id` known: an event, a placement, or a list that is taken over. */
  ghost predicate Files(s: State, step: Step, id: string) {
    match step
    case UserEvent(ev) => ev.orderId == id && !ev.isCancel && ev.remaining > 0.0
    case PlaceReturns(_, placed, _) => id in IdsOf(placed)
    case RefreshApply(cid) => PhaseOf(s, cid).Refreshing? && PhaseOf(s, cid).read.Some? && id in IdsOf(PhaseOf(s, cid).read.value.live)
    case LoopApply(_, _, _) => s.loop.Some? && id in IdsOf(s.loop.value.live)
    case RecoveryApply(_) => s.recovery.Some? && id in IdsOf(s.recovery.value.live)
    case _ => false
  }

  lemma AdoptFiles(orders: Orders, token: string, snap: Snapshot, grace: real, now: real, id: string)
    requires WellFiled(orders)
    ensures WellFiled(Adopt(orders, token, snap, grace, now))
    ensures Get(Adopt(orders, token, snap, grace, now), id).Some? ==> Get(orders, id).Some? || id in IdsOf(snap.live)
  {
    hide ReplaceOpenOrders, WellFiled;
    OfTokenMembers(snap.live, token);
    FiledReplace(orders, token, OfToken(snap.live, token), grace, now);
    GetReplaced(orders, token, OfToken(snap.live, token), grace, now, id);
  }

  lemma LoopFiles(s: State, ms: map<string, Tokens>, cid: string, yes: bool, no: bool, id: string)
    requires Inv(s, ms) && Enabled(s, ms, LoopApply(cid, yes, no)) && Get(s.orders, id).None?
    requires Get(Apply(s, ms, LoopApply(cid, yes, no)).orders, id).Some?
    ensures id in IdsOf(s.loop.value.live)
  {
    hide Adopt, WellFiled;
    AdoptFiles(s.orders, ms[cid].yes, s.loop.value, 10.0, s.now, id);
    AdoptFiles(if yes then Adopt(s.orders, ms[cid].yes, s.loop.value, 10.0, s.now) else s.orders, ms[cid].no, s.loop.value, 10.0,
               s.now, id);
  }

  lemma BothFile(orders: Orders, t: Tokens, snap: Snapshot, grace: real, now: real, id: string)
    requires WellFiled(orders)
    ensures Get(AdoptBoth(orders, t, snap, grace, now), id).Some? ==> Get(orders, id).Some? || id in IdsOf(snap.live)
  {
    hide Adopt, WellFiled;
    AdoptFiles(orders, t.yes, snap, grace, now, id);
    AdoptFiles(Adopt(orders, t.yes, snap, grace, now), t.no, snap, grace, now, id);
  }

  lemma NewOrdersAreFiled(s: State, ms: map<string, Tokens>, step: Step, id: string)
    requires Inv(s, ms) && Enabled(s, ms, step) && Get(s.orders, id).None? && Get(Apply(s, ms, step).orders, id).Some?
    ensures Files(s, step, id)
  {
    hide Adopt, AdoptBoth, UpsertAll, PopAll, Forget, OrdersFor, WellFiled, SoundReads, Covered, Get, T.AfterOrder;
    match step
    case UserEvent(ev) => T.OrderEventIs(s.orders, ev, s.now, id);
    case CancelReturns(cid, ok, shed) => GetPopAll(s.orders, PhaseOf(s, cid).ids, id);
    case PlaceReturns(cid, placed, soft) => GetUpsertAll(s.orders, placed, id);
    case WipeReturns(cid) =>
      GetForgotten(s.orders, if PhaseOf(s, cid).WipingYes? then ms[cid].yes else ms[cid].no, id);
    case RefreshApply(cid) => BothFile(s.orders, ms[cid], PhaseOf(s, cid).read.value, PhaseOf(s, cid).grace, s.now, id);
    case LoopApply(cid, yes, no) => LoopFiles(s, ms, cid, yes, no, id);
    case ServerWiped => NothingDated(s.now);
    case RecoveryApply(cid) => BothFile(s.orders, ms[cid], s.recovery.value, 0.0, s.now, id);
    case _ =>
  }

  /** WIPED: whatever the engine knows after the exchange wiped its orders, it has learned since. */
  lemma {:induction false} NothingOutlivesTheWipe(now: real, ms: map<string, Tokens>, steps: seq<Step>, i: nat, k: nat, id: string)
    requires ValidRun(Init(now), ms, steps) && i < k <= |steps| && steps[i] == ServerWiped
    requires Get(At(now, ms, steps, k).orders, id).Some?
    ensures exists j :: i < j < k && Files(At(now, ms, steps, j), steps[j], id)
  {
    hide Inv, At, Enabled, Files;
    OneStep(now, ms, steps, k - 1);
    if k - 1 > i {
      if Get(At(now, ms, steps, k - 1).orders, id).Some? {
        NothingOutlivesTheWipe(now, ms, steps, i, k - 1, id);
      } else {
        NewOrdersAreFiled(At(now, ms, steps, k - 1), ms, steps[k - 1], id);
      }
    }
  }

  /** RECOVERY: and once a market is read back it knows only what the list holds. */
  lemma RecoveryIsTheList(now: real, ms: map<string, Tokens>, steps: seq<Step>, cid: string, k: nat)
    requires ValidRun(Init(now), ms, steps) && k < |steps| && steps[k] == RecoveryApply(cid)
    ensures var s := At(now, ms, steps, k);
      && cid in ms && s.recovery.Some?
      && forall o :: o in View(At(now, ms, steps, k + 1).orders, ms[cid]) ==> o.orderId in IdsOf(s.recovery.value.live)
  {
    hide At, AdoptBoth, View, Dated;
    OneStep(now, ms, steps, k);
    DatedAt(now, ms, steps, k);
    var s := At(now, ms, steps, k);
    ListIsAll(s, ms[cid], s.recovery.value);
  }

  /** LOOP: an order the reconcile loop does not find on its list stays known exactly if trades of its token are in flight,
      or it is younger than ten seconds. */
  lemma LoopForgets(now: real, ms: map<string, Tokens>, steps: seq<Step>, cid: string, yes: bool, no: bool, k: nat, id: string)
    requires ValidRun(Init(now), ms, steps) && k < |steps| && steps[k] == LoopApply(cid, yes, no)
    ensures var s, s' := At(now, ms, steps, k), At(now, ms, steps, k + 1);
      && cid in ms && s.loop.Some?
      && var before, after := Get(s.orders, id), Get(s'.orders, id);
      ms[cid].yes != ms[cid].no && id !in IdsOf(s.loop.value.live) && before.Some? && before.value.tokenId in {ms[cid].yes, ms[cid].no}
      ==> (after == before <==>
             !(if before.value.tokenId == ms[cid].yes then yes else no) || s.now - before.value.createdTs < 10.0)
  {
    hide At, ReplaceOpenOrders, WellFiled;
    OneStep(now, ms, steps, k);
    var s, t := At(now, ms, steps, k), ms[cid];
    var snap := s.loop.value;
    OfTokenMembers(snap.live, t.yes);
    OfTokenMembers(snap.live, t.no);
    GetReplaced(s.orders, t.yes, OfToken(snap.live, t.yes), 10.0, s.now, id);
    FiledReplace(s.orders, t.yes, OfToken(snap.live, t.yes), 10.0, s.now);
    GetReplaced(if yes then Adopt(s.orders, t.yes, snap, 10.0, s.now) else s.orders, t.no, OfToken(snap.live, t.no), 10.0, s.now, id);
  }
}
