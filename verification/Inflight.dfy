/** The in-flight guard over runs: it counts open trades, and REST never overwrites a guarded token. */
module Inflight {
  import opened Domain
  import opened Dict
  import opened Numerics
  import opened Ledgers
  import opened Tracker
  import opened LedgerRuns

  /** Applied trades on `t` that have neither settled nor failed. */
  ghost function OpenOn(applied: map<string, Fill>, t: string): set<string> {
    set id | id in applied && applied[id].tokenId == t
  }

  /** A trade id always names one token. */
  ghost predicate OneTokenEach(ops: seq<Op>, tokenOf: string -> string) {
    forall i :: 0 <= i < |ops| && ops[i].Trade? ==> ops[i].ev.tokenId == tokenOf(ops[i].ev.tradeId)
  }

  ghost predicate NoExpiry(ops: seq<Op>) {
    forall i :: 0 <= i < |ops| ==> !ops[i].Expire?
  }

  /** Guards never exceed the open trades, a timestamp marks exactly the positive guards, and `exact` guards are equal. */
  ghost predicate Guarded(s: State, tokenOf: string -> string, exact: bool) {
    && (forall id :: id in s.applied ==> s.applied[id].tokenId == tokenOf(id))
    && (forall t :: 0 <= Count(s.ledger.inflight, t) <= |OpenOn(s.applied, t)|)
    && (forall t :: t in s.ledger.inflightTs <==> Count(s.ledger.inflight, t) > 0)
    && (exact ==> forall t :: Count(s.ledger.inflight, t) == |OpenOn(s.applied, t)|)
  }

  lemma OpenOnAdd(applied: map<string, Fill>, id: string, f: Fill, t: string)
    requires id !in applied
    ensures |OpenOn(applied[id := f], t)| == |OpenOn(applied, t)| + if f.tokenId == t then 1 else 0
  {
    if f.tokenId == t {
      assert OpenOn(applied[id := f], t) == OpenOn(applied, t) + {id};
    } else {
      assert OpenOn(applied[id := f], t) == OpenOn(applied, t);
    }
  }

  lemma OpenOnRemove(applied: map<string, Fill>, id: string, t: string)
    requires id in applied
    ensures |OpenOn(applied - {id}, t)| == |OpenOn(applied, t)| - if applied[id].tokenId == t then 1 else 0
  {
    if applied[id].tokenId == t {
      assert OpenOn(applied - {id}, t) == OpenOn(applied, t) - {id};
    } else {
      assert OpenOn(applied - {id}, t) == OpenOn(applied, t);
    }
  }

  lemma MarkGuarded(s: State, tokenOf: string -> string, exact: bool, f: Fill, now: real)
    requires Guarded(s, tokenOf, exact) && f.tradeId !in s.applied && f.tokenId == tokenOf(f.tradeId)
    ensures Guarded(s.(ledger := MarkInflight(s.ledger, f.tokenId, now), applied := s.applied[f.tradeId := f]), tokenOf, exact)
  {
    var l := MarkInflight(s.ledger, f.tokenId, now);
    forall t
      ensures |OpenOn(s.applied[f.tradeId := f], t)| == |OpenOn(s.applied, t)| + if f.tokenId == t then 1 else 0
      ensures Count(l.inflight, t) == Count(s.ledger.inflight, t) + if f.tokenId == t then 1 else 0
    {
      OpenOnAdd(s.applied, f.tradeId, f, t);
    }
  }

  lemma ClearGuarded(s: State, tokenOf: string -> string, exact: bool, id: string)
    requires Guarded(s, tokenOf, exact) && id in s.applied
    ensures Guarded(s.(ledger := ClearInflight(s.ledger, tokenOf(id)), applied := s.applied - {id}), tokenOf, exact)
  {
    var l := ClearInflight(s.ledger, tokenOf(id));
    forall t
      ensures 0 <= Count(l.inflight, t) <= |OpenOn(s.applied - {id}, t)|
      ensures exact ==> Count(l.inflight, t) == |OpenOn(s.applied - {id}, t)|
    {
      OpenOnRemove(s.applied, id, t);
      assert Count(l.inflight, t) == if t == tokenOf(id) && Count(s.ledger.inflight, t) > 0
                                     then Count(s.ledger.inflight, t) - 1 else Count(s.ledger.inflight, t);
      assert |OpenOn(s.applied - {id}, t)| >= 0;
    }
  }

  lemma ExpireGuarded(s: State, tokenOf: string -> string, exact: bool, maxAge: real, now: real)
    requires Guarded(s, tokenOf, exact)
    ensures Guarded(s.(ledger := ExpireInflight(s.ledger, maxAge, now)), tokenOf, false)
  {
    var l := ExpireInflight(s.ledger, maxAge, now);
    forall t
      ensures Count(l.inflight, t) == if t in Stale(s.ledger, maxAge, now) then 0 else Count(s.ledger.inflight, t)
    {
    }
  }

  /** Only the guard fields and the applied map matter. */
  lemma GuardedCongruence(s: State, s': State, tokenOf: string -> string, exact: bool)
    requires Guarded(s, tokenOf, exact)
    requires s'.applied == s.applied
    requires s'.ledger.inflight == s.ledger.inflight && s'.ledger.inflightTs == s.ledger.inflightTs
    ensures Guarded(s', tokenOf, exact)
  {
    assert forall t :: OpenOn(s'.applied, t) == OpenOn(s.applied, t);
  }

  lemma GuardedMatch(s: State, tokenOf: string -> string, exact: bool, ev: TradeEvent, now: real)
    requires Guarded(s, tokenOf, exact) && ev.tokenId == tokenOf(ev.tradeId) && ev.status == MATCHED
    ensures Guarded(AfterTrade(s, ev, now), tokenOf, exact)
  {
    hide AfterFill, Put, PositionIn, Guarded;
    var s', id := AfterTrade(s, ev, now), ev.tradeId;
    if id !in s.applied && !HasTrade(s.ledger.fills, id) {
      MarkGuarded(s, tokenOf, exact, FillOf(ev), now);
      GuardedCongruence(s.(ledger := MarkInflight(s.ledger, ev.tokenId, now), applied := s.applied[id := FillOf(ev)]),
                        s', tokenOf, exact);
    } else {
      GuardedCongruence(s, s', tokenOf, exact);
    }
  }

  lemma GuardedFailure(s: State, tokenOf: string -> string, exact: bool, ev: TradeEvent, now: real)
    requires Guarded(s, tokenOf, exact) && ev.tokenId == tokenOf(ev.tradeId) && ev.status == FAILED
    ensures Guarded(AfterTrade(s, ev, now), tokenOf, exact)
  {
    hide AfterFill, Put, PositionIn, Guarded;
    var s', id := AfterTrade(s, ev, now), ev.tradeId;
    if id in s.applied {
      ClearGuarded(s, tokenOf, exact, id);
      GuardedCongruence(s.(ledger := ClearInflight(s.ledger, tokenOf(id)), applied := s.applied - {id}), s', tokenOf, exact);
    }
  }

  lemma GuardedTrade(s: State, tokenOf: string -> string, exact: bool, ev: TradeEvent, now: real)
    requires Guarded(s, tokenOf, exact) && ev.tokenId == tokenOf(ev.tradeId)
    ensures Guarded(AfterTrade(s, ev, now), tokenOf, exact)
  {
    hide Guarded, ApplyFill;
    match ev.status
    case MATCHED => GuardedMatch(s, tokenOf, exact, ev, now);
    case FAILED => GuardedFailure(s, tokenOf, exact, ev, now);
    case CONFIRMED =>
      if ev.tradeId in s.applied {
        ClearGuarded(s, tokenOf, exact, ev.tradeId);
      }
    case MINED =>
    case RETRYING =>
  }

  /** IN-FLIGHT GUARD: over any run a guard never exceeds the open trades on its token, and equals them while
      nothing expires; a guard timestamp exists exactly while the guard is positive. */
  lemma {:induction false} GuardsCountOpenTrades(ops: seq<Op>, tokenOf: string -> string)
    requires OneTokenEach(ops, tokenOf)
    ensures Guarded(Run(FRESH, ops), tokenOf, NoExpiry(ops))
  {
    if ops == [] {
      assert forall t :: OpenOn(FRESH.applied, t) == {};
    } else {
      var n := |ops| - 1;
      GuardsCountOpenTrades(ops[..n], tokenOf);
      var s := Run(FRESH, ops[..n]);
      var exact := NoExpiry(ops);
      assert exact ==> NoExpiry(ops[..n]) && !ops[n].Expire?;
      match ops[n]
      case Trade(ev, now) => GuardedTrade(s, tokenOf, exact, ev, now);
      case Expire(maxAge, now) => ExpireGuarded(s, tokenOf, NoExpiry(ops[..n]), maxAge, now);
      case Rest(api, now) =>
        RestKeepsTables(s.ledger, api, now);
        GuardedCongruence(s, Run(FRESH, ops), tokenOf, exact);
      case Force(_, _, _) => GuardedCongruence(s, Run(FRESH, ops), tokenOf, exact);
      case Restart => assert forall t :: OpenOn(map[], t) == {};
    }
  }

  /** After expiry no guard is older than the limit; younger guards are left alone. */
  lemma ExpiryBoundsAge(l: Ledger, maxAge: real, now: real, t: string)
    ensures var l' := ExpireInflight(l, maxAge, now);
      && (t in l'.inflightTs ==> t in l.inflightTs && l'.inflightTs[t] == l.inflightTs[t] && now - l.inflightTs[t] <= maxAge)
      && (t in l.inflightTs && now - l.inflightTs[t] <= maxAge ==>
            t in l'.inflightTs && Count(l'.inflight, t) == Count(l.inflight, t))
      && (t in l.inflightTs && t !in l'.inflightTs ==> Count(l'.inflight, t) == 0)
  {
    assert t in Stale(l, maxAge, now) <==> t in l.inflightTs && now - l.inflightTs[t] > maxAge;
    assert t in Zeroed(l.inflight, Stale(l, maxAge, now)) <==> t in l.inflight || t in Stale(l, maxAge, now);
  }

  /** REST never changes a token that is guarded, filled within five seconds, or not reported. */
  lemma {:induction false} RestSkipsGuarded(l: Ledger, api: Dict<string, (real, real)>, now: real, t: string)
    requires !Overwritable(l, t, now) || Get(api, t).None?
    ensures PositionIn(ReconcilePositions(l, api, now).positions, t) == PositionIn(l.positions, t)
  {
    if api != [] {
      var n := |api| - 1;
      var (token, (size, avg)) := api[n];
      assert api == api[..n] + [api[n]];
      GetConcat(api[..n], [api[n]], t);
      RestSkipsGuarded(l, api[..n], now, t);
      var l' := ReconcilePositions(l, api[..n], now);
      RestKeepsTables(l, api[..n], now);
      assert Get([api[n]], t) == if token == t then Some(api[n].1) else None;
      GetPut(l'.positions, token, Position(Max(0.0, size), if size > 0.0 then avg else 0.0), t);
    }
  }

  /** One more reported token: it is overwritten if it may be, and no other token moves. */
  lemma RestSnoc(l: Ledger, api: Dict<string, (real, real)>, now: real, t: string)
    requires api != []
    ensures var n := |api| - 1;
      var (token, (size, avg)) := api[n];
      var before := ReconcilePositions(l, api[..n], now).positions;
      PositionIn(ReconcilePositions(l, api, now).positions, t) ==
      if t == token && Overwritable(l, t, now) then Position(Max(0.0, size), if size > 0.0 then avg else 0.0)
      else PositionIn(before, t)
  {
    hide Put;
    var n := |api| - 1;
    var (token, (size, avg)) := api[n];
    var l' := ReconcilePositions(l, api[..n], now);
    RestKeepsTables(l, api[..n], now);
    GetPut(l'.positions, token, Position(Max(0.0, size), if size > 0.0 then avg else 0.0), t);
  }

  /** REST overwrites every reported token that may be overwritten. */
  lemma {:induction false} RestOverwrites(l: Ledger, api: Dict<string, (real, real)>, now: real, t: string)
    requires Unique(api) && Overwritable(l, t, now) && Get(api, t).Some?
    ensures var (size, avg) := Get(api, t).value;
      PositionIn(ReconcilePositions(l, api, now).positions, t) == Position(Max(0.0, size), if size > 0.0 then avg else 0.0)
  {
    hide ReconcilePositions, PositionIn;
    var n := |api| - 1;
    RestSnoc(l, api, now, t);
    GetLast(api, t);
    if api[n].0 != t {
      RestOverwrites(l, api[..n], now, t);
    }
  }

  /** DATES: a guard is dated by the trade that raised it from zero and keeps that date until it falls to zero again. */
  lemma GuardKeepsItsDate(s: State, op: Op, t: string)
    requires !op.Restart?
    ensures var (l, l') := (s.ledger, Step(s, op).ledger);
      t in l'.inflightTs ==>
        if t in l.inflightTs then l'.inflightTs[t] == l.inflightTs[t] else op.Trade? && op.ev.tokenId == t && l'.inflightTs[t] == op.now
  {
    hide AfterFill, Put, PositionIn, HasTrade;
    if op.Rest? {
      RestKeepsTables(s.ledger, op.api, op.now);
    }
  }

  // ── The last fill ────────────────────────────────────────────────────

  ghost predicate Unbroken(ops: seq<Op>) {
    forall i :: 0 <= i < |ops| ==> !ops[i].Restart?
  }

  /** When `t` was last filled. */
  function LastFill(fills: seq<Fill>, t: string): Option<real> {
    if fills == [] then None
    else
      var n := |fills| - 1;
      if fills[n].tokenId == t then Some(fills[n].ts) else LastFill(fills[..n], t)
  }

  ghost predicate Remembers(l: Ledger) {
    forall t :: LastFill(l.fills, t) == if t in l.lastFillTs then Some(l.lastFillTs[t]) else None
  }

  lemma RemembersFill(l: Ledger, f: Fill)
    requires Remembers(l)
    ensures Remembers(ApplyFill(l, f).0)
  {
    hide AfterFill, Put;
    assert (l.fills + [f])[..|l.fills|] == l.fills;
  }

  lemma {:induction false} AlwaysRemembers(ops: seq<Op>)
    requires Unbroken(ops)
    ensures Remembers(Run(FRESH, ops).ledger)
  {
    hide ApplyFill, Remembers;
    if ops == [] {
      assert Remembers(FRESH.ledger) by { NothingRemembered(); }
    } else {
      var n := |ops| - 1;
      AlwaysRemembers(ops[..n]);
      var s := Run(FRESH, ops[..n]);
      RemembersStep(s, ops[n]);
    }
  }

  lemma NothingRemembered()
    ensures Remembers(FRESH.ledger)
  {
  }

  lemma RemembersStep(s: State, op: Op)
    requires Remembers(s.ledger) && !op.Restart?
    ensures Remembers(Step(s, op).ledger)
  {
    hide ApplyFill, ReconcilePositions;
    match op
    case Trade(ev, now) =>
      RemembersFill(s.ledger, FillOf(ev));
      if ev.tradeId in s.applied {
        RemembersFill(s.ledger, ReverseOf(s.applied[ev.tradeId]));
      }
    case Expire(_, _) =>
    case Rest(api, now) => RestKeepsTables(s.ledger, api, now);
    case Force(_, _, _) =>
  }

  /** FIVE SECONDS: in any run without a restart, REST sizes read less than five seconds after the last fill of a token, or
      while it is guarded, leave its position alone. */
  lemma RestWaitsForFills(ops: seq<Op>, api: Dict<string, (real, real)>, now: real, t: string)
    requires Unbroken(ops)
    requires var l := Run(FRESH, ops).ledger;
      Count(l.inflight, t) > 0 || (LastFill(l.fills, t).Some? && now - LastFill(l.fills, t).value < 5.0)
    ensures PositionIn(Step(Run(FRESH, ops), Rest(api, now)).ledger.positions, t) == PositionIn(Run(FRESH, ops).ledger.positions, t)
  {
    hide Run, ReconcilePositions, PositionIn;
    AlwaysRemembers(ops);
    RestSkipsGuarded(Run(FRESH, ops).ledger, api, now, t);
  }

  /** And where there is neither guard nor recent fill, they are taken over. */
  lemma RestIsTakenOver(ops: seq<Op>, api: Dict<string, (real, real)>, now: real, t: string)
    requires Unbroken(ops) && Unique(api) && Get(api, t).Some?
    requires var l := Run(FRESH, ops).ledger;
      Count(l.inflight, t) <= 0 && now >= 5.0 && (LastFill(l.fills, t).Some? ==> now - LastFill(l.fills, t).value >= 5.0)
    ensures var (size, avg) := Get(api, t).value;
      PositionIn(Step(Run(FRESH, ops), Rest(api, now)).ledger.positions, t) ==
      if size > 0.0 then Position(size, avg) else FLAT
  {
    hide Run, ReconcilePositions, PositionIn;
    AlwaysRemembers(ops);
    RestOverwrites(Run(FRESH, ops).ledger, api, now, t);
  }
}
