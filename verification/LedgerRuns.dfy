/** Runs of the trade lifecycle: every trade is counted exactly once, the tables mirror memory, and restarts and replays
    change nothing. */
module LedgerRuns {
  import opened Numerics
  import opened Domain
  import opened Dict
  import opened Ledgers
  import opened Tracker

  /** What can happen to the ledger: a user event, guard expiry, a REST reconcile, a forced overwrite, a restart. */
  datatype Op =
    | Trade(ev: TradeEvent, now: real)
    | Expire(maxAge: real, now: real)
    | Rest(api: Dict<string, (real, real)>, now: real)
    | Force(token: string, size: real, avg: real)
    | Restart

  const FRESH := State(Ledger([], map[], map[], map[], [], []), map[], 0.0)

  function Step(s: State, op: Op): State {
    match op
    case Trade(ev, now) => AfterTrade(s, ev, now)
    case Expire(maxAge, now) => s.(ledger := ExpireInflight(s.ledger, maxAge, now))
    case Rest(api, now) => s.(ledger := ReconcilePositions(s.ledger, api, now))
    case Force(token, size, avg) => s.(ledger := SetPosition(s.ledger, token, size, avg))
    case Restart => State(Reload(s.ledger), map[], 0.0)
  }

  function Run(s: State, ops: seq<Op>): State {
    if ops == [] then s else Step(Run(s, ops[..|ops| - 1]), ops[|ops| - 1])
  }

  // ── Trade ids ────────────────────────────────────────────────────────

  /** Ids the tracker itself makes up for reversals. */
  predicate Reserved(id: string) {
    |id| >= |SUFFIX| && id[|id| - |SUFFIX|..] == SUFFIX
  }

  lemma ReverseIds(x: string, y: string)
    ensures Reserved(x + SUFFIX)
    ensures x + SUFFIX == y + SUFFIX ==> x == y
  {
    assert (x + SUFFIX)[|x + SUFFIX| - |SUFFIX|..] == SUFFIX;
    assert (x + SUFFIX)[..|x|] == x && (y + SUFFIX)[..|y|] == y;
  }

  /** The exchange never reports a trade under an id of the reversal form. */
  ghost predicate Clean(ops: seq<Op>) {
    forall i :: 0 <= i < |ops| && ops[i].Trade? ==> !Reserved(ops[i].ev.tradeId)
  }

  // ── The simple ledger: one status per trade id ───────────────────────

  datatype Status = Unseen | Open(fill: Fill) | Settled(fill: Fill) | Reversed(fill: Fill)

  function NextStatus(st: Status, id: string, op: Op): Status {
    match op
    case Trade(ev, _) =>
      if ev.tradeId != id then st
      else if ev.status == MATCHED && st.Unseen? then Open(FillOf(ev))
      else if ev.status == CONFIRMED && st.Open? then Settled(st.fill)
      else if ev.status == FAILED && st.Open? then Reversed(st.fill)
      else st
    case Restart => if st.Open? then Settled(st.fill) else st
    case _ => st
  }

  /** The status of one trade, from its own events and the restarts alone. */
  function StatusOf(ops: seq<Op>, id: string): Status {
    if ops == [] then Unseen else NextStatus(StatusOf(ops[..|ops| - 1], id), id, ops[|ops| - 1])
  }

  lemma {:induction false} StatusNamesItsTrade(ops: seq<Op>, id: string)
    ensures var st := StatusOf(ops, id); !st.Unseen? ==> st.fill.tradeId == id
  {
    if ops != [] {
      StatusNamesItsTrade(ops[..|ops| - 1], id);
    }
  }

  ghost predicate DistinctTrades(fills: seq<Fill>) {
    forall i, j :: 0 <= i < j < |fills| ==> fills[i].tradeId != fills[j].tradeId
  }

  /** The fills table and the applied map say exactly what the statuses say. */
  ghost predicate Agrees(s: State, status: string -> Status) {
    && DistinctTrades(s.ledger.fills)
    && (forall id :: id in s.applied <==> !Reserved(id) && status(id).Open?)
    && (forall id :: id in s.applied ==> s.applied[id] == status(id).fill)
    && (forall id :: !Reserved(id) && !status(id).Unseen? ==> status(id).fill in s.ledger.fills && status(id).fill.tradeId == id)
    && (forall id :: !Reserved(id) && status(id).Reversed? ==> ReverseOf(status(id).fill) in s.ledger.fills)
    && (forall f :: f in s.ledger.fills ==>
          if Reserved(f.tradeId)
          then exists id :: !Reserved(id) && status(id).Reversed? && f == ReverseOf(status(id).fill)
          else !status(f.tradeId).Unseen? && f == status(f.tradeId).fill)
  }

  lemma HasTradeIn(fills: seq<Fill>, id: string)
    ensures HasTrade(fills, id) <==> exists f :: f in fills && f.tradeId == id
  {
    if HasTrade(fills, id) {
      var i :| 0 <= i < |fills| && fills[i].tradeId == id;
      assert fills[i] in fills;
    }
  }

  lemma {:induction false} RestKeepsTables(l: Ledger, api: Dict<string, (real, real)>, now: real)
    ensures var l' := ReconcilePositions(l, api, now);
      l'.fills == l.fills && l'.inflight == l.inflight && l'.inflightTs == l.inflightTs && l'.lastFillTs == l.lastFillTs
  {
    if api != [] {
      RestKeepsTables(l, api[..|api| - 1], now);
    }
  }

  /** A non-MATCHED, non-FAILED or rejected event, and every op that is no trade event, leaves the fills alone. */
  lemma FillsAfter(s: State, op: Op)
    ensures var fills, fills' := s.ledger.fills, Step(s, op).ledger.fills;
      if op.Trade? && op.ev.status == MATCHED && op.ev.tradeId !in s.applied && !HasTrade(fills, op.ev.tradeId)
      then fills' == fills + [FillOf(op.ev)]
      else if op.Trade? && op.ev.status == FAILED && op.ev.tradeId in s.applied
              && !HasTrade(fills, ReverseOf(s.applied[op.ev.tradeId]).tradeId)
      then fills' == fills + [ReverseOf(s.applied[op.ev.tradeId])]
      else fills' == fills
  {
    if op.Rest? {
      RestKeepsTables(s.ledger, op.api, op.now);
    }
  }

  lemma AgreesOn(s: State, status: string -> Status, id: string)
    requires Agrees(s, status) && !Reserved(id)
    ensures id in s.applied <==> status(id).Open?
    ensures HasTrade(s.ledger.fills, id) <==> !status(id).Unseen?
  {
    HasTradeIn(s.ledger.fills, id);
  }

  lemma AppliedAreOpen(s: State, status: string -> Status)
    requires Agrees(s, status)
    ensures forall id :: id in s.applied ==> status(id).Open?
  {
  }

  /** No fill and no reversal: at most, open trades settle. */
  lemma AgreesQuiet(s: State, status: string -> Status, s': State, status': string -> Status)
    requires Agrees(s, status) && s'.ledger.fills == s.ledger.fills
    requires forall id :: status'(id) == status(id) || (status(id).Open? && status'(id) == Settled(status(id).fill))
    requires forall id :: id in s'.applied <==> id in s.applied && status'(id).Open?
    requires forall id :: id in s'.applied ==> s'.applied[id] == s.applied[id]
    ensures Agrees(s', status')
  {
    forall f | f in s'.ledger.fills && Reserved(f.tradeId)
      ensures exists id :: !Reserved(id) && status'(id).Reversed? && f == ReverseOf(status'(id).fill)
    {
      var id :| !Reserved(id) && status(id).Reversed? && f == ReverseOf(status(id).fill);
      assert status'(id) == status(id);
    }
  }

  lemma AgreesStep(s: State, status: string -> Status, op: Op, status': string -> Status)
    requires Agrees(s, status)
    requires op.Trade? ==> !Reserved(op.ev.tradeId)
    requires forall id :: status'(id) == NextStatus(status(id), id, op)
    ensures Agrees(Step(s, op), status')
  {
    if op.Trade? && op.ev.status == MATCHED && status(op.ev.tradeId).Unseen? {
      AgreesMatched(s, status, op, status');
    } else if op.Trade? && op.ev.status == FAILED && status(op.ev.tradeId).Open? {
      AgreesFailed(s, status, op, status');
    } else {
      QuietStep(s, status, op, status');
      AgreesQuiet(s, status, Step(s, op), status');
    }
  }

  lemma QuietStep(s: State, status: string -> Status, op: Op, status': string -> Status)
    requires Agrees(s, status)
    requires op.Trade? ==> !Reserved(op.ev.tradeId)
    requires forall id :: status'(id) == NextStatus(status(id), id, op)
    requires !(op.Trade? && op.ev.status == MATCHED && status(op.ev.tradeId).Unseen?)
    requires !(op.Trade? && op.ev.status == FAILED && status(op.ev.tradeId).Open?)
    ensures var s' := Step(s, op);
      && s'.ledger.fills == s.ledger.fills
      && (forall id :: id in s'.applied <==> id in s.applied && status'(id).Open?)
      && (forall id :: id in s'.applied ==> s'.applied[id] == s.applied[id])
  {
    hide AfterFill, Put, PositionIn, MarkInflight, ClearInflight, ReconcilePositions, Agrees;
    FillsAfter(s, op);
    AppliedAreOpen(s, status);
    if op.Trade? {
      AgreesOn(s, status, op.ev.tradeId);
    }
  }

  lemma AgreesMatched(s: State, status: string -> Status, op: Op, status': string -> Status)
    requires Agrees(s, status) && op.Trade? && !Reserved(op.ev.tradeId)
    requires forall id :: status'(id) == NextStatus(status(id), id, op)
    requires op.ev.status == MATCHED && status(op.ev.tradeId).Unseen?
    ensures Agrees(Step(s, op), status')
  {
    AgreesOn(s, status, op.ev.tradeId);
    MatchedApplies(s, op);
    AgreesAdded(s, status, Step(s, op), status', FillOf(op.ev));
  }

  lemma MatchedApplies(s: State, op: Op)
    requires op.Trade? && op.ev.status == MATCHED && op.ev.tradeId !in s.applied && !HasTrade(s.ledger.fills, op.ev.tradeId)
    ensures Step(s, op).ledger.fills == s.ledger.fills + [FillOf(op.ev)]
    ensures Step(s, op).applied == s.applied[op.ev.tradeId := FillOf(op.ev)]
  {
    hide AfterFill, Put, PositionIn;
  }

  lemma AgreesAdded(s: State, status: string -> Status, s': State, status': string -> Status, f: Fill)
    requires Agrees(s, status) && !Reserved(f.tradeId) && status(f.tradeId).Unseen?
    requires forall id :: status'(id) == if id == f.tradeId then Open(f) else status(id)
    requires s'.ledger.fills == s.ledger.fills + [f] && s'.applied == s.applied[f.tradeId := f]
    ensures Agrees(s', status')
  {
    HasTradeIn(s.ledger.fills, f.tradeId);
    forall g | g in s'.ledger.fills && Reserved(g.tradeId)
      ensures exists id :: !Reserved(id) && status'(id).Reversed? && g == ReverseOf(status'(id).fill)
    {
      var id :| !Reserved(id) && status(id).Reversed? && g == ReverseOf(status(id).fill);
      assert status'(id) == status(id);
    }
  }

  /** The reversal of an open trade is not in the table yet. */
  lemma ReversalIsNew(s: State, status: string -> Status, id: string)
    requires Agrees(s, status) && !Reserved(id) && status(id).Open?
    ensures s.applied[id].tradeId == id && !HasTrade(s.ledger.fills, id + SUFFIX)
  {
    HasTradeIn(s.ledger.fills, id + SUFFIX);
    ReverseIds(id, id);
    forall f | f in s.ledger.fills
      ensures f.tradeId != id + SUFFIX
    {
      if Reserved(f.tradeId) {
        var x :| !Reserved(x) && status(x).Reversed? && f == ReverseOf(status(x).fill);
        ReverseIds(x, id);
      }
    }
  }

  lemma AgreesFailed(s: State, status: string -> Status, op: Op, status': string -> Status)
    requires Agrees(s, status) && op.Trade? && !Reserved(op.ev.tradeId)
    requires forall id :: status'(id) == NextStatus(status(id), id, op)
    requires op.ev.status == FAILED && status(op.ev.tradeId).Open?
    ensures Agrees(Step(s, op), status')
  {
    var id := op.ev.tradeId;
    var fills, s' := s.ledger.fills, Step(s, op);
    var r := ReverseOf(s.applied[id]);
    ReversalIsNew(s, status, id);
    FillsAfter(s, op);
    assert s'.ledger.fills == fills + [r] && s'.applied == s.applied - {id};
    ReverseIds(id, id);
    assert forall x :: x != id ==> status'(x) == status(x);
    assert status'(id) == Reversed(s.applied[id]);
    ReversalAgrees(s, status, id, fills + [r], status');
  }

  lemma ReverseNamesIt(f: Fill)
    ensures ReverseOf(f).tradeId == f.tradeId + SUFFIX
  {
  }

  /** Recording the reversal of an open trade and marking it reversed keeps table and statuses in step. */
  lemma ReversalAgrees(s: State, status: string -> Status, id: string, fills': seq<Fill>, status': string -> Status)
    requires Agrees(s, status) && !Reserved(id) && status(id).Open?
    requires fills' == s.ledger.fills + [ReverseOf(s.applied[id])] && !HasTrade(s.ledger.fills, id + SUFFIX)
    requires forall x :: x != id ==> status'(x) == status(x)
    requires status'(id) == Reversed(s.applied[id])
    ensures Agrees(s.(ledger := s.ledger.(fills := fills'), applied := s.applied - {id}), status')
  {
    hide ReverseOf, Reserved, HasTrade;
    var fills := s.ledger.fills;
    var r := ReverseOf(s.applied[id]);
    ReverseIds(id, id);
    HasTradeIn(fills, id + SUFFIX);
    ReverseNamesIt(s.applied[id]);
    assert DistinctTrades(fills');
    ReversalInTable(s, status, id, fills', status');
  }

  lemma ReversalInTable(s: State, status: string -> Status, id: string, fills': seq<Fill>, status': string -> Status)
    requires Agrees(s, status) && !Reserved(id) && status(id).Open?
    requires fills' == s.ledger.fills + [ReverseOf(s.applied[id])]
    requires forall x :: x != id ==> status'(x) == status(x)
    requires status'(id) == Reversed(s.applied[id])
    ensures forall g :: g in fills' ==>
              if Reserved(g.tradeId)
              then exists x :: !Reserved(x) && status'(x).Reversed? && g == ReverseOf(status'(x).fill)
              else !status'(g.tradeId).Unseen? && g == status'(g.tradeId).fill
  {
    hide ReverseOf, Reserved, HasTrade, DistinctTrades;
    var fills := s.ledger.fills;
    var r := ReverseOf(s.applied[id]);
    ReverseIds(id, id);
    ReverseNamesIt(s.applied[id]);
    forall g | g in fills'
      ensures if Reserved(g.tradeId)
        then exists x :: !Reserved(x) && status'(x).Reversed? && g == ReverseOf(status'(x).fill)
        else !status'(g.tradeId).Unseen? && g == status'(g.tradeId).fill
    {
      if g == r {
        assert status'(id).Reversed? && g == ReverseOf(status'(id).fill);
      } else if Reserved(g.tradeId) {
        var x :| !Reserved(x) && status(x).Reversed? && g == ReverseOf(status(x).fill);
        assert status'(x) == status(x);
      } else {
        assert g in fills;
      }
    }
  }

  /** EXACTLY ONCE: after any run, with duplicates, reorderings, overrides and restarts, the fills table holds one
      forward fill per matched trade, one reversal per failed one, and nothing else. */
  lemma {:induction false} ExactlyOnce(ops: seq<Op>)
    requires Clean(ops)
    ensures Agrees(Run(FRESH, ops), id => StatusOf(ops, id))
  {
    if ops != [] {
      var n := |ops| - 1;
      assert Clean(ops[..n]);
      ExactlyOnce(ops[..n]);
      AgreesStep(Run(FRESH, ops[..n]), id => StatusOf(ops[..n], id), ops[n], id => StatusOf(ops, id));
    }
  }

  // ── Tables mirror memory, and restart ────────────────────────────────

  /** The positions table agrees with memory, and a flat position has no cost. */
  ghost predicate Mirrored(l: Ledger) {
    && Unique(l.positions) && Unique(l.rows)
    && forall t ::
        var p := PositionIn(l.positions, t);
        p == PositionIn(l.rows, t) && p.size >= 0.0 && (p.size == 0.0 ==> p == FLAT)
  }

  lemma MirroredPut(l: Ledger, token: string, pos: Position)
    requires Mirrored(l) && pos.size >= 0.0 && (pos.size == 0.0 ==> pos == FLAT)
    ensures Mirrored(WithPosition(l, token, pos))
    ensures forall t :: PositionIn(WithPosition(l, token, pos).positions, t) == if t == token then pos else PositionIn(l.positions, t)
  {
    var l' := WithPosition(l, token, pos);
    PutUnique(l.positions, token, pos);
    PutUnique(l.rows, token, pos);
    forall t
      ensures PositionIn(l'.positions, t) == if t == token then pos else PositionIn(l.positions, t)
      ensures PositionIn(l'.rows, t) == if t == token then pos else PositionIn(l.rows, t)
    {
      GetPut(l.positions, token, pos, t);
      GetPut(l.rows, token, pos, t);
    }
  }

  lemma {:induction false} MirroredRest(l: Ledger, api: Dict<string, (real, real)>, now: real)
    requires Mirrored(l)
    ensures Mirrored(ReconcilePositions(l, api, now))
  {
    if api != [] {
      var n := |api| - 1;
      MirroredRest(l, api[..n], now);
      var (token, (size, avg)) := api[n];
      MirroredPut(ReconcilePositions(l, api[..n], now), token, Position(Max(0.0, size), if size > 0.0 then avg else 0.0));
    }
  }

  lemma MirroredFill(l: Ledger, fill: Fill)
    requires Mirrored(l)
    ensures Mirrored(ApplyFill(l, fill).0)
  {
    var pos := AfterFill(PositionIn(l.positions, fill.tokenId), fill);
    MirroredPut(l, fill.tokenId, pos);
  }

  lemma {:induction false} PositiveRowsUnique(rows: Dict<string, Position>)
    requires Unique(rows)
    ensures Unique(PositiveRows(rows))
    ensures forall e :: e in PositiveRows(rows) ==> e in rows
  {
    if rows != [] {
      var n := |rows| - 1;
      PositiveRowsUnique(rows[..n]);
      var kept := PositiveRows(rows[..n]);
      forall i | 0 <= i < |kept|
        ensures kept[i].0 != rows[n].0 && kept[i] in rows
      {
        assert kept[i] in rows[..n];
      }
    }
  }

  lemma {:induction false} PositiveRowsGet(rows: Dict<string, Position>, t: string)
    requires Unique(rows)
    ensures Get(PositiveRows(rows), t) == if Get(rows, t).Some? && Get(rows, t).value.size > 0.0 then Get(rows, t) else None
  {
    if rows != [] {
      var n := |rows| - 1;
      PositiveRowsGet(rows[..n], t);
      assert rows == rows[..n] + [rows[n]];
      GetConcat(rows[..n], [rows[n]], t);
      GetConcat(PositiveRows(rows[..n]), [rows[n]], t);
      assert Get([rows[n]], t) == if rows[n].0 == t then Some(rows[n].1) else None;
      assert PositiveRows(rows[..n]) + [] == PositiveRows(rows[..n]);
      if Get(rows[..n], t).Some? {
        var i :| 0 <= i < n && rows[..n][i].0 == t;
        assert rows[i].0 != rows[n].0;
      }
    }
  }

  /** A restart reads back every position as it was. */
  lemma ReloadKeepsPositions(l: Ledger)
    requires Mirrored(l)
    ensures Mirrored(Reload(l))
    ensures forall t :: PositionIn(Reload(l).positions, t) == PositionIn(l.positions, t)
  {
    PositiveRowsUnique(l.rows);
    forall t
      ensures PositionIn(Reload(l).positions, t) == PositionIn(l.positions, t)
    {
      PositiveRowsGet(l.rows, t);
    }
  }

  lemma MirroredStep(s: State, op: Op)
    requires Mirrored(s.ledger)
    ensures Mirrored(Step(s, op).ledger)
  {
    match op
    case Trade(ev, now) =>
      MirroredFill(s.ledger, FillOf(ev));
      if ev.tradeId in s.applied {
        MirroredFill(s.ledger, ReverseOf(s.applied[ev.tradeId]));
      }
    case Expire(_, _) =>
    case Rest(api, now) => MirroredRest(s.ledger, api, now);
    case Force(token, size, avg) =>
      MirroredPut(s.ledger, token, Position(Max(0.0, size), if size > 0.0 then avg else 0.0));
    case Restart => ReloadKeepsPositions(s.ledger);
  }

  lemma {:induction false} AlwaysMirrored(ops: seq<Op>)
    ensures Mirrored(Run(FRESH, ops).ledger)
  {
    if ops != [] {
      AlwaysMirrored(ops[..|ops| - 1]);
      MirroredStep(Run(FRESH, ops[..|ops| - 1]), ops[|ops| - 1]);
    }
  }

  /** RESTART: at any point of any run, a restart changes no position and drops every guard. */
  lemma RestartIsTransparent(ops: seq<Op>, t: string)
    ensures var s := Run(FRESH, ops);
      var s' := Run(FRESH, ops + [Restart]);
      && PositionIn(s'.ledger.positions, t) == PositionIn(s.ledger.positions, t)
      && Count(s'.ledger.inflight, t) == 0
  {
    AlwaysMirrored(ops);
    ReloadKeepsPositions(Run(FRESH, ops).ledger);
    assert (ops + [Restart])[..|ops|] == ops;
  }

  lemma {:induction false} MatchedIsRecorded(ops: seq<Op>, i: nat)
    requires i < |ops| && ops[i].Trade? && ops[i].ev.status == MATCHED
    requires Clean(ops)
    ensures HasTrade(Run(FRESH, ops).ledger.fills, ops[i].ev.tradeId)
  {
    var n := |ops| - 1;
    assert Clean(ops[..n]);
    var s := Run(FRESH, ops[..n]);
    FillsAfter(s, ops[n]);
    var id := ops[i].ev.tradeId;
    var fills' := Run(FRESH, ops).ledger.fills;
    HasTradeIn(s.ledger.fills, id);
    HasTradeIn(fills', id);
    if i < n {
      MatchedIsRecorded(ops[..n], i);
    } else {
      ExactlyOnce(ops[..n]);
      if !HasTrade(s.ledger.fills, id) {
        assert fills'[|fills'| - 1] == FillOf(ops[n].ev);
      }
    }
  }

  ghost predicate Heard(ops: seq<Op>, ev: TradeEvent) {
    exists i :: 0 <= i < |ops| && ops[i].Trade? && ops[i].ev == ev
  }

  /** REPLAY: after a restart, feeding any of the earlier trade events again, in any order and number, changes nothing. */
  lemma {:induction false} ReplayIsIdle(ops: seq<Op>, replay: seq<Op>)
    requires Clean(ops)
    requires forall k :: 0 <= k < |replay| ==> replay[k].Trade? && Heard(ops, replay[k].ev)
    ensures Run(Run(FRESH, ops + [Restart]), replay) == Run(FRESH, ops + [Restart])
  {
    if replay != [] {
      var n := |replay| - 1;
      assert forall k :: 0 <= k < n ==> replay[..n][k] == replay[k];
      ReplayIsIdle(ops, replay[..n]);
      assert (ops + [Restart])[..|ops|] == ops;
      var i :| 0 <= i < |ops| && ops[i].Trade? && ops[i].ev == replay[n].ev;
      if replay[n].ev.status == MATCHED {
        MatchedIsRecorded(ops, i);
      }
    }
  }
}
