/** What inventory and equity amount to over a run, in terms of the fills table. */
module Equity {
  import opened Numerics
  import opened Domain
  import opened Dict
  import opened Ledgers
  import opened Tracker
  import opened RiskManager
  import opened LedgerRuns

  ghost predicate NoOverrides(ops: seq<Op>) {
    forall i :: 0 <= i < |ops| ==> !ops[i].Rest? && !ops[i].Force?
  }

  // ── Inventory is the reflected running sum ───────────────────────────

  function Move(f: Fill, t: string): real {
    if f.tokenId == t then f.Signed() else 0.0
  }

  /** S_n: the plain sum of moves on `t`. */
  function Running(fills: seq<Fill>, t: string): real {
    if fills == [] then 0.0 else Running(fills[..|fills| - 1], t) + Move(fills[|fills| - 1], t)
  }

  /** min(0, min_k S_k) */
  function LowWater(fills: seq<Fill>, t: string): real {
    if fills == [] then 0.0 else Min(LowWater(fills[..|fills| - 1], t), Running(fills, t))
  }

  lemma {:induction false} LowWaterIsLeast(fills: seq<Fill>, t: string)
    ensures forall k :: 0 <= k <= |fills| ==> LowWater(fills, t) <= Running(fills[..k], t)
    ensures exists k :: 0 <= k <= |fills| && LowWater(fills, t) == Running(fills[..k], t)
  {
    hide Move;
    if fills == [] {
      assert LowWater(fills, t) == Running(fills[..0], t);
    } else {
      var n := |fills| - 1;
      LowWaterIsLeast(fills[..n], t);
      assert fills[..n + 1] == fills;
      assert forall k :: 0 <= k <= n ==> fills[..n][..k] == fills[..k];
      if LowWater(fills, t) == Running(fills, t) {
        assert LowWater(fills, t) == Running(fills[..n + 1], t);
      } else {
        var k :| 0 <= k <= n && LowWater(fills[..n], t) == Running(fills[..n][..k], t);
        assert LowWater(fills, t) == Running(fills[..k], t);
      }
    }
  }

  /** The size each token shows is its running sum, reflected at zero. */
  ghost predicate Reflected(l: Ledger) {
    forall t :: PositionIn(l.positions, t).size == Running(l.fills, t) - LowWater(l.fills, t)
  }

  lemma ReflectedFill(l: Ledger, fill: Fill)
    requires Mirrored(l) && Reflected(l)
    ensures Reflected(ApplyFill(l, fill).0)
  {
    var l' := ApplyFill(l, fill).0;
    if !HasTrade(l.fills, fill.tradeId) {
      MirroredPut(l, fill.tokenId, AfterFill(PositionIn(l.positions, fill.tokenId), fill));
      assert l'.fills[..|l'.fills| - 1] == l.fills;
      forall t
        ensures PositionIn(l'.positions, t).size == Running(l'.fills, t) - LowWater(l'.fills, t)
      {
        LowWaterIsLeast(l.fills, t);
        assert l.fills[..|l.fills|] == l.fills;
      }
    }
  }

  lemma ReflectedCongruence(l: Ledger, l': Ledger)
    requires Reflected(l) && l'.fills == l.fills
    requires forall t :: PositionIn(l'.positions, t) == PositionIn(l.positions, t)
    ensures Reflected(l')
  {
  }

  lemma ReflectedStep(s: State, op: Op)
    requires Mirrored(s.ledger) && Reflected(s.ledger) && !op.Rest? && !op.Force?
    ensures Reflected(Step(s, op).ledger)
  {
    match op
    case Trade(ev, now) =>
      ReflectedFill(s.ledger, FillOf(ev));
      if ev.tradeId in s.applied {
        ReflectedFill(s.ledger, ReverseOf(s.applied[ev.tradeId]));
      }
    case Expire(_, _) =>
    case Restart =>
      ReloadKeepsPositions(s.ledger);
      ReflectedCongruence(s.ledger, Step(s, op).ledger);
  }

  /** INVENTORY: with no overrides, every position is S_n - min(0, min_k S_k) over the fills table. */
  lemma {:induction false} InventoryIsReflected(ops: seq<Op>, t: string)
    requires NoOverrides(ops)
    ensures Reflected(Run(FRESH, ops).ledger)
    ensures var l := Run(FRESH, ops).ledger;
      PositionIn(l.positions, t).size == Running(l.fills, t) - LowWater(l.fills, t)
  {
    if ops != [] {
      var n := |ops| - 1;
      InventoryIsReflected(ops[..n], t);
      AlwaysMirrored(ops[..n]);
      ReflectedStep(Run(FRESH, ops[..n]), ops[n]);
    }
  }

  // ── Sums over the fills table ────────────────────────────────────────

  type Weight = Fill -> real

  function Total(fills: seq<Fill>, w: Weight): real {
    if fills == [] then 0.0 else Total(fills[..|fills| - 1], w) + w(fills[|fills| - 1])
  }

  /** `f` is a trade's own fill, not a reversal. */
  predicate Forward(f: Fill) { !Reserved(f.tradeId) }

  predicate Undone(f: Fill, all: seq<Fill>) { HasTrade(all, f.tradeId + SUFFIX) }

  /** Sum over the forward fills that stand. */
  function Standing(fills: seq<Fill>, all: seq<Fill>, w: Weight): real {
    if fills == [] then 0.0
    else
      var n := |fills| - 1;
      Standing(fills[..n], all, w) + if Forward(fills[n]) && !Undone(fills[n], all) then w(fills[n]) else 0.0
  }

  /** Sum over the forward fills that were reversed. */
  function Undoings(fills: seq<Fill>, all: seq<Fill>, w: Weight): real {
    if fills == [] then 0.0
    else
      var n := |fills| - 1;
      Undoings(fills[..n], all, w) + if Forward(fills[n]) && Undone(fills[n], all) then w(fills[n]) else 0.0
  }

  ghost predicate Odd(w: Weight) {
    forall f :: w(ReverseOf(f)) == -w(f)
  }

  lemma HasTradeSnoc(fills: seq<Fill>, r: Fill, id: string)
    ensures HasTrade(fills + [r], id) <==> HasTrade(fills, id) || r.tradeId == id
  {
    HasTradeIn(fills, id);
    HasTradeIn(fills + [r], id);
    assert r in fills + [r];
  }

  /** A new entry that reverses nothing in `fills` changes neither sum. */
  lemma {:induction false} SumsIgnore(fills: seq<Fill>, all: seq<Fill>, r: Fill, w: Weight)
    requires forall f :: f in fills ==> r.tradeId != f.tradeId + SUFFIX
    ensures Standing(fills, all + [r], w) == Standing(fills, all, w)
    ensures Undoings(fills, all + [r], w) == Undoings(fills, all, w)
  {
    if fills != [] {
      var n := |fills| - 1;
      SumsIgnore(fills[..n], all, r, w);
      assert fills[n] in fills;
      HasTradeSnoc(all, r, fills[n].tradeId + SUFFIX);
    }
  }

  /** A new reversal moves exactly its own fill from one sum to the other. */
  lemma {:induction false} SumsFlip(fills: seq<Fill>, all: seq<Fill>, f: Fill, w: Weight)
    requires DistinctTrades(fills) && f in fills && Forward(f) && !Undone(f, all)
    ensures Standing(fills, all + [ReverseOf(f)], w) == Standing(fills, all, w) - w(f)
    ensures Undoings(fills, all + [ReverseOf(f)], w) == Undoings(fills, all, w) + w(f)
  {
    var n := |fills| - 1;
    var r := ReverseOf(f);
    HasTradeSnoc(all, r, fills[n].tradeId + SUFFIX);
    ReverseIds(f.tradeId, fills[n].tradeId);
    if fills[n] == f {
      forall g | g in fills[..n]
        ensures r.tradeId != g.tradeId + SUFFIX
      {
        ReverseIds(f.tradeId, g.tradeId);
      }
      SumsIgnore(fills[..n], all, r, w);
    } else {
      var i :| 0 <= i < |fills| && fills[i] == f;
      assert f == fills[..n][i];
      assert fills[n].tradeId != f.tradeId;
      SumsFlip(fills[..n], all, f, w);
    }
  }

  /** Total and standing sums agree, and cash is what the forward fills cost. */
  ghost predicate Balanced(s: State, w: Weight) {
    && Total(s.ledger.fills, w) == Standing(s.ledger.fills, s.ledger.fills, w)
    && s.netCash == -(Standing(s.ledger.fills, s.ledger.fills, Cost) + Undoings(s.ledger.fills, s.ledger.fills, Cost))
  }

  function Cost(f: Fill): real { f.Signed() * f.price }

  lemma SumsForward(fills: seq<Fill>, f: Fill, w: Weight)
    requires Forward(f) && !HasTrade(fills, f.tradeId + SUFFIX) && f.tradeId != f.tradeId + SUFFIX
    requires forall g :: g in fills ==> f.tradeId != g.tradeId + SUFFIX
    ensures var fills' := fills + [f];
      && Total(fills', w) == Total(fills, w) + w(f)
      && Standing(fills', fills', w) == Standing(fills, fills, w) + w(f)
      && Undoings(fills', fills', w) == Undoings(fills, fills, w)
  {
    assert (fills + [f])[..|fills|] == fills;
    SumsIgnore(fills, fills, f, w);
    HasTradeSnoc(fills, f, f.tradeId + SUFFIX);
  }

  lemma SumsReverse(fills: seq<Fill>, f: Fill, w: Weight)
    requires DistinctTrades(fills) && f in fills && Forward(f) && !Undone(f, fills)
    ensures var fills' := fills + [ReverseOf(f)];
      && Total(fills', w) == Total(fills, w) + w(ReverseOf(f))
      && Standing(fills', fills', w) == Standing(fills, fills, w) - w(f)
      && Undoings(fills', fills', w) == Undoings(fills, fills, w) + w(f)
  {
    assert (fills + [ReverseOf(f)])[..|fills|] == fills;
    SumsFlip(fills, fills, f, w);
    ReverseIds(f.tradeId, f.tradeId);
  }

  lemma CashIsCost(f: Fill)
    ensures CashFlow(f) == -Cost(f)
  {
    var size: real := f.size;
    var v := f.price * size;
    if f.side == SELL {
      assert Cost(f) == (-size) * f.price == -v;
      assert CashFlow(f) == v * 1.0;
    } else {
      assert Cost(f) == size * f.price == v;
      assert CashFlow(f) == v * -1.0;
    }
  }

  predicate IsMatch(s: State, op: Op) {
    op.Trade? && op.ev.status == MATCHED && op.ev.tradeId !in s.applied && !HasTrade(s.ledger.fills, op.ev.tradeId)
  }

  /** Cash moves at a first match and at nothing else. */
  lemma CashAfter(s: State, op: Op)
    requires !op.Restart?
    ensures Step(s, op).netCash == s.netCash + if IsMatch(s, op) then CashFlow(FillOf(op.ev)) else 0.0
  {
  }

  lemma BalancedMatch(s: State, status: string -> Status, op: Op, w: Weight)
    requires Agrees(s, status) && Balanced(s, w) && IsMatch(s, op) && !Reserved(op.ev.tradeId)
    ensures Balanced(Step(s, op), w)
  {
    FillsAfter(s, op);
    CashAfter(s, op);
    var f := FillOf(op.ev);
    CashIsCost(f);
    ForwardIsNew(s, status, f);
    SumsForward(s.ledger.fills, f, w);
    SumsForward(s.ledger.fills, f, Cost);
  }

  lemma BalancedFailure(s: State, status: string -> Status, op: Op, w: Weight)
    requires Agrees(s, status) && Balanced(s, w) && Odd(w)
    requires op.Trade? && op.ev.status == FAILED && op.ev.tradeId in s.applied
    ensures Balanced(Step(s, op), w)
  {
    FillsAfter(s, op);
    CashAfter(s, op);
    var f := s.applied[op.ev.tradeId];
    ReversalIsNew(s, status, op.ev.tradeId);
    SumsReverse(s.ledger.fills, f, w);
    SumsReverse(s.ledger.fills, f, Cost);
  }

  lemma BalancedStep(s: State, status: string -> Status, op: Op, w: Weight)
    requires Agrees(s, status) && Balanced(s, w) && Odd(w)
    requires !op.Restart? && (op.Trade? ==> !Reserved(op.ev.tradeId))
    ensures Balanced(Step(s, op), w)
  {
    if IsMatch(s, op) {
      BalancedMatch(s, status, op, w);
    } else if op.Trade? && op.ev.status == FAILED && op.ev.tradeId in s.applied {
      BalancedFailure(s, status, op, w);
    } else {
      FillsAfter(s, op);
      CashAfter(s, op);
    }
  }

  /** A trade seen for the first time is neither a reversal nor reversed. */
  lemma ForwardIsNew(s: State, status: string -> Status, f: Fill)
    requires Agrees(s, status) && Forward(f) && !HasTrade(s.ledger.fills, f.tradeId)
    ensures !HasTrade(s.ledger.fills, f.tradeId + SUFFIX)
    ensures f.tradeId != f.tradeId + SUFFIX
    ensures forall g :: g in s.ledger.fills ==> f.tradeId != g.tradeId + SUFFIX
  {
    HasTradeIn(s.ledger.fills, f.tradeId);
    HasTradeIn(s.ledger.fills, f.tradeId + SUFFIX);
    ReverseIds(f.tradeId, f.tradeId);
    forall g | g in s.ledger.fills
      ensures g.tradeId != f.tradeId + SUFFIX && f.tradeId != g.tradeId + SUFFIX
    {
      ReverseIds(g.tradeId, g.tradeId);
      if Reserved(g.tradeId) {
        var x :| !Reserved(x) && status(x).Reversed? && g == ReverseOf(status(x).fill);
        ReverseIds(x, f.tradeId);
        assert status(x).fill in s.ledger.fills;
      }
    }
  }

  ghost predicate NoRestart(ops: seq<Op>) {
    forall i :: 0 <= i < |ops| ==> !ops[i].Restart?
  }

  lemma {:induction false} AlwaysBalanced(ops: seq<Op>, w: Weight)
    requires Clean(ops) && NoRestart(ops) && Odd(w)
    ensures Balanced(Run(FRESH, ops), w)
  {
    if ops != [] {
      var n := |ops| - 1;
      assert Clean(ops[..n]) && NoRestart(ops[..n]);
      AlwaysBalanced(ops[..n], w);
      ExactlyOnce(ops[..n]);
      BalancedStep(Run(FRESH, ops[..n]), id => StatusOf(ops[..n], id), ops[n], w);
    }
  }

  // ── Inventory at the marks ───────────────────────────────────────────

  function Marked(marks: map<string, real>): Weight {
    (f: Fill) => f.Signed() * MarkOf(marks, f.tokenId, 0.0)
  }

  /** Profit of a fill at the marks. */
  function Gain(marks: map<string, real>): Weight {
    (f: Fill) => f.Signed() * (MarkOf(marks, f.tokenId, 0.0) - f.price)
  }

  lemma MarkedIsOdd(marks: map<string, real>)
    ensures Odd(Marked(marks))
  {
    forall f: Fill
      ensures Marked(marks)(ReverseOf(f)) == -Marked(marks)(f)
    {
      var m := MarkOf(marks, f.tokenId, 0.0);
      assert ReverseOf(f).Signed() == -f.Signed();
      assert (-f.Signed()) * m == -(f.Signed() * m);
    }
  }

  /** A value per token, added up over the tokens of `positions`. */
  function SumTokens(positions: Dict<string, Position>, value: string -> real): real {
    if positions == [] then 0.0
    else
      var n := |positions| - 1;
      SumTokens(positions[..n], value) + value(positions[n].0)
  }

  lemma {:induction false} SumTokensStep(positions: Dict<string, Position>, value: string -> real, value': string -> real,
                                         t: string, d: real)
    requires Unique(positions)
    requires forall u :: value'(u) == value(u) + if u == t then d else 0.0
    ensures SumTokens(positions, value') == SumTokens(positions, value) + if Get(positions, t).Some? then d else 0.0
  {
    if positions != [] {
      SumTokensStep(positions[..|positions| - 1], value, value', t, d);
      GetLast(positions, t);
    }
  }

  lemma {:induction false} SumTokensZero(positions: Dict<string, Position>, value: string -> real)
    requires forall t :: value(t) == 0.0
    ensures SumTokens(positions, value) == 0.0
  {
    if positions != [] {
      SumTokensZero(positions[..|positions| - 1], value);
    }
  }

  /** The plain sum of each token's moves, valued at its mark. */
  function Valued(fills: seq<Fill>, marks: map<string, real>): string -> real {
    (t: string) => Running(fills, t) * MarkOf(marks, t, 0.0)
  }

  lemma ValuedSnoc(fills: seq<Fill>, f: Fill, marks: map<string, real>, t: string)
    ensures Valued(fills + [f], marks)(t) == Valued(fills, marks)(t) + if t == f.tokenId then Marked(marks)(f) else 0.0
  {
    var m := MarkOf(marks, t, 0.0);
    assert (fills + [f])[..|fills|] == fills;
    assert Running(fills + [f], t) == Running(fills, t) + Move(f, t);
    assert (Running(fills, t) + Move(f, t)) * m == Running(fills, t) * m + Move(f, t) * m;
  }

  lemma {:induction false} ValueIsTotal(positions: Dict<string, Position>, fills: seq<Fill>, marks: map<string, real>)
    requires Unique(positions) && forall f :: f in fills ==> Get(positions, f.tokenId).Some?
    ensures SumTokens(positions, Valued(fills, marks)) == Total(fills, Marked(marks))
  {
    if fills == [] {
      SumTokensZero(positions, Valued(fills, marks));
    } else {
      var n := |fills| - 1;
      var f := fills[n];
      assert fills == fills[..n] + [f];
      assert f in fills;
      ValueIsTotal(positions, fills[..n], marks);
      forall t {
        ValuedSnoc(fills[..n], f, marks, t);
      }
      SumTokensStep(positions, Valued(fills[..n], marks), Valued(fills, marks), f.tokenId, Marked(marks)(f));
    }
  }

  /** What each token's clipping at zero is worth at its mark; never positive for a mark that is not negative. */
  function Clipping(fills: seq<Fill>, marks: map<string, real>): string -> real {
    (t: string) => LowWater(fills, t) * MarkOf(marks, t, 0.0)
  }

  lemma DiffTimes(a: real, b: real, m: real)
    ensures (a - b) * m == a * m - b * m
  {
  }

  /** The reflected size at its mark: the running sum less the clipping. */
  lemma ClippedValue(fills: seq<Fill>, marks: map<string, real>, t: string, size: real)
    requires size == Running(fills, t) - LowWater(fills, t)
    ensures size * MarkOf(marks, t, 0.0) == Valued(fills, marks)(t) - Clipping(fills, marks)(t)
  {
    hide Running, LowWater, MarkOf;
    DiffTimes(Running(fills, t), LowWater(fills, t), MarkOf(marks, t, 0.0));
  }

  lemma ValueOfPosition(positions: Dict<string, Position>, marks: map<string, real>)
    requires positions != [] && var (t, pos) := positions[|positions| - 1]; pos.size >= 0.0 && t in marks
    ensures var (t, pos) := positions[|positions| - 1];
      InventoryValue(positions, marks) == InventoryValue(positions[..|positions| - 1], marks) + pos.size * MarkOf(marks, t, 0.0)
  {
  }

  lemma {:induction false} InventoryByToken(positions: Dict<string, Position>, fills: seq<Fill>, marks: map<string, real>)
    requires forall i :: 0 <= i < |positions| ==>
               && positions[i].1.size == Running(fills, positions[i].0) - LowWater(fills, positions[i].0) >= 0.0
               && positions[i].0 in marks
    ensures InventoryValue(positions, marks) ==
            SumTokens(positions, Valued(fills, marks)) - SumTokens(positions, Clipping(fills, marks))
  {
    hide Running, LowWater, Valued, Clipping, MarkOf;
    if positions != [] {
      hide InventoryValue;
      var n := |positions| - 1;
      InventoryByToken(positions[..n], fills, marks);
      ClippedValue(fills, marks, positions[n].0, positions[n].1.size);
      ValueOfPosition(positions, marks);
    }
  }

  /** Every token with a fill has a position entry. */
  ghost predicate Covered(l: Ledger) {
    forall f :: f in l.fills ==> Get(l.positions, f.tokenId).Some?
  }

  lemma CoveredFill(l: Ledger, fill: Fill)
    requires Covered(l)
    ensures Covered(ApplyFill(l, fill).0)
  {
    var pos := AfterFill(PositionIn(l.positions, fill.tokenId), fill);
    forall f | f in ApplyFill(l, fill).0.fills
      ensures Get(ApplyFill(l, fill).0.positions, f.tokenId).Some?
    {
      GetPut(l.positions, fill.tokenId, pos, f.tokenId);
    }
  }

  lemma {:induction false} AlwaysCovered(ops: seq<Op>)
    requires NoRestart(ops) && NoOverrides(ops)
    ensures Covered(Run(FRESH, ops).ledger)
  {
    if ops != [] {
      var n := |ops| - 1;
      AlwaysCovered(ops[..n]);
      var s := Run(FRESH, ops[..n]);
      if ops[n].Trade? {
        CoveredFill(s.ledger, FillOf(ops[n].ev));
        if ops[n].ev.tradeId in s.applied {
          CoveredFill(s.ledger, ReverseOf(s.applied[ops[n].ev.tradeId]));
        }
      }
    }
  }

  /** No sale ever exceeded what was held. */
  ghost predicate NeverOversold(fills: seq<Fill>) {
    forall t :: LowWater(fills, t) == 0.0
  }

  lemma {:induction false} GainSplits(fills: seq<Fill>, all: seq<Fill>, marks: map<string, real>)
    ensures Standing(fills, all, Gain(marks)) == Standing(fills, all, Marked(marks)) - Standing(fills, all, Cost)
  {
    if fills != [] {
      var n := |fills| - 1;
      GainSplits(fills[..n], all, marks);
      var (q, m, p) := (fills[n].Signed(), MarkOf(marks, fills[n].tokenId, 0.0), fills[n].price);
      assert q * (m - p) == q * m - q * p;
    }
  }

  /** The clipping of all tokens: zero if nothing was ever oversold, else minus the shortfalls at their marks. */
  function Clipped(l: Ledger, marks: map<string, real>): real {
    SumTokens(l.positions, Clipping(l.fills, marks))
  }

  lemma NothingClipped(l: Ledger, marks: map<string, real>)
    requires NeverOversold(l.fills)
    ensures Clipped(l, marks) == 0.0
  {
    forall t
      ensures Clipping(l.fills, marks)(t) == 0.0
    {
      assert LowWater(l.fills, t) == 0.0;
    }
    SumTokensZero(l.positions, Clipping(l.fills, marks));
  }

  /** INVENTORY AT THE MARKS: the sum over the trades that stand, less what was clipped at zero. */
  lemma InventoryOfStandingTrades(ops: seq<Op>, marks: map<string, real>)
    requires Clean(ops) && NoOverrides(ops) && NoRestart(ops)
    requires var l := Run(FRESH, ops).ledger; forall i :: 0 <= i < |l.positions| ==> l.positions[i].0 in marks
    ensures var l := Run(FRESH, ops).ledger;
      && InventoryValue(l.positions, marks) == Standing(l.fills, l.fills, Marked(marks)) - Clipped(l, marks)
      && (NeverOversold(l.fills) ==> InventoryValue(l.positions, marks) == Standing(l.fills, l.fills, Marked(marks)))
  {
    hide InventoryValue, Standing, Total, Running, LowWater;
    var l := Run(FRESH, ops).ledger;
    AlwaysMirrored(ops);
    AlwaysCovered(ops);
    MarkedIsOdd(marks);
    AlwaysBalanced(ops, Marked(marks));
    forall i | 0 <= i < |l.positions|
      ensures l.positions[i].1.size == Running(l.fills, l.positions[i].0) - LowWater(l.fills, l.positions[i].0) >= 0.0
    {
      var t := l.positions[i].0;
      InventoryIsReflected(ops, t);
      GetEntry(l.positions, i);
      assert PositionIn(l.positions, t) == l.positions[i].1;
    }
    InventoryByToken(l.positions, l.fills, marks);
    ValueIsTotal(l.positions, l.fills, marks);
    if NeverOversold(l.fills) {
      NothingClipped(l, marks);
    }
  }

  /** EQUITY: cash plus inventory is the gain of the trades that stand, less the cost of the failed ones, which a FAILED
      never refunds, and less what was clipped at zero. So equity is right if and only if those two cancel; without
      overselling, if and only if the failed trades cost nothing. */
  lemma EquityIdentity(ops: seq<Op>, marks: map<string, real>)
    requires Clean(ops) && NoOverrides(ops) && NoRestart(ops)
    requires var l := Run(FRESH, ops).ledger; forall i :: 0 <= i < |l.positions| ==> l.positions[i].0 in marks
    ensures var s := Run(FRESH, ops);
      var fills := s.ledger.fills;
      var equity, earned := s.netCash + InventoryValue(s.ledger.positions, marks), Standing(fills, fills, Gain(marks));
      && equity == earned - Undoings(fills, fills, Cost) - Clipped(s.ledger, marks)
      && (equity == earned <==> Undoings(fills, fills, Cost) + Clipped(s.ledger, marks) == 0.0)
      && (NeverOversold(fills) ==> (equity == earned <==> Undoings(fills, fills, Cost) == 0.0))
  {
    hide InventoryValue, Standing, Undoings, Total, Clipped;
    var s := Run(FRESH, ops);
    MarkedIsOdd(marks);
    AlwaysBalanced(ops, Marked(marks));
    InventoryOfStandingTrades(ops, marks);
    GainSplits(s.ledger.fills, s.ledger.fills, marks);
    if NeverOversold(s.ledger.fills) {
      NothingClipped(s.ledger, marks);
    }
  }

  ghost predicate NoFailure(ops: seq<Op>) {
    forall i :: 0 <= i < |ops| && ops[i].Trade? ==> ops[i].ev.status != FAILED
  }

  lemma {:induction false} NothingReversed(ops: seq<Op>, id: string)
    requires NoFailure(ops)
    ensures !StatusOf(ops, id).Reversed?
  {
    if ops != [] {
      NothingReversed(ops[..|ops| - 1], id);
    }
  }

  lemma {:induction false} OnlyForward(fills: seq<Fill>, all: seq<Fill>, w: Weight)
    requires forall f :: f in fills ==> Forward(f)
    requires forall f :: f in all ==> Forward(f)
    ensures Standing(fills, all, w) == Total(fills, w) && Undoings(fills, all, w) == 0.0
  {
    if fills != [] {
      var n := |fills| - 1;
      OnlyForward(fills[..n], all, w);
      assert fills[n] in fills;
      HasTradeIn(all, fills[n].tradeId + SUFFIX);
      ReverseIds(fills[n].tradeId, fills[n].tradeId);
    }
  }

  /** Without failures, equity is the sum over distinct trades of signed size times (mark - fill price), less what was
      clipped at zero; plainly that sum if nothing was oversold. */
  lemma EquityWithoutFailures(ops: seq<Op>, marks: map<string, real>)
    requires Clean(ops) && NoOverrides(ops) && NoRestart(ops) && NoFailure(ops)
    requires var l := Run(FRESH, ops).ledger; forall i :: 0 <= i < |l.positions| ==> l.positions[i].0 in marks
    ensures var s := Run(FRESH, ops);
      var equity := s.netCash + InventoryValue(s.ledger.positions, marks);
      && DistinctTrades(s.ledger.fills)
      && equity == Total(s.ledger.fills, Gain(marks)) - Clipped(s.ledger, marks)
      && (NeverOversold(s.ledger.fills) ==> equity == Total(s.ledger.fills, Gain(marks)))
  {
    hide InventoryValue, Clipped;
    var s := Run(FRESH, ops);
    EquityIdentity(ops, marks);
    ExactlyOnce(ops);
    if NeverOversold(s.ledger.fills) {
      NothingClipped(s.ledger, marks);
    }
    forall f | f in s.ledger.fills
      ensures Forward(f)
    {
      if Reserved(f.tradeId) {
        var x :| !Reserved(x) && StatusOf(ops, x).Reversed? && f == ReverseOf(StatusOf(ops, x).fill);
        NothingReversed(ops, x);
        assert false;
      }
    }
    OnlyForward(s.ledger.fills, s.ledger.fills, Gain(marks));
    OnlyForward(s.ledger.fills, s.ledger.fills, Cost);
  }
}
