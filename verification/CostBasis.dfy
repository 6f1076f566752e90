/** What the average price of a position means: the money its shares have cost (src/polymaker/state/store.py). */
module CostBasis {
  import opened Numerics
  import opened Domain
  import opened Dict
  import opened Ledgers
  import opened Tracker
  import opened RiskManager
  import opened LedgerRuns
  import opened Equity

  /** Nothing is held at a price: no size, no average. */
  predicate Tidy(pos: Position) { pos.size >= 0.0 && (pos.size == 0.0 ==> pos.avgPrice == 0.0) }

  // ── One fill ─────────────────────────────────────────────────────────

  /** COST: a BUY adds its cost to that of the position, price times size; a SELL takes shares out at the average, and the
      last share takes the average with it. */
  lemma FillMovesCost(pos: Position, f: Fill)
    requires Tidy(pos) && f.size > 0.0
    ensures var after := AfterFill(pos, f);
      && Tidy(after)
      && (f.side == BUY ==>
            && after.size == pos.size + f.size
            && after.avgPrice * after.size == pos.avgPrice * pos.size + f.price * f.size)
      && (f.side == SELL ==>
            if f.size < pos.size then after.size == pos.size - f.size && after.avgPrice == pos.avgPrice
            else after.size == 0.0 && after.avgPrice == 0.0)
  {
    if f.side == BUY && pos.size > 0.0 {
      MulDiv(pos.avgPrice * pos.size + f.price * f.size, pos.size + f.size);
    }
  }

  // ── A whole run ──────────────────────────────────────────────────────

  /** The position that the fills on `token` alone lead to. */
  function PositionOf(fills: seq<Fill>, token: string): Position {
    if fills == [] then FLAT
    else
      var n := |fills| - 1;
      var pos := PositionOf(fills[..n], token);
      if fills[n].tokenId == token then AfterFill(pos, fills[n]) else pos
  }

  lemma {:induction false} PositionIsReflected(fills: seq<Fill>, token: string)
    ensures PositionOf(fills, token).size == Running(fills, token) - LowWater(fills, token)
  {
    if fills != [] {
      var n := |fills| - 1;
      PositionIsReflected(fills[..n], token);
      LowWaterIsLeast(fills[..n], token);
      assert fills[..n][..n] == fills[..n];
    }
  }

  /** With no overrides a position is what the fills on its token lead to, restarts or not. */
  ghost predicate FromFills(l: Ledger) {
    forall t :: PositionIn(l.positions, t) == PositionOf(l.fills, t)
  }

  lemma FromFillsFill(l: Ledger, fill: Fill)
    requires Mirrored(l) && FromFills(l)
    ensures FromFills(ApplyFill(l, fill).0)
  {
    hide AfterFill, Mirrored;
    var l' := ApplyFill(l, fill).0;
    if !HasTrade(l.fills, fill.tradeId) {
      assert l'.fills[..|l.fills|] == l.fills;
      forall t
        ensures PositionIn(l'.positions, t) == PositionOf(l'.fills, t)
      {
        GetPut(l.positions, fill.tokenId, AfterFill(PositionIn(l.positions, fill.tokenId), fill), t);
      }
    }
  }

  lemma FromFillsStep(s: State, op: Op)
    requires Mirrored(s.ledger) && FromFills(s.ledger) && !op.Rest? && !op.Force?
    ensures FromFills(Step(s, op).ledger)
  {
    hide ApplyFill;
    match op
    case Trade(ev, now) =>
      FromFillsFill(s.ledger, FillOf(ev));
      if ev.tradeId in s.applied {
        FromFillsFill(s.ledger, ReverseOf(s.applied[ev.tradeId]));
      }
    case Expire(_, _) =>
    case Restart => ReloadKeepsPositions(s.ledger);
  }

  lemma {:induction false} AlwaysFromFills(ops: seq<Op>)
    requires NoOverrides(ops)
    ensures FromFills(Run(FRESH, ops).ledger)
  {
    hide FromFills, Mirrored;
    if ops == [] {
      assert FromFills(FRESH.ledger) by { NothingFilled(); }
    } else {
      var n := |ops| - 1;
      AlwaysFromFills(ops[..n]);
      AlwaysMirrored(ops[..n]);
      FromFillsStep(Run(FRESH, ops[..n]), ops[n]);
    }
  }

  lemma NothingFilled()
    ensures FromFills(FRESH.ledger)
  {
  }

  /** Money spent on `token`, for fills that are all purchases. */
  function SpentOn(fills: seq<Fill>, token: string): real {
    if fills == [] then 0.0
    else
      var n := |fills| - 1;
      SpentOn(fills[..n], token) + if fills[n].tokenId == token then Cost(fills[n]) else 0.0
  }

  ghost predicate OnlyBought(fills: seq<Fill>, token: string) {
    forall i :: 0 <= i < |fills| && fills[i].tokenId == token ==> fills[i].side == BUY
  }

  lemma {:induction false} PositionsAreTidy(fills: seq<Fill>, token: string)
    ensures Tidy(PositionOf(fills, token))
  {
    if fills != [] {
      PositionsAreTidy(fills[..|fills| - 1], token);
    }
  }

  /** A BUY of nothing is no exception. */
  lemma BuyAddsCost(pos: Position, f: Fill)
    requires Tidy(pos) && f.side == BUY
    ensures AfterFill(pos, f).avgPrice * AfterFill(pos, f).size == pos.avgPrice * pos.size + Cost(f)
  {
    if f.size > 0.0 {
      FillMovesCost(pos, f);
    } else if pos.size > 0.0 {
      MulDiv(pos.avgPrice, pos.size);
    }
  }

  lemma {:induction false} CostSinceFlat(before: seq<Fill>, since: seq<Fill>, token: string)
    requires PositionOf(before, token).size == 0.0 && OnlyBought(since, token)
    ensures var pos := PositionOf(before + since, token); pos.avgPrice * pos.size == SpentOn(since, token)
  {
    hide AfterFill, Cost;
    if since == [] {
      assert before + since == before;
    } else {
      var n := |since| - 1;
      CostSinceFlat(before, since[..n], token);
      assert (before + since)[..|before| + n] == before + since[..n];
      PositionsAreTidy(before + since[..n], token);
      if since[n].tokenId == token {
        BuyAddsCost(PositionOf(before + since[..n], token), since[n]);
      }
    }
  }

  /** AVERAGE PRICE: in any run without overrides, if a token was flat after the first `k` fills and only bought since,
      average times size is exactly the money those purchases cost. */
  lemma AverageIsMoneySpent(ops: seq<Op>, token: string, k: nat)
    requires NoOverrides(ops)
    requires var fills := Run(FRESH, ops).ledger.fills;
      k <= |fills| && Running(fills[..k], token) == LowWater(fills[..k], token) && OnlyBought(fills[k..], token)
    ensures var l := Run(FRESH, ops).ledger;
      var pos := PositionIn(l.positions, token);
      pos.avgPrice * pos.size == SpentOn(l.fills[k..], token)
  {
    hide Run, NoOverrides, OnlyBought, PositionOf, PositionIn, SpentOn, Running, LowWater;
    AlwaysFromFills(ops);
    CostFrom(Run(FRESH, ops).ledger, token, k);
  }

  lemma CostFrom(l: Ledger, token: string, k: nat)
    requires FromFills(l) && k <= |l.fills|
    requires Running(l.fills[..k], token) == LowWater(l.fills[..k], token) && OnlyBought(l.fills[k..], token)
    ensures var pos := PositionIn(l.positions, token); pos.avgPrice * pos.size == SpentOn(l.fills[k..], token)
  {
    hide PositionOf, PositionIn, SpentOn, Running, LowWater, OnlyBought;
    PositionIsReflected(l.fills[..k], token);
    CostSinceFlat(l.fills[..k], l.fills[k..], token);
    assert l.fills[..k] + l.fills[k..] == l.fills;
  }

  // ── Inventory at cost ────────────────────────────────────────────────

  function Spending(fills: seq<Fill>): string -> real {
    (t: string) => SpentOn(fills, t)
  }

  lemma {:induction false} SpendingIsTotal(positions: Dict<string, Position>, fills: seq<Fill>)
    requires Unique(positions) && forall f :: f in fills ==> Get(positions, f.tokenId).Some?
    ensures SumTokens(positions, Spending(fills)) == Total(fills, Cost)
  {
    hide Cost;
    if fills == [] {
      SumTokensZero(positions, Spending(fills));
    } else {
      var n := |fills| - 1;
      assert fills[n] in fills;
      SpendingIsTotal(positions, fills[..n]);
      SumTokensStep(positions, Spending(fills[..n]), Spending(fills), fills[n].tokenId, Cost(fills[n]));
    }
  }

  lemma {:induction false} ValueAtCost(positions: Dict<string, Position>, fills: seq<Fill>)
    requires forall i :: 0 <= i < |positions| ==>
               positions[i].1.size >= 0.0 && positions[i].1.avgPrice * positions[i].1.size == SpentOn(fills, positions[i].0)
    ensures InventoryValue(positions, map[]) == SumTokens(positions, Spending(fills))
  {
    hide SpentOn;
    if positions != [] {
      var n := |positions| - 1;
      ValueAtCost(positions[..n], fills);
      assert positions[n].1.size * MarkOf(map[], positions[n].0, positions[n].1.avgPrice) == positions[n].1.avgPrice * positions[n].1.size;
    }
  }

  ghost predicate OnlyPurchases(ops: seq<Op>) {
    forall i :: 0 <= i < |ops| && ops[i].Trade? ==> ops[i].ev.ourSide == BUY && ops[i].ev.status != FAILED
  }

  lemma {:induction false} PurchasesFill(ops: seq<Op>)
    requires OnlyPurchases(ops)
    ensures forall f :: f in Run(FRESH, ops).ledger.fills ==> f.side == BUY
  {
    if ops != [] {
      var n := |ops| - 1;
      PurchasesFill(ops[..n]);
      FillsAfter(Run(FRESH, ops[..n]), ops[n]);
    }
  }

  lemma {:induction false} CashIsSpent(ops: seq<Op>)
    requires OnlyPurchases(ops) && NoRestart(ops)
    ensures var s := Run(FRESH, ops); s.netCash == -Total(s.ledger.fills, Cost)
  {
    hide Cost, CashFlow;
    if ops != [] {
      var n := |ops| - 1;
      var s := Run(FRESH, ops[..n]);
      CashIsSpent(ops[..n]);
      FillsAfter(s, ops[n]);
      CashAfter(s, ops[n]);
      if IsMatch(s, ops[n]) {
        CashIsCost(FillOf(ops[n].ev));
        assert (s.ledger.fills + [FillOf(ops[n].ev)])[..|s.ledger.fills|] == s.ledger.fills;
      }
    }
  }

  /** AT COST: while a run only buys and nothing has a mark, equity stays zero: inventory is worth what was paid for it. */
  lemma UnmarkedPurchasesAreWorthTheirCost(ops: seq<Op>)
    requires OnlyPurchases(ops) && NoRestart(ops) && NoOverrides(ops)
    ensures var s := Run(FRESH, ops); s.netCash + InventoryValue(s.ledger.positions, map[]) == 0.0
  {
    hide Run, Total, SpentOn, InventoryValue, PositionOf, Running, LowWater;
    var l := Run(FRESH, ops).ledger;
    AlwaysMirrored(ops);
    AlwaysCovered(ops);
    PurchasesFill(ops);
    CashIsSpent(ops);
    forall i | 0 <= i < |l.positions|
      ensures l.positions[i].1.size >= 0.0 && l.positions[i].1.avgPrice * l.positions[i].1.size == SpentOn(l.fills, l.positions[i].0)
    {
      var t := l.positions[i].0;
      GetEntry(l.positions, i);
      assert PositionIn(l.positions, t) == l.positions[i].1;
      EverythingSpent(ops, t);
    }
    ValueAtCost(l.positions, l.fills);
    SpendingIsTotal(l.positions, l.fills);
  }

  lemma EverythingSpent(ops: seq<Op>, t: string)
    requires OnlyPurchases(ops) && NoOverrides(ops)
    ensures var l := Run(FRESH, ops).ledger;
      PositionIn(l.positions, t).avgPrice * PositionIn(l.positions, t).size == SpentOn(l.fills, t)
  {
    hide Run, SpentOn, PositionOf, PositionIn;
    PurchasesFill(ops);
    var fills := Run(FRESH, ops).ledger.fills;
    assert fills[..0] == [] && fills[0..] == fills;
    AverageIsMoneySpent(ops, t, 0);
  }
}
