/** What a failed trade gives back (src/polymaker/state/tracker.py, src/polymaker/state/store.py). */
module Reversals {
  import opened Numerics
  import opened Domain
  import opened Dict
  import opened Ledgers
  import opened Tracker
  import opened RiskManager
  import opened LedgerRuns
  import E = Equity
  import opened CostBasis

  // ── One fill and its reversal ────────────────────────────────────────

  function ThereAndBack(pos: Position, f: Fill): Position { AfterFill(AfterFill(pos, f), ReverseOf(f)) }

  /** Mixing in shares at another price moves the average. */
  lemma MixedAverage(avg: real, size: real, price: real, more: real)
    requires size > 0.0 && more > 0.0
    ensures (avg * size + price * more) / (size + more) == avg <==> price == avg
  {
    var total := size + more;
    MulDiv(avg * size + price * more, total);
    MulDiv(avg, total);
    assert avg * total == avg * size + avg * more;
    if price != avg {
      MulMono(price, avg, more);
      MulMono(avg, price, more);
    }
  }

  /** A reversed BUY gives back the size; the average price only if the trade was at that price or opened the position. */
  lemma ReversedBuy(pos: Position, f: Fill)
    requires Tidy(pos) && f.side == BUY && f.size > 0.0
    ensures ThereAndBack(pos, f).size == pos.size
    ensures ThereAndBack(pos, f) == pos <==> pos.size == 0.0 || f.price == pos.avgPrice
  {
    if pos.size > 0.0 {
      MixedAverage(pos.avgPrice, pos.size, f.price, f.size);
    }
  }

  /** A reversed SELL gives back the size only if it was held, and the average price only if it was the trade's. */
  lemma ReversedSell(pos: Position, f: Fill)
    requires Tidy(pos) && f.side == SELL && f.size > 0.0
    ensures ThereAndBack(pos, f).size == pos.size <==> f.size <= pos.size
    ensures ThereAndBack(pos, f) == pos <==> f.size <= pos.size && f.price == pos.avgPrice
  {
    if f.size < pos.size {
      MixedAverage(pos.avgPrice, pos.size - f.size, f.price, f.size);
    }
  }

  // ── A failure at any moment of a run ─────────────────────────────────

  /** A failure of a trade that is open after `ops`. */
  ghost predicate Fails(ops: seq<Op>, failure: TradeEvent) {
    && Clean(ops) && !Reserved(failure.tradeId) && failure.status == FAILED
    && StatusOf(ops, failure.tradeId).Open?
  }

  lemma ReversesOnly(s: State, failure: TradeEvent, now: real)
    requires failure.status == FAILED && failure.tradeId in s.applied
    requires !HasTrade(s.ledger.fills, ReverseOf(s.applied[failure.tradeId]).tradeId)
    ensures var f := s.applied[failure.tradeId];
      var s' := AfterTrade(s, failure, now);
      && s'.ledger.fills == s.ledger.fills + [ReverseOf(f)]
      && s'.netCash == s.netCash
      && PositionIn(s'.ledger.positions, f.tokenId) == AfterFill(PositionIn(s.ledger.positions, f.tokenId), ReverseOf(f))
  {
    hide AfterFill, Put, Get;
    var f := s.applied[failure.tradeId];
    GetPut(s.ledger.positions, f.tokenId, AfterFill(PositionIn(s.ledger.positions, f.tokenId), ReverseOf(f)), f.tokenId);
  }

  /** In any run a failure records exactly the reversal of its trade. */
  lemma FailureReverses(ops: seq<Op>, failure: TradeEvent, now: real)
    requires Fails(ops, failure)
    ensures var s, f := Run(FRESH, ops), StatusOf(ops, failure.tradeId).fill;
      var s' := Step(s, Trade(failure, now));
      && f in s.ledger.fills && f.tradeId == failure.tradeId
      && DistinctTrades(s.ledger.fills) && !HasTrade(s.ledger.fills, f.tradeId + SUFFIX)
      && s'.ledger.fills == s.ledger.fills + [ReverseOf(f)]
      && s'.netCash == s.netCash
      && PositionIn(s'.ledger.positions, f.tokenId) == AfterFill(PositionIn(s.ledger.positions, f.tokenId), ReverseOf(f))
  {
    hide AfterFill, AfterTrade;
    var s, id := Run(FRESH, ops), failure.tradeId;
    ExactlyOnce(ops);
    AgreesOn(s, x => StatusOf(ops, x), id);
    ReversalIsNew(s, x => StatusOf(ops, x), id);
    ReverseNamesIt(s.applied[id]);
    ReversesOnly(s, failure, now);
  }

  /** A reversal takes the trade's signed size back unless that oversells; the average price stays only if shares
      remain, or if the shares that come back were sold at it. */
  lemma ReversalMoves(pos: Position, f: Fill)
    requires Tidy(pos)
    ensures var pos' := AfterFill(pos, ReverseOf(f));
      && (pos'.size == pos.size - f.Signed() <==> f.side == SELL || f.size <= pos.size)
      && (pos'.avgPrice == pos.avgPrice <==>
            if f.side == BUY then f.size < pos.size || pos.avgPrice == 0.0 else f.size == 0.0 || f.price == pos.avgPrice)
  {
    if f.side == SELL && pos.size > 0.0 {
      if f.size > 0.0 {
        MixedAverage(pos.avgPrice, pos.size, f.price, f.size);
      } else {
        MulDiv(pos.avgPrice, pos.size);
      }
    }
  }

  /** FAILURE: whenever a trade fails, its cash flow stays; its size comes back unless it was a BUY of more than is now
      held. A failed BUY keeps the average price while shares remain, a failed SELL only if it sold at that price. */
  lemma WhatAFailureTakesBack(ops: seq<Op>, failure: TradeEvent, now: real)
    requires Fails(ops, failure)
    ensures var s, f := Run(FRESH, ops), StatusOf(ops, failure.tradeId).fill;
      var s' := Step(s, Trade(failure, now));
      var pos, pos' := PositionIn(s.ledger.positions, f.tokenId), PositionIn(s'.ledger.positions, f.tokenId);
      && (pos'.size == pos.size - f.Signed() <==> f.side == SELL || f.size <= pos.size)
      && (pos'.avgPrice == pos.avgPrice <==>
            if f.side == BUY then f.size < pos.size || pos.avgPrice == 0.0 else f.size == 0.0 || f.price == pos.avgPrice)
      && s'.netCash == s.netCash
  {
    hide AfterFill, AfterTrade;
    var s, f := Run(FRESH, ops), StatusOf(ops, failure.tradeId).fill;
    FailureReverses(ops, failure, now);
    AlwaysMirrored(ops);
    ReversalMoves(PositionIn(s.ledger.positions, f.tokenId), f);
  }

  // ── Against the same fills without the failed trade ──────────────────

  /** The fills that are neither the trade `id` nor its reversal. */
  function Others(fills: seq<Fill>, id: string): seq<Fill> {
    if fills == [] then []
    else
      var n := |fills| - 1;
      Others(fills[..n], id) + if fills[n].tradeId == id || fills[n].tradeId == id + SUFFIX then [] else [fills[n]]
  }

  lemma RunningSnoc(fills: seq<Fill>, f: Fill, token: string)
    ensures E.Running(fills + [f], token) == E.Running(fills, token) + E.Move(f, token)
  {
    assert (fills + [f])[..|fills|] == fills;
  }

  /** Leaving one trade out of the table takes just its own move out of the sum. */
  lemma {:induction false} RunningOthers(fills: seq<Fill>, f: Fill, token: string)
    requires DistinctTrades(fills) && !HasTrade(fills, f.tradeId + SUFFIX)
    requires HasTrade(fills, f.tradeId) ==> f in fills
    ensures E.Running(fills, token) ==
            E.Running(Others(fills, f.tradeId), token) + if HasTrade(fills, f.tradeId) then E.Move(f, token) else 0.0
  {
    hide E.Move;
    if fills != [] {
      var n := |fills| - 1;
      HasTradeIn(fills, f.tradeId);
      HasTradeIn(fills[..n], f.tradeId);
      assert fills == fills[..n] + [fills[n]];
      assert forall g :: g in fills <==> g in fills[..n] || g == fills[n];
      RunningOthers(fills[..n], f, token);
      if fills[n].tradeId == f.tradeId {
        assert fills[n] == f && !HasTrade(fills[..n], f.tradeId);
        assert Others(fills, f.tradeId) == Others(fills[..n], f.tradeId);
      } else {
        RunningSnoc(Others(fills[..n], f.tradeId), fills[n], token);
      }
    }
  }

  /** A trade and its reversal leave no trace in the sum of moves. */
  lemma NoTraceInSum(fills: seq<Fill>, f: Fill, token: string)
    requires DistinctTrades(fills) && f in fills && !HasTrade(fills, f.tradeId + SUFFIX)
    ensures var fills' := fills + [ReverseOf(f)];
      E.Running(fills', token) == E.Running(Others(fills', f.tradeId), token)
  {
    HasTradeIn(fills, f.tradeId);
    RunningOthers(fills, f, token);
    RunningSnoc(fills, ReverseOf(f), token);
    assert (fills + [ReverseOf(f)])[..|fills|] == fills;
    assert Others(fills + [ReverseOf(f)], f.tradeId) == Others(fills, f.tradeId);
  }

  /** TRACE: after a failure the size is what the other fills alone would have led to if and only if neither the trade
      nor its reversal changed how far the running sum ever fell below zero. */
  lemma TraceOfAFailure(ops: seq<Op>, failure: TradeEvent, now: real, token: string)
    requires Fails(ops, failure) && E.NoOverrides(ops)
    ensures var s' := Run(FRESH, ops + [Trade(failure, now)]);
      var fills, others := s'.ledger.fills, Others(s'.ledger.fills, failure.tradeId);
      (PositionIn(s'.ledger.positions, token).size == PositionOf(others, token).size) <==>
      (E.LowWater(fills, token) == E.LowWater(others, token))
  {
    hide E.LowWater, E.Running, PositionOf, Step, Others;
    var s, ops', f := Run(FRESH, ops), ops + [Trade(failure, now)], StatusOf(ops, failure.tradeId).fill;
    assert ops'[..|ops|] == ops;
    FailureReverses(ops, failure, now);
    E.InventoryIsReflected(ops', token);
    NoTraceInSum(s.ledger.fills, f, token);
    PositionIsReflected(Others(s.ledger.fills + [ReverseOf(f)], f.tradeId), token);
  }

  function Hearing(id: string, side: Side, size: Shares, status: TradeState): TradeEvent {
    TradeEvent("t", side, 0.50, size, id, status, 0.0)
  }

  const BOUGHT := Hearing("a", BUY, 10.0, MATCHED)
  const SOLD := Hearing("b", SELL, 10.0, MATCHED)
  const BOUGHT_AGAIN := Hearing("c", BUY, 5.0, MATCHED)

  /** Buy ten, sell ten, buy five. */
  const TURNOVER := [Trade(BOUGHT, 0.0), Trade(SOLD, 0.0), Trade(BOUGHT_AGAIN, 0.0)]

  /** What one more match does to the tables and to the position of its token. */
  lemma MatchRecords(s: State, ev: TradeEvent)
    requires ev.status == MATCHED && ev.tradeId !in s.applied && !HasTrade(s.ledger.fills, ev.tradeId)
    ensures var s' := AfterTrade(s, ev, 0.0);
      && s'.ledger.fills == s.ledger.fills + [FillOf(ev)]
      && PositionIn(s'.ledger.positions, ev.tokenId) == AfterFill(PositionIn(s.ledger.positions, ev.tokenId), FillOf(ev))
      && s'.applied == s.applied[ev.tradeId := FillOf(ev)]
  {
    hide AfterFill, Put, Get;
    GetPut(s.ledger.positions, ev.tokenId, AfterFill(PositionIn(s.ledger.positions, ev.tokenId), FillOf(ev)), ev.tokenId);
  }

  lemma RunTurnover()
    ensures Run(FRESH, TURNOVER) ==
            AfterTrade(AfterTrade(AfterTrade(FRESH, BOUGHT, 0.0), SOLD, 0.0), BOUGHT_AGAIN, 0.0)
    ensures StatusOf(TURNOVER, "a") == Open(FillOf(BOUGHT))
  {
    hide AfterTrade;
    var one, two := TURNOVER[..1], TURNOVER[..2];
    assert one[..0] == [] && two[..1] == one;
    assert Run(FRESH, one) == AfterTrade(FRESH, BOUGHT, 0.0);
    assert StatusOf(one, "a") == Open(FillOf(BOUGHT));
    assert Run(FRESH, two) == AfterTrade(Run(FRESH, one), SOLD, 0.0);
    assert StatusOf(two, "a") == StatusOf(one, "a");
  }

  lemma AfterTurnover()
    ensures var s := Run(FRESH, TURNOVER);
      && s.ledger.fills == [FillOf(BOUGHT), FillOf(SOLD), FillOf(BOUGHT_AGAIN)]
      && PositionIn(s.ledger.positions, "t").size == 5.0
  {
    hide AfterTrade;
    RunTurnover();
    var s1 := AfterTrade(FRESH, BOUGHT, 0.0);
    var s2 := AfterTrade(s1, SOLD, 0.0);
    MatchRecords(FRESH, BOUGHT);
    MatchRecords(s1, SOLD);
    MatchRecords(s2, BOUGHT_AGAIN);
  }

  lemma OthersOfTurnover()
    ensures var fills := [FillOf(BOUGHT), FillOf(SOLD), FillOf(BOUGHT_AGAIN), ReverseOf(FillOf(BOUGHT))];
      Others(fills, "a") == [FillOf(SOLD), FillOf(BOUGHT_AGAIN)]
  {
    var fills := [FillOf(BOUGHT), FillOf(SOLD), FillOf(BOUGHT_AGAIN), ReverseOf(FillOf(BOUGHT))];
    assert fills[..1][..0] == [] && fills[..2][..1] == fills[..1] && fills[..3][..2] == fills[..2];
    assert |"a" + SUFFIX| == 9;
    assert Others(fills[..1], "a") == [];
    assert Others(fills[..2], "a") == [FillOf(SOLD)];
    assert Others(fills[..3], "a") == [FillOf(SOLD), FillOf(BOUGHT_AGAIN)];
  }

  lemma OthersLeaveFive()
    ensures PositionOf([FillOf(SOLD), FillOf(BOUGHT_AGAIN)], "t").size == 5.0
  {
    var others := [FillOf(SOLD), FillOf(BOUGHT_AGAIN)];
    assert others[..1][..0] == [];
    assert PositionOf(others[..1], "t") == FLAT;
  }

  /** The first BUY fails after its shares were sold: the reversal takes the shares of the last BUY instead. */
  lemma FailedBuyTakesLaterShares()
    ensures var failure := Hearing("a", BUY, 10.0, FAILED);
      var s' := Run(FRESH, TURNOVER + [Trade(failure, 0.0)]);
      && Fails(TURNOVER, failure)
      && PositionIn(s'.ledger.positions, "t").size == 0.0
      && PositionOf(Others(s'.ledger.fills, "a"), "t").size == 5.0
  {
    hide AfterTrade, Others, PositionOf;
    var failure := Hearing("a", BUY, 10.0, FAILED);
    RunTurnover();
    AfterTurnover();
    assert (TURNOVER + [Trade(failure, 0.0)])[..|TURNOVER|] == TURNOVER;
    FailureReverses(TURNOVER, failure, 0.0);
    OthersOfTurnover();
    OthersLeaveFive();
    assert Run(FRESH, TURNOVER + [Trade(failure, 0.0)]).ledger.fills ==
           [FillOf(BOUGHT), FillOf(SOLD), FillOf(BOUGHT_AGAIN), ReverseOf(FillOf(BOUGHT))];
  }

  // ── A failure right after its match ──────────────────────────────────

  /** A new trade and then its failure. */
  ghost predicate FailsAtOnce(ops: seq<Op>, ev: TradeEvent, failure: TradeEvent) {
    && Clean(ops) && !Reserved(ev.tradeId) && StatusOf(ops, ev.tradeId).Unseen?
    && ev.status == MATCHED && failure.status == FAILED && failure.tradeId == ev.tradeId
  }

  lemma MatchThenFail(s: State, ev: TradeEvent, failure: TradeEvent, t1: real, t2: real)
    requires ev.status == MATCHED && failure.status == FAILED && failure.tradeId == ev.tradeId
    requires ev.tradeId !in s.applied && !HasTrade(s.ledger.fills, ev.tradeId)
    requires !HasTrade(s.ledger.fills + [FillOf(ev)], ev.tradeId + SUFFIX)
    ensures var s' := AfterTrade(AfterTrade(s, ev, t1), failure, t2);
      && PositionIn(s'.ledger.positions, ev.tokenId) == ThereAndBack(PositionIn(s.ledger.positions, ev.tokenId), FillOf(ev))
      && s'.netCash == s.netCash + CashFlow(FillOf(ev))
  {
    hide AfterFill, CashFlow, Put, Get;
    var f := FillOf(ev);
    var pos := AfterFill(PositionIn(s.ledger.positions, f.tokenId), f);
    var positions := Put(s.ledger.positions, f.tokenId, pos);
    GetPut(s.ledger.positions, f.tokenId, pos, f.tokenId);
    GetPut(positions, f.tokenId, AfterFill(pos, ReverseOf(f)), f.tokenId);
  }

  /** FAILURE: whatever happened before, a trade that is matched and fails keeps its cash flow; it gives back the size
      unless it sold more than was held, and the average price only where that was the trade's price. */
  lemma WhatAFailureRestores(ops: seq<Op>, ev: TradeEvent, failure: TradeEvent, t1: real, t2: real)
    requires FailsAtOnce(ops, ev, failure) && ev.size > 0.0
    ensures var s := Run(FRESH, ops);
      var s' := Step(Step(s, Trade(ev, t1)), Trade(failure, t2));
      var pos, pos' := PositionIn(s.ledger.positions, ev.tokenId), PositionIn(s'.ledger.positions, ev.tokenId);
      && (pos'.size == pos.size <==> ev.ourSide == BUY || ev.size <= pos.size)
      && (pos' == pos <==>
            if ev.ourSide == BUY then pos.size == 0.0 || ev.price == pos.avgPrice
            else ev.size <= pos.size && ev.price == pos.avgPrice)
      && (s'.netCash == s.netCash <==> ev.price == 0.0)
  {
    hide AfterFill, AfterTrade, CashFlow, Agrees;
    var s, f := Run(FRESH, ops), FillOf(ev);
    ExactlyOnce(ops);
    AgreesOn(s, id => StatusOf(ops, id), ev.tradeId);
    ReversalUnseen(s, ops, f);
    MatchThenFail(s, ev, failure, t1, t2);
    AlwaysMirrored(ops);
    var pos := PositionIn(s.ledger.positions, ev.tokenId);
    if ev.ourSide == BUY {
      ReversedBuy(pos, f);
    } else {
      ReversedSell(pos, f);
    }
    CashMoves(f);
  }

  lemma CashMoves(f: Fill)
    requires f.size > 0.0
    ensures CashFlow(f) == 0.0 <==> f.price == 0.0
  {
  }

  lemma ReversalUnseen(s: State, ops: seq<Op>, f: Fill)
    requires Clean(ops) && s == Run(FRESH, ops) && !Reserved(f.tradeId) && StatusOf(ops, f.tradeId).Unseen?
    ensures !HasTrade(s.ledger.fills + [f], f.tradeId + SUFFIX)
  {
    ExactlyOnce(ops);
    ReverseIds(f.tradeId, f.tradeId);
    HasTradeIn(s.ledger.fills + [f], f.tradeId + SUFFIX);
    forall g | g in s.ledger.fills
      ensures g.tradeId != f.tradeId + SUFFIX
    {
      if Reserved(g.tradeId) {
        var x :| !Reserved(x) && StatusOf(ops, x).Reversed? && g == ReverseOf(StatusOf(ops, x).fill);
        StatusNamesItsTrade(ops, x);
        ReverseIds(x, f.tradeId);
      }
    }
  }
}
