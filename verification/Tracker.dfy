/** The trade lifecycle over the store (src/polymaker/state/tracker.py), and runs of it together
    with expiry, REST overrides and restarts. */
module Tracker {
  import opened Domain
  import opened Dict
  import L = Ledgers
  import O = OrderMaps
  import opened StateStore
  import opened RiskManager

  datatype TradeEvent = TradeEvent(tokenId: string, ourSide: Side, price: real, size: Shares,
                                   tradeId: string, status: TradeState, ts: real)

  datatype OrderEvent = OrderEvent(orderId: string, tokenId: string, side: Side, price: real,
                                   remaining: real, isCancel: bool)

  /** The ledger, the fills that a FAILED may still reverse, and the cash noted so far. */
  datatype State = State(ledger: L.Ledger, applied: map<string, Fill>, netCash: real)

  const SUFFIX := ":reverse"

  function FillOf(ev: TradeEvent): Fill {
    Fill(ev.tokenId, ev.ourSide, ev.price, ev.size, ev.tradeId, ev.ts)
  }

  function ReverseOf(f: Fill): Fill {
    Fill(f.tokenId, f.side.Opposite(), f.price, f.size, f.tradeId + SUFFIX, f.ts)
  }

  function AfterTrade(s: State, ev: TradeEvent, now: real): State {
    match ev.status
    case MATCHED =>
      if ev.tradeId in s.applied then s
      else
        var fill := FillOf(ev);
        var (l, ok) := L.ApplyFill(s.ledger, fill);
        if !ok then s.(ledger := l)
        else State(L.MarkInflight(l, ev.tokenId, now), s.applied[ev.tradeId := fill], s.netCash + CashFlow(fill))
    case CONFIRMED =>
      if ev.tradeId in s.applied
      then s.(ledger := L.ClearInflight(s.ledger, ev.tokenId), applied := s.applied - {ev.tradeId})
      else s
    case MINED => s
    case RETRYING => s
    case FAILED =>
      if ev.tradeId in s.applied
      then
        var (l, _) := L.ApplyFill(s.ledger, ReverseOf(s.applied[ev.tradeId]));
        s.(ledger := L.ClearInflight(l, ev.tokenId), applied := s.applied - {ev.tradeId})
      else s
  }

  function AfterOrder(orders: O.Orders, ev: OrderEvent, now: real): O.Orders {
    if ev.isCancel || ev.remaining <= 0.0 then Pop(orders, ev.orderId)
    else O.UpsertOrder(orders, OpenOrder(ev.orderId, ev.tokenId, ev.side, ev.price, ev.remaining, LIVE, now))
  }

  /** ORDER EVENT: a cancelled or exhausted order is forgotten; any other is known from now on with the token, side, price and
      remaining size reported. Every other order stays as it was. */
  lemma OrderEventIs(orders: O.Orders, ev: OrderEvent, now: real, id: string)
    ensures var after := Get(AfterOrder(orders, ev, now), id);
      if id != ev.orderId then after == Get(orders, id)
      else if ev.isCancel || ev.remaining <= 0.0 then after == None
      else after == Some(OpenOrder(id, ev.tokenId, ev.side, ev.price, ev.remaining, LIVE, now))
  {
    GetPop(orders, ev.orderId, id);
    GetPut(orders, ev.orderId, OpenOrder(ev.orderId, ev.tokenId, ev.side, ev.price, ev.remaining, LIVE, now), id);
  }

  class UserEventProcessor {
    const store: StateStore
    const risk: RiskManager
    var applied: map<string, Fill>

    function View(): State
      reads this, store, risk
    {
      State(store.View(), applied, risk.netCash)
    }

    constructor (store: StateStore, risk: RiskManager)
      ensures this.store == store && this.risk == risk && applied == map[]
    {
      this.store, this.risk, applied := store, risk, map[];
    }

    /** `on_fill` is the engine's callback, of which the cash bookkeeping is modelled. */
    method OnTrade(ev: TradeEvent, now: real)
      modifies this`applied, store, risk`netCash
      ensures View() == AfterTrade(old(View()), ev, now)
      ensures store.orders == old(store.orders)
    {
      match ev.status
      case MATCHED =>
        if ev.tradeId in applied {
          return;
        }
        var fill := FillOf(ev);
        var ok := store.ApplyFill(fill);
        if !ok {
          return;
        }
        store.MarkInflight(ev.tokenId, now);
        applied := applied[ev.tradeId := fill];
        risk.NoteFill(fill);
      case CONFIRMED =>
        if ev.tradeId in applied {
          store.ClearInflight(ev.tokenId);
          applied := applied - {ev.tradeId};
        }
      case MINED =>
      case RETRYING =>
      case FAILED =>
        if ev.tradeId in applied {
          var prior := applied[ev.tradeId];
          applied := applied - {ev.tradeId};
          var _ := store.ApplyFill(ReverseOf(prior));
          store.ClearInflight(ev.tokenId);
        }
    }

    method OnOrder(ev: OrderEvent, now: real)
      modifies store`orders
      ensures store.orders == AfterOrder(old(store.orders), ev, now)
    {
      if ev.isCancel || ev.remaining <= 0.0 {
        store.RemoveOrder(ev.orderId);
      } else {
        store.UpsertOrder(OpenOrder(ev.orderId, ev.tokenId, ev.side, ev.price, ev.remaining, LIVE, now));
      }
    }
  }
}
