/** The single owner of positions and open orders (src/polymaker/state/store.py). Wall-clock
    readings are arguments; the SQLite tables `fills` and `positions` are the fields `fills` and `rows`. */
module StateStore {
  import opened Numerics
  import opened Domain
  import opened Dict
  import L = Ledgers
  import O = OrderMaps

  class StateStore {
    var positions: Dict<string, Position>
    var orders: O.Orders
    var inflight: map<string, int>
    var inflightTs: map<string, real>
    var lastFillTs: map<string, real>
    var fills: seq<Fill>
    var rows: Dict<string, Position>

    function View(): L.Ledger
      reads this
    {
      L.Ledger(positions, inflight, inflightTs, lastFillTs, fills, rows)
    }

    /** Opens the store over existing tables. */
    constructor (fills: seq<Fill>, rows: Dict<string, Position>)
      ensures View() == L.Reload(L.Ledger([], map[], map[], map[], fills, rows)) && orders == []
    {
      this.fills, this.rows := fills, rows;
      positions, orders, inflight, inflightTs, lastFillTs := [], [], map[], map[], map[];
      new;
      Load();
    }

    method Load()
      modifies this`positions
      ensures positions == old(positions) + L.PositiveRows(rows)
    {
      for i := 0 to |rows|
        invariant positions == old(positions) + L.PositiveRows(rows[..i])
      {
        assert rows[..i + 1][..i] == rows[..i];
        if rows[i].1.size > 0.0 {
          positions := positions + [rows[i]];
        }
      }
      assert rows[..|rows|] == rows;
    }

    method GetPosition(token: string) returns (p: Position)
      ensures p == L.PositionIn(positions, token)
    {
      p := L.PositionIn(positions, token);
    }

    /** Idempotent: the fills table rejects a trade id it already holds. */
    method ApplyFill(fill: Fill) returns (applied: bool)
      modifies this`positions, this`fills, this`rows, this`lastFillTs
      ensures (View(), applied) == L.ApplyFill(old(View()), fill)
    {
      if L.HasTrade(fills, fill.tradeId) {
        return false;
      }
      fills := fills + [fill];
      var pos := L.PositionIn(positions, fill.tokenId);
      var signed := fill.Signed();
      var newSize := pos.size + signed;
      var avg := pos.avgPrice;
      if fill.side == BUY {
        if pos.size <= 0.0 {
          avg := fill.price;
        } else {
          avg := (pos.avgPrice * pos.size + fill.price * fill.size) / (pos.size + fill.size);
        }
      }
      newSize := Max(0.0, newSize);
      if newSize <= 0.0 {
        avg := 0.0;
      }
      assert Position(newSize, avg) == L.AfterFill(pos, fill);
      pos := Position(newSize, avg);
      positions := Put(positions, fill.tokenId, pos);
      lastFillTs := lastFillTs[fill.tokenId := fill.ts];
      rows := Put(rows, fill.tokenId, pos);
      applied := true;
    }

    method SetPosition(token: string, size: real, avg: real)
      modifies this`positions, this`rows
      ensures View() == L.SetPosition(old(View()), token, size, avg)
    {
      var pos := Position(Max(0.0, size), if size > 0.0 then avg else 0.0);
      positions := Put(positions, token, pos);
      rows := Put(rows, token, pos);
    }

    method ReconcilePositions(api: Dict<string, (real, real)>, now: real)
      modifies this`positions, this`rows
      ensures View() == L.ReconcilePositions(old(View()), api, now)
    {
      for i := 0 to |api|
        invariant View() == L.ReconcilePositions(old(View()), api[..i], now)
      {
        assert api[..i + 1][..i] == api[..i];
        var (token, (size, avg)) := api[i];
        if L.Count(inflight, token) > 0 {
          continue;
        }
        if now - (if token in lastFillTs then lastFillTs[token] else 0.0) < 5.0 {
          continue;
        }
        SetPosition(token, size, avg);
      }
      assert api[..|api|] == api;
    }

    method MarkInflight(token: string, now: real)
      modifies this`inflight, this`inflightTs
      ensures View() == L.MarkInflight(old(View()), token, now)
    {
      inflight := inflight[token := L.Count(inflight, token) + 1];
      if token !in inflightTs {
        inflightTs := inflightTs[token := now];
      }
    }

    method ClearInflight(token: string)
      modifies this`inflight, this`inflightTs
      ensures View() == L.ClearInflight(old(View()), token)
    {
      if L.Count(inflight, token) > 0 {
        inflight := inflight[token := inflight[token] - 1];
      }
      if L.Count(inflight, token) == 0 {
        inflightTs := inflightTs - {token};
      }
    }

    method ExpireInflight(maxAge: real, now: real) returns (stale: set<string>)
      modifies this`inflight, this`inflightTs
      ensures stale == L.Stale(old(View()), maxAge, now)
      ensures View() == L.ExpireInflight(old(View()), maxAge, now)
    {
      stale := set t | t in inflightTs && now - inflightTs[t] > maxAge;
      var todo := stale;
      while todo != {}
        invariant todo <= stale
        invariant inflight == L.Zeroed(old(inflight), stale - todo)
        invariant inflightTs == old(inflightTs) - (stale - todo)
        decreases todo
      {
        var t :| t in todo;
        assert L.Zeroed(old(inflight), stale - todo)[t := 0] == L.Zeroed(old(inflight), stale - todo + {t});
        assert stale - (todo - {t}) == stale - todo + {t};
        inflight := inflight[t := 0];
        inflightTs := inflightTs - {t};
        todo := todo - {t};
      }
    }

    // ── orders ──

    method OrdersFor(token: string) returns (view: seq<OpenOrder>)
      ensures view == O.OrdersFor(orders, token)
    {
      view := [];
      for i := 0 to |orders|
        invariant view == O.OrdersFor(orders[..i], token)
      {
        assert orders[..i + 1][..i] == orders[..i];
        if orders[i].1.tokenId == token {
          view := view + [orders[i].1];
        }
      }
      assert orders[..|orders|] == orders;
    }

    method UpsertOrder(o: OpenOrder)
      modifies this`orders
      ensures orders == O.UpsertOrder(old(orders), o)
    {
      if o.state in {CANCELED, DONE, REJECTED} {
        orders := Pop(orders, o.orderId);
      } else {
        orders := Put(orders, o.orderId, o);
      }
    }

    method RemoveOrder(id: string)
      modifies this`orders
      ensures orders == Pop(old(orders), id)
    {
      orders := Pop(orders, id);
    }

    method ReplaceOpenOrders(token: string, live: seq<OpenOrder>, grace: real, now: real)
      modifies this`orders
      ensures orders == O.ReplaceOpenOrders(old(orders), token, live, grace, now)
    {
      var ids := O.IdsOf(live);
      var view := OrdersFor(token);
      ghost var retired: seq<string> := [];
      for i := 0 to |view|
        invariant retired == O.Retired(view[..i], ids, grace, now)
        invariant orders == O.PopAll(old(orders), retired)
      {
        assert view[..i + 1][..i] == view[..i];
        var o := view[i];
        if o.orderId in ids {
          continue;
        }
        if now - o.createdTs < grace {
          continue;
        }
        assert (retired + [o.orderId])[..|retired|] == retired;
        retired := retired + [o.orderId];
        orders := Pop(orders, o.orderId);
      }
      assert view[..|view|] == view;
      ghost var kept := orders;
      for i := 0 to |live|
        invariant orders == O.PutAll(kept, live[..i])
      {
        assert live[..i + 1][..i] == live[..i];
        orders := Put(orders, live[i].orderId, live[i]);
      }
      assert live[..|live|] == live;
    }

    method ClearOrders()
      modifies this`orders
      ensures orders == []
    {
      orders := [];
    }
  }
}
