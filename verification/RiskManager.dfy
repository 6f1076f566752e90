/** Cash, marks and equity (src/polymaker/risk/manager.py). */
module RiskManager {
  import opened Domain
  import opened Dict
  import opened StateStore

  function MarkOf(marks: map<string, real>, token: string, fallback: real): real {
    if token in marks then marks[token] else fallback
  }

  /** Inventory at the marks; a token without a mark is valued at cost. */
  function InventoryValue(positions: Dict<string, Position>, marks: map<string, real>): real {
    if positions == [] then 0.0
    else
      var n := |positions| - 1;
      var (token, pos) := positions[n];
      InventoryValue(positions[..n], marks) +
      if pos.size > 0.0 then pos.size * MarkOf(marks, token, pos.avgPrice) else 0.0
  }

  /** Cash that a fill brings in: a sale adds, a purchase costs. */
  function CashFlow(fill: Fill): real {
    fill.price * fill.size * (if fill.side == SELL then 1.0 else -1.0)
  }

  class RiskManager {
    const store: StateStore
    var marks: map<string, real>
    var netCash: real

    constructor (store: StateStore)
      ensures this.store == store && marks == map[] && netCash == 0.0
    {
      this.store, marks, netCash := store, map[], 0.0;
    }

    method NoteFill(fill: Fill)
      modifies this`netCash
      ensures netCash == old(netCash) + CashFlow(fill)
    {
      netCash := netCash + fill.price * fill.size * (if fill.side == SELL then 1.0 else -1.0);
    }

    method UpdateMark(token: string, fv: real)
      modifies this`marks
      ensures marks == old(marks)[token := fv]
    {
      marks := marks[token := fv];
    }

    method Inventory() returns (total: real)
      ensures total == InventoryValue(store.positions, marks)
    {
      total := 0.0;
      for i := 0 to |store.positions|
        invariant total == InventoryValue(store.positions[..i], marks)
      {
        assert store.positions[..i + 1][..i] == store.positions[..i];
        var (token, pos) := store.positions[i];
        if pos.size > 0.0 {
          total := total + pos.size * MarkOf(marks, token, pos.avgPrice);
        }
      }
      assert store.positions[..|store.positions|] == store.positions;
    }

    method Equity() returns (equity: real)
      ensures equity == netCash + InventoryValue(store.positions, marks)
    {
      var inventory := Inventory();
      equity := netCash + inventory;
    }
  }
}
