/** Inventory, fills and in-flight guards as values: what each operation of the state store
    (src/polymaker/state/store.py) does to them. */
module Ledgers {
  import opened Numerics
  import opened Domain
  import opened Dict

  /** Everything in the store that concerns inventory. `fills` and `rows` are the tables that survive a restart. */
  datatype Ledger = Ledger(positions: Dict<string, Position>,
                           inflight: map<string, int>,
                           inflightTs: map<string, real>,
                           lastFillTs: map<string, real>,
                           fills: seq<Fill>,
                           rows: Dict<string, Position>)

  const FLAT := Position(0.0, 0.0)

  function PositionIn(positions: Dict<string, Position>, token: string): Position {
    var p := Get(positions, token);
    if p.Some? then p.value else FLAT
  }

  function Count(inflight: map<string, int>, token: string): int {
    if token in inflight then inflight[token] else 0
  }

  predicate HasTrade(fills: seq<Fill>, id: string) {
    exists i :: 0 <= i < |fills| && fills[i].tradeId == id
  }

  /** Inventory and average cost after one fill. */
  function AfterFill(pos: Position, fill: Fill): Position {
    var avg :=
      if fill.side == SELL then pos.avgPrice
      else if pos.size <= 0.0 then fill.price
      else (pos.avgPrice * pos.size + fill.price * fill.size) / (pos.size + fill.size);
    var size := Max(0.0, pos.size + fill.Signed());
    Position(size, if size <= 0.0 then 0.0 else avg)
  }

  function WithPosition(l: Ledger, token: string, pos: Position): Ledger {
    l.(positions := Put(l.positions, token, pos), rows := Put(l.rows, token, pos))
  }

  function ApplyFill(l: Ledger, fill: Fill): (Ledger, bool) {
    if HasTrade(l.fills, fill.tradeId) then (l, false)
    else
      var l' := WithPosition(l, fill.tokenId, AfterFill(PositionIn(l.positions, fill.tokenId), fill));
      (l'.(fills := l.fills + [fill], lastFillTs := l.lastFillTs[fill.tokenId := fill.ts]), true)
  }

  function SetPosition(l: Ledger, token: string, size: real, avg: real): Ledger {
    WithPosition(l, token, Position(Max(0.0, size), if size > 0.0 then avg else 0.0))
  }

  /** A REST size may overwrite `token`: no guard, and no fill in the last five seconds. */
  predicate Overwritable(l: Ledger, token: string, now: real) {
    && Count(l.inflight, token) <= 0
    && now - (if token in l.lastFillTs then l.lastFillTs[token] else 0.0) >= 5.0
  }

  function ReconcilePositions(l: Ledger, api: Dict<string, (real, real)>, now: real): Ledger {
    if api == [] then l
    else
      var n := |api| - 1;
      var l' := ReconcilePositions(l, api[..n], now);
      var (token, (size, avg)) := api[n];
      if Overwritable(l', token, now) then SetPosition(l', token, size, avg) else l'
  }

  function MarkInflight(l: Ledger, token: string, now: real): Ledger {
    l.(inflight := l.inflight[token := Count(l.inflight, token) + 1],
       inflightTs := if token in l.inflightTs then l.inflightTs else l.inflightTs[token := now])
  }

  function ClearInflight(l: Ledger, token: string): Ledger {
    var inflight := if Count(l.inflight, token) > 0 then l.inflight[token := l.inflight[token] - 1] else l.inflight;
    l.(inflight := inflight, inflightTs := if Count(inflight, token) == 0 then l.inflightTs - {token} else l.inflightTs)
  }

  function Stale(l: Ledger, maxAge: real, now: real): set<string> {
    set t | t in l.inflightTs && now - l.inflightTs[t] > maxAge
  }

  function Zeroed(inflight: map<string, int>, tokens: set<string>): map<string, int> {
    map t | t in inflight.Keys + tokens :: if t in tokens then 0 else inflight[t]
  }

  function ExpireInflight(l: Ledger, maxAge: real, now: real): Ledger {
    var stale := Stale(l, maxAge, now);
    l.(inflight := Zeroed(l.inflight, stale), inflightTs := l.inflightTs - stale)
  }

  /** A fresh process over the same tables: only positive rows are loaded, the guards are gone. */
  function Reload(l: Ledger): Ledger {
    Ledger(PositiveRows(l.rows), map[], map[], map[], l.fills, l.rows)
  }

  function PositiveRows(rows: Dict<string, Position>): Dict<string, Position> {
    if rows == [] then []
    else
      var n := |rows| - 1;
      PositiveRows(rows[..n]) + if rows[n].1.size > 0.0 then [rows[n]] else []
  }
}
