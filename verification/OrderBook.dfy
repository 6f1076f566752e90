/** Book maintenance and the microprice (src/polymaker/marketdata/orderbook.py). A SortedDict is a sequence
    of levels in strictly ascending price. */
module OrderBook {
  import opened Numerics
  import opened Domain
  import opened Dict

  datatype Level = Level(price: real, size: real)

  type Levels = seq<Level>

  ghost predicate Ascending(ls: Levels) {
    forall i, j :: 0 <= i < j < |ls| ==> ls[i].price < ls[j].price
  }

  ghost predicate Positive(ls: Levels) {
    forall i :: 0 <= i < |ls| ==> ls[i].size > 0.0
  }

  /** `book[price] = size` */
  function PutLevel(ls: Levels, price: real, size: real): Levels {
    if ls == [] || price < ls[0].price then [Level(price, size)] + ls
    else if ls[0].price == price then [Level(price, size)] + ls[1..]
    else [ls[0]] + PutLevel(ls[1..], price, size)
  }

  /** `book.pop(price, None)` */
  function DropLevel(ls: Levels, price: real): Levels {
    if ls == [] then []
    else if ls[0].price == price then ls[1..]
    else [ls[0]] + DropLevel(ls[1..], price)
  }

  /** The book as a mapping from price to size. */
  function SizeOf(ls: Levels, price: real): Option<real> {
    if ls == [] then None
    else if ls[0].price == price then Some(ls[0].size)
    else SizeOf(ls[1..], price)
  }

  function Delta(ls: Levels, price: real, size: real): Levels {
    if size <= 0.0 then DropLevel(ls, price) else PutLevel(ls, price, size)
  }

  /** A book side rebuilt from raw pairs: non-positive sizes are skipped, later pairs win. */
  function FromPairs(pairs: seq<(real, real)>): Levels {
    if pairs == [] then []
    else
      var n := |pairs| - 1;
      var (price, size) := pairs[n];
      if size > 0.0 then PutLevel(FromPairs(pairs[..n]), price, size) else FromPairs(pairs[..n])
  }

  // ── A side behaves as a map and stays sorted ─────────────────────────

  lemma {:induction false} AbsentBelow(ls: Levels, price: real)
    requires forall i :: 0 <= i < |ls| ==> price < ls[i].price
    ensures SizeOf(ls, price) == None
  {
    if ls != [] {
      assert price < ls[0].price;
      AbsentBelow(ls[1..], price);
    }
  }

  lemma {:induction false} LookupAfterPut(ls: Levels, price: real, size: real, q: real)
    requires Ascending(ls)
    ensures SizeOf(PutLevel(ls, price, size), q) == if q == price then Some(size) else SizeOf(ls, q)
  {
    if ls == [] || price < ls[0].price {
      AbsentBelow(ls, price);
      assert ([Level(price, size)] + ls)[1..] == ls;
    } else if ls[0].price == price {
      assert ([Level(price, size)] + ls[1..])[1..] == ls[1..];
    } else {
      LookupAfterPut(ls[1..], price, size, q);
      assert ([ls[0]] + PutLevel(ls[1..], price, size))[1..] == PutLevel(ls[1..], price, size);
    }
  }

  lemma PutLevelIsUpdate(ls: Levels, price: real, size: real)
    requires Ascending(ls)
    ensures Ascending(PutLevel(ls, price, size))
    ensures Positive(ls) && size > 0.0 ==> Positive(PutLevel(ls, price, size))
    ensures forall l :: l in PutLevel(ls, price, size) ==> l == Level(price, size) || l in ls
    ensures forall q :: SizeOf(PutLevel(ls, price, size), q) == if q == price then Some(size) else SizeOf(ls, q)
  {
    PutLevelSorted(ls, price, size);
    forall q
      ensures SizeOf(PutLevel(ls, price, size), q) == if q == price then Some(size) else SizeOf(ls, q)
    {
      LookupAfterPut(ls, price, size, q);
    }
  }

  lemma {:induction false} PutLevelSorted(ls: Levels, price: real, size: real)
    requires Ascending(ls)
    ensures Ascending(PutLevel(ls, price, size))
    ensures Positive(ls) && size > 0.0 ==> Positive(PutLevel(ls, price, size))
    ensures forall l :: l in PutLevel(ls, price, size) ==> l == Level(price, size) || l in ls
  {
    if ls != [] && ls[0].price < price {
      PutLevelSorted(ls[1..], price, size);
      var rest := PutLevel(ls[1..], price, size);
      assert ([ls[0]] + rest)[1..] == rest;
      forall j | 0 <= j < |rest|
        ensures ls[0].price < rest[j].price
      {
        assert rest[j] in rest;
      }
    }
  }

  lemma {:induction false} DropLevelIsRemoval(ls: Levels, price: real)
    requires Ascending(ls)
    ensures Ascending(DropLevel(ls, price))
    ensures Positive(ls) ==> Positive(DropLevel(ls, price))
    ensures forall l :: l in DropLevel(ls, price) ==> l in ls
    ensures forall q :: SizeOf(DropLevel(ls, price), q) == if q == price then None else SizeOf(ls, q)
  {
    if ls != [] {
      if ls[0].price == price {
        AbsentBelow(ls[1..], price);
      } else {
        DropLevelIsRemoval(ls[1..], price);
        var rest := DropLevel(ls[1..], price);
        assert ([ls[0]] + rest)[1..] == rest;
        forall j | 0 <= j < |rest|
          ensures ls[0].price < rest[j].price
        {
          assert rest[j] in rest;
        }
      }
    }
  }

  /** A snapshot is the map of its positive pairs, the last pair at a price winning. */
  lemma {:induction false} SnapshotIsMap(pairs: seq<(real, real)>)
    ensures Ascending(FromPairs(pairs)) && Positive(FromPairs(pairs))
    ensures forall q, i :: 0 <= i < |pairs| && pairs[i] == (q, pairs[i].1) && pairs[i].1 > 0.0
                           && (forall j :: i < j < |pairs| ==> pairs[j].0 != q || pairs[j].1 <= 0.0)
                           ==> SizeOf(FromPairs(pairs), q) == Some(pairs[i].1)
    ensures forall q :: SizeOf(FromPairs(pairs), q).Some? ==>
              exists i :: 0 <= i < |pairs| && pairs[i].0 == q && pairs[i].1 == SizeOf(FromPairs(pairs), q).value
  {
    if pairs != [] {
      var n := |pairs| - 1;
      SnapshotIsMap(pairs[..n]);
      PutLevelIsUpdate(FromPairs(pairs[..n]), pairs[n].0, pairs[n].1);
      assert forall i :: 0 <= i < n ==> pairs[..n][i] == pairs[i];
    }
  }

  // ── Reads ────────────────────────────────────────────────────────────

  function BestBid(bids: Levels): Option<Level> {
    if bids == [] then None else Some(bids[|bids| - 1])
  }

  function BestAsk(asks: Levels): Option<Level> {
    if asks == [] then None else Some(asks[0])
  }

  function Total(ls: Levels): real {
    if ls == [] then 0.0 else Total(ls[..|ls| - 1]) + ls[|ls| - 1].size
  }

  /** How many keys `keys[:levels]` keeps of `n`. */
  function Taken(n: nat, levels: int): nat {
    if levels >= 0 then (if levels <= n then levels else n)
    else if n + levels >= 0 then n + levels else 0
  }

  function TopBids(bids: Levels, levels: int): real {
    Total(bids[|bids| - Taken(|bids|, levels)..])
  }

  function TopAsks(asks: Levels, levels: int): real {
    Total(asks[..Taken(|asks|, levels)])
  }

  /** Each touch weighted by the size on the other side. */
  function Weighted(bid: real, ask: real, bidSize: real, askSize: real): real {
    if bidSize + askSize <= 0.0 then (bid + ask) / 2.0
    else (ask * bidSize + bid * askSize) / (bidSize + askSize)
  }

  function Microprice(bids: Levels, asks: Levels, levels: int): Option<real> {
    if bids == [] || asks == [] then None
    else Some(Weighted(bids[|bids| - 1].price, asks[0].price, TopBids(bids, levels), TopAsks(asks, levels)))
  }

  lemma {:induction false} TotalNonNegative(ls: Levels)
    requires Positive(ls)
    ensures Total(ls) >= 0.0
  {
    if ls != [] {
      TotalNonNegative(ls[..|ls| - 1]);
    }
  }

  lemma WeightedBetween(bid: real, ask: real, bidSize: real, askSize: real)
    requires bid <= ask && bidSize >= 0.0 && askSize >= 0.0
    ensures bid <= Weighted(bid, ask, bidSize, askSize) <= ask
  {
    var total := bidSize + askSize;
    if total > 0.0 {
      var m := Weighted(bid, ask, bidSize, askSize);
      MulDiv(ask * bidSize + bid * askSize, total);
      assert m * total == ask * bidSize + bid * askSize;
      MulNonNegative(ask - bid, bidSize);
      MulNonNegative(ask - bid, askSize);
      assert (m - bid) * total == (ask - bid) * bidSize;
      assert (ask - m) * total == (ask - bid) * askSize;
      MulMono(0.0, m - bid, total);
      MulMono(0.0, ask - m, total);
    }
  }

  /** On an uncrossed book the microprice lies between the touches. */
  lemma MicropriceBetween(bids: Levels, asks: Levels, levels: int)
    requires Positive(bids) && Positive(asks) && bids != [] && asks != []
    requires bids[|bids| - 1].price <= asks[0].price
    ensures bids[|bids| - 1].price <= Microprice(bids, asks, levels).value <= asks[0].price
  {
    TotalNonNegative(bids[|bids| - Taken(|bids|, levels)..]);
    TotalNonNegative(asks[..Taken(|asks|, levels)]);
    WeightedBetween(bids[|bids| - 1].price, asks[0].price, TopBids(bids, levels), TopAsks(asks, levels));
  }

  /** The first `levels` levels from the touch. */
  lemma DepthIs(bids: Levels, asks: Levels, levels: nat)
    requires Positive(bids) && Positive(asks) && bids != [] && asks != [] && levels > 0
    ensures TopBids(bids, levels) == Total(if levels <= |bids| then bids[|bids| - levels..] else bids) > 0.0
    ensures TopAsks(asks, levels) == Total(if levels <= |asks| then asks[..levels] else asks) > 0.0
  {
    hide Total;
    assert bids[0..] == bids && asks[..|asks|] == asks;
    TotalPositive(bids[|bids| - Taken(|bids|, levels)..]);
    TotalPositive(asks[..Taken(|asks|, levels)]);
  }

  /** BALANCE: the microprice divides the spread in the proportion of the depths: the deeper the bids, the closer to the
      ask. The depth of a side is the size of its first `levels` levels from the touch. */
  lemma MicropriceBalances(bids: Levels, asks: Levels, levels: nat)
    requires Positive(bids) && Positive(asks) && bids != [] && asks != [] && levels > 0
    ensures var (bid, ask) := (bids[|bids| - 1].price, asks[0].price);
      var bidDepth := Total(if levels <= |bids| then bids[|bids| - levels..] else bids);
      var askDepth := Total(if levels <= |asks| then asks[..levels] else asks);
      var m := Microprice(bids, asks, levels).value;
      && bidDepth > 0.0 && askDepth > 0.0
      && Times(m - bid, askDepth) == Times(ask - m, bidDepth)
      && (bid < ask ==> (m > (bid + ask) / 2.0 <==> bidDepth > askDepth))
  {
    hide Total, Weighted, Positive, TopBids, TopAsks, Times;
    DepthIs(bids, asks, levels);
    WeightedBalances(bids[|bids| - 1].price, asks[0].price, TopBids(bids, levels), TopAsks(asks, levels));
  }

  lemma {:induction false} TotalPositive(ls: Levels)
    requires Positive(ls) && ls != []
    ensures Total(ls) > 0.0
  {
    if |ls| > 1 {
      TotalPositive(ls[..|ls| - 1]);
    }
  }

  lemma WeightedBalances(bid: real, ask: real, bidSize: real, askSize: real)
    requires bidSize > 0.0 && askSize > 0.0
    ensures var m := Weighted(bid, ask, bidSize, askSize);
      && Times(m - bid, askSize) == Times(ask - m, bidSize)
      && (bid < ask ==> (m > (bid + ask) / 2.0 <==> bidSize > askSize))
  {
    var (m, total, spread) := (Weighted(bid, ask, bidSize, askSize), bidSize + askSize, ask - bid);
    MulDiv(ask * bidSize + bid * askSize, total);
    assert m * total == ask * bidSize + bid * askSize;
    ToBid(m, bid, ask, bidSize, askSize);
    MulMono(m - bid, spread / 2.0, total);
    if spread > 0.0 {
      MulMono(bidSize, total / 2.0, spread);
    }
  }

  lemma ToBid(m: real, bid: real, ask: real, bidSize: real, askSize: real)
    requires m * (bidSize + askSize) == ask * bidSize + bid * askSize
    ensures (m - bid) * (bidSize + askSize) == bidSize * (ask - bid)
    ensures (ask - m) * (bidSize + askSize) == askSize * (ask - bid)
    ensures (m - bid) * askSize == (ask - m) * bidSize
  {
  }

  class OrderBook {
    var bids: Levels
    var asks: Levels

    ghost predicate Valid()
      reads this
    {
      Ascending(bids) && Positive(bids) && Ascending(asks) && Positive(asks)
    }

    constructor ()
      ensures Valid() && bids == [] && asks == []
    {
      bids, asks := [], [];
    }

    method Rebuild(pairs: seq<(real, real)>) returns (ls: Levels)
      ensures ls == FromPairs(pairs) && Ascending(ls) && Positive(ls)
    {
      ls := [];
      for i := 0 to |pairs|
        invariant ls == FromPairs(pairs[..i])
      {
        assert pairs[..i + 1][..i] == pairs[..i];
        if pairs[i].1 > 0.0 {
          ls := PutLevel(ls, pairs[i].0, pairs[i].1);
        }
      }
      assert pairs[..|pairs|] == pairs;
      SnapshotIsMap(pairs);
    }

    method ApplySnapshot(bidPairs: seq<(real, real)>, askPairs: seq<(real, real)>)
      modifies this
      ensures Valid() && bids == FromPairs(bidPairs) && asks == FromPairs(askPairs)
    {
      bids := Rebuild(bidPairs);
      asks := Rebuild(askPairs);
    }

    method ApplyDelta(side: Side, price: real, size: real)
      requires Valid()
      modifies this
      ensures Valid()
      ensures side == BUY ==> bids == Delta(old(bids), price, size) && asks == old(asks)
      ensures side == SELL ==> asks == Delta(old(asks), price, size) && bids == old(bids)
      ensures var was, now := if side == BUY then old(bids) else old(asks), if side == BUY then bids else asks;
        forall q :: SizeOf(now, q) == if q != price then SizeOf(was, q) else if size > 0.0 then Some(size) else None
    {
      var book := if side == BUY then bids else asks;
      PutLevelIsUpdate(book, price, size);
      DropLevelIsRemoval(book, price);
      if size <= 0.0 {
        book := DropLevel(book, price);
      } else {
        book := PutLevel(book, price, size);
      }
      if side == BUY {
        bids := book;
      } else {
        asks := book;
      }
    }

    method GetBestBid() returns (l: Option<Level>)
      requires Valid()
      ensures l == BestBid(bids)
      ensures l.Some? ==> l.value in bids && forall i :: 0 <= i < |bids| ==> bids[i].price <= l.value.price
    {
      l := BestBid(bids);
    }

    method GetBestAsk() returns (l: Option<Level>)
      requires Valid()
      ensures l == BestAsk(asks)
      ensures l.Some? ==> l.value in asks && forall i :: 0 <= i < |asks| ==> l.value.price <= asks[i].price
    {
      l := BestAsk(asks);
    }

    method GetMicroprice(levels: int) returns (m: Option<real>)
      requires Valid()
      ensures m == Microprice(bids, asks, levels)
      ensures bids != [] && asks != [] && bids[|bids| - 1].price <= asks[0].price ==>
                m.Some? && bids[|bids| - 1].price <= m.value <= asks[0].price
    {
      if bids == [] || asks == [] {
        return None;
      }
      if bids[|bids| - 1].price <= asks[0].price {
        MicropriceBetween(bids, asks, levels);
      }
      m := Some(Weighted(bids[|bids| - 1].price, asks[0].price, TopBids(bids, levels), TopAsks(asks, levels)));
    }
  }
}
