/** The one-sided pyramid accumulator (src/polymaker/strategy/one_way.py), in exact arithmetic. */
module OneWay {
  import opened Numerics
  import opened Domain
  import opened Dict
  import opened Ticks
  import B = OrderBook
  import Q = Quoting

  /** A configured date: absent, unreadable, or a point in time counted in days. */
  datatype Date = Missing | Malformed | On(day: real)

  datatype Profile = Profile(owYes: bool, qMaxUsdc: real, fvInitial: real, fvStart: Date, fvEnd: Date, buyLayers: int,
                             sellLayers: int, exitDaysBefore: real, panicToxicity: real, invLow: real, invMid: real,
                             baseSizeUsdc: real, shares: seq<real>)

  /** Both sides of one outcome's book. */
  datatype Sides = Sides(bids: B.Levels, asks: B.Levels)

  datatype Inputs = Inputs(meta: Q.Meta, profile: Profile, yesBook: Option<Sides>, noBook: Option<Sides>, today: real,
                           fv: real, volShort: real, toxicity: real, posYes: Position, posNo: Position, regime: Regime,
                           riskSizeScale: real, hoursToEnd: Option<real>, trendStreak: int, ourAsks: seq<real>)

  /** What the quoter returns, or the exception it raises. */
  datatype Outcome = Quoted(quotes: seq<Quote>) | IndexError

  // ── Fair value of the day ────────────────────────────────────────────

  function Decayed(initial: real, left: real, total: real): real
    requires total > 0.0
  {
    initial * Max(0.0, left) / total
  }

  /** Linear decay from the start date to nothing on the end date. */
  function FairToday(p: Profile, today: real): real {
    if !p.fvEnd.On? then p.fvInitial
    else
      var left := p.fvEnd.day - today;
      if left <= 0.0 then 0.0
      else if !p.fvStart.On? then p.fvInitial
      else
        var total := p.fvEnd.day - p.fvStart.day;
        if total <= 0.0 || today < p.fvStart.day then p.fvInitial
        else Decayed(p.fvInitial, left, total)
  }

  // ── Walls ────────────────────────────────────────────────────────────

  /** Size of the lowest level within half a tick of the price. */
  function SizeNear(ls: B.Levels, price: real, tick: real): real {
    if ls == [] then 0.0
    else if Abs(ls[0].price - price) < tick / 2.0 then ls[0].size
    else SizeNear(ls[1..], price, tick)
  }

  predicate IsOurs(ours: seq<real>, price: real, tick: real) {
    exists p :: p in ours && Abs(p - price) < tick / 2.0
  }

  /** Somebody else rests at least half our size at the price. */
  predicate WallAt(ls: B.Levels, ours: seq<real>, price: real, tick: real, size: real) {
    !IsOurs(ours, price, tick) && SizeNear(ls, price, tick) >= size * 0.5
  }

  /** One tick in front of a wall. */
  function InFront(side: Side, level: real, tick: real): real {
    RoundTo(if side == SELL then level - tick else level + tick, 0.000001)
  }

  /** In front of the first wall around the target, looking from a tick below to a tick above. */
  function AdjustForWall(ls: B.Levels, side: Side, target: real, tick: real, size: real, ours: seq<real>): real {
    if WallAt(ls, ours, target - tick, tick, size) then InFront(side, target - tick, tick)
    else if WallAt(ls, ours, target, tick, size) then InFront(side, target, tick)
    else if WallAt(ls, ours, target + tick, tick, size) then InFront(side, target + tick, tick)
    else target
  }

  method FindSize(ls: B.Levels, price: real, tick: real) returns (size: real)
    ensures size == SizeNear(ls, price, tick)
  {
    size := 0.0;
    for i := 0 to |ls|
      invariant SizeNear(ls, price, tick) == SizeNear(ls[i..], price, tick)
    {
      assert ls[i..][1..] == ls[i + 1..];
      if Abs(ls[i].price - price) < tick / 2.0 {
        size := ls[i].size;
        return;
      }
    }
  }

  method AdjustPriceForWall(book: Option<Sides>, side: Side, target: real, tick: real, size: real, ours: seq<real>)
    returns (price: real)
    ensures price == if book.None? then target
                     else AdjustForWall(if side == BUY then book.value.bids else book.value.asks, side, target, tick, size, ours)
  {
    if book.None? {
      return target;
    }
    hide SizeNear, InFront, IsOurs;
    var ls := if side == BUY then book.value.bids else book.value.asks;
    var check := [target - tick, target, target + tick];
    for i := 0 to 3
      invariant forall j :: 0 <= j < i ==> !WallAt(ls, ours, check[j], tick, size)
    {
      if IsOurs(ours, check[i], tick) {
        continue;
      }
      var near := FindSize(ls, check[i], tick);
      if near >= size * 0.5 {
        assert WallAt(ls, ours, check[i], tick, size);
        assert i > 0 ==> !WallAt(ls, ours, check[0], tick, size);
        assert i > 1 ==> !WallAt(ls, ours, check[1], tick, size);
        return InFront(side, check[i], tick);
      }
    }
    assert !WallAt(ls, ours, check[0], tick, size) && !WallAt(ls, ours, check[1], tick, size)
        && !WallAt(ls, ours, check[2], tick, size);
    price := target;
  }

  // ── The buy pyramid ──────────────────────────────────────────────────

  /** Ticks between layers, by volatility. */
  function Gap(vol: real): int {
    if vol > 0.05 then 5 else if vol > 0.02 then 3 else 1
  }

  /** Distance of layer `i` from fair value. */
  function Distance(i: nat, gap: int, tick: real): real {
    i as real * gap as real * tick
  }

  datatype Layer = Layer(price: real, shares: real)

  /** Whole hundredths of a share that a budget buys. */
  function SharesFor(usdc: real, price: real, tick: real): real
    requires tick > 0.0
  {
    Q.FloorShares(usdc / Max(price, tick))
  }

  /** What the buy loop works from. */
  datatype Pyramid = Pyramid(first: real, fair: real, gap: int, tick: real, usdc: real, weights: seq<real>, scale: real,
                             minOrderSize: real) {
    /** Unrounded price of layer `i`: fair value less its distance, or one tick below the layer before. */
    function Price(i: nat): real {
      if i == 0 then first
      else
        var price := fair - Distance(i, gap, tick);
        if price >= Price(i - 1) then Price(i - 1) - tick else price
    }

    /** Share of the budget for layer `i`; the last weight serves all further layers. */
    function Weight(i: nat): real
      requires weights != []
    {
      if i < |weights| then weights[i] else weights[|weights| - 1]
    }

    function Budget(i: nat): real
      requires weights != []
    {
      usdc * Weight(i) * scale
    }

    function Shares(i: nat): real
      requires weights != [] && tick > 0.0
    {
      SharesFor(Budget(i), Price(i), tick)
    }

    /** The first `n` layers that have a positive price and reach the order minimum. */
    function Layers(n: nat): seq<Layer>
      requires weights != [] && tick > 0.0
    {
      if n == 0 then []
      else if Price(n - 1) > 0.0 && Shares(n - 1) >= minOrderSize then Layers(n - 1) + [Layer(Price(n - 1), Shares(n - 1))]
      else Layers(n - 1)
    }
  }

  /** Prices fall strictly, so stopping at the first one that is not positive loses no layer. */
  lemma {:induction false} NothingBelowZero(p: Pyramid, k: nat, n: nat)
    requires p.weights != [] && p.tick > 0.0 && k <= n && (k < n ==> p.Price(k) <= 0.0)
    ensures p.Layers(n) == p.Layers(k)
  {
    if k < n {
      PricesFall(p, k, n - 1);
      NothingBelowZero(p, k, n - 1);
    }
  }

  lemma {:induction false} PricesFall(p: Pyramid, i: nat, j: nat)
    requires p.tick > 0.0 && i <= j
    ensures p.Price(j) <= p.Price(i) && (i < j ==> p.Price(j) < p.Price(i))
  {
    if i < j {
      PricesFall(p, i, j - 1);
    }
  }

  function BuyQuotes(token: string, g: Grid, layers: seq<Layer>): seq<Quote>
    requires g.unit > 0.0
  {
    if layers == [] then []
    else
      var n := |layers| - 1;
      BuyQuotes(token, g, layers[..n]) + [Quote(token, BUY, g.Round(layers[n].price), layers[n].shares)]
  }

  method BuildPyramid(p: Pyramid, layers: int, token: string, g: Grid) returns (r: Option<seq<Quote>>)
    requires p.tick > 0.0 && g.unit > 0.0
    ensures r.None? <==> layers >= 1 && p.first > 0.0 && p.weights == []
    ensures r.Some? ==>
              r.value == BuyQuotes(token, g, if p.weights == [] then [] else p.Layers(if layers >= 0 then layers else 0))
  {
    hide SharesFor, Distance, Pyramid.Budget, Grid.Round;
    var quotes: seq<Quote> := [];
    var prev := p.first;
    var i := 0;
    while i < layers
      invariant 0 <= i && (i <= layers || i == 0)
      invariant i == 0 ==> prev == p.first && quotes == []
      invariant i > 0 ==> prev == p.Price(i - 1) && p.weights != []
      invariant p.weights != [] ==> quotes == BuyQuotes(token, g, p.Layers(i))
    {
      var price := if i == 0 then p.first else p.fair - Distance(i, p.gap, p.tick);
      if i > 0 && price >= prev {
        price := prev - p.tick;
      }
      prev := price;
      if price <= 0.0 {
        if p.weights != [] {
          NothingBelowZero(p, i, layers);
        }
        break;
      }
      if p.weights == [] {
        return None;
      }
      var shares := SharesFor(p.Budget(i), price, p.tick);
      if shares >= p.minOrderSize {
        assert (p.Layers(i) + [Layer(price, shares)])[..|p.Layers(i)|] == p.Layers(i);
        quotes := quotes + [Quote(token, BUY, g.Round(price), shares)];
      }
      i := i + 1;
    }
    r := Some(quotes);
  }

  // ── The sell ladder ──────────────────────────────────────────────────

  /** Whole hundredths of a share for each of `count` layers. */
  function SplitSize(held: real, count: int): real
    requires count > 0
  {
    (held * 100.0 / count as real).Floor as real / 100.0
  }

  /** What the sell loop works from. */
  datatype Offer = Offer(first: real, fair: real, gap: int, tick: real, held: real, count: int, minOrderSize: real,
                         bid: Option<real>, ask: Option<real>, book: Option<Sides>, ours: seq<real>) {
    predicate AskAboveFair() { ask.Some? && ask.value > fair }

    /** Price of layer `i` before the guards; none ends the ladder. */
    function Raw(i: nat): Option<real> {
      if i == 0 then (if AskAboveFair() then Some(first) else ask)
      else
        var price := fair + Distance(i, gap, tick);
        Some(if price <= 0.0 then Distance(1, gap, tick) else price)
    }

    /** Below one and above the best bid. */
    function Guarded(i: nat): Option<real> {
      if Raw(i).None? || Raw(i).value >= 1.0 then None
      else Some(if bid.Some? then Max(Raw(i).value, bid.value + tick) else Raw(i).value)
    }

    function Size(): real
      requires count > 0
    {
      SplitSize(held, count)
    }

    function Final(price: real): real
      requires count > 0
    {
      if book.None? then price else AdjustForWall(book.value.asks, SELL, price, tick, Size(), ours)
    }

    function QuotesFrom(token: string, g: Grid, i: nat): seq<Quote>
      requires g.unit > 0.0
      decreases count - i
    {
      if i >= count || Guarded(i).None? then []
      else if Size() < minOrderSize then QuotesFrom(token, g, i + 1)
      else [Quote(token, SELL, g.Round(Final(Guarded(i).value)), Size())] + QuotesFrom(token, g, i + 1)
    }
  }

  method BuildOffers(o: Offer, token: string, g: Grid) returns (quotes: seq<Quote>)
    requires g.unit > 0.0
    ensures quotes == o.QuotesFrom(token, g, 0)
  {
    hide Distance, AdjustForWall, Grid.Round, SplitSize, Max;
    quotes := [];
    ghost var all := o.QuotesFrom(token, g, 0);
    var i := 0;
    while i < o.count
      invariant 0 <= i
      invariant all == quotes + o.QuotesFrom(token, g, i)
    {
      var price: real;
      ghost var rest := o.QuotesFrom(token, g, i + 1);
      if !o.AskAboveFair() && i == 0 {
        if o.ask.None? {
          break;
        }
        price := o.ask.value;
      } else if i == 0 {
        price := o.first;
      } else {
        price := o.fair + Distance(i, o.gap, o.tick);
        if price <= 0.0 {
          price := Distance(1, o.gap, o.tick);
        }
      }
      if price >= 1.0 {
        break;
      }
      if o.bid.Some? {
        price := Max(price, o.bid.value + o.tick);
      }
      var size := SplitSize(o.held, o.count);
      if size >= o.minOrderSize {
        var final := AdjustPriceForWall(o.book, SELL, price, o.tick, size, o.ours);
        var quote := Quote(token, SELL, g.Round(final), size);
        assert o.QuotesFrom(token, g, i) == [quote] + rest;
        assert quotes + ([quote] + rest) == (quotes + [quote]) + rest;
        quotes := quotes + [quote];
      }
      i := i + 1;
    }
    assert quotes + [] == quotes;
  }

  // ── The whole quote set ──────────────────────────────────────────────

  function TokenOf(inp: Inputs): string { if inp.profile.owYes then inp.meta.yes else inp.meta.no }

  function BookOf(inp: Inputs): Option<Sides> { if inp.profile.owYes then inp.yesBook else inp.noBook }

  function PosOf(inp: Inputs): Position { if inp.profile.owYes then inp.posYes else inp.posNo }

  function TouchBid(inp: Inputs): Option<real> {
    if BookOf(inp).None? || BookOf(inp).value.bids == [] then None
    else Some(BookOf(inp).value.bids[|BookOf(inp).value.bids| - 1].price)
  }

  function TouchAsk(inp: Inputs): Option<real> {
    if BookOf(inp).None? || BookOf(inp).value.asks == [] then None else Some(BookOf(inp).value.asks[0].price)
  }

  function Utilization(inp: Inputs): real
    requires inp.meta.Valid()
  {
    var cap := inp.profile.qMaxUsdc / Max(inp.fv, inp.meta.grid.tick);
    if cap > 0.0 then PosOf(inp).size / cap else 0.0
  }

  predicate NearEnd(inp: Inputs) {
    inp.hoursToEnd.Some? && inp.hoursToEnd.value <= inp.profile.exitDaysBefore * 24.0
  }

  predicate CanBuy(inp: Inputs, util: real) {
    !NearEnd(inp) && util < inp.profile.invMid && inp.regime != REDUCE_ONLY && TouchBid(inp).Some? && TouchAsk(inp).Some?
  }

  /** One layer fewer while the price trends up. */
  function EffectiveBuyLayers(inp: Inputs): int {
    if inp.trendStreak < 3 then inp.profile.buyLayers
    else if inp.profile.buyLayers > 2 then inp.profile.buyLayers - 1 else 1
  }

  /** The buying throttle: full size, then half, times the risk manager's scale. */
  function Throttle(inp: Inputs, util: real): real {
    (if util < inp.profile.invLow then 1.0 else 0.5) * Max(0.0, Min(1.0, inp.riskSizeScale))
  }

  function PyramidOf(inp: Inputs, util: real): Pyramid
    requires TouchBid(inp).Some?
  {
    var p, fair := inp.profile, FairToday(inp.profile, inp.today);
    Pyramid(Min(Min(inp.fv, fair * 1.2), TouchBid(inp).value), fair, Gap(inp.volShort), inp.meta.grid.tick,
            p.baseSizeUsdc, p.shares, Throttle(inp, util), inp.meta.minOrderSize)
  }

  /** How many layers to sell in: none in a panic, one when the cost is under water, else all of them. */
  function SellLayers(inp: Inputs, fair: real): int {
    if inp.toxicity >= inp.profile.panicToxicity then 0
    else if !NearEnd(inp) && PosOf(inp).avgPrice > fair && !(TouchAsk(inp).Some? && TouchAsk(inp).value > fair) then 1
    else inp.profile.sellLayers
  }

  function OfferOf(inp: Inputs): Offer {
    var fair, ask := FairToday(inp.profile, inp.today), TouchAsk(inp);
    var first := Min(inp.fv, fair * 0.8);
    Offer(if ask.Some? then Max(first, ask.value) else first, fair, Gap(inp.volShort), inp.meta.grid.tick, PosOf(inp).size,
          SellLayers(inp, fair), inp.meta.minOrderSize, TouchBid(inp), ask, BookOf(inp), inp.ourAsks)
  }

  function Sells(inp: Inputs): seq<Quote>
    requires inp.meta.Valid()
  {
    if PosOf(inp).size < inp.meta.minOrderSize then [] else OfferOf(inp).QuotesFrom(TokenOf(inp), inp.meta.grid, 0)
  }

  /** The buy loop indexes an empty weight list. */
  predicate Raises(inp: Inputs, util: real) {
    && CanBuy(inp, util) && EffectiveBuyLayers(inp) >= 1 && PyramidOf(inp, util).first > 0.0 && inp.profile.shares == []
  }

  function BuyLayersOf(inp: Inputs, util: real): seq<Layer>
    requires inp.meta.Valid()
  {
    if !CanBuy(inp, util) || inp.profile.shares == [] then []
    else PyramidOf(inp, util).Layers(if EffectiveBuyLayers(inp) >= 0 then EffectiveBuyLayers(inp) else 0)
  }

  function OneWayQuotes(inp: Inputs): Outcome
    requires inp.meta.Valid()
  {
    var util := Utilization(inp);
    if inp.regime in {EVENT, HALTED} then Quoted([])
    else if Raises(inp, util) then IndexError
    else Quoted(BuyQuotes(TokenOf(inp), inp.meta.grid, BuyLayersOf(inp, util)) + Sells(inp))
  }

  method ConstructOneWayQuotes(inp: Inputs) returns (r: Outcome)
    requires inp.meta.Valid()
    ensures r == OneWayQuotes(inp)
  {
    if inp.regime in {EVENT, HALTED} {
      return Quoted([]);
    }
    var quotes: seq<Quote> := [];
    var util := Utilization(inp);
    if CanBuy(inp, util) {
      var buys := BuildPyramid(PyramidOf(inp, util), EffectiveBuyLayers(inp), TokenOf(inp), inp.meta.grid);
      if buys.None? {
        return IndexError;
      }
      quotes := buys.value;
    }
    if PosOf(inp).size >= inp.meta.minOrderSize {
      var offers := BuildOffers(OfferOf(inp), TokenOf(inp), inp.meta.grid);
      quotes := quotes + offers;
    } else {
      assert quotes + [] == quotes;
    }
    r := Quoted(quotes);
  }
}
