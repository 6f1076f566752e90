/** What every quote set of the one-way accumulator guarantees, and where it does not hold. */
module OneWaySafety {
  import opened Numerics
  import opened Domain
  import opened Dict
  import opened Ticks
  import opened OneWay
  import opened Execution
  import opened Reconciler
  import B = OrderBook
  import Q = Quoting

  // ── Fair value of the day ────────────────────────────────────────────

  lemma Quotient(x: real, y: real, total: real)
    requires 0.0 <= x <= y && total > 0.0
    ensures 0.0 <= x / total <= y / total
  {
    MulMono(x, y, total);
    MulMono(0.0, x, total);
  }

  lemma ShareOfInitial(initial: real, left: real, total: real)
    requires initial >= 0.0 && 0.0 <= left <= total && total > 0.0
    ensures 0.0 <= Decayed(initial, left, total) <= initial
  {
    MulNonNegative(initial, left);
    MulNonNegative(initial, total - left);
    assert initial * left <= initial * total;
    Quotient(initial * left, initial * total, total);
    MulDiv(initial, total);
  }

  lemma ShareShrinks(initial: real, left: real, later: real, total: real)
    requires initial >= 0.0 && 0.0 <= later <= left && total > 0.0
    ensures Decayed(initial, later, total) <= Decayed(initial, left, total)
  {
    MulNonNegative(initial, left - later);
    assert initial * left - initial * later == initial * (left - later);
    MulMono(initial * later, initial * left, total);
  }

  /** DECAY: fair value lies between nothing and its initial value, never rises, and is nothing from the end date on. */
  lemma FairValueDecays(p: Profile, today: real, later: real)
    requires p.fvInitial >= 0.0 && today <= later
    ensures 0.0 <= FairToday(p, later) <= FairToday(p, today) <= p.fvInitial
    ensures p.fvEnd.On? && p.fvEnd.day <= today ==> FairToday(p, today) == 0.0
  {
    hide Decayed;
    if p.fvEnd.On? && p.fvStart.On? && p.fvEnd.day > p.fvStart.day {
      var total := p.fvEnd.day - p.fvStart.day;
      var left, left' := p.fvEnd.day - today, p.fvEnd.day - later;
      if left > 0.0 && today >= p.fvStart.day {
        ShareOfInitial(p.fvInitial, left, total);
      }
      if left' > 0.0 && later >= p.fvStart.day {
        ShareOfInitial(p.fvInitial, left', total);
        ShareShrinks(p.fvInitial, left, left', total);
      }
    }
  }

  // ── Buys ─────────────────────────────────────────────────────────────

  lemma {:induction false} LayersAtMostFirst(p: Pyramid, n: nat)
    requires p.weights != [] && p.tick > 0.0
    ensures forall l :: l in p.Layers(n) ==> 0.0 < l.price <= p.first && l.shares >= p.minOrderSize
    ensures forall i, j :: 0 <= i < j < |p.Layers(n)| ==> p.Layers(n)[j].price < p.Layers(n)[i].price
    ensures n > 0 ==> forall l :: l in p.Layers(n) ==> l.price >= p.Price(n - 1)
  {
    hide Pyramid.Shares;
    if n > 0 {
      LayersAtMostFirst(p, n - 1);
      PricesFall(p, 0, n - 1);
      if n > 1 {
        PricesFall(p, n - 2, n - 1);
      }
    }
  }

  lemma {:induction false} BuyQuoteMembers(token: string, g: Grid, layers: seq<Layer>, q: Quote)
    requires g.unit > 0.0 && q in BuyQuotes(token, g, layers)
    ensures q.tokenId == token && q.side == BUY
    ensures exists l :: l in layers && q.price == g.Round(l.price) && q.size == l.shares
  {
    hide Grid.Round;
    var n := |layers| - 1;
    if q in BuyQuotes(token, g, layers[..n]) {
      BuyQuoteMembers(token, g, layers[..n], q);
      var l :| l in layers[..n] && q.price == g.Round(l.price) && q.size == l.shares;
      assert l in layers;
    } else {
      assert layers[n] in layers;
    }
  }

  /** BUY LADDER: layers fall strictly in price from at most the best bid, each reaching the order minimum. */
  lemma BuyLadder(inp: Inputs, util: real)
    requires inp.meta.Valid()
    ensures var ls := BuyLayersOf(inp, util);
      && (forall l :: l in ls ==> TouchBid(inp).Some? && 0.0 < l.price <= TouchBid(inp).value && l.shares >= inp.meta.minOrderSize)
      && (forall i, j :: 0 <= i < j < |ls| ==> ls[j].price < ls[i].price)
  {
    hide Pyramid.Layers, FairToday;
    if CanBuy(inp, util) && inp.profile.shares != [] {
      LayersAtMostFirst(PyramidOf(inp, util), if EffectiveBuyLayers(inp) >= 0 then EffectiveBuyLayers(inp) else 0);
    }
  }

  lemma {:induction false} OffersAreSells(o: Offer, token: string, g: Grid, i: nat)
    requires g.unit > 0.0
    ensures forall q :: q in o.QuotesFrom(token, g, i) ==> q.side == SELL && q.tokenId == token && q.size >= o.minOrderSize
    decreases o.count - i
  {
    hide Grid.Round, Offer.Guarded, Offer.Final, Offer.Size;
    if i < o.count {
      OffersAreSells(o, token, g, i + 1);
    }
  }

  /** NO CROSSING: on an uncrossed book with a printable best bid, no BUY reaches the ask, even after rounding. */
  lemma BuysNeverCross(inp: Inputs, q: Quote)
    requires inp.meta.Valid() && OneWayQuotes(inp).Quoted? && q in OneWayQuotes(inp).quotes && q.side == BUY
    requires TouchBid(inp).Some? ==> inp.meta.grid.Round(TouchBid(inp).value) == TouchBid(inp).value
    requires TouchBid(inp).Some? && TouchAsk(inp).Some? ==> TouchBid(inp).value < TouchAsk(inp).value
    ensures q.tokenId == TokenOf(inp) && q.size >= inp.meta.minOrderSize
    ensures TouchBid(inp).Some? && q.price <= TouchBid(inp).value
    ensures TouchAsk(inp).Some? && q.price < TouchAsk(inp).value
  {
    hide BuyLayersOf, Grid.Round, Offer.QuotesFrom, BuyQuotes, Utilization, Raises;
    var util := Utilization(inp);
    OffersAreSells(OfferOf(inp), TokenOf(inp), inp.meta.grid, 0);
    BuyQuoteMembers(TokenOf(inp), inp.meta.grid, BuyLayersOf(inp, util), q);
    BuyLadder(inp, util);
    BuyingNeedsBothSides(inp, util);
    var l :| l in BuyLayersOf(inp, util) && q.price == inp.meta.grid.Round(l.price) && q.size == l.shares;
    RoundedBelow(l.price, TouchBid(inp).value, inp.meta.grid);
  }

  lemma RoundedBelow(x: real, y: real, g: Grid)
    requires g.unit > 0.0 && x <= y
    ensures g.Round(x) <= g.Round(y)
  {
    RoundMonotone(x, y, g.unit);
  }

  lemma BuyingNeedsBothSides(inp: Inputs, util: real)
    requires inp.meta.Valid()
    ensures BuyLayersOf(inp, util) != [] ==> TouchBid(inp).Some? && TouchAsk(inp).Some?
  {
    hide PyramidOf;
  }

  // ── Spend ────────────────────────────────────────────────────────────

  /** Cost of the layers at their unrounded prices. */
  function Spend(layers: seq<Layer>): real {
    if layers == [] then 0.0
    else
      var n := |layers| - 1;
      Spend(layers[..n]) + layers[n].price * layers[n].shares
  }

  /** A layer never costs more than its budget. */
  lemma LayerCost(usdc: real, price: real, tick: real)
    requires tick > 0.0 && price > 0.0 && usdc >= 0.0
    ensures price * SharesFor(usdc, price, tick) <= usdc
  {
    var m := Max(price, tick);
    var x := usdc / m;
    MulDiv(usdc, m);
    assert x * m == usdc;
    MulMono(0.0, usdc, m);
    FloorLeq(x);
    MulMono(Q.FloorShares(x), x, price);
    MulNonNegative(x, m - price);
    assert x * m - x * price == x * (m - price);
  }

  lemma FloorLeq(x: real)
    ensures Q.FloorShares(x) <= x
  {
    assert (x * 100.0).Floor as real <= x * 100.0;
  }

  lemma BudgetNonNegative(p: Pyramid, i: nat)
    requires p.weights != [] && p.usdc >= 0.0 && p.scale >= 0.0 && forall w :: w in p.weights ==> w >= 0.0
    ensures p.Budget(i) >= 0.0
  {
    assert p.weights[if i < |p.weights| then i else |p.weights| - 1] in p.weights;
    MulNonNegative(p.usdc, p.Weight(i));
    MulNonNegative(p.usdc * p.Weight(i), p.scale);
  }

  /** Money for the first `n` weights. */
  function BudgetOf(p: Pyramid, n: nat): real
    requires n <= |p.weights|
  {
    if n == 0 then 0.0 else BudgetOf(p, n - 1) + p.Budget(n - 1)
  }

  lemma SpendSnoc(ls: seq<Layer>, l: Layer)
    ensures Spend(ls + [l]) == Spend(ls) + l.price * l.shares
  {
    assert (ls + [l])[..|ls|] == ls;
  }

  lemma {:induction false} LayersSpend(p: Pyramid, n: nat)
    requires p.weights != [] && p.tick > 0.0 && p.usdc >= 0.0 && p.scale >= 0.0 && n <= |p.weights|
    requires forall w :: w in p.weights ==> w >= 0.0
    ensures Spend(p.Layers(n)) <= BudgetOf(p, n)
  {
    hide Spend, Pyramid.Budget, SharesFor, Pyramid.Price;
    if n == 0 {
      assert Spend([]) == 0.0 by { SpendNothing(); }
    } else {
      LayersSpend(p, n - 1);
      BudgetNonNegative(p, n - 1);
      if p.Price(n - 1) > 0.0 {
        LayerCost(p.Budget(n - 1), p.Price(n - 1), p.tick);
        SpendSnoc(p.Layers(n - 1), Layer(p.Price(n - 1), p.Shares(n - 1)));
      }
    }
  }

  lemma SpendNothing()
    ensures Spend([]) == 0.0
  {
  }

  lemma {:induction false} SumSnoc(xs: seq<real>, x: real)
    ensures Sum(xs + [x]) == Sum(xs) + x
  {
    if xs == [] {
      assert Sum([x]) == x + Sum([]);
    } else {
      SumSnoc(xs[1..], x);
      assert (xs + [x])[1..] == xs[1..] + [x];
    }
  }

  lemma {:induction false} BudgetIsWeighted(p: Pyramid, n: nat)
    requires n <= |p.weights|
    ensures BudgetOf(p, n) == p.usdc * Sum(p.weights[..n]) * p.scale
  {
    if n > 0 {
      BudgetIsWeighted(p, n - 1);
      SumSnoc(p.weights[..n - 1], p.weights[n - 1]);
      assert p.weights[..n] == p.weights[..n - 1] + [p.weights[n - 1]];
      Distribute(p.usdc, Sum(p.weights[..n - 1]), p.weights[n - 1], p.scale);
    }
  }

  lemma Distribute(a: real, x: real, y: real, c: real)
    ensures a * (x + y) * c == a * x * c + a * y * c
  {
    assert a * (x + y) == a * x + a * y;
  }

  lemma {:induction false} SumMonotone(ws: seq<real>, n: nat)
    requires n <= |ws| && forall w :: w in ws ==> w >= 0.0
    ensures 0.0 <= Sum(ws[..n]) <= Sum(ws)
    decreases |ws|
  {
    if ws != [] {
      assert ws[0] in ws && forall w :: w in ws[1..] ==> w in ws;
      if n == 0 {
        SumMonotone(ws[1..], 0);
      } else {
        SumMonotone(ws[1..], n - 1);
        assert ws[..n][1..] == ws[1..][..n - 1];
      }
    }
  }

  lemma Fraction(usdc: real, part: real, scale: real)
    requires usdc >= 0.0 && scale >= 0.0 && part <= 1.0
    ensures usdc * part * scale <= usdc * scale
  {
    MulNonNegative(usdc, 1.0 - part);
    MulNonNegative(usdc * (1.0 - part), scale);
    assert usdc * scale - usdc * part * scale == usdc * (1.0 - part) * scale;
  }

  /** SPEND: with no more layers than weights, and non-negative weights summing to at most one, the buy ladder costs
      at most the base size times the throttle. */
  lemma SpendBounded(inp: Inputs, util: real)
    requires inp.meta.Valid() && inp.profile.baseSizeUsdc >= 0.0
    requires EffectiveBuyLayers(inp) <= |inp.profile.shares|
    requires (forall w :: w in inp.profile.shares ==> w >= 0.0) && Sum(inp.profile.shares) <= 1.0
    ensures Spend(BuyLayersOf(inp, util)) <= inp.profile.baseSizeUsdc * Throttle(inp, util)
  {
    hide Spend, Pyramid.Layers, FairToday, Sum;
    ThrottleInUnit(inp, util);
    MulNonNegative(inp.profile.baseSizeUsdc, Throttle(inp, util));
    SpendNothing();
    if CanBuy(inp, util) && inp.profile.shares != [] {
      var p := PyramidOf(inp, util);
      var n := if EffectiveBuyLayers(inp) >= 0 then EffectiveBuyLayers(inp) else 0;
      PyramidSpend(p, n);
    }
  }

  lemma PyramidSpend(p: Pyramid, n: nat)
    requires p.weights != [] && p.tick > 0.0 && p.usdc >= 0.0 && p.scale >= 0.0 && n <= |p.weights|
    requires (forall w :: w in p.weights ==> w >= 0.0) && Sum(p.weights) <= 1.0
    ensures Spend(p.Layers(n)) <= p.usdc * p.scale
  {
    hide Spend, Pyramid.Layers, BudgetOf, Sum;
    LayersSpend(p, n);
    BudgetIsWeighted(p, n);
    SumMonotone(p.weights, n);
    Fraction(p.usdc, Sum(p.weights[..n]), p.scale);
  }

  lemma ThrottleInUnit(inp: Inputs, util: real)
    ensures 0.0 <= Throttle(inp, util) <= 1.0
  {
  }

  // ── Sells ────────────────────────────────────────────────────────────

  lemma SplitShares(o: Offer)
    requires o.count > 0 && o.held >= 0.0
    ensures Copies(o.count, o.Size()) <= o.held && o.Size() >= 0.0
  {
    var n := o.count as real;
    var x := o.held * 100.0 / n;
    MulDiv(o.held * 100.0, n);
    MulMono(0.0, o.held * 100.0, n);
    assert x >= 0.0 && x * n == o.held * 100.0;
    MulMono(x.Floor as real, x, n);
    assert n * (x.Floor as real / 100.0) == x.Floor as real * n / 100.0;
  }

  lemma {:induction false} OffersTotal(o: Offer, token: string, g: Grid, i: nat)
    requires g.unit > 0.0 && i <= o.count && o.count > 0 && o.Size() >= 0.0
    ensures TargetSizeAt(o.QuotesFrom(token, g, i), (token, SELL)) <= Copies(o.count - i, o.Size())
    ensures CountAt(o.QuotesFrom(token, g, i), (token, SELL)) <= o.count - i
    decreases o.count - i
  {
    hide Grid.Round, Offer.Guarded, Offer.Final, Offer.Size, Copies;
    if i == o.count {
      assert Copies(0, o.Size()) == 0.0 by { NoCopies(o.Size()); }
    } else {
      OffersTotal(o, token, g, i + 1);
      OneMore(o.count - i - 1, o.Size());
      CopiesNonNegative(o.count - i, o.Size());
      if o.Guarded(i).Some? && o.Size() >= o.minOrderSize {
        var q := Quote(token, SELL, g.Round(o.Final(o.Guarded(i).value)), o.Size());
        TargetSizeConcat([q], o.QuotesFrom(token, g, i + 1), (token, SELL));
        assert TargetSizeAt([q], (token, SELL)) == o.Size() by { SingleTarget(q); }
      }
    }
  }

  lemma SingleTarget(q: Quote)
    ensures TargetSizeAt([q], (q.tokenId, q.side)) == q.size && CountAt([q], (q.tokenId, q.side)) == 1
  {
    assert [q][..0] == [];
  }

  lemma {:induction false} NoTargetAt(targets: seq<Quote>, k: Key)
    requires forall q :: q in targets ==> QuoteKey(q) != k
    ensures TargetSizeAt(targets, k) == 0.0 && CountAt(targets, k) == 0
  {
    if targets != [] {
      var n := |targets| - 1;
      assert targets[n] in targets;
      assert forall q :: q in targets[..n] ==> q in targets;
      NoTargetAt(targets[..n], k);
    }
  }

  lemma BuysAreNotSells(token: string, g: Grid, layers: seq<Layer>, t: string)
    requires g.unit > 0.0
    ensures TargetSizeAt(BuyQuotes(token, g, layers), (t, SELL)) == 0.0
    ensures CountAt(BuyQuotes(token, g, layers), (t, SELL)) == 0
  {
    hide BuyQuotes;
    forall q | q in BuyQuotes(token, g, layers)
      ensures QuoteKey(q) != (t, SELL)
    {
      BuyQuoteMembers(token, g, layers, q);
    }
    NoTargetAt(BuyQuotes(token, g, layers), (t, SELL));
  }

  lemma SellsWithin(inp: Inputs)
    requires inp.meta.Valid() && PosOf(inp).size >= 0.0
    ensures TargetSizeAt(Sells(inp), (TokenOf(inp), SELL)) <= PosOf(inp).size
    ensures CountAt(Sells(inp), (TokenOf(inp), SELL)) <= if inp.profile.sellLayers >= 1 then inp.profile.sellLayers else 1
  {
    hide Grid.Round, Offer.Guarded, Offer.Final, Copies, FairToday, Offer.Size;
    var o := OfferOf(inp);
    if PosOf(inp).size >= inp.meta.minOrderSize && o.count > 0 {
      SplitShares(o);
      OffersTotal(o, TokenOf(inp), inp.meta.grid, 0);
    }
  }

  lemma ElsewhereNothing(inp: Inputs, t: string)
    requires inp.meta.Valid() && t != TokenOf(inp)
    ensures TargetSizeAt(Sells(inp), (t, SELL)) == 0.0 && CountAt(Sells(inp), (t, SELL)) == 0
  {
    hide Offer.QuotesFrom;
    OffersAreSells(OfferOf(inp), TokenOf(inp), inp.meta.grid, 0);
    NoTargetAt(Sells(inp), (t, SELL));
  }

  /** NO OVERSELLING: the SELL targets on the traded token total at most what is held; elsewhere there are none. */
  lemma NeverOversells(inp: Inputs, t: string)
    requires inp.meta.Valid() && PosOf(inp).size >= 0.0 && OneWayQuotes(inp).Quoted?
    ensures var sold := TargetSizeAt(OneWayQuotes(inp).quotes, (t, SELL));
      if t == TokenOf(inp) then sold <= PosOf(inp).size else sold == 0.0
    ensures CountAt(OneWayQuotes(inp).quotes, (t, SELL)) <= if inp.profile.sellLayers >= 1 then inp.profile.sellLayers else 1
  {
    hide BuyLayersOf, BuyQuotes, Sells, Raises, Utilization;
    if inp.regime !in {EVENT, HALTED} {
      var buys := BuyQuotes(TokenOf(inp), inp.meta.grid, BuyLayersOf(inp, Utilization(inp)));
      TargetSizeConcat(buys, Sells(inp), (t, SELL));
      BuysAreNotSells(TokenOf(inp), inp.meta.grid, BuyLayersOf(inp, Utilization(inp)), t);
      if t == TokenOf(inp) {
        SellsWithin(inp);
      } else {
        ElsewhereNothing(inp, t);
      }
    }
  }

  /** BRAKES: buys need room below the inventory brake, time before the end and a normal regime; sells need a holding
      of at least one order and no panic. */
  lemma BrakesHold(inp: Inputs, q: Quote)
    requires inp.meta.Valid() && OneWayQuotes(inp).Quoted? && q in OneWayQuotes(inp).quotes
    ensures inp.regime !in {EVENT, HALTED} && q.tokenId == TokenOf(inp) && q.size >= inp.meta.minOrderSize
    ensures q.side == BUY ==> !NearEnd(inp) && Utilization(inp) < inp.profile.invMid && inp.regime != REDUCE_ONLY
    ensures q.side == SELL ==> inp.toxicity < inp.profile.panicToxicity && PosOf(inp).size >= inp.meta.minOrderSize
  {
    hide BuyQuotes, Utilization, Raises, Offer.Guarded, Offer.Final, Offer.Size, FairToday, Grid.Round, Pyramid.Layers;
    var util := Utilization(inp);
    var layers := BuyLayersOf(inp, util);
    OffersAreSells(OfferOf(inp), TokenOf(inp), inp.meta.grid, 0);
    if q in BuyQuotes(TokenOf(inp), inp.meta.grid, layers) {
      BuyQuoteMembers(TokenOf(inp), inp.meta.grid, layers, q);
      BuyLadder(inp, util);
    }
  }

  // ── Sells and the bid ────────────────────────────────────────────────

  const MICRO: real := 0.000001

  lemma TicksApart(k: int, b: int, tick: real)
    requires tick > 0.0
    ensures k as real * tick - b as real * tick == (k - b) as real * tick
    ensures k >= b + 1 <==> k as real * tick >= b as real * tick + tick
    ensures k > b <==> k as real * tick > b as real * tick
    ensures k > b + 2 <==> k as real * tick > b as real * tick + 2.0 * tick
  {
    MulMono(b as real + 1.0, k as real, tick);
    MulMono(b as real, k as real, tick);
    MulMono(b as real + 2.0, k as real, tick);
    assert (b as real + 1.0) * tick == b as real * tick + tick;
    assert (b as real + 2.0) * tick == b as real * tick + 2.0 * tick;
  }

  /** On the grid: prices are `TicksAt(k, tick)`. */
  function TicksAt(k: int, tick: real): real { k as real * tick }

  lemma NextTickAt(k: int, tick: real)
    ensures TicksAt(k + 1, tick) == TicksAt(k, tick) + tick && TicksAt(k - 1, tick) == TicksAt(k, tick) - tick
  {
    assert (k + 1) as real == k as real + 1.0 && (k - 1) as real == k as real - 1.0;
  }

  lemma GridOrder(k: int, b: int, tick: real)
    requires tick > 0.0
    ensures k > b <==> TicksAt(k, tick) > TicksAt(b, tick)
  {
    TicksApart(k, b, tick);
  }

  lemma InFrontIsExact(k: int, tick: real)
    requires tick > 0.0 && OnGrid(tick, MICRO)
    ensures InFront(SELL, TicksAt(k, tick), tick) == TicksAt(k - 1, tick)
  {
    NextTickAt(k, tick);
    var n := (tick / MICRO).Floor;
    MultipleOf(k - 1, n, tick, MICRO);
    MultiplesPrint(TicksAt(k - 1, tick), (k - 1) * n, MICRO);
  }

  /** Asks are on the grid and above the bid. */
  ghost predicate AsksAbove(asks: B.Levels, b: int, tick: real) {
    forall l :: l in asks ==> exists n: int :: n > b && l.price == TicksAt(n, tick)
  }

  lemma {:induction false} NothingAtBid(asks: B.Levels, b: int, tick: real)
    requires tick > 0.0 && AsksAbove(asks, b, tick)
    ensures SizeNear(asks, TicksAt(b, tick), tick) == 0.0
  {
    hide TicksAt;
    if asks != [] {
      assert asks[0] in asks;
      var n: int :| n > b && asks[0].price == TicksAt(n, tick);
      NextTickAt(b, tick);
      if n > b + 1 {
        GridOrder(n, b + 1, tick);
      }
      assert AsksAbove(asks[1..], b, tick) by {
        assert forall l :: l in asks[1..] ==> l in asks;
      }
      NothingAtBid(asks[1..], b, tick);
    }
  }

  /** THE WALL SHIFT: a SELL aimed `k` ticks up, above the bid at `b`, is pulled onto the bid exactly when it aims at
      most two ticks above it and somebody else's wall rests one tick above it. */
  lemma WallShift(asks: B.Levels, k: int, b: int, tick: real, size: real, ours: seq<real>)
    requires tick > 0.0 && OnGrid(tick, MICRO) && k > b && size > 0.0 && AsksAbove(asks, b, tick)
    ensures exists n: int :: AdjustForWall(asks, SELL, TicksAt(k, tick), tick, size, ours) == TicksAt(n, tick)
    ensures AdjustForWall(asks, SELL, TicksAt(k, tick), tick, size, ours) > TicksAt(b, tick) <==>
              k > b + 2 || !WallAt(asks, ours, TicksAt(b + 1, tick), tick, size)
    ensures AdjustForWall(asks, SELL, TicksAt(k, tick), tick, size, ours) >= TicksAt(b, tick)
  {
    hide TicksAt, SizeNear, InFront, IsOurs;
    NextTickAt(k, tick);
    NextTickAt(b, tick);
    InFrontIsExact(k - 1, tick);
    InFrontIsExact(k, tick);
    InFrontIsExact(k + 1, tick);
    NothingAtBid(asks, b, tick);
    GridOrder(k, b, tick);
    GridOrder(k - 1, b, tick);
    GridOrder(k - 2, b, tick);
  }

  // ── Every sell layer ─────────────────────────────────────────────────

  /** Rounding to six decimals and then to the printed ones lands on the bid or below. */
  predicate Lands(x: real, bid: real, g: Grid)
    requires g.unit > 0.0
  {
    g.Round(RoundTo(x, MICRO)) <= bid
  }

  /** The wall shift undoes the guard of a layer aimed at `p`: a foreign wall a tick below the target whose front lands
      on the bid, or else one at the target whose front does. */
  predicate PulledDown(asks: B.Levels, ours: seq<real>, p: real, bid: real, size: real, g: Grid)
    requires g.unit > 0.0
  {
    if WallAt(asks, ours, p - g.tick, g.tick, size) then Lands(p - 2.0 * g.tick, bid, g)
    else WallAt(asks, ours, p, g.tick, size) && Lands(p - g.tick, bid, g)
  }

  lemma PrintedAbove(x: real, y: real, g: Grid)
    requires g.Valid() && x >= y && g.Round(y) == y && RoundTo(y, MICRO) == y
    ensures g.Round(x) >= y && g.Round(RoundTo(x, MICRO)) >= y
  {
    assert g.unit > 0.0;
    hide RoundTo, Grid.Valid, Grid.Round;
    RoundMonotone(y, x, MICRO);
    RoundedBelow(y, x, g);
    RoundedBelow(y, RoundTo(x, MICRO), g);
  }

  /** A target at least a tick above the bid stays above it, printed, unless it is pulled down. */
  lemma AdjustedAboveBid(asks: B.Levels, ours: seq<real>, p: real, bid: real, size: real, g: Grid)
    requires g.Valid() && p >= bid + g.tick && g.Round(bid + g.tick) == bid + g.tick && RoundTo(bid + g.tick, MICRO) == bid + g.tick
    ensures g.Round(AdjustForWall(asks, SELL, p, g.tick, size, ours)) > bid <==> !PulledDown(asks, ours, p, bid, size, g)
  {
    hide WallAt, RoundTo, Grid.Round;
    PrintedAbove(p, bid + g.tick, g);
    assert (p - g.tick) - g.tick == p - 2.0 * g.tick && (p + g.tick) - g.tick == p;
  }

  /** Only a level within half a tick makes a wall. */
  lemma {:induction false} NearLevel(asks: B.Levels, price: real, tick: real)
    ensures SizeNear(asks, price, tick) == 0.0 || exists l :: l in asks && Abs(l.price - price) < tick / 2.0
  {
    if asks != [] && Abs(asks[0].price - price) >= tick / 2.0 {
      NearLevel(asks[1..], price, tick);
      assert forall l :: l in asks[1..] ==> l in asks;
    } else if asks != [] {
      assert asks[0] in asks;
    }
  }

  lemma WallIsHigh(asks: B.Levels, ours: seq<real>, price: real, tick: real, size: real, floor: real)
    requires size > 0.0 && WallAt(asks, ours, price, tick, size) && forall l :: l in asks ==> l.price >= floor
    ensures price > floor - tick / 2.0
  {
    NearLevel(asks, price, tick);
    var l :| l in asks && Abs(l.price - price) < tick / 2.0;
  }

  lemma MicroTick(tick: real)
    requires tick > 0.0 && OnGrid(tick, MICRO)
    ensures tick >= MICRO
  {
    MulDiv(tick, MICRO);
  }

  /** Three ticks of room are enough for any target: no wall shift reaches the bid. */
  lemma RoomForWalls(asks: B.Levels, ours: seq<real>, p: real, bid: real, tick: real, size: real)
    requires tick > 0.0 && OnGrid(tick, MICRO) && size > 0.0 && p >= bid + tick
    requires forall l :: l in asks ==> l.price >= bid + 3.0 * tick
    ensures AdjustForWall(asks, SELL, p, tick, size, ours) >= bid + tick
  {
    hide WallAt, RoundTo, OnGrid;
    MicroTick(tick);
    RoundNear(p - tick - tick, MICRO);
    RoundNear(p - tick, MICRO);
    RoundNear(p + tick - tick, MICRO);
    if WallAt(asks, ours, p - tick, tick, size) {
      WallIsHigh(asks, ours, p - tick, tick, size, bid + 3.0 * tick);
    } else if WallAt(asks, ours, p, tick, size) {
      WallIsHigh(asks, ours, p, tick, size, bid + 3.0 * tick);
    } else if WallAt(asks, ours, p + tick, tick, size) {
      WallIsHigh(asks, ours, p + tick, tick, size, bid + 3.0 * tick);
    }
  }

  /** At two ticks of room a target is pulled down only from the very middle between two ticks, where rounding to six
      decimals decides. */
  lemma TwoTicksOfRoom(asks: B.Levels, ours: seq<real>, p: real, bid: real, size: real, g: Grid)
    requires g.Valid() && OnGrid(g.tick, MICRO) && size > 0.0 && p >= bid + g.tick
    requires forall l :: l in asks ==> l.price >= bid + 2.0 * g.tick
    requires PulledDown(asks, ours, p, bid, size, g)
    ensures bid + 2.5 * g.tick < p <= bid + 2.0 * g.tick + 0.5 * g.unit + 0.5 * MICRO
            || bid + 1.5 * g.tick < p <= bid + g.tick + 0.5 * g.unit + 0.5 * MICRO
  {
    hide WallAt, RoundTo, OnGrid;
    if WallAt(asks, ours, p - g.tick, g.tick, size) {
      WallIsHigh(asks, ours, p - g.tick, g.tick, size, bid + 2.0 * g.tick);
      LandsNear(p - 2.0 * g.tick, bid, g);
    } else {
      WallIsHigh(asks, ours, p, g.tick, size, bid + 2.0 * g.tick);
      LandsNear(p - g.tick, bid, g);
    }
  }

  lemma LandsNear(x: real, bid: real, g: Grid)
    requires g.unit > 0.0 && Lands(x, bid, g)
    ensures x <= bid + 0.5 * g.unit + 0.5 * MICRO
  {
    hide RoundTo;
    RoundNear(x, MICRO);
    RoundNear(RoundTo(x, MICRO), g.unit);
  }

  /** A sorted book on the tick grid, uncrossed, both sides shown. */
  ghost predicate GridBook(inp: Inputs, b: int, a: int)
    requires inp.meta.Valid()
  {
    var tick := inp.meta.grid.tick;
    && TouchBid(inp) == Some(TicksAt(b, tick)) && TouchAsk(inp) == Some(TicksAt(a, tick)) && 0 <= b < a
    && AsksAbove(BookOf(inp).value.asks, b, tick) && B.Ascending(BookOf(inp).value.asks)
  }

  lemma {:induction false} NoOffers(o: Offer, token: string, g: Grid, i: nat)
    requires g.unit > 0.0 && o.count > 0 && o.Size() < o.minOrderSize
    ensures o.QuotesFrom(token, g, i) == []
    decreases o.count - i
  {
    hide Offer.Final, Offer.Size, Offer.Guarded, Grid.Round;
    if i < o.count {
      NoOffers(o, token, g, i + 1);
    }
  }

  /** The `k`-th quote is the one of layer `i + k`. */
  lemma {:induction false} NthOffer(o: Offer, token: string, g: Grid, i: nat, k: nat)
    requires g.unit > 0.0 && k < |o.QuotesFrom(token, g, i)|
    ensures i + k < o.count && o.Guarded(i + k).Some? && o.Size() >= o.minOrderSize
    ensures o.QuotesFrom(token, g, i)[k] == Quote(token, SELL, g.Round(o.Final(o.Guarded(i + k).value)), o.Size())
    decreases k
  {
    hide Offer.Final, Offer.Size, Offer.Guarded, Grid.Round;
    if o.Size() < o.minOrderSize {
      NoOffers(o, token, g, i);
    } else if k > 0 {
      NthOffer(o, token, g, i + 1, k - 1);
    }
  }

  /** The guarded target of the `k`-th sell layer. */
  function SellTarget(inp: Inputs, k: nat): Option<real> { OfferOf(inp).Guarded(k) }

  lemma SellAt(inp: Inputs, k: nat)
    requires inp.meta.Valid() && k < |Sells(inp)| && TouchBid(inp).Some?
    ensures SellTarget(inp, k).Some? && SellTarget(inp, k).value >= TouchBid(inp).value + inp.meta.grid.tick
    ensures Sells(inp)[k].size >= inp.meta.minOrderSize
    ensures Sells(inp)[k].price ==
            inp.meta.grid.Round(AdjustForWall(BookOf(inp).value.asks, SELL, SellTarget(inp, k).value, inp.meta.grid.tick,
                                              Sells(inp)[k].size, inp.ourAsks))
  {
    hide FairToday, Offer.QuotesFrom, Offer.Size, Offer.Raw, AdjustForWall, Grid.Round;
    NthOffer(OfferOf(inp), TokenOf(inp), inp.meta.grid, 0, k);
  }

  lemma MicroCount(tick: real, m: int)
    requires tick > 0.0 && OnGrid(tick, MICRO) && m == (tick / MICRO).Floor
    ensures tick == m as real * MICRO
  {
    MulDiv(tick, MICRO);
  }

  lemma GridPrints(n: int, g: Grid)
    requires g.Valid() && OnGrid(g.tick, MICRO)
    ensures g.Round(TicksAt(n, g.tick)) == TicksAt(n, g.tick) && RoundTo(TicksAt(n, g.tick), MICRO) == TicksAt(n, g.tick)
  {
    assert g.tick > 0.0;
    hide Grid.Round, Grid.Valid, RoundTo;
    PrintsAt(TicksAt(n, g.tick), n, g);
    var m := (g.tick / MICRO).Floor;
    MicroCount(g.tick, m);
    MultipleOf(n, m, g.tick, MICRO);
    MultiplesPrint(TicksAt(n, g.tick), n * m, MICRO);
  }

  /** SELLS AND THE BID, every layer: on a grid book the `k`-th SELL rests above the best bid exactly when the wall shift
      does not pull its target down. */
  lemma SellAboveBidIff(inp: Inputs, b: int, a: int, k: nat)
    requires inp.meta.Valid() && OnGrid(inp.meta.grid.tick, MICRO) && GridBook(inp, b, a) && k < |Sells(inp)|
    ensures SellTarget(inp, k).Some? && SellTarget(inp, k).value >= TouchBid(inp).value + inp.meta.grid.tick
    ensures Sells(inp)[k].price > TouchBid(inp).value <==>
              !PulledDown(BookOf(inp).value.asks, inp.ourAsks, SellTarget(inp, k).value, TouchBid(inp).value,
                          Sells(inp)[k].size, inp.meta.grid)
  {
    hide Sells, SellTarget, AdjustForWall, PulledDown, TicksAt, Grid.Round, RoundTo, OnGrid;
    var g := inp.meta.grid;
    SellAt(inp, k);
    NextTickAt(b, g.tick);
    GridPrints(b + 1, g);
    AdjustedAboveBid(BookOf(inp).value.asks, inp.ourAsks, SellTarget(inp, k).value, TouchBid(inp).value, Sells(inp)[k].size, g);
  }

  lemma AsksFromTouch(inp: Inputs, b: int, a: int, c: int)
    requires inp.meta.Valid() && GridBook(inp, b, a) && c <= a
    ensures forall l :: l in BookOf(inp).value.asks ==> l.price >= TicksAt(c, inp.meta.grid.tick)
  {
    hide TicksAt;
    if c < a {
      GridOrder(a, c, inp.meta.grid.tick);
    }
    forall l | l in BookOf(inp).value.asks
      ensures l.price >= TicksAt(a, inp.meta.grid.tick)
    {
      var asks := BookOf(inp).value.asks;
      var i :| 0 <= i < |asks| && asks[i] == l;
      assert i > 0 ==> asks[0].price < asks[i].price;
    }
  }

  /** Three ticks between the touches keep every SELL a tick above the bid. */
  lemma WideSpreadKeepsSellsAbove(inp: Inputs, b: int, a: int, k: nat)
    requires inp.meta.Valid() && OnGrid(inp.meta.grid.tick, MICRO) && inp.meta.minOrderSize > 0.0
    requires GridBook(inp, b, a) && a > b + 2 && k < |Sells(inp)|
    ensures Sells(inp)[k].price >= TouchBid(inp).value + inp.meta.grid.tick
  {
    hide Sells, SellTarget, AdjustForWall, TicksAt, Grid.Round, RoundTo, OnGrid;
    var g, asks := inp.meta.grid, BookOf(inp).value.asks;
    SellAt(inp, k);
    AsksFromTouch(inp, b, a, b + 3);
    NextTickAt(b, g.tick);
    NextTickAt(b + 1, g.tick);
    NextTickAt(b + 2, g.tick);
    GridPrints(b + 1, g);
    var bid, p, size := TouchBid(inp).value, SellTarget(inp, k).value, Sells(inp)[k].size;
    RoomForWalls(asks, inp.ourAsks, p, bid, g.tick, size);
    PrintedAbove(AdjustForWall(asks, SELL, p, g.tick, size, inp.ourAsks), bid + g.tick, g);
  }

  lemma LadderLeadsWithAsk(o: Offer, fair: real, other: real)
    requires o.ask.Some? && o.ask.value >= 0.0 && o.fair == fair && o.first == Max(Min(other, fair * 0.8), o.ask.value)
    ensures o.Raw(0) == o.ask
  {
  }

  lemma FirstTarget(inp: Inputs, b: int, a: int)
    requires inp.meta.Valid() && GridBook(inp, b, a) && SellTarget(inp, 0).Some?
    ensures SellTarget(inp, 0).value == TicksAt(a, inp.meta.grid.tick)
  {
    hide TicksAt, FairToday;
    var tick := inp.meta.grid.tick;
    assert TicksAt(a, tick) >= 0.0 by {
      GridOrder(a, 0, tick);
      assert TicksAt(0, tick) == 0.0 by { NoTicks(tick); }
    }
    LadderLeadsWithAsk(OfferOf(inp), FairToday(inp.profile, inp.today), inp.fv);
    NextTickAt(b, tick);
    if a > b + 1 {
      GridOrder(a, b + 1, tick);
    }
  }

  lemma NoTicks(tick: real)
    ensures TicksAt(0, tick) == 0.0
  {
  }

  /** The first layer leads with the best ask, so it is pulled onto the bid, never below, exactly when somebody else has
      half of it resting one tick above the bid. */
  lemma FirstSellAboveBid(inp: Inputs, b: int, a: int)
    requires inp.meta.Valid() && OnGrid(inp.meta.grid.tick, MICRO) && inp.meta.minOrderSize > 0.0
    requires GridBook(inp, b, a) && Sells(inp) != []
    ensures Sells(inp)[0].price >= TouchBid(inp).value
    ensures Sells(inp)[0].price > TouchBid(inp).value <==>
              !WallAt(BookOf(inp).value.asks, inp.ourAsks, TicksAt(b + 1, inp.meta.grid.tick), inp.meta.grid.tick, Sells(inp)[0].size)
  {
    hide Sells, SellTarget, AdjustForWall, WallAt, TicksAt, Grid.Round, RoundTo, OnGrid;
    var g, asks := inp.meta.grid, BookOf(inp).value.asks;
    SellAt(inp, 0);
    FirstTarget(inp, b, a);
    WallShift(asks, a, b, g.tick, Sells(inp)[0].size, inp.ourAsks);
    var n: int :| AdjustForWall(asks, SELL, TicksAt(a, g.tick), g.tick, Sells(inp)[0].size, inp.ourAsks) == TicksAt(n, g.tick);
    GridPrints(n, g);
    if a > b + 2 && WallAt(asks, inp.ourAsks, TicksAt(b + 1, g.tick), g.tick, Sells(inp)[0].size) {
      AsksFromTouch(inp, b, a, b + 3);
      NextTickAt(b + 1, g.tick);
      NextTickAt(b + 2, g.tick);
      WallIsHigh(asks, inp.ourAsks, TicksAt(b + 1, g.tick), g.tick, Sells(inp)[0].size, TicksAt(b + 3, g.tick));
    }
  }

  // ── The counterexample ───────────────────────────────────────────────

  /** Half-cent ticks printed to a tenth of a cent, a one-tick spread, and a wall at the best ask. */
  const WALLED := Inputs(Q.Meta("y", "n", Grid(0.005, 0.001), 5.0, 0.0, 0.0),
                         Profile(true, 1000.0, 0.503, Missing, Missing, 1, 2, 0.0, 1.0, 0.0, 0.0, 50.0, [1.0]),
                         Some(Sides([B.Level(0.5, 100.0)], [B.Level(0.505, 1000.0)])), None, 0.0,
                         0.502, 0.0, 0.0, Position(200.0, 0.4), Position(0.0, 0.0), QUIET, 1.0, None, 0, [])

  lemma WalledIsValid()
    ensures WALLED.meta.Valid()
  {
    assert 0.005 / 0.001 == 5.0 && 1.0 / 0.001 == 1000.0;
  }

  lemma WalledShift()
    ensures AdjustForWall(WALLED.yesBook.value.asks, SELL, 0.505, 0.005, 100.0, []) == 0.5
    ensures AdjustForWall(WALLED.yesBook.value.asks, SELL, 0.508, 0.005, 100.0, []) == 0.498
  {
    assert 0.5 / MICRO == 500000.0 && 0.498 / MICRO == 498000.0;
    var ls := WALLED.yesBook.value.asks;
    assert SizeNear(ls, 0.5, 0.005) == 0.0 && SizeNear(ls, 0.505, 0.005) == 1000.0 && SizeNear(ls, 0.503, 0.005) == 1000.0;
  }

  lemma WalledOffer()
    ensures var o := OfferOf(WALLED);
      && o.count == 2 && o.Guarded(0) == Some(0.505) && o.Guarded(1) == Some(0.508) && o.Size() == 100.0
      && o.Final(0.505) == 0.5 && o.Final(0.508) == 0.498
  {
    WalledShift();
    hide AdjustForWall;
    assert 200.0 * 100.0 / 2.0 == 10000.0;
  }

  /** Two SELLs are quoted, one on the best bid and one below it. */
  lemma SellsCanCross()
    ensures WALLED.meta.Valid() && TouchBid(WALLED) == Some(0.5)
    ensures OneWayQuotes(WALLED) == Quoted([Quote("y", SELL, 0.5, 100.0), Quote("y", SELL, 0.498, 100.0)])
  {
    WalledIsValid();
    WalledOffer();
    WalledPrints();
    WalledBuysNothing();
    hide Offer.Guarded, Offer.Final, Offer.Size, Grid.Round, Grid.Valid, Utilization;
    var o, g := OfferOf(WALLED), WALLED.meta.grid;
    assert o.QuotesFrom("y", g, 2) == [];
    assert o.QuotesFrom("y", g, 1) == [Quote("y", SELL, 0.498, 100.0)];
    assert o.QuotesFrom("y", g, 0) == [Quote("y", SELL, 0.5, 100.0), Quote("y", SELL, 0.498, 100.0)];
    hide Offer.QuotesFrom;
    assert Sells(WALLED) == [Quote("y", SELL, 0.5, 100.0), Quote("y", SELL, 0.498, 100.0)];
  }

  lemma WalledPrints()
    ensures RoundTo(0.5, 0.001) == 0.5 && RoundTo(0.498, 0.001) == 0.498
  {
    RoundExact(500, 0.001);
    RoundExact(498, 0.001);
  }

  lemma WalledBuysNothing()
    requires WALLED.meta.Valid()
    ensures !CanBuy(WALLED, Utilization(WALLED))
  {
    hide Grid.Valid;
    MulMono(0.0, 1000.0, 0.502);
    assert 1000.0 / 0.502 > 0.0;
    MulMono(0.0, 200.0, 1000.0 / 0.502);
  }
}
