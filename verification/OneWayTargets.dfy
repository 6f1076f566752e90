/** Exactly which quotes the one-way accumulator wants (src/polymaker/strategy/one_way.py), layer by layer, in the terms of
    its inputs. */
module OneWayTargets {
  import opened Numerics
  import opened Domain
  import opened Dict
  import opened Ticks
  import opened OneWay
  import V = OneWaySafety
  import B = OrderBook
  import Q = Quoting

  // ── Fair value and inventory ─────────────────────────────────────────

  /** DECAY: on the way from the start date to the end date fair value falls in proportion to the time left. */
  lemma FairIsProportional(p: Profile, today: real)
    ensures p.fvEnd.On? && p.fvStart.On? && p.fvStart.day <= today < p.fvEnd.day ==>
              Times(FairToday(p, today), p.fvEnd.day - p.fvStart.day) == Times(p.fvInitial, p.fvEnd.day - today)
    ensures p.fvEnd.On? && today >= p.fvEnd.day ==> FairToday(p, today) == 0.0
    ensures (!p.fvEnd.On? || (today < p.fvEnd.day && (!p.fvStart.On? || today < p.fvStart.day || p.fvEnd.day <= p.fvStart.day)))
            ==> FairToday(p, today) == p.fvInitial
  {
    if p.fvEnd.On? && p.fvStart.On? && p.fvStart.day <= today < p.fvEnd.day {
      MulDiv(p.fvInitial * (p.fvEnd.day - today), p.fvEnd.day - p.fvStart.day);
    }
  }

  /** The holding of the traded side at fair value, against a fraction of the most that may be held. */
  lemma UtilizationReaches(inp: Inputs, share: real)
    requires inp.meta.Valid() && inp.profile.qMaxUsdc > 0.0
    ensures Utilization(inp) >= share <==>
            Times((if inp.profile.owYes then inp.posYes else inp.posNo).size, Max(inp.fv, inp.meta.grid.tick))
              >= Times(share, inp.profile.qMaxUsdc)
  {
    ShareOfMost(PosOf(inp).size, inp.profile.qMaxUsdc, Max(inp.fv, inp.meta.grid.tick), share);
  }

  lemma ShareOfMost(held: real, most: real, price: real, share: real)
    requires most > 0.0 && price > 0.0
    ensures most / price > 0.0
    ensures held / (most / price) >= share <==> Times(held, price) >= Times(share, most)
  {
    MulMono(0.0, most, price);
    var cap := most / price;
    MulDiv(most, price);
    MulDiv(held, cap);
    var u := held / cap;
    assert u * most == u * (cap * price) == (u * cap) * price == held * price;
    MulMono(share, u, most);
  }

  // ── Buys ─────────────────────────────────────────────────────────────

  /** PYRAMID: layer `i` is a whole number of gaps below fair value, unless that is not below the layer before; then it is
      just `i` ticks below the first. */
  lemma {:induction false} PriceIs(p: Pyramid, i: nat)
    requires p.tick > 0.0 && p.gap >= 1
    ensures i > 0 ==> p.Price(i) == if Below(p, i) < p.first - Copies(i - 1, p.tick) then Below(p, i) else p.first - Copies(i, p.tick)
    ensures i == 0 ==> p.Price(i) == p.first
  {
    hide Copies;
    if i > 0 {
      PriceIs(p, i - 1);
      OneMore(i - 1, p.tick);
      BelowIs(p, i);
      if i > 1 {
        OneMore(i - 2, p.tick);
        BelowFalls(p, i);
      } else {
        NoTicks(p.tick);
      }
    }
  }

  lemma NoTicks(tick: real)
    ensures Copies(0, tick) == 0.0
  {
  }

  /** `i` gaps below fair value. */
  function Below(p: Pyramid, i: nat): real { p.fair - Copies(i, Times(p.gap as real, p.tick)) }

  lemma BelowIs(p: Pyramid, i: nat)
    ensures p.fair - Distance(i, p.gap, p.tick) == Below(p, i)
  {
    assert i as real * p.gap as real * p.tick == i as real * (p.gap as real * p.tick);
  }

  lemma BelowFalls(p: Pyramid, i: nat)
    requires i > 0 && p.gap >= 1 && p.tick > 0.0
    ensures Below(p, i) <= Below(p, i - 1) - p.tick
  {
    hide Copies, Times;
    AtLeastATick(p.gap as real, p.tick);
    OneMore(i - 1, Times(p.gap as real, p.tick));
  }

  lemma AtLeastATick(gap: real, tick: real)
    requires gap >= 1.0 && tick > 0.0
    ensures Times(gap, tick) >= tick
  {
    MulNonNegative(gap - 1.0, tick);
  }

  // ── The inputs of both ladders ───────────────────────────────────────

  function Traded(inp: Inputs): (r: (string, Option<Sides>, Position)) {
    if inp.profile.owYes then (inp.meta.yes, inp.yesBook, inp.posYes) else (inp.meta.no, inp.noBook, inp.posNo)
  }

  /** The highest bid and the lowest ask of the traded side. */
  function Touches(inp: Inputs): (Option<real>, Option<real>) {
    match Traded(inp).1
    case None => (None, None)
    case Some(sides) => (if sides.bids == [] then None else Some(sides.bids[|sides.bids| - 1].price),
                         if sides.asks == [] then None else Some(sides.asks[0].price))
  }

  /** Distance of two layers, in price: five ticks in a wild market, three in a moving one, else one. */
  function Step(inp: Inputs): real {
    Times(if inp.volShort > 0.05 then 5.0 else if inp.volShort > 0.02 then 3.0 else 1.0, inp.meta.grid.tick)
  }

  predicate Near(inp: Inputs) {
    inp.hoursToEnd.Some? && inp.hoursToEnd.value <= Times(24.0, inp.profile.exitDaysBefore)
  }

  // ── Buys, layer by layer ─────────────────────────────────────────────

  /** Buying is on: not in a market that stops or only reduces, not near the end, room below the inventory brake, and a book
      with both sides. */
  ghost predicate MayBuy(inp: Inputs)
    requires inp.meta.Valid()
  {
    && inp.regime in {QUIET, TRENDING} && !Near(inp) && Utilization(inp) < inp.profile.invMid
    && Touches(inp).0.Some? && Touches(inp).1.Some?
  }

  /** One layer fewer in a rising market, but at least one. */
  function BuyCount(inp: Inputs): int {
    if inp.trendStreak < 3 then inp.profile.buyLayers
    else if inp.profile.buyLayers - 1 >= 1 then inp.profile.buyLayers - 1 else 1
  }

  function Least(x: real, y: real): real { if x <= y then x else y }

  /** Price of buy layer `i`: the first joins the bid at most, below fair value and a fifth; the others are steps below fair
      value, or ticks below the first where that is not lower. */
  ghost function BuyPrice(inp: Inputs, i: nat): real
    requires Touches(inp).0.Some?
  {
    var (fair, tick) := (FairToday(inp.profile, inp.today), inp.meta.grid.tick);
    var first := Least(Least(inp.fv, fair * 1.2), Touches(inp).0.value);
    var below := fair - Copies(i, Step(inp));
    if i == 0 then first else if below < first - Copies(i - 1, tick) then below else first - Copies(i, tick)
  }

  /** Money of buy layer `i`: its weight, or the last one, of the base size; half of that above the lower brake; and what the
      risk manager grants of it. */
  ghost function BuyMoney(inp: Inputs, i: nat): real
    requires inp.meta.Valid() && inp.profile.shares != []
  {
    var p := inp.profile;
    var weight := p.shares[if i < |p.shares| then i else |p.shares| - 1];
    var granted := if inp.riskSizeScale < 0.0 then 0.0 else if inp.riskSizeScale > 1.0 then 1.0 else inp.riskSizeScale;
    Times(Times(p.baseSizeUsdc, weight), Times(if Utilization(inp) < p.invLow then 1.0 else 0.5, granted))
  }

  ghost predicate IsBuy(inp: Inputs, i: nat, q: Quote)
    requires inp.meta.Valid() && Touches(inp).0.Some?
  {
    && inp.profile.shares != []
    && var (price, tick) := (BuyPrice(inp, i), inp.meta.grid.tick);
    && price > 0.0 && q.side == BUY && q.tokenId == Traded(inp).0 && q.price == inp.meta.grid.Round(price)
    && q.size == (BuyMoney(inp, i) / (if price >= tick then price else tick) * 100.0).Floor as real / 100.0
    && q.size >= inp.meta.minOrderSize
  }

  lemma {:induction false} LayersAre(p: Pyramid, n: nat, l: Layer)
    requires p.weights != [] && p.tick > 0.0
    ensures l in p.Layers(n) <==>
            exists i :: 0 <= i < n && l == Layer(p.Price(i), p.Shares(i)) && p.Price(i) > 0.0 && p.Shares(i) >= p.minOrderSize
  {
    hide Pyramid.Shares, Pyramid.Price;
    if n > 0 {
      LayersAre(p, n - 1, l);
    }
  }

  lemma {:induction false} BuyQuotesAre(token: string, g: Grid, layers: seq<Layer>, q: Quote)
    requires g.unit > 0.0
    ensures q in BuyQuotes(token, g, layers) <==>
            exists l :: l in layers && q == Quote(token, BUY, g.Round(l.price), l.shares)
  {
    hide Grid.Round;
    if layers != [] {
      var n := |layers| - 1;
      assert layers == layers[..n] + [layers[n]];
      BuyQuotesAre(token, g, layers[..n], q);
    }
  }

  lemma GapStep(inp: Inputs)
    ensures Gap(inp.volShort) >= 1 && Step(inp) == Times(Gap(inp.volShort) as real, inp.meta.grid.tick)
  {
  }

  lemma TouchesAre(inp: Inputs)
    ensures Touches(inp) == (TouchBid(inp), TouchAsk(inp)) && Traded(inp) == (TokenOf(inp), BookOf(inp), PosOf(inp))
  {
  }

  lemma PyramidIs(inp: Inputs, util: real)
    requires TouchBid(inp).Some?
    ensures var (p, fair) := (PyramidOf(inp, util), FairToday(inp.profile, inp.today));
      && p.fair == fair && p.tick == inp.meta.grid.tick && p.gap == Gap(inp.volShort)
      && p.first == Least(Least(inp.fv, fair * 1.2), TouchBid(inp).value)
      && p.weights == inp.profile.shares && p.minOrderSize == inp.meta.minOrderSize
  {
    hide FairToday, Gap, TouchBid;
  }

  lemma PyramidPrice(inp: Inputs, util: real, i: nat)
    requires inp.meta.Valid() && TouchBid(inp).Some?
    ensures Touches(inp).0.Some? && PyramidOf(inp, util).Price(i) == BuyPrice(inp, i)
  {
    hide FairToday, Gap, Copies, Times, Step, PyramidOf, TouchBid, TouchAsk, Touches, Least, Pyramid.Price, Traded;
    TouchesAre(inp);
    PyramidIs(inp, util);
    GapStep(inp);
    PriceIs(PyramidOf(inp, util), i);
  }

  lemma PyramidMoney(inp: Inputs, i: nat)
    requires inp.meta.Valid() && TouchBid(inp).Some? && inp.profile.shares != []
    ensures PyramidOf(inp, Utilization(inp)).Budget(i) == BuyMoney(inp, i)
  {
    hide FairToday, Gap, Utilization;
  }

  lemma PyramidShares(inp: Inputs, i: nat)
    requires inp.meta.Valid() && TouchBid(inp).Some? && inp.profile.shares != []
    ensures var price := BuyPrice(inp, i);
      PyramidOf(inp, Utilization(inp)).Shares(i) ==
      (BuyMoney(inp, i) / (if price >= inp.meta.grid.tick then price else inp.meta.grid.tick) * 100.0).Floor as real / 100.0
  {
    hide Pyramid.Price, Pyramid.Budget, BuyMoney, BuyPrice, FairToday, Gap, Utilization;
    PyramidPrice(inp, Utilization(inp), i);
    PyramidMoney(inp, i);
  }

  lemma MayBuyIs(inp: Inputs)
    requires inp.meta.Valid()
    ensures MayBuy(inp) <==> inp.regime !in {EVENT, HALTED} && CanBuy(inp, Utilization(inp))
    ensures Near(inp) <==> NearEnd(inp)
  {
    hide Utilization, TouchBid, TouchAsk, Touches;
    TouchesAre(inp);
  }

  lemma CountIs(inp: Inputs)
    ensures BuyCount(inp) == EffectiveBuyLayers(inp)
  {
  }

  lemma LayerIsBuy(inp: Inputs, i: nat, q: Quote)
    requires inp.meta.Valid() && TouchBid(inp).Some? && inp.profile.shares != []
    ensures Touches(inp).0.Some?
    ensures var p := PyramidOf(inp, Utilization(inp));
      IsBuy(inp, i, q) <==>
        p.Price(i) > 0.0 && p.Shares(i) >= inp.meta.minOrderSize
        && q == Quote(TokenOf(inp), BUY, inp.meta.grid.Round(p.Price(i)), p.Shares(i))
  {
    hide PyramidOf, Pyramid.Price, Pyramid.Shares, BuyPrice, BuyMoney, Utilization, TouchBid, TouchAsk, Touches, Grid.Round;
    TouchesAre(inp);
    PyramidPrice(inp, Utilization(inp), i);
    PyramidShares(inp, i);
  }

  /** The buy ladder, as the loop leaves it. */
  lemma LadderIs(inp: Inputs, q: Quote)
    requires inp.meta.Valid() && TouchBid(inp).Some? && inp.profile.shares != []
    ensures Touches(inp).0.Some?
    ensures var n := if EffectiveBuyLayers(inp) >= 0 then EffectiveBuyLayers(inp) else 0;
      q in BuyQuotes(TokenOf(inp), inp.meta.grid, PyramidOf(inp, Utilization(inp)).Layers(n)) <==>
      exists i: nat :: i < n && IsBuy(inp, i, q)
  {
    hide IsBuy, PyramidOf, Pyramid.Price, Pyramid.Shares, Pyramid.Layers, BuyQuotes, Utilization, TouchBid, TouchAsk, Touches,
         Grid.Round;
    TouchesAre(inp);
    var p := PyramidOf(inp, Utilization(inp));
    assert p.weights == inp.profile.shares && p.tick == inp.meta.grid.tick && p.minOrderSize == inp.meta.minOrderSize by {
      PyramidIs(inp, Utilization(inp));
    }
    var n: nat := if EffectiveBuyLayers(inp) >= 0 then EffectiveBuyLayers(inp) else 0;
    var (token, g, layers) := (TokenOf(inp), inp.meta.grid, p.Layers(n));
    BuyQuotesAre(token, g, layers, q);
    if q in BuyQuotes(token, g, layers) {
      var l :| l in layers && q == Quote(token, BUY, g.Round(l.price), l.shares);
      LayersAre(p, n, l);
      var i :| 0 <= i < n && l == Layer(p.Price(i), p.Shares(i)) && p.Price(i) > 0.0 && p.Shares(i) >= p.minOrderSize;
      LayerIsBuy(inp, i, q);
    }
    if i: nat :| i < n && IsBuy(inp, i, q) {
      LayerIsBuy(inp, i, q);
      LayersAre(p, n, Layer(p.Price(i), p.Shares(i)));
    }
  }

  lemma BuysAreLadder(inp: Inputs, q: Quote)
    requires inp.meta.Valid() && OneWayQuotes(inp).Quoted?
    ensures (q in OneWayQuotes(inp).quotes && q.side == BUY) <==>
            inp.regime !in {EVENT, HALTED} && q in BuyQuotes(TokenOf(inp), inp.meta.grid, BuyLayersOf(inp, Utilization(inp)))
  {
    hide BuyLayersOf, BuyQuotes, Utilization, Sells, Raises;
    SellsSell(inp);
    OnlyBuys(inp);
  }

  lemma LayersIfBuying(inp: Inputs)
    requires inp.meta.Valid()
    ensures var util := Utilization(inp);
      BuyLayersOf(inp, util) ==
      if !CanBuy(inp, util) || inp.profile.shares == [] then []
      else PyramidOf(inp, util).Layers(if BuyCount(inp) >= 0 then BuyCount(inp) else 0)
  {
    hide PyramidOf, Pyramid.Layers, Utilization;
    CountIs(inp);
  }

  /** BUYS: a BUY is quoted exactly if buying is on and it is one of the layers. */
  lemma BuysAre(inp: Inputs, q: Quote)
    requires inp.meta.Valid() && OneWayQuotes(inp).Quoted?
    ensures (q in OneWayQuotes(inp).quotes && q.side == BUY) <==>
            MayBuy(inp) && exists i: nat :: i < BuyCount(inp) && IsBuy(inp, i, q)
  {
    NoLayersNoQuotes(TokenOf(inp), inp.meta.grid);
    hide PyramidOf, Pyramid.Layers, BuyQuotes, BuyLayersOf, Utilization, TouchBid, TouchAsk, Touches, IsBuy, OneWayQuotes, MayBuy, CanBuy,
         Grid.Valid, BuyCount;
    BuysAreLadder(inp, q);
    LayersIfBuying(inp);
    MayBuyIs(inp);
    if MayBuy(inp) {
      BuyingHasTouches(inp);
      if inp.profile.shares != [] {
        LadderOfCount(inp, q);
      } else {
        NoWeights(inp);
      }
    }
  }

  lemma LadderOfCount(inp: Inputs, q: Quote)
    requires inp.meta.Valid() && TouchBid(inp).Some? && inp.profile.shares != []
    ensures Touches(inp).0.Some?
    ensures q in BuyQuotes(TokenOf(inp), inp.meta.grid,
                           PyramidOf(inp, Utilization(inp)).Layers(if BuyCount(inp) >= 0 then BuyCount(inp) else 0)) <==>
            exists i: nat :: i < BuyCount(inp) && IsBuy(inp, i, q)
  {
    hide PyramidOf, Pyramid.Layers, BuyQuotes, Utilization, TouchBid, Touches, IsBuy, Grid.Valid;
    CountIs(inp);
    LadderIs(inp, q);
  }

  lemma NoLayersNoQuotes(token: string, g: Grid)
    requires g.unit > 0.0
    ensures BuyQuotes(token, g, []) == []
  {
  }

  lemma BuyingHasTouches(inp: Inputs)
    requires inp.meta.Valid() && MayBuy(inp)
    ensures TouchBid(inp).Some? && TouchAsk(inp).Some? && CanBuy(inp, Utilization(inp)) && inp.regime !in {EVENT, HALTED}
    ensures Touches(inp).0.Some?
  {
    hide Utilization, TouchBid, TouchAsk, Touches;
    TouchesAre(inp);
  }

  lemma NoWeights(inp: Inputs)
    requires inp.meta.Valid() && inp.profile.shares == [] && Touches(inp).0.Some?
    ensures forall i: nat, q :: !IsBuy(inp, i, q)
  {
  }

  lemma SellsSell(inp: Inputs)
    requires inp.meta.Valid()
    ensures forall q :: q in Sells(inp) ==> q.side == SELL
  {
    hide Offer.QuotesFrom;
    V.OffersAreSells(OfferOf(inp), TokenOf(inp), inp.meta.grid, 0);
  }

  lemma OnlyBuys(inp: Inputs)
    requires inp.meta.Valid()
    ensures forall q :: q in BuyQuotes(TokenOf(inp), inp.meta.grid, BuyLayersOf(inp, Utilization(inp))) ==> q.side == BUY
  {
    hide BuyQuotes, BuyLayersOf, Utilization, Grid.Round;
    forall q | q in BuyQuotes(TokenOf(inp), inp.meta.grid, BuyLayersOf(inp, Utilization(inp)))
      ensures q.side == BUY
    {
      V.BuyQuoteMembers(TokenOf(inp), inp.meta.grid, BuyLayersOf(inp, Utilization(inp)), q);
    }
  }

  /** EXCEPTION: raised exactly if buying is on, a layer is due at a positive price, and there is no weight at all. */
  lemma RaisesExactly(inp: Inputs)
    requires inp.meta.Valid()
    ensures OneWayQuotes(inp).IndexError? <==>
            MayBuy(inp) && BuyCount(inp) >= 1 && BuyPrice(inp, 0) > 0.0 && inp.profile.shares == []
  {
    hide PyramidOf, BuyLayersOf, BuyQuotes, Sells, Utilization, TouchBid, TouchAsk, Touches, MayBuy, CanBuy, BuyPrice, FairToday;
    MayBuyIs(inp);
    CountIs(inp);
    if MayBuy(inp) {
      BuyingHasTouches(inp);
      FirstPrice(inp);
    }
  }

  lemma FirstPrice(inp: Inputs)
    requires inp.meta.Valid() && TouchBid(inp).Some?
    ensures Touches(inp).0.Some? && PyramidOf(inp, Utilization(inp)).first == BuyPrice(inp, 0)
  {
    hide FairToday, Utilization, Gap, BuyPrice, Touches, TouchBid;
    PyramidPrice(inp, Utilization(inp), 0);
  }

  // ── Sells, layer by layer ────────────────────────────────────────────

  /** In how many layers to sell: none in a panic; one, to get out, when the holding cost more than it is worth, the ask is
      not above that, and the end is not near; else as many as configured. */
  ghost function SellCount(inp: Inputs): int {
    var (fair, ask) := (FairToday(inp.profile, inp.today), Touches(inp).1);
    if inp.toxicity >= inp.profile.panicToxicity then 0
    else if Traded(inp).2.avgPrice > fair && (ask.None? || ask.value <= fair) && !Near(inp) then 1
    else inp.profile.sellLayers
  }

  /** Where sell layer `k` aims: the first at the ask, or above it where even a fifth below fair value is; the others whole
      steps above fair value. None if the first has no ask to join. */
  ghost function SellAim(inp: Inputs, k: nat): Option<real> {
    var (fair, ask) := (FairToday(inp.profile, inp.today), Touches(inp).1);
    var above := fair + Copies(k, Step(inp));
    if k > 0 then Some(if above <= 0.0 then Step(inp) else above)
    else if ask.None? then None
    else
      var cheap := Least(inp.fv, fair * 0.8);
      Some(if ask.value > fair && cheap > ask.value then cheap else ask.value)
  }

  /** The aim, kept a tick above the best bid. */
  ghost function SellTarget(inp: Inputs, k: nat): real
    requires SellAim(inp, k).Some?
  {
    var (aim, bid) := (SellAim(inp, k).value, Touches(inp).0);
    if bid.Some? && bid.value + inp.meta.grid.tick > aim then bid.value + inp.meta.grid.tick else aim
  }

  /** Shares of each of `n` equal layers, in whole hundredths. */
  function SellSize(inp: Inputs, n: int): real
    requires n > 0
  {
    (Traded(inp).2.size * 100.0 / n as real).Floor as real / 100.0
  }

  lemma SellCountIs(inp: Inputs)
    ensures SellCount(inp) == OfferOf(inp).count
  {
    hide FairToday, TouchBid, TouchAsk, Touches, Gap;
    TouchesAre(inp);
  }

  lemma AimIs(inp: Inputs, k: nat)
    ensures OfferOf(inp).Raw(k) == SellAim(inp, k)
  {
    hide FairToday, TouchBid, TouchAsk, Touches, Gap, Copies, Times, Step, Traded;
    TouchesAre(inp);
    GapStep(inp);
    DistanceIs(k, Gap(inp.volShort), inp.meta.grid.tick);
    DistanceIs(1, Gap(inp.volShort), inp.meta.grid.tick);
    OneStep(Times(Gap(inp.volShort) as real, inp.meta.grid.tick));
  }

  lemma DistanceIs(k: nat, gap: int, tick: real)
    ensures Distance(k, gap, tick) == Copies(k, Times(gap as real, tick))
  {
    assert k as real * gap as real * tick == k as real * (gap as real * tick);
  }

  lemma OneStep(step: real)
    ensures Copies(1, step) == step
  {
  }

  lemma TargetIs(inp: Inputs, k: nat)
    ensures OfferOf(inp).Guarded(k) == if SellAim(inp, k).None? || SellAim(inp, k).value >= 1.0 then None else Some(SellTarget(inp, k))
  {
    hide FairToday, TouchBid, TouchAsk, Touches, Gap, SellAim, Offer.Raw;
    TouchesAre(inp);
    AimIs(inp, k);
  }

  /** The ladder has not ended at any layer from `i` to `k`. */
  ghost predicate Reaches(o: Offer, i: nat, k: nat) {
    forall j :: i <= j <= k ==> o.Guarded(j).Some?
  }

  ghost predicate IsOffer(o: Offer, token: string, g: Grid, k: nat, q: Quote)
    requires g.unit > 0.0 && o.count > 0
  {
    && o.Guarded(k).Some? && o.Size() >= o.minOrderSize
    && q == Quote(token, SELL, g.Round(o.Final(o.Guarded(k).value)), o.Size())
  }

  lemma {:induction false} OffersAre(o: Offer, token: string, g: Grid, i: nat, q: Quote)
    requires g.unit > 0.0 && o.count > 0
    ensures q in o.QuotesFrom(token, g, i) <==> exists k: nat :: i <= k < o.count && Reaches(o, i, k) && IsOffer(o, token, g, k, q)
    decreases o.count - i
  {
    hide Grid.Round, Offer.Guarded, Offer.Final, Offer.Size;
    if i < o.count && o.Guarded(i).Some? {
      OffersAre(o, token, g, i + 1, q);
      assert q in o.QuotesFrom(token, g, i) <==> IsOffer(o, token, g, i, q) || q in o.QuotesFrom(token, g, i + 1);
      hide IsOffer;
      assert Reaches(o, i, i);
      forall k: nat | i + 1 <= k < o.count
        ensures Reaches(o, i, k) <==> Reaches(o, i + 1, k)
      {
      }
    }
  }

  // ── Walls ────────────────────────────────────────────────────────────

  /** Somebody else rests at least half of `size` at the price: none of our prices is within half a tick of it, and the first
      level that is holds that much. */
  ghost predicate Blocked(ls: B.Levels, ours: seq<real>, price: real, tick: real, size: real) {
    && (forall i :: 0 <= i < |ours| ==> Abs(ours[i] - price) >= tick / 2.0)
    && (size <= 0.0 ||
        exists k :: 0 <= k < |ls| && Abs(ls[k].price - price) < tick / 2.0 && ls[k].size >= size / 2.0
                    && forall j :: 0 <= j < k ==> Abs(ls[j].price - price) >= tick / 2.0)
  }

  lemma {:induction false} SizeNearIs(ls: B.Levels, price: real, tick: real)
    ensures
      || (exists k :: 0 <= k < |ls| && Abs(ls[k].price - price) < tick / 2.0 && SizeNear(ls, price, tick) == ls[k].size
                      && forall j :: 0 <= j < k ==> Abs(ls[j].price - price) >= tick / 2.0)
      || ((forall j :: 0 <= j < |ls| ==> Abs(ls[j].price - price) >= tick / 2.0) && SizeNear(ls, price, tick) == 0.0)
  {
    if ls != [] && Abs(ls[0].price - price) >= tick / 2.0 {
      SizeNearIs(ls[1..], price, tick);
      if k :| 0 <= k < |ls| - 1 && Abs(ls[1..][k].price - price) < tick / 2.0 && SizeNear(ls, price, tick) == ls[1..][k].size
              && forall j :: 0 <= j < k ==> Abs(ls[1..][j].price - price) >= tick / 2.0 {
        forall j | 0 <= j < k + 1
          ensures Abs(ls[j].price - price) >= tick / 2.0
        {
          assert j > 0 ==> ls[j] == ls[1..][j - 1];
        }
        assert ls[k + 1] == ls[1..][k];
      } else {
        assert forall j :: 1 <= j < |ls| ==> ls[j] == ls[1..][j - 1];
      }
    }
  }

  lemma BlockedIs(ls: B.Levels, ours: seq<real>, price: real, tick: real, size: real)
    requires forall l :: l in ls ==> l.size >= 0.0
    ensures Blocked(ls, ours, price, tick, size) <==> WallAt(ls, ours, price, tick, size)
  {
    hide SizeNear, Abs;
    SizeNearIs(ls, price, tick);
    assert forall i :: 0 <= i < |ours| ==> ours[i] in ours;
    assert forall k :: 0 <= k < |ls| ==> ls[k] in ls;
  }

  /** Where a sell order ends up: a tick in front of the lowest wall within a tick of its target, printed to six decimals; on
      its target if there is none. */
  ghost function Shifted(inp: Inputs, target: real, size: real): real {
    match Traded(inp).1
    case None => target
    case Some(sides) =>
      var tick := inp.meta.grid.tick;
      if Blocked(sides.asks, inp.ourAsks, target - tick, tick, size) then RoundTo(target - tick - tick, 0.000001)
      else if Blocked(sides.asks, inp.ourAsks, target, tick, size) then RoundTo(target - tick, 0.000001)
      else if Blocked(sides.asks, inp.ourAsks, target + tick, tick, size) then RoundTo(target + tick - tick, 0.000001)
      else target
  }

  ghost predicate SoundAsks(inp: Inputs) {
    Traded(inp).1.Some? ==> forall l :: l in Traded(inp).1.value.asks ==> l.size >= 0.0
  }

  lemma FinalIs(inp: Inputs, target: real)
    requires SoundAsks(inp) && OfferOf(inp).count > 0
    ensures OfferOf(inp).Final(target) == Shifted(inp, target, OfferOf(inp).Size())
  {
    hide FairToday, TouchBid, TouchAsk, Touches, Gap, Blocked, WallAt, RoundTo, SplitSize, SellLayers;
    TouchesAre(inp);
    if BookOf(inp).Some? {
      var (asks, tick, size) := (BookOf(inp).value.asks, inp.meta.grid.tick, OfferOf(inp).Size());
      BlockedIs(asks, inp.ourAsks, target - tick, tick, size);
      BlockedIs(asks, inp.ourAsks, target, tick, size);
      BlockedIs(asks, inp.ourAsks, target + tick, tick, size);
    }
  }

  /** Sell layer `k` of `n`, which quotes `q`. */
  ghost predicate IsSell(inp: Inputs, n: int, k: nat, q: Quote)
    requires inp.meta.Valid() && n > 0
  {
    && (forall j: nat :: j <= k ==> SellAim(inp, j).Some? && SellAim(inp, j).value < 1.0)
    && q.side == SELL && q.tokenId == Traded(inp).0 && q.size == SellSize(inp, n) && q.size >= inp.meta.minOrderSize
    && q.price == inp.meta.grid.Round(Shifted(inp, SellTarget(inp, k), q.size))
  }

  lemma OfferIs(inp: Inputs)
    ensures var o := OfferOf(inp);
      && o.count == SellCount(inp) && o.minOrderSize == inp.meta.minOrderSize
      && (o.count > 0 ==> o.Size() == SellSize(inp, o.count))
  {
    SellCountIs(inp);
    hide FairToday, TouchBid, TouchAsk, Touches, Gap, SellCount, SellLayers;
    TouchesAre(inp);
  }

  lemma OfferIsSell(inp: Inputs, k: nat, q: Quote)
    requires inp.meta.Valid() && SoundAsks(inp) && SellCount(inp) > 0
    ensures var o := OfferOf(inp);
      && o.count == SellCount(inp)
      && (Reaches(o, 0, k) && IsOffer(o, TokenOf(inp), inp.meta.grid, k, q) <==> IsSell(inp, SellCount(inp), k, q))
  {
    hide FairToday, TouchBid, TouchAsk, Touches, Gap, SellCount, SellLayers, SellAim, SellTarget, Shifted, SellSize, Offer.Guarded,
         Offer.Final, Offer.Size, OfferOf, Grid.Round, SoundAsks;
    TouchesAre(inp);
    OfferIs(inp);
    forall j: nat
      ensures OfferOf(inp).Guarded(j).Some? <==> SellAim(inp, j).Some? && SellAim(inp, j).value < 1.0
    {
      TargetIs(inp, j);
    }
    TargetIs(inp, k);
    if SellAim(inp, k).Some? && SellAim(inp, k).value < 1.0 {
      FinalIs(inp, SellTarget(inp, k));
    }
  }

  lemma SellsAreLadder(inp: Inputs, q: Quote)
    requires inp.meta.Valid() && OneWayQuotes(inp).Quoted?
    ensures (q in OneWayQuotes(inp).quotes && q.side == SELL) <==>
            && inp.regime !in {EVENT, HALTED} && PosOf(inp).size >= inp.meta.minOrderSize
            && q in OfferOf(inp).QuotesFrom(TokenOf(inp), inp.meta.grid, 0)
  {
    SellsSell(inp);
    OnlyBuys(inp);
    hide BuyLayersOf, BuyQuotes, Utilization, Raises, Offer.QuotesFrom, OfferOf;
  }

  /** SELLS: a SELL is quoted exactly if the holding reaches the exchange minimum, the market is not stopped, and it is one of
      the layers, none before which has nothing to join or aims at one or above. */
  lemma SellsAre(inp: Inputs, q: Quote)
    requires inp.meta.Valid() && OneWayQuotes(inp).Quoted? && SoundAsks(inp)
    ensures (q in OneWayQuotes(inp).quotes && q.side == SELL) <==>
            && inp.regime !in {EVENT, HALTED} && Traded(inp).2.size >= inp.meta.minOrderSize
            && SellCount(inp) > 0 && exists k: nat :: k < SellCount(inp) && IsSell(inp, SellCount(inp), k, q)
  {
    hide OneWayQuotes, OfferOf, SellCount, IsSell, IsOffer, Reaches, Offer.QuotesFrom, SoundAsks;
    assert inp.meta.grid.unit > 0.0;
    hide Grid.Valid;
    TouchesAre(inp);
    SellsAreLadder(inp, q);
    OfferIs(inp);
    var (o, n) := (OfferOf(inp), SellCount(inp));
    if n > 0 {
      OffersAre(o, TokenOf(inp), inp.meta.grid, 0, q);
      forall k: nat {
        OfferIsSell(inp, k, q);
      }
    } else {
      NoOffers(o, TokenOf(inp), inp.meta.grid);
    }
  }

  lemma NoOffers(o: Offer, token: string, g: Grid)
    requires g.unit > 0.0 && o.count <= 0
    ensures o.QuotesFrom(token, g, 0) == []
  {
  }
}
