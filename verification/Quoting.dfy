/** Two-sided maker quotes (src/polymaker/strategy/quoting.py), in exact arithmetic. */
module Quoting {
  import opened Numerics
  import opened Domain
  import opened Dict
  import opened Ticks

  datatype Meta = Meta(yes: string, no: string, grid: Grid, minOrderSize: real, rewardsMinSize: real, rewardsMaxSpread: real) {
    ghost predicate Valid() { grid.Valid() && yes != no }
  }

  datatype Profile = Profile(qMaxUsdc: real, gamma: real, deltaMinTicks: int, cVol: real, cTox: real, baseSizeUsdc: real,
                             qSoftFrac: real, layers: int, layerStepTicks: int, rewardSizeMult: real, minEdgeTicks: int)

  /** Touch of one outcome's book. */
  datatype View = View(bestBid: Option<real>, bestAsk: Option<real>)

  datatype Inputs = Inputs(meta: Meta, profile: Profile, yesView: View, noView: View, fv: real, volShort: real,
                           toxicity: real, posYes: Position, posNo: Position, regime: Regime, riskSizeScale: real,
                           yesUrgency: real, noUrgency: real) {
    /** What the engine guarantees: toxicity is a maximum with zero. */
    ghost predicate Valid() { meta.Valid() && toxicity >= 0.0 }
  }

  /** Nudge the microprice by bounded signed flow, clamped to [tick, 1 - tick]. */
  function ComputeFairValue(microprice: real, flowZ: real, tick: real, weight: real := 0.5): real {
    Clamp(microprice + weight * flowZ * tick, tick, 1.0 - tick)
  }

  // ── One bid ──────────────────────────────────────────────────────────

  /** The highest price that keeps the minimum edge below fair value. */
  function EdgeCap(fv: real, minEdgeTicks: int, tick: real): real {
    fv - minEdgeTicks as real * tick
  }

  /** The bid before rounding: no higher than the edge allows, joining the touch, below the ask. */
  function BidBeforeRounding(target: real, view: View, tick: real, fv: real, minEdgeTicks: int): real {
    var capped := Min(target, EdgeCap(fv, minEdgeTicks, tick));
    var joined := if view.bestBid.Some? && capped >= view.bestBid.value then view.bestBid.value else capped;
    if view.bestAsk.Some? && joined >= view.bestAsk.value then view.bestAsk.value - tick else joined
  }

  function PlaceBid(target: real, view: View, g: Grid, fv: real, minEdgeTicks: int): Option<real>
    requires g.Valid()
  {
    var p := RoundToTick(BidBeforeRounding(target, view, g.tick, fv, minEdgeTicks), g, false);
    if p <= 0.0 || p >= 1.0 then None else Some(p)
  }

  /** Shares for a notional at a price, before rounding. */
  function RawShares(baseUsdc: real, price: real, scale: real, tick: real): real
    requires tick > 0.0
  {
    (baseUsdc / Max(price, tick)) * Max(scale, 0.0)
  }

  function SizeShares(baseUsdc: real, price: real, scale: real, tick: real): real
    requires tick > 0.0
  {
    var shares := RawShares(baseUsdc, price, scale, tick);
    if shares > 0.0 then RoundTo(shares, 0.01) else 0.0
  }

  // ── Layers ───────────────────────────────────────────────────────────

  /** Size of each order when `total` is split over `layers`. */
  function PerLayer(total: real, layers: int): real
    requires layers >= 1
  {
    RoundTo(total / layers as real, 0.01)
  }

  predicate TooThin(total: real, layers: int, floor: real)
    requires layers >= 1
  {
    floor > 0.0 && PerLayer(total, layers) < 0.5 * floor
  }

  /** The largest layer count up to `layers` whose orders reach half the floor, or one. */
  function Consolidate(total: real, layers: int, floor: real): (l: int)
    requires layers >= 1
    ensures 1 <= l <= layers
  {
    if layers > 1 && TooThin(total, layers, floor) then Consolidate(total, layers - 1, floor) else layers
  }

  /** An order within reach of the floor is bumped up to it. */
  function Bumped(per: real, floor: real): real {
    if floor > 0.0 && 0.5 * floor <= per < floor then floor else per
  }

  function Offset(i: nat, stepTicks: int, tick: real): real {
    i as real * stepTicks as real * tick
  }

  /** Price of layer `i`, counted from the touch. */
  function LayerPrice(top: real, g: Grid, stepTicks: int, down: bool, i: nat): real
    requires g.Valid()
  {
    var offset := Offset(i, stepTicks, g.tick);
    g.Round(if down then top - offset else top + offset)
  }

  /** `layers` orders of size `per` stepping away from `top`. */
  function Ladder(token: string, side: Side, top: real, g: Grid, stepTicks: int, down: bool, per: real, layers: nat): seq<Quote>
    requires g.Valid()
  {
    if layers == 0 then []
    else
      var price := LayerPrice(top, g, stepTicks, down, layers - 1);
      Ladder(token, side, top, g, stepTicks, down, per, layers - 1) +
      if 0.0 < price < 1.0 then [Quote(token, side, price, per)] else []
  }

  function Layers(token: string, side: Side, top: real, g: Grid, total: real, layers: int, stepTicks: int, down: bool,
                  exchangeMin: real, rewardFloor: real): seq<Quote>
    requires g.Valid()
  {
    if total <= 0.0 then []
    else
      var floor := Max(rewardFloor, exchangeMin);
      var n := Consolidate(total, if layers >= 1 then layers else 1, floor);
      var per := Bumped(PerLayer(total, n), floor);
      if per < exchangeMin || per <= 0.0 then [] else Ladder(token, side, top, g, stepTicks, down, per, n)
  }

  /** The shared list that the helpers append to. */
  class QuoteList {
    var items: seq<Quote>

    constructor ()
      ensures items == []
    {
      items := [];
    }
  }

  method AppendLadder(quotes: QuoteList, token: string, side: Side, top: real, g: Grid, stepTicks: int, down: bool,
                      per: real, layers: nat)
    requires g.Valid()
    modifies quotes
    ensures quotes.items == old(quotes.items) + Ladder(token, side, top, g, stepTicks, down, per, layers)
  {
    for i := 0 to layers
      invariant quotes.items == old(quotes.items) + Ladder(token, side, top, g, stepTicks, down, per, i)
    {
      var price := LayerPrice(top, g, stepTicks, down, i);
      if 0.0 < price < 1.0 {
        quotes.items := quotes.items + [Quote(token, side, price, per)];
      }
    }
  }

  method AddLayers(quotes: QuoteList, token: string, side: Side, top: real, g: Grid, total: real, layers: int,
                   stepTicks: int, down: bool, exchangeMin: real, rewardFloor: real)
    requires g.Valid()
    modifies quotes
    ensures quotes.items == old(quotes.items) +
              Layers(token, side, top, g, total, layers, stepTicks, down, exchangeMin, rewardFloor)
  {
    if total <= 0.0 {
      return;
    }
    var n := if layers >= 1 then layers else 1;
    var floor := Max(rewardFloor, exchangeMin);
    ghost var start := n;
    var per := PerLayer(total, n);
    while n > 1 && floor > 0.0 && per < 0.5 * floor
      invariant 1 <= n && per == PerLayer(total, n)
      invariant Consolidate(total, n, floor) == Consolidate(total, start, floor)
    {
      n := n - 1;
      per := PerLayer(total, n);
    }
    if floor > 0.0 && 0.5 * floor <= per < floor {
      per := floor;
    }
    if per < exchangeMin || per <= 0.0 {
      return;
    }
    AppendLadder(quotes, token, side, top, g, stepTicks, down, per, n);
  }

  // ── Exits ────────────────────────────────────────────────────────────

  /** Whole hundredths of a share. */
  function FloorShares(size: real): real {
    (size * 100.0).Floor as real / 100.0
  }

  /** The ask before rounding: fair value plus spread, walked toward the touch, never through the bid. */
  function AskBeforeRounding(fv: real, delta: real, view: View, tick: real, urgency: real, regime: Regime): real {
    var passive := fv + delta;
    var floor := if view.bestBid.Some? then view.bestBid.value + tick else passive;
    var u := if regime == REDUCE_ONLY then Max(urgency, 0.5) else urgency;
    var target := passive * (1.0 - u) + floor * u;
    if view.bestBid.Some? then Max(target, view.bestBid.value + tick) else target
  }

  function Exit(token: string, pos: Position, fv: real, delta: real, view: View, g: Grid, urgency: real,
                minOrderSize: real, regime: Regime): seq<Quote>
    requires g.Valid()
  {
    if pos.size < minOrderSize then []
    else
      var price := RoundToTick(AskBeforeRounding(fv, delta, view, g.tick, urgency, regime), g, true);
      var size := FloorShares(pos.size);
      if 0.0 < price < 1.0 && size >= minOrderSize then [Quote(token, SELL, price, size)] else []
  }

  method MaybeExit(quotes: QuoteList, token: string, pos: Position, fv: real, delta: real, view: View, g: Grid,
                   urgency: real, minOrderSize: real, regime: Regime)
    requires g.Valid()
    modifies quotes
    ensures quotes.items == old(quotes.items) + Exit(token, pos, fv, delta, view, g, urgency, minOrderSize, regime)
  {
    if pos.size < minOrderSize {
      return;
    }
    var price := RoundToTick(AskBeforeRounding(fv, delta, view, g.tick, urgency, regime), g, true);
    var size := FloorShares(pos.size);
    if 0.0 < price < 1.0 && size >= minOrderSize {
      quotes.items := quotes.items + [Quote(token, SELL, price, size)];
    }
  }

  // ── The whole quote set ──────────────────────────────────────────────

  /** Inventory in YES terms over its cap, in [-1, 1]. */
  function Utilization(inp: Inputs): real
    requires inp.Valid()
  {
    var cap := inp.profile.qMaxUsdc / Max(inp.fv, inp.meta.grid.tick);
    if cap > 0.0 then Clamp((inp.posYes.size - inp.posNo.size) / cap, -1.0, 1.0) else 0.0
  }

  function BaseSpread(inp: Inputs): real { inp.profile.deltaMinTicks as real * inp.meta.grid.tick }

  function RawSpread(inp: Inputs): real {
    BaseSpread(inp) + inp.profile.cVol * inp.volShort + inp.profile.cTox * inp.toxicity
  }

  /** The spread that still earns rewards. */
  function RewardBand(inp: Inputs): real { inp.meta.rewardsMaxSpread / 100.0 }

  function HalfSpread(inp: Inputs): real
    requires inp.Valid()
  {
    var base, delta, band := BaseSpread(inp), RawSpread(inp), RewardBand(inp);
    var clamped := if inp.regime == QUIET && band > 0.0 then Clamp(delta, base, Max(base, band)) else delta;
    Max(clamped, inp.meta.grid.tick)
  }

  function RegimeScale(inp: Inputs): real { if inp.regime == TRENDING then 0.5 else 1.0 }

  function ToxicityScale(toxicity: real): real
    requires toxicity >= 0.0
  {
    1.0 / (1.0 + toxicity * 10.0)
  }

  function CommonScale(inp: Inputs): real
    requires inp.Valid()
  {
    RegimeScale(inp) * ToxicityScale(inp.toxicity) * Clamp(inp.riskSizeScale, 0.0, 1.0)
  }

  /** The scale of an entry: the common one, less on the side that is already long. */
  function EntryScale(inp: Inputs, u: real): real
    requires inp.Valid()
  {
    CommonScale(inp) * (1.0 - Max(u, 0.0))
  }

  /** Shares to bid for at `price`, by notional and scaled down with `u`. */
  function EntrySize(inp: Inputs, price: real, u: real): real
    requires inp.Valid()
  {
    SizeShares(inp.profile.baseSizeUsdc, price, EntryScale(inp, u), inp.meta.grid.tick)
  }

  /** A bid to be layered, if one is made at all. */
  datatype Entry = NoEntry | Entry(price: real, total: real)

  /** Whether and how much to bid on an outcome; `u` is that outcome's own utilization. */
  function EntryAt(inp: Inputs, bid: Option<real>, u: real): Entry
    requires inp.Valid()
  {
    if inp.regime == REDUCE_ONLY || u >= inp.profile.qSoftFrac || bid.None? then NoEntry
    else Entry(bid.value, EntrySize(inp, bid.value, u))
  }

  /** The reward minimum with the profile's margin. */
  function RewardFloor(inp: Inputs): real {
    inp.meta.rewardsMinSize * inp.profile.rewardSizeMult
  }

  /** The entry orders on one outcome. */
  function Entries(inp: Inputs, token: string, e: Entry): seq<Quote>
    requires inp.Valid()
  {
    var m, p := inp.meta, inp.profile;
    if e.NoEntry? then []
    else Layers(token, BUY, e.price, m.grid, e.total, p.layers, p.layerStepTicks, true,
                m.minOrderSize, RewardFloor(inp))
  }

  method AddEntries(list: QuoteList, inp: Inputs, token: string, e: Entry)
    requires inp.Valid()
    modifies list
    ensures list.items == old(list.items) + Entries(inp, token, e)
  {
    var m, p := inp.meta, inp.profile;
    if e.Entry? {
      AddLayers(list, token, BUY, e.price, m.grid, e.total, p.layers, p.layerStepTicks, true,
                m.minOrderSize, RewardFloor(inp));
    }
  }

  function YesBid(inp: Inputs): Option<real>
    requires inp.Valid()
  {
    PlaceBid(Reservation(inp) - HalfSpread(inp), inp.yesView, inp.meta.grid, inp.fv, inp.profile.minEdgeTicks)
  }

  function NoBid(inp: Inputs): Option<real>
    requires inp.Valid()
  {
    PlaceBid((1.0 - Reservation(inp)) - HalfSpread(inp), inp.noView, inp.meta.grid, 1.0 - inp.fv, inp.profile.minEdgeTicks)
  }

  /** Fair value leaned against the inventory. */
  function Reservation(inp: Inputs): real
    requires inp.Valid()
  {
    inp.fv - inp.profile.gamma * inp.volShort * Utilization(inp)
  }

  function YesExit(inp: Inputs): seq<Quote>
    requires inp.Valid()
  {
    Exit(inp.meta.yes, inp.posYes, inp.fv, HalfSpread(inp), inp.yesView, inp.meta.grid, inp.yesUrgency,
         inp.meta.minOrderSize, inp.regime)
  }

  function NoExit(inp: Inputs): seq<Quote>
    requires inp.Valid()
  {
    Exit(inp.meta.no, inp.posNo, 1.0 - inp.fv, HalfSpread(inp), inp.noView, inp.meta.grid, inp.noUrgency,
         inp.meta.minOrderSize, inp.regime)
  }

  function MakerQuotes(inp: Inputs): seq<Quote>
    requires inp.Valid()
  {
    var u := Utilization(inp);
    if inp.regime in {EVENT, HALTED} then []
    else
      Entries(inp, inp.meta.yes, EntryAt(inp, YesBid(inp), u)) +
      Entries(inp, inp.meta.no, EntryAt(inp, NoBid(inp), -u)) +
      YesExit(inp) + NoExit(inp)
  }

  method ConstructMakerQuotes(inp: Inputs) returns (quotes: seq<Quote>)
    requires inp.Valid()
    ensures quotes == MakerQuotes(inp)
  {
    var m := inp.meta;
    if inp.regime in {EVENT, HALTED} {
      return [];
    }
    hide Entries, EntryAt, Exit, YesBid, NoBid, Utilization, HalfSpread, Grid.Valid;
    var list := new QuoteList();
    var u, delta := Utilization(inp), HalfSpread(inp);
    AddEntries(list, inp, m.yes, EntryAt(inp, YesBid(inp), u));
    AddEntries(list, inp, m.no, EntryAt(inp, NoBid(inp), -u));
    assert list.items == Entries(inp, m.yes, EntryAt(inp, YesBid(inp), u)) + Entries(inp, m.no, EntryAt(inp, NoBid(inp), -u));
    ghost var entries := list.items;
    MaybeExit(list, m.yes, inp.posYes, inp.fv, delta, inp.yesView, m.grid, inp.yesUrgency, m.minOrderSize, inp.regime);
    MaybeExit(list, m.no, inp.posNo, 1.0 - inp.fv, delta, inp.noView, m.grid, inp.noUrgency, m.minOrderSize, inp.regime);
    assert list.items == entries + YesExit(inp) + NoExit(inp);
    quotes := list.items;
  }
}
