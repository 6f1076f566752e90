/** The online flow estimator (src/polymaker/strategy/estimators.py). The decay of an EWMA is any
    function of elapsed time into [0, 1], such as 0.5 ** (dt / halflife). */
module Estimators {
  import opened Numerics
  import opened Domain
  import opened Dict

  type Decay = f: real -> real | forall dt :: dt >= 0.0 ==> 0.0 <= f(dt) <= 1.0 witness dt => 1.0

  datatype Mean = Mean(value: real, lastTs: real, initialized: bool)

  const FRESH := Mean(0.0, 0.0, false)

  /** Weight left to the past after the time since the last observation. */
  function PastWeight(m: Mean, decay: Decay, ts: real): (d: real)
    ensures 0.0 <= d <= 1.0
  {
    decay(Max(0.0, ts - m.lastTs))
  }

  function Blend(d: real, past: real, value: real): real {
    d * past + (1.0 - d) * value
  }

  /** One observation: the first seeds the mean, later ones share the weight with the decayed past. */
  function Observe(m: Mean, decay: Decay, value: real, ts: real): Mean {
    if !m.initialized then Mean(value, ts, true)
    else Mean(Blend(PastWeight(m, decay, ts), m.value, value), ts, true)
  }

  function Age(m: Mean, decay: Decay, ts: real): Mean {
    if !m.initialized then m else Mean(Blend(PastWeight(m, decay, ts), m.value, 0.0), ts, true)
  }

  class Ewma {
    const decay: Decay
    var value: real
    var lastTs: real
    var initialized: bool

    function View(): Mean
      reads this
    {
      Mean(value, lastTs, initialized)
    }

    constructor (decay: Decay)
      ensures this.decay == decay && View() == FRESH
    {
      this.decay, value, lastTs, initialized := decay, 0.0, 0.0, false;
    }

    method Update(v: real, ts: real)
      modifies this
      ensures View() == Observe(old(View()), decay, v, ts)
    {
      if !initialized {
        value, lastTs, initialized := v, ts, true;
        return;
      }
      value := Blend(PastWeight(View(), decay, ts), value, v);
      lastTs := ts;
    }

    method DecayTo(ts: real)
      modifies this
      ensures View() == Age(old(View()), decay, ts)
    {
      if initialized {
        value := Blend(PastWeight(View(), decay, ts), value, 0.0);
        lastTs := ts;
      }
    }
  }

  // ── Flow: two means fed in lockstep ──────────────────────────────────

  datatype Flow = Flow(signed: Mean, magnitude: Mean)

  datatype Event = Print(aggressor: Side, size: real, ts: real) | Silence(ts: real)

  function After(f: Flow, decay: Decay, e: Event): Flow {
    match e
    case Print(aggressor, size, ts) =>
      Flow(Observe(f.signed, decay, if aggressor == BUY then size else -size, ts),
           Observe(f.magnitude, decay, Abs(size), ts))
    case Silence(ts) => Flow(Age(f.signed, decay, ts), Age(f.magnitude, decay, ts))
  }

  function Run(decay: Decay, es: seq<Event>): Flow {
    if es == [] then Flow(FRESH, FRESH) else After(Run(decay, es[..|es| - 1]), decay, es[|es| - 1])
  }

  function Z(f: Flow): real {
    if f.magnitude.value > EPS then f.signed.value / f.magnitude.value else 0.0
  }

  /** Both means were last touched together, and the signed one is dominated. */
  ghost predicate Dominated(f: Flow) {
    && f.signed.lastTs == f.magnitude.lastTs && f.signed.initialized == f.magnitude.initialized
    && Abs(f.signed.value) <= f.magnitude.value
  }

  lemma BlendDominated(d: real, a: real, m: real, x: real, y: real)
    requires 0.0 <= d <= 1.0 && Abs(a) <= m && Abs(x) <= y
    ensures Abs(Blend(d, a, x)) <= Blend(d, m, y)
  {
    MulNonNegative(d, m - a);
    MulNonNegative(d, m + a);
    MulNonNegative(1.0 - d, y - x);
    MulNonNegative(1.0 - d, y + x);
    assert d * (m - a) == d * m - d * a && d * (m + a) == d * m + d * a;
    assert (1.0 - d) * (y - x) == (1.0 - d) * y - (1.0 - d) * x;
    assert (1.0 - d) * (y + x) == (1.0 - d) * y + (1.0 - d) * x;
  }

  lemma ObserveDominated(f: Flow, decay: Decay, x: real, y: real, ts: real)
    requires Dominated(f) && Abs(x) <= y
    ensures Dominated(Flow(Observe(f.signed, decay, x, ts), Observe(f.magnitude, decay, y, ts)))
  {
    var d := PastWeight(f.signed, decay, ts);
    assert PastWeight(f.magnitude, decay, ts) == d;
    BlendDominated(d, f.signed.value, f.magnitude.value, x, y);
  }

  lemma DominatedStep(f: Flow, decay: Decay, e: Event)
    requires Dominated(f)
    ensures Dominated(After(f, decay, e))
  {
    match e
    case Print(aggressor, size, ts) =>
      ObserveDominated(f, decay, if aggressor == BUY then size else -size, Abs(size), ts);
    case Silence(ts) =>
      ObserveDominated(f, decay, 0.0, 0.0, ts);
  }

  /** BOUNDED FLOW: over any prints and silences with any timestamps, |signed| <= magnitude. */
  lemma {:induction false} AlwaysDominated(decay: Decay, es: seq<Event>)
    ensures Dominated(Run(decay, es))
  {
    if es != [] {
      AlwaysDominated(decay, es[..|es| - 1]);
      DominatedStep(Run(decay, es[..|es| - 1]), decay, es[|es| - 1]);
    }
  }

  /** So the flow score stays within [-1, 1]. */
  lemma ScoreBounded(decay: Decay, es: seq<Event>)
    ensures -1.0 <= Z(Run(decay, es)) <= 1.0
  {
    AlwaysDominated(decay, es);
    DominatedScore(Run(decay, es));
  }

  lemma DominatedScore(f: Flow)
    requires Dominated(f)
    ensures -1.0 <= Z(f) <= 1.0
  {
    RatioBounded(f.signed.value, f.magnitude.value);
  }

  lemma RatioBounded(s: real, m: real)
    requires Abs(s) <= m
    ensures m > EPS ==> -1.0 <= s / m <= 1.0
  {
    if m > EPS {
      var z := s / m;
      MulDiv(s, m);
      assert z * m == s;
      MulMono(z, 1.0, m);
      MulMono(-1.0, z, m);
    }
  }

  // ── What the means are made of ───────────────────────────────────────

  function SumProduct(ws: seq<real>, xs: seq<real>): real
    requires |ws| == |xs|
  {
    if ws == [] then 0.0 else SumProduct(ws[..|ws| - 1], xs[..|ws| - 1]) + Times(ws[|ws| - 1], xs[|ws| - 1])
  }

  function Scaled(d: real, ws: seq<real>): (r: seq<real>)
    ensures |r| == |ws|
  {
    seq(|ws|, i requires 0 <= i < |ws| => Times(d, ws[i]))
  }

  /** When the means were last touched; nothing touches them before the first print. */
  function LastTouch(es: seq<Event>): Option<real> {
    if es == [] then None
    else if es[|es| - 1].Print? || LastTouch(es[..|es| - 1]).Some? then Some(es[|es| - 1].ts) else None
  }

  /** The weight of each event after a run: whatever is left to the past is shared by all earlier prints, the rest goes to
      the new print. It depends on the times alone. */
  function Weights(decay: Decay, es: seq<Event>): (ws: seq<real>)
    ensures |ws| == |es|
  {
    if es == [] then []
    else
      var n := |es| - 1;
      var last := LastTouch(es[..n]);
      var past := if last.Some? then decay(Max(0.0, es[n].ts - last.value)) else 0.0;
      Scaled(past, Weights(decay, es[..n])) + [if es[n].Print? then 1.0 - past else 0.0]
  }

  /** Bought counts up, sold counts down. */
  function SignedSizes(es: seq<Event>): (xs: seq<real>)
    ensures |xs| == |es|
  {
    seq(|es|, i requires 0 <= i < |es| => if es[i].Silence? then 0.0 else if es[i].aggressor == BUY then es[i].size else -es[i].size)
  }

  function Sizes(es: seq<Event>): (xs: seq<real>)
    ensures |xs| == |es|
  {
    seq(|es|, i requires 0 <= i < |es| => if es[i].Silence? then 0.0 else Abs(es[i].size))
  }

  lemma {:induction false} ScaledSum(d: real, ws: seq<real>, xs: seq<real>)
    requires |ws| == |xs|
    ensures SumProduct(Scaled(d, ws), xs) == Times(d, SumProduct(ws, xs))
  {
    if ws == [] {
      assert Times(d, 0.0) == 0.0;
    } else {
      var n := |ws| - 1;
      ScaledSum(d, ws[..n], xs[..n]);
      assert Scaled(d, ws)[..n] == Scaled(d, ws[..n]);
      Associate(d, ws[n], xs[n]);
      TimesAdds(d, SumProduct(ws[..n], xs[..n]), Times(ws[n], xs[n]));
      hide Times;
    }
  }

  lemma Associate(a: real, b: real, c: real)
    ensures Times(Times(a, b), c) == Times(a, Times(b, c))
  {
  }

  lemma SumSnoc(ws: seq<real>, xs: seq<real>, w: real, x: real)
    requires |ws| == |xs|
    ensures SumProduct(ws + [w], xs + [x]) == SumProduct(ws, xs) + Times(w, x)
  {
    hide Times;
    assert (ws + [w])[..|ws|] == ws && (xs + [x])[..|ws|] == xs;
  }

  /** Weight left to the earlier prints by one more event. */
  function Past(decay: Decay, es: seq<Event>, e: Event): real {
    if LastTouch(es).Some? then decay(Max(0.0, e.ts - LastTouch(es).value)) else 0.0
  }

  lemma WeightsSnoc(decay: Decay, es: seq<Event>, xs: seq<real>, e: Event, x: real)
    requires |xs| == |es| && (e.Silence? ==> x == 0.0)
    ensures SumProduct(Weights(decay, es + [e]), xs + [x]) ==
            Times(Past(decay, es, e), SumProduct(Weights(decay, es), xs)) + Times(1.0 - Past(decay, es, e), x)
    ensures LastTouch(es + [e]) == if e.Print? || LastTouch(es).Some? then Some(e.ts) else None
  {
    hide Times, SumProduct, LastTouch;
    var (ws, past) := (Weights(decay, es), Past(decay, es, e));
    var w := if e.Print? then 1.0 - past else 0.0;
    assert LastTouch(es + [e]) == if e.Print? || LastTouch(es).Some? then Some(e.ts) else None by { Touched(es, e); }
    assert (es + [e])[..|es|] == es;
    assert Weights(decay, es + [e]) == Scaled(past, ws) + [w];
    ScaledSum(past, ws, xs);
    SumSnoc(Scaled(past, ws), xs, w, x);
    BlendIs(0.0, 1.0 - past, 0.0);
    BlendIs(1.0 - past, 0.0, 0.0);
    BlendIs(0.0, x, x);
  }

  lemma Touched(es: seq<Event>, e: Event)
    ensures LastTouch(es + [e]) == if e.Print? || LastTouch(es).Some? then Some(e.ts) else None
  {
    assert (es + [e])[..|es|] == es;
  }

  /** A mean is made of the values `xs` of the events, weighted. */
  ghost predicate MadeOf(m: Mean, decay: Decay, es: seq<Event>, xs: seq<real>)
    requires |xs| == |es|
  {
    && m.value == SumProduct(Weights(decay, es), xs)
    && (m.initialized <==> LastTouch(es).Some?)
    && (m.initialized ==> LastTouch(es) == Some(m.lastTs))
  }

  lemma MeanSnoc(m: Mean, decay: Decay, es: seq<Event>, xs: seq<real>, e: Event, x: real)
    requires |xs| == |es| && MadeOf(m, decay, es, xs) && (e.Silence? ==> x == 0.0)
    ensures MadeOf(if e.Print? then Observe(m, decay, x, e.ts) else Age(m, decay, e.ts), decay, es + [e], xs + [x])
  {
    hide Weights, SumProduct, Blend, Times, LastTouch;
    WeightsSnoc(decay, es, xs, e, x);
    if m.initialized {
      BlendIs(PastWeight(m, decay, e.ts), m.value, x);
    } else {
      NothingPrinted(decay, es, xs);
      BlendIs(0.0, 0.0, x);
    }
  }

  lemma BlendIs(d: real, past: real, value: real)
    ensures Blend(d, past, value) == Times(d, past) + Times(1.0 - d, value)
    ensures Times(d, 0.0) == 0.0 && Times(0.0, past) == 0.0 && Times(1.0, past) == past && Times(1.0, value) == value
  {
  }

  lemma {:induction false} NothingPrinted(decay: Decay, es: seq<Event>, xs: seq<real>)
    requires |xs| == |es| && LastTouch(es).None?
    ensures SumProduct(Weights(decay, es), xs) == 0.0
  {
    if es != [] {
      var n := |es| - 1;
      hide Times;
      NothingPrinted(decay, es[..n], xs[..n]);
      BlendIs(0.0, SumProduct(Weights(decay, es[..n]), xs[..n]), 0.0);
      BlendIs(0.0, xs[n], 0.0);
      ScaledSum(0.0, Weights(decay, es[..n]), xs[..n]);
      SumSnoc(Scaled(0.0, Weights(decay, es[..n])), xs[..n], 0.0, xs[n]);
      assert xs[..n] + [xs[n]] == xs;
    }
  }

  lemma SizesSnoc(es: seq<Event>)
    requires es != []
    ensures var (n, e) := (|es| - 1, es[|es| - 1]);
      && es == es[..n] + [e]
      && SignedSizes(es) == SignedSizes(es[..n]) + [if e.Silence? then 0.0 else if e.aggressor == BUY then e.size else -e.size]
      && Sizes(es) == Sizes(es[..n]) + [if e.Silence? then 0.0 else Abs(e.size)]
  {
  }

  lemma {:induction false} BothMadeOf(decay: Decay, es: seq<Event>)
    ensures MadeOf(Run(decay, es).signed, decay, es, SignedSizes(es)) && MadeOf(Run(decay, es).magnitude, decay, es, Sizes(es))
  {
    if es != [] {
      hide MadeOf, Weights, Observe, Age, SignedSizes, Sizes;
      var (n, e) := (|es| - 1, es[|es| - 1]);
      var f := Run(decay, es[..n]);
      BothMadeOf(decay, es[..n]);
      SizesSnoc(es);
      MeanSnoc(f.signed, decay, es[..n], SignedSizes(es[..n]), e, if e.Silence? then 0.0 else if e.aggressor == BUY then e.size else -e.size);
      MeanSnoc(f.magnitude, decay, es[..n], Sizes(es[..n]), e, if e.Silence? then 0.0 else Abs(e.size));
    }
  }

  /** FLOW: after any run both means are the prints weighted by age alone, the one with signs, the other without. */
  lemma FlowIsWeighted(decay: Decay, es: seq<Event>)
    ensures var f := Run(decay, es);
      && f.signed.value == SumProduct(Weights(decay, es), SignedSizes(es))
      && f.magnitude.value == SumProduct(Weights(decay, es), Sizes(es))
  {
    hide Weights, SumProduct, Run;
    BothMadeOf(decay, es);
  }

  /** ONE-SIDED FLOW: prints of one aggressor alone take the score to one for buyers and to minus one for sellers, as soon
      as their mean size exceeds the guard. */
  lemma OneSidedFlow(decay: Decay, es: seq<Event>, side: Side)
    requires forall i :: 0 <= i < |es| && es[i].Print? ==> es[i].aggressor == side && es[i].size >= 0.0
    ensures var z := Z(Run(decay, es));
      if SumProduct(Weights(decay, es), Sizes(es)) > EPS then z == (if side == BUY then 1.0 else -1.0) else z == 0.0
  {
    hide Weights, SumProduct, Run;
    FlowIsWeighted(decay, es);
    var m := SumProduct(Weights(decay, es), Sizes(es));
    if side == BUY {
      assert SignedSizes(es) == Sizes(es);
    } else {
      NegatedSum(Weights(decay, es), Sizes(es), SignedSizes(es));
    }
    if m > EPS {
      MulDiv(1.0, m);
      MulDiv(-1.0, m);
    }
  }

  lemma {:induction false} NegatedSum(ws: seq<real>, xs: seq<real>, ys: seq<real>)
    requires |ws| == |xs| == |ys| && forall i :: 0 <= i < |xs| ==> ys[i] == -xs[i]
    ensures SumProduct(ws, ys) == -SumProduct(ws, xs)
  {
    if ws != [] {
      var n := |ws| - 1;
      NegatedSum(ws[..n], xs[..n], ys[..n]);
      assert Times(ws[n], ys[n]) == -Times(ws[n], xs[n]);
    }
  }

  class FlowEstimator {
    const signed: Ewma
    const magnitude: Ewma

    ghost predicate Valid()
      reads this, signed, magnitude
    {
      signed != magnitude && signed.decay == magnitude.decay && Dominated(View())
    }

    function View(): Flow
      reads signed, magnitude
    {
      Flow(signed.View(), magnitude.View())
    }

    constructor (decay: Decay)
      ensures Valid() && View() == Flow(FRESH, FRESH) && signed.decay == decay
      ensures fresh(signed) && fresh(magnitude)
    {
      signed := new Ewma(decay);
      magnitude := new Ewma(decay);
    }

    method Update(aggressor: Side, size: real, ts: real)
      requires Valid()
      modifies signed, magnitude
      ensures Valid() && View() == After(old(View()), signed.decay, Print(aggressor, size, ts))
    {
      DominatedStep(View(), signed.decay, Print(aggressor, size, ts));
      signed.Update(if aggressor == BUY then size else -size, ts);
      magnitude.Update(Abs(size), ts);
    }

    method DecayTo(ts: real)
      requires Valid()
      modifies signed, magnitude
      ensures Valid() && View() == After(old(View()), signed.decay, Silence(ts))
    {
      DominatedStep(View(), signed.decay, Silence(ts));
      signed.DecayTo(ts);
      magnitude.DecayTo(ts);
    }

    method Score() returns (z: real)
      requires Valid()
      ensures z == Z(View())
    {
      var denom := magnitude.value;
      z := if denom > EPS then signed.value / denom else 0.0;
    }
  }
}
