/** Target quotes against live orders: the greedy plan (src/polymaker/execution/reconciler.py)
    and its matching theory. */
module Reconciler {
  import opened Numerics
  import opened Domain
  import opened Dict

  datatype Tolerance = Tolerance(tick: real, repriceTicks: int, resizeFrac: real) {
    function Price(): real { repriceTicks as real * tick + EPS }

    /** Tolerances under which an order placed exactly as quoted satisfies its quote. */
    predicate NonNegative() { tick >= 0.0 && repriceTicks >= 0 && resizeFrac >= 0.0 }
  }

  datatype ReconcilePlan = ReconcilePlan(toCancel: seq<string>, toPlace: seq<Quote>) {
    predicate IsNoop() { toCancel == [] && toPlace == [] }
  }

  type Key = (string, Side)

  function KeyOf(o: OpenOrder): Key { (o.tokenId, o.side) }

  function QuoteKey(q: Quote): Key { (q.tokenId, q.side) }

  /** Price and size of `o` are within the churn tolerances of `q`. */
  predicate Close(o: OpenOrder, q: Quote, tol: Tolerance) {
    && Abs(o.price - q.price) <= tol.Price()
    && (q.size <= 0.0 || Abs(o.size - q.size) <= tol.resizeFrac * q.size + EPS)
  }

  /** `o` could serve target `q`. */
  predicate Within(o: OpenOrder, q: Quote, tol: Tolerance) {
    KeyOf(o) == QuoteKey(q) && Close(o, q, tol)
  }

  ghost predicate UniqueIds(live: seq<OpenOrder>) {
    forall i, j :: 0 <= i < j < |live| ==> live[i].orderId != live[j].orderId
  }

  // ── Specification: greedy first fit ──────────────────────────────────

  /** The orders of one token and side, in their original order. */
  function ByKey(live: seq<OpenOrder>, k: Key): seq<OpenOrder> {
    if live == [] then []
    else if KeyOf(live[0]) == k then [live[0]] + ByKey(live[1..], k)
    else ByKey(live[1..], k)
  }

  function FirstFit(candidates: seq<OpenOrder>, q: Quote, keep: set<string>, tol: Tolerance): Option<OpenOrder> {
    if candidates == [] then None
    else if candidates[0].orderId !in keep && Close(candidates[0], q, tol) then Some(candidates[0])
    else FirstFit(candidates[1..], q, keep, tol)
  }

  /** The live order each target is matched with, target by target. */
  function Greedy(targets: seq<Quote>, live: seq<OpenOrder>, tol: Tolerance): (g: seq<Option<OpenOrder>>)
    ensures |g| == |targets|
  {
    if targets == [] then []
    else
      var q := targets[|targets| - 1];
      var g := Greedy(targets[..|targets| - 1], live, tol);
      g + [FirstFit(ByKey(live, QuoteKey(q)), q, Kept(g), tol)]
  }

  function Kept(g: seq<Option<OpenOrder>>): set<string> {
    set i | 0 <= i < |g| && g[i].Some? :: g[i].value.orderId
  }

  /** The targets left without a partner, in order. */
  function Unplaced(targets: seq<Quote>, g: seq<Option<OpenOrder>>): seq<Quote>
    requires |targets| == |g|
  {
    if targets == [] then []
    else
      var n := |targets| - 1;
      Unplaced(targets[..n], g[..n]) + (if g[n].None? then [targets[n]] else [])
  }

  /** Ids of the live orders outside `keep`, in order. */
  function Dropped(live: seq<OpenOrder>, keep: set<string>): seq<string> {
    if live == [] then []
    else if live[0].orderId !in keep then [live[0].orderId] + Dropped(live[1..], keep)
    else Dropped(live[1..], keep)
  }

  function Plan(targets: seq<Quote>, live: seq<OpenOrder>, tol: Tolerance): ReconcilePlan {
    var g := Greedy(targets, live, tol);
    ReconcilePlan(Dropped(live, Kept(g)), Unplaced(targets, g))
  }

  // ── The loops of `reconcile` ──────────────────────────────────────────

  function Lookup(m: map<Key, seq<OpenOrder>>, k: Key): seq<OpenOrder> {
    if k in m then m[k] else []
  }

  lemma {:induction false} ByKeyConcat(a: seq<OpenOrder>, b: seq<OpenOrder>, k: Key)
    ensures ByKey(a + b, k) == ByKey(a, k) + ByKey(b, k)
  {
    if a == [] {
      assert a + b == b;
    } else {
      assert (a + b)[1..] == a[1..] + b;
      ByKeyConcat(a[1..], b, k);
    }
  }

  lemma {:induction false} DroppedConcat(a: seq<OpenOrder>, b: seq<OpenOrder>, keep: set<string>)
    ensures Dropped(a + b, keep) == Dropped(a, keep) + Dropped(b, keep)
  {
    if a == [] {
      assert a + b == b;
    } else {
      assert (a + b)[1..] == a[1..] + b;
      DroppedConcat(a[1..], b, keep);
    }
  }

  lemma KeptSnoc(g: seq<Option<OpenOrder>>, m: Option<OpenOrder>)
    ensures Kept(g + [m]) == if m.Some? then Kept(g) + {m.value.orderId} else Kept(g)
  {
    var h := g + [m];
    assert forall i :: 0 <= i < |g| ==> h[i] == g[i];
    forall x | x in Kept(g)
      ensures x in Kept(h)
    {
      var i :| 0 <= i < |g| && g[i].Some? && g[i].value.orderId == x;
      assert h[i].Some?;
    }
    if m.Some? {
      assert h[|g|].Some?;
    }
  }

  lemma {:induction false} FirstFitSkip(cs: seq<OpenOrder>, j: nat, q: Quote, keep: set<string>, tol: Tolerance)
    requires j <= |cs|
    requires forall k :: 0 <= k < j ==> cs[k].orderId in keep || !Close(cs[k], q, tol)
    ensures FirstFit(cs, q, keep, tol) == FirstFit(cs[j..], q, keep, tol)
  {
    if j > 0 {
      FirstFitSkip(cs[1..], j - 1, q, keep, tol);
      assert cs[1..][j - 1..] == cs[j..];
    }
  }

  /** Lines 39-41: the live orders grouped by token and side. */
  method GroupByKey(live: seq<OpenOrder>) returns (liveByKey: map<Key, seq<OpenOrder>>)
    ensures forall k :: Lookup(liveByKey, k) == ByKey(live, k)
  {
    liveByKey := map[];
    for i := 0 to |live|
      invariant forall k :: Lookup(liveByKey, k) == ByKey(live[..i], k)
    {
      var o := live[i];
      assert live[..i + 1] == live[..i] + [o];
      ghost var before := liveByKey;
      liveByKey := liveByKey[KeyOf(o) := Lookup(liveByKey, KeyOf(o)) + [o]];
      forall k
        ensures Lookup(liveByKey, k) == ByKey(live[..i + 1], k)
      {
        ByKeyConcat(live[..i], [o], k);
        assert ByKey([o], k) == if KeyOf(o) == k then [o] else [];
        assert Lookup(liveByKey, k) == if KeyOf(o) == k then Lookup(before, k) + [o] else Lookup(before, k);
      }
    }
    assert live[..|live|] == live;
  }

  /** Lines 49-57: the inner loop with its early break. */
  method FindMatch(candidates: seq<OpenOrder>, q: Quote, keep: set<string>, tol: Tolerance)
    returns (found: Option<OpenOrder>)
    ensures found == FirstFit(candidates, q, keep, tol)
  {
    found := None;
    var j := 0;
    while j < |candidates|
      invariant 0 <= j <= |candidates|
      invariant found.None?
      invariant forall k :: 0 <= k < j ==> candidates[k].orderId in keep || !Close(candidates[k], q, tol)
    {
      var o := candidates[j];
      if o.orderId !in keep && Close(o, q, tol) {
        found := Some(o);
        break;
      }
      j := j + 1;
    }
    FirstFitSkip(candidates, j, q, keep, tol);
  }

  /** Line 63. */
  method CancelList(live: seq<OpenOrder>, keep: set<string>) returns (toCancel: seq<string>)
    ensures toCancel == Dropped(live, keep)
  {
    toCancel := [];
    for i := 0 to |live|
      invariant toCancel == Dropped(live[..i], keep)
    {
      assert live[..i + 1] == live[..i] + [live[i]];
      DroppedConcat(live[..i], [live[i]], keep);
      if live[i].orderId !in keep {
        toCancel := toCancel + [live[i].orderId];
      }
    }
    assert live[..|live|] == live;
  }

  lemma GreedyStep(targets: seq<Quote>, live: seq<OpenOrder>, tol: Tolerance, i: nat, found: Option<OpenOrder>)
    requires i < |targets|
    requires var g := Greedy(targets[..i], live, tol);
      found == FirstFit(ByKey(live, QuoteKey(targets[i])), targets[i], Kept(g), tol)
    ensures var g := Greedy(targets[..i], live, tol);
      && Greedy(targets[..i + 1], live, tol) == g + [found]
      && Kept(g + [found]) == (if found.Some? then Kept(g) + {found.value.orderId} else Kept(g))
      && Unplaced(targets[..i + 1], g + [found]) == Unplaced(targets[..i], g) + (if found.None? then [targets[i]] else [])
  {
    var g := Greedy(targets[..i], live, tol);
    assert targets[..i + 1][..i] == targets[..i];
    assert (g + [found])[..i] == g;
    KeptSnoc(g, found);
  }

  method Reconcile(targets: seq<Quote>, live: seq<OpenOrder>, tol: Tolerance) returns (plan: ReconcilePlan)
    ensures plan == Plan(targets, live, tol)
  {
    var liveByKey := GroupByKey(live);
    var keep: set<string> := {};
    var toPlace: seq<Quote> := [];
    for i := 0 to |targets|
      invariant keep == Kept(Greedy(targets[..i], live, tol))
      invariant toPlace == Unplaced(targets[..i], Greedy(targets[..i], live, tol))
    {
      var q := targets[i];
      var found := FindMatch(Lookup(liveByKey, QuoteKey(q)), q, keep, tol);
      GreedyStep(targets, live, tol, i, found);
      if found.Some? {
        keep := keep + {found.value.orderId};
      } else {
        toPlace := toPlace + [q];
      }
    }
    assert targets[..|targets|] == targets;
    var toCancel := CancelList(live, keep);
    plan := ReconcilePlan(toCancel, toPlace);
  }

  // ── What the greedy matching is ──────────────────────────────────────

  lemma {:induction false} ByKeyMembers(live: seq<OpenOrder>, k: Key)
    ensures forall o :: o in ByKey(live, k) <==> o in live && KeyOf(o) == k
  {
    if live != [] {
      ByKeyMembers(live[1..], k);
      assert live == [live[0]] + live[1..];
    }
  }

  lemma {:induction false} FirstFitFacts(cs: seq<OpenOrder>, q: Quote, keep: set<string>, tol: Tolerance)
    ensures var m := FirstFit(cs, q, keep, tol);
      if m.Some? then m.value in cs && m.value.orderId !in keep && Close(m.value, q, tol)
      else forall o :: o in cs && Close(o, q, tol) ==> o.orderId in keep
  {
    if cs != [] {
      FirstFitFacts(cs[1..], q, keep, tol);
      assert cs == [cs[0]] + cs[1..];
    }
  }

  lemma {:induction false} GreedyPrefix(targets: seq<Quote>, live: seq<OpenOrder>, tol: Tolerance, i: nat)
    requires i <= |targets|
    ensures Greedy(targets, live, tol)[..i] == Greedy(targets[..i], live, tol)
  {
    if i == |targets| {
      assert targets[..i] == targets;
    } else {
      var n := |targets| - 1;
      GreedyPrefix(targets[..n], live, tol, i);
      assert targets[..n][..i] == targets[..i];
      assert Greedy(targets, live, tol)[..n] == Greedy(targets[..n], live, tol);
      assert Greedy(targets, live, tol)[..i] == Greedy(targets, live, tol)[..n][..i];
    }
  }

  /** A matched target has a fresh partner within tolerance; every order that could have served an
      unmatched target was taken by an earlier one. */
  lemma GreedyFacts(targets: seq<Quote>, live: seq<OpenOrder>, tol: Tolerance, i: nat)
    requires i < |targets|
    ensures var g := Greedy(targets, live, tol);
      if g[i].Some? then g[i].value in live && Within(g[i].value, targets[i], tol) && g[i].value.orderId !in Kept(g[..i])
      else forall o :: o in live && Within(o, targets[i], tol) ==> o.orderId in Kept(g[..i])
  {
    var g := Greedy(targets, live, tol);
    GreedyPrefix(targets, live, tol, i);
    GreedyPrefix(targets, live, tol, i + 1);
    assert targets[..i + 1][..i] == targets[..i];
    var k := QuoteKey(targets[i]);
    assert g[i] == g[..i + 1][i] == FirstFit(ByKey(live, k), targets[i], Kept(g[..i]), tol);
    FirstFitFacts(ByKey(live, k), targets[i], Kept(g[..i]), tol);
    ByKeyMembers(live, k);
  }

  /** One-to-one: no live order serves two targets. */
  lemma PartnersDistinct(targets: seq<Quote>, live: seq<OpenOrder>, tol: Tolerance, i: nat, j: nat)
    requires i < j < |targets|
    requires var g := Greedy(targets, live, tol); g[i].Some? && g[j].Some?
    ensures var g := Greedy(targets, live, tol); g[i].value.orderId != g[j].value.orderId
  {
    var g := Greedy(targets, live, tol);
    GreedyFacts(targets, live, tol, j);
    assert g[..j][i] == g[i];
  }

  /** No target that is placed is within tolerance of an order that is not kept. */
  lemma Maximal(targets: seq<Quote>, live: seq<OpenOrder>, tol: Tolerance, i: nat, o: OpenOrder)
    requires i < |targets| && o in live
    requires var g := Greedy(targets, live, tol); g[i].None? && o.orderId !in Kept(g)
    ensures !Within(o, targets[i], tol)
  {
    var g := Greedy(targets, live, tol);
    GreedyFacts(targets, live, tol, i);
    KeptPrefix(g, i);
  }

  lemma KeptPrefix(g: seq<Option<OpenOrder>>, i: nat)
    requires i <= |g|
    ensures Kept(g[..i]) <= Kept(g)
  {
    forall id | id in Kept(g[..i])
      ensures id in Kept(g)
    {
      var k :| 0 <= k < i && g[..i][k].Some? && g[..i][k].value.orderId == id;
      assert g[k].Some? && g[k].value.orderId == id;
    }
  }

  /** The plan cancels exactly the live orders outside the kept set and places exactly the unmatched targets. */
  lemma {:induction false} DroppedMembers(live: seq<OpenOrder>, keep: set<string>)
    ensures forall id :: id in Dropped(live, keep) <==> exists o :: o in live && o.orderId == id && id !in keep
  {
    if live != [] {
      DroppedMembers(live[1..], keep);
      assert live == [live[0]] + live[1..];
      assert live[0] in live;
      forall id | id in Dropped(live, keep)
        ensures exists o :: o in live && o.orderId == id && id !in keep
      {
        if id in Dropped(live[1..], keep) {
          var o :| o in live[1..] && o.orderId == id && id !in keep;
          assert o in live;
        }
      }
      forall o | o in live && o.orderId !in keep
        ensures o.orderId in Dropped(live, keep)
      {
        if o != live[0] {
          assert o in live[1..];
        }
      }
    }
  }

  lemma {:induction false} UnplacedMembers(targets: seq<Quote>, g: seq<Option<OpenOrder>>)
    requires |targets| == |g|
    ensures forall q :: q in Unplaced(targets, g) <==> exists i :: 0 <= i < |targets| && g[i].None? && targets[i] == q
  {
    if targets != [] {
      var n := |targets| - 1;
      UnplacedMembers(targets[..n], g[..n]);
      forall q | q in Unplaced(targets[..n], g[..n])
        ensures exists i :: 0 <= i < |targets| && g[i].None? && targets[i] == q
      {
        var i :| 0 <= i < n && g[..n][i].None? && targets[..n][i] == q;
        assert g[i].None? && targets[i] == q;
      }
      forall i | 0 <= i < |targets| && g[i].None?
        ensures targets[i] in Unplaced(targets, g)
      {
        if i < n {
          assert g[..n][i].None? && targets[..n][i] == targets[i];
        }
      }
    }
  }

  /** Every plan, in the plan's own terms: a placed quote fits no cancelled order, and only live orders are cancelled. */
  lemma PlanSeparates(targets: seq<Quote>, live: seq<OpenOrder>, tol: Tolerance)
    requires UniqueIds(live)
    ensures var p := Plan(targets, live, tol);
      && (forall q :: q in p.toPlace ==> q in targets)
      && (forall id :: id in p.toCancel ==> exists o :: o in live && o.orderId == id)
      && (forall q, o :: q in p.toPlace && o in live && o.orderId in p.toCancel ==> !Within(o, q, tol))
  {
    var g := Greedy(targets, live, tol);
    UnplacedMembers(targets, g);
    DroppedMembers(live, Kept(g));
    forall q, o | q in Unplaced(targets, g) && o in live && o.orderId in Dropped(live, Kept(g))
      ensures !Within(o, q, tol)
    {
      var i :| 0 <= i < |targets| && g[i].None? && targets[i] == q;
      Maximal(targets, live, tol, i, o);
    }
  }

  // ── The tolerances, as they are promised ─────────────────────────────

  /** The same token and side, a price within the reprice ticks, and a size within the resize fraction of the target, of
      which a target without a size makes no demand. */
  ghost predicate Satisfies(o: OpenOrder, q: Quote, tol: Tolerance) {
    && o.tokenId == q.tokenId && o.side == q.side
    && Abs(o.price - q.price) <= tol.repriceTicks as real * tol.tick + 0.000000001
    && (q.size > 0.0 ==> Abs(o.size - q.size) <= tol.resizeFrac * q.size + 0.000000001)
  }

  lemma SatisfiesIsWithin(o: OpenOrder, q: Quote, tol: Tolerance)
    ensures Satisfies(o, q, tol) <==> Within(o, q, tol)
  {
  }

  /** WHY TO ACT: no placed quote is satisfied by a cancelled order. */
  lemma CancelledAndPlacedDiffer(targets: seq<Quote>, live: seq<OpenOrder>, tol: Tolerance, o: OpenOrder, q: Quote)
    requires UniqueIds(live) && o in live
    requires var p := Plan(targets, live, tol); o.orderId in p.toCancel && q in p.toPlace
    ensures !Satisfies(o, q, tol)
  {
    hide Plan, Satisfies, Within;
    PlanSeparates(targets, live, tol);
    SatisfiesIsWithin(o, q, tol);
  }

  /** WHY TO KEEP: the order kept for a target satisfies it, and any order before it on the list that does, too, is kept
      for an earlier target. */
  lemma KeptIsFirstToSatisfy(targets: seq<Quote>, live: seq<OpenOrder>, tol: Tolerance, i: nat, j: nat, k: nat)
    requires UniqueIds(live) && i < |targets| && j < |live| && Greedy(targets, live, tol)[i] == Some(live[j])
    ensures Satisfies(live[j], targets[i], tol)
    ensures k < j && Satisfies(live[k], targets[i], tol) ==>
              exists e :: 0 <= e < i && Greedy(targets, live, tol)[e] == Some(live[k])
  {
    hide Greedy, Satisfies, Within;
    GreedyFacts(targets, live, tol, i);
    SatisfiesIsWithin(live[j], targets[i], tol);
    if k < j && Satisfies(live[k], targets[i], tol) {
      SatisfiesIsWithin(live[k], targets[i], tol);
      var g := Greedy(targets, live, tol);
      EarlierAreTaken(targets, live, tol, i, j, k);
      var e :| 0 <= e < i && g[..i][e].Some? && g[..i][e].value.orderId == live[k].orderId;
      GreedyFacts(targets, live, tol, e);
      assert g[e] == Some(live[k]);
    }
  }

  lemma {:induction false} FirstFitIsFirst(live: seq<OpenOrder>, q: Quote, keep: set<string>, tol: Tolerance, j: nat, k: nat)
    requires UniqueIds(live) && k < j < |live| && FirstFit(ByKey(live, QuoteKey(q)), q, keep, tol) == Some(live[j])
    requires Within(live[k], q, tol)
    ensures live[k].orderId in keep
  {
    ByKeyMembers(live[1..], QuoteKey(q));
    if k > 0 {
      if KeyOf(live[0]) == QuoteKey(q) {
        assert ([live[0]] + ByKey(live[1..], QuoteKey(q)))[1..] == ByKey(live[1..], QuoteKey(q));
      }
      FirstFitIsFirst(live[1..], q, keep, tol, j - 1, k - 1);
    }
  }

  lemma EarlierAreTaken(targets: seq<Quote>, live: seq<OpenOrder>, tol: Tolerance, i: nat, j: nat, k: nat)
    requires UniqueIds(live) && i < |targets| && k < j < |live| && Greedy(targets, live, tol)[i] == Some(live[j])
    requires Within(live[k], targets[i], tol)
    ensures live[k].orderId in Kept(Greedy(targets, live, tol)[..i])
  {
    var g := Greedy(targets, live, tol);
    GreedyPrefix(targets, live, tol, i);
    GreedyPrefix(targets, live, tol, i + 1);
    assert targets[..i + 1][..i] == targets[..i];
    assert g[i] == g[..i + 1][i] == FirstFit(ByKey(live, QuoteKey(targets[i])), targets[i], Kept(g[..i]), tol);
    FirstFitIsFirst(live, targets[i], Kept(g[..i]), tol, j, k);
  }

  /** ONE FOR ONE: an order is left alone for a target exactly if it satisfies it; otherwise it is cancelled and the
      target placed. */
  lemma OneForOne(q: Quote, o: OpenOrder, tol: Tolerance)
    ensures var p := Plan([q], [o], tol);
      if Satisfies(o, q, tol) then p.IsNoop() else p.toCancel == [o.orderId] && p.toPlace == [q]
  {
    hide Close, Satisfies;
    SatisfiesIsWithin(o, q, tol);
    var k := QuoteKey(q);
    assert [q][..0] == [] && [o][1..] == [] && Kept([]) == {};
    assert Greedy([], [o], tol) == [] && ByKey([], k) == [] && FirstFit([], q, {}, tol) == None;
    assert ByKey([o], k) == if KeyOf(o) == k then [o] else [];
    var found := FirstFit(ByKey([o], k), q, {}, tol);
    assert found == if Within(o, q, tol) then Some(o) else None;
    var g := Greedy([q], [o], tol);
    assert g == [] + [found];
    KeptSnoc([], found);
    assert Kept(g) == if found.Some? then {o.orderId} else {};
    assert Dropped([], Kept(g)) == [] && Unplaced([], []) == [];
    assert Dropped([o], Kept(g)) == if found.Some? then [] else [o.orderId];
    assert g[..0] == [] && Unplaced([q], g) == if found.None? then [q] else [];
  }

  // ── Matching quality ─────────────────────────────────────────────────

  /** `m` assigns targets to live orders one to one, within tolerance. */
  ghost predicate Assignment(m: map<nat, nat>, targets: seq<Quote>, live: seq<OpenOrder>, tol: Tolerance) {
    && (forall i :: i in m ==> i < |targets| && m[i] < |live| && Within(live[m[i]], targets[i], tol))
    && (forall i, j :: i in m && j in m && i != j ==> m[i] != m[j])
  }

  lemma {:induction false} InjectionCard<A(!new), B(!new)>(f: map<A, B>, to: set<B>)
    requires forall a :: a in f ==> f[a] in to
    requires forall a, b :: a in f && b in f && a != b ==> f[a] != f[b]
    ensures |f.Keys| <= |to|
    decreases |f.Keys|
  {
    if f.Keys != {} {
      var a :| a in f;
      var rest := f - {a};
      assert rest.Keys == f.Keys - {a};
      InjectionCard(rest, to - {f[a]});
    }
  }

  /** Targets that found a partner. */
  ghost function MatchedTargets(g: seq<Option<OpenOrder>>): set<nat> {
    set i: nat | i < |g| && g[i].Some?
  }

  /** As many orders are kept as targets are matched. */
  lemma MatchedCard(targets: seq<Quote>, live: seq<OpenOrder>, tol: Tolerance)
    ensures var g := Greedy(targets, live, tol); |MatchedTargets(g)| == |Kept(g)|
  {
    var g := Greedy(targets, live, tol);
    var f := map i | i in MatchedTargets(g) :: g[i].value.orderId;
    forall i, j | i in f && j in f && i != j
      ensures f[i] != f[j]
    {
      if i < j {
        PartnersDistinct(targets, live, tol, i, j);
      } else {
        PartnersDistinct(targets, live, tol, j, i);
      }
    }
    assert f.Keys == MatchedTargets(g);
    InjectionCard(f, Kept(g));
    var h: map<string, nat> := map id | id in Kept(g) :: var i: nat :| i < |g| && g[i].Some? && g[i].value.orderId == id; i;
    assert h.Keys == Kept(g);
    InjectionCard(h, MatchedTargets(g));
  }

  /** The part of an assignment whose live orders greedy keeps injects into the kept set. */
  lemma KeptPart(m: map<nat, nat>, part: set<nat>, targets: seq<Quote>, live: seq<OpenOrder>, tol: Tolerance)
    requires UniqueIds(live) && Assignment(m, targets, live, tol) && part <= m.Keys
    requires forall i :: i in part ==> live[m[i]].orderId in Kept(Greedy(targets, live, tol))
    ensures |part| <= |Kept(Greedy(targets, live, tol))|
  {
    var f := map i | i in part :: live[m[i]].orderId;
    assert f.Keys == part;
    InjectionCard(f, Kept(Greedy(targets, live, tol)));
  }

  /** In any assignment, either the target is matched by greedy or its order is kept by greedy. */
  lemma EitherSide(m: map<nat, nat>, i: nat, targets: seq<Quote>, live: seq<OpenOrder>, tol: Tolerance)
    requires Assignment(m, targets, live, tol) && i in m
    ensures var g := Greedy(targets, live, tol); i in MatchedTargets(g) || live[m[i]].orderId in Kept(g)
  {
    var g := Greedy(targets, live, tol);
    if g[i].None? && live[m[i]].orderId !in Kept(g) {
      Maximal(targets, live, tol, i, live[m[i]]);
    }
  }

  /** Greedy keeps at least half as many orders as any assignment could. */
  lemma HalfOfOptimum(m: map<nat, nat>, targets: seq<Quote>, live: seq<OpenOrder>, tol: Tolerance)
    requires UniqueIds(live) && Assignment(m, targets, live, tol)
    ensures |m| <= 2 * |Kept(Greedy(targets, live, tol))|
  {
    var g := Greedy(targets, live, tol);
    var kept := set i | i in m.Keys && live[m[i]].orderId in Kept(g);
    KeptPart(m, kept, targets, live, tol);
    MatchedCard(targets, live, tol);
    forall i | i in m.Keys
      ensures i in kept + MatchedTargets(g)
    {
      EitherSide(m, i, targets, live, tol);
    }
    CardMono(m.Keys, kept + MatchedTargets(g));
    assert |kept + MatchedTargets(g)| <= |kept| + |MatchedTargets(g)|;
    assert |m| == |m.Keys|;
  }

  lemma {:induction false} CardMono<A>(a: set<A>, b: set<A>)
    requires a <= b
    ensures |a| <= |b|
  {
    assert b == a + (b - a);
    assert |b| == |a| + |b - a|;
  }

  /** Each live order fits at most one target. */
  ghost predicate OrdersUnambiguous(targets: seq<Quote>, live: seq<OpenOrder>, tol: Tolerance) {
    forall o, i, j :: o in live && 0 <= i < j < |targets| ==> !(Within(o, targets[i], tol) && Within(o, targets[j], tol))
  }

  /** Each target fits at most one live order. */
  ghost predicate TargetsUnambiguous(targets: seq<Quote>, live: seq<OpenOrder>, tol: Tolerance) {
    forall q, o, p :: q in targets && o in live && p in live && Within(o, q, tol) && Within(p, q, tol) ==> o == p
  }

  /** Greedy is optimal when the tolerance relation is unambiguous on either side. */
  lemma OptimalWhenUnambiguous(m: map<nat, nat>, targets: seq<Quote>, live: seq<OpenOrder>, tol: Tolerance)
    requires UniqueIds(live) && Assignment(m, targets, live, tol)
    requires OrdersUnambiguous(targets, live, tol) || TargetsUnambiguous(targets, live, tol)
    ensures |m| <= |Kept(Greedy(targets, live, tol))|
  {
    var g := Greedy(targets, live, tol);
    if OrdersUnambiguous(targets, live, tol) {
      forall i | i in m.Keys
        ensures i in MatchedTargets(g)
      {
        EitherSide(m, i, targets, live, tol);
        if g[i].None? {
          OnlyItsOwnTarget(targets, live, tol, i, live[m[i]]);
        }
      }
      CardMono(m.Keys, MatchedTargets(g));
      MatchedCard(targets, live, tol);
    } else {
      forall i | i in m.Keys
        ensures live[m[i]].orderId in Kept(g)
      {
        EitherSide(m, i, targets, live, tol);
        if g[i].Some? {
          GreedyFacts(targets, live, tol, i);
          assert targets[i] in targets;
          assert g[i].value == live[m[i]];
        }
      }
      KeptPart(m, m.Keys, targets, live, tol);
    }
    assert |m| == |m.Keys|;
  }

  /** An order kept while target `i`, which it fits, goes unmatched was kept for another target it fits. */
  lemma OnlyItsOwnTarget(targets: seq<Quote>, live: seq<OpenOrder>, tol: Tolerance, i: nat, o: OpenOrder)
    requires UniqueIds(live) && i < |targets| && o in live && Within(o, targets[i], tol)
    requires var g := Greedy(targets, live, tol); g[i].None? && o.orderId in Kept(g)
    ensures !OrdersUnambiguous(targets, live, tol)
  {
    var g := Greedy(targets, live, tol);
    var k :| 0 <= k < |g| && g[k].Some? && g[k].value.orderId == o.orderId;
    GreedyFacts(targets, live, tol, k);
    assert g[k].value == o;
    if i < k {
      assert Within(o, targets[i], tol) && Within(o, targets[k], tol);
    } else {
      assert Within(o, targets[k], tol) && Within(o, targets[i], tol);
    }
  }

  ghost function IdsIn(live: seq<OpenOrder>, keep: set<string>): set<string> {
    set o | o in live && o.orderId in keep :: o.orderId
  }

  lemma IdsInCons(o: OpenOrder, rest: seq<OpenOrder>, keep: set<string>)
    requires UniqueIds([o] + rest)
    ensures IdsIn([o] + rest, keep) == if o.orderId in keep then IdsIn(rest, keep) + {o.orderId} else IdsIn(rest, keep)
    ensures o.orderId !in IdsIn(rest, keep) && UniqueIds(rest)
  {
    var live := [o] + rest;
    assert o == live[0] && forall i :: 0 <= i < |rest| ==> rest[i] == live[i + 1];
    forall p | p in rest
      ensures p.orderId != o.orderId
    {
      var i :| 0 <= i < |rest| && rest[i] == p;
      assert live[0].orderId != live[i + 1].orderId;
    }
  }

  lemma {:induction false} DroppedLength(live: seq<OpenOrder>, keep: set<string>)
    requires UniqueIds(live)
    ensures |Dropped(live, keep)| + |IdsIn(live, keep)| == |live|
  {
    if live == [] {
      assert IdsIn(live, keep) == {};
    } else {
      var rest := live[1..];
      assert live == [live[0]] + rest;
      IdsInCons(live[0], rest, keep);
      hide IdsIn, UniqueIds;
      DroppedLength(rest, keep);
    }
  }

  lemma {:induction false} UnplacedLength(targets: seq<Quote>, g: seq<Option<OpenOrder>>)
    requires |targets| == |g|
    ensures |Unplaced(targets, g)| + |MatchedTargets(g)| == |targets|
  {
    if targets != [] {
      var n := |targets| - 1;
      UnplacedLength(targets[..n], g[..n]);
      if g[n].Some? {
        assert MatchedTargets(g) == MatchedTargets(g[..n]) + {n};
      } else {
        assert MatchedTargets(g) == MatchedTargets(g[..n]);
      }
    }
  }

  /** The number of actions depends on the number of kept orders alone: the fewer kept, the larger the plan. */
  lemma PlanSize(targets: seq<Quote>, live: seq<OpenOrder>, tol: Tolerance)
    requires UniqueIds(live)
    ensures var p := Plan(targets, live, tol);
      |p.toCancel| + |p.toPlace| == |live| + |targets| - 2 * |Kept(Greedy(targets, live, tol))|
  {
    var g := Greedy(targets, live, tol);
    DroppedLength(live, Kept(g));
    UnplacedLength(targets, g);
    MatchedCard(targets, live, tol);
    var ids := IdsIn(live, Kept(g));
    forall id | id in Kept(g)
      ensures id in ids
    {
      var i :| 0 <= i < |g| && g[i].Some? && g[i].value.orderId == id;
      GreedyFacts(targets, live, tol, i);
    }
    assert ids == Kept(g);
  }

  // The plan is not always the smallest. The order "a" fits both targets, "b" only the first.

  const TIE_TOLERANCE := Tolerance(0.01, 2, 0.0)
  const TIE_TARGETS := [Quote("t", BUY, 0.50, 1.0), Quote("t", BUY, 0.48, 1.0)]
  const TIE_LIVE := [OpenOrder("a", "t", BUY, 0.49, 1.0, LIVE, 0.0), OpenOrder("b", "t", BUY, 0.52, 1.0, LIVE, 0.0)]

  lemma TieGreedy()
    ensures Greedy(TIE_TARGETS, TIE_LIVE, TIE_TOLERANCE) == [Some(TIE_LIVE[0]), None]
  {
    var (o0, o1) := (TIE_LIVE[0], TIE_LIVE[1]);
    var (q0, q1) := (TIE_TARGETS[0], TIE_TARGETS[1]);
    assert TIE_LIVE[1..] == [o1] && [o1][1..] == [];
    assert ByKey(TIE_LIVE, ("t", BUY)) == [o0] + ByKey([o1], ("t", BUY)) == TIE_LIVE;
    assert Close(o0, q0, TIE_TOLERANCE) && !Close(o1, q1, TIE_TOLERANCE);
    assert TIE_TARGETS[..1] == [q0] && [q0][..0] == [];
    assert Greedy([], TIE_LIVE, TIE_TOLERANCE) == [] && Kept([]) == {};
    assert Greedy([q0], TIE_LIVE, TIE_TOLERANCE) == [Some(o0)] by {
      assert Greedy([q0], TIE_LIVE, TIE_TOLERANCE) == [] + [FirstFit(TIE_LIVE, q0, Kept([]), TIE_TOLERANCE)];
    }
    KeptSnoc([], Some(o0));
    assert [] + [Some(o0)] == [Some(o0)];
    assert Kept([Some(o0)]) == {"a"};
    assert FirstFit(TIE_LIVE, q1, {"a"}, TIE_TOLERANCE) == FirstFit([o1], q1, {"a"}, TIE_TOLERANCE)
        == FirstFit([], q1, {"a"}, TIE_TOLERANCE);
  }

  lemma TieKeepsOne()
    ensures Kept(Greedy(TIE_TARGETS, TIE_LIVE, TIE_TOLERANCE)) == {"a"}
  {
    TieGreedy();
    KeptSnoc([], Some(TIE_LIVE[0]));
    KeptSnoc([Some(TIE_LIVE[0])], None);
    assert [] + [Some(TIE_LIVE[0])] == [Some(TIE_LIVE[0])];
    assert [Some(TIE_LIVE[0])] + [None] == [Some(TIE_LIVE[0]), None];
    assert Kept([]) == {};
  }

  /** Greedy keeps one order where an assignment keeps two, so the factor of `HalfOfOptimum` is attained. */
  lemma NotMinimal(m: map<nat, nat>)
    requires m == map[0 := 1, 1 := 0]
    ensures UniqueIds(TIE_LIVE) && Assignment(m, TIE_TARGETS, TIE_LIVE, TIE_TOLERANCE)
    ensures |Kept(Greedy(TIE_TARGETS, TIE_LIVE, TIE_TOLERANCE))| == 1 && |m| == 2
  {
    TieKeepsOne();
    assert |m| == 2 by {
      assert m.Keys == {0, 1};
      assert |m| == |m.Keys|;
    }
    assert Within(TIE_LIVE[1], TIE_TARGETS[0], TIE_TOLERANCE) && Within(TIE_LIVE[0], TIE_TARGETS[1], TIE_TOLERANCE);
    assert forall i :: i in m ==> i == 0 || i == 1;
  }
}
