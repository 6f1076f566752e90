/** What is live after a plan is executed in full, and what reconciling again then does
    (src/polymaker/engine.py, _recompute_locked; src/polymaker/execution/reconciler.py). */
module Execution {
  import opened Numerics
  import opened Domain
  import opened Dict
  import opened Reconciler

  /** The live orders whose id is in `keep`. */
  function Survivors(live: seq<OpenOrder>, keep: set<string>): seq<OpenOrder> {
    if live == [] then []
    else if live[0].orderId in keep then [live[0]] + Survivors(live[1..], keep)
    else Survivors(live[1..], keep)
  }

  /** `placed` are the acknowledged orders for `quotes`: as quoted, under ids new to `live`. */
  ghost predicate PlacedFor(placed: seq<OpenOrder>, quotes: seq<Quote>, live: seq<OpenOrder>) {
    && |placed| == |quotes|
    && UniqueIds(placed)
    && (forall k :: 0 <= k < |placed| ==>
          && KeyOf(placed[k]) == QuoteKey(quotes[k])
          && placed[k].price == quotes[k].price && placed[k].size == quotes[k].size)
    && (forall o, p :: o in live && p in placed ==> o.orderId != p.orderId)
  }

  /** `after` lists the survivors and then the placed orders on every token and side. Orders of different
      keys may be interleaved in any way, as the engine lists one token after the other. */
  ghost predicate Executed(after: seq<OpenOrder>, targets: seq<Quote>, live: seq<OpenOrder>,
                           tol: Tolerance, placed: seq<OpenOrder>)
  {
    && PlacedFor(placed, Plan(targets, live, tol).toPlace, live)
    && forall k :: ByKey(after, k) == ByKey(Survivors(live, Kept(Greedy(targets, live, tol))) + placed, k)
  }

  // ── Quiescence ───────────────────────────────────────────────────────

  lemma {:induction false} FirstFitConcat(a: seq<OpenOrder>, b: seq<OpenOrder>, q: Quote, keep: set<string>, tol: Tolerance)
    ensures FirstFit(a + b, q, keep, tol) ==
            if FirstFit(a, q, keep, tol).Some? then FirstFit(a, q, keep, tol) else FirstFit(b, q, keep, tol)
  {
    if a == [] {
      assert a + b == b;
    } else {
      assert (a + b)[1..] == a[1..] + b;
      FirstFitConcat(a[1..], b, q, keep, tol);
    }
  }

  /** Dropping orders that greedy never keeps does not change its choice. */
  lemma {:induction false} FirstFitSurvivors(live: seq<OpenOrder>, k: Key, q: Quote, all: set<string>,
                                             keep: set<string>, keep': set<string>, tol: Tolerance)
    requires var m := FirstFit(ByKey(live, k), q, keep, tol); m.Some? ==> m.value.orderId in all
    requires forall o :: o in live ==> (o.orderId in keep <==> o.orderId in keep')
    ensures FirstFit(ByKey(Survivors(live, all), k), q, keep', tol) == FirstFit(ByKey(live, k), q, keep, tol)
  {
    if live != [] {
      var o := live[0];
      assert live == [o] + live[1..];
      assert o in live;
      assert ByKey([o] + Survivors(live[1..], all), k) ==
        if KeyOf(o) == k then [o] + ByKey(Survivors(live[1..], all), k) else ByKey(Survivors(live[1..], all), k)
      by {
        assert ([o] + Survivors(live[1..], all))[1..] == Survivors(live[1..], all);
      }
      FirstFitCons(o, ByKey(live[1..], k), q, keep, tol);
      FirstFitCons(o, ByKey(Survivors(live[1..], all), k), q, keep', tol);
      if KeyOf(o) == k && o.orderId !in keep && Close(o, q, tol) {
      } else {
        FirstFitSurvivors(live[1..], k, q, all, keep, keep', tol);
      }
    }
  }

  lemma FirstFitCons(o: OpenOrder, cs: seq<OpenOrder>, q: Quote, keep: set<string>, tol: Tolerance)
    ensures FirstFit([o] + cs, q, keep, tol) ==
            if o.orderId !in keep && Close(o, q, tol) then Some(o) else FirstFit(cs, q, keep, tol)
  {
    assert ([o] + cs)[1..] == cs;
  }

  /** The placed order that answers `q` is the first of its key not already taken. */
  lemma {:induction false} FirstFitPlaced(placed: seq<OpenOrder>, r: nat, q: Quote, keep: set<string>, tol: Tolerance)
    requires r < |placed| && tol.NonNegative()
    requires KeyOf(placed[r]) == QuoteKey(q) && placed[r].price == q.price && placed[r].size == q.size
    requires placed[r].orderId !in keep
    requires forall k :: 0 <= k < r ==> placed[k].orderId in keep
    ensures FirstFit(ByKey(placed, QuoteKey(q)), q, keep, tol) == Some(placed[r])
  {
    var o := placed[0];
    FirstFitCons(o, ByKey(placed[1..], QuoteKey(q)), q, keep, tol);
    if r > 0 {
      assert placed[0].orderId in keep;
      FirstFitPlaced(placed[1..], r - 1, q, keep, tol);
    } else {
      MulNonNegative(tol.repriceTicks as real, tol.tick);
      if q.size > 0.0 {
        MulNonNegative(tol.resizeFrac, q.size);
      }
      assert Close(o, q, tol);
    }
  }

  /** Unmatched targets before position `i`. */
  function Rank(g: seq<Option<OpenOrder>>, i: nat): nat
    requires i <= |g|
  {
    if i == 0 then 0 else Rank(g, i - 1) + if g[i - 1].None? then 1 else 0
  }

  lemma {:induction false} UnplacedAt(targets: seq<Quote>, g: seq<Option<OpenOrder>>, i: nat)
    requires |targets| == |g| && i <= |g|
    ensures Rank(g, i) == |Unplaced(targets[..i], g[..i])| <= |Unplaced(targets, g)|
    ensures i < |g| && g[i].None? ==> Rank(g, i) < |Unplaced(targets, g)| && Unplaced(targets, g)[Rank(g, i)] == targets[i]
    decreases |g|, i
  {
    if |g| == i {
      assert targets[..i] == targets && g[..i] == g;
      if i > 0 {
        UnplacedAt(targets[..i - 1], g[..i - 1], i - 1);
        RankPrefix(g, i - 1, i - 1);
        assert g[..i - 1][..i - 1] == g[..i - 1];
        assert targets[..i - 1][..i - 1] == targets[..i - 1];
      }
    } else {
      var n := |g| - 1;
      UnplacedAt(targets[..n], g[..n], i);
      RankPrefix(g, n, i);
      assert g[..n][..i] == g[..i] && targets[..n][..i] == targets[..i];
      if i == n {
        assert Unplaced(targets, g) == Unplaced(targets[..n], g[..n]) + if g[n].None? then [targets[n]] else [];
      }
    }
  }

  lemma {:induction false} RankPrefix(g: seq<Option<OpenOrder>>, n: nat, i: nat)
    requires i <= n <= |g|
    ensures Rank(g[..n], i) == Rank(g, i)
  {
    if i > 0 {
      RankPrefix(g, n, i - 1);
    }
  }

  /** The partner each target is expected to find on the second pass. */
  function SecondPass(g: seq<Option<OpenOrder>>, placed: seq<OpenOrder>, i: nat): (r: seq<Option<OpenOrder>>)
    requires i <= |g| && Rank(g, i) <= |placed|
    ensures |r| == i
  {
    if i == 0 then []
    else SecondPass(g, placed, i - 1) + [if g[i - 1].Some? then g[i - 1] else Some(placed[Rank(g, i - 1)])]
  }

  /** After `i` targets the second pass has taken what the first took, and the orders placed so far. */
  lemma {:induction false} SecondPassKept(g: seq<Option<OpenOrder>>, placed: seq<OpenOrder>, i: nat)
    requires i <= |g| && Rank(g, i) <= |placed|
    ensures Kept(SecondPass(g, placed, i)) == Kept(g[..i]) + set k | 0 <= k < Rank(g, i) :: placed[k].orderId
  {
    if i > 0 {
      SecondPassKept(g, placed, i - 1);
      KeptSnoc(SecondPass(g, placed, i - 1), if g[i - 1].Some? then g[i - 1] else Some(placed[Rank(g, i - 1)]));
      KeptSnoc(g[..i - 1], g[i - 1]);
      assert g[..i] == g[..i - 1] + [g[i - 1]];
      if g[i - 1].None? {
        var r := Rank(g, i - 1);
        assert (set k | 0 <= k < r + 1 :: placed[k].orderId) == (set k | 0 <= k < r :: placed[k].orderId) + {placed[r].orderId};
      }
    }
  }

  /** The first pass at target `i`, replayed over the survivors alone. */
  lemma SurvivorChoice(targets: seq<Quote>, live: seq<OpenOrder>, tol: Tolerance, i: nat, keep': set<string>)
    requires i < |targets|
    requires var keep := Kept(Greedy(targets, live, tol)[..i]);
      forall o :: o in live ==> (o.orderId in keep <==> o.orderId in keep')
    ensures var g := Greedy(targets, live, tol);
      FirstFit(ByKey(Survivors(live, Kept(g)), QuoteKey(targets[i])), targets[i], keep', tol) == g[i]
  {
    var g := Greedy(targets, live, tol);
    var keep, k := Kept(g[..i]), QuoteKey(targets[i]);
    GreedyPrefix(targets, live, tol, i);
    GreedyPrefix(targets, live, tol, i + 1);
    assert targets[..i + 1][..i] == targets[..i];
    assert g[i] == g[..i + 1][i] == FirstFit(ByKey(live, k), targets[i], keep, tol);
    if g[i].Some? {
      assert g[i].value.orderId in Kept(g);
    }
    FirstFitSurvivors(live, k, targets[i], Kept(g), keep, keep', tol);
  }

  /** One target of the second pass. */
  lemma SecondPassStep(targets: seq<Quote>, live: seq<OpenOrder>, tol: Tolerance, placed: seq<OpenOrder>,
                       after: seq<OpenOrder>, i: nat)
    requires UniqueIds(live) && tol.NonNegative() && Executed(after, targets, live, tol, placed)
    requires i < |targets| && Rank(Greedy(targets, live, tol), i) <= |placed|
    ensures var g := Greedy(targets, live, tol);
      var q := targets[i];
      FirstFit(ByKey(after, QuoteKey(q)), q, Kept(SecondPass(g, placed, i)), tol) ==
      if g[i].Some? then g[i] else if Rank(g, i) < |placed| then Some(placed[Rank(g, i)]) else None
  {
    var g := Greedy(targets, live, tol);
    var q := targets[i];
    var k := QuoteKey(q);
    var keep' := Kept(SecondPass(g, placed, i));
    SecondPassKept(g, placed, i);
    OldIdsAgree(live, placed, Kept(g[..i]), Rank(g, i));
    SurvivorChoice(targets, live, tol, i, keep');
    var survivors := Survivors(live, Kept(g));
    ByKeyConcat(survivors, placed, k);
    FirstFitConcat(ByKey(survivors, k), ByKey(placed, k), q, keep', tol);
    if g[i].None? {
      UnplacedAt(targets, g, i);
      PartnersAreLive(targets, live, tol);
      NotYetTaken(g, live, placed, i, Rank(g, i));
      FirstFitPlaced(placed, Rank(g, i), q, keep', tol);
    }
  }

  lemma OldIdsAgree(live: seq<OpenOrder>, placed: seq<OpenOrder>, keep: set<string>, r: nat)
    requires r <= |placed|
    requires forall o, p :: o in live && p in placed ==> o.orderId != p.orderId
    ensures forall o :: o in live ==>
              (o.orderId in keep <==> o.orderId in keep + set k | 0 <= k < r :: placed[k].orderId)
  {
    assert forall k :: 0 <= k < r ==> placed[k] in placed;
  }

  lemma PartnersAreLive(targets: seq<Quote>, live: seq<OpenOrder>, tol: Tolerance)
    ensures var g := Greedy(targets, live, tol); forall j :: 0 <= j < |g| && g[j].Some? ==> g[j].value in live
  {
    var g := Greedy(targets, live, tol);
    forall j | 0 <= j < |g| && g[j].Some?
      ensures g[j].value in live
    {
      GreedyFacts(targets, live, tol, j);
    }
  }

  lemma NotYetTaken(g: seq<Option<OpenOrder>>, live: seq<OpenOrder>, placed: seq<OpenOrder>, i: nat, r: nat)
    requires i <= |g| && Rank(g, i) == r < |placed|
    requires UniqueIds(placed)
    requires forall o, p :: o in live && p in placed ==> o.orderId != p.orderId
    requires forall j :: 0 <= j < |g| && g[j].Some? ==> g[j].value in live
    ensures placed[r].orderId !in Kept(SecondPass(g, placed, i))
  {
    SecondPassKept(g, placed, i);
    assert forall j :: 0 <= j < i && g[..i][j].Some? ==> g[..i][j] == g[j] && g[j].value in live;
    assert placed[r] in placed;
  }

  lemma {:induction false} SecondPassIsGreedy(targets: seq<Quote>, live: seq<OpenOrder>, tol: Tolerance,
                                              placed: seq<OpenOrder>, after: seq<OpenOrder>, i: nat)
    requires UniqueIds(live) && tol.NonNegative() && Executed(after, targets, live, tol, placed)
    requires i <= |targets|
    ensures Rank(Greedy(targets, live, tol), i) <= |placed|
    ensures Greedy(targets[..i], after, tol) == SecondPass(Greedy(targets, live, tol), placed, i)
  {
    var g := Greedy(targets, live, tol);
    UnplacedAt(targets, g, i);
    if i > 0 {
      SecondPassIsGreedy(targets, live, tol, placed, after, i - 1);
      SecondPassStep(targets, live, tol, placed, after, i - 1);
      var found := if g[i - 1].Some? then g[i - 1] else Some(placed[Rank(g, i - 1)]);
      GreedyStep(targets, after, tol, i - 1, found);
    }
  }

  lemma {:induction false} SurvivorMembers(live: seq<OpenOrder>, keep: set<string>)
    ensures forall o :: o in Survivors(live, keep) <==> o in live && o.orderId in keep
  {
    if live != [] {
      SurvivorMembers(live[1..], keep);
      assert live == [live[0]] + live[1..];
    }
  }

  /** QUIESCENCE: once a plan is executed in full, reconciling the same targets again does nothing. */
  lemma Quiescence(targets: seq<Quote>, live: seq<OpenOrder>, tol: Tolerance, placed: seq<OpenOrder>, after: seq<OpenOrder>)
    requires UniqueIds(live) && tol.NonNegative() && Executed(after, targets, live, tol, placed)
    ensures Plan(targets, after, tol).IsNoop()
  {
    var g := Greedy(targets, live, tol);
    var n := |targets|;
    SecondPassIsGreedy(targets, live, tol, placed, after, n);
    assert targets[..n] == targets && g[..n] == g;
    var g' := Greedy(targets, after, tol);
    SecondPassKept(g, placed, n);
    UnplacedAt(targets, g, n);
    forall i | 0 <= i < n
      ensures g'[i].Some?
    {
      SecondPassSome(g, placed, n, i);
    }
    NothingUnplaced(targets, g');
    forall o | o in after
      ensures o.orderId in Kept(g')
    {
      var k := KeyOf(o);
      var survivors := Survivors(live, Kept(g));
      ByKeyMembers(after, k);
      ByKeyMembers(survivors + placed, k);
      SurvivorMembers(live, Kept(g));
    }
    NothingDropped(after, Kept(g'));
  }

  lemma {:induction false} NothingUnplaced(targets: seq<Quote>, g: seq<Option<OpenOrder>>)
    requires |targets| == |g| && forall i :: 0 <= i < |g| ==> g[i].Some?
    ensures Unplaced(targets, g) == []
  {
    if targets != [] {
      NothingUnplaced(targets[..|targets| - 1], g[..|targets| - 1]);
    }
  }

  lemma {:induction false} NothingDropped(live: seq<OpenOrder>, keep: set<string>)
    requires forall o :: o in live ==> o.orderId in keep
    ensures Dropped(live, keep) == []
  {
    if live != [] {
      assert live[0] in live;
      NothingDropped(live[1..], keep);
    }
  }

  lemma {:induction false} SecondPassSome(g: seq<Option<OpenOrder>>, placed: seq<OpenOrder>, n: nat, i: nat)
    requires i < n <= |g| && Rank(g, n) <= |placed|
    ensures SecondPass(g, placed, n)[i].Some?
  {
    if i < n - 1 {
      SecondPassSome(g, placed, n - 1, i);
    }
  }

  // ── Exposure after a plan ────────────────────────────────────────────

  function SizeAt(orders: seq<OpenOrder>, k: Key): real {
    if orders == [] then 0.0
    else (if KeyOf(orders[0]) == k then orders[0].size else 0.0) + SizeAt(orders[1..], k)
  }

  function TargetSizeAt(targets: seq<Quote>, k: Key): real {
    if targets == [] then 0.0
    else
      var n := |targets| - 1;
      TargetSizeAt(targets[..n], k) + if QuoteKey(targets[n]) == k then targets[n].size else 0.0
  }

  function CountAt(targets: seq<Quote>, k: Key): nat {
    if targets == [] then 0
    else
      var n := |targets| - 1;
      CountAt(targets[..n], k) + if QuoteKey(targets[n]) == k then 1 else 0
  }

  lemma {:induction false} SizeAtByKey(orders: seq<OpenOrder>, k: Key)
    ensures SizeAt(ByKey(orders, k), k) == SizeAt(orders, k)
  {
    if orders != [] {
      SizeAtByKey(orders[1..], k);
      if KeyOf(orders[0]) == k {
        assert ByKey(orders, k)[1..] == ByKey(orders[1..], k);
      }
    }
  }

  lemma {:induction false} SizeAtConcat(a: seq<OpenOrder>, b: seq<OpenOrder>, k: Key)
    ensures SizeAt(a + b, k) == SizeAt(a, k) + SizeAt(b, k)
  {
    if a == [] {
      assert a + b == b;
    } else {
      assert (a + b)[1..] == a[1..] + b;
      SizeAtConcat(a[1..], b, k);
    }
  }

  lemma {:induction false} TargetSizeConcat(a: seq<Quote>, b: seq<Quote>, k: Key)
    ensures TargetSizeAt(a + b, k) == TargetSizeAt(a, k) + TargetSizeAt(b, k)
    ensures CountAt(a + b, k) == CountAt(a, k) + CountAt(b, k)
  {
    if b == [] {
      assert a + b == a;
    } else {
      var n := |b| - 1;
      assert (a + b)[..|a| + n] == a + b[..n];
      TargetSizeConcat(a, b[..n], k);
    }
  }

  /** Keeping one more order adds exactly its size. */
  lemma {:induction false} SurvivorSize(live: seq<OpenOrder>, keep: set<string>, o: OpenOrder, k: Key)
    requires UniqueIds(live) && o in live && o.orderId !in keep
    ensures SizeAt(Survivors(live, keep + {o.orderId}), k) ==
            SizeAt(Survivors(live, keep), k) + if KeyOf(o) == k then o.size else 0.0
  {
    var keep' := keep + {o.orderId};
    var rest := live[1..];
    assert live == [live[0]] + rest;
    assert ([live[0]] + Survivors(rest, keep'))[1..] == Survivors(rest, keep');
    assert ([live[0]] + Survivors(rest, keep))[1..] == Survivors(rest, keep);
    if live[0] == o {
      SurvivorsIgnore(rest, keep, o.orderId);
    } else {
      SurvivorSize(rest, keep, o, k);
    }
  }

  lemma {:induction false} SurvivorsIgnore(live: seq<OpenOrder>, keep: set<string>, id: string)
    requires forall o :: o in live ==> o.orderId != id
    ensures Survivors(live, keep + {id}) == Survivors(live, keep)
  {
    if live != [] {
      assert live == [live[0]] + live[1..];
      SurvivorsIgnore(live[1..], keep, id);
    }
  }

  /** Size kept or placed for the targets of one key. */
  function Promised(targets: seq<Quote>, live: seq<OpenOrder>, tol: Tolerance, k: Key): real {
    var g := Greedy(targets, live, tol);
    SizeAt(Survivors(live, Kept(g)), k) + TargetSizeAt(Unplaced(targets, g), k)
  }

  /** The last target adds the size of its partner, or its own. */
  lemma PromisedSnoc(targets: seq<Quote>, live: seq<OpenOrder>, tol: Tolerance, k: Key)
    requires UniqueIds(live) && targets != []
    ensures var n := |targets| - 1;
      var m := Greedy(targets, live, tol)[n];
      Promised(targets, live, tol, k) == Promised(targets[..n], live, tol, k) +
        if QuoteKey(targets[n]) != k then 0.0 else if m.Some? then m.value.size else targets[n].size
  {
    var n := |targets| - 1;
    var q := targets[n];
    var g := Greedy(targets, live, tol);
    var g0 := Greedy(targets[..n], live, tol);
    assert g[..n] == g0 && g == g0 + [g[n]];
    KeptSnoc(g0, g[n]);
    GreedyFacts(targets, live, tol, n);
    var u := Unplaced(targets[..n], g0);
    if g[n].Some? {
      SurvivorSize(live, Kept(g0), g[n].value, k);
      assert Unplaced(targets, g) == u;
    } else {
      assert (u + [q])[..|u|] == u;
    }
  }

  /** The most that may rest against one target: its size, the resize tolerance and the guard. */
  function Cap(q: Quote, tol: Tolerance): real {
    q.size + tol.resizeFrac * q.size + EPS
  }

  function CapAt(targets: seq<Quote>, tol: Tolerance, k: Key): real {
    if targets == [] then 0.0
    else
      var n := |targets| - 1;
      CapAt(targets[..n], tol, k) + if QuoteKey(targets[n]) == k then Cap(targets[n], tol) else 0.0
  }

  lemma PartnerCap(targets: seq<Quote>, live: seq<OpenOrder>, tol: Tolerance, i: nat)
    requires i < |targets| && targets[i].size > 0.0 && tol.NonNegative()
    ensures targets[i].size <= Cap(targets[i], tol)
    ensures var m := Greedy(targets, live, tol)[i]; m.Some? ==> m.value.size <= Cap(targets[i], tol)
  {
    GreedyFacts(targets, live, tol, i);
    MulNonNegative(tol.resizeFrac, targets[i].size);
  }

  lemma {:induction false} PromisedSize(targets: seq<Quote>, live: seq<OpenOrder>, tol: Tolerance, k: Key)
    requires UniqueIds(live) && tol.NonNegative()
    requires forall q :: q in targets && QuoteKey(q) == k ==> q.size > 0.0
    ensures Promised(targets, live, tol, k) <= CapAt(targets, tol, k)
  {
    if targets == [] {
      NoSurvivors(live);
    } else {
      var n := |targets| - 1;
      assert forall p :: p in targets[..n] ==> p in targets;
      PromisedSize(targets[..n], live, tol, k);
      PromisedSnoc(targets, live, tol, k);
      if QuoteKey(targets[n]) == k {
        assert targets[n] in targets;
        PartnerCap(targets, live, tol, n);
      }
    }
  }

  lemma {:induction false} CapTotal(targets: seq<Quote>, tol: Tolerance, k: Key)
    ensures CapAt(targets, tol, k) == (1.0 + tol.resizeFrac) * TargetSizeAt(targets, k) + CountAt(targets, k) as real * EPS
  {
    if targets != [] {
      var n := |targets| - 1;
      CapTotal(targets[..n], tol, k);
      var (a, size, frac) := (TargetSizeAt(targets[..n], k), targets[n].size, tol.resizeFrac);
      assert (1.0 + frac) * (a + size) == (1.0 + frac) * a + (size + frac * size);
      assert (CountAt(targets[..n], k) + 1) as real * EPS == CountAt(targets[..n], k) as real * EPS + EPS;
    }
  }

  lemma {:induction false} NoSurvivors(live: seq<OpenOrder>)
    ensures Survivors(live, Kept([])) == []
  {
    if live != [] {
      NoSurvivors(live[1..]);
    }
  }

  lemma {:induction false} PlacedSize(placed: seq<OpenOrder>, quotes: seq<Quote>, k: Key)
    requires |placed| == |quotes|
    requires forall i :: 0 <= i < |placed| ==> KeyOf(placed[i]) == QuoteKey(quotes[i]) && placed[i].size == quotes[i].size
    ensures SizeAt(placed, k) == TargetSizeAt(quotes, k)
  {
    if placed != [] {
      var n := |placed| - 1;
      PlacedSize(placed[..n], quotes[..n], k);
      assert placed == placed[..n] + [placed[n]];
      SizeAtConcat(placed[..n], [placed[n]], k);
    }
  }

  /** EXPOSURE: after any executed plan the live size of a token and side exceeds what the targets ask for
      by the resize tolerance at most (and the guard, once per target). */
  lemma ExposureBound(targets: seq<Quote>, live: seq<OpenOrder>, tol: Tolerance, placed: seq<OpenOrder>,
                      after: seq<OpenOrder>, k: Key)
    requires UniqueIds(live) && tol.NonNegative() && Executed(after, targets, live, tol, placed)
    requires forall q :: q in targets && QuoteKey(q) == k ==> q.size > 0.0
    ensures SizeAt(after, k) <= (1.0 + tol.resizeFrac) * TargetSizeAt(targets, k) + CountAt(targets, k) as real * EPS
  {
    var g := Greedy(targets, live, tol);
    var survivors := Survivors(live, Kept(g));
    PromisedSize(targets, live, tol, k);
    CapTotal(targets, tol, k);
    PlacedSize(placed, Unplaced(targets, g), k);
    SizeAtByKey(after, k);
    SizeAtByKey(survivors + placed, k);
    SizeAtConcat(survivors, placed, k);
  }
}
