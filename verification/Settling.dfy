/** A recompute that goes through settles the market: the store then shows exactly the executed plan
    (src/polymaker/engine.py, _recompute_locked). */
module Settling {
  import opened Domain
  import opened Dict
  import opened OrderMaps
  import opened Reconciler
  import opened Execution
  import P = OrderProtocol

  /** The orders after the cancelled ids are removed and the acknowledged ones recorded. */
  function Settled(orders: Orders, plan: ReconcilePlan, placed: seq<OpenOrder>): Orders {
    UpsertAll(PopAll(orders, plan.toCancel), placed)
  }

  // ── Removing ─────────────────────────────────────────────────────────

  lemma {:induction false} OrdersForConcat(a: Orders, b: Orders, token: string)
    ensures OrdersFor(a + b, token) == OrdersFor(a, token) + OrdersFor(b, token)
  {
    if b == [] {
      assert a + b == a;
    } else {
      var n := |b| - 1;
      assert (a + b)[..|a| + n] == a + b[..n];
      OrdersForConcat(a, b[..n], token);
    }
  }

  lemma OrdersForSingle(e: (string, OpenOrder), token: string)
    ensures OrdersFor([e], token) == if e.1.tokenId == token then [e.1] else []
  {
    assert [e][..0] == [];
  }

  /** The view without some ids. */
  function Without(view: seq<OpenOrder>, gone: set<string>): seq<OpenOrder> {
    if view == [] then []
    else if view[0].orderId in gone then Without(view[1..], gone)
    else [view[0]] + Without(view[1..], gone)
  }

  lemma {:induction false} WithoutConcat(a: seq<OpenOrder>, b: seq<OpenOrder>, gone: set<string>)
    ensures Without(a + b, gone) == Without(a, gone) + Without(b, gone)
  {
    if a == [] {
      assert a + b == b;
    } else {
      assert (a + b)[1..] == a[1..] + b;
      WithoutConcat(a[1..], b, gone);
    }
  }

  lemma {:induction false} WithoutOneMore(view: seq<OpenOrder>, gone: set<string>, id: string)
    ensures Without(Without(view, gone), {id}) == Without(view, gone + {id})
  {
    if view != [] {
      WithoutOneMore(view[1..], gone, id);
      if view[0].orderId !in gone {
        assert ([view[0]] + Without(view[1..], gone))[1..] == Without(view[1..], gone);
      }
    }
  }

  lemma {:induction false} WithoutNone(view: seq<OpenOrder>)
    ensures Without(view, {}) == view
  {
    if view != [] {
      WithoutNone(view[1..]);
    }
  }

  lemma NothingWithout(token: string, gone: set<string>)
    ensures OrdersFor([], token) == Without([], gone) == []
  {
  }

  lemma WithoutSingle(view: seq<OpenOrder>, id: string)
    requires |view| <= 1
    ensures Without(view, {id}) == if view != [] && view[0].orderId == id then [] else view
  {
    if view != [] {
      assert view == [view[0]] && Without(view[1..], {id}) == [];
    }
  }

  lemma {:induction false} ViewAfterPop(orders: Orders, id: string, token: string)
    requires forall i :: 0 <= i < |orders| ==> orders[i].0 == orders[i].1.orderId
    ensures OrdersFor(Pop(orders, id), token) == Without(OrdersFor(orders, token), {id})
  {
    hide OrdersFor, Without;
    if orders == [] {
      NothingWithout(token, {id});
    } else {
      var e, rest := orders[0], orders[1..];
      assert orders == [e] + rest;
      ViewAfterPop(rest, id, token);
      OrdersForConcat([e], rest, token);
      OrdersForSingle(e, token);
      WithoutSingle(OrdersFor([e], token), id);
      WithoutConcat(OrdersFor([e], token), OrdersFor(rest, token), {id});
      if e.0 != id {
        OrdersForConcat([e], Pop(rest, id), token);
      } else {
        assert [] + Without(OrdersFor(rest, token), {id}) == Without(OrdersFor(rest, token), {id});
      }
    }
  }

  lemma {:induction false} ViewAfterPopAll(orders: Orders, ids: seq<string>, token: string)
    requires WellFiled(orders)
    ensures OrdersFor(PopAll(orders, ids), token) == Without(OrdersFor(orders, token), set id | id in ids)
  {
    if ids == [] {
      assert (set id | id in ids) == {};
      WithoutNone(OrdersFor(orders, token));
    } else {
      var n := |ids| - 1;
      var gone := set id | id in ids[..n];
      ViewAfterPopAll(orders, ids[..n], token);
      FiledPopAll(orders, ids[..n]);
      ViewAfterPop(PopAll(orders, ids[..n]), ids[n], token);
      WithoutOneMore(OrdersFor(orders, token), gone, ids[n]);
      assert ids == ids[..n] + [ids[n]];
      assert gone + {ids[n]} == set id | id in ids;
    }
  }

  lemma {:induction false} WithoutIsSurvivors(view: seq<OpenOrder>, gone: set<string>, keep: set<string>)
    requires forall o :: o in view ==> (o.orderId in keep <==> o.orderId !in gone)
    ensures Without(view, gone) == Survivors(view, keep)
  {
    if view != [] {
      assert view[0] in view;
      assert forall o :: o in view[1..] ==> o in view;
      WithoutIsSurvivors(view[1..], gone, keep);
    }
  }

  // ── Recording ────────────────────────────────────────────────────────

  lemma RecordNew(orders: Orders, o: OpenOrder)
    requires Unique(orders) && Get(orders, o.orderId).None? && o.state == LIVE
    ensures UpsertOrder(orders, o) == orders + [(o.orderId, o)]
  {
    PutUnique(orders, o.orderId, o);
  }

  lemma {:induction false} ViewAfterUpsertAll(orders: Orders, placed: seq<OpenOrder>, token: string)
    requires WellFiled(orders) && UniqueIds(placed)
    requires forall o :: o in placed ==> o.state == LIVE && Get(orders, o.orderId).None?
    ensures OrdersFor(UpsertAll(orders, placed), token) == OrdersFor(orders, token) + P.OfToken(placed, token)
  {
    hide UpsertOrder, OrdersFor;
    if placed != [] {
      var n := |placed| - 1;
      var o, before := placed[n], UpsertAll(orders, placed[..n]);
      assert placed[n] in placed && forall p :: p in placed[..n] ==> p in placed;
      ViewAfterUpsertAll(orders, placed[..n], token);
      FiledUpsertAll(orders, placed[..n]);
      GetUpsertAll(orders, placed[..n], o.orderId);
      assert o.orderId !in IdsOf(placed[..n]);
      RecordNew(before, o);
      OrdersForConcat(before, [(o.orderId, o)], token);
      OrdersForSingle((o.orderId, o), token);
      var view, some := OrdersFor(orders, token), P.OfToken(placed[..n], token);
      assert OrdersFor(UpsertAll(orders, placed), token) ==
             (view + some) + if o.tokenId == token then [o] else [];
      assert P.OfToken(placed, token) == some + if o.tokenId == token then [o] else [];
    } else {
      assert OrdersFor(orders, token) + [] == OrdersFor(orders, token);
    }
  }

  // ── One key at a time ────────────────────────────────────────────────

  lemma {:induction false} ByKeyOther(view: seq<OpenOrder>, k: Key)
    requires forall o :: o in view ==> KeyOf(o) != k
    ensures ByKey(view, k) == []
  {
    if view != [] {
      assert view[0] in view;
      assert forall o :: o in view[1..] ==> o in view;
      ByKeyOther(view[1..], k);
    }
  }

  lemma {:induction false} ByKeyOfToken(placed: seq<OpenOrder>, token: string, k: Key)
    ensures ByKey(P.OfToken(placed, token), k) == if k.0 == token then ByKey(placed, k) else []
  {
    if placed != [] {
      var n := |placed| - 1;
      var o := placed[n];
      ByKeyOfToken(placed[..n], token, k);
      assert placed == placed[..n] + [o];
      ByKeyConcat(placed[..n], [o], k);
      if o.tokenId == token {
        ByKeyConcat(P.OfToken(placed[..n], token), [o], k);
      } else {
        assert P.OfToken(placed[..n], token) + [] == P.OfToken(placed[..n], token);
      }
      assert ByKey([o], k) == if KeyOf(o) == k then [o] else [] by { assert [o][1..] == []; }
    }
  }

  lemma SurvivorsOfView(orders: Orders, t: P.Tokens, ids: seq<string>, keep: set<string>, token: string)
    requires WellFiled(orders) && token in {t.yes, t.no}
    requires ids == Dropped(P.View(orders, t), keep)
    ensures OrdersFor(PopAll(orders, ids), token) == Survivors(OrdersFor(orders, token), keep)
  {
    var view := P.View(orders, t);
    ViewAfterPopAll(orders, ids, token);
    DroppedMembers(view, keep);
    forall o | o in OrdersFor(orders, token)
      ensures o.orderId in keep <==> o.orderId !in (set id | id in ids)
    {
      assert o in view;
    }
    WithoutIsSurvivors(OrdersFor(orders, token), (set id | id in ids), keep);
  }

  lemma {:induction false} SurvivorsConcat(a: seq<OpenOrder>, b: seq<OpenOrder>, keep: set<string>)
    ensures Survivors(a + b, keep) == Survivors(a, keep) + Survivors(b, keep)
  {
    if a == [] {
      assert a + b == b;
    } else {
      assert (a + b)[1..] == a[1..] + b;
      SurvivorsConcat(a[1..], b, keep);
    }
  }

  lemma SurvivorsElsewhere(orders: Orders, token: string, keep: set<string>, k: Key)
    requires k.0 != token
    ensures ByKey(Survivors(OrdersFor(orders, token), keep), k) == []
  {
    OrdersForMembers(orders, token);
    SurvivorMembers(OrdersFor(orders, token), keep);
    ByKeyOther(Survivors(OrdersFor(orders, token), keep), k);
  }

  /** Every quote is for one of the market's tokens. */
  ghost predicate ForMarket(targets: seq<Quote>, t: P.Tokens) {
    forall q :: q in targets ==> q.tokenId == t.yes || q.tokenId == t.no
  }

  lemma PlacedForMarket(targets: seq<Quote>, live: seq<OpenOrder>, tol: Tolerance, t: P.Tokens, placed: seq<OpenOrder>)
    requires ForMarket(targets, t) && PlacedFor(placed, Plan(targets, live, tol).toPlace, live)
    ensures forall o :: o in placed ==> o.tokenId == t.yes || o.tokenId == t.no
  {
    UnplacedMembers(targets, Greedy(targets, live, tol));
    forall o | o in placed
      ensures o.tokenId == t.yes || o.tokenId == t.no
    {
      var i :| 0 <= i < |placed| && placed[i] == o;
      var q := Plan(targets, live, tol).toPlace[i];
      assert q in Unplaced(targets, Greedy(targets, live, tol));
      assert q in targets;
    }
  }

  /** The whole plan went through: every placed quote was acknowledged under an id the store does not know. */
  ghost predicate WentThrough(orders: Orders, plan: ReconcilePlan, view: seq<OpenOrder>, placed: seq<OpenOrder>) {
    && PlacedFor(placed, plan.toPlace, view)
    && forall o :: o in placed ==> o.state == LIVE && Get(orders, o.orderId).None?
  }

  /** What the store shows afterwards is the executed plan. */
  lemma SettledIsExecuted(orders: Orders, t: P.Tokens, targets: seq<Quote>, tol: Tolerance, placed: seq<OpenOrder>)
    requires WellFiled(orders) && t.yes != t.no && ForMarket(targets, t)
    requires WentThrough(orders, Plan(targets, P.View(orders, t), tol), P.View(orders, t), placed)
    ensures Executed(P.View(Settled(orders, Plan(targets, P.View(orders, t), tol), placed), t), targets, P.View(orders, t),
                     tol, placed)
  {
    var view := P.View(orders, t);
    var keep, ids := Kept(Greedy(targets, view, tol)), Plan(targets, view, tol).toCancel;
    var after := P.View(Settled(orders, Plan(targets, view, tol), placed), t);
    var a, b := Survivors(OrdersFor(orders, t.yes), keep), Survivors(OrdersFor(orders, t.no), keep);
    SurvivorsOfView(orders, t, ids, keep, t.yes);
    SurvivorsOfView(orders, t, ids, keep, t.no);
    FiledPopAll(orders, ids);
    forall o | o in placed
      ensures Get(PopAll(orders, ids), o.orderId).None?
    {
      GetPopAll(orders, ids, o.orderId);
    }
    ViewAfterUpsertAll(PopAll(orders, ids), placed, t.yes);
    ViewAfterUpsertAll(PopAll(orders, ids), placed, t.no);
    SurvivorsConcat(OrdersFor(orders, t.yes), OrdersFor(orders, t.no), keep);
    PlacedForMarket(targets, view, tol, t, placed);
    forall k
      ensures ByKey(after, k) == ByKey(Survivors(view, keep) + placed, k)
    {
      SameKey(orders, t, keep, placed, k);
    }
  }

  lemma SameKey(orders: Orders, t: P.Tokens, keep: set<string>, placed: seq<OpenOrder>, k: Key)
    requires t.yes != t.no && forall o :: o in placed ==> o.tokenId == t.yes || o.tokenId == t.no
    ensures var a, b := Survivors(OrdersFor(orders, t.yes), keep), Survivors(OrdersFor(orders, t.no), keep);
      ByKey((a + P.OfToken(placed, t.yes)) + (b + P.OfToken(placed, t.no)), k) == ByKey((a + b) + placed, k)
  {
    hide Survivors, OrdersFor, P.OfToken, ByKey;
    var a, b := Survivors(OrdersFor(orders, t.yes), keep), Survivors(OrdersFor(orders, t.no), keep);
    ByKeyConcat(a + P.OfToken(placed, t.yes), b + P.OfToken(placed, t.no), k);
    ByKeyConcat(a, P.OfToken(placed, t.yes), k);
    ByKeyConcat(b, P.OfToken(placed, t.no), k);
    ByKeyConcat(a + b, placed, k);
    ByKeyConcat(a, b, k);
    ByKeyOfToken(placed, t.yes, k);
    ByKeyOfToken(placed, t.no, k);
    if k.0 != t.yes {
      SurvivorsElsewhere(orders, t.yes, keep, k);
    }
    if k.0 != t.no {
      SurvivorsElsewhere(orders, t.no, keep, k);
    }
    if k.0 != t.yes && k.0 != t.no {
      ByKeyOther(placed, k);
    }
  }

  /** The engine's own steps for a plan that goes through: cancel, forget, place, record. */
  function StepsThrough(s: P.State, ms: map<string, P.Tokens>, cid: string, plan: ReconcilePlan, placed: seq<OpenOrder>): P.State {
    var planned := P.Apply(s, ms, P.Step.Plan(cid, plan, false));
    var cancelled := if plan.toCancel == [] then planned else P.Apply(planned, ms, P.CancelReturns(cid, true, false));
    if plan.toPlace == [] then cancelled else P.Apply(cancelled, ms, P.PlaceReturns(cid, placed, false))
  }

  /** Taken without anything in between they release the lock and leave the settled orders. */
  lemma StepsSettle(s: P.State, ms: map<string, P.Tokens>, cid: string, plan: ReconcilePlan, placed: seq<OpenOrder>)
    requires P.PhaseOf(s, cid).Idle? && |placed| == |plan.toPlace|
    ensures StepsThrough(s, ms, cid, plan, placed).orders == Settled(s.orders, plan, placed)
    ensures P.PhaseOf(StepsThrough(s, ms, cid, plan, placed), cid).Idle?
  {
    hide UpsertAll, PopAll;
    NothingToDo(s.orders);
    NothingToDo(PopAll(s.orders, plan.toCancel));
  }

  lemma NothingToDo(orders: Orders)
    ensures PopAll(orders, []) == orders && UpsertAll(orders, []) == orders
  {
  }

  /** SETTLING: when a recompute's cancels and placements all go through, the next recompute for the same targets has
      nothing to do. */
  lemma NextRecomputeIsIdle(orders: Orders, t: P.Tokens, targets: seq<Quote>, tol: Tolerance, placed: seq<OpenOrder>)
    requires WellFiled(orders) && t.yes != t.no && ForMarket(targets, t) && tol.NonNegative()
    requires WentThrough(orders, Plan(targets, P.View(orders, t), tol), P.View(orders, t), placed)
    ensures Plan(targets, P.View(Settled(orders, Plan(targets, P.View(orders, t), tol), placed), t), tol).IsNoop()
  {
    var view := P.View(orders, t);
    P.ViewUnique(orders, t);
    SettledIsExecuted(orders, t, targets, tol, placed);
    Quiescence(targets, view, tol, placed, P.View(Settled(orders, Plan(targets, view, tol), placed), t));
  }

  /** So the engine's own steps for the plan of some targets leave nothing to do for the same targets. */
  lemma RecomputeSettles(s: P.State, ms: map<string, P.Tokens>, cid: string, targets: seq<Quote>, tol: Tolerance,
                         placed: seq<OpenOrder>)
    requires P.Sound(s) && cid in ms && ms[cid].yes != ms[cid].no && P.PhaseOf(s, cid).Idle?
    requires ForMarket(targets, ms[cid]) && tol.NonNegative()
    requires WentThrough(s.orders, Plan(targets, P.View(s.orders, ms[cid]), tol), P.View(s.orders, ms[cid]), placed)
    ensures var plan := Plan(targets, P.View(s.orders, ms[cid]), tol);
      Plan(targets, P.View(StepsThrough(s, ms, cid, plan, placed).orders, ms[cid]), tol).IsNoop()
  {
    hide StepsThrough;
    var plan := Plan(targets, P.View(s.orders, ms[cid]), tol);
    StepsSettle(s, ms, cid, plan, placed);
    NextRecomputeIsIdle(s.orders, ms[cid], targets, tol, placed);
  }
}
