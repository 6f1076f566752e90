/** The engine's own code between awaits (src/polymaker/engine.py), each piece proved to be one step
    of the order protocol. Gateway calls and reads happen between the pieces; their results are arguments. */
module Engine {
  import opened Domain
  import opened Dict
  import opened OrderMaps
  import P = OrderProtocol
  import R = Reconciler
  import L = Ledgers
  import opened StateStore

  class Engine {
    const store: StateStore
    const markets: map<string, P.Tokens>
    var phase: map<string, P.Phase>
    var softStreak: map<string, nat>

    constructor (store: StateStore, markets: map<string, P.Tokens>)
      ensures this.store == store && this.markets == markets && phase == map[] && softStreak == map[]
    {
      this.store, this.markets, phase, softStreak := store, markets, map[], map[];
    }

    /** The engine's part of the protocol state is `s`. */
    ghost predicate Shows(s: P.State)
      reads this, store
    {
      s.orders == store.orders && s.phase == phase && s.streak == softStreak
    }

    /** `_recompute_locked` up to its first gateway call. */
    method Recompute(cid: string, targets: seq<Quote>, tol: R.Tolerance, shed: bool, ghost s: P.State)
      returns (plan: R.ReconcilePlan)
      requires Shows(s) && s.live <= s.used.Keys && cid in markets && P.PhaseOf(s, cid).Idle?
      modifies this`phase
      ensures plan == R.Plan(targets, P.View(store.orders, markets[cid]), tol)
      ensures P.Enabled(s, markets, P.Plan(cid, plan, shed))
      ensures Shows(P.Apply(s, markets, P.Plan(cid, plan, shed)))
    {
      var yes := store.OrdersFor(markets[cid].yes);
      var no := store.OrdersFor(markets[cid].no);
      plan := R.Reconcile(targets, yes + no, tol);
      ghost var live := P.View(store.orders, markets[cid]);
      R.DroppedMembers(live, R.Kept(R.Greedy(targets, live, tol)));
      if plan.toCancel != [] {
        phase := phase[cid := P.Cancelling(plan.toCancel, |plan.toPlace|)];
      } else if plan.toPlace != [] {
        phase := phase[cid := if shed then P.Idle else P.Placing(|plan.toPlace|)];
      }
    }

    /** After `gateway.cancel`: forget on success, resync and skip placing on failure. */
    method CancelReturned(cid: string, ok: bool, shed: bool, ghost s: P.State)
      requires Shows(s) && P.PhaseOf(s, cid).Cancelling?
      modifies this`phase, store`orders
      ensures Shows(P.Apply(s, markets, P.CancelReturns(cid, ok, shed)))
    {
      var p := phase[cid];
      if !ok {
        phase := phase[cid := P.Refreshing(P.GRACE, None)];
        return;
      }
      for i := 0 to |p.ids|
        invariant store.orders == PopAll(old(store.orders), p.ids[..i])
        invariant phase == old(phase)
      {
        assert p.ids[..i + 1][..i] == p.ids[..i];
        store.RemoveOrder(p.ids[i]);
      }
      assert p.ids[..|p.ids|] == p.ids;
      if p.toPlace > 0 && !shed {
        phase := phase[cid := P.Placing(p.toPlace)];
      } else {
        phase := phase[cid := P.Idle];
      }
    }

    /** After `gateway.place`: record what was acknowledged, then soft recovery, quarantine or done. */
    method PlaceReturned(cid: string, placed: seq<OpenOrder>, soft: bool, ghost s: P.State)
      requires Shows(s) && P.PhaseOf(s, cid).Placing?
      modifies this`phase, this`softStreak, store`orders
      ensures Shows(P.Apply(s, markets, P.PlaceReturns(cid, placed, soft)))
    {
      var count := phase[cid].count;
      for i := 0 to |placed|
        invariant store.orders == UpsertAll(old(store.orders), placed[..i])
        invariant phase == old(phase) && softStreak == old(softStreak)
      {
        assert placed[..i + 1][..i] == placed[..i];
        store.UpsertOrder(placed[i]);
      }
      assert placed[..|placed|] == placed;
      if soft {
        var streak := (if cid in softStreak then softStreak[cid] else 0) + 1;
        softStreak := softStreak[cid := streak];
        if streak >= P.SOFT_LIMIT {
          phase := phase[cid := P.WipingYes];
        } else {
          phase := phase[cid := P.Refreshing(P.GRACE, None)];
        }
      } else {
        softStreak := softStreak[cid := 0];
        if |placed| < count {
          phase := phase[cid := P.WipingYes];
        } else {
          phase := phase[cid := P.Idle];
        }
      }
    }

    /** `_quarantine` after one `cancel_asset`, whatever it returned. */
    method AssetCancelled(cid: string, ghost s: P.State)
      requires Shows(s) && cid in markets && (P.PhaseOf(s, cid).WipingYes? || P.PhaseOf(s, cid).WipingNo?)
      modifies this`phase, store`orders
      ensures Shows(P.Apply(s, markets, P.WipeReturns(cid)))
    {
      hide P.AdoptBoth, UpsertAll, OrdersFor;
      var first := phase[cid].WipingYes?;
      var view := store.OrdersFor(if first then markets[cid].yes else markets[cid].no);
      for i := 0 to |view|
        invariant store.orders == PopAll(old(store.orders), Ids(view[..i]))
        invariant phase == old(phase)
      {
        assert view[..i + 1][..i] == view[..i];
        store.RemoveOrder(view[i].orderId);
      }
      assert view[..|view|] == view;
      phase := phase[cid := if first then P.WipingNo else P.Refreshing(0.0, None)];
    }

    method Filter(live: seq<OpenOrder>, token: string) returns (r: seq<OpenOrder>)
      ensures r == P.OfToken(live, token)
    {
      r := [];
      for i := 0 to |live|
        invariant r == P.OfToken(live[..i], token)
      {
        assert live[..i + 1][..i] == live[..i];
        if live[i].tokenId == token {
          r := r + [live[i]];
        }
      }
      assert live[..|live|] == live;
    }

    /** `_refresh_token_orders` once its read has returned: both tokens take the snapshot over. */
    method TakeOver(cid: string, snap: P.Snapshot, grace: real, now: real)
      requires cid in markets
      modifies store`orders
      ensures store.orders == P.AdoptBoth(old(store.orders), markets[cid], snap, grace, now)
    {
      var yes := Filter(snap.live, markets[cid].yes);
      store.ReplaceOpenOrders(markets[cid].yes, yes, grace, now);
      var no := Filter(snap.live, markets[cid].no);
      store.ReplaceOpenOrders(markets[cid].no, no, grace, now);
    }

    /** The read of a resync or a quarantine has returned. */
    method OrdersReturned(cid: string, live: seq<OpenOrder>, now: real, ghost s: P.State)
      requires Shows(s) && s.now == now && P.PhaseOf(s, cid).Refreshing?
      modifies this`phase
      ensures Shows(P.Apply(s, markets, P.RefreshRead(cid, live)))
    {
      phase := phase[cid := P.Refreshing(phase[cid].grace, Some(P.Snapshot(now, live)))];
    }

    /** The end of a resync or a quarantine: the read is applied and the lock released. */
    method TokenOrdersRead(cid: string, now: real, ghost s: P.State)
      requires Shows(s) && s.now == now && cid in markets
      requires P.PhaseOf(s, cid).Refreshing? && P.PhaseOf(s, cid).read.Some?
      modifies this`phase, store`orders
      ensures Shows(P.Apply(s, markets, P.RefreshApply(cid)))
    {
      var p := phase[cid];
      TakeOver(cid, p.read.value, p.grace, now);
      phase := phase[cid := P.Idle];
    }

    /** Heartbeat recovery first forgets everything, the exchange having cancelled it. */
    method HeartbeatRecovered(ghost s: P.State)
      requires Shows(s)
      modifies store`orders
      ensures Shows(P.Apply(s, markets, P.ServerWiped))
    {
      store.ClearOrders();
    }

    /** Then it reads every market back, holding no lock. */
    method RecoveryOrdersRead(cid: string, read: P.Snapshot, now: real, ghost s: P.State)
      requires Shows(s) && s.now == now && cid in markets && s.recovery == Some(read)
      modifies store`orders
      ensures Shows(P.Apply(s, markets, P.RecoveryApply(cid)))
    {
      TakeOver(cid, read, 0.0, now);
    }

    /** The body of the reconcile loop for one market, its lock free; tokens with trades in flight are skipped. */
    method ReconcileMarket(cid: string, read: P.Snapshot, now: real, ghost s: P.State)
      requires Shows(s) && s.now == now && cid in markets && s.loop == Some(read)
      modifies store`orders
      ensures Shows(P.Apply(s, markets, P.LoopApply(cid,
                old(L.Count(store.inflight, markets[cid].yes)) == 0, old(L.Count(store.inflight, markets[cid].no)) == 0)))
    {
      if L.Count(store.inflight, markets[cid].yes) == 0 {
        var yes := Filter(read.live, markets[cid].yes);
        store.ReplaceOpenOrders(markets[cid].yes, yes, P.GRACE, now);
      }
      if L.Count(store.inflight, markets[cid].no) == 0 {
        var no := Filter(read.live, markets[cid].no);
        store.ReplaceOpenOrders(markets[cid].no, no, P.GRACE, now);
      }
    }
  }
}
