/** The local view of our open orders as a value (src/polymaker/state/store.py, orders). */
module OrderMaps {
  import opened Domain
  import opened Dict

  type Orders = Dict<string, OpenOrder>

  /** Each order is filed under its own id, once. */
  ghost predicate WellFiled(orders: Orders) {
    Unique(orders) && forall i :: 0 <= i < |orders| ==> orders[i].0 == orders[i].1.orderId
  }

  function OrdersFor(orders: Orders, token: string): seq<OpenOrder> {
    if orders == [] then []
    else
      var n := |orders| - 1;
      OrdersFor(orders[..n], token) + if orders[n].1.tokenId == token then [orders[n].1] else []
  }

  function UpsertOrder(orders: Orders, o: OpenOrder): Orders {
    if o.state in {CANCELED, DONE, REJECTED} then Pop(orders, o.orderId) else Put(orders, o.orderId, o)
  }

  function IdsOf(live: seq<OpenOrder>): set<string> {
    set o | o in live :: o.orderId
  }

  /** Ids that a snapshot `live` read as of `now` retires: absent from it and not younger than the grace. */
  function Retired(view: seq<OpenOrder>, ids: set<string>, grace: real, now: real): seq<string> {
    if view == [] then []
    else
      var n := |view| - 1;
      var o := view[n];
      Retired(view[..n], ids, grace, now) +
      if o.orderId !in ids && now - o.createdTs >= grace then [o.orderId] else []
  }

  function PopAll(orders: Orders, ids: seq<string>): Orders {
    if ids == [] then orders else Pop(PopAll(orders, ids[..|ids| - 1]), ids[|ids| - 1])
  }

  function PutAll(orders: Orders, live: seq<OpenOrder>): Orders {
    if live == [] then orders
    else
      var o := live[|live| - 1];
      Put(PutAll(orders, live[..|live| - 1]), o.orderId, o)
  }

  function ReplaceOpenOrders(orders: Orders, token: string, live: seq<OpenOrder>, grace: real, now: real): Orders {
    PutAll(PopAll(orders, Retired(OrdersFor(orders, token), IdsOf(live), grace, now)), live)
  }

  /** Local effect of `upsert_order` for each acknowledged order in turn. */
  function UpsertAll(orders: Orders, placed: seq<OpenOrder>): Orders {
    if placed == [] then orders
    else UpsertOrder(UpsertAll(orders, placed[..|placed| - 1]), placed[|placed| - 1])
  }

  /** Local effect of forgetting a whole token (`_quarantine`). */
  function Forget(orders: Orders, token: string): Orders {
    PopAll(orders, Ids(OrdersFor(orders, token)))
  }

  function Ids(view: seq<OpenOrder>): seq<string> {
    if view == [] then [] else Ids(view[..|view| - 1]) + [view[|view| - 1].orderId]
  }

  // ── Lookup after each operation ──────────────────────────────────────

  lemma {:induction false} GetPopAll(orders: Orders, ids: seq<string>, id: string)
    ensures Get(PopAll(orders, ids), id) == if id in ids then None else Get(orders, id)
  {
    if ids != [] {
      var n := |ids| - 1;
      assert ids == ids[..n] + [ids[n]];
      GetPopAll(orders, ids[..n], id);
      GetPop(PopAll(orders, ids[..n]), ids[n], id);
    }
  }

  lemma {:induction false} GetPutAll(orders: Orders, live: seq<OpenOrder>, id: string)
    ensures var r := Get(PutAll(orders, live), id);
      if id in IdsOf(live) then r.Some? && r.value in live && r.value.orderId == id
      else r == Get(orders, id)
  {
    if live != [] {
      var n := |live| - 1;
      assert live == live[..n] + [live[n]];
      GetPutAll(orders, live[..n], id);
      GetPut(PutAll(orders, live[..n]), live[n].orderId, live[n], id);
    }
  }

  lemma {:induction false} OrdersForMembers(orders: Orders, token: string)
    ensures forall o :: o in OrdersFor(orders, token) ==> o.tokenId == token && exists i :: 0 <= i < |orders| && orders[i].1 == o
    ensures forall i :: 0 <= i < |orders| && orders[i].1.tokenId == token ==> orders[i].1 in OrdersFor(orders, token)
  {
    if orders != [] {
      var n := |orders| - 1;
      OrdersForMembers(orders[..n], token);
      assert forall i :: 0 <= i < n ==> orders[..n][i] == orders[i];
    }
  }

  lemma {:induction false} RetiredMembers(view: seq<OpenOrder>, ids: set<string>, grace: real, now: real)
    ensures forall id :: id in Retired(view, ids, grace, now) <==>
              exists o :: o in view && o.orderId == id && id !in ids && now - o.createdTs >= grace
  {
    if view != [] {
      var n := |view| - 1;
      RetiredMembers(view[..n], ids, grace, now);
      assert view == view[..n] + [view[n]];
      forall id | id in Retired(view[..n], ids, grace, now)
        ensures exists o :: o in view && o.orderId == id && id !in ids && now - o.createdTs >= grace
      {
        var o :| o in view[..n] && o.orderId == id && id !in ids && now - o.createdTs >= grace;
        assert o in view;
      }
      forall o | o in view && o.orderId !in ids && now - o.createdTs >= grace
        ensures o.orderId in Retired(view, ids, grace, now)
      {
        if o != view[n] {
          assert o in view[..n];
        }
      }
    }
  }

  lemma WellFiledGet(orders: Orders, i: nat)
    requires WellFiled(orders) && i < |orders|
    ensures Get(orders, orders[i].1.orderId) == Some(orders[i].1)
  {
    GetEntry(orders, i);
  }

  lemma WellFiledId(orders: Orders, id: string)
    requires WellFiled(orders)
    ensures Get(orders, id).Some? ==> Get(orders, id).value.orderId == id
  {
    if Get(orders, id).Some? {
      var i :| 0 <= i < |orders| && orders[i].0 == id;
      GetEntry(orders, i);
    }
  }

  /** What a snapshot does to one id: listed orders are taken over; an unlisted order of the token
      goes unless it is younger than the grace; everything else stays. */
  lemma GetReplaced(orders: Orders, token: string, live: seq<OpenOrder>, grace: real, now: real, id: string)
    requires WellFiled(orders)
    ensures var r := Get(ReplaceOpenOrders(orders, token, live, grace, now), id);
      if id in IdsOf(live) then r.Some? && r.value in live && r.value.orderId == id
      else r == match Get(orders, id)
                case None => None
                case Some(o) => if o.tokenId == token && now - o.createdTs >= grace then None else Some(o)
  {
    var view, ids := OrdersFor(orders, token), IdsOf(live);
    var retired := Retired(view, ids, grace, now);
    GetPopAll(orders, retired, id);
    GetPutAll(PopAll(orders, retired), live, id);
    RetiredMembers(view, ids, grace, now);
    OrdersForMembers(orders, token);
    WellFiledId(orders, id);
    forall o | o in view
      ensures Get(orders, o.orderId) == Some(o)
    {
      var i :| 0 <= i < |orders| && orders[i].1 == o;
      WellFiledGet(orders, i);
    }
    if Get(orders, id).Some? {
      var o := Get(orders, id).value;
      var i :| 0 <= i < |orders| && orders[i].0 == id;
      GetEntry(orders, i);
      assert o.tokenId == token ==> o in view;
    }
  }

  lemma {:induction false} GetForgotten(orders: Orders, token: string, id: string)
    requires WellFiled(orders)
    ensures Get(Forget(orders, token), id) ==
            if Get(orders, id).Some? && Get(orders, id).value.tokenId != token then Get(orders, id) else None
  {
    var view := OrdersFor(orders, token);
    GetPopAll(orders, Ids(view), id);
    IdsMembers(view);
    OrdersForMembers(orders, token);
    forall o | o in view
      ensures Get(orders, o.orderId) == Some(o)
    {
      var i :| 0 <= i < |orders| && orders[i].1 == o;
      WellFiledGet(orders, i);
    }
    if Get(orders, id).Some? {
      var i :| 0 <= i < |orders| && orders[i].0 == id;
      GetEntry(orders, i);
    }
  }

  lemma {:induction false} IdsMembers(view: seq<OpenOrder>)
    ensures forall id :: id in Ids(view) <==> exists o :: o in view && o.orderId == id
  {
    if view != [] {
      var n := |view| - 1;
      IdsMembers(view[..n]);
      assert view == view[..n] + [view[n]];
      assert view[n] in view;
      forall id | id in Ids(view)
        ensures exists o :: o in view && o.orderId == id
      {
        if id in Ids(view[..n]) {
          var o :| o in view[..n] && o.orderId == id;
          assert o in view;
        }
      }
      forall o | o in view
        ensures o.orderId in Ids(view)
      {
        if o != view[n] {
          assert o in view[..n];
        }
      }
    }
  }

  lemma {:induction false} GetUpsertAll(orders: Orders, placed: seq<OpenOrder>, id: string)
    requires forall o :: o in placed ==> o.state == LIVE
    ensures var r := Get(UpsertAll(orders, placed), id);
      if id in IdsOf(placed) then r.Some? && r.value in placed && r.value.orderId == id
      else r == Get(orders, id)
  {
    if placed != [] {
      var n := |placed| - 1;
      assert placed == placed[..n] + [placed[n]];
      GetUpsertAll(orders, placed[..n], id);
      GetPut(UpsertAll(orders, placed[..n]), placed[n].orderId, placed[n], id);
    }
  }

  // ── Every operation keeps the orders well filed ──────────────────────

  lemma FiledPut(orders: Orders, o: OpenOrder)
    requires WellFiled(orders)
    ensures WellFiled(Put(orders, o.orderId, o))
  {
    var r := Put(orders, o.orderId, o);
    PutUnique(orders, o.orderId, o);
    forall i | 0 <= i < |r|
      ensures r[i].0 == r[i].1.orderId
    {
      assert r[i] in r;
    }
  }

  lemma FiledPop(orders: Orders, id: string)
    requires WellFiled(orders)
    ensures WellFiled(Pop(orders, id))
  {
    var r := Pop(orders, id);
    PopUnique(orders, id);
    forall i | 0 <= i < |r|
      ensures r[i].0 == r[i].1.orderId
    {
      assert r[i] in r && r[i] in orders;
    }
  }

  lemma {:induction false} FiledPopAll(orders: Orders, ids: seq<string>)
    requires WellFiled(orders)
    ensures WellFiled(PopAll(orders, ids))
  {
    if ids != [] {
      FiledPopAll(orders, ids[..|ids| - 1]);
      FiledPop(PopAll(orders, ids[..|ids| - 1]), ids[|ids| - 1]);
    }
  }

  lemma {:induction false} FiledPutAll(orders: Orders, live: seq<OpenOrder>)
    requires WellFiled(orders)
    ensures WellFiled(PutAll(orders, live))
  {
    if live != [] {
      FiledPutAll(orders, live[..|live| - 1]);
      FiledPut(PutAll(orders, live[..|live| - 1]), live[|live| - 1]);
    }
  }

  lemma FiledReplace(orders: Orders, token: string, live: seq<OpenOrder>, grace: real, now: real)
    requires WellFiled(orders)
    ensures WellFiled(ReplaceOpenOrders(orders, token, live, grace, now))
  {
    var retired := Retired(OrdersFor(orders, token), IdsOf(live), grace, now);
    FiledPopAll(orders, retired);
    FiledPutAll(PopAll(orders, retired), live);
  }

  lemma {:induction false} FiledUpsertAll(orders: Orders, placed: seq<OpenOrder>)
    requires WellFiled(orders)
    ensures WellFiled(UpsertAll(orders, placed))
  {
    if placed != [] {
      var n := |placed| - 1;
      FiledUpsertAll(orders, placed[..n]);
      FiledPut(UpsertAll(orders, placed[..n]), placed[n]);
      FiledPop(UpsertAll(orders, placed[..n]), placed[n].orderId);
    }
  }
}
