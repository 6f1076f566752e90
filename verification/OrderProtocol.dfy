/** The engine's local view of orders against the exchange, as a system of interleaved steps
    (src/polymaker/engine.py). Each step is what runs between two awaits; a market's lock is held
    while its phase is not Idle. The exchange may accept and drop orders at any moment. */
module OrderProtocol {
  import opened Domain
  import opened Dict
  import opened OrderMaps
  import T = Tracker
  import R = Reconciler

  /** What the exchange knows of an accepted order. */
  datatype Resting = Resting(tokenId: string, side: Side, price: real, acceptedAt: real)

  /** A local record is of the order the exchange accepted; what remains of it may differ. */
  predicate Matches(r: Resting, o: OpenOrder) { o.tokenId == r.tokenId && o.side == r.side && o.price == r.price }

  /** A REST read of the open orders, as parsed at time `at`. */
  datatype Snapshot = Snapshot(at: real, live: seq<OpenOrder>)

  /** Where the holder of a market's lock is suspended. */
  datatype Phase =
    | Idle
    | Cancelling(ids: seq<string>, toPlace: nat)
    | Placing(count: nat)
    | WipingYes
    | WipingNo
    | Refreshing(grace: real, read: Option<Snapshot>)

  datatype Tokens = Tokens(yes: string, no: string)

  datatype State = State(
    now: real,
    used: map<string, Resting>,      // every order ever accepted
    live: set<string>,               // those still resting on the exchange
    acked: set<string>,              // those the engine has been told of
    orders: Orders,                  // the engine's local view
    phase: map<string, Phase>,       // per market; absent means Idle
    streak: map<string, nat>,        // consecutive soft rejections
    loop: Option<Snapshot>,          // the read held by the reconcile loop
    recovery: Option<Snapshot>)      // the read held by heartbeat recovery

  datatype Step =
    | Tick(dt: real)
    | Accept(id: string, token: string, side: Side, price: real)
    | Vanish(id: string)
    | UserEvent(ev: T.OrderEvent)
    | Plan(cid: string, plan: R.ReconcilePlan, shed: bool)
    | CancelReturns(cid: string, ok: bool, shed: bool)
    | PlaceReturns(cid: string, placed: seq<OpenOrder>, soft: bool)
    | WipeReturns(cid: string)
    | RefreshRead(cid: string, read: seq<OpenOrder>)
    | RefreshApply(cid: string)
    | LoopRead(read: seq<OpenOrder>)
    | LoopApply(cid: string, yes: bool, no: bool)
    | ServerWiped
    | RecoveryRead(read: seq<OpenOrder>)
    | RecoveryApply(cid: string)

  const GRACE: real := 10.0

  const SOFT_LIMIT: nat := 5

  function PhaseOf(s: State, cid: string): Phase {
    if cid in s.phase then s.phase[cid] else Idle
  }

  function StreakOf(s: State, cid: string): nat {
    if cid in s.streak then s.streak[cid] else 0
  }

  /** The live list handed to the reconciler. */
  function View(orders: Orders, t: Tokens): seq<OpenOrder> {
    OrdersFor(orders, t.yes) + OrdersFor(orders, t.no)
  }

  function OfToken(live: seq<OpenOrder>, token: string): seq<OpenOrder> {
    if live == [] then []
    else OfToken(live[..|live| - 1], token) + if live[|live| - 1].tokenId == token then [live[|live| - 1]] else []
  }

  function Adopt(orders: Orders, token: string, snap: Snapshot, grace: real, now: real): Orders {
    ReplaceOpenOrders(orders, token, OfToken(snap.live, token), grace, now)
  }

  function AdoptBoth(orders: Orders, t: Tokens, snap: Snapshot, grace: real, now: real): Orders {
    Adopt(Adopt(orders, t.yes, snap, grace, now), t.no, snap, grace, now)
  }

  /** Under rate pressure new quotes are shed; otherwise they are sent. */
  function Placement(count: nat, shed: bool): Phase {
    if shed then Idle else Placing(count)
  }

  // ── What the environment is trusted with ─────────────────────────────

  /** A read that succeeds lists exactly what rests at that moment. */
  ghost predicate FaithfulRead(s: State, read: seq<OpenOrder>) {
    && IdsOf(read) == s.live
    && forall o :: o in read ==> KnownOrder(s, o.orderId, o) && o.createdTs == s.now
  }

  /** A snapshot is applied while younger than the grace, or while it still lists every live order of the token. */
  ghost predicate Current(s: State, snap: Snapshot, token: string, grace: real) {
    || s.now - snap.at < grace
    || forall id :: id in s.live && id in s.used && s.used[id].tokenId == token ==> id in IdsOf(snap.live)
  }

  ghost predicate KnownOrder(s: State, id: string, o: OpenOrder) {
    id in s.used && Matches(s.used[id], o)
  }

  /** The order an event reports. */
  function Reported(ev: T.OrderEvent, now: real): OpenOrder {
    OpenOrder(ev.orderId, ev.tokenId, ev.side, ev.price, ev.remaining, LIVE, now)
  }

  ghost predicate Enabled(s: State, ms: map<string, Tokens>, step: Step)
    requires s.live <= s.used.Keys
  {
    match step
    case Tick(dt) => dt >= 0.0
    case Accept(id, _, _, _) => id !in s.used
    case Vanish(id) => true
    case UserEvent(ev) =>
      // the exchange reports its own orders, and only dead ones as gone
      if ev.isCancel || ev.remaining <= 0.0 then ev.orderId !in s.live else KnownOrder(s, ev.orderId, Reported(ev, s.now))
    case Plan(cid, plan, _) =>
      && cid in ms && PhaseOf(s, cid).Idle?
      && forall id :: id in plan.toCancel ==> exists o :: o in View(s.orders, ms[cid]) && o.orderId == id
    case CancelReturns(cid, ok, _) =>
      // a True cancel really cancelled
      PhaseOf(s, cid).Cancelling? && (ok ==> forall id :: id in PhaseOf(s, cid).ids ==> id !in s.live)
    case PlaceReturns(cid, placed, _) =>
      && PhaseOf(s, cid).Placing?
      && forall o :: o in placed ==> KnownOrder(s, o.orderId, o) && o.createdTs == s.now && o.state == LIVE
    case WipeReturns(cid) =>
      // the result of cancel_asset is ignored, so nothing is assumed of it
      cid in ms && (PhaseOf(s, cid).WipingYes? || PhaseOf(s, cid).WipingNo?)
    case RefreshRead(cid, read) => PhaseOf(s, cid).Refreshing? && FaithfulRead(s, read)
    case RefreshApply(cid) =>
      && cid in ms && PhaseOf(s, cid).Refreshing? && PhaseOf(s, cid).read.Some?
      && Current(s, PhaseOf(s, cid).read.value, ms[cid].yes, PhaseOf(s, cid).grace)
      && Current(s, PhaseOf(s, cid).read.value, ms[cid].no, PhaseOf(s, cid).grace)
    case LoopRead(read) => FaithfulRead(s, read)
    case LoopApply(cid, yes, no) =>
      && cid in ms && PhaseOf(s, cid).Idle? && s.loop.Some?
      && (yes ==> Current(s, s.loop.value, ms[cid].yes, GRACE))
      && (no ==> Current(s, s.loop.value, ms[cid].no, GRACE))
    case ServerWiped => s.live == {}
    case RecoveryRead(read) => FaithfulRead(s, read)
    case RecoveryApply(cid) =>
      && cid in ms && s.recovery.Some?
      && Current(s, s.recovery.value, ms[cid].yes, 0.0)
      && Current(s, s.recovery.value, ms[cid].no, 0.0)
  }

  // ── What each step does ──────────────────────────────────────────────

  function Enter(s: State, cid: string, p: Phase): State {
    s.(phase := s.phase[cid := p])
  }

  function Apply(s: State, ms: map<string, Tokens>, step: Step): State {
    match step
    case Tick(dt) => s.(now := s.now + dt)
    case Accept(id, token, side, price) => s.(used := s.used[id := Resting(token, side, price, s.now)], live := s.live + {id})
    case Vanish(id) => s.(live := s.live - {id})
    case UserEvent(ev) =>
      var told := if ev.isCancel || ev.remaining <= 0.0 then {} else {ev.orderId};
      s.(orders := T.AfterOrder(s.orders, ev, s.now), acked := s.acked + told)
    case Plan(cid, plan, shed) =>
      if plan.toCancel != [] then Enter(s, cid, Cancelling(plan.toCancel, |plan.toPlace|))
      else if plan.toPlace != [] then Enter(s, cid, Placement(|plan.toPlace|, shed))
      else s
    case CancelReturns(cid, ok, shed) =>
      var p := PhaseOf(s, cid);
      if !p.Cancelling? then s
      else if !ok then Enter(s, cid, Refreshing(GRACE, None))
      else Enter(s.(orders := PopAll(s.orders, p.ids)), cid, if p.toPlace > 0 then Placement(p.toPlace, shed) else Idle)
    case PlaceReturns(cid, placed, soft) =>
      var s' := s.(orders := UpsertAll(s.orders, placed), acked := s.acked + IdsOf(placed));
      if soft then
        var n := StreakOf(s, cid) + 1;
        Enter(s'.(streak := s.streak[cid := n]), cid, if n >= SOFT_LIMIT then WipingYes else Refreshing(GRACE, None))
      else
        var short := PhaseOf(s, cid).Placing? && |placed| < PhaseOf(s, cid).count;
        Enter(s'.(streak := s.streak[cid := 0]), cid, if short then WipingYes else Idle)
    case WipeReturns(cid) =>
      if cid !in ms then s
      else if PhaseOf(s, cid).WipingYes? then Enter(s.(orders := Forget(s.orders, ms[cid].yes)), cid, WipingNo)
      else Enter(s.(orders := Forget(s.orders, ms[cid].no)), cid, Refreshing(0.0, None))
    case RefreshRead(cid, read) =>
      if PhaseOf(s, cid).Refreshing? then Enter(s, cid, Refreshing(PhaseOf(s, cid).grace, Some(Snapshot(s.now, read)))) else s
    case RefreshApply(cid) =>
      var p := PhaseOf(s, cid);
      if cid in ms && p.Refreshing? && p.read.Some? then
        Enter(s.(orders := AdoptBoth(s.orders, ms[cid], p.read.value, p.grace, s.now),
                 acked := s.acked + TakenOver(p.read.value, ms[cid])), cid, Idle)
      else s
    case LoopRead(read) => s.(loop := Some(Snapshot(s.now, read)))
    case LoopApply(cid, yes, no) =>
      // a token with trades in flight is skipped
      if cid in ms && s.loop.Some? then
        var snap, t := s.loop.value, ms[cid];
        var orders := if yes then Adopt(s.orders, t.yes, snap, GRACE, s.now) else s.orders;
        var orders' := if no then Adopt(orders, t.no, snap, GRACE, s.now) else orders;
        s.(orders := orders',
           acked := s.acked + (if yes then Listed(snap, t.yes) else {}) + (if no then Listed(snap, t.no) else {}))
      else s
    case ServerWiped => s.(orders := [])
    case RecoveryRead(read) => s.(recovery := Some(Snapshot(s.now, read)))
    case RecoveryApply(cid) =>
      if cid in ms && s.recovery.Some? then
        s.(orders := AdoptBoth(s.orders, ms[cid], s.recovery.value, 0.0, s.now),
           acked := s.acked + TakenOver(s.recovery.value, ms[cid]))
      else s
  }

  function Listed(snap: Snapshot, token: string): set<string> {
    IdsOf(OfToken(snap.live, token))
  }

  function TakenOver(snap: Snapshot, t: Tokens): set<string> {
    Listed(snap, t.yes) + Listed(snap, t.no)
  }

  // ── The invariant ────────────────────────────────────────────────────

  /** Tokens whose local orders a quarantine has dropped and not yet read back. */
  ghost predicate Wiped(s: State, ms: map<string, Tokens>, token: string) {
    exists cid :: cid in ms && cid in s.phase && WipedBy(s.phase[cid], ms[cid], token)
  }

  predicate WipedBy(p: Phase, t: Tokens, token: string) {
    match p
    case WipingNo => token == t.yes
    case Refreshing(grace, _) => grace == 0.0 && (token == t.yes || token == t.no)
    case _ => false
  }

  /** The local view holds order `id` as it was accepted, dated no earlier than its acceptance. */
  ghost predicate Held(s: State, id: string)
    requires id in s.used
  {
    var r := Get(s.orders, id);
    r.Some? && Matches(s.used[id], r.value) && r.value.createdTs >= s.used[id].acceptedAt
  }

  ghost predicate Sound(s: State) {
    && s.live <= s.used.Keys && s.acked <= s.used.Keys
    && WellFiled(s.orders)
    && (forall id :: id in s.used ==> s.used[id].acceptedAt <= s.now)
    && (forall i :: 0 <= i < |s.orders| ==> KnownOrder(s, s.orders[i].1.orderId, s.orders[i].1))
  }

  /** A pending read lists known orders and misses only orders accepted since. */
  ghost predicate SoundSnapshot(s: State, snap: Snapshot) {
    && snap.at <= s.now
    && (forall o :: o in snap.live ==>
          KnownOrder(s, o.orderId, o) && o.createdTs == snap.at && s.used[o.orderId].acceptedAt <= snap.at)
    && (forall id :: id in s.live && id in s.used && id !in IdsOf(snap.live) ==> s.used[id].acceptedAt >= snap.at)
  }

  ghost predicate SoundReads(s: State) {
    && (s.loop.Some? ==> SoundSnapshot(s, s.loop.value))
    && (s.recovery.Some? ==> SoundSnapshot(s, s.recovery.value))
    && (forall cid :: cid in s.phase && s.phase[cid].Refreshing? && s.phase[cid].read.Some? ==>
          SoundSnapshot(s, s.phase[cid].read.value))
  }

  /** No acknowledged live order is forgotten, outside tokens in quarantine. */
  ghost predicate Covered(s: State, ms: map<string, Tokens>) {
    forall id :: id in s.live && id in s.used && id in s.acked && !Wiped(s, ms, s.used[id].tokenId) ==> Held(s, id)
  }

  ghost predicate Inv(s: State, ms: map<string, Tokens>) {
    Sound(s) && SoundReads(s) && Covered(s, ms)
  }

  // ── Lookup through the steps ─────────────────────────────────────────

  lemma {:induction false} OfTokenMembers(live: seq<OpenOrder>, token: string)
    ensures forall o :: o in OfToken(live, token) <==> o in live && o.tokenId == token
  {
    if live != [] {
      var n := |live| - 1;
      assert live == live[..n] + [live[n]];
      OfTokenMembers(live[..n], token);
    }
  }

  /** Entries are known orders: the lookup form. */
  ghost predicate KnownEntries(s: State, orders: Orders) {
    forall i :: 0 <= i < |orders| ==> KnownOrder(s, orders[i].1.orderId, orders[i].1)
  }

  lemma KnownFromGet(s: State, orders: Orders)
    requires WellFiled(orders)
    requires forall id :: Get(orders, id).Some? ==> KnownOrder(s, id, Get(orders, id).value)
    ensures KnownEntries(s, orders)
  {
    forall i | 0 <= i < |orders|
      ensures KnownOrder(s, orders[i].1.orderId, orders[i].1)
    {
      GetEntry(orders, i);
    }
  }

  lemma GetKnown(s: State, orders: Orders, id: string)
    requires WellFiled(orders) && KnownEntries(s, orders)
    ensures Get(orders, id).Some? ==> KnownOrder(s, id, Get(orders, id).value)
  {
    if Get(orders, id).Some? {
      var i :| 0 <= i < |orders| && orders[i].0 == id;
      GetEntry(orders, i);
    }
  }

  /** Adopting a sound snapshot keeps the view sound; it holds every live order that is listed, and keeps
      every live order it held, provided the snapshot is current for the token. */
  lemma AdoptHolds(s: State, token: string, snap: Snapshot, grace: real)
    requires Sound(s) && SoundSnapshot(s, snap)
    ensures var s' := s.(orders := Adopt(s.orders, token, snap, grace, s.now));
      && Sound(s')
      && (forall id :: id in Listed(snap, token) ==> id in s.used && Held(s', id))
      && (Current(s, snap, token, grace) ==> forall id :: id in s.live && Held(s, id) ==> Held(s', id))
  {
    var listed := OfToken(snap.live, token);
    var s' := s.(orders := Adopt(s.orders, token, snap, grace, s.now));
    OfTokenMembers(snap.live, token);
    FiledReplace(s.orders, token, listed, grace, s.now);
    forall id
      ensures Get(s'.orders, id).Some? ==> KnownOrder(s, id, Get(s'.orders, id).value)
      ensures id in Listed(snap, token) ==> id in s.used && Held(s', id)
      ensures Current(s, snap, token, grace) && id in s.live && Held(s, id) ==> Held(s', id)
    {
      GetReplaced(s.orders, token, listed, grace, s.now, id);
      GetKnown(s, s.orders, id);
    }
    KnownFromGet(s', s'.orders);
  }

  /** A live order the engine holds under a sound view stays held when orders of other ids change. */
  lemma HeldElsewhere(s: State, s': State, id: string)
    requires id in s.used && id in s'.used && s'.used[id] == s.used[id]
    requires Held(s, id) && Get(s'.orders, id) == Get(s.orders, id)
    ensures Held(s', id)
  {
  }

  lemma ReadSound(s: State, read: seq<OpenOrder>)
    requires Sound(s) && FaithfulRead(s, read)
    ensures SoundSnapshot(s, Snapshot(s.now, read))
  {
  }

  /** Snapshots stay sound while the exchange accepts new orders, drops old ones and time passes. */
  lemma SnapshotStays(s: State, s': State, snap: Snapshot)
    requires SoundSnapshot(s, snap) && s.now <= s'.now
    requires forall id :: id in s.used ==> id in s'.used && s'.used[id] == s.used[id]
    requires forall id :: id in s'.live && id in s'.used && id !in s.used ==> s'.used[id].acceptedAt >= s.now
    requires forall id :: id in s'.live && id in s.used ==> id in s.live
    ensures SoundSnapshot(s', snap)
  {
  }

  // ── Each kind of step keeps the invariant ────────────────────────────

  /** Steps of the world: time, acceptance, disappearance. */
  lemma WorldStep(s: State, ms: map<string, Tokens>, step: Step)
    requires Inv(s, ms) && (step.Tick? || step.Accept? || step.Vanish?) && Enabled(s, ms, step)
    ensures Inv(Apply(s, ms, step), ms)
  {
    var s' := Apply(s, ms, step);
    if s.loop.Some? {
      SnapshotStays(s, s', s.loop.value);
    }
    if s.recovery.Some? {
      SnapshotStays(s, s', s.recovery.value);
    }
    forall cid | cid in s.phase && s.phase[cid].Refreshing? && s.phase[cid].read.Some?
      ensures SoundSnapshot(s', s.phase[cid].read.value)
    {
      SnapshotStays(s, s', s.phase[cid].read.value);
    }
    assert forall token :: Wiped(s', ms, token) == Wiped(s, ms, token);
    forall id | id in s'.live && id in s'.acked && !Wiped(s', ms, s'.used[id].tokenId)
      ensures Held(s', id)
    {
      assert id in s.live && id in s.acked && s'.used[id] == s.used[id];
    }
  }

  /** Changing one market's phase without lifting or dropping anything. */
  lemma PhaseOnly(s: State, ms: map<string, Tokens>, cid: string, p: Phase)
    requires Inv(s, ms)
    requires cid in ms ==> forall token :: WipedBy(PhaseOf(s, cid), ms[cid], token) ==> WipedBy(p, ms[cid], token)
    requires p.Refreshing? && p.read.Some? ==> SoundSnapshot(s, p.read.value)
    ensures Inv(Enter(s, cid, p), ms)
  {
    var s' := Enter(s, cid, p);
    WipedGrows(s, s', ms, cid);
    forall id | id in s'.live && id in s'.acked && !Wiped(s', ms, s'.used[id].tokenId)
      ensures Held(s', id)
    {
      assert !Wiped(s, ms, s.used[id].tokenId);
      HeldElsewhere(s, s', id);
    }
  }

  lemma WipedGrows(s: State, s': State, ms: map<string, Tokens>, cid: string)
    requires forall c :: c != cid && c in s.phase ==> c in s'.phase && s'.phase[c] == s.phase[c]
    requires cid in ms ==> forall token :: WipedBy(PhaseOf(s, cid), ms[cid], token) ==> WipedBy(PhaseOf(s', cid), ms[cid], token)
    ensures forall token :: Wiped(s, ms, token) ==> Wiped(s', ms, token)
  {
    forall token | Wiped(s, ms, token)
      ensures Wiped(s', ms, token)
    {
      var c :| c in ms && c in s.phase && WipedBy(s.phase[c], ms[c], token);
      if c == cid {
        assert PhaseOf(s, cid) == s.phase[c];
        assert WipedBy(PhaseOf(s', cid), ms[cid], token);
        assert cid in s'.phase;
      } else {
        assert WipedBy(s'.phase[c], ms[c], token);
      }
    }
  }

  lemma UserEventStep(s: State, ms: map<string, Tokens>, ev: T.OrderEvent)
    requires Inv(s, ms) && Enabled(s, ms, UserEvent(ev))
    ensures Inv(Apply(s, ms, UserEvent(ev)), ms)
  {
    var s' := Apply(s, ms, UserEvent(ev));
    var o := Reported(ev, s.now);
    FiledPop(s.orders, ev.orderId);
    FiledPut(s.orders, o);
    forall id
      ensures Get(s'.orders, id) == if id != ev.orderId then Get(s.orders, id)
                                    else if ev.isCancel || ev.remaining <= 0.0 then None else Some(o)
      ensures Get(s'.orders, id).Some? ==> KnownOrder(s, id, Get(s'.orders, id).value)
    {
      GetPop(s.orders, ev.orderId, id);
      GetPut(s.orders, ev.orderId, o, id);
      GetKnown(s, s.orders, id);
    }
    KnownFromGet(s', s'.orders);
    assert forall token :: Wiped(s', ms, token) == Wiped(s, ms, token);
    forall id | id in s'.live && id in s'.acked && !Wiped(s', ms, s'.used[id].tokenId)
      ensures Held(s', id)
    {
      if id != ev.orderId {
        HeldElsewhere(s, s', id);
      }
    }
  }

  /** Forgetting dead orders after a True cancel. */
  lemma CancelStep(s: State, ms: map<string, Tokens>, cid: string, shed: bool)
    requires Inv(s, ms) && Enabled(s, ms, CancelReturns(cid, true, shed))
    ensures Inv(Apply(s, ms, CancelReturns(cid, true, shed)), ms)
  {
    var ids := PhaseOf(s, cid).ids;
    var s1 := s.(orders := PopAll(s.orders, ids));
    FiledPopAll(s.orders, ids);
    forall id
      ensures Get(s1.orders, id) == if id in ids then None else Get(s.orders, id)
      ensures Get(s1.orders, id).Some? ==> KnownOrder(s, id, Get(s1.orders, id).value)
    {
      GetPopAll(s.orders, ids, id);
      GetKnown(s, s.orders, id);
    }
    KnownFromGet(s1, s1.orders);
    assert forall token :: Wiped(s1, ms, token) == Wiped(s, ms, token);
    forall id | id in s1.live && id in s1.acked && !Wiped(s1, ms, s1.used[id].tokenId)
      ensures Held(s1, id)
    {
      HeldElsewhere(s, s1, id);
    }
    var n := PhaseOf(s, cid).toPlace;
    PhaseOnly(s1, ms, cid, if n > 0 then Placement(n, shed) else Idle);
  }

  lemma PlacedLookup(s: State, s': State, placed: seq<OpenOrder>, id: string)
    requires Sound(s) && s' == s.(orders := UpsertAll(s.orders, placed), acked := s.acked + IdsOf(placed))
    requires forall o :: o in placed ==> KnownOrder(s, o.orderId, o) && o.createdTs == s.now && o.state == LIVE
    ensures Get(s'.orders, id).Some? ==> KnownOrder(s, id, Get(s'.orders, id).value)
    ensures id in IdsOf(placed) ==> id in s.used && Held(s', id)
    ensures id !in IdsOf(placed) ==> Get(s'.orders, id) == Get(s.orders, id)
  {
    hide UpsertAll, Matches;
    GetUpsertAll(s.orders, placed, id);
    GetKnown(s, s.orders, id);
  }

  /** Recording acknowledged placements. */
  lemma PlacedStep(s: State, ms: map<string, Tokens>, placed: seq<OpenOrder>)
    requires Inv(s, ms)
    requires forall o :: o in placed ==> KnownOrder(s, o.orderId, o) && o.createdTs == s.now && o.state == LIVE
    ensures Inv(s.(orders := UpsertAll(s.orders, placed), acked := s.acked + IdsOf(placed)), ms)
  {
    hide UpsertAll, Matches;
    var s' := s.(orders := UpsertAll(s.orders, placed), acked := s.acked + IdsOf(placed));
    FiledUpsertAll(s.orders, placed);
    forall id
      ensures Get(s'.orders, id).Some? ==> KnownOrder(s, id, Get(s'.orders, id).value)
    {
      PlacedLookup(s, s', placed, id);
    }
    KnownFromGet(s', s'.orders);
    forall id | id in s.live && (Held(s, id) || id in s'.acked - s.acked)
      ensures Held(s', id)
    {
      PlacedLookup(s, s', placed, id);
      if id !in IdsOf(placed) {
        HeldElsewhere(s, s', id);
      }
    }
    OrdersOnly(s, s', ms);
  }

  lemma PlaceStep(s: State, ms: map<string, Tokens>, step: Step)
    requires Inv(s, ms) && step.PlaceReturns? && Enabled(s, ms, step)
    ensures Inv(Apply(s, ms, step), ms)
  {
    hide UpsertAll;
    var s1 := s.(orders := UpsertAll(s.orders, step.placed), acked := s.acked + IdsOf(step.placed));
    PlacedStep(s, ms, step.placed);
    var s' := Apply(s, ms, step);
    var s2 := s1.(streak := s'.streak);
    assert forall token :: Wiped(s2, ms, token) == Wiped(s1, ms, token);
    assert Inv(s2, ms);
    PhaseOnly(s2, ms, step.cid, PhaseOf(s', step.cid));
  }

  /** A wiped token's orders may be dropped. */
  lemma ForgetWiped(s: State, ms: map<string, Tokens>, token: string)
    requires Inv(s, ms) && Wiped(s, ms, token)
    ensures Inv(s.(orders := Forget(s.orders, token)), ms)
  {
    hide PopAll, Ids;
    var s' := s.(orders := Forget(s.orders, token));
    FiledPopAll(s.orders, Ids(OrdersFor(s.orders, token)));
    forall id
      ensures Get(s'.orders, id).Some? ==> KnownOrder(s, id, Get(s'.orders, id).value)
      ensures id in s.used && Held(s, id) && s.used[id].tokenId != token ==> Held(s', id)
    {
      GetForgotten(s.orders, token, id);
      GetKnown(s, s.orders, id);
    }
    KnownFromGet(s', s'.orders);
    assert forall t :: Wiped(s', ms, t) == Wiped(s, ms, t);
  }

  /** Quarantine drops one token's orders and marks the token as wiped. */
  lemma WipeStep(s: State, ms: map<string, Tokens>, cid: string)
    requires Inv(s, ms) && Enabled(s, ms, WipeReturns(cid))
    ensures Inv(Apply(s, ms, WipeReturns(cid)), ms)
  {
    var first := PhaseOf(s, cid).WipingYes?;
    var p := if first then WipingNo else Refreshing(0.0, None);
    var token := if first then ms[cid].yes else ms[cid].no;
    var s1 := Enter(s, cid, p);
    PhaseOnly(s, ms, cid, p);
    assert cid in s1.phase && WipedBy(s1.phase[cid], ms[cid], token);
    ForgetWiped(s1, ms, token);
    assert Apply(s, ms, WipeReturns(cid)) == s1.(orders := Forget(s1.orders, token));
  }

  /** Changing the view and the acknowledgements: what was held or is newly acknowledged must be held. */
  lemma OrdersOnly(s: State, s': State, ms: map<string, Tokens>)
    requires Inv(s, ms) && Sound(s')
    requires s' == s.(orders := s'.orders, acked := s'.acked)
    requires forall id :: id in s.live && (Held(s, id) || id in s'.acked - s.acked) ==> Held(s', id)
    ensures Inv(s', ms)
  {
    assert forall t :: Wiped(s', ms, t) == Wiped(s, ms, t);
  }

  /** Adopting a current snapshot for one token, under a free lock or not. */
  lemma OneToken(s: State, ms: map<string, Tokens>, token: string, snap: Snapshot, grace: real)
    requires Inv(s, ms) && SoundSnapshot(s, snap) && Current(s, snap, token, grace)
    ensures var s' := s.(orders := Adopt(s.orders, token, snap, grace, s.now), acked := s.acked + Listed(snap, token));
      && Inv(s', ms)
      && forall id :: id in s.live && (id in Listed(snap, token) || Held(s, id)) ==> Held(s', id)
  {
    var s' := s.(orders := Adopt(s.orders, token, snap, grace, s.now), acked := s.acked + Listed(snap, token));
    AdoptHolds(s, token, snap, grace);
    OrdersOnly(s, s', ms);
  }

  /** Both tokens of a market in turn. */
  lemma BothTokens(s: State, ms: map<string, Tokens>, t: Tokens, snap: Snapshot, grace: real)
    requires Inv(s, ms) && SoundSnapshot(s, snap) && Current(s, snap, t.yes, grace) && Current(s, snap, t.no, grace)
    ensures var s' := s.(orders := AdoptBoth(s.orders, t, snap, grace, s.now), acked := s.acked + TakenOver(snap, t));
      && Inv(s', ms)
      && forall id :: id in s.live && (id in TakenOver(snap, t) || Held(s, id)) ==> Held(s', id)
  {
    var s1 := s.(orders := Adopt(s.orders, t.yes, snap, grace, s.now), acked := s.acked + Listed(snap, t.yes));
    OneToken(s, ms, t.yes, snap, grace);
    OneToken(s1, ms, t.no, snap, grace);
    assert s.acked + Listed(snap, t.yes) + Listed(snap, t.no) == s.acked + TakenOver(snap, t);
  }

  lemma LoopStep(s: State, ms: map<string, Tokens>, cid: string, yes: bool, no: bool)
    requires Inv(s, ms) && Enabled(s, ms, LoopApply(cid, yes, no))
    ensures Inv(Apply(s, ms, LoopApply(cid, yes, no)), ms)
  {
    var snap, t := s.loop.value, ms[cid];
    var s1 := if yes then s.(orders := Adopt(s.orders, t.yes, snap, GRACE, s.now), acked := s.acked + Listed(snap, t.yes)) else s;
    var s2 := if no then s1.(orders := Adopt(s1.orders, t.no, snap, GRACE, s1.now), acked := s1.acked + Listed(snap, t.no)) else s1;
    if yes {
      OneToken(s, ms, t.yes, snap, GRACE);
    }
    if no {
      OneToken(s1, ms, t.no, snap, GRACE);
    }
    assert Apply(s, ms, LoopApply(cid, yes, no)) == s2;
  }

  /** Releasing the lock once everything live on the market's tokens is held again. */
  lemma Release(s: State, ms: map<string, Tokens>, cid: string)
    requires Inv(s, ms) && cid in ms
    requires forall id :: id in s.live && id in s.acked && WipedBy(PhaseOf(s, cid), ms[cid], s.used[id].tokenId) ==> Held(s, id)
    ensures Inv(Enter(s, cid, Idle), ms)
  {
    var s' := Enter(s, cid, Idle);
    forall id | id in s'.live && id in s'.acked && !Wiped(s', ms, s'.used[id].tokenId)
      ensures Held(s', id)
    {
      var token := s.used[id].tokenId;
      forall c | c in ms && c in s.phase && c != cid
        ensures !WipedBy(s.phase[c], ms[c], token)
      {
        assert s'.phase[c] == s.phase[c];
      }
      assert Held(s, id);
    }
  }

  /** The market's tokens are read back, so the quarantine ends. */
  lemma RefreshStep(s: State, ms: map<string, Tokens>, cid: string)
    requires Inv(s, ms) && Enabled(s, ms, RefreshApply(cid))
    ensures Inv(Apply(s, ms, RefreshApply(cid)), ms)
  {
    var p, t := PhaseOf(s, cid), ms[cid];
    var snap := p.read.value;
    var s1 := s.(orders := AdoptBoth(s.orders, t, snap, p.grace, s.now), acked := s.acked + TakenOver(snap, t));
    BothTokens(s, ms, t, snap, p.grace);
    forall id | id in s1.live && id in s1.acked && WipedBy(p, t, s1.used[id].tokenId)
      ensures Held(s1, id)
    {
      ListedIfCurrent(s, snap, s.used[id].tokenId, id);
    }
    Release(s1, ms, cid);
  }

  lemma ListedIfCurrent(s: State, snap: Snapshot, token: string, id: string)
    requires Sound(s) && SoundSnapshot(s, snap) && Current(s, snap, token, 0.0)
    requires id in s.live && s.used[id].tokenId == token
    ensures id in Listed(snap, token)
  {
    OfTokenMembers(snap.live, token);
    var o :| o in snap.live && o.orderId == id;
    assert o in OfToken(snap.live, token);
  }

  lemma RecoveryStep(s: State, ms: map<string, Tokens>, cid: string)
    requires Inv(s, ms) && Enabled(s, ms, RecoveryApply(cid))
    ensures Inv(Apply(s, ms, RecoveryApply(cid)), ms)
  {
    BothTokens(s, ms, ms[cid], s.recovery.value, 0.0);
  }

  /** ORDER COVERAGE, one step: every enabled step keeps the invariant. */
  lemma StepKeepsInv(s: State, ms: map<string, Tokens>, step: Step)
    requires Inv(s, ms) && Enabled(s, ms, step)
    ensures Inv(Apply(s, ms, step), ms)
  {
    match step
    case Tick(_) => WorldStep(s, ms, step);
    case Accept(_, _, _, _) => WorldStep(s, ms, step);
    case Vanish(_) => WorldStep(s, ms, step);
    case UserEvent(ev) => UserEventStep(s, ms, ev);
    case Plan(cid, plan, shed) =>
      if plan.toCancel != [] {
        PhaseOnly(s, ms, cid, Cancelling(plan.toCancel, |plan.toPlace|));
      } else if plan.toPlace != [] {
        PhaseOnly(s, ms, cid, Placement(|plan.toPlace|, shed));
      }
    case CancelReturns(cid, ok, shed) =>
      if ok {
        CancelStep(s, ms, cid, shed);
      } else {
        PhaseOnly(s, ms, cid, Refreshing(GRACE, None));
      }
    case PlaceReturns(_, _, _) => PlaceStep(s, ms, step);
    case WipeReturns(cid) => WipeStep(s, ms, cid);
    case RefreshRead(cid, read) =>
      ReadSound(s, read);
      PhaseOnly(s, ms, cid, Refreshing(PhaseOf(s, cid).grace, Some(Snapshot(s.now, read))));
    case RefreshApply(cid) => RefreshStep(s, ms, cid);
    case LoopRead(read) =>
      ReadSound(s, read);
      SharedRead(s, ms, Apply(s, ms, step));
    case LoopApply(cid, yes, no) => LoopStep(s, ms, cid, yes, no);
    case ServerWiped =>
    case RecoveryRead(read) =>
      ReadSound(s, read);
      SharedRead(s, ms, Apply(s, ms, step));
    case RecoveryApply(cid) => RecoveryStep(s, ms, cid);
  }

  /** Only a shared read changes. */
  lemma SharedRead(s: State, ms: map<string, Tokens>, s': State)
    requires Inv(s, ms)
    requires s' == s.(loop := s'.loop, recovery := s'.recovery)
    requires s'.loop.Some? ==> SoundSnapshot(s, s'.loop.value)
    requires s'.recovery.Some? ==> SoundSnapshot(s, s'.recovery.value)
    ensures Inv(s', ms)
  {
    assert forall token :: Wiped(s', ms, token) == Wiped(s, ms, token);
    forall id | id in s'.live && id in s'.acked && !Wiped(s', ms, s'.used[id].tokenId)
      ensures Held(s', id)
    {
      assert Held(s, id);
    }
  }

  // ── Whole runs ───────────────────────────────────────────────────────

  ghost function Init(now: real): State {
    State(now, map[], {}, {}, [], map[], map[], None, None)
  }

  function Run(s: State, ms: map<string, Tokens>, steps: seq<Step>): State {
    if steps == [] then s else Apply(Run(s, ms, steps[..|steps| - 1]), ms, steps[|steps| - 1])
  }

  ghost predicate ValidRun(s: State, ms: map<string, Tokens>, steps: seq<Step>) {
    steps == [] ||
    var before := Run(s, ms, steps[..|steps| - 1]);
    ValidRun(s, ms, steps[..|steps| - 1]) && before.live <= before.used.Keys && Enabled(before, ms, steps[|steps| - 1])
  }

  lemma {:induction false} AlwaysInv(ms: map<string, Tokens>, now: real, steps: seq<Step>)
    requires ValidRun(Init(now), ms, steps)
    ensures Inv(Run(Init(now), ms, steps), ms)
  {
    if steps != [] {
      var n := |steps| - 1;
      AlwaysInv(ms, now, steps[..n]);
      StepKeepsInv(Run(Init(now), ms, steps[..n]), ms, steps[n]);
    }
  }

  /** No two markets trade the same token. */
  ghost predicate OwnTokens(ms: map<string, Tokens>) {
    forall c, d :: c in ms && d in ms && c != d ==> {ms[c].yes, ms[c].no} !! {ms[d].yes, ms[d].no}
  }

  /** ORDER COVERAGE: in every run, whenever a market's lock is free, every acknowledged live order of its
      tokens is in the list the reconciler is about to see. */
  lemma Coverage(ms: map<string, Tokens>, now: real, steps: seq<Step>, cid: string, id: string)
    requires OwnTokens(ms) && ValidRun(Init(now), ms, steps)
    requires var s := Run(Init(now), ms, steps);
      && cid in ms && PhaseOf(s, cid).Idle?
      && id in s.live && id in s.acked && id in s.used && s.used[id].tokenId in {ms[cid].yes, ms[cid].no}
    ensures var s := Run(Init(now), ms, steps);
      exists o :: o in View(s.orders, ms[cid]) && o.orderId == id && Matches(s.used[id], o)
                  && o.createdTs >= s.used[id].acceptedAt
  {
    var s := Run(Init(now), ms, steps);
    var token := s.used[id].tokenId;
    AlwaysInv(ms, now, steps);
    forall c | c in ms && c in s.phase
      ensures !WipedBy(s.phase[c], ms[c], token)
    {
      if c == cid {
        assert PhaseOf(s, cid) == s.phase[c];
      } else {
        assert {ms[c].yes, ms[c].no} !! {ms[cid].yes, ms[cid].no};
      }
    }
    assert !Wiped(s, ms, token);
    assert Held(s, id);
    InView(s.orders, ms[cid], id);
  }

  lemma InView(orders: Orders, t: Tokens, id: string)
    requires WellFiled(orders) && Get(orders, id).Some? && Get(orders, id).value.tokenId in {t.yes, t.no}
    ensures Get(orders, id).value in View(orders, t) && Get(orders, id).value.orderId == id
  {
    WellFiledId(orders, id);
    var i :| 0 <= i < |orders| && orders[i].0 == id;
    GetEntry(orders, i);
    OrdersForMembers(orders, t.yes);
    OrdersForMembers(orders, t.no);
  }

  /** The list handed to the reconciler never repeats an id. */
  lemma {:induction false} OrdersForUnique(orders: Orders, token: string)
    requires WellFiled(orders)
    ensures R.UniqueIds(OrdersFor(orders, token))
  {
    if orders != [] {
      var n := |orders| - 1;
      OrdersForUnique(orders[..n], token);
      OrdersForMembers(orders[..n], token);
      var view := OrdersFor(orders[..n], token);
      forall i | 0 <= i < |view|
        ensures view[i].orderId != orders[n].1.orderId
      {
        var j :| 0 <= j < n && orders[..n][j].1 == view[i];
        assert orders[j].0 != orders[n].0;
      }
    }
  }

  lemma ViewUnique(orders: Orders, t: Tokens)
    requires WellFiled(orders) && t.yes != t.no
    ensures R.UniqueIds(View(orders, t))
  {
    OrdersForUnique(orders, t.yes);
    OrdersForUnique(orders, t.no);
    OrdersForMembers(orders, t.yes);
    OrdersForMembers(orders, t.no);
    var a, b := OrdersFor(orders, t.yes), OrdersFor(orders, t.no);
    forall i, j | 0 <= i < |a| && 0 <= j < |b|
      ensures a[i].orderId != b[j].orderId
    {
      assert a[i] in a && b[j] in b;
      var k :| 0 <= k < |orders| && orders[k].1 == a[i];
      var l :| 0 <= l < |orders| && orders[l].1 == b[j];
      assert k != l && orders[k].0 != orders[l].0;
    }
  }

  /** NO DOUBLE ORDERS: whatever the targets, the record of an acknowledged live order has the token, side and price of
      the order on the exchange; a quote placed from an idle market fits it only if it is kept for another target. */
  lemma NoDoubleOrders(ms: map<string, Tokens>, now: real, steps: seq<Step>, cid: string, id: string,
                       targets: seq<Quote>, tol: R.Tolerance, i: nat)
    requires OwnTokens(ms) && ValidRun(Init(now), ms, steps)
    requires var s := Run(Init(now), ms, steps);
      && cid in ms && ms[cid].yes != ms[cid].no && PhaseOf(s, cid).Idle?
      && id in s.live && id in s.acked && id in s.used && s.used[id].tokenId in {ms[cid].yes, ms[cid].no}
      && i < |targets| && R.Greedy(targets, View(s.orders, ms[cid]), tol)[i].None?
    ensures var s := Run(Init(now), ms, steps);
      var live := View(s.orders, ms[cid]);
      exists o :: o in live && o.orderId == id && Matches(s.used[id], o)
        && (R.Within(o, targets[i], tol) ==>
              exists j :: 0 <= j < |targets| && j != i && R.Greedy(targets, live, tol)[j] == Some(o))
  {
    var s := Run(Init(now), ms, steps);
    var live := View(s.orders, ms[cid]);
    var g := R.Greedy(targets, live, tol);
    Coverage(ms, now, steps, cid, id);
    AlwaysInv(ms, now, steps);
    ViewUnique(s.orders, ms[cid]);
    var o :| o in live && o.orderId == id && Matches(s.used[id], o);
    if R.Within(o, targets[i], tol) {
      if id !in R.Kept(g) {
        R.Maximal(targets, live, tol, i, o);
      }
      var j :| 0 <= j < |g| && g[j].Some? && g[j].value.orderId == id;
      R.GreedyFacts(targets, live, tol, j);
      assert g[j] == Some(o);
    }
  }

  /** A step that applies a snapshot to a token. */
  ghost predicate Applies(s: State, ms: map<string, Tokens>, step: Step, snap: Snapshot, token: string)
    requires s.live <= s.used.Keys && Enabled(s, ms, step)
  {
    match step
    case RefreshApply(cid) => snap == PhaseOf(s, cid).read.value && token in {ms[cid].yes, ms[cid].no}
    case LoopApply(cid, yes, no) => snap == s.loop.value && ((yes && token == ms[cid].yes) || (no && token == ms[cid].no))
    case RecoveryApply(cid) => snap == s.recovery.value && token in {ms[cid].yes, ms[cid].no}
    case _ => false
  }

  /** ADOPTION: an order the engine never heard of is taken over by the first snapshot applied to its token that lists it,
      be it a refresh, the reconcile loop or heartbeat recovery. */
  lemma Adoption(s: State, ms: map<string, Tokens>, step: Step, snap: Snapshot, token: string, id: string)
    requires Inv(s, ms) && Enabled(s, ms, step) && Applies(s, ms, step, snap, token)
    requires id in s.live && id in Listed(snap, token)
    ensures var s' := Apply(s, ms, step); id in s'.acked && Held(s', id)
  {
    var t := ms[step.cid];
    match step
    case RefreshApply(cid) => BothTokens(s, ms, t, snap, PhaseOf(s, cid).grace);
    case RecoveryApply(cid) => BothTokens(s, ms, t, snap, 0.0);
    case LoopApply(cid, yes, no) =>
      var s1 := if yes then s.(orders := Adopt(s.orders, t.yes, snap, GRACE, s.now), acked := s.acked + Listed(snap, t.yes)) else s;
      if yes {
        OneToken(s, ms, t.yes, snap, GRACE);
      }
      if no {
        OneToken(s1, ms, t.no, snap, GRACE);
      }
  }

  /** EMPTY READ: once an empty list is taken over for both tokens, an order is still known exactly if it was known and is
      of another market or younger than the grace, and then it is the same order. */
  lemma EmptyReadForgets(orders: Orders, t: Tokens, snap: Snapshot, grace: real, now: real, id: string)
    requires WellFiled(orders) && snap.live == []
    ensures var before, after := Get(orders, id), Get(AdoptBoth(orders, t, snap, grace, now), id);
      && (after.Some? <==>
            before.Some? && ((before.value.tokenId != t.yes && before.value.tokenId != t.no) || now - before.value.createdTs < grace))
      && (after.Some? ==> after == before)
  {
    hide ReplaceOpenOrders;
    assert OfToken([], t.yes) == [] && OfToken([], t.no) == [];
    GetReplaced(orders, t.yes, [], grace, now, id);
    FiledReplace(orders, t.yes, [], grace, now);
    GetReplaced(Adopt(orders, t.yes, snap, grace, now), t.no, [], grace, now, id);
  }

  /** Some live order the engine should know of belongs to market `t` and is at least ten seconds old. */
  ghost predicate AgedOrder(s: State, ms: map<string, Tokens>, t: Tokens, id: string) {
    && id in s.live && id in s.used && id in s.acked && !Wiped(s, ms, s.used[id].tokenId)
    && (s.used[id].tokenId == t.yes || s.used[id].tokenId == t.no)
    && Get(s.orders, id).Some? && s.now - Get(s.orders, id).value.createdTs >= 10.0
  }

  /** FAILED READ: a failed read returns the empty list; the loop applying it keeps coverage exactly if no known live
      order of the market has reached the grace. */
  lemma FailedReadKeepsCoverage(s: State, ms: map<string, Tokens>, cid: string)
    requires Sound(s) && Covered(s, ms) && cid in ms && s.loop.Some? && s.loop.value.live == []
    ensures Covered(Apply(s, ms, LoopApply(cid, true, true)), ms) <==> !exists id :: AgedOrder(s, ms, ms[cid], id)
  {
    hide Adopt, WellFiled;
    var s', t := Apply(s, ms, LoopApply(cid, true, true)), ms[cid];
    assert OfToken([], t.yes) == [] && OfToken([], t.no) == [];
    assert s'.acked == s.acked && s'.orders == AdoptBoth(s.orders, t, s.loop.value, GRACE, s.now);
    forall id | id in s.live && id in s.used && id in s.acked && !Wiped(s, ms, s.used[id].tokenId)
      ensures !Wiped(s', ms, s.used[id].tokenId)
      ensures Held(s', id) <==> !AgedOrder(s, ms, t, id)
    {
      assert Held(s, id);
      EmptyReadForgets(s.orders, t, s.loop.value, GRACE, s.now, id);
    }
    assert forall token :: Wiped(s', ms, token) == Wiped(s, ms, token);
  }

  /** A failed read returns the empty list; applying it as if it had succeeded forgets a live order. */
  lemma FailedReadForgets()
    ensures
      var o := OpenOrder("a", "y", BUY, 0.5, 10.0, LIVE, 0.0);
      var s := State(20.0, map["a" := Resting("y", BUY, 0.5, 0.0)], {"a"}, {"a"}, [("a", o)], map[], map[], Some(Snapshot(20.0, [])), None);
      var ms := map["m" := Tokens("y", "n")];
      Sound(s) && Covered(s, ms) && !Covered(Apply(s, ms, LoopApply("m", true, true)), ms)
  {
    hide Adopt;
    var o := OpenOrder("a", "y", BUY, 0.5, 10.0, LIVE, 0.0);
    var snap := Snapshot(20.0, []);
    var s := State(20.0, map["a" := Resting("y", BUY, 0.5, 0.0)], {"a"}, {"a"}, [("a", o)], map[], map[], Some(snap), None);
    var ms := map["m" := Tokens("y", "n")];
    assert Get(s.orders, "a") == Some(o);
    EmptyReadForgets(s.orders, ms["m"], snap, GRACE, 20.0, "a");
    var s' := Apply(s, ms, LoopApply("m", true, true));
    assert !Wiped(s', ms, "y");
    assert !Held(s', "a");
    assert "a" in s'.live && "a" in s'.acked && s'.used["a"].tokenId == "y";
  }
}
