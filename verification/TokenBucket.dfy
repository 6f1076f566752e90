/** The request budget (src/polymaker/execution/ratelimit.py). The monotonic clock is an argument. */
module TokenBucket {
  import opened Dict
  import opened Numerics

  datatype Bucket = Bucket(rate: real, capacity: real, tokens: real, last: real) {
    ghost predicate Valid() { rate > 0.0 && capacity > 0.0 && 0.0 <= tokens <= capacity }
  }

  function Refilled(b: Bucket, now: real): Bucket {
    b.(tokens := Min(b.capacity, b.tokens + (now - b.last) * b.rate), last := now)
  }

  function Taken(b: Bucket, n: real, now: real): Bucket {
    var r := Refilled(b, now);
    r.(tokens := r.tokens - n)
  }

  predicate Affords(b: Bucket, n: real, now: real) {
    Refilled(b, now).tokens >= n
  }

  // ── Refilling ────────────────────────────────────────────────────────

  /** Refills compose: an intermediate refill leaves no trace. */
  lemma RefillComposes(b: Bucket, t: real, now: real)
    requires b.rate > 0.0 && b.last <= t <= now
    ensures Refilled(Refilled(b, t), now) == Refilled(b, now)
  {
    var (a, c) := ((t - b.last) * b.rate, (now - t) * b.rate);
    MulNonNegative(t - b.last, b.rate);
    MulNonNegative(now - t, b.rate);
    assert (now - b.last) * b.rate == a + c;
  }

  lemma RefillValid(b: Bucket, now: real)
    requires b.Valid() && b.last <= now
    ensures Refilled(b, now).Valid() && Refilled(b, now).tokens >= b.tokens
  {
    var inflow := (now - b.last) * b.rate;
    MulNonNegative(now - b.last, b.rate);
    assert inflow >= 0.0 && Refilled(b, now).tokens == Min(b.capacity, b.tokens + inflow);
  }

  /** Sleeping `deficit / rate` or longer brings the bucket to `n`, if the bucket can hold `n` at all. */
  lemma SleepSuffices(b: Bucket, n: real, wake: real)
    requires b.Valid() && b.tokens < n <= b.capacity && wake >= b.last + (n - b.tokens) / b.rate
    ensures Affords(b, n, wake)
  {
    var d := (n - b.tokens) / b.rate;
    MulDiv(n - b.tokens, b.rate);
    assert d * b.rate == n - b.tokens;
    MulNonNegative(wake - b.last - d, b.rate);
    assert (wake - b.last) * b.rate == (wake - b.last - d) * b.rate + d * b.rate;
  }

  /** A request larger than the bucket is never granted, however long it waits. */
  lemma NeverAffords(b: Bucket, n: real, now: real)
    requires b.capacity < n
    ensures !Affords(b, n, now)
  {
    assert Refilled(b, now).tokens <= b.capacity;
  }

  class TokenBucket {
    const rate: real
    const capacity: real
    var tokens: real
    var last: real

    function View(): Bucket
      reads this
    {
      Bucket(rate, capacity, tokens, last)
    }

    constructor (ratePerS: real, burst: Option<real>, now: real)
      requires burst.Some? ==> burst.value > 0.0
      ensures capacity == (if burst.Some? then burst.value else Max(1.0, ratePerS))
      ensures View() == Bucket(Max(ratePerS, 0.001), capacity, capacity, now) && View().Valid()
    {
      rate := Max(ratePerS, 0.001);
      capacity := if burst.Some? then burst.value else Max(1.0, ratePerS);
      tokens := if burst.Some? then burst.value else Max(1.0, ratePerS);
      last := now;
    }

    method Refill(now: real)
      requires View().Valid() && last <= now
      modifies this`tokens, this`last
      ensures View() == Refilled(old(View()), now) && View().Valid()
    {
      RefillValid(View(), now);
      tokens := Min(capacity, tokens + (now - last) * rate);
      last := now;
    }

    /** `acquire`, observed for any number of turns of its loop; `late(k)` is how much longer than asked the k-th sleep
        lasts. A request the bucket can hold is granted after at most one sleep, no earlier than the budget allows; a
        larger one is never granted, however many turns it gets. */
    method Acquire(n: real, now: real, late: nat -> real, turns: nat) returns (granted: Option<real>, sleeps: nat)
      requires View().Valid() && last <= now
      requires n >= 0.0 && forall k :: late(k) >= 0.0
      modifies this`tokens, this`last
      ensures granted.None? <==> turns == 0 || n > capacity || (turns == 1 && !Affords(old(View()), n, now))
      ensures granted.Some? ==>
                && sleeps <= 1 && granted.value >= now
                && (sleeps == 0 <==> Affords(old(View()), n, now)) && Affords(old(View()), n, granted.value)
                && View() == Taken(old(View()), n, granted.value)
      ensures granted.None? && turns > 0 ==> View() == Refilled(old(View()), last)
      ensures View().Valid()
    {
      ghost var start := View();
      var at := now;
      sleeps := 0;
      while sleeps < turns
        invariant View().Valid() && last <= at && now <= at && start.last <= last
        invariant sleeps <= turns && (n <= capacity ==> sleeps <= 1)
        invariant sleeps == 0 ==> View() == start && at == now
        invariant sleeps > 0 ==> View() == Refilled(start, last) && !Affords(start, n, now)
        invariant sleeps > 0 && n <= capacity ==> Affords(View(), n, at)
      {
        ghost var before := View();
        Refill(at);
        RefillComposes(start, before.last, at);
        if tokens >= n {
          tokens := tokens - n;
          return Some(at), sleeps;
        }
        var deficit := n - tokens;
        MulMono(0.0, deficit, rate);
        if n <= capacity {
          SleepSuffices(View(), n, at + deficit / rate + late(sleeps));
        }
        at := at + deficit / rate + late(sleeps);
        sleeps := sleeps + 1;
      }
      granted := None;
    }

    /** `pressure`: 0 with budget to spare, 1 when empty; it refills on the way. */
    method Pressure(now: real) returns (p: real)
      requires View().Valid() && last <= now
      modifies this`tokens, this`last
      ensures View() == Refilled(old(View()), now) && View().Valid()
      ensures 0.0 <= p <= 1.0 && (p == 1.0 <==> tokens == 0.0) && (p == 0.0 <==> tokens == capacity)
      ensures p * capacity == capacity - tokens
    {
      Refill(now);
      p := 1.0 - Min(1.0, tokens / capacity);
      ghost var share := tokens / capacity;
      MulDiv(tokens, capacity);
      assert share * capacity == tokens;
      MulMono(0.0, share, capacity);
      MulMono(share, 1.0, capacity);
      assert p == 1.0 - share && (1.0 - share) * capacity == capacity - share * capacity;
    }
  }

  // ── Runs ─────────────────────────────────────────────────────────────

  /** What touches a bucket: a pressure read, or a grant of `n` at the moment it is affordable. */
  datatype Event = Read(at: real) | Grant(at: real, n: real)

  function After(b: Bucket, e: Event): Bucket {
    match e
    case Read(at) => Refilled(b, at)
    case Grant(at, n) => Taken(b, n, at)
  }

  function Run(b: Bucket, es: seq<Event>): Bucket {
    if es == [] then b else After(Run(b, es[..|es| - 1]), es[|es| - 1])
  }

  /** Times never go back, and every grant was affordable. */
  ghost predicate Legal(b: Bucket, es: seq<Event>) {
    es == [] ||
    var before, e := Run(b, es[..|es| - 1]), es[|es| - 1];
    && Legal(b, es[..|es| - 1])
    && before.last <= e.at
    && (e.Grant? ==> e.n >= 0.0 && Affords(before, e.n, e.at))
  }

  function Granted(es: seq<Event>): real {
    if es == [] then 0.0
    else Granted(es[..|es| - 1]) + Spent(es[|es| - 1])
  }

  lemma {:induction false} RunValid(b: Bucket, es: seq<Event>)
    requires b.Valid() && Legal(b, es)
    ensures Run(b, es).Valid() && Run(b, es).rate == b.rate && Run(b, es).capacity == b.capacity
    ensures b.last <= Run(b, es).last
  {
    if es != [] {
      var n := |es| - 1;
      RunValid(b, es[..n]);
      RefillValid(Run(b, es[..n]), es[n].at);
    }
  }

  /** What flowed in over a run, refill by refill. */
  function Inflow(b: Bucket, es: seq<Event>): real {
    if es == [] then 0.0
    else
      var before := Run(b, es[..|es| - 1]);
      Inflow(b, es[..|es| - 1]) + Flow(before, es[|es| - 1].at)
  }

  lemma {:induction false} InflowIsElapsed(b: Bucket, es: seq<Event>)
    ensures Inflow(b, es) == Flow(b, Run(b, es).last)
    ensures Run(b, es).rate == b.rate
  {
    if es != [] {
      InflowIsElapsed(b, es[..|es| - 1]);
      FlowAdds(b, Run(b, es[..|es| - 1]), es[|es| - 1].at);
    }
  }

  lemma FlowAdds(b: Bucket, mid: Bucket, at: real)
    requires mid.rate == b.rate
    ensures Flow(b, mid.last) + Flow(mid, at) == Flow(b, at)
  {
  }

  lemma FlowMono(b: Bucket, t: real, until: real)
    requires b.rate > 0.0 && t <= until
    ensures Flow(b, t) <= Flow(b, until)
  {
    MulMono(t - b.last, until - b.last, b.rate);
  }

  /** Grants and what is left never exceed what was there and what flowed in. */
  lemma {:induction false} Budget(b: Bucket, es: seq<Event>)
    ensures Granted(es) + Run(b, es).tokens <= b.tokens + Inflow(b, es)
  {
    if es != [] {
      Budget(b, es[..|es| - 1]);
      AfterTokens(Run(b, es[..|es| - 1]), es[|es| - 1]);
    }
  }

  /** What one refill adds, if the bucket has room. */
  function Flow(b: Bucket, at: real): real { (at - b.last) * b.rate }

  function Spent(e: Event): real { if e.Grant? then e.n else 0.0 }

  lemma AfterTokens(b: Bucket, e: Event)
    ensures After(b, e).tokens + Spent(e) <= b.tokens + Flow(b, e.at)
  {
  }

  lemma {:induction false} LastEvent(b: Bucket, es: seq<Event>, until: real)
    requires b.last <= until && forall i :: 0 <= i < |es| ==> es[i].at <= until
    ensures Run(b, es).last <= until
  {
  }

  /** From a given moment on, grants are bounded by what is stored and what flows in. */
  lemma WindowBudget(w: Bucket, window: seq<Event>, until: real)
    requires w.Valid() && w.last <= until && Legal(w, window)
    requires forall i :: 0 <= i < |window| ==> window[i].at <= until
    ensures Granted(window) <= w.tokens + Flow(w, until)
  {
    RunValid(w, window);
    Budget(w, window);
    LastEvent(w, window, until);
    InflowIsElapsed(w, window);
    FlowMono(w, Run(w, window).last, until);
  }

  /** A pressure read changes nothing that is granted later. */
  lemma ReadIsHarmless(b: Bucket, t: real, n: real, now: real)
    requires b.Valid() && b.last <= t <= now
    ensures Affords(Refilled(b, t), n, now) <==> Affords(b, n, now)
    ensures Taken(Refilled(b, t), n, now) == Taken(b, n, now)
  {
    RefillComposes(b, t, now);
  }

  lemma {:induction false} RunConcat(b: Bucket, pre: seq<Event>, mid: seq<Event>)
    requires Legal(b, pre + mid)
    ensures Legal(b, pre) && Legal(Run(b, pre), mid)
    ensures Run(b, pre + mid) == Run(Run(b, pre), mid)
  {
    if mid == [] {
      assert pre + mid == pre;
    } else {
      var n := |mid| - 1;
      assert (pre + mid)[..|pre| + n] == pre + mid[..n];
      RunConcat(b, pre, mid[..n]);
    }
  }

  /** Neither does one put at the start of a whole run. */
  lemma {:induction false} ReadBefore(w: Bucket, mid: seq<Event>, t: real)
    requires w.Valid() && w.last <= t && Legal(w, mid) && forall i :: 0 <= i < |mid| ==> t <= mid[i].at
    ensures Legal(Refilled(w, t), mid)
    ensures mid != [] ==> Run(Refilled(w, t), mid) == Run(w, mid)
  {
    if mid != [] {
      var n := |mid| - 1;
      ReadBefore(w, mid[..n], t);
      if n == 0 {
        RefillComposes(w, t, mid[n].at);
        if mid[n].Grant? {
          ReadIsHarmless(w, t, mid[n].n, mid[n].at);
        }
      }
    }
  }

  lemma FlowFrom(w: Bucket, from: real, until: real, rate: real)
    requires w.rate == rate
    ensures Flow(Refilled(w, from), until) == Times(until - from, rate)
  {
  }

  lemma StoredInRange(b: Bucket, es: seq<Event>)
    requires b.Valid() && Legal(b, es)
    ensures 0.0 <= Run(b, es).tokens <= b.capacity
  {
    RunValid(b, es);
  }

  lemma WindowFrom(w: Bucket, mid: seq<Event>, from: real, until: real)
    requires w.Valid() && w.last <= from <= until && Legal(w, mid)
    requires forall i :: 0 <= i < |mid| ==> from <= mid[i].at <= until
    ensures Granted(mid) <= w.capacity + Flow(Refilled(w, from), until)
  {
    hide Flow, Run, Legal, Granted;
    RefillValid(w, from);
    ReadBefore(w, mid, from);
    WindowBudget(Refilled(w, from), mid, until);
  }

  /** RATE BOUND: in every run, the tokens granted in any window of time are at most the capacity plus the rate times
      its length, and the stored tokens stay in range. The window need not start or end at an event. */
  lemma RateBound(b: Bucket, pre: seq<Event>, mid: seq<Event>, from: real, until: real)
    requires b.Valid() && Legal(b, pre + mid) && Run(b, pre).last <= from <= until
    requires forall i :: 0 <= i < |mid| ==> from <= mid[i].at <= until
    ensures Granted(mid) <= b.capacity + Times(until - from, b.rate)
    ensures 0.0 <= Run(b, pre + mid).tokens <= b.capacity
  {
    hide Refilled, Flow, Run, Legal, Granted, Bucket.Valid, Times;
    assert 0.0 <= Run(b, pre + mid).tokens <= b.capacity by { StoredInRange(b, pre + mid); }
    RunConcat(b, pre, mid);
    RunValid(b, pre);
    WindowFrom(Run(b, pre), mid, from, until);
    FlowFrom(Run(b, pre), from, until, b.rate);
  }

  /** Only the grants of a run. */
  function Grants(es: seq<Event>): seq<Event> {
    if es == [] then []
    else Grants(es[..|es| - 1]) + if es[|es| - 1].Grant? then [es[|es| - 1]] else []
  }

  /** READS ARE INVISIBLE: a run with its pressure reads removed is legal, grants the same, and leaves the
      same budget at every later time. */
  lemma {:induction false} ReadsAreInvisible(b: Bucket, es: seq<Event>, now: real)
    requires b.Valid() && Legal(b, es) && Run(b, es).last <= now
    ensures Legal(b, Grants(es)) && Granted(Grants(es)) == Granted(es)
    ensures Run(b, Grants(es)).last <= Run(b, es).last
    ensures Refilled(Run(b, Grants(es)), now) == Refilled(Run(b, es), now)
  {
    if es != [] {
      var n := |es| - 1;
      var (before, e) := (Run(b, es[..n]), es[n]);
      var gs := Grants(es[..n]);
      RunValid(b, es[..n]);
      ReadsAreInvisible(b, es[..n], e.at);
      RunValid(b, gs);
      if e.Grant? {
        assert Grants(es) == gs + [e] && (gs + [e])[..|gs|] == gs;
        assert Run(b, gs + [e]) == Taken(Run(b, gs), e.n, e.at) == Taken(before, e.n, e.at) == Run(b, es);
      } else {
        assert Grants(es) == gs;
        RefillComposes(before, e.at, now);
        RefillComposes(Run(b, gs), e.at, now);
      }
    }
  }
}
