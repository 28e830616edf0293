/** The in-memory sliding-window rate limiter: per-key queues of admitted timestamps, bounded by
    the limit and swept in the background, against a limiter that counts the full history. */
module RateLimit {
  import opened Wrappers

  // ---------------------------------------------------------------- behaviour

  type Queues = map<string, seq<int>>

  datatype Limit = Limit(max: int, duration: int)

  predicate Expired(queue: seq<int>, now: int, expiration: int) {
    queue == [] || now - queue[|queue| - 1] > expiration
  }

  /** The decision and the queue left behind for one key. */
  function Decide(queue: Option<seq<int>>, limit: Limit, now: int): (bool, seq<int>) {
    match queue
    case None => (true, [now])
    case Some(q) =>
      if |q| < limit.max then (true, q + [now])
      else if q != [] && now - q[0] >= limit.duration then (true, q[1..] + [now])
      else (false, q)
  }

  function Find(store: Queues, key: string): Option<seq<int>> {
    if key in store then Some(store[key]) else None
  }

  function Sweep(store: Queues, now: int, expiration: int): Queues {
    map k | k in store && !Expired(store[k], now, expiration) :: store[k]
  }

  class InMemoryRateLimiter {
    var store: Queues
    const expiration: int

    constructor (expiration: int)
      ensures store == map[] && this.expiration == expiration
    {
      store := map[];
      this.expiration := expiration;
    }

    /** A queue in the store is never empty: it is created with its first timestamp and loses one
        only when it gains one. */
    ghost predicate Valid()
      reads this
    {
      forall k :: k in store ==> store[k] != []
    }

    /** Allocating the queue of a new key panics for a negative limit; the deferred unlock runs and the
        store stays as it was. */
    method Request(key: string, limit: Limit, now: int) returns (admitted: bool, panics: bool)
      requires Valid()
      modifies this
      ensures Valid() && panics == (key !in old(store) && limit.max < 0)
      ensures panics ==> store == old(store)
      ensures !panics ==>
        && key in store && (admitted, store[key]) == Decide(Find(old(store), key), limit, now)
        && store == old(store)[key := store[key]]
    {
      panics := false;
      if key in store {
        var queue := store[key];
        if |queue| < limit.max {
          store := store[key := queue + [now]];
          return true, false;
        } else if now - queue[0] >= limit.duration {
          store := store[key := queue[1..] + [now]];
          return true, false;
        } else {
          return false, false;
        }
      }
      if limit.max < 0 { return false, true; }
      store := store[key := [now]];
      return true, false;
    }

    /** One pass of the background sweep. */
    method ClearExpiredItems(now: int)
      requires Valid()
      modifies this
      ensures Valid() && store == Sweep(old(store), now, expiration)
    {
      var pending := store.Keys;
      while pending != {}
        invariant pending <= store.Keys <= old(store).Keys
        invariant forall k :: k in store ==> store[k] == old(store)[k]
        invariant forall k :: k in old(store) && k !in pending ==>
                                (k in store <==> !Expired(old(store)[k], now, expiration))
        decreases |pending|
      {
        var key :| key in pending;
        var queue := store[key];
        var size := |queue|;
        if size == 0 || now - queue[size - 1] > expiration {
          store := store - {key};
        }
        pending := pending - {key};
      }
    }

    method Reset()
      modifies this
      ensures Valid() && store == map[]
    {
      var pending := store.Keys;
      while pending != {}
        invariant store.Keys == pending
        decreases |pending|
      {
        var key :| key in pending;
        store := store - {key};
        pending := pending - {key};
      }
    }
  }

  // ------------------------------------------------------------- whole histories

  datatype Event = Request(key: string, at: int) | Clean(at: int) | Clear(at: int)

  /** The limiter next to the complete, never pruned history of what it admitted since the last
      reset. */
  datatype World = World(store: Queues, history: map<string, seq<int>>, clock: int)

  function History(w: World, key: string): seq<int> {
    if key in w.history then w.history[key] else []
  }

  function Step(w: World, e: Event, limits: string -> Limit, expiration: int): World {
    match e
    case Request(key, at) =>
      var (admitted, queue) := Decide(Find(w.store, key), limits(key), at);
      World(w.store[key := queue],
            if admitted then w.history[key := History(w, key) + [at]] else w.history, at)
    case Clean(at) => World(Sweep(w.store, at, expiration), w.history, at)
    case Clear(at) => World(map[], map[], at)
  }

  function Exec(events: seq<Event>, start: int, limits: string -> Limit, expiration: int): World {
    if events == [] then World(map[], map[], start)
    else
      Step(Exec(events[..|events| - 1], start, limits, expiration), events[|events| - 1], limits, expiration)
  }

  /** The clock never goes back. */
  predicate Timely(events: seq<Event>, start: int) {
    (events != [] ==> start <= events[0].at) &&
    forall i :: 0 < i < |events| ==> events[i - 1].at <= events[i].at
  }

  /** How many timestamps lie in (lo, hi]. */
  function CountIn(ts: seq<int>, lo: int, hi: int): nat {
    if ts == [] then 0
    else CountIn(ts[..|ts| - 1], lo, hi) + (if lo < ts[|ts| - 1] <= hi then 1 else 0)
  }

  /** The admissions in the window of the limit's length that ends at t. */
  function Window(history: seq<int>, limit: Limit, t: int): nat {
    CountIn(history, t - limit.duration, t)
  }

  /** The specification: fewer than `max` admissions in the window that ends now. */
  predicate Allowed(history: seq<int>, limit: Limit, now: int) {
    Window(history, limit, now) < limit.max
  }

  // ------------------------------------------------------------------- counting

  lemma {:induction false} CountConcat(a: seq<int>, b: seq<int>, lo: int, hi: int)
    ensures CountIn(a + b, lo, hi) == CountIn(a, lo, hi) + CountIn(b, lo, hi)
  {
    if b == [] {
      assert a + b == a;
    } else {
      var n := |b| - 1;
      assert (a + b)[..|a| + n] == a + b[..n];
      CountConcat(a, b[..n], lo, hi);
    }
  }

  lemma {:induction false} CountAtMost(ts: seq<int>, lo: int, hi: int)
    ensures CountIn(ts, lo, hi) <= |ts|
  {
    if ts != [] { CountAtMost(ts[..|ts| - 1], lo, hi); }
  }

  lemma {:induction false} CountStale(ts: seq<int>, lo: int, hi: int)
    requires forall i :: 0 <= i < |ts| ==> ts[i] <= lo
    ensures CountIn(ts, lo, hi) == 0
  {
    if ts != [] { CountStale(ts[..|ts| - 1], lo, hi); }
  }

  lemma {:induction false} CountAll(ts: seq<int>, lo: int, hi: int)
    requires forall i :: 0 <= i < |ts| ==> lo < ts[i] <= hi
    ensures CountIn(ts, lo, hi) == |ts|
  {
    if ts != [] { CountAll(ts[..|ts| - 1], lo, hi); }
  }

  /** A later, narrower window over the same past holds no more. */
  lemma {:induction false} CountShrinks(ts: seq<int>, lo: int, hi: int, lo': int, hi': int)
    requires lo <= lo' && forall i :: 0 <= i < |ts| ==> ts[i] <= hi
    ensures CountIn(ts, lo', hi') <= CountIn(ts, lo, hi)
  {
    if ts != [] { CountShrinks(ts[..|ts| - 1], lo, hi, lo', hi'); }
  }

  // ------------------------------------------------------------------ invariant

  predicate Ordered(h: seq<int>, clock: int) {
    && (forall i, j :: 0 <= i <= j < |h| ==> h[i] <= h[j])
    && (forall i :: 0 <= i < |h| ==> h[i] <= clock)
  }

  predicate Stale(h: seq<int>, bound: int) { forall i :: 0 <= i < |h| ==> h[i] <= bound }

  /** The queue of a key is the end of its history; what is missing can no longer matter. */
  ghost predicate KeyOk(queue: Option<seq<int>>, h: seq<int>, limit: Limit, clock: int) {
    && Ordered(h, clock)
    && match queue
       case None => Stale(h, clock - limit.duration)
       case Some(q) =>
         && 0 < |q| <= limit.max && |q| <= |h| && q == h[|h| - |q|..]
         && (|q| < limit.max ==> Stale(h[..|h| - |q|], clock - limit.duration))
  }

  /** No window of the limit's length holds more than the limit. */
  ghost predicate Bounded(h: seq<int>, limit: Limit) {
    forall t: int :: Window(h, limit, t) <= limit.max
  }

  ghost predicate WorldOk(w: World, limits: string -> Limit) {
    forall key :: KeyOk(Find(w.store, key), History(w, key), limits(key), w.clock)
                  && Bounded(History(w, key), limits(key))
  }

  /** The bounded queue decides exactly as the full history would. */
  lemma DecidesByHistory(queue: Option<seq<int>>, h: seq<int>, limit: Limit, clock: int, now: int)
    requires KeyOk(queue, h, limit, clock) && limit.max >= 1 && clock <= now
    ensures Decide(queue, limit, now).0 <==> Allowed(h, limit, now)
  {
    var lo := now - limit.duration;
    match queue
    case None => CountStale(h, lo, now);
    case Some(q) =>
      var dropped := h[..|h| - |q|];
      assert h == dropped + q;
      CountConcat(dropped, q, lo, now);
      if |q| < limit.max {
        CountStale(dropped, lo, now);
        CountAtMost(q, lo, now);
      } else if now - q[0] >= limit.duration {
        CountStale(dropped, lo, now);
        assert q == [q[0]] + q[1..];
        CountConcat([q[0]], q[1..], lo, now);
        CountStale([q[0]], lo, now);
        CountAtMost(q[1..], lo, now);
      } else {
        CountAll(q, lo, now);
      }
  }

  lemma BoundedGrows(h: seq<int>, limit: Limit, clock: int, now: int)
    requires Ordered(h, clock) && clock <= now && Bounded(h, limit) && Allowed(h, limit, now)
    ensures Bounded(h + [now], limit)
  {
    forall t: int ensures Window(h + [now], limit, t) <= limit.max {
      assert Window(h, limit, t) <= limit.max;
      assert (h + [now])[..|h|] == h;
      if t - limit.duration < now <= t {
        CountShrinks(h, now - limit.duration, now, t - limit.duration, t);
      }
    }
  }

  lemma KeyAdmits(queue: Option<seq<int>>, h: seq<int>, limit: Limit, clock: int, now: int)
    requires KeyOk(queue, h, limit, clock) && limit.max >= 1 && clock <= now
    requires Decide(queue, limit, now).0
    ensures KeyOk(Some(Decide(queue, limit, now).1), h + [now], limit, now)
  {
    var q' := Decide(queue, limit, now).1;
    var h' := h + [now];
    assert q' == h'[|h'| - |q'|..];
    if queue.Some? && |queue.value| < limit.max {
      assert h'[..|h'| - |q'|] == h[..|h| - |queue.value|];
    } else if queue.None? {
      assert h'[..|h'| - |q'|] == h;
    }
  }

  lemma KeyWaits(queue: Option<seq<int>>, h: seq<int>, limit: Limit, clock: int, now: int)
    requires KeyOk(queue, h, limit, clock) && clock <= now
    ensures KeyOk(queue, h, limit, now)
  {
  }

  lemma RequestKeeps(w: World, key: string, now: int, limits: string -> Limit, expiration: int)
    requires WorldOk(w, limits) && w.clock <= now && limits(key).max >= 1
    ensures WorldOk(Step(w, Request(key, now), limits, expiration), limits)
  {
    var w' := Step(w, Request(key, now), limits, expiration);
    forall k ensures KeyOk(Find(w'.store, k), History(w', k), limits(k), now) && Bounded(History(w', k), limits(k)) {
      var queue, h := Find(w.store, k), History(w, k);
      if k == key && Decide(queue, limits(k), now).0 {
        DecidesByHistory(queue, h, limits(k), w.clock, now);
        KeyAdmits(queue, h, limits(k), w.clock, now);
        BoundedGrows(h, limits(k), w.clock, now);
      } else {
        KeyWaits(queue, h, limits(k), w.clock, now);
      }
    }
  }

  /** A sweep forgets only queues whose newest entry is out of every window to come. */
  lemma CleanKeeps(w: World, now: int, limits: string -> Limit, expiration: int)
    requires WorldOk(w, limits) && w.clock <= now
    requires forall k :: limits(k).duration <= expiration + 1
    ensures WorldOk(Step(w, Clean(now), limits, expiration), limits)
  {
    var w' := Step(w, Clean(now), limits, expiration);
    forall k ensures KeyOk(Find(w'.store, k), History(w', k), limits(k), now) && Bounded(History(w', k), limits(k)) {
      var queue, h := Find(w.store, k), History(w, k);
      KeyWaits(queue, h, limits(k), w.clock, now);
      if queue.Some? && k !in w'.store {
        var q := queue.value;
        assert q[|q| - 1] == h[|h| - 1];
      }
    }
  }

  lemma {:induction false} ExecOk(events: seq<Event>, start: int, limits: string -> Limit, expiration: int)
    requires Timely(events, start)
    requires forall k :: limits(k).max >= 1 && limits(k).duration <= expiration + 1
    ensures
      var w := Exec(events, start, limits, expiration);
      && WorldOk(w, limits)
      && w.clock == (if events == [] then start else events[|events| - 1].at)
  {
    if events == [] {
    } else {
      var n := |events| - 1;
      var past := events[..n];
      ExecOk(past, start, limits, expiration);
      var w := Exec(past, start, limits, expiration);
      match events[n] {
        case Request(key, at) => RequestKeeps(w, key, at, limits, expiration);
        case Clean(at) => CleanKeeps(w, at, limits, expiration);
        case Clear(at) =>
      }
    }
  }

  /** For every run of requests, sweeps and resets with a clock that never goes back, the next
      request is admitted if and only if fewer than `max` requests were admitted in the window
      (now - duration, now] of the whole unpruned history; and no window of that length, wherever
      it ends, ever held more than `max`. */
  lemma SlidingWindow(events: seq<Event>, start: int, limits: string -> Limit, expiration: int, key: string, now: int)
    requires Timely(events, start)
    requires forall k :: limits(k).max >= 1 && limits(k).duration <= expiration + 1
    requires (if events == [] then start else events[|events| - 1].at) <= now
    ensures
      var w := Exec(events, start, limits, expiration);
      && (Decide(Find(w.store, key), limits(key), now).0 <==> Allowed(History(w, key), limits(key), now))
      && Bounded(History(w, key), limits(key))
  {
    ExecOk(events, start, limits, expiration);
    var w := Exec(events, start, limits, expiration);
    DecidesByHistory(Find(w.store, key), History(w, key), limits(key), w.clock, now);
  }

  // ------------------------------------------------- the conditions are needed

  function Burst(key: string, n: nat): seq<Event> { seq(n, i => Request(key, 0)) }

  lemma {:induction false} BurstFills(key: string, n: nat, limits: string -> Limit, expiration: int)
    requires 1 <= n <= limits(key).max
    ensures
      var w := Exec(Burst(key, n), 0, limits, expiration);
      w.store == map[key := seq(n, i => 0)] && History(w, key) == seq(n, i => 0)
  {
    assert Burst(key, n)[..n - 1] == Burst(key, n - 1);
    if n == 1 {
      assert Exec(Burst(key, 0), 0, limits, expiration) == World(map[], map[], 0);
      assert [0] == seq(1, i => 0);
    } else {
      BurstFills(key, n - 1, limits, expiration);
      assert seq(n - 1, i => 0) + [0] == seq(n, i => 0);
    }
  }

  /** When a window outlasts the expiration by more than a second, a full burst at time 0, a sweep
      just after the expiration and one more request break the limit: the request is admitted
      although the window still holds `max` admissions. */
  lemma ShortExpirationBreaks(key: string, limits: string -> Limit, expiration: int)
    requires expiration > 0 && limits(key).max >= 1 && limits(key).duration > expiration + 1
    ensures
      var w := Exec(Burst(key, limits(key).max) + [Clean(expiration + 1)], 0, limits, expiration);
      Decide(Find(w.store, key), limits(key), expiration + 1).0
      && !Allowed(History(w, key), limits(key), expiration + 1)
  {
    var n, now := limits(key).max, expiration + 1;
    var events := Burst(key, n) + [Clean(now)];
    assert events[..n] == Burst(key, n);
    BurstFills(key, n, limits, expiration);
    CountAll(seq(n, i => 0), now - limits(key).duration, now);
  }

  /** A limit of zero still lets the first request of a fresh key through. */
  lemma ZeroLimitAdmitsFirst(key: string, limits: string -> Limit, expiration: int, now: int)
    requires limits(key).max == 0
    ensures
      var w := Exec([], now, limits, expiration);
      Decide(Find(w.store, key), limits(key), now).0 && !Allowed(History(w, key), limits(key), now)
  {
  }
}
