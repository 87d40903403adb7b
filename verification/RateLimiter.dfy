/**
  The in-memory sliding-window rate limiter, whose queues are trimmed on use and dropped by a background
  sweep, compared with a limiter that remembers every grant.
 */
module RateLimiter {

  type Store = map<string, seq<int>>

  /**
    What one key is allowed, and when idle keys are forgotten. The limit and the window (in seconds) of a
    key are fixed; the sweep runs only for a positive expiration, `expiry` seconds after truncation.
   */
  datatype Config = Config(limit: string -> nat, window: string -> int, expiry: nat, sweeping: bool)

  /** Every stored queue holds at least one grant time. */
  predicate NonEmpty(store: Store) {
    forall key :: key in store ==> store[key] != []
  }

  /** Whether `Request` grants, given the queue of the key if there is one. */
  predicate Grants(store: Store, key: string, limit: nat, window: int, now: int)
    requires NonEmpty(store)
  {
    key !in store || |store[key]| < limit || now - store[key][0] >= window
  }

  function Granted(store: Store, key: string, limit: nat, now: int): Store
    requires NonEmpty(store)
  {
    if key !in store then store[key := [now]]
    else if |store[key]| < limit then store[key := store[key] + [now]]
    else store[key := store[key][1..] + [now]]
  }

  predicate Stale(queue: seq<int>, expiry: nat, now: int) {
    queue == [] || now - queue[|queue| - 1] > expiry
  }

  function Swept(store: Store, expiry: nat, now: int): Store {
    map key | key in store && !Stale(store[key], expiry, now) :: store[key]
  }

  class InMemoryRateLimiter {
    var store: Store
    const expiry: nat

    constructor (expiry: nat)
      ensures store == map[] && this.expiry == expiry
    {
      store := map[];
      this.expiry := expiry;
    }

    /** `Request` */
    method Request(key: string, limit: nat, window: int, now: int) returns (ok: bool)
      requires NonEmpty(store)
      modifies this
      ensures ok == Grants(old(store), key, limit, window, now)
      ensures store == if ok then Granted(old(store), key, limit, now) else old(store)
      ensures NonEmpty(store)
    {
      if key in store {
        var queue := store[key];
        if |queue| < limit {
          store := store[key := queue + [now]];
          return true;
        } else if now - queue[0] >= window {
          queue := queue[1..];
          store := store[key := queue + [now]];
          return true;
        } else {
          return false;
        }
      }
      store := store[key := []];
      assert store[key] + [now] == [now];
      store := store[key := store[key] + [now]];
      return true;
    }

    /** One pass of `clearExpiredItems`. */
    method ClearExpired(now: int)
      modifies this
      ensures store == Swept(old(store), expiry, now)
    {
      var rest := store.Keys;
      while rest != {}
        invariant rest <= store.Keys
        invariant forall key :: key in store
                                <==> key in old(store) && (key in rest || !Stale(old(store)[key], expiry, now))
        invariant forall key :: key in store ==> store[key] == old(store)[key]
        decreases |rest|
      {
        var key :| key in rest;
        rest := rest - {key};
        var queue := store[key];
        if |queue| == 0 || now - queue[|queue| - 1] > expiry {
          store := store - {key};
        }
      }
    }
  }

  // ---------------------------------------------------------------- the full history

  /** Grants younger than the window. */
  function Young(grants: seq<int>, window: int, now: int): nat {
    if grants == [] then 0
    else Young(grants[..|grants| - 1], window, now) + (if now - grants[|grants| - 1] < window then 1 else 0)
  }

  function Of(history: Store, key: string): seq<int> {
    if key in history then history[key] else []
  }

  /** The specification: grant while fewer than `limit` earlier grants are younger than the window. */
  predicate SpecGrants(history: Store, key: string, limit: nat, window: int, now: int) {
    Young(Of(history, key), window, now) < limit
  }

  datatype Event = Request(key: string, now: int) | Sweep(now: int)

  /** The decisions taken on a sequence of events, in order. */
  function Decisions(cfg: Config, store: Store, events: seq<Event>): seq<bool>
    requires NonEmpty(store)
    decreases |events|
  {
    if events == [] then []
    else
      match events[0]
      case Sweep(now) => Decisions(cfg, Swept(store, cfg.expiry, now), events[1..])
      case Request(key, now) =>
        if Grants(store, key, cfg.limit(key), cfg.window(key), now)
        then [true] + Decisions(cfg, Granted(store, key, cfg.limit(key), now), events[1..])
        else [false] + Decisions(cfg, store, events[1..])
  }

  function SpecDecisions(cfg: Config, history: Store, events: seq<Event>): seq<bool>
    decreases |events|
  {
    if events == [] then []
    else
      match events[0]
      case Sweep(_) => SpecDecisions(cfg, history, events[1..])
      case Request(key, now) =>
        if SpecGrants(history, key, cfg.limit(key), cfg.window(key), now)
        then [true] + SpecDecisions(cfg, history[key := Of(history, key) + [now]], events[1..])
        else [false] + SpecDecisions(cfg, history, events[1..])
  }

  /** The clock never goes back, and sweeps happen only where they are enabled. */
  predicate Timely(cfg: Config, clock: int, events: seq<Event>)
    decreases |events|
  {
    events == [] ||
    (clock <= events[0].now && (events[0].Sweep? ==> cfg.sweeping) && Timely(cfg, events[0].now, events[1..]))
  }

  // ---------------------------------------------------------------- refinement

  predicate Ordered(grants: seq<int>, clock: int) {
    && (forall i, j :: 0 <= i < j < |grants| ==> grants[i] <= grants[j])
    && (forall i :: 0 <= i < |grants| ==> grants[i] <= clock)
  }

  lemma {:induction false} YoungAtMost(grants: seq<int>, window: int, now: int, k: nat)
    requires k <= |grants| && forall i :: 0 <= i < |grants| - k ==> now - grants[i] >= window
    ensures Young(grants, window, now) <= k
    decreases |grants|
  {
    if |grants| > 0 {
      YoungAtMost(grants[..|grants| - 1], window, now, if k == 0 then 0 else k - 1);
    }
  }

  lemma {:induction false} YoungAtLeast(grants: seq<int>, window: int, now: int, k: nat)
    requires k <= |grants| && forall i :: |grants| - k <= i < |grants| ==> now - grants[i] < window
    ensures Young(grants, window, now) >= k
    decreases |grants|
  {
    if k > 0 {
      YoungAtLeast(grants[..|grants| - 1], window, now, k - 1);
    }
  }

  /**
    The queue of a key is the tail of its history that can still matter: what was forgotten is outside the
    window, unless the queue is full.
   */
  predicate Tracks(store: Store, history: Store, key: string, limit: nat, window: int, clock: int) {
    var grants := Of(history, key);
    var queue := Of(store, key);
    && Ordered(grants, clock)
    && |queue| <= |grants| && |queue| <= limit
    && grants[|grants| - |queue|..] == queue
    && (|queue| < limit ==> forall i :: 0 <= i < |grants| - |queue| ==> clock - grants[i] >= window)
  }

  ghost predicate Refines(cfg: Config, store: Store, history: Store, clock: int) {
    && NonEmpty(store)
    && forall key :: Tracks(store, history, key, cfg.limit(key), cfg.window(key), clock)
  }

  lemma SameDecision(store: Store, history: Store, key: string, limit: nat, window: int, clock: int, now: int)
    requires NonEmpty(store) && limit >= 1 && clock <= now
    requires Tracks(store, history, key, limit, window, clock)
    ensures Grants(store, key, limit, window, now) <==> SpecGrants(history, key, limit, window, now)
  {
    var grants, queue := Of(history, key), Of(store, key);
    if |queue| < limit {
      YoungAtMost(grants, window, now, |queue|);
    } else {
      assert queue[0] == grants[|grants| - |queue|];
      if now - queue[0] >= window {
        YoungAtMost(grants, window, now, |queue| - 1);
      } else {
        YoungAtLeast(grants, window, now, |queue|);
      }
    }
  }

  lemma GrantTracks(store: Store, history: Store, key: string, limit: nat, window: int, clock: int, now: int)
    requires NonEmpty(store) && limit >= 1 && clock <= now
    requires Tracks(store, history, key, limit, window, clock)
    requires Grants(store, key, limit, window, now)
    ensures Tracks(Granted(store, key, limit, now), history[key := Of(history, key) + [now]], key, limit, window, now)
  {
    var grants, queue := Of(history, key), Of(store, key);
    assert Ordered(grants + [now], now);
    TailGrant(grants, queue, now);
    if key !in store {
      assert [] + [now] == [now];
    }
  }

  lemma TailGrant(grants: seq<int>, queue: seq<int>, now: int)
    requires |queue| <= |grants| && grants[|grants| - |queue|..] == queue
    ensures (grants + [now])[|grants| - |queue|..] == queue + [now]
    ensures queue != [] ==> (grants + [now])[|grants| - |queue| + 1..] == queue[1..] + [now]
  {
    assert (grants + [now])[|grants| - |queue|..] == grants[|grants| - |queue|..] + [now];
  }

  lemma SweepTracks(store: Store, history: Store, key: string, limit: nat, window: int, clock: int, expiry: nat,
                    now: int)
    requires NonEmpty(store) && limit >= 1 && window <= expiry + 1 && clock <= now
    requires Tracks(store, history, key, limit, window, clock)
    ensures Tracks(Swept(store, expiry, now), history, key, limit, window, now)
  {
    var grants, queue := Of(history, key), Of(store, key);
    if key in store && Stale(queue, expiry, now) {
      assert grants[|grants| - 1] == queue[|queue| - 1];
      assert grants[|grants|..] == [];
    }
  }

  predicate SoundFor(cfg: Config, key: string) {
    cfg.limit(key) >= 1 && (cfg.sweeping ==> cfg.window(key) <= cfg.expiry + 1)
  }

  ghost predicate Sound(cfg: Config) {
    forall key :: SoundFor(cfg, key)
  }

  lemma RefinesAfterSweep(cfg: Config, store: Store, history: Store, clock: int, now: int)
    requires Sound(cfg) && cfg.sweeping && Refines(cfg, store, history, clock) && clock <= now
    ensures Refines(cfg, Swept(store, cfg.expiry, now), history, now)
  {
    var next := Swept(store, cfg.expiry, now);
    forall key ensures Tracks(next, history, key, cfg.limit(key), cfg.window(key), now) {
      assert SoundFor(cfg, key);
      SweepTracks(store, history, key, cfg.limit(key), cfg.window(key), clock, cfg.expiry, now);
    }
  }

  lemma RefinesAfterGrant(cfg: Config, store: Store, history: Store, clock: int, key: string, now: int)
    requires Sound(cfg) && Refines(cfg, store, history, clock) && clock <= now
    requires Grants(store, key, cfg.limit(key), cfg.window(key), now)
    ensures Refines(cfg, Granted(store, key, cfg.limit(key), now), history[key := Of(history, key) + [now]], now)
  {
    var store', history' := Granted(store, key, cfg.limit(key), now), history[key := Of(history, key) + [now]];
    assert NonEmpty(store');
    forall k ensures Tracks(store', history', k, cfg.limit(k), cfg.window(k), now) {
      KeyAfterGrant(cfg, store, history, clock, key, now, k);
    }
  }

  lemma KeyAfterGrant(cfg: Config, store: Store, history: Store, clock: int, key: string, now: int, k: string)
    requires Sound(cfg) && Refines(cfg, store, history, clock) && clock <= now
    requires Grants(store, key, cfg.limit(key), cfg.window(key), now)
    ensures Tracks(Granted(store, key, cfg.limit(key), now), history[key := Of(history, key) + [now]], k,
                   cfg.limit(k), cfg.window(k), now)
  {
    assert Tracks(store, history, k, cfg.limit(k), cfg.window(k), clock);
    if k == key {
      assert SoundFor(cfg, key);
      GrantTracks(store, history, key, cfg.limit(key), cfg.window(key), clock, now);
    } else {
      var store', history' := Granted(store, key, cfg.limit(key), now), history[key := Of(history, key) + [now]];
      TracksLater(store, history, store', history', k, cfg.limit(k), cfg.window(k), clock, now);
    }
  }

  /** What a key remembers stays good while the clock advances and its entries do not change. */
  lemma TracksLater(store: Store, history: Store, store': Store, history': Store, key: string, limit: nat, window: int,
                    clock: int, now: int)
    requires Tracks(store, history, key, limit, window, clock) && clock <= now
    requires Of(store', key) == Of(store, key) && Of(history', key) == Of(history, key)
    ensures Tracks(store', history', key, limit, window, now)
  {
  }

  /** Where the limits are sound, the limiter decides as if it remembered every grant. */
  lemma {:induction false} RefinesHistory(cfg: Config, store: Store, history: Store, clock: int, events: seq<Event>)
    requires Sound(cfg) && Refines(cfg, store, history, clock) && Timely(cfg, clock, events)
    ensures Decisions(cfg, store, events) == SpecDecisions(cfg, history, events)
    decreases |events|
  {
    if events != [] {
      var now := events[0].now;
      match events[0]
      case Sweep(_) =>
        RefinesAfterSweep(cfg, store, history, clock, now);
        RefinesHistory(cfg, Swept(store, cfg.expiry, now), history, now, events[1..]);
      case Request(key, _) =>
        var limit, window := cfg.limit(key), cfg.window(key);
        assert SoundFor(cfg, key);
        SameDecision(store, history, key, limit, window, clock, now);
        if Grants(store, key, limit, window, now) {
          RefinesAfterGrant(cfg, store, history, clock, key, now);
          var history' := history[key := Of(history, key) + [now]];
          RefinesHistory(cfg, Granted(store, key, limit, now), history', now, events[1..]);
        } else {
          forall k ensures Tracks(store, history, k, cfg.limit(k), cfg.window(k), now) {
            TracksLater(store, history, store, history, k, cfg.limit(k), cfg.window(k), clock, now);
          }
          RefinesHistory(cfg, store, history, now, events[1..]);
        }
    }
  }

  // ---------------------------------------------------------------- exactly when it refines

  function Copies<T>(x: T, n: nat): (r: seq<T>)
    ensures |r| == n && forall i :: 0 <= i < n ==> r[i] == x
  {
    if n == 0 then [] else [x] + Copies(x, n - 1)
  }

  lemma OneMoreCopy<T>(x: T, n: nat, before: seq<T>, later: seq<T>)
    requires n > 0
    ensures before + Copies(x, n) == (before + [x]) + Copies(x, n - 1)
    ensures [x] + (Copies(x, n - 1) + later) == Copies(x, n) + later
  {
  }

  lemma BurstStep(cfg: Config, key: string, at: int, q: seq<int>, rest: seq<Event>)
    requires q != [] && |q| < cfg.limit(key)
    ensures var events := [Request(key, at)] + rest;
            && Decisions(cfg, map[key := q], events) == [true] + Decisions(cfg, map[key := q + [at]], rest)
            && SpecDecisions(cfg, map[key := q], events) == [true] + SpecDecisions(cfg, map[key := q + [at]], rest)
  {
    assert ([Request(key, at)] + rest)[1..] == rest;
    YoungAtMost(q, cfg.window(key), at, |q|);
    assert map[key := q][key := q + [at]] == map[key := q + [at]];
  }

  /** A burst of `n` requests at one instant, up to the limit, is granted in full by both. */
  lemma {:induction false} Burst(cfg: Config, key: string, at: int, q: seq<int>, n: nat, tail: seq<Event>)
    requires q != [] && |q| + n <= cfg.limit(key)
    ensures var events := Copies(Request(key, at), n) + tail;
            var q' := q + Copies(at, n);
            && Decisions(cfg, map[key := q], events) == Copies(true, n) + Decisions(cfg, map[key := q'], tail)
            && SpecDecisions(cfg, map[key := q], events) == Copies(true, n) + SpecDecisions(cfg, map[key := q'], tail)
    decreases n
  {
    var events := Copies(Request(key, at), n) + tail;
    if n == 0 {
      assert events == tail && q + Copies(at, n) == q;
    } else {
      var rest := Copies(Request(key, at), n - 1) + tail;
      assert events == [Request(key, at)] + rest;
      BurstStep(cfg, key, at, q, rest);
      Burst(cfg, key, at, q + [at], n - 1, tail);
      OneMoreCopy(at, n, q, []);
      var full := map[key := (q + [at]) + Copies(at, n - 1)];
      OneMoreCopy(true, n, [], Decisions(cfg, full, tail));
      OneMoreCopy(true, n, [], SpecDecisions(cfg, full, tail));
    }
  }

  lemma {:induction false} BurstTimely(cfg: Config, key: string, n: nat, tail: seq<Event>)
    requires Timely(cfg, 0, tail)
    ensures Timely(cfg, 0, Copies(Request(key, 0), n) + tail)
  {
    var events := Copies(Request(key, 0), n) + tail;
    if n == 0 {
      assert events == tail;
    } else {
      assert events[0] == Request(key, 0) && events[1..] == Copies(Request(key, 0), n - 1) + tail;
      BurstTimely(cfg, key, n - 1, tail);
    }
  }

  /** After a sweep has dropped a full queue, the limiter grants where the history still refuses. */
  lemma AfterSweep(cfg: Config, key: string, full: seq<int>)
    requires cfg.limit(key) >= 1 && cfg.window(key) > cfg.expiry + 1
    requires |full| == cfg.limit(key) && forall i :: 0 <= i < |full| ==> full[i] == 0
    ensures var later := cfg.expiry + 1;
            var tail := [Sweep(later), Request(key, later)];
            Decisions(cfg, map[key := full], tail) == [true] && SpecDecisions(cfg, map[key := full], tail) == [false]
  {
    var later := cfg.expiry + 1;
    var last := [Request(key, later)];
    assert [Sweep(later), Request(key, later)][1..] == last && last[1..] == [];
    assert Swept(map[key := full], cfg.expiry, later) == map[];
    YoungAtLeast(full, cfg.window(key), later, |full|);
    assert Decisions(cfg, map[], last) == [true];
    assert SpecDecisions(cfg, map[key := full], last) == [false];
  }

  /** A window longer than the expiry lets a sweep forget grants that still count. */
  lemma ForgottenGrants(cfg: Config, key: string) returns (events: seq<Event>)
    requires cfg.sweeping && cfg.limit(key) >= 1 && cfg.window(key) > cfg.expiry + 1
    ensures Timely(cfg, 0, events)
    ensures Decisions(cfg, map[], events) != SpecDecisions(cfg, map[], events)
  {
    var n, later := cfg.limit(key) - 1, cfg.expiry + 1;
    var tail := [Sweep(later), Request(key, later)];
    var rest := Copies(Request(key, 0), n) + tail;
    assert tail[1..] == [Request(key, later)];
    BurstTimely(cfg, key, n, tail);
    events := [Request(key, 0)] + rest;
    FirstRequest(cfg, key, rest);
    Burst(cfg, key, 0, [0], n, tail);
    AfterSweep(cfg, key, [0] + Copies(0, n));
    DifferentEnds([true], Copies(true, n));
  }

  lemma DifferentEnds(a: seq<bool>, b: seq<bool>)
    ensures a + (b + [true]) != a + (b + [false])
  {
    assert (a + (b + [true]))[|a| + |b|] != (a + (b + [false]))[|a| + |b|];
  }

  lemma FirstRequest(cfg: Config, key: string, rest: seq<Event>)
    requires cfg.limit(key) >= 1
    ensures var events := [Request(key, 0)] + rest;
            && Decisions(cfg, map[], events) == [true] + Decisions(cfg, map[key := [0]], rest)
            && SpecDecisions(cfg, map[], events) == [true] + SpecDecisions(cfg, map[key := [0]], rest)
            && (Timely(cfg, 0, rest) ==> Timely(cfg, 0, events))
  {
    var events := [Request(key, 0)] + rest;
    assert events[1..] == rest;
    assert Of(map[], key) + [0] == [0];
  }

  ghost predicate Faithful(cfg: Config) {
    forall events :: Timely(cfg, 0, events) ==> Decisions(cfg, map[], events) == SpecDecisions(cfg, map[], events)
  }

  /**
    The limiter agrees with the full history on every run exactly when each key may make at least one
    request and no window outlasts the expiry, truncated to seconds, by more than one second.
   */
  lemma FaithfulExactly(cfg: Config)
    ensures Faithful(cfg) <==> Sound(cfg)
  {
    if Sound(cfg) {
      forall events | Timely(cfg, 0, events)
        ensures Decisions(cfg, map[], events) == SpecDecisions(cfg, map[], events)
      {
        RefinesHistory(cfg, map[], map[], 0, events);
      }
    } else {
      var key :| !SoundFor(cfg, key);
      if cfg.limit(key) == 0 {
        var events := [Request(key, 0)];
        assert Timely(cfg, 0, events);
        assert Decisions(cfg, map[], events)[0] && !SpecDecisions(cfg, map[], events)[0];
      } else {
        var events := ForgottenGrants(cfg, key);
      }
    }
  }

  // ---------------------------------------------------------------- spacing of grants

  predicate Spaced(grants: seq<int>, limit: nat, window: int) {
    forall i :: 0 <= i && i + limit < |grants| ==> grants[i + limit] - grants[i] >= window
  }

  /** The limiter's store after one event. */
  function Next(cfg: Config, store: Store, e: Event): (next: Store)
    requires NonEmpty(store)
    ensures NonEmpty(next)
  {
    match e
    case Sweep(now) => Swept(store, cfg.expiry, now)
    case Request(key, now) =>
      if Grants(store, key, cfg.limit(key), cfg.window(key), now)
      then Granted(store, key, cfg.limit(key), now) else store
  }

  /** The time of the event if the limiter grants it to the key. */
  function GrantTime(cfg: Config, store: Store, e: Event, key: string): seq<int>
    requires NonEmpty(store)
  {
    if e.Request? && e.key == key && Grants(store, key, cfg.limit(key), cfg.window(key), e.now) then [e.now] else []
  }

  /** When the limiter itself grants requests of one key during a run. */
  function GrantTimes(cfg: Config, store: Store, events: seq<Event>, key: string): seq<int>
    requires NonEmpty(store)
    decreases |events|
  {
    if events == [] then []
    else GrantTime(cfg, store, events[0], key) + GrantTimes(cfg, Next(cfg, store, events[0]), events[1..], key)
  }

  /** The store tracks the grants made to a key so far, and these are spaced. */
  predicate KeepsSpacing(cfg: Config, store: Store, grants: seq<int>, clock: int, key: string) {
    && NonEmpty(store)
    && Tracks(store, map[key := grants], key, cfg.limit(key), cfg.window(key), clock)
    && Spaced(grants, cfg.limit(key), cfg.window(key))
  }

  lemma SpacingStep(cfg: Config, store: Store, grants: seq<int>, clock: int, e: Event, key: string)
    requires SoundFor(cfg, key) && KeepsSpacing(cfg, store, grants, clock, key)
    requires clock <= e.now && (e.Sweep? ==> cfg.sweeping)
    ensures KeepsSpacing(cfg, Next(cfg, store, e), grants + GrantTime(cfg, store, e, key), e.now, key)
  {
    var history, limit, window := map[key := grants], cfg.limit(key), cfg.window(key);
    assert grants + [] == grants;
    if e.Sweep? {
      SweepTracks(store, history, key, limit, window, clock, cfg.expiry, e.now);
    } else if e.key == key && Grants(store, key, limit, window, e.now) {
      SpacedStep(store, grants, key, limit, window, clock, e.now);
    } else {
      TracksLater(store, history, Next(cfg, store, e), history, key, limit, window, clock, e.now);
    }
  }

  /** What the limiter grants over a run keeps the grants of a key spaced. */
  lemma {:induction false} GrantsAreSpaced(cfg: Config, store: Store, grants: seq<int>, clock: int, events: seq<Event>,
                                           key: string)
    requires SoundFor(cfg, key) && KeepsSpacing(cfg, store, grants, clock, key) && Timely(cfg, clock, events)
    ensures Spaced(grants + GrantTimes(cfg, store, events, key), cfg.limit(key), cfg.window(key))
    decreases |events|
  {
    if events == [] {
      assert grants + [] == grants;
    } else {
      var e, rest := events[0], events[1..];
      var now, later := GrantTime(cfg, store, e, key), GrantTimes(cfg, Next(cfg, store, e), rest, key);
      SpacingStep(cfg, store, grants, clock, e, key);
      GrantsAreSpaced(cfg, Next(cfg, store, e), grants + now, e.now, rest, key);
      assert grants + (now + later) == grants + now + later;
    }
  }

  lemma SpacedStep(store: Store, grants: seq<int>, key: string, limit: nat, window: int, clock: int, now: int)
    requires NonEmpty(store) && limit >= 1 && clock <= now && Spaced(grants, limit, window)
    requires Tracks(store, map[key := grants], key, limit, window, clock)
    requires Grants(store, key, limit, window, now)
    ensures Tracks(Granted(store, key, limit, now), map[key := grants + [now]], key, limit, window, now)
    ensures Spaced(grants + [now], limit, window)
  {
    var history := map[key := grants];
    SameDecision(store, history, key, limit, window, clock, now);
    SpacedGrant(grants, limit, window, clock, now);
    GrantTracks(store, history, key, limit, window, clock, now);
    assert history[key := Of(history, key) + [now]] == map[key := grants + [now]];
  }

  ghost predicate AlwaysSpaced(cfg: Config, key: string) {
    forall events :: Timely(cfg, 0, events) ==>
      Spaced(GrantTimes(cfg, map[], events, key), cfg.limit(key), cfg.window(key))
  }

  /**
    On every run any `limit + 1` grants of a key span at least its window, exactly when the limits of that
    key are sound or its window is empty.
   */
  lemma SpacedExactly(cfg: Config, key: string)
    ensures AlwaysSpaced(cfg, key) <==> SoundFor(cfg, key) || cfg.window(key) <= 0
  {
    var limit, window := cfg.limit(key), cfg.window(key);
    if SoundFor(cfg, key) {
      forall events | Timely(cfg, 0, events) ensures Spaced(GrantTimes(cfg, map[], events, key), limit, window) {
        assert Of(map[key := []], key) == [];
        GrantsAreSpaced(cfg, map[], [], 0, events, key);
        assert [] + GrantTimes(cfg, map[], events, key) == GrantTimes(cfg, map[], events, key);
      }
    } else if window <= 0 {
      forall events | Timely(cfg, 0, events) ensures Spaced(GrantTimes(cfg, map[], events, key), limit, window) {
        assert limit == 0;
      }
    } else {
      var events := CrowdedRun(cfg, key);
    }
  }

  /** Where the limits of a key are not sound, a run whose grants crowd. */
  lemma CrowdedRun(cfg: Config, key: string) returns (events: seq<Event>)
    requires !SoundFor(cfg, key) && cfg.window(key) > 0
    ensures Timely(cfg, 0, events) && !Spaced(GrantTimes(cfg, map[], events, key), cfg.limit(key), cfg.window(key))
  {
    if cfg.limit(key) == 0 {
      events := [Request(key, 0)];
      assert events[1..] == [];
      assert GrantTimes(cfg, map[], events, key)[0] == 0;
    } else {
      var n, later := cfg.limit(key) - 1, cfg.expiry + 1;
      var tail := [Sweep(later), Request(key, later)];
      var rest := Copies(Request(key, 0), n) + tail;
      assert tail[1..] == [Request(key, later)];
      BurstTimely(cfg, key, n, tail);
      events := [Request(key, 0)] + rest;
      assert events[1..] == rest;
      assert Granted(map[], key, cfg.limit(key), 0) == map[key := [0]];
      BurstTimes(cfg, key, 0, [0], n, tail);
      SweptTimes(cfg, key, [0] + Copies(0, n));
      var times := GrantTimes(cfg, map[], events, key);
      assert times == [0] + (Copies(0, n) + [later]);
      assert times[0] == 0 && times[0 + cfg.limit(key)] == later;
    }
  }

  lemma {:induction false} BurstTimes(cfg: Config, key: string, at: int, q: seq<int>, n: nat, tail: seq<Event>)
    requires q != [] && |q| + n <= cfg.limit(key)
    ensures GrantTimes(cfg, map[key := q], Copies(Request(key, at), n) + tail, key)
            == Copies(at, n) + GrantTimes(cfg, map[key := q + Copies(at, n)], tail, key)
    decreases n
  {
    var events := Copies(Request(key, at), n) + tail;
    if n == 0 {
      assert events == tail && q + Copies(at, n) == q;
    } else {
      var rest := Copies(Request(key, at), n - 1) + tail;
      assert events == [Request(key, at)] + rest;
      BurstTimesStep(cfg, key, at, q, rest);
      BurstTimes(cfg, key, at, q + [at], n - 1, tail);
      OneMoreCopy(at, n, q, GrantTimes(cfg, map[key := (q + [at]) + Copies(at, n - 1)], tail, key));
    }
  }

  lemma BurstTimesStep(cfg: Config, key: string, at: int, q: seq<int>, rest: seq<Event>)
    requires q != [] && |q| < cfg.limit(key)
    ensures GrantTimes(cfg, map[key := q], [Request(key, at)] + rest, key)
            == [at] + GrantTimes(cfg, map[key := q + [at]], rest, key)
  {
    assert ([Request(key, at)] + rest)[1..] == rest;
    assert Granted(map[key := q], key, cfg.limit(key), at) == map[key := q + [at]];
  }

  lemma SweptTimes(cfg: Config, key: string, full: seq<int>)
    requires full != [] && forall i :: 0 <= i < |full| ==> full[i] == 0
    ensures var later := cfg.expiry + 1;
            GrantTimes(cfg, map[key := full], [Sweep(later), Request(key, later)], key) == [later]
  {
    var later := cfg.expiry + 1;
    var last := [Request(key, later)];
    assert [Sweep(later), Request(key, later)][1..] == last && last[1..] == [];
    assert Swept(map[key := full], cfg.expiry, later) == map[];
    assert GrantTimes(cfg, map[], last, key) == [later];
  }

  lemma SpacedGrant(grants: seq<int>, limit: nat, window: int, clock: int, now: int)
    requires Ordered(grants, clock) && clock <= now && Spaced(grants, limit, window)
    requires Young(grants, window, now) < limit
    ensures Ordered(grants + [now], now) && Spaced(grants + [now], limit, window)
  {
    if |grants| >= limit && now - grants[|grants| - limit] < window {
      YoungAtLeast(grants, window, now, limit);
    }
  }
}
