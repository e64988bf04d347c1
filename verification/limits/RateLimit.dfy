/** The fixed-window rate limiter over whole traces: a Redis counter per epoch, and the memory
    counter whose clearing is not aligned to the epochs.

    Time is counted in nanoseconds; the trace of one run is in order of time.
  */
module RateLimit {
  import opened Prelude

  type Time = int
  type Client = string     // scope and address of the caller

  const WINDOW: int := 60_000_000_000
  const EXPIRY: int := 65_000_000_000    // of a Redis key: the window and five seconds

  function Epoch(t: Time): int { t / 60_000_000_000 }

  datatype Key = Key(client: Client, epoch: int)

  /* ---------- the two counters ---------- */

  /** `_MemoryCounter`. */
  datatype Memory = Memory(counters: map<Key, nat>, startedAt: Time)

  function Count<K>(counters: map<K, nat>, k: K): nat { if k in counters then counters[k] else 0 }

  function Windowed(m: Memory, now: Time): Memory {
    if now - m.startedAt >= WINDOW then Memory(map[], now) else m
  }

  function MemoryIncr(m: Memory, k: Key, now: Time): (Memory, nat) {
    var w := Windowed(m, now);
    var n := Count(w.counters, k) + 1;
    (w.(counters := w.counters[k := n]), n)
  }

  /** A Redis key with its count and the time at which it vanishes. */
  datatype Entry = Entry(count: nat, expiresAt: Time)

  type Redis = map<Key, Entry>

  function Live(r: Redis, k: Key, now: Time): nat {
    if k in r && now < r[k].expiresAt then r[k].count else 0
  }

  /** The pipeline INCR, EXPIRE. */
  function RedisIncr(r: Redis, k: Key, now: Time): (Redis, nat) {
    var n := Live(r, k, now) + 1;
    (r[k := Entry(n, now + EXPIRY)], n)
  }

  class MemoryCounter {
    var counters: map<Key, nat>
    var windowStartedAt: Time

    ghost function View(): Memory
      reads this
    {
      Memory(counters, windowStartedAt)
    }

    constructor (now: Time)
      ensures View() == Memory(map[], now)
    {
      counters, windowStartedAt := map[], now;
    }

    method Incr(k: Key, now: Time) returns (n: nat)
      modifies this
      ensures (View(), n) == MemoryIncr(old(View()), k, now)
      ensures n >= 1 && counters[k] == n
    {
      if now - windowStartedAt >= WINDOW {
        counters := map[];
        windowStartedAt := now;
      }
      counters := counters[k := (if k in counters then counters[k] else 0) + 1];
      n := counters[k];
    }
  }

  /* ---------- the middleware ---------- */

  /** One request of some client, and whether Redis answers it. */
  datatype Request = Request(client: Client, at: Time, redisUp: bool)

  datatype State = State(memory: Memory, redis: Redis)

  /** `dispatch` for a path in scope: count first, refuse when over the limit. */
  function Handle(s: State, q: Request, limit: nat): (State, bool) {
    var k := Key(q.client, Epoch(q.at));
    if q.redisUp then
      var (redis, n) := RedisIncr(s.redis, k, q.at);
      (s.(redis := redis), n <= limit)
    else
      var (memory, n) := MemoryIncr(s.memory, k, q.at);
      (s.(memory := memory), n <= limit)
  }

  class Middleware {
    const memory: MemoryCounter
    var redis: Redis

    ghost function View(): State
      reads this, memory
    {
      State(memory.View(), redis)
    }

    constructor (now: Time)
      ensures View() == State(Memory(map[], now), map[]) && fresh(memory)
    {
      memory := new MemoryCounter(now);
      redis := map[];
    }

    /** Counts the request wherever it can be counted; admits it up to the limit. */
    method Dispatch(q: Request, limit: nat) returns (admitted: bool)
      modifies this`redis, memory
      ensures (View(), admitted) == Handle(old(View()), q, limit)
    {
      var k := Key(q.client, Epoch(q.at));
      var count: nat;
      if q.redisUp {
        count := Live(redis, k, q.at) + 1;
        redis := redis[k := Entry(count, q.at + EXPIRY)];
      } else {
        count := memory.Incr(k, q.at);
      }
      admitted := !(count > limit);
    }
  }

  predicate Ordered(qs: seq<Request>, from: Time) {
    qs == [] || (from <= qs[0].at && Ordered(qs[1..], qs[0].at))
  }

  /** Admissions of one client with a <= time < b that were counted by Redis, or by memory. */
  function Admitted(s: State, qs: seq<Request>, limit: nat, c: Client, a: Time, b: Time, viaRedis: bool): nat
    decreases |qs|
  {
    if qs == [] then 0
    else
      var (next, ok) := Handle(s, qs[0], limit);
      (if ok && qs[0].client == c && a <= qs[0].at < b && qs[0].redisUp == viaRedis then 1 else 0)
      + Admitted(next, qs[1..], limit, c, a, b, viaRedis)
  }

  /** Admissions through either store. */
  function Total(s: State, qs: seq<Request>, limit: nat, c: Client, a: Time, b: Time): nat {
    Admitted(s, qs, limit, c, a, b, true) + Admitted(s, qs, limit, c, a, b, false)
  }

  lemma {:induction false} NoneAfter(
    s: State, qs: seq<Request>, limit: nat, c: Client, a: Time, b: Time, via: bool, from: Time)
    requires Ordered(qs, from) && b <= from
    ensures Admitted(s, qs, limit, c, a, b, via) == 0
    decreases |qs|
  {
    if qs != [] {
      NoneAfter(Handle(s, qs[0], limit).0, qs[1..], limit, c, a, b, via, qs[0].at);
    }
  }

  /* ---------- what may still be admitted ---------- */

  function Left(limit: nat, count: nat): nat { if count < limit then limit - count else 0 }

  /** A later epoch of the interval brings a fresh counter. */
  function EpochAhead(limit: nat, now: Time, b: Time): nat {
    if Epoch(now) < Epoch(b - 1) then limit else 0
  }

  /** A clearing may still come before b. */
  function ClearAhead(limit: nat, m: Memory, b: Time): nat {
    if m.startedAt + WINDOW < b then limit else 0
  }

  function RedisBudget(s: State, limit: nat, c: Client, now: Time, b: Time): nat {
    Left(limit, Live(s.redis, Key(c, Epoch(now)), now)) + EpochAhead(limit, now, b)
  }

  function MemoryBudget(s: State, limit: nat, c: Client, now: Time, b: Time): nat {
    Left(limit, Count(s.memory.counters, Key(c, Epoch(now)))) + EpochAhead(limit, now, b)
    + ClearAhead(limit, s.memory, b)
  }

  /** A key outlives the epoch it counts. */
  ghost predicate RedisOk(r: Redis) {
    forall k | k in r :: r[k].expiresAt >= k.epoch * 60_000_000_000 + EXPIRY
  }

  lemma HandleKeepsRedisOk(s: State, q: Request, limit: nat)
    requires RedisOk(s.redis)
    ensures RedisOk(Handle(s, q, limit).0.redis)
  {
  }

  /** One request within the interval uses up what it is given. */
  lemma RedisStep(s: State, q: Request, limit: nat, c: Client, now: Time, a: Time, b: Time)
    requires RedisOk(s.redis) && a <= now <= q.at < b <= a + WINDOW
    ensures var (next, ok) := Handle(s, q, limit);
      (if ok && q.client == c && q.redisUp then 1 else 0) + RedisBudget(next, limit, c, q.at, b)
      <= RedisBudget(s, limit, c, now, b)
  {
  }

  lemma {:induction false} RedisBound(s: State, qs: seq<Request>, limit: nat, c: Client, now: Time, a: Time, b: Time)
    requires RedisOk(s.redis) && Ordered(qs, now) && a <= now && b <= a + WINDOW
    ensures Admitted(s, qs, limit, c, a, b, true) <= RedisBudget(s, limit, c, now, b)
    decreases |qs|
  {
    if qs != [] {
      if qs[0].at >= b {
        NoneAfter(s, qs, limit, c, a, b, true, qs[0].at);
      } else {
        RedisStep(s, qs[0], limit, c, now, a, b);
        HandleKeepsRedisOk(s, qs[0], limit);
        RedisBound(Handle(s, qs[0], limit).0, qs[1..], limit, c, qs[0].at, a, b);
      }
    }
  }

  lemma MemoryStep(s: State, q: Request, limit: nat, c: Client, now: Time, a: Time, b: Time)
    requires a <= now <= q.at < b <= a + WINDOW
    ensures var (next, ok) := Handle(s, q, limit);
      (if ok && q.client == c && !q.redisUp then 1 else 0) + MemoryBudget(next, limit, c, q.at, b)
      <= MemoryBudget(s, limit, c, now, b)
  {
  }

  lemma {:induction false} MemoryBound(s: State, qs: seq<Request>, limit: nat, c: Client, now: Time, a: Time, b: Time)
    requires Ordered(qs, now) && a <= now && b <= a + WINDOW
    ensures Admitted(s, qs, limit, c, a, b, false) <= MemoryBudget(s, limit, c, now, b)
    decreases |qs|
  {
    if qs != [] {
      if qs[0].at >= b {
        NoneAfter(s, qs, limit, c, a, b, false, qs[0].at);
      } else {
        MemoryStep(s, qs[0], limit, c, now, a, b);
        MemoryBound(Handle(s, qs[0], limit).0, qs[1..], limit, c, qs[0].at, a, b);
      }
    }
  }

  /* ---------- the bounds ---------- */

  /** How many epochs the interval from a to b meets: one, or two when it crosses a boundary. */
  function EpochsMet(limit: nat, a: Time, b: Time): nat { limit + EpochAhead(limit, a, b) }

  /** Over every trace with any pattern of outages, in any half-open interval of at most a window,
      Redis admits at most the limit per epoch met, and memory at most that and the limit once more. */
  lemma {:induction false} TraceBound(s: State, qs: seq<Request>, limit: nat, c: Client, a: Time, b: Time, from: Time)
    requires RedisOk(s.redis) && Ordered(qs, from) && a < b <= a + WINDOW
    ensures Admitted(s, qs, limit, c, a, b, true) <= EpochsMet(limit, a, b)
    ensures Admitted(s, qs, limit, c, a, b, false) <= EpochsMet(limit, a, b) + limit
    decreases |qs|
  {
    if qs != [] {
      var q := qs[0];
      if q.at < a {
        HandleKeepsRedisOk(s, q, limit);
        TraceBound(Handle(s, q, limit).0, qs[1..], limit, c, a, b, q.at);
      } else {
        RedisBound(s, qs, limit, c, q.at, a, b);
        MemoryBound(s, qs, limit, c, q.at, a, b);
      }
    }
  }

  /** Per epoch: the limit with Redis, twice the limit with memory. */
  lemma EpochBounds(s: State, qs: seq<Request>, limit: nat, c: Client, e: int, from: Time)
    requires RedisOk(s.redis) && Ordered(qs, from)
    ensures var a := e * 60_000_000_000;
      && Admitted(s, qs, limit, c, a, a + WINDOW, true) <= limit
      && Admitted(s, qs, limit, c, a, a + WINDOW, false) <= 2 * limit
  {
    TraceBound(s, qs, limit, c, e * 60_000_000_000, e * 60_000_000_000 + WINDOW, from);
  }

  /** Per window placed anywhere: twice the limit with Redis, three times with memory, and
      five times when Redis comes and goes. */
  lemma WindowBounds(s: State, qs: seq<Request>, limit: nat, c: Client, a: Time, from: Time)
    requires RedisOk(s.redis) && Ordered(qs, from)
    ensures Admitted(s, qs, limit, c, a, a + WINDOW, true) <= 2 * limit
    ensures Admitted(s, qs, limit, c, a, a + WINDOW, false) <= 3 * limit
    ensures Total(s, qs, limit, c, a, a + WINDOW) <= 5 * limit
  {
    TraceBound(s, qs, limit, c, a, a + WINDOW, from);
  }

  /* ---------- the bounds are reached ---------- */

  function Burst(c: Client, at: Time, n: nat, redisUp: bool): seq<Request> {
    seq(n, _ => Request(c, at, redisUp))
  }

  function After(s: State, qs: seq<Request>, limit: nat): State
    decreases |qs|
  {
    if qs == [] then s else After(Handle(s, qs[0], limit).0, qs[1..], limit)
  }

  lemma {:induction false} AdmittedConcat(
    s: State, xs: seq<Request>, ys: seq<Request>, limit: nat, c: Client, a: Time, b: Time, via: bool)
    ensures Admitted(s, xs + ys, limit, c, a, b, via)
            == Admitted(s, xs, limit, c, a, b, via) + Admitted(After(s, xs, limit), ys, limit, c, a, b, via)
    decreases |xs|
  {
    if xs == [] {
      assert xs + ys == ys;
    } else {
      assert (xs + ys)[1..] == xs[1..] + ys;
      AdmittedConcat(Handle(s, xs[0], limit).0, xs[1..], ys, limit, c, a, b, via);
    }
  }

  /** A burst on a counter that stands at k, no clearing due. */
  lemma {:induction false} MemoryBurst(
    m: Memory, redis: Redis, c: Client, at: Time, n: nat, limit: nat, a: Time, b: Time)
    requires at - m.startedAt < WINDOW && a <= at < b
    requires Count(m.counters, Key(c, Epoch(at))) + n <= limit
    ensures Admitted(State(m, redis), Burst(c, at, n, false), limit, c, a, b, false) == n
    ensures var later := After(State(m, redis), Burst(c, at, n, false), limit);
      && later.memory.startedAt == m.startedAt && later.redis == redis
      && (forall k | k != Key(c, Epoch(at)) :: Count(later.memory.counters, k) == Count(m.counters, k))
    decreases n
  {
    if n > 0 {
      var qs := Burst(c, at, n, false);
      assert qs[1..] == Burst(c, at, n - 1, false);
      var next := Handle(State(m, redis), qs[0], limit).0;
      MemoryBurst(next.memory, redis, c, at, n - 1, limit, a, b);
    }
  }

  lemma {:induction false} RedisBurst(m: Memory, r: Redis, c: Client, at: Time, n: nat, limit: nat, a: Time, b: Time)
    requires a <= at < b && Live(r, Key(c, Epoch(at)), at) + n <= limit
    ensures Admitted(State(m, r), Burst(c, at, n, true), limit, c, a, b, true) == n
    ensures var later := After(State(m, r), Burst(c, at, n, true), limit);
      later.memory == m && (forall k | k != Key(c, Epoch(at)) && k !in r :: k !in later.redis)
    decreases n
  {
    if n > 0 {
      var qs := Burst(c, at, n, true);
      assert qs[1..] == Burst(c, at, n - 1, true);
      RedisBurst(m, Handle(State(m, r), qs[0], limit).0.redis, c, at, n - 1, limit, a, b);
    }
  }

  /** Full bursts just before and at an epoch boundary are all admitted by Redis. */
  lemma RedisBoundIsReached(m: Memory, c: Client, limit: nat)
    ensures var a := 59_000_000_000;
      var qs := Burst(c, a, limit, true) + Burst(c, 60_000_000_000, limit, true);
      Ordered(qs, 0) && Admitted(State(m, map[]), qs, limit, c, a, a + WINDOW, true) == 2 * limit
  {
    var a, b := 59_000_000_000, 59_000_000_000 + WINDOW;
    var x, y := Burst(c, a, limit, true), Burst(c, 60_000_000_000, limit, true);
    RedisBurst(m, map[], c, a, limit, limit, a, b);
    var s1 := After(State(m, map[]), x, limit);
    RedisBurst(m, s1.redis, c, 60_000_000_000, limit, limit, a, b);
    AdmittedConcat(State(m, map[]), x, y, limit, c, a, b, true);
    BurstOrdered(c, 60_000_000_000, limit, [], a, true);
    assert y + [] == y;
    BurstOrdered(c, a, limit, y, 0, true);
  }

  /** A burst at which the clearing is due starts from nothing. */
  lemma ClearedBurst(m: Memory, redis: Redis, c: Client, at: Time, n: nat, limit: nat, a: Time, b: Time)
    requires at - m.startedAt >= WINDOW && a <= at < b && n <= limit
    ensures Admitted(State(m, redis), Burst(c, at, n, false), limit, c, a, b, false) == n
  {
    var cleared := Memory(map[], at);
    MemoryBurst(cleared, redis, c, at, n, limit, a, b);
    if n > 0 {
      var q := Burst(c, at, n, false)[0];
      assert Handle(State(m, redis), q, limit) == Handle(State(cleared, redis), q, limit);
    }
  }

  lemma {:induction false} BurstOrdered(c: Client, at: Time, n: nat, rest: seq<Request>, from: Time, redisUp: bool)
    requires from <= at && Ordered(rest, at)
    ensures Ordered(Burst(c, at, n, redisUp) + rest, from)
    decreases n
  {
    var qs := Burst(c, at, n, redisUp) + rest;
    if n == 0 {
      assert qs == rest;
    } else {
      assert qs[1..] == Burst(c, at, n - 1, redisUp) + rest;
      BurstOrdered(c, at, n - 1, rest, at, redisUp);
    }
  }

  /** Half a window into epoch 0 the counter is created; then full bursts at 31, 60 and 90
      seconds are all admitted, within the window from 31 to 91. */
  lemma MemoryBoundIsReached(c: Client, limit: nat)
    ensures var a := 31_000_000_000;
      var s := State(Memory(map[], 30_000_000_000), map[]);
      var qs := Burst(c, a, limit, false)
                + (Burst(c, 60_000_000_000, limit, false) + Burst(c, 90_000_000_000, limit, false));
      && Ordered(qs, 30_000_000_000)
      && Admitted(s, qs, limit, c, a, a + WINDOW, false) == 3 * limit
  {
    var a, b := 31_000_000_000, 31_000_000_000 + WINDOW;
    var m := Memory(map[], 30_000_000_000);
    var x, y := Burst(c, 31_000_000_000, limit, false), Burst(c, 60_000_000_000, limit, false);
    var z := Burst(c, 90_000_000_000, limit, false);
    MemoryBurst(m, map[], c, 31_000_000_000, limit, limit, a, b);
    var s1 := After(State(m, map[]), x, limit);
    MemoryBurst(s1.memory, map[], c, 60_000_000_000, limit, limit, a, b);
    var s2 := After(s1, y, limit);
    ClearedBurst(s2.memory, map[], c, 90_000_000_000, limit, limit, a, b);
    AdmittedConcat(State(m, map[]), x, y + z, limit, c, a, b, false);
    AdmittedConcat(s1, y, z, limit, c, a, b, false);
    BurstOrdered(c, 90_000_000_000, limit, [], 60_000_000_000, false);
    assert z + [] == z;
    BurstOrdered(c, 60_000_000_000, limit, z, 31_000_000_000, false);
    BurstOrdered(c, 31_000_000_000, limit, y + z, 30_000_000_000, false);
  }

  /** With a counter created half a window into epoch 0, full bursts at 61 and 90 seconds, one on each side
      of the clearing, are all admitted in epoch 1. */
  lemma EpochBoundIsReached(c: Client, limit: nat)
    ensures var s := State(Memory(map[], 30_000_000_000), map[]);
      var qs := Burst(c, 61_000_000_000, limit, false) + Burst(c, 90_000_000_000, limit, false);
      && Ordered(qs, 30_000_000_000)
      && Admitted(s, qs, limit, c, 60_000_000_000, 60_000_000_000 + WINDOW, false) == 2 * limit
  {
    var a, b := 60_000_000_000, 60_000_000_000 + WINDOW;
    var m := Memory(map[], 30_000_000_000);
    var x, y := Burst(c, 61_000_000_000, limit, false), Burst(c, 90_000_000_000, limit, false);
    MemoryBurst(m, map[], c, 61_000_000_000, limit, limit, a, b);
    ClearedBurst(After(State(m, map[]), x, limit).memory, map[], c, 90_000_000_000, limit, limit, a, b);
    AdmittedConcat(State(m, map[]), x, y, limit, c, a, b, false);
    assert y + [] == y;
    BurstOrdered(c, 90_000_000_000, limit, [], 61_000_000_000, false);
    BurstOrdered(c, 61_000_000_000, limit, y, 30_000_000_000, false);
  }

  /* ---------- both stores ---------- */

  lemma TotalConcat(s: State, xs: seq<Request>, ys: seq<Request>, limit: nat, c: Client, a: Time, b: Time)
    ensures Total(s, xs + ys, limit, c, a, b)
            == Total(s, xs, limit, c, a, b) + Total(After(s, xs, limit), ys, limit, c, a, b)
  {
    AdmittedConcat(s, xs, ys, limit, c, a, b, true);
    AdmittedConcat(s, xs, ys, limit, c, a, b, false);
  }

  lemma {:induction false} OtherStoreNone(
    s: State, c: Client, at: Time, n: nat, redisUp: bool, limit: nat, a: Time, b: Time)
    ensures Admitted(s, Burst(c, at, n, redisUp), limit, c, a, b, !redisUp) == 0
    decreases n
  {
    if n > 0 {
      var qs := Burst(c, at, n, redisUp);
      assert qs[1..] == Burst(c, at, n - 1, redisUp);
      OtherStoreNone(Handle(s, qs[0], limit).0, c, at, n - 1, redisUp, limit, a, b);
    }
  }

  /** A full burst through Redis and then one through memory, in an epoch new to both. */
  lemma TwoBursts(m: Memory, r: Redis, c: Client, at: Time, limit: nat, a: Time, b: Time)
    requires a <= at < b && at - m.startedAt < WINDOW
    requires Key(c, Epoch(at)) !in r && Count(m.counters, Key(c, Epoch(at))) == 0
    ensures var qs := Burst(c, at, limit, true) + Burst(c, at, limit, false);
      && Total(State(m, r), qs, limit, c, a, b) == 2 * limit
      && var later := After(State(m, r), qs, limit);
         && later.memory.startedAt == m.startedAt
         && (forall k | k != Key(c, Epoch(at)) :: Count(later.memory.counters, k) == Count(m.counters, k))
         && (forall k | k != Key(c, Epoch(at)) && k !in r :: k !in later.redis)
  {
    var x, y := Burst(c, at, limit, true), Burst(c, at, limit, false);
    RedisBurst(m, r, c, at, limit, limit, a, b);
    var s1 := After(State(m, r), x, limit);
    MemoryBurst(m, s1.redis, c, at, limit, limit, a, b);
    OtherStoreNone(State(m, r), c, at, limit, true, limit, a, b);
    OtherStoreNone(s1, c, at, limit, false, limit, a, b);
    TotalConcat(State(m, r), x, y, limit, c, a, b);
    AfterConcat(State(m, r), x, y, limit);
  }

  lemma {:induction false} AfterConcat(s: State, xs: seq<Request>, ys: seq<Request>, limit: nat)
    ensures After(s, xs + ys, limit) == After(After(s, xs, limit), ys, limit)
    decreases |xs|
  {
    if xs == [] {
      assert xs + ys == ys;
    } else {
      assert (xs + ys)[1..] == xs[1..] + ys;
      AfterConcat(Handle(s, xs[0], limit).0, xs[1..], ys, limit);
    }
  }

  /** Bursts through both stores at 31 and at 60 seconds, and through memory at 90. */
  function MixedTrace(c: Client, limit: nat): seq<Request> {
    (Burst(c, 31_000_000_000, limit, true) + Burst(c, 31_000_000_000, limit, false))
    + ((Burst(c, 60_000_000_000, limit, true) + Burst(c, 60_000_000_000, limit, false))
       + Burst(c, 90_000_000_000, limit, false))
  }

  lemma MixedOrdered(c: Client, limit: nat)
    ensures Ordered(MixedTrace(c, limit), 30_000_000_000)
  {
    var x1, x2 := Burst(c, 31_000_000_000, limit, true), Burst(c, 31_000_000_000, limit, false);
    var y1, y2 := Burst(c, 60_000_000_000, limit, true), Burst(c, 60_000_000_000, limit, false);
    var z := Burst(c, 90_000_000_000, limit, false);
    assert z + [] == z;
    BurstOrdered(c, 90_000_000_000, limit, [], 60_000_000_000, false);
    BurstOrdered(c, 60_000_000_000, limit, z, 60_000_000_000, false);
    BurstOrdered(c, 60_000_000_000, limit, y2 + z, 31_000_000_000, true);
    BurstOrdered(c, 31_000_000_000, limit, y1 + (y2 + z), 31_000_000_000, false);
    BurstOrdered(c, 31_000_000_000, limit, x2 + (y1 + (y2 + z)), 30_000_000_000, true);
    assert MixedTrace(c, limit) == x1 + (x2 + (y1 + (y2 + z)));
  }

  /** With Redis coming and going the five times are reached, for every limit. */
  lemma MixedBoundIsReached(c: Client, limit: nat)
    ensures var a := 31_000_000_000;
      var s := State(Memory(map[], 30_000_000_000), map[]);
      && Ordered(MixedTrace(c, limit), 30_000_000_000)
      && Total(s, MixedTrace(c, limit), limit, c, a, a + WINDOW) == 5 * limit
  {
    MixedOrdered(c, limit);
    var a, b := 31_000_000_000, 31_000_000_000 + WINDOW;
    var s := State(Memory(map[], 30_000_000_000), map[]);
    var x := Burst(c, 31_000_000_000, limit, true) + Burst(c, 31_000_000_000, limit, false);
    var y := Burst(c, 60_000_000_000, limit, true) + Burst(c, 60_000_000_000, limit, false);
    var z := Burst(c, 90_000_000_000, limit, false);
    TwoBursts(s.memory, s.redis, c, 31_000_000_000, limit, a, b);
    var s1 := After(s, x, limit);
    TwoBursts(s1.memory, s1.redis, c, 60_000_000_000, limit, a, b);
    var s2 := After(s1, y, limit);
    ClearedBurst(s2.memory, s2.redis, c, 90_000_000_000, limit, limit, a, b);
    OtherStoreNone(s2, c, 90_000_000_000, limit, false, limit, a, b);
    TotalConcat(s, x, y + z, limit, c, a, b);
    TotalConcat(s1, y, z, limit, c, a, b);
  }
}
