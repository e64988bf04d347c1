/** Exactly which requests the limiter admits: those with fewer than the limit counted before them, where each
    store counts its own requests of the same client and epoch, memory only those since its last clearing. */
module RateExact {
  import opened Prelude
  import opened RateLimit

  /** The earlier requests for a key through one store, from some time on. */
  function Earlier(qs: seq<Request>, k: Key, viaRedis: bool, since: Time): nat {
    if qs == [] then 0
    else
      (if qs[0].redisUp == viaRedis && Key(qs[0].client, Epoch(qs[0].at)) == k && qs[0].at >= since then 1 else 0)
      + Earlier(qs[1..], k, viaRedis, since)
  }

  predicate Until(qs: seq<Request>, now: Time) {
    forall q | q in qs :: q.at <= now
  }

  /* ---------- Redis ---------- */

  /** In its epoch a Redis key counts every request made for it, however the outages fall. */
  lemma {:induction false} RedisCounts(s: State, qs: seq<Request>, limit: nat, k: Key, from: Time, now: Time)
    requires RedisOk(s.redis) && Ordered(qs, from) && Until(qs, now) && Epoch(now) == k.epoch
    ensures Live(After(s, qs, limit).redis, k, now) == Live(s.redis, k, now) + Earlier(qs, k, true, from)
    decreases |qs|
  {
    if qs != [] {
      var q := qs[0];
      assert q in qs && forall x | x in qs[1..] :: x in qs;
      var next := Handle(s, q, limit).0;
      HandleKeepsRedisOk(s, q, limit);
      RedisCountsOne(s, q, limit, k, now);
      RedisCounts(next, qs[1..], limit, k, q.at, now);
      EarlierSince(qs[1..], k, true, from, q.at);
    }
  }

  lemma RedisCountsOne(s: State, q: Request, limit: nat, k: Key, now: Time)
    requires RedisOk(s.redis) && q.at <= now && Epoch(now) == k.epoch
    ensures Live(Handle(s, q, limit).0.redis, k, now)
            == Live(s.redis, k, now) + if q.redisUp && Key(q.client, Epoch(q.at)) == k then 1 else 0
  {
  }

  /** In an ordered trace nothing lies before its start. */
  lemma {:induction false} EarlierSince(qs: seq<Request>, k: Key, via: bool, a: Time, b: Time)
    requires a <= b && Ordered(qs, b)
    ensures Earlier(qs, k, via, a) == Earlier(qs, k, via, b)
    decreases |qs|
  {
    if qs != [] {
      EarlierSince(qs[1..], k, via, a, qs[0].at);
      EarlierSince(qs[1..], k, via, b, qs[0].at);
    }
  }

  /** With Redis a request is admitted if and only if fewer than the limit of its client came before it in
      its epoch through Redis, admitted or not; other clients do not matter. */
  lemma RedisAdmitsExactly(m: Memory, qs: seq<Request>, limit: nat, q: Request, from: Time)
    requires Ordered(qs, from) && Until(qs, q.at) && q.redisUp
    ensures Handle(After(State(m, map[]), qs, limit), q, limit).1
            <==> Earlier(qs, Key(q.client, Epoch(q.at)), true, from) < limit
  {
    RedisCounts(State(m, map[]), qs, limit, Key(q.client, Epoch(q.at)), from, q.at);
  }

  /* ---------- memory ---------- */

  /** The memory counter holds what was counted since it was last cleared. */
  lemma {:induction false} MemoryCounts(s: State, qs: seq<Request>, limit: nat, k: Key, from: Time)
    requires Ordered(qs, from) && s.memory.startedAt <= from
    ensures var m, m' := s.memory, After(s, qs, limit).memory;
      && (m'.startedAt == m.startedAt || m'.startedAt >= m.startedAt + WINDOW)
      && Count(m'.counters, k)
         == (if m'.startedAt == m.startedAt then Count(m.counters, k) else 0) + Earlier(qs, k, false, m'.startedAt)
    decreases |qs|
  {
    if qs != [] {
      var q := qs[0];
      var next := Handle(s, q, limit).0;
      MemoryCounts(next, qs[1..], limit, k, q.at);
      NothingBefore(s, qs, limit, k);
    }
  }

  /** A later clearing leaves the request at hand behind. */
  lemma NothingBefore(s: State, qs: seq<Request>, limit: nat, k: Key)
    requires qs != []
    ensures var next := Handle(s, qs[0], limit).0;
      var m' := After(next, qs[1..], limit).memory;
      && (m'.startedAt > qs[0].at ==> Earlier(qs, k, false, m'.startedAt) == Earlier(qs[1..], k, false, m'.startedAt))
      && (m'.startedAt <= qs[0].at ==>
            Earlier(qs, k, false, m'.startedAt)
            == Earlier(qs[1..], k, false, m'.startedAt)
               + if !qs[0].redisUp && Key(qs[0].client, Epoch(qs[0].at)) == k then 1 else 0)
  {
  }

  /** With memory a request is admitted if and only if fewer than the limit of its client came before it in its
      epoch through memory since the last clearing, which is due after a full window. */
  lemma MemoryAdmitsExactly(t0: Time, r: Redis, qs: seq<Request>, limit: nat, q: Request)
    requires Ordered(qs, t0) && Until(qs, q.at) && !q.redisUp
    ensures var s := After(State(Memory(map[], t0), r), qs, limit);
      var k := Key(q.client, Epoch(q.at));
      && (s.memory.startedAt == t0 || s.memory.startedAt >= t0 + WINDOW)
      && (Handle(s, q, limit).1 <==>
            (if q.at - s.memory.startedAt >= WINDOW then 0 else Earlier(qs, k, false, s.memory.startedAt)) < limit)
  {
    MemoryCounts(State(Memory(map[], t0), r), qs, limit, Key(q.client, Epoch(q.at)), t0);
  }

  /* ---------- both ---------- */

  lemma {:induction false} FewerSinceLater(qs: seq<Request>, k: Key, via: bool, a: Time, b: Time)
    requires a <= b
    ensures Earlier(qs, k, via, b) <= Earlier(qs, k, via, a)
  {
    if qs != [] { FewerSinceLater(qs[1..], k, via, a, b); }
  }

  /** However Redis comes and goes, a client with fewer than the limit of requests so far in the epoch is admitted,
      whatever other clients do. */
  lemma FewAreAdmitted(t0: Time, qs: seq<Request>, limit: nat, q: Request)
    requires Ordered(qs, t0) && Until(qs, q.at)
    requires var k := Key(q.client, Epoch(q.at)); Earlier(qs, k, true, t0) + Earlier(qs, k, false, t0) < limit
    ensures Handle(After(State(Memory(map[], t0), map[]), qs, limit), q, limit).1
  {
    var s := After(State(Memory(map[], t0), map[]), qs, limit);
    if q.redisUp {
      RedisAdmitsExactly(Memory(map[], t0), qs, limit, q, t0);
    } else {
      MemoryAdmitsExactly(t0, map[], qs, limit, q);
      FewerSinceLater(qs, Key(q.client, Epoch(q.at)), false, t0, s.memory.startedAt);
    }
  }
}
