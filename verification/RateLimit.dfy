/**
 The fixed-window rate limiter, kept twice in the worker: as a durable object
 (worker/src/do/rate-limit.ts) and as a local fallback (worker/src/routes/setup.ts).
 Each cleans expired buckets on its own schedule; both are compared with a map that is
 never cleaned.
 */
module RateLimit {

  import opened Wrappers

  datatype Bucket = Bucket(count: nat, resetAt: int)
  type Buckets = map<string, Bucket>

  /** One validated request: `key` is bucket and address, times are milliseconds. */
  datatype Request = Request(key: string, max: int, window: int, now: int)
  datatype Reply = Reply(allowed: bool, retryAfter: int, limit: int, remaining: int, reset: int)

  const MAX_BUCKETS := 5000
  const SWEEP_EVERY := 256
  const COMPACT_EVERY := 1024
  const CLEANUP_ALARM_MS := 5 * 60 * 1000

  function Max(a: int, b: int): int { if a > b then a else b }
  function CeilDiv(a: int, b: int): int requires b > 0 { -((-a) / b) }

  /** The request's bucket after counting it: a new window if it had none or its window is over. */
  function Counted(m: Buckets, r: Request): Bucket {
    if r.key in m && m[r.key].resetAt > r.now then m[r.key].(count := m[r.key].count + 1)
    else Bucket(1, r.now + r.window)
  }

  function ReplyFor(b: Bucket, r: Request): Reply {
    Reply(b.count <= r.max, Max(1, CeilDiv(b.resetAt - r.now, 1000)), r.max, Max(0, r.max - b.count),
      CeilDiv(b.resetAt, 1000))
  }

  function Count(m: Buckets, r: Request): Buckets { m[r.key := Counted(m, r)] }

  /** The buckets whose window is still running. */
  function Live(m: Buckets, now: int): Buckets {
    map k | k in m && m[k].resetAt > now :: m[k]
  }

  // ----- The durable object -----

  datatype Durable = Durable(storage: Buckets, sweepCounter: nat, alarmAt: Option<int>)

  /** Every 256th request sweeps before it counts. */
  function SweptFor(d: Durable, r: Request): Buckets {
    if (d.sweepCounter + 1) % SWEEP_EVERY == 0 then Live(d.storage, r.now) else d.storage
  }

  function HitReply(d: Durable, r: Request): Reply { ReplyFor(Counted(SweptFor(d, r), r), r) }

  /** Over a full storage only the running windows that reset last are left; ties may go either way. */
  ghost predicate EvictsTo(live: Buckets, after: Buckets) {
    && |after| == MAX_BUCKETS
    && (forall k :: k in after ==> k in live && after[k] == live[k])
    && (forall k, gone :: k in after && gone in live && gone !in after ==> live[gone].resetAt <= live[k].resetAt)
  }

  /** `enforceBucketLimit` */
  ghost predicate CompactsTo(m: Buckets, now: int, after: Buckets) {
    if |m| <= MAX_BUCKETS then after == m
    else if |Live(m, now)| <= MAX_BUCKETS then after == Live(m, now)
    else EvictsTo(Live(m, now), after)
  }

  /** `checkRateLimit` */
  ghost predicate HitsTo(d: Durable, r: Request, after: Durable) {
    && after.sweepCounter == d.sweepCounter + 1
    && after.alarmAt == (if d.alarmAt.None? then Some(r.now + CLEANUP_ALARM_MS) else d.alarmAt)
    && var counted := Count(SweptFor(d, r), r);
       if after.sweepCounter % COMPACT_EVERY == 0 then CompactsTo(counted, r.now, after.storage)
       else after.storage == counted
  }

  /** `alarm` */
  ghost predicate RingsTo(d: Durable, now: int, after: Durable) {
    && CompactsTo(Live(d.storage, now), now, after.storage)
    && after.sweepCounter == d.sweepCounter
    && after.alarmAt == if |after.storage| > 0 then Some(now + CLEANUP_ALARM_MS) else None
  }

  class RateLimitDO {
    var storage: Buckets
    var sweepCounter: nat
    var alarmAt: Option<int>

    function View(): Durable
      reads this
    {
      Durable(storage, sweepCounter, alarmAt)
    }

    constructor ()
      ensures View() == Durable(map[], 0, None)
    {
      storage, sweepCounter, alarmAt := map[], 0, None;
    }

    method CheckRateLimit(r: Request) returns (reply: Reply)
      modifies this
      ensures reply == HitReply(old(View()), r) && HitsTo(old(View()), r, View())
    {
      hide ReplyFor, CompactsTo, Live;
      sweepCounter := sweepCounter + 1;
      if sweepCounter % SWEEP_EVERY == 0 {
        CleanupExpiredBuckets(r.now);
      }
      var state: Bucket;
      if r.key !in storage || storage[r.key].resetAt <= r.now {
        state := Bucket(0, r.now + r.window);
      } else {
        state := storage[r.key];
      }
      state := state.(count := state.count + 1);
      storage := storage[r.key := state];
      if alarmAt.None? { alarmAt := Some(r.now + CLEANUP_ALARM_MS); }
      if sweepCounter % COMPACT_EVERY == 0 {
        EnforceBucketLimit(r.now);
      }
      reply := ReplyFor(state, r);
    }

    method CleanupExpiredBuckets(now: int)
      modifies this`storage
      ensures storage == Live(old(storage), now)
    {
      var expired: set<string> := {};
      var keys := storage.Keys;
      while keys != {}
        invariant keys <= storage.Keys && storage == old(storage)
        invariant expired == set k | k in storage.Keys - keys && storage[k].resetAt <= now
        decreases |keys|
      {
        var key :| key in keys;
        keys := keys - {key};
        if storage[key].resetAt <= now { expired := expired + {key}; }
      }
      storage := storage - expired;
    }

    /** Over the limit, expired buckets go, then those that would reset first. */
    method EnforceBucketLimit(now: int)
      modifies this`storage
      ensures CompactsTo(old(storage), now, storage)
    {
      if |storage| <= MAX_BUCKETS { return; }
      CleanupExpiredBuckets(now);
      if |storage| > MAX_BUCKETS { EvictOldest(); }
    }

    method EvictOldest()
      requires |storage| > MAX_BUCKETS
      modifies this`storage
      ensures EvictsTo(old(storage), storage)
    {
      ghost var live := storage;
      while |storage| > MAX_BUCKETS
        invariant |storage| >= MAX_BUCKETS
        invariant forall k :: k in storage ==> k in live && storage[k] == live[k]
        invariant forall k, gone :: k in storage && gone in live && gone !in storage ==>
                    live[gone].resetAt <= live[k].resetAt
        decreases |storage|
      {
        var oldest := OldestKey(storage);
        RemoveOne(storage, oldest);
        storage := storage - {oldest};
      }
    }

    /** `alarm` */
    method OnAlarm(now: int)
      modifies this
      ensures RingsTo(old(View()), now, View())
    {
      hide CompactsTo, Live;
      CleanupExpiredBuckets(now);
      EnforceBucketLimit(now);
      if |storage| > 0 { alarmAt := Some(now + CLEANUP_ALARM_MS); } else { alarmAt := None; }
    }
  }

  method OldestKey(m: Buckets) returns (oldest: string)
    requires m != map[]
    ensures oldest in m && forall k :: k in m ==> m[oldest].resetAt <= m[k].resetAt
  {
    var keys := m.Keys;
    oldest :| oldest in keys;
    keys := keys - {oldest};
    while keys != {}
      invariant keys <= m.Keys && oldest in m
      invariant forall k :: k in m && k !in keys ==> m[oldest].resetAt <= m[k].resetAt
      decreases |keys|
    {
      var key :| key in keys;
      keys := keys - {key};
      if m[key].resetAt < m[oldest].resetAt { oldest := key; }
    }
  }

  // ----- The local fallback -----

  /** `localSetupRateLimit`: sweep on every request, then count. */
  function LocalHit(m: Buckets, r: Request): Buckets { Count(Live(m, r.now), r) }

  function LocalReply(m: Buckets, r: Request): Reply { ReplyFor(Counted(Live(m, r.now), r), r) }

  class LocalLimiter {
    var buckets: Buckets

    constructor ()
      ensures buckets == map[]
    {
      buckets := map[];
    }

    method Check(r: Request) returns (reply: Reply)
      modifies this
      ensures buckets == LocalHit(old(buckets), r) && reply == LocalReply(old(buckets), r)
    {
      hide ReplyFor;
      var keys := buckets.Keys;
      ghost var before := buckets;
      while keys != {}
        invariant keys <= before.Keys
        invariant buckets == map k | k in before && (k in keys || before[k].resetAt > r.now) :: before[k]
        decreases |keys|
      {
        var key :| key in keys;
        keys := keys - {key};
        if buckets[key].resetAt <= r.now { buckets := buckets - {key}; }
      }
      assert buckets == Live(before, r.now);
      var state := if r.key in buckets && buckets[r.key].resetAt > r.now then buckets[r.key]
        else Bucket(0, r.now + r.window);
      state := state.(count := state.count + 1);
      buckets := buckets[r.key := state];
      reply := ReplyFor(state, r);
    }
  }

  // ----- Map facts -----

  lemma RemoveOne(m: Buckets, k: string)
    requires k in m
    ensures |m - {k}| == |m| - 1
  {
    assert (m - {k}).Keys == m.Keys - {k};
  }

  lemma LiveTwice(m: Buckets, now: int)
    ensures Live(Live(m, now), now) == Live(m, now)
  {
  }
}
