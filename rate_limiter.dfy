/**
 * The sliding-window rate limiter of utils/rate_limiter.py. In-memory branch:
 * each client keeps the integer-second timestamps of its accepted calls; a
 * call first purges those at or before `now - window`, is rejected when
 * `limit` remain, and otherwise records `now`. Redis branch: each client
 * keeps a sorted set of call seconds; a call purges the same way, counts what
 * is left, and records its second whatever the decision.
 */
module RateLimiting {

  /** `n` copies of `x`. */
  function Repeat<T>(x: T, n: nat): (r: seq<T>)
    ensures |r| == n
    ensures forall i :: 0 <= i < n ==> r[i] == x
  {
    seq(n, _ => x)
  }

  /** The timestamps strictly newer than `cutoff`, in their original order. */
  function Purge(ts: seq<nat>, cutoff: int): (r: seq<nat>)
    ensures |r| <= |ts|
    ensures forall t :: t in r <==> t in ts && t > cutoff
  {
    if ts == [] then []
    else (if ts[0] > cutoff then [ts[0]] else []) + Purge(ts[1..], cutoff)
  }

  /** A client's list, or `[]` for a client the store has not seen. */
  function Window(store: map<string, seq<nat>>, ip: string): seq<nat> {
    if ip in store then store[ip] else []
  }

  /** The decision of one `is_allowed` call and the store it leaves behind. */
  datatype Outcome = Outcome(allowed: bool, store: map<string, seq<nat>>)

  /** One `is_allowed` call on the in-memory store. */
  function Admit(store: map<string, seq<nat>>, limit: nat, window: nat, ip: string, now: nat): Outcome {
    var kept := Purge(Window(store, ip), now - window);
    if |kept| >= limit then Outcome(false, store[ip := kept])
    else Outcome(true, store[ip := kept + [now]])
  }

  /**
   * What one call does: only the caller's list changes; it keeps the purged
   * list, plus `now` when the call is accepted, which happens exactly when
   * fewer than `limit` timestamps survive the purge; an accepted list holds
   * at most `limit` timestamps.
   */
  lemma AdmitSpec(store: map<string, seq<nat>>, limit: nat, window: nat, ip: string, now: nat)
    ensures var o := Admit(store, limit, window, ip, now);
      var kept := Purge(Window(store, ip), now - window);
      && o.store.Keys == store.Keys + {ip}
      && (forall c :: c in store && c != ip ==> o.store[c] == store[c])
      && (o.allowed <==> |kept| < limit)
      && (o.allowed ==> o.store[ip] == kept + [now] && |o.store[ip]| <= limit)
      && (!o.allowed ==> o.store[ip] == kept)
  {
  }

  /** The decisions of a sequence of calls from one client, and the final store. */
  datatype Trace = Trace(decisions: seq<bool>, store: map<string, seq<nat>>)

  function Run(store: map<string, seq<nat>>, limit: nat, window: nat, ip: string, times: seq<nat>): Trace
    decreases |times|
  {
    if times == [] then Trace([], store)
    else
      var o := Admit(store, limit, window, ip, times[0]);
      var t := Run(o.store, limit, window, ip, times[1..]);
      Trace([o.allowed] + t.decisions, t.store)
  }

  /** A client's sorted set in the Redis branch, as the seconds it holds (member `str(t)`, score `t`), or none for a new client. */
  function Seconds(store: map<string, set<nat>>, ip: string): set<nat> {
    if ip in store then store[ip] else {}
  }

  /** `zremrangebyscore(key, 0, cutoff)`: the seconds strictly newer than `cutoff`. */
  function Expire(ts: set<nat>, cutoff: int): set<nat> {
    set t | t in ts && t > cutoff
  }

  /** The decision of one `is_allowed` call on the Redis store and the store it leaves behind. */
  datatype RedisOutcome = RedisOutcome(allowed: bool, store: map<string, set<nat>>)

  /**
   * One `is_allowed` call on the Redis store: the pipeline purges, counts
   * (`zcard`), then adds `now` (`zadd`), and the decision compares the count
   * taken before the add with `limit`.
   */
  function AdmitRedis(store: map<string, set<nat>>, limit: nat, window: nat, ip: string, now: nat): RedisOutcome {
    var kept := Expire(Seconds(store, ip), now - window);
    RedisOutcome(|kept| < limit, store[ip := kept + {now}])
  }

  class RateLimiter {
    const hasRedis: bool
    const limit: nat
    const window: nat
    var memoryStore: map<string, seq<nat>>
    var redisStore: map<string, set<nat>>

    /** No client holds more than `limit` timestamps. */
    ghost predicate Valid()
      reads this
    {
      forall ip :: ip in memoryStore ==> |memoryStore[ip]| <= limit
    }

    /** `RateLimiter(redis_client, limit=100, window=60)`; `hasRedis` says whether a Redis client was given. */
    constructor (hasRedis: bool := false, limit: nat := 100, window: nat := 60)
      ensures Valid()
      ensures this.hasRedis == hasRedis && this.limit == limit && this.window == window
      ensures memoryStore == map[] && redisStore == map[]
    {
      this.hasRedis := hasRedis;
      this.limit := limit;
      this.window := window;
      memoryStore := map[];
      redisStore := map[];
    }

    /**
     * `is_allowed(client_ip)` at time `now`. `fails` stands for an exception
     * raised inside the call, which lets the call through and leaves both
     * stores as they were. Each branch changes only its own store.
     */
    method IsAllowed(clientIp: string, now: nat, fails: bool) returns (allowed: bool)
      requires Valid()
      modifies this
      ensures Valid()
      ensures fails ==> allowed && memoryStore == old(memoryStore) && redisStore == old(redisStore)
      ensures !fails && hasRedis ==>
        && RedisOutcome(allowed, redisStore) == AdmitRedis(old(redisStore), limit, window, clientIp, now)
        && memoryStore == old(memoryStore)
      ensures !fails && !hasRedis ==>
        && Outcome(allowed, memoryStore) == Admit(old(memoryStore), limit, window, clientIp, now)
        && redisStore == old(redisStore)
    {
      if fails {
        return true;
      }
      if hasRedis {
        var count := Expire(Seconds(redisStore, clientIp), now - window);
        redisStore := redisStore[clientIp := count + {now}];
        return |count| < limit;
      }
      allowed := AdmitInMemory(clientIp, now);
    }

    /** The memory fallback of `is_allowed`: purge the client's list in one pass, then record `now` if there is room. */
    method AdmitInMemory(clientIp: string, now: nat) returns (allowed: bool)
      requires Valid()
      modifies this
      ensures Valid()
      ensures Outcome(allowed, memoryStore) == Admit(old(memoryStore), limit, window, clientIp, now)
      ensures redisStore == old(redisStore)
    {
      // A client not yet in the store starts from an empty list.
      var current := if clientIp in memoryStore then memoryStore[clientIp] else [];
      assert current == Window(old(memoryStore), clientIp);
      var cutoff := now - window;
      var kept: seq<nat> := [];
      var i := 0;
      while i < |current|
        invariant 0 <= i <= |current|
        invariant kept == Purge(current[..i], cutoff)
        invariant memoryStore == old(memoryStore) && redisStore == old(redisStore)
      {
        PurgeAppend(current[..i], [current[i]], cutoff);
        assert current[..i + 1] == current[..i] + [current[i]];
        if current[i] > cutoff {
          kept := kept + [current[i]];
        }
        i := i + 1;
      }
      assert current[..i] == current;
      assert |kept| <= |current| <= limit;
      if |kept| >= limit {
        memoryStore := memoryStore[clientIp := kept];
        return false;
      }
      var recorded: seq<nat> := kept + [now];
      assert |recorded| <= limit;
      memoryStore := memoryStore[clientIp := recorded];
      return true;
    }
  }

  // ---------------------------------------------------------------------------
  // Lemmas
  // ---------------------------------------------------------------------------

  /** Purging distributes over concatenation. */
  lemma {:induction false} PurgeAppend(a: seq<nat>, b: seq<nat>, cutoff: int)
    ensures Purge(a + b, cutoff) == Purge(a, cutoff) + Purge(b, cutoff)
  {
    if a == [] {
      assert a + b == b;
    } else {
      assert (a + b)[0] == a[0];
      assert (a + b)[1..] == a[1..] + b;
      PurgeAppend(a[1..], b, cutoff);
    }
  }

  /** Timestamps all newer than the cutoff survive the purge unchanged. */
  lemma {:induction false} PurgeAllNewer(ts: seq<nat>, cutoff: int)
    requires forall i :: 0 <= i < |ts| ==> ts[i] > cutoff
    ensures Purge(ts, cutoff) == ts
  {
    if ts != [] {
      PurgeAllNewer(ts[1..], cutoff);
    }
  }

  /** Timestamps all at or before the cutoff are all purged. */
  lemma {:induction false} PurgeAllOlder(ts: seq<nat>, cutoff: int)
    requires forall i :: 0 <= i < |ts| ==> ts[i] <= cutoff
    ensures Purge(ts, cutoff) == []
  {
    if ts != [] {
      PurgeAllOlder(ts[1..], cutoff);
    }
  }

  /** A client the store has not seen is let through (when `limit >= 1`) and its list becomes `[now]`. */
  lemma FirstRequestAllowed(store: map<string, seq<nat>>, limit: nat, window: nat, ip: string, now: nat)
    requires limit >= 1 && ip !in store
    ensures Admit(store, limit, window, ip, now).allowed
    ensures Admit(store, limit, window, ip, now).store[ip] == [now]
  {
    AdmitSpec(store, limit, window, ip, now);
  }

  /** One step of `Run`: the first call's decision, then the rest run on the store it leaves. */
  lemma RunCons(store: map<string, seq<nat>>, limit: nat, window: nat, ip: string, times: seq<nat>)
    requires times != []
    ensures var o := Admit(store, limit, window, ip, times[0]);
      var rest := Run(o.store, limit, window, ip, times[1..]);
      Run(store, limit, window, ip, times) == Trace([o.allowed] + rest.decisions, rest.store)
  {
  }

  /** Running `a` then `b` is running `a + b`. */
  lemma {:induction false} RunAppend(store: map<string, seq<nat>>, limit: nat, window: nat, ip: string, a: seq<nat>, b: seq<nat>)
    ensures Run(store, limit, window, ip, a + b).decisions ==
            Run(store, limit, window, ip, a).decisions + Run(Run(store, limit, window, ip, a).store, limit, window, ip, b).decisions
    ensures Run(store, limit, window, ip, a + b).store == Run(Run(store, limit, window, ip, a).store, limit, window, ip, b).store
    decreases |a|
  {
    if a == [] {
      assert a + b == b;
    } else {
      var o := Admit(store, limit, window, ip, a[0]);
      assert (a + b)[0] == a[0];
      assert (a + b)[1..] == a[1..] + b;
      RunAppend(o.store, limit, window, ip, a[1..], b);
      RunCons(store, limit, window, ip, a);
      RunCons(store, limit, window, ip, a + b);
    }
  }

  /**
   * With `k` recent calls on record, `n` more calls at the same second are all
   * accepted while `k + n <= limit`, and leave `k + n` calls on record.
   */
  lemma {:induction false} Fill(store: map<string, seq<nat>>, limit: nat, window: nat, ip: string, now: nat, k: nat, n: nat)
    requires window >= 1 && k + n <= limit
    requires Purge(Window(store, ip), now - window) == Repeat(now, k)
    ensures Run(store, limit, window, ip, Repeat(now, n)).decisions == Repeat(true, n)
    ensures Purge(Window(Run(store, limit, window, ip, Repeat(now, n)).store, ip), now - window) == Repeat(now, k + n)
    decreases n
  {
    var times := Repeat(now, n);
    if n == 0 {
      assert times == [];
    } else {
      var o := Admit(store, limit, window, ip, now);
      FillStep(store, limit, window, ip, now, k);
      assert times[0] == now;
      assert times[1..] == Repeat(now, n - 1);
      Fill(o.store, limit, window, ip, now, k + 1, n - 1);
      var t := Run(o.store, limit, window, ip, times[1..]);
      assert Run(store, limit, window, ip, times) == Trace([true] + t.decisions, t.store);
      assert [true] + Repeat(true, n - 1) == Repeat(true, n);
    }
  }

  /** One step of `Fill`: with `k < limit` calls at `now` on record, a call at `now` is accepted and leaves `k + 1`. */
  lemma FillStep(store: map<string, seq<nat>>, limit: nat, window: nat, ip: string, now: nat, k: nat)
    requires window >= 1 && k < limit
    requires Purge(Window(store, ip), now - window) == Repeat(now, k)
    ensures Admit(store, limit, window, ip, now).allowed
    ensures Purge(Window(Admit(store, limit, window, ip, now).store, ip), now - window) == Repeat(now, k + 1)
  {
    var o := Admit(store, limit, window, ip, now);
    AdmitSpec(store, limit, window, ip, now);
    assert Repeat(now, k) + [now] == Repeat(now, k + 1);
    assert Window(o.store, ip) == Repeat(now, k + 1);
    PurgeAllNewer(Repeat(now, k + 1), now - window);
  }

  /** With `limit` recent calls on record, a call at `now` is rejected and one `window` seconds later accepted. */
  lemma RejectThenRecover(store: map<string, seq<nat>>, limit: nat, window: nat, ip: string, now: nat)
    requires limit >= 1 && window >= 1
    requires Purge(Window(store, ip), now - window) == Repeat(now, limit)
    ensures Run(store, limit, window, ip, [now, now + window]).decisions == [false, true]
  {
    var later := now + window;
    var o1 := Admit(store, limit, window, ip, now);
    AdmitSpec(store, limit, window, ip, now);
    assert !o1.allowed;
    assert Window(o1.store, ip) == Repeat(now, limit);
    PurgeAllOlder(Repeat(now, limit), later - window);
    var o2 := Admit(o1.store, limit, window, ip, later);
    AdmitSpec(o1.store, limit, window, ip, later);
    assert o2.allowed;
    var times := [now, later];
    assert times[0] == now && times[1..] == [later];
    assert [later][0] == later && [later][1..] == [];
    var t2 := Run(o1.store, limit, window, ip, [later]);
    var t3 := Run(o2.store, limit, window, ip, []);
    assert t3.decisions == [];
    assert t2.decisions == [o2.allowed] + t3.decisions;
    assert t2.decisions == [true];
    assert Run(store, limit, window, ip, times).decisions == [false] + t2.decisions;
  }

  /**
   * From a client with nothing recent on record, `limit` calls at the same
   * second are all accepted, the next one at that second is rejected, and a
   * call `window` seconds later is accepted again.
   */
  lemma BurstThenRecover(store: map<string, seq<nat>>, limit: nat, window: nat, ip: string, now: nat)
    requires limit >= 1 && window >= 1
    requires Purge(Window(store, ip), now - window) == []
    ensures Run(store, limit, window, ip, Repeat<nat>(now, limit) + [now, now + window]).decisions
         == Repeat(true, limit) + [false, true]
  {
    var burst := Repeat<nat>(now, limit);
    var tail := [now, now + window];
    RunAppend(store, limit, window, ip, burst, tail);
    assert Repeat(now, 0) == [];
    Fill(store, limit, window, ip, now, 0, limit);
    var s1 := Run(store, limit, window, ip, burst).store;
    RejectThenRecover(s1, limit, window, ip, now);
    assert Run(s1, limit, window, ip, tail).decisions == [false, true];
    assert Run(store, limit, window, ip, burst + tail).decisions == Repeat(true, limit) + [false, true];
  }

  /**
   * What one call does in the Redis branch: only the caller's set changes;
   * it keeps the seconds newer than the cutoff and gains `now` whether or
   * not the call is accepted; the call is accepted exactly when fewer than
   * `limit` seconds survive the purge.
   */
  lemma AdmitRedisSpec(store: map<string, set<nat>>, limit: nat, window: nat, ip: string, now: nat)
    ensures var o := AdmitRedis(store, limit, window, ip, now);
      var kept := Expire(Seconds(store, ip), now - window);
      && o.store.Keys == store.Keys + {ip}
      && (forall c :: c in store && c != ip ==> o.store[c] == store[c])
      && (o.allowed <==> |kept| < limit)
      && o.store[ip] == kept + {now}
      && (forall t :: t in o.store[ip] <==> t == now || (t in Seconds(store, ip) && t > now - window))
  {
  }

  /** Calls in the same second are one member of the set: a second call at `now` leaves the set as the first did. */
  lemma RedisSameSecond(store: map<string, set<nat>>, limit: nat, window: nat, ip: string, now: nat)
    ensures var once := AdmitRedis(store, limit, window, ip, now).store;
      AdmitRedis(once, limit, window, ip, now).store == once
  {
    var once := AdmitRedis(store, limit, window, ip, now).store;
    var kept := Expire(Seconds(store, ip), now - window);
    assert Seconds(once, ip) == kept + {now};
    if window >= 1 {
      assert Expire(kept + {now}, now - window) == kept + {now};
    } else {
      assert Expire(kept + {now}, now - window) == kept;
    }
  }

  /** The naturals in `(lo, hi]`. */
  function Span(lo: int, hi: int): set<nat>
    decreases hi - lo
  {
    if hi <= lo || hi < 0 then {} else Span(lo, hi - 1) + {hi}
  }

  /** `Span` holds exactly the naturals above `lo` and up to `hi`, and at most `hi - lo` of them. */
  lemma {:induction false} SpanSpec(lo: int, hi: int)
    ensures forall t: nat :: t in Span(lo, hi) <==> lo < t <= hi
    ensures |Span(lo, hi)| <= if hi > lo then hi - lo else 0
    decreases hi - lo
  {
    if hi <= lo || hi < 0 {
    } else {
      SpanSpec(lo, hi - 1);
    }
  }

  /**
   * With a clock that never runs backwards (nothing on record is later than
   * `now`), at most `window` seconds survive the purge, so a limiter whose
   * `limit` exceeds its `window` never rejects in the Redis branch: the
   * default `limit = 100`, `window = 60` is one.
   */
  lemma RedisNeverRejects(store: map<string, set<nat>>, limit: nat, window: nat, ip: string, now: nat)
    requires window < limit
    requires forall t :: t in Seconds(store, ip) ==> t <= now
    ensures AdmitRedis(store, limit, window, ip, now).allowed
  {
    var kept := Expire(Seconds(store, ip), now - window);
    SpanSpec(now - window, now);
    assert kept <= Span(now - window, now);
    SubsetSize(kept, Span(now - window, now));
  }

  /** A subset is no larger than its superset. */
  lemma SubsetSize<T>(a: set<T>, b: set<T>)
    requires a <= b
    ensures |a| <= |b|
  {
    assert b == a + (b - a);
  }

  /** With the default limiter in the Redis branch, a repeated call in the same second passes too and leaves the set as it was: a burst within one second is recorded once. */
  lemma RedisBurstCollapses(store: map<string, set<nat>>, ip: string, now: nat)
    requires forall t :: t in Seconds(store, ip) ==> t <= now
    ensures var first := AdmitRedis(store, 100, 60, ip, now);
      && first.allowed
      && AdmitRedis(first.store, 100, 60, ip, now).allowed
      && AdmitRedis(first.store, 100, 60, ip, now).store == first.store
  {
    var first := AdmitRedis(store, 100, 60, ip, now);
    RedisNeverRejects(store, 100, 60, ip, now);
    RedisSameSecond(store, 100, 60, ip, now);
    assert Seconds(first.store, ip) == Expire(Seconds(store, ip), now - 60) + {now};
    RedisNeverRejects(first.store, 100, 60, ip, now);
  }
}
