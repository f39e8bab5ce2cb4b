/**
 * The sliding-window rate limiter (`shared/middleware/rateLimiter.js`, and
 * the copy in `app.js`).  It keeps, per client key, the timestamps of its
 * admitted requests in a map that remembers insertion order.  A request is
 * admitted iff fewer than `max` of its key's timestamps lie in the window
 * `(now - windowMs, now]`; at most 10000 keys are tracked, the oldest-inserted
 * key making room for a new one; and an occasional sweep drops every key whose
 * timestamps have all expired.  The clock reading and the sweep decision are
 * parameters.
 */
module RateLimiter {

  const MaxTrackedKeys := 10000

  /** The `requests` map: its keys in insertion order, and each key's timestamps. */
  datatype Table = Table(order: seq<string>, times: map<string, seq<int>>)

  /** No key appears twice. */
  predicate Distinct(keys: seq<string>)
  {
    forall i, j :: 0 <= i < j < |keys| ==> keys[i] != keys[j]
  }

  /** The order lists each tracked key exactly once. */
  ghost predicate WellFormed(t: Table)
  {
    && (forall k :: k in t.times <==> k in t.order)
    && Distinct(t.order)
  }

  /** A key's stored timestamps; none for an untracked key. */
  function TimesOf(t: Table, key: string): seq<int>
  {
    if key in t.times then t.times[key] else []
  }

  /** `times.filter(time => time > windowStart)`. */
  function InWindow(ts: seq<int>, windowStart: int): (r: seq<int>)
    ensures |r| <= |ts|
    ensures forall x :: x in r <==> x in ts && x > windowStart
  {
    if |ts| == 0 then []
    else if ts[|ts| - 1] > windowStart then InWindow(ts[..|ts| - 1], windowStart) + [ts[|ts| - 1]]
    else InWindow(ts[..|ts| - 1], windowStart)
  }

  /** Filtering an already filtered list changes nothing. */
  lemma {:induction false} InWindowIdempotent(ts: seq<int>, windowStart: int)
    ensures InWindow(InWindow(ts, windowStart), windowStart) == InWindow(ts, windowStart)
  {
    if |ts| > 0 {
      var front := ts[..|ts| - 1];
      InWindowIdempotent(front, windowStart);
      var f := InWindow(front, windowStart);
      if ts[|ts| - 1] > windowStart {
        assert (f + [ts[|ts| - 1]])[..|f|] == f;
      }
    }
  }

  /** A list with nothing newer than the window start filters to nothing. */
  lemma {:induction false} InWindowExpired(ts: seq<int>, windowStart: int)
    requires forall x :: x in ts ==> x <= windowStart
    ensures InWindow(ts, windowStart) == []
  {
    if |ts| > 0 {
      var front := ts[..|ts| - 1];
      assert forall x :: x in front ==> x in ts;
      InWindowExpired(front, windowStart);
      assert ts[|ts| - 1] in ts;
    }
  }

  /** The order without `key`. */
  function Remove(order: seq<string>, key: string): (r: seq<string>)
    ensures |r| <= |order|
    ensures forall k :: k in r <==> k in order && k != key
  {
    if |order| == 0 then []
    else if order[|order| - 1] == key then Remove(order[..|order| - 1], key)
    else Remove(order[..|order| - 1], key) + [order[|order| - 1]]
  }

  lemma {:induction false} RemoveDistinct(order: seq<string>, key: string)
    requires Distinct(order)
    ensures Distinct(Remove(order, key))
  {
    if |order| > 0 {
      var front, last := order[..|order| - 1], order[|order| - 1];
      RemoveDistinct(front, key);
      var r0 := Remove(front, key);
      if last != key {
        assert forall i :: 0 <= i < |front| ==> front[i] != last;
        assert last !in r0;
        var r := r0 + [last];
        forall i, j | 0 <= i < j < |r|
          ensures r[i] != r[j]
        {
          if j == |r| - 1 {
            assert r[i] == r0[i];
            assert r0[i] in r0;
          } else {
            assert r[i] == r0[i] && r[j] == r0[j];
          }
        }
      }
    }
  }

  /** `requests.delete(requests.keys().next().value)`: forget the oldest-inserted key. */
  function Evict(t: Table): Table
    requires |t.order| > 0
  {
    Table(t.order[1..], t.times - {t.order[0]})
  }

  /** Evict the oldest key when a new key arrives at capacity. */
  function MakeRoom(t: Table, key: string): Table
  {
    if |t.order| >= MaxTrackedKeys && key !in t.times then Evict(t) else t
  }

  /** `if (!requests.has(key)) requests.set(key, [])`. */
  function Track(t: Table, key: string): (r: Table)
    ensures key in r.times
  {
    if key !in t.times then Table(t.order + [key], t.times[key := []]) else t
  }

  /** One iteration of the sweep: prune `key` to its in-window timestamps, or forget it when none are left. */
  function SweepKey(t: Table, key: string, windowStart: int): Table
    requires key in t.times
  {
    var valid := InWindow(t.times[key], windowStart);
    if |valid| == 0 then Table(Remove(t.order, key), t.times - {key})
    else t.(times := t.times[key := valid])
  }

  /** The sweep loop over `keys`, in order. */
  function SweepAll(t: Table, keys: seq<string>, windowStart: int): Table
    decreases |keys|
  {
    if |keys| == 0 then t
    else SweepAll(if keys[0] in t.times then SweepKey(t, keys[0], windowStart) else t, keys[1..], windowStart)
  }

  /**
   * One request of `key` at time `now`: make room for a new key at capacity,
   * start an empty list for it, then refuse when `max` timestamps are already
   * in the window; otherwise store the in-window timestamps plus `now` and,
   * when `sweep`, sweep every key.  The result says whether it was admitted.
   */
  function Admit(t: Table, key: string, now: int, windowMs: int, max: int, sweep: bool): (bool, Table)
  {
    Decide(Track(MakeRoom(t, key), key), key, now, windowMs, max, sweep)
  }

  /** The decision for a tracked key, the recording of `now` and the optional sweep. */
  function Decide(t: Table, key: string, now: int, windowMs: int, max: int, sweep: bool): (bool, Table)
    requires key in t.times
  {
    var windowStart := now - windowMs;
    var valid := InWindow(t.times[key], windowStart);
    if |valid| >= max then (false, t)
    else
      var t3 := t.(times := t.times[key := valid + [now]]);
      (true, if sweep then SweepAll(t3, t3.order, windowStart) else t3)
  }

  /** `r` is `t` with each of `keys` pruned to its in-window timestamps, or forgotten when none are left. */
  ghost predicate Swept(t: Table, r: Table, keys: seq<string>, windowStart: int)
  {
    forall k :: k in keys && k in t.times ==>
      && (k in r.times <==> |InWindow(t.times[k], windowStart)| > 0)
      && (k in r.times ==> r.times[k] == InWindow(t.times[k], windowStart))
  }

  /** `r` agrees with `t` on every key outside `keys`. */
  ghost predicate Untouched(t: Table, r: Table, keys: seq<string>)
  {
    forall k :: k !in keys ==> (k in r.times <==> k in t.times) && (k in t.times ==> r.times[k] == t.times[k])
  }

  lemma SweepKeyEffect(t: Table, key: string, windowStart: int)
    requires WellFormed(t) && key in t.times
    ensures WellFormed(SweepKey(t, key, windowStart))
    ensures |SweepKey(t, key, windowStart).order| <= |t.order|
    ensures Swept(t, SweepKey(t, key, windowStart), [key], windowStart)
    ensures Untouched(t, SweepKey(t, key, windowStart), [key])
  {
    if |InWindow(t.times[key], windowStart)| == 0 {
      RemoveDistinct(t.order, key);
    }
  }

  /**
   * The sweep over distinct tracked keys forgets exactly those of them with
   * no in-window timestamp, prunes the others to their in-window timestamps,
   * leaves every other key alone and never adds a key.
   */
  lemma {:induction false} SweepAllEffect(t: Table, keys: seq<string>, windowStart: int)
    requires WellFormed(t)
    requires Distinct(keys)
    requires forall i :: 0 <= i < |keys| ==> keys[i] in t.times
    ensures WellFormed(SweepAll(t, keys, windowStart))
    ensures |SweepAll(t, keys, windowStart).order| <= |t.order|
    ensures Swept(t, SweepAll(t, keys, windowStart), keys, windowStart)
    ensures Untouched(t, SweepAll(t, keys, windowStart), keys)
    decreases |keys|
  {
    if |keys| > 0 {
      var k0, rest := keys[0], keys[1..];
      var t1 := SweepKey(t, k0, windowStart);
      SweepKeyEffect(t, k0, windowStart);
      assert forall i :: 0 <= i < |rest| ==> rest[i] == keys[i + 1];
      assert k0 !in rest;
      SweepAllEffect(t1, rest, windowStart);
      var r := SweepAll(t, keys, windowStart);
      assert r == SweepAll(t1, rest, windowStart);
      forall k | k in keys && k in t.times
        ensures (k in r.times <==> |InWindow(t.times[k], windowStart)| > 0)
        ensures (k in r.times ==> r.times[k] == InWindow(t.times[k], windowStart))
      {
        if k != k0 {
          assert k in rest;
        }
      }
    }
  }

  /** After a full sweep every remaining key has a non-empty list of in-window timestamps, and no key is added. */
  lemma SweepLeavesOnlyLive(t: Table, windowStart: int)
    requires WellFormed(t)
    ensures var r := SweepAll(t, t.order, windowStart);
      && WellFormed(r)
      && |r.order| <= |t.order|
      && (forall k :: k in r.times ==> |r.times[k]| > 0 && forall x :: x in r.times[k] ==> x > windowStart)
      && (forall k :: k in t.times ==> (k in r.times <==> exists x :: x in t.times[k] && x > windowStart))
      && r.times.Keys <= t.times.Keys
  {
    SweepAllEffect(t, t.order, windowStart);
    var r := SweepAll(t, t.order, windowStart);
    assert Swept(t, r, t.order, windowStart);
    forall k | k in t.times
      ensures k in r.times <==> exists x :: x in t.times[k] && x > windowStart
    {
      var w := InWindow(t.times[k], windowStart);
      if |w| > 0 {
        assert w[0] in w;
      }
    }
  }

  /** Making room keeps the table well formed and forgets exactly the oldest key. */
  lemma EvictKeepsWellFormed(t: Table)
    requires WellFormed(t) && |t.order| > 0
    ensures WellFormed(Evict(t)) && |Evict(t).order| == |t.order| - 1
    ensures t.order[0] !in Evict(t).times
    ensures forall k :: k in t.times && k != t.order[0] ==> k in Evict(t).times && Evict(t).times[k] == t.times[k]
  {
    assert forall i :: 0 < i < |t.order| ==> t.order[i] != t.order[0];
    forall k | k in t.order && k != t.order[0]
      ensures k in t.order[1..]
    {
      var i :| 0 <= i < |t.order| && t.order[i] == k;
      assert t.order[1..][i - 1] == k;
    }
  }

  /** Making room and tracking the key keep the table well formed and within 10000 keys. */
  lemma TrackKeepsBound(t: Table, key: string)
    requires WellFormed(t) && |t.order| <= MaxTrackedKeys
    ensures WellFormed(Track(MakeRoom(t, key), key))
    ensures |Track(MakeRoom(t, key), key).order| <= MaxTrackedKeys
    ensures key !in t.times && |t.order| >= MaxTrackedKeys ==> t.order[0] !in Track(MakeRoom(t, key), key).times
    ensures key in t.times ==> Track(MakeRoom(t, key), key) == t
  {
    if |t.order| >= MaxTrackedKeys && key !in t.times {
      EvictKeepsWellFormed(t);
      assert t.order[0] != key;
    }
  }

  /** Replacing a tracked key's timestamps keeps the table well formed. */
  lemma RecordKeepsWellFormed(t: Table, key: string, ts: seq<int>)
    requires WellFormed(t) && key in t.times
    ensures WellFormed(t.(times := t.times[key := ts]))
    ensures forall i :: 0 <= i < |t.order| ==> t.order[i] in t.(times := t.times[key := ts]).times
  {
    forall i | 0 <= i < |t.order|
      ensures t.order[i] in t.times
    {
      assert t.order[i] in t.order;
    }
  }

  /** Recording and sweeping keep the table well formed and never add a key. */
  lemma DecideKeepsBound(t: Table, key: string, now: int, windowMs: int, max: int, sweep: bool)
    requires WellFormed(t) && key in t.times
    ensures WellFormed(Decide(t, key, now, windowMs, max, sweep).1)
    ensures |Decide(t, key, now, windowMs, max, sweep).1.order| <= |t.order|
    ensures !sweep ==> Decide(t, key, now, windowMs, max, sweep).1.times.Keys == t.times.Keys
    ensures Decide(t, key, now, windowMs, max, sweep).1.times.Keys <= t.times.Keys
  {
    var windowStart := now - windowMs;
    var valid := InWindow(t.times[key], windowStart);
    if |valid| < max {
      RecordKeepsWellFormed(t, key, valid + [now]);
      if sweep {
        SweepLeavesOnlyLive(t.(times := t.times[key := valid + [now]]), windowStart);
      }
    }
  }

  /** Admission keeps the table well formed and never tracks more than 10000 keys. */
  lemma AdmitKeepsBound(t: Table, key: string, now: int, windowMs: int, max: int, sweep: bool)
    requires WellFormed(t) && |t.order| <= MaxTrackedKeys
    ensures WellFormed(Admit(t, key, now, windowMs, max, sweep).1)
    ensures |Admit(t, key, now, windowMs, max, sweep).1.order| <= MaxTrackedKeys
    ensures key !in t.times && |t.order| >= MaxTrackedKeys ==> t.order[0] !in Admit(t, key, now, windowMs, max, sweep).1.times
  {
    TrackKeepsBound(t, key);
    DecideKeepsBound(Track(MakeRoom(t, key), key), key, now, windowMs, max, sweep);
  }

  /**
   * A request is admitted iff fewer than `max` of its key's timestamps are
   * newer than `now - windowMs`.  A refused request leaves its key's list as it
   * was; an admitted one (before any sweep) stores those timestamps plus `now`,
   * so at most `max` entries.
   */
  lemma AdmitDecision(t: Table, key: string, now: int, windowMs: int, max: int, sweep: bool)
    ensures var (ok, r) := Admit(t, key, now, windowMs, max, sweep);
      var valid := InWindow(TimesOf(t, key), now - windowMs);
      && (ok <==> |valid| < max)
      && (!ok ==> key in r.times && r.times[key] == TimesOf(t, key))
      && (ok && !sweep ==> key in r.times && r.times[key] == valid + [now] && |r.times[key]| <= max)
  {
  }

  /** A sweep keeps a key with at least one timestamp, all of them live, as it was. */
  lemma SweepKeepsLiveKey(t: Table, key: string, windowStart: int)
    requires WellFormed(t) && key in t.times && |t.times[key]| > 0
    requires forall i :: 0 <= i < |t.times[key]| ==> t.times[key][i] > windowStart
    ensures key in SweepAll(t, t.order, windowStart).times
    ensures SweepAll(t, t.order, windowStart).times[key] == t.times[key]
  {
    forall i | 0 <= i < |t.order|
      ensures t.order[i] in t.times
    {
      assert t.order[i] in t.order;
    }
    SweepAllEffect(t, t.order, windowStart);
    assert key in t.order;
    InWindowAllLive(t.times[key], windowStart);
  }

  /** With a positive window an admitted key holds its live timestamps plus `now`, with or without the sweep. */
  lemma DecideKeepsAdmitted(t: Table, key: string, now: int, windowMs: int, max: int, sweep: bool)
    requires WellFormed(t) && key in t.times && windowMs > 0
    ensures var (ok, r) := Decide(t, key, now, windowMs, max, sweep);
      ok ==> key in r.times && r.times[key] == InWindow(t.times[key], now - windowMs) + [now]
  {
    var windowStart := now - windowMs;
    var valid := InWindow(t.times[key], windowStart);
    if |valid| < max && sweep {
      var kept := valid + [now];
      RecordKeepsWellFormed(t, key, kept);
      forall i | 0 <= i < |kept|
        ensures kept[i] > windowStart
      {
        if i < |valid| {
          assert valid[i] in valid;
        }
      }
      SweepKeepsLiveKey(t.(times := t.times[key := kept]), key, windowStart);
    }
  }

  /**
   * With a positive window the sweep never touches the key just admitted: it
   * keeps its live timestamps plus `now`, so at most `max` entries.
   */
  lemma AdmittedListSurvivesSweep(t: Table, key: string, now: int, windowMs: int, max: int, sweep: bool)
    requires WellFormed(t) && |t.order| <= MaxTrackedKeys
    ensures var (ok, r) := Admit(t, key, now, windowMs, max, sweep);
      var valid := InWindow(TimesOf(t, key), now - windowMs);
      ok && windowMs > 0 ==> key in r.times && r.times[key] == valid + [now] && |r.times[key]| <= max
  {
    AdmitDecision(t, key, now, windowMs, max, sweep);
    if windowMs > 0 {
      TrackKeepsBound(t, key);
      DecideKeepsAdmitted(Track(MakeRoom(t, key), key), key, now, windowMs, max, sweep);
    }
  }

  /** Once every timestamp of a key has left the window, its next request is admitted (for `max` >= 1). */
  lemma ExpiredKeyAdmitted(t: Table, key: string, now: int, windowMs: int, max: int, sweep: bool)
    requires max >= 1
    requires forall x :: x in TimesOf(t, key) ==> x <= now - windowMs
    ensures Admit(t, key, now, windowMs, max, sweep).0
  {
    InWindowExpired(TimesOf(t, key), now - windowMs);
  }

  /** `n` requests of `key` at the same instant, without sweeping: each one's verdict, and the final table. */
  function Burst(t: Table, key: string, now: int, windowMs: int, max: int, n: nat): (seq<bool>, Table)
  {
    if n == 0 then ([], t)
    else
      var (verdicts, t1) := Burst(t, key, now, windowMs, max, n - 1);
      var (ok, t2) := Admit(t1, key, now, windowMs, max, false);
      (verdicts + [ok], t2)
  }

  /** Timestamps that all lie in the window survive the filter unchanged. */
  lemma {:induction false} InWindowAllLive(ts: seq<int>, windowStart: int)
    requires forall i :: 0 <= i < |ts| ==> ts[i] > windowStart
    ensures InWindow(ts, windowStart) == ts
  {
    if |ts| > 0 {
      InWindowAllLive(ts[..|ts| - 1], windowStart);
      assert ts[..|ts| - 1] + [ts[|ts| - 1]] == ts;
    }
  }

  /** The table holding one key with `k` timestamps, all equal to `now`. */
  function Single(key: string, now: int, k: nat): Table
  {
    Table([key], map[key := seq(k, _ => now)])
  }

  /** One more request at `now` against `Single(key, now, k)`, `k` <= `max`: admitted iff `k` < `max`. */
  lemma SingleStep(key: string, now: int, windowMs: int, max: int, k: nat)
    requires windowMs > 0 && k <= max
    ensures Admit(Single(key, now, k), key, now, windowMs, max, false)
      == (k < max, Single(key, now, if k < max then k + 1 else k))
  {
    var t := Single(key, now, k);
    assert MakeRoom(t, key) == t && Track(t, key) == t;
    InWindowAllLive(t.times[key], now - windowMs);
    assert InWindow(t.times[key], now - windowMs) == seq(k, _ => now);
    if k < max {
      assert seq(k, _ => now) + [now] == seq(k + 1, _ => now);
      assert t.(times := t.times[key := seq(k + 1, _ => now)]) == Single(key, now, k + 1);
    }
  }

  /**
   * Against a fresh limiter with a positive window, a burst of `n` requests
   * from one key at one instant admits exactly the first `max` of them, and
   * the table then holds that key alone with one timestamp per admission.
   */
  lemma {:induction false} BurstFromEmpty(key: string, now: int, windowMs: int, max: nat, n: nat)
    requires windowMs > 0 && n > 0
    ensures |Burst(Table([], map[]), key, now, windowMs, max, n).0| == n
    ensures forall i :: 0 <= i < n ==> (Burst(Table([], map[]), key, now, windowMs, max, n).0[i] <==> i < max)
    ensures Burst(Table([], map[]), key, now, windowMs, max, n).1 == Single(key, now, if n < max then n else max)
  {
    var empty := Table([], map[]);
    if n == 1 {
      assert Track(MakeRoom(empty, key), key) == Single(key, now, 0);
      SingleStep(key, now, windowMs, max, 0);
    } else {
      BurstFromEmpty(key, now, windowMs, max, n - 1);
      SingleStep(key, now, windowMs, max, if n - 1 < max then n - 1 else max);
    }
  }

  /** The closure `rateLimit(windowMs, max)` returns, with its private `requests` map. */
  class Limiter {
    const windowMs: int
    const max: int
    var requests: Table

    ghost predicate Valid()
      reads this
    {
      WellFormed(requests) && |requests.order| <= MaxTrackedKeys
    }

    constructor (windowMs: int, max: int)
      ensures this.windowMs == windowMs && this.max == max
      ensures requests == Table([], map[]) && Valid()
    {
      this.windowMs := windowMs;
      this.max := max;
      requests := Table([], map[]);
    }

    /** The middleware body for one request; `sweep` stands for `Math.random() < 0.05`. */
    method Request(key: string, now: int, sweep: bool) returns (admitted: bool)
      requires Valid()
      modifies this
      ensures Valid()
      ensures (admitted, requests) == Admit(old(requests), key, now, windowMs, max, sweep)
    {
      AdmitKeepsBound(requests, key, now, windowMs, max, sweep);
      var windowStart := now - windowMs;
      if |requests.order| >= MaxTrackedKeys && key !in requests.times {
        var oldestKey := requests.order[0];
        requests := Table(requests.order[1..], requests.times - {oldestKey});
      }
      if key !in requests.times {
        requests := Table(requests.order + [key], requests.times[key := []]);
      }
      assert requests == Track(MakeRoom(old(requests), key), key);
      var userRequests := requests.times[key];
      var validRequests := InWindow(userRequests, windowStart);
      if |validRequests| >= max {
        return false;
      }
      validRequests := validRequests + [now];
      requests := requests.(times := requests.times[key := validRequests]);
      if sweep {
        SweepKeys(windowStart);
      }
      admitted := true;
    }

    /** The occasional cleanup: every key, in insertion order, is pruned to its in-window timestamps or forgotten. */
    method SweepKeys(windowStart: int)
      modifies this
      ensures requests == SweepAll(old(requests), old(requests).order, windowStart)
    {
      var keys := requests.order;
      var i := 0;
      while i < |keys|
        invariant 0 <= i <= |keys|
        invariant SweepAll(requests, keys[i..], windowStart) == SweepAll(old(requests), keys, windowStart)
      {
        var ip := keys[i];
        if ip in requests.times {
          var validTimes := InWindow(requests.times[ip], windowStart);
          if |validTimes| == 0 {
            requests := Table(Remove(requests.order, ip), requests.times - {ip});
          } else {
            requests := requests.(times := requests.times[ip := validTimes]);
          }
        }
        assert keys[i..][1..] == keys[i + 1..];
        i := i + 1;
      }
    }
  }
}
