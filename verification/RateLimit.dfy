/** The in-memory rate limiter (rate-limit.service.ts). */
module RateLimit {
  import opened Prelude

  // Fixed windows. Times and window lengths are integers in milliseconds. A call is checked against
  // the bucket of its key; the trace lemmas below speak about any interleaving of calls on any number
  // of keys, each key with its own fixed limit and window.

  datatype Bucket = Bucket(count: int, resetAt: int)

  datatype Verdict = Allowed | Limited | Unavailable

  /** What one check does to the bucket of its key. */
  function Check(bucket: Option<Bucket>, limit: int, windowMs: int, now: int): (Verdict, Bucket) {
    match bucket
    case None => (Allowed, Bucket(1, now + windowMs))
    case Some(b) =>
      if b.resetAt <= now then (Allowed, Bucket(1, now + windowMs))
      else if b.count >= limit then (Limited, b)
      else (Allowed, Bucket(b.count + 1, b.resetAt))
  }

  function Lookup(buckets: map<string, Bucket>, key: string): Option<Bucket> {
    if key in buckets then Some(buckets[key]) else None
  }

  class RateLimiter {
    var buckets: map<string, Bucket>

    constructor ()
      ensures buckets == map[]
    {
      buckets := map[];
    }

    method AssertWithinLimit(key: string, limit: int, windowMs: int, now: int,
                             failClosed: bool, unavailable: bool)
      returns (verdict: Verdict)
      modifies this
      ensures unavailable ==>
                buckets == old(buckets) && verdict == if failClosed then Unavailable else Allowed
      ensures !unavailable ==>
                var (v, b) := Check(Lookup(old(buckets), key), limit, windowMs, now);
                verdict == v && buckets == old(buckets)[key := b]
    {
      if unavailable {
        if failClosed {
          return Unavailable;
        }
        return Allowed;
      }
      if key !in buckets || buckets[key].resetAt <= now {
        buckets := buckets[key := Bucket(1, now + windowMs)];
        return Allowed;
      }
      var existing := buckets[key];
      if existing.count >= limit {
        assert buckets[key := existing] == buckets;
        return Limited;
      }
      buckets := buckets[key := existing.(count := existing.count + 1)];
      return Allowed;
    }
  }

  // ----- traces of calls -----

  datatype Policy = Policy(limit: int, windowMs: int)

  datatype Call = Call(key: string, now: int)

  /** The buckets after a trace of calls made on a fresh limiter. */
  function After(calls: seq<Call>, policy: string -> Policy): map<string, Bucket> {
    if calls == [] then map[]
    else
      var c := calls[|calls| - 1];
      var before := After(calls[..|calls| - 1], policy);
      before[c.key := Check(Lookup(before, c.key), policy(c.key).limit, policy(c.key).windowMs, c.now).1]
  }

  /** The times at which calls on `key` were let through. */
  function Admitted(calls: seq<Call>, policy: string -> Policy, key: string): seq<int> {
    if calls == [] then []
    else
      var c := calls[|calls| - 1];
      var before := calls[..|calls| - 1];
      var earlier := Admitted(before, policy, key);
      if c.key == key && Check(Lookup(After(before, policy), key), policy(key).limit, policy(key).windowMs, c.now).0 == Allowed
      then earlier + [c.now]
      else earlier
  }

  predicate InOrder(calls: seq<Call>) {
    forall i, j :: 0 <= i <= j < |calls| ==> calls[i].now <= calls[j].now
  }

  /** How many of `times` lie in the half-open interval [lo, hi). */
  function Count(times: seq<int>, lo: int, hi: int): nat {
    if times == [] then 0
    else
      var x := times[|times| - 1];
      Count(times[..|times| - 1], lo, hi) + if lo <= x < hi then 1 else 0
  }

  lemma {:induction false} CountSplits(times: seq<int>, lo: int, mid: int, hi: int)
    requires lo <= mid <= hi
    ensures Count(times, lo, hi) == Count(times, lo, mid) + Count(times, mid, hi)
  {
    if times != [] {
      CountSplits(times[..|times| - 1], lo, mid, hi);
    }
  }

  ghost predicate Below(times: seq<int>, bound: int) {
    forall i :: 0 <= i < |times| ==> times[i] < bound
  }

  lemma {:induction false} CountBeyond(times: seq<int>, lo: int, hi: int, bound: int)
    requires Below(times, bound) && bound <= hi
    ensures Count(times, lo, hi) == Count(times, lo, bound)
  {
    if times != [] {
      CountBeyond(times[..|times| - 1], lo, hi, bound);
    }
  }

  /** What every reachable bucket says about the calls its key has had. */
  ghost predicate BucketInv(bucket: Option<Bucket>, admitted: seq<int>, policy: Policy) {
    match bucket
    case None => admitted == []
    case Some(b) =>
      var s := b.resetAt - policy.windowMs;
      && 1 <= b.count <= policy.limit
      && Below(admitted, b.resetAt)
      && s in admitted
      && Count(admitted, s, b.resetAt) == b.count
      && Count(admitted, s, s + 1) >= 1
      && Count(admitted, s - policy.windowMs + 1, s) <= policy.limit - 1
  }

  lemma {:induction false} AdmittedInPast(calls: seq<Call>, policy: string -> Policy, key: string, now: int)
    requires forall c :: c in calls ==> c.now <= now
    ensures Below(Admitted(calls, policy, key), now + 1)
  {
    if calls != [] {
      assert calls[|calls| - 1] in calls;
      AdmittedInPast(calls[..|calls| - 1], policy, key, now);
    }
  }

  lemma CountAppend(times: seq<int>, x: int, lo: int, hi: int)
    ensures Count(times + [x], lo, hi) == Count(times, lo, hi) + if lo <= x < hi then 1 else 0
  {
    assert (times + [x])[..|times|] == times;
  }

  lemma {:induction false} BucketInvHolds(calls: seq<Call>, policy: string -> Policy, key: string)
    requires InOrder(calls) && policy(key).limit >= 1 && policy(key).windowMs >= 1
    ensures BucketInv(Lookup(After(calls, policy), key), Admitted(calls, policy, key), policy(key))
  {
    if calls != [] {
      var c := calls[|calls| - 1];
      var before := calls[..|calls| - 1];
      BucketInvHolds(before, policy, key);
      if c.key == key {
        AdmittedInPast(before, policy, key, c.now);
        BucketInvStep(Lookup(After(before, policy), key), Admitted(before, policy, key), policy(key), c.now);
      }
    }
  }

  lemma BucketInvStep(bucket: Option<Bucket>, admitted: seq<int>, policy: Policy, now: int)
    requires BucketInv(bucket, admitted, policy) && policy.limit >= 1 && policy.windowMs >= 1
    requires Below(admitted, now + 1)
    ensures var (v, b) := Check(bucket, policy.limit, policy.windowMs, now);
            BucketInv(Some(b), if v == Allowed then admitted + [now] else admitted, policy)
  {
    var (v, b) := Check(bucket, policy.limit, policy.windowMs, now);
    if v == Allowed {
      var s := b.resetAt - policy.windowMs;
      CountAppend(admitted, now, s, b.resetAt);
      CountAppend(admitted, now, s, s + 1);
      CountAppend(admitted, now, s - policy.windowMs + 1, s);
      if bucket.Some? && bucket.value.resetAt <= now { BeforeNewBucket(bucket.value, admitted, policy, now); }
    }
  }

  /** When a new bucket starts, none of the earlier calls falls into it, and at least one call of the
      bucket before it lies too far back to share a window with its start. */
  lemma BeforeNewBucket(bucket: Bucket, admitted: seq<int>, policy: Policy, now: int)
    requires BucketInv(Some(bucket), admitted, policy) && policy.windowMs >= 1 && bucket.resetAt <= now
    ensures Count(admitted, now, now + policy.windowMs) == 0 && Count(admitted, now, now + 1) == 0
    ensures Count(admitted, now - policy.windowMs + 1, now) <= policy.limit - 1
  {
    var s := bucket.resetAt - policy.windowMs;
    CountEmpty(admitted, now, now);
    CountBeyond(admitted, now, now + policy.windowMs, now);
    CountBeyond(admitted, now, now + 1, now);
    CountBeyond(admitted, s, now, bucket.resetAt);
    CountSplits(admitted, s, s + 1, now);
    CountSplits(admitted, s + 1, now - policy.windowMs + 1, now);
  }

  lemma {:induction false} CountEmpty(times: seq<int>, lo: int, hi: int)
    requires hi <= lo
    ensures Count(times, lo, hi) == 0
  {
    if times != [] {
      CountEmpty(times[..|times| - 1], lo, hi);
    }
  }

  lemma AdmittedStep(calls: seq<Call>, policy: string -> Policy, key: string)
    requires calls != []
    ensures var c, before := calls[|calls| - 1], calls[..|calls| - 1];
            Admitted(calls, policy, key)
              == if c.key == key && Check(Lookup(After(before, policy), key), policy(key).limit, policy(key).windowMs, c.now).0 == Allowed
                 then Admitted(before, policy, key) + [c.now] else Admitted(before, policy, key)
  {
  }

  /** Any half-open interval as long as the window lets through at most 2*limit - 1 calls
      of a key: one less than the two full buckets it can touch. */
  lemma {:induction false} WindowBound(calls: seq<Call>, policy: string -> Policy, key: string, t: int)
    requires InOrder(calls) && policy(key).limit >= 1 && policy(key).windowMs >= 1
    ensures Count(Admitted(calls, policy, key), t, t + policy(key).windowMs) <= 2 * policy(key).limit - 1
  {
    if calls != [] {
      var c, before := calls[|calls| - 1], calls[..|calls| - 1];
      WindowBound(before, policy, key, t);
      AdmittedStep(calls, policy, key);
      if Admitted(calls, policy, key) != Admitted(before, policy, key) {
        BucketInvHolds(before, policy, key);
        AdmittedInPast(before, policy, key, c.now);
        WindowBoundStep(Lookup(After(before, policy), key), Admitted(before, policy, key), policy(key), c.now, t);
      }
    }
  }

  lemma WindowBoundStep(bucket: Option<Bucket>, admitted: seq<int>, policy: Policy, now: int, t: int)
    requires BucketInv(bucket, admitted, policy) && policy.limit >= 1 && policy.windowMs >= 1
    requires Below(admitted, now + 1)
    requires Check(bucket, policy.limit, policy.windowMs, now).0 == Allowed
    requires Count(admitted, t, t + policy.windowMs) <= 2 * policy.limit - 1
    ensures Count(admitted + [now], t, t + policy.windowMs) <= 2 * policy.limit - 1
  {
    var w := policy.windowMs;
    CountAppend(admitted, now, t, t + w);
    if t <= now < t + w && bucket.Some? {
      var b := bucket.value;
      var s := b.resetAt - w;
      if b.resetAt <= now {
        CountBeyond(admitted, t, t + w, b.resetAt);
        CountSplits(admitted, s, s + 1, b.resetAt);
        if t <= b.resetAt {
          CountSplits(admitted, s + 1, t, b.resetAt);
        } else {
          CountEmpty(admitted, t, b.resetAt);
        }
      } else {
        CountBeyond(admitted, t, b.resetAt + w, b.resetAt);
        if t + w <= b.resetAt {
          CountSplits(admitted, t, t + w, b.resetAt);
        } else {
          CountBeyond(admitted, t, t + w, b.resetAt);
        }
        CountSplits(admitted, s - w + 1, s, b.resetAt);
        CountSplits(admitted, s - w + 1, t, b.resetAt);
      }
    }
  }

  /** One bucket never lets through more than `limit` calls. */
  lemma BucketBound(calls: seq<Call>, policy: string -> Policy, key: string)
    requires InOrder(calls) && policy(key).limit >= 1 && policy(key).windowMs >= 1
    requires key in After(calls, policy)
    ensures var b := After(calls, policy)[key];
            Count(Admitted(calls, policy, key), b.resetAt - policy(key).windowMs, b.resetAt) == b.count <= policy(key).limit
  {
    BucketInvHolds(calls, policy, key);
  }

  // ----- the bound is reached -----

  lemma TraceGrows(calls: seq<Call>, policy: string -> Policy, key: string, c: Call)
    requires c.key == key
    ensures var (v, b) := Check(Lookup(After(calls, policy), key), policy(key).limit, policy(key).windowMs, c.now);
            && After(calls + [c], policy) == After(calls, policy)[key := b]
            && Admitted(calls + [c], policy, key) == Admitted(calls, policy, key) + if v == Allowed then [c.now] else []
  {
    assert (calls + [c])[..|calls|] == calls;
  }

  function Repeat<T>(x: T, n: nat): seq<T> {
    seq(n, i requires 0 <= i < n => x)
  }

  function Burst(key: string, now: int, n: nat): seq<Call> {
    Repeat(Call(key, now), n)
  }

  lemma OneMore<T>(s: seq<T>, x: T, n: nat)
    requires n > 0
    ensures s + Repeat(x, n) == s + Repeat(x, n - 1) + [x]
  {
  }

  /** `m` more calls at one instant inside a bucket with room are all let through. */
  lemma {:induction false} BurstAdmitted(calls: seq<Call>, policy: string -> Policy, key: string, now: int, m: nat)
    requires key in After(calls, policy)
    requires After(calls, policy)[key].resetAt > now
    requires After(calls, policy)[key].count + m <= policy(key).limit
    ensures Admitted(calls + Burst(key, now, m), policy, key) == Admitted(calls, policy, key) + Repeat(now, m)
    ensures var b := After(calls, policy)[key];
            Lookup(After(calls + Burst(key, now, m), policy), key) == Some(Bucket(b.count + m, b.resetAt))
  {
    if m == 0 {
      assert calls + Burst(key, now, 0) == calls;
      assert Admitted(calls, policy, key) + Repeat(now, 0) == Admitted(calls, policy, key);
    } else {
      var shorter := calls + Burst(key, now, m - 1);
      BurstAdmitted(calls, policy, key, now, m - 1);
      assert calls + Burst(key, now, m) == shorter + [Call(key, now)] by { OneMore(calls, Call(key, now), m); }
      TraceGrows(shorter, policy, key, Call(key, now));
      OneMore(Admitted(calls, policy, key), now, m);
    }
  }

  lemma {:induction false} CountRepeat(times: seq<int>, x: int, m: nat, lo: int, hi: int)
    ensures Count(times + Repeat(x, m), lo, hi) == Count(times, lo, hi) + if lo <= x < hi then m else 0
  {
    if m == 0 {
      assert times + Repeat(x, 0) == times;
    } else {
      CountRepeat(times, x, m - 1, lo, hi);
      OneMore(times, x, m);
      CountAppend(times + Repeat(x, m - 1), x, lo, hi);
    }
  }

  /** One call, the rest of its bucket just before it expires, and a whole bucket right after. */
  function BusyTrace(key: string, n: nat, w: int): seq<Call>
    requires n >= 1
  {
    [Call(key, 0)] + Burst(key, w - 1, n - 1) + [Call(key, w)] + Burst(key, w, n - 1)
  }

  lemma BusyTraceAdmitted(policy: string -> Policy, key: string)
    requires policy(key).limit >= 1 && policy(key).windowMs >= 2
    ensures var n, w := policy(key).limit, policy(key).windowMs;
            Admitted(BusyTrace(key, n, w), policy, key)
              == [0] + Repeat(w - 1, n - 1) + [w] + Repeat(w, n - 1)
  {
    var n, w := policy(key).limit, policy(key).windowMs;
    var opening := [Call(key, 0)];
    assert [] + opening == opening && [] + [0] == [0];
    TraceGrows([], policy, key, Call(key, 0));
    BurstAdmitted(opening, policy, key, w - 1, n - 1);
    var first := opening + Burst(key, w - 1, n - 1);
    TraceGrows(first, policy, key, Call(key, w));
    BurstAdmitted(first + [Call(key, w)], policy, key, w, n - 1);
  }

  lemma BusyCount(n: nat, w: int)
    requires n >= 1 && w >= 2
    ensures Count([0] + Repeat(w - 1, n - 1) + [w] + Repeat(w, n - 1), w - 1, w - 1 + w) == 2 * n - 1
  {
    var lo, hi := w - 1, w - 1 + w;
    CountAppend([], 0, lo, hi);
    assert [] + [0] == [0];
    CountRepeat([0], w - 1, n - 1, lo, hi);
    CountAppend([0] + Repeat(w - 1, n - 1), w, lo, hi);
    CountRepeat([0] + Repeat(w - 1, n - 1) + [w], w, n - 1, lo, hi);
  }

  /** For every limit and every window of at least two ticks the bound is reached. */
  lemma WindowBoundIsReached(policy: string -> Policy, key: string)
    requires policy(key).limit >= 1 && policy(key).windowMs >= 2
    ensures var n, w := policy(key).limit, policy(key).windowMs;
            && InOrder(BusyTrace(key, n, w))
            && Count(Admitted(BusyTrace(key, n, w), policy, key), w - 1, w - 1 + w) == 2 * n - 1
  {
    BusyInOrder(key, policy(key).limit, policy(key).windowMs);
    BusyTraceAdmitted(policy, key);
    BusyCount(policy(key).limit, policy(key).windowMs);
  }

  lemma BusyInOrder(key: string, n: nat, w: int)
    requires n >= 1 && w >= 1
    ensures InOrder(BusyTrace(key, n, w))
  {
    var calls := BusyTrace(key, n, w);
    forall i | 0 <= i < |calls| ensures calls[i].now == if i == 0 then 0 else if i < n then w - 1 else w {
    }
  }

  // ----- keys do not disturb each other -----

  function OnKey(calls: seq<Call>, key: string): seq<Call> {
    if calls == [] then []
    else
      var c := calls[|calls| - 1];
      OnKey(calls[..|calls| - 1], key) + if c.key == key then [c] else []
  }

  /** A key sees exactly what it would see if the other keys were never used. */
  lemma {:induction false} KeysAreIndependent(calls: seq<Call>, policy: string -> Policy, key: string)
    ensures Admitted(calls, policy, key) == Admitted(OnKey(calls, key), policy, key)
    ensures Lookup(After(calls, policy), key) == Lookup(After(OnKey(calls, key), policy), key)
  {
    if calls != [] {
      var c := calls[|calls| - 1];
      var before := calls[..|calls| - 1];
      KeysAreIndependent(before, policy, key);
      if c.key == key {
        assert (OnKey(before, key) + [c])[..|OnKey(before, key)|] == OnKey(before, key);
      } else {
        assert OnKey(calls, key) == OnKey(before, key);
      }
    }
  }
}
