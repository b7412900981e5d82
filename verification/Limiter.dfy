/** The in-memory rate limiter: fixed windows opened by the first request after the previous one ended. */
module Limiter {
  import opened Models

  datatype RateBucket = RateBucket(count: nat, reset: Time)

  type Buckets = map<string, RateBucket>

  function BucketOf(buckets: Buckets, key: string): RateBucket {
    if key in buckets then buckets[key] else RateBucket(0, ZERO_TIME)
  }

  function AllowRequest(buckets: Buckets, key: string, limit: int, window: int, now: Time): (Buckets, bool) {
    var found := BucketOf(buckets, key);
    var bucket := if found.reset == ZERO_TIME || found.reset <= now then RateBucket(0, now + window) else found;
    var counted := bucket.(count := bucket.count + 1);
    (buckets[key := counted], counted.count <= limit)
  }

  class MemoryRateLimiter {
    var buckets: Buckets

    constructor ()
      ensures buckets == map[]
    {
      buckets := map[];
    }

    method Allow(key: string, limit: int, window: int, now: Time) returns (allowed: bool)
      modifies this
      ensures (buckets, allowed) == AllowRequest(old(buckets), key, limit, window, now)
    {
      var bucket := if key in buckets then buckets[key] else RateBucket(0, ZERO_TIME);
      if bucket.reset == ZERO_TIME || bucket.reset <= now {
        bucket := RateBucket(0, now + window);
      }
      bucket := bucket.(count := bucket.count + 1);
      buckets := buckets[key := bucket];
      return bucket.count <= limit;
    }
  }

  // ------------------------------------------------------------ runs

  datatype Request = Request(key: string, limit: int, window: int, now: Time)

  function After(requests: seq<Request>): Buckets {
    if requests == [] then map[]
    else
      var r := requests[|requests| - 1];
      AllowRequest(After(requests[..|requests| - 1]), r.key, r.limit, r.window, r.now).0
  }

  function Admitted(before: seq<Request>, r: Request): bool {
    AllowRequest(After(before), r.key, r.limit, r.window, r.now).1
  }

  /** One limit and one window per key, and a clock that is set and never runs backwards. */
  ghost predicate Regular(requests: seq<Request>, key: string, limit: int, window: int) {
    && window > 0
    && (forall i :: 0 <= i < |requests| ==> requests[i].now > ZERO_TIME)
    && (forall i, j :: 0 <= i < j < |requests| ==> requests[i].now <= requests[j].now)
    && (forall i :: 0 <= i < |requests| && requests[i].key == key ==>
          requests[i].limit == limit && requests[i].window == window)
  }

  // Reference: windows and ranks told by request times alone.

  /** When the key's current window opened: the first request, then each first one `window` later. */
  function WindowStart(requests: seq<Request>, key: string, window: int): Option<Time> {
    if requests == [] then None
    else
      var start := WindowStart(requests[..|requests| - 1], key, window);
      var r := requests[|requests| - 1];
      if r.key != key then start
      else if start.None? || r.now >= start.value + window then Some(r.now)
      else start
  }

  /** How many of the key's requests were made at or after `from` and before `to`. */
  function CountIn(requests: seq<Request>, key: string, from: Time, to: Time): nat {
    if requests == [] then 0
    else
      var r := requests[|requests| - 1];
      CountIn(requests[..|requests| - 1], key, from, to)
      + if r.key == key && from <= r.now < to then 1 else 0
  }

  /** How many of those were admitted. */
  function AdmittedIn(requests: seq<Request>, key: string, from: Time, to: Time): nat {
    if requests == [] then 0
    else
      var before, r := requests[..|requests| - 1], requests[|requests| - 1];
      AdmittedIn(before, key, from, to)
      + if r.key == key && from <= r.now < to && Admitted(before, r) then 1 else 0
  }

  /** The stored bucket is the reference window: it resets when that ends and counts its requests. */
  ghost predicate BucketFollows(requests: seq<Request>, key: string, window: int) {
    var bucket := BucketOf(After(requests), key);
    match WindowStart(requests, key, window)
    case None =>
      && bucket == RateBucket(0, ZERO_TIME)
      && forall i :: 0 <= i < |requests| ==> requests[i].key != key
    case Some(start) =>
      && start > ZERO_TIME
      && bucket.reset == start + window
      && bucket.count == CountIn(requests, key, start, start + window) >= 1
      && (exists i :: 0 <= i < |requests| && requests[i].now == start)
      && forall i :: 0 <= i < |requests| && requests[i].key == key ==> requests[i].now < start + window
  }

  lemma {:induction false} NoneCounted(requests: seq<Request>, key: string, from: Time, to: Time)
    requires forall i :: 0 <= i < |requests| && requests[i].key == key ==> requests[i].now < from
    ensures CountIn(requests, key, from, to) == 0
  {
    if requests != [] {
      NoneCounted(requests[..|requests| - 1], key, from, to);
    }
  }

  lemma {:induction false} BucketFollowsWindow(requests: seq<Request>, key: string, limit: int, window: int)
    requires Regular(requests, key, limit, window)
    ensures BucketFollows(requests, key, window)
  {
    if requests != [] {
      var before, r := requests[..|requests| - 1], requests[|requests| - 1];
      BucketFollowsWindow(before, key, limit, window);
      assert requests == before + [r];
      var start := WindowStart(before, key, window);
      if r.key == key && (start.None? || r.now >= start.value + window) {
        NoneCounted(before, key, r.now, r.now + window);
        assert requests[|before|].now == r.now;
      } else if start.Some? {
        var i :| 0 <= i < |before| && before[i].now == start.value;
        assert requests[i].now == start.value;
      }
    }
  }

  /** A request is admitted exactly when it is among the first `limit` of its fixed window. */
  lemma AdmittedIffAmongFirst(before: seq<Request>, r: Request, limit: int, window: int)
    requires Regular(before + [r], r.key, limit, window)
    ensures var start := WindowStart(before + [r], r.key, window);
            && start.Some? && start.value <= r.now < start.value + window
            && (Admitted(before, r) <==>
                CountIn(before + [r], r.key, start.value, start.value + window) <= limit)
  {
    var requests := before + [r];
    assert requests[..|requests| - 1] == before && requests[|before|] == r;
    assert Regular(before, r.key, limit, window) by {
      assert forall i :: 0 <= i < |before| ==> requests[i] == before[i];
    }
    BucketFollowsWindow(before, r.key, limit, window);
    BucketFollowsWindow(requests, r.key, limit, window);
  }

  /** Requests for other keys change neither the bucket nor the counts of this one. */
  lemma OtherKeysUnaffected(before: seq<Request>, r: Request, key: string, from: Time, to: Time)
    requires r.key != key
    ensures BucketOf(After(before + [r]), key) == BucketOf(After(before), key)
    ensures AdmittedIn(before + [r], key, from, to) == AdmittedIn(before, key, from, to)
  {
    assert (before + [r])[..|before + [r]| - 1] == before;
  }

  function Max(a: int, b: int): int { if a < b then b else a }
  function Min(a: int, b: int): int { if a < b then a else b }

  /** The most requests an interval as long as the window can admit. */
  function Most(limit: int): int { if limit <= 0 then 0 else 2 * limit - 1 }

  /** What can have been admitted in [t, t + window) so far, by where the current window lies. */
  ghost predicate AdmittedBound(admitted: nat, start: Option<Time>, count: nat, limit: int, window: int, t: Time) {
    var most := Max(limit, 0);
    match start
    case None => admitted == 0
    case Some(s) =>
      if s + window <= t then admitted == 0
      else if s < t then admitted <= Max(Min(count, most) - 1, 0)
      else if s < t + window then admitted <= Max(most - 1, 0) + Min(count, most)
      else admitted <= Max(most - 1, 0) + most
  }

  /** One more request of the key at `now`. */
  lemma RequestKeepsBound(
    admitted: nat, start: Option<Time>, count: nat, limit: int, window: int, t: Time, now: Time)
    requires window > 0 && AdmittedBound(admitted, start, count, limit, window, t)
    requires start.Some? ==> start.value <= now && count >= 1
    ensures var opens := start.None? || now >= start.value + window;
            var counted := if opens then 1 else count + 1;
            AdmittedBound(admitted + (if t <= now < t + window && counted <= limit then 1 else 0),
                          if opens then Some(now) else start, counted, limit, window, t)
  {
  }

  /** The current window opened no later than the next request, and has counted at least its opener. */
  lemma CurrentWindow(before: seq<Request>, r: Request, key: string, limit: int, window: int)
    requires Regular(before + [r], key, limit, window)
    ensures Regular(before, key, limit, window)
    ensures r.key == key ==> r.limit == limit && r.window == window
    ensures var start := WindowStart(before, key, window);
            var bucket := BucketOf(After(before), key);
            if start.None? then bucket == RateBucket(0, ZERO_TIME)
            else start.value <= r.now && bucket.count >= 1 && bucket.reset == start.value + window > ZERO_TIME
  {
    var requests := before + [r];
    assert requests[|before|] == r;
    assert forall i :: 0 <= i < |before| ==> requests[i] == before[i];
    BucketFollowsWindow(before, key, limit, window);
    var start := WindowStart(before, key, window);
    if start.Some? {
      var i :| 0 <= i < |before| && before[i].now == start.value;
      assert requests[i].now <= requests[|before|].now;
    }
  }

  /** What one more request does to the key's window, bucket and admissions. */
  lemma OneMoreRequest(before: seq<Request>, r: Request, key: string, from: Time, to: Time)
    ensures WindowStart(before + [r], key, r.window) ==
            (var start := WindowStart(before, key, r.window);
             if r.key == key && (start.None? || r.now >= start.value + r.window) then Some(r.now) else start)
    ensures r.key != key ==> forall window :: WindowStart(before + [r], key, window) == WindowStart(before, key, window)
    ensures BucketOf(After(before + [r]), key) ==
            if r.key == key then BucketOf(AllowRequest(After(before), key, r.limit, r.window, r.now).0, key)
            else BucketOf(After(before), key)
    ensures AdmittedIn(before + [r], key, from, to)
            == AdmittedIn(before, key, from, to)
               + if r.key == key && from <= r.now < to && Admitted(before, r) then 1 else 0
  {
    assert (before + [r])[..|before + [r]| - 1] == before;
  }

  lemma {:induction false} AdmittedBoundHolds(requests: seq<Request>, key: string, limit: int, window: int, t: Time)
    requires Regular(requests, key, limit, window)
    ensures AdmittedBound(AdmittedIn(requests, key, t, t + window), WindowStart(requests, key, window),
                          BucketOf(After(requests), key).count, limit, window, t)
  {
    if requests != [] {
      var before, r := requests[..|requests| - 1], requests[|requests| - 1];
      assert requests == before + [r];
      CurrentWindow(before, r, key, limit, window);
      AdmittedBoundHolds(before, key, limit, window, t);
      OneMoreRequest(before, r, key, t, t + window);
      hide AdmittedBound, Regular, WindowStart, AdmittedIn, After;
      if r.key == key {
        RequestKeepsBound(AdmittedIn(before, key, t, t + window), WindowStart(before, key, window),
                          BucketOf(After(before), key).count, limit, window, t, r.now);
      }
    }
  }

  /**
   Every half-open interval as long as the window admits at most 2 * limit - 1 requests of a key: the request that
   opened the earlier of two windows meeting the interval lies outside it.
   */
  lemma IntervalBound(requests: seq<Request>, key: string, limit: int, window: int, t: Time)
    requires Regular(requests, key, limit, window)
    ensures AdmittedIn(requests, key, t, t + window) <= Most(limit)
  {
    AdmittedBoundHolds(requests, key, limit, window, t);
  }

  // The bound is reached: one request, limit - 1 just before its window ends, limit just after.

  function Burst(r: Request, n: nat): (b: seq<Request>)
    ensures |b| == n && forall i :: 0 <= i < n ==> b[i] == r
  {
    seq(n, _ => r)
  }

  lemma {:induction false} BurstAdmitted(before: seq<Request>, r: Request, n: nat, t: Time)
    requires t <= r.now < t + r.window
    requires var bucket := BucketOf(After(before), r.key);
             bucket.reset > r.now && bucket.reset != ZERO_TIME && bucket.count + n <= r.limit
    ensures var bucket := BucketOf(After(before), r.key);
            BucketOf(After(before + Burst(r, n)), r.key) == bucket.(count := bucket.count + n)
    ensures AdmittedIn(before + Burst(r, n), r.key, t, t + r.window)
            == AdmittedIn(before, r.key, t, t + r.window) + n
  {
    if n == 0 {
      assert before + Burst(r, 0) == before;
    } else {
      BurstAdmitted(before, r, n - 1, t);
      var all := before + Burst(r, n);
      assert all[..|all| - 1] == before + Burst(r, n - 1);
    }
  }

  /** A request made when no window is open opens one. */
  lemma OpensWindow(before: seq<Request>, r: Request, from: Time, to: Time)
    requires BucketOf(After(before), r.key).reset == ZERO_TIME || BucketOf(After(before), r.key).reset <= r.now
    ensures BucketOf(After(before + [r]), r.key) == RateBucket(1, r.now + r.window)
    ensures AdmittedIn(before + [r], r.key, from, to)
            == AdmittedIn(before, r.key, from, to) + if from <= r.now < to && r.limit >= 1 then 1 else 0
  {
    assert (before + [r])[..|before + [r]| - 1] == before;
  }

  function WorstCase(key: string, limit: nat, window: int): seq<Request>
    requires limit >= 1
  {
    var late := Request(key, limit, window, window);
    var next := Request(key, limit, window, window + 1);
    [] + [Request(key, limit, window, 1)] + Burst(late, limit - 1) + [next] + Burst(next, limit - 1)
  }

  lemma WorstCaseIsRegular(key: string, limit: nat, window: int)
    requires limit >= 1 && window >= 2
    ensures Regular(WorstCase(key, limit, window), key, limit, window)
  {
  }

  lemma BoundIsReached(key: string, limit: nat, window: int)
    requires limit >= 1 && window >= 2
    ensures Regular(WorstCase(key, limit, window), key, limit, window)
    ensures AdmittedIn(WorstCase(key, limit, window), key, window, window + window) == Most(limit)
  {
    WorstCaseIsRegular(key, limit, window);
    var late := Request(key, limit, window, window);
    var next := Request(key, limit, window, window + 1);
    FirstWindowOfWorstCase(key, limit, window);
    var b := [] + [Request(key, limit, window, 1)] + Burst(late, limit - 1);
    OpensWindow(b, next, window, window + window);
    BurstAdmitted(b + [next], next, limit - 1, window);
  }

  lemma FirstWindowOfWorstCase(key: string, limit: nat, window: int)
    requires limit >= 1 && window >= 2
    ensures var b := [] + [Request(key, limit, window, 1)] + Burst(Request(key, limit, window, window), limit - 1);
            && BucketOf(After(b), key) == RateBucket(limit, window + 1)
            && AdmittedIn(b, key, window, window + window) == limit - 1
  {
    OpensWindow([], Request(key, limit, window, 1), window, window + window);
    BurstAdmitted([] + [Request(key, limit, window, 1)], Request(key, limit, window, window), limit - 1, window);
  }
}
