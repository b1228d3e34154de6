/** Fixed-window rate limiting (backend/app/access/ratelimit.py).

    Both limiters are compared with the plain history of hits. Times are seconds as reals, windows whole
    numbers of seconds. A window is found by the clock of the replica that takes the request; counters in
    Redis expire by the clock of the Redis server.
  */
module RateLimit {
  import opened Common

  /** A hit: `now` is what the replica's clock says, `server` what that of the Redis server says, if there is one. */
  datatype Request = Request(key: string, limit: int, window: int, now: real, server: real)

  datatype Decision = Decision(allowed: bool, limit: int, remaining: int, resetSeconds: int)

  /** int(now // window) */
  function Bucket(now: real, window: int): int
    requires window >= 1
  {
    (now / window as real).Floor
  }

  /** int(now % window) */
  function SecondsIn(now: real, window: int): int
    requires window >= 1
  {
    (now - WindowStart(Bucket(now, window), window)).Floor
  }

  function Decide(count: int, limit: int, window: int, now: real): Decision
    requires window >= 1
  {
    Decision(count <= limit, limit, Max(0, limit - count), Max(1, window - SecondsIn(now, window)))
  }

  function BucketOf(r: Request): int
    requires r.window >= 1
  {
    Bucket(r.now, r.window)
  }

  predicate Timed(requests: seq<Request>) {
    forall i :: 0 <= i < |requests| ==> requests[i].window >= 1
  }

  predicate ClockNeverBack(requests: seq<Request>) {
    forall i, j :: 0 <= i < j < |requests| ==> requests[i].now <= requests[j].now
  }

  predicate OneWindow(requests: seq<Request>) {
    forall i, j :: 0 <= i < |requests| && 0 <= j < |requests| ==> requests[i].window == requests[j].window
  }

  predicate OneWindowFor(requests: seq<Request>, key: string, window: int) {
    forall i :: 0 <= i < |requests| && requests[i].key == key ==> requests[i].window == window
  }

  function Front<T>(s: seq<T>): seq<T>
    requires s != []
  {
    s[..|s| - 1]
  }

  function Last<T>(s: seq<T>): T
    requires s != []
  {
    s[|s| - 1]
  }

  predicate HitOf(r: Request, key: string, bucket: int)
    requires r.window >= 1
  {
    r.key == key && BucketOf(r) == bucket
  }

  /** The reference: all past hits of a key in a window. */
  function Hits(requests: seq<Request>, key: string, bucket: int): nat
    requires Timed(requests)
  {
    if requests == [] then 0
    else Hits(Front(requests), key, bucket) + if HitOf(Last(requests), key, bucket) then 1 else 0
  }

  // ---------------------------------------------------------------- windows

  function WindowStart(bucket: int, window: int): real {
    bucket as real * window as real
  }

  lemma Scale(x: real, y: real, w: real)
    requires w > 0.0
    ensures x <= y ==> x * w <= y * w
    ensures x < y ==> x * w < y * w
  {
    if x <= y { assert (y - x) * w >= 0.0; }
    if x < y { assert (y - x) * w > 0.0; }
  }

  lemma WindowsFollow(b: int, c: int, window: int)
    requires window >= 1
    ensures WindowStart(b + 1, window) == WindowStart(b, window) + window as real
    ensures b <= c ==> WindowStart(b, window) <= WindowStart(c, window)
  {
    Scale(b as real, c as real, window as real);
  }

  lemma BucketBounds(now: real, window: int)
    requires window >= 1
    ensures var b := Bucket(now, window); WindowStart(b, window) <= now < WindowStart(b + 1, window)
  {
    var w := window as real;
    var q := now / w;
    var low, high := q.Floor as real, (q.Floor + 1) as real;
    assert q * w == now;
    assert low <= q < high;
    Scale(low, q, w);
    Scale(q, high, w);
    assert high * w == WindowStart(q.Floor + 1, window);
  }

  lemma BucketIs(now: real, window: int, b: int)
    requires window >= 1 && WindowStart(b, window) <= now < WindowStart(b + 1, window)
    ensures Bucket(now, window) == b
  {
    var c := Bucket(now, window);
    BucketBounds(now, window);
    WindowsFollow(c + 1, b, window);
    WindowsFollow(b + 1, c, window);
  }

  lemma BucketsFollowClock(s: real, t: real, window: int)
    requires window >= 1 && s <= t
    ensures Bucket(s, window) <= Bucket(t, window)
  {
    BucketBounds(s, window);
    BucketBounds(t, window);
    WindowsFollow(Bucket(t, window) + 1, Bucket(s, window), window);
  }

  /** After the announced wait the next window has begun and the one after it has not. */
  lemma ResetReachesNextWindow(count: int, limit: int, window: int, now: real)
    requires window >= 1
    ensures var reset := Decide(count, limit, window, now).resetSeconds;
            1 <= reset <= window && Bucket(now + reset as real, window) == Bucket(now, window) + 1
  {
    var b := Bucket(now, window);
    var start := WindowStart(b, window);
    BucketBounds(now, window);
    WindowsFollow(b, b, window);
    WindowsFollow(b + 1, b, window);
    ResetBounds(now - start, window);
    BucketIs(now + (window - (now - start).Floor) as real, window, b + 1);
  }

  lemma ResetBounds(into: real, window: int)
    requires 0.0 <= into < window as real
    ensures 1 <= window - into.Floor <= window
    ensures window as real <= into + (window - into.Floor) as real < window as real + 1.0
  {}

  // ---------------------------------------------------------------- the in-memory limiter

  type Counts = map<(string, int), nat>

  function CountIn(counts: Counts, key: string, bucket: int): nat {
    if (key, bucket) in counts then counts[(key, bucket)] else 0
  }

  /** Counters of earlier bucket numbers, of whatever key, are dropped first. */
  function Pruned(counts: Counts, bucket: int): Counts {
    map k | k in counts && k.1 >= bucket :: counts[k]
  }

  function MemoryHit(counts: Counts, key: string, bucket: int): Counts {
    Pruned(counts, bucket)[(key, bucket) := CountIn(Pruned(counts, bucket), key, bucket) + 1]
  }

  function MemoryRun(requests: seq<Request>): Counts
    requires Timed(requests)
  {
    if requests == [] then map[]
    else MemoryHit(MemoryRun(Front(requests)), Last(requests).key, BucketOf(Last(requests)))
  }

  /** The hits since the last one, of any key, with a greater bucket number. */
  function Surviving(requests: seq<Request>, key: string, bucket: int): nat
    requires Timed(requests)
  {
    if requests == [] || BucketOf(Last(requests)) > bucket then 0
    else Surviving(Front(requests), key, bucket) + if HitOf(Last(requests), key, bucket) then 1 else 0
  }

  /** What the pruning limiter counts, for any clock and any mixture of windows. */
  lemma {:induction false} MemoryCountsSurvivingHits(requests: seq<Request>, key: string, bucket: int)
    requires Timed(requests)
    ensures CountIn(MemoryRun(requests), key, bucket) == Surviving(requests, key, bucket)
    decreases |requests|
  {
    if requests == [] {
    } else {
      MemoryCountsSurvivingHits(Front(requests), key, bucket);
    }
  }

  /** The counter is the plain history exactly when no hit of the window is followed by a greater bucket number. */
  lemma {:induction false} SurvivingIsHistoryExactlyWhen(requests: seq<Request>, key: string, bucket: int)
    requires Timed(requests)
    ensures Surviving(requests, key, bucket) <= Hits(requests, key, bucket)
    ensures Surviving(requests, key, bucket) == Hits(requests, key, bucket) <==>
            forall i, j :: 0 <= i < j < |requests| && HitOf(requests[i], key, bucket) ==>
              BucketOf(requests[j]) <= bucket
    decreases |requests|
  {
    if requests == [] {
    } else {
      var front, n := Front(requests), |requests| - 1;
      SurvivingIsHistoryExactlyWhen(front, key, bucket);
      NoHitNoCount(front, key, bucket);
      if BucketOf(Last(requests)) > bucket {
        if i :| 0 <= i < n && HitOf(requests[i], key, bucket) {
          assert front[i] == requests[i];
        }
      }
      assert forall i :: 0 <= i < n ==> front[i] == requests[i];
    }
  }

  lemma {:induction false} NoHitNoCount(requests: seq<Request>, key: string, bucket: int)
    requires Timed(requests)
    ensures Hits(requests, key, bucket) == 0 <==>
            forall i :: 0 <= i < |requests| ==> !HitOf(requests[i], key, bucket)
    decreases |requests|
  {
    if requests == [] {
    } else {
      NoHitNoCount(Front(requests), key, bucket);
      assert forall i :: 0 <= i < |requests| - 1 ==> Front(requests)[i] == requests[i];
    }
  }

  /** With one window length and a clock that never goes back, the pruning limiter decides by the plain history. */
  lemma MemoryDecidesByHistory(requests: seq<Request>)
    requires requests != [] && Timed(requests) && OneWindow(requests) && ClockNeverBack(requests)
    ensures var r := Last(requests);
            CountIn(MemoryRun(requests), r.key, BucketOf(r)) == Hits(requests, r.key, BucketOf(r))
  {
    var r := Last(requests);
    MemoryCountsSurvivingHits(requests, r.key, BucketOf(r));
    SurvivingIsHistoryExactlyWhen(requests, r.key, BucketOf(r));
    forall j | 0 <= j < |requests|
      ensures BucketOf(requests[j]) <= BucketOf(r)
    {
      assert requests[j].window == requests[|requests| - 1].window;
      BucketsFollowClock(requests[j].now, r.now, r.window);
    }
  }

  /** One window length is needed: a key with a short window makes the limiter forget a key with a long one. */
  lemma MixedWindowsForget()
    ensures var a, b := Request("a", 1, 60, 1000.0, 0.0), Request("b", 1, 1, 1000.0, 0.0);
            && Hits([a, b, a], "a", 16) == 2
            && CountIn(MemoryRun([a, b, a]), "a", 16) == 1
  {
    var a, b := Request("a", 1, 60, 1000.0, 0.0), Request("b", 1, 1, 1000.0, 0.0);
    BucketIs(1000.0, 60, 16);
    BucketIs(1000.0, 1, 1000);
    var ab, aba := [a, b], [a, b, a];
    assert Front(aba) == ab && Front(ab) == [a] && Front([a]) == [];
    assert Hits([a], "a", 16) == 1 && Hits(ab, "a", 16) == 1;
    assert Surviving(ab, "a", 16) == 0;
    MemoryCountsSurvivingHits(aba, "a", 16);
  }

  class InMemoryRateLimiter {
    var counts: Counts

    constructor ()
      ensures counts == map[]
    {
      counts := map[];
    }

    method Hit(r: Request) returns (decision: Decision)
      requires r.window >= 1
      modifies this
      ensures counts == MemoryHit(old(counts), r.key, BucketOf(r))
      ensures decision == Decide(CountIn(counts, r.key, BucketOf(r)), r.limit, r.window, r.now)
    {
      var bucket := (r.key, Bucket(r.now, r.window));
      counts := map k | k in counts && k.1 >= bucket.1 :: counts[k];
      var seen := if bucket in counts then counts[bucket] else 0;
      counts := counts[bucket := seen + 1];
      decision := Decide(counts[bucket], r.limit, r.window, r.now);
    }
  }

  // ---------------------------------------------------------------- the Redis limiter

  /** A counter and the instant of the server's clock from which it no longer exists. */
  datatype Counter = Counter(count: nat, expires: real)

  type Store = map<(string, int), Counter>

  function StoredCount(store: Store, key: string, bucket: int): nat {
    if (key, bucket) in store then store[(key, bucket)].count else 0
  }

  function LiveCount(store: Store, key: string, bucket: int, server: real): nat {
    if (key, bucket) in store && server < store[(key, bucket)].expires then store[(key, bucket)].count else 0
  }

  /** INCR and EXPIRE window + 1 of the key's counter, in one pipeline. */
  function RedisHit(store: Store, r: Request): Store
    requires r.window >= 1
  {
    store[(r.key, BucketOf(r)) := Counter(LiveCount(store, r.key, BucketOf(r), r.server) + 1, Expiry(r))]
  }

  function Expiry(r: Request): real {
    r.server + (r.window + 1) as real
  }

  function RedisRun(requests: seq<Request>): Store
    requires Timed(requests)
  {
    if requests == [] then map[] else RedisHit(RedisRun(Front(requests)), Last(requests))
  }

  /** Hit `j` is the next one of the window after hit `i`. */
  predicate NextHit(requests: seq<Request>, key: string, bucket: int, i: int, j: int)
    requires Timed(requests) && 0 <= i < j < |requests|
  {
    && HitOf(requests[i], key, bucket) && HitOf(requests[j], key, bucket)
    && forall k :: i < k < j ==> !HitOf(requests[k], key, bucket)
  }

  /** No hit of the window comes window + 1 seconds or more, on the server's clock, after the one before it. */
  predicate NeverLapses(requests: seq<Request>, key: string, bucket: int)
    requires Timed(requests)
  {
    forall i, j :: 0 <= i < j < |requests| && NextHit(requests, key, bucket, i, j) ==>
      requests[j].server < Expiry(requests[i])
  }

  /** The index of the last hit of the window; -1 if there is none. */
  function LastHit(requests: seq<Request>, key: string, bucket: int): (i: int)
    requires Timed(requests)
    ensures -1 <= i < |requests| && (i >= 0 ==> HitOf(requests[i], key, bucket))
    ensures forall k :: i < k < |requests| ==> !HitOf(requests[k], key, bucket)
  {
    if requests == [] then -1
    else if HitOf(Last(requests), key, bucket) then |requests| - 1
    else LastHit(Front(requests), key, bucket)
  }

  /** Adding a hit adds one pair of consecutive hits, if there was a hit before. */
  lemma LapsesOfFront(requests: seq<Request>, key: string, bucket: int)
    requires Timed(requests) && requests != []
    ensures var i := LastHit(Front(requests), key, bucket);
            NeverLapses(requests, key, bucket) <==>
            && NeverLapses(Front(requests), key, bucket)
            && (HitOf(Last(requests), key, bucket) && i >= 0 ==> Last(requests).server < Expiry(requests[i]))
  {
    var front, n := Front(requests), |requests| - 1;
    var i := LastHit(front, key, bucket);
    assert forall k :: 0 <= k < n ==> front[k] == requests[k];
    forall h, j | 0 <= h < j < n
      ensures NextHit(requests, key, bucket, h, j) <==> NextHit(front, key, bucket, h, j)
    {
      assert forall k :: h < k < j ==> front[k] == requests[k];
    }
    if HitOf(requests[n], key, bucket) && i >= 0 {
      assert NextHit(requests, key, bucket, i, n);
      forall h | 0 <= h < n && NextHit(requests, key, bucket, h, n)
        ensures h == i
      {}
    } else if HitOf(requests[n], key, bucket) {
      forall h | 0 <= h < n
        ensures !NextHit(requests, key, bucket, h, n)
      {
        assert !HitOf(front[h], key, bucket);
      }
    }
  }

  /** What a counter is: it expires a window and a second after the last hit, and it is the history of its window
      exactly when it never lapsed between two hits. */
  ghost predicate CounterIs(requests: seq<Request>, key: string, bucket: int)
    requires Timed(requests)
  {
    var store, hits, i := RedisRun(requests), Hits(requests, key, bucket), LastHit(requests, key, bucket);
    && ((key, bucket) in store <==> i >= 0) && (hits == 0 <==> i < 0)
    && (i >= 0 ==> store[(key, bucket)].expires == Expiry(requests[i]) && store[(key, bucket)].count >= 1)
    && StoredCount(store, key, bucket) <= hits
    && (StoredCount(store, key, bucket) == hits <==> NeverLapses(requests, key, bucket))
  }

  lemma {:induction false} CounterMeaning(requests: seq<Request>, key: string, bucket: int)
    requires Timed(requests)
    ensures CounterIs(requests, key, bucket)
    decreases |requests|
  {
    if requests == [] {
    } else {
      CounterMeaning(Front(requests), key, bucket);
      LapsesOfFront(requests, key, bucket);
    }
  }

  /** The count by which the Redis limiter decides is the plain history if and only if no two consecutive hits of
      that key and window are window + 1 or more server seconds apart: for any clocks and any mixture of windows. */
  lemma CounterIsHistoryExactlyWhen(requests: seq<Request>)
    requires requests != [] && Timed(requests)
    ensures var key, bucket := Last(requests).key, BucketOf(Last(requests));
            && 1 <= Counted(Redis, requests) <= Hits(requests, key, bucket)
            && (Counted(Redis, requests) == Hits(requests, key, bucket) <==> NeverLapses(requests, key, bucket))
  {
    CounterMeaning(requests, Last(requests).key, BucketOf(Last(requests)));
  }

  /** The replicas' clocks differ from the server's, after a fixed offset, by at most `skew`. */
  predicate ClocksWithin(requests: seq<Request>, offset: real, skew: real) {
    forall i :: 0 <= i < |requests| ==> offset - skew <= requests[i].server - requests[i].now <= offset + skew
  }

  /** With one window length for the key, clocks within half a second of each other never let a counter lapse. */
  lemma HalfASecondIsHarmless(requests: seq<Request>, key: string, window: int, bucket: int, offset: real, skew: real)
    requires Timed(requests) && window >= 1 && OneWindowFor(requests, key, window)
    requires ClocksWithin(requests, offset, skew) && skew <= 0.5
    ensures NeverLapses(requests, key, bucket)
  {
    forall i, j | 0 <= i < j < |requests| && NextHit(requests, key, bucket, i, j)
      ensures requests[j].server < Expiry(requests[i])
    {
      BucketBounds(requests[i].now, window);
      BucketBounds(requests[j].now, window);
      WindowsFollow(bucket, bucket, window);
    }
  }

  /** A counter outlives its window, on the server's clock, by a second less the skew. */
  lemma CountersOutliveWindow(requests: seq<Request>, key: string, window: int, bucket: int, offset: real, skew: real)
    requires Timed(requests) && window >= 1 && OneWindowFor(requests, key, window)
    requires ClocksWithin(requests, offset, skew) && (key, bucket) in RedisRun(requests)
    ensures WindowStart(bucket + 1, window) + offset + 1.0 - skew <= RedisRun(requests)[(key, bucket)].expires
  {
    CounterMeaning(requests, key, bucket);
    BucketBounds(requests[LastHit(requests, key, bucket)].now, window);
    WindowsFollow(bucket, bucket, window);
  }

  /** So with one window length per key, and one clock or clocks that close, the Redis limiter decides by the
      history. */
  lemma RedisDecidesByHistory(requests: seq<Request>, window: int, offset: real)
    requires requests != [] && Timed(requests) && window >= 1
    requires OneWindowFor(requests, Last(requests).key, window) && ClocksWithin(requests, offset, 0.5)
    ensures Counted(Redis, requests) == Hits(requests, Last(requests).key, BucketOf(Last(requests)))
  {
    HalfASecondIsHarmless(requests, Last(requests).key, window, BucketOf(Last(requests)), offset, 0.5);
    CounterIsHistoryExactlyWhen(requests);
  }

  /** Every limiter run with one window length and clocks within `skew` decides by the plain history. */
  ghost predicate SkewIsHarmless(skew: real) {
    forall requests, offset, window |
      && requests != [] && Timed(requests) && window >= 1
      && OneWindowFor(requests, Last(requests).key, window) && ClocksWithin(requests, offset, skew) ::
      Counted(Redis, requests) == Hits(requests, Last(requests).key, BucketOf(Last(requests)))
  }

  /** The second that outlives the window leaves half a second of skew either way, and no more. */
  lemma SkewIsHarmlessExactlyWhen(skew: real)
    requires 0.0 <= skew
    ensures SkewIsHarmless(skew) <==> skew <= 0.5
  {
    if skew <= 0.5 {
      forall requests, offset, window |
        && requests != [] && Timed(requests) && window >= 1
        && OneWindowFor(requests, Last(requests).key, window) && ClocksWithin(requests, offset, skew)
        ensures Counted(Redis, requests) == Hits(requests, Last(requests).key, BucketOf(Last(requests)))
      {
        HalfASecondIsHarmless(requests, Last(requests).key, window, BucketOf(Last(requests)), offset, skew);
        CounterIsHistoryExactlyWhen(requests);
      }
    } else {
      var late := if skew <= 1.0 then skew else 1.0;
      var a := Request("a", 1, 1, 0.0, -late);
      var b := Request("a", 1, 1, 2.0 - 2.0 * late, 2.0 - late);
      BucketIs(a.now, 1, 0);
      BucketIs(b.now, 1, 0);
      TwoHitsApart(a, b, "a", 0);
      assert ClocksWithin([a, b], 0.0, skew) && OneWindowFor([a, b], "a", 1);
    }
  }

  lemma TwoHitsApart(a: Request, b: Request, key: string, bucket: int)
    requires a.window >= 1 && b.window >= 1 && HitOf(a, key, bucket) && HitOf(b, key, bucket)
    requires Expiry(a) <= b.server
    ensures Hits([a, b], key, bucket) == 2 && Counted(Redis, [a, b]) == 1
  {
    assert Front([a, b]) == [a] && Front([a]) == [];
    assert Hits([a], key, bucket) == 1;
    assert RedisRun([a]) == RedisHit(map[], a);
  }

  /** A replica whose clock is half a minute behind: two hits of one minute, and the counter starts again. */
  lemma SlowReplicaForgets()
    ensures var a, b := Request("a", 1, 60, 1.0, 1.0), Request("a", 1, 60, 50.0, 80.0);
            && Hits([a, b], "a", 0) == 2 && Counted(Redis, [a, b]) == 1
            && Decide(Counted(Redis, [a, b]), 1, 60, 50.0).allowed
  {
    BucketIs(1.0, 60, 0);
    BucketIs(50.0, 60, 0);
    TwoHitsApart(Request("a", 1, 60, 1.0, 1.0), Request("a", 1, 60, 50.0, 80.0), "a", 0);
  }

  /** A clock that steps back within its minute does the same. */
  lemma SteppedBackClockForgets()
    ensures var a, b := Request("a", 1, 60, 59.0, 1000.0), Request("a", 1, 60, 50.0, 1070.0);
            Hits([a, b], "a", 0) == 2 && Counted(Redis, [a, b]) == 1
  {
    BucketIs(59.0, 60, 0);
    BucketIs(50.0, 60, 0);
    TwoHitsApart(Request("a", 1, 60, 59.0, 1000.0), Request("a", 1, 60, 50.0, 1070.0), "a", 0);
  }

  class RedisRateLimiter {
    var store: Store

    constructor ()
      ensures store == map[]
    {
      store := map[];
    }

    method Hit(r: Request) returns (decision: Decision)
      requires r.window >= 1
      modifies this
      ensures store == RedisHit(old(store), r)
      ensures decision == Decide(store[(r.key, BucketOf(r))].count, r.limit, r.window, r.now)
    {
      var redisKey := (r.key, Bucket(r.now, r.window));
      var count := 1;
      if redisKey in store && r.server < store[redisKey].expires {
        count := store[redisKey].count + 1;
      }
      store := store[redisKey := Counter(count, r.server + (r.window + 1) as real)];
      decision := Decide(count, r.limit, r.window, r.now);
    }
  }

  // ---------------------------------------------------------------- how many hits are let through

  datatype Limiter = InMemory | Redis

  /** The count by which a limiter decides the last of the requests. */
  function Counted(limiter: Limiter, requests: seq<Request>): nat
    requires requests != [] && Timed(requests)
  {
    var r := Last(requests);
    match limiter
    case InMemory => CountIn(MemoryRun(requests), r.key, BucketOf(r))
    case Redis => StoredCount(RedisRun(requests), r.key, BucketOf(r))
  }

  predicate LetThrough(limiter: Limiter, requests: seq<Request>)
    requires requests != [] && Timed(requests)
  {
    var r := Last(requests);
    Decide(Counted(limiter, requests), r.limit, r.window, r.now).allowed
  }

  /** The hits of a window that the limiter lets through. */
  function Allowed(limiter: Limiter, requests: seq<Request>, key: string, bucket: int): nat
    requires Timed(requests)
  {
    if requests == [] then 0
    else
      Allowed(limiter, Front(requests), key, bucket) +
      if HitOf(Last(requests), key, bucket) && LetThrough(limiter, requests) then 1 else 0
  }

  /** The hits of a key that the limiter lets through from `start` and before `start + length`. */
  function AllowedBetween(limiter: Limiter, requests: seq<Request>, key: string, start: real, length: int): nat
    requires Timed(requests)
  {
    if requests == [] then 0
    else
      var r := Last(requests);
      AllowedBetween(limiter, Front(requests), key, start, length) +
      if r.key == key && start <= r.now < start + length as real && LetThrough(limiter, requests) then 1 else 0
  }

  /** What each limiter needs to decide by the history: the in-memory one a single window length and a clock that never
      goes back, the Redis one that none of the key's counters lapses between two hits. */
  ghost predicate Reliable(limiter: Limiter, requests: seq<Request>, key: string)
    requires Timed(requests)
  {
    match limiter
    case InMemory => OneWindow(requests) && ClockNeverBack(requests)
    case Redis => forall bucket :: NeverLapses(requests, key, bucket)
  }

  lemma ReliableBefore(limiter: Limiter, requests: seq<Request>, key: string)
    requires requests != [] && Timed(requests) && Reliable(limiter, requests, key)
    ensures Reliable(limiter, Front(requests), key)
  {
    if limiter.Redis? {
      forall bucket
        ensures NeverLapses(Front(requests), key, bucket)
      {
        LapsesOfFront(requests, key, bucket);
      }
    }
  }

  lemma ReliableDecidesByHistory(limiter: Limiter, requests: seq<Request>, key: string)
    requires requests != [] && Timed(requests) && Last(requests).key == key && Reliable(limiter, requests, key)
    ensures Counted(limiter, requests) == Hits(requests, key, BucketOf(Last(requests)))
  {
    match limiter
    case InMemory => MemoryDecidesByHistory(requests);
    case Redis => CounterIsHistoryExactlyWhen(requests);
  }

  lemma {:induction false} AllowedIsCapped(limiter: Limiter, requests: seq<Request>, key: string, bucket: int,
                                           limit: nat)
    requires Timed(requests) && Reliable(limiter, requests, key)
    requires forall i :: 0 <= i < |requests| && requests[i].key == key ==> requests[i].limit == limit
    ensures Allowed(limiter, requests, key, bucket) ==
            if Hits(requests, key, bucket) <= limit then Hits(requests, key, bucket) else limit
    decreases |requests|
  {
    if requests == [] {
    } else {
      ReliableBefore(limiter, requests, key);
      AllowedIsCapped(limiter, Front(requests), key, bucket, limit);
      if HitOf(Last(requests), key, bucket) {
        ReliableDecidesByHistory(limiter, requests, key);
      }
    }
  }

  lemma IntervalMeetsTwoWindows(start: real, window: int, now: real)
    requires window >= 1 && start <= now < start + window as real
    ensures Bucket(start, window) <= Bucket(now, window) <= Bucket(start, window) + 1
  {
    var b := Bucket(start, window);
    BucketsFollowClock(start, now, window);
    BucketBounds(start, window);
    BucketBounds(now, window);
    WindowsFollow(b + 1, b, window);
    WindowsFollow(b + 2, Bucket(now, window), window);
  }

  lemma {:induction false} AllowedInTwoWindows(limiter: Limiter, requests: seq<Request>, key: string, window: int,
                                               start: real)
    requires Timed(requests) && window >= 1 && OneWindowFor(requests, key, window)
    ensures AllowedBetween(limiter, requests, key, start, window) <=
            Allowed(limiter, requests, key, Bucket(start, window))
              + Allowed(limiter, requests, key, Bucket(start, window) + 1)
    decreases |requests|
  {
    if requests == [] {
    } else {
      var r := Last(requests);
      AllowedInTwoWindows(limiter, Front(requests), key, window, start);
      if r.key == key && start <= r.now < start + window as real {
        IntervalMeetsTwoWindows(start, window, r.now);
      }
    }
  }

  /** Either limiter, where it is reliable, lets at most `limit` hits of a key through in a window, exactly as many as
      there are up to that, and at most twice `limit` in any interval of one window length. */
  lemma AtMostTwiceTheLimit(limiter: Limiter, requests: seq<Request>, key: string, limit: nat, window: int, bucket: int,
                            start: real)
    requires Timed(requests) && window >= 1 && OneWindowFor(requests, key, window) && Reliable(limiter, requests, key)
    requires forall i :: 0 <= i < |requests| && requests[i].key == key ==> requests[i].limit == limit
    ensures Allowed(limiter, requests, key, bucket) ==
            if Hits(requests, key, bucket) <= limit then Hits(requests, key, bucket) else limit
    ensures AllowedBetween(limiter, requests, key, start, window) <= 2 * limit
  {
    AllowedIsCapped(limiter, requests, key, bucket, limit);
    AllowedInTwoWindows(limiter, requests, key, window, start);
    AllowedIsCapped(limiter, requests, key, Bucket(start, window), limit);
    AllowedIsCapped(limiter, requests, key, Bucket(start, window) + 1, limit);
  }
}
