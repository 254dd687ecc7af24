// The distributed rate limiter: one counter per key and bucket of time, kept by a store that
// forgets it when its time to live is over.  One key; the store is up, and its clock is ours.

module DistributedLimiter {
  import opened Base
  import opened RateLimiter

  datatype Counter = Counter(count: int, expiresAt: real)

  type Counters = map<int, Counter>

  /** int(time()) // window */
  function Bucket(now: real, window: int): int
    requires window > 0
  {
    now.Floor / window
  }

  /** GET: 0 if the counter is missing or has expired. */
  function Read(c: Counters, bucket: int, now: real): int {
    if bucket in c && now < c[bucket].expiresAt then c[bucket].count else 0
  }

  /** INCR and EXPIRE in one transaction. */
  function Increment(c: Counters, bucket: int, now: real, window: int): Counters {
    c[bucket := Counter(Read(c, bucket, now) + 1, now + (window + 1) as real)]
  }

  /** The store after consuming checks at these times. */
  function After(times: seq<real>, window: int): Counters
    requires window > 0
  {
    if times == [] then map[]
    else
      var now := times[|times| - 1];
      Increment(After(times[..|times| - 1], window), Bucket(now, window), now, window)
  }

  /** Whether the check at position i is allowed. */
  predicate Allowed(times: seq<real>, i: nat, window: int, limit: int)
    requires window > 0 && i < |times|
  {
    Read(After(times[..i + 1], window), Bucket(times[i], window), times[i]) <= limit
  }

  /** How many of the checks fall into the bucket. */
  function InBucket(times: seq<real>, bucket: int, window: int): nat
    requires window > 0
  {
    if times == [] then 0
    else InBucket(times[..|times| - 1], bucket, window) + if Bucket(times[|times| - 1], window) == bucket then 1 else 0
  }

  lemma BucketBounds(now: real, window: int)
    requires window > 0
    ensures (Bucket(now, window) * window) as real <= now < ((Bucket(now, window) + 1) * window) as real
  {
    var f := now.Floor;
    assert f as real <= now < (f + 1) as real;
    assert Bucket(now, window) * window <= f < (Bucket(now, window) + 1) * window by {
      assert f == Bucket(now, window) * window + f % window;
    }
  }

  lemma BucketMonotone(a: real, b: real, window: int)
    requires window > 0 && a <= b
    ensures Bucket(a, window) <= Bucket(b, window)
  {
    BucketBounds(a, window);
    BucketBounds(b, window);
    TimesMonotone(Bucket(b, window) + 1, Bucket(a, window), window);
  }

  lemma TimesMonotone(p: int, q: int, window: int)
    requires window > 0
    ensures p <= q ==> p * window <= q * window
  {
    if p <= q { assert q * window == p * window + (q - p) * window; }
  }

  /** A counter holds the number of checks of its bucket, and lives until after the bucket has ended. */
  lemma {:induction false} CounterLivesForItsBucket(times: seq<real>, window: int, bucket: int, now: real)
    requires window > 0 && Sorted(times) && (forall i :: 0 <= i < |times| ==> times[i] <= now)
    requires now < ((bucket + 1) * window) as real
    ensures Read(After(times, window), bucket, now) == InBucket(times, bucket, window)
    ensures bucket in After(times, window) ==> ((bucket + 1) * window) as real < After(times, window)[bucket].expiresAt
    ensures bucket !in After(times, window) ==> InBucket(times, bucket, window) == 0
  {
    if times != [] {
      var last := times[|times| - 1];
      CounterLivesForItsBucket(times[..|times| - 1], window, bucket, now);
      CounterLivesForItsBucket(times[..|times| - 1], window, bucket, last);
      BucketBounds(last, window);
      if Bucket(last, window) == bucket {
        assert (bucket + 1) * window == bucket * window + window;
      }
    }
  }

  /** A check is allowed exactly when fewer than limit checks of its bucket came before it. */
  lemma AllowedCounts(times: seq<real>, i: nat, window: int, limit: int)
    requires window > 0 && Sorted(times) && i < |times|
    ensures Allowed(times, i, window, limit) <==> InBucket(times[..i], Bucket(times[i], window), window) < limit
  {
    BucketBounds(times[i], window);
    CounterLivesForItsBucket(times[..i + 1], window, Bucket(times[i], window), times[i]);
    assert times[..i + 1][..i] == times[..i];
  }

  /** Which of the times lie in the stretch [bucket * window, (bucket + 1) * window). */
  ghost function InStretch(times: seq<real>, bucket: int, window: int): set<nat> {
    set i: nat | i < |times| && (bucket * window) as real <= times[i] < ((bucket + 1) * window) as real
  }

  lemma BucketIs(now: real, window: int, bucket: int)
    requires window > 0
    ensures Bucket(now, window) == bucket <==> (bucket * window) as real <= now < ((bucket + 1) * window) as real
  {
    BucketBounds(now, window);
    TimesMonotone(bucket + 1, Bucket(now, window), window);
    TimesMonotone(Bucket(now, window) + 1, bucket, window);
  }

  /** The checks of a bucket are those in its stretch of time. */
  lemma {:induction false} InBucketIsSize(times: seq<real>, bucket: int, window: int)
    requires window > 0
    ensures InBucket(times, bucket, window) == |InStretch(times, bucket, window)|
  {
    if times != [] {
      var front, n := times[..|times| - 1], |times| - 1;
      InBucketIsSize(front, bucket, window);
      BucketIs(times[n], window, bucket);
      assert InStretch(times, bucket, window) == InStretch(front, bucket, window)
          + if Bucket(times[n], window) == bucket then {n} else {};
    }
  }

  /** The shared counter allows a check exactly if fewer checks than the limit, allowed or not, came before
      it in its stretch; the counter lives for one second more than the window. */
  lemma SharedChecksExactly(times: seq<real>, i: nat, window: int, limit: int, bucket: int)
    requires window > 0 && Sorted(times) && i < |times|
    requires (bucket * window) as real <= times[i] < ((bucket + 1) * window) as real
    ensures Allowed(times, i, window, limit) <==> |InStretch(times[..i], bucket, window)| < limit
    ensures var counters := After(times[..i + 1], window);
            bucket in counters && counters[bucket].expiresAt == times[i] + (window + 1) as real
  {
    BucketIs(times[i], window, bucket);
    AllowedCounts(times, i, window, limit);
    InBucketIsSize(times[..i], bucket, window);
    assert times[..i + 1][i] == times[i];
  }

  /** The times of the checks that were allowed. */
  function Admitted(times: seq<real>, window: int, limit: int): seq<real>
    requires window > 0
  {
    if times == [] then []
    else
      Admitted(times[..|times| - 1], window, limit) + if Allowed(times, |times| - 1, window, limit) then
          [times[|times| - 1]] else []
  }

  lemma {:induction false} AdmittedPerBucket(times: seq<real>, window: int, limit: nat, bucket: int)
    requires window > 0 && Sorted(times)
    ensures InBucket(Admitted(times, window, limit), bucket, window) <= Min(limit, InBucket(times, bucket, window))
  {
    if times != [] {
      var front, n := times[..|times| - 1], |times| - 1;
      AdmittedPerBucket(front, window, limit, bucket);
      AllowedCounts(times, n, window, limit);
      var before := Admitted(front, window, limit);
      assert times[..n] == front;
      if Allowed(times, n, window, limit) {
        assert Admitted(times, window, limit) == before + [times[n]];
        assert (before + [times[n]])[..|before|] == before;
        assert InBucket(before + [times[n]], bucket, window) == InBucket(before, bucket, window)
            + if Bucket(times[n], window) == bucket then 1 else 0;
      } else {
        assert Admitted(times, window, limit) == before + [] == before;
      }
    }
  }

  /** A window of the same length meets at most two buckets. */
  lemma {:induction false} WindowMeetsTwoBuckets(times: seq<real>, window: int, start: real)
    requires window > 0
    ensures Count(times, start, start + window as real)
            <= InBucket(times, Bucket(start, window), window) + InBucket(times, Bucket(start, window) + 1, window)
  {
    if times != [] {
      WindowMeetsTwoBuckets(times[..|times| - 1], window, start);
      var last := times[|times| - 1];
      if start < last <= start + window as real {
        BucketMonotone(start, last, window);
        BucketMonotone(last, start + window as real, window);
        NextBucket(start, window);
      }
    }
  }

  lemma NextBucket(start: real, window: int)
    requires window > 0
    ensures Bucket(start + window as real, window) == Bucket(start, window) + 1
  {
    FloorShift(start, window);
    var f := start.Floor;
    assert f == f / window * window + f % window;
    assert f + window == (f / window + 1) * window + f % window;
    QuotientIs(f + window, f / window + 1, f % window, window);
  }

  lemma FloorShift(x: real, k: int)
    ensures (x + k as real).Floor == x.Floor + k
  {
  }

  lemma QuotientIs(x: int, q: int, r: int, window: int)
    requires window > 0 && x == q * window + r && 0 <= r < window
    ensures x / window == q
  {
    assert x == x / window * window + x % window;
    TimesMonotone(q + 1, x / window, window);
    TimesMonotone(x / window + 1, q, window);
    assert (q + 1) * window == q * window + window;
    assert (x / window + 1) * window == x / window * window + window;
  }

  /** While the store stays up, no window of that length holds more than twice the limit. */
  lemma AtMostTwiceTheLimit(times: seq<real>, window: int, limit: nat, start: real)
    requires window > 0 && Sorted(times)
    ensures Count(Admitted(times, window, limit), start, start + window as real) <= 2 * limit
  {
    WindowMeetsTwoBuckets(Admitted(times, window, limit), window, start);
    AdmittedPerBucket(times, window, limit, Bucket(start, window));
    AdmittedPerBucket(times, window, limit, Bucket(start, window) + 1);
  }

  function Copies(time: real, n: nat): (s: seq<real>)
    ensures |s| == n && forall i :: 0 <= i < n ==> s[i] == time
  {
    seq(n, i requires 0 <= i < n => time)
  }

  /** Further checks at one time are all admitted while their bucket has room for them. */
  lemma {:induction false} RoomForCopies(before: seq<real>, time: real, n: nat, window: int, limit: nat)
    requires window > 0 && Sorted(before) && forall i :: 0 <= i < |before| ==> before[i] <= time
    requires InBucket(before, Bucket(time, window), window) + n <= limit
    ensures Sorted(before + Copies(time, n))
    ensures InBucket(before + Copies(time, n), Bucket(time, window), window) ==
            InBucket(before, Bucket(time, window), window) + n
    ensures Admitted(before + Copies(time, n), window, limit) == Admitted(before, window, limit) + Copies(time, n)
  {
    if n == 0 {
      assert before + Copies(time, 0) == before;
    } else {
      RoomForCopies(before, time, n - 1, window, limit);
      OneMoreCopy(before + Copies(time, n - 1), time, window, limit);
      CopiesGrow(before, time, n);
      CopiesGrow(Admitted(before, window, limit), time, n);
    }
  }

  lemma CopiesGrow(before: seq<real>, time: real, n: nat)
    requires n > 0
    ensures before + Copies(time, n) == before + Copies(time, n - 1) + [time]
  {
  }

  lemma OneMoreCopy(times: seq<real>, time: real, window: int, limit: nat)
    requires window > 0 && Sorted(times) && forall i :: 0 <= i < |times| ==> times[i] <= time
    requires InBucket(times, Bucket(time, window), window) < limit
    ensures Sorted(times + [time])
    ensures InBucket(times + [time], Bucket(time, window), window) ==
            InBucket(times, Bucket(time, window), window) + 1
    ensures Admitted(times + [time], window, limit) == Admitted(times, window, limit) + [time]
  {
    assert (times + [time])[..|times|] == times;
    AllowedCounts(times + [time], |times|, window, limit);
  }

  lemma {:induction false} NoneInBucket(times: seq<real>, bucket: int, window: int)
    requires window > 0 && forall i :: 0 <= i < |times| ==> Bucket(times[i], window) != bucket
    ensures InBucket(times, bucket, window) == 0
  {
    if times != [] { NoneInBucket(times[..|times| - 1], bucket, window); }
  }

  /** The end of the bucket, a time before it and after start, and how far both are from start. */
  lemma AroundTheEdge(window: int, start: real) returns (early: real, edge: real)
    requires window > 0
    ensures start < early < edge <= start + window as real
    ensures Bucket(edge, window) == Bucket(start, window) + 1 && Bucket(early, window) == Bucket(start, window)
  {
    var next := (Bucket(start, window) + 1) * window;
    edge := next as real;
    early := (start + edge) / 2.0;
    BucketBounds(start, window);
    assert next == Bucket(start, window) * window + window;
    assert edge.Floor == next;
    QuotientIs(next, Bucket(start, window) + 1, 0, window);
    BucketMonotone(start, early, window);
    BucketBounds(early, window);
    if Bucket(early, window) > Bucket(start, window) {
      TimesMonotone(Bucket(start, window) + 1, Bucket(early, window), window);
    }
  }

  /** That bound is reached for every limit, by checks around the end of a bucket, in windows of any
      length and wherever they start. */
  lemma TwiceTheLimitEverywhere(window: int, limit: nat, start: real) returns (times: seq<real>)
    requires window > 0
    ensures Sorted(times) && Count(Admitted(times, window, limit), start, start + window as real) == 2 * limit
  {
    var early, edge := AroundTheEdge(window, start);
    var first := Copies(early, limit);
    RoomForCopies([], early, limit, window, limit);
    assert [] + first == first;
    NoneInBucket(first, Bucket(edge, window), window);
    RoomForCopies(first, edge, limit, window, limit);
    times := first + Copies(edge, limit);
    assert Admitted(times, window, limit) == times;
    CountAll(times, start, start + window as real);
  }

  ghost predicate StaysWithinLimit(times: seq<real>, window: int, limit: nat, start: real)
    requires window > 0
  {
    Count(Admitted(times, window, limit), start, start + window as real) <= limit
  }

  /** So the shared counter keeps a window within the limit, whatever is asked, only if the limit admits
      nothing: for no positive limit, no length and no start of the window does it promise what the
      limiter of one process does. */
  lemma WithinLimitOnlyForNone(window: int, limit: nat, start: real)
    requires window > 0
    ensures (forall times :: Sorted(times) ==> StaysWithinLimit(times, window, limit, start)) <==> limit == 0
  {
    if limit == 0 {
      forall times | Sorted(times) ensures StaysWithinLimit(times, window, limit, start) {
        AtMostTwiceTheLimit(times, window, limit, start);
      }
    } else {
      var times := TwiceTheLimitEverywhere(window, limit, start);
      assert !StaysWithinLimit(times, window, limit, start);
    }
  }

  /** For example across the end of the first minute. */
  lemma TwiceTheLimitHappens()
    ensures Admitted([59.0, 60.0], 60, 1) == [59.0, 60.0]
    ensures Count([59.0, 60.0], 0.5, 60.5) == 2
  {
    var times := [59.0, 60.0];
    assert times[..1] == [59.0] && [59.0][..0] == [];
    TwoBuckets();
    AllowedCounts([59.0], 0, 60, 1);
    AllowedCounts(times, 1, 60, 1);
    assert InBucket([59.0], 1, 60) == 0;
    assert Admitted([59.0], 60, 1) == [59.0];
    assert Count([59.0], 0.5, 60.5) == 1;
  }

  lemma TwoBuckets()
    ensures Bucket(59.0, 60) == 0 && Bucket(60.0, 60) == 1
  {
    assert 59.0.Floor == 59 && 60.0.Floor == 60;
  }

  /** A check that does not consume reads the counter without adding to it. */
  predicate Peek(times: seq<real>, now: real, window: int, limit: int)
    requires window > 0
  {
    Read(After(times, window), Bucket(now, window), now) <= limit
  }

  lemma SortedFront(times: seq<real>, now: real)
    requires Sorted(times + [now])
    ensures Sorted(times) && forall i :: 0 <= i < |times| ==> times[i] <= now
  {
    forall i | 0 <= i < |times| ensures times[i] <= now {
      assert (times + [now])[i] <= (times + [now])[|times|];
    }
    forall i, j | 0 <= i < j < |times| ensures times[i] <= times[j] {
      assert (times + [now])[i] <= (times + [now])[j];
    }
  }

  lemma PeekCounts(times: seq<real>, now: real, window: int, limit: int)
    requires window > 0 && Sorted(times) && forall i :: 0 <= i < |times| ==> times[i] <= now
    ensures Peek(times, now, window, limit) <==> InBucket(times, Bucket(now, window), window) <= limit
  {
    BucketBounds(now, window);
    CounterLivesForItsBucket(times, window, Bucket(now, window), now);
  }

  lemma NextAllowedCounts(times: seq<real>, now: real, window: int, limit: int)
    requires window > 0 && Sorted(times + [now])
    ensures Allowed(times + [now], |times|, window, limit) <==> InBucket(times, Bucket(now, window), window) < limit
  {
    AllowedCounts(times + [now], |times|, window, limit);
    assert (times + [now])[..|times|] == times;
  }

  /** It tells what a consuming check would be told, except when the limit is exactly used up: then
      it still says yes. */
  lemma PeekAgreesUnlessUsedUp(times: seq<real>, now: real, window: int, limit: int)
    requires window > 0 && Sorted(times + [now])
    ensures Peek(times, now, window, limit) == Allowed(times + [now], |times|, window, limit)
            <==> InBucket(times, Bucket(now, window), window) != limit
  {
    SortedFront(times, now);
    PeekCounts(times, now, window, limit);
    NextAllowedCounts(times, now, window, limit);
  }

  // ----- _check_redis -----

  class SharedCounter {
    const window: int
    var counters: Counters

    constructor (window: int)
      requires window > 0
      ensures this.window == window && counters == map[]
    {
      this.window, counters := window, map[];
    }

    /** The answer, what is left, and the seconds until the bucket ends. */
    method CheckShared(now: real, limit: int, consume: bool) returns (allowed: bool, remaining: int, reset: int)
      requires window > 0
      modifies this
      ensures counters == if consume then Increment(old(counters), Bucket(now, window), now, window) else old(counters)
      ensures var count := Read(counters, Bucket(now, window), now);
              allowed == (count <= limit) && remaining == Max(0, limit - count)
      ensures 1 <= reset <= window && (now.Floor + reset) == (Bucket(now, window) + 1) * window
    {
      reset := window - now.Floor % window;
      var bucket := now.Floor / window;
      var count;
      if consume {
        count := Read(counters, bucket, now) + 1;
        counters := counters[bucket := Counter(count, now + (window + 1) as real)];
      } else {
        count := Read(counters, bucket, now);
      }
      BucketEnd(now.Floor, window);
      return count <= limit, Max(0, limit - count), reset;
    }
  }

  lemma BucketEnd(seconds: int, window: int)
    requires window > 0
    ensures seconds + window - seconds % window == (seconds / window + 1) * window
  {
    assert seconds == seconds / window * window + seconds % window;
  }
}
