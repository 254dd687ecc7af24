// The rate limiter: a pruned queue of times against counting every admission ever made, and the
// counters of the distributed variant.  Times are reals.

module RateLimiter {
  import opened Base

  /** How many of the times lie in (after, upTo]. */
  function Count(times: seq<real>, after: real, upTo: real): nat {
    if times == [] then 0
    else
      var last := times[|times| - 1];
      Count(times[..|times| - 1], after, upTo) + if after < last <= upTo then 1 else 0
  }

  ghost predicate Sorted(times: seq<real>) {
    forall i, j :: 0 <= i < j < |times| ==> times[i] <= times[j]
  }

  lemma {:induction false} CountAppend(a: seq<real>, b: seq<real>, after: real, upTo: real)
    ensures Count(a + b, after, upTo) == Count(a, after, upTo) + Count(b, after, upTo)
  {
    if b == [] {
      assert a + b == a;
    } else {
      CountAppend(a, b[..|b| - 1], after, upTo);
      assert (a + b)[..|a + b| - 1] == a + b[..|b| - 1];
    }
  }

  lemma {:induction false} CountNone(times: seq<real>, after: real, upTo: real)
    requires forall i :: 0 <= i < |times| ==> !(after < times[i] <= upTo)
    ensures Count(times, after, upTo) == 0
  {
    if times != [] { CountNone(times[..|times| - 1], after, upTo); }
  }

  lemma {:induction false} CountAll(times: seq<real>, after: real, upTo: real)
    requires forall i :: 0 <= i < |times| ==> after < times[i] <= upTo
    ensures Count(times, after, upTo) == |times|
  {
    if times != [] { CountAll(times[..|times| - 1], after, upTo); }
  }

  /** A later start counts no more. */
  lemma {:induction false} CountShrinks(times: seq<real>, after: real, later: real, upTo: real)
    requires after <= later
    ensures Count(times, later, upTo) <= Count(times, after, upTo)
  {
    if times != [] { CountShrinks(times[..|times| - 1], after, later, upTo); }
  }

  // ----- The specification: count every admission -----

  datatype Ask = Ask(now: real, limit: int, consume: bool)

  predicate Allows(admitted: seq<real>, c: Ask, window: int) {
    c.limit <= 0 || Count(admitted, c.now - window as real, c.now) < c.limit
  }

  /** The admissions after one more check; without a positive limit nothing is recorded. */
  function Admit(admitted: seq<real>, c: Ask, window: int): seq<real> {
    if c.limit > 0 && c.consume && Allows(admitted, c, window) then admitted + [c.now] else admitted
  }

  function AdmitAll(checks: seq<Ask>, window: int): seq<real> {
    if checks == [] then [] else Admit(AdmitAll(checks[..|checks| - 1], window), checks[|checks| - 1], window)
  }

  /** Which of the times lie in the window that ends now. */
  ghost function InWindow(times: seq<real>, now: real, window: int): set<nat> {
    set i: nat | i < |times| && now - window as real < times[i] <= now
  }

  lemma {:induction false} CountIsSize(times: seq<real>, now: real, window: int)
    ensures Count(times, now - window as real, now) == |InWindow(times, now, window)|
  {
    if times != [] {
      var front, n := times[..|times| - 1], |times| - 1;
      CountIsSize(front, now, window);
      assert InWindow(times, now, window) == InWindow(front, now, window)
          + if now - window as real < times[n] <= now then {n} else {};
    }
  }

  /** A check with a positive limit is allowed exactly if fewer admissions than the limit lie in the
      window that ends with it, and becomes one if it consumes; without one it is allowed and leaves no
      trace. */
  lemma ChecksExactly(admitted: seq<real>, c: Ask, window: int)
    ensures Allows(admitted, c, window) <==> c.limit <= 0 || |InWindow(admitted, c.now, window)| < c.limit
    ensures Admit(admitted, c, window) ==
            admitted + if 0 < c.limit && |InWindow(admitted, c.now, window)| < c.limit && c.consume then [c.now] else []
  {
    CountIsSize(admitted, c.now, window);
    assert admitted + [] == admitted;
  }

  ghost predicate InTime(checks: seq<Ask>) {
    forall i, j :: 0 <= i < j < |checks| ==> checks[i].now <= checks[j].now
  }

  lemma {:induction false} AdmittedInTime(checks: seq<Ask>, window: int)
    requires InTime(checks)
    ensures Sorted(AdmitAll(checks, window))
    ensures forall i :: 0 <= i < |AdmitAll(checks, window)| ==>
              checks != [] && AdmitAll(checks, window)[i] <= checks[|checks| - 1].now
  {
    if checks != [] { AdmittedInTime(checks[..|checks| - 1], window); }
  }

  /** An admission under the limit fits into every window that ends no earlier. */
  lemma AdmissionFits(before: seq<real>, now: real, window: int, limit: nat, start: real)
    requires forall i :: 0 <= i < |before| ==> before[i] <= now
    requires Count(before, now - window as real, now) < limit && start < now <= start + window as real
    ensures Count(before + [now], start, start + window as real) <= limit
  {
    CountShrinks(before, now - window as real, start, start + window as real);
    CountUpTo(before, now - window as real, start + window as real, now);
    assert (before + [now])[..|before|] == before;
  }

  /** With limits of at most limit, no window of that length, wherever it starts, holds more than
      limit admissions. */
  lemma {:induction false} AtMostLimitPerWindow(checks: seq<Ask>, window: int, limit: nat, start: real)
    requires InTime(checks) && forall i :: 0 <= i < |checks| ==> checks[i].limit <= limit
    ensures Count(AdmitAll(checks, window), start, start + window as real) <= limit
  {
    if checks != [] {
      var front, c := checks[..|checks| - 1], checks[|checks| - 1];
      AtMostLimitPerWindow(front, window, limit, start);
      AdmittedInTime(front, window);
      OneMoreAdmission(AdmitAll(front, window), c, window, limit, start);
    }
  }

  lemma OneMoreAdmission(before: seq<real>, c: Ask, window: int, limit: nat, start: real)
    requires Sorted(before) && (forall i :: 0 <= i < |before| ==> before[i] <= c.now) && c.limit <= limit
    requires Count(before, start, start + window as real) <= limit
    ensures Count(Admit(before, c, window), start, start + window as real) <= limit
  {
    if c.limit > 0 && c.consume && Allows(before, c, window) {
      if start < c.now <= start + window as real {
        AdmissionFits(before, c.now, window, limit, start);
      } else {
        assert (before + [c.now])[..|before|] == before;
      }
    }
  }

  /** Beyond the last time the end of the stretch does not matter. */
  lemma {:induction false} CountUpTo(times: seq<real>, after: real, upTo: real, last: real)
    requires last <= upTo && forall i :: 0 <= i < |times| ==> times[i] <= last
    ensures Count(times, after, upTo) == Count(times, after, last)
  {
    if times != [] { CountUpTo(times[..|times| - 1], after, upTo, last); }
  }

  // ----- The limiter of one process -----

  /** The queue is what is left of all admissions when those of old windows are dropped. */
  ghost predicate KeepsLatest(all: seq<real>, kept: seq<real>, last: Option<real>, window: int) {
    && |kept| <= |all| && all[|all| - |kept|..] == kept && Sorted(all)
    && (last.None? ==> all == [])
    && (last.Some? ==> forall i :: 0 <= i < |all| ==> all[i] <= last.value)
    && (last.Some? ==> forall i :: 0 <= i < |all| - |kept| ==> all[i] <= last.value - window as real)
  }

  lemma KeepsLatestLater(all: seq<real>, kept: seq<real>, last: Option<real>, now: real, window: int)
    requires KeepsLatest(all, kept, last, window) && (last.Some? ==> last.value <= now)
    ensures KeepsLatest(all, kept, Some(now), window)
  {
  }

  /** What pruning a queue that keeps the latest times drops from all admissions is old. */
  lemma PrunedKeepsLatest(all: seq<real>, queue: seq<real>, kept: seq<real>, now: real, window: int)
    requires KeepsLatest(all, queue, Some(now), window)
    requires |kept| <= |queue| && kept == queue[|queue| - |kept|..]
    requires forall i :: 0 <= i < |queue| - |kept| ==> queue[i] <= now - window as real
    ensures KeepsLatest(all, kept, Some(now), window)
  {
    var d := |all| - |queue|;
    forall i | 0 <= i < |all| - |kept| ensures all[i] <= now - window as real {
      if i >= d { assert all[i] == queue[i - d]; }
    }
    assert all[|all| - |kept|..] == queue[|queue| - |kept|..];
  }

  /** After pruning, the length of the queue is the number of admissions in the window. */
  lemma QueueCounts(all: seq<real>, kept: seq<real>, now: real, window: int)
    requires KeepsLatest(all, kept, Some(now), window)
    requires forall i :: 0 <= i < |kept| ==> now - window as real < kept[i]
    ensures Count(all, now - window as real, now) == |kept|
  {
    var dropped := all[..|all| - |kept|];
    assert all == dropped + kept;
    CountAppend(dropped, kept, now - window as real, now);
    CountNone(dropped, now - window as real, now);
    CountAll(kept, now - window as real, now);
  }

  lemma AdmissionKeeps(all: seq<real>, kept: seq<real>, now: real, window: int)
    requires KeepsLatest(all, kept, Some(now), window)
    ensures KeepsLatest(all + [now], kept + [now], Some(now), window)
  {
    var n, later := |all| - |kept|, all + [now];
    assert later[n..] == all[n..] + [now];
    SortedWithLatest(all, now);
    assert forall i :: 0 <= i < |all| ==> later[i] == all[i];
  }

  lemma SortedWithLatest(times: seq<real>, now: real)
    requires Sorted(times) && forall i :: 0 <= i < |times| ==> times[i] <= now
    ensures Sorted(times + [now])
  {
  }

  function Of(m: map<string, seq<real>>, key: string): seq<real> {
    if key in m then m[key] else []
  }

  ghost predicate AllKeepLatest(admitted: map<string, seq<real>>, events: map<string, seq<real>>, last: Option<real>,
        window: int) {
    forall key {:trigger Of(events, key)} :: KeepsLatest(Of(admitted, key), Of(events, key), last, window)
  }

  lemma OneQueueChanges(admitted: map<string, seq<real>>, events: map<string, seq<real>>, last: Option<real>,
        window: int, key: string, all: seq<real>, kept: seq<real>, now: real)
    requires AllKeepLatest(admitted, events, last, window) && (last.Some? ==> last.value <= now)
    requires KeepsLatest(all, kept, Some(now), window)
    ensures AllKeepLatest(admitted[key := all], events[key := kept], Some(now), window)
  {
    forall k {:trigger Of(events[key := kept], k)}
      ensures KeepsLatest(Of(admitted[key := all], k), Of(events[key := kept], k), Some(now), window) {
      if k != key { KeepsLatestLater(Of(admitted, k), Of(events, k), last, now, window); }
    }
  }

  /** Drops the times up to the cutoff from the front. */
  method Prune(times: seq<real>, cutoff: real) returns (kept: seq<real>)
    requires Sorted(times)
    ensures |kept| <= |times| && kept == times[|times| - |kept|..]
    ensures forall i :: 0 <= i < |times| - |kept| ==> times[i] <= cutoff
    ensures forall i :: 0 <= i < |kept| ==> cutoff < kept[i]
  {
    kept := times;
    while kept != [] && kept[0] <= cutoff
      invariant |kept| <= |times| && kept == times[|times| - |kept|..]
      invariant forall i :: 0 <= i < |times| - |kept| ==> times[i] <= cutoff
    {
      kept := kept[1..];
    }
  }

  /** One queue at one check: it answers as counting every admission of the window does. */
  method CheckQueue(queue: seq<real>, c: Ask, window: int, ghost all: seq<real>) returns (allowed: bool,
        kept: seq<real>)
    requires KeepsLatest(all, queue, Some(c.now), window) && c.limit > 0
    ensures allowed == Allows(all, c, window)
    ensures KeepsLatest(Admit(all, c, window), kept, Some(c.now), window)
    ensures |kept| == Count(all, c.now - window as real, c.now) + if allowed && c.consume then 1 else 0
  {
    SuffixSorted(all, queue);
    kept := Prune(queue, c.now - window as real);
    PrunedKeepsLatest(all, queue, kept, c.now, window);
    QueueCounts(all, kept, c.now, window);
    allowed := |kept| < c.limit;
    if allowed && c.consume {
      AdmissionKeeps(all, kept, c.now, window);
      kept := kept + [c.now];
    }
  }

  class LocalLimiter {
    const window: int
    var events: map<string, seq<real>>
    ghost var admitted: map<string, seq<real>>   // every admission ever made
    ghost var last: Option<real>                 // the time of the last check

    constructor (window: int)
      ensures Valid() && this.window == window && admitted == map[] && last == None
    {
      this.window := window;
      events, admitted, last := map[], map[], None;
    }

    ghost predicate Valid()
      reads this
    {
      AllKeepLatest(admitted, events, last, window)
    }

    /** check at a given time: the answer, what is left and the length of the window. */
    method Check(key: string, now: real, limit: int, consume: bool) returns (allowed: bool, remaining: int, reset: int)
      requires Valid() && (last.Some? ==> last.value <= now)
      modifies this
      ensures Valid() && last == if limit > 0 then Some(now) else old(last)
      ensures var all, c := old(Of(admitted, key)), Ask(now, limit, consume);
              && allowed == Allows(all, c, window)
              && admitted == (if limit > 0 then old(admitted)[key := Admit(all, c, window)] else old(admitted))
              && remaining == (if limit <= 0 then 0
                               else Max(0, limit - Count(all, now - window as real, now)
                                           - if allowed && consume then 1 else 0))
      ensures reset == window
    {
      reset := window;
      if limit <= 0 {
        return true, 0, window;
      }
      ghost var all := Of(admitted, key);
      KeepsLatestLater(all, Of(events, key), last, now, window);
      var kept;
      allowed, kept := CheckQueue(Of(events, key), Ask(now, limit, consume), window, all);
      OneQueueChanges(admitted, events, last, window, key, Admit(all, Ask(now, limit, consume), window), kept, now);
      admitted := admitted[key := Admit(all, Ask(now, limit, consume), window)];
      events := events[key := kept];
      last := Some(now);
      remaining := Max(0, limit - |kept|);
    }
  }

  lemma SuffixSorted(all: seq<real>, queue: seq<real>)
    requires Sorted(all) && |queue| <= |all| && queue == all[|all| - |queue|..]
    ensures Sorted(queue)
  {
  }
}
