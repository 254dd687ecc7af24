// Reading the events of a run over server-sent events: _runtime_event_stream and run_events.  The log
// is the list of committed events; each poll of the stream reads one snapshot of it.

module EventStream {
  import opened Base
  import opened RuntimeEvents

  /** What one poll sees: the log when it reads the events, and whether the run is missing or over
      when it reads the status. */
  datatype Poll = Poll(log: seq<Event>, isOver: bool)

  ghost predicate HasIds(log: seq<Event>) {
    && (forall i :: 0 <= i < |log| ==> log[i].id != "")
    && (forall i, j :: 0 <= i < j < |log| ==> log[i].id != log[j].id)
  }

  /** The log of a run with one attempt: numbered 1, 2, 3, ..., with distinct identifiers. */
  ghost predicate IsLog(log: seq<Event>) {
    HasIds(log) && forall i :: 0 <= i < |log| ==> log[i].number == i + 1
  }

  /** order_by(sequence); events of different attempts with one number stay in the order of the log. */
  function Insert(e: Event, events: seq<Event>): seq<Event> {
    if events == [] || e.number <= events[0].number then [e] + events else [events[0]] + Insert(e, events[1..])
  }

  /** The events after a number, in the order of their numbers. */
  function Later(log: seq<Event>, sequence: int): seq<Event> {
    if log == [] then []
    else if log[0].number > sequence then Insert(log[0], Later(log[1..], sequence))
    else Later(log[1..], sequence)
  }

  ghost predicate IsSorted(events: seq<Event>) {
    forall i, j :: 0 <= i < j < |events| ==> events[i].number <= events[j].number
  }

  ghost predicate AllAfter(events: seq<Event>, sequence: int) {
    forall i :: 0 <= i < |events| ==> events[i].number > sequence
  }

  /** The number tells the first m events from the rest. */
  ghost predicate Splits(log: seq<Event>, m: nat, sequence: int) {
    && m <= |log| && AllAfter(log[m..], sequence)
    && forall i :: 0 <= i < m ==> log[i].number <= sequence
  }

  /** Besides, the numbers of the rest grow. */
  ghost predicate Ascends(log: seq<Event>, m: nat, sequence: int) {
    Splits(log, m, sequence) && forall i, j :: m <= i < j < |log| ==> log[i].number < log[j].number
  }

  lemma {:induction false} InsertKeeps(e: Event, events: seq<Event>, sequence: int)
    requires IsSorted(events) && AllAfter(events, sequence) && e.number > sequence
    ensures var r := Insert(e, events);
            |r| == |events| + 1 && IsSorted(r) && AllAfter(r, sequence)
                && (r[0] == e || (events != [] && r[0] == events[0]))
  {
    if events != [] && e.number > events[0].number {
      assert AllAfter(events[1..], sequence) && IsSorted(events[1..]);
      InsertKeeps(e, events[1..], sequence);
    }
  }

  lemma {:induction false} LaterIsSorted(log: seq<Event>, sequence: int)
    ensures IsSorted(Later(log, sequence)) && AllAfter(Later(log, sequence), sequence)
    ensures |Later(log, sequence)| <= |log|
    ensures |Later(log, sequence)| == |log| <==> AllAfter(log, sequence)
  {
    if log != [] {
      LaterIsSorted(log[1..], sequence);
      assert AllAfter(log, sequence) <==> log[0].number > sequence && AllAfter(log[1..], sequence);
      if log[0].number > sequence { InsertKeeps(log[0], Later(log[1..], sequence), sequence); }
    }
  }

  /** What the rest of the log has is what the query answers, as far as the number tells it from the first m. */
  lemma {:induction false} LaterIsRest(log: seq<Event>, m: nat, sequence: int)
    requires Splits(log, m, sequence) && IsSorted(log[m..])
    ensures Later(log, sequence) == log[m..]
  {
    if m > 0 {
      assert log[1..][m - 1..] == log[m..];
      LaterIsRest(log[1..], m - 1, sequence);
    } else if log != [] {
      assert log[0..] == log && log[1..][0..] == log[1..];
      assert log[0].number > sequence;
      LaterIsRest(log[1..], 0, sequence);
    }
  }

  lemma {:induction false} LaterLength(log: seq<Event>, m: nat, sequence: int)
    requires m <= |log|
    ensures |Later(log, sequence)| == |Later(log[..m], sequence)| + |Later(log[m..], sequence)|
  {
    if m == 0 {
      assert log[0..] == log;
    } else {
      assert log[1..][m - 1..] == log[m..] && log[..m][1..] == log[1..][..m - 1];
      LaterLength(log[1..], m - 1, sequence);
      if log[0].number > sequence {
        InsertLength(log[0], Later(log[1..], sequence));
        InsertLength(log[0], Later(log[..m][1..], sequence));
      }
    }
  }

  lemma {:induction false} InsertLength(e: Event, events: seq<Event>)
    ensures |Insert(e, events)| == |events| + 1
  {
    if events != [] { InsertLength(e, events[1..]); }
  }

  lemma {:induction false} SomeLater(log: seq<Event>, i: nat, sequence: int)
    requires i < |log| && log[i].number > sequence
    ensures Later(log, sequence) != []
  {
    if i == 0 {
      InsertLength(log[0], Later(log[1..], sequence));
    } else {
      SomeLater(log[1..], i - 1, sequence);
      if log[0].number > sequence { InsertLength(log[0], Later(log[1..], sequence)); }
    }
  }

  /** Exactly when one query answers what follows the first m events. */
  lemma LaterIsRestExactly(log: seq<Event>, m: nat, sequence: int)
    requires m <= |log|
    ensures Later(log, sequence) == log[m..] <==> Splits(log, m, sequence) && IsSorted(log[m..])
  {
    if Later(log, sequence) == log[m..] {
      LaterIsSorted(log, sequence);
      LaterLength(log, m, sequence);
      LaterIsSorted(log[m..], sequence);
      forall i | 0 <= i < m ensures log[i].number <= sequence {
        if log[i].number > sequence { SomeLater(log[..m], i, sequence); }
      }
    } else if Splits(log, m, sequence) && IsSorted(log[m..]) {
      LaterIsRest(log, m, sequence);
    }
  }

  /** Later snapshots extend earlier ones, and all are part of the final log. */
  ghost predicate ArePollsOf(polls: seq<Poll>, log: seq<Event>) {
    && (forall i :: 0 <= i < |polls| ==> polls[i].log <= log)
    && (forall i, j :: 0 <= i < j < |polls| ==> |polls[i].log| <= |polls[j].log|)
  }

  /** What the client has after a batch: the number of its last event. */
  function After(events: seq<Event>, sequence: int): int {
    if events == [] then sequence else events[|events| - 1].number
  }

  /** The events that the stream delivers over its polls; it ends when a poll finds the run over. */
  function Streamed(polls: seq<Poll>, start: int): seq<Event> {
    if polls == [] then []
    else
      var events := Later(polls[0].log, start);
      events + if polls[0].isOver then [] else Streamed(polls[1..], After(events, start))
  }

  /** What the stream still delivers from poll made on. */
  lemma StreamStep(before: seq<Event>, polls: seq<Poll>, made: nat, sequence: int)
    requires made < |polls|
    ensures var events := Later(polls[made].log, sequence);
            before + Streamed(polls[made..], sequence) ==
            (before + events) + if polls[made].isOver then [] else Streamed(polls[made + 1..], After(events, sequence))
  {
    assert polls[made..][1..] == polls[made + 1..];
  }

  method Stream(polls: seq<Poll>, start: int) returns (delivered: seq<Event>)
    ensures delivered == Streamed(polls, start)
  {
    delivered := [];
    var sequence, made := start, 0;
    while made < |polls|
      invariant made <= |polls|
      invariant delivered + Streamed(polls[made..], sequence) == Streamed(polls, start)
    {
      StreamStep(delivered, polls, made, sequence);
      var poll := polls[made];
      var events := Later(poll.log, sequence);
      var sent, last := Deliver(events, sequence);
      delivered, sequence, made := delivered + sent, last, made + 1;
      if poll.isOver { return; }
    }
  }

  /** Yields the events one by one; the stream's position follows. */
  method Deliver(events: seq<Event>, sequence: int) returns (sent: seq<Event>, last: int)
    ensures sent == events && last == After(events, sequence)
  {
    sent, last := [], sequence;
    for i := 0 to |events|
      invariant sent == events[..i] && last == After(events[..i], sequence)
    {
      last := events[i].number;
      sent := sent + [events[i]];
    }
  }

  /** The number of events in the last snapshot that the stream reads. */
  function Seen(polls: seq<Poll>): nat {
    if polls == [] then 0
    else if polls[0].isOver then |polls[0].log|
    else Max(|polls[0].log|, Seen(polls[1..]))
  }

  lemma PrefixSplits(log: seq<Event>, m: nat, n: nat, sequence: int)
    requires Ascends(log, m, sequence) && m <= n <= |log|
    ensures Splits(log[..n], m, sequence) && IsSorted(log[..n][m..]) && log[..n][m..] == log[m..n]
  {
    assert forall i :: 0 <= i < |log[m..]| ==> log[m..][i] == log[m + i];
    assert forall i :: 0 <= i < |log[m..n]| ==> log[m..n][i] == log[m + i] == log[m..][i];
    assert log[..n][m..] == log[m..n];
  }

  lemma AscendsFrom(log: seq<Event>, m: nat, here: nat, sequence: int)
    requires Ascends(log, m, sequence) && m < here <= |log|
    ensures Ascends(log, here, log[here - 1].number)
  {
    assert forall i :: 0 <= i < |log[m..]| ==> log[m..][i] == log[m + i];
    assert forall i :: 0 <= i < |log[here..]| ==> log[here..][i] == log[here + i];
    assert log[here - 1] == log[m..][here - 1 - m];
  }

  /** One poll of the first n events of the log, where the stream stands after the first m. */
  lemma PollIsSlice(log: seq<Event>, m: nat, n: nat, sequence: int)
    requires Ascends(log, m, sequence) && n <= |log|
    ensures var events, here := Later(log[..n], sequence), Max(m, n);
            events == log[m..here] && Ascends(log, here, After(events, sequence))
  {
    if m < n {
      PrefixSplits(log, m, n, sequence);
      LaterIsRest(log[..n], m, sequence);
      AscendsFrom(log, m, n, sequence);
      assert log[m..n][n - m - 1] == log[n - 1];
    } else {
      assert log[..n][n..] == log[m..m] == [];
      LaterIsRest(log[..n], n, sequence);
    }
  }

  lemma JoinSlices<T>(s: seq<T>, a: nat, b: nat, c: nat)
    requires a <= b <= c <= |s|
    ensures s[a..b] + s[b..c] == s[a..c]
  {
  }

  lemma PollsGoOn(polls: seq<Poll>, log: seq<Event>)
    requires polls != [] && ArePollsOf(polls, log)
    ensures ArePollsOf(polls[1..], log)
    ensures polls[0].log == log[..|polls[0].log|]
  {
  }

  /** A stream that stands after the first m events, with numbers that grow from there, delivers each
      later event exactly once, in order, up to the end of the last snapshot it reads. */
  lemma {:induction false} StreamIsSlice(polls: seq<Poll>, start: int, log: seq<Event>, m: nat) returns (end: nat)
    requires Ascends(log, m, start) && ArePollsOf(polls, log)
    ensures m <= end <= |log| && end == Max(m, Seen(polls)) && Streamed(polls, start) == log[m..end]
    decreases |polls|
  {
    if polls == [] {
      end := m;
    } else {
      PollsGoOn(polls, log);
      PollIsSlice(log, m, |polls[0].log|, start);
      var events, here := Later(polls[0].log, start), Max(m, |polls[0].log|);
      if polls[0].isOver {
        end := here;
      } else {
        end := StreamIsSlice(polls[1..], After(events, start), log, here);
        JoinSlices(log, m, here, end);
      }
    }
  }

  // ----- When a stream is whole -----

  /** However the log grows between the polls: the stream that starts after the number delivers what
      follows the first m events, once one of its polls sees the whole log. */
  ghost predicate AlwaysWhole(log: seq<Event>, m: nat, start: int)
    requires m <= |log|
  {
    forall polls :: ArePollsOf(polls, log) && Seen(polls) == |log| ==> Streamed(polls, start) == log[m..]
  }

  /** That is so exactly if the number tells the first m events from the rest and the numbers of the
      rest grow. */
  lemma WholeExactlyIfAscending(log: seq<Event>, m: nat, start: int)
    requires m <= |log|
    ensures AlwaysWhole(log, m, start) <==> Ascends(log, m, start)
  {
    if Ascends(log, m, start) {
      forall polls | ArePollsOf(polls, log) && Seen(polls) == |log| ensures Streamed(polls, start) == log[m..] {
        var end := StreamIsSlice(polls, start, log, m);
      }
    } else if AlwaysWhole(log, m, start) {
      WholeInOnePoll(log, m, start);
      forall k | m <= k < |log| - 1 ensures log[k].number < log[k + 1].number { WholeInTwoPolls(log, m, start, k); }
      GrowsByOne(log, m);
    }
  }

  lemma GrowsByOne(log: seq<Event>, m: nat)
    requires m <= |log| && IsSorted(log[m..]) && forall k :: m <= k < |log| - 1 ==> log[k].number < log[k + 1].number
    ensures forall i, j :: m <= i < j < |log| ==> log[i].number < log[j].number
  {
    forall i, j | m <= i < j < |log| ensures log[i].number < log[j].number {
      assert log[m..][i + 1 - m] == log[i + 1] && log[m..][j - m] == log[j];
    }
  }

  lemma WholeInOnePoll(log: seq<Event>, m: nat, start: int)
    requires m <= |log| && AlwaysWhole(log, m, start)
    ensures Splits(log, m, start) && IsSorted(log[m..])
  {
    var polls := [Poll(log, true)];
    assert Streamed(polls, start) == Later(log, start);
    LaterIsRestExactly(log, m, start);
  }

  lemma TwoPolls(log: seq<Event>, k: nat, start: int) returns (polls: seq<Poll>)
    requires k <= |log|
    ensures ArePollsOf(polls, log) && Seen(polls) == |log|
    ensures var first := Later(log[..k], start);
            Streamed(polls, start) == first + Later(log, After(first, start))
  {
    polls := [Poll(log[..k], false), Poll(log, true)];
    assert polls[1..] == [Poll(log, true)];
    assert Seen(polls[1..]) == |log|;
    var at := After(Later(log[..k], start), start);
    assert Streamed(polls[1..], at) == Later(log, at);
  }

  /** The rest of the log up to event k, as a poll answers it that sees no more. */
  lemma FirstOfTwo(log: seq<Event>, m: nat, start: int, k: nat)
    requires m <= k < |log| && Splits(log, m, start) && IsSorted(log[m..])
    ensures Later(log[..k + 1], start) == log[m..k + 1] && After(log[m..k + 1], start) == log[k].number
  {
    assert log[..k + 1][m..] == log[m..k + 1];
    assert forall i :: 0 <= i < k + 1 - m ==> log[m..k + 1][i] == log[m..][i];
    LaterIsRest(log[..k + 1], m, start);
  }

  /** A poll that ends between two events with the same number loses the second. */
  lemma WholeInTwoPolls(log: seq<Event>, m: nat, start: int, k: nat)
    requires m <= k < |log| - 1 && AlwaysWhole(log, m, start) && Splits(log, m, start) && IsSorted(log[m..])
    ensures log[k].number < log[k + 1].number
  {
    var polls := TwoPolls(log, k + 1, start);
    FirstOfTwo(log, m, start, k);
    var second := Later(log, log[k].number);
    assert log[m..k + 1] + second == log[m..];
    SecondPart(log, m, k + 1, second);
    LaterIsSorted(log, log[k].number);
  }

  lemma SecondPart(log: seq<Event>, m: nat, k: nat, second: seq<Event>)
    requires m <= k < |log| && log[m..k] + second == log[m..]
    ensures second != [] && second[0] == log[k]
  {
    assert (log[m..k] + second)[k - m] == log[k];
  }

  // ----- Cut and resumed -----

  /** The first event with the identifier. */
  function Find(log: seq<Event>, id: string): Option<Event> {
    if log == [] then None else if log[0].id == id then Some(log[0]) else Find(log[1..], id)
  }

  /** min(sequence) over the events that have not expired. */
  function Oldest(log: seq<Event>, now: int): Option<int> {
    if log == [] then None
    else
      var rest := Oldest(log[1..], now);
      if log[0].expiresAt <= now then rest
      else if rest.None? then Some(log[0].number)
      else Some(Min(log[0].number, rest.value))
  }

  /** The number after which a connection starts.  parsed is the header read as an integer. */
  function ResumeAfter(log: seq<Event>, lastEventId: string, parsed: Option<int>, now: int): Result<int, string> {
    if lastEventId == "" then Ok(0)
    else if Find(log, lastEventId).None? && parsed.None? then Err("RESUME_WINDOW_EXPIRED")
    else
      var sequence := if Find(log, lastEventId).Some? then Find(log, lastEventId).value.number else parsed.value;
      if Oldest(log, now).Some? && sequence < Oldest(log, now).value - 1 then Err("RESUME_WINDOW_EXPIRED")
      else Ok(sequence)
  }

  /** The number that a request resumes after: that of the first event with the identifier or, if there
      is none, the header read as an integer. */
  ghost predicate IsPosition(log: seq<Event>, lastEventId: string, parsed: Option<int>, n: int) {
    || (exists k :: 0 <= k < |log| && log[k].id == lastEventId && log[k].number == n
                    && forall j :: 0 <= j < k ==> log[j].id != lastEventId)
    || (parsed == Some(n) && forall k :: 0 <= k < |log| ==> log[k].id != lastEventId)
  }

  /** Some event has not expired, and between n and every one of those a number is missing. */
  ghost predicate IsBehindWindow(log: seq<Event>, n: int, now: int) {
    && (exists k :: 0 <= k < |log| && log[k].expiresAt > now)
    && forall k :: 0 <= k < |log| && log[k].expiresAt > now ==> n + 1 < log[k].number
  }

  lemma {:induction false} FindIsFirst(log: seq<Event>, id: string) returns (k: nat)
    ensures k <= |log| && forall j :: 0 <= j < k ==> log[j].id != id
    ensures Find(log, id) == if k < |log| then Some(log[k]) else None
    ensures k < |log| ==> log[k].id == id
  {
    if log == [] || log[0].id == id {
      k := 0;
    } else {
      k := FindIsFirst(log[1..], id);
      forall j | 0 <= j < k + 1 ensures log[j].id != id {
        if j > 0 { assert log[1..][j - 1] == log[j]; }
      }
      k := k + 1;
    }
  }

  lemma {:induction false} OldestIsLeast(log: seq<Event>, now: int)
    ensures Oldest(log, now).None? <==> forall k :: 0 <= k < |log| ==> log[k].expiresAt <= now
    ensures Oldest(log, now).Some? ==> exists k :: 0 <= k < |log| && log[k].expiresAt > now
                                                   && log[k].number == Oldest(log, now).value
    ensures Oldest(log, now).Some? ==> forall k :: 0 <= k < |log| && log[k].expiresAt > now ==>
                                                     Oldest(log, now).value <= log[k].number
  {
    if log != [] {
      OldestIsLeast(log[1..], now);
      assert log == [log[0]] + log[1..];
    }
  }

  /** Where a request starts, for any log, identifier and header. */
  lemma ResumesExactly(log: seq<Event>, lastEventId: string, parsed: Option<int>, now: int, n: int)
    ensures var r := ResumeAfter(log, lastEventId, parsed, now);
            && (lastEventId == "" ==> r == Ok(0))
            && (lastEventId != "" ==> (r == Ok(n) <==>
                    IsPosition(log, lastEventId, parsed, n) && !IsBehindWindow(log, n, now)))
            && (r.Err? ==> r.error == "RESUME_WINDOW_EXPIRED")
  {
    var k := FindIsFirst(log, lastEventId);
    OldestIsLeast(log, now);
    if k == |log| {
      assert IsPosition(log, lastEventId, parsed, n) <==> parsed == Some(n);
    } else {
      assert IsPosition(log, lastEventId, parsed, n) <==> log[k].number == n;
    }
  }

  /** One connection: the log when it is made, what its stream polls, and the number of events that
      reach the client before the connection is cut. */
  datatype Connection = Connection(log: seq<Event>, now: int, polls: seq<Poll>, delivered: nat)

  function LastEventId(got: seq<Event>): string {
    if got == [] then "" else got[|got| - 1].id
  }

  /** What a client has that was given got and then makes the connections, each with the identifier
      of the last event it has. */
  function Received(connections: seq<Connection>, got: seq<Event>): seq<Event> {
    if connections == [] then got
    else
      var c := connections[0];
      match ResumeAfter(c.log, LastEventId(got), None, c.now)
      case Err(_) => Received(connections[1..], got)
      case Ok(start) => Received(connections[1..], got + Cut(Streamed(c.polls, start), c.delivered))
  }

  function Cut(events: seq<Event>, n: nat): seq<Event> {
    events[..Min(n, |events|)]
  }

  /** Connections of one client, in time: none starts from a log that lacks an event seen before. */
  ghost predicate InOrder(connections: seq<Connection>, log: seq<Event>, seen: nat)
  {
    connections != [] ==>
      var c := connections[0];
      && seen <= |c.log| && c.log <= log && ArePollsOf(c.polls, log)
      && InOrder(connections[1..], log, Max(|c.log|, Seen(c.polls)))
  }

  lemma {:induction false} FindsItself(log: seq<Event>, n: nat, k: nat)
    requires HasIds(log) && k <= n < |log|
    ensures Find(log[k..], log[n].id) == Some(log[n])
    decreases n - k
  {
    if k < n {
      assert log[k..][1..] == log[k + 1..];
      FindsItself(log, n, k + 1);
    }
  }

  /** The number that stands for the first m events when a client resumes after them. */
  function Mark(log: seq<Event>, m: nat): int
    requires m <= |log|
  {
    if m == 0 then 0 else log[m - 1].number
  }

  /** A client that has the first m events is given the number of the last of them. */
  lemma ResumesWhereItWas(log: seq<Event>, m: nat, now: int)
    requires HasIds(log) && m <= |log|
    ensures var r := ResumeAfter(log, LastEventId(log[..m]), None, now);
            r.Err? || r == Ok(Mark(log, m))
  {
    if m > 0 {
      FindsItself(log, m - 1, 0);
      assert log[0..] == log;
    }
  }

  lemma {:induction false} OldestIsFirst(log: seq<Event>, k: nat, now: int)
    requires IsLog(log) && k <= |log|
    ensures Oldest(log[k..], now).None? <==> forall i :: k <= i < |log| ==> log[i].expiresAt <= now
    ensures Oldest(log[k..], now).Some? ==>
              exists i :: k <= i < |log| && Oldest(log[k..], now).value == i + 1 && log[i].expiresAt > now
                          && forall j :: k <= j < i ==> log[j].expiresAt <= now
    decreases |log| - k
  {
    if k < |log| {
      assert log[k..][1..] == log[k + 1..];
      OldestIsFirst(log, k + 1, now);
    }
  }

  predicate AllExpired(events: seq<Event>, now: int) {
    forall i :: 0 <= i < |events| ==> events[i].expiresAt <= now
  }

  /** The client is refused exactly when the first event that has not expired comes after the one
      it needs next. */
  lemma RefusedExactlyOutsideWindow(log: seq<Event>, m: nat, now: int)
    requires IsLog(log) && 0 < m <= |log|
    ensures ResumeAfter(log, LastEventId(log[..m]), None, now).Err? <==>
              m < |log| && AllExpired(log[..m + 1], now) && !AllExpired(log, now)
  {
    FindsItself(log, m - 1, 0);
    assert log[0..] == log;
    OldestIsFirst(log, 0, now);
    if Oldest(log, now).Some? {
      var i :| 0 <= i < |log| && Oldest(log, now).value == i + 1 && log[i].expiresAt > now
          && forall j :: 0 <= j < i ==> log[j].expiresAt <= now;
      if i <= m && m < |log| { assert log[..m + 1][i] == log[i]; }
    }
  }

  /** In the log of a run with one attempt every number stands for its position. */
  lemma LogAscends(log: seq<Event>, m: nat)
    requires IsLog(log) && m <= |log|
    ensures Mark(log, m) == m && Ascends(log, m, m)
  {
    assert forall i :: 0 <= i < |log[m..]| ==> log[m..][i] == log[m + i];
  }

  lemma AscendsOn(log: seq<Event>, m: nat, next: nat)
    requires m <= next <= |log| && Ascends(log, m, Mark(log, m))
    ensures Ascends(log, next, Mark(log, next))
  {
    if m < next { AscendsFrom(log, m, next, Mark(log, m)); }
  }

  /** Whatever connections a client makes and wherever each is cut, once numbers stand for positions in the
      log it has the log from the start, every event once and in order, and never less than before. */
  lemma {:induction false} ResumedStreamIsWhole(connections: seq<Connection>, log: seq<Event>,
        m: nat) returns (end: nat)
    requires HasIds(log) && m <= |log| && Ascends(log, m, Mark(log, m)) && InOrder(connections, log, m)
    ensures m <= end <= |log| && Received(connections, log[..m]) == log[..end]
    decreases |connections|
  {
    if connections == [] {
      end := m;
    } else {
      var c := connections[0];
      ResumesInSnapshot(c, log, m);
      var next := m;
      if ResumeAfter(c.log, LastEventId(log[..m]), None, c.now).Ok? {
        next := ConnectionAdds(c, log, m);
        AscendsOn(log, m, next);
      }
      LaterConnections(connections[1..], log, Max(|c.log|, Seen(c.polls)), next);
      end := ResumedStreamIsWhole(connections[1..], log, next);
    }
  }

  lemma ResumesInSnapshot(c: Connection, log: seq<Event>, m: nat)
    requires HasIds(log) && m <= |c.log| && c.log <= log
    ensures var r := ResumeAfter(c.log, LastEventId(log[..m]), None, c.now);
            r.Err? || r == Ok(Mark(log, m))
  {
    ResumesWhereItWas(c.log, m, c.now);
    assert c.log[..m] == log[..m];
  }

  lemma ConnectionAdds(c: Connection, log: seq<Event>, m: nat) returns (next: nat)
    requires m <= |c.log| && c.log <= log && ArePollsOf(c.polls, log) && Ascends(log, m, Mark(log, m))
    ensures m <= next <= Max(|c.log|, Seen(c.polls)) && next <= |log|
    ensures log[..m] + Cut(Streamed(c.polls, Mark(log, m)), c.delivered) == log[..next]
    ensures Seen(c.polls) == |log| && c.delivered >= |log| ==> next == |log|
  {
    var end := StreamIsSlice(c.polls, Mark(log, m), log, m);
    next := m + Min(c.delivered, end - m);
    CutSlice(log, m, end, c.delivered);
    JoinSlices(log, 0, m, next);
    assert log[0..m] == log[..m] && log[0..next] == log[..next];
  }

  lemma CutSlice(log: seq<Event>, m: nat, end: nat, n: nat)
    requires m <= end <= |log|
    ensures Cut(log[m..end], n) == log[m..m + Min(n, end - m)]
  {
    assert log[m..end][..Min(n, end - m)] == log[m..m + Min(n, end - m)];
  }

  lemma LaterConnections(connections: seq<Connection>, log: seq<Event>, seen: nat, less: nat)
    requires InOrder(connections, log, seen) && less <= seen
    ensures InOrder(connections, log, less)
  {
  }

  // ----- When the last connection completes the log -----

  /** A connection of a client with the first m events that is accepted, reads the whole log before its
      stream ends, and is not cut. */
  ghost predicate IsFinal(c: Connection, log: seq<Event>, m: nat)
    requires m <= |log|
  {
    && InOrder([c], log, m) && Seen(c.polls) == |log| && c.delivered >= |log|
    && ResumeAfter(c.log, LastEventId(log[..m]), None, c.now).Ok?
  }

  ghost predicate AlwaysCompletes(log: seq<Event>, m: nat)
    requires m <= |log|
  {
    forall c :: IsFinal(c, log, m) ==> Received([c], log[..m]) == log
  }

  /** Such connections complete the log, whatever they poll and when, exactly if the number of the last event
      that the client has tells what it has from the rest, and the numbers of the rest grow. */
  lemma CompletesExactlyIfAscending(log: seq<Event>, m: nat)
    requires HasIds(log) && m <= |log|
    ensures AlwaysCompletes(log, m) <==> Ascends(log, m, Mark(log, m))
  {
    if Ascends(log, m, Mark(log, m)) {
      forall c | IsFinal(c, log, m) ensures Received([c], log[..m]) == log { LastConnectionCompletes(c, log, m); }
    } else if AlwaysCompletes(log, m) {
      forall polls | ArePollsOf(polls, log) && Seen(polls) == |log|
        ensures Streamed(polls, Mark(log, m)) == log[m..]
      {
        StreamOfFinal(log, m, polls);
      }
      WholeExactlyIfAscending(log, m, Mark(log, m));
    }
  }

  lemma LastConnectionCompletes(c: Connection, log: seq<Event>, m: nat)
    requires HasIds(log) && m <= |log| && Ascends(log, m, Mark(log, m)) && IsFinal(c, log, m)
    ensures Received([c], log[..m]) == log
  {
    ResumesInSnapshot(c, log, m);
    var next := ConnectionAdds(c, log, m);
  }

  /** When all events have expired every client is accepted, so any polls are those of some connection. */
  lemma StreamOfFinal(log: seq<Event>, m: nat, polls: seq<Poll>)
    requires HasIds(log) && m <= |log| && AlwaysCompletes(log, m) && ArePollsOf(polls, log) && Seen(polls) == |log|
    ensures Streamed(polls, Mark(log, m)) == log[m..]
  {
    var start, now := Mark(log, m), LastExpiry(log);
    var c := Connection(log, now, polls, |log| + |Streamed(polls, start)|);
    NoneLeft(log, now);
    if m > 0 {
      FindsItself(log, m - 1, 0);
      assert log[0..] == log;
    }
    assert ResumeAfter(log, LastEventId(log[..m]), None, now) == Ok(start);
    assert IsFinal(c, log, m);
    assert Received([c], log[..m]) == log[..m] + Cut(Streamed(polls, start), c.delivered);
    assert (log[..m] + Streamed(polls, start))[m..] == Streamed(polls, start);
  }

  function LastExpiry(log: seq<Event>): int {
    if log == [] then 0 else Max(log[0].expiresAt, LastExpiry(log[1..]))
  }

  lemma {:induction false} NoneLeft(log: seq<Event>, now: int)
    requires now >= LastExpiry(log)
    ensures Oldest(log, now).None?
  {
    if log != [] { NoneLeft(log[1..], now); }
  }

  // ----- Several attempts -----

  /** Two attempts, of n events and of the rest: each is numbered 1, 2, 3, ... */
  ghost predicate HasTwoAttempts(log: seq<Event>, n: nat) {
    && 1 <= n < |log|
    && forall i :: 0 <= i < |log| ==> log[i].number == if i < n then i + 1 else i - n + 1
  }

  /** After a second attempt a client gets the rest for certain exactly if it has as many events of the
      second attempt as the first one had. */
  lemma CompletesTwoAttemptsExactly(log: seq<Event>, n: nat, m: nat)
    requires HasIds(log) && HasTwoAttempts(log, n) && m <= |log|
    ensures AlwaysCompletes(log, m) <==> m >= 2 * n
  {
    CompletesExactlyIfAscending(log, m);
    assert forall i :: 0 <= i < |log[m..]| ==> log[m..][i] == log[m + i];
    if m == 0 {
      assert log[n - 1].number >= log[n].number;
    } else if m <= n {
      assert log[m..][n - m] == log[n] && log[n].number <= Mark(log, m);
    } else if m < 2 * n {
      assert log[n - 1].number > Mark(log, m);
    }
  }

  /** A client that resumes after event 2 of the first attempt never gets event 1 of the second. */
  lemma SecondAttemptIsSkipped(one: Event, two: Event, again: Event)
    requires one == Event(1, 1, "a", 0) && two == Event(1, 2, "b", 0) && again == Event(2, 1, "c", 0)
    ensures var log := [one, two, again];
            && ResumeAfter(log, "b", None, 0) == Ok(2) && Streamed([Poll(log, true)], 2) == []
  {
    var log := [one, two, again];
    assert log[1..] == [two, again] && [two, again][1..] == [again] && [again][1..] == [];
    assert Find(log, "b") == Find([two, again], "b") == Some(two);
    assert Oldest([again], 0) == Oldest([], 0) && Oldest([two, again], 0) == Oldest([again], 0)
        && Oldest(log, 0) == Oldest([two, again], 0);
    assert Later(log, 2) == Later([two, again], 2) == Later([again], 2) == [];
  }

  // ----- Logs of histories -----

  predicate AreNamed(events: seq<Event>) {
    forall i :: 0 <= i < |events| ==> events[i].id != ""
  }

  predicate NamesEvent(a: Action) {
    a.Record? || a.BeginAttempt? ==> a.id != ""
  }

  ghost predicate IdsOk(st: State) {
    HasIds(st.stored) && forall t {:trigger st.sessions[t]} :: t in st.sessions ==> AreNamed(st.sessions[t].pending)
  }

  /** Stored events stay, in their order, and keep distinct identifiers. */
  lemma StepKeepsIds(st: State, a: Action)
    requires IdsOk(st) && NamesEvent(a)
    ensures IdsOk(Step(st, a)) && st.stored <= Step(st, a).stored
  {
    if a.Commit? && a.s in st.sessions && !IdClashes(st, st.sessions[a.s]) {
      CommitKeepsIds(st.stored, st.sessions[a.s].pending, st, st.sessions[a.s]);
    }
  }

  lemma CommitKeepsIds(stored: seq<Event>, pending: seq<Event>, st: State, session: Session)
    requires HasIds(stored) && AreNamed(pending) && stored == st.stored && pending == session.pending
    requires !IdClashes(st, session)
    ensures HasIds(stored + pending)
  {
  }

  lemma {:induction false} HistoryHasIds(h: seq<State>, a: seq<Action>, attempt: Id, i: nat)
    requires IsHistory(h, a, attempt) && i < |h| && forall k :: 0 <= k < |a| ==> NamesEvent(a[k])
    ensures IdsOk(h[i])
  {
    if i > 0 {
      HistoryHasIds(h, a, attempt, i - 1);
      StepKeepsIds(h[i - 1], a[i - 1]);
    }
  }

  lemma {:induction false} StoredGrows(h: seq<State>, a: seq<Action>, attempt: Id, i: nat, j: nat)
    requires IsHistory(h, a, attempt) && i <= j < |h| && forall k :: 0 <= k < |a| ==> NamesEvent(a[k])
    ensures h[i].stored <= h[j].stored
  {
    if i < j {
      StoredGrows(h, a, attempt, i, j - 1);
      HistoryHasIds(h, a, attempt, j - 1);
      StepKeepsIds(h[j - 1], a[j - 1]);
    }
  }

  predicate AreOf(events: seq<Event>, attempt: Id) {
    forall i :: 0 <= i < |events| ==> events[i].attempt == attempt
  }

  /** Everything belongs to one attempt. */
  ghost predicate HasOneAttempt(st: State, attempt: Id) {
    && st.attempt == attempt && AreOf(st.stored, attempt)
    && forall t {:trigger st.sessions[t]} :: t in st.sessions ==>
         st.sessions[t].attempt == attempt && AreOf(st.sessions[t].pending, attempt)
  }

  lemma StepKeepsAttempt(st: State, a: Action, attempt: Id)
    requires HasOneAttempt(st, attempt) && !a.BeginAttempt?
    ensures HasOneAttempt(Step(st, a), attempt)
  {
  }

  lemma {:induction false} HistoryHasOneAttempt(h: seq<State>, a: seq<Action>, attempt: Id, i: nat)
    requires IsHistory(h, a, attempt) && i < |h| && forall k :: 0 <= k < |a| ==> !a[k].BeginAttempt?
    ensures HasOneAttempt(h[i], attempt)
  {
    if i > 0 {
      HistoryHasOneAttempt(h, a, attempt, i - 1);
      StepKeepsAttempt(h[i - 1], a[i - 1], attempt);
    }
  }

  /** Until a run is reopened its stored events are such a log, however its sessions interleave. */
  lemma StoredIsLog(h: seq<State>, a: seq<Action>, attempt: Id, i: nat)
    requires IsHistory(h, a, attempt) && i < |h|
    requires forall k :: 0 <= k < |a| ==> !a[k].BeginAttempt? && NamesEvent(a[k])
    ensures IsLog(h[i].stored)
  {
    HistoryHasIds(h, a, attempt, i);
    HistoryHasOneAttempt(h, a, attempt, i);
    NumbersOfOneAttempt(h[i].stored, attempt, attempt);
    EventsAreNumbered(h, a, attempt, i, attempt);
  }

  /** What is read at turns that follow one another are polls of the log that the history ends with. */
  lemma SnapshotsArePolls(h: seq<State>, a: seq<Action>, attempt: Id, turns: seq<nat>, polls: seq<Poll>)
    requires IsHistory(h, a, attempt) && forall k :: 0 <= k < |a| ==> NamesEvent(a[k])
    requires |turns| == |polls| && forall i, j :: 0 <= i < j < |turns| ==> turns[i] <= turns[j]
    requires forall i :: 0 <= i < |turns| ==> turns[i] < |h| && polls[i].log == h[turns[i]].stored
    ensures HasIds(h[|a|].stored) && ArePollsOf(polls, h[|a|].stored)
  {
    HistoryHasIds(h, a, attempt, |a|);
    forall i | 0 <= i < |polls| ensures polls[i].log <= h[|a|].stored {
      StoredGrows(h, a, attempt, turns[i], |a|);
    }
    forall i, j | 0 <= i < j < |polls| ensures |polls[i].log| <= |polls[j].log| {
      StoredGrows(h, a, attempt, turns[i], turns[j]);
    }
  }
}
