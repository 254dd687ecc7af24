// Durable runtime events of one run: how sessions number them.

module RuntimeEvents {
  import opened Base

  type Id = nat

  datatype Event = Event(attempt: Id, number: int, id: string, expiresAt: int)

  // ----- Numbers -----

  /** The numbers of the events of an attempt, in the order in which they were committed. */
  function NumbersOf(events: seq<Event>, attempt: Id): seq<int> {
    if events == [] then []
    else
      var last := events[|events| - 1];
      NumbersOf(events[..|events| - 1], attempt) + if last.attempt == attempt then [last.number] else []
  }

  predicate CountsFrom(s: seq<int>, base: int) {
    forall i :: 0 <= i < |s| ==> s[i] == base + i + 1
  }

  /** max(sequence), or 0 without events. */
  function Highest(s: seq<int>): int {
    if s == [] then 0
    else if |s| == 1 then s[0]
    else Max(Highest(s[..|s| - 1]), s[|s| - 1])
  }

  lemma {:induction false} HighestCounts(s: seq<int>)
    requires CountsFrom(s, 0)
    ensures Highest(s) == |s|
  {
    if |s| > 1 { HighestCounts(s[..|s| - 1]); }
  }

  lemma {:induction false} NumbersAppend(a: seq<Event>, b: seq<Event>, attempt: Id)
    ensures NumbersOf(a + b, attempt) == NumbersOf(a, attempt) + NumbersOf(b, attempt)
  {
    if b == [] {
      assert a + b == a;
    } else {
      NumbersAppend(a, b[..|b| - 1], attempt);
      assert (a + b)[..|a + b| - 1] == a + b[..|b| - 1];
    }
  }

  lemma {:induction false} NumbersOfOneAttempt(events: seq<Event>, attempt: Id, other: Id)
    requires forall i :: 0 <= i < |events| ==> events[i].attempt == attempt
    ensures |NumbersOf(events, attempt)| == |events|
    ensures forall i :: 0 <= i < |events| ==> NumbersOf(events, attempt)[i] == events[i].number
    ensures other != attempt ==> NumbersOf(events, other) == []
  {
    if events != [] { NumbersOfOneAttempt(events[..|events| - 1], attempt, other); }
  }

  lemma {:induction false} NumberIsStored(events: seq<Event>, attempt: Id, i: nat)
    requires i < |NumbersOf(events, attempt)|
    ensures exists k :: 0 <= k < |events| && events[k].attempt == attempt
              && events[k].number == NumbersOf(events, attempt)[i]
  {
    var front, last := events[..|events| - 1], events[|events| - 1];
    if i < |NumbersOf(front, attempt)| {
      NumberIsStored(front, attempt, i);
      var k :| 0 <= k < |front| && front[k].attempt == attempt && front[k].number == NumbersOf(front, attempt)[i];
      assert events[k] == front[k];
    } else {
      assert events[|events| - 1] == last;
    }
  }

  // ----- Sessions -----

  /** A session that has loaded the run.  cached is the counter kept on the run object, which lives
      on after a commit; isFresh says that it was read in this transaction; reopens that the
      transaction starts a new attempt. */
  datatype Session = Session(attempt: Id, cached: Option<int>, pending: seq<Event>, isFresh: bool, reopens: bool)

  datatype State = State(stored: seq<Event>, attempt: Id, attempts: set<Id>, sessions: map<Id, Session>,
      lock: Option<Id>)

  datatype Action =
    | Load(s: Id)
    | Record(s: Id, id: string, expiresAt: int)
    | BeginAttempt(s: Id, attempt: Id, id: string, expiresAt: int)
    | Commit(s: Id)
    | Leave(s: Id)      // rollback or close: every handler that rolls back ends its session

  predicate MayLock(st: State, s: Id) {
    st.lock.None? || st.lock == Some(s)
  }

  /** record_runtime_event, once it holds the row lock.  Pending events are not flushed, so the
      query sees committed ones only. */
  function Append(stored: seq<Event>, session: Session, id: string, expiresAt: int): Session {
    var current := if session.cached.Some? then session.cached.value else Highest(NumbersOf(stored, session.attempt));
    session.(cached := Some(current + 1),
             pending := session.pending + [Event(session.attempt, current + 1, id, expiresAt)],
             isFresh := session.isFresh || session.cached.None?)
  }

  predicate Clashes(st: State, session: Session) {
    NumberClashes(st, session) || IdClashes(st, session)
  }

  /** The unique constraint on attempt and number. */
  predicate NumberClashes(st: State, session: Session) {
    exists i, k :: 0 <= i < |session.pending| && 0 <= k < |st.stored|
                   && session.pending[i].attempt == st.stored[k].attempt
                        && session.pending[i].number == st.stored[k].number
  }

  /** The unique constraint on the identifier, which holds within the run. */
  predicate IdClashes(st: State, session: Session) {
    || (exists i, k :: 0 <= i < |session.pending| && 0 <= k < |st.stored| && session.pending[i].id == st.stored[k].id)
    || exists i, j :: 0 <= i < j < |session.pending| && session.pending[i].id == session.pending[j].id
  }

  function Without(st: State, s: Id): State {
    st.(sessions := map t | t in st.sessions && t != s :: st.sessions[t],
        lock := if st.lock == Some(s) then None else st.lock)
  }

  function Committed(st: State, s: Id): State
    requires s in st.sessions
  {
    var session := st.sessions[s];
    State(st.stored + session.pending, if session.reopens then session.attempt else st.attempt, st.attempts,
          st.sessions[s := session.(pending := [], isFresh := false, reopens := false)],
          if st.lock == Some(s) then None else st.lock)
  }

  function Step(st: State, a: Action): State {
    if a.Load? then
      if a.s in st.sessions then st
      else st.(sessions := st.sessions[a.s := Session(st.attempt, None, [], false, false)])
    else if a.s !in st.sessions then st
    else
      var session := st.sessions[a.s];
      match a
      case Load(_) => st
      case Record(s, id, expiresAt) =>
        // a stale copy finds no row to lock
        if session.attempt != st.attempt && !session.reopens then
          st.(sessions := st.sessions[s := Append(st.stored, session, id, expiresAt)])
        else if !MayLock(st, s) then st
        else st.(sessions := st.sessions[s := Append(st.stored, session, id, expiresAt)], lock := Some(s))
      case BeginAttempt(s, attempt, id, expiresAt) =>
        // the first thing a replay or a restore does with the run it loaded
        if session.cached.Some? || session.attempt != st.attempt || !MayLock(st, s) || attempt in st.attempts then st
        else
          st.(sessions := st.sessions[s :=
              Append(st.stored, session.(attempt := attempt, reopens := true), id, expiresAt)],
              attempts := st.attempts + {attempt}, lock := Some(s))
      case Commit(s) => if Clashes(st, session) then Without(st, s) else Committed(st, s)
      case Leave(s) => Without(st, s)
  }

  // ----- The invariant -----

  /** Pending events count on from base, a number that was the highest one stored at some time. */
  ghost predicate SessionOk(st: State, s: Session) {
    var k := |s.pending|;
    && (s.cached.None? ==> k == 0) && (s.isFresh ==> k > 0)
    && (s.cached.Some? ==> 0 <= s.cached.value - k <= |NumbersOf(st.stored, s.attempt)|)
    && (forall i :: 0 <= i < k ==>
         s.pending[i].attempt == s.attempt && s.pending[i].number == s.cached.value - k + i + 1)
    && s.attempt in st.attempts
  }

  /** Who has pending events of the current or a new attempt holds the lock; a counter that was read
      under the lock is the highest number stored or pending. */
  ghost predicate LockOk(st: State, t: Id)
    requires t in st.sessions
  {
    var s := st.sessions[t];
    && (s.pending != [] && (s.attempt == st.attempt || s.reopens) ==> st.lock == Some(t))
    && (s.reopens ==> st.lock == Some(t) && s.attempt != st.attempt && NumbersOf(st.stored, s.attempt) == [])
    && (s.isFresh && st.lock == Some(t) && s.cached.Some? ==>
         s.cached.value - |s.pending| == |NumbersOf(st.stored, s.attempt)|)
    && (st.lock == Some(t) ==> s.attempt == st.attempt || s.reopens)
  }

  ghost predicate IsNumbered(st: State) {
    forall a :: CountsFrom(NumbersOf(st.stored, a), 0)
  }

  ghost predicate Good(st: State) {
    && IsNumbered(st) && st.attempt in st.attempts && (st.lock.Some? ==> st.lock.value in st.sessions)
    && (forall a :: a !in st.attempts ==> NumbersOf(st.stored, a) == [])
    && (forall t :: t in st.sessions ==> SessionOk(st, st.sessions[t]) && LockOk(st, t))
    && (forall t, u :: t in st.sessions && u in st.sessions && t != u && st.sessions[t].reopens ==>
         st.sessions[u].attempt != st.sessions[t].attempt)
  }

  function NewRun(attempt: Id): State {
    State([], attempt, {attempt}, map[], None)
  }

  /** One session changes while the stored events stay. */
  lemma SessionChangeKeeps(st: State, later: State, s: Id)
    requires Good(st) && s in later.sessions
    requires later.stored == st.stored && later.attempt == st.attempt && st.attempts <= later.attempts
    requires later.sessions == st.sessions[s := later.sessions[s]]
    requires later.lock == st.lock || (later.lock == Some(s) && MayLock(st, s))
    requires SessionOk(later, later.sessions[s]) && LockOk(later, s)
    requires forall u :: u in st.sessions && u != s ==>
               && (later.sessions[s].reopens ==> st.sessions[u].attempt != later.sessions[s].attempt)
               && (st.sessions[u].reopens ==> later.sessions[s].attempt != st.sessions[u].attempt)
    ensures Good(later)
  {
    forall t | t in later.sessions
      ensures SessionOk(later, later.sessions[t]) && LockOk(later, t)
    {
      if t != s { assert SessionOk(st, st.sessions[t]) && LockOk(st, t); }
    }
  }

  lemma RecordKeeps(st: State, s: Id, id: string, expiresAt: int)
    requires Good(st)
    ensures Good(Step(st, Record(s, id, expiresAt)))
  {
    if s in st.sessions {
      var session := st.sessions[s];
      assert SessionOk(st, session) && LockOk(st, s);
      HighestCounts(NumbersOf(st.stored, session.attempt));
      if (session.attempt != st.attempt && !session.reopens) || MayLock(st, s) {
        SessionChangeKeeps(st, Step(st, Record(s, id, expiresAt)), s);
      }
    }
  }

  lemma BeginAttemptKeeps(st: State, s: Id, attempt: Id, id: string, expiresAt: int)
    requires Good(st)
    ensures Good(Step(st, BeginAttempt(s, attempt, id, expiresAt)))
  {
    if s in st.sessions {
      var session := st.sessions[s];
      assert SessionOk(st, session) && LockOk(st, s);
      if session.cached.None? && session.attempt == st.attempt && MayLock(st, s) && attempt !in st.attempts {
        assert NumbersOf(st.stored, attempt) == [];
        var later := Step(st, BeginAttempt(s, attempt, id, expiresAt));
        forall u | u in st.sessions ensures st.sessions[u].attempt != attempt {
          assert SessionOk(st, st.sessions[u]);
        }
        SessionChangeKeeps(st, later, s);
      }
    }
  }

  lemma LoadKeeps(st: State, s: Id)
    requires Good(st)
    ensures Good(Step(st, Load(s)))
  {
    if s !in st.sessions {
      forall u | u in st.sessions && st.sessions[u].reopens ensures st.sessions[u].attempt != st.attempt {
        assert LockOk(st, u);
      }
      SessionChangeKeeps(st, Step(st, Load(s)), s);
    }
  }

  lemma LeaveKeeps(st: State, s: Id)
    requires Good(st)
    ensures Good(Without(st, s))
  {
    var later := Without(st, s);
    forall t | t in later.sessions
      ensures SessionOk(later, later.sessions[t]) && LockOk(later, t)
    {
      assert SessionOk(st, st.sessions[t]) && LockOk(st, t);
    }
  }

  /** A session whose counter fell behind repeats a number, and the constraint refuses it. */
  lemma LaggingSessionClashes(st: State, session: Session)
    requires SessionOk(st, session) && session.pending != [] && CountsFrom(NumbersOf(st.stored, session.attempt), 0)
    requires session.cached.value - |session.pending| < |NumbersOf(st.stored, session.attempt)|
    ensures NumberClashes(st, session)
  {
    NumberIsStored(st.stored, session.attempt, session.cached.value - |session.pending|);
    assert session.pending[0].number == session.cached.value - |session.pending| + 1;
  }

  /** What a commit that the constraint accepts adds continues the numbers of its attempt. */
  lemma CommittedNumbers(st: State, s: Id)
    requires Good(st) && s in st.sessions && !NumberClashes(st, st.sessions[s])
    ensures var session := st.sessions[s];
            && (session.pending != [] ==>
                 session.cached.value - |session.pending| == |NumbersOf(st.stored, session.attempt)|)
            && CountsFrom(NumbersOf(st.stored + session.pending, session.attempt), 0)
            && |NumbersOf(st.stored + session.pending, session.attempt)| == |NumbersOf(st.stored, session.attempt)|
                 + |session.pending|
            && forall a :: a != session.attempt ==> NumbersOf(st.stored + session.pending, a) == NumbersOf(st.stored, a)
  {
    var session := st.sessions[s];
    assert SessionOk(st, session);
    var k, n := |session.pending|, |NumbersOf(st.stored, session.attempt)|;
    if k > 0 && session.cached.value - k < n {
      LaggingSessionClashes(st, session);
    }
    NumbersOfOneAttempt(session.pending, session.attempt, session.attempt);
    NumbersAppend(st.stored, session.pending, session.attempt);
    forall a | a != session.attempt
      ensures NumbersOf(st.stored + session.pending, a) == NumbersOf(st.stored, a)
    {
      NumbersOfOneAttempt(session.pending, session.attempt, a);
      NumbersAppend(st.stored, session.pending, a);
    }
  }

  lemma CommitKeeps(st: State, s: Id)
    requires Good(st) && s in st.sessions && !Clashes(st, st.sessions[s])
    ensures Good(Committed(st, s))
  {
    var later := Committed(st, s);
    CommitKeepsNumbers(st, s);
    forall t | t in later.sessions
      ensures SessionOk(later, later.sessions[t]) && LockOk(later, t)
    {
      CommitKeepsOther(st, s, t);
    }
  }

  lemma CommitKeepsNumbers(st: State, s: Id)
    requires Good(st) && s in st.sessions && !Clashes(st, st.sessions[s])
    ensures IsNumbered(Committed(st, s))
    ensures forall a :: a !in st.attempts ==> NumbersOf(Committed(st, s).stored, a) == []
    ensures Committed(st, s).attempt in st.attempts
  {
    CommittedNumbers(st, s);
    assert SessionOk(st, st.sessions[s]);
    forall a ensures CountsFrom(NumbersOf(Committed(st, s).stored, a), 0) {
      assert CountsFrom(NumbersOf(st.stored, a), 0);
    }
  }

  lemma CommitKeepsOther(st: State, s: Id, t: Id)
    requires Good(st) && s in st.sessions && t in st.sessions && !Clashes(st, st.sessions[s])
    ensures SessionOk(Committed(st, s), Committed(st, s).sessions[t]) && LockOk(Committed(st, s), t)
  {
    CommittedNumbers(st, s);
    assert SessionOk(st, st.sessions[t]) && LockOk(st, t) && SessionOk(st, st.sessions[s]) && LockOk(st, s);
  }

  lemma StepKeeps(st: State, a: Action)
    requires Good(st)
    ensures Good(Step(st, a))
  {
    match a {
      case Load(s) => LoadKeeps(st, s);
      case Record(s, id, expiresAt) => RecordKeeps(st, s, id, expiresAt);
      case BeginAttempt(s, attempt, id, expiresAt) => BeginAttemptKeeps(st, s, attempt, id, expiresAt);
      case Commit(s) =>
        if s in st.sessions {
          if Clashes(st, st.sessions[s]) { LeaveKeeps(st, s); } else { CommitKeeps(st, s); }
        }
      case Leave(s) => if s in st.sessions { LeaveKeeps(st, s); }
    }
  }

  ghost predicate IsHistory(h: seq<State>, a: seq<Action>, attempt: Id) {
    |h| == |a| + 1 && h[0] == NewRun(attempt)
        && forall i {:trigger a[i]} :: 0 <= i < |a| ==> h[i + 1] == Step(h[i], a[i])
  }

  lemma {:induction false} HistoryIsGood(h: seq<State>, a: seq<Action>, attempt: Id, i: nat)
    requires IsHistory(h, a, attempt) && i < |h|
    ensures Good(h[i])
  {
    if i > 0 {
      HistoryIsGood(h, a, attempt, i - 1);
      StepKeeps(h[i - 1], a[i - 1]);
    }
  }

  /** However sessions interleave, the committed events of every attempt are numbered 1, 2, 3, ...
      in the order of their commits. */
  lemma EventsAreNumbered(h: seq<State>, a: seq<Action>, attempt: Id, i: nat, of: Id)
    requires IsHistory(h, a, attempt) && i < |h|
    ensures CountsFrom(NumbersOf(h[i].stored, of), 0)
  {
    HistoryIsGood(h, a, attempt, i);
  }

  /** A session that read its counter under the lock assigns the number after the highest stored or
      pending one, and its commit is accepted unless an identifier is taken. */
  lemma LockedCounterIsHighest(st: State, s: Id)
    requires Good(st) && s in st.sessions && st.lock == Some(s) && st.sessions[s].isFresh
    ensures var session := st.sessions[s];
            && session.cached == Some(Highest(NumbersOf(st.stored + session.pending, session.attempt)))
            && (Clashes(st, session) <==> IdClashes(st, session))
  {
    var session := st.sessions[s];
    LockedDoesNotClash(st, s);
    CommittedNumbers(st, s);
    HighestCounts(NumbersOf(st.stored + session.pending, session.attempt));
    FreshHasPending(st, s);
  }

  lemma FreshHasPending(st: State, s: Id)
    requires Good(st) && s in st.sessions && st.sessions[s].isFresh
    ensures st.sessions[s].pending != [] && st.sessions[s].cached.Some?
  {
    assert SessionOk(st, st.sessions[s]);
  }

  lemma LockedDoesNotClash(st: State, s: Id)
    requires Good(st) && s in st.sessions && st.lock == Some(s) && st.sessions[s].isFresh
    ensures !NumberClashes(st, st.sessions[s])
  {
    var session := st.sessions[s];
    assert SessionOk(st, session) && LockOk(st, s);
    forall k | 0 <= k < |st.stored| && st.stored[k].attempt == session.attempt
      ensures st.stored[k].number <= |NumbersOf(st.stored, session.attempt)|
    {
      StoredIsCounted(st.stored, k);
    }
  }

  lemma {:induction false} StoredIsCounted(events: seq<Event>, k: nat)
    requires k < |events| && CountsFrom(NumbersOf(events, events[k].attempt), 0)
    ensures 1 <= events[k].number <= |NumbersOf(events, events[k].attempt)|
  {
    var front, last := events[..|events| - 1], events[|events| - 1];
    var numbers, before := NumbersOf(events, events[k].attempt), NumbersOf(front, events[k].attempt);
    assert forall i :: 0 <= i < |before| ==> numbers[i] == before[i];
    if k < |front| {
      StoredIsCounted(front, k);
    } else {
      assert numbers[|numbers| - 1] == last.number;
    }
  }

  // ----- What each step does -----

  /** n comes after every stored number of the attempt, and directly after one of them or after 0. */
  ghost predicate ComesNext(stored: seq<Event>, attempt: Id, n: int) {
    && (forall k :: 0 <= k < |stored| && stored[k].attempt == attempt ==> stored[k].number < n)
    && (n == 1 || exists k :: 0 <= k < |stored| && stored[k].attempt == attempt && stored[k].number == n - 1)
  }

  lemma {:induction false} HighestIsMaximum(s: seq<int>)
    ensures s == [] ==> Highest(s) == 0
    ensures s != [] ==> Highest(s) in s && forall i :: 0 <= i < |s| ==> s[i] <= Highest(s)
  {
    if |s| > 1 { HighestIsMaximum(s[..|s| - 1]); }
  }

  lemma {:induction false} StoredIsNumber(events: seq<Event>, k: nat)
    requires k < |events|
    ensures events[k].number in NumbersOf(events, events[k].attempt)
  {
    if k < |events| - 1 { StoredIsNumber(events[..|events| - 1], k); }
  }

  lemma NextComesNext(st: State, attempt: Id)
    requires Good(st)
    ensures ComesNext(st.stored, attempt, Highest(NumbersOf(st.stored, attempt)) + 1)
  {
    var numbers := NumbersOf(st.stored, attempt);
    HighestIsMaximum(numbers);
    forall k | 0 <= k < |st.stored| && st.stored[k].attempt == attempt ensures st.stored[k].number <= Highest(numbers) {
      StoredIsNumber(st.stored, k);
    }
    if numbers != [] {
      var i :| 0 <= i < |numbers| && numbers[i] == Highest(numbers);
      NumberIsStored(st.stored, attempt, i);
    }
  }

  /** Session s has one more event, and everything else but the lock stays. */
  ghost predicate Appends(st: State, later: State, s: Id, event: Event) {
    && s in st.sessions && s in later.sessions && later.stored == st.stored && later.attempt == st.attempt
    && later.sessions == st.sessions[s := later.sessions[s]]
    && later.sessions[s].attempt == event.attempt && later.sessions[s].cached == Some(event.number)
    && later.sessions[s].pending == st.sessions[s].pending + [event]
  }

  /** Recording an event gives it the number after the session's counter or, without one, after the
      highest stored number of its attempt.  It waits while another session holds the lock, unless the
      session's copy of the run is stale: then there is no row to lock. */
  lemma RecordAppends(st: State, s: Id, id: string, expiresAt: int)
    requires Good(st) && s in st.sessions
    ensures var session, later := st.sessions[s], Step(st, Record(s, id, expiresAt));
            var isStale := session.attempt != st.attempt && !session.reopens;
            if !isStale && st.lock.Some? && st.lock.value != s then later == st
            else
              && s in later.sessions && later.sessions[s].cached.Some?
              && var n := later.sessions[s].cached.value;
                 && Appends(st, later, s, Event(session.attempt, n, id, expiresAt))
                 && (session.cached.Some? ==> n == session.cached.value + 1)
                 && (session.cached.None? ==> ComesNext(st.stored, session.attempt, n))
                 && later.lock == (if isStale then st.lock else Some(s)) && later.attempts == st.attempts
                 && (later.sessions[s].isFresh <==> session.isFresh || session.cached.None?)
                 && (later.sessions[s].reopens <==> session.reopens)
  {
    NextComesNext(st, st.sessions[s].attempt);
  }

  /** A session reopens the run as the first thing it does with a current copy, under an identifier that
      was never used; its first event has number 1. */
  lemma BeginAttemptReopens(st: State, s: Id, attempt: Id, id: string, expiresAt: int)
    requires Good(st) && s in st.sessions
    ensures var session, later := st.sessions[s], Step(st, BeginAttempt(s, attempt, id, expiresAt));
            if || session.cached.Some? || session.attempt != st.attempt || attempt in st.attempts
               || (st.lock.Some? && st.lock.value != s) then later == st
            else
              && Appends(st, later, s, Event(attempt, 1, id, expiresAt))
              && later.sessions[s].pending == [Event(attempt, 1, id, expiresAt)]
              && later.lock == Some(s) && later.attempts == st.attempts + {attempt}
              && later.sessions[s].reopens && later.sessions[s].isFresh
  {
    assert SessionOk(st, st.sessions[s]);
  }

  ghost predicate IsTaken(st: State, pending: seq<Event>, i: nat)
    requires i < |pending|
  {
    || (exists k :: 0 <= k < |st.stored| && st.stored[k].attempt == pending[i].attempt
                    && st.stored[k].number == pending[i].number)
    || (exists k :: 0 <= k < |st.stored| && st.stored[k].id == pending[i].id)
    || exists j :: 0 <= j < i && pending[j].id == pending[i].id
  }

  /** Session s is gone, and its lock with it. */
  ghost predicate Drops(st: State, later: State, s: Id) {
    && later.stored == st.stored && later.attempt == st.attempt && later.attempts == st.attempts
    && s !in later.sessions && (forall t :: t != s ==> (t in later.sessions <==> t in st.sessions))
    && (forall t :: t in later.sessions ==> later.sessions[t] == st.sessions[t])
    && later.lock == if st.lock == Some(s) then None else st.lock
  }

  /** A commit stores what is pending, and the new attempt if there is one; it fails exactly if the number
      or the identifier of a pending event is taken, and then the session is over. */
  lemma CommitStores(st: State, s: Id)
    requires s in st.sessions
    ensures var session, later := st.sessions[s], Step(st, Commit(s));
            if exists i :: 0 <= i < |session.pending| && IsTaken(st, session.pending, i) then Drops(st, later, s)
            else
              && later.stored == st.stored + session.pending && later.attempts == st.attempts
              && later.attempt == (if session.reopens then session.attempt else st.attempt)
              && later.sessions == st.sessions[s := Session(session.attempt, session.cached, [], false, false)]
              && later.lock == if st.lock == Some(s) then None else st.lock
  {
    var pending := st.sessions[s].pending;
    if i, k :| 0 <= i < |pending| && 0 <= k < |st.stored|
               && pending[i].attempt == st.stored[k].attempt && pending[i].number == st.stored[k].number {
      assert IsTaken(st, pending, i);
    } else if i, k :| 0 <= i < |pending| && 0 <= k < |st.stored| && pending[i].id == st.stored[k].id {
      assert IsTaken(st, pending, i);
    } else if i, j :| 0 <= i < j < |pending| && pending[i].id == pending[j].id {
      assert IsTaken(st, pending, j);
    }
  }

  /** A session that loads the run has a current copy of it and nothing else. */
  lemma LoadsAndLeaves(st: State, s: Id)
    ensures s in st.sessions ==> Step(st, Load(s)) == st && Drops(st, Step(st, Leave(s)), s)
    ensures s !in st.sessions ==>
              var later := Step(st, Load(s));
              && later.sessions == st.sessions[s := Session(st.attempt, None, [], false, false)]
              && later.stored == st.stored && later.lock == st.lock && later.attempt == st.attempt
              && later.attempts == st.attempts
  {
  }

  /** The run object of a session, as record_runtime_event changes it. */
  class RunObject {
    const attempt: Id
    var sequence: Option<int>   // _runtime_event_sequence
    var pending: seq<Event>
    var isFresh: bool
    const reopens: bool

    constructor (attempt: Id, reopens: bool)
      ensures Value() == Session(attempt, None, [], false, reopens)
    {
      this.attempt, this.reopens := attempt, reopens;
      sequence, pending, isFresh := None, [], false;
    }

    function Value(): Session
      reads this
    {
      Session(attempt, sequence, pending, isFresh, reopens)
    }

    method RecordRuntimeEvent(stored: seq<Event>, id: string, expiresAt: int) returns (event: Event)
      modifies this
      ensures Value() == Append(stored, old(Value()), id, expiresAt)
      ensures pending == old(pending) + [event]
    {
      var current := sequence;
      if current.None? {
        isFresh := true;
        current := HighestStored(stored, attempt);
      }
      var next := (if current.None? then 0 else current.value) + 1;
      sequence := Some(next);
      event := Event(attempt, next, id, expiresAt);
      pending := pending + [event];
    }
  }

  /** The answer of the query: no maximum if the attempt has no events. */
  function HighestStored(stored: seq<Event>, attempt: Id): Option<int> {
    if NumbersOf(stored, attempt) == [] then None else Some(Highest(NumbersOf(stored, attempt)))
  }
}
