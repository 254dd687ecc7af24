// The request cache of the web client: what it may keep and serve while requests, refreshed
// tokens, invalidations and clears interleave on the event loop.  Every action is one
// uninterrupted turn of the loop.

module ApiCache {
  type Id = nat

  /** Cache keys and scopes; CacheKeys builds the strings that stand for them. */
  type Key = nat
  type Scope = nat

  const GET_CACHE_TTL_MS := 5000

  /** A response, known by the fetch that produced it: sentAt is the turn in which it was sent. */
  datatype Value = Value(id: Id, sentAt: nat, key: Key, scope: Scope)

  datatype Entry = Entry(expiresAt: int, value: Value, scope: Scope)

  datatype Flight = Flight(id: Id, scope: Scope)

  datatype Phase = Waiting | Refreshing | Settled

  /** A call of apiRequest that has sent a request.  The result fields are those of the last send. */
  datatype Call = Call(
    key: Key, scope: Scope, generation: nat, startedAt: nat,
    resultKey: Key, resultScope: Scope, resultScopeGeneration: nat, sentAt: nat,
    isCacheable: bool, hasSignal: bool, wasRefreshed: bool, phase: Phase)

  datatype Tables = Tables(cache: map<Key, Entry>, inFlight: map<Key, Flight>, generations: map<Scope, nat>,
      generation: nat)

  datatype State = State(t: Tables, calls: map<Id, Call>, clock: nat)

  datatype Action =
    | Request(id: Id, key: Key, scope: Scope, isGet: bool, isCacheable: bool, hasSignal: bool, now: int)
    | Unauthorized(id: Id)                           // the refresh handler is asked
    | Resend(id: Id, key: Key, scope: Scope)     // with the refreshed token
    | Respond(id: Id, now: int, isAborted: bool)
    | Fail(id: Id)
    | Forget(id: Id)                                 // the promise has settled
    | Invalidate(scope: Scope)
    | Clear

  function ScopeGeneration(t: Tables, scope: Scope): nat {
    if scope in t.generations then t.generations[scope] else 0
  }

  function InvalidateScope(t: Tables, scope: Scope): Tables {
    Tables(
      map k | k in t.cache && t.cache[k].scope != scope :: t.cache[k],
      map k | k in t.inFlight && t.inFlight[k].scope != scope :: t.inFlight[k],
      t.generations[scope := ScopeGeneration(t, scope) + 1],
      t.generation)
  }

  function ClearAll(t: Tables): Tables {
    Tables(map[], map[], map[], t.generation + 1)
  }

  /** What a request finds. */
  datatype Found = Cached(value: Value) | Joined(id: Id) | Nothing

  function Lookup(t: Tables, a: Action): Found
    requires a.Request?
  {
    if !a.isGet || !a.isCacheable then Nothing
    else if a.key in t.cache && t.cache[a.key].expiresAt > a.now then Cached(t.cache[a.key].value)
    else if !a.hasSignal && a.key in t.inFlight then Joined(t.inFlight[a.key].id)
    else Nothing
  }

  /** The tables after the synchronous part of apiRequest, before the request is sent. */
  function Prepared(t: Tables, a: Action): Tables
    requires a.Request?
  {
    var valid := if a.isGet then t else InvalidateScope(t, a.scope);
    if a.isGet && a.isCacheable && a.key in t.cache && t.cache[a.key].expiresAt <= a.now then
      valid.(cache := valid.cache - {a.key}) else valid
  }

  function Begin(st: State, a: Action): State
    requires a.Request?
  {
    var t := Prepared(st.t, a);
    if Lookup(st.t, a) != Nothing || a.id in st.calls then st.(t := t)
    else
      var isCacheable := a.isGet && a.isCacheable;
      var call := Call(a.key, a.scope, t.generation, st.clock, a.key, a.scope, ScopeGeneration(t, a.scope), st.clock,
          isCacheable, a.hasSignal, false, Waiting);
      st.(t := if isCacheable && !a.hasSignal then t.(inFlight := t.inFlight[a.key := Flight(a.id, a.scope)]) else t,
          calls := st.calls[a.id := call])
  }

  predicate MayStore(t: Tables, c: Call, isAborted: bool) {
    c.isCacheable && !(c.hasSignal && isAborted) && c.generation == t.generation
    && c.resultScopeGeneration == ScopeGeneration(t, c.resultScope)
  }

  function Store(t: Tables, id: Id, c: Call, now: int): Tables {
    t.(cache := t.cache[c.resultKey :=
        Entry(now + GET_CACHE_TTL_MS, Value(id, c.sentAt, c.resultKey, c.resultScope), c.resultScope)])
  }

  function Change(st: State, a: Action): State {
    match a
    case Request(_, _, _, _, _, _, _) => Begin(st, a)
    case Invalidate(scope) => st.(t := InvalidateScope(st.t, scope))
    case Clear => st.(t := ClearAll(st.t))
    case Unauthorized(id) =>
      if id !in st.calls || st.calls[id].phase != Waiting then st
      else st.(calls := st.calls[id :=
        st.calls[id].(phase := if st.calls[id].wasRefreshed then Settled else Refreshing)])
    case Resend(id, key, scope) =>
      if id !in st.calls || st.calls[id].phase != Refreshing then st
      else
        st.(calls := st.calls[id := st.calls[id].(resultKey := key, resultScope := scope,
          resultScopeGeneration := ScopeGeneration(st.t, scope), sentAt := st.clock, wasRefreshed := true,
              phase := Waiting)])
    case Respond(id, now, isAborted) =>
      if id !in st.calls || st.calls[id].phase != Waiting then st
      else
        State(if MayStore(st.t, st.calls[id], isAborted) then Store(st.t, id, st.calls[id], now) else st.t,
              st.calls[id := st.calls[id].(phase := Settled)], st.clock)
    case Fail(id) => if id !in st.calls then st else st.(calls := st.calls[id := st.calls[id].(phase := Settled)])
    case Forget(id) =>
      if id !in st.calls || st.calls[id].phase != Settled then st
      else
        var key := st.calls[id].key;
        if key in st.t.inFlight && st.t.inFlight[key].id == id then
          st.(t := st.t.(inFlight := st.t.inFlight - {key})) else st
  }

  function Step(st: State, a: Action): State {
    Change(st, a).(clock := st.clock + 1)
  }

  ghost predicate IsHistory(h: seq<State>, a: seq<Action>) {
    && |h| == |a| + 1 && h[0] == State(Tables(map[], map[], map[], 0), map[], 0)
    && forall i {:trigger a[i]} :: 0 <= i < |a| ==> h[i + 1] == Step(h[i], a[i])
  }

  // ----- Invalidations -----

  /** A clear, or an invalidation of the scope, by itself or by a request that is not a GET. */
  predicate Invalidates(a: Action, scope: Scope) {
    a.Clear? || (a.Invalidate? && a.scope == scope) || (a.Request? && !a.isGet && a.scope == scope)
  }

  /** Nothing invalidated the scope after turn from and before turn to. */
  ghost predicate Quiet(a: seq<Action>, from: int, to: int, scope: Scope) {
    forall j {:trigger a[j]} :: from < j < to && 0 <= j < |a| ==> !Invalidates(a[j], scope)
  }

  ghost predicate NoClear(a: seq<Action>, from: int, to: int) {
    forall j {:trigger a[j]} :: from < j < to && 0 <= j < |a| ==> !a[j].Clear?
  }

  /** The turn in which a call sends a request for a key of a scope. */
  predicate Sends(a: seq<Action>, turn: nat, id: Id, key: Key, scope: Scope) {
    turn < |a| && (a[turn].Request? || a[turn].Resend?) && a[turn].id == id && a[turn].key == key
        && a[turn].scope == scope
  }

  ghost predicate EntryOk(st: State, a: seq<Action>, key: Key)
    requires key in st.t.cache
  {
    var e := st.t.cache[key];
    e.value.key == key && e.value.scope == e.scope && e.value.sentAt < st.clock
    && Sends(a, e.value.sentAt, e.value.id, key, e.scope) && Quiet(a, e.value.sentAt, st.clock, e.scope)
  }

  ghost predicate FlightOk(st: State, a: seq<Action>, key: Key)
    requires key in st.t.inFlight
  {
    var f := st.t.inFlight[key];
    && f.id in st.calls && st.calls[f.id].key == key && st.calls[f.id].scope == f.scope
    && st.calls[f.id].startedAt < st.clock && Quiet(a, st.calls[f.id].startedAt, st.clock, f.scope)
  }

  /** The cache generation is that of the call exactly if nothing was cleared since it started, and then the
      counter of its scope is the same exactly if nothing invalidated that scope since it was sent. */
  ghost predicate CallOk(st: State, a: seq<Action>, id: Id)
    requires id in st.calls
  {
    var c := st.calls[id];
    && c.startedAt <= c.sentAt < st.clock && c.generation <= st.t.generation
    && Sends(a, c.startedAt, id, c.key, c.scope) && Sends(a, c.sentAt, id, c.resultKey, c.resultScope)
    && (if c.wasRefreshed then c.startedAt < c.sentAt && a[c.sentAt].Resend? else c.sentAt == c.startedAt)
    && (c.generation == st.t.generation <==> NoClear(a, c.startedAt, st.clock))
    && (c.generation == st.t.generation ==>
          && c.resultScopeGeneration <= ScopeGeneration(st.t, c.resultScope)
          && (c.resultScopeGeneration == ScopeGeneration(st.t, c.resultScope) <==>
              Quiet(a, c.sentAt, st.clock, c.resultScope)))
  }

  ghost predicate EntriesOk(st: State, a: seq<Action>) {
    forall k {:trigger st.t.cache[k]} :: k in st.t.cache ==> EntryOk(st, a, k)
  }

  ghost predicate FlightsOk(st: State, a: seq<Action>) {
    forall k {:trigger st.t.inFlight[k]} :: k in st.t.inFlight ==> FlightOk(st, a, k)
  }

  ghost predicate CallsOk(st: State, a: seq<Action>) {
    forall id {:trigger st.calls[id]} :: id in st.calls ==> CallOk(st, a, id)
  }

  ghost predicate Good(st: State, a: seq<Action>) {
    EntriesOk(st, a) && FlightsOk(st, a) && CallsOk(st, a)
  }

  /** A quiet stretch grows by a turn that does not invalidate the scope. */
  lemma QuietGrows(a: seq<Action>, from: int, to: nat, scope: Scope)
    requires Quiet(a, from, to, scope) && to < |a| && (from < to ==> !Invalidates(a[to], scope))
    ensures Quiet(a, from, to + 1, scope)
  {
  }

  /** A stretch grows by one turn: it stays quiet exactly if the turn does not invalidate the scope, and
      free of clears exactly if the turn is none. */
  lemma StretchGrows(a: seq<Action>, from: int, to: nat, scope: Scope)
    requires from < to < |a|
    ensures Quiet(a, from, to + 1, scope) <==> Quiet(a, from, to, scope) && !Invalidates(a[to], scope)
    ensures NoClear(a, from, to + 1) <==> NoClear(a, from, to) && !a[to].Clear?
  {
  }

  /** Entries that survive the turn stay in order. */
  lemma EntriesKeep(st: State, later: State, a: seq<Action>)
    requires Good(st, a) && st.clock < |a| && later.clock == st.clock + 1
    requires forall k {:trigger later.t.cache[k]} :: k in later.t.cache ==>
               k in st.t.cache && later.t.cache[k] == st.t.cache[k] && !Invalidates(a[st.clock], st.t.cache[k].scope)
    ensures EntriesOk(later, a)
  {
    forall k | k in later.t.cache ensures EntryOk(later, a, k) {
      assert EntryOk(st, a, k) && later.t.cache[k] == st.t.cache[k];
      QuietGrows(a, st.t.cache[k].value.sentAt, st.clock, st.t.cache[k].scope);
    }
  }

  predicate SameRequest(c: Call, d: Call) {
    c.key == d.key && c.scope == d.scope && c.startedAt == d.startedAt
  }

  predicate SameSend(c: Call, d: Call) {
    && c.sentAt == d.sentAt && c.resultKey == d.resultKey && c.resultScope == d.resultScope
    && c.wasRefreshed == d.wasRefreshed
  }

  lemma CallStep(st: State, a: Action, id: Id)
    requires id in st.calls
    ensures id in Step(st, a).calls && SameRequest(st.calls[id], Step(st, a).calls[id])
    ensures Step(st, a).calls[id].sentAt == st.clock || SameSend(st.calls[id], Step(st, a).calls[id])
  {
  }

  lemma FlightsKeep(st: State, later: State, a: seq<Action>)
    requires Good(st, a) && st.clock < |a| && later.clock == st.clock + 1
    requires forall k {:trigger later.t.inFlight[k]} :: k in later.t.inFlight ==>
               k in st.t.inFlight && later.t.inFlight[k] == st.t.inFlight[k]
                   && !Invalidates(a[st.clock], st.t.inFlight[k].scope)
    requires st.calls.Keys <= later.calls.Keys
    requires forall id {:trigger later.calls[id]} :: id in st.calls ==> SameRequest(later.calls[id], st.calls[id])
    ensures FlightsOk(later, a)
  {
    forall k | k in later.t.inFlight ensures FlightOk(later, a, k) {
      assert FlightOk(st, a, k) && later.t.inFlight[k] == st.t.inFlight[k];
      assert SameRequest(later.calls[later.t.inFlight[k].id], st.calls[st.t.inFlight[k].id]);
      QuietGrows(a, st.calls[st.t.inFlight[k].id].startedAt, st.clock, st.t.inFlight[k].scope);
    }
  }

  /** One call that the turn does not touch. */
  lemma CallKeeps(st: State, later: State, a: seq<Action>, id: Id)
    requires Good(st, a) && st.clock < |a| && later.clock == st.clock + 1
    requires id in st.calls && id in later.calls
    requires later.calls[id] == st.calls[id].(phase := later.calls[id].phase)
    requires if a[st.clock].Clear? then later.t.generation == st.t.generation + 1
               else later.t.generation == st.t.generation
    requires forall s {:trigger ScopeGeneration(later.t, s)} :: !a[st.clock].Clear? ==>
               ScopeGeneration(later.t, s) == ScopeGeneration(st.t, s) + if Invalidates(a[st.clock], s) then 1 else 0
    ensures CallOk(later, a, id)
  {
    assert CallOk(st, a, id);
    var c := st.calls[id];
    StretchGrows(a, c.startedAt, st.clock, c.scope);
    StretchGrows(a, c.sentAt, st.clock, c.resultScope);
  }

  lemma InvalidateKeeps(st: State, a: seq<Action>)
    requires Good(st, a) && st.clock < |a| && (a[st.clock].Invalidate? || a[st.clock].Clear?)
    ensures Good(Step(st, a[st.clock]), a)
  {
    var later := Step(st, a[st.clock]);
    EntriesKeep(st, later, a);
    FlightsKeep(st, later, a);
    forall id | id in later.calls ensures CallOk(later, a, id) { CallKeeps(st, later, a, id); }
  }

  predicate IsCallTurn(a: Action) {
    a.Unauthorized? || a.Fail? || a.Resend? || a.Respond? || a.Forget?
  }

  /** A turn that changes neither counters nor entries, and one call at most. */
  lemma CallsKeep(st: State, a: seq<Action>, id: Id)
    requires Good(st, a) && st.clock < |a| && IsCallTurn(a[st.clock]) && a[st.clock].id == id
    ensures CallsOk(Step(st, a[st.clock]), a)
  {
    var later := Step(st, a[st.clock]);
    forall d | d in later.calls ensures CallOk(later, a, d) {
      if later.calls[d] == st.calls[d].(phase := later.calls[d].phase) {
        CallKeeps(st, later, a, d);
      } else {
        ResendKeeps(st, a, d);
      }
    }
  }

  /** The one turn that changes more of a call than its phase. */
  lemma ResendKeeps(st: State, a: seq<Action>, id: Id)
    requires CallsOk(st, a) && st.clock < |a| && id in st.calls
    requires a[st.clock].Resend? && a[st.clock].id == id && st.calls[id].phase == Refreshing
    ensures CallOk(Step(st, a[st.clock]), a, id)
  {
    assert CallOk(st, a, id);
    StretchGrows(a, st.calls[id].startedAt, st.clock, a[st.clock].scope);
  }

  lemma CallTurnKeeps(st: State, a: seq<Action>, id: Id)
    requires Good(st, a) && st.clock < |a| && IsCallTurn(a[st.clock]) && a[st.clock].id == id
    ensures Good(Step(st, a[st.clock]), a)
  {
    CallsKeep(st, a, id);
    FlightsTurn(st, a, id);
    EntriesTurn(st, a, id);
  }

  lemma FlightsTurn(st: State, a: seq<Action>, id: Id)
    requires Good(st, a) && st.clock < |a| && IsCallTurn(a[st.clock]) && a[st.clock].id == id
    ensures FlightsOk(Step(st, a[st.clock]), a)
  {
    var later := Step(st, a[st.clock]);
    forall d | d in st.calls ensures d in later.calls && SameRequest(later.calls[d], st.calls[d]) {
      CallStep(st, a[st.clock], d);
    }
    FlightsShrink(st, a[st.clock]);
    FlightsKeep(st, later, a);
  }

  lemma FlightsShrink(st: State, a: Action)
    requires IsCallTurn(a)
    ensures Step(st, a).clock == st.clock + 1
    ensures forall k :: k in Step(st, a).t.inFlight ==>
              k in st.t.inFlight && Step(st, a).t.inFlight[k] == st.t.inFlight[k]
  {
  }

  lemma EntriesTurn(st: State, a: seq<Action>, id: Id)
    requires Good(st, a) && st.clock < |a| && IsCallTurn(a[st.clock]) && a[st.clock].id == id
    ensures EntriesOk(Step(st, a[st.clock]), a)
  {
    if a[st.clock].Respond? && id in st.calls {
      ResponseKeeps(st, a, id);
    } else {
      EntriesKeep(st, Step(st, a[st.clock]), a);
    }
  }

  /** What a response stores was sent after the last invalidation of its scope. */
  lemma ResponseKeeps(st: State, a: seq<Action>, id: Id)
    requires Good(st, a) && st.clock < |a| && id in st.calls && a[st.clock].Respond? && a[st.clock].id == id
    ensures EntriesOk(Step(st, a[st.clock]), a)
  {
    var later := Step(st, a[st.clock]);
    assert CallOk(st, a, id);
    forall k | k in later.t.cache ensures EntryOk(later, a, k) {
      if k in st.t.cache && later.t.cache[k] == st.t.cache[k] {
        assert EntryOk(st, a, k);
        QuietGrows(a, st.t.cache[k].value.sentAt, st.clock, st.t.cache[k].scope);
      } else {
        QuietGrows(a, st.calls[id].sentAt, st.clock, st.calls[id].resultScope);
      }
    }
  }

  lemma PreparedCounters(t: Tables, a: Action, s: Scope)
    requires a.Request?
    ensures Prepared(t, a).generation == t.generation
    ensures ScopeGeneration(Prepared(t, a), s) == ScopeGeneration(t, s) + if Invalidates(a, s) then 1 else 0
  {
  }

  lemma RequestKeeps(st: State, a: seq<Action>)
    requires Good(st, a) && st.clock < |a| && a[st.clock].Request?
    ensures Good(Step(st, a[st.clock]), a)
  {
    EntriesKeep(st, Step(st, a[st.clock]), a);
    RequestCalls(st, a);
    RequestFlights(st, a);
  }

  lemma RequestCalls(st: State, a: seq<Action>)
    requires Good(st, a) && st.clock < |a| && a[st.clock].Request?
    ensures CallsOk(Step(st, a[st.clock]), a)
  {
    var now := a[st.clock];
    var later := Step(st, now);
    forall s {:trigger ScopeGeneration(later.t, s)}
      ensures ScopeGeneration(later.t, s) == ScopeGeneration(st.t, s) + if Invalidates(now, s) then 1 else 0
    {
      PreparedCounters(st.t, now, s);
    }
    forall id | id in later.calls ensures CallOk(later, a, id) {
      if id in st.calls { CallKeeps(st, later, a, id); }
    }
  }

  lemma RequestFlights(st: State, a: seq<Action>)
    requires Good(st, a) && st.clock < |a| && a[st.clock].Request?
    ensures FlightsOk(Step(st, a[st.clock]), a)
  {
    var later := Step(st, a[st.clock]);
    forall k | k in later.t.inFlight ensures FlightOk(later, a, k) {
      if k in st.t.inFlight && later.t.inFlight[k] == st.t.inFlight[k] {
        assert FlightOk(st, a, k);
        QuietGrows(a, st.calls[st.t.inFlight[k].id].startedAt, st.clock, st.t.inFlight[k].scope);
      }
    }
  }

  lemma {:induction false} HistoryIsGood(h: seq<State>, a: seq<Action>, i: nat)
    requires IsHistory(h, a) && i < |h|
    ensures Good(h[i], a) && h[i].clock == i
  {
    if i > 0 {
      HistoryIsGood(h, a, i - 1);
      assert h[i] == Step(h[i - 1], a[i - 1]);
      StepKeeps(h[i - 1], a);
    }
  }

  lemma StepKeeps(st: State, a: seq<Action>)
    requires Good(st, a) && st.clock < |a|
    ensures Good(Step(st, a[st.clock]), a)
  {
    var now := a[st.clock];
    if now.Request? {
      RequestKeeps(st, a);
    } else if now.Invalidate? || now.Clear? {
      InvalidateKeeps(st, a);
    } else {
      CallTurnKeeps(st, a, now.id);
    }
  }

  // ----- What is stored and served -----

  /** A stored response was sent for its key after the last invalidation of its scope and the last clear. */
  lemma StoredIsFresh(h: seq<State>, a: seq<Action>, i: nat, key: Key)
    requires IsHistory(h, a) && i < |h| && key in h[i].t.cache
    ensures var e := h[i].t.cache[key];
            && e.value.sentAt < i && Sends(a, e.value.sentAt, e.value.id, key, e.scope) && e.value.scope == e.scope
            && forall j :: e.value.sentAt < j < i ==> !Invalidates(a[j], e.scope)
  {
    HistoryIsGood(h, a, i);
    assert EntryOk(h[i], a, key);
  }

  predicate IsSend(a: Action) {
    a.Request? || a.Resend?
  }

  /** Requests for one key are about one scope. */
  ghost predicate KeysNameScopes(a: seq<Action>) {
    forall i, j :: 0 <= i < |a| && 0 <= j < |a| && IsSend(a[i]) && IsSend(a[j]) && a[i].key == a[j].key ==>
      a[i].scope == a[j].scope
  }

  /** A request that is answered from the cache gets a response that was sent for its own key after
      the last invalidation of its scope and the last clear. */
  lemma CachedIsFresh(h: seq<State>, a: seq<Action>, i: nat)
    requires IsHistory(h, a) && i < |a| && a[i].Request? && KeysNameScopes(a)
    ensures var found := Lookup(h[i].t, a[i]);
            found.Cached? ==>
              && found.value.sentAt < i && Sends(a, found.value.sentAt, found.value.id, a[i].key, a[i].scope)
              && forall j :: found.value.sentAt < j < i ==> !Invalidates(a[j], a[i].scope)
  {
    HistoryIsGood(h, a, i);
    if a[i].key in h[i].t.cache {
      assert EntryOk(h[i], a, a[i].key);
    }
  }

  /** A request that joins one in flight joins one that was made for its own key after the last
      invalidation of its scope and the last clear. */
  lemma JoinedIsFresh(h: seq<State>, a: seq<Action>, i: nat)
    requires IsHistory(h, a) && i < |a| && a[i].Request? && KeysNameScopes(a)
    ensures var found := Lookup(h[i].t, a[i]);
            found.Joined? ==>
              && found.id in h[i].calls
              && var c := h[i].calls[found.id];
                 && c.startedAt < i && Sends(a, c.startedAt, found.id, a[i].key, a[i].scope)
                 && (forall j :: c.startedAt < j < i ==> !Invalidates(a[j], a[i].scope))
                 && (!c.wasRefreshed ==> c.sentAt == c.startedAt)
  {
    HistoryIsGood(h, a, i);
    if a[i].key in h[i].t.inFlight {
      assert FlightOk(h[i], a, a[i].key);
      assert CallOk(h[i], a, h[i].t.inFlight[a[i].key].id);
    }
  }

  lemma {:induction false} ClockCounts(h: seq<State>, a: seq<Action>, i: nat)
    requires IsHistory(h, a) && i < |h|
    ensures h[i].clock == i
  {
    if i > 0 {
      ClockCounts(h, a, i - 1);
      assert h[i] == Step(h[i - 1], a[i - 1]);
    }
  }

  /** From turn i on a call keeps its key, and its last send too unless it is sent again. */
  lemma {:induction false} CallGoesOn(h: seq<State>, a: seq<Action>, i: nat, k: nat, id: Id)
    requires IsHistory(h, a) && i <= k < |h| && id in h[i].calls
    ensures id in h[k].calls && SameRequest(h[i].calls[id], h[k].calls[id])
    ensures h[k].calls[id].sentAt >= i || SameSend(h[i].calls[id], h[k].calls[id])
  {
    if i < k {
      CallGoesOn(h, a, i, k - 1, id);
      ClockCounts(h, a, k - 1);
      assert h[k] == Step(h[k - 1], a[k - 1]);
      CallStep(h[k - 1], a[k - 1], id);
    }
  }

  /** A joined call started for the key that is asked for, and nothing has been cleared since. */
  lemma JoinedCall(h: seq<State>, a: seq<Action>, i: nat, id: Id)
    requires IsHistory(h, a) && i < |a| && a[i].Request? && Lookup(h[i].t, a[i]) == Joined(id)
    ensures h[i].clock == i && id in h[i].calls && CallOk(h[i], a, id) && h[i].calls[id].key == a[i].key
    ensures h[i].calls[id].generation == h[i].t.generation
  {
    HistoryIsGood(h, a, i);
    assert FlightOk(h[i], a, a[i].key);
    assert CallOk(h[i], a, id);
    assert NoClear(a, h[i].calls[id].startedAt, i);
  }

  /** Exactly when the join is safe.  The call joined at turn i answers at some later turn k with the response to its
      last send d.  Nothing invalidated the scope of that response between its send and the join
      exactly if it was sent after the join or, at the join, the counter of the scope is still the one
      noted when it was sent: the guard with which responses are stored, but not joined. */
  lemma JoinedIsFreshExactly(h: seq<State>, a: seq<Action>, i: nat, k: nat, id: Id)
    requires IsHistory(h, a) && i < |a| && i <= k < |h|
    requires a[i].Request? && Lookup(h[i].t, a[i]) == Joined(id)
    ensures id in h[i].calls && id in h[k].calls
    ensures var c, d := h[i].calls[id], h[k].calls[id];
            && (d.sentAt >= i || SameSend(c, d))
            && ((forall j :: d.sentAt < j < i ==> !Invalidates(a[j], d.resultScope)) <==>
                d.sentAt >= i || c.resultScopeGeneration == ScopeGeneration(h[i].t, c.resultScope))
  {
    JoinedCall(h, a, i, id);
    CallGoesOn(h, a, i, k, id);
    var c := h[i].calls[id];
    assert (forall j :: c.sentAt < j < i ==> !Invalidates(a[j], c.resultScope)) <==>
        Quiet(a, c.sentAt, i, c.resultScope);
  }

  /** The joiner is answered for another key than it asked for, that is under another identity, exactly
      if the call was sent again with a token that changed the key. */
  lemma JoinedKeyDiffersExactly(h: seq<State>, a: seq<Action>, i: nat, k: nat, id: Id)
    requires IsHistory(h, a) && i < |a| && i <= k < |h|
    requires a[i].Request? && Lookup(h[i].t, a[i]) == Joined(id)
    ensures id in h[k].calls
    ensures var d := h[k].calls[id];
            && Sends(a, d.sentAt, id, d.resultKey, d.resultScope)
            && (d.resultKey != a[i].key <==>
                d.startedAt < d.sentAt && a[d.sentAt].Resend? && a[d.sentAt].key != a[i].key)
  {
    JoinedCall(h, a, i, id);
    CallGoesOn(h, a, i, k, id);
    HistoryIsGood(h, a, k);
    assert CallOk(h[k], a, id);
  }

  // The one gap: a request that was sent again with a refreshed token is still joined under its
  // old key after the scope that its response belongs to has been invalidated.

  const STALE_JOIN := [Request(1, 1, 11, true, true, false, 0), Unauthorized(1), Resend(1, 2, 12), Invalidate(12),
      Request(2, 1, 11, true, true, false, 0)]

  function StaleJoinState(clock: nat): State {
    var c := Call(1, 11, 0, 0, 1, 11, 0, 0, true, false, false, Waiting);
    var resent := c.(resultKey := 2, resultScope := 12, sentAt := 2, wasRefreshed := true);
    var flight := Tables(map[], map[1 := Flight(1, 11)], map[], 0);
    if clock == 0 then State(Tables(map[], map[], map[], 0), map[], 0)
    else if clock == 1 then State(flight, map[1 := c], 1)
    else if clock == 2 then State(flight, map[1 := c.(phase := Refreshing)], 2)
    else if clock == 3 then State(flight, map[1 := resent], 3)
    else State(flight.(generations := map[12 := 1]), map[1 := resent], clock)
  }

  lemma StaleJoinSteps()
    ensures Step(StaleJoinState(0), STALE_JOIN[0]) == StaleJoinState(1)
    ensures Step(StaleJoinState(1), STALE_JOIN[1]) == StaleJoinState(2)
    ensures Step(StaleJoinState(2), STALE_JOIN[2]) == StaleJoinState(3)
  {
  }

  lemma StaleJoinEnds()
    ensures Step(StaleJoinState(3), STALE_JOIN[3]) == StaleJoinState(4)
    ensures Step(StaleJoinState(4), STALE_JOIN[4]) == StaleJoinState(5)
    ensures Lookup(StaleJoinState(4).t, STALE_JOIN[4]) == Joined(1)
  {
  }

  lemma StaleJoinNamesScopes()
    ensures KeysNameScopes(STALE_JOIN)
  {
    assert forall i :: 0 <= i < |STALE_JOIN| && (STALE_JOIN[i].Request? || STALE_JOIN[i].Resend?) ==>
        STALE_JOIN[i].scope == STALE_JOIN[i].key + 10;
  }

  lemma JoinedAfterRefreshCanBeStale() returns (h: seq<State>, a: seq<Action>)
    ensures IsHistory(h, a) && KeysNameScopes(a) && |a| == 5 && a[4].Request?
    ensures Lookup(h[4].t, a[4]) == Joined(1) && 1 in h[4].calls
    ensures h[4].calls[1].sentAt == 2 && a[3] == Invalidate(h[4].calls[1].resultScope)
    ensures h[4].calls[1].resultKey != a[4].key
  {
    StaleJoinSteps();
    StaleJoinEnds();
    StaleJoinNamesScopes();
    a := STALE_JOIN;
    h := [StaleJoinState(0), StaleJoinState(1), StaleJoinState(2), StaleJoinState(3), StaleJoinState(4),
        StaleJoinState(5)];
  }

  // ----- How long a response is served -----

  /** The entry was stored in an earlier turn, when its call answered, for five seconds from then. */
  ghost predicate IsStoredFor(a: seq<Action>, clock: nat, e: Entry) {
    exists r: nat :: IsStoredAt(a, clock, e, r)
  }

  ghost predicate IsStoredAt(a: seq<Action>, clock: nat, e: Entry, r: nat) {
    r < clock && r < |a| && a[r].Respond? && a[r].id == e.value.id && e.expiresAt == a[r].now + 5000
  }

  lemma {:induction false} EntriesAreStored(h: seq<State>, a: seq<Action>, i: nat, key: Key)
    requires IsHistory(h, a) && i < |h| && key in h[i].t.cache
    ensures IsStoredFor(a, i, h[i].t.cache[key])
  {
    assert i > 0 && h[i] == Step(h[i - 1], a[i - 1]);
    ClockCounts(h, a, i - 1);
    if key in h[i - 1].t.cache && h[i].t.cache[key] == h[i - 1].t.cache[key] {
      EntriesAreStored(h, a, i - 1, key);
      var r: nat :| IsStoredAt(a, i - 1, h[i - 1].t.cache[key], r);
      assert IsStoredAt(a, i, h[i].t.cache[key], r);
    } else {
      NewEntryIsStored(h[i - 1], a[i - 1], key);
      assert IsStoredAt(a, i, h[i].t.cache[key], i - 1);
    }
  }

  lemma NewEntryIsStored(st: State, a: Action, key: Key)
    requires key in Step(st, a).t.cache && (key in st.t.cache ==> Step(st, a).t.cache[key] != st.t.cache[key])
    ensures a.Respond? && Step(st, a).t.cache[key].value.id == a.id
    ensures Step(st, a).t.cache[key].expiresAt == a.now + 5000
  {
  }

  /** A response that is served from the cache was stored less than five seconds before. */
  lemma CachedWithinFiveSeconds(h: seq<State>, a: seq<Action>, i: nat)
    requires IsHistory(h, a) && i < |a| && a[i].Request?
    ensures var found := Lookup(h[i].t, a[i]);
            found.Cached? ==>
              exists r :: 0 <= r < i && a[r].Respond? && a[r].id == found.value.id && a[i].now < a[r].now + 5000
  {
    if Lookup(h[i].t, a[i]).Cached? {
      EntriesAreStored(h, a, i, a[i].key);
      var r: nat :| IsStoredAt(a, i, h[i].t.cache[a[i].key], r);
      assert a[r].Respond?;
    }
  }

  // ----- What each turn does -----

  /** A cacheable GET is served from an unexpired entry of its key; without one, and if nothing can abort it, it joins
      the request in flight under its key; every other request is sent. */
  lemma RequestFinds(t: Tables, a: Action)
    requires a.Request?
    ensures var found := Lookup(t, a);
            var isFresh := a.key in t.cache && a.now < t.cache[a.key].expiresAt;
            if !(a.isGet && a.isCacheable) then found == Nothing
            else if isFresh then found == Cached(t.cache[a.key].value)
            else if !a.hasSignal && a.key in t.inFlight then found == Joined(t.inFlight[a.key].id)
            else found == Nothing
  {
  }

  /** Entries and flights of the scope are gone, its counter has moved on, and the rest is as before. */
  ghost predicate DropsScope(t: Tables, later: Tables, scope: Scope) {
    && (forall k :: k in later.cache <==> k in t.cache && t.cache[k].scope != scope)
    && (forall k :: k in later.cache ==> later.cache[k] == t.cache[k])
    && (forall k :: k in later.inFlight <==> k in t.inFlight && t.inFlight[k].scope != scope)
    && (forall k :: k in later.inFlight ==> later.inFlight[k] == t.inFlight[k])
    && later.generations == t.generations[scope := (if scope in t.generations then t.generations[scope] else 0) + 1]
    && later.generation == t.generation
  }

  lemma InvalidationDropsScope(t: Tables, scope: Scope)
    ensures DropsScope(t, InvalidateScope(t, scope), scope)
  {
  }

  lemma InvalidateAndClear(st: State, scope: Scope)
    ensures var later := Step(st, Invalidate(scope));
            DropsScope(st.t, later.t, scope) && later.calls == st.calls && later.clock == st.clock + 1
    ensures Step(st, Clear) == State(Tables(map[], map[], map[], st.t.generation + 1), st.calls, st.clock + 1)
  {
  }

  /** A request that is no GET drops its scope first; a GET drops the expired entry of its key, and is registered as in
      flight if it is sent and can be joined. */
  lemma RequestChangesTables(st: State, a: Action)
    requires a.Request? && a.id !in st.calls
    ensures var later := Step(st, a).t;
            if !a.isGet then DropsScope(st.t, later, a.scope)
            else
              && later.generations == st.t.generations && later.generation == st.t.generation
              && later.cache == (if a.isCacheable && a.key in st.t.cache && st.t.cache[a.key].expiresAt <= a.now then
                   st.t.cache - {a.key} else st.t.cache)
              && later.inFlight == (if a.isCacheable && !a.hasSignal && Lookup(st.t, a) == Nothing then
                   st.t.inFlight[a.key := Flight(a.id, a.scope)] else st.t.inFlight)
  {
    if !a.isGet { InvalidationDropsScope(st.t, a.scope); }
  }

  /** What is remembered of a request that is sent: the counters as they are then. */
  lemma RequestIsSent(st: State, a: Action)
    requires a.Request? && a.id !in st.calls
    ensures var later := Step(st, a);
            if Lookup(st.t, a) != Nothing then later.calls == st.calls
            else
              && later.calls.Keys == st.calls.Keys + {a.id}
                   && (forall id :: id in st.calls ==> later.calls[id] == st.calls[id])
              && var c := later.calls[a.id];
                 && c.key == a.key && c.scope == a.scope && c.resultKey == a.key && c.resultScope == a.scope
                 && c.generation == later.t.generation && c.startedAt == st.clock && c.sentAt == st.clock
                 && c.resultScopeGeneration ==
                      (if a.scope in later.t.generations then later.t.generations[a.scope] else 0)
                 && c.isCacheable == (a.isGet && a.isCacheable) && c.hasSignal == a.hasSignal && !c.wasRefreshed
                 && c.phase == Waiting
  {
  }

  /** The response of a waiting call is stored under the key and scope of its last send for five seconds, if it may be
      cached, was not aborted, and neither the cache nor the scope has been invalidated since; the call is settled. */
  lemma ResponseIsStored(st: State, a: Action)
    requires a.Respond? && a.id in st.calls && st.calls[a.id].phase == Waiting
    ensures var c, later := st.calls[a.id], Step(st, a);
            var counter := if c.resultScope in st.t.generations then st.t.generations[c.resultScope] else 0;
            && later.calls == st.calls[a.id := c.(phase := Settled)] && later.t == st.t.(cache := later.t.cache)
            && later.t.cache ==
                 if c.isCacheable && !(c.hasSignal && a.isAborted) && c.generation == st.t.generation
                    && c.resultScopeGeneration == counter then
                   st.t.cache[c.resultKey := Entry(a.now + 5000, Value(a.id, c.sentAt, c.resultKey, c.resultScope),
                                                   c.resultScope)]
                 else st.t.cache
  {
  }

  /** A refused token is refreshed once; the request is then sent again under the key and scope of the new one. */
  lemma TokenIsRefreshed(st: State, id: Id, key: Key, scope: Scope)
    requires id in st.calls
    ensures var c, later := st.calls[id], Step(st, Unauthorized(id));
            && later.t == st.t
            && later.calls == if c.phase != Waiting then st.calls
                              else st.calls[id := c.(phase := if c.wasRefreshed then Settled else Refreshing)]
    ensures var c, later := st.calls[id], Step(st, Resend(id, key, scope));
            && later.t == st.t
            && later.calls == if c.phase != Refreshing then st.calls
                 else st.calls[id := c.(resultKey := key, resultScope := scope, sentAt := st.clock,
                   wasRefreshed := true,
                   phase := Waiting,
                   resultScopeGeneration := if scope in st.t.generations then st.t.generations[scope] else 0)]
  {
  }

  /** A call that has settled leaves the flights, unless another has taken its place there. */
  lemma FlightIsForgotten(st: State, id: Id)
    requires id in st.calls
    ensures var c, later := st.calls[id], Step(st, Forget(id));
            && later.calls == st.calls && later.t == st.t.(inFlight := later.t.inFlight)
            && later.t.inFlight ==
                 if c.phase == Settled && c.key in st.t.inFlight && st.t.inFlight[c.key].id == id then
                   st.t.inFlight - {c.key}
                 else st.t.inFlight
    ensures Step(st, Fail(id)).t == st.t && Step(st, Fail(id)).calls == st.calls[id := st.calls[id].(phase := Settled)]
  {
  }

  // ----- The tables themselves -----

  class ClientCache {
    var getCache: map<Key, Entry>
    var getInFlight: map<Key, Flight>
    var scopeGenerations: map<Scope, nat>
    var cacheGeneration: nat

    constructor ()
      ensures Content() == Tables(map[], map[], map[], 0)
    {
      getCache, getInFlight, scopeGenerations, cacheGeneration := map[], map[], map[], 0;
    }

    function Content(): Tables
      reads this
    {
      Tables(getCache, getInFlight, scopeGenerations, cacheGeneration)
    }

    method InvalidateApiCache(scope: Scope)
      modifies this
      ensures Content() == InvalidateScope(old(Content()), scope)
    {
      scopeGenerations := scopeGenerations[scope :=
          (if scope in scopeGenerations then scopeGenerations[scope] else 0) + 1];
      DropCached(scope);
      DropFlights(scope);
    }

    method DropCached(scope: Scope)
      modifies this`getCache
      ensures getCache == map k | k in old(getCache) && old(getCache)[k].scope != scope :: old(getCache)[k]
    {
      var left := getCache.Keys;
      while left != {}
        invariant left <= getCache.Keys <= old(getCache).Keys
        invariant forall k :: k in getCache <==> k in old(getCache) && (k in left || old(getCache)[k].scope != scope)
        invariant forall k :: k in getCache ==> getCache[k] == old(getCache)[k]
        decreases |left|
      {
        var k :| k in left;
        left := left - {k};
        if getCache[k].scope == scope { getCache := getCache - {k}; }
      }
    }

    method DropFlights(scope: Scope)
      modifies this`getInFlight
      ensures getInFlight == map k | k in old(getInFlight) && old(getInFlight)[k].scope != scope :: old(getInFlight)[k]
    {
      var left := getInFlight.Keys;
      while left != {}
        invariant left <= getInFlight.Keys <= old(getInFlight).Keys
        invariant forall k :: k in getInFlight <==>
                    k in old(getInFlight) && (k in left || old(getInFlight)[k].scope != scope)
        invariant forall k :: k in getInFlight ==> getInFlight[k] == old(getInFlight)[k]
        decreases |left|
      {
        var k :| k in left;
        left := left - {k};
        if getInFlight[k].scope == scope { getInFlight := getInFlight - {k}; }
      }
    }

    method ClearApiCache()
      modifies this
      ensures Content() == ClearAll(old(Content()))
    {
      cacheGeneration := cacheGeneration + 1;
      getCache, getInFlight, scopeGenerations := map[], map[], map[];
    }

    /** The synchronous part of apiRequest, up to sending the request. */
    method BeginRequest(id: Id, key: Key, scope: Scope, isGet: bool, isCacheable: bool, hasSignal: bool,
          now: int) returns (found: Found)
      modifies this
      ensures var a := Request(id, key, scope, isGet, isCacheable, hasSignal, now);
              && found == Lookup(old(Content()), a)
              && Content() == var t := Prepared(old(Content()), a);
                            if found == Nothing && isGet && isCacheable && !hasSignal then
                              t.(inFlight := t.inFlight[key := Flight(id, scope)]) else t
    {
      if !isGet {
        InvalidateApiCache(scope);
      }
      var cacheableGet := isGet && isCacheable;
      if cacheableGet {
        if key in getCache {
          if getCache[key].expiresAt > now {
            return Cached(getCache[key].value);
          }
          getCache := getCache - {key};
        }
        if !hasSignal {
          if key in getInFlight {
            return Joined(getInFlight[key].id);
          }
        }
      }
      if cacheableGet && !hasSignal {
        getInFlight := getInFlight[key := Flight(id, scope)];
      }
      return Nothing;
    }

    /** What the response of a call does to the tables. */
    method EndRequest(id: Id, c: Call, now: int, isAborted: bool)
      modifies this
      ensures Content() == if MayStore(old(Content()), c, isAborted) then Store(old(Content()), id, c, now)
                else old(Content())
    {
      if c.isCacheable && !(c.hasSignal && isAborted) && c.generation == cacheGeneration
         && c.resultScopeGeneration ==
              (if c.resultScope in scopeGenerations then scopeGenerations[c.resultScope] else 0) {
        getCache := getCache[c.resultKey :=
            Entry(now + GET_CACHE_TTL_MS, Value(id, c.sentAt, c.resultKey, c.resultScope), c.resultScope)];
      }
    }
  }
}
