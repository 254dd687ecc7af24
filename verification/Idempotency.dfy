// Keyed creation of runs and agents: any number of requests, interleaved between their reads and
// their commits, share the table of idempotency records.

module Idempotency {
  import opened Base

  type Id = nat

  datatype Kind = RunKind | AgentKind

  /** fingerprint: the hash of method, path and payload. */
  datatype Request = Request(kind: Kind, tenant: string, key: Option<string>, fingerprint: string)

  datatype Response = Response(resource: Id, requestId: Id)

  datatype Record = Record(fingerprint: string, response: Response)

  /** A created run or agent, with the header that its request carried. */
  datatype Resource = Resource(kind: Kind, tenant: string, key: Option<string>, createdBy: Id)

  datatype Reply = Success(response: Response) | Error(code: string)

  datatype Phase =
    | Arrived
    | Prepared              // no record was found
    | Conflicted            // the commit broke a constraint and was rolled back
    | Replied(reply: Reply)

  datatype State = State(
    records: map<(string, string), Record>,
    resources: map<Id, Resource>,
    requests: map<Id, (Request, Phase)>)

  /** An empty header counts as none. */
  predicate IsKeyed(r: Request) {
    r.key.Some? && r.key.value != ""
  }

  function Slot(r: Request): (string, string)
    requires IsKeyed(r)
  {
    (r.tenant, r.key.value)
  }

  datatype Replay = NoRecord | Reused | Found(response: Response)

  function ReplayOrReject(records: map<(string, string), Record>, r: Request): Replay {
    if !IsKeyed(r) || Slot(r) !in records then NoRecord
    else if records[Slot(r)].fingerprint != r.fingerprint then Reused
    else Found(records[Slot(r)].response)
  }

  datatype Action =
    | Arrive(q: Id, request: Request)
    | Read(q: Id)
    | Refuse(q: Id, code: string)                        // not found, not published, over quota
    | Commit(q: Id, newId: Id, breaksConstraint: bool)   // breaksConstraint: some other constraint
    | ReadAgain(q: Id)

  function SetPhase(st: State, q: Id, p: Phase): State
    requires q in st.requests
  {
    st.(requests := st.requests[q := (st.requests[q].0, p)])
  }

  /** The commit of the new row together with its record. */
  function Created(st: State, q: Id, newId: Id): State
    requires q in st.requests
  {
    var r, response := st.requests[q].0, Response(newId, q);
    SetPhase(st, q, Replied(Success(response))).(
      resources := st.resources[newId := Resource(r.kind, r.tenant, r.key, q)],
      records := if IsKeyed(r) then st.records[Slot(r) := Record(r.fingerprint, response)] else st.records)
  }

  function Step(st: State, a: Action): State {
    if a.Arrive? then
      if a.q in st.requests then st else st.(requests := st.requests[a.q := (a.request, Arrived)])
    else if a.q !in st.requests then st
    else
      var (r, phase) := st.requests[a.q];
      match a
      case Arrive(_, _) => st
      case Read(q) =>
        if phase != Arrived then st
        else
          (match ReplayOrReject(st.records, r)
           case NoRecord => SetPhase(st, q, Prepared)
           case Reused => SetPhase(st, q, Replied(Error("IDEMPOTENCY_KEY_REUSED")))
           case Found(response) => SetPhase(st, q, Replied(Success(response))))
      case Refuse(q, code) => if phase != Prepared then st else SetPhase(st, q, Replied(Error(code)))
      case Commit(q, newId, breaksConstraint) =>
        if phase != Prepared then st
        else if breaksConstraint || newId in st.resources || (IsKeyed(r) && Slot(r) in st.records) then
          SetPhase(st, q, Conflicted)
        else Created(st, q, newId)
      case ReadAgain(q) =>
        if phase != Conflicted then st
        else
          (match ReplayOrReject(st.records, r)
           case NoRecord => SetPhase(st, q, Replied(Error("CONFLICT")))
           case Reused => SetPhase(st, q, Replied(Error("IDEMPOTENCY_KEY_REUSED")))
           case Found(response) => SetPhase(st, q, Replied(Success(response))))
  }

  // ----- The invariant -----

  /** A keyed resource is the one that the record of its key answers with. */
  ghost predicate ResourceOk(st: State, x: Id)
    requires x in st.resources
  {
    var r := st.resources[x];
    r.key.Some? && r.key.value != "" ==>
      (r.tenant, r.key.value) in st.records && st.records[(r.tenant, r.key.value)].response == Response(x, r.createdBy)
  }

  /** A keyed request that succeeded was answered from the record of its key. */
  ghost predicate ReplyOk(st: State, q: Id)
    requires q in st.requests
  {
    var (r, phase) := st.requests[q];
    phase.Replied? && phase.reply.Success? ==>
      && phase.reply.response.resource in st.resources
      && (IsKeyed(r) ==> Slot(r) in st.records && st.records[Slot(r)] == Record(r.fingerprint, phase.reply.response))
      && (!IsKeyed(r) ==> phase.reply.response.requestId == q)
  }

  /** A record answers with a resource that was created for its key. */
  ghost predicate RecordOk(st: State, slot: (string, string))
    requires slot in st.records
  {
    var x := st.records[slot].response.resource;
    x in st.resources && st.resources[x].tenant == slot.0 && st.resources[x].key == Some(slot.1) && slot.1 != ""
  }

  ghost predicate Good(st: State) {
    && (forall x {:trigger st.resources[x]} :: x in st.resources ==> ResourceOk(st, x))
    && (forall q {:trigger st.requests[q]} :: q in st.requests ==> ReplyOk(st, q))
    && (forall s {:trigger st.records[s]} :: s in st.records ==> RecordOk(st, s))
  }

  lemma CreatedKeeps(st: State, q: Id, newId: Id)
    requires Good(st) && q in st.requests && st.requests[q].1 == Prepared && newId !in st.resources
    requires IsKeyed(st.requests[q].0) ==> Slot(st.requests[q].0) !in st.records
    ensures Good(Created(st, q, newId))
  {
    var later := Created(st, q, newId);
    forall x | x in later.resources ensures ResourceOk(later, x) {
      if x != newId { assert ResourceOk(st, x); }
    }
    forall p | p in later.requests ensures ReplyOk(later, p) {
      if p != q { assert ReplyOk(st, p); }
    }
    forall s | s in later.records ensures RecordOk(later, s) {
      if s in st.records { assert RecordOk(st, s); }
    }
  }

  lemma SetPhaseKeeps(st: State, q: Id, p: Phase)
    requires Good(st) && q in st.requests && ReplyOk(SetPhase(st, q, p), q)
    ensures Good(SetPhase(st, q, p))
  {
    var later := SetPhase(st, q, p);
    forall t | t in later.requests ensures ReplyOk(later, t) {
      if t != q { assert ReplyOk(st, t); }
    }
    forall x | x in later.resources ensures ResourceOk(later, x) { assert ResourceOk(st, x); }
    forall s | s in later.records ensures RecordOk(later, s) { assert RecordOk(st, s); }
  }

  lemma StepKeeps(st: State, a: Action)
    requires Good(st)
    ensures Good(Step(st, a))
  {
    if a.q in st.requests && !a.Arrive? {
      var (r, phase) := st.requests[a.q];
      if a.Read? || a.ReadAgain? {
        if IsKeyed(r) && Slot(r) in st.records { assert RecordOk(st, Slot(r)); }
        if Step(st, a) != st { SetPhaseKeeps(st, a.q, Step(st, a).requests[a.q].1); }
      } else if a.Refuse? {
        if phase == Prepared { SetPhaseKeeps(st, a.q, Replied(Error(a.code))); }
      } else if phase == Prepared {
        if Step(st, a) == SetPhase(st, a.q, Conflicted) { SetPhaseKeeps(st, a.q, Conflicted); }
        else { CreatedKeeps(st, a.q, a.newId); }
      }
    } else if a.Arrive? && a.q !in st.requests {
      var later := Step(st, a);
      forall t | t in later.requests ensures ReplyOk(later, t) {
        if t != a.q { assert ReplyOk(st, t); }
      }
      forall x | x in later.resources ensures ResourceOk(later, x) { assert ResourceOk(st, x); }
      forall s | s in later.records ensures RecordOk(later, s) { assert RecordOk(st, s); }
    }
  }

  // ----- Histories -----

  ghost predicate IsHistory(h: seq<State>, a: seq<Action>) {
    |h| == |a| + 1 && h[0] == State(map[], map[], map[])
        && forall i {:trigger a[i]} :: 0 <= i < |a| ==> h[i + 1] == Step(h[i], a[i])
  }

  lemma {:induction false} HistoryIsGood(h: seq<State>, a: seq<Action>, i: nat)
    requires IsHistory(h, a) && i < |h|
    ensures Good(h[i])
  {
    if i > 0 {
      HistoryIsGood(h, a, i - 1);
      StepKeeps(h[i - 1], a[i - 1]);
    }
  }

  predicate IsFor(r: Resource, tenant: string, key: string) {
    r.tenant == tenant && r.key == Some(key)
  }

  predicate Succeeded(st: State, q: Id, tenant: string, key: string) {
    q in st.requests && st.requests[q].1.Replied? && st.requests[q].1.reply.Success?
    && st.requests[q].0.tenant == tenant && st.requests[q].0.key == Some(key)
  }

  /** At most one run or agent is ever committed for a tenant and a non-empty key. */
  lemma AtMostOneResource(h: seq<State>, a: seq<Action>, i: nat, x: Id, y: Id, tenant: string, key: string)
    requires IsHistory(h, a) && i < |h| && key != ""
    requires x in h[i].resources && y in h[i].resources && IsFor(h[i].resources[x], tenant, key)
               && IsFor(h[i].resources[y], tenant, key)
    ensures x == y
  {
    HistoryIsGood(h, a, i);
    assert ResourceOk(h[i], x) && ResourceOk(h[i], y);
  }

  /** Requests of one tenant with one non-empty key that succeed get the same response, about the
      one resource, and had the same fingerprint. */
  lemma SuccessesAgree(h: seq<State>, a: seq<Action>, i: nat, p: Id, q: Id, tenant: string, key: string)
    requires IsHistory(h, a) && i < |h| && key != ""
    requires Succeeded(h[i], p, tenant, key) && Succeeded(h[i], q, tenant, key)
    ensures h[i].requests[p].1.reply == h[i].requests[q].1.reply
    ensures h[i].requests[p].0.fingerprint == h[i].requests[q].0.fingerprint
    ensures var x := h[i].requests[p].1.reply.response.resource;
            x in h[i].resources && IsFor(h[i].resources[x], tenant, key)
  {
    HistoryIsGood(h, a, i);
    assert ReplyOk(h[i], p) && ReplyOk(h[i], q);
    assert RecordOk(h[i], (tenant, key));
  }

  ghost predicate Grows(st: State, later: State) {
    && st.records.Keys <= later.records.Keys && st.requests.Keys <= later.requests.Keys
    && (forall s {:trigger later.records[s]} :: s in st.records ==> later.records[s] == st.records[s])
    && (forall q {:trigger later.requests[q]} :: q in st.requests ==>
          later.requests[q].0 == st.requests[q].0
          && (st.requests[q].1.Replied? ==> later.requests[q] == st.requests[q]))
  }

  /** Records and replies are final. */
  lemma {:induction false} RecordsStay(h: seq<State>, a: seq<Action>, i: nat, j: nat)
    requires IsHistory(h, a) && i <= j < |h|
    ensures Grows(h[i], h[j])
    decreases j
  {
    if i < j {
      RecordsStay(h, a, i, j - 1);
      StepGrows(h[j - 1], a[j - 1]);
      GrowsTransitive(h[i], h[j - 1], h[j]);
    }
  }

  lemma GrowsTransitive(a: State, b: State, c: State)
    requires Grows(a, b) && Grows(b, c)
    ensures Grows(a, c)
  {
    forall s | s in a.records ensures s in c.records && c.records[s] == a.records[s] {
      assert s in b.records && b.records[s] == a.records[s];
    }
    forall q | q in a.requests
      ensures q in c.requests && c.requests[q].0 == a.requests[q].0
                && (a.requests[q].1.Replied? ==> c.requests[q] == a.requests[q])
    {
      assert q in b.requests && b.requests[q].0 == a.requests[q].0;
    }
  }

  lemma StepGrows(st: State, a: Action)
    ensures Grows(st, Step(st, a))
  {
    if a.q in st.requests {
      assert a.Arrive? || Step(st, a) == st || !st.requests[a.q].1.Replied?;
    }
  }

  /** The answer that a record holds for a request. */
  function Answer(record: Record, r: Request): Reply {
    if record.fingerprint == r.fingerprint then Success(record.response) else Error("IDEMPOTENCY_KEY_REUSED")
  }

  /** A request that has not been answered otherwise than by its record. */
  predicate FollowsRecord(st: State, q: Id, slot: (string, string), record: Record) {
    q in st.requests && IsKeyed(st.requests[q].0) && Slot(st.requests[q].0) == slot ==>
      st.requests[q].1 == Arrived || st.requests[q].1 == Replied(Answer(record, st.requests[q].0))
  }

  lemma StepFollowsRecord(st: State, a: Action, q: Id, slot: (string, string))
    requires slot in st.records && FollowsRecord(st, q, slot, st.records[slot])
    ensures FollowsRecord(Step(st, a), q, slot, st.records[slot])
  {
  }

  /** Once a key has its record, every request with that key that arrives is answered from it, with
      success if and only if the fingerprints agree, and creates nothing. */
  lemma {:induction false} LaterRequestsReplay(h: seq<State>, a: seq<Action>, i: nat, j: nat, q: Id,
        slot: (string, string))
    requires IsHistory(h, a) && i <= j < |h| && q !in h[i].requests && slot in h[i].records
    ensures FollowsRecord(h[j], q, slot, h[i].records[slot])
    decreases j
  {
    if i < j {
      LaterRequestsReplay(h, a, i, j - 1, q, slot);
      RecordsStay(h, a, i, j - 1);
      assert h[j - 1].records[slot] == h[i].records[slot];
      StepFollowsRecord(h[j - 1], a[j - 1], q, slot);
    }
  }

  /** An empty header is no key: requests that carry it create one resource each. */
  lemma EmptyKeyIsNoKey(tenant: string) returns (h: seq<State>, a: seq<Action>)
    ensures IsHistory(h, a)
    ensures var last := h[|h| - 1];
            1 in last.resources && 2 in last.resources && IsFor(last.resources[1], tenant, "")
                && IsFor(last.resources[2], tenant, "")
    ensures Succeeded(h[|h| - 1], 10, tenant, "") && Succeeded(h[|h| - 1], 20, tenant, "")
    ensures h[|h| - 1].requests[10].1.reply != h[|h| - 1].requests[20].1.reply
  {
    var r := Request(AgentKind, tenant, Some(""), "f");
    FirstCreates(r);
    SecondCreates(r);
    a := [Arrive(10, r), Read(10), Commit(10, 1, false), Arrive(20, r), Read(20), Commit(20, 2, false)];
    var s3 := AfterOne(r);
    h := [State(map[], map[], map[]), State(map[], map[], map[10 := (r, Arrived)]),
        State(map[], map[], map[10 := (r, Prepared)]), s3, WithSecond(r, Arrived), WithSecond(r, Prepared),
        Created(WithSecond(r, Prepared), 20, 2)];
  }

  function AfterOne(r: Request): State {
    State(map[], map[1 := Resource(r.kind, r.tenant, r.key, 10)], map[10 := (r, Replied(Success(Response(1, 10))))])
  }

  function WithSecond(r: Request, p: Phase): State {
    AfterOne(r).(requests := AfterOne(r).requests[20 := (r, p)])
  }

  lemma FirstCreates(r: Request)
    requires !IsKeyed(r)
    ensures var s1, s2 := State(map[], map[], map[10 := (r, Arrived)]), State(map[], map[], map[10 := (r, Prepared)]);
            && Step(State(map[], map[], map[]), Arrive(10, r)) == s1 && Step(s1, Read(10)) == s2
            && Step(s2, Commit(10, 1, false)) == AfterOne(r)
  {
  }

  lemma SecondCreates(r: Request)
    requires !IsKeyed(r)
    ensures Step(AfterOne(r), Arrive(20, r)) == WithSecond(r, Arrived)
    ensures Step(WithSecond(r, Arrived), Read(20)) == WithSecond(r, Prepared)
    ensures Step(WithSecond(r, Prepared), Commit(20, 2, false)) == Created(WithSecond(r, Prepared), 20, 2)
  {
  }

  predicate IsResourceFor(st: State, x: Id, tenant: string, key: string) {
    x in st.resources && IsFor(st.resources[x], tenant, key)
  }

  ghost predicate HasOneResource(st: State, tenant: string, key: string) {
    forall x, y :: IsResourceFor(st, x, tenant, key) && IsResourceFor(st, y, tenant, key) ==> x == y
  }

  /** The last state of every history has at most one resource for the tenant and the key. */
  ghost predicate AlwaysOneResource(tenant: string, key: string) {
    forall h: seq<State>, a: seq<Action> :: IsHistory(h, a) ==> HasOneResource(h[|h| - 1], tenant, key)
  }

  lemma OneResourceAtTheEnd(h: seq<State>, a: seq<Action>, tenant: string, key: string)
    requires IsHistory(h, a) && key != ""
    ensures HasOneResource(h[|h| - 1], tenant, key)
  {
    var st := h[|h| - 1];
    forall x, y | IsResourceFor(st, x, tenant, key) && IsResourceFor(st, y, tenant, key) ensures x == y {
      AtMostOneResource(h, a, |h| - 1, x, y, tenant, key);
    }
  }

  /** So a key names one resource, whatever happens, if and only if it is not empty. */
  lemma OneResourceExactlyForKeys(tenant: string, key: string)
    ensures AlwaysOneResource(tenant, key) <==> key != ""
  {
    if key != "" {
      forall h: seq<State>, a: seq<Action> | IsHistory(h, a) ensures HasOneResource(h[|h| - 1], tenant, key) {
        OneResourceAtTheEnd(h, a, tenant, key);
      }
    } else {
      var h, a := EmptyKeyIsNoKey(tenant);
      assert IsResourceFor(h[|h| - 1], 1, tenant, "") && IsResourceFor(h[|h| - 1], 2, tenant, "");
      assert !HasOneResource(h[|h| - 1], tenant, "");
    }
  }

  // ----- What each step of a request does -----

  /** The slot in the table of records, for a key that is not empty. */
  ghost predicate HasSlot(r: Request, tenant: string, key: string) {
    r.tenant == tenant && r.key == Some(key) && key != ""
  }

  ghost predicate OnlyPhaseChanges(st: State, later: State, q: Id, p: Phase)
    requires q in st.requests
  {
    later == st.(requests := st.requests[q := (st.requests[q].0, p)])
  }

  /** A request is answered from the record of its key, or refused if that has another fingerprint; without a record,
      or without a key, it goes on, and after a conflict it is refused as one. */
  lemma ReadAnswers(st: State, q: Id, tenant: string, key: string)
    requires q in st.requests && HasSlot(st.requests[q].0, tenant, key)
    ensures var r, slot := st.requests[q].0, (tenant, key);
            var isFirst, isSecond := st.requests[q].1 == Arrived, st.requests[q].1 == Conflicted;
            var read := if isFirst then Step(st, Read(q)) else Step(st, ReadAgain(q));
            && (isFirst || isSecond ==>
                  if slot !in st.records then
                    OnlyPhaseChanges(st, read, q, if isFirst then Prepared else Replied(Error("CONFLICT")))
                  else if st.records[slot].fingerprint != r.fingerprint then
                    OnlyPhaseChanges(st, read, q, Replied(Error("IDEMPOTENCY_KEY_REUSED")))
                  else OnlyPhaseChanges(st, read, q, Replied(Success(st.records[slot].response))))
            && (!isFirst ==> Step(st, Read(q)) == st) && (!isSecond ==> Step(st, ReadAgain(q)) == st)
  {
  }

  /** Without a key nothing is looked up. */
  lemma ReadWithoutKey(st: State, q: Id)
    requires q in st.requests && (st.requests[q].0.key == None || st.requests[q].0.key == Some(""))
    ensures st.requests[q].1 == Arrived ==> OnlyPhaseChanges(st, Step(st, Read(q)), q, Prepared)
    ensures st.requests[q].1 == Conflicted ==>
              OnlyPhaseChanges(st, Step(st, ReadAgain(q)), q, Replied(Error("CONFLICT")))
  {
  }

  /** A prepared request creates its resource, with the record of its key if it has one, exactly if neither that nor
      another constraint stands in its way. */
  lemma CommitCreates(st: State, q: Id, newId: Id, breaksConstraint: bool)
    requires q in st.requests
    ensures var (r, phase), later := st.requests[q], Step(st, Commit(q, newId, breaksConstraint));
            var isKeyed := r.key.Some? && r.key.value != "";
            var isFree := !breaksConstraint && newId !in st.resources
                          && (isKeyed ==> (r.tenant, r.key.value) !in st.records);
            if phase != Prepared then later == st
            else if !isFree then OnlyPhaseChanges(st, later, q, Conflicted)
            else
              && later.requests == st.requests[q := (r, Replied(Success(Response(newId, q))))]
              && later.resources == st.resources[newId := Resource(r.kind, r.tenant, r.key, q)]
              && later.records == if isKeyed then
                   st.records[(r.tenant, r.key.value) := Record(r.fingerprint, Response(newId, q))]
                 else st.records
  {
  }

  lemma ArriveAndRefuse(st: State, q: Id, request: Request, code: string)
    ensures Step(st, Arrive(q, request)) ==
            if q in st.requests then st else st.(requests := st.requests[q := (request, Arrived)])
    ensures q in st.requests ==>
              if st.requests[q].1 == Prepared then
                OnlyPhaseChanges(st, Step(st, Refuse(q, code)), q, Replied(Error(code)))
              else Step(st, Refuse(q, code)) == st
  {
  }

  /** So a prepared request with a key gets its own resource and record, in every history, if no record of the key is
      stored by then and no other constraint breaks. */
  lemma FirstKeyedRequestCreates(h: seq<State>, a: seq<Action>, i: nat, q: Id, newId: Id, tenant: string, key: string)
    requires IsHistory(h, a) && i < |a| && a[i] == Commit(q, newId, false)
    requires q in h[i].requests && HasSlot(h[i].requests[q].0, tenant, key) && h[i].requests[q].1 == Prepared
    requires newId !in h[i].resources && (tenant, key) !in h[i].records
    ensures newId in h[i + 1].resources && IsFor(h[i + 1].resources[newId], tenant, key)
    ensures Succeeded(h[i + 1], q, tenant, key) && h[i + 1].requests[q].1.reply.response == Response(newId, q)
    ensures (tenant, key) in h[i + 1].records
              && h[i + 1].records[(tenant, key)] == Record(h[i].requests[q].0.fingerprint, Response(newId, q))
  {
    assert h[i + 1] == Step(h[i], a[i]);
    CommitCreates(h[i], q, newId, false);
  }

  // ----- The table of records -----

  class RecordTable {
    var records: map<(string, string), Record>

    constructor ()
      ensures records == map[]
    {
      records := map[];
    }

    /** replay_or_reject: None lets the request go on. */
    method ReplayOrRejectKey(tenant: string, key: Option<string>, fingerprint: string) returns (reply: Option<Reply>)
      ensures reply == match ReplayOrReject(records, Request(RunKind, tenant, key, fingerprint))
                       case NoRecord => None
                       case Reused => Some(Error("IDEMPOTENCY_KEY_REUSED"))
                       case Found(response) => Some(Success(response))
    {
      if key.None? || key.value == "" {
        return None;
      }
      if (tenant, key.value) !in records {
        return None;
      }
      var record := records[(tenant, key.value)];
      if record.fingerprint != fingerprint {
        return Some(Error("IDEMPOTENCY_KEY_REUSED"));
      }
      return Some(Success(record.response));
    }

    /** persist_response and the commit: false if the unique constraint refuses the record. */
    method PersistResponse(tenant: string, key: Option<string>, fingerprint: string,
          response: Response) returns (committed: bool)
      modifies this
      ensures var r := Request(RunKind, tenant, key, fingerprint);
              && committed == !(IsKeyed(r) && Slot(r) in old(records))
              && records == if IsKeyed(r) && committed then old(records)[Slot(r) := Record(fingerprint, response)]
                   else old(records)
    {
      if key.None? || key.value == "" {
        return true;
      }
      if (tenant, key.value) in records {
        return false;
      }
      records := records[(tenant, key.value) := Record(fingerprint, response)];
      return true;
    }

    /** A request that no other request interrupts is answered from the record of its key, old or
        new, whenever nothing else stands in its way. */
    method Create(tenant: string, key: Option<string>, fingerprint: string, response: Response) returns (reply: Reply)
      modifies this
      ensures var r := Request(RunKind, tenant, key, fingerprint);
              IsKeyed(r) ==>
                && Slot(r) in records && reply == Answer(records[Slot(r)], r)
                && (forall s :: s in old(records) ==> s in records && records[s] == old(records)[s])
                && (Slot(r) !in old(records) ==> reply == Success(response))
    {
      var replay := ReplayOrRejectKey(tenant, key, fingerprint);
      if replay.Some? {
        return replay.value;
      }
      var committed := PersistResponse(tenant, key, fingerprint, response);
      return if committed then Success(response) else Error("CONFLICT");
    }
  }
}
