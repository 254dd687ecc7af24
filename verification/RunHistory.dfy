// Whole histories of the run protocol: any number of API, worker, recovery and expiry commits in
// any order.

module RunHistory {
  import opened Base
  import opened ToolCalls
  import opened RunProtocol

  /** The states before, between and after the actions, from any state in order. */
  ghost predicate IsHistory(h: seq<Db>, a: seq<Action>) {
    |h| == |a| + 1 && Consistent(h[0]) && forall i {:trigger a[i]} :: 0 <= i < |a| ==> h[i + 1] == Step(h[i], a[i])
  }

  const EMPTY := Db(map[], {}, map[], map[], {}, {}, {})

  lemma EmptyIsConsistent()
    ensures Consistent(EMPTY)
  {
  }

  /** Every commit is consistent, and later ones grow out of earlier ones. */
  lemma {:induction false} HistoryKeeps(h: seq<Db>, a: seq<Action>, i: nat, j: nat)
    requires IsHistory(h, a) && i <= j < |h|
    ensures Consistent(h[i]) && Keeps(h[i], h[j])
    decreases j
  {
    if j == 0 {
      KeepsSelf(h[0]);
    } else if i == j {
      HistoryKeeps(h, a, i - 1, j - 1);
      StepKeeps(h[j - 1], a[j - 1]);
      KeepsSelf(h[j]);
    } else {
      HistoryKeeps(h, a, i, j - 1);
      StepKeeps(h[j - 1], a[j - 1]);
      KeepsTransitive(h[i], h[j - 1], h[j]);
    }
  }

  // ----- Runs -----

  /** finished_at is set exactly when the status is final; within an attempt a final status never
      changes, and an attempt that is left never comes back. */
  lemma FinalStatusStays(h: seq<Db>, a: seq<Action>, i: nat, j: nat, r: Id)
    requires IsHistory(h, a) && i <= j < |h| && r in h[i].runs
    ensures r in h[j].runs && (h[j].runs[r].finished <==> IsOver(h[j].runs[r].status))
    ensures h[j].runs[r].attempt == h[i].runs[r].attempt && IsOver(h[i].runs[r].status) ==>
              h[j].runs[r].status == h[i].runs[r].status
    ensures h[j].runs[r].attempt != h[i].runs[r].attempt ==>
              forall k :: j <= k < |h| ==> r in h[k].runs && h[k].runs[r].attempt != h[i].runs[r].attempt
  {
    HistoryKeeps(h, a, i, j);
    assert RunEvolves(h[i], h[j], r);
    if h[j].runs[r].attempt != h[i].runs[r].attempt {
      forall k | j <= k < |h|
        ensures r in h[k].runs && h[k].runs[r].attempt != h[i].runs[r].attempt
      {
        AttemptNeverReturns(h, a, i, j, k, r);
      }
    }
  }

  lemma AttemptNeverReturns(h: seq<Db>, a: seq<Action>, i: nat, j: nat, k: nat, r: Id)
    requires IsHistory(h, a) && i <= j <= k < |h| && r in h[i].runs && r in h[j].runs
    requires h[j].runs[r].attempt != h[i].runs[r].attempt
    ensures r in h[k].runs && h[k].runs[r].attempt != h[i].runs[r].attempt
  {
    HistoryKeeps(h, a, i, j);
    HistoryKeeps(h, a, j, k);
    assert RunEvolves(h[j], h[k], r);
    assert h[i].runs[r].attempt in h[i].attempts;
  }

  /** The worker changes no run row but the claimed one, keeps its attempt, and decides nothing. */
  ghost predicate ByWorker(db: Db, later: Db, r: Id) {
    && r in db.runs && r in later.runs && later.runs == db.runs[r := later.runs[r]]
         && later.runs[r].attempt == db.runs[r].attempt
    && later.attempts == db.attempts && later.approved == db.approved && later.overwritten == db.overwritten
  }

  lemma {:induction false} RunToolNodesByWorker(db: Db, r: Id, nodes: seq<ToolNode>, ending: Ending)
    requires r in db.runs
    ensures var w := RunToolNodes(db, r, nodes, ending);
            w.Some? ==> ByWorker(db, w.value.0, r)
    decreases |nodes|
  {
    assert db.runs == db.runs[r := db.runs[r]];
    if nodes != [] {
      var w := RunToolNode(db, r, nodes[0]);
      assert w.Some? ==> OnlyCallsChange(db, w.value.0);
      if w.Some? && w.value.1.NodeDone? { RunToolNodesByWorker(w.value.0, r, nodes[1..], ending); }
    }
  }

  lemma {:induction false} RunCreatedCallsByWorker(db: Db, r: Id, todo: seq<(Id, Option<Answers>)>)
    requires r in db.runs
    ensures var w := RunCreatedCalls(db, todo);
            w.Some? ==> ByWorker(db, w.value.0, r)
    decreases |todo|
  {
    assert db.runs == db.runs[r := db.runs[r]];
    if todo != [] {
      var (c, a) := todo[0];
      if c !in db.calls || !db.calls[c].row.status.Created? {
        RunCreatedCallsByWorker(db, r, todo[1..]);
      } else if a.Some? {
        assert OnlyCallsChange(db, ExecuteCall(db, c, a.value));
        RunCreatedCallsByWorker(ExecuteCall(db, c, a.value), r, todo[1..]);
      }
    }
  }

  lemma FinishRunByWorker(db: Db, ending: Ending, r: Id, todo: seq<(Id, Option<Answers>)>, before: Db)
    requires ByWorker(before, db, r)
    ensures ByWorker(before, FinishRun(db, ending, r, todo, before), r)
  {
    assert before.runs == before.runs[r := before.runs[r]];
    var saved := SetRun(db, r, db.runs[r].(checkpoint := db.runs[r].checkpoint + 1));
    RunCreatedCallsByWorker(saved, r, todo);
  }

  lemma WorkByWorker(db: Db, claimed: Db, r: Id, nodes: seq<ToolNode>, ending: Ending, todo: seq<(Id, Option<Answers>)>)
    requires ByWorker(db, claimed, r)
    ensures var w := RunToolNodes(claimed, r, nodes, ending);
            w.Some? && r in w.value.0.runs ==> ByWorker(db, FinishRun(w.value.0, w.value.1, r, todo, db), r)
  {
    RunToolNodesByWorker(claimed, r, nodes, ending);
    var w := RunToolNodes(claimed, r, nodes, ending);
    if w.Some? { FinishRunByWorker(w.value.0, w.value.1, r, todo, db); }
  }

  lemma SetRunByWorker(db: Db, later: Db, r: Id, row: Run)
    requires ByWorker(db, later, r) && row.attempt == db.runs[r].attempt
    ensures ByWorker(db, SetRun(later, r, row), r)
  {
  }

  lemma SelfByWorker(db: Db, r: Id)
    requires r in db.runs
    ensures ByWorker(db, db, r)
  {
    assert db.runs == db.runs[r := db.runs[r]];
  }

  lemma ProcessRunByWorker(db: Db, r: Id, saved: Option<int>, hasAgent: bool, nodes: seq<ToolNode>, ending: Ending,
        todo: seq<(Id, Option<Answers>)>)
    requires r in db.runs
    ensures ByWorker(db, ProcessRun(db, r, saved, hasAgent, nodes, ending, todo), r)
  {
    var run := db.runs[r];
    var row := Claimed(run, saved);
    SelfByWorker(db, r);
    SetRunByWorker(db, db, r, row);
    WorkByWorker(db, SetRun(db, r, row), r, nodes, ending, todo);
  }

  /** Only a replay or a restore of a run that is over or waiting changes its attempt, to an
      identifier that was never used, and then the run is accepted again. */
  lemma AttemptChangesOnlyByReopening(db: Db, a: Action, r: Id)
    requires Consistent(db) && r in db.runs
    ensures r in Step(db, a).runs
    ensures var later := Step(db, a).runs[r];
            later.attempt != db.runs[r].attempt ==>
              && (a.Replay? || a.Restore?) && a.r == r && later.attempt == a.newId && a.newId !in db.attempts
              && (IsOver(db.runs[r].status) || db.runs[r].status == WaitingApproval)
              && later.status == Accepted && !later.finished
              && later.checkpoint == (if a.Restore? then a.checkpoint else db.runs[r].checkpoint)
  {
    assert db.runs[r].attempt in db.attempts;
    if a.Process? && a.r in db.runs {
      ProcessRunByWorker(db, a.r, a.saved, a.hasAgent, a.nodes, a.ending, a.todo);
    }
  }

  // ----- Approvals -----

  lemma ApprovalOverTime(h: seq<Db>, a: seq<Action>, i: nat, j: nat, c: Id)
    requires IsHistory(h, a) && i <= j < |h| && c in h[i].approvals
    ensures c in h[j].approvals && ApprovalEvolves(h[i], h[j], c)
    ensures h[j].approvals[c].status == Pending <==> !h[j].approvals[c].isUsed
  {
    HistoryKeeps(h, a, i, j);
    assert c in h[j].approvals && ApprovalEvolves(h[i], h[j], c);
    assert CallOk(h[j], c);
  }

  /** An approval is pending exactly while it is unused, and leaves pending at most once. */
  lemma ApprovalIsUsedOnce(h: seq<Db>, a: seq<Action>, i: nat, j: nat, c: Id)
    requires IsHistory(h, a) && i <= j < |a| && c in h[i].approvals
    ensures c in h[i + 1].approvals && c in h[j].approvals && c in h[j + 1].approvals
    ensures h[j].approvals[c].status == Pending <==> !h[j].approvals[c].isUsed
    ensures h[i].approvals[c].status == Pending != h[i + 1].approvals[c].status
              && h[j].approvals[c].status == Pending != h[j + 1].approvals[c].status
            ==> i == j
  {
    ApprovalOverTime(h, a, i, i + 1, c);
    ApprovalOverTime(h, a, i, j, c);
    ApprovalOverTime(h, a, j, j + 1, c);
    if i < j { ApprovalOverTime(h, a, i + 1, j, c); }
  }

  /** The calls of which an approval has been decided in favour. */
  predicate Approves(db: Db, a: Action, c: Id) {
    a.Decide? && a.c == c && a.approve && a.isAllowed && c in db.approvals
    && db.approvals[c].status == Pending && !db.approvals[c].isUsed && a.now < db.approvals[c].expiresAt
  }

  /** The late expiry of an approval that another session has approved in the meantime. */
  predicate Overwrites(db: Db, a: Action, c: Id) {
    a.DecideTooLate? && a.c == c && c in db.approvals && db.approvals[c].status == Approved
        && db.approvals[c].expiresAt <= a.now
  }

  /** The records tell what happened: a call is approved by one decision on its pending, unexpired
      approval, and overwritten by a late expiry. */
  lemma RecordsAreTrue(db: Db, a: Action, c: Id)
    requires Consistent(db)
    ensures c in Step(db, a).approved && c !in db.approved ==> Approves(db, a, c)
    ensures c in Step(db, a).overwritten <==> c in db.overwritten || Overwrites(db, a, c)
  {
    if a.Process? && a.r in db.runs {
      ProcessRunByWorker(db, a.r, a.saved, a.hasAgent, a.nodes, a.ending, a.todo);
    }
  }

  /** A call that was created waiting has been released only after its approval was granted in its
      time; it is executed only while the row still says approved, unless a late expiry overwrote it. */
  lemma ReleasedOnlyByApproval(h: seq<Db>, a: seq<Action>, j: nat, c: Id)
    requires IsHistory(h, a) && h[0] == EMPTY && j < |h|
    requires c in h[j].approvals && c in h[j].calls && MayRun(h[j].calls[c].row.status)
    ensures exists k :: 0 <= k < j && Approves(h[k], a[k], c)
    ensures h[j].approvals[c].status == Approved || exists k :: 0 <= k < j && Overwrites(h[k], a[k], c)
    ensures c in h[j].unbacked ==> exists k :: 0 <= k < j && Overwrites(h[k], a[k], c)
  {
    HistoryKeeps(h, a, 0, j);
    assert CallOk(h[j], c);
    forall k | 0 <= k < |a| ensures AreRecorded(h, a, k, c) { RecordsGrow(h, a, k, c); }
    RecordedBefore(h, a, j, c);
  }

  /** What an action adds to the records. */
  ghost predicate AreRecorded(h: seq<Db>, a: seq<Action>, j: nat, c: Id)
    requires j < |a| && |h| == |a| + 1
  {
    && (c in h[j + 1].approved && c !in h[j].approved ==> Approves(h[j], a[j], c))
    && (c in h[j + 1].overwritten <==> c in h[j].overwritten || Overwrites(h[j], a[j], c))
  }

  lemma RecordsGrow(h: seq<Db>, a: seq<Action>, j: nat, c: Id)
    requires IsHistory(h, a) && j < |a|
    ensures AreRecorded(h, a, j, c)
  {
    HistoryKeeps(h, a, j, j);
    RecordsAreTrue(h[j], a[j], c);
  }

  ghost predicate ApprovedBy(h: seq<Db>, a: seq<Action>, j: nat, c: Id) {
    exists k :: 0 <= k < j && k < |h| && k < |a| && Approves(h[k], a[k], c)
  }

  ghost predicate OverwrittenBy(h: seq<Db>, a: seq<Action>, j: nat, c: Id) {
    exists k :: 0 <= k < j && k < |h| && k < |a| && Overwrites(h[k], a[k], c)
  }

  lemma OneActionLater(h: seq<Db>, a: seq<Action>, j: nat, c: Id)
    requires j < |a| && |h| == |a| + 1
    ensures ApprovedBy(h, a, j, c) || Approves(h[j], a[j], c) ==> ApprovedBy(h, a, j + 1, c)
    ensures OverwrittenBy(h, a, j, c) || Overwrites(h[j], a[j], c) ==> OverwrittenBy(h, a, j + 1, c)
  {
  }

  lemma {:induction false} RecordedBefore(h: seq<Db>, a: seq<Action>, j: nat, c: Id)
    requires |h| == |a| + 1 && j < |h| && c !in h[0].approved && c !in h[0].overwritten
    requires forall k :: 0 <= k < |a| ==> AreRecorded(h, a, k, c)
    ensures c in h[j].approved ==> ApprovedBy(h, a, j, c)
    ensures c in h[j].overwritten ==> OverwrittenBy(h, a, j, c)
  {
    if j > 0 {
      RecordedBefore(h, a, j - 1, c);
      assert AreRecorded(h, a, j - 1, c);
      OneActionLater(h, a, j - 1, c);
    }
  }

  // ----- When execution is not backed by an approval -----

  /** A call that the worker would execute although its approval does not say approved. */
  predicate IsExposed(db: Db, c: Id) {
    c in db.calls && c in db.approvals && db.approvals[c].status != Approved
    && !IsTerminal(db.calls[c].row.status) && db.calls[c].row.status != PendingApproval
  }

  /** A call becomes exposed exactly when a decision that comes too late overwrites the approval of
      a call that was released and has not been executed. */
  lemma ExposedExactlyByLateExpiry(db: Db, a: Action, c: Id)
    requires Consistent(db) && !IsExposed(db, c)
    ensures IsExposed(Step(db, a), c) <==> Overwrites(db, a, c) && !IsTerminal(db.calls[c].row.status)
  {
    RecordsAreTrue(db, a, c);
    if IsExposed(Step(db, a), c) {
      StepKeeps(db, a);
      ExposedWasOverwritten(db, Step(db, a), c);
    } else if Overwrites(db, a, c) {
      assert c in db.calls && CallOk(db, c);
    }
  }

  lemma ExposedWasOverwritten(db: Db, later: Db, c: Id)
    requires Consistent(db) && Keeps(db, later) && !IsExposed(db, c) && IsExposed(later, c)
    requires c in later.approved ==> c in db.calls
    ensures c in db.calls && !IsTerminal(db.calls[c].row.status)
    ensures c in later.overwritten && c !in db.overwritten
  {
    assert CallOk(later, c);
    assert CallOk(db, c) && CallEvolves(db, later, c);
  }

  // A history in which that happens: the call is approved in time, a session that read the
  // approval before that finds that it has run out and writes so, and the worker executes the call.

  const WAITING_CALL := ToolCall(1, "key", Call(PendingApproval, 1, None, None, false, false))
  const RELEASED_CALL := ToolCall(1, "key", Call(Created, 1, None, None, false, false))
  const NEW_RUN := Run(Accepted, 10, 0, false, 7)

  function AwaitingDecision(): Db {
    Db(map[1 := NEW_RUN], {10}, map[2 := WAITING_CALL], map[2 := Approval(1, Pending, false, 100, 0, 7)], {}, {}, {})
  }

  function LateExpired(): Db {
    Db(map[1 := NEW_RUN], {10}, map[2 := RELEASED_CALL], map[2 := Approval(1, ApprovalStatus.Expired, true, 100, 0, 7)],
        {2}, {2}, {})
  }

  lemma ReachesAwaiting()
    ensures Step(Step(EMPTY, CreateRun(1, 10, 7)), CreateToolCall(2, 1, "key", true, 100, 0)) == AwaitingDecision()
  {
    assert Step(EMPTY, CreateRun(1, 10, 7)) == Db(map[1 := NEW_RUN], {10}, map[], map[], {}, {}, {});
  }

  lemma ReachesLateExpired()
    ensures var approve := Decide(2, true, 50, true, NEW_RUN);
            var approved := Step(AwaitingDecision(), approve);
            && Approves(AwaitingDecision(), approve, 2) && Overwrites(approved, DecideTooLate(2, 100), 2)
            && Step(approved, DecideTooLate(2, 100)) == LateExpired()
  {
    var approved := Step(AwaitingDecision(), Decide(2, true, 50, true, NEW_RUN));
    assert approved == Decided(AwaitingDecision(), 2, true);
  }

  lemma ApprovalLostByLateExpiry(output: Json) returns (h: seq<Db>, a: seq<Action>)
    ensures IsHistory(h, a) && h[0] == EMPTY && |a| == 5
    ensures Approves(h[2], a[2], 2) && Overwrites(h[3], a[3], 2) && IsExposed(h[4], 2)
    ensures 2 in h[5].unbacked && 2 in h[5].calls && h[5].calls[2].row.status == ToolCalls.Succeeded
    ensures 2 in h[5].approvals && h[5].approvals[2].status == ApprovalStatus.Expired
  {
    EmptyIsConsistent();
    ReachesAwaiting();
    ReachesLateExpired();
    var answers := Answers(Definition(true, "deploy", true, "high", Limits(1, {})), [], (k: int) => Output(output));
    var process := Process(1, None, true, [], WorkflowDone, [(2, Some(answers))]);
    ExposedCallRuns(LateExpired(), answers, output);
    a := [CreateRun(1, 10, 7), CreateToolCall(2, 1, "key", true, 100, 0), Decide(2, true, 50, true, NEW_RUN),
        DecideTooLate(2, 100), process];
    h := [EMPTY, Step(EMPTY, a[0]), AwaitingDecision(), Step(AwaitingDecision(), a[2]), LateExpired(),
        Step(LateExpired(), process)];
  }

  lemma ExposedCallRuns(db: Db, answers: Answers, output: Json)
    requires db.runs == map[1 := NEW_RUN] && db.calls == map[2 := RELEASED_CALL]
    requires db.approvals == map[2 := Approval(1, ApprovalStatus.Expired, true, 100, 0, 7)]
    requires answers == Answers(Definition(true, "deploy", true, "high", Limits(1, {})), [], answers.results)
               && answers.results(1) == Output(output)
    ensures var later := Step(db, Process(1, None, true, [], WorkflowDone, [(2, Some(answers))]));
            && 1 in later.runs && later.runs[1].status == Completed && 2 in later.unbacked && 2 in later.calls
            && later.calls[2].row.status == ToolCalls.Succeeded && later.approvals == db.approvals
  {
    var todo := [(2, Some(answers))];
    var claimed := SetRun(db, 1, Run(Running, 10, 0, false, 7));
    var saved := SetRun(claimed, 1, Run(Running, 10, 1, false, 7));
    assert !HasPending(saved, 1);
    assert todo[0].0 == 2;
    assert ListsCreated(saved, 1, todo);
    assert Outcome(saved, 2, answers) == Returned(Call(ToolCalls.Succeeded, 1, Some(output), None, true, true));
    var after := ExecuteCall(saved, 2, answers);
    assert todo[1..] == [];
    assert RunCreatedCalls(after, []) == Some((after, true));
    assert RunCreatedCalls(saved, todo) == Some((after, true));
    assert FinishRun(claimed, WorkflowDone, 1, todo, db) == Move(after, 1, Completed);
    assert ProcessRun(db, 1, None, true, [], WorkflowDone, todo) == Move(after, 1, Completed);
  }

  // ----- Calls -----

  /** A settled call never changes again, whoever approves, replays or restores, so the calls with
      one key come to one result.  At a commit a call is settled, waiting, about to start or left
      executing. */
  lemma KeyRunsToOneResult(h: seq<Db>, a: seq<Action>, i: nat, j: nat, c: Id, d: Id)
    requires IsHistory(h, a) && i <= j < |h| && c in h[i].calls && d in h[j].calls
    requires h[j].calls[d].key == h[i].calls[c].key && IsTerminal(h[i].calls[c].row.status)
    ensures d == c && h[j].calls[d] == h[i].calls[c]
    ensures forall x :: x in h[j].calls ==> IsRowOk(h[j].calls[x].row)
  {
    HistoryKeeps(h, a, i, j);
    assert CallEvolves(h[i], h[j], c);
    forall x | x in h[j].calls ensures IsRowOk(h[j].calls[x].row) {
      assert CallOk(h[j], x);
    }
  }

  predicate HasMalformed(nodes: seq<ToolNode>) {
    exists i :: 0 <= i < |nodes| && nodes[i].answers.definition.limits.Malformed?
  }

  predicate IsExecuting(db: Db, c: Id) {
    c in db.calls && db.calls[c].row.status == Executing
  }

  /** The node passes call c, not yet settled, to execute_tool_call. */
  ghost predicate Executes(db: Db, r: Id, n: ToolNode, c: Id)
    requires r in db.runs
  {
    var (found, d) := FindOrAdd(db, r, n);
    RunToolNode(db, r, n).Some? && d == c && found.calls[c].row.status != PendingApproval
    && !IsTerminal(found.calls[c].row.status)
  }

  /** That raises an error for a manifest that cannot be read. */
  ghost predicate ThrowsOn(db: Db, r: Id, n: ToolNode, c: Id)
    requires r in db.runs
  {
    var d := n.answers.definition;
    Executes(db, r, n, c) && d.isAllowed && !IsDenied(n.answers.policies, d) && d.limits.Malformed?
  }

  /** The first tool node that is not done is one on which call c meets a malformed manifest. */
  ghost predicate MeetsMalformed(db: Db, r: Id, nodes: seq<ToolNode>, c: Id)
    requires r in db.runs
    decreases |nodes|
  {
    nodes != [] &&
    var w := RunToolNode(db, r, nodes[0]);
    if w.Some? && w.value.1.NodeDone? then r in w.value.0.runs && MeetsMalformed(w.value.0, r, nodes[1..], c)
    else ThrowsOn(db, r, nodes[0], c)
  }

  lemma ToolNodeSettles(db: Db, r: Id, n: ToolNode, c: Id)
    requires Consistent(db) && r in db.runs && !IsExecuting(db, c)
    ensures var w := RunToolNode(db, r, n);
            && (w.Some? ==> (IsExecuting(w.value.0, c) <==> ThrowsOn(db, r, n, c)))
            && (ThrowsOn(db, r, n, c) ==> w.Some? && w.value.1.NodeFails?)
  {
    if (exists d :: IsCallWith(db, n.key, d)) || n.newId !in db.calls {
      FindOrAddKeeps(db, r, n);
      var (found, d) := FindOrAdd(db, r, n);
      assert CallOk(found, d);
      ExecutionEndsTerminal(found.calls[d].row, n.answers.definition, n.answers.policies, n.answers.results);
    }
  }

  /** Tool nodes leave a call executing if and only if the first that is not done meets a malformed
      manifest on it, and then the workflow fails. */
  lemma {:induction false} ToolNodesSettle(db: Db, r: Id, nodes: seq<ToolNode>, ending: Ending, c: Id)
    requires Consistent(db) && r in db.runs && !IsExecuting(db, c)
    ensures var w := RunToolNodes(db, r, nodes, ending);
            && (w.Some? && IsExecuting(w.value.0, c) <==> MeetsMalformed(db, r, nodes, c))
            && (MeetsMalformed(db, r, nodes, c) ==> w.value.1 == WorkflowFailed(true) && HasMalformed(nodes))
    decreases |nodes|
  {
    if nodes != [] {
      ToolNodeSettles(db, r, nodes[0], c);
      RunToolNodeKeeps(db, r, nodes[0]);
      var w := RunToolNode(db, r, nodes[0]);
      if w.Some? && w.value.1.NodeDone? { ToolNodesSettle(w.value.0, r, nodes[1..], ending, c); }
    }
  }

  ghost predicate IsListed(todo: seq<(Id, Option<Answers>)>, c: Id) {
    exists i :: 0 <= i < |todo| && todo[i].0 == c
  }

  /** Executing the created calls settles every call it touches. */
  lemma {:induction false} CreatedCallsSettle(db: Db, todo: seq<(Id, Option<Answers>)>, c: Id)
    requires Consistent(db)
    ensures var w := RunCreatedCalls(db, todo);
            w.Some? ==>
              && (c in w.value.0.calls <==> c in db.calls)
              && (c in db.calls ==> w.value.0.calls[c] == db.calls[c] || IsTerminal(w.value.0.calls[c].row.status))
    decreases |todo|
  {
    if todo != [] {
      var (d, a) := todo[0];
      if d !in db.calls || !db.calls[d].row.status.Created? {
        CreatedCallsSettle(db, todo[1..], c);
      } else if a.Some? {
        CreatedCallSettles(db, d, a.value);
        CreatedCallsSettle(ExecuteCall(db, d, a.value), todo[1..], c);
      }
    }
  }

  lemma CreatedCallSettles(db: Db, d: Id, a: Answers)
    requires Consistent(db) && d in db.calls && db.calls[d].row.status.Created?
    ensures Consistent(ExecuteCall(db, d, a))
              && ExecuteCall(db, d, a).calls == db.calls[d := ExecuteCall(db, d, a).calls[d]]
    ensures !Outcome(db, d, a).Threw? ==> IsTerminal(ExecuteCall(db, d, a).calls[d].row.status)
  {
    ExecuteCallKeeps(db, d, a);
    assert CallOk(db, d);
    ExecutionEndsTerminal(db.calls[d].row, a.definition, a.policies, a.results);
  }

  /** If it succeeds, the calls on the list are settled. */
  lemma {:induction false} ListedCallsSettle(db: Db, todo: seq<(Id, Option<Answers>)>, c: Id)
    requires Consistent(db) && c in db.calls && db.calls[c].row.status.Created? && IsListed(todo, c)
    ensures var w := RunCreatedCalls(db, todo);
            w.Some? && w.value.1 ==> c in w.value.0.calls && IsTerminal(w.value.0.calls[c].row.status)
    decreases |todo|
  {
    var (d, a) := todo[0];
    if d == c {
      if a.Some? {
        CreatedCallSettles(db, d, a.value);
        CreatedCallsSettle(ExecuteCall(db, d, a.value), todo[1..], c);
      }
    } else {
      ListedLater(todo, c);
      if d !in db.calls || !db.calls[d].row.status.Created? {
        ListedCallsSettle(db, todo[1..], c);
      } else if a.Some? {
        CreatedCallSettles(db, d, a.value);
        ListedCallsSettle(ExecuteCall(db, d, a.value), todo[1..], c);
      }
    }
  }

  lemma ListedLater(todo: seq<(Id, Option<Answers>)>, c: Id)
    requires IsListed(todo, c) && todo[0].0 != c
    ensures IsListed(todo[1..], c)
  {
    var i :| 0 <= i < |todo| && todo[i].0 == c;
    assert todo[1..][i - 1] == todo[i];
  }

  lemma CompletionSettles(db: Db, ending: Ending, r: Id, todo: seq<(Id, Option<Answers>)>, before: Db, c: Id)
    requires Consistent(db) && r in db.runs && !IsOver(db.runs[r].status) && r in before.runs
               && before.runs[r].status != Completed
    ensures var later := FinishRun(db, ending, r, todo, before);
            r in later.runs && later.runs[r].status == Completed && c in later.calls && later.calls[c].run == r ==>
              ending.WorkflowDone? && (IsTerminal(later.calls[c].row.status) || IsExecuting(db, c))
  {
    var saved := SetRun(db, r, db.runs[r].(checkpoint := db.runs[r].checkpoint + 1));
    KeepsSelf(db);
    SavedKeeps(db, db, r);
    CreatedCallsSettle(saved, todo, c);
    if c in db.calls {
      assert CallOk(db, c);
      if db.calls[c].row.status.Created? && IsListed(todo, c) { ListedCallsSettle(saved, todo, c); }
    }
  }

  ghost predicate AsksFor(nodes: seq<ToolNode>, key: string) {
    exists n :: n in nodes && n.key == key
  }

  /** A tool node leaves the calls with other keys alone. */
  lemma ToolNodeLeaves(db: Db, r: Id, n: ToolNode, c: Id)
    requires r in db.runs && c in db.calls && n.key != db.calls[c].key
    ensures var w := RunToolNode(db, r, n);
            w.Some? ==> c in w.value.0.calls && w.value.0.calls[c] == db.calls[c]
  {
  }

  lemma {:induction false} ToolNodesLeave(db: Db, r: Id, nodes: seq<ToolNode>, ending: Ending, c: Id)
    requires r in db.runs && c in db.calls && !AsksFor(nodes, db.calls[c].key)
    ensures var w := RunToolNodes(db, r, nodes, ending);
            w.Some? ==> c in w.value.0.calls && w.value.0.calls[c] == db.calls[c]
    decreases |nodes|
  {
    if nodes != [] {
      assert nodes[0] in nodes;
      ToolNodeLeaves(db, r, nodes[0], c);
      var w := RunToolNode(db, r, nodes[0]);
      if w.Some? && w.value.1.NodeDone? && r in w.value.0.runs {
        assert forall n :: n in nodes[1..] ==> n in nodes;
        ToolNodesLeave(w.value.0, r, nodes[1..], ending, c);
      }
    }
  }

  /** A tool node that is done has settled the one call with its key. */
  lemma ToolNodeIsDone(db: Db, r: Id, n: ToolNode, c: Id)
    requires Consistent(db) && r in db.runs && c in db.calls && db.calls[c].key == n.key
    ensures var w := RunToolNode(db, r, n);
            w.Some? && w.value.1.NodeDone? ==> c in w.value.0.calls && IsTerminal(w.value.0.calls[c].row.status)
  {
    assert IsCallWith(db, n.key, c);
    assert FindOrAdd(db, r, n) == (db, c);
  }

  lemma {:induction false} ToolNodesAreDone(db: Db, r: Id, nodes: seq<ToolNode>, ending: Ending, c: Id)
    requires Consistent(db) && r in db.runs && c in db.calls && AsksFor(nodes, db.calls[c].key)
    ensures var w := RunToolNodes(db, r, nodes, ending);
            w.Some? && w.value.1.WorkflowDone? ==> c in w.value.0.calls && IsTerminal(w.value.0.calls[c].row.status)
    decreases |nodes|
  {
    var w := RunToolNode(db, r, nodes[0]);
    RunToolNodeKeeps(db, r, nodes[0]);
    if w.Some? && w.value.1.NodeDone? && r in w.value.0.runs {
      if nodes[0].key == db.calls[c].key {
        ToolNodeIsDone(db, r, nodes[0], c);
        SettledByTheRest(w.value.0, r, nodes[1..], ending, c);
      } else {
        ToolNodeLeaves(db, r, nodes[0], c);
        AsksLater(nodes, db.calls[c].key);
        ToolNodesAreDone(w.value.0, r, nodes[1..], ending, c);
      }
    }
  }

  lemma AsksLater(nodes: seq<ToolNode>, key: string)
    requires AsksFor(nodes, key) && nodes[0].key != key
    ensures AsksFor(nodes[1..], key)
  {
    var n :| n in nodes && n.key == key;
    assert n in nodes[1..];
  }

  lemma SettledByTheRest(db: Db, r: Id, nodes: seq<ToolNode>, ending: Ending, c: Id)
    requires Consistent(db) && r in db.runs && c in db.calls && IsTerminal(db.calls[c].row.status)
    ensures var w := RunToolNodes(db, r, nodes, ending);
            w.Some? ==> c in w.value.0.calls && IsTerminal(w.value.0.calls[c].row.status)
  {
    RunToolNodesKeeps(db, r, nodes, ending);
    var w := RunToolNodes(db, r, nodes, ending);
    if w.Some? { assert CallEvolves(db, w.value.0, c); }
  }

  /** Executing the created calls leaves the others alone. */
  lemma {:induction false} CreatedCallsLeave(db: Db, todo: seq<(Id, Option<Answers>)>, c: Id)
    requires c in db.calls && !db.calls[c].row.status.Created?
    ensures var w := RunCreatedCalls(db, todo);
            w.Some? ==> c in w.value.0.calls && w.value.0.calls[c] == db.calls[c]
    decreases |todo|
  {
    if todo != [] {
      var (d, a) := todo[0];
      if d !in db.calls || !db.calls[d].row.status.Created? {
        CreatedCallsLeave(db, todo[1..], c);
      } else if a.Some? {
        CreatedCallsLeave(ExecuteCall(db, d, a.value), todo[1..], c);
      }
    }
  }

  /** Completing a run leaves a call alone that is not one of the created ones. */
  lemma CompletionLeaves(db: Db, r: Id, todo: seq<(Id, Option<Answers>)>, before: Db, c: Id)
    requires r in db.runs && c in db.calls && !db.calls[c].row.status.Created?
    requires r in before.runs && before.runs[r].status != Completed
    ensures var later := FinishRun(db, WorkflowDone, r, todo, before);
            r in later.runs && later.runs[r].status == Completed ==> c in later.calls && later.calls[c] == db.calls[c]
  {
    CreatedCallsLeave(SetRun(db, r, db.runs[r].(checkpoint := db.runs[r].checkpoint + 1)), todo, c);
  }

  /** The commit that completes a run is the worker's, and leaves every call of the run settled, with exactly
      one exception: a call that was executing before it and that no node of the workflow asks for. */
  lemma CompletedRunIsSettled(db: Db, a: Action, r: Id, c: Id)
    requires Consistent(db) && r in db.runs && db.runs[r].status != Completed
    requires r in Step(db, a).runs && Step(db, a).runs[r].status == Completed
    requires c in Step(db, a).calls && Step(db, a).calls[c].run == r
    ensures a.Process? && a.r == r
    ensures !IsTerminal(Step(db, a).calls[c].row.status) <==>
            IsExecuting(db, c) && !AsksFor(a.nodes, db.calls[c].key)
  {
    CompletedByWorker(db, a, r);
    var row := Claimed(db.runs[r], a.saved);
    var claimed := SetRun(db, r, row);
    assert !db.runs[r].finished;
    SetRunKeeps(db, r, row);
    RunToolNodesKeeps(claimed, r, a.nodes, a.ending);
    var w := RunToolNodes(claimed, r, a.nodes, a.ending);
    CompletionSettles(w.value.0, w.value.1, r, a.todo, db, c);
    if !IsExecuting(db, c) {
      ToolNodesSettle(claimed, r, a.nodes, a.ending, c);
    } else {
      ExecutingCallAtCompletion(claimed, r, a.nodes, a.ending, a.todo, db, c);
    }
  }

  lemma ExecutingCallAtCompletion(db: Db, r: Id, nodes: seq<ToolNode>, ending: Ending, todo: seq<(Id, Option<Answers>)>,
        before: Db, c: Id)
    requires Consistent(db) && r in db.runs && IsExecuting(db, c) && r in before.runs
               && before.runs[r].status != Completed
    ensures var w := RunToolNodes(db, r, nodes, ending);
            w.Some? && w.value.1.WorkflowDone? && r in w.value.0.runs ==>
              var later := FinishRun(w.value.0, WorkflowDone, r, todo, before);
              r in later.runs && later.runs[r].status == Completed ==>
                c in later.calls && (IsTerminal(later.calls[c].row.status) <==> AsksFor(nodes, db.calls[c].key))
  {
    var w := RunToolNodes(db, r, nodes, ending);
    if AsksFor(nodes, db.calls[c].key) {
      ToolNodesAreDone(db, r, nodes, ending, c);
    } else {
      ToolNodesLeave(db, r, nodes, ending, c);
    }
    if w.Some? && w.value.1.WorkflowDone? && r in w.value.0.runs { CompletionLeaves(w.value.0, r, todo, before, c); }
  }

  lemma CompletedByWorker(db: Db, a: Action, r: Id)
    requires Consistent(db) && r in db.runs && db.runs[r].status != Completed
    requires r in Step(db, a).runs && Step(db, a).runs[r].status == Completed
    ensures a.Process? && a.r == r && a.hasAgent
    ensures db.runs[r].status == Accepted || db.runs[r].status == Preparing || db.runs[r].status == Running
    ensures Step(db, a) != db
  {
    if a.Process? && a.r in db.runs {
      ProcessRunByWorker(db, a.r, a.saved, a.hasAgent, a.nodes, a.ending, a.todo);
    }
  }

  /** The commit is the worker's, and its workflow stops at a malformed manifest that call c meets. */
  ghost predicate StopsAtMalformed(db: Db, a: Action, c: Id) {
    && a.Process? && a.r in db.runs && IsClaimable(db.runs[a.r].status) && a.hasAgent
    && MeetsMalformed(SetRun(db, a.r, Claimed(db.runs[a.r], a.saved)), a.r, a.nodes, c)
  }

  /** A commit leaves a call executing if and only if it is one in which the worker's workflow stops
      because that call meets a malformed manifest; then the run has failed. */
  lemma LeftExecutingByMalformedManifest(db: Db, a: Action, c: Id)
    requires Consistent(db) && !IsExecuting(db, c)
    ensures IsExecuting(Step(db, a), c) <==> StopsAtMalformed(db, a, c)
    ensures IsExecuting(Step(db, a), c) ==>
              && a.Process? && HasMalformed(a.nodes)
              && a.r in Step(db, a).runs && Step(db, a).runs[a.r].status == Failed
  {
    if a.Process? && a.r in db.runs {
      ProcessLeavesExecuting(db, a, c);
    } else {
      OthersLeaveNoneExecuting(db, a, c);
    }
  }

  lemma OthersLeaveNoneExecuting(db: Db, a: Action, c: Id)
    requires !IsExecuting(db, c) && !(a.Process? && a.r in db.runs)
    ensures !IsExecuting(Step(db, a), c)
  {
  }

  lemma ProcessLeavesExecuting(db: Db, a: Action, c: Id)
    requires Consistent(db) && !IsExecuting(db, c) && a.Process? && a.r in db.runs
    ensures var later := ProcessRun(db, a.r, a.saved, a.hasAgent, a.nodes, a.ending, a.todo);
            && (IsExecuting(later, c) <==> StopsAtMalformed(db, a, c))
            && (IsExecuting(later, c) ==>
                  HasMalformed(a.nodes) && a.r in later.runs && later.runs[a.r].status == Failed)
  {
    if IsClaimable(db.runs[a.r].status) && a.hasAgent {
      var claimed := SetRun(db, a.r, Claimed(db.runs[a.r], a.saved));
      assert !db.runs[a.r].finished;
      SetRunKeeps(db, a.r, Claimed(db.runs[a.r], a.saved));
      WorkLeavesExecuting(claimed, a.r, a.nodes, a.ending, a.todo, db, c);
    }
  }

  lemma WorkLeavesExecuting(db: Db, r: Id, nodes: seq<ToolNode>, ending: Ending, todo: seq<(Id, Option<Answers>)>,
        before: Db, c: Id)
    requires Consistent(db) && r in db.runs && !IsOver(db.runs[r].status)
    requires !IsExecuting(db, c) && !IsExecuting(before, c)
    ensures var later := Worked(db, r, nodes, ending, todo, before);
            && (IsExecuting(later, c) <==> MeetsMalformed(db, r, nodes, c))
            && (IsExecuting(later, c) ==> HasMalformed(nodes) && r in later.runs && later.runs[r].status == Failed)
  {
    RunToolNodesKeeps(db, r, nodes, ending);
    ToolNodesSettle(db, r, nodes, ending, c);
    var w := RunToolNodes(db, r, nodes, ending);
    if w.Some? { FinishRunLeavesNoneExecuting(w.value.0, w.value.1, r, todo, before, c); }
  }

  lemma FinishRunLeavesNoneExecuting(db: Db, ending: Ending, r: Id, todo: seq<(Id, Option<Answers>)>, before: Db, c: Id)
    requires Consistent(db) && r in db.runs && !IsOver(db.runs[r].status)
    ensures IsExecuting(FinishRun(db, ending, r, todo, before), c) ==> IsExecuting(db, c) || IsExecuting(before, c)
    ensures ending.WorkflowFailed? ==> FinishRun(db, ending, r, todo, before).calls == db.calls
    ensures ending.WorkflowFailed? ==>
              r in FinishRun(db, ending, r, todo, before).runs
              && FinishRun(db, ending, r, todo, before).runs[r].status == Failed
  {
    var saved := SetRun(db, r, db.runs[r].(checkpoint := db.runs[r].checkpoint + 1));
    KeepsSelf(db);
    SavedKeeps(db, db, r);
    CreatedCallsSettle(saved, todo, c);
  }

  // A run that completes with a call left executing: its first attempt meets a malformed manifest,
  // and the workflow of the replayed attempt does not ask for that call.

  const MALFORMED := Answers(Definition(true, "deploy", false, "low", Malformed("NOT_A_NUMBER")), [],
      (k: int) => TimesOut)
  const BROKEN_NODE := ToolNode(2, "key", false, 100, 0, MALFORMED)
  const LEFT_CALL := ToolCall(1, "key", Call(Executing, 1, None, None, true, false))

  function LeftBehind(row: Run, attempts: set<Id>): Db {
    Db(map[1 := row], attempts, map[2 := LEFT_CALL], map[], {}, {}, {})
  }

  lemma FirstAttemptFails()
    ensures Step(Db(map[1 := NEW_RUN], {10}, map[], map[], {}, {}, {}),
              Process(1, None, true, [BROKEN_NODE], WorkflowDone, []))
            == LeftBehind(Run(Failed, 10, 1, true, 7), {10})
  {
    var claimed := Db(map[1 := Run(Running, 10, 0, false, 7)], {10}, map[], map[], {}, {}, {});
    var found := AddCall(claimed, 2, 1, "key", false, 7, 100, 0);
    assert FindOrAdd(claimed, 1, BROKEN_NODE) == (found, 2);
    assert Outcome(found, 2, MALFORMED) == Threw(LEFT_CALL.row, "NOT_A_NUMBER");
    var after := ExecuteCall(found, 2, MALFORMED);
    assert after == LeftBehind(Run(Running, 10, 0, false, 7), {10});
    assert RunToolNode(claimed, 1, BROKEN_NODE) == Some((after, NodeFails));
    assert RunToolNodes(claimed, 1, [BROKEN_NODE], WorkflowDone) == Some((after, WorkflowFailed(true)));
  }

  lemma SecondAttemptCompletes()
    ensures Step(LeftBehind(Run(Accepted, 11, 1, false, 7), {10, 11}), Process(1, None, true, [], WorkflowDone, []))
            == LeftBehind(Run(Completed, 11, 2, true, 7), {10, 11})
  {
    var saved := LeftBehind(Run(Running, 11, 2, false, 7), {10, 11});
    assert !HasPending(saved, 1) && ListsCreated(saved, 1, []);
    assert RunCreatedCalls(saved, []) == Some((saved, true));
  }

  lemma ReopensWithCall()
    ensures Step(EMPTY, CreateRun(1, 10, 7)) == Db(map[1 := NEW_RUN], {10}, map[], map[], {}, {}, {})
    ensures Step(LeftBehind(Run(Failed, 10, 1, true, 7), {10}), Replay(1, Run(Failed, 10, 1, true, 7), 11))
            == LeftBehind(Run(Accepted, 11, 1, false, 7), {10, 11})
  {
  }

  lemma CompletedWithCallExecuting() returns (h: seq<Db>, a: seq<Action>)
    ensures IsHistory(h, a) && h[0] == EMPTY && |a| == 4
    ensures 1 in h[4].runs && h[4].runs[1].status == Completed
    ensures 2 in h[4].calls && h[4].calls[2].run == 1 && IsExecuting(h[4], 2)
  {
    EmptyIsConsistent();
    FirstAttemptFails();
    ReopensWithCall();
    SecondAttemptCompletes();
    a := [CreateRun(1, 10, 7), Process(1, None, true, [BROKEN_NODE], WorkflowDone, []),
        Replay(1, Run(Failed, 10, 1, true, 7), 11),
      Process(1, None, true, [], WorkflowDone, [])];
    var s1 := Db(map[1 := NEW_RUN], {10}, map[], map[], {}, {}, {});
    var s2 := LeftBehind(Run(Failed, 10, 1, true, 7), {10});
    var s3 := LeftBehind(Run(Accepted, 11, 1, false, 7), {10, 11});
    h := [EMPTY, s1, s2, s3, LeftBehind(Run(Completed, 11, 2, true, 7), {10, 11})];
  }
}
