// What every commit of the run protocol does, row by row: when it changes anything, and what each
// table holds afterwards.

module RunActions {
  import opened Base
  import opened ToolCalls
  import opened RunProtocol

  const FINAL := {Completed, Failed, Cancelled, RunTimedOut, BudgetExceeded}

  /** The row is still as the session saw it, as far as the compare-and-set looks. */
  predicate IsAsSeen(row: Run, seen: Run) {
    row.status == seen.status && row.attempt == seen.attempt && row.checkpoint == seen.checkpoint
  }

  /** The runs after one row has changed. */
  ghost predicate OnlyRunChanges(db: Db, later: Db, r: Id, row: Run) {
    later == db.(runs := db.runs[r := row])
  }

  // ----- Moves -----

  /** The statuses from which a run can move to another one. */
  lemma MovesByTarget(s: RunStatus, next: RunStatus)
    ensures next in NextStatuses(s) <==>
            match next
            case Accepted => false
            case Preparing => s == Accepted
            case Running => s == Preparing || s == WaitingApproval
            case WaitingApproval => s == Running
            case Completed => s == Running
            case BudgetExceeded => s == Running
            case RunTimedOut => s == Running || s == WaitingApproval
            case Failed => s == Preparing || s == Running || s == WaitingApproval
            case Stopping => s !in FINAL && s != Stopping
            case Cancelled => s !in FINAL
  {
  }

  lemma FinalStatuses(s: RunStatus)
    ensures IsOver(s) <==> s in FINAL
  {
  }

  /** The answers of a transition: the expected status first, then the one already reached, then the table,
      then whether the row is still as it was seen. */
  lemma TransitionAnswers(row: Run, seen: Run, next: RunStatus, expected: Option<RunStatus>)
    ensures var t := TransitionRun(row, seen, next, expected);
            var isExpected := expected.None? || expected.value == seen.status;
            && (t == Refused <==> !isExpected)
            && (t == AlreadyThere <==> isExpected && seen.status == next)
            && (t == Raises("INVALID_STATE_TRANSITION") <==>
                isExpected && seen.status != next && next !in NextStatuses(seen.status))
            && (t == Raises("VERSION_CONFLICT") <==>
                isExpected && seen.status != next && next in NextStatuses(seen.status) && !IsAsSeen(row, seen))
            && (t == Moved(row.(status := next)) <==>
                isExpected && seen.status != next && next in NextStatuses(seen.status) && IsAsSeen(row, seen))
  {
  }

  /** Reopening needs a run that was over or waiting, and then one that is still as it was seen. */
  lemma ReopeningAnswers(row: Run, seen: Run, newId: Id, checkpoint: Option<int>)
    ensures var b := BeginNewAttempt(row, seen, newId, checkpoint);
            if seen.status !in FINAL + {WaitingApproval} then b == Err("RUN_NOT_REPLAYABLE")
            else if !IsAsSeen(row, seen) then b == Err("VERSION_CONFLICT")
            else b == Ok(Run(Accepted, newId, if checkpoint.Some? then checkpoint.value else seen.checkpoint, false,
                             row.snapshot))
  {
  }

  // ----- Requests about a run -----

  lemma RunIsCreated(db: Db, r: Id, attempt: Id, snapshot: Id)
    ensures Step(db, CreateRun(r, attempt, snapshot)) ==
            if r in db.runs || attempt in db.attempts then db
            else db.(runs := db.runs[r := Run(Accepted, attempt, 0, false, snapshot)],
                     attempts := db.attempts + {attempt})
  {
  }

  /** A cancelled run is final at once; a run is asked to stop only once. */
  lemma RunIsCancelledOrStopped(db: Db, r: Id, seen: Run)
    requires Consistent(db)
    ensures var later := Step(db, Cancel(r, seen));
            if r in db.runs && seen.status !in FINAL && IsAsSeen(db.runs[r], seen) then
              OnlyRunChanges(db, later, r, db.runs[r].(status := Cancelled, finished := true))
            else later == db
    ensures var later := Step(db, Stop(r, seen));
            if r in db.runs && seen.status !in FINAL + {Stopping} && IsAsSeen(db.runs[r], seen) then
              OnlyRunChanges(db, later, r, db.runs[r].(status := Stopping))
            else later == db
  {
    if r in db.runs { assert db.runs[r].finished <==> IsOver(db.runs[r].status); }
  }

  /** A run that ended without completing is replayed from its checkpoint; one that failed, was cancelled or
      waits is restored from the checkpoint asked for. */
  lemma RunIsReopened(db: Db, r: Id, seen: Run, newId: Id, checkpoint: int)
    ensures var later := Step(db, Replay(r, seen, newId));
            if r in db.runs && newId !in db.attempts && seen.status in FINAL - {Completed}
               && IsAsSeen(db.runs[r], seen) then
              later == db.(runs := db.runs[r := Run(Accepted, newId, seen.checkpoint, false, db.runs[r].snapshot)],
                           attempts := db.attempts + {newId})
            else later == db
    ensures var later := Step(db, Restore(r, seen, newId, checkpoint));
            if r in db.runs && newId !in db.attempts && seen.status in {Failed, Cancelled, WaitingApproval}
               && IsAsSeen(db.runs[r], seen) then
              later == db.(runs := db.runs[r := Run(Accepted, newId, checkpoint, false, db.runs[r].snapshot)],
                           attempts := db.attempts + {newId})
            else later == db
  {
  }

  // ----- Calls and their approvals -----

  /** A call under a new key is stored; for a risky tool it waits for the approval stored with it. */
  lemma CallIsCreated(db: Db, c: Id, r: Id, key: string, risky: bool, expiresAt: int, now: int)
    ensures var later := Step(db, CreateToolCall(c, r, key, risky, expiresAt, now));
            if r !in db.runs || c in db.calls || (exists d :: d in db.calls && db.calls[d].key == key) then later == db
            else
              && (later.runs, later.attempts, later.approved, later.overwritten, later.unbacked)
                 == (db.runs, db.attempts, db.approved, db.overwritten, db.unbacked)
              && later.calls == db.calls[c := ToolCall(r, key,
                   Call(if risky then PendingApproval else Created, 1, None, None, false, false))]
              && later.approvals == if risky then
                   db.approvals[c := Approval(r, Pending, false, expiresAt, now, db.runs[r].snapshot)]
                 else db.approvals
  {
  }

  /** What a decision needs: a pending, unused and unexpired approval of a run that still has the snapshot, and
      a run row as it was seen if the session saw it waiting. */
  predicate MayDecide(db: Db, c: Id, now: int, isAllowed: bool, seen: Run) {
    && isAllowed && c in db.approvals && c in db.calls
    && var p := db.approvals[c];
       && p.status == Pending && !p.isUsed && now < p.expiresAt && p.run in db.runs
       && db.runs[p.run].snapshot == p.snapshot
       && (seen.status == WaitingApproval ==> IsAsSeen(db.runs[p.run], seen))
  }

  /** An approval releases the call, a rejection ends it, and both use up the approval. */
  lemma DecisionTakesEffect(db: Db, c: Id, approve: bool, now: int, isAllowed: bool, seen: Run)
    ensures var later := Step(db, Decide(c, approve, now, isAllowed, seen));
            if !MayDecide(db, c, now, isAllowed, seen) then later == db
            else
              && later.approvals == db.approvals[c := db.approvals[c].(
                   status := if approve then Approved else ApprovalStatus.Rejected, isUsed := true)]
              && later.calls == db.calls[c := db.calls[c].(row := db.calls[c].row.(
                   status := if approve then Created else CallStatus.Rejected))]
              && later.approved == (if approve then db.approved + {c} else db.approved)
              && (later.attempts, later.overwritten, later.unbacked) == (db.attempts, db.overwritten, db.unbacked)
              && later != db
  {
    if MayDecide(db, c, now, isAllowed, seen) {
      assert Step(db, Decide(c, approve, now, isAllowed, seen)).approvals[c].isUsed;
    }
  }

  /** A run that the session saw waiting is resumed by an approval and failed by a rejection; one that it saw
      otherwise is left alone, and so are all other runs. */
  lemma DecisionMovesTheRun(db: Db, c: Id, approve: bool, now: int, isAllowed: bool, seen: Run)
    requires Consistent(db) && MayDecide(db, c, now, isAllowed, seen)
    ensures var later, r := Step(db, Decide(c, approve, now, isAllowed, seen)), db.approvals[c].run;
            && (seen.status != WaitingApproval ==> later.runs == db.runs)
            && (seen.status == WaitingApproval && approve ==>
                  later.runs == db.runs[r := db.runs[r].(status := Running, finished := false)])
            && (seen.status == WaitingApproval && !approve ==>
                  later.runs == db.runs[r := db.runs[r].(status := Failed, finished := true)])
  {
    assert db.runs[db.approvals[c].run].finished <==> IsOver(db.runs[db.approvals[c].run].status);
  }

  /** A decision that finds the approval expired uses it up, whatever its row says by then. */
  lemma LateDecisionExpires(db: Db, c: Id, now: int)
    ensures var later := Step(db, DecideTooLate(c, now));
            if c in db.approvals && db.approvals[c].expiresAt <= now then
              && (later.runs, later.calls, later.attempts, later.approved, later.unbacked)
                 == (db.runs, db.calls, db.attempts, db.approved, db.unbacked)
              && later.approvals == db.approvals[c := db.approvals[c].(
                   status := ApprovalStatus.Expired, isUsed := true)]
              && forall x :: x in later.overwritten <==>
                   x in db.overwritten || (x == c && db.approvals[c].status == Approved)
            else later == db
  {
  }

  // ----- Passes over all rows -----

  predicate HasRunOut(p: Approval, now: int) {
    p.status == Pending && !p.isUsed && p.expiresAt <= now
  }

  /** The expiry pass ends exactly the approvals that have run out, the calls that wait for them and the runs
      that wait with them, and leaves all other rows as they are. */
  lemma ApprovalsExpire(db: Db, now: int)
    ensures var later := Step(db, ExpirePending(now));
            && later.approvals.Keys == db.approvals.Keys && later.calls.Keys == db.calls.Keys
            && later.runs.Keys == db.runs.Keys
            && (forall c :: c in db.approvals ==>
                  later.approvals[c] == if HasRunOut(db.approvals[c], now) then
                    db.approvals[c].(status := ApprovalStatus.Expired, isUsed := true) else db.approvals[c])
            && (forall c :: c in db.calls ==>
                  later.calls[c] ==
                    if c in db.approvals && HasRunOut(db.approvals[c], now)
                       && db.calls[c].row.status == PendingApproval then
                      db.calls[c].(row := db.calls[c].row.(
                        status := CallStatus.Expired, error := Some("APPROVAL_EXPIRED"), finished := true))
                    else db.calls[c])
  {
  }

  lemma RunsExpire(db: Db, now: int)
    ensures var later := Step(db, ExpirePending(now));
            forall r :: r in db.runs ==>
              r in later.runs && later.runs[r] ==
                if db.runs[r].status == WaitingApproval
                   && (exists c :: IsOfRun(db, c, r) && HasRunOut(db.approvals[c], now)) then
                  db.runs[r].(status := Failed, finished := true)
                else db.runs[r]
    ensures var later := Step(db, ExpirePending(now));
            (later.attempts, later.approved, later.overwritten, later.unbacked)
            == (db.attempts, db.approved, db.overwritten, db.unbacked)
  {
    forall r, c {:trigger IsOfRun(db, c, r)}
      ensures IsDue(db, c, now) && db.approvals[c].run == r <==> IsOfRun(db, c, r) && HasRunOut(db.approvals[c], now)
    {
    }
  }

  predicate IsOfRun(db: Db, c: Id, r: Id) {
    c in db.approvals && db.approvals[c].run == r
  }

  lemma StuckRunsAreQueued(db: Db, stuck: set<Id>)
    ensures var later := Step(db, RecoverStuck(stuck));
            && later == db.(runs := later.runs) && later.runs.Keys == db.runs.Keys
            && forall r :: r in db.runs ==>
                 later.runs[r] == if r in stuck && db.runs[r].status == Running then db.runs[r].(status := Accepted)
                                  else db.runs[r]
  {
  }

  /** c is an approval of run r, and none of the run's is newer. */
  ghost predicate IsNewest(db: Db, r: Id, c: Id) {
    && c in db.approvals && db.approvals[c].run == r
    && forall d :: d in db.approvals && db.approvals[d].run == r ==>
         db.approvals[d].createdAt <= db.approvals[c].createdAt
  }

  /** A waiting run is queued again once its newest approval is granted, cancelled once that is rejected or has
      expired, and left waiting while it is pending. */
  lemma WaitingRunsAreResumed(db: Db, latest: map<Id, Id>, r: Id)
    requires Consistent(db) && r in db.runs
    ensures var later := Step(db, RecoverApprovals(latest));
            && later == db.(runs := later.runs) && later.runs.Keys == db.runs.Keys
            && var isNamed := r in latest && IsNewest(db, r, latest[r]);
               && (db.runs[r].status != WaitingApproval || !isNamed ==> later.runs[r] == db.runs[r])
               && (db.runs[r].status == WaitingApproval && isNamed ==>
                     later.runs[r] ==
                       match db.approvals[latest[r]].status
                       case Approved => db.runs[r].(status := Accepted)
                       case Pending => db.runs[r]
                       case Rejected => db.runs[r].(status := Cancelled, finished := true)
                       case Expired => db.runs[r].(status := Cancelled, finished := true))
  {
    assert db.runs[r].finished <==> IsOver(db.runs[r].status);
  }

  // ----- Processing a run -----

  /** The tables once the worker has claimed the run: an interrupted one goes on from its latest checkpoint. */
  ghost predicate IsClaimed(db: Db, claimed: Db, r: Id, saved: Option<int>) {
    && r in db.runs
    && var row := db.runs[r];
       && row.status in {Accepted, Preparing, Running}
       && OnlyRunChanges(db, claimed, r, row.(status := Running,
            checkpoint := if row.status != Accepted && saved.Some? then saved.value else row.checkpoint))
  }

  /** A run that is to stop is cancelled, one without its agent fails, and only runs that are queued or were
      interrupted are worked on. */
  lemma RunIsTaken(db: Db, claimed: Db, r: Id, saved: Option<int>, hasAgent: bool, nodes: seq<ToolNode>, ending: Ending,
        todo: seq<(Id, Option<Answers>)>)
    ensures var later := Step(db, Process(r, saved, hasAgent, nodes, ending, todo));
            && (r !in db.runs || db.runs[r].status in FINAL + {WaitingApproval} ==> later == db)
            && (r in db.runs && db.runs[r].status == Stopping ==>
                  OnlyRunChanges(db, later, r, db.runs[r].(status := Cancelled, finished := true)))
            && (IsClaimed(db, claimed, r, saved) && !hasAgent ==>
                  OnlyRunChanges(claimed, later, r, claimed.runs[r].(status := Failed, finished := true)))
  {
    if IsClaimed(db, claimed, r, saved) {
      assert claimed == SetRun(db, r, Claimed(db.runs[r], saved));
    }
  }

  /** What becomes of a run whose workflow has ended early, with the tables as the workflow left them. */
  ghost predicate EndsEarly(worked: Db, later: Db, r: Id, end: Ending)
    requires r in worked.runs
  {
    var row := worked.runs[r];
    match end
    case WorkflowWaits => OnlyRunChanges(worked, later, r, row.(status := WaitingApproval))
    case WorkflowFailed(isSaved) =>
      OnlyRunChanges(worked, later, r, row.(status := Failed, finished := true,
        checkpoint := row.checkpoint + if isSaved then 1 else 0))
    case WorkflowStopped => OnlyRunChanges(worked, later, r, row.(status := Cancelled, finished := true))
    case WorkflowOverBudget => OnlyRunChanges(worked, later, r, row.(status := BudgetExceeded, finished := true))
    case WorkflowDone => true
  }

  lemma FinishEndsEarly(worked: Db, end: Ending, r: Id, todo: seq<(Id, Option<Answers>)>, before: Db)
    requires r in worked.runs
    ensures EndsEarly(worked, FinishRun(worked, end, r, todo, before), r, end)
  {
    match end {
      case WorkflowFailed(isSaved) => FailureEndsEarly(worked, isSaved, r, todo, before);
      case _ =>
    }
  }

  lemma FailureEndsEarly(worked: Db, isSaved: bool, r: Id, todo: seq<(Id, Option<Answers>)>, before: Db)
    requires r in worked.runs
    ensures EndsEarly(worked, FinishRun(worked, WorkflowFailed(isSaved), r, todo, before), r, WorkflowFailed(isSaved))
  {
    var row := worked.runs[r].(status := Failed, finished := true,
      checkpoint := worked.runs[r].checkpoint + if isSaved then 1 else 0);
    assert FinishRun(worked, WorkflowFailed(isSaved), r, todo, before).runs == worked.runs[r := row];
  }

  lemma WorksOnClaimed(db: Db, claimed: Db, r: Id, saved: Option<int>, nodes: seq<ToolNode>, ending: Ending,
        todo: seq<(Id, Option<Answers>)>)
    requires IsClaimed(db, claimed, r, saved)
    ensures Step(db, Process(r, saved, true, nodes, ending, todo)) == Worked(claimed, r, nodes, ending, todo, db)
  {
    assert claimed == SetRun(db, r, Claimed(db.runs[r], saved));
  }

  /** The workflow has ended, for a run that was claimed.  An error that escapes undoes everything. */
  lemma RunEndsEarly(db: Db, claimed: Db, r: Id, saved: Option<int>, nodes: seq<ToolNode>, ending: Ending,
        todo: seq<(Id, Option<Answers>)>)
    requires IsClaimed(db, claimed, r, saved)
    ensures var later := Step(db, Process(r, saved, true, nodes, ending, todo));
            var w := RunToolNodes(claimed, r, nodes, ending);
            && (w.None? ==> later == db)
            && (w.Some? && r in w.value.0.runs ==> EndsEarly(w.value.0, later, r, w.value.1))
  {
    WorksOnClaimed(db, claimed, r, saved, nodes, ending, todo);
    var w := RunToolNodes(claimed, r, nodes, ending);
    if w.Some? && r in w.value.0.runs { FinishEndsEarly(w.value.0, w.value.1, r, todo, db); }
  }

  /** A workflow that was done leaves its run waiting if a call of it still waits, and otherwise completed or
      failed as executing the created calls says.  An error that escapes from them undoes everything. */
  ghost predicate EndsDone(worked: Db, later: Db, r: Id, todo: seq<(Id, Option<Answers>)>, before: Db)
    requires r in worked.runs
  {
    var saved := worked.(runs := worked.runs[r := worked.runs[r].(checkpoint := worked.runs[r].checkpoint + 1)]);
    if exists c :: c in worked.calls && worked.calls[c].run == r && worked.calls[c].row.status == PendingApproval then
      OnlyRunChanges(saved, later, r, saved.runs[r].(status := WaitingApproval))
    else
      ListsCreated(saved, r, todo) ==>
        match RunCreatedCalls(saved, todo)
        case None => later == before
        case Some((called, ok)) =>
          r in called.runs ==>
            OnlyRunChanges(called, later, r,
              called.runs[r].(status := if ok then Completed else Failed, finished := true))
  }

  lemma RunEndsDone(db: Db, claimed: Db, r: Id, saved: Option<int>, nodes: seq<ToolNode>, ending: Ending,
        todo: seq<(Id, Option<Answers>)>)
    requires IsClaimed(db, claimed, r, saved)
    ensures var later := Step(db, Process(r, saved, true, nodes, ending, todo));
            var w := RunToolNodes(claimed, r, nodes, ending);
            w.Some? && r in w.value.0.runs && w.value.1 == WorkflowDone ==>
              EndsDone(w.value.0, later, r, todo, db)
  {
    WorksOnClaimed(db, claimed, r, saved, nodes, ending, todo);
    var w := RunToolNodes(claimed, r, nodes, ending);
    if w.Some? && r in w.value.0.runs && w.value.1 == WorkflowDone { FinishEndsDone(w.value.0, r, todo, db); }
  }

  lemma FinishEndsDone(worked: Db, r: Id, todo: seq<(Id, Option<Answers>)>, before: Db)
    requires r in worked.runs
    ensures EndsDone(worked, FinishRun(worked, WorkflowDone, r, todo, before), r, todo, before)
  {
    var saved := SetRun(worked, r, worked.runs[r].(checkpoint := worked.runs[r].checkpoint + 1));
    assert HasPending(saved, r) <==>
      exists c :: c in worked.calls && worked.calls[c].run == r && worked.calls[c].row.status == PendingApproval;
  }

  // ----- Tool nodes and created calls, one at a time -----

  /** The call of a tool node when it comes to execution: the stored one with its key, or a new one. */
  ghost predicate IsCallOf(db: Db, found: Db, r: Id, n: ToolNode, c: Id)
    requires r in db.runs
  {
    if exists d :: d in db.calls && db.calls[d].key == n.key then
      found == db && c in db.calls && db.calls[c].key == n.key
    else
      && c == n.newId
      && found.calls == db.calls[c := ToolCall(r, n.key,
           Call(if n.risky then PendingApproval else Created, 1, None, None, false, false))]
      && found.approvals == (if n.risky then
           db.approvals[c := Approval(r, Pending, false, n.expiresAt, n.now, db.runs[r].snapshot)] else db.approvals)
      && found == db.(calls := found.calls, approvals := found.approvals)
  }

  /** A call that is not settled has an approval which is not granted. */
  predicate IsUnbacked(db: Db, c: Id) {
    c in db.calls && db.calls[c].row.status !in SETTLED && c in db.approvals && db.approvals[c].status != Approved
  }

  /** The tables once a call has been passed to execute_tool_call; a call that runs without the approval it has is
      noted. */
  ghost predicate IsExecuted(db: Db, after: Db, c: Id, a: Answers)
    requires c in db.calls
  {
    && after.calls == db.calls[c := db.calls[c].(row :=
         Execute(db.calls[c].row, a.definition, a.policies, a.results).call)]
    && after == db.(calls := after.calls, unbacked := after.unbacked)
    && forall x :: x in after.unbacked <==> x in db.unbacked || (x == c && IsUnbacked(db, c))
  }

  lemma CallIsExecuted(db: Db, c: Id, a: Answers)
    requires c in db.calls
    ensures IsExecuted(db, ExecuteCall(db, c, a), c, a)
  {
  }

  /** The first tool node: a call that waits makes the workflow wait, and one that does not end succeeded makes it
      fail; otherwise the nodes after it have their turn. */
  lemma FirstNodeDecides(db: Db, r: Id, nodes: seq<ToolNode>, ending: Ending) returns (found: Db, c: Id, after: Db)
    requires Consistent(db) && r in db.runs && nodes != []
    requires nodes[0].newId !in db.calls || exists d :: d in db.calls && db.calls[d].key == nodes[0].key
    ensures IsCallOf(db, found, r, nodes[0], c) && c in found.calls && IsExecuted(found, after, c, nodes[0].answers)
    ensures var e := Execute(found.calls[c].row, nodes[0].answers.definition, nodes[0].answers.policies,
                             nodes[0].answers.results);
            RunToolNodes(db, r, nodes, ending) ==
            if found.calls[c].row.status == PendingApproval then Some((found, WorkflowWaits))
            else if e.Returned? && e.call.status == ToolCalls.Succeeded then RunToolNodes(after, r, nodes[1..], ending)
            else Some((after, WorkflowFailed(true)))
  {
    FindsOrAdds(db, r, nodes[0]);
    NodeDecides(db, r, nodes[0]);
    found, c := FindOrAdd(db, r, nodes[0]).0, FindOrAdd(db, r, nodes[0]).1;
    after := ExecuteCall(found, c, nodes[0].answers);
    CallIsExecuted(found, c, nodes[0].answers);
  }

  lemma NodeDecides(db: Db, r: Id, n: ToolNode)
    requires r in db.runs && (n.newId !in db.calls || exists d :: d in db.calls && db.calls[d].key == n.key)
    ensures var (found, c) := FindOrAdd(db, r, n);
            var e := Execute(found.calls[c].row, n.answers.definition, n.answers.policies, n.answers.results);
            RunToolNode(db, r, n) ==
            if found.calls[c].row.status == PendingApproval then Some((found, NodeWaits))
            else Some((ExecuteCall(found, c, n.answers),
                       if e.Returned? && e.call.status == ToolCalls.Succeeded then NodeDone else NodeFails))
    ensures FindOrAdd(db, r, n).0.runs == db.runs
  {
    if d :| d in db.calls && db.calls[d].key == n.key { assert IsCallWith(db, n.key, d); }
  }

  lemma FindsOrAdds(db: Db, r: Id, n: ToolNode)
    requires r in db.runs
    ensures IsCallOf(db, FindOrAdd(db, r, n).0, r, n, FindOrAdd(db, r, n).1)
  {
    if d :| d in db.calls && db.calls[d].key == n.key {
      assert IsCallWith(db, n.key, d);
    } else {
      assert forall d :: !IsCallWith(db, n.key, d);
    }
  }

  /** A node that would store a call under a taken identifier undoes everything, and without nodes the workflow
      ends as it does. */
  lemma NoNodeLeft(db: Db, r: Id, nodes: seq<ToolNode>, ending: Ending)
    requires r in db.runs
    ensures nodes == [] ==> RunToolNodes(db, r, nodes, ending) == Some((db, ending))
    ensures nodes != [] && nodes[0].newId in db.calls
            && (forall d :: d in db.calls ==> db.calls[d].key != nodes[0].key) ==>
              RunToolNodes(db, r, nodes, ending).None?
  {
  }

  /** The first created call: one whose tool is gone fails, an error that escapes undoes everything, and one that
      does not end succeeded is the last to be executed. */
  lemma FirstCallDecides(db: Db, todo: seq<(Id, Option<Answers>)>) returns (after: Db)
    requires todo != [] && todo[0].0 in db.calls && db.calls[todo[0].0].row.status == Created
    ensures var (c, a) := todo[0];
            && (a.None? ==>
                  RunCreatedCalls(db, todo) == Some((db.(calls := db.calls[c := db.calls[c].(row :=
                    db.calls[c].row.(status := PermanentlyFailed, error := Some("TOOL_NOT_FOUND")))]), false)))
            && (a.Some? ==>
                  && IsExecuted(db, after, c, a.value)
                  && var e := Execute(db.calls[c].row, a.value.definition, a.value.policies, a.value.results);
                     RunCreatedCalls(db, todo) ==
                     if e.Threw? then None
                     else if e.call.status == ToolCalls.Succeeded then RunCreatedCalls(after, todo[1..])
                     else Some((after, false)))
  {
    var (c, a) := todo[0];
    after := if a.Some? then ExecuteCall(db, c, a.value) else db;
    if a.Some? { CallIsExecuted(db, c, a.value); }
  }

  /** Calls that are not created any more are passed over, and without any left the run has succeeded. */
  lemma NoCallLeft(db: Db, todo: seq<(Id, Option<Answers>)>)
    ensures todo == [] ==> RunCreatedCalls(db, todo) == Some((db, true))
    ensures todo != [] && (todo[0].0 !in db.calls || db.calls[todo[0].0].row.status != Created) ==>
              RunCreatedCalls(db, todo) == RunCreatedCalls(db, todo[1..])
  {
  }
}
