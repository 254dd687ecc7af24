// Runs, tool calls and approvals of one tenant, as the API handlers, the worker, the recovery
// passes and the expiry pass change them.  Every action is one commit.  Handlers that read a run
// row without locking it act on the copy they read, which is any value at all here: only the
// compare-and-set of the transition ties it to the row.

module RunProtocol {
  import opened Base
  import opened ToolCalls

  type Id = nat

  datatype RunStatus =
    | Accepted | Preparing | Running | Stopping | WaitingApproval
    | Completed | Failed | Cancelled | RunTimedOut | BudgetExceeded

  predicate IsOver(s: RunStatus) {
    s.Completed? || s.Failed? || s.Cancelled? || s.RunTimedOut? || s.BudgetExceeded?
  }

  /** RUN_TRANSITIONS */
  function NextStatuses(s: RunStatus): set<RunStatus> {
    match s
    case Accepted => {Preparing, Cancelled, Stopping}
    case Preparing => {Running, Failed, Cancelled, Stopping}
    case Running => {WaitingApproval, Completed, Failed, Cancelled, Stopping, RunTimedOut, BudgetExceeded}
    case Stopping => {Cancelled}
    case WaitingApproval => {Running, Failed, Cancelled, Stopping, RunTimedOut}
    case _ => {}
  }

  datatype Run = Run(status: RunStatus, attempt: Id, checkpoint: int, finished: bool, snapshot: Id)

  datatype ApprovalStatus = Pending | Approved | Rejected | Expired

  /** The approval of a tool call.  isUsed: used_at is set. */
  datatype Approval = Approval(run: Id, status: ApprovalStatus, isUsed: bool, expiresAt: int, createdAt: int,
      snapshot: Id)

  datatype ToolCall = ToolCall(run: Id, key: string, row: Call)

  /** The tables, and three records of what has happened that no action reads: the calls approved
      so far, those whose approved row was later overwritten, and those that were executed while
      their approval row was not approved. */
  datatype Db = Db(
    runs: map<Id, Run>,
    attempts: set<Id>,            // attempt identifiers handed out so far
    calls: map<Id, ToolCall>,
    approvals: map<Id, Approval>, // by tool call: tool_call_id is unique
    approved: set<Id>,
    overwritten: set<Id>,
    unbacked: set<Id>)

  // ----- transition_run and begin_new_attempt -----

  /** A compare-and-set on the row, made by a session that holds the copy seen. */
  predicate Unchanged(row: Run, seen: Run) {
    row.status == seen.status && row.attempt == seen.attempt && row.checkpoint == seen.checkpoint
  }

  datatype Transition = Refused | AlreadyThere | Moved(row: Run) | Raises(code: string)

  function TransitionRun(row: Run, seen: Run, next: RunStatus, expected: Option<RunStatus>): Transition {
    if expected.Some? && seen.status != expected.value then Refused
    else if seen.status == next then AlreadyThere
    else if next !in NextStatuses(seen.status) then Raises("INVALID_STATE_TRANSITION")
    else if !Unchanged(row, seen) then Raises("VERSION_CONFLICT")
    else Moved(row.(status := next))
  }

  /** A move is always along an edge of the table, from the status of the row itself. */
  lemma MovesFollowTheTable(row: Run, seen: Run, next: RunStatus, expected: Option<RunStatus>)
    ensures TransitionRun(row, seen, next, expected).Moved? <==>
              && (expected.Some? ==> row.status == expected.value) && next in NextStatuses(row.status)
              && Unchanged(row, seen) && row.status != next
    ensures IsOver(row.status) ==> !TransitionRun(row, seen, next, expected).Moved?
  {
  }

  function BeginNewAttempt(row: Run, seen: Run, newId: Id, checkpoint: Option<int>): Result<Run, string> {
    if !(IsOver(seen.status) || seen.status == WaitingApproval) then Err("RUN_NOT_REPLAYABLE")
    else if !Unchanged(row, seen) then Err("VERSION_CONFLICT")
    else Ok(row.(status := Accepted, attempt := newId, finished := false,
                 checkpoint := if checkpoint.Some? then checkpoint.value else seen.checkpoint))
  }

  // ----- Small changes that actions are made of -----

  function SetRun(db: Db, r: Id, run: Run): Db {
    db.(runs := db.runs[r := run])
  }

  /** Moves a run; reaching a final status sets the time of finishing. */
  function Move(db: Db, r: Id, next: RunStatus): Db
    requires r in db.runs
  {
    SetRun(db, r, db.runs[r].(status := next, finished := db.runs[r].finished || IsOver(next)))
  }

  predicate IsKeyFree(db: Db, key: string) {
    forall c :: c in db.calls ==> db.calls[c].key != key
  }

  /** A new call; a risky one waits for the approval created with it. */
  function AddCall(db: Db, c: Id, run: Id, key: string, risky: bool, snapshot: Id, expiresAt: int, now: int): Db {
    var row := Call(if risky then PendingApproval else Created, 1, None, None, false, false);
    db.(calls := db.calls[c := ToolCall(run, key, row)],
        approvals := if risky then db.approvals[c := Approval(run, Pending, false, expiresAt, now, snapshot)]
            else db.approvals)
  }

  function SetCall(db: Db, c: Id, row: Call): Db
    requires c in db.calls
  {
    db.(calls := db.calls[c := db.calls[c].(row := row)])
  }

  datatype Answers = Answers(definition: Definition, policies: seq<Policy>, results: int -> AttemptResult)

  function Outcome(db: Db, c: Id, a: Answers): Execution
    requires c in db.calls
  {
    Execute(db.calls[c].row, a.definition, a.policies, a.results)
  }

  /** execute_tool_call on a stored call, noting whether its approval, if it needs one, is approved. */
  function ExecuteCall(db: Db, c: Id, a: Answers): Db
    requires c in db.calls
  {
    var after := SetCall(db, c, Outcome(db, c, a).call);
    if !IsTerminal(db.calls[c].row.status) && c in db.approvals && db.approvals[c].status != Approved then
      after.(unbacked := after.unbacked + {c})
    else after
  }

  // ----- The worker -----

  /** One tool node of the workflow: the call it asks for, and what executing it would answer. */
  datatype ToolNode = ToolNode(newId: Id, key: string, risky: bool, expiresAt: int, now: int, answers: Answers)

  datatype Ending = WorkflowDone | WorkflowFailed(isSaved: bool) | WorkflowStopped | WorkflowOverBudget | WorkflowWaits

  ghost predicate IsCallWith(db: Db, key: string, c: Id) {
    c in db.calls && db.calls[c].key == key
  }

  /** The call for a tool node: the stored one with its key, or a new one. */
  ghost function FindOrAdd(db: Db, r: Id, n: ToolNode): (Db, Id)
    requires r in db.runs
    ensures FindOrAdd(db, r, n).1 in FindOrAdd(db, r, n).0.calls
  {
    if exists c :: IsCallWith(db, n.key, c) then
      var c :| IsCallWith(db, n.key, c);
      (db, c)
    else
      (AddCall(db, n.newId, r, n.key, n.risky, db.runs[r].snapshot, n.expiresAt, n.now), n.newId)
  }

  datatype NodeEnd = NodeDone | NodeWaits | NodeFails

  /** One tool node.  An identifier that is taken breaks a constraint: None. */
  ghost function RunToolNode(db: Db, r: Id, n: ToolNode): Option<(Db, NodeEnd)>
    requires r in db.runs
  {
    if !(exists c :: IsCallWith(db, n.key, c)) && n.newId in db.calls then None
    else
      var (found, c) := FindOrAdd(db, r, n);
      if found.calls[c].row.status == PendingApproval then Some((found, NodeWaits))
      else
        var after := ExecuteCall(found, c, n.answers);
        var isDone := !Outcome(found, c, n.answers).Threw? && after.calls[c].row.status == ToolCalls.Succeeded;
        Some((after, if isDone then NodeDone else NodeFails))
  }

  /** The tool nodes of the workflow, one after the other, until one waits or fails.  An exception
      undoes everything. */
  ghost function RunToolNodes(db: Db, r: Id, nodes: seq<ToolNode>, ending: Ending): Option<(Db, Ending)>
    requires r in db.runs
    decreases |nodes|
  {
    if nodes == [] then Some((db, ending))
    else
      match RunToolNode(db, r, nodes[0])
      case None => None
      case Some((after, end)) =>
        if end.NodeWaits? then Some((after, WorkflowWaits))
        else if end.NodeFails? then Some((after, WorkflowFailed(true)))
        else if r in after.runs then RunToolNodes(after, r, nodes[1..], ending) else None
  }

  ghost predicate HasPending(db: Db, r: Id) {
    exists c :: c in db.calls && db.calls[c].run == r && db.calls[c].row.status == PendingApproval
  }

  /** Executes created calls in the given order until one does not succeed; None if an exception
      escapes.  A missing definition fails the call. */
  function RunCreatedCalls(db: Db, todo: seq<(Id, Option<Answers>)>): Option<(Db, bool)>
    decreases |todo|
  {
    if todo == [] then Some((db, true))
    else
      var (c, a) := todo[0];
      if c !in db.calls || !db.calls[c].row.status.Created? then RunCreatedCalls(db, todo[1..])
      else if a.None? then
        Some((SetCall(db, c, db.calls[c].row.(status := PermanentlyFailed, error := Some("TOOL_NOT_FOUND"))), false))
      else if Outcome(db, c, a.value).Threw? then None
      else
        var after := ExecuteCall(db, c, a.value);
        if after.calls[c].row.status == ToolCalls.Succeeded then RunCreatedCalls(after, todo[1..])
        else Some((after, false))
  }

  /** The created calls of the run are all on the list. */
  ghost predicate ListsCreated(db: Db, r: Id, todo: seq<(Id, Option<Answers>)>) {
    forall c :: c in db.calls && db.calls[c].run == r && db.calls[c].row.status.Created? ==>
        exists i :: 0 <= i < |todo| && todo[i].0 == c
  }

  predicate IsClaimable(s: RunStatus) {
    s == Accepted || s == Preparing || s == Running
  }

  /** The row while the worker runs it: an interrupted run goes on from its latest checkpoint. */
  function Claimed(run: Run, saved: Option<int>): Run {
    run.(status := Running,
         checkpoint := if run.status != Accepted && saved.Some? then saved.value else run.checkpoint)
  }

  /** A run the worker has claimed, from the row lock to the commit.  saved is the latest checkpoint
      of an interrupted run; todo lists its created calls. */
  ghost function ProcessRun(db: Db, r: Id, saved: Option<int>, hasAgent: bool, nodes: seq<ToolNode>, ending: Ending,
        todo: seq<(Id, Option<Answers>)>): Db
    requires r in db.runs
  {
    var run := db.runs[r];
    if run.status == Stopping then Move(db, r, Cancelled)
    else if !IsClaimable(run.status) then db
    else
      var claimed := SetRun(db, r, Claimed(run, saved));
      if !hasAgent then Move(claimed, r, Failed) else Worked(claimed, r, nodes, ending, todo, db)
  }

  /** The rows after the work on a claimed run, or as they were before if an exception escapes. */
  ghost function Worked(db: Db, r: Id, nodes: seq<ToolNode>, ending: Ending, todo: seq<(Id, Option<Answers>)>,
        before: Db): Db
    requires r in db.runs
  {
    match RunToolNodes(db, r, nodes, ending)
    case None => before
    case Some((worked, end)) => if r in worked.runs then FinishRun(worked, end, r, todo, before) else before
  }

  /** What the worker makes of the end of the workflow. */
  ghost function FinishRun(db: Db, ending: Ending, r: Id, todo: seq<(Id, Option<Answers>)>, before: Db): Db
    requires r in db.runs
  {
    var saved := SetRun(db, r, db.runs[r].(checkpoint := db.runs[r].checkpoint + 1));
    match ending
    case WorkflowWaits => Move(db, r, WaitingApproval)
    case WorkflowFailed(isSaved) => Move(if isSaved then saved else db, r, Failed)
    case WorkflowStopped => Move(db, r, Cancelled)
    case WorkflowOverBudget => Move(db, r, BudgetExceeded)
    case WorkflowDone =>
      if HasPending(saved, r) then Move(saved, r, WaitingApproval)
      else if !ListsCreated(saved, r, todo) then before
      else
        match RunCreatedCalls(saved, todo)
        case None => before
        case Some((called, ok)) => if r in called.runs then
            Move(called, r, if ok then Completed else Failed) else before
  }

  // ----- Actions -----

  datatype Action =
    | CreateRun(r: Id, attempt: Id, snapshot: Id)
    | CreateToolCall(c: Id, r: Id, key: string, risky: bool, expiresAt: int, now: int)
    | Decide(c: Id, approve: bool, now: int, isAllowed: bool, seen: Run)
    | DecideTooLate(c: Id, now: int)
    | ExpirePending(now: int)
    | RecoverStuck(stuck: set<Id>)
    | RecoverApprovals(latest: map<Id, Id>)
    | Process(r: Id, saved: Option<int>, hasAgent: bool, nodes: seq<ToolNode>, ending: Ending,
        todo: seq<(Id, Option<Answers>)>)
    | Cancel(r: Id, seen: Run)
    | Stop(r: Id, seen: Run)
    | Replay(r: Id, seen: Run, newId: Id)
    | Restore(r: Id, seen: Run, newId: Id, checkpoint: int)

  /** The approval is consumed, and the call released or rejected. */
  function Decided(db: Db, c: Id, approve: bool): Db
    requires c in db.approvals && c in db.calls
  {
    db.(approvals := db.approvals[c :=
        db.approvals[c].(status := if approve then Approved else ApprovalStatus.Rejected, isUsed := true)],
        calls := db.calls[c := db.calls[c].(row :=
            db.calls[c].row.(status := if approve then Created else CallStatus.Rejected))],
        approved := if approve then db.approved + {c} else db.approved)
  }

  /** The decision, once the compare-and-set on the approval has succeeded: the run row is moved
      only if the session saw it waiting, and a failed move undoes everything. */
  function DecideApproval(db: Db, c: Id, approve: bool, seen: Run): Db
    requires c in db.approvals && c in db.calls && db.approvals[c].run in db.runs
  {
    var r, next := db.approvals[c].run, if approve then Running else Failed;
    if seen.status != WaitingApproval then Decided(db, c, approve)
    else if !TransitionRun(db.runs[r], seen, next, None).Moved? then db
    else Move(Decided(db, c, approve), r, next)
  }

  predicate IsDue(db: Db, c: Id, now: int) {
    c in db.approvals && db.approvals[c].status == Pending && !db.approvals[c].isUsed
        && db.approvals[c].expiresAt <= now
  }

  /** expire_pending_approvals: every due approval, its call and its waiting run. */
  ghost function ExpireDue(db: Db, now: int): Db {
    db.(
      approvals := map c | c in db.approvals ::
          if IsDue(db, c, now) then db.approvals[c].(status := ApprovalStatus.Expired, isUsed := true)
          else db.approvals[c],
      calls := map c | c in db.calls ::
                 if IsDue(db, c, now) && db.calls[c].row.status == PendingApproval then
                   db.calls[c].(row := db.calls[c].row.(status := CallStatus.Expired, error := Some("APPROVAL_EXPIRED"),
                       finished := true))
                 else db.calls[c],
      runs := map r | r in db.runs ::
                if db.runs[r].status == WaitingApproval
                    && (exists c :: IsDue(db, c, now) && db.approvals[c].run == r) then
                  db.runs[r].(status := Failed, finished := true)
                else db.runs[r])
  }

  function RecoverStuckRuns(db: Db, stuck: set<Id>): Db {
    db.(runs := map r | r in db.runs ::
        if r in stuck && db.runs[r].status == Running then db.runs[r].(status := Accepted) else db.runs[r])
  }

  /** latest[r] is the newest approval of run r. */
  predicate IsLatest(db: Db, r: Id, c: Id) {
    c in db.approvals && db.approvals[c].run == r
    && forall d :: d in db.approvals && db.approvals[d].run == r ==>
         db.approvals[d].createdAt <= db.approvals[c].createdAt
  }

  function RecoveredStatus(db: Db, r: Id, latest: map<Id, Id>): RunStatus
    requires r in db.runs
  {
    var s := db.runs[r].status;
    if s != WaitingApproval || r !in latest || !IsLatest(db, r, latest[r]) then s
    else
      match db.approvals[latest[r]].status
      case Approved => Accepted
      case Rejected => Cancelled
      case Expired => Cancelled
      case Pending => s
  }

  function Recovered(db: Db, r: Id, latest: map<Id, Id>): Run
    requires r in db.runs
  {
    var s := RecoveredStatus(db, r, latest);
    if s == db.runs[r].status then db.runs[r]
    else db.runs[r].(status := s, finished := db.runs[r].finished || IsOver(s))
  }

  function RecoverApprovalWaiting(db: Db, latest: map<Id, Id>): Db {
    db.(runs := map r | r in db.runs :: Recovered(db, r, latest))
  }

  ghost function Step(db: Db, a: Action): Db {
    match a
    case CreateRun(r, attempt, snapshot) =>
      if r in db.runs || attempt in db.attempts then db
      else SetRun(db, r, Run(Accepted, attempt, 0, false, snapshot)).(attempts := db.attempts + {attempt})
    case CreateToolCall(c, r, key, risky, expiresAt, now) =>
      if r !in db.runs || c in db.calls || !IsKeyFree(db, key) then db
      else AddCall(db, c, r, key, risky, db.runs[r].snapshot, expiresAt, now)
    case Decide(c, approve, now, isAllowed, seen) =>
      if c !in db.approvals || c !in db.calls || db.approvals[c].run !in db.runs || !isAllowed
         || db.runs[db.approvals[c].run].snapshot != db.approvals[c].snapshot then db
      else if db.approvals[c].status == Pending && !db.approvals[c].isUsed && db.approvals[c].expiresAt > now then
        DecideApproval(db, c, approve, seen)
      else db
    case DecideTooLate(c, now) =>
      if c !in db.approvals || db.approvals[c].expiresAt > now then db
      else
        db.(approvals := db.approvals[c := db.approvals[c].(status := ApprovalStatus.Expired, isUsed := true)],
            overwritten := if db.approvals[c].status == Approved then db.overwritten + {c} else db.overwritten)
    case ExpirePending(now) => ExpireDue(db, now)
    case RecoverStuck(stuck) => RecoverStuckRuns(db, stuck)
    case RecoverApprovals(latest) => RecoverApprovalWaiting(db, latest)
    case Process(r, saved, hasAgent, nodes, ending, todo) =>
      if r in db.runs then ProcessRun(db, r, saved, hasAgent, nodes, ending, todo) else db
    case Cancel(r, seen) =>
      if r !in db.runs || IsOver(seen.status) then db
      else if TransitionRun(db.runs[r], seen, Cancelled, None).Moved? then Move(db, r, Cancelled) else db
    case Stop(r, seen) =>
      if r !in db.runs || IsOver(seen.status) || seen.status == Stopping then db
      else if TransitionRun(db.runs[r], seen, Stopping, None).Moved? then Move(db, r, Stopping) else db
    case Replay(r, seen, newId) =>
      if seen.status == Completed || !IsOver(seen.status) then db else NewAttempt(db, r, seen, newId, None)
    case Restore(r, seen, newId, checkpoint) =>
      if !(seen.status == Failed || seen.status == Cancelled || seen.status == WaitingApproval) then db
      else NewAttempt(db, r, seen, newId, Some(checkpoint))
  }

  function NewAttempt(db: Db, r: Id, seen: Run, newId: Id, checkpoint: Option<int>): Db {
    if r !in db.runs || newId in db.attempts then db
    else
      match BeginNewAttempt(db.runs[r], seen, newId, checkpoint)
      case Err(_) => db
      case Ok(run) => SetRun(db, r, run).(attempts := db.attempts + {newId})
  }

  // ----- What every commit keeps -----

  /** finished_at is set exactly when the status is final, and attempt identifiers are handed out. */
  ghost predicate RunsOk(db: Db) {
    forall r {:trigger db.runs[r]} :: r in db.runs ==>
        (db.runs[r].finished <==> IsOver(db.runs[r].status)) && db.runs[r].attempt in db.attempts
  }

  /** A row that execution has not settled is waiting, about to start, or was left executing by an
      error; it has not used an attempt. */
  predicate IsRowOk(row: Call) {
    IsTerminal(row.status) || ((row.status == Created || row.status == PendingApproval || row.status == Executing)
        && row.attempt == 1)
  }

  /** An approval is pending exactly while it is unused, and exactly then its call waits for it,
      unless the approval ran out with nobody telling the call.  Calls without one never wait. */
  ghost predicate CallOk(db: Db, c: Id)
    requires c in db.calls
  {
    && IsRowOk(db.calls[c].row)
    && (c in db.approvals ==> (db.approvals[c].status == Pending <==> !db.approvals[c].isUsed))
    && (c in db.approvals && db.approvals[c].status == Pending ==> db.calls[c].row.status == PendingApproval)
    && (db.calls[c].row.status == PendingApproval ==> c in db.approvals)
    && (c in db.approvals && MayRun(db.calls[c].row.status) ==> c in db.approved)
    && (c in db.approved ==>
          && c in db.approvals && db.calls[c].row.status != PendingApproval && db.approvals[c].isUsed
          && (db.approvals[c].status == Approved || c in db.overwritten))
    && (c in db.approvals && db.approvals[c].status == Approved ==> c in db.approved)
    && (c in db.overwritten ==> c in db.approved && db.approvals[c].status == ApprovalStatus.Expired)
    && (c in db.unbacked ==> c in db.overwritten)
  }

  /** The states of a call that has been released for execution. */
  predicate MayRun(s: CallStatus) {
    s != PendingApproval && s != CallStatus.Rejected && s != CallStatus.Expired
  }

  ghost predicate CallsOk(db: Db) {
    && (forall c {:trigger db.calls[c]} :: c in db.calls ==> CallOk(db, c))
    && db.approvals.Keys <= db.calls.Keys && db.approved <= db.calls.Keys && db.overwritten <= db.calls.Keys
         && db.unbacked <= db.calls.Keys
  }

  ghost predicate KeysUnique(db: Db) {
    forall c, d :: c in db.calls && d in db.calls && db.calls[c].key == db.calls[d].key ==> c == d
  }

  ghost predicate Consistent(db: Db) {
    RunsOk(db) && CallsOk(db) && KeysUnique(db)
  }

  // ----- What no commit undoes -----

  /** Within one attempt a final status stays; another attempt has an identifier never used before. */
  ghost predicate RunEvolves(db: Db, later: Db, r: Id)
    requires r in db.runs && r in later.runs
  {
    && (later.runs[r].attempt == db.runs[r].attempt && IsOver(db.runs[r].status) ==>
         later.runs[r].status == db.runs[r].status)
    && (later.runs[r].attempt != db.runs[r].attempt ==> later.runs[r].attempt !in db.attempts)
  }

  /** A settled call never changes again. */
  ghost predicate CallEvolves(db: Db, later: Db, c: Id)
    requires c in db.calls && c in later.calls
  {
    && later.calls[c].key == db.calls[c].key && later.calls[c].run == db.calls[c].run
    && (IsTerminal(db.calls[c].row.status) ==> later.calls[c] == db.calls[c])
  }

  /** An approval leaves pending, and is used, at most once. */
  ghost predicate ApprovalEvolves(db: Db, later: Db, c: Id)
    requires c in db.approvals && c in later.approvals
  {
    && (db.approvals[c].isUsed ==> later.approvals[c].isUsed)
    && (db.approvals[c].status != Pending ==> later.approvals[c].status != Pending)
  }

  ghost predicate RunsEvolve(db: Db, later: Db) {
    && db.attempts <= later.attempts && db.runs.Keys <= later.runs.Keys
    && forall r {:trigger later.runs[r]} :: r in db.runs ==> RunEvolves(db, later, r)
  }

  ghost predicate CallsEvolve(db: Db, later: Db) {
    && db.calls.Keys <= later.calls.Keys
    && forall c {:trigger later.calls[c]} :: c in db.calls ==> CallEvolves(db, later, c)
  }

  ghost predicate ApprovalsEvolve(db: Db, later: Db) {
    && db.approvals.Keys <= later.approvals.Keys && db.overwritten <= later.overwritten
    && forall c {:trigger later.approvals[c]} :: c in db.approvals ==> ApprovalEvolves(db, later, c)
  }

  ghost predicate Evolves(db: Db, later: Db) {
    RunsEvolve(db, later) && CallsEvolve(db, later) && ApprovalsEvolve(db, later)
  }

  /** later is a consistent state that db can grow into. */
  ghost predicate Keeps(db: Db, later: Db) {
    Consistent(later) && Evolves(db, later)
  }

  lemma KeepsSelf(db: Db)
    requires Consistent(db)
    ensures Keeps(db, db)
  {
  }

  lemma RunsEvolveTransitive(a: Db, b: Db, c: Db)
    requires RunsOk(a) && RunsEvolve(a, b) && RunsEvolve(b, c)
    ensures RunsEvolve(a, c)
  {
    forall r | r in a.runs
      ensures r in c.runs && RunEvolves(a, c, r)
    {
      assert r in b.runs && RunEvolves(a, b, r) && RunEvolves(b, c, r) && a.runs[r].attempt in a.attempts;
    }
  }

  lemma CallsEvolveTransitive(a: Db, b: Db, c: Db)
    requires CallsEvolve(a, b) && CallsEvolve(b, c)
    ensures CallsEvolve(a, c)
  {
    forall x | x in a.calls
      ensures x in c.calls && CallEvolves(a, c, x)
    {
      assert x in b.calls && CallEvolves(a, b, x) && CallEvolves(b, c, x);
    }
  }

  lemma ApprovalsEvolveTransitive(a: Db, b: Db, c: Db)
    requires ApprovalsEvolve(a, b) && ApprovalsEvolve(b, c)
    ensures ApprovalsEvolve(a, c)
  {
    forall x | x in a.approvals
      ensures x in c.approvals && ApprovalEvolves(a, c, x)
    {
      assert x in b.approvals && ApprovalEvolves(a, b, x) && ApprovalEvolves(b, c, x);
    }
  }

  lemma KeepsTransitive(a: Db, b: Db, c: Db)
    requires Consistent(a) && Keeps(a, b) && Keeps(b, c)
    ensures Keeps(a, c)
  {
    RunsEvolveTransitive(a, b, c);
    CallsEvolveTransitive(a, b, c);
    ApprovalsEvolveTransitive(a, b, c);
  }

  // ----- Each small change keeps them -----

  /** Changes to run rows only. */
  lemma RunChangeKeeps(db: Db, later: Db)
    requires Consistent(db) && later == db.(runs := later.runs, attempts := later.attempts)
    requires RunsOk(later) && RunsEvolve(db, later)
    ensures Keeps(db, later)
  {
    forall c | c in later.calls ensures CallOk(later, c) {
      assert CallOk(db, c);
    }
  }

  lemma SetRunKeeps(db: Db, r: Id, run: Run)
    requires Consistent(db) && r in db.runs && run.attempt == db.runs[r].attempt
    requires run.finished <==> IsOver(run.status)
    requires IsOver(db.runs[r].status) ==> run.status == db.runs[r].status
    ensures Keeps(db, SetRun(db, r, run))
  {
    RunChangeKeeps(db, SetRun(db, r, run));
  }

  lemma MoveKeeps(db: Db, r: Id, next: RunStatus)
    requires Consistent(db) && r in db.runs && !IsOver(db.runs[r].status)
    ensures Keeps(db, Move(db, r, next))
  {
    assert !db.runs[r].finished;
    SetRunKeeps(db, r, db.runs[r].(status := next, finished := IsOver(next)));
  }

  /** Changes to one call, its approval and the records about it. */
  lemma CallChangeKeeps(db: Db, later: Db, c: Id)
    requires Consistent(db) && c in later.calls && CallOk(later, c)
    requires later.runs == db.runs && later.attempts == db.attempts && db.overwritten <= later.overwritten
    requires later.calls == db.calls[c := later.calls[c]]
    requires later.approvals == db.approvals
               || (c in later.approvals && later.approvals == db.approvals[c := later.approvals[c]])
    requires forall d :: d != c ==>
               (d in later.approved <==> d in db.approved) && (d in later.unbacked <==> d in db.unbacked)
                                    && (d in later.overwritten <==> d in db.overwritten)
    requires if c in db.calls then CallEvolves(db, later, c) else IsKeyFree(db, later.calls[c].key)
    requires c in db.approvals ==> ApprovalEvolves(db, later, c)
    ensures Keeps(db, later)
  {
    forall d | d in later.calls ensures CallOk(later, d) {
      if d != c { assert CallOk(db, d); }
    }
    assert KeysUnique(later) by {
      forall x, y | x in later.calls && y in later.calls && later.calls[x].key == later.calls[y].key ensures x == y {
        assert (x != c ==> x in db.calls) && (y != c ==> y in db.calls);
      }
    }
  }

  lemma AddCallKeeps(db: Db, c: Id, run: Id, key: string, risky: bool, snapshot: Id, expiresAt: int, now: int)
    requires Consistent(db) && c !in db.calls && IsKeyFree(db, key)
    ensures Keeps(db, AddCall(db, c, run, key, risky, snapshot, expiresAt, now))
  {
    var later := AddCall(db, c, run, key, risky, snapshot, expiresAt, now);
    CallChangeKeeps(db, later, c);
  }

  /** Executing a call keeps its row in order, unless the manifest cannot be read in which case the
      row is left executing. */
  lemma ExecuteRow(row: Call, a: Answers)
    requires IsRowOk(row)
    ensures var e := Execute(row, a.definition, a.policies, a.results);
            && IsRowOk(e.call) && e.call.status != PendingApproval && e.call.status != Created
            && (IsTerminal(row.status) ==> e.call == row)
  {
    ExecutionEndsTerminal(row, a.definition, a.policies, a.results);
  }

  lemma ExecuteCallKeeps(db: Db, c: Id, a: Answers)
    requires Consistent(db) && c in db.calls && db.calls[c].row.status != PendingApproval
    ensures Works(db, ExecuteCall(db, c, a))
  {
    ExecuteRow(db.calls[c].row, a);
    assert CallOk(db, c);
    CallChangeKeeps(db, ExecuteCall(db, c, a), c);
  }

  /** Calls are found, added and executed; decisions and run rows are left alone. */
  ghost predicate OnlyCallsChange(db: Db, later: Db) {
    later.runs == db.runs && later.attempts == db.attempts && later.approved == db.approved
        && later.overwritten == db.overwritten
  }

  ghost predicate Works(db: Db, later: Db) {
    Keeps(db, later) && OnlyCallsChange(db, later)
  }

  lemma WorksTransitive(a: Db, b: Db, c: Db)
    requires Consistent(a) && Works(a, b) && Works(b, c)
    ensures Works(a, c)
  {
    KeepsTransitive(a, b, c);
  }

  lemma FindOrAddKeeps(db: Db, r: Id, n: ToolNode)
    requires Consistent(db) && r in db.runs
    requires (exists c :: IsCallWith(db, n.key, c)) || n.newId !in db.calls
    ensures Works(db, FindOrAdd(db, r, n).0)
  {
    if exists c :: IsCallWith(db, n.key, c) {
      KeepsSelf(db);
    } else {
      forall c | c in db.calls ensures db.calls[c].key != n.key {
        assert !IsCallWith(db, n.key, c);
      }
      AddCallKeeps(db, n.newId, r, n.key, n.risky, db.runs[r].snapshot, n.expiresAt, n.now);
    }
  }

  lemma RunToolNodeKeeps(db: Db, r: Id, n: ToolNode)
    requires Consistent(db) && r in db.runs
    ensures var w := RunToolNode(db, r, n);
            w.Some? ==> Works(db, w.value.0)
  {
    if (exists c :: IsCallWith(db, n.key, c)) || n.newId !in db.calls {
      FindOrAddKeeps(db, r, n);
      var (found, c) := FindOrAdd(db, r, n);
      if found.calls[c].row.status != PendingApproval {
        ExecuteCallKeeps(found, c, n.answers);
        WorksTransitive(db, found, ExecuteCall(found, c, n.answers));
      }
    }
  }

  lemma {:induction false} RunToolNodesKeeps(db: Db, r: Id, nodes: seq<ToolNode>, ending: Ending)
    requires Consistent(db) && r in db.runs
    ensures var w := RunToolNodes(db, r, nodes, ending);
            w.Some? ==> Works(db, w.value.0)
    decreases |nodes|
  {
    KeepsSelf(db);
    if nodes != [] {
      RunToolNodeKeeps(db, r, nodes[0]);
      var w := RunToolNode(db, r, nodes[0]);
      if w.Some? && w.value.1.NodeDone? {
        RunToolNodesKeeps(w.value.0, r, nodes[1..], ending);
        RestKeeps(db, w.value.0, RunToolNodes(w.value.0, r, nodes[1..], ending));
      }
    }
  }

  lemma RestKeeps<T>(db: Db, after: Db, w: Option<(Db, T)>)
    requires Consistent(db) && Works(db, after)
    requires w.Some? ==> Works(after, w.value.0)
    ensures w.Some? ==> Works(db, w.value.0)
  {
    if w.Some? { WorksTransitive(db, after, w.value.0); }
  }

  lemma FailCallKeeps(db: Db, c: Id)
    requires Consistent(db) && c in db.calls && db.calls[c].row.status.Created?
    ensures Keeps(db, SetCall(db, c, db.calls[c].row.(status := PermanentlyFailed, error := Some("TOOL_NOT_FOUND"))))
  {
    assert CallOk(db, c);
    CallChangeKeeps(db, SetCall(db, c,
        db.calls[c].row.(status := PermanentlyFailed, error := Some("TOOL_NOT_FOUND"))), c);
  }

  lemma {:induction false} RunCreatedCallsKeeps(db: Db, todo: seq<(Id, Option<Answers>)>)
    requires Consistent(db)
    ensures var w := RunCreatedCalls(db, todo);
            w.Some? ==> Works(db, w.value.0)
    decreases |todo|
  {
    KeepsSelf(db);
    if todo != [] {
      var (c, a) := todo[0];
      if c !in db.calls || !db.calls[c].row.status.Created? {
        RunCreatedCallsKeeps(db, todo[1..]);
      } else if a.None? {
        FailCallKeeps(db, c);
      } else {
        ExecuteCallKeeps(db, c, a.value);
        var after := ExecuteCall(db, c, a.value);
        RunCreatedCallsKeeps(after, todo[1..]);
        RestKeeps(db, after, RunCreatedCalls(after, todo[1..]));
      }
    }
  }

  lemma FinishRunKeeps(db: Db, ending: Ending, r: Id, todo: seq<(Id, Option<Answers>)>, before: Db)
    requires Consistent(before) && Keeps(before, db) && r in db.runs && !IsOver(db.runs[r].status)
    ensures Keeps(before, FinishRun(db, ending, r, todo, before))
  {
    var saved := SetRun(db, r, db.runs[r].(checkpoint := db.runs[r].checkpoint + 1));
    SavedKeeps(before, db, r);
    match ending {
      case WorkflowWaits => MoveAfterKeeps(before, db, r, WaitingApproval);
      case WorkflowFailed(isSaved) => MoveAfterKeeps(before, if isSaved then saved else db, r, Failed);
      case WorkflowStopped => MoveAfterKeeps(before, db, r, Cancelled);
      case WorkflowOverBudget => MoveAfterKeeps(before, db, r, BudgetExceeded);
      case WorkflowDone =>
        KeepsSelf(before);
        MoveAfterKeeps(before, saved, r, WaitingApproval);
        CompleteKeeps(before, saved, r, todo);
    }
  }

  lemma SavedKeeps(before: Db, db: Db, r: Id)
    requires Consistent(before) && Keeps(before, db) && r in db.runs && !IsOver(db.runs[r].status)
    ensures Keeps(before, SetRun(db, r, db.runs[r].(checkpoint := db.runs[r].checkpoint + 1)))
  {
    assert !db.runs[r].finished;
    SetRunKeeps(db, r, db.runs[r].(checkpoint := db.runs[r].checkpoint + 1));
    KeepsTransitive(before, db, SetRun(db, r, db.runs[r].(checkpoint := db.runs[r].checkpoint + 1)));
  }

  lemma CompleteKeeps(before: Db, saved: Db, r: Id, todo: seq<(Id, Option<Answers>)>)
    requires Consistent(before) && Keeps(before, saved) && r in saved.runs && !IsOver(saved.runs[r].status)
    ensures var w := RunCreatedCalls(saved, todo);
            w.Some? && r in w.value.0.runs ==>
                Keeps(before, Move(w.value.0, r, if w.value.1 then Completed else Failed))
  {
    RunCreatedCallsKeeps(saved, todo);
    var w := RunCreatedCalls(saved, todo);
    if w.Some? {
      KeepsTransitive(before, saved, w.value.0);
      MoveAfterKeeps(before, w.value.0, r, if w.value.1 then Completed else Failed);
    }
  }

  lemma MoveAfterKeeps(before: Db, db: Db, r: Id, next: RunStatus)
    requires Consistent(before) && Keeps(before, db) && r in db.runs && !IsOver(db.runs[r].status)
    ensures Keeps(before, Move(db, r, next))
  {
    MoveKeeps(db, r, next);
    KeepsTransitive(before, db, Move(db, r, next));
  }

  lemma WorkKeeps(db: Db, claimed: Db, r: Id, nodes: seq<ToolNode>, ending: Ending, todo: seq<(Id, Option<Answers>)>)
    requires Consistent(db) && Keeps(db, claimed) && r in claimed.runs && !IsOver(claimed.runs[r].status)
    ensures var w := RunToolNodes(claimed, r, nodes, ending);
            w.Some? && r in w.value.0.runs ==> Keeps(db, FinishRun(w.value.0, w.value.1, r, todo, db))
  {
    RunToolNodesKeeps(claimed, r, nodes, ending);
    var w := RunToolNodes(claimed, r, nodes, ending);
    if w.Some? {
      KeepsTransitive(db, claimed, w.value.0);
      FinishRunKeeps(w.value.0, w.value.1, r, todo, db);
    }
  }

  lemma ProcessRunKeeps(db: Db, r: Id, saved: Option<int>, hasAgent: bool, nodes: seq<ToolNode>, ending: Ending,
        todo: seq<(Id, Option<Answers>)>)
    requires Consistent(db) && r in db.runs
    ensures Keeps(db, ProcessRun(db, r, saved, hasAgent, nodes, ending, todo))
  {
    var run := db.runs[r];
    KeepsSelf(db);
    if run.status == Stopping {
      MoveKeeps(db, r, Cancelled);
    } else if IsClaimable(run.status) {
      assert !run.finished;
      var row := Claimed(run, saved);
      SetRunKeeps(db, r, row);
      MoveAfterKeeps(db, SetRun(db, r, row), r, Failed);
      WorkKeeps(db, SetRun(db, r, row), r, nodes, ending, todo);
    }
  }

  // ----- Each action keeps them -----

  lemma DecidedKeeps(db: Db, c: Id, approve: bool)
    requires Consistent(db) && c in db.approvals && c in db.calls && db.approvals[c].status == Pending
    ensures Keeps(db, Decided(db, c, approve))
  {
    assert CallOk(db, c);
    CallChangeKeeps(db, Decided(db, c, approve), c);
  }

  lemma DecideKeeps(db: Db, c: Id, approve: bool, seen: Run)
    requires Consistent(db) && c in db.approvals && c in db.calls && db.approvals[c].run in db.runs
    requires db.approvals[c].status == Pending
    ensures Keeps(db, DecideApproval(db, c, approve, seen))
  {
    KeepsSelf(db);
    DecidedKeeps(db, c, approve);
    var r, next := db.approvals[c].run, if approve then Running else Failed;
    if seen.status == WaitingApproval && TransitionRun(db.runs[r], seen, next, None).Moved? {
      MoveAfterKeeps(db, Decided(db, c, approve), r, next);
    }
  }

  lemma DecideTooLateKeeps(db: Db, c: Id, now: int)
    requires Consistent(db)
    ensures Keeps(db, Step(db, DecideTooLate(c, now)))
  {
    KeepsSelf(db);
    if c in db.approvals && db.approvals[c].expiresAt <= now {
      assert c in db.calls && CallOk(db, c);
      CallChangeKeeps(db, Step(db, DecideTooLate(c, now)), c);
    }
  }

  lemma ExpireDueCall(db: Db, now: int, c: Id)
    requires Consistent(db) && c in db.calls
    ensures CallOk(ExpireDue(db, now), c) && CallEvolves(db, ExpireDue(db, now), c)
    ensures c in db.approvals ==> ApprovalEvolves(db, ExpireDue(db, now), c)
  {
    assert CallOk(db, c);
  }

  lemma ExpireDueKeeps(db: Db, now: int)
    requires Consistent(db)
    ensures Keeps(db, ExpireDue(db, now))
  {
    var later := ExpireDue(db, now);
    forall c | c in db.calls
      ensures CallOk(later, c) && CallEvolves(db, later, c) && (c in db.approvals ==> ApprovalEvolves(db, later, c))
      ensures later.calls[c].key == db.calls[c].key
    {
      ExpireDueCall(db, now, c);
    }
    assert RunsOk(later) && RunsEvolve(db, later) by {
      forall r | r in later.runs
        ensures (later.runs[r].finished <==> IsOver(later.runs[r].status)) && later.runs[r].attempt in later.attempts
                  && RunEvolves(db, later, r)
      {
        assert (db.runs[r].finished <==> IsOver(db.runs[r].status)) && db.runs[r].attempt in db.attempts;
      }
    }
  }

  lemma RecoverKeeps(db: Db, stuck: set<Id>, latest: map<Id, Id>)
    requires Consistent(db)
    ensures Keeps(db, RecoverStuckRuns(db, stuck)) && Keeps(db, RecoverApprovalWaiting(db, latest))
  {
    var a, b := RecoverStuckRuns(db, stuck), RecoverApprovalWaiting(db, latest);
    forall r | r in db.runs
      ensures (a.runs[r].finished <==> IsOver(a.runs[r].status)) && a.runs[r].attempt in a.attempts
                && RunEvolves(db, a, r)
      ensures (b.runs[r].finished <==> IsOver(b.runs[r].status)) && b.runs[r].attempt in b.attempts
                && RunEvolves(db, b, r)
    {
      assert (db.runs[r].finished <==> IsOver(db.runs[r].status)) && db.runs[r].attempt in db.attempts;
    }
    RunChangeKeeps(db, a);
    RunChangeKeeps(db, b);
  }

  lemma NewAttemptKeeps(db: Db, r: Id, seen: Run, newId: Id, checkpoint: Option<int>)
    requires Consistent(db)
    ensures Keeps(db, NewAttempt(db, r, seen, newId, checkpoint))
  {
    KeepsSelf(db);
    if r in db.runs && newId !in db.attempts {
      RunChangeKeeps(db, NewAttempt(db, r, seen, newId, checkpoint));
    }
  }

  lemma CancelKeeps(db: Db, r: Id, seen: Run)
    requires Consistent(db)
    ensures Keeps(db, Step(db, Cancel(r, seen))) && Keeps(db, Step(db, Stop(r, seen)))
  {
    KeepsSelf(db);
    if r in db.runs && Unchanged(db.runs[r], seen) && !IsOver(seen.status) {
      MoveKeeps(db, r, Cancelled);
      MoveKeeps(db, r, Stopping);
    }
  }

  lemma CreateKeeps(db: Db, a: Action)
    requires Consistent(db) && (a.CreateRun? || a.CreateToolCall?)
    ensures Keeps(db, Step(db, a))
  {
    KeepsSelf(db);
    if a.CreateRun? {
      if a.r !in db.runs && a.attempt !in db.attempts { RunChangeKeeps(db, Step(db, a)); }
    } else if a.r in db.runs && a.c !in db.calls && IsKeyFree(db, a.key) {
      AddCallKeeps(db, a.c, a.r, a.key, a.risky, db.runs[a.r].snapshot, a.expiresAt, a.now);
    }
  }

  /** Every action leads from a consistent state to a consistent state that it can grow into. */
  lemma StepKeeps(db: Db, a: Action)
    requires Consistent(db)
    ensures Keeps(db, Step(db, a))
  {
    KeepsSelf(db);
    match a {
      case CreateRun(_, _, _) => CreateKeeps(db, a);
      case CreateToolCall(_, _, _, _, _, _) => CreateKeeps(db, a);
      case Decide(c, approve, now, isAllowed, seen) =>
        if c in db.approvals && c in db.calls && db.approvals[c].run in db.runs && db.approvals[c].status == Pending {
          DecideKeeps(db, c, approve, seen);
        }
      case DecideTooLate(c, now) => DecideTooLateKeeps(db, c, now);
      case ExpirePending(now) => ExpireDueKeeps(db, now);
      case RecoverStuck(stuck) => RecoverKeeps(db, stuck, map[]);
      case RecoverApprovals(latest) => RecoverKeeps(db, {}, latest);
      case Process(r, saved, hasAgent, nodes, ending, todo) =>
        if r in db.runs { ProcessRunKeeps(db, r, saved, hasAgent, nodes, ending, todo); }
      case Cancel(r, seen) => CancelKeeps(db, r, seen);
      case Stop(r, seen) => CancelKeeps(db, r, seen);
      case Replay(r, seen, newId) => NewAttemptKeeps(db, r, seen, newId, None);
      case Restore(r, seen, newId, checkpoint) => NewAttemptKeeps(db, r, seen, newId, Some(checkpoint));
    }
  }
}
