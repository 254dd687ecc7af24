# Verified model of the agent platform

A Dafny model of the parts of the platform that have to be right whatever happens around them:
the workflow graph and its execution, the protocol of runs, tool calls and approvals, the event
log and its stream, keyed creation, the request cache of the web client, the rate limiter, the
embedding rebuild, the version history of tools, and cursors. `dafny verify dfyconfig.toml` checks
all of it.

Requests, worker passes, recovery and expiry passes, turns of the browser's event loop and database
sessions are steps of state machines over tables. Each step is one commit (or one uninterrupted turn
of the event loop), the unique constraints are guards, and the main results are about every history
of such steps. Code that changes things in place (queues, tables, rows, caches) is written as
methods and classes and proved to do what a function on values says; the results are then proved
about that function. Time, model and tool providers, the sandbox and what other sessions do are
parameters without restriction. Lemmas beside these functions say in plain terms, by fields, numbers and
texts, what each of them means (`WorkflowFields`, `WorkflowTurns`, `RunActions` and the `...Exactly` lemmas of
the other files).

| file | what it holds |
|---|---|
| `Base` | options, results, JSON values, code-point order, sorted sequences |
| `Graph` | walks, reachability, acyclicity, levels |
| `Workflow`, `WorkflowOrder`, `Branches`, `ParallelGroups` | validation, the canonical order, branch exclusion and dependants, grouping for parallel computation |
| `WorkflowExecutor`, `WorkflowTurns` | running a workflow: context, budgets, pruning; what the turn of one node does |
| `WorkflowEditor`, `WorkflowFields`, `WorkflowRoundTrip` | editor graphs to stored workflows and back, field by field |
| `ToolCalls`, `RunProtocol`, `RunActions`, `RunHistory`, `Approvals`, `RunStore` | one tool call; all actions on runs, calls and approvals; what each commit does to every row; whole histories; which calls have an approval; the functions that change rows |
| `RuntimeEvents`, `EventStream` | numbering events; reading them over a stream that is cut and resumed |
| `Idempotency` | keyed creation of runs and agents |
| `ApiCache`, `CacheKeys` | the request cache of the web client and the strings it uses as keys |
| `RateLimiter`, `DistributedLimiter` | sliding window and fixed windows |
| `EmbeddingRebuild`, `ToolVersions` | loops and histories over stored rows |
| `Base64`, `JsonText`, `Cursors`, `Paging`, `Listing` | cursor text and the pages it connects |

## What the code does not promise

Some natural claims are false of the code. Each has a lemma with a concrete input, and where the claim
holds under a condition a lemma says exactly which.

- An approval that was granted in time can be overwritten by a decision request that read it earlier
  and finds it expired: that branch writes without a condition (app/main.py:1210-1213). The call is
  then executed while its row says expired (`ApprovalLostByLateExpiry`). A call becomes exposed to this
  exactly by that overwrite (`ExposedExactlyByLateExpiry`).
- A manifest whose `maxAttempts` is no number leaves the call `executing`
  (`MalformedManifestLeavesCallExecuting`); execution ends terminal exactly in the cases of
  `ExecutionEndsTerminal`, and a commit leaves a call executing exactly if its workflow stops at such a
  manifest on that call (`LeftExecutingByMalformedManifest`). A later attempt of the run can complete and
  still carry such a call (`CompletedWithCallExecuting`): exactly if the call was executing before the
  completing commit and no node of its workflow asks for the call's key (`CompletedRunIsSettled`).
- The node of a risky tool can run without any approval (`RiskyNodeRunsUnapproved`): the worker finds the
  call of a node by its key, whatever tool it was stored for. This happens exactly if a call with that key
  is stored that is not settled and has no approval (`RiskyNodeWithoutApprovalExactly`), and a call has an
  approval exactly if it was created for a risky tool (`ApprovalComesWithTheCall`).
- A condition whose unselected target is the empty string prunes nothing, so that a dependant of that
  target runs (`DependantOfEmptyTargetRuns`). The turn of a condition takes out the branch not taken exactly
  if its target is not the empty string or the branch was out before (`PruningIsCompleteUnlessEmpty`).
- A client request that was sent again with a refreshed token can be joined under its old key after
  the scope of its response was invalidated (`JoinedAfterRefreshCanBeStale`). What the joiner gets is fresh
  exactly if it was sent after the join or the counter of its scope has not moved between the send and the
  join (`JoinedIsFreshExactly`), and belongs to another identity exactly if the refreshed token changed the
  key (`JoinedKeyDiffersExactly`). Cache keys of two URLs collide exactly when one URL continues the other
  with `|auth:` (`UrlsCollideExactly`).
- An empty idempotency key is no key (`EmptyKeyIsNoKey`): a key names at most one resource in every history
  exactly if it is not empty (`OneResourceExactlyForKeys`).
- With two attempts a resumed event stream skips events of the second (`SecondAttemptIsSkipped`), because
  positions are numbers and each attempt counts from 1. A client with the first m events is sure to get the
  rest exactly if the number of its last event is at least every earlier one and below every later one, and
  the later ones grow (`CompletesExactlyIfAscending`): for two attempts, exactly if it has as many events of
  the second as the first has (`CompletesTwoAttemptsExactly`).
- A check of the shared rate limit that does not consume says yes when the limit is exactly used up
  (`PeekAgreesUnlessUsedUp`). A sliding window can hold twice the limit there (`TwiceTheLimitHappens`), in
  windows of any length and wherever they start (`TwiceTheLimitEverywhere`): that no window holds more than the
  limit is so exactly for the limit 0 (`WithinLimitOnlyForNone`), with which the store is never asked.
- A forced embedding rebuild can stop early when a stored time lies in the future (`ForceCanStall`). It completes
  only if its candidates fit into one batch or none beyond the first page sorts after all of that page once
  it is stamped, and with a steady clock exactly if that is so (`StalledRunIsExact`).

## Model

| member | source | states |
|---|---|---|
| Workflow.ValidateWorkflow | app/runtime.py:142-173 | accepts exactly the lists with known unique keys, well-formed nodes and an acyclic `depends_on` graph, repeated and self-dependencies included, and names the first fault otherwise |
| Workflow.BuildTables | app/runtime.py:155-161 | the in-degrees count every dependency entry, repeats included, and the dependants lists mirror them |
| Workflow.CountVisited | app/runtime.py:162-171 | the queue loop ends, and visits all nodes exactly when no cycle holds any back |
| Workflow.WellFormedFieldByField | app/runtime.py:142-154 | what is checked of a list before its graph, node by node and field by field |
| Workflow.ComplaintFieldByField | app/runtime.py:142-154 | which complaint a node gets: by its type, then by its condition fields and targets, then by its dependencies |
| Workflow.SchedulingEdgesNodeByNode | app/runtime.py:211-214 | an edge leads from every dependency, and from every condition to each of its two targets, and there are no others |
| WorkflowOrder.OrderWorkflow | app/runtime.py:206-226 | succeeds exactly when the list is well-formed and the graph of dependencies and condition branches is acyclic; the result is the canonical schedule |
| WorkflowOrder.Round | app/runtime.py:216-225 | one round schedules exactly the nodes of the next level, in key order |
| WorkflowOrder.ScheduleFollowsEdges | app/runtime.py:211-221 | in a schedule every node follows its dependencies and the conditions that route to it |
| WorkflowOrder.ScheduleIsCanonical | app/runtime.py:206-226 | the schedule depends on the nodes, not on the order in which they are listed |
| WorkflowOrder.SameEdgesSameKeyOrder | app/runtime.py:206-226 | equal scheduling edges give equal key orders |
| Base.StrLessIsCodePointOrder | app/runtime.py:222 | of two keys the lesser is a proper prefix of the other or has the smaller character at the first difference |
| WorkflowOrder.ScheduleSortsLevels | app/runtime.py:216-225 | a node comes before another in the schedule if and only if its level is lower, or the levels are equal and its key is the lesser in that sense |
| Branches.BranchExcludedKeys | app/runtime.py:176-192 | the loop ends with the known keys of the least set that holds the root and is closed under the rule that all real dependencies are excluded |
| Branches.LeastClosedIsUnique | app/runtime.py:176-192 | that set does not depend on the order of the nodes |
| Branches.ExcludedAreDependants | app/runtime.py:176-192 | it lies within the root and its transitive dependants |
| Branches.ExcludedByTheRule | app/runtime.py:180-192 | a key is excluded if and only if it is the root, or that of a node other than the condition that has an excluded dependency and, besides the condition, no dependency that is not excluded |
| Branches.DependantsMap | app/worker.py:287-291 | the map has exactly the `depends_on` edges |
| Branches.GetAllDescendants | app/worker.py:294-303 | the recursive walk with its shared visited set ends, and describes its result for any visited set it starts from |
| Branches.DescendantsAreStrictDependants | app/worker.py:294-303 | started afresh it returns exactly the strict transitive dependants |
| Branches.Descendants | app/worker.py:294-303 | so does the call that the worker makes |
| ParallelGroups.Depths | app/worker.py:102-104 | the depth of a node is one more than its level, the length of the longest `depends_on` walk that ends there |
| ParallelGroups.Groups | app/worker.py:105-111 | the groups are, for every depth, its eligible nodes in order |
| ParallelGroups.GroupExactly | app/worker.py:105-111 | a group has exactly the model, prepare and finalize nodes of its depth that are no target of a condition |
| ParallelGroups.GroupIsIndependent | app/worker.py:105-112 | no node of a group depends on another through `depends_on`, directly or not |
| ParallelGroups.GroupIsUnordered | app/worker.py:277-278 | without conditions, as the worker requires, the hidden dependencies do not order them either |
| ParallelGroups.GroupedThroughCondition | app/worker.py:105-112 | with conditions they can: a concrete workflow |
| WorkflowExecutor.WorkflowExecution.ExecuteWorkflow | app/worker.py:271-439 | fails without running anything for lists that do not order or are too long, and otherwise leaves exactly the state and outcome that running the schedule node by node gives; for every ending the output, and whether a checkpoint is added and which |
| WorkflowExecutor.WorkflowExecution.TakeTurn | app/worker.py:308-347 | stop request, quota, budgets, branches and `when` in the order of the code |
| WorkflowExecutor.WorkflowExecution.RunNodeNow | app/worker.py:347-420 | what each type of node does to context, outputs, usage, selections and exclusions |
| WorkflowExecutor.WorkflowExecution.ExcludeBranch | app/worker.py:365-369 | excludes the unselected target and its dependants |
| WorkflowExecutor.ContextIsInputPlusOutputs | app/worker.py:274-424 | at every step the context is the run input overridden exactly at the keys of succeeded nodes by their outputs |
| WorkflowExecutor.UsageIsAccounted | app/worker.py:352-358 | accounted tokens and cost are the starting ones plus those of the succeeded model nodes |
| WorkflowExecutor.TokensStayWithinOneCall | app/worker.py:316-325 | with a positive token limit and a start below it the total passes the limit by less than one model call |
| WorkflowExecutor.ToolCallsAreBounded | app/worker.py:374-377 | at most fifty tool nodes execute; the next one ends the execution |
| WorkflowExecutor.SucceededWasSelected | app/worker.py:327-331 | a node that conditions route to succeeds only if a condition that succeeded selected it |
| WorkflowExecutor.UnselectedBranchNeverRuns | app/worker.py:327-336 | once a condition is evaluated, its unselected target and all its transitive dependants never run |
| WorkflowExecutor.PruningIsCompleteUnlessEmpty | app/worker.py:365-369 | after the turn of a condition the unselected target and its dependants are excluded if and only if the target is not the empty string or they were excluded before |
| WorkflowExecutor.DependantOfEmptyTargetRuns | app/worker.py:327-369 | a concrete workflow in which a node that depends on the unselected empty target succeeds |
| WorkflowExecutor.ScheduleIsWellFormed | app/runtime.py:206-226 | what holds of a validated list holds of its schedule |
| WorkflowTurns.WholeExecution | app/worker.py:270-278 | more than a hundred nodes are refused, an error of the parallel part fails the run, and otherwise the outcome is that of the turns |
| WorkflowTurns.StartsFresh | app/worker.py:270-306 | an execution starts with the run input as its context and with what the run has spent, and with nothing else |
| WorkflowTurns.ChecksOfATurn | app/worker.py:313-327 | what a turn does at each check, in order: a stop request, the soft limit for tool nodes only, a reached token or cost limit end the execution with their code; a branch that leaves the node out or a `when` that does not hold gives it the status skipped and changes nothing else |
| WorkflowTurns.RunsExactlyIfItsConditionHolds | app/worker.py:308-343 | however the execution goes on: a node has a status other than skipped if and only if its turn came, no check ended the execution, no branch left it out and its `when` held on the context of that turn; it is skipped if and only if its turn came and a branch left it out or its `when` did not hold |
| WorkflowTurns.ModelNodeRuns | app/worker.py:344-359 | a model node adds all three counts of tokens and its cost, and publishes its output |
| WorkflowTurns.ConditionNodeRuns | app/worker.py:360-369 | a condition publishes how it evaluated, selects the target of that branch, and excludes the other one with its dependants |
| WorkflowTurns.ToolNodeRuns | app/worker.py:373-418 | a tool node counts before it is called, the fifty-first ends the execution, and a call that waits or does not succeed ends it too |
| WorkflowTurns.OtherNodeRuns | app/worker.py:370-372 | start, prepare, finalize and end nodes succeed with their output |
| WorkflowTurns.StoppingRunsNothing | app/worker.py:313-315 | a run that is to stop gives no node a status |
| WorkflowTurns.OutputByEnding | app/worker.py:275-438 | the output of the run row for every ending |
| WorkflowTurns.CheckpointByEnding | app/worker.py:421-439 | a checkpoint is left by completing, and by failing unless there were too many nodes |
| WorkflowEditor.WorkflowPayload | app/routers/workflows.py:60-106 | every answer of the normalisation: the errors in their order, or the stored nodes with the sources of their edges, each once, as dependencies |
| WorkflowEditor.GroupEdges | app/routers/workflows.py:71-81 | finds the first bad edge, or groups the sources by target without repeats in order of appearance |
| WorkflowEditor.WorkflowOut | app/routers/workflows.py:124-174 | shows the stored nodes, and an edge for each stored dependency and branch, without repeats |
| WorkflowFields.SavedFieldByField | app/routers/workflows.py:82-99 | in every accepted payload each field of a stored config comes from the node data, else from the config, else from the root, and no other field occurs; the stored type, label and identifier by their sources; the dependencies are exactly the sources of the edges that lead to the node |
| WorkflowFields.AnswersExactly | app/routers/workflows.py:29-106 | for every payload which answer it gets: no nodes, bad identifiers, the first bad edge, or the first refused node with the field it is refused for, by the type of the node |
| WorkflowFields.InvalidFieldExactly | app/routers/workflows.py:29-57 | for every type and config the field that is refused, in terms of missing, blank and unsuitable values |
| WorkflowFields.TrimmedIsStrip | app/routers/workflows.py:62-70 | the trimmed text is the only stretch of the text without blanks at its ends and with nothing but blanks around it |
| WorkflowFields.BlanksByNumber | app/routers/workflows.py:62 | which characters up to U+00FF are blanks |
| WorkflowFields.LoadedFieldByField | app/routers/workflows.py:131-135 | how every field of a stored node is shown |
| WorkflowFields.LabelsExactly | app/routers/workflows.py:146-173 | the edge to the target of `true_next` carries "true", that of `false_next` carries "false", no other edge carries a label, and an edge without one is a dependency |
| WorkflowFields.BranchTakesFirstEdge | app/routers/workflows.py:149-173 | a branch labels the first edge of its ends that has no label or that one, and is added at the end if there is none |
| WorkflowFields.ShownOnce | app/routers/workflows.py:124-173 | for nodes with distinct keys and dependencies no edge is shown twice, and one without a label is shown for exactly the dependencies that are no branches |
| WorkflowFields.RuntimeFieldByField | app/runtime.py:142-154 | what the runtime reads of a stored node |
| WorkflowFields.KindsByName | app/runtime.py:147 | the node types by their names |
| WorkflowRoundTrip.RoundTrip | app/routers/workflows.py:60-174 | loading and saving a saved workflow is accepted and makes the dependencies of each node its old ones plus the conditions that route to it |
| WorkflowRoundTrip.RoundTripKeepsOrder | app/runtime.py:206-226 | the order in which the nodes run does not change |
| WorkflowRoundTrip.SecondRoundTripIsIdentity | app/routers/workflows.py:60-174 | a second load and save changes no dependency list |
| WorkflowRoundTrip.AcceptedIsSaved | app/routers/workflows.py:60-106 | whatever is accepted, with trimmed ids and configs without structural names, is such a saved workflow |
| ToolCalls.ToolCallRow.Run | app/runtime.py:275-320 | the row after execution: refused, denied, or driven by what the attempts answer |
| ToolCalls.DecidingPolicy | app/runtime.py:283-290 | the last policy that mentions the tool decides |
| ToolCalls.PoliciesDecide | app/runtime.py:275-290 | a call that is not settled, of an allowed tool, is rejected without an attempt if and only if there are policies and none is about the tool, or the last that is has another effect than allow, does not allow the side effects that the tool has, or does not list its risk |
| ToolCalls.AttemptsEndTheCall | app/runtime.py:294-318 | otherwise the call ends with the first attempt that is not retryable or the last that the manifest allows, one at least and five at most: succeeded with its output, timed out with SANDBOX_TIMEOUT, or failed for good with its error |
| Base.MaxAndMin | app/runtime.py:295 | which of two numbers the bounds of the attempts keep |
| ToolCalls.SettledByOneAttempt | app/runtime.py:296-318 | exactly one attempt settles the call, every earlier one was retryable, and the row records that one |
| ToolCalls.ExecutionEndsTerminal | app/runtime.py:275-320 | execution ends terminal if and only if the call was terminal, is refused or denied, or the manifest reads well and an attempt is left |
| ToolCalls.AttemptsAreBounded | app/runtime.py:296-298 | a fresh call makes at most clamp(maxAttempts, 1, 5) attempts |
| ToolCalls.MalformedManifestLeavesCallExecuting | app/runtime.py:293-297 | the call that stays executing |
| RunProtocol.MovesFollowTheTable | app/runtime.py:17-25 | a transition moves the row exactly along an edge of the table, from the status the row has |
| RunActions.MovesByTarget | app/runtime.py:19-25 | for every status the ones from which a run can move to it |
| RunActions.TransitionAnswers | app/runtime.py:58-83 | exactly when a transition is refused, is already there, raises INVALID_STATE_TRANSITION or VERSION_CONFLICT, or moves the row |
| RunActions.FinalStatuses | app/runtime.py:18 | which statuses are final |
| RunProtocol.StepKeeps | app/main.py:979-1270 | every handler, worker, recovery and expiry commit keeps the invariant of all tables and undoes nothing final |
| RunProtocol.ProcessRunKeeps | app/worker.py:481-558 | so does processing a claimed run, through its workflow, its created calls and its final status |
| RunProtocol.ExpireDueKeeps | app/runtime.py:323-339 | so does the expiry pass |
| RunProtocol.RecoverKeeps | app/worker.py:164-196 | so do both recovery passes |
| RunActions.DecisionTakesEffect | app/main.py:1198-1270 | a decision changes something if and only if the approval is pending, unused and unexpired and belongs to a run that still has its snapshot and, if the session saw the run waiting, is as it was seen; then an approval leaves the approval approved and the call created, a rejection both rejected |
| RunActions.DecisionMovesTheRun | app/main.py:1243-1253 | if its session saw the run waiting, an approval leaves it running and unfinished, a rejection failed and finished; otherwise no run changes |
| RunActions.LateDecisionExpires | app/main.py:1209-1214 | a decision that finds the approval expired uses it up and touches nothing else |
| RunActions.CallIsCreated | app/main.py:980-1010 | a call under a new key is stored, waiting with its approval if its tool is risky |
| RunActions.RunIsCreated | app/main.py:512-535 | a new run is accepted, at checkpoint 0 and unfinished |
| RunActions.RunIsCancelledOrStopped | app/main.py:658-677 | cancelling ends a run at once, asking it to stop happens once, and neither touches a run that is over |
| RunActions.RunIsReopened | app/runtime.py:86-111 | which runs replay and restore reopen, from which checkpoint and under which attempt |
| RunActions.ReopeningAnswers | app/runtime.py:86-111 | exactly when a new attempt raises RUN_NOT_REPLAYABLE or VERSION_CONFLICT, and the reopened row otherwise |
| RunActions.ApprovalsExpire | app/runtime.py:323-333 | the expiry pass ends exactly the approvals that have run out and the calls that wait for them |
| RunActions.RunsExpire | app/runtime.py:334-336 | it fails exactly the waiting runs with such an approval |
| RunActions.WaitingRunsAreResumed | app/worker.py:182-196 | a waiting run is queued again once its newest approval is granted, cancelled and finished once that is rejected or expired, and left alone while it is pending |
| RunActions.StuckRunsAreQueued | app/worker.py:164-179 | exactly the stuck running runs are queued again |
| RunActions.RunIsTaken | app/worker.py:485-502 | a run that is to stop is cancelled, an interrupted one goes on from its latest checkpoint, one without its agent fails |
| RunActions.RunEndsEarly | app/worker.py:503-531 | what becomes of the row for every early ending of its workflow |
| RunActions.RunEndsDone | app/worker.py:532-556 | a workflow that was done leaves the run waiting if a call of it waits, and otherwise completed or failed as its created calls say |
| RunActions.FirstNodeDecides | app/worker.py:394-416 | the first tool node uses the stored call of its key or stores one, and waits, goes on or fails as the call does |
| RunActions.NoNodeLeft | app/worker.py:394-401 | without a tool node left the workflow ends as it does, and storing a call under a taken identifier undoes everything |
| RunActions.FirstCallDecides | app/worker.py:538-551 | the first created call fails if its tool is gone, and the first that does not succeed is the last to be executed |
| RunActions.NoCallLeft | app/worker.py:538-551 | calls that are not created any more are passed over, and without any left the run has succeeded |
| RunHistory.HistoryKeeps | app/runtime.py:58-111 | in every history every commit is consistent and later ones extend earlier ones |
| RunHistory.FinalStatusStays | app/runtime.py:17-111 | `finished_at` is set exactly when the status is final; within an attempt a final status never changes; an attempt that was left never returns |
| RunHistory.AttemptChangesOnlyByReopening | app/runtime.py:86-111 | the attempt changes only by replay or restore of a run that is over or waiting, to an identifier never used before |
| RunHistory.ApprovalIsUsedOnce | app/main.py:1226-1242 | an approval is pending exactly while unused and leaves pending at most once |
| RunHistory.ReleasedOnlyByApproval | app/main.py:1198-1270 | a call created waiting is released only after its approval was granted in time, and its row says approved whenever it is executed unless a late expiry overwrote it |
| RunHistory.ExposedExactlyByLateExpiry | app/main.py:1209-1214 | a released call loses the backing of its approval if and only if that branch overwrites an approved row |
| RunHistory.ApprovalLostByLateExpiry | app/main.py:1209-1214 | a history of five commits in which that happens and the call is executed |
| RunHistory.KeyRunsToOneResult | app/worker.py:394-418 | a settled call never changes again, through approval, replay and restore, so calls of one idempotency key come to one result |
| RunHistory.CompletedRunIsSettled | app/worker.py:532-552 | the commit that completes a run is the worker's, and leaves a call of the run unsettled if and only if the call was executing before and no tool node has its key |
| RunHistory.CompletedWithCallExecuting | app/worker.py:532-552 | a history of four commits whose last completes a run that still has a call executing |
| RunHistory.LeftExecutingByMalformedManifest | app/worker.py:414-439 | a commit leaves a call executing if and only if the first tool node of its workflow that is not done meets a malformed manifest on that call, and then the run failed |
| Approvals.ApprovalComesWithTheCall | app/main.py:994-1000 | in every history a call has an approval if and only if the commit that created it did so for a risky tool |
| Approvals.RiskyNodeWithoutApprovalExactly | app/worker.py:394-414 | the node of a risky tool executes a call without an approval if and only if that call is stored under its key, is not settled and has none |
| Approvals.UnapprovedWasHarmless | app/main.py:984-1000 | in every history such a call was created for a tool that is not risky |
| Approvals.RiskyNodeRunsUnapproved | app/worker.py:394-414 | a history of three commits in which that happens and the run completes |
| RunStore.Store.Transition | app/runtime.py:58-83 | the compare-and-set, its answers and its errors |
| RunStore.Store.BeginAttempt | app/runtime.py:86-111 | the row of a reopened run, and the errors |
| RunStore.Store.ExpirePendingApprovals | app/runtime.py:323-339 | the loop expires exactly the due approvals with their waiting calls and runs, and counts them |
| RunStore.Store.RecoverStuck | app/worker.py:164-179 | the loop queues again exactly the stale runs without a live lock |
| RunStore.Store.RecoverApprovals | app/worker.py:182-196 | the loop resumes or cancels waiting runs by their newest approval |
| RuntimeEvents.EventsAreNumbered | app/events.py:20-41 | in every interleaving of sessions the committed events of each attempt are numbered 1, 2, 3, ... in commit order |
| RuntimeEvents.StepKeeps | app/events.py:20-41 | every load, record, new attempt, commit and rollback keeps that, by the cached counters and the unique constraint |
| RuntimeEvents.LockedCounterIsHighest | app/events.py:20-29 | a counter read under the row lock equals the highest number stored or pending, and its commit is refused only for an identifier that is taken |
| RuntimeEvents.RunObject.RecordRuntimeEvent | app/events.py:11-41 | the number, the cached counter and the added row |
| RuntimeEvents.RecordAppends | app/events.py:20-41 | recording an event appends one with the number after the counter of its session or, without one, directly after the highest stored number of its attempt, and waits for the row lock unless the copy of the run is stale |
| RuntimeEvents.BeginAttemptReopens | app/runtime.py:86-111 | a reopened run starts its new attempt with event 1 |
| RuntimeEvents.CommitStores | app/events.py:20-41 | a commit stores what is pending, in order, and fails exactly if the number or the identifier of a pending event is taken |
| RuntimeEvents.LoadsAndLeaves | app/events.py:20-29 | a session loads the current attempt without a counter, and one that leaves takes its pending events and its lock with it |
| EventStream.Stream | app/main.py:312-342 | the events delivered over the polls until one finds the run over |
| EventStream.LaterIsRestExactly | app/main.py:322-326 | one query answers what follows the first m events if and only if the number tells those from the rest and the rest is in the order of its numbers |
| EventStream.StreamIsSlice | app/main.py:312-342 | where the numbers grow, each event after the start is delivered once and in order, up to the end of the last snapshot read |
| EventStream.WholeExactlyIfAscending | app/main.py:312-342 | for any log: however it grows between the polls the stream delivers what follows the first m events, if and only if the start number tells them from the rest and the numbers of the rest grow |
| EventStream.LogAscends | app/main.py:640-645 | in the log of a run with one attempt that holds of every m: each number stands for its position |
| EventStream.ResumedStreamIsWhole | app/main.py:635-655 | from there on, whatever connections a client makes and wherever they are cut, it has the log from the start, each event once and in order |
| EventStream.LastConnectionCompletes | app/main.py:635-655 | an accepted connection that reads the whole log and is not cut completes what the client has |
| EventStream.CompletesExactlyIfAscending | app/main.py:635-655 | for any log with distinct identifiers: such connections always complete it if and only if the number of the last event that the client has tells what it has from the rest, and the numbers of the rest grow |
| EventStream.CompletesTwoAttemptsExactly | app/main.py:322-326 | in a log of two attempts that is so if and only if the client has as many events of the second as the first has |
| EventStream.RefusedExactlyOutsideWindow | app/main.py:640-652 | a resume is refused if and only if the first unexpired event comes after the one needed next |
| EventStream.ResumesExactly | app/main.py:639-652 | for any log and header: a request resumes after the number of the first event with the identifier, else after the header read as an integer, and is refused without either or if every unexpired event, of which there is one, comes later than the next number |
| EventStream.SecondAttemptIsSkipped | app/main.py:322-326 | a concrete log of two attempts whose second is skipped |
| EventStream.StoredIsLog | app/events.py:20-41 | until a run is reopened its committed events are a log with numbers 1, 2, 3, ... and distinct identifiers, however its sessions interleave |
| EventStream.SnapshotsArePolls | app/main.py:322-333 | what is read at later and later turns of any history are growing prefixes of the log it ends with |
| Idempotency.AtMostOneResource | app/main.py:451-543 | under any interleaving at most one run or agent is committed for a tenant and a non-empty key |
| Idempotency.SuccessesAgree | app/idempotency.py:20-54 | successful replies for a key are the same response about that resource, and had the same fingerprint |
| Idempotency.LaterRequestsReplay | app/idempotency.py:20-33 | once a key has its record, later requests are answered from it, with success if and only if the fingerprints agree |
| Idempotency.RecordsStay | app/idempotency.py:36-54 | records and replies are final |
| Idempotency.StepKeeps | app/routers/agents.py:31-53 | every read, refusal, commit and second read keeps records, resources and replies in agreement |
| Idempotency.EmptyKeyIsNoKey | app/idempotency.py:21-22 | for every tenant, a history in which two requests with an empty key create two agents |
| Idempotency.OneResourceExactlyForKeys | app/idempotency.py:20-54 | every history has at most one resource for a tenant and a key if and only if the key is not empty |
| Idempotency.RecordTable.ReplayOrRejectKey | app/idempotency.py:20-33 | no record, a rejection or the recorded response |
| Idempotency.RecordTable.PersistResponse | app/idempotency.py:36-54 | the added record, or the refusal by the unique constraint |
| Idempotency.RecordTable.Create | app/main.py:451-543 | an uninterrupted keyed request is answered from the record of its key, old or new |
| Idempotency.FirstKeyedRequestCreates | app/main.py:451-543 | in every history a prepared request with a key gets its own resource, record and reply if no record of the key is stored at its commit and no other constraint breaks |
| Idempotency.CommitCreates | app/main.py:512-541 | a commit creates the resource, with the record of its key, exactly if neither that nor another constraint stands in its way, and is a conflict otherwise |
| Idempotency.ReadAnswers | app/idempotency.py:20-33 | both reads answer from the record of the key, refuse another fingerprint, and without a record go on or report the conflict |
| Idempotency.ArriveAndRefuse | app/main.py:451-490 | arriving stores the request, and a refusal ends it before its commit |
| Idempotency.ReadWithoutKey | app/idempotency.py:20-33 | without a key nothing is looked up |
| ApiCache.StoredIsFresh | web/lib/api.ts:126-129 | a stored response was sent for its key after the last invalidation of its scope and the last clear, token refresh included |
| ApiCache.CachedIsFresh | web/lib/api.ts:95-98 | so was a response that is served from the cache |
| ApiCache.CachedWithinFiveSeconds | web/lib/api.ts:9-132 | in every history a response served from the cache was stored less than 5000 milliseconds before |
| ApiCache.RequestFinds | web/lib/api.ts:87-107 | what a request finds: a fresh entry, the request in flight that it joins, or nothing |
| ApiCache.ResponseIsStored | web/lib/api.ts:126-133 | exactly when a response is stored, under which key and scope and until when |
| ApiCache.FlightIsForgotten | web/lib/api.ts:136-140 | a flight is forgotten exactly if it is still that of the settled call |
| ApiCache.TokenIsRefreshed | web/lib/api.ts:115-130 | a refused token is refreshed once, and the request sent again under the key and scope of the new one |
| ApiCache.RequestIsSent | web/lib/api.ts:108-114 | with what key, scope and counters a request is sent |
| ApiCache.RequestChangesTables | web/lib/api.ts:87-140 | what a request changes in the maps, by method and by what it finds |
| ApiCache.InvalidateAndClear | web/lib/api.ts:57-70 | an invalidation drops the entries and flights of its scope and moves its counter, a clear drops everything and moves the other counter |
| ApiCache.JoinedIsFresh | web/lib/api.ts:101-104 | a request in flight is joined only under its own key and if it was made after the last invalidation of that key's scope and the last clear |
| ApiCache.JoinedIsFreshExactly | web/lib/api.ts:101-130 | for every history, join and later turn: nothing invalidated the scope of the joined call's response between its send and the join if and only if it was sent after the join or the counter noted at the send is still that of the scope at the join |
| ApiCache.JoinedKeyDiffersExactly | web/lib/api.ts:112-124 | the response has another key than the joiner asked for if and only if the call was sent again with a token that changed the key |
| ApiCache.JoinedAfterRefreshCanBeStale | web/lib/api.ts:112-124 | a history of five turns in which a request joins a response sent before the last invalidation of its scope, under another key |
| ApiCache.StepKeeps | web/lib/api.ts:57-142 | every turn of the event loop keeps the freshness of entries, flights and generation counters, through the reset of the counters on clear |
| ApiCache.ClientCache.InvalidateApiCache | web/lib/api.ts:57-63 | drops exactly the entries and flights of the scope and counts it |
| ApiCache.ClientCache.ClearApiCache | web/lib/api.ts:65-70 | empties all maps and counts the clear |
| ApiCache.ClientCache.BeginRequest | web/lib/api.ts:87-110 | what a request finds, and the tables after its synchronous part |
| ApiCache.ClientCache.EndRequest | web/lib/api.ts:126-129 | stores the response if and only if neither generation has moved |
| CacheKeys.UrlsCollideExactly | web/lib/api.ts:93 | two URLs can share a cache key if and only if one goes on from the other with the text that introduces an identity |
| CacheKeys.KeyTexts | web/lib/api.ts:24-94 | the texts of identity, scope and cache key, part by part |
| CacheKeys.IdentitiesCollideExactly | web/lib/api.ts:26-30 | two authorization headers can share an identity if and only if one goes on from the other with the text that introduces a tenant |
| CacheKeys.KeyNamesRequest | web/lib/api.ts:26-30 | short of that a key names one path, one authorization header, one tenant and one scope |
| RateLimiter.LocalLimiter.Check | app/middleware/rate_limit.py:50-67 | the pruned queue answers as counting all past admissions in (now - window, now]; no positive limit admits without a record |
| RateLimiter.CheckQueue | app/middleware/rate_limit.py:59-67 | the same for one queue, and its length |
| RateLimiter.ChecksExactly | app/middleware/rate_limit.py:50-67 | a check with a positive limit is allowed if and only if fewer admissions than the limit lie in (now - window, now], and is admitted if it also consumes |
| RateLimiter.AtMostLimitPerWindow | app/middleware/rate_limit.py:50-67 | for nondecreasing times no window, wherever it starts, holds more admissions than the limit |
| DistributedLimiter.SharedCounter.CheckShared | app/middleware/rate_limit.py:24-48 | the counter after the check, the answer, and the seconds to the end of the bucket |
| DistributedLimiter.CounterLivesForItsBucket | app/middleware/rate_limit.py:27-34 | a counter holds the number of checks of its bucket and outlives it |
| DistributedLimiter.AllowedCounts | app/middleware/rate_limit.py:31-48 | a check is allowed exactly when fewer than the limit came before it in its bucket |
| DistributedLimiter.SharedChecksExactly | app/middleware/rate_limit.py:24-48 | a check is allowed if and only if fewer checks than the limit, allowed or not, came before it in [bucket * window, (bucket + 1) * window) |
| DistributedLimiter.AtMostTwiceTheLimit | app/middleware/rate_limit.py:24-48 | no window holds more than twice the limit |
| DistributedLimiter.TwiceTheLimitEverywhere | app/middleware/rate_limit.py:24-48 | for every window length, limit and start there are checks that reach that bound |
| DistributedLimiter.WithinLimitOnlyForNone | app/middleware/rate_limit.py:24-48 | for every window length and start: whatever is asked, the window holds at most the limit if and only if the limit is 0 |
| DistributedLimiter.TwiceTheLimitHappens | app/middleware/rate_limit.py:24-48 | two concrete checks around the end of a minute that reach it |
| DistributedLimiter.PeekAgreesUnlessUsedUp | app/middleware/rate_limit.py:35-48 | a check that does not consume agrees with one that does if and only if the limit is not exactly used up |
| EmbeddingRebuild.ChunkTable.RebuildEmbeddings | scripts/rebuild_embeddings.py:48-92 | ends; embeds each candidate once and changes no other row; processed equals candidates, in force mode when the clock is later than every stored time, and with a steady clock exactly when the candidates fit into one batch or none beyond the first page sorts after all of that page once it is stamped; after a provider failure the committed batches stay and in normal mode the candidates left are exactly the rest |
| EmbeddingRebuild.ChunkTable.RebuildBatch | scripts/rebuild_embeddings.py:67-91 | one batch: the undone rows of the first page, all or nothing |
| EmbeddingRebuild.TakePage | scripts/rebuild_embeddings.py:43-45 | the page is the first rows of the candidates: unfinished ones, then by time, then by identifier |
| EmbeddingRebuild.CandidatesExactly | scripts/rebuild_embeddings.py:31-42 | which rows a run works on |
| EmbeddingRebuild.PageInOrder | scripts/rebuild_embeddings.py:43-45 | rows without a time come first, then the older ones, then the smaller identifiers |
| EmbeddingRebuild.RebuiltFieldByField | scripts/rebuild_embeddings.py:79-91 | an embedded row keeps base and content, and both its vectors are that of its content under the target model and at the time of a batch |
| EmbeddingRebuild.RestIsLeft | scripts/rebuild_embeddings.py:31-42 | in normal mode a rebuilt row is no candidate; in force mode the candidates stay the same |
| EmbeddingRebuild.PageAdvances | scripts/rebuild_embeddings.py:66-72 | the next page always holds a row that is not done |
| EmbeddingRebuild.CompleteRunIsExact | scripts/rebuild_embeddings.py:62-92 | a forced run that processed all its candidates had few, or none that its first page blocks, under any clock |
| EmbeddingRebuild.StalledRunIsExact | scripts/rebuild_embeddings.py:70-74 | a forced run that finds no undone row, with a steady clock, has processed all candidates if and only if they fit into one batch or none beyond the first page sorts after all of that page once it is stamped, equal times included |
| EmbeddingRebuild.ForceCanStall | scripts/rebuild_embeddings.py:66-74 | a stored time in the future can stop a forced run early |
| ToolVersions.VersionsAreComplete | app/main.py:680-806 | at every commit the versions of a tool are exactly 1 to its version, the newest is its configuration, and every one has its matching digest |
| ToolVersions.RollbackRestores | app/main.py:825-873 | a committed rollback makes a new version that equals its target in every field, and so does the tool |
| ToolVersions.UpdateApplies | app/main.py:760-806 | in every history a committed update leaves every field as it is at that moment unless it was sent, and otherwise as sent, with the next version number and the digest that belongs to it |
| ToolVersions.RollbackIsDrafted | app/main.py:841-857 | what a rollback drafts: the next version, with everything of its target |
| ToolVersions.RefusalsByCode | app/main.py:764-847 | why a writer is refused: the tool first, then the header, then what it asks for |
| ToolVersions.DraftIsCommitted | app/main.py:800-806 | a commit is accepted if and only if the number of its draft is not taken, and then writes the tool and the version |
| ToolVersions.ToolIsCreatedOrArchived | app/main.py:701-731 | a new tool is active at version 1 with its snapshot; archiving it changes nothing else |
| ToolVersions.OneWriterPerVersion | app/models.py:359-363 | of the writers that read the same version at most one commits |
| ToolVersions.VersionsStay | app/main.py:680-698 | stored versions never change |
| ToolVersions.AcceptedWritesDraft | app/main.py:760-806 | an accepted commit was based on the tool as it still is, so writing only changed columns writes the draft |
| ToolVersions.StepKeeps | app/main.py:701-873 | creation, update, rollback, deletion and refused commits keep the history complete |
| ToolVersions.ToolRow.Set | app/main.py:781-789 | the updated fields, the digest and the snapshot |
| ToolVersions.ToolRow.Restore | app/main.py:849-857 | the restored fields and the snapshot |
| Base64.DecodeEncode | app/main.py:290-299 | decoding base64url text returns the bytes |
| Base64.SymbolsInOrder | app/main.py:292 | the URL-safe alphabet |
| Base64.GroupKeepsNumber | app/main.py:292 | three bytes and their four symbols are one number of 24 bits |
| Base64.ShortGroups | app/main.py:292 | one or two bytes are coded as the group that zeros complete, with a mark of padding for each missing byte |
| Base64.PadRestores | app/main.py:292-299 | padding by -len mod 4 restores the text that stripping the padding shortened |
| JsonText.QuoteReturns | app/main.py:291-299 | a JSON string as it is written, escapes and surrogate pairs included, reads back as itself |
| JsonText.EscapesExactly | app/main.py:291 | how every character is written, surrogate pairs included |
| JsonText.Hex4Is | app/main.py:291 | the four digits of an escape, the first most significant |
| JsonText.CapitalsRead | app/main.py:300 | reading takes capital digits too |
| Cursors.CursorReturns | app/main.py:290-306 | decoding an encoded cursor returns its value and identifier if the value is a time, and is refused otherwise |
| Cursors.CursorTextIs | app/main.py:291 | the JSON text of a cursor |
| Cursors.RowCursorReturns | app/main.py:557-566 | the cursor of a row returns its time and identifier |
| Listing.PastIsRest | app/main.py:559-562 | the filter of the cursor of a row leaves exactly the rows after it, with equal times too |
| Listing.PastExactly | app/main.py:559-562 | the rows past a cursor are the older ones, and those of its time with smaller identifiers |
| Listing.NewestFirst | app/main.py:551-567 | what the order of a listing is, row by row |
| Listing.PageAt | app/main.py:551-567 | a page has the rows from its cursor on, up to the limit, and the cursor of the next page exactly if there are more |
| Listing.FollowCursors | app/routers/agents.py:56-68 | following `next_cursor` over an unchanged table ends and lists every row exactly once, without repeats and in descending order |
| Paging.Follow | app/main.py:551-567 | the same for any list that answers its cursors so |

## Left out

- HTTP, authentication, permissions and the tenant filter of queries: the tenant is given, and a row of another tenant is a row that is not found.
- Request handlers are atomic steps on values, not methods: their transactions are what interleaves. The functions that loop over rows or change them in place are methods of `RunStore`, `ToolCallRow`, `ToolRow`, `RunObject`, `RecordTable` and the others.
- SQLAlchemy sessions beyond what is named above: a commit is atomic, a query sees committed rows, a constraint that breaks undoes the whole commit. Row identifiers are numbers that do not repeat.
- RuntimeEvents.StepKeeps: a session that goes on with its run object after a rollback is not modelled, because every handler that rolls back ends its session.
- EventStream.StreamIsSlice: events of different attempts with one number stay in the order of the log, which the query leaves open; a log whose numbers grow has no such events. That no event follows the commit that finishes a run is not claimed: the stream is whole up to the last snapshot that it reads.
- RunHistory.CompletedRunIsSettled: is about the calls that the worker sees, because processing a run is one step. A `create_tool_call` that commits between the worker's query for created calls (app/worker.py:537) and its commit leaves a created call on a completed run.
- RunProtocol.ProcessRunKeeps: a tool node names the call it looks for by key; the truncated hash of the arguments inside the key, the lookup of definitions and the token of an approval are not modelled.
- RunHistory.KeyRunsToOneResult: is about idempotency keys, not about arguments, because the hash of the arguments in a key is truncated.
- The quota and concurrency checks of `create_run`: they end a request before its commit, which `Idempotency` models as a refusal; replay and restore do not make them.
- WorkflowExecutor.WorkflowExecution.ExecuteWorkflow: results that were computed ahead in parallel are the answers of the model oracle of their nodes, so nothing is said about parallel and serial answers agreeing; thread pools and timeouts are not modelled.
- The step limit of 1000 in `execute_workflow`: the limit of 100 nodes keeps it out of reach. The fallback to a single model step for an agent without a workflow, and stored workflows in the form of an object with nodes and edges, are not modelled there.
- `condition_matches` and `condition_route`: their answers are oracles of the context; JSON Schema, regular expressions and the sandbox are too.
- WorkflowEditor.WorkflowPayload: the error messages beyond their kind, and `str()` of values that are no strings, are not modelled; blanks are those up to U+00FF.
- WorkflowRoundTrip.RoundTrip: is for saved workflows in the list form with trimmed ids and configs that do not use structural names such as id, kind and data.
- DistributedLimiter.AtMostTwiceTheLimit: the store and the process share a clock and a check takes no time; while the store is down every process counts for itself.
- RateLimiter.LocalLimiter.Check: times do not go back between checks, which the lock does not guarantee for threads that read the clock before they take it.
- ApiCache.CachedIsFresh: keys and scopes are numbers there, and one key is about one scope; `CacheKeys` says when the strings meet that. The path inside `resourceKey` is not taken apart.
- CacheKeys.KeyNamesRequest: the normalisation of header values by the browser is not modelled.
- Cursors.CursorReturns: decoding is modelled for the compact JSON text that encoding writes and for base64 text without foreign characters; `json.loads` and the decoder of Python accept more. The text of a time and back is a given pair of functions.
- The listing of tools: its cursor holds a name, which decoding refuses as `Cursors.CursorReturns` says.
- EmbeddingRebuild.StalledRunIsExact: its condition is sufficient only for a clock that is steady, that is never before the time of the first batch, and later than it afterwards unless no candidate has that time.
- EmbeddingRebuild.ChunkTable.RebuildEmbeddings: other writers during a run, and rows that are added meanwhile, are not modelled; the vector of a text does not depend on the batch.
- ToolVersions.VersionsAreComplete: the If-Match header is a number or missing, and the digest stands for itself, without a hash function.
- Costs, times and limits are integers or reals; floating point is not modelled.
- Chunking, retrieval, reranking, redaction, skills review, password and token handling, metrics, migrations and the React pages are not modelled.
