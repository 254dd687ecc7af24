// Which tool calls have an approval, and when the worker executes one that has none.  The risk of
// the tool counts when the call is created; afterwards the call is found by its key alone.

module Approvals {
  import opened Base
  import opened ToolCalls
  import opened RunProtocol
  import opened RunHistory

  // ----- Calls get their approval when they are created, or never -----

  predicate NodeAsksFor(nodes: seq<ToolNode>, c: Id, risky: bool) {
    exists i :: 0 <= i < |nodes| && nodes[i].newId == c && nodes[i].risky == risky
  }

  /** The commit creates call c for a tool of that risk. */
  predicate AsksForCall(a: Action, c: Id, risky: bool) {
    || (a.CreateToolCall? && a.c == c && a.risky == risky)
    || (a.Process? && NodeAsksFor(a.nodes, c, risky))
  }

  /** What was a call stays one, with its approval or without. */
  ghost predicate KeepsApproval(db: Db, later: Db, c: Id) {
    c in db.calls ==> c in later.calls && (c in later.approvals <==> c in db.approvals)
  }

  /** New calls of a commit's nodes get their approval by the risk of a node that creates them. */
  ghost predicate NodesAsk(db: Db, later: Db, nodes: seq<ToolNode>, c: Id) {
    && KeepsApproval(db, later, c)
    && (c !in db.calls && c in later.calls ==> NodeAsksFor(nodes, c, c in later.approvals))
  }

  lemma FoundOrAddedAsks(db: Db, r: Id, n: ToolNode, nodes: seq<ToolNode>, c: Id)
    requires Consistent(db) && r in db.runs && nodes != [] && nodes[0] == n
    requires (exists d :: IsCallWith(db, n.key, d)) || n.newId !in db.calls
    ensures NodesAsk(db, FindOrAdd(db, r, n).0, nodes, c)
  {
  }

  lemma ToolNodeAsks(db: Db, r: Id, nodes: seq<ToolNode>, c: Id)
    requires Consistent(db) && r in db.runs && nodes != []
    ensures var w := RunToolNode(db, r, nodes[0]);
            w.Some? ==> NodesAsk(db, w.value.0, nodes, c)
  {
    if RunToolNode(db, r, nodes[0]).Some? { FoundOrAddedAsks(db, r, nodes[0], nodes, c); }
  }

  lemma {:induction false} ToolNodesAsk(db: Db, r: Id, nodes: seq<ToolNode>, ending: Ending, c: Id)
    requires Consistent(db) && r in db.runs
    ensures var w := RunToolNodes(db, r, nodes, ending);
            w.Some? ==> NodesAsk(db, w.value.0, nodes, c)
    decreases |nodes|
  {
    if nodes != [] {
      ToolNodeAsks(db, r, nodes, c);
      RunToolNodeKeeps(db, r, nodes[0]);
      var w := RunToolNode(db, r, nodes[0]);
      if w.Some? && w.value.1.NodeDone? && r in w.value.0.runs {
        ToolNodesAsk(w.value.0, r, nodes[1..], ending, c);
        var rest := RunToolNodes(w.value.0, r, nodes[1..], ending);
        if rest.Some? { RestAsks(db, w.value.0, rest.value.0, nodes, c); }
      }
    }
  }

  lemma RestAsks(db: Db, after: Db, later: Db, nodes: seq<ToolNode>, c: Id)
    requires nodes != [] && NodesAsk(db, after, nodes, c) && NodesAsk(after, later, nodes[1..], c)
    ensures NodesAsk(db, later, nodes, c)
  {
    LaterNodeAsks(nodes, c);
  }

  lemma LaterNodeAsks(nodes: seq<ToolNode>, c: Id)
    requires nodes != []
    ensures forall risky :: NodeAsksFor(nodes[1..], c, risky) ==> NodeAsksFor(nodes, c, risky)
  {
    forall risky | NodeAsksFor(nodes[1..], c, risky) ensures NodeAsksFor(nodes, c, risky) {
      var i :| 0 <= i < |nodes[1..]| && nodes[1..][i].newId == c && nodes[1..][i].risky == risky;
      assert nodes[i + 1] == nodes[1..][i];
    }
  }

  lemma {:induction false} CreatedCallsAskForNone(db: Db, todo: seq<(Id, Option<Answers>)>)
    ensures var w := RunCreatedCalls(db, todo);
            w.Some? ==> w.value.0.approvals == db.approvals && w.value.0.calls.Keys == db.calls.Keys
    decreases |todo|
  {
    if todo != [] {
      var (d, a) := todo[0];
      if d !in db.calls || !db.calls[d].row.status.Created? {
        CreatedCallsAskForNone(db, todo[1..]);
      } else if a.Some? {
        CreatedCallsAskForNone(ExecuteCall(db, d, a.value), todo[1..]);
      }
    }
  }

  lemma FinishAsksForNone(db: Db, ending: Ending, r: Id, todo: seq<(Id, Option<Answers>)>, before: Db)
    requires r in db.runs
    ensures var later := FinishRun(db, ending, r, todo, before);
            later == before || (later.approvals == db.approvals && later.calls.Keys == db.calls.Keys)
  {
    CreatedCallsAskForNone(SetRun(db, r, db.runs[r].(checkpoint := db.runs[r].checkpoint + 1)), todo);
  }

  lemma ProcessAsks(db: Db, a: Action, c: Id)
    requires Consistent(db) && a.Process? && a.r in db.runs
    ensures var later := ProcessRun(db, a.r, a.saved, a.hasAgent, a.nodes, a.ending, a.todo);
            NodesAsk(db, later, a.nodes, c)
  {
    if IsClaimable(db.runs[a.r].status) && a.hasAgent {
      var claimed := SetRun(db, a.r, Claimed(db.runs[a.r], a.saved));
      assert !db.runs[a.r].finished;
      SetRunKeeps(db, a.r, Claimed(db.runs[a.r], a.saved));
      ToolNodesAsk(claimed, a.r, a.nodes, a.ending, c);
      var w := RunToolNodes(claimed, a.r, a.nodes, a.ending);
      if w.Some? && a.r in w.value.0.runs { FinishAsksForNone(w.value.0, w.value.1, a.r, a.todo, db); }
    }
  }

  /** A commit gives approvals to the calls that it creates for risky tools, and to no others. */
  lemma StepAsks(db: Db, a: Action, c: Id)
    requires Consistent(db)
    ensures KeepsApproval(db, Step(db, a), c)
    ensures c !in db.calls && c in Step(db, a).calls ==> AsksForCall(a, c, c in Step(db, a).approvals)
  {
    if a.Process? && a.r in db.runs {
      ProcessAsks(db, a, c);
    } else {
      OthersAsk(db, a, c);
    }
  }

  lemma OthersAsk(db: Db, a: Action, c: Id)
    requires Consistent(db) && !(a.Process? && a.r in db.runs)
    ensures KeepsApproval(db, Step(db, a), c)
    ensures c !in db.calls && c in Step(db, a).calls ==> AsksForCall(a, c, c in Step(db, a).approvals)
  {
  }

  ghost predicate WasAskedFor(h: seq<Db>, a: seq<Action>, j: nat, c: Id, risky: bool) {
    exists k :: 0 <= k < j && k < |a| && |h| == |a| + 1 && c !in h[k].calls && c in h[k + 1].calls
                && AsksForCall(a[k], c, risky)
  }

  /** A call has an approval if and only if the commit that created it did so for a risky tool. */
  lemma {:induction false} ApprovalComesWithTheCall(h: seq<Db>, a: seq<Action>, j: nat, c: Id)
    requires IsHistory(h, a) && h[0] == EMPTY && j < |h| && c in h[j].calls
    ensures WasAskedFor(h, a, j, c, c in h[j].approvals)
  {
    HistoryKeeps(h, a, 0, j - 1);
    assert h[j] == Step(h[j - 1], a[j - 1]);
    StepAsks(h[j - 1], a[j - 1], c);
    if c in h[j - 1].calls { ApprovalComesWithTheCall(h, a, j - 1, c); }
  }

  // ----- Risky nodes -----

  /** The node of a risky tool executes a call that has no approval if and only if that call was stored
      under its key before, is not settled and has none. */
  lemma RiskyNodeWithoutApprovalExactly(db: Db, r: Id, n: ToolNode, c: Id)
    requires Consistent(db) && r in db.runs && n.risky
    ensures Executes(db, r, n, c) && c !in RunToolNode(db, r, n).value.0.approvals <==>
            IsCallWith(db, n.key, c) && !IsTerminal(db.calls[c].row.status) && c !in db.approvals
  {
    if IsCallWith(db, n.key, c) {
      assert CallOk(db, c);
      assert FindOrAdd(db, r, n) == (db, c);
    }
  }

  /** In a history such a call was created for a harmless tool. */
  lemma UnapprovedWasHarmless(h: seq<Db>, a: seq<Action>, j: nat, r: Id, n: ToolNode, c: Id)
    requires IsHistory(h, a) && h[0] == EMPTY && j < |h| && r in h[j].runs && n.risky
    requires Executes(h[j], r, n, c) && c !in RunToolNode(h[j], r, n).value.0.approvals
    ensures WasAskedFor(h, a, j, c, false)
  {
    HistoryKeeps(h, a, 0, j);
    RiskyNodeWithoutApprovalExactly(h[j], r, n, c);
    ApprovalComesWithTheCall(h, a, j, c);
  }

  // A history in which that happens: a client stores a call for a harmless tool under the key for which
  // the workflow's risky node then asks.

  const HARMLESS_CALL := ToolCall(1, "key", Call(Created, 1, None, None, false, false))

  function Stored(): Db {
    Db(map[1 := NEW_RUN], {10}, map[2 := HARMLESS_CALL], map[], {}, {}, {})
  }

  function RiskyNode(output: Json): ToolNode {
    ToolNode(3, "key", true, 100, 0,
             Answers(Definition(true, "deploy", true, "high", Limits(1, {})), [], (k: int) => Output(output)))
  }

  lemma ReachesStored()
    ensures Step(EMPTY, CreateRun(1, 10, 7)) == Db(map[1 := NEW_RUN], {10}, map[], map[], {}, {}, {})
    ensures Step(Step(EMPTY, CreateRun(1, 10, 7)), CreateToolCall(2, 1, "key", false, 100, 0)) == Stored()
  {
  }

  lemma RiskyNodeRuns(output: Json)
    ensures var later := Step(Stored(), Process(1, None, true, [RiskyNode(output)], WorkflowDone, []));
            && 1 in later.runs && later.runs[1].status == Completed && later.approvals == map[]
            && 2 in later.calls && later.calls[2].row.status == ToolCalls.Succeeded
  {
    var n := RiskyNode(output);
    var claimed := SetRun(Stored(), 1, Run(Running, 10, 0, false, 7));
    assert IsCallWith(claimed, "key", 2);
    assert FindOrAdd(claimed, 1, n) == (claimed, 2);
    assert Outcome(claimed, 2, n.answers) == Returned(Call(ToolCalls.Succeeded, 1, Some(output), None, true, true));
    var after := ExecuteCall(claimed, 2, n.answers);
    assert RunToolNode(claimed, 1, n) == Some((after, NodeDone));
    assert [n][1..] == [] && RunToolNodes(after, 1, [], WorkflowDone) == Some((after, WorkflowDone));
    assert RunToolNodes(claimed, 1, [n], WorkflowDone) == Some((after, WorkflowDone));
    var saved := SetRun(after, 1, Run(Running, 10, 1, false, 7));
    assert !HasPending(saved, 1) && ListsCreated(saved, 1, []);
    assert RunCreatedCalls(saved, []) == Some((saved, true));
  }

  lemma RiskyNodeRunsUnapproved(output: Json) returns (h: seq<Db>, a: seq<Action>)
    ensures IsHistory(h, a) && h[0] == EMPTY && |a| == 3
    ensures a[2].Process? && |a[2].nodes| == 1 && a[2].nodes[0].risky
    ensures 1 in h[3].runs && h[3].runs[1].status == Completed && h[3].approvals == map[]
    ensures 2 in h[3].calls && h[3].calls[2].row.status == ToolCalls.Succeeded
  {
    EmptyIsConsistent();
    ReachesStored();
    RiskyNodeRuns(output);
    a := [CreateRun(1, 10, 7), CreateToolCall(2, 1, "key", false, 100, 0),
        Process(1, None, true, [RiskyNode(output)], WorkflowDone, [])];
    h := [EMPTY, Step(EMPTY, a[0]), Stored(), Step(Stored(), a[2])];
  }
}
