// What the turns of an execution do, told about the execution itself: which nodes run, what they
// leave behind, and how an execution ends.

module WorkflowTurns {
  import opened Base
  import opened Graph
  import opened Workflow
  import opened WorkflowOrder
  import opened Branches
  import opened WorkflowExecutor

  /** The execution of a workflow up to its first n nodes. */
  ghost function After(env: Environment, s: Settings, nodes: seq<Node>, n: nat): Step
    requires WellFormed(nodes) && n <= |nodes|
  {
    Execute(env, s, WorkflowRouting(nodes), nodes, n)
  }

  // ----- When a node has its turn -----

  predicate LeadsTo(c: Node, k: Key) {
    c.kind == Condition && (c.trueNext == Some(k) || c.falseNext == Some(k))
  }

  /** Branches leave the node out: one not taken has excluded it, or conditions lead to it and none took it. */
  ghost predicate IsLeftOut(nodes: seq<Node>, p: Progress, k: Key) {
    || k in p.excluded
    || ((exists c :: c in nodes && LeadsTo(c, k))
        && forall c :: c in nodes && LeadsTo(c, k) && c.key.Some? && c.key.value in p.selected ==>
             p.selected[c.key.value] != k)
  }

  /** A positive limit on tokens or on cost has been reached. */
  predicate IsSpent(s: Settings, p: Progress) {
    || (s.maxTokens != 0 && s.maxTokens <= p.usage.total)
    || (s.maxCost != 0.0 && s.maxCost <= p.cost)
  }

  /** Nothing ends the execution before the branches of node i are looked at. */
  predicate IsAdmitted(env: Environment, s: Settings, i: nat, n: Node, p: Progress) {
    !s.stopping && !(n.kind == Tool && env.softLimit(i)) && !IsSpent(s, p)
  }

  lemma LeftOutIsUnreached(nodes: seq<Node>, p: Progress, k: Key)
    requires WellFormed(nodes) && AllKeyed(nodes)
    ensures WorkflowRouting(nodes).unreached(p, k) <==> IsLeftOut(nodes, p, k)
  {
    forall c | c in nodes && LeadsTo(c, k)
      ensures c.key.Some? && c.key.value in ConditionParents(nodes, k)
    {
      assert RoutesTo(c, k);
    }
    forall x | x in ConditionParents(nodes, k)
      ensures exists c :: c in nodes && LeadsTo(c, k) && c.key == Some(x)
    {
      var c :| c in nodes && RoutesTo(c, k) && c.key.value == x;
    }
  }

  lemma FromOneTurnToTheNext(env: Environment, s: Settings, nodes: seq<Node>, i: nat)
    requires WellFormed(nodes) && i < |nodes|
    ensures Runnable(nodes[i]) && AllKeyed(nodes)
    ensures After(env, s, nodes, i + 1) ==
            if After(env, s, nodes, i).Halted? then After(env, s, nodes, i)
            else Turn(env, s, WorkflowRouting(nodes), i, nodes[i], After(env, s, nodes, i).p)
  {
    NodeIsRunnable(nodes, i);
  }

  /** An execution starts with the input of the run, what the run has spent so far, and nothing else. */
  lemma StartsFresh(env: Environment, s: Settings, nodes: seq<Node>)
    requires WellFormed(nodes)
    ensures After(env, s, nodes, 0) == Going(Progress(s.input, map[], map[], map[], s.usage, s.cost, map[], {}, 0))
  {
  }

  /** The checks of a turn in their order: each but the last ends the execution and leaves the progress as it is,
      or skips the node and changes nothing but its status. */
  lemma ChecksOfATurn(env: Environment, s: Settings, nodes: seq<Node>, i: nat)
    requires WellFormed(nodes) && i < |nodes| && After(env, s, nodes, i).Going? && nodes[i].key.Some?
    ensures var p, n, r := After(env, s, nodes, i).p, nodes[i], After(env, s, nodes, i + 1);
            var skipped := Going(p.(status := p.status[n.key.value := Skipped]));
            && (s.stopping ==> r == Halted(p, Stopped))
            && (!s.stopping && n.kind == Tool && env.softLimit(i) ==>
                  r == Halted(p, BudgetExceeded("QUOTA_SOFT_LIMIT")))
            && (!s.stopping && !(n.kind == Tool && env.softLimit(i)) && IsSpent(s, p) ==>
                  r == Halted(p, BudgetExceeded("BUDGET_EXCEEDED")))
            && (IsAdmitted(env, s, i, n, p) && IsLeftOut(nodes, p, n.key.value) ==> r == skipped)
            && (IsAdmitted(env, s, i, n, p) && !IsLeftOut(nodes, p, n.key.value) ==>
                  match env.whenHolds(i, p.context)
                  case Raises(code) => r == Halted(p, Failed(code))
                  case Holds(result) => !result ==> r == skipped)
  {
    FromOneTurnToTheNext(env, s, nodes, i);
    LeftOutIsUnreached(nodes, After(env, s, nodes, i).p, nodes[i].key.value);
  }

  /** Node i runs: nothing ends the execution, no branch leaves it out, and its condition holds on the context. */
  ghost predicate Runs(env: Environment, s: Settings, nodes: seq<Node>, i: nat)
    requires WellFormed(nodes) && i < |nodes|
  {
    var r := After(env, s, nodes, i);
    && r.Going? && nodes[i].key.Some? && IsAdmitted(env, s, i, nodes[i], r.p)
    && !IsLeftOut(nodes, r.p, nodes[i].key.value) && env.whenHolds(i, r.p.context) == Holds(true)
  }

  /** Node i is skipped: a branch leaves it out, or its condition does not hold. */
  ghost predicate IsSkipped(env: Environment, s: Settings, nodes: seq<Node>, i: nat)
    requires WellFormed(nodes) && i < |nodes|
  {
    var r := After(env, s, nodes, i);
    && r.Going? && nodes[i].key.Some? && IsAdmitted(env, s, i, nodes[i], r.p)
    && (IsLeftOut(nodes, r.p, nodes[i].key.value) || env.whenHolds(i, r.p.context) == Holds(false))
  }

  lemma RunningTurn(env: Environment, s: Settings, nodes: seq<Node>, i: nat)
    requires WellFormed(nodes) && i < |nodes| && Runs(env, s, nodes, i)
    ensures Runnable(nodes[i]) && AllKeyed(nodes)
    ensures After(env, s, nodes, i + 1) ==
            RunNode(env, WorkflowRouting(nodes), i, nodes[i], After(env, s, nodes, i).p)
  {
    FromOneTurnToTheNext(env, s, nodes, i);
    LeftOutIsUnreached(nodes, After(env, s, nodes, i).p, nodes[i].key.value);
  }

  // ----- What a node that runs leaves behind -----

  /** The progress of a node that succeeds with an output: the output is in the context and with the node. */
  ghost predicate SucceedsWith(p: Progress, q: Progress, k: Key, output: Json) {
    && q.status == p.status[k := Succeeded] && q.outputs == p.outputs[k := output]
    && q.context == p.context[k := output]
  }

  ghost predicate SameSpending(p: Progress, q: Progress) {
    q.usage == p.usage && q.cost == p.cost && q.metrics == p.metrics
  }

  ghost predicate SameBranches(p: Progress, q: Progress) {
    q.selected == p.selected && q.excluded == p.excluded
  }

  /** A model node adds all three counts of tokens and the cost. */
  lemma ModelNodeRuns(env: Environment, s: Settings, nodes: seq<Node>, i: nat)
    requires WellFormed(nodes) && i < |nodes| && Runs(env, s, nodes, i) && nodes[i].kind == Model
    ensures var p, r, k := After(env, s, nodes, i).p, After(env, s, nodes, i + 1), nodes[i].key.value;
            match env.model(i, p.context)
            case ModelRaises(code) => r == Halted(p.(status := p.status[k := Running]), Failed(code))
            case Reply(output, m) =>
              && r.Going? && SucceedsWith(p, r.p, k, output) && SameBranches(p, r.p) && r.p.toolCalls == p.toolCalls
              && r.p.metrics == p.metrics[k := m] && r.p.cost == p.cost + m.cost
              && r.p.usage.prompt == p.usage.prompt + m.usage.prompt
              && r.p.usage.completion == p.usage.completion + m.usage.completion
              && r.p.usage.total == p.usage.total + m.usage.total
  {
    RunningTurn(env, s, nodes, i);
  }

  /** A condition publishes how it evaluated, takes the target of that branch, and excludes the other target and
      what depends on it, unless there is no other target or it is the empty string. */
  lemma ConditionNodeRuns(env: Environment, s: Settings, nodes: seq<Node>, i: nat)
    requires WellFormed(nodes) && i < |nodes| && Runs(env, s, nodes, i) && nodes[i].kind == Condition
    ensures nodes[i].trueNext.Some? && nodes[i].falseNext.Some?
    ensures var p, r, k := After(env, s, nodes, i).p, After(env, s, nodes, i + 1), nodes[i].key.value;
            var yes, no := nodes[i].trueNext.value, nodes[i].falseNext.value;
            match env.matches(i, p.context)
            case Raises(code) => r == Halted(p.(status := p.status[k := Running]), Failed(code))
            case Holds(b) =>
              && r.Going? && SucceedsWith(p, r.p, k, JObj(map["matched" := JBool(b)]))
              && SameSpending(p, r.p) && r.p.toolCalls == p.toolCalls
              && r.p.selected == p.selected[k := if b then yes else no]
              && forall x :: x in r.p.excluded <==>
                   || x in p.excluded
                   || (yes != no && IsDroppedWith(nodes, if b then no else yes, x))
  {
    RunningTurn(env, s, nodes, i);
  }

  /** x is the target not taken, or depends on it. */
  ghost predicate IsDroppedWith(nodes: seq<Node>, other: Key, x: Key) {
    other != "" && (x == other || (x in Keys(nodes) && StrictlyReaches(DependencyEdges(nodes), other, x)))
  }

  /** A tool node counts before it is called, and the fifty-first ends the execution. */
  lemma ToolNodeRuns(env: Environment, s: Settings, nodes: seq<Node>, i: nat)
    requires WellFormed(nodes) && i < |nodes| && Runs(env, s, nodes, i) && nodes[i].kind == Tool
    ensures var p, r, k := After(env, s, nodes, i).p, After(env, s, nodes, i + 1), nodes[i].key.value;
            var counted := p.(toolCalls := p.toolCalls + 1);
            if p.toolCalls >= 50 then
              r == Halted(counted.(status := p.status[k := Running]), BudgetExceeded("TOOL_CALL_LIMIT_EXCEEDED"))
            else
              match env.tool(i, p.context)
              case ToolRaises(code) => r == Halted(counted.(status := p.status[k := Running]), Failed(code))
              case AwaitsApproval => r == Halted(counted.(status := p.status[k := WaitingApproval]), Waiting)
              case ToolOutput(output) =>
                && r.Going? && SucceedsWith(p, r.p, k, output) && SameSpending(p, r.p) && SameBranches(p, r.p)
                && r.p.toolCalls == p.toolCalls + 1
  {
    RunningTurn(env, s, nodes, i);
  }

  /** Every other node succeeds at once. */
  lemma OtherNodeRuns(env: Environment, s: Settings, nodes: seq<Node>, i: nat)
    requires WellFormed(nodes) && i < |nodes| && Runs(env, s, nodes, i)
    requires nodes[i].kind !in {Model, Condition, Tool}
    ensures var p, r, k := After(env, s, nodes, i).p, After(env, s, nodes, i + 1), nodes[i].key.value;
            && r.Going? && SucceedsWith(p, r.p, k, JObj(map["status" := JStr("succeeded")]))
            && SameSpending(p, r.p) && SameBranches(p, r.p) && r.p.toolCalls == p.toolCalls
  {
    RunningTurn(env, s, nodes, i);
  }

  // ----- Whole executions -----

  ghost predicate SameStatus(p: Progress, q: Progress, k: Key) {
    (k in q.status <==> k in p.status) && (k in p.status ==> q.status[k] == p.status[k])
  }

  lemma OtherTurnKeepsStatus(env: Environment, s: Settings, nodes: seq<Node>, m: nat, k: Key)
    requires WellFormed(nodes) && m < |nodes| && nodes[m].key != Some(k)
    ensures SameStatus(After(env, s, nodes, m).p, After(env, s, nodes, m + 1).p, k)
  {
    var r := After(env, s, nodes, m);
    if r.Going? {
      NodeIsRunnable(nodes, m);
      StepStatus(env, s, WorkflowRouting(nodes), nodes, m, r.p);
    }
  }

  lemma {:induction false} SameStatusThroughout(at: nat -> Progress, k: Key, i: nat, n: nat)
    requires i <= n && forall m :: i <= m < n ==> SameStatus(at(m), at(m + 1), k)
    ensures SameStatus(at(i), at(n), k)
  {
    if i < n {
      SameStatusThroughout(at, k, i, n - 1);
      assert SameStatus(at(n - 1), at(n - 1 + 1), k);
    }
  }

  ghost function ProgressAt(env: Environment, s: Settings, nodes: seq<Node>): nat -> Progress
    requires WellFormed(nodes)
  {
    (m: nat) => if m <= |nodes| then After(env, s, nodes, m).p else InitialProgress(s)
  }

  lemma LaterTurnKeepsStatus(env: Environment, s: Settings, nodes: seq<Node>, i: nat, m: nat)
    requires WellFormed(nodes) && i < m < |nodes| && nodes[i].key.Some?
    ensures SameStatus(ProgressAt(env, s, nodes)(m), ProgressAt(env, s, nodes)(m + 1), nodes[i].key.value)
  {
    assert nodes[m].key != nodes[i].key;
    OtherTurnKeepsStatus(env, s, nodes, m, nodes[i].key.value);
  }

  /** A node keeps the status that its turn gave it, or stays without one. */
  lemma StatusStays(env: Environment, s: Settings, nodes: seq<Node>, i: nat, n: nat)
    requires WellFormed(nodes) && i < n <= |nodes| && nodes[i].key.Some?
    ensures SameStatus(After(env, s, nodes, i + 1).p, After(env, s, nodes, n).p, nodes[i].key.value)
  {
    var at, k := ProgressAt(env, s, nodes), nodes[i].key.value;
    forall m | i + 1 <= m < n ensures SameStatus(at(m), at(m + 1), k) {
      LaterTurnKeepsStatus(env, s, nodes, i, m);
    }
    SameStatusThroughout(at, k, i + 1, n);
  }

  lemma StatusOfTurn(env: Environment, s: Settings, nodes: seq<Node>, i: nat)
    requires WellFormed(nodes) && i < |nodes| && nodes[i].key.Some?
    ensures var k, st := nodes[i].key.value, After(env, s, nodes, i + 1).p.status;
            && (k in st && st[k] == Skipped <==> IsSkipped(env, s, nodes, i))
            && (k in st && st[k] != Skipped <==> Runs(env, s, nodes, i))
  {
    FirstTurn(env, s, WorkflowRouting(nodes), nodes, i);
    if After(env, s, nodes, i).Going? {
      if Runs(env, s, nodes, i) {
        RunningTurn(env, s, nodes, i);
        RunStatus(env, WorkflowRouting(nodes), i, nodes[i], After(env, s, nodes, i).p);
        NeverSkips(env, WorkflowRouting(nodes), i, nodes[i], After(env, s, nodes, i).p);
      } else {
        ChecksOfATurn(env, s, nodes, i);
      }
    }
  }

  lemma NeverSkips(env: Environment, rt: Routing, i: nat, n: Node, p: Progress)
    requires Runnable(n)
    ensures n.key.value in RunNode(env, rt, i, n, p).p.status
    ensures RunNode(env, rt, i, n, p).p.status[n.key.value] != Skipped
  {
    match n.kind {
      case Model =>
      case Condition =>
      case Tool =>
      case _ =>
    }
  }

  /** However the execution goes on, node i is skipped, or has run, exactly if its turn came, nothing ended the
      execution there, and its branches and its condition said so on the context of that moment. */
  lemma RunsExactlyIfItsConditionHolds(env: Environment, s: Settings, nodes: seq<Node>, i: nat, n: nat)
    requires WellFormed(nodes) && i < n <= |nodes| && nodes[i].key.Some?
    ensures var k, st := nodes[i].key.value, After(env, s, nodes, n).p.status;
            && (k in st && st[k] == Skipped <==> IsSkipped(env, s, nodes, i))
            && (k in st && st[k] != Skipped <==> Runs(env, s, nodes, i))
  {
    StatusStays(env, s, nodes, i, n);
    StatusOfTurn(env, s, nodes, i);
  }

  /** A run that is to stop gives no node a status. */
  lemma {:induction false} StoppingRunsNothing(env: Environment, s: Settings, nodes: seq<Node>, n: nat)
    requires WellFormed(nodes) && 0 < n <= |nodes| && s.stopping
    ensures var start := Progress(s.input, map[], map[], map[], s.usage, s.cost, map[], {}, 0);
            After(env, s, nodes, n) == Halted(start, Stopped)
  {
    if n == 1 {
      NodeIsRunnable(nodes, 0);
      ChecksOfATurn(env, s, nodes, 0);
    } else {
      StoppingRunsNothing(env, s, nodes, n - 1);
    }
  }

  // ----- How an execution of a run ends -----

  /** What the run row holds as its output afterwards. */
  lemma OutputByEnding(context: Context, before: RunOutput, code: string)
    ensures OutputOf(Completed, context, before) == WorkflowOutput(context)
    ensures OutputOf(Ended(Waiting), context, before) == before
    ensures OutputOf(Ended(Stopped), context, before) == ErrorOutput("STOP_REQUESTED")
    ensures OutputOf(Ended(Failed(code)), context, before) == ErrorOutput(code)
    ensures OutputOf(Ended(BudgetExceeded(code)), context, before) == ErrorOutput(code)
  {
  }

  /** Which endings leave a checkpoint: completing, and failing unless there were too many nodes. */
  lemma CheckpointByEnding(code: string, tooLong: bool)
    ensures Saves(Completed, tooLong) && (Saves(Ended(Failed(code)), tooLong) <==> !tooLong)
    ensures !Saves(Ended(Waiting), tooLong) && !Saves(Ended(Stopped), tooLong)
    ensures !Saves(Ended(BudgetExceeded(code)), tooLong)
  {
  }

  /** More than a hundred nodes are refused, then an error of the parallel part ends the execution, and otherwise
      every node has its turn. */
  lemma WholeExecution(env: Environment, s: Settings, nodes: seq<Node>, prepareError: Option<string>)
    requires WellFormed(nodes)
    ensures var (p, outcome) := ExecutionOf(env, s, nodes, prepareError);
            var start := Progress(s.input, map[], map[], map[], s.usage, s.cost, map[], {}, 0);
            if |nodes| > 100 then p == start && outcome == Ended(Failed("WORKFLOW_NODE_LIMIT_EXCEEDED"))
            else if prepareError.Some? then p == start && outcome == Ended(Failed(prepareError.value))
            else
              match After(env, s, nodes, |nodes|)
              case Going(q) => p == q && outcome == Completed
              case Halted(q, ending) => p == q && outcome == Ended(ending)
  {
  }
}
