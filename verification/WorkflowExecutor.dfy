// One execution of a workflow (execute_workflow in app/worker.py).  What the model provider,
// the tools, the condition evaluator and the quota table answer is given by an environment.

module WorkflowExecutor {
  import opened Base
  import opened Graph
  import opened Workflow
  import opened WorkflowOrder
  import opened Branches

  const MAX_WORKFLOW_NODES := 100
  const MAX_TOOL_CALLS := 50

  type Context = map<Key, Json>

  datatype Usage = Usage(prompt: int, completion: int, total: int)

  datatype Metrics = Metrics(usage: Usage, cost: real)

  datatype Check = Holds(result: bool) | Raises(code: string)

  datatype ModelReply = Reply(output: Json, metrics: Metrics) | ModelRaises(code: string)

  datatype ToolReply = ToolOutput(output: Json) | AwaitsApproval | ToolRaises(code: string)

  /** The answers an execution gets; the first argument is the position of the asking node. */
  datatype Environment = Environment(
    softLimit: nat -> bool,               // soft_limit_reached for the tenant
    whenHolds: (nat, Context) -> Check,   // condition_matches(node.when)
    matches: (nat, Context) -> Check,     // the condition inside condition_route
    model: (nat, Context) -> ModelReply,  // complete_model, or the result prepared in parallel
    tool: (nat, Context) -> ToolReply)    // the tool-call branch

  /** The parts of the run row that an execution only reads; 0 means no limit. */
  datatype Settings = Settings(input: Context, usage: Usage, cost: real, maxTokens: int, maxCost: real, stopping: bool)

  datatype NodeStatus = Running | Succeeded | Skipped | WaitingApproval

  datatype Progress = Progress(
    context: Context,
    status: map<Key, NodeStatus>,
    outputs: map<Key, Json>,
    metrics: map<Key, Metrics>,
    usage: Usage,
    cost: real,
    selected: map<Key, Key>,
    excluded: set<Key>,
    toolCalls: nat)

  datatype Ending = Stopped | Waiting | Failed(code: string) | BudgetExceeded(code: string)

  datatype Step = Going(p: Progress) | Halted(p: Progress, ending: Ending)

  /** How branches steer an execution: which nodes they leave out so far, and what a condition
      takes out when it evaluates to the given value. */
  datatype Routing = Routing(unreached: (Progress, Key) -> bool, pruned: (Node, bool) -> set<Key>)

  // ----- One node -----

  function AddUsage(a: Usage, b: Usage): Usage {
    Usage(a.prompt + b.prompt, a.completion + b.completion, a.total + b.total)
  }

  /** The conditions that route to k. */
  function ConditionParents(nodes: seq<Node>, k: Key): set<Key>
    requires AllKeyed(nodes)
  {
    set c | c in nodes && RoutesTo(c, k) :: c.key.value
  }

  /** The target a condition takes. */
  function Selected(n: Node, matched: bool): Key
    requires n.trueNext.Some? && n.falseNext.Some?
  {
    if matched then n.trueNext.value else n.falseNext.value
  }

  /** The target a condition does not take, unless both targets are the same key or the one not
      taken is the empty string, which the worker's truth test passes over. */
  function Unselected(n: Node, matched: bool): Option<Key>
    requires n.trueNext.Some? && n.falseNext.Some?
  {
    var other := Selected(n, !matched);
    if other == Selected(n, matched) || other == "" then None else Some(other)
  }

  ghost function Dependants(nodes: seq<Node>, k: Key): set<Key> {
    set x | x in Keys(nodes) && StrictlyReaches(DependencyEdges(nodes), k, x)
  }

  ghost function PrunedBy(nodes: seq<Node>, root: Option<Key>): set<Key> {
    if root.None? then {} else {root.value} + Dependants(nodes, root.value)
  }

  /** The routing that execute_workflow builds from the nodes. */
  ghost function WorkflowRouting(nodes: seq<Node>): Routing
    requires AllKeyed(nodes)
  {
    Routing((p: Progress, k: Key) => NotSelected(nodes, p, k) || k in p.excluded,
            (n: Node, matched: bool) =>
              if n.trueNext.Some? && n.falseNext.Some? then PrunedBy(nodes, Unselected(n, matched)) else {})
  }

  function Mark(p: Progress, k: Key, s: NodeStatus): Progress {
    p.(status := p.status[k := s])
  }

  /** A node that succeeds publishes its output in the context. */
  function Publish(p: Progress, k: Key, output: Json): Progress {
    p.(status := p.status[k := Succeeded], outputs := p.outputs[k := output], context := p.context[k := output])
  }

  predicate OverBudget(s: Settings, p: Progress) {
    || (s.maxTokens != 0 && p.usage.total >= s.maxTokens)
    || (s.maxCost != 0.0 && p.cost >= s.maxCost)
  }

  /** No condition that routes to k has selected it. */
  predicate NotSelected(nodes: seq<Node>, p: Progress, k: Key)
    requires AllKeyed(nodes)
  {
    && ConditionParents(nodes, k) != {}
    && forall c :: c in ConditionParents(nodes, k) ==> !(c in p.selected && p.selected[c] == k)
  }

  /** A node whose key is present, with both targets if it is a condition. */
  predicate Runnable(n: Node) {
    n.key.Some? && (n.kind.Condition? ==> n.trueNext.Some? && n.falseNext.Some?)
  }

  /** The node runs. */
  function RunNode(env: Environment, rt: Routing, i: nat, n: Node, p: Progress): Step
    requires Runnable(n)
  {
    var k := n.key.value;
    match n.kind
    case Model =>
      (match env.model(i, p.context)
       case ModelRaises(code) => Halted(Mark(p, k, Running), Failed(code))
       case Reply(output, metrics) =>
         Going(Publish(p, k, output).(metrics := p.metrics[k := metrics],
                                      usage := AddUsage(p.usage, metrics.usage), cost := p.cost + metrics.cost)))
    case Condition =>
      (match env.matches(i, p.context)
       case Raises(code) => Halted(Mark(p, k, Running), Failed(code))
       case Holds(matched) =>
         Going(Publish(p, k, JObj(map["matched" := JBool(matched)])).(
                 selected := p.selected[k := Selected(n, matched)], excluded := p.excluded + rt.pruned(n, matched))))
    case Tool =>
      var counted := p.(toolCalls := p.toolCalls + 1);
      if counted.toolCalls > MAX_TOOL_CALLS then
        Halted(Mark(counted, k, Running), BudgetExceeded("TOOL_CALL_LIMIT_EXCEEDED"))
      else
        (match env.tool(i, p.context)
         case ToolRaises(code) => Halted(Mark(counted, k, Running), Failed(code))
         case AwaitsApproval => Halted(Mark(counted, k, WaitingApproval), Waiting)
         case ToolOutput(output) => Going(Publish(counted, k, output)))
    case _ =>
      Going(Publish(p, k, JObj(map["status" := JStr("succeeded")])))
  }

  /** One turn of the loop. */
  function Turn(env: Environment, s: Settings, rt: Routing, i: nat, n: Node, p: Progress): Step
    requires Runnable(n)
  {
    var k := n.key.value;
    if s.stopping then Halted(p, Stopped)
    else if env.softLimit(i) && n.kind.Tool? then Halted(p, BudgetExceeded("QUOTA_SOFT_LIMIT"))
    else if OverBudget(s, p) then Halted(p, BudgetExceeded("BUDGET_EXCEEDED"))
    else if rt.unreached(p, k) then Going(Mark(p, k, Skipped))
    else
      match env.whenHolds(i, p.context)
      case Raises(code) => Halted(p, Failed(code))
      case Holds(holds) => if holds then RunNode(env, rt, i, n, p) else Going(Mark(p, k, Skipped))
  }

  lemma NodeIsRunnable(nodes: seq<Node>, i: nat)
    requires WellFormed(nodes) && i < |nodes|
    ensures Runnable(nodes[i])
  {
    assert Complaint(nodes[i], Keys(nodes)).None?;
  }

  function StepNode(env: Environment, s: Settings, rt: Routing, nodes: seq<Node>, i: nat, p: Progress): Step
    requires WellFormed(nodes) && i < |nodes|
  {
    NodeIsRunnable(nodes, i);
    Turn(env, s, rt, i, nodes[i], p)
  }

  function InitialProgress(s: Settings): Progress {
    Progress(s.input, map[], map[], map[], s.usage, s.cost, map[], {}, 0)
  }

  /** The execution after n nodes of the order have had their turn, or where it stopped. */
  function Execute(env: Environment, s: Settings, rt: Routing, nodes: seq<Node>, n: nat): Step
    requires WellFormed(nodes) && n <= |nodes|
  {
    if n == 0 then Going(InitialProgress(s))
    else
      match Execute(env, s, rt, nodes, n - 1)
      case Halted(p, v) => Halted(p, v)
      case Going(p) => StepNode(env, s, rt, nodes, n - 1, p)
  }

  lemma {:induction false} HaltIsFinal(env: Environment, s: Settings, rt: Routing, nodes: seq<Node>, m: nat, n: nat)
    requires WellFormed(nodes) && m <= n <= |nodes| && Execute(env, s, rt, nodes, m).Halted?
    ensures Execute(env, s, rt, nodes, n) == Execute(env, s, rt, nodes, m)
  {
    if m < n { HaltIsFinal(env, s, rt, nodes, m, n - 1); }
  }

  // ----- What every execution keeps, at every step -----

  ghost predicate HasSucceeded(p: Progress, k: Key) {
    k in p.status && p.status[k] == Succeeded
  }

  /** q differs from p in the status of k at most. */
  ghost predicate StatusMoves(p: Progress, q: Progress, k: Key) {
    q.status == p.status || (k in q.status && q.status == p.status[k := q.status[k]])
  }

  lemma RunStatus(env: Environment, rt: Routing, i: nat, n: Node, p: Progress)
    requires Runnable(n)
    ensures var q := RunNode(env, rt, i, n, p).p;
            n.key.value in q.status && q.status == p.status[n.key.value := q.status[n.key.value]]
  {
    match n.kind {
      case Model =>
      case Condition =>
      case Tool =>
      case _ =>
    }
  }

  /** A turn gives a status to its own node only, and always does unless it halts. */
  lemma TurnStatus(env: Environment, s: Settings, rt: Routing, i: nat, n: Node, p: Progress)
    requires Runnable(n)
    ensures var r := Turn(env, s, rt, i, n, p);
            StatusMoves(p, r.p, n.key.value) && (r.Going? ==> n.key.value in r.p.status)
  {
    RunStatus(env, rt, i, n, p);
  }

  /** Exactly the nodes that have had their turn have a status. */
  lemma {:induction false} StatusKeys(env: Environment, s: Settings, rt: Routing, nodes: seq<Node>, n: nat)
    requires WellFormed(nodes) && n <= |nodes|
    ensures Execute(env, s, rt, nodes, n).p.status.Keys <= Keys(nodes[..n])
    ensures Execute(env, s, rt, nodes, n).Going? ==> Execute(env, s, rt, nodes, n).p.status.Keys == Keys(nodes[..n])
  {
    if n == 0 {
      assert Keys(nodes[..0]) == {};
    } else {
      StatusKeys(env, s, rt, nodes, n - 1);
      NodesOfPrefix(nodes, n - 1);
      var before := Execute(env, s, rt, nodes, n - 1);
      if before.Going? {
        StepStatus(env, s, rt, nodes, n - 1, before.p);
      }
    }
  }

  lemma StepStatus(env: Environment, s: Settings, rt: Routing, nodes: seq<Node>, i: nat, p: Progress)
    requires WellFormed(nodes) && i < |nodes|
    ensures var r, k := StepNode(env, s, rt, nodes, i, p), nodes[i].key.value;
            StatusMoves(p, r.p, k) && (r.Going? ==> k in r.p.status)
  {
    NodeIsRunnable(nodes, i);
    TurnStatus(env, s, rt, i, nodes[i], p);
  }

  /** A node has its first turn at its own position. */
  lemma FirstTurn(env: Environment, s: Settings, rt: Routing, nodes: seq<Node>, i: nat)
    requires WellFormed(nodes) && i < |nodes|
    ensures nodes[i].key.value !in Execute(env, s, rt, nodes, i).p.status
    ensures Runnable(nodes[i])
  {
    StatusKeys(env, s, rt, nodes, i);
    NodesOfPrefix(nodes, i);
    NodeIsRunnable(nodes, i);
  }

  /** It is the turn of the node at position i: it has no status, nor has any node after it. */
  ghost predicate AtTurn(nodes: seq<Node>, i: nat, p: Progress)
    requires WellFormed(nodes) && i < |nodes|
  {
    Runnable(nodes[i]) && nodes[i].key.value !in p.status && p.status.Keys <= Keys(nodes[..i])
  }

  /** Every turn keeps inv, and so does skipping the turn because the execution has halted. */
  ghost predicate KeptByTurns(env: Environment, s: Settings, rt: Routing, nodes: seq<Node>,
        inv: (Progress, nat) -> bool)
    requires WellFormed(nodes)
  {
    forall i: nat, p {:trigger inv(p, i)} :: i < |nodes| && AtTurn(nodes, i, p) && inv(p, i) ==>
      inv(StepNode(env, s, rt, nodes, i, p).p, i + 1) && inv(p, i + 1)
  }

  /** What holds at the start and is kept by every turn holds throughout, however it ends. */
  lemma {:induction false} InvariantHolds(env: Environment, s: Settings, rt: Routing, nodes: seq<Node>, n: nat,
        inv: (Progress, nat) -> bool)
    requires WellFormed(nodes) && n <= |nodes|
    requires inv(InitialProgress(s), 0) && KeptByTurns(env, s, rt, nodes, inv)
    ensures inv(Execute(env, s, rt, nodes, n).p, n)
  {
    if n > 0 {
      InvariantHolds(env, s, rt, nodes, n - 1, inv);
      FirstTurn(env, s, rt, nodes, n - 1);
      StatusKeys(env, s, rt, nodes, n - 1);
      var p := Execute(env, s, rt, nodes, n - 1).p;
      assert AtTurn(nodes, n - 1, p) && inv(p, n - 1);
    }
  }

  /** As InvariantHolds, for what depends on whether the execution has halted. */
  lemma {:induction false} StepInvariantHolds(env: Environment, s: Settings, rt: Routing, nodes: seq<Node>, n: nat,
        inv: (Step, nat) -> bool)
    requires WellFormed(nodes) && n <= |nodes| && inv(Going(InitialProgress(s)), 0)
    requires forall i: nat, p :: i < |nodes| && AtTurn(nodes, i, p) && inv(Going(p), i) ==>
               inv(StepNode(env, s, rt, nodes, i, p), i + 1)
    requires forall i: nat, p, v :: i < |nodes| && AtTurn(nodes, i, p) && inv(Halted(p, v), i) ==>
               inv(Halted(p, v), i + 1)
    ensures inv(Execute(env, s, rt, nodes, n), n)
  {
    if n > 0 {
      StepInvariantHolds(env, s, rt, nodes, n - 1, inv);
      FirstTurn(env, s, rt, nodes, n - 1);
      StatusKeys(env, s, rt, nodes, n - 1);
      var r := Execute(env, s, rt, nodes, n - 1);
      assert AtTurn(nodes, n - 1, r.p) && inv(r, n - 1);
    }
  }

  // ----- The context -----

  /** The outputs of the nodes that have succeeded. */
  function SucceededOutputs(p: Progress): Context {
    map k | k in p.status && p.status[k] == Succeeded && k in p.outputs :: p.outputs[k]
  }

  ghost predicate ContextIsOverride(input: Context, p: Progress) {
    p.context == input + SucceededOutputs(p) && HaveOutputs(p)
  }

  ghost predicate HaveOutputs(p: Progress) {
    forall k :: HasSucceeded(p, k) ==> k in p.outputs
  }

  /** q publishes the output of k, or has the context and outputs of p. */
  ghost predicate Publishes(p: Progress, q: Progress, k: Key) {
    if HasSucceeded(q, k) then
      && k in q.outputs && q.outputs == p.outputs[k := q.outputs[k]]
      && q.context == p.context[k := q.outputs[k]] && q.status == p.status[k := Succeeded]
    else
      q.outputs == p.outputs && q.context == p.context
  }

  lemma RunPublishes(env: Environment, rt: Routing, i: nat, n: Node, p: Progress)
    requires Runnable(n)
    ensures Publishes(p, RunNode(env, rt, i, n, p).p, n.key.value)
  {
    if n.kind.Model? {
      ModelPublishes(env, rt, i, n, p);
    } else if n.kind.Condition? {
      ConditionPublishes(env, rt, i, n, p);
    } else if n.kind.Tool? {
      ToolPublishes(env, rt, i, n, p);
    } else {
      assert RunNode(env, rt, i, n, p).p == Publish(p, n.key.value, JObj(map["status" := JStr("succeeded")]));
    }
  }

  lemma ModelPublishes(env: Environment, rt: Routing, i: nat, n: Node, p: Progress)
    requires Runnable(n) && n.kind.Model?
    ensures Publishes(p, RunNode(env, rt, i, n, p).p, n.key.value)
  {
  }

  lemma ConditionPublishes(env: Environment, rt: Routing, i: nat, n: Node, p: Progress)
    requires Runnable(n) && n.kind.Condition?
    ensures Publishes(p, RunNode(env, rt, i, n, p).p, n.key.value)
  {
  }

  lemma ToolPublishes(env: Environment, rt: Routing, i: nat, n: Node, p: Progress)
    requires Runnable(n) && n.kind.Tool?
    ensures Publishes(p, RunNode(env, rt, i, n, p).p, n.key.value)
  {
  }

  /** A turn publishes one output, or leaves context and outputs alone. */
  lemma TurnPublishes(env: Environment, s: Settings, rt: Routing, i: nat, n: Node, p: Progress)
    requires Runnable(n) && n.key.value !in p.status
    ensures Publishes(p, Turn(env, s, rt, i, n, p).p, n.key.value)
  {
    var q := Turn(env, s, rt, i, n, p).p;
    IdlePublishes(p, n.key.value);
    if q != p && q != Mark(p, n.key.value, Skipped) {
      RunPublishes(env, rt, i, n, p);
    }
  }

  lemma IdlePublishes(p: Progress, k: Key)
    requires k !in p.status
    ensures Publishes(p, p, k) && Publishes(p, Mark(p, k, Skipped), k)
  {
  }

  lemma ContextExtends(input: Context, p: Progress, q: Progress, k: Key)
    requires ContextIsOverride(input, p) && k !in p.status
    requires StatusMoves(p, q, k) && Publishes(p, q, k)
    ensures ContextIsOverride(input, q)
  {
    if HasSucceeded(q, k) {
      OutputsGrow(p, q, k);
      assert input + SucceededOutputs(p)[k := q.outputs[k]] == (input + SucceededOutputs(p))[k := q.outputs[k]];
    } else {
      OutputsStay(p, q, k);
    }
  }

  lemma OutputsGrow(p: Progress, q: Progress, k: Key)
    requires HaveOutputs(p) && HasSucceeded(q, k) && Publishes(p, q, k)
    ensures HaveOutputs(q) && SucceededOutputs(q) == SucceededOutputs(p)[k := q.outputs[k]]
  {
    forall x | HasSucceeded(q, x) ensures x in q.outputs {
      if x != k { assert HasSucceeded(p, x); }
    }
  }

  lemma OutputsStay(p: Progress, q: Progress, k: Key)
    requires HaveOutputs(p) && k !in p.status && StatusMoves(p, q, k) && !HasSucceeded(q, k) && q.outputs == p.outputs
    ensures HaveOutputs(q) && SucceededOutputs(q) == SucceededOutputs(p)
  {
    forall x | HasSucceeded(q, x) ensures HasSucceeded(p, x) {
    }
  }

  lemma ContextStep(env: Environment, s: Settings, rt: Routing, nodes: seq<Node>, i: nat, p: Progress)
    requires WellFormed(nodes) && i < |nodes| && nodes[i].key.value !in p.status
    requires ContextIsOverride(s.input, p)
    ensures ContextIsOverride(s.input, StepNode(env, s, rt, nodes, i, p).p)
  {
    NodeIsRunnable(nodes, i);
    TurnStatus(env, s, rt, i, nodes[i], p);
    TurnPublishes(env, s, rt, i, nodes[i], p);
    ContextExtends(s.input, p, Turn(env, s, rt, i, nodes[i], p).p, nodes[i].key.value);
  }

  /** At every step the context is the run input, overridden exactly at the keys of the nodes
      that succeeded, by their outputs. */
  lemma ContextIsInputPlusOutputs(env: Environment, s: Settings, rt: Routing, nodes: seq<Node>, n: nat)
    requires WellFormed(nodes) && n <= |nodes|
    ensures ContextIsOverride(s.input, Execute(env, s, rt, nodes, n).p)
  {
    var inv := (p: Progress, i: nat) => ContextIsOverride(s.input, p);
    forall i: nat, p | i < |nodes| && AtTurn(nodes, i, p) && inv(p, i)
      ensures inv(StepNode(env, s, rt, nodes, i, p).p, i + 1)
    {
      ContextStep(env, s, rt, nodes, i, p);
    }
    assert SucceededOutputs(InitialProgress(s)) == map[];
    InvariantHolds(env, s, rt, nodes, n, inv);
  }

  // ----- Accounting -----

  const NO_USAGE := Usage(0, 0, 0)

  predicate IsModelCall(n: Node, p: Progress)
    requires n.key.Some?
  {
    n.kind.Model? && n.key.value in p.status && p.status[n.key.value] == Succeeded && n.key.value in p.metrics
  }

  /** What node n contributes to the accounted usage. */
  function UsageOf(n: Node, p: Progress): Metrics
    requires n.key.Some?
  {
    if IsModelCall(n, p) then p.metrics[n.key.value] else Metrics(NO_USAGE, 0.0)
  }

  function AddMetrics(a: Metrics, b: Metrics): Metrics {
    Metrics(AddUsage(a.usage, b.usage), a.cost + b.cost)
  }

  /** The usage and cost of the model nodes among the first n that succeeded. */
  ghost function ModelUsage(nodes: seq<Node>, p: Progress, n: nat): Metrics
    requires AllKeyed(nodes) && n <= |nodes|
  {
    if n == 0 then Metrics(NO_USAGE, 0.0)
    else AddMetrics(ModelUsage(nodes, p, n - 1), UsageOf(nodes[n - 1], p))
  }

  predicate IsToolRun(n: Node, p: Progress)
    requires n.key.Some?
  {
    n.kind.Tool? && n.key.value in p.status && p.status[n.key.value] == Succeeded
  }

  ghost function ToolsRun(nodes: seq<Node>, p: Progress, n: nat): nat
    requires AllKeyed(nodes) && n <= |nodes|
  {
    if n == 0 then 0
    else ToolsRun(nodes, p, n - 1) + if IsToolRun(nodes[n - 1], p) then 1 else 0
  }

  /** p and q say the same about every key but k. */
  ghost predicate SameElsewhere(p: Progress, q: Progress, k: Key) {
    && (forall x :: x != k ==> (x in p.status <==> x in q.status) && (x in p.metrics <==> x in q.metrics))
    && (forall x :: x != k && x in p.status ==> p.status[x] == q.status[x])
    && (forall x :: x != k && x in p.metrics ==> p.metrics[x] == q.metrics[x])
  }

  lemma {:induction false} SameTotals(nodes: seq<Node>, p: Progress, q: Progress, n: nat, k: Key)
    requires AllKeyed(nodes) && n <= |nodes| && SameElsewhere(p, q, k)
    requires forall i :: 0 <= i < n ==> nodes[i].key != Some(k)
    ensures ModelUsage(nodes, p, n) == ModelUsage(nodes, q, n)
    ensures ToolsRun(nodes, p, n) == ToolsRun(nodes, q, n)
  {
    if n > 0 { SameTotals(nodes, p, q, n - 1, k); }
  }

  /** q accounts the model call of n, if it made one, and keeps the metrics of other nodes. */
  ghost predicate Accounts(n: Node, p: Progress, q: Progress)
    requires n.key.Some?
  {
    var k := n.key.value;
    && (q.metrics == p.metrics || (k in q.metrics && q.metrics == p.metrics[k := q.metrics[k]]))
    && Metrics(q.usage, q.cost) == AddMetrics(Metrics(p.usage, p.cost), UsageOf(n, q))
  }

  lemma RunAccounts(env: Environment, rt: Routing, i: nat, n: Node, p: Progress)
    requires Runnable(n)
    ensures var q := RunNode(env, rt, i, n, p).p;
            Accounts(n, p, q) && (q.usage != p.usage ==> IsModelCall(n, q))
  {
    match n.kind {
      case Model =>
      case Condition =>
      case Tool =>
      case _ =>
    }
  }

  /** A node that does not run adds nothing. */
  lemma IdleAccounts(n: Node, p: Progress)
    requires n.key.Some? && n.key.value !in p.status
    ensures Accounts(n, p, p) && Accounts(n, p, Mark(p, n.key.value, Skipped))
  {
  }

  lemma TurnAccounts(env: Environment, s: Settings, rt: Routing, i: nat, n: Node, p: Progress)
    requires Runnable(n) && n.key.value !in p.status
    ensures Accounts(n, p, Turn(env, s, rt, i, n, p).p)
  {
    var q := Turn(env, s, rt, i, n, p).p;
    IdleAccounts(n, p);
    if q != p && q != Mark(p, n.key.value, Skipped) {
      RunAccounts(env, rt, i, n, p);
    }
  }

  /** Only a model call that was within budget when it started adds usage. */
  lemma TurnSpends(env: Environment, s: Settings, rt: Routing, i: nat, n: Node, p: Progress)
    requires Runnable(n)
    ensures var q := Turn(env, s, rt, i, n, p).p;
            q.usage != p.usage ==> IsModelCall(n, q) && !OverBudget(s, p)
  {
    RunAccounts(env, rt, i, n, p);
  }

  lemma TurnElsewhere(env: Environment, s: Settings, rt: Routing, nodes: seq<Node>, i: nat, p: Progress)
    requires WellFormed(nodes) && i < |nodes| && nodes[i].key.value !in p.status
    ensures var q := StepNode(env, s, rt, nodes, i, p).p;
            && SameElsewhere(p, q, nodes[i].key.value)
            && ModelUsage(nodes, p, i) == ModelUsage(nodes, q, i) && ToolsRun(nodes, p, i) == ToolsRun(nodes, q, i)
  {
    NodeIsRunnable(nodes, i);
    var n := nodes[i];
    TurnStatus(env, s, rt, i, n, p);
    TurnAccounts(env, s, rt, i, n, p);
    SameTotals(nodes, p, Turn(env, s, rt, i, n, p).p, i, n.key.value);
  }

  /** Counts one more tool call if n has run as a tool, and passes fifty only by ending the execution. */
  ghost predicate CountsTool(n: Node, p: Progress, r: Step)
    requires n.key.Some?
  {
    && (r.Going? ==> r.p.toolCalls == p.toolCalls + (if IsToolRun(n, r.p) then 1 else 0) <= MAX_TOOL_CALLS)
    && (r.Halted? ==> !IsToolRun(n, r.p))
    && (r.p.toolCalls > MAX_TOOL_CALLS ==> r.Halted? && r.ending == BudgetExceeded("TOOL_CALL_LIMIT_EXCEEDED"))
  }

  lemma TurnCountsTools(env: Environment, s: Settings, rt: Routing, i: nat, n: Node, p: Progress)
    requires Runnable(n) && n.key.value !in p.status && p.toolCalls <= MAX_TOOL_CALLS
    ensures CountsTool(n, p, Turn(env, s, rt, i, n, p))
  {
    if n.kind.Tool? {
      ToolCounts(env, rt, i, n, p);
    } else {
      OthersCountNothing(env, rt, i, n, p);
    }
  }

  lemma ToolCounts(env: Environment, rt: Routing, i: nat, n: Node, p: Progress)
    requires Runnable(n) && n.kind.Tool? && p.toolCalls <= MAX_TOOL_CALLS
    ensures CountsTool(n, p, RunNode(env, rt, i, n, p))
  {
  }

  lemma OthersCountNothing(env: Environment, rt: Routing, i: nat, n: Node, p: Progress)
    requires Runnable(n) && !n.kind.Tool?
    ensures RunNode(env, rt, i, n, p).p.toolCalls == p.toolCalls
  {
  }

  /** Accounted usage and cost are the starting values plus those of the model nodes that
      succeeded, at every step and in whatever way the execution ends. */
  lemma UsageIsAccounted(env: Environment, s: Settings, rt: Routing, nodes: seq<Node>, n: nat)
    requires WellFormed(nodes) && n <= |nodes|
    ensures IsAccounted(s, nodes, Execute(env, s, rt, nodes, n).p, n)
  {
    var inv := (p: Progress, i: nat) => i <= |nodes| && IsAccounted(s, nodes, p, i);
    forall i: nat, p | i < |nodes| && AtTurn(nodes, i, p) && inv(p, i)
      ensures inv(StepNode(env, s, rt, nodes, i, p).p, i + 1) && inv(p, i + 1)
    {
      AccountTurn(env, s, rt, nodes, i, p);
    }
    InvariantHolds(env, s, rt, nodes, n, inv);
  }

  lemma AccountTurn(env: Environment, s: Settings, rt: Routing, nodes: seq<Node>, i: nat, p: Progress)
    requires WellFormed(nodes) && i < |nodes| && AtTurn(nodes, i, p) && IsAccounted(s, nodes, p, i)
    ensures IsAccounted(s, nodes, StepNode(env, s, rt, nodes, i, p).p, i + 1) && IsAccounted(s, nodes, p, i + 1)
  {
    NodeIsRunnable(nodes, i);
    TurnAccounts(env, s, rt, i, nodes[i], p);
    TurnElsewhere(env, s, rt, nodes, i, p);
    AccountOne(s, nodes, p, StepNode(env, s, rt, nodes, i, p).p, i + 1);
    AccountOne(s, nodes, p, p, i + 1);
  }

  ghost predicate IsAccounted(s: Settings, nodes: seq<Node>, p: Progress, n: nat)
    requires AllKeyed(nodes) && n <= |nodes|
  {
    Metrics(p.usage, p.cost) == AddMetrics(Metrics(s.usage, s.cost), ModelUsage(nodes, p, n))
  }

  lemma AccountOne(s: Settings, nodes: seq<Node>, p: Progress, q: Progress, n: nat)
    requires AllKeyed(nodes) && 0 < n <= |nodes| && IsAccounted(s, nodes, p, n - 1)
    requires ModelUsage(nodes, p, n - 1) == ModelUsage(nodes, q, n - 1)
    requires Metrics(q.usage, q.cost) == AddMetrics(Metrics(p.usage, p.cost), UsageOf(nodes[n - 1], q))
    ensures IsAccounted(s, nodes, q, n)
  {
  }

  /** The total is below the limit, or becomes so when a single model call is taken off. */
  ghost predicate WithinOneCall(s: Settings, nodes: seq<Node>, p: Progress, n: nat)
    requires AllKeyed(nodes) && n <= |nodes|
  {
    || p.usage.total < s.maxTokens
    || exists i :: 0 <= i < n && IsModelCall(nodes[i], p)
         && p.usage.total - p.metrics[nodes[i].key.value].usage.total < s.maxTokens
  }

  /** Under a positive token limit that was not reached at the start, the accounted total never
      passes the limit by more than one model call. */
  lemma TokensStayWithinOneCall(env: Environment, s: Settings, rt: Routing, nodes: seq<Node>, n: nat)
    requires WellFormed(nodes) && n <= |nodes|
    requires s.maxTokens > 0 && s.usage.total < s.maxTokens
    ensures WithinOneCall(s, nodes, Execute(env, s, rt, nodes, n).p, n)
  {
    var inv := (p: Progress, i: nat) => i <= |nodes| && WithinOneCall(s, nodes, p, i);
    forall i: nat, p | i < |nodes| && AtTurn(nodes, i, p) && inv(p, i)
      ensures inv(StepNode(env, s, rt, nodes, i, p).p, i + 1) && inv(p, i + 1)
    {
      TurnAccounts(env, s, rt, i, nodes[i], p);
      TurnSpends(env, s, rt, i, nodes[i], p);
      TurnElsewhere(env, s, rt, nodes, i, p);
      OneMoreCall(s, nodes, p, StepNode(env, s, rt, nodes, i, p).p, i + 1);
      MoreNodesSameTotal(s, nodes, p, i + 1);
    }
    InvariantHolds(env, s, rt, nodes, n, inv);
  }

  lemma MoreNodesSameTotal(s: Settings, nodes: seq<Node>, p: Progress, n: nat)
    requires AllKeyed(nodes) && 0 < n <= |nodes| && WithinOneCall(s, nodes, p, n - 1)
    ensures WithinOneCall(s, nodes, p, n)
  {
  }

  lemma OneMoreCall(s: Settings, nodes: seq<Node>, p: Progress, q: Progress, n: nat)
    requires UniqueKeys(nodes) && 0 < n <= |nodes| && WithinOneCall(s, nodes, p, n - 1)
    requires SameElsewhere(p, q, nodes[n - 1].key.value)
    requires q.usage.total == p.usage.total + UsageOf(nodes[n - 1], q).usage.total
    requires q.usage != p.usage ==> IsModelCall(nodes[n - 1], q) && (s.maxTokens != 0 ==> p.usage.total < s.maxTokens)
    ensures s.maxTokens != 0 ==> WithinOneCall(s, nodes, q, n)
  {
    if q.usage == p.usage && q.usage.total >= s.maxTokens {
      var i :| 0 <= i < n - 1 && IsModelCall(nodes[i], p)
               && p.usage.total - p.metrics[nodes[i].key.value].usage.total < s.maxTokens;
      assert IsModelCall(nodes[i], q);
    } else if q.usage != p.usage {
      assert IsModelCall(nodes[n - 1], q);
    }
  }

  ghost predicate ToolsBounded(nodes: seq<Node>, r: Step, n: nat)
    requires AllKeyed(nodes) && n <= |nodes|
  {
    && ToolsRun(nodes, r.p, n) <= MAX_TOOL_CALLS
    && (r.Going? ==> ToolsRun(nodes, r.p, n) == r.p.toolCalls)
    && (r.p.toolCalls > MAX_TOOL_CALLS ==> r.Halted? && r.ending == BudgetExceeded("TOOL_CALL_LIMIT_EXCEEDED"))
  }

  lemma OneMoreTool(nodes: seq<Node>, p: Progress, r: Step, n: nat)
    requires AllKeyed(nodes) && 0 < n <= |nodes| && ToolsBounded(nodes, Going(p), n - 1)
    requires ToolsRun(nodes, p, n - 1) == ToolsRun(nodes, r.p, n - 1)
    requires CountsTool(nodes[n - 1], p, r)
    ensures ToolsBounded(nodes, r, n)
  {
  }

  /** No execution runs more than fifty tool nodes; the one that would be the fifty-first ends
      the execution instead. */
  lemma ToolCallsAreBounded(env: Environment, s: Settings, rt: Routing, nodes: seq<Node>, n: nat)
    requires WellFormed(nodes) && n <= |nodes|
    ensures ToolsBounded(nodes, Execute(env, s, rt, nodes, n), n)
  {
    var inv := (r: Step, i: nat) => i <= |nodes| && ToolsBounded(nodes, r, i);
    forall i: nat, p | i < |nodes| && AtTurn(nodes, i, p) && inv(Going(p), i)
      ensures inv(StepNode(env, s, rt, nodes, i, p), i + 1)
    {
      ToolTurn(env, s, rt, nodes, i, p);
    }
    forall i: nat, p, v | i < |nodes| && AtTurn(nodes, i, p) && inv(Halted(p, v), i)
      ensures inv(Halted(p, v), i + 1)
    {
      NoToolAfterHalt(nodes, Halted(p, v), i + 1);
    }
    StepInvariantHolds(env, s, rt, nodes, n, inv);
  }

  lemma NoToolAfterHalt(nodes: seq<Node>, r: Step, n: nat)
    requires AllKeyed(nodes) && 0 < n <= |nodes| && r.Halted? && ToolsBounded(nodes, r, n - 1)
    requires !HasSucceeded(r.p, nodes[n - 1].key.value)
    ensures ToolsBounded(nodes, r, n)
  {
  }

  lemma ToolTurn(env: Environment, s: Settings, rt: Routing, nodes: seq<Node>, i: nat, p: Progress)
    requires WellFormed(nodes) && i < |nodes| && nodes[i].key.value !in p.status && ToolsBounded(nodes, Going(p), i)
    ensures ToolsBounded(nodes, StepNode(env, s, rt, nodes, i, p), i + 1)
  {
    NodeIsRunnable(nodes, i);
    TurnCountsTools(env, s, rt, i, nodes[i], p);
    TurnElsewhere(env, s, rt, nodes, i, p);
    OneMoreTool(nodes, p, StepNode(env, s, rt, nodes, i, p), i + 1);
  }

  // ----- Branches -----

  ghost predicate SelectsBy(rt: Routing, n: Node, p: Progress, q: Progress, matched: bool)
    requires Runnable(n)
  {
    && n.kind.Condition? && HasSucceeded(q, n.key.value)
    && q.selected == p.selected[n.key.value := Selected(n, matched)]
    && q.excluded == p.excluded + rt.pruned(n, matched)
  }

  /** q has the selections and exclusions of p, or adds those of condition n. */
  ghost predicate Selects(rt: Routing, n: Node, p: Progress, q: Progress)
    requires Runnable(n)
  {
    || (q.selected == p.selected && q.excluded == p.excluded)
    || SelectsBy(rt, n, p, q, true) || SelectsBy(rt, n, p, q, false)
  }

  lemma RunSelects(env: Environment, rt: Routing, i: nat, n: Node, p: Progress)
    requires Runnable(n)
    ensures Selects(rt, n, p, RunNode(env, rt, i, n, p).p)
  {
    match n.kind {
      case Model =>
      case Condition =>
        if env.matches(i, p.context).Holds? {
          var matched := env.matches(i, p.context).result;
          assert SelectsBy(rt, n, p, RunNode(env, rt, i, n, p).p, matched);
        }
      case Tool =>
      case _ =>
    }
  }

  /** Only a node that the branches reach gets a status other than Skipped. */
  lemma TurnSelects(env: Environment, s: Settings, rt: Routing, i: nat, n: Node, p: Progress)
    requires Runnable(n) && n.key.value !in p.status
    ensures var q, k := Turn(env, s, rt, i, n, p).p, n.key.value;
            && Selects(rt, n, p, q)
            && (k in q.status && q.status[k] != Skipped ==> !rt.unreached(p, k))
  {
    RunSelects(env, rt, i, n, p);
  }

  ghost predicate WasSelected(nodes: seq<Node>, p: Progress, k: Key)
    requires AllKeyed(nodes)
  {
    exists c :: c in ConditionParents(nodes, k) && HasSucceeded(p, c) && c in p.selected && p.selected[c] == k
  }

  /** Selections are made by conditions that succeeded, and a node that has succeeded although
      conditions route to it was selected by one of them. */
  ghost predicate Selections(nodes: seq<Node>, p: Progress)
    requires AllKeyed(nodes)
  {
    && (forall c :: c in p.selected ==> HasSucceeded(p, c))
    && (forall k {:trigger WasSelected(nodes, p, k)} :: HasSucceeded(p, k) && ConditionParents(nodes, k) != {} ==>
         WasSelected(nodes, p, k))
  }

  lemma SelectionsExtend(nodes: seq<Node>, n: Node, p: Progress, q: Progress)
    requires WellFormed(nodes) && Runnable(n) && n.key.value !in p.status
    requires Selections(nodes, p) && StatusMoves(p, q, n.key.value)
    requires Selects(WorkflowRouting(nodes), n, p, q)
    requires HasSucceeded(q, n.key.value) ==> !WorkflowRouting(nodes).unreached(p, n.key.value)
    ensures Selections(nodes, q)
  {
    forall k | HasSucceeded(q, k) && ConditionParents(nodes, k) != {}
      ensures WasSelected(nodes, q, k)
    {
      if k == n.key.value {
        assert !NotSelected(nodes, p, k);
        var c :| c in ConditionParents(nodes, k) && c in p.selected && p.selected[c] == k;
        assert c in q.selected && q.selected[c] == k && HasSucceeded(q, c);
      } else {
        assert WasSelected(nodes, p, k);
        var c :| c in ConditionParents(nodes, k) && HasSucceeded(p, c) && c in p.selected && p.selected[c] == k;
        assert c in q.selected && q.selected[c] == k && HasSucceeded(q, c);
      }
    }
  }

  /** A node that some condition routes to succeeds only if a condition that has succeeded
      selected it. */
  lemma SucceededWasSelected(env: Environment, s: Settings, nodes: seq<Node>, n: nat)
    requires WellFormed(nodes) && n <= |nodes|
    ensures Selections(nodes, Execute(env, s, WorkflowRouting(nodes), nodes, n).p)
  {
    var rt := WorkflowRouting(nodes);
    var inv := (p: Progress, i: nat) => Selections(nodes, p);
    forall i: nat, p | i < |nodes| && AtTurn(nodes, i, p) && inv(p, i)
      ensures inv(StepNode(env, s, rt, nodes, i, p).p, i + 1)
    {
      SelectionStep(env, s, nodes, i, p);
    }
    InvariantHolds(env, s, rt, nodes, n, inv);
  }

  lemma SelectionStep(env: Environment, s: Settings, nodes: seq<Node>, i: nat, p: Progress)
    requires WellFormed(nodes) && i < |nodes| && AtTurn(nodes, i, p) && Selections(nodes, p)
    ensures Selections(nodes, StepNode(env, s, WorkflowRouting(nodes), nodes, i, p).p)
  {
    var rt := WorkflowRouting(nodes);
    TurnStatus(env, s, rt, i, nodes[i], p);
    TurnSelects(env, s, rt, i, nodes[i], p);
    SelectionsExtend(nodes, nodes[i], p, Turn(env, s, rt, i, nodes[i], p).p);
  }

  // ----- The branch not taken -----

  /** The target that condition n did not take, given the one it took. */
  function OtherTarget(n: Node, taken: Key): Option<Key>
    requires n.trueNext.Some? && n.falseNext.Some?
  {
    Unselected(n, n.trueNext == Some(taken))
  }

  ghost predicate PrunedFor(nodes: seq<Node>, n: Node, p: Progress)
    requires Runnable(n)
  {
    n.kind.Condition? && n.key.value in p.selected ==>
      (n.trueNext == Some(p.selected[n.key.value]) || n.falseNext == Some(p.selected[n.key.value]))
      && PrunedBy(nodes, OtherTarget(n, p.selected[n.key.value])) <= p.excluded
  }

  /** No excluded node has run. */
  ghost predicate ExcludedSkipped(p: Progress) {
    forall k :: k in p.excluded && k in p.status ==> p.status[k] == Skipped
  }

  /** What the conditions among the first n nodes took out is excluded. */
  ghost predicate AllPruned(nodes: seq<Node>, p: Progress, n: nat)
    requires WellFormed(nodes) && n <= |nodes|
  {
    && p.selected.Keys <= p.status.Keys
    && (forall i :: 0 <= i < n ==> Runnable(nodes[i]) && PrunedFor(nodes, nodes[i], p))
  }

  /** The position of each key in the order. */
  ghost function Positions(nodes: seq<Node>): (rank: map<Key, int>)
    requires UniqueKeys(nodes)
    ensures rank.Keys == Keys(nodes)
    ensures forall i :: 0 <= i < |nodes| ==> rank[nodes[i].key.value] == i
  {
    map k | k in Keys(nodes) :: (var i :| 0 <= i < |nodes| && nodes[i].key == Some(k); i)
  }

  /** In a schedule, whatever a key leads to comes later. */
  lemma ReachedComesLater(nodes: seq<Node>, i: nat, x: Key)
    requires WellFormed(nodes) && IsSchedule(nodes, nodes) && Acyclic(SchedulingEdges(nodes))
    requires i < |nodes| && StrictlyReaches(SchedulingEdges(nodes), nodes[i].key.value, x)
    ensures x in Keys(nodes) && x !in Keys(nodes[..i + 1])
  {
    var e, rank := SchedulingEdges(nodes), Positions(nodes);
    EdgesStayInside(nodes);
    forall a, b | (a, b) in e
      ensures a in rank && b in rank && rank[a] < rank[b]
    {
      ScheduleFollowsEdges(nodes, nodes, rank[a], rank[b]);
    }
    var p :| PathFromTo(e, p, nodes[i].key.value, x) && |p| >= 2;
    RankGrowsAlongPath(e, rank, p);
    forall j | 0 <= j < i + 1 ensures nodes[j].key != Some(x) {
      assert rank[nodes[j].key.value] == j;
    }
  }

  /** Everything a condition takes out comes after it. */
  lemma PrunedComesLater(nodes: seq<Node>, i: nat, matched: bool, x: Key)
    requires WellFormed(nodes) && IsSchedule(nodes, nodes) && Acyclic(SchedulingEdges(nodes))
    requires i < |nodes| && nodes[i].kind.Condition? && Runnable(nodes[i])
    requires x in PrunedBy(nodes, Unselected(nodes[i], matched))
    ensures x !in Keys(nodes[..i + 1])
  {
    var e, c, t := SchedulingEdges(nodes), nodes[i].key.value, Unselected(nodes[i], matched).value;
    assert Complaint(nodes[i], Keys(nodes)).None?;
    var target :| target in nodes && target.key == Some(t);
    assert (c, t) in e;
    ReachesSelf(e, c);
    ReachesStep(e, c, c, t);
    if x == t {
      ReachesSelf(e, t);
    } else {
      ReachesMonotone(DependencyEdges(nodes), e, t, x);
      ReachesIsStrictOrEqual(e, t, x);
    }
    ReachesTransitive(e, c, t, x);
    ReachedComesLater(nodes, i, x);
  }

  lemma ExclusionsExtend(nodes: seq<Node>, i: nat, p: Progress, q: Progress)
    requires WellFormed(nodes) && i < |nodes| && p.status.Keys <= Keys(nodes[..i])
    requires ExcludedSkipped(p) && StatusMoves(p, q, nodes[i].key.value) && p.excluded <= q.excluded
    requires nodes[i].key.value in q.status && q.status[nodes[i].key.value] != Skipped ==>
               nodes[i].key.value !in p.excluded
    requires forall x :: x in q.excluded && x !in p.excluded ==> x !in Keys(nodes[..i + 1])
    ensures ExcludedSkipped(q)
  {
    NodesOfPrefix(nodes, i);
  }

  lemma PruningExtends(nodes: seq<Node>, i: nat, p: Progress, q: Progress)
    requires WellFormed(nodes) && i < |nodes| && Runnable(nodes[i]) && nodes[i].key.value !in p.status
    requires AllPruned(nodes, p, i) && StatusMoves(p, q, nodes[i].key.value)
    requires Selects(WorkflowRouting(nodes), nodes[i], p, q) && p.excluded <= q.excluded
    ensures AllPruned(nodes, q, i + 1)
  {
    forall j | 0 <= j < i
      ensures PrunedFor(nodes, nodes[j], q)
    {
      assert PrunedFor(nodes, nodes[j], p) && nodes[j].key != nodes[i].key;
    }
    OwnPruning(nodes, nodes[i], p, q);
  }

  lemma OwnPruning(nodes: seq<Node>, n: Node, p: Progress, q: Progress)
    requires AllKeyed(nodes) && Runnable(n) && n.key.value !in p.selected
    requires Selects(WorkflowRouting(nodes), n, p, q)
    ensures PrunedFor(nodes, n, q)
  {
    if SelectsBy(WorkflowRouting(nodes), n, p, q, true) {
      assert OtherTarget(n, Selected(n, true)) == Unselected(n, true);
    } else if SelectsBy(WorkflowRouting(nodes), n, p, q, false) {
      assert OtherTarget(n, Selected(n, false)) == Unselected(n, false);
    }
  }

  lemma NewExclusionsAreUnseen(nodes: seq<Node>, i: nat, p: Progress, q: Progress)
    requires WellFormed(nodes) && IsSchedule(nodes, nodes) && Acyclic(SchedulingEdges(nodes)) && i < |nodes|
    requires Runnable(nodes[i]) && Selects(WorkflowRouting(nodes), nodes[i], p, q)
    ensures p.excluded <= q.excluded
    ensures forall x :: x in q.excluded && x !in p.excluded ==> x !in Keys(nodes[..i + 1])
  {
    forall x | x in q.excluded && x !in p.excluded
      ensures x !in Keys(nodes[..i + 1])
    {
      if SelectsBy(WorkflowRouting(nodes), nodes[i], p, q, true) {
        PrunedComesLater(nodes, i, true, x);
      } else {
        PrunedComesLater(nodes, i, false, x);
      }
    }
  }

  lemma ExclusionStep(env: Environment, s: Settings, nodes: seq<Node>, i: nat, p: Progress)
    requires WellFormed(nodes) && IsSchedule(nodes, nodes) && Acyclic(SchedulingEdges(nodes)) && i < |nodes|
    requires Runnable(nodes[i]) && nodes[i].key.value !in p.status && p.status.Keys <= Keys(nodes[..i])
    requires ExcludedSkipped(p) && AllPruned(nodes, p, i)
    ensures var q := StepNode(env, s, WorkflowRouting(nodes), nodes, i, p).p;
            ExcludedSkipped(q) && AllPruned(nodes, q, i + 1)
  {
    var rt, m := WorkflowRouting(nodes), nodes[i];
    var q := Turn(env, s, rt, i, m, p).p;
    TurnStatus(env, s, rt, i, m, p);
    TurnSelects(env, s, rt, i, m, p);
    NewExclusionsAreUnseen(nodes, i, p, q);
    ExclusionsExtend(nodes, i, p, q);
    PruningExtends(nodes, i, p, q);
  }

  lemma UnseenIsPruned(nodes: seq<Node>, n: nat, p: Progress)
    requires WellFormed(nodes) && n < |nodes| && AllPruned(nodes, p, n)
    requires Runnable(nodes[n]) && nodes[n].key.value !in p.status
    ensures AllPruned(nodes, p, n + 1)
  {
  }

  lemma ExclusionsHold(env: Environment, s: Settings, nodes: seq<Node>, n: nat)
    requires WellFormed(nodes) && IsSchedule(nodes, nodes) && Acyclic(SchedulingEdges(nodes)) && n <= |nodes|
    ensures var p := Execute(env, s, WorkflowRouting(nodes), nodes, n).p;
            ExcludedSkipped(p) && AllPruned(nodes, p, n)
  {
    var rt := WorkflowRouting(nodes);
    var inv := (p: Progress, i: nat) => i <= |nodes| && ExcludedSkipped(p) && AllPruned(nodes, p, i);
    forall i: nat, p | i < |nodes| && AtTurn(nodes, i, p) && inv(p, i)
      ensures inv(StepNode(env, s, rt, nodes, i, p).p, i + 1) && inv(p, i + 1)
    {
      ExclusionStep(env, s, nodes, i, p);
      UnseenIsPruned(nodes, i, p);
    }
    assert AllPruned(nodes, InitialProgress(s), 0);
    InvariantHolds(env, s, rt, nodes, n, inv);
  }

  /** Once a condition has been evaluated, neither the target it did not select nor anything that
      transitively depends on that target ever runs, before or after. */
  lemma UnselectedBranchNeverRuns(env: Environment, s: Settings, nodes: seq<Node>, n: nat, i: nat, target: Key, x: Key)
    requires WellFormed(nodes) && IsSchedule(nodes, nodes) && Acyclic(SchedulingEdges(nodes)) && i < n <= |nodes|
    requires nodes[i].kind.Condition? && RoutesTo(nodes[i], target) && target != ""
    requires var p := Execute(env, s, WorkflowRouting(nodes), nodes, n).p;
             nodes[i].key.value in p.selected && p.selected[nodes[i].key.value] != target
    requires x == target || StrictlyReaches(DependencyEdges(nodes), target, x)
    ensures var p := Execute(env, s, WorkflowRouting(nodes), nodes, n).p;
            x in p.status ==> p.status[x] == Skipped
  {
    ExclusionsHold(env, s, nodes, n);
    var p := Execute(env, s, WorkflowRouting(nodes), nodes, n).p;
    assert PrunedFor(nodes, nodes[i], p);
    assert Complaint(nodes[i], Keys(nodes)).None?;
    if x != target {
      var y := StrictlyReachesLast(DependencyEdges(nodes), target, x);
      DependencyEdgesByKey(nodes);
    }
    assert x in PrunedBy(nodes, Some(target));
  }

  // ----- The empty target -----

  /** The turn of a condition, and the target that it does not take. */
  ghost predicate Declines(nodes: seq<Node>, i: nat, q: Progress, other: Key)
    requires WellFormed(nodes) && i < |nodes| && Runnable(nodes[i])
  {
    var k := nodes[i].key.value;
    RoutesTo(nodes[i], other) && HasSucceeded(q, k) && k in q.selected && q.selected[k] != other
  }

  /** Why the empty key is left out above: the turn that evaluates a condition takes out the other
      target and all its dependants if and only if that target is not the empty string, or they
      were out before. */
  lemma PruningIsCompleteUnlessEmpty(env: Environment, s: Settings, nodes: seq<Node>, i: nat, p: Progress, other: Key)
    requires WellFormed(nodes) && i < |nodes| && AtTurn(nodes, i, p)
    requires Declines(nodes, i, StepNode(env, s, WorkflowRouting(nodes), nodes, i, p).p, other)
    ensures var q := StepNode(env, s, WorkflowRouting(nodes), nodes, i, p).p;
            var branch := {other} + Dependants(nodes, other);
            branch <= q.excluded <==> other != "" || branch <= p.excluded
  {
    var rt, n := WorkflowRouting(nodes), nodes[i];
    TurnStatus(env, s, rt, i, n, p);
    TurnSelects(env, s, rt, i, n, p);
    var q := StepNode(env, s, rt, nodes, i, p).p;
    DeclinedIsUnselected(env, s, rt, nodes, i, p, other);
    var matched :| SelectsBy(rt, n, p, q, matched) && Selected(n, !matched) == other;
    assert rt.pruned(n, matched) == PrunedBy(nodes, Unselected(n, matched));
  }

  lemma DeclinedIsUnselected(env: Environment, s: Settings, rt: Routing, nodes: seq<Node>, i: nat,
        p: Progress, other: Key)
    requires WellFormed(nodes) && i < |nodes| && AtTurn(nodes, i, p)
    requires Declines(nodes, i, StepNode(env, s, rt, nodes, i, p).p, other)
    ensures exists matched ::
              SelectsBy(rt, nodes[i], p, StepNode(env, s, rt, nodes, i, p).p, matched)
                  && Selected(nodes[i], !matched) == other
  {
    var n, q := nodes[i], StepNode(env, s, rt, nodes, i, p).p;
    var matched := env.matches(i, p.context).Holds? && env.matches(i, p.context).result;
    assert SelectsBy(rt, n, p, q, matched) && Selected(n, !matched) == other;
  }

  // A workflow in which a dependant of the empty target runs although the target was not taken:
  // c selects a rather than z, and d depends on z.  It goes wrong for z = "".

  function TwoBranches(c: Key, z: Key, a: Key, d: Key): seq<Node> {
    [Node(Some(c), Condition, CONDITION_FIELDS, Some(a), Some(z), []),
     Node(Some(z), Prepare, {}, None, None, []),
     Node(Some(a), Prepare, {}, None, None, []),
     Node(Some(d), Prepare, {}, None, None, [z])]
  }

  predicate AreNames(c: Key, z: Key, a: Key, d: Key) {
    c != z && c != a && c != d && z != a && z != d && a != d && StrLess(z, a)
  }

  lemma BranchEdges(c: Key, z: Key, a: Key, d: Key)
    ensures DependencyEdges(TwoBranches(c, z, a, d)) == {(z, d)}
    ensures SchedulingEdges(TwoBranches(c, z, a, d)) >= {(z, d), (c, a), (c, z)}
  {
    var nodes := TwoBranches(c, z, a, d);
    assert nodes[0] in nodes && nodes[1] in nodes && nodes[2] in nodes && nodes[3] in nodes;
    assert RoutesTo(nodes[0], a) && RoutesTo(nodes[0], z);
    assert z in nodes[3].dependsOn;
  }

  lemma OneRouter(c: Key, z: Key, a: Key, d: Key, n: Node, y: Key)
    requires n in TwoBranches(c, z, a, d) && RoutesTo(n, y)
    ensures n.key == Some(c) && (y == a || y == z)
  {
  }

  lemma NoOtherEdges(c: Key, z: Key, a: Key, d: Key)
    ensures SchedulingEdges(TwoBranches(c, z, a, d)) == {(z, d), (c, a), (c, z)}
  {
    BranchEdges(c, z, a, d);
    var nodes, e: Edges := TwoBranches(c, z, a, d), {(z, d), (c, a), (c, z)};
    forall x, y | (x, y) in SchedulingEdges(nodes) && (x, y) !in DependencyEdges(nodes) ensures (x, y) in e {
      var n, m :| n in nodes && m in nodes && n.key == Some(x) && m.key == Some(y) && RoutesTo(n, y);
      OneRouter(c, z, a, d, n, y);
    }
  }

  lemma BranchesAreWellFormed(c: Key, z: Key, a: Key, d: Key)
    requires AreNames(c, z, a, d)
    ensures WellFormed(TwoBranches(c, z, a, d))
  {
    var nodes := TwoBranches(c, z, a, d);
    assert nodes[0] in nodes && nodes[1] in nodes && nodes[2] in nodes && nodes[3] in nodes;
    assert Keys(nodes) >= {c, z, a, d};
  }

  /** c on the first level, z and a on the second, d on the third. */
  lemma BranchLevels(c: Key, z: Key, a: Key, d: Key, e: Edges)
    requires AreNames(c, z, a, d) && e == {(z, d), (c, a), (c, z)}
    ensures Acyclic(e) && IsLevel(e, c, 0) && IsLevel(e, z, 1) && IsLevel(e, a, 1) && IsLevel(e, d, 2)
  {
    var layer := BranchLayers(c, z, a, d);
    BranchesAreLayered(c, z, a, d, e);
    LayerIsLevel(e, layer, c);
    LayerIsLevel(e, layer, z);
    LayerIsLevel(e, layer, a);
    LayerIsLevel(e, layer, d);
    RankedIsAcyclic(e, layer);
  }

  function BranchLayers(c: Key, z: Key, a: Key, d: Key): map<Key, nat> {
    map k | k in {c, z, a, d} :: BranchLayer(c, d, k)
  }

  function BranchLayer(c: Key, d: Key, k: Key): nat {
    if k == c then 0 else if k == d then 2 else 1
  }

  lemma BranchesAreLayered(c: Key, z: Key, a: Key, d: Key, e: Edges)
    requires AreNames(c, z, a, d) && e == {(z, d), (c, a), (c, z)}
    ensures IsLayering(e, BranchLayers(c, z, a, d))
    ensures forall x, y :: (x, y) in e ==> y in BranchLayers(c, z, a, d)
  {
    var layer := BranchLayers(c, z, a, d);
    EdgesClimb(c, z, a, d, e, layer);
    forall y | y in layer && layer[y] > 0 ensures EnteredFromBelow(e, layer, y) {
      assert y == d || y == z || y == a;
    }
  }

  lemma EdgesClimb(c: Key, z: Key, a: Key, d: Key, e: Edges, layer: map<Key, nat>)
    requires e == {(z, d), (c, a), (c, z)} && c in layer && z in layer && a in layer && d in layer
    requires layer[c] == 0 && layer[z] == 1 && layer[a] == 1 && layer[d] == 2
    ensures forall x, y :: (x, y) in e ==> x in layer && y in layer && layer[x] < layer[y]
    ensures EnteredFromBelow(e, layer, d) && EnteredFromBelow(e, layer, z) && EnteredFromBelow(e, layer, a)
  {
    assert (z, d) in e && (c, a) in e && (c, z) in e;
  }

  lemma LevelsOrder(e: Edges, x: Key, y: Key, m: nat, n: nat)
    requires IsLevel(e, x, m) && IsLevel(e, y, n) && (m < n || (m == n && StrLess(x, y)))
    ensures ComesBefore(e, x, y)
  {
  }

  lemma BranchesAreOrdered(c: Key, z: Key, a: Key, d: Key, e: Edges, i: nat, j: nat)
    requires StrLess(z, a) && IsLevel(e, c, 0) && IsLevel(e, z, 1) && IsLevel(e, a, 1) && IsLevel(e, d, 2)
    requires i < j < 4
    ensures NodeBefore(e, TwoBranches(c, z, a, d)[i], TwoBranches(c, z, a, d)[j])
  {
    var nodes := TwoBranches(c, z, a, d);
    LevelsOrder(e, nodes[i].key.value, nodes[j].key.value, LevelAt(i), LevelAt(j));
  }

  lemma BranchesAreScheduled(c: Key, z: Key, a: Key, d: Key)
    requires AreNames(c, z, a, d)
    ensures Acyclic(SchedulingEdges(TwoBranches(c, z, a, d)))
    ensures IsSchedule(TwoBranches(c, z, a, d), TwoBranches(c, z, a, d))
  {
    var nodes, e: Edges := TwoBranches(c, z, a, d), {(z, d), (c, a), (c, z)};
    NoOtherEdges(c, z, a, d);
    BranchLevels(c, z, a, d, e);
    forall i, j | 0 <= i < j < |nodes| ensures NodeBefore(SchedulingEdges(nodes), nodes[i], nodes[j]) {
      BranchesAreOrdered(c, z, a, d, e, i, j);
    }
  }

  function LevelAt(i: nat): nat {
    if i == 0 then 0 else if i < 3 then 1 else 2
  }

  /** The answers of a run in which every condition holds and no limit is set. */
  ghost predicate AllHold(env: Environment, s: Settings) {
    && !s.stopping && s.maxTokens == 0 && s.maxCost == 0.0
    && (forall i, context :: env.whenHolds(i, context) == Holds(true))
    && forall i, context :: env.matches(i, context) == Holds(true)
  }

  /** What matters of the first turns: c has selected a, and nothing is excluded. */
  predicate TookA(r: Step, c: Key, a: Key) {
    r.Going? && r.p.selected == map[c := a] && r.p.excluded == {}
  }

  lemma PrepareRuns(env: Environment, s: Settings, rt: Routing, i: nat, n: Node, p: Progress)
    requires AllHold(env, s) && Runnable(n) && n.kind.Prepare? && !rt.unreached(p, n.key.value)
    ensures Turn(env, s, rt, i, n, p) == Going(Publish(p, n.key.value, JObj(map["status" := JStr("succeeded")])))
  {
  }

  /** A prepare node leaves selections and exclusions alone, whether it runs or not. */
  lemma PrepareSelectsNothing(env: Environment, s: Settings, rt: Routing, i: nat, n: Node, p: Progress)
    requires AllHold(env, s) && Runnable(n) && n.kind.Prepare?
    ensures var r := Turn(env, s, rt, i, n, p);
            r.Going? && r.p.selected == p.selected && r.p.excluded == p.excluded
  {
    if !rt.unreached(p, n.key.value) { PrepareRuns(env, s, rt, i, n, p); }
  }

  lemma FirstTakesA(env: Environment, s: Settings, rt: Routing, n: Node, p: Progress, c: Key, a: Key)
    requires AllHold(env, s) && n == Node(Some(c), Condition, CONDITION_FIELDS, Some(a), Some(""), []) && a != ""
    requires p == InitialProgress(s) && !rt.unreached(p, c) && rt.pruned(n, true) == {}
    ensures TookA(Turn(env, s, rt, 0, n, p), c, a)
  {
  }

  lemma BranchRouting(c: Key, a: Key, d: Key, p: Progress)
    requires AreNames(c, "", a, d) && p.excluded == {}
    ensures var nodes := TwoBranches(c, "", a, d);
            && AllKeyed(nodes) && !WorkflowRouting(nodes).unreached(p, c) && !WorkflowRouting(nodes).unreached(p, d)
            && WorkflowRouting(nodes).pruned(nodes[0], true) == {}
  {
    var nodes := TwoBranches(c, "", a, d);
    assert ConditionParents(nodes, c) == {} && ConditionParents(nodes, d) == {};
  }

  lemma ThreeTurns(c: Key, a: Key, d: Key, env: Environment, s: Settings)
    requires AreNames(c, "", a, d) && AllHold(env, s)
    ensures WellFormed(TwoBranches(c, "", a, d))
    ensures var nodes := TwoBranches(c, "", a, d);
            TookA(Execute(env, s, WorkflowRouting(nodes), nodes, 3), c, a)
  {
    BranchesAreWellFormed(c, "", a, d);
    var nodes := TwoBranches(c, "", a, d);
    var rt, p := WorkflowRouting(nodes), InitialProgress(s);
    BranchRouting(c, a, d, p);
    FirstTakesA(env, s, rt, nodes[0], p, c, a);
    assert Execute(env, s, rt, nodes, 0) == Going(p);
    var r1 := Execute(env, s, rt, nodes, 1);
    assert TookA(r1, c, a);
    PrepareSelectsNothing(env, s, rt, 1, nodes[1], r1.p);
    var r2 := Execute(env, s, rt, nodes, 2);
    assert TookA(r2, c, a);
    PrepareSelectsNothing(env, s, rt, 2, nodes[2], r2.p);
  }

  /** In every such run c takes a, and d, which depends on the target not taken, succeeds. */
  lemma DependantOfEmptyTargetRuns(c: Key, a: Key, d: Key, env: Environment, s: Settings)
    requires AreNames(c, "", a, d) && AllHold(env, s)
    ensures var nodes := TwoBranches(c, "", a, d);
            && WellFormed(nodes) && Acyclic(SchedulingEdges(nodes)) && IsSchedule(nodes, nodes)
            && RoutesTo(nodes[0], "") && StrictlyReaches(DependencyEdges(nodes), "", d)
            && var p := Execute(env, s, WorkflowRouting(nodes), nodes, 4).p;
               c in p.selected && p.selected[c] == a && HasSucceeded(p, d)
  {
    BranchesAreScheduled(c, "", a, d);
    assert RoutesTo(TwoBranches(c, "", a, d)[0], "");
    BranchEdges(c, "", a, d);
    ReachesSelf({("", d)}, "");
    ReachesStep({("", d)}, "", "", d);
    LastTurn(c, a, d, env, s);
  }

  lemma LastTurn(c: Key, a: Key, d: Key, env: Environment, s: Settings)
    requires AreNames(c, "", a, d) && AllHold(env, s)
    ensures WellFormed(TwoBranches(c, "", a, d))
    ensures var nodes := TwoBranches(c, "", a, d);
            var p := Execute(env, s, WorkflowRouting(nodes), nodes, 4).p;
            c in p.selected && p.selected[c] == a && HasSucceeded(p, d)
  {
    ThreeTurns(c, a, d, env, s);
    var nodes := TwoBranches(c, "", a, d);
    var rt := WorkflowRouting(nodes);
    var p := Execute(env, s, rt, nodes, 3).p;
    BranchRouting(c, a, d, p);
    PrepareRuns(env, s, rt, 3, nodes[3], p);
  }

  // ----- execute_workflow -----

  datatype Checkpoint = Checkpoint(version: int, context: Context, usage: Usage)

  datatype RunOutput = NoOutput | ErrorOutput(code: string) | WorkflowOutput(context: Context)

  datatype Outcome = Completed | Ended(ending: Ending)

  ghost predicate IsTooLong(workflow: seq<Node>) {
    IsOrderable(workflow) && |workflow| > MAX_WORKFLOW_NODES
  }

  /** What executing ordered nodes comes to: the progress made and the outcome.  prepareError is an
      error raised while independent model nodes were computed ahead in parallel. */
  ghost function ExecutionOf(env: Environment, s: Settings, nodes: seq<Node>,
        prepareError: Option<string>): (Progress, Outcome)
    requires WellFormed(nodes)
  {
    if |nodes| > MAX_WORKFLOW_NODES then
      (InitialProgress(s), Ended(Failed("WORKFLOW_NODE_LIMIT_EXCEEDED")))
    else if prepareError.Some? then
      (InitialProgress(s), Ended(Failed(prepareError.value)))
    else
      var r := Execute(env, s, WorkflowRouting(nodes), nodes, |nodes|);
      (r.p, if r.Going? then Completed else Ended(r.ending))
  }

  /** The outcomes that leave a new checkpoint: a completed run and every failure but that of a workflow
      with too many nodes. */
  predicate Saves(outcome: Outcome, tooLong: bool) {
    outcome.Completed? || (outcome.ending.Failed? && !tooLong)
  }

  /** output_json after an execution: a run that waits keeps what it had. */
  function OutputOf(outcome: Outcome, context: Context, before: RunOutput): RunOutput {
    match outcome
    case Completed => WorkflowOutput(context)
    case Ended(Failed(code)) => ErrorOutput(code)
    case Ended(BudgetExceeded(code)) => ErrorOutput(code)
    case Ended(Stopped) => ErrorOutput("STOP_REQUESTED")
    case Ended(Waiting) => before
  }

  /** A run row together with the local state of the call that executes it. */
  class WorkflowExecution {
    var usage: Usage
    var cost: real
    var output: RunOutput
    var checkpointVersion: int
    var checkpoints: seq<Checkpoint>

    var context: Context
    var status: map<Key, NodeStatus>
    var outputs: map<Key, Json>
    var metrics: map<Key, Metrics>
    var selected: map<Key, Key>
    var excluded: set<Key>
    var toolCalls: nat

    constructor (s: Settings, version: int, earlier: seq<Checkpoint>)
      ensures Now() == InitialProgress(s)
      ensures checkpointVersion == version && checkpoints == earlier && output == NoOutput
    {
      usage, cost, output, checkpointVersion, checkpoints := s.usage, s.cost, NoOutput, version, earlier;
      context, status, outputs, metrics := s.input, map[], map[], map[];
      selected, excluded, toolCalls := map[], {}, 0;
    }

    function Now(): Progress
      reads this
    {
      Progress(context, status, outputs, metrics, usage, cost, selected, excluded, toolCalls)
    }

    method Succeed(k: Key, value: Json)
      modifies `outputs, `context, `status
      ensures Now() == Publish(old(Now()), k, value)
    {
      outputs := outputs[k := value];
      context := context[k := value];
      status := status[k := Succeeded];
    }

    /** Runs the node and says how the execution ends, if it does. */
    method RunNodeNow(env: Environment, nodes: seq<Node>, dependants: map<Key, set<Key>>,
          i: nat) returns (ending: Option<Ending>)
      requires WellFormed(nodes) && i < |nodes| && Runnable(nodes[i])
      requires dependants.Keys == Keys(nodes) && ChildEdges(dependants) == DependencyEdges(nodes)
      modifies `usage, `cost, `context, `status, `outputs, `metrics, `selected, `excluded, `toolCalls
      ensures var r := RunNode(env, WorkflowRouting(nodes), i, nodes[i], old(Now()));
              Now() == r.p && ending == EndingOf(r)
    {
      var n := nodes[i];
      var k := n.key.value;
      var asked := context;
      MarkTwice(status, k, Running, Succeeded);
      MarkTwice(status, k, Running, WaitingApproval);
      status := status[k := Running];
      if n.kind.Model? {
        var reply := env.model(i, asked);
        if reply.ModelRaises? {
          return Some(Failed(reply.code));
        }
        metrics := metrics[k := reply.metrics];
        usage := AddUsage(usage, reply.metrics.usage);
        cost := cost + reply.metrics.cost;
        Succeed(k, reply.output);
      } else if n.kind.Condition? {
        var check := env.matches(i, asked);
        if check.Raises? {
          return Some(Failed(check.code));
        }
        selected := selected[k := Selected(n, check.result)];
        Succeed(k, JObj(map["matched" := JBool(check.result)]));
        ExcludeBranch(nodes, dependants, Unselected(n, check.result));
      } else if n.kind.Tool? {
        toolCalls := toolCalls + 1;
        if toolCalls > MAX_TOOL_CALLS {
          return Some(BudgetExceeded("TOOL_CALL_LIMIT_EXCEEDED"));
        }
        var reply := env.tool(i, asked);
        if reply.ToolRaises? {
          return Some(Failed(reply.code));
        }
        if reply.AwaitsApproval? {
          status := status[k := WaitingApproval];
          return Some(Waiting);
        }
        Succeed(k, reply.output);
      } else {
        Succeed(k, JObj(map["status" := JStr("succeeded")]));
      }
      return None;
    }

    /** Adds the target not taken and all its transitive dependants to the excluded keys. */
    method ExcludeBranch(nodes: seq<Node>, dependants: map<Key, set<Key>>, target: Option<Key>)
      requires WellFormed(nodes)
      requires dependants.Keys == Keys(nodes) && ChildEdges(dependants) == DependencyEdges(nodes)
      modifies `excluded
      ensures excluded == old(excluded) + PrunedBy(nodes, target)
    {
      if target.Some? {
        var below := Descendants(nodes, dependants, target.value);
        DependencyEdgesByKey(nodes);
        forall x | StrictlyReaches(DependencyEdges(nodes), target.value, x) ensures x in Keys(nodes) {
          var y := StrictlyReachesLast(DependencyEdges(nodes), target.value, x);
        }
        assert below == Dependants(nodes, target.value);
        excluded := excluded + {target.value} + below;
      }
    }

    /** One turn of the loop. */
    method TakeTurn(env: Environment, s: Settings, nodes: seq<Node>, dependants: map<Key, set<Key>>,
          i: nat) returns (ending: Option<Ending>)
      requires WellFormed(nodes) && i < |nodes|
      requires dependants.Keys == Keys(nodes) && ChildEdges(dependants) == DependencyEdges(nodes)
      modifies `usage, `cost, `context, `status, `outputs, `metrics, `selected, `excluded, `toolCalls
      ensures var r := StepNode(env, s, WorkflowRouting(nodes), nodes, i, old(Now()));
              Now() == r.p && ending == EndingOf(r)
    {
      NodeIsRunnable(nodes, i);
      var k := nodes[i].key.value;
      if s.stopping {
        return Some(Stopped);
      }
      if env.softLimit(i) && nodes[i].kind.Tool? {
        return Some(BudgetExceeded("QUOTA_SOFT_LIMIT"));
      }
      if (s.maxTokens != 0 && usage.total >= s.maxTokens) || (s.maxCost != 0.0 && cost >= s.maxCost) {
        return Some(BudgetExceeded("BUDGET_EXCEEDED"));
      }
      if NotSelected(nodes, Now(), k) || k in excluded {
        status := status[k := Skipped];
        return None;
      }
      var check := env.whenHolds(i, context);
      if check.Raises? {
        return Some(Failed(check.code));
      }
      if !check.result {
        status := status[k := Skipped];
        return None;
      }
      ending := RunNodeNow(env, nodes, dependants, i);
    }

    /** Saves the state reached so far, so that the run can resume from it. */
    method AddCheckpoint()
      modifies `checkpoints, `checkpointVersion
      ensures checkpointVersion == old(checkpointVersion) + 1
      ensures checkpoints == old(checkpoints) + [Checkpoint(old(checkpointVersion) + 1, context, usage)]
    {
      checkpoints := checkpoints + [Checkpoint(checkpointVersion + 1, context, usage)];
      checkpointVersion := checkpointVersion + 1;
    }

    /** An error raised inside the workflow: the progress is kept in a checkpoint. */
    method Fail(code: string) returns (outcome: Outcome)
      modifies `checkpoints, `checkpointVersion, `output
      ensures outcome == Ended(Failed(code)) && output == ErrorOutput(code)
      ensures checkpointVersion == old(checkpointVersion) + 1
      ensures checkpoints == old(checkpoints) + [Checkpoint(old(checkpointVersion) + 1, context, usage)]
    {
      AddCheckpoint();
      output := ErrorOutput(code);
      return Ended(Failed(code));
    }

    /** Runs a workflow to its end. */
    method ExecuteWorkflow(env: Environment, s: Settings, workflow: seq<Node>, prepareError: Option<string>)
      returns (outcome: Outcome, ghost ordered: seq<Node>)
      requires Now() == InitialProgress(s)
      modifies this
      ensures IsOrderable(workflow) ==>
                && IsSchedule(workflow, ordered) && WellFormed(ordered)
                && (Now(), outcome) == ExecutionOf(env, s, ordered, prepareError)
      ensures !IsOrderable(workflow) ==> outcome.Ended? && outcome.ending.Failed? && Now() == InitialProgress(s)
      ensures WellFormed(workflow) && !IsOrderable(workflow) ==> outcome == Ended(Failed("INVALID_WORKFLOW_CYCLE"))
      ensures output == OutputOf(outcome, context, old(output))
      ensures var saves := Saves(outcome, IsTooLong(workflow));
              && checkpointVersion == old(checkpointVersion) + (if saves then 1 else 0)
              && checkpoints == old(checkpoints) +
                 if saves then [Checkpoint(old(checkpointVersion) + 1, context, usage)] else []
    {
      ordered := [];
      var r := Order(workflow);
      if r.Err? {
        outcome := Fail(r.error);
      } else {
        ordered := r.value;
        outcome := ExecuteOrdered(env, s, r.value, prepareError);
      }
    }

    static method Order(workflow: seq<Node>) returns (r: Result<seq<Node>, string>)
      ensures r.Ok? <==> IsOrderable(workflow)
      ensures r.Ok? ==> IsSchedule(workflow, r.value) && WellFormed(r.value) && |r.value| == |workflow|
      ensures WellFormed(workflow) && r.Err? ==> r.error == "INVALID_WORKFLOW_CYCLE"
    {
      r := OrderWorkflow(workflow);
      if r.Ok? { ScheduleIsWellFormed(workflow, r.value); }
    }

    /** The part of execute_workflow that comes after the order is known. */
    method ExecuteOrdered(env: Environment, s: Settings, nodes: seq<Node>,
          prepareError: Option<string>) returns (outcome: Outcome)
      requires Now() == InitialProgress(s) && WellFormed(nodes)
      modifies this
      ensures (Now(), outcome) == ExecutionOf(env, s, nodes, prepareError)
      ensures output == OutputOf(outcome, context, old(output))
      ensures var saves := Saves(outcome, |nodes| > MAX_WORKFLOW_NODES);
              && checkpointVersion == old(checkpointVersion) + (if saves then 1 else 0)
              && checkpoints == old(checkpoints) +
                 if saves then [Checkpoint(old(checkpointVersion) + 1, context, usage)] else []
    {
      if |nodes| > MAX_WORKFLOW_NODES {
        output := ErrorOutput("WORKFLOW_NODE_LIMIT_EXCEEDED");
        outcome := Ended(Failed("WORKFLOW_NODE_LIMIT_EXCEEDED"));
      } else if prepareError.Some? {
        outcome := Fail(prepareError.value);
      } else {
        var ending := RunNodes(env, s, nodes);
        outcome := Finish(ending);
      }
    }

    /** Gives every node its turn, in order, until one ends the execution. */
    method RunNodes(env: Environment, s: Settings, nodes: seq<Node>) returns (ending: Option<Ending>)
      requires Now() == InitialProgress(s) && WellFormed(nodes)
      modifies `usage, `cost, `context, `status, `outputs, `metrics, `selected, `excluded, `toolCalls
      ensures var r := Execute(env, s, WorkflowRouting(nodes), nodes, |nodes|);
              Now() == r.p && ending == EndingOf(r)
    {
      var dependants := DependantsMap(nodes);
      for i := 0 to |nodes|
        invariant Execute(env, s, WorkflowRouting(nodes), nodes, i) == Going(Now())
      {
        ending := TakeTurn(env, s, nodes, dependants, i);
        if ending.Some? {
          HaltIsFinal(env, s, WorkflowRouting(nodes), nodes, i + 1, |nodes|);
          return;
        }
      }
      return None;
    }

    /** What each ending leaves behind. */
    method Finish(ending: Option<Ending>) returns (outcome: Outcome)
      modifies `checkpoints, `checkpointVersion, `output
      ensures outcome == if ending.Some? then Ended(ending.value) else Completed
      ensures output == OutputOf(outcome, context, old(output))
      ensures var saves := Saves(outcome, false);
              && checkpointVersion == old(checkpointVersion) + (if saves then 1 else 0)
              && checkpoints == old(checkpoints) +
                 if saves then [Checkpoint(old(checkpointVersion) + 1, context, usage)] else []
    {
      match ending {
        case None =>
          AddCheckpoint();
          output := WorkflowOutput(context);
          outcome := Completed;
        case Some(Failed(code)) =>
          outcome := Fail(code);
        case Some(BudgetExceeded(code)) =>
          output := ErrorOutput(code);
          outcome := Ended(BudgetExceeded(code));
        case Some(Stopped) =>
          output := ErrorOutput("STOP_REQUESTED");
          outcome := Ended(Stopped);
        case Some(Waiting) =>
          outcome := Ended(Waiting);
      }
    }
  }

  function EndingOf(r: Step): Option<Ending> {
    if r.Halted? then Some(r.ending) else None
  }

  lemma MarkTwice(m: map<Key, NodeStatus>, k: Key, a: NodeStatus, b: NodeStatus)
    ensures m[k := a][k := b] == m[k := b]
  {
  }

  /** A schedule holds the same nodes, so it is well-formed, and is its own schedule. */
  lemma ScheduleIsWellFormed(workflow: seq<Node>, ordered: seq<Node>)
    requires WellFormed(workflow) && IsSchedule(workflow, ordered)
    ensures WellFormed(ordered) && IsSchedule(ordered, ordered) && |ordered| == |workflow|
    ensures SchedulingEdges(ordered) == SchedulingEdges(workflow)
  {
    SameNodesSameEdges(workflow, ordered);
    SameMembers(workflow, ordered);
    KeysOfDistinctNodes(workflow);
    CountedKeysAreUnique(ordered);
    forall i | 0 <= i < |ordered|
      ensures Complaint(ordered[i], Keys(ordered)).None?
    {
      assert ordered[i] in ordered;
      var j :| 0 <= j < |workflow| && workflow[j] == ordered[i];
    }
  }

  lemma SameMembers(a: seq<Node>, b: seq<Node>)
    requires multiset(a) == multiset(b)
    ensures |a| == |b| && Keys(a) == Keys(b)
    ensures forall n :: n in a <==> n in b
  {
    assert |a| == |multiset(a)| && |b| == |multiset(b)|;
    assert forall n :: n in a <==> n in multiset(a);
    assert forall n :: n in b <==> n in multiset(b);
  }
}
