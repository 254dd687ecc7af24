// Workflow nodes and the validation of their dependency graph (app/runtime.py).

module Workflow {
  import opened Base
  import opened Graph

  /** node.get("type"); anything but the seven known types, or a missing one, is Unknown. */
  datatype Kind = Start | Prepare | Model | Tool | Condition | Finalize | End | Unknown

  /** The part of a node object that validation and scheduling read. */
  datatype Node = Node(
    key: Option<Key>,           // node.get("key")
    kind: Kind,                 // node.get("type")
    fields: set<string>,        // the names the object carries
    trueNext: Option<Key>,      // "true_next", when it is a string
    falseNext: Option<Key>,     // "false_next", when it is a string
    dependsOn: seq<Key>)        // node.get("depends_on", [])

  datatype Verdict = Accepted | Rejected(code: string)

  const CONDITION_FIELDS := {"condition_type", "left", "operator", "right", "true_next", "false_next"}

  /** The keys carried by the nodes. */
  function Keys(nodes: seq<Node>): set<Key> {
    set n | n in nodes && n.key.Some? :: n.key.value
  }

  /** Every node has a key and no two nodes share one. */
  ghost predicate UniqueKeys(nodes: seq<Node>) {
    && (forall i :: 0 <= i < |nodes| ==> nodes[i].key.Some?)
    && (forall i, j :: 0 <= i < j < |nodes| ==> nodes[i].key != nodes[j].key)
  }

  predicate IsTarget(target: Option<Key>, keys: set<Key>) {
    target.Some? && target.value in keys
  }

  /** The first complaint validation has about one node, if any. */
  function Complaint(n: Node, keys: set<Key>): Option<string> {
    if n.kind.Unknown? then Some("INVALID_WORKFLOW_NODE")
    else if n.kind.Condition? && !(CONDITION_FIELDS <= n.fields) then Some("INVALID_WORKFLOW_CONDITION")
    else if n.kind.Condition? && !(IsTarget(n.trueNext, keys) && IsTarget(n.falseNext, keys)) then
      Some("INVALID_WORKFLOW_CONDITION")
    else if exists d :: d in n.dependsOn && d !in keys then Some("INVALID_WORKFLOW_DEPENDENCY")
    else None
  }

  ghost predicate WellFormed(nodes: seq<Node>) {
    && UniqueKeys(nodes)
    && forall i :: 0 <= i < |nodes| ==> Complaint(nodes[i], Keys(nodes)).None?
  }

  /** The edges drawn by depends_on. */
  ghost function DependencyEdges(nodes: seq<Node>): Edges {
    set n, d | n in nodes && n.key.Some? && d in n.dependsOn :: (d, n.key.value)
  }

  /** n runs only after the condition c, because c routes to it. */
  predicate RoutesTo(c: Node, k: Key) {
    c.kind.Condition? && (c.trueNext == Some(k) || c.falseNext == Some(k))
  }

  /** depends_on edges plus an edge from each condition to each of its two targets. */
  ghost function SchedulingEdges(nodes: seq<Node>): Edges {
    DependencyEdges(nodes)
    + (set c, n | c in nodes && n in nodes && c.key.Some? && n.key.Some? && RoutesTo(c, n.key.value)
         :: (c.key.value, n.key.value))
  }

  /** order_workflow accepts the nodes. */
  ghost predicate IsOrderable(nodes: seq<Node>) {
    WellFormed(nodes) && Acyclic(SchedulingEdges(nodes))
  }

  // ----- What is checked, field by field -----

  /** k is the key of one of the nodes. */
  ghost predicate IsKeyOf(nodes: seq<Node>, k: Option<Key>) {
    k.Some? && exists n :: n in nodes && n.key == k
  }

  /** A list is well-formed if and only if every node has a key of its own and a known type, a condition
      has its six fields and leads to two nodes of the list, and every dependency is one too. */
  lemma WellFormedFieldByField(nodes: seq<Node>)
    ensures WellFormed(nodes) <==>
            && (forall i :: 0 <= i < |nodes| ==> nodes[i].key.Some?)
            && (forall i, j :: 0 <= i < j < |nodes| ==> nodes[i].key != nodes[j].key)
            && forall i :: 0 <= i < |nodes| ==>
              && nodes[i].kind != Unknown
              && (nodes[i].kind == Condition ==>
                    && {"condition_type", "left", "operator", "right", "true_next", "false_next"} <= nodes[i].fields
                    && IsKeyOf(nodes, nodes[i].trueNext) && IsKeyOf(nodes, nodes[i].falseNext))
              && forall d :: d in nodes[i].dependsOn ==> IsKeyOf(nodes, Some(d))
  {
    forall k | k in Keys(nodes) ensures IsKeyOf(nodes, Some(k)) {}
    forall i | 0 <= i < |nodes| ensures Complaint(nodes[i], Keys(nodes)).None? <==> PassesChecks(nodes, nodes[i]) {
      ComplaintFieldByField(nodes, nodes[i]);
    }
  }

  ghost predicate PassesChecks(nodes: seq<Node>, n: Node) {
    && n.kind != Unknown
    && (n.kind == Condition ==>
          && {"condition_type", "left", "operator", "right", "true_next", "false_next"} <= n.fields
          && IsKeyOf(nodes, n.trueNext) && IsKeyOf(nodes, n.falseNext))
    && forall d :: d in n.dependsOn ==> IsKeyOf(nodes, Some(d))
  }

  /** The code that a node is refused with: its type is looked at first, then its branches, then its
      dependencies. */
  lemma ComplaintFieldByField(nodes: seq<Node>, n: Node)
    ensures var c := Complaint(n, Keys(nodes));
            && (c.None? <==> PassesChecks(nodes, n))
            && (c == Some("INVALID_WORKFLOW_NODE") <==> n.kind == Unknown)
            && (c == Some("INVALID_WORKFLOW_CONDITION") <==>
                n.kind == Condition
                && !({"condition_type", "left", "operator", "right", "true_next", "false_next"} <= n.fields
                     && IsKeyOf(nodes, n.trueNext) && IsKeyOf(nodes, n.falseNext)))
            && (c.Some? ==> c.value in {"INVALID_WORKFLOW_NODE", "INVALID_WORKFLOW_CONDITION",
                                        "INVALID_WORKFLOW_DEPENDENCY"})
  {
    forall k ensures k in Keys(nodes) <==> IsKeyOf(nodes, Some(k)) {}
  }

  /** An edge leads from what a node depends on, or from a condition that names it as a target. */
  lemma SchedulingEdgesNodeByNode(nodes: seq<Node>, a: Key, b: Key)
    ensures (a, b) in SchedulingEdges(nodes) <==>
            exists n :: n in nodes && n.key == Some(b) &&
                        (a in n.dependsOn ||
                         exists c :: c in nodes && c.key == Some(a) && c.kind == Condition
                                     && (c.trueNext == Some(b) || c.falseNext == Some(b)))
  {
  }

  lemma KeysOfDistinctNodes(nodes: seq<Node>)
    requires UniqueKeys(nodes)
    ensures |Keys(nodes)| == |nodes|
  {
    var ks := seq(|nodes|, i requires 0 <= i < |nodes| => nodes[i].key.value);
    assert Elements(ks) == Keys(nodes) by {
      forall k | k in Keys(nodes) ensures k in Elements(ks) {
        var i :| 0 <= i < |nodes| && nodes[i].key == Some(k);
        assert ks[i] == k;
      }
    }
    DistinctCardinality(ks);
  }

  /** The depends_on list of each key. */
  ghost function DepsByKey(nodes: seq<Node>): (m: map<Key, seq<Key>>)
    requires UniqueKeys(nodes)
    ensures m.Keys == Keys(nodes)
    ensures forall i :: 0 <= i < |nodes| ==> m[nodes[i].key.value] == nodes[i].dependsOn
  {
    map k | k in Keys(nodes) :: (var i :| 0 <= i < |nodes| && nodes[i].key == Some(k); nodes[i].dependsOn)
  }

  // ----- Counting the dependencies that are not done yet -----

  /** The number of entries of ds, repeats included, that are not in done. */
  ghost function Pending(ds: seq<Key>, done: set<Key>): nat {
    if ds == [] then 0
    else (if ds[0] in done then 0 else 1) + Pending(ds[1..], done)
  }

  lemma {:induction false} PendingNothingDone(ds: seq<Key>)
    ensures Pending(ds, {}) == |ds|
  {
    if ds != [] { PendingNothingDone(ds[1..]); }
  }

  lemma {:induction false} PendingAfter(ds: seq<Key>, done: set<Key>, k: Key)
    requires k !in done
    ensures Pending(ds, done) == Pending(ds, done + {k}) + multiset(ds)[k]
  {
    if ds != [] {
      PendingAfter(ds[1..], done, k);
      assert ds == [ds[0]] + ds[1..];
    }
  }

  lemma {:induction false} PendingZero(ds: seq<Key>, done: set<Key>)
    ensures Pending(ds, done) == 0 <==> forall d :: d in ds ==> d in done
  {
    if ds != [] {
      PendingZero(ds[1..], done);
      assert ds == [ds[0]] + ds[1..];
      assert ds[0] in ds;
    }
  }

  // ----- validate_workflow -----

  /** Enters the dependencies of one key into both tables. */
  method AddDependencies(k: Key, ds: seq<Key>, indegree: map<Key, nat>, children: map<Key, seq<Key>>)
    returns (indegree': map<Key, nat>, children': map<Key, seq<Key>>)
    requires k in indegree && forall d :: d in ds ==> d in children
    ensures indegree' == indegree[k := indegree[k] + |ds|]
    ensures children'.Keys == children.Keys
    ensures forall d, x :: d in children ==>
              multiset(children'[d])[x] == multiset(children[d])[x] + if x == k then multiset(ds)[d] else 0
  {
    indegree', children' := indegree, children;
    for j := 0 to |ds|
      invariant k in indegree' && indegree' == indegree[k := indegree[k] + j]
      invariant children'.Keys == children.Keys
      invariant forall d, x :: d in children ==>
                  multiset(children'[d])[x] == multiset(children[d])[x] + if x == k then multiset(ds[..j])[d] else 0
    {
      indegree' := indegree'[k := indegree'[k] + 1];
      children' := children'[ds[j] := children'[ds[j]] + [k]];
      assert ds[..j + 1] == ds[..j] + [ds[j]];
    }
    assert ds[..|ds|] == ds;
  }

  /** The in-degree table counts exactly the dependencies of the entered keys. */
  ghost predicate DegreeTable(deps: map<Key, seq<Key>>, entered: set<Key>, indegree: map<Key, nat>) {
    && entered <= deps.Keys == indegree.Keys
    && (forall k :: k in deps ==> indegree[k] == if k in entered then |deps[k]| else 0)
  }

  /** The child lists hold exactly the dependants of each key among the entered keys. */
  ghost predicate ChildTable(deps: map<Key, seq<Key>>, entered: set<Key>, children: map<Key, seq<Key>>) {
    && entered <= deps.Keys == children.Keys
    && (forall d, k {:trigger multiset(children[d])[k]} :: d in deps ==>
          multiset(children[d])[k] == if k in entered then multiset(deps[k])[d] else 0)
  }

  /** The in-degree table and the reverse adjacency lists of the dependency graph. */
  method BuildTables(nodes: seq<Node>) returns (indegree: map<Key, nat>, children: map<Key, seq<Key>>)
    requires UniqueKeys(nodes)
    requires forall i :: 0 <= i < |nodes| ==> Elements(nodes[i].dependsOn) <= Keys(nodes)
    ensures DegreeTable(DepsByKey(nodes), Keys(nodes), indegree)
    ensures ChildTable(DepsByKey(nodes), Keys(nodes), children)
  {
    ghost var deps := DepsByKey(nodes);
    var keys := Keys(nodes);
    indegree, children := map k | k in keys :: 0, map k | k in keys :: [];
    ghost var entered: set<Key> := {};
    for i := 0 to |nodes|
      invariant entered == Keys(nodes[..i])
      invariant DegreeTable(deps, entered, indegree) && ChildTable(deps, entered, children)
    {
      NodesOfPrefix(nodes, i);
      indegree, children := EnterNode(deps, entered, nodes[i], indegree, children);
      entered := entered + {nodes[i].key.value};
    }
    assert nodes[..|nodes|] == nodes;
  }

  method EnterNode(ghost deps: map<Key, seq<Key>>, ghost entered: set<Key>, n: Node,
                   indegree: map<Key, nat>, children: map<Key, seq<Key>>)
    returns (indegree': map<Key, nat>, children': map<Key, seq<Key>>)
    requires DegreeTable(deps, entered, indegree) && ChildTable(deps, entered, children)
    requires n.key.Some? && n.key.value in deps && n.key.value !in entered
    requires n.dependsOn == deps[n.key.value] && Elements(n.dependsOn) <= deps.Keys
    ensures DegreeTable(deps, entered + {n.key.value}, indegree')
              && ChildTable(deps, entered + {n.key.value}, children')
  {
    KnownDependencies(n.dependsOn, deps.Keys);
    indegree', children' := AddDependencies(n.key.value, n.dependsOn, indegree, children);
  }

  lemma KnownDependencies(ds: seq<Key>, keys: set<Key>)
    requires Elements(ds) <= keys
    ensures forall d :: d in ds ==> d in keys
  {
    forall d | d in ds ensures d in keys {
      assert d in Elements(ds);
    }
  }

  lemma NodesOfPrefix(nodes: seq<Node>, i: nat)
    requires UniqueKeys(nodes) && i < |nodes|
    ensures nodes[i].key.value in Keys(nodes) && nodes[i].key.value !in Keys(nodes[..i])
    ensures Keys(nodes[..i + 1]) == Keys(nodes[..i]) + {nodes[i].key.value}
    ensures Keys(nodes[..i]) <= Keys(nodes)
  {
    assert nodes[i] in nodes;
    assert nodes[..i + 1] == nodes[..i] + [nodes[i]];
  }

  /** The queue holds, once each, exactly the keys that count zero and are not done. */
  ghost predicate QueueHolds(keys: set<Key>, done: set<Key>, indegree: map<Key, nat>, queue: seq<Key>) {
    && done <= keys == indegree.Keys
    && NoDuplicates(queue) && Elements(queue) !! done && Elements(queue) <= keys
    && (forall k {:trigger indegree[k]} :: k in keys ==> (indegree[k] == 0 <==> k in done || k in queue))
  }

  /** Each in-degree counts the dependencies that are not done, and is ahead of that count by
      the number of times the key is still to be released. */
  ghost predicate DegreesAhead(deps: map<Key, seq<Key>>, done: set<Key>, indegree: map<Key, nat>, kids: seq<Key>) {
    && deps.Keys == indegree.Keys
    && (forall k {:trigger indegree[k]} :: k in deps ==> indegree[k] == Pending(deps[k], done) + multiset(kids)[k])
  }

  /** Counts down the in-degrees of the children of a key that has just been taken from the
      queue, and queues every child whose last dependency this was. */
  method Release(ghost deps: map<Key, seq<Key>>, ghost done: set<Key>, kids: seq<Key>,
                 indegree: map<Key, nat>, queue: seq<Key>)
    returns (indegree': map<Key, nat>, queue': seq<Key>)
    requires forall c :: c in kids ==> c in deps
    requires DegreesAhead(deps, done, indegree, kids)
    requires QueueHolds(deps.Keys, done, indegree, queue)
    ensures DegreesAhead(deps, done, indegree', [])
    ensures QueueHolds(deps.Keys, done, indegree', queue')
  {
    indegree', queue' := indegree, queue;
    for i := 0 to |kids|
      invariant DegreesAhead(deps, done, indegree', kids[i..])
      invariant QueueHolds(deps.Keys, done, indegree', queue')
    {
      assert kids[i..] == [kids[i]] + kids[i + 1..];
      DegreesReleased(deps, done, indegree', kids[i], kids[i + 1..]);
      queue' := QueueReleased(deps.Keys, done, indegree', queue', kids[i]);
      indegree' := indegree'[kids[i] := indegree'[kids[i]] - 1];
    }
    assert kids[|kids|..] == [];
  }

  lemma DegreesReleased(deps: map<Key, seq<Key>>, done: set<Key>, indegree: map<Key, nat>, child: Key, rest: seq<Key>)
    requires DegreesAhead(deps, done, indegree, [child] + rest) && child in deps
    ensures indegree[child] > 0 && DegreesAhead(deps, done, indegree[child := indegree[child] - 1], rest)
  {
    assert multiset([child] + rest) == multiset{child} + multiset(rest);
  }

  /** Queues a child when its in-degree drops to zero. */
  function QueueReleased(ghost keys: set<Key>, ghost done: set<Key>, indegree: map<Key, nat>, queue: seq<Key>,
        child: Key): (queue': seq<Key>)
    requires QueueHolds(keys, done, indegree, queue) && child in keys && indegree[child] > 0
    ensures QueueHolds(keys, done, indegree[child := indegree[child] - 1], queue')
  {
    assert child !in Elements(queue);
    if indegree[child] - 1 == 0 then queue + [child] else queue
  }

  /** Some dependency is not done. */
  ghost predicate Waits(ds: seq<Key>, done: set<Key>) {
    exists d :: d in ds && d !in done
  }

  ghost predicate RestWaits(deps: map<Key, seq<Key>>, done: set<Key>) {
    forall k {:trigger Waits(deps[k], done)} :: k in deps && k !in done ==> Waits(deps[k], done)
  }

  /** Each key occurs once and after all its dependencies. */
  ghost predicate InDependencyOrder(deps: map<Key, seq<Key>>, order: seq<Key>) {
    && NoDuplicates(order) && Elements(order) <= deps.Keys
    && forall i {:trigger order[i]} :: 0 <= i < |order| ==> !Waits(deps[order[i]], Elements(order[..i]))
  }

  /** What holds each time the queue is looked at. */
  ghost predicate Kahn(deps: map<Key, seq<Key>>, order: seq<Key>, indegree: map<Key, nat>, queue: seq<Key>) {
    && InDependencyOrder(deps, order)
    && DegreesAhead(deps, Elements(order), indegree, [])
    && QueueHolds(deps.Keys, Elements(order), indegree, queue)
  }

  /** Takes keys whose dependencies have all been taken until none is left, and counts them: all
      are taken exactly when nothing waits in a cycle. */
  method CountVisited(nodes: seq<Node>) returns (visited: nat)
    requires WellFormed(nodes)
    ensures visited <= |nodes|
    ensures visited == |nodes| <==> Acyclic(DependencyEdges(nodes))
  {
    WellFormedDependencies(nodes);
    var indegree, children := BuildTables(nodes);
    ghost var deps, order: seq<Key> := DepsByKey(nodes), [];
    var queue := ZeroDegreeKeys(nodes, indegree);
    visited := 0;
    KahnStart(deps, indegree, queue);
    while queue != []
      invariant Kahn(deps, order, indegree, queue)
      invariant visited == |order| <= |deps.Keys|
      decreases |deps.Keys| - visited
    {
      indegree, queue, order := TakeFirst(deps, order, indegree, children, queue);
      visited := visited + 1;
    }
    KahnEnd(deps, order, indegree);
    VisitedTells(nodes, order);
  }

  lemma VisitedTells(nodes: seq<Node>, order: seq<Key>)
    requires WellFormed(nodes) && InDependencyOrder(DepsByKey(nodes), order)
               && RestWaits(DepsByKey(nodes), Elements(order))
    ensures |order| <= |nodes| && (|order| == |nodes| <==> Acyclic(DependencyEdges(nodes)))
  {
    KeysOfDistinctNodes(nodes);
    DistinctCardinality(order);
    SubsetCardinality(Elements(order), Keys(nodes));
    if |order| == |nodes| {
      FullCardinality(Elements(order), Keys(nodes));
      VisitedAllIsAcyclic(nodes, order);
    } else {
      UnvisitedHasCycle(nodes, Elements(order));
    }
  }

  method TakeFirst(ghost deps: map<Key, seq<Key>>, ghost order: seq<Key>,
                   indegree: map<Key, nat>, children: map<Key, seq<Key>>, queue: seq<Key>)
    returns (indegree': map<Key, nat>, queue': seq<Key>, ghost order': seq<Key>)
    requires Kahn(deps, order, indegree, queue) && queue != []
    requires ChildTable(deps, deps.Keys, children)
    ensures Kahn(deps, order', indegree', queue')
    ensures order' == order + [queue[0]] && |order'| <= |deps.Keys|
  {
    order' := order + [queue[0]];
    assert Elements(order') == Elements(order) + {queue[0]};
    var rest := QueueTaken(deps.Keys, Elements(order), indegree, queue);
    OrderTaken(deps, order, indegree, queue[0]);
    DegreesTaken(deps, Elements(order), indegree, children, queue[0]);
    indegree', queue' := Release(deps, Elements(order'), children[queue[0]], indegree, rest);
  }

  lemma OrderTaken(deps: map<Key, seq<Key>>, order: seq<Key>, indegree: map<Key, nat>, key: Key)
    requires InDependencyOrder(deps, order) && DegreesAhead(deps, Elements(order), indegree, [])
    requires key in deps && key !in Elements(order) && indegree[key] == 0
    ensures InDependencyOrder(deps, order + [key]) && |order + [key]| <= |deps.Keys|
  {
    var order' := order + [key];
    PendingZero(deps[key], Elements(order));
    assert Elements(order') == Elements(order) + {key};
    forall i | 0 <= i < |order'|
      ensures !Waits(deps[order'[i]], Elements(order'[..i]))
    {
      if i < |order| {
        assert order'[i] == order[i] && order'[..i] == order[..i];
      } else {
        assert order'[..i] == order;
      }
    }
    DistinctCardinality(order');
    SubsetCardinality(Elements(order'), deps.Keys);
  }

  function QueueTaken(ghost keys: set<Key>, ghost done: set<Key>, ghost indegree: map<Key, nat>,
        queue: seq<Key>): (rest: seq<Key>)
    requires QueueHolds(keys, done, indegree, queue) && queue != []
    ensures QueueHolds(keys, done + {queue[0]}, indegree, rest)
    ensures queue[0] in keys && queue[0] !in done && indegree[queue[0]] == 0
  {
    assert queue[0] in Elements(queue);
    DropFirst(queue)
  }

  /** Once a key is done, every in-degree is ahead of its count by the edges that key releases. */
  lemma DegreesTaken(deps: map<Key, seq<Key>>, done: set<Key>, indegree: map<Key, nat>, children: map<Key, seq<Key>>,
        key: Key)
    requires DegreesAhead(deps, done, indegree, []) && ChildTable(deps, deps.Keys, children)
    requires key in deps && key !in done
    ensures DegreesAhead(deps, done + {key}, indegree, children[key])
    ensures forall c :: c in children[key] ==> c in deps
  {
    forall k | k in deps
      ensures indegree[k] == Pending(deps[k], done + {key}) + multiset(children[key])[k]
    {
      PendingAfter(deps[k], done, key);
    }
    forall c | c in children[key] ensures c in deps {
      assert multiset(children[key])[c] > 0;
    }
  }

  lemma KahnEnd(deps: map<Key, seq<Key>>, order: seq<Key>, indegree: map<Key, nat>)
    requires Kahn(deps, order, indegree, [])
    ensures RestWaits(deps, Elements(order))
  {
    forall k | k in deps && k !in Elements(order)
      ensures Waits(deps[k], Elements(order))
    {
      assert indegree[k] != 0;
      PendingZero(deps[k], Elements(order));
    }
  }

  lemma KahnStart(deps: map<Key, seq<Key>>, indegree: map<Key, nat>, queue: seq<Key>)
    requires deps.Keys == indegree.Keys && forall k :: k in deps ==> indegree[k] == |deps[k]|
    requires NoDuplicates(queue) && Elements(queue) <= deps.Keys
    requires forall k :: k in deps ==> (k in queue <==> indegree[k] == 0)
    ensures Kahn(deps, [], indegree, queue)
  {
    assert Elements<Key>([]) == {};
    forall k | k in deps ensures indegree[k] == Pending(deps[k], {}) {
      PendingNothingDone(deps[k]);
    }
  }

  function DropFirst(queue: seq<Key>): (rest: seq<Key>)
    requires queue != [] && NoDuplicates(queue)
    ensures NoDuplicates(rest) && Elements(rest) == Elements(queue) - {queue[0]}
    ensures forall k :: k in queue <==> k == queue[0] || k in rest
  {
    assert queue == [queue[0]] + queue[1..];
    queue[1..]
  }

  method ZeroDegreeKeys(nodes: seq<Node>, indegree: map<Key, nat>) returns (queue: seq<Key>)
    requires UniqueKeys(nodes) && indegree.Keys == Keys(nodes)
    ensures NoDuplicates(queue) && Elements(queue) <= Keys(nodes)
    ensures forall k :: k in Keys(nodes) ==> (k in queue <==> indegree[k] == 0)
  {
    queue := [];
    for i := 0 to |nodes|
      invariant NoDuplicates(queue) && Elements(queue) <= Keys(nodes[..i])
      invariant forall k :: k in Keys(nodes[..i]) ==> (k in queue <==> indegree[k] == 0)
    {
      NodesOfPrefix(nodes, i);
      if indegree[nodes[i].key.value] == 0 {
        assert nodes[i].key.value !in Elements(queue);
        queue := queue + [nodes[i].key.value];
      }
    }
    assert nodes[..|nodes|] == nodes;
  }

  /** The first check that fails before the graph is looked at. */
  method CheckNodes(nodes: seq<Node>) returns (v: Verdict)
    ensures v == Accepted <==> WellFormed(nodes)
    ensures !UniqueKeys(nodes) ==> v == Rejected("INVALID_WORKFLOW")
    ensures UniqueKeys(nodes) && !WellFormed(nodes) ==>
              exists i :: 0 <= i < |nodes| && Complaint(nodes[i], Keys(nodes)).Some?
                          && v == Rejected(Complaint(nodes[i], Keys(nodes)).value)
                          && forall j :: 0 <= j < i ==> Complaint(nodes[j], Keys(nodes)).None?
  {
    var keys := Keys(nodes);
    var missing := exists n :: n in nodes && n.key.None?;
    if missing || |keys| != |nodes| {
      if UniqueKeys(nodes) { KeysOfDistinctNodes(nodes); }
      return Rejected("INVALID_WORKFLOW");
    }
    CountedKeysAreUnique(nodes);
    for i := 0 to |nodes|
      invariant forall j :: 0 <= j < i ==> Complaint(nodes[j], keys).None?
    {
      var complaint := Complaint(nodes[i], keys);
      if complaint.Some? {
        return Rejected(complaint.value);
      }
    }
    return Accepted;
  }

  /** Raises nothing exactly when every node has its own key, every node passes its own checks
      and depends_on has no cycle; otherwise names the first failed check. */
  method ValidateWorkflow(nodes: seq<Node>) returns (v: Verdict)
    ensures v == Accepted <==> WellFormed(nodes) && Acyclic(DependencyEdges(nodes))
    ensures v == Rejected("INVALID_WORKFLOW_CYCLE") <==> WellFormed(nodes) && !Acyclic(DependencyEdges(nodes))
    ensures !UniqueKeys(nodes) ==> v == Rejected("INVALID_WORKFLOW")
    ensures UniqueKeys(nodes) && !WellFormed(nodes) ==>
              exists i :: 0 <= i < |nodes| && Complaint(nodes[i], Keys(nodes)).Some?
                          && v == Rejected(Complaint(nodes[i], Keys(nodes)).value)
                          && forall j :: 0 <= j < i ==> Complaint(nodes[j], Keys(nodes)).None?
  {
    v := CheckNodes(nodes);
    if v.Rejected? { return; }
    var visited := CountVisited(nodes);
    if visited != |nodes| {
      return Rejected("INVALID_WORKFLOW_CYCLE");
    }
  }

  lemma WellFormedDependencies(nodes: seq<Node>)
    requires WellFormed(nodes)
    ensures forall i :: 0 <= i < |nodes| ==> Elements(nodes[i].dependsOn) <= Keys(nodes)
  {
    forall i | 0 <= i < |nodes|
      ensures Elements(nodes[i].dependsOn) <= Keys(nodes)
    {
      assert Complaint(nodes[i], Keys(nodes)).None?;
    }
  }

  lemma VisitedAllIsAcyclic(nodes: seq<Node>, order: seq<Key>)
    requires WellFormed(nodes) && Elements(order) == Keys(nodes)
    requires InDependencyOrder(DepsByKey(nodes), order)
    ensures Acyclic(DependencyEdges(nodes))
  {
    DependencyEdgesByKey(nodes);
    OrderedIsAcyclic(DependencyEdges(nodes), DepsByKey(nodes), order);
  }

  lemma OrderedIsAcyclic(e: Edges, deps: map<Key, seq<Key>>, order: seq<Key>)
    requires Elements(order) == deps.Keys && InDependencyOrder(deps, order)
    requires forall d, k :: (d, k) in e ==> k in deps && d in deps[k]
    ensures Acyclic(e)
  {
    var rank: map<Key, int> := map k | k in deps.Keys :: (var i :| 0 <= i < |order| && order[i] == k; i);
    forall x, y | (x, y) in e
      ensures x in rank && y in rank && rank[x] < rank[y]
    {
      var i := rank[y];
      assert !Waits(deps[order[i]], Elements(order[..i]));
      assert x in Elements(order[..i]);
      var j :| 0 <= j < i && order[j] == x;
      assert x in Elements(order);
    }
    RankedIsAcyclic(e, rank);
  }

  lemma UnvisitedHasCycle(nodes: seq<Node>, visited: set<Key>)
    requires WellFormed(nodes) && visited <= Keys(nodes) && |visited| != |Keys(nodes)|
    requires RestWaits(DepsByKey(nodes), visited)
    ensures !Acyclic(DependencyEdges(nodes))
  {
    DependencyEdgesByKey(nodes);
    WaitersHaveCycle(DependencyEdges(nodes), DepsByKey(nodes), visited);
  }

  lemma WaitersHaveCycle(e: Edges, deps: map<Key, seq<Key>>, visited: set<Key>)
    requires visited <= deps.Keys && |visited| != |deps.Keys|
    requires forall d, k :: k in deps && d in deps[k] ==> (d, k) in e
    requires forall d, k :: (d, k) in e ==> d in deps
    requires RestWaits(deps, visited)
    ensures !Acyclic(e)
  {
    var stuck := deps.Keys - visited;
    assert stuck != {} by { assert deps.Keys == visited + stuck; }
    forall k | k in stuck
      ensures HasPredecessorIn(e, stuck, k)
    {
      assert Waits(deps[k], visited);
      var d :| d in deps[k] && d !in visited;
      assert (d, k) in e;
    }
    StuckSetHasCycle(e, stuck);
  }

  /** A key set as large as the list leaves no room for a repeated key. */
  lemma CountedKeysAreUnique(nodes: seq<Node>)
    requires forall n :: n in nodes ==> n.key.Some?
    requires |Keys(nodes)| == |nodes|
    ensures UniqueKeys(nodes)
  {
    forall i, j | 0 <= i < j < |nodes|
      ensures nodes[i].key != nodes[j].key
    {
      RepeatedKeyShrinksKeys(nodes, i, j);
    }
  }

  lemma RepeatedKeyShrinksKeys(nodes: seq<Node>, i: nat, j: nat)
    requires i < j < |nodes|
    ensures nodes[i].key == nodes[j].key ==> |Keys(nodes)| < |nodes|
  {
    if nodes[i].key == nodes[j].key {
      var rest := nodes[..j] + nodes[j + 1..];
      KeyCountAtMost(rest);
      forall k | k in Keys(nodes) ensures k in Keys(rest) {
        var x :| 0 <= x < |nodes| && nodes[x].key == Some(k);
        var y := if x < j then x else if x == j then i else x - 1;
        assert rest[y].key == Some(k);
      }
      SubsetCardinality(Keys(nodes), Keys(rest));
    }
  }

  lemma {:induction false} KeyCountAtMost(nodes: seq<Node>)
    ensures |Keys(nodes)| <= |nodes|
  {
    if nodes == [] {
      assert Keys(nodes) == {};
    } else {
      KeyCountAtMost(nodes[1..]);
      var head := if nodes[0].key.Some? then {nodes[0].key.value} else {};
      assert nodes == [nodes[0]] + nodes[1..];
      assert Keys(nodes) == head + Keys(nodes[1..]);
    }
  }

  lemma DependencyEdgesByKey(nodes: seq<Node>)
    requires WellFormed(nodes)
    ensures forall d, k :: (d, k) in DependencyEdges(nodes) <==> k in Keys(nodes) && d in DepsByKey(nodes)[k]
    ensures forall d, k :: (d, k) in DependencyEdges(nodes) ==> d in Keys(nodes)
  {
    forall d, k | (d, k) in DependencyEdges(nodes)
      ensures k in Keys(nodes) && d in DepsByKey(nodes)[k] && d in Keys(nodes)
    {
      var i :| 0 <= i < |nodes| && nodes[i].key == Some(k) && d in nodes[i].dependsOn;
      assert Complaint(nodes[i], Keys(nodes)).None?;
    }
    forall d, k | k in Keys(nodes) && d in DepsByKey(nodes)[k]
      ensures (d, k) in DependencyEdges(nodes)
    {
      var i :| 0 <= i < |nodes| && nodes[i].key == Some(k);
      assert nodes[i] in nodes;
    }
  }
}
