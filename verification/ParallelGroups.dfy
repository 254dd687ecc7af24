// Which nodes are computed ahead in parallel (_prepare_parallel_results in app/worker.py).

module ParallelGroups {
  import opened Base
  import opened Graph
  import opened Workflow
  import opened WorkflowOrder

  /** max of the depths of the dependencies; one without a depth counts as 0. */
  function MaxDepth(depths: map<Key, nat>, deps: seq<Key>): nat {
    if deps == [] then 0
    else Max(if deps[0] in depths then depths[deps[0]] else 0, MaxDepth(depths, deps[1..]))
  }

  lemma {:induction false} MaxDepthIs(depths: map<Key, nat>, deps: seq<Key>)
    ensures forall d :: d in deps && d in depths ==> depths[d] <= MaxDepth(depths, deps)
    ensures MaxDepth(depths, deps) == 0 || exists d :: d in deps && d in depths && depths[d] == MaxDepth(depths, deps)
  {
    if deps != [] { MaxDepthIs(depths, deps[1..]); }
  }

  /** Depths are one more than the layers of a layering. */
  ghost function Layers(depths: map<Key, nat>): map<Key, nat> {
    map k | k in depths :: if depths[k] > 0 then depths[k] - 1 else 0
  }

  ghost predicate AreDepths(e: Edges, depths: map<Key, nat>) {
    (forall k :: k in depths ==> depths[k] >= 1) && IsLayering(e, Layers(depths))
  }

  /** A key that enters the layers above all its predecessors, and has no successor there yet. */
  lemma OneMoreLayer(e: Edges, layer: map<Key, nat>, k: Key, n: nat)
    requires IsLayering(e, layer) && k !in layer
    requires forall x :: (x, k) in e ==> x in layer && layer[x] < n
    requires n > 0 ==> exists x :: x in layer && (x, k) in e && layer[x] + 1 == n
    requires forall y :: (k, y) in e ==> y !in layer && y != k
    ensures IsLayering(e, layer[k := n])
  {
    var later := layer[k := n];
    forall y {:trigger EnteredFromBelow(e, later, y)} | y in later && later[y] > 0
      ensures EnteredFromBelow(e, later, y) {
      if y == k {
        var x :| x in layer && (x, k) in e && layer[x] + 1 == n;
        assert later[x] + 1 == later[y];
      } else {
        assert EnteredFromBelow(e, layer, y);
        var x :| x in layer && (x, y) in e && layer[x] + 1 == layer[y];
        assert later[x] + 1 == later[y];
      }
    }
  }

  /** k is new, its predecessors are deps, all of them known, and nothing known follows it. */
  ghost predicate ComesNext(e: Edges, known: set<Key>, k: Key, deps: seq<Key>) {
    && k !in known
    && (forall d :: (d, k) in e <==> d in deps)
    && (forall d :: d in deps ==> d in known)
    && forall y :: (k, y) in e ==> y !in known && y != k
  }

  lemma OneMoreDepth(e: Edges, depths: map<Key, nat>, k: Key, deps: seq<Key>)
    requires AreDepths(e, depths) && ComesNext(e, depths.Keys, k, deps)
    ensures AreDepths(e, depths[k := 1 + MaxDepth(depths, deps)])
  {
    var n, layer := MaxDepth(depths, deps), Layers(depths);
    MaxDepthIs(depths, deps);
    if n > 0 {
      var d :| d in deps && d in depths && depths[d] == n;
      assert d in layer && (d, k) in e && layer[d] + 1 == n;
    }
    OneMoreLayer(e, layer, k, n);
    assert Layers(depths[k := 1 + n]) == layer[k := n];
  }

  /** The first i nodes have their depths. */
  ghost predicate DepthsUpTo(ordered: seq<Node>, e: Edges, i: nat, depths: map<Key, nat>)
    requires i <= |ordered|
  {
    depths.Keys == Keys(ordered[..i]) && AreDepths(e, depths)
  }

  /** Node i comes after what it depends on and before what depends on it. */
  ghost predicate IsPlaced(ordered: seq<Node>, e: Edges, i: nat)
    requires i < |ordered|
  {
    ordered[i].key.Some? && ComesNext(e, Keys(ordered[..i]), ordered[i].key.value, ordered[i].dependsOn)
  }

  ghost predicate ArePlaced(ordered: seq<Node>, e: Edges) {
    forall i {:trigger ordered[i]} :: 0 <= i < |ordered| ==> IsPlaced(ordered, e, i)
  }

  lemma NextDepth(ordered: seq<Node>, e: Edges, i: nat, depths: map<Key, nat>)
    requires i < |ordered| && IsPlaced(ordered, e, i) && DepthsUpTo(ordered, e, i, depths)
    ensures DepthsUpTo(ordered, e, i + 1, depths[ordered[i].key.value := 1 + MaxDepth(depths, ordered[i].dependsOn)])
  {
    var k, n := ordered[i].key.value, 1 + MaxDepth(depths, ordered[i].dependsOn);
    assert AreDepths(e, depths[k := n]) by { OneMoreDepth(e, depths, k, ordered[i].dependsOn); }
    assert depths[k := n].Keys == Keys(ordered[..i + 1]) by { KeysGrow(ordered, i); }
  }

  lemma AllDepths(ordered: seq<Node>, depths: map<Key, nat>)
    requires DepthsUpTo(ordered, DependencyEdges(ordered), |ordered|, depths)
    ensures depths.Keys == Keys(ordered) && AreDepths(DependencyEdges(ordered), depths)
    ensures forall k :: k in depths ==> IsLevel(DependencyEdges(ordered), k, depths[k] - 1)
  {
    assert ordered[..|ordered|] == ordered;
    forall k | k in depths ensures IsLevel(DependencyEdges(ordered), k, depths[k] - 1) {
      LayerIsLevel(DependencyEdges(ordered), Layers(depths), k);
    }
  }

  /** The depth of every node is one more than its level in the graph of depends_on. */
  method Depths(ordered: seq<Node>) returns (depths: map<Key, nat>)
    requires WellFormed(ordered) && IsSchedule(ordered, ordered) && Acyclic(SchedulingEdges(ordered))
    ensures depths.Keys == Keys(ordered) && AreDepths(DependencyEdges(ordered), depths)
    ensures forall k :: k in depths ==> IsLevel(DependencyEdges(ordered), k, depths[k] - 1)
  {
    ScheduleIsPlaced(ordered);
    depths := DepthsOf(ordered, DependencyEdges(ordered));
    AllDepths(ordered, depths);
  }

  method DepthsOf(ordered: seq<Node>, ghost e: Edges) returns (depths: map<Key, nat>)
    requires ArePlaced(ordered, e)
    ensures DepthsUpTo(ordered, e, |ordered|, depths)
  {
    depths := map[];
    for i := 0 to |ordered|
      invariant DepthsUpTo(ordered, e, i, depths)
    {
      var n := ordered[i];
      assert IsPlaced(ordered, e, i);
      NextDepth(ordered, e, i, depths);
      depths := depths[n.key.value := 1 + MaxDepth(depths, n.dependsOn)];
    }
  }

  lemma ScheduleIsPlaced(ordered: seq<Node>)
    requires WellFormed(ordered) && IsSchedule(ordered, ordered) && Acyclic(SchedulingEdges(ordered))
    ensures ArePlaced(ordered, DependencyEdges(ordered))
  {
    forall i, j | 0 <= i < |ordered| && 0 <= j < |ordered| && DependsOn(ordered, j, i) ensures i < j {
      ScheduleFollowsEdges(ordered, ordered, i, j);
    }
    WellFormedDependencies(ordered);
    forall i | 0 <= i < |ordered| ensures IsPlaced(ordered, DependencyEdges(ordered), i) {
      DependenciesCameBefore(ordered, i);
    }
  }

  ghost predicate DependsOn(ordered: seq<Node>, j: nat, i: nat)
    requires i < |ordered| && j < |ordered|
  {
    && ordered[i].key.Some? && ordered[j].key.Some?
    && (ordered[i].key.value, ordered[j].key.value) in DependencyEdges(ordered)
  }

  ghost predicate FollowsDependencies(ordered: seq<Node>) {
    forall i, j :: 0 <= i < |ordered| && 0 <= j < |ordered| && DependsOn(ordered, j, i) ==> i < j
  }

  lemma KeysGrow(ordered: seq<Node>, i: nat)
    requires i < |ordered| && ordered[i].key.Some?
    ensures Keys(ordered[..i + 1]) == Keys(ordered[..i]) + {ordered[i].key.value}
  {
    assert ordered[..i + 1] == ordered[..i] + [ordered[i]];
  }

  /** In the order, a node comes after what it depends on and before what depends on it. */
  lemma DependenciesCameBefore(ordered: seq<Node>, i: nat)
    requires UniqueKeys(ordered) && FollowsDependencies(ordered) && i < |ordered|
    requires Elements(ordered[i].dependsOn) <= Keys(ordered)
    ensures IsPlaced(ordered, DependencyEdges(ordered), i)
  {
    var k := ordered[i].key.value;
    forall d ensures (d, k) in DependencyEdges(ordered) <==> d in ordered[i].dependsOn { EdgeInto(ordered, i, d); }
    forall d | d in ordered[i].dependsOn ensures d in Keys(ordered[..i]) { DependencyCameBefore(ordered, i, d); }
    forall y | (k, y) in DependencyEdges(ordered) ensures y !in Keys(ordered[..i]) && y != k {
      DependantComesLater(ordered, i, y);
    }
    LaterKey(ordered, i, i);
  }

  lemma DependencyCameBefore(ordered: seq<Node>, i: nat, d: Key)
    requires UniqueKeys(ordered) && FollowsDependencies(ordered) && i < |ordered|
    requires d in ordered[i].dependsOn && d in Keys(ordered)
    ensures d in Keys(ordered[..i])
  {
    var j :| 0 <= j < |ordered| && ordered[j].key == Some(d);
    EdgeInto(ordered, i, d);
    assert DependsOn(ordered, i, j);
    assert ordered[j] in ordered[..i];
  }

  lemma DependantComesLater(ordered: seq<Node>, i: nat, y: Key)
    requires UniqueKeys(ordered) && FollowsDependencies(ordered) && i < |ordered|
    requires (ordered[i].key.value, y) in DependencyEdges(ordered)
    ensures y !in Keys(ordered[..i]) && y != ordered[i].key.value
  {
    var j :| 0 <= j < |ordered| && ordered[j].key == Some(y);
    assert DependsOn(ordered, j, i);
    LaterKey(ordered, i, j);
  }

  lemma LaterKey(ordered: seq<Node>, i: nat, j: nat)
    requires UniqueKeys(ordered) && i <= j < |ordered|
    ensures ordered[j].key.value !in Keys(ordered[..i])
  {
    forall n | n in ordered[..i] ensures n.key != ordered[j].key {
      var m :| 0 <= m < i && ordered[m] == n;
    }
  }

  lemma EdgeInto(ordered: seq<Node>, i: nat, d: Key)
    requires UniqueKeys(ordered) && i < |ordered|
    ensures (d, ordered[i].key.value) in DependencyEdges(ordered) <==> d in ordered[i].dependsOn
  {
    if (d, ordered[i].key.value) in DependencyEdges(ordered) {
      var n :| n in ordered && n.key == ordered[i].key && d in n.dependsOn;
      var j :| 0 <= j < |ordered| && ordered[j] == n;
    }
    assert ordered[i] in ordered;
  }

  // ----- Groups -----

  /** A model, prepare or finalize node that no condition routes to. */
  predicate IsEligible(ordered: seq<Node>, n: Node) {
    (n.kind.Model? || n.kind.Prepare? || n.kind.Finalize?) && n.key.Some?
    && !exists i :: 0 <= i < |ordered| && RoutesTo(ordered[i], n.key.value)
  }

  /** The eligible nodes of a depth, in order. */
  function GroupAt(ordered: seq<Node>, nodes: seq<Node>, depths: map<Key, nat>, d: nat): seq<Node> {
    if nodes == [] then []
    else
      var last := nodes[|nodes| - 1];
      GroupAt(ordered, nodes[..|nodes| - 1], depths, d)
      + if IsEligible(ordered, last) && last.key.value in depths && depths[last.key.value] == d then [last] else []
  }

  method Groups(ordered: seq<Node>, depths: map<Key, nat>) returns (groups: map<nat, seq<Node>>)
    requires depths.Keys == Keys(ordered)
    ensures forall d: nat {:trigger GroupAt(ordered, ordered, depths, d)} ::
              (if d in groups then groups[d] else []) == GroupAt(ordered, ordered, depths, d)
  {
    groups := map[];
    for i := 0 to |ordered|
      invariant forall d: nat {:trigger GroupAt(ordered, ordered[..i], depths, d)} ::
                  (if d in groups then groups[d] else []) == GroupAt(ordered, ordered[..i], depths, d)
    {
      var n := ordered[i];
      assert ordered[..i + 1][..i] == ordered[..i];
      if IsEligible(ordered, n) {
        var d := depths[n.key.value];
        groups := groups[d := (if d in groups then groups[d] else []) + [n]];
      }
    }
    assert ordered[..|ordered|] == ordered;
  }

  lemma {:induction false} GroupMembers(ordered: seq<Node>, nodes: seq<Node>, depths: map<Key, nat>, d: nat, n: Node)
    ensures n in GroupAt(ordered, nodes, depths, d) <==>
              n in nodes && IsEligible(ordered, n) && n.key.value in depths && depths[n.key.value] == d
  {
    if nodes != [] {
      GroupMembers(ordered, nodes[..|nodes| - 1], depths, d, n);
      assert nodes == nodes[..|nodes| - 1] + [nodes[|nodes| - 1]];
    }
  }

  /** A group has the model, prepare and finalize nodes of its depth that are no target of a condition. */
  lemma GroupExactly(ordered: seq<Node>, depths: map<Key, nat>, d: nat, n: Node)
    ensures n in GroupAt(ordered, ordered, depths, d) <==>
              && n in ordered && n.key.Some? && n.key.value in depths && depths[n.key.value] == d
              && n.kind in {Model, Prepare, Finalize}
              && forall c :: c in ordered && c.kind == Condition ==> c.trueNext != n.key && c.falseNext != n.key
  {
    GroupMembers(ordered, ordered, depths, d, n);
    if n.key.Some? && n in ordered && n.kind in {Model, Prepare, Finalize} && !IsEligible(ordered, n) {
      var i :| 0 <= i < |ordered| && RoutesTo(ordered[i], n.key.value);
      assert ordered[i] in ordered;
    }
  }

  /** Nodes that are computed together do not depend on each other through depends_on, directly or
      indirectly. */
  lemma GroupIsIndependent(ordered: seq<Node>, depths: map<Key, nat>, d: nat, a: Node, b: Node)
    requires AreDepths(DependencyEdges(ordered), depths)
    requires a in GroupAt(ordered, ordered, depths, d) && b in GroupAt(ordered, ordered, depths, d)
    ensures a.key.Some? && b.key.Some? && a in ordered && b in ordered
    ensures !StrictlyReaches(DependencyEdges(ordered), a.key.value, b.key.value)
  {
    GroupMembers(ordered, ordered, depths, d, a);
    GroupMembers(ordered, ordered, depths, d, b);
    if StrictlyReaches(DependencyEdges(ordered), a.key.value, b.key.value) {
      var p :| PathFromTo(DependencyEdges(ordered), p, a.key.value, b.key.value) && |p| >= 2;
      LayerBoundsPath(DependencyEdges(ordered), Layers(depths), p);
    }
  }

  /** The worker groups nodes only in workflows without conditions: there nothing orders two nodes
      of a group, hidden dependencies included. */
  lemma GroupIsUnordered(ordered: seq<Node>, depths: map<Key, nat>, d: nat, a: Node, b: Node)
    requires forall n :: n in ordered ==> !n.kind.Condition?
    requires AreDepths(DependencyEdges(ordered), depths)
    requires a in GroupAt(ordered, ordered, depths, d) && b in GroupAt(ordered, ordered, depths, d)
    ensures a.key.Some? && b.key.Some? && !StrictlyReaches(SchedulingEdges(ordered), a.key.value, b.key.value)
  {
    GroupIsIndependent(ordered, depths, d, a, b);
    assert SchedulingEdges(ordered) == DependencyEdges(ordered);
  }

  // Why conditions have to be absent: below, m and n are of one group, but n waits for t, t for the
  // condition c that routes to it, and c for m.

  function HiddenChain(s: Key, m: Key, c: Key, t: Key, n: Key): seq<Node> {
    [Node(Some(s), Start, {}, None, None, []),
     Node(Some(m), Model, {}, None, None, [s]),
     Node(Some(c), Condition, CONDITION_FIELDS, Some(t), Some(t), [m]),
     Node(Some(t), Tool, {}, None, None, []),
     Node(Some(n), Model, {}, None, None, [t])]
  }

  function ChainDepths(s: Key, m: Key, c: Key, t: Key, n: Key): map<Key, nat> {
    map[s := 1, m := 2, c := 3, t := 1, n := 2]
  }

  predicate AreDistinct(s: Key, m: Key, c: Key, t: Key, n: Key) {
    s != m && s != c && s != t && s != n && m != c && m != t && m != n && c != t && c != n && t != n
  }

  lemma ChainEdges(s: Key, m: Key, c: Key, t: Key, n: Key)
    ensures DependencyEdges(HiddenChain(s, m, c, t, n)) == {(s, m), (m, c), (t, n)}
    ensures (c, t) in SchedulingEdges(HiddenChain(s, m, c, t, n))
  {
    var nodes := HiddenChain(s, m, c, t, n);
    assert nodes[1] in nodes && nodes[2] in nodes && nodes[3] in nodes && nodes[4] in nodes;
    assert RoutesTo(nodes[2], t);
    assert s in nodes[1].dependsOn && m in nodes[2].dependsOn && t in nodes[4].dependsOn;
  }

  lemma ChainIsLayered(s: Key, m: Key, c: Key, t: Key, n: Key)
    requires AreDistinct(s, m, c, t, n)
    ensures AreDepths({(s, m), (m, c), (t, n)}, ChainDepths(s, m, c, t, n))
  {
    var e: Edges := {(s, m), (m, c), (t, n)};
    var layer: map<Key, nat> := map[s := 0, m := 1, c := 2, t := 0, n := 1];
    assert (s, m) in e && (m, c) in e && (t, n) in e;
    assert layer[s] + 1 == layer[m] && layer[m] + 1 == layer[c] && layer[t] + 1 == layer[n];
    assert EnteredFromBelow(e, layer, m) && EnteredFromBelow(e, layer, c) && EnteredFromBelow(e, layer, n);
    assert Layers(ChainDepths(s, m, c, t, n)) == layer;
  }

  lemma ChainIsGrouped(s: Key, m: Key, c: Key, t: Key, n: Key)
    requires AreDistinct(s, m, c, t, n)
    ensures var nodes, depths := HiddenChain(s, m, c, t, n), ChainDepths(s, m, c, t, n);
            nodes[1] in GroupAt(nodes, nodes, depths, 2) && nodes[4] in GroupAt(nodes, nodes, depths, 2)
  {
    var nodes, depths := HiddenChain(s, m, c, t, n), ChainDepths(s, m, c, t, n);
    forall i | 0 <= i < |nodes| ensures !RoutesTo(nodes[i], m) && !RoutesTo(nodes[i], n) {
      assert nodes[i].kind.Condition? ==> i == 2;
    }
    GroupMembers(nodes, nodes, depths, 2, nodes[1]);
    GroupMembers(nodes, nodes, depths, 2, nodes[4]);
  }

  lemma GroupedThroughCondition(s: Key, m: Key, c: Key, t: Key, n: Key)
    requires AreDistinct(s, m, c, t, n)
    ensures var nodes, depths := HiddenChain(s, m, c, t, n), ChainDepths(s, m, c, t, n);
            && AreDepths(DependencyEdges(nodes), depths)
            && nodes[1] in GroupAt(nodes, nodes, depths, 2) && nodes[4] in GroupAt(nodes, nodes, depths, 2)
            && StrictlyReaches(SchedulingEdges(nodes), m, n)
  {
    ChainEdges(s, m, c, t, n);
    ChainIsLayered(s, m, c, t, n);
    var nodes, depths := HiddenChain(s, m, c, t, n), ChainDepths(s, m, c, t, n);
    ChainIsGrouped(s, m, c, t, n);
    ChainReaches(SchedulingEdges(nodes), m, c, t, n);
  }

  lemma ChainReaches(e: Edges, m: Key, c: Key, t: Key, n: Key)
    requires (m, c) in e && (c, t) in e && (t, n) in e
    ensures StrictlyReaches(e, m, n)
  {
    ReachesSelf(e, m);
    ReachesStep(e, m, m, c);
    ReachesStep(e, m, c, t);
    ReachesStep(e, m, t, n);
  }
}
