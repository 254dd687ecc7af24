// The canonical execution order of a workflow (order_workflow in app/runtime.py).

module WorkflowOrder {
  import opened Base
  import opened Graph
  import opened Workflow

  // ----- What the order means -----

  /** a comes before b: it sits on a lower level of the scheduling graph, or on the same level
      with a smaller key. */
  ghost predicate ComesBefore(e: Edges, a: Key, b: Key) {
    exists m, n :: IsLevel(e, a, m) && IsLevel(e, b, n) && (m < n || (m == n && StrLess(a, b)))
  }

  ghost predicate NodeBefore(e: Edges, a: Node, b: Node) {
    a.key.Some? && b.key.Some? && ComesBefore(e, a.key.value, b.key.value)
  }

  /** r lists the nodes in canonical order. */
  ghost predicate IsSchedule(nodes: seq<Node>, r: seq<Node>) {
    && multiset(r) == multiset(nodes)
    && forall i, j :: 0 <= i < j < |r| ==> NodeBefore(SchedulingEdges(nodes), r[i], r[j])
  }

  lemma ComesBeforeAsymmetric(e: Edges, a: Key, b: Key)
    requires ComesBefore(e, a, b)
    ensures !ComesBefore(e, b, a)
  {
    if ComesBefore(e, b, a) {
      var m, n :| IsLevel(e, a, m) && IsLevel(e, b, n) && (m < n || (m == n && StrLess(a, b)));
      var p, q :| IsLevel(e, b, p) && IsLevel(e, a, q) && (p < q || (p == q && StrLess(b, a)));
      LevelUnique(e, a, m, q);
      LevelUnique(e, b, n, p);
      StrLessAsymmetric(a, b);
    }
  }

  lemma LevelClimbs(e: Edges, a: Key, b: Key, m: nat, n: nat)
    requires (a, b) in e && IsLevel(e, a, m) && IsLevel(e, b, n)
    ensures m < n
  {
    var p :| IsPath(e, p) && p[|p| - 1] == a && |p| == m + 1;
    var q := p + [b];
    forall i | 0 <= i < |q| - 1
      ensures (q[i], q[i + 1]) in e
    {
      if i < |p| - 1 { assert q[i] == p[i] && q[i + 1] == p[i + 1]; }
    }
    assert IsPath(e, q) && q[|q| - 1] == b;
  }

  /** Every node follows all its real and hidden dependencies. */
  lemma ScheduleFollowsEdges(nodes: seq<Node>, r: seq<Node>, i: nat, j: nat)
    requires IsSchedule(nodes, r) && i < |r| && j < |r|
    requires r[i].key.Some? && r[j].key.Some? && (r[i].key.value, r[j].key.value) in SchedulingEdges(nodes)
    requires Acyclic(SchedulingEdges(nodes))
    ensures i < j
  {
    var e := SchedulingEdges(nodes);
    var a, b := r[i].key.value, r[j].key.value;
    if i == j {
      ReachesSelf(e, a);
      ReachesStep(e, a, a, a);
    } else if j < i {
      assert NodeBefore(e, r[j], r[i]);
      var n, m :| IsLevel(e, b, n) && IsLevel(e, a, m) && (n < m || (n == m && StrLess(b, a)));
      LevelClimbs(e, a, b, m, n);
    }
  }

  /** In a schedule nodes on lower levels come first, and of two nodes on one level the one whose key is a
      proper prefix of the other, or has the smaller character where they first differ. */
  lemma ScheduleSortsLevels(nodes: seq<Node>, r: seq<Node>, i: nat, j: nat, m: nat, n: nat)
    requires IsSchedule(nodes, r) && i < |r| && j < |r| && i != j && r[i].key.Some? && r[j].key.Some?
    requires IsLevel(SchedulingEdges(nodes), r[i].key.value, m) && IsLevel(SchedulingEdges(nodes), r[j].key.value, n)
    ensures i < j <==> m < n || (m == n && FirstDiffersBelow(r[i].key.value, r[j].key.value))
  {
    if i < j {
      OrderOfTwo(nodes, r, i, j, m, n);
    } else {
      OrderOfTwo(nodes, r, j, i, n, m);
      StrLessAsymmetricUnlessEqual(r[j].key.value, r[i].key.value);
      StrLessIsCodePointOrder(r[i].key.value, r[j].key.value);
    }
  }

  lemma OrderOfTwo(nodes: seq<Node>, r: seq<Node>, i: nat, j: nat, m: nat, n: nat)
    requires IsSchedule(nodes, r) && i < j < |r| && r[i].key.Some? && r[j].key.Some?
    requires IsLevel(SchedulingEdges(nodes), r[i].key.value, m) && IsLevel(SchedulingEdges(nodes), r[j].key.value, n)
    ensures m < n || (m == n && StrLess(r[i].key.value, r[j].key.value))
    ensures StrLess(r[i].key.value, r[j].key.value) <==> FirstDiffersBelow(r[i].key.value, r[j].key.value)
  {
    var e, a, b := SchedulingEdges(nodes), r[i].key.value, r[j].key.value;
    assert NodeBefore(e, r[i], r[j]);
    var p, q :| IsLevel(e, a, p) && IsLevel(e, b, q) && (p < q || (p == q && StrLess(a, b)));
    LevelUnique(e, a, m, p);
    LevelUnique(e, b, n, q);
    StrLessIsCodePointOrder(a, b);
  }

  lemma StrLessAsymmetricUnlessEqual(a: Key, b: Key)
    ensures StrLess(a, b) ==> !StrLess(b, a)
  {
    if StrLess(a, b) { StrLessAsymmetric(a, b); }
  }

  lemma SameNodesSameEdges(nodes: seq<Node>, others: seq<Node>)
    requires multiset(nodes) == multiset(others)
    ensures SchedulingEdges(nodes) == SchedulingEdges(others)
    ensures DependencyEdges(nodes) == DependencyEdges(others)
  {
    assert forall n :: n in nodes <==> n in multiset(nodes);
    assert forall n :: n in others <==> n in multiset(others);
  }

  /** The schedule depends on which nodes there are, not on the order they are listed in. */
  lemma ScheduleIsCanonical(nodes: seq<Node>, others: seq<Node>, r: seq<Node>, t: seq<Node>)
    requires multiset(nodes) == multiset(others)
    requires IsSchedule(nodes, r) && IsSchedule(others, t)
    ensures r == t
  {
    SameNodesSameEdges(nodes, others);
    var e := SchedulingEdges(nodes);
    var lt := (a: Node, b: Node) => NodeBefore(e, a, b);
    forall a, b | lt(a, b)
      ensures !lt(b, a)
    {
      ComesBeforeAsymmetric(e, a.key.value, b.key.value);
    }
    assert Elements(r) == Elements(t) by {
      assert forall n :: n in r <==> n in multiset(r);
      assert forall n :: n in t <==> n in multiset(t);
    }
    SortedUnique(lt, r, t);
  }

  /** A graph on the same keys with the same scheduling edges is scheduled in the same key order. */
  lemma SameEdgesSameKeyOrder(nodes: seq<Node>, others: seq<Node>, r: seq<Node>, t: seq<Node>)
    requires SchedulingEdges(nodes) == SchedulingEdges(others) && Keys(nodes) == Keys(others)
    requires IsSchedule(nodes, r) && IsSchedule(others, t)
    requires (forall n :: n in r ==> n.key.Some?) && (forall n :: n in t ==> n.key.Some?)
    ensures KeySeq(r) == KeySeq(t)
  {
    var e := SchedulingEdges(nodes);
    var lt := (a: Key, b: Key) => ComesBefore(e, a, b);
    forall a, b | lt(a, b)
      ensures !lt(b, a)
    {
      ComesBeforeAsymmetric(e, a, b);
    }
    KeySeqElements(nodes, r);
    KeySeqElements(others, t);
    forall i, j | 0 <= i < j < |KeySeq(r)| ensures lt(KeySeq(r)[i], KeySeq(r)[j]) {
      assert NodeBefore(e, r[i], r[j]);
    }
    forall i, j | 0 <= i < j < |KeySeq(t)| ensures lt(KeySeq(t)[i], KeySeq(t)[j]) {
      assert NodeBefore(e, t[i], t[j]);
    }
    SortedUnique(lt, KeySeq(r), KeySeq(t));
  }

  lemma KeySeqElements(nodes: seq<Node>, r: seq<Node>)
    requires multiset(r) == multiset(nodes) && forall n :: n in r ==> n.key.Some?
    ensures Elements(KeySeq(r)) == Keys(nodes)
  {
    assert forall n :: n in r <==> n in multiset(r);
    assert forall n :: n in nodes <==> n in multiset(nodes);
    forall k | k in Keys(nodes)
      ensures k in Elements(KeySeq(r))
    {
      var n :| n in nodes && n.key == Some(k);
      assert n in multiset(r);
      var i :| 0 <= i < |r| && r[i] == n;
      assert KeySeq(r)[i] == k;
    }
  }

  // ----- Sorting one batch by key -----

  function KeySeq(nodes: seq<Node>): (ks: seq<Key>)
    requires forall n :: n in nodes ==> n.key.Some?
  {
    seq(|nodes|, i requires 0 <= i < |nodes| => nodes[i].key.value)
  }

  ghost predicate SortedByKey(nodes: seq<Node>) {
    && (forall i :: 0 <= i < |nodes| ==> nodes[i].key.Some?)
    && (forall i, j :: 0 <= i < j < |nodes| ==> StrLess(nodes[i].key.value, nodes[j].key.value))
  }

  function InsertByKey(n: Node, sorted: seq<Node>): (r: seq<Node>)
    requires SortedByKey(sorted) && n.key.Some?
    requires forall m :: m in sorted ==> m.key != n.key
    ensures multiset(r) == multiset(sorted) + multiset{n}
    ensures SortedByKey(r)
  {
    if sorted == [] || StrLess(n.key.value, sorted[0].key.value) then
      BeforeAll(n, sorted);
      [n] + sorted
    else
      assert sorted[0] in sorted;
      StrLessTotal(n.key.value, sorted[0].key.value);
      assert sorted == [sorted[0]] + sorted[1..];
      var rest := InsertByKey(n, sorted[1..]);
      SmallestFirst(sorted[0], rest, sorted[1..], n);
      [sorted[0]] + rest
  }

  lemma BeforeAll(n: Node, sorted: seq<Node>)
    requires SortedByKey(sorted) && n.key.Some?
    requires sorted != [] ==> StrLess(n.key.value, sorted[0].key.value)
    ensures SortedByKey([n] + sorted)
  {
    forall j | 0 <= j < |sorted|
      ensures StrLess(n.key.value, sorted[j].key.value)
    {
      if j > 0 { StrLessTransitive(n.key.value, sorted[0].key.value, sorted[j].key.value); }
    }
  }

  lemma SmallestFirst(first: Node, rest: seq<Node>, before: seq<Node>, n: Node)
    requires SortedByKey(rest) && SortedByKey([first] + before)
    requires multiset(rest) == multiset(before) + multiset{n}
    requires first.key.Some? && n.key.Some? && StrLess(first.key.value, n.key.value)
    ensures SortedByKey([first] + rest)
  {
    assert ([first] + before)[0] == first;
    forall j | 0 <= j < |rest|
      ensures StrLess(first.key.value, rest[j].key.value)
    {
      assert rest[j] in multiset(rest);
      if rest[j] != n {
        assert rest[j] in before;
        var x :| 0 <= x < |before| && before[x] == rest[j];
        assert ([first] + before)[x + 1] == rest[j] && ([first] + before)[0] == first;
      }
    }
  }

  /** sorted(ready, key=...): keys are unique, so the result does not depend on the input order. */
  function SortByKey(nodes: seq<Node>): (r: seq<Node>)
    requires UniqueKeys(nodes)
    ensures multiset(r) == multiset(nodes)
    ensures SortedByKey(r)
  {
    if nodes == [] then []
    else
      assert nodes == [nodes[0]] + nodes[1..];
      var rest := SortByKey(nodes[1..]);
      assert forall m :: m in rest ==> m in multiset(nodes[1..]);
      InsertByKey(nodes[0], rest)
  }

  // ----- order_workflow -----

  /** The keys that must be completed before n: its depends_on and the conditions routing to it. */
  function SchedulingDeps(nodes: seq<Node>, n: Node): set<Key>
    requires n.key.Some?
  {
    Elements(n.dependsOn)
    + (set c | c in nodes && c.key.Some? && RoutesTo(c, n.key.value) :: c.key.value)
  }

  lemma SchedulingDepsAreEdges(nodes: seq<Node>, n: Node)
    requires UniqueKeys(nodes) && n in nodes && n.key.Some?
    ensures forall d :: d in SchedulingDeps(nodes, n) <==> (d, n.key.value) in SchedulingEdges(nodes)
  {
    forall d | (d, n.key.value) in DependencyEdges(nodes)
      ensures d in n.dependsOn
    {
      var m :| m in nodes && m.key == n.key && d in m.dependsOn;
      assert m == n;
    }
  }

  /** The finished keys are layered, and listed in layer-and-key order. */
  ghost predicate Layered(e: Edges, layer: map<Key, nat>, depth: nat, done: seq<Key>) {
    && IsLayering(e, layer)
    && Elements(done) == layer.Keys
    && (forall k :: k in layer ==> layer[k] < depth)
    && (forall i, j :: 0 <= i < j < |done| ==> LayerOrder(layer, done[i], done[j]))
  }

  /** Every key still waiting depends on the newest layer or on an unfinished key. */
  ghost predicate AllLate(e: Edges, layer: map<Key, nat>, depth: nat, waiting: set<Key>) {
    && layer.Keys !! waiting
    && (forall k {:trigger IsLate(e, layer, depth, k)} :: k in waiting ==> IsLate(e, layer, depth, k))
  }

  ghost predicate LayerOrder(layer: map<Key, nat>, a: Key, b: Key) {
    a in layer && b in layer && (layer[a] < layer[b] || (layer[a] == layer[b] && StrLess(a, b)))
  }

  /** k could not have been finished a round earlier. */
  ghost predicate IsLate(e: Edges, layer: map<Key, nat>, depth: nat, k: Key) {
    depth > 0 ==> exists d :: (d, k) in e && (d !in layer || layer[d] == depth - 1)
  }

  /** All that k waits for is finished. */
  ghost predicate IsReady(e: Edges, layer: map<Key, nat>, k: Key) {
    forall d :: (d, k) in e ==> d in layer
  }

  ghost predicate StrictlySortedKeys(ks: seq<Key>) {
    forall i, j :: 0 <= i < j < |ks| ==> StrLess(ks[i], ks[j])
  }

  /** The layering after a round: the ready keys form the newest layer. */
  ghost function NewLayer(layer: map<Key, nat>, depth: nat, batch: seq<Key>): map<Key, nat> {
    layer + map k | k in Elements(batch) :: depth
  }

  lemma RoundLayers(e: Edges, layer: map<Key, nat>, depth: nat, waiting: set<Key>, batch: seq<Key>)
    requires IsLayering(e, layer) && AllLate(e, layer, depth, waiting) && Elements(batch) <= waiting
    requires forall k :: k in layer ==> layer[k] < depth
    requires forall k {:trigger IsReady(e, layer, k)} :: k in Elements(batch) ==> IsReady(e, layer, k)
    ensures IsLayering(e, NewLayer(layer, depth, batch))
  {
    var layer' := NewLayer(layer, depth, batch);
    forall y | y in layer' && layer'[y] > 0
      ensures EnteredFromBelow(e, layer', y)
    {
      if y in Elements(batch) {
        assert IsLate(e, layer, depth, y) && IsReady(e, layer, y);
        var d :| (d, y) in e && (d !in layer || layer[d] == depth - 1);
        assert d in layer && d !in Elements(batch);
      } else {
        assert EnteredFromBelow(e, layer, y);
        var x :| (x, y) in e && x in layer && layer[x] + 1 == layer[y];
        assert x !in Elements(batch);
      }
    }
    forall x, y | (x, y) in e && y in layer'
      ensures x in layer' && layer'[x] < layer'[y]
    {
      if y in Elements(batch) { assert IsReady(e, layer, y) && x in layer; }
      assert x in layer && x !in Elements(batch);
    }
  }

  lemma RoundOrder(layer: map<Key, nat>, depth: nat, done: seq<Key>, batch: seq<Key>)
    requires Elements(done) == layer.Keys && Elements(batch) !! layer.Keys
    requires forall k :: k in layer ==> layer[k] < depth
    requires forall i, j :: 0 <= i < j < |done| ==> LayerOrder(layer, done[i], done[j])
    requires StrictlySortedKeys(batch)
    ensures forall i, j :: 0 <= i < j < |done + batch| ==>
              LayerOrder(NewLayer(layer, depth, batch), (done + batch)[i], (done + batch)[j])
  {
    var all, layer' := done + batch, NewLayer(layer, depth, batch);
    forall i, j | 0 <= i < j < |all|
      ensures LayerOrder(layer', all[i], all[j])
    {
      if j < |done| {
        assert LayerOrder(layer, done[i], done[j]);
        assert done[i] in Elements(done) && done[j] in Elements(done);
      } else {
        assert all[j] in Elements(batch);
        if i < |done| {
          assert done[i] in Elements(done);
        } else {
          assert all[i] in Elements(batch) && StrLess(batch[i - |done|], batch[j - |done|]);
        }
      }
    }
  }

  /** Finishing ready keys in key order opens one more layer. */
  lemma NextLayered(e: Edges, layer: map<Key, nat>, depth: nat, done: seq<Key>, waiting: set<Key>, batch: seq<Key>)
    requires Layered(e, layer, depth, done) && AllLate(e, layer, depth, waiting)
    requires Elements(batch) <= waiting && StrictlySortedKeys(batch)
    requires forall k {:trigger IsReady(e, layer, k)} :: k in Elements(batch) ==> IsReady(e, layer, k)
    ensures Layered(e, NewLayer(layer, depth, batch), depth + 1, done + batch)
  {
    RoundLayers(e, layer, depth, waiting, batch);
    RoundOrder(layer, depth, done, batch);
    assert Elements(done + batch) == Elements(done) + Elements(batch);
  }

  /** Finishing all ready keys leaves every other key waiting on the new layer. */
  lemma NextLate(e: Edges, layer: map<Key, nat>, depth: nat, waiting: set<Key>, batch: seq<Key>)
    requires AllLate(e, layer, depth, waiting)
    requires forall k {:trigger IsReady(e, layer, k)} :: k in waiting - Elements(batch) ==> !IsReady(e, layer, k)
    ensures AllLate(e, NewLayer(layer, depth, batch), depth + 1, waiting - Elements(batch))
  {
    var layer' := NewLayer(layer, depth, batch);
    forall k | k in waiting - Elements(batch)
      ensures IsLate(e, layer', depth + 1, k)
    {
      assert !IsReady(e, layer, k);
      var d :| (d, k) in e && d !in layer;
      assert d !in layer' || layer'[d] == depth;
    }
  }

  /** If nothing is ready, the waiting keys hold a cycle. */
  lemma NothingReady(e: Edges, layer: map<Key, nat>, waiting: set<Key>)
    requires waiting != {} && forall k {:trigger IsReady(e, layer, k)} :: k in waiting ==> !IsReady(e, layer, k)
    requires forall x, y :: (x, y) in e ==> x in layer || x in waiting
    ensures !Acyclic(e)
  {
    forall k | k in waiting
      ensures HasPredecessorIn(e, waiting, k)
    {
      assert !IsReady(e, layer, k);
    }
    StuckSetHasCycle(e, waiting);
  }

  lemma LayeringIsAcyclic(e: Edges, layer: map<Key, nat>)
    requires IsLayering(e, layer) && forall x, y :: (x, y) in e ==> y in layer
    ensures Acyclic(e)
  {
    RankedIsAcyclic(e, map k | k in layer :: layer[k] as int);
  }

  lemma LayerOrderIsCanonical(e: Edges, layer: map<Key, nat>, a: Key, b: Key)
    requires IsLayering(e, layer) && LayerOrder(layer, a, b)
    ensures ComesBefore(e, a, b)
  {
    LayerIsLevel(e, layer, a);
    LayerIsLevel(e, layer, b);
  }

  /** The nodes that are not completed and whose scheduling dependencies all are. */
  method ReadyNodes(nodes: seq<Node>, remaining: seq<Node>, completed: set<Key>) returns (ready: seq<Node>)
    requires UniqueKeys(nodes) && UniqueKeys(remaining) && Elements(remaining) <= Elements(nodes)
    ensures UniqueKeys(ready) && Elements(ready) <= Elements(remaining)
    ensures forall n :: n in remaining ==> (n in ready <==> SchedulingDeps(nodes, n) <= completed)
  {
    ready := [];
    for i := 0 to |remaining|
      invariant UniqueKeys(ready) && Elements(ready) <= Elements(remaining[..i])
      invariant forall n :: n in remaining[..i] ==> (n in ready <==> SchedulingDeps(nodes, n) <= completed)
    {
      assert remaining[..i + 1] == remaining[..i] + [remaining[i]];
      NotBefore(remaining, i);
      forall j | 0 <= j < |ready| ensures ready[j].key != remaining[i].key {
        assert ready[j] in Elements(ready);
      }
      if SchedulingDeps(nodes, remaining[i]) <= completed {
        assert Elements(ready + [remaining[i]]) == Elements(ready) + {remaining[i]};
        ready := ready + [remaining[i]];
      }
    }
    assert remaining[..|remaining|] == remaining;
  }

  lemma NotBefore(nodes: seq<Node>, i: nat)
    requires UniqueKeys(nodes) && i < |nodes|
    ensures forall n :: n in nodes[..i] ==> n.key != nodes[i].key
  {
  }

  function IndexOf(nodes: seq<Node>, n: Node): (i: nat)
    requires n in nodes
    ensures i < |nodes| && nodes[i] == n
  {
    if nodes[0] == n then 0 else 1 + IndexOf(nodes[1..], n)
  }

  lemma RemoveAt(nodes: seq<Node>, i: nat)
    requires i < |nodes|
    ensures multiset(nodes[..i] + nodes[i + 1..]) + multiset{nodes[i]} == multiset(nodes)
  {
    assert nodes == nodes[..i] + ([nodes[i]] + nodes[i + 1..]);
  }

  /** remaining.pop(key) */
  function Without(nodes: seq<Node>, n: Node): (r: seq<Node>)
    requires UniqueKeys(nodes) && n in nodes
    ensures multiset(r) + multiset{n} == multiset(nodes)
    ensures UniqueKeys(r)
  {
    var i := IndexOf(nodes, n);
    RemoveAt(nodes, i);
    nodes[..i] + nodes[i + 1..]
  }

  /** Appends a sorted batch to the order and takes its nodes off the remaining ones. */
  method FinishBatch(batch: seq<Node>, ordered: seq<Node>, completed: set<Key>, remaining: seq<Node>)
    returns (ordered': seq<Node>, completed': set<Key>, remaining': seq<Node>)
    requires UniqueKeys(remaining) && multiset(batch) <= multiset(remaining)
    ensures ordered' == ordered + batch
    ensures completed' == completed + Keys(batch)
    ensures UniqueKeys(remaining') && multiset(remaining') + multiset(batch) == multiset(remaining)
  {
    ordered', completed', remaining' := ordered, completed, remaining;
    for i := 0 to |batch|
      invariant ordered' == ordered + batch[..i]
      invariant completed' == completed + Keys(batch[..i])
      invariant UniqueKeys(remaining') && multiset(remaining') + multiset(batch[..i]) == multiset(remaining)
    {
      assert batch[..i + 1] == batch[..i] + [batch[i]];
      RestHolds(batch, i, remaining', remaining);
      ordered' := ordered' + [batch[i]];
      completed' := completed' + {batch[i].key.value};
      remaining' := Without(remaining', batch[i]);
    }
    assert batch[..|batch|] == batch;
  }

  lemma RestHolds(batch: seq<Node>, i: nat, rest: seq<Node>, all: seq<Node>)
    requires i < |batch| && UniqueKeys(all) && multiset(batch) <= multiset(all)
    requires multiset(rest) + multiset(batch[..i]) == multiset(all)
    ensures batch[i] in rest && batch[i].key.Some?
  {
    assert batch == batch[..i] + [batch[i]] + batch[i + 1..];
    assert multiset(batch) == multiset(batch[..i]) + multiset{batch[i]} + multiset(batch[i + 1..]);
    var x := batch[i];
    assert multiset(batch[..i])[x] + 1 <= multiset(batch)[x] <= multiset(all)[x];
    assert multiset(rest)[x] + multiset(batch[..i])[x] == multiset(all)[x];
    assert x in multiset(rest) && x in multiset(all);
  }

  // ----- The whole loop -----

  /** What holds before each round of the loop. */
  ghost predicate InProgress(nodes: seq<Node>, ordered: seq<Node>, remaining: seq<Node>, layer: map<Key, nat>,
        depth: nat) {
    && UniqueKeys(remaining) && multiset(ordered) + multiset(remaining) == multiset(nodes)
    && layer.Keys + Keys(remaining) == Keys(nodes)
    && (forall n :: n in ordered ==> n.key.Some?)
    && Layered(SchedulingEdges(nodes), layer, depth, KeySeq(ordered))
    && AllLate(SchedulingEdges(nodes), layer, depth, Keys(remaining))
  }

  lemma StartsInProgress(nodes: seq<Node>)
    requires UniqueKeys(nodes)
    ensures InProgress(nodes, [], nodes, map[], 0)
  {
    var none: map<Key, nat> := map[];
    assert none.Keys == {} == Elements(KeySeq([]));
  }

  lemma RemainingAreNodes(nodes: seq<Node>, ordered: seq<Node>, remaining: seq<Node>)
    requires multiset(ordered) + multiset(remaining) == multiset(nodes)
    ensures Elements(remaining) <= Elements(nodes) && Elements(ordered) <= Elements(nodes)
  {
    assert forall n :: n in remaining ==> n in multiset(nodes);
    assert forall n :: n in ordered ==> n in multiset(nodes);
  }

  /** Which keys are ready, in terms of the scheduling graph. */
  lemma ReadyKeys(nodes: seq<Node>, remaining: seq<Node>, layer: map<Key, nat>, ready: seq<Node>)
    requires UniqueKeys(nodes) && UniqueKeys(remaining) && Elements(remaining) <= Elements(nodes)
    requires UniqueKeys(ready) && Elements(ready) <= Elements(remaining)
    requires forall n :: n in remaining ==> (n in ready <==> SchedulingDeps(nodes, n) <= layer.Keys)
    ensures Keys(ready) <= Keys(remaining)
    ensures forall k {:trigger IsReady(SchedulingEdges(nodes), layer, k)} :: k in Keys(remaining) ==>
              (k in Keys(ready) <==> IsReady(SchedulingEdges(nodes), layer, k))
  {
    forall n | n in remaining
      ensures n in nodes && (n in ready <==> IsReady(SchedulingEdges(nodes), layer, n.key.value))
    {
      assert n in Elements(nodes);
      SchedulingDepsAreEdges(nodes, n);
    }
    forall n | n in ready ensures n in remaining {
      assert n in Elements(remaining);
    }
  }

  lemma SortedBatch(ready: seq<Node>, batch: seq<Node>)
    requires multiset(batch) == multiset(ready) && SortedByKey(batch)
    ensures Keys(batch) == Keys(ready) == Elements(KeySeq(batch)) && StrictlySortedKeys(KeySeq(batch))
  {
    assert forall n :: n in batch <==> n in multiset(batch);
    assert forall n :: n in ready <==> n in multiset(ready);
    KeySeqElements(ready, batch);
  }

  lemma RoundKeepsProgress(nodes: seq<Node>, ordered: seq<Node>, remaining: seq<Node>, layer: map<Key, nat>, depth: nat,
                           batch: seq<Node>, remaining': seq<Node>)
    requires UniqueKeys(nodes) && InProgress(nodes, ordered, remaining, layer, depth)
    requires SortedByKey(batch) && Keys(batch) == Elements(KeySeq(batch)) && StrictlySortedKeys(KeySeq(batch))
    requires Keys(batch) <= Keys(remaining)
    requires forall k {:trigger IsReady(SchedulingEdges(nodes), layer, k)} :: k in Keys(remaining) ==>
               (k in Keys(batch) <==> IsReady(SchedulingEdges(nodes), layer, k))
    requires UniqueKeys(remaining') && multiset(remaining') + multiset(batch) == multiset(remaining)
    ensures InProgress(nodes, ordered + batch, remaining', NewLayer(layer, depth, KeySeq(batch)), depth + 1)
  {
    NextLayered(SchedulingEdges(nodes), layer, depth, KeySeq(ordered), Keys(remaining), KeySeq(batch));
    NextLate(SchedulingEdges(nodes), layer, depth, Keys(remaining), KeySeq(batch));
    KeySeqAppend(ordered, batch);
    KeysSplit(remaining, batch, remaining');
  }

  lemma KeySeqAppend(ordered: seq<Node>, batch: seq<Node>)
    requires (forall n :: n in ordered ==> n.key.Some?) && (forall n :: n in batch ==> n.key.Some?)
    ensures forall n :: n in ordered + batch ==> n.key.Some?
    ensures KeySeq(ordered + batch) == KeySeq(ordered) + KeySeq(batch)
  {
  }

  lemma KeysSplit(remaining: seq<Node>, batch: seq<Node>, rest: seq<Node>)
    requires UniqueKeys(remaining) && multiset(rest) + multiset(batch) == multiset(remaining)
    ensures Keys(rest) == Keys(remaining) - Keys(batch)
  {
    assert forall n :: n in rest <==> n in multiset(rest);
    assert forall n :: n in batch <==> n in multiset(batch);
    assert forall n :: n in remaining <==> n in multiset(remaining);
    forall m, n | m in rest && n in batch
      ensures m.key != n.key
    {
      assert m in multiset(remaining) && n in multiset(remaining);
      SameKeyTwice(remaining, m, n);
      assert multiset(rest)[m] + multiset(batch)[m] == multiset(remaining)[m];
    }
    forall n | n in remaining ensures n in rest || n in batch {
      assert multiset(rest)[n] + multiset(batch)[n] > 0;
    }
  }

  /** In a list with unique keys, two entries with the same key are the same single entry. */
  lemma {:induction false} SameKeyTwice(nodes: seq<Node>, m: Node, n: Node)
    requires UniqueKeys(nodes) && m in nodes && n in nodes
    ensures multiset(nodes)[m] == 1
    ensures m.key == n.key ==> m == n
  {
    assert nodes == [nodes[0]] + nodes[1..];
    if m in nodes[1..] {
      SameKeyTwice(nodes[1..], m, m);
      assert m != nodes[0];
    } else {
      assert m !in multiset(nodes[1..]);
    }
  }

  lemma FinishedIsSchedule(nodes: seq<Node>, ordered: seq<Node>, layer: map<Key, nat>, depth: nat)
    requires UniqueKeys(nodes) && InProgress(nodes, ordered, [], layer, depth)
    requires forall x, y :: (x, y) in SchedulingEdges(nodes) ==> y in Keys(nodes)
    ensures IsSchedule(nodes, ordered) && Acyclic(SchedulingEdges(nodes))
  {
    var e := SchedulingEdges(nodes);
    assert multiset(ordered) == multiset(nodes);
    LayeringIsAcyclic(e, layer);
    forall i, j | 0 <= i < j < |ordered|
      ensures NodeBefore(e, ordered[i], ordered[j])
    {
      assert LayerOrder(layer, KeySeq(ordered)[i], KeySeq(ordered)[j]);
      LayerOrderIsCanonical(e, layer, ordered[i].key.value, ordered[j].key.value);
    }
  }

  lemma EdgesStayInside(nodes: seq<Node>)
    requires WellFormed(nodes)
    ensures forall x, y :: (x, y) in SchedulingEdges(nodes) ==> x in Keys(nodes) && y in Keys(nodes)
  {
    DependencyEdgesByKey(nodes);
  }

  /** Succeeds exactly when validation does and depends_on together with the condition-to-branch
      edges has no cycle; the result is then the canonical schedule. */
  method OrderWorkflow(nodes: seq<Node>) returns (r: Result<seq<Node>, string>)
    ensures r.Ok? <==> IsOrderable(nodes)
    ensures r.Ok? ==> IsSchedule(nodes, r.value)
    ensures WellFormed(nodes) && r.Err? ==> r.error == "INVALID_WORKFLOW_CYCLE"
    ensures !UniqueKeys(nodes) ==> r == Err("INVALID_WORKFLOW")
  {
    var v := ValidateWorkflow(nodes);
    if v.Rejected? {
      DependencyCycleIsSchedulingCycle(nodes);
      return Err(v.code);
    }
    EdgesStayInside(nodes);
    var remaining, completed, ordered := nodes, {}, [];
    ghost var layer: map<Key, nat>, depth: nat := map[], 0;
    StartsInProgress(nodes);
    while remaining != []
      invariant InProgress(nodes, ordered, remaining, layer, depth) && completed == layer.Keys
      decreases |remaining|
    {
      var progress: bool;
      progress, ordered, completed, remaining, layer := Round(nodes, ordered, completed, remaining, layer, depth);
      if !progress {
        return Err("INVALID_WORKFLOW_CYCLE");
      }
      depth := depth + 1;
    }
    FinishedIsSchedule(nodes, ordered, layer, depth);
    return Ok(ordered);
  }

  /** One round: finishes every ready node, in key order, unless none is ready. */
  method Round(nodes: seq<Node>, ordered: seq<Node>, completed: set<Key>, remaining: seq<Node>,
               ghost layer: map<Key, nat>, ghost depth: nat)
    returns (progress: bool, ordered': seq<Node>, completed': set<Key>, remaining': seq<Node>,
        ghost layer': map<Key, nat>)
    requires WellFormed(nodes) && remaining != []
    requires InProgress(nodes, ordered, remaining, layer, depth) && completed == layer.Keys
    ensures !progress ==> !Acyclic(SchedulingEdges(nodes))
    ensures progress ==> InProgress(nodes, ordered', remaining', layer', depth + 1) && completed' == layer'.Keys
    ensures progress ==> |remaining'| < |remaining|
  {
    ordered', completed', remaining', layer' := ordered, completed, remaining, layer;
    RemainingAreNodes(nodes, ordered, remaining);
    var ready := ReadyNodes(nodes, remaining, completed);
    ReadyKeys(nodes, remaining, layer, ready);
    if ready == [] {
      EdgesStayInside(nodes);
      Stuck(nodes, remaining, layer);
      return false, ordered', completed', remaining', layer';
    }
    var batch := SortByKey(ready);
    SortedBatch(ready, batch);
    BatchInside(ready, batch, remaining);
    ordered', completed', remaining' := FinishBatch(batch, ordered, completed, remaining);
    RoundKeepsProgress(nodes, ordered, remaining, layer, depth, batch, remaining');
    layer' := NewLayer(layer, depth, KeySeq(batch));
    assert |multiset(remaining')| + |multiset(batch)| == |multiset(remaining)|;
    progress := true;
  }

  lemma DependencyCycleIsSchedulingCycle(nodes: seq<Node>)
    ensures Acyclic(SchedulingEdges(nodes)) ==> Acyclic(DependencyEdges(nodes))
  {
    forall a | StrictlyReaches(DependencyEdges(nodes), a, a)
      ensures StrictlyReaches(SchedulingEdges(nodes), a, a)
    {
      ReachesMonotone(DependencyEdges(nodes), SchedulingEdges(nodes), a, a);
    }
  }

  lemma Stuck(nodes: seq<Node>, remaining: seq<Node>, layer: map<Key, nat>)
    requires remaining != [] && UniqueKeys(remaining)
    requires layer.Keys + Keys(remaining) == Keys(nodes)
    requires forall x, y :: (x, y) in SchedulingEdges(nodes) ==> x in Keys(nodes) && y in Keys(nodes)
    requires forall k {:trigger IsReady(SchedulingEdges(nodes), layer, k)} :: k in Keys(remaining) ==>
               !IsReady(SchedulingEdges(nodes), layer, k)
    ensures !Acyclic(SchedulingEdges(nodes))
  {
    assert remaining[0].key.value in Keys(remaining);
    NothingReady(SchedulingEdges(nodes), layer, Keys(remaining));
  }

  lemma BatchInside(ready: seq<Node>, batch: seq<Node>, remaining: seq<Node>)
    requires ready != []
    requires multiset(batch) == multiset(ready)
    requires UniqueKeys(ready) && UniqueKeys(remaining) && Elements(ready) <= Elements(remaining)
    ensures multiset(batch) <= multiset(remaining) && batch != []
  {
    assert |multiset(batch)| == |multiset(ready)|;
    forall n | n in multiset(ready)
      ensures multiset(ready)[n] <= multiset(remaining)[n]
    {
      SameKeyTwice(ready, n, n);
      assert n in Elements(ready);
    }
  }
}
