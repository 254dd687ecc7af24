// Which nodes a condition takes out of a run: branch_excluded_keys (app/runtime.py) and the
// worker's get_all_descendants (app/worker.py).

module Branches {
  import opened Base
  import opened Graph
  import opened Workflow

  // ----- branch_excluded_keys: a least fixpoint -----

  /** The rule would pull n into s: n has dependencies, one of them is in s, and all of them are
      in s or are the deciding condition. */
  predicate PulledIn(condition: Key, s: set<Key>, n: Node)
    requires n.key.Some?
  {
    && n.key.value !in s && n.key.value != condition
    && (exists d :: d in n.dependsOn && d in s)
    && (forall d :: d in n.dependsOn ==> d in s || d == condition)
  }

  ghost predicate AllKeyed(nodes: seq<Node>) {
    forall n :: n in nodes ==> n.key.Some?
  }

  /** s holds the root and nothing outside it is pulled in. */
  ghost predicate IsClosed(nodes: seq<Node>, condition: Key, root: Key, s: set<Key>)
    requires AllKeyed(nodes)
  {
    root in s && forall n :: n in nodes ==> !PulledIn(condition, s, n)
  }

  ghost predicate IsLeastClosed(nodes: seq<Node>, condition: Key, root: Key, s: set<Key>)
    requires AllKeyed(nodes)
  {
    IsClosed(nodes, condition, root, s) && forall t :: IsClosed(nodes, condition, root, t) ==> s <= t
  }

  /** There is one least closed set, whatever the order of the nodes. */
  lemma LeastClosedIsUnique(nodes: seq<Node>, others: seq<Node>, condition: Key, root: Key, s: set<Key>, t: set<Key>)
    requires AllKeyed(nodes) && AllKeyed(others) && Elements(nodes) == Elements(others)
    requires IsLeastClosed(nodes, condition, root, s) && IsLeastClosed(others, condition, root, t)
    ensures s == t
  {
    forall n | n in nodes ensures n in others {
      assert n in Elements(others);
    }
    forall n | n in others ensures n in nodes {
      assert n in Elements(nodes);
    }
    assert IsClosed(others, condition, root, s) && IsClosed(nodes, condition, root, t);
  }

  lemma PullStaysBelow(nodes: seq<Node>, condition: Key, root: Key, s: set<Key>, t: set<Key>, n: Node)
    requires AllKeyed(nodes) && n in nodes && IsClosed(nodes, condition, root, t)
    requires s <= t && PulledIn(condition, s, n)
    ensures n.key.value in t
  {
    assert !PulledIn(condition, t, n);
  }

  /** Everything excluded so far has to be excluded. */
  ghost predicate IsForced(nodes: seq<Node>, condition: Key, root: Key, s: set<Key>)
    requires AllKeyed(nodes)
  {
    {root} <= s <= Keys(nodes) + {root}
    && forall t :: IsClosed(nodes, condition, root, t) ==> s <= t
  }

  lemma PullIsForced(nodes: seq<Node>, condition: Key, root: Key, s: set<Key>, n: Node)
    requires AllKeyed(nodes) && n in nodes && IsForced(nodes, condition, root, s) && PulledIn(condition, s, n)
    ensures IsForced(nodes, condition, root, s + {n.key.value})
  {
    forall t | IsClosed(nodes, condition, root, t)
      ensures n.key.value in t
    {
      PullStaysBelow(nodes, condition, root, s, t, n);
    }
  }

  /** One pass over the nodes.  Nodes later in the list see what earlier ones added. */
  method OnePass(nodes: seq<Node>, condition: Key, ghost root: Key, excluded: set<Key>)
    returns (excluded': set<Key>, changed: bool)
    requires AllKeyed(nodes) && IsForced(nodes, condition, root, excluded)
    ensures IsForced(nodes, condition, root, excluded') && excluded <= excluded'
    ensures changed <==> excluded < excluded'
    ensures !changed ==> IsClosed(nodes, condition, root, excluded)
  {
    excluded', changed := excluded, false;
    for i := 0 to |nodes|
      invariant IsForced(nodes, condition, root, excluded') && excluded <= excluded'
      invariant changed <==> excluded < excluded'
      invariant !changed ==> forall j :: 0 <= j < i ==> !PulledIn(condition, excluded, nodes[j])
    {
      if PulledIn(condition, excluded', nodes[i]) {
        PullIsForced(nodes, condition, root, excluded', nodes[i]);
        excluded' := excluded' + {nodes[i].key.value};
        changed := true;
      }
    }
  }

  /** Returns the known keys of the least set that holds the root and is closed under the rule. */
  method BranchExcludedKeys(nodes: seq<Node>, condition: Key, root: Key) returns (r: set<Key>)
    requires AllKeyed(nodes)
    ensures IsLeastClosed(nodes, condition, root, r + {root})
    ensures r <= Keys(nodes) && (root in r <==> root in Keys(nodes))
  {
    var excluded := {root};
    var changed := true;
    while changed
      invariant IsForced(nodes, condition, root, excluded)
      invariant !changed ==> IsClosed(nodes, condition, root, excluded)
      decreases |Keys(nodes) + {root} - excluded| + if changed then 1 else 0
    {
      ghost var before := excluded;
      excluded, changed := OnePass(nodes, condition, root, excluded);
      if changed {
        Shrinks(Keys(nodes) + {root}, before, excluded);
      } else {
        assert excluded == before;
      }
    }
    r := set k | k in excluded && k in Keys(nodes);
    assert r + {root} == excluded;
  }

  /** One of its dependencies is excluded, and every one of them is or is the condition. */
  ghost predicate IsPulled(n: Node, condition: Key, s: set<Key>) {
    && n.key.Some? && n.key != Some(condition)
    && (exists d :: d in n.dependsOn && d in s)
    && forall d :: d in n.dependsOn && d != condition ==> d in s
  }

  /** A key is excluded exactly if it is the root or that of a node that the rule pulls in. */
  lemma ExcludedByTheRule(nodes: seq<Node>, condition: Key, root: Key, s: set<Key>, k: Key)
    requires AllKeyed(nodes) && IsLeastClosed(nodes, condition, root, s)
    ensures k in s <==> k == root || exists n :: n in nodes && n.key == Some(k) && IsPulled(n, condition, s)
  {
    if n :| n in nodes && n.key == Some(k) && IsPulled(n, condition, s) {
      assert !PulledIn(condition, s, n);
    } else if k in s && k != root {
      var t := s - {k};
      forall n | n in nodes ensures !PulledIn(condition, t, n) {
        assert !PulledIn(condition, s, n);
        if PulledIn(condition, t, n) { assert IsPulled(n, condition, s) && n.key == Some(k); }
      }
      assert IsClosed(nodes, condition, root, t);
    }
  }

  lemma Shrinks<T>(all: set<T>, smaller: set<T>, larger: set<T>)
    requires smaller < larger <= all
    ensures |all - larger| < |all - smaller|
  {
    var x :| x in larger && x !in smaller;
    assert all - larger <= all - smaller - {x};
    SubsetCardinality(all - larger, all - smaller - {x});
  }

  /** Only dependants of the root are excluded: the result lies inside what the worker prunes. */
  lemma ExcludedAreDependants(nodes: seq<Node>, condition: Key, root: Key, s: set<Key>, k: Key)
    requires AllKeyed(nodes) && IsLeastClosed(nodes, condition, root, s) && k in s
    ensures k == root || StrictlyReaches(DependencyEdges(nodes), root, k)
  {
    var e := DependencyEdges(nodes);
    var t := set x | x in Keys(nodes) + {root} && Reaches(e, root, x);
    ReachesSelf(e, root);
    forall n | n in nodes
      ensures !PulledIn(condition, t, n)
    {
      if exists d :: d in n.dependsOn && d in t {
        var d :| d in n.dependsOn && d in t;
        assert (d, n.key.value) in e;
        ReachesStep(e, root, d, n.key.value);
      }
    }
    assert IsClosed(nodes, condition, root, t);
    assert Reaches(e, root, k);
    ReachesIsStrictOrEqual(e, root, k);
  }

  lemma ReachesIsStrictOrEqual(e: Edges, a: Key, b: Key)
    ensures Reaches(e, a, b) <==> a == b || StrictlyReaches(e, a, b)
  {
    if Reaches(e, a, b) {
      var p :| PathFromTo(e, p, a, b);
      assert |p| == 1 || |p| >= 2;
    }
    if a == b { ReachesSelf(e, a); }
  }

  // ----- get_all_descendants: a depth-first walk that shares its visited set -----

  function Children(g: map<Key, set<Key>>, k: Key): set<Key> {
    if k in g then g[k] else {}
  }

  ghost function ChildEdges(g: map<Key, set<Key>>): Edges {
    set k, c | k in g && c in g[k] :: (k, c)
  }

  /** The dependants of each node: descendants_map, keyed by the nodes of the workflow. */
  method DependantsMap(nodes: seq<Node>) returns (g: map<Key, set<Key>>)
    requires WellFormed(nodes)
    ensures g.Keys == Keys(nodes)
    ensures ChildEdges(g) == DependencyEdges(nodes)
  {
    g := map k | k in Keys(nodes) :: {};
    for i := 0 to |nodes|
      invariant g.Keys == Keys(nodes)
      invariant ChildEdges(g) == DependencyEdges(nodes[..i])
    {
      ghost var edges := ChildEdges(g);
      var n := nodes[i];
      for j := 0 to |n.dependsOn|
        invariant g.Keys == Keys(nodes)
        invariant ChildEdges(g) == edges + set d | d in n.dependsOn[..j] :: (d, n.key.value)
      {
        var d := n.dependsOn[j];
        assert Complaint(n, Keys(nodes)).None? && d in n.dependsOn;
        assert n.dependsOn[..j + 1] == n.dependsOn[..j] + [d];
        AddChild(g, d, n.key.value);
        if d in g {
          g := g[d := g[d] + {n.key.value}];
        }
      }
      assert n.dependsOn[..|n.dependsOn|] == n.dependsOn;
      EdgesOfPrefix(nodes, i);
    }
    assert nodes[..|nodes|] == nodes;
  }

  lemma AddChild(g: map<Key, set<Key>>, d: Key, c: Key)
    requires d in g
    ensures ChildEdges(g[d := g[d] + {c}]) == ChildEdges(g) + {(d, c)}
  {
  }

  lemma EdgesOfPrefix(nodes: seq<Node>, i: nat)
    requires i < |nodes| && nodes[i].key.Some?
    ensures DependencyEdges(nodes[..i + 1]) ==
            DependencyEdges(nodes[..i]) + set d | d in nodes[i].dependsOn :: (d, nodes[i].key.value)
  {
    assert nodes[..i + 1] == nodes[..i] + [nodes[i]];
  }

  ghost function ChildrenOfAll(g: map<Key, set<Key>>, vs: set<Key>): set<Key> {
    set v, c | v in vs && c in Children(g, v) :: c
  }

  /** The visited keys of a call are reached from key; the result is exactly their children. */
  ghost predicate Gathered(g: map<Key, set<Key>>, key: Key, vs: set<Key>, result: set<Key>) {
    && (forall v :: v in vs ==> Reaches(ChildEdges(g), key, v))
    && result == ChildrenOfAll(g, vs)
  }

  /** What one call adds.  Keys visited before the call contribute nothing. */
  ghost predicate WalkResult(g: map<Key, set<Key>>, key: Key, visited: set<Key>, result: set<Key>, visited': set<Key>) {
    && visited + {key} <= visited'
    && Gathered(g, key, visited' - visited, result)
    && ChildrenOfAll(g, visited' - visited) <= visited'
  }

  method GetAllDescendants(g: map<Key, set<Key>>, key: Key, visited: set<Key>, ghost universe: set<Key>)
    returns (result: set<Key>, visited': set<Key>)
    requires key in universe && visited <= universe && ChildrenOfAll(g, universe) <= universe
    ensures WalkResult(g, key, visited, result, visited')
    ensures visited' <= universe
    decreases |universe - visited|
  {
    if key in visited {
      return {}, visited;
    }
    visited' := visited + {key};
    result := Children(g, key);
    ChildrenInside(g, key, universe);
    var pending := result;
    WalkStarts(g, key, visited);
    while pending != {}
      invariant pending <= Children(g, key)
      invariant visited + {key} <= visited' <= universe
      invariant Walking(g, key, visited, visited', pending, result)
      decreases |pending|
    {
      var child :| child in pending;
      Shrinks(universe, visited, visited');
      var more, further := GetAllDescendants(g, child, visited', universe);
      WalkExtends(g, key, child, visited, visited', further, pending, result, more);
      pending := pending - {child};
      result := result + more;
      visited' := further;
    }
    WalkEnds(g, key, visited, visited', result);
  }

  lemma WalkEnds(g: map<Key, set<Key>>, key: Key, visited: set<Key>, now: set<Key>, result: set<Key>)
    requires visited + {key} <= now && key !in visited && Walking(g, key, visited, now, {}, result)
    ensures WalkResult(g, key, visited, result, now)
  {
    assert now - visited - {key} + {key} == now - visited;
    ChildrenOfUnion(g, now - visited - {key}, {key});
    ChildrenOfOne(g, key);
  }

  lemma ChildrenInside(g: map<Key, set<Key>>, key: Key, universe: set<Key>)
    requires key in universe && ChildrenOfAll(g, universe) <= universe
    ensures Children(g, key) <= universe
  {
    assert Children(g, key) <= ChildrenOfAll(g, universe);
  }

  lemma ChildrenOfOne(g: map<Key, set<Key>>, key: Key)
    ensures ChildrenOfAll(g, {key}) == Children(g, key)
  {
  }

  lemma ChildrenOfUnion(g: map<Key, set<Key>>, vs: set<Key>, ws: set<Key>)
    ensures ChildrenOfAll(g, vs + ws) == ChildrenOfAll(g, vs) + ChildrenOfAll(g, ws)
  {
  }

  /** Part-way through the children of key: those not pending are visited, and so are the
      children of every key visited below it. */
  ghost predicate Walking(g: map<Key, set<Key>>, key: Key, visited: set<Key>, now: set<Key>, pending: set<Key>,
        result: set<Key>) {
    && Gathered(g, key, now - visited, result)
    && Children(g, key) - pending <= now
    && ChildrenOfAll(g, now - visited - {key}) <= now
  }

  lemma WalkStarts(g: map<Key, set<Key>>, key: Key, visited: set<Key>)
    requires key !in visited
    ensures Walking(g, key, visited, visited + {key}, Children(g, key), Children(g, key))
  {
    assert visited + {key} - visited == {key};
    assert {key} - {key} == {};
    assert ChildrenOfAll(g, {}) == {};
    ChildrenOfOne(g, key);
    ReachesSelf(ChildEdges(g), key);
  }

  /** Joining the walk from one child to what the parent call has gathered so far. */
  lemma WalkExtends(g: map<Key, set<Key>>, key: Key, child: Key, visited: set<Key>, before: set<Key>, after: set<Key>,
                    pending: set<Key>, result: set<Key>, more: set<Key>)
    requires visited + {key} <= before && child in pending && pending <= Children(g, key)
    requires Walking(g, key, visited, before, pending, result)
    requires WalkResult(g, child, before, more, after)
    ensures Walking(g, key, visited, after, pending - {child}, result + more)
  {
    WalkReaches(g, key, child, visited, before, after);
    assert after - visited == (before - visited) + (after - before);
    ChildrenOfUnion(g, before - visited, after - before);
    assert after - visited - {key} == (before - visited - {key}) + (after - before);
    ChildrenOfUnion(g, before - visited - {key}, after - before);
  }

  lemma WalkReaches(g: map<Key, set<Key>>, key: Key, child: Key, visited: set<Key>, before: set<Key>, after: set<Key>)
    requires child in Children(g, key)
    requires forall v :: v in before - visited ==> Reaches(ChildEdges(g), key, v)
    requires forall v :: v in after - before ==> Reaches(ChildEdges(g), child, v)
    ensures forall v :: v in after - visited ==> Reaches(ChildEdges(g), key, v)
  {
    var e := ChildEdges(g);
    assert (key, child) in e;
    ReachesSelf(e, key);
    ReachesStep(e, key, key, child);
    forall v | v in after - visited
      ensures Reaches(e, key, v)
    {
      if v in before {
        assert v in before - visited;
      } else {
        assert v in after - before;
        ReachesTransitive(e, key, child, v);
      }
    }
  }

  /** A first call, with nothing visited, returns exactly the strict transitive dependants. */
  lemma DescendantsAreStrictDependants(g: map<Key, set<Key>>, key: Key, result: set<Key>, visited: set<Key>)
    requires WalkResult(g, key, {}, result, visited)
    ensures forall x :: x in result <==> StrictlyReaches(ChildEdges(g), key, x)
  {
    var e := ChildEdges(g);
    assert visited - {} == visited;
    forall x | x in result
      ensures StrictlyReaches(e, key, x)
    {
      var v :| v in visited && x in Children(g, v);
      assert (v, x) in e;
      ReachesStep(e, key, v, x);
    }
    forall x | StrictlyReaches(e, key, x)
      ensures x in result
    {
      var v := StrictlyReachesLast(e, key, x);
      var p :| PathFromTo(e, p, key, v);
      forall a, b | a in visited && (a, b) in e ensures b in visited {
        assert b in Children(g, a);
        assert b in ChildrenOfAll(g, visited);
      }
      ClosedHoldsPath(e, visited, p);
      assert x in Children(g, v);
    }
  }

  /** The walk as the worker starts it, over the dependants map of a validated workflow. */
  method Descendants(nodes: seq<Node>, g: map<Key, set<Key>>, key: Key) returns (result: set<Key>)
    requires WellFormed(nodes) && g.Keys == Keys(nodes) && ChildEdges(g) == DependencyEdges(nodes)
    ensures forall x :: x in result <==> StrictlyReaches(DependencyEdges(nodes), key, x)
  {
    ghost var universe := Keys(nodes) + {key};
    DependencyEdgesByKey(nodes);
    forall c | c in ChildrenOfAll(g, universe) ensures c in universe {
      var k :| k in universe && c in Children(g, k);
      assert (k, c) in ChildEdges(g);
    }
    var visited;
    result, visited := GetAllDescendants(g, key, {}, universe);
    DescendantsAreStrictDependants(g, key, result, visited);
  }
}
