// Directed graphs over string keys.  An edge (a, b) says that a must come before b: b depends
// on a, or the condition a routes to b.

module Graph {
  import opened Base

  type Key = string
  type Edges = set<(Key, Key)>

  ghost predicate IsPath(e: Edges, p: seq<Key>) {
    && |p| >= 1
    && forall i :: 0 <= i < |p| - 1 ==> (p[i], p[i + 1]) in e
  }

  ghost predicate PathFromTo(e: Edges, p: seq<Key>, a: Key, b: Key) {
    IsPath(e, p) && p[0] == a && p[|p| - 1] == b
  }

  /** b can be reached from a in zero or more steps. */
  ghost predicate Reaches(e: Edges, a: Key, b: Key) {
    exists p :: PathFromTo(e, p, a, b)
  }

  /** b can be reached from a in one or more steps: b is a strict transitive dependant of a. */
  ghost predicate StrictlyReaches(e: Edges, a: Key, b: Key) {
    exists p :: PathFromTo(e, p, a, b) && |p| >= 2
  }

  ghost predicate Acyclic(e: Edges) {
    forall a :: !StrictlyReaches(e, a, a)
  }

  lemma ReachesSelf(e: Edges, a: Key)
    ensures Reaches(e, a, a)
  {
    assert PathFromTo(e, [a], a, a);
  }

  lemma ReachesStep(e: Edges, a: Key, b: Key, c: Key)
    requires Reaches(e, a, b) && (b, c) in e
    ensures StrictlyReaches(e, a, c) && Reaches(e, a, c)
  {
    var p :| PathFromTo(e, p, a, b);
    assert PathFromTo(e, p + [c], a, c);
  }

  lemma ReachesTransitive(e: Edges, a: Key, b: Key, c: Key)
    requires Reaches(e, a, b) && Reaches(e, b, c)
    ensures Reaches(e, a, c)
    ensures StrictlyReaches(e, a, b) || StrictlyReaches(e, b, c) ==> StrictlyReaches(e, a, c)
  {
    var p :| PathFromTo(e, p, a, b) && (StrictlyReaches(e, a, b) ==> |p| >= 2);
    var q :| PathFromTo(e, q, b, c) && (StrictlyReaches(e, b, c) ==> |q| >= 2);
    var r := p + q[1..];
    forall i | 0 <= i < |r| - 1
      ensures (r[i], r[i + 1]) in e
    {
      if i < |p| - 1 {
        assert r[i] == p[i] && r[i + 1] == p[i + 1];
      } else {
        assert r[i] == q[i - |p| + 1] && r[i + 1] == q[i - |p| + 2];
      }
    }
    assert PathFromTo(e, r, a, c);
  }

  /** A strict walk ends with an edge. */
  lemma StrictlyReachesLast(e: Edges, a: Key, c: Key) returns (b: Key)
    requires StrictlyReaches(e, a, c)
    ensures Reaches(e, a, b) && (b, c) in e
  {
    var p :| PathFromTo(e, p, a, c) && |p| >= 2;
    b := p[|p| - 2];
    assert PathFromTo(e, p[..|p| - 1], a, b);
    assert (p[|p| - 2], p[|p| - 2 + 1]) in e;
  }

  /** Any set that holds a and is closed under edges holds all that a reaches. */
  lemma {:induction false} ClosedHoldsPath(e: Edges, s: set<Key>, p: seq<Key>)
    requires IsPath(e, p) && p[0] in s
    requires forall x, y :: x in s && (x, y) in e ==> y in s
    ensures forall i :: 0 <= i < |p| ==> p[i] in s
  {
    if |p| > 1 {
      var q := p[..|p| - 1];
      ClosedHoldsPath(e, s, q);
      assert q[|q| - 1] in s;
      assert (p[|p| - 2], p[|p| - 2 + 1]) in e;
      forall i | 0 <= i < |p| ensures p[i] in s {
        if i < |p| - 1 { assert p[i] == q[i]; }
      }
    }
  }

  /** More edges, more walks. */
  lemma ReachesMonotone(e: Edges, f: Edges, a: Key, b: Key)
    requires e <= f
    ensures Reaches(e, a, b) ==> Reaches(f, a, b)
    ensures StrictlyReaches(e, a, b) ==> StrictlyReaches(f, a, b)
  {
    if Reaches(e, a, b) {
      var p :| PathFromTo(e, p, a, b);
      assert PathFromTo(f, p, a, b);
    }
    if StrictlyReaches(e, a, b) {
      var p :| PathFromTo(e, p, a, b) && |p| >= 2;
      assert PathFromTo(f, p, a, b);
    }
  }

  // ----- Acyclicity: a ranking refutes every cycle, a stuck set exhibits one -----

  lemma {:induction false} RankGrowsAlongPath(e: Edges, rank: map<Key, int>, p: seq<Key>)
    requires IsPath(e, p) && |p| >= 2
    requires forall x, y :: (x, y) in e ==> x in rank && y in rank && rank[x] < rank[y]
    ensures p[0] in rank && p[|p| - 1] in rank && rank[p[0]] <= rank[p[|p| - 1]] - (|p| - 1)
  {
    assert (p[|p| - 2], p[|p| - 2 + 1]) in e;
    if |p| > 2 {
      RankGrowsAlongPath(e, rank, p[..|p| - 1]);
    }
  }

  lemma RankedIsAcyclic(e: Edges, rank: map<Key, int>)
    requires forall x, y :: (x, y) in e ==> x in rank && y in rank && rank[x] < rank[y]
    ensures Acyclic(e)
  {
    forall a | StrictlyReaches(e, a, a)
      ensures false
    {
      var p :| PathFromTo(e, p, a, a) && |p| >= 2;
      RankGrowsAlongPath(e, rank, p);
    }
  }

  ghost predicate HasPredecessorIn(e: Edges, r: set<Key>, b: Key) {
    exists a :: a in r && (a, b) in e
  }

  ghost predicate EveryMemberHasPredecessor(e: Edges, r: set<Key>) {
    forall b {:trigger HasPredecessorIn(e, r, b)} :: b in r ==> HasPredecessorIn(e, r, b)
  }

  lemma {:induction false} BackwardWalk(e: Edges, r: set<Key>, n: nat) returns (p: seq<Key>)
    requires r != {} && EveryMemberHasPredecessor(e, r)
    ensures IsPath(e, p) && |p| == n + 1
    ensures forall i :: 0 <= i < |p| ==> p[i] in r
  {
    if n == 0 {
      var x :| x in r;
      p := [x];
    } else {
      var q := BackwardWalk(e, r, n - 1);
      assert HasPredecessorIn(e, r, q[0]);
      var a :| a in r && (a, q[0]) in e;
      p := [a] + q;
      forall i | 0 <= i < |p| - 1
        ensures (p[i], p[i + 1]) in e
      {
        if i > 0 { assert p[i] == q[i - 1] && p[i + 1] == q[i - 1 + 1]; }
      }
    }
  }

  /** If every member of a non-empty set waits for another member, the graph has a cycle. */
  lemma StuckSetHasCycle(e: Edges, r: set<Key>)
    requires r != {} && EveryMemberHasPredecessor(e, r)
    ensures !Acyclic(e)
  {
    var p := BackwardWalk(e, r, |r|);
    var i, j := Pigeonhole(p, r);
    var c := p[i..j + 1];
    forall k | 0 <= k < |c| - 1
      ensures (c[k], c[k + 1]) in e
    {
      assert c[k] == p[i + k] && c[k + 1] == p[i + k + 1];
    }
    assert PathFromTo(e, c, p[i], p[i]) && |c| >= 2;
    assert StrictlyReaches(e, p[i], p[i]);
  }

  // ----- Levels: the longest walk that ends at a key -----

  /** n is the number of edges of the longest walk that ends at k. */
  ghost predicate IsLevel(e: Edges, k: Key, n: nat) {
    && (exists p :: IsPath(e, p) && p[|p| - 1] == k && |p| == n + 1)
    && (forall p :: IsPath(e, p) && p[|p| - 1] == k ==> |p| <= n + 1)
  }

  lemma LevelUnique(e: Edges, k: Key, m: nat, n: nat)
    requires IsLevel(e, k, m) && IsLevel(e, k, n)
    ensures m == n
  {
    var p :| IsPath(e, p) && p[|p| - 1] == k && |p| == m + 1;
    var q :| IsPath(e, q) && q[|q| - 1] == k && |q| == n + 1;
  }

  /** Edges into layered keys climb at least one layer, and every layer above the first is
      entered by an edge from the layer just below. */
  ghost predicate IsLayering(e: Edges, layer: map<Key, nat>) {
    && (forall x, y {:trigger (x, y) in e} :: (x, y) in e && y in layer ==> x in layer && layer[x] < layer[y])
    && (forall y {:trigger EnteredFromBelow(e, layer, y)} :: y in layer && layer[y] > 0 ==>
         EnteredFromBelow(e, layer, y))
  }

  ghost predicate EnteredFromBelow(e: Edges, layer: map<Key, nat>, y: Key) {
    y in layer && exists x :: (x, y) in e && x in layer && layer[x] + 1 == layer[y]
  }

  lemma {:induction false} LayerBoundsPath(e: Edges, layer: map<Key, nat>, p: seq<Key>)
    requires IsLayering(e, layer) && IsPath(e, p) && p[|p| - 1] in layer
    ensures p[0] in layer && layer[p[0]] + |p| <= layer[p[|p| - 1]] + 1
  {
    if |p| > 1 {
      assert (p[|p| - 2], p[|p| - 2 + 1]) in e;
      LayerBoundsPath(e, layer, p[..|p| - 1]);
    }
  }

  lemma {:induction false} LayerIsReached(e: Edges, layer: map<Key, nat>, k: Key) returns (p: seq<Key>)
    requires IsLayering(e, layer) && k in layer
    ensures IsPath(e, p) && p[|p| - 1] == k && |p| == layer[k] + 1
    decreases layer[k]
  {
    if layer[k] == 0 {
      p := [k];
    } else {
      assert EnteredFromBelow(e, layer, k);
      var x :| (x, k) in e && x in layer && layer[x] == layer[k] - 1;
      var q := LayerIsReached(e, layer, x);
      p := q + [k];
      forall i | 0 <= i < |p| - 1
        ensures (p[i], p[i + 1]) in e
      {
        if i < |q| - 1 { assert p[i] == q[i] && p[i + 1] == q[i + 1]; }
      }
    }
  }

  lemma LayerIsLevel(e: Edges, layer: map<Key, nat>, k: Key)
    requires IsLayering(e, layer) && k in layer
    ensures IsLevel(e, k, layer[k])
  {
    var p := LayerIsReached(e, layer, k);
    forall q | IsPath(e, q) && q[|q| - 1] == k
      ensures |q| <= layer[k] + 1
    {
      LayerBoundsPath(e, layer, q);
    }
  }
}
