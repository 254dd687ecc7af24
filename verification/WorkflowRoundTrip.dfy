// Loading a saved workflow into the editor and saving it again.

module WorkflowRoundTrip {
  import opened Base
  import opened Graph
  import opened Workflow
  import opened WorkflowOrder
  import opened WorkflowEditor

  /** Names with a meaning of their own in editor and stored nodes. */
  const STRUCTURAL_NAMES := {"id", "key", "type", "label", "data", "config", "kind"}

  /** What saving leaves in the database, for trimmed ids and configs without structural names. */
  ghost predicate IsSaved(stored: seq<StoredNode>) {
    && stored != []
    && IsOrderable(RuntimeNodes(stored))
    && AllSavedNodes(stored)
  }

  ghost predicate AllSavedNodes(stored: seq<StoredNode>) {
    forall i {:trigger IsSavedNode(stored[i])} :: 0 <= i < |stored| ==> IsSavedNode(stored[i])
  }

  ghost predicate IsSavedNode(s: StoredNode) {
    && s.key != "" && Strip(s.key) == s.key
    && s.kind != "" && InvalidField(s.kind, s.config).None?
    && s.config.Keys !! STRUCTURAL_NAMES
    && s.rest == WorkflowEditor.Without(s.config, OWN_NAMES)
    && NoDuplicates(s.dependsOn)
  }

  // ----- Sources of a list of pairs -----

  lemma {:induction false} SourcesArePaired(p: seq<(Key, Key)>, t: Key, n: nat)
    requires n <= |p|
    ensures forall s :: s in SourcesOf(p, t, n) <==> (s, t) in p[..n]
    ensures NoDuplicates(SourcesOf(p, t, n))
  {
    if n > 0 {
      SourcesArePaired(p, t, n - 1);
      assert p[..n] == p[..n - 1] + [p[n - 1]];
    }
  }

  lemma {:induction false} SourcesOfPrefix(p: seq<(Key, Key)>, more: seq<(Key, Key)>, t: Key, n: nat)
    requires n <= |p|
    ensures SourcesOf(p + more, t, n) == SourcesOf(p, t, n)
  {
    if n > 0 { SourcesOfPrefix(p, more, t, n - 1); }
  }

  /** Pairs with another target add no source. */
  lemma {:induction false} OtherTargets(p: seq<(Key, Key)>, more: seq<(Key, Key)>, t: Key, n: nat)
    requires n <= |more| && forall i :: 0 <= i < |more| ==> more[i].1 != t
    ensures SourcesOf(p + more, t, |p| + n) == SourcesOf(p, t, |p|)
  {
    if n == 0 {
      SourcesOfPrefix(p, more, t, |p|);
    } else {
      OtherTargets(p, more, t, n - 1);
    }
  }

  /** Distinct new sources of one target are listed as they come. */
  lemma {:induction false} NewSources(p: seq<(Key, Key)>, ds: seq<Key>, t: Key, more: seq<(Key, Key)>, n: nat)
    requires n <= |ds| == |more| && NoDuplicates(ds) && SourcesOf(p, t, |p|) == []
    requires forall i {:trigger more[i]} :: 0 <= i < |ds| ==> more[i] == (ds[i], t)
    ensures SourcesOf(p + more, t, |p| + n) == ds[..n]
  {
    if n == 0 {
      SourcesOfPrefix(p, more, t, |p|);
    } else {
      NewSources(p, ds, t, more, n - 1);
      assert (p + more)[|p| + n - 1] == more[n - 1];
      assert ds[..n] == ds[..n - 1] + [ds[n - 1]];
    }
  }

  /** Pairs that are there already add no source. */
  lemma {:induction false} RepeatedPairs(p: seq<(Key, Key)>, more: seq<(Key, Key)>, t: Key, n: nat)
    requires n <= |more| && forall i :: 0 <= i < |more| ==> more[i] in p
    ensures SourcesOf(p + more, t, |p| + n) == SourcesOf(p, t, |p|)
  {
    if n == 0 {
      SourcesOfPrefix(p, more, t, |p|);
    } else {
      RepeatedPairs(p, more, t, n - 1);
      SourcesArePaired(p, t, |p|);
      assert p[..|p|] == p && (p + more)[|p| + n - 1] == more[n - 1];
    }
  }

  // ----- Loading, seen as a growing list of pairs -----

  /** What loading reads of one node: its key, its dependencies and its branch targets. */
  datatype Links = Links(key: Key, deps: seq<Key>, branches: set<Key>)

  function LinkPairs(l: Links): (p: seq<(Key, Key)>)
    ensures |p| == |l.deps|
  {
    seq(|l.deps|, i requires 0 <= i < |l.deps| => (l.deps[i], l.key))
  }

  function AllLinkPairs(links: seq<Links>, n: nat): seq<(Key, Key)>
    requires n <= |links|
  {
    if n == 0 then [] else AllLinkPairs(links, n - 1) + LinkPairs(links[n - 1])
  }

  /** q adds to p pairs that lead from l to its branch targets, so that all of them are paired. */
  ghost predicate AddsBranches(l: Links, p: seq<(Key, Key)>, q: seq<(Key, Key)>) {
    && p <= q
    && (forall i :: |p| <= i < |q| ==> q[i].0 == l.key && q[i].1 in l.branches)
    && (forall t :: t in l.branches ==> (l.key, t) in q)
  }

  /** The lists of pairs shown while the nodes are looked at one after the other. */
  ghost predicate AreShown(links: seq<Links>, shown: seq<seq<(Key, Key)>>) {
    && |shown| == |links| + 1
    && shown[0] == AllLinkPairs(links, |links|)
    && forall i :: 0 <= i < |links| ==> AddsBranches(links[i], shown[i], shown[i + 1])
  }

  ghost predicate Depends(links: seq<Links>, n: nat, s: Key, t: Key)
    requires n <= |links|
  {
    exists i :: 0 <= i < n && links[i].key == t && s in links[i].deps
  }

  ghost predicate Branches(links: seq<Links>, n: nat, s: Key, t: Key)
    requires n <= |links|
  {
    exists i :: 0 <= i < n && links[i].key == s && t in links[i].branches
  }

  lemma LinkPairsAre(l: Links, s: Key, t: Key)
    ensures (s, t) in LinkPairs(l) <==> t == l.key && s in l.deps
  {
    if t == l.key && s in l.deps {
      var i :| 0 <= i < |l.deps| && l.deps[i] == s;
      assert LinkPairs(l)[i] == (s, t);
    }
  }

  lemma {:induction false} LinkPairsDepend(links: seq<Links>, n: nat, s: Key, t: Key)
    requires n <= |links|
    ensures (s, t) in AllLinkPairs(links, n) <==> Depends(links, n, s, t)
  {
    if n > 0 {
      LinkPairsDepend(links, n - 1, s, t);
      LinkPairsAre(links[n - 1], s, t);
    }
  }

  /** The pairs shown are the dependencies and the branches looked at so far. */
  lemma {:induction false} ShownPairs(links: seq<Links>, shown: seq<seq<(Key, Key)>>, n: nat, s: Key, t: Key)
    requires AreShown(links, shown) && n <= |links|
    ensures (s, t) in shown[n] <==> Depends(links, |links|, s, t) || Branches(links, n, s, t)
  {
    if n == 0 {
      LinkPairsDepend(links, |links|, s, t);
    } else {
      ShownPairs(links, shown, n - 1, s, t);
      assert AddsBranches(links[n - 1], shown[n - 1], shown[n]);
      if (s, t) in shown[n - 1] {
        var i :| 0 <= i < |shown[n - 1]| && shown[n - 1][i] == (s, t);
        assert shown[n][i] == (s, t);
      }
    }
  }

  ghost predicate DistinctLinks(links: seq<Links>) {
    && (forall i, j :: 0 <= i < j < |links| ==> links[i].key != links[j].key)
    && (forall i :: 0 <= i < |links| ==> NoDuplicates(links[i].deps))
  }

  /** Each list of dependencies comes back as it was. */
  lemma {:induction false} LinkSources(links: seq<Links>, n: nat, j: nat)
    requires n <= |links| && j < |links| && DistinctLinks(links)
    ensures var p := AllLinkPairs(links, n);
            SourcesOf(p, links[j].key, |p|) == if j < n then links[j].deps else []
  {
    if n > 0 {
      LinkSources(links, n - 1, j);
      var p, l := AllLinkPairs(links, n - 1), links[n - 1];
      if j == n - 1 {
        NewSources(p, l.deps, l.key, LinkPairs(l), |l.deps|);
        assert l.deps[..|l.deps|] == l.deps;
      } else {
        OtherTargets(p, LinkPairs(l), links[j].key, |l.deps|);
      }
    }
  }

  /** If every branch is among the dependencies already, showing the branches adds no source. */
  lemma {:induction false} ShownKeepsSources(links: seq<Links>, shown: seq<seq<(Key, Key)>>, n: nat, t: Key)
    requires AreShown(links, shown) && n <= |links|
    requires forall s, x :: Branches(links, |links|, s, x) ==> Depends(links, |links|, s, x)
    ensures SourcesOf(shown[n], t, |shown[n]|) == SourcesOf(shown[0], t, |shown[0]|)
  {
    if n > 0 {
      ShownKeepsSources(links, shown, n - 1, t);
      assert AddsBranches(links[n - 1], shown[n - 1], shown[n]);
      var p, q := shown[n - 1], shown[n];
      var more := q[|p|..];
      assert q == p + more;
      forall i | 0 <= i < |more|
        ensures more[i] in p
      {
        assert more[i] == q[|p| + i];
        assert Branches(links, |links|, more[i].0, more[i].1);
        ShownPairs(links, shown, n - 1, more[i].0, more[i].1);
      }
      RepeatedPairs(p, more, t, |more|);
    }
  }

  // ----- The stored nodes as links -----

  function BranchAt(s: StoredNode, field: string): set<Key> {
    match KeyAt(s.rest, field)
    case None => {}
    case Some(t) => if t == "" then {} else {t}
  }

  function LinksOf(s: StoredNode): Links {
    Links(s.key, s.dependsOn, if s.kind == "condition" then
        BranchAt(s, "true_next") + BranchAt(s, "false_next") else {})
  }

  function AllLinks(stored: seq<StoredNode>): (r: seq<Links>)
    ensures |r| == |stored| && forall i :: 0 <= i < |r| ==> r[i] == LinksOf(stored[i])
  {
    seq(|stored|, i requires 0 <= i < |stored| => LinksOf(stored[i]))
  }

  predicate IsTrimmed(k: Key) {
    Strip(k) == k
  }

  ghost predicate IsTrimmedLinks(l: Links) {
    IsTrimmed(l.key) && (forall d :: d in l.deps ==> IsTrimmed(d)) && (forall t :: t in l.branches ==> IsTrimmed(t))
  }

  lemma PairsAppend(edges: seq<Edge>, more: seq<Edge>)
    ensures Pairs(edges + more) == Pairs(edges) + Pairs(more)
  {
  }

  lemma {:induction false} StoredEdgesAreLinks(stored: seq<StoredNode>, n: nat)
    requires n <= |stored| && forall i :: 0 <= i < |stored| ==> IsTrimmedLinks(LinksOf(stored[i]))
    ensures Pairs(StoredEdges(stored, n)) == AllLinkPairs(AllLinks(stored), n)
  {
    if n > 0 {
      StoredEdgesAreLinks(stored, n - 1);
      PairsAppend(StoredEdges(stored, n - 1), DependencyEdgesOf(stored[n - 1]));
      NodeEdgesAreLinks(stored[n - 1]);
    }
  }

  lemma NodeEdgesAreLinks(s: StoredNode)
    requires IsTrimmedLinks(LinksOf(s))
    ensures Pairs(DependencyEdgesOf(s)) == LinkPairs(LinksOf(s))
  {
    forall i | 0 <= i < |s.dependsOn| ensures Strip(s.dependsOn[i]) == s.dependsOn[i] {
      assert s.dependsOn[i] in LinksOf(s).deps && IsTrimmed(s.dependsOn[i]);
    }
  }

  /** Showing one branch either finds its pair or appends it. */
  lemma BranchAdds(edges: seq<Edge>, source: Key, target: Key, branch: string)
    requires IsTrimmed(source) && IsTrimmed(target) && target != ""
    ensures var p, q := Pairs(edges), Pairs(AddBranch(edges, source, Some(target), branch));
            q == p + [(source, target)] || (q == p && (source, target) in p)
  {
    match FindBranchEdge(edges, source, target, branch) {
      case Some(i) =>
        assert Pairs(edges)[i] == (source, target);
        assert Pairs(AddBranch(edges, source, Some(target), branch)) == Pairs(edges);
      case None =>
        PairsAppend(edges, [Edge(source, target, Some(branch))]);
    }
  }

  lemma FieldAdds(edges: seq<Edge>, s: StoredNode, field: string, branch: string)
    requires IsTrimmed(s.key) && forall t :: t in BranchAt(s, field) ==> IsTrimmed(t)
    ensures AddsBranches(Links(s.key, [], BranchAt(s, field)), Pairs(edges),
              Pairs(AddBranch(edges, s.key, KeyAt(s.rest, field), branch)))
  {
    var target := KeyAt(s.rest, field);
    if target.Some? && target.value != "" {
      assert target.value in BranchAt(s, field);
      BranchAdds(edges, s.key, target.value, branch);
    }
  }

  lemma AddsTransitive(k: Key, b: set<Key>, c: set<Key>, p: seq<(Key, Key)>, q: seq<(Key, Key)>, r: seq<(Key, Key)>,
        l: Links)
    requires AddsBranches(Links(k, [], b), p, q) && AddsBranches(Links(k, [], c), q, r)
    requires l.key == k && l.branches == b + c
    ensures AddsBranches(l, p, r)
  {
    forall t | t in l.branches ensures (k, t) in r {
      if t in b {
        var i :| 0 <= i < |q| && q[i] == (k, t);
        assert r[i] == (k, t);
      }
    }
    forall i | |p| <= i < |r| ensures r[i].0 == k && r[i].1 in l.branches {
      if i < |q| { assert r[i] == q[i]; }
    }
  }

  lemma NodeAdds(edges: seq<Edge>, s: StoredNode)
    requires IsTrimmedLinks(LinksOf(s))
    ensures AddsBranches(LinksOf(s), Pairs(edges), Pairs(AddBranches(edges, s)))
  {
    if s.kind == "condition" {
      var mid := AddBranch(edges, s.key, KeyAt(s.rest, "true_next"), "true");
      assert forall t :: t in BranchAt(s, "true_next") || t in BranchAt(s, "false_next") ==> t in LinksOf(s).branches;
      FieldAdds(edges, s, "true_next", "true");
      FieldAdds(mid, s, "false_next", "false");
      AddsTransitive(s.key, BranchAt(s, "true_next"), BranchAt(s, "false_next"), Pairs(edges), Pairs(mid),
          Pairs(AddBranches(edges, s)), LinksOf(s));
    }
  }

  ghost function ShownLists(stored: seq<StoredNode>): (r: seq<seq<(Key, Key)>>)
    ensures |r| == |stored| + 1 && forall i :: 0 <= i <= |stored| ==> r[i] == Pairs(ShownEdges(stored, i))
  {
    seq(|stored| + 1, i requires 0 <= i <= |stored| => Pairs(ShownEdges(stored, i)))
  }

  lemma ListsAreShown(stored: seq<StoredNode>)
    requires forall i :: 0 <= i < |stored| ==> IsTrimmedLinks(LinksOf(stored[i]))
    ensures AreShown(AllLinks(stored), ShownLists(stored))
  {
    StoredEdgesAreLinks(stored, |stored|);
    var links, shown := AllLinks(stored), ShownLists(stored);
    forall i | 0 <= i < |links|
      ensures AddsBranches(links[i], shown[i], shown[i + 1])
    {
      NodeAdds(ShownEdges(stored, i), stored[i]);
    }
  }

  // ----- What a saved workflow looks like to the runtime -----

  lemma SavedKeys(stored: seq<StoredNode>)
    requires IsSaved(stored)
    ensures DistinctLinks(AllLinks(stored))
    ensures forall k :: k in Keys(RuntimeNodes(stored)) <==> exists i :: 0 <= i < |stored| && stored[i].key == k
    ensures forall k :: k in Keys(RuntimeNodes(stored)) ==> IsTrimmed(k) && k != ""
  {
    RuntimeKeys(stored);
    forall i | 0 <= i < |stored|
      ensures NoDuplicates(stored[i].dependsOn) && IsTrimmed(stored[i].key) && stored[i].key != ""
    {
      assert IsSavedNode(stored[i]);
    }
  }

  lemma RuntimeKeys(stored: seq<StoredNode>)
    requires UniqueKeys(RuntimeNodes(stored))
    ensures forall i, j :: 0 <= i < j < |stored| ==> stored[i].key != stored[j].key
    ensures forall k :: k in Keys(RuntimeNodes(stored)) <==> exists i :: 0 <= i < |stored| && stored[i].key == k
  {
    var nodes := RuntimeNodes(stored);
    forall i, j | 0 <= i < j < |stored| ensures stored[i].key != stored[j].key {
      assert nodes[i].key != nodes[j].key;
    }
    forall k | k in Keys(nodes) ensures exists i :: 0 <= i < |stored| && stored[i].key == k {
      var i :| 0 <= i < |nodes| && nodes[i].key == Some(k);
    }
    forall i | 0 <= i < |stored| ensures stored[i].key in Keys(nodes) {
      assert nodes[i] in nodes;
    }
  }

  lemma ConditionKind(kind: string)
    ensures ParseKind(kind).Condition? <==> kind == "condition"
  {
  }

  /** The branch targets of a stored node are the keys its runtime node routes to. */
  lemma BranchesAreRoutes(s: StoredNode, t: Key)
    requires t != ""
    ensures t in LinksOf(s).branches <==> RoutesTo(RuntimeNode(s), t)
  {
    ConditionKind(s.kind);
  }

  /** A node accepted among trimmed keys has trimmed links, which lead to those keys. */
  lemma LinksAreKnown(s: StoredNode, keys: set<Key>)
    requires Complaint(RuntimeNode(s), keys).None? && s.key in keys
    requires forall k :: k in keys ==> IsTrimmed(k)
    ensures IsTrimmedLinks(LinksOf(s))
    ensures forall t :: t in LinksOf(s).branches ==> t in keys
  {
    var n := RuntimeNode(s);
    forall t | t in LinksOf(s).branches
      ensures t in keys
    {
      BranchesAreRoutes(s, t);
      assert n.trueNext == Some(t) || n.falseNext == Some(t);
    }
  }

  lemma SavedIsTrimmed(stored: seq<StoredNode>, i: nat)
    requires IsSaved(stored) && i < |stored|
    ensures IsTrimmedLinks(LinksOf(stored[i]))
    ensures forall t :: t in LinksOf(stored[i]).branches ==> t in Keys(RuntimeNodes(stored))
  {
    SavedKeys(stored);
    NodeIsAccepted(RuntimeNodes(stored), i);
    LinksAreKnown(stored[i], Keys(RuntimeNodes(stored)));
  }

  lemma NodeIsAccepted(nodes: seq<Node>, i: nat)
    requires WellFormed(nodes) && i < |nodes|
    ensures Complaint(nodes[i], Keys(nodes)).None?
  {
  }

  lemma DependsIsEdge(stored: seq<StoredNode>, s: Key, t: Key)
    ensures Depends(AllLinks(stored), |stored|, s, t) <==> (s, t) in DependencyEdges(RuntimeNodes(stored))
  {
    var nodes, links := RuntimeNodes(stored), AllLinks(stored);
    if Depends(links, |stored|, s, t) {
      var i :| 0 <= i < |links| && links[i].key == t && s in links[i].deps;
      assert nodes[i] in nodes && nodes[i].key == Some(t) && s in nodes[i].dependsOn;
    }
    if (s, t) in DependencyEdges(nodes) {
      var n :| n in nodes && n.key == Some(t) && s in n.dependsOn;
      var i :| 0 <= i < |nodes| && nodes[i] == n;
      assert links[i].key == t && s in links[i].deps;
    }
  }

  ghost predicate IsRoute(nodes: seq<Node>, s: Key, t: Key) {
    exists c, n :: c in nodes && n in nodes && c.key == Some(s) && n.key == Some(t) && RoutesTo(c, t)
  }

  lemma BranchesIsRoute(stored: seq<StoredNode>, s: Key, t: Key)
    requires IsSaved(stored)
    ensures Branches(AllLinks(stored), |stored|, s, t) <==> IsRoute(RuntimeNodes(stored), s, t)
  {
    SavedKeys(stored);
    var nodes, links := RuntimeNodes(stored), AllLinks(stored);
    if Branches(links, |stored|, s, t) {
      var i :| 0 <= i < |links| && links[i].key == s && t in links[i].branches;
      SavedIsTrimmed(stored, i);
      BranchesAreRoutes(stored[i], t);
      RouteExists(nodes, i, t);
    }
    if IsRoute(nodes, s, t) {
      var c, n :| c in nodes && n in nodes && c.key == Some(s) && n.key == Some(t) && RoutesTo(c, t);
      var i :| 0 <= i < |nodes| && nodes[i] == c;
      assert t in Keys(nodes);
      BranchesAreRoutes(stored[i], t);
      assert links[i].key == s && t in links[i].branches;
    }
  }

  lemma RouteExists(nodes: seq<Node>, i: nat, t: Key)
    requires i < |nodes| && nodes[i].key.Some? && RoutesTo(nodes[i], t) && t in Keys(nodes)
    ensures IsRoute(nodes, nodes[i].key.value, t)
  {
    var n :| n in nodes && n.key == Some(t);
    assert nodes[i] in nodes;
  }

  lemma SchedulingEdgeIs(nodes: seq<Node>, s: Key, t: Key)
    ensures (s, t) in SchedulingEdges(nodes) <==> (s, t) in DependencyEdges(nodes) || IsRoute(nodes, s, t)
  {
  }

  /** The edges shown by loading are exactly the scheduling edges of the runtime. */
  lemma ShownIsScheduling(stored: seq<StoredNode>, s: Key, t: Key)
    requires IsSaved(stored)
    ensures (s, t) in Pairs(ShownEdges(stored, |stored|)) <==> (s, t) in SchedulingEdges(RuntimeNodes(stored))
  {
    forall i | 0 <= i < |stored| ensures IsTrimmedLinks(LinksOf(stored[i])) {
      SavedIsTrimmed(stored, i);
    }
    ListsAreShown(stored);
    ShownPairs(AllLinks(stored), ShownLists(stored), |stored|, s, t);
    DependsIsEdge(stored, s, t);
    BranchesIsRoute(stored, s, t);
    SchedulingEdgeIs(RuntimeNodes(stored), s, t);
  }

  // ----- Saving what was loaded -----

  lemma SameFieldsSameVerdict(kind: string, c: Config, d: Config)
    requires forall k :: k != "depends_on" ==> (k in c <==> k in d) && (k in c ==> c[k] == d[k])
    ensures InvalidField(kind, c) == InvalidField(kind, d)
  {
  }

  /** Saving a loaded node keeps its key, type and root fields, and it stays valid. */
  lemma ResavedNode(s: StoredNode, dependsOn: seq<Key>)
    requires IsSavedNode(s) && NoDuplicates(dependsOn)
    ensures BuildNode(LoadNode(s), dependsOn).Ok?
    ensures IsResaved(s, BuildNode(LoadNode(s), dependsOn).value, dependsOn)
  {
    var config := MergedConfig(LoadNode(s));
    assert forall k :: k != "depends_on" ==>
        (k in config <==> k in s.config) && (k in config ==> config[k] == s.config[k]);
    SameFieldsSameVerdict(s.kind, config, s.config);
    assert WorkflowEditor.Without(config, OWN_NAMES) == WorkflowEditor.Without(s.config, OWN_NAMES);
  }

  /** r is s saved again, with the given dependencies. */
  ghost predicate IsResaved(s: StoredNode, r: StoredNode, dependsOn: seq<Key>) {
    && IsSavedNode(r) && r.key == s.key && r.kind == s.kind && r.rest == s.rest && r.dependsOn == dependsOn
    && r.caption == (if s.caption != "" then s.caption else s.key)
    && forall f :: f != "depends_on" ==>
         (f in r.config <==> f in s.config) && (f in s.config ==> r.config[f] == s.config[f])
  }

  ghost function ResavedDeps(stored: seq<StoredNode>, k: Key): seq<Key> {
    var p := Pairs(ShownEdges(stored, |stored|));
    SourcesOf(p, k, |p|)
  }

  lemma BuildStep(nodes: seq<EditorNode>, edges: seq<Edge>, n: nat, one: StoredNode)
    requires n < |nodes| && BuildNodes(nodes, edges, n).Ok?
    requires BuildNode(nodes[n], SourcesOf(Pairs(edges), IdOf(nodes[n]), |edges|)) == Ok(one)
    ensures BuildNodes(nodes, edges, n + 1) == Ok(BuildNodes(nodes, edges, n).value + [one])
  {
  }

  lemma LoadedId(s: StoredNode)
    requires s.key != ""
    ensures IdOf(LoadNode(s)) == s.key
  {
  }

  ghost predicate ResavedUpTo(stored: seq<StoredNode>, next: seq<StoredNode>) {
    && |next| <= |stored|
    && forall i {:trigger next[i]} :: 0 <= i < |next| ==>
         IsResaved(stored[i], next[i], ResavedDeps(stored, stored[i].key))
  }

  lemma ResavedOne(stored: seq<StoredNode>, n: nat) returns (one: StoredNode)
    requires n < |stored| && IsSavedNode(stored[n])
    ensures BuildNode(LoadNode(stored[n]), ResavedDeps(stored, stored[n].key)) == Ok(one)
    ensures IsResaved(stored[n], one, ResavedDeps(stored, stored[n].key))
  {
    var deps := ResavedDeps(stored, stored[n].key);
    SourcesArePaired(Pairs(ShownEdges(stored, |stored|)), stored[n].key, |ShownEdges(stored, |stored|)|);
    ResavedNode(stored[n], deps);
    one := BuildNode(LoadNode(stored[n]), deps).value;
  }

  lemma ResavedOneMore(stored: seq<StoredNode>, next: seq<StoredNode>, one: StoredNode)
    requires ResavedUpTo(stored, next) && |next| < |stored|
    requires IsResaved(stored[|next|], one, ResavedDeps(stored, stored[|next|].key))
    ensures ResavedUpTo(stored, next + [one])
  {
  }

  lemma ResavedNext(stored: seq<StoredNode>, n: nat, earlier: seq<StoredNode>) returns (next: seq<StoredNode>)
    requires n < |stored| && AllSavedNodes(stored) && |earlier| == n && ResavedUpTo(stored, earlier)
    requires BuildNodes(LoadNodes(stored), ShownEdges(stored, |stored|), n) == Ok(earlier)
    ensures BuildNodes(LoadNodes(stored), ShownEdges(stored, |stored|), n + 1) == Ok(next)
    ensures |next| == n + 1 && ResavedUpTo(stored, next)
  {
    assert IsSavedNode(stored[n]);
    var one := ResavedOne(stored, n);
    LoadedId(stored[n]);
    BuildStep(LoadNodes(stored), ShownEdges(stored, |stored|), n, one);
    ResavedOneMore(stored, earlier, one);
    next := earlier + [one];
  }

  lemma {:induction false} ResavedNodes(stored: seq<StoredNode>, n: nat) returns (next: seq<StoredNode>)
    requires n <= |stored| && AllSavedNodes(stored)
    ensures BuildNodes(LoadNodes(stored), ShownEdges(stored, |stored|), n) == Ok(next)
    ensures |next| == n && ResavedUpTo(stored, next)
  {
    if n == 0 {
      next := [];
    } else {
      var earlier := ResavedNodes(stored, n - 1);
      next := ResavedNext(stored, n - 1, earlier);
    }
  }

  /** The dependencies after saving again are the dependencies and the condition parents. */
  lemma ResavedDepsAre(stored: seq<StoredNode>, k: Key)
    requires IsSaved(stored)
    ensures forall d :: d in ResavedDeps(stored, k) <==> (d, k) in SchedulingEdges(RuntimeNodes(stored))
  {
    var p := Pairs(ShownEdges(stored, |stored|));
    SourcesArePaired(p, k, |p|);
    assert p[..|p|] == p;
    forall d ensures (d, k) in p <==> (d, k) in SchedulingEdges(RuntimeNodes(stored)) {
      ShownIsScheduling(stored, d, k);
    }
  }

  ghost predicate AllResaved(stored: seq<StoredNode>, next: seq<StoredNode>) {
    |next| == |stored| && ResavedUpTo(stored, next)
  }

  lemma ResavedRuntime(stored: seq<StoredNode>, next: seq<StoredNode>)
    requires IsSaved(stored) && AllResaved(stored, next)
    ensures Keys(RuntimeNodes(next)) == Keys(RuntimeNodes(stored))
    ensures forall i :: 0 <= i < |stored| ==>
              RuntimeNodes(next)[i] == RuntimeNodes(stored)[i].(dependsOn := ResavedDeps(stored, stored[i].key))
  {
    var a, b := RuntimeNodes(stored), RuntimeNodes(next);
    forall k | k in Keys(a) ensures k in Keys(b) {
      var i :| 0 <= i < |a| && a[i].key == Some(k);
      assert b[i] in b;
    }
    forall k | k in Keys(b) ensures k in Keys(a) {
      var i :| 0 <= i < |b| && b[i].key == Some(k);
      assert a[i] in a;
    }
  }

  lemma ResavedIsRoute(stored: seq<StoredNode>, next: seq<StoredNode>, s: Key, t: Key)
    requires IsSaved(stored) && AllResaved(stored, next)
    ensures IsRoute(RuntimeNodes(next), s, t) <==> IsRoute(RuntimeNodes(stored), s, t)
  {
    ResavedRuntime(stored, next);
    RouteCarries(RuntimeNodes(stored), RuntimeNodes(next), s, t);
    RouteCarries(RuntimeNodes(next), RuntimeNodes(stored), s, t);
  }

  lemma RouteCarries(a: seq<Node>, b: seq<Node>, s: Key, t: Key)
    requires |a| == |b|
    requires forall i :: 0 <= i < |a| ==> a[i].key == b[i].key && (forall k :: RoutesTo(a[i], k) <==> RoutesTo(b[i], k))
    ensures IsRoute(a, s, t) ==> IsRoute(b, s, t)
  {
    if IsRoute(a, s, t) {
      var c, n :| c in a && n in a && c.key == Some(s) && n.key == Some(t) && RoutesTo(c, t);
      var i :| 0 <= i < |a| && a[i] == c;
      var j :| 0 <= j < |a| && a[j] == n;
      assert b[i] in b && b[j] in b && b[j].key == Some(t);
      RouteExists(b, i, t);
    }
  }

  lemma ResavedDependency(stored: seq<StoredNode>, next: seq<StoredNode>, s: Key, t: Key)
    requires IsSaved(stored) && AllResaved(stored, next)
    ensures (s, t) in DependencyEdges(RuntimeNodes(next)) <==> (s, t) in SchedulingEdges(RuntimeNodes(stored))
  {
    ResavedDepsAre(stored, t);
    DependsIsEdge(next, s, t);
    var links := AllLinks(next);
    if Depends(links, |links|, s, t) {
      var i :| 0 <= i < |links| && links[i].key == t && s in links[i].deps;
      assert IsResaved(stored[i], next[i], ResavedDeps(stored, stored[i].key));
    }
    if (s, t) in SchedulingEdges(RuntimeNodes(stored)) {
      EdgesStayInside(RuntimeNodes(stored));
      SavedKeys(stored);
      var i :| 0 <= i < |stored| && stored[i].key == t;
      assert IsResaved(stored[i], next[i], ResavedDeps(stored, stored[i].key));
      assert links[i].key == t && s in links[i].deps;
    }
  }

  /** Saving again turns every scheduling edge into a dependency and adds no other edge. */
  lemma ResavedEdges(stored: seq<StoredNode>, next: seq<StoredNode>)
    requires IsSaved(stored) && AllResaved(stored, next)
    ensures DependencyEdges(RuntimeNodes(next)) == SchedulingEdges(RuntimeNodes(stored))
    ensures SchedulingEdges(RuntimeNodes(next)) == SchedulingEdges(RuntimeNodes(stored))
  {
    var e, f, g := SchedulingEdges(RuntimeNodes(stored)), DependencyEdges(RuntimeNodes(next)),
        SchedulingEdges(RuntimeNodes(next));
    forall s, t
      ensures ((s, t) in f <==> (s, t) in e) && ((s, t) in g <==> (s, t) in e)
    {
      ResavedDependency(stored, next, s, t);
      SchedulingEdgeIs(RuntimeNodes(stored), s, t);
      SchedulingEdgeIs(RuntimeNodes(next), s, t);
      ResavedIsRoute(stored, next, s, t);
    }
    SamePairsSameEdges(e, f);
    SamePairsSameEdges(e, g);
  }

  lemma SamePairsSameEdges(e: Edges, f: Edges)
    requires forall s, t :: (s, t) in e <==> (s, t) in f
    ensures e == f
  {
    forall x | x in e ensures x in f {
      assert (x.0, x.1) in e;
    }
    forall x | x in f ensures x in e {
      assert (x.0, x.1) in f;
    }
  }

  lemma NewDepsAreAccepted(n: Node, ds: seq<Key>, keys: set<Key>)
    requires Complaint(n, keys).None? && forall d :: d in ds ==> d in keys
    ensures Complaint(n.(dependsOn := ds), keys).None?
  {
  }

  lemma SameKeysUnique(a: seq<Node>, b: seq<Node>)
    requires UniqueKeys(a) && |a| == |b| && forall i :: 0 <= i < |a| ==> a[i].key == b[i].key
    ensures UniqueKeys(b)
  {
    forall i, j | 0 <= i < j < |b| ensures b[i].key != b[j].key {
      assert a[i].key != a[j].key;
    }
  }

  lemma ResavedIsAccepted(stored: seq<StoredNode>, next: seq<StoredNode>, i: nat)
    requires IsSaved(stored) && AllResaved(stored, next) && i < |next|
    ensures Complaint(RuntimeNodes(next)[i], Keys(RuntimeNodes(next))).None?
  {
    ResavedRuntime(stored, next);
    NodeIsAccepted(RuntimeNodes(stored), i);
    ResavedDepsAre(stored, stored[i].key);
    EdgesStayInside(RuntimeNodes(stored));
    NewDepsAreAccepted(RuntimeNodes(stored)[i], ResavedDeps(stored, stored[i].key), Keys(RuntimeNodes(stored)));
  }

  lemma ResavedIsSaved(stored: seq<StoredNode>, next: seq<StoredNode>)
    requires IsSaved(stored) && AllResaved(stored, next)
    ensures IsSaved(next)
  {
    ResavedEdges(stored, next);
    ResavedRuntime(stored, next);
    SameKeysUnique(RuntimeNodes(stored), RuntimeNodes(next));
    forall i | 0 <= i < |next|
      ensures Complaint(RuntimeNodes(next)[i], Keys(RuntimeNodes(next))).None? && IsSavedNode(next[i])
    {
      ResavedIsAccepted(stored, next, i);
      assert IsResaved(stored[i], next[i], ResavedDeps(stored, stored[i].key));
    }
  }

  lemma LoadedIds(stored: seq<StoredNode>)
    requires IsSaved(stored)
    ensures GoodIds(NodeIds(LoadNodes(stored)))
    ensures forall k :: k in Keys(RuntimeNodes(stored)) <==> k in NodeIds(LoadNodes(stored))
  {
    var ids, links := NodeIds(LoadNodes(stored)), AllLinks(stored);
    SavedKeys(stored);
    forall i | 0 <= i < |ids| ensures ids[i] == links[i].key && ids[i] == stored[i].key && ids[i] != "" {
      assert IsSavedNode(stored[i]);
      LoadedId(stored[i]);
    }
    forall k | k in Keys(RuntimeNodes(stored)) ensures k in ids {
      var i :| 0 <= i < |stored| && stored[i].key == k;
      assert ids[i] == k;
    }
  }

  lemma ShownEdgeIsGood(stored: seq<StoredNode>, e: Edge, known: set<string>)
    requires IsSaved(stored) && (Strip(e.source), Strip(e.target)) in SchedulingEdges(RuntimeNodes(stored))
    requires forall k :: k in Keys(RuntimeNodes(stored)) ==> k in known && k != ""
    ensures !IsBadEdge(e, known)
  {
    var edges, s, t := SchedulingEdges(RuntimeNodes(stored)), Strip(e.source), Strip(e.target);
    EdgesStayInside(RuntimeNodes(stored));
    if s == t {
      ReachesSelf(edges, s);
      ReachesStep(edges, s, s, s);
    }
  }

  /** No edge shown by loading is refused by saving. */
  lemma ShownEdgesAreGood(stored: seq<StoredNode>)
    requires IsSaved(stored)
    ensures GoodIds(NodeIds(LoadNodes(stored)))
    ensures NoBadEdgeBefore(ShownEdges(stored, |stored|), Elements(NodeIds(LoadNodes(stored))),
              |ShownEdges(stored, |stored|)|)
  {
    var edges, known := ShownEdges(stored, |stored|), Elements(NodeIds(LoadNodes(stored)));
    LoadedIds(stored);
    SavedKeys(stored);
    forall i | 0 <= i < |edges|
      ensures !IsBadEdge(edges[i], known)
    {
      var s, t := Strip(edges[i].source), Strip(edges[i].target);
      assert Pairs(edges)[i] == (s, t);
      ShownIsScheduling(stored, s, t);
      ShownEdgeIsGood(stored, edges[i], known);
    }
  }

  /** What saving the loaded nodes and the shown edges builds. */
  function SavedAgain(stored: seq<StoredNode>): Result<seq<StoredNode>, PayloadError> {
    BuildNodes(LoadNodes(stored), ShownEdges(stored, |stored|), |stored|)
  }

  /** Loading a saved workflow and saving what is shown is accepted, keeps keys, types and root
      fields, and makes the dependencies of each node its old dependencies plus the conditions
      that route to it.  The result is again a saved workflow. */
  lemma RoundTrip(stored: seq<StoredNode>)
    requires IsSaved(stored)
    ensures var r := SavedAgain(stored);
            && r.Ok? && IsPayload(LoadNodes(stored), ShownEdges(stored, |stored|), r)
            && IsSaved(r.value) && AllResaved(stored, r.value)
            && forall i, d :: 0 <= i < |stored| ==>
                 (d in r.value[i].dependsOn <==> (d, stored[i].key) in SchedulingEdges(RuntimeNodes(stored)))
  {
    var next := ResavedNodes(stored, |stored|);
    ResavedIsSaved(stored, next);
    ShownEdgesAreGood(stored);
    forall i, d | 0 <= i < |stored|
      ensures d in next[i].dependsOn <==> (d, stored[i].key) in SchedulingEdges(RuntimeNodes(stored))
    {
      ResavedDepsAre(stored, stored[i].key);
    }
  }

  /** The order in which the nodes run does not change. */
  lemma RoundTripKeepsOrder(stored: seq<StoredNode>, next: seq<StoredNode>, r: seq<Node>, t: seq<Node>)
    requires IsSaved(stored) && AllResaved(stored, next)
    requires IsSchedule(RuntimeNodes(stored), r) && IsSchedule(RuntimeNodes(next), t)
    requires (forall n :: n in r ==> n.key.Some?) && (forall n :: n in t ==> n.key.Some?)
    ensures KeySeq(r) == KeySeq(t)
  {
    ResavedEdges(stored, next);
    ResavedRuntime(stored, next);
    SameEdgesSameKeyOrder(RuntimeNodes(stored), RuntimeNodes(next), r, t);
  }

  /** After a save every branch is a dependency too. */
  lemma BranchIsDepended(next: seq<StoredNode>, s: Key, t: Key)
    requires IsSaved(next) && SchedulingEdges(RuntimeNodes(next)) == DependencyEdges(RuntimeNodes(next))
    requires Branches(AllLinks(next), |next|, s, t)
    ensures Depends(AllLinks(next), |next|, s, t)
  {
    BranchesIsRoute(next, s, t);
    SchedulingEdgeIs(RuntimeNodes(next), s, t);
    DependsIsEdge(next, s, t);
  }

  /** A second round trip changes no dependency list, not even in its order. */
  lemma SecondRoundTripIsIdentity(stored: seq<StoredNode>, next: seq<StoredNode>, last: seq<StoredNode>)
    requires IsSaved(stored) && AllResaved(stored, next) && AllResaved(next, last)
    ensures forall i :: 0 <= i < |stored| ==> last[i].dependsOn == next[i].dependsOn
  {
    ResavedIsSaved(stored, next);
    ResavedEdges(stored, next);
    SavedKeys(next);
    forall i | 0 <= i < |next| ensures IsTrimmedLinks(LinksOf(next[i])) {
      SavedIsTrimmed(next, i);
    }
    ListsAreShown(next);
    var links, shown := AllLinks(next), ShownLists(next);
    forall s, t | Branches(links, |links|, s, t)
      ensures Depends(links, |links|, s, t)
    {
      BranchIsDepended(next, s, t);
    }
    forall i | 0 <= i < |next|
      ensures last[i].dependsOn == next[i].dependsOn
    {
      ShownKeepsSources(links, shown, |links|, links[i].key);
      LinkSources(links, |links|, i);
    }
  }

  // ----- What saving leaves behind -----

  ghost predicate IsPlainNode(n: EditorNode) {
    Strip(IdOf(n)) == IdOf(n) && MergedConfig(n).Keys !! STRUCTURAL_NAMES
  }

  ghost predicate ArePlain(nodes: seq<EditorNode>) {
    forall i {:trigger nodes[i]} :: 0 <= i < |nodes| ==> IsPlainNode(nodes[i])
  }

  ghost predicate HaveIds(nodes: seq<EditorNode>) {
    forall i {:trigger nodes[i]} :: 0 <= i < |nodes| ==> IdOf(nodes[i]) != ""
  }

  lemma KindIsNamed(n: EditorNode)
    requires "kind" !in MergedConfig(n)
    ensures KindOf(n) != ""
  {
  }

  lemma BuiltNodeIsSaved(n: EditorNode, pairs: seq<(Key, Key)>)
    requires IsPlainNode(n) && IdOf(n) != ""
    requires BuildNode(n, SourcesOf(pairs, IdOf(n), |pairs|)).Ok?
    ensures IsSavedNode(BuildNode(n, SourcesOf(pairs, IdOf(n), |pairs|)).value)
  {
    SourcesArePaired(pairs, IdOf(n), |pairs|);
    assert "kind" in STRUCTURAL_NAMES;
    KindIsNamed(n);
  }

  lemma {:induction false} BuiltNodesAreSaved(nodes: seq<EditorNode>, edges: seq<Edge>, n: nat)
    requires n <= |nodes| && BuildNodes(nodes, edges, n).Ok?
    requires ArePlain(nodes) && HaveIds(nodes)
    ensures AllSavedNodes(BuildNodes(nodes, edges, n).value)
  {
    if n > 0 {
      BuiltNodesAreSaved(nodes, edges, n - 1);
      var earlier := BuildNodes(nodes, edges, n - 1).value;
      assert IsPlainNode(nodes[n - 1]) && IdOf(nodes[n - 1]) != "";
      BuiltNodeIsSaved(nodes[n - 1], Pairs(edges));
      var all := BuildNodes(nodes, edges, n).value;
      forall i | 0 <= i < n ensures IsSavedNode(all[i]) {
        if i < n - 1 { assert IsSavedNode(earlier[i]); }
      }
    }
  }

  /** Whatever workflow_payload accepts, for trimmed ids and configs without structural names, is
      a saved workflow, so the round trip applies to it. */
  lemma AcceptedIsSaved(nodes: seq<EditorNode>, edges: seq<Edge>, stored: seq<StoredNode>)
    requires IsPayload(nodes, edges, Ok(stored))
    requires ArePlain(nodes)
    ensures IsSaved(stored)
  {
    forall i | 0 <= i < |nodes| ensures IdOf(nodes[i]) != "" {
      assert IsPlainNode(nodes[i]) && NodeIds(nodes)[i] in NodeIds(nodes);
    }
    BuiltNodesAreSaved(nodes, edges, |nodes|);
  }
}
