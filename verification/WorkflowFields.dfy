// What saving and loading a workflow do with every field of its nodes and edges, and exactly which
// nodes are refused.

module WorkflowFields {
  import opened Base
  import opened Graph
  import opened Workflow
  import opened WorkflowOrder
  import opened WorkflowEditor

  // ----- Trimming -----

  /** The blanks of str.strip up to the end of Latin-1, by their numbers. */
  lemma BlanksByNumber(c: char)
    ensures c in WHITESPACE <==> 9 <= c as int <= 13 || 28 <= c as int <= 32 || c as int in {0x85, 0xA0}
  {
  }

  ghost predicate IsBlankText(s: string) {
    forall i :: 0 <= i < |s| ==> s[i] in WHITESPACE
  }

  /** t is s without the blanks around it. */
  ghost predicate IsTrimmed(s: string, t: string) {
    exists lo: nat, hi: nat :: TrimsTo(s, t, lo, hi)
  }

  ghost predicate TrimsTo(s: string, t: string, lo: nat, hi: nat) {
    && lo <= hi <= |s| && t == s[lo..hi] && IsBlankText(s[..lo]) && IsBlankText(s[hi..])
    && (t != [] ==> t[0] !in WHITESPACE && t[|t| - 1] !in WHITESPACE)
  }

  lemma {:induction false} LeftIsTrimmed(s: string) returns (lo: nat)
    ensures lo <= |s| && StripLeft(s) == s[lo..] && IsBlankText(s[..lo])
    ensures lo < |s| ==> s[lo] !in WHITESPACE
  {
    if s != [] && s[0] in WHITESPACE {
      var k := LeftIsTrimmed(s[1..]);
      lo := k + 1;
      assert s[..lo] == [s[0]] + s[1..][..k];
    } else {
      lo := 0;
    }
  }

  lemma {:induction false} RightIsTrimmed(s: string) returns (hi: nat)
    ensures hi <= |s| && StripRight(s) == s[..hi] && IsBlankText(s[hi..])
    ensures hi > 0 ==> s[hi - 1] !in WHITESPACE
  {
    if s != [] && s[|s| - 1] in WHITESPACE {
      hi := RightIsTrimmed(s[..|s| - 1]);
      assert s[hi..] == s[..|s| - 1][hi..] + [s[|s| - 1]];
    } else {
      hi := |s|;
    }
  }

  lemma StripTrims(s: string)
    ensures IsTrimmed(s, Strip(s)) && (Strip(s) == "" <==> IsBlankText(s))
  {
    var lo := LeftIsTrimmed(s);
    var k := RightIsTrimmed(s[lo..]);
    assert s[lo..][..k] == s[lo..lo + k] && s[lo..][k..] == s[lo + k..];
    assert TrimsTo(s, Strip(s), lo, lo + k);
    AroundIsBlank(s, lo, lo + k);
    if k > 0 { EndsAreKept(s, lo, lo + k); }
  }

  /** There is one way to trim a string. */
  lemma TrimmedIsStrip(s: string, t: string)
    ensures IsTrimmed(s, t) <==> t == Strip(s)
  {
    StripTrims(s);
    if IsTrimmed(s, t) {
      var lo: nat, hi: nat := TrimmedAt(s, t);
      var lo', hi' := TrimmedAt(s, Strip(s));
      if lo < hi {
        EndsAreKept(s, lo, hi);
        if lo' == hi' { NothingLeft(s, lo', hi'); }
        TrimStartsAlike(s, lo, hi, lo', hi');
        TrimStartsAlike(s, lo', hi', lo, hi);
      } else {
        NothingLeft(s, lo, hi);
        if lo' < hi' { EndsAreKept(s, lo', hi'); }
      }
    }
  }

  lemma TrimmedAt(s: string, t: string) returns (lo: nat, hi: nat)
    requires IsTrimmed(s, t)
    ensures TrimsTo(s, t, lo, hi)
  {
    lo :| exists hi: nat :: TrimsTo(s, t, lo, hi);
    hi :| TrimsTo(s, t, lo, hi);
  }

  lemma AroundIsBlank(s: string, lo: nat, hi: nat)
    requires lo <= hi <= |s| && IsBlankText(s[..lo]) && IsBlankText(s[hi..])
    ensures forall i :: 0 <= i < lo || hi <= i < |s| ==> s[i] in WHITESPACE
  {
    forall i | 0 <= i < lo || hi <= i < |s| ensures s[i] in WHITESPACE {
      assert s[i] == if i < lo then s[..lo][i] else s[hi..][i - hi];
    }
  }

  lemma EndsAreKept(s: string, lo: nat, hi: nat)
    requires lo < hi <= |s| && TrimsTo(s, s[lo..hi], lo, hi)
    ensures s[lo] !in WHITESPACE && s[hi - 1] !in WHITESPACE
  {
    assert s[lo..hi][0] == s[lo] && s[lo..hi][hi - lo - 1] == s[hi - 1];
  }

  lemma TrimStartsAlike(s: string, lo: nat, hi: nat, lo': nat, hi': nat)
    requires lo < hi <= |s| && lo' < hi' <= |s| && TrimsTo(s, s[lo..hi], lo, hi) && TrimsTo(s, s[lo'..hi'], lo', hi')
    ensures lo <= lo' && hi' <= hi
  {
    AroundIsBlank(s, lo, hi);
    EndsAreKept(s, lo', hi');
  }

  lemma NothingLeft(s: string, lo: nat, hi: nat)
    requires lo == hi <= |s| && TrimsTo(s, s[lo..hi], lo, hi)
    ensures forall i :: 0 <= i < |s| ==> s[i] in WHITESPACE
  {
    AroundIsBlank(s, lo, hi);
  }

  // ----- What is stored of a node -----

  /** The config of a saved node has field f from the node's data, else from its config, else from its root. */
  ghost predicate TakesField(n: EditorNode, c: Config, f: string) {
    if f in n.data.config then f in c && c[f] == n.data.config[f]
    else if f in n.config then f in c && c[f] == n.config[f]
    else if f in n.rest then f in c && c[f] == n.rest[f]
    else f !in c
  }

  ghost predicate IsConfigOf(n: EditorNode, c: Config) {
    forall f :: TakesField(n, c, f)
  }

  /** The type of a node comes from its data, else from its config unless that is false, else from its root.  Any value
      that is no string stands for an unknown type. */
  ghost predicate IsKindOf(n: EditorNode, c: Config, kind: string) {
    if n.data.kind != "" then kind == n.data.kind
    else if "kind" in c && c["kind"] !in {JNull, JBool(false), JNum(0.0), JStr(""), JList([]), JObj(map[])} then
      kind == if c["kind"].JStr? then c["kind"].s else "?"
    else kind == if n.kind != "" then n.kind else "model"
  }

  predicate IsIdOf(n: EditorNode, id: string) {
    id == if n.id != "" then n.id else n.key
  }

  ghost predicate IsLabelOf(n: EditorNode, caption: string) {
    if n.data.caption != "" then caption == n.data.caption
    else if n.caption != "" then caption == n.caption
    else IsIdOf(n, caption)
  }

  /** The fields at the root of a stored node: those of its config, except the ones with a meaning of their own. */
  ghost predicate IsRestOf(c: Config, rest: Config) {
    && (forall f :: f in rest <==> f in c && f !in {"key", "type", "label", "config", "depends_on"})
    && forall f :: f in rest ==> f in c && rest[f] == c[f]
  }

  /** Some edge leads from source to target, once its ends are trimmed. */
  ghost predicate IsLinked(edges: seq<Edge>, source: Key, target: Key) {
    exists e :: e in edges && IsTrimmed(e.source, source) && IsTrimmed(e.target, target)
  }

  lemma BuiltNode(n: EditorNode, deps: seq<Key>)
    requires BuildNode(n, deps).Ok?
    ensures var s := BuildNode(n, deps).value;
            && IsIdOf(n, s.key) && IsConfigOf(n, s.config) && IsKindOf(n, s.config, s.kind) && IsLabelOf(n, s.caption)
            && IsRestOf(s.config, s.rest) && s.dependsOn == deps
  {
  }

  lemma {:induction false} BuiltNodes(nodes: seq<EditorNode>, edges: seq<Edge>, n: nat, i: nat)
    requires i < n <= |nodes| && BuildNodes(nodes, edges, n).Ok?
    ensures BuildNode(nodes[i], SourcesOf(Pairs(edges), IdOf(nodes[i]), |edges|)) ==
            Ok(BuildNodes(nodes, edges, n).value[i])
  {
    if i < n - 1 { BuiltNodes(nodes, edges, n - 1, i); }
  }

  lemma {:induction false} SourcesAreLinked(edges: seq<Edge>, t: Key, n: nat)
    requires n <= |edges|
    ensures NoDuplicates(SourcesOf(Pairs(edges), t, n))
    ensures forall s :: s in SourcesOf(Pairs(edges), t, n) <==> IsLinked(edges[..n], s, t)
  {
    if n > 0 {
      SourcesAreLinked(edges, t, n - 1);
      assert edges[..n] == edges[..n - 1] + [edges[n - 1]];
      TrimmedIsStrip(edges[n - 1].target, t);
      forall s {:trigger IsTrimmed(edges[n - 1].source, s)}
        ensures IsTrimmed(edges[n - 1].source, s) <==> s == Strip(edges[n - 1].source)
      {
        TrimmedIsStrip(edges[n - 1].source, s);
      }
    }
  }

  /** Every node of an accepted payload is stored with the configuration that the editor shows, field by field, and
      with its own identifier, type and label; it depends on exactly the sources of the edges that lead to it. */
  lemma SavedFieldByField(nodes: seq<EditorNode>, edges: seq<Edge>, stored: seq<StoredNode>, i: nat)
    requires IsPayload(nodes, edges, Ok(stored)) && i < |nodes|
    ensures |stored| == |nodes|
    ensures var n, s := nodes[i], stored[i];
            && IsIdOf(n, s.key) && IsConfigOf(n, s.config) && IsKindOf(n, s.config, s.kind) && IsLabelOf(n, s.caption)
            && IsRestOf(s.config, s.rest)
            && NoDuplicates(s.dependsOn) && forall d :: d in s.dependsOn <==> IsLinked(edges, d, s.key)
  {
    BuiltNodes(nodes, edges, |nodes|, i);
    BuiltNode(nodes[i], SourcesOf(Pairs(edges), IdOf(nodes[i]), |edges|));
    SourcesAreLinked(edges, IdOf(nodes[i]), |edges|);
    assert edges[..|edges|] == edges;
  }

  // ----- Which nodes are refused -----

  /** The field is there, and more than blanks. */
  ghost predicate HasText(c: Config, f: string) {
    f in c && (c[f].JStr? ==> !IsBlankText(c[f].s))
  }

  ghost predicate IsFalse(c: Config, f: string) {
    f in c ==> c[f] in {JNull, JBool(false), JNum(0.0), JStr(""), JList([]), JObj(map[])}
  }

  /** A tool is chosen: by its identifier, or by its name if the identifier is missing or false. */
  ghost predicate ChoosesTool(c: Config) {
    if IsFalse(c, "tool_id") then !IsFalse(c, "tool_name") && HasText(c, "tool_name") else HasText(c, "tool_id")
  }

  predicate HasOperator(c: Config) {
    "operator" in c && c["operator"].JStr?
    && c["operator"].s in {"equals", "not_equals", "contains", "not_contains", "greater_than", "less_than",
         "regex_match"}
  }

  /** The field for which a node of the type is refused. */
  ghost predicate IsRefusedFor(kind: string, c: Config, f: string) {
    match kind
    case "model" => f == "prompt" && !HasText(c, "prompt")
    case "tool" =>
      || (f == "tool_id" && !ChoosesTool(c))
      || (f == "input" && ChoosesTool(c) && "input" in c && !c["input"].JObj?)
    case "condition" =>
      var isComparison := "condition_type" in c && c["condition_type"] == JStr("comparison");
      var hasRight := HasText(c, "right") && c["right"] != JNull;
      || (f == "condition_type" && !isComparison)
      || (f == "left" && isComparison && !HasText(c, "left"))
      || (f == "operator" && isComparison && HasText(c, "left") && !HasOperator(c))
      || (isComparison && HasText(c, "left") && HasOperator(c) &&
            (|| (f == "right" && !hasRight)
             || (f == "true_next" && hasRight && !HasText(c, "true_next"))
             || (f == "false_next" && hasRight && HasText(c, "true_next") && !HasText(c, "false_next"))))
    case _ => false
  }

  lemma BlankExactly(c: Config, f: string)
    ensures IsBlank(c, f) <==> !HasText(c, f)
    ensures IsTruthyAt(c, f) <==> !IsFalse(c, f)
  {
    if f in c && c[f].JStr? { StripTrims(c[f].s); }
  }

  lemma InvalidFieldExactly(kind: string, c: Config, f: string)
    ensures InvalidField(kind, c) == Some(f) <==> IsRefusedFor(kind, c, f)
  {
    BlankExactly(c, "prompt");
    BlankExactly(c, "tool_id");
    BlankExactly(c, "tool_name");
    BlankExactly(c, "left");
    BlankExactly(c, "right");
    BlankExactly(c, "true_next");
    BlankExactly(c, "false_next");
  }

  ghost predicate IsRefused(kind: string, c: Config) {
    exists f :: IsRefusedFor(kind, c, f)
  }

  /** Node i is the first that is refused, and f the field. */
  ghost predicate IsFirstRefused(configs: seq<Config>, kinds: seq<string>, i: nat, f: string)
    requires |configs| == |kinds| && i < |kinds|
  {
    IsRefusedFor(kinds[i], configs[i], f) && forall j :: 0 <= j < i ==> !IsRefused(kinds[j], configs[j])
  }

  ghost predicate AreConfigsOf(nodes: seq<EditorNode>, configs: seq<Config>, kinds: seq<string>) {
    && |configs| == |kinds| == |nodes|
    && forall i :: 0 <= i < |nodes| ==> IsConfigOf(nodes[i], configs[i]) && IsKindOf(nodes[i], configs[i], kinds[i])
  }

  lemma NodeIsRefusedExactly(n: EditorNode, deps: seq<Key>, c: Config, kind: string)
    requires IsConfigOf(n, c) && IsKindOf(n, c, kind)
    ensures var r := BuildNode(n, deps);
            if r.Err? then
              r.error.NodeInvalid? && IsRefusedFor(kind, c, r.error.field) && IsIdOf(n, r.error.nodeId)
            else !IsRefused(kind, c)
  {
    ConfigIsUnique(n, c);
    KindIsUnique(n, c, kind);
    var v := InvalidField(kind, c);
    if v.Some? { InvalidFieldExactly(kind, c, v.value); }
    forall f | v.None? ensures !IsRefusedFor(kind, c, f) { InvalidFieldExactly(kind, c, f); }
  }

  lemma KindIsUnique(n: EditorNode, c: Config, kind: string)
    requires c == MergedConfig(n) && IsKindOf(n, c, kind)
    ensures kind == KindOf(n)
  {
  }

  lemma ConfigIsUnique(n: EditorNode, c: Config)
    requires IsConfigOf(n, c)
    ensures c == MergedConfig(n)
  {
    forall f ensures TakesField(n, MergedConfig(n), f) {}
    forall f ensures (f in c <==> f in MergedConfig(n)) && (f in c ==> c[f] == MergedConfig(n)[f]) {
      assert TakesField(n, c, f) && TakesField(n, MergedConfig(n), f);
    }
  }

  /** Saving nodes refuses the first that is refused, for its field, and no list without one. */
  lemma {:induction false} NodesAreRefusedExactly(nodes: seq<EditorNode>, edges: seq<Edge>, configs: seq<Config>,
        kinds: seq<string>, n: nat)
    requires AreConfigsOf(nodes, configs, kinds) && n <= |nodes|
    ensures var r := BuildNodes(nodes, edges, n);
            if r.Err? then
              r.error.NodeInvalid?
              && exists i :: 0 <= i < n && IsFirstRefused(configs, kinds, i, r.error.field)
                   && IsIdOf(nodes[i], r.error.nodeId)
            else forall i :: 0 <= i < n ==> !IsRefused(kinds[i], configs[i])
  {
    if n > 0 {
      NodesAreRefusedExactly(nodes, edges, configs, kinds, n - 1);
      if BuildNodes(nodes, edges, n - 1).Ok? {
        LastNodeIsRefused(nodes, edges, configs, kinds, n);
      }
    }
  }

  lemma LastNodeIsRefused(nodes: seq<EditorNode>, edges: seq<Edge>, configs: seq<Config>, kinds: seq<string>, n: nat)
    requires AreConfigsOf(nodes, configs, kinds) && 0 < n <= |nodes| && BuildNodes(nodes, edges, n - 1).Ok?
    requires forall i :: 0 <= i < n - 1 ==> !IsRefused(kinds[i], configs[i])
    ensures var r := BuildNodes(nodes, edges, n);
            if r.Err? then
              r.error.NodeInvalid? && IsFirstRefused(configs, kinds, n - 1, r.error.field)
              && IsIdOf(nodes[n - 1], r.error.nodeId)
            else !IsRefused(kinds[n - 1], configs[n - 1])
  {
    var m := nodes[n - 1];
    NodeIsRefusedExactly(m, SourcesOf(Pairs(edges), IdOf(m), |edges|), configs[n - 1], kinds[n - 1]);
  }

  // ----- Which identifiers and edges are refused -----

  /** t is the trimmed identifier of a node. */
  ghost predicate IsIdText(nodes: seq<EditorNode>, t: string) {
    exists n :: n in nodes && HasId(n, t)
  }

  ghost predicate HasId(n: EditorNode, t: string) {
    IsTrimmed(if n.id != "" then n.id else n.key, t)
  }

  /** An identifier is blank, or two nodes share one. */
  ghost predicate HasBadIds(nodes: seq<EditorNode>) {
    || IsIdText(nodes, "")
    || exists i, j, t :: 0 <= i < j < |nodes| && HasId(nodes[i], t) && HasId(nodes[j], t)
  }

  /** An end of the edge is blank or no node, or both are the same. */
  ghost predicate IsBad(nodes: seq<EditorNode>, e: Edge) {
    exists s, t :: IsTrimmed(e.source, s) && IsTrimmed(e.target, t)
                   && (s == "" || t == "" || !IsIdText(nodes, s) || !IsIdText(nodes, t) || s == t)
  }

  lemma IdsExactly(nodes: seq<EditorNode>)
    ensures forall t :: IsIdText(nodes, t) <==> t in NodeIds(nodes)
    ensures forall i :: 0 <= i < |nodes| ==> HasId(nodes[i], NodeIds(nodes)[i])
  {
    forall n: EditorNode, t {:trigger HasId(n, t)} ensures HasId(n, t) <==> t == Strip(IdOf(n)) {
      TrimmedIsStrip(IdOf(n), t);
    }
    forall t | t in NodeIds(nodes) ensures IsIdText(nodes, t) {
      var i :| 0 <= i < |nodes| && NodeIds(nodes)[i] == t;
      assert nodes[i] in nodes && HasId(nodes[i], t);
    }
    forall t | IsIdText(nodes, t) ensures t in NodeIds(nodes) {
      var n :| n in nodes && HasId(n, t);
      var i :| 0 <= i < |nodes| && nodes[i] == n;
      assert NodeIds(nodes)[i] == t;
    }
  }

  lemma BadIdsExactly(nodes: seq<EditorNode>)
    ensures HasBadIds(nodes) <==> !GoodIds(NodeIds(nodes))
  {
    IdsExactly(nodes);
    var ids := NodeIds(nodes);
    if i, j, t :| 0 <= i < j < |nodes| && HasId(nodes[i], t) && HasId(nodes[j], t) {
      TrimmedIsStrip(IdOf(nodes[i]), t);
      TrimmedIsStrip(IdOf(nodes[j]), t);
      assert ids[i] == ids[j];
    }
    if i, j :| 0 <= i < j < |ids| && ids[i] == ids[j] {
      assert HasId(nodes[i], ids[i]) && HasId(nodes[j], ids[i]);
    }
  }

  lemma BadEdgeExactly(nodes: seq<EditorNode>, e: Edge)
    ensures IsBad(nodes, e) <==> IsBadEdge(e, Elements(NodeIds(nodes)))
  {
    IdsExactly(nodes);
    StripTrims(e.source);
    StripTrims(e.target);
    forall s, t | IsTrimmed(e.source, s) && IsTrimmed(e.target, t)
      ensures s == Strip(e.source) && t == Strip(e.target) {
      TrimmedIsStrip(e.source, s);
      TrimmedIsStrip(e.target, t);
    }
  }

  /** Every answer of saving: no nodes, bad identifiers, the first bad edge, the first refused node, nodes that do not
      order, or the stored nodes. */
  lemma AnswersExactly(nodes: seq<EditorNode>, edges: seq<Edge>, r: Result<seq<StoredNode>, PayloadError>,
        configs: seq<Config>, kinds: seq<string>)
    requires IsPayload(nodes, edges, r) && AreConfigsOf(nodes, configs, kinds)
    ensures r == Err(NodesRequired) <==> nodes == []
    ensures r == Err(InvalidWorkflow) <==> nodes != [] && HasBadIds(nodes)
    ensures r.Err? && r.error.EdgeInvalid? <==>
            nodes != [] && !HasBadIds(nodes) && exists e :: e in edges && IsBad(nodes, e)
    ensures r.Err? && r.error.EdgeInvalid? ==>
              && r.error.index < |edges| && IsBad(nodes, edges[r.error.index])
              && forall i :: 0 <= i < r.error.index ==> !IsBad(nodes, edges[i])
    ensures r.Err? && r.error.NodeInvalid? <==>
            && nodes != [] && !HasBadIds(nodes) && (forall e :: e in edges ==> !IsBad(nodes, e))
            && exists i :: 0 <= i < |nodes| && IsRefused(kinds[i], configs[i])
    ensures r.Err? && r.error.NodeInvalid? ==>
              exists i :: 0 <= i < |nodes| && IsFirstRefused(configs, kinds, i, r.error.field)
                          && IsIdOf(nodes[i], r.error.nodeId)
  {
    BadIdsExactly(nodes);
    forall e ensures IsBad(nodes, e) <==> IsBadEdge(e, Elements(NodeIds(nodes))) { BadEdgeExactly(nodes, e); }
    assert (exists e :: e in edges && IsBad(nodes, e)) <==> !NoBadEdgeBefore(edges, Elements(NodeIds(nodes)), |edges|);
    NodesAreRefusedExactly(nodes, edges, configs, kinds, |nodes|);
  }

  // ----- What is shown of a stored workflow -----

  /** A stored node is shown under its key, with its type, label and config, and with the fields of its root and its
      dependencies. */
  lemma LoadedFieldByField(stored: seq<StoredNode>, i: nat)
    requires i < |stored|
    ensures |LoadNodes(stored)| == |stored|
    ensures var s, n := stored[i], LoadNodes(stored)[i];
            && n.id == s.key && n.key == s.key && n.kind == s.kind && n.caption == s.caption && n.config == s.config
            && n.data == EditorData("", "", map[])
            && (forall f :: f in n.rest <==> f in s.rest || f == "depends_on")
            && (forall f :: f in s.rest && f != "depends_on" ==> n.rest[f] == s.rest[f])
            && n.rest["depends_on"].JList? && |n.rest["depends_on"].items| == |s.dependsOn|
            && forall d :: 0 <= d < |s.dependsOn| ==> n.rest["depends_on"].items[d] == JStr(s.dependsOn[d])
  {
  }

  /** A condition names the target under "true_next" or "false_next", as the branch says. */
  ghost predicate IsBranch(stored: seq<StoredNode>, source: Key, target: Key, branch: string) {
    && target != "" && branch in {"true", "false"}
    && exists s :: s in stored && s.kind == "condition" && s.key == source
                   && var field := if branch == "true" then "true_next" else "false_next";
                      field in s.rest && s.rest[field] == JStr(target)
  }

  lemma {:induction false} FoundEdgeIsFirst(edges: seq<Edge>, source: Key, target: Key, branch: string)
    ensures FindBranchEdge(edges, source, target, branch).None? ==>
              forall e :: e in edges ==> !IsBranchEdge(e, source, target, branch)
  {
    if edges != [] { FoundEdgeIsFirst(edges[1..], source, target, branch); }
  }

  /** Showing a branch labels one edge for it, and takes no label away. */
  lemma BranchIsLabelled(edges: seq<Edge>, source: Key, target: Option<Key>, branch: string, e: Edge)
    ensures var r := AddBranch(edges, source, target, branch);
            && (e.handle.Some? ==>
                  (e in r <==>
                   (e in edges || (target.Some? && target.value != ""
                       && e == Edge(source, target.value, Some(branch))))))
            && (e.handle.None? && e in r ==> e in edges)
  {
    if target.Some? && target.value != "" {
      var i := FindBranchEdge(edges, source, target.value, branch);
      var labelled := Edge(source, target.value, Some(branch));
      if i.Some? {
        var r := edges[i.value := edges[i.value].(handle := Some(branch))];
        assert r[i.value] == labelled;
        if e in edges && e.handle.Some? {
          var j :| 0 <= j < |edges| && edges[j] == e;
          assert r[j] == if j == i.value then labelled else e;
        }
      }
    }
  }

  lemma BranchesAreLabelled(edges: seq<Edge>, s: StoredNode, e: Edge)
    ensures var r := AddBranches(edges, s);
            && (e.handle.Some? ==>
                  (e in r <==> e in edges || IsBranch([s], e.source, e.target, e.handle.value)))
            && (e.handle.None? && e in r ==> e in edges)
  {
    if s.kind == "condition" {
      var yes := AddBranch(edges, s.key, KeyAt(s.rest, "true_next"), "true");
      BranchIsLabelled(edges, s.key, KeyAt(s.rest, "true_next"), "true", e);
      BranchIsLabelled(yes, s.key, KeyAt(s.rest, "false_next"), "false", e);
    }
    assert s in [s];
  }

  lemma {:induction false} StoredEdgesArePlain(stored: seq<StoredNode>, n: nat)
    requires n <= |stored|
    ensures forall e :: e in StoredEdges(stored, n) ==> e.handle.None?
    ensures forall d, k :: Edge(d, k, None) in StoredEdges(stored, n) <==> IsDependency(stored[..n], d, k)
  {
    if n > 0 {
      StoredEdgesArePlain(stored, n - 1);
      assert stored[..n] == stored[..n - 1] + [stored[n - 1]];
      forall d, k {:trigger Edge(d, k, None)}
        ensures Edge(d, k, None) in DependencyEdgesOf(stored[n - 1]) <==>
                stored[n - 1].key == k && d in stored[n - 1].dependsOn
      {
        DependencyEdge(stored[n - 1], d, k);
      }
    }
  }

  ghost predicate IsDependency(stored: seq<StoredNode>, d: Key, k: Key) {
    exists s :: s in stored && s.key == k && d in s.dependsOn
  }

  lemma DependencyEdge(s: StoredNode, d: Key, k: Key)
    ensures Edge(d, k, None) in DependencyEdgesOf(s) <==> s.key == k && d in s.dependsOn
  {
    if s.key == k && d in s.dependsOn {
      var i :| 0 <= i < |s.dependsOn| && s.dependsOn[i] == d;
      assert DependencyEdgesOf(s)[i] == Edge(d, k, None);
    }
  }

  lemma {:induction false} LabelsUpTo(stored: seq<StoredNode>, n: nat, e: Edge)
    requires n <= |stored|
    ensures e.handle.Some? ==>
              (e in ShownEdges(stored, n) <==> IsBranch(stored[..n], e.source, e.target, e.handle.value))
    ensures e.handle.None? && e in ShownEdges(stored, n) ==> IsDependency(stored, e.source, e.target)
  {
    if n == 0 {
      StoredEdgesArePlain(stored, |stored|);
      assert stored[..|stored|] == stored;
    } else {
      LabelsUpTo(stored, n - 1, e);
      BranchesAreLabelled(ShownEdges(stored, n - 1), stored[n - 1], e);
      assert stored[..n] == stored[..n - 1] + [stored[n - 1]];
    }
  }

  /** The edge to the target of "true_next" carries "true" and that of "false_next" carries "false", no other edge
      carries a label, and an edge without one is a dependency. */
  lemma LabelsExactly(stored: seq<StoredNode>, e: Edge)
    ensures e.handle.Some? ==>
              (e in ShownEdges(stored, |stored|) <==> IsBranch(stored, e.source, e.target, e.handle.value))
    ensures e.handle.None? && e in ShownEdges(stored, |stored|) ==> IsDependency(stored, e.source, e.target)
  {
    LabelsUpTo(stored, |stored|, e);
    assert stored[..|stored|] == stored;
  }

  // ----- Every edge is shown once -----

  /** An edge that can carry the branch: from the source to the target, without a label or with that one. */
  predicate CanCarry(e: Edge, source: Key, target: Key, branch: string) {
    e == Edge(source, target, None) || e == Edge(source, target, Some(branch))
  }

  ghost predicate IsFirstCarrier(edges: seq<Edge>, i: nat, source: Key, target: Key, branch: string) {
    && i < |edges| && CanCarry(edges[i], source, target, branch)
    && forall j :: 0 <= j < i ==> !CanCarry(edges[j], source, target, branch)
  }

  lemma {:induction false} FoundIsFirstCarrier(edges: seq<Edge>, source: Key, target: Key, branch: string)
    ensures match FindBranchEdge(edges, source, target, branch)
            case None => forall e :: e in edges ==> !CanCarry(e, source, target, branch)
            case Some(i) => IsFirstCarrier(edges, i, source, target, branch)
  {
    if edges != [] && !CanCarry(edges[0], source, target, branch) {
      FoundIsFirstCarrier(edges[1..], source, target, branch);
      assert forall j :: 0 < j < |edges| ==> edges[j] == edges[1..][j - 1];
    }
  }

  /** Showing a branch labels the first edge that can carry it, or adds one at the end if none can. */
  lemma BranchTakesFirstEdge(edges: seq<Edge>, source: Key, target: Key, branch: string)
    requires target != ""
    ensures var r, labelled := AddBranch(edges, source, Some(target), branch), Edge(source, target, Some(branch));
            if forall e :: e in edges ==> !CanCarry(e, source, target, branch) then r == edges + [labelled]
            else exists i: nat :: IsFirstCarrier(edges, i, source, target, branch) && r == edges[i := labelled]
  {
    FoundIsFirstCarrier(edges, source, target, branch);
  }

  /** The branch takes its place from the edge without a label. */
  lemma BranchReplacesPlainEdge(edges: seq<Edge>, source: Key, target: Key, branch: string)
    requires target != "" && NoDuplicates(edges) && Edge(source, target, Some(branch)) !in edges
    ensures var r, labelled := AddBranch(edges, source, Some(target), branch), Edge(source, target, Some(branch));
            && NoDuplicates(r)
            && forall e :: e in r <==> e == labelled || (e in edges && e != Edge(source, target, None))
  {
    BranchTakesFirstEdge(edges, source, target, branch);
    var r, labelled := AddBranch(edges, source, Some(target), branch), Edge(source, target, Some(branch));
    if i: nat :| IsFirstCarrier(edges, i, source, target, branch) && r == edges[i := labelled] {
      assert edges[i] == Edge(source, target, None) && r[i] == labelled;
      forall e ensures e in r <==> e == labelled || (e in edges && e != Edge(source, target, None)) {
        if e in edges && e != Edge(source, target, None) {
          var j :| 0 <= j < |edges| && edges[j] == e;
          assert r[j] == e;
        }
      }
    }
  }

  ghost predicate IsRouted(stored: seq<StoredNode>, source: Key, target: Key) {
    IsBranch(stored, source, target, "true") || IsBranch(stored, source, target, "false")
  }

  lemma BranchesReplacePlainEdges(edges: seq<Edge>, s: StoredNode)
    requires NoDuplicates(edges) && forall e :: e in edges && e.handle.Some? ==> e.source != s.key
    ensures var r := AddBranches(edges, s);
            && NoDuplicates(r)
            && forall d, k :: Edge(d, k, None) in r <==> Edge(d, k, None) in edges && !IsRouted([s], d, k)
  {
    assert s in [s];
    if s.kind == "condition" {
      var yes, no := KeyAt(s.rest, "true_next"), KeyAt(s.rest, "false_next");
      if yes.Some? && yes.value != "" { BranchReplacesPlainEdge(edges, s.key, yes.value, "true"); }
      if no.Some? && no.value != "" {
        BranchReplacesPlainEdge(AddBranch(edges, s.key, yes, "true"), s.key, no.value, "false");
      }
    }
  }

  /** Nodes have distinct keys and repeat no dependency, as saved ones do. */
  ghost predicate AreDistinct(stored: seq<StoredNode>) {
    && (forall i, j :: 0 <= i < j < |stored| ==> stored[i].key != stored[j].key)
    && forall i :: 0 <= i < |stored| ==> NoDuplicates(stored[i].dependsOn)
  }

  lemma {:induction false} StoredEdgesAreDistinct(stored: seq<StoredNode>, n: nat)
    requires AreDistinct(stored) && n <= |stored|
    ensures NoDuplicates(StoredEdges(stored, n))
    ensures forall e :: e in StoredEdges(stored, n) ==> exists i :: 0 <= i < n && stored[i].key == e.target
  {
    if n > 0 {
      StoredEdgesAreDistinct(stored, n - 1);
      var last := DependencyEdgesOf(stored[n - 1]);
      assert forall e :: e in last ==> e.target == stored[n - 1].key;
      assert NoDuplicates(last);
    }
  }

  lemma {:induction false} ShownUpTo(stored: seq<StoredNode>, n: nat)
    requires AreDistinct(stored) && n <= |stored|
    ensures NoDuplicates(ShownEdges(stored, n))
    ensures forall d, k :: Edge(d, k, None) in ShownEdges(stored, n) <==>
                           IsDependency(stored, d, k) && !IsRouted(stored[..n], d, k)
  {
    if n == 0 {
      StoredEdgesAreDistinct(stored, |stored|);
      StoredEdgesArePlain(stored, |stored|);
      assert stored[..|stored|] == stored;
    } else {
      ShownUpTo(stored, n - 1);
      var before, s := ShownEdges(stored, n - 1), stored[n - 1];
      forall e | e in before && e.handle.Some? ensures e.source != s.key { LabelsUpTo(stored, n - 1, e); }
      BranchesReplacePlainEdges(before, s);
      assert stored[..n] == stored[..n - 1] + [s];
    }
  }

  /** No edge is shown twice, and one without a label is shown for exactly the dependencies that are no branches. */
  lemma ShownOnce(stored: seq<StoredNode>)
    requires AreDistinct(stored)
    ensures NoDuplicates(ShownEdges(stored, |stored|))
    ensures forall d, k :: Edge(d, k, None) in ShownEdges(stored, |stored|) <==>
                           IsDependency(stored, d, k) && !IsRouted(stored, d, k)
  {
    ShownUpTo(stored, |stored|);
    assert stored[..|stored|] == stored;
  }

  // ----- What the runtime sees -----

  /** The types by their names. */
  lemma KindsByName(kind: string)
    ensures ParseKind(kind) == Start <==> kind == "start"
    ensures ParseKind(kind) == Prepare <==> kind == "prepare"
    ensures ParseKind(kind) == Model <==> kind == "model"
    ensures ParseKind(kind) == Tool <==> kind == "tool"
    ensures ParseKind(kind) == Condition <==> kind == "condition"
    ensures ParseKind(kind) == Finalize <==> kind == "finalize"
    ensures ParseKind(kind) == End <==> kind == "end"
  {
  }

  /** The runtime reads key, type, targets and dependencies of a stored node from its root. */
  lemma RuntimeFieldByField(stored: seq<StoredNode>, i: nat)
    requires i < |stored|
    ensures |RuntimeNodes(stored)| == |stored|
    ensures var s, n := stored[i], RuntimeNodes(stored)[i];
            && n.key == Some(s.key) && n.kind == ParseKind(s.kind) && n.dependsOn == s.dependsOn
            && n.fields == s.rest.Keys + {"key", "type", "label", "config", "depends_on"}
            && (forall k :: n.trueNext == Some(k) <==> "true_next" in s.rest && s.rest["true_next"] == JStr(k))
            && forall k :: n.falseNext == Some(k) <==> "false_next" in s.rest && s.rest["false_next"] == JStr(k)
  {
  }
}
