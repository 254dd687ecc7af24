// Saving and loading workflows for the visual editor: workflow_payload and workflow_out in
// app/routers/workflows.py.

module WorkflowEditor {
  import opened Base
  import opened Graph
  import opened Workflow
  import opened WorkflowOrder

  type Config = map<string, Json>

  /** The "data" object of an editor node; missing parts are "" and {}. */
  datatype EditorData = EditorData(kind: string, caption: string, config: Config)

  /** A node as the editor exchanges it.  rest holds the fields without a name of their own here. */
  datatype EditorNode = EditorNode(id: string, key: string, kind: string, caption: string, data: EditorData,
      config: Config, rest: Config)

  datatype Edge = Edge(source: string, target: string, handle: Option<string>)

  /** A node as it is stored: key, type, label, config and depends_on, and the remaining fields,
      which are the entries of config lifted to the root of the node. */
  datatype StoredNode = StoredNode(key: Key, kind: string, caption: string, config: Config, rest: Config,
      dependsOn: seq<Key>)

  datatype PayloadError =
    | NodesRequired
    | InvalidWorkflow
    | EdgeInvalid(index: nat)
    | NodeInvalid(nodeId: string, field: string)
    | OrderRejected

  // ----- str.strip -----

  const WHITESPACE := {' ', '\t', '\n', '\r', '\U{0B}', '\U{0C}', '\U{1C}', '\U{1D}', '\U{1E}', '\U{1F}',
      '\U{85}', '\U{A0}'}

  function StripLeft(s: string): string {
    if s != [] && s[0] in WHITESPACE then StripLeft(s[1..]) else s
  }

  function StripRight(s: string): string {
    if s != [] && s[|s| - 1] in WHITESPACE then StripRight(s[..|s| - 1]) else s
  }

  function Strip(s: string): string {
    StripRight(StripLeft(s))
  }

  // ----- _validate_node_config -----

  /** not str(config.get(name, "")).strip(): only a missing value or a blank string is blank. */
  predicate IsBlank(c: Config, name: string) {
    name !in c || (c[name].JStr? && Strip(c[name].s) == "")
  }

  /** Python's truth test. */
  predicate IsTruthy(v: Json) {
    match v
    case JNull => false
    case JBool(b) => b
    case JNum(n) => n != 0.0
    case JStr(s) => s != ""
    case JList(items) => items != []
    case JObj(fields) => fields != map[]
  }

  predicate IsTruthyAt(c: Config, name: string) {
    name in c && IsTruthy(c[name])
  }

  const OPERATORS := {"equals", "not_equals", "contains", "not_contains", "greater_than", "less_than", "regex_match"}

  /** The first field that the type of the node makes invalid, if any. */
  function InvalidField(kind: string, c: Config): Option<string> {
    if kind == "model" then
      if IsBlank(c, "prompt") then Some("prompt") else None
    else if kind == "tool" then
      var chosen := if IsTruthyAt(c, "tool_id") then "tool_id" else "tool_name";
      if IsBlank(c, chosen) || !IsTruthyAt(c, chosen) then Some("tool_id")
      else if "input" in c && !c["input"].JObj? then Some("input")
      else None
    else if kind == "condition" then
      if !("condition_type" in c && c["condition_type"] == JStr("comparison")) then Some("condition_type")
      else if IsBlank(c, "left") then Some("left")
      else if !("operator" in c && c["operator"].JStr? && c["operator"].s in OPERATORS) then Some("operator")
      else if !("right" in c && c["right"] != JNull) || IsBlank(c, "right") then Some("right")
      else if IsBlank(c, "true_next") then Some("true_next")
      else if IsBlank(c, "false_next") then Some("false_next")
      else None
    else None
  }

  // ----- Saving -----

  function IdOf(n: EditorNode): string {
    if n.id != "" then n.id else n.key
  }

  function NodeIds(nodes: seq<EditorNode>): (ids: seq<string>)
    ensures |ids| == |nodes|
  {
    seq(|nodes|, i requires 0 <= i < |nodes| => Strip(IdOf(nodes[i])))
  }

  ghost predicate GoodIds(ids: seq<string>) {
    NoDuplicates(ids) && "" !in ids
  }

  predicate IsBadEdge(e: Edge, known: set<string>) {
    var source, target := Strip(e.source), Strip(e.target);
    source == "" || target == "" || source !in known || target !in known || source == target
  }

  /** Source and target of each edge, stripped. */
  function Pairs(edges: seq<Edge>): (p: seq<(Key, Key)>)
    ensures |p| == |edges|
  {
    seq(|edges|, i requires 0 <= i < |edges| => (Strip(edges[i].source), Strip(edges[i].target)))
  }

  /** The sources of the first n pairs with target t, each once, in order of first appearance. */
  function SourcesOf(pairs: seq<(Key, Key)>, t: Key, n: nat): seq<Key>
    requires n <= |pairs|
  {
    if n == 0 then []
    else
      var earlier := SourcesOf(pairs, t, n - 1);
      if pairs[n - 1].1 == t && pairs[n - 1].0 !in earlier then earlier + [pairs[n - 1].0] else earlier
  }

  /** Names that the stored node sets itself, whatever its config says. */
  const OWN_NAMES := {"key", "type", "label", "config", "depends_on"}

  function Without(c: Config, names: set<string>): Config {
    map k | k in c && k !in names :: c[k]
  }

  function MergedConfig(n: EditorNode): Config {
    n.rest + n.config + n.data.config
  }

  function KindOf(n: EditorNode): string {
    if n.data.kind != "" then n.data.kind
    else if "kind" in MergedConfig(n) && IsTruthy(MergedConfig(n)["kind"]) then
      (if MergedConfig(n)["kind"].JStr? then MergedConfig(n)["kind"].s else "?")
    else if n.kind != "" then n.kind
    else "model"
  }

  function LabelOf(n: EditorNode): string {
    if n.data.caption != "" then n.data.caption else if n.caption != "" then n.caption else IdOf(n)
  }

  function BuildNode(n: EditorNode, dependsOn: seq<Key>): Result<StoredNode, PayloadError> {
    var config := MergedConfig(n);
    match InvalidField(KindOf(n), config)
    case Some(field) => Err(NodeInvalid(IdOf(n), field))
    case None => Ok(StoredNode(IdOf(n), KindOf(n), LabelOf(n), config, Without(config, OWN_NAMES), dependsOn))
  }

  /** The stored form of the first n nodes, or the error of the first one that is invalid. */
  function BuildNodes(nodes: seq<EditorNode>, edges: seq<Edge>, n: nat): (r: Result<seq<StoredNode>, PayloadError>)
    requires n <= |nodes|
    ensures r.Ok? ==> |r.value| == n
  {
    if n == 0 then Ok([])
    else
      match BuildNodes(nodes, edges, n - 1)
      case Err(e) => Err(e)
      case Ok(earlier) =>
        match BuildNode(nodes[n - 1], SourcesOf(Pairs(edges), IdOf(nodes[n - 1]), |edges|))
        case Err(e) => Err(e)
        case Ok(stored) => Ok(earlier + [stored])
  }

  function ParseKind(kind: string): Kind {
    if kind == "start" then Start else if kind == "prepare" then Prepare else if kind == "model" then Model
    else if kind == "tool" then Tool else if kind == "condition" then Condition
    else if kind == "finalize" then Finalize else if kind == "end" then End else Unknown
  }

  function KeyAt(c: Config, name: string): Option<Key> {
    if name in c && c[name].JStr? then Some(c[name].s) else None
  }

  /** What the runtime sees of a stored node. */
  function RuntimeNode(s: StoredNode): Node {
    Node(Some(s.key), ParseKind(s.kind), s.rest.Keys + OWN_NAMES, KeyAt(s.rest, "true_next"),
        KeyAt(s.rest, "false_next"), s.dependsOn)
  }

  function RuntimeNodes(stored: seq<StoredNode>): (r: seq<Node>)
    ensures |r| == |stored| && forall i :: 0 <= i < |r| ==> r[i] == RuntimeNode(stored[i])
  {
    seq(|stored|, i requires 0 <= i < |stored| => RuntimeNode(stored[i]))
  }

  ghost predicate NoBadEdgeBefore(edges: seq<Edge>, known: set<string>, n: nat)
    requires n <= |edges|
  {
    forall i :: 0 <= i < n ==> !IsBadEdge(edges[i], known)
  }

  /** What workflow_payload answers. */
  ghost predicate IsPayload(nodes: seq<EditorNode>, edges: seq<Edge>, r: Result<seq<StoredNode>, PayloadError>) {
    var ids := NodeIds(nodes);
    if nodes == [] then r == Err(NodesRequired)
    else if !GoodIds(ids) then r == Err(InvalidWorkflow)
    else if !NoBadEdgeBefore(edges, Elements(ids), |edges|) then
      r.Err? && r.error.EdgeInvalid? && r.error.index < |edges|
      && IsBadEdge(edges[r.error.index], Elements(ids)) && NoBadEdgeBefore(edges, Elements(ids), r.error.index)
    else
      var built := BuildNodes(nodes, edges, |nodes|);
      if built.Err? then r == built
      else r == if IsOrderable(RuntimeNodes(built.value)) then built else Err(OrderRejected)
  }

  /** byTarget holds the sources of the first n pairs by their target. */
  ghost predicate GroupsPairs(pairs: seq<(Key, Key)>, n: nat, byTarget: map<Key, seq<Key>>)
    requires n <= |pairs|
  {
    forall t {:trigger SourcesOf(pairs, t, n)} ::
      SourcesOf(pairs, t, n) == if t in byTarget then byTarget[t] else []
  }

  /** edges_by_target and seen_edges after the first n edges. */
  ghost predicate GroupsEdges(pairs: seq<(Key, Key)>, n: nat, byTarget: map<Key, seq<Key>>, seen: set<(Key, Key)>)
    requires n <= |pairs|
  {
    && GroupsPairs(pairs, n, byTarget)
    && (forall s, t {:trigger (s, t) in seen} :: (s, t) in seen <==> s in SourcesOf(pairs, t, n))
  }

  method GroupEdges(edges: seq<Edge>, known: set<string>) returns (bad: Option<nat>, byTarget: map<Key, seq<Key>>)
    ensures bad.Some? ==>
              && bad.value < |edges| && IsBadEdge(edges[bad.value], known)
              && NoBadEdgeBefore(edges, known, bad.value)
    ensures bad.None? ==> NoBadEdgeBefore(edges, known, |edges|)
    ensures bad.None? ==> GroupsPairs(Pairs(edges), |edges|, byTarget)
  {
    bad, byTarget := GroupEach(edges, known, Pairs(edges));
  }

  method GroupEach(edges: seq<Edge>, known: set<string>, ghost pairs: seq<(Key, Key)>)
    returns (bad: Option<nat>, byTarget: map<Key, seq<Key>>)
    requires |pairs| == |edges|
    requires forall i :: 0 <= i < |edges| ==> pairs[i] == (Strip(edges[i].source), Strip(edges[i].target))
    ensures bad.Some? ==>
              && bad.value < |edges| && IsBadEdge(edges[bad.value], known)
              && NoBadEdgeBefore(edges, known, bad.value)
    ensures bad.None? ==> NoBadEdgeBefore(edges, known, |edges|)
    ensures bad.None? ==> GroupsPairs(pairs, |edges|, byTarget)
  {
    byTarget := map[];
    var seen: set<(Key, Key)> := {};
    GroupsNone(pairs);
    for i := 0 to |edges|
      invariant NoBadEdgeBefore(edges, known, i)
      invariant GroupsEdges(pairs, i, byTarget, seen)
    {
      if IsBadEdge(edges[i], known) {
        return Some(i), byTarget;
      }
      byTarget, seen := AddEdge(Strip(edges[i].source), Strip(edges[i].target), byTarget, seen, pairs, i);
    }
    return None, byTarget;
  }

  lemma GroupsNone(pairs: seq<(Key, Key)>)
    ensures GroupsEdges(pairs, 0, map[], {})
  {
  }

  /** An edge that was seen before changes nothing. */
  method AddEdge(source: Key, target: Key, byTarget: map<Key, seq<Key>>, seen: set<(Key, Key)>,
        ghost pairs: seq<(Key, Key)>, ghost i: nat)
    returns (byTarget': map<Key, seq<Key>>, seen': set<(Key, Key)>)
    requires i < |pairs| && pairs[i] == (source, target) && GroupsEdges(pairs, i, byTarget, seen)
    ensures IsAdded((source, target), byTarget, seen, byTarget', seen')
    ensures GroupsEdges(pairs, i + 1, byTarget', seen')
  {
    byTarget', seen' := byTarget, seen;
    if (source, target) !in seen {
      seen' := seen + {(source, target)};
      byTarget' := byTarget[target := (if target in byTarget then byTarget[target] else []) + [source]];
    }
    GroupOneMore(pairs, i, byTarget, seen, byTarget', seen');
  }

  ghost predicate IsAdded(pair: (Key, Key), byTarget: map<Key, seq<Key>>, seen: set<(Key, Key)>,
        byTarget': map<Key, seq<Key>>, seen': set<(Key, Key)>) {
    var (source, target) := pair;
    if pair in seen then seen' == seen && byTarget' == byTarget
    else
      && seen' == seen + {pair}
      && byTarget' == byTarget[target := (if target in byTarget then byTarget[target] else []) + [source]]
  }

  lemma GroupOneMore(pairs: seq<(Key, Key)>, i: nat, byTarget: map<Key, seq<Key>>, seen: set<(Key, Key)>,
                     byTarget': map<Key, seq<Key>>, seen': set<(Key, Key)>)
    requires i < |pairs| && GroupsEdges(pairs, i, byTarget, seen)
    requires IsAdded(pairs[i], byTarget, seen, byTarget', seen')
    ensures GroupsEdges(pairs, i + 1, byTarget', seen')
  {
    forall t
      ensures SourcesOf(pairs, t, i + 1) == if t in byTarget' then byTarget'[t] else []
    {
      GroupOneMoreAt(pairs, i, byTarget, seen, byTarget', seen', t);
    }
    forall s, t
      ensures (s, t) in seen' <==> s in SourcesOf(pairs, t, i + 1)
    {
      assert (s, t) in seen <==> s in SourcesOf(pairs, t, i);
      OneMoreSource(pairs, i, s, t);
    }
  }

  lemma GroupOneMoreAt(pairs: seq<(Key, Key)>, i: nat, byTarget: map<Key, seq<Key>>, seen: set<(Key, Key)>,
                       byTarget': map<Key, seq<Key>>, seen': set<(Key, Key)>, t: Key)
    requires i < |pairs| && GroupsEdges(pairs, i, byTarget, seen)
    requires IsAdded(pairs[i], byTarget, seen, byTarget', seen')
    ensures SourcesOf(pairs, t, i + 1) == if t in byTarget' then byTarget'[t] else []
  {
    var (source, target) := pairs[i];
    assert (source, target) in seen <==> source in SourcesOf(pairs, target, i);
    assert SourcesOf(pairs, t, i) == if t in byTarget then byTarget[t] else [];
  }

  lemma OneMoreSource(pairs: seq<(Key, Key)>, i: nat, s: Key, t: Key)
    requires i < |pairs|
    ensures s in SourcesOf(pairs, t, i + 1) <==> s in SourcesOf(pairs, t, i) || pairs[i] == (s, t)
  {
  }

  method WorkflowPayload(nodes: seq<EditorNode>, edges: seq<Edge>) returns (r: Result<seq<StoredNode>, PayloadError>)
    ensures IsPayload(nodes, edges, r)
  {
    if nodes == [] {
      return Err(NodesRequired);
    }
    var ids := NodeIds(nodes);
    if "" in ids || |Elements(ids)| != |ids| {
      if NoDuplicates(ids) { DistinctCardinality(ids); }
      return Err(InvalidWorkflow);
    }
    FullSetIsDistinct(ids);
    var bad, byTarget := GroupEdges(edges, Elements(ids));
    if bad.Some? {
      return Err(EdgeInvalid(bad.value));
    }
    r := BuildAll(nodes, edges, byTarget);
    if r.Ok? {
      var ordered := OrderWorkflow(RuntimeNodes(r.value));
      if ordered.Err? {
        r := Err(OrderRejected);
      }
    }
  }

  /** The stored nodes, each with the sources of the edges into it, or the first error. */
  method BuildAll(nodes: seq<EditorNode>, edges: seq<Edge>,
        byTarget: map<Key, seq<Key>>) returns (r: Result<seq<StoredNode>, PayloadError>)
    requires GroupsPairs(Pairs(edges), |edges|, byTarget)
    ensures r == BuildNodes(nodes, edges, |nodes|)
  {
    var workflow := [];
    for i := 0 to |nodes|
      invariant BuildNodes(nodes, edges, i) == Ok(workflow)
    {
      var key := IdOf(nodes[i]);
      assert SourcesOf(Pairs(edges), key, |edges|) == if key in byTarget then byTarget[key] else [];
      var built := BuildNode(nodes[i], if key in byTarget then byTarget[key] else []);
      if built.Err? {
        BuildErrorStays(nodes, edges, i + 1, |nodes|);
        return Err(built.error);
      }
      workflow := workflow + [built.value];
    }
    return Ok(workflow);
  }

  lemma {:induction false} BuildErrorStays(nodes: seq<EditorNode>, edges: seq<Edge>, m: nat, n: nat)
    requires m <= n <= |nodes| && BuildNodes(nodes, edges, m).Err?
    ensures BuildNodes(nodes, edges, n) == BuildNodes(nodes, edges, m)
  {
    if m < n { BuildErrorStays(nodes, edges, m, n - 1); }
  }

  lemma FullSetIsDistinct(s: seq<string>)
    requires |Elements(s)| == |s|
    ensures NoDuplicates(s)
  {
    forall i, j | 0 <= i < j < |s|
      ensures s[i] != s[j]
    {
      var rest := s[..j] + s[j + 1..];
      ElementsAtMost(rest);
      if s[i] == s[j] {
        assert rest[i] == s[i];
        forall x | x in s ensures x in rest {
          var k :| 0 <= k < |s| && s[k] == x;
          assert x == if k < j then rest[k] else if k == j then rest[i] else rest[k - 1];
        }
        SubsetCardinality(Elements(s), Elements(rest));
      }
    }
  }

  // ----- Loading -----

  /** A stored node as workflow_out shows it, when its config uses no structural name. */
  function LoadNode(s: StoredNode): EditorNode {
    var deps := JList(seq(|s.dependsOn|, i requires 0 <= i < |s.dependsOn| => JStr(s.dependsOn[i])));
    EditorNode(s.key, s.key, s.kind, s.caption, EditorData("", "", map[]), s.config, s.rest["depends_on" := deps])
  }

  function LoadNodes(stored: seq<StoredNode>): (r: seq<EditorNode>)
    ensures |r| == |stored| && forall i :: 0 <= i < |r| ==> r[i] == LoadNode(stored[i])
  {
    seq(|stored|, i requires 0 <= i < |stored| => LoadNode(stored[i]))
  }

  function DependencyEdgesOf(s: StoredNode): (r: seq<Edge>)
    ensures |r| == |s.dependsOn|
  {
    seq(|s.dependsOn|, i requires 0 <= i < |s.dependsOn| => Edge(s.dependsOn[i], s.key, None))
  }

  /** One edge per depends_on entry of the first n nodes. */
  function StoredEdges(stored: seq<StoredNode>, n: nat): seq<Edge>
    requires n <= |stored|
  {
    if n == 0 then [] else StoredEdges(stored, n - 1) + DependencyEdgesOf(stored[n - 1])
  }

  predicate IsBranchEdge(e: Edge, source: Key, target: Key, branch: string) {
    e.source == source && e.target == target && (e.handle == None || e.handle == Some(branch))
  }

  /** The first edge that can carry the branch. */
  function FindBranchEdge(edges: seq<Edge>, source: Key, target: Key, branch: string): (i: Option<nat>)
    ensures i.Some? ==> i.value < |edges| && IsBranchEdge(edges[i.value], source, target, branch)
  {
    if edges == [] then None
    else if IsBranchEdge(edges[0], source, target, branch) then Some(0)
    else
      match FindBranchEdge(edges[1..], source, target, branch)
      case None => None
      case Some(i) => Some(i + 1)
  }

  /** Labels an existing edge with the branch, or adds an edge for it; no target, no edge. */
  function AddBranch(edges: seq<Edge>, source: Key, target: Option<Key>, branch: string): seq<Edge> {
    if target.None? || target.value == "" then edges
    else
      match FindBranchEdge(edges, source, target.value, branch)
      case Some(i) => edges[i := edges[i].(handle := Some(branch))]
      case None => edges + [Edge(source, target.value, Some(branch))]
  }

  function AddBranches(edges: seq<Edge>, s: StoredNode): seq<Edge> {
    if s.kind != "condition" then edges
    else AddBranch(AddBranch(edges, s.key, KeyAt(s.rest, "true_next"), "true"), s.key,
      KeyAt(s.rest, "false_next"), "false")
  }

  /** The edges shown for a stored workflow, once the conditions among its first n nodes have
      been looked at. */
  function ShownEdges(stored: seq<StoredNode>, n: nat): seq<Edge>
    requires n <= |stored|
  {
    if n == 0 then StoredEdges(stored, |stored|) else AddBranches(ShownEdges(stored, n - 1), stored[n - 1])
  }

  method WorkflowOut(stored: seq<StoredNode>) returns (nodes: seq<EditorNode>, edges: seq<Edge>)
    ensures nodes == LoadNodes(stored)
    ensures edges == ShownEdges(stored, |stored|)
  {
    nodes := LoadNodes(stored);
    edges := [];
    for i := 0 to |stored|
      invariant edges == StoredEdges(stored, i)
    {
      edges := edges + DependencyEdgesOf(stored[i]);
    }
    for i := 0 to |stored|
      invariant edges == ShownEdges(stored, i)
    {
      if stored[i].kind == "condition" {
        edges := AddBranch(edges, stored[i].key, KeyAt(stored[i].rest, "true_next"), "true");
        edges := AddBranch(edges, stored[i].key, KeyAt(stored[i].rest, "false_next"), "false");
      }
    }
  }
}
