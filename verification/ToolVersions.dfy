// The version history of tools.  An update or a rollback reads the tool, works on its copy and
// commits later; in between other writers may commit.

module ToolVersions {
  import opened Base

  type Id = nat

  /** Stands for the SHA-256 digest of the canonical text of these three. */
  datatype Digest = DigestOf(manifest: map<string, Json>, inputSchema: Json, outputSchema: Json)

  /** Everything that a version keeps of a tool. */
  datatype Config = Config(
    name: string, description: string, executor: string, inputSchema: Json, outputSchema: Json, sideEffects: bool,
        risk: string,
    timeoutMs: int, manifest: map<string, Json>, capabilities: Json, digest: Option<Digest>, signature: string)

  datatype Tool = Tool(version: int, config: Config, isActive: bool)

  /** The fields of a ToolUpdate that were sent. */
  datatype Patch = Patch(
    name: Option<string>, description: Option<string>, executor: Option<string>, inputSchema: Option<Json>,
        outputSchema: Option<Json>,
    sideEffects: Option<bool>, risk: Option<string>, timeoutMs: Option<int>)

  /** The copy of a tool in a session: as it was read, and as it is to be committed. */
  datatype Draft = Draft(tool: Id, base: Tool, next: Tool)

  /** versions is keyed by tool and number: both together are unique. */
  datatype State = State(tools: map<Id, Tool>, versions: map<(Id, int), Config>, drafts: map<Id, Draft>)

  function Or<T>(o: Option<T>, d: T): T {
    if o.Some? then o.value else d
  }

  /** A manifest that is not empty has the digest that matches it and the schemas. */
  predicate DigestOk(c: Config) {
    c.digest == if c.manifest == map[] then None else Some(DigestOf(c.manifest, c.inputSchema, c.outputSchema))
  }

  function Updated(c: Config, p: Patch): Config {
    var d := c.(name := Or(p.name, c.name), description := Or(p.description, c.description),
        executor := Or(p.executor, c.executor),
                inputSchema := Or(p.inputSchema, c.inputSchema), outputSchema := Or(p.outputSchema, c.outputSchema),
                sideEffects := Or(p.sideEffects, c.sideEffects), risk := Or(p.risk, c.risk),
                    timeoutMs := Or(p.timeoutMs, c.timeoutMs));
    if c.manifest == map[] then d
    else d.(digest := Some(DigestOf(d.manifest, d.inputSchema, d.outputSchema)), signature := "unsigned")
  }

  /** The checks that update_tool and rollback_tool make before they change their copy; expected is
      the version of the If-Match header, if there is one. */
  function Checked(st: State, t: Id, expected: Option<int>): Result<Tool, string> {
    if t !in st.tools || !st.tools[t].isActive then Err("NOT_FOUND")
    else if expected.None? then Err("PRECONDITION_REQUIRED")
    else if expected.value != st.tools[t].version then Err("PRECONDITION_FAILED")
    else Ok(st.tools[t])
  }

  function PrepareUpdate(st: State, t: Id, expected: Option<int>, p: Patch,
        schemaError: Option<string>): Result<Draft, string> {
    match Checked(st, t, expected)
    case Err(e) => Err(e)
    case Ok(tool) =>
      if schemaError.Some? then Err(schemaError.value)
      else Ok(Draft(t, tool, tool.(version := tool.version + 1, config := Updated(tool.config, p))))
  }

  function PrepareRollback(st: State, t: Id, expected: Option<int>, target: int): Result<Draft, string> {
    match Checked(st, t, expected)
    case Err(e) => Err(e)
    case Ok(tool) =>
      if (t, target) !in st.versions then Err("VERSION_NOT_FOUND")
      else Ok(Draft(t, tool, tool.(version := tool.version + 1, config := st.versions[(t, target)])))
  }

  function Pick<T(==)>(current: T, base: T, next: T): T {
    if next == base then current else next
  }

  /** The row after a commit: only columns that the session changed are written. */
  function Merged(current: Tool, d: Draft): Tool {
    var c, b, n := current.config, d.base.config, d.next.config;
    Tool(Pick(current.version, d.base.version, d.next.version),
         Config(Pick(c.name, b.name, n.name), Pick(c.description, b.description, n.description),
             Pick(c.executor, b.executor, n.executor),
                Pick(c.inputSchema, b.inputSchema, n.inputSchema), Pick(c.outputSchema, b.outputSchema, n.outputSchema),
                Pick(c.sideEffects, b.sideEffects, n.sideEffects), Pick(c.risk, b.risk, n.risk),
                    Pick(c.timeoutMs, b.timeoutMs, n.timeoutMs),
                Pick(c.manifest, b.manifest, n.manifest), Pick(c.capabilities, b.capabilities, n.capabilities),
                Pick(c.digest, b.digest, n.digest), Pick(c.signature, b.signature, n.signature)),
         Pick(current.isActive, d.base.isActive, d.next.isActive))
  }

  datatype Action =
    | Create(t: Id, config: Config)
    | Update(s: Id, t: Id, expected: Option<int>, patch: Patch, schemaError: Option<string>)
    | Rollback(s: Id, t: Id, expected: Option<int>, target: int)
    | Commit(s: Id)
    | Delete(t: Id)

  function Begin(st: State, s: Id, draft: Result<Draft, string>): State {
    if s in st.drafts || draft.Err? then st else st.(drafts := st.drafts[s := draft.value])
  }

  /** The constraint on tool and version accepts the draft. */
  predicate IsAccepted(st: State, s: Id) {
    s in st.drafts && st.drafts[s].tool in st.tools && (st.drafts[s].tool, st.drafts[s].next.version) !in st.versions
  }

  function Committed(st: State, s: Id): State
    requires IsAccepted(st, s)
  {
    var d := st.drafts[s];
    State(st.tools[d.tool := Merged(st.tools[d.tool], d)], st.versions[(d.tool, d.next.version) := d.next.config],
        st.drafts - {s})
  }

  function Step(st: State, a: Action): State {
    match a
    case Create(t, config) =>
      // create_tool computes the digest and takes its first snapshot in the same commit
      if t in st.tools || (t, 1) in st.versions then st
      else
        var c := config.(digest := if config.manifest == map[] then None
            else Some(DigestOf(config.manifest, config.inputSchema, config.outputSchema)),
                         signature := "unsigned");
        st.(tools := st.tools[t := Tool(1, c, true)], versions := st.versions[(t, 1) := c])
    case Update(s, t, expected, patch, schemaError) => Begin(st, s, PrepareUpdate(st, t, expected, patch, schemaError))
    case Rollback(s, t, expected, target) => Begin(st, s, PrepareRollback(st, t, expected, target))
    case Commit(s) => if IsAccepted(st, s) then Committed(st, s) else st.(drafts := st.drafts - {s})
    case Delete(t) => if t in st.tools then st.(tools := st.tools[t := st.tools[t].(isActive := false)]) else st
  }

  // ----- The invariant -----

  /** The stored versions of a tool are exactly 1 to its version, and the newest is the tool as it is. */
  ghost predicate ToolOk(st: State, t: Id)
    requires t in st.tools
  {
    && st.tools[t].version >= 1
    && (forall v {:trigger (t, v)} :: (t, v) in st.versions <==> 1 <= v <= st.tools[t].version)
    && st.versions[(t, st.tools[t].version)] == st.tools[t].config
  }

  /** A draft goes one version on from one that is stored as it was read. */
  ghost predicate DraftOk(st: State, s: Id)
    requires s in st.drafts
  {
    var d := st.drafts[s];
    && d.tool in st.tools && 1 <= d.base.version <= st.tools[d.tool].version
    && (d.tool, d.base.version) in st.versions && st.versions[(d.tool, d.base.version)] == d.base.config
    && d.next.version == d.base.version + 1 && d.next.isActive == d.base.isActive && DigestOk(d.next.config)
  }

  ghost predicate VersionOk(st: State, k: (Id, int))
    requires k in st.versions
  {
    k.0 in st.tools && DigestOk(st.versions[k])
  }

  ghost predicate Good(st: State) {
    && (forall t {:trigger st.tools[t]} :: t in st.tools ==> ToolOk(st, t))
    && (forall s {:trigger st.drafts[s]} :: s in st.drafts ==> DraftOk(st, s))
    && (forall k {:trigger st.versions[k]} :: k in st.versions ==> VersionOk(st, k))
  }

  /** An accepted draft was read from the tool as it still is, so that the row becomes the draft. */
  lemma AcceptedWritesDraft(st: State, s: Id)
    requires Good(st) && IsAccepted(st, s)
    ensures var d := st.drafts[s];
            && d.base.version == st.tools[d.tool].version && d.base.config == st.tools[d.tool].config
            && Merged(st.tools[d.tool], d) == d.next.(isActive := st.tools[d.tool].isActive)
  {
    var d := st.drafts[s];
    assert DraftOk(st, s) && ToolOk(st, d.tool);
    assert (d.tool, d.next.version) !in st.versions;
  }

  /** A tool goes to a version that is new, and the version is stored with it. */
  lemma NewVersionKeeps(st: State, t: Id, tool: Tool, drafts: map<Id, Draft>)
    requires Good(st) && DigestOk(tool.config)
               && forall s :: s in drafts ==> s in st.drafts && drafts[s] == st.drafts[s]
    requires tool.version == if t in st.tools then st.tools[t].version + 1 else 1
    ensures Good(State(st.tools[t := tool], st.versions[(t, tool.version) := tool.config], drafts))
  {
    var later := State(st.tools[t := tool], st.versions[(t, tool.version) := tool.config], drafts);
    forall u | u in later.tools ensures ToolOk(later, u) { NewVersionKeepsTool(st, t, tool, drafts, u); }
    forall s | s in later.drafts ensures DraftOk(later, s) { NewVersionKeepsDraft(st, t, tool, drafts, s); }
    forall k | k in later.versions ensures VersionOk(later, k) {
      if k in st.versions { assert VersionOk(st, k); }
    }
  }

  lemma NewVersionKeepsTool(st: State, t: Id, tool: Tool, drafts: map<Id, Draft>, u: Id)
    requires Good(st) && (u == t || u in st.tools)
    requires tool.version == if t in st.tools then st.tools[t].version + 1 else 1
    ensures ToolOk(State(st.tools[t := tool], st.versions[(t, tool.version) := tool.config], drafts), u)
  {
    if u in st.tools { assert ToolOk(st, u); }
    VersionsHaveTools(st, u);
  }

  lemma VersionsHaveTools(st: State, t: Id)
    requires Good(st)
    ensures forall v {:trigger (t, v)} :: (t, v) in st.versions ==> t in st.tools
  {
    forall v {:trigger (t, v)} | (t, v) in st.versions ensures t in st.tools {
      assert VersionOk(st, (t, v));
    }
  }

  lemma NewVersionKeepsDraft(st: State, t: Id, tool: Tool, drafts: map<Id, Draft>, s: Id)
    requires Good(st) && s in drafts && s in st.drafts && drafts[s] == st.drafts[s]
    requires tool.version == if t in st.tools then st.tools[t].version + 1 else 1
    ensures DraftOk(State(st.tools[t := tool], st.versions[(t, tool.version) := tool.config], drafts), s)
  {
    assert DraftOk(st, s) && ToolOk(st, st.drafts[s].tool);
  }

  lemma CommitKeeps(st: State, s: Id)
    requires Good(st) && IsAccepted(st, s)
    ensures Good(Committed(st, s))
  {
    AcceptedWritesDraft(st, s);
    var d := st.drafts[s];
    assert DraftOk(st, s);
    NewVersionKeeps(st, d.tool, d.next.(isActive := st.tools[d.tool].isActive), st.drafts - {s});
  }

  /** Drafts begin in order. */
  lemma BeginKeeps(st: State, s: Id, draft: Result<Draft, string>)
    requires Good(st)
    requires draft.Ok? ==> DraftOk(st.(drafts := map[s := draft.value]), s)
    ensures Good(Begin(st, s, draft))
  {
    var later := Begin(st, s, draft);
    forall t | t in later.tools ensures ToolOk(later, t) { assert ToolOk(st, t); }
    forall r | r in later.drafts ensures DraftOk(later, r) {
      if r in st.drafts { assert DraftOk(st, r); }
    }
    forall k | k in later.versions ensures VersionOk(later, k) { assert VersionOk(st, k); }
  }

  lemma PrepareKeeps(st: State, s: Id, t: Id, expected: Option<int>, p: Patch, schemaError: Option<string>, target: int)
    requires Good(st)
    ensures Good(Begin(st, s, PrepareUpdate(st, t, expected, p, schemaError)))
    ensures Good(Begin(st, s, PrepareRollback(st, t, expected, target)))
  {
    if t in st.tools {
      assert ToolOk(st, t);
      assert VersionOk(st, (t, st.tools[t].version));
      if (t, target) in st.versions { assert VersionOk(st, (t, target)); }
    }
    BeginKeeps(st, s, PrepareUpdate(st, t, expected, p, schemaError));
    BeginKeeps(st, s, PrepareRollback(st, t, expected, target));
  }

  /** Dropping a draft or archiving a tool. */
  lemma OtherKeeps(st: State, later: State)
    requires Good(st) && later.versions == st.versions && later.tools.Keys == st.tools.Keys
    requires forall t {:trigger later.tools[t]} :: t in st.tools ==>
               later.tools[t] == st.tools[t].(isActive := later.tools[t].isActive)
    requires forall s :: s in later.drafts ==> s in st.drafts && later.drafts[s] == st.drafts[s]
    ensures Good(later)
  {
    forall t | t in later.tools ensures ToolOk(later, t) { assert ToolOk(st, t); }
    forall r | r in later.drafts ensures DraftOk(later, r) { assert DraftOk(st, r); }
    forall k | k in later.versions ensures VersionOk(later, k) { assert VersionOk(st, k); }
  }

  lemma CreateKeeps(st: State, t: Id, config: Config)
    requires Good(st) && t !in st.tools && (t, 1) !in st.versions
    ensures Good(Step(st, Create(t, config)))
  {
    NewVersionKeeps(st, t, Step(st, Create(t, config)).tools[t], st.drafts);
  }

  lemma EndKeeps(st: State, s: Id)
    requires Good(st)
    ensures Good(Step(st, Commit(s)))
  {
    if IsAccepted(st, s) { CommitKeeps(st, s); } else { OtherKeeps(st, Step(st, Commit(s))); }
  }

  lemma StepKeeps(st: State, a: Action)
    requires Good(st)
    ensures Good(Step(st, a))
  {
    match a {
      case Create(t, config) => if t !in st.tools && (t, 1) !in st.versions { CreateKeeps(st, t, config); }
      case Update(s, t, expected, patch, schemaError) => PrepareKeeps(st, s, t, expected, patch, schemaError, 0);
      case Rollback(s, t, expected, target) =>
        PrepareKeeps(st, s, t, expected, Patch(None, None, None, None, None, None, None, None), None, target);
      case Commit(s) => EndKeeps(st, s);
      case Delete(t) => OtherKeeps(st, Step(st, a));
    }
  }

  // ----- Histories -----

  ghost predicate IsHistory(h: seq<State>, a: seq<Action>) {
    |h| == |a| + 1 && h[0] == State(map[], map[], map[])
        && forall i {:trigger a[i]} :: 0 <= i < |a| ==> h[i + 1] == Step(h[i], a[i])
  }

  lemma {:induction false} HistoryIsGood(h: seq<State>, a: seq<Action>, i: nat)
    requires IsHistory(h, a) && i < |h|
    ensures Good(h[i])
  {
    if i > 0 {
      HistoryIsGood(h, a, i - 1);
      StepKeeps(h[i - 1], a[i - 1]);
    }
  }

  /** At every commit the versions of a tool are exactly 1 to its version, the newest is its
      configuration, and every one has the digest that matches it. */
  lemma VersionsAreComplete(h: seq<State>, a: seq<Action>, i: nat, t: Id)
    requires IsHistory(h, a) && i < |h| && t in h[i].tools
    ensures forall v :: (t, v) in h[i].versions <==> 1 <= v <= h[i].tools[t].version
    ensures (t, h[i].tools[t].version) in h[i].versions
              && h[i].versions[(t, h[i].tools[t].version)] == h[i].tools[t].config
    ensures forall v :: (t, v) in h[i].versions ==> DigestOk(h[i].versions[(t, v)])
  {
    HistoryIsGood(h, a, i);
    assert ToolOk(h[i], t);
    forall v | (t, v) in h[i].versions ensures DigestOk(h[i].versions[(t, v)]) { assert VersionOk(h[i], (t, v)); }
  }

  /** Stored versions never change. */
  lemma {:induction false} VersionsStay(h: seq<State>, a: seq<Action>, i: nat, j: nat, k: (Id, int))
    requires IsHistory(h, a) && i <= j < |h| && k in h[i].versions
    ensures k in h[j].versions && h[j].versions[k] == h[i].versions[k]
    decreases j
  {
    if i < j {
      VersionsStay(h, a, i, j - 1, k);
      assert h[j] == Step(h[j - 1], a[j - 1]);
    }
  }

  predicate CommitsFrom(st: State, a: Action, t: Id, version: int) {
    a.Commit? && IsAccepted(st, a.s) && st.drafts[a.s].tool == t && st.drafts[a.s].base.version == version
  }

  /** Of the writers that read the same version of a tool, at most one commits. */
  lemma OneWriterPerVersion(h: seq<State>, a: seq<Action>, i: nat, j: nat, t: Id, version: int)
    requires IsHistory(h, a) && i < |a| && j < |a| && CommitsFrom(h[i], a[i], t, version)
               && CommitsFrom(h[j], a[j], t, version)
    ensures i == j
  {
    if i < j { FirstCommitRefusesSecond(h, a, i, j, t, version); }
    if j < i { FirstCommitRefusesSecond(h, a, j, i, t, version); }
  }

  lemma FirstCommitRefusesSecond(h: seq<State>, a: seq<Action>, i: nat, j: nat, t: Id, version: int)
    requires IsHistory(h, a) && i < j < |a| && CommitsFrom(h[i], a[i], t, version)
    ensures !CommitsFrom(h[j], a[j], t, version)
  {
    HistoryIsGood(h, a, i);
    HistoryIsGood(h, a, j);
    CommitTakesVersion(h[i], a[i], t, version);
    assert h[i + 1] == Step(h[i], a[i]);
    VersionsStay(h, a, i + 1, j, (t, version + 1));
    TakenVersionRefuses(h[j], a[j], t, version);
  }

  lemma CommitTakesVersion(st: State, a: Action, t: Id, version: int)
    requires Good(st) && CommitsFrom(st, a, t, version)
    ensures (t, version + 1) in Step(st, a).versions
  {
    assert DraftOk(st, a.s);
  }

  lemma TakenVersionRefuses(st: State, a: Action, t: Id, version: int)
    requires Good(st) && (t, version + 1) in st.versions
    ensures !CommitsFrom(st, a, t, version)
  {
    if a.Commit? && a.s in st.drafts { assert DraftOk(st, a.s); }
  }

  /** A rollback that is committed makes a new version that equals its target in every field, as the
      tool then does too. */
  lemma RollbackRestores(h: seq<State>, a: seq<Action>, i: nat, j: nat, s: Id, t: Id, expected: Option<int>,
        target: int)
    requires IsHistory(h, a) && i < j < |a| && a[i] == Rollback(s, t, expected, target) && s !in h[i].drafts
               && s in h[i + 1].drafts
    requires a[j] == Commit(s) && IsAccepted(h[j], s) && h[j].drafts[s] == h[i + 1].drafts[s]
    ensures t in h[j + 1].tools && (t, target) in h[j + 1].versions
              && h[j + 1].tools[t].config == h[j + 1].versions[(t, target)]
    ensures h[j + 1].tools[t].version == h[j].tools[t].version + 1
    ensures (t, h[j + 1].tools[t].version) in h[j + 1].versions
              && h[j + 1].versions[(t, h[j + 1].tools[t].version)] == h[j + 1].versions[(t, target)]
  {
    RollbackDraft(h[i], s, t, expected, target);
    assert h[i + 1] == Step(h[i], a[i]);
    CommitStep(h, a, j, s);
    VersionsStay(h, a, i, j + 1, (t, target));
    HistoryIsGood(h, a, j);
    CommitResult(h[j], s);
  }

  lemma RollbackDraft(st: State, s: Id, t: Id, expected: Option<int>, target: int)
    requires s !in st.drafts && s in Step(st, Rollback(s, t, expected, target)).drafts
    ensures var d := Step(st, Rollback(s, t, expected, target)).drafts[s];
            d.tool == t && (t, target) in st.versions && d.next.config == st.versions[(t, target)]
  {
  }

  lemma CommitStep(h: seq<State>, a: seq<Action>, j: nat, s: Id)
    requires IsHistory(h, a) && j < |a| && a[j] == Commit(s) && IsAccepted(h[j], s)
    ensures h[j + 1] == Committed(h[j], s)
  {
    assert h[j + 1] == Step(h[j], a[j]);
  }

  lemma CommitResult(st: State, s: Id)
    requires Good(st) && IsAccepted(st, s)
    ensures var d, later := st.drafts[s], Committed(st, s);
            && d.tool in later.tools && later.tools[d.tool].config == d.next.config
            && later.tools[d.tool].version == st.tools[d.tool].version + 1 == d.next.version
            && (d.tool, d.next.version) in later.versions && later.versions[(d.tool, d.next.version)] == d.next.config
  {
    AcceptedWritesDraft(st, s);
    assert DraftOk(st, s);
  }

  // ----- What each request does -----

  /** A field that was sent has the new value, and one that was not keeps the old. */
  ghost predicate Takes<T>(sent: Option<T>, old_: T, new_: T) {
    match sent
    case None => new_ == old_
    case Some(value) => new_ == value
  }

  /** d is c with the fields that were sent; a manifest is digested anew with the schemas, and signed by nobody. */
  ghost predicate IsUpdated(c: Config, p: Patch, d: Config) {
    && Takes(p.name, c.name, d.name) && Takes(p.description, c.description, d.description)
    && Takes(p.executor, c.executor, d.executor) && Takes(p.inputSchema, c.inputSchema, d.inputSchema)
    && Takes(p.outputSchema, c.outputSchema, d.outputSchema) && Takes(p.sideEffects, c.sideEffects, d.sideEffects)
    && Takes(p.risk, c.risk, d.risk) && Takes(p.timeoutMs, c.timeoutMs, d.timeoutMs)
    && d.manifest == c.manifest && d.capabilities == c.capabilities
    && (c.manifest == map[] ==> d.digest == c.digest && d.signature == c.signature)
    && (c.manifest != map[] ==>
          d.digest == Some(DigestOf(c.manifest, d.inputSchema, d.outputSchema)) && d.signature == "unsigned")
  }

  /** A writer may begin: the tool is there and active, and the version it names is the tool's. */
  predicate MayBegin(st: State, s: Id, t: Id, expected: Option<int>) {
    s !in st.drafts && t in st.tools && st.tools[t].isActive && expected == Some(st.tools[t].version)
  }

  /** The draft of an update is the next version, with the fields that were sent. */
  lemma UpdateIsDrafted(st: State, s: Id, t: Id, expected: Option<int>, p: Patch, schemaError: Option<string>)
    ensures var later := Step(st, Update(s, t, expected, p, schemaError));
            if MayBegin(st, s, t, expected) && schemaError.None? then
              && later == st.(drafts := later.drafts) && later.drafts.Keys == st.drafts.Keys + {s}
              && (forall x :: x in st.drafts ==> later.drafts[x] == st.drafts[x])
              && var d := later.drafts[s];
                 && d.tool == t && d.base == st.tools[t] && d.next.version == st.tools[t].version + 1 && d.next.isActive
                 && IsUpdated(st.tools[t].config, p, d.next.config)
            else later == st
  {
  }

  /** The draft of a rollback is the next version, with everything of the version it goes back to. */
  lemma RollbackIsDrafted(st: State, s: Id, t: Id, expected: Option<int>, target: int)
    ensures var later := Step(st, Rollback(s, t, expected, target));
            if MayBegin(st, s, t, expected) && (t, target) in st.versions then
              later == st.(drafts := st.drafts[s :=
                Draft(t, st.tools[t], Tool(st.tools[t].version + 1, st.versions[(t, target)], true))])
            else later == st
  {
  }

  ghost predicate IsRefusedFirst(st: State, t: Id, expected: Option<int>, r: Result<Draft, string>) {
    var isThere := t in st.tools && st.tools[t].isActive;
    && (!isThere ==> r == Err("NOT_FOUND"))
    && (isThere && expected.None? ==> r == Err("PRECONDITION_REQUIRED"))
    && (isThere && expected.Some? && expected.value != st.tools[t].version ==> r == Err("PRECONDITION_FAILED"))
  }

  /** Why a writer is refused: the tool first, then the header, then what it asks for. */
  lemma RefusalsByCode(st: State, t: Id, expected: Option<int>, p: Patch, schemaError: Option<string>, target: int)
    ensures IsRefusedFirst(st, t, expected, PrepareUpdate(st, t, expected, p, schemaError))
    ensures IsRefusedFirst(st, t, expected, PrepareRollback(st, t, expected, target))
    ensures t in st.tools && st.tools[t].isActive && expected == Some(st.tools[t].version) ==>
              && (schemaError.Some? ==> PrepareUpdate(st, t, expected, p, schemaError) == Err(schemaError.value))
              && ((t, target) !in st.versions ==> PrepareRollback(st, t, expected, target) == Err("VERSION_NOT_FOUND"))
  {
  }

  /** A new tool is active at version 1; archiving it changes nothing else. */
  lemma ToolIsCreatedOrArchived(st: State, t: Id, config: Config)
    ensures var later := Step(st, Create(t, config));
            if t in st.tools || (t, 1) in st.versions then later == st
            else
              var c := config.(signature := "unsigned", digest :=
                if config.manifest == map[] then None
                else Some(DigestOf(config.manifest, config.inputSchema, config.outputSchema)));
              later == st.(tools := st.tools[t := Tool(1, c, true)], versions := st.versions[(t, 1) := c])
    ensures Step(st, Delete(t)) ==
            if t in st.tools then st.(tools := st.tools[t := st.tools[t].(isActive := false)]) else st
  {
  }

  /** A commit is accepted exactly if the number of its draft is not taken; either way the draft is gone. */
  lemma DraftIsCommitted(st: State, s: Id)
    requires Good(st) && s in st.drafts
    ensures var d, later := st.drafts[s], Step(st, Commit(s));
            if (d.tool, d.next.version) in st.versions then later == st.(drafts := st.drafts - {s})
            else
              later == State(st.tools[d.tool := Tool(d.next.version, d.next.config, st.tools[d.tool].isActive)],
                             st.versions[(d.tool, d.next.version) := d.next.config], st.drafts - {s})
  {
    assert DraftOk(st, s);
    if IsAccepted(st, s) { AcceptedWritesDraft(st, s); }
  }

  /** An update that is committed leaves the tool as it is at that moment but for the fields that were sent. */
  lemma UpdateApplies(h: seq<State>, a: seq<Action>, i: nat, j: nat, s: Id, t: Id, expected: Option<int>, p: Patch)
    requires IsHistory(h, a) && i < j < |a| && a[i] == Update(s, t, expected, p, None) && MayBegin(h[i], s, t, expected)
    requires s in h[j].drafts && h[j].drafts[s] == h[i + 1].drafts[s] && a[j] == Commit(s)
    requires (t, h[i].tools[t].version + 1) !in h[j].versions
    ensures t in h[j].tools && h[j].tools[t].config == h[i].tools[t].config
    ensures t in h[j + 1].tools && IsUpdated(h[j].tools[t].config, p, h[j + 1].tools[t].config)
    ensures h[j + 1].tools[t].version == h[j].tools[t].version + 1
    ensures (t, h[j + 1].tools[t].version) in h[j + 1].versions
              && h[j + 1].versions[(t, h[j + 1].tools[t].version)] == h[j + 1].tools[t].config
  {
    assert h[i + 1] == Step(h[i], a[i]);
    UpdateIsDrafted(h[i], s, t, expected, p, None);
    HistoryIsGood(h, a, j);
    assert DraftOk(h[j], s);
    AcceptedWritesDraft(h[j], s);
    assert h[j + 1] == Step(h[j], a[j]);
    DraftIsCommitted(h[j], s);
  }

  // ----- The row itself -----

  class ToolRow {
    var version: int
    var config: Config
    var isActive: bool

    constructor (tool: Tool)
      ensures Value() == tool
    {
      version, config, isActive := tool.version, tool.config, tool.isActive;
    }

    function Value(): Tool
      reads this
    {
      Tool(version, config, isActive)
    }

    /** The fields that update_tool sets, and the snapshot that it adds. */
    method Set(p: Patch) returns (snapshot: Config)
      modifies this
      ensures Value() == old(Value()).(version := old(version) + 1, config := Updated(old(config), p))
                && snapshot == config
    {
      config := config.(name := Or(p.name, config.name));
      config := config.(description := Or(p.description, config.description));
      config := config.(executor := Or(p.executor, config.executor));
      config := config.(inputSchema := Or(p.inputSchema, config.inputSchema));
      config := config.(outputSchema := Or(p.outputSchema, config.outputSchema));
      config := config.(sideEffects := Or(p.sideEffects, config.sideEffects));
      config := config.(risk := Or(p.risk, config.risk));
      config := config.(timeoutMs := Or(p.timeoutMs, config.timeoutMs));
      version := version + 1;
      if config.manifest != map[] {
        config := config.(digest := Some(DigestOf(config.manifest, config.inputSchema, config.outputSchema)),
            signature := "unsigned");
      }
      snapshot := config;
    }

    /** The fields that rollback_tool restores. */
    method Restore(target: Config) returns (snapshot: Config)
      modifies this
      ensures Value() == old(Value()).(version := old(version) + 1, config := target) && snapshot == config
    {
      config := config.(name := target.name, description := target.description, executor := target.executor,
        inputSchema := target.inputSchema, outputSchema := target.outputSchema, sideEffects := target.sideEffects,
        risk := target.risk, timeoutMs := target.timeoutMs, manifest := target.manifest,
            capabilities := target.capabilities,
        digest := target.digest, signature := target.signature);
      version := version + 1;
      snapshot := config;
    }
  }
}
