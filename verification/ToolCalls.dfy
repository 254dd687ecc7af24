// Executing one tool call (execute_tool_call in app/runtime.py).  What the sandbox answers on
// each attempt, and how the manifest reads, is given.

module ToolCalls {
  import opened Base

  datatype CallStatus =
    | Created | PendingApproval
    | Validating | Executing | RetryScheduled
    | Succeeded | Rejected | Expired | PermanentlyFailed | TimedOut

  predicate IsTerminal(s: CallStatus) {
    s.Succeeded? || s.Rejected? || s.Expired? || s.PermanentlyFailed? || s.TimedOut?
  }

  datatype Call = Call(
    status: CallStatus,
    attempt: int,
    output: Option<Json>,
    error: Option<string>,
    started: bool,     // started_at is set
    finished: bool)    // finished_at is set

  /** What the manifest says about retries, or the error that reading it raises: maxAttempts has
      to convert to an integer and retryableErrors has to be a collection. */
  datatype Limits = Limits(maxAttempts: int, retryable: set<string>) | Malformed(code: string)

  /** The tool definition as the call sees it.  isAllowed: the run exists, the tenants agree and the
      definition is active. */
  datatype Definition = Definition(isAllowed: bool, name: string, sideEffects: bool, risk: string, limits: Limits)

  datatype Policy = Policy(tool: string, effect: string, allowSideEffects: bool, allowedRisks: set<string>)

  /** One attempt: schema checks and sandbox together. */
  datatype AttemptResult = Output(value: Json) | Raised(code: string) | TimesOut

  /** A call either returns normally or lets an exception out. */
  datatype Execution = Returned(call: Call) | Threw(call: Call, code: string)

  // ----- Policies -----

  predicate Matches(p: Policy, d: Definition) {
    p.tool == d.name || p.tool == "*"
  }

  predicate Permits(p: Policy, d: Definition) {
    p.effect == "allow" && (d.sideEffects ==> p.allowSideEffects) && d.risk in p.allowedRisks
  }

  /** The last policy that matches the tool, if any. */
  function LastMatch(policies: seq<Policy>, d: Definition): Option<Policy> {
    if policies == [] then None
    else if Matches(policies[|policies| - 1], d) then Some(policies[|policies| - 1])
    else LastMatch(policies[..|policies| - 1], d)
  }

  /** Policies deny a tool that none of them mentions, or that the last one about it does not permit. */
  predicate IsDenied(policies: seq<Policy>, d: Definition) {
    policies != [] && (LastMatch(policies, d).None? || !Permits(LastMatch(policies, d).value, d))
  }

  /** The policy that decides is the last one that matches: policies after it do not match. */
  lemma {:induction false} DecidingPolicy(policies: seq<Policy>, d: Definition)
    ensures LastMatch(policies, d).None? <==> forall i :: 0 <= i < |policies| ==> !Matches(policies[i], d)
    ensures LastMatch(policies, d).Some? ==>
              exists i :: 0 <= i < |policies| && policies[i] == LastMatch(policies, d).value && Matches(policies[i], d)
                          && forall j :: i < j < |policies| ==> !Matches(policies[j], d)
  {
    if policies != [] {
      var front := policies[..|policies| - 1];
      DecidingPolicy(front, d);
      if Matches(policies[|policies| - 1], d) {
        assert policies[|policies| - 1] == LastMatch(policies, d).value;
      } else if LastMatch(front, d).Some? {
        var i :| 0 <= i < |front| && front[i] == LastMatch(front, d).value && Matches(front[i], d)
                 && forall j :: i < j < |front| ==> !Matches(front[j], d);
        assert policies[i] == LastMatch(policies, d).value;
      } else {
        forall i | 0 <= i < |policies| ensures !Matches(policies[i], d) {
          if i < |front| { assert front[i] == policies[i]; }
        }
      }
    }
  }

  // ----- Attempts -----

  /** max(1, min(5, n)) */
  function Clamp(n: int): int {
    Max(1, Min(5, n))
  }

  /** A failed attempt is repeated if its error is retryable and an attempt is left. */
  predicate Repeats(l: Limits, r: AttemptResult, k: int)
    requires l.Limits?
  {
    r.Raised? && r.code in l.retryable && k < Clamp(l.maxAttempts)
  }

  /** The row after attempt k. */
  function AfterAttempt(c: Call, l: Limits, r: AttemptResult, k: int): Call
    requires l.Limits?
  {
    match r
    case TimesOut => c.(attempt := k, status := TimedOut, error := Some("SANDBOX_TIMEOUT"), output := None)
    case Raised(code) =>
      c.(attempt := k, error := Some(code), status := if Repeats(l, r, k) then RetryScheduled else PermanentlyFailed)
    case Output(value) => c.(attempt := k, output := Some(value), status := Succeeded, error := None)
  }

  /** The row after the attempts from k on. */
  function Attempts(c: Call, l: Limits, results: int -> AttemptResult, k: int): Call
    requires l.Limits?
    decreases Clamp(l.maxAttempts) + 1 - k
  {
    if k > Clamp(l.maxAttempts) then c
    else
      var after := AfterAttempt(c, l, results(k), k);
      if Repeats(l, results(k), k) then Attempts(after, l, results, k + 1) else after
  }

  function Execute(c: Call, d: Definition, policies: seq<Policy>, results: int -> AttemptResult): Execution {
    if IsTerminal(c.status) then Returned(c)
    else if !d.isAllowed then Returned(c.(status := PermanentlyFailed, error := Some("TOOL_NOT_ALLOWED")))
    else if IsDenied(policies, d) then
      Returned(c.(status := Rejected, error := Some("TOOL_POLICY_DENIED"), finished := true))
    else
      var started := c.(status := Executing, started := true);
      match d.limits
      case Malformed(code) => Threw(started, code)
      case Limits(_, _) => Returned(Attempts(started, d.limits, results, c.attempt).(finished := true))
  }

  // ----- What execution guarantees -----

  /** The attempt that settles the call: every earlier one was repeated, this one is not. */
  ghost predicate Settles(l: Limits, results: int -> AttemptResult, first: int, k: int)
    requires l.Limits?
  {
    && first <= k <= Clamp(l.maxAttempts)
    && !Repeats(l, results(k), k)
    && forall j :: first <= j < k ==> Repeats(l, results(j), j)
  }

  /** Exactly one attempt settles a call that has attempts left, and the row records that one. */
  lemma {:induction false} SettledByOneAttempt(c: Call, l: Limits, results: int -> AttemptResult,
        first: int) returns (k: int)
    requires l.Limits? && first <= Clamp(l.maxAttempts)
    ensures Settles(l, results, first, k)
    ensures forall j :: Settles(l, results, first, j) ==> j == k
    ensures var r := Attempts(c, l, results, first);
            && r.attempt == k
            && r.status == AfterAttempt(c, l, results(k), k).status
                 && r.error == AfterAttempt(c, l, results(k), k).error
            && (results(k).Output? ==> r.output == Some(results(k).value))
    decreases Clamp(l.maxAttempts) - first
  {
    if Repeats(l, results(first), first) {
      k := SettledByOneAttempt(AfterAttempt(c, l, results(first), first), l, results, first + 1);
    } else {
      k := first;
    }
  }

  /** Execution leaves the call terminal exactly when it was terminal, or is refused, or the
      manifest reads well and the call has an attempt left. */
  lemma ExecutionEndsTerminal(c: Call, d: Definition, policies: seq<Policy>, results: int -> AttemptResult)
    ensures IsTerminal(Execute(c, d, policies, results).call.status) <==>
              || IsTerminal(c.status) || !d.isAllowed || IsDenied(policies, d)
              || (d.limits.Limits? && c.attempt <= Clamp(d.limits.maxAttempts))
    ensures Execute(c, d, policies, results).Threw? <==>
              !IsTerminal(c.status) && d.isAllowed && !IsDenied(policies, d) && d.limits.Malformed?
    ensures !IsTerminal(Execute(c, d, policies, results).call.status) ==>
              Execute(c, d, policies, results).call.status == Executing
  {
    if !IsTerminal(c.status) && d.isAllowed && !IsDenied(policies, d) && d.limits.Limits?
        && c.attempt <= Clamp(d.limits.maxAttempts) {
      var k := SettledByOneAttempt(c.(status := Executing, started := true), d.limits, results, c.attempt);
    }
  }

  /** A fresh call makes at most five attempts, and never more than the manifest asks for. */
  lemma AttemptsAreBounded(c: Call, d: Definition, policies: seq<Policy>, results: int -> AttemptResult)
    requires c.attempt == 1 && d.limits.Limits?
    ensures 1 <= Execute(c, d, policies, results).call.attempt <= Clamp(d.limits.maxAttempts) <= 5
    ensures d.limits.maxAttempts >= 1 ==> Clamp(d.limits.maxAttempts) <= d.limits.maxAttempts
  {
    if !IsTerminal(c.status) && d.isAllowed && !IsDenied(policies, d) {
      var k := SettledByOneAttempt(c.(status := Executing, started := true), d.limits, results, 1);
    }
  }

  /** A manifest whose maxAttempts is not a number: the call is left executing, and the error
      goes to the caller, which commits the row as it is. */
  lemma MalformedManifestLeavesCallExecuting(results: int -> AttemptResult)
    ensures var c := Call(Created, 1, None, None, false, false);
            var d := Definition(true, "echo", false, "low", Malformed("invalid literal for int()"));
            Execute(c, d, [], results) == Threw(c.(status := Executing, started := true), "invalid literal for int()")
  {
  }

  // ----- What the policies and the answers make of a call -----

  const SETTLED := {Succeeded, Rejected, Expired, PermanentlyFailed, TimedOut}

  predicate IsAbout(p: Policy, d: Definition) {
    p.tool == d.name || p.tool == "*"
  }

  /** The position of the last policy about the tool. */
  ghost predicate IsLastAbout(policies: seq<Policy>, d: Definition, i: int) {
    0 <= i < |policies| && IsAbout(policies[i], d) && forall j :: i < j < |policies| ==> !IsAbout(policies[j], d)
  }

  /** Policies stand in the way of the tool: none is about it, or the last that is has an effect other than
      allow, or does not allow the side effects that the tool has, or not its risk. */
  ghost predicate StandInTheWay(policies: seq<Policy>, d: Definition) {
    && policies != []
    && forall i :: IsLastAbout(policies, d, i) ==>
         || policies[i].effect != "allow"
         || (d.sideEffects && !policies[i].allowSideEffects)
         || d.risk !in policies[i].allowedRisks
  }

  lemma {:induction false} DeniedPolicyByPolicy(policies: seq<Policy>, d: Definition)
    ensures IsDenied(policies, d) <==> StandInTheWay(policies, d)
  {
    DecidingPolicy(policies, d);
    if i :| IsLastAbout(policies, d, i) {
      assert Matches(policies[i], d);
      var j :| 0 <= j < |policies| && policies[j] == LastMatch(policies, d).value && Matches(policies[j], d)
               && forall k :: j < k < |policies| ==> !Matches(policies[k], d);
      assert IsAbout(policies[j], d) && i == j;
      assert forall k :: IsLastAbout(policies, d, k) ==> k == i;
    } else if LastMatch(policies, d).Some? {
      var j :| 0 <= j < |policies| && policies[j] == LastMatch(policies, d).value && Matches(policies[j], d)
               && forall k :: j < k < |policies| ==> !Matches(policies[k], d);
      assert IsLastAbout(policies, d, j);
    }
  }

  /** A settled call is not touched, a tool that is not allowed fails it for good, and it is rejected without
      an attempt if and only if the policies stand in the way. */
  lemma PoliciesDecide(c: Call, d: Definition, policies: seq<Policy>, results: int -> AttemptResult)
    ensures var e := Execute(c, d, policies, results);
            && (c.status in SETTLED ==> e == Returned(c))
            && (c.status !in SETTLED && !d.isAllowed ==>
                  e == Returned(c.(status := PermanentlyFailed, error := Some("TOOL_NOT_ALLOWED"))))
            && (c.status !in SETTLED && d.isAllowed ==>
                  (StandInTheWay(policies, d) <==>
                   e == Returned(c.(status := Rejected, error := Some("TOOL_POLICY_DENIED"), finished := true))))
  {
    DeniedPolicyByPolicy(policies, d);
    if d.limits.Limits? && !IsTerminal(c.status) && d.isAllowed && !IsDenied(policies, d) {
      NeverRejected(c.(status := Executing, started := true), d.limits, results, c.attempt);
    }
  }

  /** Attempts start a call, and leave it neither rejected nor expired. */
  lemma {:induction false} NeverRejected(c: Call, l: Limits, results: int -> AttemptResult, k: int)
    requires l.Limits? && c.started && c.status != Rejected
    ensures Attempts(c, l, results, k).status != Rejected
    decreases Clamp(l.maxAttempts) + 1 - k
  {
    if k <= Clamp(l.maxAttempts) && Repeats(l, results(k), k) {
      NeverRejected(AfterAttempt(c, l, results(k), k), l, results, k + 1);
    }
  }

  /** The attempt that ends a call: all before it raised an error that may be retried, and it did not,
      or was the last one that the manifest allows, which is between one and five. */
  ghost predicate Ends(l: Limits, results: int -> AttemptResult, first: int, k: int)
    requires l.Limits?
  {
    && first <= k
    && (forall j :: first <= j < k ==> results(j).Raised? && results(j).code in l.retryable)
    && (k == 1 || (k <= l.maxAttempts && k <= 5))
    && (!results(k).Raised? || results(k).code !in l.retryable || k == 5 || k >= l.maxAttempts)
  }

  /** The row that an attempt ends with. */
  ghost predicate EndsAs(c: Call, r: AttemptResult, k: int, after: Call) {
    && after.attempt == k && after.started && after.finished
    && (r.Output? ==> after.status == Succeeded && after.output == Some(r.value) && after.error == None)
    && (r.TimesOut? ==> after.status == TimedOut && after.error == Some("SANDBOX_TIMEOUT") && after.output == None)
    && (r.Raised? ==> after.status == PermanentlyFailed && after.error == Some(r.code) && after.output == c.output)
  }

  /** A call that is neither settled nor refused, with a manifest that reads well, ends with one attempt from
      its own number on: succeeded with the output, timed out, or failed for good with the error. */
  lemma AttemptsEndTheCall(c: Call, d: Definition, policies: seq<Policy>, results: int -> AttemptResult)
    returns (k: int)
    requires c.status !in SETTLED && d.isAllowed && !StandInTheWay(policies, d) && d.limits.Limits?
    requires 1 <= c.attempt && (c.attempt == 1 || (c.attempt <= d.limits.maxAttempts && c.attempt <= 5))
    ensures Ends(d.limits, results, c.attempt, k)
    ensures Execute(c, d, policies, results).Returned?
    ensures EndsAs(c, results(k), k, Execute(c, d, policies, results).call)
  {
    DeniedPolicyByPolicy(policies, d);
    k := AttemptsEnd(c.(status := Executing, started := true), d.limits, results, c.attempt);
  }

  lemma {:induction false} AttemptsEnd(c: Call, l: Limits, results: int -> AttemptResult, first: int)
    returns (k: int)
    requires l.Limits? && c.started && 1 <= first && (first == 1 || (first <= l.maxAttempts && first <= 5))
    ensures Ends(l, results, first, k) && EndsAs(c, results(k), k, Attempts(c, l, results, first).(finished := true))
    decreases 5 - first
  {
    if Repeats(l, results(first), first) {
      k := AttemptsEnd(AfterAttempt(c, l, results(first), first), l, results, first + 1);
    } else {
      k := first;
    }
  }

  // ----- The row itself -----

  class ToolCallRow {
    var status: CallStatus
    var attempt: int
    var output: Option<Json>
    var error: Option<string>
    var started: bool
    var finished: bool

    constructor (c: Call)
      ensures Value() == c
    {
      status, attempt, output, error, started, finished := c.status, c.attempt, c.output, c.error,
          c.started, c.finished;
    }

    function Value(): Call
      reads this
    {
      Call(status, attempt, output, error, started, finished)
    }

    /** execute_tool_call; the result is the code of the exception that it lets out, if any. */
    method Run(d: Definition, policies: seq<Policy>, results: int -> AttemptResult) returns (thrown: Option<string>)
      modifies this
      ensures var e := Execute(old(Value()), d, policies, results);
              Value() == e.call && thrown == if e.Threw? then Some(e.code) else None
    {
      if IsTerminal(status) {
        return None;
      }
      if !d.isAllowed {
        status, error := PermanentlyFailed, Some("TOOL_NOT_ALLOWED");
        return None;
      }
      if IsDenied(policies, d) {
        status, error, finished := Rejected, Some("TOOL_POLICY_DENIED"), true;
        return None;
      }
      status := Validating;
      status, started := Executing, true;
      if d.limits.Malformed? {
        return Some(d.limits.code);
      }
      ghost var before := Value();
      var k, again := attempt, true;
      while again && k <= Clamp(d.limits.maxAttempts)
        invariant Attempts(before, d.limits, results, before.attempt) ==
                  if again then Attempts(Value(), d.limits, results, k) else Value()
        decreases Clamp(d.limits.maxAttempts) + 1 - k, again
      {
        attempt := k;
        again := false;
        match results(k) {
          case TimesOut =>
            status, error, output := TimedOut, Some("SANDBOX_TIMEOUT"), None;
          case Raised(code) =>
            error := Some(code);
            if code in d.limits.retryable && k < Clamp(d.limits.maxAttempts) {
              status, again := RetryScheduled, true;
            } else {
              status := PermanentlyFailed;
            }
          case Output(value) =>
            output, status, error := Some(value), Succeeded, None;
        }
        if again { k := k + 1; }
      }
      finished := true;
      return None;
    }
  }
}
