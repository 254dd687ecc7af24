// The functions of app/runtime.py and app/worker.py that change run, call and approval rows in
// place, proved to make exactly the changes that the protocol's actions are made of.

module RunStore {
  import opened Base
  import opened ToolCalls
  import opened RunProtocol

  predicate IsWaitingFor(db: Db, c: Id, r: Id) {
    c in db.approvals && db.approvals[c].run == r
  }

  ghost predicate HasWaiting(db: Db, done: set<Id>, r: Id) {
    exists c :: c in done && IsWaitingFor(db, c, r)
  }

  /** What expiring the approvals in done makes of the tables. */
  ghost function ExpireSome(db: Db, done: set<Id>): Db {
    db.(
      approvals := map c | c in db.approvals ::
          if c in done then db.approvals[c].(status := ApprovalStatus.Expired, isUsed := true) else db.approvals[c],
      calls := map c | c in db.calls ::
                 if c in done && db.calls[c].row.status == PendingApproval then
                   db.calls[c].(row := db.calls[c].row.(status := CallStatus.Expired, error := Some("APPROVAL_EXPIRED"),
                       finished := true))
                 else db.calls[c],
      runs := map r | r in db.runs ::
                if db.runs[r].status == WaitingApproval && HasWaiting(db, done, r) then
                  db.runs[r].(status := Failed, finished := true)
                else db.runs[r])
  }

  lemma ExpireAll(db: Db, now: int, done: set<Id>)
    requires forall c :: c in done <==> IsDue(db, c, now)
    ensures ExpireSome(db, done) == ExpireDue(db, now)
  {
    forall r | r in db.runs
      ensures HasWaiting(db, done, r) <==> exists c :: IsDue(db, c, now) && db.approvals[c].run == r
    {
      if c :| c in done && IsWaitingFor(db, c, r) {
        assert IsDue(db, c, now) && db.approvals[c].run == r;
      }
      if c :| IsDue(db, c, now) && db.approvals[c].run == r {
        assert c in done && IsWaitingFor(db, c, r);
      }
    }
    assert ExpireSome(db, done).runs == ExpireDue(db, now).runs;
    assert ExpireSome(db, done).calls == ExpireDue(db, now).calls;
  }

  /** The loop body: one due approval, its call and its run. */
  function ExpireOne(db: Db, c: Id): Db
    requires c in db.approvals
  {
    var r := db.approvals[c].run;
    db.(
      approvals := db.approvals[c := db.approvals[c].(status := ApprovalStatus.Expired, isUsed := true)],
      calls := if c in db.calls && db.calls[c].row.status == PendingApproval then
                 db.calls[c := db.calls[c].(row :=
                     db.calls[c].row.(status := CallStatus.Expired, error := Some("APPROVAL_EXPIRED"),
                     finished := true))]
               else db.calls,
      runs := if r in db.runs && db.runs[r].status == WaitingApproval then
          db.runs[r := db.runs[r].(status := Failed, finished := true)] else db.runs)
  }

  lemma WaitingGrows(db: Db, done: set<Id>, c: Id, r: Id)
    requires c in db.approvals
    ensures HasWaiting(db, done + {c}, r) <==> HasWaiting(db, done, r) || db.approvals[c].run == r
  {
    if db.approvals[c].run == r { assert c in done + {c} && IsWaitingFor(db, c, r); }
    if HasWaiting(db, done, r) {
      var d :| d in done && IsWaitingFor(db, d, r);
      assert d in done + {c};
    }
  }

  lemma ExpireOneMore(db: Db, done: set<Id>, c: Id)
    requires c in db.approvals && c !in done
    ensures ExpireOne(ExpireSome(db, done), c) == ExpireSome(db, done + {c})
  {
    forall x | x in db.runs
      ensures HasWaiting(db, done + {c}, x) <==> HasWaiting(db, done, x) || db.approvals[c].run == x
    {
      WaitingGrows(db, done, c, x);
    }
    var one, more := ExpireOne(ExpireSome(db, done), c), ExpireSome(db, done + {c});
    assert one.runs == more.runs;
    assert one.calls == more.calls;
    assert one.approvals == more.approvals;
  }

  lemma ExpireNone(db: Db)
    ensures ExpireSome(db, {}) == db
  {
    assert ExpireSome(db, {}).runs == db.runs;
    assert ExpireSome(db, {}).calls == db.calls;
    assert ExpireSome(db, {}).approvals == db.approvals;
  }

  lemma RecoverNone(db: Db)
    ensures RecoverStuckRuns(db, {}) == db
  {
    assert RecoverStuckRuns(db, {}).runs == db.runs;
  }

  lemma RecoverOneMore(db: Db, done: set<Id>, r: Id)
    requires r in db.runs && db.runs[r].status == Running && r !in done
    ensures var some := RecoverStuckRuns(db, done);
            some.(runs := some.runs[r := some.runs[r].(status := Accepted)]) == RecoverStuckRuns(db, done + {r})
  {
    var some := RecoverStuckRuns(db, done);
    assert some.runs[r := some.runs[r].(status := Accepted)] == RecoverStuckRuns(db, done + {r}).runs;
  }

  /** The recovery of waiting runs before the ones in left are reached. */
  function RecoverAllBut(db: Db, left: set<Id>, latest: map<Id, Id>): Db {
    db.(runs := map r | r in db.runs :: if r in left then db.runs[r] else Recovered(db, r, latest))
  }

  lemma RecoverNoApproval(db: Db, waiting: set<Id>, latest: map<Id, Id>)
    requires forall r :: r in db.runs && db.runs[r].status == WaitingApproval ==> r in waiting
    ensures RecoverAllBut(db, waiting, latest) == db
              && RecoverAllBut(db, {}, latest) == RecoverApprovalWaiting(db, latest)
  {
    assert RecoverAllBut(db, waiting, latest).runs == db.runs;
    assert RecoverAllBut(db, {}, latest).runs == RecoverApprovalWaiting(db, latest).runs;
  }

  lemma RecoverOneApproval(db: Db, left: set<Id>, r: Id, latest: map<Id, Id>)
    requires r in left && r in db.runs
    ensures var some := RecoverAllBut(db, left, latest);
            some.(runs := some.runs[r := Recovered(some, r, latest)]) == RecoverAllBut(db, left - {r}, latest)
  {
    var some := RecoverAllBut(db, left, latest);
    assert Recovered(some, r, latest) == Recovered(db, r, latest);
    assert some.runs[r := Recovered(some, r, latest)] == RecoverAllBut(db, left - {r}, latest).runs;
  }

  class Store {
    var runs: map<Id, Run>
    var attempts: set<Id>
    var calls: map<Id, ToolCall>
    var approvals: map<Id, Approval>

    constructor (db: Db)
      ensures Value() == db.(approved := {}, overwritten := {}, unbacked := {})
    {
      runs, attempts, calls, approvals := db.runs, db.attempts, db.calls, db.approvals;
    }

    function Value(): Db
      reads this
    {
      Db(runs, attempts, calls, approvals, {}, {}, {})
    }

    /** transition_run: true if the run is in the state now, false if it was not expected to move. */
    method Transition(r: Id, seen: Run, next: RunStatus,
          expected: Option<RunStatus>) returns (moved: Result<bool, string>)
      requires r in runs
      modifies this`runs
      ensures runs == match TransitionRun(old(runs[r]), seen, next, expected)
                      case Moved(row) => old(runs)[r := row]
                      case _ => old(runs)
      ensures moved == match TransitionRun(old(runs[r]), seen, next, expected)
                       case Moved(_) => Ok(true)
                       case AlreadyThere => Ok(true)
                       case Refused => Ok(false)
                       case Raises(code) => Err(code)
    {
      if expected.Some? && seen.status != expected.value {
        return Ok(false);
      }
      if seen.status == next {
        return Ok(true);
      }
      if next !in NextStatuses(seen.status) {
        return Err("INVALID_STATE_TRANSITION");
      }
      if runs[r].status != seen.status || runs[r].attempt != seen.attempt || runs[r].checkpoint != seen.checkpoint {
        return Err("VERSION_CONFLICT");
      }
      runs := runs[r := runs[r].(status := next)];
      return Ok(true);
    }

    /** begin_new_attempt under an identifier that was never used. */
    method BeginAttempt(r: Id, seen: Run, newId: Id, checkpoint: Option<int>) returns (begun: Result<Id, string>)
      requires r in runs && newId !in attempts
      modifies this`runs, this`attempts
      ensures Value() == NewAttempt(old(Value()), r, seen, newId, checkpoint)
      ensures begun == match BeginNewAttempt(old(runs[r]), seen, newId, checkpoint)
                       case Ok(_) => Ok(newId)
                       case Err(code) => Err(code)
    {
      if !IsOver(seen.status) && seen.status != WaitingApproval {
        return Err("RUN_NOT_REPLAYABLE");
      }
      var target := if checkpoint.None? then seen.checkpoint else checkpoint.value;
      if runs[r].status != seen.status || runs[r].attempt != seen.attempt || runs[r].checkpoint != seen.checkpoint {
        return Err("VERSION_CONFLICT");
      }
      runs := runs[r := runs[r].(status := Accepted, attempt := newId, checkpoint := target, finished := false)];
      attempts := attempts + {newId};
      return Ok(newId);
    }

    /** expire_pending_approvals: the number of approvals that were due. */
    method ExpirePendingApprovals(now: int) returns (expired: nat)
      modifies this`approvals, this`calls, this`runs
      ensures Value() == ExpireDue(old(Value()), now)
      ensures expired == |set c | c in old(approvals) && IsDue(old(Value()), c, now)|
    {
      ghost var db := Value();
      var due := set c | c in approvals && IsDue(Value(), c, now);
      expired := |due|;
      var left := due;
      assert due - left == {};
      ExpireNone(db);
      while left != {}
        invariant left <= due && (forall c :: c in left ==> c in approvals && c in db.approvals)
        invariant Value() == ExpireSome(db, due - left)
        decreases |left|
      {
        var c :| c in left;
        ExpireOneMore(db, due - left, c);
        assert due - (left - {c}) == due - left + {c};
        Expire(c);
        left := left - {c};
      }
      assert due - left == due;
      ExpireAll(db, now, due);
    }

    method Expire(c: Id)
      requires c in approvals
      modifies this`approvals, this`calls, this`runs
      ensures Value() == ExpireOne(old(Value()), c)
    {
      approvals := approvals[c := approvals[c].(status := ApprovalStatus.Expired, isUsed := true)];
      if c in calls && calls[c].row.status == PendingApproval {
        calls := calls[c := calls[c].(row :=
            calls[c].row.(status := CallStatus.Expired, error := Some("APPROVAL_EXPIRED"), finished := true))];
      }
      var r := approvals[c].run;
      if r in runs && runs[r].status == WaitingApproval {
        runs := runs[r := runs[r].(status := Failed, finished := true)];
      }
    }

    /** recover_stuck_runs; stale holds the running rows that were not touched for long, locked those
        whose worker lock is still alive. */
    method RecoverStuck(stale: set<Id>, locked: set<Id>) returns (recovered: nat)
      requires forall r :: r in stale ==> r in runs && runs[r].status == Running
      modifies this`runs
      ensures Value() == RecoverStuckRuns(old(Value()), stale - locked)
      ensures recovered == |stale - locked|
    {
      ghost var db, done: set<Id> := Value(), {};
      var left := stale;
      recovered := 0;
      RecoverNone(db);
      while left != {}
        invariant left <= stale && forall x :: x in done <==> x in stale && x !in left && x !in locked
        invariant Value() == RecoverStuckRuns(db, done)
        invariant recovered == |done|
        decreases |left|
      {
        var r :| r in left;
        if r !in locked {
          RecoverOneMore(db, done, r);
          Requeue(r);
          recovered := recovered + 1;
          done := done + {r};
        }
        left := left - {r};
      }
      assert done == stale - locked;
    }

    method Requeue(r: Id)
      requires r in runs
      modifies this`runs
      ensures Value() == old(Value()).(runs := old(runs)[r := old(runs[r]).(status := Accepted)])
    {
      runs := runs[r := runs[r].(status := Accepted)];
    }

    /** recover_approval_waiting; latest is what the query for the newest approval of a run answers. */
    method RecoverApprovals(latest: map<Id, Id>)
      modifies this`runs
      ensures Value() == RecoverApprovalWaiting(old(Value()), latest)
    {
      ghost var db := Value();
      var waiting := set r | r in runs && runs[r].status == WaitingApproval;
      var left := waiting;
      RecoverNoApproval(db, waiting, latest);
      while left != {}
        invariant left <= waiting && Value() == RecoverAllBut(db, left, latest)
        decreases |left|
      {
        var r :| r in left;
        RecoverOneApproval(db, left, r, latest);
        RecoverApproval(r, latest);
        left := left - {r};
      }
    }

    method RecoverApproval(r: Id, latest: map<Id, Id>)
      requires r in runs && runs[r].status == WaitingApproval
      modifies this`runs
      ensures Value() == old(Value()).(runs := old(runs)[r := Recovered(old(Value()), r, latest)])
    {
      if r in latest && IsLatest(Value(), r, latest[r]) {
        var status := approvals[latest[r]].status;
        if status == Approved {
          runs := runs[r := runs[r].(status := Accepted)];
        } else if status == ApprovalStatus.Rejected || status == ApprovalStatus.Expired {
          runs := runs[r := runs[r].(status := Cancelled, finished := true)];
        }
      }
    }
  }
}
