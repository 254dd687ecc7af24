// Rebuilding the embeddings of a knowledge base in committed batches.  Row identifiers are numbers
// in the order of the identifiers; a vector is known by its place in the provider's answers.

module EmbeddingRebuild {
  import opened Base

  type Id = nat
  type Vector = nat

  datatype Chunk = Chunk(base: string, content: string, json: Option<Vector>, vector: Option<Vector>,
      model: Option<string>, generatedAt: Option<int>)

  type Rows = map<Id, Chunk>

  /** What a run is asked to do. */
  datatype Job = Job(base: Option<string>, target: string, batchSize: int, force: bool)

  /** What the provider answers to a batch: the vectors of its texts, too many or too few, or an error. */
  datatype Answer = Vectors | WrongSize | Raises

  /** candidate_query */
  predicate IsCandidate(c: Chunk, job: Job) {
    && (job.base.Some? && job.base.value != "" ==> c.base == job.base.value)
    && (job.force || c.model.None? || c.model.value != job.target || c.json.None?)
  }

  function Candidates(rows: Rows, job: Job): set<Id> {
    set id | id in rows && IsCandidate(rows[id], job)
  }

  /** A run works on the rows of the base that is asked for, or of all without one: on every row if it is
      forced, and else on those that lack a JSON vector of the target model. */
  lemma CandidatesExactly(rows: Rows, job: Job, id: Id)
    ensures id in Candidates(rows, job) <==>
              && id in rows && (job.base in {None, Some("")} || job.base == Some(rows[id].base))
              && (job.force || rows[id].json == None || rows[id].model != Some(job.target))
  {
  }

  /** The order of the query: rows without a time first, then by time, then by identifier. */
  predicate Before(rows: Rows, a: Id, b: Id) {
    a in rows && b in rows
    && var s, t := rows[a].generatedAt, rows[b].generatedAt;
       if s.None? || t.None? then s.None? && (t.Some? || a < b) else s.value < t.value || (s.value == t.value && a < b)
  }

  lemma BeforeTransitive(rows: Rows, a: Id, b: Id, c: Id)
    ensures Before(rows, a, b) && Before(rows, b, c) ==> Before(rows, a, c)
    ensures a in rows && b in rows && a != b ==> (Before(rows, a, b) <==> !Before(rows, b, a))
  {
  }

  /** The first n rows of the pool. */
  ghost predicate IsPage(rows: Rows, pool: set<Id>, n: nat, page: seq<Id>)
    requires pool <= rows.Keys
  {
    && Elements(page) <= pool && |page| == Min(n, |pool|)
    && (forall i, j :: 0 <= i < j < |page| ==> Before(rows, page[i], page[j]))
    && (forall i, q :: 0 <= i < |page| && q in pool && q !in page ==> Before(rows, page[i], q))
  }

  /** A row of a page and one that comes later, on the page or beyond it: rows without a time are first,
      then the older ones, then the smaller identifiers. */
  lemma PageInOrder(rows: Rows, pool: set<Id>, n: nat, page: seq<Id>, i: nat, q: Id)
    requires pool <= rows.Keys && IsPage(rows, pool, n, page) && i < |page|
    requires q in pool && (q in page ==> q in page[i + 1..])
    ensures page[i] in rows && var s, t := rows[page[i]].generatedAt, rows[q].generatedAt;
            && (t.None? ==> s.None? && page[i] < q)
            && (s.Some? && t.Some? ==> s.value <= t.value && (s == t ==> page[i] < q))
  {
    if q in page {
      var j :| i + 1 <= j < |page| && page[j] == q;
    }
    assert Before(rows, page[i], q);
  }

  method First(rows: Rows, pool: set<Id>) returns (first: Id)
    requires pool != {} && pool <= rows.Keys
    ensures first in pool && forall q :: q in pool && q != first ==> Before(rows, first, q)
  {
    first :| first in pool;
    var left := pool - {first};
    while left != {}
      invariant first in pool && left < pool
      invariant forall q :: q in pool - left && q != first ==> Before(rows, first, q)
      decreases |left|
    {
      var q :| q in left;
      ghost var before := first;
      BeforeTransitive(rows, q, first, first);
      if Before(rows, q, first) { first := q; }
      left := left - {q};
      forall r | r in pool - left && r != first ensures Before(rows, first, r) {
        BeforeTransitive(rows, q, before, r);
      }
    }
  }

  method TakePage(rows: Rows, pool: set<Id>, n: nat) returns (page: seq<Id>)
    requires pool <= rows.Keys
    ensures IsPage(rows, pool, n, page)
  {
    page := [];
    var left := pool;
    while |page| < n && left != {}
      invariant left <= pool && |page| + |left| == |pool| && |page| <= n
      invariant forall q :: q in page <==> q in pool && q !in left
      invariant forall i, j :: 0 <= i < j < |page| ==> Before(rows, page[i], page[j])
      invariant forall i, q :: 0 <= i < |page| && q in left ==> Before(rows, page[i], q)
      decreases |left|
    {
      var x := First(rows, left);
      page, left := page + [x], left - {x};
    }
  }

  // ----- One row -----

  function Rebuilt(c: Chunk, vector: Vector, target: string, now: int): Chunk {
    c.(json := Some(vector), vector := Some(vector), model := Some(target), generatedAt := Some(now))
  }

  /** What a batch does to the rows. */
  function RebuildAll(rows: Rows, chunks: set<Id>, embed: string -> Vector, target: string, now: int): Rows {
    map id | id in rows :: if id in chunks then Rebuilt(rows[id], embed(rows[id].content), target, now) else rows[id]
  }

  /** rows is old with the rows of done embedded again, each at the time of some batch. */
  ghost predicate IsRebuilt(old_: Rows, rows: Rows, done: set<Id>, embed: string -> Vector, target: string,
        clock: nat -> int, batches: nat) {
    && rows.Keys == old_.Keys && done <= old_.Keys
    && (forall id :: id in rows && id !in done ==> rows[id] == old_[id])
    && forall id :: id in done ==> IsRebuiltRow(old_[id], rows[id], embed, target, clock, batches)
  }

  ghost predicate IsRebuiltRow(before: Chunk, after: Chunk, embed: string -> Vector, target: string,
        clock: nat -> int, batches: nat) {
    exists k: nat :: k < batches && after == Rebuilt(before, embed(before.content), target, clock(k))
  }

  /** A row that was embedded again keeps its base and its content, and both its vectors are that of its
      content, under the target model and at the time of a batch. */
  lemma RebuiltFieldByField(old_: Rows, rows: Rows, done: set<Id>, embed: string -> Vector, target: string,
        clock: nat -> int, batches: nat, id: Id)
    requires IsRebuilt(old_, rows, done, embed, target, clock, batches) && id in done
    ensures id in old_ && id in rows && rows[id].base == old_[id].base && rows[id].content == old_[id].content
    ensures rows[id].json == rows[id].vector == Some(embed(old_[id].content)) && rows[id].model == Some(target)
    ensures exists k: nat :: k < batches && rows[id].generatedAt == Some(clock(k))
  {
    assert IsRebuiltRow(old_[id], rows[id], embed, target, clock, batches);
    var k: nat :| k < batches && rows[id] == Rebuilt(old_[id], embed(old_[id].content), target, clock(k));
    assert rows[id].generatedAt == Some(clock(k));
  }

  /** In normal mode a committed row is no candidate any more: what is left is the rest. */
  lemma RestIsLeft(old_: Rows, rows: Rows, done: set<Id>, embed: string -> Vector, job: Job, clock: nat -> int,
        batches: nat)
    requires IsRebuilt(old_, rows, done, embed, job.target, clock, batches)
    ensures Candidates(rows, job) == if job.force then Candidates(old_, job) else Candidates(old_, job) - done
  {
    forall id | id in old_
      ensures id in Candidates(rows, job) <==> id in Candidates(old_, job) && (job.force || id !in done)
    {
      if id in done { assert IsRebuiltRow(old_[id], rows[id], embed, job.target, clock, batches); }
    }
  }

  /** The clock is later than every time stored with a candidate. */
  ghost predicate ClockIsLater(rows: Rows, job: Job, clock: nat -> int) {
    forall id, k: nat :: id in Candidates(rows, job) && rows[id].generatedAt.Some? ==>
        rows[id].generatedAt.value < clock(k)
  }

  /** The next page holds a row that is not done: done rows are no candidates, or sort last. */
  lemma PageAdvances(old_: Rows, rows: Rows, done: set<Id>, embed: string -> Vector, job: Job, clock: nat -> int,
        batches: nat, page: seq<Id>)
    requires IsRebuilt(old_, rows, done, embed, job.target, clock, batches)
    requires done < Candidates(old_, job) && job.batchSize >= 1
    requires IsPage(rows, Candidates(rows, job), job.batchSize, page)
    requires job.force ==> ClockIsLater(old_, job, clock)
    ensures exists i :: 0 <= i < |page| && page[i] !in done
  {
    RestIsLeft(old_, rows, done, embed, job, clock, batches);
    var u :| u in Candidates(old_, job) - done;
    assert u in Candidates(rows, job);
    NonEmptyPage(Candidates(rows, job), u);
    BeforeTransitive(rows, u, page[0], page[0]);
    if page[0] in done {
      assert IsRebuiltRow(old_[page[0]], rows[page[0]], embed, job.target, clock, batches);
      assert page[0] in Candidates(rows, job) && Before(rows, u, page[0]) && !Before(rows, page[0], u);
      assert u in page;
    }
  }

  lemma NonEmptyPage<T>(pool: set<T>, u: T)
    requires u in pool
    ensures |pool| > 0
  {
  }

  /** Without that the page can hold done rows only: a row stamped in the future sorts after them. */
  lemma ForceCanStall(embed: string -> Vector)
    ensures var job := Job(None, "m", 1, true);
            var before: Rows := map[1 := Chunk("b", "one", None, None, None, None),
                2 := Chunk("b", "two", None, None, None, Some(10))];
            var after := RebuildAll(before, {1}, embed, "m", 5);
            && IsRebuilt(before, after, {1}, embed, "m", (k: nat) => 5, 1) && {1} < Candidates(before, job)
            && IsPage(after, Candidates(after, job), 1, [1])
  {
    var job := Job(None, "m", 1, true);
    var before: Rows := map[1 := Chunk("b", "one", None, None, None, None),
        2 := Chunk("b", "two", None, None, None, Some(10))];
    var after := RebuildAll(before, {1}, embed, "m", 5);
    var clock := (k: nat) => 5;
    assert clock(0) == 5 && after[1] == Rebuilt(before[1], embed(before[1].content), "m", clock(0));
    assert IsRebuiltRow(before[1], after[1], embed, "m", clock, 1);
    assert Candidates(before, job) == {1, 2} && Candidates(after, job) == {1, 2};
  }

  /** One more batch of rows that are not done. */
  lemma BatchKeeps(old_: Rows, rows: Rows, done: set<Id>, chunks: set<Id>, embed: string -> Vector, target: string,
        clock: nat -> int, batches: nat)
    requires IsRebuilt(old_, rows, done, embed, target, clock, batches) && chunks <= old_.Keys && chunks !! done
    ensures IsRebuilt(old_, RebuildAll(rows, chunks, embed, target, clock(batches)), done + chunks, embed, target,
              clock, batches + 1)
  {
    var later := RebuildAll(rows, chunks, embed, target, clock(batches));
    forall id | id in done + chunks ensures IsRebuiltRow(old_[id], later[id], embed, target, clock, batches + 1) {
      if id in chunks {
        assert later[id] == Rebuilt(old_[id], embed(old_[id].content), target, clock(batches));
      } else {
        assert IsRebuiltRow(old_[id], rows[id], embed, target, clock, batches);
        var k: nat :| k < batches && rows[id] == Rebuilt(old_[id], embed(old_[id].content), target, clock(k));
        assert k < batches + 1 && later[id] == Rebuilt(old_[id], embed(old_[id].content), target, clock(k));
      }
    }
  }

  /** The rows of the page that were not done before. */
  method NotDone(page: seq<Id>, done: set<Id>) returns (chunks: seq<Id>)
    requires NoDuplicates(page)
    ensures NoDuplicates(chunks) && forall id :: id in chunks <==> id in page && id !in done
  {
    chunks := [];
    for i := 0 to |page|
      invariant NoDuplicates(chunks) && forall id :: id in chunks <==> id in page[..i] && id !in done
    {
      if page[i] !in done { chunks := chunks + [page[i]]; }
    }
  }

  /** Candidates, how many were processed, and in which batch the run failed, if it did. */
  datatype Outcome = Done(candidates: nat, processed: nat) | Failed(code: string)

  class ChunkTable {
    var rows: Rows

    constructor (rows: Rows)
      ensures this.rows == rows
    {
      this.rows := rows;
    }

    /** Writes the vectors of one batch. */
    method WriteBatch(chunks: seq<Id>, embed: string -> Vector, target: string, now: int)
      requires NoDuplicates(chunks) && Elements(chunks) <= rows.Keys
      modifies this
      ensures rows == RebuildAll(old(rows), Elements(chunks), embed, target, now)
    {
      ghost var before := rows;
      for i := 0 to |chunks|
        invariant rows == RebuildAll(before, Elements(chunks[..i]), embed, target, now)
      {
        assert chunks[i] !in Elements(chunks[..i]) && Elements(chunks[..i + 1]) == Elements(chunks[..i]) + {chunks[i]};
        assert chunks[i] in Elements(chunks);
        rows := rows[chunks[i] := Rebuilt(rows[chunks[i]], embed(rows[chunks[i]].content), target, now)];
      }
      assert chunks[..|chunks|] == chunks;
    }

    /** One turn of the loop: the rows it embeds, or none if every row of the page is done. */
    method RebuildBatch(job: Job, embed: string -> Vector, answer: Answer, now: int,
          done: set<Id>) returns (chunks: seq<Id>, failed: bool)
      requires job.batchSize >= 1
      modifies this
      ensures NoDuplicates(chunks) && Elements(chunks) <= Candidates(old(rows), job) && Elements(chunks) !! done
      ensures chunks == [] ==> !failed && StallsOn(old(rows), job, done)
      ensures IsNext(old(rows), job, done, chunks)
      ensures failed <==> chunks != [] && !answer.Vectors?
      ensures rows == if failed || chunks == [] then old(rows)
                else RebuildAll(old(rows), Elements(chunks), embed, job.target, now)
    {
      var page := TakePage(rows, Candidates(rows, job), job.batchSize);
      PageIsDistinct(rows, Candidates(rows, job), job.batchSize, page);
      chunks := NotDone(page, done);
      forall id | id in chunks ensures id in Candidates(rows, job) { assert id in Elements(page); }
      assert IsNextOf(rows, job, done, chunks, page);
      if chunks == [] {
        forall i | 0 <= i < |page| ensures page[i] in done { assert page[i] !in chunks; }
        return chunks, false;
      }
      if !answer.Vectors? {
        return chunks, true;
      }
      WriteBatch(chunks, embed, job.target, now);
      return chunks, false;
    }

    /** One turn of the loop, and what it keeps. */
    method Turn(job: Job, embed: string -> Vector, answer: Answer, now: int, done: set<Id>, ghost old_: Rows,
          ghost clock: nat -> int, ghost work: Work)
      returns (chunks: seq<Id>, failed: bool, ghost next: Work)
      requires job.batchSize >= 1 && work.done == done && now == clock(work.batches)
                 && IsRunning(old_, rows, embed, job, clock, work)
      modifies this
      ensures chunks == [] ==> !failed && rows == old(rows) && next == work && StallsOn(rows, job, done)
      ensures failed ==>
                && chunks != [] && rows == old(rows) && next == work && !answer.Vectors?
                && done < Candidates(old_, job)
      ensures chunks != [] && !failed ==>
                && IsRunning(old_, rows, embed, job, clock, next) && next.batches == work.batches + 1
                && next.done == done + Elements(chunks) && |next.done| == |done| + |chunks| <= |Candidates(old_, job)|
    {
      chunks, failed := RebuildBatch(job, embed, answer, now, done);
      next := work;
      if failed {
        MoreThanDone(old_, rows, embed, job, clock, work, chunks);
      } else if chunks != [] {
        next := NextWork(work, chunks);
        NextBatch(old_, old(rows), embed, job, clock, work, chunks);
      }
    }

    /** The loop of rebuild_embeddings. */
    method RebuildAllBatches(job: Job, embed: string -> Vector, answers: nat -> Answer, clock: nat -> int)
      returns (outcome: Outcome, done: set<Id>, ghost work: Work)
      requires job.batchSize >= 1
      modifies this
      ensures work.done == done && IsRunning(old(rows), rows, embed, job, clock, work)
      ensures outcome.Failed? ==> !answers(work.batches).Vectors? && done < Candidates(old(rows), job)
      ensures outcome.Done? ==>
                && outcome == Done(|Candidates(old(rows), job)|, |done|)
                && EndsWell(old(rows), done, job, clock)
    {
      ghost var before := rows;
      var candidates, processed, k, failed, stalled := |Candidates(rows, job)|, 0, 0, false, false;
      done, work := {}, Work({}, [], 0, {});
      NothingDone(before, embed, job, clock);
      while processed < candidates && !failed && !stalled
        invariant work.batches == k && work.done == done && processed == |done|
                    && candidates == |Candidates(before, job)|
        invariant IsRunning(before, rows, embed, job, clock, work)
        invariant failed ==> !answers(work.batches).Vectors? && done < Candidates(before, job)
        invariant stalled ==> StallsOn(rows, job, done)
        decreases candidates - processed, !failed && !stalled
      {
        var chunks;
        chunks, failed, work := Turn(job, embed, answers(k), clock(k), done, before, clock, work);
        if chunks == [] {
          stalled := true;
        } else if !failed {
          processed, k := processed + |chunks|, k + 1;
          done := done + Elements(chunks);
        }
      }
      if failed {
        outcome := Failed("PROVIDER_ERROR");
      } else {
        RunEnds(before, rows, embed, job, clock, work);
        outcome := Done(candidates, processed);
      }
    }

    /** rebuild_embeddings.  done holds the rows whose batches were committed, sent the order in
        which their texts were embedded. */
    method RebuildEmbeddings(job: Job, embed: string -> Vector, answers: nat -> Answer, clock: nat -> int)
      returns (outcome: Outcome, done: set<Id>, ghost sent: seq<Id>, ghost batches: nat)
      modifies this
      ensures IsRebuilt(old(rows), rows, done, embed, job.target, clock, batches) && done <= Candidates(old(rows), job)
      ensures NoDuplicates(sent) && Elements(sent) == done
      ensures outcome.Failed? ==> job.batchSize < 1 || (!answers(batches).Vectors? && done < Candidates(old(rows), job))
      ensures outcome.Done? ==> job.batchSize >= 1 && outcome == Done(|Candidates(old(rows), job)|, |done|)
      ensures outcome.Done? && (job.force ==> ClockIsLater(old(rows), job, clock)) ==>
                done == Candidates(old(rows), job)
      ensures outcome.Done? && job.force ==> CompletesExactly(old(rows), done, job, clock)
      ensures !job.force ==> Candidates(rows, job) == Candidates(old(rows), job) - done
    {
      done, sent, batches := {}, [], 0;
      NothingDone(rows, embed, job, clock);
      if job.batchSize < 1 {
        return Failed("batch_size must be at least 1"), done, sent, batches;
      }
      ghost var work;
      outcome, done, work := RebuildAllBatches(job, embed, answers, clock);
      sent, batches := work.sent, work.batches;
    }
  }

  /** What a run that returns has done. */
  ghost predicate EndsWell(old_: Rows, done: set<Id>, job: Job, clock: nat -> int)
    requires job.batchSize >= 1
  {
    && ((job.force ==> ClockIsLater(old_, job, clock)) ==> done == Candidates(old_, job))
    && (job.force ==> CompletesExactly(old_, done, job, clock))
  }

  /** What a run has done: the rows whose batches were committed, in which order their texts were
      embedded, the number of batches, and the rows of the first one. */
  datatype Work = Work(done: set<Id>, sent: seq<Id>, batches: nat, first: set<Id>)

  function NextWork(w: Work, chunks: seq<Id>): Work {
    Work(w.done + Elements(chunks), w.sent + chunks, w.batches + 1, if w.batches == 0 then Elements(chunks)
        else w.first)
  }

  ghost predicate IsRunning(old_: Rows, rows: Rows, embed: string -> Vector, job: Job, clock: nat -> int, w: Work)
    requires job.batchSize >= 1
  {
    && IsProgress(old_, rows, w.done, w.sent, embed, job, clock, w.batches)
    && (job.force ==> ForceState(old_, rows, w.done, job, clock, w.batches, w.first))
  }

  lemma NextBatch(old_: Rows, rows: Rows, embed: string -> Vector, job: Job, clock: nat -> int, w: Work,
        chunks: seq<Id>)
    requires job.batchSize >= 1 && IsRunning(old_, rows, embed, job, clock, w)
    requires NoDuplicates(chunks) && Elements(chunks) <= Candidates(rows, job) && Elements(chunks) !! w.done
               && IsNext(rows, job, w.done, chunks)
    ensures IsRunning(old_, RebuildAll(rows, Elements(chunks), embed, job.target, clock(w.batches)), embed, job, clock,
              NextWork(w, chunks))
    ensures |w.done + Elements(chunks)| == |w.done| + |chunks| <= |Candidates(old_, job)|
  {
    BatchProgress(old_, rows, w.done, w.sent, embed, job, clock, w.batches, chunks);
    if job.force { ForceBatch(old_, rows, w.done, w.sent, embed, job, clock, w.batches, w.first, chunks); }
  }

  lemma RunEnds(old_: Rows, rows: Rows, embed: string -> Vector, job: Job, clock: nat -> int, w: Work)
    requires job.batchSize >= 1 && IsRunning(old_, rows, embed, job, clock, w)
    requires |w.done| >= |Candidates(old_, job)| || StallsOn(rows, job, w.done)
    ensures EndsWell(old_, w.done, job, clock)
  {
    if StallsOn(rows, job, w.done) {
      StalledRunEnds(old_, rows, embed, job, clock, w);
    } else {
      FullCardinality(w.done, Candidates(old_, job));
      if job.force { CompleteRunIsExact(old_, rows, w.done, job, clock, w.batches, w.first); }
    }
  }

  lemma StalledRunEnds(old_: Rows, rows: Rows, embed: string -> Vector, job: Job, clock: nat -> int, w: Work)
    requires job.batchSize >= 1 && IsRunning(old_, rows, embed, job, clock, w) && StallsOn(rows, job, w.done)
    ensures EndsWell(old_, w.done, job, clock)
  {
    StallEnds(old_, rows, w.done, embed, job, clock, w.batches);
    if job.force { StalledRunIsExact(old_, rows, w.done, w.sent, embed, job, clock, w.batches, w.first); }
  }

  /** What holds after every committed batch. */
  ghost predicate IsProgress(old_: Rows, rows: Rows, done: set<Id>, sent: seq<Id>, embed: string -> Vector, job: Job,
        clock: nat -> int, batches: nat) {
    && IsRebuilt(old_, rows, done, embed, job.target, clock, batches)
    && done <= Candidates(old_, job) && NoDuplicates(sent) && Elements(sent) == done
    && Candidates(rows, job) == if job.force then Candidates(old_, job) else Candidates(old_, job) - done
  }

  lemma NothingDone(old_: Rows, embed: string -> Vector, job: Job, clock: nat -> int)
    ensures IsProgress(old_, old_, {}, [], embed, job, clock, 0)
    ensures job.batchSize >= 1 ==> IsRunning(old_, old_, embed, job, clock, Work({}, [], 0, {}))
  {
  }

  lemma BatchProgress(old_: Rows, rows: Rows, done: set<Id>, sent: seq<Id>, embed: string -> Vector, job: Job,
        clock: nat -> int, batches: nat, chunks: seq<Id>)
    requires IsProgress(old_, rows, done, sent, embed, job, clock, batches)
    requires NoDuplicates(chunks) && Elements(chunks) <= Candidates(rows, job) && Elements(chunks) !! done
    ensures IsProgress(old_, RebuildAll(rows, Elements(chunks), embed, job.target, clock(batches)),
              done + Elements(chunks), sent + chunks, embed, job, clock, batches + 1)
    ensures |done + Elements(chunks)| == |done| + |chunks| <= |Candidates(old_, job)|
  {
    BatchKeeps(old_, rows, done, Elements(chunks), embed, job.target, clock, batches);
    BatchCounts(done, sent, chunks, Candidates(old_, job));
    RestIsLeft(old_, RebuildAll(rows, Elements(chunks), embed, job.target, clock(batches)), done + Elements(chunks),
        embed, job, clock, batches + 1);
  }

  /** Every row of the next page is done. */
  ghost predicate StallsOn(rows: Rows, job: Job, done: set<Id>)
    requires job.batchSize >= 1
  {
    exists page :: IsPage(rows, Candidates(rows, job), job.batchSize, page) && forall i :: 0 <= i < |page| ==>
        page[i] in done
  }

  /** The chunks are the rows of the next page that are not done. */
  ghost predicate IsNext(rows: Rows, job: Job, done: set<Id>, chunks: seq<Id>)
    requires job.batchSize >= 1
  {
    exists page :: IsNextOf(rows, job, done, chunks, page)
  }

  ghost predicate IsNextOf(rows: Rows, job: Job, done: set<Id>, chunks: seq<Id>, page: seq<Id>)
    requires job.batchSize >= 1
  {
    IsPage(rows, Candidates(rows, job), job.batchSize, page) && forall id :: id in chunks <==> id in page && id !in done
  }

  // ----- When a forced run completes -----

  /** Times do not go back before the first batch, and later ones are later unless no candidate has the
      time of the first batch. */
  ghost predicate IsSteady(rows: Rows, job: Job, clock: nat -> int) {
    && (forall k: nat {:trigger clock(k)} :: clock(0) <= clock(k))
    && (|| (forall k: nat {:trigger clock(k)} :: k > 0 ==> clock(0) < clock(k))
        || forall id :: id in Candidates(rows, job) ==> rows[id].generatedAt != Some(clock(0)))
  }

  /** Row v, as it is, sorts after row q once that is stamped with the time. */
  predicate ComesAfter(c: Chunk, v: Id, time: int, q: Id) {
    c.generatedAt.Some? && (c.generatedAt.value > time || (c.generatedAt.value == time && q < v))
  }

  /** Row v sorts after all the others once those are stamped. */
  ghost predicate IsBlocked(rows: Rows, v: Id, time: int, first: set<Id>)
    requires v in rows
  {
    forall q :: q in first ==> ComesAfter(rows[v], v, time, q)
  }

  /** The rows of the first page. */
  ghost predicate IsFirst(rows: Rows, job: Job, first: set<Id>)
    requires job.batchSize >= 1
  {
    exists page: seq<Id> :: IsPage(rows, Candidates(rows, job), job.batchSize, page) && first == Elements(page)
  }

  /** A candidate beyond the first page sorts after all its rows once they are stamped. */
  ghost predicate HasBlocked(rows: Rows, job: Job, time: int)
    requires job.batchSize >= 1
  {
    exists first :: IsFirst(rows, job, first) && BlocksSome(rows, job, time, first)
  }

  ghost predicate BlocksSome(rows: Rows, job: Job, time: int, first: set<Id>) {
    exists v :: v in Candidates(rows, job) && v !in first && IsBlocked(rows, v, time, first)
  }

  lemma FirstSize(rows: Rows, job: Job, first: set<Id>)
    requires job.batchSize >= 1 && IsFirst(rows, job, first)
    ensures first <= Candidates(rows, job) && |first| == Min(job.batchSize, |Candidates(rows, job)|)
  {
    var page: seq<Id> :| IsPage(rows, Candidates(rows, job), job.batchSize, page) && first == Elements(page);
    PageIsDistinct(rows, Candidates(rows, job), job.batchSize, page);
    DistinctCardinality(page);
  }

  /** There is one first page. */
  lemma FirstIsUnique(rows: Rows, job: Job, first: set<Id>, other: set<Id>)
    requires job.batchSize >= 1 && IsFirst(rows, job, first) && IsFirst(rows, job, other)
    ensures first == other
  {
    FirstSize(rows, job, first);
    FirstSize(rows, job, other);
    if first != other {
      if first <= other { FullCardinality(first, other); }
      if other <= first { FullCardinality(other, first); }
      var x: Id :| x in first && x !in other;
      var y: Id :| y in other && y !in first;
      FirstComesBefore(rows, job, first, x, y);
      FirstComesBefore(rows, job, other, y, x);
      BeforeTransitive(rows, x, y, y);
    }
  }

  lemma FirstComesBefore(rows: Rows, job: Job, first: set<Id>, x: Id, y: Id)
    requires job.batchSize >= 1 && IsFirst(rows, job, first)
    requires x in first && y in Candidates(rows, job) && y !in first
    ensures Before(rows, x, y)
  {
    var page: seq<Id> :| IsPage(rows, Candidates(rows, job), job.batchSize, page) && first == Elements(page);
    var i :| 0 <= i < |page| && page[i] == x;
    assert y !in page;
  }

  /** The rows of a full first batch keep the blocked rows from being reached. */
  ghost predicate Blocks(old_: Rows, rows: Rows, done: set<Id>, job: Job, time: int, first: set<Id>)
    requires job.batchSize >= 1
  {
    && first <= done && IsFirst(old_, job, first)
    && (forall id :: id in first ==> id in rows && rows[id].generatedAt == Some(time))
    && forall v :: v in Candidates(old_, job) && v !in first && IsBlocked(old_, v, time, first) ==> v !in done
  }

  lemma BlockedIsNotReached(old_: Rows, rows: Rows, done: set<Id>, job: Job, time: int, first: set<Id>, page: seq<Id>,
        v: Id)
    requires job.batchSize >= 1 && job.force && Candidates(rows, job) == Candidates(old_, job)
    requires |Candidates(old_, job)| > job.batchSize && Blocks(old_, rows, done, job, time, first)
    requires IsPage(rows, Candidates(rows, job), job.batchSize, page) && v !in first
    requires v in Candidates(old_, job) && v in rows && rows[v] == old_[v] && IsBlocked(old_, v, time, first)
    ensures v !in page
  {
    FirstSize(old_, job, first);
    if v in page {
      forall q | q in first ensures q in page {
        assert ComesAfter(old_[v], v, time, q);
        BeforeTransitive(rows, q, v, v);
        assert q in Candidates(rows, job) && Before(rows, q, v);
      }
      PageHoldsTooMany(first, v, page);
    }
  }

  lemma PageHoldsTooMany(first: set<Id>, v: Id, page: seq<Id>)
    requires (forall q :: q in first ==> q in page) && v in page && v !in first
    ensures |page| > |first|
  {
    assert first + {v} <= Elements(page);
    SubsetCardinality(first + {v}, Elements(page));
    ElementsAtMost(page);
  }

  /** The first batch is the first page. */
  lemma FirstBlocks(old_: Rows, job: Job, embed: string -> Vector, clock: nat -> int, chunks: seq<Id>)
    requires job.batchSize >= 1 && IsNext(old_, job, {}, chunks)
    ensures Blocks(old_, RebuildAll(old_, Elements(chunks), embed, job.target, clock(0)), Elements(chunks), job,
              clock(0), Elements(chunks))
  {
    var page: seq<Id> :| IsNextOf(old_, job, {}, chunks, page);
    assert Elements(chunks) == Elements(page);
  }

  /** Later batches pass the blocked rows over. */
  lemma BlocksStay(old_: Rows, rows: Rows, done: set<Id>, embed: string -> Vector, job: Job, clock: nat -> int,
        batches: nat, first: set<Id>, chunks: seq<Id>)
    requires job.batchSize >= 1 && job.force && IsRebuilt(old_, rows, done, embed, job.target, clock, batches)
    requires Candidates(rows, job) == Candidates(old_, job) && done <= Candidates(old_, job)
    requires Blocks(old_, rows, done, job, clock(0), first) && IsNext(rows, job, done, chunks)
               && Elements(chunks) !! done && |Candidates(old_, job)| > job.batchSize
    ensures Blocks(old_, RebuildAll(rows, Elements(chunks), embed, job.target, clock(batches)), done + Elements(chunks),
              job, clock(0), first)
  {
    var page: seq<Id> :| IsNextOf(rows, job, done, chunks, page);
    forall v | v in Candidates(old_, job) && v !in first && IsBlocked(old_, v, clock(0), first)
      ensures v !in done + Elements(chunks)
    {
      BlockedIsNotReached(old_, rows, done, job, clock(0), first, page, v);
    }
  }

  /** One page holds all candidates if there are few: a stall then means that all are done. */
  lemma SmallStall(rows: Rows, job: Job, done: set<Id>)
    requires job.batchSize >= 1 && StallsOn(rows, job, done) && |Candidates(rows, job)| <= job.batchSize
    ensures Candidates(rows, job) <= done
  {
    var page: seq<Id> :| IsPage(rows, Candidates(rows, job), job.batchSize, page)
        && forall i :: 0 <= i < |page| ==> page[i] in done;
    PageIsDistinct(rows, Candidates(rows, job), job.batchSize, page);
    DistinctCardinality(page);
    FullCardinality(Elements(page), Candidates(rows, job));
  }

  ghost predicate StampedLater(c: Chunk, clock: nat -> int, batches: nat) {
    exists k: nat :: 0 < k < batches && c.generatedAt == Some(clock(k))
  }

  /** What is known of a forced run when it ends: the rows done after the first batch have later stamps. */
  ghost predicate ForceState(old_: Rows, rows: Rows, done: set<Id>, job: Job, clock: nat -> int, batches: nat,
        first: set<Id>)
    requires job.batchSize >= 1
  {
    && (batches == 0 ==> done == {} && first == {})
    && (batches > 0 && |Candidates(old_, job)| > job.batchSize ==> Blocks(old_, rows, done, job, clock(0), first))
    && forall id :: id in done && id !in first ==> id in rows && StampedLater(rows[id], clock, batches)
  }

  lemma ForceBatch(old_: Rows, rows: Rows, done: set<Id>, sent: seq<Id>, embed: string -> Vector, job: Job,
        clock: nat -> int, batches: nat, first: set<Id>, chunks: seq<Id>)
    requires job.batchSize >= 1 && job.force && IsProgress(old_, rows, done, sent, embed, job, clock, batches)
    requires ForceState(old_, rows, done, job, clock, batches, first)
    requires NoDuplicates(chunks) && IsNext(rows, job, done, chunks) && Elements(chunks) !! done
    requires Elements(chunks) <= Candidates(rows, job)
    ensures ForceState(old_, RebuildAll(rows, Elements(chunks), embed, job.target, clock(batches)),
              done + Elements(chunks), job, clock, batches + 1, if batches == 0 then Elements(chunks) else first)
  {
    if batches == 0 {
      assert rows == old_ && done + Elements(chunks) == Elements(chunks);
      FirstBlocks(old_, job, embed, clock, chunks);
    } else {
      if |Candidates(old_, job)| > job.batchSize {
        BlocksStay(old_, rows, done, embed, job, clock, batches, first, chunks);
      }
      StampsGrow(rows, done, embed, job, clock, batches, first, chunks);
    }
  }

  lemma StampsGrow(rows: Rows, done: set<Id>, embed: string -> Vector, job: Job, clock: nat -> int, batches: nat,
        first: set<Id>, chunks: seq<Id>)
    requires batches > 0 && Elements(chunks) <= rows.Keys && Elements(chunks) !! done
    requires forall id :: id in done && id !in first ==> id in rows && StampedLater(rows[id], clock, batches)
    ensures var later := RebuildAll(rows, Elements(chunks), embed, job.target, clock(batches));
            forall id :: id in done + Elements(chunks) && id !in first ==>
              id in later && StampedLater(later[id], clock, batches + 1)
  {
    var later := RebuildAll(rows, Elements(chunks), embed, job.target, clock(batches));
    forall id | id in done + Elements(chunks) && id !in first
      ensures id in later && StampedLater(later[id], clock, batches + 1)
    {
      if id in Elements(chunks) {
        assert 0 < batches < batches + 1 && later[id].generatedAt == Some(clock(batches));
      } else {
        var k: nat :| 0 < k < batches && rows[id].generatedAt == Some(clock(k));
        assert k < batches + 1 && later[id].generatedAt == Some(clock(k));
      }
    }
  }

  /** A forced run completes only if its candidates fit into one batch or none of them is blocked by the
      first page, and with a steady clock if and only if that is so. */
  ghost predicate CompletesExactly(old_: Rows, done: set<Id>, job: Job, clock: nat -> int)
    requires job.batchSize >= 1
  {
    var mayComplete := |Candidates(old_, job)| <= job.batchSize || !HasBlocked(old_, job, clock(0));
    && (done == Candidates(old_, job) ==> mayComplete)
    && (IsSteady(old_, job, clock) ==> (done == Candidates(old_, job) <==> mayComplete))
  }

  lemma CompleteRunIsExact(old_: Rows, rows: Rows, done: set<Id>, job: Job, clock: nat -> int, batches: nat,
        first: set<Id>)
    requires job.batchSize >= 1 && ForceState(old_, rows, done, job, clock, batches, first)
               && done == Candidates(old_, job)
    ensures CompletesExactly(old_, done, job, clock)
  {
    if |Candidates(old_, job)| > job.batchSize && HasBlocked(old_, job, clock(0)) {
      BlockedIsLeft(old_, rows, done, job, clock(0), first);
    }
  }

  lemma BlockedIsLeft(old_: Rows, rows: Rows, done: set<Id>, job: Job, time: int, first: set<Id>)
    requires job.batchSize >= 1 && Blocks(old_, rows, done, job, time, first) && HasBlocked(old_, job, time)
    ensures done != Candidates(old_, job)
  {
    var other :| IsFirst(old_, job, other) && BlocksSome(old_, job, time, other);
    FirstIsUnique(old_, job, first, other);
    var v: Id :| v in Candidates(old_, job) && v !in first && IsBlocked(old_, v, time, first);
    assert v !in done;
  }

  lemma StalledRunIsExact(old_: Rows, rows: Rows, done: set<Id>, sent: seq<Id>, embed: string -> Vector, job: Job,
        clock: nat -> int, batches: nat, first: set<Id>)
    requires job.batchSize >= 1 && job.force && IsProgress(old_, rows, done, sent, embed, job, clock, batches)
    requires ForceState(old_, rows, done, job, clock, batches, first) && StallsOn(rows, job, done)
    ensures CompletesExactly(old_, done, job, clock)
  {
    if done == Candidates(old_, job) {
      CompleteRunIsExact(old_, rows, done, job, clock, batches, first);
    } else if |Candidates(old_, job)| <= job.batchSize {
      SmallStall(rows, job, done);
    } else if IsSteady(old_, job, clock) {
      StallHasBlocked(old_, rows, done, sent, embed, job, clock, batches, first);
    }
  }

  /** A page of done rows only, in front of a row that is left, is the first page again. */
  lemma StallHasBlocked(old_: Rows, rows: Rows, done: set<Id>, sent: seq<Id>, embed: string -> Vector, job: Job,
        clock: nat -> int, batches: nat, first: set<Id>)
    requires job.batchSize >= 1 && job.force && IsProgress(old_, rows, done, sent, embed, job, clock, batches)
    requires ForceState(old_, rows, done, job, clock, batches, first) && StallsOn(rows, job, done)
    requires |Candidates(old_, job)| > job.batchSize && done != Candidates(old_, job) && IsSteady(old_, job, clock)
    ensures HasBlocked(old_, job, clock(0))
  {
    var page: seq<Id> :| IsPage(rows, Candidates(rows, job), job.batchSize, page)
        && forall i :: 0 <= i < |page| ==> page[i] in done;
    var v: Id :| v in Candidates(old_, job) && v !in done;
    assert page[0] in done;
    FirstSize(old_, job, first);
    forall i | 0 <= i < |page| ensures page[i] in rows && Before(rows, page[i], v) && page[i] in done {
      assert page[i] in Elements(page) && v !in page;
    }
    PageIsDistinct(rows, Candidates(rows, job), job.batchSize, page);
    LeftIsBlocked(old_, rows, done, embed, job, clock, batches, first, page, v);
    assert BlocksSome(old_, job, clock(0), first);
  }

  lemma LeftIsBlocked(old_: Rows, rows: Rows, done: set<Id>, embed: string -> Vector, job: Job, clock: nat -> int,
        batches: nat, first: set<Id>, page: seq<Id>, v: Id)
    requires job.batchSize >= 1 && IsRebuilt(old_, rows, done, embed, job.target, clock, batches)
    requires IsSteady(old_, job, clock) && IsFirst(old_, job, first)
    requires page != [] && NoDuplicates(page) && |first| <= |page|
    requires forall i :: 0 <= i < |page| ==> page[i] in done && Before(rows, page[i], v)
    requires forall id :: id in done && id !in first ==> StampedLater(rows[id], clock, batches)
    requires v in Candidates(old_, job) && v in rows && v !in done && v !in first
    ensures IsBlocked(old_, v, clock(0), first)
  {
    assert rows[v] == old_[v];
    forall i | 0 <= i < |page| ensures DoneBefore(rows, page[i], v, clock(0)) {
      assert IsRebuiltRow(old_[page[i]], rows[page[i]], embed, job.target, clock, batches);
    }
    assert DoneBefore(rows, page[0], v, clock(0));
    if old_[v].generatedAt.value == clock(0) {
      forall i | 0 <= i < |page| ensures page[i] in first && page[i] < v {
        assert DoneBefore(rows, page[i], v, clock(0));
      }
      DistinctCardinality(page);
      FullCardinality(Elements(page), first);
    }
  }

  /** Row q was stamped no earlier than the time and comes before v. */
  ghost predicate DoneBefore(rows: Rows, q: Id, v: Id, time: int) {
    && q in rows && v in rows && rows[q].generatedAt.Some? && rows[v].generatedAt.Some?
    && time <= rows[q].generatedAt.value <= rows[v].generatedAt.value
    && (rows[q].generatedAt == rows[v].generatedAt ==> q < v)
  }

  lemma PageIsDistinct(rows: Rows, pool: set<Id>, n: nat, page: seq<Id>)
    requires pool <= rows.Keys && IsPage(rows, pool, n, page)
    ensures NoDuplicates(page)
  {
    forall i, j | 0 <= i < j < |page| ensures page[i] != page[j] {
      assert Before(rows, page[i], page[j]);
    }
  }

  /** The loop stalls before the end only in force mode with a clock that is not later. */
  lemma StallEnds(old_: Rows, rows: Rows, done: set<Id>, embed: string -> Vector, job: Job, clock: nat -> int,
        batches: nat)
    requires IsRebuilt(old_, rows, done, embed, job.target, clock, batches) && done <= Candidates(old_, job)
               && job.batchSize >= 1
    requires StallsOn(rows, job, done)
    ensures (job.force ==> ClockIsLater(old_, job, clock)) ==> done == Candidates(old_, job)
  {
    var page: seq<Id> :| IsPage(rows, Candidates(rows, job), job.batchSize, page)
        && forall i :: 0 <= i < |page| ==> page[i] in done;
    if done != Candidates(old_, job) && (job.force ==> ClockIsLater(old_, job, clock)) {
      PageAdvances(old_, rows, done, embed, job, clock, batches, page);
    }
  }

  lemma MoreThanDone(old_: Rows, rows: Rows, embed: string -> Vector, job: Job, clock: nat -> int, w: Work,
        chunks: seq<Id>)
    requires job.batchSize >= 1 && IsRunning(old_, rows, embed, job, clock, w)
    requires chunks != [] && Elements(chunks) <= Candidates(rows, job) && Elements(chunks) !! w.done
    ensures w.done < Candidates(old_, job)
  {
    assert chunks[0] in Elements(chunks);
  }

  lemma BatchCounts(done: set<Id>, sent: seq<Id>, chunks: seq<Id>, all: set<Id>)
    requires NoDuplicates(sent) && Elements(sent) == done && NoDuplicates(chunks) && Elements(chunks) !! done
               && done + Elements(chunks) <= all
    ensures NoDuplicates(sent + chunks) && Elements(sent + chunks) == done + Elements(chunks)
    ensures |done + Elements(chunks)| == |done| + |chunks| <= |all|
  {
    forall i, j | 0 <= i < j < |sent + chunks| ensures (sent + chunks)[i] != (sent + chunks)[j] {
      if i < |sent| <= j { assert sent[i] in Elements(sent) && chunks[j - |sent|] in Elements(chunks); }
    }
    DistinctCardinality(chunks);
    SubsetCardinality(done + Elements(chunks), all);
  }
}
