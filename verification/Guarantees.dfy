/** The pipeline's promises, for every run from the empty system. */
module Guarantees {
  import opened Base
  import opened Documents
  import opened JobQueue
  import opened Pipeline
  import opened Ledgers
  import opened Claims
  import Delivery
  import Integrity

  // ----- Claims -----

  lemma ClaimantExists(s: State, id: int) returns (w: nat)
    requires Ledger(s, ClaimsOn(id)) > 0
    ensures w < |s.workers| && HoldsClaim(s.workers[w]) && s.workers[w].job.doc == id
  {
    SumZero(s.lists.main, ClaimsOn(id).main);
    SumZero(s.lists.processing, ClaimsOn(id).processing);
    SumZero(s.lists.dead, ClaimsOn(id).dead);
    w := SumPositive(s.workers, ClaimsOn(id).pc);
  }

  /** At most one worker is between its claim and its mark of a document, whatever crashes or fails. */
  lemma OneClaimant(c: Config, steps: seq<Step>, w: nat, v: nat)
    requires Run(c, Initial(), steps)
    requires w < v < |After(c, Initial(), steps).workers|
    ensures
      var ws := After(c, Initial(), steps).workers;
      HoldsClaim(ws[w]) && HoldsClaim(ws[v]) ==> ws[w].job.doc != ws[v].job.doc
  {
    var s := After(c, Initial(), steps);
    ExclusiveAlways(c, steps);
    if HoldsClaim(s.workers[w]) && HoldsClaim(s.workers[v]) && s.workers[w].job.doc == s.workers[v].job.doc {
      var id := s.workers[w].job.doc;
      assert Ledger(s, ClaimsOn(id)) <= ProcessingCount(s.rows, id);
      ClaimsCounted(s, w, v, id);
    }
  }

  /** A claim holder is told "document is not processing" only if the row was deleted meanwhile. */
  lemma MarkMissesOnlyDeleted(c: Config, steps: seq<Step>, w: nat)
    requires Run(c, Initial(), steps)
    requires w < |After(c, Initial(), steps).workers| && HoldsClaim(After(c, Initial(), steps).workers[w])
    ensures
      var s := After(c, Initial(), steps);
      var id := s.workers[w].job.doc;
      id in s.rows && (Markable(s.rows, id) <==> s.rows[id].deletedAt.None?)
  {
    var s := After(c, Initial(), steps);
    ExclusiveAlways(c, steps);
    var id := s.workers[w].job.doc;
    assert Ledger(s, ClaimsOn(id)) <= ProcessingCount(s.rows, id);
    ClaimsCounted(s, w, w, id);
  }

  lemma NobodyHolds(s: State, id: int)
    requires Orphaned(s, id)
    ensures forall w :: 0 <= w < |s.workers| && HoldsClaim(s.workers[w]) ==> s.workers[w].job.doc != id
  {
    forall w | 0 <= w < |s.workers| && HoldsClaim(s.workers[w]) ensures s.workers[w].job.doc != id {
      if s.workers[w].job.doc == id {
        ClaimsCounted(s, w, w, id);
      }
    }
  }

  /**
   * Nothing recovers a claim that a crash or a failing Mark statement loses: from then on
   * the row stays processing for good, and no worker ever holds its claim again.
   */
  lemma LostClaimsStayLost(c: Config, steps: seq<Step>, id: int)
    requires Run(c, Initial(), steps) && ClaimLost(c, steps, id)
    ensures
      var s := After(c, Initial(), steps);
      && id in s.rows && s.rows[id].status == Processing
      && forall w :: 0 <= w < |s.workers| && HoldsClaim(s.workers[w]) ==> s.workers[w].job.doc != id
  {
    ClaimHeldUnlessLost(c, steps, id);
    NobodyHolds(After(c, Initial(), steps), id);
  }

  /**
   * Over every run, an undeleted row has a claim holder exactly when it is processing and no
   * claim of it was ever lost to a crash or a failing Mark statement.
   */
  lemma ProcessingMeansClaimed(c: Config, steps: seq<Step>, id: int)
    requires Run(c, Initial(), steps)
    requires Live(After(c, Initial(), steps).rows, id)
    ensures
      var s := After(c, Initial(), steps);
      (exists w :: 0 <= w < |s.workers| && HoldsClaim(s.workers[w]) && s.workers[w].job.doc == id)
      <==> s.rows[id].status == Processing && !ClaimLost(c, steps, id)
  {
    var s := After(c, Initial(), steps);
    ClaimHeldUnlessLost(c, steps, id);
    if s.rows[id].status == Processing && !ClaimLost(c, steps, id) {
      var w := ClaimantExists(s, id);
    }
    forall w | 0 <= w < |s.workers| && HoldsClaim(s.workers[w]) && s.workers[w].job.doc == id
      ensures s.rows[id].status == Processing && !ClaimLost(c, steps, id)
    {
      MarkMissesOnlyDeleted(c, steps, w);
      if ClaimLost(c, steps, id) {
        NobodyHolds(s, id);
      }
    }
  }

  // ----- Integrity -----

  /** Every row's object is stored with the recorded size; a ready row carries its checksum. */
  lemma ReadyRowsIntact(c: Config, steps: seq<Step>, id: int)
    requires Run(c, Initial(), steps) && id in After(c, Initial(), steps).rows
    ensures
      var s := After(c, Initial(), steps);
      var row := s.rows[id];
      && row.key in s.objects && row.size == |s.objects[row.key]|
      && (row.status == Ready <==> row.checksum.Some?)
      && (row.status == Ready ==> row.checksum == Some(c.sha(s.objects[row.key])))
      && (row.status == Failed <==> row.failure.Some?)
      && (row.failure.Some? ==> |row.failure.value| <= 512)
  {
    Integrity.SoundAlways(c, steps);
    assert Integrity.RowSound(c, After(c, Initial(), steps), After(c, Initial(), steps).rows[id]);
  }

  /** A claim holder whose read succeeds never sees a size mismatch: it goes on to MarkReady. */
  lemma SizeMismatchUnreachable(c: Config, steps: seq<Step>, w: nat, cause: Bytes)
    requires Run(c, Initial(), steps)
    requires w < |After(c, Initial(), steps).workers| && After(c, Initial(), steps).workers[w].Holding?
    ensures WorkPc(c, After(c, Initial(), steps), w, true, cause).Summed?
  {
    var s := After(c, Initial(), steps);
    Integrity.SoundAlways(c, steps);
    assert Integrity.WorkerSound(c, s, s.workers[w]);
    assert Integrity.RowSound(c, s, s.rows[s.workers[w].job.doc]);
  }

  /**
   * From any point of a run on: a row keeps its owner, key and size and its object keeps
   * its content, ready is final, and a deleted row never changes again.
   */
  lemma {:induction false} RowsEvolve(c: Config, before: seq<Step>, after: seq<Step>)
    requires Run(c, Initial(), before + after)
    ensures Run(c, Initial(), before)
    ensures Integrity.Evolves(After(c, Initial(), before), After(c, Initial(), before + after))
  {
    if after == [] {
      assert before + after == before;
      Integrity.SoundAlways(c, before);
      var s := After(c, Initial(), before);
      forall id | id in s.rows ensures s.rows[id].key in s.objects {
        assert Integrity.RowSound(c, s, s.rows[id]);
      }
    } else {
      var n := |after| - 1;
      var all := before + after;
      assert all[..|all| - 1] == before + after[..n] && all[|all| - 1] == after[n];
      RowsEvolve(c, before, after[..n]);
      Integrity.SoundAlways(c, before + after[..n]);
      Integrity.StepEvolves(c, After(c, Initial(), before + after[..n]), after[n]);
    }
  }

  // ----- Status history -----

  /** The statuses a row goes through, without repetitions. */
  function StatusTrace(c: Config, steps: seq<Step>, id: int): seq<Status> {
    if steps == [] then []
    else
      var trace := StatusTrace(c, steps[..|steps| - 1], id);
      var s := After(c, Initial(), steps);
      if id !in s.rows || (trace != [] && trace[|trace| - 1] == s.rows[id].status) then trace
      else trace + [s.rows[id].status]
  }

  /** (processing failed)* [processing [ready]] */
  predicate Attempts(trace: seq<Status>) {
    || trace == []
    || trace == [Processing]
    || trace == [Processing, Ready]
    || (|trace| >= 2 && trace[0] == Processing && trace[1] == Failed && Attempts(trace[2..]))
  }

  predicate Lifecycle(trace: seq<Status>) {
    trace != [] && trace[0] == Pending && Attempts(trace[1..])
  }

  lemma {:induction false} AttemptsExtend(trace: seq<Status>, status: Status)
    requires Attempts(trace)
    requires trace == [] ==> status == Processing
    requires trace != [] ==> Integrity.StatusEdge(trace[|trace| - 1], status)
    ensures Attempts(trace + [status])
  {
    if trace != [] && trace != [Processing] && trace != [Processing, Ready] {
      if |trace| > 2 {
        AttemptsExtend(trace[2..], status);
      }
      assert (trace + [status])[2..] == trace[2..] + [status];
    }
  }

  lemma LifecycleExtends(trace: seq<Status>, status: Status)
    requires Lifecycle(trace) && Integrity.StatusEdge(trace[|trace| - 1], status)
    ensures Lifecycle(trace + [status])
  {
    assert |trace| > 1 ==> trace[1..][|trace| - 2] == trace[|trace| - 1];
    AttemptsExtend(trace[1..], status);
    assert (trace + [status])[1..] == trace[1..] + [status];
  }

  /** The trace describes the row as it is now. */
  predicate TraceFits(trace: seq<Status>, rows: Table, id: int) {
    if id in rows then Lifecycle(trace) && trace[|trace| - 1] == rows[id].status else trace == []
  }

  lemma {:induction false} StatusTraceFits(c: Config, steps: seq<Step>, id: int)
    requires Run(c, Initial(), steps)
    ensures TraceFits(StatusTrace(c, steps, id), After(c, Initial(), steps).rows, id)
  {
    if steps != [] {
      var n := |steps| - 1;
      var s, s' := After(c, Initial(), steps[..n]), After(c, Initial(), steps);
      var trace := StatusTrace(c, steps[..n], id);
      StatusTraceFits(c, steps[..n], id);
      Integrity.StepMovesAlongEdges(c, s, steps[n], id);
      if id in s.rows && s.rows[id].status != s'.rows[id].status {
        LifecycleExtends(trace, s'.rows[id].status);
      }
    }
  }

  /** Over every run a row's statuses are pending (processing failed)* [processing [ready]]. */
  lemma StatusHistory(c: Config, steps: seq<Step>, id: int)
    requires Run(c, Initial(), steps) && id in After(c, Initial(), steps).rows
    ensures Lifecycle(StatusTrace(c, steps, id))
  {
    StatusTraceFits(c, steps, id);
  }

  // ----- Upload saga -----

  /** Every row has its object; an object without row and upload is a failed compensation or a crashed upload. */
  lemma SagaConsistent(c: Config, steps: seq<Step>, key: Key)
    requires Run(c, Initial(), steps)
    ensures
      var s := After(c, Initial(), steps);
      && (Integrity.Referenced(s, key) ==> key in s.objects)
      && (key in s.objects && !Integrity.Referenced(s, key) && !Integrity.InUpload(s, key) ==>
            key in s.history.undeleted || key in s.history.abandoned)
  {
    var s := After(c, Initial(), steps);
    Integrity.SoundAlways(c, steps);
    if Integrity.Referenced(s, key) {
      var id :| id in s.rows && s.rows[id].key == key;
      assert Integrity.RowSound(c, s, s.rows[id]);
    }
  }

  lemma StepUnclaimed(c: Config, s: State, step: Step, id: int)
    requires Exclusive(s) && Enabled(s, step)
    requires id in s.rows && s.history.claims[id] == 0 ==> s.rows[id].status == Pending
    ensures
      var s' := Apply(c, s, step);
      id in s'.rows && s'.history.claims[id] == 0 ==> s'.rows[id].status == Pending
  {
  }

  lemma {:induction false} UnclaimedIsPending(c: Config, steps: seq<Step>, id: int)
    requires Run(c, Initial(), steps)
    ensures
      var s := After(c, Initial(), steps);
      id in s.rows && s.history.claims[id] == 0 ==> s.rows[id].status == Pending
  {
    if steps != [] {
      var n := |steps| - 1;
      UnclaimedIsPending(c, steps[..n], id);
      ExclusiveAlways(c, steps[..n]);
      hide Apply;
      StepUnclaimed(c, After(c, Initial(), steps[..n]), steps[n], id);
    }
  }

  // ----- Queue -----

  /** A document is claimed at most maxAttempts times per enqueued job. */
  lemma ClaimsBounded(c: Config, steps: seq<Step>, id: int)
    requires c.maxAttempts > 0 && Run(c, Initial(), steps)
    ensures
      var h := After(c, Initial(), steps).history;
      h.claims[id] <= c.maxAttempts * h.enqueued[id]
  {
    var s := After(c, Initial(), steps);
    Delivery.QueueAlways(c, steps);
    assert s.history.claims[id] + Ledger(s, ClaimsLeft(c, id)) <= c.maxAttempts * s.history.enqueued[id];
    SumNonNegative(s.lists.main, ClaimsLeft(c, id).main);
    SumZero(s.lists.processing, ClaimsLeft(c, id).processing);
    SumZero(s.lists.dead, ClaimsLeft(c, id).dead);
    SumNonNegative(s.workers, ClaimsLeft(c, id).pc);
  }

  /** A row whose Enqueue failed, and that nobody enqueued since, is still pending. */
  lemma FailedEnqueueLeavesPending(c: Config, steps: seq<Step>, id: int)
    requires c.maxAttempts > 0 && Run(c, Initial(), steps)
    ensures
      var s := After(c, Initial(), steps);
      id in s.rows && s.history.enqueued[id] == 0 ==> s.rows[id].status == Pending
  {
    ClaimsBounded(c, steps, id);
    UnclaimedIsPending(c, steps, id);
  }

  /** Attempts stay in 1..maxAttempts, dead letters are at maxAttempts, and Consume never meets a payload it rejects. */
  lemma AttemptsInRange(c: Config, steps: seq<Step>)
    requires c.maxAttempts > 0 && Run(c, Initial(), steps)
    ensures
      var s := After(c, Initial(), steps);
      && (forall j :: j in s.lists.main || j in s.lists.processing ==> 1 <= j.attempt <= c.maxAttempts)
      && (forall j :: j in s.lists.dead ==> j.attempt == c.maxAttempts)
      && (forall w :: 0 <= w < |s.workers| ==> !s.workers[w].Rejecting?)
      && (s.lists.main != [] ==> ValidJob(Oldest(s.lists)))
  {
    Delivery.QueueAlways(c, steps);
  }

  /** What has left the main list, then the list read right to left, is everything ever pushed, in order. */
  lemma FirstInFirstOut(c: Config, steps: seq<Step>)
    requires Run(c, Initial(), steps)
    ensures
      var s := After(c, Initial(), steps);
      s.history.moved <= s.history.pushed && s.history.pushed == s.history.moved + Reverse(s.lists.main)
  {
    Delivery.FlowAlways(c, steps);
  }

  function DocsOf(jobs: seq<Job>): multiset<int> {
    if jobs == [] then multiset{} else multiset{jobs[0].doc} + DocsOf(jobs[1..])
  }

  /** Documents of the jobs that workers hold between the two halves of Retry. */
  function DocsInRetry(workers: seq<WorkerPc>): multiset<int> {
    if workers == [] then multiset{}
    else (if workers[0].Pushing? then multiset{workers[0].job.doc} else multiset{}) + DocsInRetry(workers[1..])
  }

  function PayloadsOf(workers: seq<WorkerPc>): multiset<Job> {
    if workers == [] then multiset{}
    else (if HoldsPayload(workers[0]) then multiset{workers[0].job} else multiset{}) + PayloadsOf(workers[1..])
  }

  lemma {:induction false} SumCountsDocs(jobs: seq<Job>, doc: int)
    ensures Sum(jobs, IsOf(doc)) == DocsOf(jobs)[doc]
  {
    if jobs != [] {
      SumCountsDocs(jobs[1..], doc);
    }
  }

  lemma {:induction false} SumCountsRetries(workers: seq<WorkerPc>, doc: int)
    ensures Sum(workers, JobsOf(doc).pc) == DocsInRetry(workers)[doc]
  {
    if workers != [] {
      SumCountsRetries(workers[1..], doc);
    }
  }

  lemma {:induction false} SumCountsJob(jobs: seq<Job>, job: Job)
    ensures Sum(jobs, IsJob(job)) == multiset(jobs)[job]
  {
    if jobs != [] {
      SumCountsJob(jobs[1..], job);
      assert jobs == [jobs[0]] + jobs[1..];
    }
  }

  lemma {:induction false} SumCountsPayloads(workers: seq<WorkerPc>, job: Job)
    ensures Sum(workers, Unheld(job).pc) == -(PayloadsOf(workers)[job] as int)
  {
    if workers != [] {
      SumCountsPayloads(workers[1..], job);
    }
  }

  lemma UnheldIsDifference(s: State, job: Job)
    ensures Ledger(s, Unheld(job)) == multiset(s.lists.processing)[job] as int - PayloadsOf(s.workers)[job] as int
  {
    SumZero(s.lists.main, Unheld(job).main);
    SumZero(s.lists.dead, Unheld(job).dead);
    SumCountsJob(s.lists.processing, job);
    SumCountsPayloads(s.workers, job);
  }

  lemma PayloadsContained(s: State)
    ensures Delivery.PayloadsHeld(s) <==> PayloadsOf(s.workers) <= multiset(s.lists.processing)
  {
    forall job
      ensures Ledger(s, Unheld(job)) >= 0 <==> PayloadsOf(s.workers)[job] <= multiset(s.lists.processing)[job]
    {
      UnheldIsDifference(s, job);
    }
    assert PayloadsOf(s.workers) <= multiset(s.lists.processing) <==>
      forall job :: PayloadsOf(s.workers)[job] <= multiset(s.lists.processing)[job];
  }

  /** Workers' payloads are contained in the processing list, so LREM removes exactly one entry and robs nobody. */
  lemma RemovalTakesOwnPayload(c: Config, steps: seq<Step>, w: nat)
    requires Run(c, Initial(), steps)
    requires w < |After(c, Initial(), steps).workers|
    requires After(c, Initial(), steps).workers[w].Acking? || After(c, Initial(), steps).workers[w].Retrying?
    ensures
      var s := After(c, Initial(), steps);
      var s' := WorkStep(c, s, w, true, []);
      && PayloadsOf(s.workers) <= multiset(s.lists.processing)
      && multiset(s'.lists.processing) == multiset(s.lists.processing) - multiset{s.workers[w].job}
      && PayloadsOf(s'.workers) <= multiset(s'.lists.processing)
  {
    var s := After(c, Initial(), steps);
    ExclusiveAlways(c, steps);
    PayloadsContained(s);
    Delivery.HeldPayloadIsListed(s, w);
    RemoveFirstRemovesOne(s.lists.processing, s.workers[w].job);
    Delivery.StepHoldsPayloads(c, s, Work(w, true, []));
    PayloadsContained(WorkStep(c, s, w, true, []));
  }

  lemma QuietStepLosesNothing(c: Config, s: State, step: Step)
    requires Enabled(s, step) && !Disturbs(s, step) && Delivery.AttemptsBounded(c, s)
    ensures Apply(c, s, step).history.lost == s.history.lost
  {
  }

  lemma QuietStepKeepsPayload(c: Config, s: State, step: Step, job: Job)
    requires Enabled(s, step) && !Disturbs(s, step)
    requires Delivery.AttemptsBounded(c, s) && PayloadPresent(s, step)
    ensures Ledger(Apply(c, s, step), Unheld(job)) == Ledger(s, Unheld(job))
  {
    StepBalance(c, s, step, Unheld(job));
  }

  lemma QuietStepKeepsPayloadsOf(c: Config, s: State, step: Step, id: int)
    requires Enabled(s, step) && !Disturbs(s, step)
    requires Delivery.AttemptsBounded(c, s) && PayloadPresent(s, step)
    ensures Ledger(Apply(c, s, step), UnheldOf(id)) == Ledger(s, UnheldOf(id))
  {
    StepBalance(c, s, step, UnheldOf(id));
  }

  lemma {:induction false} QuietRunsLoseNothing(c: Config, steps: seq<Step>)
    requires c.maxAttempts > 0 && QuietRun(c, steps)
    ensures
      var s := After(c, Initial(), steps);
      && s.history.lost == multiset{}
      && (forall job :: Ledger(s, Unheld(job)) == 0)
      && (forall id :: Ledger(s, UnheldOf(id)) == 0)
  {
    if steps != [] {
      var n := |steps| - 1;
      var s := After(c, Initial(), steps[..n]);
      QuietRunsLoseNothing(c, steps[..n]);
      QuietRunIsRun(c, steps[..n]);
      Delivery.QueueAlways(c, steps[..n]);
      Delivery.StepFindsPayload(s, steps[n]);
      hide Apply;
      forall job
        ensures Ledger(After(c, Initial(), steps), Unheld(job)) == Ledger(s, Unheld(job))
      {
        QuietStepKeepsPayload(c, s, steps[n], job);
      }
      forall id ensures Ledger(After(c, Initial(), steps), UnheldOf(id)) == Ledger(s, UnheldOf(id)) {
        QuietStepKeepsPayloadsOf(c, s, steps[n], id);
      }
      QuietStepLosesNothing(c, s, steps[n]);
    }
  }

  lemma JobsCounted(s: State, doc: int)
    requires Delivery.JobsConserved(s)
    ensures s.history.enqueued[doc] ==
      DocsOf(s.lists.main)[doc] + DocsOf(s.lists.processing)[doc] + DocsOf(s.lists.dead)[doc]
      + DocsInRetry(s.workers)[doc] + s.history.acked[doc] + s.history.lost[doc]
  {
    assert s.history.enqueued[doc] == Ledger(s, JobsOf(doc)) + s.history.acked[doc] + s.history.lost[doc];
    SumCountsDocs(s.lists.main, doc);
    SumCountsDocs(s.lists.processing, doc);
    SumCountsDocs(s.lists.dead, doc);
    SumCountsRetries(s.workers, doc);
  }

  lemma JobsAddUp(s: State)
    requires Delivery.JobsConserved(s)
    ensures s.history.enqueued ==
      DocsOf(s.lists.main) + DocsOf(s.lists.processing) + DocsOf(s.lists.dead)
      + DocsInRetry(s.workers) + s.history.acked + s.history.lost
  {
    forall doc
      ensures s.history.enqueued[doc] ==
        (DocsOf(s.lists.main) + DocsOf(s.lists.processing) + DocsOf(s.lists.dead)
         + DocsInRetry(s.workers) + s.history.acked + s.history.lost)[doc]
    {
      JobsCounted(s, doc);
    }
  }

  /**
   * Whatever crashes or fails, every enqueued job is in exactly one place: in a list, in
   * hand during Retry, acknowledged, or lost to a crash, a failed push or a rejection.
   */
  lemma JobsAccounted(c: Config, steps: seq<Step>)
    requires Run(c, Initial(), steps)
    ensures
      var s := After(c, Initial(), steps);
      s.history.enqueued ==
        DocsOf(s.lists.main) + DocsOf(s.lists.processing) + DocsOf(s.lists.dead)
        + DocsInRetry(s.workers) + s.history.acked + s.history.lost
  {
    Delivery.FlowAlways(c, steps);
    JobsAddUp(After(c, Initial(), steps));
  }

  /**
   * Without crashes and Redis failures the enqueued jobs are, as multisets and up to the
   * attempt number, those in the three lists, in hand during Retry, and acknowledged; and
   * the processing list holds exactly the workers' payloads.
   */
  lemma JobsConserved(c: Config, steps: seq<Step>)
    requires c.maxAttempts > 0 && QuietRun(c, steps)
    ensures
      var s := After(c, Initial(), steps);
      && s.history.enqueued == DocsOf(s.lists.main) + DocsOf(s.lists.processing) + DocsOf(s.lists.dead)
                               + DocsInRetry(s.workers) + s.history.acked
      && multiset(s.lists.processing) == PayloadsOf(s.workers)
  {
    var s := After(c, Initial(), steps);
    QuietRunsLoseNothing(c, steps);
    QuietRunIsRun(c, steps);
    JobsAccounted(c, steps);
    forall job ensures multiset(s.lists.processing)[job] == PayloadsOf(s.workers)[job] {
      UnheldIsDifference(s, job);
    }
  }

  // ----- No lost document -----

  /** Documents of the jobs that workers are about to acknowledge. */
  function DocsInAck(workers: seq<WorkerPc>): multiset<int> {
    if workers == [] then multiset{}
    else (if workers[0].Acking? then multiset{workers[0].job.doc} else multiset{}) + DocsInAck(workers[1..])
  }

  lemma {:induction false} SumCountsUnacked(workers: seq<WorkerPc>, doc: int)
    ensures Sum(workers, Unacked(doc).pc) == DocsInRetry(workers)[doc] as int - DocsInAck(workers)[doc] as int
  {
    if workers != [] {
      SumCountsUnacked(workers[1..], doc);
    }
  }

  lemma UnackedCounted(s: State, id: int)
    ensures Ledger(s, Unacked(id)) ==
      DocsOf(s.lists.main)[id] + DocsOf(s.lists.processing)[id] + DocsOf(s.lists.dead)[id]
      + DocsInRetry(s.workers)[id] as int - DocsInAck(s.workers)[id] as int
  {
    SumCountsDocs(s.lists.main, id);
    SumCountsDocs(s.lists.processing, id);
    SumCountsDocs(s.lists.dead, id);
    SumCountsUnacked(s.workers, id);
  }

  lemma UnsettledHasJob(c: Config, steps: seq<Step>, id: int)
    requires Run(c, Initial(), steps)
    ensures
      var s := After(c, Initial(), steps);
      Live(s.rows, id) && s.rows[id].status != Ready && s.history.enqueued[id] > 0
      && !ClaimLost(c, steps, id) && s.history.lost[id] == 0 ==>
        Ledger(s, Unacked(id)) >= 1
  {
    var s := After(c, Initial(), steps);
    KeptAlways(c, steps);
    ClaimHeldUnlessLost(c, steps, id);
    assert JobKept(s, id);
    UnackedCoversClaims(s, id);
  }

  /**
   * In every run, crashes and failures included: an undeleted row that was enqueued and is
   * not ready, and of which no claim and no job was lost, has more jobs, in the three lists
   * and in hand during Retry, than workers are about to acknowledge.
   */
  lemma NoLostDocument(c: Config, steps: seq<Step>, id: int)
    requires Run(c, Initial(), steps)
    ensures
      var s := After(c, Initial(), steps);
      Live(s.rows, id) && s.rows[id].status != Ready && s.history.enqueued[id] > 0
      && !ClaimLost(c, steps, id) && s.history.lost[id] == 0 ==>
        DocsOf(s.lists.main)[id] + DocsOf(s.lists.processing)[id] + DocsOf(s.lists.dead)[id]
        + DocsInRetry(s.workers)[id] > DocsInAck(s.workers)[id]
  {
    UnsettledHasJob(c, steps, id);
    UnackedCounted(After(c, Initial(), steps), id);
  }

  predicate HasJobFor(jobs: seq<Job>, id: int) {
    exists i :: 0 <= i < |jobs| && jobs[i].doc == id
  }

  /** A worker has a job in hand and is not about to acknowledge it. */
  predicate AtWork(pc: WorkerPc) {
    !pc.Idle? && !pc.Stopped? && !pc.Acking?
  }

  predicate InHand(workers: seq<WorkerPc>, id: int) {
    exists w :: 0 <= w < |workers| && AtWork(workers[w]) && workers[w].job.doc == id
  }

  function AtWorkOn(id: int): WorkerPc -> int {
    (pc: WorkerPc) => if AtWork(pc) && pc.job.doc == id then 1 else 0
  }

  lemma {:induction false} SumSplits(workers: seq<WorkerPc>, id: int)
    ensures Sum(workers, Unacked(id).pc) == Sum(workers, UnheldOf(id).pc) + Sum(workers, AtWorkOn(id))
  {
    if workers != [] {
      SumSplits(workers[1..], id);
    }
  }

  lemma JobIsSomewhere(s: State, id: int)
    requires Ledger(s, Unacked(id)) > 0 && Ledger(s, UnheldOf(id)) == 0
    ensures HasJobFor(s.lists.main, id) || HasJobFor(s.lists.dead, id) || InHand(s.workers, id)
  {
    SumZero(s.lists.main, Zero());
    SumZero(s.lists.dead, Zero());
    SumSplits(s.workers, id);
    if Sum(s.lists.main, IsOf(id)) > 0 {
      var i := SumPositive(s.lists.main, IsOf(id));
      assert s.lists.main[i].doc == id;
    } else if Sum(s.lists.dead, IsOf(id)) > 0 {
      var i := SumPositive(s.lists.dead, IsOf(id));
      assert s.lists.dead[i].doc == id;
    } else {
      var w := SumPositive(s.workers, AtWorkOn(id));
      assert AtWork(s.workers[w]) && s.workers[w].job.doc == id;
    }
  }

  /**
   * Without crashes and Redis failures such a job is in the main list, in the dead list, or
   * in the hand of a worker that is not about to acknowledge it.
   */
  lemma QuietDocumentsHaveJobs(c: Config, steps: seq<Step>, id: int)
    requires c.maxAttempts > 0 && QuietRun(c, steps)
    ensures
      var s := After(c, Initial(), steps);
      Live(s.rows, id) && s.rows[id].status != Ready && s.history.enqueued[id] > 0 && !ClaimLost(c, steps, id) ==>
        HasJobFor(s.lists.main, id) || HasJobFor(s.lists.dead, id) || InHand(s.workers, id)
  {
    var s := After(c, Initial(), steps);
    QuietRunIsRun(c, steps);
    QuietRunsLoseNothing(c, steps);
    UnsettledHasJob(c, steps, id);
    if Ledger(s, Unacked(id)) >= 1 {
      JobIsSomewhere(s, id);
    }
  }

  /** No job waits and no worker has one in hand. */
  predicate Drained(s: State) {
    s.lists.main == [] && forall w :: 0 <= w < |s.workers| ==> s.workers[w].Idle? || s.workers[w].Stopped?
  }

  predicate DeadLettered(c: Config, s: State, id: int) {
    exists i :: 0 <= i < |s.lists.dead| && s.lists.dead[i].doc == id && s.lists.dead[i].attempt == c.maxAttempts
  }

  /**
   * Once a run without crashes and Redis failures has drained, an undeleted row that was
   * enqueued is ready, or out of processing with a dead letter at the last attempt, exactly
   * if no Mark statement of one of its claim holders failed.
   */
  lemma DrainedDocumentsAreSettled(c: Config, steps: seq<Step>, id: int)
    requires c.maxAttempts > 0 && QuietRun(c, steps) && Drained(After(c, Initial(), steps))
    requires
      var s := After(c, Initial(), steps);
      Live(s.rows, id) && s.history.enqueued[id] > 0
    ensures
      var s := After(c, Initial(), steps);
      s.rows[id].status == Ready || (s.rows[id].status != Processing && DeadLettered(c, s, id))
      <==> !ClaimLost(c, steps, id)
  {
    QuietRunIsRun(c, steps);
    QuietDocumentsHaveJobs(c, steps, id);
    Delivery.QueueAlways(c, steps);
    ClaimHeldUnlessLost(c, steps, id);
    var s := After(c, Initial(), steps);
    if Markable(s.rows, id) && !ClaimLost(c, steps, id) {
      var w := ClaimantExists(s, id);
    }
  }
}
