/** Who is working on a document, and whether anyone still will. */
module Claims {
  import opened Base
  import opened Documents
  import opened JobQueue
  import opened Pipeline
  import opened Ledgers
  import Delivery
  import Integrity

  // ----- Exclusivity, with crashes and failures allowed -----

  function ProcessingCount(rows: Table, id: int): int {
    if id in rows && rows[id].status == Processing then 1 else 0
  }

  /** Workers between the claim and the mark of a document: none, or one and the row is processing. */
  ghost predicate Exclusive(s: State) {
    forall id :: Ledger(s, ClaimsOn(id)) <= ProcessingCount(s.rows, id)
  }

  lemma ClaimsCounted(s: State, w: nat, v: nat, id: int)
    requires w <= v < |s.workers|
    requires HoldsClaim(s.workers[w]) && s.workers[w].job.doc == id
    requires HoldsClaim(s.workers[v]) && s.workers[v].job.doc == id
    ensures Ledger(s, ClaimsOn(id)) >= if w == v then 1 else 2
  {
    SumZero(s.lists.main, ClaimsOn(id).main);
    SumZero(s.lists.processing, ClaimsOn(id).processing);
    SumZero(s.lists.dead, ClaimsOn(id).dead);
    SumAtLeast(s.workers, w, v, ClaimsOn(id).pc);
  }

  lemma StepExclusiveFor(c: Config, s: State, step: Step, id: int)
    requires Enabled(s, step) && PayloadPresent(s, step)
    requires Ledger(s, ClaimsOn(id)) <= ProcessingCount(s.rows, id)
    ensures Ledger(Apply(c, s, step), ClaimsOn(id)) <= ProcessingCount(Apply(c, s, step).rows, id)
  {
    StepBalance(c, s, step, ClaimsOn(id));
    if step.Work? && HoldsClaim(s.workers[step.w]) && s.workers[step.w].job.doc == id {
      ClaimsCounted(s, step.w, step.w, id);
    }
  }

  lemma StepExclusive(c: Config, s: State, step: Step)
    requires Delivery.PayloadsHeld(s) && Exclusive(s) && Enabled(s, step)
    ensures Exclusive(Apply(c, s, step))
  {
    Delivery.StepFindsPayload(s, step);
    forall id ensures Ledger(Apply(c, s, step), ClaimsOn(id)) <= ProcessingCount(Apply(c, s, step).rows, id) {
      StepExclusiveFor(c, s, step, id);
    }
  }

  lemma {:induction false} ExclusiveAlways(c: Config, steps: seq<Step>)
    requires Run(c, Initial(), steps)
    ensures Delivery.PayloadsHeld(After(c, Initial(), steps)) && Exclusive(After(c, Initial(), steps))
  {
    if steps != [] {
      var n := |steps| - 1;
      var s := After(c, Initial(), steps[..n]);
      ExclusiveAlways(c, steps[..n]);
      Delivery.StepHoldsPayloads(c, s, steps[n]);
      StepExclusive(c, s, steps[n]);
    }
  }

  // ----- Lost claims -----

  /** A holder of the document's claim crashes, or its Mark statement fails. */
  predicate LosesClaim(s: State, step: Step, id: int) {
    && (step.Crash? || IsMarkFailure(s, step))
    && step.w < |s.workers| && HoldsClaim(s.workers[step.w]) && s.workers[step.w].job.doc == id
  }

  /** Some step of the run loses a claim of the document. */
  predicate ClaimLost(c: Config, steps: seq<Step>, id: int) {
    steps != [] &&
    (var n := |steps| - 1;
     ClaimLost(c, steps[..n], id) || LosesClaim(After(c, Initial(), steps[..n]), steps[n], id))
  }

  /** A row that is processing while no worker holds its claim. */
  ghost predicate Orphaned(s: State, id: int) {
    id in s.rows && s.rows[id].status == Processing && Ledger(s, ClaimsOn(id)) == 0
  }

  lemma ClaimantsNonNegative(s: State, id: int)
    ensures Ledger(s, ClaimsOn(id)) >= 0
  {
    SumZero(s.lists.main, ClaimsOn(id).main);
    SumZero(s.lists.processing, ClaimsOn(id).processing);
    SumZero(s.lists.dead, ClaimsOn(id).dead);
    SumNonNegative(s.workers, ClaimsOn(id).pc);
  }

  lemma StepOrphans(c: Config, s: State, step: Step, id: int)
    requires Delivery.PayloadsHeld(s) && Exclusive(s) && Enabled(s, step)
    requires Orphaned(s, id) || LosesClaim(s, step, id)
    ensures Orphaned(Apply(c, s, step), id)
  {
    Delivery.StepFindsPayload(s, step);
    StepBalance(c, s, step, ClaimsOn(id));
    assert Ledger(s, ClaimsOn(id)) <= ProcessingCount(s.rows, id);
    if (step.Work? || step.Crash?) && HoldsClaim(s.workers[step.w]) && s.workers[step.w].job.doc == id {
      ClaimsCounted(s, step.w, step.w, id);
    }
    ClaimantsNonNegative(Apply(c, s, step), id);
  }

  lemma StepKeepsClaimant(c: Config, s: State, step: Step, id: int)
    requires Enabled(s, step) && PayloadPresent(s, step) && !LosesClaim(s, step, id)
    requires Ledger(s, ClaimsOn(id)) <= ProcessingCount(s.rows, id)
    requires Markable(s.rows, id) ==> Ledger(s, ClaimsOn(id)) == 1
    ensures Markable(Apply(c, s, step).rows, id) ==> Ledger(Apply(c, s, step), ClaimsOn(id)) == 1
  {
    StepBalance(c, s, step, ClaimsOn(id));
    ClaimantsNonNegative(s, id);
  }

  /** An undeleted row in processing has a claim holder, unless a claim of it was lost; then it never has one again. */
  lemma {:induction false} ClaimHeldUnlessLost(c: Config, steps: seq<Step>, id: int)
    requires Run(c, Initial(), steps)
    ensures
      var s := After(c, Initial(), steps);
      if ClaimLost(c, steps, id) then Orphaned(s, id) else Markable(s.rows, id) ==> Ledger(s, ClaimsOn(id)) == 1
  {
    if steps != [] {
      hide Orphaned, Exclusive, Apply, Enabled, LosesClaim;
      var n := |steps| - 1;
      var s := After(c, Initial(), steps[..n]);
      ClaimHeldUnlessLost(c, steps[..n], id);
      ExclusiveAlways(c, steps[..n]);
      if ClaimLost(c, steps, id) {
        StepOrphans(c, s, steps[n], id);
      } else {
        ExclusiveFor(s, id);
        Delivery.StepFindsPayload(s, steps[n]);
        StepKeepsClaimant(c, s, steps[n], id);
      }
    }
  }

  lemma ExclusiveFor(s: State, id: int)
    requires Exclusive(s)
    ensures Ledger(s, ClaimsOn(id)) <= ProcessingCount(s.rows, id)
  {
  }

  // ----- Jobs that are kept, with crashes and failures allowed -----

  ghost predicate DocPayloadsHeld(s: State) {
    forall id :: Ledger(s, UnheldOf(id)) >= 0
  }

  lemma UnackedCoversClaims(s: State, id: int)
    requires DocPayloadsHeld(s)
    ensures Ledger(s, Unacked(id)) >= Ledger(s, ClaimsOn(id)) >= 0
  {
    assert Ledger(s, UnheldOf(id)) >= 0;
    ClaimantsNonNegative(s, id);
    SumNonNegative(s.lists.main, IsOf(id));
    SumNonNegative(s.lists.dead, IsOf(id));
    SumZero(s.lists.main, Zero());
    SumZero(s.lists.processing, Zero());
    SumZero(s.lists.dead, Zero());
    SumDominates(s.workers, Unacked(id).pc, UnheldOf(id).pc, ClaimsOn(id).pc);
  }

  /** The document could still be claimed, or does not exist yet. */
  predicate Waiting(rows: Table, id: int) {
    id !in rows || Claimable(rows, id)
  }

  /** A waiting document that was enqueued, and lost no job, has a job that is not about to be acknowledged. */
  ghost predicate JobKept(s: State, id: int) {
    Waiting(s.rows, id) && s.history.enqueued[id] > 0 && s.history.lost[id] == 0 ==> Ledger(s, Unacked(id)) >= 1
  }

  ghost predicate Kept(s: State) {
    DocPayloadsHeld(s) && forall id :: JobKept(s, id)
  }

  lemma StepHoldsDocPayloads(c: Config, s: State, step: Step)
    requires Enabled(s, step) && PayloadPresent(s, step) && DocPayloadsHeld(s)
    ensures DocPayloadsHeld(Apply(c, s, step))
  {
    forall id ensures Ledger(Apply(c, s, step), UnheldOf(id)) >= 0 {
      StepBalance(c, s, step, UnheldOf(id));
    }
  }

  lemma WorkKeepsJob(c: Config, s: State, w: nat, ok: bool, cause: Bytes, id: int)
    requires Enabled(s, Work(w, ok, cause)) && Integrity.WorkerSound(c, s, s.workers[w])
    requires Waiting(WorkRows(s, w, ok), id) && WorkHistory(c, s, w, ok).lost[id] == 0
    ensures s.history.lost[id] == 0 && Delta(c, s, Work(w, ok, cause), Unacked(id)) >= 0
    ensures Waiting(s.rows, id) || (HoldsClaim(s.workers[w]) && s.workers[w].job.doc == id)
    ensures WorkHistory(c, s, w, ok).enqueued == s.history.enqueued
  {
  }

  lemma StepKeepsJob(c: Config, s: State, step: Step, id: int)
    requires Enabled(s, step) && PayloadPresent(s, step)
    requires Integrity.WorkersSound(c, s) && DocPayloadsHeld(s) && JobKept(s, id)
    ensures JobKept(Apply(c, s, step), id)
  {
    StepBalance(c, s, step, Unacked(id));
    UnackedCoversClaims(s, id);
    if step.Work? {
      assert Integrity.WorkerSound(c, s, s.workers[step.w]);
      if HoldsClaim(s.workers[step.w]) && s.workers[step.w].job.doc == id {
        ClaimsCounted(s, step.w, step.w, id);
      }
      hide Unacked, ClaimsOn, Delta, WorkRows, WorkHistory, WorkPc, WorkLists;
      var s' := Apply(c, s, step);
      if Waiting(s'.rows, id) && s'.history.lost[id] == 0 {
        WorkKeepsJob(c, s, step.w, step.ok, step.cause, id);
      }
    }
  }

  lemma {:induction false} KeptAlways(c: Config, steps: seq<Step>)
    requires Run(c, Initial(), steps)
    ensures Kept(After(c, Initial(), steps))
  {
    if steps != [] {
      var n := |steps| - 1;
      var s := After(c, Initial(), steps[..n]);
      KeptAlways(c, steps[..n]);
      Integrity.SoundAlways(c, steps[..n]);
      ExclusiveAlways(c, steps[..n]);
      Delivery.StepFindsPayload(s, steps[n]);
      StepHoldsDocPayloads(c, s, steps[n]);
      hide Apply, JobKept, DocPayloadsHeld;
      forall id ensures JobKept(After(c, Initial(), steps), id) {
        StepKeepsJob(c, s, steps[n], id);
      }
    }
  }

  // ----- Runs without crashes and Redis failures -----

  predicate Disturbs(s: State, step: Step) {
    IsCrash(step) || IsRedisFailure(s, step)
  }

  predicate QuietRun(c: Config, steps: seq<Step>) {
    steps == [] ||
    (var n := |steps| - 1;
     var s := After(c, Initial(), steps[..n]);
     QuietRun(c, steps[..n]) && Enabled(s, steps[n]) && !Disturbs(s, steps[n]))
  }

  lemma QuietRunExtends(c: Config, steps: seq<Step>, step: Step)
    requires QuietRun(c, steps) && Enabled(After(c, Initial(), steps), step)
    requires !Disturbs(After(c, Initial(), steps), step)
    ensures QuietRun(c, steps + [step])
  {
    assert (steps + [step])[..|steps|] == steps;
  }

  lemma {:induction false} QuietRunIsRun(c: Config, steps: seq<Step>)
    requires QuietRun(c, steps)
    ensures Run(c, Initial(), steps)
  {
    if steps != [] {
      QuietRunIsRun(c, steps[..|steps| - 1]);
    }
  }
}
