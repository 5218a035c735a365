/** What the queue guarantees over every run, crashes and failures included. */
module Delivery {
  import opened Base
  import opened Documents
  import opened JobQueue
  import opened Pipeline
  import opened Ledgers

  predicate GoodJob(c: Config, job: Job) {
    ValidJob(job) && job.attempt <= c.maxAttempts
  }

  ghost predicate ListsBounded(c: Config, lists: Lists) {
    && (forall i :: 0 <= i < |lists.main| ==> GoodJob(c, lists.main[i]))
    && (forall i :: 0 <= i < |lists.processing| ==> GoodJob(c, lists.processing[i]))
    && (forall i :: 0 <= i < |lists.dead| ==> GoodJob(c, lists.dead[i]) && lists.dead[i].attempt == c.maxAttempts)
  }

  ghost predicate WorkersBounded(c: Config, workers: seq<WorkerPc>) {
    forall w :: 0 <= w < |workers| && !workers[w].Idle? && !workers[w].Stopped? ==>
      !workers[w].Rejecting? && GoodJob(c, workers[w].job)
  }

  ghost predicate CreatesBounded(creates: seq<CreatePc>) {
    forall i :: 0 <= i < |creates| && creates[i].Inserted? ==> creates[i].id > 0
  }

  /** Attempts stay in range, and no payload in the system is one that Consume rejects. */
  ghost predicate AttemptsBounded(c: Config, s: State) {
    ListsBounded(c, s.lists) && WorkersBounded(c, s.workers) && CreatesBounded(s.creates)
  }

  /** The payloads held by workers are contained, as a multiset, in the processing list. */
  ghost predicate PayloadsHeld(s: State) {
    forall job :: Ledger(s, Unheld(job)) >= 0
  }

  /** Every enqueued job is in exactly one place, identified up to its attempt number. */
  ghost predicate JobsConserved(s: State) {
    forall doc :: s.history.enqueued[doc] == Ledger(s, JobsOf(doc)) + s.history.acked[doc] + s.history.lost[doc]
  }

  /** Claims made and claims still possible fit in maxAttempts per enqueued job. */
  ghost predicate ClaimsBudgeted(c: Config, s: State) {
    forall doc :: s.history.claims[doc] + Ledger(s, ClaimsLeft(c, doc)) <= c.maxAttempts * s.history.enqueued[doc]
  }

  /** First in, first out. */
  ghost predicate InOrder(s: State) {
    s.history.moved + Reverse(s.lists.main) == s.history.pushed
  }

  ghost predicate FlowInv(s: State) {
    PayloadsHeld(s) && JobsConserved(s) && InOrder(s)
  }

  ghost predicate QueueInv(c: Config, s: State) {
    FlowInv(s) && AttemptsBounded(c, s) && ClaimsBudgeted(c, s)
  }

  /** A worker finds the payload it wants to remove. */
  lemma HeldPayloadIsListed(s: State, w: nat)
    requires PayloadsHeld(s)
    requires w < |s.workers| && HoldsPayload(s.workers[w])
    ensures s.workers[w].job in s.lists.processing
  {
    var job := s.workers[w].job;
    assert Ledger(s, Unheld(job)) >= 0;
    SumZero(s.lists.main, Unheld(job).main);
    SumZero(s.lists.dead, Unheld(job).dead);
    SumAtMost(s.workers, w, Unheld(job).pc);
    var i := SumPositive(s.lists.processing, IsJob(job));
  }

  lemma StepFindsPayload(s: State, step: Step)
    requires PayloadsHeld(s)
    ensures PayloadPresent(s, step)
  {
    if step.Work? && step.w < |s.workers| && HoldsPayload(s.workers[step.w]) {
      HeldPayloadIsListed(s, step.w);
    }
  }

  lemma StepBoundsLists(c: Config, s: State, step: Step)
    requires c.maxAttempts > 0 && AttemptsBounded(c, s) && Enabled(s, step)
    ensures ListsBounded(c, Apply(c, s, step).lists)
  {
    if step.Work? && step.ok && HoldsPayload(s.workers[step.w]) {
      RemoveFirstKeeps(c, s.lists.processing, s.workers[step.w].job);
    }
  }

  lemma StepBoundsAttempts(c: Config, s: State, step: Step)
    requires c.maxAttempts > 0 && AttemptsBounded(c, s) && Enabled(s, step)
    ensures AttemptsBounded(c, Apply(c, s, step))
  {
    StepBoundsLists(c, s, step);
    assert CreatesBounded(Apply(c, s, step).creates);
    assert WorkersBounded(c, Apply(c, s, step).workers);
  }

  lemma {:induction false} RemoveFirstKeeps(c: Config, jobs: seq<Job>, job: Job)
    requires forall i :: 0 <= i < |jobs| ==> GoodJob(c, jobs[i])
    ensures forall i :: 0 <= i < |RemoveFirst(jobs, job)| ==> GoodJob(c, RemoveFirst(jobs, job)[i])
  {
    if jobs != [] && jobs[0] != job {
      RemoveFirstKeeps(c, jobs[1..], job);
    }
  }

  lemma StepHoldsPayloads(c: Config, s: State, step: Step)
    requires PayloadsHeld(s) && Enabled(s, step)
    ensures PayloadsHeld(Apply(c, s, step))
  {
    StepFindsPayload(s, step);
    forall job ensures Ledger(Apply(c, s, step), Unheld(job)) >= 0 {
      StepBalance(c, s, step, Unheld(job));
    }
  }

  lemma WorkConservesJobsOf(c: Config, s: State, w: nat, ok: bool, cause: Bytes, doc: int)
    requires Enabled(s, Work(w, ok, cause))
    ensures
      var h, h' := s.history, WorkHistory(c, s, w, ok);
      && h'.enqueued == h.enqueued
      && h.acked[doc] + h.lost[doc] == h'.acked[doc] + h'.lost[doc] + Delta(c, s, Work(w, ok, cause), JobsOf(doc))
  {
  }

  lemma StepConservesJobsOf(c: Config, s: State, step: Step, doc: int)
    requires Enabled(s, step)
    ensures
      var h, h' := s.history, Apply(c, s, step).history;
      h'.enqueued[doc] + h.acked[doc] + h.lost[doc]
      == h.enqueued[doc] + h'.acked[doc] + h'.lost[doc] + Delta(c, s, step, JobsOf(doc))
  {
    if step.Work? {
      WorkConservesJobsOf(c, s, step.w, step.ok, step.cause, doc);
    }
  }

  lemma StepConservesJobs(c: Config, s: State, step: Step)
    requires PayloadsHeld(s) && JobsConserved(s) && Enabled(s, step)
    ensures JobsConserved(Apply(c, s, step))
  {
    StepFindsPayload(s, step);
    var s' := Apply(c, s, step);
    forall doc
      ensures s'.history.enqueued[doc] == Ledger(s', JobsOf(doc)) + s'.history.acked[doc] + s'.history.lost[doc]
    {
      StepBalance(c, s, step, JobsOf(doc));
      StepConservesJobsOf(c, s, step, doc);
      assert s.history.enqueued[doc] == Ledger(s, JobsOf(doc)) + s.history.acked[doc] + s.history.lost[doc];
    }
  }

  lemma WorkBudgetsClaimsOf(c: Config, s: State, w: nat, ok: bool, cause: Bytes, doc: int)
    requires AttemptsBounded(c, s) && Enabled(s, Work(w, ok, cause))
    ensures
      var h, h' := s.history, WorkHistory(c, s, w, ok);
      h'.claims[doc] - h.claims[doc] + Delta(c, s, Work(w, ok, cause), ClaimsLeft(c, doc)) <= 0
  {
  }

  lemma StepBudgetsClaimsOf(c: Config, s: State, step: Step, doc: int)
    requires c.maxAttempts > 0 && AttemptsBounded(c, s) && Enabled(s, step)
    ensures
      var h, h' := s.history, Apply(c, s, step).history;
      var more := h'.enqueued[doc] - h.enqueued[doc];
      && 0 <= more <= 1
      && h'.claims[doc] + Delta(c, s, step, ClaimsLeft(c, doc))
         <= h.claims[doc] + if more == 1 then c.maxAttempts else 0
  {
    if step.Work? {
      WorkBudgetsClaimsOf(c, s, step.w, step.ok, step.cause, doc);
    }
  }

  lemma OneMore(attempts: int, jobs: int)
    ensures attempts * (jobs + 1) == attempts * jobs + attempts
  {
  }

  lemma StepBudgetsClaims(c: Config, s: State, step: Step)
    requires c.maxAttempts > 0 && AttemptsBounded(c, s) && PayloadsHeld(s) && ClaimsBudgeted(c, s) && Enabled(s, step)
    ensures ClaimsBudgeted(c, Apply(c, s, step))
  {
    StepFindsPayload(s, step);
    hide Apply, Delta, Ledger, AttemptsBounded, PayloadPresent, Enabled;
    var s' := Apply(c, s, step);
    forall doc
      ensures s'.history.claims[doc] + Ledger(s', ClaimsLeft(c, doc)) <= c.maxAttempts * s'.history.enqueued[doc]
    {
      StepBalance(c, s, step, ClaimsLeft(c, doc));
      StepBudgetsClaimsOf(c, s, step, doc);
      assert s.history.claims[doc] + Ledger(s, ClaimsLeft(c, doc)) <= c.maxAttempts * s.history.enqueued[doc];
      OneMore(c.maxAttempts, s.history.enqueued[doc]);
    }
  }

  lemma ConcatAssociates<T>(a: seq<T>, b: seq<T>, c: seq<T>)
    ensures (a + b) + c == a + (b + c)
  {
  }

  lemma MoveKeepsOrder(moved: seq<Job>, main: seq<Job>, pushed: seq<Job>)
    requires moved + Reverse(main) == pushed && main != []
    ensures (moved + [main[|main| - 1]]) + Reverse(main[..|main| - 1]) == pushed
  {
    ReverseTakesLast(main);
    hide Reverse;
    ConcatAssociates(moved, [main[|main| - 1]], Reverse(main[..|main| - 1]));
  }

  lemma PushKeepsOrder(moved: seq<Job>, main: seq<Job>, pushed: seq<Job>, job: Job)
    requires moved + Reverse(main) == pushed
    ensures moved + Reverse([job] + main) == pushed + [job]
  {
  }

  lemma StepKeepsOrder(c: Config, s: State, step: Step)
    requires InOrder(s) && Enabled(s, step)
    ensures InOrder(Apply(c, s, step))
  {
    var main, h := s.lists.main, s.history;
    hide Reverse;
    match step
    case Work(w, ok, _) =>
      var pc := s.workers[w];
      if ok && pc.Idle? {
        MoveKeepsOrder(h.moved, main, h.pushed);
      } else if ok && pc.Pushing? && pc.job.attempt < c.maxAttempts {
        PushKeepsOrder(h.moved, main, h.pushed, pc.job.(attempt := pc.job.attempt + 1));
      }
    case EnqueueJob(i, ok) => PushKeepsOrder(h.moved, main, h.pushed, Job(s.creates[i].id, 1));
    case Reenqueue(id) => PushKeepsOrder(h.moved, main, h.pushed, Job(id, 1));
    case _ =>
  }

  lemma StepFlow(c: Config, s: State, step: Step)
    requires FlowInv(s) && Enabled(s, step)
    ensures FlowInv(Apply(c, s, step))
  {
    StepHoldsPayloads(c, s, step);
    StepConservesJobs(c, s, step);
    StepKeepsOrder(c, s, step);
  }

  lemma StepQueue(c: Config, s: State, step: Step)
    requires c.maxAttempts > 0 && QueueInv(c, s) && Enabled(s, step)
    ensures QueueInv(c, Apply(c, s, step))
  {
    StepFlow(c, s, step);
    StepBoundsAttempts(c, s, step);
    StepBudgetsClaims(c, s, step);
  }

  lemma QueueAtFirst(c: Config)
    ensures QueueInv(c, Initial())
  {
  }

  lemma {:induction false} FlowAlways(c: Config, steps: seq<Step>)
    requires Run(c, Initial(), steps)
    ensures FlowInv(After(c, Initial(), steps))
  {
    hide Apply;
    if steps == [] {
      QueueAtFirst(c);
    } else {
      var n := |steps| - 1;
      FlowAlways(c, steps[..n]);
      StepFlow(c, After(c, Initial(), steps[..n]), steps[n]);
    }
  }

  lemma {:induction false} QueueAlways(c: Config, steps: seq<Step>)
    requires c.maxAttempts > 0 && Run(c, Initial(), steps)
    ensures QueueInv(c, After(c, Initial(), steps))
  {
    hide QueueInv, Apply;
    QueueAtFirst(c);
    if steps != [] {
      var n := |steps| - 1;
      QueueAlways(c, steps[..n]);
      StepQueue(c, After(c, Initial(), steps[..n]), steps[n]);
    }
  }
}
