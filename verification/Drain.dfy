/** With no new jobs the workers run out of work, within a bound linear in the attempts left. */
module Drain {
  import opened Base
  import opened Documents
  import opened JobQueue
  import opened Pipeline
  import opened Ledgers
  import Claims
  import Delivery
  import Guarantees

  /** Calls of a worker for one attempt: BLMOVE, GetByID, claim, read, mark, LREM, LPUSH. */
  const CALLS := 7

  /** Attempts that a job can still take after the current one. */
  function Later(c: Config, job: Job): int {
    if job.attempt >= c.maxAttempts then 0 else c.maxAttempts - job.attempt
  }

  /** Attempts of a job in the main list, the next one included. */
  function AttemptsLeft(c: Config): Job -> int {
    (job: Job) => c.maxAttempts - job.attempt + 1
  }

  function CallsFor(c: Config): Job -> int {
    (job: Job) => CALLS * (Later(c, job) + 1)
  }

  /** One more than the calls a worker can make before it is idle or its job is back in the main list. */
  function CallsLeft(c: Config, pc: WorkerPc): int {
    match pc
    case Stopped => 0
    case Idle => 1
    case Rejecting(_) => 2
    case Acking(_) => 2
    case Pushing(job) => CALLS * Later(c, job) + 2
    case Retrying(job) => CALLS * Later(c, job) + 3
    case Summed(job, _, _) => CALLS * Later(c, job) + 4
    case Failing(job, _) => CALLS * Later(c, job) + 4
    case Holding(job, _, _) => CALLS * Later(c, job) + 5
    case LookedUp(job, _, _) => CALLS * Later(c, job) + 6
    case Consumed(job) => CALLS * Later(c, job) + 7
  }

  function Effort(c: Config): Weights {
    Weights(CallsFor(c), Zero(), Zero(), (pc: WorkerPc) => CallsLeft(c, pc))
  }

  /** A step that brings in neither a job nor a worker. */
  predicate Draining(step: Step) {
    !step.Reenqueue? && !step.Spawn? && !(step.EnqueueJob? && step.ok)
  }

  function WorkSteps(steps: seq<Step>): nat {
    if steps == [] then 0
    else WorkSteps(steps[..|steps| - 1]) + if steps[|steps| - 1].Work? then 1 else 0
  }

  lemma StepDrains(c: Config, s: State, step: Step)
    requires Delivery.PayloadsHeld(s) && Enabled(s, step) && Draining(step)
    ensures Ledger(Apply(c, s, step), Effort(c)) <= Ledger(s, Effort(c)) - if step.Work? then 1 else 0
  {
    Delivery.StepFindsPayload(s, step);
    StepBalance(c, s, step, Effort(c));
  }

  lemma EffortNonNegative(c: Config, s: State)
    ensures Ledger(s, Effort(c)) >= 0
  {
    SumNonNegative(s.lists.main, Effort(c).main);
    SumZero(s.lists.processing, Effort(c).processing);
    SumZero(s.lists.dead, Effort(c).dead);
    SumNonNegative(s.workers, Effort(c).pc);
  }

  /** Every call, successful or not, uses up effort; soft deletes, uploads and crashes bring none. */
  lemma {:induction false} WorkUsesEffort(c: Config, s: State, steps: seq<Step>)
    requires Delivery.PayloadsHeld(s) && Run(c, s, steps)
    requires forall i :: 0 <= i < |steps| ==> Draining(steps[i])
    ensures Delivery.PayloadsHeld(After(c, s, steps))
    ensures WorkSteps(steps) + Ledger(After(c, s, steps), Effort(c)) <= Ledger(s, Effort(c))
  {
    if steps != [] {
      var n := |steps| - 1;
      WorkUsesEffort(c, s, steps[..n]);
      Delivery.StepHoldsPayloads(c, After(c, s, steps[..n]), steps[n]);
      StepDrains(c, After(c, s, steps[..n]), steps[n]);
    }
  }

  lemma {:induction false} SumConstant<T>(xs: seq<T>, f: T -> int)
    requires forall k :: 0 <= k < |xs| ==> f(xs[k]) <= 1
    ensures Sum(xs, f) <= |xs|
  {
    if xs != [] {
      SumConstant(xs[1..], f);
    }
  }

  /**
   * From idle workers, every schedule without new jobs makes at most one call per worker
   * and CALLS for each attempt that the jobs of the main list have left.
   */
  lemma DrainBound(c: Config, before: seq<Step>, steps: seq<Step>)
    requires c.maxAttempts > 0 && Run(c, Initial(), before)
    requires
      var s := After(c, Initial(), before);
      && Run(c, s, steps)
      && forall w :: 0 <= w < |s.workers| ==> s.workers[w].Idle? || s.workers[w].Stopped?
    requires forall i :: 0 <= i < |steps| ==> Draining(steps[i])
    ensures
      var s := After(c, Initial(), before);
      WorkSteps(steps) <= |s.workers| + CALLS * Sum(s.lists.main, AttemptsLeft(c))
  {
    var s := After(c, Initial(), before);
    Delivery.QueueAlways(c, before);
    WorkUsesEffort(c, s, steps);
    EffortNonNegative(c, After(c, s, steps));
    EffortFromIdle(c, s);
  }

  lemma EffortFromIdle(c: Config, s: State)
    requires forall i :: 0 <= i < |s.lists.main| ==> s.lists.main[i].attempt <= c.maxAttempts
    requires forall w :: 0 <= w < |s.workers| ==> s.workers[w].Idle? || s.workers[w].Stopped?
    ensures Ledger(s, Effort(c)) <= |s.workers| + CALLS * Sum(s.lists.main, AttemptsLeft(c))
  {
    SumZero(s.lists.processing, Effort(c).processing);
    SumZero(s.lists.dead, Effort(c).dead);
    SumConstant(s.workers, Effort(c).pc);
    EffortOfJobs(c, s.lists.main);
  }

  lemma {:induction false} EffortOfJobs(c: Config, jobs: seq<Job>)
    requires forall i :: 0 <= i < |jobs| ==> jobs[i].attempt <= c.maxAttempts
    ensures Sum(jobs, CallsFor(c)) == CALLS * Sum(jobs, AttemptsLeft(c))
  {
    if jobs != [] {
      EffortOfJobs(c, jobs[1..]);
    }
  }

  /** No worker can make a successful call. */
  predicate Stuck(s: State) {
    forall w :: 0 <= w < |s.workers| ==> !Enabled(s, Work(w, true, []))
  }

  /**
   * From idle workers, every schedule without new jobs that cannot be continued ends with
   * each worker stopped or idle before an empty main list, and it got there within the bound.
   */
  lemma MaximalSchedulesDrain(c: Config, before: seq<Step>, steps: seq<Step>)
    requires c.maxAttempts > 0 && Run(c, Initial(), before)
    requires
      var s := After(c, Initial(), before);
      && Run(c, s, steps)
      && forall w :: 0 <= w < |s.workers| ==> s.workers[w].Idle? || s.workers[w].Stopped?
    requires forall i :: 0 <= i < |steps| ==> Draining(steps[i])
    requires Stuck(After(c, After(c, Initial(), before), steps))
    ensures
      var s := After(c, Initial(), before);
      var s' := After(c, s, steps);
      && WorkSteps(steps) <= |s.workers| + CALLS * Sum(s.lists.main, AttemptsLeft(c))
      && forall w :: 0 <= w < |s'.workers| ==> s'.workers[w].Stopped? || (s'.workers[w].Idle? && s'.lists.main == [])
  {
    DrainBound(c, before, steps);
    var s' := After(c, After(c, Initial(), before), steps);
    forall w | 0 <= w < |s'.workers|
      ensures s'.workers[w].Stopped? || (s'.workers[w].Idle? && s'.lists.main == [])
    {
      assert !Enabled(s', Work(w, true, []));
    }
  }

  /** Any schedule can be continued, by successful calls alone, until it is stuck. */
  lemma {:induction false} SchedulesCanFinish(c: Config, s: State, steps: seq<Step>) returns (rest: seq<Step>)
    requires Run(c, s, steps) && Delivery.PayloadsHeld(After(c, s, steps))
    ensures Run(c, s, steps + rest) && Stuck(After(c, s, steps + rest))
    ensures forall i :: 0 <= i < |rest| ==> rest[i].Work? && rest[i].ok
    decreases Ledger(After(c, s, steps), Effort(c))
  {
    var s' := After(c, s, steps);
    hide Apply, Delivery.PayloadsHeld, Run, After, Ledger, Effort;
    if w :| 0 <= w < |s'.workers| && Enabled(s', Work(w, true, [])) {
      var call := Work(w, true, []);
      RunExtends(c, s, steps, call);
      Delivery.StepHoldsPayloads(c, s', call);
      StepDrains(c, s', call);
      EffortNonNegative(c, After(c, s, steps + [call]));
      rest := SchedulesCanFinish(c, s, steps + [call]);
      assert steps + ([call] + rest) == steps + [call] + rest;
      rest := [call] + rest;
    } else {
      assert steps + [] == steps;
      rest := [];
    }
  }

  lemma {:induction false} QuietWorkersStay(c: Config, steps: seq<Step>)
    requires c.maxAttempts > 0 && Claims.QuietRun(c, steps)
    ensures
      var ws := After(c, Initial(), steps).workers;
      forall w :: 0 <= w < |ws| ==> !ws[w].Stopped?
  {
    if steps != [] {
      var n := |steps| - 1;
      QuietWorkersStay(c, steps[..n]);
      Claims.QuietRunIsRun(c, steps[..n]);
      Delivery.QueueAlways(c, steps[..n]);
    }
  }

  /**
   * When the workers of a run without crashes and Redis failures can do no more, every
   * undeleted row that was enqueued is ready, or out of processing with a dead letter at the
   * last attempt, exactly if no Mark statement of one of its claim holders failed.
   */
  lemma StuckRunsAreSettled(c: Config, steps: seq<Step>, id: int)
    requires c.maxAttempts > 0 && Claims.QuietRun(c, steps)
    requires
      var s := After(c, Initial(), steps);
      s.workers != [] && Stuck(s) && Live(s.rows, id) && s.history.enqueued[id] > 0
    ensures
      var s := After(c, Initial(), steps);
      s.rows[id].status == Ready || (s.rows[id].status != Processing && Guarantees.DeadLettered(c, s, id))
      <==> !Claims.ClaimLost(c, steps, id)
  {
    var s := After(c, Initial(), steps);
    QuietWorkersStay(c, steps);
    assert Guarantees.Drained(s) by {
      forall w | 0 <= w < |s.workers| ensures s.workers[w].Idle? && s.lists.main == [] {
        assert !Enabled(s, Work(w, true, []));
      }
      assert s.workers[0].Idle?;
    }
    Guarantees.DrainedDocumentsAreSettled(c, steps, id);
  }
}
