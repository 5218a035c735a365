/**
 * Ledgers: weighted counts of the jobs in the three lists and of the workers. Every
 * step changes a ledger by the weight of what it moves, so each counting property of
 * the pipeline is one choice of weights.
 */
module Ledgers {
  import opened Base
  import opened Documents
  import opened JobQueue
  import opened Pipeline

  datatype Weights = Weights(main: Job -> int, processing: Job -> int, dead: Job -> int, pc: WorkerPc -> int)

  function Ledger(s: State, weights: Weights): int {
    Sum(s.lists.main, weights.main) + Sum(s.lists.processing, weights.processing) +
    Sum(s.lists.dead, weights.dead) + Sum(s.workers, weights.pc)
  }

  /** What the list command of worker w moves. */
  function ListDelta(c: Config, s: State, w: nat, ok: bool, weights: Weights): int
    requires w < |s.workers|
    requires s.workers[w].Idle? && ok ==> s.lists.main != []
  {
    var pc := s.workers[w];
    if !ok then 0
    else if pc.Idle? then weights.processing(Oldest(s.lists)) - weights.main(Oldest(s.lists))
    else if pc.Rejecting? || pc.Acking? || pc.Retrying? then -weights.processing(pc.job)
    else if !pc.Pushing? then 0
    else if pc.job.attempt >= c.maxAttempts then weights.dead(pc.job)
    else weights.main(pc.job.(attempt := pc.job.attempt + 1))
  }

  function Delta(c: Config, s: State, step: Step, weights: Weights): int
    requires Enabled(s, step)
  {
    match step
    case Work(w, ok, cause) =>
      ListDelta(c, s, w, ok, weights) + weights.pc(WorkPc(c, s, w, ok, cause)) - weights.pc(s.workers[w])
    case Crash(w) => weights.pc(Stopped) - weights.pc(s.workers[w])
    case Spawn => weights.pc(Idle)
    case EnqueueJob(i, ok) => if ok then weights.main(Job(s.creates[i].id, 1)) else 0
    case Reenqueue(id) => weights.main(Job(id, 1))
    case _ => 0
  }

  /** A removal by value finds its payload. */
  predicate PayloadPresent(s: State, step: Step) {
    step.Work? && step.w < |s.workers| && HoldsPayload(s.workers[step.w]) ==>
      s.workers[step.w].job in s.lists.processing
  }

  lemma ListsBalance(c: Config, s: State, w: nat, ok: bool, cause: Bytes, weights: Weights)
    requires Enabled(s, Work(w, ok, cause))
    requires PayloadPresent(s, Work(w, ok, cause))
    ensures
      var s' := WorkStep(c, s, w, ok, cause);
      Sum(s'.lists.main, weights.main) + Sum(s'.lists.processing, weights.processing) + Sum(s'.lists.dead, weights.dead)
      == Sum(s.lists.main, weights.main) + Sum(s.lists.processing, weights.processing) + Sum(s.lists.dead, weights.dead)
         + ListDelta(c, s, w, ok, weights)
  {
    var pc := s.workers[w];
    if ok && pc.Idle? {
      var rest := s.lists.main[..|s.lists.main| - 1];
      assert s.lists.main == rest + [Oldest(s.lists)];
      SumConcat(rest, [Oldest(s.lists)], weights.main);
    } else if ok && (pc.Rejecting? || pc.Acking? || pc.Retrying?) {
      SumRemoveFirst(s.lists.processing, pc.job, weights.processing);
    }
  }

  lemma StepBalance(c: Config, s: State, step: Step, weights: Weights)
    requires Enabled(s, step) && PayloadPresent(s, step)
    ensures Ledger(Apply(c, s, step), weights) == Ledger(s, weights) + Delta(c, s, step, weights)
  {
    match step
    case Work(w, ok, cause) =>
      ListsBalance(c, s, w, ok, cause, weights);
      SumUpdate(s.workers, w, WorkPc(c, s, w, ok, cause), weights.pc);
    case Crash(w) => SumUpdate(s.workers, w, Stopped, weights.pc);
    case Spawn => SumConcat(s.workers, [Idle], weights.pc);
    case _ =>
  }

  // ----- Weights -----

  function Zero<T>(): T -> int {
    (x: T) => 0
  }

  function IsJob(job: Job): Job -> int {
    (j: Job) => if j == job then 1 else 0
  }

  function IsOf(doc: int): Job -> int {
    (j: Job) => if j.doc == doc then 1 else 0
  }

  /** Entries of the processing list equal to `job`, less the workers that hold that payload. */
  function Unheld(job: Job): Weights {
    Weights(Zero(), IsJob(job), Zero(), (pc: WorkerPc) => if HoldsPayload(pc) && pc.job == job then -1 else 0)
  }

  /** Jobs of a document anywhere: in a list, or in hand between the two halves of Retry. */
  function JobsOf(doc: int): Weights {
    Weights(IsOf(doc), IsOf(doc), IsOf(doc), (pc: WorkerPc) => if pc.Pushing? && pc.job.doc == doc then 1 else 0)
  }

  /** Workers between the claim of a document and its mark. */
  function ClaimsOn(doc: int): Weights {
    Weights(Zero(), Zero(), Zero(), (pc: WorkerPc) => if HoldsClaim(pc) && pc.job.doc == doc then 1 else 0)
  }

  /** How often the jobs of a document can still be claimed. */
  function ClaimsLeft(c: Config, doc: int): Weights {
    Weights(
      (j: Job) => if j.doc == doc then c.maxAttempts - j.attempt + 1 else 0,
      Zero(),
      Zero(),
      (pc: WorkerPc) =>
        if pc.Idle? || pc.Stopped? || pc.Rejecting? || pc.Acking? || pc.job.doc != doc then 0
        else if pc.Consumed? || pc.LookedUp? then c.maxAttempts - pc.job.attempt + 1
        else c.maxAttempts - pc.job.attempt)
  }

  /** Entries of the processing list for a document, less the workers that hold such a payload. */
  function UnheldOf(doc: int): Weights {
    Weights(Zero(), IsOf(doc), Zero(), (pc: WorkerPc) => if HoldsPayload(pc) && pc.job.doc == doc then -1 else 0)
  }

  /** Jobs of a document anywhere, less those that a worker is about to acknowledge. */
  function Unacked(doc: int): Weights {
    Weights(
      IsOf(doc),
      IsOf(doc),
      IsOf(doc),
      (pc: WorkerPc) =>
        if pc.Pushing? && pc.job.doc == doc then 1 else if pc.Acking? && pc.job.doc == doc then -1 else 0)
  }
}
