/**
 * The three Redis lists and the queue on top of them. Index 0 is the left end of a
 * list. A payload is identified with the job it encodes.
 */
module JobQueue {
  import opened Base

  datatype Job = Job(doc: int, attempt: int)

  datatype Lists = Lists(main: seq<Job>, processing: seq<Job>, dead: seq<Job>)

  datatype QueueError = QueueUnavailable | InvalidJob

  predicate ValidJob(job: Job) {
    job.doc > 0 && job.attempt > 0
  }

  // ----- LPUSH, BLMOVE RIGHT LEFT, LREM 1 -----

  function RemoveFirst(jobs: seq<Job>, job: Job): seq<Job> {
    if jobs == [] then [] else if jobs[0] == job then jobs[1..] else [jobs[0]] + RemoveFirst(jobs[1..], job)
  }

  function Reverse(jobs: seq<Job>): (r: seq<Job>)
    ensures |r| == |jobs|
  {
    if jobs == [] then [] else Reverse(jobs[1..]) + [jobs[0]]
  }

  function Oldest(lists: Lists): Job
    requires lists.main != []
  {
    lists.main[|lists.main| - 1]
  }

  function Push(lists: Lists, job: Job): Lists {
    lists.(main := [job] + lists.main)
  }

  function Bury(lists: Lists, job: Job): Lists {
    lists.(dead := [job] + lists.dead)
  }

  function Move(lists: Lists): Lists
    requires lists.main != []
  {
    lists.(main := lists.main[..|lists.main| - 1], processing := [Oldest(lists)] + lists.processing)
  }

  function Remove(lists: Lists, job: Job): Lists {
    lists.(processing := RemoveFirst(lists.processing, job))
  }

  /** What `Retry` pushes, and where: the dead list at the last attempt, else the main list one attempt up. */
  function Requeue(lists: Lists, job: Job, maxAttempts: int): Lists {
    if job.attempt >= maxAttempts then Bury(lists, job) else Push(lists, job.(attempt := job.attempt + 1))
  }

  // ----- Laws of the list commands -----

  /** LREM by value removes exactly one entry, and keeps every other one. */
  lemma {:induction false} RemoveFirstRemovesOne(jobs: seq<Job>, job: Job)
    requires job in jobs
    ensures multiset(RemoveFirst(jobs, job)) == multiset(jobs) - multiset{job}
  {
    assert jobs == [jobs[0]] + jobs[1..];
    if jobs[0] != job {
      RemoveFirstRemovesOne(jobs[1..], job);
    }
  }

  /** The scan for a job passes an entry that is not equal to it. */
  lemma RemoveFirstSkips(jobs: seq<Job>, i: nat, job: Job)
    requires i < |jobs| && jobs[i] != job
    requires RemoveFirst(jobs, job) == jobs[..i] + RemoveFirst(jobs[i..], job)
    ensures RemoveFirst(jobs, job) == jobs[..i + 1] + RemoveFirst(jobs[i + 1..], job)
  {
    assert jobs[i..][1..] == jobs[i + 1..];
    assert jobs[..i + 1] == jobs[..i] + [jobs[i]];
  }

  lemma RemoveFirstHits(jobs: seq<Job>, i: nat, job: Job)
    requires i < |jobs| && jobs[i] == job
    ensures RemoveFirst(jobs[i..], job) == jobs[i + 1..]
  {
    assert jobs[i..][1..] == jobs[i + 1..];
  }

  lemma {:induction false} SumRemoveFirst(jobs: seq<Job>, job: Job, f: Job -> int)
    requires job in jobs
    ensures Sum(RemoveFirst(jobs, job), f) == Sum(jobs, f) - f(job)
  {
    if jobs[0] != job {
      SumRemoveFirst(jobs[1..], job, f);
    }
  }

  /** The list read right to left starts with the entry that BLMOVE takes. */
  lemma {:induction false} ReverseTakesLast(jobs: seq<Job>)
    requires jobs != []
    ensures Reverse(jobs) == [jobs[|jobs| - 1]] + Reverse(jobs[..|jobs| - 1])
  {
    var n := |jobs| - 1;
    if n > 0 {
      ReverseTakesLast(jobs[1..]);
      assert jobs[1..][..n - 1] == jobs[..n][1..];
    }
  }

  /** The queue object: one method per Redis command, and `Enqueue` on top. */
  class RedisQueue {
    const maxAttempts: int
    var lists: Lists

    constructor (maxAttempts: int)
      ensures lists == Lists([], [], []) && this.maxAttempts == maxAttempts
    {
      this.maxAttempts := maxAttempts;
      lists := Lists([], [], []);
    }

    method Enqueue(job: Job, ok: bool) returns (failure: Option<QueueError>)
      modifies this
      ensures failure == if !ValidJob(job) then Some(InvalidJob) else if !ok then Some(QueueUnavailable) else None
      ensures lists == if failure.None? then Push(old(lists), job) else old(lists)
    {
      if job.doc <= 0 || job.attempt <= 0 {
        return Some(InvalidJob);
      }
      if !ok {
        return Some(QueueUnavailable);
      }
      lists := lists.(main := [job] + lists.main);
      failure := None;
    }

    method MoveToProcessing() returns (job: Job)
      requires lists.main != []
      modifies this
      ensures job == Oldest(old(lists))
      ensures lists == Move(old(lists))
    {
      var n := |lists.main| - 1;
      job := lists.main[n];
      lists := lists.(main := lists.main[..n], processing := [job] + lists.processing);
    }

    /** LREM: scan from the left, drop the first equal entry. */
    method RemoveFromProcessing(job: Job)
      modifies this
      ensures lists == Remove(old(lists), job)
    {
      var jobs := lists.processing;
      var i := 0;
      while i < |jobs| && jobs[i] != job
        invariant 0 <= i <= |jobs|
        invariant lists == old(lists)
        invariant RemoveFirst(jobs, job) == jobs[..i] + RemoveFirst(jobs[i..], job)
      {
        RemoveFirstSkips(jobs, i, job);
        i := i + 1;
      }
      if i < |jobs| {
        RemoveFirstHits(jobs, i, job);
        lists := lists.(processing := jobs[..i] + jobs[i + 1..]);
      } else {
        assert jobs[i..] == [] && RemoveFirst([], job) == [] && jobs[..i] + [] == jobs;
        lists := lists.(processing := jobs);
      }
    }

    /** The second half of `Retry`. */
    method PushRetried(job: Job)
      modifies this
      ensures lists == Requeue(old(lists), job, maxAttempts)
    {
      if job.attempt >= maxAttempts {
        lists := lists.(dead := [job] + lists.dead);
      } else {
        lists := lists.(main := [job.(attempt := job.attempt + 1)] + lists.main);
      }
    }
  }
}
