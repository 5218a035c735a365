/** The worker's code, proved to take only steps of the protocol whatever happens around it. */
module Workers {
  import opened Base
  import opened Documents
  import opened JobQueue
  import opened Pipeline
  import opened Storage
  import opened Runtime
  import Claims
  import Delivery
  import Guarantees
  import Integrity

  /** The calls of one round of `Run`, and the text of a failure. */
  datatype Round = Round(
    cancelled: bool,
    consume: Call,
    lookup: Call,
    claim: Call,
    read: Call,
    mark: Call,
    remove: Call,
    push: Call,
    cause: Bytes)

  datatype ProcessError = LookupFailed | ClaimFailed | ReadFailed | SizeMismatch | MarkFailed

  datatype Ending = Drained | Cancelled | ConsumeFailed | JobRejected | RetryFailed | AckFailed

  ghost predicate At(system: System, w: nat, pc: WorkerPc)
    reads system
  {
    w < |system.state.workers| && system.state.workers[w] == pc
  }

  /** Some worker is between the claim and the mark of the document. */
  ghost predicate Claimed(system: System, id: int)
    reads system
  {
    exists w :: 0 <= w < |system.state.workers| && HoldsClaim(system.state.workers[w])
                && system.state.workers[w].job.doc == id
  }

  /**
   * The document is deleted, ready, or processing; and if it is processing, some worker holds
   * its claim or a claim of it was lost.
   */
  ghost predicate Settled(system: System, id: int)
    reads system
  {
    Live(system.state.rows, id) && system.state.rows[id].status != Ready ==>
      system.state.rows[id].status == Processing
      && (Claimed(system, id) || Claims.ClaimLost(system.config, system.trace, id))
  }

  lemma UnclaimableIsSettled(system: System, id: int)
    requires system.Valid() && id in system.state.rows && !Claimable(system.state.rows, id)
    ensures Settled(system, id)
  {
    if Live(system.state.rows, id) {
      Guarantees.ProcessingMeansClaimed(system.config, system.trace, id);
    }
  }

  /** The row is undeleted and ready, with this checksum and size. */
  predicate Completed(rows: Table, id: int, checksum: Bytes, size: int) {
    Live(rows, id) && rows[id].status == Ready && rows[id].checksum == Some(checksum) && rows[id].size == size
  }

  /** What was added are calls of worker w, or its end. */
  ghost predicate OnlyCalls(before: seq<Step>, after: seq<Step>, w: nat) {
    && |before| <= |after|
    && forall i :: |before| <= i < |after| ==> (after[i].Work? && after[i].w == w) || after[i] == Crash(w)
  }

  /** Nobody else does anything around the calls of `Process`. */
  predicate Alone(round: Round) {
    round.lookup.env == round.claim.env == round.read.env == round.mark.env == []
  }

  /** Of the stores only the table changed, and of the workers only w moved. */
  predicate OnlyRows(s: State, s': State, w: nat) {
    && s'.objects == s.objects && s'.lists == s.lists && OnlyWorker(s, s', w)
    && s'.history == s.history.(claims := s'.history.claims)
  }

  /** Of the stores only the lists changed, and of the workers only w moved. */
  predicate OnlyLists(s: State, s': State, w: nat) {
    s'.rows == s.rows && s'.objects == s.objects && OnlyWorker(s, s', w)
  }

  predicate OnlyWorker(s: State, s': State, w: nat) {
    && s'.creates == s.creates
    && |s'.workers| == |s.workers| && forall v :: 0 <= v < |s.workers| && v != w ==> s'.workers[v] == s.workers[v]
  }

  // ----- The calls of `Process` -----

  method Lookup(system: System, w: nat, job: Job, call: Call) returns (found: Result<Row, RepositoryError>)
    requires system.Valid() && At(system, w, Consumed(job))
    modifies system, system.Stores()
    ensures system.Valid() && old(system.trace) <= system.trace
    ensures call.env == [] ==> OnlyCalls(old(system.trace), system.trace, w)
    ensures found.Ok? <==> call.ok && Live(system.state.rows, job.doc)
    ensures found.Err? ==> At(system, w, Retrying(job))
    ensures found.Ok? ==>
      At(system, w, if found.value.status == Ready then Acking(job)
                    else LookedUp(job, found.value.key, found.value.size))
    ensures found.Ok? ==> system.state.rows[job.doc] == found.value
    ensures call.env == [] ==>
      OnlyRows(old(system.state), system.state, w) && system.state.rows == old(system.state.rows)
  {
    hide Pipeline.Run, After, Claims.ClaimLost;
    system.Interfere(Worker(w), call.env);
    found := system.repository.GetByID(job.doc, call.ok);
    system.Commit(Work(w, call.ok, []));
  }

  method TryClaim(system: System, w: nat, job: Job, key: Key, size: int, call: Call)
    returns (claimed: Result<bool, RepositoryError>)
    requires system.Valid() && At(system, w, LookedUp(job, key, size))
    modifies system, system.Stores()
    ensures system.Valid() && old(system.trace) <= system.trace
    ensures call.env == [] ==> OnlyCalls(old(system.trace), system.trace, w)
    ensures claimed.Err? <==> !call.ok
    ensures claimed.Err? ==> At(system, w, Retrying(job))
    ensures claimed == Ok(true) ==> At(system, w, Holding(job, key, size)) && Markable(system.state.rows, job.doc)
    ensures claimed == Ok(false) ==> At(system, w, Acking(job)) && Settled(system, job.doc)
    ensures call.env == [] ==>
      var rows, id := old(system.state.rows), job.doc;
      && OnlyRows(old(system.state), system.state, w) && id in rows
      && (claimed.Ok? ==> (claimed.value <==> Live(rows, id) && rows[id].status in {Pending, Failed}))
      && system.state.rows ==
           if claimed == Ok(true) then rows[id := rows[id].(status := Processing, failure := None)] else rows
  {
    hide Pipeline.Run, After, Settled;
    system.Interfere(Worker(w), call.env);
    LookedUpIsThere(system, w);
    claimed := system.repository.ClaimProcessing(job.doc, call.ok);
    system.Commit(Work(w, call.ok, []));
    if claimed == Ok(false) {
      UnclaimableIsSettled(system, job.doc);
    }
  }

  lemma LookedUpIsThere(system: System, w: nat)
    requires system.Valid() && w < |system.state.workers| && system.state.workers[w].LookedUp?
    ensures
      var pc := system.state.workers[w];
      && pc.job.doc in system.state.rows && system.state.rows[pc.job.doc].key == pc.key
      && pc.key in system.state.objects
  {
    var pc := system.state.workers[w];
    Integrity.SoundAlways(system.config, system.trace);
    assert Integrity.WorkerSound(system.config, system.state, pc);
    assert Integrity.RowSound(system.config, system.state, system.state.rows[pc.job.doc]);
  }

  /** A call that goes through reads the stored object. */
  method OpenAndRead(system: System, w: nat, job: Job, key: Key, size: int, call: Call, cause: Bytes)
    returns (content: Result<Bytes, StorageError>)
    requires system.Valid() && At(system, w, Holding(job, key, size))
    modifies system, system.Stores()
    ensures system.Valid() && old(system.trace) <= system.trace
    ensures call.env == [] ==> OnlyCalls(old(system.trace), system.trace, w)
    ensures content.Ok? <==> call.ok
    ensures content.Ok? ==> key in system.state.objects && content.value == system.state.objects[key]
    ensures content.Err? || |content.value| != size ==> At(system, w, Failing(job, Truncate(cause)))
    ensures content.Ok? && |content.value| == size ==>
      At(system, w, Summed(job, system.config.sha(content.value), |content.value|))
    ensures call.env == [] ==>
      OnlyRows(old(system.state), system.state, w) && system.state.rows == old(system.state.rows)
  {
    hide Pipeline.Run, After, Claims.ClaimLost;
    system.Interfere(Worker(w), call.env);
    HolderHasObject(system, w);
    content := system.storage.Open(key, call.ok);
    system.Commit(Work(w, call.ok, cause));
  }

  lemma HolderHasObject(system: System, w: nat)
    requires system.Valid() && w < |system.state.workers| && system.state.workers[w].Holding?
    ensures system.state.workers[w].key in system.state.objects
  {
    var pc := system.state.workers[w];
    Integrity.SoundAlways(system.config, system.trace);
    assert Integrity.WorkerSound(system.config, system.state, pc);
    assert Integrity.RowSound(system.config, system.state, system.state.rows[pc.job.doc]);
  }

  /** Success leaves the row ready with just this checksum and size. */
  method Finish(system: System, w: nat, job: Job, checksum: Bytes, size: int, call: Call) returns (done: bool)
    requires system.Valid() && At(system, w, Summed(job, checksum, size))
    modifies system, system.Stores()
    ensures system.Valid() && old(system.trace) <= system.trace
    ensures call.env == [] ==> OnlyCalls(old(system.trace), system.trace, w)
    ensures At(system, w, if done then Acking(job) else Retrying(job))
    ensures done ==> Completed(system.state.rows, job.doc, checksum, size)
    ensures done <==> call.ok && Live(system.state.rows, job.doc)
    ensures call.env == [] ==>
      var rows, id := old(system.state.rows), job.doc;
      && OnlyRows(old(system.state), system.state, w) && id in rows
      && (done <==> call.ok && Live(rows, id))
      && system.state.rows ==
           if done
           then rows[id := rows[id].(status := Ready, checksum := Some(checksum), size := size, failure := None)]
           else rows
  {
    hide Pipeline.Run, After, Claims.ClaimLost;
    system.Interfere(Worker(w), call.env);
    Guarantees.MarkMissesOnlyDeleted(system.config, system.trace, w);
    var missed := system.repository.MarkReadyOrError(job.doc, checksum, size, call.ok);
    system.Commit(Work(w, call.ok, []));
    done := missed.None?;
  }

  /** A message as it is if it has at most 512 bytes, else its first 512. */
  ghost function Cut(message: Bytes): (r: Bytes)
    ensures |message| <= 512 ==> r == message
    ensures |message| > 512 ==> r == message[..512]
  {
    Truncate(message)
  }

  /**
   * Cut the message to 512 bytes and record it; the failure itself is what Retry gets. An
   * undeleted row ends failed with that message, or, if the call fails, processing for good.
   */
  method Fail(system: System, w: nat, job: Job, cause: Bytes, call: Call)
    requires system.Valid() && At(system, w, Failing(job, Truncate(cause)))
    modifies system, system.Stores()
    ensures system.Valid() && old(system.trace) <= system.trace
    ensures call.env == [] ==> OnlyCalls(old(system.trace), system.trace, w)
    ensures At(system, w, Retrying(job)) && job.doc in system.state.rows
    ensures call.ok && Live(system.state.rows, job.doc) ==>
      system.state.rows[job.doc].status == Failed && system.state.rows[job.doc].failure == Some(Cut(cause))
    ensures !call.ok ==> Claims.ClaimLost(system.config, system.trace, job.doc)
    ensures call.env == [] ==>
      var rows, id := old(system.state.rows), job.doc;
      && OnlyRows(old(system.state), system.state, w) && id in rows
      && system.state.rows ==
           if call.ok && Live(rows, id)
           then rows[id := rows[id].(status := Failed, failure := Some(Cut(cause)))]
           else rows
  {
    var message := cause;
    if |message| > 512 {
      message := message[..512];
    }
    system.Interfere(Worker(w), call.env);
    Guarantees.MarkMissesOnlyDeleted(system.config, system.trace, w);
    ghost var before := system.trace;
    var missed := system.repository.MarkFailedOrError(job.doc, message, call.ok);
    system.Commit(Work(w, call.ok, []));
    assert system.trace[..|system.trace| - 1] == before;
  }

  /** How an undisturbed attempt ends for the row that it claimed, call by call, if the size is as recorded. */
  ghost predicate ClaimedOutcome(
    rows: Table, content: Bytes, c: Config, id: int, round: Round, failure: Option<ProcessError>, after: Table)
  {
    && id in rows
    && var failed := rows[id].(status := Failed, failure := Some(Cut(round.cause)));
       var ready := rows[id].(status := Ready, checksum := Some(c.sha(content)), size := |content|, failure := None);
       && failure == (if !round.read.ok then Some(ReadFailed)
                      else if !round.mark.ok || !Live(rows, id) then Some(MarkFailed)
                      else None)
       && after == if !round.mark.ok || !Live(rows, id) then rows
                   else rows[id := if failure.None? then ready else failed]
  }

  /**
   * The rest of `Process` once the row is claimed: read the object, then record the outcome.
   * Success leaves the row ready, with the checksum and size of its stored object.
   */
  method ProcessClaimed(system: System, w: nat, job: Job, document: Row, round: Round)
    returns (failure: Option<ProcessError>)
    requires system.Valid() && At(system, w, Holding(job, document.key, document.size))
    modifies system, system.Stores()
    ensures system.Valid() && old(system.trace) <= system.trace
    ensures round.read.env == round.mark.env == [] ==> OnlyCalls(old(system.trace), system.trace, w)
    ensures At(system, w, if failure.None? then Acking(job) else Retrying(job))
    ensures failure.None? ==>
      var s := system.state;
      && document.key in s.objects
      && Completed(s.rows, job.doc, system.config.sha(s.objects[document.key]), |s.objects[document.key]|)
      && s.rows[job.doc].key == document.key && s.rows[job.doc].size == document.size
    ensures failure == Some(ReadFailed) <==> !round.read.ok
    ensures failure == Some(MarkFailed) ==> !round.mark.ok || !Live(system.state.rows, job.doc)
    ensures failure != Some(LookupFailed) && failure != Some(ClaimFailed)
    ensures round.read.env == round.mark.env == [] ==>
      var s, s', id := old(system.state), system.state, job.doc;
      && OnlyRows(s, s', w) && id in s.rows && document.key in s.objects
      && (|s.objects[document.key]| == document.size ==>
            ClaimedOutcome(s.rows, s.objects[document.key], system.config, id, round, failure, s'.rows))
      && (|s.objects[document.key]| != document.size && round.read.ok ==>
            failure == Some(SizeMismatch) &&
            s'.rows == if !round.mark.ok || !Live(s.rows, id) then s.rows
                       else s.rows[id := s.rows[id].(status := Failed, failure := Some(Cut(round.cause)))])
  {
    hide Pipeline.Run, After, Enabled, Truncate, Claims.ClaimLost;
    ghost var claimed := system.trace;
    HolderKeepsKey(system, w);
    HolderHasObject(system, w);
    var content := OpenAndRead(system, w, job, document.key, document.size, round.read, round.cause);
    if content.Err? {
      Fail(system, w, job, round.cause, round.mark);
      return Some(ReadFailed);
    }
    var checksum, size := system.config.sha(content.value), |content.value|;
    if size != document.size {
      Fail(system, w, job, round.cause, round.mark);
      return Some(SizeMismatch);
    }
    var done := Finish(system, w, job, checksum, size, round.mark);
    StillStored(system, claimed, job.doc, document.key);
    failure := if done then None else Some(MarkFailed);
    if done {
      ReadyIsSummed(system, job.doc);
    }
  }

  lemma HolderKeepsKey(system: System, w: nat)
    requires system.Valid() && w < |system.state.workers| && system.state.workers[w].Holding?
    ensures
      var pc := system.state.workers[w];
      pc.job.doc in system.state.rows && system.state.rows[pc.job.doc].key == pc.key
  {
    Integrity.SoundAlways(system.config, system.trace);
    assert Integrity.WorkerSound(system.config, system.state, system.state.workers[w]);
  }

  /** A row keeps its key and its object. */
  lemma StillStored(system: System, before: seq<Step>, id: int, key: Key)
    requires system.Valid() && before <= system.trace
    requires id in After(system.config, Initial(), before).rows
    requires After(system.config, Initial(), before).rows[id].key == key
    ensures id in system.state.rows && system.state.rows[id].key == key && key in system.state.objects
  {
    assert before + system.trace[|before|..] == system.trace;
    Guarantees.RowsEvolve(system.config, before, system.trace[|before|..]);
  }

  lemma ReadyIsSummed(system: System, id: int)
    requires system.Valid() && id in system.state.rows && system.state.rows[id].status == Ready
    ensures
      var s := system.state;
      var key := s.rows[id].key;
      && key in s.objects && s.rows[id].size == |s.objects[key]|
      && s.rows[id].checksum == Some(system.config.sha(s.objects[key]))
  {
    Guarantees.ReadyRowsIntact(system.config, system.trace, id);
  }

  /** From the claim on, for a document that was not ready. */
  method ProcessPending(system: System, w: nat, job: Job, document: Row, round: Round)
    returns (failure: Option<ProcessError>)
    requires system.Valid() && At(system, w, LookedUp(job, document.key, document.size))
    modifies system, system.Stores()
    ensures system.Valid() && old(system.trace) <= system.trace
    ensures round.claim.env == round.read.env == round.mark.env == [] ==>
      OnlyCalls(old(system.trace), system.trace, w)
    ensures At(system, w, if failure.None? then Acking(job) else Retrying(job))
    ensures failure.None? ==> Settled(system, job.doc)
    ensures failure != Some(LookupFailed) && (failure == Some(ClaimFailed) <==> !round.claim.ok)
    ensures round.claim.env == round.read.env == round.mark.env == [] ==>
      var s, s', id := old(system.state), system.state, job.doc;
      && OnlyRows(s, s', w) && id in s.rows && document.key in s.objects
      && (!round.claim.ok ==> s'.rows == s.rows)
      && (round.claim.ok && !Claimable(s.rows, id) ==> failure == None && s'.rows == s.rows)
      && (round.claim.ok && Claimable(s.rows, id) ==>
            ClaimedOutcome(s.rows[id := s.rows[id].(status := Processing, failure := None)], s.objects[document.key],
                           system.config, id, round, failure, s'.rows))
  {
    hide Pipeline.Run, After, Enabled, Claims.ClaimLost, Claimed, ClaimedOutcome;
    LookedUpIsThere(system, w);
    var claimed := TryClaim(system, w, job, document.key, document.size, round.claim);
    if claimed.Err? {
      return Some(ClaimFailed);
    }
    if !claimed.value {
      return None;
    }
    HolderMatches(system, w);
    failure := ProcessClaimed(system, w, job, document, round);
  }

  /**
   * Process one consumed job. If it succeeds the job is about to be acknowledged, and the
   * document is deleted, ready, or processing under another worker's claim or a lost one;
   * else the job is about to be retried.
   *
   * Undisturbed, a pending or failed document ends ready, if all calls go through, with the
   * checksum and size of its object; a ready or processing one stays as it is and succeeds;
   * a missing or deleted one is not found; and each failing call has its own outcome.
   */
  method Process(system: System, w: nat, job: Job, round: Round) returns (failure: Option<ProcessError>)
    requires system.Valid() && At(system, w, Consumed(job))
    modifies system, system.Stores()
    ensures system.Valid() && old(system.trace) <= system.trace
    ensures Alone(round) ==> OnlyCalls(old(system.trace), system.trace, w)
    ensures At(system, w, if failure.None? then Acking(job) else Retrying(job))
    ensures failure.None? ==> Settled(system, job.doc)
    ensures Alone(round) ==>
      var s, s', id := old(system.state), system.state, job.doc;
      && OnlyRows(s, s', w)
      && (!round.lookup.ok || id !in s.rows || s.rows[id].deletedAt.Some? ==>
            failure == Some(LookupFailed) && s'.rows == s.rows)
      && (round.lookup.ok && id in s.rows && s.rows[id].deletedAt.None? ==>
            && (s.rows[id].status == Ready ==> failure == None && s'.rows == s.rows)
            && (s.rows[id].status != Ready && !round.claim.ok ==> failure == Some(ClaimFailed) && s'.rows == s.rows)
            && (s.rows[id].status == Processing && round.claim.ok ==> failure == None && s'.rows == s.rows))
    ensures Alone(round) && round.lookup.ok && round.claim.ok ==>
      var s, id := old(system.state), job.doc;
      id in s.rows && s.rows[id].deletedAt.None? && (s.rows[id].status == Pending || s.rows[id].status == Failed) ==>
        && s.rows[id].key in s.objects
        && var content := s.objects[s.rows[id].key];
           var claimed := s.rows[id].(status := Processing, failure := None);
           var ready := claimed.(status := Ready, checksum := Some(system.config.sha(content)), size := |content|);
           var failed := claimed.(status := Failed, failure := Some(Cut(round.cause)));
           && failure == (if !round.read.ok then Some(ReadFailed)
                          else if !round.mark.ok then Some(MarkFailed)
                          else None)
           && system.state.rows ==
                s.rows[id := if !round.mark.ok then claimed else if round.read.ok then ready else failed]
  {
    hide Pipeline.Run, After, Enabled, Claims.ClaimLost, Claimed;
    var found := Lookup(system, w, job, round.lookup);
    if found.Err? {
      return Some(LookupFailed);
    }
    var document := found.value;
    if document.status == Ready {
      return None;
    }
    failure := ProcessPending(system, w, job, document, round);
  }

  lemma HolderMatches(system: System, w: nat)
    requires system.Valid() && w < |system.state.workers| && system.state.workers[w].Holding?
    ensures
      var pc := system.state.workers[w];
      pc.key in system.state.objects && pc.size == |system.state.objects[pc.key]|
  {
    HolderHasObject(system, w);
    Guarantees.SizeMismatchUnreachable(system.config, system.trace, w, []);
  }

  // ----- The calls of `Run` -----

  /** BLMOVE of the payload that was pushed first of those not moved yet; None while it blocks. */
  method Consume(system: System, w: nat, call: Call) returns (job: Option<Job>)
    requires system.Valid() && At(system, w, Idle) && call.ok
    modifies system, system.Stores()
    ensures system.Valid() && old(system.trace) <= system.trace
    ensures call.env == [] ==> OnlyCalls(old(system.trace), system.trace, w)
    ensures job.None? ==> At(system, w, Idle) && system.state.lists.main == []
    ensures job.Some? ==> At(system, w, if ValidJob(job.value) then Consumed(job.value) else Rejecting(job.value))
    ensures job.Some? ==>
      var s := system.state;
      var n := |s.history.moved|;
      && 0 < n <= |s.history.pushed| && s.history.pushed[n - 1] == job.value
      && s.lists.processing != [] && s.lists.processing[0] == job.value
    ensures call.env == [] && old(system.state.lists.main) == [] ==> job == None && system.state == old(system.state)
    ensures call.env == [] && old(system.state.lists.main) != [] ==>
      var s, s' := old(system.state), system.state;
      var n := |s.lists.main| - 1;
      && OnlyLists(s, s', w) && job == Some(s.lists.main[n])
      && s'.lists == Lists(s.lists.main[..n], [s.lists.main[n]] + s.lists.processing, s.lists.dead)
      && s'.history == s.history.(moved := s.history.moved + [s.lists.main[n]])
  {
    hide Pipeline.Run, After, Claims.ClaimLost;
    system.Interfere(Worker(w), call.env);
    if system.queue.lists.main == [] {
      return None;
    }
    var oldest := system.queue.MoveToProcessing();
    system.Commit(Work(w, true, []));
    Guarantees.FirstInFirstOut(system.config, system.trace);
    job := Some(oldest);
  }

  /**
   * LREM of the worker's own payload, for Ack, for Retry, and for a payload that Consume
   * rejects. Undisturbed, it takes exactly one such entry off the processing list.
   */
  method RemovePayload(system: System, w: nat, job: Job, call: Call)
    requires system.Valid()
    requires At(system, w, Acking(job)) || At(system, w, Retrying(job)) || At(system, w, Rejecting(job))
    modifies system, system.Stores()
    ensures system.Valid() && old(system.trace) <= system.trace
    ensures call.env == [] ==> OnlyCalls(old(system.trace), system.trace, w)
    ensures At(system, w, if !call.ok || old(system.state.workers[w]).Rejecting? then Stopped
                          else if old(system.state.workers[w]).Acking? then Idle
                          else Pushing(job))
    ensures call.env == [] ==>
      var s, s' := old(system.state), system.state;
      && OnlyLists(s, s', w) && s'.history.moved == s.history.moved
      && (if call.ok
          then job in s.lists.processing && s'.lists == Remove(s.lists, job)
          else s'.lists == s.lists)
      && s'.history.acked == s.history.acked + if call.ok && s.workers[w].Acking? then multiset{job.doc} else multiset{}
  {
    hide Pipeline.Run, After, Claims.ClaimLost;
    system.Interfere(Worker(w), call.env);
    OwnPayloadIsListed(system, w);
    if call.ok {
      system.queue.RemoveFromProcessing(job);
    }
    system.Commit(Work(w, call.ok, []));
  }

  lemma OwnPayloadIsListed(system: System, w: nat)
    requires system.Valid() && w < |system.state.workers| && HoldsPayload(system.state.workers[w])
    ensures system.state.workers[w].job in system.state.lists.processing
  {
    Delivery.FlowAlways(system.config, system.trace);
    Delivery.HeldPayloadIsListed(system.state, w);
  }

  /** LPUSH of the job, one attempt up, or of the job as it is to the dead list at the last attempt. */
  method PushAgain(system: System, w: nat, job: Job, call: Call)
    requires system.Valid() && At(system, w, Pushing(job))
    modifies system, system.Stores()
    ensures system.Valid() && old(system.trace) <= system.trace
    ensures call.env == [] ==> OnlyCalls(old(system.trace), system.trace, w)
    ensures At(system, w, if call.ok then Idle else Stopped)
    ensures call.ok ==> PushedAgain(system.state.lists, job, system.config.maxAttempts)
    ensures !call.ok ==> system.state.history.lost[job.doc] > 0
    ensures call.env == [] ==>
      var s, s' := old(system.state), system.state;
      && OnlyLists(s, s', w) && s'.history.moved == s.history.moved && s'.history.acked == s.history.acked
      && s'.lists == if call.ok then Requeue(s.lists, job, system.config.maxAttempts) else s.lists
  {
    hide Pipeline.Run, After, Claims.ClaimLost;
    system.Interfere(Worker(w), call.env);
    if call.ok {
      system.queue.PushRetried(job);
    }
    system.Commit(Work(w, call.ok, []));
  }

  predicate PushedAgain(lists: Lists, job: Job, maxAttempts: int) {
    if job.attempt >= maxAttempts
    then lists.dead != [] && lists.dead[0] == job
    else lists.main != [] && lists.main[0] == Job(job.doc, job.attempt + 1)
  }

  /**
   * Remove the payload, then push the job one attempt up or bury it; false if Redis failed.
   * Undisturbed, a retry that succeeds moves exactly this one job.
   */
  method Retry(system: System, w: nat, job: Job, round: Round) returns (done: bool)
    requires system.Valid() && At(system, w, Retrying(job))
    modifies system, system.Stores()
    ensures system.Valid() && old(system.trace) <= system.trace
    ensures round.remove.env == round.push.env == [] ==> OnlyCalls(old(system.trace), system.trace, w)
    ensures done <==> round.remove.ok && round.push.ok
    ensures At(system, w, if done then Idle else Stopped)
    ensures done ==> PushedAgain(system.state.lists, job, system.config.maxAttempts)
    ensures round.remove.ok && !done ==> system.state.history.lost[job.doc] > 0
    ensures round.remove.env == round.push.env == [] && done ==>
      var s, s' := old(system.state), system.state;
      && OnlyLists(s, s', w) && s'.history.moved == s.history.moved && s'.history.acked == s.history.acked
      && s'.lists == Requeue(Remove(s.lists, job), job, system.config.maxAttempts)
  {
    hide Pipeline.Run, After, Enabled, PushedAgain;
    RemovePayload(system, w, job, round.remove);
    if !round.remove.ok {
      return false;
    }
    PushAgain(system, w, job, round.push);
    done := round.push.ok;
  }

  /** Nobody else does anything during the round. */
  predicate Quiet(round: Round) {
    Alone(round) && round.consume.env == round.remove.env == round.push.env == []
  }

  /** And all its calls go through. */
  predicate Steady(round: Round) {
    && !round.cancelled && Quiet(round)
    && round.consume.ok && round.lookup.ok && round.claim.ok && round.read.ok && round.mark.ok
    && round.remove.ok && round.push.ok
  }

  /** A steady round on a job of an undeleted document: the job is acknowledged, and the document ends as it should. */
  ghost predicate JobDone(s: State, s': State, c: Config, job: Job)
    requires s.lists.main != []
  {
    && s'.lists.main == s.lists.main[..|s.lists.main| - 1] && s'.lists.dead == s.lists.dead
    && s'.history.acked == s.history.acked + multiset{job.doc}
    && job.doc in s.rows && s.rows[job.doc].key in s.objects
    && var row, content := s.rows[job.doc], s.objects[s.rows[job.doc].key];
       var ready := row.(status := Ready, checksum := Some(c.sha(content)), size := |content|, failure := None);
       s'.rows == if row.status == Ready || row.status == Processing then s.rows else s.rows[job.doc := ready]
  }

  /** A steady round on a job without document: the job goes back, one attempt up, or is buried. */
  ghost predicate JobRequeued(s: State, s': State, c: Config, job: Job)
    requires s.lists.main != []
  {
    && s'.rows == s.rows && s'.history.acked == s.history.acked
    && var rest := s.lists.main[..|s.lists.main| - 1];
       if job.attempt >= c.maxAttempts
       then s'.lists.main == rest && s'.lists.dead == [job] + s.lists.dead
       else s'.lists.main == [Job(job.doc, job.attempt + 1)] + rest && s'.lists.dead == s.lists.dead
  }

  lemma RowHasObject(system: System, id: int)
    requires system.Valid() && id in system.state.rows
    ensures system.state.rows[id].key in system.state.objects
  {
    Guarantees.ReadyRowsIntact(system.config, system.trace, id);
  }

  /** Process a consumed job, then acknowledge or retry it; None if the loop goes on. */
  method Handle(system: System, w: nat, job: Job, round: Round) returns (ending: Option<Ending>)
    requires system.Valid() && At(system, w, Consumed(job))
    modifies system, system.Stores()
    ensures system.Valid() && old(system.trace) <= system.trace
    ensures Quiet(round) ==> OnlyCalls(old(system.trace), system.trace, w)
    ensures At(system, w, if ending.None? then Idle else Stopped)
    ensures ending == None || ending == Some(RetryFailed) || ending == Some(AckFailed)
    ensures Steady(round) ==>
      var s, s' := old(system.state), system.state;
      && ending == None && s'.objects == s.objects && s'.history.moved == s.history.moved
      && if job.doc in s.rows && s.rows[job.doc].deletedAt.None?
         then
           && s'.lists == Remove(s.lists, job) && s'.history.acked == s.history.acked + multiset{job.doc}
           && s.rows[job.doc].key in s.objects
           && var row, content := s.rows[job.doc], s.objects[s.rows[job.doc].key];
              var ready :=
                row.(status := Ready, checksum := Some(system.config.sha(content)), size := |content|, failure := None);
              s'.rows == if row.status == Ready || row.status == Processing then s.rows else s.rows[job.doc := ready]
         else
           && s'.lists == Requeue(Remove(s.lists, job), job, system.config.maxAttempts)
           && s'.rows == s.rows && s'.history.acked == s.history.acked
  {
    hide Pipeline.Run, After, Enabled, Settled, PushedAgain, Remove, Requeue;
    if job.doc in system.state.rows {
      RowHasObject(system, job.doc);
    }
    var failure := Process(system, w, job, round);
    if failure.Some? {
      var done := Retry(system, w, job, round);
      return if done then None else Some(RetryFailed);
    }
    RemovePayload(system, w, job, round.remove);
    ending := if round.remove.ok then None else Some(AckFailed);
  }

  /**
   * One pass of the loop; None if the loop goes on. A steady one takes exactly the oldest job
   * off a main list that is not empty, and it ends with the job acknowledged or requeued.
   */
  method Pass(system: System, w: nat, round: Round) returns (ending: Option<Ending>)
    requires system.Valid() && At(system, w, Idle)
    modifies system, system.Stores()
    ensures system.Valid() && old(system.trace) <= system.trace
    ensures Quiet(round) ==> OnlyCalls(old(system.trace), system.trace, w)
    ensures ending == Some(Cancelled) || ending == Some(ConsumeFailed) ==>
      OnlyRows(old(system.state), system.state, w)
      && system.state.rows == old(system.state.rows)
    ensures At(system, w, if ending.None? then Idle else Stopped)
    ensures ending != Some(Drained) && (ending == Some(Cancelled) <==> round.cancelled)
    ensures ending == Some(ConsumeFailed) <==> !round.cancelled && !round.consume.ok
    ensures system.config.maxAttempts > 0 ==> ending != Some(JobRejected)
    ensures Steady(round) && old(system.state.lists.main) == [] ==> ending == None && system.state == old(system.state)
    ensures Steady(round) && old(system.state.lists.main) != [] ==>
      var s, s' := old(system.state), system.state;
      var job := s.lists.main[|s.lists.main| - 1];
      job.doc > 0 && job.attempt > 0 ==>
        && ending == None && s'.objects == s.objects && s'.lists.processing == s.lists.processing
        && s'.history.moved == s.history.moved + [job]
        && if job.doc in s.rows && s.rows[job.doc].deletedAt.None?
           then JobDone(s, s', system.config, job)
           else JobRequeued(s, s', system.config, job)
  {
    hide Pipeline.Run, After, Enabled, Settled, PushedAgain;
    if round.cancelled {
      system.Commit(Crash(w));
      return Some(Cancelled);
    }
    if !round.consume.ok {
      system.Commit(Work(w, false, []));
      return Some(ConsumeFailed);
    }
    var job := Consume(system, w, round.consume);
    if job.None? {
      return None;
    }
    if job.value.doc <= 0 || job.value.attempt <= 0 {
      RejectionNeedsNoAttempts(system.config, system.trace, w);
      RemovePayload(system, w, job.value, round.remove);
      return Some(JobRejected);
    }
    ghost var processing := old(system.state.lists.processing);
    assert ([job.value] + processing)[1..] == processing;
    ending := Handle(system, w, job.value, round);
  }

  /**
   * Consume, process, then acknowledge or retry, once per round; a round in which BLMOVE
   * blocks only waits. A queue with maxAttempts > 0 never makes it reject a job. Steady rounds
   * each take a job, until the main list is empty.
   */
  method Run(system: System, w: nat, rounds: seq<Round>) returns (ending: Ending)
    requires system.Valid() && At(system, w, Idle)
    modifies system, system.Stores()
    ensures system.Valid() && old(system.trace) <= system.trace
    ensures (forall i :: 0 <= i < |rounds| ==> Quiet(rounds[i])) ==> OnlyCalls(old(system.trace), system.trace, w)
    ensures At(system, w, if ending.Drained? then Idle else Stopped)
    ensures system.config.maxAttempts > 0 ==> !ending.JobRejected?
    ensures system.config.maxAttempts > 0 && (forall i :: 0 <= i < |rounds| ==> Steady(rounds[i])) ==>
      && ending == Drained
      && (|system.state.history.moved| == |old(system.state.history.moved)| + |rounds| || system.state.lists.main == [])
  {
    hide Pipeline.Run, After, Enabled, JobDone, JobRequeued;
    for i := 0 to |rounds|
      invariant system.Valid() && old(system.trace) <= system.trace
      invariant At(system, w, Idle)
      invariant system.config.maxAttempts > 0 && (forall j :: 0 <= j < |rounds| ==> Steady(rounds[j])) ==>
        |system.state.history.moved| == |old(system.state.history.moved)| + i || system.state.lists.main == []
      invariant (forall j :: 0 <= j < |rounds| ==> Quiet(rounds[j])) ==> OnlyCalls(old(system.trace), system.trace, w)
    {
      if system.config.maxAttempts > 0 {
        Guarantees.AttemptsInRange(system.config, system.trace);
      }
      var stop := Pass(system, w, rounds[i]);
      if stop.Some? {
        return stop.value;
      }
    }
    ending := Drained;
  }

  lemma RejectionNeedsNoAttempts(c: Config, steps: seq<Step>, w: nat)
    requires Pipeline.Run(c, Initial(), steps)
    requires w < |After(c, Initial(), steps).workers| && After(c, Initial(), steps).workers[w].Rejecting?
    ensures c.maxAttempts <= 0
  {
    if c.maxAttempts > 0 {
      Guarantees.AttemptsInRange(c, steps);
    }
  }
}
