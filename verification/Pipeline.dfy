/**
 * The document pipeline as a concurrent protocol. Uploads, deletes and any number of
 * workers interleave over the documents table, the object store and the Redis lists.
 * Every SQL statement, Redis command and storage call is one atomic step, and a call
 * that returns an error has no effect.
 */
module Pipeline {
  import opened Base
  import opened Documents
  import opened JobQueue

  /** `sha` is any function from contents to checksums. */
  datatype Config = Config(sha: Bytes -> Bytes, maxAttempts: int)

  /** Where one worker stands in `Run` and `Process`; the name says which call comes next. */
  datatype WorkerPc =
    | Idle                                                  // Consume: BLMOVE
    | Rejecting(job: Job)                                   // Consume: LREM of an invalid payload
    | Consumed(job: Job)                                    // GetByID
    | LookedUp(job: Job, key: Key, size: int)               // ClaimProcessing
    | Holding(job: Job, key: Key, size: int)                // Open and read
    | Summed(job: Job, checksum: Bytes, size: int)          // MarkReady
    | Failing(job: Job, message: Bytes)                     // MarkFailed
    | Acking(job: Job)                                      // Ack: LREM
    | Retrying(job: Job)                                    // Retry: LREM
    | Pushing(job: Job)                                     // Retry: LPUSH
    | Stopped                                               // returned or crashed

  /** Where one upload stands in `Create`. */
  datatype CreatePc =
    | Generated(owner: int, key: Key)                       // Put
    | Stored(owner: int, key: Key, size: int)               // insert
    | Compensating(key: Key)                                // Delete
    | Inserted(id: int)                                     // Enqueue
    | Finished

  /** What has happened so far. No step reads it. */
  datatype History = History(
    pushed: seq<Job>,          // every payload pushed to the main list
    moved: seq<Job>,           // every payload moved out of it
    enqueued: multiset<int>,   // documents of successful Enqueue calls
    acked: multiset<int>,      // documents of successful Ack calls
    lost: multiset<int>,       // documents of jobs dropped by a rejection, a crash or a failed push
    claims: multiset<int>,     // documents of successful claims
    undeleted: set<Key>,       // keys whose compensating delete failed
    abandoned: set<Key>)       // keys of crashed uploads

  datatype State = State(
    rows: Table,
    objects: map<Key, Bytes>,
    lists: Lists,
    workers: seq<WorkerPc>,
    creates: seq<CreatePc>,
    used: set<Key>,            // keys generated so far
    history: History)

  datatype Step =
    | Work(w: nat, ok: bool, cause: Bytes)   // worker w's next call; `cause` is the text of its failure
    | Crash(w: nat)
    | Spawn
    | BeginCreate(owner: int, key: Key)
    | PutObject(i: nat, content: Bytes, ok: bool)
    | InsertRow(i: nat, id: int, ok: bool)
    | Compensate(i: nat, ok: bool)
    | EnqueueJob(i: nat, ok: bool)
    | CrashCreate(i: nat)
    | Reenqueue(id: int)
    | DeleteRow(id: int, now: int)

  const MAX_MESSAGE := 512

  function Truncate(message: Bytes): (r: Bytes)
    ensures |r| <= MAX_MESSAGE && r <= message
  {
    if |message| > MAX_MESSAGE then message[..MAX_MESSAGE] else message
  }

  const NO_HISTORY := History([], [], multiset{}, multiset{}, multiset{}, multiset{}, {}, {})

  function Initial(): State {
    State(map[], map[], Lists([], [], []), [], [], {}, NO_HISTORY)
  }

  // ----- One call of a worker -----

  function WorkRows(s: State, w: nat, ok: bool): Table
    requires w < |s.workers|
  {
    if !ok then s.rows else
      match s.workers[w]
      case LookedUp(job, _, _) => Claim(s.rows, job.doc)
      case Summed(job, checksum, size) => MarkReady(s.rows, job.doc, checksum, size)
      case Failing(job, message) => MarkFailed(s.rows, job.doc, message)
      case _ => s.rows
  }

  function WorkLists(c: Config, s: State, w: nat, ok: bool): Lists
    requires w < |s.workers|
    requires s.workers[w].Idle? && ok ==> s.lists.main != []
  {
    if !ok then s.lists else
      match s.workers[w]
      case Idle => Move(s.lists)
      case Rejecting(job) => Remove(s.lists, job)
      case Acking(job) => Remove(s.lists, job)
      case Retrying(job) => Remove(s.lists, job)
      case Pushing(job) => Requeue(s.lists, job, c.maxAttempts)
      case _ => s.lists
  }

  function ReadObject(c: Config, s: State, job: Job, key: Key, size: int, ok: bool, cause: Bytes): WorkerPc {
    if !ok || key !in s.objects || |s.objects[key]| != size
    then Failing(job, Truncate(cause))
    else Summed(job, c.sha(s.objects[key]), |s.objects[key]|)
  }

  function WorkPc(c: Config, s: State, w: nat, ok: bool, cause: Bytes): WorkerPc
    requires w < |s.workers|
    requires s.workers[w].Idle? && ok ==> s.lists.main != []
  {
    match s.workers[w]
    case Idle =>
      if !ok then Stopped
      else if ValidJob(Oldest(s.lists)) then Consumed(Oldest(s.lists))
      else Rejecting(Oldest(s.lists))
    case Rejecting(_) => Stopped
    case Consumed(job) =>
      if !ok || !Live(s.rows, job.doc) then Retrying(job)
      else if s.rows[job.doc].status == Ready then Acking(job)
      else LookedUp(job, s.rows[job.doc].key, s.rows[job.doc].size)
    case LookedUp(job, key, size) =>
      if !ok then Retrying(job) else if Claimable(s.rows, job.doc) then Holding(job, key, size) else Acking(job)
    case Holding(job, key, size) => ReadObject(c, s, job, key, size, ok, cause)
    case Summed(job, _, _) => if ok && Markable(s.rows, job.doc) then Acking(job) else Retrying(job)
    case Failing(job, _) => Retrying(job)
    case Acking(_) => if ok then Idle else Stopped
    case Retrying(job) => if ok then Pushing(job) else Stopped
    case Pushing(_) => if ok then Idle else Stopped
    case Stopped => Stopped
  }

  function WorkHistory(c: Config, s: State, w: nat, ok: bool): History
    requires w < |s.workers|
    requires s.workers[w].Idle? && ok ==> s.lists.main != []
  {
    var h := s.history;
    match s.workers[w]
    case Idle => if ok then h.(moved := h.moved + [Oldest(s.lists)]) else h
    case Rejecting(job) => if ok then h.(lost := h.lost + multiset{job.doc}) else h
    case LookedUp(job, _, _) =>
      if ok && Claimable(s.rows, job.doc) then h.(claims := h.claims + multiset{job.doc}) else h
    case Acking(job) => if ok then h.(acked := h.acked + multiset{job.doc}) else h
    case Pushing(job) =>
      if !ok then h.(lost := h.lost + multiset{job.doc})
      else if job.attempt >= c.maxAttempts then h
      else h.(pushed := h.pushed + [job.(attempt := job.attempt + 1)])
    case _ => h
  }

  function WorkStep(c: Config, s: State, w: nat, ok: bool, cause: Bytes): State
    requires w < |s.workers|
    requires s.workers[w].Idle? && ok ==> s.lists.main != []
  {
    s.(rows := WorkRows(s, w, ok),
       lists := WorkLists(c, s, w, ok),
       workers := s.workers[w := WorkPc(c, s, w, ok, cause)],
       history := WorkHistory(c, s, w, ok))
  }

  // ----- All steps -----

  predicate Enabled(s: State, step: Step) {
    match step
    case Work(w, ok, _) =>
      w < |s.workers| && !s.workers[w].Stopped? && (s.workers[w].Idle? && ok ==> s.lists.main != [])
    case Crash(w) => w < |s.workers|
    case Spawn => true
    case BeginCreate(owner, key) => owner > 0 && key !in s.used
    case PutObject(i, _, _) => i < |s.creates| && s.creates[i].Generated?
    case InsertRow(i, id, _) => i < |s.creates| && s.creates[i].Stored? && id > 0 && id !in s.rows
    case Compensate(i, _) => i < |s.creates| && s.creates[i].Compensating?
    case EnqueueJob(i, _) => i < |s.creates| && s.creates[i].Inserted?
    case CrashCreate(i) => i < |s.creates|
    case Reenqueue(id) => id > 0
    case DeleteRow(_, _) => true
  }

  function PushNew(s: State, id: int): State {
    var job := Job(id, 1);
    s.(lists := Push(s.lists, job),
       history := s.history.(pushed := s.history.pushed + [job], enqueued := s.history.enqueued + multiset{id}))
  }

  function Apply(c: Config, s: State, step: Step): State
    requires Enabled(s, step)
  {
    match step
    case Work(w, ok, cause) => WorkStep(c, s, w, ok, cause)
    case Crash(w) =>
      var h := s.history;
      var pc := s.workers[w];
      s.(workers := s.workers[w := Stopped],
         history := if pc.Pushing? then h.(lost := h.lost + multiset{pc.job.doc}) else h)
    case Spawn => s.(workers := s.workers + [Idle])
    case BeginCreate(owner, key) => s.(used := s.used + {key}, creates := s.creates + [Generated(owner, key)])
    case PutObject(i, content, ok) =>
      var pc := s.creates[i];
      if ok
      then s.(objects := s.objects[pc.key := content], creates := s.creates[i := Stored(pc.owner, pc.key, |content|)])
      else s.(creates := s.creates[i := Finished])
    case InsertRow(i, id, ok) =>
      var pc := s.creates[i];
      if ok
      then s.(rows := Insert(s.rows, id, pc.owner, pc.size, pc.key), creates := s.creates[i := Inserted(id)])
      else s.(creates := s.creates[i := Compensating(pc.key)])
    case Compensate(i, ok) =>
      var key := s.creates[i].key;
      if ok
      then s.(objects := s.objects - {key}, creates := s.creates[i := Finished])
      else s.(creates := s.creates[i := Finished], history := s.history.(undeleted := s.history.undeleted + {key}))
    case EnqueueJob(i, ok) =>
      var s' := s.(creates := s.creates[i := Finished]);
      if ok then PushNew(s', s.creates[i].id) else s'
    case CrashCreate(i) =>
      var pc := s.creates[i];
      var keys := if pc.Stored? || pc.Compensating? then {pc.key} else {};
      s.(creates := s.creates[i := Finished], history := s.history.(abandoned := s.history.abandoned + keys))
    case Reenqueue(id) => PushNew(s, id)
    case DeleteRow(id, now) => s.(rows := SoftDelete(s.rows, id, now))
  }

  // ----- Runs -----

  /** `steps` can be taken one after the other from `s`. */
  predicate Run(c: Config, s: State, steps: seq<Step>) {
    steps == [] ||
    (var n := |steps| - 1;
     Run(c, s, steps[..n]) && Enabled(After(c, s, steps[..n]), steps[n]))
  }

  /** The state that `steps` lead to; a step that cannot be taken is skipped. */
  function After(c: Config, s: State, steps: seq<Step>): State {
    if steps == [] then s
    else
      var n := |steps| - 1;
      var s' := After(c, s, steps[..n]);
      if Enabled(s', steps[n]) then Apply(c, s', steps[n]) else s'
  }

  lemma RunExtends(c: Config, s: State, steps: seq<Step>, step: Step)
    requires Run(c, s, steps) && Enabled(After(c, s, steps), step)
    ensures Run(c, s, steps + [step])
    ensures After(c, s, steps + [step]) == Apply(c, After(c, s, steps), step)
  {
  }

  // ----- Kinds of steps and of program counters -----

  predicate IsCrash(step: Step) {
    step.Crash? || step.CrashCreate?
  }

  /** A Redis command of a worker that fails. */
  predicate IsRedisFailure(s: State, step: Step) {
    step.Work? && !step.ok && step.w < |s.workers| &&
    (var pc := s.workers[step.w]; pc.Idle? || pc.Rejecting? || pc.Acking? || pc.Retrying? || pc.Pushing?)
  }

  /** A MarkReady or MarkFailed statement that fails. */
  predicate IsMarkFailure(s: State, step: Step) {
    step.Work? && !step.ok && step.w < |s.workers| &&
    (var pc := s.workers[step.w]; pc.Summed? || pc.Failing?)
  }

  /** The worker is between its successful claim and its mark. */
  predicate HoldsClaim(pc: WorkerPc) {
    pc.Holding? || pc.Summed? || pc.Failing?
  }

  /** The worker's payload is still in the processing list. */
  predicate HoldsPayload(pc: WorkerPc) {
    pc.Rejecting? || pc.Consumed? || pc.LookedUp? || HoldsClaim(pc) || pc.Acking? || pc.Retrying?
  }
}
