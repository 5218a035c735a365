/** Rows, objects and checksums agree in every reachable state, crashes and failures included. */
module Integrity {
  import opened Base
  import opened Documents
  import opened JobQueue
  import opened Pipeline

  // ----- The invariant -----

  /** One row against the object store. */
  ghost predicate RowSound(c: Config, s: State, row: Row) {
    && row.key in s.used
    && row.key in s.objects
    && row.size == |s.objects[row.key]|
    && (row.checksum.Some? <==> row.status == Ready)
    && (row.checksum.Some? ==> row.checksum.value == c.sha(s.objects[row.key]))
    && (row.failure.Some? <==> row.status == Failed)
    && (row.failure.Some? ==> |row.failure.value| <= MAX_MESSAGE)
  }

  ghost predicate RowsSound(c: Config, s: State) {
    && (forall id :: id in s.rows ==> RowSound(c, s, s.rows[id]))
    && (forall id, id' :: id in s.rows && id' in s.rows && s.rows[id].key == s.rows[id'].key ==> id == id')
  }

  /** What a worker remembers about a row is still true of it. */
  ghost predicate WorkerSound(c: Config, s: State, pc: WorkerPc) {
    match pc
    case LookedUp(job, key, size) => job.doc in s.rows && s.rows[job.doc].key == key && s.rows[job.doc].size == size
    case Holding(job, key, size) => job.doc in s.rows && s.rows[job.doc].key == key && s.rows[job.doc].size == size
    case Summed(job, checksum, size) =>
      job.doc in s.rows && s.rows[job.doc].key in s.objects &&
      checksum == c.sha(s.objects[s.rows[job.doc].key]) && size == s.rows[job.doc].size
    case Failing(_, message) => |message| <= MAX_MESSAGE
    case _ => true
  }

  ghost predicate WorkersSound(c: Config, s: State) {
    forall w :: 0 <= w < |s.workers| ==> WorkerSound(c, s, s.workers[w])
  }

  predicate Uploading(pc: CreatePc) {
    pc.Generated? || pc.Stored? || pc.Compensating?
  }

  predicate HasObject(pc: CreatePc) {
    pc.Stored? || pc.Compensating?
  }

  /** One upload against the table and the object store. */
  ghost predicate CreateSound(s: State, pc: CreatePc) {
    && (Uploading(pc) ==> pc.key in s.used && forall id :: id in s.rows ==> s.rows[id].key != pc.key)
    && (pc.Generated? ==> pc.key !in s.objects)
    && (HasObject(pc) ==> pc.key in s.objects)
    && (pc.Stored? ==> pc.size == |s.objects[pc.key]|)
    && (pc.Inserted? ==> pc.id in s.rows)
  }

  ghost predicate CreatesSound(s: State) {
    && (forall i :: 0 <= i < |s.creates| ==> CreateSound(s, s.creates[i]))
    && UploadKeysDistinct(s)
  }

  ghost predicate Referenced(s: State, key: Key) {
    exists id :: id in s.rows && s.rows[id].key == key
  }

  ghost predicate InUpload(s: State, key: Key) {
    exists i :: 0 <= i < |s.creates| && HasObject(s.creates[i]) && s.creates[i].key == key
  }

  /** Every stored object has a row, an upload in progress, or a recorded reason to be left over. */
  ghost predicate ObjectsAccounted(s: State) {
    forall key :: key in s.objects ==>
      && key in s.used
      && (Referenced(s, key) || InUpload(s, key) || key in s.history.undeleted || key in s.history.abandoned)
  }

  ghost predicate Sound(c: Config, s: State) {
    RowsSound(c, s) && WorkersSound(c, s) && CreatesSound(s) && ObjectsAccounted(s)
  }

  // ----- What a step may do to a row -----

  predicate StatusEdge(before: Status, after: Status) {
    || (after == Processing && (before == Pending || before == Failed))
    || (before == Processing && (after == Ready || after == Failed))
  }

  /** A step starts a row as pending and moves it along an edge, or leaves its status alone. */
  lemma StepMovesAlongEdges(c: Config, s: State, step: Step, id: int)
    requires Enabled(s, step)
    ensures
      var s' := Apply(c, s, step);
      if id in s.rows
      then id in s'.rows &&
           (s'.rows[id].status == s.rows[id].status || StatusEdge(s.rows[id].status, s'.rows[id].status))
      else id in s'.rows ==> s'.rows[id].status == Pending
  {
  }

  /** Owner, key and size never change; ready, deletion time and deleted rows are frozen. */
  predicate RowEvolves(before: Row, after: Row) {
    && after.owner == before.owner && after.key == before.key && after.size == before.size
    && (before.status == Ready ==> after == before.(deletedAt := after.deletedAt))
    && (before.deletedAt.Some? ==> after == before)
  }

  predicate Evolves(s: State, s': State) {
    forall id :: id in s.rows ==>
      id in s'.rows && RowEvolves(s.rows[id], s'.rows[id]) &&
      s.rows[id].key in s.objects && s.rows[id].key in s'.objects &&
      s'.objects[s.rows[id].key] == s.objects[s.rows[id].key]
  }

  lemma StepEvolves(c: Config, s: State, step: Step)
    requires Sound(c, s) && Enabled(s, step)
    ensures Evolves(s, Apply(c, s, step))
  {
  }

  lemma StepRow(c: Config, s: State, step: Step, id: int)
    requires Sound(c, s) && Enabled(s, step) && id in Apply(c, s, step).rows
    ensures RowSound(c, Apply(c, s, step), Apply(c, s, step).rows[id])
  {
    StepEvolves(c, s, step);
    if id in s.rows {
      assert RowSound(c, s, s.rows[id]);
    }
  }

  lemma StepKeys(c: Config, s: State, step: Step)
    requires Sound(c, s) && Enabled(s, step)
    ensures
      var rows := Apply(c, s, step).rows;
      forall id, id' :: id in rows && id' in rows && rows[id].key == rows[id'].key ==> id == id'
  {
  }

  lemma StepRows(c: Config, s: State, step: Step)
    requires Sound(c, s) && Enabled(s, step)
    ensures RowsSound(c, Apply(c, s, step))
  {
    var s' := Apply(c, s, step);
    assert forall id, id' :: id in s'.rows && id' in s'.rows && s'.rows[id].key == s'.rows[id'].key ==> id == id' by {
      StepKeys(c, s, step);
    }
    hide Apply, RowSound;
    forall id | id in s'.rows ensures RowSound(c, s', s'.rows[id]) {
      StepRow(c, s, step, id);
    }
  }

  /** What a call tells a worker is true when it is made. */
  lemma WorkPcSound(c: Config, s: State, w: nat, ok: bool, cause: Bytes)
    requires Sound(c, s) && Enabled(s, Work(w, ok, cause))
    ensures WorkerSound(c, s, WorkPc(c, s, w, ok, cause))
  {
  }

  /** What a worker remembers stays true whatever happens. */
  lemma MemoryStaysTrue(c: Config, s: State, s': State, pc: WorkerPc)
    requires Evolves(s, s') && WorkerSound(c, s, pc)
    ensures WorkerSound(c, s', pc)
  {
  }

  lemma StepWorker(c: Config, s: State, step: Step, w: nat)
    requires Sound(c, s) && Enabled(s, step) && w < |Apply(c, s, step).workers|
    ensures WorkerSound(c, Apply(c, s, step), Apply(c, s, step).workers[w])
  {
    var pc := Apply(c, s, step).workers[w];
    assert WorkerSound(c, s, pc) by {
      if step.Work? && step.w == w {
        WorkPcSound(c, s, w, step.ok, step.cause);
      } else if w < |s.workers| {
        assert WorkerSound(c, s, s.workers[w]);
      }
    }
    StepEvolves(c, s, step);
    MemoryStaysTrue(c, s, Apply(c, s, step), pc);
  }

  lemma StepWorkers(c: Config, s: State, step: Step)
    requires Sound(c, s) && Enabled(s, step)
    ensures WorkersSound(c, Apply(c, s, step))
  {
    hide Apply, WorkerSound;
    forall w | 0 <= w < |Apply(c, s, step).workers|
      ensures WorkerSound(c, Apply(c, s, step), Apply(c, s, step).workers[w])
    {
      StepWorker(c, s, step, w);
    }
  }

  /** An upload that the step is not of. */
  lemma StepOtherCreate(c: Config, s: State, step: Step, i: nat)
    requires Sound(c, s) && Enabled(s, step) && i < |s.creates| && Apply(c, s, step).creates[i] == s.creates[i]
    ensures CreateSound(Apply(c, s, step), s.creates[i])
  {
    StepEvolves(c, s, step);
    assert CreateSound(s, s.creates[i]);
  }

  lemma StepOwnCreate(c: Config, s: State, step: Step, i: nat)
    requires Sound(c, s) && Enabled(s, step) && i < |Apply(c, s, step).creates|
    requires i < |s.creates| ==> Apply(c, s, step).creates[i] != s.creates[i]
    ensures CreateSound(Apply(c, s, step), Apply(c, s, step).creates[i])
  {
  }

  lemma StepCreate(c: Config, s: State, step: Step, i: nat)
    requires Sound(c, s) && Enabled(s, step) && i < |Apply(c, s, step).creates|
    ensures CreateSound(Apply(c, s, step), Apply(c, s, step).creates[i])
  {
    hide Apply, CreateSound;
    if i < |s.creates| && Apply(c, s, step).creates[i] == s.creates[i] {
      StepOtherCreate(c, s, step, i);
    } else {
      StepOwnCreate(c, s, step, i);
    }
  }

  ghost predicate UploadKeysDistinct(s: State) {
    forall i, j :: 0 <= i < j < |s.creates| && Uploading(s.creates[i]) && Uploading(s.creates[j]) ==>
      s.creates[i].key != s.creates[j].key
  }

  lemma StepUploadKeys(c: Config, s: State, step: Step)
    requires CreatesSound(s) && Enabled(s, step)
    ensures UploadKeysDistinct(Apply(c, s, step))
  {
  }

  lemma StepCreates(c: Config, s: State, step: Step)
    requires Sound(c, s) && Enabled(s, step)
    ensures CreatesSound(Apply(c, s, step))
  {
    forall i | 0 <= i < |Apply(c, s, step).creates|
      ensures CreateSound(Apply(c, s, step), Apply(c, s, step).creates[i])
    {
      StepCreate(c, s, step, i);
    }
    StepUploadKeys(c, s, step);
  }

  lemma StepObjects(c: Config, s: State, step: Step)
    requires Sound(c, s) && Enabled(s, step)
    ensures ObjectsAccounted(Apply(c, s, step))
  {
    var s' := Apply(c, s, step);
    StepEvolves(c, s, step);
    forall key | key in s'.objects
      ensures key in s'.used
      ensures Referenced(s', key) || InUpload(s', key) || key in s'.history.undeleted || key in s'.history.abandoned
    {
      if key !in s.objects {
        assert step.PutObject? && HasObject(s'.creates[step.i]) && s'.creates[step.i].key == key;
      } else if Referenced(s, key) {
        var id :| id in s.rows && s.rows[id].key == key;
        assert id in s'.rows && s'.rows[id].key == key;
      } else if InUpload(s, key) {
        var i :| 0 <= i < |s.creates| && HasObject(s.creates[i]) && s.creates[i].key == key;
        if step.InsertRow? && step.i == i && step.ok {
          assert step.id in s'.rows && s'.rows[step.id].key == key;
        } else if HasObject(s'.creates[i]) {
          assert s'.creates[i].key == key;
        }
      }
    }
  }

  lemma StepSound(c: Config, s: State, step: Step)
    requires Sound(c, s) && Enabled(s, step)
    ensures Sound(c, Apply(c, s, step))
  {
    StepRows(c, s, step);
    StepWorkers(c, s, step);
    StepCreates(c, s, step);
    StepObjects(c, s, step);
  }

  lemma {:induction false} SoundAlways(c: Config, steps: seq<Step>)
    requires Run(c, Initial(), steps)
    ensures Sound(c, After(c, Initial(), steps))
  {
    if steps != [] {
      var n := |steps| - 1;
      SoundAlways(c, steps[..n]);
      StepSound(c, After(c, Initial(), steps[..n]), steps[n]);
    }
  }
}
