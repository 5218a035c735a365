/**
 * The three stores as objects, next to the protocol state that they are the shared part
 * of. Code that runs here makes one call at a time; before each call the environment may
 * take any steps of its own.
 */
module Runtime {
  import opened Base
  import opened Documents
  import opened JobQueue
  import opened Pipeline
  import opened Storage
  import Integrity
  import Keys

  /** Whose code is running: its own steps are not the environment's to take. */
  datatype Actor = Worker(w: nat) | Starting(key: Key) | Uploader(i: nat) | Caller

  predicate Foreign(me: Actor, step: Step) {
    match me
    case Worker(w) => !(step.Work? && step.w == w) && !(step.Crash? && step.w == w)
    case Starting(key) => !(step.BeginCreate? && step.key == key)
    case Caller => true
    case Uploader(i) =>
      match step
      case PutObject(j, _, _) => j != i
      case InsertRow(j, _, _) => j != i
      case Compensate(j, _) => j != i
      case EnqueueJob(j, _) => j != i
      case CrashCreate(j) => j != i
      case _ => true
  }

  /** The object store takes no object under a key that it does not accept. */
  predicate Accepted(s: State, step: Step) {
    step.PutObject? && step.ok && step.i < |s.creates| && s.creates[step.i].Generated? ==>
      Keys.ValidKey(s.creates[step.i].key)
  }

  /** One call: what the environment does first, and whether the call goes through. */
  datatype Call = Call(env: seq<Step>, ok: bool)

  class System {
    const config: Config
    const repository: DocumentRepository
    const storage: ObjectStorage
    const queue: RedisQueue
    var state: State
    ghost var trace: seq<Step>

    constructor (config: Config)
      ensures Valid() && fresh(Stores()) && state == Initial() && this.config == config
    {
      this.config := config;
      repository := new DocumentRepository();
      storage := new ObjectStorage();
      queue := new RedisQueue(config.maxAttempts);
      state, trace := Initial(), [];
    }

    function Stores(): set<object> {
      {repository, storage, queue}
    }

    /** The protocol state is one that a run from the empty system reaches. */
    ghost predicate Reached()
      reads this
    {
      Run(config, Initial(), trace) && state == After(config, Initial(), trace)
    }

    predicate Matches(s: State)
      reads repository, storage, queue
    {
      repository.rows == s.rows && storage.objects == s.objects && queue.lists == s.lists
    }

    ghost predicate Valid()
      reads this, repository, storage, queue
    {
      Reached() && Matches(state) && storage.KeysAccepted() && queue.maxAttempts == config.maxAttempts
    }

    /** The call just made on a store was `step` of the protocol. */
    method Commit(step: Step)
      requires Reached() && Enabled(state, step)
      requires Matches(Apply(config, state, step)) && storage.KeysAccepted() && queue.maxAttempts == config.maxAttempts
      modifies this
      ensures Valid() && state == Apply(config, old(state), step) && trace == old(trace) + [step]
    {
      RunExtends(config, Initial(), trace, step);
      state, trace := Apply(config, state, step), trace + [step];
    }

    /** The environment takes the steps of `env` that it can and the store accepts, except those of `me`. */
    method Interfere(me: Actor, env: seq<Step>)
      requires Valid()
      modifies this, Stores()
      ensures Valid() && old(trace) <= trace
      ensures Undisturbed(me, old(state), state)
      ensures env == [] ==> state == old(state) && trace == old(trace)
    {
      var i := 0;
      while i < |env|
        invariant 0 <= i <= |env|
        invariant Valid() && old(trace) <= trace
        invariant Undisturbed(me, old(state), state)
        invariant i == 0 ==> state == old(state) && trace == old(trace)
      {
        if Enabled(state, env[i]) && Foreign(me, env[i]) && Accepted(state, env[i]) {
          Integrity.SoundAlways(config, trace);
          ForeignUndisturbed(config, state, env[i], me);
          UndisturbedTransitive(me, old(state), state, Apply(config, state, env[i]));
          var next := Apply(config, state, env[i]);
          repository.rows, storage.objects, queue.lists := next.rows, next.objects, next.lists;
          Commit(env[i]);
        }
        i := i + 1;
      }
    }
  }

  /** What `me` still knows of itself after steps of others. */
  predicate Undisturbed(me: Actor, s: State, s': State) {
    && |s.workers| <= |s'.workers|
    && |s.creates| <= |s'.creates|
    && (me.Worker? && me.w < |s.workers| ==> s'.workers[me.w] == s.workers[me.w])
    && (me.Starting? && me.key !in s.used ==> me.key !in s'.used)
    && (me.Uploader? && me.i < |s.creates| ==>
          && s'.creates[me.i] == s.creates[me.i]
          && (Integrity.HasObject(s.creates[me.i]) && s.creates[me.i].key in s.objects ==>
                s.creates[me.i].key in s'.objects &&
                s'.objects[s.creates[me.i].key] == s.objects[s.creates[me.i].key]))
  }

  lemma ForeignUndisturbed(c: Config, s: State, step: Step, me: Actor)
    requires Integrity.Sound(c, s) && Enabled(s, step) && Foreign(me, step)
    ensures Undisturbed(me, s, Apply(c, s, step))
  {
  }

  lemma UndisturbedTransitive(me: Actor, s: State, s': State, s'': State)
    requires Undisturbed(me, s, s') && Undisturbed(me, s', s'')
    ensures Undisturbed(me, s, s'')
  {
  }
}
