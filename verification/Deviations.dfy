/** Concrete inputs on which the code does something else than one may expect. */
module Deviations {
  import opened Base
  import Claims
  import Documents
  import JobQueue
  import Listing
  import Migrations
  import Pipeline
  import Runner
  import Sessions

  // ----- A claim that is lost -----

  const ROW := Documents.Row(1, 0, "k", None, Documents.Pending, None, None)

  /** One document, one upload that is over, one worker; no crash and no Redis failure. */
  ghost predicate Stage(
    c: Pipeline.Config, steps: seq<Pipeline.Step>, row: Documents.Row, lists: JobQueue.Lists, pc: Pipeline.WorkerPc)
  {
    var s := Pipeline.After(c, Pipeline.Initial(), steps);
    && Pipeline.Run(c, Pipeline.Initial(), steps) && Claims.QuietRun(c, steps)
    && s.rows == map[1 := row] && s.objects == map["k" := []] && s.lists == lists && s.workers == [pc]
  }

  lemma Quietly(c: Pipeline.Config, steps: seq<Pipeline.Step>, step: Pipeline.Step) returns (longer: seq<Pipeline.Step>)
    requires Pipeline.Run(c, Pipeline.Initial(), steps) && Claims.QuietRun(c, steps)
    requires
      var s := Pipeline.After(c, Pipeline.Initial(), steps);
      Pipeline.Enabled(s, step) && !Claims.Disturbs(s, step)
    ensures longer == steps + [step]
    ensures Pipeline.Run(c, Pipeline.Initial(), longer) && Claims.QuietRun(c, longer)
    ensures
      var s := Pipeline.After(c, Pipeline.Initial(), steps);
      Pipeline.After(c, Pipeline.Initial(), longer) == Pipeline.Apply(c, s, step)
  {
    longer := steps + [step];
    Pipeline.RunExtends(c, Pipeline.Initial(), steps, step);
    Claims.QuietRunExtends(c, steps, step);
  }

  lemma Uploaded(c: Pipeline.Config) returns (steps: seq<Pipeline.Step>)
    ensures Stage(c, steps, ROW, JobQueue.Lists([JobQueue.Job(1, 1)], [], []), Pipeline.Idle)
  {
    steps := Quietly(c, [], Pipeline.BeginCreate(1, "k"));
    hide Pipeline.Run, Pipeline.After, Claims.QuietRun;
    steps := Quietly(c, steps, Pipeline.PutObject(0, [], true));
    steps := Quietly(c, steps, Pipeline.InsertRow(0, 1, true));
    steps := Quietly(c, steps, Pipeline.EnqueueJob(0, true));
    steps := Quietly(c, steps, Pipeline.Spawn);
  }

  /** The worker's next call. */
  lemma Calls(
    c: Pipeline.Config, steps: seq<Pipeline.Step>, row: Documents.Row, lists: JobQueue.Lists, pc: Pipeline.WorkerPc,
    ok: bool)
    returns (longer: seq<Pipeline.Step>)
    requires Stage(c, steps, row, lists, pc) && !pc.Stopped? && (pc.Idle? && ok ==> lists.main != [])
    requires ok || pc.Summed?
    ensures longer == steps + [Pipeline.Work(0, ok, [])]
    ensures
      var s := Pipeline.After(c, Pipeline.Initial(), steps);
      var s' := Pipeline.WorkStep(c, s, 0, ok, []);
      && Pipeline.After(c, Pipeline.Initial(), longer) == s' && 1 in s'.rows && |s'.workers| == 1
      && Stage(c, longer, s'.rows[1], s'.lists, s'.workers[0])
    ensures forall id :: Claims.ClaimLost(c, steps, id) ==> Claims.ClaimLost(c, longer, id)
  {
    longer := Quietly(c, steps, Pipeline.Work(0, ok, []));
    assert longer[..|steps|] == steps;
  }

  /** From a job in the main list to a worker that holds the claim and has read the object. */
  lemma Claimed(c: Pipeline.Config) returns (steps: seq<Pipeline.Step>)
    ensures Stage(c, steps, ROW.(status := Documents.Processing),
                  JobQueue.Lists([], [JobQueue.Job(1, 1)], []), Pipeline.Summed(JobQueue.Job(1, 1), c.sha([]), 0))
  {
    var job := JobQueue.Job(1, 1);
    var queued, held := JobQueue.Lists([job], [], []), JobQueue.Lists([], [job], []);
    var claimed := ROW.(status := Documents.Processing);
    steps := Uploaded(c);
    steps := Calls(c, steps, ROW, queued, Pipeline.Idle, true);
    assert Stage(c, steps, ROW, held, Pipeline.Consumed(job));
    steps := Calls(c, steps, ROW, held, Pipeline.Consumed(job), true);
    assert Stage(c, steps, ROW, held, Pipeline.LookedUp(job, "k", 0));
    steps := Calls(c, steps, ROW, held, Pipeline.LookedUp(job, "k", 0), true);
    assert Stage(c, steps, claimed, held, Pipeline.Holding(job, "k", 0));
    steps := Calls(c, steps, claimed, held, Pipeline.Holding(job, "k", 0), true);
  }

  /** MarkReady fails, and Retry takes the payload off the processing list. */
  lemma MarkFails(c: Pipeline.Config) returns (steps: seq<Pipeline.Step>)
    ensures Stage(c, steps, ROW.(status := Documents.Processing),
                  JobQueue.Lists([], [], []), Pipeline.Pushing(JobQueue.Job(1, 1)))
    ensures Claims.ClaimLost(c, steps, 1)
  {
    var job := JobQueue.Job(1, 1);
    var held, claimed := JobQueue.Lists([], [job], []), ROW.(status := Documents.Processing);
    var before := Claimed(c);
    steps := Calls(c, before, claimed, held, Pipeline.Summed(job, c.sha([]), 0), false);
    assert Claims.ClaimLost(c, steps, 1) by {
      assert steps[..|before|] == before;
      assert Claims.LosesClaim(Pipeline.After(c, Pipeline.Initial(), before), steps[|before|], 1);
    }
    assert Stage(c, steps, claimed, held, Pipeline.Retrying(job));
    steps := Calls(c, steps, claimed, held, Pipeline.Retrying(job), true);
  }

  /** The second attempt finds the row processing and does not get the claim. */
  lemma NotClaimed(c: Pipeline.Config, before: seq<Pipeline.Step>) returns (steps: seq<Pipeline.Step>)
    requires Stage(c, before, ROW.(status := Documents.Processing),
                   JobQueue.Lists([JobQueue.Job(1, 2)], [], []), Pipeline.Idle)
    ensures Stage(c, steps, ROW.(status := Documents.Processing),
                  JobQueue.Lists([], [JobQueue.Job(1, 2)], []), Pipeline.Acking(JobQueue.Job(1, 2)))
    ensures Claims.ClaimLost(c, before, 1) ==> Claims.ClaimLost(c, steps, 1)
  {
    var again, claimed := JobQueue.Job(1, 2), ROW.(status := Documents.Processing);
    var queued, held := JobQueue.Lists([again], [], []), JobQueue.Lists([], [again], []);
    steps := Calls(c, before, claimed, queued, Pipeline.Idle, true);
    assert Stage(c, steps, claimed, held, Pipeline.Consumed(again));
    steps := Calls(c, steps, claimed, held, Pipeline.Consumed(again), true);
    assert Stage(c, steps, claimed, held, Pipeline.LookedUp(again, "k", 0));
    steps := Calls(c, steps, claimed, held, Pipeline.LookedUp(again, "k", 0), true);
  }

  /** Below the last attempt the retried job is acknowledged: no list has a job, and the row is processing for good. */
  lemma LostClaimIsAcknowledged(c: Pipeline.Config) returns (steps: seq<Pipeline.Step>)
    requires c.maxAttempts > 1
    ensures Stage(c, steps, ROW.(status := Documents.Processing), JobQueue.Lists([], [], []), Pipeline.Idle)
    ensures Claims.ClaimLost(c, steps, 1)
  {
    var job, again := JobQueue.Job(1, 1), JobQueue.Job(1, 2);
    var none, claimed := JobQueue.Lists([], [], []), ROW.(status := Documents.Processing);
    steps := MarkFails(c);
    steps := Calls(c, steps, claimed, none, Pipeline.Pushing(job), true);
    assert Stage(c, steps, claimed, JobQueue.Lists([again], [], []), Pipeline.Idle);
    steps := NotClaimed(c, steps);
    steps := Calls(c, steps, claimed, JobQueue.Lists([], [again], []), Pipeline.Acking(again), true);
  }

  /** At the last attempt it is buried, but the row is processing for good all the same. */
  lemma LostClaimIsBuried(c: Pipeline.Config) returns (steps: seq<Pipeline.Step>)
    requires c.maxAttempts == 1
    ensures Stage(c, steps, ROW.(status := Documents.Processing),
                  JobQueue.Lists([], [], [JobQueue.Job(1, 1)]), Pipeline.Idle)
    ensures Claims.ClaimLost(c, steps, 1)
  {
    var none, claimed := JobQueue.Lists([], [], []), ROW.(status := Documents.Processing);
    steps := MarkFails(c);
    steps := Calls(c, steps, claimed, none, Pipeline.Pushing(JobQueue.Job(1, 1)), true);
  }

  // ----- Logging out with a rotated token -----

  const OLD := Sessions.NewSession("a", 1, [], 10)

  const NEW := Sessions.NewSession("b", 1, [], 10)

  /** One refresh at most, at time 0. */
  ghost predicate Point(
    steps: seq<Sessions.Step>, sessions: Sessions.Table, serial: nat, refreshes: seq<Sessions.RefreshPc>)
  {
    var s := Sessions.After(Sessions.Initial(), steps);
    && Sessions.Run(Sessions.Initial(), steps)
    && s.sessions == sessions && s.nextSerial == serial && s.refreshes == refreshes && s.now == 0 && "b" !in s.issued
  }

  /** Login and the first two calls of a refresh. */
  lemma Refreshing() returns (steps: seq<Sessions.Step>)
    ensures Sessions.Run(Sessions.Initial(), steps)
    ensures
      var s := Sessions.After(Sessions.Initial(), steps);
      && s.sessions == map["a" := Sessions.Session(0, 1, [], 10, None, None)]
      && s.nextSerial == 1 && s.now == 0 && s.refreshes == [Sessions.Prepared("a", NEW)]
  {
    var first := Sessions.Initial();
    var table := map["a" := Sessions.Session(0, 1, [], 10, None, None)];
    steps := [];
    Sessions.RunExtends(first, steps, Sessions.Login(OLD, true));
    steps := steps + [Sessions.Login(OLD, true)];
    assert Point(steps, table, 1, []);
    Sessions.RunExtends(first, steps, Sessions.BeginRefresh("a", []));
    steps := steps + [Sessions.BeginRefresh("a", [])];
    assert Point(steps, table, 1, [Sessions.Passed("a", 1)]);
    Sessions.RunExtends(first, steps, Sessions.Prepare(0, NEW, true));
    steps := steps + [Sessions.Prepare(0, NEW, true)];
  }

  /** Login, refresh, then logout with the first token: the second is still live. */
  lemma LogoutLeavesSuccessor() returns (steps: seq<Sessions.Step>)
    ensures Sessions.Run(Sessions.Initial(), steps) && |steps| > 0 && steps[|steps| - 1] == Sessions.Logout("a")
    ensures
      var s := Sessions.After(Sessions.Initial(), steps);
      && "a" in s.sessions && s.sessions["a"].replacedBy == Some("b")
      && Sessions.Rotatable(s.sessions, "b", s.now)
  {
    steps := Refreshing();
    Sessions.RunExtends(Sessions.Initial(), steps, Sessions.Rotate(0, true));
    hide Sessions.Run, Sessions.After;
    steps := steps + [Sessions.Rotate(0, true)];
    Sessions.RunExtends(Sessions.Initial(), steps, Sessions.Logout("a"));
    steps := steps + [Sessions.Logout("a")];
  }

  // ----- Rollback order -----

  /** A registry that validation accepts, with names out of order. */
  function Swapped(): seq<Migrations.Migration<int>> {
    [
      Migrations.Migration("02_b", (s: int) => s + 1, (s: int) => s - 1),
      Migrations.Migration("01_a", (s: int) => 2 * s, (s: int) => s / 2)
    ]
  }

  const AT_ONCE := Migrations.Attempt(true, true, 0)

  /** How an `up` starts. */
  lemma FirstTwo<S>(
    db: Migrations.Db<S>, registry: seq<Migrations.Migration<S>>, attempts: seq<Migrations.Attempt>)
    requires |attempts| == |registry| >= 2
    ensures
      var one := Migrations.UpOne(db, registry[0], attempts[0]);
      var two := Migrations.UpOne(one.db, registry[1], attempts[1]);
      && (one.ok && !two.ok ==> Migrations.UpFrom(db, registry, attempts, 0) == two)
      && (one.ok && two.ok && |registry| == 2 ==> Migrations.UpFrom(db, registry, attempts, 0) == two)
  {
    hide Migrations.UpOne;
    var one := Migrations.UpOne(db, registry[0], attempts[0]);
    if one.ok {
      assert Migrations.UpFrom(db, registry, attempts, 0) == Migrations.UpFrom(one.db, registry, attempts, 1);
      var two := Migrations.UpOne(one.db, registry[1], attempts[1]);
      if two.ok && |registry| == 2 {
        assert Migrations.UpFrom(two.db, registry, attempts, 2) == Migrations.Outcome(two.db, true);
      }
    }
  }

  lemma SwappedNames()
    ensures |Swapped()| == 2 && Swapped()[0].name == "02_b" && Swapped()[1].name == "01_a"
    ensures Swapped()[0].up(0) == 1 && Swapped()[1].up(1) == 2
    ensures "02_b" != "01_a" && Migrations.Less("01_a", "02_b") && !Migrations.Less("02_b", "01_a")
    ensures Migrations.Matches("02_b") && Migrations.Matches("01_a")
  {
    assert "02_b"[1] == '2' && "01_a"[1] == '1';
    assert "01_a"[1..] == "1_a" && "02_b"[1..] == "2_b";
    assert Migrations.Less("1_a", "2_b");
    assert Migrations.Less("01_a", "02_b");
    Migrations.LessIsTotal("01_a", "02_b");
    Migrations.WellFormedIff("02_b");
    Migrations.WellFormedIff("01_a");
  }

  /** Both migrations applied and recorded at the same time. */
  function Tied(): Migrations.Db<int> {
    Migrations.Db(2, map["02_b" := 0, "01_a" := 0], 0)
  }

  lemma UpTies()
    ensures |Swapped()| == 2
    ensures Migrations.UpFrom(Migrations.Db(0, map[], 0), Swapped(), [AT_ONCE, AT_ONCE], 0)
         == Migrations.Outcome(Tied(), true)
  {
    SwappedNames();
    hide Swapped;
    var registry := Swapped();
    var one := Migrations.Db(1, map["02_b" := 0], 0);
    FirstTwo(Migrations.Db(0, map[], 0), registry, [AT_ONCE, AT_ONCE]);
    assert Migrations.UpOne(Migrations.Db(0, map[], 0), registry[0], AT_ONCE) == Migrations.Outcome(one, true);
    assert Migrations.UpOne(one, registry[1], AT_ONCE) == Migrations.Outcome(Tied(), true);
  }

  lemma TiedIsPrefix()
    ensures Migrations.Prefix(Tied(), Swapped(), 2)
  {
    SwappedNames();
    hide Swapped;
    forall name ensures name in Tied().log <==> Migrations.Among(Swapped(), 2, name) {
      assert Swapped()[0].name == "02_b" && Swapped()[1].name == "01_a";
    }
  }

  /**
   * A registry with names out of order, which validation accepts and which is then applied
   * within one tick: `down 1` takes the migration that was applied first, not last.
   */
  lemma TieRollsBackFirst()
    ensures |Swapped()| == 2
    ensures Migrations.GoodUpTo([Some(Swapped()[0].name), Some(Swapped()[1].name)], 2)
    ensures
      var up := Migrations.UpFrom(Migrations.Db(0, map[], 0), Swapped(), [AT_ONCE, AT_ONCE], 0);
      && up.ok && Migrations.Prefix(up.db, Swapped(), 2)
      && Migrations.Recent(up.db.log, 1) == [Swapped()[0].name]
      && Migrations.Newest(up.db.log, up.db.log.Keys) != Migrations.Reversed(Swapped(), 2)
  {
    SwappedNames();
    UpTies();
    TiedIsPrefix();
    hide Swapped, Migrations.UpFrom, Migrations.Prefix, Migrations.Newest, Migrations.Less, Migrations.Matches;
    var log := Tied().log;
    Migrations.NewestIs(log, log.Keys, ["02_b", "01_a"]);
    assert ["02_b", "01_a"][..1] == ["02_b"];
    assert Migrations.Reversed(Swapped(), 2)[0] == "01_a";
  }

  // ----- Rollback of the seed -----

  const FAILS := Migrations.Attempt(true, false, 0)

  lemma StopsAtSeed()
    ensures
      var registry := Runner.Shipped();
      var db := Migrations.UpFrom(Migrations.Db(Runner.EMPTY, map[], 0), registry, [AT_ONCE, FAILS, FAILS], 0).db;
      |registry| == 3 && db == Migrations.Db(Runner.EMPTY.(auth := true), map[registry[0].name := 0], 0)
  {
    var registry := Runner.Shipped();
    Runner.ShippedIsAscending();
    Migrations.AscendingIsDistinct(registry);
    Runner.ShippedActions(Runner.EMPTY);
    hide Runner.Shipped, Migrations.Ascending;
    FirstTwo(Migrations.Db(Runner.EMPTY, map[], 0), registry, [AT_ONCE, FAILS, FAILS]);
    hide Migrations.UpFrom;
    var one := Migrations.Db(Runner.EMPTY.(auth := true), map[registry[0].name := 0], 0);
    var empty := Migrations.Db(Runner.EMPTY, map[], 0);
    assert Migrations.UpOne(empty, registry[0], AT_ONCE) == Migrations.Outcome(one, true);
    assert Migrations.UpOne(one, registry[1], FAILS) == Migrations.Outcome(one, false);
  }

  lemma OneRecord<S>(db: Migrations.Db<S>, registry: seq<Migrations.Migration<S>>)
    requires |registry| > 0 && db.log == map[registry[0].name := db.now]
    ensures Migrations.Prefix(db, registry, 1)
  {
    assert forall name :: Migrations.Among(registry, 1, name) <==> name == registry[0].name;
  }

  /** The shipped `up` fails at the seed, is repeated, and `down 2` returns to one record: the roles stay. */
  lemma SeedOutlivesRollback()
    ensures |Runner.Shipped()| == 3
    ensures
      var registry := Runner.Shipped();
      var empty := Migrations.Db(Runner.EMPTY, map[], 0);
      var db := Migrations.UpFrom(empty, registry, [AT_ONCE, FAILS, FAILS], 0).db;
      var up := Migrations.UpFrom(db, registry, [AT_ONCE, AT_ONCE, AT_ONCE], 0);
      var down := Migrations.Down(up.db, registry, 2, [AT_ONCE, AT_ONCE, AT_ONCE]);
      up.ok && down.ok && down.db.log == db.log && down.db.schema != db.schema
  {
    var registry, all := Runner.Shipped(), [AT_ONCE, AT_ONCE, AT_ONCE];
    StopsAtSeed();
    var db := Migrations.Db(Runner.EMPTY.(auth := true), map[registry[0].name := 0], 0);
    OneRecord(db, registry);
    assert Migrations.Stands(db, registry, Runner.Standing(), 1);
    assert db.schema.roles != Runner.SEED by {
      assert "user" in Runner.SEED;
    }
    hide Runner.Shipped, Migrations.Ascending, Migrations.UpFrom, Migrations.Down, Migrations.Prefix, Runner.Standing,
         Migrations.Stands;
    Runner.ThereAndBack(db, 1, all, all);
    Migrations.UpSucceeds(db, registry, all, 0);
    DownSucceedsAfterUp(db, all);
  }

  lemma DownSucceedsAfterUp(db: Migrations.Db<Runner.Schema>, all: seq<Migrations.Attempt>)
    requires |Runner.Shipped()| == 3 && |all| == 3
    requires forall j :: 0 <= j < |all| ==> all[j].lookup && all[j].transaction
    requires Migrations.Prefix(db, Runner.Shipped(), 1)
    ensures
      var up := Migrations.UpFrom(db, Runner.Shipped(), all, 0);
      Migrations.Down(up.db, Runner.Shipped(), 2, all).ok
  {
    var registry := Runner.Shipped();
    Runner.ShippedIsAscending();
    hide Runner.Shipped;
    Migrations.AscendingIsDistinct(registry);
    Migrations.UpSucceeds(db, registry, all, 0);
    Migrations.AnythingStands(db, registry, 1);
    var up := Migrations.UpFrom(db, registry, all, 0);
    var applied := Migrations.UpKeepsSchema(db, registry, all, 0, 1, Migrations.Anything());
    Migrations.RecentIsReversed(up.db, registry, 3, 2);
    Migrations.DownSucceeds(up.db, registry, Migrations.Reversed(registry, 3)[..2], all);
  }

  // ----- A page with a negative offset -----

  lemma NegativeOffset()
    ensures Listing.Offset(Listing.Normalize(21474838, 100)) == -2147483596
    ensures forall ids: seq<int> :: Listing.PageOf(ids, 21474838, 100) == None
  {
    forall ids: seq<int> ensures Listing.PageOf(ids, 21474838, 100) == None {
      Listing.OffsetExactIff(21474838, 100);
    }
  }
}
