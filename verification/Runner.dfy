/** The migration commands as loops over the registry and the database. */
module Runner {
  import opened Base
  import opened Migrations

  class Database<S> {
    var schema: S
    var log: map<string, int>
    var now: int

    constructor (schema: S)
      ensures Value() == Db(schema, map[], 0)
    {
      this.schema, log, now := schema, map[], 0;
    }

    function Value(): Db<S>
      reads this
    {
      Db(schema, log, now)
    }

    /** Apply what is not recorded yet, in registry order; stop at the first failure. */
    method MigrateUp(registry: seq<Migration<S>>, attempts: seq<Attempt>) returns (ok: bool)
      requires |attempts| == |registry|
      modifies this
      ensures Outcome(Value(), ok) == UpFrom(old(Value()), registry, attempts, 0)
    {
      for i := 0 to |registry|
        invariant UpFrom(Value(), registry, attempts, i) == UpFrom(old(Value()), registry, attempts, 0)
      {
        now := now + attempts[i].elapsed;
        if !attempts[i].lookup {
          return false;
        }
        if registry[i].name in log {
          continue;
        }
        if !attempts[i].transaction {
          return false;
        }
        schema, log := registry[i].up(schema), log[registry[i].name := now];
      }
      ok := true;
    }

    /** Select the newest records, then undo and delete them one by one; stop at the first failure. */
    method MigrateDown(registry: seq<Migration<S>>, steps: nat, query: bool, attempts: seq<Attempt>) returns (ok: bool)
      requires |attempts| >= steps
      modifies this
      ensures Outcome(Value(), ok) ==
        if query then Down(old(Value()), registry, steps, attempts) else Outcome(old(Value()), false)
    {
      hide Migrations.Recent, Find, DownNames, Migrations.Newest, Less;
      if !query {
        return false;
      }
      var names := Recent(log, steps);
      assert names[0..] == names && attempts[0..] == attempts;
      hide Migrations.Down;
      for i := 0 to |names|
        invariant
          DownNames(Value(), registry, names[i..], attempts[i..]) == Down(old(Value()), registry, steps, attempts)
      {
        DownNamesStart(Value(), registry, names, attempts, i);
        var found := Find(registry, names[i]);
        if found.None? {
          return false;
        }
        now := now + attempts[i].elapsed;
        if !attempts[i].transaction {
          return false;
        }
        var migration := registry[found.value];
        schema, log := migration.down(schema), log - {migration.name};
      }
      DownNamesStart(Value(), registry, names, attempts, |names|);
      ok := true;
    }

    /** The state of every registered migration, or an error if some record is not registered. */
    method MigrationStates(registry: seq<Migration<S>>, query: bool) returns (states: Option<seq<(string, bool)>>)
      requires Distinct(registry)
      ensures states.Some? <==> query && forall name :: name in log ==> Among(registry, |registry|, name)
      ensures states.Some? ==>
        |states.value| == |registry| &&
        forall i :: 0 <= i < |registry| ==> states.value[i] == (registry[i].name, registry[i].name in log)
    {
      if !query {
        return None;
      }
      var executed := log.Keys;
      var listed: seq<(string, bool)> := [];
      for i := 0 to |registry|
        invariant |listed| == i
        invariant forall j :: 0 <= j < i ==> listed[j] == (registry[j].name, registry[j].name in log)
        invariant forall name :: name in executed <==> name in log && !Among(registry, i, name)
      {
        var name := registry[i].name;
        ghost var before := executed;
        assert name in log ==> name in executed;
        listed := listed + [(name, name in executed)];
        executed := executed - {name};
        forall other ensures other in executed <==> other in log && !Among(registry, i + 1, other) {
          assert other in before <==> other in log && !Among(registry, i, other);
          if Among(registry, i + 1, other) && other != name {
            var j :| 0 <= j < i + 1 && registry[j].name == other;
            assert j < i;
          }
        }
      }
      if executed != {} {
        var unknown :| unknown in executed;
        assert unknown in log && !Among(registry, |registry|, unknown);
        return None;
      }
      forall name | name in log ensures Among(registry, |registry|, name) {
        assert name !in executed;
      }
      states := Some(listed);
    }
  }

  // ----- The shipped registry -----

  /** What the three shipped migrations create: the auth tables, the roles in them, the documents table. */
  datatype Schema = Schema(auth: bool, roles: set<string>, documents: bool)

  const EMPTY := Schema(false, {}, false)

  const SEED := {"admin", "user"}

  function Shipped(): seq<Migration<Schema>> {
    [
      Migration(
        "01_create_auth_schema",
        (s: Schema) => s.(auth := true),
        (s: Schema) => s.(auth := false, roles := {})),
      Migration(
        "02_seed_roles",
        (s: Schema) => s.(roles := s.roles + SEED),
        (s: Schema) => s),
      Migration(
        "03_create_documents",
        (s: Schema) => s.(documents := true),
        (s: Schema) => s.(documents := false))
    ]
  }

  lemma LessInSecond(a: string, b: string)
    requires |a| >= 2 && |b| >= 2 && a[0] == b[0] && a[1] < b[1]
    ensures Less(a, b)
  {
  }

  lemma ShippedIsAscending()
    ensures |Shipped()| == 3 && Ascending(Shipped())
  {
    LessInSecond(Shipped()[0].name, Shipped()[1].name);
    LessInSecond(Shipped()[0].name, Shipped()[2].name);
    LessInSecond(Shipped()[1].name, Shipped()[2].name);
  }

  /** What every migration command does first: the shipped registry passes. */
  method ValidateShipped() returns (failure: Option<NameError>)
    ensures failure == None
  {
    hide Matches;
    ShippedNamesMatch();
    var registry := Shipped();
    failure := ValidateMigrations([Some(registry[0].name), Some(registry[1].name), Some(registry[2].name)]);
  }

  lemma ShippedNamesMatch()
    ensures |Shipped()| == 3 && Distinct(Shipped())
    ensures Matches(Shipped()[0].name) && Matches(Shipped()[1].name) && Matches(Shipped()[2].name)
  {
    hide Matches;
    ShippedIsAscending();
    AuthNameMatches();
    RolesNameMatches();
    DocumentsNameMatches();
    ShippedNames();
    hide Shipped;
    AscendingIsDistinct(Shipped());
  }

  lemma ShippedNames()
    ensures |Shipped()| == 3 && Shipped()[0].name == "01_create_auth_schema"
    ensures Shipped()[1].name == "02_seed_roles" && Shipped()[2].name == "03_create_documents"
  {
  }

  lemma AuthNameMatches()
    ensures Matches("01_create_auth_schema")
  {
    BuiltNameMatches('0', '1', "create_auth_schema");
    assert "01_create_auth_schema" == ['0', '1', '_'] + "create_auth_schema";
  }

  lemma RolesNameMatches()
    ensures Matches("02_seed_roles")
  {
    BuiltNameMatches('0', '2', "seed_roles");
    assert "02_seed_roles" == ['0', '2', '_'] + "seed_roles";
  }

  lemma DocumentsNameMatches()
    ensures Matches("03_create_documents")
  {
    BuiltNameMatches('0', '3', "create_documents");
    assert "03_create_documents" == ['0', '3', '_'] + "create_documents";
  }

  lemma ShippedActions(s: Schema)
    ensures |Shipped()| == 3
    ensures Shipped()[0].up(s) == s.(auth := true) && Shipped()[0].down(s) == s.(auth := false, roles := {})
    ensures Shipped()[1].up(s) == s.(roles := s.roles + SEED) && Shipped()[1].down(s) == s
    ensures Shipped()[2].up(s) == s.(documents := true) && Shipped()[2].down(s) == s.(documents := false)
  {
  }

  /** The schemas that commands lead to from the empty one: the roles outlive the seed's record, not their table. */
  function Standing(): (Schema, nat) -> bool {
    (s: Schema, k: nat) =>
      && (s.auth <==> k >= 1)
      && (s.documents <==> k >= 3)
      && (s.roles == SEED || (s.roles == {} && k <= 1))
      && (k == 0 ==> s.roles == {})
  }

  lemma ShippedPreserves()
    ensures Preserves(Shipped(), Standing())
  {
    hide Shipped;
    forall s, k: nat | k < |Shipped()| && Standing()(s, k) ensures Standing()(Shipped()[k].up(s), k + 1) {
      ShippedActions(s);
      assert {} + SEED == SEED + SEED == SEED;
    }
    forall s, k: nat | 0 < k <= |Shipped()| && Standing()(s, k) ensures Standing()(Shipped()[k - 1].down(s), k - 1) {
      ShippedActions(s);
    }
  }

  /** Up to the end and down to k again. */
  function There(k: nat, s: Schema): Schema
    requires k <= |Shipped()|
  {
    Undone(Shipped(), Applied(Shipped(), s, k, |Shipped()|), |Shipped()|, |Shipped()| - k)
  }

  lemma ThereAndBackIff(k: nat, s: Schema)
    requires k <= |Shipped()| == 3 && Standing()(s, k)
    ensures There(k, s) == s <==> k != 1 || s.roles == SEED
  {
    hide Shipped;
    var registry := Shipped();
    var one := s.(auth := true);
    var two := Schema(true, SEED, s.documents);
    var three := Schema(true, SEED, true);
    ShippedActions(s);
    ShippedActions(one);
    ShippedActions(two);
    ShippedActions(three);
    ShippedActions(three.(documents := false));
    assert {} + SEED == SEED + SEED == SEED && "user" in SEED;
    assert Applied(registry, two, 2, 3) == Applied(registry, three, 3, 3) == three;
    assert Undone(registry, three, 3, 1) == three.(documents := false);
    if k <= 1 {
      assert Applied(registry, one, 1, 3) == Applied(registry, two, 2, 3);
      assert k == 0 ==> Applied(registry, s, 0, 3) == Applied(registry, one, 1, 3);
      assert Undone(registry, three, 3, 2) == Undone(registry, three.(documents := false), 2, 1)
          == Undone(registry, three.(documents := false), 1, 0);
      assert Undone(registry, three, 3, 3) == Undone(registry, three.(documents := false), 2, 2)
          == Undone(registry, three.(documents := false), 1, 1) == EMPTY;
    }
  }

  /**
   * The seed migration's Down keeps the roles. So for the shipped registry, from whatever any
   * commands leave behind, a successful `up` and a successful `down` to the same record count
   * restore the changelog, and the schema exactly unless just the first migration was
   * recorded and the roles were not there.
   */
  lemma ShippedRoundTripIff(now: int, commands: seq<Command>, ups: seq<Attempt>, downs: seq<Attempt>)
    requires forall i :: 0 <= i < |commands| ==> Fits(Shipped(), commands[i])
    requires |ups| == |downs| == |Shipped()|
    ensures
      var db := ExecuteAll(Db(EMPTY, map[], now), Shipped(), commands);
      var records := |db.log|;
      && records <= |Shipped()|
      && var up := UpFrom(db, Shipped(), ups, 0);
         var down := Down(up.db, Shipped(), |Shipped()| - records, downs);
         up.ok && down.ok ==>
           down.db.log == db.log && (down.db.schema == db.schema <==> records != 1 || db.schema.roles == SEED)
  {
    hide Shipped, Ascending, UpFrom, Migrations.Down;
    var empty := Db(EMPTY, map[], now);
    ShippedIsAscending();
    AscendingIsDistinct(Shipped());
    ShippedPreserves();
    assert Stands(empty, Shipped(), Standing(), 0);
    var k := CommandsKeepSchema(empty, Shipped(), commands, 0, Standing());
    var db := ExecuteAll(empty, Shipped(), commands);
    hide Prefix, Standing, ExecuteAll, Distinct;
    PrefixSize(db, Shipped(), k);
    ThereAndBack(db, k, ups, downs);
  }

  lemma ThereAndBack(db: Db<Schema>, k: nat, ups: seq<Attempt>, downs: seq<Attempt>)
    requires Stands(db, Shipped(), Standing(), k) && |ups| == |downs| == |Shipped()|
    ensures k <= |Shipped()|
    ensures
      var up := UpFrom(db, Shipped(), ups, 0);
      var down := Down(up.db, Shipped(), |Shipped()| - k, downs);
      up.ok && down.ok ==>
        down.db.log == db.log && (down.db.schema == db.schema <==> k != 1 || db.schema.roles == SEED)
  {
    hide Shipped, Ascending, UpFrom, Migrations.Down, Standing, Applied, Undone;
    ShippedIsAscending();
    assert Prefix(db, Shipped(), k) && k <= |Shipped()|;
    hide Prefix;
    ThereAndBackIff(k, db.schema);
    RoundTrip(db, Shipped(), ups, downs, k);
  }
}
