/** The migration runner: a persistent changelog, loops that may fail partway, and rollback order. */
module Migrations {
  import opened Base

  // ----- Names and their order -----

  predicate Less(a: string, b: string) {
    if b == "" then false
    else if a == "" then true
    else a[0] < b[0] || (a[0] == b[0] && Less(a[1..], b[1..]))
  }

  lemma {:induction false} LessIsTotal(a: string, b: string)
    ensures a == b || Less(a, b) || Less(b, a)
    ensures !(Less(a, b) && Less(b, a))
    ensures !Less(a, a)
  {
    if a != "" && b != "" {
      LessIsTotal(a[1..], b[1..]);
      assert a == [a[0]] + a[1..] && b == [b[0]] + b[1..];
    } else if a != "" {
      LessIsTotal(a[1..], a[1..]);
    }
  }

  /** The first difference decides; a proper prefix comes first. */
  lemma {:induction false} LessIff(a: string, b: string)
    ensures Less(a, b) <==> exists i :: FirstDifference(a, b, i) && i < |b| && (i < |a| ==> a[i] < b[i])
  {
    if a != "" && b != "" {
      LessIff(a[1..], b[1..]);
      if Less(a, b) {
        if a[0] < b[0] {
          assert FirstDifference(a, b, 0);
        } else {
          var i :| FirstDifference(a[1..], b[1..], i) && i < |b[1..]| && (i < |a[1..]| ==> a[1..][i] < b[1..][i]);
          assert a[..i + 1] == [a[0]] + a[1..][..i] && b[..i + 1] == [b[0]] + b[1..][..i];
          assert FirstDifference(a, b, i + 1);
        }
      }
      if i :| FirstDifference(a, b, i) && i < |b| && (i < |a| ==> a[i] < b[i]) {
        if i > 0 {
          assert a[..i][0] == b[..i][0];
          assert a[1..][..i - 1] == a[..i][1..] && b[1..][..i - 1] == b[..i][1..];
          assert FirstDifference(a[1..], b[1..], i - 1);
        }
      }
    } else if b != "" {
      assert FirstDifference(a, b, 0);
    }
  }

  /** Both agree up to position i, and there one ends or they differ. */
  predicate FirstDifference(a: string, b: string, i: int) {
    0 <= i <= |a| && i <= |b| && a[..i] == b[..i] && (i < |a| && i < |b| ==> a[i] != b[i])
  }

  lemma {:induction false} LessTransitive(a: string, b: string, c: string)
    requires Less(a, b) && Less(b, c)
    ensures Less(a, c)
  {
    if a != "" && a[0] == b[0] && b[0] == c[0] {
      LessTransitive(a[1..], b[1..], c[1..]);
    }
  }

  predicate IsDigit(ch: char) {
    '0' <= ch <= '9'
  }

  predicate IsNameChar(ch: char) {
    IsDigit(ch) || 'a' <= ch <= 'z' || ch == '_'
  }

  /** Two digits, an underscore, and one or more lower-case letters, digits or underscores. */
  predicate WellFormed(name: string) {
    |name| >= 4 && IsDigit(name[0]) && IsDigit(name[1]) && name[2] == '_'
    && forall i :: 3 <= i < |name| ==> IsNameChar(name[i])
  }

  /** What the pattern `^[0-9]{2}_[a-z0-9_]+$` matches. */
  ghost predicate Matches(name: string) {
    exists d: char, d': char, rest: string ::
      && name == [d, d', '_'] + rest && '0' <= d <= '9' && '0' <= d' <= '9' && rest != ""
      && forall ch :: ch in rest ==> 'a' <= ch <= 'z' || '0' <= ch <= '9' || ch == '_'
  }

  lemma BuiltNameMatches(d: char, d': char, rest: string)
    requires '0' <= d <= '9' && '0' <= d' <= '9' && rest != ""
    requires forall ch :: ch in rest ==> 'a' <= ch <= 'z' || '0' <= ch <= '9' || ch == '_'
    ensures Matches([d, d', '_'] + rest)
  {
  }

  lemma WellFormedIff(name: string)
    ensures WellFormed(name) <==> Matches(name)
  {
    if Matches(name) {
      var d, d', rest :|
        && name == [d, d', '_'] + rest && '0' <= d <= '9' && '0' <= d' <= '9' && rest != ""
        && forall ch :: ch in rest ==> 'a' <= ch <= 'z' || '0' <= ch <= '9' || ch == '_';
      forall i | 3 <= i < |name| ensures IsNameChar(name[i]) {
        assert name[i] == rest[i - 3] && rest[i - 3] in rest;
      }
    }
    if WellFormed(name) {
      var rest := name[3..];
      forall ch | ch in rest ensures 'a' <= ch <= 'z' || '0' <= ch <= '9' || ch == '_' {
        var i :| 0 <= i < |rest| && rest[i] == ch;
        assert IsNameChar(name[i + 3]);
      }
      assert name == [name[0], name[1], '_'] + rest;
      BuiltNameMatches(name[0], name[1], rest);
    }
  }

  /** A name that is too short, lacks a digit or the separator, or has a foreign character does not match. */
  lemma MismatchIff(name: string)
    ensures !Matches(name) <==>
      || |name| < 4 || !('0' <= name[0] <= '9') || !('0' <= name[1] <= '9') || name[2] != '_'
      || exists i :: 3 <= i < |name| && !('a' <= name[i] <= 'z') && !('0' <= name[i] <= '9') && name[i] != '_'
  {
    WellFormedIff(name);
  }

  datatype NameError = MissingMigration(at: nat) | MalformedName(at: nat) | DuplicateName(at: nat)

  ghost predicate GoodUpTo(names: seq<Option<string>>, n: nat)
    requires n <= |names|
  {
    && (forall i :: 0 <= i < n ==> names[i].Some? && Matches(names[i].value))
    && (forall i, j :: 0 <= i < j < n ==> names[i] != names[j])
  }

  /** Accepts exactly the registries of well-formed, distinct names; else it reports the first offender. */
  method ValidateMigrations(names: seq<Option<string>>) returns (failure: Option<NameError>)
    ensures failure.None? <==> GoodUpTo(names, |names|)
    ensures failure.Some? ==>
      var at := failure.value.at;
      && at < |names| && GoodUpTo(names, at)
      && match failure.value {
           case MissingMigration(_) => names[at].None?
           case MalformedName(_) => names[at].Some? && !Matches(names[at].value)
           case DuplicateName(_) => exists i :: 0 <= i < at && names[i] == names[at]
         }
  {
    var seen: set<string> := {};
    for at := 0 to |names|
      invariant GoodUpTo(names, at)
      invariant seen == set i | 0 <= i < at :: names[i].value
    {
      if names[at].None? {
        return Some(MissingMigration(at));
      }
      var name := names[at].value;
      WellFormedIff(name);
      if !WellFormed(name) {
        return Some(MalformedName(at));
      }
      if name in seen {
        ghost var i :| 0 <= i < at && names[i].value == name;
        assert names[i] == names[at];
        return Some(DuplicateName(at));
      }
      assert forall i :: 0 <= i < at ==> names[i].value in seen;
      seen := seen + {name};
    }
    failure := None;
  }

  // ----- Runs, as functions -----

  datatype Migration<!S> = Migration(name: string, up: S -> S, down: S -> S)

  datatype Db<S> = Db(schema: S, log: map<string, int>, now: int)

  /** What happens around one migration: the changelog query, the transaction, and the time that passes before it. */
  datatype Attempt = Attempt(lookup: bool, transaction: bool, elapsed: nat)

  datatype Outcome<S> = Outcome(db: Db<S>, ok: bool)

  /** Apply and record in one transaction; a name already recorded is skipped. */
  function UpOne<S>(db: Db<S>, migration: Migration<S>, attempt: Attempt): Outcome<S> {
    var later := db.(now := db.now + attempt.elapsed);
    if !attempt.lookup then Outcome(later, false)
    else if migration.name in db.log then Outcome(later, true)
    else if !attempt.transaction then Outcome(later, false)
    else Outcome(Db(migration.up(db.schema), db.log[migration.name := later.now], later.now), true)
  }

  function UpFrom<S>(db: Db<S>, registry: seq<Migration<S>>, attempts: seq<Attempt>, i: nat): Outcome<S>
    requires |attempts| == |registry| && i <= |registry|
    decreases |registry| - i
  {
    if i == |registry| then Outcome(db, true)
    else
      var one := UpOne(db, registry[i], attempts[i]);
      if one.ok then UpFrom(one.db, registry, attempts, i + 1) else one
  }

  /** `down` knows migrations by name. */
  function Find<S>(registry: seq<Migration<S>>, name: string): (i: Option<nat>)
    ensures i.Some? ==> i.value < |registry| && registry[i.value].name == name
    ensures i.None? ==> forall k :: 0 <= k < |registry| ==> registry[k].name != name
  {
    if registry == [] then None
    else
      var n := |registry| - 1;
      if registry[n].name == name then Some(n) else Find(registry[..n], name)
  }

  function DownOne<S>(db: Db<S>, migration: Migration<S>, attempt: Attempt): Outcome<S> {
    var later := db.(now := db.now + attempt.elapsed);
    if !attempt.transaction then Outcome(later, false)
    else Outcome(Db(migration.down(db.schema), db.log - {migration.name}, later.now), true)
  }

  function DownNames<S>(db: Db<S>, registry: seq<Migration<S>>, names: seq<string>, attempts: seq<Attempt>): Outcome<S>
    requires |attempts| >= |names|
    decreases names
  {
    if names == [] then Outcome(db, true)
    else
      var found := Find(registry, names[0]);
      if found.None? then Outcome(db, false)
      else
        var one := DownOne(db, registry[found.value], attempts[0]);
        if one.ok then DownNames(one.db, registry, names[1..], attempts[1..]) else one
  }

  // ----- ORDER BY executed_at DESC, migration_name DESC LIMIT -----

  predicate ComesFirst(log: map<string, int>, a: string, b: string)
    requires a in log && b in log
  {
    log[a] > log[b] || (log[a] == log[b] && Less(b, a))
  }

  predicate IsFirst(log: map<string, int>, names: set<string>, name: string)
    requires names <= log.Keys
  {
    name in names && forall other :: other in names ==> other == name || ComesFirst(log, name, other)
  }

  lemma ComesFirstTransitive(log: map<string, int>, a: string, b: string, d: string)
    requires a in log && b in log && d in log && ComesFirst(log, a, b) && ComesFirst(log, b, d)
    ensures ComesFirst(log, a, d)
  {
    if log[a] == log[d] {
      LessTransitive(d, b, a);
    }
  }

  lemma FirstExists(log: map<string, int>, names: set<string>) returns (first: string)
    requires names <= log.Keys && names != {}
    ensures IsFirst(log, names, first)
  {
    var some :| some in names;
    var rest := names - {some};
    first := some;
    if rest != {} {
      var second := FirstExists(log, rest);
      LessIsTotal(some, second);
      if ComesFirst(log, second, some) {
        first := second;
      }
      forall other | other in names && other != first ensures ComesFirst(log, first, other) {
        assert other == some || other in rest;
        if first == some && other != second {
          ComesFirstTransitive(log, some, second, other);
        }
      }
    } else {
      assert names == {some};
    }
  }

  lemma FirstIsUnique(log: map<string, int>, names: set<string>, a: string, b: string)
    requires names <= log.Keys && IsFirst(log, names, a) && IsFirst(log, names, b)
    ensures a == b
  {
    LessIsTotal(a, b);
  }

  function Newest(log: map<string, int>, names: set<string>): (r: seq<string>)
    requires names <= log.Keys
    ensures |r| == |names| && forall i :: 0 <= i < |r| ==> r[i] in names
  {
    if names == {} then []
    else
      assert exists n :: IsFirst(log, names, n) by {
        var first := FirstExists(log, names);
      }
      assert forall a, b :: IsFirst(log, names, a) && IsFirst(log, names, b) ==> a == b by {
        forall a, b | IsFirst(log, names, a) && IsFirst(log, names, b) ensures a == b {
          FirstIsUnique(log, names, a, b);
        }
      }
      var first :| first in names && IsFirst(log, names, first);
      [first] + Newest(log, names - {first})
  }

  function Recent(log: map<string, int>, steps: nat): (r: seq<string>)
    ensures |r| <= steps
  {
    var names := Newest(log, log.Keys);
    if steps < |names| then names[..steps] else names
  }

  function Down<S>(db: Db<S>, registry: seq<Migration<S>>, steps: nat, attempts: seq<Attempt>): Outcome<S>
    requires |attempts| >= steps
  {
    DownNames(db, registry, Recent(db.log, steps), attempts)
  }

  // ----- The prefix property -----

  predicate Ascending<S>(registry: seq<Migration<S>>) {
    forall i, j :: 0 <= i < j < |registry| ==> Less(registry[i].name, registry[j].name)
  }

  predicate Among<S>(registry: seq<Migration<S>>, k: nat, name: string)
    requires k <= |registry|
  {
    exists i :: 0 <= i < k && registry[i].name == name
  }

  /** Exactly the first k migrations are recorded, at times in their order and not in the future. */
  ghost predicate Prefix<S>(db: Db<S>, registry: seq<Migration<S>>, k: nat) {
    && k <= |registry|
    && (forall name :: name in db.log <==> Among(registry, k, name))
    && (forall i :: 0 <= i < k ==> registry[i].name in db.log && db.log[registry[i].name] <= db.now)
    && (forall i, j :: 0 <= i < j < k ==> db.log[registry[i].name] <= db.log[registry[j].name])
  }

  predicate Distinct<S>(registry: seq<Migration<S>>) {
    forall i, j :: 0 <= i < j < |registry| ==> registry[i].name != registry[j].name
  }

  lemma AscendingIsDistinct<S>(registry: seq<Migration<S>>)
    requires Ascending(registry)
    ensures Distinct(registry)
  {
    forall i, j | 0 <= i < j < |registry| ensures registry[i].name != registry[j].name {
      LessIsTotal(registry[i].name, registry[j].name);
    }
  }

  lemma RecordedIff<S>(db: Db<S>, registry: seq<Migration<S>>, k: nat, i: nat)
    requires Distinct(registry) && Prefix(db, registry, k) && i < |registry|
    ensures registry[i].name in db.log <==> i < k
  {
  }

  lemma WaitKeepsPrefix<S>(db: Db<S>, registry: seq<Migration<S>>, k: nat, now: int)
    requires Prefix(db, registry, k) && db.now <= now
    ensures Prefix(db.(now := now), registry, k)
  {
  }

  lemma RecordNext<S>(db: Db<S>, registry: seq<Migration<S>>, k: nat, schema: S, now: int)
    requires Distinct(registry) && Prefix(db, registry, k) && k < |registry| && db.now <= now
    ensures Prefix(Db(schema, db.log[registry[k].name := now], now), registry, k + 1)
  {
  }

  lemma UnrecordLast<S>(db: Db<S>, registry: seq<Migration<S>>, k: nat, schema: S, now: int)
    requires Distinct(registry) && Prefix(db, registry, k + 1) && db.now <= now
    ensures Prefix(Db(schema, db.log - {registry[k].name}, now), registry, k)
  {
  }

  /** There are as many records as migrations applied. */
  lemma {:induction false} PrefixSize<S>(db: Db<S>, registry: seq<Migration<S>>, k: nat)
    requires Distinct(registry) && Prefix(db, registry, k)
    ensures |db.log| == k
    decreases k
  {
    if k == 0 {
      assert db.log.Keys == {};
    } else {
      var name := registry[k - 1].name;
      var before := Db(db.schema, db.log - {name}, db.now);
      assert name in db.log;
      UnrecordLast(db, registry, k - 1, db.schema, db.now);
      hide Prefix, Distinct;
      PrefixSize(before, registry, k - 1);
      assert before.log.Keys == db.log.Keys - {name};
    }
  }

  /** Every record of db is one of db'. */
  predicate Keeps<S>(db: Db<S>, db': Db<S>) {
    forall name :: name in db.log ==> name in db'.log && db'.log[name] == db.log[name]
  }

  /** Names of the first k migrations, last first. */
  function Reversed<S>(registry: seq<Migration<S>>, k: nat): (r: seq<string>)
    requires k <= |registry|
    ensures |r| == k && forall i :: 0 <= i < k ==> r[i] == registry[k - 1 - i].name
  {
    seq(k, i requires 0 <= i < k => registry[k - 1 - i].name)
  }

  /** ORDER BY gives the one listing of the names in which each comes before all later ones. */
  lemma {:induction false} NewestIs(log: map<string, int>, names: set<string>, listing: seq<string>)
    requires names <= log.Keys && forall name :: name in names <==> name in listing
    requires forall i, j :: 0 <= i < j < |listing| ==>
      listing[i] != listing[j] && ComesFirst(log, listing[i], listing[j])
    ensures Newest(log, names) == listing
    decreases listing
  {
    if listing == [] {
      assert names == {};
    } else {
      var first, rest := listing[0], names - {listing[0]};
      assert first in names;
      assert IsFirst(log, names, first);
      forall other | IsFirst(log, names, other) ensures other == first {
        FirstIsUnique(log, names, other, first);
      }
      forall name ensures name in rest <==> name in listing[1..] {
      }
      NewestIs(log, rest, listing[1..]);
    }
  }

  lemma {:induction false} NewestIsSorted(log: map<string, int>, names: set<string>, i: nat, j: nat)
    requires names <= log.Keys && i < j < |Newest(log, names)|
    ensures
      var r := Newest(log, names);
      r[i] != r[j] && ComesFirst(log, r[i], r[j])
  {
    var r := Newest(log, names);
    if i > 0 {
      assert r[1..] == Newest(log, names - {r[0]});
      NewestIsSorted(log, names - {r[0]}, i - 1, j - 1);
    } else {
      assert r[j] == Newest(log, names - {r[0]})[j - 1];
    }
  }

  /** Migrations recorded at the same time have ascending names. */
  predicate TiesAscend<S>(db: Db<S>, registry: seq<Migration<S>>, k: nat)
    requires k <= |registry| && forall i :: 0 <= i < k ==> registry[i].name in db.log
  {
    forall i, j :: 0 <= i < j < k && db.log[registry[i].name] == db.log[registry[j].name] ==>
      Less(registry[i].name, registry[j].name)
  }

  lemma TiesGiveReverse<S>(db: Db<S>, registry: seq<Migration<S>>, k: nat)
    requires Distinct(registry) && Prefix(db, registry, k) && TiesAscend(db, registry, k)
    ensures Newest(db.log, db.log.Keys) == Reversed(registry, k)
  {
    var listing := Reversed(registry, k);
    forall name ensures name in db.log.Keys <==> name in listing {
      if name in db.log {
        var i :| 0 <= i < k && registry[i].name == name;
        assert listing[k - 1 - i] == name;
      }
    }
    forall i, j | 0 <= i < j < |listing|
      ensures listing[i] != listing[j] && ComesFirst(db.log, listing[i], listing[j])
    {
      assert registry[k - 1 - j].name != registry[k - 1 - i].name;
    }
    NewestIs(db.log, db.log.Keys, listing);
  }

  lemma ReverseGivesTies<S>(db: Db<S>, registry: seq<Migration<S>>, k: nat)
    requires Prefix(db, registry, k) && Newest(db.log, db.log.Keys) == Reversed(registry, k)
    ensures TiesAscend(db, registry, k)
  {
    hide Newest, Less, Reversed;
    var listing := Reversed(registry, k);
    forall i, j | 0 <= i < j < k && db.log[registry[i].name] == db.log[registry[j].name]
      ensures Less(registry[i].name, registry[j].name)
    {
      NewestIsSorted(db.log, db.log.Keys, k - 1 - j, k - 1 - i);
      assert listing[k - 1 - j] == registry[j].name && listing[k - 1 - i] == registry[i].name;
    }
  }

  /**
   * For any registry that validation accepts, the ORDER BY is reverse application order
   * exactly when no two migrations that were recorded at the same time are out of name order.
   */
  lemma RollbackOrderIff<S>(db: Db<S>, registry: seq<Migration<S>>, k: nat)
    requires Distinct(registry) && Prefix(db, registry, k)
    ensures Newest(db.log, db.log.Keys) == Reversed(registry, k) <==> TiesAscend(db, registry, k)
  {
    if TiesAscend(db, registry, k) {
      TiesGiveReverse(db, registry, k);
    }
    if Newest(db.log, db.log.Keys) == Reversed(registry, k) {
      ReverseGivesTies(db, registry, k);
    }
  }

  /** With ascending names it always is. */
  lemma RecentIsReversed<S>(db: Db<S>, registry: seq<Migration<S>>, k: nat, steps: nat)
    requires Ascending(registry) && Prefix(db, registry, k)
    ensures Recent(db.log, steps) == Reversed(registry, k)[..if steps < k then steps else k]
  {
    AscendingIsDistinct(registry);
    RollbackOrderIff(db, registry, k);
  }

  lemma FindsItself<S>(registry: seq<Migration<S>>, i: nat)
    requires Distinct(registry) && i < |registry|
    ensures Find(registry, registry[i].name) == Some(i)
  {
  }

  // ----- Any sequence of commands -----

  datatype Command = UpCommand(attempts: seq<Attempt>) | DownCommand(steps: nat, attempts: seq<Attempt>)

  predicate Fits<S>(registry: seq<Migration<S>>, command: Command) {
    match command
    case UpCommand(attempts) => |attempts| == |registry|
    case DownCommand(steps, attempts) => |attempts| >= steps
  }

  function Execute<S>(db: Db<S>, registry: seq<Migration<S>>, command: Command): Outcome<S>
    requires Fits(registry, command)
  {
    match command
    case UpCommand(attempts) => UpFrom(db, registry, attempts, 0)
    case DownCommand(steps, attempts) => Down(db, registry, steps, attempts)
  }

  function ExecuteAll<S>(db: Db<S>, registry: seq<Migration<S>>, commands: seq<Command>): Db<S>
    requires forall i :: 0 <= i < |commands| ==> Fits(registry, commands[i])
    decreases commands
  {
    if commands == [] then db
    else ExecuteAll(Execute(db, registry, commands[0]).db, registry, commands[1..])
  }

  /** Some prefix of the registry is recorded, and `down` selects it in exactly the reverse order of application. */
  ghost predicate Orderly<S>(db: Db<S>, registry: seq<Migration<S>>, steps: nat) {
    exists k: nat ::
      Prefix(db, registry, k) && Recent(db.log, steps) == Reversed(registry, k)[..if steps < k then steps else k]
  }

  /**
   * With a strictly ascending registry and a clock that does not go back, the changelog is
   * a prefix of the registry after any sequence of `up` and `down N`, failures partway
   * included, and the ORDER BY of `down` is exactly reverse application order.
   */
  lemma ChangelogIsPrefix<S(!new)>(
    db: Db<S>, registry: seq<Migration<S>>, commands: seq<Command>, k: nat, steps: nat)
    requires Ascending(registry) && Prefix(db, registry, k)
    requires forall i :: 0 <= i < |commands| ==> Fits(registry, commands[i])
    ensures Orderly(ExecuteAll(db, registry, commands), registry, steps)
  {
    AnythingStands(db, registry, k);
    var applied := CommandsKeepSchema(db, registry, commands, k, Anything());
    RecentIsReversed(ExecuteAll(db, registry, commands), registry, applied, steps);
  }

  // ----- Schema -----

  /** The schema that the first k migrations build. */
  function Built<S>(registry: seq<Migration<S>>, base: S, k: nat): S
    requires k <= |registry|
  {
    if k == 0 then base else registry[k - 1].up(Built(registry, base, k - 1))
  }

  /** The schema after applying the migrations from the k-th up to the m-th. */
  function Applied<S>(registry: seq<Migration<S>>, schema: S, k: nat, m: nat): S
    requires k <= m <= |registry|
    decreases m - k
  {
    if k == m then schema else Applied(registry, registry[k].up(schema), k + 1, m)
  }

  /** The schema after undoing n of the first k migrations, last first. */
  function Undone<S>(registry: seq<Migration<S>>, schema: S, k: nat, n: nat): S
    requires n <= k <= |registry|
    decreases n
  {
    if n == 0 then schema else Undone(registry, registry[k - 1].down(schema), k - 1, n - 1)
  }

  /** Each Down undoes its Up where it is applied. */
  ghost predicate Undoes<S>(registry: seq<Migration<S>>, base: S) {
    forall k :: 0 <= k < |registry| ==>
      registry[k].down(Built(registry, base, k + 1)) == Built(registry, base, k)
  }

  // ----- What holds of the schema over every sequence of commands -----

  /** What every Up and every Down keeps; the number counts the recorded migrations. */
  ghost predicate Preserves<S(!new)>(registry: seq<Migration<S>>, good: (S, nat) -> bool) {
    && (forall s, k: nat :: k < |registry| && good(s, k) ==> good(registry[k].up(s), k + 1))
    && (forall s, k: nat :: 0 < k <= |registry| && good(s, k) ==> good(registry[k - 1].down(s), k - 1))
  }

  /** The first k migrations are recorded and the schema is as it should be then. */
  ghost predicate Stands<S>(db: Db<S>, registry: seq<Migration<S>>, good: (S, nat) -> bool, k: nat) {
    Prefix(db, registry, k) && good(db.schema, k)
  }

  /**
   * `up`, successful or not, extends the prefix, keeps every record and applies exactly the
   * migrations that it records; success reaches the end of the registry.
   */
  lemma {:induction false} UpKeepsSchema<S(!new)>(
    db: Db<S>, registry: seq<Migration<S>>, attempts: seq<Attempt>, i: nat, k: nat, good: (S, nat) -> bool)
    returns (applied: nat)
    requires |attempts| == |registry| && Distinct(registry) && Stands(db, registry, good, k) && i <= k <= |registry|
    requires Preserves(registry, good)
    ensures
      var run := UpFrom(db, registry, attempts, i);
      && Stands(run.db, registry, good, applied) && Keeps(db, run.db)
      && k <= applied <= |registry| && run.db.schema == Applied(registry, db.schema, k, applied)
      && (run.ok ==> applied == |registry|)
    decreases |registry| - i
  {
    hide Prefix;
    applied := k;
    if i < |registry| {
      var one := UpOne(db, registry[i], attempts[i]);
      RecordedIff(db, registry, k, i);
      WaitKeepsPrefix(db, registry, k, one.db.now);
      if i == k && one.ok {
        RecordNext(db, registry, k, one.db.schema, one.db.now);
        applied := UpKeepsSchema(one.db, registry, attempts, i + 1, k + 1, good);
      } else if one.ok {
        applied := UpKeepsSchema(one.db, registry, attempts, i + 1, k, good);
      }
    }
  }

  lemma DownOneKeepsSchema<S(!new)>(
    db: Db<S>, registry: seq<Migration<S>>, attempt: Attempt, k: nat, good: (S, nat) -> bool)
    requires Distinct(registry) && 0 < k <= |registry| && Stands(db, registry, good, k) && Preserves(registry, good)
    ensures
      var one := DownOne(db, registry[k - 1], attempt);
      && Stands(one.db, registry, good, if one.ok then k - 1 else k) && Keeps(one.db, db)
      && (one.ok ==> one.db.schema == registry[k - 1].down(db.schema))
      && (!one.ok ==> one.db.schema == db.schema)
  {
    hide Prefix;
    var one := DownOne(db, registry[k - 1], attempt);
    WaitKeepsPrefix(db, registry, k, one.db.now);
    if one.ok {
      UnrecordLast(db, registry, k - 1, one.db.schema, one.db.now);
    }
  }

  lemma KeepsTransitive<S>(a: Db<S>, b: Db<S>, c: Db<S>)
    requires Keeps(a, b) && Keeps(b, c)
    ensures Keeps(a, c)
  {
  }

  /** How a run of Downs starts. */
  lemma DownNamesStart<S>(db: Db<S>, registry: seq<Migration<S>>, names: seq<string>, attempts: seq<Attempt>, i: nat)
    requires i <= |names| <= |attempts|
    ensures
      DownNames(db, registry, names[i..], attempts[i..]) ==
        if i == |names| then Outcome(db, true)
        else
          var found := Find(registry, names[i]);
          if found.None? then Outcome(db, false)
          else
            var one := DownOne(db, registry[found.value], attempts[i]);
            if one.ok then DownNames(one.db, registry, names[i + 1..], attempts[i + 1..]) else one
  {
    if i < |names| {
      assert names[i..][1..] == names[i + 1..] && attempts[i..][1..] == attempts[i + 1..];
    }
  }

  lemma DownNone<S>(db: Db<S>, registry: seq<Migration<S>>, attempts: seq<Attempt>, k: nat)
    requires k <= |registry|
    ensures DownNames(db, registry, Reversed(registry, k)[..0], attempts) == Outcome(db, true) && Keeps(db, db)
  {
  }

  lemma DownReversedStart<S>(db: Db<S>, registry: seq<Migration<S>>, attempts: seq<Attempt>, k: nat, n: nat)
    requires Distinct(registry) && 0 < n <= k <= |registry| && |attempts| >= n
    ensures
      var one := DownOne(db, registry[k - 1], attempts[0]);
      DownNames(db, registry, Reversed(registry, k)[..n], attempts) ==
        if one.ok then DownNames(one.db, registry, Reversed(registry, k - 1)[..n - 1], attempts[1..]) else one
  {
    var names := Reversed(registry, k)[..n];
    FindsItself(registry, k - 1);
    hide Distinct, DownOne, Find;
    assert names[0] == registry[k - 1].name && names[1..] == Reversed(registry, k - 1)[..n - 1];
  }

  /**
   * `down` of the last n of k records, successful or not, shortens the prefix by at most n
   * and undoes exactly the migrations whose records it deletes; success shortens it by n.
   */
  lemma {:induction false} DownKeepsSchema<S(!new)>(
    db: Db<S>, registry: seq<Migration<S>>, attempts: seq<Attempt>, k: nat, n: nat, good: (S, nat) -> bool)
    returns (applied: nat)
    requires Distinct(registry) && n <= k <= |registry| && Stands(db, registry, good, k) && |attempts| >= n
    requires Preserves(registry, good)
    ensures
      var run := DownNames(db, registry, Reversed(registry, k)[..n], attempts);
      && Stands(run.db, registry, good, applied) && Keeps(run.db, db)
      && k - n <= applied <= k && run.db.schema == Undone(registry, db.schema, k, k - applied)
      && (run.ok ==> applied == k - n)
    decreases n
  {
    hide Prefix, Stands, Keeps, Preserves, Distinct, Reversed, DownOne, DownNames;
    applied := k;
    if n == 0 {
      DownNone(db, registry, attempts, k);
    } else {
      var one := DownOne(db, registry[k - 1], attempts[0]);
      DownReversedStart(db, registry, attempts, k, n);
      DownOneKeepsSchema(db, registry, attempts[0], k, good);
      if one.ok {
        applied := DownKeepsSchema(one.db, registry, attempts[1..], k - 1, n - 1, good);
        var run := DownNames(one.db, registry, Reversed(registry, k - 1)[..n - 1], attempts[1..]);
        KeepsTransitive(run.db, one.db, db);
      }
    }
  }

  lemma CommandKeepsSchema<S(!new)>(
    db: Db<S>, registry: seq<Migration<S>>, command: Command, k: nat, good: (S, nat) -> bool)
    returns (applied: nat)
    requires Ascending(registry) && Stands(db, registry, good, k) && Fits(registry, command)
    requires Preserves(registry, good)
    ensures Stands(Execute(db, registry, command).db, registry, good, applied)
  {
    hide Preserves;
    AscendingIsDistinct(registry);
    match command
    case UpCommand(attempts) => applied := UpKeepsSchema(db, registry, attempts, 0, k, good);
    case DownCommand(n, attempts) =>
      RecentIsReversed(db, registry, k, n);
      applied := DownKeepsSchema(db, registry, attempts, k, if n < k then n else k, good);
  }

  lemma {:induction false} CommandsKeepSchema<S(!new)>(
    db: Db<S>, registry: seq<Migration<S>>, commands: seq<Command>, k: nat, good: (S, nat) -> bool)
    returns (applied: nat)
    requires Ascending(registry) && Stands(db, registry, good, k) && Preserves(registry, good)
    requires forall i :: 0 <= i < |commands| ==> Fits(registry, commands[i])
    ensures Stands(ExecuteAll(db, registry, commands), registry, good, applied)
    decreases commands
  {
    hide Stands, Preserves;
    applied := k;
    if commands != [] {
      applied := CommandKeepsSchema(db, registry, commands[0], k, good);
      applied := CommandsKeepSchema(Execute(db, registry, commands[0]).db, registry, commands[1..], applied, good);
    }
  }

  function IsBuilt<S(==)>(registry: seq<Migration<S>>, base: S): (S, nat) -> bool {
    (s: S, k: nat) => k <= |registry| && s == Built(registry, base, k)
  }

  /** If each Down undoes its Up, then after any commands the schema is what the recorded migrations build. */
  lemma SchemaIsBuilt<S(!new)>(
    db: Db<S>, registry: seq<Migration<S>>, commands: seq<Command>, k: nat, base: S)
    returns (applied: nat)
    requires Ascending(registry) && Prefix(db, registry, k) && db.schema == Built(registry, base, k)
    requires Undoes(registry, base)
    requires forall i :: 0 <= i < |commands| ==> Fits(registry, commands[i])
    ensures
      var later := ExecuteAll(db, registry, commands);
      Prefix(later, registry, applied) && later.schema == Built(registry, base, applied)
  {
    BuiltIsPreserved(registry, base);
    assert k <= |registry|;
    hide Preserves, Ascending, Undoes, ExecuteAll, Prefix;
    applied := CommandsKeepSchema(db, registry, commands, k, IsBuilt(registry, base));
  }

  lemma BuiltIsPreserved<S(!new)>(registry: seq<Migration<S>>, base: S)
    requires Undoes(registry, base)
    ensures Preserves(registry, IsBuilt(registry, base))
  {
    var good := IsBuilt(registry, base);
    forall s, k: nat | 0 < k <= |registry| && good(s, k) ensures good(registry[k - 1].down(s), k - 1) {
      assert registry[k - 1].down(Built(registry, base, k - 1 + 1)) == Built(registry, base, k - 1);
    }
  }

  lemma SameRecords<S>(db: Db<S>, middle: Db<S>, db': Db<S>, registry: seq<Migration<S>>, k: nat)
    requires Prefix(db, registry, k) && Prefix(db', registry, k) && Keeps(db, middle) && Keeps(db', middle)
    ensures db'.log == db.log
  {
  }

  function Anything<S>(): (S, nat) -> bool {
    (s: S, k: nat) => true
  }

  lemma AnythingStands<S(!new)>(db: Db<S>, registry: seq<Migration<S>>, k: nat)
    requires Prefix(db, registry, k)
    ensures Preserves(registry, Anything()) && Stands(db, registry, Anything(), k)
  {
  }

  lemma DownIsReversed<S>(db: Db<S>, registry: seq<Migration<S>>, k: nat, n: nat, downs: seq<Attempt>)
    requires Ascending(registry) && Prefix(db, registry, k) && n <= k <= |registry| && |downs| >= n
    ensures Down(db, registry, n, downs) == DownNames(db, registry, Reversed(registry, k)[..n], downs)
  {
    hide DownNames, Ascending, Reversed, Recent;
    RecentIsReversed(db, registry, k, n);
  }

  lemma DownLeaves<S(!new)>(db: Db<S>, registry: seq<Migration<S>>, downs: seq<Attempt>, k: nat, n: nat)
    requires Distinct(registry) && Prefix(db, registry, k) && n <= k <= |registry| && |downs| >= n
    ensures
      var run := DownNames(db, registry, Reversed(registry, k)[..n], downs);
      run.ok ==>
        Prefix(run.db, registry, k - n) && Keeps(run.db, db) && run.db.schema == Undone(registry, db.schema, k, n)
  {
    AnythingStands(db, registry, k);
    hide Prefix, Distinct, Keeps, Reversed, DownNames, Undone, Preserves, Anything;
    var left := DownKeepsSchema(db, registry, downs, k, n, Anything());
  }

  /** A successful `down` back to where an earlier changelog stood brings that changelog back. */
  lemma DownReturns<S(!new)>(
    before: Db<S>, db: Db<S>, registry: seq<Migration<S>>, downs: seq<Attempt>, k: nat)
    requires Ascending(registry) && k <= |registry| && |downs| >= |registry| - k
    requires Prefix(before, registry, k) && Prefix(db, registry, |registry|) && Keeps(before, db)
    ensures
      var n := |registry|;
      var down := Down(db, registry, n - k, downs);
      down.ok ==> down.db.log == before.log && down.db.schema == Undone(registry, db.schema, n, n - k)
  {
    hide Prefix, Ascending, Distinct, Keeps, Reversed, DownNames, Down, Undone;
    AscendingIsDistinct(registry);
    DownIsReversed(db, registry, |registry|, |registry| - k, downs);
    DownLeaves(db, registry, downs, |registry|, |registry| - k);
    var down := Down(db, registry, |registry| - k, downs);
    if down.ok {
      SameRecords(before, db, down.db, registry, k);
    }
  }

  /**
   * A successful `up` that applied n migrations and a successful `down n` always restore the
   * changelog; the schema is then the old one with those Ups applied and those Downs after them.
   */
  lemma RoundTrip<S(!new)>(db: Db<S>, registry: seq<Migration<S>>, ups: seq<Attempt>, downs: seq<Attempt>, k: nat)
    requires Ascending(registry) && Prefix(db, registry, k)
    requires |ups| == |registry| && |downs| >= |registry| - k
    ensures
      var n := |registry|;
      var up := UpFrom(db, registry, ups, 0);
      var down := Down(up.db, registry, n - k, downs);
      up.ok && down.ok ==>
        down.db.log == db.log && down.db.schema == Undone(registry, Applied(registry, db.schema, k, n), n, n - k)
  {
    AscendingIsDistinct(registry);
    AnythingStands(db, registry, k);
    hide Ascending, Distinct, Keeps, Undone, Applied, Preserves, Anything, Down;
    var up := UpFrom(db, registry, ups, 0);
    var applied := UpKeepsSchema(db, registry, ups, 0, k, Anything());
    if up.ok {
      DownReturns(db, up.db, registry, downs, k);
    }
  }

  lemma {:induction false} AppliedBuilds<S>(registry: seq<Migration<S>>, base: S, k: nat)
    requires k <= |registry|
    ensures Applied(registry, Built(registry, base, k), k, |registry|) == Built(registry, base, |registry|)
    decreases |registry| - k
  {
    if k < |registry| {
      AppliedBuilds(registry, base, k + 1);
    }
  }

  lemma {:induction false} UndoneUnbuilds<S>(registry: seq<Migration<S>>, base: S, k: nat, n: nat)
    requires Undoes(registry, base) && n <= k <= |registry|
    ensures Undone(registry, Built(registry, base, k), k, n) == Built(registry, base, k - n)
    decreases n
  {
    if n > 0 {
      assert registry[k - 1].down(Built(registry, base, k - 1 + 1)) == Built(registry, base, k - 1);
      UndoneUnbuilds(registry, base, k - 1, n - 1);
    }
  }

  /** If each Down undoes its Up, the schema is restored too. */
  lemma UpThenDownRestores<S(!new)>(
    db: Db<S>, registry: seq<Migration<S>>, ups: seq<Attempt>, downs: seq<Attempt>, k: nat, base: S)
    requires Ascending(registry) && Prefix(db, registry, k) && db.schema == Built(registry, base, k)
    requires Undoes(registry, base) && |ups| == |registry| && |downs| >= |registry| - k
    ensures
      var up := UpFrom(db, registry, ups, 0);
      var down := Down(up.db, registry, |registry| - k, downs);
      up.ok && down.ok ==> down.db.log == db.log && down.db.schema == db.schema
  {
    hide UpFrom, Down, Ascending, Undoes, Built, Applied, Undone;
    assert k <= |registry|;
    hide Prefix;
    RoundTrip(db, registry, ups, downs, k);
    AppliedBuilds(registry, base, k);
    UndoneUnbuilds(registry, base, |registry|, |registry| - k);
  }

  // ----- Success -----

  /** An `up` all of whose calls go through succeeds. */
  lemma {:induction false} UpSucceeds<S>(db: Db<S>, registry: seq<Migration<S>>, attempts: seq<Attempt>, i: nat)
    requires |attempts| == |registry| && i <= |registry|
    requires forall j :: i <= j < |attempts| ==> attempts[j].lookup && attempts[j].transaction
    ensures UpFrom(db, registry, attempts, i).ok
    decreases |registry| - i
  {
    if i < |registry| {
      UpSucceeds(UpOne(db, registry[i], attempts[i]).db, registry, attempts, i + 1);
    }
  }

  lemma {:induction false} DownSucceeds<S>(
    db: Db<S>, registry: seq<Migration<S>>, names: seq<string>, attempts: seq<Attempt>)
    requires |attempts| >= |names| && forall j :: 0 <= j < |attempts| ==> attempts[j].transaction
    requires forall j :: 0 <= j < |names| ==> Among(registry, |registry|, names[j])
    ensures DownNames(db, registry, names, attempts).ok
    decreases names
  {
    if names != [] {
      var i := Find(registry, names[0]).value;
      DownSucceeds(DownOne(db, registry[i], attempts[0]).db, registry, names[1..], attempts[1..]);
    }
  }

  /** So does a `down` of a changelog whose records are all registered, in any order. */
  lemma RegisteredDownSucceeds<S>(db: Db<S>, registry: seq<Migration<S>>, steps: nat, attempts: seq<Attempt>)
    requires |attempts| >= steps && forall j :: 0 <= j < |attempts| ==> attempts[j].transaction
    requires forall name :: name in db.log ==> Among(registry, |registry|, name)
    ensures Down(db, registry, steps, attempts).ok
  {
    DownSucceeds(db, registry, Recent(db.log, steps), attempts);
  }

  // ----- A second `up` -----

  lemma {:induction false} UpRecordsAll<S>(db: Db<S>, registry: seq<Migration<S>>, attempts: seq<Attempt>, i: nat)
    requires |attempts| == |registry| && i <= |registry|
    ensures
      var run := UpFrom(db, registry, attempts, i);
      && db.log.Keys <= run.db.log.Keys
      && (run.ok ==> forall j :: i <= j < |registry| ==> registry[j].name in run.db.log)
    decreases |registry| - i
  {
    if i < |registry| {
      UpRecordsAll(UpOne(db, registry[i], attempts[i]).db, registry, attempts, i + 1);
    }
  }

  lemma {:induction false} UpSkipsAll<S>(db: Db<S>, registry: seq<Migration<S>>, attempts: seq<Attempt>, i: nat)
    requires |attempts| == |registry| && i <= |registry|
    requires forall j :: i <= j < |registry| ==> registry[j].name in db.log
    ensures
      var run := UpFrom(db, registry, attempts, i);
      run.db.log == db.log && run.db.schema == db.schema
    decreases |registry| - i
  {
    if i < |registry| {
      UpSkipsAll(UpOne(db, registry[i], attempts[i]).db, registry, attempts, i + 1);
    }
  }

  /** For any registry and database, a second `up` after a successful one changes neither changelog nor schema. */
  lemma UpIsIdempotent<S>(db: Db<S>, registry: seq<Migration<S>>, first: seq<Attempt>, second: seq<Attempt>)
    requires |first| == |second| == |registry|
    ensures
      var once := UpFrom(db, registry, first, 0);
      var twice := UpFrom(once.db, registry, second, 0);
      once.ok ==> twice.db.log == once.db.log && twice.db.schema == once.db.schema
  {
    UpRecordsAll(db, registry, first, 0);
    var once := UpFrom(db, registry, first, 0);
    if once.ok {
      UpSkipsAll(once.db, registry, second, 0);
    }
  }
}
