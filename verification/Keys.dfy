/** Object keys: how `Create` builds them and which keys the object store accepts. */
module Keys {

  // ----- Slash-separated paths -----

  /** One more character in front of a split path. */
  function Extend(ch: char, parts: seq<string>): (r: seq<string>)
    requires |parts| > 0
    ensures |r| > 0
  {
    if ch == '/' then [""] + parts else [[ch] + parts[0]] + parts[1..]
  }

  function Split(path: string): (parts: seq<string>)
    ensures |parts| > 0
  {
    if path == "" then [""] else Extend(path[0], Split(path[1..]))
  }

  function Join(parts: seq<string>): string
    requires |parts| > 0
  {
    if |parts| == 1 then parts[0] else parts[0] + "/" + Join(parts[1..])
  }

  lemma {:induction false} JoinSplit(path: string)
    ensures Join(Split(path)) == path
  {
    if path != "" {
      var rest := Split(path[1..]);
      JoinSplit(path[1..]);
      if path[0] == '/' {
        assert ([""] + rest)[1..] == rest;
      } else {
        assert ([[path[0]] + rest[0]] + rest[1..])[1..] == rest[1..];
      }
    }
  }

  lemma ExtendConcat(ch: char, a: seq<string>, b: seq<string>)
    requires |a| > 0
    ensures Extend(ch, a + b) == Extend(ch, a) + b
  {
  }

  lemma {:induction false} SplitConcat(a: string, b: string)
    ensures Split(a + "/" + b) == Split(a) + Split(b)
  {
    var path := a + "/" + b;
    if a == "" {
      assert path[1..] == b;
    } else {
      hide Extend;
      SplitConcat(a[1..], b);
      assert path[0] == a[0] && path[1..] == a[1..] + "/" + b;
      ExtendConcat(a[0], Split(a[1..]), Split(b));
    }
  }

  lemma {:induction false} SplitWhole(part: string)
    requires '/' !in part
    ensures Split(part) == [part]
  {
    if part != "" {
      assert part[0] in part;
      SplitWhole(part[1..]);
      assert [part[0]] + part[1..] == part;
    }
  }

  lemma {:induction false} SplitJoin(parts: seq<string>)
    requires |parts| > 0 && forall i :: 0 <= i < |parts| ==> '/' !in parts[i]
    ensures Split(Join(parts)) == parts
  {
    SplitWhole(parts[0]);
    if |parts| > 1 {
      SplitJoin(parts[1..]);
      SplitConcat(parts[0], Join(parts[1..]));
    }
  }

  lemma {:induction false} SplitPartsHaveNoSlash(path: string)
    ensures forall i :: 0 <= i < |Split(path)| ==> '/' !in Split(path)[i]
  {
    if path != "" {
      SplitPartsHaveNoSlash(path[1..]);
    }
  }

  // ----- path.Clean and path.Join -----

  function PushPart(stack: seq<string>, part: string, rooted: bool): seq<string> {
    if part == "" || part == "." then stack
    else if part != ".." then stack + [part]
    else if stack != [] && stack[|stack| - 1] != ".." then stack[..|stack| - 1]
    else if rooted then stack
    else stack + [".."]
  }

  function Resolve(stack: seq<string>, parts: seq<string>, rooted: bool): seq<string>
    decreases parts
  {
    if parts == [] then stack else Resolve(PushPart(stack, parts[0], rooted), parts[1..], rooted)
  }

  predicate IsAbs(path: string) {
    path != "" && path[0] == '/'
  }

  function Clean(path: string): string {
    var stack := Resolve([], Split(path), IsAbs(path));
    var joined := if stack == [] then "" else Join(stack);
    if IsAbs(path) then "/" + joined else if stack == [] then "." else joined
  }

  function JoinPath(a: string, b: string): string
    requires a != "" && b != ""
  {
    Clean(a + "/" + b)
  }

  // ----- Checks -----

  predicate HasPrefix(s: string, prefix: string) {
    prefix <= s
  }

  predicate OccursAt(s: string, sub: string, i: int) {
    0 <= i <= |s| - |sub| && s[i..i + |sub|] == sub
  }

  predicate Contains(s: string, sub: string) {
    exists i :: 0 <= i <= |s| && OccursAt(s, sub, i)
  }

  /** The object store's `validateKey`. */
  predicate ValidKey(key: string) {
    && key != "" && !Contains(key, "\\") && !Contains(key, "//") && !IsAbs(key)
    && Clean(key) == key && key != "." && !HasPrefix(key, "../")
  }

  /** The configuration's `validS3Prefix`. */
  predicate ValidPrefix(prefix: string) {
    prefix == "" ||
    (!Contains(prefix, "\\") && !Contains(prefix, "//") && Clean(prefix) == prefix && prefix != "."
     && !HasPrefix(prefix, "../"))
  }

  // ----- Keys -----

  function Digit(d: nat): char
    requires d < 10
  {
    ('0' as int + d) as char
  }

  function Decimal(n: nat): string {
    if n < 10 then [Digit(n)] else Decimal(n / 10) + [Digit(n % 10)]
  }

  predicate IsHex(id: string) {
    id != "" && forall i :: 0 <= i < |id| ==> '0' <= id[i] <= '9' || 'a' <= id[i] <= 'f'
  }

  const ROOT := "documents"

  function PlainKey(owner: nat, id: string): string {
    ROOT + "/" + (Decimal(owner) + "/" + id)
  }

  function ObjectKey(prefix: string, owner: nat, id: string): string {
    if prefix == "" then PlainKey(owner, id) else JoinPath(prefix, PlainKey(owner, id))
  }

  // ----- Trimming -----

  /** White space as Go's `unicode.IsSpace` has it. */
  predicate IsSpace(ch: char) {
    var code := ch as int;
    || 0x09 <= code <= 0x0d || code == 0x20 || code == 0x85 || code == 0xa0 || code == 0x1680
    || 0x2000 <= code <= 0x200a || code == 0x2028 || code == 0x2029 || code == 0x202f || code == 0x205f
    || code == 0x3000
  }

  function TrimLeft(s: string, drop: char -> bool): (r: string)
    ensures r != "" ==> !drop(r[0])
    ensures forall ch :: ch in r ==> ch in s
  {
    if s != "" && drop(s[0]) then TrimLeft(s[1..], drop) else s
  }

  function TrimRight(s: string, drop: char -> bool): (r: string)
    ensures r <= s && (r != "" ==> !drop(r[|r| - 1]))
  {
    if s != "" && drop(s[|s| - 1]) then TrimRight(s[..|s| - 1], drop) else s
  }

  function Trim(s: string, drop: char -> bool): (r: string)
    ensures r != "" ==> !drop(r[0]) && !drop(r[|r| - 1])
    ensures forall ch :: ch in r ==> ch in s
  {
    TrimRight(TrimLeft(s, drop), drop)
  }

  /** The prefix that the service keeps of a configured one. */
  function ServicePrefix(prefix: string): (r: string)
    ensures !IsAbs(r)
    ensures forall ch :: ch in r ==> ch in prefix
  {
    Trim(Trim(prefix, (ch: char) => IsSpace(ch)), (ch: char) => ch == '/')
  }

  /** The key that `Create` builds. */
  function BuiltKey(prefix: string, owner: nat, id: string): string {
    ObjectKey(ServicePrefix(prefix), owner, id)
  }

  // ----- Segments -----

  predicate Normal(part: string) {
    part != "" && part != "." && part != ".."
  }

  predicate AllNormal(parts: seq<string>) {
    forall i :: 0 <= i < |parts| ==> Normal(parts[i])
  }

  lemma {:induction false} ResolveNormal(stack: seq<string>, parts: seq<string>, rooted: bool)
    requires AllNormal(parts)
    ensures Resolve(stack, parts, rooted) == stack + parts
    decreases parts
  {
    if parts != [] {
      ResolveNormal(stack + [parts[0]], parts[1..], rooted);
      assert stack + [parts[0]] + parts[1..] == stack + parts;
    }
  }

  /** What Resolve builds: proper segments, behind at most a run of "..". */
  predicate Resolved(stack: seq<string>) {
    && (forall i :: 0 <= i < |stack| ==> stack[i] != "" && stack[i] != "." && '/' !in stack[i])
    && (forall i, j :: 0 <= i < j < |stack| && stack[j] == ".." ==> stack[i] == "..")
  }

  lemma {:induction false} ResolveResolves(stack: seq<string>, parts: seq<string>, rooted: bool)
    requires Resolved(stack) && forall i :: 0 <= i < |parts| ==> '/' !in parts[i]
    ensures Resolved(Resolve(stack, parts, rooted))
    decreases parts
  {
    if parts != [] {
      ResolveResolves(PushPart(stack, parts[0], rooted), parts[1..], rooted);
    }
  }

  lemma {:induction false} ResolveConcat(stack: seq<string>, a: seq<string>, b: seq<string>, rooted: bool)
    ensures Resolve(stack, a + b, rooted) == Resolve(Resolve(stack, a, rooted), b, rooted)
    decreases a
  {
    if a == [] {
      assert a + b == b;
    } else {
      assert (a + b)[1..] == a[1..] + b;
      ResolveConcat(PushPart(stack, a[0], rooted), a[1..], b, rooted);
    }
  }

  lemma ParentSegment(path: string)
    ensures HasPrefix(path, "../") <==> |Split(path)| > 1 && Split(path)[0] == ".."
  {
    hide Split, Join;
    if |Split(path)| > 1 && Split(path)[0] == ".." {
      FirstOfMany(path);
    }
    if HasPrefix(path, "../") {
      assert path == ".." + "/" + path[3..];
      SplitConcat("..", path[3..]);
      SplitWhole("..");
    }
  }

  lemma FirstOfMany(path: string)
    requires |Split(path)| > 1
    ensures Split(path)[0] + "/" <= path
  {
    JoinSplit(path);
    hide Split;
    assert path == Split(path)[0] + "/" + Join(Split(path)[1..]);
  }

  lemma DoubleSlashSegment(path: string, i: int)
    requires OccursAt(path, "//", i)
    ensures "" in Split(path)
  {
    assert path[i] == path[i..i + 2][0] && path[i + 1] == path[i..i + 2][1];
    assert path == path[..i] + "/" + path[i + 1..];
    SplitConcat(path[..i], path[i + 1..]);
    assert Split(path)[|Split(path[..i])|] == Split(path[i + 1..])[0] == "";
  }

  lemma NoDoubleSlash(path: string)
    requires AllNormal(Split(path))
    ensures !Contains(path, "//")
  {
    forall i | OccursAt(path, "//", i) ensures "" in Split(path) {
      DoubleSlashSegment(path, i);
    }
  }

  lemma {:induction false} DecimalIsDigits(n: nat)
    ensures Decimal(n) != "" && forall i :: 0 <= i < |Decimal(n)| ==> '0' <= Decimal(n)[i] <= '9'
  {
    if n >= 10 {
      DecimalIsDigits(n / 10);
    }
  }

  function Parse(digits: string): int {
    if digits == "" then 0
    else 10 * Parse(digits[..|digits| - 1]) + (digits[|digits| - 1] as int - '0' as int)
  }

  /** The decimal digits of n, without leading zeros. */
  lemma {:induction false} ParseDecimal(n: nat)
    ensures Parse(Decimal(n)) == n && (n > 0 ==> Decimal(n)[0] != '0') && (n == 0 ==> Decimal(n) == "0")
  {
    if n >= 10 {
      ParseDecimal(n / 10);
      assert Decimal(n)[..|Decimal(n)| - 1] == Decimal(n / 10);
    } else {
      assert Decimal(n)[..0] == "";
    }
  }

  lemma RootSegment()
    ensures Split(ROOT) == [ROOT] && Normal(ROOT) && '\\' !in ROOT
  {
    SplitWhole(ROOT);
  }

  lemma PlainSegments(owner: nat, id: string)
    requires IsHex(id)
    ensures Split(PlainKey(owner, id)) == [ROOT, Decimal(owner), id]
    ensures Normal(ROOT) && Normal(Decimal(owner)) && Normal(id)
    ensures '\\' !in PlainKey(owner, id)
  {
    hide ROOT;
    var number := Decimal(owner);
    RootSegment();
    DecimalIsDigits(owner);
    PlainParts(number);
    PlainParts(id);
    SplitConcat(number, id);
    SplitConcat(ROOT, number + "/" + id);
  }

  lemma PlainParts(part: string)
    requires IsHex(part)
    ensures Split(part) == [part] && Normal(part) && '\\' !in part
  {
    assert part[0] != '.';
    assert '/' !in part;
    SplitWhole(part);
  }

  /** What the service's prefix contributes to a key, once path.Join has cleaned it. */
  function PrefixParts(prefix: string): seq<string> {
    if prefix == "" then [] else Resolve([], Split(prefix), false)
  }

  lemma PrefixPartsResolved(prefix: string)
    ensures Resolved(PrefixParts(prefix))
  {
    SplitPartsHaveNoSlash(prefix);
    ResolveResolves([], Split(prefix), false);
  }

  /** The segments of a built key: those of the cleaned prefix, then documents, owner and id. */
  lemma KeySegments(prefix: string, owner: nat, id: string)
    requires !IsAbs(prefix) && IsHex(id)
    ensures Split(ObjectKey(prefix, owner, id)) == PrefixParts(prefix) + ["documents", Decimal(owner), id]
  {
    var plain := PlainKey(owner, id);
    PlainSegments(owner, id);
    if prefix == "" {
      assert [] + Split(plain) == Split(plain);
    } else {
      var parts := PrefixParts(prefix) + Split(plain);
      SplitConcat(prefix, plain);
      ResolveConcat([], Split(prefix), Split(plain), false);
      ResolveNormal(PrefixParts(prefix), Split(plain), false);
      PrefixPartsResolved(prefix);
      SplitPartsHaveNoSlash(plain);
      SplitJoin(parts);
    }
  }

  lemma SingleCharacter(s: string, c: char)
    ensures Contains(s, [c]) <==> c in s
  {
    if c in s {
      var i :| 0 <= i < |s| && s[i] == c;
      assert OccursAt(s, [c], i);
    }
    if Contains(s, [c]) {
      var i :| 0 <= i <= |s| && OccursAt(s, [c], i);
      assert s[i] == s[i..i + 1][0] == c;
    }
  }

  lemma ValidFromSegments(key: string)
    requires AllNormal(Split(key)) && '\\' !in key
    ensures ValidKey(key)
  {
    var parts := Split(key);
    JoinSplit(key);
    ParentSegment(key);
    NoDoubleSlash(key);
    SingleCharacter(key, '\\');
    assert !IsAbs(key) by {
      assert Normal(parts[0]);
    }
    ResolveNormal([], parts, false);
    assert [] + parts == parts;
    SplitWhole("");
    SplitWhole(".");
  }

  /**
   * The store accepts exactly the keys without backslash all of whose segments are proper,
   * and "..".
   */
  lemma ValidKeyIff(key: string)
    ensures ValidKey(key) <==> '\\' !in key && (key == ".." || AllNormal(Split(key)))
  {
    SingleCharacter(key, '\\');
    if ValidKey(key) {
      var stack := Resolve([], Split(key), false);
      SplitPartsHaveNoSlash(key);
      ResolveResolves([], Split(key), false);
      SplitJoin(stack);
      ParentSegment(key);
      JoinSplit(key);
    } else if AllNormal(Split(key)) && '\\' !in key {
      ValidFromSegments(key);
    } else if key == ".." {
      DotDotIsValid();
    }
  }

  lemma DotDotIsValid()
    ensures Clean("..") == ".." && ValidKey("..") && ValidPrefix("..")
  {
    SplitWhole("..");
    assert PushPart([], "..", false) == [".."];
    SingleCharacter("..", '\\');
    assert ".."[0..2][0] == '.';
  }

  /** Without leading slash the configuration accepts the empty prefix and what the store takes as a key. */
  lemma ValidPrefixIff(prefix: string)
    requires !IsAbs(prefix)
    ensures ValidPrefix(prefix) <==> prefix == "" || ('\\' !in prefix && (prefix == ".." || AllNormal(Split(prefix))))
  {
    ValidKeyIff(prefix);
  }

  // ----- What path.Clean does -----

  lemma SplitAround(a: string, part: string, b: string)
    requires '/' !in part
    ensures Split(a + "/" + part + "/" + b) == Split(a) + [part] + Split(b)
  {
    SplitConcat(a + "/" + part, b);
    SplitConcat(a, part);
    SplitWhole(part);
  }

  lemma ResolveAround(stack: seq<string>, a: seq<string>, parts: seq<string>, b: seq<string>, rooted: bool)
    requires Resolve(Resolve(stack, a, rooted), parts, rooted) == Resolve(stack, a, rooted)
    ensures Resolve(stack, a + parts + b, rooted) == Resolve(stack, a + b, rooted)
  {
    ResolveConcat(stack, a + parts, b, rooted);
    ResolveConcat(stack, a, parts, rooted);
    ResolveConcat(stack, a, b, rooted);
  }

  lemma SameStack(path: string, path': string)
    requires IsAbs(path) == IsAbs(path')
    requires Resolve([], Split(path), IsAbs(path)) == Resolve([], Split(path'), IsAbs(path))
    ensures Clean(path) == Clean(path')
  {
  }

  /** Empty and "." segments go. */
  lemma CleanDropsDots(a: string, b: string, part: string)
    requires part == "" || part == "."
    ensures Clean(a + "/" + part + "/" + b) == Clean(a + "/" + b)
  {
    var rooted := IsAbs(a + "/" + b);
    SplitAround(a, part, b);
    SplitConcat(a, b);
    var stack := Resolve([], Split(a), rooted);
    assert Resolve(stack, [part], rooted) == Resolve(PushPart(stack, part, rooted), [], rooted);
    ResolveAround([], Split(a), [part], Split(b), rooted);
    SameStack(a + "/" + part + "/" + b, a + "/" + b);
  }

  /** A proper segment goes together with the ".." after it. */
  lemma CleanDropsParents(a: string, b: string, part: string)
    requires Normal(part) && '/' !in part
    ensures Clean(a + "/" + part + "/../" + b) == Clean(a + "/" + b)
  {
    var rooted := IsAbs(a + "/" + b);
    SplitAround(a + "/" + part, "..", b);
    SplitConcat(a, part);
    SplitWhole(part);
    SplitConcat(a, b);
    var stack, parts := Resolve([], Split(a), rooted), [part, ".."];
    assert PushPart(stack, part, rooted) == stack + [part];
    assert PushPart(stack + [part], "..", rooted) == stack;
    assert parts[1..] == [".."] && parts[1..][1..] == [];
    assert Resolve(stack, parts, rooted) == Resolve(stack + [part], [".."], rooted) == Resolve(stack, [], rooted);
    assert Split(a) + parts == Split(a) + [part] + [".."];
    ResolveAround([], Split(a), parts, Split(b), rooted);
    assert a + "/" + part + "/../" + b == a + "/" + part + "/" + ".." + "/" + b;
    SameStack(a + "/" + part + "/../" + b, a + "/" + b);
  }

  lemma {:induction false} ResolveKeeps(stack: seq<string>, parts: seq<string>)
    requires Resolved(stack + parts)
    ensures Resolve(stack, parts, false) == stack + parts
    decreases parts
  {
    if parts != [] {
      assert (stack + parts)[|stack|] == parts[0];
      assert stack != [] ==> (stack + parts)[|stack| - 1] == stack[|stack| - 1];
      assert stack + [parts[0]] + parts[1..] == stack + parts;
      ResolveKeeps(stack + [parts[0]], parts[1..]);
    }
  }

  /** A relative path of proper segments, behind at most a run of "..", is clean already. */
  lemma CleanKeeps(path: string)
    requires Resolved(Split(path))
    ensures Clean(path) == path
  {
    JoinSplit(path);
    assert Split(path)[0] != "";
    assert [] + Split(path) == Split(path);
    ResolveKeeps([], Split(path));
    AbsSegment(path);
  }

  lemma AbsSegment(path: string)
    ensures IsAbs(path) ==> Split(path)[0] == ""
  {
  }

  // ----- What trimming leaves -----

  lemma {:induction false} TrimLeftExact(left: string, rest: string, drop: char -> bool)
    requires (forall ch :: ch in left ==> drop(ch)) && (rest != "" ==> !drop(rest[0]))
    ensures TrimLeft(left + rest, drop) == rest
  {
    if left == "" {
      assert left + rest == rest;
    } else {
      assert left[0] in left && (left + rest)[1..] == left[1..] + rest;
      TrimLeftExact(left[1..], rest, drop);
    }
  }

  lemma {:induction false} TrimRightExact(rest: string, right: string, drop: char -> bool)
    requires (forall ch :: ch in right ==> drop(ch)) && (rest != "" ==> !drop(rest[|rest| - 1]))
    ensures TrimRight(rest + right, drop) == rest
  {
    if right == "" {
      assert rest + right == rest;
    } else {
      var n := |right| - 1;
      assert right[n] in right && (rest + right)[..|rest| + n] == rest + right[..n];
      TrimRightExact(rest, right[..n], drop);
    }
  }

  lemma TrimExact(left: string, rest: string, right: string, drop: char -> bool)
    requires forall ch :: ch in left || ch in right ==> drop(ch)
    requires rest != "" && !drop(rest[0]) && !drop(rest[|rest| - 1])
    ensures Trim(left + rest + right, drop) == rest
  {
    assert left + rest + right == left + (rest + right);
    TrimLeftExact(left, rest + right, drop);
    TrimRightExact(rest, right, drop);
  }

  predicate AllSpaces(s: string) {
    forall ch :: ch in s ==> ch in {' ', '\t', '\n', '\r'}
  }

  predicate AllSlashes(s: string) {
    forall ch :: ch in s ==> ch == '/'
  }

  /** White space outside, then slashes, are taken off; the rest stays. */
  lemma ServicePrefixIs(space: string, slash: string, rest: string, slash': string, space': string)
    requires AllSpaces(space) && AllSpaces(space') && AllSlashes(slash) && AllSlashes(slash')
    requires rest != "" && '!' <= rest[0] <= '~' && '!' <= rest[|rest| - 1] <= '~'
    requires rest[0] != '/' && rest[|rest| - 1] != '/'
    ensures ServicePrefix(space + (slash + rest + slash') + space') == rest
  {
    var middle := slash + rest + slash';
    assert middle[0] == (if slash == "" then rest else slash)[0];
    assert slash != "" ==> slash[0] in slash;
    assert slash' != "" ==> slash'[|slash'| - 1] in slash';
    assert middle[|middle| - 1] == if slash' == "" then rest[|rest| - 1] else slash'[|slash'| - 1];
    TrimExact(space, middle, space', (ch: char) => IsSpace(ch));
    TrimExact(slash, rest, slash', (ch: char) => ch == '/');
  }

  /** The cleaned prefix leads out of the store's root. */
  predicate Climbs(prefix: string) {
    prefix != "" && (Clean(prefix) == ".." || HasPrefix(Clean(prefix), "../"))
  }

  lemma ClimbsIff(prefix: string)
    requires !IsAbs(prefix)
    ensures Climbs(prefix) <==> !AllNormal(PrefixParts(prefix))
    ensures !AllNormal(PrefixParts(prefix)) ==> PrefixParts(prefix)[0] == ".."
  {
    var parts := PrefixParts(prefix);
    PrefixPartsResolved(prefix);
    if parts != [] {
      SplitJoin(parts);
      ParentSegment(Join(parts));
      SplitWhole("..");
    }
  }

  lemma KeyText(prefix: string, owner: nat, id: string)
    requires prefix != "" && !IsAbs(prefix) && IsHex(id) && PrefixParts(prefix) != []
    ensures ObjectKey(prefix, owner, id) == Clean(prefix) + "/" + PlainKey(owner, id)
  {
    var parts := PrefixParts(prefix);
    KeySegments(prefix, owner, id);
    PlainSegments(owner, id);
    PrefixPartsResolved(prefix);
    SplitJoin(parts);
    SplitConcat(Join(parts), PlainKey(owner, id));
    JoinSplit(ObjectKey(prefix, owner, id));
    JoinSplit(Join(parts) + "/" + PlainKey(owner, id));
  }

  lemma KeyBackslash(prefix: string, owner: nat, id: string)
    requires !IsAbs(prefix) && IsHex(id)
    ensures '\\' in ObjectKey(prefix, owner, id) <==> prefix != "" && '\\' in Clean(prefix)
  {
    PlainSegments(owner, id);
    if prefix != "" {
      if PrefixParts(prefix) == [] {
        KeySegments(prefix, owner, id);
        assert [] + [ROOT, Decimal(owner), id] == Split(PlainKey(owner, id));
        JoinSplit(ObjectKey(prefix, owner, id));
        JoinSplit(PlainKey(owner, id));
        assert Clean(prefix) == ".";
      } else {
        KeyText(prefix, owner, id);
      }
    }
  }

  /**
   * For any configured prefix, the store accepts the built key exactly when what is left of
   * the prefix, trimmed and cleaned, stays inside the root and has no backslash; then every
   * segment is proper.
   */
  lemma BuiltKeyValidIff(prefix: string, owner: nat, id: string)
    requires IsHex(id)
    ensures
      var kept := ServicePrefix(prefix);
      ValidKey(BuiltKey(prefix, owner, id)) <==> !Climbs(kept) && (kept == "" || '\\' !in Clean(kept))
    ensures ValidKey(BuiltKey(prefix, owner, id)) ==> AllNormal(Split(BuiltKey(prefix, owner, id)))
  {
    var kept := ServicePrefix(prefix);
    var key := ObjectKey(kept, owner, id);
    KeySegments(kept, owner, id);
    PlainSegments(owner, id);
    ClimbsIff(kept);
    KeyBackslash(kept, owner, id);
    SingleCharacter(key, '\\');
    ParentSegment(key);
    hide Clean, Split, ObjectKey, Decimal;
    if !Climbs(kept) && '\\' !in key {
      ValidFromSegments(key);
    }
  }

  predicate Without(parts: seq<string>, ch: char) {
    forall i :: 0 <= i < |parts| ==> ch !in parts[i]
  }

  lemma {:induction false} SplitWithout(path: string, ch: char)
    requires ch !in path
    ensures Without(Split(path), ch)
  {
    if path != "" {
      SplitWithout(path[1..], ch);
    }
  }

  lemma {:induction false} ResolveWithout(stack: seq<string>, parts: seq<string>, ch: char)
    requires Without(stack, ch) && Without(parts, ch) && ch != '.'
    ensures Without(Resolve(stack, parts, false), ch)
    decreases parts
  {
    if parts != [] {
      ResolveWithout(PushPart(stack, parts[0], false), parts[1..], ch);
    }
  }

  lemma {:induction false} JoinWithout(parts: seq<string>, ch: char)
    requires |parts| > 0 && Without(parts, ch) && ch != '/'
    ensures ch !in Join(parts)
  {
    if |parts| > 1 {
      JoinWithout(parts[1..], ch);
    }
  }

  lemma CleanWithout(path: string, ch: char)
    requires !IsAbs(path) && ch !in path && ch != '.' && ch != '/'
    ensures ch !in Clean(path)
  {
    var stack := Resolve([], Split(path), false);
    SplitWithout(path, ch);
    ResolveWithout([], Split(path), ch);
    if stack != [] {
      JoinWithout(stack, ch);
    }
  }

  /** For a prefix that the configuration accepts, only leaving the root can make the store refuse the key. */
  lemma AcceptedPrefixIff(prefix: string, owner: nat, id: string)
    requires ValidPrefix(prefix) && IsHex(id)
    ensures ValidKey(BuiltKey(prefix, owner, id)) <==> !Climbs(ServicePrefix(prefix))
  {
    BuiltKeyValidIff(prefix, owner, id);
    SingleCharacter(prefix, '\\');
    CleanWithout(ServicePrefix(prefix), '\\');
  }

  /** And that happens: the configuration accepts "..". */
  lemma DotDotIsRefused(owner: nat, id: string)
    requires IsHex(id)
    ensures ValidPrefix("..") && !ValidKey(BuiltKey("..", owner, id))
  {
    DotDotIsValid();
    assert ServicePrefix("..") == "..";
    AcceptedPrefixIff("..", owner, id);
  }

  /** With the prefix fixed, keys of different owners or ids differ. */
  lemma BuiltKeyInjective(prefix: string, owner: nat, id: string, owner': nat, id': string)
    requires IsHex(id) && IsHex(id')
    requires BuiltKey(prefix, owner, id) == BuiltKey(prefix, owner', id')
    ensures owner == owner' && id == id'
  {
    var kept := ServicePrefix(prefix);
    KeySegments(kept, owner, id);
    KeySegments(kept, owner', id');
    var parts := Split(ObjectKey(kept, owner, id));
    var n := |parts|;
    assert parts[n - 1] == id && parts[n - 1] == id';
    assert parts[n - 2] == Decimal(owner) && parts[n - 2] == Decimal(owner');
    ParseDecimal(owner);
    ParseDecimal(owner');
  }
}
