/** Refresh sessions as a concurrent protocol: logins, refreshes and logouts in any order. */
module Sessions {
  import opened Base

  type TokenId = string

  datatype Session = Session(
    serial: nat,                     // the table's id column
    user: int,
    hash: Bytes,
    expiresAt: int,
    revokedAt: Option<int>,
    replacedBy: Option<TokenId>)

  type Table = map<TokenId, Session>

  /** A generated session that is not stored yet. */
  datatype NewSession = NewSession(token: TokenId, user: int, hash: Bytes, expiresAt: int)

  // ----- The statements, as functions on the table -----

  function Insert(sessions: Table, serial: nat, issue: NewSession): Table {
    sessions[issue.token := Session(serial, issue.user, issue.hash, issue.expiresAt, None, None)]
  }

  /** The compare of the compare-and-set. */
  predicate Rotatable(sessions: Table, token: TokenId, now: int) {
    token in sessions && sessions[token].revokedAt.None? && sessions[token].expiresAt > now
  }

  function Supersede(sessions: Table, token: TokenId, replacement: TokenId, now: int): Table {
    if Rotatable(sessions, token, now)
    then sessions[token := sessions[token].(revokedAt := Some(now), replacedBy := Some(replacement))]
    else sessions
  }

  /** `COALESCE(revoked_at, NOW())`. */
  function Revoke(sessions: Table, token: TokenId, now: int): Table {
    if token in sessions && sessions[token].revokedAt.None?
    then sessions[token := sessions[token].(revokedAt := Some(now))]
    else sessions
  }

  // ----- The protocol -----

  /** Where one call of Refresh stands. */
  datatype RefreshPc =
    | Passed(token: TokenId, user: int)                     // the session was read and checked
    | Prepared(token: TokenId, replacement: NewSession)     // the new pair is generated
    | Rotated(token: TokenId)
    | Refused

  datatype State = State(
    sessions: Table,
    nextSerial: nat,
    issued: set<TokenId>,        // token ids generated so far
    now: int,
    refreshes: seq<RefreshPc>,
    rotations: seq<TokenId>)     // tokens rotated so far; no step reads it

  datatype Step =
    | Login(issue: NewSession, ok: bool)
    | BeginRefresh(token: TokenId, hash: Bytes)
    | Prepare(i: nat, replacement: NewSession, ok: bool)
    | Rotate(i: nat, ok: bool)
    | Abandon(i: nat)
    | Logout(token: TokenId)
    | Tick(elapsed: nat)

  function Initial(): State {
    State(map[], 0, {}, 0, [], [])
  }

  predicate Enabled(s: State, step: Step) {
    match step
    case Login(issue, _) => issue.token !in s.issued
    case BeginRefresh(_, _) => true
    case Prepare(i, replacement, _) =>
      i < |s.refreshes| && s.refreshes[i].Passed? && replacement.token !in s.issued
      && replacement.user == s.refreshes[i].user
    case Rotate(i, _) => i < |s.refreshes| && s.refreshes[i].Prepared?
    case Abandon(i) => i < |s.refreshes|
    case Logout(_) => true
    case Tick(_) => true
  }

  /** The checks of Refresh on the session that it read. */
  predicate Admissible(s: State, token: TokenId, hash: Bytes) {
    Rotatable(s.sessions, token, s.now) && s.sessions[token].hash == hash
  }

  function Apply(s: State, step: Step): State
    requires Enabled(s, step)
  {
    match step
    case Login(issue, ok) =>
      var s' := s.(issued := s.issued + {issue.token}, nextSerial := s.nextSerial + 1);
      if ok then s'.(sessions := Insert(s.sessions, s.nextSerial, issue)) else s'
    case BeginRefresh(token, hash) =>
      s.(refreshes := s.refreshes +
           [if Admissible(s, token, hash) then Passed(token, s.sessions[token].user) else Refused])
    case Prepare(i, replacement, ok) =>
      if ok
      then s.(issued := s.issued + {replacement.token},
              refreshes := s.refreshes[i := Prepared(s.refreshes[i].token, replacement)])
      else s.(refreshes := s.refreshes[i := Refused])
    case Rotate(i, ok) =>
      var pc := s.refreshes[i];
      if ok && Rotatable(s.sessions, pc.token, s.now)
      then s.(sessions :=
                Insert(Supersede(s.sessions, pc.token, pc.replacement.token, s.now), s.nextSerial, pc.replacement),
              nextSerial := s.nextSerial + 1,
              refreshes := s.refreshes[i := Rotated(pc.token)],
              rotations := s.rotations + [pc.token])
      else s.(refreshes := s.refreshes[i := Refused], nextSerial := s.nextSerial + 1)
    case Abandon(i) =>
      if s.refreshes[i].Rotated? then s else s.(refreshes := s.refreshes[i := Refused])
    case Logout(token) => s.(sessions := Revoke(s.sessions, token, s.now))
    case Tick(elapsed) => s.(now := s.now + elapsed)
  }

  predicate Run(s: State, steps: seq<Step>) {
    steps == [] ||
    (var n := |steps| - 1;
     Run(s, steps[..n]) && Enabled(After(s, steps[..n]), steps[n]))
  }

  function After(s: State, steps: seq<Step>): State {
    if steps == [] then s
    else
      var n := |steps| - 1;
      var s' := After(s, steps[..n]);
      if Enabled(s', steps[n]) then Apply(s', steps[n]) else s'
  }

  lemma RunExtends(s: State, steps: seq<Step>, step: Step)
    requires Run(s, steps) && Enabled(After(s, steps), step)
    ensures Run(s, steps + [step]) && After(s, steps + [step]) == Apply(After(s, steps), step)
  {
  }

  // ----- Chains -----

  predicate SameLink(a: Session, b: Session) {
    a.replacedBy.Some? && a.replacedBy == b.replacedBy
  }

  /** A link goes forward, to an existing session of the same user, from a revoked session. */
  predicate LinkForward(sessions: Table, session: Session) {
    session.replacedBy.Some? ==>
      && session.replacedBy.value in sessions
      && sessions[session.replacedBy.value].serial > session.serial
      && sessions[session.replacedBy.value].user == session.user
      && session.revokedAt.Some?
  }

  ghost predicate Linked(sessions: Table, bound: nat) {
    && (forall t :: t in sessions ==> sessions[t].serial < bound && LinkForward(sessions, sessions[t]))
    && (forall t, t' :: t in sessions && t' in sessions && SameLink(sessions[t], sessions[t']) ==> t == t')
  }

  /** The end of the chain that a session is in. */
  ghost function Tail(sessions: Table, bound: nat, token: TokenId): (tail: TokenId)
    requires Linked(sessions, bound) && token in sessions
    ensures tail in sessions && sessions[tail].replacedBy.None? && sessions[tail].user == sessions[token].user
    ensures tail != token ==> sessions[token].revokedAt.Some?
    decreases bound - sessions[token].serial
  {
    match sessions[token].replacedBy
    case None => token
    case Some(next) => Tail(sessions, bound, next)
  }

  predicate IsPath(sessions: Table, path: seq<TokenId>) {
    && (forall i :: 0 <= i < |path| ==> path[i] in sessions)
    && (forall i :: 0 <= i < |path| - 1 ==> sessions[path[i]].replacedBy == Some(path[i + 1]))
  }

  // ----- The invariant -----

  ghost predicate RefreshSound(s: State, pc: RefreshPc) {
    match pc
    case Passed(token, user) => token in s.sessions && s.sessions[token].user == user
    case Prepared(token, replacement) =>
      && token in s.sessions && s.sessions[token].user == replacement.user
      && replacement.token in s.issued && replacement.token !in s.sessions
    case _ => true
  }

  ghost predicate Sound(s: State) {
    && Linked(s.sessions, s.nextSerial)
    && s.sessions.Keys <= s.issued
    && (forall i :: 0 <= i < |s.refreshes| ==> RefreshSound(s, s.refreshes[i]))
    && ReplacementsDistinct(s)
    && RotationsDistinct(s)
  }

  /** Only revocation and link of a session ever change, and not once it is revoked. */
  predicate Evolves(s: State, s': State) {
    forall t :: t in s.sessions ==>
      && t in s'.sessions
      && s'.sessions[t] ==
           s.sessions[t].(revokedAt := s'.sessions[t].revokedAt, replacedBy := s'.sessions[t].replacedBy)
      && (s.sessions[t].revokedAt.Some? ==> s'.sessions[t] == s.sessions[t])
  }

  lemma StepEvolves(s: State, step: Step)
    requires Sound(s) && Enabled(s, step)
    ensures Evolves(s, Apply(s, step))
  {
  }

  lemma RotationKeepsLinks(sessions: Table, bound: nat, token: TokenId, replacement: NewSession, now: int)
    requires Linked(sessions, bound) && Rotatable(sessions, token, now)
    requires replacement.token !in sessions && replacement.user == sessions[token].user
    ensures Linked(Insert(Supersede(sessions, token, replacement.token, now), bound, replacement), bound + 1)
  {
    var rotated := Insert(Supersede(sessions, token, replacement.token, now), bound, replacement);
    forall t | t in rotated ensures rotated[t].serial < bound + 1 && LinkForward(rotated, rotated[t]) {
      if t in sessions {
        assert LinkForward(sessions, sessions[t]);
      }
    }
    forall t, t' | t in rotated && t' in rotated && SameLink(rotated[t], rotated[t']) ensures t == t' {
      assert t in sessions && t' in sessions;
      assert LinkForward(sessions, sessions[t]) && LinkForward(sessions, sessions[t']);
      if t != token && t' != token {
        assert SameLink(sessions[t], sessions[t']);
      }
    }
  }

  lemma StepLinked(s: State, step: Step)
    requires Sound(s) && Enabled(s, step)
    ensures Linked(Apply(s, step).sessions, Apply(s, step).nextSerial)
  {
    match step
    case Rotate(i, ok) =>
      var pc := s.refreshes[i];
      assert RefreshSound(s, pc);
      if ok && Rotatable(s.sessions, pc.token, s.now) {
        RotationKeepsLinks(s.sessions, s.nextSerial, pc.token, pc.replacement, s.now);
      }
    case Logout(token) =>
      var sessions := Revoke(s.sessions, token, s.now);
      forall t, t' | t in sessions && t' in sessions && SameLink(sessions[t], sessions[t']) ensures t == t' {
        assert SameLink(s.sessions[t], s.sessions[t']);
      }
    case Login(issue, ok) =>
      var sessions := Apply(s, step).sessions;
      forall t, t' | t in sessions && t' in sessions && SameLink(sessions[t], sessions[t']) ensures t == t' {
        assert SameLink(s.sessions[t], s.sessions[t']);
      }
    case _ =>
  }

  lemma StepRefreshes(s: State, step: Step)
    requires Sound(s) && Enabled(s, step)
    ensures forall i :: 0 <= i < |Apply(s, step).refreshes| ==>
      RefreshSound(Apply(s, step), Apply(s, step).refreshes[i])
  {
  }

  ghost predicate ReplacementsDistinct(s: State) {
    forall i, j :: 0 <= i < j < |s.refreshes| && s.refreshes[i].Prepared? && s.refreshes[j].Prepared? ==>
      s.refreshes[i].replacement.token != s.refreshes[j].replacement.token
  }

  lemma StepReplacements(s: State, step: Step)
    requires Sound(s) && Enabled(s, step)
    ensures ReplacementsDistinct(Apply(s, step))
  {
  }

  ghost predicate RotationsDistinct(s: State) {
    && (forall k :: 0 <= k < |s.rotations| ==>
          s.rotations[k] in s.sessions && s.sessions[s.rotations[k]].replacedBy.Some?)
    && (forall k, l :: 0 <= k < l < |s.rotations| ==> s.rotations[k] != s.rotations[l])
  }

  lemma StepRotations(s: State, step: Step)
    requires Sound(s) && Enabled(s, step)
    ensures RotationsDistinct(Apply(s, step))
  {
  }

  lemma StepSound(s: State, step: Step)
    requires Sound(s) && Enabled(s, step)
    ensures Sound(Apply(s, step))
  {
    StepLinked(s, step);
    StepRefreshes(s, step);
    StepReplacements(s, step);
    StepRotations(s, step);
    if step.Rotate? {
      assert RefreshSound(s, s.refreshes[step.i]);
    }
  }

  lemma {:induction false} SoundAlways(steps: seq<Step>)
    requires Run(Initial(), steps)
    ensures Sound(After(Initial(), steps))
  {
    if steps != [] {
      var n := |steps| - 1;
      SoundAlways(steps[..n]);
      StepSound(After(Initial(), steps[..n]), steps[n]);
    }
  }

  // ----- Chains over every run -----

  lemma {:induction false} PathClimbs(sessions: Table, bound: nat, path: seq<TokenId>, i: nat, j: nat)
    requires Linked(sessions, bound) && IsPath(sessions, path) && i < j < |path|
    ensures sessions[path[i]].serial < sessions[path[j]].serial
    ensures sessions[path[i]].user == sessions[path[j]].user
    ensures sessions[path[i]].revokedAt.Some?
  {
    assert sessions[path[j - 1]].replacedBy == Some(path[j]);
    if i < j - 1 {
      PathClimbs(sessions, bound, path, i, j - 1);
    }
  }

  /** Along any chain of links: no session comes twice, all belong to one user, and all but the last are revoked. */
  lemma ChainsAreChains(steps: seq<Step>, path: seq<TokenId>, i: nat, j: nat)
    requires Run(Initial(), steps) && IsPath(After(Initial(), steps).sessions, path) && i < j < |path|
    ensures
      var sessions := After(Initial(), steps).sessions;
      path[i] != path[j] && sessions[path[i]].user == sessions[path[j]].user && sessions[path[i]].revokedAt.Some?
  {
    var s := After(Initial(), steps);
    SoundAlways(steps);
    PathClimbs(s.sessions, s.nextSerial, path, i, j);
  }

  /** Links name existing sessions, and no two sessions link to the same one. */
  lemma LinksAreInjective(steps: seq<Step>, t: TokenId, t': TokenId)
    requires Run(Initial(), steps)
    requires t in After(Initial(), steps).sessions && t' in After(Initial(), steps).sessions
    ensures
      var sessions := After(Initial(), steps).sessions;
      sessions[t].replacedBy.Some? ==>
        && sessions[t].replacedBy.value in sessions
        && (sessions[t].replacedBy == sessions[t'].replacedBy ==> t == t')
  {
    SoundAlways(steps);
  }

  /** The session is in the chain that ends with `tail`. */
  ghost predicate InChain(s: State, t: TokenId, tail: TokenId) {
    Linked(s.sessions, s.nextSerial) && t in s.sessions && Tail(s.sessions, s.nextSerial, t) == tail
  }

  /** Every session is in one chain; of a chain at most one session is unrevoked, and that is its tail. */
  lemma OnlyTailLive(steps: seq<Step>, t: TokenId) returns (tail: TokenId)
    requires Run(Initial(), steps) && t in After(Initial(), steps).sessions
    ensures
      var s := After(Initial(), steps);
      && InChain(s, t, tail)
      && s.sessions[tail].replacedBy.None? && s.sessions[tail].user == s.sessions[t].user
      && (forall t' :: InChain(s, t', tail) && s.sessions[t'].revokedAt.None? ==> t' == tail)
  {
    SoundAlways(steps);
    var s := After(Initial(), steps);
    tail := Tail(s.sessions, s.nextSerial, t);
  }

  /** Each token is rotated at most once, by whichever refresh comes first. */
  lemma OneRotationPerToken(steps: seq<Step>, k: nat, l: nat)
    requires Run(Initial(), steps) && k < l < |After(Initial(), steps).rotations|
    ensures After(Initial(), steps).rotations[k] != After(Initial(), steps).rotations[l]
  {
    SoundAlways(steps);
  }

  /** The step rotates some token, and this is the new one. */
  predicate RotatesTo(s: State, step: Step, token: TokenId, replacement: TokenId) {
    step.Rotate? && step.ok && step.i < |s.refreshes| && s.refreshes[step.i].Prepared?
    && s.refreshes[step.i].token == token && s.refreshes[step.i].replacement.token == replacement
    && Rotatable(s.sessions, token, s.now)
  }

  /** A step moves the end of a chain only by rotating that end. */
  lemma {:induction false} StepTail(s: State, step: Step, t: TokenId)
    requires Sound(s) && Enabled(s, step) && t in s.sessions
    requires Sound(Apply(s, step)) && t in Apply(s, step).sessions
    ensures
      var s' := Apply(s, step);
      var tail, tail' := Tail(s.sessions, s.nextSerial, t), Tail(s'.sessions, s'.nextSerial, t);
      tail' == tail || RotatesTo(s, step, tail, tail')
    decreases s.nextSerial - s.sessions[t].serial
  {
    StepEvolves(s, step);
    if s.sessions[t].replacedBy.Some? {
      StepTail(s, step, s.sessions[t].replacedBy.value);
    } else if step.Rotate? {
      assert RefreshSound(s, s.refreshes[step.i]);
    }
  }

  /** A new session is not in the chain of a revoked tail. */
  lemma StepTailOld(s: State, step: Step, t: TokenId, tail: TokenId)
    requires Sound(s) && Enabled(s, step) && Sound(Apply(s, step))
    requires tail in s.sessions && s.sessions[tail].revokedAt.Some?
    requires t in Apply(s, step).sessions
    requires Tail(Apply(s, step).sessions, Apply(s, step).nextSerial, t) == tail
    ensures t in s.sessions && Tail(s.sessions, s.nextSerial, t) == tail
  {
    if t in s.sessions {
      StepTail(s, step, t);
      if step.Rotate? {
        assert RefreshSound(s, s.refreshes[step.i]);
      }
    }
  }

  /** The chain has ended: its tail is revoked. */
  ghost predicate Ended(s: State, tail: TokenId) {
    tail in s.sessions && s.sessions[tail].revokedAt.Some? && s.sessions[tail].replacedBy.None?
  }

  lemma StepKeepsEnded(s: State, step: Step, tail: TokenId)
    requires Sound(s) && Enabled(s, step) && Sound(Apply(s, step)) && Ended(s, tail)
    ensures Ended(Apply(s, step), tail)
    ensures forall t :: InChain(s, t, tail) <==> InChain(Apply(s, step), t, tail)
  {
    StepEvolves(s, step);
    forall t ensures InChain(s, t, tail) <==> InChain(Apply(s, step), t, tail) {
      if InChain(s, t, tail) {
        StepTail(s, step, t);
      }
      if InChain(Apply(s, step), t, tail) {
        StepTailOld(s, step, t, tail);
      }
    }
  }

  /**
   * Once the tail of a chain is revoked, then whatever happens next the chain keeps exactly
   * its members, and none of them is unrevoked or can be rotated again, not even by a
   * refresh that had already passed its checks.
   */
  lemma {:induction false} LogoutIsFinal(before: seq<Step>, after: seq<Step>, tail: TokenId)
    requires Run(Initial(), before + after) && Ended(After(Initial(), before), tail)
    ensures Run(Initial(), before)
    ensures
      var s, s' := After(Initial(), before), After(Initial(), before + after);
      && Ended(s', tail)
      && (forall t :: InChain(s, t, tail) <==> InChain(s', t, tail))
      && (forall t :: InChain(s', t, tail) ==>
            s'.sessions[t].revokedAt.Some? && !Rotatable(s'.sessions, t, s'.now))
  {
    if after == [] {
      assert before + after == before;
      SoundAlways(before);
    } else {
      var n := |after| - 1;
      var all := before + after;
      assert all[..|all| - 1] == before + after[..n] && all[|all| - 1] == after[n];
      LogoutIsFinal(before, after[..n], tail);
      SoundAlways(before + after[..n]);
      SoundAlways(before + after);
      StepKeepsEnded(After(Initial(), before + after[..n]), after[n], tail);
    }
  }

  /** After these steps, whatever happens next, no session of the chain is live. */
  ghost predicate EndedForGood(before: seq<Step>, tail: TokenId) {
    forall after: seq<Step> :: Run(Initial(), before + after) ==>
      forall t :: InChain(After(Initial(), before + after), t, tail) ==>
        After(Initial(), before + after).sessions[t].revokedAt.Some?
  }

  /**
   * Logging out with a token ends its chain for good exactly when the token is the last of the
   * chain or the last is revoked already: a token that was rotated cannot end its chain.
   */
  lemma LogoutEndsChainIff(steps: seq<Step>, token: TokenId, tail: TokenId)
    requires Run(Initial(), steps) && InChain(After(Initial(), steps), token, tail)
    ensures
      EndedForGood(steps + [Logout(token)], tail)
      <==> tail == token || After(Initial(), steps).sessions[tail].revokedAt.Some?
  {
    var s, before := After(Initial(), steps), steps + [Logout(token)];
    RunExtends(Initial(), steps, Logout(token));
    SoundAlways(steps);
    SoundAlways(before);
    LogoutKeepsTail(s, token, tail);
    if tail == token || s.sessions[tail].revokedAt.Some? {
      forall after: seq<Step>, t | Run(Initial(), before + after) && InChain(After(Initial(), before + after), t, tail)
        ensures After(Initial(), before + after).sessions[t].revokedAt.Some?
      {
        LogoutIsFinal(before, after, tail);
      }
    } else {
      assert before + [] == before;
    }
  }

  lemma LogoutKeepsTail(s: State, token: TokenId, tail: TokenId)
    requires Sound(s) && InChain(s, token, tail)
    ensures
      var s' := Apply(s, Logout(token));
      && Sound(s') && InChain(s', tail, tail)
      && (Ended(s', tail) <==> tail == token || s.sessions[tail].revokedAt.Some?)
  {
    StepSound(s, Logout(token));
    StepTail(s, Logout(token), token);
  }

  /** Over any continuation: revocation times and links, once set, never change; the rest of a session never does. */
  lemma {:induction false} SessionsEvolve(before: seq<Step>, after: seq<Step>)
    requires Run(Initial(), before + after)
    ensures Run(Initial(), before)
    ensures Evolves(After(Initial(), before), After(Initial(), before + after))
  {
    if after == [] {
      assert before + after == before;
    } else {
      var n := |after| - 1;
      var all := before + after;
      assert all[..|all| - 1] == before + after[..n] && all[|all| - 1] == after[n];
      SessionsEvolve(before, after[..n]);
      SoundAlways(before + after[..n]);
      StepEvolves(After(Initial(), before + after[..n]), after[n]);
    }
  }
}
