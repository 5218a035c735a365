/** Login, refresh and logout as the service runs them, among steps of everyone else. */
module Auth {
  import opened Base
  import opened Sessions

  datatype AuthError = InvalidRefresh | DatabaseError | TokenFailed

  /** Which statements of a transaction go through. */
  datatype Transaction = Transaction(begin: bool, update: bool, insert: bool, commit: bool)

  predicate Committed(tx: Transaction) {
    tx.begin && tx.update && tx.insert && tx.commit
  }

  datatype Call = Call(env: seq<Step>, ok: bool)

  /** The refresh_sessions table. */
  class SessionRepository {
    var sessions: Table

    constructor ()
      ensures sessions == map[]
    {
      sessions := map[];
    }

    method CreateRefreshSession(serial: nat, issue: NewSession, ok: bool) returns (failure: Option<AuthError>)
      modifies this
      ensures failure == if ok then None else Some(DatabaseError)
      ensures sessions ==
        if ok
        then old(sessions)[issue.token := Session(serial, issue.user, issue.hash, issue.expiresAt, None, None)]
        else old(sessions)
    {
      if !ok {
        return Some(DatabaseError);
      }
      sessions := sessions[issue.token := Session(serial, issue.user, issue.hash, issue.expiresAt, None, None)];
      failure := None;
    }

    method GetByTokenId(token: TokenId, ok: bool) returns (r: Result<Session, AuthError>)
      ensures r == if !ok then Err(DatabaseError)
                   else if token in sessions then Ok(sessions[token])
                   else Err(InvalidRefresh)
    {
      if !ok {
        return Err(DatabaseError);
      }
      r := if token in sessions then Ok(sessions[token]) else Err(InvalidRefresh);
    }

    method RotateStatement(token: TokenId, replacement: TokenId, now: int) returns (affected: int)
      modifies this
      ensures sessions == Supersede(old(sessions), token, replacement, now)
      ensures affected == if Rotatable(old(sessions), token, now) then 1 else 0
    {
      affected := 0;
      if token in sessions && sessions[token].revokedAt.None? && sessions[token].expiresAt > now {
        var row := sessions[token].(revokedAt := Some(now), replacedBy := Some(replacement));
        sessions, affected := sessions[token := row], 1;
      }
    }

    method RevokeRefreshSession(token: TokenId, now: int, ok: bool) returns (failure: Option<AuthError>)
      modifies this
      ensures failure == if ok then None else Some(DatabaseError)
      ensures sessions == if ok then Revoke(old(sessions), token, now) else old(sessions)
    {
      if !ok {
        return Some(DatabaseError);
      }
      if token in sessions {
        var time := if sessions[token].revokedAt.Some? then sessions[token].revokedAt.value else now;
        sessions := sessions[token := sessions[token].(revokedAt := Some(time))];
        assert sessions == Revoke(old(sessions), token, now);
      }
      failure := None;
    }

    /** Both statements or neither: every early return rolls back. */
    method RotateRefreshSession(token: TokenId, replacement: NewSession, serial: nat, now: int, tx: Transaction)
      returns (failure: Option<AuthError>)
      modifies this
      ensures
        var table := old(sessions);
        var live := token in table && table[token].revokedAt.None? && table[token].expiresAt > now;
        && (failure.None? <==> tx.begin && tx.update && tx.insert && tx.commit && live)
        && (tx.begin && tx.update && !live ==> failure == Some(InvalidRefresh))
      ensures failure.Some? ==> sessions == old(sessions)
      ensures failure.None? ==>
        var r := replacement;
        var revoked := old(sessions)[token].(revokedAt := Some(now), replacedBy := Some(r.token));
        sessions == old(sessions)[token := revoked][r.token := Session(serial, r.user, r.hash, r.expiresAt, None, None)]
    {
      if !tx.begin {
        return Some(DatabaseError);
      }
      var rollback := sessions;
      if !tx.update {
        return Some(DatabaseError);
      }
      var affected := RotateStatement(token, replacement.token, now);
      if affected != 1 {
        sessions := rollback;
        return Some(InvalidRefresh);
      }
      var created := CreateRefreshSession(serial, replacement, tx.insert);
      if created.Some? {
        sessions := rollback;
        return created;
      }
      if !tx.commit {
        sessions := rollback;
        return Some(DatabaseError);
      }
      failure := None;
    }
  }

  /** Whose code is running: a refresh with its place in the protocol, or one that has drawn a token id. */
  datatype Actor = Issuing(token: TokenId) | Refreshing(i: nat, token: TokenId)

  predicate Foreign(me: Actor, step: Step) {
    match step
    case Login(issue, _) => issue.token != me.token
    case Prepare(i, replacement, _) => replacement.token != me.token && !(me.Refreshing? && i == me.i)
    case Rotate(i, _) => !(me.Refreshing? && i == me.i)
    case Abandon(i) => !(me.Refreshing? && i == me.i)
    case _ => true
  }

  predicate Undisturbed(me: Actor, s: State, s': State) {
    && |s.refreshes| <= |s'.refreshes|
    && (me.token !in s.issued ==> me.token !in s'.issued)
    && (me.Refreshing? && me.i < |s.refreshes| ==> s'.refreshes[me.i] == s.refreshes[me.i])
  }

  /** The token is revoked and linked to the replacement, which is stored, live, for the same user. */
  predicate Exchanged(s: State, token: TokenId, replacement: NewSession) {
    && token in s.sessions && replacement.token in s.sessions
    && s.sessions[token].revokedAt == Some(s.now) && s.sessions[token].expiresAt > s.now
    && s.sessions[token].replacedBy == Some(replacement.token)
    && s.sessions[token].user == replacement.user
    && (var r := replacement;
        s.sessions[r.token] == Session(s.sessions[r.token].serial, r.user, r.hash, r.expiresAt, None, None))
  }

  /** The tables differ at most in these two sessions. */
  predicate OnlyThese(sessions: Table, sessions': Table, token: TokenId, added: TokenId) {
    && token in sessions' && added in sessions'
    && sessions' == sessions[token := sessions'[token]][added := sessions'[added]]
  }

  /** The service's world: the table, the protocol state it is part of, and the token functions. */
  class AuthSystem {
    const verify: string -> Option<TokenId>   // ValidateRefreshToken
    const trim: string -> string
    const digest: string -> Bytes             // HashRefreshToken
    const repository: SessionRepository
    var state: State
    ghost var trace: seq<Step>

    constructor (verify: string -> Option<TokenId>, trim: string -> string, digest: string -> Bytes)
      ensures Valid() && fresh(repository) && state == Initial()
      ensures this.verify == verify && this.trim == trim && this.digest == digest
    {
      this.verify, this.trim, this.digest := verify, trim, digest;
      repository := new SessionRepository();
      state, trace := Initial(), [];
    }

    ghost predicate Reached()
      reads this
    {
      Run(Initial(), trace) && state == After(Initial(), trace)
    }

    ghost predicate Valid()
      reads this, repository
    {
      Reached() && repository.sessions == state.sessions
    }

    method Commit(step: Step)
      requires Reached() && Enabled(state, step) && repository.sessions == Apply(state, step).sessions
      modifies this
      ensures Valid() && state == Apply(old(state), step) && trace == old(trace) + [step]
    {
      RunExtends(Initial(), trace, step);
      state, trace := Apply(state, step), trace + [step];
    }

    method Interfere(me: Actor, env: seq<Step>)
      requires Valid()
      modifies this, repository
      ensures Valid() && old(trace) <= trace && Undisturbed(me, old(state), state)
      ensures env == [] ==> state == old(state)
    {
      for i := 0 to |env|
        invariant Valid() && old(trace) <= trace && Undisturbed(me, old(state), state)
        invariant i == 0 ==> state == old(state)
      {
        if Enabled(state, env[i]) && Foreign(me, env[i]) {
          repository.sessions := Apply(state, env[i]).sessions;
          Commit(env[i]);
        }
      }
    }

    /** Persist a freshly issued session (Register and Login). */
    method IssueAndPersist(issue: NewSession, call: Call) returns (failure: Option<AuthError>)
      requires Valid()
      // The drawn token id is fresh.
      requires issue.token !in state.issued
      modifies this, repository
      ensures Valid() && old(trace) <= trace
      ensures failure.None? <==> call.ok
      ensures failure.None? ==>
        && issue.token in state.sessions
        && var stored := state.sessions[issue.token];
           && stored.user == issue.user && stored.hash == issue.hash && stored.expiresAt == issue.expiresAt
           && stored.revokedAt.None? && stored.replacedBy.None?
      ensures call.env == [] ==>
        && (failure.None? ==> state.sessions == old(state.sessions)[issue.token := state.sessions[issue.token]])
        && (failure.Some? ==> state.sessions == old(state.sessions))
    {
      Interfere(Issuing(issue.token), call.env);
      failure := repository.CreateRefreshSession(state.nextSerial, issue, call.ok);
      Commit(Login(issue, call.ok));
    }

    /** The token passes every check of Refresh on it. */
    predicate Presents(token: string, s: State)
      reads this
    {
      verify(trim(token)).Some? &&
      (var id := verify(trim(token)).value;
       && id in s.sessions && s.sessions[id].hash == digest(token)
       && s.sessions[id].revokedAt.None? && s.sessions[id].expiresAt > s.now)
    }

    /** The token is read and checked; on success this refresh has a place in the protocol. */
    method Check(token: string, replacement: TokenId, call: Call) returns (r: Result<(nat, TokenId, int), AuthError>)
      requires Valid() && replacement !in state.issued
      modifies this, repository
      ensures Valid() && old(trace) <= trace && replacement !in state.issued
      ensures r.Ok? ==>
        && verify(trim(token)) == Some(r.value.1)
        && r.value.0 < |state.refreshes| && state.refreshes[r.value.0] == Passed(r.value.1, r.value.2)
        && Presents(token, state) && Admissible(state, r.value.1, digest(token))
        && r.value.2 == state.sessions[r.value.1].user
      ensures call.env == [] ==>
        && (r.Ok? <==> call.ok && Presents(token, old(state)))
        && state.sessions == old(state.sessions) && state.now == old(state.now)
    {
      var claims := verify(trim(token));
      if claims.None? {
        return Err(InvalidRefresh);
      }
      Interfere(Issuing(replacement), call.env);
      var id := claims.value;
      var session := repository.GetByTokenId(id, call.ok);
      if session.Err? {
        return Err(session.error);
      }
      if session.value.hash != digest(token) || session.value.revokedAt.Some? || session.value.expiresAt <= state.now {
        return Err(InvalidRefresh);
      }
      var i := |state.refreshes|;
      Commit(BeginRefresh(id, digest(token)));
      r := Ok((i, id, session.value.user));
    }

    /**
     * One refresh. When it succeeds the presented token, whose stored hash it matched, is
     * revoked and linked to the replacement, which is stored for the same user; when it fails
     * the replacement is not stored. Undisturbed, it succeeds exactly when the token passes
     * the checks, the user is active and every call goes through, and else changes no session.
     */
    method Refresh(token: string, pair: NewSession, active: bool, signed: bool, read: Call, user: Call, env: seq<Step>,
                   tx: Transaction)
      returns (r: Result<TokenId, AuthError>)
      requires Valid()
      // The drawn token id is fresh.
      requires pair.token !in state.issued
      modifies this, repository
      ensures Valid() && old(trace) <= trace
      ensures r.Ok? ==> r.value == pair.token && verify(trim(token)).Some?
      ensures r.Ok? ==>
        var id := verify(trim(token)).value;
        && id in state.sessions && state.sessions[id].hash == digest(token)
        && Exchanged(state, id, pair.(user := state.sessions[id].user))
      ensures r.Err? ==> pair.token !in state.sessions
      ensures read.env == user.env == env == [] ==>
        && (r.Ok? <==> Presents(token, old(state)) && read.ok && user.ok && active && signed && Committed(tx))
        && (r.Err? ==> state.sessions == old(state.sessions))
        && (r.Ok? ==> OnlyThese(old(state.sessions), state.sessions, verify(trim(token)).value, pair.token))
    {
      var checked := Check(token, pair.token, read);
      if checked.Err? {
        SoundAlways(trace);
        return Err(checked.error);
      }
      var i, id, owner := checked.value.0, checked.value.1, checked.value.2;
      ghost var before := trace;
      hide Run, After, Enabled, Apply;
      r := Renew(i, id, pair.(user := owner), active, signed, user, env, tx);
      if r.Ok? {
        HashStays(before, id);
      }
    }

    /** Look up the user, sign the new pair, rotate. */
    method Renew(i: nat, id: TokenId, replacement: NewSession, active: bool, signed: bool, user: Call, env: seq<Step>,
                 tx: Transaction)
      returns (r: Result<TokenId, AuthError>)
      requires Valid() && i < |state.refreshes| && state.refreshes[i] == Passed(id, replacement.user)
      requires replacement.token !in state.issued
      modifies this, repository
      ensures Valid() && old(trace) <= trace
      ensures r.Ok? ==> r.value == replacement.token && Exchanged(state, id, replacement)
      ensures r.Err? ==> replacement.token !in state.sessions
      ensures user.env == env == [] ==>
        && (r.Ok? <==>
              user.ok && active && signed && Committed(tx) && Rotatable(old(state.sessions), id, old(state.now)))
        && (r.Err? ==> state.sessions == old(state.sessions))
        && (r.Ok? ==> OnlyThese(old(state.sessions), state.sessions, id, replacement.token))
    {
      hide Run, After;
      Interfere(Refreshing(i, replacement.token), user.env);
      SoundAlways(trace);
      if !user.ok || !active {
        Commit(Abandon(i));
        return Err(if user.ok then InvalidRefresh else DatabaseError);
      }
      Commit(Prepare(i, replacement, signed));
      if !signed {
        return Err(TokenFailed);
      }
      r := Exchange(i, id, replacement, env, tx);
    }

    /** The rotation itself, after whatever happened since the check. */
    method Exchange(i: nat, id: TokenId, replacement: NewSession, env: seq<Step>, tx: Transaction)
      returns (r: Result<TokenId, AuthError>)
      requires Valid() && i < |state.refreshes| && state.refreshes[i] == Prepared(id, replacement)
      modifies this, repository
      ensures Valid() && old(trace) <= trace
      ensures r.Ok? ==> r.value == replacement.token && Exchanged(state, id, replacement)
      ensures r.Err? ==> replacement.token !in state.sessions
      ensures env == [] ==>
        && (r.Ok? <==> Committed(tx) && Rotatable(old(state.sessions), id, old(state.now)))
        && (r.Err? ==> state.sessions == old(state.sessions))
        && (r.Ok? ==> OnlyThese(old(state.sessions), state.sessions, id, replacement.token))
    {
      Interfere(Refreshing(i, ""), env);
      SoundAlways(trace);
      assert RefreshSound(state, state.refreshes[i]);
      var failure := repository.RotateRefreshSession(id, replacement, state.nextSerial, state.now, tx);
      Commit(Rotate(i, Committed(tx)));
      r := if failure.Some? then Err(failure.value) else Ok(replacement.token);
    }

    lemma HashStays(before: seq<Step>, id: TokenId)
      requires Valid() && before <= trace && id in After(Initial(), before).sessions
      ensures id in state.sessions && state.sessions[id].hash == After(Initial(), before).sessions[id].hash
    {
      assert before + trace[|before|..] == trace;
      SessionsEvolve(before, trace[|before|..]);
    }

    /** A logout of any validated token; an unknown one changes nothing. */
    method LogoutToken(token: string, call: Call) returns (failure: Option<AuthError>)
      requires Valid()
      modifies this, repository
      ensures Valid() && old(trace) <= trace
      ensures failure.None? <==> verify(trim(token)).Some? && call.ok
      ensures failure.None? ==>
        var id := verify(trim(token)).value;
        id in state.sessions ==> state.sessions[id].revokedAt.Some? && !Rotatable(state.sessions, id, state.now)
      ensures verify(trim(token)).None? ==> failure == Some(InvalidRefresh) && state == old(state)
      ensures call.env == [] ==>
        var sessions := old(state.sessions);
        && (failure.Some? ==> state.sessions == sessions)
        && (failure.None? ==>
              var id := verify(trim(token)).value;
              state.sessions ==
                if id in sessions && sessions[id].revokedAt.None?
                then sessions[id := sessions[id].(revokedAt := Some(old(state.now)))]
                else sessions)
    {
      var claims := verify(trim(token));
      if claims.None? {
        return Some(InvalidRefresh);
      }
      Interfere(Issuing(""), call.env);
      failure := repository.RevokeRefreshSession(claims.value, state.now, call.ok);
      if call.ok {
        Commit(Logout(claims.value));
      }
    }
  }
}
