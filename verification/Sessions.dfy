/** SessionService: refresh-token matching, rotation, and the revoke family. */
module Sessions {
  import opened Prelude

  const HASH_PREFIX: string := "hmac-sha256:"

  /** A stored session; the stored token is a hash, or the token itself in legacy rows. */
  datatype Session = Session(identityId: string, refreshToken: string, revoked: bool, expiresAt: int, lastUsedAt: int)

  type Table = map<string, Session>

  datatype SessionError = NotFound | AlreadyRevoked | AlreadyExpired | Unauthorized

  // ---------------------------------------------------------------- token matching

  function HashRefreshToken(hmac: string -> string, token: string): string {
    HASH_PREFIX + hmac(token)
  }

  /** The comparison in memory. */
  function RefreshTokenMatches(hmac: string -> string, stored: string, presented: string): bool {
    stored == if HASH_PREFIX <= stored then HashRefreshToken(hmac, presented) else presented
  }

  /** The condition in the database. */
  predicate TokenCondition(hmac: string -> string, stored: string, token: string) {
    stored == HashRefreshToken(hmac, token) || (stored == token && !(HASH_PREFIX <= stored))
  }

  /** The stored text stands for this token: its hash, or a legacy plain token. */
  predicate StandsFor(hmac: string -> string, stored: string, token: string) {
    stored == HashRefreshToken(hmac, token) || (stored == token && !(HASH_PREFIX <= token))
  }

  ghost predicate Injective(f: string -> string) {
    forall x, y :: f(x) == f(y) ==> x == y
  }

  /** Memory and database accept the same tokens, for hashed and for legacy rows. */
  lemma MatchIsCondition(hmac: string -> string, stored: string, token: string)
    ensures RefreshTokenMatches(hmac, stored, token) <==> TokenCondition(hmac, stored, token)
  {
    assert HASH_PREFIX <= HashRefreshToken(hmac, token);
  }

  /** A stored text that stands for one token accepts that token and no other. */
  lemma AcceptsOnlyItsToken(hmac: string -> string, stored: string, token: string, presented: string)
    requires Injective(hmac) && StandsFor(hmac, stored, token)
    ensures TokenCondition(hmac, stored, presented) <==> presented == token
  {
    assert HASH_PREFIX <= HashRefreshToken(hmac, token) && HASH_PREFIX <= HashRefreshToken(hmac, presented);
    assert HashRefreshToken(hmac, token)[|HASH_PREFIX|..] == hmac(token);
    assert HashRefreshToken(hmac, presented)[|HASH_PREFIX|..] == hmac(presented);
  }

  // ---------------------------------------------------------------- updates of many rows

  predicate Usable(s: Session, now: int) {
    !s.revoked && now < s.expiresAt
  }

  /** updateMany with data { revoked: true } on the given rows. */
  function Revoked(t: Table, ids: set<string>): Table {
    map id | id in t :: if id in ids then t[id].(revoked := true) else t[id]
  }

  class SessionService {
    var sessions: Table
    const hmac: string -> string

    constructor (hmac: string -> string)
      ensures sessions == map[] && this.hmac == hmac
    {
      sessions, this.hmac := map[], hmac;
    }

    method Create(id: string, identityId: string, refreshToken: string, expiresAt: int, now: int)
      requires id !in sessions
      modifies this
      ensures id in sessions && sessions == old(sessions)[id := sessions[id]]
      ensures sessions[id].identityId == identityId && sessions[id].expiresAt == expiresAt && !sessions[id].revoked
      ensures HASH_PREFIX <= sessions[id].refreshToken &&
              RefreshTokenMatches(hmac, sessions[id].refreshToken, refreshToken)
    {
      MatchIsCondition(hmac, HashRefreshToken(hmac, refreshToken), refreshToken);
      sessions := sessions[id := Session(identityId, HashRefreshToken(hmac, refreshToken), false, expiresAt, now)];
    }

    method FindValidSessionById(sessionId: string, identityId: string, refreshToken: string, now: int)
      returns (r: Option<string>)
      ensures r == Some(sessionId) || r == None
      ensures r.Some? <==>
                && sessionId in sessions && sessions[sessionId].identityId == identityId
                && Usable(sessions[sessionId], now)
                && TokenCondition(hmac, sessions[sessionId].refreshToken, refreshToken)
    {
      if sessionId !in sessions {
        return None;
      }
      var s := sessions[sessionId];
      MatchIsCondition(hmac, s.refreshToken, refreshToken);
      if s.identityId != identityId || s.revoked || s.expiresAt <= now ||
         !RefreshTokenMatches(hmac, s.refreshToken, refreshToken) {
        return None;
      }
      return Some(sessionId);
    }

    /** Compare-and-set: the token is replaced only if the row still accepts the current one. */
    method RotateRefreshToken(sessionId: string, current: string, next: string, now: int) returns (ok: bool)
      modifies this
      ensures ok <==> sessionId in old(sessions) && Usable(old(sessions)[sessionId], now) &&
                      RefreshTokenMatches(hmac, old(sessions)[sessionId].refreshToken, current)
      ensures !ok ==> sessions == old(sessions)
      ensures ok ==>
                && sessionId in sessions && sessions == old(sessions)[sessionId := sessions[sessionId]]
                && sessions[sessionId].(refreshToken := "") ==
                   old(sessions)[sessionId].(refreshToken := "", lastUsedAt := now)
                && HASH_PREFIX <= sessions[sessionId].refreshToken
                && RefreshTokenMatches(hmac, sessions[sessionId].refreshToken, next)
    {
      ok := sessionId in sessions && Usable(sessions[sessionId], now) &&
            TokenCondition(hmac, sessions[sessionId].refreshToken, current);
      if sessionId in sessions {
        MatchIsCondition(hmac, sessions[sessionId].refreshToken, current);
      }
      if ok {
        MatchIsCondition(hmac, HashRefreshToken(hmac, next), next);
        sessions := sessions[sessionId :=
            sessions[sessionId].(refreshToken := HashRefreshToken(hmac, next), lastUsedAt := now)];
      }
    }

    method Revoke(sessionId: string) returns (r: Result<(), SessionError>)
      modifies this
      ensures r.Success? <==> sessionId in old(sessions)
      ensures sessions == Revoked(old(sessions), {sessionId})
    {
      if sessionId !in sessions {
        assert sessions == Revoked(sessions, {sessionId});
        return Failure(NotFound);
      }
      sessions := sessions[sessionId := sessions[sessionId].(revoked := true)];
      return Success(());
    }

    /** Revokes every session of the identity, expired or not; the count is what was flipped. */
    method RevokeAll(identityId: string) returns (count: nat)
      modifies this
      ensures forall id :: id in sessions && sessions[id].identityId == identityId ==> sessions[id].revoked
      ensures var flipped := set id | id in old(sessions) && old(sessions)[id].identityId == identityId &&
                                      !old(sessions)[id].revoked;
              sessions == Revoked(old(sessions), flipped) && count == |flipped|
    {
      var flipped := set id | id in sessions && sessions[id].identityId == identityId && !sessions[id].revoked;
      sessions := Revoked(sessions, flipped);
      count := |flipped|;
    }

    method RevokeUserSession(identityId: string, sessionId: string, now: int) returns (r: Result<(), SessionError>)
      modifies this
      ensures r.Success? <==> sessionId in old(sessions) && old(sessions)[sessionId].identityId == identityId &&
                              Usable(old(sessions)[sessionId], now)
      ensures sessions == if r.Success? then Revoked(old(sessions), {sessionId}) else old(sessions)
      ensures r.Failure? ==>
                r.error == if sessionId !in sessions || sessions[sessionId].identityId != identityId then NotFound
                           else if sessions[sessionId].revoked then AlreadyRevoked else AlreadyExpired
    {
      if sessionId !in sessions || sessions[sessionId].identityId != identityId {
        return Failure(NotFound);
      }
      if sessions[sessionId].revoked {
        return Failure(AlreadyRevoked);
      }
      if sessions[sessionId].expiresAt <= now {
        return Failure(AlreadyExpired);
      }
      sessions := Revoked(sessions, {sessionId});
      return Success(());
    }

    /** Called from a usable session, leaves the identity with no usable session at all. */
    method RevokeAllUserSessions(identityId: string, currentId: string, now: int) returns (r: Result<nat, SessionError>)
      modifies this
      ensures r.Success? <==> currentId in old(sessions) && old(sessions)[currentId].identityId == identityId &&
                              Usable(old(sessions)[currentId], now)
      ensures r.Failure? ==> sessions == old(sessions)
      ensures r.Success? ==>
                && (forall id :: id in sessions && sessions[id].identityId == identityId ==> !Usable(sessions[id], now))
                && var flipped := UsableOthers(old(sessions), identityId, currentId, now) + {currentId};
                   sessions == Revoked(old(sessions), flipped) && r.value == |flipped|
    {
      if currentId !in sessions || sessions[currentId].identityId != identityId || !Usable(sessions[currentId], now) {
        return Failure(Unauthorized);
      }
      var flipped := set id | id in sessions && sessions[id].identityId == identityId && Usable(sessions[id], now);
      assert flipped == UsableOthers(sessions, identityId, currentId, now) + {currentId};
      sessions := Revoked(sessions, flipped);
      return Success(|flipped|);
    }

    /** After success the calling session is the identity's only usable one. */
    method RevokeOtherSessions(identityId: string, currentId: string, now: int) returns (r: Result<nat, SessionError>)
      modifies this
      ensures r.Success? <==> currentId in old(sessions) && old(sessions)[currentId].identityId == identityId &&
                              Usable(old(sessions)[currentId], now)
      ensures r.Failure? ==> sessions == old(sessions)
      ensures r.Success? ==>
                && (forall id :: id in sessions && sessions[id].identityId == identityId ==>
                      (Usable(sessions[id], now) <==> id == currentId))
                && var flipped := UsableOthers(old(sessions), identityId, currentId, now);
                   sessions == Revoked(old(sessions), flipped) && r.value == |flipped|
    {
      if currentId !in sessions || sessions[currentId].identityId != identityId || !Usable(sessions[currentId], now) {
        return Failure(Unauthorized);
      }
      var flipped := UsableOthers(sessions, identityId, currentId, now);
      sessions := Revoked(sessions, flipped);
      return Success(|flipped|);
    }
  }

  function UsableOthers(t: Table, identityId: string, currentId: string, now: int): set<string> {
    set id | id in t && t[id].identityId == identityId && id != currentId && Usable(t[id], now)
  }
}
