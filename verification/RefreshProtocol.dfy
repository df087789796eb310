/**
 * Overlapping refresh calls. A call first finds the session by the presented token, then
 * draws a fresh token, then rotates; between these steps other calls rotate and sessions are
 * revoked. Tokens carry a random id, so a drawn token was never seen before.
 */
module RefreshProtocol {
  import opened Sessions

  /** A refresh that has found its session. */
  datatype Found = Found(sessionId: string, presented: string)

  /** `first` is the token each session started with, `rotations` its successful rotations (used, drawn). */
  datatype State = State(
    now: int,
    sessions: Table,
    pending: map<nat, Found>,
    seen: set<string>,
    first: map<string, string>,
    rotations: map<string, seq<(string, string)>>)

  datatype Step =
    | Tick(ticks: nat)
    | Login(sessionId: string, identityId: string, token: string, expiresAt: int)
    | Find(call: nat, sessionId: string, identityId: string, presented: string)
    | Rotate(call: nat, drawn: string)
    | Revoke(ids: set<string>)

  /** The compare-and-set of the call would find its row. */
  predicate Rotates(hmac: string -> string, s: State, call: nat)
    requires call in s.pending
  {
    var id := s.pending[call].sessionId;
    && id in s.sessions && id in s.rotations && Usable(s.sessions[id], s.now)
    && TokenCondition(hmac, s.sessions[id].refreshToken, s.pending[call].presented)
  }

  function Rotated(hmac: string -> string, s: State, f: Found, drawn: string): State
    requires f.sessionId in s.sessions && f.sessionId in s.rotations
  {
    var row := s.sessions[f.sessionId].(refreshToken := HashRefreshToken(hmac, drawn), lastUsedAt := s.now);
    s.(sessions := s.sessions[f.sessionId := row],
       rotations := s.rotations[f.sessionId := s.rotations[f.sessionId] + [(f.presented, drawn)]])
  }

  function Next(hmac: string -> string, s: State, step: Step): State {
    match step
    case Tick(ticks) => s.(now := s.now + ticks)
    case Login(id, identityId, token, expiresAt) =>
      if id in s.sessions || token in s.seen then s
      else s.(sessions := s.sessions[id := Session(identityId, HashRefreshToken(hmac, token), false, expiresAt, s.now)],
              seen := s.seen + {token}, first := s.first[id := token], rotations := s.rotations[id := []])
    case Find(call, id, identityId, presented) =>
      if id in s.sessions && s.sessions[id].identityId == identityId && Usable(s.sessions[id], s.now) &&
         RefreshTokenMatches(hmac, s.sessions[id].refreshToken, presented)
      then s.(pending := s.pending[call := Found(id, presented)]) else s
    case Rotate(call, drawn) =>
      if call !in s.pending || drawn in s.seen then s
      else
        var t := s.(pending := s.pending - {call}, seen := s.seen + {drawn});
        if Rotates(hmac, s, call) then Rotated(hmac, t, s.pending[call], drawn) else t
    case Revoke(ids) => s.(sessions := Revoked(s.sessions, ids))
  }

  function Run(hmac: string -> string, s: State, steps: seq<Step>): State
    decreases |steps|
  {
    if steps == [] then s else Run(hmac, Next(hmac, s, steps[0]), steps[1..])
  }

  /** All tokens a session has had, in order; the last one is current. */
  function Tokens(first: string, rotations: seq<(string, string)>): seq<string> {
    [first] + seq(|rotations|, i requires 0 <= i < |rotations| => rotations[i].1)
  }

  /** Rotation i uses the token that rotation i - 1 drew; the first one uses the first token. */
  predicate LinkedAt(first: string, rotations: seq<(string, string)>, i: nat)
    requires i < |rotations|
  {
    rotations[i].0 == if i == 0 then first else rotations[i - 1].1
  }

  ghost predicate Distinct(tokens: seq<string>) {
    forall i, j :: 0 <= i < j < |tokens| ==> tokens[i] != tokens[j]
  }

  /** The rotations form one chain over tokens of which no two are equal. */
  ghost predicate IsChain(first: string, rotations: seq<(string, string)>) {
    Distinct(Tokens(first, rotations)) && forall i | 0 <= i < |rotations| :: LinkedAt(first, rotations, i)
  }

  function Current(s: State, id: string): string
    requires id in s.first && id in s.rotations
  {
    Tokens(s.first[id], s.rotations[id])[|s.rotations[id]|]
  }

  ghost predicate SessionOk(hmac: string -> string, s: State, id: string) {
    && id in s.first && id in s.rotations && id in s.sessions
    && IsChain(s.first[id], s.rotations[id])
    && StandsFor(hmac, s.sessions[id].refreshToken, Current(s, id))
    && (forall x :: x in Tokens(s.first[id], s.rotations[id]) ==> x in s.seen)
  }

  ghost predicate Inv(hmac: string -> string, s: State) {
    forall id :: id in s.sessions ==> SessionOk(hmac, s, id)
  }

  lemma ChainExtends(first: string, rotations: seq<(string, string)>, used: string, drawn: string)
    requires IsChain(first, rotations) && used == Tokens(first, rotations)[|rotations|]
    requires drawn !in Tokens(first, rotations)
    ensures IsChain(first, rotations + [(used, drawn)])
    ensures Tokens(first, rotations + [(used, drawn)]) == Tokens(first, rotations) + [drawn]
  {
    var longer := rotations + [(used, drawn)];
    assert Tokens(first, longer) == Tokens(first, rotations) + [drawn];
    forall i | 0 <= i < |longer| ensures LinkedAt(first, longer, i) {
      assert i < |rotations| ==> LinkedAt(first, rotations, i);
    }
  }

  /** A session keeps its good standing while its row and its history stay as they are. */
  lemma UntouchedStaysOk(hmac: string -> string, s: State, t: State, id: string)
    requires SessionOk(hmac, s, id) && s.seen <= t.seen
    requires id in t.first && id in t.rotations && id in t.sessions
    requires t.first[id] == s.first[id] && t.rotations[id] == s.rotations[id]
    requires t.sessions[id].refreshToken == s.sessions[id].refreshToken
    ensures SessionOk(hmac, t, id)
  {
    assert Current(t, id) == Current(s, id);
  }

  lemma LoginIsOk(hmac: string -> string, s: State, step: Step)
    requires step.Login? && step.sessionId !in s.sessions && step.token !in s.seen
    ensures SessionOk(hmac, Next(hmac, s, step), step.sessionId)
  {
    assert Tokens(step.token, []) == [step.token];
  }

  lemma LoginKeepsInv(hmac: string -> string, s: State, step: Step)
    requires Inv(hmac, s) && step.Login? && step.sessionId !in s.sessions && step.token !in s.seen
    ensures Inv(hmac, Next(hmac, s, step))
  {
    var t := Next(hmac, s, step);
    LoginIsOk(hmac, s, step);
    forall id | id in s.sessions ensures SessionOk(hmac, t, id) {
      UntouchedStaysOk(hmac, s, t, id);
    }
  }

  predicate MayRotate(hmac: string -> string, s: State, call: nat, drawn: string) {
    call in s.pending && drawn !in s.seen && Rotates(hmac, s, call)
  }

  lemma RotateKeepsSession(hmac: string -> string, s: State, call: nat, drawn: string, id: string)
    requires Injective(hmac) && MayRotate(hmac, s, call, drawn) && SessionOk(hmac, s, id)
    ensures SessionOk(hmac, Next(hmac, s, Rotate(call, drawn)), id)
  {
    var f := s.pending[call];
    if id == f.sessionId {
      AcceptsOnlyItsToken(hmac, s.sessions[id].refreshToken, Current(s, id), f.presented);
      ChainExtends(s.first[id], s.rotations[id], Current(s, id), drawn);
    } else {
      UntouchedStaysOk(hmac, s, Next(hmac, s, Rotate(call, drawn)), id);
    }
  }

  lemma RotateKeepsInv(hmac: string -> string, s: State, call: nat, drawn: string)
    requires Injective(hmac) && Inv(hmac, s) && MayRotate(hmac, s, call, drawn)
    ensures Inv(hmac, Next(hmac, s, Rotate(call, drawn)))
  {
    forall id | id in s.sessions ensures SessionOk(hmac, Next(hmac, s, Rotate(call, drawn)), id) {
      RotateKeepsSession(hmac, s, call, drawn, id);
    }
  }

  /** Steps that write no token keep every session as it stands. */
  lemma QuietStepKeepsInv(hmac: string -> string, s: State, step: Step)
    requires Inv(hmac, s)
    requires step.Login? ==> step.sessionId in s.sessions || step.token in s.seen
    requires step.Rotate? ==> !MayRotate(hmac, s, step.call, step.drawn)
    ensures Inv(hmac, Next(hmac, s, step))
  {
    var t := Next(hmac, s, step);
    forall id | id in t.sessions ensures SessionOk(hmac, t, id) {
      UntouchedStaysOk(hmac, s, t, id);
    }
  }

  lemma NextKeepsInv(hmac: string -> string, s: State, step: Step)
    requires Injective(hmac) && Inv(hmac, s)
    ensures Inv(hmac, Next(hmac, s, step))
  {
    match step
    case Login(id, _, token, _) =>
      if id in s.sessions || token in s.seen {
        QuietStepKeepsInv(hmac, s, step);
      } else {
        LoginKeepsInv(hmac, s, step);
      }
    case Rotate(call, drawn) =>
      if MayRotate(hmac, s, call, drawn) {
        RotateKeepsInv(hmac, s, call, drawn);
      } else {
        QuietStepKeepsInv(hmac, s, step);
      }
    case _ => QuietStepKeepsInv(hmac, s, step);
  }

  lemma {:induction false} RunKeepsInv(hmac: string -> string, s: State, steps: seq<Step>)
    requires Injective(hmac) && Inv(hmac, s)
    ensures Inv(hmac, Run(hmac, s, steps))
    decreases |steps|
  {
    if steps != [] {
      NextKeepsInv(hmac, s, steps[0]);
      RunKeepsInv(hmac, Next(hmac, s, steps[0]), steps[1..]);
    }
  }

  /** A table from before hashing was introduced, or after: each row stands for some token. */
  ghost predicate Initial(hmac: string -> string, s: State) {
    && s.first.Keys == s.rotations.Keys == s.sessions.Keys
    && forall id :: id in s.sessions ==>
         s.rotations[id] == [] && s.first[id] in s.seen && StandsFor(hmac, s.sessions[id].refreshToken, s.first[id])
  }

  /** What rotation i used is token i, which is not the current one. */
  lemma UsedIsToken(first: string, rotations: seq<(string, string)>, i: nat)
    requires IsChain(first, rotations) && i < |rotations|
    ensures rotations[i].0 == Tokens(first, rotations)[i] != Tokens(first, rotations)[|rotations|]
  {
    assert LinkedAt(first, rotations, i);
  }

  /**
   * However refreshes, logins and revocations interleave, the successful rotations of a
   * session form one chain from its first token, each token is consumed at most once, and a
   * consumed token is accepted neither in memory nor in the database.
   */
  lemma RotationsFormOneChain(hmac: string -> string, s: State, steps: seq<Step>, id: string, i: nat)
    requires Injective(hmac) && Initial(hmac, s)
    requires id in Run(hmac, s, steps).sessions
    ensures var t := Run(hmac, s, steps);
            && id in t.first && id in t.rotations && IsChain(t.first[id], t.rotations[id])
            && (i < |t.rotations[id]| ==>
                  && !RefreshTokenMatches(hmac, t.sessions[id].refreshToken, t.rotations[id][i].0)
                  && !TokenCondition(hmac, t.sessions[id].refreshToken, t.rotations[id][i].0))
  {
    var t := Run(hmac, s, steps);
    assert Inv(hmac, s);
    RunKeepsInv(hmac, s, steps);
    assert SessionOk(hmac, t, id);
    if i < |t.rotations[id]| {
      UsedIsToken(t.first[id], t.rotations[id], i);
      MatchIsCondition(hmac, t.sessions[id].refreshToken, t.rotations[id][i].0);
      AcceptsOnlyItsToken(hmac, t.sessions[id].refreshToken, Current(t, id), t.rotations[id][i].0);
    }
  }

  /** A refresh that nothing disturbs rotates exactly if its session accepts the presented token. */
  lemma UndisturbedRefreshRotatesIff(hmac: string -> string, s: State, call: nat, id: string, identityId: string,
                                     presented: string, drawn: string)
    requires call !in s.pending && drawn !in s.seen && id in s.rotations
    ensures var t := Next(hmac, Next(hmac, s, Find(call, id, identityId, presented)), Rotate(call, drawn));
            id in t.rotations &&
            (t.rotations[id] == s.rotations[id] + [(presented, drawn)] <==>
             && id in s.sessions && s.sessions[id].identityId == identityId && Usable(s.sessions[id], s.now)
             && RefreshTokenMatches(hmac, s.sessions[id].refreshToken, presented))
  {
    var found := Next(hmac, s, Find(call, id, identityId, presented));
    assert |s.rotations[id] + [(presented, drawn)]| == |s.rotations[id]| + 1;
    if id in s.sessions {
      MatchIsCondition(hmac, s.sessions[id].refreshToken, presented);
    }
    if found.pending != s.pending {
      assert found.pending[call] == Found(id, presented) && Rotates(hmac, found, call);
    } else {
      assert call !in found.pending;
    }
  }

  /** A revoked session stays revoked and never rotates again. */
  lemma {:induction false} RevokedNeverRotates(hmac: string -> string, s: State, steps: seq<Step>, id: string)
    requires id in s.sessions && s.sessions[id].revoked && id in s.rotations
    ensures var t := Run(hmac, s, steps);
            id in t.sessions && t.sessions[id].revoked && id in t.rotations && t.rotations[id] == s.rotations[id]
    decreases |steps|
  {
    if steps != [] {
      RevokedNeverRotates(hmac, Next(hmac, s, steps[0]), steps[1..], id);
    }
  }

  // ---------------------------------------------------------------- refreshing goes on for as long as the session does

  /** One refresh after the other, each with the token that the one before drew. */
  function Refreshes(call: nat, id: string, identityId: string, last: string, drawn: seq<string>): seq<Step>
    decreases |drawn|
  {
    if drawn == [] then []
    else
      [Find(call, id, identityId, last), Rotate(call, drawn[0])] +
      Refreshes(call, id, identityId, drawn[0], drawn[1..])
  }

  function Pairs(last: string, drawn: seq<string>): seq<(string, string)>
    decreases |drawn|
  {
    if drawn == [] then [] else [(last, drawn[0])] + Pairs(drawn[0], drawn[1..])
  }

  /** The session is the identity's, usable, and holds the hash of its latest token. */
  ghost predicate SignedIn(hmac: string -> string, s: State, id: string, identityId: string, last: string) {
    && id in s.sessions && id in s.rotations && s.sessions[id].identityId == identityId
    && Usable(s.sessions[id], s.now) && s.sessions[id].refreshToken == HashRefreshToken(hmac, last)
  }

  lemma OneRefresh(hmac: string -> string, s: State, call: nat, id: string, identityId: string, last: string,
                   drawn: string)
    requires SignedIn(hmac, s, id, identityId, last) && call !in s.pending && drawn !in s.seen
    ensures var t := Next(hmac, Next(hmac, s, Find(call, id, identityId, last)), Rotate(call, drawn));
            && SignedIn(hmac, t, id, identityId, drawn) && t.pending == s.pending && t.seen == s.seen + {drawn}
            && t.rotations[id] == s.rotations[id] + [(last, drawn)] && t.now == s.now
            && t.sessions[id].(refreshToken := "", lastUsedAt := 0) ==
               s.sessions[id].(refreshToken := "", lastUsedAt := 0)
            && t.sessions[id].lastUsedAt == s.now
  {
    MatchIsCondition(hmac, s.sessions[id].refreshToken, last);
    assert s.pending[call := Found(id, last)] - {call} == s.pending;
  }

  lemma RunTwoFirst(hmac: string -> string, s: State, one: Step, two: Step, rest: seq<Step>)
    ensures Run(hmac, s, [one, two] + rest) == Run(hmac, Next(hmac, Next(hmac, s, one), two), rest)
  {
    var all := [one, two] + rest;
    assert all[1..] == [two] + rest && ([two] + rest)[1..] == rest;
    assert Run(hmac, s, all) == Run(hmac, Next(hmac, s, one), [two] + rest);
  }

  lemma PairsJoin(before: seq<(string, string)>, last: string, drawn: seq<string>)
    requires drawn != []
    ensures before + Pairs(last, drawn) == (before + [(last, drawn[0])]) + Pairs(drawn[0], drawn[1..])
  {
  }

  lemma FreshRest(seen: set<string>, drawn: seq<string>)
    requires drawn != [] && Distinct(drawn) && forall i :: 0 <= i < |drawn| ==> drawn[i] !in seen
    ensures Distinct(drawn[1..]) && forall i :: 0 <= i < |drawn[1..]| ==> drawn[1..][i] !in seen + {drawn[0]}
  {
    assert forall i :: 0 <= i < |drawn[1..]| ==> drawn[1..][i] == drawn[i + 1];
  }

  lemma {:induction false} RefreshesRotate(hmac: string -> string, s: State, call: nat, id: string,
                                           identityId: string, last: string, drawn: seq<string>)
    requires SignedIn(hmac, s, id, identityId, last) && call !in s.pending && Distinct(drawn)
    requires forall i :: 0 <= i < |drawn| ==> drawn[i] !in s.seen
    ensures var t := Run(hmac, s, Refreshes(call, id, identityId, last, drawn));
            id in t.rotations && t.rotations[id] == s.rotations[id] + Pairs(last, drawn)
    decreases |drawn|
  {
    if drawn == [] {
      assert s.rotations[id] + Pairs(last, drawn) == s.rotations[id];
    } else {
      var rest := Refreshes(call, id, identityId, drawn[0], drawn[1..]);
      var t := Next(hmac, Next(hmac, s, Find(call, id, identityId, last)), Rotate(call, drawn[0]));
      OneRefresh(hmac, s, call, id, identityId, last, drawn[0]);
      FreshRest(s.seen, drawn);
      RefreshesRotate(hmac, t, call, id, identityId, drawn[0], drawn[1..]);
      PairsJoin(s.rotations[id], last, drawn);
      RunTwoFirst(hmac, s, Find(call, id, identityId, last), Rotate(call, drawn[0]), rest);
    }
  }

  /**
   * A new session can be refreshed any number of times before it expires, each time with the token
   * that the refresh before drew, the first time with the token of the login.
   */
  lemma NewSessionRefreshes(hmac: string -> string, s: State, call: nat, id: string, identityId: string,
                            token: string, expiresAt: int, drawn: seq<string>)
    requires id !in s.sessions && token !in s.seen && s.now < expiresAt && call !in s.pending
    requires Distinct(drawn) && forall i :: 0 <= i < |drawn| ==> drawn[i] !in s.seen + {token}
    ensures var steps := [Login(id, identityId, token, expiresAt)] + Refreshes(call, id, identityId, token, drawn);
            var t := Run(hmac, s, steps);
            id in t.rotations && t.rotations[id] == Pairs(token, drawn)
  {
    var login, rest := Login(id, identityId, token, expiresAt), Refreshes(call, id, identityId, token, drawn);
    assert Next(hmac, s, login).seen == s.seen + {token};
    RefreshesRotate(hmac, Next(hmac, s, login), call, id, identityId, token, drawn);
    assert ([login] + rest)[1..] == rest;
  }
}
