/**
 * That the guards of onboarding can be met: a call that nothing disturbs takes effect, and an
 * account can go from its creation to COMPLETED.
 */
module OnboardingRuns {
  import opened Prelude
  import Text
  import Sessions
  import opened Credentials
  import opened CredentialProtocol

  lemma {:induction false} RunInTwo(s: State, one: seq<Step>, two: seq<Step>)
    ensures Run(s, one + two) == Run(Run(s, one), two)
    decreases |one|
  {
    if one == [] {
      assert one + two == two;
    } else {
      assert (one + two)[1..] == one[1..] + two;
      RunInTwo(Next(s, one[0]), one[1..], two);
    }
  }

  lemma RunThree(s: State, one: Step, two: Step, three: Step)
    ensures Run(s, [one, two, three]) == Next(Next(Next(s, one), two), three)
  {
    var a, b := Next(s, one), Next(Next(s, one), two);
    assert [one, two, three][1..] == [two, three] && [two, three][1..] == [three] && [three][1..] == [];
    assert Run(a, [two, three]) == Run(b, [three]);
    assert Run(b, [three]) == Run(Next(b, three), []);
  }

  /** The steps of one call; accepting an OTP means something to a phone verification only. */
  function Whole(call: nat, r: Request, drawn: string): seq<Step> {
    [Read(call, r), AcceptOtp(call), Write(call, drawn)]
  }

  /** `t` is `s` after call `call`, which commits `db` if there is something to commit. */
  ghost predicate Finished(s: State, t: State, call: nat, c: Call, drawn: string, db: Option<Db>) {
    && t.now == s.now && t.pending == s.pending && t.calls == s.calls + {call} && t.hashes == s.hashes + {drawn}
    && t.db == (if db.Some? then db.value else s.db) && t.log == (if db.Some? then s.log + [c] else s.log)
  }

  /** A call that nothing disturbs does exactly what its write does to what it has read. */
  lemma UndisturbedCallRuns(s: State, call: nat, r: Request, drawn: string)
    requires Reading(s.db, r).Some? && call !in s.calls && call !in s.pending && drawn !in s.hashes
    ensures var c := Reading(s.db, r).value;
            Finished(s, Run(s, Whole(call, r, drawn)), call, c, drawn, Writing(s.db, c, drawn, s.now))
  {
    var c := Reading(s.db, r).value;
    RunThree(s, Read(call, r), AcceptOtp(call), Write(call, drawn));
    assert s.pending[call := c] - {call} == s.pending;
  }

  /** Where the run stands: the account, its session, and which names are still free. */
  ghost predicate Stands(s: State, id: string, row: Identity, sessionId: string, expiresAt: int, n: nat,
                         drawn: seq<string>, k: nat)
    requires k <= |drawn|
  {
    && s.now == 0 && s.pending == map[] && s.db.identities == map[id := row]
    && s.db.sessions == map[sessionId := Sessions.Session(id, "", false, expiresAt, 0)]
    && (forall call :: call in s.calls ==> call < n)
    && (forall i :: k <= i < |drawn| ==> drawn[i] !in s.hashes)
  }

  ghost predicate AllDifferent(drawn: seq<string>) {
    forall i, j :: 0 <= i < j < |drawn| ==> drawn[i] != drawn[j]
  }

  /** One more call of the account commits and turns its row into `next`. */
  lemma OneMore(s: State, id: string, row: Identity, sessionId: string, expiresAt: int, n: nat, drawn: seq<string>,
                k: nat, r: Request, next: Identity)
    returns (steps: seq<Step>)
    requires k < |drawn| && AllDifferent(drawn) && Stands(s, id, row, sessionId, expiresAt, n, drawn, k)
    requires Reading(s.db, r).Some?
    requires var w := Writing(s.db, Reading(s.db, r).value, drawn[k], s.now);
             && w.Some? && w.value.identities == map[id := next]
             && w.value.sessions == s.db.sessions
    ensures Stands(Run(s, steps), id, next, sessionId, expiresAt, n + 1, drawn, k + 1)
  {
    steps := Whole(n, r, drawn[k]);
    UndisturbedCallRuns(s, n, r, drawn[k]);
  }

  lemma Opened(id: string, sessionId: string, expiresAt: int, until: int, drawn: seq<string>) returns (steps: seq<Step>)
    requires AllDifferent(drawn) && |drawn| == 7
    ensures Stands(Run(START, steps), id, Issued(drawn[0], drawn[1], until), sessionId, expiresAt, 0, drawn, 2)
  {
    var one := Happen(Create(id, drawn[0], drawn[1], until));
    var two := Happen(OpenSession(sessionId, Sessions.Session(id, "", false, expiresAt, 0)));
    steps := [one, two, Tick(0)];
    RunThree(START, one, two, Tick(0));
  }

  /** What the account holds at COMPLETED. */
  function CompletedRow(drawn: seq<string>, phone: string, pan: string): Identity
    requires |drawn| == 7
  {
    Identity(drawn[5], drawn[6], Some(Text.Trim(phone)), Some(Text.Code(pan)), true, Completed, true, Some(0), Some(0),
             None)
  }

  /** The session of the account stays its only one, so nothing is revoked but for the use of time. */
  lemma OnlySession(db: Db, id: string, sessionId: string, expiresAt: int)
    requires db.sessions == map[sessionId := Sessions.Session(id, "", false, expiresAt, 0)] && 0 < expiresAt
    ensures Live(db, id, sessionId, 0) && SignedOutElsewhere(db, id, sessionId, 0) == db.sessions
  {
    assert Elsewhere(db, id, sessionId, 0) == {};
  }

  lemma PhoneSteps(s: State, id: string, row: Identity, sessionId: string, expiresAt: int, drawn: seq<string>,
                   phone: string)
    returns (steps: seq<Step>, next: Identity)
    requires |drawn| == 7 && AllDifferent(drawn) && Stands(s, id, row, sessionId, expiresAt, 0, drawn, 2)
    requires row.active && !row.phoneVerified && row.onboarding == CredentialsIssued && Text.Trim(phone) != ""
    ensures next == row.(phone := Some(Text.Trim(phone)), phoneVerified := true, onboarding := PanPending)
    ensures Stands(Run(s, steps), id, next, sessionId, expiresAt, 2, drawn, 4)
  {
    var p := Text.Trim(phone);
    var one := OneMore(s, id, row, sessionId, expiresAt, 0, drawn, 2, SendPhone(id, phone), WithPhone(row, p));
    var t := Run(s, one);
    next := row.(phone := Some(p), phoneVerified := true, onboarding := PanPending);
    var two := OneMore(t, id, WithPhone(row, p), sessionId, expiresAt, 1, drawn, 3, VerifyPhone(id), next);
    RunInTwo(s, one, two);
    steps := one + two;
  }

  lemma CredentialSteps(s: State, id: string, row: Identity, sessionId: string, expiresAt: int, drawn: seq<string>)
    returns (steps: seq<Step>)
    requires |drawn| == 7 && AllDifferent(drawn) && Stands(s, id, row, sessionId, expiresAt, 3, drawn, 5)
    requires row.phoneVerified && row.onboarding == CredentialChangeRequired && row.pan.Some? && row.pan.value != ""
    requires 0 < expiresAt
    ensures Stands(Run(s, steps), id, WithMpin(WithPassword(row, drawn[5], 0), drawn[6], 0), sessionId, expiresAt, 5,
                   drawn, 7)
  {
    OnlySession(s.db, id, sessionId, expiresAt);
    var next := WithPassword(row, drawn[5], 0);
    var one := OneMore(s, id, row, sessionId, expiresAt, 3, drawn, 5, ChangePasswordOf(id, sessionId), next);
    var t := Run(s, one);
    OnlySession(t.db, id, sessionId, expiresAt);
    var two := OneMore(t, id, next, sessionId, expiresAt, 4, drawn, 6, ChangeMpinOf(id, sessionId),
                       WithMpin(next, drawn[6], 0));
    RunInTwo(s, one, two);
    steps := one + two;
  }

  /**
   * For every account, phone, PAN and session: there is a run that takes the new account to
   * COMPLETED, with that phone and PAN in canonical form and both credentials changed.
   */
  lemma OnboardingCompletes(id: string, phone: string, pan: string, sessionId: string, expiresAt: int, until: int,
                            drawn: seq<string>)
    returns (steps: seq<Step>)
    requires Text.Trim(phone) != "" && Text.Trim(pan) != "" && 0 < expiresAt && |drawn| == 7 && AllDifferent(drawn)
    ensures Run(START, steps).db.identities == map[id := CompletedRow(drawn, phone, pan)]
  {
    var first := Opened(id, sessionId, expiresAt, until, drawn);
    var s := Run(START, first);
    var second, verified := PhoneSteps(s, id, Issued(drawn[0], drawn[1], until), sessionId, expiresAt, drawn, phone);
    var t := Run(s, second);
    var added := WithPan(verified, Text.Code(pan));
    var third := OneMore(t, id, verified, sessionId, expiresAt, 2, drawn, 4, AddPan(id, pan), added);
    var fourth := CredentialSteps(Run(t, third), id, added, sessionId, expiresAt, drawn);
    RunInTwo(t, third, fourth);
    RunInTwo(s, second, third + fourth);
    RunInTwo(START, first, second + (third + fourth));
    steps := first + (second + (third + fourth));
  }

  /** A reset draft that is opened, confirmed and used in time sets the password and signs everyone out. */
  lemma ConfirmedDraftResets(s: State, id: string, draftId: string, expiresAt: int, call: nat, drawn: string)
    returns (steps: seq<Step>)
    requires id in s.db.identities && draftId !in s.draftIds && draftId !in s.db.drafts && s.now < expiresAt
    requires call !in s.calls && call !in s.pending && drawn !in s.hashes
    ensures var t := Run(s, steps);
            && t.db.identities ==
               s.db.identities[id := s.db.identities[id].(password := drawn, passwordChangedAt := Some(s.now))]
            && t.db.drafts == s.db.drafts
            && (forall v :: v in t.db.sessions && t.db.sessions[v].identityId == id ==> t.db.sessions[v].revoked)
  {
    var opening := [Happen(OpenDraft(draftId, id, expiresAt)), Happen(ConfirmDraft(draftId)), Tick(0)];
    RunThree(s, opening[0], opening[1], opening[2]);
    var t := Run(s, opening);
    assert t.db.drafts == s.db.drafts[draftId := Draft(id, true, expiresAt)];
    assert Reading(t.db, ResetWith(draftId)) == Some(Resetting(id, draftId));
    UndisturbedCallRuns(t, call, ResetWith(draftId), drawn);
    ResetSignsEveryoneOut(t.db, draftId, id, drawn, t.now);
    assert s.db.drafts[draftId := Draft(id, true, expiresAt)] - {draftId} == s.db.drafts;
    RunInTwo(s, opening, Whole(call, ResetWith(draftId), drawn));
    steps := opening + Whole(call, ResetWith(draftId), drawn);
  }
}
