/**
 * Onboarding and credential calls running at the same time. Each call reads the account,
 * checks what it read, and later does one guarded write; anything may happen in between.
 */
module CredentialProtocol {
  import opened Prelude
  import Text
  import Sessions
  import opened Credentials

  /** What a caller asks for. */
  datatype Request =
    | SendPhone(id: string, phone: string)
    | VerifyPhone(id: string)
    | AddPan(id: string, pan: string)
    | ChangePasswordOf(id: string, sessionId: string)
    | ChangeMpinOf(id: string, sessionId: string)
    | ResetWith(draftId: string)

  /** A call that has read and checked, with what it remembers of the read. */
  datatype Call =
    | SettingPhone(id: string, phone: string)
    | VerifyingPhone(id: string, phone: string)
    | AddingPan(id: string, pan: string)
    | ChangingPassword(id: string, sessionId: string, expected: string)
    | ChangingMpin(id: string, sessionId: string, expected: string)
    | Resetting(id: string, draftId: string)

  /**
   * `accepted` holds the OTP checks that succeeded (call, account, phone), `verifiedBy` the call
   * that verified each account's phone, `log` the committed writes, `hashes` and `draftIds`
   * everything ever drawn.
   */
  datatype State = State(
    now: int,
    db: Db,
    pending: map<nat, Call>,
    calls: set<nat>,
    accepted: set<(nat, string, string)>,
    verifiedBy: map<string, nat>,
    log: seq<Call>,
    hashes: set<string>,
    draftIds: set<string>)

  /** What else goes on in the tables. */
  datatype Event =
    | Create(id: string, password: string, mpin: string, temporaryUntil: int)
    | SetActive(id: string, active: bool)
    | OpenSession(sessionId: string, session: Sessions.Session)
    | RevokeSessions(ids: set<string>)
    | OpenDraft(draftId: string, id: string, expiresAt: int)
    | ConfirmDraft(draftId: string)

  datatype Step =
    | Tick(ticks: nat)
    | Happen(event: Event)
    | Read(call: nat, request: Request)
    | AcceptOtp(call: nat)
    | Write(call: nat, drawn: string)

  const START: State := State(0, Db(map[], map[], map[]), map[], {}, {}, map[], [], {}, {})

  /** The read and its checks; None when the call is refused. */
  function Reading(db: Db, r: Request): Option<Call> {
    if r.ResetWith? then
      if r.draftId in db.drafts && db.drafts[r.draftId].otpVerified
      then Some(Resetting(db.drafts[r.draftId].identityId, r.draftId)) else None
    else if r.id !in db.identities then None
    else
      var row := db.identities[r.id];
      match r
      case SendPhone(id, phone) =>
        if SendPhoneCheck(row) == None && PhoneFree(db, id, Text.Trim(phone))
        then Some(SettingPhone(id, Text.Trim(phone))) else None
      case VerifyPhone(id) =>
        if VerifyPhoneCheck(row) == None then Some(VerifyingPhone(id, row.phone.value)) else None
      case AddPan(id, pan) =>
        if AddPanCheck(row) == None && PanFree(db, id, Text.Code(pan))
        then Some(AddingPan(id, Text.Code(pan))) else None
      case ChangePasswordOf(id, sessionId) =>
        if ChangePasswordCheck(row) == None then Some(ChangingPassword(id, sessionId, row.password)) else None
      case ChangeMpinOf(id, sessionId) =>
        if ChangeMpinCheck(row) == None then Some(ChangingMpin(id, sessionId, row.mpin)) else None
  }

  /** The guarded write of a call on whatever the tables hold by then; None when it commits nothing. */
  function Writing(db: Db, c: Call, drawn: string, now: int): Option<Db> {
    match c
    case SettingPhone(id, phone) =>
      if id in db.identities && PhoneSettable(db.identities[id]) && PhoneFree(db, id, phone)
      then Some(db.(identities := db.identities[id := WithPhone(db.identities[id], phone)])) else None
    case VerifyingPhone(id, phone) =>
      if id in db.identities && PhoneConfirmable(db.identities[id], phone)
      then Some(db.(identities := db.identities[id := WithVerifiedPhone(db.identities[id])])) else None
    case AddingPan(id, pan) =>
      if id in db.identities && PanAddable(db.identities[id]) && PanFree(db, id, pan)
      then Some(db.(identities := db.identities[id := WithPan(db.identities[id], pan)])) else None
    case ChangingPassword(id, sessionId, expected) => ChangePassword(db, id, sessionId, expected, drawn, now)
    case ChangingMpin(id, sessionId, expected) => ChangeMpin(db, id, sessionId, expected, drawn, now)
    case Resetting(id, draftId) => ResetPassword(db, draftId, id, drawn, now)
  }

  /** A write may run: hashes are salted, hence new, and a phone is only marked after its OTP. */
  predicate MayWrite(s: State, call: nat, drawn: string) {
    && call in s.pending && drawn !in s.hashes
    && (s.pending[call].VerifyingPhone? ==> (call, s.pending[call].id, s.pending[call].phone) in s.accepted)
  }

  function Written(s: State, call: nat, drawn: string): State
    requires MayWrite(s, call, drawn)
  {
    var c := s.pending[call];
    var t := s.(pending := s.pending - {call}, hashes := s.hashes + {drawn});
    match Writing(s.db, c, drawn, s.now)
    case None => t
    case Some(db) =>
      t.(db := db, log := s.log + [c],
         verifiedBy := if c.VerifyingPhone? then s.verifiedBy[c.id := call] else s.verifiedBy)
  }

  function Happened(s: State, event: Event): State {
    match event
    case Create(id, password, mpin, temporaryUntil) =>
      if id in s.db.identities || password in s.hashes || mpin in s.hashes || password == mpin then s
      else s.(db := s.db.(identities := s.db.identities[id := Issued(password, mpin, temporaryUntil)]),
              hashes := s.hashes + {password, mpin})
    case SetActive(id, active) =>
      if id !in s.db.identities then s
      else s.(db := s.db.(identities := s.db.identities[id := s.db.identities[id].(active := active)]))
    case OpenSession(sessionId, session) =>
      if sessionId in s.db.sessions then s
      else s.(db := s.db.(sessions := s.db.sessions[sessionId := session]))
    case RevokeSessions(ids) => s.(db := s.db.(sessions := Sessions.Revoked(s.db.sessions, ids)))
    case OpenDraft(draftId, id, expiresAt) =>
      if draftId in s.draftIds then s
      else s.(db := s.db.(drafts := s.db.drafts[draftId := Draft(id, false, expiresAt)]),
              draftIds := s.draftIds + {draftId})
    case ConfirmDraft(draftId) =>
      if draftId !in s.db.drafts then s
      else s.(db := s.db.(drafts := s.db.drafts[draftId := s.db.drafts[draftId].(otpVerified := true)]))
  }

  function Next(s: State, step: Step): State {
    match step
    case Tick(ticks) => s.(now := s.now + ticks)
    case Happen(event) => Happened(s, event)
    case Read(call, request) =>
      if call in s.calls then s
      else
        var t := s.(calls := s.calls + {call});
        if Reading(s.db, request) == None then t
        else t.(pending := s.pending[call := Reading(s.db, request).value])
    case AcceptOtp(call) =>
      if call in s.pending && s.pending[call].VerifyingPhone?
      then s.(accepted := s.accepted + {(call, s.pending[call].id, s.pending[call].phone)}) else s
    case Write(call, drawn) => if MayWrite(s, call, drawn) then Written(s, call, drawn) else s
  }

  function Run(s: State, steps: seq<Step>): State
    decreases |steps|
  {
    if steps == [] then s else Run(Next(s, steps[0]), steps[1..])
  }

  // ---------------------------------------------------------------- onboarding never goes back

  ghost predicate RowOk(row: Identity) {
    && (row.phoneVerified <==> Rank(row.onboarding) >= Rank(PanPending))
    && (row.phoneVerified ==> row.phone.Some?)
    && (Rank(row.onboarding) >= Rank(CredentialChangeRequired) ==> row.pan.Some?)
    && (row.onboarding == Completed ==> row.passwordChangedAt.Some? && row.mpinChangedAt.Some?)
    && (row.onboarding == Completed <==> row.temporaryUntil == None)
  }

  /** Facts about an account that no call takes back. */
  ghost predicate Progress(a: Identity, b: Identity) {
    && Rank(a.onboarding) <= Rank(b.onboarding)
    && (a.phoneVerified ==> b.phoneVerified && b.phone == a.phone)
    && (a.pan.Some? ==> b.pan == a.pan)
    && (a.passwordChangedAt.Some? ==> b.passwordChangedAt.Some?)
    && (a.mpinChangedAt.Some? ==> b.mpinChangedAt.Some?)
  }

  ghost predicate PanPrecedesStage(row: Identity) {
    row.pan.Some? ==> Rank(row.onboarding) >= Rank(CredentialChangeRequired)
  }

  /** The phone on a verified account is the one whose OTP the verifying call checked. */
  ghost predicate PhoneChecked(s: State, id: string)
    requires id in s.db.identities
  {
    var row := s.db.identities[id];
    row.phoneVerified ==>
      id in s.verifiedBy && row.phone.Some? && (s.verifiedBy[id], id, row.phone.value) in s.accepted
  }

  /** A pending credential change saw everything that must precede it: phone, PAN, and for the MPIN the password. */
  ghost predicate CallOk(db: Db, c: Call) {
    c.ChangingPassword? || c.ChangingMpin? ==>
      && c.id in db.identities && db.identities[c.id].phoneVerified && db.identities[c.id].pan.Some?
      && (c.ChangingMpin? ==> db.identities[c.id].passwordChangedAt.Some?)
  }

  ghost predicate AccountOk(s: State, id: string)
    requires id in s.db.identities
  {
    RowOk(s.db.identities[id]) && PanPrecedesStage(s.db.identities[id]) && PhoneChecked(s, id)
  }

  ghost predicate Inv(s: State) {
    && (forall id :: id in s.db.identities ==> AccountOk(s, id))
    && (forall call :: call in s.pending ==> CallOk(s.db, s.pending[call]))
  }

  /** Every account is still there and has only moved forward. */
  ghost predicate Forward(a: Db, b: Db) {
    forall id :: id in a.identities ==> id in b.identities && Progress(a.identities[id], b.identities[id])
  }

  /** A guarded write changed one sound row, forward; only its own phone check verifies a phone. */
  ghost predicate Advances(a: Db, b: Db, c: Call) {
    && c.id in a.identities && c.id in b.identities && b.identities == a.identities[c.id := b.identities[c.id]]
    && RowOk(b.identities[c.id]) && PanPrecedesStage(b.identities[c.id])
    && Progress(a.identities[c.id], b.identities[c.id])
    && (b.identities[c.id].phoneVerified && !a.identities[c.id].phoneVerified ==>
          c.VerifyingPhone? && b.identities[c.id].phone == Some(c.phone))
    && (c.VerifyingPhone? ==> !a.identities[c.id].phoneVerified)
  }

  /** The heart of it: a guarded write on a sound row, by a call that remembers sound facts. */
  lemma WritingAdvances(db: Db, c: Call, drawn: string, now: int)
    requires Writing(db, c, drawn, now).Some? && CallOk(db, c)
    requires forall id :: id in db.identities ==> RowOk(db.identities[id]) && PanPrecedesStage(db.identities[id])
    ensures Advances(db, Writing(db, c, drawn, now).value, c)
  {
    assert RowOk(db.identities[c.id]) && PanPrecedesStage(db.identities[c.id]);
  }

  lemma AdvancingKeepsInv(s: State, t: State, call: nat, c: Call)
    requires Inv(s) && Advances(s.db, t.db, c) && t.pending == s.pending - {call} && t.accepted == s.accepted
    requires c.VerifyingPhone? ==> (call, c.id, c.phone) in s.accepted
    requires t.verifiedBy == if c.VerifyingPhone? then s.verifiedBy[c.id := call] else s.verifiedBy
    ensures Inv(t) && Forward(s.db, t.db)
  {
    forall id | id in t.db.identities ensures AccountOk(t, id) {
      assert AccountOk(s, id);
    }
    forall other | other in t.pending ensures CallOk(t.db, t.pending[other]) {
      assert CallOk(s.db, s.pending[other]);
    }
  }

  lemma WriteKeepsInv(s: State, call: nat, drawn: string)
    requires Inv(s) && MayWrite(s, call, drawn)
    ensures Inv(Written(s, call, drawn)) && Forward(s.db, Written(s, call, drawn).db)
  {
    var c, t := s.pending[call], Written(s, call, drawn);
    forall id | id in s.db.identities
      ensures AccountOk(t.(db := s.db, verifiedBy := s.verifiedBy), id)
      ensures RowOk(s.db.identities[id]) && PanPrecedesStage(s.db.identities[id])
    {
      assert AccountOk(s, id);
    }
    if Writing(s.db, c, drawn, s.now).Some? {
      WritingAdvances(s.db, c, drawn, s.now);
      AdvancingKeepsInv(s, t, call, c);
    }
  }

  lemma ReadingIsOk(db: Db, r: Request)
    requires forall id :: id in db.identities ==> RowOk(db.identities[id])
    requires Reading(db, r).Some?
    ensures CallOk(db, Reading(db, r).value)
  {
  }

  lemma ReadKeepsInv(s: State, call: nat, request: Request)
    requires Inv(s)
    ensures Inv(Next(s, Read(call, request))) && Next(s, Read(call, request)).db == s.db
  {
    var t := Next(s, Read(call, request));
    forall id | id in s.db.identities ensures AccountOk(t, id) && RowOk(s.db.identities[id]) {
      assert AccountOk(s, id);
    }
    if t.pending != s.pending {
      ReadingIsOk(s.db, request);
    }
  }

  /** The step touched at most account status, new accounts, OTP checks and other tables. */
  ghost predicate Aside(s: State, t: State) {
    && t.verifiedBy == s.verifiedBy && s.accepted <= t.accepted && t.pending == s.pending
    && s.db.identities.Keys <= t.db.identities.Keys
    && (forall id :: id in s.db.identities ==>
          t.db.identities[id] == s.db.identities[id].(active := t.db.identities[id].active))
    && (forall id :: id in t.db.identities && id !in s.db.identities ==>
          RowOk(t.db.identities[id]) && PanPrecedesStage(t.db.identities[id]) && !t.db.identities[id].phoneVerified)
  }

  lemma CreateIsAside(s: State, id: string, password: string, mpin: string, temporaryUntil: int)
    ensures Aside(s, Happened(s, Create(id, password, mpin, temporaryUntil)))
  {
    var row := Issued(password, mpin, temporaryUntil);
    assert RowOk(row) && PanPrecedesStage(row) && !row.phoneVerified;
  }

  lemma EventIsAside(s: State, event: Event)
    ensures Aside(s, Happened(s, event))
  {
    match event
    case Create(id, password, mpin, temporaryUntil) => CreateIsAside(s, id, password, mpin, temporaryUntil);
    case SetActive(_, _) =>
    case _ => assert Happened(s, event).db.identities == s.db.identities;
  }

  /** Soundness survives new OTP checks, status changes, and anything that happens to other tables. */
  lemma AccountsStayOk(s: State, t: State)
    requires Inv(s) && Aside(s, t)
    ensures Inv(t) && Forward(s.db, t.db)
  {
    forall id | id in t.db.identities ensures AccountOk(t, id) {
      assert id in s.db.identities ==> AccountOk(s, id);
    }
    forall call | call in t.pending ensures CallOk(t.db, t.pending[call]) {
      assert CallOk(s.db, s.pending[call]);
    }
  }

  lemma EventKeepsInv(s: State, event: Event)
    requires Inv(s)
    ensures Inv(Happened(s, event)) && Forward(s.db, Happened(s, event).db)
  {
    EventIsAside(s, event);
    AccountsStayOk(s, Happened(s, event));
  }

  lemma NextKeepsInv(s: State, step: Step)
    requires Inv(s)
    ensures Inv(Next(s, step)) && Forward(s.db, Next(s, step).db)
  {
    match step
    case Happen(event) => EventKeepsInv(s, event);
    case Read(call, request) => ReadKeepsInv(s, call, request);
    case Write(call, drawn) =>
      if MayWrite(s, call, drawn) {
        WriteKeepsInv(s, call, drawn);
      }
    case _ => AccountsStayOk(s, Next(s, step));
  }

  lemma {:induction false} RunKeepsInv(s: State, steps: seq<Step>)
    requires Inv(s)
    ensures Inv(Run(s, steps)) && Forward(s.db, Run(s, steps).db)
    decreases |steps|
  {
    if steps != [] {
      NextKeepsInv(s, steps[0]);
      RunKeepsInv(Next(s, steps[0]), steps[1..]);
    }
  }

  /**
   * In every reachable state, whatever the interleaving: the phone is verified exactly from
   * PAN_PENDING on and is the one whose OTP the verifying call checked, CREDENTIAL_CHANGE_REQUIRED
   * implies a PAN, COMPLETED implies both credentials were changed, and the temporary
   * credentials' expiry is cleared exactly at COMPLETED.
   */
  lemma OnboardingIsSound(steps: seq<Step>, id: string)
    requires id in Run(START, steps).db.identities
    ensures RowOk(Run(START, steps).db.identities[id]) && PhoneChecked(Run(START, steps), id)
  {
    RunKeepsInv(START, steps);
    assert AccountOk(Run(START, steps), id);
  }

  /** In every interleaving: whoever is about to replace a credential has a verified phone and a PAN. */
  lemma ChangesComeLast(steps: seq<Step>, call: nat)
    requires call in Run(START, steps).pending
    ensures CallOk(Run(START, steps).db, Run(START, steps).pending[call])
  {
    RunKeepsInv(START, steps);
  }

  /** Between any two points of a run no account moves back, nor does its verified phone or PAN change. */
  lemma OnboardingNeverGoesBack(steps: seq<Step>, more: seq<Step>, id: string)
    requires id in Run(START, steps).db.identities
    ensures var later := Run(Run(START, steps), more);
            id in later.db.identities && Progress(Run(START, steps).db.identities[id], later.db.identities[id])
  {
    RunKeepsInv(START, steps);
    RunKeepsInv(Run(START, steps), more);
  }

  /**
   * A call that nothing disturbs between its read and its write commits: always for the
   * onboarding steps, for a credential change exactly if the calling session is live, for a
   * reset exactly if the draft has not expired and its account exists.
   */
  lemma UndisturbedCallCommitsIff(s: State, r: Request, drawn: string)
    requires Reading(s.db, r).Some?
    ensures var c := Reading(s.db, r).value;
            Writing(s.db, c, drawn, s.now).Some? <==>
              match r
              case ChangePasswordOf(id, sessionId) => Live(s.db, id, sessionId, s.now)
              case ChangeMpinOf(id, sessionId) => Live(s.db, id, sessionId, s.now)
              case ResetWith(draftId) => s.now < s.db.drafts[draftId].expiresAt && c.id in s.db.identities
              case _ => true
  {
  }

  // ---------------------------------------------------------------- each read value is spent once

  /** What a committed call has used up: the hash it expected, or its draft. */
  ghost predicate SpentIn(s: State, c: Call) {
    && (c.ChangingPassword? ==>
          c.id in s.db.identities && c.expected in s.hashes && s.db.identities[c.id].password != c.expected)
    && (c.ChangingMpin? ==>
          c.id in s.db.identities && c.expected in s.hashes && s.db.identities[c.id].mpin != c.expected)
    && (c.Resetting? ==> c.draftId in s.draftIds && c.draftId !in s.db.drafts)
  }

  ghost predicate SameSpending(a: Call, b: Call) {
    || (a.ChangingPassword? && b.ChangingPassword? && a.id == b.id && a.expected == b.expected)
    || (a.ChangingMpin? && b.ChangingMpin? && a.id == b.id && a.expected == b.expected)
    || (a.Resetting? && b.Resetting? && a.draftId == b.draftId)
  }

  ghost predicate AllSpent(s: State) {
    forall i :: 0 <= i < |s.log| ==> SpentIn(s, s.log[i])
  }

  ghost predicate NoneTwice(log: seq<Call>) {
    forall i, j :: 0 <= i < j < |log| ==> !SameSpending(log[i], log[j])
  }

  ghost predicate HashesKnown(s: State) {
    && (forall id :: id in s.db.identities ==>
          s.db.identities[id].password in s.hashes && s.db.identities[id].mpin in s.hashes)
    && s.db.drafts.Keys <= s.draftIds
  }

  /** What a commit of the call does: it finds the hash or draft it expects and replaces or consumes it. */
  ghost predicate Spends(a: Db, b: Db, c: Call, drawn: string) {
    && c.id in a.identities && b.identities.Keys == a.identities.Keys && b.drafts.Keys <= a.drafts.Keys
    && (forall id :: id in a.identities ==>
          && (b.identities[id].password == a.identities[id].password || b.identities[id].password == drawn)
          && (b.identities[id].mpin == a.identities[id].mpin || b.identities[id].mpin == drawn))
    && (c.ChangingPassword? ==> a.identities[c.id].password == c.expected && b.identities[c.id].password == drawn)
    && (c.ChangingMpin? ==> a.identities[c.id].mpin == c.expected && b.identities[c.id].mpin == drawn)
    && (c.Resetting? ==> c.draftId in a.drafts && c.draftId !in b.drafts)
  }

  lemma CommitSpends(db: Db, c: Call, drawn: string, now: int)
    requires Writing(db, c, drawn, now).Some?
    ensures Spends(db, Writing(db, c, drawn, now).value, c, drawn)
  {
  }

  lemma SpendingKeepsSpent(s: State, t: State, c: Call, drawn: string)
    requires HashesKnown(s) && AllSpent(s) && NoneTwice(s.log) && drawn !in s.hashes
    requires Spends(s.db, t.db, c, drawn) && t.log == s.log + [c]
    requires t.hashes == s.hashes + {drawn} && t.draftIds == s.draftIds
    ensures HashesKnown(t) && AllSpent(t) && NoneTwice(t.log)
  {
    forall i | 0 <= i < |s.log| ensures SpentIn(t, s.log[i]) && !SameSpending(s.log[i], c) {
      assert SpentIn(s, s.log[i]);
    }
  }

  lemma WriteKeepsSpent(s: State, call: nat, drawn: string)
    requires MayWrite(s, call, drawn) && HashesKnown(s) && AllSpent(s) && NoneTwice(s.log)
    ensures var t := Written(s, call, drawn); HashesKnown(t) && AllSpent(t) && NoneTwice(t.log)
  {
    var c, t := s.pending[call], Written(s, call, drawn);
    if Writing(s.db, c, drawn, s.now).Some? {
      CommitSpends(s.db, c, drawn, s.now);
      SpendingKeepsSpent(s, t, c, drawn);
    } else {
      forall i | 0 <= i < |s.log| ensures SpentIn(t, s.log[i]) {
        assert SpentIn(s, s.log[i]);
      }
    }
  }

  lemma EventKeepsSpent(s: State, event: Event)
    requires HashesKnown(s) && AllSpent(s)
    ensures HashesKnown(Happened(s, event)) && AllSpent(Happened(s, event)) && Happened(s, event).log == s.log
  {
    var t := Happened(s, event);
    forall i | 0 <= i < |s.log| ensures SpentIn(t, s.log[i]) {
      assert SpentIn(s, s.log[i]);
    }
  }

  lemma NextKeepsSpent(s: State, step: Step)
    requires HashesKnown(s) && AllSpent(s) && NoneTwice(s.log)
    ensures var t := Next(s, step); HashesKnown(t) && AllSpent(t) && NoneTwice(t.log)
  {
    if step.Write? && MayWrite(s, step.call, step.drawn) {
      WriteKeepsSpent(s, step.call, step.drawn);
    } else if step.Happen? {
      EventKeepsSpent(s, step.event);
    } else {
      forall i | 0 <= i < |s.log| ensures SpentIn(Next(s, step), s.log[i]) {
        assert SpentIn(s, s.log[i]);
      }
    }
  }

  lemma {:induction false} RunKeepsSpent(s: State, steps: seq<Step>)
    requires HashesKnown(s) && AllSpent(s) && NoneTwice(s.log)
    ensures var t := Run(s, steps); HashesKnown(t) && AllSpent(t) && NoneTwice(t.log)
    decreases |steps|
  {
    if steps != [] {
      NextKeepsSpent(s, steps[0]);
      RunKeepsSpent(Next(s, steps[0]), steps[1..]);
    }
  }

  /**
   * Of all the changes that expect one stored hash at most one ever commits, a reset draft
   * sets a password at most once, and a spent hash or draft stays spent.
   */
  lemma EachCommitSpendsItsOwn(steps: seq<Step>)
    ensures NoneTwice(Run(START, steps).log) && AllSpent(Run(START, steps))
  {
    RunKeepsSpent(START, steps);
  }
}
