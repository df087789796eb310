/** IdentityService: guarded onboarding writes and the credential transactions. */
module Credentials {
  import opened Prelude
  import Text
  import opened Sessions

  datatype Onboarding = CredentialsIssued | PhonePending | PanPending | CredentialChangeRequired | Completed

  /** An administrator-created account; times are milliseconds, credentials are stored hashed. */
  datatype Identity = Identity(
    password: string,
    mpin: string,
    phone: Option<string>,
    pan: Option<string>,
    phoneVerified: bool,
    onboarding: Onboarding,
    active: bool,
    passwordChangedAt: Option<int>,
    mpinChangedAt: Option<int>,
    temporaryUntil: Option<int>)

  datatype Draft = Draft(identityId: string, otpVerified: bool, expiresAt: int)

  /** The three tables the transactions touch. */
  datatype Db = Db(identities: map<string, Identity>, sessions: Table, drafts: map<string, Draft>)

  datatype Refusal =
    | NotFound | Inactive | AlreadyCompleted | AlreadyVerified | PhoneMissing | PhoneNotVerified | PanMissing
    | PasswordNotChanged | WrongStage | InUse | SessionInvalid | StateChanged | DraftInvalid

  function Rank(o: Onboarding): nat {
    match o
    case CredentialsIssued => 0
    case PhonePending => 1
    case PanPending => 2
    case CredentialChangeRequired => 3
    case Completed => 4
  }

  /** A new account: both credentials are temporary, nothing is verified or changed yet. */
  function Issued(password: string, mpin: string, temporaryUntil: int): (r: Identity)
    ensures r.password == password && r.mpin == mpin && r.temporaryUntil == Some(temporaryUntil) && r.active
    ensures r.phone == None == r.pan && r.passwordChangedAt == None == r.mpinChangedAt && !r.phoneVerified
    ensures r.onboarding == CredentialsIssued
  {
    Identity(password, mpin, None, None, false, CredentialsIssued, true, None, None, Some(temporaryUntil))
  }

  // ---------------------------------------------------------------- checks on the row a call has read

  function SendPhoneCheck(row: Identity): Option<Refusal> {
    if !row.active then Some(Inactive)
    else if row.onboarding == Completed then Some(AlreadyCompleted)
    else if row.phoneVerified then Some(AlreadyVerified)
    else None
  }

  function VerifyPhoneCheck(row: Identity): Option<Refusal> {
    if !row.active then Some(Inactive)
    else if row.onboarding == Completed then Some(AlreadyCompleted)
    else if row.phoneVerified then Some(AlreadyVerified)
    else if row.phone == None || row.phone == Some("") then Some(PhoneMissing)
    else if row.onboarding != PhonePending then Some(WrongStage)
    else None
  }

  function AddPanCheck(row: Identity): Option<Refusal> {
    if !row.active then Some(Inactive)
    else if row.onboarding == Completed then Some(AlreadyCompleted)
    else if !row.phoneVerified then Some(PhoneNotVerified)
    else if row.onboarding != PanPending then Some(WrongStage)
    else None
  }

  function ChangePasswordCheck(row: Identity): Option<Refusal> {
    if row.onboarding == Completed then None
    else if !row.phoneVerified then Some(PhoneNotVerified)
    else if row.pan == None || row.pan == Some("") then Some(PanMissing)
    else if row.onboarding != CredentialChangeRequired then Some(WrongStage)
    else None
  }

  function ChangeMpinCheck(row: Identity): Option<Refusal> {
    if row.onboarding == Completed then None
    else if !row.phoneVerified then Some(PhoneNotVerified)
    else if row.pan == None || row.pan == Some("") then Some(PanMissing)
    else if row.passwordChangedAt == None then Some(PasswordNotChanged)
    else if row.onboarding != CredentialChangeRequired then Some(WrongStage)
    else None
  }

  /** Each refusal states a fact about the row. */
  ghost predicate Justified(row: Identity, e: Refusal) {
    match e
    case Inactive => !row.active
    case AlreadyCompleted => row.onboarding == Completed
    case AlreadyVerified => row.phoneVerified
    case PhoneMissing => row.phone == None || row.phone == Some("")
    case PhoneNotVerified => !row.phoneVerified
    case PanMissing => row.pan == None || row.pan == Some("")
    case PasswordNotChanged => row.passwordChangedAt == None
    case WrongStage => row.onboarding != Completed
    case _ => false
  }

  /** The checks let through exactly the rows the later writes are for, and refuse with a true reason. */
  lemma ChecksAgree(row: Identity)
    ensures SendPhoneCheck(row) == None <==> row.active && !row.phoneVerified && row.onboarding != Completed
    ensures VerifyPhoneCheck(row) == None <==>
            && row.active && !row.phoneVerified && row.onboarding == PhonePending
            && row.phone.Some? && row.phone.value != ""
    ensures AddPanCheck(row) == None <==> row.active && row.phoneVerified && row.onboarding == PanPending
    ensures ChangePasswordCheck(row) == None <==>
            || row.onboarding == Completed
            || (row.onboarding == CredentialChangeRequired && row.phoneVerified && row.pan.Some? && row.pan.value != "")
    ensures ChangeMpinCheck(row) == None <==>
            ChangePasswordCheck(row) == None && (row.onboarding == Completed || row.passwordChangedAt.Some?)
    ensures SendPhoneCheck(row).Some? ==> Justified(row, SendPhoneCheck(row).value)
    ensures VerifyPhoneCheck(row).Some? ==> Justified(row, VerifyPhoneCheck(row).value)
    ensures AddPanCheck(row).Some? ==> Justified(row, AddPanCheck(row).value)
    ensures ChangePasswordCheck(row).Some? ==> Justified(row, ChangePasswordCheck(row).value)
    ensures ChangeMpinCheck(row).Some? ==> Justified(row, ChangeMpinCheck(row).value)
  {
  }

  // ---------------------------------------------------------------- the guarded writes, as values

  predicate PhoneFree(db: Db, id: string, phone: string) {
    forall other :: other in db.identities && other != id ==> db.identities[other].phone != Some(phone)
  }

  predicate PanFree(db: Db, id: string, pan: string) {
    forall other :: other in db.identities && other != id ==> db.identities[other].pan != Some(pan)
  }

  function WithPhone(row: Identity, phone: string): Identity {
    row.(phone := Some(phone), phoneVerified := false, onboarding := PhonePending)
  }

  function WithVerifiedPhone(row: Identity): Identity {
    row.(phoneVerified := true, onboarding := PanPending)
  }

  function WithPan(row: Identity, pan: string): Identity {
    row.(pan := Some(pan), onboarding := CredentialChangeRequired)
  }

  function WithPassword(row: Identity, hashed: string, now: int): Identity {
    row.(password := hashed, passwordChangedAt := Some(now))
  }

  function WithMpin(row: Identity, hashed: string, now: int): Identity {
    row.(mpin := hashed, mpinChangedAt := Some(now), onboarding := Completed, temporaryUntil := None)
  }

  predicate PhoneSettable(row: Identity) {
    row.active && !row.phoneVerified && row.onboarding != Completed
  }

  predicate PhoneConfirmable(row: Identity, phone: string) {
    row.phone == Some(phone) && row.active && !row.phoneVerified && row.onboarding == PhonePending
  }

  predicate PanAddable(row: Identity) {
    row.active && row.phoneVerified && row.onboarding == PanPending
  }

  predicate Live(db: Db, id: string, sessionId: string, now: int) {
    sessionId in db.sessions && db.sessions[sessionId].identityId == id && Usable(db.sessions[sessionId], now)
  }

  function Elsewhere(db: Db, id: string, sessionId: string, now: int): set<string> {
    UsableOthers(db.sessions, id, sessionId, now)
  }

  function SignedOutElsewhere(db: Db, id: string, sessionId: string, now: int): Table
    requires sessionId in db.sessions
  {
    Revoked(db.sessions, Elsewhere(db, id, sessionId, now))[sessionId := db.sessions[sessionId].(lastUsedAt := now)]
  }

  /** The password transaction; None is a rollback. */
  function ChangePassword(db: Db, id: string, sessionId: string, expected: string, hashed: string,
          now: int): Option<Db> {
    if Live(db, id, sessionId, now) && id in db.identities && db.identities[id].password == expected
    then Some(Db(db.identities[id := WithPassword(db.identities[id], hashed, now)],
                 SignedOutElsewhere(db, id, sessionId, now), db.drafts))
    else None
  }

  function ChangeMpin(db: Db, id: string, sessionId: string, expected: string, hashed: string, now: int): Option<Db> {
    if Live(db, id, sessionId, now) && id in db.identities && db.identities[id].mpin == expected
    then Some(Db(db.identities[id := WithMpin(db.identities[id], hashed, now)],
                 SignedOutElsewhere(db, id, sessionId, now), db.drafts))
    else None
  }

  predicate DraftUsable(db: Db, draftId: string, id: string, now: int) {
    && draftId in db.drafts && db.drafts[draftId].identityId == id
    && db.drafts[draftId].otpVerified && now < db.drafts[draftId].expiresAt
  }

  function Unrevoked(t: Table, id: string): set<string> {
    set s | s in t && t[s].identityId == id && !t[s].revoked
  }

  function ResetPassword(db: Db, draftId: string, id: string, hashed: string, now: int): Option<Db> {
    if DraftUsable(db, draftId, id, now) && id in db.identities
    then Some(Db(db.identities[id := WithPassword(db.identities[id], hashed, now)],
                 Revoked(db.sessions, Unrevoked(db.sessions, id)), db.drafts - {draftId}))
    else None
  }

  /** The calling session is touched, the identity's other usable sessions are revoked, nothing else changes. */
  ghost predicate SignsOutOthers(before: Table, after: Table, id: string, sessionId: string, now: int) {
    && (forall s :: s in after <==> s in before)
    && (forall s :: s in after && s != sessionId ==>
          after[s] ==
          if before[s].identityId == id && now < before[s].expiresAt then before[s].(revoked := true) else before[s])
    && (sessionId in after ==> after[sessionId] == before[sessionId].(lastUsedAt := now))
  }

  /** After a committed change the calling session is the identity's only usable one; others keep theirs. */
  lemma OnlyCallerStaysSignedIn(db: Db, id: string, sessionId: string, now: int)
    requires Live(db, id, sessionId, now)
    ensures var after := SignedOutElsewhere(db, id, sessionId, now);
            && after.Keys == db.sessions.Keys
            && (forall s :: s in after && after[s].identityId == id ==> (Usable(after[s], now) <==> s == sessionId))
            && (forall s :: s in after && after[s].identityId != id ==> after[s] == db.sessions[s])
  {
    var after := SignedOutElsewhere(db, id, sessionId, now);
    forall s | s in after && after[s].identityId == id
      ensures Usable(after[s], now) <==> s == sessionId
    {
      assert s in Elsewhere(db, id, sessionId, now) <==> s != sessionId && Usable(db.sessions[s], now);
    }
  }

  /** After a committed reset nobody is signed in to the identity, and the draft is gone. */
  lemma ResetSignsEveryoneOut(db: Db, draftId: string, id: string, hashed: string, now: int)
    requires ResetPassword(db, draftId, id, hashed, now).Some?
    ensures var after := ResetPassword(db, draftId, id, hashed, now).value;
            && (forall s :: s in after.sessions && after.sessions[s].identityId == id ==> after.sessions[s].revoked)
            && ResetPassword(after, draftId, id, hashed, now) == None
  {
  }

  class IdentityService {
    var identities: map<string, Identity>
    var sessions: Table
    var drafts: map<string, Draft>

    constructor ()
      ensures Data() == Db(map[], map[], map[])
    {
      identities, sessions, drafts := map[], map[], map[];
    }

    function Data(): Db
      reads this
    {
      Db(identities, sessions, drafts)
    }

    method SetPhoneForOnboarding(id: string, phoneNumber: string) returns (r: Option<Refusal>)
      modifies this`identities
      ensures var p := Text.Trim(phoneNumber); var was := old(identities);
              var open := id in was && was[id].active && !was[id].phoneVerified && was[id].onboarding != Completed;
              var taken := exists other :: other in was && other != id && was[other].phone == Some(p);
              && r == (if !open then Some(WrongStage) else if taken then Some(InUse) else None)
              && (r != None ==> identities == was)
              && (r == None ==>
                    var row := was[id].(phone := Some(p), phoneVerified := false, onboarding := PhonePending);
                    identities == was[id := row])
    {
      var normalized := Text.Trim(phoneNumber);
      if id !in identities || !PhoneSettable(identities[id]) {
        return Some(WrongStage);
      }
      // The unique column refuses a number that another account holds.
      if !PhoneFree(Data(), id, normalized) {
        return Some(InUse);
      }
      identities := identities[id := WithPhone(identities[id], normalized)];
      return None;
    }

    method MarkOnboardingPhoneVerified(id: string, expectedPhone: string) returns (r: Option<Refusal>)
      modifies this`identities
      ensures var was := old(identities);
              && (r == None <==>
                    && id in was && was[id].phone == Some(expectedPhone) && was[id].active
                    && !was[id].phoneVerified && was[id].onboarding == PhonePending)
              && (r != None ==> r == Some(StateChanged) && identities == was)
              && (r == None ==> identities == was[id := was[id].(phoneVerified := true, onboarding := PanPending)])
    {
      if id !in identities || !PhoneConfirmable(identities[id], expectedPhone) {
        return Some(StateChanged);
      }
      identities := identities[id := WithVerifiedPhone(identities[id])];
      return None;
    }

    method AddPanForIdentityOnboarding(id: string, panNumber: string) returns (r: Option<Refusal>)
      modifies this`identities
      ensures var p := Text.Code(panNumber); var was := old(identities);
              var open := id in was && was[id].active && was[id].phoneVerified && was[id].onboarding == PanPending;
              var taken := exists other :: other in was && other != id && was[other].pan == Some(p);
              && r == (if !open then Some(StateChanged) else if taken then Some(InUse) else None)
              && (r != None ==> identities == was)
              && (r == None ==>
                    identities == was[id := was[id].(pan := Some(p), onboarding := CredentialChangeRequired)])
    {
      var normalized := Text.Code(panNumber);
      if id !in identities || !PanAddable(identities[id]) {
        return Some(StateChanged);
      }
      if !PanFree(Data(), id, normalized) {
        return Some(InUse);
      }
      identities := identities[id := WithPan(identities[id], normalized)];
      return None;
    }

    /** The first statement of both change transactions: touch the calling session if it is live. */
    method TouchSession(id: string, sessionId: string, now: int) returns (count: nat)
      modifies this`sessions
      ensures count == if Live(old(Data()), id, sessionId, now) then 1 else 0
      ensures sessions == if count == 1 then old(sessions)[sessionId := old(sessions)[sessionId].(lastUsedAt := now)]
                          else old(sessions)
    {
      if Live(Data(), id, sessionId, now) {
        sessions := sessions[sessionId := sessions[sessionId].(lastUsedAt := now)];
        return 1;
      }
      return 0;
    }

    /** The last statement of both: sign the identity out everywhere else. */
    method RevokeElsewhere(id: string, sessionId: string, now: int) returns (count: nat)
      modifies this`sessions
      ensures sessions == Revoked(old(sessions), UsableOthers(old(sessions), id, sessionId, now))
      ensures count == |UsableOthers(old(sessions), id, sessionId, now)|
    {
      var flipped := UsableOthers(sessions, id, sessionId, now);
      sessions := Revoked(sessions, flipped);
      count := |flipped|;
    }

    method ChangePasswordAndRevokeOtherSessions(id: string, sessionId: string, expected: string, hashed: string,
            now: int)
      returns (r: Result<nat, Refusal>)
      modifies this
      ensures r.Success? <==>
              && sessionId in old(sessions) && old(sessions)[sessionId].identityId == id
              && !old(sessions)[sessionId].revoked && now < old(sessions)[sessionId].expiresAt
              && id in old(identities) && old(identities)[id].password == expected
      ensures r.Success? ==>
                && ChangePassword(old(Data()), id, sessionId, expected, hashed, now) == Some(Data())
                && identities == old(identities)[
                     id := old(identities)[id].(password := hashed, passwordChangedAt := Some(now))]
                && SignsOutOthers(old(sessions), sessions, id, sessionId, now) && drafts == old(drafts)
                && r.value == |Elsewhere(old(Data()), id, sessionId, now)|
                && (forall s :: s in sessions && sessions[s].identityId == id ==>
                   (Usable(sessions[s], now) <==> s == sessionId))
      ensures r.Failure? ==>
                && ChangePassword(old(Data()), id, sessionId, expected, hashed, now) == None && Data() == old(Data())
                && r.error == if Live(Data(), id, sessionId, now) then StateChanged else SessionInvalid
    {
      var before := sessions;
      var touched := TouchSession(id, sessionId, now);
      if touched != 1 {
        return Failure(SessionInvalid);
      }
      if id !in identities || identities[id].password != expected {
        sessions := before;
        return Failure(StateChanged);
      }
      identities := identities[id := WithPassword(identities[id], hashed, now)];
      var count := RevokeElsewhere(id, sessionId, now);
      TouchingKeepsOthers(old(Data()), id, sessionId, now);
      OnlyCallerStaysSignedIn(old(Data()), id, sessionId, now);
      return Success(count);
    }

    method ChangeMpinAndRevokeOtherSessions(id: string, sessionId: string, expected: string, hashed: string, now: int)
      returns (r: Result<nat, Refusal>)
      modifies this
      ensures r.Success? <==>
              && sessionId in old(sessions) && old(sessions)[sessionId].identityId == id
              && !old(sessions)[sessionId].revoked && now < old(sessions)[sessionId].expiresAt
              && id in old(identities) && old(identities)[id].mpin == expected
      ensures r.Success? ==>
                && ChangeMpin(old(Data()), id, sessionId, expected, hashed, now) == Some(Data())
                && identities == old(identities)[
                     id := old(identities)[id].(mpin := hashed, mpinChangedAt := Some(now), onboarding := Completed,
                                                temporaryUntil := None)]
                && SignsOutOthers(old(sessions), sessions, id, sessionId, now) && drafts == old(drafts)
                && r.value == |Elsewhere(old(Data()), id, sessionId, now)|
                && (forall s :: s in sessions && sessions[s].identityId == id ==>
                   (Usable(sessions[s], now) <==> s == sessionId))
      ensures r.Failure? ==>
                && ChangeMpin(old(Data()), id, sessionId, expected, hashed, now) == None && Data() == old(Data())
                && r.error == if Live(Data(), id, sessionId, now) then StateChanged else SessionInvalid
    {
      var before := sessions;
      var touched := TouchSession(id, sessionId, now);
      if touched != 1 {
        return Failure(SessionInvalid);
      }
      if id !in identities || identities[id].mpin != expected {
        sessions := before;
        return Failure(StateChanged);
      }
      identities := identities[id := WithMpin(identities[id], hashed, now)];
      var count := RevokeElsewhere(id, sessionId, now);
      TouchingKeepsOthers(old(Data()), id, sessionId, now);
      OnlyCallerStaysSignedIn(old(Data()), id, sessionId, now);
      return Success(count);
    }

    method ResetPasswordWithVerifiedDraft(draftId: string, id: string, hashed: string, now: int)
      returns (r: Result<nat, Refusal>)
      modifies this
      ensures r.Success? <==>
              && draftId in old(drafts) && old(drafts)[draftId].identityId == id && old(drafts)[draftId].otpVerified
              && now < old(drafts)[draftId].expiresAt && id in old(identities)
      ensures r.Success? ==>
                && identities == old(identities)[
                     id := old(identities)[id].(password := hashed, passwordChangedAt := Some(now))]
                && drafts == old(drafts) - {draftId} && sessions.Keys == old(sessions).Keys
                && (forall s :: s in sessions ==>
                   sessions[s] == old(sessions)[s].(revoked := old(sessions)[s].revoked ||
                                                               old(sessions)[s].identityId == id))
      ensures r.Success? ==>
                && ResetPassword(old(Data()), draftId, id, hashed, now) == Some(Data())
                && r.value == |Unrevoked(old(sessions), id)|
                && (forall s :: s in sessions && sessions[s].identityId == id ==> sessions[s].revoked)
      ensures r.Failure? ==>
                && ResetPassword(old(Data()), draftId, id, hashed, now) == None && Data() == old(Data())
                && (r.error == DraftInvalid <==> !DraftUsable(Data(), draftId, id, now))
    {
      if !DraftUsable(Data(), draftId, id, now) {
        return Failure(DraftInvalid);
      }
      var before := drafts;
      drafts := drafts - {draftId};
      if id !in identities {
        drafts := before;
        return Failure(Refusal.NotFound);
      }
      identities := identities[id := WithPassword(identities[id], hashed, now)];
      var flipped := Unrevoked(sessions, id);
      sessions := Revoked(sessions, flipped);
      return Success(|flipped|);
    }
  }

  lemma TouchingKeepsOthers(db: Db, id: string, sessionId: string, now: int)
    requires sessionId in db.sessions
    ensures var touched := db.sessions[sessionId := db.sessions[sessionId].(lastUsedAt := now)];
            && UsableOthers(touched, id, sessionId, now) == Elsewhere(db, id, sessionId, now)
            && Revoked(touched, Elsewhere(db, id, sessionId, now)) == SignedOutElsewhere(db, id, sessionId, now)
  {
  }
}
