/** AepsMerchantProfileService: one profile per identity and provider. */
module MerchantProfiles {
  import opened Prelude

  datatype Status =
    | NotStarted | Onboarding | ActionRequired | UnderReview | Active | Rejected | Failed | Suspended | Blocked

  datatype Profile = Profile(
    bankAccountId: Option<string>,
    kycProfileId: Option<string>,
    merchantId: Option<string>,
    userCode: Option<string>,
    status: Status,
    registered: bool,
    onboarded: bool,
    activated: bool,
    checkedAt: Option<int>,
    reason: Option<string>,
    registeredAt: Option<int>,
    onboardedAt: Option<int>,
    activatedAt: Option<int>)

  /** Identity id and provider, the unique pair of the table. */
  type Key = (string, string)

  type Profiles = map<Key, Profile>

  datatype Problem = ProfileNotFound | Forbidden(status: Status) | MerchantIdTaken

  const REASON_LENGTH: nat := 500

  function Cut(reason: string): string {
    if |reason| > REASON_LENGTH then reason[..REASON_LENGTH] else reason
  }

  function CutOption(reason: Option<string>): Option<string> {
    if reason.Some? then Some(Cut(reason.value)) else None
  }

  /** An undefined value in the data of an update leaves the column alone. */
  function Keep<T>(given: Option<T>, stored: Option<T>): Option<T> {
    if given.Some? then given else stored
  }

  // ---------------------------------------------------------------- the writes on one row

  function Fresh(bankAccountId: Option<string>, kycProfileId: Option<string>): Profile {
    Profile(bankAccountId, kycProfileId, None, None, Onboarding, false, false, false, None, None, None, None, None)
  }

  /** The provider has this merchant already: a non-empty id counts like the flag. */
  predicate KnownToProvider(p: Profile) {
    p.registered || (p.merchantId.Some? && p.merchantId.value != "")
  }

  predicate Barred(p: Profile) {
    p.status == Blocked || p.status == Suspended
  }

  function WithReferences(p: Profile, bankAccountId: Option<string>, kycProfileId: Option<string>): Profile {
    p.(bankAccountId := Keep(bankAccountId, p.bankAccountId), kycProfileId := Keep(kycProfileId, p.kycProfileId),
       status := Onboarding, reason := None)
  }

  /** Starting over after a rejection or failure. */
  function Reset(p: Profile, bankAccountId: Option<string>, kycProfileId: Option<string>): Profile {
    WithReferences(p, bankAccountId, kycProfileId).(
      merchantId := None, userCode := None, registered := false, onboarded := false, activated := false,
      registeredAt := None, onboardedAt := None, activatedAt := None)
  }

  datatype Mark =
    | Registered(merchantId: string, userCode: Option<string>)
    | NeedsAction(why: Option<string>)
    | InReview(why: Option<string>)
    | OnboardingDone(nextStatus: Status)
    | Activated
    | Fails(because: string)
    | IsRejected(because: string)
    | IsSuspended(why: Option<string>)
    | IsBlocked(why: Option<string>)
    | StatusChecked

  function Marked(p: Profile, mark: Mark, now: int): Profile {
    match mark
    case Registered(merchantId, userCode) =>
      p.(merchantId := Some(merchantId), userCode := Keep(userCode, p.userCode), registered := true, onboarded := false,
         activated := false, status := ActionRequired, registeredAt := Some(now), reason := None)
    case NeedsAction(why) => p.(status := ActionRequired, reason := CutOption(why), activated := false)
    case InReview(why) => p.(status := UnderReview, reason := CutOption(why), activated := false)
    case OnboardingDone(nextStatus) =>
      p.(onboarded := true, onboardedAt := Some(now), status := nextStatus, reason := None)
    case Activated =>
      p.(registered := true, onboarded := true, activated := true, status := Active,
         onboardedAt := Keep(p.onboardedAt, Some(now)), activatedAt := Keep(p.activatedAt, Some(now)), reason := None)
    case Fails(because) => p.(status := Failed, activated := false, reason := Some(Cut(because)))
    case IsRejected(because) => p.(status := Rejected, activated := false, reason := Some(Cut(because)))
    case IsSuspended(why) => p.(status := Suspended, activated := false, reason := CutOption(why))
    case IsBlocked(why) => p.(status := Blocked, activated := false, reason := CutOption(why))
    case StatusChecked => p.(checkedAt := Some(now))
  }

  // ---------------------------------------------------------------- what the marks mean, field by field

  function StatusAfter(p: Profile, mark: Mark): Status {
    if mark.StatusChecked? then p.status
    else if mark.OnboardingDone? then mark.nextStatus
    else if mark.Activated? then Active
    else if mark.InReview? then UnderReview
    else if mark.Fails? then Failed
    else if mark.IsRejected? then Rejected
    else if mark.IsSuspended? then Suspended
    else if mark.IsBlocked? then Blocked
    else ActionRequired
  }

  /** The reason a mark comes with, if any. */
  function ReasonGiven(mark: Mark): Option<string> {
    if mark.Fails? || mark.IsRejected? then Some(mark.because)
    else if mark.NeedsAction? || mark.InReview? || mark.IsSuspended? || mark.IsBlocked? then mark.why
    else None
  }

  /** The stored reason is the given one or its first 500 characters; without one there is none. */
  predicate StoresReason(given: Option<string>, stored: Option<string>) {
    if given == None then stored == None
    else
      && stored.Some? && stored.value <= given.value
      && |stored.value| == if |given.value| <= 500 then |given.value| else 500
  }

  ghost predicate MarkEffect(p: Profile, mark: Mark, now: int, q: Profile) {
    && q.bankAccountId == p.bankAccountId && q.kycProfileId == p.kycProfileId
    && q.merchantId == (if mark.Registered? then Some(mark.merchantId) else p.merchantId)
    && q.userCode == (if mark.Registered? && mark.userCode.Some? then mark.userCode else p.userCode)
    && q.status == StatusAfter(p, mark)
    && (if mark.StatusChecked? then q.reason == p.reason else StoresReason(ReasonGiven(mark), q.reason))
    && q.registered == (p.registered || mark.Registered? || mark.Activated?)
    && q.onboarded == (!mark.Registered? && (p.onboarded || mark.OnboardingDone? || mark.Activated?))
    && q.activated == (mark.Activated? || (p.activated && (mark.OnboardingDone? || mark.StatusChecked?)))
    && q.checkedAt == (if mark.StatusChecked? then Some(now) else p.checkedAt)
    && q.registeredAt == (if mark.Registered? then Some(now) else p.registeredAt)
    && q.onboardedAt ==
       (if mark.OnboardingDone? || (mark.Activated? && p.onboardedAt == None) then Some(now) else p.onboardedAt)
    && q.activatedAt == (if mark.Activated? && p.activatedAt == None then Some(now) else p.activatedAt)
  }

  /** The unique pair of provider and merchant id lets the mark through. */
  predicate MarkAllowed(t: Profiles, key: Key, mark: Mark) {
    mark.Registered? ==>
      forall other :: other in t && other != key && other.1 == key.1 ==> t[other].merchantId != Some(mark.merchantId)
  }

  // ---------------------------------------------------------------- invariants

  ghost predicate Sound(p: Profile) {
    && (p.merchantId.Some? ==> p.registered)
    && (p.activated ==> p.registered && p.onboarded && p.onboardedAt.Some? && p.activatedAt.Some?)
    && (p.onboarded ==> p.onboardedAt.Some?)
    && (p.reason.Some? ==> |p.reason.value| <= REASON_LENGTH)
  }

  ghost predicate AllSound(t: Profiles) {
    forall key :: key in t ==> Sound(t[key])
  }

  ghost predicate UniqueMerchants(t: Profiles) {
    forall i, j | i in t && j in t && i.1 == j.1 && t[i].merchantId == t[j].merchantId != None :: i == j
  }

  /** No other profile of the provider has this merchant id. */
  predicate MerchantFree(t: Profiles, key: Key, merchantId: Option<string>) {
    merchantId == None ||
    forall other :: other in t && other != key && other.1 == key.1 ==> t[other].merchantId != merchantId
  }

  lemma OwnMerchantIsFree(t: Profiles, key: Key)
    requires UniqueMerchants(t) && key in t
    ensures MerchantFree(t, key, t[key].merchantId)
  {
  }

  lemma StoringKeepsAll(t: Profiles, key: Key, p: Profile)
    requires AllSound(t) && UniqueMerchants(t) && Sound(p) && MerchantFree(t, key, p.merchantId)
    ensures AllSound(t[key := p]) && UniqueMerchants(t[key := p])
  {
  }

  class AepsMerchantProfileService {
    var profiles: Profiles

    constructor ()
      ensures profiles == map[]
    {
      profiles := map[];
    }

    /** True asks the caller to register with the provider. */
    method PrepareProviderRegistration(key: Key, bankAccountId: Option<string>, kycProfileId: Option<string>)
      returns (r: Result<bool, Problem>)
      requires AllSound(profiles)
      modifies this
      ensures AllSound(profiles) && key in profiles && profiles == old(profiles)[key := profiles[key]]
      ensures profiles == After(old(profiles), Prepare(key, bankAccountId, kycProfileId))
      ensures r == Success(true) <==> AsksProvider(old(profiles), Prepare(key, bankAccountId, kycProfileId))
      ensures r.Failure? <==> key in old(profiles) && Barred(old(profiles)[key])
      ensures r.Success? && r.value <==>
              key !in old(profiles) || (!Barred(old(profiles)[key]) && !old(profiles)[key].registered)
      ensures r != Success(true) ==> profiles[key] == old(profiles)[key]
      ensures r.Failure? ==> r.error == Forbidden(old(profiles)[key].status)
      ensures r == Success(true) ==>
                && profiles[key].status == Onboarding && profiles[key].reason == None && !profiles[key].registered
                && profiles[key].merchantId == None && !profiles[key].activated
      ensures key !in old(profiles) ==>
                profiles[key] == Profile(bankAccountId, kycProfileId, None, None, Onboarding, false, false, false,
                                         None, None, None, None, None)
      ensures r == Success(true) && key in old(profiles) ==>
                var was := old(profiles)[key];
                var p := was.(bankAccountId := if bankAccountId.Some? then bankAccountId else was.bankAccountId,
                              kycProfileId := if kycProfileId.Some? then kycProfileId else was.kycProfileId,
                              status := Onboarding, reason := None);
                profiles[key] ==
                  if was.status in {Rejected, Failed}
                  then Profile(p.bankAccountId, p.kycProfileId, None, None, Onboarding, false, false, false,
                               p.checkedAt, None, None, None, None)
                  else p
    {
      if key !in profiles {
        profiles := profiles[key := Fresh(bankAccountId, kycProfileId)];
      }
      var profile := profiles[key];
      if profile.status == Blocked || profile.status == Suspended {
        return Failure(Forbidden(profile.status));
      }
      if KnownToProvider(profile) {
        return Success(false);
      }
      if profile.status == Rejected || profile.status == Failed {
        profiles := profiles[key := Reset(profile, bankAccountId, kycProfileId)];
        return Success(true);
      }
      profiles := profiles[key := WithReferences(profile, bankAccountId, kycProfileId)];
      return Success(true);
    }

    /** The ten `mark` operations; all refuse a missing profile, registering also a merchant id that is taken. */
    method Note(key: Key, mark: Mark, now: int) returns (r: Result<Profile, Problem>)
      requires AllSound(profiles)
      modifies this
      ensures AllSound(profiles)
      ensures r.Success? <==>
              && key in old(profiles)
              && !(exists other :: other in old(profiles) && other != key && other.1 == key.1 &&
                      mark.Registered? && old(profiles)[other].merchantId == Some(mark.merchantId))
      ensures r.Failure? ==> r.error == if key in profiles then MerchantIdTaken else ProfileNotFound
      ensures profiles == if r.Success? then old(profiles)[key := r.value] else old(profiles)
      ensures profiles == After(old(profiles), SetMark(key, mark, now))
      ensures r.Success? ==> MarkEffect(old(profiles)[key], mark, now, r.value)
    {
      if key !in profiles {
        return Failure(ProfileNotFound);
      }
      if !MarkAllowed(profiles, key, mark) {
        return Failure(MerchantIdTaken);
      }
      MarkedIsSound(profiles[key], mark, now);
      MarkedAsStated(profiles[key], mark, now);
      profiles := profiles[key := Marked(profiles[key], mark, now)];
      return Success(profiles[key]);
    }
  }

  lemma MarkedIsSound(p: Profile, mark: Mark, now: int)
    requires Sound(p)
    ensures Sound(Marked(p, mark, now)) && (p.registered ==> Marked(p, mark, now).registered)
  {
  }

  /** Each mark writes the fields it stands for and no others. */
  lemma MarkedAsStated(p: Profile, mark: Mark, now: int)
    ensures MarkEffect(p, mark, now, Marked(p, mark, now))
  {
    match mark
    case Registered(_, _) =>
    case NeedsAction(_) =>
    case InReview(_) =>
    case OnboardingDone(_) =>
    case Activated =>
    case Fails(_) =>
    case IsRejected(_) =>
    case IsSuspended(_) =>
    case IsBlocked(_) =>
    case StatusChecked =>
  }

  // ---------------------------------------------------------------- runs

  datatype Call =
    | Prepare(key: Key, bankAccountId: Option<string>, kycProfileId: Option<string>)
    | SetMark(key: Key, mark: Mark, now: int)

  /** What a preparation does to the row it sees; the boolean asks for a call to the provider. */
  function Prepared(p: Profile, bankAccountId: Option<string>, kycProfileId: Option<string>): (Profile, bool) {
    if Barred(p) || KnownToProvider(p) then (p, false)
    else if p.status == Rejected || p.status == Failed then (Reset(p, bankAccountId, kycProfileId), true)
    else (WithReferences(p, bankAccountId, kycProfileId), true)
  }

  function After(t: Profiles, call: Call): Profiles {
    match call
    case Prepare(key, bank, kyc) => t[key := Prepared(if key in t then t[key] else Fresh(bank, kyc), bank, kyc).0]
    case SetMark(key, mark, now) =>
      if key in t && MarkAllowed(t, key, mark) then t[key := Marked(t[key], mark, now)] else t
  }

  /** The call ends by asking its caller to register with the provider. */
  predicate AsksProvider(t: Profiles, call: Call) {
    call.Prepare? &&
    Prepared(if call.key in t then t[call.key] else Fresh(call.bankAccountId, call.kycProfileId),
             call.bankAccountId, call.kycProfileId).1
  }

  function Run(t: Profiles, calls: seq<Call>): Profiles
    decreases |calls|
  {
    if calls == [] then t else Run(After(t, calls[0]), calls[1..])
  }

  lemma AfterKeepsAll(t: Profiles, call: Call)
    requires AllSound(t) && UniqueMerchants(t)
    ensures AllSound(After(t, call)) && UniqueMerchants(After(t, call))
  {
    if call.key in t {
      OwnMerchantIsFree(t, call.key);
    }
    match call
    case Prepare(key, bank, kyc) =>
      StoringKeepsAll(t, key, Prepared(if key in t then t[key] else Fresh(bank, kyc), bank, kyc).0);
    case SetMark(key, mark, now) =>
      if key in t && MarkAllowed(t, key, mark) {
        MarkedIsSound(t[key], mark, now);
        StoringKeepsAll(t, key, Marked(t[key], mark, now));
      }
  }

  lemma {:induction false} RunKeepsSound(t: Profiles, calls: seq<Call>)
    requires AllSound(t) && UniqueMerchants(t)
    ensures AllSound(Run(t, calls)) && UniqueMerchants(Run(t, calls))
    decreases |calls|
  {
    if calls != [] {
      AfterKeepsAll(t, calls[0]);
      RunKeepsSound(After(t, calls[0]), calls[1..]);
    }
  }

  /**
   * In every sequence of calls a stored merchant id implies registered, and service-activated
   * implies registered, onboarded and both timestamps. No two profiles of a provider share a
   * merchant id.
   */
  lemma ProfilesAreSound(calls: seq<Call>, key: Key)
    requires key in Run(map[], calls)
    ensures Sound(Run(map[], calls)[key]) && UniqueMerchants(Run(map[], calls))
  {
    RunKeepsSound(map[], calls);
  }

  /** Once registered, always registered: no later preparation asks for the provider again. */
  lemma {:induction false} RegisteredForever(t: Profiles, calls: seq<Call>, key: Key,
                                             bank: Option<string>, kyc: Option<string>)
    requires key in t && t[key].registered
    ensures var u := Run(t, calls); key in u && u[key].registered && !AsksProvider(u, Prepare(key, bank, kyc))
    decreases |calls|
  {
    if calls != [] {
      RegisteredForever(After(t, calls[0]), calls[1..], key, bank, kyc);
    }
  }
}
