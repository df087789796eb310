/** IdentityService: numbered account creation, from a registration draft or by an administrator. */
module Registration {
  import opened Prelude
  import Text
  import Digits
  import opened LoginIds

  /** `last` is the number of the role's latest login ID. */
  datatype Role = Role(prefix: string, active: bool, last: nat)

  /** What the unique columns hold besides the login ID. */
  datatype Account = Account(
    roleName: string, username: string, email: string,
    phone: Option<string>, pan: Option<string>, aadhaar: Option<string>)

  /** A registration draft that has passed its earlier steps. */
  datatype Draft = Draft(roleName: string, phone: Option<string>, pan: Option<string>)

  /** A value that is present is in nobody's row; missing values never clash. */
  predicate Differs(given: Option<string>, stored: Option<string>) {
    given == None || given != stored
  }

  /** Two accounts that the unique columns let stand side by side. */
  predicate Compatible(a: Account, b: Account) {
    && a.username != b.username && a.email != b.email
    && Differs(a.phone, b.phone) && Differs(a.pan, b.pan) && Differs(a.aadhaar, b.aadhaar)
  }

  datatype Refusal = TwoCreators | NoCreator | SuperAdminRole | RoleUnavailable | DraftNotFound | CounterAtLimit | InUse

  function NextId(role: Role): string {
    LoginId(role.prefix, role.last + 1)
  }

  /** No two accounts share a value of a unique column. */
  ghost predicate UniqueColumns(accounts: map<string, Account>) {
    forall i, j | i in accounts && j in accounts && i != j ::
      && accounts[i].username != accounts[j].username && accounts[i].email != accounts[j].email
      && (accounts[i].phone.Some? ==> accounts[i].phone != accounts[j].phone)
      && (accounts[i].pan.Some? ==> accounts[i].pan != accounts[j].pan)
      && (accounts[i].aadhaar.Some? ==> accounts[i].aadhaar != accounts[j].aadhaar)
  }

  /** Some account holds one of the given values of the unique columns. */
  ghost predicate Taken(accounts: map<string, Account>, a: Account) {
    exists i :: i in accounts && (
        || accounts[i].username == a.username || accounts[i].email == a.email
        || (a.phone.Some? && accounts[i].phone == a.phone) || (a.pan.Some? && accounts[i].pan == a.pan)
        || (a.aadhaar.Some? && accounts[i].aadhaar == a.aadhaar))
  }

  /** A creator id counts only if it is a non-empty text. */
  predicate Present(creator: Option<string>) {
    creator.Some? && creator.value != ""
  }

  class IdentityService {
    /** The largest number a role's counter can hold. */
    const limit: nat
    var roles: map<string, Role>
    var drafts: map<string, Draft>
    var accounts: map<string, Account>

    constructor (roles: map<string, Role>, limit: nat)
      ensures this.limit == limit && this.roles == roles && drafts == map[] && accounts == map[]
    {
      this.limit, this.roles, drafts, accounts := limit, roles, map[], map[];
    }

    /** The unique columns accept a new account with these values. */
    predicate Free(loginId: string, account: Account)
      reads this
    {
      loginId !in accounts && forall id :: id in accounts ==> Compatible(account, accounts[id])
    }

    /** The role's counter has room, and the unique columns accept its next login ID and the account. */
    predicate Numberable(role: Role, account: Account)
      reads this
    {
      role.last < limit && Free(NextId(role), account)
    }

    /**
     * The common part of both transactions: increment the role's counter, which fails at its
     * limit, format the login ID, insert the account. A unique column that refuses the row rolls
     * the counter back.
     */
    method CreateNumbered(account: Account) returns (r: Result<string, Refusal>)
      requires account.roleName in roles
      modifies this`roles, this`accounts
      ensures r.Success? <==> old(Numberable(roles[account.roleName], account))
      ensures r.Success? <==>
              && old(roles)[account.roleName].last < limit && NextId(old(roles)[account.roleName]) !in old(accounts)
              && !Taken(old(accounts), account)
      ensures old(UniqueColumns(accounts)) ==> UniqueColumns(accounts)
      ensures r.Success? ==>
                && r.value == NextId(old(roles)[account.roleName])
                && roles == Counted(old(roles), account.roleName)
                && accounts == old(accounts)[r.value := account]
      ensures r.Failure? ==> roles == old(roles) && accounts == old(accounts)
      ensures r.Failure? ==> r.error == if roles[account.roleName].last >= limit then CounterAtLimit else InUse
    {
      var before := roles;
      if roles[account.roleName].last >= limit {
        return Failure(CounterAtLimit);
      }
      var number := roles[account.roleName].last + 1;
      roles := roles[account.roleName := roles[account.roleName].(last := number)];
      var loginId := roles[account.roleName].prefix + PadStart(Digits.Decimal(number), WIDTH);
      if !Free(loginId, account) {
        roles := before;
        return Failure(InUse);
      }
      accounts := accounts[loginId := account];
      return Success(loginId);
    }

    method CompleteRegistration(draftId: string, username: string, email: string, aadhaar: string)
      returns (r: Result<string, Refusal>)
      requires forall d :: d in drafts ==> drafts[d].roleName in roles
      modifies this
      ensures old(UniqueColumns(accounts)) ==> UniqueColumns(accounts)
      ensures r.Success? ==>
                && draftId in old(drafts) && drafts == old(drafts) - {draftId}
                && var d := old(drafts)[draftId];
                   && old(roles)[d.roleName].active
                   && r.value == NextId(old(roles)[d.roleName]) && r.value !in old(accounts)
                   && roles == Counted(old(roles), d.roleName)
                   && accounts == old(accounts)[
                        r.value := Account(d.roleName, username, email, d.phone, d.pan, Some(aadhaar))]
      ensures r.Failure? ==> roles == old(roles) && accounts == old(accounts) && drafts == old(drafts)
      ensures r.Failure? ==>
                r.error ==
                if draftId !in drafts then DraftNotFound
                else if !roles[drafts[draftId].roleName].active then RoleUnavailable
                else if roles[drafts[draftId].roleName].last >= limit then CounterAtLimit else InUse
      ensures draftId in old(drafts) && old(roles)[old(drafts)[draftId].roleName].active ==>
                (r.Success? <==>
                 var d := old(drafts)[draftId];
                 old(Numberable(roles[d.roleName],
                     Account(d.roleName, username, email, d.phone, d.pan, Some(aadhaar)))))
    {
      if draftId !in drafts {
        return Failure(DraftNotFound);
      }
      var d := drafts[draftId];
      if !roles[d.roleName].active {
        return Failure(RoleUnavailable);
      }
      r := CreateNumbered(Account(d.roleName, username, email, d.phone, d.pan, Some(aadhaar)));
      if r.Success? {
        drafts := drafts - {draftId};
      }
    }

    method CreateAdminManagedIdentity(bySuperAdmin: Option<string>, byIdentity: Option<string>, roleName: string,
                                      username: string, email: string)
      returns (r: Result<string, Refusal>)
      modifies this`roles, this`accounts
      ensures old(UniqueColumns(accounts)) ==> UniqueColumns(accounts)
      ensures r == Failure(TwoCreators) <==> bySuperAdmin !in [None, Some("")] && byIdentity !in [None, Some("")]
      ensures r == Failure(NoCreator) <==> bySuperAdmin in [None, Some("")] && byIdentity in [None, Some("")]
      ensures r.Success? ==>
                && var name := Text.Code(roleName);
                   && name in old(roles) && old(roles)[name].active && name != "SUPER_ADMIN"
                   && r.value == NextId(old(roles)[name]) && r.value !in old(accounts)
                   && roles == Counted(old(roles), name)
                   && accounts == old(accounts)[
                        r.value := Account(name, Text.Lower(Text.Trim(username)), Text.Lower(Text.Trim(email)),
                                           None, None, None)]
      ensures r.Failure? ==> roles == old(roles) && accounts == old(accounts)
      ensures r.Failure? ==>
                r.error ==
                if Present(bySuperAdmin) && Present(byIdentity) then TwoCreators
                else if !Present(bySuperAdmin) && !Present(byIdentity) then NoCreator
                else if Text.Code(roleName) == "SUPER_ADMIN" then SuperAdminRole
                else if Text.Code(roleName) !in roles || !roles[Text.Code(roleName)].active then RoleUnavailable
                else if roles[Text.Code(roleName)].last >= limit then CounterAtLimit else InUse
      ensures var name := Text.Code(roleName);
              Present(bySuperAdmin) != Present(byIdentity) && name != "SUPER_ADMIN" && name in old(roles) &&
                  old(roles)[name].active ==>
                (r.Success? <==> old(Numberable(roles[Text.Code(roleName)],
                    Managed(Text.Code(roleName), username, email))))
    {
      if Present(bySuperAdmin) && Present(byIdentity) {
        return Failure(TwoCreators);
      }
      if !Present(bySuperAdmin) && !Present(byIdentity) {
        return Failure(NoCreator);
      }
      var name := Text.Code(roleName);
      if name == "SUPER_ADMIN" {
        return Failure(SuperAdminRole);
      }
      if name !in roles || !roles[name].active {
        return Failure(RoleUnavailable);
      }
      r := CreateNumbered(Managed(name, username, email));
    }
  }

  function Counted(roles: map<string, Role>, name: string): map<string, Role>
    requires name in roles
  {
    roles[name := roles[name].(last := roles[name].last + 1)]
  }

  /** An administrator-created account: normalised names, and nothing known yet that is verified later. */
  function Managed(name: string, username: string, email: string): Account {
    Account(name, Text.Lower(Text.Trim(username)), Text.Lower(Text.Trim(email)), None, None, None)
  }

  /**
   * Two administrator-created accounts can stand side by side exactly if neither their user names
   * nor their e-mail addresses are the same up to case and outer white space.
   */
  lemma SpellingsClash(name: string, username: string, email: string, other: string, username2: string, email2: string)
    ensures Compatible(Managed(name, username, email), Managed(other, username2, email2)) <==>
            !Text.Variant(username, username2) && !Text.Variant(email, email2)
  {
    Text.LowerAgreesIff(Text.Trim(username), Text.Trim(username2));
    Text.LowerAgreesIff(Text.Trim(email), Text.Trim(email2));
    Text.VariantIffTrims(username, username2);
    Text.VariantIffTrims(email, email2);
  }

  // ---------------------------------------------------------------- runs

  /** How far a role's counter can go, and where it and the prefix start. */
  datatype Config = Config(prefixes: map<string, string>, starts: map<string, nat>, limit: nat)

  /** Prefixes are fixed; only activity and counters change. */
  datatype State = State(roles: map<string, Role>, ids: set<string>)

  /** A creation that another unique column refuses changes nothing and is not listed. */
  datatype Step = SetActive(name: string, active: bool) | Create(name: string)

  /** Every role has a start within the counter's range, and no two have the same prefix. */
  ghost predicate ValidConfig(c: Config) {
    && c.starts.Keys == c.prefixes.Keys
    && (forall name :: name in c.starts ==> c.starts[name] <= c.limit)
    && (forall a, b | a in c.prefixes && b in c.prefixes && a != b :: c.prefixes[a] != c.prefixes[b])
  }

  /** The counter has room, but the login ID it generates is already somebody's: the creation is rolled back. */
  predicate Refused(c: Config, s: State, name: string) {
    name in s.roles && s.roles[name].last < c.limit && NextId(s.roles[name]) in s.ids
  }

  function Next(c: Config, s: State, step: Step): State {
    match step
    case SetActive(name, active) =>
      if name !in s.roles then s else s.(roles := s.roles[name := s.roles[name].(active := active)])
    case Create(name) =>
      if name !in s.roles || !s.roles[name].active || s.roles[name].last >= c.limit || Refused(c, s, name) then s
      else State(Counted(s.roles, name), s.ids + {NextId(s.roles[name])})
  }

  function Run(c: Config, s: State, steps: seq<Step>): State
    decreases |steps|
  {
    if steps == [] then s else Run(c, Next(c, s, steps[0]), steps[1..])
  }

  function Start(c: Config): State
    requires c.starts.Keys == c.prefixes.Keys
  {
    State(map name | name in c.prefixes :: Role(c.prefixes[name], true, c.starts[name]), {})
  }

  /** No role can generate a login ID that another role can generate too. */
  ghost predicate SafePrefixes(c: Config)
    requires c.starts.Keys == c.prefixes.Keys
  {
    forall a, b | a in c.prefixes && b in c.prefixes && a != b ::
      !Meets(c.prefixes[a], c.starts[a], c.prefixes[b], c.starts[b], c.limit)
  }

  ghost predicate NeverRefused(c: Config)
    requires c.starts.Keys == c.prefixes.Keys
  {
    forall steps: seq<Step>, name :: name in c.prefixes ==> !Refused(c, Run(c, Start(c), steps), name)
  }

  predicate HandedOut(c: Config, s: State, name: string, k: nat, id: string) {
    name in s.roles && name in c.starts && c.starts[name] < k <= s.roles[name].last &&
        id == LoginId(s.roles[name].prefix, k)
  }

  /** Every login ID in use is one of the numbers some role has counted through since its start. */
  ghost predicate Dense(c: Config, s: State) {
    && s.roles.Keys == c.prefixes.Keys == c.starts.Keys
    && (forall name :: name in s.roles ==>
          s.roles[name].prefix == c.prefixes[name] && c.starts[name] <= s.roles[name].last <= c.limit)
    && (forall id :: id in s.ids ==> exists name, k: nat :: HandedOut(c, s, name, k, id))
  }

  lemma StillHandedOut(c: Config, s: State, step: Step, id: string)
    requires exists name, k: nat :: HandedOut(c, s, name, k, id)
    ensures exists name, k: nat :: HandedOut(c, Next(c, s, step), name, k, id)
  {
    var name, k: nat :| HandedOut(c, s, name, k, id);
    assert HandedOut(c, Next(c, s, step), name, k, id);
  }

  lemma NextKeepsDense(c: Config, s: State, step: Step)
    requires ValidConfig(c) && Dense(c, s)
    ensures Dense(c, Next(c, s, step))
  {
    var t := Next(c, s, step);
    forall id | id in t.ids ensures exists name, k: nat :: HandedOut(c, t, name, k, id) {
      if id in s.ids {
        StillHandedOut(c, s, step, id);
      } else {
        assert HandedOut(c, t, step.name, t.roles[step.name].last, id);
      }
    }
  }

  lemma {:induction false} RunKeepsDense(c: Config, s: State, steps: seq<Step>)
    requires ValidConfig(c) && Dense(c, s)
    ensures Dense(c, Run(c, s, steps))
    decreases |steps|
  {
    if steps != [] {
      NextKeepsDense(c, s, steps[0]);
      RunKeepsDense(c, Next(c, s, steps[0]), steps[1..]);
    }
  }

  lemma SafeMeansFresh(c: Config, s: State, name: string)
    requires ValidConfig(c) && SafePrefixes(c) && Dense(c, s) && name in c.prefixes
    ensures !Refused(c, s, name)
  {
    var number := s.roles[name].last + 1;
    forall other, k: nat | number <= c.limit && other in c.prefixes &&
        HandedOut(c, s, other, k, LoginId(c.prefixes[other], k))
      ensures LoginId(c.prefixes[other], k) != NextId(s.roles[name])
    {
      if other == name {
        SamePrefixInjective(c.prefixes[name], k, number);
      } else {
        NumbersCollideIff(c.prefixes[other], c.starts[other], c.prefixes[name], c.starts[name], c.limit);
      }
    }
  }

  /** A refused role is stuck: its next number never changes and stays taken. */
  lemma {:induction false} RefusedForever(c: Config, s: State, steps: seq<Step>, name: string)
    requires Refused(c, s, name)
    ensures Refused(c, Run(c, s, steps), name) && Run(c, s, steps).roles[name].last == s.roles[name].last
    decreases |steps|
  {
    if steps != [] {
      RefusedForever(c, Next(c, s, steps[0]), steps[1..], name);
    }
  }

  /** One role creates until its counter has reached `number`, unless a login ID on the way is taken. */
  lemma {:induction false} CountUpTo(c: Config, s: State, name: string, number: nat) returns (steps: seq<Step>)
    requires name in s.roles && s.roles[name].active && s.roles[name].last <= number <= c.limit
    ensures var t := Run(c, s, steps);
            && s.ids <= t.ids
            && (Refused(c, t, name) || t.roles == s.roles[name := s.roles[name].(last := number)])
            && (s.roles[name].last < number && !Refused(c, t, name) ==> LoginId(s.roles[name].prefix, number) in t.ids)
    decreases number - s.roles[name].last
  {
    if s.roles[name].last == number || Refused(c, s, name) {
      assert s.roles == s.roles[name := s.roles[name].(last := s.roles[name].last)];
      return [];
    }
    var t := Next(c, s, Create(name));
    var rest := CountUpTo(c, t, name, number);
    steps := [Create(name)] + rest;
    assert steps[1..] == rest;
  }

  lemma {:induction false} RunInTwo(c: Config, s: State, one: seq<Step>, two: seq<Step>)
    ensures Run(c, s, one + two) == Run(c, Run(c, s, one), two)
    decreases |one|
  {
    if one == [] {
      assert one + two == two;
    } else {
      assert (one + two)[1..] == one[1..] + two;
      RunInTwo(c, Next(c, s, one[0]), one[1..], two);
    }
  }

  /** Once the role b has handed out the login ID of number m of a, a gets no further than m. */
  lemma CountingRunsInto(c: Config, s: State, a: string, m: nat) returns (steps: seq<Step>)
    requires a in s.roles && s.roles[a].active && s.roles[a].last < m <= c.limit
    requires LoginId(s.roles[a].prefix, m) in s.ids
    ensures Refused(c, Run(c, s, steps), a)
  {
    steps := CountUpTo(c, s, a, m - 1);
  }

  /** If a number of b meets one of a, some run refuses one of the two roles. */
  lemma MeetingGetsStuck(c: Config, a: string, b: string) returns (steps: seq<Step>, name: string)
    requires ValidConfig(c) && a in c.prefixes && b in c.prefixes && a != b
    requires Meets(c.prefixes[a], c.starts[a], c.prefixes[b], c.starts[b], c.limit)
    ensures name in c.prefixes && Refused(c, Run(c, Start(c), steps), name)
  {
    var n: nat :| c.starts[b] < n && c.starts[a] < Partner(c.prefixes[a], c.prefixes[b], n) <= c.limit;
    var m := Partner(c.prefixes[a], c.prefixes[b], n);
    ExtensionCollides(c.prefixes[a], c.prefixes[b], m, n);
    var one := CountUpTo(c, Start(c), b, n);
    var s := Run(c, Start(c), one);
    if Refused(c, s, b) {
      return one, b;
    }
    var two := CountingRunsInto(c, s, a, m);
    RunInTwo(c, Start(c), one, two);
    return one + two, a;
  }

  /**
   * Wherever the counters start and however far they reach: no creation is ever refused for its
   * generated login ID, in any run, if and only if no two roles' numbers meet.
   */
  lemma NoRunIsRefusedIff(c: Config)
    requires ValidConfig(c)
    ensures NeverRefused(c) <==> SafePrefixes(c)
  {
    if SafePrefixes(c) {
      forall steps, name | name in c.prefixes ensures !Refused(c, Run(c, Start(c), steps), name) {
        RunKeepsDense(c, Start(c), steps);
        SafeMeansFresh(c, Run(c, Start(c), steps), name);
      }
    } else {
      var a, b :| a in c.prefixes && b in c.prefixes && a != b &&
                  Meets(c.prefixes[a], c.starts[a], c.prefixes[b], c.starts[b], c.limit);
      var steps, name := MeetingGetsStuck(c, a, b);
      assert !(name in c.prefixes ==> !Refused(c, Run(c, Start(c), steps), name));
    }
  }

  /** Digit-free prefixes are safe from any starts; the limit does not matter. */
  lemma DigitFreePrefixesAreSafe(c: Config)
    requires ValidConfig(c) && forall name :: name in c.prefixes ==> DigitFree(c.prefixes[name])
    ensures NeverRefused(c)
  {
    forall a, b | a in c.prefixes && b in c.prefixes && a != b
      ensures !Meets(c.prefixes[a], c.starts[a], c.prefixes[b], c.starts[b], c.limit)
    {
      DigitFreeIsSafe(c.prefixes[a], c.prefixes[b]);
    }
    NoRunIsRefusedIff(c);
  }

  /** Two roles A and A1 with the usual start 1000 and a 32-bit counter are not. */
  lemma UsualStartsGetStuck(c: Config)
    requires c.prefixes == map["X" := "A", "Y" := "A1"] && c.starts == map["X" := 1000, "Y" := 1000]
    requires c.limit == 2147483647
    ensures !NeverRefused(c)
  {
    UsualNumbersMeet();
    assert Meets(c.prefixes["X"], c.starts["X"], c.prefixes["Y"], c.starts["Y"], c.limit);
    NoRunIsRefusedIff(c);
  }
}
