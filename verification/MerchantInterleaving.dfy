/**
 * Overlapping calls on merchant profiles. A preparation reads the profile and later writes it;
 * five of the marks read the profile first, too. The other marks are single statements.
 */
module MerchantInterleaving {
  import opened Prelude
  import opened MerchantProfiles

  /** A call between its read and its write; `seen` is the row it read. */
  datatype Pending =
    | Preparing(key: Key, seen: Profile, bankAccountId: Option<string>, kycProfileId: Option<string>)
    | Marking(key: Key, seen: Profile, mark: Mark)

  /**
   * `calls` holds every call ever begun, `asked` those that ended by asking for the provider, and
   * for which profile.
   */
  datatype State = State(profiles: Profiles, pending: map<nat, Pending>, calls: set<nat>, asked: set<(nat, Key)>)

  datatype Step =
    | BeginPrepare(call: nat, key: Key, bankAccountId: Option<string>, kycProfileId: Option<string>)
    | BeginMark(call: nat, key: Key, mark: Mark)
    | Finish(call: nat, now: int)
    | MarkAtOnce(key: Key, mark: Mark, now: int)

  const EMPTY: State := State(map[], map[], {}, {})

  /** The marks that read the profile before they write. */
  predicate ReadsFirst(mark: Mark) {
    mark.Activated? || mark.Fails? || mark.IsRejected? || mark.IsSuspended? || mark.IsBlocked?
  }

  /** A preparation that read this row goes on to write, and asks for the provider. */
  predicate GoesOn(seen: Profile) {
    !Barred(seen) && !KnownToProvider(seen)
  }

  /** And its write starts over. */
  predicate StartsOver(seen: Profile) {
    GoesOn(seen) && (seen.status == Rejected || seen.status == Failed)
  }

  /** The write of a pending call on the row as it is by then. */
  function Written(c: Pending, p: Profile, now: int): Profile {
    match c
    case Preparing(_, seen, bank, kyc) => if StartsOver(seen) then Reset(p, bank, kyc) else WithReferences(p, bank, kyc)
    case Marking(_, seen, mark) =>
      if mark.Activated?
      then Marked(p, mark, now).(onboardedAt := Keep(seen.onboardedAt, Some(now)),
                                 activatedAt := Keep(seen.activatedAt, Some(now)))
      else Marked(p, mark, now)
  }

  function Begun(s: State, call: nat, key: Key, bank: Option<string>, kyc: Option<string>): State {
    var t := if key in s.profiles then s.profiles else s.profiles[key := Fresh(bank, kyc)];
    s.(profiles := t, calls := s.calls + {call},
       pending := if GoesOn(t[key]) then s.pending[call := Preparing(key, t[key], bank, kyc)] else s.pending)
  }

  function Next(s: State, step: Step): State {
    match step
    case BeginPrepare(call, key, bank, kyc) => if call in s.calls then s else Begun(s, call, key, bank, kyc)
    case BeginMark(call, key, mark) =>
      if call in s.calls || key !in s.profiles || !ReadsFirst(mark) then s
      else s.(calls := s.calls + {call}, pending := s.pending[call := Marking(key, s.profiles[key], mark)])
    case Finish(call, now) =>
      if call !in s.pending || s.pending[call].key !in s.profiles then s
      else
        var c := s.pending[call];
        s.(profiles := s.profiles[c.key := Written(c, s.profiles[c.key], now)], pending := s.pending - {call},
           asked := if c.Preparing? then s.asked + {(call, c.key)} else s.asked)
    case MarkAtOnce(key, mark, now) =>
      if key in s.profiles && !ReadsFirst(mark) && MarkAllowed(s.profiles, key, mark)
      then s.(profiles := s.profiles[key := Marked(s.profiles[key], mark, now)]) else s
  }

  function Run(s: State, steps: seq<Step>): State
    decreases |steps|
  {
    if steps == [] then s else Run(Next(s, steps[0]), steps[1..])
  }

  /** A preparation that nothing disturbs does and asks exactly what the service's method does. */
  lemma UndisturbedPreparation(s: State, call: nat, key: Key, bank: Option<string>, kyc: Option<string>, now: int)
    requires call !in s.calls && call !in s.pending && (call, key) !in s.asked
    ensures var t := Next(Next(s, BeginPrepare(call, key, bank, kyc)), Finish(call, now));
            && t.profiles == After(s.profiles, Prepare(key, bank, kyc)) && t.pending == s.pending
            && ((call, key) in t.asked <==> AsksProvider(s.profiles, Prepare(key, bank, kyc)))
  {
    var t := Begun(s, call, key, bank, kyc);
    assert s.pending - {call} == s.pending;
    assert key in s.profiles ==> s.profiles[key := s.profiles[key]] == s.profiles;
    assert t.profiles == s.profiles[key := t.profiles[key]];
  }

  /** So does a mark, whether it reads first or is a single statement. */
  lemma UndisturbedMark(s: State, call: nat, key: Key, mark: Mark, now: int)
    requires call !in s.calls && call !in s.pending && key in s.profiles && MarkAllowed(s.profiles, key, mark)
    ensures var t := if ReadsFirst(mark) then Next(Next(s, BeginMark(call, key, mark)), Finish(call, now))
                     else Next(s, MarkAtOnce(key, mark, now));
            && key in t.profiles && t.profiles == s.profiles[key := t.profiles[key]] && t.pending == s.pending
            && MarkEffect(s.profiles[key], mark, now, t.profiles[key])
  {
    MarkedAsStated(s.profiles[key], mark, now);
    assert s.pending - {call} == s.pending;
  }

  // ---------------------------------------------------------------- what survives every interleaving

  ghost predicate PendingOk(s: State, call: nat)
    requires call in s.pending
  {
    && call in s.calls && (forall key :: (call, key) !in s.asked) && s.pending[call].key in s.profiles
    && (s.pending[call].Marking? ==> ReadsFirst(s.pending[call].mark))
    && (s.pending[call].Preparing? ==> GoesOn(s.pending[call].seen))
  }

  ghost predicate Inv(s: State) {
    && AllSound(s.profiles) && UniqueMerchants(s.profiles) && (forall a :: a in s.asked ==> a.0 in s.calls)
    && forall call :: call in s.pending ==> PendingOk(s, call)
  }

  lemma WrittenIsSound(c: Pending, p: Profile, now: int)
    requires Sound(p) && (c.Marking? ==> ReadsFirst(c.mark))
    ensures Sound(Written(c, p, now))
    ensures Written(c, p, now).merchantId == p.merchantId || Written(c, p, now).merchantId == None
    ensures p.registered ==> (Written(c, p, now).registered <==> !(c.Preparing? && StartsOver(c.seen)))
  {
  }

  lemma FinishKeepsProfiles(s: State, call: nat, now: int)
    requires Inv(s) && call in s.pending
    ensures AllSound(Next(s, Finish(call, now)).profiles) && UniqueMerchants(Next(s, Finish(call, now)).profiles)
  {
    assert PendingOk(s, call);
    var c := s.pending[call];
    WrittenIsSound(c, s.profiles[c.key], now);
    OwnMerchantIsFree(s.profiles, c.key);
    StoringKeepsAll(s.profiles, c.key, Written(c, s.profiles[c.key], now));
  }

  lemma MarkKeepsProfiles(t: Profiles, key: Key, mark: Mark, now: int)
    requires AllSound(t) && UniqueMerchants(t) && key in t && MarkAllowed(t, key, mark)
    ensures AllSound(t[key := Marked(t[key], mark, now)]) && UniqueMerchants(t[key := Marked(t[key], mark, now)])
  {
    MarkedIsSound(t[key], mark, now);
    OwnMerchantIsFree(t, key);
    StoringKeepsAll(t, key, Marked(t[key], mark, now));
  }

  lemma NextKeepsProfiles(s: State, step: Step)
    requires Inv(s)
    ensures AllSound(Next(s, step).profiles) && UniqueMerchants(Next(s, step).profiles)
  {
    match step
    case BeginPrepare(_, key, bank, kyc) =>
      if key !in s.profiles {
        StoringKeepsAll(s.profiles, key, Fresh(bank, kyc));
      }
    case Finish(call, now) =>
      if call in s.pending {
        FinishKeepsProfiles(s, call, now);
      }
    case MarkAtOnce(key, mark, now) =>
      if key in s.profiles && MarkAllowed(s.profiles, key, mark) {
        MarkKeepsProfiles(s.profiles, key, mark, now);
      }
    case BeginMark(_, _, _) =>
  }

  lemma NextKeepsPending(s: State, step: Step)
    requires Inv(s)
    ensures s.profiles.Keys <= Next(s, step).profiles.Keys
    ensures forall a :: a in Next(s, step).asked ==> a.0 in Next(s, step).calls
    ensures forall call :: call in Next(s, step).pending ==> PendingOk(Next(s, step), call)
  {
    forall call | call in Next(s, step).pending ensures PendingOk(Next(s, step), call) {
      assert call in s.pending ==> PendingOk(s, call);
    }
    assert step.Finish? && step.call in s.pending ==> PendingOk(s, step.call);
  }

  lemma NextKeepsInv(s: State, step: Step)
    requires Inv(s)
    ensures Inv(Next(s, step)) && s.profiles.Keys <= Next(s, step).profiles.Keys
  {
    NextKeepsProfiles(s, step);
    NextKeepsPending(s, step);
  }

  lemma {:induction false} RunKeepsInv(s: State, steps: seq<Step>)
    requires Inv(s)
    ensures Inv(Run(s, steps))
    decreases |steps|
  {
    if steps != [] {
      NextKeepsInv(s, steps[0]);
      RunKeepsInv(Next(s, steps[0]), steps[1..]);
    }
  }

  /**
   * In every interleaving a stored merchant id implies registered, service-activated implies
   * registered, onboarded and both timestamps, and no two profiles of a provider share a
   * merchant id.
   */
  lemma ProfilesStaySound(steps: seq<Step>)
    ensures AllSound(Run(EMPTY, steps).profiles) && UniqueMerchants(Run(EMPTY, steps).profiles)
  {
    RunKeepsInv(EMPTY, steps);
  }

  // ---------------------------------------------------------------- which calls withdraw a registration

  predicate Known(s: State, key: Key) {
    key in s.profiles && s.profiles[key].registered
  }

  /** The call is pending on this profile and will start over. */
  predicate WillStartOver(s: State, call: nat, key: Key) {
    call in s.pending && s.pending[call].key == key && s.pending[call].Preparing? && StartsOver(s.pending[call].seen)
  }

  /** The profile is registered in every state of the run. */
  ghost predicate StaysKnown(s: State, steps: seq<Step>, key: Key)
    decreases |steps|
  {
    Known(s, key) && (steps == [] || StaysKnown(Next(s, steps[0]), steps[1..], key))
  }

  /** Some preparation that had read the profile before this state, to start over, finishes in the run. */
  predicate StaleStartOver(s: State, steps: seq<Step>, key: Key) {
    exists i :: 0 <= i < |steps| && steps[i].Finish? && WillStartOver(s, steps[i].call, key)
  }

  lemma NextWithdrawsIff(s: State, step: Step, key: Key)
    requires Inv(s) && Known(s, key)
    ensures Known(Next(s, step), key) <==> !(step.Finish? && WillStartOver(s, step.call, key))
  {
    match step
    case Finish(call, now) =>
      if call in s.pending {
        assert PendingOk(s, call);
        WrittenIsSound(s.pending[call], s.profiles[s.pending[call].key], now);
      }
    case MarkAtOnce(k, mark, now) =>
      if k in s.profiles {
        MarkedIsSound(s.profiles[k], mark, now);
      }
    case _ =>
  }

  /** While the profile is registered, nobody newly reads it to start over. */
  lemma PendingStartOversOnlyShrink(s: State, step: Step, key: Key, call: nat)
    requires Inv(s) && Known(s, key) && !(step.Finish? && step.call == call)
    ensures WillStartOver(Next(s, step), call, key) <==> WillStartOver(s, call, key)
  {
  }

  lemma {:induction false} StaysKnownIff(s: State, steps: seq<Step>, key: Key)
    requires Inv(s) && Known(s, key)
    ensures StaysKnown(s, steps, key) <==> !StaleStartOver(s, steps, key)
    decreases |steps|
  {
    if steps != [] {
      var t, rest := Next(s, steps[0]), steps[1..];
      NextKeepsInv(s, steps[0]);
      NextWithdrawsIff(s, steps[0], key);
      if Known(t, key) {
        StaysKnownIff(t, rest, key);
        forall i | 0 <= i < |rest| && rest[i].Finish? && !(steps[0].Finish? && steps[0].call == rest[i].call)
          ensures WillStartOver(t, rest[i].call, key) <==> WillStartOver(s, rest[i].call, key)
        {
          PendingStartOversOnlyShrink(s, steps[0], key, rest[i].call);
        }
        assert forall i :: 0 <= i < |rest| ==> rest[i] == steps[i + 1];
      }
    }
  }

  /**
   * From any reachable state with a registered profile and along any run: the registration is
   * withdrawn if and only if some preparation, which had read the profile as rejected or failed
   * and unregistered before that state, writes in the run.
   */
  lemma RegistrationStaysIff(before: seq<Step>, s: State, steps: seq<Step>, key: Key)
    requires s == Run(EMPTY, before) && Known(s, key)
    ensures StaysKnown(s, steps, key) <==> !StaleStartOver(s, steps, key)
  {
    RunKeepsInv(EMPTY, before);
    StaysKnownIff(s, steps, key);
  }

  // ---------------------------------------------------------------- which calls still ask for the provider

  /** The call is a preparation of this profile that has read it and goes on. */
  predicate WillAsk(s: State, call: nat, key: Key) {
    call in s.pending && s.pending[call].key == key && s.pending[call].Preparing?
  }

  predicate FinishesIn(steps: seq<Step>, call: nat) {
    exists i :: 0 <= i < |steps| && steps[i].Finish? && steps[i].call == call
  }

  lemma PendingAsksOnlyShrink(s: State, step: Step, key: Key, call: nat)
    requires Inv(s) && Known(s, key) && !(step.Finish? && step.call == call)
    ensures WillAsk(Next(s, step), call, key) <==> WillAsk(s, call, key)
    ensures (call, key) in Next(s, step).asked <==> (call, key) in s.asked
  {
  }

  lemma FinishesNowOrLater(steps: seq<Step>, call: nat)
    requires steps != []
    ensures FinishesIn(steps, call) <==> (steps[0].Finish? && steps[0].call == call) || FinishesIn(steps[1..], call)
  {
    if i :| 0 <= i < |steps| && steps[i].Finish? && steps[i].call == call {
      assert i > 0 ==> steps[1..][i - 1] == steps[i];
    }
    assert forall i :: 0 <= i < |steps[1..]| ==> steps[1..][i] == steps[i + 1];
  }

  /** A preparation that goes on asks when it finishes, and is no longer pending then. */
  lemma FinishingAsks(s: State, call: nat, now: int, key: Key)
    requires Inv(s) && Known(s, key) && (call, key) !in s.asked
    ensures (call, key) in Next(s, Finish(call, now)).asked <==> WillAsk(s, call, key)
    ensures !WillAsk(s, call, key) ==> !WillAsk(Next(s, Finish(call, now)), call, key)
  {
    assert call in s.pending ==> PendingOk(s, call);
  }

  lemma {:induction false} AskedStays(s: State, steps: seq<Step>, a: (nat, Key))
    requires a in s.asked
    ensures a in Run(s, steps).asked
    decreases |steps|
  {
    if steps != [] {
      AskedStays(Next(s, steps[0]), steps[1..], a);
    }
  }

  lemma {:induction false} AskedIff(s: State, steps: seq<Step>, key: Key, call: nat)
    requires Inv(s) && StaysKnown(s, steps, key) && (call, key) !in s.asked
    ensures (call, key) in Run(s, steps).asked <==> WillAsk(s, call, key) && FinishesIn(steps, call)
    decreases |steps|
  {
    if steps != [] {
      var t, rest := Next(s, steps[0]), steps[1..];
      NextKeepsInv(s, steps[0]);
      FinishesNowOrLater(steps, call);
      if steps[0].Finish? && steps[0].call == call {
        FinishingAsks(s, call, steps[0].now, key);
        if WillAsk(s, call, key) {
          AskedStays(t, rest, (call, key));
        } else {
          AskedIff(t, rest, key, call);
        }
      } else {
        PendingAsksOnlyShrink(s, steps[0], key, call);
        AskedIff(t, rest, key, call);
      }
    }
  }

  /**
   * From any reachable state and while a profile stays registered, a call asks for the provider if and only if it is a
   * preparation that had read the profile before it was registered, and finishes.
   */
  lemma AsksIff(before: seq<Step>, s: State, steps: seq<Step>, key: Key, call: nat)
    requires s == Run(EMPTY, before) && StaysKnown(s, steps, key) && (call, key) !in s.asked
    ensures (call, key) in Run(s, steps).asked <==> WillAsk(s, call, key) && FinishesIn(steps, call)
  {
    RunKeepsInv(EMPTY, before);
    AskedIff(s, steps, key, call);
  }

  // ---------------------------------------------------------------- both happen

  lemma RunCons(s: State, step: Step, rest: seq<Step>)
    ensures Run(s, [step] + rest) == Run(Next(s, step), rest)
  {
    assert ([step] + rest)[1..] == rest;
  }

  /** A profile becomes registered between the read and the write of a preparation: it asks nevertheless. */
  lemma LatePreparationAsks(key: Key) returns (before: seq<Step>, last: Step)
    ensures var s := Run(EMPTY, before);
            && Known(s, key) && last.Finish? && (last.call, key) !in s.asked
            && Known(Next(s, last), key) && (last.call, key) in Next(s, last).asked
  {
    var begin, register := BeginPrepare(0, key, None, None), MarkAtOnce(key, Registered("M", None), 0);
    before, last := [begin] + ([register] + []), Finish(0, 1);
    RunCons(EMPTY, begin, [register] + []);
    RunCons(Next(EMPTY, begin), register, []);
    assert Next(EMPTY, begin).profiles == map[key := Fresh(None, None)];
  }

  function FailSteps(key: Key): seq<Step> {
    [BeginPrepare(0, key, None, None)] + ([BeginMark(1, key, Fails(""))] + ([Finish(1, 0)] + []))
  }

  lemma ProfileFails(key: Key)
    ensures var s := Run(EMPTY, FailSteps(key));
            && s.profiles == map[key := Marked(Fresh(None, None), Fails(""), 0)] && s.calls == {0, 1} && s.asked == {}
  {
    var begin := BeginPrepare(0, key, None, None);
    var s := Next(EMPTY, begin);
    assert s.profiles == map[key := Fresh(None, None)];
    RunCons(EMPTY, begin, [BeginMark(1, key, Fails(""))] + ([Finish(1, 0)] + []));
    RunCons(s, BeginMark(1, key, Fails("")), [Finish(1, 0)] + []);
    RunCons(Next(s, BeginMark(1, key, Fails(""))), Finish(1, 0), []);
  }

  lemma {:induction false} RunInTwo(s: State, one: seq<Step>, two: seq<Step>)
    ensures Run(s, one + two) == Run(Run(s, one), two)
    decreases |one|
  {
    if one == [] {
      assert one + two == two;
    } else {
      assert (one + two)[1..] == one[1..] + two;
      RunInTwo(Next(s, one[0]), one[1..], two);
    }
  }

  /** A failed profile becomes registered while a preparation is about to start over: it forgets the registration. */
  lemma LateStartOverForgets(key: Key) returns (before: seq<Step>, last: Step)
    ensures var s := Run(EMPTY, before);
            && Known(s, key) && last.Finish? && !Known(Next(s, last), key) && (last.call, key) in Next(s, last).asked
  {
    var begin, register := BeginPrepare(2, key, None, None), MarkAtOnce(key, Registered("M", None), 1);
    var s := Run(EMPTY, FailSteps(key));
    ProfileFails(key);
    assert WillStartOver(Next(s, begin), 2, key) && Next(s, begin).profiles == s.profiles;
    before, last := FailSteps(key) + ([begin] + ([register] + [])), Finish(2, 2);
    assert Run(EMPTY, before) == Next(Next(s, begin), register) by {
      RunInTwo(EMPTY, FailSteps(key), [begin] + ([register] + []));
      RunCons(s, begin, [register] + []);
      RunCons(Next(s, begin), register, []);
    }
  }
}
