/**
 * Runs without overlapping calls and with more wrong guesses than the maximum. One more: the
 * expiry of an OTP is checked before its attempts counter is read, so a call that starts just
 * before the OTP expires may find the counter gone, if the call that reached the maximum failed
 * to delete the state. Any number more: a guess is hashed before it is counted, so it costs
 * nothing if the increment fails.
 */
module OtpGuessRuns {
  import opened Prelude
  import opened Redis
  import opened CacheServices
  import opened OtpServices
  import opened OtpProtocol
  import opened OtpAttempts
  import opened OtpDeletions

  // ---------------------------------------------------------------- putting runs together

  lemma {:induction false} RunInTwo(c: Config, s: State, one: seq<Step>, two: seq<Step>)
    ensures Run(c, s, one + two) == Run(c, Run(c, s, one), two)
    decreases |one|
  {
    if one == [] {
      assert one + two == two;
    } else {
      assert (one + two)[1..] == one[1..] + two;
      RunInTwo(c, Next(c, s, one[0]), one[1..], two);
    }
  }

  lemma RunOne(c: Config, s: State, a: Step)
    ensures Run(c, s, [a]) == Next(c, s, a)
  {
    assert [a] == [a] + [];
    RunCons(c, s, a, []);
  }

  lemma RunThree(c: Config, s: State, a: Step, b: Step, d: Step)
    ensures Run(c, s, [a] + ([b] + ([d] + []))) == Next(c, Next(c, Next(c, s, a), b), d)
  {
    RunCons(c, s, a, [b] + ([d] + []));
    RunCons(c, Next(c, s, a), b, [d] + []);
    RunCons(c, Next(c, Next(c, s, a), b), d, []);
  }

  lemma RunFive(c: Config, s: State, a: Step, b: Step, d: Step, e: Step, f: Step)
    ensures Run(c, s, [a] + ([b] + ([d] + ([e] + ([f] + []))))) ==
            Next(c, Next(c, Next(c, Next(c, Next(c, s, a), b), d), e), f)
  {
    RunCons(c, s, a, [b] + ([d] + ([e] + ([f] + []))));
    RunCons(c, Next(c, s, a), b, [d] + ([e] + ([f] + [])));
    RunThree(c, Next(c, Next(c, s, a), b), d, e, f);
  }

  predicate StepsOf(call: string, steps: seq<Step>) {
    forall i :: 0 <= i < |steps| ==> steps[i].Tick? || steps[i].call == call
  }

  lemma {:induction false} OwnStepsAreSequential(c: Config, s: State, call: string, steps: seq<Step>)
    requires StepsOf(call, steps)
    ensures Sequential(c, s, Some(call), steps)
    decreases |steps|
  {
    if steps != [] {
      assert steps[0].Tick? || steps[0].call == call;
      OwnStepsAreSequential(c, Next(c, s, steps[0]), call, steps[1..]);
    }
  }

  /** All steps of a new call, with waiting, may follow anything. */
  lemma {:induction false} NewCallIsSequential(c: Config, s: State, active: Option<string>, call: string,
          steps: seq<Step>)
    requires StepsOf(call, steps) && call !in s.sends && call !in s.verifies
    ensures Sequential(c, s, active, steps)
    decreases |steps|
  {
    if steps != [] {
      if steps[0].Tick? {
        NewCallIsSequential(c, Next(c, s, steps[0]), active, call, steps[1..]);
      } else {
        assert steps[0].call == call;
        OwnStepsAreSequential(c, Next(c, s, steps[0]), call, steps[1..]);
      }
    }
  }

  function LastActive(active: Option<string>, steps: seq<Step>): Option<string>
    decreases |steps|
  {
    if steps == [] then active else LastActive(ActiveAfter(active, steps[0]), steps[1..])
  }

  lemma {:induction false} SequentialInTwo(c: Config, s: State, active: Option<string>, one: seq<Step>, two: seq<Step>)
    requires Sequential(c, s, active, one) && Sequential(c, Run(c, s, one), LastActive(active, one), two)
    ensures Sequential(c, s, active, one + two)
    decreases |one|
  {
    if one == [] {
      assert one + two == two;
    } else {
      assert (one + two)[1..] == one[1..] + two;
      SequentialInTwo(c, Next(c, s, one[0]), ActiveAfter(active, one[0]), one[1..], two);
    }
  }

  // ---------------------------------------------------------------- a send

  /** Sends an OTP for the code "". */
  function SendSteps(call: string, id: string, lifetime: Positive): seq<Step> {
    [Sending(call, AcquireCooldown)] + ([Sending(call, DeleteUnverified)] + ([Sending(call, ClearForSend)] +
    ([Sending(call, CreateRow(id, "", lifetime))] + ([Sending(call, CacheRow)] + []))))
  }

  predicate SameGuesses(s: State, t: State) {
    t.hashed == s.hashed && t.misses == s.misses && t.late == s.late && t.dropped == s.dropped
  }

  /** The cooldown lock is free, and the call and the id are new. */
  predicate MaySend(s: State, call: string, id: string) {
    call !in s.sends && call !in s.verifies && id !in s.issued && !Live(s.store, s.now, CooldownSlot)
  }

  /** What a send leaves: the new OTP in the cache, no counter, and everything else as it was. */
  ghost predicate HasSent(c: Config, s: State, t: State, call: string, id: string, lifetime: Positive) {
    && t.now == s.now && t.verifies == s.verifies && SameGuesses(s, t) && t.sends.Keys == s.sends.Keys + {call}
    && t.issued == s.issued[id := Origin(Sha256(""), s.now + lifetime, call)]
    && AttemptsSlot !in t.store && SameSlot(s, t, VerifyLockSlot)
    && CooldownSlot in t.store && t.store[CooldownSlot].until == s.now + c.cooldownSeconds * 1000
    && OtpSlot in t.store && t.store[OtpSlot].value == OtpRecord(id, Sha256(""), s.now + lifetime)
    && t.store[OtpSlot].until >= s.now + lifetime
  }

  lemma SendClears(c: Config, s: State, call: string, id: string)
    requires MaySend(s, call, id)
    ensures var t := Next(c, Next(c, Next(c, s, Sending(call, AcquireCooldown)), Sending(call, DeleteUnverified)),
                          Sending(call, ClearForSend));
            && t.now == s.now && t.verifies == s.verifies && SameGuesses(s, t) && t.issued == s.issued
            && t.sends == s.sends[call := Send(Cleared, s.now)]
            && AttemptsSlot !in t.store && SameSlot(s, t, VerifyLockSlot)
            && CooldownSlot in t.store && t.store[CooldownSlot].until == s.now + c.cooldownSeconds * 1000
  {
    var s1 := Next(c, s, Sending(call, AcquireCooldown));
    assert s1.sends == s.sends[call := Send(Acquired, s.now)] && SameSlot(s, s1, VerifyLockSlot);
    var s2 := Next(c, s1, Sending(call, DeleteUnverified));
    assert s2.sends == s.sends[call := Send(Purged, s.now)] && s2.store == s1.store;
    var s3 := Next(c, s2, Sending(call, ClearForSend));
    assert s3.sends == s.sends[call := Send(Cleared, s.now)];
  }

  lemma CreatesAndCaches(c: Config, s: State, u: State, call: string, id: string, lifetime: Positive)
    requires id !in s.issued && u.now == s.now && u.verifies == s.verifies && SameGuesses(s, u) && u.issued == s.issued
    requires u.sends == s.sends[call := Send(Cleared, s.now)]
    requires AttemptsSlot !in u.store && SameSlot(s, u, VerifyLockSlot)
    requires CooldownSlot in u.store && u.store[CooldownSlot].until == s.now + c.cooldownSeconds * 1000
    ensures HasSent(c, s, Next(c, Next(c, u, Sending(call, CreateRow(id, "", lifetime))), Sending(call, CacheRow)),
                    call, id, lifetime)
  {
    var v := Next(c, u, Sending(call, CreateRow(id, "", lifetime)));
    assert v.sends[call].stage == Created(id) && v.store == u.store;
  }

  lemma SendCaches(c: Config, s: State, call: string, id: string, lifetime: Positive) returns (t: State)
    requires MaySend(s, call, id)
    ensures t == Run(c, s, SendSteps(call, id, lifetime)) && HasSent(c, s, t, call, id, lifetime)
  {
    RunFive(c, s, Sending(call, AcquireCooldown), Sending(call, DeleteUnverified), Sending(call, ClearForSend),
            Sending(call, CreateRow(id, "", lifetime)), Sending(call, CacheRow));
    t := Run(c, s, SendSteps(call, id, lifetime));
    SendClears(c, s, call, id);
    var u := Next(c, Next(c, Next(c, s, Sending(call, AcquireCooldown)), Sending(call, DeleteUnverified)),
                  Sending(call, ClearForSend));
    CreatesAndCaches(c, s, u, call, id, lifetime);
  }

  lemma SendStepsAreTidy(c: Config, s: State, call: string, id: string, lifetime: Positive)
    ensures Tidy(c, s, SendSteps(call, id, lifetime))
  {
    assert SendSteps(call, id, lifetime) ==
           [Sending(call, AcquireCooldown), Sending(call, DeleteUnverified), Sending(call, ClearForSend),
            Sending(call, CreateRow(id, "", lifetime)), Sending(call, CacheRow)];
    WithoutCountIsTidy(c, s, SendSteps(call, id, lifetime));
  }

  // ---------------------------------------------------------------- wrong guesses, one call after the other

  /** The name of the k-th verification; sends are called "s" and "t". */
  function Name(k: nat): string {
    seq(k + 1, _ => 'v')
  }

  /**
   * An OTP for the code "", how far its counter is and until when it lasts, how many names of
   * verifications are taken, and how many wrong guesses were dropped and counted.
   */
  datatype Guesses = Guesses(id: string, expiresAt: int, count: nat, until: int, names: nat, dropped: nat, counted: nat)

  ghost predicate CounterIs(s: State, g: Guesses) {
    if g.count == 0 then !Live(s.store, s.now, AttemptsSlot)
    else AttemptsSlot in s.store && s.store[AttemptsSlot] == Entry(Number(g.count), g.until) && s.now < g.until
  }

  /** The OTP is in the cache and not expired, the lock is free, and the tallies are these. */
  ghost predicate Guessed(s: State, g: Guesses) {
    && s.now < g.expiresAt && g.id in s.issued && s.issued[g.id].expiresAt == g.expiresAt
    && s.hashed[g.id] == g.dropped + g.counted && s.dropped[g.id] == g.dropped
    && s.misses[g.id] == g.counted && s.late[g.id] == 0
    && OtpSlot in s.store && s.store[OtpSlot].value == OtpRecord(g.id, Sha256(""), g.expiresAt)
    && s.store[OtpSlot].until >= g.expiresAt
    && !Live(s.store, s.now, VerifyLockSlot) && CounterIs(s, g)
    && (forall j :: j >= g.names ==> Name(j) !in s.verifies) && s.sends.Keys <= {"s", "t"}
  }

  function WithDrop(g: Guesses): Guesses {
    g.(names := g.names + 1, dropped := g.dropped + 1)
  }

  function WithMiss(g: Guesses, now: int): Guesses {
    g.(names := g.names + 1, counted := g.counted + 1, count := g.count + 1,
       until := if g.count == 0 then now + 1000 * RemainingTtl(g.expiresAt, now) else g.until)
  }

  /** A verification with the wrong code "x", up to the comparison. */
  function HashSteps(call: string): seq<Step> {
    [Verifying(call, AcquireVerifyLock("x"))] + ([Verifying(call, ReadRecord)] + ([Verifying(call, ReadAttempts)] +
    ([Verifying(call, Compare)] + [])))
  }

  /**
   * A verification with the wrong code "x" that counts it or fails before that; then it releases
   * the lock. At the maximum it fails to delete the state.
   */
  function WrongSteps(call: string, end: VerifyStep): seq<Step> {
    HashSteps(call) + ([Verifying(call, end)] + ([Verifying(call, ReleaseVerifyLock)] + []))
  }

  /** The call of a wrong guess that has been hashed, everything else being as in `s`. */
  ghost predicate JustHashed(s: State, u: State, call: string, record: Value) {
    && call in u.verifies && u.verifies == s.verifies[call := u.verifies[call]] && u.sends == s.sends && u.now == s.now
    && record.OtpRecord? && u.verifies[call].stage == Mismatched(record, true)
    && u.store == s.store[VerifyLockSlot := Entry(Text(call), s.now + VERIFY_LOCK)]
    && u.issued == s.issued && u.hashed == s.hashed + multiset{record.otpId}
    && u.misses == s.misses && u.late == s.late && u.dropped == s.dropped
  }

  lemma NameIsNew(s: State, g: Guesses)
    requires Guessed(s, g)
    ensures Name(g.names) !in s.sends && Name(g.names) !in s.verifies
  {
    assert Name(g.names)[0] == 'v';
  }

  lemma OtherNamesStayNew(s: State, w: State, n: nat)
    requires forall j :: j >= n ==> Name(j) !in s.verifies
    requires w.verifies.Keys == s.verifies.Keys + {Name(n)}
    ensures forall j :: j >= n + 1 ==> Name(j) !in w.verifies
  {
    forall j | j >= n + 1 ensures Name(j) !in w.verifies {
      assert |Name(j)| == j + 1 && |Name(n)| == n + 1;
    }
  }

  lemma ComparingWrong(c: Config, s: State, call: string)
    requires call in s.verifies && s.verifies[call].stage.MayGuess? && s.verifies[call].stage.record.OtpRecord?
    requires s.verifies[call].stage.record.otpHash == Sha256("") && s.verifies[call].guess == "x"
    ensures var stage := s.verifies[call].stage;
            Next(c, s, Verifying(call, Compare)) ==
            VerifyAt(s, call, Mismatched(stage.record, stage.onTime)).(
              hashed := s.hashed + multiset{stage.record.otpId})
  {
  }

  /** Below the maximum the wrong guess is hashed. */
  lemma WrongIsHashed(c: Config, s: State, g: Guesses) returns (u: State)
    requires Guessed(s, g) && g.count < c.maxAttempts
    ensures JustHashed(s, u, Name(g.names), OtpRecord(g.id, Sha256(""), g.expiresAt))
    ensures u == Run(c, s, HashSteps(Name(g.names)))
  {
    var call := Name(g.names);
    NameIsNew(s, g);
    var t := GuessReachesCompare(c, s, call, "x", [Verifying(call, Compare)] + []);
    ComparingWrong(c, t, call);
    u := Next(c, t, Verifying(call, Compare));
    assert u.verifies == s.verifies[call := Verify(Mismatched(s.store[OtpSlot].value, true), "x", s.now)];
    RunCons(c, t, Verifying(call, Compare), []);
  }

  lemma RunTwo(c: Config, s: State, a: Step, b: Step)
    ensures Run(c, s, [a] + ([b] + [])) == Next(c, Next(c, s, a), b)
  {
    RunCons(c, s, a, [b] + []);
    RunCons(c, Next(c, s, a), b, []);
  }

  /** A call that has finished releases the lock, unless it has expired. */
  lemma Releases(c: Config, v: State, call: string)
    requires call in v.verifies && call !in v.sends && v.verifies[call].stage == Closing
    requires VerifyLockSlot in v.store ==> v.store[VerifyLockSlot].value == Text(call)
    ensures var x := Next(c, v, Verifying(call, ReleaseVerifyLock));
            && x == v.(verifies := v.verifies[call := v.verifies[call].(stage := Released)], store := x.store)
            && SameSlot(v, x, OtpSlot) && SameSlot(v, x, AttemptsSlot) && !Live(x.store, x.now, VerifyLockSlot)
  {
  }

  lemma Counts(c: Config, s: State, u: State, g: Guesses)
    requires Guessed(s, g) && JustHashed(s, u, Name(g.names), OtpRecord(g.id, Sha256(""), g.expiresAt))
    requires Name(g.names) !in s.sends
    ensures var v := Next(c, u, Verifying(Name(g.names), CountWrong));
            && v.store == u.store[AttemptsSlot := Entry(Number(g.count + 1), WithMiss(g, s.now).until)]
            && v.verifies == u.verifies[Name(g.names) := u.verifies[Name(g.names)].(stage := Closing)]
            && v.now == s.now && v.sends == s.sends && v.issued == s.issued
            && v.hashed == u.hashed && v.late == s.late && v.dropped == s.dropped &&
               v.misses == s.misses + multiset{g.id}
  {
  }

  /** The wrong guess is counted, and the lock released. */
  lemma CountsAndReleases(c: Config, s: State, u: State, g: Guesses)
    requires Guessed(s, g) && JustHashed(s, u, Name(g.names), OtpRecord(g.id, Sha256(""), g.expiresAt))
    ensures var w := Next(c, Next(c, u, Verifying(Name(g.names), CountWrong)),
                          Verifying(Name(g.names), ReleaseVerifyLock));
            Guessed(w, WithMiss(g, s.now)) && w.now == s.now
  {
    var call := Name(g.names);
    NameIsNew(s, g);
    Counts(c, s, u, g);
    var v := Next(c, u, Verifying(call, CountWrong));
    Releases(c, v, call);
    OtherNamesStayNew(s, Next(c, v, Verifying(call, ReleaseVerifyLock)), g.names);
  }

  /** The wrong guess is dropped, and the lock released. */
  lemma FailsAndReleases(c: Config, s: State, u: State, g: Guesses)
    requires Guessed(s, g) && JustHashed(s, u, Name(g.names), OtpRecord(g.id, Sha256(""), g.expiresAt))
    ensures var w := Next(c, Next(c, u, Verifying(Name(g.names), VerifyFails)),
                          Verifying(Name(g.names), ReleaseVerifyLock));
            Guessed(w, WithDrop(g)) && w.now == s.now
  {
    var call := Name(g.names);
    NameIsNew(s, g);
    var v := Next(c, u, Verifying(call, VerifyFails));
    assert v.store == u.store && v.dropped == u.dropped + multiset{g.id};
    Releases(c, v, call);
    OtherNamesStayNew(s, Next(c, v, Verifying(call, ReleaseVerifyLock)), g.names);
  }

  lemma HashStepsAreTidy(c: Config, s: State, call: string)
    ensures Tidy(c, s, HashSteps(call))
  {
    assert HashSteps(call) == [Verifying(call, AcquireVerifyLock("x")), Verifying(call, ReadRecord),
                               Verifying(call, ReadAttempts), Verifying(call, Compare)];
    WithoutCountIsTidy(c, s, HashSteps(call));
  }

  /** A guess is counted below the maximum: nothing is to be deleted. */
  lemma CountIsTidy(c: Config, u: State, call: string)
    requires Count(u.store, u.now, AttemptsSlot) + 1 < c.maxAttempts
    ensures Tidy(c, u, [Verifying(call, CountWrong)] + ([Verifying(call, ReleaseVerifyLock)] + []))
  {
    var count, rest := Verifying(call, CountWrong), [Verifying(call, ReleaseVerifyLock)] + [];
    assert ([count] + rest)[1..] == rest && ([count] + rest)[0] == count;
    assert !ReachesMaximum(c, u, count);
    WithoutCountIsTidy(c, Next(c, u, count), rest);
  }

  /** One verification with a wrong code, counted or dropped. */
  lemma OneWrong(c: Config, s: State, active: Option<string>, g: Guesses, counts: bool)
    returns (steps: seq<Step>, t: State)
    requires Guessed(s, g) && g.count < c.maxAttempts
    ensures t == Run(c, s, steps) && Sequential(c, s, active, steps) && t.now == s.now
    ensures Guessed(t, if counts then WithMiss(g, s.now) else WithDrop(g))
    ensures counts && g.count + 1 < c.maxAttempts ==> Tidy(c, s, steps)
  {
    var call, end := Name(g.names), if counts then CountWrong else VerifyFails;
    var u := WrongIsHashed(c, s, g);
    var last := [Verifying(call, end)] + ([Verifying(call, ReleaseVerifyLock)] + []);
    steps := WrongSteps(call, end);
    NameIsNew(s, g);
    NewCallIsSequential(c, s, active, call, steps);
    RunInTwo(c, s, HashSteps(call), last);
    HashStepsAreTidy(c, s, call);
    if counts && g.count + 1 < c.maxAttempts {
      CountIsTidy(c, u, call);
      TidyInTwo(c, s, HashSteps(call), last);
    }
    RunTwo(c, u, Verifying(call, end), Verifying(call, ReleaseVerifyLock));
    t := Run(c, s, steps);
    if counts {
      CountsAndReleases(c, s, u, g);
    } else {
      FailsAndReleases(c, s, u, g);
    }
  }

  function WithMisses(g: Guesses, now: int, r: nat): Guesses
    decreases r
  {
    if r == 0 then g else WithMisses(WithMiss(g, now), now, r - 1)
  }

  lemma {:induction false} MissesAddUp(g: Guesses, now: int, r: nat)
    ensures var h := WithMisses(g, now, r);
            && h == g.(names := g.names + r, counted := g.counted + r, count := g.count + r, until := h.until)
            && h.until == if g.count == 0 < r then now + 1000 * RemainingTtl(g.expiresAt, now) else g.until
    decreases r
  {
    if r > 0 {
      MissesAddUp(WithMiss(g, now), now, r - 1);
    }
  }

  lemma {:induction false} ManyMisses(c: Config, s: State, active: Option<string>, g: Guesses, r: nat)
    returns (steps: seq<Step>, t: State)
    requires Guessed(s, g) && g.count + r <= c.maxAttempts
    ensures t == Run(c, s, steps) && Sequential(c, s, active, steps) && t.now == s.now
    ensures Guessed(t, WithMisses(g, s.now, r))
    ensures g.count + r < c.maxAttempts ==> Tidy(c, s, steps)
    decreases r
  {
    if r == 0 {
      return [], s;
    }
    var one, u := OneWrong(c, s, active, g, true);
    var two, w := ManyMisses(c, u, LastActive(active, one), WithMiss(g, s.now), r - 1);
    SequentialInTwo(c, s, active, one, two);
    RunInTwo(c, s, one, two);
    if g.count + r < c.maxAttempts {
      TidyInTwo(c, s, one, two);
    }
    return one + two, w;
  }

  lemma {:induction false} ManyDrops(c: Config, s: State, active: Option<string>, g: Guesses, r: nat)
    returns (steps: seq<Step>, t: State)
    requires Guessed(s, g) && g.count < c.maxAttempts
    ensures t == Run(c, s, steps) && Sequential(c, s, active, steps) && t.now == s.now
    ensures Guessed(t, g.(names := g.names + r, dropped := g.dropped + r))
    decreases r
  {
    if r == 0 {
      return [], s;
    }
    var one, u := OneWrong(c, s, active, g, false);
    var two, w := ManyDrops(c, u, LastActive(active, one), WithDrop(g), r - 1);
    SequentialInTwo(c, s, active, one, two);
    RunInTwo(c, s, one, two);
    return one + two, w;
  }

  // ---------------------------------------------------------------- guesses that cost nothing

  /** The OTP "o", sent at time 0, with no guess made. */
  function Unguessed(lifetime: Positive): Guesses {
    Guesses("o", lifetime, 0, 0, 0, 0, 0)
  }

  lemma SentIsUnguessed(c: Config, t: State, lifetime: Positive)
    requires HasSent(c, START, t, "s", "o", lifetime)
    ensures Guessed(t, Unguessed(lifetime)) && t.now == 0
  {
  }

  lemma SentAtStart(c: Config, lifetime: Positive) returns (steps: seq<Step>, t: State)
    ensures t == Run(c, START, steps) && Sequential(c, START, None, steps) && t.now == 0
    ensures HasSent(c, START, t, "s", "o", lifetime) && Guessed(t, Unguessed(lifetime))
    ensures Tidy(c, START, steps)
  {
    steps := SendSteps("s", "o", lifetime);
    SendStepsAreTidy(c, START, "s", "o", lifetime);
    t := SendCaches(c, START, "s", "o", lifetime);
    SentIsUnguessed(c, t, lifetime);
    NewCallIsSequential(c, START, None, "s", steps);
  }

  /** The send, and then `d` guesses that are dropped. */
  lemma SentAndDropped(c: Config, lifetime: Positive, d: nat) returns (steps: seq<Step>, t: State)
    ensures t == Run(c, START, steps) && Sequential(c, START, None, steps) && t.now == 0
    ensures Guessed(t, Unguessed(lifetime).(names := d, dropped := d))
  {
    var one, s := SentAtStart(c, lifetime);
    var two, u := ManyDrops(c, s, LastActive(None, one), Unguessed(lifetime), d);
    SequentialInTwo(c, START, None, one, two);
    RunInTwo(c, START, one, two);
    return one + two, u;
  }

  /**
   * For every configuration, lifetime and number n, a run without overlapping calls in which n
   * wrong guesses are hashed before the OTP expires, and none is counted.
   */
  lemma DroppedGuessesCostNothing(c: Config, lifetime: Positive, n: nat) returns (steps: seq<Step>)
    ensures Sequential(c, START, None, steps)
    ensures var s := Run(c, START, steps);
            && s.hashed["o"] == n && s.misses["o"] == 0 && s.late["o"] == 0 && Count(s.store, s.now, AttemptsSlot) == 0
            && !Expired(s, "o")
  {
    var all, t := SentAndDropped(c, lifetime, n);
    steps := all;
  }

  // ---------------------------------------------------------------- one guess too late to be refused

  function LateEnd(call: string): seq<Step> {
    [Verifying(call, ReadAttempts)] + ([Verifying(call, Compare)] + ([Verifying(call, CountWrong)] + []))
  }

  /** A verification that reads the record one millisecond before expiry and the attempts a second later. */
  function LateSteps(call: string, lifetime: Positive): seq<Step> {
    [Tick(lifetime - 1)] + ([Verifying(call, AcquireVerifyLock("x"))] + ([Verifying(call, ReadRecord)] +
    ([Tick(1001)] + LateEnd(call))))
  }

  lemma LateFromRecord(c: Config, s: State, call: string, record: Value)
    requires call in s.verifies && s.verifies[call].stage == HasRecord(record) && s.verifies[call].guess == "x"
    requires record.OtpRecord? && record.otpId == "o" && record.otpHash == Sha256("") && record.expiresAt <= s.now
    requires AttemptsSlot in s.store && s.store[AttemptsSlot].until <= s.now
    ensures var t := Run(c, s, LateEnd(call));
            && t.hashed["o"] == s.hashed["o"] + 1 && t.late["o"] == s.late["o"] + 1
            && t.misses == s.misses && t.dropped == s.dropped
  {
    var s1 := Next(c, s, Verifying(call, ReadAttempts));
    assert s1.verifies[call].stage == MayGuess(record, false);
    var s2 := Next(c, s1, Verifying(call, Compare));
    assert s2.verifies[call].stage == Mismatched(record, false);
    RunThree(c, s, Verifying(call, ReadAttempts), Verifying(call, Compare), Verifying(call, CountWrong));
  }

  /** The record is read one millisecond before the OTP expires. */
  lemma ReadsRecordInTime(c: Config, s: State, call: string)
    requires call !in s.sends && call !in s.verifies && !Live(s.store, s.now, VerifyLockSlot)
    requires Live(s.store, s.now, OtpSlot) && s.store[OtpSlot].value.OtpRecord? &&
             s.now < s.store[OtpSlot].value.expiresAt
    ensures var t := Next(c, Next(c, s, Verifying(call, AcquireVerifyLock("x"))), Verifying(call, ReadRecord));
            && call in t.verifies && t.verifies[call] == Verify(HasRecord(s.store[OtpSlot].value), "x", s.now)
            && t.now == s.now && SameSlot(s, t, AttemptsSlot) && SameGuesses(s, t)
  {
    var t := Next(c, s, Verifying(call, AcquireVerifyLock("x")));
    assert t.verifies[call] == Verify(Locked, "x", s.now);
  }

  lemma LateStepsRun(c: Config, s: State, call: string, lifetime: Positive)
    ensures Run(c, s, LateSteps(call, lifetime)) ==
            Run(c, Next(c, Next(c, Next(c, Next(c, s, Tick(lifetime - 1)), Verifying(call, AcquireVerifyLock("x"))),
                                Verifying(call, ReadRecord)), Tick(1001)), LateEnd(call))
  {
    var lock, read, rest := Verifying(call, AcquireVerifyLock("x")), Verifying(call, ReadRecord), LateEnd(call);
    var s1 := Next(c, s, Tick(lifetime - 1));
    var s2 := Next(c, s1, lock);
    RunCons(c, s, Tick(lifetime - 1), [lock] + ([read] + ([Tick(1001)] + rest)));
    RunCons(c, s1, lock, [read] + ([Tick(1001)] + rest));
    RunCons(c, s2, read, [Tick(1001)] + rest);
    RunCons(c, Next(c, s2, read), Tick(1001), rest);
  }

  /** After the maximum of misses one more guess is hashed and counted, too late to be refused. */
  lemma OneLateMiss(c: Config, s: State, g: Guesses, lifetime: Positive)
    requires Guessed(s, g) && s.now == 0 && g.id == "o" && g.expiresAt == lifetime && g.count >= 1 &&
             g.until < lifetime + 1000
    ensures var t := Run(c, s, LateSteps(Name(g.names), lifetime));
            t.hashed["o"] == s.hashed["o"] + 1 && t.late["o"] == 1 && t.misses == s.misses && t.dropped == s.dropped
  {
    var call, record := Name(g.names), s.store[OtpSlot].value;
    NameIsNew(s, g);
    var s1 := Next(c, s, Tick(lifetime - 1));
    var s2 := Next(c, s1, Verifying(call, AcquireVerifyLock("x")));
    var s3 := Next(c, s2, Verifying(call, ReadRecord));
    ReadsRecordInTime(c, s1, call);
    var s4 := Next(c, s3, Tick(1001));
    LateFromRecord(c, s4, call, record);
    LateStepsRun(c, s, call, lifetime);
  }

  /** The maximum of counted guesses, and a late one. */
  lemma ExhaustedAndLate(c: Config, s: State, active: Option<string>, lifetime: Positive, d: nat)
    returns (steps: seq<Step>)
    requires Guessed(s, Unguessed(lifetime).(names := d, dropped := d)) && s.now == 0
    ensures Sequential(c, s, active, steps)
    ensures var t := Run(c, s, steps);
            t.hashed["o"] == d + c.maxAttempts + 1 && t.misses["o"] == c.maxAttempts && t.late["o"] == 1 &&
                t.dropped["o"] == d
  {
    var g := Unguessed(lifetime).(names := d, dropped := d);
    MissesAddUp(g, 0, c.maxAttempts);
    var h := WithMisses(g, 0, c.maxAttempts);
    var misses, t := ManyMisses(c, s, active, g, c.maxAttempts);
    var late := LateSteps(Name(h.names), lifetime);
    NameIsNew(t, h);
    NewCallIsSequential(c, t, LastActive(active, misses), Name(h.names), late);
    OneLateMiss(c, t, h, lifetime);
    SequentialInTwo(c, s, active, misses, late);
    RunInTwo(c, s, misses, late);
    steps := misses + late;
  }

  /**
   * For every configuration and lifetime, and every number d, a run without overlapping calls
   * that drops d wrong guesses, counts the maximum in time and one more late. By
   * `SequentialGuessesAreBounded` that is as far as it goes.
   */
  lemma MaximumIsExceeded(c: Config, lifetime: Positive, d: nat) returns (steps: seq<Step>)
    ensures Sequential(c, START, None, steps)
    ensures var s := Run(c, START, steps);
            && s.hashed["o"] == c.maxAttempts + 1 + d && s.dropped["o"] == d
            && s.misses["o"] == c.maxAttempts && s.late["o"] == 1
  {
    var before, s := SentAndDropped(c, lifetime, d);
    var after := ExhaustedAndLate(c, s, LastActive(None, before), lifetime, d);
    SequentialInTwo(c, START, None, before, after);
    RunInTwo(c, START, before, after);
    steps := before + after;
  }
}
