/**
 * A send that cuts in on a verification: the guess made against the old OTP is counted against the
 * new one, whose counter then expires too early. So more wrong guesses than the maximum are
 * counted, even if every call that reaches the maximum deletes the state.
 */
module OtpCutIn {
  import opened Prelude
  import Redis
  import opened CacheServices
  import opened OtpServices
  import opened OtpProtocol
  import OtpAttempts
  import opened OtpDeletions
  import opened OtpGuessRuns

  /** The first OTP's guess has been hashed and waits; the cooldown passes, and a second OTP "p" is sent. */
  lemma SecondSend(c: Config, u: State, lifetime: Positive) returns (steps: seq<Step>, t: State)
    requires u.now == 0 && u.sends.Keys == {"s"} && u.verifies.Keys == {Name(0)} && u.issued.Keys == {"o"}
    requires CooldownSlot in u.store ==> u.store[CooldownSlot].until <= c.cooldownSeconds * 1000
    ensures t == Run(c, u, steps) && Tidy(c, u, steps)
    ensures HasSent(c, u.(now := c.cooldownSeconds * 1000), t, "t", "p", lifetime)
  {
    var wait := Tick(c.cooldownSeconds * 1000);
    var later := Next(c, u, wait);
    assert Name(0)[0] == 'v' && "t"[0] == 't';
    t := SendCaches(c, later, "t", "p", lifetime);
    RunOne(c, u, wait);
    RunInTwo(c, u, [wait], SendSteps("t", "p", lifetime));
    WithoutCountIsTidy(c, u, [wait]);
    SendStepsAreTidy(c, later, "t", "p", lifetime);
    TidyInTwo(c, u, [wait], SendSteps("t", "p", lifetime));
    steps := [wait] + SendSteps("t", "p", lifetime);
  }

  /** When the first OTP's guess is counted, the counter it opens is not long enough for the second OTP. */
  function CutInUntil(c: Config, lifetime: Positive): int {
    var now := c.cooldownSeconds * 1000;
    now + 1000 * RemainingTtl(lifetime, now)
  }

  lemma StrayIncrement(c: Config, w: State, lifetime: Positive)
    requires w.now == c.cooldownSeconds * 1000 && Name(0) in w.verifies && Name(0) !in w.sends
    requires w.verifies[Name(0)].stage == Mismatched(Redis.OtpRecord("o", Sha256(""), lifetime), true)
    requires AttemptsSlot !in w.store
    ensures var v := Next(c, w, Verifying(Name(0), CountWrong));
            && v.store == w.store[AttemptsSlot := Redis.Entry(Redis.Number(1), CutInUntil(c, lifetime))]
            && v.verifies == w.verifies[Name(0) := w.verifies[Name(0)].(stage := Closing)]
            && v.now == w.now && v.sends == w.sends && v.issued == w.issued
            && v.hashed == w.hashed && v.late == w.late && v.dropped == w.dropped &&
               v.misses == w.misses + multiset{"o"}
  {
  }

  lemma StrayCount(c: Config, u: State, w: State, lifetime: Positive)
    requires lifetime > 1000 && w.now == c.cooldownSeconds * 1000
    requires HasSent(c, u.(now := w.now), w, "t", "p", lifetime) && u.sends.Keys == {"s"} &&
             u.verifies.Keys == {Name(0)}
    requires u.verifies[Name(0)].stage == Mismatched(Redis.OtpRecord("o", Sha256(""), lifetime), true)
    requires u.hashed["p"] == u.misses["p"] == u.late["p"] == u.dropped["p"] == 0
    requires VerifyLockSlot in u.store ==> u.store[VerifyLockSlot].value == Redis.Text(Name(0))
    ensures var x := Next(c, Next(c, w, Verifying(Name(0), CountWrong)), Verifying(Name(0), ReleaseVerifyLock));
            && x.now == w.now
            && Guessed(x, Guesses("p", w.now + lifetime, 1, CutInUntil(c, lifetime), 1, 0, 0))
  {
    var call := Name(0);
    assert call[0] == 'v' && call !in w.sends;
    StrayIncrement(c, w, lifetime);
    var v := Next(c, w, Verifying(call, CountWrong));
    Releases(c, v, call);
    var x := Next(c, v, Verifying(call, ReleaseVerifyLock));
    forall j | j >= 1 ensures Name(j) !in x.verifies {
      assert |Name(j)| == j + 1 && |call| == 1;
    }
  }

  /** The send of "p" cuts in on a guess against "o", which is then counted against "p". */
  lemma CutIn(c: Config, lifetime: Positive) returns (steps: seq<Step>, x: State)
    requires lifetime > 1000
    ensures x == Run(c, START, steps) && x.now == c.cooldownSeconds * 1000
    ensures Guessed(x, Guesses("p", x.now + lifetime, 1, CutInUntil(c, lifetime), 1, 0, 0))
    ensures c.maxAttempts >= 2 ==> Tidy(c, START, steps)
  {
    var one, s := SentAtStart(c, lifetime);
    var u := WrongIsHashed(c, s, Unguessed(lifetime));
    var two := HashSteps(Name(0));
    var three, w := SecondSend(c, u, lifetime);
    var count, release := Verifying(Name(0), CountWrong), Verifying(Name(0), ReleaseVerifyLock);
    var four := [count] + ([release] + []);
    StrayCount(c, u, w, lifetime);
    RunTwo(c, w, count, release);
    RunInTwo(c, u, three, four);
    RunInTwo(c, s, two, three + four);
    RunInTwo(c, START, one, two + (three + four));
    HashStepsAreTidy(c, s, Name(0));
    if c.maxAttempts >= 2 {
      CountIsTidy(c, w, Name(0));
      TidyInTwo(c, u, three, four);
      TidyInTwo(c, s, two, three + four);
      TidyInTwo(c, START, one, two + (three + four));
    }
    return one + (two + (three + four)), Run(c, w, four);
  }

  lemma CounterRunsOut(c: Config, s: State, g: Guesses)
    requires Guessed(s, g) && g.count > 0 && g.until < g.expiresAt
    ensures Guessed(Next(c, s, Tick(g.until - s.now)), g.(count := 0))
  {
  }

  /**
   * For every configuration and lifetime of more than a second: if a second send cuts in on a
   * verification and the calls that reach the maximum fail to delete the state, a run counts
   * 2 * max - 1 wrong guesses against the second OTP before it expires, none dropped or late.
   */
  lemma CutInExceeds(c: Config, lifetime: Positive) returns (steps: seq<Step>)
    requires lifetime > 1000
    ensures var s := Run(c, START, steps);
            && s.misses["p"] == s.hashed["p"] == 2 * c.maxAttempts - 1
            && s.late["p"] == 0 && s.dropped["p"] == 0 && !OtpAttempts.Expired(s, "p")
  {
    var one, s := CutIn(c, lifetime);
    var g := Guesses("p", s.now + lifetime, 1, CutInUntil(c, lifetime), 1, 0, 0);
    var two, t := ManyMisses(c, s, None, g, c.maxAttempts - 1);
    MissesAddUp(g, s.now, c.maxAttempts - 1);
    var h := WithMisses(g, s.now, c.maxAttempts - 1);
    var wait := Tick(h.until - t.now);
    CounterRunsOut(c, t, h);
    var u := Next(c, t, wait);
    var four, v := ManyMisses(c, u, None, h.(count := 0), c.maxAttempts);
    MissesAddUp(h.(count := 0), u.now, c.maxAttempts);
    RunOne(c, t, wait);
    RunInTwo(c, t, [wait], four);
    RunInTwo(c, s, two, [wait] + four);
    RunInTwo(c, START, one, two + ([wait] + four));
    steps := one + (two + ([wait] + four));
  }

  /** A wrong guess that reaches the maximum; its call deletes the state. */
  lemma LastMiss(c: Config, s: State, g: Guesses) returns (steps: seq<Step>)
    requires Guessed(s, g) && g.count + 1 == c.maxAttempts
    ensures Tidy(c, s, steps)
    ensures var t := Run(c, s, steps);
            && t.now == s.now && t.issued == s.issued && t.late == s.late && t.dropped == s.dropped
            && t.misses == s.misses + multiset{g.id} && t.hashed == s.hashed + multiset{g.id}
            && OtpSlot !in t.store && AttemptsSlot !in t.store
  {
    var call := Name(g.names);
    var u := WrongIsHashed(c, s, g);
    NameIsNew(s, g);
    Counts(c, s, u, g);
    var count, clear := Verifying(call, CountWrong), Verifying(call, ClearAfterVerify);
    RunTwo(c, u, count, clear);
    RunInTwo(c, s, HashSteps(call), [count] + ([clear] + []));
    HashStepsAreTidy(c, s, call);
    DeletionIsTidy(c, u, call);
    TidyInTwo(c, s, HashSteps(call), [count] + ([clear] + []));
    steps := HashSteps(call) + ([count] + ([clear] + []));
  }

  lemma DeletionIsTidy(c: Config, u: State, call: string)
    ensures Tidy(c, u, [Verifying(call, CountWrong)] + ([Verifying(call, ClearAfterVerify)] + []))
  {
    var count, clear := Verifying(call, CountWrong), Verifying(call, ClearAfterVerify);
    var steps := [count] + ([clear] + []);
    var v := Next(c, u, count);
    assert steps[0] == count && steps[1..] == [clear] && [clear][1..] == [];
    var owed := OwedAfter(c, u, None, count);
    assert Deletes(c, Next(c, v, clear), OwedAfter(c, v, owed, clear), []);
    assert Deletes(c, v, owed, [clear]) && OwedAtEnd(c, v, owed, [clear]) == None;
  }

  /**
   * Even if every call that reaches the maximum deletes the state, a run in which a second send
   * cuts in counts 2 * max - 2 wrong guesses against the second OTP before it expires: more than
   * the maximum, from a maximum of three on.
   */
  lemma CutInExceedsThoughDeleted(c: Config, lifetime: Positive) returns (steps: seq<Step>)
    requires lifetime > 1000 && c.maxAttempts >= 2
    ensures Deletes(c, START, None, steps)
    ensures var s := Run(c, START, steps);
            && s.misses["p"] == s.hashed["p"] == 2 * c.maxAttempts - 2
            && s.late["p"] == 0 && s.dropped["p"] == 0 && !OtpAttempts.Expired(s, "p")
  {
    var one, s := CutIn(c, lifetime);
    var g := Guesses("p", s.now + lifetime, 1, CutInUntil(c, lifetime), 1, 0, 0);
    var two, t := ManyMisses(c, s, None, g, c.maxAttempts - 2);
    MissesAddUp(g, s.now, c.maxAttempts - 2);
    var h := WithMisses(g, s.now, c.maxAttempts - 2);
    var wait := Tick(h.until - t.now);
    CounterRunsOut(c, t, h);
    var u := Next(c, t, wait);
    var four, v := ManyMisses(c, u, None, h.(count := 0), c.maxAttempts - 1);
    MissesAddUp(h.(count := 0), u.now, c.maxAttempts - 1);
    var five := LastMiss(c, v, WithMisses(h.(count := 0), u.now, c.maxAttempts - 1));
    WithoutCountIsTidy(c, t, [wait]);
    RunOne(c, t, wait);
    RunInTwo(c, u, four, five);
    TidyInTwo(c, u, four, five);
    RunInTwo(c, t, [wait], four + five);
    TidyInTwo(c, t, [wait], four + five);
    RunInTwo(c, s, two, [wait] + (four + five));
    TidyInTwo(c, s, two, [wait] + (four + five));
    RunInTwo(c, START, one, two + ([wait] + (four + five)));
    TidyInTwo(c, START, one, two + ([wait] + (four + five)));
    steps := one + (two + ([wait] + (four + five)));
  }
}
