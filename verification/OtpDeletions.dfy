/**
 * What the deletion of the OTP's state is worth: if a call that counts up to the maximum always
 * deletes the state, no guess is counted beyond the maximum, not even a late one.
 */
module OtpDeletions {
  import opened Prelude
  import Redis
  import opened OtpServices
  import opened OtpProtocol
  import OtpTallies
  import opened OtpAttempts

  /** The step counts a wrong guess, and the counter reaches the maximum. */
  predicate ReachesMaximum(c: Config, s: State, step: Step) {
    && step.Verifying? && step.verify.CountWrong? && step.call in s.verifies
    && s.verifies[step.call].stage.Mismatched? && s.verifies[step.call].stage.record.OtpRecord?
    && Redis.Count(s.store, s.now, AttemptsSlot) + 1 >= c.maxAttempts
  }

  /** The call that has to delete the state next. */
  function OwedAfter(c: Config, s: State, owed: Option<string>, step: Step): Option<string> {
    if step.Tick? then owed else if ReachesMaximum(c, s, step) then Some(step.call) else None
  }

  /** A call that reaches the maximum deletes the state before anything else happens. */
  predicate Deletes(c: Config, s: State, owed: Option<string>, steps: seq<Step>)
    decreases |steps|
  {
    steps == [] ||
    ((owed.Some? ==> steps[0].Tick? || steps[0] == Verifying(owed.value, ClearAfterVerify)) &&
     Deletes(c, Next(c, s, steps[0]), OwedAfter(c, s, owed, steps[0]), steps[1..]))
  }

  // ---------------------------------------------------------------- the invariant

  function Total(s: State, id: string): nat {
    s.misses[id] + s.late[id]
  }

  ghost predicate TotalOk(c: Config, s: State, id: string) {
    Total(s, id) <= c.maxAttempts
  }

  /** An OTP with the maximum of counted guesses is out of the cache, or has expired. */
  ghost predicate Withdrawn(c: Config, s: State, id: string) {
    Total(s, id) >= c.maxAttempts ==> !InSlot(s, id) || Expired(s, id)
  }

  /** The verification at work has a guess left. */
  ghost predicate HasGuess(c: Config, s: State, stage: VerifyStage) {
    Working(stage) ==> Total(s, OtpOf(stage)) < c.maxAttempts
  }

  ghost predicate Kept(c: Config, s: State, owed: Option<string>) {
    && Inv(c, s) && (forall id :: TotalOk(c, s, id))
    && (s.latest.Some? && s.latest.value in s.verifies ==> HasGuess(c, s, s.verifies[s.latest.value].stage))
    && (if owed.None? then forall id :: Withdrawn(c, s, id)
        else owed.value in s.verifies && s.verifies[owed.value].stage == Closing)
  }

  /** The tallies stay, the cached OTP stays or goes, and the latest call does not take up another one. */
  ghost predicate Quiet(s: State, t: State) {
    && t.now >= s.now && t.misses == s.misses && t.late == s.late
    && (forall id :: id in s.issued ==> id in t.issued && t.issued[id] == s.issued[id])
    && (SameSlot(s, t, OtpSlot) || OtpSlot !in t.store)
    && (t.latest.Some? && t.latest.value in t.verifies && Working(t.verifies[t.latest.value].stage) ==>
          t.latest == s.latest && t.latest.value in s.verifies && Working(s.verifies[t.latest.value].stage) &&
          OtpOf(t.verifies[t.latest.value].stage) == OtpOf(s.verifies[t.latest.value].stage))
  }

  lemma QuietKeeps(c: Config, s: State, t: State)
    requires Kept(c, s, None) && Quiet(s, t) && Inv(c, t)
    ensures Kept(c, t, None)
  {
    forall id ensures TotalOk(c, t, id) && Withdrawn(c, t, id) {
      assert TotalOk(c, s, id) && Withdrawn(c, s, id);
    }
  }

  lemma CachingKeeps(c: Config, s: State, call: string)
    requires Kept(c, s, None) && call in s.sends && Orderly(s, Sending(call, CacheRow))
    ensures Kept(c, NextSend(s, call, CacheRow), None)
  {
    var t, stage := NextSend(s, call, CacheRow), s.sends[call].stage;
    CacheKeepsInv(c, s, call);
    if stage.Created? && stage.id in s.issued {
      assert SendOk(s, call) && TallyOk(c, s, stage.id);
      forall id ensures TotalOk(c, t, id) && Withdrawn(c, t, id) {
        assert TotalOk(c, s, id) && Withdrawn(c, s, id);
      }
    }
  }

  lemma SendIsQuiet(s: State, call: string, step: SendStep)
    requires call in s.sends && !step.CacheRow?
    ensures Quiet(s, NextSend(s, call, step))
  {
    if !step.CreateRow? {
      OtherSendWithdraws(s, call, step);
    }
  }

  lemma SendKeeps(c: Config, s: State, call: string, step: SendStep)
    requires Kept(c, s, None) && call in s.sends && Orderly(s, Sending(call, step))
    ensures Kept(c, NextSend(s, call, step), None)
  {
    if step.CacheRow? {
      CachingKeeps(c, s, call);
    } else {
      SendKeepsInv(c, s, call, step);
      SendIsQuiet(s, call, step);
      QuietKeeps(c, s, NextSend(s, call, step));
    }
  }

  /** What a call reads from the cache, before it expires, has a guess left. */
  lemma LookingHasGuess(c: Config, s: State, call: string, step: VerifyStep)
    requires Kept(c, s, None) && call in s.verifies && s.latest == Some(call)
    ensures HasGuess(c, s, StageAfter(c, s, call, step))
  {
    var stage := StageAfter(c, s, call, step);
    if Working(stage) {
      assert Withdrawn(c, s, OtpOf(stage));
    }
  }

  lemma MovingKeeps(c: Config, s: State, call: string, step: VerifyStep)
    requires Kept(c, s, None) && call in s.verifies && OnlyMoves(step) && Orderly(s, Verifying(call, step))
    ensures Kept(c, NextVerify(c, s, call, step), None)
  {
    var t := NextVerify(c, s, call, step);
    MovingKeepsInv(c, s, call, step);
    assert t == VerifyAt(s, call, StageAfter(c, s, call, step)).(hashed := t.hashed, dropped := t.dropped);
    if s.latest == Some(call) {
      LookingHasGuess(c, s, call, step);
    }
    forall id ensures TotalOk(c, t, id) && Withdrawn(c, t, id) {
      assert TotalOk(c, s, id) && Withdrawn(c, s, id);
    }
  }

  /** While the OTP lasts, the counter is the number of its counted guesses. */
  lemma CounterCounts(c: Config, s: State, id: string)
    requires Inv(c, s) && InSlot(s, id) && !Expired(s, id)
    ensures Redis.Count(s.store, s.now, AttemptsSlot) == s.misses[id]
  {
  }

  lemma CountingKeepsTotals(c: Config, s: State, call: string)
    requires Kept(c, s, None) && call in s.verifies && s.latest == Some(call)
    requires s.verifies[call].stage.Mismatched? && s.verifies[call].stage.record.OtpRecord?
    ensures forall id :: TotalOk(c, CountedWrong(s, call), id)
  {
    var t := CountedWrong(s, call);
    assert HasGuess(c, s, s.verifies[call].stage);
    forall id ensures TotalOk(c, t, id) {
      assert TotalOk(c, s, id);
    }
  }

  lemma CountingWithdraws(c: Config, s: State, call: string, id: string)
    requires Kept(c, s, None) && call in s.verifies && s.latest == Some(call)
    requires s.verifies[call].stage.Mismatched? && s.verifies[call].stage.record.OtpRecord?
    requires InSlot(s, OtpOf(s.verifies[call].stage)) && !ReachesMaximum(c, s, Verifying(call, CountWrong))
    ensures Withdrawn(c, CountedWrong(s, call), id)
  {
    var own := OtpOf(s.verifies[call].stage);
    assert Withdrawn(c, s, id) && TallyOk(c, s, own);
    if id == own && !Expired(s, id) {
      CounterCounts(c, s, id);
    }
  }

  lemma CountingKeeps(c: Config, s: State, call: string)
    requires Kept(c, s, None) && call in s.verifies && Orderly(s, Verifying(call, CountWrong))
    requires s.verifies[call].stage.Mismatched? && s.verifies[call].stage.record.OtpRecord?
    ensures Kept(c, CountedWrong(s, call), OwedAfter(c, s, None, Verifying(call, CountWrong)))
  {
    CountingKeepsInv(c, s, call);
    CountingKeepsTotals(c, s, call);
    if !ReachesMaximum(c, s, Verifying(call, CountWrong)) {
      forall id ensures Withdrawn(c, CountedWrong(s, call), id) {
        CountingWithdraws(c, s, call, id);
      }
    }
  }

  /** A call stops working on its OTP. */
  lemma StoppingIsQuiet(s: State, t: State, call: string, stage: VerifyStage)
    requires call in s.verifies && !Working(stage)
    requires t.verifies == s.verifies[call := s.verifies[call].(stage := stage)] && t.latest == s.latest
    requires t.now == s.now && t.misses == s.misses && t.late == s.late && t.issued == s.issued
    requires SameSlot(s, t, OtpSlot)
    ensures Quiet(s, t)
  {
  }

  lemma MarkingIsQuiet(c: Config, s: State, call: string)
    requires call in s.verifies
    ensures Quiet(s, NextVerify(c, s, call, MarkVerified))
  {
    if s.verifies[call].stage.Matched? {
      StoppingIsQuiet(s, NextVerify(c, s, call, MarkVerified), call, Closing);
    }
  }

  lemma ReleasingIsQuiet(c: Config, s: State, call: string)
    requires call in s.verifies
    ensures Quiet(s, NextVerify(c, s, call, ReleaseVerifyLock))
  {
    if s.verifies[call].stage.Closing? {
      StoppingIsQuiet(s, NextVerify(c, s, call, ReleaseVerifyLock), call, Released);
    }
  }

  lemma ClearingIsQuiet(c: Config, s: State, call: string)
    requires call in s.verifies
    ensures Quiet(s, NextVerify(c, s, call, ClearAfterVerify))
  {
  }

  lemma VerifyKeeps(c: Config, s: State, call: string, step: VerifyStep)
    requires Kept(c, s, None) && call in s.verifies && Orderly(s, Verifying(call, step))
    ensures Kept(c, NextVerify(c, s, call, step), OwedAfter(c, s, None, Verifying(call, step)))
  {
    match step
    case CountWrong =>
      if s.verifies[call].stage.Mismatched? && s.verifies[call].stage.record.OtpRecord? {
        CountingKeeps(c, s, call);
      }
    case MarkVerified =>
      VerifyKeepsInv(c, s, call, step);
      MarkingIsQuiet(c, s, call);
      QuietKeeps(c, s, NextVerify(c, s, call, step));
    case ClearAfterVerify =>
      VerifyKeepsInv(c, s, call, step);
      ClearingIsQuiet(c, s, call);
      QuietKeeps(c, s, NextVerify(c, s, call, step));
    case ReleaseVerifyLock =>
      VerifyKeepsInv(c, s, call, step);
      ReleasingIsQuiet(c, s, call);
      QuietKeeps(c, s, NextVerify(c, s, call, step));
    case _ => MovingKeeps(c, s, call, step);
  }

  /** The deletion that was owed. */
  lemma ClearingKeeps(c: Config, s: State, call: string)
    requires Kept(c, s, Some(call))
    ensures Kept(c, NextVerify(c, s, call, ClearAfterVerify), None)
  {
    var t := NextVerify(c, s, call, ClearAfterVerify);
    ClearingKeepsInv(c, s, call);
    forall id ensures TotalOk(c, t, id) && Withdrawn(c, t, id) {
      assert TotalOk(c, s, id);
    }
  }

  lemma WaitingKeeps(c: Config, s: State, owed: Option<string>, ticks: nat)
    requires Kept(c, s, owed)
    ensures Kept(c, s.(now := s.now + ticks), owed)
  {
    var t := s.(now := s.now + ticks);
    TickKeepsInv(c, s, ticks);
    forall id ensures TotalOk(c, t, id) {
      assert TotalOk(c, s, id);
    }
    if owed.None? {
      forall id ensures Withdrawn(c, t, id) {
        assert Withdrawn(c, s, id);
      }
    }
  }

  lemma StartSendIsQuiet(c: Config, s: State, call: string)
    ensures Quiet(s, StartSend(c, s, call))
  {
  }

  lemma StartSendKeeps(c: Config, s: State, call: string)
    requires Kept(c, s, None)
    ensures Kept(c, StartSend(c, s, call), None)
  {
    StartSendKeepsInv(c, s, call);
    StartSendIsQuiet(c, s, call);
    QuietKeeps(c, s, StartSend(c, s, call));
  }

  lemma StartVerifyIsQuiet(s: State, call: string, guess: string)
    ensures Quiet(s, StartVerify(s, call, guess))
  {
  }

  lemma StartVerifyKeeps(c: Config, s: State, call: string, guess: string)
    requires Kept(c, s, None)
    ensures Kept(c, StartVerify(s, call, guess), None)
  {
    StartVerifyKeepsInv(c, s, call, guess);
    StartVerifyIsQuiet(s, call, guess);
    QuietKeeps(c, s, StartVerify(s, call, guess));
  }

  lemma NextKeeps(c: Config, s: State, owed: Option<string>, step: Step)
    requires Kept(c, s, owed) && Orderly(s, step)
    requires owed.Some? ==> step.Tick? || step == Verifying(owed.value, ClearAfterVerify)
    ensures Kept(c, Next(c, s, step), OwedAfter(c, s, owed, step))
  {
    match step
    case Tick(ticks) => WaitingKeeps(c, s, owed, ticks);
    case Sending(call, send) =>
      StartSendKeeps(c, s, call);
      if call in s.sends {
        SendKeeps(c, s, call, send);
      }
    case Verifying(call, verify) =>
      if owed.Some? {
        ClearingKeeps(c, s, call);
      } else {
        StartVerifyKeeps(c, s, call, if verify.AcquireVerifyLock? then verify.guess else "");
        if call in s.verifies {
          VerifyKeeps(c, s, call, verify);
        }
      }
  }

  function OwedAtEnd(c: Config, s: State, owed: Option<string>, steps: seq<Step>): Option<string>
    decreases |steps|
  {
    if steps == [] then owed else OwedAtEnd(c, Next(c, s, steps[0]), OwedAfter(c, s, owed, steps[0]), steps[1..])
  }

  lemma {:induction false} RunKeeps(c: Config, s: State, owed: Option<string>, steps: seq<Step>)
    requires Kept(c, s, owed) && AllOrderly(c, s, steps) && Deletes(c, s, owed, steps)
    ensures Kept(c, Run(c, s, steps), OwedAtEnd(c, s, owed, steps))
    decreases |steps|
  {
    if steps != [] {
      NextKeeps(c, s, owed, steps[0]);
      RunKeeps(c, Next(c, s, steps[0]), OwedAfter(c, s, owed, steps[0]), steps[1..]);
    }
  }

  lemma KeptBounds(c: Config, s: State, owed: Option<string>, id: string)
    requires Kept(c, s, owed) && OtpTallies.Accounted(s, id)
    ensures s.misses[id] + s.late[id] <= c.maxAttempts && s.hashed[id] <= c.maxAttempts + Lost(s, id)
  {
    HashedIsCountedOrLost(s, id);
    assert TotalOk(c, s, id);
  }

  lemma StartIsKept(c: Config)
    ensures Kept(c, START, None)
  {
    StartIsOk(c);
    assert forall id :: TotalOk(c, START, id) && Withdrawn(c, START, id);
  }

  /**
   * In every orderly run in which the calls that reach the maximum delete the state: the guesses
   * counted against an OTP, late ones included, are at most the maximum, and so are the hashed
   * ones besides those lost.
   */
  lemma DeletionKeepsMaximum(c: Config, steps: seq<Step>, id: string)
    requires AllOrderly(c, START, steps) && Deletes(c, START, None, steps)
    ensures var s := Run(c, START, steps);
            s.misses[id] + s.late[id] <= c.maxAttempts && s.hashed[id] <= c.maxAttempts + Lost(s, id)
  {
    StartIsKept(c);
    RunKeeps(c, START, None, steps);
    OtpTallies.HashedGuessesAreAccounted(c, steps, id);
    KeptBounds(c, Run(c, START, steps), OwedAtEnd(c, START, None, steps), id);
  }

  // ---------------------------------------------------------------- putting runs together

  /** The run deletes whenever it must, and owes no deletion at its end. */
  predicate Tidy(c: Config, s: State, steps: seq<Step>) {
    Deletes(c, s, None, steps) && OwedAtEnd(c, s, None, steps) == None
  }

  lemma {:induction false} DeletesInTwo(c: Config, s: State, owed: Option<string>, one: seq<Step>, two: seq<Step>)
    requires Deletes(c, s, owed, one) && Deletes(c, Run(c, s, one), OwedAtEnd(c, s, owed, one), two)
    ensures Deletes(c, s, owed, one + two)
    ensures OwedAtEnd(c, s, owed, one + two) == OwedAtEnd(c, Run(c, s, one), OwedAtEnd(c, s, owed, one), two)
    decreases |one|
  {
    if one == [] {
      assert one + two == two;
    } else {
      assert (one + two)[1..] == one[1..] + two;
      DeletesInTwo(c, Next(c, s, one[0]), OwedAfter(c, s, owed, one[0]), one[1..], two);
    }
  }

  lemma TidyInTwo(c: Config, s: State, one: seq<Step>, two: seq<Step>)
    requires Tidy(c, s, one) && Tidy(c, Run(c, s, one), two)
    ensures Tidy(c, s, one + two)
  {
    DeletesInTwo(c, s, None, one, two);
  }

  predicate NoCount(steps: seq<Step>) {
    forall step :: step in steps ==> !(step.Verifying? && step.verify.CountWrong?)
  }

  lemma {:induction false} WithoutCountIsTidy(c: Config, s: State, steps: seq<Step>)
    requires NoCount(steps)
    ensures Tidy(c, s, steps)
    decreases |steps|
  {
    if steps != [] {
      assert steps[0] in steps;
      WithoutCountIsTidy(c, Next(c, s, steps[0]), steps[1..]);
    }
  }
}
