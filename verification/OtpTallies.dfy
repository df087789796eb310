/**
 * Where the hashed wrong guesses of an OTP go, in every interleaving of the protocol's steps:
 * each is counted in the cache, or dropped because its call failed, or its call has yet to
 * count it.
 */
module OtpTallies {
  import opened OtpServices
  import opened OtpProtocol

  /** The calls that have hashed a wrong guess against the OTP and have yet to count it. */
  function Waiting(s: State, id: string): set<string> {
    set v | v in s.verifies && Uncounted(s.verifies[v].stage, id)
  }

  /** Every hashed wrong guess against the OTP is accounted for. */
  ghost predicate Accounted(s: State, id: string) {
    s.hashed[id] == s.misses[id] + s.late[id] + s.dropped[id] + |Waiting(s, id)|
  }

  predicate SameTallies(s: State, t: State) {
    t.hashed == s.hashed && t.misses == s.misses && t.late == s.late && t.dropped == s.dropped
  }

  /** A call's move to another stage leaves the other calls waiting, or not. */
  lemma WaitingAfterMove(s: State, t: State, call: string, id: string)
    requires call in s.verifies && call in t.verifies && t.verifies == s.verifies[call := t.verifies[call]]
    ensures |Waiting(t, id)| + (if Uncounted(s.verifies[call].stage, id) then 1 else 0) ==
            |Waiting(s, id)| + (if Uncounted(t.verifies[call].stage, id) then 1 else 0)
  {
    assert Waiting(t, id) - {call} == Waiting(s, id) - {call};
    assert Uncounted(s.verifies[call].stage, id) <==> call in Waiting(s, id);
    assert Uncounted(t.verifies[call].stage, id) <==> call in Waiting(t, id);
    CardinalityWithout(Waiting(s, id), call);
    CardinalityWithout(Waiting(t, id), call);
  }

  lemma CardinalityWithout(x: set<string>, e: string)
    ensures |x - {e}| == |x| - (if e in x then 1 else 0)
  {
    if e !in x {
      assert x - {e} == x;
    }
  }

  lemma StartKeepsAccounted(s: State, t: State, id: string)
    requires Accounted(s, id) && SameTallies(s, t)
    requires forall v :: v in s.verifies ==> v in t.verifies && t.verifies[v] == s.verifies[v]
    requires forall v :: v in t.verifies && v !in s.verifies ==> !Uncounted(t.verifies[v].stage, id)
    ensures Accounted(t, id)
  {
    assert Waiting(t, id) == Waiting(s, id);
  }

  lemma SendKeepsTallies(s: State, call: string, step: SendStep)
    requires call in s.sends
    ensures SameTallies(s, NextSend(s, call, step)) && NextSend(s, call, step).verifies == s.verifies
  {
  }

  lemma ComparingKeepsAccounted(c: Config, s: State, call: string, id: string)
    requires Accounted(s, id) && call in s.verifies
    ensures Accounted(NextVerify(c, s, call, Compare), id)
  {
    WaitingAfterMove(s, NextVerify(c, s, call, Compare), call, id);
  }

  lemma FailingKeepsAccounted(c: Config, s: State, call: string, id: string)
    requires Accounted(s, id) && call in s.verifies
    ensures Accounted(NextVerify(c, s, call, VerifyFails), id)
  {
    WaitingAfterMove(s, NextVerify(c, s, call, VerifyFails), call, id);
  }

  lemma CountingKeepsAccounted(c: Config, s: State, call: string, id: string)
    requires Accounted(s, id) && call in s.verifies
    ensures Accounted(NextVerify(c, s, call, CountWrong), id)
  {
    var t := NextVerify(c, s, call, CountWrong);
    assert s.verifies == s.verifies[call := s.verifies[call]];
    WaitingAfterMove(s, t, call, id);
  }

  lemma MarkingKeepsAccounted(c: Config, s: State, call: string, id: string)
    requires Accounted(s, id) && call in s.verifies
    ensures Accounted(NextVerify(c, s, call, MarkVerified), id)
  {
    assert s.verifies == s.verifies[call := s.verifies[call]];
    WaitingAfterMove(s, NextVerify(c, s, call, MarkVerified), call, id);
  }

  lemma EndingKeepsAccounted(c: Config, s: State, call: string, step: VerifyStep, id: string)
    requires Accounted(s, id) && call in s.verifies && (step.ClearAfterVerify? || step.ReleaseVerifyLock?)
    ensures Accounted(NextVerify(c, s, call, step), id)
  {
    assert s.verifies == s.verifies[call := s.verifies[call]];
    WaitingAfterMove(s, NextVerify(c, s, call, step), call, id);
  }

  lemma ReadingKeepsAccounted(c: Config, s: State, call: string, step: VerifyStep, id: string)
    requires Accounted(s, id) && call in s.verifies &&
             (step.AcquireVerifyLock? || step.ReadRecord? || step.ReadAttempts?)
    ensures Accounted(NextVerify(c, s, call, step), id)
  {
    WaitingAfterMove(s, NextVerify(c, s, call, step), call, id);
  }

  lemma VerifyKeepsAccounted(c: Config, s: State, call: string, step: VerifyStep, id: string)
    requires Accounted(s, id) && call in s.verifies
    ensures Accounted(NextVerify(c, s, call, step), id)
  {
    match step
    case Compare => ComparingKeepsAccounted(c, s, call, id);
    case VerifyFails => FailingKeepsAccounted(c, s, call, id);
    case CountWrong => CountingKeepsAccounted(c, s, call, id);
    case MarkVerified => MarkingKeepsAccounted(c, s, call, id);
    case ClearAfterVerify => EndingKeepsAccounted(c, s, call, step, id);
    case ReleaseVerifyLock => EndingKeepsAccounted(c, s, call, step, id);
    case _ => ReadingKeepsAccounted(c, s, call, step, id);
  }

  lemma NextKeepsAccounted(c: Config, s: State, step: Step, id: string)
    requires Accounted(s, id)
    ensures Accounted(Next(c, s, step), id)
  {
    match step
    case Tick(_) => StartKeepsAccounted(s, Next(c, s, step), id);
    case Sending(call, send) =>
      StartKeepsAccounted(s, StartSend(c, s, call), id);
      if call in s.sends {
        SendKeepsTallies(s, call, send);
        StartKeepsAccounted(s, NextSend(s, call, send), id);
      }
    case Verifying(call, verify) =>
      StartKeepsAccounted(s, StartVerify(s, call, if verify.AcquireVerifyLock? then verify.guess else ""), id);
      if call in s.verifies {
        VerifyKeepsAccounted(c, s, call, verify, id);
      }
  }

  lemma {:induction false} RunKeepsAccounted(c: Config, s: State, steps: seq<Step>, id: string)
    requires Accounted(s, id)
    ensures Accounted(Run(c, s, steps), id)
    decreases |steps|
  {
    if steps != [] {
      NextKeepsAccounted(c, s, steps[0], id);
      RunKeepsAccounted(c, Next(c, s, steps[0]), steps[1..], id);
    }
  }

  /**
   * However calls overlap and fail: of the wrong guesses hashed against an OTP, each was counted
   * in time, counted late, dropped, or belongs to a call that has yet to count it.
   */
  lemma HashedGuessesAreAccounted(c: Config, steps: seq<Step>, id: string)
    ensures Accounted(Run(c, START, steps), id)
  {
    assert Waiting(START, id) == {};
    RunKeepsAccounted(c, START, steps, id);
  }
}
