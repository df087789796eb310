/**
 * How many wrong guesses an OTP admits, over whole runs of the protocol's single steps. The
 * bound holds in orderly runs; runs without overlapping calls are orderly, and so are runs in
 * which every verification stays within its lock and no send cuts in. Guesses that were hashed
 * and then lost, because their call stopped before counting them, come on top.
 */
module OtpAttempts {
  import opened Prelude
  import Redis
  import opened OtpServices
  import opened OtpProtocol
  import opened OtpTallies

  // ---------------------------------------------------------------- orderly runs

  /** The verification has read a record and is at work on it. */
  predicate Working(stage: VerifyStage) {
    stage.HasRecord? || stage.MayGuess? || stage.Matched? || stage.Mismatched?
  }

  function OtpOf(stage: VerifyStage): string
    requires Working(stage)
  {
    if stage.Matched? then stage.id else if stage.record.OtpRecord? then stage.record.otpId else ""
  }

  /** The cache entry of the OTP, expired or not, is still this one. */
  predicate InSlot(s: State, id: string) {
    OtpSlot in s.store && s.store[OtpSlot].value.OtpRecord? && s.store[OtpSlot].value.otpId == id
  }

  /**
   * A verification works on its OTP only while no other has taken the lock since and no send
   * has withdrawn or replaced that OTP; a send caches an OTP only if no counter is left over.
   */
  predicate Orderly(s: State, step: Step) {
    match step
    case Tick(_) => true
    case Sending(call, send) =>
      send.CacheRow? && call in s.sends && s.sends[call].stage.Created? ==> AttemptsSlot !in s.store
    case Verifying(call, verify) =>
      call in s.verifies && Working(s.verifies[call].stage) ==>
        s.latest == Some(call) && InSlot(s, OtpOf(s.verifies[call].stage))
  }

  predicate AllOrderly(c: Config, s: State, steps: seq<Step>)
    decreases |steps|
  {
    steps == [] || (Orderly(s, steps[0]) && AllOrderly(c, Next(c, s, steps[0]), steps[1..]))
  }

  // ---------------------------------------------------------------- the invariant

  function ExpiryOf(s: State, id: string): int
    requires id in s.issued
  {
    s.issued[id].expiresAt
  }

  /** The attempts counter is the number of wrong guesses against the OTP, and outlives it. */
  ghost predicate CounterExact(s: State, id: string)
    requires id in s.issued
  {
    if AttemptsSlot in s.store
    then s.store[AttemptsSlot].value == Redis.Number(s.misses[id]) && s.store[AttemptsSlot].until >= ExpiryOf(s, id) &&
        s.misses[id] >= 1
    else s.misses[id] == 0
  }

  ghost predicate SlotOk(s: State) {
    OtpSlot in s.store ==>
      var v := s.store[OtpSlot].value;
      && v.OtpRecord? && v.otpId in s.issued && v.otpId in s.cached && v.expiresAt == ExpiryOf(s, v.otpId)
      && (s.now < v.expiresAt ==> CounterExact(s, v.otpId))
  }

  ghost predicate RowOk(s: State, id: string)
    requires id in s.rows
  {
    id in s.issued && s.rows[id].expiresAt == ExpiryOf(s, id)
  }

  /** No OTP has more than the maximum of wrong guesses before it expired, nor more than one after. */
  ghost predicate TallyOk(c: Config, s: State, id: string) {
    && s.misses[id] <= c.maxAttempts && s.late[id] <= 1
    && (s.misses[id] + s.late[id] >= 1 ==> id in s.cached)
    && (id in s.cached ==> id in s.issued)
    && (s.late[id] >= 1 ==> id in s.issued && ExpiryOf(s, id) <= s.now)
  }

  /** An OTP that its send has yet to cache was never in the cache. */
  ghost predicate SendOk(s: State, call: string)
    requires call in s.sends
  {
    var stage := s.sends[call].stage;
    stage.Created? ==> stage.id in s.issued && s.issued[stage.id].sender == call && stage.id !in s.cached
  }

  /** What the verification at work knows: a cached OTP, a guess left if it read the attempts in time. */
  ghost predicate WorkOk(c: Config, s: State, stage: VerifyStage) {
    Working(stage) ==>
      var id := OtpOf(stage);
      && (!stage.Matched? ==> stage.record.OtpRecord? && id in s.issued && stage.record.expiresAt == ExpiryOf(s, id))
      && id in s.issued && id in s.cached && s.late[id] == 0
      && (!stage.HasRecord? ==> if stage.onTime then s.misses[id] < c.maxAttempts else ExpiryOf(s, id) <= s.now)
  }

  ghost predicate LatestOk(c: Config, s: State) {
    s.latest.Some? && s.latest.value in s.verifies ==> WorkOk(c, s, s.verifies[s.latest.value].stage)
  }

  ghost predicate Inv(c: Config, s: State) {
    && SlotOk(s) && LatestOk(c, s)
    && (forall id :: id in s.rows ==> RowOk(s, id))
    && (forall id :: TallyOk(c, s, id))
    && (forall call :: call in s.sends ==> SendOk(s, call))
  }

  lemma TickKeepsInv(c: Config, s: State, ticks: nat)
    requires Inv(c, s)
    ensures Inv(c, s.(now := s.now + ticks))
  {
    var t := s.(now := s.now + ticks);
    forall id ensures TallyOk(c, t, id) {
      assert TallyOk(c, s, id);
    }
    forall call | call in t.sends ensures SendOk(t, call) {
      assert SendOk(s, call);
    }
  }

  lemma TalliesSame(c: Config, s: State, t: State)
    requires forall id :: TallyOk(c, s, id)
    requires t.now >= s.now && t.misses == s.misses && t.late == s.late && t.cached == s.cached
    requires forall id :: id in s.issued ==> id in t.issued && t.issued[id] == s.issued[id]
    ensures forall id :: TallyOk(c, t, id)
  {
    forall id ensures TallyOk(c, t, id) {
      assert TallyOk(c, s, id);
    }
  }

  /** Rows may go, the cached OTP may go together with its counter, sends may move on except to create. */
  ghost predicate Withdraws(s: State, t: State) {
    && t.now == s.now && t.issued == s.issued && t.cached == s.cached && t.misses == s.misses && t.late == s.late
    && t.latest == s.latest && t.verifies == s.verifies
    && (forall id :: id in t.rows ==> id in s.rows && t.rows[id].expiresAt == s.rows[id].expiresAt)
    && ((OtpSlot !in t.store && AttemptsSlot !in t.store) || (SameSlot(s, t, OtpSlot) && SameSlot(s, t, AttemptsSlot)))
    && (forall x :: x in t.sends ==> x in s.sends && (t.sends[x].stage.Created? ==> t.sends[x] == s.sends[x]))
  }

  lemma WithdrawingKeepsInv(c: Config, s: State, t: State)
    requires Inv(c, s) && Withdraws(s, t)
    ensures Inv(c, t)
  {
    TalliesSame(c, s, t);
    forall x | x in t.sends ensures SendOk(t, x) {
      assert SendOk(s, x);
    }
    forall id | id in t.rows ensures RowOk(t, id) {
      assert RowOk(s, id);
    }
  }

  lemma UndoingLocksWithdraws(s: State, call: string)
    requires call in s.sends
    ensures Withdraws(s, NextSend(s, call, UndoCooldown))
  {
  }

  lemma RowsGoing(s: State, t: State)
    requires t == s.(rows := t.rows) && t.rows.Keys <= s.rows.Keys
    requires forall id :: id in t.rows ==> t.rows[id] == s.rows[id]
    ensures Withdraws(s, t)
  {
  }

  lemma UndoingRowWithdraws(s: State, call: string)
    requires call in s.sends
    ensures Withdraws(s, NextSend(s, call, UndoRow))
  {
    RowsGoing(s, NextSend(s, call, UndoRow));
  }

  lemma StageMoveWithdraws(s: State, call: string, stage: SendStage)
    requires call in s.sends && !stage.Created?
    ensures Withdraws(s, SendAt(s, call, stage)) && Withdraws(s, s)
  {
  }

  lemma WithoutOtpWithdraws(s: State, t: State)
    requires t == WithoutOtp(s)
    ensures Withdraws(s, t)
  {
  }

  lemma ClearedWithdraws(s: State, call: string)
    requires call in s.sends
    ensures Withdraws(s, SendAt(WithoutOtp(s), call, Cleared))
  {
  }

  lemma ClearingWithdraws(s: State, call: string, step: SendStep)
    requires call in s.sends && (step.ClearForSend? || step.UndoState?)
    ensures Withdraws(s, NextSend(s, call, step))
  {
    WithoutOtpWithdraws(s, WithoutOtp(s));
    ClearedWithdraws(s, call);
    StageMoveWithdraws(s, call, Undoing(None));
  }

  lemma MovingOnWithdraws(s: State, call: string, step: SendStep)
    requires call in s.sends && (step.Publish? || step.SendFails?)
    ensures Withdraws(s, NextSend(s, call, step))
  {
    var t := NextSend(s, call, step);
    var stage := t.sends[call].stage;
    if t == s {
      StageMoveWithdraws(s, call, Undoing(None));
    } else {
      assert t == SendAt(s, call, stage) && !stage.Created?;
      StageMoveWithdraws(s, call, stage);
    }
  }

  lemma PurgingWithdraws(s: State, call: string)
    requires call in s.sends
    ensures Withdraws(s, NextSend(s, call, DeleteUnverified))
  {
  }

  lemma OtherSendWithdraws(s: State, call: string, step: SendStep)
    requires call in s.sends && !step.CreateRow? && !step.CacheRow?
    ensures Withdraws(s, NextSend(s, call, step))
  {
    match step
    case UndoCooldown => UndoingLocksWithdraws(s, call);
    case UndoRow => UndoingRowWithdraws(s, call);
    case DeleteUnverified => PurgingWithdraws(s, call);
    case ClearForSend => ClearingWithdraws(s, call, step);
    case UndoState => ClearingWithdraws(s, call, step);
    case Publish => MovingOnWithdraws(s, call, step);
    case SendFails => MovingOnWithdraws(s, call, step);
    case AcquireCooldown =>
  }

  lemma CreateKeepsInv(c: Config, s: State, call: string, id: string, secret: string, lifetime: int)
    requires lifetime >= 1 && Inv(c, s) && call in s.sends
    ensures Inv(c, NextSend(s, call, CreateRow(id, secret, lifetime)))
  {
    var t := NextSend(s, call, CreateRow(id, secret, lifetime));
    TalliesSame(c, s, t);
    assert TallyOk(c, s, id);
    forall x | x in t.sends ensures SendOk(t, x) {
      assert SendOk(s, x);
    }
    forall i | i in t.rows ensures RowOk(t, i) {
      assert i in s.rows ==> RowOk(s, i);
    }
  }

  lemma CacheKeepsInv(c: Config, s: State, call: string)
    requires Inv(c, s) && call in s.sends && Orderly(s, Sending(call, CacheRow))
    ensures Inv(c, NextSend(s, call, CacheRow))
  {
    var t, stage := NextSend(s, call, CacheRow), s.sends[call].stage;
    if stage.Created? && stage.id in s.issued {
      assert SendOk(s, call) && TallyOk(c, s, stage.id);
      forall x | x in t.sends ensures SendOk(t, x) {
        assert SendOk(s, x);
      }
      forall id ensures TallyOk(c, t, id) {
        assert TallyOk(c, s, id);
      }
    }
  }

  lemma SendKeepsInv(c: Config, s: State, call: string, step: SendStep)
    requires Inv(c, s) && call in s.sends && Orderly(s, Sending(call, step))
    ensures Inv(c, NextSend(s, call, step))
  {
    match step
    case CreateRow(id, secret, lifetime) => CreateKeepsInv(c, s, call, id, secret, lifetime);
    case CacheRow => CacheKeepsInv(c, s, call);
    case _ =>
      OtherSendWithdraws(s, call, step);
      WithdrawingKeepsInv(c, s, NextSend(s, call, step));
  }

  /** A verification moves to a stage of which it knows enough; it may hash or drop a guess by that. */
  lemma MoveKeepsInv(c: Config, s: State, t: State, call: string, stage: VerifyStage)
    requires Inv(c, s) && call in s.verifies
    requires s.latest == Some(call) ==> WorkOk(c, s, stage)
    requires t == VerifyAt(s, call, stage).(hashed := t.hashed, dropped := t.dropped)
    ensures Inv(c, t)
  {
    TalliesSame(c, s, t);
    forall x | x in t.sends ensures SendOk(t, x) {
      assert SendOk(s, x);
    }
    forall id | id in t.rows ensures RowOk(t, id) {
      assert RowOk(s, id);
    }
  }

  /** What the latest verification learns by looking is what it needs to know. */
  lemma LookingWorks(c: Config, s: State, call: string, step: VerifyStep)
    requires Inv(c, s) && call in s.verifies && s.latest == Some(call) && Orderly(s, Verifying(call, step))
    ensures WorkOk(c, s, StageAfter(c, s, call, step))
  {
    var stage := s.verifies[call].stage;
    match step
    case ReadRecord =>
      if stage.Locked? && OtpSlot in s.store {
        assert TallyOk(c, s, s.store[OtpSlot].value.otpId);
      }
    case _ =>
  }

  lemma CountingKeepsTally(c: Config, s: State, call: string)
    requires Inv(c, s) && call in s.verifies && s.latest == Some(call)
    requires s.verifies[call].stage.Mismatched? && s.verifies[call].stage.record.OtpRecord?
    ensures forall id :: TallyOk(c, CountedWrong(s, call), id)
  {
    var t := CountedWrong(s, call);
    forall id ensures TallyOk(c, t, id) {
      assert TallyOk(c, s, id);
    }
  }

  lemma CountingKeepsSlot(c: Config, s: State, call: string)
    requires Inv(c, s) && call in s.verifies && s.latest == Some(call)
    requires s.verifies[call].stage.Mismatched? && s.verifies[call].stage.record.OtpRecord?
    requires InSlot(s, s.verifies[call].stage.record.otpId)
    ensures SlotOk(CountedWrong(s, call))
  {
  }

  lemma CountingKeepsInv(c: Config, s: State, call: string)
    requires Inv(c, s) && call in s.verifies && s.latest == Some(call)
    requires s.verifies[call].stage.Mismatched? && s.verifies[call].stage.record.OtpRecord?
    requires InSlot(s, s.verifies[call].stage.record.otpId)
    ensures Inv(c, CountedWrong(s, call))
  {
    var t := CountedWrong(s, call);
    CountingKeepsTally(c, s, call);
    CountingKeepsSlot(c, s, call);
    forall x | x in t.sends ensures SendOk(t, x) {
      assert SendOk(s, x);
    }
    forall id | id in t.rows ensures RowOk(t, id) {
      assert RowOk(s, id);
    }
  }

  /** The lock keys play no part in the count, nor do the flags of the rows. */
  lemma LocksDoNotMatter(c: Config, s: State, t: State)
    requires Inv(c, s) && SameSlot(s, t, OtpSlot) && SameSlot(s, t, AttemptsSlot)
    requires t.now == s.now && t.issued == s.issued && t.cached == s.cached && t.misses == s.misses && t.late == s.late
    requires forall id :: id in t.rows ==> id in s.rows && t.rows[id].expiresAt == s.rows[id].expiresAt
    requires forall x :: x in t.sends && t.sends[x].stage.Created? ==> x in s.sends && t.sends[x] == s.sends[x]
    requires t.latest.Some? && t.latest.value in t.verifies ==>
               !Working(t.verifies[t.latest.value].stage) || (t.latest == s.latest && t.latest.value in s.verifies &&
                                                              t.verifies[t.latest.value] == s.verifies[t.latest.value])
    ensures Inv(c, t)
  {
    TalliesSame(c, s, t);
    forall x | x in t.sends ensures SendOk(t, x) {
      assert x in s.sends ==> SendOk(s, x);
    }
    forall id | id in t.rows ensures RowOk(t, id) {
      assert RowOk(s, id);
    }
  }

  lemma MarkingKeepsInv(c: Config, s: State, call: string)
    requires Inv(c, s) && call in s.verifies && s.verifies[call].stage.Matched?
    ensures Inv(c, Marked(s, call))
  {
    LocksDoNotMatter(c, s, Marked(s, call));
  }

  lemma MovingKeepsInv(c: Config, s: State, call: string, step: VerifyStep)
    requires Inv(c, s) && call in s.verifies && OnlyMoves(step) && Orderly(s, Verifying(call, step))
    ensures Inv(c, NextVerify(c, s, call, step))
  {
    if s.latest == Some(call) {
      LookingWorks(c, s, call, step);
    }
    MoveKeepsInv(c, s, NextVerify(c, s, call, step), call, StageAfter(c, s, call, step));
  }

  lemma ReleasingKeepsInv(c: Config, s: State, call: string)
    requires Inv(c, s) && call in s.verifies
    ensures Inv(c, NextVerify(c, s, call, ReleaseVerifyLock))
  {
    if s.verifies[call].stage.Closing? {
      LocksDoNotMatter(c, s, NextVerify(c, s, call, ReleaseVerifyLock));
    }
  }

  lemma ClearingKeepsInv(c: Config, s: State, call: string)
    requires Inv(c, s) && call in s.verifies
    ensures Inv(c, NextVerify(c, s, call, ClearAfterVerify))
  {
    if s.verifies[call].stage.Closing? {
      WithdrawingKeepsInv(c, s, NextVerify(c, s, call, ClearAfterVerify));
    }
  }

  lemma VerifyKeepsInv(c: Config, s: State, call: string, step: VerifyStep)
    requires Inv(c, s) && call in s.verifies && Orderly(s, Verifying(call, step))
    ensures Inv(c, NextVerify(c, s, call, step))
  {
    match step
    case CountWrong =>
      if s.verifies[call].stage.Mismatched? && s.verifies[call].stage.record.OtpRecord? {
        CountingKeepsInv(c, s, call);
      }
    case MarkVerified =>
      if s.verifies[call].stage.Matched? {
        MarkingKeepsInv(c, s, call);
      }
    case ClearAfterVerify => ClearingKeepsInv(c, s, call);
    case ReleaseVerifyLock => ReleasingKeepsInv(c, s, call);
    case _ => MovingKeepsInv(c, s, call, step);
  }

  lemma StartSendKeepsInv(c: Config, s: State, call: string)
    requires Inv(c, s)
    ensures Inv(c, StartSend(c, s, call))
  {
    LocksDoNotMatter(c, s, StartSend(c, s, call));
  }

  lemma StartVerifyKeepsInv(c: Config, s: State, call: string, guess: string)
    requires Inv(c, s)
    ensures Inv(c, StartVerify(s, call, guess))
  {
    LocksDoNotMatter(c, s, StartVerify(s, call, guess));
  }

  lemma SendingKeepsInv(c: Config, s: State, call: string, send: SendStep)
    requires Inv(c, s) && Orderly(s, Sending(call, send))
    ensures Inv(c, Next(c, s, Sending(call, send)))
  {
    StartSendKeepsInv(c, s, call);
    if call in s.sends {
      SendKeepsInv(c, s, call, send);
    }
  }

  lemma VerifyingKeepsInv(c: Config, s: State, call: string, verify: VerifyStep)
    requires Inv(c, s) && Orderly(s, Verifying(call, verify))
    ensures Inv(c, Next(c, s, Verifying(call, verify)))
  {
    StartVerifyKeepsInv(c, s, call, if verify.AcquireVerifyLock? then verify.guess else "");
    if call in s.verifies {
      VerifyKeepsInv(c, s, call, verify);
    }
  }

  lemma NextKeepsInv(c: Config, s: State, step: Step)
    requires Inv(c, s) && Orderly(s, step)
    ensures Inv(c, Next(c, s, step))
  {
    match step
    case Tick(ticks) => TickKeepsInv(c, s, ticks);
    case Sending(call, send) => SendingKeepsInv(c, s, call, send);
    case Verifying(call, verify) => VerifyingKeepsInv(c, s, call, verify);
  }

  lemma {:induction false} RunKeepsInv(c: Config, s: State, steps: seq<Step>)
    requires Inv(c, s) && AllOrderly(c, s, steps)
    ensures Inv(c, Run(c, s, steps))
    decreases |steps|
  {
    if steps != [] {
      NextKeepsInv(c, s, steps[0]);
      RunKeepsInv(c, Next(c, s, steps[0]), steps[1..]);
    }
  }

  // ---------------------------------------------------------------- the bound

  lemma StartIsOk(c: Config)
    ensures Inv(c, START)
  {
  }

  lemma OrderlyRunKeepsInv(c: Config, steps: seq<Step>)
    requires AllOrderly(c, START, steps)
    ensures Inv(c, Run(c, START, steps))
  {
    StartIsOk(c);
    RunKeepsInv(c, START, steps);
  }

  predicate Expired(s: State, id: string) {
    id in s.issued && s.issued[id].expiresAt <= s.now
  }

  function LatestCall(s: State): set<string> {
    if s.latest.Some? then {s.latest.value} else {}
  }

  /**
   * The hashed wrong guesses that were not counted and, in an orderly run, never will be: their
   * call failed, or stopped there until another call took the lock.
   */
  function Lost(s: State, id: string): nat {
    s.dropped[id] + |Waiting(s, id) - LatestCall(s)|
  }

  /**
   * At most the maximum of wrong guesses is counted against the OTP by calls that read the
   * attempts before it expired, and at most one by a call that read them after. Not counting
   * the lost ones, at most one more than the maximum is hashed, and only once the OTP has expired.
   */
  predicate Bounded(c: Config, s: State, id: string) {
    && s.misses[id] <= c.maxAttempts && s.late[id] <= 1 && (s.late[id] == 1 ==> Expired(s, id))
    && s.hashed[id] <= c.maxAttempts + 1 + Lost(s, id)
    && (s.hashed[id] > c.maxAttempts + Lost(s, id) ==> Expired(s, id))
  }

  /** The guess of the latest call, if hashed and not counted, is neither counted nor lost. */
  lemma HashedIsCountedOrLost(s: State, id: string)
    requires Accounted(s, id)
    ensures s.hashed[id] == s.misses[id] + s.late[id] + Lost(s, id) +
                            if s.latest.Some? && s.latest.value in Waiting(s, id) then 1 else 0
  {
    if s.latest.Some? {
      CardinalityWithout(Waiting(s, id), s.latest.value);
    } else {
      assert Waiting(s, id) - {} == Waiting(s, id);
    }
  }

  lemma InvBounds(c: Config, s: State, id: string)
    requires Inv(c, s) && Accounted(s, id)
    ensures Bounded(c, s, id)
  {
    HashedIsCountedOrLost(s, id);
    assert TallyOk(c, s, id);
  }

  /** In every orderly run the guesses against every OTP are bounded. */
  lemma GuessesAreBounded(c: Config, steps: seq<Step>, id: string)
    requires AllOrderly(c, START, steps)
    ensures Bounded(c, Run(c, START, steps), id)
  {
    OrderlyRunKeepsInv(c, steps);
    HashedGuessesAreAccounted(c, steps, id);
    InvBounds(c, Run(c, START, steps), id);
  }

  /** The step compares a wrong guess with the hash of the OTP. */
  predicate Hashes(c: Config, s: State, step: Step, id: string) {
    step.Verifying? && step.verify.Compare? && step.call in s.verifies && HashedBy(c, s, step.call)[id] > 0
  }

  lemma OnlyComparingHashes(c: Config, s: State, call: string, step: VerifyStep, id: string)
    requires call in s.verifies
    ensures NextVerify(c, s, call, step).hashed[id] ==
            if Hashes(c, s, Verifying(call, step), id) then s.hashed[id] + 1 else s.hashed[id]
  {
  }

  lemma NextHashesIff(c: Config, s: State, step: Step, id: string)
    ensures Next(c, s, step).hashed[id] == if Hashes(c, s, step, id) then s.hashed[id] + 1 else s.hashed[id]
  {
    if step.Sending? && step.call in s.sends {
      SendKeepsTallies(s, step.call, step.send);
    }
    if step.Verifying? && step.call in s.verifies {
      OnlyComparingHashes(c, s, step.call, step.verify, id);
    }
  }

  lemma HashingBeforeExpiry(c: Config, s: State, step: Step, id: string)
    requires Inv(c, s) && Accounted(s, id) && Orderly(s, step)
    requires Next(c, s, step).hashed[id] != s.hashed[id] && !Expired(s, id)
    ensures Next(c, s, step).hashed[id] == s.hashed[id] + 1 && s.misses[id] < c.maxAttempts
    ensures s.hashed[id] == s.misses[id] + Lost(s, id)
    ensures Next(c, s, step).hashed[id] > c.maxAttempts <==> Lost(s, id) >= c.maxAttempts - s.misses[id]
  {
    NextHashesIff(c, s, step, id);
    HashedIsCountedOrLost(s, id);
    var stage := s.verifies[step.call].stage;
    assert stage.MayGuess? && s.latest == Some(step.call) && OtpOf(stage) == id;
  }

  /**
   * A wrong guess that is hashed before the OTP expires: fewer than the maximum were counted
   * before, and all others that were hashed are lost. So it is one beyond the maximum exactly if
   * those lost make up for the counts still left.
   */
  lemma HashedBeforeExpiry(c: Config, steps: seq<Step>, s: State, step: Step, id: string)
    requires AllOrderly(c, START, steps) && s == Run(c, START, steps) && Orderly(s, step)
    requires Next(c, s, step).hashed[id] != s.hashed[id] && !Expired(s, id)
    ensures Next(c, s, step).hashed[id] == s.hashed[id] + 1 && s.misses[id] < c.maxAttempts
    ensures s.hashed[id] == s.misses[id] + Lost(s, id)
    ensures Next(c, s, step).hashed[id] > c.maxAttempts <==> Lost(s, id) >= c.maxAttempts - s.misses[id]
  {
    OrderlyRunKeepsInv(c, steps);
    HashedGuessesAreAccounted(c, steps, id);
    HashingBeforeExpiry(c, s, step, id);
  }

  /** The step is a verification marking a pending row, before it expires. */
  predicate Wins(s: State, step: Step, id: string) {
    && step.Verifying? && step.verify.MarkVerified? && step.call in s.verifies
    && s.verifies[step.call].stage.Matched? && s.verifies[step.call].stage.id == id
    && id in s.rows && !s.rows[id].verified && s.now < s.rows[id].expiresAt
  }

  lemma SendNeverWins(s: State, call: string, step: SendStep)
    requires call in s.sends
    ensures NextSend(s, call, step).wins == s.wins
  {
  }

  lemma OnlyMarkingWins(c: Config, s: State, call: string, step: VerifyStep)
    requires call in s.verifies && !step.MarkVerified?
    ensures NextVerify(c, s, call, step).wins == s.wins
  {
  }

  lemma NextWinsIff(c: Config, s: State, step: Step, id: string)
    ensures Next(c, s, step).wins[id] == if Wins(s, step, id) then s.wins[id] + 1 else s.wins[id]
  {
    if step.Sending? && step.call in s.sends {
      SendNeverWins(s, step.call, step.send);
    }
    if step.Verifying? && step.call in s.verifies && !step.verify.MarkVerified? {
      OnlyMarkingWins(c, s, step.call, step.verify);
    }
  }

  lemma WinningLeavesAGuess(c: Config, s: State, step: Step, id: string)
    requires Inv(c, s) && Orderly(s, step) && Next(c, s, step).wins[id] != s.wins[id]
    ensures Next(c, s, step).wins[id] == s.wins[id] + 1 && s.misses[id] < c.maxAttempts && s.late[id] == 0
  {
    NextWinsIff(c, s, step, id);
    assert RowOk(s, id);
  }

  /** Every success leaves a guess unspent: it comes before the maximum and before any late guess. */
  lemma WinsBelowMaximum(c: Config, steps: seq<Step>, s: State, step: Step, id: string)
    requires AllOrderly(c, START, steps) && s == Run(c, START, steps) && Orderly(s, step)
    requires Next(c, s, step).wins[id] != s.wins[id]
    ensures Next(c, s, step).wins[id] == s.wins[id] + 1 && s.misses[id] < c.maxAttempts && s.late[id] == 0
  {
    OrderlyRunKeepsInv(c, steps);
    WinningLeavesAGuess(c, s, step, id);
  }

  lemma SendKeepsMisses(s: State, call: string, step: SendStep)
    requires call in s.sends
    ensures NextSend(s, call, step).misses == s.misses
  {
  }

  lemma VerifyMissesGrow(c: Config, s: State, call: string, step: VerifyStep, id: string)
    requires call in s.verifies
    ensures NextVerify(c, s, call, step).misses[id] >= s.misses[id]
  {
  }

  lemma MissesGrow(c: Config, s: State, step: Step, id: string)
    ensures Next(c, s, step).misses[id] >= s.misses[id]
  {
    if step.Sending? && step.call in s.sends {
      SendKeepsMisses(s, step.call, step.send);
    }
    if step.Verifying? && step.call in s.verifies {
      VerifyMissesGrow(c, s, step.call, step.verify, id);
    }
  }

  lemma {:induction false} ExhaustedStaysLost(c: Config, s: State, steps: seq<Step>, id: string)
    requires Inv(c, s) && AllOrderly(c, s, steps) && s.misses[id] >= c.maxAttempts
    ensures Run(c, s, steps).wins[id] == s.wins[id]
    decreases |steps|
  {
    if steps != [] {
      NextKeepsInv(c, s, steps[0]);
      MissesGrow(c, s, steps[0], id);
      assert Next(c, s, steps[0]).wins[id] == s.wins[id] by {
        if Next(c, s, steps[0]).wins[id] != s.wins[id] {
          WinningLeavesAGuess(c, s, steps[0], id);
        }
      }
      ExhaustedStaysLost(c, Next(c, s, steps[0]), steps[1..], id);
    }
  }

  /**
   * Once the maximum of wrong guesses has been counted against an OTP, it is never verified
   * again in an orderly run, whatever is guessed.
   */
  lemma ExhaustedNeverSucceeds(c: Config, before: seq<Step>, s: State, after: seq<Step>, id: string)
    requires AllOrderly(c, START, before) && s == Run(c, START, before) && AllOrderly(c, s, after)
    requires s.misses[id] >= c.maxAttempts
    ensures Run(c, s, after).wins[id] == s.wins[id]
  {
    OrderlyRunKeepsInv(c, before);
    ExhaustedStaysLost(c, s, after, id);
  }

  // ---------------------------------------------------------------- which runs are orderly

  /** Whoever holds an unexpired lock took it last. */
  ghost predicate HolderIsLatest(s: State) {
    forall v :: Holds(s, v) ==> s.latest == Some(v)
  }

  lemma AcquiringKeepsHolder(c: Config, s: State, call: string, guess: string)
    requires LocksOwned(c, s) && HolderIsLatest(s)
    ensures HolderIsLatest(StartVerify(s, call, guess))
  {
    var t := StartVerify(s, call, guess);
    forall v | Holds(t, v) ensures t.latest == Some(v) {
      assert v != call ==> Holds(s, v);
    }
  }

  lemma FramedKeepsHolder(s: State, t: State)
    requires HolderIsLatest(s) && t.now >= s.now && t.latest == s.latest && t.verifies.Keys == s.verifies.Keys
    requires forall v :: v in s.verifies ==>
               t.verifies[v].since == s.verifies[v].since &&
                   (s.verifies[v].stage.Released? ==> t.verifies[v].stage.Released?)
    ensures HolderIsLatest(t)
  {
    forall v | Holds(t, v) ensures t.latest == Some(v) {
      assert Holds(s, v);
    }
  }

  lemma NextKeepsHolder(c: Config, s: State, step: Step)
    requires LocksOwned(c, s) && HolderIsLatest(s)
    ensures HolderIsLatest(Next(c, s, step))
  {
    match step
    case Tick(_) => FramedKeepsHolder(s, Next(c, s, step));
    case Sending(call, send) =>
      FramedKeepsHolder(s, StartSend(c, s, call));
      if call in s.sends {
        SendIsFramed(s, call, send);
        FramedKeepsHolder(s, NextSend(s, call, send));
      }
    case Verifying(call, verify) =>
      AcquiringKeepsHolder(c, s, call, if verify.AcquireVerifyLock? then verify.guess else "");
      if call in s.verifies {
        VerifyIsFramed(c, s, call, verify);
        FramedKeepsHolder(s, NextVerify(c, s, call, verify));
      }
  }

  /** A verification works only within its lock, and no send cuts in on it or on another send. */
  predicate WithinLock(s: State, step: Step) {
    && (step.Verifying? && step.call in s.verifies && Working(s.verifies[step.call].stage) ==>
          Holds(s, step.call) && InSlot(s, OtpOf(s.verifies[step.call].stage)))
    && (step.Sending? ==> Orderly(s, step))
  }

  predicate AllWithinLock(c: Config, s: State, steps: seq<Step>)
    decreases |steps|
  {
    steps == [] || (WithinLock(s, steps[0]) && AllWithinLock(c, Next(c, s, steps[0]), steps[1..]))
  }

  /** If every verification finishes within its 30 seconds, and no send cuts in, the run is orderly. */
  lemma {:induction false} WithinLockIsOrderly(c: Config, s: State, steps: seq<Step>)
    requires LocksOwned(c, s) && SendsApart(c, s) && HolderIsLatest(s) && AllWithinLock(c, s, steps)
    ensures AllOrderly(c, s, steps)
    decreases |steps|
  {
    if steps != [] {
      NextKeepsHolder(c, s, steps[0]);
      NextKeepsLocks(c, s, steps[0]);
      WithinLockIsOrderly(c, Next(c, s, steps[0]), steps[1..]);
    }
  }

  /** The step belongs to the call that acted last, or to a new one. */
  predicate Continues(s: State, active: Option<string>, step: Step) {
    step.Tick? || active == Some(step.call) || (step.call !in s.sends && step.call !in s.verifies)
  }

  function ActiveAfter(active: Option<string>, step: Step): Option<string> {
    if step.Tick? then active else Some(step.call)
  }

  /** Calls do not overlap: once another call acts, a call never acts again. */
  predicate Sequential(c: Config, s: State, active: Option<string>, steps: seq<Step>)
    decreases |steps|
  {
    steps == [] ||
    (Continues(s, active, steps[0]) && Sequential(c, Next(c, s, steps[0]), ActiveAfter(active, steps[0]), steps[1..]))
  }

  /** What the only acting call can rely on. */
  ghost predicate Alone(s: State, active: Option<string>) {
    active.Some? ==>
      && (active.value in s.verifies ==>
            var stage := s.verifies[active.value].stage;
            s.latest == active && (Working(stage) ==> InSlot(s, OtpOf(stage))))
      && (active.value in s.sends && (s.sends[active.value].stage.Cleared? || s.sends[active.value].stage.Created?) ==>
            AttemptsSlot !in s.store)
  }

  lemma StartingKeepsAlone(c: Config, s: State, active: Option<string>, step: Step)
    requires Alone(s, active) && !step.Tick? && step.call !in s.sends && step.call !in s.verifies
    ensures Alone(Next(c, s, step), Some(step.call))
  {
  }

  lemma SendKeepsAlone(s: State, call: string, step: SendStep)
    requires Alone(s, Some(call)) && call in s.sends && call !in s.verifies
    ensures Alone(NextSend(s, call, step), Some(call))
  {
  }

  lemma MoveKeepsAlone(s: State, t: State, call: string, stage: VerifyStage)
    requires Alone(s, Some(call)) && call in s.verifies && call !in s.sends
    requires t.latest == s.latest && t.sends == s.sends &&
             t.verifies == s.verifies[call := s.verifies[call].(stage := stage)]
    requires Working(stage) ==> InSlot(t, OtpOf(stage))
    ensures Alone(t, Some(call))
  {
  }

  /** What a call reads from the cache is in it. */
  lemma LookingIsInSlot(c: Config, s: State, call: string, step: VerifyStep)
    requires Alone(s, Some(call)) && call in s.verifies
    ensures var stage := StageAfter(c, s, call, step); Working(stage) ==> InSlot(s, OtpOf(stage))
  {
  }

  lemma VerifyKeepsAlone(c: Config, s: State, call: string, step: VerifyStep)
    requires Alone(s, Some(call)) && call in s.verifies && call !in s.sends
    ensures Alone(NextVerify(c, s, call, step), Some(call))
  {
    var t, stage := NextVerify(c, s, call, step), s.verifies[call].stage;
    match step
    case CountWrong =>
      if stage.Mismatched? && stage.record.OtpRecord? {
        MoveKeepsAlone(s, t, call, Closing);
      }
    case MarkVerified =>
      if stage.Matched? {
        MoveKeepsAlone(s, t, call, Closing);
      }
    case ClearAfterVerify =>
    case ReleaseVerifyLock =>
      if stage.Closing? {
        MoveKeepsAlone(s, t, call, Released);
      }
    case _ =>
      LookingIsInSlot(c, s, call, step);
      MoveKeepsAlone(s, t, call, StageAfter(c, s, call, step));
  }

  lemma NextKeepsAlone(c: Config, s: State, active: Option<string>, step: Step)
    requires Alone(s, active) && Continues(s, active, step) && s.sends.Keys !! s.verifies.Keys
    ensures Alone(Next(c, s, step), ActiveAfter(active, step))
    ensures Next(c, s, step).sends.Keys !! Next(c, s, step).verifies.Keys
  {
    if !step.Tick? {
      if step.call !in s.sends && step.call !in s.verifies {
        StartingKeepsAlone(c, s, active, step);
      } else if step.Sending? && step.call in s.sends {
        SendKeepsAlone(s, step.call, step.send);
        SendIsFramed(s, step.call, step.send);
      } else if step.Verifying? && step.call in s.verifies {
        VerifyKeepsAlone(c, s, step.call, step.verify);
        VerifyIsFramed(c, s, step.call, step.verify);
      }
    }
  }

  /** Runs in which no two calls overlap are orderly, however long each call takes. */
  lemma {:induction false} SequentialIsOrderly(c: Config, s: State, active: Option<string>, steps: seq<Step>)
    requires Alone(s, active) && s.sends.Keys !! s.verifies.Keys && Sequential(c, s, active, steps)
    ensures AllOrderly(c, s, steps)
    decreases |steps|
  {
    if steps != [] {
      NextKeepsAlone(c, s, active, steps[0]);
      SequentialIsOrderly(c, Next(c, s, steps[0]), ActiveAfter(active, steps[0]), steps[1..]);
    }
  }

  /** The bound for calls that do not overlap. */
  lemma SequentialGuessesAreBounded(c: Config, steps: seq<Step>, id: string)
    requires Sequential(c, START, None, steps)
    ensures Bounded(c, Run(c, START, steps), id)
  {
    SequentialIsOrderly(c, START, None, steps);
    GuessesAreBounded(c, steps, id);
  }

  /** The bound for overlapping calls that stay within their locks. */
  lemma GuessesWithinLocksAreBounded(c: Config, steps: seq<Step>, id: string)
    requires AllWithinLock(c, START, steps)
    ensures Bounded(c, Run(c, START, steps), id)
  {
    WithinLockIsOrderly(c, START, steps);
    GuessesAreBounded(c, steps, id);
  }
}
