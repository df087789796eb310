/**
 * Overlapping sendOtp and verifyOtp calls for one OTP key, as a state machine over their
 * single steps. Every Redis command and every database statement is one step; between steps
 * time passes, locks expire and other calls run. Any step may fail instead of happening, so
 * the machine only says what a call does when it does something. Times are milliseconds.
 */
module OtpProtocol {
  import opened Prelude
  import opened Redis
  import CacheServices
  import opened OtpServices

  /** The four Redis keys of this OTP key. */
  datatype Slot = OtpSlot | AttemptsSlot | CooldownSlot | VerifyLockSlot

  datatype Stored = Stored(otpHash: Digest, expiresAt: int, verified: bool)

  datatype SendStage =
    | Acquired
    | Purged
    | Cleared
    | Created(id: string)
    | CacheDone(id: string)
    | Sent
    | Undoing(created: Option<string>)

  datatype VerifyStage =
    | Locked
    | HasRecord(record: Value)
    | MayGuess(record: Value, onTime: bool)
    | Matched(id: string, onTime: bool)
    | Mismatched(record: Value, onTime: bool)
    | Closing
    | Released

  datatype Send = Send(stage: SendStage, since: int)
  datatype Verify = Verify(stage: VerifyStage, guess: string, since: int)

  /** What the send that issued an OTP knows of it, whether or not its row is still there. */
  datatype Origin = Origin(otpHash: Digest, expiresAt: int, sender: string)

  /**
   * Calls are named by the random token each of them draws; `latest` took the verification lock
   * last. Per OTP, `wins` counts successful verifications, and `hashed` the wrong guesses that
   * were compared with its hash. Of these, `misses` and `late` were counted in the cache, by calls
   * that read the attempts before the OTP expired (`onTime`) and after; `dropped` were not, since
   * their call failed first. `issued` and `cached` are the OTPs ever stored and ever put into the
   * cache.
   */
  datatype State = State(
    now: int,
    rows: map<string, Stored>,
    issued: map<string, Origin>,
    cached: set<string>,
    store: Store<Slot>,
    sends: map<string, Send>,
    verifies: map<string, Verify>,
    latest: Option<string>,
    wins: multiset<string>,
    hashed: multiset<string>,
    misses: multiset<string>,
    late: multiset<string>,
    dropped: multiset<string>)

  datatype SendStep =
    | AcquireCooldown
    | DeleteUnverified
    | ClearForSend
    | CreateRow(id: string, secret: string, lifetime: CacheServices.Positive)
    | CacheRow
    | Publish
    | SendFails
    | UndoState
    | UndoCooldown
    | UndoRow

  datatype VerifyStep =
    | AcquireVerifyLock(guess: string)
    | ReadRecord
    | ReadAttempts
    | Compare
    | CountWrong
    | MarkVerified
    | VerifyFails
    | ClearAfterVerify
    | ReleaseVerifyLock

  datatype Step =
    | Tick(ticks: nat)
    | Sending(call: string, send: SendStep)
    | Verifying(call: string, verify: VerifyStep)

  const VERIFY_LOCK: int := 30000

  function SendAt(s: State, call: string, stage: SendStage): State
    requires call in s.sends
  {
    s.(sends := s.sends[call := s.sends[call].(stage := stage)])
  }

  function VerifyAt(s: State, call: string, stage: VerifyStage): State
    requires call in s.verifies
  {
    s.(verifies := s.verifies[call := s.verifies[call].(stage := stage)])
  }

  function WithoutOtp(s: State): State {
    s.(store := s.store - {OtpSlot, AttemptsSlot})
  }

  function StartSend(c: Config, s: State, call: string): State {
    if call in s.sends || call in s.verifies || Live(s.store, s.now, CooldownSlot) then s
    else s.(store := SetNx(s.store, s.now, CooldownSlot, Text(call), c.cooldownSeconds * 1000),
            sends := s.sends[call := Send(Acquired, s.now)])
  }

  function NextSend(s: State, call: string, step: SendStep): State
    requires call in s.sends
  {
    var stage := s.sends[call].stage;
    match step
    case AcquireCooldown => s
    case DeleteUnverified =>
      if !stage.Acquired? then s
      else SendAt(s, call, Purged).(rows := map id | id in s.rows && s.rows[id].verified :: s.rows[id])
    case ClearForSend => if !stage.Purged? then s else SendAt(WithoutOtp(s), call, Cleared)
    case CreateRow(id, secret, lifetime) =>
      if !stage.Cleared? || id in s.issued then s
      else SendAt(s, call, Created(id)).(rows := s.rows[id := Stored(Sha256(secret), s.now + lifetime, false)],
                                         issued := s.issued[id := Origin(Sha256(secret), s.now + lifetime, call)])
    case CacheRow =>
      if !stage.Created? || stage.id !in s.issued then s
      else
        var otp := s.issued[stage.id];
        SendAt(s, call, CacheDone(stage.id)).(
          cached := s.cached + {stage.id},
          store := s.store[OtpSlot := Entry(OtpRecord(stage.id, otp.otpHash, otp.expiresAt),
                                            s.now + 1000 * RemainingTtl(otp.expiresAt, s.now))])
    case Publish => if !stage.CacheDone? then s else SendAt(s, call, SendStage.Sent)
    case SendFails =>
      if stage.Sent? || stage.Undoing? then s
      else SendAt(s, call, Undoing(if stage.Created? || stage.CacheDone? then Some(stage.id) else None))
    case UndoState => if !stage.Undoing? then s else WithoutOtp(s)
    case UndoCooldown =>
      if !stage.Undoing? then s else s.(store := DelIfMatch(s.store, s.now, CooldownSlot, Text(call)))
    case UndoRow =>
      if !stage.Undoing? || stage.created.None? then s else s.(rows := s.rows - {stage.created.value})
  }

  function StartVerify(s: State, call: string, guess: string): State {
    if call in s.sends || call in s.verifies || Live(s.store, s.now, VerifyLockSlot) then s
    else s.(store := SetNx(s.store, s.now, VerifyLockSlot, Text(call), VERIFY_LOCK),
            verifies := s.verifies[call := Verify(Locked, guess, s.now)], latest := Some(call))
  }

  /** The stage after a step that writes nothing; a step that does not fit the stage changes nothing. */
  function StageAfter(c: Config, s: State, call: string, step: VerifyStep): VerifyStage
    requires call in s.verifies
  {
    var stage := s.verifies[call].stage;
    match step
    case ReadRecord =>
      var record := Get(s.store, s.now, OtpSlot);
      if !stage.Locked? then stage
      else if record.Some? && record.value.OtpRecord? && s.now < record.value.expiresAt then HasRecord(record.value)
      else Closing
    case ReadAttempts =>
      if !stage.HasRecord? then stage
      else if Count(s.store, s.now, AttemptsSlot) >= c.maxAttempts then Closing
      else MayGuess(stage.record, stage.record.OtpRecord? && s.now < stage.record.expiresAt)
    case Compare =>
      if !stage.MayGuess? || !stage.record.OtpRecord? then stage
      else if stage.record.otpHash == Sha256(s.verifies[call].guess) then Matched(stage.record.otpId, stage.onTime)
      else Mismatched(stage.record, stage.onTime)
    case VerifyFails => if stage.Released? then stage else Closing
    case _ => stage
  }

  /** The call has found its guess to be wrong and has yet to count it. */
  predicate Uncounted(stage: VerifyStage, id: string) {
    stage.Mismatched? && stage.record.OtpRecord? && stage.record.otpId == id
  }

  /** The OTP with which the call compares a wrong guess, if that is what it does next. */
  function HashedBy(c: Config, s: State, call: string): multiset<string>
    requires call in s.verifies
  {
    var before, after := s.verifies[call].stage, StageAfter(c, s, call, Compare);
    if before.MayGuess? && after.Mismatched? && after.record.OtpRecord? then multiset{after.record.otpId}
    else multiset{}
  }

  /** The OTP of the wrong guess that is never counted if the call fails now. */
  function DroppedAt(stage: VerifyStage): multiset<string> {
    if stage.Mismatched? && stage.record.OtpRecord? then multiset{stage.record.otpId} else multiset{}
  }

  function CountedWrong(s: State, call: string): State
    requires call in s.verifies && s.verifies[call].stage.Mismatched? && s.verifies[call].stage.record.OtpRecord?
  {
    var stage := s.verifies[call].stage;
    VerifyAt(s, call, Closing).(
      store := Incr(s.store, s.now, AttemptsSlot, 1000 * RemainingTtl(stage.record.expiresAt, s.now)),
      misses := if stage.onTime then s.misses + multiset{stage.record.otpId} else s.misses,
      late := if stage.onTime then s.late else s.late + multiset{stage.record.otpId})
  }

  function Marked(s: State, call: string): State
    requires call in s.verifies && s.verifies[call].stage.Matched?
  {
    var id := s.verifies[call].stage.id;
    if id in s.rows && !s.rows[id].verified && s.now < s.rows[id].expiresAt
    then VerifyAt(s, call, Closing).(rows := s.rows[id := s.rows[id].(verified := true)], wins := s.wins + multiset{id})
    else VerifyAt(s, call, Closing)
  }

  function NextVerify(c: Config, s: State, call: string, step: VerifyStep): State
    requires call in s.verifies
  {
    var stage := s.verifies[call].stage;
    match step
    case CountWrong => if stage.Mismatched? && stage.record.OtpRecord? then CountedWrong(s, call) else s
    case MarkVerified => if stage.Matched? then Marked(s, call) else s
    case ClearAfterVerify => if stage.Closing? then WithoutOtp(s) else s
    case ReleaseVerifyLock =>
      if !stage.Closing? then s
      else VerifyAt(s, call, Released).(store := DelIfMatch(s.store, s.now, VerifyLockSlot, Text(call)))
    case Compare => VerifyAt(s, call, StageAfter(c, s, call, step)).(hashed := s.hashed + HashedBy(c, s, call))
    case VerifyFails => VerifyAt(s, call, StageAfter(c, s, call, step)).(dropped := s.dropped + DroppedAt(stage))
    case _ => VerifyAt(s, call, StageAfter(c, s, call, step))
  }

  function Next(c: Config, s: State, step: Step): State {
    match step
    case Tick(ticks) => s.(now := s.now + ticks)
    case Sending(call, send) =>
      if send.AcquireCooldown? then StartSend(c, s, call)
      else if call in s.sends then NextSend(s, call, send) else s
    case Verifying(call, verify) =>
      if verify.AcquireVerifyLock? then StartVerify(s, call, verify.guess)
      else if call in s.verifies then NextVerify(c, s, call, verify) else s
  }

  function Run(c: Config, s: State, steps: seq<Step>): State
    decreases |steps|
  {
    if steps == [] then s else Run(c, Next(c, s, steps[0]), steps[1..])
  }

  const START :=
    State(0, map[], map[], {}, map[], map[], map[], None, multiset{}, multiset{}, multiset{}, multiset{}, multiset{})

  // ---------------------------------------------------------------- a call that nothing disturbs

  lemma RunCons(c: Config, s: State, step: Step, rest: seq<Step>)
    ensures Run(c, s, [step] + rest) == Run(c, Next(c, s, step), rest)
  {
    assert ([step] + rest)[1..] == rest;
  }

  function GuessSteps(call: string, guess: string): seq<Step> {
    [Verifying(call, AcquireVerifyLock(guess))] + ([Verifying(call, ReadRecord)] + ([Verifying(call, ReadAttempts)] +
    ([Verifying(call, Compare)] + ([Verifying(call, MarkVerified)] + []))))
  }

  /** A live record below the maximum of attempts, a free lock, and a call that is new. */
  predicate ReadyToGuess(c: Config, s: State, call: string) {
    && call !in s.sends && call !in s.verifies && !Live(s.store, s.now, VerifyLockSlot)
    && Live(s.store, s.now, OtpSlot) && s.store[OtpSlot].value.OtpRecord? && s.now < s.store[OtpSlot].value.expiresAt
    && Count(s.store, s.now, AttemptsSlot) < c.maxAttempts
  }

  /** An undisturbed guess has taken the lock. */
  function LockTaken(s: State, call: string, guess: string): State {
    s.(store := s.store[VerifyLockSlot := Entry(Text(call), s.now + VERIFY_LOCK)],
       verifies := s.verifies[call := Verify(Locked, guess, s.now)], latest := Some(call))
  }

  /** And has read the record. */
  function RecordRead(s: State, call: string, guess: string): State
    requires OtpSlot in s.store
  {
    VerifyAt(LockTaken(s, call, guess), call, HasRecord(s.store[OtpSlot].value))
  }

  lemma GuessReadsRecord(c: Config, s: State, call: string, guess: string)
    requires ReadyToGuess(c, s, call)
    ensures Next(c, s, Verifying(call, AcquireVerifyLock(guess))) == LockTaken(s, call, guess)
    ensures Next(c, LockTaken(s, call, guess), Verifying(call, ReadRecord)) == RecordRead(s, call, guess)
  {
  }

  lemma GuessReadsAttempts(c: Config, s: State, call: string, guess: string)
    requires ReadyToGuess(c, s, call)
    ensures var t := Next(c, RecordRead(s, call, guess), Verifying(call, ReadAttempts));
            && t.verifies == s.verifies[call := Verify(MayGuess(s.store[OtpSlot].value, true), guess, s.now)]
            && t == LockTaken(s, call, guess).(verifies := t.verifies)
  {
  }

  /** What an undisturbed guess has become when it compares. */
  lemma GuessReachesCompare(c: Config, s: State, call: string, guess: string, rest: seq<Step>) returns (t: State)
    requires ReadyToGuess(c, s, call)
    ensures t == s.(store := s.store[VerifyLockSlot := Entry(Text(call), s.now + VERIFY_LOCK)],
                    verifies := s.verifies[call := Verify(MayGuess(s.store[OtpSlot].value, true), guess, s.now)],
                    latest := Some(call))
    ensures Run(c, s, [Verifying(call, AcquireVerifyLock(guess))] + ([Verifying(call, ReadRecord)] +
                      ([Verifying(call, ReadAttempts)] + rest))) == Run(c, t, rest)
  {
    GuessReadsRecord(c, s, call, guess);
    GuessReadsAttempts(c, s, call, guess);
    var locked, read := LockTaken(s, call, guess), RecordRead(s, call, guess);
    RunCons(c, s, Verifying(call, AcquireVerifyLock(guess)),
            [Verifying(call, ReadRecord)] + ([Verifying(call, ReadAttempts)] + rest));
    RunCons(c, locked, Verifying(call, ReadRecord), [Verifying(call, ReadAttempts)] + rest);
    RunCons(c, read, Verifying(call, ReadAttempts), rest);
    t := Next(c, read, Verifying(call, ReadAttempts));
  }

  /** The guess is compared and, if it is right, marked: it wins exactly if the row is still pending. */
  lemma GuessIsMarked(c: Config, t: State, call: string, guess: string, record: Value, steps: seq<Step>)
    requires record.OtpRecord? && call in t.verifies
    requires t.verifies[call].stage == MayGuess(record, true) && t.verifies[call].guess == guess
    requires steps == [Verifying(call, Compare)] + ([Verifying(call, MarkVerified)] + [])
    ensures Run(c, t, steps).wins ==
            if record.otpHash == Sha256(guess) && record.otpId in t.rows && !t.rows[record.otpId].verified &&
               t.now < t.rows[record.otpId].expiresAt
            then t.wins + multiset{record.otpId} else t.wins
  {
    RunCons(c, t, Verifying(call, Compare), [Verifying(call, MarkVerified)] + []);
    RunCons(c, Next(c, t, Verifying(call, Compare)), Verifying(call, MarkVerified), []);
  }

  /** Undisturbed, the right guess wins exactly if the row is pending and not expired, and a wrong one never. */
  lemma UndisturbedGuess(c: Config, s: State, call: string, guess: string)
    requires ReadyToGuess(c, s, call)
    ensures var record := s.store[OtpSlot].value;
            Run(c, s, GuessSteps(call, guess)).wins ==
            if record.otpHash == Sha256(guess) && record.otpId in s.rows && !s.rows[record.otpId].verified &&
               s.now < s.rows[record.otpId].expiresAt
            then s.wins + multiset{record.otpId} else s.wins
  {
    var last := [Verifying(call, Compare)] + ([Verifying(call, MarkVerified)] + []);
    var t := GuessReachesCompare(c, s, call, guess, last);
    GuessIsMarked(c, t, call, guess, s.store[OtpSlot].value, last);
  }

  // ---------------------------------------------------------------- one success per OTP

  /** A row that was never verified has no success, and no id has two. */
  ghost predicate OneWin(s: State) {
    && s.rows.Keys <= s.issued.Keys
    && (forall id :: s.wins[id] <= 1)
    && (forall id :: s.wins[id] > 0 ==> id in s.issued && (id in s.rows ==> s.rows[id].verified))
  }

  lemma SendKeepsOneWin(s: State, call: string, step: SendStep)
    requires OneWin(s) && call in s.sends
    ensures OneWin(NextSend(s, call, step))
  {
  }

  lemma VerifyKeepsOneWin(c: Config, s: State, call: string, step: VerifyStep)
    requires OneWin(s) && call in s.verifies
    ensures OneWin(NextVerify(c, s, call, step))
  {
  }

  lemma NextKeepsOneWin(c: Config, s: State, step: Step)
    requires OneWin(s)
    ensures OneWin(Next(c, s, step))
  {
    if step.Sending? && step.call in s.sends {
      SendKeepsOneWin(s, step.call, step.send);
    }
    if step.Verifying? && step.call in s.verifies {
      VerifyKeepsOneWin(c, s, step.call, step.verify);
    }
  }

  lemma {:induction false} RunKeepsOneWin(c: Config, s: State, steps: seq<Step>)
    requires OneWin(s)
    ensures OneWin(Run(c, s, steps))
    decreases |steps|
  {
    if steps != [] {
      NextKeepsOneWin(c, s, steps[0]);
      RunKeepsOneWin(c, Next(c, s, steps[0]), steps[1..]);
    }
  }

  /** However sends and verifications overlap, each OTP is verified successfully at most once. */
  lemma AtMostOneSuccess(c: Config, steps: seq<Step>, id: string)
    ensures Run(c, START, steps).wins[id] <= 1
  {
    RunKeepsOneWin(c, START, steps);
  }

  /** An id without a row never gets one again, and never succeeds again. */
  ghost predicate Gone(s: State, id: string, wins: nat) {
    id in s.issued && id !in s.rows && s.wins[id] == wins
  }

  lemma SendKeepsGone(s: State, call: string, step: SendStep, id: string, wins: nat)
    requires Gone(s, id, wins) && call in s.sends
    ensures Gone(NextSend(s, call, step), id, wins)
  {
  }

  lemma VerifyKeepsGone(c: Config, s: State, call: string, step: VerifyStep, id: string, wins: nat)
    requires Gone(s, id, wins) && call in s.verifies
    ensures Gone(NextVerify(c, s, call, step), id, wins)
  {
  }

  lemma NextKeepsGone(c: Config, s: State, step: Step, id: string, wins: nat)
    requires Gone(s, id, wins)
    ensures Gone(Next(c, s, step), id, wins)
  {
    if step.Sending? && step.call in s.sends {
      SendKeepsGone(s, step.call, step.send, id, wins);
    }
    if step.Verifying? && step.call in s.verifies {
      VerifyKeepsGone(c, s, step.call, step.verify, id, wins);
    }
  }

  lemma {:induction false} RunKeepsGone(c: Config, s: State, steps: seq<Step>, id: string, wins: nat)
    requires Gone(s, id, wins)
    ensures Gone(Run(c, s, steps), id, wins)
    decreases |steps|
  {
    if steps != [] {
      NextKeepsGone(c, s, steps[0], id, wins);
      RunKeepsGone(c, Next(c, s, steps[0]), steps[1..], id, wins);
    }
  }

  /**
   * An OTP that is still unverified when a later send deletes the unverified rows is never
   * verified, not even by a call that read it from the cache or compared its hash before.
   */
  lemma PurgedNeverVerified(c: Config, before: seq<Step>, call: string, after: seq<Step>, id: string)
    requires var s := Run(c, START, before);
             && id in s.rows && !s.rows[id].verified
             && call in s.sends && s.sends[call].stage == Acquired
    ensures Run(c, Next(c, Run(c, START, before), Sending(call, DeleteUnverified)), after).wins[id] == 0
  {
    RunKeepsOneWin(c, START, before);
    RunKeepsGone(c, Next(c, Run(c, START, before), Sending(call, DeleteUnverified)), after, id, 0);
  }

  // ---------------------------------------------------------------- locks with owner tokens

  /** The call has taken the verification lock, has not released it, and its time is not up. */
  predicate Holds(s: State, call: string) {
    call in s.verifies && !s.verifies[call].stage.Released? && s.now < s.verifies[call].since + VERIFY_LOCK
  }

  /** The call has taken the cooldown lock, is not being undone, and the cooldown is not over. */
  predicate Cools(c: Config, s: State, call: string) {
    call in s.sends && !s.sends[call].stage.Undoing? && s.now < s.sends[call].since + c.cooldownSeconds * 1000
  }

  /** Whoever holds a lock finds its own token under the lock's key. */
  ghost predicate LocksOwned(c: Config, s: State) {
    && s.verifies.Keys !! s.sends.Keys
    && (forall v :: Holds(s, v) ==>
          VerifyLockSlot in s.store && s.store[VerifyLockSlot] == Entry(Text(v), s.verifies[v].since + VERIFY_LOCK))
    && (forall x :: Cools(c, s, x) ==>
          CooldownSlot in s.store &&
              s.store[CooldownSlot] == Entry(Text(x), s.sends[x].since + c.cooldownSeconds * 1000))
  }

  /** Any two sends that are not being undone took the cooldown lock at least the cooldown apart. */
  ghost predicate SendsApart(c: Config, s: State) {
    && (forall x :: x in s.sends ==> s.sends[x].since <= s.now)
    && (forall x, y | x in s.sends && y in s.sends && x != y :: ApartUnlessUndone(c, s, x, y))
  }

  ghost predicate ApartUnlessUndone(c: Config, s: State, x: string, y: string)
    requires x in s.sends && y in s.sends
  {
    s.sends[x].stage.Undoing? || s.sends[y].stage.Undoing? ||
    s.sends[x].since + c.cooldownSeconds * 1000 <= s.sends[y].since ||
    s.sends[y].since + c.cooldownSeconds * 1000 <= s.sends[x].since
  }

  predicate SameSlot(s: State, t: State, slot: Slot) {
    (slot in s.store <==> slot in t.store) && (slot in s.store ==> t.store[slot] == s.store[slot])
  }

  predicate Owns(s: State, slot: Slot, call: string) {
    slot in s.store && s.store[slot].value == Text(call)
  }

  /** A step of a running send leaves the other lock alone, and its own too unless it is undoing and owns it. */
  ghost predicate SendFrame(s: State, t: State, call: string)
    requires call in s.sends
  {
    && t.now == s.now && t.verifies == s.verifies && t.latest == s.latest
    && t.sends.Keys == s.sends.Keys && SameSlot(s, t, VerifyLockSlot)
    && (forall x :: x in s.sends ==>
          t.sends[x].since == s.sends[x].since && (s.sends[x].stage.Undoing? ==> t.sends[x].stage.Undoing?))
    && (SameSlot(s, t, CooldownSlot) || (s.sends[call].stage.Undoing? && Owns(s, CooldownSlot, call)))
  }

  ghost predicate VerifyFrame(s: State, t: State, call: string) {
    && t.now == s.now && t.sends == s.sends && t.latest == s.latest
    && t.verifies.Keys == s.verifies.Keys && SameSlot(s, t, CooldownSlot)
    && (forall v :: v in s.verifies ==>
          t.verifies[v].since == s.verifies[v].since &&
              (s.verifies[v].stage.Released? ==> t.verifies[v].stage.Released?))
    && (SameSlot(s, t, VerifyLockSlot) ||
        (call in t.verifies && t.verifies[call].stage.Released? && Owns(s, VerifyLockSlot, call)))
  }

  lemma SendMoveIsFramed(s: State, t: State, call: string)
    requires call in s.sends && !s.sends[call].stage.Undoing?
    requires call in t.sends && t.sends == s.sends[call := s.sends[call].(stage := t.sends[call].stage)]
    requires t.now == s.now && t.verifies == s.verifies && t.latest == s.latest
    requires SameSlot(s, t, VerifyLockSlot) && SameSlot(s, t, CooldownSlot)
    ensures SendFrame(s, t, call)
  {
  }

  lemma StoringSendIsFramed(s: State, call: string, step: SendStep)
    requires call in s.sends && !s.sends[call].stage.Undoing? && (step.CreateRow? || step.CacheRow?)
    ensures SendFrame(s, NextSend(s, call, step), call)
  {
    var t := NextSend(s, call, step);
    assert s.sends == s.sends[call := s.sends[call].(stage := s.sends[call].stage)];
    SendMoveIsFramed(s, t, call);
  }

  lemma RunningSendIsFramed(s: State, call: string, step: SendStep)
    requires call in s.sends && !s.sends[call].stage.Undoing? && !step.CreateRow? && !step.CacheRow?
    ensures SendFrame(s, NextSend(s, call, step), call)
  {
    var t := NextSend(s, call, step);
    if t == s {
      StillIsFramed(s, call);
    } else {
      SendMoveIsFramed(s, t, call);
    }
  }

  lemma StillIsFramed(s: State, call: string)
    requires call in s.sends
    ensures SendFrame(s, s, call)
  {
  }

  lemma UndoingSendIsFramed(s: State, call: string, step: SendStep)
    requires call in s.sends && s.sends[call].stage.Undoing?
    ensures SendFrame(s, NextSend(s, call, step), call)
  {
    assert NextSend(s, call, step).sends == s.sends;
  }

  lemma SendIsFramed(s: State, call: string, step: SendStep)
    requires call in s.sends
    ensures SendFrame(s, NextSend(s, call, step), call)
  {
    if s.sends[call].stage.Undoing? {
      UndoingSendIsFramed(s, call, step);
    } else if step.CreateRow? || step.CacheRow? {
      StoringSendIsFramed(s, call, step);
    } else {
      RunningSendIsFramed(s, call, step);
    }
  }

  /** A call moves on to another stage and at most gives up a lock that it owns. */
  lemma MoveIsFramed(s: State, t: State, call: string, stage: VerifyStage)
    requires call in s.verifies && (s.verifies[call].stage.Released? ==> stage.Released?)
    requires t.now == s.now && t.sends == s.sends && t.latest == s.latest
    requires t.verifies == s.verifies[call := s.verifies[call].(stage := stage)]
    requires SameSlot(s, t, CooldownSlot)
    requires SameSlot(s, t, VerifyLockSlot) || (stage.Released? && Owns(s, VerifyLockSlot, call))
    ensures VerifyFrame(s, t, call)
  {
  }

  predicate OnlyMoves(step: VerifyStep) {
    !step.CountWrong? && !step.MarkVerified? && !step.ClearAfterVerify? && !step.ReleaseVerifyLock?
  }

  lemma MovingIsFramed(c: Config, s: State, call: string, step: VerifyStep)
    requires call in s.verifies && OnlyMoves(step)
    ensures VerifyFrame(s, NextVerify(c, s, call, step), call)
  {
    MoveIsFramed(s, NextVerify(c, s, call, step), call, StageAfter(c, s, call, step));
  }

  lemma CountingIsFramed(c: Config, s: State, call: string)
    requires call in s.verifies
    ensures VerifyFrame(s, NextVerify(c, s, call, CountWrong), call)
  {
    if s.verifies[call].stage.Mismatched? && s.verifies[call].stage.record.OtpRecord? {
      MoveIsFramed(s, NextVerify(c, s, call, CountWrong), call, Closing);
    }
  }

  lemma MarkingIsFramed(c: Config, s: State, call: string)
    requires call in s.verifies
    ensures VerifyFrame(s, NextVerify(c, s, call, MarkVerified), call)
  {
    if s.verifies[call].stage.Matched? {
      MoveIsFramed(s, NextVerify(c, s, call, MarkVerified), call, Closing);
    }
  }

  lemma VerifyIsFramed(c: Config, s: State, call: string, step: VerifyStep)
    requires call in s.verifies
    ensures VerifyFrame(s, NextVerify(c, s, call, step), call)
  {
    match step
    case CountWrong => CountingIsFramed(c, s, call);
    case MarkVerified => MarkingIsFramed(c, s, call);
    case ClearAfterVerify =>
      assert NextVerify(c, s, call, step).verifies == s.verifies;
    case ReleaseVerifyLock =>
      if s.verifies[call].stage.Closing? {
        MoveIsFramed(s, NextVerify(c, s, call, step), call, Released);
      }
    case _ => MovingIsFramed(c, s, call, step);
  }

  lemma SendFrameKeepsLocks(c: Config, s: State, t: State, call: string)
    requires LocksOwned(c, s) && SendsApart(c, s) && call in s.sends && SendFrame(s, t, call)
    ensures LocksOwned(c, t) && SendsApart(c, t)
  {
    forall v | Holds(t, v) ensures Holds(s, v) {}
    forall x | Cools(c, t, x) ensures Cools(c, s, x) {}
    forall x, y | x in t.sends && y in t.sends && x != y ensures ApartUnlessUndone(c, t, x, y) {
      assert ApartUnlessUndone(c, s, x, y);
    }
  }

  lemma VerifyFrameKeepsLocks(c: Config, s: State, t: State, call: string)
    requires LocksOwned(c, s) && SendsApart(c, s) && VerifyFrame(s, t, call)
    ensures LocksOwned(c, t) && SendsApart(c, t)
  {
    forall v | Holds(t, v) ensures Holds(s, v) {}
    forall x | Cools(c, t, x) ensures Cools(c, s, x) {}
    forall x, y | x in t.sends && y in t.sends && x != y ensures ApartUnlessUndone(c, t, x, y) {
      assert ApartUnlessUndone(c, s, x, y);
    }
  }

  /** The call takes the free cooldown lock. */
  ghost predicate TakesCooldown(c: Config, s: State, t: State, call: string) {
    && call !in s.sends && call !in s.verifies && !Live(s.store, s.now, CooldownSlot)
    && t.now == s.now && t.verifies == s.verifies && t.sends == s.sends[call := Send(Acquired, s.now)]
    && t.store == s.store[CooldownSlot := Entry(Text(call), s.now + c.cooldownSeconds * 1000)]
  }

  lemma TakingKeepsOwned(c: Config, s: State, t: State, call: string)
    requires LocksOwned(c, s) && TakesCooldown(c, s, t, call)
    ensures LocksOwned(c, t)
  {
    forall v | Holds(t, v) ensures Holds(s, v) {}
    forall x | Cools(c, t, x) && x != call ensures Cools(c, s, x) {}
  }

  lemma TakingKeepsApart(c: Config, s: State, t: State, call: string)
    requires LocksOwned(c, s) && SendsApart(c, s) && TakesCooldown(c, s, t, call)
    ensures SendsApart(c, t)
  {
    forall x, y | x in t.sends && y in t.sends && x != y ensures ApartUnlessUndone(c, t, x, y) {
      assert x in s.sends && y in s.sends ==> ApartUnlessUndone(c, s, x, y);
      assert x in s.sends && y !in s.sends && !s.sends[x].stage.Undoing? ==> !Cools(c, s, x);
      assert y in s.sends && x !in s.sends && !s.sends[y].stage.Undoing? ==> !Cools(c, s, y);
    }
  }

  lemma StartSendKeepsLocks(c: Config, s: State, call: string)
    requires LocksOwned(c, s) && SendsApart(c, s)
    ensures LocksOwned(c, StartSend(c, s, call)) && SendsApart(c, StartSend(c, s, call))
  {
    var t := StartSend(c, s, call);
    if t != s {
      TakingKeepsOwned(c, s, t, call);
      TakingKeepsApart(c, s, t, call);
    }
  }

  lemma StartVerifyKeepsLocks(c: Config, s: State, call: string, guess: string)
    requires LocksOwned(c, s) && SendsApart(c, s)
    ensures LocksOwned(c, StartVerify(s, call, guess)) && SendsApart(c, StartVerify(s, call, guess))
  {
    var t := StartVerify(s, call, guess);
    forall v | Holds(t, v) && v != call ensures Holds(s, v) {}
    forall x, y | x in t.sends && y in t.sends && x != y ensures ApartUnlessUndone(c, t, x, y) {
      assert ApartUnlessUndone(c, s, x, y);
    }
  }

  lemma NextKeepsLocks(c: Config, s: State, step: Step)
    requires LocksOwned(c, s) && SendsApart(c, s)
    ensures LocksOwned(c, Next(c, s, step)) && SendsApart(c, Next(c, s, step))
  {
    match step
    case Tick(ticks) =>
      forall v | Holds(Next(c, s, step), v) ensures Holds(s, v) {}
      forall x | Cools(c, Next(c, s, step), x) ensures Cools(c, s, x) {}
      forall x, y | x in s.sends && y in s.sends && x != y ensures ApartUnlessUndone(c, Next(c, s, step), x, y) {
        assert ApartUnlessUndone(c, s, x, y);
      }
    case Sending(call, send) =>
      StartSendKeepsLocks(c, s, call);
      if call in s.sends {
        SendIsFramed(s, call, send);
        SendFrameKeepsLocks(c, s, NextSend(s, call, send), call);
      }
    case Verifying(call, verify) =>
      StartVerifyKeepsLocks(c, s, call, if verify.AcquireVerifyLock? then verify.guess else "");
      if call in s.verifies {
        VerifyIsFramed(c, s, call, verify);
        VerifyFrameKeepsLocks(c, s, NextVerify(c, s, call, verify), call);
      }
  }

  lemma {:induction false} RunKeepsLocks(c: Config, s: State, steps: seq<Step>)
    requires LocksOwned(c, s) && SendsApart(c, s)
    ensures LocksOwned(c, Run(c, s, steps)) && SendsApart(c, Run(c, s, steps))
    decreases |steps|
  {
    if steps != [] {
      NextKeepsLocks(c, s, steps[0]);
      RunKeepsLocks(c, Next(c, s, steps[0]), steps[1..]);
    }
  }

  /** At most one verification holds an unexpired lock, and the key carries that call's token. */
  lemma OneLockHolder(c: Config, steps: seq<Step>, v: string, w: string)
    requires Holds(Run(c, START, steps), v) && Holds(Run(c, START, steps), w)
    ensures v == w
    ensures Get(Run(c, START, steps).store, Run(c, START, steps).now, VerifyLockSlot) == Some(Text(v))
  {
    RunKeepsLocks(c, START, steps);
  }

  /** A caller whose lock has expired releases nothing that belongs to another caller. */
  lemma StaleReleaseIsHarmless(c: Config, steps: seq<Step>, stale: string, holder: string)
    requires stale != holder && Holds(Run(c, START, steps), holder)
    ensures Holds(Next(c, Run(c, START, steps), Verifying(stale, ReleaseVerifyLock)), holder)
    ensures Next(c, Run(c, START, steps), Verifying(stale, ReleaseVerifyLock)).store == Run(c, START, steps).store
  {
    RunKeepsLocks(c, START, steps);
  }

  /** Two successful sends for one key took its cooldown lock at least the cooldown apart. */
  lemma SuccessfulSendsApart(c: Config, steps: seq<Step>, x: string, y: string)
    requires var s := Run(c, START, steps);
             x in s.sends && y in s.sends && x != y && s.sends[x].stage.Sent? && s.sends[y].stage.Sent?
    ensures var s := Run(c, START, steps);
            s.sends[x].since + c.cooldownSeconds * 1000 <= s.sends[y].since ||
            s.sends[y].since + c.cooldownSeconds * 1000 <= s.sends[x].since
  {
    RunKeepsLocks(c, START, steps);
    assert ApartUnlessUndone(c, Run(c, START, steps), x, y);
  }
}
