/**
 * OtpService for calls that do not overlap: issuing a one-time password, and verifying it
 * with a bounded number of guesses. Times are milliseconds; time passes inside every call.
 */
module OtpServices {
  import opened Prelude
  import Text
  import opened Redis
  import opened CacheServices

  datatype OtpType = PHONE | EMAIL

  datatype OtpPurpose =
    | REGISTER | LOGIN | NEW_DEVICE_LOGIN | FORGOT_PASSWORD
    | CHANGE_EMAIL | CHANGE_PHONE | TRANSACTION | ACCOUNT_ONBOARDING

  /** Whom an OTP is for; all cache keys are derived from it. */
  datatype Subject = Subject(otpType: OtpType, purpose: OtpPurpose, identifier: string)

  datatype Key =
    | OtpKey(subject: Subject)
    | AttemptsKey(subject: Subject)
    | CooldownKey(subject: Subject)
    | VerifyLockKey(subject: Subject)

  function TypeText(t: OtpType): string {
    match t case PHONE => "PHONE" case EMAIL => "EMAIL"
  }

  function PurposeText(p: OtpPurpose): string {
    match p
    case REGISTER => "REGISTER"
    case LOGIN => "LOGIN"
    case NEW_DEVICE_LOGIN => "NEW_DEVICE_LOGIN"
    case FORGOT_PASSWORD => "FORGOT_PASSWORD"
    case CHANGE_EMAIL => "CHANGE_EMAIL"
    case CHANGE_PHONE => "CHANGE_PHONE"
    case TRANSACTION => "TRANSACTION"
    case ACCOUNT_ONBOARDING => "ACCOUNT_ONBOARDING"
  }

  function SubjectText(s: Subject): string {
    TypeText(s.otpType) + ":" + (PurposeText(s.purpose) + ":" + s.identifier)
  }

  /** The key as Redis sees it, after the common "otp:". */
  function KeyText(k: Key): string {
    match k
    case OtpKey(s) => SubjectText(s)
    case AttemptsKey(s) => "attempts" + ":" + SubjectText(s)
    case CooldownKey(s) => "cooldown" + ":" + SubjectText(s)
    case VerifyLockKey(s) => "verify-lock" + ":" + SubjectText(s)
  }

  lemma PurposeTextInjective(p: OtpPurpose, q: OtpPurpose)
    ensures ':' !in PurposeText(p)
    ensures PurposeText(p) == PurposeText(q) ==> p == q
  {
    assert p != q && |PurposeText(p)| == |PurposeText(q)| ==>
        PurposeText(p)[0] != PurposeText(q)[0] || PurposeText(p)[7] != PurposeText(q)[7];
  }

  lemma SubjectTextInjective(s: Subject, t: Subject)
    requires SubjectText(s) == SubjectText(t)
    ensures s == t
  {
    Text.SplitAt(':', TypeText(s.otpType), TypeText(t.otpType),
                 PurposeText(s.purpose) + ":" + s.identifier, PurposeText(t.purpose) + ":" + t.identifier);
    assert TypeText(s.otpType)[0] == TypeText(t.otpType)[0];
    PurposeTextInjective(s.purpose, t.purpose);
    PurposeTextInjective(t.purpose, s.purpose);
    Text.SplitAt(':', PurposeText(s.purpose), PurposeText(t.purpose), s.identifier, t.identifier);
  }

  /** No two keys of the service are rendered alike, whatever the identifiers contain. */
  lemma KeyTextInjective(j: Key, k: Key)
    requires KeyText(j) == KeyText(k)
    ensures j == k
  {
    Text.SplitAt(':', FirstField(j), FirstField(k), OtherFields(j), OtherFields(k));
    assert FirstField(j)[0] == FirstField(k)[0];
    SubjectTextInjective(j.subject, k.subject);
  }

  function FirstField(k: Key): string {
    match k
    case OtpKey(s) => TypeText(s.otpType)
    case AttemptsKey(_) => "attempts"
    case CooldownKey(_) => "cooldown"
    case VerifyLockKey(_) => "verify-lock"
  }

  function OtherFields(k: Key): string {
    if k.OtpKey? then PurposeText(k.subject.purpose) + ":" + k.subject.identifier else SubjectText(k.subject)
  }

  datatype Row = Row(subject: Subject, otpHash: Digest, createdAt: int, expiresAt: int, verified: bool)

  datatype Config = Config(cooldownSeconds: Positive, expiryMinutes: Positive, maxAttempts: Positive)

  datatype OtpError =
    | AlreadyRegistered
    | UnknownAccount
    | PleaseWait
    | SendingFailed
    | InProgress
    | NotFoundOrExpired
    | AttemptsExceeded
    | InvalidOtp
    | UsedOrExpired
    | Unavailable

  /** Remaining lifetime in whole seconds, rounded up, at least one. */
  function RemainingTtl(expiresAt: int, now: int): (seconds: Positive)
    ensures now + 1000 * seconds >= expiresAt
    ensures expiresAt > now ==> now + 1000 * seconds < expiresAt + 1000
    ensures expiresAt <= now ==> seconds == 1
  {
    var up := -((now - expiresAt) / 1000);
    if up >= 1 then up else 1
  }

  /** The Otp table, and the history of ids: whom each was issued to, and the wrong guesses counted against it. */
  datatype Book = Book(rows: map<string, Row>, issued: map<string, Subject>, wrong: map<string, nat>)

  /** A cached OTP belongs to its subject; while it lasts, its attempts counter is exact and outlives it. */
  ghost predicate CachedOk(max: int, store: Store<Key>, now: int, b: Book, s: Subject)
    requires OtpKey(s) in store
  {
    var v := store[OtpKey(s)].value;
    && v.OtpRecord?
    && v.otpId in b.issued && b.issued[v.otpId] == s && v.otpId in b.wrong
    && (v.otpId in b.rows ==>
          b.rows[v.otpId].otpHash == v.otpHash && b.rows[v.otpId].subject == s &&
              b.rows[v.otpId].expiresAt == v.expiresAt)
    && store[OtpKey(s)].until >= v.expiresAt
    && (now < v.expiresAt ==> CounterOk(store, s, b.wrong[v.otpId], v.expiresAt) && b.wrong[v.otpId] <= max)
  }

  ghost predicate CounterOk(store: Store<Key>, s: Subject, n: nat, expiresAt: int) {
    if AttemptsKey(s) in store
    then store[AttemptsKey(s)].value == Number(n) && store[AttemptsKey(s)].until >= expiresAt && n >= 1
    else n == 0
  }

  ghost predicate Ok(max: int, store: Store<Key>, now: int, b: Book) {
    && b.issued.Keys == b.wrong.Keys && b.rows.Keys <= b.issued.Keys
    && (forall s :: OtpKey(s) in store ==> CachedOk(max, store, now, b, s))
  }

  /** The two stores hold the same OTPs and counters. */
  ghost predicate SameOtps(t: Store<Key>, u: Store<Key>) {
    forall s: Subject ::
      && (OtpKey(s) in t <==> OtpKey(s) in u) && (OtpKey(s) in u ==> t[OtpKey(s)] == u[OtpKey(s)])
      && (AttemptsKey(s) in t <==> AttemptsKey(s) in u) &&
         (AttemptsKey(s) in u ==> t[AttemptsKey(s)] == u[AttemptsKey(s)])
  }

  /** The two stores agree on every key outside `keys`. */
  ghost predicate AgreeOutside(t: Store<Key>, u: Store<Key>, keys: set<Key>) {
    forall k :: k !in keys ==> (k in t <==> k in u) && (k in u ==> t[k] == u[k])
  }

  /** Key `k` is held by the caller with this token. */
  predicate HeldWith(t: Store<Key>, now: int, k: Key, token: string) {
    Live(t, now, k) && t[k].value == Text(token)
  }

  lemma OkLater(max: int, store: Store<Key>, now: int, later: int, b: Book)
    requires Ok(max, store, now, b) && now <= later
    ensures Ok(max, store, later, b)
  {
    forall s | OtpKey(s) in store ensures CachedOk(max, store, later, b, s) {
      assert CachedOk(max, store, now, b, s);
    }
  }

  lemma OkSameOtps(max: int, t: Store<Key>, u: Store<Key>, now: int, b: Book)
    requires Ok(max, t, now, b) && SameOtps(t, u)
    ensures Ok(max, u, now, b)
  {
    forall s | OtpKey(s) in u ensures CachedOk(max, u, now, b, s) {
      assert CachedOk(max, t, now, b, s);
    }
  }

  lemma OkDeleteState(max: int, store: Store<Key>, now: int, b: Book, s: Subject)
    requires Ok(max, store, now, b)
    ensures Ok(max, store - {OtpKey(s), AttemptsKey(s)}, now, b)
  {
    forall t | OtpKey(t) in store - {OtpKey(s), AttemptsKey(s)}
      ensures CachedOk(max, store - {OtpKey(s), AttemptsKey(s)}, now, b, t)
    {
      assert CachedOk(max, store, now, b, t);
    }
  }

  /** Rows may vanish, or be marked verified, without harm. */
  lemma OkRows(max: int, store: Store<Key>, now: int, b: Book, rows: map<string, Row>)
    requires Ok(max, store, now, b)
    requires forall id :: id in rows ==> id in b.rows && rows[id] == b.rows[id].(verified := rows[id].verified)
    ensures Ok(max, store, now, b.(rows := rows))
  {
    forall s | OtpKey(s) in store ensures CachedOk(max, store, now, b.(rows := rows), s) {
      assert CachedOk(max, store, now, b, s);
    }
  }

  lemma OkIssue(max: Positive, store: Store<Key>, now: int, b: Book, id: string, row: Row)
    requires Ok(max, store, now, b) && id !in b.issued
    ensures Ok(max, store, now, Book(b.rows[id := row], b.issued[id := row.subject], b.wrong[id := 0]))
  {
    var c := Book(b.rows[id := row], b.issued[id := row.subject], b.wrong[id := 0]);
    forall s | OtpKey(s) in store ensures CachedOk(max, store, now, c, s) {
      assert CachedOk(max, store, now, b, s);
    }
  }

  lemma OkCache(max: Positive, store: Store<Key>, now: int, b: Book, id: string, until: int)
    requires Ok(max, store, now, b) && id in b.rows && b.wrong[id] == 0 && b.issued[id] == b.rows[id].subject
    requires AttemptsKey(b.rows[id].subject) !in store && until >= b.rows[id].expiresAt
    ensures Ok(max, store[OtpKey(b.rows[id].subject) :=
                          Entry(OtpRecord(id, b.rows[id].otpHash, b.rows[id].expiresAt), until)], now, b)
  {
    var u := store[OtpKey(b.rows[id].subject) := Entry(OtpRecord(id, b.rows[id].otpHash, b.rows[id].expiresAt), until)];
    forall s | OtpKey(s) in u ensures CachedOk(max, u, now, b, s) {
      assert s != b.rows[id].subject ==> CachedOk(max, store, now, b, s);
    }
  }

  /**
   * A wrong guess is counted. The counter may have expired meanwhile, but only if
   * the OTP has: its lifetime was rounded up from the remaining lifetime of the OTP.
   */
  lemma OkWrongGuess(max: int, store: Store<Key>, now: int, b: Book, s: Subject)
    requires Ok(max, store, now, b) && OtpKey(s) in store
    requires now < store[OtpKey(s)].value.expiresAt ==> b.wrong[store[OtpKey(s)].value.otpId] < max
    ensures var v := store[OtpKey(s)].value;
            && Ok(max, Incr(store, now, AttemptsKey(s), RemainingTtl(v.expiresAt, now) * 1000), now,
                  b.(wrong := b.wrong[v.otpId := b.wrong[v.otpId] + 1]))
  {
    var v := store[OtpKey(s)].value;
    var u := Incr(store, now, AttemptsKey(s), RemainingTtl(v.expiresAt, now) * 1000);
    var c := b.(wrong := b.wrong[v.otpId := b.wrong[v.otpId] + 1]);
    assert CachedOk(max, store, now, b, s);
    forall t | OtpKey(t) in u ensures CachedOk(max, u, now, c, t) {
      assert CachedOk(max, store, now, b, t);
    }
  }

  /** While a cached OTP lasts, the live counter is the number of wrong guesses counted against it. */
  lemma CounterIsExact(max: int, store: Store<Key>, now: int, b: Book, s: Subject)
    requires Ok(max, store, now, b) && OtpKey(s) in store && now < store[OtpKey(s)].value.expiresAt
    ensures Count(store, now, AttemptsKey(s)) == b.wrong[store[OtpKey(s)].value.otpId]
  {
    assert CachedOk(max, store, now, b, s);
  }

  /**
   * What one guess may do to the book. A success consumes a pending row whose hash is that of
   * the guess, and only if fewer than the maximum of wrong guesses were counted before; a guess
   * is counted as wrong only if it is, against the cached OTP, and below the maximum unless the
   * OTP had expired by the time the call was `done`: the expiry is checked before the counter
   * is read, and between the two the OTP and with it the counter may expire.
   */
  ghost predicate GuessEffect(max: int, before: Book, cached: Option<Value>, after: Book,
                              s: Subject, otp: string, r: Result<string, OtpError>, done: int)
  {
    && after.issued == before.issued
    && (r.Success? ==>
          && r.value in before.rows && r.value in before.wrong && before.wrong[r.value] < max
          && var row := before.rows[r.value];
          && row.subject == s && row.otpHash == Sha256(otp) && !row.verified
          && after.rows == before.rows[r.value := row.(verified := true)]
          && after.wrong == before.wrong)
    && (r.Failure? ==> after.rows == before.rows)
    && (after.wrong != before.wrong ==>
          && cached.Some? && cached.value.OtpRecord? && cached.value.otpHash != Sha256(otp)
          && var id := cached.value.otpId;
          && id in before.wrong && (before.wrong[id] < max || cached.value.expiresAt <= done)
          && after.wrong == before.wrong[id := before.wrong[id] + 1])
  }

  /**
   * What one guess must decide, if the cached OTP has not expired when the call is done: the
   * right guess succeeds exactly if the row is pending, a wrong one is counted unless the counter
   * does not answer, and after the maximum of wrong guesses neither happens.
   */
  ghost predicate GuessDecided(max: int, before: Book, cached: Option<Value>, after: Book, otp: string, counting: bool,
                               r: Result<string, OtpError>, done: int)
  {
    cached.Some? && cached.value.OtpRecord? && done < cached.value.expiresAt && cached.value.otpId in before.wrong ==>
      var id := cached.value.otpId;
      if before.wrong[id] >= max
      then (r == Failure(AttemptsExceeded) || r == Failure(Unavailable)) && after == before
      else if cached.value.otpHash == Sha256(otp)
      then
        && (r == Success(id) <==> id in before.rows && !before.rows[id].verified)
        && (r == Success(id) || r == Failure(UsedOrExpired) || r == Failure(Unavailable))
      else if !counting then r == Failure(Unavailable) && after == before
      else
        && r.Failure? && after.wrong == before.wrong[id := before.wrong[id] + 1]
        && (r.error == InvalidOtp <==> before.wrong[id] + 1 < max)
        && (r.error == InvalidOtp || r.error == AttemptsExceeded || r.error == Unavailable)
  }

  /**
   * What the caller is told and what is left in the cache: the OTP is withdrawn unless it lasts
   * for another guess or the cache did not answer, and the error says why it was.
   */
  ghost predicate GuessReported(cached: Option<Value>, after: Store<Key>, now: int, s: Subject, otp: string,
                                counting: bool, reachable: bool, r: Result<string, OtpError>)
  {
    && r != Failure(InProgress)
    && (reachable && counting ==> r != Failure(Unavailable))
    && (r.Failure? && r.error != Unavailable ==>
          var right := cached.Some? && cached.value.OtpRecord? && cached.value.otpHash == Sha256(otp);
          || (r.error == InvalidOtp && !right) || (r.error == UsedOrExpired && right)
          || r.error == AttemptsExceeded || r.error == NotFoundOrExpired)
    && (if r == Failure(InvalidOtp) || r == Failure(Unavailable) || (r.Success? && !reachable)
        then OtpKey(s) in after && cached == Some(after[OtpKey(s)].value)
        else !Live(after, now, OtpKey(s)))
  }

  /**
   * What a verification does with its lock, for 30 seconds from its start. It is refused exactly
   * if the lock is held, and then it changes nothing; otherwise the lock is free when it is done,
   * or, if the cache did not answer, still stored with its token.
   */
  ghost predicate LockEffect(before: Store<Key>, start: int, s: Subject, token: string, reachable: bool,
                             r: Result<string, OtpError>, after: Store<Key>, done: int)
  {
    var lock := VerifyLockKey(s);
    && start <= done
    && (r == Failure(InProgress) <==> Live(before, start, lock))
    && (r == Failure(InProgress) ==> after == before)
    && AgreeOutside(before, after, {OtpKey(s), AttemptsKey(s), lock})
    && (r != Failure(InProgress) ==>
          if reachable then !Live(after, done, lock)
          else lock in after && after[lock] == Entry(Text(token), start + 30000))
  }

  /**
   * What a send does with its cooldown. One that is refused changes nothing; one that succeeds
   * holds the key with its token for the cooldown from its start; after one that could not hand
   * over its message the key is free.
   */
  ghost predicate CooldownEffect(before: Store<Key>, start: int, s: Subject, token: string, seconds: int,
                                 r: Result<string, OtpError>, after: Store<Key>, done: int)
  {
    var lock := CooldownKey(s);
    && start <= done
    && AgreeOutside(before, after, {OtpKey(s), AttemptsKey(s), lock})
    && (Live(before, start, lock) ==> r.Failure? && r.error != SendingFailed)
    && (r.Success? ==> lock in after && after[lock] == Entry(Text(token), start + 1000 * seconds))
    && (r == Failure(SendingFailed) ==> !Live(after, done, lock))
    && (r.Failure? && r.error != SendingFailed ==> after == before)
  }

  /** What sending has done before the message is handed over: the subject's pending rows are gone. */
  ghost predicate Pruned(before: map<string, Row>, after: map<string, Row>, s: Subject, newId: string) {
    && (forall id :: id in after && id != newId <==>
          id != newId && id in before && (before[id].subject == s ==> before[id].verified))
    && (forall id :: id in after && id != newId ==> after[id] == before[id])
  }

  /**
   * What a send does to the book. A refusal changes nothing; otherwise the pending rows of the
   * subject are replaced by the new one, which a failed hand-over takes back.
   */
  ghost predicate SendEffect(before: Book, after: Book, s: Subject, newId: string, r: Result<string, OtpError>) {
    if r.Failure? && r.error != SendingFailed then after == before
    else
      && after.issued == before.issued[newId := s] && after.wrong == before.wrong[newId := 0]
      && Pruned(before.rows, after.rows, s, newId)
      && (newId in after.rows <==> r.Success?)
  }

  /** What one call starts from or leaves behind. */
  datatype Moment = Moment(store: Store<Key>, rows: map<string, Row>, now: int)

  datatype ServiceCall =
    | VerifyCall(s: Subject, token: string, reachable: bool, r: Result<string, OtpError>)
    | SendCall(s: Subject, token: string, newId: string, r: Result<string, OtpError>)

  /** Some row of the subject is younger than the cooldown; then so is the latest one. */
  ghost predicate Recent(rows: map<string, Row>, s: Subject, now: int, seconds: int) {
    exists id :: id in rows && rows[id].subject == s && now - rows[id].createdAt < 1000 * seconds
  }

  /** Rows may be marked as verified, and nothing else happens to them. */
  ghost predicate OnlyMarked(before: map<string, Row>, after: map<string, Row>) {
    forall id :: (id in after <==> id in before) &&
        (id in after ==> after[id] == before[id].(verified := after[id].verified))
  }

  /** What a call that has returned did to the locks and the rows. */
  ghost predicate Served(seconds: int, m: Moment, call: ServiceCall, n: Moment) {
    match call
    case VerifyCall(s, token, reachable, r) =>
      LockEffect(m.store, m.now, s, token, reachable, r, n.store, n.now) && OnlyMarked(m.rows, n.rows)
    case SendCall(s, token, newId, r) =>
      && CooldownEffect(m.store, m.now, s, token, seconds, r, n.store, n.now)
      && SendGated(m, s, seconds, r) && SendBooked(m, s, newId, r, n)
  }

  /** A send that the registration status allows is refused exactly by a recent row or a held cooldown. */
  ghost predicate SendGated(m: Moment, s: Subject, seconds: int, r: Result<string, OtpError>) {
    r != Failure(AlreadyRegistered) && r != Failure(UnknownAccount) ==>
      (r == Failure(PleaseWait) <==> Recent(m.rows, s, m.now, seconds) || Live(m.store, m.now, CooldownKey(s)))
  }

  ghost predicate SendBooked(m: Moment, s: Subject, newId: string, r: Result<string, OtpError>, n: Moment) {
    if r.Failure? && r.error != SendingFailed then n.rows == m.rows
    else
      && newId !in m.rows && Pruned(m.rows, n.rows, s, newId)
      && (newId in n.rows <==> r.Success?)
      && (r.Success? ==> n.rows[newId].subject == s && m.now <= n.rows[newId].createdAt <= n.now)
  }

  class OtpService {
    const cache: CacheService<Key>
    const config: Config
    var rows: map<string, Row>
    ghost var issued: map<string, Subject>
    ghost var wrong: map<string, nat>

    ghost function History(): Book reads this {
      Book(rows, issued, wrong)
    }

    ghost predicate Valid() reads this, cache {
      cache.ticksPerSecond == 1000 && Ok(config.maxAttempts, cache.store, cache.now, History())
    }

    constructor (cache: CacheService<Key>, config: Config)
      requires cache.ticksPerSecond == 1000 && cache.store == map[]
      ensures Valid() && rows == map[] && this.cache == cache && this.config == config
    {
      this.cache, this.config := cache, config;
      rows, issued, wrong := map[], map[], map[];
    }

    /** Time passes; everything that holds keeps holding. */
    method Wait()
      requires Valid()
      modifies cache`now
      ensures Valid() && cache.now >= old(cache.now)
    {
      cache.Elapse();
      OkLater(config.maxAttempts, cache.store, old(cache.now), cache.now, History());
    }

    method DeleteOtpState(s: Subject)
      requires Valid()
      modifies cache`store
      ensures Valid()
      ensures cache.store == old(cache.store) - {OtpKey(s), AttemptsKey(s)}
    {
      OkDeleteState(config.maxAttempts, cache.store, cache.now, History(), s);
      cache.Del({OtpKey(s), AttemptsKey(s)});
    }

    /** Deletes the OTP and reports why, or that deleting did not work. */
    method Withdraw(s: Subject, why: OtpError, reachable: bool) returns (e: OtpError)
      requires Valid()
      modifies cache`store
      ensures Valid()
      ensures e == if reachable then why else Unavailable
      ensures cache.store == if reachable then old(cache.store) - {OtpKey(s), AttemptsKey(s)} else old(cache.store)
    {
      if !reachable {
        return Unavailable;
      }
      DeleteOtpState(s);
      return why;
    }

    /** Sets a lock key unless it is held. */
    method AcquireLock(key: Key, token: string, seconds: Positive) returns (ok: bool)
      requires Valid() && (key.CooldownKey? || key.VerifyLockKey?)
      modifies cache`store
      ensures Valid() && SameOtps(old(cache.store), cache.store)
      ensures ok <==> !Live(old(cache.store), cache.now, key)
      ensures ok ==> cache.store == old(cache.store)[key := Entry(Text(token), cache.now + seconds * 1000)]
      ensures !ok ==> cache.store == old(cache.store)
    {
      ok := cache.SetIfNotExists(key, Text(token), seconds);
      OkSameOtps(config.maxAttempts, old(cache.store), cache.store, cache.now, History());
    }

    /** Removes a lock key if it still carries the caller's token. */
    method ReleaseLock(key: Key, token: string)
      requires Valid() && (key.CooldownKey? || key.VerifyLockKey?)
      modifies cache`store
      ensures Valid() && SameOtps(old(cache.store), cache.store)
      ensures cache.store ==
              if HeldWith(old(cache.store), cache.now, key, token) then old(cache.store) - {key} else old(cache.store)
    {
      var _ := cache.DeleteIfValueMatches(key, Text(token));
      OkSameOtps(config.maxAttempts, old(cache.store), cache.store, cache.now, History());
    }

    predicate RecentlyIssued(s: Subject) reads this, cache {
      exists id :: id in rows && rows[id].subject == s && cache.now - rows[id].createdAt < 1000 * config.cooldownSeconds
    }

    ghost function Now(): Moment reads this, cache {
      Moment(cache.store, rows, cache.now)
    }

    method DeleteUnverified(s: Subject)
      requires Valid()
      modifies this`rows
      ensures Valid()
      ensures rows == map id | id in old(rows) && (old(rows)[id].subject == s ==> old(rows)[id].verified) ::
              old(rows)[id]
    {
      var kept := map id | id in rows && (rows[id].subject == s ==> rows[id].verified) :: rows[id];
      OkRows(config.maxAttempts, cache.store, cache.now, History(), kept);
      rows := kept;
    }

    /** Row `id` was made during the call that started at `start`, and lasts for the configured time. */
    ghost predicate Timed(id: string, start: int) reads this, cache {
      && id in rows && start <= rows[id].createdAt <= cache.now
      && rows[id].expiresAt == rows[id].createdAt + config.expiryMinutes * 60 * 1000
    }

    /** Stores a pending row under a fresh id and puts it into the cache. */
    method Issue(s: Subject, secret: string, id: string)
      requires Valid() && id !in issued && AttemptsKey(s) !in cache.store
      modifies this`rows, this`issued, this`wrong, cache`store, cache`now
      ensures Valid() && cache.now >= old(cache.now)
      ensures issued == old(issued)[id := s] && wrong == old(wrong)[id := 0]
      ensures id in rows && rows == old(rows)[id := rows[id]]
      ensures rows[id].subject == s && rows[id].otpHash == Sha256(secret) && !rows[id].verified
      ensures Timed(id, old(cache.now))
      ensures OtpKey(s) in cache.store
      ensures cache.store == old(cache.store)[OtpKey(s) := cache.store[OtpKey(s)]]
      ensures cache.store[OtpKey(s)].value == OtpRecord(id, Sha256(secret), rows[id].expiresAt)
      ensures rows[id].expiresAt <= cache.store[OtpKey(s)].until
      ensures || cache.store[OtpKey(s)].until < rows[id].expiresAt + 1000
              || cache.store[OtpKey(s)].until <= cache.now + 1000
    {
      var row := Row(s, Sha256(secret), cache.now, cache.now + config.expiryMinutes * 60 * 1000, false);
      OkIssue(config.maxAttempts, cache.store, cache.now, History(), id, row);
      rows, issued, wrong := rows[id := row], issued[id := s], wrong[id := 0];
      Wait();
      var seconds := RemainingTtl(row.expiresAt, cache.now);
      OkCache(config.maxAttempts, cache.store, cache.now, History(), id, cache.now + seconds * 1000);
      cache.Set(OtpKey(s), OtpRecord(id, row.otpHash, row.expiresAt), seconds);
    }

    /** Undoes a send: the cached OTP, the cooldown if it is still the call's own, and the row. */
    method TakeBack(s: Subject, id: string, token: string)
      requires Valid()
      modifies this`rows, cache`store
      ensures Valid() && rows == old(rows) - {id}
      ensures AgreeOutside(old(cache.store), cache.store, {OtpKey(s), AttemptsKey(s), CooldownKey(s)})
      ensures OtpKey(s) !in cache.store && AttemptsKey(s) !in cache.store
      ensures if old(HeldWith(cache.store, cache.now, CooldownKey(s), token)) then CooldownKey(s) !in cache.store
              else CooldownKey(s) in cache.store <==> CooldownKey(s) in old(cache.store)
      ensures CooldownKey(s) in cache.store ==> cache.store[CooldownKey(s)] == old(cache.store)[CooldownKey(s)]
    {
      DeleteOtpState(s);
      ReleaseLock(CooldownKey(s), token);
      OkRows(config.maxAttempts, cache.store, cache.now, History(), rows - {id});
      rows := rows - {id};
    }

    /** The subject's pending rows and its cached OTP make way for the new one. */
    method Renew(s: Subject, secret: string, newId: string)
      requires Valid() && newId !in issued
      modifies this`rows, this`issued, this`wrong, cache`store, cache`now
      ensures Valid() && cache.now >= old(cache.now)
      ensures issued == old(issued)[newId := s] && wrong == old(wrong)[newId := 0]
      ensures Pruned(old(rows), rows, s, newId)
      ensures Fresh(newId, s, Sha256(secret)) && Timed(newId, old(cache.now))
      ensures AgreeOutside(old(cache.store), cache.store, {OtpKey(s), AttemptsKey(s)})
    {
      Wait();
      DeleteUnverified(s);
      DeleteOtpState(s);
      Wait();
      Issue(s, secret, newId);
    }

    /** The part of sendOtp that is undone when handing over the message fails. */
    method SendUnderCooldown(s: Subject, secret: string, newId: string, token: string, published: bool)
      returns (r: Result<string, OtpError>)
      requires Valid() && newId !in issued
      requires CooldownKey(s) in cache.store && cache.store[CooldownKey(s)].value == Text(token)
      modifies this`rows, this`issued, this`wrong, cache`store, cache`now
      ensures Valid() && cache.now >= old(cache.now)
      ensures SendEffect(old(History()), History(), s, newId, r)
      ensures r == if published then Success(newId) else Failure(SendingFailed)
      ensures published ==> Fresh(newId, s, Sha256(secret)) && Timed(newId, old(cache.now))
      ensures AgreeOutside(old(cache.store), cache.store, {OtpKey(s), AttemptsKey(s), CooldownKey(s)})
      ensures published ==>
                CooldownKey(s) in cache.store && cache.store[CooldownKey(s)] == old(cache.store[CooldownKey(s)])
      ensures !published ==> !Live(cache.store, cache.now, CooldownKey(s)) && OtpKey(s) !in cache.store
    {
      Renew(s, secret, newId);
      Wait();
      if published {
        return Success(newId);
      }
      TakeBack(s, newId, token);
      return Failure(SendingFailed);
    }

    /**
     * Issues an OTP under the fresh id `newId`. `registered` says whether the account exists,
     * `published` whether the message could be handed over; a failed send is undone.
     */
    method SendOtp(s: Subject, registered: bool, secret: string, newId: string, token: string, published: bool)
      returns (r: Result<string, OtpError>)
      requires Valid() && newId !in issued
      modifies this`rows, this`issued, this`wrong, cache`store, cache`now
      ensures Valid()
      ensures SendEffect(old(History()), History(), s, newId, r)
      ensures Served(config.cooldownSeconds, old(Now()), SendCall(s, token, newId, r), Now())
      ensures r == if s.purpose == REGISTER && registered then Failure(AlreadyRegistered)
                   else if s.purpose == FORGOT_PASSWORD && !registered then Failure(UnknownAccount)
                   else if old(RecentlyIssued(s)) || old(Live(cache.store, cache.now, CooldownKey(s)))
                   then Failure(PleaseWait)
                   else if published then Success(newId) else Failure(SendingFailed)
      ensures r.Success? ==> Fresh(newId, s, Sha256(secret)) && Timed(newId, old(cache.now))
    {
      if s.purpose == REGISTER && registered {
        return Failure(AlreadyRegistered);
      }
      if s.purpose == FORGOT_PASSWORD && !registered {
        return Failure(UnknownAccount);
      }
      if RecentlyIssued(s) {
        return Failure(PleaseWait);
      }
      var acquired := AcquireLock(CooldownKey(s), token, config.cooldownSeconds);
      if !acquired {
        return Failure(PleaseWait);
      }
      r := SendUnderCooldown(s, secret, newId, token, published);
    }

    /** `id` has just been issued: cached, pending, the only pending row of its subject, no guess made. */
    ghost predicate Fresh(id: string, s: Subject, hash: Digest) reads this, cache {
      && id in rows && id in wrong && wrong[id] == 0
      && rows[id].subject == s && rows[id].otpHash == hash && !rows[id].verified
      && OtpKey(s) in cache.store && AttemptsKey(s) !in cache.store
      && cache.store[OtpKey(s)].value == OtpRecord(id, hash, rows[id].expiresAt)
      && cache.store[OtpKey(s)].until >= rows[id].expiresAt
      && forall i :: i in rows && rows[i].subject == s && !rows[i].verified ==> i == id
    }

    ghost function CachedFor(s: Subject): Option<Value> reads cache {
      if OtpKey(s) in cache.store then Some(cache.store[OtpKey(s)].value) else None
    }

    /** The cached OTP is over, even if its key is still there. */
    ghost predicate Expired(s: Subject) reads cache {
      CachedFor(s).Some? && CachedFor(s).value.OtpRecord? && CachedFor(s).value.expiresAt <= cache.now
    }

    /** Marks a pending row that has not expired as verified; says whether there was one. */
    method MarkVerifiedIfPending(id: string) returns (ok: bool)
      requires Valid()
      modifies this`rows
      ensures Valid()
      ensures ok <==> id in old(rows) && !old(rows)[id].verified && cache.now < old(rows)[id].expiresAt
      ensures rows == if ok then old(rows)[id := old(rows)[id].(verified := true)] else old(rows)
    {
      ok := id in rows && !rows[id].verified && cache.now < rows[id].expiresAt;
      if ok {
        OkRows(config.maxAttempts, cache.store, cache.now, History(), rows[id := rows[id].(verified := true)]);
        rows := rows[id := rows[id].(verified := true)];
      }
    }

    /**
     * A wrong guess: counted in the cache, and at the maximum the OTP is withdrawn. `counting` says
     * whether the increment works; if not, the guess has been hashed and is never counted.
     */
    method RejectGuess(s: Subject, counting: bool, reachable: bool) returns (e: OtpError)
      requires Valid() && OtpKey(s) in cache.store
      requires cache.store[OtpKey(s)].value.otpId in wrong
      requires cache.now < cache.store[OtpKey(s)].value.expiresAt ==>
                 wrong[cache.store[OtpKey(s)].value.otpId] < config.maxAttempts
      modifies this`wrong, cache`store, cache`now
      ensures Valid() && cache.now >= old(cache.now)
      ensures !counting ==> e == Unavailable && wrong == old(wrong) && cache.store == old(cache.store)
      ensures AgreeOutside(old(cache.store), cache.store, {OtpKey(s), AttemptsKey(s)})
      ensures e == InvalidOtp || e == AttemptsExceeded || e == Unavailable
      ensures counting ==> e != (if reachable then Unavailable else AttemptsExceeded)
      ensures e != AttemptsExceeded ==>
                OtpKey(s) in cache.store && cache.store[OtpKey(s)] == old(cache.store[OtpKey(s)])
      ensures counting ==>
              wrong == var id := old(cache.store[OtpKey(s)].value.otpId); old(wrong)[id := old(wrong)[id] + 1]
      ensures e == AttemptsExceeded ==> OtpKey(s) !in cache.store
      ensures var v := old(cache.store[OtpKey(s)].value);
              counting && old(cache.now) < v.expiresAt ==>
                  (e == InvalidOtp <==> old(wrong)[v.otpId] + 1 < config.maxAttempts)
    {
      var v := cache.store[OtpKey(s)].value;
      if !counting {
        return Unavailable;
      }
      if cache.now < v.expiresAt {
        CounterIsExact(config.maxAttempts, cache.store, cache.now, History(), s);
      }
      OkWrongGuess(config.maxAttempts, cache.store, cache.now, History(), s);
      wrong := wrong[v.otpId := wrong[v.otpId] + 1];
      var total := cache.IncrementWithExpiry(AttemptsKey(s), RemainingTtl(v.expiresAt, cache.now));
      Wait();
      if total < config.maxAttempts {
        return InvalidOtp;
      }
      e := Withdraw(s, AttemptsExceeded, reachable);
    }

    /** A right guess: it counts only if the row is still pending. */
    method AcceptGuess(s: Subject, id: string, reachable: bool) returns (r: Result<string, OtpError>)
      requires Valid()
      modifies this`rows, cache`store, cache`now
      ensures Valid() && cache.now >= old(cache.now)
      ensures r == Success(id) || r == Failure(if reachable then UsedOrExpired else Unavailable)
      ensures r.Success? <==> id in old(rows) && !old(rows)[id].verified && old(cache.now) < old(rows)[id].expiresAt
      ensures rows == if r.Success? then old(rows)[id := old(rows)[id].(verified := true)] else old(rows)
      ensures cache.store ==
              if reachable then old(cache.store) - {OtpKey(s), AttemptsKey(s)} else old(cache.store)
    {
      var marked := MarkVerifiedIfPending(id);
      Wait();
      var e := Withdraw(s, UsedOrExpired, reachable);
      return if marked then Success(id) else Failure(e);
    }

    /** A guess below the maximum is compared with the cached OTP. */
    method Compare(s: Subject, otp: string, counting: bool, reachable: bool) returns (r: Result<string, OtpError>)
      requires Valid() && OtpKey(s) in cache.store
      requires var v := cache.store[OtpKey(s)].value; cache.now < v.expiresAt ==> wrong[v.otpId] < config.maxAttempts
      modifies this`rows, this`wrong, cache`store, cache`now
      ensures Valid()
      ensures cache.now >= old(cache.now)
      ensures GuessEffect(config.maxAttempts, old(History()), old(CachedFor(s)), History(), s, otp, r, cache.now)
      ensures GuessDecided(config.maxAttempts, old(History()), old(CachedFor(s)), History(), otp, counting, r,
              cache.now)
      ensures AgreeOutside(old(cache.store), cache.store, {OtpKey(s), AttemptsKey(s)})
      ensures GuessReported(old(CachedFor(s)), cache.store, cache.now, s, otp, counting, reachable, r)
    {
      var v := cache.store[OtpKey(s)].value;
      assert CachedOk(config.maxAttempts, cache.store, cache.now, History(), s);
      if v.otpHash != Sha256(otp) {
        var e := RejectGuess(s, counting, reachable);
        return Failure(e);
      }
      r := AcceptGuess(s, v.otpId, reachable);
    }

    /**
     * The body of verifyOtp under its lock; `counting` says whether incrementing the attempts
     * works, `reachable` whether deleting the state does.
     */
    method VerifyLocked(s: Subject, otp: string, counting: bool, reachable: bool) returns (r: Result<string, OtpError>)
      requires Valid()
      modifies this`rows, this`wrong, cache`store, cache`now
      ensures Valid()
      ensures cache.now >= old(cache.now)
      ensures GuessEffect(config.maxAttempts, old(History()), old(CachedFor(s)), History(), s, otp, r, cache.now)
      ensures GuessDecided(config.maxAttempts, old(History()), old(CachedFor(s)), History(), otp, counting, r,
              cache.now)
      ensures old(CachedFor(s)) == None ==> r == Failure(NotFoundOrExpired)
      ensures old(Expired(s)) ==>
                && (r == Failure(NotFoundOrExpired) || (!reachable && r == Failure(Unavailable)))
                && History() == old(History())
      ensures AgreeOutside(old(cache.store), cache.store, {OtpKey(s), AttemptsKey(s)})
      ensures GuessReported(old(CachedFor(s)), cache.store, cache.now, s, otp, counting, reachable, r)
    {
      var record := cache.Get(OtpKey(s));
      if record.None? {
        return Failure(NotFoundOrExpired);
      }
      assert CachedOk(config.maxAttempts, cache.store, cache.now, History(), s);
      var expiresAt := record.value.expiresAt;
      if expiresAt <= cache.now {
        var e := Withdraw(s, NotFoundOrExpired, reachable);
        return Failure(e);
      }
      Wait();
      if cache.now < expiresAt {
        CounterIsExact(config.maxAttempts, cache.store, cache.now, History(), s);
      }
      var attempts := cache.Get(AttemptsKey(s));
      if (if attempts.Some? && attempts.value.Number? then attempts.value.n else 0) >= config.maxAttempts {
        var e := Withdraw(s, AttemptsExceeded, reachable);
        return Failure(e);
      }
      Wait();
      r := Compare(s, otp, counting, reachable);
    }

    /** The part of verifyOtp between taking the lock and its end: the body, and in any case the release. */
    method VerifyAndRelease(s: Subject, otp: string, token: string, counting: bool, reachable: bool)
      returns (r: Result<string, OtpError>)
      requires Valid()
      requires VerifyLockKey(s) in cache.store && cache.store[VerifyLockKey(s)].value == Text(token)
      modifies this`rows, this`wrong, cache`store, cache`now
      ensures Valid() && cache.now >= old(cache.now)
      ensures GuessEffect(config.maxAttempts, old(History()), old(CachedFor(s)), History(), s, otp, r, cache.now)
      ensures GuessDecided(config.maxAttempts, old(History()), old(CachedFor(s)), History(), otp, counting, r,
              cache.now)
      ensures GuessReported(old(CachedFor(s)), cache.store, cache.now, s, otp, counting, reachable, r)
      ensures old(Expired(s)) ==> r.Failure? && History() == old(History())
      ensures AgreeOutside(old(cache.store), cache.store, {OtpKey(s), AttemptsKey(s), VerifyLockKey(s)})
      ensures if reachable then !Live(cache.store, cache.now, VerifyLockKey(s))
              else VerifyLockKey(s) in cache.store &&
                   cache.store[VerifyLockKey(s)] == old(cache.store[VerifyLockKey(s)])
    {
      r := VerifyLocked(s, otp, counting, reachable);
      if reachable {
        ReleaseLock(VerifyLockKey(s), token);
      }
    }

    method VerifyOtp(s: Subject, otp: string, token: string, counting: bool, reachable: bool)
      returns (r: Result<string, OtpError>)
      requires Valid()
      modifies this`rows, this`wrong, cache`store, cache`now
      ensures Valid()
      ensures GuessEffect(config.maxAttempts, old(History()), old(CachedFor(s)), History(), s, otp, r, cache.now)
      ensures old(Live(cache.store, cache.now, VerifyLockKey(s))) ==>
              r == Failure(InProgress) && History() == old(History())
      ensures old(Expired(s)) ==> r.Failure? && History() == old(History())
      ensures !old(Live(cache.store, cache.now, VerifyLockKey(s))) ==>
                && GuessDecided(config.maxAttempts, old(History()), old(CachedFor(s)), History(), otp, counting, r,
                     cache.now)
                && GuessReported(old(CachedFor(s)), cache.store, cache.now, s, otp, counting, reachable, r)
      ensures Served(config.cooldownSeconds, old(Now()), VerifyCall(s, token, reachable, r), Now())
    {
      var acquired := AcquireLock(VerifyLockKey(s), token, 30);
      if !acquired {
        return Failure(InProgress);
      }
      Wait();
      r := VerifyAndRelease(s, otp, token, counting, reachable);
    }
  }
}
