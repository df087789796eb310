/**
 * The login limiter of AuthService: a fixed-window counter and a lock key per identifier,
 * and the same per address. Times are milliseconds. Redis rounds the remaining lifetime of a
 * lock to whole seconds, so the check no longer sees a lock in its last half second.
 */
module LoginLimiter {
  import opened Prelude
  import opened Redis
  import opened CacheServices

  /** The configured limits; values that are not positive integers are replaced by defaults before. */
  datatype Limits = Limits(maxAttempts: Positive, maxIpAttempts: Positive, windowSeconds: Positive,
          lockSeconds: Positive) {
    function Window(): Positive {
      1000 * windowSeconds
    }

    function Lock(): Positive {
      1000 * lockSeconds
    }
  }

  /** A login request as the limiter sees it: hashes of the normalised identifier and address. */
  datatype Source = Source(identifier: string, ip: Option<string>)

  datatype LoginError = TooManyRequests(seconds: int)

  datatype Key =
    | AttemptsOf(identifier: string)
    | LockOf(identifier: string)
    | IpAttemptsOf(ip: string)
    | IpLockOf(ip: string)

  /** The key as Redis sees it. */
  function KeyText(k: Key): string {
    match k
    case AttemptsOf(h) => "auth:login:attempts:identifier:" + h
    case LockOf(h) => "auth:login:lock:identifier:" + h
    case IpAttemptsOf(h) => "auth:login:attempts:ip:" + h
    case IpLockOf(h) => "auth:login:lock:ip:" + h
  }

  lemma KeyTextInjective(j: Key, k: Key)
    requires KeyText(j) == KeyText(k)
    ensures j == k
  {
    assert forall x: Key :: KeyText(x)[11] == if x.AttemptsOf? || x.IpAttemptsOf? then 'a' else 'l';
    assert j.AttemptsOf? || j.IpAttemptsOf? <==> k.AttemptsOf? || k.IpAttemptsOf?;
    if j.AttemptsOf? || j.IpAttemptsOf? {
      assert forall x: Key | x.AttemptsOf? || x.IpAttemptsOf? :: KeyText(x)[21] == if x.AttemptsOf? then 'd' else 'p';
      assert j.AttemptsOf? ==> KeyText(j)[31..] == j.identifier && KeyText(k)[31..] == k.identifier;
      assert j.IpAttemptsOf? ==> KeyText(j)[23..] == j.ip && KeyText(k)[23..] == k.ip;
    } else {
      assert forall x: Key | x.LockOf? || x.IpLockOf? :: KeyText(x)[17] == if x.LockOf? then 'd' else 'p';
      assert j.LockOf? ==> KeyText(j)[27..] == j.identifier && KeyText(k)[27..] == k.identifier;
      assert j.IpLockOf? ==> KeyText(j)[19..] == j.ip && KeyText(k)[19..] == k.ip;
    }
  }

  /** At least half a second is left of the lock; with less its remaining seconds round to zero. */
  predicate Seen(store: Store<Key>, now: int, lock: Key) {
    lock in store && now + 500 <= store[lock].until
  }

  /** The remaining lifetime of the lock, rounded to whole seconds. */
  ghost predicate Rounds(store: Store<Key>, now: int, lock: Key, seconds: int) {
    Live(store, now, lock) && 1000 * seconds - 500 <= store[lock].until - now < 1000 * seconds + 500
  }

  /**
   * One more failure on a counter: it opens a window or falls into the current one, and if it is
   * at least the `max`-th there, the lock is set unless it is set already.
   */
  ghost predicate OneMore(l: Limits, max: int, before: Store<Key>, after: Store<Key>, now: int, counter: Key, lock: Key)
  {
    && Count(after, now, counter) == Count(before, now, counter) + 1
    && counter in after
    && after[counter].until == (if Count(before, now, counter) == 0 then now + l.Window() else before[counter].until)
    && (if Count(before, now, counter) + 1 >= max && !Live(before, now, lock)
        then lock in after && after[lock] == Entry(Text("locked"), now + l.Lock())
        else (lock in after <==> lock in before) && (lock in after ==> after[lock] == before[lock]))
  }

  predicate Blocked(store: Store<Key>, now: int, s: Source) {
    Seen(store, now, LockOf(s.identifier)) || (s.ip.Some? && Seen(store, now, IpLockOf(s.ip.value)))
  }

  /** The counters after a failed login recorded at `now`. */
  function Counted(l: Limits, store: Store<Key>, now: int, s: Source): Store<Key> {
    var one := Incr(store, now, AttemptsOf(s.identifier), l.Window());
    if s.ip.None? then one else Incr(one, now, IpAttemptsOf(s.ip.value), l.Window())
  }

  predicate LocksIdentifier(l: Limits, store: Store<Key>, now: int, s: Source) {
    Count(store, now, AttemptsOf(s.identifier)) + 1 >= l.maxAttempts
  }

  predicate LocksIp(l: Limits, store: Store<Key>, now: int, s: Source) {
    s.ip.Some? && Count(store, now, IpAttemptsOf(s.ip.value)) + 1 >= l.maxIpAttempts
  }

  /** The store after a failure counted at `counted` whose locks are set at `locked`. */
  function Recorded(l: Limits, store: Store<Key>, counted: int, locked: int, s: Source): Store<Key> {
    var c := Counted(l, store, counted, s);
    var d := if LocksIdentifier(l, store, counted, s)
             then SetNx(c, locked, LockOf(s.identifier), Text("locked"), l.Lock()) else c;
    if LocksIp(l, store, counted, s)
    then SetNx(d, locked, IpLockOf(s.ip.value), Text("locked"), l.Lock()) else d
  }

  lemma RecordingCounts(l: Limits, store: Store<Key>, now: int, s: Source)
    ensures var after := Recorded(l, store, now, now, s);
            && OneMore(l, l.maxAttempts, store, after, now, AttemptsOf(s.identifier), LockOf(s.identifier))
            && (s.ip.Some? ==>
                  OneMore(l, l.maxIpAttempts, store, after, now, IpAttemptsOf(s.ip.value), IpLockOf(s.ip.value)))
  {
  }

  class AuthService {
    const cache: CacheService<Key>
    const limits: Limits

    ghost predicate Valid() {
      cache.ticksPerSecond == 1000
    }

    constructor (cache: CacheService<Key>, limits: Limits)
      requires cache.ticksPerSecond == 1000
      ensures Valid() && this.cache == cache && this.limits == limits
    {
      this.cache, this.limits := cache, limits;
    }

    method CheckLoginRateLimit(s: Source) returns (r: Result<(), LoginError>)
      requires Valid()
      ensures r.Failure? <==> Blocked(cache.store, cache.now, s)
      ensures r.Failure? ==> r.error.seconds >= 1
      ensures r.Failure? ==>
                && (Rounds(cache.store, cache.now, LockOf(s.identifier), r.error.seconds) ||
                    (s.ip.Some? && Rounds(cache.store, cache.now, IpLockOf(s.ip.value), r.error.seconds)))
                && (forall k | (k == LockOf(s.identifier) || (s.ip.Some? && k == IpLockOf(s.ip.value))) &&
                         Live(cache.store, cache.now, k) ::
                      cache.store[k].until - cache.now < 1000 * r.error.seconds + 500)
    {
      var identifierTtl := cache.Ttl(LockOf(s.identifier));
      var ipTtl := -2;
      if s.ip.Some? {
        ipTtl := cache.Ttl(IpLockOf(s.ip.value));
      }
      if identifierTtl > 0 || ipTtl > 0 {
        return Failure(TooManyRequests(if identifierTtl > ipTtl then identifierTtl else ipTtl));
      }
      if identifierTtl == -1 || ipTtl == -1 {
        return Failure(TooManyRequests(limits.lockSeconds));
      }
      return Success(());
    }

    method RecordFailedLoginAttempt(s: Source) returns (r: Result<(), LoginError>)
      requires Valid()
      modifies cache`store
      ensures cache.store == Recorded(limits, old(cache.store), cache.now, cache.now, s)
      ensures r.Failure? <==>
              || Count(old(cache.store), cache.now, AttemptsOf(s.identifier)) + 1 >= limits.maxAttempts
              || (s.ip.Some? &&
                  Count(old(cache.store), cache.now, IpAttemptsOf(s.ip.value)) + 1 >= limits.maxIpAttempts)
      ensures r.Failure? ==> r.error.seconds == limits.lockSeconds
      ensures OneMore(limits, limits.maxAttempts, old(cache.store), cache.store, cache.now, AttemptsOf(s.identifier),
              LockOf(s.identifier))
      ensures s.ip.Some? ==>
                OneMore(limits, limits.maxIpAttempts, old(cache.store), cache.store, cache.now,
                    IpAttemptsOf(s.ip.value), IpLockOf(s.ip.value))
    {
      RecordingCounts(limits, cache.store, cache.now, s);
      var attempts := cache.IncrementWithExpiry(AttemptsOf(s.identifier), limits.windowSeconds);
      var ipAttempts := 0;
      if s.ip.Some? {
        ipAttempts := cache.IncrementWithExpiry(IpAttemptsOf(s.ip.value), limits.windowSeconds);
      }
      var lockIdentifier := attempts >= limits.maxAttempts;
      var lockIp := s.ip.Some? && ipAttempts >= limits.maxIpAttempts;
      if !lockIdentifier && !lockIp {
        return Success(());
      }
      if lockIdentifier {
        var _ := cache.SetIfNotExists(LockOf(s.identifier), Text("locked"), limits.lockSeconds);
      }
      if lockIp {
        var _ := cache.SetIfNotExists(IpLockOf(s.ip.value), Text("locked"), limits.lockSeconds);
      }
      return Failure(TooManyRequests(limits.lockSeconds));
    }

    method ClearLoginAttempts(s: Source)
      requires Valid()
      modifies cache`store
      ensures cache.store == old(cache.store) - {AttemptsOf(s.identifier), LockOf(s.identifier)}
      ensures Count(cache.store, cache.now, AttemptsOf(s.identifier)) == 0
    {
      cache.Del({AttemptsOf(s.identifier), LockOf(s.identifier)});
    }
  }

  // ---------------------------------------------------------------- whole runs

  /** How a login ends once it got past the limiter. */
  datatype Outcome = Failed | Succeeded | Refused

  /** One login: when it asked the limiter, when it counted or cleared, when it set locks. */
  datatype Login = Login(source: Source, outcome: Outcome, checked: int, counted: int, locked: int)

  /** A recorded failure of an identifier or an address; `unseen` if it was counted while the lock of that lasted. */
  datatype FailedLogin = FailedLogin(subject: string, at: int, unseen: bool)

  /** `failures` are recorded by identifier, `fromAddresses` by address. */
  datatype State = State(store: Store<Key>, now: int, failures: seq<FailedLogin>, fromAddresses: seq<FailedLogin>)

  function FailureOf(st: State, e: Login): FailedLogin {
    FailedLogin(e.source.identifier, e.counted, Live(st.store, e.counted, LockOf(e.source.identifier)))
  }

  function AddressFailuresOf(st: State, e: Login): seq<FailedLogin> {
    if e.source.ip.None? then []
    else [FailedLogin(e.source.ip.value, e.counted, Live(st.store, e.counted, IpLockOf(e.source.ip.value)))]
  }

  /** Logins follow one another; each step of one happens no earlier than the step before it. */
  function Next(l: Limits, st: State, e: Login): State {
    if !(st.now <= e.checked <= e.counted <= e.locked) then st
    else if Blocked(st.store, e.checked, e.source) then st.(now := e.locked)
    else match e.outcome
      case Failed => State(Recorded(l, st.store, e.counted, e.locked, e.source), e.locked,
                           st.failures + [FailureOf(st, e)], st.fromAddresses + AddressFailuresOf(st, e))
      case Succeeded => State(st.store - {AttemptsOf(e.source.identifier), LockOf(e.source.identifier)},
                              e.locked, st.failures, st.fromAddresses)
      case Refused => st.(now := e.locked)
  }

  function Run(l: Limits, st: State, logins: seq<Login>): State
    decreases |logins|
  {
    if logins == [] then st else Run(l, Next(l, st, logins[0]), logins[1..])
  }

  /** The failures of an identifier or address recorded in the half-open interval from `from` to `to`, unseen or not. */
  function FailuresIn(failures: seq<FailedLogin>, id: string, from: int, to: int, unseen: bool): nat {
    if failures == [] then 0
    else FailuresIn(failures[..|failures| - 1], id, from, to, unseen) +
         if Falls(failures[|failures| - 1], id, from, to, unseen) then 1 else 0
  }

  predicate Falls(f: FailedLogin, id: string, from: int, to: int, unseen: bool) {
    f.subject == id && from <= f.at < to && f.unseen == unseen
  }

  /** Two windows of max - 1 and max failures, less the one that opened the first window before the interval. */
  function MostFailures(l: Limits): nat {
    if l.maxAttempts == 1 then 1 else 2 * l.maxAttempts - 2
  }

  /** What the store says about one identifier: its counter (0 if none), its expiry, its lock. */
  datatype View = View(n: int, until: int, lockedUntil: Option<int>)

  function ViewOf(store: Store<Key>, id: string): View {
    var key, lock := AttemptsOf(id), LockOf(id);
    View(if key in store && store[key].value.Number? then store[key].value.n else 0,
         if key in store then store[key].until else 0,
         if lock in store then Some(store[lock].until) else None)
  }

  /**
   * What is known about an identifier when `c` failures of the interval are recorded that are
   * not unseen: none yet; or the window that counted them was opened before the interval and ends in it; or
   * the current window lasts to its end and at most max - 2 were counted before; or the lock
   * lasts to its end; or the interval is over. A lock that lasts was set before the first of
   * these failures, or lasts to the end of the interval.
   */
  predicate Bounded(l: Limits, v: View, now: int, c: int, from: int, to: int) {
    && v.n >= 0
    && (now < from ==> c == 0)
    && c <= MostFailures(l)
    && (c > 0 && v.lockedUntil.Some? && now < v.lockedUntil.value ==> v.lockedUntil.value >= to)
    && (|| c == 0
        || (1 <= v.n < l.maxAttempts && v.until < to && c <= v.n - 1)
        || (1 <= v.n < l.maxAttempts && v.until >= to && (c <= v.n || c <= l.maxAttempts - 2 + v.n))
        || (v.lockedUntil.Some? && v.lockedUntil.value >= to)
        || now >= to)
  }

  ghost predicate StateBounded(l: Limits, st: State, id: string, from: int, to: int) {
    Bounded(l, ViewOf(st.store, id), st.now, FailuresIn(st.failures, id, from, to, false), from, to)
  }

  predicate Lasts(v: View, now: int) {
    v.lockedUntil.Some? && now < v.lockedUntil.value
  }

  /** The identifier's view after a failure of its own. */
  function Failing(l: Limits, v: View, counted: int, locked: int): View {
    var n := (if v.n >= 1 && counted < v.until then v.n else 0) + 1;
    View(n, if n == 1 then counted + l.Window() else v.until,
         if n >= l.maxAttempts && !Lasts(v, locked) then Some(locked + l.Lock()) else v.lockedUntil)
  }

  lemma FailingKeepsBounded(l: Limits, v: View, now: int, c: nat, from: int, to: int, counted: int, locked: int)
    requires from <= to <= from + l.Window() && to <= from + l.Lock()
    requires now <= counted <= locked && Bounded(l, v, now, c, from, to)
    ensures Bounded(l, Failing(l, v, counted, locked), locked,
                    c + if from <= counted < to && !Lasts(v, counted) then 1 else 0, from, to)
  {
  }

  /** Nobody logs in successfully as `id` inside the interval. */
  predicate NoSuccess(e: Login, id: string, from: int, to: int) {
    e.source.identifier == id && e.outcome == Succeeded ==> !(from <= e.counted < to)
  }

  lemma FailuresAppend(failures: seq<FailedLogin>, f: FailedLogin, id: string, from: int, to: int, unseen: bool)
    ensures FailuresIn(failures + [f], id, from, to, unseen) ==
            FailuresIn(failures, id, from, to, unseen) + if Falls(f, id, from, to, unseen) then 1 else 0
  {
    assert (failures + [f])[..|failures|] == failures;
  }

  predicate Recording(st: State, e: Login) {
    st.now <= e.checked <= e.counted <= e.locked && !Blocked(st.store, e.checked, e.source)
  }

  /** A login of another identifier leaves this identifier's counter and lock alone. */
  lemma OtherIdentifier(l: Limits, st: State, e: Login, id: string)
    requires e.source.identifier != id
    ensures ViewOf(Next(l, st, e).store, id) == ViewOf(st.store, id)
  {
  }

  /** A failed login: its counter goes up by one, and at the maximum the lock is set. */
  lemma OwnFailure(l: Limits, st: State, e: Login)
    requires Recording(st, e) && e.outcome == Failed && ViewOf(st.store, e.source.identifier).n >= 0
    ensures ViewOf(Next(l, st, e).store, e.source.identifier) ==
            Failing(l, ViewOf(st.store, e.source.identifier), e.counted, e.locked)
  {
  }

  lemma FailureKeepsBounded(l: Limits, st: State, e: Login, id: string, from: int, to: int)
    requires from <= to <= from + l.Window() && to <= from + l.Lock()
    requires Recording(st, e) && e.outcome == Failed && StateBounded(l, st, id, from, to)
    ensures StateBounded(l, Next(l, st, e), id, from, to)
  {
    FailuresAppend(st.failures, FailureOf(st, e), id, from, to, false);
    if e.source.identifier == id {
      OwnFailure(l, st, e);
      FailingKeepsBounded(l, ViewOf(st.store, id), st.now, FailuresIn(st.failures, id, from, to, false),
                          from, to, e.counted, e.locked);
    } else {
      OtherIdentifier(l, st, e, id);
    }
  }

  lemma SuccessKeepsBounded(l: Limits, st: State, e: Login, id: string, from: int, to: int)
    requires Recording(st, e) && e.outcome == Succeeded && NoSuccess(e, id, from, to) &&
             StateBounded(l, st, id, from, to)
    ensures StateBounded(l, Next(l, st, e), id, from, to)
  {
    if e.source.identifier == id {
      assert ViewOf(Next(l, st, e).store, id) == View(0, 0, None);
    } else {
      OtherIdentifier(l, st, e, id);
    }
  }

  lemma NextKeepsBounded(l: Limits, st: State, e: Login, id: string, from: int, to: int)
    requires from <= to <= from + l.Window() && to <= from + l.Lock()
    requires NoSuccess(e, id, from, to) && StateBounded(l, st, id, from, to)
    ensures StateBounded(l, Next(l, st, e), id, from, to)
  {
    if Recording(st, e) && e.outcome == Failed {
      FailureKeepsBounded(l, st, e, id, from, to);
    } else if Recording(st, e) && e.outcome == Succeeded {
      SuccessKeepsBounded(l, st, e, id, from, to);
    }
  }

  lemma {:induction false} RunKeepsBounded(l: Limits, st: State, logins: seq<Login>, id: string, from: int, to: int)
    requires from <= to <= from + l.Window() && to <= from + l.Lock()
    requires forall e :: e in logins ==> NoSuccess(e, id, from, to)
    requires StateBounded(l, st, id, from, to)
    ensures StateBounded(l, Run(l, st, logins), id, from, to)
    decreases |logins|
  {
    if logins != [] {
      NextKeepsBounded(l, st, logins[0], id, from, to);
      RunKeepsBounded(l, Next(l, st, logins[0]), logins[1..], id, from, to);
    }
  }

  /**
   * An interval no longer than the attempt window and the lock time, in which nobody logs in
   * successfully as the identifier, holds at most 2 * max - 2 recorded failures of it (one if
   * max is one) besides those that fall into the last half second of its lock, whatever else
   * happens before, in between and for other identifiers.
   */
  lemma FailureBound(l: Limits, start: int, logins: seq<Login>, id: string, from: int, to: int)
    requires from <= to <= from + l.Window() && to <= from + l.Lock()
    requires forall e :: e in logins ==> NoSuccess(e, id, from, to)
    ensures FailuresIn(Run(l, State(map[], start, [], []), logins).failures, id, from, to, false) <= MostFailures(l)
  {
    RunKeepsBounded(l, State(map[], start, [], []), logins, id, from, to);
  }

  /** A failure is unseen only in the last half second of its identifier's lock: otherwise the check refuses it. */
  lemma UnseenOnlyAtTheEnd(l: Limits, st: State, e: Login)
    requires Recording(st, e) && e.outcome == Failed
    ensures Next(l, st, e).failures == st.failures + [FailureOf(st, e)]
    ensures FailureOf(st, e).unseen <==>
            LockOf(e.source.identifier) in st.store &&
                e.counted < st.store[LockOf(e.source.identifier)].until < e.checked + 500
  {
  }

  // ---------------------------------------------------------------- the bound is attained

  function FailureAt(s: Source, t: int): Login {
    Login(s, Failed, t, t, t)
  }

  /** `n` failed logins at one moment. */
  function Burst(s: Source, t: int, n: nat): seq<Login> {
    if n == 0 then [] else [FailureAt(s, t)] + Burst(s, t, n - 1)
  }

  lemma {:induction false} RunAppend(l: Limits, st: State, xs: seq<Login>, ys: seq<Login>)
    ensures Run(l, st, xs + ys) == Run(l, Run(l, st, xs), ys)
    decreases |xs|
  {
    if xs == [] {
      assert xs + ys == ys;
    } else {
      assert (xs + ys)[1..] == xs[1..] + ys;
      RunAppend(l, Next(l, st, xs[0]), xs[1..], ys);
    }
  }

  lemma RunOne(l: Limits, st: State, e: Login)
    ensures Run(l, st, [e]) == Next(l, st, e)
  {
    assert [e][1..] == [];
    assert Run(l, Next(l, st, e), []) == Next(l, st, e);
  }

  /** A failure of an identifier without a lock. */
  lemma FailureRecorded(l: Limits, st: State, s: Source, t: int, from: int, to: int)
    requires s.ip == None && st.now <= t
    requires var v := ViewOf(st.store, s.identifier); v.n >= 0 && v.lockedUntil == None
    ensures var u := Run(l, st, [FailureAt(s, t)]);
            && u.now == t && ViewOf(u.store, s.identifier) == Failing(l, ViewOf(st.store, s.identifier), t, t)
            && FailuresIn(u.failures, s.identifier, from, to, false) ==
               FailuresIn(st.failures, s.identifier, from, to, false) + if from <= t < to then 1 else 0
  {
    OwnFailure(l, st, FailureAt(s, t));
    FailuresAppend(st.failures, FailureOf(st, FailureAt(s, t)), s.identifier, from, to, false);
    RunOne(l, st, FailureAt(s, t));
  }

  /** While the counter stays below the maximum every failure of a burst is recorded. */
  lemma {:induction false} BurstIsRecorded(l: Limits, st: State, s: Source, t: int, n: nat, k: int, until: int,
                                           from: int, to: int)
    requires s.ip == None && k >= 1 && k + n < l.maxAttempts && st.now <= t < until
    requires ViewOf(st.store, s.identifier) == View(k, until, None)
    ensures var u := Run(l, st, Burst(s, t, n));
            && u.now <= t && ViewOf(u.store, s.identifier) == View(k + n, until, None)
            && FailuresIn(u.failures, s.identifier, from, to, false) ==
               FailuresIn(st.failures, s.identifier, from, to, false) + if from <= t < to then n else 0
    decreases n
  {
    if n > 0 {
      FailureRecorded(l, st, s, t, from, to);
      BurstIsRecorded(l, Run(l, st, [FailureAt(s, t)]), s, t, n - 1, k + 1, until, from, to);
      RunAppend(l, st, [FailureAt(s, t)], Burst(s, t, n - 1));
    }
  }

  function Phase(l: Limits, s: Source, t: int, u: int): seq<Login>
    requires l.maxAttempts >= 2
  {
    [FailureAt(s, t)] + Burst(s, u, l.maxAttempts - 2)
  }

  /** A failure opens a window at `t`; max - 2 more at `u` leave it one short of the lock. */
  lemma AlmostFull(l: Limits, st: State, s: Source, t: int, u: int, from: int, to: int)
    requires s.ip == None && l.maxAttempts >= 2 && st.now <= t <= u < t + l.Window()
    requires var v := ViewOf(st.store, s.identifier); v.n >= 0 && (v.n >= 1 ==> v.until <= t) && v.lockedUntil == None
    ensures var v := Run(l, st, Phase(l, s, t, u));
            && v.now <= u && ViewOf(v.store, s.identifier) == View(l.maxAttempts - 1, t + l.Window(), None)
            && FailuresIn(v.failures, s.identifier, from, to, false) ==
               FailuresIn(st.failures, s.identifier, from, to, false) +
               (if from <= t < to then 1 else 0) + (if from <= u < to then l.maxAttempts - 2 else 0)
  {
    FailureRecorded(l, st, s, t, from, to);
    RunAppend(l, st, [FailureAt(s, t)], Burst(s, u, l.maxAttempts - 2));
    BurstIsRecorded(l, Run(l, st, [FailureAt(s, t)]), s, u, l.maxAttempts - 2, 1, t + l.Window(), from, to);
  }

  /** The maximum of failures at one moment. */
  function LockingRun(l: Limits, s: Source, t: int): seq<Login> {
    (if l.maxAttempts == 1 then [] else Phase(l, s, t, t)) + [FailureAt(s, t)]
  }

  lemma LockingRunLocks(l: Limits, st: State, s: Source, t: int, from: int, to: int)
    requires s.ip == None && st.now <= t
    requires var v := ViewOf(st.store, s.identifier); v.n >= 0 && (v.n >= 1 ==> v.until <= t) && v.lockedUntil == None
    ensures var u := Run(l, st, LockingRun(l, s, t));
            && u.now == t && ViewOf(u.store, s.identifier).n >= 0
            && ViewOf(u.store, s.identifier).lockedUntil == Some(t + l.Lock())
            && FailuresIn(u.failures, s.identifier, from, to, false) ==
               FailuresIn(st.failures, s.identifier, from, to, false) + if from <= t < to then l.maxAttempts else 0
  {
    if l.maxAttempts == 1 {
      assert LockingRun(l, s, t) == [FailureAt(s, t)];
      FailureRecorded(l, st, s, t, from, to);
    } else {
      AlmostFull(l, st, s, t, t, from, to);
      FailureRecorded(l, Run(l, st, Phase(l, s, t, t)), s, t, from, to);
      RunAppend(l, st, Phase(l, s, t, t), [FailureAt(s, t)]);
    }
  }

  ghost predicate AllFail(logins: seq<Login>) {
    forall i :: 0 <= i < |logins| ==> logins[i].outcome == Failed
  }

  lemma {:induction false} BurstFails(s: Source, t: int, n: nat)
    ensures AllFail(Burst(s, t, n))
  {
    if n > 0 {
      BurstFails(s, t, n - 1);
    }
  }

  lemma AppendFails(xs: seq<Login>, ys: seq<Login>)
    requires AllFail(xs) && AllFail(ys)
    ensures AllFail(xs + ys)
  {
  }

  lemma PhaseFails(l: Limits, s: Source, t: int, u: int)
    requires l.maxAttempts >= 2
    ensures AllFail(Phase(l, s, t, u))
  {
    BurstFails(s, u, l.maxAttempts - 2);
    AppendFails([FailureAt(s, t)], Burst(s, u, l.maxAttempts - 2));
  }

  lemma LockingRunFails(l: Limits, s: Source, t: int)
    ensures AllFail(LockingRun(l, s, t))
  {
    if l.maxAttempts > 1 {
      PhaseFails(l, s, t, t);
      AppendFails(Phase(l, s, t, t), [FailureAt(s, t)]);
    } else {
      AppendFails([], [FailureAt(s, t)]);
    }
  }

  /** One almost full window. */
  lemma FillOne(l: Limits, st: State, s: Source, t: int, u: int, from: int, to: int) returns (logins: seq<Login>)
    requires s.ip == None && l.maxAttempts >= 2 && st.now <= t <= u < t + l.Window() && t < from <= u < to
    requires var v := ViewOf(st.store, s.identifier); v.n >= 0 && (v.n >= 1 ==> v.until <= t) && v.lockedUntil == None
    ensures AllFail(logins)
    ensures var v := Run(l, st, logins);
            && v.now <= u && ViewOf(v.store, s.identifier) == View(l.maxAttempts - 1, t + l.Window(), None)
            && FailuresIn(v.failures, s.identifier, from, to, false) ==
               FailuresIn(st.failures, s.identifier, from, to, false) + l.maxAttempts - 2
  {
    logins := Phase(l, s, t, u);
    PhaseFails(l, s, t, u);
    AlmostFull(l, st, s, t, u, from, to);
  }

  /** A run that leaves the window over or empty, and then the maximum of failures. */
  lemma FillNext(l: Limits, st: State, s: Source, first: seq<Login>, t: int, from: int, to: int)
    returns (logins: seq<Login>)
    requires s.ip == None && AllFail(first) && Run(l, st, first).now <= t && from <= t < to
    requires var v := ViewOf(Run(l, st, first).store, s.identifier);
             v.n >= 0 && (v.n >= 1 ==> v.until <= t) && v.lockedUntil == None
    ensures AllFail(logins)
    ensures FailuresIn(Run(l, st, logins).failures, s.identifier, from, to, false) ==
            FailuresIn(Run(l, st, first).failures, s.identifier, from, to, false) + l.maxAttempts
  {
    var second := LockingRun(l, s, t);
    LockingRunFails(l, s, t);
    AppendFails(first, second);
    LockingRunLocks(l, Run(l, st, first), s, t, from, to);
    RunAppend(l, st, first, second);
    logins := first + second;
  }

  lemma FillBoth(l: Limits, start: State, id: string, w: int) returns (logins: seq<Login>)
    requires start == State(map[], 0, [], []) && w == l.Window()
    ensures AllFail(logins)
    ensures FailuresIn(Run(l, start, logins).failures, id, w - 1, w + 1, false) == MostFailures(l)
  {
    var s := Source(id, None);
    var first: seq<Login> := [];
    if l.maxAttempts >= 2 {
      first := FillOne(l, start, s, 0, w - 1, w - 1, w + 1);
    }
    logins := FillNext(l, start, s, first, w, w - 1, w + 1);
  }

  /**
   * For every configuration, a run of failed logins only records the full 2 * max - 2 (one if
   * max is one) within two milliseconds, none of them unseen.
   */
  lemma BoundIsAttained(l: Limits, id: string) returns (logins: seq<Login>)
    ensures AllFail(logins)
    ensures FailuresIn(Run(l, State(map[], 0, [], []), logins).failures, id, l.Window() - 1, l.Window() + 1, false) ==
            if l.maxAttempts == 1 then 1 else 2 * l.maxAttempts - 2
  {
    logins := FillBoth(l, State(map[], 0, [], []), id, l.Window());
  }

  // ---------------------------------------------------------------- the last half second of a lock

  lemma {:induction false} NoneBefore(failures: seq<FailedLogin>, id: string, from: int, to: int, unseen: bool)
    requires forall f :: f in failures ==> f.at < from
    ensures FailuresIn(failures, id, from, to, unseen) == 0
    decreases |failures|
  {
    if failures != [] {
      NoneBefore(failures[..|failures| - 1], id, from, to, unseen);
    }
  }

  /** What a run has recorded lies in its past. */
  lemma {:induction false} NothingYet(l: Limits, st: State, logins: seq<Login>, id: string, from: int, to: int,
          unseen: bool)
    requires (forall f :: f in st.failures ==> f.at <= st.now) && Run(l, st, logins).now < from
    ensures FailuresIn(Run(l, st, logins).failures, id, from, to, unseen) == 0
    decreases |logins|
  {
    if logins == [] {
      NoneBefore(st.failures, id, from, to, unseen);
    } else {
      NothingYet(l, Next(l, st, logins[0]), logins[1..], id, from, to, unseen);
    }
  }

  lemma {:induction false} BurstIsUnseen(l: Limits, st: State, s: Source, t: int, n: nat, from: int, to: int)
    requires s.ip == None && st.now <= t && from <= t < to
    requires var v := ViewOf(st.store, s.identifier);
             v.n >= 0 && v.lockedUntil.Some? && t < v.lockedUntil.value < t + 500
    ensures FailuresIn(Run(l, st, Burst(s, t, n)).failures, s.identifier, from, to, true) ==
            FailuresIn(st.failures, s.identifier, from, to, true) + n
    decreases n
  {
    if n > 0 {
      OwnFailure(l, st, FailureAt(s, t));
      FailuresAppend(st.failures, FailureOf(st, FailureAt(s, t)), s.identifier, from, to, true);
      RunOne(l, st, FailureAt(s, t));
      BurstIsUnseen(l, Next(l, st, FailureAt(s, t)), s, t, n - 1, from, to);
      RunAppend(l, st, [FailureAt(s, t)], Burst(s, t, n - 1));
    }
  }

  lemma BurstAtTheEnd(l: Limits, s: Source, end: int, n: nat)
    requires s.ip == None && end == l.Lock()
    ensures FailuresIn(Run(l, State(map[], 0, [], []), LockingRun(l, s, 0) + Burst(s, end - 1, n)).failures,
                       s.identifier, end - 1, end, true) == n
  {
    var st := State(map[], 0, [], []);
    LockingRunLocks(l, st, s, 0, end - 1, end);
    NothingYet(l, st, LockingRun(l, s, 0), s.identifier, end - 1, end, true);
    BurstIsUnseen(l, Run(l, st, LockingRun(l, s, 0)), s, end - 1, n, end - 1, end);
    RunAppend(l, st, LockingRun(l, s, 0), Burst(s, end - 1, n));
  }

  /**
   * There the limiter does not limit: for every configuration and every n, a run of failed logins
   * only records n failures within one millisecond.
   */
  lemma UnseenFailuresAreUnlimited(l: Limits, id: string, n: nat) returns (logins: seq<Login>)
    ensures AllFail(logins)
    ensures FailuresIn(Run(l, State(map[], 0, [], []), logins).failures, id, l.Lock() - 1, l.Lock(), true) == n
  {
    var s, end := Source(id, None), l.Lock();
    logins := LockingRun(l, s, 0) + Burst(s, end - 1, n);
    LockingRunFails(l, s, 0);
    BurstFails(s, end - 1, n);
    AppendFails(LockingRun(l, s, 0), Burst(s, end - 1, n));
    BurstAtTheEnd(l, s, end, n);
  }
}
