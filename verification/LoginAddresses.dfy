/**
 * The address half of the login limiter over whole runs: an address has a counter and a lock of
 * its own, with a limit of its own, and no successful login resets them.
 */
module LoginAddresses {
  import opened Prelude
  import opened Redis
  import opened LoginLimiter

  /** The limits of an address in the shape of those of an identifier. */
  function ForAddresses(l: Limits): Limits {
    l.(maxAttempts := l.maxIpAttempts)
  }

  function AddressView(store: Store<Key>, ip: string): View {
    var key, lock := IpAttemptsOf(ip), IpLockOf(ip);
    View(if key in store && store[key].value.Number? then store[key].value.n else 0,
         if key in store then store[key].until else 0,
         if lock in store then Some(store[lock].until) else None)
  }

  /** The login is recorded as a failure from the address. */
  predicate FailsFrom(st: State, e: Login, ip: string) {
    Recording(st, e) && e.outcome == Failed && e.source.ip == Some(ip)
  }

  function AddressFailureOf(st: State, e: Login, ip: string): FailedLogin {
    FailedLogin(ip, e.counted, Live(st.store, e.counted, IpLockOf(ip)))
  }

  // ---------------------------------------------------------------- one login, seen from one address

  lemma AddressFailure(l: Limits, st: State, e: Login, ip: string)
    requires FailsFrom(st, e, ip) && AddressView(st.store, ip).n >= 0
    ensures AddressView(Next(l, st, e).store, ip) ==
            Failing(ForAddresses(l), AddressView(st.store, ip), e.counted, e.locked)
    ensures Next(l, st, e).fromAddresses == st.fromAddresses + [AddressFailureOf(st, e, ip)]
  {
  }

  /** Other logins, among them the successful ones from the address, leave its counter and lock alone. */
  lemma AddressUntouched(l: Limits, st: State, e: Login, ip: string)
    requires !FailsFrom(st, e, ip)
    ensures AddressView(Next(l, st, e).store, ip) == AddressView(st.store, ip)
  {
  }

  /** Nor do they add to its failures. */
  lemma OtherFailures(l: Limits, st: State, e: Login, ip: string)
    requires !FailsFrom(st, e, ip)
    ensures OthersAppended(st.fromAddresses, Next(l, st, e).fromAddresses, ip)
  {
    var t := Next(l, st, e).fromAddresses;
    assert t != st.fromAddresses ==> t == st.fromAddresses + [AddressFailureOf(st, e, e.source.ip.value)];
  }

  /** At most one failure was appended, and not one of this address. */
  ghost predicate OthersAppended(a: seq<FailedLogin>, b: seq<FailedLogin>, ip: string) {
    b == a || (|b| == |a| + 1 && b == a + [b[|a|]] && b[|a|].subject != ip)
  }

  lemma OthersDoNotCount(l: Limits, st: State, e: Login, ip: string, from: int, to: int, unseen: bool)
    requires !FailsFrom(st, e, ip)
    ensures FailuresIn(Next(l, st, e).fromAddresses, ip, from, to, unseen) ==
            FailuresIn(st.fromAddresses, ip, from, to, unseen)
  {
    var a, b := st.fromAddresses, Next(l, st, e).fromAddresses;
    OtherFailures(l, st, e, ip);
    if b != a {
      FailuresAppend(a, b[|a|], ip, from, to, unseen);
    }
  }

  // ---------------------------------------------------------------- the bound

  ghost predicate AddressBounded(l: Limits, st: State, ip: string, from: int, to: int) {
    Bounded(ForAddresses(l), AddressView(st.store, ip), st.now, FailuresIn(st.fromAddresses, ip, from, to, false),
            from, to)
  }

  lemma NextKeepsAddressBounded(l: Limits, st: State, e: Login, ip: string, from: int, to: int)
    requires from <= to <= from + l.Window() && to <= from + l.Lock() && AddressBounded(l, st, ip, from, to)
    ensures AddressBounded(l, Next(l, st, e), ip, from, to)
  {
    if FailsFrom(st, e, ip) {
      AddressFailure(l, st, e, ip);
      FailuresAppend(st.fromAddresses, AddressFailureOf(st, e, ip), ip, from, to, false);
      FailingKeepsBounded(ForAddresses(l), AddressView(st.store, ip), st.now,
                          FailuresIn(st.fromAddresses, ip, from, to, false), from, to, e.counted, e.locked);
    } else {
      AddressUntouched(l, st, e, ip);
      OthersDoNotCount(l, st, e, ip, from, to, false);
    }
  }

  lemma {:induction false} RunKeepsAddressBounded(l: Limits, st: State, logins: seq<Login>, ip: string, from: int,
          to: int)
    requires from <= to <= from + l.Window() && to <= from + l.Lock() && AddressBounded(l, st, ip, from, to)
    ensures AddressBounded(l, Run(l, st, logins), ip, from, to)
    decreases |logins|
  {
    if logins != [] {
      NextKeepsAddressBounded(l, st, logins[0], ip, from, to);
      RunKeepsAddressBounded(l, Next(l, st, logins[0]), logins[1..], ip, from, to);
    }
  }

  /**
   * An interval no longer than the attempt window and the lock time holds at most
   * 2 * maxIp - 2 recorded failures from an address (one if that maximum is one) besides those
   * that fall into the last half second of the address's lock, for whatever identifiers they are
   * and whoever logs in successfully in between.
   */
  lemma AddressFailureBound(l: Limits, start: int, logins: seq<Login>, ip: string, from: int, to: int)
    requires from <= to <= from + l.Window() && to <= from + l.Lock()
    ensures var n := FailuresIn(Run(l, State(map[], start, [], []), logins).fromAddresses, ip, from, to, false);
            n <= if l.maxIpAttempts == 1 then 1 else 2 * l.maxIpAttempts - 2
  {
    RunKeepsAddressBounded(l, State(map[], start, [], []), logins, ip, from, to);
  }

  /** A failure from an address is unseen only in the last half second of the address's lock. */
  lemma AddressUnseenOnlyAtTheEnd(l: Limits, st: State, e: Login, ip: string)
    requires FailsFrom(st, e, ip)
    ensures Next(l, st, e).fromAddresses == st.fromAddresses + [AddressFailureOf(st, e, ip)]
    ensures AddressFailureOf(st, e, ip).unseen <==>
            IpLockOf(ip) in st.store && e.counted < st.store[IpLockOf(ip)].until < e.checked + 500
  {
  }

  // ---------------------------------------------------------------- the counter is the number of failures

  /** All failures from the address recorded in the interval. */
  function AllIn(failures: seq<FailedLogin>, ip: string, from: int, to: int): nat {
    FailuresIn(failures, ip, from, to, false) + FailuresIn(failures, ip, from, to, true)
  }

  lemma AllAppend(failures: seq<FailedLogin>, f: FailedLogin, ip: string, from: int, to: int)
    ensures AllIn(failures + [f], ip, from, to) ==
            AllIn(failures, ip, from, to) + if f.subject == ip && from <= f.at < to then 1 else 0
  {
    FailuresAppend(failures, f, ip, from, to, false);
    FailuresAppend(failures, f, ip, from, to, true);
  }

  lemma {:induction false} NoneIn(failures: seq<FailedLogin>, ip: string, from: int, to: int)
    requires forall i :: 0 <= i < |failures| && failures[i].subject == ip ==> failures[i].at < from
    ensures AllIn(failures, ip, from, to) == 0
    decreases |failures|
  {
    if failures != [] {
      NoneIn(failures[..|failures| - 1], ip, from, to);
    }
  }

  /** Some window's length held the maximum of failures from the address. */
  ghost predicate ReachedMaximum(l: Limits, failures: seq<FailedLogin>, ip: string) {
    exists from :: ReachedFrom(l, failures, ip, from)
  }

  predicate ReachedFrom(l: Limits, failures: seq<FailedLogin>, ip: string, from: int) {
    AllIn(failures, ip, from, from + l.Window()) >= l.maxIpAttempts
  }

  /**
   * The counter is the number of failures recorded since its window was opened, all failures lie
   * before the end of the latest window, and the address has a lock only if the maximum was reached.
   */
  ghost predicate AddressCounted(l: Limits, st: State, ip: string) {
    var v := AddressView(st.store, ip);
    && v.n >= 0
    && (v.n >= 1 ==>
          v.until - l.Window() <= st.now && AllIn(st.fromAddresses, ip, v.until - l.Window(), v.until) == v.n)
    && (forall i :: 0 <= i < |st.fromAddresses| && st.fromAddresses[i].subject == ip ==>
          v.n >= 1 && st.fromAddresses[i].at < v.until)
    && (v.lockedUntil.Some? ==> ReachedMaximum(l, st.fromAddresses, ip))
  }

  lemma StaysReached(l: Limits, failures: seq<FailedLogin>, f: FailedLogin, ip: string)
    requires ReachedMaximum(l, failures, ip)
    ensures ReachedMaximum(l, failures + [f], ip)
  {
    var from :| ReachedFrom(l, failures, ip, from);
    AllAppend(failures, f, ip, from, from + l.Window());
    assert ReachedFrom(l, failures + [f], ip, from);
  }

  lemma FailureKeepsCounted(l: Limits, st: State, e: Login, ip: string)
    requires AddressCounted(l, st, ip) && FailsFrom(st, e, ip)
    ensures AddressCounted(l, Next(l, st, e), ip)
  {
    var f, v, w := AddressFailureOf(st, e, ip), AddressView(st.store, ip), AddressView(Next(l, st, e).store, ip);
    AddressFailure(l, st, e, ip);
    AllAppend(st.fromAddresses, f, ip, w.until - l.Window(), w.until);
    if w.n == 1 {
      NoneIn(st.fromAddresses, ip, e.counted, w.until);
    }
    if v.lockedUntil.Some? {
      StaysReached(l, st.fromAddresses, f, ip);
    }
    assert w.n >= l.maxIpAttempts ==> ReachedFrom(l, st.fromAddresses + [f], ip, w.until - l.Window());
  }

  lemma OtherKeepsCounted(l: Limits, st: State, e: Login, ip: string)
    requires AddressCounted(l, st, ip) && !FailsFrom(st, e, ip)
    ensures AddressCounted(l, Next(l, st, e), ip)
  {
    AddressUntouched(l, st, e, ip);
    OtherFailures(l, st, e, ip);
    var a, b, v := st.fromAddresses, Next(l, st, e).fromAddresses, AddressView(st.store, ip);
    if b != a {
      AllAppend(a, b[|a|], ip, v.until - l.Window(), v.until);
      if v.lockedUntil.Some? {
        StaysReached(l, a, b[|a|], ip);
      }
    }
  }

  lemma {:induction false} RunKeepsCounted(l: Limits, st: State, logins: seq<Login>, ip: string)
    requires AddressCounted(l, st, ip)
    ensures AddressCounted(l, Run(l, st, logins), ip)
    decreases |logins|
  {
    if logins != [] {
      if FailsFrom(st, logins[0], ip) {
        FailureKeepsCounted(l, st, logins[0], ip);
      } else {
        OtherKeepsCounted(l, st, logins[0], ip);
      }
      RunKeepsCounted(l, Next(l, st, logins[0]), logins[1..], ip);
    }
  }

  /**
   * After any run in which no window's length held the maximum of failures from the address, the
   * address is not locked: a login from there is refused only if its identifier is locked.
   */
  lemma BelowMaximumNotRefused(l: Limits, start: int, logins: seq<Login>, s: Source, now: int)
    requires s.ip.Some?
    requires !ReachedMaximum(l, Run(l, State(map[], start, [], []), logins).fromAddresses, s.ip.value)
    ensures var st := Run(l, State(map[], start, [], []), logins);
            && IpLockOf(s.ip.value) !in st.store
            && (Blocked(st.store, now, s) <==> Seen(st.store, now, LockOf(s.identifier)))
  {
    RunKeepsCounted(l, State(map[], start, [], []), logins, s.ip.value);
  }

  /**
   * The failure that makes the maximum in its window locks the address, and so does every further
   * one there that finds the lock expired; a failure below the maximum leaves the lock as it was.
   * While at least half a second of the lock is left, every login from the address is refused.
   */
  lemma MaximumLocksIff(l: Limits, start: int, logins: seq<Login>, e: Login, ip: string) returns (from: int)
    requires FailsFrom(Run(l, State(map[], start, [], []), logins), e, ip)
    ensures var st := Run(l, State(map[], start, [], []), logins);
            var t := Next(l, st, e);
            && from <= e.counted < from + l.Window()
            && (if AllIn(t.fromAddresses, ip, from, from + l.Window()) >= l.maxIpAttempts &&
                   !Live(st.store, e.locked, IpLockOf(ip))
                then AddressView(t.store, ip).lockedUntil == Some(e.locked + l.Lock())
                else AddressView(t.store, ip).lockedUntil == AddressView(st.store, ip).lockedUntil)
            && (forall s: Source, now | s.ip == Some(ip) && Seen(t.store, now, IpLockOf(ip)) ::
                  Blocked(t.store, now, s))
  {
    var st := Run(l, State(map[], start, [], []), logins);
    RunKeepsCounted(l, State(map[], start, [], []), logins, ip);
    FailureKeepsCounted(l, st, e, ip);
    AddressFailure(l, st, e, ip);
    from := AddressView(Next(l, st, e).store, ip).until - l.Window();
  }

  // ---------------------------------------------------------------- the bound is attained

  /** Names of their own for the logins of a run, so that no identifier is ever locked when it is used. */
  function Name(i: nat): string {
    seq(i, _ => 'x')
  }

  lemma NamesDiffer(i: nat, j: nat)
    requires i != j
    ensures Name(i) != Name(j)
  {
    assert |Name(i)| == i && |Name(j)| == j;
  }

  /** One failure at 0 opens a window, max - 2 follow at its very end, and max in the next window. */
  function TimeOf(l: Limits, i: nat): int {
    if i == 0 && l.maxIpAttempts > 1 then 0 else if i < l.maxIpAttempts - 1 then l.Window() - 1 else l.Window()
  }

  function AddressRun(l: Limits, ip: string, n: nat): seq<Login> {
    if n == 0 then []
    else AddressRun(l, ip, n - 1) + [FailureAt(Source(Name(n - 1), Some(ip)), TimeOf(l, n - 1))]
  }

  function RunLength(l: Limits): nat {
    2 * l.maxIpAttempts - 1
  }

  /** The address after `n` logins of that run. */
  function Expected(l: Limits, n: nat): View {
    var max, w := l.maxIpAttempts, l.Window();
    if n == 0 then View(0, 0, None)
    else if n < max then View(n, w, None)
    else View(n - (max - 1), 2 * w, if n == 2 * max - 1 then Some(w + l.Lock()) else None)
  }

  ghost predicate Unused(store: Store<Key>, n: nat) {
    forall i: nat :: i >= n ==> LockOf(Name(i)) !in store
  }

  lemma FailureLeavesUnused(l: Limits, st: State, ip: string, n: nat, t: int)
    requires Unused(st.store, n)
    ensures Unused(Next(l, st, FailureAt(Source(Name(n), Some(ip)), t)).store, n + 1)
  {
    forall i: nat | i >= n + 1 ensures LockOf(Name(i)) !in Next(l, st, FailureAt(Source(Name(n), Some(ip)), t)).store {
      NamesDiffer(n, i);
    }
  }

  function CountedBy(l: Limits, n: nat): nat {
    if l.maxIpAttempts > 1 && n > 0 then n - 1 else n
  }

  /** Where that run stands after `n` logins. */
  ghost predicate Stands(l: Limits, st: State, ip: string, n: nat) {
    && st.now == (if n == 0 then 0 else TimeOf(l, n - 1)) && AddressView(st.store, ip) == Expected(l, n)
    && Unused(st.store, n)
    && FailuresIn(st.fromAddresses, ip, l.Window() - 1, l.Window() + 1, false) == CountedBy(l, n)
  }

  lemma ExpectedNext(l: Limits, n: nat, t: int)
    requires n < RunLength(l) && t == TimeOf(l, n)
    ensures Failing(ForAddresses(l), Expected(l, n), t, t) == Expected(l, n + 1)
    ensures Expected(l, n).n >= 0 && Expected(l, n).lockedUntil == None
  {
  }

  lemma CountedNext(l: Limits, n: nat, t: int)
    requires t == TimeOf(l, n)
    ensures CountedBy(l, n + 1) == CountedBy(l, n) + if l.Window() - 1 <= t < l.Window() + 1 then 1 else 0
    ensures t >= if n == 0 then 0 else TimeOf(l, n - 1)
  {
  }

  /** A failure under an unused name from an address without a lock is recorded, and not as unseen. */
  lemma UnusedFails(l: Limits, st: State, ip: string, n: nat, t: int, e: Login)
    requires Unused(st.store, n) && AddressView(st.store, ip).lockedUntil == None && st.now <= t
    requires e == FailureAt(Source(Name(n), Some(ip)), t)
    ensures FailsFrom(st, e, ip) && AddressFailureOf(st, e, ip) == FailedLogin(ip, t, false)
  {
    assert LockOf(Name(n)) !in st.store;
  }

  lemma StandsOneFurther(l: Limits, st: State, ip: string, n: nat, t: int, e: Login)
    requires n < RunLength(l) && Stands(l, st, ip, n)
    requires t == TimeOf(l, n) && e == FailureAt(Source(Name(n), Some(ip)), t)
    ensures Stands(l, Next(l, st, e), ip, n + 1)
  {
    ExpectedNext(l, n, t);
    CountedNext(l, n, t);
    UnusedFails(l, st, ip, n, t, e);
    AddressFailure(l, st, e, ip);
    FailureLeavesUnused(l, st, ip, n, t);
    StandsAfter(l, st, Next(l, st, e), ip, n, t);
  }

  lemma StandsAfter(l: Limits, st: State, u: State, ip: string, n: nat, t: int)
    requires n < RunLength(l) && Stands(l, st, ip, n) && t == TimeOf(l, n) && u.now == t && Unused(u.store, n + 1)
    requires AddressView(u.store, ip) == Expected(l, n + 1)
    requires u.fromAddresses == st.fromAddresses + [FailedLogin(ip, t, false)]
    ensures Stands(l, u, ip, n + 1)
  {
    CountedNext(l, n, t);
    FailuresAppend(st.fromAddresses, FailedLogin(ip, t, false), ip, l.Window() - 1, l.Window() + 1, false);
  }

  lemma {:induction false} AddressRunCounts(l: Limits, start: State, ip: string, n: nat)
    requires start == State(map[], 0, [], []) && n <= RunLength(l)
    ensures Stands(l, Run(l, start, AddressRun(l, ip, n)), ip, n)
    decreases n
  {
    if n > 0 {
      var t := TimeOf(l, n - 1);
      var e := FailureAt(Source(Name(n - 1), Some(ip)), t);
      AddressRunCounts(l, start, ip, n - 1);
      RunAppend(l, start, AddressRun(l, ip, n - 1), [e]);
      RunOne(l, Run(l, start, AddressRun(l, ip, n - 1)), e);
      StandsOneFurther(l, Run(l, start, AddressRun(l, ip, n - 1)), ip, n - 1, t, e);
    }
  }

  lemma {:induction false} AddressRunFails(l: Limits, ip: string, n: nat)
    ensures AllFail(AddressRun(l, ip, n))
    decreases n
  {
    if n > 0 {
      AddressRunFails(l, ip, n - 1);
    }
  }

  /**
   * For every configuration, a run of failed logins for different identifiers from one address
   * records the full 2 * maxIp - 2 (one if that maximum is one) within two milliseconds, none of
   * them unseen.
   */
  lemma AddressBoundIsAttained(l: Limits, ip: string) returns (logins: seq<Login>)
    ensures AllFail(logins)
    ensures var st := Run(l, State(map[], 0, [], []), logins);
            FailuresIn(st.fromAddresses, ip, l.Window() - 1, l.Window() + 1, false) ==
            if l.maxIpAttempts == 1 then 1 else 2 * l.maxIpAttempts - 2
  {
    logins := AddressRun(l, ip, RunLength(l));
    AddressRunFails(l, ip, RunLength(l));
    AddressRunCounts(l, State(map[], 0, [], []), ip, RunLength(l));
  }
}
