/**
 * Overlapping logins, as a state machine over single steps: the check of the identifier's lock,
 * the comparison of the password, the increment, the lock. A call that fails makes no further
 * step. What the limiter of addresses refuses in addition plays no part: the machine lets more
 * logins through than the service does.
 */
module LoginInterleaving {
  import opened Prelude
  import Redis
  import opened CacheServices
  import opened LoginLimiter

  /** `unseen` says whether the lock lasted at the check, `tried` is when a wrong password was compared. */
  datatype Stage =
    | Passed(unseen: bool)
    | Wrong(unseen: bool, tried: int)
    | MustLock(unseen: bool, tried: int)
    | Right
    | Done

  datatype Call = Call(identifier: string, stage: Stage)

  /** Calls have names of their own; `tries` are all comparisons with a wrong password. */
  datatype Machine = Machine(now: int, store: Redis.Store<Key>, calls: map<string, Call>, tries: seq<FailedLogin>)

  /** A login may leave after the check without comparing, for instance because the account is not active. */
  datatype Step =
    | Tick(ticks: nat)
    | Check(call: string, identifier: string)
    | Leave(call: string)
    | Compare(call: string, right: bool)
    | CountFailure(call: string)
    | SetLock(call: string)
    | Clear(call: string)

  function At(s: Machine, call: string, stage: Stage): Machine
    requires call in s.calls
  {
    s.(calls := s.calls[call := s.calls[call].(stage := stage)])
  }

  function Tried(s: Machine, call: string): Machine
    requires call in s.calls && s.calls[call].stage.Passed?
  {
    var id, unseen := s.calls[call].identifier, s.calls[call].stage.unseen;
    At(s, call, Wrong(unseen, s.now)).(tries := s.tries + [FailedLogin(id, s.now, unseen)])
  }

  function CountedTry(l: Limits, s: Machine, call: string): Machine
    requires call in s.calls && s.calls[call].stage.Wrong?
  {
    var id, stage := s.calls[call].identifier, s.calls[call].stage;
    At(s, call, if Redis.Count(s.store, s.now, AttemptsOf(id)) + 1 >= l.maxAttempts
                then MustLock(stage.unseen, stage.tried) else Done).(
      store := Redis.Incr(s.store, s.now, AttemptsOf(id), l.Window()))
  }

  function Locked(l: Limits, s: Machine, call: string): Machine
    requires call in s.calls
  {
    At(s, call, Done).(store := Redis.SetNx(s.store, s.now, LockOf(s.calls[call].identifier), Redis.Text("locked"),
        l.Lock()))
  }

  function Cleared(s: Machine, call: string): Machine
    requires call in s.calls
  {
    var id := s.calls[call].identifier;
    At(s, call, Done).(store := s.store - {AttemptsOf(id), LockOf(id)})
  }

  /** A login is let through unless at least half a second is left of the lock. */
  function Checked(s: Machine, call: string, id: string): Machine {
    if call in s.calls || Seen(s.store, s.now, LockOf(id)) then s
    else s.(calls := s.calls[call := Call(id, Passed(Redis.Live(s.store, s.now, LockOf(id))))])
  }

  function Next(l: Limits, s: Machine, step: Step): Machine {
    match step
    case Tick(ticks) => s.(now := s.now + ticks)
    case Check(call, id) => Checked(s, call, id)
    case Leave(call) => if call in s.calls && s.calls[call].stage.Passed? then At(s, call, Done) else s
    case Compare(call, right) =>
      if call !in s.calls || !s.calls[call].stage.Passed? then s
      else if right then At(s, call, Right) else Tried(s, call)
    case CountFailure(call) => if call in s.calls && s.calls[call].stage.Wrong? then CountedTry(l, s, call) else s
    case SetLock(call) => if call in s.calls && s.calls[call].stage.MustLock? then Locked(l, s, call) else s
    case Clear(call) => if call in s.calls && s.calls[call].stage.Right? then Cleared(s, call) else s
  }

  function Run(l: Limits, s: Machine, steps: seq<Step>): Machine
    decreases |steps|
  {
    if steps == [] then s else Run(l, Next(l, s, steps[0]), steps[1..])
  }

  const START := Machine(0, map[], map[], [])

  /** A wrong password, with no delay and no other call in between, leaves the store as the service's method does. */
  lemma UndisturbedFailure(l: Limits, s: Machine, call: string, id: string)
    requires call !in s.calls && !Seen(s.store, s.now, LockOf(id))
    ensures var wrong := Next(l, Next(l, s, Check(call, id)), Compare(call, false));
            var t := Next(l, Next(l, wrong, CountFailure(call)), SetLock(call));
            && t.store == Recorded(l, s.store, s.now, s.now, Source(id, None))
            && t.calls == s.calls[call := Call(id, Done)] && t.now == s.now
            && t.tries == s.tries + [FailedLogin(id, s.now, Redis.Live(s.store, s.now, LockOf(id)))]
  {
  }

  /** And a right one clears the identifier's counter and lock. */
  lemma UndisturbedSuccess(l: Limits, s: Machine, call: string, id: string)
    requires call !in s.calls && !Seen(s.store, s.now, LockOf(id))
    ensures var t := Next(l, Next(l, Next(l, s, Check(call, id)), Compare(call, true)), Clear(call));
            t == s.(store := s.store - {AttemptsOf(id), LockOf(id)}, calls := s.calls[call := Call(id, Done)])
  {
  }

  // ---------------------------------------------------------------- how many logins overlap

  /**
   * A login that has passed the check and not ended: by leaving, by a right password, or by a
   * failure that is counted and has set its lock.
   */
  predicate Pending(call: Call, id: string) {
    call.identifier == id && (call.stage.Passed? || call.stage.Wrong? || call.stage.MustLock?)
  }

  function Unfinished(s: Machine, id: string): set<string> {
    set v | v in s.calls && Pending(s.calls[v], id)
  }

  /** At no time are more than `k` logins of the identifier unfinished; one that failed midway stays so. */
  predicate AtMostAtOnce(l: Limits, s: Machine, steps: seq<Step>, id: string, k: nat)
    decreases |steps|
  {
    |Unfinished(s, id)| <= k && (steps == [] || AtMostAtOnce(l, Next(l, s, steps[0]), steps[1..], id, k))
  }

  /** No successful login of the identifier clears its counter and lock inside the interval. */
  predicate NoClearing(s: Machine, step: Step, id: string, from: int, to: int) {
    step.Clear? && step.call in s.calls && s.calls[step.call].stage.Right? && s.calls[step.call].identifier == id ==>
      !(from <= s.now < to)
  }

  predicate NeverClears(l: Limits, s: Machine, steps: seq<Step>, id: string, from: int, to: int)
    decreases |steps|
  {
    steps == [] ||
    (NoClearing(s, steps[0], id, from, to) && NeverClears(l, Next(l, s, steps[0]), steps[1..], id, from, to))
  }

  /**
   * What may be finished before the last window of the interval opens: max - 2 failures counted in
   * the window before, or k - 1 logins let through before an earlier lock.
   */
  function Earlier(l: Limits, k: Positive): nat {
    if l.maxAttempts - 2 >= k - 1 then l.maxAttempts - 2 else k - 1
  }

  /** Those, max - 1 failures in the last window that do not lock, and the unfinished ones. */
  function MostTries(l: Limits, k: Positive): nat {
    Earlier(l, k) + (l.maxAttempts - 1) + k
  }

  // ---------------------------------------------------------------- the invariant

  /** An unfinished try of the interval, by a login that no lock lasted for at its check. */
  predicate Owes(call: Call, id: string, from: int, to: int) {
    && call.identifier == id && (call.stage.Wrong? || call.stage.MustLock?)
    && from <= call.stage.tried < to && !call.stage.unseen
  }

  function Owing(s: Machine, id: string, from: int, to: int): set<string> {
    set v | v in s.calls && Owes(s.calls[v], id, from, to)
  }

  /** A login that may yet become such a try. */
  predicate MayTry(call: Call, id: string) {
    call.identifier == id && call.stage.Passed? && !call.stage.unseen
  }

  function Ready(s: Machine, id: string): set<string> {
    set v | v in s.calls && MayTry(s.calls[v], id)
  }

  /** How much of the current window counts towards failures that did not lock. */
  function Light(l: Limits, n: int): int {
    if n < l.maxAttempts then n else l.maxAttempts - 1
  }

  /** Where the `d` finished tries of the interval can have been counted, as long as no new lock was set. */
  predicate Counted(l: Limits, v: View, d: int, k: Positive, to: int) {
    || d == 0
    || (1 <= v.n && v.until < to && (d <= Light(l, v.n) - 1 || (v.n >= l.maxAttempts && d <= k - 1)))
    || (1 <= v.n && v.until >= to && d <= Earlier(l, k) + Light(l, v.n))
  }

  /**
   * What is known when `c` tries of the interval were made by logins that no lock lasted for, `o`
   * of them are unfinished, and `p` more logins may yet try. Either a lock lasts to the end of the
   * interval, or the interval is over, or the finished tries are accounted for by the counter.
   * Under a lock that ends in the interval at most k - 1 are made or still to come.
   */
  predicate Holding(l: Limits, v: View, now: int, c: nat, o: nat, p: nat, k: Positive, from: int, to: int) {
    && v.n >= 0 && o <= c <= MostTries(l, k)
    && (now < from ==> c == 0)
    && (now < to ==> c + p <= MostTries(l, k))
    && (Lasts(v, now) && v.lockedUntil.value < to ==> c + p <= k - 1)
    && (Counted(l, v, c - o, k, to) || (v.lockedUntil.Some? && v.lockedUntil.value >= to) || now >= to)
  }

  /** The counter has reached the maximum, or its window lasts to the end, or the interval is over. */
  predicate Exhausted(l: Limits, v: View, now: int, to: int) {
    v.n >= l.maxAttempts || (v.n >= 1 && v.until >= to) || now >= to
  }

  function TriesIn(s: Machine, id: string, from: int, to: int): nat {
    FailuresIn(s.tries, id, from, to, false)
  }

  ghost predicate Inv(l: Limits, s: Machine, id: string, k: Positive, from: int, to: int) {
    && |Owing(s, id, from, to)| <= TriesIn(s, id, from, to)
    && Holding(l, ViewOf(s.store, id), s.now, TriesIn(s, id, from, to), |Owing(s, id, from, to)|, |Ready(s, id)|, k,
       from, to)
    && (forall v :: v in s.calls && s.calls[v].stage.MustLock? && Owes(s.calls[v], id, from, to) ==>
          Exhausted(l, ViewOf(s.store, id), s.now, to))
  }

  // ---------------------------------------------------------------- sets of calls

  lemma CardinalityWithout(x: set<string>, e: string)
    ensures |x - {e}| == |x| - (if e in x then 1 else 0)
  {
    if e !in x {
      assert x - {e} == x;
    }
  }

  lemma DifferInOne(x: set<string>, y: set<string>, e: string)
    requires x - {e} == y - {e}
    ensures |y| + (if e in x then 1 else 0) == |x| + (if e in y then 1 else 0)
  {
    CardinalityWithout(x, e);
    CardinalityWithout(y, e);
  }

  /** The step moves one call, or begins it. */
  predicate Moves(s: Machine, t: Machine, call: string) {
    call in t.calls && t.calls == s.calls[call := t.calls[call]]
  }

  lemma OwingAfterMove(s: Machine, t: Machine, call: string, id: string, from: int, to: int)
    requires Moves(s, t, call)
    ensures |Owing(t, id, from, to)| + (if call in s.calls && Owes(s.calls[call], id, from, to) then 1 else 0) ==
            |Owing(s, id, from, to)| + (if Owes(t.calls[call], id, from, to) then 1 else 0)
  {
    DifferInOne(Owing(s, id, from, to), Owing(t, id, from, to), call);
  }

  lemma ReadyAfterMove(s: Machine, t: Machine, call: string, id: string)
    requires Moves(s, t, call)
    ensures |Ready(t, id)| + (if call in s.calls && MayTry(s.calls[call], id) then 1 else 0) ==
            |Ready(s, id)| + (if MayTry(t.calls[call], id) then 1 else 0)
  {
    DifferInOne(Ready(s, id), Ready(t, id), call);
  }

  lemma UnfinishedAfterMove(s: Machine, t: Machine, call: string, id: string)
    requires Moves(s, t, call)
    ensures |Unfinished(t, id)| + (if call in s.calls && Pending(s.calls[call], id) then 1 else 0) ==
            |Unfinished(s, id)| + (if Pending(t.calls[call], id) then 1 else 0)
  {
    DifferInOne(Unfinished(s, id), Unfinished(t, id), call);
  }

  lemma {:induction false} SubsetIsSmaller(x: set<string>, y: set<string>)
    requires x <= y
    ensures |x| <= |y|
    decreases x
  {
    if x != {} {
      var e :| e in x;
      SubsetIsSmaller(x - {e}, y - {e});
    }
  }

  lemma AllAreUnfinished(s: Machine, id: string, from: int, to: int)
    ensures |Owing(s, id, from, to)| + |Ready(s, id)| <= |Unfinished(s, id)|
  {
    var o, p := Owing(s, id, from, to), Ready(s, id);
    assert o * p == {};
    SubsetIsSmaller(o + p, Unfinished(s, id));
  }

  // ---------------------------------------------------------------- steps, seen from one identifier

  /** The view after the identifier's counter was incremented. */
  function AfterCount(l: Limits, v: View, now: int): View {
    var n := (if v.n >= 1 && now < v.until then v.n else 0) + 1;
    View(n, if n == 1 then now + l.Window() else v.until, v.lockedUntil)
  }

  function AfterLock(l: Limits, v: View, now: int): View {
    v.(lockedUntil := if Lasts(v, now) then v.lockedUntil else Some(now + l.Lock()))
  }

  lemma CountSeen(l: Limits, s: Machine, call: string, id: string)
    requires call in s.calls && s.calls[call].stage.Wrong? && ViewOf(s.store, id).n >= 0
    ensures var t := CountedTry(l, s, call); var own := s.calls[call].identifier == id;
            && ViewOf(t.store, id) == (if own then AfterCount(l, ViewOf(s.store, id), s.now) else ViewOf(s.store, id))
            && (own ==> (t.calls[call].stage == Done <==> ViewOf(t.store, id).n < l.maxAttempts))
  {
  }

  lemma LockSeen(l: Limits, s: Machine, call: string, id: string)
    requires call in s.calls
    ensures ViewOf(Locked(l, s, call).store, id) ==
            if s.calls[call].identifier == id then AfterLock(l, ViewOf(s.store, id), s.now) else ViewOf(s.store, id)
  {
  }

  lemma ClearSeen(s: Machine, call: string, id: string)
    requires call in s.calls
    ensures ViewOf(Cleared(s, call).store, id) ==
            if s.calls[call].identifier == id then View(0, 0, None) else ViewOf(s.store, id)
  {
  }

  /** A login is let through while no lock lasts: the finished tries leave room for all that are unfinished. */
  lemma PassKeepsHolding(l: Limits, v: View, now: int, c: nat, o: nat, p: nat, k: Positive, from: int, to: int)
    requires Holding(l, v, now, c, o, p, k, from, to) && !Lasts(v, now) && o + p + 1 <= k
    ensures Holding(l, v, now, c, o, p + 1, k, from, to)
  {
  }

  /** Counting a failure: one that does not lock is finished by it. */
  lemma CountKeepsHolding(l: Limits, v: View, now: int, c: nat, o: nat, p: nat, k: Positive, from: int, to: int,
          owes: bool)
    requires from <= to <= from + l.Window() && Holding(l, v, now, c, o, p, k, from, to)
    requires owes ==> o >= 1
    ensures var w := AfterCount(l, v, now);
            Holding(l, w, now, c, if owes && w.n < l.maxAttempts then o - 1 else o, p, k, from, to)
  {
  }

  lemma CountExhausts(l: Limits, v: View, now: int, from: int, to: int)
    requires to <= from + l.Window() && v.n >= 0
    ensures var w := AfterCount(l, v, now);
            && (now >= from && Exhausted(l, v, now, to) ==> Exhausted(l, w, now, to))
            && (w.n >= l.maxAttempts ==> Exhausted(l, w, now, to))
  {
  }

  /**
   * Setting the lock. If an earlier one lasts that ends in the interval, nothing changes, and
   * otherwise the lock now lasts to the end of the interval, or was set before it began.
   */
  lemma LockKeepsHolding(l: Limits, v: View, now: int, c: nat, o: nat, p: nat, k: Positive, from: int, to: int,
          owes: bool)
    requires from <= to <= from + l.Lock() && Holding(l, v, now, c, o, p, k, from, to)
    requires owes ==> o >= 1 && Exhausted(l, v, now, to)
    requires now < from ==> p <= k - 1
    ensures Holding(l, AfterLock(l, v, now), now, c, if owes then o - 1 else o, p, k, from, to)
  {
  }

  // ---------------------------------------------------------------- every step keeps the invariant

  lemma TickKeepsInv(l: Limits, s: Machine, ticks: nat, id: string, k: Positive, from: int, to: int)
    requires Inv(l, s, id, k, from, to)
    ensures Inv(l, s.(now := s.now + ticks), id, k, from, to)
  {
    var t := s.(now := s.now + ticks);
    assert Owing(t, id, from, to) == Owing(s, id, from, to) && Ready(t, id) == Ready(s, id);
  }

  /** A call ends, or begins without being one that may try: store and tries stay. */
  lemma QuietMoveKeepsInv(l: Limits, s: Machine, t: Machine, call: string, id: string, k: Positive, from: int, to: int)
    requires Inv(l, s, id, k, from, to) && Moves(s, t, call) && t == s.(calls := t.calls)
    requires call in s.calls ==> !Owes(s.calls[call], id, from, to)
    requires !Owes(t.calls[call], id, from, to) && !MayTry(t.calls[call], id)
    ensures Inv(l, t, id, k, from, to)
  {
    OwingAfterMove(s, t, call, id, from, to);
    ReadyAfterMove(s, t, call, id);
  }

  lemma CheckedKeepsInv(l: Limits, s: Machine, call: string, own: string, id: string, k: Positive, from: int, to: int)
    requires Inv(l, s, id, k, from, to) && |Unfinished(Checked(s, call, own), id)| <= k
    ensures Inv(l, Checked(s, call, own), id, k, from, to)
  {
    var t := Checked(s, call, own);
    if t != s {
      if MayTry(t.calls[call], id) {
        OwingAfterMove(s, t, call, id, from, to);
        ReadyAfterMove(s, t, call, id);
        AllAreUnfinished(t, id, from, to);
        PassKeepsHolding(l, ViewOf(s.store, id), s.now, TriesIn(s, id, from, to), |Owing(s, id, from, to)|,
                         |Ready(s, id)|, k, from, to);
      } else {
        QuietMoveKeepsInv(l, s, t, call, id, k, from, to);
      }
    }
  }

  lemma TriedKeepsInv(l: Limits, s: Machine, call: string, id: string, k: Positive, from: int, to: int)
    requires Inv(l, s, id, k, from, to) && call in s.calls && s.calls[call].stage.Passed?
    ensures Inv(l, Tried(s, call), id, k, from, to)
  {
    var t := Tried(s, call);
    var own, unseen := s.calls[call].identifier, s.calls[call].stage.unseen;
    FailuresAppend(s.tries, FailedLogin(own, s.now, unseen), id, from, to, false);
    OwingAfterMove(s, t, call, id, from, to);
    ReadyAfterMove(s, t, call, id);
  }

  lemma CountedKeepsInv(l: Limits, s: Machine, call: string, id: string, k: Positive, from: int, to: int)
    requires from <= to <= from + l.Window()
    requires Inv(l, s, id, k, from, to) && call in s.calls && s.calls[call].stage.Wrong?
    ensures Inv(l, CountedTry(l, s, call), id, k, from, to)
  {
    var t, owes := CountedTry(l, s, call), Owes(s.calls[call], id, from, to);
    var v := ViewOf(s.store, id);
    CountSeen(l, s, call, id);
    OwingAfterMove(s, t, call, id, from, to);
    ReadyAfterMove(s, t, call, id);
    if s.calls[call].identifier == id {
      assert owes ==> call in Owing(s, id, from, to);
      CountKeepsHolding(l, v, s.now, TriesIn(s, id, from, to), |Owing(s, id, from, to)|, |Ready(s, id)|, k, from, to,
          owes);
      CountExhausts(l, v, s.now, from, to);
      forall u | u in t.calls && t.calls[u].stage.MustLock? && Owes(t.calls[u], id, from, to)
        ensures Exhausted(l, ViewOf(t.store, id), t.now, to)
      {
        if u != call {
          assert u in Owing(s, id, from, to);
        }
      }
    }
  }

  lemma LockedKeepsInv(l: Limits, s: Machine, call: string, id: string, k: Positive, from: int, to: int)
    requires from <= to <= from + l.Lock() && |Unfinished(s, id)| <= k
    requires Inv(l, s, id, k, from, to) && call in s.calls && s.calls[call].stage.MustLock?
    ensures Inv(l, Locked(l, s, call), id, k, from, to)
  {
    var t, owes := Locked(l, s, call), Owes(s.calls[call], id, from, to);
    LockSeen(l, s, call, id);
    OwingAfterMove(s, t, call, id, from, to);
    ReadyAfterMove(s, t, call, id);
    if s.calls[call].identifier == id {
      assert owes ==> call in Owing(s, id, from, to);
      UnfinishedAfterMove(s, t, call, id);
      AllAreUnfinished(t, id, from, to);
      LockKeepsHolding(l, ViewOf(s.store, id), s.now, TriesIn(s, id, from, to), |Owing(s, id, from, to)|,
                       |Ready(s, id)|, k, from, to, owes);
    }
  }

  lemma NoneOwes(s: Machine, id: string, from: int, to: int)
    requires |Owing(s, id, from, to)| == 0
    ensures forall u :: u in s.calls ==> !Owes(s.calls[u], id, from, to)
  {
    forall u | u in s.calls ensures !Owes(s.calls[u], id, from, to) {
      assert u !in Owing(s, id, from, to);
    }
  }

  lemma ClearedKeepsInv(l: Limits, s: Machine, call: string, id: string, k: Positive, from: int, to: int)
    requires Inv(l, s, id, k, from, to) && call in s.calls && s.calls[call].stage.Right?
    requires NoClearing(s, Clear(call), id, from, to)
    ensures Inv(l, Cleared(s, call), id, k, from, to)
  {
    ClearSeen(s, call, id);
    OwingAfterMove(s, Cleared(s, call), call, id, from, to);
    ReadyAfterMove(s, Cleared(s, call), call, id);
    if s.calls[call].identifier == id && s.now < from {
      NoneOwes(s, id, from, to);
    }
  }

  lemma NextKeepsInv(l: Limits, s: Machine, step: Step, id: string, k: Positive, from: int, to: int)
    requires from <= to <= from + l.Window() && to <= from + l.Lock()
    requires Inv(l, s, id, k, from, to) && NoClearing(s, step, id, from, to)
    requires |Unfinished(s, id)| <= k && |Unfinished(Next(l, s, step), id)| <= k
    ensures Inv(l, Next(l, s, step), id, k, from, to)
  {
    var t := Next(l, s, step);
    match step
    case Tick(ticks) => TickKeepsInv(l, s, ticks, id, k, from, to);
    case Check(call, own) => CheckedKeepsInv(l, s, call, own, id, k, from, to);
    case Leave(call) =>
      if call in s.calls && s.calls[call].stage.Passed? {
        QuietMoveKeepsInv(l, s, t, call, id, k, from, to);
      }
    case Compare(call, right) =>
      if call in s.calls && s.calls[call].stage.Passed? {
        if right {
          QuietMoveKeepsInv(l, s, t, call, id, k, from, to);
        } else {
          TriedKeepsInv(l, s, call, id, k, from, to);
        }
      }
    case CountFailure(call) =>
      if call in s.calls && s.calls[call].stage.Wrong? {
        CountedKeepsInv(l, s, call, id, k, from, to);
      }
    case SetLock(call) =>
      if call in s.calls && s.calls[call].stage.MustLock? {
        LockedKeepsInv(l, s, call, id, k, from, to);
      }
    case Clear(call) =>
      if call in s.calls && s.calls[call].stage.Right? {
        ClearedKeepsInv(l, s, call, id, k, from, to);
      }
  }

  lemma {:induction false} RunKeepsInv(l: Limits, s: Machine, steps: seq<Step>, id: string, k: Positive, from: int,
          to: int)
    requires from <= to <= from + l.Window() && to <= from + l.Lock()
    requires Inv(l, s, id, k, from, to) && AtMostAtOnce(l, s, steps, id, k) && NeverClears(l, s, steps, id, from, to)
    ensures Inv(l, Run(l, s, steps), id, k, from, to)
    decreases |steps|
  {
    if steps != [] {
      NextKeepsInv(l, s, steps[0], id, k, from, to);
      RunKeepsInv(l, Next(l, s, steps[0]), steps[1..], id, k, from, to);
    }
  }

  /**
   * However logins overlap and fail: if at no time more than k logins of the identifier are past
   * the check and unfinished, an interval no longer than the attempt window and the lock time, in
   * which no login of the identifier succeeds, holds at most `MostTries` comparisons with a wrong
   * password for it, the larger of 2 * max - 3 + k and max - 2 + 2 * k, besides those of logins
   * that were let through while the lock lasted.
   */
  lemma TriesAreBounded(l: Limits, steps: seq<Step>, id: string, k: Positive, from: int, to: int)
    requires from <= to <= from + l.Window() && to <= from + l.Lock()
    requires AtMostAtOnce(l, START, steps, id, k) && NeverClears(l, START, steps, id, from, to)
    ensures FailuresIn(Run(l, START, steps).tries, id, from, to, false) <= MostTries(l, k)
    ensures MostTries(l, k) == 2 * l.maxAttempts - 3 + k || MostTries(l, k) == l.maxAttempts - 2 + 2 * k
    ensures MostTries(l, k) >= 2 * l.maxAttempts - 3 + k && MostTries(l, k) >= l.maxAttempts - 2 + 2 * k
  {
    assert Owing(START, id, from, to) == {} && Ready(START, id) == {};
    RunKeepsInv(l, START, steps, id, k, from, to);
  }

  /** A login is let through while the lock lasts only in its last half second. */
  lemma LetThroughOnlyAtTheEnd(s: Machine, call: string, id: string)
    requires call !in s.calls
    ensures call in Checked(s, call, id).calls <==>
            !(LockOf(id) in s.store && s.now + 500 <= s.store[LockOf(id)].until)
    ensures call in Checked(s, call, id).calls ==>
              (Checked(s, call, id).calls[call].stage == Passed(true) <==>
               LockOf(id) in s.store && s.now < s.store[LockOf(id)].until < s.now + 500)
  {
  }

}
