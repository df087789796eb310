/**
 * The bound on overlapping logins is attained for every configuration: by logins that fail one
 * after the other in two windows, and by logins let through before a lock that fail under it.
 */
module LoginOverlapRuns {
  import opened Prelude
  import opened CacheServices
  import opened LoginLimiter
  import opened LoginInterleaving

  // ---------------------------------------------------------------- putting runs together

  /** The steps lead from `s` to `t`, with at most `k` logins unfinished at once, and none clears. */
  ghost predicate Leads(l: Limits, s: Machine, steps: seq<Step>, t: Machine, id: string, k: nat) {
    && t == LoginInterleaving.Run(l, s, steps) && AtMostAtOnce(l, s, steps, id, k)
    && forall step :: step in steps ==> !step.Clear?
  }

  lemma {:induction false} LeadsOn(l: Limits, s: Machine, one: seq<Step>, t: Machine, two: seq<Step>, u: Machine,
          id: string, k: nat)
    requires Leads(l, s, one, t, id, k) && Leads(l, t, two, u, id, k)
    ensures Leads(l, s, one + two, u, id, k)
    decreases |one|
  {
    if one == [] {
      assert one + two == two;
    } else {
      assert (one + two)[1..] == one[1..] + two;
      LeadsOn(l, LoginInterleaving.Next(l, s, one[0]), one[1..], t, two, u, id, k);
      assert AtMostAtOnce(l, s, one + two, id, k);
    }
  }

  lemma LeadsByOne(l: Limits, s: Machine, step: Step, id: string, k: nat)
    requires |Unfinished(s, id)| <= k && |Unfinished(LoginInterleaving.Next(l, s, step), id)| <= k && !step.Clear?
    ensures Leads(l, s, [step], LoginInterleaving.Next(l, s, step), id, k)
  {
    assert [step][1..] == [];
    assert LoginInterleaving.Run(l, LoginInterleaving.Next(l, s, step), []) == LoginInterleaving.Next(l, s, step);
  }

  lemma {:induction false} LeadsNeverClears(l: Limits, s: Machine, steps: seq<Step>, id: string, from: int, to: int)
    requires forall step :: step in steps ==> !step.Clear?
    ensures NeverClears(l, s, steps, id, from, to)
    decreases |steps|
  {
    if steps != [] {
      assert steps[0] in steps;
      LeadsNeverClears(l, LoginInterleaving.Next(l, s, steps[0]), steps[1..], id, from, to);
    }
  }

  // ---------------------------------------------------------------- scenes

  function Name(j: nat): string {
    seq(j + 1, _ => 'v')
  }

  /**
   * What the store says of the identifier, how many of its logins are unfinished, which of them
   * have been let through while no lock lasted and wait, those named from `first` to `last`, and
   * the next free name.
   */
  datatype Scene = Scene(view: View, unfinished: nat, first: nat, last: nat, free: nat)

  ghost predicate Waits(s: Machine, id: string, i: nat) {
    Name(i) in s.calls && s.calls[Name(i)] == Call(id, Passed(false))
  }

  ghost predicate Shows(s: Machine, id: string, x: Scene) {
    && ViewOf(s.store, id) == x.view && x.view.n >= 0 && |Unfinished(s, id)| == x.unfinished &&
       x.first <= x.last <= x.free
    && (forall i :: i >= x.free ==> Name(i) !in s.calls)
    && (forall i :: x.first <= i < x.last ==> Waits(s, id, i))
  }

  /** The moves of one call leave the other names alone. */
  lemma NamesStay(s: Machine, t: Machine, id: string, x: Scene, j: nat)
    requires Shows(s, id, x) && Moves(s, t, Name(j)) && j <= x.free
    ensures forall i :: i >= (if j == x.free then x.free + 1 else x.free) ==> Name(i) !in t.calls
    ensures forall i :: x.first <= i < x.last && i != j ==> Waits(t, id, i)
  {
    forall i: nat ensures |Name(i)| == i + 1 {}
    forall i | x.first <= i < x.last && i != j ensures Waits(t, id, i) {
      assert Waits(s, id, i) && |Name(i)| != |Name(j)|;
    }
    forall i | i >= (if j == x.free then x.free + 1 else x.free) ensures Name(i) !in t.calls {
      assert |Name(i)| != |Name(j)| && Name(i) !in s.calls;
    }
  }

  lemma Waiting(l: Limits, s: Machine, id: string, x: Scene, ticks: nat, k: nat) returns (t: Machine)
    requires Shows(s, id, x) && x.unfinished <= k
    ensures Leads(l, s, [Tick(ticks)], t, id, k) && Shows(t, id, x) && t.now == s.now + ticks && t.tries == s.tries
  {
    t := LoginInterleaving.Next(l, s, Tick(ticks));
    assert Unfinished(t, id) == Unfinished(s, id);
    assert forall i :: x.first <= i < x.last && Waits(s, id, i) ==> Waits(t, id, i);
    LeadsByOne(l, s, Tick(ticks), id, k);
  }

  /** A new login is let through. */
  lemma Passing(l: Limits, s: Machine, id: string, x: Scene, k: nat) returns (t: Machine)
    requires Shows(s, id, x) && x.unfinished < k
    requires x.view.lockedUntil.Some? ==> x.view.lockedUntil.value < s.now + 500
    ensures Leads(l, s, [Check(Name(x.free), id)], t, id, k) && t.now == s.now && t.tries == s.tries
    ensures Shows(t, id, x.(unfinished := x.unfinished + 1, free := x.free + 1))
    ensures Name(x.free) in t.calls && t.calls[Name(x.free)] == Call(id, Passed(Lasts(x.view, s.now)))
  {
    var call := Name(x.free);
    t := Checked(s, call, id);
    assert t == LoginInterleaving.Next(l, s, Check(call, id)) && Moves(s, t, call);
    NamesStay(s, t, id, x, x.free);
    UnfinishedAfterMove(s, t, call, id);
    LeadsByOne(l, s, Check(call, id), id, k);
  }

  lemma TryIsCounted(s: Machine, call: string, id: string, from: int, to: int)
    requires call in s.calls && s.calls[call].identifier == id && s.calls[call].stage.Passed?
    ensures TriesIn(Tried(s, call), id, from, to) ==
            TriesIn(s, id, from, to) + if from <= s.now < to && !s.calls[call].stage.unseen then 1 else 0
  {
    FailuresAppend(s.tries, FailedLogin(id, s.now, s.calls[call].stage.unseen), id, from, to, false);
  }

  lemma TryStaysUnfinished(s: Machine, call: string, id: string)
    requires call in s.calls && s.calls[call].identifier == id && s.calls[call].stage.Passed?
    ensures |Unfinished(Tried(s, call), id)| == |Unfinished(s, id)|
  {
    UnfinishedAfterMove(s, Tried(s, call), call, id);
  }

  /** A login compares a wrong password. */
  lemma Comparing(l: Limits, s: Machine, id: string, call: string, k: nat, from: int, to: int) returns (t: Machine)
    requires call in s.calls && s.calls[call].identifier == id && s.calls[call].stage.Passed? &&
             |Unfinished(s, id)| <= k
    ensures t == Tried(s, call) && Leads(l, s, [Compare(call, false)], t, id, k)
    ensures |Unfinished(t, id)| == |Unfinished(s, id)|
    ensures TriesIn(t, id, from, to) ==
            TriesIn(s, id, from, to) + if from <= s.now < to && !s.calls[call].stage.unseen then 1 else 0
  {
    t := Tried(s, call);
    TryIsCounted(s, call, id, from, to);
    TryStaysUnfinished(s, call, id);
    LeadsByOne(l, s, Compare(call, false), id, k);
  }

  /** A login that has compared counts its failure, and sets the lock if it must. */
  lemma Recording(l: Limits, s: Machine, id: string, call: string, k: nat) returns (steps: seq<Step>, t: Machine)
    requires call in s.calls && s.calls[call].identifier == id && s.calls[call].stage.Wrong? && |Unfinished(s, id)| <= k
    requires ViewOf(s.store, id).n >= 0
    ensures Leads(l, s, steps, t, id, k) && t.now == s.now && t.tries == s.tries
    ensures t.calls == s.calls[call := Call(id, Done)] && |Unfinished(t, id)| == |Unfinished(s, id)| - 1
    ensures ViewOf(t.store, id) == Failing(l, ViewOf(s.store, id), s.now, s.now)
  {
    var u := CountedTry(l, s, call);
    CountSeen(l, s, call, id);
    UnfinishedAfterMove(s, u, call, id);
    LeadsByOne(l, s, CountFailure(call), id, k);
    if u.calls[call].stage == Done {
      return [CountFailure(call)], u;
    }
    t := Locked(l, u, call);
    LockSeen(l, u, call, id);
    UnfinishedAfterMove(u, t, call, id);
    LeadsByOne(l, u, SetLock(call), id, k);
    LeadsOn(l, s, [CountFailure(call)], u, [SetLock(call)], t, id, k);
    steps := [CountFailure(call)] + [SetLock(call)];
  }

  /** A login that has been let through fails. */
  lemma Fails(l: Limits, s: Machine, id: string, call: string, k: nat, from: int, to: int)
    returns (steps: seq<Step>, t: Machine)
    requires call in s.calls && s.calls[call].identifier == id && s.calls[call].stage.Passed? &&
             |Unfinished(s, id)| <= k
    requires ViewOf(s.store, id).n >= 0
    ensures Leads(l, s, steps, t, id, k) && t.now == s.now
    ensures t.calls == s.calls[call := Call(id, Done)] && |Unfinished(t, id)| == |Unfinished(s, id)| - 1
    ensures ViewOf(t.store, id) == Failing(l, ViewOf(s.store, id), s.now, s.now)
    ensures TriesIn(t, id, from, to) ==
            TriesIn(s, id, from, to) + if from <= s.now < to && !s.calls[call].stage.unseen then 1 else 0
  {
    var u := Comparing(l, s, id, call, k, from, to);
    var rest, w := Recording(l, u, id, call, k);
    LeadsOn(l, s, [Compare(call, false)], u, rest, w, id, k);
    return [Compare(call, false)] + rest, w;
  }

  // ---------------------------------------------------------------- what the runs are made of

  /** The first of those waiting fails. */
  lemma OneWaitingFails(l: Limits, s: Machine, id: string, x: Scene, k: nat, from: int, to: int)
    returns (steps: seq<Step>, t: Machine)
    requires Shows(s, id, x) && x.first < x.last && 1 <= x.unfinished <= k
    ensures Leads(l, s, steps, t, id, k) && t.now == s.now
    ensures Shows(t, id, x.(view := Failing(l, x.view, s.now, s.now), unfinished := x.unfinished - 1,
            first := x.first + 1))
    ensures TriesIn(t, id, from, to) == TriesIn(s, id, from, to) + if from <= s.now < to then 1 else 0
  {
    assert Waits(s, id, x.first);
    steps, t := Fails(l, s, id, Name(x.first), k, from, to);
    NamesStay(s, t, id, x, x.first);
  }

  /** A new login is let through and fails. */
  lemma OneMoreFails(l: Limits, s: Machine, id: string, x: Scene, k: nat, from: int, to: int)
    returns (steps: seq<Step>, t: Machine)
    requires Shows(s, id, x) && x.unfinished < k
    requires x.view.lockedUntil.Some? ==> x.view.lockedUntil.value < s.now + 500
    ensures Leads(l, s, steps, t, id, k) && t.now == s.now
    ensures Shows(t, id, x.(view := Failing(l, x.view, s.now, s.now), free := x.free + 1))
    ensures TriesIn(t, id, from, to) ==
            TriesIn(s, id, from, to) + if from <= s.now < to && !Lasts(x.view, s.now) then 1 else 0
  {
    var u := Passing(l, s, id, x, k);
    var rest, w := Fails(l, u, id, Name(x.free), k, from, to);
    var y := x.(unfinished := x.unfinished + 1, free := x.free + 1);
    NamesStay(u, w, id, y, x.free);
    LeadsOn(l, s, [Check(Name(x.free), id)], u, rest, w, id, k);
    return [Check(Name(x.free), id)] + rest, w;
  }

  /** `r` logins fail one after the other without locking, in a window that has begun. */
  lemma {:induction false} LightFailures(l: Limits, s: Machine, id: string, x: Scene, r: nat, k: nat, from: int,
          to: int)
    returns (steps: seq<Step>, t: Machine)
    requires Shows(s, id, x) && x.unfinished < k && !Lasts(x.view, s.now)
    requires 1 <= x.view.n && x.view.n + r < l.maxAttempts && s.now < x.view.until
    ensures Leads(l, s, steps, t, id, k) && t.now == s.now
    ensures Shows(t, id, x.(view := x.view.(n := x.view.n + r), free := x.free + r))
    ensures TriesIn(t, id, from, to) == TriesIn(s, id, from, to) + if from <= s.now < to then r else 0
    decreases r
  {
    if r == 0 {
      return [], s;
    }
    var one, u := OneMoreFails(l, s, id, x, k, from, to);
    var y := x.(view := x.view.(n := x.view.n + 1), free := x.free + 1);
    assert Failing(l, x.view, s.now, s.now) == y.view;
    var two, w := LightFailures(l, u, id, y, r - 1, k, from, to);
    LeadsOn(l, s, one, u, two, w, id, k);
    return one + two, w;
  }

  /** `r` logins are let through and wait. */
  lemma {:induction false} ManyPass(l: Limits, s: Machine, id: string, x: Scene, r: nat, k: nat)
    returns (steps: seq<Step>, t: Machine)
    requires Shows(s, id, x) && x.unfinished + r <= k && !Lasts(x.view, s.now) && x.last == x.free
    ensures Leads(l, s, steps, t, id, k) && t.now == s.now && t.tries == s.tries
    ensures Shows(t, id, x.(unfinished := x.unfinished + r, last := x.last + r, free := x.free + r))
    decreases r
  {
    if r == 0 {
      return [], s;
    }
    var u := Passing(l, s, id, x, k);
    var y := x.(unfinished := x.unfinished + 1, last := x.last + 1, free := x.free + 1);
    assert Shows(u, id, y);
    var two, w := ManyPass(l, u, id, y, r - 1, k);
    LeadsOn(l, s, [Check(Name(x.free), id)], u, two, w, id, k);
    return [Check(Name(x.free), id)] + two, w;
  }

  /** `r` logins are let through and compare, and none counts its failure. */
  lemma {:induction false} TriesAtOnce(l: Limits, s: Machine, id: string, x: Scene, r: nat, k: nat, from: int, to: int)
    returns (steps: seq<Step>, t: Machine)
    requires Shows(s, id, x) && x.unfinished + r <= k && !Lasts(x.view, s.now)
    ensures Leads(l, s, steps, t, id, k) && t.now == s.now
    ensures TriesIn(t, id, from, to) == TriesIn(s, id, from, to) + if from <= s.now < to then r else 0
    decreases r
  {
    if r == 0 {
      return [], s;
    }
    var call := Name(x.free);
    var u := Passing(l, s, id, x, k);
    var v := Comparing(l, u, id, call, k, from, to);
    var y := x.(unfinished := x.unfinished + 1, free := x.free + 1);
    NamesStay(u, v, id, y, x.free);
    var rest, w := TriesAtOnce(l, v, id, y, r - 1, k, from, to);
    LeadsOn(l, u, [Compare(call, false)], v, rest, w, id, k);
    LeadsOn(l, s, [Check(call, id)], u, [Compare(call, false)] + rest, w, id, k);
    return [Check(call, id)] + ([Compare(call, false)] + rest), w;
  }

  /** All those waiting fail under a lock that lasts. */
  lemma {:induction false} AllWaitingFail(l: Limits, s: Machine, id: string, x: Scene, k: nat, from: int, to: int)
    returns (steps: seq<Step>, t: Machine, y: Scene)
    requires Shows(s, id, x) && x.unfinished == x.last - x.first <= k && Lasts(x.view, s.now)
    ensures Leads(l, s, steps, t, id, k) && t.now == s.now
    ensures Shows(t, id, y) && y.unfinished == 0 && y.view.lockedUntil == x.view.lockedUntil
    ensures x.view.n >= 1 && s.now < x.view.until ==> y.view.n >= 1 && y.view.until == x.view.until
    ensures TriesIn(t, id, from, to) == TriesIn(s, id, from, to) + if from <= s.now < to then x.last - x.first else 0
    decreases x.last - x.first
  {
    if x.first == x.last {
      return [], s, x;
    }
    var one, u := OneWaitingFails(l, s, id, x, k, from, to);
    var y0 := x.(view := Failing(l, x.view, s.now, s.now), unfinished := x.unfinished - 1, first := x.first + 1);
    var two, w, z := AllWaitingFail(l, u, id, y0, k, from, to);
    LeadsOn(l, s, one, u, two, w, id, k);
    return one + two, w, z;
  }

  /** A window of max - 1 failures that do not lock, the first at once and the others after a pause. */
  lemma OneWindow(l: Limits, s: Machine, id: string, x: Scene, pause: nat, k: nat, from: int, to: int)
    returns (steps: seq<Step>, t: Machine, v: View)
    requires Shows(s, id, x) && x.unfinished < k && !Lasts(x.view, s.now) && (x.view.n >= 1 ==> x.view.until <= s.now)
    requires l.maxAttempts >= 2 && pause < l.Window()
    ensures Leads(l, s, steps, t, id, k) && t.now == s.now + pause
    ensures v == View(l.maxAttempts - 1, s.now + l.Window(), x.view.lockedUntil)
    ensures Shows(t, id, x.(view := v, free := x.free + l.maxAttempts - 1))
    ensures TriesIn(t, id, from, to) == TriesIn(s, id, from, to) + (if from <= s.now < to then 1 else 0) +
                                        if from <= s.now + pause < to then l.maxAttempts - 2 else 0
  {
    var first, u := OneMoreFails(l, s, id, x, k, from, to);
    var y := x.(view := View(1, s.now + l.Window(), x.view.lockedUntil), free := x.free + 1);
    assert Failing(l, x.view, s.now, s.now) == y.view;
    var w := Waiting(l, u, id, y, pause, k);
    var rest, z := LightFailures(l, w, id, y, l.maxAttempts - 2, k, from, to);
    LeadsOn(l, u, [Tick(pause)], w, rest, z, id, k);
    LeadsOn(l, s, first, u, [Tick(pause)] + rest, z, id, k);
    return first + ([Tick(pause)] + rest), z, View(l.maxAttempts - 1, s.now + l.Window(), x.view.lockedUntil);
  }

  // ---------------------------------------------------------------- the last window

  /** With neither a window nor a lock in force: max - 1 failures that do not lock, and `k` tries at once. */
  lemma LastWindow(l: Limits, s: Machine, id: string, x: Scene, k: Positive, from: int, to: int)
    returns (steps: seq<Step>, t: Machine)
    requires Shows(s, id, x) && x.unfinished == 0 && !Lasts(x.view, s.now)
    requires x.view.n >= 1 && l.maxAttempts >= 2 ==> x.view.until <= s.now
    requires from <= s.now < to
    ensures Leads(l, s, steps, t, id, k)
    ensures TriesIn(t, id, from, to) == TriesIn(s, id, from, to) + l.maxAttempts - 1 + k
  {
    if l.maxAttempts == 1 {
      steps, t := TriesAtOnce(l, s, id, x, k, k, from, to);
    } else {
      var one, u, v := OneWindow(l, s, id, x, 0, k, from, to);
      var two, w := TriesAtOnce(l, u, id, x.(view := v, free := x.free + l.maxAttempts - 1), k, k, from, to);
      LeadsOn(l, s, one, u, two, w, id, k);
      return one + two, w;
    }
  }

  // ---------------------------------------------------------------- before it: a window that ends

  function Begin(): Scene {
    Scene(View(0, 0, None), 0, 0, 0, 0)
  }

  lemma StartIsShown(id: string)
    ensures Shows(START, id, Begin())
  {
    assert Unfinished(START, id) == {};
  }

  /** max - 2 failures at the end of a window. */
  lemma WindowBefore(l: Limits, id: string, k: Positive) returns (steps: seq<Step>, t: Machine, x: Scene)
    requires l.maxAttempts >= 2
    ensures Leads(l, START, steps, t, id, k) && t.now == l.Window()
    ensures Shows(t, id, x) && x.unfinished == 0 && x.view.until == t.now && x.view.lockedUntil == None
    ensures TriesIn(t, id, l.Window() - 1, l.Window() + 1) == l.maxAttempts - 2
  {
    var w := l.Window();
    StartIsShown(id);
    var one, s, v := OneWindow(l, START, id, Begin(), w - 1, k, w - 1, w + 1);
    x := Begin().(view := v, free := l.maxAttempts - 1);
    t := Waiting(l, s, id, x, 1, k);
    LeadsOn(l, START, one, s, [Tick(1)], t, id, k);
    steps := one + [Tick(1)];
  }

  // ---------------------------------------------------------------- before it: a lock, and those let through before

  /** The counter stands at max - 1: `k` logins are let through, and the first of them fails and locks. */
  lemma LocksOthersOut(l: Limits, s: Machine, id: string, x: Scene, k: Positive, from: int, to: int)
    returns (steps: seq<Step>, t: Machine, y: Scene)
    requires Shows(s, id, x) && x.unfinished == 0 && x.first == x.last == x.free && x.view.lockedUntil == None
    requires x.view.n == l.maxAttempts - 1 && (x.view.n >= 1 ==> s.now < x.view.until)
    requires TriesIn(s, id, from, to) == 0 && s.now < from
    ensures Leads(l, s, steps, t, id, k) && t.now == s.now && TriesIn(t, id, from, to) == 0
    ensures Shows(t, id, y) && y.unfinished == k - 1 == y.last - y.first && y.last == y.free
    ensures y.view == View(l.maxAttempts, if l.maxAttempts == 1 then s.now + l.Window() else x.view.until,
                           Some(s.now + l.Lock()))
  {
    var one, u := ManyPass(l, s, id, x, k, k);
    var z := x.(unfinished := k, last := x.last + k, free := x.free + k);
    var two, w := OneWaitingFails(l, u, id, z, k, from, to);
    LeadsOn(l, s, one, u, two, w, id, k);
    return one + two, w, z.(view := Failing(l, x.view, s.now, s.now), unfinished := k - 1, first := z.first + 1);
  }

  /** The others wait until the lock has a millisecond left, fail under it, and the lock ends. */
  lemma FailUnderLock(l: Limits, s: Machine, id: string, x: Scene, k: Positive, from: int, to: int)
    returns (steps: seq<Step>, t: Machine, y: Scene)
    requires Shows(s, id, x) && x.unfinished == k - 1 == x.last - x.first
    requires x.view.lockedUntil == Some(from + 1) && s.now <= from < to && TriesIn(s, id, from, to) == 0
    ensures Leads(l, s, steps, t, id, k) && t.now == from + 1 && TriesIn(t, id, from, to) == k - 1
    ensures Shows(t, id, y) && y.unfinished == 0 && y.view.lockedUntil == Some(from + 1)
    ensures x.view.n >= 1 && from < x.view.until ==> y.view.until == x.view.until
  {
    var u := Waiting(l, s, id, x, from - s.now, k);
    var two, w, z := AllWaitingFail(l, u, id, x, k, from, to);
    y := z;
    t := Waiting(l, w, id, y, 1, k);
    LeadsOn(l, u, two, w, [Tick(1)], t, id, k);
    LeadsOn(l, s, [Tick(from - s.now)], u, two + [Tick(1)], t, id, k);
    steps := [Tick(from - s.now)] + (two + [Tick(1)]);
  }

  /**
   * k - 1 logins have failed in the interval under an earlier lock, and by now, still in the
   * interval, neither that lock nor their window is in force.
   */
  ghost predicate LockIsOver(l: Limits, t: Machine, id: string, x: Scene, k: Positive, from: int, to: int) {
    && Shows(t, id, x) && x.unfinished == 0 && !Lasts(x.view, t.now)
    && (l.maxAttempts >= 2 ==> x.view.until <= t.now)
    && from <= t.now < to <= from + l.Window() && to <= from + l.Lock() && TriesIn(t, id, from, to) == k - 1
  }

  /** With one attempt no window matters. */
  lemma LockBeforeAlone(l: Limits, id: string, k: Positive)
    returns (steps: seq<Step>, t: Machine, x: Scene, from: int, to: int)
    requires l.maxAttempts == 1
    ensures Leads(l, START, steps, t, id, k) && LockIsOver(l, t, id, x, k, from, to)
  {
    from, to := l.Lock() - 1, l.Lock() + 1;
    StartIsShown(id);
    var one, s, y := LocksOthersOut(l, START, id, Begin(), k, from, to);
    var two, u, z := FailUnderLock(l, s, id, y, k, from, to);
    LeadsOn(l, START, one, s, two, u, id, k);
    steps, t, x := one + two, u, z;
  }

  /** The window ends together with the lock. */
  lemma LockBeforeInWindow(l: Limits, id: string, k: Positive)
    returns (steps: seq<Step>, t: Machine, x: Scene, from: int, to: int)
    requires l.maxAttempts >= 2 && l.Lock() <= l.Window()
    ensures Leads(l, START, steps, t, id, k) && LockIsOver(l, t, id, x, k, from, to)
  {
    from, to := l.Window() - 1, l.Window() + 1;
    StartIsShown(id);
    var one, s, v := OneWindow(l, START, id, Begin(), l.Window() - l.Lock(), k, from, to);
    var b := Scene(v, 0, l.maxAttempts - 1, l.maxAttempts - 1, l.maxAttempts - 1);
    var two, u, y := LocksOthersOut(l, s, id, b, k, from, to);
    var three, w, z := FailUnderLock(l, u, id, y, k, from, to);
    LeadsOn(l, s, two, u, three, w, id, k);
    LeadsOn(l, START, one, s, two + three, w, id, k);
    steps, t, x := one + (two + three), w, z;
  }

  /** The lock outlives the window: a login let through in its last half second opens another one. */
  lemma LockBeforeOutlasts(l: Limits, id: string, k: Positive)
    returns (steps: seq<Step>, t: Machine, x: Scene, from: int, to: int)
    requires l.maxAttempts >= 2 && l.Window() < l.Lock()
    ensures Leads(l, START, steps, t, id, k) && LockIsOver(l, t, id, x, k, from, to)
  {
    from, to := l.Lock() - 1, l.Lock() - 1 + l.Window();
    StartIsShown(id);
    var one, s, v := OneWindow(l, START, id, Begin(), 0, k, from, to);
    var b := Scene(v, 0, l.maxAttempts - 1, l.maxAttempts - 1, l.maxAttempts - 1);
    var two, u, y := LocksOthersOut(l, s, id, b, k, from, to);
    var wait := [Tick(l.Lock() - 2)];
    var w := Waiting(l, u, id, y, l.Lock() - 2, k);
    var four, m := OneMoreFails(l, w, id, y, k, from, to);
    var c := y.(view := Failing(l, y.view, w.now, w.now), free := y.free + 1);
    assert c.view == View(1, l.Lock() - 2 + l.Window(), Some(l.Lock()));
    var five, n, z := FailUnderLock(l, m, id, c, k, from, to);
    var last := [Tick(l.Window() - 2)];
    t := Waiting(l, n, id, z, l.Window() - 2, k);
    x := z;
    LeadsOn(l, m, five, n, last, t, id, k);
    LeadsOn(l, w, four, m, five + last, t, id, k);
    LeadsOn(l, u, wait, w, four + (five + last), t, id, k);
    LeadsOn(l, s, two, u, wait + (four + (five + last)), t, id, k);
    LeadsOn(l, START, one, s, two + (wait + (four + (five + last))), t, id, k);
    steps := one + (two + (wait + (four + (five + last))));
  }

  lemma LockBefore(l: Limits, id: string, k: Positive)
    returns (steps: seq<Step>, t: Machine, x: Scene, from: int, to: int)
    ensures Leads(l, START, steps, t, id, k) && LockIsOver(l, t, id, x, k, from, to)
  {
    if l.maxAttempts == 1 {
      steps, t, x, from, to := LockBeforeAlone(l, id, k);
    } else if l.Lock() <= l.Window() {
      steps, t, x, from, to := LockBeforeInWindow(l, id, k);
    } else {
      steps, t, x, from, to := LockBeforeOutlasts(l, id, k);
    }
  }

  /**
   * For every configuration and every k a run with at most k logins unfinished at once, and no
   * successful one, reaches the bound in an interval no longer than window and lock time.
   */
  lemma TriesBoundIsAttained(l: Limits, id: string, k: Positive) returns (steps: seq<Step>, from: int, to: int)
    ensures from <= to <= from + l.Window() && to <= from + l.Lock()
    ensures AtMostAtOnce(l, START, steps, id, k) && NeverClears(l, START, steps, id, from, to)
    ensures FailuresIn(LoginInterleaving.Run(l, START, steps).tries, id, from, to, false) == MostTries(l, k)
  {
    var before, s, x;
    if l.maxAttempts - 2 >= k - 1 {
      from, to := l.Window() - 1, l.Window() + 1;
      before, s, x := WindowBefore(l, id, k);
    } else {
      before, s, x, from, to := LockBefore(l, id, k);
    }
    var last, t := LastWindow(l, s, id, x, k, from, to);
    LeadsOn(l, START, before, s, last, t, id, k);
    LeadsNeverClears(l, START, before + last, id, from, to);
    steps := before + last;
  }
}
