/**
 * The verification lock and the resend cooldown of OtpService over all runs of calls that do
 * not overlap: which calls they refuse, and for how long.
 */
module OtpLocks {
  import opened Prelude
  import opened Redis
  import opened OtpServices

  datatype Turn = Turn(before: Moment, call: ServiceCall, after: Moment)

  /** Each call starts where the one before ended, at that time or later. */
  ghost predicate Run(seconds: int, turns: seq<Turn>) {
    && (forall i :: 0 <= i < |turns| ==> Served(seconds, turns[i].before, turns[i].call, turns[i].after))
    && (forall i :: 0 < i < |turns| ==> Follows(turns[i - 1].after, turns[i].before))
    && (turns != [] ==> turns[0].before.store == map[] && turns[0].before.rows == map[])
  }

  ghost predicate Follows(m: Moment, n: Moment) {
    n.store == m.store && n.rows == m.rows && m.now <= n.now
  }

  /** A verification of the subject that took the lock and could not give it back; at `now` it still counts. */
  ghost predicate Stuck(turn: Turn, s: Subject, now: int) {
    && turn.call.VerifyCall? && turn.call.s == s && turn.call.r != Failure(InProgress) && !turn.call.reachable
    && now < turn.before.now + 30000
  }

  /** A successful send to the subject whose row is younger than the cooldown at `now`. */
  ghost predicate JustSent(seconds: int, turn: Turn, s: Subject, now: int) {
    && turn.call.SendCall? && turn.call.s == s && turn.call.r.Success? && turn.call.newId in turn.after.rows
    && now < turn.after.rows[turn.call.newId].createdAt + 1000 * seconds
  }

  ghost predicate AnyStuck(turns: seq<Turn>, s: Subject, now: int) {
    exists j :: 0 <= j < |turns| && Stuck(turns[j], s, now)
  }

  ghost predicate AnyJustSent(seconds: int, turns: seq<Turn>, s: Subject, now: int) {
    exists j :: 0 <= j < |turns| && JustSent(seconds, turns[j], s, now)
  }

  ghost predicate Waits(seconds: int, m: Moment, s: Subject, now: int) {
    Recent(m.rows, s, now, seconds) || Live(m.store, now, CooldownKey(s))
  }

  // ---------------------------------------------------------------- one call

  /** From the end of a call on, the lock is live exactly if it was before or the call has left it behind. */
  lemma TurnLocks(seconds: int, turn: Turn, s: Subject, now: int)
    requires Served(seconds, turn.before, turn.call, turn.after) && turn.after.now <= now
    ensures Live(turn.after.store, now, VerifyLockKey(s)) <==>
            Live(turn.before.store, now, VerifyLockKey(s)) || Stuck(turn, s, now)
  {
    var lock := VerifyLockKey(s);
    if turn.call.s == s && turn.call.VerifyCall? {
      assert now < turn.before.now + 30000 ==> turn.before.now <= now;
    } else {
      assert lock in turn.after.store <==> lock in turn.before.store;
    }
  }

  lemma TurnWaits(seconds: int, turn: Turn, s: Subject, now: int)
    requires Served(seconds, turn.before, turn.call, turn.after) && turn.after.now <= now
    ensures Waits(seconds, turn.after, s, now) <==>
            Waits(seconds, turn.before, s, now) || JustSent(seconds, turn, s, now)
  {
    if turn.call.VerifyCall? {
      VerifyWaits(seconds, turn, s, now);
    } else if turn.call.r.Failure? && turn.call.r.error != SendingFailed {
      assert turn.after.store == turn.before.store && turn.after.rows == turn.before.rows;
    } else if turn.call.s != s {
      OtherWaits(seconds, turn, s, now);
    } else {
      SenderWaits(seconds, turn, now);
    }
  }

  lemma VerifyWaits(seconds: int, turn: Turn, s: Subject, now: int)
    requires Served(seconds, turn.before, turn.call, turn.after) && turn.call.VerifyCall?
    ensures Waits(seconds, turn.after, s, now) <==> Waits(seconds, turn.before, s, now)
  {
    assert CooldownKey(s) in turn.after.store <==> CooldownKey(s) in turn.before.store;
    assert forall id :: id in turn.after.rows ==> turn.after.rows[id].createdAt == turn.before.rows[id].createdAt;
  }

  lemma OtherWaits(seconds: int, turn: Turn, s: Subject, now: int)
    requires Served(seconds, turn.before, turn.call, turn.after) && turn.call.SendCall? && turn.call.s != s
    requires turn.call.r.Success? || turn.call.r.error == SendingFailed
    ensures Waits(seconds, turn.after, s, now) <==> Waits(seconds, turn.before, s, now)
  {
    assert CooldownKey(s) in turn.after.store <==> CooldownKey(s) in turn.before.store;
    assert forall id :: id in turn.before.rows && turn.before.rows[id].subject == s ==> id in turn.after.rows;
  }

  lemma SenderWaits(seconds: int, turn: Turn, now: int)
    requires Served(seconds, turn.before, turn.call, turn.after) && turn.call.SendCall? && turn.after.now <= now
    requires turn.call.r.Success? || turn.call.r.error == SendingFailed
    ensures !Waits(seconds, turn.before, turn.call.s, now)
    ensures Waits(seconds, turn.after, turn.call.s, now) <==> JustSent(seconds, turn, turn.call.s, now)
  {
    var s := turn.call.s;
    assert !Waits(seconds, turn.before, s, turn.before.now);
    forall id | id in turn.after.rows && id != turn.call.newId && turn.after.rows[id].subject == s
      ensures now - turn.after.rows[id].createdAt >= 1000 * seconds
    {
      assert id in turn.before.rows;
    }
  }

  // ---------------------------------------------------------------- whole runs

  lemma {:induction false} LocksHeld(seconds: int, turns: seq<Turn>, s: Subject, now: int)
    requires Run(seconds, turns) && turns != [] && turns[|turns| - 1].after.now <= now
    ensures Live(turns[|turns| - 1].after.store, now, VerifyLockKey(s)) <==> AnyStuck(turns, s, now)
    ensures Waits(seconds, turns[|turns| - 1].after, s, now) <==> AnyJustSent(seconds, turns, s, now)
  {
    var n := |turns| - 1;
    var last, earlier := turns[n], turns[..n];
    TurnLocks(seconds, last, s, now);
    TurnWaits(seconds, last, s, now);
    assert Served(seconds, last.before, last.call, last.after);
    if n > 0 {
      assert earlier[n - 1] == turns[n - 1] && Follows(turns[n - 1].after, last.before);
      LocksHeld(seconds, earlier, s, now);
    }
    AnyExtends(seconds, turns, s, now);
  }

  lemma AnyExtends(seconds: int, turns: seq<Turn>, s: Subject, now: int)
    requires turns != []
    ensures var last, earlier := turns[|turns| - 1], turns[..|turns| - 1];
            && (AnyStuck(turns, s, now) <==> AnyStuck(earlier, s, now) || Stuck(last, s, now))
            && (AnyJustSent(seconds, turns, s, now) <==>
                AnyJustSent(seconds, earlier, s, now) || JustSent(seconds, last, s, now))
  {
    var n := |turns| - 1;
    assert forall j :: 0 <= j < n ==> turns[..n][j] == turns[j];
  }

  lemma BeforeTurn(seconds: int, turns: seq<Turn>, i: nat)
    requires Run(seconds, turns) && i < |turns|
    ensures var m, s := turns[i].before, turns[i].call.s;
            && (Live(m.store, m.now, VerifyLockKey(s)) <==> AnyStuck(turns[..i], s, m.now))
            && (Waits(seconds, m, s, m.now) <==> AnyJustSent(seconds, turns[..i], s, m.now))
  {
    if i > 0 {
      assert turns[..i][i - 1] == turns[i - 1] && Follows(turns[i - 1].after, turns[i].before);
      LocksHeld(seconds, turns[..i], turns[i].call.s, turns[i].before.now);
    }
  }

  /**
   * A verification is refused as being in progress if and only if an earlier one of the same
   * subject began less than 30 seconds ago and could not reach the cache to release its lock.
   */
  lemma RefusedAsInProgressIff(seconds: int, turns: seq<Turn>, i: nat)
    requires Run(seconds, turns) && i < |turns| && turns[i].call.VerifyCall?
    ensures turns[i].call.r == Failure(InProgress) <==> AnyStuck(turns[..i], turns[i].call.s, turns[i].before.now)
  {
    BeforeTurn(seconds, turns, i);
    assert Served(seconds, turns[i].before, turns[i].call, turns[i].after);
  }

  /**
   * A send that the registration status allows has to wait if and only if an earlier send to the
   * same subject succeeded and its OTP was created less than the cooldown ago. A send that could
   * not hand over its message makes nobody wait.
   */
  lemma HasToWaitIff(seconds: int, turns: seq<Turn>, i: nat)
    requires Run(seconds, turns) && i < |turns| && turns[i].call.SendCall?
    requires turns[i].call.r != Failure(AlreadyRegistered) && turns[i].call.r != Failure(UnknownAccount)
    ensures turns[i].call.r == Failure(PleaseWait) <==>
            AnyJustSent(seconds, turns[..i], turns[i].call.s, turns[i].before.now)
  {
    BeforeTurn(seconds, turns, i);
    assert Served(seconds, turns[i].before, turns[i].call, turns[i].after);
  }

  /** From any state: of two successive verifications, the second is refused only because of a lock the first left. */
  lemma NextVerification(seconds: int, one: Turn, two: Turn)
    requires Served(seconds, one.before, one.call, one.after) && Served(seconds, two.before, two.call, two.after)
    requires one.call.VerifyCall? && two.call.VerifyCall? && one.call.s == two.call.s && Follows(one.after, two.before)
    ensures two.call.r == Failure(InProgress) ==> one.call.r == Failure(InProgress) || !one.call.reachable
    ensures one.call.r != Failure(InProgress) && !one.call.reachable ==>
              (two.call.r == Failure(InProgress) <==> two.before.now < one.before.now + 30000)
  {
    TurnLocks(seconds, one, one.call.s, two.before.now);
  }
}
