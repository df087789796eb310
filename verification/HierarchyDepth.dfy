/**
 * The depth limit is reached: creations from the root down build a chain of parents as long as
 * the guard allows, and the user at its end cannot be resolved.
 */
module HierarchyDepth {
  import opened Prelude
  import Text
  import opened Graph
  import opened HierarchyTable
  import opened HierarchyWalks
  import opened HierarchyService
  import opened HierarchySafety

  /** A create request, and the row it asks for. */
  datatype Rung = Rung(dto: CreateDto, row: Row)

  /** Rung i asks for an active edge in the scope from user i + 1 up to user i. */
  ghost predicate LeadsUp(scope: Scope, users: seq<string>, rungs: seq<Rung>, i: nat)
    requires i < |rungs| && i + 1 < |users|
  {
    var r := rungs[i].row;
    && Proposed(rungs[i].dto) == Success(r)
    && r.isActive && r.scope == scope && r.parent == users[i] && r.child == users[i + 1]
  }

  /** Different users, each but the first below the one before. */
  ghost predicate Ladder(scope: Scope, users: seq<string>, rungs: seq<Rung>) {
    && |users| == |rungs| + 1
    && (forall i, j :: 0 <= i < j < |users| ==> users[i] != users[j])
    && (forall i, j :: 0 <= i < j < |rungs| ==> Apart(rungs[i].row, rungs[j].row))
    && (forall i :: 0 <= i < |rungs| ==> LeadsUp(scope, users, rungs, i))
  }

  /** The call that creates rung i; the row is named after the child. */
  function Creation(users: seq<string>, rungs: seq<Rung>, i: nat): Call
    requires i < |rungs| && i + 1 < |users|
  {
    Create(users[i + 1], rungs[i].dto)
  }

  // ---------------------------------------------------------------- one more creation

  /** The row is one of the first k rungs. */
  predicate IsRung(users: seq<string>, rungs: seq<Rung>, k: nat, id: string, r: Row) {
    exists i :: 0 <= i < k && i < |rungs| && i + 1 < |users| && id == users[i + 1] && r == rungs[i].row
  }

  /** The table holds the first k rungs only, and the parents of user k are the k users before. */
  ghost predicate Built(scope: Scope, users: seq<string>, rungs: seq<Rung>, k: nat, t: Table, w: seq<string>) {
    && Indexed(t) && (forall id :: id in t ==> IsRung(users, rungs, k, id, t[id]))
    && k < |users| && IsChain(EffectiveEdges(t, scope), w) && |w| == k + 1 && w[0] == users[k]
    && forall u :: u in w ==> u in users[..k + 1]
  }

  lemma NextIsNew(scope: Scope, users: seq<string>, rungs: seq<Rung>, k: nat, t: Table, w: seq<string>)
    requires Ladder(scope, users, rungs) && Built(scope, users, rungs, k, t, w) && k < |rungs|
    ensures users[k + 1] !in t && users[k + 1] !in w && KeysFree(t, users[k + 1], rungs[k].row)
  {
    forall id | id in t ensures id != users[k + 1] && Apart(t[id], rungs[k].row) {
      assert IsRung(users, rungs, k, id, t[id]);
    }
  }

  lemma NextIsRung(users: seq<string>, rungs: seq<Rung>, k: nat, t: Table)
    requires k < |rungs| && k + 1 < |users| && forall id :: id in t ==> IsRung(users, rungs, k, id, t[id])
    ensures var u := t[users[k + 1] := rungs[k].row]; forall id :: id in u ==> IsRung(users, rungs, k + 1, id, u[id])
  {
    var u := t[users[k + 1] := rungs[k].row];
    forall id | id in u ensures IsRung(users, rungs, k + 1, id, u[id]) {
      if id != users[k + 1] {
        assert IsRung(users, rungs, k, id, t[id]);
      }
    }
  }

  /** An accepted child lengthens the chain by one edge; it resolves up to 19 edges and not with 20. */
  lemma AcceptedChildExtends(t: Table, u: Table, id: string, r: Row, w: seq<string>)
    requires Indexed(t) && Consistent(r) && KeysFree(t, id, r) && r.isActive && id !in t && u == t[id := r]
    requires IsChain(EffectiveEdges(t, r.scope), w) && w[0] == r.parent && |w| <= 20 && r.child !in w
    ensures Admissible(t, id, r)
    ensures Indexed(u) && IsChain(EffectiveEdges(u, r.scope), [r.child] + w)
    ensures Resolvable(EffectiveEdges(u, r.scope), r.child) <==> |w| <= 19
    ensures TooLong(EffectiveEdges(u, r.scope), r.child) <==> |w| == 20
  {
    assert Admissible(t, id, r);
    StoringKeepsIndexed(t, id, r);
    AcceptedChildResolves(t, id, r, w);
  }

  lemma NextExtends(scope: Scope, users: seq<string>, rungs: seq<Rung>, k: nat, t: Table, u: Table, w: seq<string>)
    requires Ladder(scope, users, rungs) && Built(scope, users, rungs, k, t, w) && k < |rungs| && k <= 19
    requires u == t[users[k + 1] := rungs[k].row]
    ensures users[k + 1] !in t && u == After(t, Creation(users, rungs, k))
    ensures Indexed(u) && IsChain(EffectiveEdges(u, scope), [users[k + 1]] + w)
    ensures Resolvable(EffectiveEdges(u, scope), users[k + 1]) <==> k <= 18
    ensures TooLong(EffectiveEdges(u, scope), users[k + 1]) <==> k == 19
  {
    assert LeadsUp(scope, users, rungs, k);
    NextIsNew(scope, users, rungs, k, t, w);
    AcceptedChildExtends(t, u, users[k + 1], rungs[k].row, w);
    CreationStores(t, users[k + 1], rungs[k].dto, rungs[k].row);
  }

  lemma UsersExtend(users: seq<string>, k: nat, w: seq<string>)
    requires k + 1 < |users| && forall u :: u in w ==> u in users[..k + 1]
    ensures var v := [users[k + 1]] + w; forall u :: u in v ==> u in users[..k + 2]
  {
    assert users[..k + 2] == users[..k + 1] + [users[k + 1]];
  }

  /** The creation below a chain of up to 19 edges is accepted. */
  lemma NextBuilds(scope: Scope, users: seq<string>, rungs: seq<Rung>, k: nat, t: Table, w: seq<string>)
    returns (u: Table)
    requires Ladder(scope, users, rungs) && Built(scope, users, rungs, k, t, w) && k < |rungs| && k <= 19
    ensures users[k + 1] !in t && u == After(t, Creation(users, rungs, k)) == t[users[k + 1] := rungs[k].row]
    ensures Built(scope, users, rungs, k + 1, u, [users[k + 1]] + w)
    ensures Resolvable(EffectiveEdges(u, scope), users[k + 1]) <==> k <= 18
    ensures TooLong(EffectiveEdges(u, scope), users[k + 1]) <==> k == 19
  {
    u := t[users[k + 1] := rungs[k].row];
    NextExtends(scope, users, rungs, k, t, u, w);
    NextIsRung(users, rungs, k, t);
    UsersExtend(users, k, w);
  }

  lemma TooDeepIsRefused(t: Table, id: string, dto: CreateDto, r: Row, w: seq<string>)
    requires Indexed(t) && Proposed(dto) == Success(r) && r.isActive
    requires IsChain(EffectiveEdges(t, r.scope), w) && w[0] == r.parent && |w| > 20
    ensures After(t, Create(id, dto)) == t
  {
    EffectiveIsFunctional(t, r.scope);
    if Clear(EffectiveEdges(t, r.scope), r.child, r.parent) {
      AcceptedChain(EffectiveEdges(t, r.scope), r.child, w);
    }
  }

  /** The creation below a chain of 20 edges or more is refused. */
  lemma NextIsRefused(scope: Scope, users: seq<string>, rungs: seq<Rung>, k: nat, t: Table, w: seq<string>)
    requires Ladder(scope, users, rungs) && Built(scope, users, rungs, k, t, w) && 20 <= k < |rungs|
    ensures After(t, Creation(users, rungs, k)) == t
  {
    assert LeadsUp(scope, users, rungs, k);
    TooDeepIsRefused(t, users[k + 1], rungs[k].dto, rungs[k].row, w);
  }

  // ---------------------------------------------------------------- from the root down

  lemma {:induction false} RunAppends(t: Table, calls: seq<Call>, call: Call)
    ensures Run(t, calls + [call]) == After(Run(t, calls), call)
    decreases |calls|
  {
    if calls == [] {
      assert [call][1..] == [] && Run(After(t, call), []) == After(t, call);
      assert [] + [call] == [call];
    } else {
      assert (calls + [call])[1..] == calls[1..] + [call];
      RunAppends(After(t, calls[0]), calls[1..], call);
    }
  }

  lemma RootIsBuilt(scope: Scope, users: seq<string>, rungs: seq<Rung>)
    requires |users| >= 1
    ensures Built(scope, users, rungs, 0, map[], [users[0]])
  {
    assert IsSink(EffectiveEdges(map[], scope), users[0]);
  }

  /** The first k calls of the ladder. */
  ghost predicate Creates(users: seq<string>, rungs: seq<Rung>, calls: seq<Call>) {
    && |calls| <= |rungs| < |users|
    && forall i :: 0 <= i < |calls| ==> calls[i] == Creation(users, rungs, i)
  }

  lemma OneMoreCreates(users: seq<string>, rungs: seq<Rung>, calls: seq<Call>)
    requires Creates(users, rungs, calls) && |calls| < |rungs|
    ensures Creates(users, rungs, calls + [Creation(users, rungs, |calls|)])
  {
  }

  /** Up to twenty creations from the root down are all accepted. */
  lemma {:induction false} CreationsBuild(scope: Scope, users: seq<string>, rungs: seq<Rung>, k: nat)
    returns (calls: seq<Call>, t: Table, w: seq<string>)
    requires Ladder(scope, users, rungs) && k <= 20 && k <= |rungs|
    ensures |calls| == k && Creates(users, rungs, calls) && t == Run(map[], calls)
    ensures Built(scope, users, rungs, k, t, w)
    ensures k >= 1 ==> (Resolvable(EffectiveEdges(t, scope), users[k]) <==> k <= 19)
  {
    if k == 0 {
      RootIsBuilt(scope, users, rungs);
      return [], map[], [users[0]];
    }
    var before, s, v := CreationsBuild(scope, users, rungs, k - 1);
    var u := NextBuilds(scope, users, rungs, k - 1, s, v);
    RunAppends(map[], before, Creation(users, rungs, k - 1));
    OneMoreCreates(users, rungs, before);
    calls, t, w := before + [Creation(users, rungs, k - 1)], u, [users[k]] + v;
  }

  /**
   * For any users whose requests have different keys: nineteen creations from the root down give
   * a user whose chain has 19 edges and who resolves. The twentieth, below that user, is accepted
   * and stored, and its child does not resolve. A twenty-first, below that child, is refused.
   */
  lemma GuardAcceptsTooDeep(scope: Scope, users: seq<string>, rungs: seq<Rung>)
    returns (calls: seq<Call>, t: Table, u: Table, w: seq<string>)
    requires Ladder(scope, users, rungs) && |rungs| == 21
    ensures |calls| == 19 && Creates(users, rungs, calls)
    ensures t == Run(map[], calls) && u == After(t, Creation(users, rungs, 19))
    ensures IsChain(EffectiveEdges(t, scope), w) && |w| - 1 == 19 && w[0] == users[19]
    ensures Resolvable(EffectiveEdges(t, scope), users[19])
    ensures users[20] !in t && u == t[users[20] := rungs[19].row]
    ensures TooLong(EffectiveEdges(u, scope), users[20])
    ensures After(u, Creation(users, rungs, 20)) == u
  {
    calls, t, w := CreationsBuild(scope, users, rungs, 19);
    u := NextBuilds(scope, users, rungs, 19, t, w);
    NextIsRefused(scope, users, rungs, 20, u, [users[20]] + w);
  }

  // ---------------------------------------------------------------- there is such a ladder

  function User(k: nat): string {
    seq(k + 1, _ => 'u')
  }

  lemma UserIsTrimmed(k: nat)
    ensures Text.Trimmed(User(k)) && Text.Trim(User(k)) == User(k) && '|' !in User(k) && |User(k)| == k + 1
  {
    Text.TrimIdempotent(User(k));
  }

  function RungOf(scope: Scope, k: nat): Rung {
    Rung(EdgeDto(User(k), User(k + 1), scope), EdgeRow(User(k), User(k + 1), scope))
  }

  lemma RungsApart(scope: Scope, j: nat, k: nat)
    requires (scope == None || scope == Some("S")) && j < k
    ensures Apart(RungOf(scope, j).row, RungOf(scope, k).row)
  {
    UserIsTrimmed(j);
    UserIsTrimmed(j + 1);
    UserIsTrimmed(k);
    UserIsTrimmed(k + 1);
    RelationshipKeyInjective(User(j), User(j + 1), scope, User(k), User(k + 1), scope);
    ActiveScopeKeyInjective(User(j + 1), scope, User(k + 1), scope);
  }

  lemma RungIsProposed(scope: Scope, k: nat)
    requires scope == None || scope == Some("S")
    ensures var rung := RungOf(scope, k);
            && Proposed(rung.dto) == Success(rung.row)
            && rung.row.isActive && rung.row.scope == scope && rung.row.parent == User(k) &&
               rung.row.child == User(k + 1)
  {
    UserIsTrimmed(k);
    UserIsTrimmed(k + 1);
    EdgeProposed(User(k), User(k + 1), scope);
  }

  /** Globally and for a service, there are ladders of any length. */
  lemma LadderExists(scope: Scope, n: nat) returns (users: seq<string>, rungs: seq<Rung>)
    requires scope == None || scope == Some("S")
    ensures Ladder(scope, users, rungs) && |rungs| == n
  {
    users, rungs := seq(n + 1, i requires 0 <= i => User(i)), seq(n, i requires 0 <= i => RungOf(scope, i));
    forall i, j | 0 <= i < j < |users| ensures users[i] != users[j] {
      UserIsTrimmed(i);
      UserIsTrimmed(j);
    }
    forall i, j | 0 <= i < j < |rungs| ensures Apart(rungs[i].row, rungs[j].row) {
      RungsApart(scope, i, j);
    }
    forall i | 0 <= i < |rungs| ensures LeadsUp(scope, users, rungs, i) {
      RungIsProposed(scope, i);
    }
  }
}
