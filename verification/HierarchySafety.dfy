/**
 * Safety of the commission hierarchy over whole runs of atomic create, update and delete
 * calls, and what those calls do to the effective graph of a service.
 */
module HierarchySafety {
  import opened Prelude
  import Text
  import opened Graph
  import opened HierarchyTable
  import opened HierarchyWalks
  import opened HierarchyService

  datatype Call =
    | Create(newId: string, create: CreateDto)
    | Update(id: string, update: UpdateDto)
    | Delete(id: string)

  /** Every scope on its own is a forest, and the indexes hold. */
  ghost predicate Safe(t: Table) {
    Indexed(t) && forall scope: Scope :: Acyclic(OwnEdges(t, scope))
  }

  ghost function After(t: Table, call: Call): Table {
    match call
    case Create(newId, dto) => Created(t, newId, dto)
    case Update(id, dto) => if Text.Trim(id) == "" then t else Updated(t, id, dto)
    case Delete(id) => if Text.Trim(id) == "" then t else Deleted(t, id)
  }

  ghost function Run(t: Table, calls: seq<Call>): Table
    decreases |calls|
  {
    if calls == [] then t else Run(After(t, calls[0]), calls[1..])
  }

  // ---------------------------------------------------------------- one accepted write

  lemma SubgraphAcyclic(g: Edges, h: Edges)
    requires g <= h && Acyclic(h)
    ensures Acyclic(g)
  {
    forall p | IsCycle(g, p) ensures IsCycle(h, p) {
      forall i | 0 <= i < |p| - 1 ensures HopAt(h, p, i) {
        assert HopAt(g, p, i);
      }
    }
  }

  /** The accepted walk rules out every path from the new parent back to the child. */
  lemma ClearMeansUnreachable(g: Edges, child: string, parent: string)
    requires Functional(g) && Clear(g, child, parent)
    ensures !Reaches(g, parent, child)
  {
    var w :| IsChain(g, w) && w[0] == parent && |w| <= MAX_DEPTH && child !in w;
    forall p | IsPath(g, p) && p[0] == parent ensures p[|p| - 1] != child {
      ClearChainPath(g, child, w, p);
    }
  }

  lemma OwnEdgesElsewhere(t: Table, id: string, r: Row, scope: Scope)
    requires !r.isActive || scope != r.scope
    ensures OwnEdges(t[id := r], scope) <= OwnEdges(t, scope)
  {
    var u := t[id := r];
    forall e | e in OwnEdges(u, scope) ensures e in OwnEdges(t, scope) {
      var j :| j in u && u[j].isActive && u[j].scope == scope && e == (u[j].child, u[j].parent);
    }
  }

  lemma OwnEdgesInScope(t: Table, id: string, r: Row)
    requires Indexed(t) && Consistent(r) && KeysFree(t, id, r) && r.isActive
    ensures OwnEdges(t[id := r], r.scope) <= Redirect(OwnEdges(t, r.scope), r.child, r.parent)
  {
    var u := t[id := r];
    forall e | e in OwnEdges(u, r.scope) ensures e in Redirect(OwnEdges(t, r.scope), r.child, r.parent) {
      var j :| j in u && u[j].isActive && u[j].scope == r.scope && e == (u[j].child, u[j].parent);
      if e.0 == r.child {
        StoredIsOnlyOwn(t, id, r, j);
      }
    }
  }

  /** Storing an admissible row keeps every scope a forest. */
  lemma StoringKeepsSafe(t: Table, id: string, r: Row)
    requires Safe(t) && Consistent(r) && Admissible(t, id, r)
    ensures Safe(t[id := r])
  {
    StoringKeepsIndexed(t, id, r);
    var u := t[id := r];
    forall scope: Scope ensures Acyclic(OwnEdges(u, scope)) {
      if r.isActive && scope == r.scope {
        OwnEdgesInScope(t, id, r);
        OwnEdgeClosesNoCycle(t, r);
        SubgraphAcyclic(OwnEdges(u, scope), Redirect(OwnEdges(t, scope), r.child, r.parent));
      } else {
        OwnEdgesElsewhere(t, id, r, scope);
        SubgraphAcyclic(OwnEdges(u, scope), OwnEdges(t, scope));
      }
    }
  }

  lemma OwnEdgeClosesNoCycle(t: Table, r: Row)
    requires Safe(t) && Clear(EffectiveEdges(t, r.scope), r.child, r.parent)
    ensures Acyclic(Redirect(OwnEdges(t, r.scope), r.child, r.parent))
  {
    var own, g := OwnEdges(t, r.scope), EffectiveEdges(t, r.scope);
    EffectiveIsFunctional(t, r.scope);
    OwnWithinEffective(t, r.scope);
    ClearMeansUnreachable(g, r.child, r.parent);
    forall p | IsPath(own, p) ensures IsPath(g, p) {
      SubgraphPath(own, g, p);
    }
    RedirectAcyclicIff(own, r.child, r.parent);
  }

  lemma DeletedOwnEdges(t: Table, id: string, scope: Scope)
    ensures OwnEdges(Deleted(t, id), scope) <= OwnEdges(t, scope)
  {
    var u := Deleted(t, id);
    forall e | e in OwnEdges(u, scope) ensures e in OwnEdges(t, scope) {
      var j :| j in u && u[j].isActive && u[j].scope == scope && e == (u[j].child, u[j].parent);
    }
  }

  lemma DeletingKeepsSafe(t: Table, id: string)
    requires Safe(t)
    ensures Safe(Deleted(t, id))
  {
    var u := Deleted(t, id);
    DeletedKeepsIndexed(t, id);
    forall scope: Scope ensures Acyclic(OwnEdges(u, scope)) {
      DeletedOwnEdges(t, id, scope);
      SubgraphAcyclic(OwnEdges(u, scope), OwnEdges(t, scope));
    }
  }

  lemma AfterKeepsSafe(t: Table, call: Call)
    requires Safe(t)
    ensures Safe(After(t, call))
  {
    match call
    case Create(newId, dto) =>
      if Created(t, newId, dto) != t {
        StoringKeepsSafe(t, newId, Proposed(dto).value);
      }
    case Update(id, dto) =>
      if Text.Trim(id) != "" && Updated(t, id, dto) != t {
        assert Consistent(t[id]);
        StoringKeepsSafe(t, id, Moved(t[id], dto));
      }
    case Delete(id) => DeletingKeepsSafe(t, id);
  }

  lemma {:induction false} RunKeepsSafe(t: Table, calls: seq<Call>)
    requires Safe(t)
    ensures Safe(Run(t, calls))
    decreases |calls|
  {
    if calls != [] {
      AfterKeepsSafe(t, calls[0]);
      RunKeepsSafe(After(t, calls[0]), calls[1..]);
    }
  }

  /**
   * Whatever calls are made, in whatever order: the active global edges, and for each
   * service the active edges of that service alone, form an acyclic graph in which each
   * child has one parent. Moves between scopes and reactivations are among the calls.
   */
  lemma EveryScopeStaysAcyclic(calls: seq<Call>, scope: Scope)
    ensures Safe(Run(map[], calls)) && Acyclic(OwnEdges(Run(map[], calls), scope))
  {
    assert Safe(map[]) by {
      forall s: Scope ensures Acyclic(OwnEdges(map[], s)) {
        forall p ensures !IsCycle(OwnEdges(map[], s), p) {
          assert |p| >= 2 ==> !HopAt(OwnEdges(map[], s), p, 0);
        }
      }
    }
    RunKeepsSafe(map[], calls);
  }

  // ---------------------------------------------------------------- the effective graph

  /** In any reachable state a cycle of effective parents mixes the service's own and global edges. */
  lemma EffectiveCycleIsMixed(calls: seq<Call>, t: Table, service: string, p: seq<string>)
    requires t == Run(map[], calls) && service != "" && IsCycle(EffectiveEdges(t, Some(service)), p)
    ensures exists i :: 0 <= i < |p| - 1 && (p[i], p[i + 1]) !in OwnEdges(t, Some(service))
    ensures exists i :: 0 <= i < |p| - 1 && (p[i], p[i + 1]) !in OwnEdges(t, None)
    ensures forall i :: 0 <= i < |p| - 1 ==>
              (p[i], p[i + 1]) in OwnEdges(t, Some(service)) || (p[i], p[i + 1]) in OwnEdges(t, None)
  {
    var own, global, g := OwnEdges(t, Some(service)), OwnEdges(t, None), EffectiveEdges(t, Some(service));
    EveryScopeStaysAcyclic(calls, None);
    forall i | 0 <= i < |p| - 1 ensures (p[i], p[i + 1]) in own || (p[i], p[i + 1]) in global {
      assert HopAt(g, p, i);
    }
    assert !IsPath(own, p) && !IsPath(global, p) by {
      assert !IsCycle(own, p) && !IsCycle(global, p);
    }
  }

  /** The two tables differ in rows of `child` only. */
  ghost predicate SameElsewhere(t: Table, u: Table, child: string) {
    forall j :: (j in t && t[j].child != child) || (j in u && u[j].child != child) ==>
                  j in t && j in u && t[j] == u[j]
  }

  lemma StoreChangesOnlyItsChild(t: Table, id: string, r: Row)
    requires id in t ==> t[id].child == r.child
    ensures SameElsewhere(t, t[id := r], r.child)
  {
  }

  lemma OthersUnaffected(t: Table, u: Table, child: string, scope: Scope, j: string)
    requires SameElsewhere(t, u, child) && j in t && t[j].child != child
    ensures Effective(t, scope, j) <==> Effective(u, scope, j)
  {
    assert forall i :: Own(t, i, t[j].child, scope) <==> Own(u, i, t[j].child, scope);
  }

  /** `k` is the row that gives `child` its parent in `scope`. */
  ghost predicate Gives(t: Table, scope: Scope, child: string, k: string) {
    && Effective(t, scope, k) && t[k].child == child
    && forall j :: Effective(t, scope, j) && t[j].child == child ==> j == k
  }

  /** Whatever happened to the rows of `child`: its effective edges are redirected to the row now giving its parent. */
  lemma ChangeRedirects(t: Table, u: Table, scope: Scope, child: string, k: string)
    requires SameElsewhere(t, u, child) && Gives(u, scope, child, k)
    ensures EffectiveEdges(u, scope) == Redirect(EffectiveEdges(t, scope), child, u[k].parent)
  {
    var before, after := EffectiveEdges(t, scope), EffectiveEdges(u, scope);
    forall e | e in after ensures e in Redirect(before, child, u[k].parent) {
      var j :| j in u && Effective(u, scope, j) && e == (u[j].child, u[j].parent);
      if e.0 != child {
        OthersUnaffected(u, t, child, scope, j);
      }
    }
    forall e | e in before && e.0 != child ensures e in after {
      var j :| j in t && Effective(t, scope, j) && e == (t[j].child, t[j].parent);
      OthersUnaffected(t, u, child, scope, j);
    }
  }

  lemma ChangeRemoves(t: Table, u: Table, scope: Scope, child: string)
    requires SameElsewhere(t, u, child)
    requires forall j :: Effective(u, scope, j) ==> u[j].child != child
    ensures EffectiveEdges(u, scope) <= EffectiveEdges(t, scope)
  {
    forall e | e in EffectiveEdges(u, scope) ensures e in EffectiveEdges(t, scope) {
      var j :| j in u && Effective(u, scope, j) && e == (u[j].child, u[j].parent);
      OthersUnaffected(u, t, child, scope, j);
    }
  }

  lemma EffectiveGives(t: Table, scope: Scope, k: string)
    requires Indexed(t) && Effective(t, scope, k)
    ensures Gives(t, scope, t[k].child, k)
  {
    forall j | Effective(t, scope, j) && t[j].child == t[k].child ensures j == k {
      OneEffectiveParent(t, scope, j, k);
    }
  }

  /** Storing an active row redirects its child in the effective graph of the row's scope. */
  lemma ActivationRedirects(t: Table, id: string, r: Row)
    requires Indexed(t) && Consistent(r) && KeysFree(t, id, r) && r.isActive
    requires id in t ==> t[id].child == r.child
    ensures EffectiveEdges(t[id := r], r.scope) == Redirect(EffectiveEdges(t, r.scope), r.child, r.parent)
  {
    StoringKeepsIndexed(t, id, r);
    EffectiveGives(t[id := r], r.scope, id);
    StoreChangesOnlyItsChild(t, id, r);
    ChangeRedirects(t, t[id := r], r.scope, r.child, id);
  }

  /**
   * Activating an edge in a scope, by create or by update: the scope's effective graph is
   * acyclic afterwards exactly when every cycle it had before went through the child. In
   * particular a graph without cycles stays without.
   */
  lemma ActivationAcyclicIff(t: Table, id: string, r: Row)
    requires Indexed(t) && Consistent(r) && Admissible(t, id, r) && r.isActive
    requires id in t ==> t[id].child == r.child
    ensures Acyclic(EffectiveEdges(t[id := r], r.scope)) <==>
            forall p :: IsCycle(EffectiveEdges(t, r.scope), p) ==> r.child in p
  {
    ActivationRedirects(t, id, r);
    EffectiveIsFunctional(t, r.scope);
    ClearMeansUnreachable(EffectiveEdges(t, r.scope), r.child, r.parent);
    RedirectAcyclicIff(EffectiveEdges(t, r.scope), r.child, r.parent);
  }

  /**
   * A global edge leaves a service's effective parent of the child alone if the service has
   * its own; otherwise it redirects the child, and no walk over this service was made.
   */
  lemma GlobalActivationEffect(t: Table, id: string, r: Row, s: Scope)
    requires Indexed(t) && Consistent(r) && KeysFree(t, id, r) && r.isActive && r.scope == None != s
    requires id in t ==> t[id].child == r.child
    ensures EffectiveEdges(t[id := r], s) ==
            if HasOwn(t[id := r], r.child, s) then EffectiveEdges(t, s)
            else Redirect(EffectiveEdges(t, s), r.child, r.parent)
  {
    var u := t[id := r];
    StoringKeepsIndexed(t, id, r);
    StoreChangesOnlyItsChild(t, id, r);
    if HasOwn(u, r.child, s) {
      var k :| k in u && Own(u, k, r.child, s);
      assert k != id && t[k] == u[k];
      EffectiveGives(u, s, k);
      EffectiveGives(t, s, k);
      ChangeRedirects(t, u, s, r.child, k);
      ChangeRedirects(t, t, s, r.child, k);
    } else {
      EffectiveGives(u, s, id);
      ChangeRedirects(t, u, s, r.child, id);
    }
  }

  /** When a global activation keeps a service's effective graph acyclic: the code does not check this. */
  lemma GlobalActivationAcyclicIff(t: Table, id: string, r: Row, s: Scope)
    requires Indexed(t) && Consistent(r) && KeysFree(t, id, r) && r.isActive && r.scope == None != s
    requires id in t ==> t[id].child == r.child
    requires Acyclic(EffectiveEdges(t, s))
    ensures Acyclic(EffectiveEdges(t[id := r], s)) <==>
            HasOwn(t[id := r], r.child, s) || !Reaches(EffectiveEdges(t, s), r.parent, r.child)
  {
    GlobalActivationEffect(t, id, r, s);
    RedirectAcyclicIff(EffectiveEdges(t, s), r.child, r.parent);
  }

  lemma DeletionLeavesNoOwn(t: Table, id: string)
    requires Indexed(t) && id in t && t[id].isActive
    ensures SameElsewhere(t, Deleted(t, id), t[id].child)
    ensures !HasOwn(Deleted(t, id), t[id].child, t[id].scope)
  {
    forall j ensures !Own(Deleted(t, id), j, t[id].child, t[id].scope) {
      if Own(t, j, t[id].child, t[id].scope) {
        OneActiveParent(t, id, j, t[id].child, t[id].scope);
      }
    }
  }

  /** Deleting a service's own edge lets the child's global edge, if any, take its place. */
  lemma DeletionReveals(t: Table, id: string, g: string)
    requires Indexed(t) && id in t && t[id].isActive && t[id].scope != None
    requires Own(t, g, t[id].child, None)
    ensures EffectiveEdges(Deleted(t, id), t[id].scope) ==
            Redirect(EffectiveEdges(t, t[id].scope), t[id].child, t[g].parent)
  {
    var u := Deleted(t, id);
    DeletedKeepsIndexed(t, id);
    DeletionLeavesNoOwn(t, id);
    assert u[g] == t[g] && Effective(u, t[id].scope, g);
    EffectiveGives(u, t[id].scope, g);
    ChangeRedirects(t, u, t[id].scope, t[id].child, g);
  }

  lemma DeletionRemoves(t: Table, id: string)
    requires Indexed(t) && id in t && t[id].isActive && t[id].scope != None
    requires forall g :: !Own(t, g, t[id].child, None)
    ensures EffectiveEdges(Deleted(t, id), t[id].scope) <= EffectiveEdges(t, t[id].scope)
  {
    var u := Deleted(t, id);
    DeletionLeavesNoOwn(t, id);
    forall j | Effective(u, t[id].scope, j) ensures u[j].child != t[id].child {
      assert Own(u, j, u[j].child, u[j].scope);
      assert j != id && Own(t, j, t[j].child, t[j].scope);
    }
    ChangeRemoves(t, u, t[id].scope, t[id].child);
  }

  /** When deleting a service's edge keeps its effective graph acyclic: the code does not check this. */
  lemma DeleteAcyclicIff(t: Table, id: string, s: Scope)
    requires Indexed(t) && s != None && id in t && t[id].isActive && t[id].scope == s
    requires Acyclic(EffectiveEdges(t, s))
    ensures Acyclic(EffectiveEdges(Deleted(t, id), s)) <==>
            forall g :: Own(t, g, t[id].child, None) ==>
              !Reaches(EffectiveEdges(t, s), t[g].parent, t[id].child)
  {
    var c := t[id].child;
    if g :| Own(t, g, c, None) {
      DeletionReveals(t, id, g);
      RedirectAcyclicIff(EffectiveEdges(t, s), c, t[g].parent);
      forall h | Own(t, h, c, None) ensures h == g {
        OneActiveParent(t, g, h, c, None);
      }
    } else {
      DeletionRemoves(t, id);
      SubgraphAcyclic(EffectiveEdges(Deleted(t, id), s), EffectiveEdges(t, s));
    }
  }

  // ---------------------------------------------------------------- the depth limit

  /**
   * A child accepted for a service resolves to itself and then its parent's chain, if that
   * chain has at most 18 edges; with the 19 edges the guard still accepts, resolving fails.
   */
  lemma AcceptedChildResolves(t: Table, id: string, r: Row, w: seq<string>)
    requires Indexed(t) && Consistent(r) && Admissible(t, id, r) && r.isActive
    requires id in t ==> t[id].child == r.child
    requires IsChain(EffectiveEdges(t, r.scope), w) && w[0] == r.parent
    ensures |w| - 1 <= 19
    ensures var g := EffectiveEdges(t[id := r], r.scope);
            && IsChain(g, [r.child] + w)
            && (Resolvable(g, r.child) <==> |w| - 1 <= 18)
            && (TooLong(g, r.child) <==> |w| - 1 == 19)
  {
    var before, g := EffectiveEdges(t, r.scope), EffectiveEdges(t[id := r], r.scope);
    EffectiveIsFunctional(t, r.scope);
    AcceptedChain(before, r.child, w);
    ActivationRedirects(t, id, r);
    StoringKeepsIndexed(t, id, r);
    EffectiveIsFunctional(t[id := r], r.scope);
    RedirectedChain(before, r.child, w);
    ChainMeansResolvable(g, [r.child] + w);
  }

  lemma AcceptedChain(g: Edges, child: string, w: seq<string>)
    requires Functional(g) && IsChain(g, w) && Clear(g, child, w[0])
    ensures |w| <= MAX_DEPTH && child !in w
  {
    var v :| IsChain(g, v) && v[0] == w[0] && |v| <= MAX_DEPTH && child !in v;
    ChainPath(g, v, w);
  }

  lemma RedirectedChain(g: Edges, child: string, w: seq<string>)
    requires IsChain(g, w) && child !in w
    ensures IsChain(Redirect(g, child, w[0]), [child] + w)
  {
    var h := Redirect(g, child, w[0]);
    RedirectKeeps(g, child, w[0], w);
    JoinIsPath(h, [child], w);
    var last := w[|w| - 1];
    assert forall x :: Hop(h, last, x) ==> Hop(g, last, x);
  }

  // ---------------------------------------------------------------- a write long after its check

  lemma OtherOwnEdgeStays(t: Table, id: string, r: Row, e: (string, string))
    requires id in t ==> t[id].child == r.child
    requires e in OwnEdges(t, r.scope) && e.0 != r.child
    ensures e in OwnEdges(t[id := r], r.scope)
  {
    var j :| j in t && t[j].isActive && t[j].scope == r.scope && e == (t[j].child, t[j].parent);
    assert t[id := r][j] == t[j];
  }

  lemma NewOwnEdge(t: Table, id: string, r: Row)
    requires r.isActive
    ensures (r.child, r.parent) in OwnEdges(t[id := r], r.scope)
  {
    assert t[id := r][id] == r;
  }

  /** Storing an active row redirects its child among the edges of its own scope. */
  lemma OwnRedirects(t: Table, id: string, r: Row)
    requires Indexed(t) && Consistent(r) && KeysFree(t, id, r) && r.isActive
    requires id in t ==> t[id].child == r.child
    ensures OwnEdges(t[id := r], r.scope) == Redirect(OwnEdges(t, r.scope), r.child, r.parent)
  {
    OwnEdgesInScope(t, id, r);
    NewOwnEdge(t, id, r);
    forall e | e in OwnEdges(t, r.scope) && e.0 != r.child ensures e in OwnEdges(t[id := r], r.scope) {
      OtherOwnEdgeStays(t, id, r, e);
    }
  }

  /**
   * The check and the write of a call are separate. Whatever the check said, the write keeps
   * every scope a forest if and only if at that moment the new parent does not lead back to
   * the child within the row's own scope.
   */
  lemma LateWriteSafeIff(t: Table, id: string, r: Row)
    requires Safe(t) && Consistent(r) && KeysFree(t, id, r) && r.isActive
    requires id in t ==> t[id].child == r.child
    ensures Safe(t[id := r]) <==> !Reaches(OwnEdges(t, r.scope), r.parent, r.child)
  {
    var u := t[id := r];
    StoringKeepsIndexed(t, id, r);
    OwnRedirects(t, id, r);
    RedirectAcyclicIff(OwnEdges(t, r.scope), r.child, r.parent);
    forall scope: Scope | scope != r.scope ensures Acyclic(OwnEdges(u, scope)) {
      OwnEdgesElsewhere(t, id, r, scope);
      SubgraphAcyclic(OwnEdges(u, scope), OwnEdges(t, scope));
    }
  }

  // ---------------------------------------------------------------- an effective cycle is reachable

  function EdgeDto(parent: string, child: string, scope: Scope): CreateDto {
    CreateDto(parent, "R", child, "R", scope, None)
  }

  function EdgeRow(parent: string, child: string, scope: Scope): Row {
    MakeRow(parent, "R", child, "R", scope, true)
  }

  lemma EdgeProposed(parent: string, child: string, scope: Scope)
    requires parent != child && parent != "" && child != "" && Text.Trimmed(parent) && Text.Trimmed(child)
    requires scope == None || scope == Some("S")
    ensures Proposed(EdgeDto(parent, child, scope)) == Success(EdgeRow(parent, child, scope))
  {
    Text.TrimIdempotent(parent);
    Text.TrimIdempotent(child);
    Text.TrimIdempotent("R");
    Text.TrimIdempotent("S");
    assert Text.Code("R") == "R" && Text.Code("S") == "S";
  }

  lemma CreationStores(t: Table, id: string, dto: CreateDto, r: Row)
    requires Proposed(dto) == Success(r) && id !in t && Admissible(t, id, r)
    ensures After(t, Create(id, dto)) == t[id := r]
  {
  }

  /** An edge that leaves from a parentless user is accepted. */
  lemma EdgeAccepted(t: Table, id: string, parent: string, child: string, scope: Scope)
    requires parent != child && parent != "" && child != "" && Text.Trimmed(parent) && Text.Trimmed(child)
    requires scope == None || scope == Some("S")
    requires id !in t && KeysFree(t, id, EdgeRow(parent, child, scope))
    requires IsSink(EffectiveEdges(t, scope), parent)
    ensures After(t, Create(id, EdgeDto(parent, child, scope))) == t[id := EdgeRow(parent, child, scope)]
  {
    EdgeProposed(parent, child, scope);
    assert IsChain(EffectiveEdges(t, scope), [parent]);
  }

  const ABOVE_B := EdgeRow("A", "B", Some("S"))
  const ABOVE_A := EdgeRow("B", "A", None)

  lemma SecondEdgeKeysFree()
    ensures KeysFree(map["1" := ABOVE_B], "2", ABOVE_A)
  {
    Text.TrimIdempotent("A");
    Text.TrimIdempotent("B");
    assert ABOVE_B.relationshipKey.preimage[0] == 'A' && ABOVE_A.relationshipKey.preimage[0] == 'B';
    assert ABOVE_B.activeScopeKey.value.preimage[0] == 'B' && ABOVE_A.activeScopeKey.value.preimage[0] == 'A';
  }

  lemma BothEffective()
    ensures IsCycle(EffectiveEdges(map["1" := ABOVE_B, "2" := ABOVE_A], Some("S")), ["A", "B", "A"])
  {
    var t: Table := map["1" := ABOVE_B, "2" := ABOVE_A];
    assert Effective(t, Some("S"), "1") && Effective(t, Some("S"), "2");
    assert Hop(EffectiveEdges(t, Some("S")), t["1"].child, t["1"].parent);
    assert Hop(EffectiveEdges(t, Some("S")), t["2"].child, t["2"].parent);
  }

  /** B gets parent A for service S, then A gets parent B globally; both calls are accepted. */
  lemma GlobalEdgeCanCloseCycle() returns (calls: seq<Call>, p: seq<string>)
    ensures IsCycle(EffectiveEdges(Run(map[], calls), Some("S")), p)
  {
    var one, two := Create("1", EdgeDto("A", "B", Some("S"))), Create("2", EdgeDto("B", "A", None));
    EdgeAccepted(map[], "1", "A", "B", Some("S"));
    SecondEdgeKeysFree();
    EdgeAccepted(map["1" := ABOVE_B], "2", "B", "A", None);
    BothEffective();
    RunTwo(map[], one, two);
    calls, p := [one, two], ["A", "B", "A"];
    assert map["1" := ABOVE_B]["2" := ABOVE_A] == map["1" := ABOVE_B, "2" := ABOVE_A];
  }

  lemma RunTwo(t: Table, one: Call, two: Call)
    ensures Run(t, [one, two]) == After(After(t, one), two)
  {
    var u := After(t, one);
    assert [one, two][1..] == [two];
    assert Run(u, [two]) == Run(After(u, two), []);
  }
}
