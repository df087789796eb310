/**
 * CommissionHierarchyService: the two bounded walks and the create, update and delete
 * calls, each proved against an unbounded, declarative description of its effect.
 */
module HierarchyService {
  import opened Prelude
  import opened Text
  import opened Graph
  import opened HierarchyTable
  import opened HierarchyWalks

  datatype RpcError =
    | Required(field: string)
    | SelfParent
    | NotFound
    | DuplicateRelationship(id: string)
    | HasActiveParent(id: string)
    | Circular(user: string)
    | TooDeep

  datatype CreateDto = CreateDto(
    parentUserId: string, parentRole: string,
    childUserId: string, childRole: string,
    serviceType: Option<string>, isActive: Option<bool>)

  datatype UpdateDto = UpdateDto(serviceType: Field<Option<string>>, isActive: Field<bool>)

  datatype Entry = Entry(userId: string, role: string, level: nat)

  // ---------------------------------------------------------------- proposed rows

  predicate Empty(text: string) {
    Trim(text) == ""
  }

  /** A missing or blank service stands for the global scope, any other text for its code. */
  predicate ScopeOf(value: Option<string>, scope: Scope) {
    if value == None || Empty(value.value) then scope == None else scope == Some(Code(value.value))
  }

  /** `r` holds what a create request gives: each user with its own role. */
  ghost predicate AsRequested(dto: CreateDto, r: Row) {
    && r.parent == Trim(dto.parentUserId) && r.parentRole == Code(dto.parentRole)
    && r.child == Trim(dto.childUserId) && r.childRole == Code(dto.childRole)
    && ScopeOf(dto.serviceType, r.scope)
    && (r.isActive <==> dto.isActive != Some(false))
  }

  /** `r` is `existing` with the scope and the flag that an update request gives; the rest stays. */
  ghost predicate Rewritten(existing: Row, dto: UpdateDto, r: Row) {
    && r.parent == existing.parent && r.parentRole == existing.parentRole
    && r.child == existing.child && r.childRole == existing.childRole
    && (if dto.serviceType.Given? then ScopeOf(dto.serviceType.value, r.scope) else r.scope == existing.scope)
    && r.isActive == (if dto.isActive.Given? then dto.isActive.value else existing.isActive)
  }

  function NormalizeServiceType(value: Option<string>): (scope: Scope)
    ensures ScopeOf(value, scope)
  {
    if value.None? || Code(value.value) == "" then None else Some(Code(value.value))
  }

  function MakeRow(parent: string, parentRole: string, child: string, childRole: string,
                   scope: Scope, active: bool): Row
  {
    Row(parent, parentRole, child, childRole, scope,
        RelationshipKey(parent, child, scope),
        if active then Some(ActiveScopeKey(child, scope)) else None,
        active)
  }

  /** The row a create request asks for. */
  function Proposed(dto: CreateDto): (r: Result<Row, RpcError>)
    ensures r.Success? ==> Consistent(r.value) && r.value.parent != r.value.child
    ensures r.Success? ==> AsRequested(dto, r.value)
  {
    TrimIdempotent(dto.parentUserId);
    TrimIdempotent(dto.childUserId);
    var parent, child := Trim(dto.parentUserId), Trim(dto.childUserId);
    if parent == "" then Failure(Required("Parent user ID"))
    else if child == "" then Failure(Required("Child user ID"))
    else if Code(dto.parentRole) == "" then Failure(Required("Parent role"))
    else if Code(dto.childRole) == "" then Failure(Required("Child role"))
    else if parent == child then Failure(SelfParent)
    else Success(MakeRow(parent, Code(dto.parentRole), child, Code(dto.childRole),
                         NormalizeServiceType(dto.serviceType), dto.isActive != Some(false)))
  }

  /** What is missing or wrong is reported in the order of the fields; otherwise there is a row. */
  lemma ProposedErrors(dto: CreateDto, r: Result<Row, RpcError>)
    requires r == Proposed(dto)
    ensures r == Failure(Required("Parent user ID")) <==> Empty(dto.parentUserId)
    ensures r == Failure(Required("Child user ID")) <==> !Empty(dto.parentUserId) && Empty(dto.childUserId)
    ensures r == Failure(Required("Parent role")) <==>
            !Empty(dto.parentUserId) && !Empty(dto.childUserId) && Empty(dto.parentRole)
    ensures r == Failure(Required("Child role")) <==>
            !Empty(dto.parentUserId) && !Empty(dto.childUserId) && !Empty(dto.parentRole) && Empty(dto.childRole)
    ensures r == Failure(SelfParent) <==>
            && !Empty(dto.parentUserId) && Trim(dto.parentUserId) == Trim(dto.childUserId)
            && !Empty(dto.parentRole) && !Empty(dto.childRole)
    ensures r.Success? || r.error.Required? || r.error.SelfParent?
    ensures r.Failure? && r.error.Required? ==>
            r.error.field in {"Parent user ID", "Child user ID", "Parent role", "Child role"}
  {
  }

  /** The row an update request asks for; parent and child never change. */
  function Moved(existing: Row, dto: UpdateDto): (r: Row)
    ensures Consistent(existing) ==> Consistent(r)
    ensures Rewritten(existing, dto, r)
  {
    MakeRow(existing.parent, existing.parentRole, existing.child, existing.childRole,
            if dto.serviceType.Given? then NormalizeServiceType(dto.serviceType.value) else existing.scope,
            if dto.isActive.Given? then dto.isActive.value else existing.isActive)
  }

  // ---------------------------------------------------------------- resolved hierarchies

  /** `e` names the effective parent of `child` and carries that edge's role. */
  ghost predicate GivesParent(t: Table, scope: Scope, child: string, e: Entry) {
    exists id ::
      Effective(t, scope, id) && t[id].child == child && t[id].parent == e.userId && t[id].parentRole == e.role
  }

  /** Entry `i` has its own level and is the parent of the entry before. */
  ghost predicate LinkedAt(t: Table, scope: Scope, h: seq<Entry>, i: nat)
    requires 0 < i < |h|
  {
    h[i].level == i && GivesParent(t, scope, h[i - 1].userId, h[i])
  }

  /** The chain resolved for `source`: levels count up, each entry is the parent of the one before. */
  ghost predicate IsResolution(t: Table, scope: Scope, source: string, h: seq<Entry>) {
    && |h| >= 1 && h[0] == Entry(source, "UNKNOWN", 0)
    && forall i :: 0 < i < |h| ==> LinkedAt(t, scope, h, i)
  }

  /** The state of the resolving walk. */
  ghost predicate Resolving(t: Table, scope: Scope, source: string, h: seq<Entry>, visited: set<string>) {
    && IsResolution(t, scope, source, h)
    && IsPath(EffectiveEdges(t, scope), Users(h)) && AllNew(Users(h), |h|)
    && visited == Seen(Users(h))
  }

  lemma ResolutionExtends(t: Table, scope: Scope, source: string, h: seq<Entry>, e: Entry)
    requires IsResolution(t, scope, source, h)
    requires e.level == |h| && GivesParent(t, scope, h[|h| - 1].userId, e)
    ensures IsResolution(t, scope, source, h + [e])
  {
    forall i | 0 < i < |h + [e]| ensures LinkedAt(t, scope, h + [e], i) {
      assert i < |h| ==> LinkedAt(t, scope, h, i);
    }
  }

  lemma PathExtends(g: Edges, p: seq<string>, u: string)
    requires IsPath(g, p) && AllNew(p, |p|) && Hop(g, p[|p| - 1], u)
    ensures u !in Seen(p) ==> IsPath(g, p + [u]) && AllNew(p + [u], |p| + 1)
    ensures u in Seen(p) ==> IsLasso(g, p + [u])
  {
    JoinIsPath(g, p, [u]);
    SeenIffOnPath(p, u);
    assert forall i :: 0 <= i < |p| ==> (p + [u])[i] == p[i];
    if u in Seen(p) {
      var i :| 0 <= i < |p| && p[i] == u;
      assert (p + [u])[i] == (p + [u])[|p|];
    }
  }

  lemma ResolvingExtends(t: Table, scope: Scope, source: string, h: seq<Entry>, visited: set<string>, e: Entry)
    requires Resolving(t, scope, source, h, visited)
    requires e.level == |h| && GivesParent(t, scope, h[|h| - 1].userId, e)
    ensures e.userId !in visited ==> Resolving(t, scope, source, h + [e], visited + {e.userId})
    ensures e.userId in visited ==> IsLasso(EffectiveEdges(t, scope), Users(h + [e]))
  {
    ResolutionExtends(t, scope, source, h, e);
    assert Users(h + [e]) == Users(h) + [e.userId];
    assert Hop(EffectiveEdges(t, scope), Users(h)[|h| - 1], e.userId);
    PathExtends(EffectiveEdges(t, scope), Users(h), e.userId);
    SeenExtends(Users(h), e.userId);
  }

  /** What a resolution result says about the graph of effective parents, in both directions. */
  ghost predicate Resolved(t: Table, scope: Scope, source: string, r: Result<seq<Entry>, RpcError>) {
    var g := EffectiveEdges(t, scope);
    && (r.Success? <==> Resolvable(g, source))
    && (forall u :: r == Failure(Circular(u)) <==> RunsInto(g, source, u))
    && (r == Failure(TooDeep) <==> TooLong(g, source))
    && (r.Success? ==> IsResolution(t, scope, source, r.value) && IsChain(g, Users(r.value)))
  }

  /** What resolving answers to a raw user id and service text. */
  ghost predicate Answered(t: Table, source: string, service: string, r: Result<seq<Entry>, RpcError>) {
    if Empty(source) then r == Failure(Required("Source user ID"))
    else if Empty(service) then r == Failure(Required("Service type"))
    else Resolved(t, Some(Code(service)), Trim(source), r)
  }

  lemma ChainResolved(t: Table, scope: Scope, source: string, h: seq<Entry>, visited: set<string>)
    requires Indexed(t) && Resolving(t, scope, source, h, visited) && |h| <= MAX_DEPTH
    requires IsSink(EffectiveEdges(t, scope), h[|h| - 1].userId)
    ensures Resolved(t, scope, source, Success(h))
  {
    EffectiveIsFunctional(t, scope);
    ChainMeansResolvable(EffectiveEdges(t, scope), Users(h));
  }

  lemma LassoResolved(t: Table, scope: Scope, source: string, h: seq<Entry>, user: string)
    requires Indexed(t) && 1 <= |h| <= MAX_DEPTH + 1 && h[0].userId == source && h[|h| - 1].userId == user
    requires IsLasso(EffectiveEdges(t, scope), Users(h))
    ensures Resolved(t, scope, source, Failure(Circular(user)))
  {
    EffectiveIsFunctional(t, scope);
    LassoMeansNotResolvable(EffectiveEdges(t, scope), Users(h));
  }

  lemma LongResolved(t: Table, scope: Scope, source: string, h: seq<Entry>, visited: set<string>)
    requires Indexed(t) && Resolving(t, scope, source, h, visited) && |h| == MAX_DEPTH + 1
    ensures Resolved(t, scope, source, Failure(TooDeep))
  {
    EffectiveIsFunctional(t, scope);
    LongPathMeansTooLong(EffectiveEdges(t, scope), Users(h));
  }

  function Users(h: seq<Entry>): seq<string> {
    seq(|h|, i requires 0 <= i < |h| => h[i].userId)
  }

  // ---------------------------------------------------------------- effects on the table

  /** Row `r` may be stored under `id`: no other row has its keys, and if active it closes no cycle. */
  ghost predicate Admissible(t: Table, id: string, r: Row) {
    KeysFree(t, id, r) && (r.isActive ==> Clear(EffectiveEdges(t, r.scope), r.child, r.parent))
  }

  /** Why a checked row is refused, in the order of the checks. */
  ghost predicate RefusedFor(t: Table, id: string, r: Row, e: RpcError) {
    var duplicated := exists j :: j in t && j != id && t[j].relationshipKey == r.relationshipKey;
    match e
    case DuplicateRelationship(j) => j in t && j != id && t[j].relationshipKey == r.relationshipKey
    case HasActiveParent(j) =>
      !duplicated && r.isActive && j in t && j != id && t[j].activeScopeKey == r.activeScopeKey
    case Circular(u) => KeysFree(t, id, r) && r.isActive && MeetsAgain(EffectiveEdges(t, r.scope), r.child, r.parent, u)
    case TooDeep => KeysFree(t, id, r) && r.isActive && Overlong(EffectiveEdges(t, r.scope), r.child, r.parent)
    case _ => false
  }

  ghost function Created(t: Table, id: string, dto: CreateDto): Table {
    var r := Proposed(dto);
    if r.Success? && id !in t && Admissible(t, id, r.value) then t[id := r.value] else t
  }

  ghost function Updated(t: Table, id: string, dto: UpdateDto): Table {
    if id in t && Admissible(t, id, Moved(t[id], dto)) then t[id := Moved(t[id], dto)] else t
  }

  ghost function Deleted(t: Table, id: string): Table {
    if id in t && t[id].isActive then t[id := t[id].(isActive := false, activeScopeKey := None)] else t
  }

  lemma DeletedKeepsIndexed(t: Table, id: string)
    requires Indexed(t)
    ensures Indexed(Deleted(t, id))
  {
    assert id in t ==> Consistent(t[id]);
  }

  // ---------------------------------------------------------------- the service

  class CommissionHierarchyService {
    var rows: Table

    ghost predicate Valid() reads this {
      Indexed(rows)
    }

    constructor ()
      ensures Valid() && rows == map[]
    {
      rows := map[];
    }

    method FindActive(childUserId: string, scope: Scope) returns (r: Option<string>)
      ensures r.Some? ==> Own(rows, r.value, childUserId, scope)
      ensures r.None? ==> !HasOwn(rows, childUserId, scope)
    {
      var found := set id | id in rows && Own(rows, id, childUserId, scope);
      if found == {} {
        r := None;
        assert forall id :: Own(rows, id, childUserId, scope) ==> id in found;
      } else {
        var id :| id in found;
        r := Some(id);
      }
    }

    /** The service's own active row of the child if there is one, else the global one. */
    method ResolveParentRecord(childUserId: string, serviceType: Scope) returns (r: Option<Row>)
      requires Valid() && serviceType != Some("")
      ensures r.Some? ==> Hop(EffectiveEdges(rows, serviceType), childUserId, r.value.parent)
      ensures r.Some? ==>
              forall n :: GivesParent(rows, serviceType, childUserId, Entry(r.value.parent, r.value.parentRole, n))
      ensures r.None? ==> IsSink(EffectiveEdges(rows, serviceType), childUserId)
    {
      if serviceType.Some? {
        var specific := FindActive(childUserId, serviceType);
        if specific.Some? {
          assert Effective(rows, serviceType, specific.value);
          return Some(rows[specific.value]);
        }
      }
      var global := FindActive(childUserId, None);
      if global.Some? {
        assert Effective(rows, serviceType, global.value);
        return Some(rows[global.value]);
      }
      forall v ensures !Hop(EffectiveEdges(rows, serviceType), childUserId, v) {
        assert forall id :: id in rows && Effective(rows, serviceType, id) && rows[id].child == childUserId ==>
            Own(rows, id, childUserId, rows[id].scope);
      }
      return None;
    }

    /** Decides whether `child` may get `proposedParent`; each verdict is characterised exactly. */
    method AssertNoCircularHierarchy(child: string, proposedParent: string, serviceType: Scope)
      returns (r: Result<(), RpcError>)
      requires Valid() && serviceType != Some("")
      ensures var g := EffectiveEdges(rows, serviceType);
              && (r.Success? <==> Clear(g, child, proposedParent))
              && (forall u :: r == Failure(Circular(u)) <==> MeetsAgain(g, child, proposedParent, u))
              && (r == Failure(TooDeep) <==> Overlong(g, child, proposedParent))
              && (r.Success? || r.error.Circular? || r.error.TooDeep?)
    {
      ghost var g := EffectiveEdges(rows, serviceType);
      EffectiveIsFunctional(rows, serviceType);
      var visited := {child};
      var current := proposedParent;
      var depth := 0;
      ghost var path := [proposedParent];
      while depth < MAX_DEPTH
        invariant 0 <= depth <= MAX_DEPTH && |path| == depth + 1 && path[depth] == current
        invariant Walked(g, child, proposedParent, path, visited)
      {
        WalkRepeats(g, child, proposedParent, path, visited);
        if current in visited {
          RepeatExcludes(g, child, path);
          return Failure(Circular(current));
        }
        var parent := ResolveParentRecord(current, serviceType);
        if parent.None? {
          ClearExcludes(g, child, path);
          return Success(());
        }
        WalkExtends(g, child, proposedParent, path, visited, parent.value.parent);
        visited := visited + {current};
        current := parent.value.parent;
        path := path + [current];
        depth := depth + 1;
      }
      OverlongExcludes(g, child, path);
      return Failure(TooDeep);
    }

    /** The resolving loop: it returns exactly when the parent chain ends within MAX_DEPTH - 1 edges. */
    method FollowParents(source: string, scope: Scope) returns (r: Result<seq<Entry>, RpcError>)
      requires Valid() && scope != Some("")
      ensures Resolved(rows, scope, source, r)
    {
      var hierarchy := [Entry(source, "UNKNOWN", 0)];
      var visitedUsers := {source};
      var current := source;
      var level := 0;
      assert Users(hierarchy) == [source];
      while level < MAX_DEPTH
        invariant 0 <= level <= MAX_DEPTH && |hierarchy| == level + 1 && hierarchy[level].userId == current
        invariant Resolving(rows, scope, source, hierarchy, visitedUsers)
      {
        var parent := ResolveParentRecord(current, scope);
        if parent.None? {
          ChainResolved(rows, scope, source, hierarchy, visitedUsers);
          return Success(hierarchy);
        }
        var next := Entry(parent.value.parent, parent.value.parentRole, level + 1);
        ResolvingExtends(rows, scope, source, hierarchy, visitedUsers, next);
        if next.userId in visitedUsers {
          LassoResolved(rows, scope, source, hierarchy + [next], next.userId);
          return Failure(Circular(next.userId));
        }
        visitedUsers := visitedUsers + {next.userId};
        current := next.userId;
        level := level + 1;
        hierarchy := hierarchy + [next];
      }
      LongResolved(rows, scope, source, hierarchy, visitedUsers);
      return Failure(TooDeep);
    }

    method ResolveHierarchyForUser(sourceUserId: string, serviceType: string)
      returns (r: Result<seq<Entry>, RpcError>)
      requires Valid()
      ensures Answered(rows, sourceUserId, serviceType, r)
    {
      var source, service := Trim(sourceUserId), Code(serviceType);
      if source == "" {
        return Failure(Required("Source user ID"));
      }
      if service == "" {
        return Failure(Required("Service type"));
      }
      r := FollowParents(source, Some(service));
    }

    method FindByRelationshipKey(key: Digest) returns (r: Option<string>)
      ensures r.Some? ==> r.value in rows && rows[r.value].relationshipKey == key
      ensures r.None? ==> forall id :: id in rows ==> rows[id].relationshipKey != key
    {
      var found := set id | id in rows && rows[id].relationshipKey == key;
      if found == {} {
        assert forall id :: id in rows && rows[id].relationshipKey == key ==> id in found;
        return None;
      }
      var id :| id in found;
      return Some(id);
    }

    method FindByActiveScopeKey(key: Digest) returns (r: Option<string>)
      ensures r.Some? ==> r.value in rows && rows[r.value].activeScopeKey == Some(key)
      ensures r.None? ==> forall id :: id in rows ==> rows[id].activeScopeKey != Some(key)
    {
      var found := set id | id in rows && rows[id].activeScopeKey == Some(key);
      if found == {} {
        assert forall id :: id in rows && rows[id].activeScopeKey == Some(key) ==> id in found;
        return None;
      }
      var id :| id in found;
      return Some(id);
    }

    method CreateHierarchy(dto: CreateDto, newId: string) returns (r: Result<Row, RpcError>)
      requires Valid() && newId !in rows
      modifies this
      ensures Valid()
      ensures rows == Created(old(rows), newId, dto)
      ensures r.Success? <==> Proposed(dto).Success? && Admissible(old(rows), newId, Proposed(dto).value)
      ensures r.Success? ==> r == Proposed(dto)
      ensures r.Success? ==>
                AsRequested(dto, r.value) && r.value.parent != r.value.child && rows == old(rows)[newId := r.value]
      ensures Proposed(dto).Failure? ==> r == Proposed(dto)
      ensures r.Failure? && Proposed(dto).Success? ==> RefusedFor(old(rows), newId, Proposed(dto).value, r.error)
    {
      var proposed := Proposed(dto);
      if proposed.Failure? {
        return proposed;
      }
      var row := proposed.value;
      var existing := FindByRelationshipKey(row.relationshipKey);
      if existing.Some? {
        assert !KeysFree(rows, newId, row);
        return Failure(DuplicateRelationship(existing.value));
      }
      if row.activeScopeKey.Some? {
        var active := FindByActiveScopeKey(row.activeScopeKey.value);
        if active.Some? {
          assert !KeysFree(rows, newId, row);
          return Failure(HasActiveParent(active.value));
        }
      }
      if row.isActive {
        var clear := AssertNoCircularHierarchy(row.child, row.parent, row.scope);
        if clear.Failure? {
          return Failure(clear.error);
        }
      }
      assert Admissible(rows, newId, row);
      StoringKeepsIndexed(rows, newId, row);
      rows := rows[newId := row];
      return Success(row);
    }

    method UpdateHierarchy(id: string, dto: UpdateDto) returns (r: Result<Row, RpcError>)
      requires Valid()
      modifies this
      ensures Valid()
      ensures Trim(id) == "" ==> r == Failure(Required("Hierarchy ID")) && rows == old(rows)
      ensures Trim(id) != "" && id !in old(rows) ==> r == Failure(NotFound)
      ensures Trim(id) != "" ==> rows == Updated(old(rows), id, dto)
      ensures r.Success? <==> Trim(id) != "" && id in old(rows) && Admissible(old(rows), id, Moved(old(rows)[id], dto))
      ensures r.Failure? && Trim(id) != "" && id in old(rows) ==>
                RefusedFor(old(rows), id, Moved(old(rows)[id], dto), r.error)
      ensures r.Success? ==> Rewritten(old(rows)[id], dto, r.value) && rows == old(rows)[id := r.value]
    {
      if Trim(id) == "" {
        return Failure(Required("Hierarchy ID"));
      }
      if id !in rows {
        return Failure(NotFound);
      }
      assert Consistent(rows[id]);
      var row := Moved(rows[id], dto);
      var conflict := FindByRelationshipKey(row.relationshipKey);
      if conflict.Some? && conflict.value != id {
        assert !KeysFree(rows, id, row);
        return Failure(DuplicateRelationship(conflict.value));
      }
      if row.activeScopeKey.Some? {
        var active := FindByActiveScopeKey(row.activeScopeKey.value);
        if active.Some? && active.value != id {
          assert !KeysFree(rows, id, row);
          return Failure(HasActiveParent(active.value));
        }
        var clear := AssertNoCircularHierarchy(row.child, row.parent, row.scope);
        if clear.Failure? {
          return Failure(clear.error);
        }
      }
      assert Admissible(rows, id, row);
      StoringKeepsIndexed(rows, id, row);
      rows := rows[id := row];
      return Success(row);
    }

    method DeleteHierarchy(id: string) returns (r: Result<Row, RpcError>)
      requires Valid()
      modifies this
      ensures Valid()
      ensures Trim(id) == "" ==> r == Failure(Required("Hierarchy ID")) && rows == old(rows)
      ensures Trim(id) != "" && id !in old(rows) ==> r == Failure(NotFound)
      ensures Trim(id) != "" ==> rows == Deleted(old(rows), id)
      ensures Trim(id) != "" && id in old(rows) ==>
                && r == Success(rows[id]) && rows == old(rows)[id := rows[id]]
                && var q := old(rows)[id];
                   rows[id] ==
                     Row(q.parent, q.parentRole, q.child, q.childRole, q.scope, q.relationshipKey, None, false)
    {
      if Trim(id) == "" {
        return Failure(Required("Hierarchy ID"));
      }
      if id !in rows {
        return Failure(NotFound);
      }
      if !rows[id].isActive {
        assert Consistent(rows[id]) && rows == rows[id := rows[id]];
        return Success(rows[id]);
      }
      DeletedKeepsIndexed(rows, id);
      rows := rows[id := rows[id].(isActive := false, activeScopeKey := None)];
      return Success(rows[id]);
    }
  }
}
