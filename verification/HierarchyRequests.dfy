/** From a request to the answer: what an accepted create or update call lets a later resolution find. */
module HierarchyRequests {
  import opened Prelude
  import opened Text
  import opened Graph
  import opened HierarchyTable
  import opened HierarchyWalks
  import opened HierarchyService
  import opened HierarchySafety

  /** Entry 1 of a resolution is the parent that the child's effective row names, with that row's parent role. */
  lemma EffectiveParentIsFirst(t: Table, scope: Scope, k: string, h: seq<Entry>)
    requires Indexed(t) && Effective(t, scope, k)
    requires IsResolution(t, scope, t[k].child, h) && IsChain(EffectiveEdges(t, scope), Users(h))
    ensures |h| >= 2 && h[1] == Entry(t[k].parent, t[k].parentRole, 1)
  {
    var g := EffectiveEdges(t, scope);
    assert Hop(g, t[k].child, t[k].parent);
    assert Users(h)[0] == t[k].child;
    assert LinkedAt(t, scope, h, 1);
    var j :| Effective(t, scope, j) && t[j].child == h[0].userId && t[j].parent == h[1].userId &&
             t[j].parentRole == h[1].role;
    OneEffectiveParent(t, scope, j, k);
  }

  /** `h` starts at `child` and goes on to `parent` in its role, then along the users of `w` after the first. */
  ghost predicate LeadsTo(h: seq<Entry>, child: string, parent: string, role: string, w: seq<string>) {
    && |h| >= 2 && h[0] == Entry(child, "UNKNOWN", 0) && h[1] == Entry(parent, role, 1)
    && Users(h) == [child] + w
  }

  /**
   * The answer for the child of a row just stored: `w` is the chain of parents that the row's
   * parent had before. The answer is that chain below the child, unless it has 19 edges already.
   */
  ghost predicate AnswersWith(r: Result<seq<Entry>, RpcError>, row: Row, w: seq<string>) {
    && |w| <= MAX_DEPTH
    && (|w| < MAX_DEPTH ==> r.Success? && LeadsTo(r.value, row.child, row.parent, row.parentRole, w))
    && (|w| == MAX_DEPTH ==> r == Failure(TooDeep))
  }

  lemma StoredIsFound(t: Table, id: string, row: Row, r: Result<seq<Entry>, RpcError>) returns (w: seq<string>)
    requires Indexed(t) && Consistent(row) && Admissible(t, id, row) && row.isActive
    requires id in t ==> t[id].child == row.child
    requires Resolved(t[id := row], row.scope, row.child, r)
    ensures IsChain(EffectiveEdges(t, row.scope), w) && w[0] == row.parent && AnswersWith(r, row, w)
  {
    var u := t[id := row];
    w :| IsChain(EffectiveEdges(t, row.scope), w) && w[0] == row.parent && |w| <= MAX_DEPTH && row.child !in w;
    AcceptedChildResolves(t, id, row, w);
    StoringKeepsIndexed(t, id, row);
    if r.Success? {
      assert Effective(u, row.scope, id);
      EffectiveParentIsFirst(u, row.scope, id, r.value);
      EffectiveIsFunctional(u, row.scope);
      assert Users(r.value)[0] == row.child == ([row.child] + w)[0];
      ChainPath(EffectiveEdges(u, row.scope), [row.child] + w, Users(r.value));
    }
  }

  /**
   * A create request for a service, once accepted, is found again: resolving the child under
   * any spelling of that service, in another case or with white space around it, answers the
   * requested parent in the requested role, and then the parents the parent had.
   */
  lemma CreatedIsFound(t: Table, id: string, dto: CreateDto, source: string, service: string,
                       r: Result<seq<Entry>, RpcError>) returns (row: Row, w: seq<string>)
    requires Indexed(t) && After(t, Create(id, dto)) != t && dto.isActive != Some(false)
    requires dto.serviceType.Some? && !Blank(service) && Variant(service, dto.serviceType.value)
    requires Pads(source, Trim(dto.childUserId))
    requires Answered(After(t, Create(id, dto)), source, service, r)
    ensures After(t, Create(id, dto)) == t[id := row] && IsChain(EffectiveEdges(t, row.scope), w)
    ensures w[0] == row.parent == Trim(dto.parentUserId) && row.child == Trim(dto.childUserId)
    ensures row.parentRole == Code(dto.parentRole) && row.childRole == Code(dto.childRole)
    ensures row.scope == Some(Code(dto.serviceType.value)) && AnswersWith(r, row, w)
  {
    row := Accepted(t, id, dto);
    SpellingsAgree(service, dto.serviceType.value, source, dto.childUserId);
    w := StoredIsFound(t, id, row, r);
  }

  /** The row that an accepted create call stores. */
  lemma Accepted(t: Table, id: string, dto: CreateDto) returns (row: Row)
    requires Indexed(t) && After(t, Create(id, dto)) != t
    ensures After(t, Create(id, dto)) == t[id := row] && id !in t
    ensures Consistent(row) && Admissible(t, id, row) && AsRequested(dto, row)
  {
    row := Proposed(dto).value;
  }

  lemma SpellingsAgree(service: string, requested: string, source: string, child: string)
    requires !Blank(service) && Variant(service, requested) && Pads(source, Trim(child))
    ensures Code(service) == Code(requested) && !Empty(service) && !Empty(requested)
    ensures Trim(source) == Trim(child)
  {
    CodesAgreeIff(service, requested);
    CodeIsEmptyIff(service);
    CodeIsEmptyIff(requested);
    TrimIdempotent(child);
    TrimIs(source, Trim(child));
  }

  lemma GlobalRowIsFound(t: Table, id: string, row: Row, scope: Scope, h: seq<Entry>)
    requires Indexed(t) && Consistent(row) && KeysFree(t, id, row) && row.isActive && row.scope == None && id !in t
    requires !HasOwn(t, row.child, scope) && scope != None
    requires IsResolution(t[id := row], scope, row.child, h) && IsChain(EffectiveEdges(t[id := row], scope), Users(h))
    ensures |h| >= 2 && h[1] == Entry(row.parent, row.parentRole, 1)
  {
    var u := t[id := row];
    StoringKeepsIndexed(t, id, row);
    forall j ensures !Own(u, j, row.child, scope) {
      assert !Own(t, j, row.child, scope);
    }
    assert Effective(u, scope, id);
    EffectiveParentIsFirst(u, scope, id, h);
  }

  /** A global create request is found under every service for which the child has no parent of its own. */
  lemma GlobalIsFound(t: Table, id: string, dto: CreateDto, source: string, service: string,
                      r: Result<seq<Entry>, RpcError>)
    requires Indexed(t) && After(t, Create(id, dto)) != t && dto.isActive != Some(false)
    requires dto.serviceType == None || Blank(dto.serviceType.value)
    requires !Blank(service) && Pads(source, Trim(dto.childUserId))
    requires !HasOwn(t, Trim(dto.childUserId), Some(Code(service)))
    requires Answered(After(t, Create(id, dto)), source, service, r) && r.Success?
    ensures |r.value| >= 2
    ensures r.value[1] == Entry(Trim(dto.parentUserId), Code(dto.parentRole), 1)
  {
    VariantIffTrims(service, service);
    SpellingsAgree(service, service, source, dto.childUserId);
    if dto.serviceType.Some? {
      CodeIsEmptyIff(dto.serviceType.value);
    }
    var row := Accepted(t, id, dto);
    GlobalRowIsFound(t, id, row, Some(Code(service)), r.value);
  }

  /**
   * An accepted update that leaves the row active, by moving it, by reactivating it or both: the
   * child resolves to the row's unchanged parent and role under every spelling of the row's
   * service, which is the given one if one is given.
   */
  lemma UpdatedIsFound(t: Table, id: string, dto: UpdateDto, service: string, r: Result<seq<Entry>, RpcError>)
    returns (row: Row, w: seq<string>)
    requires Indexed(t) && id in t && !Empty(id) && Admissible(t, id, Moved(t[id], dto))
    requires dto.isActive == Given(true) || (dto.isActive == Absent && t[id].isActive)
    requires dto.serviceType.Given? ==>
               dto.serviceType.value.Some? && !Blank(service) && Variant(service, dto.serviceType.value.value)
    requires dto.serviceType.Absent? ==> !Blank(service) && t[id].scope == Some(Code(service))
    requires !Empty(t[id].child) && Answered(After(t, Update(id, dto)), t[id].child, service, r)
    ensures After(t, Update(id, dto)) == t[id := row] && IsChain(EffectiveEdges(t, row.scope), w)
    ensures w[0] == row.parent == t[id].parent && row.child == t[id].child
    ensures row.parentRole == t[id].parentRole && row.childRole == t[id].childRole && row.isActive
    ensures row.scope == Some(Code(service)) && AnswersWith(r, row, w)
  {
    row := Moved(t[id], dto);
    assert Consistent(t[id]);
    TrimIdempotent(t[id].child);
    CodeIsEmptyIff(service);
    if dto.serviceType.Given? {
      CodesAgreeIff(service, dto.serviceType.value.value);
      CodeIsEmptyIff(dto.serviceType.value.value);
    }
    w := StoredIsFound(t, id, row, r);
  }
}
