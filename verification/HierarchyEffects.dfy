/**
 * What every call of the hierarchy service does to the effective graph of every service, and
 * when that graph stays free of cycles.
 */
module HierarchyEffects {
  import opened Prelude
  import opened Graph
  import opened HierarchyTable
  import opened HierarchyService
  import opened HierarchySafety
  import HierarchyWalks
  import Text

  // ---------------------------------------------------------------- every call stores at most one row

  function SwitchedOff(r: Row): Row {
    r.(isActive := false, activeScopeKey := None)
  }

  /** The row a call stores, and where; None if the call is refused or has nothing to do. */
  ghost function Change(t: Table, call: Call): Option<(string, Row)> {
    match call
    case Create(newId, dto) =>
      if Proposed(dto).Success? && newId !in t && Admissible(t, newId, Proposed(dto).value)
      then Some((newId, Proposed(dto).value)) else None
    case Update(id, dto) =>
      if Text.Trim(id) != "" && id in t && Admissible(t, id, Moved(t[id], dto))
      then Some((id, Moved(t[id], dto))) else None
    case Delete(id) =>
      if Text.Trim(id) != "" && id in t && t[id].isActive then Some((id, SwitchedOff(t[id]))) else None
  }

  /** A call may store `r` under `id`. */
  ghost predicate Storable(t: Table, id: string, r: Row) {
    Indexed(t) && Consistent(r) && KeysFree(t, id, r) && (id in t ==> t[id].child == r.child)
  }

  lemma MovedIsStorable(t: Table, id: string, dto: UpdateDto)
    requires Indexed(t) && id in t && Admissible(t, id, Moved(t[id], dto))
    ensures Storable(t, id, Moved(t[id], dto))
  {
    assert Consistent(t[id]);
  }

  lemma SwitchedOffIsStorable(t: Table, id: string)
    requires Indexed(t) && id in t
    ensures Storable(t, id, SwitchedOff(t[id]))
  {
    assert Consistent(t[id]);
  }

  lemma CreateIsStored(t: Table, newId: string, dto: CreateDto)
    requires Indexed(t)
    ensures var r := Proposed(dto); var t2 := After(t, Create(newId, dto));
            if Change(t, Create(newId, dto)).None? then t2 == t
            else t2 == t[newId := r.value] && Storable(t, newId, r.value)
  {
  }

  lemma UpdateIsStored(t: Table, id: string, dto: UpdateDto)
    requires Indexed(t)
    ensures var t2 := After(t, Update(id, dto));
            if Change(t, Update(id, dto)).None? then t2 == t
            else t2 == t[id := Moved(t[id], dto)] && Storable(t, id, Moved(t[id], dto))
  {
    if Change(t, Update(id, dto)).Some? {
      MovedIsStorable(t, id, dto);
    }
  }

  lemma DeleteIsStored(t: Table, id: string)
    requires Indexed(t)
    ensures var t2 := After(t, Delete(id));
            if Change(t, Delete(id)).None? then t2 == t
            else t2 == t[id := SwitchedOff(t[id])] && Storable(t, id, SwitchedOff(t[id]))
  {
    if Change(t, Delete(id)).Some? {
      SwitchedOffIsStorable(t, id);
    }
  }

  /** Without a change the call does nothing; with one it stores that row, which the walk has checked if active. */
  lemma ChangeIsStored(t: Table, call: Call)
    requires Indexed(t)
    ensures match Change(t, call)
            case None => After(t, call) == t
            case Some((id, r)) =>
              && After(t, call) == t[id := r] && Storable(t, id, r)
              && (r.isActive ==> HierarchyWalks.Clear(EffectiveEdges(t, r.scope), r.child, r.parent))
  {
    match call
    case Create(newId, dto) => CreateIsStored(t, newId, dto);
    case Update(id, dto) => UpdateIsStored(t, id, dto);
    case Delete(id) => DeleteIsStored(t, id);
  }

  // ---------------------------------------------------------------- the parent a child has afterwards

  /** Row `r`, stored under `id`, is the child's own active row in the scope. */
  predicate IsOwn(r: Row, scope: Scope) {
    r.isActive && r.scope == scope
  }

  /** Another row than `id` is the child's own active row in the scope. */
  predicate OtherOwn(t: Table, id: string, child: string, scope: Scope) {
    exists j :: j in t && j != id && Own(t, j, child, scope)
  }

  /**
   * Once `r` is stored under `id`, `q` is the parent of `r.child` effective in scope `s`: its
   * own edge there, be it `r` or another, and without one its global edge, be it `r` or another.
   */
  ghost predicate ParentAfter(t: Table, id: string, r: Row, s: Scope, q: string) {
    if IsOwn(r, s) then q == r.parent
    else if OtherOwn(t, id, r.child, s) then exists j :: j != id && Own(t, j, r.child, s) && q == t[j].parent
    else if IsOwn(r, None) then q == r.parent
    else exists j :: j != id && Own(t, j, r.child, None) && q == t[j].parent
  }

  lemma OwnAfter(t: Table, id: string, r: Row, scope: Scope, j: string)
    ensures Own(t[id := r], j, r.child, scope) <==> if j == id then IsOwn(r, scope) else Own(t, j, r.child, scope)
  {
  }

  lemma HasOwnAfter(t: Table, id: string, r: Row, scope: Scope)
    ensures HasOwn(t[id := r], r.child, scope) <==> IsOwn(r, scope) || OtherOwn(t, id, r.child, scope)
  {
    var u := t[id := r];
    if HasOwn(u, r.child, scope) {
      var j :| j in u && Own(u, j, r.child, scope);
      OwnAfter(t, id, r, scope, j);
    }
    if OtherOwn(t, id, r.child, scope) {
      var j :| j in t && j != id && Own(t, j, r.child, scope);
      OwnAfter(t, id, r, scope, j);
    }
    OwnAfter(t, id, r, scope, id);
  }

  lemma HopOfEffective(u: Table, s: Scope, j: string)
    requires Effective(u, s, j)
    ensures Hop(EffectiveEdges(u, s), u[j].child, u[j].parent)
  {
  }

  lemma ParentAfterHops(t: Table, id: string, r: Row, s: Scope, q: string)
    requires ParentAfter(t, id, r, s, q)
    ensures Hop(EffectiveEdges(t[id := r], s), r.child, q)
  {
    var u := t[id := r];
    HasOwnAfter(t, id, r, s);
    if IsOwn(r, s) || (IsOwn(r, None) && !OtherOwn(t, id, r.child, s)) {
      HopOfEffective(u, s, id);
    } else {
      var scope := if OtherOwn(t, id, r.child, s) then s else None;
      var j :| j != id && Own(t, j, r.child, scope) && q == t[j].parent;
      HopOfEffective(u, s, j);
    }
  }

  lemma HopIsParentAfter(t: Table, id: string, r: Row, s: Scope, q: string)
    requires Indexed(t[id := r]) && Hop(EffectiveEdges(t[id := r], s), r.child, q)
    ensures ParentAfter(t, id, r, s, q)
  {
    var u := t[id := r];
    HasOwnAfter(t, id, r, s);
    var j :| j in u && Effective(u, s, j) && (r.child, q) == (u[j].child, u[j].parent);
    OwnAfter(t, id, r, u[j].scope, j);
    if IsOwn(r, u[j].scope) && j != id {
      OneActiveParent(u, id, j, r.child, u[j].scope);
    }
  }

  // ---------------------------------------------------------------- when the effective graph stays acyclic

  lemma WithoutIsAcyclicIff(g: Edges, h: Edges, c: string)
    requires h == set e | e in g && e.0 != c
    ensures Acyclic(h) <==> forall p :: IsCycle(g, p) ==> c in p
  {
    forall p | IsCycle(h, p) ensures IsCycle(g, p) && c !in p {
      forall i | 0 <= i < |p| - 1 ensures HopAt(g, p, i) && p[i] != c {
        assert HopAt(h, p, i);
      }
      assert p[|p| - 1] == p[0];
    }
    forall p | IsCycle(g, p) && c !in p ensures IsCycle(h, p) {
      forall i | 0 <= i < |p| - 1 ensures HopAt(h, p, i) {
        assert HopAt(g, p, i) && p[i] in p;
      }
    }
  }

  /** Only edges of the written row's child change. */
  lemma OtherEdgesStay(t: Table, id: string, r: Row, s: Scope, e: (string, string))
    requires (id in t ==> t[id].child == r.child) && e.0 != r.child
    ensures e in EffectiveEdges(t[id := r], s) <==> e in EffectiveEdges(t, s)
  {
    var u := t[id := r];
    StoreChangesOnlyItsChild(t, id, r);
    if e in EffectiveEdges(t, s) {
      var j :| j in t && Effective(t, s, j) && e == (t[j].child, t[j].parent);
      OthersUnaffected(t, u, r.child, s, j);
      HopOfEffective(u, s, j);
    }
    if e in EffectiveEdges(u, s) {
      var j :| j in u && Effective(u, s, j) && e == (u[j].child, u[j].parent);
      OthersUnaffected(u, t, r.child, s, j);
      HopOfEffective(t, s, j);
    }
  }

  lemma RedirectedAfter(t: Table, id: string, r: Row, s: Scope, q: string)
    requires Storable(t, id, r) && ParentAfter(t, id, r, s, q)
    ensures EffectiveEdges(t[id := r], s) == Redirect(EffectiveEdges(t, s), r.child, q)
  {
    StoringKeepsIndexed(t, id, r);
    EffectiveIsFunctional(t[id := r], s);
    ParentAfterHops(t, id, r, s, q);
    forall e: (string, string)
      ensures e in EffectiveEdges(t[id := r], s) <==> e in Redirect(EffectiveEdges(t, s), r.child, q)
    {
      if e.0 != r.child {
        OtherEdgesStay(t, id, r, s, e);
      } else if e in EffectiveEdges(t[id := r], s) {
        assert Hop(EffectiveEdges(t[id := r], s), r.child, e.1);
      }
    }
  }

  lemma RemovedAfter(t: Table, id: string, r: Row, s: Scope)
    requires Storable(t, id, r) && forall q :: !ParentAfter(t, id, r, s, q)
    ensures EffectiveEdges(t[id := r], s) == set e | e in EffectiveEdges(t, s) && e.0 != r.child
  {
    StoringKeepsIndexed(t, id, r);
    forall e: (string, string)
      ensures e in EffectiveEdges(t[id := r], s) <==> e in EffectiveEdges(t, s) && e.0 != r.child
    {
      if e.0 != r.child {
        OtherEdgesStay(t, id, r, s, e);
      } else if e in EffectiveEdges(t[id := r], s) {
        HopIsParentAfter(t, id, r, s, e.1);
      }
    }
  }

  /**
   * One write, seen from any service: its effective graph is acyclic afterwards exactly if all
   * its cycles went through the row's child, and the parent the child then has does not lead
   * back to it.
   */
  lemma StoringAcyclicIff(t: Table, id: string, r: Row, s: Scope)
    requires Storable(t, id, r)
    ensures Acyclic(EffectiveEdges(t[id := r], s)) <==>
            && (forall p :: IsCycle(EffectiveEdges(t, s), p) ==> r.child in p)
            && (forall q :: ParentAfter(t, id, r, s, q) ==> !Reaches(EffectiveEdges(t, s), q, r.child))
  {
    if q :| ParentAfter(t, id, r, s, q) {
      RedirectedAfter(t, id, r, s, q);
      RedirectAcyclicIff(EffectiveEdges(t, s), r.child, q);
      StoringKeepsIndexed(t, id, r);
      EffectiveIsFunctional(t[id := r], s);
      forall o | ParentAfter(t, id, r, s, o) ensures o == q {
        ParentAfterHops(t, id, r, s, o);
        ParentAfterHops(t, id, r, s, q);
      }
    } else {
      RemovedAfter(t, id, r, s);
      WithoutIsAcyclicIff(EffectiveEdges(t, s), EffectiveEdges(t[id := r], s), r.child);
    }
  }

  /** The call is harmless for the effective graph of `s`. */
  ghost predicate KeepsEffectiveAcyclic(t: Table, call: Call, s: Scope) {
    match Change(t, call)
    case None => true
    case Some((id, r)) =>
      IsOwn(r, s) || forall q :: ParentAfter(t, id, r, s, q) ==> !Reaches(EffectiveEdges(t, s), q, r.child)
  }

  /**
   * Every create, update and delete, and every scope s: an acyclic effective graph of s stays
   * acyclic exactly if the call is refused, or stores an active row of s itself (which the walk
   * has checked), or the parent that the child has in s afterwards does not lead back to it.
   * Activation, deactivation, moves between scopes and deletion are all instances.
   */
  lemma EffectiveStaysAcyclicIff(t: Table, u: Table, call: Call, s: Scope)
    requires Indexed(t) && Acyclic(EffectiveEdges(t, s)) && u == After(t, call)
    ensures Acyclic(EffectiveEdges(u, s)) <==> KeepsEffectiveAcyclic(t, call, s)
  {
    ChangeIsStored(t, call);
    if Change(t, call).Some? {
      var (id, r) := Change(t, call).value;
      StoringAcyclicIff(t, id, r, s);
      if IsOwn(r, s) {
        EffectiveIsFunctional(t, s);
        ClearMeansUnreachable(EffectiveEdges(t, s), r.child, r.parent);
      }
    }
  }

  // ---------------------------------------------------------------- runs in which a service edge gives way

  const C_ABOVE_B := EdgeRow("C", "B", Some("S"))
  const A_ABOVE_B := EdgeRow("A", "B", None)
  const B_ABOVE_A := EdgeRow("B", "A", Some("S"))

  const THREE_ROWS: Table := map["1" := C_ABOVE_B]["2" := A_ABOVE_B]["3" := B_ABOVE_A]

  /** B below C in S, B below A globally, A below B in S; the walks accept all three. */
  function ThreeCreations(): seq<Call> {
    [Create("1", EdgeDto("C", "B", Some("S"))), Create("2", EdgeDto("A", "B", None)),
     Create("3", EdgeDto("B", "A", Some("S")))]
  }

  lemma KeyTexts()
    ensures C_ABOVE_B.relationshipKey.preimage[0] == 'C' && C_ABOVE_B.activeScopeKey.value.preimage == "B|S"
    ensures A_ABOVE_B.relationshipKey.preimage[0] == 'A' && A_ABOVE_B.activeScopeKey.value.preimage == "B|*"
    ensures B_ABOVE_A.relationshipKey.preimage[0] == 'B' && B_ABOVE_A.activeScopeKey.value.preimage == "A|S"
  {
    Text.TrimIdempotent("A");
    Text.TrimIdempotent("B");
    Text.TrimIdempotent("C");
  }

  lemma RowsApart()
    ensures Apart(C_ABOVE_B, A_ABOVE_B) && Apart(C_ABOVE_B, B_ABOVE_A) && Apart(A_ABOVE_B, B_ABOVE_A)
  {
    KeyTexts();
    assert "B|S"[2] == 'S' && "B|*"[2] == '*' && "A|S"[0] == 'A';
  }

  const TWO_ROWS: Table := map["1" := C_ABOVE_B]["2" := A_ABOVE_B]

  lemma OnlyEdgesOfB()
    ensures var g := EffectiveEdges(TWO_ROWS, Some("S")); Hop(g, "B", "C") && IsSink(g, "C")
  {
    assert Own(TWO_ROWS, "1", "B", Some("S"));
    HopOfEffective(TWO_ROWS, Some("S"), "1");
  }

  lemma OneEdgeChain(g: Edges, u: string, v: string)
    requires Hop(g, u, v) && IsSink(g, v)
    ensures IsChain(g, [u, v])
  {
    assert HopAt(g, [u, v], 0);
  }

  /** B's edge in S is its own, to C, which has none: the walk from B does not meet A. */
  lemma ThirdIsClear()
    ensures HierarchyWalks.Clear(EffectiveEdges(TWO_ROWS, Some("S")), "A", "B")
  {
    OnlyEdgesOfB();
    OneEdgeChain(EffectiveEdges(TWO_ROWS, Some("S")), "B", "C");
    assert ["B", "C"][0] == "B" && "A" !in ["B", "C"];
  }

  /** A third row is stored if its keys are new and the walk accepts it. */
  lemma ThirdIsStored(t: Table, q: Row, r: Row, s: Row, dto: CreateDto)
    requires t == map["1" := q]["2" := r] && Proposed(dto) == Success(s) && Apart(q, s) && Apart(r, s)
    requires HierarchyWalks.Clear(EffectiveEdges(t, s.scope), s.child, s.parent)
    ensures After(t, Create("3", dto)) == t["3" := s]
  {
    assert KeysFree(t, "3", s);
    CreationStores(t, "3", dto, s);
  }

  lemma ThirdCreation()
    ensures After(TWO_ROWS, Create("3", EdgeDto("B", "A", Some("S")))) == THREE_ROWS
  {
    EdgeProposed("B", "A", Some("S"));
    RowsApart();
    ThirdIsClear();
    ThirdIsStored(TWO_ROWS, C_ABOVE_B, A_ABOVE_B, B_ABOVE_A, EdgeDto("B", "A", Some("S")));
  }

  lemma FirstCreation()
    ensures After(map[], Create("1", EdgeDto("C", "B", Some("S")))) == map["1" := C_ABOVE_B]
  {
    EdgeAccepted(map[], "1", "C", "B", Some("S"));
    assert map[]["1" := C_ABOVE_B] == map["1" := C_ABOVE_B];
  }

  lemma FreeBesideOne(q: Row, r: Row)
    requires Apart(q, r)
    ensures KeysFree(map["1" := q], "2", r)
  {
  }

  lemma SecondCreation()
    ensures After(map["1" := C_ABOVE_B], Create("2", EdgeDto("A", "B", None))) == TWO_ROWS
  {
    RowsApart();
    FreeBesideOne(C_ABOVE_B, A_ABOVE_B);
    EdgeAccepted(map["1" := C_ABOVE_B], "2", "A", "B", None);
  }

  lemma RunThree(t: Table, one: Call, two: Call, three: Call)
    ensures Run(t, [one, two, three]) == After(After(After(t, one), two), three)
  {
    assert [one, two, three][1..] == [two, three];
    RunTwo(After(t, one), two, three);
  }

  /** The table is reachable. */
  lemma ThreeCreated()
    ensures Run(map[], ThreeCreations()) == THREE_ROWS
  {
    RunThree(map[], ThreeCreations()[0], ThreeCreations()[1], ThreeCreations()[2]);
    FirstCreation();
    SecondCreation();
    ThirdCreation();
  }

  /** Whatever takes row 1 out of S, without making it global, closes the cycle A, B, A in S. */
  lemma RevealedCycle(r: Row)
    requires r.child == "B" && !IsOwn(r, Some("S")) && !IsOwn(r, None)
    ensures IsCycle(EffectiveEdges(THREE_ROWS["1" := r], Some("S")), ["A", "B", "A"])
  {
    var t := THREE_ROWS["1" := r];
    assert Effective(t, Some("S"), "3");
    assert !HasOwn(t, "B", Some("S")) && Effective(t, Some("S"), "2");
    HopOfEffective(t, Some("S"), "3");
    HopOfEffective(t, Some("S"), "2");
  }

  lemma StillFreeInThree(q: Row, r: Row, s: Row, m: Row)
    requires Apart(r, m) && Apart(s, m)
    ensures KeysFree(map["1" := q]["2" := r]["3" := s], "1", m)
  {
  }

  lemma DeactivationIsAdmissible()
    ensures Admissible(THREE_ROWS, "1", Moved(C_ABOVE_B, UpdateDto(Absent, Given(false))))
  {
    RowsApart();
    StillFreeInThree(C_ABOVE_B, A_ABOVE_B, B_ABOVE_A, Moved(C_ABOVE_B, UpdateDto(Absent, Given(false))));
  }

  /** Row 1 moved to service T. */
  function MovedRow(): Row {
    Moved(C_ABOVE_B, UpdateDto(Given(Some("T")), Absent))
  }

  lemma MovedKeyTexts()
    ensures MovedRow().scope == Some("T") && MovedRow().child == "B" && MovedRow().parent == "C" && MovedRow().isActive
    ensures MovedRow().relationshipKey.preimage[0] == 'C' && MovedRow().activeScopeKey.value.preimage == "B|T"
  {
    Text.TrimIdempotent("T");
    Text.TrimIdempotent("B");
    Text.TrimIdempotent("C");
    assert Text.Code("T") == "T";
  }

  lemma MovedApart()
    ensures Apart(A_ABOVE_B, MovedRow()) && Apart(B_ABOVE_A, MovedRow())
  {
    KeyTexts();
    MovedKeyTexts();
    assert "B|T"[2] == 'T' && "B|*"[2] == '*' && "A|S"[0] == 'A';
  }

  lemma MovedKeysFree()
    ensures MovedRow().scope == Some("T") && MovedRow().child == "B" && MovedRow().parent == "C"
    ensures KeysFree(THREE_ROWS, "1", MovedRow())
  {
    MovedKeyTexts();
    MovedApart();
    StillFreeInThree(C_ABOVE_B, A_ABOVE_B, B_ABOVE_A, MovedRow());
  }

  lemma MovedIsClear()
    ensures HierarchyWalks.Clear(EffectiveEdges(THREE_ROWS, Some("T")), "B", "C")
  {
    assert IsSink(EffectiveEdges(THREE_ROWS, Some("T")), "C");
    assert IsChain(EffectiveEdges(THREE_ROWS, Some("T")), ["C"]) && ["C"][0] == "C";
  }

  lemma MoveIsAdmissible()
    ensures Admissible(THREE_ROWS, "1", MovedRow())
  {
    MovedKeysFree();
    MovedIsClear();
  }

  /** In the table that the three creations build, the call stores `r` under id 1 and so closes a cycle in S. */
  ghost predicate RevealsCycle(call: Call, r: Row) {
    && After(THREE_ROWS, call) == THREE_ROWS["1" := r]
    && IsCycle(EffectiveEdges(THREE_ROWS["1" := r], Some("S")), ["A", "B", "A"])
  }

  /** Deleting row 1 does, */
  lemma DeletionRevealsCycle()
    ensures RevealsCycle(Delete("1"), SwitchedOff(C_ABOVE_B))
  {
    assert Text.Trim("1") == "1" && THREE_ROWS["1"] == C_ABOVE_B;
    DeletionStores(THREE_ROWS, "1");
    RevealedCycle(SwitchedOff(C_ABOVE_B));
  }

  lemma DeletionStores(t: Table, id: string)
    requires Text.Trim(id) != "" && id in t && t[id].isActive
    ensures After(t, Delete(id)) == t[id := SwitchedOff(t[id])]
  {
  }

  /** deactivating it by an update does, */
  lemma DeactivationRevealsCycle()
    ensures var dto := UpdateDto(Absent, Given(false)); RevealsCycle(Update("1", dto), Moved(C_ABOVE_B, dto))
  {
    assert Text.Trim("1") == "1" && THREE_ROWS["1"] == C_ABOVE_B;
    DeactivationIsAdmissible();
    UpdateStores(THREE_ROWS, "1", UpdateDto(Absent, Given(false)));
    RevealedCycle(Moved(C_ABOVE_B, UpdateDto(Absent, Given(false))));
  }

  lemma UpdateStores(t: Table, id: string, dto: UpdateDto)
    requires Text.Trim(id) != "" && id in t && Admissible(t, id, Moved(t[id], dto))
    ensures After(t, Update(id, dto)) == t[id := Moved(t[id], dto)]
  {
  }

  /** and moving it to another service does. */
  lemma MoveRevealsCycle()
    ensures var dto := UpdateDto(Given(Some("T")), Absent); RevealsCycle(Update("1", dto), Moved(C_ABOVE_B, dto))
  {
    var dto := UpdateDto(Given(Some("T")), Absent);
    assert Text.Trim("1") == "1" && THREE_ROWS["1"] == C_ABOVE_B;
    MovedKeysFree();
    MoveIsAdmissible();
    UpdateStores(THREE_ROWS, "1", dto);
    RevealedCycle(MovedRow());
  }
}
