/**
 * Overlapping hierarchy calls: each call reads first and writes later, and the reads and
 * writes of different calls interleave freely. The checks a call makes between its read and
 * its write only decide whether it writes at all, so every call may also be abandoned.
 */
module HierarchyInterleaving {
  import opened Prelude
  import Text
  import opened Graph
  import opened HierarchyTable
  import opened HierarchyService
  import HierarchySafety

  /** A call that has done its reads; `seen` is the row as it was then. */
  datatype Pending =
    | ToInsert(newId: string, row: Row)
    | ToUpdate(id: string, seen: Row, dto: UpdateDto)
    | ToDelete(id: string, seen: Row)

  datatype State = State(rows: Table, pending: map<nat, Pending>)

  datatype Step =
    | BeginCreate(call: nat, newId: string, create: CreateDto)
    | BeginUpdate(call: nat, id: string, update: UpdateDto)
    | BeginDelete(call: nat, id: string)
    | Write(call: nat)
    | Abandon(call: nat)

  /** The database write; a unique-index violation leaves the table as it is. */
  ghost function Stored(t: Table, id: string, row: Row): Table {
    if KeysFree(t, id, row) then t[id := row] else t
  }

  ghost function Written(t: Table, p: Pending): Table {
    match p
    case ToInsert(newId, row) => if newId in t then t else Stored(t, newId, row)
    case ToUpdate(id, seen, dto) =>
      var m := Moved(seen, dto);
      if id !in t then t
      else Stored(t, id, t[id].(scope := m.scope, isActive := m.isActive,
                                relationshipKey := m.relationshipKey, activeScopeKey := m.activeScopeKey))
    case ToDelete(id, seen) =>
      if id in t && seen.isActive then t[id := t[id].(isActive := false, activeScopeKey := None)] else t
  }

  ghost function Next(s: State, step: Step): State {
    match step
    case BeginCreate(call, newId, dto) =>
      if Proposed(dto).Success? then s.(pending := s.pending[call := ToInsert(newId, Proposed(dto).value)]) else s
    case BeginUpdate(call, id, dto) =>
      if id in s.rows then s.(pending := s.pending[call := ToUpdate(id, s.rows[id], dto)]) else s
    case BeginDelete(call, id) =>
      if id in s.rows then s.(pending := s.pending[call := ToDelete(id, s.rows[id])]) else s
    case Write(call) =>
      if call in s.pending then State(Written(s.rows, s.pending[call]), s.pending - {call}) else s
    case Abandon(call) => s.(pending := s.pending - {call})
  }

  ghost function Run(s: State, steps: seq<Step>): State
    decreases |steps|
  {
    if steps == [] then s else Run(Next(s, steps[0]), steps[1..])
  }

  function Begin(call: nat, c: HierarchySafety.Call): Step {
    match c
    case Create(newId, dto) => BeginCreate(call, newId, dto)
    case Update(id, dto) => BeginUpdate(call, id, dto)
    case Delete(id) => BeginDelete(call, id)
  }

  lemma CreateAtOnce(t: Table, id: string, dto: CreateDto)
    requires Created(t, id, dto) != t
    ensures Proposed(dto).Success? && Written(t, ToInsert(id, Proposed(dto).value)) == Created(t, id, dto)
  {
  }

  lemma UpdateAtOnce(t: Table, id: string, dto: UpdateDto)
    requires Updated(t, id, dto) != t
    ensures id in t && Written(t, ToUpdate(id, t[id], dto)) == Updated(t, id, dto)
  {
    var m, row := Moved(t[id], dto), t[id];
    assert m == row.(scope := m.scope, isActive := m.isActive, relationshipKey := m.relationshipKey,
                     activeScopeKey := m.activeScopeKey);
  }

  lemma WriteAtOnce(s: State, call: nat, p: Pending)
    requires call !in s.pending
    ensures Next(s.(pending := s.pending[call := p]), Write(call)) == State(Written(s.rows, p), s.pending)
  {
    assert s.pending[call := p] - {call} == s.pending;
  }

  /** A call whose checks pass and which nothing disturbs does what the service's method does. */
  lemma UndisturbedCall(s: State, call: nat, c: HierarchySafety.Call)
    requires call !in s.pending && HierarchySafety.After(s.rows, c) != s.rows
    ensures Next(Next(s, Begin(call, c)), Write(call)) == State(HierarchySafety.After(s.rows, c), s.pending)
  {
    match c
    case Create(newId, dto) =>
      CreateAtOnce(s.rows, newId, dto);
      WriteAtOnce(s, call, ToInsert(newId, Proposed(dto).value));
    case Update(id, dto) =>
      UpdateAtOnce(s.rows, id, dto);
      WriteAtOnce(s, call, ToUpdate(id, s.rows[id], dto));
    case Delete(id) => WriteAtOnce(s, call, ToDelete(id, s.rows[id]));
  }

  /** What a stale read is still good for: parent and child never change. */
  ghost predicate StillFits(t: Table, p: Pending) {
    match p
    case ToInsert(_, row) => Consistent(row)
    case ToUpdate(id, seen, _) =>
      id in t && Consistent(seen) && seen.parent == t[id].parent && seen.child == t[id].child
    case ToDelete(_, _) => true
  }

  ghost predicate Inv(s: State) {
    Indexed(s.rows) && forall c :: c in s.pending ==> StillFits(s.rows, s.pending[c])
  }

  lemma WrittenKeepsIndexed(t: Table, p: Pending)
    requires Indexed(t) && StillFits(t, p)
    ensures Indexed(Written(t, p))
  {
    match p
    case ToInsert(newId, row) =>
      if KeysFree(t, newId, row) {
        StoringKeepsIndexed(t, newId, row);
      }
    case ToUpdate(id, seen, dto) =>
      var m := Moved(seen, dto);
      assert Consistent(t[id]) && Consistent(m);
      var row := t[id].(scope := m.scope, isActive := m.isActive,
                        relationshipKey := m.relationshipKey, activeScopeKey := m.activeScopeKey);
      if KeysFree(t, id, row) {
        StoringKeepsIndexed(t, id, row);
      }
    case ToDelete(id, seen) =>
      if id in t && seen.isActive {
        SwitchedOffKeepsIndexed(t, id);
      }
  }

  lemma SwitchedOffKeepsIndexed(t: Table, id: string)
    requires Indexed(t) && id in t
    ensures Indexed(t[id := t[id].(isActive := false, activeScopeKey := None)])
  {
    var off := t[id].(isActive := false, activeScopeKey := None);
    assert Consistent(t[id]);
    assert KeysFree(t, id, off);
    StoringKeepsIndexed(t, id, off);
  }

  lemma WrittenKeepsFits(t: Table, p: Pending, q: Pending)
    requires StillFits(t, q)
    ensures StillFits(Written(t, p), q)
  {
  }

  lemma NextKeepsInv(s: State, step: Step)
    requires Inv(s)
    ensures Inv(Next(s, step))
  {
    match step
    case Write(call) =>
      if call in s.pending {
        var p := s.pending[call];
        WrittenKeepsIndexed(s.rows, p);
        forall c | c in s.pending ensures StillFits(Written(s.rows, p), s.pending[c]) {
          WrittenKeepsFits(s.rows, p, s.pending[c]);
        }
      }
    case _ =>
      forall id | id in s.rows ensures Consistent(s.rows[id]) {}
  }

  lemma {:induction false} RunKeepsInv(s: State, steps: seq<Step>)
    requires Inv(s)
    ensures Inv(Run(s, steps))
    decreases |steps|
  {
    if steps != [] {
      NextKeepsInv(s, steps[0]);
      RunKeepsInv(Next(s, steps[0]), steps[1..]);
    }
  }

  /**
   * However the reads and writes of any number of calls interleave, a row is active exactly
   * when its active-scope key is set, and a child has at most one active parent per scope.
   */
  lemma IndexesSurviveInterleaving(steps: seq<Step>, i: string, j: string, child: string, scope: Scope)
    ensures var t := Run(State(map[], map[]), steps).rows;
            && (i in t ==> (t[i].isActive <==> t[i].activeScopeKey != None))
            && (Own(t, i, child, scope) && Own(t, j, child, scope) ==> i == j)
  {
    var t := Run(State(map[], map[]), steps).rows;
    RunKeepsInv(State(map[], map[]), steps);
    assert i in t ==> Consistent(t[i]);
    if Own(t, i, child, scope) && Own(t, j, child, scope) {
      OneActiveParent(t, i, j, child, scope);
    }
  }

  /** And both keys of every row are those of its own parent, child and scope, and unique. */
  lemma KeysDescribeRows(steps: seq<Step>)
    ensures Indexed(Run(State(map[], map[]), steps).rows)
  {
    RunKeepsInv(State(map[], map[]), steps);
  }

  // ---------------------------------------------------------------- two checks before two writes

  const A_ABOVE_B := HierarchySafety.EdgeRow("A", "B", None)
  const B_ABOVE_A := HierarchySafety.EdgeRow("B", "A", None)

  lemma {:induction false} RunInTwo(s: State, one: seq<Step>, two: seq<Step>)
    ensures Run(s, one + two) == Run(Run(s, one), two)
    decreases |one|
  {
    if one == [] {
      assert one + two == two;
    } else {
      assert (one + two)[1..] == one[1..] + two;
      RunInTwo(Next(s, one[0]), one[1..], two);
    }
  }

  lemma RunPair(s: State, one: Step, two: Step)
    ensures Run(s, [one, two]) == Next(Next(s, one), two)
  {
    assert [one, two][1..] == [two] && [two][1..] == [];
    assert Run(Next(s, one), [two]) == Run(Next(Next(s, one), two), []);
  }

  lemma BothKeysFree()
    ensures KeysFree(map["1" := A_ABOVE_B], "2", B_ABOVE_A)
  {
    Text.TrimIdempotent("A");
    Text.TrimIdempotent("B");
    assert A_ABOVE_B.relationshipKey.preimage[0] == 'A' && B_ABOVE_A.relationshipKey.preimage[0] == 'B';
    assert A_ABOVE_B.activeScopeKey.value.preimage[0] == 'B' && B_ABOVE_A.activeScopeKey.value.preimage[0] == 'A';
  }

  function CheckBoth(): seq<Step> {
    [BeginCreate(1, "1", HierarchySafety.EdgeDto("A", "B", None)),
     BeginCreate(2, "2", HierarchySafety.EdgeDto("B", "A", None))]
  }

  lemma BothPending()
    ensures Run(State(map[], map[]), CheckBoth()) ==
            State(map[], map[1 := ToInsert("1", A_ABOVE_B), 2 := ToInsert("2", B_ABOVE_A)])
  {
    HierarchySafety.EdgeProposed("A", "B", None);
    HierarchySafety.EdgeProposed("B", "A", None);
    RunPair(State(map[], map[]), CheckBoth()[0], CheckBoth()[1]);
  }

  lemma BothWritten()
    ensures Run(State(map[], map[1 := ToInsert("1", A_ABOVE_B), 2 := ToInsert("2", B_ABOVE_A)]),
            [Write(1), Write(2)]).rows ==
            map["1" := A_ABOVE_B]["2" := B_ABOVE_A]
  {
    var s := State(map[], map[1 := ToInsert("1", A_ABOVE_B), 2 := ToInsert("2", B_ABOVE_A)]);
    RunPair(s, Write(1), Write(2));
    BothKeysFree();
    assert map[]["1" := A_ABOVE_B] == map["1" := A_ABOVE_B];
  }

  lemma BothEdgesCycle()
    ensures IsCycle(OwnEdges(map["1" := A_ABOVE_B]["2" := B_ABOVE_A], None), ["A", "B", "A"])
  {
    var t: Table := map["1" := A_ABOVE_B]["2" := B_ABOVE_A];
    assert Hop(OwnEdges(t, None), t["1"].child, t["1"].parent) && Hop(OwnEdges(t, None), t["2"].child, t["2"].parent);
  }

  lemma BothRun(s: State) returns (steps: seq<Step>)
    requires s == State(map[], map[])
    ensures Run(s, steps).rows == map["1" := A_ABOVE_B]["2" := B_ABOVE_A]
  {
    BothPending();
    BothWritten();
    RunInTwo(s, CheckBoth(), [Write(1), Write(2)]);
    steps := CheckBoth() + [Write(1), Write(2)];
  }

  /**
   * Atomicity is needed: on the empty table both "A above B" and "B above A" pass every check
   * of a creation, and when both calls check before either writes, both edges are stored.
   */
  lemma ConcurrentCreationsCanCloseCycle() returns (steps: seq<Step>)
    ensures Admissible(map[], "1", A_ABOVE_B) && Admissible(map[], "2", B_ABOVE_A)
    ensures IsCycle(OwnEdges(Run(State(map[], map[]), steps).rows, None), ["A", "B", "A"])
  {
    assert IsChain(EffectiveEdges(map[], None), ["A"]) && IsChain(EffectiveEdges(map[], None), ["B"]);
    BothEdgesCycle();
    steps := BothRun(State(map[], map[]));
  }
}
