/**
 * Distribution calls running at the same time. A creation that finds an inactive row later
 * writes the role into that row without writing the key, so what it found may be outdated.
 */
module DistributionInterleaving {
  import opened Prelude
  import Text
  import opened RuleScopes
  import opened CommissionRules
  import opened Distributions

  /** A call that has read and checked. */
  datatype Call =
    | Inserting(id: string, row: Row)
    | Reactivating(id: string, role: string, kind: Kind, value: int, priority: int, isActive: bool)
    | Rewriting(id: string, row: Row, newPriority: Field<int>, newIsActive: Field<bool>)
    | Deactivating(id: string)

  datatype State = State(rows: Rows, pending: map<nat, Call>)

  /** `found` is what the lookup by key returned; `roleActive` and `rule` are the other services' answers. */
  datatype Step =
    | StartCreate(call: nat, id: string, request: Request, found: Option<string>, roleActive: bool, rule: Option<bool>)
    | StartUpdate(call: nat, id: string, change: Change, roleActive: bool)
    | StartDelete(call: nat, id: string)
    | Finish(call: nat)

  const EMPTY: State := State(map[], map[])

  function Write(t: Rows, c: Call): Option<Rows> {
    match c
    case Inserting(id, row) => if id !in t && Vacant(t, id, row.key) then Some(t[id := row]) else None
    case Reactivating(id, role, kind, value, priority, isActive) =>
      if id in t
      then Some(t[id := t[id].(role := role, kind := kind, value := value, priority := priority, isActive := isActive)])
      else None
    case Rewriting(id, row, priority, isActive) =>
      if id in t && Vacant(t, id, row.key)
      then Some(t[id := row.(ruleId := t[id].ruleId, priority := Or(priority, t[id].priority),
                             isActive := Or(isActive, t[id].isActive))])
      else None
    case Deactivating(id) => if id in t then Some(t[id := t[id].(isActive := false)]) else None
  }

  /** The lookup by key returned `found`. */
  predicate Found(t: Rows, key: Digest, found: Option<string>) {
    if found.Some? then found.value in t && t[found.value].key == key
    else forall i :: i in t ==> t[i].key != key
  }

  function Start(decimal: real -> real, t: Rows, step: Step): Option<Call> {
    match step
    case StartCreate(_, id, q, found, roleActive, rule) =>
      var role := Text.Code(q.role);
      var key := DistributionKey(q.ruleId, role);
      if !CreateAllowed(q, roleActive, rule) || !PlainId(q.ruleId) || !Found(t, key, found) then None
      else if found == None then
        Some(Inserting(id, Row(key, q.ruleId, role, q.kind, Stored(decimal, q.value),
                               Or(q.priority, 0), Or(q.isActive, true))))
      else if t[found.value].isActive then None
      else Some(Reactivating(found.value, role, q.kind, Stored(decimal, q.value),
                             Or(q.priority, t[found.value].priority), Or(q.isActive, true)))
    case StartUpdate(_, id, change, roleActive) =>
      if id in t && ChangeCheck(t[id], change, roleActive) == None && Vacant(t, id, Changed(decimal, t[id], change).key)
      then Some(Rewriting(id, Changed(decimal, t[id], change), change.priority, change.isActive)) else None
    case StartDelete(_, id) => if id in t && t[id].isActive then Some(Deactivating(id)) else None
    case Finish(_) => None
  }

  function Next(decimal: real -> real, s: State, step: Step): State {
    if step.Finish? then
      if step.call !in s.pending then s
      else
        var t := Write(s.rows, s.pending[step.call]);
        State(if t.Some? then t.value else s.rows, s.pending - {step.call})
    else
      var c := Start(decimal, s.rows, step);
      if c.Some? then s.(pending := s.pending[step.call := c.value]) else s
  }

  function Run(decimal: real -> real, s: State, steps: seq<Step>): State
    decreases |steps|
  {
    if steps == [] then s else Run(decimal, Next(decimal, s, steps[0]), steps[1..])
  }

  function Undisturbed(decimal: real -> real, s: State, step: Step): Rows
    requires !step.Finish?
  {
    Next(decimal, Next(decimal, s, step), Finish(step.call)).rows
  }

  /** An admitted creation that nothing disturbs stores what is requested, in the inactive row if there is one. */
  lemma UndisturbedCreate(decimal: real -> real, s: State, call: nat, newId: string, q: Request, found: Option<string>)
    requires CreateAllowed(q, true, Some(true)) && PlainId(q.ruleId) && call !in s.pending
    requires Found(s.rows, DistributionKey(q.ruleId, Text.Code(q.role)), found)
    requires if found.Some? then !s.rows[found.value].isActive else newId !in s.rows
    ensures var t := Undisturbed(decimal, s, StartCreate(call, newId, q, found, true, Some(true)));
            var id := if found.Some? then found.value else newId;
            && id in t && t == s.rows[id := t[id]]
            && t[id].ruleId == (if found.Some? then s.rows[id].ruleId else q.ruleId)
            && t[id].role == Text.Code(q.role) && t[id].kind == q.kind
            && ValueStored(decimal, q.value, t[id].value) && t[id].isActive == (q.isActive != Given(false))
            && t[id].priority ==
               (if q.priority.Given? then q.priority.value else if found.Some? then s.rows[id].priority else 0)
  {
    var step := StartCreate(call, newId, q, found, true, Some(true));
    assert Next(decimal, s, step).pending[call] == Start(decimal, s.rows, step).value;
  }

  /** An admitted update that nothing disturbs stores the given fields and leaves the others as they were. */
  lemma UndisturbedUpdate(decimal: real -> real, s: State, call: nat, id: string, c: Change, roleActive: bool, was: Row)
    requires WritesDecimals(decimal) && call !in s.pending && id in s.rows && s.rows[id] == was && RowBounded(was)
    requires ChangeCheck(was, c, roleActive) == None && Vacant(s.rows, id, Changed(decimal, was, c).key)
    ensures var t := Undisturbed(decimal, s, StartUpdate(call, id, c, roleActive));
            id in t && t == s.rows[id := t[id]] && Rewritten(decimal, was, c, t[id])
  {
    ChangedIsRewritten(decimal, was, c, roleActive);
  }

  // ---------------------------------------------------------------- what always holds

  ghost predicate CallOk(t: Rows, c: Call) {
    match c
    case Inserting(_, row) => RowBounded(row) && KeyedRow(row)
    case Reactivating(id, role, kind, value, _, _) =>
      id in t && Text.Code(role) == role != "" && 0 <= value && (kind == Percentage ==> value <= 100 * 10000)
    case Rewriting(id, row, _, _) => id in t && RowBounded(row) && KeyedRow(row) && t[id].ruleId == row.ruleId
    case Deactivating(_) => true
  }

  ghost predicate Inv(s: State) {
    && Unique(s.rows)
    && (forall id :: id in s.rows ==> RowBounded(s.rows[id]))
    && (forall call :: call in s.pending ==> CallOk(s.rows, s.pending[call]))
  }

  /** Rows keep their place and their rule. */
  ghost predicate Grows(t: Rows, u: Rows) {
    forall id :: id in t ==> id in u && u[id].ruleId == t[id].ruleId
  }

  lemma StoringKeepsUnique(t: Rows, id: string, row: Row)
    requires Unique(t) && Vacant(t, id, row.key)
    ensures Unique(t[id := row])
  {
  }

  lemma OwnKeyIsVacant(t: Rows, id: string)
    requires Unique(t) && id in t
    ensures Vacant(t, id, t[id].key)
  {
  }

  /** A write stores one row, under a key that no other row has. */
  lemma WrittenRow(t: Rows, c: Call) returns (row: Row)
    requires Unique(t) && CallOk(t, c) && Write(t, c).Some?
    requires forall id :: id in t ==> RowBounded(t[id])
    ensures Write(t, c).value == t[c.id := row] && RowBounded(row) && Vacant(t, c.id, row.key)
    ensures c.id in t ==> row.ruleId == t[c.id].ruleId
  {
    row := Write(t, c).value[c.id];
    if c.id in t {
      OwnKeyIsVacant(t, c.id);
    }
  }

  lemma WriteKeepsInv(t: Rows, c: Call)
    requires Unique(t) && CallOk(t, c) && Write(t, c).Some?
    requires forall id :: id in t ==> RowBounded(t[id])
    ensures var u := Write(t, c).value;
            Unique(u) && Grows(t, u) && (forall id :: id in u ==> RowBounded(u[id]))
  {
    var row := WrittenRow(t, c);
    StoringKeepsUnique(t, c.id, row);
  }

  lemma StartIsOk(decimal: real -> real, t: Rows, step: Step)
    requires WritesDecimals(decimal) && Start(decimal, t, step).Some?
    requires forall id :: id in t ==> RowBounded(t[id])
    ensures CallOk(t, Start(decimal, t, step).value)
  {
    match step
    case StartCreate(_, _, q, _, _, _) =>
      Text.CodeIdempotent(q.role);
      StoredIsBounded(decimal, q.kind, q.value);
    case StartUpdate(_, id, change, roleActive) =>
      ChangedIsSound(decimal, t[id], change, roleActive);
    case _ =>
  }

  lemma NextKeepsInv(decimal: real -> real, s: State, step: Step)
    requires WritesDecimals(decimal) && Inv(s)
    ensures Inv(Next(decimal, s, step)) && Grows(s.rows, Next(decimal, s, step).rows)
  {
    if step.Finish? {
      if step.call in s.pending && Write(s.rows, s.pending[step.call]).Some? {
        WriteKeepsInv(s.rows, s.pending[step.call]);
      }
    } else if Start(decimal, s.rows, step).Some? {
      StartIsOk(decimal, s.rows, step);
    }
  }

  lemma {:induction false} RunKeepsInv(decimal: real -> real, s: State, steps: seq<Step>)
    requires WritesDecimals(decimal) && Inv(s)
    ensures Inv(Run(decimal, s, steps)) && Grows(s.rows, Run(decimal, s, steps).rows)
    decreases |steps|
  {
    if steps != [] {
      NextKeepsInv(decimal, s, steps[0]);
      RunKeepsInv(decimal, Next(decimal, s, steps[0]), steps[1..]);
    }
  }

  /** In every interleaving keys stay unique, values stay in range, and rows are never lost. */
  lemma RowsStayBounded(decimal: real -> real, steps: seq<Step>, more: seq<Step>)
    requires WritesDecimals(decimal)
    ensures var t, u := Run(decimal, EMPTY, steps).rows, Run(decimal, Run(decimal, EMPTY, steps), more).rows;
            Unique(t) && (forall id :: id in t ==> RowBounded(t[id])) && Grows(t, u)
  {
    RunKeepsInv(decimal, EMPTY, steps);
    RunKeepsInv(decimal, Run(decimal, EMPTY, steps), more);
  }

  // ---------------------------------------------------------------- when keys describe their rows

  ghost predicate AllKeyed(t: Rows) {
    forall id :: id in t ==> KeyedRow(t[id])
  }

  /** The write finds the row still in the role that the call looked up. */
  predicate Timely(t: Rows, c: Call) {
    c.Reactivating? && c.id in t ==> t[c.id].role == c.role
  }

  /** A write leaves every key describing its row if and only if it is timely. */
  lemma WriteKeepsKeysIffTimely(t: Rows, c: Call)
    requires AllKeyed(t) && CallOk(t, c) && Write(t, c).Some?
    requires forall id :: id in t ==> RowBounded(t[id])
    ensures AllKeyed(Write(t, c).value) <==> Timely(t, c)
  {
    if c.Reactivating? {
      DistributionKeyInjective(t[c.id].ruleId, t[c.id].role, t[c.id].ruleId, c.role);
      assert KeyedRow(t[c.id]);
      assert KeyedRow(Write(t, c).value[c.id]) <==> t[c.id].role == c.role;
    }
  }

  ghost predicate OnePerRole(t: Rows) {
    forall i, j | i in t && j in t && t[i].ruleId == t[j].ruleId && t[i].role == t[j].role :: i == j
  }

  /** Some row other than `id` has this rule and role. */
  predicate TakenBesides(t: Rows, id: string, ruleId: string, role: string) {
    exists j :: j in t && j != id && t[j].ruleId == ruleId && t[j].role == role
  }

  lemma KeyedRowsAreOnePerRole(t: Rows)
    requires Unique(t) && AllKeyed(t)
    ensures OnePerRole(t)
  {
    forall i, j | i in t && j in t && t[i].ruleId == t[j].ruleId && t[i].role == t[j].role ensures i == j {
      assert KeyedRow(t[i]) && KeyedRow(t[j]);
    }
  }

  /** From any table with one row per rule and role: a write keeps it so unless another row has what it writes. */
  lemma AnyWriteKeepsOnePerRoleIff(t: Rows, c: Call)
    requires Unique(t) && OnePerRole(t) && CallOk(t, c) && Write(t, c).Some?
    requires forall id :: id in t ==> RowBounded(t[id])
    ensures var u := Write(t, c).value;
            c.id in u && (OnePerRole(u) <==> !TakenBesides(t, c.id, u[c.id].ruleId, u[c.id].role))
  {
    var row := WrittenRow(t, c);
    var u := t[c.id := row];
    if TakenBesides(t, c.id, row.ruleId, row.role) {
      var j :| j in t && j != c.id && t[j].ruleId == row.ruleId && t[j].role == row.role;
      assert j in u && c.id in u && u[j].ruleId == u[c.id].ruleId && u[j].role == u[c.id].role;
    } else {
      forall i, j | i in u && j in u && u[i].ruleId == u[j].ruleId && u[i].role == u[j].role ensures i == j {
        assert i != c.id ==> u[i] == t[i];
        assert j != c.id ==> u[j] == t[j];
      }
    }
  }

  /**
   * From a table whose keys describe its rows, a write keeps one row per rule and role if and
   * only if it is timely, or no other row has the rule and role it writes.
   */
  lemma WriteKeepsOnePerRoleIff(t: Rows, c: Call)
    requires Unique(t) && AllKeyed(t) && CallOk(t, c) && Write(t, c).Some?
    requires forall id :: id in t ==> RowBounded(t[id])
    ensures OnePerRole(Write(t, c).value) <==>
            Timely(t, c) || !TakenBesides(t, c.id, t[c.id].ruleId, c.role)
  {
    KeyedRowsAreOnePerRole(t);
    AnyWriteKeepsOnePerRoleIff(t, c);
    if Timely(t, c) {
      WriteKeepsKeysIffTimely(t, c);
      WriteKeepsInv(t, c);
      KeyedRowsAreOnePerRole(Write(t, c).value);
    }
  }

  /** Every write of the run is timely. */
  predicate AllTimely(decimal: real -> real, s: State, steps: seq<Step>)
    decreases |steps|
  {
    steps == [] ||
    ((steps[0].Finish? && steps[0].call in s.pending ==> Timely(s.rows, s.pending[steps[0].call])) &&
     AllTimely(decimal, Next(decimal, s, steps[0]), steps[1..]))
  }

  /** With timely writes every interleaving keeps one row per rule and normalised role. */
  lemma {:induction false} TimelyRunsStaySound(decimal: real -> real, s: State, steps: seq<Step>)
    requires WritesDecimals(decimal) && Inv(s) && AllKeyed(s.rows) && AllTimely(decimal, s, steps)
    ensures Sound(Run(decimal, s, steps).rows)
    decreases |steps|
  {
    if steps != [] {
      var step, t := steps[0], Next(decimal, s, steps[0]);
      NextKeepsInv(decimal, s, step);
      if step.Finish? && step.call in s.pending && Write(s.rows, s.pending[step.call]).Some? {
        WriteKeepsKeysIffTimely(s.rows, s.pending[step.call]);
      }
      TimelyRunsStaySound(decimal, t, steps[1..]);
    }
  }

  /** Each call finishes before the next one starts. */
  function OneByOne(calls: seq<Step>): seq<Step> {
    if calls == [] then [] else [calls[0], Finish(calls[0].call)] + OneByOne(calls[1..])
  }

  /** Calls that do not overlap are always timely, hence sound. */
  lemma {:induction false} SequentialRunsStaySound(decimal: real -> real, s: State, calls: seq<Step>)
    requires WritesDecimals(decimal) && Inv(s) && AllKeyed(s.rows) && s.pending == map[]
    ensures Sound(Run(decimal, s, OneByOne(calls)).rows)
    decreases |calls|
  {
    if calls != [] {
      var t := Next(decimal, s, calls[0]);
      var u := Next(decimal, t, Finish(calls[0].call));
      var steps := OneByOne(calls);
      assert steps[1..] == [Finish(calls[0].call)] + OneByOne(calls[1..]) && steps[1..][1..] == OneByOne(calls[1..]);
      NextKeepsInv(decimal, s, calls[0]);
      NextKeepsInv(decimal, t, Finish(calls[0].call));
      CallIsTimely(decimal, s, calls[0]);
      assert u.pending == map[] by {
        assert t.pending.Keys <= {calls[0].call};
      }
      SequentialRunsStaySound(decimal, u, calls[1..]);
    }
  }

  lemma CallIsTimely(decimal: real -> real, s: State, call: Step)
    requires WritesDecimals(decimal) && Inv(s) && AllKeyed(s.rows) && s.pending == map[]
    ensures AllKeyed(Next(decimal, Next(decimal, s, call), Finish(call.call)).rows)
  {
    var t := Next(decimal, s, call);
    NextKeepsInv(decimal, s, call);
    if call.call in t.pending && Write(t.rows, t.pending[call.call]).Some? {
      var c := t.pending[call.call];
      if c.Reactivating? {
        assert KeyedRow(s.rows[c.id]);
        DistributionKeyInjective(s.rows[c.id].ruleId, s.rows[c.id].role, call.request.ruleId, c.role);
      }
      WriteKeepsKeysIffTimely(t.rows, c);
    }
  }

  // ---------------------------------------------------------------- an untimely write

  lemma {:induction false} RunInTwo(decimal: real -> real, s: State, first: seq<Step>, second: seq<Step>)
    ensures Run(decimal, s, first + second) == Run(decimal, Run(decimal, s, first), second)
    decreases |first|
  {
    if first == [] {
      assert first + second == second;
    } else {
      assert (first + second)[1..] == first[1..] + second;
      RunInTwo(decimal, Next(decimal, s, first[0]), first[1..], second);
    }
  }

  lemma RunPair(decimal: real -> real, s: State, x: Step, y: Step)
    ensures Run(decimal, s, [x, y]) == Next(decimal, Next(decimal, s, x), y)
  {
    assert [x, y][1..] == [y] && [y][1..] == [];
    assert Run(decimal, Next(decimal, s, x), [y]) == Run(decimal, Next(decimal, Next(decimal, s, x), y), []);
  }

  function Asked(ruleId: string, role: string, isActive: bool): Request {
    Request(ruleId, role, Fixed, Finite(0.0), Absent, Given(isActive))
  }

  function Made(decimal: real -> real, ruleId: string, role: string, isActive: bool): Row {
    Row(DistributionKey(ruleId, role), ruleId, role, Fixed, Stored(decimal, Finite(0.0)), 0, isActive)
  }

  ghost predicate Usual(decimal: real -> real, ruleId: string, role: string) {
    WritesDecimals(decimal) && PlainId(ruleId) && ruleId != "" && Text.Code(role) == role != ""
  }

  /** A creation for a role without a row, from its read to its write. */
  lemma CreationRuns(decimal: real -> real, s: State, call: nat, id: string, ruleId: string, role: string,
          isActive: bool)
    requires Usual(decimal, ruleId, role) && call !in s.pending && id !in s.rows
    requires forall i :: i in s.rows ==> s.rows[i].key != DistributionKey(ruleId, role)
    ensures Run(decimal, s,
                [StartCreate(call, id, Asked(ruleId, role, isActive), None, true, Some(true)), Finish(call)]) ==
            s.(rows := s.rows[id := Made(decimal, ruleId, role, isActive)])
  {
    var steps := [StartCreate(call, id, Asked(ruleId, role, isActive), None, true, Some(true)), Finish(call)];
    var t := Next(decimal, s, steps[0]);
    assert t == s.(pending := s.pending[call := Inserting(id, Made(decimal, ruleId, role, isActive))]);
    assert t.pending - {call} == s.pending;
    RunPair(decimal, s, steps[0], Finish(call));
  }

  /** A change of an inactive row's role to one without a row. */
  lemma RoleChangeRuns(decimal: real -> real, s: State, call: nat, id: string, ruleId: string, role: string,
          next: string)
    requires Usual(decimal, ruleId, role) && Usual(decimal, ruleId, next) && call !in s.pending
    requires s.rows == map[id := Made(decimal, ruleId, role, false)]
    ensures Run(decimal, s,
                [StartUpdate(call, id, Change(Given(next), Absent, Given(Finite(0.0)), Absent, Absent), true),
                 Finish(call)]) ==
            s.(rows := map[id := Made(decimal, ruleId, next, false)])
  {
    var change := Change(Given(next), Absent, Given(Finite(0.0)), Absent, Absent);
    var steps := [StartUpdate(call, id, change, true), Finish(call)];
    var t := Next(decimal, s, steps[0]);
    assert Changed(decimal, s.rows[id], change) == Made(decimal, ruleId, next, false);
    assert t == s.(pending := s.pending[call := Rewriting(id, Made(decimal, ruleId, next, false), Absent, Absent)]);
    assert t.pending - {call} == s.pending;
    RunPair(decimal, s, steps[0], Finish(call));
  }

  /**
   * For any two roles: while a creation is about to reactivate the inactive row of role a, the
   * row is moved to role b and a new row for a is created; the late write then gives the rule
   * two rows of role a, one of them under the key of b.
   */
  lemma UntimelyWriteDuplicates(decimal: real -> real, ruleId: string, a: string, b: string) returns (steps: seq<Step>)
    requires Usual(decimal, ruleId, a) && Usual(decimal, ruleId, b) && a != b
    ensures var t := Run(decimal, EMPTY, steps).rows;
            && "d" in t && "e" in t && t["d"].ruleId == t["e"].ruleId == ruleId && t["d"].role == t["e"].role == a
            && t["d"].key == DistributionKey(ruleId, b) && !KeyedRow(t["d"])
  {
    DistributionKeyInjective(ruleId, a, ruleId, b);
    var x, y := Made(decimal, ruleId, a, false), Made(decimal, ruleId, b, false);
    var late := Reactivating("d", a, Fixed, Stored(decimal, Finite(0.0)), 0, true);
    var begin := [StartCreate(0, "d", Asked(ruleId, a, false), None, true, Some(true)), Finish(0)];
    CreationRuns(decimal, EMPTY, 0, "d", ruleId, a, false);
    var look := [StartCreate(1, "f", Asked(ruleId, a, true), Some("d"), true, Some(true))];
    var s := State(map["d" := x], map[]);
    assert Next(decimal, s, look[0]) == State(map["d" := x], map[1 := late]);
    assert look[1..] == [];
    var s2 := State(map["d" := x], map[1 := late]);
    var move := [StartUpdate(2, "d", Change(Given(b), Absent, Given(Finite(0.0)), Absent, Absent), true), Finish(2)];
    RoleChangeRuns(decimal, s2, 2, "d", ruleId, a, b);
    var s3 := State(map["d" := y], map[1 := late]);
    var again := [StartCreate(3, "e", Asked(ruleId, a, true), None, true, Some(true)), Finish(3)];
    CreationRuns(decimal, s3, 3, "e", ruleId, a, true);
    var s4 := State(map["d" := y]["e" := Made(decimal, ruleId, a, true)], map[1 := late]);
    assert [Finish(1)][1..] == [];
    steps := begin + (look + (move + (again + [Finish(1)])));
    RunInTwo(decimal, EMPTY, begin, look + (move + (again + [Finish(1)])));
    RunInTwo(decimal, s, look, move + (again + [Finish(1)]));
    RunInTwo(decimal, s2, move, again + [Finish(1)]);
    RunInTwo(decimal, s3, again, [Finish(1)]);
    assert Run(decimal, s4, [Finish(1)]) == Next(decimal, s4, Finish(1));
  }
}
