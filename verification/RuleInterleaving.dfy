/**
 * Rule calls running at the same time: each one reads, prepares its row and checks its key,
 * and writes later; only the unique key column stands between the check and the write.
 */
module RuleInterleaving {
  import opened Prelude
  import Text
  import opened RuleScopes
  import opened CommissionRules

  datatype Call =
    | Creating(id: string, rule: Rule)
    | Updating(id: string, rule: Rule, priority: Field<int>, isActive: Field<bool>)
    | Deactivating(id: string)

  datatype State = State(rules: Table, pending: map<nat, Call>)

  datatype Step =
    | StartCreate(call: nat, id: string, input: Input)
    | StartUpdate(call: nat, id: string, patch: Patch)
    | StartDelete(call: nat, id: string)
    | Finish(call: nat)

  const EMPTY: State := State(map[], map[])

  /** The write of a prepared call; None when the unique column or a missing row refuses it. */
  function Write(t: Table, c: Call): Option<Table> {
    match c
    case Creating(id, rule) => if id !in t && KeyFree(t, id, rule.key) then Some(t[id := rule]) else None
    case Updating(id, rule, priority, isActive) =>
      if id in t && KeyFree(t, id, rule.key)
      then Some(t[id := rule.(priority := Or(priority, t[id].priority), isActive := Or(isActive, t[id].isActive))])
      else None
    case Deactivating(id) => if id in t then Some(t[id := t[id].(isActive := false)]) else None
  }

  function Start(decimal: real -> real, t: Table, step: Step): Option<Call> {
    match step
    case StartCreate(_, id, input) =>
      var p := Prepared(decimal, input);
      if p.Success? && KeyFree(t, id, p.value.key) then Some(Creating(id, p.value)) else None
    case StartUpdate(_, id, patch) =>
      if id !in t then None
      else
        var p := Prepared(decimal, Merged(t[id], patch));
        if p.Success? && KeyFree(t, id, p.value.key)
        then Some(Updating(id, p.value, patch.priority, patch.isActive)) else None
    case StartDelete(_, id) => if id in t && t[id].isActive then Some(Deactivating(id)) else None
    case Finish(_) => None
  }

  function Next(decimal: real -> real, s: State, step: Step): State {
    if step.Finish? then
      if step.call !in s.pending then s
      else
        var t := Write(s.rules, s.pending[step.call]);
        State(if t.Some? then t.value else s.rules, s.pending - {step.call})
    else
      var c := Start(decimal, s.rules, step);
      if c.Some? then s.(pending := s.pending[step.call := c.value]) else s
  }

  function Run(decimal: real -> real, s: State, steps: seq<Step>): State
    decreases |steps|
  {
    if steps == [] then s else Run(decimal, Next(decimal, s, steps[0]), steps[1..])
  }

  function Undisturbed(decimal: real -> real, s: State, step: Step): Table
    requires !step.Finish?
  {
    Next(decimal, Next(decimal, s, step), Finish(step.call)).rules
  }

  /** A creation that nothing disturbs does what the service's method does: it stores what is requested. */
  lemma UndisturbedCreate(decimal: real -> real, s: State, call: nat, id: string, input: Input)
    requires call !in s.pending && id !in s.rules
    ensures var t := Undisturbed(decimal, s, StartCreate(call, id, input));
            if Prepared(decimal, input).Success? && KeyFree(s.rules, id, Prepared(decimal, input).value.key)
            then id in t && t == s.rules[id := t[id]] && AsRequested(decimal, input, t[id])
            else t == s.rules
  {
    if Prepared(decimal, input).Success? {
      PreparedAsRequested(decimal, input);
    }
  }

  /** So does an update: it stores the fields that are given and leaves the others as they were. */
  lemma UndisturbedUpdate(decimal: real -> real, s: State, call: nat, id: string, patch: Patch, was: Rule)
    requires WritesDecimals(decimal) && call !in s.pending && id in s.rules && s.rules[id] == was && Bounded(was)
    ensures var t := Undisturbed(decimal, s, StartUpdate(call, id, patch));
            var p := Prepared(decimal, Merged(was, patch));
            if p.Success? && KeyFree(s.rules, id, p.value.key)
            then id in t && t == s.rules[id := t[id]] && Patched(decimal, was, patch, t[id])
            else t == s.rules
  {
    var p := Prepared(decimal, Merged(was, patch));
    if p.Success? {
      MergedIsPatched(decimal, was, patch,
                      p.value.(priority := Or(patch.priority, was.priority),
                               isActive := Or(patch.isActive, was.isActive)));
    }
  }

  lemma UndisturbedDelete(decimal: real -> real, s: State, call: nat, id: string)
    requires call !in s.pending
    ensures Undisturbed(decimal, s, StartDelete(call, id)) ==
            if id in s.rules then s.rules[id := s.rules[id].(isActive := false)] else s.rules
  {
    if id in s.rules && !s.rules[id].isActive {
      assert s.rules[id := s.rules[id].(isActive := false)] == s.rules;
    }
  }

  ghost predicate CallBounded(c: Call) {
    !c.Deactivating? ==> Bounded(c.rule)
  }

  ghost predicate Inv(s: State) {
    && UniqueKeys(s.rules)
    && (forall id :: id in s.rules ==> Bounded(s.rules[id]))
    && (forall call :: call in s.pending ==> CallBounded(s.pending[call]))
  }

  lemma WriteKeepsTable(t: Table, c: Call)
    requires UniqueKeys(t) && Write(t, c).Some?
    ensures UniqueKeys(Write(t, c).value)
    ensures forall id :: id in Write(t, c).value && id != c.id ==> id in t && Write(t, c).value[id] == t[id]
  {
  }

  lemma StartIsBounded(decimal: real -> real, t: Table, step: Step)
    requires WritesDecimals(decimal) && Start(decimal, t, step).Some?
    ensures CallBounded(Start(decimal, t, step).value)
  {
    match step
    case StartCreate(_, _, input) => PreparedIsBounded(decimal, input);
    case StartUpdate(_, id, patch) => PreparedIsBounded(decimal, Merged(t[id], patch));
    case _ =>
  }

  lemma FinishKeepsInv(s: State, call: nat, c: Call, t: Table)
    requires Inv(s) && call in s.pending && s.pending[call] == c && Write(s.rules, c) == Some(t)
    ensures Inv(State(t, s.pending - {call}))
  {
    assert CallBounded(c);
    WriteKeepsTable(s.rules, c);
    assert c.id in t && Bounded(t[c.id]);
  }

  lemma NextKeepsInv(decimal: real -> real, s: State, step: Step)
    requires WritesDecimals(decimal) && Inv(s)
    ensures Inv(Next(decimal, s, step))
  {
    if step.Finish? {
      if step.call in s.pending && Write(s.rules, s.pending[step.call]).Some? {
        FinishKeepsInv(s, step.call, s.pending[step.call], Write(s.rules, s.pending[step.call]).value);
      }
    } else if Start(decimal, s.rules, step).Some? {
      StartIsBounded(decimal, s.rules, step);
    }
  }

  lemma {:induction false} RunKeepsInv(decimal: real -> real, s: State, steps: seq<Step>)
    requires WritesDecimals(decimal) && Inv(s)
    ensures Inv(Run(decimal, s, steps))
    decreases |steps|
  {
    if steps != [] {
      NextKeepsInv(decimal, s, steps[0]);
      RunKeepsInv(decimal, Next(decimal, s, steps[0]), steps[1..]);
    }
  }

  /**
   * In every interleaving every stored rule has canonical codes, 0 <= min <= max where present,
   * a non-negative value and a percentage of at most 100, and no two rules share a key.
   */
  lemma RulesStayBounded(decimal: real -> real, steps: seq<Step>, id: string)
    requires WritesDecimals(decimal) && id in Run(decimal, EMPTY, steps).rules
    ensures Bounded(Run(decimal, EMPTY, steps).rules[id]) && UniqueKeys(Run(decimal, EMPTY, steps).rules)
  {
    RunKeepsInv(decimal, EMPTY, steps);
  }

  // ---------------------------------------------------------------- keys and scopes

  predicate GivenAgrees(decimal: real -> real, a: Option<Number>) {
    a.Some? && a.value.Finite? ==> Agrees(decimal, a.value.value)
  }

  /** Every amount the step's request carries rounds alike in the key and in the column. */
  predicate StepAgrees(decimal: real -> real, step: Step) {
    match step
    case StartCreate(_, _, input) => GivenAgrees(decimal, input.min) && GivenAgrees(decimal, input.max)
    case StartUpdate(_, _, patch) =>
      && (patch.min.Given? ==> GivenAgrees(decimal, patch.min.value))
      && (patch.max.Given? ==> GivenAgrees(decimal, patch.max.value))
    case _ => true
  }

  ghost predicate AllAgree(decimal: real -> real, steps: seq<Step>) {
    forall k | 0 <= k < |steps| :: StepAgrees(decimal, steps[k])
  }

  ghost predicate CallOwn(c: Call) {
    !c.Deactivating? ==> OwnKey(c.rule)
  }

  ghost predicate OwnKeys(s: State) {
    && (forall id :: id in s.rules ==> OwnKey(s.rules[id]))
    && (forall call :: call in s.pending ==> CallOwn(s.pending[call]))
  }

  lemma MergedAgrees(decimal: real -> real, rule: Rule, patch: Patch)
    requires WritesDecimals(decimal)
    requires patch.min.Given? ==> GivenAgrees(decimal, patch.min.value)
    requires patch.max.Given? ==> GivenAgrees(decimal, patch.max.value)
    ensures AmountsAgree(decimal, Merged(rule, patch))
  {
    if rule.scope.min.Some? {
      ColumnAgrees(decimal, rule.scope.min.value);
    }
    if rule.scope.max.Some? {
      ColumnAgrees(decimal, rule.scope.max.value);
    }
  }

  lemma StartIsOwn(decimal: real -> real, t: Table, step: Step)
    requires WritesDecimals(decimal) && StepAgrees(decimal, step) && Start(decimal, t, step).Some?
    ensures CallOwn(Start(decimal, t, step).value)
  {
    match step
    case StartCreate(_, _, input) => OwnKeyIffAmountsAgree(decimal, input);
    case StartUpdate(_, id, patch) =>
      MergedAgrees(decimal, t[id], patch);
      OwnKeyIffAmountsAgree(decimal, Merged(t[id], patch));
    case _ =>
  }

  lemma WriteKeepsOwn(t: Table, c: Call)
    requires CallOwn(c) && Write(t, c).Some? && forall id :: id in t ==> OwnKey(t[id])
    ensures forall id :: id in Write(t, c).value ==> OwnKey(Write(t, c).value[id])
  {
  }

  lemma NextKeepsOwn(decimal: real -> real, s: State, step: Step)
    requires WritesDecimals(decimal) && OwnKeys(s) && StepAgrees(decimal, step)
    ensures OwnKeys(Next(decimal, s, step))
  {
    if step.Finish? {
      if step.call in s.pending && Write(s.rules, s.pending[step.call]).Some? {
        WriteKeepsOwn(s.rules, s.pending[step.call]);
      }
    } else if Start(decimal, s.rules, step).Some? {
      StartIsOwn(decimal, s.rules, step);
    }
  }

  /** With such amounts every stored rule, in every interleaving, is under the key of its own scope. */
  lemma {:induction false} RunKeepsOwn(decimal: real -> real, s: State, steps: seq<Step>)
    requires WritesDecimals(decimal) && OwnKeys(s)
    requires AllAgree(decimal, steps)
    ensures OwnKeys(Run(decimal, s, steps))
    decreases |steps|
  {
    if steps != [] {
      assert StepAgrees(decimal, steps[0]);
      NextKeepsOwn(decimal, s, steps[0]);
      RunKeepsOwn(decimal, Next(decimal, s, steps[0]), steps[1..]);
    }
  }

  /**
   * If the requests carry only amounts on which the key's and the column's rounding agree, then
   * in every interleaving no two rules share a scope to two decimals.
   */
  lemma ScopesStayUnique(decimal: real -> real, steps: seq<Step>)
    requires WritesDecimals(decimal)
    requires AllAgree(decimal, steps)
    ensures var t := Run(decimal, EMPTY, steps).rules;
            forall i, j | i in t && j in t && t[i].scope == t[j].scope :: i == j
  {
    RunKeepsInv(decimal, EMPTY, steps);
    RunKeepsOwn(decimal, EMPTY, steps);
    var t := Run(decimal, EMPTY, steps).rules;
    forall i, j | i in t && j in t && t[i].scope == t[j].scope ensures i == j {
      assert OwnKey(t[i]) && OwnKey(t[j]);
    }
  }

  function Plain(min: real): Input {
    Input("AEPS", None, "RETAILER", Fixed, Finite(1.0), Some(Finite(min)), None)
  }

  function PlainScope(min: int): Scope {
    Scope(Text.Code("AEPS"), None, Text.Code("RETAILER"), Some(min), None)
  }

  lemma PreparedPlain(decimal: real -> real, min: real)
    requires min >= 0.0
    ensures Prepared(decimal, Plain(min)).Success?
    ensures var rule := Prepared(decimal, Plain(min)).value;
            rule.scope == PlainScope(Hundredths(decimal(min))) && rule.key == RuleKey(PlainScope(Hundredths(min)))
  {
    assert Text.Trim("AEPS") == "AEPS" && Text.Trim("RETAILER") == "RETAILER";
  }

  lemma CreateRuns(decimal: real -> real, t: Table, id: string, i: Input, rest: seq<Step>)
    requires Prepared(decimal, i).Success? && id !in t && KeyFree(t, id, Prepared(decimal, i).value.key)
    ensures Run(decimal, State(t, map[]), [StartCreate(0, id, i), Finish(0)] + rest) ==
            Run(decimal, State(t[id := Prepared(decimal, i).value], map[]), rest)
  {
    var rule := Prepared(decimal, i).value;
    var steps := [StartCreate(0, id, i), Finish(0)] + rest;
    assert steps[1..] == [Finish(0)] + rest && steps[1..][1..] == rest;
    assert Next(decimal, State(t, map[]), steps[0]) == State(t, map[0 := Creating(id, rule)]);
    assert map[0 := Creating(id, rule)] - {0} == map[];
  }

  /** The steps of two creations, one after the other. */
  function TwoCreations(i: Input, j: Input): seq<Step> {
    [StartCreate(0, "a", i), Finish(0)] + ([StartCreate(0, "b", j), Finish(0)] + [])
  }

  /** Two requests that prepare rows with different keys and the same stored scope. */
  ghost predicate Twins(decimal: real -> real, i: Input, j: Input) {
    var x, y := Prepared(decimal, i), Prepared(decimal, j);
    x.Success? && y.Success? && x.value.key != y.value.key && x.value.scope == y.value.scope
  }

  ghost predicate SharedScope(t: Table, i: string, j: string) {
    i in t && j in t && i != j && t[i].scope == t[j].scope
  }

  /** Twins are both accepted. */
  lemma TwinsAreBothCreated(decimal: real -> real, i: Input, j: Input)
    requires Twins(decimal, i, j)
    ensures SharedScope(Run(decimal, EMPTY, TwoCreations(i, j)).rules, "a", "b")
  {
    var x := Prepared(decimal, i).value;
    CreateRuns(decimal, map[], "a", i, [StartCreate(0, "b", j), Finish(0)] + []);
    CreateRuns(decimal, map["a" := x], "b", j, []);
    assert map[]["a" := x] == map["a" := x];
  }

  lemma DisagreeingAmounts(decimal: real -> real, x: real, n: int)
    requires WritesDecimals(decimal) && x >= 0.0 && !Agrees(decimal, x) && n == Hundredths(decimal(x))
    ensures var y := n as real / 100.0;
            y >= 0.0 && Hundredths(y) == n == Hundredths(decimal(y)) && Hundredths(x) >= 0 && n >= 0 &&
                Hundredths(x) != n
  {
    ColumnNonNegative(decimal, x);
    ColumnAgrees(decimal, n);
    HundredthsMonotone(0.0, x);
  }

  /** Plain requests whose amounts differ to two decimals, but not in the column, are twins. */
  lemma PlainTwins(decimal: real -> real, x: real, y: real)
    requires x >= 0.0 && y >= 0.0 && RuleKey(PlainScope(Hundredths(x))) != RuleKey(PlainScope(Hundredths(y)))
    requires Hundredths(decimal(x)) == Hundredths(decimal(y))
    ensures Twins(decimal, Plain(x), Plain(y))
  {
    PreparedPlain(decimal, x);
    PreparedPlain(decimal, y);
  }

  lemma PlainKeysDiffer(m: int, n: int)
    requires m >= 0 && n >= 0 && m != n
    ensures RuleKey(PlainScope(m)) != RuleKey(PlainScope(n))
  {
    AmountsDecideKey(PlainScope(m), Some(n), None);
  }

  /** An amount and what the column makes of it are twins. */
  lemma DisagreeingAmountsAreTwins(decimal: real -> real, x: real, n: int, y: real)
    requires WritesDecimals(decimal) && x >= 0.0 && !Agrees(decimal, x) && n == Hundredths(decimal(x))
    requires y == n as real / 100.0
    ensures Twins(decimal, Plain(x), Plain(y))
  {
    DisagreeingAmounts(decimal, x, n);
    PlainKeysDiffer(Hundredths(x), n);
    PlainTwins(decimal, x, y);
  }

  /**
   * For every amount on which the roundings disagree, there is a run that stores two rules with
   * the same scope: one from the amount itself and one from the amount the column made of it.
   */
  lemma DisagreementSplitsAScope(decimal: real -> real, x: real) returns (steps: seq<Step>)
    requires WritesDecimals(decimal) && x >= 0.0 && !Agrees(decimal, x)
    ensures SharedScope(Run(decimal, EMPTY, steps).rules, "a", "b")
  {
    var n := Hundredths(decimal(x));
    var y := n as real / 100.0;
    DisagreeingAmountsAreTwins(decimal, x, n, y);
    TwinsAreBothCreated(decimal, Plain(x), Plain(y));
    steps := TwoCreations(Plain(x), Plain(y));
  }

  /** The double nearest to 1.005 is a little less, and is written 1.005. */
  const NEARLY: real := 1.00499999999999989341858963598497211933135986328125

  function ReadsNearly(x: real): real {
    if NEARLY <= x <= 1.005 then 1.005 else x
  }

  /** Such amounts exist: 1.005 gives the key 1.00 and the column 1.01. */
  lemma NearlyDisagrees()
    ensures WritesDecimals(ReadsNearly) && !Agrees(ReadsNearly, NEARLY)
  {
    forall n: int ensures ReadsNearly(Decimals4(n)) == Decimals4(n) {
      assert NEARLY <= n as real / 10000.0 <= 1.005 ==> n == 10050;
    }
    assert Hundredths(NEARLY) == 100 && Hundredths(1.005) == 101;
  }
}
