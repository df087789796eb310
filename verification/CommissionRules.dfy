/** CommissionRuleService: rules under deterministic keys. */
module CommissionRules {
  import opened Prelude
  import opened Text
  import opened RuleScopes

  datatype Kind = Fixed | Percentage

  /** A stored row: amounts in hundredths, the commission value in ten-thousandths. */
  datatype Rule = Rule(key: Digest, scope: Scope, kind: Kind, value: int, priority: int, isActive: bool)

  type Table = map<string, Rule>

  datatype Refusal =
    | ServiceRequired | RoleRequired | ValueInvalid | PercentTooHigh | MinInvalid | MaxInvalid | MinAboveMax
    | IdRequired | NotFound | Duplicate(id: string)

  /** The complete values of a rule as a request, or a request merged with a row, gives them. */
  datatype Input = Input(
    service: string,
    operator: Option<string>,
    role: string,
    kind: Kind,
    value: Number,
    min: Option<Number>,
    max: Option<Number>)

  datatype Patch = Patch(
    service: Field<string>,
    operator: Field<Option<string>>,
    role: Field<string>,
    kind: Field<Kind>,
    value: Field<Number>,
    min: Field<Option<Number>>,
    max: Field<Option<Number>>,
    priority: Field<int>,
    isActive: Field<bool>)

  predicate Amount(n: Number) {
    n.Finite? && n.value >= 0.0
  }

  function ValidateAmounts(kind: Kind, value: Number, min: Option<Number>, max: Option<Number>): (r: Option<Refusal>)
    ensures r == None <==>
            && Amount(value) && (kind == Percentage ==> value.value <= 100.0)
            && (min.Some? ==> Amount(min.value)) && (max.Some? ==> Amount(max.value))
            && (min.Some? && max.Some? ==> min.value.value <= max.value.value)
  {
    if !value.Finite? || value.value < 0.0 then Some(ValueInvalid)
    else if kind == Percentage && value.value > 100.0 then Some(PercentTooHigh)
    else if min.Some? && (!min.value.Finite? || min.value.value < 0.0) then Some(MinInvalid)
    else if max.Some? && (!max.value.Finite? || max.value.value < 0.0) then Some(MaxInvalid)
    else if min.Some? && max.Some? && min.value.value > max.value.value then Some(MinAboveMax)
    else None
  }

  /** The amount as the key has it, and as the column has it. */
  function KeyAmount(a: Option<Number>): Option<int> {
    if a.Some? && a.value.Finite? then Some(Hundredths(a.value.value)) else None
  }

  function ColumnAmount(decimal: real -> real, a: Option<Number>): Option<int> {
    if a.Some? && a.value.Finite? then Some(Hundredths(decimal(a.value.value))) else None
  }

  function ColumnValue(decimal: real -> real, v: Number): int {
    if v.Finite? then TenThousandths(decimal(v.value)) else 0
  }

  /** Normalisation, validation and the key: what both create and update do before they write. */
  function Prepared(decimal: real -> real, i: Input): Result<Rule, Refusal> {
    if Code(i.service) == "" then Failure(ServiceRequired)
    else if Code(i.role) == "" then Failure(RoleRequired)
    else if ValidateAmounts(i.kind, i.value, i.min, i.max).Some? then
      Failure(ValidateAmounts(i.kind, i.value, i.min, i.max).value)
    else
      var keyed := Scope(Code(i.service), OptionalCode(i.operator), Code(i.role), KeyAmount(i.min), KeyAmount(i.max));
      var stored := keyed.(min := ColumnAmount(decimal, i.min), max := ColumnAmount(decimal, i.max));
      Success(Rule(RuleKey(keyed), stored, i.kind, ColumnValue(decimal, i.value), 0, true))
  }

  function FromColumn(a: Option<int>): Option<Number> {
    if a == None then None else Some(Finite(a.value as real / 100.0))
  }

  /** The values a row will have: given fields replace, absent ones stay. */
  function Merged(rule: Rule, p: Patch): Input {
    Input(if p.service.Given? then p.service.value else rule.scope.service,
          if p.operator.Given? then p.operator.value else rule.scope.operator,
          if p.role.Given? then p.role.value else rule.scope.role,
          if p.kind.Given? then p.kind.value else rule.kind,
          if p.value.Given? then p.value.value else Finite(Decimals4(rule.value)),
          if p.min.Given? then p.min.value else FromColumn(rule.scope.min),
          if p.max.Given? then p.max.value else FromColumn(rule.scope.max))
  }

  function Or<T>(f: Field<T>, otherwise: T): T {
    if f.Given? then f.value else otherwise
  }

  predicate KeyFree(t: Table, id: string, key: Digest) {
    forall other :: other in t && other != id ==> t[other].key != key
  }

  // ---------------------------------------------------------------- what a request asks for, field by field

  /** The amount column holds the given amount in hundredths, rounded from what the database receives. */
  ghost predicate AmountStored(decimal: real -> real, given: Option<Number>, stored: Option<int>) {
    if given.Some? && given.value.Finite?
    then stored.Some? && RoundsTo(decimal(given.value.value) * 100.0, stored.value)
    else stored == None
  }

  ghost predicate ValueStored(decimal: real -> real, given: Number, stored: int) {
    given.Finite? && RoundsTo(decimal(given.value) * 10000.0, stored)
  }

  /** The amount in the key: the given one itself, in hundredths. */
  ghost predicate AmountKeyed(given: Option<Number>, keyed: Option<int>) {
    if given.Some? && given.value.Finite? then keyed.Some? && RoundsTo(given.value.value * 100.0, keyed.value)
    else keyed == None
  }

  /** The key is made of the stored codes and the given amounts. */
  ghost predicate KeyedBy(r: Rule, min: Option<Number>, max: Option<Number>) {
    exists a, b :: AmountKeyed(min, a) && AmountKeyed(max, b) && r.key == RuleKey(r.scope.(min := a, max := b))
  }

  /** `r` holds what the request gives, in canonical form. */
  ghost predicate AsRequested(decimal: real -> real, i: Input, r: Rule) {
    && r.scope.service == Code(i.service) && OperatorOf(i.operator, r.scope.operator) && r.scope.role == Code(i.role)
    && AmountStored(decimal, i.min, r.scope.min) && AmountStored(decimal, i.max, r.scope.max)
    && r.kind == i.kind && ValueStored(decimal, i.value, r.value) && KeyedBy(r, i.min, i.max)
  }

  /** `r` is `was` with the fields that the patch gives, in canonical form; the others are as they were. */
  ghost predicate Patched(decimal: real -> real, was: Rule, p: Patch, r: Rule) {
    && r.scope.service == (if p.service.Given? then Code(p.service.value) else was.scope.service)
    && (if p.operator.Given? then OperatorOf(p.operator.value, r.scope.operator)
        else r.scope.operator == was.scope.operator)
    && r.scope.role == (if p.role.Given? then Code(p.role.value) else was.scope.role)
    && (if p.min.Given? then AmountStored(decimal, p.min.value, r.scope.min) else r.scope.min == was.scope.min)
    && (if p.max.Given? then AmountStored(decimal, p.max.value, r.scope.max) else r.scope.max == was.scope.max)
    && r.kind == (if p.kind.Given? then p.kind.value else was.kind)
    && (if p.value.Given? then ValueStored(decimal, p.value.value, r.value) else r.value == was.value)
    && r.priority == (if p.priority.Given? then p.priority.value else was.priority)
    && r.isActive == (if p.isActive.Given? then p.isActive.value else was.isActive)
  }

  lemma PreparedAsRequested(decimal: real -> real, i: Input)
    requires Prepared(decimal, i).Success?
    ensures AsRequested(decimal, i, Prepared(decimal, i).value)
  {
    var r := Prepared(decimal, i).value;
    assert AmountKeyed(i.min, KeyAmount(i.min)) && AmountKeyed(i.max, KeyAmount(i.max));
    assert r.scope.(min := KeyAmount(i.min), max := KeyAmount(i.max)) ==
           Scope(Code(i.service), OptionalCode(i.operator), Code(i.role), KeyAmount(i.min), KeyAmount(i.max));
  }

  /** What is read back from a column and written again is what was stored. */
  lemma ValueRoundTrip(decimal: real -> real, n: int)
    requires WritesDecimals(decimal)
    ensures ColumnValue(decimal, Finite(Decimals4(n))) == n
  {
    assert decimal(Decimals4(n)) == Decimals4(n);
    assert n as real / 10000.0 * 10000.0 == n as real;
  }

  lemma AmountRoundTrip(decimal: real -> real, a: Option<int>)
    requires WritesDecimals(decimal)
    ensures ColumnAmount(decimal, FromColumn(a)) == a
  {
    if a.Some? {
      ColumnAgrees(decimal, a.value);
    }
  }

  /** An update stores the given fields and leaves the others exactly as they were, through every rounding. */
  lemma MergedIsPatched(decimal: real -> real, was: Rule, p: Patch, r: Rule)
    requires WritesDecimals(decimal) && Canonical(was.scope) && Prepared(decimal, Merged(was, p)).Success?
    requires r == Prepared(decimal, Merged(was, p)).value.(
                    priority := Or(p.priority, was.priority), isActive := Or(p.isActive, was.isActive))
    ensures Patched(decimal, was, p, r)
  {
    ValueRoundTrip(decimal, was.value);
    AmountRoundTrip(decimal, was.scope.min);
    AmountRoundTrip(decimal, was.scope.max);
  }

  /** Each refusal of the checks states a fact about the request. */
  ghost predicate Justified(i: Input, e: Refusal) {
    match e
    case ServiceRequired => Trim(i.service) == ""
    case RoleRequired => Trim(i.role) == ""
    case ValueInvalid => !Amount(i.value)
    case PercentTooHigh => i.kind == Percentage && i.value.Finite? && i.value.value > 100.0
    case MinInvalid => i.min.Some? && !Amount(i.min.value)
    case MaxInvalid => i.max.Some? && !Amount(i.max.value)
    case MinAboveMax => i.min.Some? && i.max.Some? && Amount(i.min.value) && Amount(i.max.value) &&
      i.min.value.value > i.max.value.value
    case _ => false
  }

  /** A request passes the checks exactly if it has a service, a role and amounts in range. */
  lemma PreparedIff(decimal: real -> real, i: Input)
    ensures Prepared(decimal, i).Success? <==>
            Trim(i.service) != "" && Trim(i.role) != "" && ValidateAmounts(i.kind, i.value, i.min, i.max) == None
    ensures Prepared(decimal, i).Failure? ==> Justified(i, Prepared(decimal, i).error)
  {
  }

  // ---------------------------------------------------------------- what stored rules satisfy

  ghost predicate Bounded(r: Rule) {
    && Canonical(r.scope)
    && 0 <= r.value && (r.kind == Percentage ==> r.value <= 100 * 10000)
    && NonNegative(r.scope.min) && NonNegative(r.scope.max)
    && (r.scope.min.Some? && r.scope.max.Some? ==> r.scope.min.value <= r.scope.max.value)
  }

  ghost predicate UniqueKeys(t: Table) {
    forall i, j | i in t && j in t && t[i].key == t[j].key :: i == j
  }

  ghost predicate OwnKey(r: Rule) {
    r.key == RuleKey(r.scope)
  }

  predicate AmountsAgree(decimal: real -> real, i: Input) {
    && (i.min.Some? && i.min.value.Finite? ==> Agrees(decimal, i.min.value.value))
    && (i.max.Some? && i.max.value.Finite? ==> Agrees(decimal, i.max.value.value))
  }

  lemma HundredthsMonotone(x: real, y: real)
    requires x <= y
    ensures Hundredths(x) <= Hundredths(y) && TenThousandths(x) <= TenThousandths(y)
  {
    assert x * 100.0 + 0.5 <= y * 100.0 + 0.5 && x * 10000.0 + 0.5 <= y * 10000.0 + 0.5;
  }

  /** The database never sees a negative, oversized or inverted amount, whatever the rounding does. */
  lemma PreparedIsBounded(decimal: real -> real, i: Input)
    requires WritesDecimals(decimal) && Prepared(decimal, i).Success?
    ensures Bounded(Prepared(decimal, i).value)
    ensures Prepared(decimal, i).value.scope.min == None <==> i.min == None
    ensures Prepared(decimal, i).value.scope.max == None <==> i.max == None
  {
    CodeIdempotent(i.service);
    CodeIdempotent(i.role);
    if i.operator.Some? {
      CodeIdempotent(i.operator.value);
    }
    assert decimal(Decimals4(0)) == Decimals4(0) && decimal(Decimals4(1000000)) == Decimals4(1000000);
    ColumnNonNegative(decimal, i.value.value);
    if i.kind == Percentage {
      HundredthsMonotone(decimal(i.value.value), 100.0);
    }
    if i.min.Some? {
      ColumnNonNegative(decimal, i.min.value.value);
    }
    if i.max.Some? {
      ColumnNonNegative(decimal, i.max.value.value);
    }
    if i.min.Some? && i.max.Some? {
      HundredthsMonotone(decimal(i.min.value.value), decimal(i.max.value.value));
    }
  }

  lemma ColumnNonNegative(decimal: real -> real, x: real)
    requires WritesDecimals(decimal) && x >= 0.0
    ensures Hundredths(decimal(x)) >= 0 && TenThousandths(decimal(x)) >= 0
  {
    assert decimal(Decimals4(0)) == Decimals4(0);
    HundredthsMonotone(0.0, decimal(x));
  }

  /** A rule is stored under the key of its own scope exactly when both roundings agree on its amounts. */
  lemma OwnKeyIffAmountsAgree(decimal: real -> real, i: Input)
    requires WritesDecimals(decimal) && Prepared(decimal, i).Success?
    ensures OwnKey(Prepared(decimal, i).value) <==> AmountsAgree(decimal, i)
  {
    var rule := Prepared(decimal, i).value;
    PreparedIsBounded(decimal, i);
    if i.min.Some? {
      HundredthsMonotone(0.0, i.min.value.value);
    }
    if i.max.Some? {
      HundredthsMonotone(0.0, i.max.value.value);
    }
    AmountsDecideKey(rule.scope, KeyAmount(i.min), KeyAmount(i.max));
  }

  /** Amounts read back from a row always agree. */
  lemma ColumnAgrees(decimal: real -> real, n: int)
    requires WritesDecimals(decimal)
    ensures Agrees(decimal, n as real / 100.0) && Hundredths(n as real / 100.0) == n
  {
    assert n as real / 100.0 == Decimals4(n * 100);
    assert decimal(Decimals4(n * 100)) == Decimals4(n * 100);
    assert n as real / 100.0 * 100.0 == n as real;
  }

  class CommissionRuleService {
    var rules: Table
    const decimal: real -> real

    constructor (decimal: real -> real)
      ensures rules == map[] && this.decimal == decimal
    {
      rules, this.decimal := map[], decimal;
    }

    method FindByKey(key: Digest) returns (id: Option<string>)
      ensures id.Some? ==> id.value in rules && rules[id.value].key == key
      ensures id == None ==> forall i :: i in rules ==> rules[i].key != key
    {
      if i :| i in rules && rules[i].key == key {
        return Some(i);
      }
      return None;
    }

    method CreateRule(id: string, input: Input, priority: Field<int>, isActive: Field<bool>)
      returns (r: Result<Rule, Refusal>)
      requires id !in rules
      modifies this
      ensures r.Success? <==>
              Prepared(decimal, input).Success? && KeyFree(old(rules), id, Prepared(decimal, input).value.key)
      ensures r.Success? ==>
              r.value == Prepared(decimal, input).value.(priority := Or(priority, 0), isActive := Or(isActive, true))
      ensures r.Success? ==>
                && AsRequested(decimal, input, r.value)
                && r.value.priority == (if priority.Given? then priority.value else 0)
                && r.value.isActive == (isActive != Given(false))
      ensures rules == if r.Success? then old(rules)[id := r.value] else old(rules)
      ensures r.Failure? && Prepared(decimal, input).Failure? ==>
                r.error == Prepared(decimal, input).error && Justified(input, r.error)
      ensures r.Failure? && Prepared(decimal, input).Success? ==>
                r.error.Duplicate? && r.error.id in rules && rules[r.error.id].key == Prepared(decimal, input).value.key
    {
      var prepared := Prepared(decimal, input);
      PreparedIff(decimal, input);
      if prepared.Failure? {
        return Failure(prepared.error);
      }
      PreparedAsRequested(decimal, input);
      var existing := FindByKey(prepared.value.key);
      if existing.Some? {
        return Failure(Duplicate(existing.value));
      }
      var rule := prepared.value.(priority := Or(priority, 0), isActive := Or(isActive, true));
      rules := rules[id := rule];
      return Success(rule);
    }

    method UpdateRule(id: string, p: Patch) returns (r: Result<Rule, Refusal>)
      requires UniqueKeys(rules)
      modifies this
      ensures r.Success? <==>
                && Trim(id) != "" && id in old(rules) && Prepared(decimal, Merged(old(rules)[id], p)).Success?
                && KeyFree(old(rules), id, Prepared(decimal, Merged(old(rules)[id], p)).value.key)
      ensures r.Success? ==>
                r.value == Prepared(decimal, Merged(old(rules)[id], p)).value.(
                             priority := Or(p.priority, old(rules)[id].priority),
                             isActive := Or(p.isActive, old(rules)[id].isActive))
      ensures WritesDecimals(decimal) && r.Success? && Canonical(old(rules)[id].scope) ==>
                Patched(decimal, old(rules)[id], p, r.value)
      ensures rules == if r.Success? then old(rules)[id := r.value] else old(rules)
      ensures UniqueKeys(rules)
      ensures r.Failure? ==>
                if Trim(id) == "" then r.error == IdRequired
                else if id !in rules then r.error == NotFound
                else
                  var q := Prepared(decimal, Merged(rules[id], p));
                  if q.Failure? then r.error == q.error && Justified(Merged(rules[id], p), r.error)
                  else
                    && r.error.Duplicate? && r.error.id in rules && r.error.id != id
                    && rules[r.error.id].key == q.value.key
    {
      if Trim(id) == "" {
        return Failure(IdRequired);
      }
      if id !in rules {
        return Failure(NotFound);
      }
      var prepared := Prepared(decimal, Merged(rules[id], p));
      PreparedIff(decimal, Merged(rules[id], p));
      if prepared.Failure? {
        return Failure(prepared.error);
      }
      var conflicting := FindByKey(prepared.value.key);
      if conflicting.Some? && conflicting.value != id {
        return Failure(Duplicate(conflicting.value));
      }
      var rule := prepared.value.(priority := Or(p.priority, rules[id].priority),
                                  isActive := Or(p.isActive, rules[id].isActive));
      if WritesDecimals(decimal) && Canonical(rules[id].scope) {
        MergedIsPatched(decimal, rules[id], p, rule);
      }
      rules := rules[id := rule];
      return Success(rule);
    }

    /** Soft delete, idempotent. */
    method DeleteRule(id: string) returns (r: Result<Rule, Refusal>)
      modifies this
      ensures r.Success? <==> Trim(id) != "" && id in old(rules)
      ensures rules == if r.Success? then old(rules)[id := old(rules)[id].(isActive := false)] else old(rules)
      ensures r.Success? ==> r.value == rules[id]
    {
      if Trim(id) == "" {
        return Failure(IdRequired);
      }
      if id !in rules {
        return Failure(NotFound);
      }
      if !rules[id].isActive {
        assert rules == rules[id := rules[id].(isActive := false)];
        return Success(rules[id]);
      }
      rules := rules[id := rules[id].(isActive := false)];
      return Success(rules[id]);
    }
  }
}
