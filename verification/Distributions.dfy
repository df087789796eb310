/** CommissionDistributionService: one row per rule and recipient role, reactivated rather than recreated. */
module Distributions {
  import opened Prelude
  import opened Text
  import opened RuleScopes
  import opened CommissionRules

  /** A stored row; the value is in ten-thousandths. */
  datatype Row = Row(key: Digest, ruleId: string, role: string, kind: Kind, value: int, priority: int, isActive: bool)

  type Rows = map<string, Row>

  datatype Refused =
    | RuleIdRequired | RoleRequired | ValueInvalid | PercentTooHigh | RoleInactive | RuleMissing | RuleInactive
    | IdRequired | RowMissing | Duplicate(id: string)

  datatype Request = Request(
    ruleId: string, role: string, kind: Kind, value: Number, priority: Field<int>, isActive: Field<bool>)

  datatype Change = Change(
    role: Field<string>, kind: Field<Kind>, value: Field<Number>, priority: Field<int>, isActive: Field<bool>)

  function DistributionKey(ruleId: string, role: string): Digest {
    Sha256(Join([Trim(ruleId), Code(role)]))
  }

  function ValidateDistribution(kind: Kind, value: Number): (r: Option<Refused>)
    ensures r == None <==> Amount(value) && (kind == Percentage ==> value.value <= 100.0)
  {
    if !value.Finite? || value.value < 0.0 then Some(Refused.ValueInvalid)
    else if kind == Percentage && value.value > 100.0 then Some(Refused.PercentTooHigh)
    else None
  }

  /** Rule ids are UUIDs; all that matters here is that they hold neither bars nor outer white space. */
  predicate PlainId(ruleId: string) {
    '|' !in ruleId && Trim(ruleId) == ruleId
  }

  /** The key decides the rule and the role, even if role names contain bars. */
  lemma DistributionKeyInjective(ruleId: string, role: string, otherId: string, other: string)
    requires PlainId(ruleId) && PlainId(otherId)
    ensures DistributionKey(ruleId, role) == DistributionKey(otherId, other) <==>
            ruleId == otherId && Code(role) == Code(other)
  {
    var x, y := [ruleId, Code(role)], [otherId, Code(other)];
    assert x[1..] == [Code(role)] && y[1..] == [Code(other)];
    assert Join(x) == ruleId + "|" + Code(role) && Join(y) == otherId + "|" + Code(other);
    assert ['|'] == "|";
    if DistributionKey(ruleId, role) == DistributionKey(otherId, other) {
      SplitAt('|', ruleId, otherId, Code(role), Code(other));
    }
  }

  ghost predicate RowBounded(r: Row) {
    && Code(r.role) == r.role != "" && PlainId(r.ruleId)
    && 0 <= r.value && (r.kind == Percentage ==> r.value <= 100 * 10000)
  }

  ghost predicate KeyedRow(r: Row) {
    r.key == DistributionKey(r.ruleId, r.role)
  }

  ghost predicate Unique(t: Rows) {
    forall i, j | i in t && j in t && t[i].key == t[j].key :: i == j
  }

  /** The table as the documentation describes it. */
  ghost predicate Sound(t: Rows) {
    Unique(t) && forall i :: i in t ==> RowBounded(t[i]) && KeyedRow(t[i])
  }

  /** Two rows of a sound table never share their rule and role. */
  lemma OneRowPerRole(t: Rows, i: string, j: string)
    requires Sound(t) && i in t && j in t && t[i].ruleId == t[j].ruleId && t[i].role == t[j].role
    ensures i == j
  {
    assert KeyedRow(t[i]) && KeyedRow(t[j]);
  }

  predicate Vacant(t: Rows, id: string, key: Digest) {
    forall other :: other in t && other != id ==> t[other].key != key
  }

  lemma StoringKeepsSound(t: Rows, id: string, row: Row)
    requires Sound(t) && RowBounded(row) && KeyedRow(row) && Vacant(t, id, row.key)
    ensures Sound(t[id := row])
  {
  }

  /** A row may be rewritten in place as long as its rule and role stay. */
  lemma RewritingKeepsSound(t: Rows, id: string, row: Row)
    requires Sound(t) && id in t && RowBounded(row) && row.key == t[id].key
    requires row.ruleId == t[id].ruleId && row.role == t[id].role
    ensures Sound(t[id := row])
  {
    assert KeyedRow(t[id]);
  }

  function Stored(decimal: real -> real, value: Number): int {
    ColumnValue(decimal, value)
  }

  lemma StoredIsBounded(decimal: real -> real, kind: Kind, value: Number)
    requires WritesDecimals(decimal) && ValidateDistribution(kind, value) == None
    ensures 0 <= Stored(decimal, value) && (kind == Percentage ==> Stored(decimal, value) <= 100 * 10000)
  {
    assert decimal(Decimals4(1000000)) == Decimals4(1000000);
    ColumnNonNegative(decimal, value.value);
    if kind == Percentage {
      HundredthsMonotone(decimal(value.value), 100.0);
    }
  }

  function RoleAfter(row: Row, c: Change): string {
    if c.role.Given? then Code(c.role.value) else row.role
  }

  function ValueAfter(row: Row, c: Change): Number {
    if c.value.Given? then c.value.value else Finite(Decimals4(row.value))
  }

  /** The checks of an update, on the row it has read. */
  function ChangeCheck(row: Row, c: Change, roleActive: bool): Option<Refused> {
    if RoleAfter(row, c) == "" then Some(Refused.RoleRequired)
    else if Or(c.isActive, row.isActive) && !roleActive then Some(RoleInactive)
    else ValidateDistribution(Or(c.kind, row.kind), ValueAfter(row, c))
  }

  function Changed(decimal: real -> real, row: Row, c: Change): Row {
    Row(DistributionKey(row.ruleId, RoleAfter(row, c)), row.ruleId, RoleAfter(row, c), Or(c.kind, row.kind),
        Stored(decimal, ValueAfter(row, c)), Or(c.priority, row.priority), Or(c.isActive, row.isActive))
  }

  lemma ChangedIsSound(decimal: real -> real, row: Row, c: Change, roleActive: bool)
    requires WritesDecimals(decimal) && RowBounded(row) && ChangeCheck(row, c, roleActive) == None
    ensures RowBounded(Changed(decimal, row, c)) && KeyedRow(Changed(decimal, row, c))
  {
    StoredIsBounded(decimal, Or(c.kind, row.kind), ValueAfter(row, c));
    if c.role.Given? {
      CodeIdempotent(c.role.value);
    }
  }

  /** `q` is `was` with the fields that the request gives, in canonical form; the others are as they were. */
  ghost predicate Rewritten(decimal: real -> real, was: Row, c: Change, q: Row) {
    && q.ruleId == was.ruleId && KeyedRow(q)
    && q.role == (if c.role.Given? then Code(c.role.value) else was.role)
    && q.kind == (if c.kind.Given? then c.kind.value else was.kind)
    && (if c.value.Given? then ValueStored(decimal, c.value.value, q.value) else q.value == was.value)
    && q.priority == (if c.priority.Given? then c.priority.value else was.priority)
    && q.isActive == (if c.isActive.Given? then c.isActive.value else was.isActive)
  }

  lemma ChangedIsRewritten(decimal: real -> real, row: Row, c: Change, roleActive: bool)
    requires WritesDecimals(decimal) && RowBounded(row) && ChangeCheck(row, c, roleActive) == None
    ensures Rewritten(decimal, row, c, Changed(decimal, row, c))
  {
    ChangedIsSound(decimal, row, c, roleActive);
    ValueRoundTrip(decimal, row.value);
  }

  /**
   * An update passes its checks exactly if the role it leads to is named, and active unless the
   * row will not be, and the value it leads to is in range; a stored value always is for its kind.
   */
  lemma ChangeCheckIff(row: Row, c: Change, roleActive: bool)
    requires RowBounded(row)
    ensures ChangeCheck(row, c, roleActive) == None <==>
            && (c.role.Given? ==> Trim(c.role.value) != "")
            && (roleActive || !(if c.isActive.Given? then c.isActive.value else row.isActive))
            && (c.value.Given? ==> Amount(c.value.value))
            && ((if c.kind.Given? then c.kind.value else row.kind) == Percentage ==>
                  if c.value.Given? then c.value.value.value <= 100.0 else row.value <= 100 * 10000)
  {
    assert row.value as real / 10000.0 <= 100.0 <==> row.value <= 100 * 10000;
    if Code(row.role) == row.role {
      TrimIdempotent(row.role);
    }
  }

  /** Each refusal states a fact about the request and what the other services answered. */
  ghost predicate Explains(kind: Kind, value: Number, role: string, roleActive: bool, e: Refused) {
    match e
    case RoleRequired => Trim(role) == ""
    case ValueInvalid => !Amount(value)
    case PercentTooHigh => kind == Percentage && value.Finite? && value.value > 100.0
    case RoleInactive => !roleActive
    case _ => false
  }

  lemma ChangeCheckSays(row: Row, c: Change, roleActive: bool)
    requires ChangeCheck(row, c, roleActive).Some?
    ensures Explains(if c.kind.Given? then c.kind.value else row.kind,
                      if c.value.Given? then c.value.value else Finite(Decimals4(row.value)),
                      if c.role.Given? then c.role.value else row.role, roleActive,
                      ChangeCheck(row, c, roleActive).value)
  {
  }

  /** The request is valid, its role is active, and its rule exists and is active. */
  predicate CreateAllowed(q: Request, roleActive: bool, rule: Option<bool>) {
    && Trim(q.ruleId) != "" && Code(q.role) != "" && ValidateDistribution(q.kind, q.value) == None
    && roleActive && rule == Some(true)
  }

  class CommissionDistributionService {
    var rows: Rows
    const decimal: real -> real

    constructor (decimal: real -> real)
      ensures rows == map[] && this.decimal == decimal && Sound(rows)
    {
      rows, this.decimal := map[], decimal;
    }

    method FindByKey(key: Digest) returns (id: Option<string>)
      ensures id.Some? ==> id.value in rows && rows[id.value].key == key
      ensures id == None ==> forall i :: i in rows ==> rows[i].key != key
    {
      if i :| i in rows && rows[i].key == key {
        return Some(i);
      }
      return None;
    }

    /**
     * `roleActive` is the role service's answer, `rule` the rule table's (None: no such rule).
     * A row is added only when the rule has none for this role; an inactive one is taken up again.
     */
    method CreateDistribution(id: string, q: Request, roleActive: bool, rule: Option<bool>)
      returns (r: Result<string, Refused>)
      requires WritesDecimals(decimal) && Sound(rows) && id !in rows
      requires rule.Some? ==> PlainId(q.ruleId)
      modifies this`rows
      ensures Sound(rows)
      ensures r.Failure? ==> rows == old(rows)
      ensures r.Failure? && r.error.Duplicate? ==>
                && r.error.id in rows && rows[r.error.id].isActive
                && rows[r.error.id].ruleId == q.ruleId && rows[r.error.id].role == Code(q.role)
      ensures r.Failure? && !r.error.Duplicate? <==> !CreateAllowed(q, roleActive, rule)
      ensures r.Failure? && !r.error.Duplicate? <==>
              || Trim(q.ruleId) == "" || Trim(q.role) == "" || !Amount(q.value)
              || (q.kind == Percentage && q.value.value > 100.0) || !roleActive || rule != Some(true)
      ensures r.Failure? && !r.error.Duplicate? ==>
                || Explains(q.kind, q.value, q.role, roleActive, r.error)
                || (r.error == Refused.RuleIdRequired && Trim(q.ruleId) == "")
                || (r.error == RuleMissing && rule == None) || (r.error == RuleInactive && rule == Some(false))
      ensures r.Success? ==>
                && r.value in rows && rows == old(rows)[r.value := rows[r.value]]
                && rows[r.value].ruleId == q.ruleId && rows[r.value].role == Code(q.role) &&
                   rows[r.value].kind == q.kind
                && ValueStored(decimal, q.value, rows[r.value].value)
                && rows[r.value].isActive == (q.isActive != Given(false))
      ensures r.Success? && r.value in old(rows) ==>
                && !old(rows)[r.value].isActive
                && rows[r.value].priority ==
                   (if q.priority.Given? then q.priority.value else old(rows)[r.value].priority)
      ensures r.Success? && r.value !in old(rows) ==>
                && r.value == id && rows[id].priority == (if q.priority.Given? then q.priority.value else 0)
                && (forall i :: i in old(rows) ==> old(rows)[i].ruleId != q.ruleId || old(rows)[i].role != Code(q.role))
    {
      var role := Code(q.role);
      if Trim(q.ruleId) == "" {
        return Failure(Refused.RuleIdRequired);
      }
      if role == "" {
        return Failure(Refused.RoleRequired);
      }
      var invalid := ValidateDistribution(q.kind, q.value);
      if invalid.Some? {
        return Failure(invalid.value);
      }
      if !roleActive {
        return Failure(RoleInactive);
      }
      if rule == None {
        return Failure(RuleMissing);
      }
      if !rule.value {
        return Failure(RuleInactive);
      }
      StoredIsBounded(decimal, q.kind, q.value);
      CodeIdempotent(q.role);
      var key := DistributionKey(q.ruleId, role);
      var existing := FindByKey(key);
      if existing.Some? {
        var was := rows[existing.value];
        DistributionKeyInjective(was.ruleId, was.role, q.ruleId, role);
        if was.isActive {
          return Failure(Refused.Duplicate(existing.value));
        }
        var again := was.(role := role, kind := q.kind, value := Stored(decimal, q.value),
                          priority := Or(q.priority, was.priority), isActive := Or(q.isActive, true));
        RewritingKeepsSound(rows, existing.value, again);
        rows := rows[existing.value := again];
        return Success(existing.value);
      }
      var row := Row(key, q.ruleId, role, q.kind, Stored(decimal, q.value), Or(q.priority, 0), Or(q.isActive, true));
      StoringKeepsSound(rows, id, row);
      rows := rows[id := row];
      return Success(id);
    }

    /** `roleActive` is the role service's answer for the row's future role. */
    method UpdateDistribution(id: string, c: Change, roleActive: bool) returns (r: Result<Row, Refused>)
      requires WritesDecimals(decimal) && Sound(rows)
      modifies this`rows
      ensures Sound(rows)
      ensures rows == if r.Success? then old(rows)[id := r.value] else old(rows)
      ensures r.Success? ==>
                && id in old(rows) && r.value == Changed(decimal, old(rows)[id], c)
                && Rewritten(decimal, old(rows)[id], c, r.value)
      ensures r.Success? <==>
                && Trim(id) != "" && id in old(rows) && ChangeCheck(old(rows)[id], c, roleActive) == None
                && Vacant(old(rows), id, Changed(decimal, old(rows)[id], c).key)
      ensures r.Failure? && r.error.Duplicate? ==>
                && id in rows && r.error.id in rows && r.error.id != id
                && rows[r.error.id].ruleId == rows[id].ruleId
                && rows[r.error.id].role == (if c.role.Given? then Code(c.role.value) else rows[id].role)
      ensures r.Failure? && Trim(id) != "" && id in rows && !r.error.Duplicate? ==>
                ChangeCheck(rows[id], c, roleActive) == Some(r.error)
      ensures r == Failure(Refused.IdRequired) <==> Trim(id) == ""
      ensures r == Failure(RowMissing) <==> Trim(id) != "" && id !in old(rows)
    {
      if Trim(id) == "" {
        return Failure(Refused.IdRequired);
      }
      if id !in rows {
        return Failure(RowMissing);
      }
      var refused := ChangeCheck(rows[id], c, roleActive);
      if refused.Some? {
        return Failure(refused.value);
      }
      ChangedIsSound(decimal, rows[id], c, roleActive);
      ChangedIsRewritten(decimal, rows[id], c, roleActive);
      var changed := Changed(decimal, rows[id], c);
      var conflicting := FindByKey(changed.key);
      if conflicting.Some? && conflicting.value != id {
        var other := rows[conflicting.value];
        DistributionKeyInjective(other.ruleId, other.role, changed.ruleId, changed.role);
        return Failure(Refused.Duplicate(conflicting.value));
      }
      StoringKeepsSound(rows, id, changed);
      rows := rows[id := changed];
      return Success(changed);
    }

    /** Soft delete, idempotent. */
    method DeleteDistribution(id: string) returns (r: Result<Row, Refused>)
      requires Sound(rows)
      modifies this`rows
      ensures Sound(rows)
      ensures r.Success? <==> Trim(id) != "" && id in old(rows)
      ensures rows == if r.Success? then old(rows)[id := old(rows)[id].(isActive := false)] else old(rows)
      ensures r.Success? ==> r.value == rows[id]
    {
      if Trim(id) == "" {
        return Failure(Refused.IdRequired);
      }
      if id !in rows {
        return Failure(RowMissing);
      }
      if !rows[id].isActive {
        assert rows == rows[id := rows[id].(isActive := false)];
        return Success(rows[id]);
      }
      RewritingKeepsSound(rows, id, rows[id].(isActive := false));
      rows := rows[id := rows[id].(isActive := false)];
      return Success(rows[id]);
    }
  }
}
