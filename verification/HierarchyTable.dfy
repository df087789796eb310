/**
 * The commission_hierarchies table: its rows, its two unique key columns, and the graphs
 * its active rows stand for.
 */
module HierarchyTable {
  import opened Prelude
  import opened Text
  import Graph

  /** A service type, or None for the global hierarchy. */
  type Scope = Option<string>

  datatype Row = Row(
    parent: string, parentRole: string,
    child: string, childRole: string,
    scope: Scope,
    relationshipKey: Digest, activeScopeKey: Option<Digest>,
    isActive: bool)

  type Table = map<string, Row>

  function ScopeText(scope: Scope): string {
    if scope.Some? then scope.value else "*"
  }

  function RelationshipKey(parent: string, child: string, scope: Scope): Digest {
    Sha256(Join([Trim(parent), Trim(child), ScopeText(scope)]))
  }

  function ActiveScopeKey(child: string, scope: Scope): Digest {
    Sha256(Join([Trim(child), ScopeText(scope)]))
  }

  /** For ids and scopes without a bar, and no scope called "*", equal keys mean equal fields. */
  lemma ActiveScopeKeyInjective(c: string, s: Scope, d: string, r: Scope)
    requires BarFree([Trim(c), ScopeText(s)]) && BarFree([Trim(d), ScopeText(r)])
    requires s != Some("*") && r != Some("*")
    ensures ActiveScopeKey(c, s) == ActiveScopeKey(d, r) <==> Trim(c) == Trim(d) && s == r
  {
    if ActiveScopeKey(c, s) == ActiveScopeKey(d, r) {
      JoinInjective([Trim(c), ScopeText(s)], [Trim(d), ScopeText(r)]);
      assert [Trim(c), ScopeText(s)][0] == Trim(c) && [Trim(c), ScopeText(s)][1] == ScopeText(s);
    }
  }

  lemma RelationshipKeyInjective(p: string, c: string, s: Scope, q: string, d: string, r: Scope)
    requires BarFree([Trim(p), Trim(c), ScopeText(s)]) && BarFree([Trim(q), Trim(d), ScopeText(r)])
    requires s != Some("*") && r != Some("*")
    ensures RelationshipKey(p, c, s) == RelationshipKey(q, d, r) <==>
            Trim(p) == Trim(q) && Trim(c) == Trim(d) && s == r
  {
    if RelationshipKey(p, c, s) == RelationshipKey(q, d, r) {
      var x, y := [Trim(p), Trim(c), ScopeText(s)], [Trim(q), Trim(d), ScopeText(r)];
      JoinInjective(x, y);
      assert x[0] == y[0] && x[1] == y[1] && x[2] == y[2];
    }
  }

  /** Without those conditions the key of a service scope can be the key of the global scope. */
  lemma StarScopeCollides(child: string)
    ensures ActiveScopeKey(child, Some("*")) == ActiveScopeKey(child, None)
  {
  }

  /** The active flag, the scope and the two keys of a row agree. */
  ghost predicate Consistent(r: Row) {
    && r.relationshipKey == RelationshipKey(r.parent, r.child, r.scope)
    && r.activeScopeKey == (if r.isActive then Some(ActiveScopeKey(r.child, r.scope)) else None)
    && r.scope != Some("")
    && Trimmed(r.parent) && Trimmed(r.child)
  }

  /** Consistent rows under the two unique indexes of the database. */
  ghost predicate Indexed(t: Table) {
    && (forall i :: i in t ==> Consistent(t[i]))
    && (forall i, j | i in t && j in t && t[i].relationshipKey == t[j].relationshipKey :: i == j)
    && (forall i, j | i in t && j in t && t[i].activeScopeKey == t[j].activeScopeKey != None :: i == j)
  }

  /** No other row has the keys of `r`. */
  ghost predicate KeysFree(t: Table, id: string, r: Row) {
    && (forall j | j in t && t[j].relationshipKey == r.relationshipKey :: j == id)
    && (r.isActive ==> forall j | j in t && t[j].activeScopeKey == r.activeScopeKey :: j == id)
  }

  /** The two rows have no key in common. */
  predicate Apart(q: Row, r: Row) {
    q.relationshipKey != r.relationshipKey && q.activeScopeKey != r.activeScopeKey
  }

  lemma StoringKeepsIndexed(t: Table, id: string, r: Row)
    requires Indexed(t) && Consistent(r) && KeysFree(t, id, r)
    ensures Indexed(t[id := r])
  {
  }

  /** Row `id` is the active row of `child` in exactly this scope. */
  predicate Own(t: Table, id: string, child: string, scope: Scope) {
    id in t && t[id].isActive && t[id].child == child && t[id].scope == scope
  }

  predicate HasOwn(t: Table, child: string, scope: Scope) {
    exists id :: id in t && Own(t, id, child, scope)
  }

  /** Row `id` gives its child's parent in `scope`: its own row there, else the global one. */
  predicate Effective(t: Table, scope: Scope, id: string) {
    && id in t && t[id].isActive
    && (t[id].scope == scope || (t[id].scope == None && !HasOwn(t, t[id].child, scope)))
  }

  ghost function OwnEdges(t: Table, scope: Scope): Graph.Edges {
    set id | id in t && t[id].isActive && t[id].scope == scope :: (t[id].child, t[id].parent)
  }

  ghost function EffectiveEdges(t: Table, scope: Scope): Graph.Edges {
    set id | id in t && Effective(t, scope, id) :: (t[id].child, t[id].parent)
  }

  /** A new active row is the only own row of its child in its scope. */
  lemma StoredIsOnlyOwn(t: Table, id: string, r: Row, j: string)
    requires Indexed(t) && Consistent(r) && KeysFree(t, id, r) && r.isActive
    requires Own(t[id := r], j, r.child, r.scope)
    ensures j == id
  {
    assert j in t ==> Consistent(t[j]);
  }

  /** At most one active parent per child and scope. */
  lemma OneActiveParent(t: Table, i: string, j: string, child: string, scope: Scope)
    requires Indexed(t) && Own(t, i, child, scope) && Own(t, j, child, scope)
    ensures i == j
  {
    assert Consistent(t[i]) && Consistent(t[j]);
  }

  lemma OneEffectiveParent(t: Table, scope: Scope, i: string, j: string)
    requires Indexed(t) && Effective(t, scope, i) && Effective(t, scope, j)
    requires t[i].child == t[j].child
    ensures i == j
  {
    var child := t[i].child;
    assert t[i].scope == scope ==> Own(t, i, child, scope);
    assert t[j].scope == scope ==> Own(t, j, child, scope);
    assert t[i].scope == t[j].scope;
    OneActiveParent(t, i, j, child, t[i].scope);
  }

  lemma EffectiveIsFunctional(t: Table, scope: Scope)
    requires Indexed(t)
    ensures Graph.Functional(EffectiveEdges(t, scope))
  {
    var g := EffectiveEdges(t, scope);
    forall u, v, w | Graph.Hop(g, u, v) && Graph.Hop(g, u, w) ensures v == w {
      var i :| i in t && Effective(t, scope, i) && (t[i].child, t[i].parent) == (u, v);
      var j :| j in t && Effective(t, scope, j) && (t[j].child, t[j].parent) == (u, w);
      OneEffectiveParent(t, scope, i, j);
    }
  }

  /** A scope's own edges are all effective in it; in the global scope there are no others. */
  lemma OwnWithinEffective(t: Table, scope: Scope)
    ensures OwnEdges(t, scope) <= EffectiveEdges(t, scope)
    ensures OwnEdges(t, None) == EffectiveEdges(t, None)
  {
    forall e | e in OwnEdges(t, scope) ensures e in EffectiveEdges(t, scope) {
      var id :| id in t && t[id].isActive && t[id].scope == scope && e == (t[id].child, t[id].parent);
      assert Effective(t, scope, id);
    }
    forall e | e in OwnEdges(t, None) ensures e in EffectiveEdges(t, None) {
      var id :| id in t && t[id].isActive && t[id].scope == None && e == (t[id].child, t[id].parent);
      assert Effective(t, None, id);
    }
    forall e | e in EffectiveEdges(t, None) ensures e in OwnEdges(t, None) {
      var id :| id in t && Effective(t, None, id) && e == (t[id].child, t[id].parent);
    }
  }

  /** The row that `findFirst` on (child, scope, active) returns is the one the unique key finds. */
  lemma FindFirstAgreesWithKey(t: Table, id: string, child: string, scope: Scope)
    requires Indexed(t) && id in t
    requires scope != Some("*") && BarFree([Trim(child), ScopeText(scope)])
    requires t[id].scope != Some("*") && BarFree([Trim(t[id].child), ScopeText(t[id].scope)])
    requires Trimmed(child)
    ensures Own(t, id, child, scope) <==> t[id].activeScopeKey == Some(ActiveScopeKey(child, scope))
  {
    assert Consistent(t[id]);
    TrimIdempotent(child);
    TrimIdempotent(t[id].child);
    ActiveScopeKeyInjective(child, scope, t[id].child, t[id].scope);
  }
}
