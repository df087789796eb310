/** AuthorizationService: the permissions a role has through its packages. */
module Authorization {
  import opened Prelude

  datatype Permission = Permission(id: string, code: string, name: string, description: Option<string>, isActive: bool)

  datatype Package = Package(id: string, code: string, name: string, isActive: bool, permissions: seq<Permission>)

  datatype Role = Role(id: string, name: string, isActive: bool, packages: seq<Package>)

  /** What a caller gets to see of a permission and of a package. */
  datatype Grant = Grant(id: string, code: string, name: string, description: Option<string>)

  datatype Bundle = Bundle(id: string, code: string, name: string)

  datatype Answer = Answer(
    roleId: string, roleName: string, isActive: bool,
    packages: seq<Bundle>, permissions: seq<Grant>, codes: seq<string>)

  datatype Problem = RoleNotFound

  function ToGrant(p: Permission): Grant {
    Grant(p.id, p.code, p.name, p.description)
  }

  function ToBundle(k: Package): Bundle {
    Bundle(k.id, k.code, k.name)
  }

  function GrantCode(g: Grant): string {
    g.code
  }

  function PackageCode(k: Package): string {
    k.code
  }

  // ---------------------------------------------------------------- ordering by code

  type Leq = (string, string) -> bool

  ghost predicate TotalOrder(leq: Leq) {
    && (forall a, b :: leq(a, b) || leq(b, a))
    && (forall a, b :: leq(a, b) && leq(b, a) ==> a == b)
    && (forall a, b, c :: leq(a, b) && leq(b, c) ==> leq(a, c))
  }

  function Insert<T>(leq: Leq, code: T -> string, x: T, s: seq<T>): seq<T> {
    if s == [] || leq(code(x), code(s[0])) then [x] + s else [s[0]] + Insert(leq, code, x, s[1..])
  }

  /** The array sorted by code. */
  function Sort<T>(leq: Leq, code: T -> string, s: seq<T>): seq<T> {
    if s == [] then [] else Insert(leq, code, s[0], Sort(leq, code, s[1..]))
  }

  ghost predicate Ordered<T>(leq: Leq, code: T -> string, s: seq<T>) {
    forall i, j :: 0 <= i < j < |s| ==> leq(code(s[i]), code(s[j]))
  }

  /** Increasing, with no two equal codes. */
  ghost predicate Increasing<T>(leq: Leq, code: T -> string, s: seq<T>) {
    forall i, j :: 0 <= i < j < |s| ==> leq(code(s[i]), code(s[j])) && code(s[i]) != code(s[j])
  }

  lemma {:induction false} InsertAdds<T>(leq: Leq, code: T -> string, x: T, s: seq<T>)
    ensures multiset(Insert(leq, code, x, s)) == multiset(s) + multiset{x}
  {
    if s != [] && !leq(code(x), code(s[0])) {
      InsertAdds(leq, code, x, s[1..]);
      assert s == [s[0]] + s[1..];
    }
  }

  lemma {:induction false} InsertKeeps<T>(leq: Leq, code: T -> string, x: T, s: seq<T>)
    requires TotalOrder(leq) && Ordered(leq, code, s)
    ensures Ordered(leq, code, Insert(leq, code, x, s))
  {
    if s == [] || leq(code(x), code(s[0])) {
      forall j | 0 <= j < |s| ensures leq(code(x), code(s[j])) {
        assert leq(code(s[0]), code(s[j])) || j == 0;
      }
    } else {
      var rest := Insert(leq, code, x, s[1..]);
      InsertKeeps(leq, code, x, s[1..]);
      InsertAdds(leq, code, x, s[1..]);
      forall j | 0 <= j < |rest| ensures leq(code(s[0]), code(rest[j])) {
        assert rest[j] in multiset(rest);
        assert rest[j] == x || rest[j] in s[1..];
      }
    }
  }

  lemma {:induction false} SortSorts<T>(leq: Leq, code: T -> string, s: seq<T>)
    requires TotalOrder(leq)
    ensures Ordered(leq, code, Sort(leq, code, s)) && multiset(Sort(leq, code, s)) == multiset(s)
  {
    if s != [] {
      SortSorts(leq, code, s[1..]);
      InsertKeeps(leq, code, s[0], Sort(leq, code, s[1..]));
      InsertAdds(leq, code, s[0], Sort(leq, code, s[1..]));
      assert s == [s[0]] + s[1..];
    }
  }

  lemma NonEmptyHas<T>(s: seq<T>)
    ensures s != [] ==> exists x :: x in s
  {
    if s != [] {
      assert s[0] in s;
    }
  }

  /** An increasing sequence is determined by its elements. */
  lemma {:induction false} IncreasingIsUnique<T>(leq: Leq, code: T -> string, s: seq<T>, t: seq<T>)
    requires TotalOrder(leq) && Increasing(leq, code, s) && Increasing(leq, code, t)
    requires forall x :: x in s <==> x in t
    ensures s == t
  {
    NonEmptyHas(s);
    NonEmptyHas(t);
    if s != [] && t != [] {
      assert s[0] in t && t[0] in s;
      assert s[0] == t[0];
      forall x ensures x in s[1..] <==> x in t[1..] {
        assert x in s[1..] <==> x in s && x != s[0];
        assert x in t[1..] <==> x in t && x != t[0];
      }
      IncreasingIsUnique(leq, code, s[1..], t[1..]);
    }
  }

  // ---------------------------------------------------------------- what a role grants

  function ActiveOnly(s: seq<Package>): (r: seq<Package>)
    ensures forall k :: k in r <==> k in s && k.isActive
  {
    if s == [] then [] else (if s[0].isActive then [s[0]] else []) + ActiveOnly(s[1..])
  }

  function ActiveIn(s: seq<Permission>): set<Permission> {
    set p | p in s && p.isActive
  }

  /** The active permissions of the given packages. */
  function Within(ks: seq<Package>): set<Permission> {
    set k, p | k in ks && p in k.permissions && p.isActive :: p
  }

  /** The active permissions reachable through the role's active packages. */
  function Reachable(role: Role): set<Permission> {
    set k, p | k in role.packages && k.isActive && p in k.permissions && p.isActive :: p
  }

  /** The unique column: one permission per code. */
  ghost predicate UniqueCodes(ps: set<Permission>) {
    forall p, q | p in ps && q in ps && p.code == q.code :: p == q
  }

  function Bundles(ks: seq<Package>): seq<Bundle> {
    seq(|ks|, i requires 0 <= i < |ks| => ToBundle(ks[i]))
  }

  function Codes(gs: seq<Grant>): seq<string> {
    seq(|gs|, i requires 0 <= i < |gs| => gs[i].code)
  }

  /** The role's active packages, each as often as it is assigned, in the order of their codes. */
  ghost predicate ListsPackages(leq: Leq, role: Role, ks: seq<Package>) {
    && multiset(ks) == multiset(ActiveOnly(role.packages))
    && (forall i, j :: 0 <= i < j < |ks| ==> leq(ks[i].code, ks[j].code))
  }

  /** What is shown of each package, in the same order. */
  ghost predicate ShowsPackages(ks: seq<Package>, bs: seq<Bundle>) {
    && |bs| == |ks|
    && (forall i :: 0 <= i < |bs| ==> bs[i].id == ks[i].id && bs[i].code == ks[i].code && bs[i].name == ks[i].name)
  }

  ghost predicate HasCode(gs: seq<Grant>, code: string) {
    exists g :: g in gs && g.code == code
  }

  /** The grant shows this permission. */
  predicate ShowsOne(p: Permission, g: Grant) {
    g.id == p.id && g.code == p.code && g.name == p.name && g.description == p.description
  }

  /** The grant shows one of these permissions. */
  ghost predicate Shows(ps: set<Permission>, g: Grant) {
    exists p :: p in ps && ShowsOne(p, g)
  }

  /** Exactly the codes of the given permissions, increasing, each with one permission of that code. */
  ghost predicate ListsGrants(leq: Leq, ps: set<Permission>, gs: seq<Grant>) {
    && (forall i, j :: 0 <= i < j < |gs| ==> leq(gs[i].code, gs[j].code) && gs[i].code != gs[j].code)
    && (forall p :: p in ps ==> HasCode(gs, p.code))
    && (forall g :: g in gs ==> Shows(ps, g))
  }

  /** The answer for an active role. */
  ghost predicate Resolves(leq: Leq, role: Role, a: Answer) {
    && a.roleId == role.id && a.roleName == role.name && a.isActive
    && (exists ks :: ListsPackages(leq, role, ks) && ShowsPackages(ks, a.packages))
    && ListsGrants(leq, Reachable(role), a.permissions)
    && |a.codes| == |a.permissions| && (forall i :: 0 <= i < |a.codes| ==> a.codes[i] == a.permissions[i].code)
  }

  lemma WithinStep(ks: seq<Package>, i: nat)
    requires i < |ks|
    ensures Within(ks[..i + 1]) == Within(ks[..i]) + ActiveIn(ks[i].permissions)
  {
    assert ks[..i + 1] == ks[..i] + [ks[i]];
  }

  lemma ActiveInStep(s: seq<Permission>, j: nat)
    requires j < |s|
    ensures ActiveIn(s[..j + 1]) == ActiveIn(s[..j]) + if s[j].isActive then {s[j]} else {}
  {
    assert s[..j + 1] == s[..j] + [s[j]];
  }

  /** The table holds one grant per code of `seen`, listed once each in `order`. */
  ghost predicate Collected(seen: set<Permission>, table: map<string, Grant>, order: seq<string>) {
    && (forall c :: c in order <==> c in table)
    && (forall i, j :: 0 <= i < j < |order| ==> order[i] != order[j])
    && (forall p :: p in seen ==> p.code in table)
    && (forall c :: c in table ==> table[c].code == c && Shows(seen, table[c]))
  }

  lemma CollectOne(seen: set<Permission>, table: map<string, Grant>, order: seq<string>, p: Permission)
    requires Collected(seen, table, order)
    ensures Collected(seen + {p}, table[p.code := ToGrant(p)], if p.code in table then order else order + [p.code])
  {
    var now, t := seen + {p}, table[p.code := ToGrant(p)];
    forall c | c in t ensures t[c].code == c && Shows(now, t[c]) {
      if c == p.code {
        assert p in now && ShowsOne(p, t[c]);
      } else {
        var q :| q in seen && ShowsOne(q, table[c]);
        assert q in now;
      }
    }
  }

  /** The two loops over packages and their permissions. */
  method Collect(ks: seq<Package>) returns (table: map<string, Grant>, order: seq<string>)
    ensures Collected(Within(ks), table, order)
  {
    table, order := map[], [];
    ghost var seen: set<Permission> := {};
    for i := 0 to |ks|
      invariant seen == Within(ks[..i]) && Collected(seen, table, order)
    {
      ghost var before := seen;
      var permissions := ks[i].permissions;
      for j := 0 to |permissions|
        invariant seen == before + ActiveIn(permissions[..j]) && Collected(seen, table, order)
      {
        var p := permissions[j];
        ActiveInStep(permissions, j);
        if !p.isActive {
          continue;
        }
        CollectOne(seen, table, order, p);
        order := if p.code in table then order else order + [p.code];
        table := table[p.code := ToGrant(p)];
        seen := seen + {p};
      }
      assert permissions[..|permissions|] == permissions;
      WithinStep(ks, i);
    }
    assert ks[..|ks|] == ks;
  }

  function ValuesOf(table: map<string, Grant>, order: seq<string>): seq<Grant>
    requires forall c :: c in order ==> c in table
  {
    seq(|order|, i requires 0 <= i < |order| => table[order[i]])
  }

  /** Sorting the values of a collected table lists the grants. */
  lemma SortedValuesList(leq: Leq, seen: set<Permission>, table: map<string, Grant>, order: seq<string>)
    requires TotalOrder(leq) && Collected(seen, table, order)
    ensures ListsGrants(leq, seen, Sort(leq, GrantCode, ValuesOf(table, order)))
  {
    var values := ValuesOf(table, order);
    var sorted := Sort(leq, GrantCode, values);
    SortSorts(leq, GrantCode, values);
    forall i | 0 <= i < |order| ensures values[i].code == order[i] && Shows(seen, values[i]) {
      assert order[i] in order;
    }
    OrderedDistinctIncreases(leq, values, sorted);
    forall p | p in seen ensures HasCode(sorted, p.code) {
      var i :| 0 <= i < |order| && order[i] == p.code;
      assert values[i] in multiset(sorted) && values[i] in sorted;
    }
    forall g | g in sorted ensures Shows(seen, g) {
      assert g in multiset(sorted);
      assert g in multiset(values);
    }
  }

  lemma OrderedDistinctIncreases(leq: Leq, values: seq<Grant>, sorted: seq<Grant>)
    requires multiset(sorted) == multiset(values) && Ordered(leq, GrantCode, sorted)
    requires forall i, j :: 0 <= i < j < |values| ==> values[i].code != values[j].code
    ensures Increasing(leq, GrantCode, sorted)
  {
    forall i, j | 0 <= i < j < |sorted| ensures sorted[i].code != sorted[j].code {
      if sorted[i].code == sorted[j].code {
        var g, h := sorted[i], sorted[j];
        assert g in multiset(values) && h in multiset(values);
        var a :| 0 <= a < |values| && values[a] == g;
        var b :| 0 <= b < |values| && values[b] == h;
        assert a == b && g == h;
        TwiceInMultiset(sorted, i, j);
        OnceInMultiset(values, a);
      }
    }
  }

  lemma TwiceInMultiset<T>(s: seq<T>, i: nat, j: nat)
    requires i < j < |s| && s[i] == s[j]
    ensures multiset(s)[s[i]] >= 2
  {
    assert s == s[..i] + [s[i]] + s[i + 1..j] + [s[j]] + s[j + 1..];
  }

  lemma OnceInMultiset(s: seq<Grant>, a: nat)
    requires a < |s| && forall i, j :: 0 <= i < j < |s| ==> s[i].code != s[j].code
    ensures multiset(s)[s[a]] == 1
  {
    assert s == s[..a] + [s[a]] + s[a + 1..];
    assert s[a] !in s[..a] && s[a] !in s[a + 1..];
  }

  lemma ReachableIsWithin(role: Role, ks: seq<Package>)
    requires multiset(ks) == multiset(ActiveOnly(role.packages))
    ensures Within(ks) == Reachable(role)
  {
    forall k ensures k in ks <==> k in role.packages && k.isActive {
      assert k in ks <==> k in multiset(ks);
      assert k in ActiveOnly(role.packages) <==> k in multiset(ActiveOnly(role.packages));
    }
  }

  method ResolveRolePermissions(leq: Leq, found: Option<Role>) returns (r: Result<Answer, Problem>)
    requires TotalOrder(leq)
    ensures r.Failure? <==> found == None
    ensures r.Success? && !found.value.isActive ==>
              r.value == Answer(found.value.id, found.value.name, false, [], [], [])
    ensures r.Success? && found.value.isActive ==> Resolves(leq, found.value, r.value)
  {
    if found == None {
      return Failure(RoleNotFound);
    }
    var role := found.value;
    if !role.isActive {
      return Success(Answer(role.id, role.name, false, [], [], []));
    }
    var active := Sort(leq, PackageCode, ActiveOnly(role.packages));
    SortSorts(leq, PackageCode, ActiveOnly(role.packages));
    var table, order := Collect(active);
    var permissions := Sort(leq, GrantCode, ValuesOf(table, order));
    SortedValuesList(leq, Within(active), table, order);
    ReachableIsWithin(role, active);
    assert ListsPackages(leq, role, active) by {
      assert forall i :: 0 <= i < |active| ==> PackageCode(active[i]) == active[i].code;
    }
    assert ShowsPackages(active, Bundles(active));
    return Success(Answer(role.id, role.name, true, Bundles(active), permissions, Codes(permissions)));
  }

  // ---------------------------------------------------------------- the answer is determined

  /** With one permission per code, the listed grants are exactly the reachable permissions. */
  lemma GrantsAreExact(leq: Leq, ps: set<Permission>, gs: seq<Grant>)
    requires ListsGrants(leq, ps, gs) && UniqueCodes(ps)
    ensures forall p :: p in ps ==> Grant(p.id, p.code, p.name, p.description) in gs
    ensures forall g :: g in gs <==> Shows(ps, g)
  {
    forall p | p in ps ensures Grant(p.id, p.code, p.name, p.description) in gs {
      assert HasCode(gs, p.code);
      var g :| g in gs && g.code == p.code;
      assert Shows(ps, g);
      var q :| q in ps && ShowsOne(q, g);
      assert q == p;
    }
    forall g | Shows(ps, g) ensures g in gs {
      var p :| p in ps && ShowsOne(p, g);
      assert g == Grant(p.id, p.code, p.name, p.description);
    }
  }

  /** Roles that reach the same permissions get the same list, however packages and permissions are ordered. */
  lemma OrderDoesNotMatter(leq: Leq, role: Role, other: Role, a: Answer, b: Answer)
    requires TotalOrder(leq) && Resolves(leq, role, a) && Resolves(leq, other, b)
    requires Reachable(role) == Reachable(other) && UniqueCodes(Reachable(role))
    ensures a.permissions == b.permissions && a.codes == b.codes
  {
    GrantsAreExact(leq, Reachable(role), a.permissions);
    GrantsAreExact(leq, Reachable(other), b.permissions);
    assert forall g: Grant :: GrantCode(g) == g.code;
    IncreasingIsUnique(leq, GrantCode, a.permissions, b.permissions);
    assert |a.codes| == |b.codes| && forall i :: 0 <= i < |a.codes| ==> a.codes[i] == b.codes[i];
  }

  /** Equal up to the order of permissions. */
  predicate SamePackage(k: Package, l: Package) {
    k.(permissions := []) == l.(permissions := []) && multiset(k.permissions) == multiset(l.permissions)
  }

  ghost predicate HasSame(ks: seq<Package>, k: Package) {
    exists l :: l in ks && SamePackage(k, l)
  }

  lemma PermutedIsWithin(role: Role, other: Role, p: Permission)
    requires forall k :: k in role.packages ==> HasSame(other.packages, k)
    requires p in Reachable(role)
    ensures p in Reachable(other)
  {
    var k :| k in role.packages && k.isActive && p in k.permissions && p.isActive;
    assert HasSame(other.packages, k);
    var l :| l in other.packages && SamePackage(k, l);
    assert p in multiset(k.permissions);
    assert p in multiset(l.permissions);
  }

  /** Permuting packages and the permissions inside them changes nothing that is reachable. */
  lemma PermutingKeepsReachable(role: Role, other: Role)
    requires forall k :: k in role.packages ==> HasSame(other.packages, k)
    requires forall l :: l in other.packages ==> HasSame(role.packages, l)
    ensures Reachable(role) == Reachable(other)
  {
    forall p ensures p in Reachable(role) <==> p in Reachable(other) {
      if p in Reachable(role) {
        PermutedIsWithin(role, other, p);
      }
      if p in Reachable(other) {
        PermutedIsWithin(other, role, p);
      }
    }
  }
}
