/**
 * What the bounded walks of CommissionHierarchyService decide, said about the whole graph
 * of effective parents with no visited set and no counter.
 */
module HierarchyWalks {
  import opened Graph

  const MAX_DEPTH: nat := 20

  /** The first `n` nodes of `p` are pairwise different and none of them is `child`. */
  ghost predicate Fresh(child: Node, p: seq<Node>, n: nat) {
    && n <= |p|
    && (forall i :: 0 <= i < n ==> p[i] != child)
    && (forall i, j :: 0 <= i < j < n ==> p[i] != p[j])
  }

  /** The chain of parents from `parent` on ends within the limit and never meets `child`. */
  ghost predicate Clear(g: Edges, child: Node, parent: Node) {
    exists w :: IsChain(g, w) && w[0] == parent && |w| <= MAX_DEPTH && child !in w
  }

  ghost predicate IsRepeat(g: Edges, child: Node, p: seq<Node>) {
    IsPath(g, p) && Fresh(child, p, |p| - 1) && !Fresh(child, p, |p|)
  }

  /** Within the limit the parents of `parent` lead to `user`, who is `child` or was met before. */
  ghost predicate MeetsAgain(g: Edges, child: Node, parent: Node, user: Node) {
    exists p :: IsRepeat(g, child, p) && p[0] == parent && |p| <= MAX_DEPTH && p[|p| - 1] == user
  }

  /** The first MAX_DEPTH users are new, and the last of them still has a parent. */
  ghost predicate Overlong(g: Edges, child: Node, parent: Node) {
    exists p :: IsPath(g, p) && p[0] == parent && |p| == MAX_DEPTH + 1 && Fresh(child, p, MAX_DEPTH)
  }

  function Seen(p: seq<Node>): set<Node> {
    if p == [] then {} else Seen(p[..|p| - 1]) + {p[|p| - 1]}
  }

  lemma {:induction false} SeenIffOnPath(p: seq<Node>, u: Node)
    ensures u in Seen(p) <==> exists i :: 0 <= i < |p| && p[i] == u
  {
    if p != [] {
      SeenIffOnPath(p[..|p| - 1], u);
    }
  }

  lemma SeenExtends(p: seq<Node>, u: Node)
    ensures Seen(p + [u]) == Seen(p) + {u}
  {
    assert (p + [u])[..|p|] == p;
  }

  /** The state of the guarded walk: `path` has been followed, all but its last node visited. */
  ghost predicate Walked(g: Edges, child: Node, parent: Node, path: seq<Node>, visited: set<Node>) {
    && IsPath(g, path) && path[0] == parent
    && Fresh(child, path, |path| - 1)
    && visited == {child} + Seen(path[..|path| - 1])
  }

  lemma WalkRepeats(g: Edges, child: Node, parent: Node, path: seq<Node>, visited: set<Node>)
    requires Walked(g, child, parent, path, visited)
    ensures path[|path| - 1] in visited <==> !Fresh(child, path, |path|)
  {
    var n := |path| - 1;
    SeenIffOnPath(path[..n], path[n]);
    assert forall i :: 0 <= i < n ==> path[..n][i] == path[i];
  }

  lemma WalkExtends(g: Edges, child: Node, parent: Node, path: seq<Node>, visited: set<Node>, next: Node)
    requires Walked(g, child, parent, path, visited) && Fresh(child, path, |path|)
    requires Hop(g, path[|path| - 1], next)
    ensures Walked(g, child, parent, path + [next], visited + {path[|path| - 1]})
  {
    JoinIsPath(g, path, [next]);
    assert (path + [next])[..|path|] == path;
    FreshPrefix(child, path, path + [next], |path|);
  }

  lemma FreshPrefix(child: Node, p: seq<Node>, q: seq<Node>, n: nat)
    requires n <= |p| <= |q| && p == q[..|p|]
    ensures Fresh(child, p, n) <==> Fresh(child, q, n)
  {
    assert forall i :: 0 <= i < |p| ==> p[i] == q[i];
  }

  /** Below a clear chain there is nothing but prefixes of it. */
  lemma ClearChainPath(g: Edges, child: Node, w: seq<Node>, p: seq<Node>)
    requires Functional(g) && IsChain(g, w) && child !in w && IsPath(g, p) && p[0] == w[0]
    ensures |p| <= |w| && Fresh(child, p, |p|)
  {
    PathOffChain(g, w, p);
    ChainIsDistinct(g, w);
    FreshPrefix(child, p, w, |p|);
  }

  lemma RepeatPath(g: Edges, child: Node, p: seq<Node>, q: seq<Node>)
    requires Functional(g) && IsRepeat(g, child, p) && IsPath(g, q) && p[0] == q[0]
    ensures |q| >= |p| ==> !Fresh(child, q, |p|)
    ensures IsRepeat(g, child, q) ==> q == p
  {
    if |p| <= |q| {
      PathsAgree(g, p, q);
      FreshPrefix(child, p, q, |p|);
      assert |p| < |q| && Fresh(child, q, |q| - 1) ==> Fresh(child, q, |p|);
    } else {
      PathsAgree(g, q, p);
      FreshPrefix(child, q, p, |q|);
      assert Fresh(child, p, |p| - 1) ==> Fresh(child, p, |q|);
    }
  }

  // The three verdicts exclude each other, and a repetition is met at one user only.

  lemma ClearExcludes(g: Edges, child: Node, w: seq<Node>)
    requires Functional(g) && IsChain(g, w) && |w| <= MAX_DEPTH && child !in w
    ensures !Overlong(g, child, w[0]) && forall u :: !MeetsAgain(g, child, w[0], u)
  {
    forall p | IsPath(g, p) && p[0] == w[0] ensures |p| <= |w| && Fresh(child, p, |p|) {
      ClearChainPath(g, child, w, p);
    }
  }

  lemma RepeatExcludes(g: Edges, child: Node, p: seq<Node>)
    requires Functional(g) && IsRepeat(g, child, p) && |p| <= MAX_DEPTH
    ensures !Clear(g, child, p[0]) && !Overlong(g, child, p[0])
    ensures forall u :: MeetsAgain(g, child, p[0], u) <==> u == p[|p| - 1]
  {
    forall w | IsChain(g, w) && w[0] == p[0] ensures child in w {
      if child !in w {
        ClearChainPath(g, child, w, p);
      }
    }
    forall q | IsPath(g, q) && q[0] == p[0]
      ensures (|q| >= |p| ==> !Fresh(child, q, |p|)) && (IsRepeat(g, child, q) ==> q == p)
    {
      RepeatPath(g, child, p, q);
    }
    assert forall q: seq<Node> :: Fresh(child, q, MAX_DEPTH) ==> Fresh(child, q, |p|);
  }

  lemma OverlongExcludes(g: Edges, child: Node, p: seq<Node>)
    requires Functional(g) && IsPath(g, p) && |p| == MAX_DEPTH + 1 && Fresh(child, p, MAX_DEPTH)
    ensures !Clear(g, child, p[0]) && forall u :: !MeetsAgain(g, child, p[0], u)
  {
    LongPathLongChain(g, p);
    forall q | IsRepeat(g, child, q) && q[0] == p[0] ensures |q| > MAX_DEPTH {
      RepeatPath(g, child, q, p);
      assert |q| <= MAX_DEPTH ==> Fresh(child, p, |q|);
    }
  }

  // The resolving walk starts at `source` itself and has no child to avoid.

  ghost predicate Resolvable(g: Edges, source: Node) {
    exists w :: IsChain(g, w) && w[0] == source && |w| <= MAX_DEPTH
  }

  ghost predicate AllNew(p: seq<Node>, n: nat) {
    n <= |p| && forall i, j :: 0 <= i < j < n ==> p[i] != p[j]
  }

  /** `p` follows parents from its start until it comes back to a user on it. */
  ghost predicate IsLasso(g: Edges, p: seq<Node>) {
    IsPath(g, p) && AllNew(p, |p| - 1) && !AllNew(p, |p|)
  }

  ghost predicate RunsInto(g: Edges, source: Node, user: Node) {
    exists p :: IsLasso(g, p) && p[0] == source && |p| <= MAX_DEPTH + 1 && p[|p| - 1] == user
  }

  ghost predicate IsLong(g: Edges, p: seq<Node>) {
    IsPath(g, p) && |p| == MAX_DEPTH + 1 && AllNew(p, |p|)
  }

  ghost predicate TooLong(g: Edges, source: Node) {
    exists p :: IsLong(g, p) && p[0] == source
  }

  lemma NewPrefix(p: seq<Node>, q: seq<Node>, n: nat)
    requires n <= |p| <= |q| && p == q[..|p|]
    ensures AllNew(p, n) <==> AllNew(q, n)
  {
    assert forall i :: 0 <= i < |p| ==> p[i] == q[i];
  }

  lemma NewShrinks(q: seq<Node>, n: nat)
    requires n <= |q|
    ensures n < |q| && AllNew(q, |q| - 1) ==> AllNew(q, n)
  {
  }

  lemma ChainPath(g: Edges, w: seq<Node>, p: seq<Node>)
    requires Functional(g) && IsChain(g, w) && IsPath(g, p) && p[0] == w[0]
    ensures |p| <= |w| && AllNew(p, |p|)
    ensures IsChain(g, p) ==> p == w
  {
    PathOffChain(g, w, p);
    ChainIsDistinct(g, w);
    NewPrefix(p, w, |p|);
    if IsChain(g, p) {
      PathOffChain(g, p, w);
    }
  }

  lemma ChainMeansResolvable(g: Edges, w: seq<Node>)
    requires Functional(g) && IsChain(g, w)
    ensures Resolvable(g, w[0]) <==> |w| <= MAX_DEPTH
    ensures TooLong(g, w[0]) <==> |w| > MAX_DEPTH
    ensures forall u :: !RunsInto(g, w[0], u)
  {
    forall p | IsPath(g, p) && p[0] == w[0]
      ensures |p| <= |w| && AllNew(p, |p|) && (IsChain(g, p) ==> p == w)
    {
      ChainPath(g, w, p);
    }
    if |w| > MAX_DEPTH {
      var p := w[..MAX_DEPTH + 1];
      PrefixIsPath(g, w, MAX_DEPTH + 1);
      assert p[0] == w[0] && IsLong(g, p);
    }
  }

  lemma LassoPath(g: Edges, p: seq<Node>, q: seq<Node>)
    requires Functional(g) && IsLasso(g, p) && IsPath(g, q) && p[0] == q[0]
    ensures |q| >= |p| ==> !AllNew(q, |q|)
    ensures IsLasso(g, q) ==> q == p
  {
    if |p| <= |q| {
      PathsAgree(g, p, q);
      NewPrefix(p, q, |p|);
      NewShrinks(q, |p|);
    } else {
      PathsAgree(g, q, p);
      NewPrefix(q, p, |q|);
      assert AllNew(p, |q|);
    }
  }

  lemma LassoMeansNotResolvable(g: Edges, p: seq<Node>)
    requires Functional(g) && IsLasso(g, p) && |p| <= MAX_DEPTH + 1
    ensures !Resolvable(g, p[0]) && !TooLong(g, p[0])
    ensures forall u :: RunsInto(g, p[0], u) <==> u == p[|p| - 1]
  {
    forall w | IsChain(g, w) ensures w[0] != p[0] {
      if w[0] == p[0] {
        ChainPath(g, w, p);
      }
    }
    forall q | IsPath(g, q) && q[0] == p[0]
      ensures (|q| >= |p| ==> !AllNew(q, |q|)) && (IsLasso(g, q) ==> q == p)
    {
      LassoPath(g, p, q);
    }
  }

  lemma LongPathMeansTooLong(g: Edges, p: seq<Node>)
    requires Functional(g) && IsLong(g, p)
    ensures TooLong(g, p[0]) && !Resolvable(g, p[0])
    ensures forall u :: !RunsInto(g, p[0], u)
  {
    LongPathLongChain(g, p);
    forall q | IsLasso(g, q) && q[0] == p[0] ensures |q| > |p| {
      LassoPath(g, q, p);
    }
  }

  /** Every chain from the start of a path is at least as long as the path. */
  lemma LongPathLongChain(g: Edges, p: seq<Node>)
    requires Functional(g) && IsPath(g, p)
    ensures forall w :: IsChain(g, w) && w[0] == p[0] ==> |w| >= |p|
  {
    forall w | IsChain(g, w) && w[0] == p[0] ensures |w| >= |p| {
      PathOffChain(g, w, p);
    }
  }
}
