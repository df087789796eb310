/**
 * Finite directed graphs given by their edges, with paths as node sequences.
 * Nothing here knows about commission rows; the commission hierarchy uses it as the
 * unbounded specification of its two bounded walks.
 */
module Graph {
  type Node = string
  type Edges = set<(Node, Node)>

  predicate Hop(g: Edges, u: Node, v: Node) {
    (u, v) in g
  }

  /** The i-th step of `p` follows an edge. */
  predicate HopAt(g: Edges, p: seq<Node>, i: nat)
    requires i + 1 < |p|
  {
    Hop(g, p[i], p[i + 1])
  }

  ghost predicate IsPath(g: Edges, p: seq<Node>) {
    |p| >= 1 && forall i :: 0 <= i < |p| - 1 ==> HopAt(g, p, i)
  }

  ghost predicate IsSink(g: Edges, u: Node) {
    forall v :: !Hop(g, u, v)
  }

  /** The last node of `p` has no outgoing edge, so `p` cannot be extended. */
  ghost predicate IsChain(g: Edges, p: seq<Node>) {
    IsPath(g, p) && IsSink(g, p[|p| - 1])
  }

  ghost predicate IsCycle(g: Edges, p: seq<Node>) {
    IsPath(g, p) && |p| >= 2 && p[0] == p[|p| - 1]
  }

  ghost predicate Acyclic(g: Edges) {
    forall p :: !IsCycle(g, p)
  }

  ghost predicate Functional(g: Edges) {
    forall u, v, w :: Hop(g, u, v) && Hop(g, u, w) ==> v == w
  }

  ghost predicate Distinct(p: seq<Node>) {
    forall i, j :: 0 <= i < j < |p| ==> p[i] != p[j]
  }

  ghost predicate Reaches(g: Edges, u: Node, v: Node) {
    exists p :: IsPath(g, p) && p[0] == u && p[|p| - 1] == v
  }

  /** `g` with every edge leaving `c` replaced by the single edge to `q`. */
  ghost function Redirect(g: Edges, c: Node, q: Node): Edges {
    (set e | e in g && e.0 != c) + {(c, q)}
  }

  /** In a functional graph two paths from one node run along each other. */
  lemma {:induction false} PathsAgree(g: Edges, p: seq<Node>, q: seq<Node>)
    requires Functional(g) && IsPath(g, p) && IsPath(g, q)
    requires p[0] == q[0] && |p| <= |q|
    ensures p == q[..|p|]
  {
    if |p| > 1 {
      assert HopAt(g, p, 0) && HopAt(g, q, 0);
      assert IsPath(g, p[1..]) by { SuffixIsPath(g, p, 1); }
      assert IsPath(g, q[1..]) by { SuffixIsPath(g, q, 1); }
      PathsAgree(g, p[1..], q[1..]);
      assert p == [p[0]] + p[1..];
      assert q[..|p|] == [q[0]] + q[1..][..|p| - 1];
    }
  }

  lemma SuffixIsPath(g: Edges, p: seq<Node>, i: nat)
    requires IsPath(g, p) && i < |p|
    ensures IsPath(g, p[i..]) && p[i..][0] == p[i] && p[i..][|p| - i - 1] == p[|p| - 1]
  {
    forall k | 0 <= k < |p[i..]| - 1 ensures HopAt(g, p[i..], k) {
      assert HopAt(g, p, i + k);
    }
  }

  lemma PrefixIsPath(g: Edges, p: seq<Node>, n: nat)
    requires IsPath(g, p) && 1 <= n <= |p|
    ensures IsPath(g, p[..n])
  {
    forall k | 0 <= k < n - 1 ensures HopAt(g, p[..n], k) {
      assert HopAt(g, p, k);
    }
  }

  lemma JoinIsPath(g: Edges, p: seq<Node>, q: seq<Node>)
    requires IsPath(g, p) && IsPath(g, q) && Hop(g, p[|p| - 1], q[0])
    ensures IsPath(g, p + q)
  {
    forall k | 0 <= k < |p + q| - 1 ensures HopAt(g, (p + q), k) {
      if k < |p| - 1 {
        assert HopAt(g, p, k);
      } else if k >= |p| {
        assert HopAt(g, q, k - |p|);
      }
    }
  }

  /** A chain of a functional graph meets no node twice. */
  lemma ChainIsDistinct(g: Edges, w: seq<Node>)
    requires Functional(g) && IsChain(g, w)
    ensures Distinct(w)
  {
    forall i, j | 0 <= i < j < |w| ensures w[i] != w[j] {
      SuffixIsPath(g, w, i);
      SuffixIsPath(g, w, j);
      var k := i + |w| - 1 - j;
      assert HopAt(g, w, k);
      assert w[j..][|w| - 1 - j] == w[|w| - 1] && w[i..][|w| - 1 - j] == w[k];
      if w[i] == w[j] {
        PathsAgree(g, w[j..], w[i..]);
      }
    }
  }

  /** In a functional graph every path from the start of a chain runs along the chain. */
  lemma PathOffChain(g: Edges, w: seq<Node>, p: seq<Node>)
    requires Functional(g) && IsChain(g, w) && IsPath(g, p) && p[0] == w[0]
    ensures |p| <= |w| && p == w[..|p|]
  {
    assert |p| > |w| ==> HopAt(g, p, |w| - 1);
    if |p| <= |w| {
      PathsAgree(g, p, w);
    } else {
      PathsAgree(g, w, p);
    }
  }

  lemma SubgraphPath(g: Edges, h: Edges, p: seq<Node>)
    requires IsPath(g, p) && g <= h
    ensures IsPath(h, p)
  {
    forall i | 0 <= i < |p| - 1 ensures HopAt(h, p, i) {
      assert HopAt(g, p, i);
    }
  }

  /** A cycle through `p[i]` can be read as starting right after `p[i]`. */
  lemma Rotate(g: Edges, p: seq<Node>, i: nat) returns (r: seq<Node>)
    requires IsCycle(g, p) && i < |p| - 1
    ensures IsPath(g, r) && r[0] == p[i + 1] && r[|r| - 1] == p[i]
  {
    SuffixIsPath(g, p, i + 1);
    r := p[i + 1..];
    if i > 0 {
      PrefixIsPath(g, p, i + 1);
      var front := p[..i + 1];
      SuffixIsPath(g, front, 1);
      assert HopAt(g, p, 0);
      JoinIsPath(g, r, front[1..]);
      r := r + front[1..];
    }
  }

  lemma RedirectKeeps(g: Edges, c: Node, q: Node, p: seq<Node>)
    requires IsPath(g, p) && forall i :: 0 <= i < |p| - 1 ==> p[i] != c
    ensures IsPath(Redirect(g, c, q), p)
  {
    forall i | 0 <= i < |p| - 1 ensures HopAt(Redirect(g, c, q), p, i) {
      assert HopAt(g, p, i);
    }
  }

  lemma RedirectIntroduces(g: Edges, c: Node, q: Node, p: seq<Node>)
    requires IsPath(Redirect(g, c, q), p) && forall i :: 0 <= i < |p| - 1 ==> p[i] != c
    ensures IsPath(g, p)
  {
    forall i | 0 <= i < |p| - 1 ensures HopAt(g, p, i) {
      assert HopAt(Redirect(g, c, q), p, i);
    }
  }

  lemma ReachingClosesCycle(g: Edges, c: Node, q: Node) returns (p: seq<Node>)
    requires Reaches(g, q, c)
    ensures IsCycle(Redirect(g, c, q), p)
  {
    var r :| IsPath(g, r) && r[0] == q && r[|r| - 1] == c;
    r := CutAt(g, r, c);
    RedirectKeeps(g, c, q, r);
    JoinIsPath(Redirect(g, c, q), [c], r);
    p := [c] + r;
  }

  /** A cycle after redirecting is an old cycle that avoids `c`, or `q` led back to `c`. */
  lemma CycleAfterRedirect(g: Edges, c: Node, q: Node, p: seq<Node>)
    requires IsCycle(Redirect(g, c, q), p)
    ensures c !in p ==> IsCycle(g, p)
    ensures c in p ==> Reaches(g, q, c)
  {
    var h := Redirect(g, c, q);
    if c in p {
      var i := AnEdgeFrom(p, c);
      assert HopAt(h, p, i);
      var r := Rotate(h, p, i);
      r := CutAt(h, r, c);
      RedirectIntroduces(g, c, q, r);
    } else {
      RedirectIntroduces(g, c, q, p);
    }
  }

  /**
   * After redirecting `c` to `q`, the graph has no cycle exactly when every old cycle ran
   * through `c` and `q` did not lead back to `c`.
   */
  lemma RedirectAcyclicIff(g: Edges, c: Node, q: Node)
    ensures Acyclic(Redirect(g, c, q)) <==>
            (forall p :: IsCycle(g, p) ==> c in p) && !Reaches(g, q, c)
  {
    forall p | IsCycle(g, p) && c !in p ensures IsCycle(Redirect(g, c, q), p) {
      RedirectKeeps(g, c, q, p);
    }
    forall p | IsCycle(Redirect(g, c, q), p)
      ensures (c !in p && IsCycle(g, p)) || Reaches(g, q, c)
    {
      CycleAfterRedirect(g, c, q, p);
    }
    if Reaches(g, q, c) {
      var p := ReachingClosesCycle(g, c, q);
    }
  }

  /** The part of a path to `c` before its first visit of `c`, and `c` itself. */
  lemma CutAt(g: Edges, p: seq<Node>, c: Node) returns (r: seq<Node>)
    requires IsPath(g, p) && p[|p| - 1] == c
    ensures IsPath(g, r) && r[0] == p[0] && r[|r| - 1] == c
    ensures forall i :: 0 <= i < |r| - 1 ==> r[i] != c
  {
    var n := 0;
    while p[n] != c
      invariant n < |p|
      invariant forall i :: 0 <= i < n ==> p[i] != c
      decreases |p| - n
    {
      n := n + 1;
    }
    PrefixIsPath(g, p, n + 1);
    r := p[..n + 1];
  }

  lemma AnEdgeFrom(p: seq<Node>, c: Node) returns (i: nat)
    requires |p| >= 2 && p[0] == p[|p| - 1] && c in p
    ensures i < |p| - 1 && p[i] == c
  {
    i :| i < |p| && p[i] == c;
    if i == |p| - 1 {
      i := 0;
    }
  }
}
