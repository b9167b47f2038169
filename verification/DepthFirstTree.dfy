/** What a depth-first spanning tree gives: ancestors as intervals of preorder numbers, the path
    lemma, semidominators, and the one fact the semi-NCA algorithm rests on. The graph `h` here has
    the preorder numbers themselves as its blocks; number 0 is the entry. */
module DepthFirstTree {
  import opened ControlFlowGraph

  /** `father[v]` is the parent in the tree and `last[v]` the first number after the subtree of `v`. */
  datatype Tree = Tree(father: seq<nat>, last: seq<nat>)

  ghost predicate TreeShape(t: Tree) {
    && |t.father| == |t.last|
    && (forall v :: 0 <= v < |t.last| ==> v < t.last[v] <= |t.last|)
    && (forall v {:trigger t.father[v]} :: 0 < v < |t.last| ==>
        t.father[v] < v && v < t.last[t.father[v]]
        && t.last[v] <= t.last[t.father[v]])
    && (forall i, j {:trigger t.last[i], t.father[j]} :: 0 <= i < j < |t.last| && j < t.last[i] ==> i <= t.father[j])
  }

  ghost predicate IsDfsTree(h: Graph, t: Tree) {
    && TreeShape(t)
    && WellFormed(h)
    && h.entry == 0
    && (forall v: nat :: v in h.succ <==> v < |t.last|)
    && t.last[0] == |t.last|
    && (forall v {:trigger t.father[v]} :: 0 < v < |t.last| ==> Edge(h, t.father[v], v))
    && (forall a: nat, b: nat :: Edge(h, a, b) ==> b < t.last[a])
  }

  predicate Ancestor(t: Tree, a: nat, b: nat) {
    a < |t.last| && a <= b < t.last[a]
  }

  lemma {:induction false} AncestorNests(t: Tree, a: nat, b: nat)
    requires TreeShape(t) && Ancestor(t, a, b)
    ensures b < |t.last| && t.last[b] <= t.last[a]
    decreases b
  {
    if b > a {
      AncestorNests(t, a, t.father[b]);
    }
  }

  /** The tree path from an ancestor down; every block on it lies between the two numbers. */
  lemma {:induction false} TreePath(h: Graph, t: Tree, a: nat, b: nat) returns (p: seq<nat>)
    requires IsDfsTree(h, t) && Ancestor(t, a, b)
    ensures IsPath(h, p, a, b)
    ensures forall v :: v in p ==> a <= v <= b
    decreases b
  {
    AncestorNests(t, a, b);
    if b == a {
      p := [a];
    } else {
      var q := TreePath(h, t, a, t.father[b]);
      SingletonPath(h, b);
      ConcatPaths(h, q, [b], a, t.father[b], b, b);
      p := q + [b];
    }
  }

  /** The path lemma: a path that never goes below `m`, started inside the subtree of `m`, stays in it. */
  lemma {:induction false} PathStaysInSubtree(h: Graph, t: Tree, p: seq<nat>, m: nat, y: nat, w: nat)
    requires IsDfsTree(h, t) && IsPath(h, p, y, w) && Ancestor(t, m, y)
    requires forall v :: v in p ==> m <= v
    ensures Ancestor(t, m, w)
  {
    if |p| > 1 {
      AncestorNests(t, m, y);
      assert forall v :: v in p[1..] ==> v in p;
      assert p[1] in p && Edge(h, y, p[1]);
      PathStaysInSubtree(h, t, p[1..], m, p[1], w);
    }
  }

  // ----- semidominators -----

  ghost predicate Above(q: seq<nat>, w: nat) {
    forall v :: v in q ==> v > w
  }

  /** A path from `v` to `w` whose blocks in between, `q`, all have numbers above `w`. */
  ghost predicate SemiPath(h: Graph, v: nat, q: seq<nat>, w: nat) {
    if q == [] then Edge(h, v, w)
    else Edge(h, v, q[0]) && IsPath(h, q, q[0], q[|q| - 1]) && Above(q, w) && Edge(h, q[|q| - 1], w)
  }

  /** `s` is the semidominator of `w`: the least start of such a path. */
  ghost predicate IsSemidominator(h: Graph, s: nat, w: nat) {
    && (exists q :: SemiPath(h, s, q, w))
    && (forall v, q :: SemiPath(h, v, q, w) ==> s <= v)
  }

  lemma SemidominatorBelowFather(h: Graph, t: Tree, s: nat, w: nat)
    requires IsDfsTree(h, t) && 0 < w < |t.last| && IsSemidominator(h, s, w)
    ensures s <= t.father[w] < w
  {
    assert SemiPath(h, t.father[w], [], w);
  }

  /** Soundness of one candidate of the climb: from `u > w`, an ancestor of a predecessor `p` of `w`. */
  lemma CandidateIsSound(h: Graph, t: Tree, s: nat, u: nat, p: nat, w: nat)
    requires IsDfsTree(h, t) && Edge(h, p, w) && Ancestor(t, u, p) && u > w && IsSemidominator(h, s, u)
    ensures exists q :: SemiPath(h, s, q, w)
  {
    var q :| SemiPath(h, s, q, u);
    var r := TreePath(h, t, u, p);
    PathEnds(h, r, u, p);
    if q == [] {
      assert SemiPath(h, s, r, w);
    } else {
      ConcatPaths(h, q, r, q[0], q[|q| - 1], u, p);
      assert SemiPath(h, s, q + r, w);
    }
  }

  /** Any path into `p` visits an ancestor `u` of `p` before which it only visits numbers above `u`. */
  lemma {:induction false} SplitAtAncestor(h: Graph, t: Tree, q: seq<nat>, a: nat, p: nat) returns (k: nat)
    requires IsDfsTree(h, t) && IsPath(h, q, a, p)
    ensures k < |q| && Ancestor(t, q[k], p) && Above(q[..k], q[k])
    ensures k > 0 ==> IsPath(h, q[..k], a, q[k - 1]) && Edge(h, q[k - 1], q[k])
  {
    if |q| == 1 {
      k := 0;
    } else {
      var k' := SplitAtAncestor(h, t, q[1..], q[1], p);
      var u := q[1 + k'];
      assert q[1..][..k'] == q[1..1 + k'];
      assert q[..1 + k'] == [a] + q[1..1 + k'];
      PathEnds(h, q, a, p);
      if a > u {
        k := 1 + k';
        if k' > 0 {
          assert q[..k][1..] == q[1..][..k'];
        } else {
          assert q[..k] == [a];
        }
      } else {
        k := 0;
        var r := PrefixUpTo(h, q, a, p, 1 + k');
        assert r == [a] + q[1..1 + k'] + [u];
        PathStaysInSubtree(h, t, r, a, a, u);
        AncestorNests(t, a, u);
      }
    }
  }

  lemma {:induction false} PrefixUpTo(h: Graph, p: seq<nat>, x: nat, y: nat, k: nat) returns (r: seq<nat>)
    requires WellFormed(h) && IsPath(h, p, x, y) && k < |p|
    ensures r == p[..k + 1] && IsPath(h, r, x, p[k])
  {
    r := p[..k + 1];
    PathEnds(h, p, x, y);
    if k > 0 {
      var r' := PrefixUpTo(h, p[1..], p[1], y, k - 1);
      assert r[1..] == r';
    }
  }

  /** Completeness of the candidates: a semidominator path into `w` that is more than one edge gives
      an ancestor-or-self `u > w` of some predecessor of `w` with a semidominator path into `u`. */
  lemma CandidatesAreComplete(h: Graph, t: Tree, v: nat, q: seq<nat>, w: nat) returns (u: nat)
    requires IsDfsTree(h, t) && SemiPath(h, v, q, w) && q != []
    ensures Edge(h, q[|q| - 1], w) && q[|q| - 1] > w && Ancestor(t, u, q[|q| - 1]) && u > w
    ensures exists r :: SemiPath(h, v, r, u)
  {
    var p := q[|q| - 1];
    var k := SplitAtAncestor(h, t, q, q[0], p);
    u := q[k];
    assert u in q;
    assert SemiPath(h, v, q[..k], u);
  }

  // ----- dominators -----

  /** A dominator is an ancestor. */
  lemma DominatorIsAncestor(h: Graph, t: Tree, x: nat, w: nat)
    requires IsDfsTree(h, t) && w < |t.last| && Dominates(h, x, w)
    ensures Ancestor(t, x, w)
  {
    var p := TreePath(h, t, 0, w);
    var k :| 0 <= k < |p| && p[k] == x;
    OnTreePathIsAncestor(h, t, x, w);
  }

  lemma {:induction false} OnTreePathIsAncestor(h: Graph, t: Tree, x: nat, w: nat)
    requires IsDfsTree(h, t) && w < |t.last| && Dominates(h, x, w)
    ensures Ancestor(t, x, w)
    decreases w
  {
    if w == 0 {
      SingletonPath(h, 0);
      assert x in [0];
    } else if x != w {
      StrictDominatorOfPred(h, x, t.father[w], w);
      OnTreePathIsAncestor(h, t, x, t.father[w]);
      AncestorNests(t, x, t.father[w]);
    }
  }

  lemma StrictDominatorBounds(h: Graph, t: Tree, x: nat, s: nat, w: nat)
    requires IsDfsTree(h, t) && 0 < w < |t.last| && IsSemidominator(h, s, w) && StrictlyDominates(h, x, w)
    ensures Dominates(h, x, t.father[w]) && x <= s
  {
    StrictDominatorOfPred(h, x, t.father[w], w);
    DominatorIsAncestor(h, t, x, w);
    SemidominatorBelowFather(h, t, s, w);
    var q :| SemiPath(h, s, q, w);
    var r := TreePath(h, t, 0, s);
    SingletonPath(h, w);
    if q == [] {
      ConcatPaths(h, r, [w], 0, s, w, w);
      assert x in r + [w];
    } else {
      ConcatPaths(h, r, q, 0, s, q[0], q[|q| - 1]);
      ConcatPaths(h, r + q, [w], 0, q[|q| - 1], w, w);
      assert x in r + q + [w];
    }
  }

  /** Follow a path into `w` that meets no ancestor of `w` in `[x, w)`: either it starts at or above
      `w`, or it contains a semidominator path into `w` that starts below `x`. */
  lemma {:induction false} EscapeBelow(h: Graph, t: Tree, p: seq<nat>, x: nat, y: nat, w: nat)
    returns (below: bool, v: nat, q: seq<nat>)
    requires IsDfsTree(h, t) && IsPath(h, p, y, w)
    requires forall m :: m in p && x <= m < w ==> !Ancestor(t, m, w)
    ensures below ==> v < x && SemiPath(h, v, q, w)
    ensures !below ==> y == w || (y > w && SemiPath(h, y, q, w))
  {
    PathEnds(h, p, y, w);
    if |p| == 1 {
      below, v, q := false, 0, [];
    } else {
      assert p == [y] + p[1..];
      var q';
      below, v, q' := EscapeBelow(h, t, p[1..], x, p[1], w);
      if below || y == w {
        q := q';
      } else {
        q := if p[1] == w then [] else [p[1]] + q';
        PathEnds(h, p[1..], p[1], w);
        assert SemiPath(h, y, q, w) by {
          if p[1] != w {
            assert q[1..] == q';
            SemiPathFromAbove(h, p[1], q', w);
          }
        }
        if y < w {
          StartIsAncestor(h, t, y, q, w);
          below, v := true, y;
        }
      }
    }
  }

  lemma SemiPathFromAbove(h: Graph, z: nat, q: seq<nat>, w: nat)
    requires WellFormed(h) && SemiPath(h, z, q, w) && z > w
    ensures IsPath(h, [z] + q, z, ([z] + q)[|q|]) && Above([z] + q, w) && Edge(h, ([z] + q)[|q|], w)
  {
    assert ([z] + q)[1..] == q;
    if q == [] {
      assert IsPath(h, [z], z, z);
    }
  }

  lemma StartIsAncestor(h: Graph, t: Tree, y: nat, q: seq<nat>, w: nat)
    requires IsDfsTree(h, t) && y < w && SemiPath(h, y, q, w)
    ensures Ancestor(t, y, w)
  {
    SingletonPath(h, w);
    SingletonPath(h, y);
    if q != [] {
      ConcatPaths(h, [y], q, y, y, q[0], q[|q| - 1]);
      ConcatPaths(h, [y] + q, [w], y, q[|q| - 1], w, w);
      PathStaysInSubtree(h, t, [y] + q + [w], y, y, w);
    } else {
      ConcatPaths(h, [y], [w], y, y, w, w);
      PathStaysInSubtree(h, t, [y] + [w], y, y, w);
    }
  }

  lemma DominatesAlongTree(h: Graph, t: Tree, x: nat, m: nat, f: nat)
    requires IsDfsTree(h, t) && Dominates(h, x, f) && Ancestor(t, m, f) && x < m
    ensures Dominates(h, x, m)
  {
    var r := TreePath(h, t, m, f);
    PathEnds(h, r, m, f);
    assert forall v :: v in r[1..] ==> v in r;
    forall p | IsPath(h, p, 0, m)
      ensures x in p
    {
      if |r| == 1 {
        assert IsPath(h, p, 0, f);
      } else {
        ConcatPaths(h, p, r[1..], 0, m, r[1], f);
        assert x in p + r[1..];
      }
    }
  }

  lemma BoundsGiveStrictDominator(h: Graph, t: Tree, x: nat, s: nat, w: nat)
    requires IsDfsTree(h, t) && 0 < w < |t.last| && IsSemidominator(h, s, w)
    requires Dominates(h, x, t.father[w]) && x <= s
    ensures StrictlyDominates(h, x, w)
  {
    SemidominatorBelowFather(h, t, s, w);
    DominatorIsAncestor(h, t, x, t.father[w]);
    forall p | IsPath(h, p, 0, w)
      ensures x in p
    {
      if x !in p {
        forall m | m in p && x <= m < w
          ensures !Ancestor(t, m, w)
        {
          if Ancestor(t, m, w) {
            DominatesAlongTree(h, t, x, m, t.father[w]);
            var r := PathPrefix(h, p, 0, w, m);
            assert false;
          }
        }
        var below, v, q := EscapeBelow(h, t, p, x, 0, w);
        assert false;
      }
    }
  }

  /** The strict dominators of `w` are exactly the dominators of its father that do not exceed its
      semidominator. */
  lemma StrictDominatorsOf(h: Graph, t: Tree, x: nat, s: nat, w: nat)
    requires IsDfsTree(h, t) && 0 < w < |t.last| && IsSemidominator(h, s, w)
    ensures StrictlyDominates(h, x, w) <==> Dominates(h, x, t.father[w]) && x <= s
  {
    if StrictlyDominates(h, x, w) {
      StrictDominatorBounds(h, t, x, s, w);
    }
    if Dominates(h, x, t.father[w]) && x <= s {
      BoundsGiveStrictDominator(h, t, x, s, w);
    }
  }
}
