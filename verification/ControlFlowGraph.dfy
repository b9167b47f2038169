/** Control flow graphs as the passes see them: every block carries the set of its successors and
    the set of its predecessors.  Paths, reachability and dominance are defined here once and used
    by the dominator computation, phi placement, SSA renaming and liveness. */
module ControlFlowGraph {

  type BlockId = nat

  datatype Graph = Graph(entry: BlockId, succ: map<BlockId, set<BlockId>>, pred: map<BlockId, set<BlockId>>)

  /** The two edge lists are mutual inverses and mention only blocks of the function. */
  ghost predicate WellFormed(g: Graph) {
    && g.entry in g.succ
    && g.succ.Keys == g.pred.Keys
    && (forall b, s :: b in g.succ && s in g.succ[b] ==> s in g.pred && b in g.pred[s])
    && (forall b, p :: b in g.pred && p in g.pred[b] ==> p in g.succ && b in g.succ[p])
  }

  predicate Edge(g: Graph, a: BlockId, b: BlockId) {
    a in g.succ && b in g.succ[a]
  }

  /** `p` is a path from `x` to `y`; the one-block path has no edge. */
  ghost predicate IsPath(g: Graph, p: seq<BlockId>, x: BlockId, y: BlockId) {
    if |p| == 0 then false
    else if |p| == 1 then p[0] == x && x == y && x in g.succ
    else p[0] == x && Edge(g, x, p[1]) && IsPath(g, p[1..], p[1], y)
  }

  ghost predicate Reachable(g: Graph, b: BlockId) {
    exists p :: IsPath(g, p, g.entry, b)
  }

  ghost predicate AllReachable(g: Graph) {
    forall b :: b in g.succ ==> Reachable(g, b)
  }

  /** Every path from the entry to `y` visits `x`. */
  ghost predicate Dominates(g: Graph, x: BlockId, y: BlockId) {
    forall p :: IsPath(g, p, g.entry, y) ==> x in p
  }

  ghost predicate StrictlyDominates(g: Graph, x: BlockId, y: BlockId) {
    x != y && Dominates(g, x, y)
  }

  /** `d` is the immediate dominator of `b`: the strict dominator that all the others dominate. */
  ghost predicate IsImmediateDominator(g: Graph, d: BlockId, b: BlockId) {
    && d in g.succ
    && StrictlyDominates(g, d, b)
    && forall x :: StrictlyDominates(g, x, b) ==> Dominates(g, x, d)
  }

  /** `y` is in the dominance frontier of `x`. */
  ghost predicate InFrontier(g: Graph, x: BlockId, y: BlockId) {
    && y in g.pred
    && (exists p :: p in g.pred[y] && Dominates(g, x, p))
    && !StrictlyDominates(g, x, y)
  }

  // ----- paths -----

  lemma {:induction false} PathEnds(g: Graph, p: seq<BlockId>, x: BlockId, y: BlockId)
    requires WellFormed(g) && IsPath(g, p, x, y)
    ensures p[0] == x && p[|p| - 1] == y && x in p && y in p
    ensures forall v :: v in p ==> v in g.succ
  {
    if |p| > 1 {
      PathEnds(g, p[1..], p[1], y);
      assert p == [p[0]] + p[1..];
    }
  }

  lemma {:induction false} ConcatPaths(g: Graph, p: seq<BlockId>, q: seq<BlockId>, x: BlockId, a: BlockId, b: BlockId,
                                       y: BlockId)
    requires WellFormed(g) && IsPath(g, p, x, a) && Edge(g, a, b) && IsPath(g, q, b, y)
    ensures IsPath(g, p + q, x, y)
  {
    if |p| == 1 {
      assert (p + q)[1..] == q;
    } else {
      ConcatPaths(g, p[1..], q, p[1], a, b, y);
      assert (p + q)[1..] == p[1..] + q;
    }
  }

  /** Everything on a path can be reached by a prefix of it, which visits nothing else. */
  lemma {:induction false} PathPrefix(g: Graph, p: seq<BlockId>, x: BlockId, y: BlockId, v: BlockId)
    returns (q: seq<BlockId>)
    requires WellFormed(g) && IsPath(g, p, x, y) && v in p
    ensures IsPath(g, q, x, v)
    ensures forall u :: u in q ==> u in p
  {
    if p[0] == v {
      PathEnds(g, p, x, y);
      q := [v];
    } else {
      var q' := PathPrefix(g, p[1..], p[1], y, v);
      q := [x] + q';
      assert q[1..] == q';
      PathEnds(g, q', p[1], v);
      assert IsPath(g, q, x, v);
    }
  }

  lemma SingletonPath(g: Graph, x: BlockId)
    requires x in g.succ
    ensures IsPath(g, [x], x, x)
  {
  }

  // ----- dominance -----

  lemma EntryDominates(g: Graph, b: BlockId)
    requires WellFormed(g)
    ensures Dominates(g, g.entry, b)
  {
    forall q | IsPath(g, q, g.entry, b)
      ensures g.entry in q
    {
      PathEnds(g, q, g.entry, b);
    }
  }

  lemma DominatesReflexive(g: Graph, x: BlockId)
    requires WellFormed(g)
    ensures Dominates(g, x, x)
  {
    forall p | IsPath(g, p, g.entry, x)
      ensures x in p
    {
      PathEnds(g, p, g.entry, x);
    }
  }

  lemma DominatesTransitive(g: Graph, x: BlockId, y: BlockId, z: BlockId)
    requires WellFormed(g) && Dominates(g, x, y) && Dominates(g, y, z)
    ensures Dominates(g, x, z)
  {
    forall p | IsPath(g, p, g.entry, z)
      ensures x in p
    {
      var q := PathPrefix(g, p, g.entry, z, y);
      assert x in q;
    }
  }

  /** A dominator of a reachable block is itself a reachable block of the function. */
  lemma DominatorIsReachable(g: Graph, x: BlockId, y: BlockId)
    requires WellFormed(g) && Reachable(g, y) && Dominates(g, x, y)
    ensures x in g.succ && Reachable(g, x)
  {
    var p :| IsPath(g, p, g.entry, y);
    PathEnds(g, p, g.entry, y);
    var q := PathPrefix(g, p, g.entry, y, x);
  }

  /** Take a path to `y` that reaches `x` as late as possible: cut at the first visit of `y`. */
  lemma {:induction false} CutAtFirst(g: Graph, p: seq<BlockId>, x: BlockId, y: BlockId, v: BlockId)
    returns (q: seq<BlockId>)
    requires WellFormed(g) && IsPath(g, p, x, y) && v in p
    ensures IsPath(g, q, x, v)
    ensures v !in q[..|q| - 1]
    ensures |q| <= |p| && q == p[..|q|]
  {
    if p[0] == v {
      PathEnds(g, p, x, y);
      q := [v];
    } else {
      var q' := CutAtFirst(g, p[1..], p[1], y, v);
      q := [x] + q';
      assert q[1..] == q';
      PathEnds(g, q', p[1], v);
      assert q[..|q| - 1] == [x] + q'[..|q'| - 1];
    }
  }

  /** A strict dominator of `y` can be reached without visiting `y`. */
  lemma StrictDominatorComesFirst(g: Graph, x: BlockId, y: BlockId) returns (r: seq<BlockId>)
    requires WellFormed(g) && Reachable(g, y) && StrictlyDominates(g, x, y)
    ensures IsPath(g, r, g.entry, x) && y !in r
  {
    var p :| IsPath(g, p, g.entry, y);
    PathEnds(g, p, g.entry, y);
    var q := CutAtFirst(g, p, g.entry, y, y);
    r := CutAtFirst(g, q, g.entry, y, x);
    PathEnds(g, r, g.entry, x);
    PathEnds(g, q, g.entry, y);
    assert |r| < |q|;
    assert forall u :: u in r ==> u in q[..|q| - 1];
  }

  lemma DominatesAntisymmetric(g: Graph, x: BlockId, y: BlockId)
    requires WellFormed(g) && Reachable(g, y) && Dominates(g, x, y) && Dominates(g, y, x)
    ensures x == y
  {
    if x != y {
      var r := StrictDominatorComesFirst(g, x, y);
      assert false;
    }
  }

  /** A strict dominator of `s` dominates every predecessor of `s`. */
  lemma StrictDominatorOfPred(g: Graph, x: BlockId, b: BlockId, s: BlockId)
    requires WellFormed(g) && Edge(g, b, s) && StrictlyDominates(g, x, s)
    ensures Dominates(g, x, b)
  {
    forall p | IsPath(g, p, g.entry, b)
      ensures x in p
    {
      SingletonPath(g, s);
      ConcatPaths(g, p, [s], g.entry, b, s, s);
      assert x in p + [s];
    }
  }

  /** Conversely, what dominates every predecessor of a block other than the entry dominates the block. */
  lemma DominatesFromPreds(g: Graph, x: BlockId, s: BlockId)
    requires WellFormed(g) && s != g.entry
    requires forall b :: Edge(g, b, s) ==> Dominates(g, x, b)
    ensures Dominates(g, x, s)
  {
    forall p | IsPath(g, p, g.entry, s)
      ensures x in p
    {
      var q, b := DropLast(g, p, g.entry, s);
    }
  }

  lemma {:induction false} DropLast(g: Graph, p: seq<BlockId>, x: BlockId, y: BlockId)
    returns (q: seq<BlockId>, b: BlockId)
    requires WellFormed(g) && IsPath(g, p, x, y) && |p| > 1
    ensures IsPath(g, q, x, b) && Edge(g, b, y) && p == q + [y]
  {
    if |p| == 2 {
      q, b := [x], x;
      assert p[1..] == [y];
    } else {
      var q';
      q', b := DropLast(g, p[1..], p[1], y);
      q := [x] + q';
      assert q[1..] == q';
      PathEnds(g, q', p[1], b);
    }
  }

  /** Dominators of one block form a chain. */
  lemma DominatorsChain(g: Graph, x: BlockId, y: BlockId, z: BlockId)
    requires WellFormed(g) && Reachable(g, z) && Dominates(g, x, z) && Dominates(g, y, z)
    ensures Dominates(g, x, y) || Dominates(g, y, x)
  {
    if !Dominates(g, x, y) && !Dominates(g, y, x) {
      var px :| IsPath(g, px, g.entry, y) && x !in px;
      var py :| IsPath(g, py, g.entry, x) && y !in py;
      var p :| IsPath(g, p, g.entry, z);
      PathEnds(g, py, g.entry, x);
      PathEnds(g, px, g.entry, y);
      var q := AvoidOneOfTwo(g, px, py, p, x, y, z);
      assert false;
    }
  }

  /** Glue the part of `p` after its last visit of x or y to a path that reaches that block while
      avoiding the other one: the result avoids one of the two. */
  lemma {:induction false} AvoidOneOfTwo(g: Graph, px: seq<BlockId>, py: seq<BlockId>, p: seq<BlockId>, x: BlockId,
                                         y: BlockId, z: BlockId)
    returns (q: seq<BlockId>)
    requires WellFormed(g)
    requires IsPath(g, px, g.entry, y) && x !in px
    requires IsPath(g, py, g.entry, x) && y !in py
    requires |p| > 0 && IsPath(g, p, p[0], z) && (x in p || y in p)
    ensures IsPath(g, q, g.entry, z) && (x !in q || y !in q)
    decreases |p|
  {
    assert p == [p[0]] + p[1..];
    if |p| > 1 && (x in p[1..] || y in p[1..]) {
      q := AvoidOneOfTwo(g, px, py, p[1..], x, y, z);
    } else {
      var front := if p[0] == x then py else px;
      q := front + p[1..];
      if |p| > 1 {
        ConcatPaths(g, front, p[1..], g.entry, p[0], p[1], z);
      } else {
        assert q == front;
      }
    }
  }
}
