/** `ir::CFA`: depth-first numbering, semidominators, immediate dominators (semi-NCA), the dominator
    tree and the dominance frontiers. */
module ControlFlowAnalysis {
  import opened ControlFlowGraph
  import opened DepthFirstTree

  const SIZE_MAX: nat := 0xFFFF_FFFF_FFFF_FFFF

  /** The same graph with every block replaced by its depth-first number. */
  function Renumbered(g: Graph, ids: seq<BlockId>, num: map<BlockId, nat>): Graph
    requires forall i :: 0 <= i < |ids| ==> ids[i] in g.succ && ids[i] in g.pred
    requires forall i, s :: 0 <= i < |ids| && s in g.succ[ids[i]] ==> s in num
    requires forall i, s :: 0 <= i < |ids| && s in g.pred[ids[i]] ==> s in num
  {
    Graph(0,
          map i: nat | i < |ids| :: set s | s in g.succ[ids[i]] :: num[s],
          map i: nat | i < |ids| :: set p | p in g.pred[ids[i]] :: num[p])
  }

  ghost predicate Bijection(ids: seq<BlockId>, num: map<BlockId, nat>) {
    && (forall i :: 0 <= i < |ids| ==> ids[i] in num && num[ids[i]] == i)
    && (forall b :: b in num ==> num[b] < |ids| && ids[num[b]] == b)
  }

  /** `num` and `ids` number exactly the blocks of `g`, the entry first. */
  ghost predicate NumbersAll(g: Graph, ids: seq<BlockId>, num: map<BlockId, nat>) {
    && WellFormed(g)
    && Bijection(ids, num)
    && num.Keys == g.succ.Keys
    && |ids| > 0 && ids[0] == g.entry
  }

  /** `cs` lists the children of `i`: they partition the numbers from `lo` to `hi` into subtrees. */
  ghost predicate Children(t: Tree, i: nat, cs: seq<nat>, lo: nat, hi: nat) {
    && |t.father| == |t.last|
    && (forall a :: 0 <= a < |cs| ==> cs[a] < |t.last| && t.father[cs[a]] == i && i < cs[a])
    && (if |cs| == 0 then lo == hi else cs[0] == lo && t.last[cs[|cs| - 1]] == hi)
    && (forall a, b {:trigger cs[a], cs[b]} :: 0 <= a < b < |cs| && b == a + 1 ==> t.last[cs[a]] == cs[b])
  }

  /** `h` is `g` under the numbering. */
  ghost predicate IsRenumbering(g: Graph, ids: seq<BlockId>, num: map<BlockId, nat>, h: Graph) {
    && NumbersAll(g, ids, num)
    && WellFormed(h)
    && h.entry == 0
    && (forall v: nat :: v in h.succ <==> v < |ids|)
    && (forall a: nat, b: nat :: Edge(h, a, b) <==> a < |ids| && b < |ids| && Edge(g, ids[a], ids[b]))
  }

  // ----- facts about the numbering -----

  lemma RenumberingExists(g: Graph, ids: seq<BlockId>, num: map<BlockId, nat>) returns (h: Graph)
    requires NumbersAll(g, ids, num)
    ensures IsRenumbering(g, ids, num, h)
  {
    h := Renumbered(g, ids, num);
    forall a: nat, b: nat
      ensures Edge(h, a, b) <==> a < |ids| && b < |ids| && Edge(g, ids[a], ids[b])
      ensures a in h.succ && b in h.succ[a] ==> b in h.pred && a in h.pred[b]
      ensures b in h.pred && a in h.pred[b] ==> a in h.succ && b in h.succ[a]
    {
      if a < |ids| && b < |ids| && Edge(g, ids[a], ids[b]) {
        assert num[ids[b]] in h.succ[a];
        assert num[ids[a]] in h.pred[b];
      }
      if a in h.succ && b in h.succ[a] {
        var s :| s in g.succ[ids[a]] && num[s] == b;
        assert ids[b] == s;
      }
      if b in h.pred && a in h.pred[b] {
        var s :| s in g.pred[ids[b]] && num[s] == a;
        assert ids[a] == s;
      }
    }
  }

  ghost function Ids(ids: seq<BlockId>, p: seq<nat>): (r: seq<BlockId>)
    requires forall i :: 0 <= i < |p| ==> p[i] < |ids|
  {
    if p == [] then [] else [ids[p[0]]] + Ids(ids, p[1..])
  }

  ghost function Nums(num: map<BlockId, nat>, p: seq<BlockId>): (r: seq<nat>)
    requires forall i :: 0 <= i < |p| ==> p[i] in num
  {
    if p == [] then [] else [num[p[0]]] + Nums(num, p[1..])
  }

  lemma {:induction false} PathToIds(g: Graph, ids: seq<BlockId>, num: map<BlockId, nat>, h: Graph, p: seq<nat>, x: nat,
                                     y: nat)
    requires IsRenumbering(g, ids, num, h) && IsPath(h, p, x, y)
    ensures x < |ids| && y < |ids|
    ensures forall i :: 0 <= i < |p| ==> p[i] < |ids|
    ensures IsPath(g, Ids(ids, p), ids[x], ids[y])
    ensures forall b :: b in Ids(ids, p) ==> b in num && num[b] in p
  {
    PathEnds(h, p, x, y);
    if |p| > 1 {
      PathToIds(g, ids, num, h, p[1..], p[1], y);
      var q := Ids(ids, p[1..]);
      assert Ids(ids, p)[1..] == q;
      assert Edge(g, ids[x], ids[p[1]]);
    }
  }

  lemma {:induction false} PathToNums(g: Graph, ids: seq<BlockId>, num: map<BlockId, nat>, h: Graph, p: seq<BlockId>,
                                      x: BlockId, y: BlockId)
    requires IsRenumbering(g, ids, num, h) && IsPath(g, p, x, y)
    ensures x in num && y in num
    ensures forall i :: 0 <= i < |p| ==> p[i] in num
    ensures IsPath(h, Nums(num, p), num[x], num[y])
    ensures forall v :: v in Nums(num, p) ==> v < |ids| && ids[v] in p
  {
    PathEnds(g, p, x, y);
    if |p| > 1 {
      PathToNums(g, ids, num, h, p[1..], p[1], y);
      var q := Nums(num, p[1..]);
      assert Nums(num, p)[1..] == q;
      assert Edge(h, num[x], num[p[1]]);
    }
  }

  /** Dominance does not depend on the names of the blocks. */
  lemma DominanceTransfers(g: Graph, ids: seq<BlockId>, num: map<BlockId, nat>, h: Graph, x: BlockId, y: BlockId)
    requires IsRenumbering(g, ids, num, h) && x in num && y in num
    ensures Dominates(g, x, y) <==> Dominates(h, num[x], num[y])
  {
    if Dominates(g, x, y) {
      forall p | IsPath(h, p, h.entry, num[y])
        ensures num[x] in p
      {
        PathToIds(g, ids, num, h, p, h.entry, num[y]);
      }
    }
    if Dominates(h, num[x], num[y]) {
      forall p | IsPath(g, p, g.entry, y)
        ensures x in p
      {
        PathToNums(g, ids, num, h, p, g.entry, y);
      }
    }
  }

  lemma {:induction false} ClosedContainsPath(g: Graph, s: set<BlockId>, p: seq<BlockId>, x: BlockId, y: BlockId)
    requires IsPath(g, p, x, y) && x in s
    requires forall a, b :: a in s && Edge(g, a, b) ==> b in s
    ensures y in s
  {
    if |p| > 1 {
      ClosedContainsPath(g, s, p[1..], p[1], y);
    }
  }

  // ----- the state of the depth-first search -----

  /** A snapshot of the search: numbering, its inverse, children lists and tree. */
  datatype Search = Search(ids: seq<BlockId>, num: map<BlockId, nat>, kids: seq<seq<nat>>, t: Tree)

  ghost predicate Numbering(g: Graph, s: Search) {
    && |s.kids| == |s.ids| && |s.t.father| == |s.ids| && |s.t.last| == |s.ids|
    && Bijection(s.ids, s.num)
    && s.num.Keys <= g.succ.Keys
  }

  /** Node `i` is finished: its successors are numbered below the end of its subtree, and its
      children split the rest of the subtree. */
  ghost predicate FinishedNode(g: Graph, s: Search, i: nat)
    requires Numbering(g, s) && i < |s.ids| && WellFormed(g)
  {
    && i < s.t.last[i] <= |s.ids|
    && (forall b :: b in g.succ[s.ids[i]] ==> b in s.num && s.num[b] < s.t.last[i])
    && Children(s.t, i, s.kids[i], i + 1, s.t.last[i])
    && (forall j :: i < j < s.t.last[i] ==> i <= s.t.father[j])
  }

  /** Number `j` hangs below its father `f`, whose subtree is finished. */
  ghost predicate BelowFather(g: Graph, s: Search, j: nat)
    requires Numbering(g, s) && j < |s.ids|
  {
    var f := s.t.father[j];
    f < j && j < s.t.last[f] && s.t.last[j] <= s.t.last[f]
  }

  /** Everything numbered from `lo` on is finished and hangs below `k` or below another such number. */
  ghost predicate Finished(g: Graph, s: Search, k: nat, lo: nat)
    requires Numbering(g, s) && WellFormed(g)
  {
    forall i :: lo <= i < |s.ids| ==> NodeInPlace(g, s, k, i)
  }

  /** `s'` continues `s`: what was numbered before is as it was. */
  ghost predicate Extends(s: Search, s': Search) {
    && |s.ids| <= |s'.ids|
    && |s.kids| <= |s'.kids|
    && s.ids <= s'.ids
    && s.kids <= s'.kids
    && s.t.father <= s'.t.father
    && s.t.last <= s'.t.last
    && (forall b :: b in s.num ==> b in s'.num && s'.num[b] == s.num[b])
  }

  /** The result of a finished call of the search on block `curr` with father `fa`, begun in `s`. */
  ghost predicate SearchedFrom(g: Graph, s: Search, s': Search, curr: BlockId, fa: nat)
    requires WellFormed(g)
  {
    && Numbering(g, s) && Numbering(g, s')
    && Extends(s, s')
    && var k := |s.ids|;
      && k < |s'.ids|
      && s'.ids[k] == curr && s'.t.father[k] == fa && s'.t.last[k] == |s'.ids|
      && FinishedNode(g, s', k)
      && Finished(g, s', k, k + 1)
      && forall i :: k < i < |s'.ids| ==> BelowFather(g, s', i)
  }

  /** The state in the loop of a call whose own number is `k`: everything above `k` is finished. */
  ghost predicate Searching(g: Graph, s: Search, s': Search, curr: BlockId, fa: nat)
    requires WellFormed(g)
  {
    && Numbering(g, s) && Numbering(g, s')
    && Extends(s, s')
    && var k := |s.ids|;
      && k < |s'.ids|
      && s'.ids[k] == curr && s'.t.father[k] == fa
      && Finished(g, s', k, k + 1)
      && Children(s'.t, k, s'.kids[k], k + 1, |s'.ids|)
  }

  lemma FinishedNodeKept(g: Graph, s: Search, s': Search, i: nat, n: nat)
    requires WellFormed(g) && Numbering(g, s) && Numbering(g, s') && i < |s.ids| <= |s'.ids|
    requires FinishedNode(g, s, i)
    requires s.ids <= s'.ids && s.t.father <= s'.t.father && s.kids[i] == s'.kids[i]
    requires n <= i && s.t.last[n..] <= s'.t.last[n..]
    requires forall b :: b in s.num ==> b in s'.num && s'.num[b] == s.num[b]
    ensures FinishedNode(g, s', i)
  {
    assert forall j :: n <= j < |s.ids| ==> s'.t.last[j] == s.t.last[n..][j - n];
  }

  ghost predicate NodeInPlace(g: Graph, s: Search, k: nat, i: nat)
    requires Numbering(g, s) && WellFormed(g) && i < |s.ids|
  {
    && FinishedNode(g, s, i)
    && k <= s.t.father[i] < i
    && (k < s.t.father[i] ==> BelowFather(g, s, i))
    && Edge(g, s.ids[s.t.father[i]], s.ids[i])
  }

  lemma NodeInPlaceKept(g: Graph, s: Search, s': Search, k: nat, i: nat)
    requires WellFormed(g) && Numbering(g, s) && Numbering(g, s') && i < |s.ids|
    requires Extends(s, s'.(kids := s.kids)) && s.kids[i] == s'.kids[i] && NodeInPlace(g, s, k, i)
    ensures NodeInPlace(g, s', k, i)
  {
    FinishedNodeKept(g, s, s', i, 0);
    assert s'.t.father[i] == s.t.father[i];
  }

  lemma ChildSearchedNode(g: Graph, s: Search, s1: Search, s2: Search, s3: Search, curr: BlockId, fa: nat,
                          next: BlockId, i: nat)
    requires WellFormed(g) && Searching(g, s, s1, curr, fa)
    requires SearchedFrom(g, s1, s2, next, |s.ids|) && Edge(g, curr, next)
    requires s3 == s2.(kids := s2.kids[|s.ids| := s2.kids[|s.ids|] + [|s1.ids|]])
    requires |s.ids| < i < |s3.ids|
    ensures NodeInPlace(g, s3, |s.ids|, i)
  {
    var k, c := |s.ids|, |s1.ids|;
    if i < c {
      assert NodeInPlace(g, s1, k, i);
      NodeInPlaceKept(g, s1, s3, k, i);
    } else if i == c {
      FinishedNodeKept(g, s2, s3, i, 0);
      assert s3.ids[k] == s1.ids[k];
    } else {
      assert NodeInPlace(g, s2, c, i) && BelowFather(g, s2, i);
      FinishedNodeKept(g, s2, s3, i, 0);
      assert BelowFather(g, s3, i);
    }
  }

  /** One more child of `k` has been searched. */
  lemma ChildSearched(g: Graph, s: Search, s1: Search, s2: Search, s3: Search, curr: BlockId, fa: nat, next: BlockId)
    requires WellFormed(g) && Searching(g, s, s1, curr, fa)
    requires SearchedFrom(g, s1, s2, next, |s.ids|) && Edge(g, curr, next)
    requires s3 == s2.(kids := s2.kids[|s.ids| := s2.kids[|s.ids|] + [|s1.ids|]])
    ensures Searching(g, s, s3, curr, fa)
  {
    hide NodeInPlace, FinishedNode, BelowFather;
    var k := |s.ids|;
    forall i | k < i < |s3.ids|
      ensures NodeInPlace(g, s3, k, i)
    {
      ChildSearchedNode(g, s, s1, s2, s3, curr, fa, next, i);
    }
    ChildAdded(g, s1, s2, s3, k);
  }

  lemma ChildAdded(g: Graph, s1: Search, s2: Search, s3: Search, k: nat)
    requires WellFormed(g) && Numbering(g, s1) && Numbering(g, s2) && k < |s1.ids| && Extends(s1, s2)
    requires Children(s1.t, k, s1.kids[k], k + 1, |s1.ids|)
    requires |s1.ids| < |s2.ids| && s2.t.father[|s1.ids|] == k && s2.t.last[|s1.ids|] == |s2.ids|
    requires s3 == s2.(kids := s2.kids[k := s2.kids[k] + [|s1.ids|]])
    ensures Children(s3.t, k, s3.kids[k], k + 1, |s3.ids|)
  {
    assert s2.kids[k] == s1.kids[k];
  }

  /** Closing the loop: the end of the subtree of `k` is recorded. */
  lemma SearchCloses(g: Graph, s: Search, s1: Search, s2: Search, curr: BlockId, fa: nat)
    requires WellFormed(g) && Searching(g, s, s1, curr, fa) && curr in g.succ
    requires forall b :: b in g.succ[curr] ==> b in s1.num
    requires s2 == s1.(t := Tree(s1.t.father, s1.t.last[|s.ids| := |s1.ids|]))
    ensures SearchedFrom(g, s, s2, curr, fa)
  {
    var k := |s.ids|;
    forall i | k < i < |s2.ids|
      ensures NodeInPlace(g, s2, k, i) && BelowFather(g, s2, i)
    {
      assert NodeInPlace(g, s1, k, i);
      FinishedNodeKept(g, s1, s2, i, k + 1);
    }
    assert Children(s2.t, k, s2.kids[k], k + 1, |s2.ids|);
    forall j | k < j < |s2.ids|
      ensures k <= s2.t.father[j]
    {
      assert NodeInPlace(g, s2, k, j);
    }
  }

  /** Entering a block: it takes the next number. */
  lemma SearchOpens(g: Graph, s: Search, s1: Search, curr: BlockId, fa: nat)
    requires WellFormed(g) && Numbering(g, s) && curr in g.succ && curr !in s.num
    requires s1 == Search(s.ids + [curr], s.num[curr := |s.ids|], s.kids + [[]],
        Tree(s.t.father + [fa], s.t.last + [0]))
    ensures Searching(g, s, s1, curr, fa)
  {
  }

  lemma SearchingFacts(g: Graph, s: Search, s1: Search, curr: BlockId, fa: nat)
    requires WellFormed(g) && Searching(g, s, s1, curr, fa)
    ensures Numbering(g, s1) && |s.ids| < |s1.ids| == |s1.kids| == |s1.t.last|
    ensures s.num.Keys + {curr} <= s1.num.Keys
  {
    assert s1.ids[|s.ids|] == curr;
  }

  lemma SearchedFacts(g: Graph, s: Search, s1: Search, curr: BlockId, fa: nat)
    requires WellFormed(g) && SearchedFrom(g, s, s1, curr, fa)
    ensures Numbering(g, s1) && |s.ids| < |s1.ids| == |s1.kids|
    ensures s.num.Keys <= s1.num.Keys && curr in s1.num && s1.num[curr] == |s.ids|
  {
    assert s1.ids[|s.ids|] == curr;
  }

  lemma SuccessorIsBlock(g: Graph, b: BlockId, s: BlockId)
    requires WellFormed(g) && b in g.succ && s in g.succ[b]
    ensures s in g.succ && Edge(g, b, s)
  {
  }

  // ----- the finished search is a depth-first tree of the whole graph -----

  /** What the later phases need to know about the search and the renumbered graph `h`. */
  ghost predicate Searched(g: Graph, s: Search, h: Graph) {
    && IsRenumbering(g, s.ids, s.num, h)
    && IsDfsTree(h, s.t)
    && |s.kids| == |s.ids| == |s.t.last|
    && (forall i {:trigger s.kids[i]} :: 0 <= i < |s.kids| ==> Children(s.t, i, s.kids[i], i + 1, s.t.last[i]))
  }

  const NothingSearched := Search([], map[], [], Tree([], []))

  lemma SearchReachesAll(g: Graph, s: Search)
    requires WellFormed(g) && AllReachable(g) && SearchedFrom(g, NothingSearched, s, g.entry, 0)
    ensures NumbersAll(g, s.ids, s.num)
  {
    hide Finished, FinishedNode, NodeInPlace, BelowFather, Extends;
    forall a, b | a in s.num.Keys && Edge(g, a, b)
      ensures b in s.num.Keys
    {
      NodeFacts(g, s, s.num[a]);
    }
    forall b | b in g.succ
      ensures b in s.num
    {
      var p :| IsPath(g, p, g.entry, b);
      ClosedContainsPath(g, s.num.Keys, p, g.entry, b);
    }
  }

  lemma NodeFacts(g: Graph, s: Search, i: nat)
    requires WellFormed(g) && SearchedFrom(g, NothingSearched, s, g.entry, 0) && i < |s.ids|
    ensures i < s.t.last[i] <= |s.ids|
    ensures Children(s.t, i, s.kids[i], i + 1, s.t.last[i])
    ensures forall b :: b in g.succ[s.ids[i]] ==> b in s.num && s.num[b] < s.t.last[i]
    ensures i > 0 ==> s.t.father[i] < i && Edge(g, s.ids[s.t.father[i]], s.ids[i])
    ensures i > 0 ==> i < s.t.last[s.t.father[i]] && s.t.last[i] <= s.t.last[s.t.father[i]]
    ensures forall j :: i < j < s.t.last[i] ==> i <= s.t.father[j]
  {
    if i > 0 {
      assert NodeInPlace(g, s, 0, i) && BelowFather(g, s, i);
    }
  }

  lemma SearchTreeShape(g: Graph, s: Search)
    requires WellFormed(g) && SearchedFrom(g, NothingSearched, s, g.entry, 0)
    ensures TreeShape(s.t)
  {
    hide FinishedNode, NodeInPlace, BelowFather, Finished;
    forall v | 0 <= v < |s.ids|
      ensures v < s.t.last[v] <= |s.ids|
      ensures v > 0 ==> s.t.father[v] < v && v < s.t.last[s.t.father[v]] && s.t.last[v] <= s.t.last[s.t.father[v]]
    {
      NodeFacts(g, s, v);
    }
    forall i, j | 0 <= i < j < |s.ids| && j < s.t.last[i]
      ensures i <= s.t.father[j]
    {
      NodeFacts(g, s, i);
    }
  }

  lemma SearchGivesTree(g: Graph, s: Search, h: Graph)
    requires WellFormed(g) && SearchedFrom(g, NothingSearched, s, g.entry, 0)
    requires IsRenumbering(g, s.ids, s.num, h)
    ensures Searched(g, s, h)
  {
    hide FinishedNode, NodeInPlace, BelowFather, Finished, TreeShape, Children;
    SearchTreeShape(g, s);
    forall a: nat, b: nat | Edge(h, a, b)
      ensures b < s.t.last[a]
    {
      NodeFacts(g, s, a);
    }
    forall i | 0 <= i < |s.ids|
      ensures i > 0 ==> s.t.father[i] < i && Edge(h, s.t.father[i], i)
      ensures Children(s.t, i, s.kids[i], i + 1, s.t.last[i])
    {
      NodeFacts(g, s, i);
    }
  }

  ghost predicate SemidominatorsFrom(h: Graph, sdom: seq<nat>, from: nat) {
    forall i :: from <= i < |sdom| && i > 0 ==> IsSemidominator(h, sdom[i], i)
  }

  /** The minimum `m` covers every candidate that comes from predecessor `p` by climbing from `p`
      to numbers above `at`. */
  ghost predicate Covers(t: Tree, sdom: seq<nat>, m: nat, p: nat, at: nat) {
    && m <= p
    && forall u :: at < u < |sdom| && Ancestor(t, u, p) ==> m <= sdom[u]
  }

  ghost predicate IsCandidate(h: Graph, m: nat, w: nat) {
    m == SIZE_MAX || exists q :: SemiPath(h, m, q, w)
  }

  lemma MinimumIsSemidominator(g: Graph, s: Search, h: Graph, sdom: seq<nat>, m: nat, w: nat)
    requires Searched(g, s, h) && |sdom| == |s.ids| <= SIZE_MAX && 0 < w < |s.ids|
    requires SemidominatorsFrom(h, sdom, w + 1)
    requires IsCandidate(h, m, w)
    requires forall p: nat :: Edge(h, p, w) ==> Covers(s.t, sdom, m, p, w)
    ensures IsSemidominator(h, m, w)
  {
    assert Edge(h, s.t.father[w], w);
    forall v, q | SemiPath(h, v, q, w)
      ensures m <= v
    {
      if q == [] {
        assert Edge(h, v, w);
      } else {
        var u := CandidatesAreComplete(h, s.t, v, q, w);
        AncestorNests(s.t, u, q[|q| - 1]);
        assert IsSemidominator(h, sdom[u], u);
        assert Covers(s.t, sdom, m, q[|q| - 1], w);
      }
    }
  }

  lemma ClimbStep(t: Tree, sdom: seq<nat>, m: nat, m': nat, p: nat, at: nat)
    requires TreeShape(t) && |sdom| == |t.last| && 0 < at && Ancestor(t, at, p) && Covers(t, sdom, m, p, at)
    requires m' <= m && m' <= sdom[at]
    ensures t.father[at] < at && Ancestor(t, t.father[at], p)
    ensures Covers(t, sdom, m', p, t.father[at])
  {
    AncestorNests(t, at, p);
    forall u | t.father[at] < u < |sdom| && Ancestor(t, u, p)
      ensures m' <= sdom[u]
    {
    }
  }

  lemma SearchedShape(g: Graph, s: Search, h: Graph, i: nat)
    requires Searched(g, s, h) && i < |s.ids|
    ensures |s.ids| == |s.kids| == |s.t.father| == |s.t.last| && TreeShape(s.t) && IsDfsTree(h, s.t)
    ensures Children(s.t, i, s.kids[i], i + 1, s.t.last[i])
    ensures s.ids[i] in g.pred && (forall b :: b in g.pred[s.ids[i]] ==> b in s.num)
  {
  }

  lemma SearchedSizes(g: Graph, s: Search, h: Graph, i: nat)
    requires Searched(g, s, h) && i < |s.ids|
    ensures |s.ids| == |s.kids| == |s.t.father| == |s.t.last| && i < s.t.last[i] <= |s.ids|
    ensures i + 1 == if |s.kids[i]| == 0 then s.t.last[i] else s.kids[i][0]
  {
    assert Children(s.t, i, s.kids[i], i + 1, s.t.last[i]);
  }

  lemma ChildBounds(g: Graph, s: Search, h: Graph, i: nat, a: nat)
    requires Searched(g, s, h) && i < |s.ids| && a < |s.kids[i]|
    ensures i < s.kids[i][a] < |s.ids| && s.t.father[s.kids[i][a]] == i
    ensures s.t.last[s.kids[i][a]] == if a == |s.kids[i]| - 1 then s.t.last[i] else s.kids[i][a + 1]
    ensures s.t.last[s.kids[i][a]] - s.kids[i][a] < s.t.last[i] - i
  {
    assert Children(s.t, i, s.kids[i], i + 1, s.t.last[i]);
  }

  lemma NoCandidateYet(h: Graph, w: nat)
    ensures IsCandidate(h, SIZE_MAX, w)
  {
  }

  /** A predecessor itself is a candidate. */
  lemma EdgeCandidate(g: Graph, s: Search, h: Graph, b: BlockId, w: nat, m: nat)
    requires Searched(g, s, h) && w < |s.ids| && b in g.pred[s.ids[w]] && IsCandidate(h, m, w)
    ensures b in s.num && s.num[b] < |s.ids| && Edge(h, s.num[b], w)
    ensures IsCandidate(h, if s.num[b] < m then s.num[b] else m, w)
  {
    assert SemiPath(h, s.num[b], [], w);
  }

  /** So is the semidominator of a block on the climb. */
  lemma ClimbCandidate(g: Graph, s: Search, h: Graph, sdom: seq<nat>, m: nat, u: nat, p: nat, w: nat)
    requires Searched(g, s, h) && |sdom| == |s.ids| && SemidominatorsFrom(h, sdom, w + 1)
    requires Edge(h, p, w) && w < u < |s.ids| && Ancestor(s.t, u, p) && IsCandidate(h, m, w)
    ensures IsCandidate(h, if sdom[u] < m then sdom[u] else m, w)
  {
    CandidateIsSound(h, s.t, sdom[u], u, p, w);
  }

  lemma CoversItself(g: Graph, s: Search, h: Graph, sdom: seq<nat>, m: nat, p: nat)
    requires Searched(g, s, h) && p < |s.ids| && m <= p
    ensures Covers(s.t, sdom, m, p, p) && Ancestor(s.t, p, p)
  {
    assert TreeShape(s.t);
  }

  lemma CoversMore(t: Tree, sdom: seq<nat>, m: nat, m': nat, p: nat, at: nat, at': nat)
    requires Covers(t, sdom, m, p, at) && m' <= m && at <= at'
    ensures Covers(t, sdom, m', p, at')
  {
  }

  lemma SemidominatorStored(g: Graph, s: Search, h: Graph, sdom: seq<nat>, m: nat, w: nat)
    requires Searched(g, s, h) && |sdom| == |s.ids| <= SIZE_MAX && w < |s.ids|
    requires SemidominatorsFrom(h, sdom, w + 1) && IsCandidate(h, m, w)
    requires forall b :: b in g.pred[s.ids[w]] ==> Covers(s.t, sdom, m, s.num[b], w)
    ensures SemidominatorsFrom(h, sdom[w := m], w)
  {
    if w > 0 {
      forall p: nat | Edge(h, p, w)
        ensures Covers(s.t, sdom, m, p, w)
      {
        assert Edge(g, s.ids[p], s.ids[w]);
      }
      MinimumIsSemidominator(g, s, h, sdom, m, w);
    }
  }

  // ----- immediate dominators -----

  ghost predicate ImmediateBelow(h: Graph, dfsIdom: seq<nat>, to: nat) {
    && (to > 0 && |dfsIdom| > 0 ==> dfsIdom[0] == 0)
    && (forall i :: 0 < i < to && i < |dfsIdom| ==> IsImmediateDominator(h, dfsIdom[i], i))
  }

  /** The climb for `w` stands at `x`: a dominator of the father of `w`, with no dominator of the
      father that is at most `s` left behind. */
  ghost predicate ClimbsTo(h: Graph, f: nat, s: nat, x: nat) {
    && Dominates(h, x, f)
    && forall y: nat :: Dominates(h, y, f) && y <= s ==> Dominates(h, y, x)
  }

  lemma IdomClimbStarts(g: Graph, s: Search, h: Graph, sd: nat, f: nat)
    requires Searched(g, s, h)
    ensures ClimbsTo(h, f, sd, f)
  {
    DominatesReflexive(h, f);
  }

  lemma IdomClimbStep(g: Graph, s: Search, h: Graph, dfsIdom: seq<nat>, f: nat, sd: nat, x: nat)
    requires Searched(g, s, h) && |dfsIdom| == |s.ids|
    requires ImmediateBelow(h, dfsIdom, x + 1) && ClimbsTo(h, f, sd, x) && sd < x < |s.ids|
    ensures dfsIdom[x] < x && ClimbsTo(h, f, sd, dfsIdom[x])
  {
    var d := dfsIdom[x];
    assert IsImmediateDominator(h, d, x);
    DominatorIsAncestor(h, s.t, d, x);
    DominatesTransitive(h, d, x, f);
    forall y: nat | Dominates(h, y, f) && y <= sd
      ensures Dominates(h, y, d)
    {
      assert StrictlyDominates(h, y, x);
    }
  }

  lemma IdomClimbEnds(g: Graph, s: Search, h: Graph, sd: nat, x: nat, w: nat)
    requires Searched(g, s, h) && 0 < w < |s.ids| && IsSemidominator(h, sd, w)
    requires ClimbsTo(h, s.t.father[w], sd, x) && x <= sd
    ensures IsImmediateDominator(h, x, w)
  {
    StrictDominatorsOf(h, s.t, x, sd, w);
    DominatorIsAncestor(h, s.t, x, w);
    forall y: nat | StrictlyDominates(h, y, w)
      ensures Dominates(h, y, x)
    {
      StrictDominatorsOf(h, s.t, y, sd, w);
    }
  }

  lemma SemidominatorAt(h: Graph, sdom: seq<nat>, w: nat)
    requires SemidominatorsFrom(h, sdom, 0) && 0 < w < |sdom|
    ensures IsSemidominator(h, sdom[w], w)
  {
  }

  lemma ImmediateExtended(h: Graph, dfsIdom: seq<nat>, dfsIdom': seq<nat>, w: nat)
    requires ImmediateBelow(h, dfsIdom, w) && |dfsIdom| == |dfsIdom'| && w < |dfsIdom|
    requires dfsIdom[..w] == dfsIdom'[..w]
    requires if w == 0 then dfsIdom'[0] == 0 else IsImmediateDominator(h, dfsIdom'[w], w)
    ensures ImmediateBelow(h, dfsIdom', w + 1)
  {
    forall i | 0 < i < w + 1
      ensures IsImmediateDominator(h, dfsIdom'[i], i)
    {
      if i < w {
        assert dfsIdom'[i] == dfsIdom[..w][i];
      }
    }
    if w > 0 {
      assert dfsIdom'[0] == dfsIdom[..w][0];
    }
  }

  lemma ImmediateKept(h: Graph, dfsIdom: seq<nat>, dfsIdom': seq<nat>, w: nat, to: nat)
    requires ImmediateBelow(h, dfsIdom, w) && |dfsIdom| == |dfsIdom'| && to <= w <= |dfsIdom|
    requires dfsIdom[..w] == dfsIdom'[..w]
    ensures ImmediateBelow(h, dfsIdom', to)
  {
    forall i | 0 <= i < to
      ensures dfsIdom'[i] == dfsIdom[i]
    {
      assert dfsIdom'[i] == dfsIdom[..w][i];
    }
  }

  function Reversed(cs: seq<nat>): (r: seq<nat>)
    ensures |r| == |cs| && forall i :: 0 <= i < |cs| ==> r[i] == cs[|cs| - 1 - i]
  {
    if cs == [] then [] else Reversed(cs[1..]) + [cs[0]]
  }

  // ----- results in terms of blocks -----

  /** Every block other than the entry has its immediate dominator; the entry has itself. */
  ghost predicate IdomsCorrect(g: Graph, idom: map<BlockId, BlockId>) {
    && idom.Keys == g.succ.Keys
    && g.entry in idom && idom[g.entry] == g.entry
    && (forall b :: b in idom && b != g.entry ==> IsImmediateDominator(g, idom[b], b))
  }

  /** Climbing the dominator tree goes to smaller numbers. */
  ghost predicate IdomsDescend(g: Graph, idom: map<BlockId, BlockId>, num: map<BlockId, nat>) {
    && num.Keys == idom.Keys
    && (forall b :: b in idom && b != g.entry ==> idom[b] in num && num[idom[b]] < num[b])
  }

  /** The dominator tree lists every block other than the entry once, below its immediate dominator. */
  ghost predicate DomTreeCorrect(g: Graph, idom: map<BlockId, BlockId>, domTree: map<BlockId, seq<BlockId>>) {
    && domTree.Keys <= idom.Keys
    && (forall v, i :: v in domTree && 0 <= i < |domTree[v]| ==>
          domTree[v][i] in idom && domTree[v][i] != g.entry && idom[domTree[v][i]] == v)
    && (forall v, i, j :: v in domTree && 0 <= i < j < |domTree[v]| ==> domTree[v][i] != domTree[v][j])
    && (forall u :: u in idom && u != g.entry ==> idom[u] in domTree && u in domTree[idom[u]])
  }

  function Frontier(dfSet: map<BlockId, set<BlockId>>, x: BlockId): set<BlockId> {
    if x in dfSet then dfSet[x] else {}
  }

  ghost predicate FrontierExactAt(g: Graph, dfSet: map<BlockId, set<BlockId>>, y: BlockId) {
    forall x :: y in Frontier(dfSet, x) <==> InFrontier(g, x, y)
  }

  lemma BijectionSize(ids: seq<BlockId>, num: map<BlockId, nat>)
    requires Bijection(ids, num)
    ensures |ids| == |num.Keys|
    decreases |ids|
  {
    if |ids| == 0 {
      assert num.Keys == {};
    } else {
      var b := ids[|ids| - 1];
      var num' := map x | x in num && x != b :: num[x];
      assert num.Keys == num'.Keys + {b};
      BijectionSize(ids[..|ids| - 1], num');
    }
  }

  /** From numbers back to blocks. */
  lemma IdomsTransfer(g: Graph, s: Search, h: Graph, dfsIdom: seq<nat>, idom: map<BlockId, BlockId>)
    requires Searched(g, s, h) && |dfsIdom| == |s.ids| && ImmediateBelow(h, dfsIdom, |s.ids|)
    requires forall i :: 0 <= i < |s.ids| ==> dfsIdom[i] < |s.ids|
    requires idom.Keys == s.num.Keys
    requires forall i :: 0 <= i < |s.ids| ==> idom[s.ids[i]] == s.ids[dfsIdom[i]]
    ensures IdomsCorrect(g, idom) && IdomsDescend(g, idom, s.num)
  {
    assert idom[s.ids[0]] == s.ids[dfsIdom[0]];
    forall b | b in idom && b != g.entry
      ensures IsImmediateDominator(g, idom[b], b)
      ensures idom[b] in s.num && s.num[idom[b]] < s.num[b]
    {
      IdomTransfers(g, s, h, dfsIdom[s.num[b]], s.num[b]);
    }
  }

  lemma IdomTransfers(g: Graph, s: Search, h: Graph, d: nat, i: nat)
    requires Searched(g, s, h) && 0 < i < |s.ids| && IsImmediateDominator(h, d, i)
    ensures d < i && IsImmediateDominator(g, s.ids[d], s.ids[i])
  {
    DominatorIsAncestor(h, s.t, d, i);
    DominanceTransfers(g, s.ids, s.num, h, s.ids[d], s.ids[i]);
    var p := TreePath(h, s.t, 0, i);
    PathToIds(g, s.ids, s.num, h, p, 0, i);
    forall x | StrictlyDominates(g, x, s.ids[i])
      ensures Dominates(g, x, s.ids[d])
    {
      DominatorIsReachable(g, x, s.ids[i]);
      DominanceTransfers(g, s.ids, s.num, h, x, s.ids[i]);
      DominanceTransfers(g, s.ids, s.num, h, x, s.ids[d]);
    }
  }

  // ----- dominance frontiers -----

  lemma IdomStrict(g: Graph, idom: map<BlockId, BlockId>, x: BlockId, b: BlockId)
    requires WellFormed(g) && IdomsCorrect(g, idom) && b in idom && b != g.entry
    ensures StrictlyDominates(g, x, b) <==> Dominates(g, x, idom[b]) && x != b
    ensures Reachable(g, b) && x == b ==> !Dominates(g, x, idom[b])
  {
    var d := idom[b];
    assert IsImmediateDominator(g, d, b);
    if Dominates(g, x, d) {
      DominatesTransitive(g, x, d, b);
    }
    if Reachable(g, b) && Dominates(g, b, d) {
      DominatesAntisymmetric(g, d, b);
    }
  }

  lemma OnlyEntryDominatesEntry(g: Graph, x: BlockId)
    requires WellFormed(g) && Dominates(g, x, g.entry)
    ensures x == g.entry
  {
    SingletonPath(g, g.entry);
    assert x in [g.entry];
  }

  /** What the climb from predecessor `p` adds to the frontiers while it stands at `r`. */
  ghost predicate PassedFrom(g: Graph, p: BlockId, r: BlockId, x: BlockId) {
    Dominates(g, x, p) && !Dominates(g, x, r)
  }

  lemma PassedStep(g: Graph, idom: map<BlockId, BlockId>, p: BlockId, r: BlockId, x: BlockId)
    requires WellFormed(g) && IdomsCorrect(g, idom) && r in idom && r != g.entry && Reachable(g, r)
    requires Dominates(g, r, p)
    ensures PassedFrom(g, p, idom[r], x) <==> PassedFrom(g, p, r, x) || x == r
  {
    IdomStrict(g, idom, x, r);
    if Dominates(g, x, r) && x != r {
      assert Dominates(g, x, idom[r]);
    }
    if Dominates(g, x, idom[r]) {
      DominatesTransitive(g, x, idom[r], r) by { assert IsImmediateDominator(g, idom[r], r); }
    }
    DominatesReflexive(g, r);
  }

  /** The climb from predecessor `p` of `y` stands at `r`. */
  ghost predicate ClimbAt(g: Graph, idom: map<BlockId, BlockId>, y: BlockId, p: BlockId, r: BlockId) {
    && y in idom && r in g.succ && Dominates(g, r, p) && Dominates(g, idom[y], r)
  }

  lemma ClimbFacts(g: Graph, idom: map<BlockId, BlockId>, y: BlockId, p: BlockId)
    requires WellFormed(g) && AllReachable(g) && IdomsCorrect(g, idom) && Edge(g, p, y)
    ensures ClimbAt(g, idom, y, p, p)
    ensures forall x :: !PassedFrom(g, p, p, x)
  {
    EdgeKnown(g, idom, y, p);
    hide IdomsCorrect, AllReachable, WellFormed, Edge, Dominates;
    DominatesReflexive(g, p);
    if y == g.entry {
      EntryDominates(g, p);
    } else {
      StrictDominatorOfPred(g, idom[y], p, y);
    }
  }

  lemma EdgeKnown(g: Graph, idom: map<BlockId, BlockId>, y: BlockId, p: BlockId)
    requires WellFormed(g) && IdomsCorrect(g, idom) && Edge(g, p, y)
    ensures y in idom && p in g.succ
    ensures if y == g.entry then idom[y] == g.entry else StrictlyDominates(g, idom[y], y)
  {
    EdgeEnds(g, p, y);
    hide WellFormed, Edge, Dominates;
    assert y in idom.Keys;
    assert y != g.entry ==> IsImmediateDominator(g, idom[y], y);
  }

  lemma EdgeEnds(g: Graph, p: BlockId, y: BlockId)
    requires WellFormed(g) && Edge(g, p, y)
    ensures p in g.succ && y in g.succ
  {
    assert y in g.pred.Keys;
  }

  lemma ClimbFactsStep(g: Graph, idom: map<BlockId, BlockId>, num: map<BlockId, nat>, y: BlockId, p: BlockId,
                       r: BlockId)
    requires WellFormed(g) && AllReachable(g) && IdomsCorrect(g, idom) && IdomsDescend(g, idom, num)
    requires ClimbAt(g, idom, y, p, r) && r != idom[y]
    ensures r in idom && r in num && idom[r] in num && num[idom[r]] < num[r]
    ensures ClimbAt(g, idom, y, p, idom[r])
    ensures forall x :: PassedFrom(g, p, idom[r], x) <==> PassedFrom(g, p, r, x) || x == r
  {
    if r == g.entry {
      OnlyEntryDominatesEntry(g, idom[y]);
    }
    assert IsImmediateDominator(g, idom[r], r);
    DominatesTransitive(g, idom[r], r, p);
    assert StrictlyDominates(g, idom[y], r);
    forall x
      ensures PassedFrom(g, p, idom[r], x) <==> PassedFrom(g, p, r, x) || x == r
    {
      PassedStep(g, idom, p, r, x);
    }
  }

  /** The frontiers hold exactly what the climbs from the predecessors of `y` passed. */
  ghost predicate FrontierResult(g: Graph, idom: map<BlockId, BlockId>, dfSet: map<BlockId, set<BlockId>>, y: BlockId) {
    && y in idom && y in g.pred
    && forall x :: y in Frontier(dfSet, x) <==> |g.pred[y]| > 1 && exists p ::
        p in g.pred[y]
        && PassedFrom(g, p, idom[y], x)
  }

  lemma FrontierResultKept(g: Graph, idom: map<BlockId, BlockId>, dfSet: map<BlockId, set<BlockId>>,
                           dfSet': map<BlockId, set<BlockId>>, y: BlockId)
    requires FrontierResult(g, idom, dfSet, y)
    requires forall x :: y in Frontier(dfSet', x) <==> y in Frontier(dfSet, x)
    ensures FrontierResult(g, idom, dfSet', y)
  {
  }

  /** A single predecessor puts no block into a frontier. */
  lemma NoFrontierOfSinglePred(g: Graph, x: BlockId, y: BlockId)
    requires WellFormed(g) && AllReachable(g) && y in g.succ && y != g.entry && |g.pred[y]| <= 1
    ensures !InFrontier(g, x, y)
  {
    if InFrontier(g, x, y) {
      var p :| p in g.pred[y] && Dominates(g, x, p);
      SingleElement(g.pred[y], p);
      assert forall b :: Edge(g, b, y) ==> b == p;
      if x != y {
        DominatesFromPreds(g, x, y);
        assert false;
      } else {
        var q :| IsPath(g, q, g.entry, y);
        PathEnds(g, q, g.entry, y);
        var r := CutAtFirst(g, q, g.entry, y, y);
        var r', b := DropLast(g, r, g.entry, y);
        assert false;
      }
    }
  }

  lemma SingleElement(s: set<BlockId>, p: BlockId)
    requires p in s && |s| <= 1
    ensures s == {p}
  {
    assert |s - {p}| == |s| - 1;
  }

  lemma FrontierOfBlock(g: Graph, idom: map<BlockId, BlockId>, dfSet: map<BlockId, set<BlockId>>, y: BlockId)
    requires WellFormed(g) && AllReachable(g) && IdomsCorrect(g, idom) && y != g.entry
    requires FrontierResult(g, idom, dfSet, y)
    ensures FrontierExactAt(g, dfSet, y)
  {
    forall x
      ensures y in Frontier(dfSet, x) <==> InFrontier(g, x, y)
    {
      IdomStrict(g, idom, x, y);
      if |g.pred[y]| <= 1 {
        NoFrontierOfSinglePred(g, x, y);
      } else {
        assert Dominates(g, x, idom[y]) <==> StrictlyDominates(g, x, y);
      }
    }
  }

  lemma FrontierOfEntry(g: Graph, idom: map<BlockId, BlockId>, dfSet: map<BlockId, set<BlockId>>, x: BlockId)
    requires WellFormed(g) && IdomsCorrect(g, idom) && FrontierResult(g, idom, dfSet, g.entry)
    ensures g.entry in Frontier(dfSet, x) <==> |g.pred[g.entry]| > 1 && x != g.entry && InFrontier(g, x, g.entry)
  {
    if Dominates(g, x, g.entry) {
      OnlyEntryDominatesEntry(g, x);
    }
    DominatesReflexive(g, g.entry);
  }

  lemma FrontierResults(g: Graph, idom: map<BlockId, BlockId>, dfSet: map<BlockId, set<BlockId>>, ids: seq<BlockId>,
                        num: map<BlockId, nat>)
    requires WellFormed(g) && AllReachable(g) && IdomsCorrect(g, idom)
    requires Bijection(ids, num) && num.Keys == g.succ.Keys
    requires forall j :: 0 <= j < |ids| ==> FrontierResult(g, idom, dfSet, ids[j])
    ensures forall y :: y in g.succ && y != g.entry ==> FrontierExactAt(g, dfSet, y)
    ensures forall x :: g.entry in Frontier(dfSet, x) <==>
        |g.pred[g.entry]| > 1 && x != g.entry
        && InFrontier(g, x, g.entry)
  {
    hide FrontierResult, FrontierExactAt, InFrontier, Dominates;
    forall y | y in g.succ
      ensures FrontierResult(g, idom, dfSet, y)
    {
      assert ids[num[y]] == y;
    }
    forall y | y in g.succ && y != g.entry
      ensures FrontierExactAt(g, dfSet, y)
    {
      FrontierOfBlock(g, idom, dfSet, y);
    }
    forall x
      ensures g.entry in Frontier(dfSet, x) <==> |g.pred[g.entry]| > 1 && x != g.entry && InFrontier(g, x, g.entry)
    {
      FrontierOfEntry(g, idom, dfSet, x);
    }
  }

  /** The frontier computation is exact on every block if and only if the entry has no predecessor:
      a loop back to the entry puts the entry into its own frontier, which the climb never adds. */
  lemma FrontiersExactIffEntryHasNoPreds(g: Graph, dfSet: map<BlockId, set<BlockId>>)
    requires WellFormed(g) && AllReachable(g)
    requires forall y :: y in g.succ && y != g.entry ==> FrontierExactAt(g, dfSet, y)
    requires forall x :: g.entry in Frontier(dfSet, x) <==>
        |g.pred[g.entry]| > 1 && x != g.entry
        && InFrontier(g, x, g.entry)
    ensures (forall y :: y in g.succ ==> FrontierExactAt(g, dfSet, y)) <==> g.pred[g.entry] == {}
  {
    if g.pred[g.entry] == {} {
      assert FrontierExactAt(g, dfSet, g.entry);
    } else {
      var p :| p in g.pred[g.entry];
      forall q | IsPath(g, q, g.entry, p)
        ensures g.entry in q
      {
        PathEnds(g, q, g.entry, p);
      }
      assert InFrontier(g, g.entry, g.entry);
      assert !FrontierExactAt(g, dfSet, g.entry);
    }
  }

  // ----- small facts the driver uses -----

  lemma RootFacts(g: Graph, s: Search, h: Graph)
    requires Searched(g, s, h)
    ensures |s.ids| > 0 && |s.t.last| == |s.ids| && s.t.last[0] == |s.ids| && s.ids[0] == g.entry
  {
  }

  lemma EmptySearch(g: Graph)
    requires WellFormed(g)
    ensures Numbering(g, NothingSearched) && g.entry in g.succ
  {
  }

  lemma SearchComplete(g: Graph, s: Search) returns (h: Graph)
    requires WellFormed(g) && AllReachable(g) && SearchedFrom(g, NothingSearched, s, g.entry, 0)
    ensures Searched(g, s, h) && |s.ids| == |g.succ|
  {
    hide SearchedFrom, Searched, IsRenumbering, WellFormed, AllReachable, Bijection;
    SearchReachesAll(g, s);
    h := RenumberingExists(g, s.ids, s.num);
    SearchGivesTree(g, s, h);
    BijectionSize(s.ids, s.num);
    assert |s.num.Keys| == |g.succ|;
  }

  /** The dominator tree after the pairs of `done`. */
  ghost predicate DomTreeUpTo(g: Graph, idom: map<BlockId, BlockId>, domTree: map<BlockId, seq<BlockId>>,
                              done: set<BlockId>) {
    && domTree.Keys <= idom.Keys
    && (forall v, i :: v in domTree && 0 <= i < |domTree[v]| ==>
          domTree[v][i] in idom && domTree[v][i] in done && domTree[v][i] != g.entry && idom[domTree[v][i]] == v)
    && (forall v, i, j :: v in domTree && 0 <= i < j < |domTree[v]| ==> domTree[v][i] != domTree[v][j])
    && (forall u :: u in done && u in idom && u != g.entry ==> idom[u] in domTree && u in domTree[idom[u]])
  }

  lemma DomTreeStarts(g: Graph, idom: map<BlockId, BlockId>)
    ensures DomTreeUpTo(g, idom, map[], {})
  {
  }

  lemma DomTreeEnds(g: Graph, idom: map<BlockId, BlockId>, domTree: map<BlockId, seq<BlockId>>)
    requires DomTreeUpTo(g, idom, domTree, idom.Keys)
    ensures DomTreeCorrect(g, idom, domTree)
  {
  }

  lemma DomTreeStep(g: Graph, idom: map<BlockId, BlockId>, domTree: map<BlockId, seq<BlockId>>, done: set<BlockId>,
                    u: BlockId)
    requires IdomsCorrect(g, idom) && DomTreeUpTo(g, idom, domTree, done) && u in idom && u !in done
    ensures u == idom[u] ==> DomTreeUpTo(g, idom, domTree, done + {u})
    ensures u != idom[u] ==>
              DomTreeUpTo(g, idom, domTree[idom[u] := (if idom[u] in domTree then domTree[idom[u]] else []) + [u]],
                  done + {u})
  {
    var v := idom[u];
    if u == v {
      assert u == g.entry || IsImmediateDominator(g, v, u);
    } else {
      assert u != g.entry && IsImmediateDominator(g, v, u);
      var kids := if v in domTree then domTree[v] else [];
      var domTree' := domTree[v := kids + [u]];
      assert domTree'[v][|kids|] == u;
      forall w | w in done && w in idom && w != g.entry
        ensures idom[w] in domTree' && w in domTree'[idom[w]]
      {
        if idom[w] == v {
          assert w in kids;
        }
      }
    }
  }

  lemma NoFrontiers()
    ensures forall x :: Frontier(map[], x) == {}
  {
  }

  lemma NumberedBlock(g: Graph, ids: seq<BlockId>, num: map<BlockId, nat>, i: nat)
    requires WellFormed(g) && Bijection(ids, num) && num.Keys == g.succ.Keys && i < |ids|
    ensures ids[i] in g.pred && ids[i] in g.succ && ids[i] in num && num[ids[i]] == i
  {
  }

  lemma NumbersAreBlocks(g: Graph, ids: seq<BlockId>, num: map<BlockId, nat>)
    requires Bijection(ids, num) && num.Keys == g.succ.Keys
    ensures forall b :: b in num ==> num[b] < |ids| && b in g.succ
  {
  }

  lemma NothingComputed(h: Graph, v: seq<nat>)
    ensures SemidominatorsFrom(h, v, |v|) && ImmediateBelow(h, v, 0)
  {
  }

  lemma ImmediateInRange(g: Graph, s: Search, h: Graph, dfsIdom: seq<nat>)
    requires Searched(g, s, h) && |dfsIdom| == |s.ids| && ImmediateBelow(h, dfsIdom, |s.ids|)
    ensures forall i :: 0 <= i < |s.ids| ==> dfsIdom[i] < |s.ids|
  {
    forall i | 0 < i < |s.ids|
      ensures dfsIdom[i] < |s.ids|
    {
      assert IsImmediateDominator(h, dfsIdom[i], i);
    }
  }

  lemma NumberedOnce(g: Graph, s: Search, h: Graph, i: nat)
    requires Searched(g, s, h) && i < |s.ids|
    ensures forall j :: 0 <= j < i ==> s.ids[j] != s.ids[i]
  {
    assert s.num[s.ids[i]] == i;
  }

  lemma NumberedBlocks(g: Graph, s: Search, h: Graph)
    requires Searched(g, s, h)
    ensures Bijection(s.ids, s.num) && s.num.Keys == g.succ.Keys
    ensures s.num.Keys == set j | 0 <= j < |s.ids| :: s.ids[j]
  {
    forall b | b in s.num
      ensures b in set j | 0 <= j < |s.ids| :: s.ids[j]
    {
      assert s.ids[s.num[b]] == b;
    }
  }

  class Cfa {
    var sdom: seq<nat>
    var dfs2id: seq<BlockId>
    var id2dfs: map<BlockId, nat>
    var dfsTree: seq<seq<nat>>
    var father: seq<nat>
    var dfsIdom: seq<nat>
    var dfsNumber: nat
    var idom: map<BlockId, BlockId>
    var dfSet: map<BlockId, set<BlockId>>
    var domTree: map<BlockId, seq<BlockId>>
    ghost var last: seq<nat>

    constructor () {
      sdom, dfs2id, id2dfs, dfsTree, father, dfsIdom, dfsNumber := [], [], map[], [], [], [], 0;
      idom, dfSet, domTree := map[], map[], map[];
      last := [];
    }

    ghost function State(): Search
      reads this
    {
      Search(dfs2id, id2dfs, dfsTree, Tree(father, last))
    }

    method Dfs(g: Graph, curr: BlockId, fa: nat) returns (dfsId: nat)
      requires WellFormed(g) && Numbering(g, State()) && dfsNumber == |dfs2id|
      requires curr in g.succ && curr !in id2dfs
      modifies this`dfsNumber, this`dfs2id, this`id2dfs, this`dfsTree, this`father, this`last
      ensures SearchedFrom(g, old(State()), State(), curr, fa)
      ensures dfsId == old(dfsNumber) && dfsNumber == |dfs2id|
      decreases g.succ.Keys - id2dfs.Keys
    {
      hide Searching, SearchedFrom, WellFormed;
      ghost var s := State();
      dfsId := dfsNumber;
      dfsNumber := dfsNumber + 1;
      dfs2id := dfs2id + [curr];
      id2dfs := id2dfs[curr := dfsId];
      dfsTree := dfsTree + [[]];
      father := father + [fa];
      last := last + [0];
      SearchOpens(g, s, State(), curr, fa);
      hide Numbering;
      var rest := g.succ[curr];
      while rest != {}
        invariant rest <= g.succ[curr]
        invariant Searching(g, s, State(), curr, fa) && dfsNumber == |dfs2id|
        invariant forall b :: b in g.succ[curr] - rest ==> b in id2dfs
        decreases rest
      {
        var next :| next in rest;
        rest := rest - {next};
        SearchingFacts(g, s, State(), curr, fa);
        if next !in id2dfs {
          ghost var s1 := State();
          SuccessorIsBlock(g, curr, next);
          var c := Dfs(g, next, dfsId);
          ghost var s2 := State();
          SearchedFacts(g, s1, s2, next, dfsId);
          dfsTree := dfsTree[dfsId := dfsTree[dfsId] + [id2dfs[next]]];
          ChildSearched(g, s, s1, s2, State(), curr, fa, next);
        }
      }
      ghost var s1 := State();
      SearchingFacts(g, s, s1, curr, fa);
      last := last[dfsId := dfsNumber];
      SearchCloses(g, s, s1, State(), curr, fa);
    }

    /** The body of the loop over the predecessors in `GenSdom`: one predecessor `b` and the climb from it. */
    method Climb(g: Graph, b: BlockId, curr: nat, m: nat, ghost h: Graph) returns (currSdom: nat)
      requires Searched(g, State(), h) && |dfs2id| <= SIZE_MAX && |sdom| == |dfs2id|
      requires curr < |dfs2id| && b in g.pred[dfs2id[curr]]
      requires SemidominatorsFrom(h, sdom, curr + 1) && IsCandidate(h, m, curr)
      ensures currSdom <= m && IsCandidate(h, currSdom, curr)
      ensures b in id2dfs && Covers(Tree(father, last), sdom, currSdom, id2dfs[b], curr)
    {
      hide Searched, SemidominatorsFrom, Covers, IsCandidate, IsSemidominator, Ancestor;
      ghost var t := Tree(father, last);
      SearchedShape(g, State(), h, curr);
      EdgeCandidate(g, State(), h, b, curr, m);
      var pred: nat := id2dfs[b];
      ghost var p := pred;
      currSdom := if pred < m then pred else m;
      CoversItself(g, State(), h, sdom, currSdom, p);
      while pred > curr
        invariant pred < |dfs2id| && Ancestor(t, pred, p) && currSdom <= m
        invariant Covers(t, sdom, currSdom, p, pred)
        invariant IsCandidate(h, currSdom, curr)
        decreases pred
      {
        ghost var before, at: nat := currSdom, pred;
        ClimbCandidate(g, State(), h, sdom, currSdom, at, p, curr);
        currSdom := if sdom[pred] < currSdom then sdom[pred] else currSdom;
        ClimbStep(t, sdom, before, currSdom, p, at);
        pred := father[pred];
      }
      CoversMore(t, sdom, currSdom, currSdom, p, pred, curr);
    }

    /** The loop over the predecessors in `GenSdom`. */
    method MinimumOverPredecessors(g: Graph, curr: nat, ghost h: Graph) returns (currSdom: nat)
      requires Searched(g, State(), h) && |dfs2id| <= SIZE_MAX && |sdom| == |dfs2id|
      requires curr < |dfs2id| && SemidominatorsFrom(h, sdom, curr + 1)
      ensures SemidominatorsFrom(h, sdom[curr := currSdom], curr)
    {
      hide Searched, SemidominatorsFrom, Covers, IsCandidate, IsSemidominator;
      ghost var t := Tree(father, last);
      SearchedShape(g, State(), h, curr);
      currSdom := SIZE_MAX;
      NoCandidateYet(h, curr);
      var rest := g.pred[dfs2id[curr]];
      while rest != {}
        invariant rest <= g.pred[dfs2id[curr]]
        invariant IsCandidate(h, currSdom, curr)
        invariant forall b :: b in g.pred[dfs2id[curr]] - rest ==>
            b in id2dfs
            && Covers(t, sdom, currSdom, id2dfs[b], curr)
        decreases rest
      {
        var b :| b in rest;
        ghost var done := g.pred[dfs2id[curr]] - rest;
        ghost var m: nat := currSdom;
        rest := rest - {b};
        currSdom := Climb(g, b, curr, currSdom, h);
        forall b' | b' in done
          ensures b' in id2dfs && Covers(t, sdom, currSdom, id2dfs[b'], curr)
        {
          CoversMore(t, sdom, m, currSdom, id2dfs[b'], curr, curr);
        }
      }
      SemidominatorStored(g, State(), h, sdom, currSdom, curr);
    }

    method GenSdom(g: Graph, curr: nat, fa: nat, ghost h: Graph)
      requires Searched(g, State(), h) && |dfs2id| <= SIZE_MAX && |sdom| == |dfs2id|
      requires curr < |dfs2id| && fa <= curr
      requires SemidominatorsFrom(h, sdom, last[curr])
      modifies this`sdom
      ensures |sdom| == |dfs2id| && SemidominatorsFrom(h, sdom, curr)
      decreases last[curr] - curr
    {
      hide Searched, SemidominatorsFrom;
      SearchedSizes(g, State(), h, curr);
      var cs := dfsTree[curr];
      var vlist := Reversed(cs);
      var idx := 0;
      while idx < |vlist|
        invariant idx <= |vlist| && |sdom| == |dfs2id|
        invariant SemidominatorsFrom(h, sdom, if idx == 0 then last[curr] else cs[|cs| - idx])
      {
        var next := vlist[idx];
        ChildBounds(g, State(), h, curr, |cs| - 1 - idx);
        if next != fa {
          GenSdom(g, next, curr, h);
        }
        idx := idx + 1;
      }
      var currSdom := MinimumOverPredecessors(g, curr, h);
      sdom := sdom[curr := currSdom];
    }

    /** The climbing loop of `GenIdom`. */
    method ClimbToIdom(g: Graph, curr: nat, ghost h: Graph)
      requires Searched(g, State(), h) && |sdom| == |dfsIdom| == |dfs2id| && curr < |dfs2id|
      requires SemidominatorsFrom(h, sdom, 0) && ImmediateBelow(h, dfsIdom, curr)
      requires dfsIdom[curr] == if curr == 0 then 0 else father[curr]
      modifies this`dfsIdom
      ensures |dfsIdom| == |dfs2id| && ImmediateBelow(h, dfsIdom, curr + 1)
    {
      hide Searched, SemidominatorsFrom, ImmediateBelow, ClimbsTo, IsSemidominator, IsImmediateDominator;
      ghost var start := dfsIdom;
      ghost var f := dfsIdom[curr];
      SearchedShape(g, State(), h, curr);
      IdomClimbStarts(g, State(), h, sdom[curr], f);
      while dfsIdom[curr] > sdom[curr]
        invariant |dfsIdom| == |dfs2id| && dfsIdom[..curr] == start[..curr]
        invariant if curr == 0 then dfsIdom[curr] == 0 else dfsIdom[curr] < curr
        invariant ClimbsTo(h, f, sdom[curr], dfsIdom[curr])
        decreases dfsIdom[curr]
      {
        ImmediateKept(h, start, dfsIdom, curr, dfsIdom[curr] + 1);
        IdomClimbStep(g, State(), h, dfsIdom, f, sdom[curr], dfsIdom[curr]);
        dfsIdom := dfsIdom[curr := dfsIdom[dfsIdom[curr]]];
      }
      if curr > 0 {
        SemidominatorAt(h, sdom, curr);
        IdomClimbEnds(g, State(), h, sdom[curr], dfsIdom[curr], curr);
      }
      ImmediateExtended(h, start, dfsIdom, curr);
    }

    method GenIdom(g: Graph, curr: nat, fa: nat, ghost h: Graph)
      requires Searched(g, State(), h) && |sdom| == |dfsIdom| == |dfs2id| && curr < |dfs2id|
      requires SemidominatorsFrom(h, sdom, 0) && ImmediateBelow(h, dfsIdom, curr)
      requires fa == if curr == 0 then 0 else father[curr]
      requires curr > 0 ==> fa < curr
      modifies this`dfsIdom
      ensures |dfsIdom| == |dfs2id| && ImmediateBelow(h, dfsIdom, last[curr])
      decreases last[curr] - curr
    {
      hide Searched, SemidominatorsFrom, ImmediateBelow;
      ghost var start := dfsIdom;
      dfsIdom := dfsIdom[curr := fa];
      ImmediateKept(h, start, dfsIdom, curr, curr);
      ClimbToIdom(g, curr, h);
      SearchedSizes(g, State(), h, curr);
      var cs := dfsTree[curr];
      var idx := 0;
      while idx < |cs|
        invariant idx <= |cs| && |dfsIdom| == |dfs2id|
        invariant ImmediateBelow(h, dfsIdom, if idx == |cs| then last[curr] else cs[idx])
      {
        var next := cs[idx];
        ChildBounds(g, State(), h, curr, idx);
        if next != fa {
          GenIdom(g, next, curr, h);
        }
        idx := idx + 1;
      }
    }

    /** The depth-first search of `Run`. */
    method Number(g: Graph) returns (ghost h: Graph)
      requires WellFormed(g) && AllReachable(g) && |g.succ| <= SIZE_MAX
      modifies this
      ensures Searched(g, State(), h) && dfsNumber == |dfs2id| <= SIZE_MAX
    {
      hide WellFormed, AllReachable, SearchedFrom, Numbering, Searched;
      sdom, dfs2id, id2dfs, dfsTree, father, dfsIdom, dfsNumber := [], [], map[], [], [], [], 0;
      idom, dfSet, domTree := map[], map[], map[];
      last := [];
      EmptySearch(g);
      var root := Dfs(g, g.entry, 0);
      h := SearchComplete(g, State());
    }

    /** Semidominators, then immediate dominators, then the translation from numbers to blocks. */
    method ComputeIdoms(g: Graph)
      requires WellFormed(g) && AllReachable(g) && |g.succ| <= SIZE_MAX
      modifies this
      ensures Bijection(dfs2id, id2dfs) && id2dfs.Keys == g.succ.Keys == idom.Keys
      ensures IdomsCorrect(g, idom) && IdomsDescend(g, idom, id2dfs)
    {
      hide Searched, SemidominatorsFrom, ImmediateBelow, IdomsCorrect, IdomsDescend, Bijection;
      ghost var h := Number(g);
      RootFacts(g, State(), h);
      sdom := seq(dfsNumber, _ => 0);
      dfsIdom := seq(dfsNumber, _ => 0);
      NothingComputed(h, sdom);
      GenSdom(g, 0, 0, h);
      NothingComputed(h, dfsIdom);
      GenIdom(g, 0, 0, h);
      TranslateIdoms(g, h);
    }

    /** The translation from numbers to blocks. */
    method TranslateIdoms(g: Graph, ghost h: Graph)
      requires WellFormed(g) && Searched(g, State(), h) && dfsNumber == |dfs2id| == |dfsIdom|
      requires ImmediateBelow(h, dfsIdom, |dfs2id|)
      modifies this`idom
      ensures Bijection(dfs2id, id2dfs) && id2dfs.Keys == g.succ.Keys == idom.Keys
      ensures IdomsCorrect(g, idom) && IdomsDescend(g, idom, id2dfs)
    {
      hide Searched, ImmediateBelow, IdomsCorrect, IdomsDescend, Bijection, WellFormed;
      ImmediateInRange(g, State(), h, dfsIdom);
      idom := map[];
      var i := 0;
      while i < dfsNumber
        invariant i <= dfsNumber
        invariant idom.Keys == set j | 0 <= j < i :: dfs2id[j]
        invariant forall j :: 0 <= j < i ==> idom[dfs2id[j]] == dfs2id[dfsIdom[j]]
        modifies this`idom
      {
        NumberedOnce(g, State(), h, i);
        idom := idom[dfs2id[i] := dfs2id[dfsIdom[i]]];
        i := i + 1;
      }
      NumberedBlocks(g, State(), h);
      IdomsTransfer(g, State(), h, dfsIdom, idom);
    }

    /** The dominator tree, from the pairs of `idom` in any order. */
    method BuildDomTree(g: Graph)
      requires IdomsCorrect(g, idom)
      modifies this`domTree
      ensures DomTreeCorrect(g, idom, domTree)
    {
      hide IdomsCorrect, DomTreeUpTo;
      domTree := map[];
      DomTreeStarts(g, idom);
      var rest := idom.Keys;
      assert idom.Keys - rest == {};
      while rest != {}
        invariant rest <= idom.Keys
        invariant DomTreeUpTo(g, idom, domTree, idom.Keys - rest)
        decreases rest
      {
        var u :| u in rest;
        var v := idom[u];
        ghost var done := idom.Keys - rest;
        DomTreeStep(g, idom, domTree, done, u);
        if u != v {
          domTree := domTree[v := (if v in domTree then domTree[v] else []) + [u]];
        }
        rest := rest - {u};
        assert idom.Keys - rest == done + {u};
      }
      assert idom.Keys - rest == idom.Keys;
      DomTreeEnds(g, idom, domTree);
    }

    /** The inner loop of the frontier computation: one predecessor `p` of block `y`. */
    method ClimbFrontier(g: Graph, y: BlockId, p: BlockId)
      requires y in idom && Edge(g, p, y) && WellFormed(g) && AllReachable(g)
      requires IdomsCorrect(g, idom) && IdomsDescend(g, idom, id2dfs)
      modifies this`dfSet
      ensures forall x, z :: z != y ==> (z in Frontier(dfSet, x) <==> z in Frontier(old(dfSet), x))
      ensures forall x :: y in Frontier(dfSet, x) <==> y in Frontier(old(dfSet), x) || PassedFrom(g, p, idom[y], x)
    {
      hide IdomsCorrect, IdomsDescend, AllReachable, WellFormed, PassedFrom, ClimbAt, Edge;
      var runner := p;
      ClimbFacts(g, idom, y, p);
      while runner != idom[y]
        invariant y in idom && ClimbAt(g, idom, y, p, runner)
        invariant forall x, z :: z != y ==> (z in Frontier(dfSet, x) <==> z in Frontier(old(dfSet), x))
        invariant forall x :: y in Frontier(dfSet, x) <==> y in Frontier(old(dfSet), x) || PassedFrom(g, p, runner, x)
        decreases if runner in id2dfs then id2dfs[runner] else 0
      {
        ClimbFactsStep(g, idom, id2dfs, y, p, runner);
        dfSet := dfSet[runner := Frontier(dfSet, runner) + {y}];
        runner := idom[runner];
      }
    }

    /** One block of the frontier computation. */
    method FrontiersOf(g: Graph, y: BlockId)
      requires WellFormed(g) && AllReachable(g) && y in g.pred && y in idom
      requires IdomsCorrect(g, idom) && IdomsDescend(g, idom, id2dfs)
      requires forall x :: y !in Frontier(dfSet, x)
      modifies this`dfSet
      ensures forall x, z :: z != y ==> (z in Frontier(dfSet, x) <==> z in Frontier(old(dfSet), x))
      ensures FrontierResult(g, idom, dfSet, y)
    {
      hide IdomsCorrect, IdomsDescend, AllReachable, PassedFrom;
      if |g.pred[y]| > 1 {
        var rest := g.pred[y];
        while rest != {}
          invariant rest <= g.pred[y]
          invariant forall x, z :: z != y ==> (z in Frontier(dfSet, x) <==> z in Frontier(old(dfSet), x))
          invariant forall x :: y in Frontier(dfSet, x) <==> exists p ::
              p in g.pred[y] - rest
              && PassedFrom(g, p, idom[y], x)
          decreases rest
          modifies this`dfSet
        {
          var p :| p in rest;
          rest := rest - {p};
          ClimbFrontier(g, y, p);
        }
      }
    }

    /** `CFA::run` */
    method Run(g: Graph)
      requires WellFormed(g) && AllReachable(g) && |g.succ| <= SIZE_MAX
      modifies this
      ensures IdomsCorrect(g, idom) && IdomsDescend(g, idom, id2dfs)
      ensures DomTreeCorrect(g, idom, domTree)
      ensures forall y :: y in g.succ && y != g.entry ==> FrontierExactAt(g, dfSet, y)
      ensures forall x :: g.entry in Frontier(dfSet, x) <==>
          |g.pred[g.entry]| > 1 && x != g.entry
          && InFrontier(g, x, g.entry)
      ensures forall x, y :: y in Frontier(dfSet, x) ==> y in g.succ
    {
      hide *;
      ComputeIdoms(g);
      BuildDomTree(g);
      dfSet := map[];
      NoFrontiers();
      var i := 0;
      while i < |dfs2id|
        invariant i <= |dfs2id|
        invariant forall j :: 0 <= j < i ==> FrontierResult(g, idom, dfSet, dfs2id[j])
        invariant forall x, y :: y in Frontier(dfSet, x) ==> y in id2dfs && id2dfs[y] < i
        modifies this`dfSet
      {
        var y := dfs2id[i];
        NumberedBlock(g, dfs2id, id2dfs, i);
        ghost var before := dfSet;
        FrontiersOf(g, y);
        forall j | 0 <= j < i
          ensures FrontierResult(g, idom, dfSet, dfs2id[j])
        {
          NumberedBlock(g, dfs2id, id2dfs, j);
          FrontierResultKept(g, idom, before, dfSet, dfs2id[j]);
        }
        i := i + 1;
      }
      NumbersAreBlocks(g, dfs2id, id2dfs);
      FrontierResults(g, idom, dfSet, dfs2id, id2dfs);
    }
  }
}
