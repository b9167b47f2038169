/** Liveness: numbering the instructions and solving the dataflow equations backwards. */
module Liveness {
  import opened ControlFlowGraph
  import opened AsmProgram
  import opened BackendRegisters

  type InstrId = (BlockId, nat)

  // ----- instruction numbers -----

  /** Instruction `i` of `b` has the number of the first instruction of `b` plus `i`, and the number
      names no other instruction. */
  predicate NumberedAt(id2num: map<InstrId, nat>, num2id: map<nat, InstrId>, next: nat, b: BlockId, i: nat) {
    && (b, 0) in id2num && (b, i) in id2num
    && id2num[(b, i)] == id2num[(b, 0)] + i
    && id2num[(b, i)] < next
    && id2num[(b, i)] in num2id && num2id[id2num[(b, i)]] == (b, i)
  }

  ghost predicate BlockNumbered(c: Code, id2num: map<InstrId, nat>, num2id: map<nat, InstrId>, next: nat, b: BlockId) {
    forall i: nat :: At(c, b, i) ==> NumberedAt(id2num, num2id, next, b, i)
  }

  /** The blocks of `visited` are numbered, and their use and definition sets are known. */
  ghost predicate Numbered(c: Code, visited: set<BlockId>, useMap: map<BlockId, set<Operand>>,
                           defMap: map<BlockId, set<Operand>>, id2num: map<InstrId, nat>,
                           num2id: map<nat, InstrId>, next: nat) {
    && (forall b :: b in visited ==> b in c)
    && (forall b :: b in visited ==> BlockNumbered(c, id2num, num2id, next, b))
    && (forall b :: b in visited && b in c ==> b in useMap && useMap[b] == UsesOf(c[b]))
    && (forall b :: b in visited && b in c ==> b in defMap && defMap[b] == DefsOf(c[b]))
    && (forall x :: x in id2num ==> x.0 in visited)
    && (forall m :: m in num2id ==> m < next)
  }

  // ----- the dataflow equations -----

  function Lookup(m: map<BlockId, set<Operand>>, b: BlockId): set<Operand> {
    if b in m then m[b] else {}
  }

  /** The union of the successors' In sets. */
  function SuccIn(g: Graph, inOf: map<BlockId, set<Operand>>, b: BlockId): (r: set<Operand>)
    ensures forall o :: o in r <==> exists s :: Edge(g, b, s) && o in Lookup(inOf, s)
  {
    if b in g.succ then
      var r := set s, o | s in g.succ[b] && o in Lookup(inOf, s) :: o;
      assert forall s :: Edge(g, b, s) ==> s in g.succ[b];
      assert forall o :: o in r ==> exists s :: Edge(g, b, s) && o in Lookup(inOf, s) by {
        forall o | o in r ensures exists s :: Edge(g, b, s) && o in Lookup(inOf, s) {
          var s :| s in g.succ[b] && o in Lookup(inOf, s);
          assert Edge(g, b, s);
        }
      }
      r
    else {}
  }

  /** The right-hand side of the equation for In. */
  function Flow(g: Graph, c: Code, inOf: map<BlockId, set<Operand>>, b: BlockId): set<Operand>
    requires b in c
  {
    UsesOf(c[b]) + (SuccIn(g, inOf, b) - DefsOf(c[b]))
  }

  function Universe(c: Code): set<Operand> {
    set b, o | b in c && o in UsesOf(c[b]) :: o
  }

  /** What holds of the maps all through the fixpoint: no more than the least solution, and no more
      than the equations give from the present In sets. */
  ghost predicate Below(g: Graph, c: Code, inOf: map<BlockId, set<Operand>>, outOf: map<BlockId, set<Operand>>) {
    && (forall b :: b in inOf || b in outOf ==> b in c)
    && (forall b, o :: b in inOf && o in inOf[b] ==> LiveIn(g, c, b, o) && o in Universe(c))
    && (forall b, o :: b in outOf && o in outOf[b] ==> LiveOut(g, c, b, o) && o in Universe(c))
    && (forall b :: b in inOf && b in c ==> inOf[b] <= Flow(g, c, inOf, b))
    && (forall b :: b in outOf && b in c ==> outOf[b] <= SuccIn(g, inOf, b))
  }

  function Missing(c: Code, m: map<BlockId, set<Operand>>): set<(BlockId, Operand)> {
    set b, o | b in c && o in Universe(c) && o !in Lookup(m, b) :: (b, o)
  }

  /** The state of one round: either nothing changed and the visited blocks satisfy their equations,
      or something grew. */
  ghost predicate Round(g: Graph, c: Code, visited: set<BlockId>, changed: bool,
                        in0: map<BlockId, set<Operand>>, out0: map<BlockId, set<Operand>>,
                        inOf: map<BlockId, set<Operand>>, outOf: map<BlockId, set<Operand>>) {
    && (forall b :: b in visited ==> b in c && b in inOf && b in outOf)
    && Missing(c, inOf) <= Missing(c, in0) && Missing(c, outOf) <= Missing(c, out0)
    && (changed ==> Missing(c, inOf) < Missing(c, in0) || Missing(c, outOf) < Missing(c, out0))
    && (!changed ==> forall b :: b in visited && b in c && b in inOf && b in outOf
                       ==> inOf[b] == Flow(g, c, inOf, b) && outOf[b] == SuccIn(g, inOf, b))
  }

  /** Both maps are the least solution: exactly the live registers. */
  ghost predicate Solved(g: Graph, c: Code, inOf: map<BlockId, set<Operand>>, outOf: map<BlockId, set<Operand>>) {
    SolvedOn(g, c, c.Keys, inOf, outOf)
  }

  /** ... as far as the blocks of `r` go. */
  ghost predicate SolvedOn(g: Graph, c: Code, r: set<BlockId>, inOf: map<BlockId, set<Operand>>,
                           outOf: map<BlockId, set<Operand>>) {
    && (forall b, o :: b in r ==> (o in Lookup(inOf, b) <==> LiveIn(g, c, b, o)))
    && (forall b, o :: b in r ==> (o in Lookup(outOf, b) <==> LiveOut(g, c, b, o)))
  }

  lemma FlowGrows(g: Graph, c: Code, m: map<BlockId, set<Operand>>, n: map<BlockId, set<Operand>>, b: BlockId)
    requires forall x :: Lookup(m, x) <= Lookup(n, x)
    ensures SuccIn(g, m, b) <= SuccIn(g, n, b)
    ensures b in c ==> Flow(g, c, m, b) <= Flow(g, c, n, b)
  {
    hide UsesOf, DefsOf, Lookup;
    assert forall o :: o in SuccIn(g, m, b) ==> o in SuccIn(g, n, b);
  }

  lemma SuccInLive(g: Graph, c: Code, inOf: map<BlockId, set<Operand>>, outOf: map<BlockId, set<Operand>>, b: BlockId,
                   o: Operand)
    requires Below(g, c, inOf, outOf) && o in SuccIn(g, inOf, b)
    ensures LiveOut(g, c, b, o) && o in Universe(c)
  {
    var s :| Edge(g, b, s) && o in Lookup(inOf, s);
    assert s in inOf && LiveIn(g, c, s, o);
  }

  lemma FlowLive(g: Graph, c: Code, inOf: map<BlockId, set<Operand>>, outOf: map<BlockId, set<Operand>>, b: BlockId,
                 o: Operand)
    requires Below(g, c, inOf, outOf) && b in c && o in Flow(g, c, inOf, b)
    ensures LiveIn(g, c, b, o) && o in Universe(c)
  {
    LiveInStep(g, c, b, o);
    if o !in UsesOf(c[b]) {
      SuccInLive(g, c, inOf, outOf, b, o);
    }
  }

  /** Visiting a block grows both of its sets and keeps them below the least solution. */
  lemma VisitBelow(g: Graph, c: Code, inOf: map<BlockId, set<Operand>>, outOf: map<BlockId, set<Operand>>, b: BlockId)
    requires Below(g, c, inOf, outOf) && b in c
    ensures Lookup(inOf, b) <= Flow(g, c, inOf, b) && Lookup(outOf, b) <= SuccIn(g, inOf, b)
    ensures Below(g, c, inOf[b := Flow(g, c, inOf, b)], outOf[b := SuccIn(g, inOf, b)])
  {
    hide UsesOf, DefsOf, Universe, LiveIn, LiveOut, SuccIn, Flow;
    var in1 := inOf[b := Flow(g, c, inOf, b)];
    var out1 := outOf[b := SuccIn(g, inOf, b)];
    forall x, o | x in in1 && o in in1[x] ensures LiveIn(g, c, x, o) && o in Universe(c) {
      if x == b { FlowLive(g, c, inOf, outOf, b, o); }
    }
    forall x, o | x in out1 && o in out1[x] ensures LiveOut(g, c, x, o) && o in Universe(c) {
      if x == b { SuccInLive(g, c, inOf, outOf, b, o); }
    }
    assert forall x :: Lookup(inOf, x) <= Lookup(in1, x);
    forall x | x in c ensures SuccIn(g, inOf, x) <= SuccIn(g, in1, x) && Flow(g, c, inOf, x) <= Flow(g, c, in1, x) {
      FlowGrows(g, c, inOf, in1, x);
    }
  }

  lemma MissingShrinks(c: Code, m: map<BlockId, set<Operand>>, b: BlockId, s: set<Operand>)
    requires b in c && Lookup(m, b) <= s && s <= Universe(c)
    ensures Missing(c, m[b := s]) <= Missing(c, m)
    ensures s != Lookup(m, b) ==> Missing(c, m[b := s]) < Missing(c, m)
  {
    hide Universe;
    var n := m[b := s];
    assert forall x :: Lookup(m, x) <= Lookup(n, x);
    forall p | p in Missing(c, n) ensures p in Missing(c, m) {
      assert p.1 !in Lookup(n, p.0);
      assert p == (p.0, p.1);
    }
    if s != Lookup(m, b) {
      var o :| o in s && o !in Lookup(m, b);
      assert (b, o) in Missing(c, m);
      assert (b, o) !in Missing(c, n);
    }
  }

  /** A visit that finds both sets as they were only records the block; any other makes progress. */
  lemma VisitRound(g: Graph, c: Code, visited: set<BlockId>, changed: bool,
                   in0: map<BlockId, set<Operand>>, out0: map<BlockId, set<Operand>>,
                   inOf: map<BlockId, set<Operand>>, outOf: map<BlockId, set<Operand>>, b: BlockId)
    requires Below(g, c, inOf, outOf) && Round(g, c, visited, changed, in0, out0, inOf, outOf) && b in c
    ensures var changes := Flow(g, c, inOf, b) != Lookup(inOf, b) || SuccIn(g, inOf, b) != Lookup(outOf, b);
            Round(g, c, visited + {b}, changed || changes, in0, out0,
                  inOf[b := Flow(g, c, inOf, b)], outOf[b := SuccIn(g, inOf, b)])
  {
    hide UsesOf, DefsOf, Universe, LiveIn, LiveOut, SuccIn, Missing, Flow, Below;
    var newIn, newOut := Flow(g, c, inOf, b), SuccIn(g, inOf, b);
    var in1, out1 := inOf[b := newIn], outOf[b := newOut];
    VisitBelow(g, c, inOf, outOf, b);
    forall o | o in newIn ensures o in Universe(c) { FlowLive(g, c, inOf, outOf, b, o); }
    forall o | o in newOut ensures o in Universe(c) { SuccInLive(g, c, inOf, outOf, b, o); }
    MissingShrinks(c, inOf, b, newIn);
    MissingShrinks(c, outOf, b, newOut);
    if !changed && newIn == Lookup(inOf, b) && newOut == Lookup(outOf, b) {
      forall x | x in c ensures SuccIn(g, in1, x) == SuccIn(g, inOf, x) && Flow(g, c, in1, x) == Flow(g, c, inOf, x) {
        SameLookups(g, c, inOf, in1, x);
      }
    }
  }

  lemma SameLookups(g: Graph, c: Code, m: map<BlockId, set<Operand>>, n: map<BlockId, set<Operand>>, b: BlockId)
    requires b in c && forall x :: Lookup(m, x) == Lookup(n, x)
    ensures SuccIn(g, n, b) == SuccIn(g, m, b) && Flow(g, c, n, b) == Flow(g, c, m, b)
  {
    assert forall o :: o in SuccIn(g, n, b) <==> o in SuccIn(g, m, b);
  }

  /** The predecessors of visited blocks are visited or wait in the queue. */
  ghost predicate Frontier(g: Graph, visited: set<BlockId>, queue: seq<BlockId>, last: BlockId) {
    && (last in visited || last in queue)
    && (forall b, p :: b in visited && b in g.pred && p in g.pred[b] ==> p in visited || p in queue)
    && (forall b :: b in queue ==> b in g.succ)
  }

  lemma FrontierStarts(g: Graph, last: BlockId)
    requires WellFormed(g) && last in g.succ
    ensures Frontier(g, {}, [last], last) && g.pred.Keys == g.succ.Keys
  {
  }

  /** When the queue is empty, every block that can reach the last one was visited. */
  lemma {:induction false} BackwardVisitsAll(g: Graph, visited: set<BlockId>, last: BlockId, p: seq<BlockId>,
                                             b: BlockId)
    requires WellFormed(g) && Frontier(g, visited, [], last) && IsPath(g, p, b, last)
    ensures b in visited
  {
    if |p| > 1 {
      BackwardVisitsAll(g, visited, last, p[1..], p[1]);
      assert Edge(g, b, p[1]);
    }
  }

  lemma {:induction false} ForwardVisitsAll(g: Graph, visited: set<BlockId>, p: seq<BlockId>, a: BlockId, b: BlockId)
    requires WellFormed(g) && IsPath(g, p, a, b) && a in visited
    requires forall x, s :: x in visited && Edge(g, x, s) ==> s in visited
    ensures b in visited
  {
    if |p| > 1 {
      ForwardVisitsAll(g, visited, p[1..], p[1], b);
    }
  }

  // ----- the blocks the sweep sees -----

  ghost predicate ReachesLast(g: Graph, b: BlockId, last: BlockId) {
    exists p :: IsPath(g, p, b, last)
  }

  /** The blocks from which the last one can be reached; a sweep against the edges sees no other. */
  ghost function Seen(g: Graph, last: BlockId): set<BlockId> {
    set b | b in g.succ && ReachesLast(g, b, last)
  }

  /** The part of the function that the sweep sees. */
  ghost function SeenPart(g: Graph, last: BlockId): Graph {
    var r := Seen(g, last);
    Graph(last, map b | b in r && b in g.succ :: g.succ[b] * r, map b | b in r && b in g.pred :: g.pred[b] * r)
  }

  lemma BeforeSeen(g: Graph, last: BlockId, a: BlockId, b: BlockId)
    requires Edge(g, a, b) && b in Seen(g, last)
    ensures a in Seen(g, last)
  {
    var p :| IsPath(g, p, b, last);
    assert p[0] == b && ([a] + p)[1..] == p;
    assert IsPath(g, [a] + p, a, last);
  }

  lemma LastSeen(g: Graph, last: BlockId)
    requires last in g.succ
    ensures last in Seen(g, last) && Seen(g, last) <= g.succ.Keys
  {
    assert IsPath(g, [last], last, last);
  }

  lemma SeenIsClosed(g: Graph, last: BlockId)
    requires WellFormed(g) && last in g.succ
    ensures last in Seen(g, last) && Seen(g, last) <= g.succ.Keys
    ensures forall a, b :: Edge(g, a, b) && b in Seen(g, last) ==> a in Seen(g, last) && Edge(SeenPart(g, last), a, b)
    ensures forall a, b :: Edge(SeenPart(g, last), a, b) ==> Edge(g, a, b) && a in Seen(g, last) && b in Seen(g, last)
    ensures WellFormed(SeenPart(g, last)) && SeenPart(g, last).succ.Keys == Seen(g, last)
  {
    LastSeen(g, last);
    forall a, b | Edge(g, a, b) && b in Seen(g, last) ensures a in Seen(g, last) {
      BeforeSeen(g, last, a, b);
    }
  }

  lemma PartIsClosed(g: Graph, last: BlockId)
    ensures forall x, s :: x in Seen(g, last) && Edge(SeenPart(g, last), x, s) ==> s in Seen(g, last)
  {
    hide Seen;
  }

  /** Nothing is known of the blocks the sweep does not see. */
  ghost predicate EmptyUnseen(r: set<BlockId>, inOf: map<BlockId, set<Operand>>) {
    forall b :: b !in r ==> Lookup(inOf, b) == {}
  }

  lemma UnseenAddNothing(g: Graph, last: BlockId, inOf: map<BlockId, set<Operand>>, b: BlockId)
    requires WellFormed(g) && last in g.succ && EmptyUnseen(Seen(g, last), inOf) && b in Seen(g, last)
    ensures SuccIn(SeenPart(g, last), inOf, b) == SuccIn(g, inOf, b)
  {
    SeenIsClosed(g, last);
    hide Seen, SeenPart;
    var v := SeenPart(g, last);
    forall o ensures o in SuccIn(v, inOf, b) <==> o in SuccIn(g, inOf, b) {
      if o in SuccIn(g, inOf, b) {
        var s :| Edge(g, b, s) && o in Lookup(inOf, s);
        assert Edge(v, b, s);
      }
    }
  }

  lemma InContainsLive(v: Graph, c: Code, r: set<BlockId>, inOf: map<BlockId, set<Operand>>, b: BlockId, o: Operand)
    requires r <= c.Keys && b in r && LiveIn(v, c, b, o)
    requires forall x, s :: x in r && Edge(v, x, s) ==> s in r
    requires forall x :: x in r ==> x in c && x in inOf && Flow(v, c, inOf, x) <= inOf[x]
    ensures o in Lookup(inOf, b)
  {
    var p :| |p| > 0 && p[0] == b && UseAlong(v, c, p, o);
    hide UsesOf, DefsOf, UseAlong;
    forall x, s, y | x in r && Edge(v, x, s) && y in inOf[s] && y !in DefsOf(c[x]) ensures y in inOf[x] {
      assert y in Lookup(inOf, s);
      assert y in Flow(v, c, inOf, x);
    }
    forall x | x in r ensures UsesOf(c[x]) <= inOf[x] {
      assert UsesOf(c[x]) <= Flow(v, c, inOf, x);
    }
    LiveInLeast(v, c, r, inOf, p, o);
  }

  lemma StaysUnseen(c: Code, r: set<BlockId>, before: map<BlockId, set<Operand>>, inOf: map<BlockId, set<Operand>>,
                    outOf: map<BlockId, set<Operand>>, b: BlockId, newIn: set<Operand>, newOut: set<Operand>)
    requires Padded(c, before, inOf) && EmptyUnseen(r, before) && EmptyUnseen(r, outOf) && b in r
    ensures EmptyUnseen(r, inOf[b := newIn]) && EmptyUnseen(r, outOf[b := newOut])
  {
  }

  lemma NothingKnown(v: Graph, c: Code, r: set<BlockId>)
    ensures EmptyUnseen(r, map[]) && Below(v, c, map[], map[])
  {
  }

  /** What is pushed for a block in sight is in sight. */
  lemma QueueSeen(g: Graph, last: BlockId, b: BlockId, queue0: seq<BlockId>, queue: seq<BlockId>)
    requires WellFormed(g) && last in g.succ && b in Seen(g, last) && b in g.pred
    requires (forall x :: x in queue0 ==> x in Seen(g, last)) && forall x :: x in queue ==>
        x in queue0
        || x in g.pred[b]
    ensures forall x :: x in queue ==> x in Seen(g, last)
  {
    hide Seen;
    forall x | x in g.pred[b] ensures x in Seen(g, last) {
      BeforeSeen(g, last, x, b);
    }
  }

  lemma SeenIsVisited(g: Graph, visited: set<BlockId>, last: BlockId)
    requires WellFormed(g) && Frontier(g, visited, [], last) && visited <= Seen(g, last)
    ensures visited == Seen(g, last)
  {
    forall b | b in Seen(g, last) ensures b in visited {
      var p :| IsPath(g, p, b, last);
      BackwardVisitsAll(g, visited, last, p, b);
    }
  }

  /** No register is live into a block from which the last one cannot be reached; in particular where
      there is no such block. */
  ghost predicate NothingLiveUnseen(g: Graph, c: Code, last: BlockId) {
    forall b, o :: b in c && !ReachesLast(g, b, last) ==> !LiveIn(g, c, b, o)
  }

  lemma {:induction false} UseAlongMore(g: Graph, last: BlockId, c: Code, p: seq<BlockId>, o: Operand)
    requires WellFormed(g) && last in g.succ && UseAlong(SeenPart(g, last), c, p, o)
    ensures UseAlong(g, c, p, o)
  {
    SeenIsClosed(g, last);
    hide Seen, SeenPart;
    if |p| > 1 {
      UseAlongMore(g, last, c, p[1..], o);
    }
  }

  lemma {:induction false} UseAlongInside(g: Graph, c: Code, last: BlockId, p: seq<BlockId>, o: Operand)
    requires WellFormed(g) && c.Keys == g.succ.Keys && last in c && NothingLiveUnseen(g, c, last)
        && UseAlong(g, c, p, o)
    ensures p[0] in Seen(g, last) && UseAlong(SeenPart(g, last), c, p, o)
  {
    assert LiveIn(g, c, p[0], o);
    SeenIsClosed(g, last);
    hide SeenPart;
    if |p| > 1 {
      UseAlongInside(g, c, last, p[1..], o);
    }
  }

  /** Where nothing is live out of sight, what is live is what is live in sight. */
  lemma LiveInSight(g: Graph, c: Code, last: BlockId, b: BlockId, o: Operand)
    requires WellFormed(g) && c.Keys == g.succ.Keys && last in c
    ensures LiveIn(SeenPart(g, last), c, b, o) ==> LiveIn(g, c, b, o)
    ensures NothingLiveUnseen(g, c, last) && LiveIn(g, c, b, o) ==>
        b in Seen(g, last)
        && LiveIn(SeenPart(g, last), c, b, o)
  {
    hide Seen, SeenPart, NothingLiveUnseen, UseAlong;
    if p :| |p| > 0 && p[0] == b && UseAlong(SeenPart(g, last), c, p, o) {
      UseAlongMore(g, last, c, p, o);
    }
    if NothingLiveUnseen(g, c, last) {
      if p :| |p| > 0 && p[0] == b && UseAlong(g, c, p, o) {
        UseAlongInside(g, c, last, p, o);
      }
    }
  }

  /** The least solution of the part that the sweep sees, with nothing for the rest, is the least
      solution of the function exactly if no register is live into a block out of sight. */
  lemma SolvedIffNothingUnseen(g: Graph, c: Code, last: BlockId, inOf: map<BlockId, set<Operand>>,
                               outOf: map<BlockId, set<Operand>>)
    requires WellFormed(g) && c.Keys == g.succ.Keys && last in c
    requires SolvedOn(SeenPart(g, last), c, Seen(g, last), inOf, outOf)
    requires EmptyUnseen(Seen(g, last), inOf) && EmptyUnseen(Seen(g, last), outOf)
    ensures Solved(g, c, inOf, outOf) <==> NothingLiveUnseen(g, c, last)
  {
    hide *;
    if NothingLiveUnseen(g, c, last) {
      forall b, o | b in c ensures SolvedAt(g, c, inOf, outOf, b, o) {
        SolvedInSight(g, c, last, inOf, outOf, b, o);
      }
      SolvedEverywhere(g, c, inOf, outOf);
    } else {
      UnsolvedUnseen(g, c, last, inOf, outOf);
    }
  }

  ghost predicate SolvedAt(g: Graph, c: Code, inOf: map<BlockId, set<Operand>>, outOf: map<BlockId, set<Operand>>,
                           b: BlockId, o: Operand) {
    (o in Lookup(inOf, b) <==> LiveIn(g, c, b, o)) && (o in Lookup(outOf, b) <==> LiveOut(g, c, b, o))
  }

  lemma SolvedEverywhere(g: Graph, c: Code, inOf: map<BlockId, set<Operand>>, outOf: map<BlockId, set<Operand>>)
    requires forall b, o :: b in c ==> SolvedAt(g, c, inOf, outOf, b, o)
    ensures Solved(g, c, inOf, outOf)
  {
    hide Lookup, LiveIn, LiveOut;
    forall b, o | b in c
      ensures (o in Lookup(inOf, b) <==> LiveIn(g, c, b, o)) && (o in Lookup(outOf, b) <==> LiveOut(g, c, b, o))
    {
      assert SolvedAt(g, c, inOf, outOf, b, o);
    }
  }

  lemma UnsolvedUnseen(g: Graph, c: Code, last: BlockId, inOf: map<BlockId, set<Operand>>,
                       outOf: map<BlockId, set<Operand>>)
    requires EmptyUnseen(Seen(g, last), inOf) && !NothingLiveUnseen(g, c, last)
    ensures !Solved(g, c, inOf, outOf)
  {
    hide Lookup, LiveIn, LiveOut, ReachesLast;
    var b, o :| b in c && !ReachesLast(g, b, last) && LiveIn(g, c, b, o);
    assert o !in Lookup(inOf, b);
  }

  lemma SolvedInSight(g: Graph, c: Code, last: BlockId, inOf: map<BlockId, set<Operand>>,
                      outOf: map<BlockId, set<Operand>>, b: BlockId, o: Operand)
    requires WellFormed(g) && c.Keys == g.succ.Keys && last in c && NothingLiveUnseen(g, c, last) && b in c
    requires SolvedOn(SeenPart(g, last), c, Seen(g, last), inOf, outOf)
    requires EmptyUnseen(Seen(g, last), inOf) && EmptyUnseen(Seen(g, last), outOf)
    ensures SolvedAt(g, c, inOf, outOf, b, o)
  {
    hide Seen, SeenPart, LiveIn, LiveOut, Lookup, WellFormed, NothingLiveUnseen;
    assert b !in Seen(g, last) ==> o !in Lookup(inOf, b) && o !in Lookup(outOf, b);
    LiveInSight(g, c, last, b, o);
    OutInSight(g, c, last, outOf, b, o);
  }

  lemma OutInSight(g: Graph, c: Code, last: BlockId, outOf: map<BlockId, set<Operand>>, b: BlockId, o: Operand)
    requires WellFormed(g) && c.Keys == g.succ.Keys && last in c && b in c && NothingLiveUnseen(g, c, last)
    requires b in Seen(g, last) ==> (o in Lookup(outOf, b) <==> LiveOut(SeenPart(g, last), c, b, o))
    requires b !in Seen(g, last) ==> o !in Lookup(outOf, b)
    ensures o in Lookup(outOf, b) <==> LiveOut(g, c, b, o)
  {
    var v := SeenPart(g, last);
    SeenIsClosed(g, last);
    hide Seen, SeenPart, LiveIn, WellFormed, NothingLiveUnseen;
    if s :| Edge(g, b, s) && LiveIn(g, c, s, o) {
      LiveInSight(g, c, last, s, o);
      assert Edge(v, b, s) && LiveIn(v, c, s, o);
    }
    if o in Lookup(outOf, b) {
      var s :| Edge(v, b, s) && LiveIn(v, c, s, o);
      LiveInSight(g, c, last, s, o);
      assert Edge(g, b, s);
    }
  }

  /** The first block branches to the last one and to a block that jumps to itself. */
  const ENDLESS_LOOP := Graph(0, map[0 := {1, 2}, 1 := {1}, 2 := {}], map[0 := {}, 1 := {0, 1}, 2 := {0}])

  lemma EndlessLoopSeen()
    ensures WellFormed(ENDLESS_LOOP) && 0 in Seen(ENDLESS_LOOP, 2) && 2 in Seen(ENDLESS_LOOP, 2)
        && 1 !in Seen(ENDLESS_LOOP, 2)
    ensures forall s :: Edge(SeenPart(ENDLESS_LOOP, 2), 0, s) ==> s == 2
    ensures forall s :: !Edge(SeenPart(ENDLESS_LOOP, 2), 2, s)
  {
    var g := ENDLESS_LOOP;
    assert [0, 2][1..] == [2];
    assert IsPath(g, [0, 2], 0, 2) && IsPath(g, [2], 2, 2);
    if p :| IsPath(g, p, 1, 2) {
      LoopStays(g, p);
    }
  }

  /** Such a function, whose loop uses what the first block defines: that register is live out of the
      first block, but the result does not have it there. */
  lemma EndlessLoopMissed(c: Code, o: Operand, inOf: map<BlockId, set<Operand>>, outOf: map<BlockId, set<Operand>>)
    requires c == map[0 := [Instr(0, [o], [])], 1 := [Instr(0, [], [o])], 2 := [Instr(0, [], [])]] && IsReg(o)
    requires SolvedOn(SeenPart(ENDLESS_LOOP, 2), c, Seen(ENDLESS_LOOP, 2), inOf, outOf)
    ensures LiveOut(ENDLESS_LOOP, c, 0, o) && o !in Lookup(outOf, 0)
  {
    var g := ENDLESS_LOOP;
    assert UsesOf(c[1][..0]) == {} && DefsOf(c[1][..0]) == {} && UsesOf(c[2][..0]) == {};
    assert o in UsesOf(c[1]) && o !in UsesOf(c[2]);
    assert UseAlong(g, c, [1], o);
    assert Edge(g, 0, 1) && LiveIn(g, c, 1, o);
    EndlessLoopSeen();
    LiveInStep(SeenPart(g, 2), c, 2, o);
  }

  lemma {:induction false} LoopStays(g: Graph, p: seq<BlockId>)
    requires 1 in g.succ && g.succ[1] == {1}
    ensures !IsPath(g, p, 1, 2)
  {
    if |p| > 1 {
      LoopStays(g, p[1..]);
    }
  }

  /** A round that visits every block of a part of the function closed under its edges and changes
      nothing ends in the least solution of that part. */
  lemma QuietRoundSolves(v: Graph, c: Code, r: set<BlockId>,
                         in0: map<BlockId, set<Operand>>, out0: map<BlockId, set<Operand>>,
                         inOf: map<BlockId, set<Operand>>, outOf: map<BlockId, set<Operand>>)
    requires r <= c.Keys && forall x, s :: x in r && Edge(v, x, s) ==> s in r
    requires Below(v, c, inOf, outOf) && Round(v, c, r, false, in0, out0, inOf, outOf)
    ensures SolvedOn(v, c, r, inOf, outOf)
  {
    hide UsesOf, DefsOf, Universe, Missing, LiveIn, SuccIn, Flow;
    forall b, o | b in r && LiveIn(v, c, b, o) ensures o in Lookup(inOf, b) {
      InContainsLive(v, c, r, inOf, b, o);
    }
    forall b, o | b in r && LiveOut(v, c, b, o) ensures o in Lookup(outOf, b) {
      var s :| Edge(v, b, s) && LiveIn(v, c, s, o);
      assert o in Lookup(inOf, s);
    }
  }

  /** The same sets, with an explicit empty set where there was none. */
  ghost predicate Padded(c: Code, m: map<BlockId, set<Operand>>, n: map<BlockId, set<Operand>>) {
    && (forall x :: Lookup(n, x) == Lookup(m, x))
    && (forall x :: x in m ==> x in n)
    && (forall x :: x in n ==> x in m || x in c)
  }

  lemma PaddingKeeps(g: Graph, c: Code, visited: set<BlockId>, changed: bool,
                     in0: map<BlockId, set<Operand>>, out0: map<BlockId, set<Operand>>,
                     m: map<BlockId, set<Operand>>, n: map<BlockId, set<Operand>>, outOf: map<BlockId, set<Operand>>)
    requires Padded(c, m, n) && Below(g, c, m, outOf) && Round(g, c, visited, changed, in0, out0, m, outOf)
    ensures Below(g, c, n, outOf) && Round(g, c, visited, changed, in0, out0, n, outOf)
    ensures forall b :: SuccIn(g, n, b) == SuccIn(g, m, b)
  {
    hide UsesOf, DefsOf, Universe, LiveIn, LiveOut, SuccIn, Flow;
    forall b ensures SuccIn(g, n, b) == SuccIn(g, m, b) {
      SameSuccIn(g, m, n, b);
    }
    forall b | b in c ensures Flow(g, c, n, b) == Flow(g, c, m, b) {
      SameLookups(g, c, m, n, b);
    }
    assert forall b :: b in n ==> n[b] == Lookup(m, b);
    assert forall b :: b in n && b !in m ==> n[b] == {};
    assert Missing(c, n) == Missing(c, m);
  }

  lemma SameSuccIn(g: Graph, m: map<BlockId, set<Operand>>, n: map<BlockId, set<Operand>>, b: BlockId)
    requires forall x :: Lookup(n, x) == Lookup(m, x)
    ensures SuccIn(g, n, b) == SuccIn(g, m, b)
  {
    assert forall o :: o in SuccIn(g, n, b) <==> o in SuccIn(g, m, b);
  }

  lemma PaddedMore(c: Code, m: map<BlockId, set<Operand>>, n: map<BlockId, set<Operand>>, s: BlockId)
    requires Padded(c, m, n) && s in c && s !in n
    ensures Padded(c, m, n[s := {}])
  {
  }

  /** Adding one successor's set at a time gives the union. */
  lemma UnionComplete(g: Graph, m: map<BlockId, set<Operand>>, n: map<BlockId, set<Operand>>, b: BlockId,
                      out: set<Operand>)
    requires b in g.succ && (forall x :: Lookup(n, x) == Lookup(m, x))
    requires forall o :: o in out ==> o in SuccIn(g, m, b)
    requires forall s :: s in g.succ[b] ==> Lookup(n, s) <= out
    ensures out == SuccIn(g, m, b)
  {
    forall o | o in SuccIn(g, m, b) ensures o in out {
      var s :| Edge(g, b, s) && o in Lookup(m, s);
      assert s in g.succ[b];
    }
  }

  lemma InSuccessor(g: Graph, m: map<BlockId, set<Operand>>, b: BlockId, s: BlockId, o: Operand)
    requires Edge(g, b, s) && o in Lookup(m, s)
    ensures o in SuccIn(g, m, b)
  {
  }

  lemma FlowFacts(g: Graph, c: Code, inOf: map<BlockId, set<Operand>>, outOf: map<BlockId, set<Operand>>, b: BlockId)
    requires b in c
    ensures Flow(g, c, inOf, b) == (SuccIn(g, inOf, b) - DefsOf(c[b])) + UsesOf(c[b])
    ensures Lookup(inOf, b) == (if b in inOf then inOf[b] else {})
    ensures Lookup(outOf, b) == (if b in outOf then outOf[b] else {})
  {
  }

  lemma RoundStarts(g: Graph, c: Code, inOf: map<BlockId, set<Operand>>, outOf: map<BlockId, set<Operand>>)
    ensures Round(g, c, {}, false, inOf, outOf, inOf, outOf)
  {
  }

  lemma RoundProgress(g: Graph, c: Code, changed: bool,
                      in0: map<BlockId, set<Operand>>, out0: map<BlockId, set<Operand>>,
                      inOf: map<BlockId, set<Operand>>, outOf: map<BlockId, set<Operand>>, r: set<BlockId>)
    requires Round(g, c, r, changed, in0, out0, inOf, outOf)
    ensures Missing(c, inOf) <= Missing(c, in0) && Missing(c, outOf) <= Missing(c, out0)
    ensures changed ==> Missing(c, inOf) < Missing(c, in0) || Missing(c, outOf) < Missing(c, out0)
  {
  }

  /** Visiting the block at the head of the queue appends all its predecessors. */
  lemma FrontierMoves(g: Graph, visited: set<BlockId>, was: seq<BlockId>, queue: seq<BlockId>, last: BlockId,
                      b: BlockId)
    requires Frontier(g, visited, was, last) && |was| > 0 && was[0] == b && was[1..] <= queue
    requires forall p :: p in queue ==> p in g.succ
    requires b in g.pred && forall p :: p in g.pred[b] ==> p in queue
    ensures Frontier(g, visited + {b}, queue, last)
  {
    assert was == [b] + was[1..];
    assert forall p :: p in was ==> p == b || p in queue;
  }

  lemma FrontierDrops(g: Graph, visited: set<BlockId>, was: seq<BlockId>, last: BlockId)
    requires Frontier(g, visited, was, last) && |was| > 0 && was[0] in visited
    ensures Frontier(g, visited, was[1..], last)
  {
    assert was == [was[0]] + was[1..];
  }
}
