/** The liveness pass: numbering, the backward fixpoint and the live ranges. */
module LivenessPass {
  import opened ControlFlowGraph
  import opened AsmProgram
  import opened BackendRegisters
  import opened Liveness
  import opened LiveRanges

  // ----- numbering one block -----

  /** The first `i` instructions of `b` are numbered from `base` on; the other visited blocks keep theirs. */
  ghost predicate PartlyNumbered(c: Code, visited: set<BlockId>, b: BlockId, i: nat, useMap: map<BlockId, set<Operand>>,
                                 defMap: map<BlockId, set<Operand>>, id2num: map<InstrId, nat>, num2id: map<nat,
                                     InstrId>, base: nat) {
    && OthersNumbered(c, visited - {b}, useMap, defMap, id2num, num2id, base)
    && (forall x :: x in id2num ==> x.0 in visited)
    && (forall m :: m in num2id ==> m < base + i)
    && (forall j: nat :: j < i ==> NumberedAs(id2num, num2id, b, j, base))
    && b in c && i <= |c[b]|
    && b in useMap && useMap[b] == UsesOf(c[b][..i])
    && b in defMap && defMap[b] == DefsOf(c[b][..i])
  }

  predicate NumberedAs(id2num: map<InstrId, nat>, num2id: map<nat, InstrId>, b: BlockId, j: nat, base: nat) {
    (b, j) in id2num && id2num[(b, j)] == base + j && base + j in num2id && num2id[base + j] == (b, j)
  }

  ghost predicate OthersNumbered(c: Code, others: set<BlockId>, useMap: map<BlockId, set<Operand>>,
                                 defMap: map<BlockId, set<Operand>>, id2num: map<InstrId, nat>, num2id: map<nat,
                                     InstrId>, base: nat) {
    && (forall x :: x in others ==> x in c)
    && (forall x :: x in others ==> BlockNumbered(c, id2num, num2id, base, x))
    && (forall x :: x in others && x in c ==> x in useMap && useMap[x] == UsesOf(c[x]))
    && (forall x :: x in others && x in c ==> x in defMap && defMap[x] == DefsOf(c[x]))
  }

  lemma PartlyStarts(c: Code, visited: set<BlockId>, b: BlockId, useMap: map<BlockId, set<Operand>>,
                     defMap: map<BlockId, set<Operand>>, id2num: map<InstrId, nat>, num2id: map<nat, InstrId>,
                         next: nat)
    requires b in c && b in visited && Numbered(c, visited - {b}, useMap, defMap, id2num, num2id, next)
    ensures PartlyNumbered(c, visited, b, 0, useMap[b := {}], defMap[b := {}], id2num, num2id, next)
  {
    hide BlockNumbered;
    assert c[b][..0] == [];
  }

  lemma KeepsNumbers(c: Code, x: BlockId, b: BlockId, id2num: map<InstrId, nat>, num2id: map<nat, InstrId>, base: nat,
                     i: nat, m: nat)
    requires BlockNumbered(c, id2num, num2id, base, x) && x != b && m >= base
    ensures BlockNumbered(c, id2num[(b, i) := m], num2id[m := (b, i)], base, x)
  {
    forall j: nat | At(c, x, j) ensures NumberedAt(id2num[(b, i) := m], num2id[m := (b, i)], base, x, j) {
      assert NumberedAt(id2num, num2id, base, x, j);
    }
  }

  lemma OneMore(instrs: seq<Instr>, i: nat)
    requires i < |instrs|
    ensures UsesOf(instrs[..i + 1]) == UsesOf(instrs[..i]) + (RegsOf(instrs[i].uses) - DefsOf(instrs[..i]))
    ensures DefsOf(instrs[..i + 1]) == DefsOf(instrs[..i]) + RegsOf(instrs[i].defs)
  {
    assert instrs[..i + 1][..i] == instrs[..i];
  }

  lemma PartlySteps(c: Code, visited: set<BlockId>, b: BlockId, i: nat, useMap: map<BlockId, set<Operand>>,
                    defMap: map<BlockId, set<Operand>>, id2num: map<InstrId, nat>, num2id: map<nat, InstrId>, base: nat)
    requires PartlyNumbered(c, visited, b, i, useMap, defMap, id2num, num2id, base) && b in visited && i < |c[b]|
    ensures PartlyNumbered(c, visited, b, i + 1, useMap[b := useMap[b] + (RegsOf(c[b][i].uses) - defMap[b])],
                           defMap[b := defMap[b] + RegsOf(c[b][i].defs)], id2num[(b, i) := base + i],
                               num2id[base + i := (b, i)], base)
  {
    hide BlockNumbered, UsesOf, DefsOf, RegsOf;
    OneMore(c[b], i);
    forall x | x in visited - {b} ensures BlockNumbered(c, id2num[(b, i) := base + i], num2id[base + i := (b, i)], base,
        x) {
      KeepsNumbers(c, x, b, id2num, num2id, base, i, base + i);
    }
    var useMap1, defMap1 := useMap[b := useMap[b] + (RegsOf(c[b][i].uses) - defMap[b])],
        defMap[b := defMap[b] + RegsOf(c[b][i].defs)];
    var id1, num1 := id2num[(b, i) := base + i], num2id[base + i := (b, i)];
    assert OthersNumbered(c, visited - {b}, useMap1, defMap1, id1, num1, base);
    forall j: nat | j < i + 1 ensures NumberedAs(id1, num1, b, j, base) {
      assert j < i ==> NumberedAs(id2num, num2id, b, j, base);
    }
    assert forall x :: x in id1 ==> x.0 in visited;
    assert forall m :: m in num1 ==> m < base + (i + 1);
  }

  lemma PartlyEnds(c: Code, visited: set<BlockId>, b: BlockId, useMap: map<BlockId, set<Operand>>,
                   defMap: map<BlockId, set<Operand>>, id2num: map<InstrId, nat>, num2id: map<nat, InstrId>, base: nat)
    requires b in c && PartlyNumbered(c, visited, b, |c[b]|, useMap, defMap, id2num, num2id, base)
    ensures Numbered(c, visited, useMap, defMap, id2num, num2id, base + |c[b]|)
  {
    hide UsesOf, DefsOf;
    assert c[b][..|c[b]|] == c[b];
    forall x | x in visited ensures BlockNumbered(c, id2num, num2id, base + |c[b]|, x) {
      forall j: nat | At(c, x, j) ensures NumberedAt(id2num, num2id, base + |c[b]|, x, j) {
        if x == b {
          assert NumberedAs(id2num, num2id, b, 0, base) && NumberedAs(id2num, num2id, b, j, base);
        } else {
          assert x in visited - {b};
          assert NumberedAt(id2num, num2id, base, x, j);
        }
      }
    }
    forall x | x in visited ensures x in c && x in useMap && useMap[x] == UsesOf(c[x]) && x in defMap
        && defMap[x] == DefsOf(c[x]) {
      if x != b { assert x in visited - {b}; }
    }
  }

  // ----- the scan of one block, all registers at once -----

  function ListOf(m: map<Operand, seq<Range>>, o: Operand): seq<Range> {
    if o in m then m[o] else []
  }

  function BufferOf(m: map<Operand, Range>, o: Operand): Buffered {
    if o in m then Open(m[o]) else Absent
  }

  /** What the range buffer and the range lists hold for one register. */
  function ScanOf(ranges: map<Operand, seq<Range>>, buffer: map<Operand, Range>, o: Operand): Scan {
    Scan(BufferOf(buffer, o), ListOf(ranges, o))
  }

  lemma OneMoreDef(defs: seq<Operand>, k: nat, o: Operand, s: Scan, m: nat, b: BlockId)
    requires k < |defs|
    ensures var t := AfterDefs(defs[..k], o, s, m, b);
            AfterDefs(defs[..k + 1], o, s, m, b) == if defs[k] == o then DefStep(t, m, b) else t
  {
    assert defs[..k + 1][..k] == defs[..k];
  }

  lemma NoDefs(m: nat, b: BlockId)
    ensures forall o, s :: AfterDefs([], o, s, m, b) == s
  {
  }

  function Prepend(p: seq<Range>, s: Scan): Scan {
    Scan(s.open, p + s.done)
  }

  lemma {:induction false} PrependDefs(p: seq<Range>, defs: seq<Operand>, o: Operand, s: Scan, m: nat, b: BlockId)
    ensures AfterDefs(defs, o, Prepend(p, s), m, b) == Prepend(p, AfterDefs(defs, o, s, m, b))
  {
    if defs != [] {
      PrependDefs(p, defs[..|defs| - 1], o, s, m, b);
      var t := AfterDefs(defs[..|defs| - 1], o, s, m, b);
      assert DefStep(Prepend(p, t), m, b).done == Prepend(p, DefStep(t, m, b)).done;
    }
  }

  lemma {:induction false} PrependUses(p: seq<Range>, uses: seq<Operand>, o: Operand, s: Scan, base: nat, m: nat,
                                       b: BlockId)
    ensures AfterUses(uses, o, Prepend(p, s), base, m, b) == Prepend(p, AfterUses(uses, o, s, base, m, b))
  {
    if uses != [] {
      PrependUses(p, uses[..|uses| - 1], o, s, base, m, b);
    }
  }

  ghost predicate NonEmptyLists(ranges: map<Operand, seq<Range>>) {
    forall o :: o in ranges ==> ranges[o] != [] && IsReg(o)
  }

  /** The state after scanning `b` back to instruction `i`, given the lists before the block. */
  ghost predicate Tracks(c: Code, b: BlockId, base: nat, out: set<Operand>, i: nat, before: map<Operand, seq<Range>>,
                         ranges: map<Operand, seq<Range>>, buffer: map<Operand, Range>) {
    && b in c && |c[b]| > 0 && i <= |c[b]|
    && NonEmptyLists(ranges)
    && (forall o :: o in buffer ==> IsReg(o))
    && (forall o :: IsReg(o) ==> ScanOf(ranges, buffer, o) == Prepend(ListOf(before, o),
        ScanFrom(c[b], base, b, o in out, o, i)))
  }

  lemma TracksSteps(c: Code, b: BlockId, base: nat, out: set<Operand>, i: nat, before: map<Operand, seq<Range>>,
                    r0: map<Operand, seq<Range>>, b0: map<Operand, Range>, r1: map<Operand, seq<Range>>,
                        b1: map<Operand, Range>,
                    r2: map<Operand, seq<Range>>, b2: map<Operand, Range>)
    requires Tracks(c, b, base, out, i + 1, before, r0, b0)
    requires forall o :: IsReg(o) ==> ScanOf(r1, b1, o) == AfterDefs(c[b][i].defs, o, ScanOf(r0, b0, o), base + i, b)
    requires forall o :: IsReg(o) ==> ScanOf(r2, b2, o) == AfterUses(c[b][i].uses, o, ScanOf(r1, b1, o), base, base + i,
        b)
    requires NonEmptyLists(r2) && forall o :: o in b2 ==> IsReg(o)
    ensures Tracks(c, b, base, out, i, before, r2, b2)
  {
    hide ScanOf, Prepend, AfterDefs, AfterUses;
    forall o | IsReg(o)
      ensures ScanOf(r2, b2, o) == Prepend(ListOf(before, o), ScanFrom(c[b], base, b, o in out, o, i))
    {
      var s := ScanFrom(c[b], base, b, o in out, o, i + 1);
      PrependDefs(ListOf(before, o), c[b][i].defs, o, s, base + i, b);
      PrependUses(ListOf(before, o), c[b][i].uses, o, AfterDefs(c[b][i].defs, o, s, base + i, b), base, base + i, b);
    }
  }

  lemma TracksFacts(c: Code, b: BlockId, base: nat, out: set<Operand>, i: nat, before: map<Operand, seq<Range>>,
                    ranges: map<Operand, seq<Range>>, buffer: map<Operand, Range>)
    requires Tracks(c, b, base, out, i, before, ranges, buffer)
    ensures NonEmptyLists(ranges) && forall o :: o in buffer ==> IsReg(o)
  {
  }

  /** The lists after the whole block: each register's ranges of the block are appended. */
  ghost predicate Appended(c: Code, b: BlockId, base: nat, out: set<Operand>, before: map<Operand, seq<Range>>,
                           after: map<Operand, seq<Range>>) {
    && b in c && |c[b]| > 0
    && NonEmptyLists(after)
    && forall o :: IsReg(o) ==> ListOf(after, o) == ListOf(before, o) + BlockRanges(c[b], base, b, o in out, o)
  }

  lemma TracksStarts(c: Code, b: BlockId, base: nat, out: set<Operand>, before: map<Operand, seq<Range>>,
                     buffer: map<Operand, Range>)
    requires b in c && |c[b]| > 0 && NonEmptyLists(before)
    requires buffer == map o | o in out && IsReg(o) :: Range(base, base + |c[b]| - 1, 0, b)
    ensures Tracks(c, b, base, out, |c[b]|, before, before, buffer)
  {
    forall o | IsReg(o)
      ensures ScanOf(before, buffer, o) == Prepend(ListOf(before, o), ScanFrom(c[b], base, b, o in out, o, |c[b]|))
    {
      assert ListOf(before, o) + [] == ListOf(before, o);
    }
  }

  lemma TracksEnds(c: Code, b: BlockId, base: nat, out: set<Operand>, before: map<Operand, seq<Range>>,
                   ranges: map<Operand, seq<Range>>, buffer: map<Operand, Range>, after: map<Operand, seq<Range>>)
    requires Tracks(c, b, base, out, 0, before, ranges, buffer) && NonEmptyLists(after)
    requires forall o :: ListOf(after, o) == Known(ScanOf(ranges, buffer, o))
    ensures Appended(c, b, base, out, before, after)
  {
    hide ScanFrom;
  }

  class LivenessAnalysis {
    var visited: set<BlockId>
    var useMap: map<BlockId, set<Operand>>
    var defMap: map<BlockId, set<Operand>>
    var inMap: map<BlockId, set<Operand>>
    var outMap: map<BlockId, set<Operand>>
    var nextNum: nat
    var id2num: map<InstrId, nat>
    var num2id: map<nat, InstrId>
    var liveRanges: map<Operand, seq<Range>>

    constructor ()
      ensures visited == {} && useMap == map[] && defMap == map[] && inMap == map[] && outMap == map[]
      ensures nextNum == 0 && id2num == map[] && num2id == map[] && liveRanges == map[]
    {
      visited, useMap, defMap, inMap, outMap := {}, map[], map[], map[], map[];
      nextNum, id2num, num2id, liveRanges := 0, map[], map[], map[];
    }

    /** Number the instructions of one block and collect its use and definition sets. */
    method NumberBlock(c: Code, b: BlockId)
      requires b in c && b in visited && Numbered(c, visited - {b}, useMap, defMap, id2num, num2id, nextNum)
      modifies this`useMap, this`defMap, this`nextNum, this`id2num, this`num2id
      ensures Numbered(c, visited, useMap, defMap, id2num, num2id, nextNum)
    {
      hide *;
      ghost var base := nextNum;
      PartlyStarts(c, visited, b, useMap, defMap, id2num, num2id, base);
      useMap := useMap[b := {}];
      defMap := defMap[b := {}];
      var i: nat := 0;
      while i < |c[b]|
        invariant i <= |c[b]| && nextNum == base + i && b in useMap && b in defMap
        invariant PartlyNumbered(c, visited, b, i, useMap, defMap, id2num, num2id, base)
        modifies this`useMap, this`defMap, this`nextNum, this`id2num, this`num2id
      {
        PartlySteps(c, visited, b, i, useMap, defMap, id2num, num2id, base);
        id2num := id2num[(b, i) := nextNum];
        num2id := num2id[nextNum := (b, i)];
        nextNum := nextNum + 1;
        useMap := useMap[b := useMap[b] + (RegsOf(c[b][i].uses) - defMap[b])];
        defMap := defMap[b := defMap[b] + RegsOf(c[b][i].defs)];
        i := i + 1;
      }
      PartlyEnds(c, visited, b, useMap, defMap, id2num, num2id, base);
    }

    /** Depth-first numbering from `b`: afterwards the blocks reached are closed under successors. */
    method DepthFirstNumbering(g: Graph, c: Code, b: BlockId)
      requires WellFormed(g) && c.Keys == g.succ.Keys && b in c
      requires Numbered(c, visited, useMap, defMap, id2num, num2id, nextNum)
      modifies this`visited, this`useMap, this`defMap, this`nextNum, this`id2num, this`num2id
      ensures Numbered(c, visited, useMap, defMap, id2num, num2id, nextNum)
      ensures old(visited) <= visited <= c.Keys && b in visited
      ensures forall x, s :: x in visited - old(visited) && Edge(g, x, s) ==> s in visited
      decreases c.Keys - visited
    {
      if b in visited {
        return;
      }
      ghost var before := visited;
      visited := visited + {b};
      assert visited - {b} == before;
      NumberBlock(c, b);
      hide Numbered;
      var rest := g.succ[b];
      while rest != {}
        invariant rest <= g.succ[b]
        invariant Numbered(c, visited, useMap, defMap, id2num, num2id, nextNum)
        invariant before + {b} <= visited <= c.Keys
        invariant forall x, s :: x in visited - before - {b} && Edge(g, x, s) ==> s in visited
        invariant forall s :: s in g.succ[b] - rest ==> s in visited
        decreases rest
      {
        var s :| s in rest;
        rest := rest - {s};
        DepthFirstNumbering(g, c, s);
      }
    }

    /** Out of `b`: the union of what is live into its successors. */
    method UnionOfSuccessors(g: Graph, c: Code, b: BlockId) returns (out: set<Operand>)
      requires WellFormed(g) && c.Keys == g.succ.Keys && b in c
      modifies this`inMap
      ensures Padded(c, old(inMap), inMap) && out == SuccIn(g, old(inMap), b)
    {
      hide SuccIn;
      out := {};
      ghost var before := inMap;
      var rest := g.succ[b];
      while rest != {}
        invariant rest <= g.succ[b] && Padded(c, before, inMap)
        invariant forall s :: s in g.succ[b] - rest ==> Lookup(inMap, s) <= out
        invariant forall o :: o in out ==> o in SuccIn(g, before, b)
        decreases rest
      {
        var s :| s in rest;
        rest := rest - {s};
        if s !in inMap {
          PaddedMore(c, before, inMap, s);
          inMap := inMap[s := {}];
        }
        forall o | o in inMap[s] ensures o in SuccIn(g, before, b) {
          assert Edge(g, b, s) && o in Lookup(before, s);
          InSuccessor(g, before, b, s, o);
        }
        out := out + inMap[s];
      }
      UnionComplete(g, before, inMap, b, out);
    }

    /** Recompute In and Out of one block that the sweep can see. */
    method Visit(g: Graph, c: Code, last: BlockId, b: BlockId, changed: bool, ghost visited: set<BlockId>,
                 ghost in0: map<BlockId, set<Operand>>, ghost out0: map<BlockId, set<Operand>>) returns (changes: bool)
      requires WellFormed(g) && c.Keys == g.succ.Keys && last in c && b in c && b in Seen(g, last)
      requires b in useMap && useMap[b] == UsesOf(c[b]) && b in defMap && defMap[b] == DefsOf(c[b])
      requires EmptyUnseen(Seen(g, last), inMap) && EmptyUnseen(Seen(g, last), outMap)
      requires Below(SeenPart(g, last), c, inMap, outMap)
      requires Round(SeenPart(g, last), c, visited, changed, in0, out0, inMap, outMap)
      modifies this`inMap, this`outMap
      ensures EmptyUnseen(Seen(g, last), inMap) && EmptyUnseen(Seen(g, last), outMap)
      ensures Below(SeenPart(g, last), c, inMap, outMap)
      ensures Round(SeenPart(g, last), c, visited + {b}, changes, in0, out0, inMap, outMap)
    {
      hide *;
      ghost var before, v, r := inMap, SeenPart(g, last), Seen(g, last);
      var out := UnionOfSuccessors(g, c, b);
      PaddingKeeps(v, c, visited, changed, in0, out0, before, inMap, outMap);
      UnseenAddNothing(g, last, before, b);
      VisitBelow(v, c, inMap, outMap, b);
      VisitRound(v, c, visited, changed, in0, out0, inMap, outMap, b);
      FlowFacts(v, c, inMap, outMap, b);
      var in_ := (out - defMap[b]) + useMap[b];
      assert in_ == Flow(v, c, inMap, b);
      StaysUnseen(c, r, before, inMap, outMap, b, in_, out);
      changes := Record(b, in_, out, changed);
    }

    /** Store both sets of a block; what was not there counts as empty. */
    method Record(b: BlockId, in_: set<Operand>, out: set<Operand>, changed: bool) returns (changes: bool)
      modifies this`inMap, this`outMap
      ensures inMap == old(inMap)[b := in_] && outMap == old(outMap)[b := out]
      ensures changes == (changed || in_ != Lookup(old(inMap), b) || out != Lookup(old(outMap), b))
    {
      changes := changed;
      if b !in inMap {
        inMap := inMap[b := {}];
      }
      if b !in outMap {
        outMap := outMap[b := {}];
      }
      if in_ != inMap[b] {
        changes := true;
        inMap := inMap[b := in_];
      }
      if out != outMap[b] {
        changes := true;
        outMap := outMap[b := out];
      }
    }

    method PushPredecessors(g: Graph, b: BlockId, queue0: seq<BlockId>) returns (queue: seq<BlockId>)
      requires WellFormed(g) && b in g.pred && forall p :: p in queue0 ==> p in g.succ
      ensures queue0 <= queue
      ensures forall p :: p in g.pred[b] ==> p in queue
      ensures forall p :: p in queue ==> p in g.succ && (p in queue0 || p in g.pred[b])
    {
      queue := queue0;
      var rest := g.pred[b];
      while rest != {}
        invariant rest <= g.pred[b] && queue0 <= queue
        invariant forall p :: p in g.pred[b] - rest ==> p in queue
        invariant forall p :: p in queue ==> p in g.succ && (p in queue0 || p in g.pred[b])
        decreases rest
      {
        var p :| p in rest;
        rest := rest - {p};
        ghost var q := queue;
        queue := queue + [p];
        assert forall x :: x in queue <==> x in q || x == p;
      }
    }

    /** One breadth-first sweep from the last block against the edges. It visits exactly the blocks from
        which the last one can be reached. */
    method Sweep(g: Graph, c: Code, last: BlockId, ghost in0: map<BlockId, set<Operand>>,
                 ghost out0: map<BlockId, set<Operand>>)
      returns (changed: bool)
      requires WellFormed(g) && c.Keys == g.succ.Keys && last in c
      requires c.Keys <= useMap.Keys && c.Keys <= defMap.Keys
      requires forall b :: b in c ==> useMap[b] == UsesOf(c[b]) && defMap[b] == DefsOf(c[b])
      requires EmptyUnseen(Seen(g, last), inMap) && EmptyUnseen(Seen(g, last), outMap)
      requires Below(SeenPart(g, last), c, inMap, outMap) && in0 == inMap && out0 == outMap
      modifies this`visited, this`inMap, this`outMap
      ensures visited == Seen(g, last)
      ensures EmptyUnseen(Seen(g, last), inMap) && EmptyUnseen(Seen(g, last), outMap)
      ensures Below(SeenPart(g, last), c, inMap, outMap)
      ensures Round(SeenPart(g, last), c, Seen(g, last), changed, in0, out0, inMap, outMap)
    {
      ghost var v, r := SeenPart(g, last), Seen(g, last);
      hide *;
      LastSeen(g, last);
      FrontierStarts(g, last);
      changed := false;
      visited := {};
      RoundStarts(v, c, in0, out0);
      var queue := [last];
      while queue != []
        invariant visited <= r && Frontier(g, visited, queue, last) && (forall b :: b in queue ==> b in r)
        invariant EmptyUnseen(r, inMap) && EmptyUnseen(r, outMap)
        invariant Below(v, c, inMap, outMap) && Round(v, c, visited, changed, in0, out0, inMap, outMap)
        modifies this`visited, this`inMap, this`outMap
        decreases c.Keys - visited, |queue|
      {
        var b := queue[0];
        ghost var was := queue;
        queue := queue[1..];
        assert was == [b] + queue;
        if b !in visited {
          ghost var seen := visited;
          visited := visited + {b};
          queue := PushPredecessors(g, b, queue);
          QueueSeen(g, last, b, was[1..], queue);
          FrontierMoves(g, seen, was, queue, last, b);
          changed := Visit(g, c, last, b, changed, seen, in0, out0);
        } else {
          FrontierDrops(g, visited, was, last);
        }
      }
      SeenIsVisited(g, visited, last);
    }

    /** The dataflow equations are solved, and the solution is the least one, on the part of the function
        from which the last block can be reached; the rest has no sets. So it is the least solution of
        the whole exactly if no register is live into the rest. */
    method SolveDataflow(g: Graph, c: Code, last: BlockId)
      requires WellFormed(g) && c.Keys == g.succ.Keys && last in c
      requires c.Keys <= useMap.Keys && c.Keys <= defMap.Keys
      requires forall b :: b in c ==> useMap[b] == UsesOf(c[b]) && defMap[b] == DefsOf(c[b])
      requires inMap == map[] && outMap == map[]
      modifies this`visited, this`inMap, this`outMap
      ensures SolvedOn(SeenPart(g, last), c, Seen(g, last), inMap, outMap)
      ensures EmptyUnseen(Seen(g, last), inMap) && EmptyUnseen(Seen(g, last), outMap)
      ensures Solved(g, c, inMap, outMap) <==> NothingLiveUnseen(g, c, last)
    {
      ghost var v, r := SeenPart(g, last), Seen(g, last);
      hide *;
      LastSeen(g, last);
      NothingKnown(v, c, r);
      var changed := true;
      ghost var in0, out0 := inMap, outMap;
      while changed
        invariant EmptyUnseen(r, inMap) && EmptyUnseen(r, outMap) && Below(v, c, inMap, outMap)
        invariant !changed ==> Round(v, c, r, false, in0, out0, inMap, outMap)
        modifies this`visited, this`inMap, this`outMap
        decreases Missing(c, inMap), Missing(c, outMap), changed
      {
        in0, out0 := inMap, outMap;
        changed := Sweep(g, c, last, in0, out0);
        RoundProgress(v, c, changed, in0, out0, inMap, outMap, r);
      }
      PartIsClosed(g, last);
      QuietRoundSolves(v, c, r, in0, out0, inMap, outMap);
      SolvedIffNothingUnseen(g, c, last, inMap, outMap);
    }

    /** One definition: the open range of the register ends here, or a range of one instruction does. */
    method ScanDef(d: Operand, m: nat, b: BlockId, buffer0: map<Operand, Range>) returns (buffer: map<Operand, Range>)
      requires NonEmptyLists(liveRanges) && forall o :: o in buffer0 ==> IsReg(o)
      modifies this`liveRanges
      ensures NonEmptyLists(liveRanges) && forall o :: o in buffer ==> IsReg(o)
      ensures forall o :: IsReg(o) ==> ScanOf(liveRanges, buffer, o) == if d == o
          then DefStep(ScanOf(old(liveRanges), buffer0, o), m, b) else ScanOf(old(liveRanges), buffer0, o)
    {
      buffer := buffer0;
      if IsReg(d) {
        if d !in buffer {
          liveRanges := liveRanges[d := ListOf(liveRanges, d) + [Range(m, m, 1, b)]];
        } else {
          var r := buffer[d];
          liveRanges := liveRanges[d := ListOf(liveRanges, d) + [r.(begin := m, count := r.count + 1)]];
          buffer := buffer - {d};
        }
      }
    }

    method ScanDefs(defs: seq<Operand>, m: nat, b: BlockId, buffer0: map<Operand, Range>)
      returns (buffer: map<Operand, Range>)
      requires NonEmptyLists(liveRanges) && forall o :: o in buffer0 ==> IsReg(o)
      modifies this`liveRanges
      ensures NonEmptyLists(liveRanges) && forall o :: o in buffer ==> IsReg(o)
      ensures forall o :: IsReg(o) ==> ScanOf(liveRanges, buffer, o) == AfterDefs(defs, o,
          ScanOf(old(liveRanges), buffer0, o), m, b)
    {
      hide AfterDefs;
      buffer := buffer0;
      ghost var ranges0 := liveRanges;
      NoDefs(m, b);
      var k: nat := 0;
      while k < |defs|
        invariant k <= |defs| && NonEmptyLists(liveRanges) && forall o :: o in buffer ==> IsReg(o)
        invariant forall o :: IsReg(o) ==> ScanOf(liveRanges, buffer, o) == AfterDefs(defs[..k], o,
            ScanOf(ranges0, buffer0, o), m, b)
      {
        var d := defs[k];
        ghost var ranges1, buffer1 := liveRanges, buffer;
        hide ScanOf, DefStep, NonEmptyLists;
        buffer := ScanDef(d, m, b, buffer);
        forall o | IsReg(o) ensures ScanOf(liveRanges, buffer, o) == AfterDefs(defs[..k + 1], o,
            ScanOf(ranges0, buffer0, o), m, b) {
          OneMoreDef(defs, k, o, ScanOf(ranges0, buffer0, o), m, b);
        }
        k := k + 1;
      }
      assert defs[..k] == defs;
    }

    method ScanUses(uses: seq<Operand>, base: nat, m: nat, b: BlockId, buffer0: map<Operand, Range>)
      returns (buffer: map<Operand, Range>)
      requires forall o :: o in buffer0 ==> IsReg(o)
      ensures forall o :: o in buffer ==> IsReg(o)
      ensures forall o :: IsReg(o) ==> ScanOf(liveRanges, buffer, o) == AfterUses(uses, o,
          ScanOf(liveRanges, buffer0, o), base, m, b)
    {
      buffer := buffer0;
      var k: nat := 0;
      while k < |uses|
        invariant k <= |uses| && forall o :: o in buffer ==> IsReg(o)
        invariant forall o :: IsReg(o) ==> ScanOf(liveRanges, buffer, o) == AfterUses(uses[..k], o,
            ScanOf(liveRanges, buffer0, o), base, m, b)
      {
        var u := uses[k];
        assert uses[..k + 1][..k] == uses[..k];
        if IsReg(u) {
          if u !in buffer {
            buffer := buffer[u := Range(base, m, 1, b)];
          } else {
            buffer := buffer[u := buffer[u].(count := buffer[u].count + 1)];
          }
        }
        k := k + 1;
      }
      assert uses[..k] == uses;
    }

    /** Ranges still open at the top of the block are emitted as they are. */
    method FlushBuffer(buffer0: map<Operand, Range>)
      requires NonEmptyLists(liveRanges) && forall o :: o in buffer0 ==> IsReg(o)
      modifies this`liveRanges
      ensures NonEmptyLists(liveRanges)
      ensures forall o :: ListOf(liveRanges, o) == Known(ScanOf(old(liveRanges), buffer0, o))
    {
      var buffer := buffer0;
      ghost var ranges0 := liveRanges;
      while buffer != map[]
        invariant NonEmptyLists(liveRanges) && buffer.Keys <= buffer0.Keys
        invariant forall o :: o in buffer ==> buffer[o] == buffer0[o] && IsReg(o)
        invariant forall o :: Known(ScanOf(liveRanges, buffer, o)) == Known(ScanOf(ranges0, buffer0, o))
        decreases buffer.Keys
      {
        var o :| o in buffer;
        liveRanges := liveRanges[o := ListOf(liveRanges, o) + [buffer[o]]];
        buffer := buffer - {o};
      }
      forall o ensures ListOf(liveRanges, o) == Known(ScanOf(ranges0, buffer0, o)) {
        assert Known(ScanOf(liveRanges, buffer, o)) == ListOf(liveRanges, o) + [];
      }
    }

    /** The backward scan of one block: every register's ranges of the block are appended to its list. */
    method ScanBlock(c: Code, b: BlockId, base: nat, out: set<Operand>)
      requires b in c && |c[b]| > 0 && NonEmptyLists(liveRanges)
      modifies this`liveRanges
      ensures Appended(c, b, base, out, old(liveRanges), liveRanges)
    {
      hide *;
      var n := |c[b]|;
      var buffer: map<Operand, Range> := map o | o in out && IsReg(o) :: Range(base, base + n - 1, 0, b);
      ghost var before := liveRanges;
      var i: nat := n;
      TracksStarts(c, b, base, out, before, buffer);
      while i > 0
        invariant i <= n && Tracks(c, b, base, out, i, before, liveRanges, buffer)
      {
        i := i - 1;
        ghost var r0, b0 := liveRanges, buffer;
        TracksFacts(c, b, base, out, i + 1, before, liveRanges, buffer);
        buffer := ScanDefs(c[b][i].defs, base + i, b, buffer);
        ghost var r1, b1 := liveRanges, buffer;
        buffer := ScanUses(c[b][i].uses, base, base + i, b, buffer);
        TracksSteps(c, b, base, out, i, before, r0, b0, r1, b1, liveRanges, buffer);
      }
      ghost var ranges := liveRanges;
      TracksFacts(c, b, base, out, 0, before, liveRanges, buffer);
      FlushBuffer(buffer);
      TracksEnds(c, b, base, out, before, ranges, buffer, liveRanges);
    }

    /** The ranges of one register in increasing order of their first instruction. */
    static method SortByBegin(rs: seq<Range>) returns (sorted: seq<Range>)
      ensures multiset(sorted) == multiset(rs) && SortedByBegin(sorted)
    {
      hide SortedByBegin;
      sorted := [];
      SortedShort();
      var i := 0;
      while i < |rs|
        invariant 0 <= i <= |rs| && multiset(sorted) == multiset(rs[..i]) && SortedByBegin(sorted)
      {
        assert rs[..i + 1] == rs[..i] + [rs[i]];
        sorted := InsertByBegin(sorted, rs[i]);
        i := i + 1;
      }
      assert rs[..i] == rs;
    }

    static method InsertByBegin(rs: seq<Range>, r: Range) returns (sorted: seq<Range>)
      requires SortedByBegin(rs)
      ensures multiset(sorted) == multiset(rs) + multiset{r} && SortedByBegin(sorted)
    {
      var k := 0;
      while k < |rs| && rs[k].begin <= r.begin
        invariant 0 <= k <= |rs|
        invariant forall j :: 0 <= j < k ==> rs[j].begin <= r.begin
      {
        k := k + 1;
      }
      sorted := rs[..k] + [r] + rs[k..];
      InsertKeepsOrder(rs, r, k);
      assert rs == rs[..k] + rs[k..];
    }

    method SortAll()
      requires NonEmptyLists(liveRanges)
      modifies this`liveRanges
      ensures NonEmptyLists(liveRanges) && liveRanges.Keys == old(liveRanges).Keys
      ensures forall o :: multiset(ListOf(liveRanges, o)) == multiset(ListOf(old(liveRanges), o))
      ensures forall o :: SortedByBegin(ListOf(liveRanges, o))
    {
      ghost var before := liveRanges;
      var rest := liveRanges.Keys;
      while rest != {}
        invariant rest <= before.Keys && liveRanges.Keys == before.Keys && NonEmptyLists(liveRanges)
        invariant forall o :: multiset(ListOf(liveRanges, o)) == multiset(ListOf(before, o))
        invariant forall o :: o in before.Keys - rest ==> SortedByBegin(ListOf(liveRanges, o))
        decreases rest
      {
        var o :| o in rest;
        rest := rest - {o};
        var sorted := SortByBegin(liveRanges[o]);
        SameElements(sorted, liveRanges[o]);
        liveRanges := liveRanges[o := sorted];
      }
    }

    /** The whole pass, for a function whose blocks are listed in `layout`. */
    method Analyze(g: Graph, c: Code, layout: seq<BlockId>)
      requires FunctionShape(g, c, layout)
      requires visited == {} && useMap == map[] && defMap == map[] && inMap == map[] && outMap == map[]
      requires nextNum == 0 && id2num == map[] && num2id == map[] && liveRanges == map[]
      modifies this
      ensures AllNumbered(c, id2num, num2id, nextNum)
      ensures SolvedOn(SeenPart(g, layout[|layout| - 1]), c, Seen(g, layout[|layout| - 1]), inMap, outMap)
      ensures EmptyUnseen(Seen(g, layout[|layout| - 1]), outMap)
      ensures Solved(g, c, inMap, outMap) <==> NothingLiveUnseen(g, c, layout[|layout| - 1])
      ensures RangesFrom(c, layout, id2num, outMap, liveRanges)
      ensures NothingLiveUnseen(g, c, layout[|layout| - 1]) ==> RangesCorrect(g, c, layout, id2num, liveRanges)
    {
      hide *;
      ShapeFacts(g, c, layout);
      NothingNumbered(c);
      DepthFirstNumbering(g, c, g.entry);
      AllBlocksNumbered(g, c, layout, visited, useMap, defMap, id2num, num2id, nextNum);
      SolveDataflow(g, c, layout[|layout| - 1]);
      ghost var numbers := id2num;
      var i: nat := 0;
      ScannedStarts(c, layout, numbers, outMap);
      while i < |layout|
        invariant i <= |layout| && Scanned(c, layout, i, numbers, outMap, liveRanges)
        modifies this`liveRanges
      {
        ShapeFacts(g, c, layout);
        var b := layout[i];
        ghost var before := liveRanges;
        ScannedFacts(c, layout, i, numbers, outMap, liveRanges);
        var out := if b in outMap then outMap[b] else {};
        LookupIs(outMap, b);
        ScanBlock(c, b, id2num[(b, 0)], out);
        ScannedSteps(c, layout, i, numbers, outMap, before, liveRanges);
        i := i + 1;
      }
      ghost var before := liveRanges;
      ScannedFacts(c, layout, i, numbers, outMap, liveRanges);
      SortAll();
      SortedCorrect(c, layout, numbers, outMap, before, liveRanges);
      if Solved(g, c, inMap, outMap) {
        SolvedRanges(g, c, layout, numbers, inMap, outMap, liveRanges);
      }
    }
  }

  predicate SortedByBegin(rs: seq<Range>) {
    forall i, j :: 0 <= i < j < |rs| ==> rs[i].begin <= rs[j].begin
  }

  lemma SortedShort()
    ensures SortedByBegin([])
  {
  }

  lemma InsertKeepsOrder(rs: seq<Range>, r: Range, k: nat)
    requires SortedByBegin(rs) && k <= |rs|
    requires forall j :: 0 <= j < k ==> rs[j].begin <= r.begin
    requires k < |rs| ==> r.begin <= rs[k].begin
    ensures SortedByBegin(rs[..k] + [r] + rs[k..])
  {
    var s := rs[..k] + [r] + rs[k..];
    forall i, j | 0 <= i < j < |s| ensures s[i].begin <= s[j].begin {
      var a := if i < k then rs[i] else if i == k then r else rs[i - 1];
      var b := if j < k then rs[j] else if j == k then r else rs[j - 1];
      assert s[i] == a && s[j] == b;
    }
  }

  lemma SameElements(rs: seq<Range>, qs: seq<Range>)
    requires multiset(rs) == multiset(qs)
    ensures |rs| == |qs|
    ensures forall r :: r in rs <==> r in qs
  {
    assert |multiset(rs)| == |rs| && |multiset(qs)| == |qs|;
    forall r ensures r in rs <==> r in qs {
      assert r in rs <==> r in multiset(rs);
      assert r in qs <==> r in multiset(qs);
    }
  }

  // ----- the result -----

  ghost predicate AllNumbered(c: Code, id2num: map<InstrId, nat>, num2id: map<nat, InstrId>, next: nat) {
    forall b :: b in c ==> BlockNumbered(c, id2num, num2id, next, b)
  }

  /** The number of the first instruction of `b`. */
  function BaseOf(id2num: map<InstrId, nat>, b: BlockId): nat {
    if (b, 0) in id2num then id2num[(b, 0)] else 0
  }

  /** The ranges of `o` in all the blocks of `layout`, in that order. */
  ghost function AllRanges(g: Graph, c: Code, layout: seq<BlockId>, id2num: map<InstrId, nat>, o: Operand): seq<Range> {
    if layout == [] then []
    else
      var b := layout[|layout| - 1];
      AllRanges(g, c, layout[..|layout| - 1], id2num, o) + RangesIn(g, c, id2num, b, o)
  }

  ghost function RangesIn(g: Graph, c: Code, id2num: map<InstrId, nat>, b: BlockId, o: Operand): seq<Range> {
    if b in c && |c[b]| > 0 then BlockRanges(c[b], BaseOf(id2num, b), b, LiveOut(g, c, b, o), o) else []
  }

  /** Every register has exactly the ranges of its blocks, sorted by their first instruction. */
  ghost predicate RangesCorrect(g: Graph, c: Code, layout: seq<BlockId>, id2num: map<InstrId, nat>,
                                ranges: map<Operand, seq<Range>>) {
    && NonEmptyLists(ranges)
    && (forall o :: IsReg(o) ==> multiset(ListOf(ranges, o)) == multiset(AllRanges(g, c, layout, id2num, o)))
    && (forall o :: SortedByBegin(ListOf(ranges, o)))
  }

  /** The ranges of `o` that given Out sets lead to, in all the blocks of `layout`. */
  ghost function RangesOut(c: Code, layout: seq<BlockId>, id2num: map<InstrId, nat>, outOf: map<BlockId, set<Operand>>,
                           o: Operand): seq<Range> {
    if layout == [] then []
    else
      var b := layout[|layout| - 1];
      RangesOut(c, layout[..|layout| - 1], id2num, outOf, o)
      + if b in c && |c[b]| > 0 then BlockRanges(c[b], BaseOf(id2num, b), b, o in Lookup(outOf, b), o) else []
  }

  /** Every register has exactly those, sorted by their first instruction. */
  ghost predicate RangesFrom(c: Code, layout: seq<BlockId>, id2num: map<InstrId, nat>,
                             outOf: map<BlockId, set<Operand>>,
                             ranges: map<Operand, seq<Range>>) {
    && NonEmptyLists(ranges)
    && (forall o :: IsReg(o) ==> multiset(ListOf(ranges, o)) == multiset(RangesOut(c, layout, id2num, outOf, o)))
    && (forall o :: SortedByBegin(ListOf(ranges, o)))
  }

  ghost predicate Scanned(c: Code, layout: seq<BlockId>, i: nat, id2num: map<InstrId, nat>,
                          outOf: map<BlockId, set<Operand>>, ranges: map<Operand, seq<Range>>) {
    && i <= |layout| && NonEmptyLists(ranges)
    && (forall o :: IsReg(o) ==> ListOf(ranges, o) == RangesOut(c, layout[..i], id2num, outOf, o))
  }

  lemma ShapeFacts(g: Graph, c: Code, layout: seq<BlockId>)
    requires FunctionShape(g, c, layout)
    ensures WellFormed(g) && AllReachable(g) && c.Keys == g.succ.Keys && g.entry in c && |layout| > 0
    ensures forall i :: 0 <= i < |layout| ==> layout[i] in c
    ensures forall b :: b in c ==> |c[b]| > 0 && b in layout
  {
  }

  lemma NothingNumbered(c: Code)
    ensures Numbered(c, {}, map[], map[], map[], map[], 0)
  {
  }

  lemma AllBlocksNumbered(g: Graph, c: Code, layout: seq<BlockId>, visited: set<BlockId>,
                          useMap: map<BlockId, set<Operand>>,
                          defMap: map<BlockId, set<Operand>>, id2num: map<InstrId, nat>, num2id: map<nat, InstrId>,
                              next: nat)
    requires FunctionShape(g, c, layout) && Numbered(c, visited, useMap, defMap, id2num, num2id, next)
    requires g.entry in visited && visited <= c.Keys
    requires forall x, s :: x in visited && Edge(g, x, s) ==> s in visited
    ensures AllNumbered(c, id2num, num2id, next)
    ensures forall b :: b in c ==> b in useMap && b in defMap && useMap[b] == UsesOf(c[b]) && defMap[b] == DefsOf(c[b])
    ensures forall b :: b in c ==> (b, 0) in id2num
  {
    hide UsesOf, DefsOf, BlockNumbered;
    forall b | b in c ensures b in visited {
      var p :| IsPath(g, p, g.entry, b);
      ForwardVisitsAll(g, visited, p, g.entry, b);
    }
    forall b | b in c ensures (b, 0) in id2num {
      FirstIsNumbered(c, id2num, num2id, next, b);
    }
  }

  lemma FirstIsNumbered(c: Code, id2num: map<InstrId, nat>, num2id: map<nat, InstrId>, next: nat, b: BlockId)
    requires b in c && |c[b]| > 0 && BlockNumbered(c, id2num, num2id, next, b)
    ensures (b, 0) in id2num
  {
    assert At(c, b, 0);
    assert NumberedAt(id2num, num2id, next, b, 0);
  }

  lemma LookupIs(m: map<BlockId, set<Operand>>, b: BlockId)
    ensures Lookup(m, b) == if b in m then m[b] else {}
  {
  }

  lemma ScannedStarts(c: Code, layout: seq<BlockId>, id2num: map<InstrId, nat>, outOf: map<BlockId, set<Operand>>)
    ensures Scanned(c, layout, 0, id2num, outOf, map[])
  {
  }

  lemma ScannedFacts(c: Code, layout: seq<BlockId>, i: nat, id2num: map<InstrId, nat>,
                     outOf: map<BlockId, set<Operand>>, ranges: map<Operand, seq<Range>>)
    requires Scanned(c, layout, i, id2num, outOf, ranges)
    ensures NonEmptyLists(ranges)
  {
  }

  lemma ScannedSteps(c: Code, layout: seq<BlockId>, i: nat, id2num: map<InstrId, nat>,
                     outOf: map<BlockId, set<Operand>>, before: map<Operand, seq<Range>>,
                     after: map<Operand, seq<Range>>)
    requires Scanned(c, layout, i, id2num, outOf, before) && i < |layout|
    requires layout[i] in c && (layout[i], 0) in id2num
    requires Appended(c, layout[i], id2num[(layout[i], 0)], Lookup(outOf, layout[i]), before, after)
    ensures Scanned(c, layout, i + 1, id2num, outOf, after)
  {
    hide BlockRanges, Lookup;
    forall o | IsReg(o) ensures ListOf(after, o) == RangesOut(c, layout[..i + 1], id2num, outOf, o) {
      assert layout[..i + 1][..i] == layout[..i];
    }
  }

  lemma SortedCorrect(c: Code, layout: seq<BlockId>, id2num: map<InstrId, nat>, outOf: map<BlockId, set<Operand>>,
                      before: map<Operand, seq<Range>>, after: map<Operand, seq<Range>>)
    requires Scanned(c, layout, |layout|, id2num, outOf, before) && NonEmptyLists(after)
    requires forall o :: multiset(ListOf(after, o)) == multiset(ListOf(before, o))
    requires forall o :: SortedByBegin(ListOf(after, o))
    ensures RangesFrom(c, layout, id2num, outOf, after)
  {
    assert layout[..|layout|] == layout;
  }

  lemma {:induction false} SolvedOut(g: Graph, c: Code, layout: seq<BlockId>, id2num: map<InstrId, nat>,
                                     inOf: map<BlockId, set<Operand>>, outOf: map<BlockId, set<Operand>>, o: Operand)
    requires Solved(g, c, inOf, outOf)
    ensures RangesOut(c, layout, id2num, outOf, o) == AllRanges(g, c, layout, id2num, o)
  {
    hide BlockRanges, LiveOut, LiveIn, Lookup;
    if layout != [] {
      SolvedOut(g, c, layout[..|layout| - 1], id2num, inOf, outOf, o);
      var b := layout[|layout| - 1];
      assert b in c ==> (o in Lookup(outOf, b)) == LiveOut(g, c, b, o);
    }
  }

  /** With the Out sets of the least solution these are the ranges of the live registers. */
  lemma SolvedRanges(g: Graph, c: Code, layout: seq<BlockId>, id2num: map<InstrId, nat>,
                     inOf: map<BlockId, set<Operand>>, outOf: map<BlockId, set<Operand>>,
                     ranges: map<Operand, seq<Range>>)
    requires Solved(g, c, inOf, outOf) && RangesFrom(c, layout, id2num, outOf, ranges)
    ensures RangesCorrect(g, c, layout, id2num, ranges)
  {
    hide Solved, RangesOut, AllRanges;
    forall o | IsReg(o) ensures multiset(ListOf(ranges, o)) == multiset(AllRanges(g, c, layout, id2num, o)) {
      SolvedOut(g, c, layout, id2num, inOf, outOf, o);
    }
  }

  // ----- interference of whole functions -----

  /** `o` is live just before instruction `i` of `b`; `i` may be the end of the block. */
  ghost predicate LiveAt(g: Graph, c: Code, b: BlockId, o: Operand, i: nat)
    requires b in c && i <= |c[b]|
  {
    LiveBefore(c[b], LiveOut(g, c, b, o), o, i)
  }

  ghost predicate Interfere(rs: seq<Range>, qs: seq<Range>) {
    exists r, q :: r in rs && q in qs && Conflict(r, q)
  }

  lemma {:induction false} BlockRangesListed(g: Graph, c: Code, layout: seq<BlockId>, id2num: map<InstrId, nat>,
                                             o: Operand, b: BlockId, r: Range)
    requires b in layout && r in RangesIn(g, c, id2num, b, o)
    ensures r in AllRanges(g, c, layout, id2num, o)
  {
    hide RangesIn;
    var n := |layout| - 1;
    assert layout == layout[..n] + [layout[n]];
    if b != layout[n] {
      BlockRangesListed(g, c, layout[..n], id2num, o, b, r);
    }
  }

  lemma {:induction false} ListedInBlock(g: Graph, c: Code, layout: seq<BlockId>, id2num: map<InstrId, nat>, o: Operand,
                                         r: Range)
    requires r in AllRanges(g, c, layout, id2num, o)
    ensures exists b :: b in layout && r in RangesIn(g, c, id2num, b, o)
  {
    hide RangesIn;
    if layout != [] {
      var n := |layout| - 1;
      assert layout == layout[..n] + [layout[n]];
      if r !in RangesIn(g, c, id2num, layout[n], o) {
        ListedInBlock(g, c, layout[..n], id2num, o, r);
      }
    }
  }

  lemma ConflictsInBlock(g: Graph, c: Code, layout: seq<BlockId>, id2num: map<InstrId, nat>,
                         ranges: map<Operand, seq<Range>>,
                         b: BlockId, x: Operand, y: Operand)
    requires RangesCorrect(g, c, layout, id2num, ranges) && b in layout && IsReg(x) && IsReg(y)
    requires SomeConflict(RangesIn(g, c, id2num, b, x), RangesIn(g, c, id2num, b, y))
    ensures Interfere(ListOf(ranges, x), ListOf(ranges, y))
  {
    hide RangesIn, AllRanges, ListOf;
    var rs, qs := RangesIn(g, c, id2num, b, x), RangesIn(g, c, id2num, b, y);
    var k, l :| 0 <= k < |rs| && 0 <= l < |qs| && Conflict(rs[k], qs[l]);
    BlockRangesListed(g, c, layout, id2num, x, b, rs[k]);
    BlockRangesListed(g, c, layout, id2num, y, b, qs[l]);
    SameElements(ListOf(ranges, x), AllRanges(g, c, layout, id2num, x));
    SameElements(ListOf(ranges, y), AllRanges(g, c, layout, id2num, y));
    assert rs[k] in ListOf(ranges, x) && qs[l] in ListOf(ranges, y);
  }

  /** Registers live at the same point have conflicting ranges. */
  lemma LiveTogetherInterfere(g: Graph, c: Code, layout: seq<BlockId>, id2num: map<InstrId, nat>,
                              ranges: map<Operand, seq<Range>>,
                              b: BlockId, x: Operand, y: Operand, i: nat)
    requires FunctionShape(g, c, layout) && RangesCorrect(g, c, layout, id2num, ranges) && b in c && IsReg(x)
        && IsReg(y)
    requires i <= |c[b]| && LiveAt(g, c, b, x, i) && LiveAt(g, c, b, y, i)
    ensures Interfere(ListOf(ranges, x), ListOf(ranges, y))
  {
    LiveTogetherConflict(c[b], BaseOf(id2num, b), b, LiveOut(g, c, b, x), LiveOut(g, c, b, y), x, y, i);
    hide BlockRanges, RangesCorrect;
    ConflictsInBlock(g, c, layout, id2num, ranges, b, x, y);
  }

  /** A register defined where another is live afterwards, or by the same instruction, conflicts with it. */
  lemma DefinitionInterferes(g: Graph, c: Code, layout: seq<BlockId>, id2num: map<InstrId, nat>,
                             ranges: map<Operand, seq<Range>>,
                             b: BlockId, x: Operand, y: Operand, i: nat)
    requires FunctionShape(g, c, layout) && RangesCorrect(g, c, layout, id2num, ranges) && b in c && IsReg(x)
        && IsReg(y)
    requires i < |c[b]| && x in c[b][i].defs && (LiveAt(g, c, b, y, i + 1) || y in c[b][i].defs)
    ensures Interfere(ListOf(ranges, x), ListOf(ranges, y)) && Interfere(ListOf(ranges, y), ListOf(ranges, x))
  {
    var base, outX, outY := BaseOf(id2num, b), LiveOut(g, c, b, x), LiveOut(g, c, b, y);
    if y in c[b][i].defs {
      DefinedTogetherConflict(c[b], base, b, outX, outY, x, y, i);
      DefinedTogetherConflict(c[b], base, b, outY, outX, y, x, i);
    } else {
      DefinedUnderLiveConflict(c[b], base, b, outX, outY, x, y, i);
    }
    hide BlockRanges, RangesCorrect;
    ConflictsInBlock(g, c, layout, id2num, ranges, b, x, y);
    ConflictsInBlock(g, c, layout, id2num, ranges, b, y, x);
  }
}
