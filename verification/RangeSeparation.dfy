/** How the ranges of one register lie to each other, and what that means for the scan of the allocator:
    ranges only touch where one instruction both uses and defines the register, and only at the start
    of a block can two of them begin together. */
module RangeSeparation {
  import opened ControlFlowGraph
  import opened AsmProgram
  import opened BackendRegisters
  import opened Liveness
  import opened LiveRanges
  import opened LivenessPass
  import opened ConflictScan
  import opened AllocatedCode
  import opened AllocationSimulation
  import opened AllocatorState

  // ----- one block -----

  /** The instruction defines `o` at most once. */
  predicate DefinesOnce(defs: seq<Operand>, o: Operand) {
    forall i, j :: 0 <= i < j < |defs| ==> !(defs[i] == o && defs[j] == o)
  }

  /** No instruction both uses and defines `o`. */
  predicate NeverUpdates(instrs: seq<Instr>, o: Operand) {
    forall i :: 0 <= i < |instrs| ==> !(o in instrs[i].defs && o in instrs[i].uses)
  }

  lemma {:induction false} DefinedOnceCloses(defs: seq<Operand>, o: Operand, s: Scan, m: nat, b: BlockId)
    requires DefinesOnce(defs, o)
    ensures |AfterDefs(defs, o, s, m, b).done| == |s.done| + if o in defs then 1 else 0
  {
    if defs != [] {
      var n := |defs| - 1;
      DefinedOnceCloses(defs[..n], o, s, m, b);
      DefsClose(defs[..n], o, s, m, b);
      assert defs == defs[..n] + [defs[n]];
    }
  }

  /** The scan finds the ranges from the last to the first: each ends where the one found before begins
      or earlier, strictly earlier if `apart`. */
  ghost predicate Descends(s: Scan, apart: bool) {
    && (forall p, q :: 0 <= p < q < |s.done| ==>
        s.done[q].begin < s.done[p].begin
        && Below(s.done[q].end, s.done[p].begin, apart))
    && (s.open.Open? ==> forall p :: 0 <= p < |s.done| ==> Below(s.open.range.end, s.done[p].begin, apart))
  }

  predicate Below(x: nat, y: nat, strictly: bool) {
    if strictly then x < y else x <= y
  }

  lemma StepDescends(s: Scan, u: Scan, t: Scan, defines: bool, uses: bool, base: nat, n: nat, i: nat, b: BlockId,
                     live: bool, apart: bool)
    requires ClosedIf(s, u, defines, base + i, b) && OpenedIf(u, t, uses, base, base + i, b)
    requires Shape(s, base, n, b, live, i + 1) && i < n && Descends(s, apart)
    requires |u.done| == |s.done| + (if defines then 1 else 0) && (apart ==> !(defines && uses))
    ensures Descends(t, apart)
  {
    forall p | 0 <= p < |s.done| ensures u.done[p] == s.done[p] {
      if defines { assert u.done[p] == u.done[..|s.done|][p]; }
    }
  }

  lemma {:induction false} ScanDescends(instrs: seq<Instr>, base: nat, b: BlockId, liveOut: bool, o: Operand, i: nat,
                                        apart: bool)
    requires |instrs| > 0 && i <= |instrs| && (forall k :: 0 <= k < |instrs| ==> DefinesOnce(instrs[k].defs, o))
    requires apart ==> NeverUpdates(instrs, o)
    ensures Descends(ScanFrom(instrs, base, b, liveOut, o, i), apart)
    decreases |instrs| - i
  {
    if i < |instrs| {
      ScanDescends(instrs, base, b, liveOut, o, i + 1, apart);
      ScanShape(instrs, base, b, liveOut, o, i + 1);
      var s, m := ScanFrom(instrs, base, b, liveOut, o, i + 1), base + i;
      var u := AfterDefs(instrs[i].defs, o, s, m, b);
      DefsClose(instrs[i].defs, o, s, m, b);
      DefinedOnceCloses(instrs[i].defs, o, s, m, b);
      UsesOpen(instrs[i].uses, o, u, base, m, b);
      var t := ScanFrom(instrs, base, b, liveOut, o, i);
      assert t == AfterUses(instrs[i].uses, o, u, base, m, b);
      hide ScanFrom, AfterDefs, AfterUses, Shape, Descends, Closed, Opened;
      StepDescends(s, u, t, o in instrs[i].defs, o in instrs[i].uses, base, |instrs|, i, b,
          LiveBefore(instrs, liveOut, o, i + 1), apart);
    }
  }

  /** Two ranges of one register in a block: the one found later ends at or before the begin of the
      other, and if both begin together they begin with the block. */
  lemma BlockRangesTouch(instrs: seq<Instr>, base: nat, b: BlockId, liveOut: bool, o: Operand, p: nat, q: nat,
                         apart: bool)
    requires |instrs| > 0 && (forall k :: 0 <= k < |instrs| ==> DefinesOnce(instrs[k].defs, o))
    requires p < q < |BlockRanges(instrs, base, b, liveOut, o)| && (apart ==> NeverUpdates(instrs, o))
    ensures var rs := BlockRanges(instrs, base, b, liveOut, o);
      && Below(rs[q].end, rs[p].begin, apart)
      && (rs[p].begin == rs[q].begin ==> rs[p].begin == base)
  {
    ScanDescends(instrs, base, b, liveOut, o, 0, apart);
    ScanShape(instrs, base, b, liveOut, o, 0);
  }

  lemma {:induction false} KnownGrows(instrs: seq<Instr>, base: nat, b: BlockId, liveOut: bool, o: Operand, i: nat,
                                      j: nat)
    requires |instrs| > 0 && i <= j <= |instrs|
    ensures |Known(ScanFrom(instrs, base, b, liveOut, o, i))| >= |Known(ScanFrom(instrs, base, b, liveOut, o, j))|
    decreases j - i
  {
    if i < j {
      KnownGrows(instrs, base, b, liveOut, o, i + 1, j);
      ScanSteps(instrs, base, b, liveOut, o, i);
      var s, t := ScanFrom(instrs, base, b, liveOut, o, i + 1), ScanFrom(instrs, base, b, liveOut, o, i);
      var u := StepParts(s, t, o in instrs[i].defs, o in instrs[i].uses, base, base + i, b);
    }
  }

  /** An instruction that both uses and defines a register gives it two ranges. */
  lemma UpdateMakesTwo(instrs: seq<Instr>, base: nat, b: BlockId, liveOut: bool, o: Operand, i: nat)
    requires i < |instrs| && o in instrs[i].defs && o in instrs[i].uses
    ensures |BlockRanges(instrs, base, b, liveOut, o)| >= 2
  {
    KnownGrows(instrs, base, b, liveOut, o, 0, i);
    ScanSteps(instrs, base, b, liveOut, o, i);
    var s, t := ScanFrom(instrs, base, b, liveOut, o, i + 1), ScanFrom(instrs, base, b, liveOut, o, i);
    var u := StepParts(s, t, true, true, base, base + i, b);
  }

  // ----- the whole function -----

  /** No instruction both uses and defines the same virtual register. */
  ghost predicate NoSelfUpdate(c: Code) {
    forall b, i: nat, o: Operand :: At(c, b, i) && o.Virtual? ==> !(o in c[b][i].defs && o in c[b][i].uses)
  }

  lemma VirtualDefinedOnce(c: Code, b: BlockId, o: Operand)
    requires AllSpillable(c) && b in c && o.Virtual?
    ensures forall k :: 0 <= k < |c[b]| ==> DefinesOnce(c[b][k].defs, o)
  {
    forall k | 0 <= k < |c[b]| ensures DefinesOnce(c[b][k].defs, o) {
      assert At(c, b, k);
    }
  }

  lemma NoUpdateInBlock(c: Code, b: BlockId, o: Operand)
    requires NoSelfUpdate(c) && b in c && o.Virtual?
    ensures NeverUpdates(c[b], o)
  {
    forall k | 0 <= k < |c[b]| ensures !(o in c[b][k].defs && o in c[b][k].uses) {
      assert At(c, b, k);
    }
  }

  /** The numbers of different blocks lie apart. */
  lemma BlocksApart(c: Code, id2num: map<InstrId, nat>, num2id: map<nat, InstrId>, next: nat, b: BlockId, d: BlockId)
    requires AllNumbered(c, id2num, num2id, next) && b in c && d in c && b != d && |c[b]| > 0 && |c[d]| > 0
    ensures BaseOf(id2num, b) + |c[b]| <= BaseOf(id2num, d) || BaseOf(id2num, d) + |c[d]| <= BaseOf(id2num, b)
  {
    var x, y := BaseOf(id2num, b), BaseOf(id2num, d);
    if x <= y < x + |c[b]| {
      NumberLeadsBack(c, id2num, num2id, next, b, y - x);
      NumberLeadsBack(c, id2num, num2id, next, d, 0);
    } else if y <= x < y + |c[d]| {
      NumberLeadsBack(c, id2num, num2id, next, d, x - y);
      NumberLeadsBack(c, id2num, num2id, next, b, 0);
    }
  }

  lemma NumberLeadsBack(c: Code, id2num: map<InstrId, nat>, num2id: map<nat, InstrId>, next: nat, b: BlockId, i: nat)
    requires AllNumbered(c, id2num, num2id, next) && b in c && i < |c[b]|
    ensures BaseOf(id2num, b) + i in num2id && num2id[BaseOf(id2num, b) + i] == (b, i)
  {
    assert At(c, b, i);
    assert BlockNumbered(c, id2num, num2id, next, b);
    assert NumberedAt(id2num, num2id, next, b, i);
  }

  /** What a function's ranges rest on. */
  ghost predicate RangedCode(g: Graph, c: Code, layout: seq<BlockId>, id2num: map<InstrId, nat>,
                             num2id: map<nat, InstrId>, next: nat,
                             ranges: map<Operand, seq<Range>>) {
    FunctionShape(g, c, layout) && AllNumbered(c, id2num, num2id, next) && RangesCorrect(g, c, layout, id2num, ranges)
        && AllSpillable(c)
  }

  /** The block of a range, and where in the ranges of that block it stands. */
  lemma RangeAt(g: Graph, c: Code, layout: seq<BlockId>, id2num: map<InstrId, nat>, ranges: map<Operand, seq<Range>>,
                o: Operand, r: Range)
    returns (b: BlockId, k: nat)
    requires FunctionShape(g, c, layout) && RangesCorrect(g, c, layout, id2num, ranges) && IsReg(o)
        && r in ListOf(ranges, o)
    ensures b in c && |c[b]| > 0 && BaseOf(id2num, b) <= r.begin <= r.end < BaseOf(id2num, b) + |c[b]|
    ensures var rs := BlockRanges(c[b], BaseOf(id2num, b), b, LiveOut(g, c, b, o), o); k < |rs| && rs[k] == r
  {
    SameElements(ListOf(ranges, o), AllRanges(g, c, layout, id2num, o));
    ListedInBlock(g, c, layout, id2num, o, r);
    hide AllRanges, RangesCorrect, ListOf;
    b :| b in layout && r in RangesIn(g, c, id2num, b, o);
    k :| 0 <= k < |RangesIn(g, c, id2num, b, o)| && RangesIn(g, c, id2num, b, o)[k] == r;
    RangesInBlock(c[b], BaseOf(id2num, b), b, LiveOut(g, c, b, o), o, k);
  }

  /** Two different ranges of a virtual register. */
  lemma RangePair(g: Graph, c: Code, layout: seq<BlockId>, id2num: map<InstrId, nat>, num2id: map<nat, InstrId>,
                  next: nat,
                  ranges: map<Operand, seq<Range>>, o: Operand, r: Range, q: Range, apart: bool)
    requires RangedCode(g, c, layout, id2num, num2id, next, ranges) && o.Virtual? && (apart ==> NoSelfUpdate(c))
    requires r in ListOf(ranges, o) && q in ListOf(ranges, o) && r != q
    ensures r.begin <= r.end && q.begin <= q.end
    ensures Below(r.end, q.begin, apart) || Below(q.end, r.begin, apart)
    ensures r.begin == q.begin ==> exists b :: b in c && r.begin == BaseOf(id2num, b)
  {
    hide *;
    RangedFacts(g, c, layout, id2num, num2id, next, ranges);
    VirtualIsReg(o);
    var b, k := RangeAt(g, c, layout, id2num, ranges, o, r);
    var d, l := RangeAt(g, c, layout, id2num, ranges, o, q);
    if b == d {
      var base, out := BaseOf(id2num, b), LiveOut(g, c, b, o);
      VirtualDefinedOnce(c, b, o);
      if apart { NoUpdateInBlock(c, b, o); }
      if k < l {
        BlockRangesTouch(c[b], base, b, out, o, k, l, apart);
      } else {
        assert l < k;
        BlockRangesTouch(c[b], base, b, out, o, l, k, apart);
      }
    } else {
      BlocksApart(c, id2num, num2id, next, b, d);
      LessIsBelow(r.end, q.begin, apart);
      LessIsBelow(q.end, r.begin, apart);
    }
  }

  lemma LessIsBelow(x: nat, y: nat, strictly: bool)
    ensures x < y ==> Below(x, y, strictly)
  {
  }

  lemma VirtualIsReg(o: Operand)
    requires o.Virtual?
    ensures IsReg(o)
  {
  }

  lemma RangedFacts(g: Graph, c: Code, layout: seq<BlockId>, id2num: map<InstrId, nat>, num2id: map<nat, InstrId>,
                    next: nat,
                    ranges: map<Operand, seq<Range>>)
    requires RangedCode(g, c, layout, id2num, num2id, next, ranges)
    ensures FunctionShape(g, c, layout) && AllNumbered(c, id2num, num2id, next)
        && RangesCorrect(g, c, layout, id2num, ranges) && AllSpillable(c)
    ensures forall o :: SortedByBegin(ListOf(ranges, o))
  {
    hide FunctionShape, AllNumbered, AllSpillable, AllRanges, SortedByBegin;
  }

  // ----- the scan of the allocator -----

  /** The entry is a range of some register of the function. */
  ghost predicate FromCode(ranges: map<Operand, seq<Range>>, s: seq<AllocRange>) {
    forall i :: 0 <= i < |s| ==> exists o :: IsReg(o) && s[i].range in ListOf(ranges, o)
  }

  /** For every function and every virtual register, however many ranges it has: the short scan of a
      store of ranges that do not conflict pairwise finds exactly what the full scan finds. */
  lemma CodeScanIsFull(g: Graph, c: Code, layout: seq<BlockId>, id2num: map<InstrId, nat>, num2id: map<nat, InstrId>,
                       next: nat,
                       ranges: map<Operand, seq<Range>>, o: Operand, s: seq<AllocRange>)
    requires RangedCode(g, c, layout, id2num, num2id, next, ranges) && o.Virtual? && ListOf(ranges, o) != []
    requires FromCode(ranges, s) && InOrder(s) && Disjoint(s)
    ensures ScanAfter(s, ListOf(ranges, o), Start(s, ListOf(ranges, o)[0])) == FullScan(s, ListOf(ranges, o))
  {
    var rs := ListOf(ranges, o);
    var starts := set b | b in c :: BaseOf(id2num, b);
    StoredInBlocks(g, c, layout, id2num, num2id, next, ranges, s, starts);
    forall k | 0 <= k < |rs| ensures rs[0].begin <= rs[k].begin <= rs[k].end
        && (rs[k].begin == rs[0].begin && rs[k] != rs[0] ==> rs[0].begin in starts) {
      ListedInOrder(g, c, layout, id2num, num2id, next, ranges, o, k);
    }
    hide RangedCode, ListOf, FromCode;
    BlockLocalScanIsFull(s, rs, starts);
  }

  lemma ListedInOrder(g: Graph, c: Code, layout: seq<BlockId>, id2num: map<InstrId, nat>, num2id: map<nat, InstrId>,
                      next: nat,
                      ranges: map<Operand, seq<Range>>, o: Operand, k: nat)
    requires RangedCode(g, c, layout, id2num, num2id, next, ranges) && o.Virtual? && k < |ListOf(ranges, o)|
    ensures var rs := ListOf(ranges, o);
      && rs[0].begin <= rs[k].begin <= rs[k].end
      && (rs[k].begin == rs[0].begin && rs[k] != rs[0] ==> exists b :: b in c && rs[0].begin == BaseOf(id2num, b))
  {
    var rs := ListOf(ranges, o);
    var b, i := RangeAt(g, c, layout, id2num, ranges, o, rs[k]);
    assert SortedByBegin(rs);
    if rs[k] != rs[0] {
      RangePair(g, c, layout, id2num, num2id, next, ranges, o, rs[0], rs[k], false);
    }
  }

  lemma StoredInBlocks(g: Graph, c: Code, layout: seq<BlockId>, id2num: map<InstrId, nat>, num2id: map<nat, InstrId>,
                       next: nat,
                       ranges: map<Operand, seq<Range>>, s: seq<AllocRange>, starts: set<nat>)
    requires RangedCode(g, c, layout, id2num, num2id, next, ranges) && FromCode(ranges, s)
    requires starts == set b | b in c :: BaseOf(id2num, b)
    ensures ProperRanges(s) && CrossesNone(s, starts)
  {
    forall i | 0 <= i < |s|
      ensures s[i].range.begin <= s[i].range.end
      ensures forall x :: x in starts && s[i].range.begin < x ==> s[i].range.end < x
    {
      var o :| IsReg(o) && s[i].range in ListOf(ranges, o);
      var b, k := RangeAt(g, c, layout, id2num, ranges, o, s[i].range);
      hide RangesCorrect, ListOf, AllNumbered, BaseOf, AllSpillable;
      forall x | x in starts && s[i].range.begin < x ensures s[i].range.end < x {
        var d :| d in c && x == BaseOf(id2num, d);
        if d != b {
          BlocksApart(c, id2num, num2id, next, b, d);
        }
      }
    }
  }

  // ----- separate ranges -----

  /** Without such an instruction no two ranges of a register share an instruction. */
  lemma RangesSeparate(g: Graph, c: Code, layout: seq<BlockId>, id2num: map<InstrId, nat>, num2id: map<nat, InstrId>,
                       next: nat,
                       ranges: map<Operand, seq<Range>>, o: Operand)
    requires RangedCode(g, c, layout, id2num, num2id, next, ranges) && o.Virtual? && NoSelfUpdate(c)
    ensures Separate(ListOf(ranges, o))
  {
    hide *;
    RangedFacts(g, c, layout, id2num, num2id, next, ranges);
    VirtualIsReg(o);
    var rs := ListOf(ranges, o);
    ListDistinct(g, c, layout, id2num, num2id, next, ranges, o);
    forall i | 0 <= i < |rs| ensures rs[i].begin <= rs[i].end {
      var b, k := RangeAt(g, c, layout, id2num, ranges, o, rs[i]);
    }
    forall i, j | 0 <= i < j < |rs| ensures rs[i].end < rs[j].begin {
      DistinctPair(rs, i, j);
      RangePair(g, c, layout, id2num, num2id, next, ranges, o, rs[i], rs[j], true);
      SortedPair(rs, i, j);
      StrictlyBelow(rs[i].end, rs[j].begin);
      StrictlyBelow(rs[j].end, rs[i].begin);
    }
    SeparateHolds(rs);
  }

  lemma StrictlyBelow(x: nat, y: nat)
    ensures Below(x, y, true) == (x < y)
  {
  }

  lemma DistinctPair(rs: seq<Range>, i: nat, j: nat)
    requires Distinct(rs) && i < j < |rs|
    ensures rs[i] != rs[j]
  {
  }

  lemma SortedPair(rs: seq<Range>, i: nat, j: nat)
    requires SortedByBegin(rs) && i < j < |rs|
    ensures rs[i].begin <= rs[j].begin
  {
  }

  lemma SeparateHolds(rs: seq<Range>)
    requires forall i :: 0 <= i < |rs| ==> rs[i].begin <= rs[i].end
    requires forall i, j :: 0 <= i < j < |rs| ==> rs[i].end < rs[j].begin
    ensures Separate(rs)
  {
  }

  lemma ListDistinct(g: Graph, c: Code, layout: seq<BlockId>, id2num: map<InstrId, nat>, num2id: map<nat, InstrId>,
                     next: nat,
                     ranges: map<Operand, seq<Range>>, o: Operand)
    requires RangedCode(g, c, layout, id2num, num2id, next, ranges) && o.Virtual? && NoSelfUpdate(c)
    ensures Distinct(ListOf(ranges, o))
  {
    var all := AllRanges(g, c, layout, id2num, o);
    assert layout[..|layout|] == layout;
    AllDistinct(g, c, layout, id2num, num2id, next, o, |layout|);
    DistinctCounts(all);
    assert multiset(ListOf(ranges, o)) == multiset(all);
    CountsDistinct(ListOf(ranges, o));
  }

  lemma {:induction false} DistinctCounts(rs: seq<Range>)
    requires Distinct(rs)
    ensures forall r :: multiset(rs)[r] <= 1
  {
    if rs != [] {
      DistinctCounts(rs[1..]);
      assert rs == [rs[0]] + rs[1..];
      assert rs[0] !in rs[1..];
    }
  }

  lemma CountsDistinct(rs: seq<Range>)
    requires forall r :: multiset(rs)[r] <= 1
    ensures Distinct(rs)
  {
    forall i, j | 0 <= i < j < |rs| ensures rs[i] != rs[j] {
      assert rs == rs[..j] + rs[j..];
      assert rs[i] == rs[..j][i] && rs[j] == rs[j..][0];
      assert multiset(rs) == multiset(rs[..j]) + multiset(rs[j..]);
      assert rs[i] in multiset(rs[..j]) && rs[j] in multiset(rs[j..]);
      assert rs[i] == rs[j] ==> multiset(rs)[rs[i]] >= 2;
    }
  }

  lemma {:induction false} AllDistinct(g: Graph, c: Code, layout: seq<BlockId>, id2num: map<InstrId, nat>,
                                       num2id: map<nat, InstrId>, next: nat,
                                       o: Operand, n: nat)
    requires FunctionShape(g, c, layout) && AllNumbered(c, id2num, num2id, next) && AllSpillable(c) && o.Virtual?
        && NoSelfUpdate(c)
    requires n <= |layout|
    ensures Distinct(AllRanges(g, c, layout[..n], id2num, o))
  {
    if n > 0 {
      AllDistinct(g, c, layout, id2num, num2id, next, o, n - 1);
      var b := layout[n - 1];
      assert layout[..n][..n - 1] == layout[..n - 1];
      BlockDistinct(g, c, id2num, b, o);
      var before, own := AllRanges(g, c, layout[..n - 1], id2num, o), RangesIn(g, c, id2num, b, o);
      forall r | r in before ensures r !in own {
        ListedInBlock(g, c, layout[..n - 1], id2num, o, r);
        var d :| d in layout[..n - 1] && r in RangesIn(g, c, id2num, d, o);
        assert b !in layout[..n - 1];
        OtherBlockOtherRange(g, c, layout, id2num, num2id, next, o, d, b, r);
      }
      DistinctConcat(before, own);
    }
  }

  lemma DistinctConcat(rs: seq<Range>, qs: seq<Range>)
    requires Distinct(rs) && Distinct(qs) && forall r :: r in rs ==> r !in qs
    ensures Distinct(rs + qs)
  {
    forall i, j | 0 <= i < j < |rs + qs| ensures (rs + qs)[i] != (rs + qs)[j] {
      assert i < |rs| ==> (rs + qs)[i] in rs;
      assert j >= |rs| ==> (rs + qs)[j] in qs;
    }
  }

  lemma BlockDistinct(g: Graph, c: Code, id2num: map<InstrId, nat>, b: BlockId, o: Operand)
    requires AllSpillable(c) && NoSelfUpdate(c) && o.Virtual? && b in c && |c[b]| > 0
    ensures Distinct(RangesIn(g, c, id2num, b, o))
  {
    var base, out := BaseOf(id2num, b), LiveOut(g, c, b, o);
    var rs := BlockRanges(c[b], base, b, out, o);
    VirtualDefinedOnce(c, b, o);
    NoUpdateInBlock(c, b, o);
    assert RangesIn(g, c, id2num, b, o) == rs;
    hide BlockRanges, AllSpillable, NoSelfUpdate;
    forall p, q | 0 <= p < q < |rs| ensures rs[p] != rs[q] {
      BlockRangesTouch(c[b], base, b, out, o, p, q, true);
      RangesInBlock(c[b], base, b, out, o, p);
    }
  }

  lemma OtherBlockOtherRange(g: Graph, c: Code, layout: seq<BlockId>, id2num: map<InstrId, nat>,
                             num2id: map<nat, InstrId>, next: nat,
                             o: Operand, d: BlockId, b: BlockId, r: Range)
    requires FunctionShape(g, c, layout) && AllNumbered(c, id2num, num2id, next) && b in c && d in c && b != d
    requires r in RangesIn(g, c, id2num, d, o)
    ensures r !in RangesIn(g, c, id2num, b, o)
  {
    BlocksApart(c, id2num, num2id, next, b, d);
    InItsBlock(g, c, id2num, d, o, r);
    if r in RangesIn(g, c, id2num, b, o) {
      InItsBlock(g, c, id2num, b, o, r);
    }
  }

  lemma InItsBlock(g: Graph, c: Code, id2num: map<InstrId, nat>, b: BlockId, o: Operand, r: Range)
    requires r in RangesIn(g, c, id2num, b, o)
    ensures b in c && BaseOf(id2num, b) <= r.begin < BaseOf(id2num, b) + |c[b]|
  {
    var rs := RangesIn(g, c, id2num, b, o);
    var k: nat :| k < |rs| && rs[k] == r;
    RangesInBlock(c[b], BaseOf(id2num, b), b, LiveOut(g, c, b, o), o, k);
  }

  // ----- one range each -----

  lemma {:induction false} BlockRangesCounted(g: Graph, c: Code, layout: seq<BlockId>, id2num: map<InstrId, nat>,
                                              o: Operand, b: BlockId)
    requires b in layout
    ensures |RangesIn(g, c, id2num, b, o)| <= |AllRanges(g, c, layout, id2num, o)|
  {
    hide RangesIn;
    var n := |layout| - 1;
    assert layout == layout[..n] + [layout[n]];
    if b != layout[n] {
      BlockRangesCounted(g, c, layout[..n], id2num, o, b);
    }
  }

  /** A function whose virtual registers have one range each has no such instruction. */
  lemma OneRangeNoUpdate(g: Graph, c: Code, layout: seq<BlockId>)
    requires FunctionShape(g, c, layout)
    requires forall o: Operand, id2num: map<InstrId, nat> :: o.Virtual? ==> |AllRanges(g, c, layout, id2num, o)| <= 1
    ensures NoSelfUpdate(c)
  {
    forall b, i: nat, o: Operand | At(c, b, i) && o.Virtual? ensures !(o in c[b][i].defs && o in c[b][i].uses) {
      BlockRangesCounted(g, c, layout, map[], o, b);
      assert |AllRanges(g, c, layout, map[], o)| <= 1;
      if o in c[b][i].defs && o in c[b][i].uses {
        UpdateMakesTwo(c[b], BaseOf(map[], b), b, LiveOut(g, c, b, o), o, i);
      }
    }
  }
}
