/** The spill weight of a virtual register: computed from the instruction counts of its ranges, it is the
    weighted number of times the code mentions the register. */
module SpillWeights {
  import opened ControlFlowGraph
  import opened AsmProgram
  import opened BackendRegisters
  import opened Liveness
  import opened LiveRanges
  import opened LivenessPass

  // ----- as computed -----

  function RangesWeight(rs: seq<Range>, blockWeight: map<BlockId, nat>): nat {
    if rs == [] then 0
    else
      var r := rs[|rs| - 1];
      RangesWeight(rs[..|rs| - 1], blockWeight) + r.count * (if r.block in blockWeight then blockWeight[r.block] else 0)
  }

  /** Twice the spill weight, so that the factors 1.5 and 2.0 stay whole numbers. */
  function WeightOf(rs: seq<Range>, o: Operand, blockWeight: map<BlockId, nat>, coalesce: map<Operand, Operand>,
                    hint: map<Operand, Register>): nat {
    RangesWeight(rs, blockWeight) * if o in coalesce then 3 else if o in hint then 4 else 2
  }

  function WeightsOf(rangesOf: map<nat, seq<Range>>, operandOf: map<nat, Operand>, blockWeight: map<BlockId, nat>,
                     coalesce: map<Operand, Operand>, hint: map<Operand, Register>): map<nat, nat> {
    map n | n in rangesOf && n in operandOf :: WeightOf(rangesOf[n], operandOf[n], blockWeight, coalesce, hint)
  }

  // ----- as meant -----

  /** A copy found in the code. */
  datatype Copy = BothVirtual(dst: Operand, src: Operand) | WithRegister(v: Operand, reg: Register)

  /** How often the instructions mention `o`, as a definition or as a use. */
  function MentionCount(instrs: seq<Instr>, o: Operand): nat {
    if instrs == [] then 0
    else multiset(instrs[0].defs)[o] + multiset(instrs[0].uses)[o] + MentionCount(instrs[1..], o)
  }

  function BlockWeight(blockWeight: map<BlockId, nat>, b: BlockId): nat {
    if b in blockWeight then blockWeight[b] else 0
  }

  /** ... in all the blocks of `layout`, each mention with the weight of its block. */
  function WeightedMentions(c: Code, layout: seq<BlockId>, blockWeight: map<BlockId, nat>, o: Operand): nat {
    if layout == [] then 0
    else
      var b := layout[|layout| - 1];
      WeightedMentions(c, layout[..|layout| - 1], blockWeight, o)
      + (if b in c then MentionCount(c[b], o) else 0) * BlockWeight(blockWeight, b)
  }

  /** Some copy joins `o` to another virtual register. */
  ghost predicate JoinedBy(copies: seq<Copy>, o: Operand) {
    exists k :: 0 <= k < |copies| && copies[k].BothVirtual? && (copies[k].dst == o || copies[k].src == o)
  }

  /** Some copy joins `o` to a register. */
  ghost predicate HintedBy(copies: seq<Copy>, o: Operand) {
    exists k :: 0 <= k < |copies| && copies[k].WithRegister? && copies[k].v == o
  }

  // ----- the counts of the scan -----

  function CountSum(rs: seq<Range>): nat {
    if rs == [] then 0 else CountSum(rs[..|rs| - 1]) + rs[|rs| - 1].count
  }

  lemma CountSumOf(rs: seq<Range>, r: Range)
    ensures CountSum(rs + [r]) == CountSum(rs) + r.count
  {
    assert (rs + [r])[..|rs|] == rs;
  }

  function Counted(s: Scan): nat {
    CountSum(s.done) + match s.open case Absent => 0 case Open(r) => r.count
  }

  lemma CountedIsKnown(s: Scan)
    ensures CountSum(Known(s)) == Counted(s)
  {
    if s.open.Open? {
      CountSumOf(s.done, s.open.range);
    } else {
      assert s.done + [] == s.done;
    }
  }

  lemma {:induction false} DefsCounted(defs: seq<Operand>, o: Operand, s: Scan, m: nat, b: BlockId)
    ensures Counted(AfterDefs(defs, o, s, m, b)) == Counted(s) + multiset(defs)[o]
  {
    if defs != [] {
      var k := |defs| - 1;
      DefsCounted(defs[..k], o, s, m, b);
      assert defs == defs[..k] + [defs[k]];
      var t := AfterDefs(defs[..k], o, s, m, b);
      CountSumOf(t.done, Range(m, m, 1, b));
      if t.open.Open? {
        CountSumOf(t.done, t.open.range.(begin := m, count := t.open.range.count + 1));
      }
    }
  }

  lemma {:induction false} UsesCounted(uses: seq<Operand>, o: Operand, s: Scan, base: nat, m: nat, b: BlockId)
    ensures Counted(AfterUses(uses, o, s, base, m, b)) == Counted(s) + multiset(uses)[o]
  {
    if uses != [] {
      var k := |uses| - 1;
      UsesCounted(uses[..k], o, s, base, m, b);
      assert uses == uses[..k] + [uses[k]];
    }
  }

  lemma {:induction false} ScanCounted(instrs: seq<Instr>, base: nat, b: BlockId, liveOut: bool, o: Operand, i: nat)
    requires |instrs| > 0 && i <= |instrs|
    ensures Counted(ScanFrom(instrs, base, b, liveOut, o, i)) == MentionCount(instrs[i..], o)
    decreases |instrs| - i
  {
    if i < |instrs| {
      ScanCounted(instrs, base, b, liveOut, o, i + 1);
      var s := ScanFrom(instrs, base, b, liveOut, o, i + 1);
      DefsCounted(instrs[i].defs, o, s, base + i, b);
      UsesCounted(instrs[i].uses, o, AfterDefs(instrs[i].defs, o, s, base + i, b), base, base + i, b);
      assert instrs[i..][0] == instrs[i] && instrs[i..][1..] == instrs[i + 1..];
    }
  }

  /** The counts of a register's ranges in a block add up to the times the block mentions it. */
  lemma BlockCounts(instrs: seq<Instr>, base: nat, b: BlockId, liveOut: bool, o: Operand)
    requires |instrs| > 0
    ensures CountSum(BlockRanges(instrs, base, b, liveOut, o)) == MentionCount(instrs, o)
  {
    ScanCounted(instrs, base, b, liveOut, o, 0);
    assert instrs[0..] == instrs;
    CountedIsKnown(ScanFrom(instrs, base, b, liveOut, o, 0));
  }

  // ----- the weight of a list of ranges -----

  function RangeWeight(r: Range, blockWeight: map<BlockId, nat>): nat {
    r.count * BlockWeight(blockWeight, r.block)
  }

  lemma {:induction false} WeightsAdd(rs: seq<Range>, qs: seq<Range>, blockWeight: map<BlockId, nat>)
    ensures RangesWeight(rs + qs, blockWeight) == RangesWeight(rs, blockWeight) + RangesWeight(qs, blockWeight)
  {
    if qs == [] {
      assert rs + qs == rs;
    } else {
      WeightsAdd(rs, qs[..|qs| - 1], blockWeight);
      assert (rs + qs)[..|rs + qs| - 1] == rs + qs[..|qs| - 1];
    }
  }

  lemma WeightOfOne(r: Range, blockWeight: map<BlockId, nat>)
    ensures RangesWeight([r], blockWeight) == RangeWeight(r, blockWeight)
  {
    assert [r][..0] == [];
  }

  /** The order of the ranges does not matter. */
  lemma {:induction false} WeightOfSame(rs: seq<Range>, qs: seq<Range>, blockWeight: map<BlockId, nat>)
    requires multiset(rs) == multiset(qs)
    ensures RangesWeight(rs, blockWeight) == RangesWeight(qs, blockWeight)
    decreases |rs|
  {
    if rs == [] {
      assert |multiset(qs)| == |qs| && qs == [];
    } else {
      var r := rs[|rs| - 1];
      var k := PlaceOf(rs, qs);
      WeightOfSame(rs[..|rs| - 1], qs[..k] + qs[k + 1..], blockWeight);
      WeightsAdd(qs[..k] + [r], qs[k + 1..], blockWeight);
      WeightsAdd(qs[..k], [r], blockWeight);
      WeightsAdd(qs[..k], qs[k + 1..], blockWeight);
      WeightOfOne(r, blockWeight);
    }
  }

  /** Where the last of `rs` is in `qs`. */
  lemma PlaceOf(rs: seq<Range>, qs: seq<Range>) returns (k: nat)
    requires multiset(rs) == multiset(qs) && rs != []
    ensures k < |qs| && qs == qs[..k] + [rs[|rs| - 1]] + qs[k + 1..]
    ensures multiset(rs[..|rs| - 1]) == multiset(qs[..k] + qs[k + 1..])
  {
    var r := rs[|rs| - 1];
    assert rs == rs[..|rs| - 1] + [r];
    assert r in multiset(qs);
    k :| 0 <= k < |qs| && qs[k] == r;
    assert qs == qs[..k] + [r] + qs[k + 1..];
    assert multiset(qs) == multiset(qs[..k] + qs[k + 1..]) + multiset{r};
    assert multiset(rs[..|rs| - 1]) == multiset(rs) - multiset{r};
  }

  lemma {:induction false} WeightInBlock(rs: seq<Range>, b: BlockId, blockWeight: map<BlockId, nat>)
    requires forall k :: 0 <= k < |rs| ==> rs[k].block == b
    ensures RangesWeight(rs, blockWeight) == CountSum(rs) * BlockWeight(blockWeight, b)
  {
    if rs != [] {
      WeightInBlock(rs[..|rs| - 1], b, blockWeight);
      Distributes(CountSum(rs[..|rs| - 1]), rs[|rs| - 1].count, BlockWeight(blockWeight, b));
    }
  }

  lemma Distributes(a: nat, b: nat, w: nat)
    ensures (a + b) * w == a * w + b * w
  {
  }

  lemma {:induction false} AllWeigh(g: Graph, c: Code, layout: seq<BlockId>, id2num: map<InstrId, nat>, o: Operand,
                                    blockWeight: map<BlockId, nat>)
    ensures RangesWeight(AllRanges(g, c, layout, id2num, o), blockWeight) == WeightedMentions(c, layout, blockWeight, o)
  {
    if layout != [] {
      var k := |layout| - 1;
      var b := layout[k];
      AllWeigh(g, c, layout[..k], id2num, o, blockWeight);
      hide RangesIn, MentionCount, BlockWeight, RangesWeight;
      WeightsAdd(AllRanges(g, c, layout[..k], id2num, o), RangesIn(g, c, id2num, b, o), blockWeight);
      OneWeighs(g, c, b, id2num, o, blockWeight);
    }
  }

  lemma OneWeighs(g: Graph, c: Code, b: BlockId, id2num: map<InstrId, nat>, o: Operand, blockWeight: map<BlockId, nat>)
    ensures RangesWeight(RangesIn(g, c, id2num, b, o), blockWeight) ==
        (if b in c then MentionCount(c[b], o) else 0) * BlockWeight(blockWeight, b)
  {
    hide LiveOut, BlockRanges;
    if b in c && |c[b]| > 0 {
      var base, out := BaseOf(id2num, b), LiveOut(g, c, b, o);
      var rs := BlockRanges(c[b], base, b, out, o);
      BlockCounts(c[b], base, b, out, o);
      forall k | 0 <= k < |rs| ensures rs[k].block == b {
        RangesInBlock(c[b], base, b, out, o, k);
      }
      WeightInBlock(rs, b, blockWeight);
    }
  }

  /** The weight found for a register: its mentions, each as heavy as its block, three halves of that if a
      copy joins it to another virtual register, otherwise twice that if one joins it to a register; all
      of it doubled. */
  lemma WeightIsMentions(g: Graph, c: Code, layout: seq<BlockId>, id2num: map<InstrId, nat>,
                         ranges: map<Operand, seq<Range>>, o: Operand, blockWeight: map<BlockId, nat>,
                         copies: seq<Copy>, coalesce: map<Operand, Operand>, hint: map<Operand, Register>)
    requires RangesCorrect(g, c, layout, id2num, ranges) && IsReg(o)
    requires (o in coalesce <==> JoinedBy(copies, o)) && (o in hint <==> HintedBy(copies, o))
    ensures WeightOf(ListOf(ranges, o), o, blockWeight, coalesce, hint) ==
        WeightedMentions(c, layout, blockWeight, o)
        * if JoinedBy(copies, o) then 3 else if HintedBy(copies, o) then 4 else 2
  {
    AllWeigh(g, c, layout, id2num, o, blockWeight);
    WeightOfSame(ListOf(ranges, o), AllRanges(g, c, layout, id2num, o), blockWeight);
    hide AllRanges, RangesWeight, WeightedMentions, JoinedBy, HintedBy, ListOf;
  }
}
