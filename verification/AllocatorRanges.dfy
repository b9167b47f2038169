/** What the live ranges give the allocator: its ranges lead to every mention of a register, and
    ranges that do not conflict are all the final assignment needs. */
module AllocatorRanges {
  import opened ControlFlowGraph
  import opened AsmProgram
  import opened BackendRegisters
  import opened Liveness
  import opened LiveRanges
  import opened LivenessPass
  import opened AllocatedCode
  import opened AllocationSimulation
  import opened SpillCode
  import opened AllocatorState
  import opened AllocatorCode

  /** A range of `o` lies in one block. */
  lemma RangeInBlock(g: Graph, c: Code, layout: seq<BlockId>, id2num: map<InstrId, nat>,
                     ranges: map<Operand, seq<Range>>, o: Operand, r: Range)
    returns (b: BlockId)
    requires FunctionShape(g, c, layout) && RangesCorrect(g, c, layout, id2num, ranges) && IsReg(o)
        && r in ListOf(ranges, o)
    ensures b in c && r in RangesIn(g, c, id2num, b, o)
    ensures BaseOf(id2num, b) <= r.begin <= r.end < BaseOf(id2num, b) + |c[b]|
  {
    SameElements(ListOf(ranges, o), AllRanges(g, c, layout, id2num, o));
    ListedInBlock(g, c, layout, id2num, o, r);
    hide AllRanges, RangesCorrect, ListOf;
    b :| b in layout && r in RangesIn(g, c, id2num, b, o);
    var k: nat :| k < |RangesIn(g, c, id2num, b, o)| && RangesIn(g, c, id2num, b, o)[k] == r;
    RangesInBlock(c[b], BaseOf(id2num, b), b, LiveOut(g, c, b, o), o, k);
  }

  /** Every mention is inside some range of the register. */
  lemma MentionCovered(g: Graph, c: Code, layout: seq<BlockId>, id2num: map<InstrId, nat>,
                       ranges: map<Operand, seq<Range>>, o: Operand, b: BlockId, i: nat)
    returns (r: Range)
    requires FunctionShape(g, c, layout) && RangesCorrect(g, c, layout, id2num, ranges) && IsReg(o)
    requires At(c, b, i) && Mentions(c[b][i], o)
    ensures r in ListOf(ranges, o) && r.begin <= BaseOf(id2num, b) + i <= r.end
  {
    hide RangesCorrect, ListOf, RangesIn;
    r := MentionInBlock(g, c, id2num, o, b, i);
    RangeIsListed(g, c, layout, id2num, ranges, o, b, r);
  }

  lemma MentionInBlock(g: Graph, c: Code, id2num: map<InstrId, nat>, o: Operand, b: BlockId, i: nat) returns (r: Range)
    requires At(c, b, i) && Mentions(c[b][i], o) && IsReg(o)
    ensures r in RangesIn(g, c, id2num, b, o) && r.begin <= BaseOf(id2num, b) + i <= r.end
  {
    var base, out := BaseOf(id2num, b), LiveOut(g, c, b, o);
    assert Touches(c[b], out, o, i);
    RangesExact(c[b], base, b, out, o, i);
    hide BlockRanges, LiveOut, BaseOf;
    var rs := BlockRanges(c[b], base, b, out, o);
    var k :| 0 <= k < |rs| && rs[k].begin <= base + i && base + i <= rs[k].end;
    r := rs[k];
  }

  lemma RangeIsListed(g: Graph, c: Code, layout: seq<BlockId>, id2num: map<InstrId, nat>,
                      ranges: map<Operand, seq<Range>>, o: Operand, b: BlockId, r: Range)
    requires FunctionShape(g, c, layout) && RangesCorrect(g, c, layout, id2num, ranges) && IsReg(o)
    requires b in c && r in RangesIn(g, c, id2num, b, o)
    ensures r in ListOf(ranges, o)
  {
    hide RangesIn, ListOf;
    BlockRangesListed(g, c, layout, id2num, o, b, r);
    SameElements(ListOf(ranges, o), AllRanges(g, c, layout, id2num, o));
  }

  lemma NumberOf(c: Code, id2num: map<InstrId, nat>, num2id: map<nat, InstrId>, next: nat, b: BlockId, i: nat)
    requires AllNumbered(c, id2num, num2id, next) && At(c, b, i)
    ensures BaseOf(id2num, b) + i in num2id && num2id[BaseOf(id2num, b) + i] == (b, i)
  {
    assert BlockNumbered(c, id2num, num2id, next, b);
    assert NumberedAt(id2num, num2id, next, b, i);
  }

  /** The number of a range's instruction leads to an instruction, and back. */
  lemma NumberInRange(g: Graph, c: Code, layout: seq<BlockId>, id2num: map<InstrId, nat>, num2id: map<nat, InstrId>,
                      next: nat,
                      ranges: map<Operand, seq<Range>>, o: Operand, r: Range, x: nat)
    requires FunctionShape(g, c, layout) && AllNumbered(c, id2num, num2id, next)
        && RangesCorrect(g, c, layout, id2num, ranges)
    requires IsReg(o) && r in ListOf(ranges, o) && r.begin <= x <= r.end
    ensures x in num2id && At(c, num2id[x].0, num2id[x].1) && BaseOf(id2num, num2id[x].0) + num2id[x].1 == x
  {
    hide FunctionShape, AllNumbered, RangesCorrect, ListOf;
    var b := RangeInBlock(g, c, layout, id2num, ranges, o, r);
    assert At(c, b, x - BaseOf(id2num, b));
    NumberOf(c, id2num, num2id, next, b, x - BaseOf(id2num, b));
  }

  lemma RangesCover(g: Graph, c: Code, layout: seq<BlockId>, id2num: map<InstrId, nat>, num2id: map<nat, InstrId>,
                    next: nat, su: Setup)
    requires FunctionShape(g, c, layout) && AllNumbered(c, id2num, num2id, next)
        && RangesCorrect(g, c, layout, id2num, su.ranges) && ValidSetup(su)
    ensures Covered(c, su, num2id)
  {
    hide FunctionShape, AllNumbered, RangesCorrect, GoodNumbers, NumIn, Mentions, ListOf, NumbersIn, ValidSetup;
    forall n: nat | IsAlloc(su, n) ensures GoodNumbers(c, num2id, NumbersIn(RangeList(su, n))) {
      NumbersGood(g, c, layout, id2num, num2id, next, su, n);
    }
    forall n: nat, b: BlockId, i: nat | IsAlloc(su, n) && At(c, b, i) && Mentions(c[b][i], su.operandOf[n])
      ensures NumIn(num2id, NumbersIn(RangeList(su, n)), (b, i))
    {
      AllocRanges(su, n);
      var r := MentionCovered(g, c, layout, id2num, su.ranges, su.operandOf[n], b, i);
      NumberOf(c, id2num, num2id, next, b, i);
      NumbersAre(RangeList(su, n), BaseOf(id2num, b) + i);
      IsNumIn(num2id, NumbersIn(RangeList(su, n)), BaseOf(id2num, b) + i);
    }
  }

  lemma AllocRanges(su: Setup, n: nat)
    requires ValidSetup(su) && IsAlloc(su, n)
    ensures RangeList(su, n) == ListOf(su.ranges, su.operandOf[n]) && IsReg(su.operandOf[n])
  {
  }

  lemma NumbersGood(g: Graph, c: Code, layout: seq<BlockId>, id2num: map<InstrId, nat>, num2id: map<nat, InstrId>,
                    next: nat, su: Setup, n: nat)
    requires FunctionShape(g, c, layout) && AllNumbered(c, id2num, num2id, next)
        && RangesCorrect(g, c, layout, id2num, su.ranges)
    requires ValidSetup(su) && IsAlloc(su, n)
    ensures GoodNumbers(c, num2id, NumbersIn(RangeList(su, n)))
  {
    hide FunctionShape, AllNumbered, RangesCorrect, ListOf, NumbersIn, ValidSetup, RangeList, BaseOf;
    AllocRanges(su, n);
    var xs := NumbersIn(RangeList(su, n));
    forall x: nat | x in xs
      ensures x in num2id && At(c, num2id[x].0, num2id[x].1) && BaseOf(id2num, num2id[x].0) + num2id[x].1 == x
    {
      NumbersAre(RangeList(su, n), x);
      var r :| r in RangeList(su, n) && r.begin <= x <= r.end;
      NumberInRange(g, c, layout, id2num, num2id, next, su.ranges, su.operandOf[n], r, x);
    }
  }

  lemma IsNumIn(num2id: map<nat, InstrId>, xs: set<nat>, x: nat)
    requires x in xs && x in num2id
    ensures NumIn(num2id, xs, num2id[x])
  {
  }

  // ----- registers the code never mentions -----

  ghost predicate Unmentioned(c: Code, o: Operand) {
    forall b: BlockId, i: nat :: At(c, b, i) ==> !Mentions(c[b][i], o)
  }

  lemma UnmentionedNotUsed(c: Code, o: Operand, b: BlockId)
    requires Unmentioned(c, o) && b in c
    ensures o !in UsesOf(c[b])
  {
    UsesExactly(c[b], o);
    if i: nat :| UsedFirstAt(c[b], i, o) {
      assert At(c, b, i);
      assert Mentions(c[b][i], o);
    }
  }

  lemma {:induction false} UnmentionedNotAlong(g: Graph, c: Code, p: seq<BlockId>, o: Operand)
    requires Unmentioned(c, o)
    ensures !UseAlong(g, c, p, o)
  {
    if |p| > 0 && p[0] in c {
      UnmentionedNotUsed(c, o, p[0]);
      if |p| > 1 {
        UnmentionedNotAlong(g, c, p[1..], o);
      }
    }
  }

  lemma {:induction false} UnmentionedNotLive(c: Code, liveOut: bool, o: Operand, b: BlockId, i: nat)
    requires Unmentioned(c, o) && b in c && i <= |c[b]| && !liveOut
    ensures !LiveBefore(c[b], liveOut, o, i)
    decreases |c[b]| - i
  {
    if i < |c[b]| {
      assert At(c, b, i);
      UnmentionedNotLive(c, liveOut, o, b, i + 1);
    }
  }

  lemma UnmentionedHasNoRange(g: Graph, c: Code, layout: seq<BlockId>, id2num: map<InstrId, nat>,
                              ranges: map<Operand, seq<Range>>, o: Operand)
    requires FunctionShape(g, c, layout) && RangesCorrect(g, c, layout, id2num, ranges) && IsReg(o) && Unmentioned(c, o)
    ensures ListOf(ranges, o) == []
  {
    if ListOf(ranges, o) != [] {
      var r := ListOf(ranges, o)[0];
      var b := RangeInBlock(g, c, layout, id2num, ranges, o, r);
      NoRangeInBlock(g, c, id2num, o, b, r);
    }
  }

  lemma NoRangeInBlock(g: Graph, c: Code, id2num: map<InstrId, nat>, o: Operand, b: BlockId, r: Range)
    requires Unmentioned(c, o) && b in c && |c[b]| > 0 && r.begin <= r.end
    requires BaseOf(id2num, b) <= r.begin < BaseOf(id2num, b) + |c[b]|
    ensures r !in RangesIn(g, c, id2num, b, o)
  {
    var base, out := BaseOf(id2num, b), LiveOut(g, c, b, o);
    var j: nat := r.begin - base;
    forall p ensures !UseAlong(g, c, p, o) { UnmentionedNotAlong(g, c, p, o); }
    assert !out;
    assert At(c, b, j);
    UnmentionedNotLive(c, out, o, b, j);
    UnmentionedNotLive(c, out, o, b, j + 1);
    assert !Touches(c[b], out, o, j);
    RangesExact(c[b], base, b, out, o, j);
    hide BlockRanges;
    var rs := BlockRanges(c[b], base, b, out, o);
    assert !Spans(rs, base + j, base + j);
    assert forall k :: 0 <= k < |rs| ==> !(rs[k].begin <= base + j && base + j <= rs[k].end);
  }

  // ----- the final assignment -----

  ghost predicate CalleeUnmentioned(c: Code, registers: seq<Register>) {
    forall r :: r in registers && !HardChecked(r) ==> Unmentioned(c, Physical(r))
  }

  ghost predicate IsAssignment(su: Setup, allocMap: map<nat, Register>, regOf: map<Operand, Register>) {
    && (forall n :: n in allocMap && IsAlloc(su, n) ==>
        su.operandOf[n] in regOf
        && regOf[su.operandOf[n]] == allocMap[n])
    && (forall o :: o in regOf ==> exists n :: n in allocMap && IsAlloc(su, n) && su.operandOf[n] == o)
  }

  lemma AllocFor(su: Setup, allocMap: map<nat, Register>, regOf: map<Operand, Register>, o: Operand) returns (n: nat)
    requires IsAssignment(su, allocMap, regOf) && ValidSetup(su) && o in regOf
    ensures IsAlloc(su, n) && n in allocMap && su.operandOf[n] == o && regOf[o] == allocMap[n] && o.Virtual?
    ensures ListOf(su.ranges, o) == RangeList(su, n)
  {
    hide ListOf;
    n :| n in allocMap && IsAlloc(su, n) && su.operandOf[n] == o;
  }

  lemma SafeIsNoSharing(g: Graph, c: Code, layout: seq<BlockId>, id2num: map<InstrId, nat>, su: Setup, s: AllocState,
                        regOf: map<Operand, Register>)
    requires FunctionShape(g, c, layout) && RangesCorrect(g, c, layout, id2num, su.ranges)
    requires Inv(su, s, {}) && IsAssignment(su, s.allocMap, regOf) && CalleeUnmentioned(c, su.registers)
    ensures NoSharing(su.ranges, regOf)
  {
    hide *;
    InvFacts(su, s, {});
    forall x, y | x in regOf && y in regOf && x != y && regOf[x] == regOf[y]
      ensures !Interfere(ListOf(su.ranges, x), ListOf(su.ranges, y))
    {
      var n := AllocFor(su, s.allocMap, regOf, x);
      var k := AllocFor(su, s.allocMap, regOf, y);
      SafePair(su, s.allocMap, n, k);
    }
    forall x | x in regOf ensures !Interfere(ListOf(su.ranges, x), ListOf(su.ranges, Physical(regOf[x]))) {
      var n := AllocFor(su, s.allocMap, regOf, x);
      if HardChecked(regOf[x]) {
        SafeHard(su, s.allocMap, n);
      } else {
        CalleeIsUnmentioned(c, su.registers, regOf[x]);
        UnmentionedHasNoRange(g, c, layout, id2num, su.ranges, Physical(regOf[x]));
        NothingInterferes(ListOf(su.ranges, x));
      }
    }
    NoSharingHolds(su.ranges, regOf);
  }

  lemma NoSharingHolds(ranges: map<Operand, seq<Range>>, regOf: map<Operand, Register>)
    requires forall x, y ::
        x in regOf && y in regOf && x != y && regOf[x] == regOf[y]
        ==> !Interfere(ListOf(ranges, x), ListOf(ranges, y))
    requires forall x :: x in regOf ==> !Interfere(ListOf(ranges, x), ListOf(ranges, Physical(regOf[x])))
    ensures NoSharing(ranges, regOf)
  {
    hide Interfere, ListOf;
  }

  lemma SafePair(su: Setup, allocMap: map<nat, Register>, n: nat, k: nat)
    requires Safe(su, allocMap) && n in allocMap && k in allocMap && allocMap[n] == allocMap[k]
    ensures n != k ==> !Interfere(RangeList(su, n), RangeList(su, k))
  {
  }

  lemma NothingInterferes(rs: seq<Range>)
    ensures !Interfere(rs, [])
  {
  }

  lemma SafeHard(su: Setup, allocMap: map<nat, Register>, n: nat)
    requires Safe(su, allocMap) && n in allocMap && HardChecked(allocMap[n])
    ensures !Interfere(RangeList(su, n), ListOf(su.ranges, Physical(allocMap[n])))
  {
    hide RangeList, ListOf, Interfere;
    assert !HardConflict(su, n, allocMap[n]);
  }

  lemma CalleeIsUnmentioned(c: Code, registers: seq<Register>, r: Register)
    requires CalleeUnmentioned(c, registers) && r in registers && !HardChecked(r)
    ensures Unmentioned(c, Physical(r)) && IsReg(Physical(r))
  {
  }

  /** Only registers the allocator may hand out are assigned, each operand to one place. */
  lemma FinalShape(su: Setup, s: AllocState, regOf: map<Operand, Register>, base: nat, frameSize: nat)
    requires Inv(su, s, {}) && IsAssignment(su, s.allocMap, regOf) && SlotsInFrame(s.slotOf, base, frameSize)
    ensures AllocationShape(Allocation(regOf, s.slotOf))
  {
    hide *;
    InvFacts(su, s, {});
    forall o | o in regOf ensures o.Virtual? && o !in s.slotOf && !IsTemp(regOf[o]) && Physical(regOf[o]) != SP {
      var n := AllocFor(su, s.allocMap, regOf, o);
      PlacedNotSpilled(su, s, n);
      RegisterFree(su, regOf[o]);
    }
    SlotsShape(s.slotOf, base, frameSize);
    ShapeHolds(regOf, s.slotOf);
  }

  lemma PlacedNotSpilled(su: Setup, s: AllocState, n: nat)
    requires Partition(su, s.queue, s.allocMap, s.slotOf, {}) && IsAlloc(su, n) && n in s.allocMap
    ensures su.operandOf[n] !in s.slotOf
  {
    assert InOnePlace(s.queue, s.allocMap, s.slotOf, {}, n, su.operandOf[n]);
  }

  lemma RegisterFree(su: Setup, r: Register)
    requires ValidSetup(su) && r in su.registers
    ensures !IsTemp(r) && Physical(r) != SP
  {
  }

  lemma ShapeHolds(regOf: map<Operand, Register>, slotOf: map<Operand, nat>)
    requires AllocationShape(Allocation(map[], slotOf))
    requires forall o :: o in regOf ==> o.Virtual? && o !in slotOf && !IsTemp(regOf[o]) && Physical(regOf[o]) != SP
    ensures AllocationShape(Allocation(regOf, slotOf))
  {
  }

  /** Every virtual register with a range has an alloc. */
  ghost predicate AllocForEach(su: Setup) {
    forall o: Operand :: o.Virtual? && ListOf(su.ranges, o) != [] ==> exists n: nat ::
        IsAlloc(su, n)
        && su.operandOf[n] == o
  }

  /** When the queue is empty every virtual register the code mentions has a register or a slot. */
  lemma EverythingAllocated(g: Graph, c: Code, layout: seq<BlockId>, id2num: map<InstrId, nat>, su: Setup,
                            s: AllocState, regOf: map<Operand, Register>,
                            b: BlockId, i: nat)
    requires FunctionShape(g, c, layout) && RangesCorrect(g, c, layout, id2num, su.ranges) && AllocForEach(su)
    requires Inv(su, s, {}) && s.queue == multiset{} && IsAssignment(su, s.allocMap, regOf) && At(c, b, i)
    ensures AllAllocated(Allocation(regOf, s.slotOf), c[b][i])
  {
    hide FunctionShape, RangesCorrect, ListOf, ValidSetup, Statuses, OccupiedExact, StoredRangesExact, Safe;
    forall o: Operand | (o in c[b][i].uses || o in c[b][i].defs) && o.Virtual? ensures o in regOf || o in s.slotOf {
      var r := MentionCovered(g, c, layout, id2num, su.ranges, o, b, i);
      var n: nat :| IsAlloc(su, n) && su.operandOf[n] == o;
      assert InOnePlace(s.queue, s.allocMap, s.slotOf, {}, n, su.operandOf[n]);
    }
  }
}
