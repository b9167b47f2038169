/** The greedy register allocator: a priority queue of allocs, eviction by weight, spilling, and the
    rewriting of the instructions. */
module RegisterAllocator {
  import opened ControlFlowGraph
  import opened AsmProgram
  import opened BackendRegisters
  import opened Liveness
  import opened LiveRanges
  import opened LivenessPass
  import opened ConflictScan
  import opened AllocatedCode
  import opened AllocationSimulation
  import opened SpillCode
  import opened AllocatorState
  import opened AllocationChoice
  import opened AllocatorCode
  import opened AllocatorRanges
  import opened RangeSeparation
  import opened SpillWeights
  import opened AllocatedClasses

  function Generals(first: nat, last: nat): (rs: seq<Register>)
    requires first <= last
    ensures forall r :: r in rs ==> r.General? && first <= r.index <= last
  {
    seq(last - first + 1, i requires 0 <= i => General(first + i))
  }

  function Floats(first: nat, last: nat): (rs: seq<Register>)
    requires first <= last
    ensures forall r :: r in rs ==> r.Float? && first <= r.index <= last
  {
    seq(last - first + 1, i requires 0 <= i => Float(first + i))
  }

  /** The registers the allocator hands out, in its order of preference: arguments, temporaries that
      spilling does not use, saved registers. */
  const REG_ALLOC: seq<Register> :=
    Generals(10, 17) + Floats(10, 17) + Generals(28, 31) + Floats(3, 7) + Floats(28, 31)
    + Generals(9, 9) + Generals(18, 27) + Floats(8, 9) + Floats(18, 27)

  /** None of them has a fixed role in spilling. */
  lemma AllocatableRegisters()
    ensures forall r :: r in REG_ALLOC ==> !IsTemp(r) && Physical(r) != SP
  {
  }

  lemma GeneralsHave(first: nat, last: nat, n: nat)
    requires first <= n <= last
    ensures General(n) in Generals(first, last)
  {
    assert Generals(first, last)[n - first] == General(n);
  }

  lemma FloatsHave(first: nat, last: nat, n: nat)
    requires first <= n <= last
    ensures Float(n) in Floats(first, last)
  {
    assert Floats(first, last)[n - first] == Float(n);
  }

  /** They are all registers of the machine except x0 to x4, the temporaries x5 to x7 and f0 to f2, and the
      frame pointer x8. The code uses some of them itself; the others are the ones a call has to keep. */
  lemma AllocatableExactly(r: Register)
    ensures r in REG_ALLOC <==>
      r.index < 32 && (r.General? ==> r.index >= 9) && (r.Float? ==> r.index >= 3)
    ensures r in REG_ALLOC ==> (HardChecked(r) <==> !CalleeSaved(r))
  {
    match r {
      case General(n) =>
        if 10 <= n <= 17 { GeneralsHave(10, 17, n); }
        if 28 <= n <= 31 { GeneralsHave(28, 31, n); }
        if n == 9 { GeneralsHave(9, 9, n); }
        if 18 <= n <= 27 { GeneralsHave(18, 27, n); }
      case Float(n) =>
        if 10 <= n <= 17 { FloatsHave(10, 17, n); }
        if 3 <= n <= 7 { FloatsHave(3, 7, n); }
        if 28 <= n <= 31 { FloatsHave(28, 31, n); }
        if 8 <= n <= 9 { FloatsHave(8, 9, n); }
        if 18 <= n <= 27 { FloatsHave(18, 27, n); }
    }
  }

  // ----- weights -----

  /** The registers that have entries are those that some copy joins. */
  lemma CopiesFound(copies: seq<Copy>, coalesce: map<Operand, Operand>, hint: map<Operand, Register>)
    requires forall k :: 0 <= k < |copies| && copies[k].BothVirtual? ==>
        copies[k].dst in coalesce
        && copies[k].src in coalesce
    requires forall o :: o in coalesce ==> exists k: nat :: JoinedLast(copies, k, o, coalesce[o])
    requires forall k :: 0 <= k < |copies| && copies[k].WithRegister? ==> copies[k].v in hint
    requires forall v :: v in hint ==> exists k: nat :: HintedLast(copies, k, v, hint[v])
    ensures forall o :: (o in coalesce <==> JoinedBy(copies, o)) && (o in hint <==> HintedBy(copies, o))
  {
    hide *;
    forall o ensures (o in coalesce <==> JoinedBy(copies, o)) && (o in hint <==> HintedBy(copies, o)) {
      JoinedIff(copies, coalesce, o);
      HintedIff(copies, hint, o);
    }
  }

  lemma JoinedIff(copies: seq<Copy>, coalesce: map<Operand, Operand>, o: Operand)
    requires forall k :: 0 <= k < |copies| && copies[k].BothVirtual? ==>
        copies[k].dst in coalesce
        && copies[k].src in coalesce
    requires o in coalesce ==> exists k: nat :: JoinedLast(copies, k, o, coalesce[o])
    ensures o in coalesce <==> JoinedBy(copies, o)
  {
    hide JoinedLast;
    if o in coalesce {
      var k: nat :| JoinedLast(copies, k, o, coalesce[o]);
      JoinedLastJoins(copies, k, o, coalesce[o]);
    }
  }

  lemma HintedIff(copies: seq<Copy>, hint: map<Operand, Register>, o: Operand)
    requires forall k :: 0 <= k < |copies| && copies[k].WithRegister? ==> copies[k].v in hint
    requires o in hint ==> exists k: nat :: HintedLast(copies, k, o, hint[o])
    ensures o in hint <==> HintedBy(copies, o)
  {
    hide HintedLast;
    if o in hint {
      var k: nat :| HintedLast(copies, k, o, hint[o]);
      HintedLastHints(copies, k, o, hint[o]);
    }
  }

  lemma JoinedLastJoins(copies: seq<Copy>, k: nat, o: Operand, other: Operand)
    requires JoinedLast(copies, k, o, other)
    ensures JoinedBy(copies, o)
  {
  }

  lemma HintedLastHints(copies: seq<Copy>, k: nat, v: Operand, reg: Register)
    requires HintedLast(copies, k, v, reg)
    ensures HintedBy(copies, v)
  {
  }

  /** Every alloc weighs what its register's mentions do. */
  ghost predicate WeightsMean(c: Code, layout: seq<BlockId>, blockWeight: map<BlockId, nat>, copies: seq<Copy>,
                              su: Setup) {
    forall n: nat :: IsAlloc(su, n) ==>
      su.weights[n] == WeightedMentions(c, layout, blockWeight, su.operandOf[n])
        * if JoinedBy(copies, su.operandOf[n]) then 3 else if HintedBy(copies, su.operandOf[n]) then 4 else 2
  }

  lemma WeightsMeanMentions(g: Graph, c: Code, layout: seq<BlockId>, id2num: map<InstrId, nat>,
                            blockWeight: map<BlockId, nat>, copies: seq<Copy>, su: Setup,
                            coalesce: map<Operand, Operand>, hint: map<Operand, Register>)
    requires RangesCorrect(g, c, layout, id2num, su.ranges) && ValidSetup(su)
    requires forall o :: (o in coalesce <==> JoinedBy(copies, o)) && (o in hint <==> HintedBy(copies, o))
    requires forall n :: n in su.weights && n in su.rangesOf && n in su.operandOf ==>
        su.weights[n] == WeightOf(su.rangesOf[n], su.operandOf[n], blockWeight, coalesce, hint)
    ensures WeightsMean(c, layout, blockWeight, copies, su)
  {
    hide RangesCorrect, JoinedBy, HintedBy, WeightOf, WeightedMentions, ListOf;
    forall n: nat | IsAlloc(su, n)
      ensures su.weights[n] == WeightedMentions(c, layout, blockWeight, su.operandOf[n])
        * if JoinedBy(copies, su.operandOf[n]) then 3 else if HintedBy(copies, su.operandOf[n]) then 4 else 2
    {
      WeightIsMentions(g, c, layout, id2num, su.ranges, su.operandOf[n], blockWeight, copies, coalesce, hint);
    }
  }

  /** Every coalescing target is itself a key, as both directions of a copy are recorded. */
  ghost predicate TargetsAreKeys(coalesce: map<Operand, Operand>) {
    forall o :: o in coalesce ==> coalesce[o] in coalesce
  }

  /** Copy `k` joins `o` to `other`, in one direction or the other, and no later copy mentions `o`. */
  ghost predicate JoinedLast(copies: seq<Copy>, k: nat, o: Operand, other: Operand) {
    && k < |copies| && copies[k].BothVirtual?
    && (copies[k] == BothVirtual(other, o) || (copies[k] == BothVirtual(o, other) && o != other))
    && forall j :: k < j < |copies| && copies[j].BothVirtual? ==> copies[j].dst != o && copies[j].src != o
  }

  /** Copy `k` joins `v` to `reg`, and no later copy joins it to a register. */
  ghost predicate HintedLast(copies: seq<Copy>, k: nat, v: Operand, reg: Register) {
    && k < |copies| && copies[k] == WithRegister(v, reg)
    && forall j :: k < j < |copies| && copies[j].WithRegister? ==> copies[j].v != v
  }

  /** Collect the coalescing pairs and the register hints: what the last copy of each says. */
  method GenAllocHint(copies: seq<Copy>) returns (coalesce: map<Operand, Operand>, hint: map<Operand, Register>)
    ensures TargetsAreKeys(coalesce)
    ensures forall k :: 0 <= k < |copies| && copies[k].BothVirtual? ==>
        copies[k].dst in coalesce
        && copies[k].src in coalesce
    ensures forall o :: o in coalesce ==> exists k: nat :: JoinedLast(copies, k, o, coalesce[o])
    ensures forall k :: 0 <= k < |copies| && copies[k].WithRegister? ==> copies[k].v in hint
    ensures forall v :: v in hint ==> exists k: nat :: HintedLast(copies, k, v, hint[v])
  {
    hide JoinedLast, HintedLast;
    coalesce, hint := map[], map[];
    var i: nat := 0;
    while i < |copies|
      invariant i <= |copies| && TargetsAreKeys(coalesce)
      invariant forall k :: 0 <= k < i && copies[k].BothVirtual? ==>
          copies[k].dst in coalesce
          && copies[k].src in coalesce
      invariant forall k :: 0 <= k < i && copies[k].WithRegister? ==> copies[k].v in hint
      invariant forall o :: o in coalesce ==> exists k: nat :: JoinedLast(copies[..i], k, o, coalesce[o])
      invariant forall v :: v in hint ==> exists k: nat :: HintedLast(copies[..i], k, v, hint[v])
    {
      ghost var coalesce0, hint0, more := coalesce, hint, copies[..i + 1];
      match copies[i] {
        case BothVirtual(dst, src) =>
          coalesce := coalesce[dst := src];
          coalesce := coalesce[src := dst];
        case WithRegister(v, reg) =>
          hint := hint[v := reg];
      }
      forall o | o in coalesce ensures exists k: nat :: JoinedLast(more, k, o, coalesce[o]) {
        JoinsStep(copies, i, more, coalesce0, coalesce, o);
      }
      forall v | v in hint ensures exists k: nat :: HintedLast(more, k, v, hint[v]) {
        HintsStep(copies, i, more, hint0, hint, v);
      }
      i := i + 1;
    }
    assert copies[..i] == copies;
  }

  lemma JoinsStep(copies: seq<Copy>, i: nat, more: seq<Copy>, before: map<Operand, Operand>,
                  after: map<Operand, Operand>, o: Operand)
    requires i < |copies| && more == copies[..i + 1] && o in after
    requires o in before ==> exists k: nat :: JoinedLast(copies[..i], k, o, before[o])
    requires match copies[i] case BothVirtual(dst, src) => after == before[dst := src][src := dst] case WithRegister(_,
        _) => after == before
    ensures exists k: nat :: JoinedLast(more, k, o, after[o])
  {
    assert forall j :: 0 <= j < i ==> more[j] == copies[..i][j];
    if copies[i].BothVirtual? && (o == copies[i].dst || o == copies[i].src) {
      assert JoinedLast(more, i, o, after[o]);
    } else {
      var k: nat :| JoinedLast(copies[..i], k, o, before[o]);
      assert JoinedLast(more, k, o, after[o]);
    }
  }

  lemma HintsStep(copies: seq<Copy>, i: nat, more: seq<Copy>, before: map<Operand, Register>,
                  after: map<Operand, Register>, v: Operand)
    requires i < |copies| && more == copies[..i + 1] && v in after
    requires v in before ==> exists k: nat :: HintedLast(copies[..i], k, v, before[v])
    requires match copies[i] case WithRegister(x, reg) => after == before[x := reg] case BothVirtual(_,
        _) => after == before
    ensures exists k: nat :: HintedLast(more, k, v, after[v])
  {
    assert forall j :: 0 <= j < i ==> more[j] == copies[..i][j];
    if copies[i].WithRegister? && copies[i].v == v {
      assert HintedLast(more, i, v, after[v]);
    } else {
      var k: nat :| HintedLast(copies[..i], k, v, before[v]);
      assert HintedLast(more, k, v, after[v]);
    }
  }

  /** The hints after `o` has got `r`: its coalescing partner should rather go there, too. */
  function HintsAfter(coalesce: map<Operand, Operand>, hints: map<Operand, Register>, o: Operand, r: Register)
    : (after: map<Operand, Register>)
  {
    if o in coalesce then hints[coalesce[o] := r] else hints
  }

  /** So a hint that an assignment leaves for its coalescing partner changes no weight. */
  lemma HintChangesNoWeight(rs: seq<Range>, o: Operand, blockWeight: map<BlockId, nat>, coalesce: map<Operand, Operand>,
                            hint: map<Operand, Register>, from: Operand, r: Register)
    requires TargetsAreKeys(coalesce) && from in coalesce
    ensures WeightOf(rs, o, blockWeight, coalesce, hint[coalesce[from] := r]) == WeightOf(rs, o, blockWeight, coalesce,
        hint)
  {
    assert coalesce[from] in coalesce;
  }

  /** The list without `x`. */
  function Without(rs: seq<Register>, x: Register): seq<Register> {
    if rs == [] then []
    else Without(rs[..|rs| - 1], x) + if rs[|rs| - 1] == x then [] else [rs[|rs| - 1]]
  }

  lemma {:induction false} WithoutMembers(rs: seq<Register>, x: Register)
    ensures forall r :: r in Without(rs, x) <==> r in rs && r != x
    ensures x !in rs ==> Without(rs, x) == rs
  {
    if rs != [] {
      WithoutMembers(rs[..|rs| - 1], x);
      assert rs == rs[..|rs| - 1] + [rs[|rs| - 1]];
    }
  }

  lemma WithoutNothing(x: Register)
    ensures Without([], x) == []
  {
  }

  lemma WithoutOneMore(rs: seq<Register>, x: Register, i: nat)
    requires i < |rs|
    ensures Without(rs[..i + 1], x) == Without(rs[..i], x) + if rs[i] == x then [] else [rs[i]]
  {
    assert rs[..i + 1][..i] == rs[..i];
  }

  lemma {:induction false} WithoutPrefix(rs: seq<Register>, x: Register, i: nat)
    requires i <= |rs|
    ensures Without(rs[..i], x) <= Without(rs, x)
    decreases |rs|
  {
    if i < |rs| {
      WithoutPrefix(rs[..|rs| - 1], x, i);
      assert rs[..|rs| - 1][..i] == rs[..i];
    } else {
      assert rs[..i] == rs;
    }
  }

  lemma ListedOrder(registers: seq<Register>, hints: map<Operand, Register>, o: Operand)
    requires o !in hints || hints[o] !in registers
    ensures OrderedAs(registers, registers, hints, o)
  {
    forall x, r | TriedBefore(registers, hints, o, x, r)
      ensures exists k :: 0 <= k < |registers| && registers[k] == x && r !in registers[..k]
    {
    }
  }

  lemma HintedOrder(registers: seq<Register>, hints: map<Operand, Register>, o: Operand)
    requires o in hints && hints[o] in registers
    ensures OrderedAs([hints[o]] + Without(registers, hints[o]), registers, hints, o)
  {
    var h := hints[o];
    var order := [h] + Without(registers, h);
    forall x, r | TriedBefore(registers, hints, o, x, r)
      ensures exists k :: 0 <= k < |order| && order[k] == x && r !in order[..k]
    {
      if x == h {
        assert order[0] == x && r !in order[..0];
      } else {
        var i :| 0 <= i < |registers| && registers[i] == x && r !in registers[..i];
        WithoutPrefix(registers, h, i + 1);
        assert registers[..i + 1][..i] == registers[..i];
        var before := Without(registers[..i], h);
        assert before + [x] <= Without(registers, h);
        WithoutMembers(registers[..i], h);
        assert order[|before| + 1] == x && order[..|before| + 1] == [h] + before;
      }
    }
  }

  class RegAlloc {
    const registers: seq<Register>
    // liveness
    var ranges: map<Operand, seq<Range>>
    var num2id: map<nat, InstrId>
    // allocs
    var count: nat
    var rangesOf: map<nat, seq<Range>>
    var operandOf: map<nat, Operand>
    var blockWeight: map<BlockId, nat>
    var coalesceMap: map<Operand, Operand>
    var hintMap: map<Operand, Register>
    // the loop
    var allocMap: map<nat, Register>
    var statusMap: map<nat, AllocStatus>
    var queue: multiset<nat>
    var occupied: map<Register, set<nat>>
    var occupiedRanges: map<Register, seq<AllocRange>>
    // spilling
    var slotOf: map<Operand, nat>
    var frameSize: nat
    var sites: map<InstrId, Site>
    var saved: set<Register>
    ghost var weights: map<nat, nat>

    /** A fresh allocator for a function whose frame already holds `localSize` bytes. */
    constructor (registers: seq<Register>, localSize: nat)
      ensures this.registers == registers && frameSize == localSize
      ensures count == 0 && rangesOf == map[] && operandOf == map[] && allocMap == map[] && statusMap == map[]
          && queue == multiset{}
      ensures occupied == map[] && occupiedRanges == map[] && slotOf == map[] && sites == map[] && saved == {}
    {
      this.registers := registers;
      frameSize := localSize;
      ranges, num2id := map[], map[];
      count, rangesOf, operandOf, blockWeight, coalesceMap, hintMap := 0, map[], map[], map[], map[], map[];
      allocMap, statusMap, queue, occupied, occupiedRanges := map[], map[], multiset{}, map[], map[];
      slotOf, sites, saved, weights := map[], map[], {}, map[];
    }

    ghost function Su(): Setup
      reads this`count, this`rangesOf, this`operandOf, this`ranges, this`weights
    {
      Setup(count, rangesOf, operandOf, ranges, registers, weights)
    }

    ghost function State(): AllocState
      reads this`allocMap, this`statusMap, this`queue, this`occupied, this`occupiedRanges, this`slotOf
    {
      AllocState(allocMap, statusMap, queue, occupied, occupiedRanges, slotOf)
    }

    lemma Here()
      ensures Su() == Setup(count, rangesOf, operandOf, ranges, registers, weights)
      ensures State() == AllocState(allocMap, statusMap, queue, occupied, occupiedRanges, slotOf)
    {
    }

    /** The weights are what the current hints say, and coalescing is symmetric enough to keep them. */
    ghost predicate WeightsCurrent()
      reads this`coalesceMap, this`hintMap, this`weights, this`rangesOf, this`operandOf, this`blockWeight
    {
      && TargetsAreKeys(coalesceMap)
      && (forall n :: n in weights ==> n in rangesOf && n in operandOf)
      && (forall n :: n in weights && n in rangesOf && n in operandOf
            ==> weights[n] == WeightOf(rangesOf[n], operandOf[n], blockWeight, coalesceMap, hintMap))
    }

    method SpillWeight(n: nat) returns (w: nat)
      requires n in rangesOf && n in operandOf
      ensures w == WeightOf(rangesOf[n], operandOf[n], blockWeight, coalesceMap, hintMap)
    {
      var rs := rangesOf[n];
      w := 0;
      var i := 0;
      while i < |rs|
        invariant 0 <= i <= |rs| && w == RangesWeight(rs[..i], blockWeight)
      {
        assert rs[..i + 1][..i] == rs[..i];
        w := w + rs[i].count * (if rs[i].block in blockWeight then blockWeight[rs[i].block] else 0);
        i := i + 1;
      }
      assert rs[..i] == rs;
      w := w * if operandOf[n] in coalesceMap then 3 else if operandOf[n] in hintMap then 4 else 2;
    }

    /** The total weight of a set of allocs. */
    method Weigh(victims: set<nat>) returns (total: nat)
      requires WeightsCurrent() && ValidSetup(Su()) && forall x :: x in victims ==> IsAlloc(Su(), x)
      ensures total == Total(Su(), victims)
    {
      hide ValidSetup, RangesWeight, WeightOf;
      total := 0;
      var rest := victims;
      ghost var done: set<nat> := {};
      TotalNone(Su());
      while rest != {}
        invariant rest <= victims && done == victims - rest && total == Total(Su(), done)
        decreases rest
      {
        var v :| v in rest;
        rest := rest - {v};
        IsAllocFacts(Su(), v);
        var w := SpillWeight(v);
        TotalAdds(Su(), done, v);
        assert done + {v} == victims - rest;
        done := done + {v};
        total := total + w;
      }
      assert done == victims;
    }

    /** Do the alloc's ranges conflict with those the code itself gives `reg`? */
    method ConflictsWithCode(n: nat, reg: Register) returns (conflict: bool)
      requires ValidSetup(Su()) && IsAlloc(Su(), n)
      ensures conflict == HardConflict(Su(), n, reg)
    {
      conflict := false;
      if HardChecked(reg) {
        var own := ListOf(ranges, Physical(reg));
        var i := 0;
        while i < |own| && !conflict
          invariant 0 <= i <= |own|
          invariant conflict ==> Interfere(RangeList(Su(), n), own)
          invariant !conflict ==> forall a, k :: a in rangesOf[n] && 0 <= k < i ==> !Conflict(a, own[k])
        {
          var j := 0;
          while j < |rangesOf[n]| && !conflict
            invariant 0 <= j <= |rangesOf[n]|
            invariant conflict ==> Interfere(RangeList(Su(), n), own)
            invariant !conflict ==> forall l :: 0 <= l < j ==> !Conflict(rangesOf[n][l], own[i])
          {
            if Conflict(rangesOf[n][j], own[i]) {
              assert rangesOf[n][j] in RangeList(Su(), n) && own[i] in own;
              conflict := true;
            }
            j := j + 1;
          }
          i := i + 1;
        }
      }
    }

    /** The order in which registers are tried: the hinted one first, then the others as they are listed. */
    method CandidateOrder(o: Operand) returns (order: seq<Register>)
      ensures forall r :: r in order <==> r in registers
      ensures o in hintMap && hintMap[o] in registers ==> order == [hintMap[o]] + Without(registers, hintMap[o])
      ensures o !in hintMap || hintMap[o] !in registers ==> order == registers
      ensures OrderedAs(order, registers, hintMap, o)
    {
      hide *;
      if o in hintMap {
        order := [];
        var hint := hintMap[o];
        WithoutMembers(registers, hint);
        if hint in registers {
          order := [hint];
        }
        ghost var first := order;
        WithoutNothing(hint);
        var i := 0;
        while i < |registers|
          invariant 0 <= i <= |registers| && order == first + Without(registers[..i], hint)
        {
          WithoutOneMore(registers, hint, i);
          if registers[i] != hint {
            order := order + [registers[i]];
          }
          i := i + 1;
        }
        assert registers[..i] == registers;
        if hint in registers {
          HintedOrder(registers, hintMap, o);
        } else {
          ListedOrder(registers, hintMap, o);
        }
      } else {
        order := registers;
        ListedOrder(registers, hintMap, o);
      }
    }

    /** Whether the code itself takes `r`, and if not, the allocs in the way there. */
    method CheckRegister(n: nat, r: Register) returns (conflict: bool, conflicts: set<nat>)
      requires Inv(Su(), State(), {n}) && IsAlloc(Su(), n) && r in registers && r.Float? == FloatOperand(operandOf[n])
      ensures conflict == HardConflict(Su(), n, r)
      ensures Fits(Su(), allocMap, n, r) <==> !conflict && conflicts == {}
      ensures !conflict && conflicts != {} ==> Blocked(Su(), allocMap, n, r, conflicts)
    {
      hide *;
      Here();
      InvFacts(Su(), State(), {n});
      IsAllocFacts(Su(), n);
      FitsOnlyCandidates(Su(), allocMap, n, r);
      conflicts := {};
      conflict := ConflictsWithCode(n, r);
      if !conflict {
        if occupied[r] == {} {
          EmptyFits(Su(), State(), {n}, n, r);
        } else {
          ScanFindsConflicts(Su(), State(), {n}, n, r);
          conflicts := ScanRegister(occupiedRanges[r], rangesOf[n]);
          if conflicts == {} {
            ClearFits(Su(), allocMap, n, r, conflicts);
          } else {
            BlockedHolds(Su(), allocMap, n, r, conflicts);
            BlockedNoFit(Su(), allocMap, n, r, conflicts);
          }
        }
      }
    }

    /** Look for a register the alloc fits; otherwise report, for every register that the code itself
        leaves free, the allocs in the way. */
    method FindRegister(n: nat, order: seq<Register>)
      returns (found: bool, reg: Register, conflictMap: map<Register, set<nat>>, hard: set<Register>)
      requires Inv(Su(), State(), {n}) && IsAlloc(Su(), n)
      requires (forall r :: r in order <==> r in registers) && OrderedAs(order, registers, hintMap, operandOf[n])
      ensures found ==> FirstFit(Su(), hintMap, allocMap, n, reg)
      ensures !found ==> !HasFit(Su(), allocMap, n)
      ensures !found ==> forall r :: Candidate(Su(), n, r) ==> r in conflictMap && r !in hard
      ensures forall r :: r in conflictMap && r !in hard ==> Blocked(Su(), allocMap, n, r, conflictMap[r]) || found
      ensures !found ==> forall r :: r in order && r.Float? == FloatOperand(operandOf[n]) ==>
          r in conflictMap
          && (r in hard <==> HardConflict(Su(), n, r))
    {
      hide *;
      Here();
      InvFacts(Su(), State(), {n});
      IsAllocFacts(Su(), n);
      found := false;
      reg := General(0);
      conflictMap, hard := map[], {};
      var i := 0;
      while i < |order| && !found
        invariant 0 <= i <= |order|
        invariant found ==> i > 0 && reg == order[i - 1] && Fits(Su(), allocMap, n, reg)
        invariant forall j :: 0 <= j < (if found then i - 1 else i) ==> !Fits(Su(), allocMap, n, order[j])
        invariant !found ==> forall r ::
            r in conflictMap && r !in hard
            ==> Blocked(Su(), allocMap, n, r, conflictMap[r])
        invariant !found ==> forall k :: 0 <= k < i && order[k].Float? == FloatOperand(operandOf[n]) ==>
            order[k] in conflictMap && (order[k] in hard <==> HardConflict(Su(), n, order[k]))
        invariant !found ==> forall r :: r in hard ==> HardConflict(Su(), n, r)
      {
        var r := order[i];
        i := i + 1;
        assert r in registers;
        FitsOnlyCandidates(Su(), allocMap, n, r);
        if r.Float? == FloatOperand(operandOf[n]) {
          conflictMap := conflictMap[r := {}];
          var conflict, conflicts := CheckRegister(n, r);
          if conflict {
            hard := hard + {r};
          } else {
            conflictMap := conflictMap[r := conflicts];
            if conflicts == {} {
              found, reg := true, r;
            }
          }
        }
      }
      if found {
        FirstInOrder(Su(), hintMap, allocMap, n, order, i - 1);
      } else {
        NoneFits(Su(), allocMap, n, order);
        AllReported(Su(), n, order, conflictMap, hard);
      }
    }

    /** The register whose allocs weigh least together. Ties are broken by the iteration order. */
    method CheapestVictims(n: nat, conflictMap: map<Register, set<nat>>, hard: set<Register>)
      returns (any: bool, reg: Register, min: nat)
      requires Inv(Su(), State(), {n}) && WeightsCurrent() && IsAlloc(Su(), n)
      requires forall r :: r in conflictMap && r !in hard ==> Blocked(Su(), allocMap, n, r, conflictMap[r])
      requires forall r :: Candidate(Su(), n, r) ==> r in conflictMap && r !in hard
      ensures any ==>
          n in weights && Cheapest(Su(), allocMap, n, reg) && (HasLighter(Su(), allocMap, n) <==> min < weights[n])
          && reg in conflictMap && conflictMap[reg] == InTheWay(Su(), allocMap, n, reg)
      ensures !any ==> !HasLighter(Su(), allocMap, n)
      ensures any ==> reg in conflictMap && reg !in hard && min == Total(Su(), conflictMap[reg])
      ensures any ==> forall r :: r in conflictMap && r !in hard ==> min <= Total(Su(), conflictMap[r])
      ensures !any ==> forall r :: r in conflictMap ==> r in hard
    {
      hide *;
      Here();
      InvFacts(Su(), State(), {n});
      any, reg, min := false, General(0), 0;
      var rest := conflictMap.Keys;
      while rest != {}
        invariant rest <= conflictMap.Keys
        invariant any ==> reg in conflictMap && reg !in hard && min == Total(Su(), conflictMap[reg])
        invariant any ==> forall r :: r in conflictMap.Keys - rest && r !in hard ==> min <= Total(Su(), conflictMap[r])
        invariant !any ==> forall r :: r in conflictMap.Keys - rest ==> r in hard
        decreases rest
      {
        var r :| r in rest;
        rest := rest - {r};
        if r !in hard {
          BlockedFacts(Su(), allocMap, n, r, conflictMap[r]);
          var weight := Weigh(conflictMap[r]);
          if !any || weight < min {
            any, reg, min := true, r, weight;
          }
        }
      }
      IsAllocFacts(Su(), n);
      if any {
        CheapestReported(Su(), allocMap, n, conflictMap, hard, reg, min);
      } else {
        NoneReported(Su(), allocMap, n, conflictMap, hard);
      }
    }

    /** Enter the alloc and its ranges into the sets of a register. What is stored there stays. */
    method Occupy(n: nat, r: Register)
      requires IsAlloc(Su(), n) && r in occupied && r in occupiedRanges && InOrder(occupiedRanges[r])
      requires n in statusMap && (statusMap[n].New? || statusMap[n].Assign?)
      modifies this`occupied, this`occupiedRanges, this`allocMap
      ensures State() == AfterPlacing(Su(), old(State()), n, r)
      ensures allocMap == old(allocMap)[n := r]
      ensures old(Inv(Su(), State(), {n}) && Fits(Su(), allocMap, n, r))
        ==> Inv(Su(), State(), {}) && n !in old(allocMap) && Inv(Su(), State().(status := statusMap[n := Assign]), {})
      ensures r in occupiedRanges && forall e :: e in old(occupiedRanges)[r] ==> e in occupiedRanges[r]
    {
      hide *;
      Here();
      IsAllocFacts(Su(), n);
      ghost var before, su := State(), Su();
      occupied := occupied[r := occupied[r] + {n}];
      StoreRanges(n, r);
      allocMap := allocMap[n := r];
      Here();
      AfterPlacingIs(su, before, n, r);
      InsertedAllKeeps(before.occupiedRanges[r], rangesOf[n], n, |rangesOf[n]|);
      if Inv(su, before, {n}) && Fits(su, before.allocMap, n, r) {
        InsertedStores(su, before, n, r, |rangesOf[n]|);
        OccupiedKeeps(su, before, n, r, occupiedRanges[r]);
      }
    }

    /** The loop over the ranges of the alloc. */
    method StoreRanges(n: nat, r: Register)
      requires n in rangesOf && r in occupiedRanges && InOrder(occupiedRanges[r])
      modifies this`occupiedRanges
      ensures occupiedRanges == old(occupiedRanges)[r := InsertedAll(old(occupiedRanges)[r], rangesOf[n], n,
          |rangesOf[n]|)]
    {
      hide *;
      ghost var before := occupiedRanges;
      NoneInserted(before[r], rangesOf[n], n);
      var k := 0;
      while k < |rangesOf[n]|
        invariant 0 <= k <= |rangesOf[n]| && r in occupiedRanges && InOrder(occupiedRanges[r])
        invariant occupiedRanges == before[r := InsertedAll(before[r], rangesOf[n], n, k)]
        modifies this`occupiedRanges
      {
        var rs := Insert(occupiedRanges[r], AllocRange(rangesOf[n][k], n));
        OneMoreInserted(before[r], rangesOf[n], n, k);
        occupiedRanges := occupiedRanges[r := rs];
        k := k + 1;
      }
    }

    /** One victim leaves the register, loses its first stored range and is queued again. */
    method EvictOne(v: nat, r: Register, ghost n: nat)
      requires r in occupied && r in occupiedRanges
      modifies this`occupied, this`occupiedRanges, this`allocMap, this`queue
      ensures State() == AfterEviction(old(State()), v, r)
      ensures old(Inv(Su(), State(), {n}) && v in allocMap && allocMap[v] == r)
        ==> (Inv(Su(), State(), {n}) <==> |RangeList(Su(), v)| == 1)
    {
      hide *;
      Here();
      if Inv(Su(), State(), {n}) && v in allocMap && allocMap[v] == r {
        EvictionKeepsIff(Su(), State(), {n}, v, r);
      }
      AfterEvictionIs(State(), v, r);
      occupied := occupied[r := occupied[r] - {v}];
      var rs := EraseFirst(occupiedRanges[r], v);
      occupiedRanges := occupiedRanges[r := rs];
      allocMap := allocMap - {v};
      queue := queue + multiset{v};
      Here();
    }

    /** All victims leave: the invariant holds afterwards as long as each of them has one range, and
        otherwise the register still stores a range of one of them. */
    method Evict(victims: set<nat>, r: Register, ghost n: nat)
      requires Inv(Su(), State(), {n}) && r in registers && forall v :: v in victims ==>
          v in allocMap
          && allocMap[v] == r
      modifies this`occupied, this`occupiedRanges, this`allocMap, this`queue
      ensures allocMap == old(allocMap) - victims && EvictedSoFar(Su(), State(), {n}, r, victims)
      ensures AllEvicted(old(State()), victims, r, State())
    {
      hide *;
      var rest := victims;
      ghost var before, first := allocMap, State();
      Here();
      NoneEvicted(Su(), State(), {n}, r);
      EvictedFacts(Su(), State(), {n}, r, {});
      NoneIsEvicted(State(), r);
      assert victims - rest == {};
      while rest != {}
        invariant rest <= victims && allocMap == before - (victims - rest)
        invariant EvictedSoFar(Su(), State(), {n}, r, victims - rest) && AllEvicted(first, victims - rest, r, State())
        modifies this`occupied, this`occupiedRanges, this`allocMap, this`queue
        decreases rest
      {
        ghost var gone := victims - rest;
        var v :| v in rest;
        rest := rest - {v};
        Here();
        OneMoreEvicted(Su(), State(), {n}, r, gone, v);
        OneMoreIsEvicted(first, gone, r, State(), v);
        AfterEvictionIs(State(), v, r);
        EvictOne(v, r, n);
        Here();
        assert victims - rest == gone + {v};
      }
      assert victims - rest == victims;
    }

    /** A register was free. */
    method TakeFree(n: nat, reg: Register, ghost s0: AllocState)
      requires n in operandOf && n in statusMap
      requires Inv(Su(), s0, {}) && n in s0.queue && State() == s0.(queue := s0.queue - multiset{n}) && WeightsCurrent()
      requires IsAlloc(Su(), n) && (statusMap[n].New? || statusMap[n].Assign?)
          && Fits(Su(), allocMap, n, reg)
      modifies this`occupied, this`occupiedRanges, this`allocMap, this`statusMap, this`hintMap
      ensures Inv(Su(), State(), {}) && Progress(Su(), s0, State()) && WeightsCurrent()
      ensures Placed(Su(), s0.(queue := s0.queue - multiset{n}, status := s0.status[n := Assign]), n, reg, State())
      ensures hintMap == HintsAfter(coalesceMap, old(hintMap), operandOf[n], reg)
    {
      hide *;
      PopKeeps(Su(), s0, n);
      Here();
      IsAllocFacts(Su(), n);
      RegisterReady(Su(), State(), {n}, n, reg);
      Occupy(n, reg);
      Here();
      statusMap := statusMap[n := Assign];
      Here();
      PlaceProgress(Su(), s0, State(), n, reg);
      PlacedIs(Su(), s0.(queue := s0.queue - multiset{n}), n, reg, Assign, State());
      LeaveHint(operandOf[n], reg);
    }

    /** Every register is taken: evict the lightest set of allocs in the way if it is lighter than the
        newcomer, else give up on registers for the newcomer. The invariant holds afterwards exactly if
        each alloc evicted has one range. */
    method MakeRoom(n: nat, conflictMap: map<Register, set<nat>>, hard: set<Register>, ghost s0: AllocState)
      returns (evicted: set<nat>)
      requires Inv(Su(), s0, {}) && n in s0.queue && State() == s0.(queue := s0.queue - multiset{n}) && WeightsCurrent()
      requires IsAlloc(Su(), n) && n in statusMap && (statusMap[n].New? || statusMap[n].Assign?)
      requires forall r :: r in conflictMap && r !in hard ==> Blocked(Su(), allocMap, n, r, conflictMap[r])
      requires forall r :: Candidate(Su(), n, r) ==> r in conflictMap && r !in hard
      modifies this`occupied, this`occupiedRanges, this`allocMap, this`statusMap, this`queue
      ensures evicted <= s0.allocMap.Keys - allocMap.Keys && StepOutcome(Su(), s0, State(), evicted)
      ensures !HasFit(Su(), s0.allocMap, n) ==> TryOutcome(Su(), hintMap, s0, n, State(), evicted)
    {
      hide *;
      PopKeeps(Su(), s0, n);
      Here();
      IsAllocFacts(Su(), n);
      var any, cheap, min := CheapestVictims(n, conflictMap, hard);
      WeightKnown(n);
      var weight := SpillWeight(n);
      if !any || weight <= min {
        evicted := {};
        GiveUp(n, s0);
        SoundOutcome(Su(), s0, State());
        SplitIsOutcome(Su(), hintMap, s0, n, State());
      } else {
        evicted := conflictMap[cheap];
        TakeOver(n, cheap, evicted, s0);
        TakenIsOutcome(Su(), hintMap, s0, n, cheap, State(), evicted);
      }
    }

    /** No register for the newcomer: it is queued to be split. */
    method GiveUp(n: nat, ghost s0: AllocState)
      requires Inv(Su(), s0, {}) && n in s0.queue && State() == s0.(queue := s0.queue - multiset{n})
      requires IsAlloc(Su(), n) && n in statusMap && (statusMap[n].New? || statusMap[n].Assign?)
      modifies this`statusMap, this`queue
      ensures Inv(Su(), State(), {}) && Progress(Su(), s0, State()) && State() == s0.(status := s0.status[n := Split])
    {
      hide *;
      PopKeeps(Su(), s0, n);
      Here();
      statusMap := statusMap[n := Split];
      queue := queue + multiset{n};
      Here();
      RequeueKeeps(Su(), s0.(queue := s0.queue - multiset{n}), n, Split);
      SplitProgress(Su(), s0, State(), n);
    }

    lemma WeightKnown(n: nat)
      requires WeightsCurrent() && IsAlloc(Su(), n)
      ensures n in weights && n in rangesOf && n in operandOf
      ensures weights[n] == WeightOf(rangesOf[n], operandOf[n], blockWeight, coalesceMap, hintMap)
    {
    }

    method TakeOver(n: nat, r: Register, victims: set<nat>, ghost s0: AllocState)
      requires Inv(Su(), s0, {}) && n in s0.queue && State() == s0.(queue := s0.queue - multiset{n})
      requires IsAlloc(Su(), n) && n in statusMap && (statusMap[n].New? || statusMap[n].Assign?)
      requires Blocked(Su(), allocMap, n, r, victims) && n in weights && Total(Su(), victims) < weights[n]
      modifies this`occupied, this`occupiedRanges, this`allocMap, this`queue
      ensures victims <= s0.allocMap.Keys - allocMap.Keys && StepOutcome(Su(), s0, State(), victims)
      ensures TakenOver(Su(), s0.(queue := s0.queue - multiset{n}), n, r, victims, State())
    {
      hide *;
      PopKeeps(Su(), s0, n);
      Here();
      IsAllocFacts(Su(), n);
      BlockedFacts(Su(), allocMap, n, r, victims);
      Evict(victims, r, n);
      Here();
      EvictedFits(Su(), s0.allocMap, allocMap, n, r, victims);
      EvictedFacts(Su(), State(), {n}, r, victims);
      ghost var middle := State();
      Occupy(n, r);
      Here();
      if EachOneRange(Su(), victims) {
        EvictProgress(Su(), s0, State(), n, r, victims);
      } else {
        StaleStays(Su(), middle, State(), r, victims);
      }
      StepOutcomeIs(Su(), s0, State(), victims);
      PlacedThere(Su(), middle, n, r, State());
      TakesIn(Su(), s0.(queue := s0.queue - multiset{n}), n, r, victims, middle, State());
    }

    /** Give the alloc a register, take one from lighter allocs, or give up on registers for it. */
    method TryAllocate(n: nat, ghost s0: AllocState) returns (evicted: set<nat>)
      requires Inv(Su(), s0, {}) && n in s0.queue && State() == s0.(queue := s0.queue - multiset{n}) && WeightsCurrent()
      requires IsAlloc(Su(), n) && n in statusMap && (statusMap[n].New? || statusMap[n].Assign?)
      modifies this`occupied, this`occupiedRanges, this`allocMap, this`statusMap, this`queue, this`hintMap
      ensures evicted <= s0.allocMap.Keys && StepOutcome(Su(), s0, State(), evicted) && WeightsCurrent()
      ensures TryOutcome(Su(), old(hintMap), s0, n, State(), evicted)
      ensures !HasFit(Su(), s0.allocMap, n) ==> hintMap == old(hintMap)
      ensures HasFit(Su(), s0.allocMap, n) ==>
          n in allocMap && hintMap == HintsAfter(coalesceMap, old(hintMap), operandOf[n], allocMap[n])
    {
      hide *;
      PopKeeps(Su(), s0, n);
      Here();
      IsAllocFacts(Su(), n);
      var order := CandidateOrder(operandOf[n]);
      var found, reg, conflictMap, hard := FindRegister(n, order);
      if found {
        evicted := {};
        FirstFitFits(Su(), hintMap, allocMap, n, reg);
        ghost var hints := hintMap;
        TakeFree(n, reg, s0);
        SoundOutcome(Su(), s0, State());
        PlacedIsOutcome(Su(), hints, s0, n, reg, State());
        Here();
      } else {
        evicted := MakeRoom(n, conflictMap, hard, s0);
      }
    }

    /** The coalescing partner should rather go to the same register. */
    method LeaveHint(o: Operand, r: Register)
      requires WeightsCurrent()
      modifies this`hintMap
      ensures WeightsCurrent() && hintMap == HintsAfter(coalesceMap, old(hintMap), o, r)
    {
      hide WeightOf, RangesWeight;
      if o in coalesceMap {
        forall n | n in weights && n in rangesOf && n in operandOf
          ensures weights[n] == WeightOf(rangesOf[n], operandOf[n], blockWeight, coalesceMap,
              hintMap[coalesceMap[o] := r])
        {
          HintChangesNoWeight(rangesOf[n], operandOf[n], blockWeight, coalesceMap, hintMap, o, r);
        }
        hintMap := hintMap[coalesceMap[o] := r];
      }
    }

    method TrySplit(n: nat, ghost s0: AllocState)
      requires Inv(Su(), s0, {}) && n in s0.queue && State() == s0.(queue := s0.queue - multiset{n})
      requires IsAlloc(Su(), n) && n in statusMap && statusMap[n].Split?
      modifies this`statusMap, this`queue
      ensures Inv(Su(), State(), {}) && Progress(Su(), s0, State()) && State() == s0.(status := s0.status[n := Spill])
    {
      hide *;
      PopKeeps(Su(), s0, n);
      Here();
      statusMap := statusMap[n := Spill];
      queue := queue + multiset{n};
      Here();
      RequeueKeeps(Su(), s0.(queue := s0.queue - multiset{n}), n, Spill);
      SpillStatusProgress(Su(), s0, State(), n);
    }

    // ----- spilling -----

    /** The instructions in the alloc's ranges that define or use its register. */
    method CollectMentions(c: Code, n: nat, ghost a: Allocation) returns (defWork: seq<InstrId>, useWork: seq<InstrId>)
      requires ValidSetup(Su()) && IsAlloc(Su(), n) && Covered(c, Su(), num2id) && CodeFor(c, sites, a)
      requires operandOf[n] !in a.regOf && operandOf[n] !in a.slotOf
      ensures forall i, j :: 0 <= i < j < |defWork| ==> defWork[i] != defWork[j]
      ensures forall i, j :: 0 <= i < j < |useWork| ==> useWork[i] != useWork[j]
      ensures forall id :: id in defWork || id in useWork ==> id in sites
      ensures forall id :: id in sites ==> (id in defWork <==> operandOf[n] in sites[id].grp.main.defs)
      ensures forall id :: id in sites ==> (id in useWork <==> operandOf[n] in sites[id].grp.main.uses)
    {
      hide *;
      Here();
      IsAllocFacts(Su(), n);
      RangesProper(Su(), n);
      NumbersOf(c, Su(), num2id, n);
      var o := operandOf[n];
      defWork, useWork := [], [];
      var k := 0;
      ghost var all := NumbersIn(rangesOf[n]);
      NoNumbers(rangesOf[n]);
      WorklistStarts(sites, num2id, o, true);
      WorklistStarts(sites, num2id, o, false);
      while k < |rangesOf[n]|
        invariant 0 <= k <= |rangesOf[n]|
        invariant Worklist(defWork, sites, num2id, NumbersIn(rangesOf[n][..k]), o, true)
        invariant Worklist(useWork, sites, num2id, NumbersIn(rangesOf[n][..k]), o, false)
      {
        var range := rangesOf[n][k];
        var m := range.begin;
        RangeStarts(rangesOf[n], k);
        while m <= range.end
          invariant range.begin <= m <= range.end + 1
          invariant Worklist(defWork, sites, num2id, NumbersUpTo(rangesOf[n], k, m), o, true)
          invariant Worklist(useWork, sites, num2id, NumbersUpTo(rangesOf[n], k, m), o, false)
        {
          NextNumber(rangesOf[n], k, m);
          NumberedSite(c, sites, a, num2id, all, m);
          WorklistGrows(c, defWork, sites, num2id, NumbersUpTo(rangesOf[n], k, m), m, all, o, true);
          WorklistGrows(c, useWork, sites, num2id, NumbersUpTo(rangesOf[n], k, m), m, all, o, false);
          var id := num2id[m];
          HasMeans(sites[id], o);
          if o in sites[id].grp.main.defs {
            defWork := defWork + [id];
          }
          if o in sites[id].grp.main.uses {
            useWork := useWork + [id];
          }
          m := m + 1;
        }
        RangeEnds(rangesOf[n], k);
        k := k + 1;
      }
      assert rangesOf[n][..k] == rangesOf[n];
      WorklistComplete(c, Su(), num2id, sites, a, n, defWork, true);
      WorklistComplete(c, Su(), num2id, sites, a, n, useWork, false);
      forall id | id in sites ensures Has(sites[id], o, true) == (o in sites[id].grp.main.defs)
          && Has(sites[id], o, false) == (o in sites[id].grp.main.uses) {
        HasMeans(sites[id], o);
      }
    }

    method SpillDefs(work: seq<InstrId>, o: Operand, offset: nat)
      requires forall i, j :: 0 <= i < j < |work| ==> work[i] != work[j]
      requires forall id :: id in work ==> id in sites
      requires forall id :: id in sites ==> (id in work <==> o in sites[id].grp.main.defs)
      modifies this`sites
      ensures DefsSpilled(old(sites), sites, o, offset)
    {
      ghost var before := sites;
      var k := 0;
      while k < |work|
        invariant 0 <= k <= |work| && sites.Keys == before.Keys
        invariant forall id :: id in before ==> sites[id] == if id in work[..k] then SpillDef(before[id], o, offset)
            else before[id]
        modifies this`sites
      {
        hide SpillDef;
        assert work[..k + 1] == work[..k] + [work[k]];
        sites := sites[work[k] := SpillDef(sites[work[k]], o, offset)];
        k := k + 1;
      }
      assert work[..k] == work;
    }

    method SpillUses(work: seq<InstrId>, o: Operand, offset: nat)
      requires forall i, j :: 0 <= i < j < |work| ==> work[i] != work[j]
      requires forall id :: id in work ==> id in sites
      requires forall id :: id in sites ==> (id in work <==> o in sites[id].grp.main.uses)
      requires forall id :: id in sites ==> RoomFor(sites[id], o)
      modifies this`sites
      ensures UsesSpilled(old(sites), sites, o, offset)
    {
      hide RoomFor;
      ghost var before := sites;
      var k := 0;
      while k < |work|
        invariant 0 <= k <= |work| && sites.Keys == before.Keys
        invariant forall id :: id in before ==> sites[id] == if id in work[..k] then SpillUse(before[id], o, offset)
            else before[id]
        modifies this`sites
      {
        hide SpillUse;
        assert work[..k + 1] == work[..k] + [work[k]];
        sites := sites[work[k] := SpillUse(sites[work[k]], o, offset)];
        k := k + 1;
      }
      assert work[..k] == work;
    }

    /** Put the code of a spill around every instruction that mentions the alloc's register. */
    method EditSpilled(c: Code, n: nat, offset: nat, ghost a: Allocation)
      requires ValidSetup(Su()) && IsAlloc(Su(), n) && Covered(c, Su(), num2id) && AllSpillable(c) && AllFewInputs(c)
      requires CodeFor(c, sites, a) && AllocationShape(a) && operandOf[n] !in a.regOf && operandOf[n] !in a.slotOf
      modifies this`sites
      ensures CodeFor(c, sites, WithSlot(a, operandOf[n], offset))
    {
      hide *;
      Here();
      IsAllocFacts(Su(), n);
      AllocIsVirtual(Su(), n);
      var o := operandOf[n];
      ghost var sites0 := sites;
      var defWork, useWork := CollectMentions(c, n, a);
      RoomEverywhere(c, sites0, a, o, offset);
      SpillDefs(defWork, o, offset);
      ghost var sites1 := sites;
      DefsSpilledFacts(sites0, sites1, o, offset);
      SpillUses(useWork, o, offset);
      CodeSpilled(c, sites0, sites1, sites, a, o, offset);
    }

    /** Move the alloc to memory: a slot, and code around every instruction that mentions it. */
    method SpillAlloc(c: Code, n: nat, ghost base: nat, ghost s0: AllocState)
      requires Inv(Su(), s0, {}) && n in s0.queue && State() == s0.(queue := s0.queue - multiset{n})
      requires Covered(c, Su(), num2id) && AllSpillable(c) && AllFewInputs(c)
      requires CodeFor(c, sites, Allocation(map[], slotOf)) && SlotsInFrame(slotOf, base, frameSize)
      modifies this`slotOf, this`frameSize, this`sites
      ensures Inv(Su(), State(), {}) && Progress(Su(), s0, State())
      ensures IsAlloc(Su(), n)
      ensures State() == s0.(queue := s0.queue - multiset{n}, slotOf := s0.slotOf[operandOf[n] := old(frameSize)])
      ensures frameSize == old(frameSize) + 8
      ensures CodeFor(c, sites, Allocation(map[], slotOf)) && SlotsInFrame(slotOf, base, frameSize)
    {
      hide *;
      PopKeeps(Su(), s0, n);
      Here();
      InvFacts(Su(), s0, {});
      IsAllocFacts(Su(), n);
      AllocIsVirtual(Su(), n);
      var o := operandOf[n];
      ghost var a := Allocation(map[], slotOf);
      SlotsShape(slotOf, base, frameSize);
      NewSlot(slotOf, base, frameSize, o);
      SpillKeeps(Su(), s0.(queue := s0.queue - multiset{n}), n, frameSize);
      SlotIsFresh(slotOf, o, frameSize);
      var offset := SlotOrFresh(slotOf, o, frameSize);
      if o !in slotOf {
        frameSize := frameSize + 8;
        slotOf := slotOf[o := offset];
      }
      Here();
      QueueProgress(Su(), s0, State(), n);
      EditSpilled(c, n, offset, a);
      SlotFacts(a, o, offset);
    }

    // ----- rewriting -----

    /** Put the register into every instruction in the alloc's ranges. */
    method RewriteAlloc(c: Code, n: nat, reg: Register, ghost a: Allocation)
      requires ValidSetup(Su()) && IsAlloc(Su(), n) && Covered(c, Su(), num2id)
      requires CodeFor(c, sites, a) && operandOf[n] !in a.regOf && operandOf[n] !in a.slotOf
      modifies this`sites
      ensures CodeFor(c, sites, WithReg(a, operandOf[n], reg))
    {
      hide *;
      Here();
      IsAllocFacts(Su(), n);
      RangesProper(Su(), n);
      AllocIsVirtual(Su(), n);
      NumbersOf(c, Su(), num2id, n);
      var o := operandOf[n];
      ghost var before := sites;
      ghost var all := NumbersIn(rangesOf[n]);
      NoNumbers(rangesOf[n]);
      AssigningStarts(before, num2id, o, reg);
      var k := 0;
      while k < |rangesOf[n]|
        invariant 0 <= k <= |rangesOf[n]|
        invariant PartlyAssigned(before, sites, num2id, NumbersIn(rangesOf[n][..k]), o, reg)
        modifies this`sites
      {
        var range := rangesOf[n][k];
        var m := range.begin;
        RangeStarts(rangesOf[n], k);
        while m <= range.end
          invariant range.begin <= m <= range.end + 1
          invariant PartlyAssigned(before, sites, num2id, NumbersUpTo(rangesOf[n], k, m), o, reg)
          modifies this`sites
        {
          NextNumber(rangesOf[n], k, m);
          NumberedSite(c, before, a, num2id, all, m);
          AssigningKeys(before, sites, num2id, NumbersUpTo(rangesOf[n], k, m), o, reg);
          var id := num2id[m];
          var main := sites[id].grp.main;
          ReplaceIfThere(main, o, Physical(reg));
          if o in main.defs {
            main := main.(defs := Replace(main.defs, o, Physical(reg)));
          }
          if o in main.uses {
            main := main.(uses := Replace(main.uses, o, Physical(reg)));
          }
          AssigningSteps(c, before, sites, num2id, NumbersUpTo(rangesOf[n], k, m), m, all, o, reg, main);
          sites := sites[id := Site(sites[id].grp.(main := main), sites[id].usedTemps)];
          m := m + 1;
        }
        RangeEnds(rangesOf[n], k);
        k := k + 1;
      }
      assert rangesOf[n][..k] == rangesOf[n];
      AssignedAll(c, Su(), num2id, before, sites, a, n, reg);
      CodeAssigned(c, before, sites, a, o, reg);
    }

    /** Rewrite all assigned allocs, in any order. */
    method RewriteOperands(c: Code) returns (ghost regOf: map<Operand, Register>)
      requires Inv(Su(), State(), {}) && Covered(c, Su(), num2id) && CodeFor(c, sites, Allocation(map[], slotOf))
          && saved == {}
      modifies this`sites, this`saved
      ensures CodeFor(c, sites, Allocation(regOf, slotOf)) && AssignmentOf(Su(), allocMap, allocMap.Keys, regOf)
      ensures SavedFor(saved, allocMap, allocMap.Keys)
    {
      hide *;
      Here();
      InvFacts(Su(), State(), {});
      regOf := map[];
      var rest := allocMap.Keys;
      ghost var done: set<nat> := {};
      AssignmentStarts(Su(), allocMap);
      SavedStarts(allocMap);
      while rest != {}
        invariant rest <= allocMap.Keys && done == allocMap.Keys - rest
        invariant CodeFor(c, sites, Allocation(regOf, slotOf)) && AssignmentOf(Su(), allocMap, done, regOf)
        invariant SavedFor(saved, allocMap, done)
        modifies this`sites, this`saved
        decreases rest
      {
        var n :| n in rest;
        rest := rest - {n};
        var reg := allocMap[n];
        IsAllocFacts(Su(), n);
        AssignmentGrows(Su(), State(), done, regOf, n);
        RewriteAlloc(c, n, reg, Allocation(regOf, slotOf));
        RegFacts(regOf, slotOf, operandOf[n], reg);
        regOf := regOf[operandOf[n] := reg];
        SavedGrows(saved, allocMap, done, n);
        done := done + {n};
        if CalleeSaved(reg) {
          saved := saved + {reg};
        }
      }
      assert done == allocMap.Keys;
    }

    // ----- the whole pass -----

    /** The next number, for an operand with these ranges. */
    method CreateAlloc(o: Operand)
      requires o in ranges
      modifies this`count, this`rangesOf, this`operandOf, this`statusMap
      ensures count == old(count) + 1
      ensures operandOf == old(operandOf)[count := o] && rangesOf == old(rangesOf)[count := ranges[o]]
      ensures statusMap == old(statusMap)[count := New]
    {
      count := count + 1;
      operandOf := operandOf[count := o];
      rangesOf := rangesOf[count := ranges[o]];
      statusMap := statusMap[count := New];
    }

    /** One alloc for each virtual register that has ranges. */
    method CreateAllocs()
      requires count == 0 && rangesOf == map[] && operandOf == map[] && statusMap == map[]
      modifies this`count, this`rangesOf, this`operandOf, this`statusMap
      ensures AllocsFor(count, rangesOf, operandOf, ranges, ranges.Keys)
      ensures statusMap.Keys == rangesOf.Keys && forall n :: n in statusMap ==> statusMap[n] == New
    {
      var rest := ranges.Keys;
      while rest != {}
        invariant rest <= ranges.Keys && AllocsFor(count, rangesOf, operandOf, ranges, ranges.Keys - rest)
        invariant statusMap.Keys == rangesOf.Keys && forall n :: n in statusMap ==> statusMap[n] == New
        modifies this`count, this`rangesOf, this`operandOf, this`statusMap
        decreases rest
      {
        hide AllocsFor;
        var o :| o in rest;
        AllocsGrow(count, rangesOf, operandOf, ranges, ranges.Keys - rest, o);
        assert ranges.Keys - (rest - {o}) == ranges.Keys - rest + {o};
        rest := rest - {o};
        if o.Virtual? {
          CreateAlloc(o);
        }
      }
      assert ranges.Keys - rest == ranges.Keys;
    }

    method ClearOccupied()
      modifies this`occupied, this`occupiedRanges
      ensures forall r :: r in registers ==> r in occupied && r in occupiedRanges && occupiedRanges[r] == []
      ensures forall r :: r in occupied ==> occupied[r] == {} || r in old(occupied)
    {
      var i := 0;
      while i < |registers|
        invariant 0 <= i <= |registers|
        invariant forall k :: 0 <= k < i ==>
            registers[k] in occupied && registers[k] in occupiedRanges
            && occupiedRanges[registers[k]] == []
        invariant forall r :: r in occupied ==> occupied[r] == {} || r in old(occupied)
      {
        occupied := occupied[registers[i] := {}];
        occupiedRanges := occupiedRanges[registers[i] := []];
        i := i + 1;
      }
    }

    method FillQueue()
      requires queue == multiset{}
      modifies this`queue
      ensures forall n: nat :: queue[n] == Count(n in rangesOf)
    {
      var rest := rangesOf.Keys;
      while rest != {}
        invariant rest <= rangesOf.Keys
        invariant forall n: nat :: queue[n] == Count(n in rangesOf && n !in rest)
        decreases rest
      {
        var n :| n in rest;
        rest := rest - {n};
        queue := queue + multiset{n};
      }
    }

    /** The instructions as they are before any is edited. */
    method OpenSites(c: Code)
      modifies this`sites
      ensures CodeFor(c, sites, Allocation(map[], map[]))
    {
      sites := map b, i | b in c && 0 <= i < |c[b]| :: (b, i) := Site(Group([], c[b][i], []), {});
      hide SiteOk;
      forall b: BlockId, i: nat | At(c, b, i) ensures (b, i) in sites {
        assert b in c && 0 <= i < |c[b]|;
      }
      CodeStarts(c, sites);
    }

    /** Liveness, allocs, weights and queue. */
    method Init(g: Graph, c: Code, layout: seq<BlockId>, weightOfBlock: map<BlockId, nat>, copies: seq<Copy>)
      returns (ghost id2num: map<InstrId, nat>)
      requires FunctionShape(g, c, layout) && NothingLiveUnseen(g, c, layout[|layout| - 1]) && AllSpillable(c)
          && NoSelfUpdate(c)
      requires forall r :: r in registers ==> !IsTemp(r) && Physical(r) != SP
      requires count == 0 && rangesOf == map[] && operandOf == map[] && allocMap == map[] && statusMap == map[]
          && queue == multiset{}
      requires occupied == map[] && occupiedRanges == map[] && slotOf == map[]
      modifies this`ranges, this`num2id, this`count, this`rangesOf, this`operandOf, this`blockWeight, this`coalesceMap,
          this`hintMap,
               this`statusMap, this`queue, this`occupied, this`occupiedRanges, this`sites, this`weights
      ensures RangesCorrect(g, c, layout, id2num, ranges) && Covered(c, Su(), num2id) && AllocForEach(Su())
      ensures ValidSetup(Su()) && WeightsMean(c, layout, weightOfBlock, copies, Su())
      ensures forall n :: FewNeighbours(Su(), n) ==> InPlay(Su(), State(), n)
      ensures Inv(Su(), State(), {}) && WeightsCurrent() && CodeFor(c, sites, Allocation(map[], map[]))
      ensures (forall o: Operand :: o.Virtual? ==> |AllRanges(g, c, layout, id2num, o)| <= 1) ==> OneRangeEach(Su())
    {
      hide *;
      var liveness := new LivenessAnalysis();
      liveness.Analyze(g, c, layout);
      ranges, num2id, id2num := liveness.liveRanges, liveness.num2id, liveness.id2num;
      AllSeparate(g, c, layout, id2num, num2id, liveness.nextNum, ranges);
      InitAllocs(g, c, layout, id2num, weightOfBlock, copies);
      OpenSites(c);
      Here();
      RangesCover(g, c, layout, id2num, num2id, liveness.nextNum, Su());
      OneRangeStarts(g, c, layout, id2num, Su());
    }

    method InitAllocs(ghost g: Graph, c: Code, ghost layout: seq<BlockId>, ghost id2num: map<InstrId, nat>,
                      weightOfBlock: map<BlockId, nat>, copies: seq<Copy>)
      requires FunctionShape(g, c, layout) && RangesCorrect(g, c, layout, id2num, ranges)
      requires forall o: Operand :: o.Virtual? ==> Separate(ListOf(ranges, o))
      requires forall r :: r in registers ==> !IsTemp(r) && Physical(r) != SP
      requires count == 0 && rangesOf == map[] && operandOf == map[] && allocMap == map[] && statusMap == map[]
          && queue == multiset{}
      requires occupied == map[] && occupiedRanges == map[] && slotOf == map[]
      modifies this`count, this`rangesOf, this`operandOf, this`blockWeight, this`coalesceMap, this`hintMap,
               this`statusMap, this`queue, this`occupied, this`occupiedRanges, this`weights
      ensures AllocForEach(Su()) && Inv(Su(), State(), {}) && WeightsCurrent() && ValidSetup(Su())
      ensures WeightsMean(c, layout, weightOfBlock, copies, Su())
      ensures forall n :: FewNeighbours(Su(), n) ==> InPlay(Su(), State(), n)
    {
      hide *;
      CreateAllocs();
      AllocKeys(count, rangesOf, operandOf, ranges);
      SetWeights(weightOfBlock, copies);
      ClearOccupied();
      FillQueue();
      LoopStarts(g, c, layout, id2num);
      Here();
      WeightsNow();
      WeightsMeanMentions(g, c, layout, id2num, weightOfBlock, copies, Su(), coalesceMap, hintMap);
      Here();
      AllNewInPlay(Su(), State());
    }

    lemma WeightsNow()
      requires WeightsCurrent()
      ensures forall n :: n in Su().weights && n in Su().rangesOf && n in Su().operandOf ==>
          Su().weights[n] == WeightOf(Su().rangesOf[n], Su().operandOf[n], blockWeight, coalesceMap, hintMap)
    {
      hide WeightOf;
    }

    method SetWeights(weightOfBlock: map<BlockId, nat>, copies: seq<Copy>)
      requires rangesOf.Keys == operandOf.Keys
      modifies this`blockWeight, this`coalesceMap, this`hintMap, this`weights
      ensures WeightsCurrent() && weights.Keys == rangesOf.Keys && blockWeight == weightOfBlock
      ensures forall o :: (o in coalesceMap <==> JoinedBy(copies, o)) && (o in hintMap <==> HintedBy(copies, o))
    {
      hide *;
      coalesceMap, hintMap := GenAllocHint(copies);
      CopiesFound(copies, coalesceMap, hintMap);
      blockWeight := weightOfBlock;
      weights := WeightsOf(rangesOf, operandOf, blockWeight, coalesceMap, hintMap);
      WeightsStart();
    }

    lemma LoopStarts(g: Graph, c: Code, layout: seq<BlockId>, id2num: map<InstrId, nat>)
      requires FunctionShape(g, c, layout) && RangesCorrect(g, c, layout, id2num, ranges)
      requires forall o: Operand :: o.Virtual? ==> Separate(ListOf(ranges, o))
      requires forall r :: r in registers ==> !IsTemp(r) && Physical(r) != SP
      requires AllocsFor(count, rangesOf, operandOf, ranges, ranges.Keys) && weights.Keys == rangesOf.Keys
      requires statusMap.Keys == rangesOf.Keys && forall n :: n in statusMap ==> statusMap[n] == New
      requires forall n: nat :: queue[n] == Count(n in rangesOf)
      requires forall r :: r in registers ==> r in occupied && r in occupiedRanges && occupiedRanges[r] == []
      requires (forall r :: r in occupied ==> occupied[r] == {}) && allocMap == map[] && slotOf == map[]
      ensures AllocForEach(Su()) && Inv(Su(), State(), {}) && ValidSetup(Su())
    {
      hide *;
      Here();
      AllocsAreValid(g, c, layout, id2num, Su());
      InvStarts(Su(), State());
    }

    lemma WeightsStart()
      requires TargetsAreKeys(coalesceMap)
      requires weights == WeightsOf(rangesOf, operandOf, blockWeight, coalesceMap, hintMap)
      ensures WeightsCurrent() && (rangesOf.Keys == operandOf.Keys ==> weights.Keys == rangesOf.Keys)
    {
    }

    /** One step of the loop, for whatever alloc was popped. */
    method Step(c: Code, n: nat, ghost base: nat) returns (evicted: set<nat>)
      requires Inv(Su(), State(), {}) && WeightsCurrent() && Covered(c, Su(), num2id) && AllSpillable(c)
          && AllFewInputs(c)
      requires CodeFor(c, sites, Allocation(map[], slotOf)) && SlotsInFrame(slotOf, base, frameSize) && n in queue
      modifies this`occupied, this`occupiedRanges, this`allocMap, this`statusMap, this`queue, this`hintMap, this`slotOf,
          this`frameSize, this`sites
      ensures evicted <= old(allocMap).Keys && StepOutcome(Su(), old(State()), State(), evicted) && WeightsCurrent()
      ensures StepResult(Su(), old(hintMap), old(State()), n, old(frameSize), State(), evicted)
      ensures CodeFor(c, sites, Allocation(map[], slotOf)) && SlotsInFrame(slotOf, base, frameSize)
    {
      hide *;
      ghost var s0 := State();
      Here();
      PopKeeps(Su(), s0, n);
      StatusCases(s0.status, n);
      evicted := {};
      ghost var hints, slot := hintMap, frameSize;
      queue := queue - multiset{n};
      Here();
      match statusMap[n] {
        case New => evicted := TryAllocate(n, s0);
        case Assign => evicted := TryAllocate(n, s0);
        case Split => TrySplit(n, s0); SoundOutcome(Su(), s0, State());
        case Spill => SpillAlloc(c, n, base, s0); SoundOutcome(Su(), s0, State());
        case Memory => assert false;
        case Done => assert false;
      }
      StepResultIs(Su(), hints, s0, n, slot, State(), evicted);
    }

    /** One step, and whether it left the invariant intact. */
    method StepAndCheck(c: Code, n: nat, ghost base: nat, ghost start: AllocState) returns (intact: bool)
      requires Inv(Su(), State(), {}) && WeightsCurrent() && Covered(c, Su(), num2id) && AllSpillable(c)
          && AllFewInputs(c)
      requires CodeFor(c, sites, Allocation(map[], slotOf)) && SlotsInFrame(slotOf, base, frameSize) && n in queue
      requires StillInPlay(Su(), start, State())
      modifies this`occupied, this`occupiedRanges, this`allocMap, this`statusMap, this`queue, this`hintMap, this`slotOf,
          this`frameSize, this`sites
      ensures (intact <==> Inv(Su(), State(), {})) && WeightsCurrent() && (OneRangeEach(Su()) ==> intact)
      ensures intact ==> Progress(Su(), old(State()), State())
      ensures CodeFor(c, sites, Allocation(map[], slotOf)) && SlotsInFrame(slotOf, base, frameSize)
      ensures StillInPlay(Su(), start, State())
    {
      hide *;
      ghost var s0, hints, slot := State(), hintMap, frameSize;
      Here();
      var evicted := Step(c, n, base);
      Here();
      StepKeepsInPlay(Su(), start, s0, hints, n, slot, State(), evicted);
      VictimsKnown(Su(), s0, evicted);
      intact := forall v :: v in evicted ==> v in rangesOf && |rangesOf[v]| == 1;
      OutcomeMeans(Su(), s0, State(), evicted, intact);
    }

    /** The allocation loop, whatever alloc is popped. It is followed up to the first step that breaks
        the invariant, which is the first that evicts an alloc of several ranges; without one it ends. */
    method AllocateAll(c: Code, ghost base: nat) returns (intact: bool)
      requires Inv(Su(), State(), {}) && WeightsCurrent() && Covered(c, Su(), num2id) && AllSpillable(c)
          && AllFewInputs(c)
      requires CodeFor(c, sites, Allocation(map[], slotOf)) && SlotsInFrame(slotOf, base, frameSize)
      modifies this`occupied, this`occupiedRanges, this`allocMap, this`statusMap, this`queue, this`hintMap, this`slotOf,
          this`frameSize, this`sites
      ensures intact ==> queue == multiset{}
      ensures intact <==> Inv(Su(), State(), {})
      ensures OneRangeEach(Su()) ==> intact
      ensures forall n :: intact && FewNeighbours(Su(), n) && old(InPlay(Su(), State(), n)) ==> n in allocMap
      ensures CodeFor(c, sites, Allocation(map[], slotOf)) && SlotsInFrame(slotOf, base, frameSize)
    {
      hide *;
      intact := true;
      ghost var start := State();
      AtStartInPlay(Su(), start);
      while intact && queue != multiset{}
        invariant (intact <==> Inv(Su(), State(), {})) && WeightsCurrent() && (OneRangeEach(Su()) ==> intact)
        invariant CodeFor(c, sites, Allocation(map[], slotOf)) && SlotsInFrame(slotOf, base, frameSize)
        invariant StillInPlay(Su(), start, State())
        modifies this`occupied, this`occupiedRanges, this`allocMap, this`statusMap, this`queue, this`hintMap,
            this`slotOf, this`frameSize, this`sites
        decreases intact, Allocatable(Su(), State()), Unspilled(Su(), State()), Slack(Su(), State()), |State().queue|
      {
        ghost var s0 := State();
        Here();
        var n: nat :| n in queue;
        intact := StepAndCheck(c, n, base, start);
        Here();
        if intact {
          ProgressMeans(Su(), s0, State());
        }
      }
      Here();
      if intact {
        AllInPlayPlaced(Su(), start, State());
      }
    }

    /** Allocate the registers of one function and rewrite it. If the loop keeps its invariant, as it does
        for every function whose virtual registers have one range each, the result is a program that
        behaves like the original along every path, mentions no virtual register, and keeps its spill
        slots apart from the locals and from each other. */
    method GreedyAllocation(g: Graph, c: Code, layout: seq<BlockId>, weightOfBlock: map<BlockId, nat>,
                            copies: seq<Copy>)
      returns (intact: bool, out: OutCode, ghost a: Allocation, ghost id2num: map<InstrId, nat>)
      requires BackendFunction(g, c, layout, registers)
      requires count == 0 && rangesOf == map[] && operandOf == map[] && allocMap == map[] && statusMap == map[]
          && queue == multiset{}
      requires occupied == map[] && occupiedRanges == map[] && slotOf == map[] && sites == map[] && saved == {}
      modifies this
      ensures OneRangePerRegister(g, c, layout) ==> intact
      ensures intact ==> Allocated(g, c, out, a) && SameRunsRewritten(g, c, out, a)
      ensures intact ==> forall b, i :: b in out && 0 <= i < |out[b]| ==> !HasVirtual(out[b][i].main)
      ensures intact ==> SlotsInFrame(a.slotOf, old(frameSize), frameSize)
      ensures intact ==> forall o :: o in a.regOf ==>
          a.regOf[o] in registers
          && (CalleeSaved(a.regOf[o]) ==> a.regOf[o] in saved)
      ensures AllocsOf(g, c, layout, id2num, Su()) && WeightsMean(c, layout, weightOfBlock, copies, Su())
      ensures intact ==> RoomyPlaced(Su(), a.regOf)
      ensures intact ==> AllGroupsClassed(c, out)
    {
      hide *;
      BackendFacts(g, c, layout, registers);
      ghost var base := frameSize;
      SlotsStart(base);
      id2num := Init(g, c, layout, weightOfBlock, copies);
      OneRangeMeans(g, c, layout, id2num);
      Here();
      AllocsAre(g, c, layout, id2num, Su());
      out, a := map[], Allocation(map[], map[]);
      intact := AllocateAll(c, base);
      if intact {
        Here();
        out, a := RewriteAll(g, c, layout, id2num, base);
        RoomyIsPlaced(Su(), allocMap, a.regOf);
      }
    }

    /** The rewriting after the loop. */
    method RewriteAll(ghost g: Graph, c: Code, ghost layout: seq<BlockId>, ghost id2num: map<InstrId, nat>,
                      ghost base: nat)
      returns (out: OutCode, ghost a: Allocation)
      requires BackendFunction(g, c, layout, registers) && RangesCorrect(g, c, layout, id2num, Su().ranges)
      requires AllocForEach(Su()) && Inv(Su(), State(), {}) && queue == multiset{} && Covered(c, Su(), num2id)
      requires CodeFor(c, sites, Allocation(map[], slotOf)) && SlotsInFrame(slotOf, base, frameSize) && saved == {}
      modifies this`sites, this`saved
      ensures Allocated(g, c, out, a) && SameRunsRewritten(g, c, out, a) && AllGroupsClassed(c, out)
      ensures forall b, i :: b in out && 0 <= i < |out[b]| ==> !HasVirtual(out[b][i].main)
      ensures forall o :: o in a.regOf ==>
          a.regOf[o] in registers
          && (CalleeSaved(a.regOf[o]) ==> a.regOf[o] in saved)
      ensures a.slotOf == slotOf && AssignmentOf(Su(), allocMap, allocMap.Keys, a.regOf)
    {
      hide *;
      ghost var regOf := RewriteOperands(c);
      a := Allocation(regOf, slotOf);
      Here();
      out := Flatten(c, a);
      FinalFacts(g, c, layout, id2num, Su(), State(), regOf, base, frameSize, sites, out);
      SavedAll(Su(), State(), regOf, saved);
      AllocatedRunsSame(g, c, out, a);
    }

    /** The edited instructions, block by block. */
    method Flatten(c: Code, ghost a: Allocation) returns (out: OutCode)
      requires CodeFor(c, sites, a)
      ensures FlattenedFrom(c, sites, out)
    {
      hide SiteOk;
      var s := sites;
      assert forall b: BlockId, i: nat :: b in c && i < |c[b]| ==> At(c, b, i) && (b, i) in s;
      out := map b | b in c :: seq(|c[b]|, i requires 0 <= i < |c[b]| && b in c => s[(b, i)].grp);
    }
  }

  /** What `FindRegister` reports for a register that is not free. */
  ghost predicate Blocked(su: Setup, allocMap: map<nat, Register>, n: nat, r: Register, found: set<nat>) {
    && r in su.registers && n in su.operandOf && r.Float? == FloatOperand(su.operandOf[n]) && !HardConflict(su, n, r)
    && found != {} && ConflictsOf(su, allocMap, n, r, found)
    && forall x :: x in found ==> IsAlloc(su, x) && x in allocMap && allocMap[x] == r
  }

  lemma BlockedHolds(su: Setup, allocMap: map<nat, Register>, n: nat, r: Register, found: set<nat>)
    requires r in su.registers && n in su.operandOf && r.Float? == FloatOperand(su.operandOf[n])
        && !HardConflict(su, n, r)
    requires found != {} && ConflictsOf(su, allocMap, n, r, found) && forall x :: x in allocMap ==> IsAlloc(su, x)
    ensures Blocked(su, allocMap, n, r, found)
  {
  }

  lemma BlockedFacts(su: Setup, allocMap: map<nat, Register>, n: nat, r: Register, found: set<nat>)
    requires Blocked(su, allocMap, n, r, found)
    ensures forall x :: x in found ==> IsAlloc(su, x) && x in allocMap && allocMap[x] == r
    ensures r in su.registers
  {
  }

  lemma BlockedNoFit(su: Setup, allocMap: map<nat, Register>, n: nat, r: Register, found: set<nat>)
    requires Blocked(su, allocMap, n, r, found)
    ensures !Fits(su, allocMap, n, r) && found == InTheWay(su, allocMap, n, r)
    ensures IsAlloc(su, n) ==> Candidate(su, n, r)
  {
    hide HardConflict, RangeList;
    FitsIff(su, allocMap, n, r);
    assert forall x :: x in found <==> x in InTheWay(su, allocMap, n, r);
  }

  lemma FitsOnlyCandidates(su: Setup, allocMap: map<nat, Register>, n: nat, r: Register)
    requires IsAlloc(su, n)
    ensures Fits(su, allocMap, n, r) ==> r.Float? == FloatOperand(su.operandOf[n]) && !HardConflict(su, n, r)
  {
    hide HardConflict, RangeList;
  }

  lemma NoneFits(su: Setup, allocMap: map<nat, Register>, n: nat, order: seq<Register>)
    requires forall r :: r in order <==> r in su.registers
    requires forall j :: 0 <= j < |order| ==> !Fits(su, allocMap, n, order[j])
    ensures !HasFit(su, allocMap, n)
  {
    hide HardConflict, RangeList;
  }

  lemma AllReported(su: Setup, n: nat, order: seq<Register>, conflictMap: map<Register, set<nat>>, hard: set<Register>)
    requires IsAlloc(su, n) && forall r :: r in order <==> r in su.registers
    requires forall k :: 0 <= k < |order| && order[k].Float? == FloatOperand(su.operandOf[n]) ==>
        order[k] in conflictMap && (order[k] in hard <==> HardConflict(su, n, order[k]))
    ensures forall r :: Candidate(su, n, r) ==> r in conflictMap && r !in hard
  {
    hide HardConflict;
  }

  /** The cheapest of the registers reported is the cheapest candidate. */
  lemma CheapestReported(su: Setup, allocMap: map<nat, Register>, n: nat, conflictMap: map<Register, set<nat>>,
                         hard: set<Register>, r: Register, min: nat)
    requires IsAlloc(su, n) && r in conflictMap && r !in hard && min == Total(su, conflictMap[r])
    requires forall x :: x in conflictMap && x !in hard ==> Blocked(su, allocMap, n, x, conflictMap[x])
    requires forall x :: x in conflictMap && x !in hard ==> min <= Total(su, conflictMap[x])
    requires forall x :: Candidate(su, n, x) ==> x in conflictMap && x !in hard
    ensures Cheapest(su, allocMap, n, r) && conflictMap[r] == InTheWay(su, allocMap, n, r)
    ensures HasLighter(su, allocMap, n) <==> min < su.weights[n]
  {
    hide Blocked, Candidate, Total, InTheWay;
    forall x | x in conflictMap && x !in hard
      ensures Candidate(su, n, x) && conflictMap[x] == InTheWay(su, allocMap, n, x)
    {
      BlockedNoFit(su, allocMap, n, x, conflictMap[x]);
    }
  }

  lemma NoneReported(su: Setup, allocMap: map<nat, Register>, n: nat, conflictMap: map<Register, set<nat>>,
                     hard: set<Register>)
    requires forall x :: x in conflictMap ==> x in hard
    requires forall x :: Candidate(su, n, x) ==> x in conflictMap && x !in hard
    ensures !HasLighter(su, allocMap, n)
  {
    hide Candidate;
  }

  lemma PlacedIs(su: Setup, s: AllocState, n: nat, r: Register, st: AllocStatus, t: AllocState)
    requires r in s.occupied && r in s.occupiedRanges && t == AfterPlacing(su, s, n, r).(status := s.status[n := st])
    ensures Placed(su, s.(status := s.status[n := st]), n, r, t)
  {
    hide InsertedAll, RangeList;
  }

  lemma PlacedThere(su: Setup, s: AllocState, n: nat, r: Register, t: AllocState)
    requires r in s.occupied && r in s.occupiedRanges && t == AfterPlacing(su, s, n, r)
    ensures Placed(su, s, n, r, t)
  {
  }

  lemma AllNewInPlay(su: Setup, s: AllocState)
    requires Inv(su, s, {}) && s.status.Keys == su.rangesOf.Keys && forall n :: n in s.status ==> s.status[n] == New
    requires s.slotOf == map[]
    ensures forall n :: FewNeighbours(su, n) ==> InPlay(su, s, n)
  {
    hide Inv, Neighbours, Candidates;
  }

  /** The allocs of a function: one for each virtual register with ranges, which are those of the code. */
  ghost predicate AllocsOf(g: Graph, c: Code, layout: seq<BlockId>, id2num: map<InstrId, nat>, su: Setup) {
    RangesCorrect(g, c, layout, id2num, su.ranges) && ValidSetup(su) && AllocForEach(su)
  }

  lemma AllocsAre(g: Graph, c: Code, layout: seq<BlockId>, id2num: map<InstrId, nat>, su: Setup)
    requires RangesCorrect(g, c, layout, id2num, su.ranges) && ValidSetup(su) && AllocForEach(su)
    ensures AllocsOf(g, c, layout, id2num, su)
  {
  }

  /** A register that conflicts with fewer others than there are candidates for it is not spilled. */
  ghost predicate RoomyPlaced(su: Setup, regOf: map<Operand, Register>) {
    forall n :: FewNeighbours(su, n) ==> IsAlloc(su, n) && su.operandOf[n] in regOf
  }

  lemma RoomyIsPlaced(su: Setup, allocMap: map<nat, Register>, regOf: map<Operand, Register>)
    requires AssignmentOf(su, allocMap, allocMap.Keys, regOf)
    requires forall n :: FewNeighbours(su, n) ==> n in allocMap
    ensures RoomyPlaced(su, regOf)
  {
    hide Neighbours, Candidates;
  }

  lemma EmptyFits(su: Setup, s: AllocState, hand: set<nat>, n: nat, r: Register)
    requires Inv(su, s, hand) && IsAlloc(su, n) && r in su.registers && r.Float? == FloatOperand(su.operandOf[n])
        && !HardConflict(su, n, r)
    requires r in s.occupied && s.occupied[r] == {}
    ensures Fits(su, s.allocMap, n, r)
  {
    hide Partition, Statuses, StoredRangesExact, Safe, HardConflict;
    assert forall x :: x in s.allocMap && s.allocMap[x] == r ==> x in s.occupied[r];
  }

  lemma ClearFits(su: Setup, allocMap: map<nat, Register>, n: nat, r: Register, found: set<nat>)
    requires IsAlloc(su, n) && r in su.registers && r.Float? == FloatOperand(su.operandOf[n]) && !HardConflict(su, n, r)
    requires ConflictsOf(su, allocMap, n, r, found) && found == {}
    ensures Fits(su, allocMap, n, r)
  {
    hide HardConflict;
  }

  /** When the allocs in the way have left, the newcomer fits. */
  lemma EvictedFits(su: Setup, before: map<nat, Register>, after: map<nat, Register>, n: nat, r: Register,
                    victims: set<nat>)
    requires Blocked(su, before, n, r, victims) && IsAlloc(su, n) && after == before - victims
    ensures Fits(su, after, n, r)
  {
    hide HardConflict;
  }

  /** No alloc has more than one range: then erasing the first stored one erases all. */
  ghost predicate OneRangeEach(su: Setup) {
    forall n: nat :: IsAlloc(su, n) ==> |RangeList(su, n)| == 1
  }

  ghost predicate EachOneRange(su: Setup, xs: set<nat>) {
    forall v: nat :: v in xs ==> |RangeList(su, v)| == 1
  }

  /** The register stores a range of an alloc that has left it. */
  ghost predicate Stale(s: AllocState, r: Register, gone: set<nat>) {
    r in s.occupiedRanges && exists e :: e in s.occupiedRanges[r] && e.alloc in gone
  }

  ghost predicate EvictedSoFar(su: Setup, s: AllocState, hand: set<nat>, r: Register, gone: set<nat>) {
    && r in su.registers && r in s.occupied && r in s.occupiedRanges && InOrder(s.occupiedRanges[r])
    && (if EachOneRange(su, gone) then Inv(su, s, hand) else Stale(s, r, gone))
  }

  /** A step keeps the invariant exactly if every alloc it evicts has one range, and then makes progress. */
  ghost predicate StepOutcome(su: Setup, s: AllocState, t: AllocState, evicted: set<nat>) {
    && (Inv(su, t, {}) <==> EachOneRange(su, evicted))
    && (EachOneRange(su, evicted) ==> Progress(su, s, t))
  }

  lemma NoneEvicted(su: Setup, s: AllocState, hand: set<nat>, r: Register)
    requires Inv(su, s, hand) && r in su.registers
    ensures EvictedSoFar(su, s, hand, r, {})
  {
    hide Inv;
    StoredOrder(su, s, hand, r);
    InvFacts(su, s, hand);
  }

  lemma OneMoreEvicted(su: Setup, s: AllocState, hand: set<nat>, r: Register, gone: set<nat>, v: nat)
    requires EvictedSoFar(su, s, hand, r, gone) && v !in gone && v in s.allocMap && s.allocMap[v] == r
    ensures r in s.occupied && r in s.occupiedRanges && EvictedSoFar(su, AfterEviction(s, v, r), hand, r, gone + {v})
  {
    hide Inv, RangeList, InOrder;
    var t := AfterEviction(s, v, r);
    FirstLeaves(s.occupiedRanges[r], v);
    if EachOneRange(su, gone) {
      EvictionKeepsIff(su, s, hand, v, r);
      if |RangeList(su, v)| == 1 {
        assert EachOneRange(su, gone + {v});
      } else {
        EvictionLeavesEntry(su, s, hand, v, r);
        assert v in gone + {v};
      }
    } else {
      var e :| e in s.occupiedRanges[r] && e.alloc in gone;
      assert e in t.occupiedRanges[r];
      assert !EachOneRange(su, gone + {v});
    }
  }

  lemma EvictionLeavesEntry(su: Setup, s: AllocState, hand: set<nat>, v: nat, r: Register)
    requires Inv(su, s, hand) && v in s.allocMap && s.allocMap[v] == r && r in s.occupied && r in s.occupiedRanges
    requires |RangeList(su, v)| != 1
    ensures exists e :: e in AfterEviction(s, v, r).occupiedRanges[r] && e.alloc == v
  {
    hide *;
    InvFacts(su, s, hand);
    StoredCount(su, s.allocMap, s.occupiedRanges, v, r);
    EvictionCompleteIff(s.occupiedRanges[r], v);
    AfterEvictionIs(s, v, r);
    EntryLeft(WithoutFirst(s.occupiedRanges[r], v), v);
  }

  /** Erasing one entry keeps the order and the entries of the others. */
  lemma {:induction false} FirstLeaves(rs: seq<AllocRange>, v: nat)
    requires InOrder(rs)
    ensures InOrder(WithoutFirst(rs, v))
    ensures forall e :: e in WithoutFirst(rs, v) ==> e in rs
    ensures forall e :: e in rs && e.alloc != v ==> e in WithoutFirst(rs, v)
  {
    if rs != [] {
      FirstLeaves(rs[1..], v);
      assert rs == [rs[0]] + rs[1..];
      var t := WithoutFirst(rs, v);
      if rs[0].alloc != v {
        forall i, j | 0 <= i < j < |t| ensures Precedes(t[i].range, t[j].range) {
          if i == 0 {
            assert t[j] in rs[1..];
          }
        }
      }
    }
  }

  lemma EvictedFacts(su: Setup, s: AllocState, hand: set<nat>, r: Register, gone: set<nat>)
    requires EvictedSoFar(su, s, hand, r, gone)
    ensures r in su.registers && r in s.occupied && r in s.occupiedRanges && InOrder(s.occupiedRanges[r])
    ensures if EachOneRange(su, gone) then Inv(su, s, hand) else Stale(s, r, gone)
  {
  }

  /** A range left behind breaks the invariant, and putting the newcomer into the register does not
      take it away. */
  lemma StaleStays(su: Setup, s: AllocState, t: AllocState, r: Register, gone: set<nat>)
    requires Stale(s, r, gone) && r in su.registers && gone !! t.allocMap.Keys
    requires r in t.occupiedRanges && forall e :: e in s.occupiedRanges[r] ==> e in t.occupiedRanges[r]
    ensures !Inv(su, t, {})
  {
    var e :| e in s.occupiedRanges[r] && e.alloc in gone;
    if Inv(su, t, {}) {
      NoEntryOfEvicted(su, t, {}, e.alloc, r);
    }
  }

  lemma StepOutcomeIs(su: Setup, s: AllocState, t: AllocState, evicted: set<nat>)
    requires if EachOneRange(su, evicted) then Inv(su, t, {}) && Progress(su, s, t) else !Inv(su, t, {})
    ensures StepOutcome(su, s, t, evicted)
  {
  }

  lemma SoundOutcome(su: Setup, s: AllocState, t: AllocState)
    requires Inv(su, t, {}) && Progress(su, s, t)
    ensures StepOutcome(su, s, t, {})
  {
    hide Inv, Progress;
  }

  lemma VictimsKnown(su: Setup, s: AllocState, evicted: set<nat>)
    requires Inv(su, s, {}) && evicted <= s.allocMap.Keys
    ensures forall v :: v in evicted ==> IsAlloc(su, v) && v in su.rangesOf
  {
    InvFacts(su, s, {});
  }

  lemma OutcomeMeans(su: Setup, s: AllocState, t: AllocState, evicted: set<nat>, intact: bool)
    requires StepOutcome(su, s, t, evicted) && forall v :: v in evicted ==> IsAlloc(su, v) && v in su.rangesOf
    requires intact <==> forall v :: v in evicted ==> v in su.rangesOf && |su.rangesOf[v]| == 1
    ensures intact <==> Inv(su, t, {})
    ensures OneRangeEach(su) ==> intact
    ensures intact ==> Progress(su, s, t)
  {
    hide Inv, Progress;
  }

  lemma RegisterReady(su: Setup, s: AllocState, hand: set<nat>, n: nat, r: Register)
    requires Inv(su, s, hand) && Fits(su, s.allocMap, n, r)
    ensures r in s.occupied && r in s.occupiedRanges && InOrder(s.occupiedRanges[r])
  {
    hide ValidSetup, Partition, Statuses, Safe, HardConflict, RangeList;
    StoredOrder(su, s, hand, r);
  }

  lemma StoredOrder(su: Setup, s: AllocState, hand: set<nat>, r: Register)
    requires Inv(su, s, hand) && r in su.registers
    ensures r in s.occupiedRanges && InOrder(s.occupiedRanges[r])
  {
    assert StoredExactly(su, s.allocMap, r, s.occupiedRanges[r]);
  }

  lemma NoneInserted(s: seq<AllocRange>, own: seq<Range>, n: nat)
    ensures InsertedAll(s, own, n, 0) == s
  {
  }

  lemma OneMoreInserted(s: seq<AllocRange>, own: seq<Range>, n: nat, k: nat)
    requires k < |own|
    ensures InsertedAll(s, own, n, k + 1) == Inserted(InsertedAll(s, own, n, k), AllocRange(own[k], n))
  {
  }

  lemma AfterPlacingIs(su: Setup, s: AllocState, n: nat, r: Register)
    requires r in s.occupied && r in s.occupiedRanges && n in su.rangesOf
    ensures AfterPlacing(su, s, n, r) == s.(allocMap := s.allocMap[n := r],
        occupied := s.occupied[r := s.occupied[r] + {n}],
        occupiedRanges := s.occupiedRanges[r := InsertedAll(s.occupiedRanges[r], su.rangesOf[n], n, |su.rangesOf[n]|)])
  {
  }

  /** `after` holds what `before` held and the first `k` ranges of the newcomer. */
  ghost predicate StoredUpTo(before: seq<AllocRange>, after: seq<AllocRange>, n: nat, own: seq<Range>, k: nat) {
    k <= |own| && forall e :: e in after <==> e in before || (e.alloc == n && e.range in own[..k])
  }

  lemma NothingStored(rs: seq<AllocRange>, n: nat, own: seq<Range>)
    ensures StoredUpTo(rs, rs, n, own, 0)
  {
  }

  lemma OneMoreStored(before: seq<AllocRange>, middle: seq<AllocRange>, after: seq<AllocRange>, n: nat, own: seq<Range>,
                      k: nat)
    requires StoredUpTo(before, middle, n, own, k) && k < |own|
    requires forall e :: e in after <==> e in middle || e == AllocRange(own[k], n)
    ensures StoredUpTo(before, after, n, own, k + 1)
  {
    assert own[..k + 1] == own[..k] + [own[k]];
    forall e ensures e in after <==> e in before || (e.alloc == n && e.range in own[..k + 1]) {
      assert e == AllocRange(e.range, e.alloc);
    }
  }

  lemma AllStored(before: seq<AllocRange>, after: seq<AllocRange>, n: nat, own: seq<Range>)
    requires StoredUpTo(before, after, n, own, |own|)
    ensures forall e :: e in after <==> e in before || (e.alloc == n && e.range in own)
  {
    assert own[..|own|] == own;
  }

  /** With all its ranges stored, the newcomer is placed, whether its status is set or left. */
  lemma OccupiedKeeps(su: Setup, s: AllocState, n: nat, r: Register, rs: seq<AllocRange>)
    requires Inv(su, s, {n}) && Fits(su, s.allocMap, n, r) && n in s.status && (s.status[n].New? || s.status[n].Assign?)
    requires r in s.occupied && r in s.occupiedRanges && n in su.rangesOf && InOrder(rs)
    requires StoredUpTo(s.occupiedRanges[r], rs, n, su.rangesOf[n], |su.rangesOf[n]|)
    ensures n !in s.allocMap
    ensures var t := s.(allocMap := s.allocMap[n := r], occupied := s.occupied[r := s.occupied[r] + {n}],
        occupiedRanges := s.occupiedRanges[r := rs]);
            Inv(su, t, {}) && Inv(su, t.(status := s.status[n := Assign]), {})
  {
    hide *;
    InvFacts(su, s, {n});
    FitsFacts(su, s.allocMap, n, r);
    RangesProper(su, n);
    AllStored(s.occupiedRanges[r], rs, n, su.rangesOf[n]);
    PlaceKeeps(su, s, n, r, s.status, rs);
    PlaceKeeps(su, s, n, r, s.status[n := Assign], rs);
    assert s.(status := s.status) == s;
  }

  /** What fits is stored with all its ranges. */
  lemma {:induction false} InsertedStores(su: Setup, s: AllocState, n: nat, r: Register, k: nat)
    requires Inv(su, s, {n}) && Fits(su, s.allocMap, n, r) && r in s.occupiedRanges && n in su.rangesOf
    requires k <= |su.rangesOf[n]|
    ensures InOrder(InsertedAll(s.occupiedRanges[r], su.rangesOf[n], n, k))
    ensures StoredUpTo(s.occupiedRanges[r], InsertedAll(s.occupiedRanges[r], su.rangesOf[n], n, k), n, su.rangesOf[n],
        k)
  {
    hide *;
    var stored, own := s.occupiedRanges[r], su.rangesOf[n];
    if k == 0 {
      FitsFacts(su, s.allocMap, n, r);
      StoredOrder(su, s, {n}, r);
      NoneInserted(stored, own, n);
      NothingStored(stored, n, own);
    } else {
      InsertedStores(su, s, n, r, k - 1);
      var rs := InsertedAll(stored, own, n, k - 1);
      NoTwin(su, s, n, r, rs, k - 1);
      OneMoreInserted(stored, own, n, k - 1);
      LowerBoundExists(rs, own[k - 1]);
      var b: nat :| IsLowerBound(rs, own[k - 1], b);
      InsertedMeans(rs, AllocRange(own[k - 1], n), b);
      OneMoreStored(stored, rs, Inserted(rs, AllocRange(own[k - 1], n)), n, own, k - 1);
    }
  }

  lemma LowerBoundExists(s: seq<AllocRange>, r: Range)
    requires InOrder(s)
    ensures exists k: nat :: IsLowerBound(s, r, k)
  {
    PrecedingSplits(s, r);
    assert IsLowerBound(s, r, Preceding(s, r));
  }

  lemma {:induction false} PrecedingSplits(s: seq<AllocRange>, r: Range)
    requires InOrder(s)
    ensures forall i :: 0 <= i < Preceding(s, r) ==> Precedes(s[i].range, r)
    ensures forall i :: Preceding(s, r) <= i < |s| ==> !Precedes(s[i].range, r)
  {
    if s != [] {
      PrecedingSplits(s[1..], r);
      forall i | 0 <= i < |s| ensures i < Preceding(s, r) <==> Precedes(s[i].range, r) {
        if i > 0 {
          assert s[i] == s[1..][i - 1] && Precedes(s[0].range, s[i].range);
        }
      }
    }
  }

  /** What fits a register has no range in common with what is stored for it, nor with the ranges of its
      own that were stored before. */
  lemma NoTwin(su: Setup, s: AllocState, n: nat, r: Register, rs: seq<AllocRange>, k: nat)
    requires Inv(su, s, {n}) && Fits(su, s.allocMap, n, r) && r in s.occupiedRanges
    requires k < |su.rangesOf[n]| && StoredUpTo(s.occupiedRanges[r], rs, n, su.rangesOf[n], k)
    ensures !exists e :: e in rs && SameRange(e.range, su.rangesOf[n][k])
  {
    hide Partition, Statuses, OccupiedExact, Safe, HardConflict;
    assert StoredExactly(su, s.allocMap, r, s.occupiedRanges[r]);
    RangesProper(su, n);
    hide StoredRangesExact, ValidSetup, RangeList;
    var own := su.rangesOf[n];
    forall e | e in rs ensures !SameRange(e.range, own[k]) {
      if e in s.occupiedRanges[r] {
        assert !Interfere(RangeList(su, n), RangeList(su, e.alloc));
        assert own[k] in RangeList(su, n) && e.range in RangeList(su, e.alloc);
        assert !Conflict(own[k], e.range);
      } else {
        var i :| 0 <= i < k && own[..k][i] == e.range;
        assert own[i] == e.range;
      }
    }
  }

  // ----- the numbers in an alloc's ranges, one after the other -----

  function NumbersUpTo(rs: seq<Range>, k: nat, m: nat): set<nat>
    requires k < |rs|
  {
    NumbersIn(rs[..k]) + Span(rs[k].begin, m)
  }

  lemma NoNumbers(rs: seq<Range>)
    ensures NumbersIn(rs[..0]) == {}
  {
  }

  lemma RangeStarts(rs: seq<Range>, k: nat)
    requires k < |rs| && Separate(rs)
    ensures NumbersUpTo(rs, k, rs[k].begin) == NumbersIn(rs[..k]) && rs[k].begin <= rs[k].end
  {
    hide NumbersIn;
  }

  lemma RangeEnds(rs: seq<Range>, k: nat)
    requires k < |rs|
    ensures NumbersUpTo(rs, k, rs[k].end + 1) == NumbersIn(rs[..k + 1])
  {
    assert rs[..k + 1][..k] == rs[..k];
  }

  lemma NextNumber(rs: seq<Range>, k: nat, m: nat)
    requires k < |rs| && Separate(rs) && rs[k].begin <= m <= rs[k].end
    ensures NumbersUpTo(rs, k, m + 1) == NumbersUpTo(rs, k, m) + {m} && m !in NumbersUpTo(rs, k, m)
    ensures m in NumbersIn(rs) && NumbersUpTo(rs, k, m) <= NumbersIn(rs)
  {
    hide NumbersIn;
    forall x: nat ensures x in NumbersIn(rs[..k]) ==> x in NumbersIn(rs) && x < rs[k].begin {
      NumbersAre(rs[..k], x);
      NumbersAre(rs, x);
      if r :| r in rs[..k] && r.begin <= x <= r.end {
        var i :| 0 <= i < k && rs[..k][i] == r;
        assert rs[i] == r && r in rs;
      }
    }
    forall x: nat | rs[k].begin <= x <= rs[k].end ensures x in NumbersIn(rs) {
      NumbersAre(rs, x);
      assert rs[k] in rs;
    }
  }

  lemma NumbersOf(c: Code, su: Setup, num2id: map<nat, InstrId>, n: nat)
    requires Covered(c, su, num2id) && IsAlloc(su, n)
    ensures GoodNumbers(c, num2id, NumbersIn(RangeList(su, n)))
  {
  }

  lemma NumberedSite(c: Code, sites: map<InstrId, Site>, a: Allocation, num2id: map<nat, InstrId>, all: set<nat>,
                     m: nat)
    requires GoodNumbers(c, num2id, all) && CodeFor(c, sites, a) && m in all
    ensures m in num2id && num2id[m] in sites
  {
    assert num2id[m] == (num2id[m].0, num2id[m].1);
  }

  lemma SlotIsFresh(slotOf: map<Operand, nat>, o: Operand, next: nat)
    ensures o !in slotOf ==> SlotOrFresh(slotOf, o, next) == next
  {
  }

  lemma HasMeans(s: Site, o: Operand)
    ensures Has(s, o, true) == (o in s.grp.main.defs) && Has(s, o, false) == (o in s.grp.main.uses)
  {
  }

  lemma AllocIsVirtual(su: Setup, n: nat)
    requires ValidSetup(su) && IsAlloc(su, n)
    ensures n in su.operandOf && su.operandOf[n].Virtual?
  {
  }

  lemma DefsSpilledFacts(before: map<InstrId, Site>, after: map<InstrId, Site>, o: Operand, offset: nat)
    requires DefsSpilled(before, after, o, offset)
    requires forall id :: id in before ==> RoomFor(SpillDef(before[id], o, offset), o)
    ensures after.Keys == before.Keys
    ensures forall id :: id in after ==> RoomFor(after[id], o) && after[id].grp.main.uses == before[id].grp.main.uses
  {
    hide RoomFor;
  }

  // ----- rewriting: what the loops keep -----

  /** Every callee-saved register the allocs of `done` use is recorded, and no other register. */
  ghost predicate SavedFor(saved: set<Register>, allocMap: map<nat, Register>, done: set<nat>) {
    && (forall r :: r in saved ==> CalleeSaved(r) && r in allocMap.Values)
    && (forall n :: n in done && n in allocMap && CalleeSaved(allocMap[n]) ==> allocMap[n] in saved)
  }

  lemma SavedStarts(allocMap: map<nat, Register>)
    ensures SavedFor({}, allocMap, {})
  {
  }

  lemma SavedGrows(saved: set<Register>, allocMap: map<nat, Register>, done: set<nat>, n: nat)
    requires SavedFor(saved, allocMap, done) && n in allocMap
    ensures SavedFor(if CalleeSaved(allocMap[n]) then saved + {allocMap[n]} else saved, allocMap, done + {n})
  {
    hide CalleeSaved;
  }

  /** The sites numbered in `xs` have the register in place of `o`. */
  ghost predicate PartlyAssigned(before: map<InstrId, Site>, after: map<InstrId, Site>, num2id: map<nat, InstrId>,
                                 xs: set<nat>, o: Operand, r: Register) {
    && after.Keys == before.Keys
    && forall id :: id in before && id in after ==> after[id] == if NumIn(num2id, xs, id)
        then AssignIn(before[id], o, r) else before[id]
  }

  lemma AssigningStarts(before: map<InstrId, Site>, num2id: map<nat, InstrId>, o: Operand, r: Register)
    ensures PartlyAssigned(before, before, num2id, {}, o, r)
  {
  }

  lemma AssigningKeys(before: map<InstrId, Site>, after: map<InstrId, Site>, num2id: map<nat, InstrId>, xs: set<nat>,
                      o: Operand, r: Register)
    requires PartlyAssigned(before, after, num2id, xs, o, r)
    ensures after.Keys == before.Keys
  {
  }

  lemma ReplaceIfThere(main: Instr, o: Operand, w: Operand)
    ensures o !in main.defs ==> Replace(main.defs, o, w) == main.defs
    ensures o !in main.uses ==> Replace(main.uses, o, w) == main.uses
  {
    if o !in main.defs { ReplaceNothing(main.defs, o, w); }
    if o !in main.uses { ReplaceNothing(main.uses, o, w); }
  }

  lemma AssigningSteps(c: Code, before: map<InstrId, Site>, sites: map<InstrId, Site>, num2id: map<nat, InstrId>,
                       xs: set<nat>, m: nat, all: set<nat>,
                    o: Operand, r: Register, main: Instr)
    requires PartlyAssigned(before, sites, num2id, xs, o, r) && GoodNumbers(c, num2id, all) && xs <= all && m in all
        && m !in xs
    requires m in num2id && num2id[m] in sites
    requires var was := sites[num2id[m]].grp.main;
             main == Instr(was.op, Replace(was.defs, o, Physical(r)), Replace(was.uses, o, Physical(r)))
    ensures var id := num2id[m];
            PartlyAssigned(before, sites[id := Site(sites[id].grp.(main := main), sites[id].usedTemps)], num2id,
                xs + {m}, o, r)
  {
    var id := num2id[m];
    assert !NumIn(num2id, xs, id);
    assert sites[id] == before[id];
    var after := sites[id := Site(sites[id].grp.(main := main), sites[id].usedTemps)];
    forall x | x in before && x in after
      ensures after[x] == if NumIn(num2id, xs + {m}, x) then AssignIn(before[x], o, r) else before[x]
    {
      NumInGrows(num2id, xs, m, x);
    }
  }

  lemma NumInGrows(num2id: map<nat, InstrId>, xs: set<nat>, m: nat, id: InstrId)
    requires m in num2id
    ensures NumIn(num2id, xs + {m}, id) <==> NumIn(num2id, xs, id) || num2id[m] == id
  {
    if num2id[m] == id {
      assert m in xs + {m};
    }
    if NumIn(num2id, xs, id) {
      var x: nat :| x in xs && x in num2id && num2id[x] == id;
      assert x in xs + {m};
    }
  }

  lemma AssignedAll(c: Code, su: Setup, num2id: map<nat, InstrId>, before: map<InstrId, Site>,
                    after: map<InstrId, Site>, a: Allocation, n: nat, r: Register)
    requires Covered(c, su, num2id) && CodeFor(c, before, a) && ValidSetup(su) && IsAlloc(su, n)
    requires su.operandOf[n] !in a.regOf && su.operandOf[n] !in a.slotOf
    requires PartlyAssigned(before, after, num2id, NumbersIn(RangeList(su, n)), su.operandOf[n], r)
    ensures AssignedIn(before, after, su.operandOf[n], r)
  {
    hide AssignIn, NumIn, CodeFor, Covered, ValidSetup, RangeList, NumbersIn, Has;
    forall id | id in before && id in after ensures after[id] == AssignIn(before[id], su.operandOf[n], r) {
      MentionsInRange(c, su, num2id, before, a, n, id);
      HasMeans(before[id], su.operandOf[n]);
      if !NumIn(num2id, NumbersIn(RangeList(su, n)), id) {
        EditsNothing(before[id], su.operandOf[n], 0, r);
      }
    }
  }

  /** `regOf` says of the allocs in `done` which register their operands have. */
  ghost predicate AssignmentOf(su: Setup, allocMap: map<nat, Register>, done: set<nat>, regOf: map<Operand, Register>) {
    && (forall n :: n in done && n in allocMap && IsAlloc(su, n) ==>
        su.operandOf[n] in regOf
        && regOf[su.operandOf[n]] == allocMap[n])
    && (forall o :: o in regOf ==> exists n :: n in done && n in allocMap && IsAlloc(su, n) && su.operandOf[n] == o)
  }

  lemma AssignmentStarts(su: Setup, allocMap: map<nat, Register>)
    ensures AssignmentOf(su, allocMap, {}, map[])
  {
  }

  lemma AssignmentGrows(su: Setup, s: AllocState, done: set<nat>, regOf: map<Operand, Register>, n: nat)
    requires Inv(su, s, {}) && AssignmentOf(su, s.allocMap, done, regOf) && n in s.allocMap && n !in done
        && done <= s.allocMap.Keys
    ensures IsAlloc(su, n) && su.operandOf[n] !in regOf && su.operandOf[n] !in s.slotOf
    ensures AssignmentOf(su, s.allocMap, done + {n}, regOf[su.operandOf[n] := s.allocMap[n]])
  {
    hide Statuses, OccupiedExact, StoredRangesExact, Safe;
    assert InOnePlace(s.queue, s.allocMap, s.slotOf, {}, n, su.operandOf[n]);
    hide Partition;
    var o := su.operandOf[n];
    assert forall k :: k in done ==> IsAlloc(su, k) by {
      InvFacts(su, s, {});
    }
    var after := regOf[o := s.allocMap[n]];
    forall p | p in after ensures exists k ::
        k in done + {n} && k in s.allocMap && IsAlloc(su, k)
        && su.operandOf[k] == p {
      if p == o {
        assert n in done + {n};
      } else {
        var k :| k in done && k in s.allocMap && IsAlloc(su, k) && su.operandOf[k] == p;
        assert k in done + {n};
      }
    }
  }

  lemma RegFacts(regOf: map<Operand, Register>, slotOf: map<Operand, nat>, o: Operand, r: Register)
    ensures WithReg(Allocation(regOf, slotOf), o, r) == Allocation(regOf[o := r], slotOf)
  {
  }

  // ----- before and after the loop -----

  /** What the code generator hands over: instructions are spillable and none updates a virtual register,
      temporaries are not live around virtual registers, and the saved registers are not mentioned. */
  ghost predicate BackendFunction(g: Graph, c: Code, layout: seq<BlockId>, registers: seq<Register>) {
    BackendCode(g, c, layout, registers) && forall r :: r in registers ==> !IsTemp(r) && Physical(r) != SP
  }

  ghost predicate BackendCode(g: Graph, c: Code, layout: seq<BlockId>, registers: seq<Register>) {
    && FunctionShape(g, c, layout) && NothingLiveUnseen(g, c, layout[|layout| - 1])
    && AllSpillable(c) && AllFewInputs(c) && NoVirtualLiveIn(g, c)
    && (forall b: BlockId, i: nat, o: Operand ::
        At(c, b, i) && HasVirtual(c[b][i]) && TempOperand(o)
        ==> !LiveAt(g, c, b, o, i + 1))
    && NoSelfUpdate(c) && CalleeUnmentioned(c, registers)
  }

  /** Every virtual register has at most one range. */
  ghost predicate OneRangePerRegister(g: Graph, c: Code, layout: seq<BlockId>)
    requires FunctionShape(g, c, layout)
  {
    forall o: Operand, id2num: map<InstrId, nat> :: o.Virtual? ==> |AllRanges(g, c, layout, id2num, o)| <= 1
  }

  lemma OneRangeMeans(g: Graph, c: Code, layout: seq<BlockId>, id2num: map<InstrId, nat>)
    requires FunctionShape(g, c, layout)
    ensures OneRangePerRegister(g, c, layout) ==> forall o: Operand ::
        o.Virtual?
        ==> |AllRanges(g, c, layout, id2num, o)| <= 1
  {
    hide AllRanges;
  }

  lemma BackendFacts(g: Graph, c: Code, layout: seq<BlockId>, registers: seq<Register>)
    requires BackendFunction(g, c, layout, registers)
    ensures FunctionShape(g, c, layout) && |layout| > 0 && NothingLiveUnseen(g, c, layout[|layout| - 1])
    ensures AllSpillable(c) && AllFewInputs(c) && NoVirtualLiveIn(g, c) && CalleeUnmentioned(c, registers)
    ensures forall r :: r in registers ==> !IsTemp(r) && Physical(r) != SP
    ensures NoSelfUpdate(c)
  {
    hide NothingLiveUnseen, AllSpillable, AllFewInputs, NoVirtualLiveIn, NoSelfUpdate, CalleeUnmentioned;
  }

  /** The allocs numbered so far stand for the virtual registers of `done`, one each. */
  ghost predicate AllocsFor(count: nat, rangesOf: map<nat, seq<Range>>, operandOf: map<nat, Operand>,
                            ranges: map<Operand, seq<Range>>, done: set<Operand>) {
    && rangesOf.Keys == operandOf.Keys
    && (forall n: nat :: n in operandOf <==> 1 <= n <= count)
    && (forall n :: n in operandOf ==> operandOf[n].Virtual? && operandOf[n] in done)
    && (forall n :: n in operandOf && n in rangesOf ==> rangesOf[n] == ListOf(ranges, operandOf[n]))
    && (forall n, k :: n in operandOf && k in operandOf && operandOf[n] == operandOf[k] ==> n == k)
    && (forall o :: o in done && o.Virtual? ==> exists n :: n in operandOf && operandOf[n] == o)
  }

  lemma AllocsGrow(count: nat, rangesOf: map<nat, seq<Range>>, operandOf: map<nat, Operand>,
                   ranges: map<Operand, seq<Range>>, done: set<Operand>, o: Operand)
    requires AllocsFor(count, rangesOf, operandOf, ranges, done) && o !in done && o in ranges
    ensures if o.Virtual? then AllocsFor(count + 1, rangesOf[count + 1 := ranges[o]], operandOf[count + 1 := o], ranges,
        done + {o})
            else AllocsFor(count, rangesOf, operandOf, ranges, done + {o})
  {
    if o.Virtual? {
      var after := operandOf[count + 1 := o];
      forall p | p in done + {o} && p.Virtual? ensures exists n :: n in after && after[n] == p {
        if p == o {
          assert after[count + 1] == o;
        } else {
          var n :| n in operandOf && operandOf[n] == p;
          assert after[n] == p;
        }
      }
    }
  }

  lemma AllocKeys(count: nat, rangesOf: map<nat, seq<Range>>, operandOf: map<nat, Operand>,
                  ranges: map<Operand, seq<Range>>)
    requires AllocsFor(count, rangesOf, operandOf, ranges, ranges.Keys)
    ensures rangesOf.Keys == operandOf.Keys && forall n: nat :: n in rangesOf <==> 1 <= n <= count
  {
  }

  lemma AllocsAreValid(g: Graph, c: Code, layout: seq<BlockId>, id2num: map<InstrId, nat>, su: Setup)
    requires AllocsFor(su.count, su.rangesOf, su.operandOf, su.ranges, su.ranges.Keys)
    requires FunctionShape(g, c, layout) && RangesCorrect(g, c, layout, id2num, su.ranges)
    requires su.weights.Keys == su.rangesOf.Keys
    requires forall o: Operand :: o.Virtual? ==> Separate(ListOf(su.ranges, o))
    requires forall r :: r in su.registers ==> !IsTemp(r) && Physical(r) != SP
    ensures ValidSetup(su) && AllocForEach(su)
    ensures forall n: nat :: n in su.rangesOf <==> IsAlloc(su, n)
  {
    hide RangesCorrect, FunctionShape, AllRanges, ListOf;
    AllocSetup(su);
    forall n: nat | IsAlloc(su, n) ensures su.rangesOf[n] != [] && Separate(su.rangesOf[n]) {
      SomeRange(g, c, layout, id2num, su.ranges, su.operandOf[n]);
    }
    hide AllocsFor;
  }

  lemma AllocSetup(su: Setup)
    requires AllocsFor(su.count, su.rangesOf, su.operandOf, su.ranges, su.ranges.Keys)
        && su.weights.Keys == su.rangesOf.Keys
    ensures forall n: nat :: 1 <= n <= su.count ==> IsAlloc(su, n)
    ensures forall n: nat :: IsAlloc(su, n) ==>
        su.operandOf[n].Virtual? && su.operandOf[n] in su.ranges
        && su.rangesOf[n] == ListOf(su.ranges, su.operandOf[n])
    ensures forall n: nat, k: nat :: IsAlloc(su, n) && IsAlloc(su, k) && su.operandOf[n] == su.operandOf[k] ==> n == k
    ensures forall n: nat :: n in su.rangesOf <==> IsAlloc(su, n)
    ensures AllocForEach(su)
  {
    forall o: Operand | o.Virtual? && ListOf(su.ranges, o) != [] ensures exists n: nat ::
        IsAlloc(su, n)
        && su.operandOf[n] == o {
      var n :| n in su.operandOf && su.operandOf[n] == o;
      assert IsAlloc(su, n);
    }
  }

  lemma SomeRange(g: Graph, c: Code, layout: seq<BlockId>, id2num: map<InstrId, nat>, ranges: map<Operand, seq<Range>>,
                  o: Operand)
    requires RangesCorrect(g, c, layout, id2num, ranges) && o in ranges
    ensures ListOf(ranges, o) != []
  {
    hide AllRanges;
  }

  lemma AllSeparate(g: Graph, c: Code, layout: seq<BlockId>, id2num: map<InstrId, nat>, num2id: map<nat, InstrId>,
                    next: nat, ranges: map<Operand, seq<Range>>)
    requires FunctionShape(g, c, layout) && AllNumbered(c, id2num, num2id, next)
        && RangesCorrect(g, c, layout, id2num, ranges)
    requires AllSpillable(c) && NoSelfUpdate(c)
    ensures forall o: Operand :: o.Virtual? ==> Separate(ListOf(ranges, o))
  {
    hide FunctionShape, AllNumbered, RangesCorrect, AllSpillable, NoSelfUpdate, Separate, ListOf;
    forall o: Operand | o.Virtual? ensures Separate(ListOf(ranges, o)) {
      RangesSeparate(g, c, layout, id2num, num2id, next, ranges, o);
    }
  }

  lemma OneRangeStarts(g: Graph, c: Code, layout: seq<BlockId>, id2num: map<InstrId, nat>, su: Setup)
    requires RangesCorrect(g, c, layout, id2num, su.ranges) && ValidSetup(su)
    ensures (forall o: Operand :: o.Virtual? ==> |AllRanges(g, c, layout, id2num, o)| <= 1) ==> OneRangeEach(su)
  {
    hide AllRanges, ListOf, RangeList;
    if forall o: Operand :: o.Virtual? ==> |AllRanges(g, c, layout, id2num, o)| <= 1 {
      forall n: nat | IsAlloc(su, n) ensures |RangeList(su, n)| == 1 {
        AllocRanges(su, n);
        RangesProper(su, n);
        SameElements(ListOf(su.ranges, su.operandOf[n]), AllRanges(g, c, layout, id2num, su.operandOf[n]));
      }
    }
  }

  lemma InvStarts(su: Setup, s: AllocState)
    requires ValidSetup(su) && s.allocMap == map[] && s.slotOf == map[]
    requires forall n: nat :: s.queue[n] == Count(n in su.rangesOf)
    requires s.status.Keys == su.rangesOf.Keys && forall n :: n in s.status ==> s.status[n] == New
    requires forall n: nat :: n in su.rangesOf <==> IsAlloc(su, n)
    requires forall r :: r in su.registers ==> r in s.occupied && r in s.occupiedRanges && s.occupiedRanges[r] == []
    requires forall r :: r in s.occupied ==> s.occupied[r] == {}
    ensures Inv(su, s, {})
  {
    hide ValidSetup, HardConflict;
    forall n: nat | IsAlloc(su, n) ensures InOnePlace(s.queue, s.allocMap, s.slotOf, {}, n, su.operandOf[n]) {
      assert s.queue[n] == Count(n in su.rangesOf);
    }
    forall n | n in s.queue ensures IsAlloc(su, n) {
      assert s.queue[n] == Count(n in su.rangesOf);
    }
  }

  lemma StatusCases(status: map<nat, AllocStatus>, n: nat)
    requires n in status && LoopStatus(status[n])
    ensures status[n].New? || status[n].Assign? || status[n].Split? || status[n].Spill?
  {
  }

  lemma ProgressMeans(su: Setup, s: AllocState, t: AllocState)
    requires Progress(su, s, t)
    ensures || Allocatable(su, t) < Allocatable(su, s)
            || (Allocatable(su, t) == Allocatable(su, s)
                && (|| Unspilled(su, t) < Unspilled(su, s)
                    || (Unspilled(su, t) == Unspilled(su, s)
                        && (|| Slack(su, t) < Slack(su, s)
                            || (Slack(su, t) == Slack(su, s) && |t.queue| < |s.queue|)))))
  {
  }

  lemma SlotsStart(base: nat)
    ensures SlotsInFrame(map[], base, base)
  {
  }

  lemma AssignmentComplete(su: Setup, allocMap: map<nat, Register>, regOf: map<Operand, Register>)
    requires AssignmentOf(su, allocMap, allocMap.Keys, regOf)
    ensures IsAssignment(su, allocMap, regOf)
  {
  }

  lemma TempsStayFree(g: Graph, c: Code, layout: seq<BlockId>, registers: seq<Register>, a: Allocation)
    requires BackendFunction(g, c, layout, registers) && AllocationShape(a)
    ensures TempsFree(g, c, a)
  {
    hide LiveAt, HasSpilled, HasVirtual;
    forall b, i: nat, o: Operand | At(c, b, i) && HasSpilled(a, c[b][i]) && TempOperand(o)
        ensures !LiveAt(g, c, b, o, i + 1) {
      SpilledIsVirtual(a, c[b][i]);
    }
  }

  lemma FinalClasses(g: Graph, c: Code, layout: seq<BlockId>, id2num: map<InstrId, nat>, su: Setup, s: AllocState,
                     regOf: map<Operand, Register>, sites: map<InstrId, Site>, out: OutCode)
    requires FunctionShape(g, c, layout) && RangesCorrect(g, c, layout, id2num, su.ranges) && AllocForEach(su)
    requires Inv(su, s, {}) && s.queue == multiset{} && IsAssignment(su, s.allocMap, regOf)
    requires CodeFor(c, sites, Allocation(regOf, s.slotOf)) && FlattenedFrom(c, sites, out)
    requires AllocationShape(Allocation(regOf, s.slotOf))
    ensures AllGroupsClassed(c, out)
  {
    var a := Allocation(regOf, s.slotOf);
    hide FunctionShape, RangesCorrect, AllocForEach, Inv, IsAssignment, AllAllocated, CodeFor, FlattenedFrom,
        AllocationShape, RightClasses, AllGroupsClassed;
    ClassesAssigned(su, s, regOf);
    forall b, i: nat | At(c, b, i) ensures AllAllocated(a, c[b][i]) {
      EverythingAllocated(g, c, layout, id2num, su, s, regOf, b, i);
    }
    CodeClassed(c, sites, out, a);
  }

  lemma ClassesAssigned(su: Setup, s: AllocState, regOf: map<Operand, Register>)
    requires Inv(su, s, {}) && IsAssignment(su, s.allocMap, regOf)
    ensures RightClasses(regOf)
  {
    InvFacts(su, s, {});
    hide Inv, Partition, Statuses, OccupiedExact, StoredRangesExact, HardConflict, RangeList, ListOf;
    forall o | o in regOf ensures o.Virtual? && (regOf[o].Float? <==> o.isFloat) {
      var n :| n in s.allocMap && IsAlloc(su, n) && su.operandOf[n] == o;
    }
  }

  lemma FinalRewritten(g: Graph, c: Code, layout: seq<BlockId>, id2num: map<InstrId, nat>, su: Setup, s: AllocState,
                       regOf: map<Operand, Register>,
                       sites: map<InstrId, Site>, out: OutCode)
    requires FunctionShape(g, c, layout) && RangesCorrect(g, c, layout, id2num, su.ranges) && AllocForEach(su)
    requires Inv(su, s, {}) && s.queue == multiset{} && IsAssignment(su, s.allocMap, regOf)
    requires CodeFor(c, sites, Allocation(regOf, s.slotOf)) && FlattenedFrom(c, sites, out)
    ensures Rewritten(c, out, Allocation(regOf, s.slotOf))
    ensures forall b, i :: b in out && 0 <= i < |out[b]| ==> !HasVirtual(out[b][i].main)
  {
    var a := Allocation(regOf, s.slotOf);
    hide FunctionShape, RangesCorrect, AllocForEach, Inv, IsAssignment, AllAllocated, SiteOk, HasVirtual;
    forall b: BlockId, i: nat | At(c, b, i) && b in out && i < |out[b]| ensures ExpandedAt(c, out, a, b, i)
        && !HasVirtual(out[b][i].main) {
      EverythingAllocated(g, c, layout, id2num, su, s, regOf, b, i);
      NoVirtualLeft(c[b][i], sites[(b, i)], a);
      SiteExpands(c[b][i], sites[(b, i)], a);
    }
    forall b, i | b in out && 0 <= i < |out[b]| ensures !HasVirtual(out[b][i].main) {
      assert At(c, b, i);
    }
  }

  lemma SiteExpands(ins: Instr, s: Site, a: Allocation)
    requires SiteOk(ins, s, a)
    ensures exists ls :: Expands(ins, s.grp, a, ls)
  {
    hide Expands;
    var ls :| SiteFor(ins, s, a, ls);
    assert Expands(ins, s.grp, a, ls);
  }

  lemma FinalFacts(g: Graph, c: Code, layout: seq<BlockId>, id2num: map<InstrId, nat>, su: Setup, s: AllocState,
                   regOf: map<Operand, Register>,
                   base: nat, frameSize: nat, sites: map<InstrId, Site>, out: OutCode)
    requires BackendFunction(g, c, layout, su.registers) && RangesCorrect(g, c, layout, id2num, su.ranges)
        && AllocForEach(su)
    requires Inv(su, s, {}) && s.queue == multiset{} && AssignmentOf(su, s.allocMap, s.allocMap.Keys, regOf)
    requires SlotsInFrame(s.slotOf, base, frameSize)
    requires CodeFor(c, sites, Allocation(regOf, s.slotOf)) && FlattenedFrom(c, sites, out)
    ensures Allocated(g, c, out, Allocation(regOf, s.slotOf))
    ensures forall b, i :: b in out && 0 <= i < |out[b]| ==> !HasVirtual(out[b][i].main)
    ensures AllGroupsClassed(c, out)
  {
    hide *;
    var a := Allocation(regOf, s.slotOf);
    BackendFacts(g, c, layout, su.registers);
    ShapeFacts(g, c, layout);
    AssignmentComplete(su, s.allocMap, regOf);
    FinalShape(su, s, regOf, base, frameSize);
    SafeIsNoSharing(g, c, layout, id2num, su, s, regOf);
    NoSharingCompatible(g, c, layout, id2num, su.ranges, a);
    TempsStayFree(g, c, layout, su.registers, a);
    FinalRewritten(g, c, layout, id2num, su, s, regOf, sites, out);
    FinalClasses(g, c, layout, id2num, su, s, regOf, sites, out);
    AllocatedHolds(g, c, out, a);
  }

  lemma AllocatedHolds(g: Graph, c: Code, out: OutCode, a: Allocation)
    requires WellFormed(g) && c.Keys == g.succ.Keys && AllSpillable(c) && NoVirtualLiveIn(g, c)
    requires AllocationShape(a) && Compatible(g, c, a) && TempsFree(g, c, a) && Rewritten(c, out, a)
    ensures Allocated(g, c, out, a)
  {
    hide AllSpillable, NoVirtualLiveIn, AllocationShape, Compatible, TempsFree, Rewritten, WellFormed;
  }

  lemma SavedAll(su: Setup, s: AllocState, regOf: map<Operand, Register>, saved: set<Register>)
    requires Inv(su, s, {}) && AssignmentOf(su, s.allocMap, s.allocMap.Keys, regOf)
        && SavedFor(saved, s.allocMap, s.allocMap.Keys)
    ensures forall o :: o in regOf ==> regOf[o] in su.registers && (CalleeSaved(regOf[o]) ==> regOf[o] in saved)
  {
    hide *;
    InvFacts(su, s, {});
    AssignmentComplete(su, s.allocMap, regOf);
    forall o | o in regOf ensures regOf[o] in su.registers && (CalleeSaved(regOf[o]) ==> regOf[o] in saved) {
      var n := AllocFor(su, s.allocMap, regOf, o);
      SavedFacts(saved, s.allocMap, n);
    }
  }

  lemma SavedFacts(saved: set<Register>, allocMap: map<nat, Register>, n: nat)
    requires SavedFor(saved, allocMap, allocMap.Keys) && n in allocMap
    ensures CalleeSaved(allocMap[n]) ==> allocMap[n] in saved
  {
  }

  /** What the backend does to one function: a fresh allocator over the allocatable registers. */
  method AllocateRegisters(g: Graph, c: Code, layout: seq<BlockId>, localSize: nat, weightOfBlock: map<BlockId, nat>,
                           copies: seq<Copy>)
    returns (intact: bool, out: OutCode, saved: set<Register>, frameSize: nat, ghost a: Allocation, ghost su: Setup,
             ghost id2num: map<InstrId, nat>)
    requires BackendCode(g, c, layout, REG_ALLOC)
    ensures OneRangePerRegister(g, c, layout) ==> intact
    ensures intact ==> SameRunsRewritten(g, c, out, a)
    ensures intact ==> forall b, i :: b in out && 0 <= i < |out[b]| ==> !HasVirtual(out[b][i].main)
    ensures intact ==> SlotsInFrame(a.slotOf, localSize, frameSize)
    ensures intact ==> forall o :: o in a.regOf && CalleeSaved(a.regOf[o]) ==> a.regOf[o] in saved
    ensures su.registers == REG_ALLOC && AllocsOf(g, c, layout, id2num, su)
    ensures WeightsMean(c, layout, weightOfBlock, copies, su)
    ensures intact ==> RoomyPlaced(su, a.regOf)
    ensures intact ==> AllGroupsClassed(c, out)
  {
    AllocatableRegisters();
    var allocator := new RegAlloc(REG_ALLOC, localSize);
    assert BackendFunction(g, c, layout, allocator.registers);
    hide *;
    intact, out, a, id2num := allocator.GreedyAllocation(g, c, layout, weightOfBlock, copies);
    saved, frameSize, su := allocator.saved, allocator.frameSize, allocator.Su();
    allocator.Here();
  }
}
