/** The instructions while the allocator edits them: which ones a register's ranges lead to, and what
    holds of all of them after every spill and every assignment. */
module AllocatorCode {
  import opened ControlFlowGraph
  import opened AsmProgram
  import opened BackendRegisters
  import opened Liveness
  import opened LiveRanges
  import opened LivenessPass
  import opened AllocatedCode
  import opened AllocationSimulation
  import opened SpillCode
  import opened AllocatorState

  predicate Mentions(ins: Instr, o: Operand) {
    o in ins.uses || o in ins.defs
  }

  predicate Between(lo: nat, x: nat, hi: nat) {
    lo <= x < hi
  }

  function Span(lo: nat, hi: nat): (xs: set<nat>)
    ensures forall x: nat :: x in xs <==> lo <= x < hi
  {
    set x: nat | lo <= x < hi && Between(lo, x, hi)
  }

  /** The numbers of the instructions in the ranges. */
  function NumbersIn(rs: seq<Range>): set<nat> {
    if rs == [] then {} else NumbersIn(rs[..|rs| - 1]) + Span(rs[|rs| - 1].begin, rs[|rs| - 1].end + 1)
  }

  lemma {:induction false} NumbersAre(rs: seq<Range>, x: nat)
    ensures x in NumbersIn(rs) <==> exists r :: r in rs && r.begin <= x <= r.end
  {
    if rs != [] {
      var last := rs[|rs| - 1];
      NumbersAre(rs[..|rs| - 1], x);
      assert rs == rs[..|rs| - 1] + [last];
      if r :| r in rs && r.begin <= x <= r.end {
        assert r in rs[..|rs| - 1] || r == last;
      }
      if last.begin <= x <= last.end {
        assert last in rs;
      }
    }
  }

  /** A number in `xs` is that of instruction `id`. */
  ghost predicate NumIn(num2id: map<nat, InstrId>, xs: set<nat>, id: InstrId) {
    exists x: nat :: x in xs && x in num2id && num2id[x] == id
  }

  ghost predicate GoodNumbers(c: Code, num2id: map<nat, InstrId>, xs: set<nat>) {
    && (forall x: nat :: x in xs ==> x in num2id && At(c, num2id[x].0, num2id[x].1))
    && (forall x: nat, y: nat :: x in xs && y in xs && x != y && x in num2id && y in num2id ==> num2id[x] != num2id[y])
  }

  /** The ranges of an alloc lead to every instruction that mentions its register. */
  ghost predicate Covered(c: Code, su: Setup, num2id: map<nat, InstrId>) {
    && (forall n: nat :: IsAlloc(su, n) ==> GoodNumbers(c, num2id, NumbersIn(RangeList(su, n))))
    && (forall n: nat, b, i: nat :: IsAlloc(su, n) && At(c, b, i) && Mentions(c[b][i], su.operandOf[n])
          ==> NumIn(num2id, NumbersIn(RangeList(su, n)), (b, i)))
  }

  /** The sites are those of the code, each described by the allocation so far. */
  ghost predicate CodeFor(c: Code, sites: map<InstrId, Site>, a: Allocation) {
    && (forall id: InstrId :: id in sites ==> At(c, id.0, id.1))
    && (forall b: BlockId, i: nat :: At(c, b, i) ==> (b, i) in sites)
    && (forall b, i: nat :: At(c, b, i) && (b, i) in sites ==> SiteOk(c[b][i], sites[(b, i)], a))
  }

  ghost predicate FlattenedFrom(c: Code, sites: map<InstrId, Site>, out: OutCode) {
    && out.Keys == c.Keys
    && (forall b :: b in c && b in out ==> |out[b]| == |c[b]|)
    && (forall b: BlockId, i: nat :: At(c, b, i) && b in out && i < |out[b]| ==>
        (b, i) in sites
        && out[b][i] == sites[(b, i)].grp)
  }

  predicate Has(s: Site, o: Operand, inDefs: bool) {
    if inDefs then o in s.grp.main.defs else o in s.grp.main.uses
  }

  /** The worklist holds the sites numbered in `xs` that mention `o`, each once. */
  ghost predicate Worklist(work: seq<InstrId>, sites: map<InstrId, Site>, num2id: map<nat, InstrId>, xs: set<nat>,
                           o: Operand, inDefs: bool) {
    && (forall i, j :: 0 <= i < j < |work| ==> work[i] != work[j])
    && (forall id :: id in work ==> NumIn(num2id, xs, id) && id in sites && Has(sites[id], o, inDefs))
    && (forall x: nat ::
        x in xs && x in num2id && num2id[x] in sites && Has(sites[num2id[x]], o, inDefs)
        ==> num2id[x] in work)
  }

  lemma WorklistStarts(sites: map<InstrId, Site>, num2id: map<nat, InstrId>, o: Operand, inDefs: bool)
    ensures Worklist([], sites, num2id, {}, o, inDefs)
  {
  }

  lemma WorklistGrows(c: Code, work: seq<InstrId>, sites: map<InstrId, Site>, num2id: map<nat, InstrId>, xs: set<nat>,
                      m: nat, all: set<nat>,
                      o: Operand, inDefs: bool)
    requires Worklist(work, sites, num2id, xs, o, inDefs) && GoodNumbers(c, num2id, all) && xs <= all && m in all
        && m !in xs
    requires m in num2id && num2id[m] in sites
    ensures Worklist(if Has(sites[num2id[m]], o, inDefs) then work + [num2id[m]]
        else work, sites, num2id, xs + {m}, o, inDefs)
  {
    hide Has;
    var id := num2id[m];
    assert !NumIn(num2id, xs, id);
    var after := if Has(sites[id], o, inDefs) then work + [id] else work;
    forall x | x in after ensures NumIn(num2id, xs + {m}, x) && x in sites && Has(sites[x], o, inDefs) {
      if x in work {
        var k: nat :| k in xs && k in num2id && num2id[k] == x;
        assert k in xs + {m};
      } else {
        assert m in xs + {m};
      }
    }
  }

  /** Outside its ranges no site mentions a register that is not dealt with. */
  lemma MentionsInRange(c: Code, su: Setup, num2id: map<nat, InstrId>, sites: map<InstrId, Site>, a: Allocation, n: nat,
                        id: InstrId)
    requires Covered(c, su, num2id) && CodeFor(c, sites, a) && ValidSetup(su) && IsAlloc(su, n) && id in sites
    requires su.operandOf[n] !in a.regOf && su.operandOf[n] !in a.slotOf
    ensures Has(sites[id], su.operandOf[n], true) || Has(sites[id], su.operandOf[n], false)
            ==> NumIn(num2id, NumbersIn(RangeList(su, n)), id)
  {
    hide SiteFor, NumIn, GoodNumbers;
    assert id == (id.0, id.1);
    var ls :| SiteFor(c[id.0][id.1], sites[id], a, ls);
    StillThere(c[id.0][id.1], sites[id], a, ls, su.operandOf[n]);
  }

  /** A finished worklist holds exactly the sites that mention the register. */
  lemma WorklistComplete(c: Code, su: Setup, num2id: map<nat, InstrId>, sites: map<InstrId, Site>, a: Allocation,
                         n: nat, work: seq<InstrId>, inDefs: bool)
    requires Covered(c, su, num2id) && CodeFor(c, sites, a) && ValidSetup(su) && IsAlloc(su, n)
    requires su.operandOf[n] !in a.regOf && su.operandOf[n] !in a.slotOf
    requires Worklist(work, sites, num2id, NumbersIn(RangeList(su, n)), su.operandOf[n], inDefs)
    ensures forall i, j :: 0 <= i < j < |work| ==> work[i] != work[j]
    ensures forall id :: id in work ==> id in sites
    ensures forall id :: id in sites ==> (id in work <==> Has(sites[id], su.operandOf[n], inDefs))
  {
    hide CodeFor, Covered, Has, ValidSetup, RangeList, NumbersIn;
    forall id | id in sites && Has(sites[id], su.operandOf[n], inDefs) ensures id in work {
      MentionsInRange(c, su, num2id, sites, a, n, id);
    }
  }

  // ----- all sites at once -----

  ghost predicate DefsSpilled(before: map<InstrId, Site>, after: map<InstrId, Site>, o: Operand, offset: nat) {
    after.Keys == before.Keys && forall id ::
        id in before && id in after
        ==> after[id] == SpillDef(before[id], o, offset)
  }

  ghost predicate UsesSpilled(before: map<InstrId, Site>, after: map<InstrId, Site>, o: Operand, offset: nat) {
    && after.Keys == before.Keys && (forall id :: id in before ==> RoomFor(before[id], o))
    && forall id :: id in before && id in after && RoomFor(before[id], o)
        ==> after[id] == SpillUse(before[id], o, offset)
  }

  ghost predicate AssignedIn(before: map<InstrId, Site>, after: map<InstrId, Site>, o: Operand, r: Register) {
    after.Keys == before.Keys && forall id :: id in before && id in after ==> after[id] == AssignIn(before[id], o, r)
  }

  ghost predicate AllFewInputs(c: Code) {
    forall b, i: nat :: At(c, b, i) ==> FewInputs(c[b][i])
  }

  lemma RoomEverywhere(c: Code, sites: map<InstrId, Site>, a: Allocation, o: Operand, offset: nat)
    requires CodeFor(c, sites, a) && AllocationShape(a) && AllSpillable(c) && AllFewInputs(c) && o.Virtual?
        && o !in a.regOf && o !in a.slotOf
    ensures forall id :: id in sites ==> RoomFor(SpillDef(sites[id], o, offset), o)
  {
    hide SiteOk, AllocationShape, SpillableInstr, FewInputs, RoomFor;
    forall id | id in sites ensures RoomFor(SpillDef(sites[id], o, offset), o) {
      assert id == (id.0, id.1);
      SpillStep(c[id.0][id.1], sites[id], a, o, offset);
      SpillDefKeepsRoom(sites[id], o, offset);
    }
  }

  lemma SpillDefKeepsRoom(s: Site, o: Operand, offset: nat)
    requires RoomFor(s, o)
    ensures RoomFor(SpillDef(s, o, offset), o)
  {
  }

  /** A spill keeps the whole code described. */
  lemma CodeSpilled(c: Code, s0: map<InstrId, Site>, s1: map<InstrId, Site>, s2: map<InstrId, Site>, a: Allocation,
                    o: Operand, offset: nat)
    requires CodeFor(c, s0, a) && AllocationShape(a) && AllSpillable(c) && AllFewInputs(c) && o.Virtual?
        && o !in a.regOf && o !in a.slotOf
    requires DefsSpilled(s0, s1, o, offset) && UsesSpilled(s1, s2, o, offset)
    ensures CodeFor(c, s2, WithSlot(a, o, offset))
  {
    hide SiteOk, AllocationShape, SpillableInstr, FewInputs, RoomFor, SpillDef, SpillUse, WithSlot;
    forall b, i: nat | At(c, b, i) ensures (b, i) in s2 && SiteOk(c[b][i], s2[(b, i)], WithSlot(a, o, offset)) {
      assert (b, i) in s0;
      SpillStep(c[b][i], s0[(b, i)], a, o, offset);
    }
  }

  /** An assignment keeps the whole code described. */
  lemma CodeAssigned(c: Code, s0: map<InstrId, Site>, s1: map<InstrId, Site>, a: Allocation, o: Operand, r: Register)
    requires CodeFor(c, s0, a) && o.Virtual? && o !in a.regOf && o !in a.slotOf && AssignedIn(s0, s1, o, r)
    ensures CodeFor(c, s1, WithReg(a, o, r))
  {
    hide SiteOk, AssignIn, WithReg;
    forall b, i: nat | At(c, b, i) ensures (b, i) in s1 && SiteOk(c[b][i], s1[(b, i)], WithReg(a, o, r)) {
      assert (b, i) in s0;
      AssignStep(c[b][i], s0[(b, i)], a, o, r);
    }
  }

  lemma CodeStarts(c: Code, sites: map<InstrId, Site>)
    requires forall id: InstrId :: id in sites ==> At(c, id.0, id.1)
    requires forall b: BlockId, i: nat :: At(c, b, i) ==> (b, i) in sites
    requires forall b, i: nat :: At(c, b, i) && (b, i) in sites ==> sites[(b, i)] == Site(Group([], c[b][i], []), {})
    ensures CodeFor(c, sites, Allocation(map[], map[]))
  {
    hide SiteOk;
    forall b, i: nat | At(c, b, i) ensures SiteOk(c[b][i], sites[(b, i)], Allocation(map[], map[])) {
      NothingDone(c[b][i]);
    }
  }

  // ----- slots -----

  /** The slot the register has, or else a fresh one. */
  function SlotOrFresh(slotOf: map<Operand, nat>, o: Operand, next: nat): nat {
    if o in slotOf then slotOf[o] else next
  }

  /** Every slot lies in the frame beyond the locals, and no two overlap. */
  ghost predicate SlotsInFrame(slotOf: map<Operand, nat>, base: nat, frameSize: nat) {
    && base <= frameSize
    && (forall o :: o in slotOf ==> o.Virtual? && base <= slotOf[o] && slotOf[o] + 8 <= frameSize)
    && (forall o, p :: o in slotOf && p in slotOf && o != p ==>
        slotOf[o] + 8 <= slotOf[p]
        || slotOf[p] + 8 <= slotOf[o])
  }

  lemma NewSlot(slotOf: map<Operand, nat>, base: nat, frameSize: nat, o: Operand)
    requires SlotsInFrame(slotOf, base, frameSize) && o !in slotOf && o.Virtual?
    ensures SlotsInFrame(slotOf[o := frameSize], base, frameSize + 8)
  {
  }

  lemma SlotsShape(slotOf: map<Operand, nat>, base: nat, frameSize: nat)
    requires SlotsInFrame(slotOf, base, frameSize)
    ensures AllocationShape(Allocation(map[], slotOf))
  {
  }
}
