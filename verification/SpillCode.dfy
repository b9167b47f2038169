/** Editing one instruction: the code a spill adds around it and the register an assignment puts into
    it, and that these edits add up to the rewritten instruction the simulation needs. */
module SpillCode {
  import opened AsmProgram
  import opened BackendRegisters
  import opened AllocatedCode
  import opened AllocationSimulation

  function Replace(os: seq<Operand>, v: Operand, w: Operand): (r: seq<Operand>)
    ensures |r| == |os| && forall k :: 0 <= k < |os| ==> r[k] == if os[k] == v then w else os[k]
  {
    if os == [] then [] else Replace(os[..|os| - 1], v, w) + [if os[|os| - 1] == v then w else os[|os| - 1]]
  }

  /** One instruction while the allocator works on it. */
  datatype Site = Site(grp: Group, usedTemps: set<Register>)

  /** The first register of `regs` that is not used yet. */
  function FirstFree(regs: seq<Register>, used: set<Register>): (r: Register)
    requires exists k :: 0 <= k < |regs| && regs[k] !in used
    ensures r in regs && r !in used
  {
    if regs[0] !in used then regs[0]
    else
      assert exists k :: 0 <= k < |regs[1..]| && regs[1..][k] !in used by {
        var k :| 0 <= k < |regs| && regs[k] !in used;
        assert regs[1..][k - 1] == regs[k];
      }
      FirstFree(regs[1..], used)
  }

  predicate HasFree(regs: seq<Register>, used: set<Register>) {
    exists k :: 0 <= k < |regs| && regs[k] !in used
  }

  /** Spilling a result: it is produced in a temporary and stored right after the instruction. */
  function SpillDef(s: Site, v: Operand, offset: nat): Site {
    if v !in s.grp.main.defs then s
    else
      var main := s.grp.main.(defs := Replace(s.grp.main.defs, v, Physical(ResultTemp(v, offset))));
      Site(Group(s.grp.pre, main, SaveCode(v, offset) + s.grp.post), s.usedTemps)
  }

  /** A temporary of each class is left for one more input. */
  predicate RoomFor(s: Site, v: Operand) {
    v in s.grp.main.uses ==>
        HasFree(SPILL_GENERAL, s.usedTemps) && (FloatOperand(v)
        ==> HasFree(SPILL_FLOAT, s.usedTemps))
  }

  /** The temporaries the next reload takes. */
  function NextReload(used: set<Register>, v: Operand): Reload
    requires HasFree(SPILL_GENERAL, used) && (FloatOperand(v) ==> HasFree(SPILL_FLOAT, used))
  {
    var general := FirstFree(SPILL_GENERAL, used);
    if FloatOperand(v) then Reload(v, FirstFree(SPILL_FLOAT, used), general) else Reload(v, general, general)
  }

  /** Spilling an input: it is loaded into a free temporary right before the instruction. */
  function SpillUse(s: Site, v: Operand, offset: nat): Site
    requires RoomFor(s, v)
  {
    if v !in s.grp.main.uses then s
    else
      var l := NextReload(s.usedTemps, v);
      var main := s.grp.main.(uses := Replace(s.grp.main.uses, v, Physical(l.temp)));
      Site(Group(s.grp.pre + ReloadCode(l, offset), main, s.grp.post), s.usedTemps + Occupied(l, offset))
  }

  /** Putting the assigned register in. */
  function AssignIn(s: Site, v: Operand, r: Register): Site {
    var main := s.grp.main;
    Site(s.grp.(main := main.(uses := Replace(main.uses, v, Physical(r)), defs := Replace(main.defs, v, Physical(r)))),
        s.usedTemps)
  }

  // ----- what the edits add up to -----

  function UsedBy(ls: seq<Reload>, slotOf: map<Operand, nat>): set<Register> {
    if ls == [] then {}
    else
      var l := ls[|ls| - 1];
      UsedBy(ls[..|ls| - 1], slotOf) + Occupied(l, if l.v in slotOf then slotOf[l.v] else 0)
  }

  /** General registers are loaded through themselves, floats through a general temporary. */
  predicate ProperReload(l: Reload) {
    && l.addr in SPILL_GENERAL
    && (if FloatOperand(l.v) then l.temp in SPILL_FLOAT else l.temp == l.addr)
  }

  /** The state of one instruction when exactly the registers of `a` have been dealt with. */
  ghost predicate SiteFor(ins: Instr, s: Site, a: Allocation, ls: seq<Reload>) {
    && Expands(ins, s.grp, a, ls)
    && s.usedTemps == UsedBy(ls, a.slotOf)
    && (forall k :: 0 <= k < |ls| ==> ProperReload(ls[k]))
  }

  ghost predicate SiteOk(ins: Instr, s: Site, a: Allocation) {
    exists ls :: SiteFor(ins, s, a, ls)
  }

  /** At most two different virtual registers are inputs. */
  ghost predicate FewInputs(ins: Instr) {
    forall x, y, z :: x in ins.uses && y in ins.uses && z in ins.uses && x.Virtual? && y.Virtual? && z.Virtual?
      ==> x == y || y == z || x == z
  }

  lemma NothingDone(ins: Instr)
    ensures SiteOk(ins, Site(Group([], ins, []), {}), Allocation(map[], map[]))
  {
    assert SiteFor(ins, Site(Group([], ins, []), {}), Allocation(map[], map[]), []);
  }

  lemma {:induction false} ReloadsSame(ls: seq<Reload>, slots: map<Operand, nat>, more: map<Operand, nat>)
    requires forall k :: 0 <= k < |ls| ==> ls[k].v in slots && ls[k].v in more && more[ls[k].v] == slots[ls[k].v]
    ensures ReloadsCode(ls, more) == ReloadsCode(ls, slots) && UsedBy(ls, more) == UsedBy(ls, slots)
  {
    if ls != [] {
      ReloadsSame(ls[..|ls| - 1], slots, more);
    }
  }

  /** `v` stands in the instruction exactly where it stood originally, as long as it is not dealt with. */
  lemma StillThere(ins: Instr, s: Site, a: Allocation, ls: seq<Reload>, v: Operand)
    requires SiteFor(ins, s, a, ls) && v.Virtual? && v !in a.regOf && v !in a.slotOf
    ensures |s.grp.main.uses| == |ins.uses| && |s.grp.main.defs| == |ins.defs|
    ensures forall k :: 0 <= k < |ins.uses| ==> (s.grp.main.uses[k] == v <==> ins.uses[k] == v)
    ensures forall k :: 0 <= k < |ins.defs| ==> (s.grp.main.defs[k] == v <==> ins.defs[k] == v)
    ensures v in s.grp.main.uses <==> v in ins.uses
    ensures v in s.grp.main.defs <==> v in ins.defs
  {
    hide ReloadsFit, ReloadsCode, SaveCode, UsedBy;
    forall k | 0 <= k < |ins.uses| ensures s.grp.main.uses[k] == v <==> ins.uses[k] == v {
      assert UseRewritten(a, ls, ins.uses[k], s.grp.main.uses[k]);
    }
    forall k | 0 <= k < |ins.defs| ensures s.grp.main.defs[k] == v <==> ins.defs[k] == v {
      assert s.grp.main.defs[k] == DefRewritten(a, ins.defs[k]);
    }
    Same(s.grp.main.uses, ins.uses, v);
    Same(s.grp.main.defs, ins.defs, v);
  }

  lemma Same(p: seq<Operand>, q: seq<Operand>, v: Operand)
    requires |p| == |q| && forall k :: 0 <= k < |p| ==> (p[k] == v <==> q[k] == v)
    ensures v in p <==> v in q
  {
  }

  lemma TwoReloads(ins: Instr, grp: Group, a: Allocation, ls: seq<Reload>)
    requires Expands(ins, grp, a, ls) && AllocationShape(a) && |ls| > 1
    ensures ls[0].v != ls[1].v && ls[0].v in ins.uses && ls[1].v in ins.uses && ls[0].v.Virtual? && ls[1].v.Virtual?
    ensures ls[0].v in a.slotOf && ls[1].v in a.slotOf
  {
    hide ReloadsCode, SaveCode, UseRewritten, DefRewritten;
  }

  /** Two inputs at most leave room for the reload of each. */
  lemma RoomLeft(ins: Instr, s: Site, a: Allocation, ls: seq<Reload>, v: Operand)
    requires SiteFor(ins, s, a, ls) && FewInputs(ins) && AllocationShape(a)
    requires v.Virtual? && v !in a.regOf && v !in a.slotOf
    ensures RoomFor(s, v)
  {
    StillThere(ins, s, a, ls, v);
    if v in ins.uses {
      hide ReloadsCode, SaveCode, UseRewritten, DefRewritten;
      if |ls| > 1 { TwoReloads(ins, s.grp, a, ls); }
      if |ls| == 0 {
        NoReloadLeaves();
      } else {
        var l := ls[0];
        assert UsedBy(ls[..0], a.slotOf) == {};
        assert s.usedTemps == {} + Occupied(l, a.slotOf[l.v]);
        assert ProperReload(l);
        hide ProperReload, Occupied;
        OneReloadLeaves(l, a.slotOf[l.v]);
      }
    }
  }

  lemma NoReloadLeaves()
    ensures HasFree(SPILL_GENERAL, {}) && HasFree(SPILL_FLOAT, {})
  {
    var none: set<Register> := {};
    assert SPILL_GENERAL[0] !in none && SPILL_FLOAT[0] !in none;
  }

  lemma OneReloadLeaves(l: Reload, offset: nat)
    requires ProperReload(l)
    ensures HasFree(SPILL_GENERAL, Occupied(l, offset)) && HasFree(SPILL_FLOAT, Occupied(l, offset))
  {
    var used := Occupied(l, offset);
    assert SPILL_GENERAL[0] !in used || SPILL_GENERAL[1] !in used;
    assert SPILL_FLOAT[0] !in used || SPILL_FLOAT[1] !in used;
  }

  function WithSlot(a: Allocation, v: Operand, offset: nat): Allocation {
    a.(slotOf := a.slotOf[v := offset])
  }

  function SpillSite(s: Site, v: Operand, offset: nat): Site
    requires RoomFor(s, v)
  {
    SpillUse(SpillDef(s, v, offset), v, offset)
  }

  ghost function ReloadsAfter(ins: Instr, s: Site, ls: seq<Reload>, v: Operand): seq<Reload>
    requires RoomFor(s, v)
  {
    if v in s.grp.main.uses then ls + [NextReload(s.usedTemps, v)] else ls
  }

  lemma OldReloads(ins: Instr, s: Site, a: Allocation, ls: seq<Reload>, v: Operand, offset: nat)
    requires SiteFor(ins, s, a, ls) && v !in a.slotOf
    ensures ReloadsCode(ls, WithSlot(a, v, offset).slotOf) == s.grp.pre
    ensures UsedBy(ls, WithSlot(a, v, offset).slotOf) == s.usedTemps
    ensures forall k :: 0 <= k < |ls| ==>
        ls[k].v != v && ls[k].v in a.slotOf
        && WithSlot(a, v, offset).slotOf[ls[k].v] == a.slotOf[ls[k].v]
  {
    hide SaveCode, UseRewritten;
    ReloadsSame(ls, a.slotOf, WithSlot(a, v, offset).slotOf);
  }

  lemma {:induction false} OccupiedIsUsed(ls: seq<Reload>, slots: map<Operand, nat>, k: nat)
    requires k < |ls| && ls[k].v in slots
    ensures Occupied(ls[k], slots[ls[k].v]) <= UsedBy(ls, slots)
  {
    if k < |ls| - 1 {
      OccupiedIsUsed(ls[..|ls| - 1], slots, k);
    }
  }

  /** Every part of the description that concerns reloads survives the spill of `v`. */
  lemma SpillReloads(ins: Instr, s: Site, a: Allocation, ls: seq<Reload>, v: Operand, offset: nat)
    requires SiteFor(ins, s, a, ls) && AllocationShape(a) && RoomFor(s, v) && v.Virtual? && v !in a.regOf
        && v !in a.slotOf
    ensures ReloadsDescribed(ins, SpillSite(s, v, offset), WithSlot(a, v, offset), ReloadsAfter(ins, s, ls, v))
  {
    hide *;
    var a' := WithSlot(a, v, offset);
    StillThere(ins, s, a, ls, v);
    OldReloads(ins, s, a, ls, v, offset);
    FitsOld(ins, s, a, ls);
    SlotFacts(a, v, offset);
    SpillSiteUses(ins, s, ls, v, offset);
    if v in s.grp.main.uses {
      var l := NextReload(s.usedTemps, v);
      NextReloadFacts(s.usedTemps, v, offset);
      forall i | 0 <= i < |ls| ensures Occupied(ls[i], a.slotOf[ls[i].v]) !! Occupied(l, offset) {
        OccupiedIsUsed(ls, a'.slotOf, i);
      }
      OneMoreReloadCode(ls, l, a'.slotOf);
      FitsMore(ls, l, a, a', offset);
      DescribedMore(ins, SpillSite(s, v, offset), a', ls, l);
    } else {
      FitsWider(ls, a, a');
      DescribedHolds(ins, SpillSite(s, v, offset), a', ls);
    }
  }

  ghost predicate ReloadsDescribed(ins: Instr, s: Site, a: Allocation, ls: seq<Reload>) {
    && ReloadsFit(ls, a) && (forall k :: 0 <= k < |ls| ==> ls[k].v in ins.uses && ProperReload(ls[k]))
    && s.grp.pre == ReloadsCode(ls, a.slotOf)
    && s.usedTemps == UsedBy(ls, a.slotOf)
  }

  lemma DescribedHolds(ins: Instr, s: Site, a: Allocation, ls: seq<Reload>)
    requires ReloadsFit(ls, a) && (forall k :: 0 <= k < |ls| ==> ls[k].v in ins.uses && ProperReload(ls[k]))
    requires s.grp.pre == ReloadsCode(ls, a.slotOf) && s.usedTemps == UsedBy(ls, a.slotOf)
    ensures ReloadsDescribed(ins, s, a, ls)
  {
  }

  lemma DescribedMore(ins: Instr, s: Site, a: Allocation, ls: seq<Reload>, l: Reload)
    requires ReloadsFit(ls + [l], a) && (forall k :: 0 <= k < |ls| ==> ls[k].v in ins.uses && ProperReload(ls[k]))
    requires l.v in ins.uses && ProperReload(l)
    requires s.grp.pre == ReloadsCode(ls + [l], a.slotOf) && s.usedTemps == UsedBy(ls + [l], a.slotOf)
    ensures ReloadsDescribed(ins, s, a, ls + [l])
  {
    hide ReloadsFit, ProperReload, ReloadsCode, UsedBy;
  }

  lemma SlotFacts(a: Allocation, v: Operand, offset: nat)
    ensures WithSlot(a, v, offset).slotOf == a.slotOf[v := offset] && WithSlot(a, v, offset).regOf == a.regOf
  {
  }

  lemma SpillSiteUses(ins: Instr, s: Site, ls: seq<Reload>, v: Operand, offset: nat)
    requires RoomFor(s, v)
    ensures var s' := SpillSite(s, v, offset);
            if v in s.grp.main.uses then
              HasFree(SPILL_GENERAL, s.usedTemps) && (FloatOperand(v) ==> HasFree(SPILL_FLOAT, s.usedTemps))
              && s'.grp.pre == s.grp.pre + ReloadCode(NextReload(s.usedTemps, v), offset)
              && s'.usedTemps == s.usedTemps + Occupied(NextReload(s.usedTemps, v), offset)
              && ReloadsAfter(ins, s, ls, v) == ls + [NextReload(s.usedTemps, v)]
            else s'.grp.pre == s.grp.pre && s'.usedTemps == s.usedTemps && ReloadsAfter(ins, s, ls, v) == ls
  {
    hide ReloadCode, Occupied, HasFree;
  }

  lemma NextReloadFacts(used: set<Register>, v: Operand, offset: nat)
    requires HasFree(SPILL_GENERAL, used) && (FloatOperand(v) ==> HasFree(SPILL_FLOAT, used))
    ensures var l := NextReload(used, v);
            l.v == v && ProperReload(l) && IsTemp(l.temp) && IsTemp(l.addr) && Occupied(l, offset) !! used
  {
  }

  lemma FitsMore(ls: seq<Reload>, l: Reload, a: Allocation, a': Allocation, offset: nat)
    requires ReloadsFit(ls, a) && l.v !in a.slotOf && a'.slotOf == a.slotOf[l.v := offset] && IsTemp(l.temp)
        && IsTemp(l.addr)
    requires forall i :: 0 <= i < |ls| && ls[i].v in a.slotOf ==> Occupied(ls[i], a.slotOf[ls[i].v]) !! Occupied(l,
        offset)
    ensures ReloadsFit(ls + [l], a')
  {
    hide Occupied, IsTemp;
  }

  lemma FitsWider(ls: seq<Reload>, a: Allocation, a': Allocation)
    requires ReloadsFit(ls, a) && forall o :: o in a.slotOf ==> o in a'.slotOf
    requires forall k ::
        0 <= k < |ls| && ls[k].v in a.slotOf && ls[k].v in a'.slotOf
        ==> a'.slotOf[ls[k].v] == a.slotOf[ls[k].v]
    ensures ReloadsFit(ls, a')
  {
    hide Occupied, IsTemp;
  }

  lemma FitsOld(ins: Instr, s: Site, a: Allocation, ls: seq<Reload>)
    requires SiteFor(ins, s, a, ls)
    ensures ReloadsFit(ls, a) && forall k :: 0 <= k < |ls| ==> ls[k].v in ins.uses && ProperReload(ls[k])
  {
  }

  lemma OneMoreReloadCode(ls: seq<Reload>, l: Reload, slots: map<Operand, nat>)
    requires l.v in slots
    ensures ReloadsCode(ls + [l], slots) == ReloadsCode(ls, slots) + ReloadCode(l, slots[l.v])
    ensures UsedBy(ls + [l], slots) == UsedBy(ls, slots) + Occupied(l, slots[l.v])
  {
    assert (ls + [l])[..|ls|] == ls;
  }

  lemma SpillUses(ins: Instr, s: Site, a: Allocation, ls: seq<Reload>, v: Operand, offset: nat, k: nat)
    requires SiteFor(ins, s, a, ls) && AllocationShape(a) && RoomFor(s, v) && v.Virtual? && v !in a.regOf
        && v !in a.slotOf
    requires k < |ins.uses|
    ensures var s' := SpillSite(s, v, offset);
            |s'.grp.main.uses| == |ins.uses|
            && UseRewritten(WithSlot(a, v, offset), ReloadsAfter(ins, s, ls, v), ins.uses[k], s'.grp.main.uses[k])
  {
    StillThere(ins, s, a, ls, v);
    var ls', o, o' := ReloadsAfter(ins, s, ls, v), ins.uses[k], s.grp.main.uses[k];
    assert UseRewritten(a, ls, o, o');
    hide Expands, SaveCode, ReloadCode, Occupied;
    if o == v {
      assert ReloadOf(ls', |ls|, v);
    } else if o in a.slotOf {
      var j: nat :| ReloadOf(ls, j, o) && o' == Physical(ls[j].temp);
      assert ReloadOf(ls', j, o);
    }
  }

  ghost predicate DefsDescribed(ins: Instr, grp: Group, a: Allocation) {
    && |grp.main.defs| == |ins.defs| && grp.main.op == ins.op
    && (forall k :: 0 <= k < |ins.defs| ==> grp.main.defs[k] == DefRewritten(a, ins.defs[k]))
    && (forall d :: d in ins.defs && d in a.slotOf ==> grp.post == SaveCode(d, a.slotOf[d]))
    && ((forall d :: d in ins.defs ==> d !in a.slotOf) ==> grp.post == [])
  }

  lemma SpillDefs(ins: Instr, s: Site, a: Allocation, ls: seq<Reload>, v: Operand, offset: nat)
    requires SiteFor(ins, s, a, ls) && AllocationShape(a) && RoomFor(s, v) && v.Virtual? && v !in a.regOf
        && v !in a.slotOf
    requires SpillableInstr(ins)
    ensures DefsDescribed(ins, SpillSite(s, v, offset).grp, WithSlot(a, v, offset))
  {
    hide *;
    StillThere(ins, s, a, ls, v);
    SlotFacts(a, v, offset);
    SpillSiteDefs(s, v, offset);
    DefsWere(ins, s, a, ls);
    if v in ins.defs {
      forall d | d in ins.defs && d != v ensures d !in a.slotOf {
        NotBothVirtual(ins, v, d);
        SpilledVirtual(a, d);
      }
      DefSpilled(ins, s.grp, SpillSite(s, v, offset).grp, a, WithSlot(a, v, offset), v, offset);
    } else {
      ReplaceNothing(s.grp.main.defs, v, Physical(ResultTemp(v, offset)));
      DefsUntouched(ins, s.grp, SpillSite(s, v, offset).grp, a, WithSlot(a, v, offset), v, offset);
    }
  }

  lemma SpilledVirtual(a: Allocation, d: Operand)
    requires AllocationShape(a)
    ensures d in a.slotOf ==> d.Virtual?
  {
  }

  lemma DefsWere(ins: Instr, s: Site, a: Allocation, ls: seq<Reload>)
    requires SiteFor(ins, s, a, ls)
    ensures DefsDescribed(ins, s.grp, a)
  {
    hide ReloadsFit, UseRewritten, ReloadsCode, SaveCode, UsedBy, DefRewritten;
  }

  lemma DefSpilled(ins: Instr, grp: Group, grp': Group, a: Allocation, a': Allocation, v: Operand, offset: nat)
    requires DefsDescribed(ins, grp, a) && v in ins.defs && v.Virtual? && v !in a.regOf && a'.regOf == a.regOf
        && a'.slotOf == a.slotOf[v := offset]
    requires forall d :: d in ins.defs ==> d !in a.slotOf
    requires grp'.main.op == grp.main.op && grp'.main.defs == Replace(grp.main.defs, v, Physical(ResultTemp(v, offset)))
    requires grp'.post == SaveCode(v, offset) + grp.post
    ensures DefsDescribed(ins, grp', a')
  {
    hide SaveCode, ResultTemp;
    assert SaveCode(v, offset) + [] == SaveCode(v, offset);
  }

  lemma DefsUntouched(ins: Instr, grp: Group, grp': Group, a: Allocation, a': Allocation, v: Operand, offset: nat)
    requires DefsDescribed(ins, grp, a) && v !in ins.defs && a'.regOf == a.regOf && a'.slotOf == a.slotOf[v := offset]
    requires grp'.main.op == grp.main.op && grp'.main.defs == grp.main.defs && grp'.post == grp.post
    ensures DefsDescribed(ins, grp', a')
  {
    hide SaveCode, ResultTemp;
    forall k | 0 <= k < |ins.defs| ensures DefRewritten(a', ins.defs[k]) == DefRewritten(a, ins.defs[k]) {
      assert ins.defs[k] in ins.defs;
    }
  }

  lemma SpillSiteDefs(s: Site, v: Operand, offset: nat)
    requires RoomFor(s, v)
    ensures var s' := SpillSite(s, v, offset);
            && s'.grp.main.op == s.grp.main.op
            && s'.grp.main.defs == Replace(s.grp.main.defs, v, Physical(ResultTemp(v, offset)))
            && s'.grp.post == if v in s.grp.main.defs then SaveCode(v, offset) + s.grp.post else s.grp.post
  {
    if v !in s.grp.main.defs {
      ReplaceNothing(s.grp.main.defs, v, Physical(ResultTemp(v, offset)));
    }
  }

  lemma ReplaceNothing(os: seq<Operand>, v: Operand, w: Operand)
    requires v !in os
    ensures Replace(os, v, w) == os
  {
  }

  /** Spilling one more register keeps every instruction described by the allocation so far. */
  lemma SpillStep(ins: Instr, s: Site, a: Allocation, v: Operand, offset: nat)
    requires SiteOk(ins, s, a) && AllocationShape(a) && SpillableInstr(ins) && FewInputs(ins)
    requires v.Virtual? && v !in a.regOf && v !in a.slotOf
    ensures RoomFor(s, v) && SiteOk(ins, SpillSite(s, v, offset), WithSlot(a, v, offset))
  {
    var ls :| SiteFor(ins, s, a, ls);
    RoomLeft(ins, s, a, ls, v);
    var s', a', ls' := SpillSite(s, v, offset), WithSlot(a, v, offset), ReloadsAfter(ins, s, ls, v);
    SpillReloads(ins, s, a, ls, v, offset);
    SpillDefs(ins, s, a, ls, v, offset);
    StillThere(ins, s, a, ls, v);
    hide *;
    forall k | 0 <= k < |ins.uses| ensures |s'.grp.main.uses| == |ins.uses|
        && UseRewritten(a', ls', ins.uses[k], s'.grp.main.uses[k]) {
      SpillUses(ins, s, a, ls, v, offset, k);
    }
    SpillLength(s, v, offset);
    Described(ins, s', a', ls');
  }

  lemma Described(ins: Instr, s: Site, a: Allocation, ls: seq<Reload>)
    requires ReloadsDescribed(ins, s, a, ls) && DefsDescribed(ins, s.grp, a) && |s.grp.main.uses| == |ins.uses|
    requires forall k :: 0 <= k < |ins.uses| ==> UseRewritten(a, ls, ins.uses[k], s.grp.main.uses[k])
    ensures SiteOk(ins, s, a)
  {
    hide UseRewritten, ReloadsFit, ReloadsCode, SaveCode, UsedBy, DefRewritten, ProperReload;
    assert SiteFor(ins, s, a, ls);
  }

  lemma SpillLength(s: Site, v: Operand, offset: nat)
    requires RoomFor(s, v)
    ensures |SpillSite(s, v, offset).grp.main.uses| == |s.grp.main.uses|
  {
  }

  function WithReg(a: Allocation, v: Operand, r: Register): Allocation {
    a.(regOf := a.regOf[v := r])
  }

  /** And so does putting in one more assigned register. */
  lemma AssignStep(ins: Instr, s: Site, a: Allocation, v: Operand, r: Register)
    requires SiteOk(ins, s, a) && v.Virtual? && v !in a.regOf && v !in a.slotOf
    ensures SiteOk(ins, AssignIn(s, v, r), WithReg(a, v, r))
  {
    var ls :| SiteFor(ins, s, a, ls);
    StillThere(ins, s, a, ls, v);
    var s', a' := AssignIn(s, v, r), WithReg(a, v, r);
    hide ReloadsFit, ReloadsCode, SaveCode, UsedBy, ProperReload;
    forall k | 0 <= k < |ins.uses| ensures UseRewritten(a', ls, ins.uses[k], s'.grp.main.uses[k]) {
      assert UseRewritten(a, ls, ins.uses[k], s.grp.main.uses[k]);
    }
    forall k | 0 <= k < |ins.defs| ensures s'.grp.main.defs[k] == DefRewritten(a', ins.defs[k]) {
      assert s.grp.main.defs[k] == DefRewritten(a, ins.defs[k]);
    }
    FitSame(ls, a, a');
    assert SiteFor(ins, s', a', ls);
  }

  lemma FitSame(ls: seq<Reload>, a: Allocation, a': Allocation)
    requires ReloadsFit(ls, a) && a'.slotOf == a.slotOf
    ensures ReloadsFit(ls, a')
  {
  }

  /** An instruction that does not mention the register is not edited. */
  lemma EditsNothing(s: Site, v: Operand, offset: nat, r: Register)
    requires v !in s.grp.main.uses && v !in s.grp.main.defs
    ensures RoomFor(s, v) && SpillSite(s, v, offset) == s && AssignIn(s, v, r) == s
  {
    ReplaceNothing(s.grp.main.uses, v, Physical(r));
    ReplaceNothing(s.grp.main.defs, v, Physical(r));
  }

  /** When every virtual register is dealt with, none is left. */
  lemma NoVirtualLeft(ins: Instr, s: Site, a: Allocation)
    requires SiteOk(ins, s, a) && AllAllocated(a, ins)
    ensures !HasVirtual(s.grp.main)
  {
    var ls :| SiteFor(ins, s, a, ls);
    hide ReloadsFit, ReloadsCode, SaveCode, UsedBy, ProperReload;
    forall k | 0 <= k < |ins.uses| ensures !s.grp.main.uses[k].Virtual? {
      assert UseRewritten(a, ls, ins.uses[k], s.grp.main.uses[k]);
      assert ins.uses[k] in ins.uses;
    }
    forall k | 0 <= k < |ins.defs| ensures !s.grp.main.defs[k].Virtual? {
      assert s.grp.main.defs[k] == DefRewritten(a, ins.defs[k]);
      assert ins.defs[k] in ins.defs;
    }
  }
}
