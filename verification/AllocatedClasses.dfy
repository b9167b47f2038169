/** Register classes after allocation: every operand is in a register of its class, and the code that
    spilling inserts is made of instructions that exist. */
module AllocatedClasses {
  import opened ControlFlowGraph
  import opened AsmProgram
  import opened BackendRegisters
  import opened Liveness
  import opened AllocatedCode
  import opened AllocationSimulation
  import opened SpillCode
  import opened AllocatorCode

  /** Only scratch registers are written, constants and addresses go to general ones, memory is addressed
      through them or the stack pointer, and immediates fit into twelve bits. */
  predicate OutClassed(o: Out) {
    match o
    case Keep(_) => true
    case Li(rd, _) => IsScratch(rd) && rd.General?
    case AddSp(rd, rs) => rd == rs && IsScratch(rd) && rd.General?
    case Ld(rd, base, imm) => IsScratch(rd) && IsBase(base) && -2048 <= imm < 2048
    case Sd(rs, base, imm) => IsScratch(rs) && IsBase(base) && -2048 <= imm < 2048
  }

  /** x5, x6 and f0 to f2, which are never allocated. */
  predicate IsScratch(r: Register) {
    match r
    case General(n) => 5 <= n <= 6
    case Float(n) => n <= 2
  }

  /** The stack pointer x2, or a scratch register with an address in it. */
  predicate IsBase(o: Operand) {
    o.Physical? && o.reg.General? && (o.reg.index == 2 || IsScratch(o.reg))
  }

  predicate OutsClassed(code: seq<Out>) {
    forall k :: 0 <= k < |code| ==> OutClassed(code[k])
  }

  /** What stands for `o` is a register of its class; what is no register stays. */
  predicate StandsFor(o: Operand, o': Operand) {
    match o
    case Virtual(_, isFloat) => o'.Physical? && (o'.reg.Float? <==> isFloat)
    case _ => o' == o
  }

  ghost predicate GroupClassed(ins: Instr, grp: Group) {
    && OutsClassed(grp.pre) && OutsClassed(grp.post)
    && |grp.main.uses| == |ins.uses| && |grp.main.defs| == |ins.defs|
    && (forall k :: 0 <= k < |ins.uses| ==> StandsFor(ins.uses[k], grp.main.uses[k]))
    && (forall k :: 0 <= k < |ins.defs| ==> StandsFor(ins.defs[k], grp.main.defs[k]))
  }

  ghost predicate AllGroupsClassed(c: Code, out: OutCode) {
    forall b, i: nat :: At(c, b, i) ==> b in out && i < |out[b]| && GroupClassed(c[b][i], out[b][i])
  }

  ghost predicate RightClasses(regOf: map<Operand, Register>) {
    forall o :: o in regOf ==> o.Virtual? && (regOf[o].Float? <==> o.isFloat)
  }

  lemma ReloadClassed(l: Reload, offset: nat)
    requires ProperReload(l)
    ensures OutsClassed(ReloadCode(l, offset)) && l.temp.Float? == FloatOperand(l.v)
  {
  }

  lemma {:induction false} ReloadsClassed(ls: seq<Reload>, slotOf: map<Operand, nat>)
    requires forall k :: 0 <= k < |ls| ==> ProperReload(ls[k])
    ensures OutsClassed(ReloadsCode(ls, slotOf))
  {
    if ls != [] {
      ReloadsClassed(ls[..|ls| - 1], slotOf);
      ReloadClassed(ls[|ls| - 1], if ls[|ls| - 1].v in slotOf then slotOf[ls[|ls| - 1].v] else 0);
      hide ProperReload, OutClassed, ReloadCode;
    }
  }

  lemma SaveClassed(v: Operand, offset: nat)
    requires v.Virtual?
    ensures OutsClassed(SaveCode(v, offset)) && (ResultTemp(v, offset).Float? <==> v.isFloat)
  {
  }

  /** An instruction all of whose virtual registers are dealt with. */
  lemma SiteClassed(ins: Instr, s: Site, a: Allocation)
    requires SiteOk(ins, s, a) && AllocationShape(a) && RightClasses(a.regOf) && AllAllocated(a, ins)
    ensures GroupClassed(ins, s.grp)
  {
    hide ReloadsCode, SaveCode, ProperReload, ResultTemp, OutClassed, UsedBy;
    var ls :| SiteFor(ins, s, a, ls);
    ReloadsClassed(ls, a.slotOf);
    forall k | 0 <= k < |ins.uses| ensures StandsFor(ins.uses[k], s.grp.main.uses[k]) {
      UseClassed(ins.uses[k], s.grp.main.uses[k], a, ls);
    }
    forall k | 0 <= k < |ins.defs| ensures StandsFor(ins.defs[k], s.grp.main.defs[k]) {
      DefClassed(ins.defs[k], a);
    }
    if d :| d in ins.defs && d in a.slotOf {
      SaveClassed(d, a.slotOf[d]);
    }
  }

  lemma UseClassed(o: Operand, o': Operand, a: Allocation, ls: seq<Reload>)
    requires UseRewritten(a, ls, o, o') && AllocationShape(a) && RightClasses(a.regOf)
    requires o.Virtual? ==> o in a.regOf || o in a.slotOf
    requires forall k :: 0 <= k < |ls| ==> ProperReload(ls[k])
    ensures StandsFor(o, o')
  {
    hide ProperReload;
    if o in a.slotOf {
      var k: nat :| ReloadOf(ls, k, o) && o' == Physical(ls[k].temp);
      ReloadClassed(ls[k], 0);
    }
  }

  lemma DefClassed(o: Operand, a: Allocation)
    requires AllocationShape(a) && RightClasses(a.regOf) && (o.Virtual? ==> o in a.regOf || o in a.slotOf)
    ensures StandsFor(o, DefRewritten(a, o))
  {
    hide SaveCode, ResultTemp;
    if o in a.slotOf {
      SaveClassed(o, a.slotOf[o]);
    }
  }

  lemma CodeClassed(c: Code, sites: map<InstrId, Site>, out: OutCode, a: Allocation)
    requires CodeFor(c, sites, a) && FlattenedFrom(c, sites, out) && AllocationShape(a) && RightClasses(a.regOf)
    requires forall b, i: nat :: At(c, b, i) ==> AllAllocated(a, c[b][i])
    ensures AllGroupsClassed(c, out)
  {
    hide SiteOk, GroupClassed, AllAllocated, AllocationShape, RightClasses;
    forall b, i: nat | At(c, b, i) ensures b in out && i < |out[b]| && GroupClassed(c[b][i], out[b][i]) {
      SiteClassed(c[b][i], sites[(b, i)], a);
    }
  }
}
