/** Register classes: the code that replaces phis is made of instructions that exist, for the operands
    that fit their phi's result. */
module PhiClasses {
  import opened BackendRegisters
  import opened ControlFlowGraph
  import opened PhiProgram
  import opened PhiCopies
  import opened PhiSimulation

  /** The physical registers from 32 on are the float registers. */
  predicate IsFloat(o: Operand) {
    match o
    case Virt(_, isFloat) => isFloat
    case Phys(n) => n >= 32
    case _ => false
  }

  predicate IsGeneral(o: Operand) {
    IsRegister(o) && !IsFloat(o)
  }

  /** There is such an instruction: constants, addresses and sums go to general registers, memory is
      addressed through them, a move keeps the class, and immediates fit. */
  predicate WellClassed(ins: Instr) {
    match ins
    case Body(_, _, _) => true
    case Li(rd, _) => IsGeneral(rd)
    case La(rd, _) => IsGeneral(rd)
    case Mv(rd, rs) => IsRegister(rd) && IsRegister(rs) && IsFloat(rd) == IsFloat(rs)
    case Fmv(rd, rs) => IsRegister(rd) && IsFloat(rd) && IsGeneral(rs)
    case AddI(rd, rs, imm) => IsGeneral(rd) && IsGeneral(rs) && -2048 <= imm < 2048
    case Add(rd, rs1, rs2) => IsGeneral(rd) && IsGeneral(rs1) && IsGeneral(rs2)
    case LoadD(rd, rs, imm) => IsRegister(rd) && IsGeneral(rs) && -2048 <= imm < 2048
  }

  predicate CodeClassed(code: seq<Instr>) {
    forall k :: 0 <= k < |code| ==> WellClassed(code[k])
  }

  ghost predicate AllClassed(f: Function) {
    forall b :: b in f.blocks ==> CodeClassed(f.blocks[b].code)
  }

  /** A phi with result `d` can take `src`: a register of its class, any constant, what is on the stack
      behind a general register; an address only if the result is general. */
  predicate FitsClass(d: Operand, src: Operand) {
    match src
    case Imm(_) => true
    case Global(_) => !IsFloat(d)
    case Local(_, base) => !IsFloat(Phys(base)) && (IsFloat(d) ==> base == S0)
    case _ => IsFloat(d) == IsFloat(src)
  }

  ghost predicate PhisFitClass(phis: seq<Phi>, from: BlockId) {
    forall i :: 0 <= i < |phis| ==> FitsClass(phis[i].rd, Source(phis[i].incoming, from))
  }

  /** The operands for all edges into the block do. */
  ghost predicate EdgesFitClass(f: Function, b: BlockId) {
    b in f.blocks && b in f.g.pred ==> forall p :: p in f.g.pred[b] ==> PhisFitClass(f.blocks[b].phis, p)
  }

  ghost predicate AllEdgesFitClass(f: Function) {
    forall b :: b in f.blocks ==> EdgesFitClass(f, b)
  }

  /** A copy is well-classed exactly if its operand fits. */
  lemma CopyClassedIff(d: Operand, src: Operand, tmp: nat)
    requires d.Virt?
    ensures CodeClassed(CopyCode(d, src, Virt(tmp, false))) <==> FitsClass(d, src)
  {
    var code := CopyCode(d, src, Virt(tmp, false));
    assert CodeClassed(code) <==>
      WellClassed(code[0]) && (|code| > 1 ==> WellClassed(code[1])) && (|code| > 2 ==> WellClassed(code[2]));
  }

  /** A place on the stack is read through x8; off any other register the sum is the operand. */
  lemma StackOperandCopied(d: Operand, offset: int, base: nat, tmp: Operand)
    ensures var code := CopyCode(d, Local(offset, base), tmp);
      && code != []
      && (code[|code| - 1].LoadD? <==> base == 8)
      && (forall m: Machine, st: State :: d.Virt? && tmp.Virt? && tmp != d ==>
            Reg(ExecCode(m, code, st).env, d) ==
            if base == 8 then m.load(st.world, Reg(st.env, Phys(8)) + offset) else Reg(st.env, Phys(base)) + offset)
  {
    var code := CopyCode(d, Local(offset, base), tmp);
    forall m: Machine, st: State | d.Virt? && tmp.Virt? && tmp != d
      ensures Reg(ExecCode(m, code, st).env, d) ==
        if base == 8 then m.load(st.world, Reg(st.env, Phys(8)) + offset) else Reg(st.env, Phys(base)) + offset
    {
      CopyRuns(m, d, Local(offset, base), tmp, st);
    }
  }

  lemma ClassedConcat(p: seq<Instr>, q: seq<Instr>)
    ensures CodeClassed(p + q) <==> CodeClassed(p) && CodeClassed(q)
  {
    hide WellClassed;
    if CodeClassed(p + q) {
      assert forall k :: 0 <= k < |p| ==> p[k] == (p + q)[k];
      assert forall k :: 0 <= k < |q| ==> q[k] == (p + q)[|p| + k];
    }
  }

  /** The copies of an edge are well-classed exactly if all its operands fit. */
  lemma {:induction false} CopiesClassedIff(code: seq<Instr>, all: seq<Phi>, n: nat, from: BlockId,
                                            temps: map<Operand, Operand>, lo: nat)
    requires n <= |all| && CopiesFor(code, all[..n], from, temps, lo)
    requires TempsFit(temps, all, lo) && forall i :: 0 <= i < |all| ==> all[i].rd.Virt?
    ensures CodeClassed(code) <==> PhisFitClass(all[..n], from)
    decreases n
  {
    if n > 0 {
      var pre, seg, tmp := LastCopy(code, all, n - 1, from, temps, lo);
      hide CopiesFor, CopyCode, WellClassed, FitsClass;
      CopiesClassedIff(pre, all, n - 1, from, temps, lo);
      ClassedConcat(pre, seg);
      var d, src := Dst(temps, all[n - 1].rd), Source(all[n - 1].incoming, from);
      CopyClassedIff(d, src, tmp);
      SameClassFits(d, all[n - 1].rd, src) by {
        hide InConflict;
        assert TempsFit(temps, all, lo);
      }
      assert all[..n][..n - 1] == all[..n - 1] && all[..n][n - 1] == all[n - 1];
      LastFits(all[..n], from);
    }
  }

  lemma SameClassFits(d: Operand, e: Operand, src: Operand)
    requires d.Virt? && e.Virt? && d.isFloat == e.isFloat
    ensures FitsClass(d, src) <==> FitsClass(e, src)
  {
  }

  lemma LastFits(phis: seq<Phi>, from: BlockId)
    requires phis != []
    ensures var n := |phis| - 1;
      PhisFitClass(phis, from) <==>
        PhisFitClass(phis[..n], from) && FitsClass(phis[n].rd, Source(phis[n].incoming, from))
  {
    hide FitsClass, Source;
  }

  lemma HeadsClassed(heads: seq<Instr>, temps: map<Operand, Operand>)
    requires HeadsFor(heads, temps)
    requires forall o :: o in temps ==> o.Virt? && temps[o].Virt? && temps[o].isFloat == o.isFloat
    ensures CodeClassed(heads)
  {
    forall k | 0 <= k < |heads| ensures WellClassed(heads[k]) {
      assert IsHead(heads[k], temps);
    }
  }

  /** After eliminating the phis of one block, the code is well-classed exactly if it was before and all
      operands of these phis fit. */
  lemma EliminationClassedIff(f: Function, f': Function, s: BlockId, e: Elim)
    requires ValidFunction(f) && Eliminated(f, f', s, e)
    ensures AllClassed(f') <==> AllClassed(f) && EdgesFitClass(f, s)
  {
    hide ValidFunction, CodeClassed, CopiesFor, TempsFit, HeadsFor, NewBlock;
    ElimHeadsClassed(f, f', s, e);
    forall p | p in f.g.pred[s] ensures CodeClassed(e.copies[p]) <==> PhisFitClass(f.blocks[s].phis, p) {
      EdgeClassedIff(f, f', s, e, p);
    }
    hide PhisFitClass;
    forall b | b in f.blocks
      ensures b in f'.blocks
      ensures CodeClassed(f'.blocks[b].code) <==>
        CodeClassed(f.blocks[b].code) && (RunsCopies(f, s, e, b) ==> PhisFitClass(f.blocks[s].phis, b))
    {
      BlockClassedIff(f, f', s, e, b);
    }
    forall p | p in e.splits
      ensures e.splits[p] in f'.blocks && p in f.g.pred[s]
      ensures CodeClassed(f'.blocks[e.splits[p]].code) <==> PhisFitClass(f.blocks[s].phis, p)
    {
      SplitIsEdge(f, f', s, e, p);
    }
    EveryEdgeRuns(f, f', s, e);
    hide Eliminated, RunsCopies;
    if AllClassed(f') {
      forall p | p in f.g.pred[s] ensures PhisFitClass(f.blocks[s].phis, p) {
        if p in e.splits {
          assert e.splits[p] in f'.blocks;
        } else {
          assert p in f.blocks && p in f'.blocks;
        }
      }
    }
    if AllClassed(f) && EdgesFitClass(f, s) {
      forall b | b in f'.blocks ensures CodeClassed(f'.blocks[b].code) {
        if b !in f.blocks {
          var p :| p in e.splits && e.splits[p] == b;
        }
      }
    }
  }

  lemma ElimHeadsClassed(f: Function, f': Function, s: BlockId, e: Elim)
    requires ValidFunction(f) && Eliminated(f, f', s, e)
    ensures CodeClassed(e.heads)
  {
    hide ValidFunction, CopiesFor, HeadsFor, BlockBecomes, NewBlock, CodeClassed, TempsFit;
    assert TempsFit(e.temps, f.blocks[s].phis, f.nextReg) && HeadsFor(e.heads, e.temps);
    TempClasses(e.temps, f.blocks[s].phis, f.nextReg);
    HeadsClassed(e.heads, e.temps);
  }

  lemma TempClasses(temps: map<Operand, Operand>, phis: seq<Phi>, lo: nat)
    requires TempsFit(temps, phis, lo)
    ensures forall o :: o in temps ==> o.Virt? && temps[o].Virt? && temps[o].isFloat == o.isFloat
  {
    hide InConflict;
  }

  lemma EdgeClassedIff(f: Function, f': Function, s: BlockId, e: Elim, p: BlockId)
    requires ValidFunction(f) && Eliminated(f, f', s, e) && p in f.g.pred[s]
    ensures p in e.copies && (CodeClassed(e.copies[p]) <==> PhisFitClass(f.blocks[s].phis, p))
  {
    hide HeadsFor, BlockBecomes, NewBlock, CodeClassed, TempsFit, CopiesFor;
    var phis := f.blocks[s].phis;
    assert BlockFits(f, s);
    assert phis[..|phis|] == phis;
    assert forall i :: 0 <= i < |phis| ==> PhiBelow(phis[i], f.nextReg);
    CopiesClassedIff(e.copies[p], phis, |phis|, p, e.temps, f.nextReg);
  }

  lemma BlockClassedIff(f: Function, f': Function, s: BlockId, e: Elim, b: BlockId)
    requires Eliminated(f, f', s, e) && CodeClassed(e.heads) && b in f.blocks
    requires forall p :: p in f.g.pred[s] ==>
      p in e.copies && (CodeClassed(e.copies[p]) <==> PhisFitClass(f.blocks[s].phis, p))
    ensures b in f'.blocks
    ensures CodeClassed(f'.blocks[b].code) <==>
      CodeClassed(f.blocks[b].code) && (RunsCopies(f, s, e, b) ==> PhisFitClass(f.blocks[s].phis, b))
  {
    hide HeadsFor, NewBlock, CodeClassed, TempsFit, CopiesFor, PhisFitClass;
    assert BlockBecomes(f, f', s, e, b);
    var heads := if b == s then e.heads else [];
    NoneClassed();
    ClassedConcat(heads, f.blocks[b].code);
    ClassedConcat(heads + f.blocks[b].code, TailOf(f, s, e, b));
  }

  lemma NoneClassed()
    ensures CodeClassed([])
  {
  }

  lemma SplitIsEdge(f: Function, f': Function, s: BlockId, e: Elim, p: BlockId)
    requires ValidFunction(f) && Eliminated(f, f', s, e) && p in e.splits
    requires forall p :: p in f.g.pred[s] ==>
      p in e.copies && (CodeClassed(e.copies[p]) <==> PhisFitClass(f.blocks[s].phis, p))
    ensures e.splits[p] in f'.blocks && p in f.g.pred[s]
    ensures CodeClassed(f'.blocks[e.splits[p]].code) <==> PhisFitClass(f.blocks[s].phis, p)
  {
    hide HeadsFor, CodeClassed, TempsFit, CopiesFor, PhisFitClass, BlockBecomes;
    assert NewBlock(f, f', s, e, p);
  }

  /** An edge that is not split runs its copies in the predecessor. */
  lemma EveryEdgeRuns(f: Function, f': Function, s: BlockId, e: Elim)
    requires ValidFunction(f) && Eliminated(f, f', s, e)
    ensures s in f.blocks && s in f.g.pred
    ensures forall p :: p in f.g.pred[s] ==> p in f.blocks && (p in e.splits || RunsCopies(f, s, e, p))
    ensures forall b :: b in f.blocks && RunsCopies(f, s, e, b) ==> b in f.g.pred[s]
    ensures forall b :: b in f'.blocks ==> b in f.blocks || exists p :: p in e.splits && e.splits[p] == b
  {
    hide HeadsFor, TempsFit, CopiesFor, BlockBecomes, NewBlock, BlockFits;
  }

  /** The other blocks' phis have the same operands on the same edges. */
  lemma OthersFitClass(f: Function, f': Function, s: BlockId)
    requires s in f.blocks && s in f'.blocks && f'.blocks[s].phis == []
    requires forall b :: b in f.blocks ==> b in f'.blocks && (b != s ==> f'.blocks[b].phis == f.blocks[b].phis)
    requires forall b :: b in f'.blocks && b !in f.blocks ==> f'.blocks[b].phis == []
    requires forall b :: b in f.blocks && b != s ==>
      (b in f'.g.pred <==> b in f.g.pred) && (b in f.g.pred ==> f'.g.pred[b] == f.g.pred[b])
    ensures AllEdgesFitClass(f) <==> EdgesFitClass(f, s) && AllEdgesFitClass(f')
  {
    hide FitsClass;
    forall b | b in f.blocks && b != s ensures EdgesFitClass(f, b) <==> EdgesFitClass(f', b) {
    }
    forall b | b in f'.blocks && (b == s || b !in f.blocks) ensures EdgesFitClass(f', b) {
    }
  }
}
