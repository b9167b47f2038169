/** The control flow graph that statements are lowered to, certificates that say where the code of a
    statement is, and the proof that certified code does what the statement means. */
module LoweredCode {
  import opened StructuredProgram

  type BlockId = nat

  datatype Instr =
    | EvalAtom(dst: nat, id: nat)
    | Compute(dst: nat, op: nat, lhs: nat, rhs: nat)
    | SetSlot(slot: nat, flag: int)
    | GetSlot(dst: nat, slot: nat)
    | Store(address: nat, value: nat)
    | StoreReturn(value: nat)
    | Branch(cond: nat, thenBlock: BlockId, elseBlock: BlockId)
    | Jump(target: BlockId)
    | Ret

  predicate IsTerminator(ins: Instr) {
    ins.Branch? || ins.Jump? || ins.Ret?
  }

  /** The instructions of every block, and where blocks that have no terminator yet will fall through. */
  datatype Code = Code(blocks: map<BlockId, seq<Instr>>, falls: map<BlockId, BlockId>)

  datatype Pos = Pos(b: BlockId, i: nat)

  predicate At(c: Code, p: Pos, ins: Instr) {
    && p.b in c.blocks
    && (if p.i < |c.blocks[p.b]| then c.blocks[p.b][p.i] == ins
        else p.i == |c.blocks[p.b]| && p.b in c.falls && ins == Jump(c.falls[p.b]))
  }

  /** Every instruction stays where it is. */
  ghost predicate Grows(c: Code, d: Code) {
    forall p, ins :: At(c, p, ins) ==> At(d, p, ins)
  }

  function Next(p: Pos): Pos {
    Pos(p.b, p.i + 1)
  }

  // ----- running -----

  datatype Memory = Memory(regs: map<nat, int>, slots: map<nat, int>, s: State)

  function Get(m: map<nat, int>, k: nat): int {
    if k in m then m[k] else 0
  }

  datatype Config = Running(p: Pos, mem: Memory) | Finished(mem: Memory)

  function Step1(m: Machine, ins: Instr, p: Pos, mem: Memory): Config {
    match ins
    case EvalAtom(d, id) =>
      Running(Next(p), mem.(regs := mem.regs[d := m.value(id, mem.s.world)],
                            s := mem.s.(world := m.effect(id, mem.s.world), trace := mem.s.trace + [id])))
    case Compute(d, op, a, b) => Running(Next(p), mem.(regs := mem.regs[d := m.op(op, Get(mem.regs, a),
        Get(mem.regs, b))]))
    case SetSlot(slot, v) => Running(Next(p), mem.(slots := mem.slots[slot := v]))
    case GetSlot(d, slot) => Running(Next(p), mem.(regs := mem.regs[d := Get(mem.slots, slot)]))
    case Store(a, v) => Running(Next(p), mem.(s := mem.s.(world := m.store(Get(mem.regs, a), Get(mem.regs, v),
        mem.s.world))))
    case StoreReturn(v) => Running(Next(p), mem.(s := mem.s.(ret := Get(mem.regs, v))))
    case Branch(c, t, e) => Running(Pos(if Get(mem.regs, c) != 0 then t else e, 0), mem)
    case Jump(t) => Running(Pos(t, 0), mem)
    case Ret => Finished(mem)
  }

  predicate HasInstr(c: Code, p: Pos) {
    p.b in c.blocks && (p.i < |c.blocks[p.b]| || (p.i == |c.blocks[p.b]| && p.b in c.falls))
  }

  /** One instruction; running off the end of a block stays there. */
  function Step(m: Machine, c: Code, cfg: Config): Config {
    match cfg
    case Finished(_) => cfg
    case Running(p, mem) =>
      if !HasInstr(c, p) then cfg
      else Step1(m, if p.i < |c.blocks[p.b]| then c.blocks[p.b][p.i] else Jump(c.falls[p.b]), p, mem)
  }

  function Steps(m: Machine, c: Code, n: nat, cfg: Config): Config {
    if n == 0 then cfg else Step(m, c, Steps(m, c, n - 1, cfg))
  }

  lemma {:induction false} StepsAdd(m: Machine, c: Code, a: nat, b: nat, cfg: Config)
    ensures Steps(m, c, a + b, cfg) == Steps(m, c, b, Steps(m, c, a, cfg))
  {
    if b > 0 {
      StepsAdd(m, c, a, b - 1, cfg);
    }
  }

  lemma {:induction false} FinishedStays(m: Machine, c: Code, n: nat, mem: Memory)
    ensures Steps(m, c, n, Finished(mem)) == Finished(mem)
  {
    if n > 0 {
      FinishedStays(m, c, n - 1, mem);
    }
  }

  lemma StepAt(m: Machine, c: Code, p: Pos, ins: Instr, mem: Memory)
    requires At(c, p, ins)
    ensures Step(m, c, Running(p, mem)) == Step1(m, ins, p, mem)
    ensures Steps(m, c, 1, Running(p, mem)) == Step1(m, ins, p, mem)
  {
    assert Steps(m, c, 0, Running(p, mem)) == Running(p, mem);
  }

  // ----- certificates for expressions -----

  /** Where the code of an expression is: its start, the register of its result, and for short circuits
      the four blocks and the slot of the result. Registers and slots written are from `lo` up to `hi`. */
  datatype ExprCode =
    | AtomCode(start: Pos, dst: nat)
    | OpCode(l: ExprCode, r: ExprCode, dst: nat)
    | ShortCode(l: ExprCode, r: ExprCode, rhsBlock: BlockId, trueBlock: BlockId, falseBlock: BlockId,
        tailBlock: BlockId, slot: nat, dst: nat)

  function StartOf(k: ExprCode): Pos {
    match k
    case AtomCode(p, _) => p
    case OpCode(l, _, _) => StartOf(l)
    case ShortCode(l, _, _, _, _, _, _, _) => StartOf(l)
  }

  function EndOf(k: ExprCode): Pos {
    match k
    case AtomCode(p, _) => Next(p)
    case OpCode(_, r, _) => Next(EndOf(r))
    case ShortCode(_, _, _, _, _, tl, _, _) => Pos(tl, 1)
  }

  ghost predicate ExprAt(c: Code, e: Expr, k: ExprCode, lo: nat, hi: nat)
    decreases e
  {
    && lo <= k.dst < hi
    && match e {
         case Atom(id) => k.AtomCode? && At(c, k.start, EvalAtom(k.dst, id))
         case Op(op, l, r) => (
           && k.OpCode? && StartOf(k.r) == EndOf(k.l) && At(c, EndOf(k.r), Compute(k.dst, op, k.l.dst, k.r.dst))
           && exists mid: nat :: lo <= mid <= k.dst && ExprAt(c, l, k.l, lo, mid) && ExprAt(c, r, k.r, mid, k.dst))
         case And(l, r) => (
           && ShortAt(c, k, lo) && At(c, EndOf(k.l), Branch(k.l.dst, k.rhsBlock, k.falseBlock))
           && exists mid: nat :: k.slot < mid <= k.dst && ExprAt(c, l, k.l, k.slot + 1, mid)
               && ExprAt(c, r, k.r, mid, k.dst))
         case Or(l, r) => (
           && ShortAt(c, k, lo) && At(c, EndOf(k.l), Branch(k.l.dst, k.trueBlock, k.rhsBlock))
           && exists mid: nat :: k.slot < mid <= k.dst && ExprAt(c, l, k.l, k.slot + 1, mid)
               && ExprAt(c, r, k.r, mid, k.dst))
       }
  }

  /** What both short-circuit operators have in common. */
  predicate ShortAt(c: Code, k: ExprCode, lo: nat) {
    && k.ShortCode? && lo <= k.slot && StartOf(k.r) == Pos(k.rhsBlock, 0)
    && At(c, EndOf(k.r), Branch(k.r.dst, k.trueBlock, k.falseBlock))
    && At(c, Pos(k.trueBlock, 0), SetSlot(k.slot, 1)) && At(c, Pos(k.trueBlock, 1), Jump(k.tailBlock))
    && At(c, Pos(k.falseBlock, 0), SetSlot(k.slot, 0)) && At(c, Pos(k.falseBlock, 1), Jump(k.tailBlock))
    && At(c, Pos(k.tailBlock, 0), GetSlot(k.dst, k.slot))
  }

  lemma {:induction false} ExprGrows(c: Code, d: Code, e: Expr, k: ExprCode, lo: nat, hi: nat)
    requires ExprAt(c, e, k, lo, hi) && Grows(c, d)
    ensures ExprAt(d, e, k, lo, hi)
    decreases e
  {
    hide At;
    match e
    case Atom(_) =>
    case Op(_, l, r) =>
      var mid: nat :| lo <= mid <= k.dst && ExprAt(c, l, k.l, lo, mid) && ExprAt(c, r, k.r, mid, k.dst);
      ExprGrows(c, d, l, k.l, lo, mid);
      ExprGrows(c, d, r, k.r, mid, k.dst);
    case And(l, r) =>
      var mid: nat :| k.slot < mid <= k.dst && ExprAt(c, l, k.l, k.slot + 1, mid) && ExprAt(c, r, k.r, mid, k.dst);
      ExprGrows(c, d, l, k.l, k.slot + 1, mid);
      ExprGrows(c, d, r, k.r, mid, k.dst);
    case Or(l, r) =>
      var mid: nat :| k.slot < mid <= k.dst && ExprAt(c, l, k.l, k.slot + 1, mid) && ExprAt(c, r, k.r, mid, k.dst);
      ExprGrows(c, d, l, k.l, k.slot + 1, mid);
      ExprGrows(c, d, r, k.r, mid, k.dst);
  }

  // ----- certified expressions compute -----

  /** The run ends at `q` with the value in `dst`, the state `s`, and the registers below `lo` as they were. */
  ghost predicate Computed(from: Memory, cfg: Config, q: Pos, dst: nat, v: int, s: State, lo: nat) {
    && cfg.Running? && cfg.p == q && cfg.mem.s == s && Get(cfg.mem.regs, dst) == v
    && forall r: nat :: r < lo ==> Get(cfg.mem.regs, r) == Get(from.regs, r)
  }

  lemma {:induction false} ExprRuns(m: Machine, c: Code, e: Expr, k: ExprCode, lo: nat, hi: nat, mem: Memory)
    returns (n: nat)
    requires ExprAt(c, e, k, lo, hi)
    ensures n > 0 && Computed(mem, Steps(m, c, n, Running(StartOf(k), mem)), EndOf(k), k.dst, Eval(m, e, mem.s).0,
        Eval(m, e, mem.s).1, lo)
    decreases e, 1
  {
    hide At, Steps;
    match e
    case Atom(id) =>
      n := 1;
      StepAt(m, c, k.start, EvalAtom(k.dst, id), mem);
    case Op(op, l, r) =>
      var mid: nat :| lo <= mid <= k.dst && ExprAt(c, l, k.l, lo, mid) && ExprAt(c, r, k.r, mid, k.dst);
      hide Computed, Eval, ExprAt;
      n := OpRuns(m, c, e, k, lo, mid, mem);
    case And(l, r) =>
      var mid: nat :| k.slot < mid <= k.dst && ExprAt(c, l, k.l, k.slot + 1, mid) && ExprAt(c, r, k.r, mid, k.dst);
      hide Computed, Eval, ExprAt;
      n := ShortRuns(m, c, e, k, lo, mid, mem);
    case Or(l, r) =>
      var mid: nat :| k.slot < mid <= k.dst && ExprAt(c, l, k.l, k.slot + 1, mid) && ExprAt(c, r, k.r, mid, k.dst);
      hide Computed, Eval, ExprAt;
      n := ShortRuns(m, c, e, k, lo, mid, mem);
  }

  lemma {:induction false} OpRuns(m: Machine, c: Code, e: Expr, k: ExprCode, lo: nat, mid: nat, mem: Memory)
    returns (n: nat)
    requires e.Op? && k.OpCode? && StartOf(k.r) == EndOf(k.l) && At(c, EndOf(k.r),
        Compute(k.dst, e.op, k.l.dst, k.r.dst))
    requires lo <= mid <= k.dst && ExprAt(c, e.lhs, k.l, lo, mid) && ExprAt(c, e.rhs, k.r, mid, k.dst)
    ensures n > 0 && Computed(mem, Steps(m, c, n, Running(StartOf(k), mem)), EndOf(k), k.dst, Eval(m, e, mem.s).0,
        Eval(m, e, mem.s).1, lo)
    decreases e, 0
  {
    hide At, Steps, ExprAt;
    var start := Running(StartOf(k.l), mem);
    var n1 := ExprRuns(m, c, e.lhs, k.l, lo, mid, mem);
    var c1 := Steps(m, c, n1, start);
    var n2 := ExprRuns(m, c, e.rhs, k.r, mid, k.dst, c1.mem);
    var c2 := Steps(m, c, n2, c1);
    StepsAdd(m, c, n1, n2, start);
    StepAt(m, c, EndOf(k.r), Compute(k.dst, e.op, k.l.dst, k.r.dst), c2.mem);
    StepsAdd(m, c, n1 + n2, 1, start);
    n := n1 + n2 + 1;
    ExprDst(c, e.lhs, k.l, lo, mid);
    assert Get(c2.mem.regs, k.l.dst) == Get(c1.mem.regs, k.l.dst);
  }

  lemma ExprDst(c: Code, e: Expr, k: ExprCode, lo: nat, hi: nat)
    requires ExprAt(c, e, k, lo, hi)
    ensures lo <= k.dst < hi
  {
  }

  /** From either result block to the end: the slot's value arrives in the result register. */
  lemma ShortEnds(m: Machine, c: Code, k: ExprCode, lo: nat, b: BlockId, v: int, mem: Memory)
    requires k.ShortCode? && At(c, Pos(b, 0), SetSlot(k.slot, v)) && At(c, Pos(b, 1), Jump(k.tailBlock))
    requires At(c, Pos(k.tailBlock, 0), GetSlot(k.dst, k.slot)) && lo <= k.dst
    ensures Computed(mem, Steps(m, c, 3, Running(Pos(b, 0), mem)), Pos(k.tailBlock, 1), k.dst, v, mem.s, lo)
  {
    hide At, Steps;
    var c0 := Running(Pos(b, 0), mem);
    StepAt(m, c, Pos(b, 0), SetSlot(k.slot, v), mem);
    var c1 := Steps(m, c, 1, c0);
    StepAt(m, c, Pos(b, 1), Jump(k.tailBlock), c1.mem);
    StepsAdd(m, c, 1, 1, c0);
    var c2 := Steps(m, c, 2, c0);
    StepAt(m, c, Pos(k.tailBlock, 0), GetSlot(k.dst, k.slot), c2.mem);
    StepsAdd(m, c, 2, 1, c0);
  }

  function LeftBranch(e: Expr, k: ExprCode): Instr
    requires k.ShortCode?
  {
    if e.And? then Branch(k.l.dst, k.rhsBlock, k.falseBlock) else Branch(k.l.dst, k.trueBlock, k.rhsBlock)
  }

  /** The left operand decides alone, or the right one is evaluated. */
  predicate Decides(e: Expr, v: int) {
    if e.And? then v == 0 else v != 0
  }

  lemma {:induction false} ShortRuns(m: Machine, c: Code, e: Expr, k: ExprCode, lo: nat, mid: nat, mem: Memory)
    returns (n: nat)
    requires (e.And? || e.Or?) && ShortAt(c, k, lo) && At(c, EndOf(k.l), LeftBranch(e, k))
    requires k.slot < mid <= k.dst && ExprAt(c, e.lhs, k.l, k.slot + 1, mid) && ExprAt(c, e.rhs, k.r, mid, k.dst)
    ensures n > 0 && Computed(mem, Steps(m, c, n, Running(StartOf(k), mem)), EndOf(k), k.dst, Eval(m, e, mem.s).0,
        Eval(m, e, mem.s).1, lo)
    decreases e, 0
  {
    hide At, Steps, ExprAt;
    var start := Running(StartOf(k.l), mem);
    var n1 := ExprRuns(m, c, e.lhs, k.l, k.slot + 1, mid, mem);
    var c1 := Steps(m, c, n1, start);
    StepAt(m, c, EndOf(k.l), LeftBranch(e, k), c1.mem);
    StepsAdd(m, c, n1, 1, start);
    if Decides(e, Eval(m, e.lhs, mem.s).0) {
      var b := if e.And? then k.falseBlock else k.trueBlock;
      ShortEnds(m, c, k, lo, b, Truth(e.Or?), c1.mem);
      StepsAdd(m, c, n1 + 1, 3, start);
      n := n1 + 1 + 3;
    } else {
      var n2 := RightRuns(m, c, e, k, lo, mid, c1.mem);
      StepsAdd(m, c, n1 + 1, n2, start);
      n := n1 + 1 + n2;
    }
  }

  /** The right operand and the rest, from its block. */
  lemma {:induction false} RightRuns(m: Machine, c: Code, e: Expr, k: ExprCode, lo: nat, mid: nat, mem: Memory)
    returns (n: nat)
    requires (e.And? || e.Or?) && ShortAt(c, k, lo) && k.slot < mid <= k.dst && ExprAt(c, e.rhs, k.r, mid, k.dst)
    ensures Computed(mem, Steps(m, c, n, Running(Pos(k.rhsBlock, 0), mem)), EndOf(k), k.dst,
                     Truth(Eval(m, e.rhs, mem.s).0 != 0), Eval(m, e.rhs, mem.s).1, lo)
    decreases e.rhs, 2
  {
    hide At, Steps, ExprAt;
    var start := Running(Pos(k.rhsBlock, 0), mem);
    var n2 := ExprRuns(m, c, e.rhs, k.r, mid, k.dst, mem);
    var c2 := Steps(m, c, n2, start);
    var w := Eval(m, e.rhs, mem.s).0;
    StepAt(m, c, EndOf(k.r), Branch(k.r.dst, k.trueBlock, k.falseBlock), c2.mem);
    StepsAdd(m, c, n2, 1, start);
    var b := if w != 0 then k.trueBlock else k.falseBlock;
    ShortEnds(m, c, k, lo, b, Truth(w != 0), c2.mem);
    StepsAdd(m, c, n2 + 1, 3, start);
    n := n2 + 1 + 3;
  }
}
