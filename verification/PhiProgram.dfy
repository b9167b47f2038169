/** Machine code that still has phi instructions: blocks, branches, and what running it means. A phi
    takes, all at once with the other phis of its block, the value its operand has at the end of the
    predecessor control came from. */
module PhiProgram {
  import opened ControlFlowGraph

  /** Physical and virtual registers, immediates, globals, and stack locations off a physical register. */
  datatype Operand = Phys(n: nat) | Virt(id: nat,
      isFloat: bool) | Imm(value: int) | Global(id: nat) | Local(offset: int, base: nat)

  /** The frame pointer; an incoming stack argument is read through it. */
  const S0: nat := 8

  predicate IsRegister(o: Operand) {
    o.Phys? || o.Virt?
  }

  /** `Body` is any instruction of the program; the rest is what phi elimination inserts. `Mv` stays in one
      register class, `Fmv` goes from a general to a float register. */
  datatype Instr =
    | Body(op: nat, defs: seq<Operand>, uses: seq<Operand>)
    | Li(rd: Operand, imm: int)
    | La(rd: Operand, symbol: nat)
    | Mv(rd: Operand, rs: Operand)
    | Fmv(rd: Operand, rs: Operand)
    | AddI(rd: Operand, rs: Operand, imm: int)
    | Add(rd: Operand, rs1: Operand, rs2: Operand)
    | LoadD(rd: Operand, rs: Operand, imm: int)

  datatype Exit = Branch(op: nat, uses: seq<Operand>, target: BlockId) | Jump(target: BlockId)

  datatype Phi = Phi(rd: Operand, incoming: seq<(Operand, BlockId)>)

  /** The phis come first, the branches last. */
  datatype Block = Block(phis: seq<Phi>, code: seq<Instr>, exits: seq<Exit>)

  datatype Function = Function(g: Graph, blocks: map<BlockId, Block>, nextBlock: nat, nextReg: nat)

  // ----- running -----

  type Value = int
  type World = int

  datatype Event = Event(op: nat, inputs: seq<Value>)

  /** Any meaning of the instructions, the branches, the memory and the symbols. */
  datatype Machine = Machine(results: (Event, World, nat) -> Value, effects: (Event, World) -> World,
                             taken: (nat, seq<Value>) -> bool, load: (World, int) -> Value, address: nat -> Value)

  datatype State = State(env: map<Operand, Value>, world: World, trace: seq<Event>)

  function Reg(env: map<Operand, Value>, o: Operand): Value {
    if o in env then env[o] else 0
  }

  function Val(m: Machine, st: State, o: Operand): Value {
    match o
    case Imm(value) => value
    case Global(id) => m.address(id)
    case Local(offset, base) =>
      if base == S0 then m.load(st.world, Reg(st.env, Phys(base)) + offset) else Reg(st.env, Phys(base)) + offset
    case _ => Reg(st.env, o)
  }

  function Vals(m: Machine, st: State, os: seq<Operand>): (r: seq<Value>)
    ensures |r| == |os| && forall i :: 0 <= i < |os| ==> r[i] == Val(m, st, os[i])
  {
    if os == [] then [] else Vals(m, st, os[..|os| - 1]) + [Val(m, st, os[|os| - 1])]
  }

  function Assign(m: Machine, e: Event, w: World, defs: seq<Operand>, env: map<Operand, Value>): map<Operand, Value> {
    if defs == [] then env
    else Assign(m, e, w, defs[..|defs| - 1], env)[defs[|defs| - 1] := m.results(e, w, |defs| - 1)]
  }

  function Exec(m: Machine, ins: Instr, st: State): State {
    match ins
    case Body(op, defs, uses) =>
      var e := Event(op, Vals(m, st, uses));
      State(Assign(m, e, st.world, defs, st.env), m.effects(e, st.world), st.trace + [e])
    case Li(rd, imm) => st.(env := st.env[rd := imm])
    case La(rd, symbol) => st.(env := st.env[rd := m.address(symbol)])
    case Mv(rd, rs) => st.(env := st.env[rd := Val(m, st, rs)])
    case Fmv(rd, rs) => st.(env := st.env[rd := Val(m, st, rs)])
    case AddI(rd, rs, imm) => st.(env := st.env[rd := Val(m, st, rs) + imm])
    case Add(rd, rs1, rs2) => st.(env := st.env[rd := Val(m, st, rs1) + Val(m, st, rs2)])
    case LoadD(rd, rs, imm) => st.(env := st.env[rd := m.load(st.world, Val(m, st, rs) + imm)])
  }

  function ExecCode(m: Machine, code: seq<Instr>, st: State): State {
    if code == [] then st else Exec(m, code[|code| - 1], ExecCode(m, code[..|code| - 1], st))
  }

  lemma {:induction false} ExecConcat(m: Machine, p: seq<Instr>, q: seq<Instr>, st: State)
    ensures ExecCode(m, p + q, st) == ExecCode(m, q, ExecCode(m, p, st))
  {
    if q == [] {
      assert p + q == p;
    } else {
      ExecConcat(m, p, q[..|q| - 1], st);
      assert (p + q)[..|p + q| - 1] == p + q[..|q| - 1];
    }
  }

  /** The operand a phi takes when control comes from `from`. */
  function Source(incoming: seq<(Operand, BlockId)>, from: BlockId): Operand {
    if incoming == [] then Imm(0)
    else if incoming[|incoming| - 1].1 == from then incoming[|incoming| - 1].0
    else Source(incoming[..|incoming| - 1], from)
  }

  /** All phis at once: every operand is read before any result is written. */
  function PhiEnv(m: Machine, phis: seq<Phi>, from: BlockId, st: State): map<Operand, Value> {
    if phis == [] then st.env
    else
      var phi := phis[|phis| - 1];
      PhiEnv(m, phis[..|phis| - 1], from, st)[phi.rd := Val(m, st, Source(phi.incoming, from))]
  }

  function Enter(m: Machine, phis: seq<Phi>, from: BlockId, st: State): State {
    st.(env := PhiEnv(m, phis, from, st))
  }

  /** The first branch that is taken decides; the last exit is a jump. */
  function Target(m: Machine, exits: seq<Exit>, st: State): BlockId
    requires exits != []
  {
    if |exits| == 1 || exits[0].Jump? || m.taken(exits[0].op, Vals(m, st, exits[0].uses)) then exits[0].target
    else Target(m, exits[1..], st)
  }

  /** About to run the code of a block, its phis done; or finished. */
  datatype Config = AtBlock(b: BlockId, st: State) | Done(st: State)

  function Step(m: Machine, f: Function, c: Config): Config {
    match c
    case Done(_) => c
    case AtBlock(b, st) =>
      if b !in f.blocks then Done(st)
      else
        var st1 := ExecCode(m, f.blocks[b].code, st);
        if f.blocks[b].exits == [] then Done(st1)
        else
          var t := Target(m, f.blocks[b].exits, st1);
          AtBlock(t, if t in f.blocks then Enter(m, f.blocks[t].phis, b, st1) else st1)
  }

  /** The configuration after `n` blocks. */
  function RunFor(m: Machine, f: Function, n: nat, init: State): Config {
    if n == 0 then AtBlock(f.g.entry, init) else Step(m, f, RunFor(m, f, n - 1, init))
  }

  // ----- well-formed functions -----

  /** Registers numbered below `limit`, or no virtual register at all. */
  predicate Below(o: Operand, limit: nat) {
    o.Virt? ==> o.id < limit
  }

  predicate InstrBelow(ins: Instr, limit: nat) {
    match ins
    case Body(_, defs, uses) => (forall o :: o in defs ==> Below(o, limit) && IsRegister(o))
        && (forall o :: o in uses ==> Below(o, limit))
    case Li(rd, _) => Below(rd, limit) && IsRegister(rd)
    case La(rd, _) => Below(rd, limit) && IsRegister(rd)
    case Mv(rd, rs) => Below(rd, limit) && IsRegister(rd) && Below(rs, limit)
    case Fmv(rd, rs) => Below(rd, limit) && IsRegister(rd) && Below(rs, limit)
    case AddI(rd, rs, _) => Below(rd, limit) && IsRegister(rd) && Below(rs, limit)
    case Add(rd, rs1, rs2) => Below(rd, limit) && IsRegister(rd) && Below(rs1, limit) && Below(rs2, limit)
    case LoadD(rd, rs, _) => Below(rd, limit) && IsRegister(rd) && Below(rs, limit)
  }

  predicate CodeBelow(code: seq<Instr>, limit: nat) {
    forall k :: 0 <= k < |code| ==> InstrBelow(code[k], limit)
  }

  predicate ExitsBelow(exits: seq<Exit>, limit: nat) {
    forall k :: 0 <= k < |exits| && exits[k].Branch? ==> forall o :: o in exits[k].uses ==> Below(o, limit)
  }

  predicate PhiBelow(phi: Phi, limit: nat) {
    phi.rd.Virt? && phi.rd.id < limit && forall k :: 0 <= k < |phi.incoming| ==> Below(phi.incoming[k].0, limit)
  }

  predicate BlockBelow(b: Block, limit: nat) {
    CodeBelow(b.code, limit) && ExitsBelow(b.exits, limit) && forall k ::
        0 <= k < |b.phis|
        ==> PhiBelow(b.phis[k], limit)
  }

  function Targets(exits: seq<Exit>): set<BlockId> {
    set k | 0 <= k < |exits| :: exits[k].target
  }

  predicate DistinctTargets(exits: seq<Exit>) {
    forall i, j :: 0 <= i < j < |exits| ==> exits[i].target != exits[j].target
  }

  /** One operand per predecessor in every phi, and no register defined twice. */
  ghost predicate PhisFit(phis: seq<Phi>, preds: set<BlockId>) {
    && (forall i, j :: 0 <= i < j < |phis| ==> phis[i].rd != phis[j].rd)
    && (forall i :: 0 <= i < |phis| ==> OperandPerPred(phis[i].incoming, preds))
  }

  ghost predicate OperandPerPred(incoming: seq<(Operand, BlockId)>, preds: set<BlockId>) {
    && (forall k, l :: 0 <= k < l < |incoming| ==> incoming[k].1 != incoming[l].1)
    && (forall p :: p in preds ==> exists k :: 0 <= k < |incoming| && incoming[k].1 == p)
  }

  /** The edges are those the branches make, and no two branches of a block that has a choice go to
      the same block. */
  ghost predicate BlockFits(f: Function, b: BlockId)
    requires b in f.blocks && b in f.g.succ && b in f.g.pred
  {
    && b < f.nextBlock
    && f.g.succ[b] == Targets(f.blocks[b].exits)
    && (|f.g.succ[b]| > 1 ==> DistinctTargets(f.blocks[b].exits))
    && PhisFit(f.blocks[b].phis, f.g.pred[b])
    && BlockBelow(f.blocks[b], f.nextReg)
  }

  ghost predicate ValidFunction(f: Function) {
    && WellFormed(f.g) && f.blocks.Keys == f.g.succ.Keys
    && (forall b :: b in f.blocks ==> b in f.g.succ && b in f.g.pred && BlockFits(f, b))
    && f.blocks[f.g.entry].phis == []
  }
}
