/** The intermediate representation that `Mem2reg` transforms, and what running it along a path of
    the control flow graph means. Values and the rest of the world (memory that is not promoted,
    input, output) are opaque: every instruction that stays in the program is an arbitrary function of
    its inputs and the world. */
module SsaProgram {
  import opened ControlFlowGraph

  /** An operand: a local or named constant, or the zero constant the pass itself fetches. */
  datatype Operand = Id(n: nat) | Zero(isFloat: bool)

  datatype Type = IntType | FloatType | PointerType | ArrayType

  datatype Instr =
    | Alloca(dst: Operand, ty: Type)
    | Load(dst: Operand, ptr: Operand)
    | Store(value: Operand, ptr: Operand)
    | Other(op: nat, dsts: seq<Operand>, srcs: seq<Operand>)

  /** A phi placed for `variable`; `srcs` maps each predecessor to the incoming operand. */
  datatype Phi = Phi(variable: Operand, dst: Operand, srcs: map<BlockId, Operand>)

  datatype Block = Block(phis: seq<Phi>, body: seq<Instr>)

  type Program = map<BlockId, Block>

  predicate Defines(ins: Instr, o: Operand) {
    match ins
    case Alloca(dst, _) => dst == o
    case Load(dst, _) => dst == o
    case Store(_, _) => false
    case Other(_, dsts, _) => o in dsts
  }

  predicate Uses(ins: Instr, o: Operand) {
    match ins
    case Alloca(_, _) => false
    case Load(_, ptr) => ptr == o
    case Store(value, ptr) => value == o || ptr == o
    case Other(_, _, srcs) => o in srcs
  }

  /** Loads, stores and the allocation of a promoted variable. */
  predicate Promoted(prom: set<Operand>, ins: Instr) {
    match ins
    case Alloca(dst, _) => dst in prom
    case Load(_, ptr) => ptr in prom
    case Store(_, ptr) => ptr in prom
    case Other(_, _, _) => false
  }

  // ----- running -----

  type Value = int
  type World = int

  datatype Kind = KAlloca(t: Type) | KLoad | KStore | KOther(op: nat)

  /** What one instruction that is not promoted shows to the outside: what it is and its inputs. */
  datatype Event = Event(kind: Kind, inputs: seq<Value>)

  datatype State = State(env: map<Operand, Value>, mem: map<Operand, Value>, world: World, trace: seq<Event>)

  /** Any meaning of the instructions: from an event and the world to the results and the new world. */
  type Semantics = (Event, World, nat) -> Value
  type Effects = (Event, World) -> World

  datatype Machine = Machine(results: Semantics, effects: Effects)

  function Val(env: map<Operand, Value>, o: Operand): Value {
    if o.Zero? || o !in env then 0 else env[o]
  }

  function Vals(env: map<Operand, Value>, os: seq<Operand>): (r: seq<Value>)
    ensures |r| == |os| && forall i :: 0 <= i < |os| ==> r[i] == Val(env, os[i])
  {
    if os == [] then [] else Vals(env, os[..|os| - 1]) + [Val(env, os[|os| - 1])]
  }

  function Assign(m: Machine, e: Event, w: World, dsts: seq<Operand>, env: map<Operand, Value>): map<Operand, Value> {
    if dsts == [] then env
    else Assign(m, e, w, dsts[..|dsts| - 1], env)[dsts[|dsts| - 1] := m.results(e, w, |dsts| - 1)]
  }

  function Happen(m: Machine, e: Event, dsts: seq<Operand>, st: State): State {
    State(Assign(m, e, st.world, dsts, st.env), st.mem, m.effects(e, st.world), st.trace + [e])
  }

  function Exec(m: Machine, prom: set<Operand>, ins: Instr, st: State): State {
    match ins
    case Alloca(dst, t) =>
      if dst in prom then st else Happen(m, Event(KAlloca(t), []), [dst], st)
    case Load(dst, ptr) =>
      if ptr in prom then st.(env := st.env[dst := if ptr in st.mem then st.mem[ptr] else 0])
      else Happen(m, Event(KLoad, [Val(st.env, ptr)]), [dst], st)
    case Store(value, ptr) =>
      if ptr in prom then st.(mem := st.mem[ptr := Val(st.env, value)])
      else Happen(m, Event(KStore, [Val(st.env, value), Val(st.env, ptr)]), [], st)
    case Other(op, dsts, srcs) =>
      Happen(m, Event(KOther(op), Vals(st.env, srcs)), dsts, st)
  }

  function ExecBody(m: Machine, prom: set<Operand>, body: seq<Instr>, st: State): State {
    if body == [] then st
    else Exec(m, prom, body[|body| - 1], ExecBody(m, prom, body[..|body| - 1], st))
  }

  /** The values the phis take, all at once, when the block is entered from `from`. */
  function PhiValues(phis: seq<Phi>, from: BlockId, env: map<Operand, Value>): (r: map<Operand, Value>)
    ensures forall i :: 0 <= i < |phis| ==> phis[i].dst in r
    ensures forall o :: o in r ==> exists i :: 0 <= i < |phis| && phis[i].dst == o
  {
    if phis == [] then map[]
    else
      var phi := phis[|phis| - 1];
      PhiValues(phis[..|phis| - 1], from, env)[phi.dst := if from in phi.srcs then Val(env, phi.srcs[from]) else 0]
  }

  function Enter(block: Block, from: BlockId, st: State): State {
    st.(env := st.env + PhiValues(block.phis, from, st.env))
  }

  /** The state when the last block of `path` has been entered, before its first instruction. */
  function Arrive(m: Machine, prom: set<Operand>, p: Program, path: seq<BlockId>, init: State): State
    requires |path| > 0 && forall b :: b in path ==> b in p
    decreases |path|, 0
  {
    if |path| == 1 then init
    else Enter(p[path[|path| - 1]], path[|path| - 2], Run(m, prom, p, path[..|path| - 1], init))
  }

  /** The state after all blocks of `path`. */
  function Run(m: Machine, prom: set<Operand>, p: Program, path: seq<BlockId>, init: State): State
    requires |path| > 0 && forall b :: b in path ==> b in p
    decreases |path|, 1
  {
    ExecBody(m, prom, p[path[|path| - 1]].body, Arrive(m, prom, p, path, init))
  }

  // ----- static single assignment -----

  /** Position `i` of block `b` comes before position `j` of block `c` in every run. */
  ghost predicate Before(g: Graph, b: BlockId, i: nat, c: BlockId, j: nat) {
    if b == c then i < j else Dominates(g, b, c)
  }

  /** Instruction `i` of block `b` exists. */
  predicate At(p: Program, b: BlockId, i: nat) {
    b in p && i < |p[b].body|
  }

  predicate PromotedLoad(prom: set<Operand>, ins: Instr) {
    ins.Load? && ins.ptr in prom
  }

  predicate PromotedStore(prom: set<Operand>, ins: Instr) {
    ins.Store? && ins.ptr in prom
  }

  /** `o` is the result of a promoted load. */
  ghost predicate IsLoadResult(p: Program, prom: set<Operand>, o: Operand) {
    exists b, i: nat :: At(p, b, i) && PromotedLoad(prom, p[b].body[i]) && p[b].body[i].dst == o
  }

  ghost predicate UniqueDefinitions(p: Program) {
    forall b, i: nat, c, j: nat, o :: At(p, b, i) && At(p, c, j) && Defines(p[b].body[i], o) && Defines(p[c].body[j], o)
        ==> b == c && i == j
  }

  ghost predicate DefinedBeforeUse(g: Graph, p: Program) {
    forall b, i: nat, c, j: nat, o :: At(p, b, i) && At(p, c, j) && Defines(p[b].body[i], o) && Uses(p[c].body[j], o)
        ==> Before(g, b, i, c, j)
  }

  /** A loaded pointer is not itself an address: only the value of a store can be a load result. */
  ghost predicate AddressesNotLoaded(p: Program, prom: set<Operand>) {
    forall b, i: nat :: At(p, b, i) && (p[b].body[i].Load? || p[b].body[i].Store?)
        ==> !IsLoadResult(p, prom, p[b].body[i].ptr)
  }

  /** What the pass may expect of its input. */
  ghost predicate SsaInput(g: Graph, p: Program, prom: set<Operand>) {
    && p.Keys == g.succ.Keys
    && (forall b :: b in p ==> p[b].phis == [])
    && UniqueDefinitions(p)
    && DefinedBeforeUse(g, p)
    && AddressesNotLoaded(p, prom)
    && (forall b, i: nat, o :: At(p, b, i) && Defines(p[b].body[i], o) ==> o.Id?)
  }
}
