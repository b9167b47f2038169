/** Code after register allocation: every instruction becomes the reloads it needs, itself over
    physical registers, and the store of a spilled result. What running it means, and what one such
    group does. */
module AllocatedCode {
  import opened ControlFlowGraph
  import opened AsmProgram
  import opened BackendRegisters

  // ----- registers with a fixed role -----

  const SP := Physical(General(2))
  const T0 := General(5)
  const T1 := General(6)
  const FT0 := Float(0)
  const FT1 := Float(1)
  const FT2 := Float(2)
  const SPILL_GENERAL := [T0, T1]
  const SPILL_FLOAT := [FT0, FT1, FT2]

  predicate IsTemp(r: Register) {
    r in SPILL_GENERAL || r in SPILL_FLOAT
  }

  predicate TempOperand(o: Operand) {
    o.Physical? && IsTemp(o.reg)
  }

  // ----- code -----

  /** `Keep` is an instruction of the original program; the others are what spilling inserts. */
  datatype Out =
    | Keep(instr: Instr)
    | Li(rd: Register, imm: int)
    | AddSp(rd: Register, rs: Register)
    | Ld(rd: Register, base: Operand, imm: int)
    | Sd(rs: Register, base: Operand, imm: int)

  /** One original instruction with what was inserted before and after it. */
  datatype Group = Group(pre: seq<Out>, main: Instr, post: seq<Out>)

  type OutCode = map<BlockId, seq<Group>>

  // ----- running -----

  type Value = int
  type World = int

  datatype Event = Event(op: nat, inputs: seq<Value>)

  /** Any meaning of the instructions. */
  datatype Machine = Machine(results: (Event, World, nat) -> Value, effects: (Event, World) -> World)

  /** `stack` is the part of memory that holds the spill slots, eight bytes at each address. */
  datatype State = State(env: map<Operand, Value>, stack: map<int, Value>, world: World, trace: seq<Event>)

  function Val(env: map<Operand, Value>, o: Operand): Value {
    if o.Constant? then o.id else if o in env then env[o] else 0
  }

  function Vals(env: map<Operand, Value>, os: seq<Operand>): (r: seq<Value>)
    ensures |r| == |os| && forall i :: 0 <= i < |os| ==> r[i] == Val(env, os[i])
  {
    if os == [] then [] else Vals(env, os[..|os| - 1]) + [Val(env, os[|os| - 1])]
  }

  function Assign(m: Machine, e: Event, w: World, defs: seq<Operand>, env: map<Operand, Value>): map<Operand, Value> {
    if defs == [] then env
    else Assign(m, e, w, defs[..|defs| - 1], env)[defs[|defs| - 1] := m.results(e, w, |defs| - 1)]
  }

  function Exec(m: Machine, ins: Instr, st: State): State {
    var e := Event(ins.op, Vals(st.env, ins.uses));
    State(Assign(m, e, st.world, ins.defs, st.env), st.stack, m.effects(e, st.world), st.trace + [e])
  }

  /** Writing eight bytes destroys whatever overlaps them. */
  function Overwrite(stack: map<int, Value>, a: int, v: Value): map<int, Value> {
    (map x | x in stack && (x <= a - 8 || a + 8 <= x) :: stack[x])[a := v]
  }

  function ReadSlot(stack: map<int, Value>, a: int): Value {
    if a in stack then stack[a] else 0
  }

  function ExecOut(m: Machine, ins: Out, st: State): State {
    match ins
    case Keep(i) => Exec(m, i, st)
    case Li(rd, imm) => st.(env := st.env[Physical(rd) := imm])
    case AddSp(rd, rs) => st.(env := st.env[Physical(rd) := Val(st.env, SP) + Val(st.env, Physical(rs))])
    case Ld(rd, base, imm) => st.(env := st.env[Physical(rd) := ReadSlot(st.stack, Val(st.env, base) + imm)])
    case Sd(rs, base, imm) => st.(stack := Overwrite(st.stack, Val(st.env, base) + imm, Val(st.env, Physical(rs))))
  }

  function ExecOuts(m: Machine, code: seq<Out>, st: State): State {
    if code == [] then st else ExecOut(m, code[|code| - 1], ExecOuts(m, code[..|code| - 1], st))
  }

  function ExecGroup(m: Machine, grp: Group, st: State): State {
    ExecOuts(m, grp.post, Exec(m, grp.main, ExecOuts(m, grp.pre, st)))
  }

  function ExecBody(m: Machine, body: seq<Instr>, st: State): State {
    if body == [] then st else Exec(m, body[|body| - 1], ExecBody(m, body[..|body| - 1], st))
  }

  function ExecGroups(m: Machine, body: seq<Group>, st: State): State {
    if body == [] then st else ExecGroup(m, body[|body| - 1], ExecGroups(m, body[..|body| - 1], st))
  }

  /** The original program along a path of the control flow graph. */
  function Run(m: Machine, c: Code, path: seq<BlockId>, init: State): State
    requires forall b :: b in path ==> b in c
  {
    if path == [] then init else ExecBody(m, c[path[|path| - 1]], Run(m, c, path[..|path| - 1], init))
  }

  function RunOut(m: Machine, c: OutCode, path: seq<BlockId>, init: State): State
    requires forall b :: b in path ==> b in c
  {
    if path == [] then init else ExecGroups(m, c[path[|path| - 1]], RunOut(m, c, path[..|path| - 1], init))
  }

  lemma {:induction false} ExecOutsConcat(m: Machine, p: seq<Out>, q: seq<Out>, st: State)
    ensures ExecOuts(m, p + q, st) == ExecOuts(m, q, ExecOuts(m, p, st))
  {
    if q == [] {
      assert p + q == p;
    } else {
      ExecOutsConcat(m, p, q[..|q| - 1], st);
      assert (p + q)[..|p + q| - 1] == p + q[..|q| - 1];
    }
  }

  // ----- where a register of the original program lives -----

  datatype Allocation = Allocation(regOf: map<Operand, Register>, slotOf: map<Operand, nat>)

  datatype Place = InReg(o: Operand) | InSlot(offset: nat)

  function PlaceOf(a: Allocation, o: Operand): Place {
    if o in a.regOf then InReg(Physical(a.regOf[o])) else if o in a.slotOf then InSlot(a.slotOf[o]) else InReg(o)
  }

  function Content(st: State, sp: int, p: Place): Value {
    match p
    case InReg(o) => Val(st.env, o)
    case InSlot(offset) => ReadSlot(st.stack, sp + offset)
  }

  predicate Apart(p: Place, q: Place) {
    match (p, q)
    case (InReg(x), InReg(y)) => x != y
    case (InSlot(x), InSlot(y)) => x + 8 <= y || y + 8 <= x
    case (_, _) => true
  }

  /** Only virtual registers are allocated, to registers that have no fixed role, and never twice. */
  ghost predicate AllocationShape(a: Allocation) {
    && (forall o :: o in a.regOf ==> o.Virtual? && o !in a.slotOf)
    && (forall o :: o in a.regOf ==> !IsTemp(a.regOf[o]) && Physical(a.regOf[o]) != SP)
    && (forall o :: o in a.slotOf ==> o.Virtual?)
    && (forall o, p :: o in a.slotOf && p in a.slotOf && o != p ==> Apart(InSlot(a.slotOf[o]), InSlot(a.slotOf[p])))
  }

  // ----- the code around one instruction -----

  /** Reload `v` into `temp`; a large offset is computed in `addr` first. */
  datatype Reload = Reload(v: Operand, temp: Register, addr: Register)

  function ReloadCode(l: Reload, offset: nat): seq<Out> {
    if ItypeImmediate(offset) then [Ld(l.temp, SP, offset)]
    else [Li(l.addr, offset), AddSp(l.addr, l.addr), Ld(l.temp, Physical(l.addr), 0)]
  }

  function ReloadsCode(ls: seq<Reload>, slotOf: map<Operand, nat>): seq<Out> {
    if ls == [] then []
    else
      var l := ls[|ls| - 1];
      ReloadsCode(ls[..|ls| - 1], slotOf) + ReloadCode(l, if l.v in slotOf then slotOf[l.v] else 0)
  }

  /** The register that carries a spilled result to its slot. */
  function ResultTemp(v: Operand, offset: nat): Register {
    if FloatOperand(v) then FT0 else if ItypeImmediate(offset) then T0 else T1
  }

  function SaveCode(v: Operand, offset: nat): seq<Out> {
    if ItypeImmediate(offset) then [Sd(ResultTemp(v, offset), SP, offset)]
    else [Li(T0, offset), AddSp(T0, T0), Sd(ResultTemp(v, offset), Physical(T0), 0)]
  }

  /** The registers a reload occupies. */
  function Occupied(l: Reload, offset: nat): set<Register> {
    if ItypeImmediate(offset) then {l.temp} else {l.temp, l.addr}
  }

  /** Each spilled input is reloaded once, into temporaries nothing else of the instruction uses. */
  ghost predicate ReloadsFit(ls: seq<Reload>, a: Allocation) {
    && (forall i :: 0 <= i < |ls| ==> ls[i].v in a.slotOf && IsTemp(ls[i].temp) && IsTemp(ls[i].addr))
    && (forall i, j :: 0 <= i < j < |ls| && ls[i].v in a.slotOf && ls[j].v in a.slotOf ==>
          ls[i].v != ls[j].v && Occupied(ls[i], a.slotOf[ls[i].v]) !! Occupied(ls[j], a.slotOf[ls[j].v]))
  }

  predicate ReloadOf(ls: seq<Reload>, k: nat, o: Operand) {
    k < |ls| && ls[k].v == o
  }

  /** An input of the rewritten instruction. */
  ghost predicate UseRewritten(a: Allocation, ls: seq<Reload>, o: Operand, o': Operand) {
    if o in a.slotOf then exists k: nat :: ReloadOf(ls, k, o) && o' == Physical(ls[k].temp)
    else o' == if o in a.regOf then Physical(a.regOf[o]) else o
  }

  function DefRewritten(a: Allocation, o: Operand): Operand {
    if o in a.regOf then Physical(a.regOf[o])
    else if o in a.slotOf then Physical(ResultTemp(o, a.slotOf[o]))
    else o
  }

  /** The group of `ins` under the allocation, with the reloads `ls`. */
  ghost predicate Expands(ins: Instr, grp: Group, a: Allocation, ls: seq<Reload>) {
    && ReloadsFit(ls, a)
    && (forall k :: 0 <= k < |ls| ==> ls[k].v in ins.uses)
    && grp.pre == ReloadsCode(ls, a.slotOf)
    && grp.main.op == ins.op
    && |grp.main.uses| == |ins.uses| && |grp.main.defs| == |ins.defs|
    && (forall k :: 0 <= k < |ins.uses| ==> UseRewritten(a, ls, ins.uses[k], grp.main.uses[k]))
    && (forall k :: 0 <= k < |ins.defs| ==> grp.main.defs[k] == DefRewritten(a, ins.defs[k]))
    && (forall d :: d in ins.defs && d in a.slotOf ==> grp.post == SaveCode(d, a.slotOf[d]))
    && ((forall d :: d in ins.defs ==> d !in a.slotOf) ==> grp.post == [])
  }
}
