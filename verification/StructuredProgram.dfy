/** Structured statements and short-circuit conditions, and what they mean. What an operand, an
    operator or a store does is opaque; the trace records which operands were evaluated. */
module StructuredProgram {

  /** `Atom` is a call, a variable, an array element or a constant. */
  datatype Expr = Atom(id: nat) | Op(op: nat, lhs: Expr, rhs: Expr) | And(lhs: Expr, rhs: Expr) | Or(lhs: Expr,
      rhs: Expr)

  datatype Stmt =
    | Blank
    | Evaluate(e: Expr)
    | Assignment(lhs: Expr, rhs: Expr)
    | Block(statements: seq<Stmt>)
    | If(cond: Expr, thenStmt: Stmt)
    | IfElse(cond: Expr, thenStmt: Stmt, elseStmt: Stmt)
    | While(cond: Expr, body: Stmt)
    | Break
    | Continue
    | Return
    | ReturnValue(e: Expr)

  /** `break` and `continue` stand inside a loop. */
  predicate NestedWell(s: Stmt, inLoop: bool) {
    match s
    case Block(ss) => forall i :: 0 <= i < |ss| ==> NestedWell(ss[i], inLoop)
    case If(_, t) => NestedWell(t, inLoop)
    case IfElse(_, t, e) => NestedWell(t, inLoop) && NestedWell(e, inLoop)
    case While(_, b) => NestedWell(b, true)
    case Break => inLoop
    case Continue => inLoop
    case _ => true
  }

  // ----- meaning -----

  type World = int

  datatype Machine = Machine(value: (nat, World) -> int, effect: (nat, World) -> World, op: (nat, int, int) -> int,
      store: (int, int, World) -> World)

  /** `ret` is the return value's location. */
  datatype State = State(world: World, trace: seq<nat>, ret: int)

  function Truth(b: bool): int {
    if b then 1 else 0
  }

  function Eval(m: Machine, e: Expr, s: State): (int, State) {
    match e
    case Atom(id) => (m.value(id, s.world), s.(world := m.effect(id, s.world), trace := s.trace + [id]))
    case Op(op, l, r) =>
      var (v, s1) := Eval(m, l, s);
      var (w, s2) := Eval(m, r, s1);
      (m.op(op, v, w), s2)
    case And(l, r) =>
      var (v, s1) := Eval(m, l, s);
      if v == 0 then (0, s1)
      else
        var (w, s2) := Eval(m, r, s1);
        (Truth(w != 0), s2)
    case Or(l, r) =>
      var (v, s1) := Eval(m, l, s);
      if v != 0 then (1, s1)
      else
        var (w, s2) := Eval(m, r, s1);
        (Truth(w != 0), s2)
  }

  datatype Outcome = Normal | Broken | Continued | Returned

  datatype Result = OutOfFuel | Ended(o: Outcome, s: State)

  /** `fuel` bounds how deep loop iterations may follow one another. */
  function Exec(m: Machine, fuel: nat, st: Stmt, s: State): Result
    decreases fuel, st, 0
  {
    match st
    case Blank => Ended(Normal, s)
    case Evaluate(e) => Ended(Normal, Eval(m, e, s).1)
    case Assignment(l, r) =>
      var (a, s1) := Eval(m, l, s);
      var (v, s2) := Eval(m, r, s1);
      Ended(Normal, s2.(world := m.store(a, v, s2.world)))
    case Block(ss) => ExecAll(m, fuel, ss, |ss|, s)
    case If(c, t) =>
      var (v, s1) := Eval(m, c, s);
      if v != 0 then Exec(m, fuel, t, s1) else Ended(Normal, s1)
    case IfElse(c, t, e) =>
      var (v, s1) := Eval(m, c, s);
      if v != 0 then Exec(m, fuel, t, s1) else Exec(m, fuel, e, s1)
    case While(c, b) =>
      if fuel == 0 then OutOfFuel
      else
        var (v, s1) := Eval(m, c, s);
        if v == 0 then Ended(Normal, s1)
        else
          (match Exec(m, fuel - 1, b, s1)
           case OutOfFuel => OutOfFuel
           case Ended(Returned, s2) => Ended(Returned, s2)
           case Ended(Broken, s2) => Ended(Normal, s2)
           case Ended(_, s2) => Exec(m, fuel - 1, st, s2))
    case Break => Ended(Broken, s)
    case Continue => Ended(Continued, s)
    case Return => Ended(Returned, s)
    case ReturnValue(e) =>
      var (v, s1) := Eval(m, e, s);
      Ended(Returned, s1.(ret := v))
  }

  /** The first `n` statements in order, up to the first that does not end normally. */
  function ExecAll(m: Machine, fuel: nat, ss: seq<Stmt>, n: nat, s: State): Result
    requires n <= |ss|
    decreases fuel, ss, n
  {
    if n == 0 then Ended(Normal, s)
    else
      match ExecAll(m, fuel, ss, n - 1, s)
      case OutOfFuel => OutOfFuel
      case Ended(Normal, s1) => Exec(m, fuel, ss[n - 1], s1)
      case Ended(o, s1) => Ended(o, s1)
  }

  /** Only inside a loop does a statement end by `break` or `continue`. */
  lemma {:induction false} OutcomeOutsideLoop(m: Machine, fuel: nat, st: Stmt, s: State)
    requires NestedWell(st, false)
    ensures var r := Exec(m, fuel, st, s); r.Ended? ==> r.o == Normal || r.o == Returned
    decreases fuel, st, 0
  {
    match st
    case Block(ss) => OutcomesOutsideLoop(m, fuel, ss, |ss|, s);
    case If(c, t) => OutcomeOutsideLoop(m, fuel, t, Eval(m, c, s).1);
    case IfElse(c, t, e) =>
      OutcomeOutsideLoop(m, fuel, t, Eval(m, c, s).1);
      OutcomeOutsideLoop(m, fuel, e, Eval(m, c, s).1);
    case While(c, b) =>
      LoopOutcome(m, fuel, c, b, s);
    case _ =>
  }

  lemma {:induction false} OutcomesOutsideLoop(m: Machine, fuel: nat, ss: seq<Stmt>, n: nat, s: State)
    requires n <= |ss| && forall i :: 0 <= i < |ss| ==> NestedWell(ss[i], false)
    ensures var r := ExecAll(m, fuel, ss, n, s); r.Ended? ==> r.o == Normal || r.o == Returned
    decreases fuel, ss, n
  {
    if n > 0 {
      OutcomesOutsideLoop(m, fuel, ss, n - 1, s);
      var r := ExecAll(m, fuel, ss, n - 1, s);
      if r.Ended? && r.o == Normal {
        OutcomeOutsideLoop(m, fuel, ss[n - 1], r.s);
      }
    }
  }

  /** A loop ends normally or by `return`. */
  lemma {:induction false} LoopOutcome(m: Machine, fuel: nat, c: Expr, b: Stmt, s: State)
    ensures var r := Exec(m, fuel, While(c, b), s); r.Ended? ==> r.o == Normal || r.o == Returned
    decreases fuel
  {
    if fuel > 0 && Eval(m, c, s).0 != 0 {
      var r := Exec(m, fuel - 1, b, Eval(m, c, s).1);
      if r.Ended? && r.o != Returned && r.o != Broken {
        LoopOutcome(m, fuel - 1, c, b, r.s);
      }
    }
  }
}
