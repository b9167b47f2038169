/** Certificates for statements, and the proof that certified statements behave as they should: the
    graph ends where and how the statement ends, and runs on for as long as the statement does. */
module LoweredStatements {
  import opened StructuredProgram
  import opened LoweredCode

  datatype StmtCode =
    | NoCode(start: Pos)
    | EvalCode(e: ExprCode)
    | AssignCode(l: ExprCode, r: ExprCode)
    | JumpCode(start: Pos)
    | ReturnCode(e: ExprCode)
    | SeqCode(start: Pos, codes: seq<StmtCode>)
    | IfCode(c: ExprCode, thenBlock: BlockId, elseBlock: BlockId, tailBlock: BlockId, branches: seq<StmtCode>)
    | WhileCode(start: Pos, condBlock: BlockId, bodyBlock: BlockId, tailBlock: BlockId, c: ExprCode, body: StmtCode)

  /** Where `break`, `continue` and `return` go. */
  datatype Exits = Exits(breakTo: BlockId, continueTo: BlockId, returnTo: BlockId)

  function First(k: StmtCode): Pos {
    match k
    case NoCode(p) => p
    case EvalCode(e) => StartOf(e)
    case AssignCode(l, _) => StartOf(l)
    case JumpCode(p) => p
    case ReturnCode(e) => StartOf(e)
    case SeqCode(p, _) => p
    case IfCode(c, _, _, _, _) => StartOf(c)
    case WhileCode(p, _, _, _, _, _) => p
  }

  /** Where control is after the statement, if it ends normally. */
  function Last(k: StmtCode): Pos {
    match k
    case NoCode(p) => p
    case EvalCode(e) => EndOf(e)
    case AssignCode(_, r) => Next(EndOf(r))
    case JumpCode(p) => Next(p)
    case ReturnCode(e) => EndOf(e)
    case SeqCode(p, ks) => if ks == [] then p else Last(ks[|ks| - 1])
    case IfCode(_, _, _, tl, _) => Pos(tl, 0)
    case WhileCode(_, _, _, tl, _, _) => Pos(tl, 0)
  }

  /** Can the statement end normally? */
  predicate FallsOut(k: StmtCode) {
    match k
    case JumpCode(_) => false
    case ReturnCode(_) => false
    case SeqCode(_, ks) => ks == [] || FallsOut(ks[|ks| - 1])
    case _ => true
  }

  ghost predicate SomeExprAt(c: Code, e: Expr, k: ExprCode) {
    exists lo: nat, hi: nat :: ExprAt(c, e, k, lo, hi)
  }

  ghost predicate ExprsAt(c: Code, l: Expr, r: Expr, kl: ExprCode, kr: ExprCode) {
    exists lo: nat, mid: nat, hi: nat :: ExprAt(c, l, kl, lo, mid) && ExprAt(c, r, kr, mid, hi)
  }

  ghost predicate StmtAt(c: Code, s: Stmt, k: StmtCode, x: Exits)
    decreases s
  {
    match s
    case Blank => k.NoCode?
    case Evaluate(e) => k.EvalCode? && SomeExprAt(c, e, k.e)
    case Assignment(l, r) =>
      k.AssignCode? && ExprsAt(c, l, r, k.l, k.r) && StartOf(k.r) == EndOf(k.l)
          && At(c, EndOf(k.r), Store(k.l.dst, k.r.dst))
    case Block(ss) =>
      && k.SeqCode? && |k.codes| <= |ss| && Chained(k.start, k.codes)
      && (|k.codes| < |ss| ==> |k.codes| > 0 && !FallsOut(k.codes[|k.codes| - 1]))
      && (forall i :: 0 <= i < |k.codes| ==> StmtAt(c, ss[i], k.codes[i], x))
    case If(e, t) =>
      && k.IfCode? && |k.branches| == 1 && SomeExprAt(c, e, k.c) && At(c, EndOf(k.c),
          Branch(k.c.dst, k.thenBlock, k.tailBlock))
      && StmtAt(c, t, k.branches[0], x) && ArmAt(c, k.branches[0], k.thenBlock, k.tailBlock)
    case IfElse(e, t, f) =>
      && k.IfCode? && |k.branches| == 2 && SomeExprAt(c, e, k.c) && At(c, EndOf(k.c),
          Branch(k.c.dst, k.thenBlock, k.elseBlock))
      && StmtAt(c, t, k.branches[0], x) && ArmAt(c, k.branches[0], k.thenBlock, k.tailBlock)
      && StmtAt(c, f, k.branches[1], x) && ArmAt(c, k.branches[1], k.elseBlock, k.tailBlock)
    case While(e, b) =>
      && k.WhileCode? && At(c, k.start, Jump(k.condBlock)) && StartOf(k.c) == Pos(k.condBlock, 0)
          && SomeExprAt(c, e, k.c)
      && At(c, EndOf(k.c), Branch(k.c.dst, k.bodyBlock, k.tailBlock))
      && StmtAt(c, b, k.body, Exits(k.tailBlock, k.condBlock, x.returnTo)) && ArmAt(c, k.body, k.bodyBlock, k.condBlock)
    case Break => k.JumpCode? && At(c, k.start, Jump(x.breakTo))
    case Continue => k.JumpCode? && At(c, k.start, Jump(x.continueTo))
    case Return => k.JumpCode? && At(c, k.start, Jump(x.returnTo))
    case ReturnValue(e) =>
      k.ReturnCode? && SomeExprAt(c, e, k.e) && At(c, EndOf(k.e), StoreReturn(k.e.dst))
          && At(c, Next(EndOf(k.e)), Jump(x.returnTo))
  }

  /** The codes follow one another, and all but the last can end normally. */
  predicate Chained(start: Pos, ks: seq<StmtCode>) {
    && (|ks| > 0 ==> First(ks[0]) == start)
    && (forall i, j :: 0 <= i < |ks| && j == i + 1 && j < |ks| ==> First(ks[j]) == Last(ks[i]) && FallsOut(ks[i]))
  }

  /** The arm starts its block, and jumps on when it ends normally. */
  predicate ArmAt(c: Code, k: StmtCode, b: BlockId, next: BlockId) {
    First(k) == Pos(b, 0) && (FallsOut(k) ==> At(c, Last(k), Jump(next)))
  }

  lemma {:induction false} StmtGrows(c: Code, d: Code, s: Stmt, k: StmtCode, x: Exits)
    requires StmtAt(c, s, k, x) && Grows(c, d)
    ensures StmtAt(d, s, k, x)
    decreases s
  {
    hide At, ExprAt, Chained;
    match s
    case Blank =>
    case Evaluate(e) => ExprStays(c, d, e, k.e);
    case Assignment(l, r) =>
      var lo: nat, mid: nat, hi: nat :| ExprAt(c, l, k.l, lo, mid) && ExprAt(c, r, k.r, mid, hi);
      ExprGrows(c, d, l, k.l, lo, mid);
      ExprGrows(c, d, r, k.r, mid, hi);
    case Block(ss) =>
      forall i | 0 <= i < |k.codes| ensures StmtAt(d, ss[i], k.codes[i], x) {
        StmtGrows(c, d, ss[i], k.codes[i], x);
      }
    case If(e, t) =>
      ExprStays(c, d, e, k.c);
      StmtGrows(c, d, t, k.branches[0], x);
    case IfElse(e, t, f) =>
      ExprStays(c, d, e, k.c);
      StmtGrows(c, d, t, k.branches[0], x);
      StmtGrows(c, d, f, k.branches[1], x);
    case While(e, b) =>
      ExprStays(c, d, e, k.c);
      StmtGrows(c, d, b, k.body, Exits(k.tailBlock, k.condBlock, x.returnTo));
    case Break =>
    case Continue =>
    case Return =>
    case ReturnValue(e) => ExprStays(c, d, e, k.e);
  }

  lemma ExprStays(c: Code, d: Code, e: Expr, k: ExprCode)
    requires SomeExprAt(c, e, k) && Grows(c, d)
    ensures SomeExprAt(d, e, k)
  {
    hide ExprAt, Grows;
    var lo: nat, hi: nat :| ExprAt(c, e, k, lo, hi);
    ExprGrows(c, d, e, k, lo, hi);
  }

  // ----- certified statements run -----

  function Target(k: StmtCode, x: Exits, o: Outcome): Pos {
    match o
    case Normal => Last(k)
    case Broken => Pos(x.breakTo, 0)
    case Continued => Pos(x.continueTo, 0)
    case Returned => Pos(x.returnTo, 0)
  }

  /** What `n` instructions of the code must have done, given what the statement does. */
  ghost predicate Matches(r: Result, fuel: nat, n: nat, cfg: Config, k: StmtCode, x: Exits) {
    && cfg.Running?
    && (r.OutOfFuel? ==> n >= fuel)
    && (r.Ended? ==> cfg.mem.s == r.s && cfg.p == Target(k, x, r.o) && (r.o == Normal ==> FallsOut(k)))
  }

  lemma ExprEnds(m: Machine, c: Code, e: Expr, k: ExprCode, mem: Memory) returns (n: nat)
    requires SomeExprAt(c, e, k)
    ensures n > 0
    ensures var cfg := Steps(m, c, n, Running(StartOf(k), mem));
            cfg.Running? && cfg.p == EndOf(k) && cfg.mem.s == Eval(m, e, mem.s).1
                && Get(cfg.mem.regs, k.dst) == Eval(m, e, mem.s).0
  {
    hide ExprAt, Steps, Eval;
    var lo: nat, hi: nat :| ExprAt(c, e, k, lo, hi);
    n := ExprRuns(m, c, e, k, lo, hi, mem);
  }

  lemma {:induction false} StmtRuns(m: Machine, c: Code, fuel: nat, s: Stmt, k: StmtCode, x: Exits, mem: Memory)
    returns (n: nat)
    requires StmtAt(c, s, k, x)
    ensures Matches(Exec(m, fuel, s, mem.s), fuel, n, Steps(m, c, n, Running(First(k), mem)), k, x)
    decreases fuel, s, 1
  {
    hide At, Steps, ExprAt, Eval;
    NoSteps(m, c, Running(First(k), mem));
    n := 0;
    match s
    case Blank =>
    case Evaluate(e) => n := ExprEnds(m, c, e, k.e, mem);
    case Assignment(l, r) => n := AssignRuns(m, c, l, r, k, mem);
    case Block(ss) =>
      n := SeqRuns(m, c, fuel, ss, |k.codes|, k, x, mem);
      RestIsDead(m, c, fuel, ss, k, x, mem);
    case If(e, t) => n := IfRuns(m, c, fuel, s, k, x, mem);
    case IfElse(e, t, f) => n := IfRuns(m, c, fuel, s, k, x, mem);
    case While(e, b) => n := WhileRuns(m, c, fuel, s, k, x, mem);
    case Break => n := 1; StepAt(m, c, k.start, Jump(x.breakTo), mem);
    case Continue => n := 1; StepAt(m, c, k.start, Jump(x.continueTo), mem);
    case Return => n := 1; StepAt(m, c, k.start, Jump(x.returnTo), mem);
    case ReturnValue(e) =>
      var n1 := ExprEnds(m, c, e, k.e, mem);
      var start := Running(First(k), mem);
      var c1 := Steps(m, c, n1, start);
      StepAt(m, c, EndOf(k.e), StoreReturn(k.e.dst), c1.mem);
      StepsAdd(m, c, n1, 1, start);
      var c2 := Steps(m, c, n1 + 1, start);
      StepAt(m, c, Next(EndOf(k.e)), Jump(x.returnTo), c2.mem);
      StepsAdd(m, c, n1 + 1, 1, start);
      n := n1 + 1 + 1;
  }

  lemma NoSteps(m: Machine, c: Code, cfg: Config)
    ensures Steps(m, c, 0, cfg) == cfg
  {
  }

  lemma AssignRuns(m: Machine, c: Code, l: Expr, r: Expr, k: StmtCode, mem: Memory) returns (n: nat)
    requires k.AssignCode? && ExprsAt(c, l, r, k.l, k.r) && StartOf(k.r) == EndOf(k.l)
        && At(c, EndOf(k.r), Store(k.l.dst, k.r.dst))
    ensures var cfg := Steps(m, c, n, Running(First(k), mem));
            cfg.Running? && cfg.p == Last(k) && Exec(m, 0, Assignment(l, r), mem.s) == Ended(Normal, cfg.mem.s)
  {
    hide At, Steps, ExprAt, Eval;
    var lo: nat, mid: nat, hi: nat :| ExprAt(c, l, k.l, lo, mid) && ExprAt(c, r, k.r, mid, hi);
    var start := Running(First(k), mem);
    var n1 := ExprRuns(m, c, l, k.l, lo, mid, mem);
    var c1 := Steps(m, c, n1, start);
    var n2 := ExprRuns(m, c, r, k.r, mid, hi, c1.mem);
    StepsAdd(m, c, n1, n2, start);
    var c2 := Steps(m, c, n1 + n2, start);
    ExprDst(c, l, k.l, lo, mid);
    StepAt(m, c, EndOf(k.r), Store(k.l.dst, k.r.dst), c2.mem);
    StepsAdd(m, c, n1 + n2, 1, start);
    n := n1 + n2 + 1;
  }

  /** Once a statement has left the sequence, the rest of it plays no part. */
  lemma {:induction false} RestIsDead(m: Machine, c: Code, fuel: nat, ss: seq<Stmt>, k: StmtCode, x: Exits, mem: Memory)
    requires StmtAt(c, Block(ss), k, x)
    requires |k.codes| < |ss| ==> var r := ExecAll(m, fuel, ss, |k.codes|, mem.s); r.OutOfFuel? || r.o != Normal
    ensures ExecAll(m, fuel, ss, |ss|, mem.s) == ExecAll(m, fuel, ss, |k.codes|, mem.s)
  {
    hide StmtAt;
    assert |k.codes| <= |ss| by { SeqShape(c, ss, k, x); }
    var i: nat := |k.codes|;
    while i < |ss|
      invariant |k.codes| <= i <= |ss|
      invariant ExecAll(m, fuel, ss, i, mem.s) == ExecAll(m, fuel, ss, |k.codes|, mem.s)
    {
      i := i + 1;
    }
  }

  lemma SeqShape(c: Code, ss: seq<Stmt>, k: StmtCode, x: Exits)
    requires StmtAt(c, Block(ss), k, x)
    ensures k.SeqCode? && |k.codes| <= |ss|
  {
  }

  function Upto(k: StmtCode, n: nat): StmtCode
    requires k.SeqCode? && n <= |k.codes|
  {
    SeqCode(k.start, k.codes[..n])
  }

  lemma {:induction false} SeqRuns(m: Machine, c: Code, fuel: nat, ss: seq<Stmt>, j: nat, k: StmtCode, x: Exits,
                                   mem: Memory) returns (n: nat)
    requires StmtAt(c, Block(ss), k, x) && j <= |k.codes|
    ensures |k.codes| <= |ss|
    ensures Matches(ExecAll(m, fuel, ss, j, mem.s), fuel, n, Steps(m, c, n, Running(First(k), mem)), Upto(k, j), x)
    decreases fuel, Block(ss), 0, j
  {
    hide At, Steps, ExprAt, Eval, StmtAt;
    SeqShape(c, ss, k, x);
    NoSteps(m, c, Running(First(k), mem));
    n := 0;
    if j > 0 {
      var n1 := SeqRuns(m, c, fuel, ss, j - 1, k, x, mem);
      var r := ExecAll(m, fuel, ss, j - 1, mem.s);
      var c1 := Steps(m, c, n1, Running(First(k), mem));
      n := n1;
      if r.Ended? && r.o == Normal {
        SeqStep(c, ss, j, k, x);
        var n2 := StmtRuns(m, c, fuel, ss[j - 1], k.codes[j - 1], x, c1.mem);
        StepsAdd(m, c, n1, n2, Running(First(k), mem));
        n := n1 + n2;
      }
    }
  }

  lemma SeqStep(c: Code, ss: seq<Stmt>, j: nat, k: StmtCode, x: Exits)
    requires StmtAt(c, Block(ss), k, x) && 0 < j <= |k.codes|
    ensures StmtAt(c, ss[j - 1], k.codes[j - 1], x)
    ensures First(k.codes[j - 1]) == Last(Upto(k, j - 1))
    ensures Last(Upto(k, j)) == Last(k.codes[j - 1]) && FallsOut(Upto(k, j)) == FallsOut(k.codes[j - 1])
  {
  }

  predicate IsIf(s: Stmt) {
    s.If? || s.IfElse?
  }

  lemma {:induction false} IfRuns(m: Machine, c: Code, fuel: nat, s: Stmt, k: StmtCode, x: Exits, mem: Memory)
    returns (n: nat)
    requires StmtAt(c, s, k, x) && IsIf(s)
    ensures Matches(Exec(m, fuel, s, mem.s), fuel, n, Steps(m, c, n, Running(First(k), mem)), k, x)
    decreases fuel, s, 0
  {
    hide At, Steps, ExprAt, Eval;
    var start := Running(First(k), mem);
    var n1 := ExprEnds(m, c, s.cond, k.c, mem);
    var c1 := Steps(m, c, n1, start);
    StepAt(m, c, EndOf(k.c), Branch(k.c.dst, k.thenBlock, if s.If? then k.tailBlock else k.elseBlock), c1.mem);
    StepsAdd(m, c, n1, 1, start);
    n := n1 + 1;
    var c2 := Steps(m, c, n1 + 1, start);
    if Eval(m, s.cond, mem.s).0 != 0 {
      var n2 := ArmRuns(m, c, fuel, s.thenStmt, k.branches[0], x, k.thenBlock, k.tailBlock, c2.mem);
      StepsAdd(m, c, n1 + 1, n2, start);
      n := n1 + 1 + n2;
    } else if s.IfElse? {
      var n2 := ArmRuns(m, c, fuel, s.elseStmt, k.branches[1], x, k.elseBlock, k.tailBlock, c2.mem);
      StepsAdd(m, c, n1 + 1, n2, start);
      n := n1 + 1 + n2;
    }
  }

  /** An arm from its block to the block that follows, unless it leaves another way. */
  lemma {:induction false} ArmRuns(m: Machine, c: Code, fuel: nat, s: Stmt, k: StmtCode, x: Exits, b: BlockId,
                                   next: BlockId, mem: Memory) returns (n: nat)
    requires StmtAt(c, s, k, x) && ArmAt(c, k, b, next)
    ensures var r, cfg := Exec(m, fuel, s, mem.s), Steps(m, c, n, Running(Pos(b, 0), mem));
            && cfg.Running? && (r.OutOfFuel? ==> n >= fuel)
            && (r.Ended? ==> cfg.mem.s == r.s && cfg.p == if r.o == Normal then Pos(next, 0) else Target(k, x, r.o))
    decreases fuel, s, 2
  {
    hide At, Steps, ExprAt, Eval, StmtAt, Exec;
    n := StmtRuns(m, c, fuel, s, k, x, mem);
    var r := Exec(m, fuel, s, mem.s);
    if r.Ended? && r.o == Normal {
      var c1 := Steps(m, c, n, Running(Pos(b, 0), mem));
      StepAt(m, c, Last(k), Jump(next), c1.mem);
      StepsAdd(m, c, n, 1, Running(Pos(b, 0), mem));
      n := n + 1;
    }
  }

  lemma {:induction false} WhileRuns(m: Machine, c: Code, fuel: nat, s: Stmt, k: StmtCode, x: Exits, mem: Memory)
    returns (n: nat)
    requires StmtAt(c, s, k, x) && s.While?
    ensures Matches(Exec(m, fuel, s, mem.s), fuel, n, Steps(m, c, n, Running(First(k), mem)), k, x)
    decreases fuel, s, 0
  {
    hide At, Steps, ExprAt, Eval, Exec;
    var start := Running(First(k), mem);
    StepAt(m, c, k.start, Jump(k.condBlock), mem);
    var n1 := LoopRuns(m, c, fuel, s, k, x, mem);
    StepsAdd(m, c, 1, n1, start);
    n := 1 + n1;
  }

  /** The loop from its condition on. */
  lemma {:induction false} LoopRuns(m: Machine, c: Code, fuel: nat, s: Stmt, k: StmtCode, x: Exits, mem: Memory)
    returns (n: nat)
    requires StmtAt(c, s, k, x) && s.While?
    ensures Matches(Exec(m, fuel, s, mem.s), fuel, n, Steps(m, c, n, Running(Pos(k.condBlock, 0), mem)), k, x)
    decreases fuel, s, -1
  {
    hide At, Steps, ExprAt, Eval;
    var start := Running(Pos(k.condBlock, 0), mem);
    NoSteps(m, c, start);
    n := 0;
    if fuel > 0 {
      var n1 := ExprEnds(m, c, s.cond, k.c, mem);
      var c1 := Steps(m, c, n1, start);
      StepAt(m, c, EndOf(k.c), Branch(k.c.dst, k.bodyBlock, k.tailBlock), c1.mem);
      StepsAdd(m, c, n1, 1, start);
      n := n1 + 1;
      if Eval(m, s.cond, mem.s).0 != 0 {
        var c2 := Steps(m, c, n1 + 1, start);
        var x1 := Exits(k.tailBlock, k.condBlock, x.returnTo);
        var n2 := ArmRuns(m, c, fuel - 1, s.body, k.body, x1, k.bodyBlock, k.condBlock, c2.mem);
        StepsAdd(m, c, n1 + 1, n2, start);
        n := n1 + 1 + n2;
        var r := Exec(m, fuel - 1, s.body, c2.mem.s);
        if r.Ended? && (r.o == Normal || r.o == Continued) {
          var c3 := Steps(m, c, n, start);
          var n3 := LoopRuns(m, c, fuel - 1, s, k, x, c3.mem);
          StepsAdd(m, c, n, n3, start);
          n := n + n3;
        }
      }
    }
  }

  // ----- whole functions -----

  /** The code of the body, the way out at its end, and the return block. */
  ghost predicate BodyAt(c: Code, s: Stmt, k: StmtCode, x: Exits) {
    StmtAt(c, s, k, x) && (FallsOut(k) ==> At(c, Last(k), Jump(x.returnTo))) && At(c, Pos(x.returnTo, 0), Ret)
  }

  /** If the body ends, the graph returns with the same state. */
  lemma BodyReturns(m: Machine, c: Code, fuel: nat, s: Stmt, k: StmtCode, x: Exits, mem: Memory) returns (n: nat)
    requires BodyAt(c, s, k, x) && NestedWell(s, false)
    ensures var r, cfg := Exec(m, fuel, s, mem.s), Steps(m, c, n, Running(First(k), mem));
            if r.Ended? then cfg.Finished? && cfg.mem.s == r.s else n >= fuel && cfg.Running?
  {
    hide At, Steps, StmtAt, Exec, NestedWell;
    var start := Running(First(k), mem);
    n := StmtRuns(m, c, fuel, s, k, x, mem);
    OutcomeOutsideLoop(m, fuel, s, mem.s);
    var r := Exec(m, fuel, s, mem.s);
    if r.Ended? {
      var c1 := Steps(m, c, n, start);
      if r.o == Normal {
        StepAt(m, c, Last(k), Jump(x.returnTo), c1.mem);
        StepsAdd(m, c, n, 1, start);
        n := n + 1;
      }
      var c2 := Steps(m, c, n, start);
      StepAt(m, c, Pos(x.returnTo, 0), Ret, c2.mem);
      StepsAdd(m, c, n, 1, start);
      n := n + 1;
    }
  }

  /** A statement and a graph mean the same: one ends exactly if the other does, then in the same
      state, with the same operands evaluated in the same order. */
  ghost predicate SameMeaning(m: Machine, s: Stmt, c: Code, entry: Pos, mem: Memory) {
    && (forall fuel: nat :: Exec(m, fuel, s, mem.s).Ended? ==> exists n: nat ::
        EndsWith(m, c, entry, mem, n, Exec(m, fuel, s, mem.s).s))
    && (forall n: nat :: Steps(m, c, n, Running(entry, mem)).Finished? ==>
          exists fuel: nat :: Exec(m, fuel, s, mem.s).Ended? && Exec(m, fuel, s, mem.s).s == Steps(m, c, n,
              Running(entry, mem)).mem.s)
  }

  ghost predicate EndsWith(m: Machine, c: Code, entry: Pos, mem: Memory, n: nat, s: State) {
    var cfg := Steps(m, c, n, Running(entry, mem));
    cfg.Finished? && cfg.mem.s == s
  }

  lemma FinishedOnce(m: Machine, c: Code, a: nat, b: nat, cfg: Config)
    requires a <= b && Steps(m, c, a, cfg).Finished?
    ensures Steps(m, c, b, cfg) == Steps(m, c, a, cfg)
  {
    StepsAdd(m, c, a, b - a, cfg);
    FinishedStays(m, c, b - a, Steps(m, c, a, cfg).mem);
  }

  /** Lowering preserves meaning, in both directions. */
  lemma LoweringPreserves(m: Machine, c: Code, s: Stmt, k: StmtCode, x: Exits, mem: Memory)
    requires BodyAt(c, s, k, x) && NestedWell(s, false)
    ensures SameMeaning(m, s, c, First(k), mem)
  {
    hide BodyAt, NestedWell, Steps, Exec;
    var start := Running(First(k), mem);
    forall fuel: nat | Exec(m, fuel, s, mem.s).Ended? ensures exists n: nat ::
        EndsWith(m, c, First(k), mem, n, Exec(m, fuel, s, mem.s).s) {
      var n := BodyReturns(m, c, fuel, s, k, x, mem);
      assert EndsWith(m, c, First(k), mem, n, Exec(m, fuel, s, mem.s).s);
    }
    forall n: nat | Steps(m, c, n, start).Finished?
      ensures exists fuel: nat :: Exec(m, fuel, s, mem.s).Ended? && Exec(m, fuel, s, mem.s).s == Steps(m, c, n,
          start).mem.s
    {
      var k1 := BodyReturns(m, c, n + 1, s, k, x, mem);
      if k1 >= n {
        FinishedOnce(m, c, n, k1, start);
      } else {
        FinishedOnce(m, c, k1, n, start);
      }
      assert Exec(m, n + 1, s, mem.s).Ended?;
    }
  }
}
