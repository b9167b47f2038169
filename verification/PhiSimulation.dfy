/** What eliminating the phis of one block does to a function, and that every run is preserved. */
module PhiSimulation {
  import opened ControlFlowGraph
  import opened PhiProgram
  import opened PhiCopies

  /** The last exit to `s` goes to `e` instead. */
  function Redirect(exits: seq<Exit>, s: BlockId, e: BlockId): (r: seq<Exit>)
    ensures |r| == |exits|
  {
    if exits == [] then []
    else
      var n := |exits| - 1;
      if exits[n].target == s then exits[..n] + [exits[n].(target := e)]
      else Redirect(exits[..n], s, e) + [exits[n]]
  }

  /** How the phis of one block were replaced: the new blocks on split edges by predecessor, the
      temporaries, the copies by predecessor, and the moves at the head. */
  datatype Elim = Elim(splits: map<BlockId, BlockId>, temps: map<Operand, Operand>, copies: map<BlockId, seq<Instr>>,
      heads: seq<Instr>)

  /** The predecessor keeps its edge and runs the copies itself. */
  predicate RunsCopies(f: Function, s: BlockId, e: Elim, b: BlockId) {
    s in f.g.pred && b in f.g.pred[s] && b !in e.splits && b in e.copies
  }

  ghost predicate BlockBecomes(f: Function, f': Function, s: BlockId, e: Elim, b: BlockId) {
    && b in f.blocks && b in f'.blocks
    && f'.blocks[b].phis == (if b == s then [] else f.blocks[b].phis)
    && f'.blocks[b].code == (if b == s then e.heads else []) + f.blocks[b].code + TailOf(f, s, e, b)
    && f'.blocks[b].exits == if b in e.splits then Redirect(f.blocks[b].exits, s, e.splits[b]) else f.blocks[b].exits
  }

  ghost predicate NewBlock(f: Function, f': Function, s: BlockId, e: Elim, b: BlockId) {
    && b in e.splits && b in e.copies
    && e.splits[b] in f'.blocks && e.splits[b] !in f.blocks
    && f'.blocks[e.splits[b]] == Block([], e.copies[b], [Jump(s)])
  }

  /** The phis of `s` are gone, every incoming edge runs its copies, and nothing else changed. Edges
      out of blocks with a choice are split. */
  ghost predicate Eliminated(f: Function, f': Function, s: BlockId, e: Elim) {
    && s in f.blocks && s in f.g.pred
    && (forall b :: b in f.blocks ==> BlockBecomes(f, f', s, e, b))
    && (forall b :: b in e.splits ==> NewBlock(f, f', s, e, b))
    && (forall b :: b in f.g.pred[s] ==> b in e.copies && CopiesFor(e.copies[b], f.blocks[s].phis, b, e.temps,
        f.nextReg))
    && (forall b :: b in f.blocks && b in f.g.succ ==> (b in e.splits <==> b in f.g.pred[s] && |f.g.succ[b]| > 1))
    && (forall b :: b in e.splits ==> b in f.blocks)
    && (forall b :: b in f'.blocks ==> b in f.blocks || exists p :: p in e.splits && e.splits[p] == b)
    && HeadsFor(e.heads, e.temps) && TempsFit(e.temps, f.blocks[s].phis, f.nextReg)
    && (forall o :: o in e.temps ==> exists i :: 0 <= i < |f.blocks[s].phis| && f.blocks[s].phis[i].rd == o)
    && f'.g.entry == f.g.entry
  }

  // ----- branches -----

  lemma {:induction false} RedirectAt(exits: seq<Exit>, s: BlockId, e: BlockId, k: nat)
    requires DistinctTargets(exits) && k < |exits|
    ensures Redirect(exits, s, e)[k] == if exits[k].target == s then exits[k].(target := e) else exits[k]
  {
    var n := |exits| - 1;
    if exits[n].target == s {
    } else if k < n {
      assert DistinctTargets(exits[..n]);
      RedirectAt(exits[..n], s, e, k);
    }
  }

  lemma ValAgrees(m: Machine, st: State, t: State, lo: nat, o: Operand)
    requires Agree(st, t, lo) && Below(o, lo)
    ensures Val(m, st, o) == Val(m, t, o)
  {
    assert Below(o, lo) ==> Reg(st.env, o) == Reg(t.env, o);
    if o.Local? {
      assert Below(Phys(o.base), lo);
    }
  }

  lemma ValsAgree(m: Machine, st: State, t: State, lo: nat, os: seq<Operand>)
    requires Agree(st, t, lo) && forall o :: o in os ==> Below(o, lo)
    ensures Vals(m, st, os) == Vals(m, t, os)
  {
    hide Agree;
    forall k | 0 <= k < |os| ensures Vals(m, st, os)[k] == Vals(m, t, os)[k] {
      ValAgrees(m, st, t, lo, os[k]);
    }
  }

  /** The same branch is taken, and it leads to the new block exactly if it led to `s`. */
  lemma {:induction false} TargetRedirected(m: Machine, exits: seq<Exit>, exits': seq<Exit>, s: BlockId, e: BlockId,
                                            st: State, t: State, lo: nat)
    requires exits != [] && |exits'| == |exits| && ExitsBelow(exits, lo) && Agree(st, t, lo)
    requires forall k :: 0 <= k < |exits| ==> exits'[k] == if exits[k].target == s then exits[k].(target := e)
        else exits[k]
    ensures Target(m, exits', t) == if Target(m, exits, st) == s then e else Target(m, exits, st)
  {
    if exits[0].Branch? {
      ValsAgree(m, st, t, lo, exits[0].uses);
    }
    if |exits| > 1 {
      TargetRedirected(m, exits[1..], exits'[1..], s, e, st, t, lo);
    }
  }

  lemma {:induction false} TargetAgrees(m: Machine, exits: seq<Exit>, st: State, t: State, lo: nat)
    requires exits != [] && ExitsBelow(exits, lo) && Agree(st, t, lo)
    ensures Target(m, exits, t) == Target(m, exits, st)
  {
    if exits[0].Branch? {
      ValsAgree(m, st, t, lo, exits[0].uses);
    }
    if |exits| > 1 {
      TargetAgrees(m, exits[1..], st, t, lo);
    }
  }

  lemma {:induction false} TargetIsTarget(m: Machine, exits: seq<Exit>, st: State)
    requires exits != []
    ensures Target(m, exits, st) in Targets(exits)
  {
    assert exits[0].target in Targets(exits);
    if |exits| > 1 {
      TargetIsTarget(m, exits[1..], st);
      forall x | x in Targets(exits[1..]) ensures x in Targets(exits) {
        var k :| 0 <= k < |exits[1..]| && exits[1..][k].target == x;
        assert exits[k + 1].target == x;
      }
    }
  }

  // ----- code that mentions only original registers -----

  lemma {:induction false} AssignAgrees(m: Machine, e: Event, w: World, defs: seq<Operand>, env: map<Operand, Value>,
                                        env': map<Operand, Value>, lo: nat)
    requires forall o: Operand :: Below(o, lo) ==> Reg(env, o) == Reg(env', o)
    ensures forall o: Operand :: Below(o, lo) ==> Reg(Assign(m, e, w, defs, env), o) == Reg(Assign(m, e, w, defs, env'),
        o)
  {
    if defs != [] {
      AssignAgrees(m, e, w, defs[..|defs| - 1], env, env', lo);
    }
  }

  lemma ExecAgrees(m: Machine, ins: Instr, st: State, t: State, lo: nat)
    requires InstrBelow(ins, lo) && Agree(st, t, lo)
    ensures Agree(Exec(m, ins, st), Exec(m, ins, t), lo)
  {
    match ins
    case Body(op, defs, uses) =>
      ValsAgree(m, st, t, lo, uses);
      AssignAgrees(m, Event(op, Vals(m, st, uses)), st.world, defs, st.env, t.env, lo);
    case Li(_, _) =>
    case La(_, _) =>
    case Mv(_, rs) => ValAgrees(m, st, t, lo, rs);
    case Fmv(_, rs) => ValAgrees(m, st, t, lo, rs);
    case AddI(_, rs, _) => ValAgrees(m, st, t, lo, rs);
    case Add(_, rs1, rs2) => ValAgrees(m, st, t, lo, rs1); ValAgrees(m, st, t, lo, rs2);
    case LoadD(_, rs, _) => ValAgrees(m, st, t, lo, rs);
  }

  lemma {:induction false} CodeAgrees(m: Machine, code: seq<Instr>, st: State, t: State, lo: nat)
    requires CodeBelow(code, lo) && Agree(st, t, lo)
    ensures Agree(ExecCode(m, code, st), ExecCode(m, code, t), lo)
  {
    hide InstrBelow, Exec, Agree;
    if code != [] {
      CodeAgrees(m, code[..|code| - 1], st, t, lo);
      ExecAgrees(m, code[|code| - 1], ExecCode(m, code[..|code| - 1], st), ExecCode(m, code[..|code| - 1], t), lo);
    }
  }

  lemma {:induction false} SourceBelow(incoming: seq<(Operand, BlockId)>, from: BlockId, lo: nat)
    requires forall k :: 0 <= k < |incoming| ==> Below(incoming[k].0, lo)
    ensures Below(Source(incoming, from), lo)
  {
    SourceIsRead(incoming, from);
  }

  lemma {:induction false} EnterAgrees(m: Machine, phis: seq<Phi>, from: BlockId, st: State, t: State, lo: nat)
    requires Agree(st, t, lo) && forall i :: 0 <= i < |phis| ==> PhiBelow(phis[i], lo)
    ensures Agree(Enter(m, phis, from, st), Enter(m, phis, from, t), lo)
  {
    if phis != [] {
      var n := |phis| - 1;
      assert PhiBelow(phis[n], lo);
      EnterAgrees(m, phis[..n], from, st, t, lo);
      SourceBelow(phis[n].incoming, from, lo);
      ValAgrees(m, st, t, lo, Source(phis[n].incoming, from));
    }
  }

  lemma AgreeTransitive(r: State, s: State, t: State, lo: nat)
    requires Agree(r, s, lo) && Agree(s, t, lo)
    ensures Agree(r, t, lo)
  {
  }

  // ----- the simulation -----

  /** The eliminated function is at the same block; at `s` itself the head moves are still to come. */
  ghost predicate Related(m: Machine, f: Function, s: BlockId, e: Elim, c: Config, c': Config) {
    match c
    case Done(st) => c'.Done? && st.world == c'.st.world && st.trace == c'.st.trace
    case AtBlock(b, st) =>
      && c'.AtBlock? && c'.b == b && b in f.blocks
      && Agree(st, if b == s then ExecCode(m, e.heads, c'.st) else c'.st, f.nextReg)
  }

  /** The copies a block of the original function runs after its own code. */
  function TailOf(f: Function, s: BlockId, e: Elim, b: BlockId): seq<Instr> {
    if RunsCopies(f, s, e, b) then e.copies[b] else []
  }

  lemma TailRuns(m: Machine, f: Function, s: BlockId, e: Elim, b: BlockId, u: State)
    ensures !RunsCopies(f, s, e, b) ==> ExecCode(m, TailOf(f, s, e, b), u) == u
    ensures RunsCopies(f, s, e, b) ==>
        s in f.g.pred && b in f.g.pred[s] && b in e.copies
        && TailOf(f, s, e, b) == e.copies[b]
  {
  }

  lemma BlockRuns(m: Machine, f: Function, f': Function, s: BlockId, e: Elim, b: BlockId, st: State, t: State)
    requires ValidFunction(f) && Eliminated(f, f', s, e) && Related(m, f, s, e, AtBlock(b, st), AtBlock(b, t))
    ensures b in f'.blocks && b in f.blocks && b in f.g.succ
    ensures exists u :: Agree(ExecCode(m, f.blocks[b].code, st), u, f.nextReg)
                        && ExecCode(m, f'.blocks[b].code, t) == ExecCode(m, TailOf(f, s, e, b), u)
  {
    hide Agree, ExecCode, CopiesFor, HeadsFor, TempsFit, NewBlock, Redirect, WellFormed;
    assert BlockBecomes(f, f', s, e, b) && BlockFits(f, b);
    var heads := if b == s then e.heads else [];
    var code := f.blocks[b].code;
    var tail := TailOf(f, s, e, b);
    var t0 := ExecCode(m, heads, t);
    NoCode(m, t);
    CodeAgrees(m, code, st, t0, f.nextReg);
    ExecConcat(m, heads, code, t);
    ExecConcat(m, heads + code, tail, t);
    NoCode(m, ExecCode(m, code, t0));
  }

  lemma NoCode(m: Machine, st: State)
    ensures ExecCode(m, [], st) == st
  {
  }

  /** Going on to a block that is not `s`. */
  lemma StepElsewhere(m: Machine, f: Function, f': Function, s: BlockId, e: Elim, b: BlockId, next: BlockId, st: State,
                      t: State)
    requires ValidFunction(f) && Eliminated(f, f', s, e) && next in f.blocks && next != s && Agree(st, t, f.nextReg)
    ensures next in f'.blocks
    ensures Related(m, f, s, e, AtBlock(next, Enter(m, f.blocks[next].phis, b, st)),
        AtBlock(next, Enter(m, f'.blocks[next].phis, b, t)))
  {
    hide Agree, ExecCode, CopiesFor, HeadsFor, TempsFit, NewBlock, Redirect, WellFormed, Enter;
    assert BlockBecomes(f, f', s, e, next) && BlockFits(f, next);
    EnterAgrees(m, f.blocks[next].phis, b, st, t, f.nextReg);
  }

  /** Going on to `s` with the copies of the edge done. */
  lemma StepToEliminated(m: Machine, f: Function, f': Function, s: BlockId, e: Elim, b: BlockId, st: State, t: State)
    requires ValidFunction(f) && Eliminated(f, f', s, e) && b in f.g.pred[s] && Agree(st, t, f.nextReg)
    ensures b in e.copies
    ensures Related(m, f, s, e, AtBlock(s, Enter(m, f.blocks[s].phis, b, st)), AtBlock(s, ExecCode(m, e.copies[b], t)))
  {
    hide Agree, ExecCode, CopiesFor, HeadsFor, TempsFit, NewBlock, Redirect, WellFormed, Enter;
    assert BlockFits(f, s);
    var phis := f.blocks[s].phis;
    EnterAgrees(m, phis, b, st, t, f.nextReg);
    EdgeIsParallel(m, e.copies[b], e.heads, phis, b, e.temps, f.nextReg, t);
    AgreeTransitive(Enter(m, phis, b, st), Enter(m, phis, b, t), ExecCode(m, e.heads, ExecCode(m, e.copies[b], t)),
        f.nextReg);
  }

  lemma EnterNothing(m: Machine, b: BlockId, st: State)
    ensures Enter(m, [], b, st) == st
  {
  }

  /** The facts about one block that the step lemmas need. */
  lemma BlockFacts(f: Function, f': Function, s: BlockId, e: Elim, b: BlockId)
    requires ValidFunction(f) && Eliminated(f, f', s, e) && b in f.blocks
    ensures b in f'.blocks && b in f.g.succ && f.g.succ[b] == Targets(f.blocks[b].exits)
        && ExitsBelow(f.blocks[b].exits, f.nextReg)
    ensures s in f.g.pred && s in f.blocks && s in f'.blocks && f'.blocks[s].phis == []
    ensures b in f.g.pred[s] <==> s in f.g.succ[b]
    ensures b in f.g.pred[s] && b !in e.splits ==> RunsCopies(f, s, e, b) && |f.g.succ[b]| <= 1
    ensures b !in f.g.pred[s] ==> !RunsCopies(f, s, e, b) && b !in e.splits
    ensures b in e.splits ==> b in f.g.pred[s] && DistinctTargets(f.blocks[b].exits)
    ensures b in e.splits ==> NewBlock(f, f', s, e, b) && f'.blocks[b].exits == Redirect(f.blocks[b].exits, s,
        e.splits[b])
    ensures b !in e.splits ==> f'.blocks[b].exits == f.blocks[b].exits
    ensures forall t :: t in f.g.succ[b] ==> t in f.blocks
  {
    hide *;
    FunctionFacts(f, b);
    EdgeFacts(f, f', s, e, b);
    BecomesFacts(f, f', s, e, b);
    BecomesFacts(f, f', s, e, s);
  }

  lemma FunctionFacts(f: Function, b: BlockId)
    requires ValidFunction(f) && b in f.blocks
    ensures b in f.g.succ && f.g.succ[b] == Targets(f.blocks[b].exits) && ExitsBelow(f.blocks[b].exits, f.nextReg)
    ensures |f.g.succ[b]| > 1 ==> DistinctTargets(f.blocks[b].exits)
    ensures forall t :: t in f.g.succ[b] ==> t in f.blocks && t in f.g.pred && b in f.g.pred[t]
    ensures forall s :: s in f.g.pred && b in f.g.pred[s] ==> s in f.g.succ[b]
  {
    hide PhisFit, CodeBelow, ExitsBelow, PhiBelow, Targets, DistinctTargets;
    assert BlockFits(f, b);
  }

  lemma EdgeFacts(f: Function, f': Function, s: BlockId, e: Elim, b: BlockId)
    requires Eliminated(f, f', s, e) && b in f.blocks && b in f.g.succ
    ensures s in f.g.pred && s in f.blocks
    ensures b in f.g.pred[s] && b !in e.splits ==> RunsCopies(f, s, e, b) && |f.g.succ[b]| <= 1
    ensures b !in f.g.pred[s] ==> !RunsCopies(f, s, e, b) && b !in e.splits
    ensures b in e.splits ==> b in f.g.pred[s] && |f.g.succ[b]| > 1
  {
    hide CopiesFor, HeadsFor, TempsFit, BlockBecomes, NewBlock;
  }

  lemma BecomesFacts(f: Function, f': Function, s: BlockId, e: Elim, b: BlockId)
    requires Eliminated(f, f', s, e) && b in f.blocks
    ensures b in f'.blocks
    ensures b == s ==> f'.blocks[b].phis == []
    ensures b in e.splits ==> NewBlock(f, f', s, e, b) && f'.blocks[b].exits == Redirect(f.blocks[b].exits, s,
        e.splits[b])
    ensures b !in e.splits ==> f'.blocks[b].exits == f.blocks[b].exits
  {
    hide CopiesFor, HeadsFor, TempsFit, NewBlock, Redirect;
    assert BlockBecomes(f, f', s, e, b);
  }

  lemma SmallSet(xs: set<BlockId>, x: BlockId, y: BlockId)
    requires |xs| <= 1 && x in xs && y in xs
    ensures x == y
  {
    var rest := xs - {x};
    assert |xs| == |rest| + 1;
    assert rest == {};
    assert y in rest || y == x;
  }

  /** A block that ends the function. */
  lemma StepDone(m: Machine, f: Function, f': Function, s: BlockId, e: Elim, b: BlockId, st: State, t: State)
    requires ValidFunction(f) && Eliminated(f, f', s, e) && Related(m, f, s, e, AtBlock(b, st), AtBlock(b, t))
    requires b in f.blocks && f.blocks[b].exits == []
    ensures Related(m, f, s, e, Step(m, f, AtBlock(b, st)), Step(m, f', AtBlock(b, t)))
  {
    hide *;
    BlockRuns(m, f, f', s, e, b, st, t);
    var u :| Agree(ExecCode(m, f.blocks[b].code, st), u, f.nextReg)
             && ExecCode(m, f'.blocks[b].code, t) == ExecCode(m, TailOf(f, s, e, b), u);
    TailRuns(m, f, s, e, b, u);
    BlockFacts(f, f', s, e, b);
    NoTargets();
    RedirectNothing(f, e, s, b);
    DoneSteps(m, f, b, st);
    DoneSteps(m, f', b, t);
    DoneRelated(m, f, s, e, ExecCode(m, f.blocks[b].code, st), u);
  }

  lemma NoTargets()
    ensures Targets([]) == {}
  {
  }

  lemma RedirectNothing(f: Function, e: Elim, s: BlockId, b: BlockId)
    ensures forall x :: Redirect([], s, x) == []
  {
  }

  lemma DoneSteps(m: Machine, f: Function, b: BlockId, st: State)
    requires b in f.blocks && f.blocks[b].exits == []
    ensures Step(m, f, AtBlock(b, st)) == Done(ExecCode(m, f.blocks[b].code, st))
  {
  }

  lemma DoneRelated(m: Machine, f: Function, s: BlockId, e: Elim, st: State, t: State)
    requires Agree(st, t, f.nextReg)
    ensures Related(m, f, s, e, Done(st), Done(t))
  {
  }

  lemma GoesOn(m: Machine, f: Function, b: BlockId, st: State)
    requires b in f.blocks && f.blocks[b].exits != []
    ensures var st1 := ExecCode(m, f.blocks[b].code, st);
            var t := Target(m, f.blocks[b].exits, st1);
            Step(m, f, AtBlock(b, st)) == AtBlock(t, if t in f.blocks then Enter(m, f.blocks[t].phis, b, st1) else st1)
  {
  }

  /** A block whose only successor is `s` runs the copies itself. */
  lemma StepWithCopies(m: Machine, f: Function, f': Function, s: BlockId, e: Elim, b: BlockId, st: State, t: State)
    requires ValidFunction(f) && Eliminated(f, f', s, e) && Related(m, f, s, e, AtBlock(b, st), AtBlock(b, t))
    requires b in f.blocks && f.blocks[b].exits != [] && RunsCopies(f, s, e, b)
    ensures Related(m, f, s, e, Step(m, f, AtBlock(b, st)), Step(m, f', AtBlock(b, t)))
  {
    hide *;
    BlockRuns(m, f, f', s, e, b, st, t);
    var u :| Agree(ExecCode(m, f.blocks[b].code, st), u, f.nextReg)
             && ExecCode(m, f'.blocks[b].code, t) == ExecCode(m, TailOf(f, s, e, b), u);
    TailRuns(m, f, s, e, b, u);
    BlockFacts(f, f', s, e, b);
    RunsCopiesFacts(f, s, e, b);
    GoesOn(m, f, b, st);
    GoesOn(m, f', b, t);
    TargetIsTarget(m, f.blocks[b].exits, ExecCode(m, f.blocks[b].code, st));
    TargetIsTarget(m, f'.blocks[b].exits, ExecCode(m, f'.blocks[b].code, t));
    SmallSet(f.g.succ[b], s, Target(m, f.blocks[b].exits, ExecCode(m, f.blocks[b].code, st)));
    SmallSet(f.g.succ[b], s, Target(m, f'.blocks[b].exits, ExecCode(m, f'.blocks[b].code, t)));
    StepToEliminated(m, f, f', s, e, b, ExecCode(m, f.blocks[b].code, st), u);
    EnterNothing(m, b, ExecCode(m, f'.blocks[b].code, t));
  }

  lemma RunsCopiesFacts(f: Function, s: BlockId, e: Elim, b: BlockId)
    requires RunsCopies(f, s, e, b)
    ensures s in f.g.pred && b in f.g.pred[s] && b !in e.splits && b in e.copies
  {
  }

  /** A block with no edge to `s`. */
  lemma StepPast(m: Machine, f: Function, f': Function, s: BlockId, e: Elim, b: BlockId, st: State, t: State)
    requires ValidFunction(f) && Eliminated(f, f', s, e) && Related(m, f, s, e, AtBlock(b, st), AtBlock(b, t))
    requires b in f.blocks && f.blocks[b].exits != [] && s in f.g.pred && b !in f.g.pred[s]
    ensures Related(m, f, s, e, Step(m, f, AtBlock(b, st)), Step(m, f', AtBlock(b, t)))
  {
    hide *;
    BlockRuns(m, f, f', s, e, b, st, t);
    var u :| Agree(ExecCode(m, f.blocks[b].code, st), u, f.nextReg)
             && ExecCode(m, f'.blocks[b].code, t) == ExecCode(m, TailOf(f, s, e, b), u);
    TailRuns(m, f, s, e, b, u);
    BlockFacts(f, f', s, e, b);
    GoesOn(m, f, b, st);
    GoesOn(m, f', b, t);
    var st1 := ExecCode(m, f.blocks[b].code, st);
    TargetIsTarget(m, f.blocks[b].exits, st1);
    TargetAgrees(m, f.blocks[b].exits, st1, u, f.nextReg);
    StepElsewhere(m, f, f', s, e, b, Target(m, f.blocks[b].exits, st1), st1, u);
  }

  lemma TargetOfSplit(m: Machine, f: Function, f': Function, s: BlockId, e: Elim, b: BlockId, st: State, u: State)
    requires ValidFunction(f) && Eliminated(f, f', s, e) && b in f.blocks && b in e.splits && f.blocks[b].exits != []
        && Agree(st, u, f.nextReg)
    ensures b in f'.blocks && f'.blocks[b].exits != []
    ensures Target(m, f'.blocks[b].exits, u) == if Target(m, f.blocks[b].exits, st) == s then e.splits[b]
        else Target(m, f.blocks[b].exits, st)
  {
    hide *;
    BlockFacts(f, f', s, e, b);
    var exits, exits' := f.blocks[b].exits, f'.blocks[b].exits;
    RedirectLength(exits, s, e.splits[b]);
    forall k | 0 <= k < |exits| ensures exits'[k] == if exits[k].target == s then exits[k].(target := e.splits[b])
        else exits[k] {
      RedirectAt(exits, s, e.splits[b], k);
    }
    TargetRedirected(m, exits, exits', s, e.splits[b], st, u, f.nextReg);
  }

  lemma RedirectLength(exits: seq<Exit>, s: BlockId, e: BlockId)
    ensures |Redirect(exits, s, e)| == |exits|
  {
  }

  /** A block that had a choice: the way to `s` now leads through the new block, which runs the copies. */
  lemma StepSplit(m: Machine, f: Function, f': Function, s: BlockId, e: Elim, b: BlockId, st: State, t: State)
    returns (twice: bool)
    requires ValidFunction(f) && Eliminated(f, f', s, e) && Related(m, f, s, e, AtBlock(b, st), AtBlock(b, t))
    requires b in f.blocks && f.blocks[b].exits != [] && b in e.splits
    ensures var c' := Step(m, f', AtBlock(b, t));
            Related(m, f, s, e, Step(m, f, AtBlock(b, st)), if twice then Step(m, f', c') else c')
  {
    hide *;
    BlockRuns(m, f, f', s, e, b, st, t);
    var u :| Agree(ExecCode(m, f.blocks[b].code, st), u, f.nextReg)
             && ExecCode(m, f'.blocks[b].code, t) == ExecCode(m, TailOf(f, s, e, b), u);
    TailRuns(m, f, s, e, b, u);
    BlockFacts(f, f', s, e, b);
    SplitRunsNone(f, s, e, b);
    var st1 := ExecCode(m, f.blocks[b].code, st);
    GoesOn(m, f, b, st);
    TargetOfSplit(m, f, f', s, e, b, st1, u);
    GoesOn(m, f', b, t);
    TargetIsTarget(m, f.blocks[b].exits, st1);
    twice := Target(m, f.blocks[b].exits, st1) == s;
    if twice {
      NewBlockFacts(f, f', s, e, b);
      EnterNothing(m, b, u);
      NewBlockRuns(m, f, f', s, e, b, u);
      StepToEliminated(m, f, f', s, e, b, st1, u);
    } else {
      StepElsewhere(m, f, f', s, e, b, Target(m, f.blocks[b].exits, st1), st1, u);
    }
  }

  lemma SplitRunsNone(f: Function, s: BlockId, e: Elim, b: BlockId)
    requires b in e.splits
    ensures !RunsCopies(f, s, e, b)
  {
  }

  lemma NewBlockFacts(f: Function, f': Function, s: BlockId, e: Elim, b: BlockId)
    requires b in e.splits && NewBlock(f, f', s, e, b)
    ensures b in e.copies && e.splits[b] in f'.blocks && f'.blocks[e.splits[b]] == Block([], e.copies[b], [Jump(s)])
  {
  }

  lemma NewBlockRuns(m: Machine, f: Function, f': Function, s: BlockId, e: Elim, b: BlockId, u: State)
    requires b in e.splits && NewBlock(f, f', s, e, b) && s in f'.blocks && f'.blocks[s].phis == []
    ensures Step(m, f', AtBlock(e.splits[b], u)) == AtBlock(s, ExecCode(m, e.copies[b], u))
  {
    EnterNothing(m, e.splits[b], ExecCode(m, e.copies[b], u));
  }

  lemma StepRelated(m: Machine, f: Function, f': Function, s: BlockId, e: Elim, c: Config, c': Config)
    returns (twice: bool)
    requires ValidFunction(f) && Eliminated(f, f', s, e) && Related(m, f, s, e, c, c')
    ensures Related(m, f, s, e, Step(m, f, c), if twice then Step(m, f', Step(m, f', c')) else Step(m, f', c'))
  {
    hide ValidFunction, Eliminated, ExecCode, Agree, RunsCopies;
    twice := false;
    if c.AtBlock? {
      hide Related;
      RelatedFacts(m, f, s, e, c, c');
      var b, st, t := c.b, c.st, c'.st;
      BlockFacts(f, f', s, e, b);
      if f.blocks[b].exits == [] {
        StepDone(m, f, f', s, e, b, st, t);
      } else if b !in f.g.pred[s] {
        StepPast(m, f, f', s, e, b, st, t);
      } else if b in e.splits {
        twice := StepSplit(m, f, f', s, e, b, st, t);
      } else {
        StepWithCopies(m, f, f', s, e, b, st, t);
      }
    }
  }

  lemma RelatedFacts(m: Machine, f: Function, s: BlockId, e: Elim, c: Config, c': Config)
    requires Related(m, f, s, e, c, c') && c.AtBlock?
    ensures c'.AtBlock? && c'.b == c.b && c.b in f.blocks
  {
  }

  lemma {:induction false} RunRelated(m: Machine, f: Function, f': Function, s: BlockId, e: Elim, n: nat, init: State)
    returns (n': nat)
    requires ValidFunction(f) && Eliminated(f, f', s, e) && s != f.g.entry
    ensures n' >= n && Related(m, f, s, e, RunFor(m, f, n, init), RunFor(m, f', n', init))
  {
    hide ValidFunction, Eliminated, Related, Step;
    if n == 0 {
      n' := 0;
      EntryRelated(m, f, f', s, e, init);
    } else {
      var k := RunRelated(m, f, f', s, e, n - 1, init);
      var twice := StepRelated(m, f, f', s, e, RunFor(m, f, n - 1, init), RunFor(m, f', k, init));
      n' := if twice then k + 2 else k + 1;
    }
  }

  lemma EntryRelated(m: Machine, f: Function, f': Function, s: BlockId, e: Elim, init: State)
    requires ValidFunction(f) && Eliminated(f, f', s, e) && s != f.g.entry
    ensures Related(m, f, s, e, AtBlock(f.g.entry, init), AtBlock(f'.g.entry, init))
  {
    hide CopiesFor, HeadsFor, TempsFit, BlockBecomes, NewBlock, BlockFits;
  }

  // ----- equivalence -----

  /** What can be seen of a run: where it is, what it has shown, and the world. */
  ghost predicate SameView(c: Config, c': Config) {
    && c.Done? == c'.Done? && (c.AtBlock? ==> c'.AtBlock? && c'.b == c.b)
    && c.st.world == c'.st.world && c.st.trace == c'.st.trace
  }

  /** Every state of every run of `f` is seen in the same run of `f'`, not before as many blocks. */
  ghost predicate Preserves(f: Function, f': Function) {
    forall m: Machine, n: nat, init: State :: Seen(m, f, f', n, init)
  }

  ghost predicate Seen(m: Machine, f: Function, f': Function, n: nat, init: State) {
    exists n': nat :: n' >= n && SameView(RunFor(m, f, n, init), RunFor(m, f', n', init))
  }

  lemma RelatedIsSameView(m: Machine, f: Function, s: BlockId, e: Elim, c: Config, c': Config)
    requires Related(m, f, s, e, c, c') && (forall st ::
        ExecCode(m, e.heads, st).world == st.world
        && ExecCode(m, e.heads, st).trace == st.trace)
    ensures SameView(c, c')
  {
  }

  lemma HeadsQuiet(m: Machine, f: Function, f': Function, s: BlockId, e: Elim, st: State)
    requires Eliminated(f, f', s, e)
    ensures ExecCode(m, e.heads, st).world == st.world && ExecCode(m, e.heads, st).trace == st.trace
  {
    HeadsRun(m, e.heads, e.temps, f.nextReg, st, Imm(0));
  }

  /** Eliminating the phis of one block preserves every run. */
  lemma EliminationPreserves(f: Function, f': Function, s: BlockId, e: Elim)
    requires ValidFunction(f) && Eliminated(f, f', s, e) && s != f.g.entry
    ensures Preserves(f, f')
  {
    hide ValidFunction, Eliminated, Related, RunFor, ExecCode, SameView;
    forall m: Machine, n: nat, init: State ensures Seen(m, f, f', n, init) {
      var n' := RunRelated(m, f, f', s, e, n, init);
      forall st ensures ExecCode(m, e.heads, st).world == st.world && ExecCode(m, e.heads, st).trace == st.trace {
        HeadsQuiet(m, f, f', s, e, st);
      }
      RelatedIsSameView(m, f, s, e, RunFor(m, f, n, init), RunFor(m, f', n', init));
    }
  }

  lemma PreservesTransitive(f: Function, f1: Function, f2: Function)
    requires Preserves(f, f1) && Preserves(f1, f2)
    ensures Preserves(f, f2)
  {
    hide RunFor;
    forall m: Machine, n: nat, init: State ensures Seen(m, f, f2, n, init) {
      assert Seen(m, f, f1, n, init);
      var n1: nat :| n1 >= n && SameView(RunFor(m, f, n, init), RunFor(m, f1, n1, init));
      assert Seen(m, f1, f2, n1, init);
      var n2: nat :| n2 >= n1 && SameView(RunFor(m, f1, n1, init), RunFor(m, f2, n2, init));
    }
  }

  lemma PreservesItself(f: Function)
    ensures Preserves(f, f)
  {
    hide RunFor;
    forall m: Machine, n: nat, init: State ensures Seen(m, f, f, n, init) {
      assert SameView(RunFor(m, f, n, init), RunFor(m, f, n, init));
    }
  }
}
