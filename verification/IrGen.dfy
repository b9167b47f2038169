/** The generator that lowers statements: the builder with its current block, the layout of the
    function, and the recursion over statements and conditions. */
module IrGenerator {
  import opened StructuredProgram
  import opened LoweredCode
  import opened LoweredStatements

  predicate Terminated(code: seq<Instr>) {
    |code| > 0 && IsTerminator(code[|code| - 1])
  }

  /** `b` is attached and the block after it in the layout is `next`, which is not the return block. */
  ghost predicate Follows(layout: seq<BlockId>, b: BlockId, next: BlockId) {
    exists j, l :: 0 <= j && l == j + 1 && l < |layout| - 1 && layout[j] == b && layout[l] == next
  }

  /** The state of the builder inside a function: every attached block other than the current one has
      a terminator or falls through to the block after it, and the current block, if attached, is the
      last before the return block. */
  ghost predicate Builder(blocks: map<BlockId, seq<Instr>>, layout: seq<BlockId>, falls: map<BlockId, BlockId>,
                          curr: BlockId, ret: BlockId, next: nat) {
    && curr in blocks && curr != ret
    && (forall b :: b in blocks ==> b < next)
    && |layout| >= 2 && layout[|layout| - 1] == ret && ret in blocks && blocks[ret] == [Ret]
    && (forall j :: 0 <= j < |layout| ==> layout[j] in blocks)
    && (forall i, j :: 0 <= i < j < |layout| ==> layout[i] != layout[j])
    && (forall b :: b in layout && b in blocks ==> b == curr || Terminated(blocks[b]) || b in falls)
    && (curr in layout ==> layout[|layout| - 2] == curr)
    && curr !in falls
    && (forall b :: b in falls ==> b in blocks && !Terminated(blocks[b]) && Follows(layout, b, falls[b]))
  }

  /** The current block is attached and open: what is appended will run. */
  predicate IsLive(blocks: map<BlockId, seq<Instr>>, layout: seq<BlockId>, curr: BlockId) {
    curr in layout && curr in blocks && !Terminated(blocks[curr])
  }

  function Here(blocks: map<BlockId, seq<Instr>>, curr: BlockId): Pos {
    Pos(curr, if curr in blocks then |blocks[curr]| else 0)
  }

  lemma GrowsTransitive(c: Code, d: Code, e: Code)
    requires Grows(c, d) && Grows(d, e)
    ensures Grows(c, e)
  {
    hide At;
  }

  lemma GrowsChain(c0: Code, c1: Code, c2: Code, c3: Code, c4: Code, c5: Code)
    requires Grows(c0, c1) && Grows(c1, c2) && Grows(c2, c3) && Grows(c3, c4) && Grows(c4, c5)
    ensures Grows(c0, c5) && Grows(c1, c5) && Grows(c2, c5) && Grows(c3, c5)
  {
    hide *;
    GrowsTransitive(c3, c4, c5);
    GrowsTransitive(c2, c3, c5);
    GrowsTransitive(c1, c2, c5);
    GrowsTransitive(c0, c1, c5);
  }

  // ----- what one step of the builder does -----

  lemma FetchKeeps(blocks: map<BlockId, seq<Instr>>, layout: seq<BlockId>, falls: map<BlockId, BlockId>, curr: BlockId,
                   ret: BlockId, next: nat)
    requires Builder(blocks, layout, falls, curr, ret, next)
    ensures next !in blocks && next !in layout && next !in falls
    ensures Builder(blocks[next := []], layout, falls, curr, ret, next + 1)
    ensures Grows(Code(blocks, falls), Code(blocks[next := []], falls))
    ensures IsLive(blocks[next := []], layout, curr) == IsLive(blocks, layout, curr)
  {
    hide Follows, Terminated;
  }

  /** Switching to a block that is not attached: dead code goes on there. */
  lemma DetachKeeps(blocks: map<BlockId, seq<Instr>>, layout: seq<BlockId>, falls: map<BlockId, BlockId>, curr: BlockId,
                    ret: BlockId, next: nat, b: BlockId)
    requires Builder(blocks, layout, falls, curr, ret, next) && b in blocks && b !in layout && b !in falls && b != ret
    requires curr !in layout || Terminated(blocks[curr])
    ensures Builder(blocks, layout, falls, b, ret, next) && !IsLive(blocks, layout, b)
  {
    hide Follows, Terminated;
  }

  lemma AppendKeeps(blocks: map<BlockId, seq<Instr>>, layout: seq<BlockId>, falls: map<BlockId, BlockId>, curr: BlockId,
                    ret: BlockId, next: nat, ins: Instr)
    requires Builder(blocks, layout, falls, curr, ret, next)
    ensures var after := blocks[curr := blocks[curr] + [ins]];
            && Builder(after, layout, falls, curr, ret, next)
            && Grows(Code(blocks, falls), Code(after, falls))
            && At(Code(after, falls), Here(blocks, curr), ins)
            && Here(after, curr) == Next(Here(blocks, curr))
            && IsLive(after, layout, curr) == (curr in layout && !IsTerminator(ins))
            && Terminated(after[curr]) == IsTerminator(ins)
  {
    hide Follows;
  }

  /** Appending a block before the return block and going on there. A block left open falls through. */
  function FallsAfter(blocks: map<BlockId, seq<Instr>>, layout: seq<BlockId>, falls: map<BlockId, BlockId>,
                      curr: BlockId, b: BlockId): map<BlockId, BlockId> {
    if IsLive(blocks, layout, curr) then falls[curr := b] else falls
  }

  function Inserted(layout: seq<BlockId>, b: BlockId): seq<BlockId>
    requires |layout| > 0
  {
    layout[..|layout| - 1] + [b] + [layout[|layout| - 1]]
  }

  lemma InsertedAt(layout: seq<BlockId>, b: BlockId)
    requires |layout| >= 2
    ensures var l := Inserted(layout, b); var n := |layout|;
            && |l| == n + 1 && l[n] == layout[n - 1] && l[n - 1] == b
            && (forall j :: 0 <= j < n - 1 ==> l[j] == layout[j])
            && (forall x :: x in l <==> x in layout || x == b)
            && (forall x, y :: Follows(layout, x, y) ==> Follows(l, x, y))
            && Follows(l, layout[n - 2], b)
  {
    var l := Inserted(layout, b);
    var n := |layout|;
    assert layout == layout[..n - 1] + [layout[n - 1]];
    forall x, y | Follows(layout, x, y) ensures Follows(l, x, y) {
      var i, j :| 0 <= i && j == i + 1 && j < |layout| - 1 && layout[i] == x && layout[j] == y;
      assert l[i] == x && l[j] == y;
    }
    assert l[n - 2] == layout[n - 2] && l[n - 1] == b;
  }

  lemma StartKeeps(blocks: map<BlockId, seq<Instr>>, layout: seq<BlockId>, falls: map<BlockId, BlockId>, curr: BlockId,
                   ret: BlockId, next: nat, b: BlockId)
    requires Builder(blocks, layout, falls, curr, ret, next) && b in blocks && b !in layout && b !in falls && b != curr
        && !Terminated(blocks[b])
    ensures Builder(blocks, Inserted(layout, b), FallsAfter(blocks, layout, falls, curr, b), b, ret, next)
    ensures Grows(Code(blocks, falls), Code(blocks, FallsAfter(blocks, layout, falls, curr, b)))
    ensures IsLive(blocks, Inserted(layout, b), b)
    ensures IsLive(blocks, layout, curr) ==> At(Code(blocks, FallsAfter(blocks, layout, falls, curr, b)),
        Here(blocks, curr), Jump(b))
  {
    hide Follows, Terminated;
    InsertedAt(layout, b);
    StartLayout(blocks, layout, falls, curr, ret, next, b);
  }

  lemma StartLayout(blocks: map<BlockId, seq<Instr>>, layout: seq<BlockId>, falls: map<BlockId, BlockId>, curr: BlockId,
                    ret: BlockId, next: nat, b: BlockId)
    requires Builder(blocks, layout, falls, curr, ret, next) && b in blocks && b !in layout && b !in falls && b != curr
    ensures var l := Inserted(layout, b);
            && (forall j :: 0 <= j < |l| ==> l[j] in blocks)
            && (forall i, j :: 0 <= i < j < |l| ==> l[i] != l[j])
  {
    hide Follows, Terminated;
    InsertedAt(layout, b);
    var l := Inserted(layout, b);
    var n := |layout|;
    forall i, j | 0 <= i < j < |l| ensures l[i] != l[j] {
      var x := if i == n - 1 then b else layout[i];
      var y := if j == n - 1 then b else if j == n then layout[n - 1] else layout[j];
      assert l[i] == x && l[j] == y;
    }
  }

  // ----- edges -----

  function TargetsOf(code: seq<Instr>): set<BlockId> {
    if code == [] then {}
    else
      TargetsOf(code[..|code| - 1]) +
      match code[|code| - 1]
      case Branch(_, t, e) => {t, e}
      case Jump(t) => {t}
      case _ => {}
  }

  /** The edge lists are those of the branches, and mutual inverses. */
  ghost predicate EdgesMatch(blocks: map<BlockId, seq<Instr>>, succ: map<BlockId, set<BlockId>>,
                             pred: map<BlockId, set<BlockId>>) {
    && succ.Keys == blocks.Keys && pred.Keys == blocks.Keys
    && (forall b :: b in blocks && b in succ ==> succ[b] == TargetsOf(blocks[b]))
    && (forall b, t :: b in succ && t in pred ==> (t in succ[b] <==> b in pred[t]))
    && (forall b, t :: b in succ && t in succ[b] ==> t in blocks)
    && (forall b, t :: b in pred && t in pred[b] ==> t in blocks)
  }

  lemma EdgesFetch(blocks: map<BlockId, seq<Instr>>, succ: map<BlockId, set<BlockId>>, pred: map<BlockId, set<BlockId>>,
                   b: BlockId)
    requires EdgesMatch(blocks, succ, pred) && b !in blocks
    ensures EdgesMatch(blocks[b := []], succ[b := {}], pred[b := {}])
  {
    hide TargetsOf;
    NoTargets();
  }

  lemma NoTargets()
    ensures TargetsOf([]) == {}
  {
  }

  lemma MoreTargets(code: seq<Instr>, ins: Instr)
    ensures TargetsOf(code + [ins]) == TargetsOf(code) + TargetsOf([ins])
    ensures ins.Branch? ==> TargetsOf([ins]) == {ins.thenBlock, ins.elseBlock}
    ensures ins.Jump? ==> TargetsOf([ins]) == {ins.target}
    ensures !ins.Branch? && !ins.Jump? ==> TargetsOf([ins]) == {}
  {
    assert (code + [ins])[..|code|] == code;
    assert [ins][..0] == [];
  }

  /** One more edge, in both lists. */
  function AddPred(pred: map<BlockId, set<BlockId>>, t: BlockId, b: BlockId): map<BlockId, set<BlockId>> {
    if t in pred then pred[t := pred[t] + {b}] else pred
  }

  lemma EdgesAppend(blocks: map<BlockId, seq<Instr>>, succ: map<BlockId, set<BlockId>>,
                    pred: map<BlockId, set<BlockId>>, b: BlockId, ins: Instr)
    requires EdgesMatch(blocks, succ, pred) && b in blocks
    requires ins.Branch? ==> ins.thenBlock in blocks && ins.elseBlock in blocks
    requires ins.Jump? ==> ins.target in blocks
    ensures b in succ
    ensures var pred1 := if ins.Branch? then AddPred(AddPred(pred, ins.thenBlock, b), ins.elseBlock, b)
        else if ins.Jump? then AddPred(pred, ins.target, b) else pred;
            EdgesMatch(blocks[b := blocks[b] + [ins]], succ[b := succ[b] + TargetsOf([ins])], pred1)
  {
    hide TargetsOf;
    MoreTargets(blocks[b], ins);
  }

  class IrGen {
    var blocks: map<BlockId, seq<Instr>>
    var layout: seq<BlockId>
    var succ: map<BlockId, set<BlockId>>
    var pred: map<BlockId, set<BlockId>>
    var curr: BlockId
    var returnBlock: BlockId
    var nextBlock: nat
    var nextOperand: nat
    var condStack: seq<BlockId>
    var tailStack: seq<BlockId>
    ghost var falls: map<BlockId, BlockId>

    ghost predicate Ok()
      reads this`blocks, this`layout, this`falls, this`curr, this`returnBlock, this`nextBlock, this`succ, this`pred
    {
      Builder(blocks, layout, falls, curr, returnBlock, nextBlock) && EdgesMatch(blocks, succ, pred)
    }

    ghost function Now(): Code
      reads this`blocks, this`falls
    {
      Code(blocks, falls)
    }

    ghost function Live(): bool
      reads this`blocks, this`layout, this`curr
    {
      IsLive(blocks, layout, curr)
    }

    ghost function Point(): Pos
      reads this`blocks, this`curr
    {
      Here(blocks, curr)
    }

    ghost function Snapshot(): Snap
      reads this`blocks, this`layout, this`falls, this`curr
    {
      Snap(blocks, layout, falls, curr)
    }

    lemma Means()
      ensures Ok() == (Builder(blocks, layout, falls, curr, returnBlock, nextBlock) && EdgesMatch(blocks, succ, pred))
      ensures Now() == Code(blocks, falls) && Live() == IsLive(blocks, layout, curr) && Point() == Here(blocks, curr)
      ensures Snapshot() == Snap(blocks, layout, falls, curr)
      ensures Ways() == WaysOf(condStack, tailStack, returnBlock)
      ensures StacksOk() == StacksIn(condStack, tailStack, returnBlock, blocks)
    {
    }

    method FetchBlock() returns (b: BlockId)
      requires Ok()
      modifies this`blocks, this`nextBlock, this`succ, this`pred
      ensures Ok() && Evolves(old(Snapshot()), Snapshot()) && Live() == old(Live()) && Point() == old(Point())
      ensures b in FreshOf(Snapshot()) && b !in FreshOf(old(Snapshot())) && b !in old(blocks)
          && blocks == old(blocks)[b := []]
    {
      hide *;
      Means();
      FetchKeeps(blocks, layout, falls, curr, returnBlock, nextBlock);
      EdgesFetch(blocks, succ, pred, nextBlock);
      CurrExists(blocks, layout, falls, curr, returnBlock, nextBlock);
      FetchEvolves(Snapshot(), nextBlock);
      b := nextBlock;
      blocks := blocks[b := []];
      succ := succ[b := {}];
      pred := pred[b := {}];
      nextBlock := nextBlock + 1;
      Means();
      SamePoint(old(blocks), blocks, curr);
    }

    /** Append to the current block; after a terminator, to a new block that is not attached. */
    method AppendInstruction(ins: Instr)
      requires Ok() && TargetsExist(ins, blocks)
      modifies this`blocks, this`nextBlock, this`succ, this`pred, this`curr
      ensures Ok() && Evolves(old(Snapshot()), Snapshot())
      ensures old(Live()) ==>
          At(Now(), old(Point()), ins) && Point() == Next(old(Point()))
          && Live() == !IsTerminator(ins)
      ensures curr in blocks && Terminated(blocks[curr]) == IsTerminator(ins)
      ensures old(Live()) ==> curr == old(curr)
    {
      hide *;
      Means();
      CurrExists(blocks, layout, falls, curr, returnBlock, nextBlock);
      EvolvesItself(Snapshot());
      ghost var live := Live();
      TerminatedNotLive(blocks, layout, curr);
      if Terminated(blocks[curr]) {
        var b := FetchBlock();
        Means();
        FreshFacts(Snapshot(), b);
        StaysTerminated(old(Snapshot()), Snapshot(), falls, curr, returnBlock, nextBlock);
        DetachKeeps(blocks, layout, falls, curr, returnBlock, nextBlock, b);
        DetachEvolves(old(Snapshot()), Snapshot(), b);
        curr := b;
        Means();
      }
      TargetsStill(ins, old(Snapshot()), Snapshot());
      CurrExists(blocks, layout, falls, curr, returnBlock, nextBlock);
      AppendKeeps(blocks, layout, falls, curr, returnBlock, nextBlock, ins);
      AppendEvolves(old(Snapshot()), Snapshot(), ins);
      AppendToCurrent(ins);
      Means();
      LiveMeans(old(blocks), layout, curr);
    }

    /** Append to the current block and keep both edge lists up to date. */
    method AppendToCurrent(ins: Instr)
      requires curr in blocks && EdgesMatch(blocks, succ, pred)
      requires ins.Branch? ==> ins.thenBlock in blocks && ins.elseBlock in blocks
      requires ins.Jump? ==> ins.target in blocks
      modifies this`blocks, this`succ, this`pred
      ensures blocks == old(blocks)[curr := old(blocks)[curr] + [ins]] && EdgesMatch(blocks, succ, pred)
    {
      hide *;
      EdgesAppend(blocks, succ, pred, curr, ins);
      blocks := blocks[curr := blocks[curr] + [ins]];
      succ := succ[curr := succ[curr] + TargetsOf([ins])];
      MoreTargets([], ins);
      if ins.Branch? {
        pred := AddPred(pred, ins.thenBlock, curr);
        pred := AddPred(pred, ins.elseBlock, curr);
      } else if ins.Jump? {
        pred := AddPred(pred, ins.target, curr);
      }
    }

    /** Attach a block before the return block and go on there. */
    method StartBlock(b: BlockId)
      requires Ok() && b in FreshOf(Snapshot())
      modifies this`layout, this`curr, this`falls
      ensures Ok() && Live() && Point() == Pos(b, 0) && Grows(old(Now()), Now())
      ensures FreshOf(old(Snapshot())) - {b} <= FreshOf(Snapshot())
      ensures old(Live()) ==> At(Now(), old(Point()), Jump(b))
    {
      hide *;
      Means();
      FreshFacts(Snapshot(), b);
      NotTerminated();
      StartKeeps(blocks, layout, falls, curr, returnBlock, nextBlock, b);
      CurrExists(blocks, layout, falls, curr, returnBlock, nextBlock);
      StartEvolves(Snapshot(), b);
      InsertedMeans(layout, b);
      falls := FallsAfter(blocks, layout, falls, curr, b);
      layout := layout[..|layout| - 1] + [b] + [layout[|layout| - 1]];
      curr := b;
      Means();
      EmptyPoint(blocks, b);
    }

    // ----- conditions and expressions -----

    /** The block that stores one of the two truth values and goes to the end of the evaluation. */
    method GenFlag(b: BlockId, slot: nat, flag: int, tail: BlockId)
      requires Ok() && b in FreshOf(Snapshot()) && tail in blocks
      modifies this`blocks, this`nextBlock, this`succ, this`pred, this`curr, this`layout, this`falls
      ensures Ok() && Grows(old(Now()), Now()) && old(blocks).Keys <= blocks.Keys && curr in blocks
          && Terminated(blocks[curr])
      ensures FreshOf(old(Snapshot())) - {b} <= FreshOf(Snapshot())
      ensures At(Now(), Pos(b, 0), SetSlot(slot, flag)) && At(Now(), Pos(b, 1), Jump(tail))
    {
      hide *;
      StartBlock(b);
      ghost var s0 := Snapshot();
      Means();
      PlainTargets(SetSlot(slot, flag), blocks);
      AppendInstruction(SetSlot(slot, flag));
      ghost var s1 := Snapshot();
      Means();
      EvolvesMeans(s0, s1);
      Kinds(SetSlot(slot, flag));
      PointAfter(b);
      JumpTarget(tail, s0, s1);
      AppendInstruction(Jump(tail));
      ghost var s2 := Snapshot();
      Means();
      Kinds(Jump(tail));
      EvolvesMeans(s1, s2);
      Stays(Code(s1.blocks, s1.falls), Code(s2.blocks, s2.falls), Pos(b, 0), SetSlot(slot, flag));
      GrowsTransitive(old(Now()), Code(s0.blocks, s0.falls), Code(s1.blocks, s1.falls));
      GrowsTransitive(old(Now()), Code(s1.blocks, s1.falls), Code(s2.blocks, s2.falls));
    }

    /** Code for an expression; where it is and which register holds the result. */
    method GenExpr(e: Expr) returns (dst: nat, ghost k: ExprCode)
      requires Ok()
      modifies this`blocks, this`nextBlock, this`succ, this`pred, this`curr, this`layout, this`falls, this`nextOperand
      ensures Ok() && Evolves(old(Snapshot()), Snapshot()) && old(nextOperand) <= dst < nextOperand
      ensures old(Live()) ==> Live() && ExprMade(Now(), e, k, dst, old(nextOperand), nextOperand, old(Point()), Point())
      decreases e, 1
    {
      hide *;
      k := AtomCode(Point(), 0);
      match e {
        case Atom(id) =>
          dst := nextOperand;
          k := AtomCode(Point(), dst);
          nextOperand := nextOperand + 1;
          PlainTargets(EvalAtom(dst, id), blocks);
          AppendInstruction(EvalAtom(dst, id));
          Kinds(EvalAtom(dst, id));
          if old(Live()) { AtomMade(Now(), id, dst, old(nextOperand), old(Point())); }
        case Op(op, lhs, rhs) =>
          dst, k := GenOp(e);
        case And(_, _) =>
          dst, k := GenShort(e);
        case Or(_, _) =>
          dst, k := GenShort(e);
      }
    }

    method GenOp(e: Expr) returns (dst: nat, ghost k: ExprCode)
      requires Ok() && e.Op?
      modifies this`blocks, this`nextBlock, this`succ, this`pred, this`curr, this`layout, this`falls, this`nextOperand
      ensures Ok() && Evolves(old(Snapshot()), Snapshot()) && old(nextOperand) <= dst < nextOperand
      ensures old(Live()) ==> Live() && ExprMade(Now(), e, k, dst, old(nextOperand), nextOperand, old(Point()), Point())
      decreases e, 0
    {
      hide *;
      ghost var s0, p0 := Snapshot(), Point();
      var l, kl := GenExpr(e.lhs);
      ghost var s1, p1, mid := Snapshot(), Point(), nextOperand;
      Means();
      var r, kr := GenExpr(e.rhs);
      ghost var s2, p2 := Snapshot(), Point();
      Means();
      dst := nextOperand;
      nextOperand := nextOperand + 1;
      k := OpCode(kl, kr, dst);
      PlainTargets(Compute(dst, e.op, l, r), blocks);
      Means();
      AppendInstruction(Compute(dst, e.op, l, r));
      Means();
      Kinds(Compute(dst, e.op, l, r));
      EvolvesTransitive(s0, s1, s2);
      EvolvesTransitive(s0, s2, Snapshot());
      EvolvesTransitive(s1, s2, Snapshot());
      EvolvesMeans(s1, Snapshot());
      EvolvesMeans(s2, Snapshot());
      if old(Live()) {
        OpMade(Code(s1.blocks, s1.falls), Code(s2.blocks, s2.falls), Now(), e, k, l, r, dst, old(nextOperand), mid, p0,
            p1, p2);
      }
    }

    /** The two operands of a short-circuit operator and the branches after them. */
    method GenOperands(e: Expr, rhsBlock: BlockId, trueBlock: BlockId, falseBlock: BlockId)
      returns (ghost kl: ExprCode, ghost kr: ExprCode, ghost mid: nat)
      requires Ok() && (e.And? || e.Or?) && {rhsBlock, trueBlock, falseBlock} <= FreshOf(Snapshot())
      modifies this`blocks, this`nextBlock, this`succ, this`pred, this`curr, this`layout, this`falls, this`nextOperand
      ensures Ok() && Grows(old(Now()), Now()) && old(blocks).Keys <= blocks.Keys && old(nextOperand) <= nextOperand
      ensures FreshOf(old(Snapshot())) - {rhsBlock} <= FreshOf(Snapshot())
      ensures old(Live()) ==> OperandsMade(Now(), e, kl, kr, old(nextOperand), mid, nextOperand, old(Point()), rhsBlock,
          trueBlock, falseBlock)
      decreases e, 0, 1
    {
      hide *;
      ghost var s0, p0 := Snapshot(), Point();
      Means();
      FreshFacts(s0, rhsBlock);
      FreshFacts(s0, trueBlock);
      FreshFacts(s0, falseBlock);
      var l;
      l, kl := GenExpr(e.lhs);
      ghost var s1, p1 := Snapshot(), Point();
      mid := nextOperand;
      Means();
      EvolvesMeans(s0, s1);
      var branch := if e.And? then Branch(l, rhsBlock, falseBlock) else Branch(l, trueBlock, rhsBlock);
      BranchTargets(branch, s0, s1, rhsBlock, trueBlock, falseBlock);
      AppendInstruction(branch);
      ghost var s2 := Snapshot();
      Means();
      EvolvesMeans(s1, s2);
      StartBlock(rhsBlock);
      ghost var s3 := Snapshot();
      Means();
      var r;
      r, kr := GenExpr(e.rhs);
      ghost var s4, p4 := Snapshot(), Point();
      Means();
      EvolvesMeans(s3, s4);
      BranchTargets(Branch(r, trueBlock, falseBlock), s0, s4, rhsBlock, trueBlock, falseBlock);
      AppendInstruction(Branch(r, trueBlock, falseBlock));
      ghost var s5 := Snapshot();
      Means();
      EvolvesMeans(s4, s5);
      GrowsChain(Code(s0.blocks, s0.falls), Code(s1.blocks, s1.falls), Code(s2.blocks, s2.falls),
          Code(s3.blocks, s3.falls), Code(s4.blocks, s4.falls), Code(s5.blocks, s5.falls));
      if old(Live()) {
        OperandsHold(Code(s1.blocks, s1.falls), Code(s2.blocks, s2.falls), Code(s4.blocks, s4.falls),
            Code(s5.blocks, s5.falls), e, kl, kr, l, r, branch, old(nextOperand), mid, nextOperand, p0, p1, p4,
                     rhsBlock, trueBlock, falseBlock);
      }
    }

    /** The two truth values and the end of the evaluation, where the result is loaded. */
    method GenResult(trueBlock: BlockId, falseBlock: BlockId, tailBlock: BlockId, slot: nat) returns (dst: nat)
      requires Ok() && {trueBlock, falseBlock, tailBlock} <= FreshOf(Snapshot())
      requires trueBlock != falseBlock && trueBlock != tailBlock && falseBlock != tailBlock
      modifies this`blocks, this`nextBlock, this`succ, this`pred, this`curr, this`layout, this`falls, this`nextOperand
      ensures Ok() && Grows(old(Now()), Now()) && old(blocks).Keys <= blocks.Keys
      ensures FreshOf(old(Snapshot())) - {trueBlock, falseBlock, tailBlock} <= FreshOf(Snapshot())
      ensures dst == old(nextOperand) && nextOperand == dst + 1
      ensures Live() && Point() == Pos(tailBlock, 1) && ResultAt(Now(), trueBlock, falseBlock, tailBlock, slot, dst)
    {
      hide *;
      ghost var s0 := Snapshot();
      Means();
      FreshFacts(s0, tailBlock);
      GenFlag(trueBlock, slot, 1, tailBlock);
      ghost var s1 := Snapshot();
      Means();
      GenFlag(falseBlock, slot, 0, tailBlock);
      ghost var s2 := Snapshot();
      Means();
      StartBlock(tailBlock);
      ghost var s3 := Snapshot();
      Means();
      dst := nextOperand;
      nextOperand := nextOperand + 1;
      PlainTargets(GetSlot(dst, slot), blocks);
      AppendInstruction(GetSlot(dst, slot));
      ghost var s4 := Snapshot();
      Means();
      Kinds(GetSlot(dst, slot));
      PointAfter(tailBlock);
      EvolvesMeans(s3, s4);
      GrowsTransitive(Code(s2.blocks, s2.falls), Code(s3.blocks, s3.falls), Code(s4.blocks, s4.falls));
      GrowsTransitive(Code(s1.blocks, s1.falls), Code(s2.blocks, s2.falls), Code(s4.blocks, s4.falls));
      GrowsTransitive(Code(s0.blocks, s0.falls), Code(s1.blocks, s1.falls), Code(s4.blocks, s4.falls));
      ResultHolds(Code(s1.blocks, s1.falls), Code(s2.blocks, s2.falls), Code(s4.blocks, s4.falls), trueBlock,
          falseBlock, tailBlock, slot, dst);
    }

    method FetchFour() returns (a: BlockId, b: BlockId, d: BlockId, t: BlockId)
      requires Ok()
      modifies this`blocks, this`nextBlock, this`succ, this`pred
      ensures Ok() && Evolves(old(Snapshot()), Snapshot()) && Live() == old(Live()) && Point() == old(Point())
      ensures {a, b, d, t} <= FreshOf(Snapshot()) && {a, b, d, t} !! FreshOf(old(Snapshot()))
      ensures a != b && a != d && a != t && b != d && b != t && d != t
    {
      hide *;
      ghost var s0 := Snapshot();
      a := FetchBlock();
      ghost var s1 := Snapshot();
      b := FetchBlock();
      ghost var s2 := Snapshot();
      d := FetchBlock();
      ghost var s3 := Snapshot();
      t := FetchBlock();
      FourFetched(s0, s1, s2, s3, Snapshot(), a, b, d, t);
    }

    method FetchThree() returns (a: BlockId, b: BlockId, t: BlockId)
      requires Ok()
      modifies this`blocks, this`nextBlock, this`succ, this`pred
      ensures Ok() && Evolves(old(Snapshot()), Snapshot()) && Live() == old(Live()) && Point() == old(Point())
      ensures {a, b, t} <= FreshOf(Snapshot()) && {a, b, t} !! FreshOf(old(Snapshot())) && a != b && a != t && b != t
      ensures a in blocks && b in blocks && t in blocks
    {
      hide *;
      ghost var s0 := Snapshot();
      a := FetchBlock();
      ghost var s1 := Snapshot();
      b := FetchBlock();
      ghost var s2 := Snapshot();
      t := FetchBlock();
      Means();
      ArmsFetched(s0, s1, s2, Snapshot(), true, a, b, t);
    }

    method FetchTwo() returns (a: BlockId, t: BlockId)
      requires Ok()
      modifies this`blocks, this`nextBlock, this`succ, this`pred
      ensures Ok() && Evolves(old(Snapshot()), Snapshot()) && Live() == old(Live()) && Point() == old(Point())
      ensures {a, t} <= FreshOf(Snapshot()) && {a, t} !! FreshOf(old(Snapshot())) && a != t
      ensures a in blocks && t in blocks
    {
      hide *;
      ghost var s0 := Snapshot();
      a := FetchBlock();
      ghost var s1 := Snapshot();
      EvolvesItself(s1);
      t := FetchBlock();
      Means();
      ArmsFetched(s0, s1, s1, Snapshot(), false, a, a, t);
    }

    /** A condition and the branch on it. */
    method GenCondition(e: Expr, thenBlock: BlockId, elseBlock: BlockId) returns (ghost k: ExprCode)
      requires Ok() && thenBlock in blocks && elseBlock in blocks
      modifies this`blocks, this`nextBlock, this`succ, this`pred, this`curr, this`layout, this`falls, this`nextOperand
      ensures Ok() && Evolves(old(Snapshot()), Snapshot())
      ensures old(Live()) ==> CondAt(Now(), e, k, old(Point()), thenBlock, elseBlock)
    {
      hide *;
      ghost var s0, p0 := Snapshot(), Point();
      Means();
      var cond;
      cond, k := GenExpr(e);
      ghost var s1, p1 := Snapshot(), Point();
      Means();
      EvolvesMeans(s0, s1);
      BranchTargets(Branch(cond, thenBlock, elseBlock), s0, s1, thenBlock, elseBlock, thenBlock);
      AppendInstruction(Branch(cond, thenBlock, elseBlock));
      ghost var s2 := Snapshot();
      Means();
      EvolvesTransitive(s0, s1, s2);
      EvolvesMeans(s1, s2);
      if old(Live()) {
        CondHolds(Code(s1.blocks, s1.falls), Code(s2.blocks, s2.falls), e, k, cond, old(nextOperand), nextOperand, p0,
            p1, thenBlock, elseBlock);
      }
    }

    /** Short-circuit evaluation: the right operand has a block of its own, the result a slot. */
    method GenShort(e: Expr) returns (dst: nat, ghost k: ExprCode)
      requires Ok() && (e.And? || e.Or?)
      modifies this`blocks, this`nextBlock, this`succ, this`pred, this`curr, this`layout, this`falls, this`nextOperand
      ensures Ok() && Evolves(old(Snapshot()), Snapshot()) && old(nextOperand) <= dst < nextOperand
      ensures old(Live()) ==> Live() && ExprMade(Now(), e, k, dst, old(nextOperand), nextOperand, old(Point()), Point())
      decreases e, 0, 2
    {
      hide *;
      ghost var s0, p0 := Snapshot(), Point();
      var slot := nextOperand;
      nextOperand := nextOperand + 1;
      Means();
      var rhsBlock, trueBlock, falseBlock, tailBlock := FetchFour();
      ghost var s1 := Snapshot();
      Means();
      ghost var kl, kr, mid := GenOperands(e, rhsBlock, trueBlock, falseBlock);
      ghost var s2 := Snapshot();
      Means();
      dst := GenResult(trueBlock, falseBlock, tailBlock, slot);
      ghost var s3 := Snapshot();
      Means();
      k := ShortCode(kl, kr, rhsBlock, trueBlock, falseBlock, tailBlock, slot, dst);
      FourUsed(s0, s1, s2, s3, rhsBlock, trueBlock, falseBlock, tailBlock);
      if old(Live()) {
        ShortMade(Code(s2.blocks, s2.falls), Code(s3.blocks, s3.falls), e, k, old(nextOperand), mid, p0);
      }
    }

    // ----- statements -----

    /** Where `break`, `continue` and `return` go at present. */
    ghost function Ways(): Exits
      reads this`condStack, this`tailStack, this`returnBlock
    {
      WaysOf(condStack, tailStack, returnBlock)
    }

    ghost predicate StacksOk()
      reads this`condStack, this`tailStack, this`returnBlock, this`blocks
    {
      StacksIn(condStack, tailStack, returnBlock, blocks)
    }

    /** Statements of a sequence. A block that is the body of an `if` or a loop stops after a terminator;
        any other goes on, and what follows is dead. */
    method GenAll(s: Stmt, stop: bool) returns (ghost k: StmtCode)
      requires Ok() && StacksOk() && s.Block? && NestedWell(s, |condStack| > 0)
      modifies this`blocks, this`nextBlock, this`succ, this`pred, this`curr, this`layout, this`falls, this`nextOperand,
          this`condStack, this`tailStack
      ensures Ok() && StacksOk() && condStack == old(condStack) && tailStack == old(tailStack)
          && Evolves(old(Snapshot()), Snapshot())
      ensures old(Live()) ==> StmtMade(Now(), s, k, Ways(), old(Point()), Point(), Live())
      decreases s, 0
    {
      hide *;
      ghost var s0, p0, x := Snapshot(), Point(), Ways();
      ghost var codes: seq<StmtCode> := [];
      var ss := s.statements;
      Means();
      EvolvesItself(s0);
      SeqStarts(Now(), ss, p0, x);
      var i: nat := 0;
      while i < |ss|
        invariant i <= |ss| && Ok() && StacksOk() && condStack == old(condStack) && tailStack == old(tailStack)
            && Evolves(s0, Snapshot())
        invariant old(Live()) ==> SeqMade(Now(), ss, i, codes, x, p0, Point(), Live())
      {
        NestedAt(s, i, |condStack| > 0);
        ghost var s1, p1, live1 := Snapshot(), Point(), Live();
        Means();
        ghost var kc := GenStmt(ss[i]);
        Means();
        EvolvesTransitive(s0, s1, Snapshot());
        EvolvesMeans(s1, Snapshot());
        if old(Live()) {
          SeqGrows(Code(s1.blocks, s1.falls), Now(), ss, i, codes, x, p0, p1, live1, kc, Point(), Live());
          codes := SeqAfter(codes, i, kc);
        }
        i := i + 1;
        CurrExists(blocks, layout, falls, curr, returnBlock, nextBlock);
        TerminatedNotLive(blocks, layout, curr);
        if stop && Terminated(blocks[curr]) {
          k := SeqCode(p0, codes);
          if old(Live()) { SeqStops(Now(), s, i, codes, x, p0, Point()); }
          return;
        }
      }
      k := SeqCode(p0, codes);
      if old(Live()) { SeqEnds(Now(), s, codes, x, p0, Point(), Live()); }
    }

    /** The body of an `if` or a loop. */
    method GenBody(s: Stmt) returns (ghost k: StmtCode)
      requires Ok() && StacksOk() && NestedWell(s, |condStack| > 0)
      modifies this`blocks, this`nextBlock, this`succ, this`pred, this`curr, this`layout, this`falls, this`nextOperand,
          this`condStack, this`tailStack
      ensures Ok() && StacksOk() && condStack == old(condStack) && tailStack == old(tailStack)
          && Evolves(old(Snapshot()), Snapshot())
      ensures old(Live()) ==> StmtMade(Now(), s, k, Ways(), old(Point()), Point(), Live())
      decreases s, 8
    {
      hide *;
      if s.Block? {
        k := GenAll(s, true);
      } else {
        k := GenStmt(s);
      }
    }

    /** A body in a block of its own, and the jump that follows it unless it left another way. */
    method GenArm(s: Stmt, b: BlockId, next: BlockId) returns (ghost k: StmtCode)
      requires Ok() && StacksOk() && NestedWell(s, |condStack| > 0) && b in FreshOf(Snapshot()) && next in blocks
      modifies this`blocks, this`nextBlock, this`succ, this`pred, this`curr, this`layout, this`falls, this`nextOperand,
          this`condStack, this`tailStack
      ensures Ok() && StacksOk() && condStack == old(condStack) && tailStack == old(tailStack)
      ensures old(blocks).Keys <= blocks.Keys && FreshOf(old(Snapshot())) - {b} <= FreshOf(Snapshot())
          && Grows(old(Now()), Now())
      ensures StmtAt(Now(), s, k, Ways()) && ArmAt(Now(), k, b, next)
      ensures old(Live()) ==> At(Now(), old(Point()), Jump(b))
      decreases s, 9
    {
      hide *;
      ghost var s0, p0, x := Snapshot(), Point(), Ways();
      Means();
      StartBlock(b);
      ghost var s1 := Snapshot();
      Means();
      k := GenBody(s);
      ghost var s2, p2, live2 := Snapshot(), Point(), Live();
      Means();
      EvolvesMeans(s1, s2);
      CurrExists(blocks, layout, falls, curr, returnBlock, nextBlock);
      LiveOrNot(blocks, layout, curr);
      if !Terminated(blocks[curr]) {
        JumpTarget(next, s0, s2);
        AppendInstruction(Jump(next));
      } else {
        EvolvesItself(s2);
      }
      ghost var s3 := Snapshot();
      Means();
      EvolvesMeans(s2, s3);
      StacksStay(condStack, tailStack, returnBlock, s2.blocks, s3.blocks);
      GrowsTransitive(Code(s1.blocks, s1.falls), Code(s2.blocks, s2.falls), Code(s3.blocks, s3.falls));
      GrowsTransitive(Code(s0.blocks, s0.falls), Code(s1.blocks, s1.falls), Code(s3.blocks, s3.falls));
      ArmMade(Code(s2.blocks, s2.falls), Code(s3.blocks, s3.falls), s, k, x, b, next, p2, live2);
      if old(Live()) { Stays(Code(s1.blocks, s1.falls), Code(s3.blocks, s3.falls), p0, Jump(b)); }
    }

    method GenStmt(s: Stmt) returns (ghost k: StmtCode)
      requires Ok() && StacksOk() && NestedWell(s, |condStack| > 0)
      modifies this`blocks, this`nextBlock, this`succ, this`pred, this`curr, this`layout, this`falls, this`nextOperand,
          this`condStack, this`tailStack
      ensures Ok() && StacksOk() && condStack == old(condStack) && tailStack == old(tailStack)
          && Evolves(old(Snapshot()), Snapshot())
      ensures old(Live()) ==> StmtMade(Now(), s, k, Ways(), old(Point()), Point(), Live())
      decreases s, 7
    {
      hide *;
      ghost var s0, p0, x := Snapshot(), Point(), Ways();
      Means();
      k := NoCode(p0);
      match s {
        case Blank =>
          EvolvesItself(s0);
          if old(Live()) { BlankMade(Now(), x, p0); }
        case Evaluate(e) =>
          var dst, ke := GenExpr(e);
          k := EvalCode(ke);
          if old(Live()) { EvaluateMade(Now(), e, ke, x, dst, old(nextOperand), nextOperand, p0, Point()); }
        case Assignment(_, _) => k := GenAssignment(s);
        case Block(_) => k := GenAll(s, false);
        case If(_, _) => k := GenIf(s);
        case IfElse(_, _, _) => k := GenIfElse(s);
        case While(_, _) => k := GenWhile(s);
        case Break => k := GenJump(s);
        case Continue => k := GenJump(s);
        case Return => k := GenJump(s);
        case ReturnValue(_) => k := GenReturn(s);
      }
      EvolvesMeans(s0, Snapshot());
      Means();
      StacksStay(condStack, tailStack, returnBlock, old(blocks), blocks);
    }

    method GenAssignment(s: Stmt) returns (ghost k: StmtCode)
      requires Ok() && s.Assignment?
      modifies this`blocks, this`nextBlock, this`succ, this`pred, this`curr, this`layout, this`falls, this`nextOperand,
          this`condStack, this`tailStack
      ensures Ok() && condStack == old(condStack) && tailStack == old(tailStack) && Evolves(old(Snapshot()), Snapshot())
      ensures old(Live()) ==> StmtMade(Now(), s, k, Ways(), old(Point()), Point(), Live())
    {
      hide *;
      ghost var s0, p0, x := Snapshot(), Point(), Ways();
      Means();
      var l, kl := GenExpr(s.lhs);
      ghost var s1, p1, mid := Snapshot(), Point(), nextOperand;
      Means();
      var r, kr := GenExpr(s.rhs);
      ghost var s2, p2 := Snapshot(), Point();
      Means();
      PlainTargets(Store(l, r), blocks);
      AppendInstruction(Store(l, r));
      ghost var s3 := Snapshot();
      Means();
      Kinds(Store(l, r));
      k := AssignCode(kl, kr);
      EvolvesTransitive(s0, s1, s2);
      EvolvesTransitive(s0, s2, s3);
      EvolvesTransitive(s1, s2, s3);
      EvolvesMeans(s1, s3);
      EvolvesMeans(s2, s3);
      if old(Live()) {
        AssignMade(Code(s1.blocks, s1.falls), Code(s2.blocks, s2.falls), Code(s3.blocks, s3.falls), s, kl, kr, x, l, r,
            old(nextOperand), mid, nextOperand, p0, p1, p2);
      }
    }

    /** `break`, `continue` and `return` without a value. */
    method GenJump(s: Stmt) returns (ghost k: StmtCode)
      requires Ok() && StacksOk() && (s.Break? || s.Continue? || s.Return?) && NestedWell(s, |condStack| > 0)
      modifies this`blocks, this`nextBlock, this`succ, this`pred, this`curr, this`layout, this`falls, this`nextOperand,
          this`condStack, this`tailStack
      ensures Ok() && condStack == old(condStack) && tailStack == old(tailStack) && Evolves(old(Snapshot()), Snapshot())
      ensures old(Live()) ==> StmtMade(Now(), s, k, Ways(), old(Point()), Point(), Live())
    {
      hide *;
      ghost var p0, x := Point(), Ways();
      Means();
      JumpsExist(s, condStack, tailStack, returnBlock, blocks);
      var target := if s.Break? then tailStack[|tailStack| - 1] else if s.Continue? then condStack[|condStack| - 1]
          else returnBlock;
      AppendInstruction(Jump(target));
      Means();
      k := JumpCode(p0);
      if old(Live()) { JumpMade(Now(), s, x, p0, target, Point(), Live()); }
    }

    method GenReturn(s: Stmt) returns (ghost k: StmtCode)
      requires Ok() && StacksOk() && s.ReturnValue?
      modifies this`blocks, this`nextBlock, this`succ, this`pred, this`curr, this`layout, this`falls, this`nextOperand,
          this`condStack, this`tailStack
      ensures Ok() && condStack == old(condStack) && tailStack == old(tailStack) && Evolves(old(Snapshot()), Snapshot())
      ensures old(Live()) ==> StmtMade(Now(), s, k, Ways(), old(Point()), Point(), Live())
    {
      hide *;
      ghost var s0, p0, x := Snapshot(), Point(), Ways();
      Means();
      ReturnExists(condStack, tailStack, returnBlock, blocks);
      var v, ke := GenExpr(s.e);
      ghost var s1, p1 := Snapshot(), Point();
      Means();
      PlainTargets(StoreReturn(v), blocks);
      AppendInstruction(StoreReturn(v));
      ghost var s2 := Snapshot();
      Means();
      Kinds(StoreReturn(v));
      EvolvesTransitive(s0, s1, s2);
      EvolvesMeans(s0, s2);
      JumpTarget(returnBlock, s0, s2);
      AppendInstruction(Jump(returnBlock));
      ghost var s3 := Snapshot();
      Means();
      EvolvesTransitive(s0, s2, s3);
      EvolvesTransitive(s1, s2, s3);
      EvolvesMeans(s1, s3);
      EvolvesMeans(s2, s3);
      k := ReturnCode(ke);
      if old(Live()) {
        ReturnMade(Code(s1.blocks, s1.falls), Code(s2.blocks, s2.falls), Code(s3.blocks, s3.falls), s, ke, x, v,
            old(nextOperand), nextOperand, p0, p1, Point(), Live());
      }
    }

    method GenIf(s: Stmt) returns (ghost k: StmtCode)
      requires Ok() && StacksOk() && s.If? && NestedWell(s, |condStack| > 0)
      modifies this`blocks, this`nextBlock, this`succ, this`pred, this`curr, this`layout, this`falls, this`nextOperand,
          this`condStack, this`tailStack
      ensures Ok() && condStack == old(condStack) && tailStack == old(tailStack) && Evolves(old(Snapshot()), Snapshot())
      ensures old(Live()) ==> StmtMade(Now(), s, k, Ways(), old(Point()), Point(), Live())
      decreases s, 6
    {
      hide *;
      ghost var s0, p0, x := Snapshot(), Point(), Ways();
      Means();
      IfNested(s, |condStack| > 0);
      var thenBlock, tailBlock := FetchTwo();
      ghost var s1 := Snapshot();
      Means();
      ghost var kc := GenCondition(s.cond, thenBlock, tailBlock);
      ghost var s2 := Snapshot();
      Means();
      EvolvesMeans(s0, s1);
      EvolvesMeans(s1, s2);
      StacksStay(condStack, tailStack, returnBlock, s0.blocks, s2.blocks);
      ghost var kt := GenArm(s.thenStmt, thenBlock, tailBlock);
      ghost var s3 := Snapshot();
      Means();
      StartBlock(tailBlock);
      ghost var s4 := Snapshot();
      Means();
      k := IfCode(kc, thenBlock, tailBlock, tailBlock, [kt]);
      ChainOf(s0, s1, s2, s3, s4, thenBlock, tailBlock);
      if old(Live()) {
        IfMade(Code(s2.blocks, s2.falls), Code(s3.blocks, s3.falls), Code(s4.blocks, s4.falls), s, k, x, p0);
      }
    }

    method GenIfElse(s: Stmt) returns (ghost k: StmtCode)
      requires Ok() && StacksOk() && s.IfElse? && NestedWell(s, |condStack| > 0)
      modifies this`blocks, this`nextBlock, this`succ, this`pred, this`curr, this`layout, this`falls, this`nextOperand,
          this`condStack, this`tailStack
      ensures Ok() && condStack == old(condStack) && tailStack == old(tailStack) && Evolves(old(Snapshot()), Snapshot())
      ensures old(Live()) ==> StmtMade(Now(), s, k, Ways(), old(Point()), Point(), Live())
      decreases s, 6
    {
      hide *;
      ghost var s0, p0, x := Snapshot(), Point(), Ways();
      Means();
      IfNested(s, |condStack| > 0);
      var thenBlock, elseBlock, tailBlock := FetchThree();
      ghost var s1 := Snapshot();
      Means();
      ghost var kc := GenCondition(s.cond, thenBlock, elseBlock);
      ghost var s2 := Snapshot();
      Means();
      EvolvesMeans(s0, s1);
      EvolvesMeans(s1, s2);
      StacksStay(condStack, tailStack, returnBlock, s0.blocks, s2.blocks);
      ghost var kt, ke := GenArms(s, thenBlock, elseBlock, tailBlock);
      ghost var s3 := Snapshot();
      Means();
      StartBlock(tailBlock);
      ghost var s4 := Snapshot();
      Means();
      k := IfCode(kc, thenBlock, elseBlock, tailBlock, [kt, ke]);
      ChainOfThree(s0, s1, s2, s3, s4, thenBlock, elseBlock, tailBlock);
      if old(Live()) {
        IfElseMade(Code(s2.blocks, s2.falls), Code(s3.blocks, s3.falls), Code(s4.blocks, s4.falls), s, k, x, p0);
      }
    }

    /** Both arms of an `if` with an `else`. */
    method GenArms(s: Stmt, thenBlock: BlockId, elseBlock: BlockId, tailBlock: BlockId)
      returns (ghost kt: StmtCode, ghost ke: StmtCode)
      requires Ok() && StacksOk() && s.IfElse? && NestedWell(s, |condStack| > 0)
      requires thenBlock in FreshOf(Snapshot()) && elseBlock in FreshOf(Snapshot()) && thenBlock != elseBlock
          && tailBlock in blocks
      modifies this`blocks, this`nextBlock, this`succ, this`pred, this`curr, this`layout, this`falls, this`nextOperand,
          this`condStack, this`tailStack
      ensures Ok() && condStack == old(condStack) && tailStack == old(tailStack)
      ensures old(blocks).Keys <= blocks.Keys && FreshOf(old(Snapshot())) - {thenBlock,
          elseBlock} <= FreshOf(Snapshot()) && Grows(old(Now()), Now())
      ensures StmtAt(Now(), s.thenStmt, kt, Ways()) && ArmAt(Now(), kt, thenBlock, tailBlock)
      ensures StmtAt(Now(), s.elseStmt, ke, Ways()) && ArmAt(Now(), ke, elseBlock, tailBlock)
      decreases s, 5
    {
      hide *;
      Means();
      IfNested(s, |condStack| > 0);
      kt := GenArm(s.thenStmt, thenBlock, tailBlock);
      ghost var s1, x := Snapshot(), Ways();
      Means();
      ke := GenArm(s.elseStmt, elseBlock, tailBlock);
      ghost var s2 := Snapshot();
      Means();
      GrowsTransitive(old(Now()), Code(s1.blocks, s1.falls), Code(s2.blocks, s2.falls));
      ArmStays(Code(s1.blocks, s1.falls), Code(s2.blocks, s2.falls), s.thenStmt, kt, x, thenBlock, tailBlock);
    }

    /** `break` and `continue` now go to the blocks of this loop, whose condition starts here. */
    method EnterLoop(condBlock: BlockId, tailBlock: BlockId)
      requires Ok() && StacksOk() && condBlock in FreshOf(Snapshot()) && tailBlock in blocks
      modifies this`layout, this`curr, this`falls, this`condStack, this`tailStack
      ensures Ok() && StacksOk() && Live() && Point() == Pos(condBlock, 0) && Grows(old(Now()), Now())
      ensures FreshOf(old(Snapshot())) - {condBlock} <= FreshOf(Snapshot())
      ensures old(Live()) ==> At(Now(), old(Point()), Jump(condBlock))
      ensures |condStack| > 0 && condStack[..|condStack| - 1] == old(condStack) && |tailStack| > 0
          && tailStack[..|tailStack| - 1] == old(tailStack)
      ensures Ways() == Exits(tailBlock, condBlock, returnBlock)
    {
      hide *;
      Means();
      FreshFacts(Snapshot(), condBlock);
      StacksPushed(condStack, tailStack, condBlock, tailBlock, returnBlock, blocks, blocks);
      condStack := condStack + [condBlock];
      tailStack := tailStack + [tailBlock];
      Means();
      StartBlock(condBlock);
      Means();
    }

    method GenWhile(s: Stmt) returns (ghost k: StmtCode)
      requires Ok() && StacksOk() && s.While? && NestedWell(s, |condStack| > 0)
      modifies this`blocks, this`nextBlock, this`succ, this`pred, this`curr, this`layout, this`falls, this`nextOperand,
          this`condStack, this`tailStack
      ensures Ok() && condStack == old(condStack) && tailStack == old(tailStack) && Evolves(old(Snapshot()), Snapshot())
      ensures old(Live()) ==> StmtMade(Now(), s, k, Ways(), old(Point()), Point(), Live())
      decreases s, 6
    {
      hide *;
      ghost var s0, p0, x := Snapshot(), Point(), Ways();
      Means();
      LoopNested(s, |condStack| > 0);
      var condBlock, bodyBlock, tailBlock := FetchThree();
      ghost var s1 := Snapshot();
      Means();
      EvolvesMeans(s0, s1);
      StacksStay(condStack, tailStack, returnBlock, s0.blocks, s1.blocks);
      ghost var kc, kb := GenLoop(s, condBlock, bodyBlock, tailBlock);
      ghost var s2 := Snapshot();
      Means();
      StartBlock(tailBlock);
      ghost var s3 := Snapshot();
      Means();
      condStack := condStack[..|condStack| - 1];
      tailStack := tailStack[..|tailStack| - 1];
      Means();
      k := WhileCode(p0, condBlock, bodyBlock, tailBlock, kc, kb);
      EvolvesItself(s1);
      ChainOfThree(s0, s1, s1, s2, s3, condBlock, bodyBlock, tailBlock);
      ReturnWay(condStack, tailStack, returnBlock);
      if old(Live()) {
        WhileMade(Code(s2.blocks, s2.falls), Code(s3.blocks, s3.falls), s, k, x, p0);
      }
    }

    /** The loop up to the jump back to its condition. */
    method GenLoop(s: Stmt, condBlock: BlockId, bodyBlock: BlockId, tailBlock: BlockId)
      returns (ghost kc: ExprCode, ghost kb: StmtCode)
      requires Ok() && StacksOk() && s.While? && NestedWell(s.body, true) && condBlock != bodyBlock
          && tailBlock in blocks
      requires condBlock in FreshOf(Snapshot()) && bodyBlock in FreshOf(Snapshot())
      modifies this`blocks, this`nextBlock, this`succ, this`pred, this`curr, this`layout, this`falls, this`nextOperand,
          this`condStack, this`tailStack
      ensures Ok() && |condStack| > 0 && condStack[..|condStack| - 1] == old(condStack) && |tailStack| > 0
          && tailStack[..|tailStack| - 1] == old(tailStack)
      ensures old(blocks).Keys <= blocks.Keys && FreshOf(old(Snapshot())) - {condBlock,
          bodyBlock} <= FreshOf(Snapshot()) && Grows(old(Now()), Now())
      ensures CondAt(Now(), s.cond, kc, Pos(condBlock, 0), bodyBlock, tailBlock)
      ensures StmtAt(Now(), s.body, kb, Exits(tailBlock, condBlock, returnBlock))
          && ArmAt(Now(), kb, bodyBlock, condBlock)
      ensures old(Live()) ==> At(Now(), old(Point()), Jump(condBlock))
      decreases s, 5
    {
      hide *;
      ghost var p0 := Point();
      Means();
      FreshFacts(Snapshot(), condBlock);
      FreshFacts(Snapshot(), bodyBlock);
      EnterLoop(condBlock, tailBlock);
      ghost var s1 := Snapshot();
      Means();
      kc, kb := GenLoopBody(s, condBlock, bodyBlock, tailBlock);
      ghost var s2 := Snapshot();
      Means();
      GrowsTransitive(old(Now()), Code(s1.blocks, s1.falls), Code(s2.blocks, s2.falls));
      if old(Live()) { Stays(Code(s1.blocks, s1.falls), Code(s2.blocks, s2.falls), p0, Jump(condBlock)); }
    }

    /** The condition, in the block it starts, and the body of a loop. */
    method GenLoopBody(s: Stmt, condBlock: BlockId, bodyBlock: BlockId, tailBlock: BlockId)
      returns (ghost kc: ExprCode, ghost kb: StmtCode)
      requires Ok() && StacksOk() && s.While? && NestedWell(s.body, true) && |condStack| > 0
      requires Ways() == Exits(tailBlock, condBlock, returnBlock) && Live() && Point() == Pos(condBlock, 0)
      requires bodyBlock in FreshOf(Snapshot()) && condBlock in blocks && tailBlock in blocks && bodyBlock in blocks
      modifies this`blocks, this`nextBlock, this`succ, this`pred, this`curr, this`layout, this`falls, this`nextOperand,
          this`condStack, this`tailStack
      ensures Ok() && condStack == old(condStack) && tailStack == old(tailStack)
      ensures old(blocks).Keys <= blocks.Keys && FreshOf(old(Snapshot())) - {bodyBlock} <= FreshOf(Snapshot())
          && Grows(old(Now()), Now())
      ensures CondAt(Now(), s.cond, kc, Pos(condBlock, 0), bodyBlock, tailBlock)
      ensures StmtAt(Now(), s.body, kb, Exits(tailBlock, condBlock, returnBlock))
          && ArmAt(Now(), kb, bodyBlock, condBlock)
      decreases s, 4
    {
      hide *;
      ghost var s0 := Snapshot();
      Means();
      kc := GenCondition(s.cond, bodyBlock, tailBlock);
      ghost var s1 := Snapshot();
      Means();
      EvolvesMeans(s0, s1);
      StacksStay(condStack, tailStack, returnBlock, s0.blocks, s1.blocks);
      kb := GenArm(s.body, bodyBlock, condBlock);
      ghost var s2 := Snapshot();
      Means();
      GrowsTransitive(Code(s0.blocks, s0.falls), Code(s1.blocks, s1.falls), Code(s2.blocks, s2.falls));
      CondStays(Code(s1.blocks, s1.falls), Code(s2.blocks, s2.falls), s.cond, kc, Pos(condBlock, 0), bodyBlock,
          tailBlock);
    }

    // ----- functions -----

    /** A function with its entry block and its return block. */
    constructor ()
      ensures Ok() && StacksOk() && Live() && Point() == Pos(0, 0) && condStack == [] && tailStack == []
          && returnBlock == 1
    {
      blocks := map[0 := [], 1 := [Ret]];
      layout := [0, 1];
      succ, pred := map[0 := {}, 1 := {}], map[0 := {}, 1 := {}];
      curr, returnBlock, nextBlock, nextOperand := 0, 1, 2, 0;
      condStack, tailStack := [], [];
      falls := map[];
      new;
      EntryEdges();
    }

    /** Every attached block without a terminator jumps to the block after it. */
    method AddTerminator()
      requires Closing(blocks, layout, falls) && EdgesMatch(blocks, succ, pred)
      modifies this`blocks, this`succ, this`pred, this`curr
      ensures EdgesMatch(blocks, succ, pred) && (forall b :: b in layout ==> b in blocks && Terminated(blocks[b]))
      ensures Grows(Code(old(blocks), falls), Code(blocks, map[]))
    {
      hide *;
      ghost var before := blocks;
      ClosingFacts(before, layout, falls);
      var j: nat := 0;
      JumpsStart(before, layout);
      while j < |layout|
        invariant j <= |layout| && EdgesMatch(blocks, succ, pred) && JumpsAdded(before, blocks, layout, j)
        modifies this`blocks, this`succ, this`pred, this`curr
      {
        var b := layout[j];
        JumpsFacts(before, blocks, layout, j);
        LastIsTerminated(before, layout, falls, j);
        if !Terminated(blocks[b]) {
          JumpsStep(before, blocks, layout, j);
          var next := layout[j + 1];
          curr := b;
          AppendToCurrent(Jump(next));
        } else {
          JumpsSkip(before, blocks, layout, j);
        }
        j := j + 1;
      }
      AllTerminated(before, blocks, layout, falls);
      AllGrown(before, blocks, layout, falls);
    }

    /** Lower the body of a function. The graph it leaves means what the body means; all attached
        blocks have terminators, and the edge lists match them. */
    method GenFunction(body: seq<Stmt>)
      requires Ok() && StacksOk() && Live() && Point() == Pos(0, 0) && condStack == [] && tailStack == []
          && NestedWell(Block(body), false)
      modifies this
      ensures forall m, mem :: SameMeaning(m, Block(body), Code(blocks, map[]), Pos(0, 0), mem)
      ensures EdgesMatch(blocks, succ, pred) && forall b :: b in layout ==> b in blocks && Terminated(blocks[b])
    {
      hide *;
      ghost var x := Ways();
      Means();
      ReturnWay(condStack, tailStack, returnBlock);
      NestedOutside(Block(body), |condStack| > 0);
      ghost var k := GenAll(Block(body), false);
      ghost var s1, p1, live1 := Snapshot(), Point(), Live();
      Means();
      CurrExists(blocks, layout, falls, curr, returnBlock, nextBlock);
      BodyCloses(blocks, layout, falls, curr, returnBlock, nextBlock);
      falls := FinalFalls(blocks, layout, falls, curr, returnBlock);
      AddTerminator();
      BodyMade(Code(s1.blocks, s1.falls), Code(s1.blocks, falls), Code(blocks, map[]), Block(body), k, x, p1, live1);
      forall m, mem ensures SameMeaning(m, Block(body), Code(blocks, map[]), Pos(0, 0), mem) {
        LoweringPreserves(m, Code(blocks, map[]), Block(body), k, x, mem);
      }
    }
  }

  // ----- snapshots -----

  datatype Snap = Snap(blocks: map<BlockId, seq<Instr>>, layout: seq<BlockId>, falls: map<BlockId, BlockId>,
      curr: BlockId)

  /** The blocks that were fetched but not attached yet. */
  function FreshOf(s: Snap): set<BlockId> {
    set b | b in s.blocks && b !in s.layout && b !in s.falls && b != s.curr && s.blocks[b] == []
  }

  /** Nothing is lost: no block, no fresh block, no instruction. */
  ghost predicate Evolves(s: Snap, t: Snap) {
    s.blocks.Keys <= t.blocks.Keys && FreshOf(s) <= FreshOf(t) && Grows(Code(s.blocks, s.falls),
        Code(t.blocks, t.falls))
  }

  lemma EvolvesItself(s: Snap)
    ensures Evolves(s, s)
  {
  }

  lemma EvolvesTransitive(s: Snap, t: Snap, u: Snap)
    requires Evolves(s, t) && Evolves(t, u)
    ensures Evolves(s, u)
  {
    hide FreshOf, Grows;
    GrowsTransitive(Code(s.blocks, s.falls), Code(t.blocks, t.falls), Code(u.blocks, u.falls));
  }

  lemma FetchEvolves(s: Snap, b: BlockId)
    requires b !in s.blocks && b !in s.layout && b !in s.falls && b != s.curr
    requires Grows(Code(s.blocks, s.falls), Code(s.blocks[b := []], s.falls))
    ensures Evolves(s, s.(blocks := s.blocks[b := []])) && b in FreshOf(s.(blocks := s.blocks[b := []]))
        && b !in FreshOf(s)
  {
    hide Grows;
  }

  lemma DetachEvolves(s: Snap, t: Snap, b: BlockId)
    requires Evolves(s, t) && b !in FreshOf(s)
    ensures Evolves(s, t.(curr := b))
  {
    hide Grows;
  }

  lemma AppendEvolves(s: Snap, t: Snap, ins: Instr)
    requires Evolves(s, t) && t.curr in t.blocks
    requires Grows(Code(t.blocks, t.falls), Code(t.blocks[t.curr := t.blocks[t.curr] + [ins]], t.falls))
    ensures Evolves(s, t.(blocks := t.blocks[t.curr := t.blocks[t.curr] + [ins]]))
  {
    hide Grows;
    GrowsTransitive(Code(s.blocks, s.falls), Code(t.blocks, t.falls),
        Code(t.blocks[t.curr := t.blocks[t.curr] + [ins]], t.falls));
  }

  lemma StartEvolves(s: Snap, b: BlockId)
    requires |s.layout| >= 2 && b in FreshOf(s)
    ensures FreshOf(s) - {b} <= FreshOf(Snap(s.blocks, Inserted(s.layout, b),
        FallsAfter(s.blocks, s.layout, s.falls, s.curr, b), b))
  {
    hide Terminated;
    InsertedAt(s.layout, b);
  }

  lemma FreshFacts(s: Snap, b: BlockId)
    requires b in FreshOf(s)
    ensures b in s.blocks && b !in s.layout && b !in s.falls && b != s.curr && s.blocks[b] == []
  {
  }

  lemma NotTerminated()
    ensures !Terminated([])
  {
  }

  lemma InsertedMeans(layout: seq<BlockId>, b: BlockId)
    ensures |layout| > 0 ==> Inserted(layout, b) == layout[..|layout| - 1] + [b] + [layout[|layout| - 1]]
  {
  }

  lemma EmptyPoint(blocks: map<BlockId, seq<Instr>>, b: BlockId)
    ensures b in blocks && blocks[b] == [] ==> Here(blocks, b) == Pos(b, 0)
  {
  }

  predicate TargetsExist(ins: Instr, blocks: map<BlockId, seq<Instr>>) {
    match ins
    case Branch(_, t, e) => t in blocks && e in blocks
    case Jump(t) => t in blocks
    case _ => true
  }

  lemma TargetsStill(ins: Instr, s: Snap, t: Snap)
    requires TargetsExist(ins, s.blocks) && Evolves(s, t)
    ensures ins.Branch? ==> ins.thenBlock in t.blocks && ins.elseBlock in t.blocks
    ensures ins.Jump? ==> ins.target in t.blocks
  {
  }

  lemma TerminatedNotLive(blocks: map<BlockId, seq<Instr>>, layout: seq<BlockId>, curr: BlockId)
    ensures curr in blocks && Terminated(blocks[curr]) ==> !IsLive(blocks, layout, curr)
  {
  }

  lemma LiveMeans(blocks: map<BlockId, seq<Instr>>, layout: seq<BlockId>, curr: BlockId)
    ensures IsLive(blocks, layout, curr) ==> curr in layout
  {
  }

  /** A block that has its terminator keeps it. */
  lemma StaysTerminated(s: Snap, t: Snap, falls: map<BlockId, BlockId>, curr: BlockId, ret: BlockId, next: nat)
    requires Evolves(s, t) && s.curr in s.blocks && Terminated(s.blocks[s.curr]) && t.curr == s.curr
        && t.curr in t.blocks && t.blocks[t.curr] == s.blocks[s.curr]
    ensures Terminated(t.blocks[t.curr])
  {
  }

  lemma CurrExists(blocks: map<BlockId, seq<Instr>>, layout: seq<BlockId>, falls: map<BlockId, BlockId>, curr: BlockId,
                   ret: BlockId, next: nat)
    requires Builder(blocks, layout, falls, curr, ret, next)
    ensures curr in blocks && curr !in falls && curr != ret && ret in blocks && ret in layout && curr < next
        && |layout| >= 2
  {
    assert layout[|layout| - 1] in layout;
  }

  lemma SamePoint(before: map<BlockId, seq<Instr>>, after: map<BlockId, seq<Instr>>, curr: BlockId)
    requires curr in before && curr in after && after[curr] == before[curr]
    ensures Here(after, curr) == Here(before, curr)
  {
  }

  // ----- helpers of the generator -----

  /** The expression's code is in place between two points. */
  ghost predicate ExprMade(c: Code, e: Expr, k: ExprCode, dst: nat, lo: nat, hi: nat, start: Pos, end: Pos) {
    ExprAt(c, e, k, lo, hi) && k.dst == dst && StartOf(k) == start && EndOf(k) == end
  }

  lemma PlainTargets(ins: Instr, blocks: map<BlockId, seq<Instr>>)
    requires !ins.Branch? && !ins.Jump?
    ensures TargetsExist(ins, blocks)
  {
  }

  lemma JumpTarget(t: BlockId, s0: Snap, s1: Snap)
    requires s0.blocks.Keys <= s1.blocks.Keys && t in s0.blocks
    ensures TargetsExist(Jump(t), s1.blocks)
  {
  }

  lemma Kinds(ins: Instr)
    ensures IsTerminator(ins) == (ins.Branch? || ins.Jump? || ins.Ret?)
  {
  }

  lemma EvolvesMeans(s: Snap, t: Snap)
    requires Evolves(s, t)
    ensures s.blocks.Keys <= t.blocks.Keys && FreshOf(s) <= FreshOf(t)
        && Grows(Code(s.blocks, s.falls), Code(t.blocks, t.falls))
  {
  }

  lemma PointAfter(b: BlockId)
    ensures Next(Pos(b, 0)) == Pos(b, 1)
  {
  }

  lemma Stays(c: Code, d: Code, p: Pos, ins: Instr)
    requires Grows(c, d) && At(c, p, ins)
    ensures At(d, p, ins)
  {
  }

  lemma AtomMade(c: Code, id: nat, dst: nat, lo: nat, p: Pos)
    requires At(c, p, EvalAtom(dst, id)) && lo == dst
    ensures ExprMade(c, Atom(id), AtomCode(p, dst), dst, lo, dst + 1, p, Next(p))
  {
    hide At;
  }

  lemma OpMade(c1: Code, c2: Code, c: Code, e: Expr, k: ExprCode, l: nat, r: nat, dst: nat, lo: nat, mid: nat, p0: Pos,
               p1: Pos, p2: Pos)
    requires e.Op? && k.OpCode? && k.dst == dst && lo <= mid <= dst
    requires ExprMade(c1, e.lhs, k.l, l, lo, mid, p0, p1) && ExprMade(c2, e.rhs, k.r, r, mid, dst, p1, p2)
    requires Grows(c1, c) && Grows(c2, c) && At(c, p2, Compute(dst, e.op, l, r))
    ensures ExprMade(c, e, k, dst, lo, dst + 1, p0, Next(p2))
  {
    hide At, Grows;
    ExprGrows(c1, c, e.lhs, k.l, lo, mid);
    ExprGrows(c2, c, e.rhs, k.r, mid, dst);
  }

  lemma BranchTargets(ins: Instr, s0: Snap, s1: Snap, a: BlockId, b: BlockId, d: BlockId)
    requires s0.blocks.Keys <= s1.blocks.Keys && a in s0.blocks && b in s0.blocks && d in s0.blocks
    requires ins.Branch? && ins.thenBlock in {a, b, d} && ins.elseBlock in {a, b, d}
    ensures TargetsExist(ins, s1.blocks)
  {
  }

  lemma FourFetched(s0: Snap, s1: Snap, s2: Snap, s3: Snap, s4: Snap, a: BlockId, b: BlockId, d: BlockId, t: BlockId)
    requires Evolves(s0, s1) && Evolves(s1, s2) && Evolves(s2, s3) && Evolves(s3, s4)
    requires a in FreshOf(s1) && a !in FreshOf(s0) && b in FreshOf(s2) && b !in FreshOf(s1)
    requires d in FreshOf(s3) && d !in FreshOf(s2) && t in FreshOf(s4) && t !in FreshOf(s3)
    ensures Evolves(s0, s4) && {a, b, d, t} <= FreshOf(s4) && {a, b, d, t} !! FreshOf(s0)
    ensures a != b && a != d && a != t && b != d && b != t && d != t && t in s4.blocks
  {
    EvolvesTransitive(s0, s1, s2);
    EvolvesTransitive(s0, s2, s3);
    EvolvesTransitive(s0, s3, s4);
    EvolvesMeans(s1, s2);
    EvolvesMeans(s2, s3);
    EvolvesMeans(s3, s4);
    EvolvesMeans(s0, s1);
    FreshFacts(s4, t);
    hide FreshOf, Evolves, Grows;
  }

  /** Both operands and their branches are in place. */
  ghost predicate OperandsMade(c: Code, e: Expr, kl: ExprCode, kr: ExprCode, lo: nat, mid: nat, hi: nat, start: Pos,
                               rhsBlock: BlockId, trueBlock: BlockId, falseBlock: BlockId)
    requires e.And? || e.Or?
  {
    && lo <= mid <= hi && ExprAt(c, e.lhs, kl, lo, mid) && ExprAt(c, e.rhs, kr, mid, hi)
    && StartOf(kl) == start && StartOf(kr) == Pos(rhsBlock, 0)
    && At(c, EndOf(kl), if e.And? then Branch(kl.dst, rhsBlock, falseBlock) else Branch(kl.dst, trueBlock, rhsBlock))
    && At(c, EndOf(kr), Branch(kr.dst, trueBlock, falseBlock))
  }

  lemma OperandsHold(c1: Code, c2: Code, c4: Code, c5: Code, e: Expr, kl: ExprCode, kr: ExprCode, l: nat, r: nat,
                     branch: Instr, lo: nat, mid: nat, hi: nat,
                     p0: Pos, p1: Pos, p4: Pos, rhsBlock: BlockId, trueBlock: BlockId, falseBlock: BlockId)
    requires (e.And? || e.Or?) && lo <= mid <= hi
    requires ExprMade(c1, e.lhs, kl, l, lo, mid, p0, p1) && ExprMade(c4, e.rhs, kr, r, mid, hi, Pos(rhsBlock, 0), p4)
    requires branch == (if e.And? then Branch(l, rhsBlock, falseBlock) else Branch(l, trueBlock, rhsBlock))
    requires At(c2, p1, branch) && At(c5, p4, Branch(r, trueBlock, falseBlock))
    requires Grows(c1, c5) && Grows(c2, c5) && Grows(c4, c5)
    ensures OperandsMade(c5, e, kl, kr, lo, mid, hi, p0, rhsBlock, trueBlock, falseBlock)
  {
    hide At;
    ExprGrows(c1, c5, e.lhs, kl, lo, mid);
    ExprGrows(c4, c5, e.rhs, kr, mid, hi);
  }

  predicate ResultAt(c: Code, trueBlock: BlockId, falseBlock: BlockId, tailBlock: BlockId, slot: nat, dst: nat) {
    && At(c, Pos(trueBlock, 0), SetSlot(slot, 1)) && At(c, Pos(trueBlock, 1), Jump(tailBlock))
    && At(c, Pos(falseBlock, 0), SetSlot(slot, 0)) && At(c, Pos(falseBlock, 1), Jump(tailBlock))
    && At(c, Pos(tailBlock, 0), GetSlot(dst, slot))
  }

  lemma ResultHolds(c1: Code, c2: Code, c: Code, trueBlock: BlockId, falseBlock: BlockId, tailBlock: BlockId, slot: nat,
                    dst: nat)
    requires At(c1, Pos(trueBlock, 0), SetSlot(slot, 1)) && At(c1, Pos(trueBlock, 1), Jump(tailBlock))
    requires At(c2, Pos(falseBlock, 0), SetSlot(slot, 0)) && At(c2, Pos(falseBlock, 1), Jump(tailBlock))
    requires At(c, Pos(tailBlock, 0), GetSlot(dst, slot)) && Grows(c1, c) && Grows(c2, c)
    ensures ResultAt(c, trueBlock, falseBlock, tailBlock, slot, dst)
  {
    hide At;
  }

  lemma FourUsed(s0: Snap, s1: Snap, s2: Snap, s3: Snap, a: BlockId, b: BlockId, d: BlockId, t: BlockId)
    requires Evolves(s0, s1) && {a, b, d, t} !! FreshOf(s0)
    requires s1.blocks.Keys <= s2.blocks.Keys && FreshOf(s1) - {a} <= FreshOf(s2)
        && Grows(Code(s1.blocks, s1.falls), Code(s2.blocks, s2.falls))
    requires s2.blocks.Keys <= s3.blocks.Keys && FreshOf(s2) - {b, d, t} <= FreshOf(s3)
        && Grows(Code(s2.blocks, s2.falls), Code(s3.blocks, s3.falls))
    ensures Evolves(s0, s3)
  {
    EvolvesMeans(s0, s1);
    hide FreshOf, Grows;
    GrowsTransitive(Code(s0.blocks, s0.falls), Code(s1.blocks, s1.falls), Code(s2.blocks, s2.falls));
    GrowsTransitive(Code(s0.blocks, s0.falls), Code(s2.blocks, s2.falls), Code(s3.blocks, s3.falls));
  }

  lemma ShortMade(c2: Code, c: Code, e: Expr, k: ExprCode, lo: nat, mid: nat, start: Pos)
    requires (e.And? || e.Or?) && k.ShortCode? && k.slot == lo
    requires OperandsMade(c2, e, k.l, k.r, lo + 1, mid, k.dst, start, k.rhsBlock, k.trueBlock, k.falseBlock)
    requires ResultAt(c, k.trueBlock, k.falseBlock, k.tailBlock, k.slot, k.dst) && Grows(c2, c)
    ensures ExprMade(c, e, k, k.dst, lo, k.dst + 1, start, Pos(k.tailBlock, 1))
  {
    hide At;
    ExprGrows(c2, c, e.lhs, k.l, lo + 1, mid);
    ExprGrows(c2, c, e.rhs, k.r, mid, k.dst);
    assert ShortAt(c, k, lo);
    hide Grows;
  }

  // ----- helpers for statements -----

  function WaysOf(condStack: seq<BlockId>, tailStack: seq<BlockId>, ret: BlockId): Exits {
    Exits(if tailStack == [] then ret else tailStack[|tailStack| - 1], if condStack == [] then ret
        else condStack[|condStack| - 1], ret)
  }

  ghost predicate StacksIn(condStack: seq<BlockId>, tailStack: seq<BlockId>, ret: BlockId,
                           blocks: map<BlockId, seq<Instr>>) {
    && |condStack| == |tailStack| && ret in blocks
    && (forall i :: 0 <= i < |condStack| ==> condStack[i] in blocks)
    && (forall i :: 0 <= i < |tailStack| ==> tailStack[i] in blocks)
  }

  lemma StacksStay(condStack: seq<BlockId>, tailStack: seq<BlockId>, ret: BlockId, before: map<BlockId, seq<Instr>>,
                   after: map<BlockId, seq<Instr>>)
    requires StacksIn(condStack, tailStack, ret, before) && before.Keys <= after.Keys
    ensures StacksIn(condStack, tailStack, ret, after)
  {
  }

  /** The statement's code is in place, from one point to another unless it leaves. */
  ghost predicate StmtMade(c: Code, s: Stmt, k: StmtCode, x: Exits, start: Pos, end: Pos, live: bool) {
    StmtAt(c, s, k, x) && First(k) == start && (FallsOut(k) ==> live && Last(k) == end)
  }

  lemma BlankMade(c: Code, x: Exits, p: Pos)
    ensures StmtMade(c, Blank, NoCode(p), x, p, p, true)
  {
  }

  lemma EvaluateMade(c: Code, e: Expr, k: ExprCode, x: Exits, dst: nat, lo: nat, hi: nat, start: Pos, end: Pos)
    requires ExprMade(c, e, k, dst, lo, hi, start, end)
    ensures StmtMade(c, Evaluate(e), EvalCode(k), x, start, end, true)
  {
    hide ExprAt;
  }

  lemma LiveOrNot(blocks: map<BlockId, seq<Instr>>, layout: seq<BlockId>, curr: BlockId)
    ensures curr in blocks && Terminated(blocks[curr]) ==> !IsLive(blocks, layout, curr)
  {
  }

  lemma NestedAt(s: Stmt, i: nat, inLoop: bool)
    requires s.Block? && i < |s.statements| && NestedWell(s, inLoop)
    ensures NestedWell(s.statements[i], inLoop)
  {
  }

  lemma ArmMade(c2: Code, c: Code, s: Stmt, k: StmtCode, x: Exits, b: BlockId, next: BlockId, end: Pos, live: bool)
    requires StmtMade(c2, s, k, x, Pos(b, 0), end, live) && Grows(c2, c) && (live ==> At(c, end, Jump(next)))
    ensures StmtAt(c, s, k, x) && ArmAt(c, k, b, next)
  {
    hide At, StmtAt, Grows;
    StmtGrows(c2, c, s, k, x);
  }

  // ----- sequences under construction -----

  /** The certificates of the first `i` statements, or of those up to the first that leaves. */
  ghost predicate SeqMade(c: Code, ss: seq<Stmt>, i: nat, codes: seq<StmtCode>, x: Exits, start: Pos, end: Pos,
                          live: bool) {
    && |codes| <= i <= |ss| && Chained(start, codes)
    && (|codes| < i ==> |codes| > 0 && !FallsOut(codes[|codes| - 1]))
    && (forall j :: 0 <= j < |codes| ==> StmtAt(c, ss[j], codes[j], x))
    && (SeqFalls(codes) ==> live && SeqLast(start, codes) == end)
  }

  predicate SeqFalls(codes: seq<StmtCode>) {
    codes == [] || FallsOut(codes[|codes| - 1])
  }

  function SeqLast(start: Pos, codes: seq<StmtCode>): Pos {
    if codes == [] then start else Last(codes[|codes| - 1])
  }

  /** One more certificate, unless the sequence has been left. */
  function SeqAfter(codes: seq<StmtCode>, i: nat, k: StmtCode): seq<StmtCode> {
    if |codes| == i && SeqFalls(codes) then codes + [k] else codes
  }

  lemma SeqStarts(c: Code, ss: seq<Stmt>, p: Pos, x: Exits)
    ensures SeqMade(c, ss, 0, [], x, p, p, true)
  {
  }

  lemma SeqGrows(c1: Code, c: Code, ss: seq<Stmt>, i: nat, codes: seq<StmtCode>, x: Exits, start: Pos, p1: Pos,
                 live1: bool, k: StmtCode, p: Pos, live: bool)
    requires i < |ss| && SeqMade(c1, ss, i, codes, x, start, p1, live1) && Grows(c1, c)
    requires live1 ==> StmtMade(c, ss[i], k, x, p1, p, live)
    ensures SeqMade(c, ss, i + 1, SeqAfter(codes, i, k), x, start, p, live)
  {
    hide At, StmtAt, Grows;
    forall j | 0 <= j < |codes| ensures StmtAt(c, ss[j], codes[j], x) {
      StmtGrows(c1, c, ss[j], codes[j], x);
    }
  }

  lemma SeqStops(c: Code, s: Stmt, i: nat, codes: seq<StmtCode>, x: Exits, start: Pos, end: Pos)
    requires s.Block? && SeqMade(c, s.statements, i, codes, x, start, end, false)
    ensures StmtMade(c, s, SeqCode(start, codes), x, start, end, false)
  {
    hide At;
  }

  lemma SeqEnds(c: Code, s: Stmt, codes: seq<StmtCode>, x: Exits, start: Pos, end: Pos, live: bool)
    requires s.Block? && SeqMade(c, s.statements, |s.statements|, codes, x, start, end, live)
    ensures StmtMade(c, s, SeqCode(start, codes), x, start, end, live)
  {
    hide At;
  }

  // ----- single statements in place -----

  lemma AssignMade(c1: Code, c2: Code, c: Code, s: Stmt, kl: ExprCode, kr: ExprCode, x: Exits, l: nat, r: nat, lo: nat,
                   mid: nat, hi: nat, p0: Pos, p1: Pos, p2: Pos)
    requires s.Assignment? && ExprMade(c1, s.lhs, kl, l, lo, mid, p0, p1) && ExprMade(c2, s.rhs, kr, r, mid, hi, p1, p2)
    requires Grows(c1, c) && Grows(c2, c) && At(c, p2, Store(l, r))
    ensures StmtMade(c, s, AssignCode(kl, kr), x, p0, Next(p2), true)
  {
    hide At, Grows;
    ExprGrows(c1, c, s.lhs, kl, lo, mid);
    ExprGrows(c2, c, s.rhs, kr, mid, hi);
    assert ExprsAt(c, s.lhs, s.rhs, kl, kr);
  }

  lemma JumpsExist(s: Stmt, condStack: seq<BlockId>, tailStack: seq<BlockId>, ret: BlockId,
                   blocks: map<BlockId, seq<Instr>>)
    requires StacksIn(condStack, tailStack, ret, blocks) && (s.Break? || s.Continue? || s.Return?)
        && NestedWell(s, |condStack| > 0)
    ensures s.Break? ==> |tailStack| > 0 && TargetsExist(Jump(tailStack[|tailStack| - 1]), blocks)
    ensures s.Continue? ==> |condStack| > 0 && TargetsExist(Jump(condStack[|condStack| - 1]), blocks)
    ensures TargetsExist(Jump(ret), blocks)
    ensures s.Break? ==> WaysOf(condStack, tailStack, ret).breakTo == tailStack[|tailStack| - 1]
    ensures s.Continue? ==> WaysOf(condStack, tailStack, ret).continueTo == condStack[|condStack| - 1]
    ensures WaysOf(condStack, tailStack, ret).returnTo == ret
  {
  }

  lemma JumpMade(c: Code, s: Stmt, x: Exits, p: Pos, t: BlockId, end: Pos, live: bool)
    requires At(c, p, Jump(t)) && (s.Break? || s.Continue? || s.Return?)
    requires t == if s.Break? then x.breakTo else if s.Continue? then x.continueTo else x.returnTo
    ensures StmtMade(c, s, JumpCode(p), x, p, end, live)
  {
    hide At;
  }

  lemma ReturnExists(condStack: seq<BlockId>, tailStack: seq<BlockId>, ret: BlockId, blocks: map<BlockId, seq<Instr>>)
    requires StacksIn(condStack, tailStack, ret, blocks)
    ensures ret in blocks && WaysOf(condStack, tailStack, ret).returnTo == ret
  {
  }

  lemma ReturnMade(c1: Code, c2: Code, c: Code, s: Stmt, k: ExprCode, x: Exits, v: nat, lo: nat, hi: nat, p0: Pos,
                   p1: Pos, end: Pos, live: bool)
    requires s.ReturnValue? && ExprMade(c1, s.e, k, v, lo, hi, p0, p1)
    requires At(c2, p1, StoreReturn(v)) && At(c, Next(p1), Jump(x.returnTo)) && Grows(c1, c) && Grows(c2, c)
    ensures StmtMade(c, s, ReturnCode(k), x, p0, end, live)
  {
    hide At;
    ExprGrows(c1, c, s.e, k, lo, hi);
    assert SomeExprAt(c, s.e, k);
  }

  lemma IfNested(s: Stmt, inLoop: bool)
    requires (s.If? || s.IfElse?) && NestedWell(s, inLoop)
    ensures NestedWell(s.thenStmt, inLoop) && (s.IfElse? ==> NestedWell(s.elseStmt, inLoop))
  {
  }

  lemma LoopNested(s: Stmt, inLoop: bool)
    requires s.While? && NestedWell(s, inLoop)
    ensures NestedWell(s.body, true)
  {
  }

  lemma ArmsFetched(s0: Snap, s1: Snap, s2: Snap, s3: Snap, both: bool, a: BlockId, b: BlockId, t: BlockId)
    requires Evolves(s0, s1) && Evolves(s1, s2) && Evolves(s2, s3)
    requires a in FreshOf(s1) && a !in FreshOf(s0) && t in FreshOf(s3) && t !in FreshOf(s2)
    requires if both then b in FreshOf(s2) && b !in FreshOf(s1) else b == a
    ensures Evolves(s0, s3) && {a, b, t} <= FreshOf(s3) && {a, b, t} !! FreshOf(s0) && a != t && b != t
        && (both ==> a != b)
    ensures a in s3.blocks && b in s3.blocks && t in s3.blocks
  {
    EvolvesTransitive(s0, s1, s2);
    EvolvesTransitive(s0, s2, s3);
    EvolvesMeans(s0, s1);
    EvolvesMeans(s1, s2);
    EvolvesMeans(s2, s3);
    FreshFacts(s3, t);
    FreshFacts(s1, a);
    FreshFacts(s2, b);
    hide FreshOf, Evolves, Grows;
  }

  /** From one snapshot to the next, giving up the blocks of `used`. */
  ghost predicate Uses(s: Snap, t: Snap, used: set<BlockId>) {
    s.blocks.Keys <= t.blocks.Keys && FreshOf(s) - used <= FreshOf(t) && Grows(Code(s.blocks, s.falls),
        Code(t.blocks, t.falls))
  }

  lemma UsesTransitive(s: Snap, t: Snap, u: Snap, a: set<BlockId>, b: set<BlockId>)
    requires Uses(s, t, a) && Uses(t, u, b)
    ensures Uses(s, u, a + b)
  {
    hide FreshOf, Grows;
    GrowsTransitive(Code(s.blocks, s.falls), Code(t.blocks, t.falls), Code(u.blocks, u.falls));
  }

  lemma UsesEvolve(s: Snap, t: Snap, a: set<BlockId>)
    requires Uses(s, t, a) && a !! FreshOf(s)
    ensures Evolves(s, t)
  {
    hide FreshOf, Grows;
  }

  lemma EvolvesUses(s: Snap, t: Snap)
    requires Evolves(s, t)
    ensures Uses(s, t, {})
  {
    hide FreshOf, Grows;
  }

  lemma UsesHolds(s: Snap, t: Snap, a: set<BlockId>)
    requires s.blocks.Keys <= t.blocks.Keys && FreshOf(s) - a <= FreshOf(t)
        && Grows(Code(s.blocks, s.falls), Code(t.blocks, t.falls))
    ensures Uses(s, t, a)
  {
  }

  lemma UsesMeans(s: Snap, t: Snap, a: set<BlockId>)
    requires Uses(s, t, a)
    ensures Grows(Code(s.blocks, s.falls), Code(t.blocks, t.falls))
  {
  }

  lemma ChainOf(s0: Snap, s1: Snap, s2: Snap, s3: Snap, s4: Snap, a: BlockId, t: BlockId)
    requires Evolves(s0, s1) && {a, t} !! FreshOf(s0) && Evolves(s1, s2)
    requires s2.blocks.Keys <= s3.blocks.Keys && FreshOf(s2) - {a} <= FreshOf(s3)
        && Grows(Code(s2.blocks, s2.falls), Code(s3.blocks, s3.falls))
    requires s3.blocks.Keys <= s4.blocks.Keys && FreshOf(s3) - {t} <= FreshOf(s4)
        && Grows(Code(s3.blocks, s3.falls), Code(s4.blocks, s4.falls))
    ensures Evolves(s0, s4)
    ensures Grows(Code(s2.blocks, s2.falls), Code(s4.blocks, s4.falls))
        && Grows(Code(s3.blocks, s3.falls), Code(s4.blocks, s4.falls))
  {
    hide *;
    EvolvesTransitive(s0, s1, s2);
    EvolvesUses(s0, s2);
    UsesHolds(s2, s3, {a});
    UsesHolds(s3, s4, {t});
    UsesTransitive(s2, s3, s4, {a}, {t});
    UsesMeans(s2, s4, {a} + {t});
    UsesTransitive(s0, s2, s4, {}, {a} + {t});
    UsesEvolve(s0, s4, {} + ({a} + {t}));
  }

  lemma ChainOfThree(s0: Snap, s1: Snap, s2: Snap, s3: Snap, s4: Snap, a: BlockId, b: BlockId, t: BlockId)
    requires Evolves(s0, s1) && {a, b, t} !! FreshOf(s0) && Evolves(s1, s2)
    requires s2.blocks.Keys <= s3.blocks.Keys && FreshOf(s2) - {a, b} <= FreshOf(s3)
        && Grows(Code(s2.blocks, s2.falls), Code(s3.blocks, s3.falls))
    requires s3.blocks.Keys <= s4.blocks.Keys && FreshOf(s3) - {t} <= FreshOf(s4)
        && Grows(Code(s3.blocks, s3.falls), Code(s4.blocks, s4.falls))
    ensures Evolves(s0, s4)
    ensures Grows(Code(s2.blocks, s2.falls), Code(s4.blocks, s4.falls))
        && Grows(Code(s3.blocks, s3.falls), Code(s4.blocks, s4.falls))
  {
    hide *;
    EvolvesTransitive(s0, s1, s2);
    EvolvesUses(s0, s2);
    UsesHolds(s2, s3, {a, b});
    UsesHolds(s3, s4, {t});
    UsesTransitive(s2, s3, s4, {a, b}, {t});
    UsesMeans(s2, s4, {a, b} + {t});
    UsesTransitive(s0, s2, s4, {}, {a, b} + {t});
    UsesEvolve(s0, s4, {} + ({a, b} + {t}));
  }

  /** A condition and the branch on it. */
  ghost predicate CondAt(c: Code, e: Expr, k: ExprCode, start: Pos, thenBlock: BlockId, elseBlock: BlockId) {
    SomeExprAt(c, e, k) && StartOf(k) == start && At(c, EndOf(k), Branch(k.dst, thenBlock, elseBlock))
  }

  lemma CondHolds(c1: Code, c: Code, e: Expr, k: ExprCode, cond: nat, lo: nat, hi: nat, p0: Pos, p1: Pos,
                  thenBlock: BlockId, elseBlock: BlockId)
    requires ExprMade(c1, e, k, cond, lo, hi, p0, p1) && Grows(c1, c) && At(c, p1, Branch(cond, thenBlock, elseBlock))
    ensures CondAt(c, e, k, p0, thenBlock, elseBlock)
  {
    hide At, Grows;
    ExprGrows(c1, c, e, k, lo, hi);
  }

  lemma CondStays(c: Code, d: Code, e: Expr, k: ExprCode, start: Pos, thenBlock: BlockId, elseBlock: BlockId)
    requires CondAt(c, e, k, start, thenBlock, elseBlock) && Grows(c, d)
    ensures CondAt(d, e, k, start, thenBlock, elseBlock)
  {
    hide At;
    ExprStays(c, d, e, k);
  }

  lemma ArmStays(c: Code, d: Code, s: Stmt, k: StmtCode, x: Exits, b: BlockId, next: BlockId)
    requires StmtAt(c, s, k, x) && ArmAt(c, k, b, next) && Grows(c, d)
    ensures StmtAt(d, s, k, x) && ArmAt(d, k, b, next)
  {
    hide At, StmtAt;
    StmtGrows(c, d, s, k, x);
  }

  lemma IfMade(c2: Code, c3: Code, c: Code, s: Stmt, k: StmtCode, x: Exits, p0: Pos)
    requires s.If? && k.IfCode? && |k.branches| == 1 && CondAt(c2, s.cond, k.c, p0, k.thenBlock, k.tailBlock)
    requires StmtAt(c3, s.thenStmt, k.branches[0], x) && ArmAt(c3, k.branches[0], k.thenBlock, k.tailBlock)
    requires Grows(c2, c) && Grows(c3, c)
    ensures StmtMade(c, s, k, x, p0, Pos(k.tailBlock, 0), true)
  {
    hide At, Grows;
    CondStays(c2, c, s.cond, k.c, p0, k.thenBlock, k.tailBlock);
    ArmStays(c3, c, s.thenStmt, k.branches[0], x, k.thenBlock, k.tailBlock);
  }

  lemma IfElseMade(c2: Code, c3: Code, c: Code, s: Stmt, k: StmtCode, x: Exits, p0: Pos)
    requires s.IfElse? && k.IfCode? && |k.branches| == 2 && CondAt(c2, s.cond, k.c, p0, k.thenBlock, k.elseBlock)
    requires StmtAt(c3, s.thenStmt, k.branches[0], x) && ArmAt(c3, k.branches[0], k.thenBlock, k.tailBlock)
    requires StmtAt(c3, s.elseStmt, k.branches[1], x) && ArmAt(c3, k.branches[1], k.elseBlock, k.tailBlock)
    requires Grows(c2, c) && Grows(c3, c)
    ensures StmtMade(c, s, k, x, p0, Pos(k.tailBlock, 0), true)
  {
    hide At, Grows;
    CondStays(c2, c, s.cond, k.c, p0, k.thenBlock, k.elseBlock);
    ArmStays(c3, c, s.thenStmt, k.branches[0], x, k.thenBlock, k.tailBlock);
    ArmStays(c3, c, s.elseStmt, k.branches[1], x, k.elseBlock, k.tailBlock);
  }

  lemma StacksPushed(conds: seq<BlockId>, tails: seq<BlockId>, cond: BlockId, tail: BlockId, ret: BlockId,
                     before: map<BlockId, seq<Instr>>, after: map<BlockId, seq<Instr>>)
    requires StacksIn(conds, tails, ret, before) && before.Keys <= after.Keys && cond in after && tail in after
    ensures StacksIn(conds + [cond], tails + [tail], ret, after)
    ensures WaysOf(conds + [cond], tails + [tail], ret) == Exits(tail, cond, ret)
    ensures (conds + [cond])[..|conds + [cond]| - 1] == conds && (tails + [tail])[..|tails + [tail]| - 1] == tails
        && |conds + [cond]| > 0
    ensures WaysOf(conds, tails, ret).returnTo == ret
  {
  }

  lemma ReturnWay(condStack: seq<BlockId>, tailStack: seq<BlockId>, ret: BlockId)
    ensures WaysOf(condStack, tailStack, ret).returnTo == ret
  {
  }

  lemma WhileMade(c2: Code, c: Code, s: Stmt, k: StmtCode, x: Exits, p0: Pos)
    requires s.While? && k.WhileCode? && k.start == p0 && At(c2, p0, Jump(k.condBlock))
    requires CondAt(c2, s.cond, k.c, Pos(k.condBlock, 0), k.bodyBlock, k.tailBlock)
    requires StmtAt(c2, s.body, k.body, Exits(k.tailBlock, k.condBlock, x.returnTo))
        && ArmAt(c2, k.body, k.bodyBlock, k.condBlock)
    requires Grows(c2, c)
    ensures StmtMade(c, s, k, x, p0, Pos(k.tailBlock, 0), true)
  {
    hide At;
    CondStays(c2, c, s.cond, k.c, Pos(k.condBlock, 0), k.bodyBlock, k.tailBlock);
    ArmStays(c2, c, s.body, k.body, Exits(k.tailBlock, k.condBlock, x.returnTo), k.bodyBlock, k.condBlock);
  }

  // ----- closing the function -----

  lemma EntryEdges()
    ensures EdgesMatch(map[0 := [], 1 := [Ret]], map[0 := {}, 1 := {}], map[0 := {}, 1 := {}])
  {
    NoTargets();
    MoreTargets([], Ret);
    assert [] + [Ret] == [Ret];
    hide TargetsOf;
  }

  predicate FallsTo(layout: seq<BlockId>, j: nat, b: BlockId, next: BlockId) {
    j + 1 < |layout| && layout[j] == b && layout[j + 1] == next
  }

  /** Every attached block is terminated, or falls through to the block after it. */
  ghost predicate Closing(blocks: map<BlockId, seq<Instr>>, layout: seq<BlockId>, falls: map<BlockId, BlockId>) {
    && |layout| >= 2 && (forall j :: 0 <= j < |layout| ==> layout[j] in blocks)
    && (forall i, j :: 0 <= i < j < |layout| ==> layout[i] != layout[j])
    && Terminated(blocks[layout[|layout| - 1]])
    && (forall b :: b in layout && b in blocks ==> Terminated(blocks[b]) || b in falls)
    && (forall b :: b in falls ==>
        b in blocks && !Terminated(blocks[b])
        && exists j: nat :: FallsTo(layout, j, b, falls[b]))
  }

  function FinalFalls(blocks: map<BlockId, seq<Instr>>, layout: seq<BlockId>, falls: map<BlockId, BlockId>,
                      curr: BlockId, ret: BlockId): map<BlockId, BlockId> {
    if IsLive(blocks, layout, curr) then falls[curr := ret] else falls
  }

  lemma FallsAreToTheNext(blocks: map<BlockId, seq<Instr>>, layout: seq<BlockId>, falls: map<BlockId, BlockId>,
                          curr: BlockId, ret: BlockId, next: nat)
    requires Builder(blocks, layout, falls, curr, ret, next)
    ensures var after := FinalFalls(blocks, layout, falls, curr, ret);
      forall b | b in after :: b in blocks && !Terminated(blocks[b]) && exists j: nat :: FallsTo(layout, j, b, after[b])
  {
    var after := FinalFalls(blocks, layout, falls, curr, ret);
    forall b | b in after ensures b in blocks && !Terminated(blocks[b])
        && exists j: nat :: FallsTo(layout, j, b, after[b]) {
      if b == curr && IsLive(blocks, layout, curr) {
        assert FallsTo(layout, |layout| - 2, curr, ret);
      } else {
        assert Follows(layout, b, falls[b]);
        var i, j :| 0 <= i && j == i + 1 && j < |layout| - 1 && layout[i] == b && layout[j] == falls[b];
        assert FallsTo(layout, i, b, after[b]);
      }
    }
  }

  lemma BodyCloses(blocks: map<BlockId, seq<Instr>>, layout: seq<BlockId>, falls: map<BlockId, BlockId>, curr: BlockId,
                   ret: BlockId, next: nat)
    requires Builder(blocks, layout, falls, curr, ret, next)
    ensures Closing(blocks, layout, FinalFalls(blocks, layout, falls, curr, ret))
    ensures Grows(Code(blocks, falls), Code(blocks, FinalFalls(blocks, layout, falls, curr, ret)))
    ensures IsLive(blocks, layout, curr) ==> At(Code(blocks, FinalFalls(blocks, layout, falls, curr, ret)),
        Here(blocks, curr), Jump(ret))
    ensures At(Code(blocks, FinalFalls(blocks, layout, falls, curr, ret)), Pos(ret, 0), Ret)
  {
    FallsAreToTheNext(blocks, layout, falls, curr, ret, next);
    hide FallsTo, Follows;
    assert Terminated([Ret]);
  }

  lemma ClosingFacts(blocks: map<BlockId, seq<Instr>>, layout: seq<BlockId>, falls: map<BlockId, BlockId>)
    requires Closing(blocks, layout, falls)
    ensures |layout| >= 2 && (forall j :: 0 <= j < |layout| ==> layout[j] in blocks)
    ensures forall i, j :: 0 <= i < j < |layout| ==> layout[i] != layout[j]
  {
  }

  /** The first `n` blocks of the layout have their jumps. */
  ghost predicate JumpsAdded(before: map<BlockId, seq<Instr>>, after: map<BlockId, seq<Instr>>, layout: seq<BlockId>,
                             n: nat) {
    && after.Keys == before.Keys && n <= |layout|
    && (forall j :: 0 <= j < |layout| ==> layout[j] in before)
    && (forall i, j :: 0 <= i < j < |layout| ==> layout[i] != layout[j])
    && (forall j: nat :: j < n ==> JumpAdded(before, after, layout, j))
    && (forall b :: b in before && b in after && b !in layout[..n] ==> after[b] == before[b])
  }

  ghost predicate JumpAdded(before: map<BlockId, seq<Instr>>, after: map<BlockId, seq<Instr>>, layout: seq<BlockId>,
                            j: nat) {
    && j < |layout| && layout[j] in before && layout[j] in after
    && (if Terminated(before[layout[j]]) then after[layout[j]] == before[layout[j]]
        else j + 1 < |layout| && after[layout[j]] == before[layout[j]] + [Jump(layout[j + 1])])
  }

  lemma JumpsStart(before: map<BlockId, seq<Instr>>, layout: seq<BlockId>)
    requires (forall j :: 0 <= j < |layout| ==> layout[j] in before) && forall i, j ::
        0 <= i < j < |layout|
        ==> layout[i] != layout[j]
    ensures JumpsAdded(before, before, layout, 0)
  {
  }

  lemma JumpsFacts(before: map<BlockId, seq<Instr>>, after: map<BlockId, seq<Instr>>, layout: seq<BlockId>, n: nat)
    requires JumpsAdded(before, after, layout, n) && n < |layout|
    ensures after.Keys == before.Keys && layout[n] in after && after[layout[n]] == before[layout[n]]
    ensures forall j :: 0 <= j < |layout| ==> layout[j] in after
  {
    hide JumpAdded;
    assert layout[n] !in layout[..n];
  }

  lemma LastIsTerminated(blocks: map<BlockId, seq<Instr>>, layout: seq<BlockId>, falls: map<BlockId, BlockId>, j: nat)
    requires Closing(blocks, layout, falls) && j < |layout|
    ensures layout[j] in blocks && (!Terminated(blocks[layout[j]]) ==> j + 1 < |layout|)
  {
    hide FallsTo;
  }

  lemma JumpsStep(before: map<BlockId, seq<Instr>>, after: map<BlockId, seq<Instr>>, layout: seq<BlockId>, n: nat)
    requires JumpsAdded(before, after, layout, n) && n + 1 < |layout| && layout[n] in before
        && !Terminated(before[layout[n]])
    ensures layout[n] in after && JumpsAdded(before, after[layout[n] := after[layout[n]] + [Jump(layout[n + 1])]],
        layout, n + 1)
  {
    JumpsFacts(before, after, layout, n);
    hide Terminated;
    var now := after[layout[n] := after[layout[n]] + [Jump(layout[n + 1])]];
    assert layout[..n + 1] == layout[..n] + [layout[n]];
    forall j: nat | j < n + 1 ensures JumpAdded(before, now, layout, j) {
      if j < n { assert JumpAdded(before, after, layout, j); }
    }
  }

  lemma JumpsSkip(before: map<BlockId, seq<Instr>>, after: map<BlockId, seq<Instr>>, layout: seq<BlockId>, n: nat)
    requires JumpsAdded(before, after, layout, n) && n < |layout| && layout[n] in before
        && Terminated(before[layout[n]])
    ensures JumpsAdded(before, after, layout, n + 1)
  {
    JumpsFacts(before, after, layout, n);
    hide Terminated;
    assert layout[..n + 1] == layout[..n] + [layout[n]];
    forall j: nat | j < n + 1 ensures JumpAdded(before, after, layout, j) {
      if j < n { assert JumpAdded(before, after, layout, j); }
    }
  }

  lemma AllTerminated(before: map<BlockId, seq<Instr>>, after: map<BlockId, seq<Instr>>, layout: seq<BlockId>,
                      falls: map<BlockId, BlockId>)
    requires Closing(before, layout, falls) && JumpsAdded(before, after, layout, |layout|)
    ensures forall b :: b in layout ==> b in after && Terminated(after[b])
  {
    hide FallsTo;
    forall b | b in layout ensures b in after && Terminated(after[b]) {
      var j: nat :| j < |layout| && layout[j] == b;
      assert JumpAdded(before, after, layout, j);
    }
  }

  /** The jumps are where the code expected to fall through. */
  lemma AllGrown(before: map<BlockId, seq<Instr>>, after: map<BlockId, seq<Instr>>, layout: seq<BlockId>,
                 falls: map<BlockId, BlockId>)
    requires Closing(before, layout, falls) && JumpsAdded(before, after, layout, |layout|)
    ensures Grows(Code(before, falls), Code(after, map[]))
  {
    FallingAreAttached(before, layout, falls);
    hide Terminated;
    forall p, ins | At(Code(before, falls), p, ins) ensures At(Code(after, map[]), p, ins) {
      assert layout[..|layout|] == layout;
      if p.b in layout {
        var j: nat :| j < |layout| && layout[j] == p.b;
        assert JumpAdded(before, after, layout, j);
        if p.i == |before[p.b]| {
          var i: nat :| FallsTo(layout, i, p.b, falls[p.b]);
          assert i == j;
        }
      }
    }
  }

  lemma FallingAreAttached(blocks: map<BlockId, seq<Instr>>, layout: seq<BlockId>, falls: map<BlockId, BlockId>)
    requires Closing(blocks, layout, falls)
    ensures forall b :: b in falls ==> b in layout
  {
    forall b | b in falls ensures b in layout {
      var i: nat :| FallsTo(layout, i, b, falls[b]);
    }
  }

  lemma NestedOutside(s: Stmt, inLoop: bool)
    requires NestedWell(s, false) && !inLoop
    ensures NestedWell(s, inLoop)
  {
  }

  lemma BodyMade(c0: Code, c1: Code, c: Code, s: Stmt, k: StmtCode, x: Exits, end: Pos, live: bool)
    requires StmtMade(c0, s, k, x, Pos(0, 0), end, live) && Grows(c0, c1) && Grows(c1, c)
    requires (live ==> At(c1, end, Jump(x.returnTo))) && At(c1, Pos(x.returnTo, 0), Ret)
    ensures BodyAt(c, s, k, x) && First(k) == Pos(0, 0)
  {
    hide At, StmtAt;
    StmtGrows(c0, c1, s, k, x);
    StmtGrows(c1, c, s, k, x);
  }
}
