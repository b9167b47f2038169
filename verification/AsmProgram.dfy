/** Assembly as the register allocator sees it: registers, virtual registers and instructions that
    define and use operands. What an instruction does is opaque: a function of the values it uses and
    of the rest of the world. */
module AsmProgram {
  import opened BackendRegisters
  import opened ControlFlowGraph

  datatype Operand = Constant(id: nat) | Physical(reg: Register) | Virtual(id: nat, isFloat: bool)

  /** Immediates, globals and stack addresses are not registers and are never live. */
  predicate IsReg(o: Operand) {
    o.Physical? || o.Virtual?
  }

  predicate FloatOperand(o: Operand) {
    match o
    case Constant(_) => false
    case Physical(reg) => reg.Float?
    case Virtual(_, isFloat) => isFloat
  }

  datatype Instr = Instr(op: nat, defs: seq<Operand>, uses: seq<Operand>)

  type Code = map<BlockId, seq<Instr>>

  /** Instruction `i` of block `b` exists. */
  predicate At(c: Code, b: BlockId, i: nat) {
    b in c && i < |c[b]|
  }

  // ----- what every function the backend builds looks like -----

  /** `layout` is the order of the blocks in the function; the entry is first. */
  ghost predicate FunctionShape(g: Graph, c: Code, layout: seq<BlockId>) {
    && WellFormed(g) && AllReachable(g)
    && c.Keys == g.succ.Keys
    && |layout| > 0 && layout[0] == g.entry
    && (forall i :: 0 <= i < |layout| ==> layout[i] in c)
    && (forall i, j :: 0 <= i < j < |layout| ==> layout[i] != layout[j])
    && (forall b :: b in c ==> b in layout)
    && (forall b :: b in c ==> |c[b]| > 0)
  }

  // ----- uses and definitions of a block -----

  function RegsOf(os: seq<Operand>): (r: set<Operand>)
    ensures forall o :: o in r <==> o in os && IsReg(o)
  {
    set o | o in os && IsReg(o)
  }

  /** Registers some instruction defines. */
  function DefsOf(instrs: seq<Instr>): set<Operand> {
    if instrs == [] then {} else DefsOf(instrs[..|instrs| - 1]) + RegsOf(instrs[|instrs| - 1].defs)
  }

  /** Registers used before they are defined. */
  function UsesOf(instrs: seq<Instr>): set<Operand> {
    if instrs == [] then {}
    else
      var n := |instrs| - 1;
      UsesOf(instrs[..n]) + (RegsOf(instrs[n].uses) - DefsOf(instrs[..n]))
  }

  ghost predicate UsedFirstAt(instrs: seq<Instr>, i: nat, o: Operand) {
    i < |instrs| && o in RegsOf(instrs[i].uses) && o !in DefsOf(instrs[..i])
  }

  /** The registers an instruction mentions. */
  function Mentioned(instrs: seq<Instr>): set<Operand> {
    if instrs == [] then {}
    else Mentioned(instrs[..|instrs| - 1]) + RegsOf(instrs[|instrs| - 1].uses) + RegsOf(instrs[|instrs| - 1].defs)
  }

  lemma {:induction false} DefsExactly(instrs: seq<Instr>, o: Operand)
    ensures o in DefsOf(instrs) <==> exists i: nat :: i < |instrs| && o in RegsOf(instrs[i].defs)
  {
    if instrs != [] {
      var n := |instrs| - 1;
      DefsExactly(instrs[..n], o);
      if i: nat :| i < |instrs| && o in RegsOf(instrs[i].defs) {
        assert i < n ==> instrs[..n][i] == instrs[i];
      }
      if i: nat :| i < n && o in RegsOf(instrs[..n][i].defs) {
        assert instrs[..n][i] == instrs[i];
      }
    }
  }

  /** The use set of a block: some instruction uses the register and none before it defines it. */
  lemma {:induction false} UsesExactly(instrs: seq<Instr>, o: Operand)
    ensures o in UsesOf(instrs) <==> exists i: nat :: UsedFirstAt(instrs, i, o)
  {
    hide DefsOf;
    if instrs != [] {
      var n := |instrs| - 1;
      UsesExactly(instrs[..n], o);
      forall i: nat | i < n
        ensures UsedFirstAt(instrs, i, o) <==> UsedFirstAt(instrs[..n], i, o)
      {
        assert instrs[..n][i] == instrs[i] && instrs[..n][..i] == instrs[..i];
      }
      assert o in UsesOf(instrs) <==> o in UsesOf(instrs[..n]) || UsedFirstAt(instrs, n, o);
    }
  }

  lemma {:induction false} UsesMentioned(instrs: seq<Instr>)
    ensures UsesOf(instrs) <= Mentioned(instrs) && DefsOf(instrs) <= Mentioned(instrs)
  {
    if instrs != [] {
      UsesMentioned(instrs[..|instrs| - 1]);
    }
  }

  // ----- liveness, by paths -----

  /** The path `p` starts in its first block with `o` undefined until the last block uses it. */
  ghost predicate UseAlong(g: Graph, c: Code, p: seq<BlockId>, o: Operand) {
    if |p| == 0 || p[0] !in c then false
    else if |p| == 1 then o in UsesOf(c[p[0]])
    else Edge(g, p[0], p[1]) && o !in DefsOf(c[p[0]]) && UseAlong(g, c, p[1..], o)
  }

  /** `o` is live on entry to `b`: some path from there reaches a use before a definition. */
  ghost predicate LiveIn(g: Graph, c: Code, b: BlockId, o: Operand) {
    exists p :: |p| > 0 && p[0] == b && UseAlong(g, c, p, o)
  }

  ghost predicate LiveOut(g: Graph, c: Code, b: BlockId, o: Operand) {
    exists s :: Edge(g, b, s) && LiveIn(g, c, s, o)
  }

  lemma LiveInStep(g: Graph, c: Code, b: BlockId, o: Operand)
    requires b in c
    ensures LiveIn(g, c, b, o) <==> o in UsesOf(c[b]) || (LiveOut(g, c, b, o) && o !in DefsOf(c[b]))
  {
    if LiveIn(g, c, b, o) && o !in UsesOf(c[b]) {
      var p :| |p| > 0 && p[0] == b && UseAlong(g, c, p, o);
      assert |p| > 1;
      assert LiveIn(g, c, p[1], o) by { assert p[1..][0] == p[1]; }
    }
    if o in UsesOf(c[b]) {
      assert UseAlong(g, c, [b], o);
    }
    if LiveOut(g, c, b, o) && o !in DefsOf(c[b]) {
      var s :| Edge(g, b, s) && LiveIn(g, c, s, o);
      var p :| |p| > 0 && p[0] == s && UseAlong(g, c, p, o);
      var q := [b] + p;
      assert q[1..] == p;
      assert UseAlong(g, c, q, o);
    }
  }

  /** Any solution of the dataflow equations, on blocks that no edge leaves, contains every live register. */
  lemma {:induction false} LiveInLeast(g: Graph, c: Code, r: set<BlockId>, inOf: map<BlockId, set<Operand>>,
                                       p: seq<BlockId>, o: Operand)
    requires r <= c.Keys && r <= inOf.Keys && |p| > 0 && p[0] in r && UseAlong(g, c, p, o)
    requires forall b, s :: b in r && Edge(g, b, s) ==> s in r
    requires forall b :: b in r ==> UsesOf(c[b]) <= inOf[b]
    requires forall b, s, x :: b in r && Edge(g, b, s) && x in inOf[s] && x !in DefsOf(c[b]) ==> x in inOf[b]
    ensures o in inOf[p[0]]
  {
    if |p| > 1 {
      LiveInLeast(g, c, r, inOf, p[1..], o);
    }
  }
}
