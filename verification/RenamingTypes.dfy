/** Renaming keeps classes: what stands for a float variable is a float, what stands for another is not,
    whether it comes from a store, from a phi or is a zero of the pass itself. */
module RenamingTypes {
  import opened ControlFlowGraph
  import opened SsaProgram
  import opened ControlFlowAnalysis
  import opened Renaming

  type Classes = Operand -> bool

  /** Every zero has its own class, and variables are stored from and loaded into operands of theirs. */
  ghost predicate TypedInput(p: Program, prom: set<Operand>, floats: set<Operand>, isFloat: Classes) {
    && (forall f :: isFloat(Zero(f)) == f)
    && (forall b, i: nat :: At(p, b, i) && PromotedStore(prom, p[b].body[i]) ==>
          isFloat(p[b].body[i].value) == (p[b].body[i].ptr in floats))
    && (forall b, i: nat :: At(p, b, i) && PromotedLoad(prom, p[b].body[i]) ==>
          isFloat(p[b].body[i].dst) == (p[b].body[i].ptr in floats))
  }

  /** The new results have the class of their variable. */
  ghost predicate TypedResults(q: Program, floats: set<Operand>, isFloat: Classes) {
    forall b, k :: b in q && 0 <= k < |q[b].phis| ==> isFloat(q[b].phis[k].dst) == (q[b].phis[k].variable in floats)
  }

  ghost predicate TypedStacks(s: Stacks, floats: set<Operand>, isFloat: Classes) {
    forall v, k :: v in s && 0 <= k < |s[v]| ==> isFloat(s[v][k]) == (v in floats)
  }

  lemma PushTyped(s: Stacks, floats: set<Operand>, isFloat: Classes, v: Operand, e: Operand)
    requires TypedStacks(s, floats, isFloat) && isFloat(e) == (v in floats)
    ensures TypedStacks(Push(s, v, e), floats, isFloat)
  {
  }

  lemma {:induction false} PushPhisTyped(q: Program, b: BlockId, n: nat, s: Stacks, floats: set<Operand>,
                                         isFloat: Classes)
    requires TypedStacks(s, floats, isFloat) && TypedResults(q, floats, isFloat) && b in q && n <= |q[b].phis|
    ensures TypedStacks(PushPhis(s, q[b].phis[..n]), floats, isFloat)
  {
    if n > 0 {
      PushPhisTyped(q, b, n - 1, s, floats, isFloat);
      assert q[b].phis[..n][..n - 1] == q[b].phis[..n - 1];
      PushTyped(PushPhis(s, q[b].phis[..n - 1]), floats, isFloat, q[b].phis[n - 1].variable, q[b].phis[n - 1].dst);
    }
  }

  lemma ReplacementTyped(p: Program, prom: set<Operand>, s: Stacks, floats: set<Operand>, isFloat: Classes, v: Operand,
                         n: Operand)
    requires TypedInput(p, prom, floats, isFloat) && TypedStacks(s, floats, isFloat)
    requires Replaces(Stack(s, v), v in floats, n)
    ensures isFloat(n) == (v in floats)
  {
  }

  lemma EmptyTyped(s: Stacks, floats: set<Operand>, isFloat: Classes)
    requires forall v :: Stack(s, v) == []
    ensures TypedStacks(s, floats, isFloat)
  {
    forall v | v in s ensures |s[v]| == 0 {
      assert Stack(s, v) == [];
    }
  }

  /** All stacks that the walk meets hold operands of the class of their variable. */
  lemma {:induction false} StacksTyped(g: Graph, idom: map<BlockId, BlockId>, num: map<BlockId, nat>, p: Program,
                                       prom: set<Operand>, q: Program, r: Record, isFloat: Classes, b: BlockId, i: nat)
    requires Setting(g, idom, num, p, prom, q, r) && b in p && i <= |p[b].body|
    requires TypedInput(p, prom, r.floats, isFloat) && TypedResults(q, r.floats, isFloat)
    ensures b in num && Recorded(p, r, b) && TypedStacks(r.at[b][i], r.floats, isFloat)
    decreases if b in num then num[b] else 0, i, 1
  {
    hide Setting, PhisPlaced, PhisFilled, WellFormed, AllReachable, Reachable, StepRecorded, TypedInput, TypedResults,
        TypedStacks;
    SettingBlock(g, idom, num, p, prom, q, r, b);
    if i == 0 {
      if b == g.entry {
        EmptyTyped(r.entry[b], r.floats, isFloat);
      } else {
        StacksTyped(g, idom, num, p, prom, q, r, isFloat, idom[b], |p[idom[b]].body|);
      }
      PushPhisTyped(q, b, |q[b].phis|, r.entry[b], r.floats, isFloat);
      assert q[b].phis[..|q[b].phis|] == q[b].phis;
    } else {
      StacksTyped(g, idom, num, p, prom, q, r, isFloat, b, i - 1);
      StepTyped(g, idom, num, p, prom, q, r, isFloat, b, i - 1);
    }
  }

  lemma {:induction false} StepTyped(g: Graph, idom: map<BlockId, BlockId>, num: map<BlockId, nat>, p: Program,
                                     prom: set<Operand>, q: Program, r: Record, isFloat: Classes, b: BlockId, i: nat)
    requires Setting(g, idom, num, p, prom, q, r) && At(p, b, i)
    requires TypedInput(p, prom, r.floats, isFloat) && TypedResults(q, r.floats, isFloat)
    requires Recorded(p, r, b) && TypedStacks(r.at[b][i], r.floats, isFloat)
    ensures TypedStacks(r.at[b][i + 1], r.floats, isFloat)
    decreases if b in num then num[b] else 0, i + 1, 0
  {
    hide *;
    SettingStep(g, idom, num, p, prom, q, r, b, i);
    StepEffect(p, prom, r, b, i);
    var ins := p[b].body[i];
    if PromotedStore(prom, ins) {
      StoredTyped(p, prom, r.floats, isFloat, b, i);
      ResolvedTyped(g, idom, num, p, prom, q, r, isFloat, b, i, ins.value);
      PushTyped(r.at[b][i], r.floats, isFloat, ins.ptr, Resolve(r.sigma, ins.value));
    }
  }

  lemma StepEffect(p: Program, prom: set<Operand>, r: Record, b: BlockId, i: nat)
    requires Recorded(p, r, b) && At(p, b, i) && StepRecorded(p, prom, r, b, i)
    ensures |r.at[b]| == |p[b].body| + 1 && i < |p[b].body|
    ensures PromotedStore(prom, p[b].body[i]) ==> p[b].body[i].Store?
    ensures r.at[b][i + 1] == if PromotedStore(prom, p[b].body[i])
        then Push(r.at[b][i], p[b].body[i].ptr, Resolve(r.sigma, p[b].body[i].value)) else r.at[b][i]
  {
    hide Push;
  }

  lemma StoredTyped(p: Program, prom: set<Operand>, floats: set<Operand>, isFloat: Classes, b: BlockId, i: nat)
    requires TypedInput(p, prom, floats, isFloat) && At(p, b, i) && PromotedStore(prom, p[b].body[i])
    ensures Uses(p[b].body[i], p[b].body[i].value)
    ensures isFloat(p[b].body[i].value) == (p[b].body[i].ptr in floats)
  {
  }

  /** What a used operand resolves to has its class. */
  lemma {:induction false} ResolvedTyped(g: Graph, idom: map<BlockId, BlockId>, num: map<BlockId, nat>, p: Program,
                                         prom: set<Operand>, q: Program, r: Record, isFloat: Classes, b: BlockId,
                                         i: nat, o: Operand)
    requires Setting(g, idom, num, p, prom, q, r) && At(p, b, i) && Uses(p[b].body[i], o)
    requires TypedInput(p, prom, r.floats, isFloat) && TypedResults(q, r.floats, isFloat)
    ensures isFloat(Resolve(r.sigma, o)) == isFloat(o)
    decreases if b in num then num[b] else 0, i, 2
  {
    SettingInput(g, idom, num, p, prom, q, r);
    hide Setting, PhisPlaced, PhisFilled, WellFormed, AllReachable, SsaInput, TypedResults, TypedStacks;
    if o in r.sigma {
      var x, k := UseOfLoad(g, p, prom, o, b, i);
      SettingOrder(g, idom, num, p, prom, q, r, x, k, b, i);
      LoadTyped(g, idom, num, p, prom, q, r, isFloat, x, k);
    }
  }

  /** What replaces a load has the class of its variable. */
  lemma {:induction false} LoadTyped(g: Graph, idom: map<BlockId, BlockId>, num: map<BlockId, nat>, p: Program,
                                     prom: set<Operand>, q: Program, r: Record, isFloat: Classes, b: BlockId, i: nat)
    requires Setting(g, idom, num, p, prom, q, r) && At(p, b, i) && PromotedLoad(prom, p[b].body[i])
    requires TypedInput(p, prom, r.floats, isFloat) && TypedResults(q, r.floats, isFloat)
    ensures p[b].body[i].dst in r.sigma
    ensures isFloat(r.sigma[p[b].body[i].dst]) == isFloat(p[b].body[i].dst) == (p[b].body[i].ptr in r.floats)
    decreases if b in num then num[b] else 0, i, 2
  {
    SettingStep(g, idom, num, p, prom, q, r, b, i);
    hide Setting, TypedStacks, TypedResults;
    StacksTyped(g, idom, num, p, prom, q, r, isFloat, b, i);
    ReplacementTyped(p, prom, r.at[b][i], r.floats, isFloat, p[b].body[i].ptr, r.sigma[p[b].body[i].dst]);
  }

  /** Every operand of a phi has the class of the phi's variable, and every replaced load that of its own:
      a zero of the pass is a float exactly where the variable is one. */
  lemma RenamingKeepsClasses(g: Graph, idom: map<BlockId, BlockId>, num: map<BlockId, nat>, p: Program,
                             prom: set<Operand>, q: Program, r: Record, isFloat: Classes)
    requires Setting(g, idom, num, p, prom, q, r)
    requires TypedInput(p, prom, r.floats, isFloat) && TypedResults(q, r.floats, isFloat)
    ensures forall a, b, k :: Edge(g, a, b) && b in q && 0 <= k < |q[b].phis| ==>
      && a in q[b].phis[k].srcs
      && isFloat(q[b].phis[k].srcs[a]) == (q[b].phis[k].variable in r.floats)
    ensures forall b, i: nat :: At(p, b, i) && PromotedLoad(prom, p[b].body[i]) ==>
      && p[b].body[i].dst in r.sigma
      && isFloat(r.sigma[p[b].body[i].dst]) == (p[b].body[i].ptr in r.floats)
  {
    SettingInput(g, idom, num, p, prom, q, r);
    hide Setting, PhisPlaced, SsaInput, TypedStacks, TypedResults, TypedInput;
    forall a, b, k | Edge(g, a, b) && b in q && 0 <= k < |q[b].phis|
      ensures a in q[b].phis[k].srcs && isFloat(q[b].phis[k].srcs[a]) == (q[b].phis[k].variable in r.floats)
    {
      EdgeInProgram(g, p, a, b);
      StacksTyped(g, idom, num, p, prom, q, r, isFloat, a, |p[a].body|);
      ReplacementTyped(p, prom, AtEnd(p, r, a), r.floats, isFloat, q[b].phis[k].variable, q[b].phis[k].srcs[a]);
    }
    forall b, i: nat | At(p, b, i) && PromotedLoad(prom, p[b].body[i])
      ensures p[b].body[i].dst in r.sigma && isFloat(r.sigma[p[b].body[i].dst]) == (p[b].body[i].ptr in r.floats)
    {
      LoadTyped(g, idom, num, p, prom, q, r, isFloat, b, i);
    }
  }

  lemma EdgeInProgram(g: Graph, p: Program, a: BlockId, b: BlockId)
    requires WellFormed(g) && p.Keys == g.succ.Keys && Edge(g, a, b)
    ensures a in p
  {
  }

  /** Where no definition reaches, the zero has the class of the variable, whatever the program stores. */
  lemma ZeroHasClass(g: Graph, idom: map<BlockId, BlockId>, num: map<BlockId, nat>, p: Program, prom: set<Operand>,
                     q: Program, r: Record)
    requires Setting(g, idom, num, p, prom, q, r)
    ensures forall a, b, k ::
      Edge(g, a, b) && b in q && 0 <= k < |q[b].phis| && Recorded(p, r, a)
      && Stack(AtEnd(p, r, a), q[b].phis[k].variable) == []
      ==> a in q[b].phis[k].srcs && q[b].phis[k].srcs[a] == Zero(q[b].phis[k].variable in r.floats)
    ensures forall b, i: nat ::
      At(p, b, i) && PromotedLoad(prom, p[b].body[i]) && Recorded(p, r, b) && Stack(r.at[b][i], p[b].body[i].ptr) == []
      ==> p[b].body[i].dst in r.sigma && r.sigma[p[b].body[i].dst] == Zero(p[b].body[i].ptr in r.floats)
  {
    SettingInput(g, idom, num, p, prom, q, r);
    hide Setting, PhisPlaced, SsaInput;
    forall b, i: nat | At(p, b, i) && PromotedLoad(prom, p[b].body[i]) && Recorded(p, r, b)
      && Stack(r.at[b][i], p[b].body[i].ptr) == []
      ensures p[b].body[i].dst in r.sigma && r.sigma[p[b].body[i].dst] == Zero(p[b].body[i].ptr in r.floats)
    {
      SettingStep(g, idom, num, p, prom, q, r, b, i);
    }
  }
}
