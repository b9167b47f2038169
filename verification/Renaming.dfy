/** Why SSA renaming is correct. A record of the stacks at every point of the program, as the walk over
    the dominator tree finds them, together with the substitution for the removed loads, is checked
    locally; from that, every run of the renamed program shows the same trace as the original one. */
module Renaming {
  import opened ControlFlowGraph
  import opened SsaProgram
  import opened ControlFlowAnalysis

  type Stacks = map<Operand, seq<Operand>>

  function Stack(s: Stacks, v: Operand): seq<Operand> {
    if v in s then s[v] else []
  }

  function Push(s: Stacks, v: Operand, o: Operand): Stacks {
    s[v := Stack(s, v) + [o]]
  }

  function Top(st: seq<Operand>): Operand
    requires |st| > 0
  {
    st[|st| - 1]
  }

  function PushPhis(s: Stacks, phis: seq<Phi>): Stacks {
    if phis == [] then s
    else Push(PushPhis(s, phis[..|phis| - 1]), phis[|phis| - 1].variable, phis[|phis| - 1].dst)
  }

  function Resolve(sigma: map<Operand, Operand>, o: Operand): Operand {
    if o in sigma then sigma[o] else o
  }

  function ResolveAll(sigma: map<Operand, Operand>, os: seq<Operand>): (r: seq<Operand>)
    ensures |r| == |os| && forall i :: 0 <= i < |os| ==> r[i] == Resolve(sigma, os[i])
  {
    if os == [] then [] else ResolveAll(sigma, os[..|os| - 1]) + [Resolve(sigma, os[|os| - 1])]
  }

  function Substituted(sigma: map<Operand, Operand>, ins: Instr): Instr {
    match ins
    case Store(value, ptr) => Store(Resolve(sigma, value), ptr)
    case Other(op, dsts, srcs) => Other(op, dsts, ResolveAll(sigma, srcs))
    case _ => ins
  }

  /** The instructions that stay, with the loads' results replaced. */
  function Kept(prom: set<Operand>, sigma: map<Operand, Operand>, body: seq<Instr>): seq<Instr> {
    if body == [] then []
    else Kept(prom, sigma, body[..|body| - 1]) +
         if Promoted(prom, body[|body| - 1]) then [] else [Substituted(sigma, body[|body| - 1])]
  }

  function StepStacks(prom: set<Operand>, sigma: map<Operand, Operand>, s: Stacks, ins: Instr): Stacks {
    if PromotedStore(prom, ins) then Push(s, ins.ptr, Resolve(sigma, ins.value)) else s
  }

  /** `entry[b]`: the stacks when the walk comes to `b`; `at[b][i]`: before instruction `i`, the phis
      pushed; `sigma`: what replaces the result of each removed load; `floats`: the variables that hold
      floats. */
  datatype Record = Record(entry: map<BlockId, Stacks>, at: map<BlockId, seq<Stacks>>, sigma: map<Operand, Operand>,
                           floats: set<Operand>)

  ghost predicate Recorded(p: Program, r: Record, b: BlockId) {
    b in p && b in r.entry && b in r.at && |r.at[b]| == |p[b].body| + 1
  }

  function AtEnd(p: Program, r: Record, b: BlockId): Stacks
    requires Recorded(p, r, b)
  {
    r.at[b][|p[b].body|]
  }

  /** What replaces the result of a load: the top of the stack, or where there is none the zero of its class. */
  predicate Replaces(stack: seq<Operand>, isFloat: bool, n: Operand) {
    n == if stack == [] then Zero(isFloat) else Top(stack)
  }

  /** Walking over `ins` with the substitution `sigma` turns the stacks `before` into `after`. */
  ghost predicate StepOk(prom: set<Operand>, floats: set<Operand>, sigma: map<Operand, Operand>, before: Stacks,
                         after: Stacks, ins: Instr) {
    && after == StepStacks(prom, sigma, before, ins)
    && (PromotedLoad(prom, ins) ==> ins.dst in sigma && Replaces(Stack(before, ins.ptr), ins.ptr in floats,
        sigma[ins.dst]))
  }

  ghost predicate StepRecorded(p: Program, prom: set<Operand>, r: Record, b: BlockId, i: nat)
    requires Recorded(p, r, b) && i < |p[b].body|
  {
    StepOk(prom, r.floats, r.sigma, r.at[b][i], r.at[b][i + 1], p[b].body[i])
  }

  /** The walk through block `b`: phis pushed first, then one instruction after the other. */
  ghost predicate BlockRecorded(p: Program, prom: set<Operand>, phis: seq<Phi>, r: Record, b: BlockId) {
    && Recorded(p, r, b)
    && r.at[b][0] == PushPhis(r.entry[b], phis)
    && (forall i: nat :: i < |p[b].body| ==> StepRecorded(p, prom, r, b, i))
  }

  ghost predicate PhiFor(q: Program, b: BlockId, v: Operand) {
    b in q && exists k :: 0 <= k < |q[b].phis| && q[b].phis[k].variable == v
  }

  ghost predicate IsPhiResult(q: Program, b: BlockId, o: Operand) {
    b in q && exists k :: 0 <= k < |q[b].phis| && q[b].phis[k].dst == o
  }

  ghost predicate StoresTo(p: Program, b: BlockId, v: Operand) {
    exists i: nat :: At(p, b, i) && p[b].body[i].Store? && p[b].body[i].ptr == v
  }

  /** Where the phis stand: one for each variable, its result a new name, and one for `v` wherever a
      block that stores to `v` or has a phi for `v` has its dominance frontier. */
  ghost predicate PhisPlaced(g: Graph, p: Program, prom: set<Operand>, q: Program) {
    && q.Keys == p.Keys
    && (forall b, k :: b in q && 0 <= k < |q[b].phis| ==> q[b].phis[k].variable in prom && q[b].phis[k].dst.Id?)
    && (forall b, k, l :: b in q && 0 <= k < l < |q[b].phis| ==> q[b].phis[k].variable != q[b].phis[l].variable)
    && (forall b, k, c, l ::
        b in q && c in q && 0 <= k < |q[b].phis| && 0 <= l < |q[c].phis|
        && q[b].phis[k].dst == q[c].phis[l].dst
        ==> b == c && k == l)
    && (forall b, o, c, i: nat :: IsPhiResult(q, b, o) && At(p, c, i) ==>
        !Defines(p[c].body[i], o)
        && !Uses(p[c].body[i], o))
    && (forall x, y, v ::
        v in prom && (StoresTo(p, x, v) || PhiFor(q, x, v)) && InFrontier(g, x, y)
        ==> PhiFor(q, y, v))
  }

  /** The phi operands: the top of the predecessor's stack at its end, or the zero of its class if that is empty. */
  ghost predicate PhisFilled(g: Graph, p: Program, q: Program, r: Record) {
    forall a, b, k :: Edge(g, a, b) && b in q && 0 <= k < |q[b].phis| && Recorded(p, r, a) ==>
      && a in q[b].phis[k].srcs
      && var v := q[b].phis[k].variable;
         Replaces(Stack(AtEnd(p, r, a), v), v in r.floats, q[b].phis[k].srcs[a])
  }

  /** `q` is `p` after renaming, `r` the record of the walk. */
  ghost predicate Renamed(g: Graph, idom: map<BlockId, BlockId>, p: Program, prom: set<Operand>, q: Program,
                          r: Record) {
    && PhisPlaced(g, p, prom, q)
    && PhisFilled(g, p, q, r)
    && (forall b :: b in p ==> BlockRecorded(p, prom, q[b].phis, r, b))
    && (forall b :: b in p ==> q[b].body == Kept(prom, r.sigma, p[b].body))
    && (forall o :: o in r.sigma ==> IsLoadResult(p, prom, o))
    && g.entry in r.entry && (forall v :: Stack(r.entry[g.entry], v) == [])
    && (forall b :: b in p && b != g.entry ==> b in idom && idom[b] in p && r.entry[b] == AtEnd(p, r, idom[b]))
  }

  /** Everything the proofs below start from. */
  ghost predicate Setting(g: Graph, idom: map<BlockId, BlockId>, num: map<BlockId, nat>, p: Program, prom: set<Operand>,
                          q: Program, r: Record) {
    && WellFormed(g) && AllReachable(g) && g.pred[g.entry] == {}
    && IdomsCorrect(g, idom) && IdomsDescend(g, idom, num)
    && SsaInput(g, p, prom)
    && Renamed(g, idom, p, prom, q, r)
  }

  // ----- order of positions -----

  lemma BeforeTransitive(g: Graph, c: BlockId, j: nat, x: BlockId, k: nat, b: BlockId, i: nat)
    requires WellFormed(g) && Reachable(g, b) && Reachable(g, x)
    requires Before(g, c, j, x, k) && Before(g, x, k, b, i)
    ensures Before(g, c, j, b, i)
  {
    if c != x && x != b {
      DominatesTransitive(g, c, x, b);
      if c == b {
        DominatesAntisymmetric(g, x, b);
      }
    }
  }

  /** What is before the start of a block is before the end of each of its predecessors. */
  lemma BeforeAtPred(g: Graph, c: BlockId, j: nat, a: BlockId, n: nat, b: BlockId)
    requires WellFormed(g) && Edge(g, a, b) && Before(g, c, j, b, 0) && (c == a ==> j < n)
    ensures Before(g, c, j, a, n)
  {
    StrictDominatorOfPred(g, c, a, b);
  }

  lemma NotBothBefore(g: Graph, c: BlockId, j: nat, b: BlockId, i: nat)
    requires WellFormed(g) && Reachable(g, b) && Reachable(g, c)
    ensures !Before(g, c, j, b, i) || !Before(g, b, i, c, j)
  {
    if c != b && Dominates(g, c, b) && Dominates(g, b, c) {
      DominatesAntisymmetric(g, c, b);
    }
  }

  // ----- where the operands on the stacks come from -----

  /** `e` was there before position `i` of `b`: it is not the result of a removed load, and whatever
      defines it, instruction or phi, comes first. */
  ghost predicate Available(g: Graph, p: Program, prom: set<Operand>, q: Program, e: Operand, b: BlockId, i: nat) {
    && !IsLoadResult(p, prom, e)
    && (forall c, j: nat :: At(p, c, j) && Defines(p[c].body[j], e) ==> Before(g, c, j, b, i))
    && (forall c :: IsPhiResult(q, c, e) ==> Dominates(g, c, b))
  }

  ghost predicate AllAvailable(g: Graph, p: Program, prom: set<Operand>, q: Program, s: Stacks, b: BlockId, i: nat) {
    forall v, k :: v in s && 0 <= k < |s[v]| ==> Available(g, p, prom, q, s[v][k], b, i)
  }

  lemma AvailableLater(g: Graph, p: Program, prom: set<Operand>, q: Program, e: Operand, x: BlockId, k: nat, b: BlockId,
                       i: nat)
    requires WellFormed(g) && AllReachable(g) && p.Keys == g.succ.Keys && x in p && b in p
    requires Available(g, p, prom, q, e, x, k) && (Before(g, x, k, b, i) || (x == b && k <= i))
    ensures Available(g, p, prom, q, e, b, i)
  {
    forall c, j: nat | At(p, c, j) && Defines(p[c].body[j], e)
      ensures Before(g, c, j, b, i)
    {
      if Before(g, x, k, b, i) {
        BeforeTransitive(g, c, j, x, k, b, i);
      }
    }
    forall c | IsPhiResult(q, c, e)
      ensures Dominates(g, c, b)
    {
      if x != b {
        DominatesTransitive(g, c, x, b);
      }
    }
  }

  /** Along the dominator tree the numbers grow. */
  lemma {:induction false} DominatorNumberedLower(g: Graph, idom: map<BlockId, BlockId>, num: map<BlockId, nat>,
                                                  x: BlockId, b: BlockId)
    requires WellFormed(g) && AllReachable(g) && IdomsCorrect(g, idom) && IdomsDescend(g, idom, num)
    requires b in idom && StrictlyDominates(g, x, b)
    ensures b != g.entry && x in num && num[x] < num[b]
    decreases num[b]
  {
    if b == g.entry {
      OnlyEntryDominatesEntry(g, x);
    }
    assert IsImmediateDominator(g, idom[b], b);
    if x != idom[b] {
      DominatorNumberedLower(g, idom, num, x, idom[b]);
    }
  }

  lemma PhiResultAvailable(g: Graph, p: Program, prom: set<Operand>, q: Program, b: BlockId, k: nat)
    requires WellFormed(g) && PhisPlaced(g, p, prom, q) && b in q && k < |q[b].phis|
    ensures Available(g, p, prom, q, q[b].phis[k].dst, b, 0)
  {
    assert IsPhiResult(q, b, q[b].phis[k].dst);
    DominatesReflexive(g, b);
  }

  lemma {:induction false} PushPhisAvailable(g: Graph, p: Program, prom: set<Operand>, q: Program, s: Stacks,
                                             b: BlockId, n: nat)
    requires WellFormed(g) && PhisPlaced(g, p, prom, q) && b in q && n <= |q[b].phis|
    requires AllAvailable(g, p, prom, q, s, b, 0)
    ensures AllAvailable(g, p, prom, q, PushPhis(s, q[b].phis[..n]), b, 0)
  {
    if n > 0 {
      PushPhisAvailable(g, p, prom, q, s, b, n - 1);
      assert q[b].phis[..n][..n - 1] == q[b].phis[..n - 1];
      PhiResultAvailable(g, p, prom, q, b, n - 1);
      PushAvailable(g, p, prom, q, PushPhis(s, q[b].phis[..n - 1]), b, 0, q[b].phis[n - 1].variable,
          q[b].phis[n - 1].dst);
    }
  }

  lemma PushAvailable(g: Graph, p: Program, prom: set<Operand>, q: Program, s: Stacks, b: BlockId, i: nat, v: Operand,
                      e: Operand)
    requires AllAvailable(g, p, prom, q, s, b, i) && Available(g, p, prom, q, e, b, i)
    ensures AllAvailable(g, p, prom, q, Push(s, v, e), b, i)
  {
    hide Available;
  }

  lemma AllAvailableLater(g: Graph, p: Program, prom: set<Operand>, q: Program, s: Stacks, x: BlockId, k: nat,
                          b: BlockId, i: nat)
    requires WellFormed(g) && AllReachable(g) && p.Keys == g.succ.Keys && x in p && b in p
    requires AllAvailable(g, p, prom, q, s, x, k) && (Before(g, x, k, b, i) || (x == b && k <= i))
    ensures AllAvailable(g, p, prom, q, s, b, i)
  {
    forall v, l | v in s && 0 <= l < |s[v]|
      ensures Available(g, p, prom, q, s[v][l], b, i)
    {
      AvailableLater(g, p, prom, q, s[v][l], x, k, b, i);
    }
  }

  lemma SettingBlock(g: Graph, idom: map<BlockId, BlockId>, num: map<BlockId, nat>, p: Program, prom: set<Operand>,
                     q: Program, r: Record, b: BlockId)
    requires Setting(g, idom, num, p, prom, q, r) && b in p
    ensures WellFormed(g) && AllReachable(g) && p.Keys == g.succ.Keys == q.Keys && Reachable(g, b)
        && PhisPlaced(g, p, prom, q)
    ensures b in num && BlockRecorded(p, prom, q[b].phis, r, b) && q[b].body == Kept(prom, r.sigma, p[b].body)
    ensures b == g.entry ==> forall v :: Stack(r.entry[b], v) == []
    ensures b != g.entry ==>
              && b in idom && idom[b] in p && idom[b] in num && num[idom[b]] < num[b]
                  && StrictlyDominates(g, idom[b], b)
              && Recorded(p, r, idom[b]) && r.entry[b] == AtEnd(p, r, idom[b])
  {
    hide PhisFilled, StepRecorded, UniqueDefinitions, DefinedBeforeUse, AddressesNotLoaded, WellFormed;
    assert PhisPlaced(g, p, prom, q);
    if b != g.entry {
      assert IsImmediateDominator(g, idom[b], b);
      assert BlockRecorded(p, prom, q[idom[b]].phis, r, idom[b]);
    }
  }

  lemma SettingStep(g: Graph, idom: map<BlockId, BlockId>, num: map<BlockId, nat>, p: Program, prom: set<Operand>,
                    q: Program, r: Record, b: BlockId, i: nat)
    requires Setting(g, idom, num, p, prom, q, r) && At(p, b, i)
    ensures Recorded(p, r, b) && StepRecorded(p, prom, r, b, i)
  {
    SettingBlock(g, idom, num, p, prom, q, r, b);
  }

  lemma SettingOrder(g: Graph, idom: map<BlockId, BlockId>, num: map<BlockId, nat>, p: Program, prom: set<Operand>,
                     q: Program, r: Record,
                     x: BlockId, k: nat, b: BlockId, i: nat)
    requires Setting(g, idom, num, p, prom, q, r) && x in p && b in p && Before(g, x, k, b, i)
    ensures x in num && b in num && (num[x] < num[b] || (x == b && k < i))
  {
    hide Renamed, UniqueDefinitions, DefinedBeforeUse, AddressesNotLoaded;
    if x != b {
      DominatorNumberedLower(g, idom, num, x, b);
    }
  }

  /** A used load result has a definition that comes before. */
  lemma UseOfLoad(g: Graph, p: Program, prom: set<Operand>, o: Operand, b: BlockId, i: nat) returns (x: BlockId, k: nat)
    requires SsaInput(g, p, prom) && At(p, b, i) && Uses(p[b].body[i], o) && IsLoadResult(p, prom, o)
    ensures At(p, x, k) && PromotedLoad(prom, p[x].body[k]) && p[x].body[k].dst == o && Before(g, x, k, b, i)
  {
    hide UniqueDefinitions, AddressesNotLoaded;
    x, k :| At(p, x, k) && PromotedLoad(prom, p[x].body[k]) && p[x].body[k].dst == o;
    assert Defines(p[x].body[k], o);
  }

  lemma PlainUseAvailable(g: Graph, p: Program, prom: set<Operand>, q: Program, o: Operand, b: BlockId, i: nat)
    requires SsaInput(g, p, prom) && PhisPlaced(g, p, prom, q) && At(p, b, i) && Uses(p[b].body[i], o)
        && !IsLoadResult(p, prom, o)
    ensures Available(g, p, prom, q, o, b, i)
  {
  }

  /** Every operand on every stack is available. */
  lemma {:induction false} StacksAvailable(g: Graph, idom: map<BlockId, BlockId>, num: map<BlockId, nat>, p: Program,
                                           prom: set<Operand>, q: Program, r: Record,
                                           b: BlockId, i: nat)
    requires Setting(g, idom, num, p, prom, q, r) && b in p && i <= |p[b].body|
    ensures b in num && Recorded(p, r, b) && AllAvailable(g, p, prom, q, r.at[b][i], b, i)
    decreases if b in num then num[b] else 0, i
  {
    hide Setting, PhisPlaced, PhisFilled, Available, AllAvailable, WellFormed, AllReachable, Reachable, StepRecorded;
    SettingBlock(g, idom, num, p, prom, q, r, b);
    if i == 0 {
      if b == g.entry {
        EmptyAvailable(g, p, prom, q, r.entry[b], b, 0);
      } else {
        StacksAvailable(g, idom, num, p, prom, q, r, idom[b], |p[idom[b]].body|);
        AllAvailableLater(g, p, prom, q, r.entry[b], idom[b], |p[idom[b]].body|, b, 0);
      }
      PushPhisAvailable(g, p, prom, q, r.entry[b], b, |q[b].phis|);
      assert q[b].phis[..|q[b].phis|] == q[b].phis;
    } else {
      StacksAvailable(g, idom, num, p, prom, q, r, b, i - 1);
      AllAvailableLater(g, p, prom, q, r.at[b][i - 1], b, i - 1, b, i);
      SettingStep(g, idom, num, p, prom, q, r, b, i - 1);
      StepAvailable(g, idom, num, p, prom, q, r, b, i - 1);
    }
  }

  lemma {:induction false} StepAvailable(g: Graph, idom: map<BlockId, BlockId>, num: map<BlockId, nat>, p: Program,
                                         prom: set<Operand>, q: Program, r: Record,
                                         b: BlockId, i: nat)
    requires Setting(g, idom, num, p, prom, q, r) && At(p, b, i)
    requires Recorded(p, r, b) && StepRecorded(p, prom, r, b, i) && AllAvailable(g, p, prom, q, r.at[b][i], b, i + 1)
    ensures AllAvailable(g, p, prom, q, r.at[b][i + 1], b, i + 1)
    decreases if b in num then num[b] else 0, i + 1, 1
  {
    hide Setting, Available, AllAvailable;
    var ins := p[b].body[i];
    if PromotedStore(prom, ins) {
      ResolvedAvailable(g, idom, num, p, prom, q, r, b, i, ins.value);
      PushAvailable(g, p, prom, q, r.at[b][i], b, i + 1, ins.ptr, Resolve(r.sigma, ins.value));
    }
  }

  lemma EmptyAvailable(g: Graph, p: Program, prom: set<Operand>, q: Program, s: Stacks, b: BlockId, i: nat)
    requires forall v :: Stack(s, v) == []
    ensures AllAvailable(g, p, prom, q, s, b, i)
  {
    forall v | v in s
      ensures |s[v]| == 0
    {
      assert Stack(s, v) == [];
    }
  }

  lemma ElementAvailable(g: Graph, p: Program, prom: set<Operand>, q: Program, s: Stacks, b: BlockId, i: nat,
                         v: Operand)
    requires AllAvailable(g, p, prom, q, s, b, i) && |Stack(s, v)| > 0
    ensures Available(g, p, prom, q, Top(Stack(s, v)), b, i)
  {
  }

  /** What replaces a load is available where the load stands. */
  lemma ReplacementAvailable(g: Graph, p: Program, prom: set<Operand>, q: Program, s: Stacks, b: BlockId, i: nat,
                             v: Operand, isFloat: bool, n: Operand)
    requires SsaInput(g, p, prom) && PhisPlaced(g, p, prom, q)
    requires AllAvailable(g, p, prom, q, s, b, i) && Replaces(Stack(s, v), isFloat, n)
    ensures Available(g, p, prom, q, n, b, i)
  {
    if Stack(s, v) != [] {
      ElementAvailable(g, p, prom, q, s, b, i, v);
    } else {
      ZeroAvailable(g, p, prom, q, b, i, n);
    }
  }

  lemma ZeroAvailable(g: Graph, p: Program, prom: set<Operand>, q: Program, b: BlockId, i: nat, n: Operand)
    requires SsaInput(g, p, prom) && PhisPlaced(g, p, prom, q) && n.Zero?
    ensures Available(g, p, prom, q, n, b, i)
  {
    assert forall c, j: nat :: At(p, c, j) && Defines(p[c].body[j], n) ==> n.Id?;
  }

  lemma SettingInput(g: Graph, idom: map<BlockId, BlockId>, num: map<BlockId, nat>, p: Program, prom: set<Operand>,
                     q: Program, r: Record)
    requires Setting(g, idom, num, p, prom, q, r)
    ensures WellFormed(g) && AllReachable(g) && SsaInput(g, p, prom) && PhisPlaced(g, p, prom, q)
        && PhisFilled(g, p, q, r)
    ensures forall o :: o in r.sigma ==> IsLoadResult(p, prom, o)
    ensures g.pred[g.entry] == {} && p.Keys == g.succ.Keys == q.Keys
  {
  }

  /** What a used operand resolves to is available after the use. */
  lemma {:induction false} ResolvedAvailable(g: Graph, idom: map<BlockId, BlockId>, num: map<BlockId, nat>, p: Program,
                                             prom: set<Operand>, q: Program, r: Record,
                                             b: BlockId, i: nat, o: Operand)
    requires Setting(g, idom, num, p, prom, q, r) && At(p, b, i) && Uses(p[b].body[i], o)
    ensures Available(g, p, prom, q, Resolve(r.sigma, o), b, i + 1)
    decreases if b in num then num[b] else 0, i + 1, 0
  {
    hide Setting, PhisPlaced, PhisFilled, Available, AllAvailable, WellFormed, AllReachable, SsaInput;
    SettingInput(g, idom, num, p, prom, q, r);
    if IsLoadResult(p, prom, o) {
      var x, k := UseOfLoad(g, p, prom, o, b, i);
      SettingOrder(g, idom, num, p, prom, q, r, x, k, b, i);
      SettingStep(g, idom, num, p, prom, q, r, x, k);
      StacksAvailable(g, idom, num, p, prom, q, r, x, k);
      ReplacementAvailable(g, p, prom, q, r.at[x][k], x, k, p[x].body[k].ptr, p[x].body[k].ptr in r.floats, r.sigma[o]);
      AvailableLater(g, p, prom, q, r.sigma[o], x, k, b, i + 1) by {
        BeforeMonotone(g, x, k, b, i);
      }
    } else {
      PlainUseAvailable(g, p, prom, q, o, b, i);
      AvailableLater(g, p, prom, q, o, b, i, b, i + 1);
    }
  }

  lemma BeforeMonotone(g: Graph, x: BlockId, k: nat, b: BlockId, i: nat)
    requires Before(g, x, k, b, i)
    ensures Before(g, x, k, b, i + 1)
  {
  }
}
