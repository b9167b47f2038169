/** The state of the walk over the dominator tree that `rename` makes, and what each of its steps
    does to it. */
module RenamingWalk {
  import opened ControlFlowGraph
  import opened SsaProgram
  import opened ControlFlowAnalysis
  import opened Renaming
  import opened RenamingSimulation
  import opened PhiPlacement

  // ----- the code in the middle of the walk -----

  function SubstAll(sigma: map<Operand, Operand>, body: seq<Instr>): (r: seq<Instr>)
    ensures |r| == |body| && forall i :: 0 <= i < |body| ==> r[i] == Substituted(sigma, body[i])
  {
    if body == [] then [] else SubstAll(sigma, body[..|body| - 1]) + [Substituted(sigma, body[|body| - 1])]
  }

  /** A block of which the first `i` instructions have been walked over. */
  function Mixed(prom: set<Operand>, sigma: map<Operand, Operand>, body: seq<Instr>, i: nat): seq<Instr>
    requires i <= |body|
  {
    Kept(prom, sigma, body[..i]) + SubstAll(sigma, body[i..])
  }

  lemma {:induction false} KeptLength(prom: set<Operand>, sigma: map<Operand, Operand>, sigma': map<Operand, Operand>,
                                      body: seq<Instr>)
    ensures |Kept(prom, sigma, body)| == |Kept(prom, sigma', body)|
  {
    if body != [] {
      KeptLength(prom, sigma, sigma', body[..|body| - 1]);
    }
  }

  lemma KeptOneMore(prom: set<Operand>, sigma: map<Operand, Operand>, body: seq<Instr>, i: nat)
    requires i < |body|
    ensures Kept(prom, sigma, body[..i + 1]) ==
            Kept(prom, sigma, body[..i]) + (if Promoted(prom, body[i]) then [] else [Substituted(sigma, body[i])])
  {
    hide Substituted, Promoted;
    assert body[..i + 1][..i] == body[..i];
  }

  lemma MixedAt(prom: set<Operand>, sigma: map<Operand, Operand>, body: seq<Instr>, i: nat)
    requires i < |body|
    ensures |Kept(prom, sigma, body[..i])| < |Mixed(prom, sigma, body, i)|
    ensures Mixed(prom, sigma, body, i)[|Kept(prom, sigma, body[..i])|] == Substituted(sigma, body[i])
    ensures var j := |Kept(prom, sigma, body[..i])|;
            var mixed := Mixed(prom, sigma, body, i);
            if Promoted(prom, body[i])
            then mixed[..j] + mixed[j + 1..] == Mixed(prom, sigma, body, i + 1)
                && |Kept(prom, sigma, body[..i + 1])| == j
            else mixed == Mixed(prom, sigma, body, i + 1) && |Kept(prom, sigma, body[..i + 1])| == j + 1
  {
    hide Substituted, Promoted, Kept, SubstAll;
    KeptOneMore(prom, sigma, body, i);
    var kept := Kept(prom, sigma, body[..i]);
    assert SubstAll(sigma, body[i..]) == [Substituted(sigma, body[i])] + SubstAll(sigma, body[i + 1..]);
  }

  lemma MixedEnds(prom: set<Operand>, sigma: map<Operand, Operand>, body: seq<Instr>)
    ensures Mixed(prom, sigma, body, |body|) == Kept(prom, sigma, body)
    ensures Mixed(prom, sigma, body, 0) == SubstAll(sigma, body)
    ensures Kept(prom, sigma, body[..0]) == []
  {
    assert body[..|body|] == body && body[0..] == body;
  }

  lemma {:induction false} NothingSubstituted(body: seq<Instr>)
    ensures SubstAll(map[], body) == body
  {
    forall i | 0 <= i < |body|
      ensures Substituted(map[], body[i]) == body[i]
    {
      if body[i].Other? {
        assert ResolveAll(map[], body[i].srcs) == body[i].srcs;
      }
    }
  }

  // ----- replacing an operand -----

  function ReplaceIn(os: seq<Operand>, d: Operand, n: Operand): (r: seq<Operand>)
    ensures |r| == |os| && forall i :: 0 <= i < |os| ==> r[i] == if os[i] == d then n else os[i]
  {
    if os == [] then [] else ReplaceIn(os[..|os| - 1], d, n) + [if os[|os| - 1] == d then n else os[|os| - 1]]
  }

  /** `replace_operand` for one instruction. The address of a load or store is left as it is. */
  function ReplaceOperand(ins: Instr, d: Operand, n: Operand): Instr {
    match ins
    case Alloca(dst, t) => Alloca(if dst == d then n else dst, t)
    case Load(dst, ptr) => Load(if dst == d then n else dst, ptr)
    case Store(value, ptr) => Store(if value == d then n else value, ptr)
    case Other(op, dsts, srcs) => Other(op, ReplaceIn(dsts, d, n), ReplaceIn(srcs, d, n))
  }

  /** The net effect of replacing `d` in all its users. */
  function UsesReplaced(ins: Instr, d: Operand, n: Operand): Instr {
    if Uses(ins, d) then ReplaceOperand(ins, d, n) else ins
  }

  lemma ReplaceExtendsOther(sigma: map<Operand, Operand>, op: nat, dsts: seq<Operand>, srcs: seq<Operand>, d: Operand,
                            n: Operand)
    requires d !in sigma && (forall o :: o in sigma ==> sigma[o] != d)
    requires d in srcs ==> d !in dsts
    ensures UsesReplaced(Substituted(sigma, Other(op, dsts, srcs)), d, n) == Substituted(sigma[d := n],
        Other(op, dsts, srcs))
  {
    hide ReplaceIn, ResolveAll;
    var srcs' := ResolveAll(sigma, srcs);
    assert ReplaceIn(srcs', d, n) == ResolveAll(sigma[d := n], srcs);
    if d !in srcs' {
      assert ReplaceIn(srcs', d, n) == srcs';
    } else {
      var i :| 0 <= i < |srcs'| && srcs'[i] == d;
      assert srcs[i] == d;
      assert ReplaceIn(dsts, d, n) == dsts;
    }
  }

  /** Extending the substitution by a load result that occurs in none of its values. */
  lemma ReplaceExtends(sigma: map<Operand, Operand>, ins: Instr, d: Operand, n: Operand)
    requires d !in sigma && (forall o :: o in sigma ==> sigma[o] != d)
    requires Uses(ins, d) ==> !Defines(ins, d)
    requires ins.Load? || ins.Store? ==> ins.ptr != d
    ensures UsesReplaced(Substituted(sigma, ins), d, n) == Substituted(sigma[d := n], ins)
  {
    match ins
    case Alloca(_, _) =>
    case Load(_, _) =>
    case Store(_, _) =>
    case Other(op, dsts, srcs) =>
      hide *;
      ReplaceExtendsOther(sigma, op, dsts, srcs, d, n) by {
        SourceIsUse(op, dsts, srcs, d);
      }
  }

  lemma SourceIsUse(op: nat, dsts: seq<Operand>, srcs: seq<Operand>, d: Operand)
    ensures Uses(Other(op, dsts, srcs), d) <==> d in srcs
    ensures Defines(Other(op, dsts, srcs), d) <==> d in dsts
  {
  }

  /** `body'` is `body` with `d` replaced in all users. */
  ghost predicate AllReplaced(body: seq<Instr>, body': seq<Instr>, d: Operand, n: Operand) {
    |body'| == |body| && forall i :: 0 <= i < |body| ==> body'[i] == UsesReplaced(body[i], d, n)
  }

  predicate Addresses(ins: Instr, d: Operand) {
    (ins.Load? || ins.Store?) && ins.ptr == d
  }

  /** When every user of `d` has been rewritten, `d` is still read exactly if it is the address of a load or
      a store. */
  lemma AddressStaysIff(body: seq<Instr>, body': seq<Instr>, d: Operand, n: Operand)
    requires AllReplaced(body, body', d, n) && n != d
    ensures (exists ins :: ins in body' && Uses(ins, d)) <==> exists ins :: ins in body && Addresses(ins, d)
  {
    forall i | 0 <= i < |body| ensures Uses(body'[i], d) <==> Addresses(body[i], d) {
      StaysInOne(body[i], d, n);
    }
    if ins :| ins in body && Addresses(ins, d) {
      var i :| 0 <= i < |body| && body[i] == ins;
      assert body'[i] in body' && Uses(body'[i], d);
    }
    if ins :| ins in body' && Uses(ins, d) {
      var i :| 0 <= i < |body'| && body'[i] == ins;
      assert body[i] in body && Addresses(body[i], d);
    }
  }

  lemma StaysInOne(ins: Instr, d: Operand, n: Operand)
    requires n != d
    ensures Uses(UsesReplaced(ins, d, n), d) <==> Addresses(ins, d)
  {
    if ins.Other? {
      assert forall i :: 0 <= i < |ins.srcs| ==> ReplaceIn(ins.srcs, d, n)[i] != d;
    }
  }

  lemma {:induction false} KeptReplaced(prom: set<Operand>, sigma: map<Operand, Operand>, body: seq<Instr>, d: Operand,
                                        n: Operand)
    requires d !in sigma && (forall o :: o in sigma ==> sigma[o] != d)
    requires forall ins :: ins in body ==>
        (Uses(ins, d) ==> !Defines(ins, d))
        && (ins.Load? || ins.Store? ==> ins.ptr != d)
    ensures AllReplaced(Kept(prom, sigma, body), Kept(prom, sigma[d := n], body), d, n)
  {
    if body != [] {
      KeptReplaced(prom, sigma, body[..|body| - 1], d, n);
      ReplaceExtends(sigma, body[|body| - 1], d, n);
    }
  }

  lemma MixedReplaced(prom: set<Operand>, sigma: map<Operand, Operand>, body: seq<Instr>, i: nat, mixed: seq<Instr>,
                      d: Operand, n: Operand)
    requires i <= |body| && d !in sigma && (forall o :: o in sigma ==> sigma[o] != d)
    requires forall ins :: ins in body ==>
        (Uses(ins, d) ==> !Defines(ins, d))
        && (ins.Load? || ins.Store? ==> ins.ptr != d)
    requires AllReplaced(Mixed(prom, sigma, body, i), mixed, d, n)
    ensures mixed == Mixed(prom, sigma[d := n], body, i)
  {
    hide Substituted, UsesReplaced, Uses, Defines;
    assert forall ins :: ins in body[..i] ==> ins in body;
    KeptReplaced(prom, sigma, body[..i], d, n);
    var k := |Kept(prom, sigma, body[..i])|;
    forall l | i <= l < |body|
      ensures UsesReplaced(Substituted(sigma, body[l]), d, n) == Substituted(sigma[d := n], body[l])
    {
      assert body[l] in body;
      ReplaceExtends(sigma, body[l], d, n);
    }
    var mixed' := Mixed(prom, sigma[d := n], body, i);
    forall l | 0 <= l < |mixed|
      ensures mixed[l] == mixed'[l]
    {
      if l >= k {
        assert SubstAll(sigma, body[i..])[l - k] == Substituted(sigma, body[i + l - k]);
        assert SubstAll(sigma[d := n], body[i..])[l - k] == Substituted(sigma[d := n], body[i + l - k]);
      }
    }
  }

  /** The users of `d` that are not in `users` have been given `n` instead. */
  ghost predicate PartlyReplaced(code: Program, code': Program, users: set<(BlockId, nat)>, d: Operand, n: Operand) {
    && code'.Keys == code.Keys
    && (forall b :: b in code ==> code'[b].phis == code[b].phis && |code'[b].body| == |code[b].body|)
    && (forall u :: u in users ==> u.0 in code && u.1 < |code[u.0].body| && Uses(code[u.0].body[u.1], d))
    && (forall b, i: nat :: b in code && i < |code[b].body| ==>
          code'[b].body[i] == if (b, i) in users then code[b].body[i] else UsesReplaced(code[b].body[i], d, n))
  }

  ghost function UsersOf(code: Program, d: Operand): set<(BlockId, nat)> {
    set b, i: nat | b in code && i < |code[b].body| && Uses(code[b].body[i], d) :: (b, i)
  }

  lemma NothingReplaced(code: Program, d: Operand, n: Operand)
    ensures PartlyReplaced(code, code, UsersOf(code, d), d, n)
  {
  }

  lemma UserReplaced(code: Program, code': Program, users: set<(BlockId, nat)>, d: Operand, n: Operand,
                     u: (BlockId, nat))
    requires PartlyReplaced(code, code', users, d, n) && u in users
    ensures u.0 in code' && u.1 < |code'[u.0].body| && code'[u.0].body[u.1] == code[u.0].body[u.1]
    ensures var block := code'[u.0];
            PartlyReplaced(code, code'[u.0 := Block(block.phis, block.body[u.1 := ReplaceOperand(block.body[u.1], d,
                n)])], users - {u}, d, n)
  {
    hide Uses, ReplaceOperand;
  }

  lemma UsersReplaced(code: Program, code': Program, d: Operand, n: Operand)
    requires PartlyReplaced(code, code', {}, d, n)
    ensures code'.Keys == code.Keys
    ensures forall b :: b in code ==> code'[b].phis == code[b].phis && AllReplaced(code[b].body, code'[b].body, d, n)
  {
    hide UsesReplaced;
  }

  // ----- the invariant of the walk -----

  function StackOf(ds: map<Operand, seq<Operand>>, v: Operand): seq<Operand> {
    if v in ds then ds[v] else []
  }

  /** The stacks of the promoted variables; a variable without an entry has an empty stack. */
  function Normal(prom: set<Operand>, ds: map<Operand, seq<Operand>>): (s: Stacks)
    ensures forall v :: v in prom ==> Stack(s, v) == StackOf(ds, v)
  {
    map v | v in prom :: StackOf(ds, v)
  }

  lemma NormalPush(prom: set<Operand>, ds: map<Operand, seq<Operand>>, v: Operand, o: Operand)
    requires v in prom
    ensures Normal(prom, ds[v := StackOf(ds, v) + [o]]) == Push(Normal(prom, ds), v, o)
  {
  }

  /** Everything that stays fixed during the walk; `q0` is the program with its phis still empty. */
  ghost predicate Context(g: Graph, idom: map<BlockId, BlockId>, num: map<BlockId, nat>,
                          domTree: map<BlockId, seq<BlockId>>,
                          p: Program, prom: set<Operand>, q0: Program) {
    && WellFormed(g) && AllReachable(g) && g.pred[g.entry] == {}
    && IdomsCorrect(g, idom) && IdomsDescend(g, idom, num) && DomTreeCorrect(g, idom, domTree)
    && SsaInput(g, p, prom)
    && PhisPlaced(g, p, prom, q0)
    && (forall b, i: nat :: At(p, b, i) && p[b].body[i].Alloca? ==> p[b].body[i].dst !in prom)
  }

  predicate SamePhiShape(phis: seq<Phi>, phis': seq<Phi>) {
    && |phis'| == |phis|
    && forall k :: 0 <= k < |phis| ==> phis'[k].variable == phis[k].variable && phis'[k].dst == phis[k].dst
  }

  ghost predicate Progress(p: Program, prom: set<Operand>, q0: Program, code: Program, sigma: map<Operand, Operand>,
                           pos: map<BlockId, nat>) {
    && code.Keys == p.Keys && pos.Keys == p.Keys && q0.Keys == p.Keys
    && (forall b :: b in p ==> SamePhiShape(q0[b].phis, code[b].phis))
    && (forall b :: b in p ==> pos[b] <= |p[b].body| && code[b].body == Mixed(prom, sigma, p[b].body, pos[b]))
  }

  ghost predicate BlockWalked(g: Graph, idom: map<BlockId, BlockId>, p: Program, prom: set<Operand>, q0: Program,
                              r: Record, done: set<BlockId>, x: BlockId) {
    && x in p && x in q0
    && BlockRecorded(p, prom, q0[x].phis, r, x)
    && (x == g.entry ==> forall v :: Stack(r.entry[x], v) == [])
    && (x != g.entry ==> x in idom && idom[x] in done && Recorded(p, r, idom[x]) && r.entry[x] == AtEnd(p, r, idom[x]))
  }

  ghost predicate Walked(g: Graph, idom: map<BlockId, BlockId>, p: Program, prom: set<Operand>, q0: Program, r: Record,
                         done: set<BlockId>) {
    forall x :: x in done ==> BlockWalked(g, idom, p, prom, q0, r, done, x)
  }

  /** The substitution covers exactly the loads walked over, and its values are not loads. */
  ghost predicate SigmaOk(p: Program, prom: set<Operand>, sigma: map<Operand, Operand>, pos: map<BlockId, nat>) {
    && (forall x: nat, k: nat ::
        At(p, x, k) && x in pos && k < pos[x] && PromotedLoad(prom, p[x].body[k])
        ==> p[x].body[k].dst in sigma)
    && (forall o :: o in sigma ==> exists x: nat, k: nat ::
        At(p, x, k) && x in pos && k < pos[x]
        && PromotedLoad(prom, p[x].body[k]) && p[x].body[k].dst == o)
    && (forall o :: o in sigma ==> !IsLoadResult(p, prom, sigma[o]))
  }

  ghost predicate StacksClean(p: Program, prom: set<Operand>, s: Stacks) {
    forall v :: v in s ==> forall k :: 0 <= k < |s[v]| ==> !IsLoadResult(p, prom, s[v][k])
  }

  ghost predicate FilledFrom(g: Graph, p: Program, code: Program, r: Record, a: BlockId) {
    forall b, k :: Edge(g, a, b) && b in code && 0 <= k < |code[b].phis| && Recorded(p, r, a) ==>
      && a in code[b].phis[k].srcs
      && var v := code[b].phis[k].variable;
         Replaces(Stack(AtEnd(p, r, a), v), v in r.floats, code[b].phis[k].srcs[a])
  }

  ghost predicate Filled(g: Graph, p: Program, code: Program, r: Record, done: set<BlockId>) {
    forall a :: a in done ==> FilledFrom(g, p, code, r, a)
  }

  /** Walked blocks are behind the walk, all others except `b` are untouched. */
  ghost predicate Positions(p: Program, pos: map<BlockId, nat>, done: set<BlockId>, b: set<BlockId>) {
    && pos.Keys == p.Keys
    && done <= p.Keys
    && (forall x :: x in p && x in done ==> pos[x] == |p[x].body|)
    && (forall x :: x in p && x !in done && x !in b ==> pos[x] == 0)
  }

  /** The invariant between the blocks. */
  ghost predicate WalkInv(g: Graph, idom: map<BlockId, BlockId>, p: Program, prom: set<Operand>, q0: Program,
                          code: Program, r: Record, pos: map<BlockId, nat>, done: set<BlockId>, b: set<BlockId>) {
    && Progress(p, prom, q0, code, r.sigma, pos)
    && Walked(g, idom, p, prom, q0, r, done)
    && SigmaOk(p, prom, r.sigma, pos)
    && Filled(g, p, code, r, done)
    && Positions(p, pos, done, b)
  }

  /** The walk may come to `b`: its strict dominators are done, nothing it dominates is. */
  ghost predicate MayWalk(g: Graph, p: Program, done: set<BlockId>, b: BlockId) {
    && b in p
    && (forall x :: StrictlyDominates(g, x, b) ==> x in done)
    && (forall x :: x in done ==> !Dominates(g, b, x))
  }

  /** The stacks the walk has when it comes to `b`. */
  ghost predicate StacksAtEntry(g: Graph, idom: map<BlockId, BlockId>, p: Program, r: Record, s: Stacks, b: BlockId) {
    if b == g.entry then forall v :: Stack(s, v) == []
    else b in idom && Recorded(p, r, idom[b]) && s == AtEnd(p, r, idom[b])
  }

  /** Block `b` recorded up to instruction `i`. */
  ghost predicate PartRecorded(p: Program, prom: set<Operand>, phis: seq<Phi>, r: Record, b: BlockId, i: nat) {
    && b in p && b in r.entry && b in r.at && |r.at[b]| == i + 1 && i <= |p[b].body|
    && r.at[b][0] == PushPhis(r.entry[b], phis)
    && (forall k: nat :: k < i ==> StepOk(prom, r.floats, r.sigma, r.at[b][k], r.at[b][k + 1], p[b].body[k]))
  }

  // ----- the stack of a defined variable is not empty -----

  lemma {:induction false} PushPhisGrows(s: Stacks, phis: seq<Phi>, v: Operand)
    ensures |Stack(PushPhis(s, phis), v)| >= |Stack(s, v)|
    ensures forall k :: 0 <= k < |phis| && phis[k].variable == v ==> |Stack(PushPhis(s, phis), v)| > 0
  {
    if phis != [] {
      PushPhisGrows(s, phis[..|phis| - 1], v);
    }
  }

  /** From the start of a block on, the stacks only grow. */
  lemma {:induction false} PartGrows(p: Program, prom: set<Operand>, phis: seq<Phi>, r: Record, b: BlockId, n: nat,
                                     k: nat, i: nat, v: Operand)
    requires PartRecorded(p, prom, phis, r, b, n) && k <= i <= n
    ensures |Stack(r.at[b][i], v)| >= |Stack(r.at[b][k], v)|
  {
    if k < i {
      PartGrows(p, prom, phis, r, b, n, k, i - 1, v);
      assert StepOk(prom, r.floats, r.sigma, r.at[b][i - 1], r.at[b][i - 1 + 1], p[b].body[i - 1]);
    }
  }

  lemma StoreGrows(p: Program, prom: set<Operand>, phis: seq<Phi>, r: Record, b: BlockId, n: nat, k: nat, i: nat,
                   v: Operand)
    requires PartRecorded(p, prom, phis, r, b, n) && k < i <= n && p[b].body[k].Store? && p[b].body[k].ptr == v
        && v in prom
    ensures |Stack(r.at[b][i], v)| > 0
  {
    assert StepOk(prom, r.floats, r.sigma, r.at[b][k], r.at[b][k + 1], p[b].body[k]);
    PartGrows(p, prom, phis, r, b, n, k + 1, i, v);
  }

  lemma PhiGrows(p: Program, prom: set<Operand>, q0: Program, r: Record, b: BlockId, n: nat, i: nat, v: Operand)
    requires b in q0 && PartRecorded(p, prom, q0[b].phis, r, b, n) && i <= n && PhiFor(q0, b, v)
    ensures |Stack(r.at[b][i], v)| > 0
  {
    PushPhisGrows(r.entry[b], q0[b].phis, v);
    PartGrows(p, prom, q0[b].phis, r, b, n, 0, i, v);
  }

  lemma EntryGrows(p: Program, prom: set<Operand>, q0: Program, r: Record, b: BlockId, n: nat, i: nat, v: Operand)
    requires b in q0 && PartRecorded(p, prom, q0[b].phis, r, b, n) && i <= n && |Stack(r.entry[b], v)| > 0
    ensures |Stack(r.at[b][i], v)| > 0
  {
    PushPhisGrows(r.entry[b], q0[b].phis, v);
    PartGrows(p, prom, q0[b].phis, r, b, n, 0, i, v);
  }

  lemma WholeIsPart(p: Program, prom: set<Operand>, phis: seq<Phi>, r: Record, b: BlockId)
    ensures BlockRecorded(p, prom, phis, r, b) <==> b in p && PartRecorded(p, prom, phis, r, b, |p[b].body|)
  {
    if b in p && PartRecorded(p, prom, phis, r, b, |p[b].body|) {
      forall i: nat | i < |p[b].body|
        ensures StepRecorded(p, prom, r, b, i)
      {
        assert StepOk(prom, r.floats, r.sigma, r.at[b][i], r.at[b][i + 1], p[b].body[i]);
      }
    }
    if BlockRecorded(p, prom, phis, r, b) {
      forall i: nat | i < |p[b].body|
        ensures StepOk(prom, r.floats, r.sigma, r.at[b][i], r.at[b][i + 1], p[b].body[i])
      {
        assert StepRecorded(p, prom, r, b, i);
      }
    }
  }

  lemma WalkedFacts(g: Graph, idom: map<BlockId, BlockId>, num: map<BlockId, nat>, domTree: map<BlockId, seq<BlockId>>,
                    p: Program, prom: set<Operand>, q0: Program, r: Record, done: set<BlockId>, y: BlockId)
    requires Context(g, idom, num, domTree, p, prom, q0) && Walked(g, idom, p, prom, q0, r, done) && y in done
    ensures y in p && y in q0 && y in num && PartRecorded(p, prom, q0[y].phis, r, y, |p[y].body|) && Recorded(p, r, y)
    ensures y != g.entry ==>
        y in idom && idom[y] in done && idom[y] in num && num[idom[y]] < num[y]
        && Recorded(p, r, idom[y]) &&
                             r.entry[y] == AtEnd(p, r, idom[y])
  {
    hide PhisPlaced, LoadsInReach, UniqueDefinitions, DefinedBeforeUse, AddressesNotLoaded, StepRecorded, WellFormed;
    assert BlockWalked(g, idom, p, prom, q0, r, done, y);
    WholeIsPart(p, prom, q0[y].phis, r, y);
  }

  lemma {:induction false} ReachNonempty(g: Graph, idom: map<BlockId, BlockId>, num: map<BlockId, nat>,
                                         domTree: map<BlockId, seq<BlockId>>,
                                         p: Program, prom: set<Operand>, q0: Program, r: Record, done: set<BlockId>,
                                             x: BlockId, y: BlockId, v: Operand)
    requires Context(g, idom, num, domTree, p, prom, q0) && Walked(g, idom, p, prom, q0, r, done)
    requires y in done && Dominates(g, x, y) && HasDefinition(p, q0, x, v) && v in prom
    ensures Recorded(p, r, y) && |Stack(AtEnd(p, r, y), v)| > 0
    decreases if y in num then num[y] else 0
  {
    hide Context, Walked, Dominates, PartRecorded;
    WalkedFacts(g, idom, num, domTree, p, prom, q0, r, done, y);
    var n := |p[y].body|;
    if x == y {
      if PhiFor(q0, y, v) {
        PhiGrows(p, prom, q0, r, y, n, n, v);
      } else {
        var k: nat :| At(p, y, k) && p[y].body[k].Store? && p[y].body[k].ptr == v;
        StoreGrows(p, prom, q0[y].phis, r, y, n, k, n, v);
      }
    } else {
      DominatorsClimb(g, idom, num, domTree, p, prom, q0, x, y);
      ReachNonempty(g, idom, num, domTree, p, prom, q0, r, done, x, idom[y], v);
      EntryGrows(p, prom, q0, r, y, n, n, v);
    }
  }

  lemma DominatorsClimb(g: Graph, idom: map<BlockId, BlockId>, num: map<BlockId, nat>,
                        domTree: map<BlockId, seq<BlockId>>,
                        p: Program, prom: set<Operand>, q0: Program, x: BlockId, y: BlockId)
    requires Context(g, idom, num, domTree, p, prom, q0) && y in p && StrictlyDominates(g, x, y)
    ensures y != g.entry && y in idom && Dominates(g, x, idom[y]) && StrictlyDominates(g, idom[y], y)
  {
    hide PhisPlaced, LoadsInReach, UniqueDefinitions, DefinedBeforeUse, AddressesNotLoaded, DomTreeCorrect,
        IdomsDescend;
    if y == g.entry {
      OnlyEntryDominatesEntry(g, x);
    }
    assert IsImmediateDominator(g, idom[y], y);
  }

  /** At a load the walk finds something on the stack of its variable. */
  lemma LoadNonempty(g: Graph, idom: map<BlockId, BlockId>, num: map<BlockId, nat>, domTree: map<BlockId, seq<BlockId>>,
                     p: Program, prom: set<Operand>, q0: Program, r: Record, done: set<BlockId>, b: BlockId, i: nat)
    requires Context(g, idom, num, domTree, p, prom, q0) && Walked(g, idom, p, prom, q0, r, done)
        && MayWalk(g, p, done, b)
    requires b in q0 && PartRecorded(p, prom, q0[b].phis, r, b, i) && StacksAtEntry(g, idom, p, r, r.entry[b], b)
    requires At(p, b, i) && PromotedLoad(prom, p[b].body[i]) && LoadsInReach(g, p, prom, q0)
    ensures |Stack(r.at[b][i], p[b].body[i].ptr)| > 0
  {
    hide Walked, Dominates, PartRecorded, HasDefinition, PhiFor, PhisPlaced, SsaInput, WellFormed, AllReachable,
        IdomsCorrect, IdomsDescend, DomTreeCorrect;
    var v := p[b].body[i].ptr;
    assert StartInReach(g, p, q0, b, v) || StoreBefore(p, b, i, v);
    if StoreBefore(p, b, i, v) {
      var k: nat :| k < i && p[b].body[k].Store? && p[b].body[k].ptr == v;
      StoreGrows(p, prom, q0[b].phis, r, b, i, k, i, v);
    } else if PhiFor(q0, b, v) {
      PhiGrows(p, prom, q0, r, b, i, i, v);
    } else {
      var x :| StrictlyDominates(g, x, b) && HasDefinition(p, q0, x, v);
      DominatorsClimb(g, idom, num, domTree, p, prom, q0, x, b);
      ReachNonempty(g, idom, num, domTree, p, prom, q0, r, done, x, idom[b], v);
      EntryGrows(p, prom, q0, r, b, i, i, v) by {
        assert PartRecorded(p, prom, q0[b].phis, r, b, i);
      }
    }
  }

  // ----- the steps of the walk -----

  /** Recording something at `b` leaves the record of the blocks that are done alone. */
  lemma WalkedKept(g: Graph, idom: map<BlockId, BlockId>, p: Program, prom: set<Operand>, q0: Program, r: Record,
                   r': Record, done: set<BlockId>, b: BlockId)
    requires Walked(g, idom, p, prom, q0, r, done) && b !in done && r'.sigma == r.sigma && r'.floats == r.floats
    requires forall x :: x != b && x in r.entry ==> x in r'.entry && r'.entry[x] == r.entry[x]
    requires forall x :: x != b && x in r.at ==> x in r'.at && r'.at[x] == r.at[x]
    ensures Walked(g, idom, p, prom, q0, r', done)
  {
    forall x | x in done
      ensures BlockWalked(g, idom, p, prom, q0, r', done, x)
    {
      assert BlockWalked(g, idom, p, prom, q0, r, done, x);
      forall i: nat | i < |p[x].body|
        ensures StepRecorded(p, prom, r', x, i)
      {
        assert StepRecorded(p, prom, r, x, i);
      }
    }
  }

  lemma StepOkStable(prom: set<Operand>, floats: set<Operand>, sigma: map<Operand, Operand>, d: Operand, n: Operand,
                     before: Stacks, after: Stacks, ins: Instr)
    requires StepOk(prom, floats, sigma, before, after, ins) && d !in sigma
    requires PromotedStore(prom, ins) ==> ins.value != d
    ensures StepOk(prom, floats, sigma[d := n], before, after, ins)
  {
  }

  /** A new entry of the substitution does not disturb what is recorded: its load comes after. */
  lemma InputOfContext(g: Graph, idom: map<BlockId, BlockId>, num: map<BlockId, nat>,
                       domTree: map<BlockId, seq<BlockId>>, p: Program, prom: set<Operand>, q0: Program)
    requires Context(g, idom, num, domTree, p, prom, q0)
    ensures SsaInput(g, p, prom)
  {
  }

  lemma BlockWalkedResolved(g: Graph, idom: map<BlockId, BlockId>, p: Program, prom: set<Operand>, q0: Program,
                            r: Record, done: set<BlockId>, b: BlockId, i: nat, n: Operand, x: BlockId)
    requires SsaInput(g, p, prom) && MayWalk(g, p, done, b) && b !in done && x in done
        && BlockWalked(g, idom, p, prom, q0, r, done, x)
    requires At(p, b, i) && PromotedLoad(prom, p[b].body[i]) && p[b].body[i].dst !in r.sigma
    ensures BlockWalked(g, idom, p, prom, q0, r.(sigma := r.sigma[p[b].body[i].dst := n]), done, x)
  {
    hide StepOk, SsaInput, MayWalk;
    var d := p[b].body[i].dst;
    var r' := r.(sigma := r.sigma[d := n]);
    forall k: nat | k < |p[x].body|
      ensures StepRecorded(p, prom, r', x, k)
    {
      assert StepRecorded(p, prom, r, x, k);
      NotUsedBefore(g, p, prom, done, b, i, x, k);
      StepOkStable(prom, r.floats, r.sigma, d, n, r.at[x][k], r.at[x][k + 1], p[x].body[k]);
    }
  }

  lemma WalkedResolved(g: Graph, idom: map<BlockId, BlockId>, num: map<BlockId, nat>,
                       domTree: map<BlockId, seq<BlockId>>,
                       p: Program, prom: set<Operand>, q0: Program, r: Record, done: set<BlockId>, b: BlockId, i: nat,
                           n: Operand)
    requires Context(g, idom, num, domTree, p, prom, q0) && Walked(g, idom, p, prom, q0, r, done)
        && MayWalk(g, p, done, b) && b !in done
    requires At(p, b, i) && PromotedLoad(prom, p[b].body[i]) && p[b].body[i].dst !in r.sigma
    ensures Walked(g, idom, p, prom, q0, r.(sigma := r.sigma[p[b].body[i].dst := n]), done)
  {
    hide StepOk, PhisPlaced, LoadsInReach, IdomsCorrect, IdomsDescend, DomTreeCorrect, Dominates, AddressesNotLoaded,
        UniqueDefinitions;
    InputOfContext(g, idom, num, domTree, p, prom, q0);
    hide *;
    WalkedMeans(g, idom, p, prom, q0, r, done);
    var r' := r.(sigma := r.sigma[p[b].body[i].dst := n]);
    forall x | x in done
      ensures BlockWalked(g, idom, p, prom, q0, r', done, x)
    {
      BlockWalkedResolved(g, idom, p, prom, q0, r, done, b, i, n, x);
    }
    WalkedHolds(g, idom, p, prom, q0, r', done);
  }

  lemma WalkedMeans(g: Graph, idom: map<BlockId, BlockId>, p: Program, prom: set<Operand>, q0: Program, r: Record,
                    done: set<BlockId>)
    requires Walked(g, idom, p, prom, q0, r, done)
    ensures forall x :: x in done ==> BlockWalked(g, idom, p, prom, q0, r, done, x)
  {
  }

  lemma WalkedHolds(g: Graph, idom: map<BlockId, BlockId>, p: Program, prom: set<Operand>, q0: Program, r: Record,
                    done: set<BlockId>)
    requires forall x :: x in done ==> BlockWalked(g, idom, p, prom, q0, r, done, x)
    ensures Walked(g, idom, p, prom, q0, r, done)
  {
  }

  lemma NotUsedBefore(g: Graph, p: Program, prom: set<Operand>, done: set<BlockId>, b: BlockId, i: nat, x: BlockId,
                      k: nat)
    requires SsaInput(g, p, prom) && MayWalk(g, p, done, b) && At(p, b, i) && PromotedLoad(prom, p[b].body[i])
        && At(p, x, k)
    requires (x in done && x != b) || (x == b && k <= i)
    ensures !Uses(p[x].body[k], p[b].body[i].dst)
  {
    assert Defines(p[b].body[i], p[b].body[i].dst);
  }

  lemma PartResolved(g: Graph, p: Program, prom: set<Operand>, phis: seq<Phi>, r: Record, done: set<BlockId>,
                     b: BlockId, i: nat, n: Operand)
    requires SsaInput(g, p, prom) && MayWalk(g, p, done, b) && At(p, b, i) && PromotedLoad(prom, p[b].body[i])
    requires PartRecorded(p, prom, phis, r, b, i) && p[b].body[i].dst !in r.sigma
    ensures PartRecorded(p, prom, phis, r.(sigma := r.sigma[p[b].body[i].dst := n]), b, i)
  {
    hide StepOk, SsaInput, MayWalk;
    forall k: nat | k < i
      ensures StepOk(prom, r.floats, r.sigma[p[b].body[i].dst := n], r.at[b][k], r.at[b][k + 1], p[b].body[k])
    {
      NotUsedBefore(g, p, prom, done, b, i, b, k);
      StepOkStable(prom, r.floats, r.sigma, p[b].body[i].dst, n, r.at[b][k], r.at[b][k + 1], p[b].body[k]);
    }
  }

  lemma PartExtended(p: Program, prom: set<Operand>, phis: seq<Phi>, r: Record, b: BlockId, i: nat, s: Stacks)
    requires PartRecorded(p, prom, phis, r, b, i) && At(p, b, i) && StepOk(prom, r.floats, r.sigma, r.at[b][i], s,
        p[b].body[i])
    ensures PartRecorded(p, prom, phis, r.(at := r.at[b := r.at[b] + [s]]), b, i + 1)
  {
    hide StepOk;
  }

  lemma FilledKept(g: Graph, p: Program, code: Program, code': Program, r: Record, r': Record, done: set<BlockId>,
                   b: BlockId)
    requires Filled(g, p, code, r, done) && b !in done && code'.Keys == code.Keys
    requires forall x :: x in code ==> code'[x].phis == code[x].phis
    requires forall x :: x != b ==> (x in r.entry <==> x in r'.entry) && (x in r.at <==> x in r'.at)
    requires (forall x :: x != b && x in r.at ==> r'.at[x] == r.at[x]) && r'.floats == r.floats
    ensures Filled(g, p, code', r', done)
  {
    forall a | a in done
      ensures FilledFrom(g, p, code', r', a)
    {
      assert FilledFrom(g, p, code, r, a);
    }
  }

  /** The walk passes an instruction that is not a promoted load. */
  lemma WalkPasses(g: Graph, idom: map<BlockId, BlockId>, p: Program, prom: set<Operand>, q0: Program,
                   code: Program, code': Program, r: Record, r': Record, pos: map<BlockId, nat>, done: set<BlockId>,
                       b: BlockId, i: nat, s: Stacks)
    requires WalkInv(g, idom, p, prom, q0, code, r, pos, done, {b}) && b !in done && At(p, b, i) && b in pos
        && pos[b] == i
    requires b in q0 && PartRecorded(p, prom, q0[b].phis, r, b, i) && !PromotedLoad(prom, p[b].body[i])
    requires s == StepStacks(prom, r.sigma, r.at[b][i], p[b].body[i]) && r' == r.(at := r.at[b := r.at[b] + [s]])
    requires b in code && code'.Keys == code.Keys && (forall x :: x in code && x != b ==> code'[x] == code[x])
    requires code'[b].phis == code[b].phis && code'[b].body == Mixed(prom, r.sigma, p[b].body, i + 1)
    ensures WalkInv(g, idom, p, prom, q0, code', r', pos[b := i + 1], done, {b})
    ensures PartRecorded(p, prom, q0[b].phis, r', b, i + 1) && r'.at[b][i + 1] == s && r'.entry == r.entry
        && r'.sigma == r.sigma
  {
    hide *;
    AtFacts(p, b, i);
    PartShape(p, prom, q0[b].phis, r, b, i);
    StepsOver(prom, r.floats, r.sigma, r.at[b][i], s, p[b].body[i]);
    PartExtended(p, prom, q0[b].phis, r, b, i, s);
    PartShape(p, prom, q0[b].phis, r', b, i + 1);
    WalkPassesInv(g, idom, p, prom, q0, code, code', r, r', pos, done, b, i, s);
  }

  lemma WalkPassesInv(g: Graph, idom: map<BlockId, BlockId>, p: Program, prom: set<Operand>, q0: Program,
                      code: Program, code': Program, r: Record, r': Record, pos: map<BlockId, nat>, done: set<BlockId>,
                      b: BlockId, i: nat, s: Stacks)
    requires WalkInv(g, idom, p, prom, q0, code, r, pos, done, {b}) && b !in done && At(p, b, i) && b in pos
        && pos[b] == i && !PromotedLoad(prom, p[b].body[i]) && b in r.at && b in r.entry
    requires r' == r.(at := r.at[b := r.at[b] + [s]])
    requires b in code && code'.Keys == code.Keys && (forall x :: x in code && x != b ==> code'[x] == code[x])
    requires code'[b].phis == code[b].phis && code'[b].body == Mixed(prom, r.sigma, p[b].body, i + 1)
    ensures WalkInv(g, idom, p, prom, q0, code', r', pos[b := i + 1], done, {b})
  {
    hide Progress, Mixed, Walked, SigmaOk, Filled, PromotedLoad;
    assert code' == code[b := code'[b]];
    WalkedKept(g, idom, p, prom, q0, r, r', done, b);
    FilledKept(g, p, code, code', r, r', done, b);
    SigmaPasses(p, prom, r.sigma, pos, b, i);
    ProgressStep(p, prom, q0, code, code', r.sigma, pos, b, i);
  }

  lemma StepsOver(prom: set<Operand>, floats: set<Operand>, sigma: map<Operand, Operand>, before: Stacks, after: Stacks,
                  ins: Instr)
    requires !PromotedLoad(prom, ins) && after == StepStacks(prom, sigma, before, ins)
    ensures StepOk(prom, floats, sigma, before, after, ins)
  {
  }

  lemma PartShape(p: Program, prom: set<Operand>, phis: seq<Phi>, r: Record, b: BlockId, i: nat)
    requires PartRecorded(p, prom, phis, r, b, i)
    ensures b in r.at && |r.at[b]| == i + 1 && b in r.entry
  {
    hide StepOk;
  }

  lemma SigmaPasses(p: Program, prom: set<Operand>, sigma: map<Operand, Operand>, pos: map<BlockId, nat>, b: BlockId,
                    i: nat)
    requires SigmaOk(p, prom, sigma, pos) && At(p, b, i) && b in pos && pos[b] == i && !PromotedLoad(prom, p[b].body[i])
    ensures SigmaOk(p, prom, sigma, pos[b := i + 1])
  {
    forall o | o in sigma
      ensures exists x: nat, k: nat ::
          At(p, x, k) && x in pos[b := i + 1] && k < pos[b := i + 1][x]
          && PromotedLoad(prom, p[x].body[k]) && p[x].body[k].dst == o
    {
      var x: nat, k: nat :| At(p, x, k) && x in pos && k < pos[x] && PromotedLoad(prom, p[x].body[k])
          && p[x].body[k].dst == o;
      assert k < pos[b := i + 1][x];
    }
  }

  lemma SigmaResolves(g: Graph, p: Program, prom: set<Operand>, sigma: map<Operand, Operand>, pos: map<BlockId, nat>,
                      b: BlockId, i: nat, n: Operand)
    requires SsaInput(g, p, prom) && SigmaOk(p, prom, sigma, pos) && At(p, b, i) && b in pos && pos[b] == i
    requires PromotedLoad(prom, p[b].body[i]) && !IsLoadResult(p, prom, n)
    ensures p[b].body[i].dst !in sigma && (forall o :: o in sigma ==> sigma[o] != p[b].body[i].dst)
    ensures SigmaOk(p, prom, sigma[p[b].body[i].dst := n], pos[b := i + 1])
  {
    hide DefinedBeforeUse, AddressesNotLoaded;
    var d := p[b].body[i].dst;
    assert Defines(p[b].body[i], d);
    assert IsLoadResult(p, prom, d);
    var sigma', pos' := sigma[d := n], pos[b := i + 1];
    forall o | o in sigma'
      ensures exists x: nat, k: nat ::
          At(p, x, k) && x in pos' && k < pos'[x] && PromotedLoad(prom, p[x].body[k])
          && p[x].body[k].dst == o
    {
      if o == d {
        assert At(p, b, i) && i < pos'[b];
      } else {
        var x: nat, k: nat :| At(p, x, k) && x in pos && k < pos[x] && PromotedLoad(prom, p[x].body[k])
            && p[x].body[k].dst == o;
        assert k < pos'[x];
      }
    }
  }

  /** Replacing the result of a load in all users brings the code to the extended substitution. */
  lemma ProgressReplaced(g: Graph, p: Program, prom: set<Operand>, q0: Program, code: Program, code': Program,
                         sigma: map<Operand, Operand>, pos: map<BlockId, nat>,
                         b: BlockId, i: nat, n: Operand)
    requires SsaInput(g, p, prom) && WellFormed(g) && AllReachable(g) && Progress(p, prom, q0, code, sigma, pos)
        && At(p, b, i) && PromotedLoad(prom, p[b].body[i])
    requires p[b].body[i].dst !in sigma && (forall o :: o in sigma ==> sigma[o] != p[b].body[i].dst)
    requires code'.Keys == code.Keys
    requires forall x :: x in code ==> code'[x].phis == code[x].phis && AllReplaced(code[x].body, code'[x].body,
        p[b].body[i].dst, n)
    ensures Progress(p, prom, q0, code', sigma[p[b].body[i].dst := n], pos)
  {
    hide Mixed, AllReplaced;
    forall x | x in p
      ensures code'[x].body == Mixed(prom, sigma[p[b].body[i].dst := n], p[x].body, pos[x])
    {
      OperandOnlyUsed(g, p, prom, b, i, x);
      MixedReplaced(prom, sigma, p[x].body, pos[x], code'[x].body, p[b].body[i].dst, n);
    }
  }

  lemma OperandOnlyUsed(g: Graph, p: Program, prom: set<Operand>, b: BlockId, i: nat, x: BlockId)
    requires SsaInput(g, p, prom) && At(p, b, i) && PromotedLoad(prom, p[b].body[i]) && x in p
    ensures forall ins :: ins in p[x].body ==>
              (Uses(ins, p[b].body[i].dst) ==> !Defines(ins, p[b].body[i].dst))
                  && (ins.Load? || ins.Store? ==> ins.ptr != p[b].body[i].dst)
  {
    var d := p[b].body[i].dst;
    assert IsLoadResult(p, prom, d);
    forall ins | ins in p[x].body
      ensures (Uses(ins, d) ==> !Defines(ins, d)) && (ins.Load? || ins.Store? ==> ins.ptr != d)
    {
      var k: nat :| k < |p[x].body| && p[x].body[k] == ins;
      assert At(p, x, k);
      assert Uses(ins, d) && Defines(ins, d) ==> Before(g, x, k, x, k);
    }
  }

  /** The walk passes a promoted load of `b`: its result is replaced by `n`, the top of the stack. */
  lemma WalkResolves(g: Graph, idom: map<BlockId, BlockId>, num: map<BlockId, nat>, domTree: map<BlockId, seq<BlockId>>,
                     p: Program, prom: set<Operand>, q0: Program,
                     code: Program, code': Program, r: Record, r': Record, pos: map<BlockId, nat>, done: set<BlockId>,
                         b: BlockId, i: nat, n: Operand)
    requires Context(g, idom, num, domTree, p, prom, q0) && WalkInv(g, idom, p, prom, q0, code, r, pos, done, {b})
    requires MayWalk(g, p, done, b) && b !in done && At(p, b, i) && b in pos && pos[b] == i
    requires b in q0 && PartRecorded(p, prom, q0[b].phis, r, b, i) && PromotedLoad(prom, p[b].body[i])
    requires Replaces(Stack(r.at[b][i], p[b].body[i].ptr), p[b].body[i].ptr in r.floats, n)
        && !IsLoadResult(p, prom, n)
    requires r' == r.(at := r.at[b := r.at[b] + [r.at[b][i]]], sigma := r.sigma[p[b].body[i].dst := n])
    requires Progress(p, prom, q0, code', r.sigma[p[b].body[i].dst := n], pos[b := i + 1])
    requires code'.Keys == code.Keys && forall x :: x in code ==> code'[x].phis == code[x].phis
    ensures WalkInv(g, idom, p, prom, q0, code', r', pos[b := i + 1], done, {b})
    ensures PartRecorded(p, prom, q0[b].phis, r', b, i + 1) && r'.at[b][i + 1] == r.at[b][i] && r'.entry == r.entry
  {
    hide Mixed, Walked, FilledFrom, Progress, PhisPlaced, LoadsInReach, IdomsCorrect, IdomsDescend, DomTreeCorrect,
        MayWalk;
    SigmaResolves(g, p, prom, r.sigma, pos, b, i, n);
    WalkedResolved(g, idom, num, domTree, p, prom, q0, r, done, b, i, n);
    var r1 := r.(sigma := r.sigma[p[b].body[i].dst := n]);
    PartResolved(g, p, prom, q0[b].phis, r, done, b, i, n);
    PartExtended(p, prom, q0[b].phis, r1, b, i, r.at[b][i]);
    WalkedKept(g, idom, p, prom, q0, r1, r', done, b);
    FilledKept(g, p, code, code', r, r', done, b);
  }

  /** The walk comes to `b`. */
  lemma WalkArrives(g: Graph, idom: map<BlockId, BlockId>, p: Program, prom: set<Operand>, q0: Program,
                    code: Program, r: Record, r': Record, pos: map<BlockId, nat>, done: set<BlockId>, b: BlockId,
                        s: Stacks)
    requires WalkInv(g, idom, p, prom, q0, code, r, pos, done, {}) && b !in done && b in p && b in q0
    requires StacksAtEntry(g, idom, p, r, s, b) && (b != g.entry ==> b in idom && idom[b] != b)
    requires r' == r.(entry := r.entry[b := s], at := r.at[b := [PushPhis(s, q0[b].phis)]])
    ensures WalkInv(g, idom, p, prom, q0, code, r', pos, done, {b})
    ensures PartRecorded(p, prom, q0[b].phis, r', b, 0) && b in r'.entry
        && StacksAtEntry(g, idom, p, r', r'.entry[b], b)
    ensures b in pos && pos[b] == 0
  {
    hide Mixed, Walked, FilledFrom, Progress;
    WalkedKept(g, idom, p, prom, q0, r, r', done, b);
    forall a | a in done
      ensures FilledFrom(g, p, code, r', a)
    {
      assert BlockWalked(g, idom, p, prom, q0, r, done, a) by { assert Walked(g, idom, p, prom, q0, r,
          done); WalkedOne(g, idom, p, prom, q0, r, done, a); }
      assert FilledFrom(g, p, code, r, a);
      FilledFromKept(g, p, code, r, r', a);
    }
  }

  lemma WalkedOne(g: Graph, idom: map<BlockId, BlockId>, p: Program, prom: set<Operand>, q0: Program, r: Record,
                  done: set<BlockId>, x: BlockId)
    requires Walked(g, idom, p, prom, q0, r, done) && x in done
    ensures BlockWalked(g, idom, p, prom, q0, r, done, x)
  {
  }

  lemma FilledFromKept(g: Graph, p: Program, code: Program, r: Record, r': Record, a: BlockId)
    requires FilledFrom(g, p, code, r, a) && Recorded(p, r, a) && a in r'.at && r'.at[a] == r.at[a]
        && r'.floats == r.floats
    ensures FilledFrom(g, p, code, r', a)
  {
  }

  // ----- subtrees of the dominator tree -----

  /** A child of `b` may be walked once `b` and the subtrees of some of its siblings are done. */
  lemma ChildMayWalk(g: Graph, idom: map<BlockId, BlockId>, p: Program, before: set<BlockId>, done: set<BlockId>,
                     b: BlockId, kids: seq<BlockId>, j: nat)
    requires WellFormed(g) && AllReachable(g) && IdomsCorrect(g, idom) && p.Keys == g.succ.Keys
    requires MayWalk(g, p, before, b) && j < |kids|
    requires forall k :: 0 <= k < |kids| ==> kids[k] in idom && kids[k] != g.entry && idom[kids[k]] == b
    requires forall k, l :: 0 <= k < l < |kids| ==> kids[k] != kids[l]
    requires forall x :: x in done <==> x in before || x == b || (x in p && exists k ::
        0 <= k < j
        && Dominates(g, kids[k], x))
    ensures MayWalk(g, p, done, kids[j]) && kids[j] !in done && idom[kids[j]] == b && b in done
  {
    hide Dominates;
    var c := kids[j];
    assert IsImmediateDominator(g, b, c);
    forall x | StrictlyDominates(g, x, c)
      ensures x in done
    {
      assert Dominates(g, x, b);
      assert x == b || StrictlyDominates(g, x, b);
    }
    forall x | x in done
      ensures !Dominates(g, c, x)
    {
      if Dominates(g, c, x) {
        if x in before {
          DominatesTransitive(g, b, c, x);
        } else if x == b {
          DominatesAntisymmetric(g, b, c);
        } else {
          var k :| 0 <= k < j && Dominates(g, kids[k], x);
          SiblingsApart(g, idom, b, kids[k], c, x);
        }
      }
    }
    DominatesReflexive(g, c);
  }

  lemma SiblingsApart(g: Graph, idom: map<BlockId, BlockId>, b: BlockId, c: BlockId, d: BlockId, x: BlockId)
    requires WellFormed(g) && AllReachable(g) && IdomsCorrect(g, idom) && x in g.succ
    requires c in idom && d in idom && c != g.entry && d != g.entry && idom[c] == b && idom[d] == b && c != d
    ensures !Dominates(g, c, x) || !Dominates(g, d, x)
  {
    if Dominates(g, c, x) && Dominates(g, d, x) {
      assert IsImmediateDominator(g, b, c) && IsImmediateDominator(g, b, d);
      DominatorsChain(g, c, d, x);
      if Dominates(g, c, d) {
        assert StrictlyDominates(g, c, d);
        DominatesAntisymmetric(g, b, c);
      } else {
        assert StrictlyDominates(g, d, c);
        DominatesAntisymmetric(g, b, d);
      }
    }
  }

  /** A block strictly dominated by `b` lies below one of its children. */
  lemma {:induction false} BelowSomeChild(g: Graph, idom: map<BlockId, BlockId>, num: map<BlockId, nat>, b: BlockId,
                                          x: BlockId) returns (c: BlockId)
    requires WellFormed(g) && AllReachable(g) && IdomsCorrect(g, idom) && IdomsDescend(g, idom, num)
    requires x in idom && StrictlyDominates(g, b, x)
    ensures c in idom && c != g.entry && idom[c] == b && Dominates(g, c, x)
    decreases if x in num then num[x] else 0
  {
    hide Dominates;
    if x == g.entry {
      OnlyEntryDominatesEntry(g, b);
    }
    assert IsImmediateDominator(g, idom[x], x);
    if idom[x] == b {
      c := x;
      DominatesReflexive(g, x);
    } else {
      c := BelowSomeChild(g, idom, num, b, idom[x]);
      DominatesTransitive(g, c, idom[x], x);
    }
  }

  /** When all children are walked, the whole subtree is. */
  lemma SubtreeWalked(g: Graph, idom: map<BlockId, BlockId>, num: map<BlockId, nat>,
                      domTree: map<BlockId, seq<BlockId>>, p: Program,
                      before: set<BlockId>, done: set<BlockId>, b: BlockId, kids: seq<BlockId>)
    requires WellFormed(g) && AllReachable(g) && IdomsCorrect(g, idom) && IdomsDescend(g, idom, num)
        && DomTreeCorrect(g, idom, domTree) && p.Keys == g.succ.Keys
    requires b in p && kids == if b in domTree then domTree[b] else []
    requires forall x :: x in done <==> x in before || x == b || (x in p && exists k ::
        0 <= k < |kids|
        && Dominates(g, kids[k], x))
    ensures forall x :: x in done <==> x in before || (x in p && Dominates(g, b, x))
  {
    hide Dominates;
    DominatesReflexive(g, b);
    forall x | x in p
      ensures (x == b || exists k :: 0 <= k < |kids| && Dominates(g, kids[k], x)) <==> Dominates(g, b, x)
    {
      if Dominates(g, b, x) && x != b {
        var c := BelowSomeChild(g, idom, num, b, x);
      }
      if k :| 0 <= k < |kids| && Dominates(g, kids[k], x) {
        assert IsImmediateDominator(g, b, kids[k]);
        DominatesTransitive(g, b, kids[k], x);
      }
    }
  }

  /** Recording at `b` leaves the record of the other blocks as it was. */
  ghost predicate RecordSame(r: Record, r': Record, b: BlockId) {
    && r'.floats == r.floats
    && forall x :: x != b && x in r.at ==> x in r'.at && r'.at[x] == r.at[x]
  }

  /** What is recorded for the blocks in `done` stays. */
  ghost predicate RecordKept(r: Record, r': Record, done: set<BlockId>) {
    && r'.floats == r.floats
    && forall x :: x in done && x in r.at ==> x in r'.at && r'.at[x] == r.at[x]
  }

  lemma RecordKeptFloats(r: Record, r': Record, done: set<BlockId>)
    requires RecordKept(r, r', done)
    ensures r'.floats == r.floats
  {
  }

  lemma RecordItself(r: Record, b: BlockId)
    ensures RecordSame(r, r, b)
  {
  }

  lemma LoadedPromoted(prom: set<Operand>, ins: Instr)
    requires PromotedLoad(prom, ins)
    ensures ins.Load? && ins.ptr in prom
  {
  }

  lemma RecordSameFloats(r: Record, r': Record, b: BlockId)
    requires RecordSame(r, r', b)
    ensures r'.floats == r.floats
  {
  }

  lemma RecordSameTransitive(r: Record, r1: Record, r2: Record, b: BlockId)
    requires RecordSame(r, r1, b) && RecordSame(r1, r2, b)
    ensures RecordSame(r, r2, b)
  {
  }

  lemma RecordKeptTransitive(r: Record, r1: Record, r2: Record, done: set<BlockId>, done1: set<BlockId>)
    requires RecordKept(r, r1, done) && RecordKept(r1, r2, done1) && done <= done1
    ensures RecordKept(r, r2, done)
  {
  }

  lemma RecordSameKept(r: Record, r': Record, b: BlockId, done: set<BlockId>)
    requires RecordSame(r, r', b) && b !in done
    ensures RecordKept(r, r', done) && RecordKept(r, r, done) && RecordSame(r, r, b)
  {
  }

  lemma RecordOf(p: Program, r: Record, r': Record, done: set<BlockId>, b: BlockId)
    requires Recorded(p, r, b) && RecordKept(r, r', done) && b in done && Recorded(p, r', b)
    ensures AtEnd(p, r', b) == AtEnd(p, r, b)
  {
  }

  lemma DoneRecorded(g: Graph, idom: map<BlockId, BlockId>, p: Program, prom: set<Operand>, q0: Program, code: Program,
                     r: Record, pos: map<BlockId, nat>, done: set<BlockId>, b: BlockId)
    requires WalkInv(g, idom, p, prom, q0, code, r, pos, done, {}) && b in done
    ensures Recorded(p, r, b)
  {
    hide Progress, SigmaOk, Filled, Positions;
    assert BlockWalked(g, idom, p, prom, q0, r, done, b);
  }

  // ----- the walk inside one block -----

  /** The state in the instruction loop of `rename` on block `b`, before original instruction `i`. */
  ghost predicate ScanInv(g: Graph, idom: map<BlockId, BlockId>, p: Program, prom: set<Operand>, q0: Program,
                          code: Program, r: Record, pos: map<BlockId, nat>, done: set<BlockId>, ds: map<Operand,
                              seq<Operand>>, b: BlockId, i: nat) {
    && WalkInv(g, idom, p, prom, q0, code, r, pos, done, {b})
    && b !in done && b in p && b in q0 && b in pos && pos[b] == i
    && PartRecorded(p, prom, q0[b].phis, r, b, i)
    && StacksAtEntry(g, idom, p, r, r.entry[b], b)
    && r.at[b][i] == Normal(prom, ds)
    && StacksClean(p, prom, Normal(prom, ds))
  }

  /** Where the loop stands in the list that is being edited. */
  function Cursor(p: Program, prom: set<Operand>, sigma: map<Operand, Operand>, b: BlockId, i: nat): nat
    requires b in p && i <= |p[b].body|
  {
    |Kept(prom, sigma, p[b].body[..i])|
  }

  lemma ScanFacts(g: Graph, idom: map<BlockId, BlockId>, p: Program, prom: set<Operand>, q0: Program,
                  code: Program, r: Record, pos: map<BlockId, nat>, done: set<BlockId>, ds: map<Operand, seq<Operand>>,
                      b: BlockId, i: nat)
    requires ScanInv(g, idom, p, prom, q0, code, r, pos, done, ds, b, i)
    ensures b in p && b in code && i <= |p[b].body| && |code[b].body| == Cursor(p, prom, r.sigma, b,
        i) + |p[b].body| - i
    ensures b in q0 && b in r.at && |r.at[b]| == i + 1 && r.at[b][i] == Normal(prom, ds)
    ensures i < |p[b].body| ==> code[b].body[Cursor(p, prom, r.sigma, b, i)] == Substituted(r.sigma, p[b].body[i])
    ensures code[b].body == Mixed(prom, r.sigma, p[b].body, i)
    ensures WalkInv(g, idom, p, prom, q0, code, r, pos, done, {b}) && b !in done && b in pos && pos[b] == i
    ensures PartRecorded(p, prom, q0[b].phis, r, b, i) && b in r.entry && StacksAtEntry(g, idom, p, r, r.entry[b], b)
    ensures StacksClean(p, prom, Normal(prom, ds))
  {
    hide Walked, SigmaOk, Filled, StacksClean, Kept, SubstAll, Substituted;
    if i < |p[b].body| {
      MixedAt(prom, r.sigma, p[b].body, i);
    }
  }

  lemma AtFacts(p: Program, b: BlockId, i: nat)
    ensures At(p, b, i) <==> b in p && i < |p[b].body|
  {
  }

  lemma ScanStepEqual(prom: set<Operand>, sigma: map<Operand, Operand>, ins: Instr)
    ensures PromotedLoad(prom, Substituted(sigma, ins)) == PromotedLoad(prom, ins)
    ensures PromotedStore(prom, Substituted(sigma, ins)) == PromotedStore(prom, ins)
    ensures ins.Load? ==> Substituted(sigma, ins) == ins
    ensures ins.Store? ==> Substituted(sigma, ins) == Store(Resolve(sigma, ins.value), ins.ptr)
    ensures Promoted(prom, ins) ==>
        PromotedLoad(prom, ins) || PromotedStore(prom, ins)
        || (ins.Alloca? && ins.dst in prom)
    ensures PromotedLoad(prom, ins) || PromotedStore(prom, ins) ==> Promoted(prom, ins)
    ensures PromotedLoad(prom, ins) ==> ins.Load? && ins.ptr in prom && !PromotedStore(prom, ins)
    ensures PromotedStore(prom, ins) ==> ins.Store? && ins.ptr in prom && !PromotedLoad(prom, ins)
  {
  }

  lemma CleanPush(p: Program, prom: set<Operand>, s: Stacks, v: Operand, o: Operand)
    requires StacksClean(p, prom, s) && !IsLoadResult(p, prom, o)
    ensures StacksClean(p, prom, Push(s, v, o))
  {
  }

  lemma CleanTop(p: Program, prom: set<Operand>, s: Stacks, v: Operand)
    requires StacksClean(p, prom, s) && |Stack(s, v)| > 0
    ensures !IsLoadResult(p, prom, Top(Stack(s, v)))
  {
  }

  /** What a store about to be removed pushes is not the result of a removed load. */
  lemma PushedIsClean(g: Graph, p: Program, prom: set<Operand>, sigma: map<Operand, Operand>, pos: map<BlockId, nat>,
                      done: set<BlockId>, b: BlockId, i: nat)
    requires SsaInput(g, p, prom) && SigmaOk(p, prom, sigma, pos) && Positions(p, pos, done, {b})
        && MayWalk(g, p, done, b)
    requires At(p, b, i) && pos[b] == i && PromotedStore(prom, p[b].body[i])
    ensures !IsLoadResult(p, prom, Resolve(sigma, p[b].body[i].value))
  {
    hide UniqueDefinitions, AddressesNotLoaded;
    var o := p[b].body[i].value;
    if IsLoadResult(p, prom, o) {
      var x, k := UseOfLoad(g, p, prom, o, b, i);
      assert x != b ==> x in done;
      assert o in sigma;
    }
  }

  /** Removing a promoted store. */
  lemma ScanStore(g: Graph, idom: map<BlockId, BlockId>, num: map<BlockId, nat>, domTree: map<BlockId, seq<BlockId>>,
                  p: Program, prom: set<Operand>, q0: Program,
                  code: Program, code': Program, r: Record, pos: map<BlockId, nat>, done: set<BlockId>,
                  ds: map<Operand, seq<Operand>>, ds': map<Operand, seq<Operand>>, b: BlockId,
                      i: nat) returns (r': Record)
    requires Context(g, idom, num, domTree, p, prom, q0) && MayWalk(g, p, done, b)
    requires ScanInv(g, idom, p, prom, q0, code, r, pos, done, ds, b, i) && At(p, b, i)
        && PromotedStore(prom, p[b].body[i])
    requires ds' == ds[p[b].body[i].ptr := StackOf(ds, p[b].body[i].ptr) + [Resolve(r.sigma, p[b].body[i].value)]]
    requires b in code && Cursor(p, prom, r.sigma, b, i) < |code[b].body|
    requires code' == code[b := Block(code[b].phis, code[b].body[..Cursor(p, prom, r.sigma, b,
        i)] + code[b].body[Cursor(p, prom, r.sigma, b, i) + 1..])]
    ensures ScanInv(g, idom, p, prom, q0, code', r', pos[b := i + 1], done, ds', b, i + 1)
    ensures r'.sigma == r.sigma && Cursor(p, prom, r.sigma, b, i + 1) == Cursor(p, prom, r.sigma, b, i)
        && RecordSame(r, r', b) && r'.floats == r.floats
  {
    hide *;
    AtFacts(p, b, i);
    var ins := p[b].body[i];
    ScanFacts(g, idom, p, prom, q0, code, r, pos, done, ds, b, i);
    ScanStepEqual(prom, r.sigma, ins);
    MixedAt(prom, r.sigma, p[b].body, i);
    NormalPush(prom, ds, ins.ptr, Resolve(r.sigma, ins.value));
    var s := Normal(prom, ds');
    StoreStepStacks(prom, r.sigma, r.at[b][i], ins);
    CursorStep(p, prom, r.sigma, b, i);
    r' := r.(at := r.at[b := r.at[b] + [s]]);
    WalkPasses(g, idom, p, prom, q0, code, code', r, r', pos, done, b, i, s);
    StacksAtEntryKept(g, idom, num, domTree, p, prom, q0, r, r', b);
    ScanClean(g, idom, num, domTree, p, prom, q0, code, r, pos, done, ds, b, i);
    CleanPush(p, prom, Normal(prom, ds), ins.ptr, Resolve(r.sigma, ins.value));
    ScanIntro(g, idom, p, prom, q0, code', r', pos[b := i + 1], done, ds', b, i + 1);
    RecordUpdated(r, r', b);
  }

  lemma RecordUpdated(r: Record, r': Record, b: BlockId)
    requires b in r'.at && r'.at == r.at[b := r'.at[b]] && r'.floats == r.floats
    ensures RecordSame(r, r', b)
  {
  }

  lemma StoreStepStacks(prom: set<Operand>, sigma: map<Operand, Operand>, s: Stacks, ins: Instr)
    ensures PromotedStore(prom, ins) ==>
        StepStacks(prom, sigma, s, ins) == Push(s, ins.ptr, Resolve(sigma, ins.value))
        && ins.ptr in prom
    ensures !PromotedStore(prom, ins) ==> StepStacks(prom, sigma, s, ins) == s
  {
  }

  lemma CursorStep(p: Program, prom: set<Operand>, sigma: map<Operand, Operand>, b: BlockId, i: nat)
    requires At(p, b, i)
    ensures b in p && i < |p[b].body| && Cursor(p, prom, sigma, b, i) == |Kept(prom, sigma, p[b].body[..i])|
    ensures Cursor(p, prom, sigma, b, i + 1) == |Kept(prom, sigma, p[b].body[..i + 1])|
  {
  }

  lemma ScanIntro(g: Graph, idom: map<BlockId, BlockId>, p: Program, prom: set<Operand>, q0: Program,
                  code: Program, r: Record, pos: map<BlockId, nat>, done: set<BlockId>, ds: map<Operand, seq<Operand>>,
                      b: BlockId, i: nat)
    requires WalkInv(g, idom, p, prom, q0, code, r, pos, done, {b})
    requires b !in done && b in p && b in q0 && b in pos && pos[b] == i
    requires PartRecorded(p, prom, q0[b].phis, r, b, i) && b in r.entry && StacksAtEntry(g, idom, p, r, r.entry[b], b)
    requires b in r.at && i < |r.at[b]| && r.at[b][i] == Normal(prom, ds) && StacksClean(p, prom, Normal(prom, ds))
    ensures ScanInv(g, idom, p, prom, q0, code, r, pos, done, ds, b, i)
  {
    hide WalkInv, PartRecorded, StacksClean;
  }

  lemma ScanClean(g: Graph, idom: map<BlockId, BlockId>, num: map<BlockId, nat>, domTree: map<BlockId, seq<BlockId>>,
                  p: Program, prom: set<Operand>, q0: Program,
                  code: Program, r: Record, pos: map<BlockId, nat>, done: set<BlockId>, ds: map<Operand, seq<Operand>>,
                      b: BlockId, i: nat)
    requires Context(g, idom, num, domTree, p, prom, q0) && MayWalk(g, p, done, b)
    requires ScanInv(g, idom, p, prom, q0, code, r, pos, done, ds, b, i) && At(p, b, i)
        && PromotedStore(prom, p[b].body[i])
    ensures !IsLoadResult(p, prom, Resolve(r.sigma, p[b].body[i].value))
  {
    hide Progress, Walked, Filled, SsaInput, PhisPlaced, LoadsInReach, SigmaOk;
    PushedIsClean(g, p, prom, r.sigma, pos, done, b, i);
  }

  lemma StacksAtEntryKept(g: Graph, idom: map<BlockId, BlockId>, num: map<BlockId, nat>,
                          domTree: map<BlockId, seq<BlockId>>, p: Program, prom: set<Operand>, q0: Program,
                          r: Record, r': Record, b: BlockId)
    requires Context(g, idom, num, domTree, p, prom, q0) && b in p && b in r.entry
        && StacksAtEntry(g, idom, p, r, r.entry[b], b)
    requires r'.entry == r.entry && (forall x :: x != b && x in r.at ==> x in r'.at && r'.at[x] == r.at[x])
    ensures StacksAtEntry(g, idom, p, r', r'.entry[b], b)
  {
    hide SsaInput, PhisPlaced, LoadsInReach, DomTreeCorrect, IdomsDescend, WellFormed;
    if b != g.entry {
      assert IsImmediateDominator(g, idom[b], b);
    }
  }

  /** Passing an instruction that stays. */
  lemma ScanKept(g: Graph, idom: map<BlockId, BlockId>, num: map<BlockId, nat>, domTree: map<BlockId, seq<BlockId>>,
                 p: Program, prom: set<Operand>, q0: Program,
                 code: Program, r: Record, pos: map<BlockId, nat>, done: set<BlockId>, ds: map<Operand, seq<Operand>>,
                     b: BlockId, i: nat) returns (r': Record)
    requires Context(g, idom, num, domTree, p, prom, q0)
    requires ScanInv(g, idom, p, prom, q0, code, r, pos, done, ds, b, i) && At(p, b, i)
    requires !PromotedLoad(prom, p[b].body[i]) && !PromotedStore(prom, p[b].body[i])
    ensures ScanInv(g, idom, p, prom, q0, code, r', pos[b := i + 1], done, ds, b, i + 1)
    ensures r'.sigma == r.sigma && Cursor(p, prom, r.sigma, b, i + 1) == Cursor(p, prom, r.sigma, b, i) + 1
        && RecordSame(r, r', b) && r'.floats == r.floats
  {
    hide *;
    AtFacts(p, b, i);
    var ins := p[b].body[i];
    ScanFacts(g, idom, p, prom, q0, code, r, pos, done, ds, b, i);
    NoAllocaLeft(g, idom, num, domTree, p, prom, q0, b, i);
    StoreStepStacks(prom, r.sigma, r.at[b][i], ins);
    CursorStep(p, prom, r.sigma, b, i);
    ScanStepEqual(prom, r.sigma, ins);
    MixedAt(prom, r.sigma, p[b].body, i);
    r' := r.(at := r.at[b := r.at[b] + [Normal(prom, ds)]]);
    WalkPasses(g, idom, p, prom, q0, code, code, r, r', pos, done, b, i, Normal(prom, ds));
    StacksAtEntryKept(g, idom, num, domTree, p, prom, q0, r, r', b);
    ScanIntro(g, idom, p, prom, q0, code, r', pos[b := i + 1], done, ds, b, i + 1);
    RecordUpdated(r, r', b);
  }

  lemma NoAllocaLeft(g: Graph, idom: map<BlockId, BlockId>, num: map<BlockId, nat>, domTree: map<BlockId, seq<BlockId>>,
                     p: Program, prom: set<Operand>, q0: Program,
                     b: BlockId, i: nat)
    requires Context(g, idom, num, domTree, p, prom, q0) && At(p, b, i)
    ensures p[b].body[i].Alloca? ==> p[b].body[i].dst !in prom
  {
    hide SsaInput, PhisPlaced, LoadsInReach, DomTreeCorrect, IdomsDescend, WellFormed;
  }

  /** Removing a promoted load whose result has been replaced everywhere by the top of the stack. */
  lemma ScanLoad(g: Graph, idom: map<BlockId, BlockId>, num: map<BlockId, nat>, domTree: map<BlockId, seq<BlockId>>,
                 p: Program, prom: set<Operand>, q0: Program,
                 code: Program, code1: Program, code': Program, r: Record, pos: map<BlockId, nat>, done: set<BlockId>,
                 ds: map<Operand, seq<Operand>>, b: BlockId, i: nat, n: Operand) returns (r': Record)
    requires Context(g, idom, num, domTree, p, prom, q0) && MayWalk(g, p, done, b)
    requires ScanInv(g, idom, p, prom, q0, code, r, pos, done, ds, b, i) && At(p, b, i)
        && PromotedLoad(prom, p[b].body[i])
    requires Replaces(StackOf(ds, p[b].body[i].ptr), p[b].body[i].ptr in r.floats, n) && code1.Keys == code.Keys
    requires forall x :: x in code ==> code1[x].phis == code[x].phis && AllReplaced(code[x].body, code1[x].body,
        p[b].body[i].dst, n)
    requires b in code1 && Cursor(p, prom, r.sigma, b, i) < |code1[b].body|
    requires code' == code1[b := Block(code1[b].phis, code1[b].body[..Cursor(p, prom, r.sigma, b,
        i)] + code1[b].body[Cursor(p, prom, r.sigma, b, i) + 1..])]
    ensures ScanInv(g, idom, p, prom, q0, code', r', pos[b := i + 1], done, ds, b, i + 1)
    ensures Cursor(p, prom, r'.sigma, b, i + 1) == Cursor(p, prom, r.sigma, b, i) && RecordSame(r, r', b)
        && r'.floats == r.floats
  {
    hide *;
    AtFacts(p, b, i);
    var ins := p[b].body[i];
    ScanFacts(g, idom, p, prom, q0, code, r, pos, done, ds, b, i);
    ScanStepEqual(prom, r.sigma, ins);
    var d := ins.dst;
    LoadedStack(prom, ds, ins);
    CursorStep(p, prom, r.sigma, b, i);
    ReplacementClean(g, idom, num, domTree, p, prom, q0, Normal(prom, ds), ins.ptr, ins.ptr in r.floats, n);
    var sigma' := r.sigma[d := n];
    ScanReplaced(g, idom, num, domTree, p, prom, q0, code, code1, r, pos, done, b, i, n);
    ProgressAt(p, prom, q0, code1, sigma', pos, b);
    MixedAt(prom, sigma', p[b].body, i);
    KeptLength(prom, r.sigma, sigma', p[b].body[..i]);
    KeptLength(prom, r.sigma, sigma', p[b].body[..i + 1]);
    ProgressStep(p, prom, q0, code1, code', sigma', pos, b, i);
    r' := r.(at := r.at[b := r.at[b] + [r.at[b][i]]], sigma := sigma');
    WalkResolves(g, idom, num, domTree, p, prom, q0, code, code', r, r', pos, done, b, i, n);
    StacksAtEntryKept(g, idom, num, domTree, p, prom, q0, r, r', b);
    CursorStep(p, prom, sigma', b, i);
    ScanIntro(g, idom, p, prom, q0, code', r', pos[b := i + 1], done, ds, b, i + 1);
    RecordUpdated(r, r', b);
  }

  lemma LoadedStack(prom: set<Operand>, ds: map<Operand, seq<Operand>>, ins: Instr)
    requires PromotedLoad(prom, ins)
    ensures Stack(Normal(prom, ds), ins.ptr) == StackOf(ds, ins.ptr)
  {
  }

  /** What replaces a load is not the result of a removed one. */
  lemma ReplacementClean(g: Graph, idom: map<BlockId, BlockId>, num: map<BlockId, nat>,
                         domTree: map<BlockId, seq<BlockId>>, p: Program, prom: set<Operand>, q0: Program, s: Stacks,
                         v: Operand, isFloat: bool, n: Operand)
    requires Context(g, idom, num, domTree, p, prom, q0) && StacksClean(p, prom, s) && Replaces(Stack(s, v), isFloat, n)
    ensures !IsLoadResult(p, prom, n)
  {
    hide IdomsCorrect, IdomsDescend, DomTreeCorrect, PhisPlaced, WellFormed;
    if Stack(s, v) != [] {
      CleanTop(p, prom, s, v);
    } else {
      ZeroAvailable(g, p, prom, q0, g.entry, 0, n);
    }
  }

  lemma ScanReplaced(g: Graph, idom: map<BlockId, BlockId>, num: map<BlockId, nat>, domTree: map<BlockId, seq<BlockId>>,
                     p: Program, prom: set<Operand>, q0: Program,
                     code: Program, code1: Program, r: Record, pos: map<BlockId, nat>, done: set<BlockId>, b: BlockId,
                         i: nat, n: Operand)
    requires Context(g, idom, num, domTree, p, prom, q0) && WalkInv(g, idom, p, prom, q0, code, r, pos, done, {b})
    requires At(p, b, i) && b in pos && pos[b] == i && PromotedLoad(prom, p[b].body[i]) && !IsLoadResult(p, prom, n)
    requires code1.Keys == code.Keys
    requires forall x :: x in code ==> code1[x].phis == code[x].phis && AllReplaced(code[x].body, code1[x].body,
        p[b].body[i].dst, n)
    ensures Progress(p, prom, q0, code1, r.sigma[p[b].body[i].dst := n], pos)
  {
    hide Progress, Walked, Filled, SigmaOk, SsaInput, PhisPlaced, LoadsInReach, DomTreeCorrect, IdomsDescend,
        IdomsCorrect, AllReplaced;
    SigmaResolves(g, p, prom, r.sigma, pos, b, i, n);
    ProgressReplaced(g, p, prom, q0, code, code1, r.sigma, pos, b, i, n);
  }

  lemma ProgressAt(p: Program, prom: set<Operand>, q0: Program, code: Program, sigma: map<Operand, Operand>,
                   pos: map<BlockId, nat>, b: BlockId)
    requires Progress(p, prom, q0, code, sigma, pos) && b in p
    ensures b in code && b in pos && pos[b] <= |p[b].body| && code[b].body == Mixed(prom, sigma, p[b].body, pos[b])
  {
  }

  lemma ProgressStep(p: Program, prom: set<Operand>, q0: Program, code: Program, code': Program,
                     sigma: map<Operand, Operand>, pos: map<BlockId, nat>, b: BlockId, i: nat)
    requires Progress(p, prom, q0, code, sigma, pos) && At(p, b, i) && b in code && b in code'
        && code' == code[b := code'[b]]
    requires code'[b].phis == code[b].phis && code'[b].body == Mixed(prom, sigma, p[b].body, i + 1)
    ensures Progress(p, prom, q0, code', sigma, pos[b := i + 1])
  {
    hide Mixed;
  }

  // ----- the stacks of one visit -----

  function Count(cnt: map<Operand, nat>, v: Operand): nat {
    if v in cnt then cnt[v] else 0
  }

  /** `ds'` has `cnt[v]` more operands on the stack of every `v` than `ds`, and the same below. */
  ghost predicate Counted(ds: map<Operand, seq<Operand>>, ds': map<Operand, seq<Operand>>, cnt: map<Operand, nat>) {
    forall v :: StackOf(ds, v) <= StackOf(ds', v) && |StackOf(ds', v)| == |StackOf(ds, v)| + Count(cnt, v)
  }

  lemma CountedPush(ds: map<Operand, seq<Operand>>, ds': map<Operand, seq<Operand>>, cnt: map<Operand, nat>, v: Operand,
                    o: Operand)
    requires Counted(ds, ds', cnt)
    ensures Counted(ds, ds'[v := StackOf(ds', v) + [o]], cnt[v := Count(cnt, v) + 1])
  {
  }

  /** The same stacks, whatever entries the map has for empty ones. */
  ghost predicate SameStacks(ds: map<Operand, seq<Operand>>, ds': map<Operand, seq<Operand>>) {
    forall v :: StackOf(ds, v) == StackOf(ds', v)
  }

  lemma SameNormal(prom: set<Operand>, ds: map<Operand, seq<Operand>>, ds': map<Operand, seq<Operand>>)
    requires SameStacks(ds, ds')
    ensures Normal(prom, ds) == Normal(prom, ds')
  {
    forall v | v in prom
      ensures Normal(prom, ds)[v] == Normal(prom, ds')[v]
    {
      assert StackOf(ds, v) == StackOf(ds', v);
    }
  }

  /** The phis at the head of `b` pushed so far. */
  lemma PhiPushed(g: Graph, p: Program, prom: set<Operand>, q0: Program, code: Program, ds: map<Operand, seq<Operand>>,
                  s: Stacks, b: BlockId, k: nat)
    requires PhisPlaced(g, p, prom, q0) && b in q0 && b in code && SamePhiShape(q0[b].phis, code[b].phis)
        && k < |code[b].phis|
    requires Normal(prom, ds) == PushPhis(s, q0[b].phis[..k]) && StacksClean(p, prom, Normal(prom, ds))
    ensures code[b].phis[k].variable in prom
    ensures var ds' := ds[code[b].phis[k].variable := StackOf(ds, code[b].phis[k].variable) + [code[b].phis[k].dst]];
            Normal(prom, ds') == PushPhis(s, q0[b].phis[..k + 1]) && StacksClean(p, prom, Normal(prom, ds'))
  {
    assert q0[b].phis[..k + 1][..k] == q0[b].phis[..k];
    var phi := code[b].phis[k];
    NormalPush(prom, ds, phi.variable, phi.dst);
    PhiResultNotLoad(g, p, prom, q0, b, k);
    CleanPush(p, prom, Normal(prom, ds), phi.variable, phi.dst);
  }

  lemma PhiResultNotLoad(g: Graph, p: Program, prom: set<Operand>, q0: Program, b: BlockId, k: nat)
    requires PhisPlaced(g, p, prom, q0) && b in q0 && k < |q0[b].phis|
    ensures q0[b].phis[k].variable in prom && !IsLoadResult(p, prom, q0[b].phis[k].dst)
  {
    assert IsPhiResult(q0, b, q0[b].phis[k].dst);
  }

  lemma ArrivalFacts(g: Graph, idom: map<BlockId, BlockId>, num: map<BlockId, nat>, domTree: map<BlockId, seq<BlockId>>,
                     p: Program, prom: set<Operand>, q0: Program,
                     code: Program, r: Record, pos: map<BlockId, nat>, done: set<BlockId>, b: BlockId)
    requires Context(g, idom, num, domTree, p, prom, q0) && WalkInv(g, idom, p, prom, q0, code, r, pos, done, {})
        && MayWalk(g, p, done, b)
    ensures b in q0 && b in code && SamePhiShape(q0[b].phis, code[b].phis) && PhisPlaced(g, p, prom, q0) && b in p
    ensures |code[b].phis| == |q0[b].phis|
    ensures b !in done && (b != g.entry ==> b in idom && idom[b] != b && idom[b] in done)
  {
    hide Walked, SigmaOk, Filled, Positions, UniqueDefinitions, DefinedBeforeUse, AddressesNotLoaded, PhisPlaced,
        LoadsInReach, Mixed, WellFormed, DomTreeCorrect, IdomsDescend;
    DominatesReflexive(g, b);
    if b != g.entry {
      assert IsImmediateDominator(g, idom[b], b);
    }
  }

  lemma PushPhisNone(s: Stacks, phis: seq<Phi>)
    ensures PushPhis(s, phis[..0]) == s && phis[..|phis|] == phis
  {
  }

  lemma LoadOnStack(g: Graph, idom: map<BlockId, BlockId>, num: map<BlockId, nat>, domTree: map<BlockId, seq<BlockId>>,
                    p: Program, prom: set<Operand>, q0: Program,
                    code: Program, r: Record, pos: map<BlockId, nat>, done: set<BlockId>, ds: map<Operand,
                        seq<Operand>>, b: BlockId, i: nat)
    requires Context(g, idom, num, domTree, p, prom, q0) && MayWalk(g, p, done, b)
    requires ScanInv(g, idom, p, prom, q0, code, r, pos, done, ds, b, i) && At(p, b, i)
        && PromotedLoad(prom, p[b].body[i]) && LoadsInReach(g, p, prom, q0)
    ensures |StackOf(ds, p[b].body[i].ptr)| > 0 && ds != map[]
  {
    hide Context, MayWalk, Progress, Walked, SigmaOk, Filled, Positions, PartRecorded, StacksClean;
    LoadNonempty(g, idom, num, domTree, p, prom, q0, r, done, b, i);
  }

  lemma CountedStarts(ds: map<Operand, seq<Operand>>)
    ensures Counted(ds, ds, map[])
  {
  }

  lemma CursorStart(p: Program, prom: set<Operand>, sigma: map<Operand, Operand>, b: BlockId)
    requires b in p
    ensures Cursor(p, prom, sigma, b, 0) == 0
  {
  }

  lemma ScanStarts(g: Graph, idom: map<BlockId, BlockId>, p: Program, prom: set<Operand>, q0: Program,
                   code: Program, r: Record, pos: map<BlockId, nat>, done: set<BlockId>, ds: map<Operand, seq<Operand>>,
                       b: BlockId)
    requires WalkInv(g, idom, p, prom, q0, code, r, pos, done, {b}) && b !in done && b in p && b in q0 && b in pos
        && pos[b] == 0
    requires PartRecorded(p, prom, q0[b].phis, r, b, 0) && b in r.entry && StacksAtEntry(g, idom, p, r, r.entry[b], b)
    requires Normal(prom, ds) == PushPhis(r.entry[b], q0[b].phis) && StacksClean(p, prom, Normal(prom, ds))
    ensures ScanInv(g, idom, p, prom, q0, code, r, pos, done, ds, b, 0)
  {
    hide WalkInv, StacksClean, Normal;
  }

  lemma PromotedKinds(prom: set<Operand>, ins: Instr)
    ensures PromotedLoad(prom, ins) <==> ins.Load? && ins.ptr in prom
    ensures PromotedStore(prom, ins) <==> ins.Store? && ins.ptr in prom
  {
  }

  lemma ReplacedLength(code: Program, code': Program, d: Operand, n: Operand, b: BlockId)
    requires b in code && b in code' && AllReplaced(code[b].body, code'[b].body, d, n)
    ensures |code'[b].body| == |code[b].body|
  {
  }

  // ----- filling the phis of the successors -----

  /** The zero constant of a variable's type. */
  function ZeroFor(varType: map<Operand, Type>, v: Operand): Operand {
    Zero(v in varType && varType[v].FloatType?)
  }

  /** The types that the pass remembers tell the float variables. */
  ghost predicate TypesMatch(varType: map<Operand, Type>, prom: set<Operand>, floats: set<Operand>) {
    forall v :: v in prom ==> v in varType && (v in floats <==> varType[v] == FloatType)
  }

  function Incoming(varType: map<Operand, Type>, ds: map<Operand, seq<Operand>>, v: Operand): Operand {
    if StackOf(ds, v) == [] then Zero(v in varType && varType[v] == FloatType) else Top(StackOf(ds, v))
  }

  function FillPhi(varType: map<Operand, Type>, ds: map<Operand, seq<Operand>>, from: BlockId, phi: Phi): Phi {
    phi.(srcs := phi.srcs[from := Incoming(varType, ds, phi.variable)])
  }

  ghost predicate PhisFilledIn(varType: map<Operand, Type>, ds: map<Operand, seq<Operand>>, from: BlockId,
                               phis: seq<Phi>, phis': seq<Phi>, n: nat) {
    && |phis'| == |phis|
    && forall k :: 0 <= k < |phis| ==> phis'[k] == if k < n then FillPhi(varType, ds, from, phis[k]) else phis[k]
  }

  /** The phis of the successors in `filled` have got their operand for `from`. */
  ghost predicate SuccessorsFilled(code: Program, code': Program, varType: map<Operand, Type>,
                                   ds: map<Operand, seq<Operand>>, from: BlockId, filled: set<BlockId>) {
    && code'.Keys == code.Keys
    && (forall x :: x in code ==> code'[x].body == code[x].body)
    && (forall x :: x in code && x !in filled ==> code'[x].phis == code[x].phis)
    && (forall x :: x in code && x in filled ==> PhisFilledIn(varType, ds, from, code[x].phis, code'[x].phis,
        |code[x].phis|))
  }

  lemma NoSuccessorFilled(code: Program, varType: map<Operand, Type>, ds: map<Operand, seq<Operand>>, from: BlockId)
    ensures SuccessorsFilled(code, code, varType, ds, from, {})
  {
  }

  lemma OneSuccessorFilled(code: Program, code1: Program, code2: Program, varType: map<Operand, Type>,
                           ds: map<Operand, seq<Operand>>, from: BlockId, filled: set<BlockId>, x: BlockId)
    requires SuccessorsFilled(code, code1, varType, ds, from, filled) && x in code1 && x !in filled
    requires code2.Keys == code1.Keys && (forall y :: y in code1 && y != x ==> code2[y] == code1[y])
    requires code2[x].body == code1[x].body && PhisFilledIn(varType, ds, from, code1[x].phis, code2[x].phis,
        |code1[x].phis|)
    ensures SuccessorsFilled(code, code2, varType, ds, from, filled + {x})
  {
  }

  lemma FilledByAll(g: Graph, p: Program, prom: set<Operand>, q0: Program, code: Program, code': Program, r: Record,
                    done: set<BlockId>,
                    varType: map<Operand, Type>, ds: map<Operand, seq<Operand>>, b: BlockId)
    requires Filled(g, p, code, r, done) && b !in done && SuccessorsFilled(code, code', varType, ds, b, if b in g.succ
        then g.succ[b] else {})
    requires Recorded(p, r, b) && AtEnd(p, r, b) == Normal(prom, ds)
    requires TypesMatch(varType, prom, r.floats)
    requires forall x, k :: x in code && 0 <= k < |code[x].phis| ==> code[x].phis[k].variable in prom
    ensures Filled(g, p, code', r, done + {b})
  {
    forall a | a in done + {b}
      ensures FilledFrom(g, p, code', r, a)
    {
      assert a in done ==> FilledFrom(g, p, code, r, a);
    }
  }

  lemma ProgressFilled(p: Program, prom: set<Operand>, q0: Program, code: Program, code': Program,
                       sigma: map<Operand, Operand>, pos: map<BlockId, nat>,
                       varType: map<Operand, Type>, ds: map<Operand, seq<Operand>>, b: BlockId, filled: set<BlockId>)
    requires Progress(p, prom, q0, code, sigma, pos) && SuccessorsFilled(code, code', varType, ds, b, filled)
    ensures Progress(p, prom, q0, code', sigma, pos)
  {
    hide Mixed;
    forall x | x in p
      ensures SamePhiShape(q0[x].phis, code'[x].phis)
    {
      assert x in filled ==> PhisFilledIn(varType, ds, b, code[x].phis, code'[x].phis, |code[x].phis|);
    }
  }

  lemma VariablesPromoted(g: Graph, p: Program, prom: set<Operand>, q0: Program, code: Program,
                          sigma: map<Operand, Operand>, pos: map<BlockId, nat>)
    requires PhisPlaced(g, p, prom, q0) && Progress(p, prom, q0, code, sigma, pos)
    ensures forall x, k :: x in code && 0 <= k < |code[x].phis| ==> code[x].phis[k].variable in prom
  {
    hide Mixed;
    forall x, k | x in code && 0 <= k < |code[x].phis|
      ensures code[x].phis[k].variable in prom
    {
      assert SamePhiShape(q0[x].phis, code[x].phis);
    }
  }

  /** The walk leaves `b`: everything about the block is in place. */
  lemma BlockLeft(g: Graph, idom: map<BlockId, BlockId>, num: map<BlockId, nat>, domTree: map<BlockId, seq<BlockId>>,
                  p: Program, prom: set<Operand>, q0: Program,
                  code: Program, code': Program, r: Record, pos: map<BlockId, nat>, done: set<BlockId>,
                  varType: map<Operand, Type>, ds: map<Operand, seq<Operand>>, b: BlockId)
    requires Context(g, idom, num, domTree, p, prom, q0) && MayWalk(g, p, done, b)
    requires ScanInv(g, idom, p, prom, q0, code, r, pos, done, ds, b, |p[b].body|)
    requires b in g.succ && SuccessorsFilled(code, code', varType, ds, b, g.succ[b])
        && TypesMatch(varType, prom, r.floats)
    ensures WalkInv(g, idom, p, prom, q0, code', r, pos, done + {b}, {})
    ensures Recorded(p, r, b) && AtEnd(p, r, b) == Normal(prom, ds) && StacksClean(p, prom, Normal(prom, ds))
  {
    hide Progress, Walked, SigmaOk, Filled, StacksClean, SuccessorsFilled, PhisPlaced, SsaInput, LoadsInReach,
        DomTreeCorrect, IdomsDescend, WellFormed, PartRecorded, Normal;
    var n := |p[b].body|;
    PartIsRecorded(p, prom, q0[b].phis, r, b);
    ProgressFilled(p, prom, q0, code, code', r.sigma, pos, varType, ds, b, g.succ[b]);
    VariablesPromoted(g, p, prom, q0, code, r.sigma, pos);
    FilledByAll(g, p, prom, q0, code, code', r, done, varType, ds, b);
    LeaveIdom(g, idom, num, domTree, p, prom, q0, done, b);
    LeaveWalked(g, idom, p, prom, q0, r, done, b);
  }

  lemma PartIsRecorded(p: Program, prom: set<Operand>, phis: seq<Phi>, r: Record, b: BlockId)
    requires b in p && PartRecorded(p, prom, phis, r, b, |p[b].body|)
    ensures Recorded(p, r, b) && BlockRecorded(p, prom, phis, r, b)
  {
    WholeIsPart(p, prom, phis, r, b);
  }

  lemma LeaveIdom(g: Graph, idom: map<BlockId, BlockId>, num: map<BlockId, nat>, domTree: map<BlockId, seq<BlockId>>,
                  p: Program, prom: set<Operand>, q0: Program,
                  done: set<BlockId>, b: BlockId)
    requires Context(g, idom, num, domTree, p, prom, q0) && MayWalk(g, p, done, b)
    ensures b != g.entry ==> b in idom && idom[b] in done
  {
    hide UniqueDefinitions, DefinedBeforeUse, AddressesNotLoaded, PhisPlaced, LoadsInReach, DomTreeCorrect,
        IdomsDescend, WellFormed;
    if b != g.entry {
      assert IsImmediateDominator(g, idom[b], b);
    }
  }

  lemma LeaveWalked(g: Graph, idom: map<BlockId, BlockId>, p: Program, prom: set<Operand>, q0: Program, r: Record,
                    done: set<BlockId>, b: BlockId)
    requires Walked(g, idom, p, prom, q0, r, done) && b in p && b in q0 && BlockRecorded(p, prom, q0[b].phis, r, b)
    requires StacksAtEntry(g, idom, p, r, r.entry[b], b) && (b != g.entry ==> b in idom && idom[b] in done)
    ensures Walked(g, idom, p, prom, q0, r, done + {b})
  {
    hide BlockRecorded;
    forall x | x in done + {b}
      ensures BlockWalked(g, idom, p, prom, q0, r, done + {b}, x)
    {
      assert x in done ==> BlockWalked(g, idom, p, prom, q0, r, done, x);
    }
  }

  lemma SameStacksTransitive(ds: map<Operand, seq<Operand>>, ds1: map<Operand, seq<Operand>>,
                             ds2: map<Operand, seq<Operand>>)
    requires SameStacks(ds, ds1) && SameStacks(ds1, ds2)
    ensures SameStacks(ds, ds2)
  {
    forall v
      ensures StackOf(ds, v) == StackOf(ds2, v)
    {
      assert StackOf(ds1, v) == StackOf(ds, v);
    }
  }

  lemma SameStacksFill(varType: map<Operand, Type>, ds: map<Operand, seq<Operand>>, ds1: map<Operand, seq<Operand>>,
                       from: BlockId, phis: seq<Phi>, phis': seq<Phi>, n: nat)
    requires SameStacks(ds, ds1) && PhisFilledIn(varType, ds1, from, phis, phis', n)
    ensures PhisFilledIn(varType, ds, from, phis, phis', n)
  {
    forall v ensures Incoming(varType, ds, v) == Incoming(varType, ds1, v) {
      assert StackOf(ds, v) == StackOf(ds1, v);
    }
  }

  /** No promoted variable is stored to: the walk never meets a store or a phi. */
  ghost predicate NeverStored(p: Program, prom: set<Operand>, q0: Program) {
    && (forall b, i: nat :: At(p, b, i) ==> !PromotedStore(prom, p[b].body[i]))
    && (forall b :: b in q0 ==> q0[b].phis == [])
  }

  /** Then, if there was no stack at all, there still is none. */
  ghost predicate StaysEmpty(p: Program, prom: set<Operand>, q0: Program, ds: map<Operand, seq<Operand>>,
                             ds1: map<Operand, seq<Operand>>) {
    NeverStored(p, prom, q0) && ds == map[] ==> ds1 == map[]
  }

  lemma StillEmpty(p: Program, prom: set<Operand>, q0: Program, ds: map<Operand, seq<Operand>>)
    ensures StaysEmpty(p, prom, q0, ds, ds)
  {
  }

  lemma StaysEmptyOn(p: Program, prom: set<Operand>, q0: Program, ds: map<Operand, seq<Operand>>,
                     ds1: map<Operand, seq<Operand>>, ds2: map<Operand, seq<Operand>>)
    requires StaysEmpty(p, prom, q0, ds, ds1) && StaysEmpty(p, prom, q0, ds1, ds2)
    ensures StaysEmpty(p, prom, q0, ds, ds2)
  {
  }

  lemma PhiMeansStored(p: Program, prom: set<Operand>, q0: Program, b: BlockId)
    requires b in q0 && q0[b].phis != []
    ensures forall ds, ds1 :: StaysEmpty(p, prom, q0, ds, ds1)
  {
  }

  lemma NoPhisYet(g: Graph, idom: map<BlockId, BlockId>, p: Program, prom: set<Operand>, q0: Program, code: Program,
                  r: Record, pos: map<BlockId, nat>, done: set<BlockId>, ds: map<Operand, seq<Operand>>, b: BlockId,
                  i: nat)
    requires ScanInv(g, idom, p, prom, q0, code, r, pos, done, ds, b, i)
    ensures NeverStored(p, prom, q0) ==> NoPhisIn(code)
  {
    hide Walked, SigmaOk, Filled, Positions, PartRecorded, StacksClean, Mixed;
    if NeverStored(p, prom, q0) {
      assert forall x :: x in code ==> x in p && SamePhiShape(q0[x].phis, code[x].phis);
    }
  }

  ghost predicate NoPhisIn(code: Program) {
    forall x :: x in code ==> code[x].phis == []
  }

  lemma FillingStaysEmpty(p: Program, prom: set<Operand>, q0: Program, code: Program, ds: map<Operand, seq<Operand>>,
                          ds1: map<Operand, seq<Operand>>)
    requires NeverStored(p, prom, q0) ==> NoPhisIn(code)
    requires NoPhisIn(code) ==> ds1 == ds
    ensures StaysEmpty(p, prom, q0, ds, ds1)
  {
    hide NoPhisIn;
  }

  lemma StoreMeansStored(p: Program, prom: set<Operand>, q0: Program, b: BlockId, i: nat)
    requires At(p, b, i)
    ensures PromotedStore(prom, p[b].body[i]) ==> forall ds, ds1 :: StaysEmpty(p, prom, q0, ds, ds1)
  {
  }

  lemma NoPhisAt(code: Program, x: BlockId)
    ensures NoPhisIn(code) && x in code ==> code[x].phis == []
  {
  }

  lemma EmptyMeans(p: Program, prom: set<Operand>, q0: Program, ds: map<Operand, seq<Operand>>,
                   ds1: map<Operand, seq<Operand>>)
    requires StaysEmpty(p, prom, q0, ds, ds1)
    ensures NeverStored(p, prom, q0) && ds == map[] ==> ds1 == map[]
  {
  }

  /** A load that is not found is neither in reach nor in a function without stores. */
  lemma LoadNotFound(g: Graph, idom: map<BlockId, BlockId>, num: map<BlockId, nat>, domTree: map<BlockId, seq<BlockId>>,
                     p: Program, prom: set<Operand>, q0: Program, code: Program, r: Record, pos: map<BlockId, nat>,
                     done: set<BlockId>, ds0: map<Operand, seq<Operand>>, ds: map<Operand, seq<Operand>>, b: BlockId,
                     i: nat)
    requires Context(g, idom, num, domTree, p, prom, q0) && MayWalk(g, p, done, b)
    requires ScanInv(g, idom, p, prom, q0, code, r, pos, done, ds, b, i) && At(p, b, i)
    requires PromotedLoad(prom, p[b].body[i]) && StackOf(ds, p[b].body[i].ptr) == [] && ds != map[]
    requires StaysEmpty(p, prom, q0, ds0, ds)
    ensures !LoadsInReach(g, p, prom, q0) && !(NeverStored(p, prom, q0) && ds0 == map[])
  {
    hide *;
    EmptyMeans(p, prom, q0, ds0, ds);
    if LoadsInReach(g, p, prom, q0) {
      LoadOnStack(g, idom, num, domTree, p, prom, q0, code, r, pos, done, ds, b, i);
    }
  }

  lemma FilledShape(code: Program, code1: Program, varType: map<Operand, Type>, ds: map<Operand, seq<Operand>>,
                    from: BlockId, filled: set<BlockId>, x: BlockId)
    requires SuccessorsFilled(code, code1, varType, ds, from, filled) && x in code1 && x !in filled
    ensures x in code && code1[x].phis == code[x].phis
  {
  }

  lemma NothingCounted(p: Program, prom: set<Operand>, q0: Program, ds: map<Operand, seq<Operand>>,
                       ds1: map<Operand, seq<Operand>>, ds2: map<Operand, seq<Operand>>, cnt: map<Operand, nat>)
    requires Counted(ds, ds1, cnt) && StaysEmpty(p, prom, q0, ds, ds1)
    requires (forall v :: v in cnt ==> cnt[v] == 0) ==> ds2 == ds1
    ensures StaysEmpty(p, prom, q0, ds, ds2)
  {
    if ds1 == map[] {
      forall v | v in cnt ensures cnt[v] == 0 {
        assert StackOf(ds1, v) == [];
      }
    }
  }

  lemma SameStacksReflexive(ds: map<Operand, seq<Operand>>)
    ensures SameStacks(ds, ds)
  {
  }

  lemma CountedSame(ds: map<Operand, seq<Operand>>, ds1: map<Operand, seq<Operand>>, ds2: map<Operand, seq<Operand>>,
                    cnt: map<Operand, nat>)
    requires Counted(ds, ds1, cnt) && SameStacks(ds1, ds2)
    ensures Counted(ds, ds2, cnt)
  {
    forall v
      ensures StackOf(ds, v) <= StackOf(ds2, v) && |StackOf(ds2, v)| == |StackOf(ds, v)| + Count(cnt, v)
    {
      assert StackOf(ds1, v) == StackOf(ds2, v);
    }
  }

  lemma RenameFacts(g: Graph, idom: map<BlockId, BlockId>, num: map<BlockId, nat>, domTree: map<BlockId, seq<BlockId>>,
                    p: Program, prom: set<Operand>, q0: Program,
                    done: set<BlockId>, b: BlockId)
    requires Context(g, idom, num, domTree, p, prom, q0) && MayWalk(g, p, done, b)
    ensures WellFormed(g) && AllReachable(g) && IdomsCorrect(g, idom) && IdomsDescend(g, idom, num)
        && DomTreeCorrect(g, idom, domTree)
    ensures b in p && b in g.succ && g.succ[b] <= p.Keys && b !in done && p.Keys == g.succ.Keys
  {
    hide UniqueDefinitions, DefinedBeforeUse, AddressesNotLoaded, PhisPlaced, LoadsInReach, DomTreeCorrect,
        IdomsDescend, IdomsCorrect;
    DominatesReflexive(g, b);
  }

  lemma ScanCode(g: Graph, idom: map<BlockId, BlockId>, p: Program, prom: set<Operand>, q0: Program,
                 code: Program, r: Record, pos: map<BlockId, nat>, done: set<BlockId>, ds: map<Operand, seq<Operand>>,
                     b: BlockId, i: nat)
    requires ScanInv(g, idom, p, prom, q0, code, r, pos, done, ds, b, i)
    ensures code.Keys == p.Keys
  {
    hide Walked, SigmaOk, Filled, StacksClean, Mixed, PartRecorded;
  }

  lemma ChildrenListed(g: Graph, idom: map<BlockId, BlockId>, domTree: map<BlockId, seq<BlockId>>, b: BlockId,
                       kids: seq<BlockId>)
    requires DomTreeCorrect(g, idom, domTree) && kids == if b in domTree then domTree[b] else []
    ensures forall k :: 0 <= k < |kids| ==> kids[k] in idom && kids[k] != g.entry && idom[kids[k]] == b
    ensures forall k, l :: 0 <= k < l < |kids| ==> kids[k] != kids[l]
  {
  }

  lemma ChildEntry(g: Graph, idom: map<BlockId, BlockId>, p: Program, r: Record, s: Stacks, b: BlockId, c: BlockId)
    requires c in idom && c != g.entry && idom[c] == b && Recorded(p, r, b) && s == AtEnd(p, r, b)
    ensures StacksAtEntry(g, idom, p, r, s, c)
  {
  }

  // ----- the whole walk -----

  lemma StartProgress(p: Program, prom: set<Operand>, q0: Program, pos: map<BlockId, nat>)
    requires (forall b :: b in p ==> b in q0 && q0[b].body == p[b].body) && q0.Keys == p.Keys
        && pos == map b | b in p :: 0
    ensures Progress(p, prom, q0, q0, map[], pos)
  {
    hide Mixed;
    forall b | b in p
      ensures q0[b].body == Mixed(prom, map[], p[b].body, pos[b])
    {
      MixedEnds(prom, map[], p[b].body);
      NothingSubstituted(p[b].body);
    }
  }

  lemma StartRecord(g: Graph, idom: map<BlockId, BlockId>, p: Program, prom: set<Operand>, q0: Program,
                    pos: map<BlockId, nat>, floats: set<Operand>)
    requires pos == map b | b in p :: 0
    ensures Walked(g, idom, p, prom, q0, Record(map[], map[], map[], floats), {}) && SigmaOk(p, prom, map[], pos)
    ensures Filled(g, p, q0, Record(map[], map[], map[], floats), {}) && Positions(p, pos, {}, {})
  {
  }

  lemma StartStacks(g: Graph, idom: map<BlockId, BlockId>, p: Program, prom: set<Operand>, floats: set<Operand>)
    requires WellFormed(g) && g.entry in p
    ensures MayWalk(g, p, {}, g.entry) && StacksAtEntry(g, idom, p, Record(map[], map[], map[], floats),
        Normal(prom, map[]),
        g.entry)
    ensures StacksClean(p, prom, Normal(prom, map[]))
  {
    forall x | StrictlyDominates(g, x, g.entry)
      ensures false
    {
      OnlyEntryDominatesEntry(g, x);
    }
  }

  /** The walk starts with nothing recorded and nothing replaced. */
  lemma WalkStarts(g: Graph, idom: map<BlockId, BlockId>, p: Program, prom: set<Operand>, q0: Program,
                   pos: map<BlockId, nat>, floats: set<Operand>)
    requires WellFormed(g) && g.entry in p && (forall b :: b in p ==> b in q0 && q0[b].body == p[b].body)
        && q0.Keys == p.Keys
    requires pos == map b | b in p :: 0
    ensures WalkInv(g, idom, p, prom, q0, q0, Record(map[], map[], map[], floats), pos, {}, {})
    ensures MayWalk(g, p, {}, g.entry) && StacksAtEntry(g, idom, p, Record(map[], map[], map[], floats),
        Normal(prom, map[]),
        g.entry)
    ensures StacksClean(p, prom, Normal(prom, map[]))
  {
    hide Progress, Walked, SigmaOk, Filled, Positions;
    StartProgress(p, prom, q0, pos);
    StartRecord(g, idom, p, prom, q0, pos, floats);
    StartStacks(g, idom, p, prom, floats);
  }

  lemma WalkBegins(g: Graph, idom: map<BlockId, BlockId>, num: map<BlockId, nat>, domTree: map<BlockId, seq<BlockId>>,
                   p: Program, prom: set<Operand>, q0: Program, pos: map<BlockId, nat>, floats: set<Operand>)
    requires Context(g, idom, num, domTree, p, prom, q0) && g.entry in p && q0.Keys == p.Keys
    requires (forall b :: b in p ==> q0[b].body == p[b].body) && pos == map b | b in p :: 0
    ensures WalkInv(g, idom, p, prom, q0, q0, Record(map[], map[], map[], floats), pos, {}, {})
    ensures MayWalk(g, p, {}, g.entry)
    ensures StacksAtEntry(g, idom, p, Record(map[], map[], map[], floats), Normal(prom, map[]), g.entry)
    ensures StacksClean(p, prom, Normal(prom, map[]))
  {
    hide *;
    ContextFacts(g, idom, num, domTree, p, prom, q0);
    WalkStarts(g, idom, p, prom, q0, pos, floats);
  }

  lemma CompleteBlock(g: Graph, idom: map<BlockId, BlockId>, p: Program, prom: set<Operand>, q0: Program,
                      code: Program, r: Record, pos: map<BlockId, nat>, done: set<BlockId>, b: BlockId)
    requires WellFormed(g) && WalkInv(g, idom, p, prom, q0, code, r, pos, done, {}) && b in p && b in done
    ensures b in code && code[b].body == Kept(prom, r.sigma, p[b].body) && BlockRecorded(p, prom, code[b].phis, r, b)
        && Recorded(p, r, b)
    ensures b == g.entry ==> b in r.entry && forall v :: Stack(r.entry[b], v) == []
    ensures b != g.entry ==>
        b in r.entry && b in idom && idom[b] in p && Recorded(p, r, idom[b])
        && r.entry[b] == AtEnd(p, r, idom[b])
  {
    hide Mixed, SigmaOk, Filled, StepRecorded;
    MixedEnds(prom, r.sigma, p[b].body);
    assert BlockWalked(g, idom, p, prom, q0, r, done, b);
    RecordedShape(p, prom, q0[b].phis, code[b].phis, r, b);
  }

  lemma CompleteRest(g: Graph, idom: map<BlockId, BlockId>, p: Program, prom: set<Operand>, q0: Program,
                     code: Program, r: Record, pos: map<BlockId, nat>, done: set<BlockId>)
    requires WellFormed(g) && p.Keys == g.succ.Keys && WalkInv(g, idom, p, prom, q0, code, r, pos, done, {})
        && PhisPlaced(g, p, prom, q0)
    requires forall b :: b in p ==> b in done
    ensures PhisPlaced(g, p, prom, code) && PhisFilled(g, p, code, r) && (forall o ::
        o in r.sigma
        ==> IsLoadResult(p, prom, o))
  {
    hide Mixed, Walked, SigmaOk, Filled, PhisPlaced, PhisFilled, SamePhiShape;
    PlacedShape(g, p, prom, q0, code);
    CompleteFilled(g, p, code, r, done);
    CompleteSigma(p, prom, r.sigma, pos);
  }

  lemma ContextFacts(g: Graph, idom: map<BlockId, BlockId>, num: map<BlockId, nat>, domTree: map<BlockId, seq<BlockId>>,
                     p: Program, prom: set<Operand>, q0: Program)
    requires Context(g, idom, num, domTree, p, prom, q0)
    ensures WellFormed(g) && AllReachable(g) && g.pred[g.entry] == {} && IdomsCorrect(g, idom)
        && IdomsDescend(g, idom, num)
    ensures SsaInput(g, p, prom) && PhisPlaced(g, p, prom, q0) && p.Keys == g.succ.Keys && g.entry in p
  {
  }

  /** The walk ends with the whole program renamed. */
  lemma WalkComplete(g: Graph, idom: map<BlockId, BlockId>, num: map<BlockId, nat>, domTree: map<BlockId, seq<BlockId>>,
                     p: Program, prom: set<Operand>, q0: Program,
                     code: Program, r: Record, pos: map<BlockId, nat>, done: set<BlockId>)
    requires Context(g, idom, num, domTree, p, prom, q0) && WalkInv(g, idom, p, prom, q0, code, r, pos, done, {})
    requires forall x :: x in done <==> (x in p && Dominates(g, g.entry, x))
    ensures Setting(g, idom, num, p, prom, code, r)
  {
    hide Context, WalkInv, PhisPlaced, PhisFilled, BlockRecorded, Dominates, WellFormed, AllReachable, IdomsCorrect,
        IdomsDescend, SsaInput, Kept, Recorded;
    ContextFacts(g, idom, num, domTree, p, prom, q0);
    forall b | b in p
      ensures b in done
    {
      EntryDominates(g, b);
    }
    CompleteRest(g, idom, p, prom, q0, code, r, pos, done);
    forall b | b in p
      ensures b in code && code[b].body == Kept(prom, r.sigma, p[b].body) && BlockRecorded(p, prom, code[b].phis, r, b)
      ensures b == g.entry ==> b in r.entry && forall v :: Stack(r.entry[b], v) == []
      ensures b != g.entry ==>
          b in r.entry && b in idom && idom[b] in p && Recorded(p, r, idom[b])
          && r.entry[b] == AtEnd(p, r, idom[b])
    {
      CompleteBlock(g, idom, p, prom, q0, code, r, pos, done, b);
    }
  }

  lemma {:induction false} PushSameShape(s: Stacks, phis: seq<Phi>, phis': seq<Phi>)
    requires SamePhiShape(phis, phis')
    ensures PushPhis(s, phis) == PushPhis(s, phis')
  {
    if phis != [] {
      PushSameShape(s, phis[..|phis| - 1], phis'[..|phis| - 1]);
    }
  }

  lemma RecordedShape(p: Program, prom: set<Operand>, phis: seq<Phi>, phis': seq<Phi>, r: Record, b: BlockId)
    requires BlockRecorded(p, prom, phis, r, b) && SamePhiShape(phis, phis')
    ensures BlockRecorded(p, prom, phis', r, b)
  {
    PushSameShape(r.entry[b], phis, phis');
  }

  lemma PlacedShape(g: Graph, p: Program, prom: set<Operand>, q0: Program, code: Program)
    requires PhisPlaced(g, p, prom, q0) && code.Keys == q0.Keys && (forall b ::
        b in code
        ==> SamePhiShape(q0[b].phis, code[b].phis))
    ensures PhisPlaced(g, p, prom, code)
  {
    forall b, v
      ensures PhiFor(code, b, v) <==> PhiFor(q0, b, v)
      ensures IsPhiResult(code, b, v) <==> IsPhiResult(q0, b, v)
    {
      assert b in code ==> SamePhiShape(q0[b].phis, code[b].phis);
      if PhiFor(q0, b, v) {
        var k :| 0 <= k < |q0[b].phis| && q0[b].phis[k].variable == v;
        assert code[b].phis[k].variable == v;
      }
      if IsPhiResult(q0, b, v) {
        var k :| 0 <= k < |q0[b].phis| && q0[b].phis[k].dst == v;
        assert code[b].phis[k].dst == v;
      }
    }
    PlacedNames(g, p, prom, q0, code);
  }

  lemma PlacedNames(g: Graph, p: Program, prom: set<Operand>, q0: Program, code: Program)
    requires PhisPlaced(g, p, prom, q0) && code.Keys == q0.Keys && (forall b ::
        b in code
        ==> SamePhiShape(q0[b].phis, code[b].phis))
    ensures forall b, k :: b in code && 0 <= k < |code[b].phis| ==>
        code[b].phis[k].variable in prom
        && code[b].phis[k].dst.Id?
    ensures forall b, k, l ::
        b in code && 0 <= k < l < |code[b].phis|
        ==> code[b].phis[k].variable != code[b].phis[l].variable
    ensures forall b, k, c, l ::
        b in code && c in code && 0 <= k < |code[b].phis| && 0 <= l < |code[c].phis|
        && code[b].phis[k].dst == code[c].phis[l].dst
        ==> b == c && k == l
  {
    hide PhiFor, IsPhiResult, InFrontier, StoresTo;
  }

  lemma CompleteFilled(g: Graph, p: Program, code: Program, r: Record, done: set<BlockId>)
    requires WellFormed(g) && p.Keys == g.succ.Keys && Filled(g, p, code, r, done) && (forall b :: b in p ==> b in done)
    ensures PhisFilled(g, p, code, r)
  {
    forall a, b, k | Edge(g, a, b) && b in code && 0 <= k < |code[b].phis| && Recorded(p, r, a)
      ensures a in code[b].phis[k].srcs
      ensures var v := code[b].phis[k].variable;
              Replaces(Stack(AtEnd(p, r, a), v), v in r.floats, code[b].phis[k].srcs[a])
    {
      assert FilledFrom(g, p, code, r, a);
    }
  }

  lemma CompleteSigma(p: Program, prom: set<Operand>, sigma: map<Operand, Operand>, pos: map<BlockId, nat>)
    requires SigmaOk(p, prom, sigma, pos)
    ensures forall o :: o in sigma ==> IsLoadResult(p, prom, o)
  {
  }

  /** Nothing promoted is left in the program. */
  lemma {:induction false} NothingPromotedKept(prom: set<Operand>, sigma: map<Operand, Operand>, body: seq<Instr>)
    ensures forall ins :: ins in Kept(prom, sigma, body) ==> !Promoted(prom, ins)
  {
    if body != [] {
      NothingPromotedKept(prom, sigma, body[..|body| - 1]);
    }
  }

  /** Original and renamed program run alike, whatever the instructions mean, along every path on which
      promoted variables are stored to before they are loaded. */
  ghost predicate SameRuns(g: Graph, prom: set<Operand>, p: Program, q: Program) {
    && q.Keys == p.Keys
    && forall m: Machine, path: seq<BlockId>, b: BlockId, init: State ::
         IsPath(g, path, g.entry, b) && (forall x :: x in path ==> x in p) && |path| > 0 && init.mem == map[]
         && StoresFirst(prom, p, path) ==>
           Run(m, prom, p, path, init).trace == Run(m, prom, q, path, init).trace &&
           Run(m, prom, p, path, init).world == Run(m, prom, q, path, init).world
  }

  lemma RenamedRunsSame(g: Graph, idom: map<BlockId, BlockId>, num: map<BlockId, nat>, p: Program, prom: set<Operand>,
                        q: Program, r: Record, original: Program)
    requires g.entry in original && p == EntryCleared(g, prom, original) && Setting(g, idom, num, p, prom, q, r)
    ensures SameRuns(g, prom, original, q)
  {
    hide Run, StoresFirst, WithoutAllocas;
    SettingInput(g, idom, num, p, prom, q, r);
    hide Setting, EntryCleared, IsPath;
    ClearedKeys(g, prom, original);
    forall m: Machine, path: seq<BlockId>, b: BlockId, init: State | IsPath(g, path, g.entry, b)
        && (forall x :: x in path ==> x in original) && |path| > 0 && init.mem == map[]
        && StoresFirst(prom, original, path)
      ensures Run(m, prom, original, path, init).trace == Run(m, prom, q, path, init).trace
      ensures Run(m, prom, original, path, init).world == Run(m, prom, q, path, init).world
    {
      RunCleared(g, m, prom, original, path, init);
      StoresFirstCleared(g, prom, original, path);
      RenamingPreservesRuns(g, idom, num, p, prom, q, r, m, path, b, init);
    }
  }

  lemma ClearedKeys(g: Graph, prom: set<Operand>, original: Program)
    requires g.entry in original
    ensures EntryCleared(g, prom, original).Keys == original.Keys
  {
  }
}
