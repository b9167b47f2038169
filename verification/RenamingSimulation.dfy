/** The simulation behind SSA renaming: at every point of every run the renamed program has, in the
    operand on top of each variable's stack, the value last stored to that variable. */
module RenamingSimulation {
  import opened ControlFlowGraph
  import opened SsaProgram
  import opened ControlFlowAnalysis
  import opened Renaming

  ghost predicate IsPhiOperand(q: Program, o: Operand) {
    exists b :: IsPhiResult(q, b, o)
  }

  /** Operands that both programs define hold the same value. */
  ghost predicate SamePlain(p: Program, prom: set<Operand>, q: Program, s: State, s': State) {
    forall o :: !IsLoadResult(p, prom, o) && !IsPhiOperand(q, o) ==> Val(s.env, o) == Val(s'.env, o)
  }

  /** What replaces the result of a load that comes before this point has the value that was loaded. */
  ghost predicate SameLoads(g: Graph, p: Program, prom: set<Operand>, r: Record, b: BlockId, i: nat, s: State,
                            s': State) {
    forall x, k: nat :: At(p, x, k) && PromotedLoad(prom, p[x].body[k]) && Before(g, x, k, b, i) ==>
      p[x].body[k].dst in r.sigma && Val(s'.env, r.sigma[p[x].body[k].dst]) == Val(s.env, p[x].body[k].dst)
  }

  /** The top of the stack of every variable stored to so far has the variable's value. */
  ghost predicate SameVariables(st: Stacks, s: State, s': State) {
    forall v :: v in s.mem ==> |Stack(st, v)| > 0 && Val(s'.env, Top(Stack(st, v))) == s.mem[v]
  }

  ghost predicate Related(g: Graph, p: Program, prom: set<Operand>, q: Program, r: Record, b: BlockId, i: nat, s: State,
                          s': State)
    requires Recorded(p, r, b) && i <= |p[b].body|
  {
    && s.trace == s'.trace && s.world == s'.world
    && SamePlain(p, prom, q, s, s')
    && SameLoads(g, p, prom, r, b, i, s, s')
    && SameVariables(r.at[b][i], s, s')
  }

  // ----- one instruction -----

  lemma {:induction false} AssignOther(m: Machine, e: Event, w: World, dsts: seq<Operand>, env: map<Operand, Value>,
                                       o: Operand)
    requires o !in dsts
    ensures Val(Assign(m, e, w, dsts, env), o) == Val(env, o)
  {
    if dsts != [] {
      AssignOther(m, e, w, dsts[..|dsts| - 1], env, o);
    }
  }

  lemma {:induction false} AssignSame(m: Machine, e: Event, w: World, dsts: seq<Operand>, env: map<Operand, Value>,
                                      env': map<Operand, Value>, o: Operand)
    requires o in dsts
    ensures Val(Assign(m, e, w, dsts, env), o) == Val(Assign(m, e, w, dsts, env'), o)
  {
    if o != dsts[|dsts| - 1] {
      assert o in dsts[..|dsts| - 1];
      AssignSame(m, e, w, dsts[..|dsts| - 1], env, env', o);
    }
  }

  /** A use reads the same value through the substitution. */
  lemma UseSame(g: Graph, idom: map<BlockId, BlockId>, num: map<BlockId, nat>, p: Program, prom: set<Operand>,
                q: Program, r: Record,
                b: BlockId, i: nat, s: State, s': State, o: Operand)
    requires Setting(g, idom, num, p, prom, q, r) && At(p, b, i) && Uses(p[b].body[i], o)
    requires SamePlain(p, prom, q, s, s') && SameLoads(g, p, prom, r, b, i, s, s')
    ensures Val(s'.env, Resolve(r.sigma, o)) == Val(s.env, o)
    ensures IsLoadResult(p, prom, o) || o !in r.sigma
  {
    hide Setting, PhisFilled, SsaInput, WellFormed, AllReachable;
    SettingInput(g, idom, num, p, prom, q, r);
    if IsLoadResult(p, prom, o) {
      var x, k := UseOfLoad(g, p, prom, o, b, i);
    } else {
      assert !IsPhiOperand(q, o);
    }
  }

  lemma AddressSame(g: Graph, idom: map<BlockId, BlockId>, num: map<BlockId, nat>, p: Program, prom: set<Operand>,
                    q: Program, r: Record,
                    b: BlockId, i: nat, s: State, s': State)
    requires Setting(g, idom, num, p, prom, q, r) && At(p, b, i) && (p[b].body[i].Load? || p[b].body[i].Store?)
    requires SamePlain(p, prom, q, s, s') && SameLoads(g, p, prom, r, b, i, s, s')
    ensures Val(s'.env, p[b].body[i].ptr) == Val(s.env, p[b].body[i].ptr)
  {
    hide Setting, SamePlain, SameLoads;
    UseSame(g, idom, num, p, prom, q, r, b, i, s, s', p[b].body[i].ptr);
    NotLoaded(g, idom, num, p, prom, q, r, b, i);
  }

  lemma NotLoaded(g: Graph, idom: map<BlockId, BlockId>, num: map<BlockId, nat>, p: Program, prom: set<Operand>,
                  q: Program, r: Record,
                  b: BlockId, i: nat)
    requires Setting(g, idom, num, p, prom, q, r) && At(p, b, i) && (p[b].body[i].Load? || p[b].body[i].Store?)
    ensures !IsLoadResult(p, prom, p[b].body[i].ptr)
  {
    SettingInput(g, idom, num, p, prom, q, r);
  }

  lemma {:induction false} ValsSame(g: Graph, idom: map<BlockId, BlockId>, num: map<BlockId, nat>, p: Program,
                                    prom: set<Operand>, q: Program, r: Record,
                                    b: BlockId, i: nat, s: State, s': State, os: seq<Operand>)
    requires Setting(g, idom, num, p, prom, q, r) && At(p, b, i) && (forall o :: o in os ==> Uses(p[b].body[i], o))
    requires SamePlain(p, prom, q, s, s') && SameLoads(g, p, prom, r, b, i, s, s')
    ensures Vals(s.env, os) == Vals(s'.env, ResolveAll(r.sigma, os))
  {
    hide Setting, SamePlain, SameLoads;
    if os != [] {
      var n := |os| - 1;
      ValsSame(g, idom, num, p, prom, q, r, b, i, s, s', os[..n]);
      UseSame(g, idom, num, p, prom, q, r, b, i, s, s', os[n]);
      assert ResolveAll(r.sigma, os)[..n] == ResolveAll(r.sigma, os[..n]);
    }
  }

  function EventOf(env: map<Operand, Value>, ins: Instr): Event {
    match ins
    case Alloca(_, t) => Event(KAlloca(t), [])
    case Load(_, ptr) => Event(KLoad, [Val(env, ptr)])
    case Store(value, ptr) => Event(KStore, [Val(env, value), Val(env, ptr)])
    case Other(op, _, srcs) => Event(KOther(op), Vals(env, srcs))
  }

  function Results(ins: Instr): (r: seq<Operand>)
    ensures forall o :: o in r <==> Defines(ins, o)
  {
    match ins
    case Alloca(dst, _) => [dst]
    case Load(dst, _) => [dst]
    case Store(_, _) => []
    case Other(_, dsts, _) => dsts
  }

  /** An instruction that stays shows the same event in both programs. */
  lemma EventSame(g: Graph, idom: map<BlockId, BlockId>, num: map<BlockId, nat>, p: Program, prom: set<Operand>,
                  q: Program, r: Record,
                  b: BlockId, i: nat, s: State, s': State)
    requires Setting(g, idom, num, p, prom, q, r) && At(p, b, i) && !Promoted(prom, p[b].body[i])
    requires SamePlain(p, prom, q, s, s') && SameLoads(g, p, prom, r, b, i, s, s')
    ensures EventOf(s.env, p[b].body[i]) == EventOf(s'.env, Substituted(r.sigma, p[b].body[i]))
  {
    hide Setting, SamePlain, SameLoads;
    match p[b].body[i]
    case Alloca(_, _) =>
    case Load(_, ptr) =>
      AddressSame(g, idom, num, p, prom, q, r, b, i, s, s');
    case Store(value, ptr) =>
      AddressSame(g, idom, num, p, prom, q, r, b, i, s, s');
      UseSame(g, idom, num, p, prom, q, r, b, i, s, s', value);
    case Other(_, _, srcs) =>
      ValsSame(g, idom, num, p, prom, q, r, b, i, s, s', srcs);
  }

  /** What replaces an earlier load, or tops a stack, is not overwritten by an instruction at this point. */
  lemma LoadNotOverwritten(g: Graph, idom: map<BlockId, BlockId>, num: map<BlockId, nat>, p: Program,
                           prom: set<Operand>, q: Program, r: Record,
                           x: BlockId, k: nat, b: BlockId, i: nat)
    requires Setting(g, idom, num, p, prom, q, r) && At(p, b, i) && At(p, x, k) && PromotedLoad(prom, p[x].body[k])
        && Before(g, x, k, b, i)
    requires p[x].body[k].dst in r.sigma
    ensures !Defines(p[b].body[i], p[x].body[k].dst) && !Defines(p[b].body[i], r.sigma[p[x].body[k].dst])
  {
    hide Setting, PhisPlaced, PhisFilled, AllAvailable, DefinedBeforeUse, AddressesNotLoaded;
    SettingInput(g, idom, num, p, prom, q, r);
    SettingStep(g, idom, num, p, prom, q, r, x, k);
    StacksAvailable(g, idom, num, p, prom, q, r, x, k);
    ReplacementAvailable(g, p, prom, q, r.at[x][k], x, k, p[x].body[k].ptr, p[x].body[k].ptr in r.floats,
        r.sigma[p[x].body[k].dst]);
    NotBothBefore(g, x, k, b, i);
    NotBothBefore(g, b, i, b, i);
    assert Defines(p[x].body[k], p[x].body[k].dst);
  }

  lemma TopNotOverwritten(g: Graph, idom: map<BlockId, BlockId>, num: map<BlockId, nat>, p: Program, prom: set<Operand>,
                          q: Program, r: Record,
                          b: BlockId, i: nat, v: Operand)
    requires Setting(g, idom, num, p, prom, q, r) && At(p, b, i) && Recorded(p, r, b) && |Stack(r.at[b][i], v)| > 0
    ensures !Defines(p[b].body[i], Top(Stack(r.at[b][i], v)))
  {
    hide Setting, AllAvailable;
    StacksAvailable(g, idom, num, p, prom, q, r, b, i);
    ElementAvailable(g, p, prom, q, r.at[b][i], b, i, v);
  }

  lemma BeforeNext(g: Graph, x: BlockId, k: nat, b: BlockId, i: nat)
    ensures Before(g, x, k, b, i + 1) <==> Before(g, x, k, b, i) || (x == b && k == i)
  {
  }

  lemma KeptPlain(p: Program, prom: set<Operand>, q: Program, m: Machine, e: Event, dsts: seq<Operand>, s: State,
                  s': State)
    requires SamePlain(p, prom, q, s, s') && s.world == s'.world
    ensures SamePlain(p, prom, q, Happen(m, e, dsts, s), Happen(m, e, dsts, s'))
  {
    hide Assign;
    AssignBoth(m, e, dsts, s, s');
    forall o | !IsLoadResult(p, prom, o) && !IsPhiOperand(q, o)
      ensures Val(Happen(m, e, dsts, s).env, o) == Val(Happen(m, e, dsts, s').env, o)
    {
      if o in dsts {
        AssignSame(m, e, s.world, dsts, s.env, s'.env, o);
      }
    }
  }

  lemma KeptLoads(g: Graph, idom: map<BlockId, BlockId>, num: map<BlockId, nat>, p: Program, prom: set<Operand>,
                  q: Program, r: Record,
                  m: Machine, e: Event, b: BlockId, i: nat, s: State, s': State)
    requires Setting(g, idom, num, p, prom, q, r) && At(p, b, i) && !PromotedLoad(prom, p[b].body[i])
    requires SameLoads(g, p, prom, r, b, i, s, s')
    ensures SameLoads(g, p, prom, r, b, i + 1, Happen(m, e, Results(p[b].body[i]), s),
        Happen(m, e, Results(p[b].body[i]), s'))
  {
    hide Setting, Assign, Before;
    var dsts := Results(p[b].body[i]);
    AssignBoth(m, e, dsts, s, s');
    forall x, k: nat | At(p, x, k) && PromotedLoad(prom, p[x].body[k]) && Before(g, x, k, b, i + 1)
      ensures p[x].body[k].dst in r.sigma
      ensures Val(Happen(m, e, dsts, s').env, r.sigma[p[x].body[k].dst]) == Val(Happen(m, e, dsts, s).env,
          p[x].body[k].dst)
    {
      BeforeNext(g, x, k, b, i);
      LoadNotOverwritten(g, idom, num, p, prom, q, r, x, k, b, i);
    }
  }

  lemma KeptVariables(g: Graph, idom: map<BlockId, BlockId>, num: map<BlockId, nat>, p: Program, prom: set<Operand>,
                      q: Program, r: Record,
                      m: Machine, e: Event, b: BlockId, i: nat, s: State, s': State)
    requires Setting(g, idom, num, p, prom, q, r) && At(p, b, i) && Recorded(p, r, b)
    requires SameVariables(r.at[b][i], s, s')
    ensures SameVariables(r.at[b][i], Happen(m, e, Results(p[b].body[i]), s), Happen(m, e, Results(p[b].body[i]), s'))
  {
    hide Setting, Assign;
    AssignBoth(m, e, Results(p[b].body[i]), s, s');
    forall v | v in s.mem
      ensures !Defines(p[b].body[i], Top(Stack(r.at[b][i], v)))
    {
      TopNotOverwritten(g, idom, num, p, prom, q, r, b, i, v);
    }
  }

  lemma ExecHappens(m: Machine, prom: set<Operand>, sigma: map<Operand, Operand>, ins: Instr, s: State)
    requires !Promoted(prom, ins)
    ensures Exec(m, prom, ins, s) == Happen(m, EventOf(s.env, ins), Results(ins), s)
    ensures Exec(m, prom, Substituted(sigma, ins), s) == Happen(m, EventOf(s.env, Substituted(sigma, ins)),
        Results(ins), s)
  {
  }

  /** An instruction that stays: both programs assign the same results. */
  lemma KeptStep(g: Graph, idom: map<BlockId, BlockId>, num: map<BlockId, nat>, p: Program, prom: set<Operand>,
                 q: Program, r: Record,
                 m: Machine, b: BlockId, i: nat, s: State, s': State)
    requires Setting(g, idom, num, p, prom, q, r) && At(p, b, i) && !Promoted(prom, p[b].body[i]) && Recorded(p, r, b)
    requires Related(g, p, prom, q, r, b, i, s, s')
    ensures Related(g, p, prom, q, r, b, i + 1, Exec(m, prom, p[b].body[i], s),
        Exec(m, prom, Substituted(r.sigma, p[b].body[i]), s'))
  {
    hide Setting, Exec, EventOf, Substituted, Results, Before, SamePlain, SameLoads, SameVariables;
    var ins := p[b].body[i];
    EventSame(g, idom, num, p, prom, q, r, b, i, s, s');
    var e := EventOf(s.env, ins);
    ExecHappens(m, prom, r.sigma, ins, s);
    ExecHappens(m, prom, r.sigma, ins, s');
    KeptPlain(p, prom, q, m, e, Results(ins), s, s');
    KeptLoads(g, idom, num, p, prom, q, r, m, e, b, i, s, s');
    KeptVariables(g, idom, num, p, prom, q, r, m, e, b, i, s, s');
    KeptStacks(g, idom, num, p, prom, q, r, b, i);
  }

  lemma AssignBoth(m: Machine, e: Event, dsts: seq<Operand>, s: State, s': State)
    ensures forall o :: o !in dsts ==>
        Val(Happen(m, e, dsts, s).env, o) == Val(s.env, o)
        && Val(Happen(m, e, dsts, s').env, o) == Val(s'.env, o)
  {
    forall o | o !in dsts
      ensures Val(Happen(m, e, dsts, s).env, o) == Val(s.env, o) && Val(Happen(m, e, dsts, s').env, o) == Val(s'.env, o)
    {
      AssignOther(m, e, s.world, dsts, s.env, o);
      AssignOther(m, e, s'.world, dsts, s'.env, o);
    }
  }

  lemma KeptStacks(g: Graph, idom: map<BlockId, BlockId>, num: map<BlockId, nat>, p: Program, prom: set<Operand>,
                   q: Program, r: Record,
                   b: BlockId, i: nat)
    requires Setting(g, idom, num, p, prom, q, r) && At(p, b, i) && !PromotedStore(prom, p[b].body[i])
    ensures Recorded(p, r, b) && r.at[b][i + 1] == r.at[b][i]
  {
    hide Setting;
    SettingStep(g, idom, num, p, prom, q, r, b, i);
  }

  lemma RemovedStore(g: Graph, idom: map<BlockId, BlockId>, num: map<BlockId, nat>, p: Program, prom: set<Operand>,
                     q: Program, r: Record,
                     m: Machine, b: BlockId, i: nat, s: State, s': State)
    requires Setting(g, idom, num, p, prom, q, r) && At(p, b, i) && PromotedStore(prom, p[b].body[i])
        && Recorded(p, r, b)
    requires Related(g, p, prom, q, r, b, i, s, s')
    ensures Related(g, p, prom, q, r, b, i + 1, Exec(m, prom, p[b].body[i], s), s')
  {
    hide Setting, Before, SamePlain, SameLoads;
    var value, v := p[b].body[i].value, p[b].body[i].ptr;
    UseSame(g, idom, num, p, prom, q, r, b, i, s, s', value);
    SettingStep(g, idom, num, p, prom, q, r, b, i);
    var t := Exec(m, prom, p[b].body[i], s);
    MemoryOnly(g, p, prom, q, r, b, i, s, t, s');
    SameLoadsNext(g, p, prom, r, b, i, t, s');
    assert r.at[b][i + 1] == Push(r.at[b][i], v, Resolve(r.sigma, value));
    forall w | w in t.mem
      ensures |Stack(r.at[b][i + 1], w)| > 0 && Val(s'.env, Top(Stack(r.at[b][i + 1], w))) == t.mem[w]
    {
      if w != v {
        assert Stack(r.at[b][i + 1], w) == Stack(r.at[b][i], w);
      }
    }
  }

  lemma MemoryOnly(g: Graph, p: Program, prom: set<Operand>, q: Program, r: Record, b: BlockId, i: nat, s: State,
                   t: State, s': State)
    requires s.env == t.env && SamePlain(p, prom, q, s, s') && SameLoads(g, p, prom, r, b, i, s, s')
    ensures SamePlain(p, prom, q, t, s') && SameLoads(g, p, prom, r, b, i, t, s')
  {
  }

  /** A promoted instruction runs only in the original program. */
  lemma RemovedStep(g: Graph, idom: map<BlockId, BlockId>, num: map<BlockId, nat>, p: Program, prom: set<Operand>,
                    q: Program, r: Record,
                    m: Machine, b: BlockId, i: nat, s: State, s': State)
    requires Setting(g, idom, num, p, prom, q, r) && At(p, b, i) && Promoted(prom, p[b].body[i]) && Recorded(p, r, b)
    requires Related(g, p, prom, q, r, b, i, s, s')
    requires PromotedLoad(prom, p[b].body[i]) ==> p[b].body[i].ptr in s.mem
    ensures Related(g, p, prom, q, r, b, i + 1, Exec(m, prom, p[b].body[i], s), s')
  {
    hide Setting, Before, SamePlain, SameLoads, SameVariables;
    match p[b].body[i]
    case Alloca(_, _) =>
      KeptStacks(g, idom, num, p, prom, q, r, b, i);
      SameLoadsNext(g, p, prom, r, b, i, s, s');
    case Load(_, _) =>
      RemovedLoad(g, idom, num, p, prom, q, r, m, b, i, s, s');
    case Store(_, _) =>
      RemovedStore(g, idom, num, p, prom, q, r, m, b, i, s, s');
    case Other(_, _, _) =>
  }

  lemma SameLoadsNext(g: Graph, p: Program, prom: set<Operand>, r: Record, b: BlockId, i: nat, s: State, s': State)
    requires SameLoads(g, p, prom, r, b, i, s, s') && At(p, b, i) && !PromotedLoad(prom, p[b].body[i])
    ensures SameLoads(g, p, prom, r, b, i + 1, s, s')
  {
    hide Before;
    forall x, k: nat | At(p, x, k) && PromotedLoad(prom, p[x].body[k]) && Before(g, x, k, b, i + 1)
      ensures Before(g, x, k, b, i)
    {
      BeforeNext(g, x, k, b, i);
    }
  }

  /** The heart of the claim: the operand that replaces a removed load has the value the variable holds. */
  lemma RemovedLoad(g: Graph, idom: map<BlockId, BlockId>, num: map<BlockId, nat>, p: Program, prom: set<Operand>,
                    q: Program, r: Record,
                    m: Machine, b: BlockId, i: nat, s: State, s': State)
    requires Setting(g, idom, num, p, prom, q, r) && At(p, b, i) && PromotedLoad(prom, p[b].body[i])
        && Recorded(p, r, b)
    requires Related(g, p, prom, q, r, b, i, s, s') && p[b].body[i].ptr in s.mem
    ensures p[b].body[i].dst in r.sigma && Val(s'.env, r.sigma[p[b].body[i].dst]) == s.mem[p[b].body[i].ptr]
    ensures Related(g, p, prom, q, r, b, i + 1, Exec(m, prom, p[b].body[i], s), s')
  {
    hide Setting, Before;
    var dst, v := p[b].body[i].dst, p[b].body[i].ptr;
    SettingStep(g, idom, num, p, prom, q, r, b, i);
    assert IsLoadResult(p, prom, dst);
    assert Defines(p[b].body[i], dst);
    SettingNames(g, idom, num, p, prom, q, r, b, i, dst);
    var t := Exec(m, prom, p[b].body[i], s);
    forall x, k: nat | At(p, x, k) && PromotedLoad(prom, p[x].body[k]) && Before(g, x, k, b, i + 1)
      ensures p[x].body[k].dst in r.sigma && Val(s'.env, r.sigma[p[x].body[k].dst]) == Val(t.env, p[x].body[k].dst)
    {
      BeforeNext(g, x, k, b, i);
      if x == b && k == i {
      } else {
        LoadNotOverwritten(g, idom, num, p, prom, q, r, x, k, b, i);
      }
    }
  }

  lemma SettingNames(g: Graph, idom: map<BlockId, BlockId>, num: map<BlockId, nat>, p: Program, prom: set<Operand>,
                     q: Program, r: Record,
                     b: BlockId, i: nat, o: Operand)
    requires Setting(g, idom, num, p, prom, q, r) && At(p, b, i) && Defines(p[b].body[i], o)
    ensures o.Id?
  {
    SettingInput(g, idom, num, p, prom, q, r);
  }

  // ----- a whole block -----

  lemma ExecBodyNext(m: Machine, prom: set<Operand>, body: seq<Instr>, i: nat, st: State)
    requires i < |body|
    ensures ExecBody(m, prom, body[..i + 1], st) == Exec(m, prom, body[i], ExecBody(m, prom, body[..i], st))
  {
    assert body[..i + 1][..i] == body[..i];
  }

  lemma KeptNext(m: Machine, prom: set<Operand>, sigma: map<Operand, Operand>, body: seq<Instr>, i: nat, st: State)
    requires i < |body|
    ensures ExecBody(m, prom, Kept(prom, sigma, body[..i + 1]), st) ==
            if Promoted(prom, body[i]) then ExecBody(m, prom, Kept(prom, sigma, body[..i]), st)
            else Exec(m, prom, Substituted(sigma, body[i]), ExecBody(m, prom, Kept(prom, sigma, body[..i]), st))
  {
    assert body[..i + 1][..i] == body[..i];
    var k := Kept(prom, sigma, body[..i]);
    if !Promoted(prom, body[i]) {
      assert (k + [Substituted(sigma, body[i])])[..|k|] == k;
    } else {
      assert k + [] == k;
    }
  }

  /** Every promoted load of the block finds its variable stored to. */
  ghost predicate LoadsStored(m: Machine, prom: set<Operand>, body: seq<Instr>, s: State) {
    forall i: nat :: i < |body| && PromotedLoad(prom, body[i]) ==> body[i].ptr in ExecBody(m, prom, body[..i], s).mem
  }

  lemma {:induction false} BlockRelated(g: Graph, idom: map<BlockId, BlockId>, num: map<BlockId, nat>, p: Program,
                                        prom: set<Operand>, q: Program, r: Record,
                                        m: Machine, b: BlockId, i: nat, s: State, s': State)
    requires Setting(g, idom, num, p, prom, q, r) && b in p && i <= |p[b].body| && Recorded(p, r, b)
    requires Related(g, p, prom, q, r, b, 0, s, s') && LoadsStored(m, prom, p[b].body, s)
    ensures Related(g, p, prom, q, r, b, i,
                    ExecBody(m, prom, p[b].body[..i], s), ExecBody(m, prom, Kept(prom, r.sigma, p[b].body[..i]), s'))
  {
    hide Setting, Related, ExecBody, Exec, Kept, Substituted;
    if i == 0 {
      NothingRun(m, prom, r.sigma, p[b].body, s, s');
    } else {
      BlockRelated(g, idom, num, p, prom, q, r, m, b, i - 1, s, s');
      ExecBodyNext(m, prom, p[b].body, i - 1, s);
      KeptNext(m, prom, r.sigma, p[b].body, i - 1, s');
      var t, t' := ExecBody(m, prom, p[b].body[..i - 1], s), ExecBody(m, prom, Kept(prom, r.sigma, p[b].body[..i - 1]),
          s');
      if Promoted(prom, p[b].body[i - 1]) {
        RemovedStep(g, idom, num, p, prom, q, r, m, b, i - 1, t, t');
      } else {
        KeptStep(g, idom, num, p, prom, q, r, m, b, i - 1, t, t');
      }
    }
  }

  lemma NothingRun(m: Machine, prom: set<Operand>, sigma: map<Operand, Operand>, body: seq<Instr>, s: State, s': State)
    ensures ExecBody(m, prom, body[..0], s) == s && ExecBody(m, prom, Kept(prom, sigma, body[..0]), s') == s'
  {
  }

  // ----- entering a block -----

  lemma {:induction false} PhiValueOf(phis: seq<Phi>, from: BlockId, env: map<Operand, Value>, k: nat)
    requires k < |phis| && from in phis[k].srcs
    requires forall a, b :: 0 <= a < b < |phis| ==> phis[a].dst != phis[b].dst
    ensures phis[k].dst in PhiValues(phis, from, env) && PhiValues(phis, from, env)[phis[k].dst] == Val(env,
        phis[k].srcs[from])
  {
    if k < |phis| - 1 {
      PhiValueOf(phis[..|phis| - 1], from, env, k);
    }
  }

  lemma PhiResultsDistinct(g: Graph, p: Program, prom: set<Operand>, q: Program, b: BlockId)
    requires PhisPlaced(g, p, prom, q) && b in q
    ensures forall a, c :: 0 <= a < c < |q[b].phis| ==> q[b].phis[a].dst != q[b].phis[c].dst
  {
  }

  lemma EnterOther(q: Program, b: BlockId, from: BlockId, s: State, o: Operand)
    requires b in q && !IsPhiResult(q, b, o)
    ensures Val(Enter(q[b], from, s).env, o) == Val(s.env, o)
  {
  }

  /** The stack on top of which a phi was pushed. */
  lemma {:induction false} PushPhisTop(s: Stacks, phis: seq<Phi>, k: nat)
    requires k < |phis|
    requires forall a, b :: 0 <= a < b < |phis| ==> phis[a].variable != phis[b].variable
    ensures Stack(PushPhis(s, phis), phis[k].variable) == Stack(s, phis[k].variable) + [phis[k].dst]
  {
    var n := |phis| - 1;
    if k < n {
      PushPhisTop(s, phis[..n], k);
    } else {
      PushPhisOther(s, phis[..n], phis[n].variable);
    }
  }

  lemma {:induction false} PushPhisOther(s: Stacks, phis: seq<Phi>, v: Operand)
    requires forall a :: 0 <= a < |phis| ==> phis[a].variable != v
    ensures Stack(PushPhis(s, phis), v) == Stack(s, v)
  {
    if phis != [] {
      PushPhisOther(s, phis[..|phis| - 1], v);
    }
  }

  lemma {:induction false} UntouchedInBlock(g: Graph, idom: map<BlockId, BlockId>, num: map<BlockId, nat>, p: Program,
                                            prom: set<Operand>, q: Program, r: Record,
                                            x: BlockId, i: nat, v: Operand)
    requires Setting(g, idom, num, p, prom, q, r) && x in p && i <= |p[x].body| && !StoresTo(p, x, v)
        && !PhiFor(q, x, v)
    ensures Recorded(p, r, x) && Stack(r.at[x][i], v) == Stack(r.entry[x], v)
  {
    hide Setting, StepRecorded;
    SettingBlock(g, idom, num, p, prom, q, r, x);
    if i == 0 {
      PushPhisOther(r.entry[x], q[x].phis, v);
    } else {
      UntouchedInBlock(g, idom, num, p, prom, q, r, x, i - 1, v);
      UntouchedStep(g, idom, num, p, prom, q, r, x, i - 1, v);
    }
  }

  lemma UntouchedStep(g: Graph, idom: map<BlockId, BlockId>, num: map<BlockId, nat>, p: Program, prom: set<Operand>,
                      q: Program, r: Record,
                      x: BlockId, i: nat, v: Operand)
    requires Setting(g, idom, num, p, prom, q, r) && At(p, x, i) && !StoresTo(p, x, v)
    ensures Recorded(p, r, x) && Stack(r.at[x][i + 1], v) == Stack(r.at[x][i], v)
  {
    hide Setting;
    SettingStep(g, idom, num, p, prom, q, r, x, i);
    assert !(p[x].body[i].Store? && p[x].body[i].ptr == v);
  }

  /** Without a phi for `v` in `b`, nothing between the immediate dominator of `b` and a predecessor of
      `b` touches `v`: any block in between would have `b` in its frontier. */
  lemma {:induction false} StackAtPred(g: Graph, idom: map<BlockId, BlockId>, num: map<BlockId, nat>, p: Program,
                                       prom: set<Operand>, q: Program, r: Record,
                                       a: BlockId, b: BlockId, x: BlockId, v: Operand)
    requires Setting(g, idom, num, p, prom, q, r) && Edge(g, a, b) && b in p && b != g.entry && b in idom && v in prom
        && !PhiFor(q, b, v)
    requires x in p && Dominates(g, x, a) && Dominates(g, idom[b], x)
    ensures Recorded(p, r, x) && Recorded(p, r, idom[b])
    ensures Stack(AtEnd(p, r, x), v) == Stack(AtEnd(p, r, idom[b]), v)
    decreases if x in num then num[x] else 0
  {
    hide Setting, PhisFilled, WellFormed, AllReachable, Dominates, InFrontier, Recorded;
    SettingBlock(g, idom, num, p, prom, q, r, b);
    SettingBlock(g, idom, num, p, prom, q, r, x);
    RecordedBlock(p, prom, q, r, x);
    if x != idom[b] {
      BetweenInFrontier(g, idom, num, p, prom, q, r, a, b, x);
      NoTouch(g, p, prom, q, x, b, v);
      UntouchedInBlock(g, idom, num, p, prom, q, r, x, |p[x].body|, v);
      StackAtPred(g, idom, num, p, prom, q, r, a, b, idom[x], v);
    }
  }

  lemma RecordedBlock(p: Program, prom: set<Operand>, q: Program, r: Record, x: BlockId)
    requires x in q && BlockRecorded(p, prom, q[x].phis, r, x)
    ensures Recorded(p, r, x)
  {
  }

  lemma NoTouch(g: Graph, p: Program, prom: set<Operand>, q: Program, x: BlockId, b: BlockId, v: Operand)
    requires PhisPlaced(g, p, prom, q) && InFrontier(g, x, b) && v in prom && !PhiFor(q, b, v)
    ensures !StoresTo(p, x, v) && !PhiFor(q, x, v)
  {
  }

  lemma BetweenInFrontier(g: Graph, idom: map<BlockId, BlockId>, num: map<BlockId, nat>, p: Program, prom: set<Operand>,
                          q: Program, r: Record,
                          a: BlockId, b: BlockId, x: BlockId)
    requires Setting(g, idom, num, p, prom, q, r) && Edge(g, a, b) && b in p && b != g.entry && b in idom && x in p
    requires Dominates(g, x, a) && Dominates(g, idom[b], x) && x != idom[b]
    ensures InFrontier(g, x, b)
    ensures x != g.entry && x in idom && idom[x] in p && Dominates(g, idom[x], a) && Dominates(g, idom[b], idom[x])
  {
    hide Renamed, SsaInput;
    SettingInput(g, idom, num, p, prom, q, r);
    if x == g.entry {
      OnlyEntryDominatesEntry(g, idom[b]);
    }
    assert IsImmediateDominator(g, idom[b], b) && IsImmediateDominator(g, idom[x], x);
    if StrictlyDominates(g, x, b) {
      DominatesAntisymmetric(g, idom[b], x);
    }
    DominatesTransitive(g, idom[x], x, a);
    assert StrictlyDominates(g, idom[b], x);
  }

  lemma EnterLoads(g: Graph, idom: map<BlockId, BlockId>, num: map<BlockId, nat>, p: Program, prom: set<Operand>,
                   q: Program, r: Record,
                   a: BlockId, b: BlockId, x: BlockId, k: nat, s: State, s': State)
    requires Setting(g, idom, num, p, prom, q, r) && Edge(g, a, b) && a in p && b in p
    requires SameLoads(g, p, prom, r, a, |p[a].body|, s, s')
    requires At(p, x, k) && PromotedLoad(prom, p[x].body[k]) && Before(g, x, k, b, 0)
    ensures p[x].body[k].dst in r.sigma
    ensures Val(Enter(q[b], a, s').env, r.sigma[p[x].body[k].dst]) == Val(s.env, p[x].body[k].dst)
  {
    hide Setting, PhisPlaced, PhisFilled, SsaInput, AllAvailable, PhiValues;
    SettingInput(g, idom, num, p, prom, q, r);
    SettingBlock(g, idom, num, p, prom, q, r, b);
    BeforeAtPred(g, x, k, a, |p[a].body|, b);
    SettingStep(g, idom, num, p, prom, q, r, x, k);
    StacksAvailable(g, idom, num, p, prom, q, r, x, k);
    var e := r.sigma[p[x].body[k].dst];
    ReplacementAvailable(g, p, prom, q, r.at[x][k], x, k, p[x].body[k].ptr, p[x].body[k].ptr in r.floats, e);
    if IsPhiResult(q, b, e) {
      DominatesAntisymmetric(g, x, b);
      assert false;
    }
    EnterOther(q, b, a, s', e);
  }

  lemma EnterVariable(g: Graph, idom: map<BlockId, BlockId>, num: map<BlockId, nat>, p: Program, prom: set<Operand>,
                      q: Program, r: Record,
                      a: BlockId, b: BlockId, v: Operand, s: State, s': State)
    requires Setting(g, idom, num, p, prom, q, r) && Edge(g, a, b) && a in p && b in p && b != g.entry
    requires Recorded(p, r, a) && Recorded(p, r, b) && v in prom && v in s.mem
    requires SameVariables(AtEnd(p, r, a), s, s')
    ensures |Stack(r.at[b][0], v)| > 0 && Val(Enter(q[b], a, s').env, Top(Stack(r.at[b][0], v))) == s.mem[v]
  {
    hide Setting, PhisPlaced, SsaInput, WellFormed, AllReachable, StepRecorded;
    SettingInput(g, idom, num, p, prom, q, r);
    SettingBlock(g, idom, num, p, prom, q, r, b);
    if PhiFor(q, b, v) {
      hide BlockRecorded;
      EnterPhi(g, p, prom, q, r, a, b, v, s');
    } else {
      EnterUntouched(g, idom, num, p, prom, q, r, a, b, v, s');
    }
  }

  lemma EnterPhi(g: Graph, p: Program, prom: set<Operand>, q: Program, r: Record, a: BlockId, b: BlockId, v: Operand,
                 s': State)
    requires PhisPlaced(g, p, prom, q) && PhisFilled(g, p, q, r) && Edge(g, a, b) && b in q && PhiFor(q, b, v)
    requires Recorded(p, r, a) && |Stack(AtEnd(p, r, a), v)| > 0 && BlockRecorded(p, prom, q[b].phis, r, b)
    ensures |Stack(r.at[b][0], v)| > 0
    ensures Val(Enter(q[b], a, s').env, Top(Stack(r.at[b][0], v))) == Val(s'.env, Top(Stack(AtEnd(p, r, a), v)))
  {
    hide PhisPlaced, StepRecorded;
    var k :| 0 <= k < |q[b].phis| && q[b].phis[k].variable == v;
    PhiResultsDistinct(g, p, prom, q, b);
    PhiNamed(g, p, prom, q, b, k);
    PushPhisTop(r.entry[b], q[b].phis, k);
    PhiValueOf(q[b].phis, a, s'.env, k);
  }

  lemma PhiNamed(g: Graph, p: Program, prom: set<Operand>, q: Program, b: BlockId, k: nat)
    requires PhisPlaced(g, p, prom, q) && b in q && k < |q[b].phis|
    ensures q[b].phis[k].dst.Id?
    ensures forall a, c :: 0 <= a < c < |q[b].phis| ==> q[b].phis[a].variable != q[b].phis[c].variable
  {
  }

  lemma EnterUntouched(g: Graph, idom: map<BlockId, BlockId>, num: map<BlockId, nat>, p: Program, prom: set<Operand>,
                       q: Program, r: Record,
                       a: BlockId, b: BlockId, v: Operand, s': State)
    requires Setting(g, idom, num, p, prom, q, r) && Edge(g, a, b) && a in p && b in p && b != g.entry
    requires Recorded(p, r, a) && Recorded(p, r, b) && v in prom && !PhiFor(q, b, v) && |Stack(AtEnd(p, r, a), v)| > 0
    ensures Stack(r.at[b][0], v) == Stack(AtEnd(p, r, a), v)
    ensures Val(Enter(q[b], a, s').env, Top(Stack(r.at[b][0], v))) == Val(s'.env, Top(Stack(r.at[b][0], v)))
  {
    hide Setting, PhisPlaced, PhisFilled, SsaInput, AllAvailable, PhiValues, StepRecorded;
    SettingInput(g, idom, num, p, prom, q, r);
    SettingBlock(g, idom, num, p, prom, q, r, b);
    var d := idom[b];
    StrictDominatorOfPred(g, d, a, b);
    DominatesReflexive(g, a);
    StackAtPred(g, idom, num, p, prom, q, r, a, b, a, v);
    PushPhisOther(r.entry[b], q[b].phis, v);
    StacksAvailable(g, idom, num, p, prom, q, r, d, |p[d].body|);
    ElementAvailable(g, p, prom, q, AtEnd(p, r, d), d, |p[d].body|, v);
    var e := Top(Stack(r.at[b][0], v));
    if IsPhiResult(q, b, e) {
      DominatesAntisymmetric(g, d, b);
      assert false;
    }
    EnterOther(q, b, a, s', e);
  }

  /** Crossing an edge: the phis take the tops of the predecessor's stacks, all at once. */
  lemma EnterRelated(g: Graph, idom: map<BlockId, BlockId>, num: map<BlockId, nat>, p: Program, prom: set<Operand>,
                     q: Program, r: Record,
                     a: BlockId, b: BlockId, s: State, s': State)
    requires Setting(g, idom, num, p, prom, q, r) && Edge(g, a, b) && a in p && b in p && Recorded(p, r, a)
        && Recorded(p, r, b)
    requires Related(g, p, prom, q, r, a, |p[a].body|, s, s') && s.mem.Keys <= prom
    ensures Related(g, p, prom, q, r, b, 0, Enter(p[b], a, s), Enter(q[b], a, s'))
  {
    hide Setting, PhiValues, PhisPlaced, PhisFilled;
    SettingInput(g, idom, num, p, prom, q, r);
    assert b != g.entry;
    assert Enter(p[b], a, s) == s by { NoPhis(g, p, prom, b, a, s); }
    forall o | !IsLoadResult(p, prom, o) && !IsPhiOperand(q, o)
      ensures Val(s.env, o) == Val(Enter(q[b], a, s').env, o)
    {
      EnterOther(q, b, a, s', o);
    }
    forall x, k: nat | At(p, x, k) && PromotedLoad(prom, p[x].body[k]) && Before(g, x, k, b, 0)
      ensures p[x].body[k].dst in r.sigma
      ensures Val(Enter(q[b], a, s').env, r.sigma[p[x].body[k].dst]) == Val(s.env, p[x].body[k].dst)
    {
      EnterLoads(g, idom, num, p, prom, q, r, a, b, x, k, s, s');
    }
    forall v | v in s.mem
      ensures |Stack(r.at[b][0], v)| > 0 && Val(Enter(q[b], a, s').env, Top(Stack(r.at[b][0], v))) == s.mem[v]
    {
      EnterVariable(g, idom, num, p, prom, q, r, a, b, v, s, s');
    }
  }

  lemma NoPhis(g: Graph, p: Program, prom: set<Operand>, b: BlockId, a: BlockId, s: State)
    requires SsaInput(g, p, prom) && b in p
    ensures Enter(p[b], a, s) == s
  {
    assert PhiValues(p[b].phis, a, s.env) == map[];
  }

  // ----- whole runs -----

  /** The variables stored to in the first `i` instructions. */
  function StoredIn(prom: set<Operand>, body: seq<Instr>): set<Operand> {
    if body == [] then {}
    else StoredIn(prom, body[..|body| - 1]) + if PromotedStore(prom, body[|body| - 1]) then {body[|body| - 1].ptr}
        else {}
  }

  function StoredAlong(prom: set<Operand>, p: Program, path: seq<BlockId>): set<Operand>
    requires forall b :: b in path ==> b in p
  {
    if path == [] then {} else StoredAlong(prom, p, path[..|path| - 1]) + StoredIn(prom, p[path[|path| - 1]].body)
  }

  /** Every promoted load of the body comes after a store to its variable, in the body or before. */
  ghost predicate LoadsAfterStores(prom: set<Operand>, stored: set<Operand>, body: seq<Instr>) {
    forall i: nat :: i < |body| && PromotedLoad(prom, body[i]) ==> body[i].ptr in stored + StoredIn(prom, body[..i])
  }

  /** So does every promoted load along the path. */
  ghost predicate StoresFirst(prom: set<Operand>, p: Program, path: seq<BlockId>)
    requires forall b :: b in path ==> b in p
  {
    path == []
    || (var n := |path| - 1;
        StoresFirst(prom, p, path[..n])
        && LoadsAfterStores(prom, StoredAlong(prom, p, path[..n]), p[path[n]].body))
  }

  lemma {:induction false} BodyStores(m: Machine, prom: set<Operand>, body: seq<Instr>, s: State)
    ensures ExecBody(m, prom, body, s).mem.Keys == s.mem.Keys + StoredIn(prom, body)
  {
    if body != [] {
      BodyStores(m, prom, body[..|body| - 1], s);
    }
  }

  lemma {:induction false} RunStores(m: Machine, prom: set<Operand>, p: Program, path: seq<BlockId>, init: State)
    requires |path| > 0 && (forall b :: b in path ==> b in p)
    ensures Arrive(m, prom, p, path, init).mem.Keys == init.mem.Keys + StoredAlong(prom, p, path[..|path| - 1])
    ensures Run(m, prom, p, path, init).mem.Keys == init.mem.Keys + StoredAlong(prom, p, path)
  {
    if |path| > 1 {
      RunStores(m, prom, p, path[..|path| - 1], init);
    }
    BodyStores(m, prom, p[path[|path| - 1]].body, Arrive(m, prom, p, path, init));
  }

  lemma {:induction false} StoredInPromoted(prom: set<Operand>, body: seq<Instr>)
    ensures StoredIn(prom, body) <= prom
  {
    if body != [] {
      StoredInPromoted(prom, body[..|body| - 1]);
    }
  }

  lemma {:induction false} StoredAlongPromoted(prom: set<Operand>, p: Program, path: seq<BlockId>)
    requires forall b :: b in path ==> b in p
    ensures StoredAlong(prom, p, path) <= prom
  {
    if path != [] {
      StoredAlongPromoted(prom, p, path[..|path| - 1]);
      StoredInPromoted(prom, p[path[|path| - 1]].body);
    }
  }

  lemma ArriveStored(g: Graph, p: Program, prom: set<Operand>, m: Machine, path: seq<BlockId>, b: BlockId, init: State)
    requires WellFormed(g) && p.Keys == g.succ.Keys && IsPath(g, path, g.entry, b)
    requires (forall x :: x in path ==> x in p) && StoresFirst(prom, p, path)
    ensures |path| > 0 && path[|path| - 1] == b && b in p
    ensures LoadsStored(m, prom, p[b].body, Arrive(m, prom, p, path, init))
  {
    PathEnds(g, path, g.entry, b);
    var s := Arrive(m, prom, p, path, init);
    forall i: nat | i < |p[b].body| && PromotedLoad(prom, p[b].body[i])
      ensures p[b].body[i].ptr in ExecBody(m, prom, p[b].body[..i], s).mem
    {
      BodyStores(m, prom, p[b].body[..i], s);
      RunStores(m, prom, p, path, init);
    }
  }

  /** The start of every run. */
  lemma StartRelated(g: Graph, idom: map<BlockId, BlockId>, num: map<BlockId, nat>, p: Program, prom: set<Operand>,
                     q: Program, r: Record, s: State)
    requires Setting(g, idom, num, p, prom, q, r) && s.mem == map[]
    ensures g.entry in p && Recorded(p, r, g.entry) && Related(g, p, prom, q, r, g.entry, 0, s, s)
  {
    hide Setting, PhisPlaced, PhisFilled, UniqueDefinitions, DefinedBeforeUse;
    SettingInput(g, idom, num, p, prom, q, r);
    SettingBlock(g, idom, num, p, prom, q, r, g.entry);
    forall x, k: nat | At(p, x, k) && Before(g, x, k, g.entry, 0)
      ensures false
    {
      OnlyEntryDominatesEntry(g, x);
    }
  }

  /** In every run, on arriving at any block, original and renamed program agree. */
  lemma {:induction false} ArriveRelated(g: Graph, idom: map<BlockId, BlockId>, num: map<BlockId, nat>, p: Program,
                                         prom: set<Operand>, q: Program, r: Record,
                                         m: Machine, path: seq<BlockId>, b: BlockId, init: State)
    requires Setting(g, idom, num, p, prom, q, r) && IsPath(g, path, g.entry, b) && init.mem == map[]
    requires (forall x :: x in path ==> x in p) && StoresFirst(prom, p, path)
    ensures (forall x :: x in path ==> x in q) && b in p && Recorded(p, r, b) && |path| > 0
    ensures Related(g, p, prom, q, r, b, 0, Arrive(m, prom, p, path, init), Arrive(m, prom, q, path, init))
    ensures LoadsStored(m, prom, p[b].body, Arrive(m, prom, p, path, init))
    decreases |path|
  {
    hide Setting, Related, Recorded, LoadsStored, WellFormed, SsaInput, LoadsAfterStores, Enter, ExecBody, Kept,
        PhisPlaced;
    SettingInput(g, idom, num, p, prom, q, r);
    SsaBlocks(g, p, prom);
    PathEnds(g, path, g.entry, b);
    ArriveStored(g, p, prom, m, path, b, init);
    SettingBlock(g, idom, num, p, prom, q, r, b);
    RecordedBlock(p, prom, q, r, b);
    if |path| == 1 {
      StartRelated(g, idom, num, p, prom, q, r, init);
    } else {
      var path', a := DropLast(g, path, g.entry, b);
      assert path[..|path| - 1] == path';
      ArriveRelated(g, idom, num, p, prom, q, r, m, path', a, init);
      PathEnds(g, path', g.entry, a);
      RunRelated(g, idom, num, p, prom, q, r, m, path', a, init);
      EnterRelated(g, idom, num, p, prom, q, r, a, b, Run(m, prom, p, path', init), Run(m, prom, q, path', init)) by {
        RunStores(m, prom, p, path', init);
        StoredAlongPromoted(prom, p, path');
      }
    }
  }

  lemma SsaBlocks(g: Graph, p: Program, prom: set<Operand>)
    requires SsaInput(g, p, prom)
    ensures p.Keys == g.succ.Keys
  {
  }

  lemma RunRelated(g: Graph, idom: map<BlockId, BlockId>, num: map<BlockId, nat>, p: Program, prom: set<Operand>,
                   q: Program, r: Record,
                   m: Machine, path: seq<BlockId>, b: BlockId, init: State)
    requires Setting(g, idom, num, p, prom, q, r) && |path| > 0 && (forall x :: x in path ==> x in p && x in q)
    requires path[|path| - 1] == b && Recorded(p, r, b)
    requires Related(g, p, prom, q, r, b, 0, Arrive(m, prom, p, path, init), Arrive(m, prom, q, path, init))
    requires LoadsStored(m, prom, p[b].body, Arrive(m, prom, p, path, init))
    ensures Related(g, p, prom, q, r, b, |p[b].body|, Run(m, prom, p, path, init), Run(m, prom, q, path, init))
  {
    hide Setting, Related, LoadsStored, ExecBody, Kept, Arrive;
    SettingBlock(g, idom, num, p, prom, q, r, b);
    BlockRelated(g, idom, num, p, prom, q, r, m, b, |p[b].body|, Arrive(m, prom, p, path, init),
        Arrive(m, prom, q, path, init));
    assert p[b].body[..|p[b].body|] == p[b].body;
  }

  /** SSA renaming is correct: along every path that stores to promoted variables before it loads them,
      whatever the instructions mean, the renamed program shows the same events with the same inputs in the same order,
          and leaves the same world. */
  lemma RenamingPreservesRuns(g: Graph, idom: map<BlockId, BlockId>, num: map<BlockId, nat>, p: Program,
                              prom: set<Operand>, q: Program, r: Record,
                              m: Machine, path: seq<BlockId>, b: BlockId, init: State)
    requires Setting(g, idom, num, p, prom, q, r) && IsPath(g, path, g.entry, b) && init.mem == map[]
    requires (forall x :: x in path ==> x in p) && StoresFirst(prom, p, path)
    ensures (forall x :: x in path ==> x in q) && |path| > 0
    ensures Run(m, prom, p, path, init).trace == Run(m, prom, q, path, init).trace
    ensures Run(m, prom, p, path, init).world == Run(m, prom, q, path, init).world
  {
    hide Setting, Recorded, LoadsStored, WellFormed, StoresFirst, Run, Arrive;
    ArriveRelated(g, idom, num, p, prom, q, r, m, path, b, init);
    PathLast(g, idom, num, p, prom, q, r, path, b);
    RunRelated(g, idom, num, p, prom, q, r, m, path, b, init);
  }

  lemma PathLast(g: Graph, idom: map<BlockId, BlockId>, num: map<BlockId, nat>, p: Program, prom: set<Operand>,
                 q: Program, r: Record,
                 path: seq<BlockId>, b: BlockId)
    requires Setting(g, idom, num, p, prom, q, r) && IsPath(g, path, g.entry, b)
    ensures |path| > 0 && path[|path| - 1] == b
  {
    PathEnds(g, path, g.entry, b);
  }

  /** And at every removed load, in every run, the operand substituted for its result has the value
      of the last store to the variable. */
  lemma LoadGetsLastStore(g: Graph, idom: map<BlockId, BlockId>, num: map<BlockId, nat>, p: Program, prom: set<Operand>,
                          q: Program, r: Record,
                          m: Machine, path: seq<BlockId>, b: BlockId, i: nat, init: State)
    requires Setting(g, idom, num, p, prom, q, r) && IsPath(g, path, g.entry, b) && init.mem == map[]
    requires (forall x :: x in path ==> x in p) && StoresFirst(prom, p, path)
    requires At(p, b, i) && PromotedLoad(prom, p[b].body[i])
    ensures (forall x :: x in path ==> x in q) && |path| > 0
    ensures var s := ExecBody(m, prom, p[b].body[..i], Arrive(m, prom, p, path, init));
            var s' := ExecBody(m, prom, Kept(prom, r.sigma, p[b].body[..i]), Arrive(m, prom, q, path, init));
            && p[b].body[i].ptr in s.mem && p[b].body[i].dst in r.sigma
            && Val(s'.env, r.sigma[p[b].body[i].dst]) == s.mem[p[b].body[i].ptr]
  {
    hide Setting, Related, Recorded, WellFormed, StoresFirst, Arrive, ExecBody, Kept;
    ArriveRelated(g, idom, num, p, prom, q, r, m, path, b, init);
    BlockRelated(g, idom, num, p, prom, q, r, m, b, i, Arrive(m, prom, p, path, init), Arrive(m, prom, q, path, init));
    RemovedLoad(g, idom, num, p, prom, q, r, m, b, i, ExecBody(m, prom, p[b].body[..i], Arrive(m, prom, p, path, init)),
                ExecBody(m, prom, Kept(prom, r.sigma, p[b].body[..i]), Arrive(m, prom, q, path, init)));
  }
}
