/** Register rewriting and spilling preserve the meaning of every run. */
module AllocationSimulation {
  import opened ControlFlowGraph
  import opened AsmProgram
  import opened BackendRegisters
  import opened LiveRanges
  import opened LivenessPass
  import opened AllocatedCode

  // ----- reloads and saves -----

  /** `t` is `s` except for the registers in `dirty`. */
  ghost predicate OnlyRegisters(s: State, t: State, dirty: set<Register>) {
    && t.stack == s.stack && t.world == s.world && t.trace == s.trace
    && forall o: Operand :: !(o.Physical? && o.reg in dirty) ==> Val(t.env, o) == Val(s.env, o)
  }

  lemma ReloadRuns(m: Machine, l: Reload, offset: nat, sp: int, st: State)
    requires Val(st.env, SP) == sp && IsTemp(l.temp) && IsTemp(l.addr)
    ensures var t := ExecOuts(m, ReloadCode(l, offset), st);
            OnlyRegisters(st, t, Occupied(l, offset)) && Val(t.env, Physical(l.temp)) == ReadSlot(st.stack, sp + offset)
  {
    if ItypeImmediate(offset) {
      var code := ReloadCode(l, offset);
      assert code[..|code| - 1] == [];
    } else {
      var code := ReloadCode(l, offset);
      var c2, c1 := code[..2], code[..1];
      assert code[..|code| - 1] == c2 && c2[..|c2| - 1] == c1 && c1[..|c1| - 1] == [];
      var s1 := ExecOut(m, Li(l.addr, offset), st);
      assert ExecOuts(m, c1, st) == s1;
      var s2 := ExecOut(m, AddSp(l.addr, l.addr), s1);
      assert ExecOuts(m, c2, st) == s2;
      assert Val(s2.env, Physical(l.addr)) == sp + offset;
    }
  }

  function SlotIn(a: Allocation, o: Operand): nat {
    if o in a.slotOf then a.slotOf[o] else 0
  }

  const TEMPS := {T0, T1, FT0, FT1, FT2}

  /** Every reload of `ls` has its slot's content in its temporary. */
  ghost predicate Reloaded(ls: seq<Reload>, a: Allocation, sp: int, s: State, t: State) {
    forall k :: 0 <= k < |ls| ==> Val(t.env, Physical(ls[k].temp)) == ReadSlot(s.stack, sp + SlotIn(a, ls[k].v))
  }

  lemma {:induction false} ReloadsRun(m: Machine, ls: seq<Reload>, a: Allocation, sp: int, st: State)
    requires ReloadsFit(ls, a) && Val(st.env, SP) == sp
    ensures var t := ExecOuts(m, ReloadsCode(ls, a.slotOf), st);
        OnlyRegisters(st, t, TEMPS)
        && Reloaded(ls, a, sp, st, t)
  {
    hide *;
    if ls == [] {
      NoReloads(m, a, sp, st);
    } else {
      var n := |ls| - 1;
      var l := ls[n];
      LastReload(ls, a, st);
      ReloadsRun(m, ls[..n], a, sp, st);
      ExecOutsConcat(m, ReloadsCode(ls[..n], a.slotOf), ReloadCode(l, a.slotOf[l.v]), st);
      var s1 := ExecOuts(m, ReloadsCode(ls[..n], a.slotOf), st);
      TempsKeepSp(st, s1);
      ReloadRuns(m, l, a.slotOf[l.v], sp, s1);
      OneMoreReload(ls, a, sp, st, s1, ExecOuts(m, ReloadCode(l, a.slotOf[l.v]), s1));
    }
  }

  lemma NoReloads(m: Machine, a: Allocation, sp: int, st: State)
    ensures var t := ExecOuts(m, ReloadsCode([], a.slotOf), st);
        OnlyRegisters(st, t, TEMPS)
        && Reloaded([], a, sp, st, t)
  {
  }

  lemma LastReload(ls: seq<Reload>, a: Allocation, st: State)
    requires ReloadsFit(ls, a) && ls != []
    ensures var n := |ls| - 1; var l := ls[n];
            && l.v in a.slotOf && IsTemp(l.temp) && IsTemp(l.addr) && ReloadsFit(ls[..n], a)
            && ReloadsCode(ls, a.slotOf) == ReloadsCode(ls[..n], a.slotOf) + ReloadCode(l, a.slotOf[l.v])
  {
    hide ReloadCode, Occupied;
  }

  lemma TempsKeepSp(s: State, t: State)
    requires OnlyRegisters(s, t, TEMPS)
    ensures Val(t.env, SP) == Val(s.env, SP)
  {
  }

  lemma OneMoreReload(ls: seq<Reload>, a: Allocation, sp: int, st: State, s1: State, t: State)
    requires ls != [] && ReloadsFit(ls, a)
    requires OnlyRegisters(st, s1, TEMPS) && Reloaded(ls[..|ls| - 1], a, sp, st, s1)
    requires var l := ls[|ls| - 1];
             && OnlyRegisters(s1, t, Occupied(l, a.slotOf[l.v]))
             && Val(t.env, Physical(l.temp)) == ReadSlot(s1.stack, sp + a.slotOf[l.v])
    ensures OnlyRegisters(st, t, TEMPS) && Reloaded(ls, a, sp, st, t)
  {
    var n := |ls| - 1;
    forall k | 0 <= k < n ensures Val(t.env, Physical(ls[k].temp)) == ReadSlot(st.stack, sp + SlotIn(a, ls[k].v)) {
      assert ls[..n][k] == ls[k];
      assert ls[k].temp in Occupied(ls[k], a.slotOf[ls[k].v]);
      assert Occupied(ls[k], a.slotOf[ls[k].v]) !! Occupied(ls[n], a.slotOf[ls[n].v]);
    }
  }

  lemma SaveRuns(m: Machine, d: Operand, offset: nat, sp: int, st: State)
    requires Val(st.env, SP) == sp
    ensures var t := ExecOuts(m, SaveCode(d, offset), st);
            && t.world == st.world && t.trace == st.trace
            && t.stack == Overwrite(st.stack, sp + offset, Val(st.env, Physical(ResultTemp(d, offset))))
            && (forall o :: o != Physical(T0) ==> Val(t.env, o) == Val(st.env, o))
  {
    hide Overwrite;
    var code := SaveCode(d, offset);
    if ItypeImmediate(offset) {
      assert code[..|code| - 1] == [];
    } else {
      var c2, c1 := code[..2], code[..1];
      assert code[..|code| - 1] == c2 && c2[..|c2| - 1] == c1 && c1[..|c1| - 1] == [];
      var s1 := ExecOut(m, Li(T0, offset), st);
      assert ExecOuts(m, c1, st) == s1;
      var s2 := ExecOut(m, AddSp(T0, T0), s1);
      assert ExecOuts(m, c2, st) == s2;
      assert Val(s2.env, Physical(T0)) == sp + offset;
    }
  }

  /** With the stack pointer at `at`, a reload gets the content of the slot, whatever that is, if and only
      if the slots are counted from there. While a call has it lowered, it does not. */
  lemma ReloadRightIff(m: Machine, l: Reload, offset: nat, sp: int, at: int)
    requires IsTemp(l.temp) && IsTemp(l.addr)
    ensures at == sp <==> forall st: State :: Val(st.env, SP) == at ==>
      Val(ExecOuts(m, ReloadCode(l, offset), st).env, Physical(l.temp)) == ReadSlot(st.stack, sp + offset)
  {
    hide ExecOuts, ReloadCode;
    forall st: State | Val(st.env, SP) == at
      ensures Val(ExecOuts(m, ReloadCode(l, offset), st).env, Physical(l.temp)) == ReadSlot(st.stack, at + offset)
    {
      ReloadRuns(m, l, offset, at, st);
    }
    if at != sp {
      var st := State(map[SP := at], map[at + offset := 1], 0, []);
      assert Val(st.env, SP) == at && ReadSlot(st.stack, at + offset) == 1 && ReadSlot(st.stack, sp + offset) == 0;
    }
  }

  /** And a store puts the value into the slot, whatever it is, if and only if the slots are counted from
      there. */
  lemma SaveRightIff(m: Machine, d: Operand, offset: nat, sp: int, at: int)
    ensures at == sp <==> forall st: State :: Val(st.env, SP) == at ==>
      ReadSlot(ExecOuts(m, SaveCode(d, offset), st).stack, sp + offset)
      == Val(st.env, Physical(ResultTemp(d, offset)))
  {
    var temp := ResultTemp(d, offset);
    assert Physical(temp) != SP;
    hide ExecOuts, SaveCode, ResultTemp;
    forall st: State | Val(st.env, SP) == at
      ensures ExecOuts(m, SaveCode(d, offset), st).stack == Overwrite(st.stack, at + offset,
          Val(st.env, Physical(temp)))
    {
      SaveRuns(m, d, offset, at, st);
    }
    if at != sp {
      var st := State(map[Physical(temp) := 1][SP := at], map[], 0, []);
      assert Val(st.env, SP) == at && Val(st.env, Physical(temp)) == 1;
      assert ReadSlot(Overwrite(map[], at + offset, 1), sp + offset) == 0;
    }
  }

  // ----- results -----

  lemma {:induction false} AssignOthers(m: Machine, e: Event, w: World, defs: seq<Operand>, env: map<Operand, Value>,
                                        o: Operand)
    requires o !in defs
    ensures Val(Assign(m, e, w, defs, env), o) == Val(env, o)
  {
    if defs != [] {
      var n := |defs| - 1;
      assert defs == defs[..n] + [defs[n]];
      AssignOthers(m, e, w, defs[..n], env, o);
    }
  }

  /** `ds'` renames the elements of `ds` one to one. */
  ghost predicate Renames(ds: seq<Operand>, ds': seq<Operand>) {
    && |ds| == |ds'|
    && (forall i, j :: 0 <= i < |ds| && 0 <= j < |ds| ==> (ds[i] == ds[j] <==> ds'[i] == ds'[j]))
    && (forall i :: 0 <= i < |ds| ==> IsReg(ds[i]) && IsReg(ds'[i]))
  }

  lemma {:induction false} AssignRenamed(m: Machine, e: Event, w: World, ds: seq<Operand>, ds': seq<Operand>,
                                         env: map<Operand, Value>, env': map<Operand, Value>, k: nat)
    requires Renames(ds, ds') && k < |ds|
    ensures Val(Assign(m, e, w, ds', env'), ds'[k]) == Val(Assign(m, e, w, ds, env), ds[k])
  {
    var n := |ds| - 1;
    if ds[n] != ds[k] {
      assert Renames(ds[..n], ds'[..n]) by {
        forall i, j | 0 <= i < n && 0 <= j < n ensures ds[..n][i] == ds[..n][j] <==> ds'[..n][i] == ds'[..n][j] {
          assert ds[i] == ds[j] <==> ds'[i] == ds'[j];
        }
      }
      AssignRenamed(m, e, w, ds[..n], ds'[..n], env, env', k);
    }
  }

  // ----- one instruction -----

  predicate HasVirtual(ins: Instr) {
    (exists o :: o in ins.uses && o.Virtual?) || (exists o :: o in ins.defs && o.Virtual?)
  }

  /** An instruction that mentions a virtual register mentions no temporary and defines at most one
      virtual register. */
  ghost predicate SpillableInstr(ins: Instr) {
    && (forall o :: o in ins.defs ==> IsReg(o))
    && (HasVirtual(ins) ==> (forall o :: o in ins.uses || o in ins.defs ==> !TempOperand(o)))
    && (forall i, j :: 0 <= i < j < |ins.defs| ==> !(ins.defs[i].Virtual? && ins.defs[j].Virtual?))
  }

  /** The instruction mentions a spilled register. */
  predicate HasSpilled(a: Allocation, ins: Instr) {
    (exists o :: o in ins.uses && o in a.slotOf) || (exists o :: o in ins.defs && o in a.slotOf)
  }

  predicate ResultSpilled(a: Allocation, ins: Instr) {
    exists d :: d in ins.defs && d in a.slotOf
  }

  lemma SpilledResult(a: Allocation, ins: Instr, d: Operand)
    requires d in ins.defs && d in a.slotOf
    ensures ResultSpilled(a, ins)
  {
  }

  lemma SpilledIsVirtual(a: Allocation, ins: Instr)
    requires AllocationShape(a) && HasSpilled(a, ins)
    ensures HasVirtual(ins)
  {
  }

  /** No two results of the instruction land in the same place. */
  ghost predicate ResultsApart(a: Allocation, ins: Instr) {
    forall x, y :: x in ins.defs && y in ins.defs && x != y ==> Apart(PlaceOf(a, x), PlaceOf(a, y))
  }

  ghost predicate AllAllocated(a: Allocation, ins: Instr) {
    forall o :: o in ins.uses || o in ins.defs ==> o.Virtual? ==> o in a.regOf || o in a.slotOf
  }

  lemma ResultsRenamed(a: Allocation, ins: Instr, grp: Group, ls: seq<Reload>)
    requires AllocationShape(a) && SpillableInstr(ins) && ResultsApart(a, ins) && Expands(ins, grp, a, ls)
    ensures Renames(ins.defs, grp.main.defs)
  {
    hide ReloadsFit, UseRewritten, ReloadsCode, SaveCode;
    forall i, j | 0 <= i < |ins.defs| && 0 <= j < |ins.defs|
      ensures ins.defs[i] == ins.defs[j] <==> grp.main.defs[i] == grp.main.defs[j]
    {
      var x, y := ins.defs[i], ins.defs[j];
      if x != y {
        assert Apart(PlaceOf(a, x), PlaceOf(a, y));
        DefsApart(a, ins, x, y);
      }
    }
  }

  lemma DefsApart(a: Allocation, ins: Instr, x: Operand, y: Operand)
    requires AllocationShape(a) && SpillableInstr(ins) && x in ins.defs && y in ins.defs && x != y
    requires Apart(PlaceOf(a, x), PlaceOf(a, y))
    ensures DefRewritten(a, x) != DefRewritten(a, y)
  {
    if x in a.slotOf {
      NotBothVirtual(ins, x, y);
    } else if y in a.slotOf {
      NotBothVirtual(ins, x, y);
    }
  }

  lemma NotBothVirtual(ins: Instr, x: Operand, y: Operand)
    requires SpillableInstr(ins) && x in ins.defs && y in ins.defs && x != y
    ensures !(x.Virtual? && y.Virtual?)
    ensures x.Virtual? || y.Virtual? ==> !TempOperand(x) && !TempOperand(y)
  {
    var i :| 0 <= i < |ins.defs| && ins.defs[i] == x;
    var j :| 0 <= j < |ins.defs| && ins.defs[j] == y;
    if i < j {
      assert !(ins.defs[i].Virtual? && ins.defs[j].Virtual?);
    } else {
      assert !(ins.defs[j].Virtual? && ins.defs[i].Virtual?);
    }
  }

  /** The rewritten instruction reads what the original would read from the places. */
  lemma InputsReloaded(m: Machine, a: Allocation, ins: Instr, grp: Group, ls: seq<Reload>, sp: int, st: State)
    requires AllocationShape(a) && SpillableInstr(ins) && Expands(ins, grp, a, ls) && AllAllocated(a, ins)
    requires HasSpilled(a, ins) ==> Val(st.env, SP) == sp
    ensures var t := ExecOuts(m, grp.pre, st);
            && (if HasSpilled(a, ins) then OnlyRegisters(st, t, TEMPS) else t == st)
            && (forall k :: 0 <= k < |ins.uses| ==> Val(t.env, grp.main.uses[k]) == Content(st, sp,
                PlaceOf(a, ins.uses[k])))
  {
    assert |ls| > 0 ==> ls[0].v in a.slotOf && HasSpilled(a, ins);
    if HasSpilled(a, ins) {
      SpilledIsVirtual(a, ins);
      ReloadsRun(m, ls, a, sp, st);
      var t := ExecOuts(m, grp.pre, st);
      hide ExecOuts, ReloadsCode, ReloadsFit, SaveCode, Reloaded;
      forall k | 0 <= k < |ins.uses| ensures Val(t.env, grp.main.uses[k]) == Content(st, sp, PlaceOf(a, ins.uses[k])) {
        InputReloaded(a, ins, grp, ls, sp, st, t, k);
      }
    } else {
      forall k | 0 <= k < |ins.uses| ensures Val(st.env, grp.main.uses[k]) == Content(st, sp, PlaceOf(a, ins.uses[k])) {
        assert ins.uses[k] !in a.slotOf;
        assert UseRewritten(a, ls, ins.uses[k], grp.main.uses[k]);
      }
    }
  }

  lemma InputReloaded(a: Allocation, ins: Instr, grp: Group, ls: seq<Reload>, sp: int, st: State, t: State, k: nat)
    requires AllocationShape(a) && SpillableInstr(ins) && Expands(ins, grp, a, ls) && HasVirtual(ins) && k < |ins.uses|
    requires OnlyRegisters(st, t, TEMPS)
    requires Reloaded(ls, a, sp, st, t)
    ensures Val(t.env, grp.main.uses[k]) == Content(st, sp, PlaceOf(a, ins.uses[k]))
  {
    var o, o' := ins.uses[k], grp.main.uses[k];
    assert UseRewritten(a, ls, o, o');
    hide Expands;
    if o in a.slotOf {
      var j: nat :| ReloadOf(ls, j, o) && o' == Physical(ls[j].temp);
    } else if o in a.regOf {
      assert !TempOperand(o');
    } else {
      assert !TempOperand(o);
    }
  }

  /** The result of a definition, after the code that follows the rewritten instruction. */
  lemma ResultStored(m: Machine, a: Allocation, ins: Instr, grp: Group, ls: seq<Reload>, sp: int, t: State, k: nat)
    requires AllocationShape(a) && SpillableInstr(ins) && Expands(ins, grp, a, ls) && AllAllocated(a, ins)
    requires (ResultSpilled(a, ins) ==> Val(t.env, SP) == sp) && k < |ins.defs|
    ensures |grp.main.defs| == |ins.defs|
    ensures Content(ExecOuts(m, grp.post, t), sp, PlaceOf(a, ins.defs[k])) == Val(t.env, grp.main.defs[k])
  {
    hide *;
    var d := ins.defs[k];
    ResultFacts(a, ins, grp, ls, k);
    if d in a.slotOf {
      SpilledResult(a, ins, d);
      SaveRuns(m, d, a.slotOf[d], sp, t);
      SavedResult(a, d, sp, t, ExecOuts(m, grp.post, t));
    } else if x :| x in ins.defs && x in a.slotOf {
      ResultFacts(a, ins, grp, ls, IndexOf(ins.defs, x));
      NotBothVirtual(ins, d, x);
      SpilledResult(a, ins, x);
      SaveRuns(m, x, a.slotOf[x], sp, t);
      RegisterResult(a, d, sp, t, ExecOuts(m, grp.post, t));
    } else {
      NothingRuns(m, grp, t);
      RegisterResult(a, d, sp, t, t);
    }
  }

  ghost function IndexOf(s: seq<Operand>, x: Operand): (k: nat)
    requires x in s
    ensures k < |s| && s[k] == x
  {
    var k: nat :| k < |s| && s[k] == x; k
  }

  lemma ResultFacts(a: Allocation, ins: Instr, grp: Group, ls: seq<Reload>, k: nat)
    requires AllocationShape(a) && Expands(ins, grp, a, ls) && k < |ins.defs|
    ensures |grp.main.defs| == |ins.defs| && grp.main.defs[k] == DefRewritten(a, ins.defs[k])
    ensures ins.defs[k] in a.slotOf ==> grp.post == SaveCode(ins.defs[k], a.slotOf[ins.defs[k]]) && HasSpilled(a, ins)
    ensures ins.defs[k] in a.slotOf ==> ins.defs[k].Virtual?
    ensures (forall d :: d in ins.defs ==> d !in a.slotOf) ==> grp.post == []
  {
    hide ReloadsFit, ReloadsCode, UseRewritten, SaveCode;
    assert ins.defs[k] in ins.defs;
  }

  lemma SavedResult(a: Allocation, d: Operand, sp: int, t: State, t': State)
    requires AllocationShape(a) && d in a.slotOf
    requires t'.stack == Overwrite(t.stack, sp + a.slotOf[d], Val(t.env, Physical(ResultTemp(d, a.slotOf[d]))))
    ensures Content(t', sp, PlaceOf(a, d)) == Val(t.env, DefRewritten(a, d))
  {
    hide Overwrite, ReadSlot;
    ReadBack(t.stack, sp + a.slotOf[d], Val(t.env, Physical(ResultTemp(d, a.slotOf[d]))));
  }

  lemma RegisterResult(a: Allocation, d: Operand, sp: int, t: State, t': State)
    requires AllocationShape(a) && d !in a.slotOf
    requires t' == t || (!TempOperand(d) && forall o :: o != Physical(T0) ==> Val(t'.env, o) == Val(t.env, o))
    ensures Content(t', sp, PlaceOf(a, d)) == Val(t.env, DefRewritten(a, d))
  {
  }

  lemma ReadBack(stack: map<int, Value>, x: int, v: Value)
    ensures ReadSlot(Overwrite(stack, x, v), x) == v
  {
  }

  lemma NothingRuns(m: Machine, grp: Group, t: State)
    ensures grp.post == [] ==> ExecOuts(m, grp.post, t) == t
  {
  }

  /** A place apart from the results, after the code that follows the rewritten instruction. */
  lemma OtherKept(m: Machine, a: Allocation, ins: Instr, grp: Group, ls: seq<Reload>, sp: int, t: State, o: Operand)
    requires AllocationShape(a) && SpillableInstr(ins) && Expands(ins, grp, a, ls)
    requires (ResultSpilled(a, ins) ==> Val(t.env, SP) == sp) && (HasSpilled(a, ins) ==> !TempOperand(o))
    requires forall d :: d in ins.defs ==> Apart(PlaceOf(a, d), PlaceOf(a, o))
    ensures Content(ExecOuts(m, grp.post, t), sp, PlaceOf(a, o)) == Content(t, sp, PlaceOf(a, o))
  {
    hide ReloadsFit, ReloadsCode, UseRewritten, SaveCode;
    if x :| x in ins.defs && x in a.slotOf {
      hide ExecOuts;
      assert HasSpilled(a, ins);
      SaveRuns(m, x, a.slotOf[x], sp, t);
      PlaceNotTemp(a, o);
    } else {
      assert grp.post == [];
    }
  }

  lemma PlaceNotTemp(a: Allocation, o: Operand)
    requires AllocationShape(a) && !TempOperand(o)
    ensures PlaceOf(a, o).InReg? ==> !TempOperand(PlaceOf(a, o).o)
  {
  }

  /** The rewritten instruction itself leaves the places of other registers alone. */
  lemma OtherNotWritten(a: Allocation, ins: Instr, grp: Group, ls: seq<Reload>, o: Operand)
    requires AllocationShape(a) && SpillableInstr(ins) && Expands(ins, grp, a, ls)
    requires HasSpilled(a, ins) ==> !TempOperand(o)
    requires forall d :: d in ins.defs ==> Apart(PlaceOf(a, d), PlaceOf(a, o))
    ensures PlaceOf(a, o).InReg? ==> PlaceOf(a, o).o !in grp.main.defs
  {
    hide ReloadsFit, ReloadsCode, UseRewritten, SaveCode;
    if PlaceOf(a, o).InReg? {
      forall k | 0 <= k < |ins.defs| ensures grp.main.defs[k] != PlaceOf(a, o).o {
        var d := ins.defs[k];
        assert Apart(PlaceOf(a, d), PlaceOf(a, o));
        if d in a.slotOf {
          assert HasSpilled(a, ins);
          PlaceNotTemp(a, o);
        }
      }
    }
  }

  /** What one group does, compared with the instruction it stands for. */
  ghost predicate SameStep(a: Allocation, ins: Instr, sp: int, s: State, t: State, s': State, t': State) {
    && s'.world == t'.world && s'.trace == t'.trace
    && (forall d :: d in ins.defs ==> Content(t', sp, PlaceOf(a, d)) == Val(s'.env, d))
    && (forall o: Operand :: (HasSpilled(a, ins) ==> !TempOperand(o)) && (forall d ::
        d in ins.defs
        ==> Apart(PlaceOf(a, d), PlaceOf(a, o)))
          ==> Content(t', sp, PlaceOf(a, o)) == Content(t, sp, PlaceOf(a, o)))
  }

  ghost predicate SameInputs(a: Allocation, ins: Instr, sp: int, s: State, t: State) {
    && s.world == t.world && s.trace == t.trace
    && forall u :: u in ins.uses ==> Val(s.env, u) == Content(t, sp, PlaceOf(a, u))
  }

  /** The stack pointer is where the slots are counted from, whenever the group reaches for one: before
      the instruction for a reload, and also after it for a store. */
  ghost predicate SlotsReachable(a: Allocation, ins: Instr, sp: int, t: State) {
    (HasSpilled(a, ins) ==> Val(t.env, SP) == sp) && (ResultSpilled(a, ins) ==> SP !in ins.defs)
  }

  lemma MainSameEvent(m: Machine, a: Allocation, ins: Instr, grp: Group, ls: seq<Reload>, sp: int, s: State, t: State,
                      t1: State)
    requires Expands(ins, grp, a, ls) && SameInputs(a, ins, sp, s, t)
    requires t1.world == t.world && t1.trace == t.trace
    requires forall k :: 0 <= k < |ins.uses| ==> Val(t1.env, grp.main.uses[k]) == Content(t, sp,
        PlaceOf(a, ins.uses[k]))
    ensures Vals(t1.env, grp.main.uses) == Vals(s.env, ins.uses) && grp.main.op == ins.op
    ensures Exec(m, ins, s).world == Exec(m, grp.main, t1).world && Exec(m, ins, s).trace == Exec(m, grp.main, t1).trace
    ensures Exec(m, grp.main, t1).stack == t1.stack
  {
    hide ReloadsFit, ReloadsCode, UseRewritten, SaveCode;
    forall k | 0 <= k < |ins.uses| ensures Vals(t1.env, grp.main.uses)[k] == Vals(s.env, ins.uses)[k] {
      assert ins.uses[k] in ins.uses;
    }
  }

  lemma MainKeepsSp(m: Machine, a: Allocation, ins: Instr, grp: Group, ls: seq<Reload>, sp: int, t: State, t1: State)
    requires AllocationShape(a) && Expands(ins, grp, a, ls) && SlotsReachable(a, ins, sp, t)
    requires if HasSpilled(a, ins) then OnlyRegisters(t, t1, TEMPS) else t1 == t
    ensures ResultSpilled(a, ins) ==> Val(Exec(m, grp.main, t1).env, SP) == sp
  {
    hide ReloadsFit, ReloadsCode, UseRewritten, SaveCode, Assign;
    if ResultSpilled(a, ins) {
      assert HasSpilled(a, ins);
      forall k | 0 <= k < |ins.defs| ensures grp.main.defs[k] != SP {
        assert ins.defs[k] in ins.defs;
      }
      AssignOthers(m, Event(grp.main.op, Vals(t1.env, grp.main.uses)), t1.world, grp.main.defs, t1.env, SP);
    }
  }

  lemma OtherUntouched(m: Machine, a: Allocation, ins: Instr, grp: Group, ls: seq<Reload>, sp: int, t: State, t1: State,
                       o: Operand)
    requires AllocationShape(a) && SpillableInstr(ins) && Expands(ins, grp, a, ls) && SlotsReachable(a, ins, sp, t)
    requires if HasSpilled(a, ins) then OnlyRegisters(t, t1, TEMPS) else t1 == t
    requires HasSpilled(a, ins) ==> !TempOperand(o)
    requires forall d :: d in ins.defs ==> Apart(PlaceOf(a, d), PlaceOf(a, o))
    ensures Content(ExecOuts(m, grp.post, Exec(m, grp.main, t1)), sp, PlaceOf(a, o)) == Content(t, sp, PlaceOf(a, o))
  {
    hide Expands, SpillableInstr, ExecOuts, Assign;
    MainKeepsSp(m, a, ins, grp, ls, sp, t, t1);
    OtherKept(m, a, ins, grp, ls, sp, Exec(m, grp.main, t1), o);
    OtherNotWritten(a, ins, grp, ls, o);
    if PlaceOf(a, o).InReg? {
      AssignOthers(m, Event(grp.main.op, Vals(t1.env, grp.main.uses)), t1.world, grp.main.defs, t1.env,
          PlaceOf(a, o).o);
      if HasSpilled(a, ins) { PlaceNotTemp(a, o); }
    }
  }

  lemma ResultPlaced(m: Machine, a: Allocation, ins: Instr, grp: Group, ls: seq<Reload>, sp: int, s: State, t: State,
                     t1: State, k: nat)
    requires AllocationShape(a) && SpillableInstr(ins) && ResultsApart(a, ins) && Expands(ins, grp, a, ls)
        && AllAllocated(a, ins)
    requires SlotsReachable(a, ins, sp, t) && k < |ins.defs|
    requires if HasSpilled(a, ins) then OnlyRegisters(t, t1, TEMPS) else t1 == t
    requires Vals(t1.env, grp.main.uses) == Vals(s.env, ins.uses) && grp.main.op == ins.op && s.world == t1.world
    ensures Content(ExecOuts(m, grp.post, Exec(m, grp.main, t1)), sp,
        PlaceOf(a, ins.defs[k])) == Val(Exec(m, ins, s).env, ins.defs[k])
  {
    MainKeepsSp(m, a, ins, grp, ls, sp, t, t1);
    ResultsRenamed(a, ins, grp, ls);
    hide ExecOuts, Assign, SpillableInstr, ResultsApart, AllAllocated, AllocationShape;
    AssignRenamed(m, Event(ins.op, Vals(s.env, ins.uses)), s.world, ins.defs, grp.main.defs, s.env, t1.env, k);
    ResultStored(m, a, ins, grp, ls, sp, Exec(m, grp.main, t1), k);
  }

  /** The code after the instruction neither shows anything nor touches the world. */
  lemma PostQuiet(m: Machine, a: Allocation, ins: Instr, grp: Group, ls: seq<Reload>, sp: int, t: State)
    requires Expands(ins, grp, a, ls) && (ResultSpilled(a, ins) ==> Val(t.env, SP) == sp)
    ensures var t' := ExecOuts(m, grp.post, t); t'.world == t.world && t'.trace == t.trace
  {
    hide ReloadsFit, ReloadsCode, UseRewritten, SaveCode;
    if x :| x in ins.defs && x in a.slotOf {
      hide ExecOuts;
      SaveRuns(m, x, a.slotOf[x], sp, t);
    } else {
      assert grp.post == [];
    }
  }

  lemma GroupRuns(m: Machine, a: Allocation, ins: Instr, grp: Group, ls: seq<Reload>, sp: int, s: State, t: State)
    requires AllocationShape(a) && SpillableInstr(ins) && ResultsApart(a, ins) && Expands(ins, grp, a, ls)
        && AllAllocated(a, ins)
    requires SlotsReachable(a, ins, sp, t) && SameInputs(a, ins, sp, s, t)
    ensures SameStep(a, ins, sp, s, t, Exec(m, ins, s), ExecGroup(m, grp, t))
  {
    hide *;
    var t1 := ExecOuts(m, grp.pre, t);
    var t2 := Exec(m, grp.main, t1);
    var t3 := ExecOuts(m, grp.post, t2);
    GroupFacts(m, a, ins, grp, ls, sp, s, t);
    InputsReloaded(m, a, ins, grp, ls, sp, t);
    OnlyRegistersFacts(t, t1, HasSpilled(a, ins));
    MainSameEvent(m, a, ins, grp, ls, sp, s, t, t1);
    MainKeepsSp(m, a, ins, grp, ls, sp, t, t1);
    PostQuiet(m, a, ins, grp, ls, sp, t2);
    forall d | d in ins.defs ensures Content(t3, sp, PlaceOf(a, d)) == Val(Exec(m, ins, s).env, d) {
      var k: nat :| k < |ins.defs| && ins.defs[k] == d;
      ResultPlaced(m, a, ins, grp, ls, sp, s, t, t1, k);
    }
    forall o: Operand | (HasSpilled(a, ins) ==> !TempOperand(o)) && (forall d ::
        d in ins.defs
        ==> Apart(PlaceOf(a, d), PlaceOf(a, o)))
      ensures Content(t3, sp, PlaceOf(a, o)) == Content(t, sp, PlaceOf(a, o))
    {
      OtherUntouched(m, a, ins, grp, ls, sp, t, t1, o);
    }
    SameStepHolds(a, ins, sp, s, t, Exec(m, ins, s), t3);
  }

  lemma OnlyRegistersFacts(t: State, t1: State, spilled: bool)
    requires if spilled then OnlyRegisters(t, t1, TEMPS) else t1 == t
    ensures t1.world == t.world && t1.trace == t.trace
  {
  }

  lemma GroupFacts(m: Machine, a: Allocation, ins: Instr, grp: Group, ls: seq<Reload>, sp: int, s: State, t: State)
    requires Expands(ins, grp, a, ls) && SlotsReachable(a, ins, sp, t) && SameInputs(a, ins, sp, s, t)
    ensures |grp.main.uses| == |ins.uses| && s.world == t.world && s.trace == t.trace
    ensures HasSpilled(a, ins) ==> Val(t.env, SP) == sp
    ensures ExecGroup(m, grp, t) == ExecOuts(m, grp.post, Exec(m, grp.main, ExecOuts(m, grp.pre, t)))
  {
  }

  lemma SameStepHolds(a: Allocation, ins: Instr, sp: int, s: State, t: State, s': State, t': State)
    requires s'.world == t'.world && s'.trace == t'.trace
    requires forall d :: d in ins.defs ==> Content(t', sp, PlaceOf(a, d)) == Val(s'.env, d)
    requires forall o: Operand ::
      (HasSpilled(a, ins) ==> !TempOperand(o)) && (forall d :: d in ins.defs ==> Apart(PlaceOf(a, d), PlaceOf(a, o)))
      ==> Content(t', sp, PlaceOf(a, o)) == Content(t, sp, PlaceOf(a, o))
    ensures SameStep(a, ins, sp, s, t, s', t')
  {
  }

  // ----- whole runs -----

  /** A result never lands where a register that is still needed, or another result, lives. */
  ghost predicate Compatible(g: Graph, c: Code, a: Allocation) {
    forall b, i: nat, d, o :: At(c, b, i) && d in c[b][i].defs && IsReg(o) && o != d
        && (o in c[b][i].defs || LiveAt(g, c, b, o, i + 1))
      ==> Apart(PlaceOf(a, d), PlaceOf(a, o))
  }

  /** No temporary carries a value across an instruction that spilling surrounds with code. */
  ghost predicate TempsFree(g: Graph, c: Code, a: Allocation) {
    forall b, i: nat, o: Operand :: At(c, b, i) && HasSpilled(a, c[b][i]) && TempOperand(o)
        ==> !LiveAt(g, c, b, o, i + 1)
  }

  ghost predicate AllSpillable(c: Code) {
    forall b, i: nat :: At(c, b, i) ==> SpillableInstr(c[b][i])
  }

  ghost predicate ExpandedAt(c: Code, out: OutCode, a: Allocation, b: BlockId, i: nat)
    requires b in c && b in out && i < |c[b]| && i < |out[b]|
  {
    AllAllocated(a, c[b][i]) && exists ls :: Expands(c[b][i], out[b][i], a, ls)
  }

  /** `out` is `c` with every instruction rewritten for the allocation. */
  ghost predicate Rewritten(c: Code, out: OutCode, a: Allocation) {
    && out.Keys == c.Keys
    && (forall b :: b in c && b in out ==> |out[b]| == |c[b]|)
    && (forall b, i: nat :: At(c, b, i) && b in out && i < |out[b]| ==> ExpandedAt(c, out, a, b, i))
  }

  /** Every register that is live holds its value in its place. */
  ghost predicate Related(g: Graph, c: Code, a: Allocation, sp: int, b: BlockId, i: nat, s: State, t: State)
    requires b in c && i <= |c[b]|
  {
    && s.world == t.world && s.trace == t.trace
    && Val(s.env, SP) == Val(t.env, SP)
    && forall o: Operand :: IsReg(o) && LiveAt(g, c, b, o, i) ==> Val(s.env, o) == Content(t, sp, PlaceOf(a, o))
  }

  /** Where spilling reaches for a slot, the stack pointer is back at the frame. An instruction may still
      move the stack pointer itself when only its inputs are spilled. */
  ghost predicate SteadyBody(m: Machine, a: Allocation, body: seq<Instr>, st: State, sp: int) {
    forall i: nat :: i < |body| ==>
      && (HasSpilled(a, body[i]) ==> Val(ExecBody(m, body[..i], st).env, SP) == sp)
      && (ResultSpilled(a, body[i]) ==> SP !in body[i].defs)
  }

  ghost predicate SteadyRun(m: Machine, c: Code, a: Allocation, path: seq<BlockId>, init: State, sp: int)
    requires forall b :: b in path ==> b in c
  {
    if path == [] then true
    else
      var n := |path| - 1;
      SteadyRun(m, c, a, path[..n], init, sp) && SteadyBody(m, a, c[path[n]], Run(m, c, path[..n], init), sp)
  }

  lemma UsedIsLive(g: Graph, c: Code, b: BlockId, i: nat, o: Operand)
    requires At(c, b, i)
    ensures o in c[b][i].uses ==> LiveAt(g, c, b, o, i)
    ensures o !in c[b][i].defs && LiveAt(g, c, b, o, i + 1) ==> LiveAt(g, c, b, o, i)
  {
  }

  lemma RelatedInputs(g: Graph, c: Code, a: Allocation, sp: int, b: BlockId, i: nat, s: State, t: State)
    requires At(c, b, i) && AllocationShape(a) && Related(g, c, a, sp, b, i, s, t)
    ensures SameInputs(a, c[b][i], sp, s, t)
  {
    hide LiveAt;
    forall u | u in c[b][i].uses ensures Val(s.env, u) == Content(t, sp, PlaceOf(a, u)) {
      UsedIsLive(g, c, b, i, u);
    }
  }

  lemma CompatibleResults(g: Graph, c: Code, a: Allocation, b: BlockId, i: nat)
    requires At(c, b, i) && Compatible(g, c, a) && AllSpillable(c)
    ensures SpillableInstr(c[b][i]) && ResultsApart(a, c[b][i])
  {
    hide LiveAt, Apart;
  }

  lemma StepRelated(g: Graph, c: Code, a: Allocation, sp: int, b: BlockId, i: nat, s: State, t: State, s': State,
                    t': State)
    requires At(c, b, i) && AllocationShape(a) && Compatible(g, c, a) && TempsFree(g, c, a)
    requires Related(g, c, a, sp, b, i, s, t) && SameStep(a, c[b][i], sp, s, t, s', t')
    requires forall o: Operand :: o !in c[b][i].defs ==> Val(s'.env, o) == Val(s.env, o)
    ensures Related(g, c, a, sp, b, i + 1, s', t')
  {
    hide LiveAt, Content, Apart, HasSpilled;
    var ins := c[b][i];
    forall o: Operand | IsReg(o) && LiveAt(g, c, b, o, i + 1) ensures Val(s'.env, o) == Content(t', sp, PlaceOf(a, o)) {
      UsedIsLive(g, c, b, i, o);
      if o !in ins.defs {
        assert HasSpilled(a, ins) ==> !TempOperand(o);
        assert forall d :: d in ins.defs ==> Apart(PlaceOf(a, d), PlaceOf(a, o));
      }
    }
    StackPointerKept(a, ins, sp, s, t, s', t');
  }

  lemma StackPointerKept(a: Allocation, ins: Instr, sp: int, s: State, t: State, s': State, t': State)
    requires AllocationShape(a) && SameStep(a, ins, sp, s, t, s', t') && Val(s.env, SP) == Val(t.env, SP)
    requires SP !in ins.defs ==> Val(s'.env, SP) == Val(s.env, SP)
    ensures Val(s'.env, SP) == Val(t'.env, SP)
  {
    assert PlaceOf(a, SP) == InReg(SP);
    if SP !in ins.defs {
      assert forall d :: d in ins.defs ==> Apart(PlaceOf(a, d), PlaceOf(a, SP));
      assert Content(t', sp, PlaceOf(a, SP)) == Content(t, sp, PlaceOf(a, SP));
    }
  }

  /** One instruction of a block and its group, from related states. */
  lemma StepSame(m: Machine, g: Graph, c: Code, out: OutCode, a: Allocation, sp: int, b: BlockId, j: nat, s: State,
                 s1: State, t1: State)
    requires b in c && j < |c[b]| && At(c, b, j) && b in out && |out[b]| == |c[b]|
    requires AllocationShape(a) && Compatible(g, c, a) && AllSpillable(c) && Rewritten(c, out, a)
    requires SteadyBody(m, a, c[b], s, sp) && s1 == ExecBody(m, c[b][..j], s) && Related(g, c, a, sp, b, j, s1, t1)
    ensures SameStep(a, c[b][j], sp, s1, t1, Exec(m, c[b][j], s1), ExecGroup(m, out[b][j], t1))
  {
    hide *;
    GroupExpands(c, out, a, b, j);
    var ls :| Expands(c[b][j], out[b][j], a, ls);
    RelatedInputs(g, c, a, sp, b, j, s1, t1);
    CompatibleResults(g, c, a, b, j);
    SlotsAt(m, g, c, a, sp, b, j, s, s1, t1);
    GroupRuns(m, a, c[b][j], out[b][j], ls, sp, s1, t1);
  }

  lemma {:induction false} BodyRelated(m: Machine, g: Graph, c: Code, out: OutCode, a: Allocation, sp: int, b: BlockId,
                                       i: nat, s: State, t: State)
    requires b in c && i <= |c[b]| && AllocationShape(a) && Compatible(g, c, a) && TempsFree(g, c, a) && AllSpillable(c)
    requires Rewritten(c, out, a) && Related(g, c, a, sp, b, 0, s, t) && SteadyBody(m, a, c[b], s, sp)
    ensures b in out && |out[b]| == |c[b]|
    ensures Related(g, c, a, sp, b, i, ExecBody(m, c[b][..i], s), ExecGroups(m, out[b][..i], t))
  {
    hide *;
    RewrittenFacts(c, out, a, b);
    if i == 0 {
      NoSteps(m, c, out, b, s, t);
    } else {
      var j: nat := i - 1;
      BodyRelated(m, g, c, out, a, sp, b, j, s, t);
      var s1, t1 := ExecBody(m, c[b][..j], s), ExecGroups(m, out[b][..j], t);
      LastStep(m, c, out, b, j, s, t);
      StepSame(m, g, c, out, a, sp, b, j, s, s1, t1);
      OthersKeepValues(m, c[b][j], s1);
      StepRelated(g, c, a, sp, b, j, s1, t1, Exec(m, c[b][j], s1), ExecGroup(m, out[b][j], t1));
    }
  }

  lemma RewrittenFacts(c: Code, out: OutCode, a: Allocation, b: BlockId)
    requires Rewritten(c, out, a) && b in c
    ensures b in out && |out[b]| == |c[b]|
  {
  }

  lemma NoSteps(m: Machine, c: Code, out: OutCode, b: BlockId, s: State, t: State)
    requires b in c && b in out
    ensures ExecBody(m, c[b][..0], s) == s && ExecGroups(m, out[b][..0], t) == t
  {
  }

  lemma LastStep(m: Machine, c: Code, out: OutCode, b: BlockId, j: nat, s: State, t: State)
    requires b in c && b in out && |out[b]| == |c[b]| && j < |c[b]|
    ensures At(c, b, j)
    ensures ExecBody(m, c[b][..j + 1], s) == Exec(m, c[b][j], ExecBody(m, c[b][..j], s))
    ensures ExecGroups(m, out[b][..j + 1], t) == ExecGroup(m, out[b][j], ExecGroups(m, out[b][..j], t))
  {
    hide Exec, ExecGroup;
    assert c[b][..j + 1][..j] == c[b][..j];
    assert out[b][..j + 1][..j] == out[b][..j];
  }

  lemma GroupExpands(c: Code, out: OutCode, a: Allocation, b: BlockId, j: nat)
    requires At(c, b, j) && b in out && j < |out[b]| && Rewritten(c, out, a)
    ensures AllAllocated(a, c[b][j]) && exists ls :: Expands(c[b][j], out[b][j], a, ls)
  {
    hide Expands, AllAllocated;
    assert ExpandedAt(c, out, a, b, j);
  }

  lemma SlotsAt(m: Machine, g: Graph, c: Code, a: Allocation, sp: int, b: BlockId, j: nat, s: State, s1: State,
                t1: State)
    requires At(c, b, j) && SteadyBody(m, a, c[b], s, sp) && s1 == ExecBody(m, c[b][..j], s)
        && Related(g, c, a, sp, b, j, s1, t1)
    ensures SlotsReachable(a, c[b][j], sp, t1)
  {
    hide HasSpilled, ExecBody, LiveAt;
  }

  lemma OthersKeepValues(m: Machine, ins: Instr, s: State)
    ensures forall o: Operand :: o !in ins.defs ==> Val(Exec(m, ins, s).env, o) == Val(s.env, o)
  {
    hide Assign;
    forall o: Operand | o !in ins.defs ensures Val(Exec(m, ins, s).env, o) == Val(s.env, o) {
      AssignOthers(m, Event(ins.op, Vals(s.env, ins.uses)), s.world, ins.defs, s.env, o);
    }
  }

  predicate HasVirtualOperand(ins: Instr) {
    (exists o :: o in ins.defs && o.Virtual?) || (exists o :: o in ins.uses && o.Virtual?)
  }

  /** Instruction `k` leaves its result in the physical register `o`, and what follows in the block
      neither defines anything nor mentions a virtual register: the way a function hands over its value. */
  predicate HandedOver(body: seq<Instr>, k: nat, o: Operand) {
    && k < |body| && o.Physical? && o in body[k].defs
    && forall j :: k < j < |body| ==> body[j].defs == [] && !HasVirtualOperand(body[j])
  }

  /** A physical register that no instruction of the allocation concerns is its own place. */
  lemma PhysicalStays(a: Allocation, o: Operand, t: State, sp: int)
    requires AllocationShape(a) && o.Physical?
    ensures Content(t, sp, PlaceOf(a, o)) == Val(t.env, o)
  {
  }

  lemma QuietStepKeeps(m: Machine, a: Allocation, ins: Instr, sp: int, s: State, t: State, s': State, t': State,
                       o: Operand)
    requires AllocationShape(a) && ins.defs == [] && !HasVirtualOperand(ins)
    requires SameStep(a, ins, sp, s, t, s', t')
    ensures Content(t', sp, PlaceOf(a, o)) == Content(t, sp, PlaceOf(a, o))
  {
    assert !HasSpilled(a, ins);
  }

  lemma {:induction false} HandedOverKept(m: Machine, g: Graph, c: Code, out: OutCode, a: Allocation, sp: int,
                                          b: BlockId, k: nat, i: nat,
                                          s: State, t: State, o: Operand)
    requires b in c && k < i <= |c[b]| && HandedOver(c[b], k, o)
    requires AllocationShape(a) && Compatible(g, c, a) && TempsFree(g, c, a) && AllSpillable(c)
    requires Rewritten(c, out, a) && Related(g, c, a, sp, b, 0, s, t) && SteadyBody(m, a, c[b], s, sp)
    ensures b in out && |out[b]| == |c[b]|
    ensures Val(ExecBody(m, c[b][..i], s).env, o) == Val(ExecGroups(m, out[b][..i], t).env, o)
  {
    hide *;
    var j: nat := i - 1;
    BodyRelated(m, g, c, out, a, sp, b, j, s, t);
    var s1, t1 := ExecBody(m, c[b][..j], s), ExecGroups(m, out[b][..j], t);
    LastStep(m, c, out, b, j, s, t);
    StepSame(m, g, c, out, a, sp, b, j, s, s1, t1);
    var s2, t2 := Exec(m, c[b][j], s1), ExecGroup(m, out[b][j], t1);
    HandedOverMeans(c[b], k, j, o);
    PhysicalStays(a, o, t2, sp);
    if j == k {
      ResultHandedOver(a, c[b][j], sp, s1, t1, s2, t2, o);
    } else {
      HandedOverKept(m, g, c, out, a, sp, b, k, j, s, t, o);
      PhysicalStays(a, o, t1, sp);
      QuietStepKeeps(m, a, c[b][j], sp, s1, t1, s2, t2, o);
      OthersKeepValues(m, c[b][j], s1);
    }
  }

  lemma HandedOverMeans(body: seq<Instr>, k: nat, j: nat, o: Operand)
    requires HandedOver(body, k, o) && k <= j < |body|
    ensures o.Physical? && (j == k ==> o in body[j].defs)
    ensures j > k ==> body[j].defs == [] && !HasVirtualOperand(body[j])
  {
  }

  lemma ResultHandedOver(a: Allocation, ins: Instr, sp: int, s: State, t: State, s': State, t': State, o: Operand)
    requires SameStep(a, ins, sp, s, t, s', t') && o in ins.defs
    ensures Content(t', sp, PlaceOf(a, o)) == Val(s'.env, o)
  {
  }

  /** What is live into a successor is live at the end of the block. */
  lemma LiveAcrossEdge(g: Graph, c: Code, b: BlockId, s: BlockId, o: Operand)
    requires b in c && s in c && Edge(g, b, s) && IsReg(o) && LiveAt(g, c, s, o, 0)
    ensures LiveAt(g, c, b, o, |c[b]|)
  {
    LiveAtStart(c[s], LiveOut(g, c, s, o), o);
    LiveInStep(g, c, s, o);
  }

  lemma RelatedAcrossEdge(g: Graph, c: Code, a: Allocation, sp: int, b: BlockId, next: BlockId, s: State, t: State)
    requires b in c && next in c && Edge(g, b, next) && Related(g, c, a, sp, b, |c[b]|, s, t)
    ensures Related(g, c, a, sp, next, 0, s, t)
  {
    hide LiveAt, Content;
    forall o: Operand | IsReg(o) && LiveAt(g, c, next, o, 0) ensures Val(s.env, o) == Content(t, sp, PlaceOf(a, o)) {
      LiveAcrossEdge(g, c, b, next, o);
    }
  }

  /** Nothing is read before it is written: only physical registers are live into the function. */
  ghost predicate NoVirtualLiveIn(g: Graph, c: Code) {
    forall o: Operand :: o.Virtual? ==> !LiveIn(g, c, g.entry, o)
  }

  lemma StartRelated(g: Graph, c: Code, a: Allocation, sp: int, init: State)
    requires g.entry in c && NoVirtualLiveIn(g, c) && AllocationShape(a)
    ensures Related(g, c, a, sp, g.entry, 0, init, init)
  {
    forall o: Operand | IsReg(o) && LiveAt(g, c, g.entry, o, 0) ensures Val(init.env, o) == Content(init, sp,
        PlaceOf(a, o)) {
      LiveAtStart(c[g.entry], LiveOut(g, c, g.entry, o), o);
      LiveInStep(g, c, g.entry, o);
    }
  }

  /** All that allocation must guarantee. */
  ghost predicate Allocated(g: Graph, c: Code, out: OutCode, a: Allocation) {
    && WellFormed(g) && c.Keys == g.succ.Keys
    && AllSpillable(c) && NoVirtualLiveIn(g, c)
    && AllocationShape(a) && Compatible(g, c, a) && TempsFree(g, c, a)
    && Rewritten(c, out, a)
  }

  lemma PathSteps(g: Graph, path: seq<BlockId>, b: BlockId) returns (q: seq<BlockId>, prev: BlockId)
    requires WellFormed(g) && IsPath(g, path, g.entry, b) && |path| > 1
    ensures q == path[..|path| - 1] && path[|path| - 1] == b && IsPath(g, q, g.entry, prev) && Edge(g, prev, b)
  {
    q, prev := DropLast(g, path, g.entry, b);
    assert q == path[..|path| - 1];
  }

  lemma BlocksExist(g: Graph, c: Code, path: seq<BlockId>, b: BlockId)
    requires WellFormed(g) && c.Keys == g.succ.Keys && IsPath(g, path, g.entry, b)
    ensures b in c && forall x :: x in path ==> x in c
  {
    PathEnds(g, path, g.entry, b);
  }

  lemma {:induction false} RunRelated(m: Machine, g: Graph, c: Code, out: OutCode, a: Allocation, sp: int,
                                      path: seq<BlockId>, b: BlockId, init: State)
    requires Allocated(g, c, out, a) && IsPath(g, path, g.entry, b)
    requires (forall x :: x in path ==> x in c) && SteadyRun(m, c, a, path, init, sp)
    ensures out.Keys == c.Keys && b in c
    ensures Related(g, c, a, sp, b, |c[b]|, Run(m, c, path, init), RunOut(m, out, path, init))
  {
    hide *;
    AllocatedFacts(g, c, out, a);
    BlocksExist(g, c, path, b);
    PathEnds(g, path, g.entry, b);
    var n := |path| - 1;
    if n == 0 {
      SinglePath(g, path, b);
      StartRelated(g, c, a, sp, init);
      RunSteps(m, c, out, a, path, init, sp);
      NoRun(m, c, out, init);
      assert path[..n] == [];
      BodyRelated(m, g, c, out, a, sp, b, |c[b]|, init, init);
    } else {
      var q, prev := PathSteps(g, path, b);
      BlocksExist(g, c, q, prev);
      RunSteps(m, c, out, a, path, init, sp);
      RunRelated(m, g, c, out, a, sp, q, prev, init);
      RelatedAcrossEdge(g, c, a, sp, prev, b, Run(m, c, q, init), RunOut(m, out, q, init));
      BodyRelated(m, g, c, out, a, sp, b, |c[b]|, Run(m, c, q, init), RunOut(m, out, q, init));
    }
    RewrittenFacts(c, out, a, b);
    assert c[b][..|c[b]|] == c[b] && out[b][..|c[b]|] == out[b];
  }

  /** What the last block of a path hands over is the same in both runs. */
  lemma RunHandsOver(m: Machine, g: Graph, c: Code, out: OutCode, a: Allocation, sp: int, path: seq<BlockId>,
                     b: BlockId, init: State,
                     k: nat, o: Operand)
    requires Allocated(g, c, out, a) && IsPath(g, path, g.entry, b)
    requires (forall x :: x in path ==> x in c) && SteadyRun(m, c, a, path, init, sp)
    requires b in c && HandedOver(c[b], k, o)
    ensures out.Keys == c.Keys
    ensures Val(Run(m, c, path, init).env, o) == Val(RunOut(m, out, path, init).env, o)
  {
    hide *;
    AllocatedFacts(g, c, out, a);
    PathEnds(g, path, g.entry, b);
    HandedOverBounds(c[b], k, o);
    RewrittenFacts(c, out, a, b);
    RunSteps(m, c, out, a, path, init, sp);
    var n := |path| - 1;
    if n == 0 {
      SinglePath(g, path, b);
      StartRelated(g, c, a, sp, init);
      NoRun(m, c, out, init);
      assert path[..n] == [];
      HandedOverKept(m, g, c, out, a, sp, b, k, |c[b]|, init, init, o);
    } else {
      var q, prev := PathSteps(g, path, b);
      BlocksExist(g, c, q, prev);
      RunRelated(m, g, c, out, a, sp, q, prev, init);
      RelatedAcrossEdge(g, c, a, sp, prev, b, Run(m, c, q, init), RunOut(m, out, q, init));
      HandedOverKept(m, g, c, out, a, sp, b, k, |c[b]|, Run(m, c, q, init), RunOut(m, out, q, init), o);
    }
    assert c[b][..|c[b]|] == c[b] && out[b][..|c[b]|] == out[b];
  }

  lemma HandedOverBounds(body: seq<Instr>, k: nat, o: Operand)
    requires HandedOver(body, k, o)
    ensures k < |body|
  {
  }

  lemma SinglePath(g: Graph, path: seq<BlockId>, b: BlockId)
    requires IsPath(g, path, g.entry, b) && |path| == 1
    ensures b == g.entry
  {
  }

  lemma NoRun(m: Machine, c: Code, out: OutCode, init: State)
    ensures Run(m, c, [], init) == init && RunOut(m, out, [], init) == init
  {
  }

  lemma AllocatedFacts(g: Graph, c: Code, out: OutCode, a: Allocation)
    requires Allocated(g, c, out, a)
    ensures WellFormed(g) && c.Keys == g.succ.Keys && out.Keys == c.Keys && g.entry in c
    ensures AllSpillable(c) && NoVirtualLiveIn(g, c)
    ensures AllocationShape(a) && Compatible(g, c, a) && TempsFree(g, c, a) && Rewritten(c, out, a)
  {
    hide AllSpillable, NoVirtualLiveIn, AllocationShape, Compatible, TempsFree, ExpandedAt;
  }

  lemma RunSteps(m: Machine, c: Code, out: OutCode, a: Allocation, path: seq<BlockId>, init: State, sp: int)
    requires (forall x :: x in path ==> x in c) && SteadyRun(m, c, a, path, init, sp) && path != []
        && out.Keys == c.Keys
    ensures var n := |path| - 1;
            && path[n] in c && (forall x :: x in path[..n] ==> x in c)
            && SteadyRun(m, c, a, path[..n], init, sp)
            && SteadyBody(m, a, c[path[n]], Run(m, c, path[..n], init), sp)
            && Run(m, c, path, init) == ExecBody(m, c[path[n]], Run(m, c, path[..n], init))
            && RunOut(m, out, path, init) == ExecGroups(m, out[path[n]], RunOut(m, out, path[..n], init))
  {
    hide SteadyBody, ExecBody, ExecGroups;
    assert path == path[..|path| - 1] + [path[|path| - 1]];
  }

  /** Register rewriting with spilling preserves meaning: along every path, whatever the instructions
      mean, the rewritten program executes the original instructions in the same order with the same
      input values, and leaves the same world. */
  lemma AllocationPreservesRuns(m: Machine, g: Graph, c: Code, out: OutCode, a: Allocation, sp: int,
                                path: seq<BlockId>, b: BlockId, init: State)
    requires Allocated(g, c, out, a) && IsPath(g, path, g.entry, b)
    requires (forall x :: x in path ==> x in c) && SteadyRun(m, c, a, path, init, sp)
    ensures out.Keys == c.Keys
    ensures Run(m, c, path, init).trace == RunOut(m, out, path, init).trace
    ensures Run(m, c, path, init).world == RunOut(m, out, path, init).world
  {
    hide Allocated, SteadyRun, Run, RunOut, LiveAt;
    RunRelated(m, g, c, out, a, sp, path, b, init);
  }

  /** Along every path that keeps the stack pointer, whatever the instructions mean, the rewritten
      program shows the events of the original in the same order, leaves the same world, and hands over
      the same values in physical registers. */
  ghost predicate SameRunsRewritten(g: Graph, c: Code, out: OutCode, a: Allocation) {
    forall m: Machine, path: seq<BlockId>, b: BlockId, init: State, sp: int ::
      IsPath(g, path, g.entry, b) && (forall x :: x in path ==> x in c) && SteadyRun(m, c, a, path, init, sp)
      ==> SameRun(m, c, out, path, init)
  }

  ghost predicate SameRun(m: Machine, c: Code, out: OutCode, path: seq<BlockId>, init: State)
    requires forall x :: x in path ==> x in c
  {
    && out.Keys == c.Keys
    && Run(m, c, path, init).trace == RunOut(m, out, path, init).trace
    && Run(m, c, path, init).world == RunOut(m, out, path, init).world
    && (path != [] ==> SameHandover(c[path[|path| - 1]], Run(m, c, path, init), RunOut(m, out, path, init)))
  }

  ghost predicate SameHandover(body: seq<Instr>, s: State, t: State) {
    forall k: nat, o: Operand :: HandedOver(body, k, o) ==> Val(s.env, o) == Val(t.env, o)
  }

  lemma AllocatedRunsSame(g: Graph, c: Code, out: OutCode, a: Allocation)
    requires Allocated(g, c, out, a)
    ensures SameRunsRewritten(g, c, out, a)
  {
    hide Allocated, SteadyRun, Run, RunOut, IsPath;
    forall m: Machine, path: seq<BlockId>, b: BlockId, init: State, sp: int
      | IsPath(g, path, g.entry, b) && (forall x :: x in path ==> x in c) && SteadyRun(m, c, a, path, init, sp)
      ensures SameRun(m, c, out, path, init)
    {
      AllocationPreservesRuns(m, g, c, out, a, sp, path, b, init);
      AllocatedFacts(g, c, out, a);
      PathEnds(g, path, g.entry, b);
      BlocksExist(g, c, path, b);
      AllHandedOver(m, g, c, out, a, sp, path, b, init);
    }
  }

  lemma AllHandedOver(m: Machine, g: Graph, c: Code, out: OutCode, a: Allocation, sp: int, path: seq<BlockId>,
                      b: BlockId, init: State)
    requires Allocated(g, c, out, a) && IsPath(g, path, g.entry, b) && b in c && out.Keys == c.Keys
    requires (forall x :: x in path ==> x in c) && SteadyRun(m, c, a, path, init, sp)
    ensures SameHandover(c[b], Run(m, c, path, init), RunOut(m, out, path, init))
  {
    hide Allocated, IsPath, SteadyRun, Run, RunOut, HandedOver;
    forall k: nat, o: Operand | HandedOver(c[b], k, o)
      ensures Val(Run(m, c, path, init).env, o) == Val(RunOut(m, out, path, init).env, o)
    {
      RunHandsOver(m, g, c, out, a, sp, path, b, init, k, o);
    }
  }

  /** The stack pointer is steady in every run if no instruction defines it. */
  lemma {:induction false} UntouchedIsSteady(m: Machine, c: Code, a: Allocation, path: seq<BlockId>, init: State,
                                             sp: int)
    requires (forall x :: x in path ==> x in c) && Val(init.env, SP) == sp
    requires forall b, i: nat :: At(c, b, i) ==> SP !in c[b][i].defs
    ensures SteadyRun(m, c, a, path, init, sp) && Val(Run(m, c, path, init).env, SP) == sp
  {
    hide HasSpilled, ExecBody;
    if path == [] {
    } else {
      var n := |path| - 1;
      var b := path[n];
      UntouchedIsSteady(m, c, a, path[..n], init, sp);
      forall i: nat | i <= |c[b]| ensures Val(ExecBody(m, c[b][..i], Run(m, c, path[..n], init)).env, SP) == sp {
        forall j | 0 <= j < i ensures SP !in c[b][..i][j].defs {
          assert At(c, b, j) && c[b][..i][j] == c[b][j];
        }
        BodyKeepsSp(m, c[b][..i], Run(m, c, path[..n], init));
      }
      assert c[b][..|c[b]|] == c[b];
      forall i: nat | i < |c[b]| ensures SP !in c[b][i].defs {
        assert At(c, b, i);
      }
    }
  }

  lemma {:induction false} BodyKeepsSp(m: Machine, body: seq<Instr>, st: State)
    requires forall j :: 0 <= j < |body| ==> SP !in body[j].defs
    ensures Val(ExecBody(m, body, st).env, SP) == Val(st.env, SP)
  {
    if body == [] {
    } else {
      var n := |body| - 1;
      BodyKeepsSp(m, body[..n], st);
      OthersKeepValues(m, body[n], ExecBody(m, body[..n], st));
    }
  }

  // ----- from ranges to compatibility -----

  /** Registers that share a physical register have no conflicting ranges, nor do they conflict with
      that register's own. */
  ghost predicate NoSharing(ranges: map<Operand, seq<Range>>, regOf: map<Operand, Register>) {
    && (forall x, y ::
        x in regOf && y in regOf && x != y && regOf[x] == regOf[y]
        ==> !Interfere(ListOf(ranges, x), ListOf(ranges, y)))
    && (forall x :: x in regOf ==> !Interfere(ListOf(ranges, x), ListOf(ranges, Physical(regOf[x]))))
  }

  /** Ranges that do not conflict make the allocation compatible with liveness. */
  lemma NoSharingCompatible(g: Graph, c: Code, layout: seq<BlockId>, id2num: map<Liveness.InstrId, nat>,
                            ranges: map<Operand, seq<Range>>, a: Allocation)
    requires FunctionShape(g, c, layout) && RangesCorrect(g, c, layout, id2num, ranges)
    requires AllSpillable(c) && AllocationShape(a) && NoSharing(ranges, a.regOf)
    ensures Compatible(g, c, a)
  {
    hide FunctionShape, RangesCorrect, LiveAt, ListOf, AllSpillable;
    forall b, i: nat, d, o | At(c, b, i) && d in c[b][i].defs && IsReg(o) && o != d
        && (o in c[b][i].defs || LiveAt(g, c, b, o, i + 1))
      ensures Apart(PlaceOf(a, d), PlaceOf(a, o))
    {
      DefsAreRegs(c, b, i, d);
      DefinitionInterferes(g, c, layout, id2num, ranges, b, d, o, i);
      ApartIfInterfering(ranges, a, d, o);
    }
  }

  lemma DefsAreRegs(c: Code, b: BlockId, i: nat, d: Operand)
    requires AllSpillable(c) && At(c, b, i) && d in c[b][i].defs
    ensures IsReg(d)
  {
    assert SpillableInstr(c[b][i]);
  }

  lemma ApartIfInterfering(ranges: map<Operand, seq<Range>>, a: Allocation, d: Operand, o: Operand)
    requires AllocationShape(a) && NoSharing(ranges, a.regOf) && d != o
    requires Interfere(ListOf(ranges, d), ListOf(ranges, o)) && Interfere(ListOf(ranges, o), ListOf(ranges, d))
    ensures Apart(PlaceOf(a, d), PlaceOf(a, o))
  {
    hide Interfere, ListOf;
  }
}
