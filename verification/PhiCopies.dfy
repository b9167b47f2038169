/** Phi elimination, one edge at a time: copies in the order of the phis, with fresh temporaries for
    the results that a later phi still reads, have the effect of all the phis at once. */
module PhiCopies {
  import opened BackendRegisters
  import opened ControlFlowGraph
  import opened PhiProgram

  /** Bring the value of `src` into `d`; `tmp` holds an immediate or an address that does not fit. */
  function CopyCode(d: Operand, src: Operand, tmp: Operand): seq<Instr> {
    match src
    case Imm(value) => if d.Virt? && d.isFloat then [Li(tmp, value), Fmv(d, tmp)] else [Li(d, value)]
    case Local(offset, base) =>
      if base == S0 then
        if ItypeImmediate(offset) then [LoadD(d, Phys(base), offset)]
        else [Li(tmp, offset), Add(tmp, Phys(base), tmp), LoadD(d, tmp, 0)]
      else
        if ItypeImmediate(offset) then [AddI(d, Phys(base), offset)]
        else [Li(tmp, offset), Add(d, Phys(base), tmp)]
    case Global(id) => [La(d, id)]
    case _ => [Mv(d, src)]
  }

  predicate NeedsTemp(d: Operand, src: Operand) {
    match src
    case Imm(_) => d.Virt? && d.isFloat
    case Local(offset, _) => !ItypeImmediate(offset)
    case _ => false
  }

  lemma CopyRuns(m: Machine, d: Operand, src: Operand, tmp: Operand, st: State)
    requires d.Virt? && tmp.Virt? && tmp != d && tmp != src
    ensures var t := ExecCode(m, CopyCode(d, src, tmp), st);
            && t.world == st.world && t.trace == st.trace
            && Reg(t.env, d) == Val(m, st, src)
            && (forall o: Operand :: o != d && o != tmp ==> Reg(t.env, o) == Reg(st.env, o))
  {
    var code := CopyCode(d, src, tmp);
    ShortCode(m, code, st);
    hide ExecCode;
  }

  lemma ShortCode(m: Machine, code: seq<Instr>, st: State)
    requires 1 <= |code| <= 3
    ensures |code| == 1 ==> ExecCode(m, code, st) == Exec(m, code[0], st)
    ensures |code| == 2 ==> ExecCode(m, code, st) == Exec(m, code[1], Exec(m, code[0], st))
    ensures |code| == 3 ==> ExecCode(m, code, st) == Exec(m, code[2], Exec(m, code[1], Exec(m, code[0], st)))
  {
    hide Exec;
    assert code[..0] == [];
    assert code[..1][..0] == [];
    if |code| >= 2 {
      assert code[..2][..1] == code[..1];
      assert ExecCode(m, code[..1], st) == Exec(m, code[0], st);
    }
    if |code| == 3 {
      assert ExecCode(m, code[..2], st) == Exec(m, code[1], ExecCode(m, code[..1], st));
    }
  }

  // ----- conflicts -----

  predicate Reads(phi: Phi, o: Operand) {
    exists k :: 0 <= k < |phi.incoming| && phi.incoming[k].0 == o
  }

  /** A later phi reads the result `o` of an earlier one. */
  ghost predicate InConflict(phis: seq<Phi>, o: Operand) {
    exists i, j :: 0 <= i < j < |phis| && phis[i].rd == o && Reads(phis[j], o)
  }

  function Dst(temps: map<Operand, Operand>, rd: Operand): Operand {
    if rd in temps then temps[rd] else rd
  }

  /** Exactly the results in conflict have temporaries: registers of their class from `lo` on, one each. */
  ghost predicate TempsFit(temps: map<Operand, Operand>, phis: seq<Phi>, lo: nat) {
    && (forall i :: 0 <= i < |phis| ==> (phis[i].rd in temps <==> InConflict(phis, phis[i].rd)))
    && (forall o :: o in temps ==> o.Virt? && o.id < lo && temps[o].Virt? && temps[o].id >= lo)
    && (forall o :: o in temps ==> o.Virt? && temps[o].Virt? && temps[o].isFloat == o.isFloat)
    && (forall o, p :: o in temps && p in temps && temps[o] == temps[p] ==> o == p)
  }

  /** `seg` brings `src` into `d`, with a temporary from `lo` on that is not in `taken`. */
  ghost predicate IsCopy(seg: seq<Instr>, d: Operand, src: Operand, lo: nat, taken: set<Operand>) {
    exists tmp: nat :: tmp >= lo && Virt(tmp, false) !in taken && seg == CopyCode(d, src, Virt(tmp, false))
  }

  /** `code` is the copies for the edge from `from`, in the order of the phis. */
  ghost predicate CopiesFor(code: seq<Instr>, phis: seq<Phi>, from: BlockId, temps: map<Operand, Operand>, lo: nat)
    decreases |phis|
  {
    if phis == [] then code == []
    else
      var phi := phis[|phis| - 1];
      exists pre, seg :: code == pre + seg && CopiesFor(pre, phis[..|phis| - 1], from, temps, lo)
                         && IsCopy(seg, Dst(temps, phi.rd), Source(phi.incoming, from), lo, temps.Values)
  }

  lemma LastCopy(code: seq<Instr>, all: seq<Phi>, n: nat, from: BlockId, temps: map<Operand, Operand>, lo: nat)
    returns (pre: seq<Instr>, seg: seq<Instr>, tmp: nat)
    requires n < |all| && CopiesFor(code, all[..n + 1], from, temps, lo)
    ensures code == pre + seg && CopiesFor(pre, all[..n], from, temps, lo)
    ensures tmp >= lo && Virt(tmp, false) !in temps.Values
    ensures seg == CopyCode(Dst(temps, all[n].rd), Source(all[n].incoming, from), Virt(tmp, false))
  {
    hide CopyCode;
    assert all[..n + 1][..n] == all[..n];
    pre, seg :| code == pre + seg && CopiesFor(pre, all[..n], from, temps, lo)
                && IsCopy(seg, Dst(temps, all[n].rd), Source(all[n].incoming, from), lo, temps.Values);
    tmp :| tmp >= lo && Virt(tmp, false) !in temps.Values && seg == CopyCode(Dst(temps, all[n].rd),
        Source(all[n].incoming, from), Virt(tmp, false));
  }

  /** What the copies for a prefix of the phis do. */
  ghost predicate Copied(m: Machine, phis: seq<Phi>, from: BlockId, temps: map<Operand, Operand>, lo: nat, st: State,
                         t: State) {
    && t.world == st.world && t.trace == st.trace
    && (forall i :: 0 <= i < |phis| ==> Reg(t.env, Dst(temps, phis[i].rd)) == Val(m, st,
        Source(phis[i].incoming, from)))
    && (forall o: Operand :: Below(o, lo) && NotWritten(o, phis, temps) ==> Reg(t.env, o) == Reg(st.env, o))
  }

  ghost predicate NotWritten(o: Operand, phis: seq<Phi>, temps: map<Operand, Operand>) {
    forall i :: 0 <= i < |phis| ==> o != Dst(temps, phis[i].rd)
  }

  lemma {:induction false} SourceIsRead(incoming: seq<(Operand, BlockId)>, from: BlockId)
    ensures Source(incoming, from) == Imm(0) || exists k ::
        0 <= k < |incoming|
        && incoming[k].0 == Source(incoming, from)
  {
    if incoming != [] && incoming[|incoming| - 1].1 != from {
      var n := |incoming| - 1;
      SourceIsRead(incoming[..n], from);
      if Source(incoming, from) != Imm(0) {
        var k :| 0 <= k < n && incoming[..n][k].0 == Source(incoming, from);
        assert incoming[k].0 == Source(incoming, from);
      }
    }
  }

  /** The operand of the last phi still has its old value when its copy is reached. */
  lemma SourceUntouched(m: Machine, all: seq<Phi>, n: nat, from: BlockId, temps: map<Operand, Operand>, lo: nat,
                        st: State, t: State)
    requires n < |all| && TempsFit(temps, all, lo) && (forall i :: 0 <= i < |all| ==> PhiBelow(all[i], lo))
    requires Copied(m, all[..n], from, temps, lo, st, t)
    ensures Val(m, t, Source(all[n].incoming, from)) == Val(m, st, Source(all[n].incoming, from))
  {
    var src := Source(all[n].incoming, from);
    SourceIsRead(all[n].incoming, from);
    if src != Imm(0) {
      assert Reads(all[n], src);
      assert Below(src, lo);
    }
    forall o: Operand | (o == src || o.Phys?) && IsRegister(o) ensures Reg(t.env, o) == Reg(st.env, o) {
      forall i | 0 <= i < n ensures o != Dst(temps, all[..n][i].rd) {
        assert all[..n][i] == all[i] && PhiBelow(all[i], lo);
        if all[i].rd == o {
          assert InConflict(all, all[i].rd);
        }
      }
    }
  }

  /** The destinations of earlier copies are not the one written now. */
  lemma EarlierDestinations(all: seq<Phi>, n: nat, temps: map<Operand, Operand>, lo: nat, tmp: nat)
    requires n < |all| && TempsFit(temps, all, lo) && (forall i :: 0 <= i < |all| ==> PhiBelow(all[i], lo))
    requires forall i, j :: 0 <= i < j < |all| ==> all[i].rd != all[j].rd
    requires tmp >= lo && Virt(tmp, false) !in temps.Values
    ensures forall i :: 0 <= i < n ==>
        Dst(temps, all[i].rd) != Dst(temps, all[n].rd)
        && Dst(temps, all[i].rd) != Virt(tmp, false)
  {
    forall i | 0 <= i < n ensures Dst(temps, all[i].rd) != Dst(temps, all[n].rd)
        && Dst(temps, all[i].rd) != Virt(tmp, false) {
      assert PhiBelow(all[i], lo) && PhiBelow(all[n], lo);
      if all[i].rd in temps { assert temps[all[i].rd] in temps.Values; }
    }
  }

  lemma CopyOneMore(m: Machine, all: seq<Phi>, n: nat, from: BlockId, temps: map<Operand, Operand>, lo: nat, st: State,
                    t: State, u: State, tmp: nat)
    requires n < |all| && TempsFit(temps, all, lo) && (forall i :: 0 <= i < |all| ==> PhiBelow(all[i], lo))
    requires forall i, j :: 0 <= i < j < |all| ==> all[i].rd != all[j].rd
    requires Copied(m, all[..n], from, temps, lo, st, t) && tmp >= lo && Virt(tmp, false) !in temps.Values
    requires u.world == t.world && u.trace == t.trace
    requires var d := Dst(temps, all[n].rd);
             && Reg(u.env, d) == Val(m, st, Source(all[n].incoming, from))
             && (forall o: Operand :: o != d && o != Virt(tmp, false) ==> Reg(u.env, o) == Reg(t.env, o))
    ensures Copied(m, all[..n + 1], from, temps, lo, st, u)
  {
    hide *;
    EarlierDestinations(all, n, temps, lo, tmp);
    CopiedMeans(m, all[..n], from, temps, lo, st, t);
    ValuesOneMore(m, all, n, all[..n], all[..n + 1], from, temps, st, t.env, u.env, tmp);
    forall o: Operand | Below(o, lo) && NotWritten(o, all[..n + 1], temps)
      ensures Reg(u.env, o) == Reg(st.env, o)
    {
      BelowIsNotFresh(o, lo, tmp);
      WrittenByOneMore(o, all, n, temps);
    }
    CopiedHolds(m, all[..n + 1], from, temps, lo, st, u);
  }

  lemma BelowIsNotFresh(o: Operand, lo: nat, tmp: nat)
    requires Below(o, lo) && tmp >= lo
    ensures o != Virt(tmp, false)
  {
  }

  lemma CopiedMeans(m: Machine, phis: seq<Phi>, from: BlockId, temps: map<Operand, Operand>, lo: nat, st: State,
                    t: State)
    requires Copied(m, phis, from, temps, lo, st, t)
    ensures t.world == st.world && t.trace == st.trace
    ensures forall i :: 0 <= i < |phis| ==> Reg(t.env, Dst(temps, phis[i].rd)) == Val(m, st,
        Source(phis[i].incoming, from))
    ensures forall o: Operand :: Below(o, lo) && NotWritten(o, phis, temps) ==> Reg(t.env, o) == Reg(st.env, o)
  {
  }

  lemma CopiedHolds(m: Machine, phis: seq<Phi>, from: BlockId, temps: map<Operand, Operand>, lo: nat, st: State,
                    t: State)
    requires t.world == st.world && t.trace == st.trace
    requires forall i :: 0 <= i < |phis| ==> Reg(t.env, Dst(temps, phis[i].rd)) == Val(m, st,
        Source(phis[i].incoming, from))
    requires forall o: Operand :: Below(o, lo) && NotWritten(o, phis, temps) ==> Reg(t.env, o) == Reg(st.env, o)
    ensures Copied(m, phis, from, temps, lo, st, t)
  {
  }

  lemma ValuesOneMore(m: Machine, all: seq<Phi>, n: nat, was: seq<Phi>, now: seq<Phi>, from: BlockId,
                      temps: map<Operand, Operand>,
                      st: State, before: map<Operand, Value>, after: map<Operand, Value>, tmp: nat)
    requires n < |all| && was == all[..n] && now == all[..n + 1]
    requires forall i :: 0 <= i < |was| ==> Reg(before, Dst(temps, was[i].rd)) == Val(m, st,
        Source(was[i].incoming, from))
    requires forall i :: 0 <= i < n ==>
        Dst(temps, all[i].rd) != Dst(temps, all[n].rd)
        && Dst(temps, all[i].rd) != Virt(tmp, false)
    requires var d := Dst(temps, all[n].rd);
             && Reg(after, d) == Val(m, st, Source(all[n].incoming, from))
             && (forall o: Operand :: o != d && o != Virt(tmp, false) ==> Reg(after, o) == Reg(before, o))
    ensures forall i :: 0 <= i < |now| ==> Reg(after, Dst(temps, now[i].rd)) == Val(m, st,
        Source(now[i].incoming, from))
  {
    hide *;
    forall i | 0 <= i < |now|
      ensures Reg(after, Dst(temps, now[i].rd)) == Val(m, st, Source(now[i].incoming, from))
    {
      assert now[i] == all[i];
      if i < n {
        assert was[i] == all[i];
      }
    }
  }

  lemma WrittenByOneMore(o: Operand, all: seq<Phi>, n: nat, temps: map<Operand, Operand>)
    requires n < |all| && NotWritten(o, all[..n + 1], temps)
    ensures NotWritten(o, all[..n], temps) && o != Dst(temps, all[n].rd)
  {
    hide Dst;
    assert all[..n + 1][n] == all[n];
    forall i | 0 <= i < n ensures o != Dst(temps, all[..n][i].rd) {
      assert all[..n + 1][i] == all[..n][i];
    }
  }

  lemma {:induction false} CopiesRun(m: Machine, code: seq<Instr>, all: seq<Phi>, n: nat, from: BlockId,
                                     temps: map<Operand, Operand>, lo: nat, st: State)
    requires n <= |all| && CopiesFor(code, all[..n], from, temps, lo)
    requires TempsFit(temps, all, lo) && (forall i :: 0 <= i < |all| ==> PhiBelow(all[i], lo))
    requires forall i, j :: 0 <= i < j < |all| ==> all[i].rd != all[j].rd
    ensures Copied(m, all[..n], from, temps, lo, st, ExecCode(m, code, st))
    decreases n
  {
    if n > 0 {
      hide *;
      var pre, seg, tmp := LastCopy(code, all, n - 1, from, temps, lo);
      CopiesRun(m, pre, all, n - 1, from, temps, lo, st);
      ExecConcat(m, pre, seg, st);
      CopyStep(m, all, n - 1, from, temps, lo, st, ExecCode(m, pre, st), tmp);
    }
  }

  lemma CopyStep(m: Machine, all: seq<Phi>, n: nat, from: BlockId, temps: map<Operand, Operand>, lo: nat, st: State,
                 t: State, tmp: nat)
    requires n < |all| && TempsFit(temps, all, lo) && (forall i :: 0 <= i < |all| ==> PhiBelow(all[i], lo))
    requires forall i, j :: 0 <= i < j < |all| ==> all[i].rd != all[j].rd
    requires Copied(m, all[..n], from, temps, lo, st, t) && tmp >= lo && Virt(tmp, false) !in temps.Values
    ensures Copied(m, all[..n + 1], from, temps, lo, st,
                   ExecCode(m, CopyCode(Dst(temps, all[n].rd), Source(all[n].incoming, from), Virt(tmp, false)), t))
  {
    hide ExecCode, CopyCode, Copied, InConflict;
    var d, src := Dst(temps, all[n].rd), Source(all[n].incoming, from);
    SourceUntouched(m, all, n, from, temps, lo, st, t);
    SourceIsRead(all[n].incoming, from);
    assert PhiBelow(all[n], lo);
    assert d.Virt? && d != Virt(tmp, false) && src != Virt(tmp, false) by {
      if all[n].rd in temps { assert temps[all[n].rd] in temps.Values; }
    }
    CopyRuns(m, d, src, Virt(tmp, false), t);
    CopiedFacts(m, all[..n], from, temps, lo, st, t);
    CopyOneMore(m, all, n, from, temps, lo, st, t, ExecCode(m, CopyCode(d, src, Virt(tmp, false)), t), tmp);
  }

  lemma CopiedFacts(m: Machine, phis: seq<Phi>, from: BlockId, temps: map<Operand, Operand>, lo: nat, st: State,
                    t: State)
    requires Copied(m, phis, from, temps, lo, st, t)
    ensures t.world == st.world && t.trace == st.trace
  {
  }

  // ----- the moves at the head of the block -----

  /** One move out of each temporary, in any order. */
  ghost predicate HeadsFor(heads: seq<Instr>, temps: map<Operand, Operand>) {
    && (forall k :: 0 <= k < |heads| ==> IsHead(heads[k], temps))
    && (forall o :: o in temps ==> Mv(o, temps[o]) in heads)
  }

  predicate IsHead(ins: Instr, temps: map<Operand, Operand>) {
    ins.Mv? && ins.rd in temps && ins.rs == temps[ins.rd]
  }

  lemma {:induction false} HeadsRun(m: Machine, heads: seq<Instr>, temps: map<Operand, Operand>, lo: nat, st: State,
                                    o: Operand)
    requires forall k :: 0 <= k < |heads| ==> IsHead(heads[k], temps)
    requires forall o :: o in temps ==> o.Virt? && o.id < lo && temps[o].Virt? && temps[o].id >= lo
    ensures var t := ExecCode(m, heads, st);
            && t.world == st.world && t.trace == st.trace
            && (o !in temps ==> Reg(t.env, o) == Reg(st.env, o))
            && (o in temps && Mv(o, temps[o]) in heads ==> Reg(t.env, o) == Reg(st.env, temps[o]))
    decreases |heads|
  {
    if heads != [] {
      var n := |heads| - 1;
      var ins := heads[n];
      assert heads == heads[..n] + [ins];
      HeadsRun(m, heads[..n], temps, lo, st, o);
      HeadsRun(m, heads[..n], temps, lo, st, ins.rs);
    }
  }

  // ----- one edge -----

  /** Equal as far as the original program can tell. */
  ghost predicate Agree(s: State, t: State, lo: nat) {
    && s.world == t.world && s.trace == t.trace
    && forall o: Operand :: Below(o, lo) ==> Reg(s.env, o) == Reg(t.env, o)
  }

  lemma {:induction false} PhiEnvAt(m: Machine, phis: seq<Phi>, from: BlockId, st: State, o: Operand)
    requires forall i, j :: 0 <= i < j < |phis| ==> phis[i].rd != phis[j].rd
    ensures (forall i :: 0 <= i < |phis| ==> phis[i].rd != o) ==> Reg(PhiEnv(m, phis, from, st), o) == Reg(st.env, o)
    ensures forall i :: 0 <= i < |phis| && phis[i].rd == o ==> Reg(PhiEnv(m, phis, from, st), o) == Val(m, st,
        Source(phis[i].incoming, from))
  {
    if phis != [] {
      var n := |phis| - 1;
      PhiEnvAt(m, phis[..n], from, st, o);
      forall i | 0 <= i < n ensures phis[..n][i] == phis[i] {
      }
      if phis[n].rd != o {
        forall i | 0 <= i < |phis| && phis[i].rd == o ensures Reg(PhiEnv(m, phis, from, st), o) == Val(m, st,
            Source(phis[i].incoming, from)) {
          assert phis[..n][i].rd == o;
        }
      }
    }
  }

  /** Phi elimination on one edge: the copies, then the moves at the head of the block, leave every
      phi result with its operand's old value, swaps and chains included, and change nothing else
      the original program can see. */
  lemma EdgeIsParallel(m: Machine, code: seq<Instr>, heads: seq<Instr>, phis: seq<Phi>, from: BlockId,
                       temps: map<Operand, Operand>, lo: nat, st: State)
    requires CopiesFor(code, phis, from, temps, lo) && HeadsFor(heads, temps) && TempsFit(temps, phis, lo)
    requires (forall i :: 0 <= i < |phis| ==> PhiBelow(phis[i], lo))
    requires forall i, j :: 0 <= i < j < |phis| ==> phis[i].rd != phis[j].rd
    requires forall o :: o in temps ==> exists i :: 0 <= i < |phis| && phis[i].rd == o
    ensures Agree(Enter(m, phis, from, st), ExecCode(m, heads, ExecCode(m, code, st)), lo)
  {
    hide InConflict;
    assert phis[..|phis|] == phis;
    CopiesRun(m, code, phis, |phis|, from, temps, lo, st);
    hide CopiesFor, ExecCode;
    var t := ExecCode(m, code, st);
    var u := ExecCode(m, heads, t);
    forall o: Operand | Below(o, lo) ensures Reg(Enter(m, phis, from, st).env, o) == Reg(u.env, o) {
      PhiEnvAt(m, phis, from, st, o);
      HeadsRun(m, heads, temps, lo, t, o);
      EdgeOperand(m, phis, from, temps, lo, st, t, o);
    }
    HeadsRun(m, heads, temps, lo, t, Imm(0));
    CopiedFacts(m, phis, from, temps, lo, st, t);
  }

  /** After the copies: a result is in its temporary or already in place; anything else is as it was. */
  lemma EdgeOperand(m: Machine, phis: seq<Phi>, from: BlockId, temps: map<Operand, Operand>, lo: nat, st: State,
                    t: State, o: Operand)
    requires Copied(m, phis, from, temps, lo, st, t) && TempsFit(temps, phis, lo) && Below(o, lo)
    requires forall i, j :: 0 <= i < j < |phis| ==> phis[i].rd != phis[j].rd
    requires (forall i :: 0 <= i < |phis| ==> PhiBelow(phis[i], lo))
    ensures forall i :: 0 <= i < |phis| && phis[i].rd == o ==> Reg(t.env, Dst(temps, o)) == Val(m, st,
        Source(phis[i].incoming, from))
    ensures (forall i :: 0 <= i < |phis| ==> phis[i].rd != o) ==> Reg(t.env, o) == Reg(st.env, o)
  {
    hide InConflict;
    if forall i :: 0 <= i < |phis| ==> phis[i].rd != o {
      forall i | 0 <= i < |phis| ensures o != Dst(temps, phis[i].rd) {
        assert PhiBelow(phis[i], lo);
      }
    }
  }
}
