/** Live ranges: the interval of instruction numbers a register occupies, found by one backward scan
    of a block, and the interference test on them. */
module LiveRanges {
  import opened ControlFlowGraph
  import opened AsmProgram
  import opened BackendRegisters

  /** Both ends are numbers of instructions of `block`, and both belong to the range. */
  datatype Range = Range(begin: nat, end: nat, count: nat, block: BlockId)

  /** The interference test. */
  predicate Conflict(a: Range, b: Range) {
    || (a.begin >= b.begin && a.begin < b.end)
    || (a.end > b.begin && a.end <= b.end)
    || (a.begin <= b.begin && a.end >= b.end)
  }

  /** One range ends exactly where the other begins, and each is longer than one instruction. */
  predicate OnlyTouch(a: Range, b: Range) {
    a.end == b.begin && a.begin < a.end && b.begin < b.end
  }

  predicate Covers(r: Range, m: int) {
    r.begin <= m <= r.end
  }

  /** Ranges conflict exactly if they share an instruction, except that the last use of one register
      and the definition of another may be the same instruction. */
  lemma ConflictMeaning(a: Range, b: Range)
    requires a.begin <= a.end && b.begin <= b.end
    ensures Conflict(a, b) <==> (exists m :: Covers(a, m) && Covers(b, m)) && !OnlyTouch(a, b) && !OnlyTouch(b, a)
    ensures Conflict(a, b) <==> Conflict(b, a)
  {
    if Conflict(a, b) {
      var m := if a.begin >= b.begin then a.begin else b.begin;
      assert Covers(a, m) && Covers(b, m);
    }
  }

  // ----- the backward scan of one block, seen from one register -----

  datatype Buffered = Absent | Open(range: Range)

  /** `open` is the register's entry in the range buffer, `done` the ranges already emitted. */
  datatype Scan = Scan(open: Buffered, done: seq<Range>)

  function DefStep(s: Scan, m: nat, b: BlockId): Scan {
    match s.open
    case Absent => Scan(Absent, s.done + [Range(m, m, 1, b)])
    case Open(r) => Scan(Absent, s.done + [r.(begin := m, count := r.count + 1)])
  }

  function UseStep(s: Scan, base: nat, m: nat, b: BlockId): Scan {
    match s.open
    case Absent => Scan(Open(Range(base, m, 1, b)), s.done)
    case Open(r) => Scan(Open(r.(count := r.count + 1)), s.done)
  }

  function AfterDefs(defs: seq<Operand>, o: Operand, s: Scan, m: nat, b: BlockId): Scan {
    if defs == [] then s
    else
      var t := AfterDefs(defs[..|defs| - 1], o, s, m, b);
      if defs[|defs| - 1] == o then DefStep(t, m, b) else t
  }

  function AfterUses(uses: seq<Operand>, o: Operand, s: Scan, base: nat, m: nat, b: BlockId): Scan {
    if uses == [] then s
    else
      var t := AfterUses(uses[..|uses| - 1], o, s, base, m, b);
      if uses[|uses| - 1] == o then UseStep(t, base, m, b) else t
  }

  /** The scan after it has gone back to instruction `i`. */
  function ScanFrom(instrs: seq<Instr>, base: nat, b: BlockId, liveOut: bool, o: Operand, i: nat): Scan
    requires |instrs| > 0 && i <= |instrs|
    decreases |instrs| - i
  {
    if i == |instrs| then Scan(if liveOut then Open(Range(base, base + |instrs| - 1, 0, b)) else Absent, [])
    else
      AfterUses(instrs[i].uses, o, AfterDefs(instrs[i].defs, o, ScanFrom(instrs, base, b, liveOut, o, i + 1), base + i,
          b),
                base, base + i, b)
  }

  function Known(s: Scan): seq<Range> {
    s.done + match s.open case Absent => [] case Open(r) => [r]
  }

  /** The ranges of `o` in block `b`, whose first instruction has number `base`. */
  function BlockRanges(instrs: seq<Instr>, base: nat, b: BlockId, liveOut: bool, o: Operand): seq<Range>
    requires |instrs| > 0
  {
    Known(ScanFrom(instrs, base, b, liveOut, o, 0))
  }

  // ----- liveness inside a block -----

  /** `o` is live before instruction `i`, or at the end of the block when there is none. */
  predicate LiveBefore(instrs: seq<Instr>, liveOut: bool, o: Operand, i: nat)
    requires i <= |instrs|
    decreases |instrs| - i
  {
    if i == |instrs| then liveOut
    else o in instrs[i].uses || (o !in instrs[i].defs && LiveBefore(instrs, liveOut, o, i + 1))
  }

  /** From instruction `i` on, some instruction uses `o` and none from `i` to it defines it. */
  lemma {:induction false} LiveBeforeIsUseAhead(instrs: seq<Instr>, liveOut: bool, o: Operand, i: nat)
    requires i <= |instrs|
    ensures LiveBefore(instrs, liveOut, o, i) <==>
      || (exists j: nat :: UsedAhead(instrs, o, i, j))
      || (liveOut && NeverDefined(instrs, o, i))
    decreases |instrs| - i
  {
    if i < |instrs| {
      LiveBeforeIsUseAhead(instrs, liveOut, o, i + 1);
      var I := instrs[i];
      if o in I.uses {
        assert UsedAhead(instrs, o, i, i);
      } else if o in I.defs {
        assert forall j: nat :: !UsedAhead(instrs, o, i, j);
        assert !NeverDefined(instrs, o, i);
      } else {
        assert NeverDefined(instrs, o, i) <==> NeverDefined(instrs, o, i + 1);
        var next: nat := i + 1;
        if j: nat :| UsedAhead(instrs, o, next, j) {
          assert UsedAhead(instrs, o, i, j);
        }
        if j: nat :| UsedAhead(instrs, o, i, j) {
          assert UsedAhead(instrs, o, i + 1, j);
        }
      }
    }
  }

  predicate NeverDefined(instrs: seq<Instr>, o: Operand, i: nat) {
    forall k :: i <= k < |instrs| ==> o !in instrs[k].defs
  }

  predicate UsedAhead(instrs: seq<Instr>, o: Operand, i: nat, j: nat) {
    i <= j < |instrs| && o in instrs[j].uses && forall k :: i <= k < j ==> o !in instrs[k].defs
  }

  /** Liveness before the first instruction is what the dataflow equations compute for the block. */
  lemma LiveAtStart(instrs: seq<Instr>, liveOut: bool, o: Operand)
    requires IsReg(o)
    ensures LiveBefore(instrs, liveOut, o, 0) <==> o in UsesOf(instrs) || (liveOut && o !in DefsOf(instrs))
  {
    LiveBeforeIsUseAhead(instrs, liveOut, o, 0);
    UsesExactly(instrs, o);
    DefsExactly(instrs, o);
    forall j: nat ensures UsedAhead(instrs, o, 0, j) <==> UsedFirstAt(instrs, j, o) {
      if j < |instrs| {
        DefsExactly(instrs[..j], o);
        assert forall k: nat :: k < j ==> instrs[..j][k] == instrs[k];
      }
    }
  }

  // ----- what one instruction does to the scan -----

  ghost predicate Closed(s: Scan, t: Scan, m: nat, b: BlockId) {
    && t.open == Absent
    && |s.done| < |t.done| && t.done[..|s.done|] == s.done
    && (forall k :: |s.done| <= k < |t.done| ==>
          t.done[k].begin == m && t.done[k].block == (if k == |s.done| && s.open.Open? then s.open.range.block else b)
          && t.done[k].end == if k == |s.done| && s.open.Open? then s.open.range.end else m)
  }

  lemma {:induction false} DefsClose(defs: seq<Operand>, o: Operand, s: Scan, m: nat, b: BlockId)
    ensures var t := AfterDefs(defs, o, s, m, b); if o in defs then Closed(s, t, m, b) else t == s
  {
    if defs != [] {
      var n := |defs| - 1;
      DefsClose(defs[..n], o, s, m, b);
      assert defs == defs[..n] + [defs[n]];
    }
  }

  ghost predicate Opened(s: Scan, t: Scan, base: nat, m: nat, b: BlockId) {
    && t.done == s.done && t.open.Open?
    && t.open.range.begin == (if s.open.Open? then s.open.range.begin else base)
    && t.open.range.end == (if s.open.Open? then s.open.range.end else m)
    && t.open.range.block == (if s.open.Open? then s.open.range.block else b)
  }

  lemma {:induction false} UsesOpen(uses: seq<Operand>, o: Operand, s: Scan, base: nat, m: nat, b: BlockId)
    ensures var t := AfterUses(uses, o, s, base, m, b); if o in uses then Opened(s, t, base, m, b) else t == s
  {
    if uses != [] {
      var n := |uses| - 1;
      UsesOpen(uses[..n], o, s, base, m, b);
      assert uses == uses[..n] + [uses[n]];
    }
  }

  /** The effect of instruction `i`: a definition closes, a use opens. */
  ghost predicate Stepped(s: Scan, t: Scan, defines: bool, uses: bool, base: nat, m: nat, b: BlockId) {
    exists u :: ClosedIf(s, u, defines, m, b) && OpenedIf(u, t, uses, base, m, b)
  }

  ghost predicate ClosedIf(s: Scan, u: Scan, defines: bool, m: nat, b: BlockId) {
    if defines then Closed(s, u, m, b) else u == s
  }

  ghost predicate OpenedIf(u: Scan, t: Scan, uses: bool, base: nat, m: nat, b: BlockId) {
    if uses then Opened(u, t, base, m, b) else t == u
  }

  lemma StepParts(s: Scan, t: Scan, defines: bool, uses: bool, base: nat, m: nat, b: BlockId) returns (u: Scan)
    requires Stepped(s, t, defines, uses, base, m, b)
    ensures if defines then Closed(s, u, m, b) else u == s
    ensures if uses then Opened(u, t, base, m, b) else t == u
  {
    u :| ClosedIf(s, u, defines, m, b) && OpenedIf(u, t, uses, base, m, b);
  }

  lemma ScanSteps(instrs: seq<Instr>, base: nat, b: BlockId, liveOut: bool, o: Operand, i: nat)
    requires i < |instrs|
    ensures Stepped(ScanFrom(instrs, base, b, liveOut, o, i + 1), ScanFrom(instrs, base, b, liveOut, o, i),
                    o in instrs[i].defs, o in instrs[i].uses, base, base + i, b)
  {
    hide Closed, Opened;
    var s := ScanFrom(instrs, base, b, liveOut, o, i + 1);
    var u := AfterDefs(instrs[i].defs, o, s, base + i, b);
    DefsClose(instrs[i].defs, o, s, base + i, b);
    UsesOpen(instrs[i].uses, o, u, base, base + i, b);
    assert ClosedIf(s, u, o in instrs[i].defs, base + i, b);
  }

  // ----- the invariant of the scan -----

  function Min(a: int, b: int): int {
    if a < b then a else b
  }

  /** The ranges lie where they should: finished ones after `i`, the open one from the block's start
      to at least the next instruction. */
  ghost predicate Shape(s: Scan, base: nat, n: nat, b: BlockId, live: bool, i: nat) {
    && (s.open.Open? <==> live)
    && (s.open.Open? ==> s.open.range.begin == base && s.open.range.block == b
                         && base + Min(i, n - 1) <= s.open.range.end < base + n)
    && (forall k :: 0 <= k < |s.done| ==>
        base + i <= s.done[k].begin <= s.done[k].end < base + n
        && s.done[k].block == b)
  }

  lemma StepKeepsOld(s: Scan, t: Scan, defines: bool, uses: bool, base: nat, m: nat, b: BlockId, k: nat)
    requires Stepped(s, t, defines, uses, base, m, b) && k < |s.done|
    ensures k < |t.done| && t.done[k] == s.done[k]
  {
    var u := StepParts(s, t, defines, uses, base, m, b);
    if defines { assert u.done[..|s.done|][k] == u.done[k]; }
  }

  lemma StepShape(s: Scan, t: Scan, defines: bool, uses: bool, base: nat, n: nat, i: nat, b: BlockId, live: bool)
    requires Stepped(s, t, defines, uses, base, base + i, b) && Shape(s, base, n, b, live, i + 1) && i < n
    ensures Shape(t, base, n, b, uses || (!defines && live), i)
  {
    var u := StepParts(s, t, defines, uses, base, base + i, b);
    forall k | 0 <= k < |s.done| ensures k < |t.done| && t.done[k] == s.done[k] {
      StepKeepsOld(s, t, defines, uses, base, base + i, b, k);
    }
  }

  lemma {:induction false} ScanShape(instrs: seq<Instr>, base: nat, b: BlockId, liveOut: bool, o: Operand, i: nat)
    requires |instrs| > 0 && i <= |instrs|
    ensures Shape(ScanFrom(instrs, base, b, liveOut, o, i), base, |instrs|, b, LiveBefore(instrs, liveOut, o, i), i)
    decreases |instrs| - i
  {
    if i < |instrs| {
      ScanShape(instrs, base, b, liveOut, o, i + 1);
      ScanSteps(instrs, base, b, liveOut, o, i);
      StepShape(ScanFrom(instrs, base, b, liveOut, o, i + 1), ScanFrom(instrs, base, b, liveOut, o, i),
                o in instrs[i].defs, o in instrs[i].uses, base, |instrs|, i, b, LiveBefore(instrs, liveOut, o, i + 1));
    }
  }

  /** A known range begins at or before `x` and ends at or after `y`. */
  ghost predicate Spans(rs: seq<Range>, x: int, y: int) {
    exists k :: 0 <= k < |rs| && rs[k].begin <= x && y <= rs[k].end
  }

  ghost predicate StartsAt(rs: seq<Range>, x: int, y: int) {
    exists k :: 0 <= k < |rs| && rs[k].begin == x && y <= rs[k].end
  }

  /** Whatever later instructions established, instruction `i` keeps. */
  lemma StepKeepsSpan(s: Scan, t: Scan, defines: bool, uses: bool, base: nat, n: nat, i: nat, b: BlockId, live: bool,
                      x: int, y: int)
    requires Stepped(s, t, defines, uses, base, base + i, b) && Shape(s, base, n, b, live, i + 1)
    requires x >= base + i && Spans(Known(s), x, y)
    ensures Spans(Known(t), x, y)
  {
    var u := StepParts(s, t, defines, uses, base, base + i, b);
    var k :| 0 <= k < |Known(s)| && Known(s)[k].begin <= x && y <= Known(s)[k].end;
    if defines {
      assert k < |s.done| ==> u.done[k] == u.done[..|s.done|][k];
      assert Known(u)[k].begin <= x && y <= Known(u)[k].end;
    }
    assert Known(t)[k].begin <= x && y <= Known(t)[k].end;
  }

  /** Live after instruction `j`: some range covers `j` and reaches the next one (or the block's end). */
  lemma {:induction false} LiveAfterSpans(instrs: seq<Instr>, base: nat, b: BlockId, liveOut: bool, o: Operand, i: nat,
                                          j: nat)
    requires i <= j < |instrs| && LiveBefore(instrs, liveOut, o, j + 1)
    ensures Spans(Known(ScanFrom(instrs, base, b, liveOut, o, i)), base + j, base + Min(j + 1, |instrs| - 1))
    decreases j - i
  {
    ScanSteps(instrs, base, b, liveOut, o, i);
    ScanShape(instrs, base, b, liveOut, o, i + 1);
    var s := ScanFrom(instrs, base, b, liveOut, o, i + 1);
    if i < j {
      LiveAfterSpans(instrs, base, b, liveOut, o, i + 1, j);
    } else {
      assert Known(s)[|s.done|] == s.open.range;
    }
    StepKeepsSpan(s, ScanFrom(instrs, base, b, liveOut, o, i), o in instrs[i].defs, o in instrs[i].uses, base, |instrs|,
        i, b,
                  LiveBefore(instrs, liveOut, o, i + 1), base + j, base + Min(j + 1, |instrs| - 1));
  }

  lemma StepKeepsDone(s: Scan, t: Scan, defines: bool, uses: bool, base: nat, m: nat, b: BlockId, x: int, y: int)
    requires Stepped(s, t, defines, uses, base, m, b) && StartsAt(s.done, x, y)
    ensures StartsAt(t.done, x, y)
  {
    var u := StepParts(s, t, defines, uses, base, m, b);
    var k :| 0 <= k < |s.done| && s.done[k].begin == x && y <= s.done[k].end;
    if defines { assert u.done[k] == u.done[..|s.done|][k]; }
    assert t.done[k].begin == x && y <= t.done[k].end;
  }

  /** Defined at `j`: a range begins at `j`, and if the register is live after `j` it goes on. */
  lemma {:induction false} DefinitionStarts(instrs: seq<Instr>, base: nat, b: BlockId, liveOut: bool, o: Operand,
                                            i: nat, j: nat)
    requires i <= j < |instrs| && o in instrs[j].defs
    ensures StartsAt(ScanFrom(instrs, base, b, liveOut, o, i).done, base + j,
                     base + if LiveBefore(instrs, liveOut, o, j + 1) then Min(j + 1, |instrs| - 1) else j)
    decreases j - i
  {
    ScanSteps(instrs, base, b, liveOut, o, i);
    ScanShape(instrs, base, b, liveOut, o, i + 1);
    var s := ScanFrom(instrs, base, b, liveOut, o, i + 1);
    var t := ScanFrom(instrs, base, b, liveOut, o, i);
    if i < j {
      DefinitionStarts(instrs, base, b, liveOut, o, i + 1, j);
      StepKeepsDone(s, t, o in instrs[i].defs, o in instrs[i].uses, base, base + i, b, base + j,
                    base + if LiveBefore(instrs, liveOut, o, j + 1) then Min(j + 1, |instrs| - 1) else j);
    } else {
      DefinitionStartsHere(s, t, o in instrs[i].defs, o in instrs[i].uses, base, |instrs|, i, b,
          LiveBefore(instrs, liveOut, o, i + 1));
    }
  }

  lemma DefinitionStartsHere(s: Scan, t: Scan, defines: bool, uses: bool, base: nat, n: nat, i: nat, b: BlockId,
                             live: bool)
    requires Stepped(s, t, defines, uses, base, base + i, b) && Shape(s, base, n, b, live, i + 1) && i < n && defines
    ensures StartsAt(t.done, base + i, base + if live then Min(i + 1, n - 1) else i)
  {
    var u := StepParts(s, t, defines, uses, base, base + i, b);
    assert t.done[|s.done|].begin == base + i;
  }

  /** Live on entry: a range begins with the block. */
  lemma LiveInStarts(instrs: seq<Instr>, base: nat, b: BlockId, liveOut: bool, o: Operand)
    requires |instrs| > 0 && LiveBefore(instrs, liveOut, o, 0)
    ensures StartsAt(BlockRanges(instrs, base, b, liveOut, o), base, base)
  {
    ScanShape(instrs, base, b, liveOut, o, 0);
    var s := ScanFrom(instrs, base, b, liveOut, o, 0);
    assert Known(s)[|s.done|] == s.open.range;
  }

  // ----- exactness -----

  /** Instruction `j` defines the register, or the register is live before or after it. */
  predicate Touches(instrs: seq<Instr>, liveOut: bool, o: Operand, j: nat)
    requires j < |instrs|
  {
    o in instrs[j].defs || LiveBefore(instrs, liveOut, o, j) || LiveBefore(instrs, liveOut, o, j + 1)
  }

  ghost predicate Tight(instrs: seq<Instr>, liveOut: bool, o: Operand, base: nat, i: nat, rs: seq<Range>) {
    forall k, j: nat :: 0 <= k < |rs| && i <= j < |instrs| && rs[k].begin <= base + j <= rs[k].end
        ==> Touches(instrs, liveOut, o, j)
  }

  lemma {:induction false} ScanTight(instrs: seq<Instr>, base: nat, b: BlockId, liveOut: bool, o: Operand, i: nat)
    requires |instrs| > 0 && i <= |instrs|
    ensures Tight(instrs, liveOut, o, base, i, Known(ScanFrom(instrs, base, b, liveOut, o, i)))
    decreases |instrs| - i
  {
    if i < |instrs| {
      ScanTight(instrs, base, b, liveOut, o, i + 1);
      ScanSteps(instrs, base, b, liveOut, o, i);
      ScanShape(instrs, base, b, liveOut, o, i + 1);
      ScanShape(instrs, base, b, liveOut, o, i);
      var s := ScanFrom(instrs, base, b, liveOut, o, i + 1);
      var t := ScanFrom(instrs, base, b, liveOut, o, i);
      hide ScanFrom, LiveBefore;
      forall k, j: nat | 0 <= k < |Known(t)| && i <= j < |instrs| && Known(t)[k].begin <= base + j <= Known(t)[k].end
        ensures Touches(instrs, liveOut, o, j)
      {
        StepTight(instrs, liveOut, o, base, s, t, i, b, k, j);
      }
    }
  }

  lemma StepTight(instrs: seq<Instr>, liveOut: bool, o: Operand, base: nat, s: Scan, t: Scan, i: nat, b: BlockId,
                  k: nat, j: nat)
    requires i < |instrs| && Tight(instrs, liveOut, o, base, i + 1, Known(s))
    requires Stepped(s, t, o in instrs[i].defs, o in instrs[i].uses, base, base + i, b)
    requires Shape(s, base, |instrs|, b, LiveBefore(instrs, liveOut, o, i + 1), i + 1)
    requires Shape(t, base, |instrs|, b, LiveBefore(instrs, liveOut, o, i), i)
    requires k < |Known(t)| && i <= j < |instrs| && Known(t)[k].begin <= base + j <= Known(t)[k].end
    ensures Touches(instrs, liveOut, o, j)
  {
    hide LiveBefore;
    if k < |s.done| {
      StepKeepsOld(s, t, o in instrs[i].defs, o in instrs[i].uses, base, base + i, b, k);
      assert Known(s)[k].begin <= base + j <= Known(s)[k].end;
    } else if s.open.Open? {
      assert Known(s)[|s.done|] == s.open.range;
    }
  }

  /** The ranges of a block cover instruction `j` exactly if it defines the register or the register
      is live next to it. */
  lemma RangesExact(instrs: seq<Instr>, base: nat, b: BlockId, liveOut: bool, o: Operand, j: nat)
    requires j < |instrs|
    ensures Touches(instrs, liveOut, o, j) <==> Spans(BlockRanges(instrs, base, b, liveOut, o), base + j, base + j)
  {
    var rs := BlockRanges(instrs, base, b, liveOut, o);
    var s := ScanFrom(instrs, base, b, liveOut, o, 0);
    ScanTight(instrs, base, b, liveOut, o, 0);
    if o in instrs[j].defs {
      DefinitionStarts(instrs, base, b, liveOut, o, 0, j);
      StartsInKnown(s, base + j, base + j);
    } else if LiveBefore(instrs, liveOut, o, j + 1) {
      LiveAfterSpans(instrs, base, b, liveOut, o, 0, j);
      hide ScanFrom, LiveBefore;
      var k :| 0 <= k < |rs| && rs[k].begin <= base + j && base + Min(j + 1, |instrs| - 1) <= rs[k].end;
    } else if LiveBefore(instrs, liveOut, o, j) {
      if j == 0 {
        LiveInStarts(instrs, base, b, liveOut, o);
      } else {
        LiveAfterSpans(instrs, base, b, liveOut, o, 0, j - 1);
        hide ScanFrom, LiveBefore;
        var k :| 0 <= k < |rs| && rs[k].begin <= base + (j - 1) && base + Min(j, |instrs| - 1) <= rs[k].end;
      }
    }
  }

  lemma StartsInKnown(s: Scan, x: int, y: int)
    requires StartsAt(s.done, x, y)
    ensures StartsAt(Known(s), x, y)
    ensures Spans(Known(s), x, y)
  {
    var k :| 0 <= k < |s.done| && s.done[k].begin == x && y <= s.done[k].end;
    assert Known(s)[k] == s.done[k];
  }

  // ----- interference -----

  ghost predicate SomeConflict(rs: seq<Range>, qs: seq<Range>) {
    exists k, l :: 0 <= k < |rs| && 0 <= l < |qs| && Conflict(rs[k], qs[l])
  }

  lemma RangesInBlock(instrs: seq<Instr>, base: nat, b: BlockId, liveOut: bool, o: Operand, k: nat)
    requires |instrs| > 0 && k < |BlockRanges(instrs, base, b, liveOut, o)|
    ensures var r := BlockRanges(instrs, base, b, liveOut, o)[k];
        base <= r.begin <= r.end < base + |instrs|
        && r.block == b
  {
    ScanShape(instrs, base, b, liveOut, o, 0);
  }

  /** Both live at the same point of a block, its two ends included. */
  lemma LiveTogetherConflict(instrs: seq<Instr>, base: nat, b: BlockId, out1: bool, out2: bool, x: Operand, y: Operand,
                             i: nat)
    requires |instrs| > 0 && i <= |instrs| && LiveBefore(instrs, out1, x, i) && LiveBefore(instrs, out2, y, i)
    ensures SomeConflict(BlockRanges(instrs, base, b, out1, x), BlockRanges(instrs, base, b, out2, y))
  {
    var rs, qs := BlockRanges(instrs, base, b, out1, x), BlockRanges(instrs, base, b, out2, y);
    if i == 0 {
      LiveInStarts(instrs, base, b, out1, x);
      LiveInStarts(instrs, base, b, out2, y);
      hide BlockRanges;
      SameStartConflicts(rs, qs, base);
    } else {
      LiveAfterSpans(instrs, base, b, out1, x, 0, i - 1);
      LiveAfterSpans(instrs, base, b, out2, y, 0, i - 1);
      var top := base + Min(i, |instrs| - 1);
      var k :| 0 <= k < |rs| && rs[k].begin <= base + (i - 1) && top <= rs[k].end;
      var l :| 0 <= l < |qs| && qs[l].begin <= base + (i - 1) && top <= qs[l].end;
      RangesInBlock(instrs, base, b, out1, x, k);
      RangesInBlock(instrs, base, b, out2, y, l);
      hide BlockRanges;
      assert Conflict(rs[k], qs[l]);
    }
  }

  lemma SameStartConflicts(rs: seq<Range>, qs: seq<Range>, m: nat)
    requires StartsAt(rs, m, m) && StartsAt(qs, m, m)
    ensures SomeConflict(rs, qs)
  {
    var k :| 0 <= k < |rs| && rs[k].begin == m && m <= rs[k].end;
    var l :| 0 <= l < |qs| && qs[l].begin == m && m <= qs[l].end;
    assert Conflict(rs[k], qs[l]);
  }

  /** One defined, even if never used, where the other is live afterwards. */
  lemma DefinedUnderLiveConflict(instrs: seq<Instr>, base: nat, b: BlockId, out1: bool, out2: bool, x: Operand,
                                 y: Operand, m: nat)
    requires m < |instrs| && x in instrs[m].defs && LiveBefore(instrs, out2, y, m + 1)
    ensures SomeConflict(BlockRanges(instrs, base, b, out1, x), BlockRanges(instrs, base, b, out2, y))
    ensures SomeConflict(BlockRanges(instrs, base, b, out2, y), BlockRanges(instrs, base, b, out1, x))
  {
    var rs, qs := BlockRanges(instrs, base, b, out1, x), BlockRanges(instrs, base, b, out2, y);
    DefinitionStarts(instrs, base, b, out1, x, 0, m);
    WeakenStart(ScanFrom(instrs, base, b, out1, x, 0).done, base + m, base + if LiveBefore(instrs, out1, x, m + 1)
        then Min(m + 1, |instrs| - 1) else m, base + m);
    StartsInKnown(ScanFrom(instrs, base, b, out1, x, 0), base + m, base + m);
    LiveAfterSpans(instrs, base, b, out2, y, 0, m);
    var k :| 0 <= k < |rs| && rs[k].begin == base + m && base + m <= rs[k].end;
    var l :| 0 <= l < |qs| && qs[l].begin <= base + m && base + Min(m + 1, |instrs| - 1) <= qs[l].end;
    RangesInBlock(instrs, base, b, out1, x, k);
    RangesInBlock(instrs, base, b, out2, y, l);
    hide BlockRanges;
    assert Conflict(rs[k], qs[l]) && Conflict(qs[l], rs[k]);
  }

  lemma WeakenStart(rs: seq<Range>, x: int, y: int, z: int)
    requires StartsAt(rs, x, y) && z <= y
    ensures StartsAt(rs, x, z)
  {
  }

  /** Both defined by the same instruction. */
  lemma DefinedTogetherConflict(instrs: seq<Instr>, base: nat, b: BlockId, out1: bool, out2: bool, x: Operand,
                                y: Operand, m: nat)
    requires m < |instrs| && x in instrs[m].defs && y in instrs[m].defs
    ensures SomeConflict(BlockRanges(instrs, base, b, out1, x), BlockRanges(instrs, base, b, out2, y))
  {
    DefinitionBegins(instrs, base, b, out1, x, m);
    DefinitionBegins(instrs, base, b, out2, y, m);
    SameStartConflicts(BlockRanges(instrs, base, b, out1, x), BlockRanges(instrs, base, b, out2, y), base + m);
  }

  lemma DefinitionBegins(instrs: seq<Instr>, base: nat, b: BlockId, liveOut: bool, o: Operand, m: nat)
    requires m < |instrs| && o in instrs[m].defs
    ensures StartsAt(BlockRanges(instrs, base, b, liveOut, o), base + m, base + m)
  {
    DefinitionStarts(instrs, base, b, liveOut, o, 0, m);
    WeakenStart(ScanFrom(instrs, base, b, liveOut, o, 0).done, base + m, base + if LiveBefore(instrs, liveOut, o, m + 1)
        then Min(m + 1, |instrs| - 1) else m, base + m);
    StartsInKnown(ScanFrom(instrs, base, b, liveOut, o, 0), base + m, base + m);
  }
}
