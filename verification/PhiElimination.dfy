/** The pass that turns phis back into copies: conflict detection, splitting of edges out of blocks
    with a choice, and the placement of copies and moves. */
module PhiEliminationPass {
  import opened ControlFlowGraph
  import opened PhiProgram
  import opened PhiCopies
  import opened PhiSimulation
  import opened PhiClasses

  // ----- the state while one block is worked on -----

  /** `f` after the edges of `splits` were split, with `rest` the phis of `s` still to be replaced. */
  ghost predicate SplitBlocks(f: Function, blocks: map<BlockId, Block>, s: BlockId, splits: map<BlockId, BlockId>,
                              rest: seq<Phi>) {
    && (forall b :: b in f.blocks ==> b in blocks)
    && (forall b :: b in f.blocks && b in blocks ==> SplitBlock(f, blocks[b], s, splits, rest, b))
    && (forall b :: b in splits ==> splits[b] in blocks && blocks[splits[b]] == Block([], [], [Jump(s)]))
    && (forall b :: b in blocks ==> b in f.blocks || b in splits.Values)
  }

  ghost predicate SplitBlock(f: Function, block: Block, s: BlockId, splits: map<BlockId, BlockId>, rest: seq<Phi>,
                             b: BlockId)
    requires b in f.blocks
  {
    && block.phis == (if b == s then rest else f.blocks[b].phis)
    && block.code == f.blocks[b].code
    && block.exits == if b in splits then Redirect(f.blocks[b].exits, s, splits[b]) else f.blocks[b].exits
  }

  ghost predicate SplitSucc(f: Function, succ: map<BlockId, set<BlockId>>, s: BlockId, splits: map<BlockId, BlockId>) {
    && succ.Keys == f.g.succ.Keys + splits.Values
    && (forall b :: b in f.g.succ && b in succ ==> succ[b] == if b in splits then f.g.succ[b] - {s} + {splits[b]}
        else f.g.succ[b])
    && (forall b :: b in splits ==> splits[b] in succ && succ[splits[b]] == {s})
  }

  ghost predicate SplitPred(f: Function, pred: map<BlockId, set<BlockId>>, s: BlockId, splits: map<BlockId, BlockId>) {
    && s in f.g.pred && pred.Keys == f.g.pred.Keys + splits.Values
    && (forall b :: b in f.g.pred && b in pred ==> pred[b] == if b == s then f.g.pred[s] - splits.Keys + splits.Values
        else f.g.pred[b])
    && (forall b :: b in splits ==> splits[b] in pred && pred[splits[b]] == {b})
  }

  /** Every split edge leads through its new block, in both edge lists. */
  ghost predicate SplitEdges(f: Function, g: Graph, s: BlockId, splits: map<BlockId, BlockId>) {
    g.entry == f.g.entry && SplitSucc(f, g.succ, s, splits) && SplitPred(f, g.pred, s, splits)
  }

  /** Only edges out of predecessors with a choice are split, each through a block of its own. */
  ghost predicate SplitsFit(f: Function, s: BlockId, splits: map<BlockId, BlockId>, nextBlock: nat) {
    && s in f.g.pred && f.nextBlock <= nextBlock
    && (forall b :: b in splits ==>
        b in f.g.pred[s] && b in f.g.succ && |f.g.succ[b]| > 1
        && f.nextBlock <= splits[b] < nextBlock)
    && (forall b, c :: b in splits && c in splits && splits[b] == splits[c] ==> b == c)
  }

  lemma NewIsFresh(f: Function, b: BlockId)
    requires ValidFunction(f) && b >= f.nextBlock
    ensures b !in f.blocks && b !in f.g.succ && b !in f.g.pred
  {
    assert b in f.blocks ==> BlockFits(f, b);
  }

  lemma NothingSplit(f: Function, s: BlockId)
    requires ValidFunction(f) && s in f.blocks
    ensures SplitBlocks(f, f.blocks, s, map[], f.blocks[s].phis) && SplitEdges(f, f.g, s, map[])
        && SplitsFit(f, s, map[], f.nextBlock)
  {
    hide BlockFits;
    var none: map<BlockId, BlockId> := map[];
    assert f.g.pred[s] - none.Keys + none.Values == f.g.pred[s];
  }

  lemma SplitBlocksMore(f: Function, blocks: map<BlockId, Block>, s: BlockId, splits: map<BlockId, BlockId>,
                        rest: seq<Phi>, p: BlockId, e: BlockId)
    requires SplitBlocks(f, blocks, s, splits, rest) && p in f.blocks && p !in splits && e !in f.blocks
        && e !in splits.Values && p in blocks
    requires p !in splits.Values
    ensures SplitBlocks(f, blocks[e := Block([], [], [Jump(s)])][p := blocks[p].(exits := Redirect(blocks[p].exits, s,
        e))], s, splits[p := e], rest)
  {
    hide Redirect;
    var after := blocks[e := Block([], [], [Jump(s)])][p := blocks[p].(exits := Redirect(blocks[p].exits, s, e))];
    var more := splits[p := e];
    forall b | b in f.blocks ensures b in after && SplitBlock(f, after[b], s, more, rest, b) {
      assert SplitBlock(f, blocks[b], s, splits, rest, b);
    }
    forall b | b in more ensures more[b] in after && after[more[b]] == Block([], [], [Jump(s)]) {
      if b != p { assert splits[b] in splits.Values; }
    }
    assert e == more[p];
    forall b | b in after ensures b in f.blocks || b in more.Values {
      if b in splits.Values {
        var q :| q in splits && splits[q] == b;
        assert more[q] == b;
      }
    }
  }

  lemma ValuesGrow(splits: map<BlockId, BlockId>, p: BlockId, e: BlockId)
    requires p !in splits
    ensures splits[p := e].Values == splits.Values + {e} && splits[p := e].Keys == splits.Keys + {p}
  {
    var more := splits[p := e];
    assert more[p] == e;
    forall x | x in splits.Values ensures x in more.Values {
      var q :| q in splits && splits[q] == x;
      assert more[q] == x;
    }
  }

  lemma SplitSuccMore(f: Function, succ: map<BlockId, set<BlockId>>, s: BlockId, splits: map<BlockId, BlockId>,
                      p: BlockId, e: BlockId)
    requires SplitSucc(f, succ, s, splits) && p in f.g.succ && p !in splits && e !in f.g.succ && p in succ
        && p !in splits.Values && e !in splits.Values
    ensures SplitSucc(f, succ[p := succ[p] - {s} + {e}][e := {s}], s, splits[p := e])
  {
    ValuesGrow(splits, p, e);
    var after, more := succ[p := succ[p] - {s} + {e}][e := {s}], splits[p := e];
    forall b | b in more ensures more[b] in after && after[more[b]] == {s} {
      if b != p { assert splits[b] in splits.Values; }
    }
  }

  lemma SplitPredMore(f: Function, pred: map<BlockId, set<BlockId>>, s: BlockId, splits: map<BlockId, BlockId>,
                      p: BlockId, e: BlockId)
    requires SplitPred(f, pred, s, splits) && p !in splits && e !in f.g.pred && e !in splits.Values && s in pred
        && s !in splits.Values
    requires p in f.g.pred[s] && (forall b :: b in f.g.pred[s] ==> b !in splits.Values)
    ensures SplitPred(f, pred[s := pred[s] - {p} + {e}][e := {p}], s, splits[p := e])
  {
    ValuesGrow(splits, p, e);
    var after, more := pred[s := pred[s] - {p} + {e}][e := {p}], splits[p := e];
    assert f.g.pred[s] - splits.Keys + splits.Values - {p} + {e} == f.g.pred[s] - (splits.Keys + {p}) + (splits.Values
        + {e});
    forall b | b in more ensures more[b] in after && after[more[b]] == {b} {
      if b != p { assert splits[b] in splits.Values; }
    }
  }

  // ----- the copies collected so far -----

  /** Like `IsCopy`, with the temporary below `hi` where one is needed. */
  ghost predicate IsCopyBelow(seg: seq<Instr>, d: Operand, src: Operand, lo: nat, hi: nat, taken: set<Operand>) {
    exists tmp: nat :: tmp >= lo && Virt(tmp, false) !in taken && seg == CopyCode(d, src, Virt(tmp, false))
        && (NeedsTemp(d, src) ==> tmp < hi)
  }

  ghost predicate CopiesUpTo(code: seq<Instr>, phis: seq<Phi>, from: BlockId, temps: map<Operand, Operand>, lo: nat,
                             hi: nat)
    decreases |phis|
  {
    if phis == [] then code == []
    else
      var phi := phis[|phis| - 1];
      exists pre, seg :: code == pre + seg && CopiesUpTo(pre, phis[..|phis| - 1], from, temps, lo, hi)
                         && IsCopyBelow(seg, Dst(temps, phi.rd), Source(phi.incoming, from), lo, hi, temps.Values)
  }

  ghost predicate TempsBelow(temps: map<Operand, Operand>, hi: nat) {
    forall o :: o in temps ==> temps[o].Virt? && temps[o].id < hi
  }

  lemma {:induction false} CopiesDone(code: seq<Instr>, phis: seq<Phi>, from: BlockId, temps: map<Operand, Operand>,
                                      lo: nat, hi: nat)
    requires CopiesUpTo(code, phis, from, temps, lo, hi)
    ensures CopiesFor(code, phis, from, temps, lo)
    decreases |phis|
  {
    hide CopyCode, NeedsTemp;
    if phis != [] {
      var phi := phis[|phis| - 1];
      var pre, seg :| code == pre + seg && CopiesUpTo(pre, phis[..|phis| - 1], from, temps, lo, hi)
                      && IsCopyBelow(seg, Dst(temps, phi.rd), Source(phi.incoming, from), lo, hi, temps.Values);
      CopiesDone(pre, phis[..|phis| - 1], from, temps, lo, hi);
      assert IsCopy(seg, Dst(temps, phi.rd), Source(phi.incoming, from), lo, temps.Values);
    }
  }

  lemma CopyKeepsMeaning(seg: seq<Instr>, d: Operand, src: Operand, lo: nat, hi: nat, hi': nat, taken: set<Operand>,
                         taken': set<Operand>)
    requires IsCopyBelow(seg, d, src, lo, hi, taken) && lo <= hi <= hi'
    requires forall x :: x in taken' ==> x in taken || (x.Virt? && x.id >= hi)
    requires forall x :: x in taken' ==> x.Virt? && x.id < hi'
    ensures IsCopyBelow(seg, d, src, lo, hi', taken')
  {
    var tmp: nat :| tmp >= lo && Virt(tmp, false) !in taken && seg == CopyCode(d, src, Virt(tmp, false))
        && (NeedsTemp(d, src) ==> tmp < hi);
    if NeedsTemp(d, src) {
      assert Virt(tmp, false) !in taken';
    } else {
      assert Virt(hi', false) !in taken';
      assert seg == CopyCode(d, src, Virt(hi', false));
    }
  }

  /** More temporaries for later phis, or more registers taken, leave the collected copies as they are. */
  lemma {:induction false} CopiesKeep(code: seq<Instr>, phis: seq<Phi>, from: BlockId, temps: map<Operand, Operand>,
                                      temps': map<Operand, Operand>, lo: nat, hi: nat, hi': nat)
    requires CopiesUpTo(code, phis, from, temps, lo, hi) && lo <= hi <= hi' && TempsBelow(temps', hi')
    requires forall o :: o in temps' ==>
        (o in temps && temps'[o] == temps[o])
        || (temps'[o].Virt? && temps'[o].id >= hi)
    requires forall i :: 0 <= i < |phis| ==> Dst(temps', phis[i].rd) == Dst(temps, phis[i].rd)
    ensures CopiesUpTo(code, phis, from, temps', lo, hi')
    decreases |phis|
  {
    if phis != [] {
      var phi := phis[|phis| - 1];
      var pre, seg :| code == pre + seg && CopiesUpTo(pre, phis[..|phis| - 1], from, temps, lo, hi)
                      && IsCopyBelow(seg, Dst(temps, phi.rd), Source(phi.incoming, from), lo, hi, temps.Values);
      CopiesKeep(pre, phis[..|phis| - 1], from, temps, temps', lo, hi, hi');
      hide IsCopyBelow;
      CopyKeepsMeaning(seg, Dst(temps, phi.rd), Source(phi.incoming, from), lo, hi, hi', temps.Values, temps'.Values);
    }
  }

  lemma CopiesAppend(code: seq<Instr>, all: seq<Phi>, i: nat, from: BlockId, temps: map<Operand, Operand>, lo: nat,
                     hi: nat, seg: seq<Instr>)
    requires i < |all| && CopiesUpTo(code, all[..i], from, temps, lo, hi)
    requires IsCopyBelow(seg, Dst(temps, all[i].rd), Source(all[i].incoming, from), lo, hi, temps.Values)
    ensures CopiesUpTo(code + seg, all[..i + 1], from, temps, lo, hi)
  {
    hide IsCopyBelow;
    assert all[..i + 1][..i] == all[..i];
  }

  // ----- the copies of all predecessors -----

  /** The block that runs the copies for the edge from `p`. */
  function Where(splits: map<BlockId, BlockId>, p: BlockId): BlockId {
    if p in splits then splits[p] else p
  }

  function InsertAt(inserts: map<BlockId, seq<Instr>>, b: BlockId): seq<Instr> {
    if b in inserts then inserts[b] else []
  }

  /** How many phis have their copy on the edge from `p`. */
  function Upto(i: nat, done: set<BlockId>, p: BlockId): nat {
    if p in done then i + 1 else i
  }

  /** What has been collected: the copies of the first `i` phis for every predecessor, and of one
      more for those in `done`. */
  ghost predicate Collected(f: Function, s: BlockId, splits: map<BlockId, BlockId>, inserts: map<BlockId, seq<Instr>>,
                            temps: map<Operand, Operand>,
                            i: nat, done: set<BlockId>, hi: nat)
    requires s in f.blocks && s in f.g.pred
  {
    var phis := f.blocks[s].phis;
    forall p :: p in f.g.pred[s] ==> CollectedAt(phis, InsertAt(inserts, Where(splits, p)), p, temps, Upto(i, done, p),
        f.nextReg, hi)
  }

  ghost predicate CollectedAt(phis: seq<Phi>, code: seq<Instr>, p: BlockId, temps: map<Operand, Operand>, n: nat,
                              lo: nat, hi: nat) {
    n <= |phis| && CopiesUpTo(code, phis[..n], p, temps, lo, hi)
  }

  /** Copies are collected only for blocks that will run them. */
  ghost predicate InsertsFit(f: Function, s: BlockId, splits: map<BlockId, BlockId>,
                             inserts: map<BlockId, seq<Instr>>) {
    && s in f.g.pred
    && forall w :: w in inserts ==> exists p ::
        p in f.g.pred[s] && p in f.g.succ && Where(splits, p) == w
        && (p in splits || |f.g.succ[p]| <= 1)
  }

  /** Every predecessor with a choice that has been reached is split. */
  ghost predicate SplitSoFar(f: Function, s: BlockId, splits: map<BlockId, BlockId>, i: nat, done: set<BlockId>) {
    && s in f.g.pred
    && forall p :: p in f.g.pred[s] && p in f.g.succ && |f.g.succ[p]| > 1 && (i > 0 || p in done) ==> p in splits
  }

  lemma {:induction false} SourceAt(incoming: seq<(Operand, BlockId)>, k: nat)
    requires k < |incoming| && forall a, b :: 0 <= a < b < |incoming| ==> incoming[a].1 != incoming[b].1
    ensures Source(incoming, incoming[k].1) == incoming[k].0
  {
    var n := |incoming| - 1;
    if k < n {
      SourceAt(incoming[..n], k);
    }
  }

  /** Taking more registers, for temporaries of later phis or for addresses, changes no copy. */
  lemma CollectedKeeps(f: Function, s: BlockId, splits: map<BlockId, BlockId>, inserts: map<BlockId, seq<Instr>>,
                       temps: map<Operand, Operand>, temps': map<Operand, Operand>,
                       i: nat, done: set<BlockId>, hi: nat, hi': nat)
    requires s in f.blocks && s in f.g.pred && Collected(f, s, splits, inserts, temps, i, done, hi)
    requires f.nextReg <= hi <= hi' && TempsBelow(temps', hi')
    requires forall o :: o in temps' ==>
        (o in temps && temps'[o] == temps[o])
        || (temps'[o].Virt? && temps'[o].id >= hi)
    requires forall k ::
        0 <= k < |f.blocks[s].phis| && (k < i || done != {})
        ==> Dst(temps', f.blocks[s].phis[k].rd) == Dst(temps, f.blocks[s].phis[k].rd)
    ensures Collected(f, s, splits, inserts, temps', i, done, hi')
  {
    hide CopiesUpTo, TempsBelow, Where, InsertAt;
    var phis := f.blocks[s].phis;
    forall p | p in f.g.pred[s]
      ensures CollectedAt(phis, InsertAt(inserts, Where(splits, p)), p, temps', if p in done then i + 1
          else i, f.nextReg, hi')
    {
      var n := Upto(i, done, p);
      assert CollectedAt(phis, InsertAt(inserts, Where(splits, p)), p, temps, n, f.nextReg, hi);
      CopiesKeep(InsertAt(inserts, Where(splits, p)), phis[..n], p, temps, temps', f.nextReg, hi, hi');
    }
  }

  /** A fresh block on a split edge has no copies yet. */
  lemma CollectedSplits(f: Function, s: BlockId, splits: map<BlockId, BlockId>, inserts: map<BlockId, seq<Instr>>,
                        temps: map<Operand, Operand>,
                        i: nat, done: set<BlockId>, hi: nat, p: BlockId, e: BlockId)
    requires s in f.blocks && s in f.g.pred && Collected(f, s, splits, inserts, temps, i, done, hi)
    requires InsertsFit(f, s, splits, inserts) && SplitSoFar(f, s, splits, i, done)
    requires p in f.g.pred[s] && p in f.g.succ && |f.g.succ[p]| > 1 && p !in splits && e !in f.g.pred[s]
        && e !in splits.Values
    ensures Collected(f, s, splits[p := e], inserts, temps, i, done, hi) && InsertsFit(f, s, splits[p := e], inserts)
        && e !in inserts
  {
    hide CopiesUpTo;
    var more := splits[p := e];
    var phis := f.blocks[s].phis;
    assert e !in inserts by {
      if e in inserts {
        var q :| q in f.g.pred[s] && q in f.g.succ && Where(splits, q) == e && (q in splits || |f.g.succ[q]| <= 1);
      }
    }
    forall q | q in f.g.pred[s]
      ensures CollectedAt(phis, InsertAt(inserts, Where(more, q)), q, temps, Upto(i, done, q), f.nextReg, hi)
    {
      assert CollectedAt(phis, InsertAt(inserts, Where(splits, q)), q, temps, Upto(i, done, q), f.nextReg, hi);
      if q == p {
        NoCopies(phis, p, temps, f.nextReg, hi);
      }
    }
    forall w | w in inserts ensures exists q ::
        q in f.g.pred[s] && q in f.g.succ && Where(more, q) == w
        && (q in more || |f.g.succ[q]| <= 1) {
      var q :| q in f.g.pred[s] && q in f.g.succ && Where(splits, q) == w && (q in splits || |f.g.succ[q]| <= 1);
      assert q != p;
      assert Where(more, q) == w;
    }
  }

  lemma NoCopies(phis: seq<Phi>, p: BlockId, temps: map<Operand, Operand>, lo: nat, hi: nat)
    ensures CollectedAt(phis, [], p, temps, 0, lo, hi)
  {
  }

  /** One operand's copy is appended to the block that will run it. */
  lemma CollectedStep(f: Function, s: BlockId, splits: map<BlockId, BlockId>, inserts: map<BlockId, seq<Instr>>,
                      temps: map<Operand, Operand>,
                      i: nat, done: set<BlockId>, hi: nat, nextBlock: nat, p: BlockId, seg: seq<Instr>)
    requires ValidFunction(f) && s in f.blocks && s in f.g.pred && Collected(f, s, splits, inserts, temps, i, done, hi)
    requires InsertsFit(f, s, splits, inserts) && SplitsFit(f, s, splits, nextBlock) && i < |f.blocks[s].phis|
    requires p in f.g.pred[s] && p in f.g.succ && p !in done && (p in splits <==> |f.g.succ[p]| > 1)
    requires var phi := f.blocks[s].phis[i];
             IsCopyBelow(seg, Dst(temps, phi.rd), Source(phi.incoming, p), f.nextReg, hi, temps.Values)
    ensures var w := Where(splits, p); var after := inserts[w := InsertAt(inserts, w) + seg];
            Collected(f, s, splits, after, temps, i, done + {p}, hi) && InsertsFit(f, s, splits, after)
  {
    hide CopiesUpTo, IsCopyBelow, ValidFunction, SplitsFit, InsertsFit;
    var w := Where(splits, p);
    var after := inserts[w := InsertAt(inserts, w) + seg];
    var phis := f.blocks[s].phis;
    forall q | q in f.g.pred[s]
      ensures CollectedAt(phis, InsertAt(after, Where(splits, q)), q, temps, Upto(i, done + {p}, q), f.nextReg, hi)
    {
      assert CollectedAt(phis, InsertAt(inserts, Where(splits, q)), q, temps, Upto(i, done, q), f.nextReg, hi);
      if q == p {
        CopiesAppend(InsertAt(inserts, w), phis, i, p, temps, f.nextReg, hi, seg);
      } else {
        WheresDiffer(f, s, splits, nextBlock, p, q);
      }
    }
    StillFits(f, s, splits, inserts, p, seg);
  }

  lemma StillFits(f: Function, s: BlockId, splits: map<BlockId, BlockId>, inserts: map<BlockId, seq<Instr>>, p: BlockId,
                  seg: seq<Instr>)
    requires InsertsFit(f, s, splits, inserts) && p in f.g.pred[s] && p in f.g.succ
        && (p in splits <==> |f.g.succ[p]| > 1)
    ensures InsertsFit(f, s, splits, inserts[Where(splits, p) := InsertAt(inserts, Where(splits, p)) + seg])
  {
    hide InsertAt;
    var w := Where(splits, p);
    forall x | x in inserts || x == w ensures exists q ::
        q in f.g.pred[s] && q in f.g.succ && Where(splits, q) == x
        && (q in splits || |f.g.succ[q]| <= 1) {
      if x == w {
        assert Where(splits, p) == x;
      }
    }
  }

  lemma WheresDiffer(f: Function, s: BlockId, splits: map<BlockId, BlockId>, nextBlock: nat, p: BlockId, q: BlockId)
    requires ValidFunction(f) && SplitsFit(f, s, splits, nextBlock) && p in f.g.pred[s] && q in f.g.pred[s] && p != q
    ensures Where(splits, p) != Where(splits, q)
  {
    assert p in f.blocks && q in f.blocks;
    assert BlockFits(f, p) && BlockFits(f, q);
  }

  /** When every predecessor had its operand, the next phi starts. */
  lemma CollectedNext(f: Function, s: BlockId, splits: map<BlockId, BlockId>, inserts: map<BlockId, seq<Instr>>,
                      temps: map<Operand, Operand>,
                      i: nat, done: set<BlockId>, hi: nat)
    requires s in f.blocks && s in f.g.pred && Collected(f, s, splits, inserts, temps, i, done, hi)
        && f.g.pred[s] <= done
    ensures Collected(f, s, splits, inserts, temps, i + 1, {}, hi)
    ensures SplitSoFar(f, s, splits, i, done) ==> SplitSoFar(f, s, splits, i + 1, {})
  {
    hide CopiesUpTo;
    var phis := f.blocks[s].phis;
    forall p | p in f.g.pred[s] ensures CollectedAt(phis, InsertAt(inserts, Where(splits, p)), p, temps, i + 1,
        f.nextReg, hi) {
      assert CollectedAt(phis, InsertAt(inserts, Where(splits, p)), p, temps, Upto(i, done, p), f.nextReg, hi);
    }
  }

  lemma CollectedStarts(f: Function, s: BlockId, hi: nat)
    requires s in f.blocks && s in f.g.pred
    ensures Collected(f, s, map[], map[], map[], 0, {}, hi) && InsertsFit(f, s, map[], map[])
        && SplitSoFar(f, s, map[], 0, {})
  {
  }

  // ----- the finished block -----

  /** The collected copies at the end of the blocks that run them, the moves at the head of `s`. */
  ghost predicate Finished(before: map<BlockId, Block>, after: map<BlockId, Block>, s: BlockId,
                           inserts: map<BlockId, seq<Instr>>, heads: seq<Instr>) {
    && after.Keys == before.Keys
    && forall b :: b in before && b in after
         ==> after[b] == before[b].(code := (if b == s then heads else []) + before[b].code + InsertAt(inserts, b))
  }

  function CopiesOf(f: Function, s: BlockId, splits: map<BlockId, BlockId>,
                    inserts: map<BlockId, seq<Instr>>): map<BlockId, seq<Instr>>
    requires s in f.g.pred
  {
    map p | p in f.g.pred[s] :: InsertAt(inserts, Where(splits, p))
  }

  lemma InsertIsTail(f: Function, s: BlockId, splits: map<BlockId, BlockId>, inserts: map<BlockId, seq<Instr>>,
                     temps: map<Operand, Operand>,
                     heads: seq<Instr>, nextBlock: nat, b: BlockId)
    requires ValidFunction(f) && s in f.g.pred && InsertsFit(f, s, splits, inserts)
        && SplitsFit(f, s, splits, nextBlock) && b in f.blocks
    ensures InsertAt(inserts, b) == TailOf(f, s, Elim(splits, temps, CopiesOf(f, s, splits, inserts), heads), b)
  {
    hide ValidFunction, SplitsFit, InsertsFit;
    OldIsOld(f, b);
    if b in inserts {
      OwnerIsPred(f, s, splits, inserts, nextBlock, b);
    }
  }

  /** An original block with copies is a predecessor that keeps its edge. */
  lemma OwnerIsPred(f: Function, s: BlockId, splits: map<BlockId, BlockId>, inserts: map<BlockId, seq<Instr>>,
                    nextBlock: nat, b: BlockId)
    requires InsertsFit(f, s, splits, inserts) && SplitsFit(f, s, splits, nextBlock) && b in inserts && b < f.nextBlock
    ensures b in f.g.pred[s] && b !in splits
  {
    var q :| q in f.g.pred[s] && q in f.g.succ && Where(splits, q) == b && (q in splits || |f.g.succ[q]| <= 1);
  }

  lemma OldIsOld(f: Function, b: BlockId)
    requires ValidFunction(f) && b in f.blocks
    ensures b < f.nextBlock
  {
    assert BlockFits(f, b);
  }

  lemma PredsHaveEdges(f: Function, s: BlockId)
    requires ValidFunction(f) && s in f.g.pred
    ensures forall p :: p in f.g.pred[s] ==> p in f.g.succ && p in f.blocks && s in f.g.succ[p]
  {
    hide BlockFits;
  }

  lemma FinishedBlocks(f: Function, blocks: map<BlockId, Block>, f': Function, s: BlockId,
                       splits: map<BlockId, BlockId>, inserts: map<BlockId, seq<Instr>>,
                       temps: map<Operand, Operand>, heads: seq<Instr>)
    requires ValidFunction(f) && s in f.blocks && s in f.g.pred && InsertsFit(f, s, splits, inserts)
        && SplitsFit(f, s, splits, f'.nextBlock)
    requires SplitBlocks(f, blocks, s, splits, []) && Finished(blocks, f'.blocks, s, inserts, heads)
    ensures var e := Elim(splits, temps, CopiesOf(f, s, splits, inserts), heads);
            && (forall b :: b in f.blocks ==> BlockBecomes(f, f', s, e, b))
            && (forall b :: b in splits ==> NewBlock(f, f', s, e, b))
  {
    hide ValidFunction, BlockBecomes, NewBlock, SplitBlocks, Finished, InsertsFit, SplitsFit;
    var e := Elim(splits, temps, CopiesOf(f, s, splits, inserts), heads);
    forall b | b in f.blocks ensures BlockBecomes(f, f', s, e, b) {
      FinishedOld(f, blocks, f', s, splits, inserts, temps, heads, b);
    }
    forall b | b in splits ensures NewBlock(f, f', s, e, b) {
      FinishedNew(f, blocks, f', s, splits, inserts, temps, heads, b);
    }
  }

  lemma FinishedOld(f: Function, blocks: map<BlockId, Block>, f': Function, s: BlockId,
                    splits: map<BlockId, BlockId>, inserts: map<BlockId, seq<Instr>>,
                    temps: map<Operand, Operand>, heads: seq<Instr>, b: BlockId)
    requires ValidFunction(f) && s in f.blocks && s in f.g.pred && InsertsFit(f, s, splits, inserts)
        && SplitsFit(f, s, splits, f'.nextBlock)
    requires SplitBlocks(f, blocks, s, splits, []) && Finished(blocks, f'.blocks, s, inserts, heads) && b in f.blocks
    ensures BlockBecomes(f, f', s, Elim(splits, temps, CopiesOf(f, s, splits, inserts), heads), b)
  {
    InsertIsTail(f, s, splits, inserts, temps, heads, f'.nextBlock, b);
    hide ValidFunction, InsertsFit, SplitsFit, Redirect, TailOf, InsertAt, CopiesOf;
    assert SplitBlock(f, blocks[b], s, splits, [], b);
  }

  lemma FinishedNew(f: Function, blocks: map<BlockId, Block>, f': Function, s: BlockId,
                    splits: map<BlockId, BlockId>, inserts: map<BlockId, seq<Instr>>,
                    temps: map<Operand, Operand>, heads: seq<Instr>, b: BlockId)
    requires ValidFunction(f) && s in f.blocks && s in f.g.pred && InsertsFit(f, s, splits, inserts)
        && SplitsFit(f, s, splits, f'.nextBlock)
    requires SplitBlocks(f, blocks, s, splits, []) && Finished(blocks, f'.blocks, s, inserts, heads) && b in splits
    ensures NewBlock(f, f', s, Elim(splits, temps, CopiesOf(f, s, splits, inserts), heads), b)
  {
    hide BlockFits, Redirect, TailOf, WellFormed, InsertAt;
    assert blocks[splits[b]] == Block([], [], [Jump(s)]);
    NewIsFresh(f, splits[b]);
    assert [] + [] + InsertAt(inserts, splits[b]) == InsertAt(inserts, splits[b]);
  }

  lemma FinishedEliminates(f: Function, blocks: map<BlockId, Block>, f': Function, s: BlockId,
                           splits: map<BlockId, BlockId>, inserts: map<BlockId, seq<Instr>>,
                           temps: map<Operand, Operand>, heads: seq<Instr>, hi: nat)
    requires ValidFunction(f) && s in f.blocks && s in f.g.pred && InsertsFit(f, s, splits, inserts)
        && SplitsFit(f, s, splits, f'.nextBlock)
    requires SplitBlocks(f, blocks, s, splits, []) && Finished(blocks, f'.blocks, s, inserts, heads)
    requires Collected(f, s, splits, inserts, temps, |f.blocks[s].phis|, {}, hi)
        && SplitSoFar(f, s, splits, |f.blocks[s].phis|, {}) && f.blocks[s].phis != []
    requires HeadsFor(heads, temps) && TempsFit(temps, f.blocks[s].phis, f.nextReg)
    requires forall o :: o in temps ==> exists i :: 0 <= i < |f.blocks[s].phis| && f.blocks[s].phis[i].rd == o
    requires f'.g.entry == f.g.entry
    ensures Eliminated(f, f', s, Elim(splits, temps, CopiesOf(f, s, splits, inserts), heads))
  {
    hide ValidFunction, CopiesFor, HeadsFor, TempsFit, BlockBecomes, NewBlock, Collected, InsertsFit, SplitBlocks,
        Finished, SplitsFit, SplitSoFar;
    var e := Elim(splits, temps, CopiesOf(f, s, splits, inserts), heads);
    FinishedBlocks(f, blocks, f', s, splits, inserts, temps, heads);
    forall p | p in f.g.pred[s] ensures p in e.copies && CopiesFor(e.copies[p], f.blocks[s].phis, p, temps, f.nextReg) {
      CollectedForAll(f, s, splits, inserts, temps, hi, p);
    }
    SplitIffChoice(f, s, splits, f'.nextBlock);
    OnlyNewBlocks(f, blocks, f'.blocks, s, splits, inserts, heads);
    assert Eliminated(f, f', s, e);
  }

  lemma OnlyNewBlocks(f: Function, before: map<BlockId, Block>, after: map<BlockId, Block>, s: BlockId,
                      splits: map<BlockId, BlockId>, inserts: map<BlockId, seq<Instr>>, heads: seq<Instr>)
    requires SplitBlocks(f, before, s, splits, []) && Finished(before, after, s, inserts, heads)
    ensures forall b :: b in after ==> b in f.blocks || exists p :: p in splits && splits[p] == b
  {
    hide SplitBlock, InsertAt;
  }

  lemma SplitIffChoice(f: Function, s: BlockId, splits: map<BlockId, BlockId>, nextBlock: nat)
    requires ValidFunction(f) && s in f.blocks && s in f.g.pred && SplitsFit(f, s, splits, nextBlock)
    requires SplitSoFar(f, s, splits, |f.blocks[s].phis|, {}) && f.blocks[s].phis != []
    ensures forall b :: b in f.blocks && b in f.g.succ ==> (b in splits <==> b in f.g.pred[s] && |f.g.succ[b]| > 1)
    ensures forall b :: b in splits ==> b in f.blocks
  {
    PredsHaveEdges(f, s);
    hide ValidFunction;
  }

  lemma CollectedForAll(f: Function, s: BlockId, splits: map<BlockId, BlockId>, inserts: map<BlockId, seq<Instr>>,
                        temps: map<Operand, Operand>, hi: nat, p: BlockId)
    requires s in f.blocks && s in f.g.pred && Collected(f, s, splits, inserts, temps, |f.blocks[s].phis|, {}, hi)
        && p in f.g.pred[s]
    ensures CopiesFor(InsertAt(inserts, Where(splits, p)), f.blocks[s].phis, p, temps, f.nextReg)
  {
    hide CopiesUpTo, CopiesFor;
    var phis := f.blocks[s].phis;
    assert CollectedAt(phis, InsertAt(inserts, Where(splits, p)), p, temps, Upto(|phis|, {}, p), f.nextReg, hi);
    assert phis[..|phis|] == phis;
    CopiesDone(InsertAt(inserts, Where(splits, p)), phis, p, temps, f.nextReg, hi);
  }

  // ----- the result is a well-formed function again -----

  lemma SplitWellFormed(f: Function, g: Graph, s: BlockId, splits: map<BlockId, BlockId>, nextBlock: nat)
    requires ValidFunction(f) && s in f.blocks && SplitEdges(f, g, s, splits) && SplitsFit(f, s, splits, nextBlock)
    ensures WellFormed(g)
  {
    hide *;
    NewBlocksFresh(f, s, splits, nextBlock);
    ValidGraph(f);
    SplitsAreEdges(f, s, splits, nextBlock);
    forall b, t | b in g.succ && t in g.succ[b] ensures t in g.pred && b in g.pred[t] {
      SplitEdgeForward(f, g, s, splits, b, t);
    }
    forall b, q | b in g.pred && q in g.pred[b] ensures q in g.succ && b in g.succ[q] {
      SplitEdgeBackward(f, g, s, splits, b, q);
    }
    WellFormedHolds(f, g, s, splits);
  }

  lemma SplitsAreEdges(f: Function, s: BlockId, splits: map<BlockId, BlockId>, nextBlock: nat)
    requires SplitsFit(f, s, splits, nextBlock)
    ensures f.nextBlock <= nextBlock
    ensures s in f.g.pred && forall p :: p in splits ==> p in f.g.pred[s] && p in f.g.succ && |f.g.succ[p]| > 1
  {
  }

  lemma WellFormedHolds(f: Function, g: Graph, s: BlockId, splits: map<BlockId, BlockId>)
    requires WellFormed(f.g) && SplitEdges(f, g, s, splits)
    requires forall b, t :: b in g.succ && t in g.succ[b] ==> t in g.pred && b in g.pred[t]
    requires forall b, q :: b in g.pred && q in g.pred[b] ==> q in g.succ && b in g.succ[q]
    ensures WellFormed(g)
  {
  }

  lemma ValidGraph(f: Function)
    requires ValidFunction(f)
    ensures WellFormed(f.g) && f.blocks.Keys == f.g.succ.Keys
  {
  }

  lemma NewBlocksFresh(f: Function, s: BlockId, splits: map<BlockId, BlockId>, nextBlock: nat)
    requires ValidFunction(f) && SplitsFit(f, s, splits, nextBlock)
    ensures forall x :: x in splits.Values ==>
        x !in f.g.succ && x !in f.g.pred && x !in f.blocks
        && f.nextBlock <= x < nextBlock
  {
    hide ValidFunction;
    forall x | x in splits.Values ensures x !in f.g.succ && x !in f.g.pred && x !in f.blocks
        && f.nextBlock <= x < nextBlock {
      var q :| q in splits && splits[q] == x;
      NewIsFresh(f, x);
    }
  }

  lemma SplitEdgeForward(f: Function, g: Graph, s: BlockId, splits: map<BlockId, BlockId>, b: BlockId, t: BlockId)
    requires WellFormed(f.g) && SplitEdges(f, g, s, splits) && b in g.succ && t in g.succ[b]
    requires forall x :: x in splits.Values ==> x !in f.g.succ && x !in f.g.pred
    requires forall p :: p in splits ==> p in f.g.pred[s] && p in f.g.succ
    ensures t in g.pred && b in g.pred[t]
  {
    if b in f.g.succ {
      if b in splits && t == splits[b] {
      } else {
        assert t in f.g.succ[b];
        assert b !in splits.Values;
      }
    } else {
      var q :| q in splits && splits[q] == b;
    }
  }

  lemma SplitEdgeBackward(f: Function, g: Graph, s: BlockId, splits: map<BlockId, BlockId>, b: BlockId, q: BlockId)
    requires WellFormed(f.g) && SplitEdges(f, g, s, splits) && b in g.pred && q in g.pred[b]
    requires forall x :: x in splits.Values ==> x !in f.g.succ && x !in f.g.pred
    requires forall p :: p in splits ==> p in f.g.pred[s] && p in f.g.succ
    ensures q in g.succ && b in g.succ[q]
  {
    if b in f.g.pred {
      if b == s && q in splits.Values {
        var p :| p in splits && splits[p] == q;
      } else {
        assert q in f.g.pred[b];
      }
    } else {
      var p :| p in splits && splits[p] == b;
      assert q == p;
    }
  }

  lemma CopyIsBelow(d: Operand, src: Operand, tmp: nat, hi: nat)
    requires d.Virt? && d.id < hi && Below(src, hi) && (NeedsTemp(d, src) ==> tmp < hi)
    ensures CodeBelow(CopyCode(d, src, Virt(tmp, false)), hi)
  {
  }

  lemma {:induction false} CopiesAreBelow(code: seq<Instr>, phis: seq<Phi>, from: BlockId, temps: map<Operand, Operand>,
                                          lo: nat, hi: nat)
    requires CopiesUpTo(code, phis, from, temps, lo, hi) && TempsBelow(temps, hi) && lo <= hi
    requires forall i :: 0 <= i < |phis| ==> PhiBelow(phis[i], lo)
    ensures CodeBelow(code, hi)
    decreases |phis|
  {
    if phis != [] {
      var phi := phis[|phis| - 1];
      assert PhiBelow(phi, lo);
      var pre, seg :| code == pre + seg && CopiesUpTo(pre, phis[..|phis| - 1], from, temps, lo, hi)
                      && IsCopyBelow(seg, Dst(temps, phi.rd), Source(phi.incoming, from), lo, hi, temps.Values);
      CopiesAreBelow(pre, phis[..|phis| - 1], from, temps, lo, hi);
      var tmp: nat :| tmp >= lo && Virt(tmp, false) !in temps.Values && seg == CopyCode(Dst(temps, phi.rd),
          Source(phi.incoming, from), Virt(tmp, false))
                      && (NeedsTemp(Dst(temps, phi.rd), Source(phi.incoming, from)) ==> tmp < hi);
      SourceBelow(phi.incoming, from, lo);
      CopyIsBelow(Dst(temps, phi.rd), Source(phi.incoming, from), tmp, hi);
      hide InstrBelow, CopyCode, CopiesUpTo;
    }
  }

  lemma HeadsAreBelow(heads: seq<Instr>, temps: map<Operand, Operand>, hi: nat)
    requires HeadsFor(heads, temps) && TempsBelow(temps, hi) && forall o :: o in temps ==> o.Virt? && o.id < hi
    ensures CodeBelow(heads, hi)
  {
    forall k | 0 <= k < |heads| ensures InstrBelow(heads[k], hi) {
      assert IsHead(heads[k], temps);
    }
  }

  lemma PhisAreBelow(f: Function, s: BlockId)
    requires ValidFunction(f) && s in f.blocks
    ensures forall k :: 0 <= k < |f.blocks[s].phis| ==> PhiBelow(f.blocks[s].phis[k], f.nextReg)
  {
    assert BlockFits(f, s);
  }

  lemma InsertHasPredecessor(f: Function, s: BlockId, splits: map<BlockId, BlockId>, inserts: map<BlockId, seq<Instr>>,
                             temps: map<Operand, Operand>, hi: nat, w: BlockId)
    returns (p: BlockId)
    requires s in f.blocks && s in f.g.pred && InsertsFit(f, s, splits, inserts) && w in inserts
    requires Collected(f, s, splits, inserts, temps, |f.blocks[s].phis|, {}, hi)
    ensures CopiesUpTo(inserts[w], f.blocks[s].phis, p, temps, f.nextReg, hi)
  {
    hide CopiesUpTo;
    var phis := f.blocks[s].phis;
    p :| p in f.g.pred[s] && p in f.g.succ && Where(splits, p) == w && (p in splits || |f.g.succ[p]| <= 1);
    assert CollectedAt(phis, InsertAt(inserts, Where(splits, p)), p, temps, Upto(|phis|, {}, p), f.nextReg, hi);
    assert phis[..|phis|] == phis;
  }

  lemma InsertsAreBelow(f: Function, s: BlockId, splits: map<BlockId, BlockId>, inserts: map<BlockId, seq<Instr>>,
                        temps: map<Operand, Operand>, hi: nat, w: BlockId)
    requires ValidFunction(f) && s in f.blocks && s in f.g.pred && InsertsFit(f, s, splits, inserts)
    requires Collected(f, s, splits, inserts, temps, |f.blocks[s].phis|, {}, hi) && TempsBelow(temps, hi)
        && f.nextReg <= hi
    ensures CodeBelow(InsertAt(inserts, w), hi)
  {
    hide InstrBelow, CopiesUpTo, TempsBelow, ValidFunction, PhiBelow, Collected, InsertsFit;
    PhisAreBelow(f, s);
    if w in inserts {
      var p := InsertHasPredecessor(f, s, splits, inserts, temps, hi, w);
      CopiesAreBelow(inserts[w], f.blocks[s].phis, p, temps, f.nextReg, hi);
    }
  }

  lemma BelowMore(b: Block, lo: nat, hi: nat)
    requires BlockBelow(b, lo) && lo <= hi
    ensures BlockBelow(b, hi)
  {
    forall k | 0 <= k < |b.code| ensures InstrBelow(b.code[k], hi) {
      assert InstrBelow(b.code[k], lo);
    }
    hide InstrBelow;
    forall k | 0 <= k < |b.phis| ensures PhiBelow(b.phis[k], hi) {
      assert PhiBelow(b.phis[k], lo);
    }
  }

  /** Redirecting one exit of a block with a choice keeps its exits apart and moves the edge. */
  lemma RedirectedTargets(exits: seq<Exit>, s: BlockId, e: BlockId)
    requires DistinctTargets(exits) && s in Targets(exits) && e !in Targets(exits)
    ensures Targets(Redirect(exits, s, e)) == Targets(exits) - {s} + {e} && DistinctTargets(Redirect(exits, s, e))
  {
    var r := Redirect(exits, s, e);
    RedirectLength(exits, s, e);
    forall k | 0 <= k < |exits| ensures r[k].target == if exits[k].target == s then e else exits[k].target {
      RedirectAt(exits, s, e, k);
    }
    forall x | x in Targets(exits) - {s} + {e} ensures x in Targets(r) {
      var y := if x == e then s else x;
      var k :| 0 <= k < |exits| && exits[k].target == y;
      assert r[k].target == x;
    }
    forall k | 0 <= k < |exits| ensures exits[k].target in Targets(exits) {
    }
  }

  lemma {:induction false} RedirectBelow(exits: seq<Exit>, s: BlockId, e: BlockId, lo: nat)
    requires ExitsBelow(exits, lo)
    ensures ExitsBelow(Redirect(exits, s, e), lo)
  {
    if exits != [] {
      RedirectBelow(exits[..|exits| - 1], s, e, lo);
    }
  }

  lemma FinishedOldFits(f: Function, blocks: map<BlockId, Block>, f': Function, s: BlockId,
                        splits: map<BlockId, BlockId>, inserts: map<BlockId, seq<Instr>>,
                        temps: map<Operand, Operand>, heads: seq<Instr>, b: BlockId)
    requires ValidFunction(f) && s in f.blocks && SplitEdges(f, f'.g, s, splits)
        && SplitsFit(f, s, splits, f'.nextBlock) && b in f.blocks
    requires SplitBlocks(f, blocks, s, splits, []) && Finished(blocks, f'.blocks, s, inserts, heads)
    requires CodeBelow(heads, f'.nextReg) && CodeBelow(InsertAt(inserts, b), f'.nextReg) && f.nextReg <= f'.nextReg
    ensures b in f'.blocks && b in f'.g.succ && b in f'.g.pred && BlockFits(f', b)
  {
    hide *;
    NewBlocksFresh(f, s, splits, f'.nextBlock);
    SplitsAreEdges(f, s, splits, f'.nextBlock);
    ValidGraph(f);
    OldFits(f, b);
    OldFits(f, s);
    OldBlockAfter(f, blocks, f', s, splits, inserts, heads, b);
    EdgesAfter(f, f'.g, s, splits, b);
    var was, now := f.blocks[b], f'.blocks[b];
    BelowMore(was, f.nextReg, f'.nextReg);
    AfterIsBelow(f, f', s, splits, was, now, heads, InsertAt(inserts, b), b);
    if b in splits {
      SuccInPred(f, s, b);
      BlockNumbers(f, b);
      SplitIsNew(f, s, splits, f'.nextBlock, b);
      RedirectedTargets(was.exits, s, splits[b]);
    }
    PhisFitNothing(f'.g, b);
    FitsHolds(f', b);
  }

  lemma OldFits(f: Function, b: BlockId)
    requires ValidFunction(f) && b in f.blocks
    ensures b in f.g.succ && b in f.g.pred && b < f.nextBlock && f.g.succ[b] == Targets(f.blocks[b].exits)
    ensures |f.g.succ[b]| > 1 ==> DistinctTargets(f.blocks[b].exits)
    ensures PhisFit(f.blocks[b].phis, f.g.pred[b]) && BlockBelow(f.blocks[b], f.nextReg)
  {
    assert BlockFits(f, b);
  }

  lemma OldBlockAfter(f: Function, blocks: map<BlockId, Block>, f': Function, s: BlockId, splits: map<BlockId, BlockId>,
                      inserts: map<BlockId, seq<Instr>>,
                      heads: seq<Instr>, b: BlockId)
    requires b in f.blocks && SplitBlocks(f, blocks, s, splits, []) && Finished(blocks, f'.blocks, s, inserts, heads)
    ensures b in f'.blocks
    ensures f'.blocks[b] == Block(if b == s then [] else f.blocks[b].phis,
                                  (if b == s then heads else []) + f.blocks[b].code + InsertAt(inserts, b),
                                  if b in splits then Redirect(f.blocks[b].exits, s, splits[b]) else f.blocks[b].exits)
  {
    hide Redirect, InsertAt;
    assert SplitBlock(f, blocks[b], s, splits, [], b);
  }

  lemma EdgesAfter(f: Function, g: Graph, s: BlockId, splits: map<BlockId, BlockId>, b: BlockId)
    requires SplitEdges(f, g, s, splits) && b in f.g.succ && b in f.g.pred
    ensures b in g.succ && b in g.pred && s in f.g.pred
    ensures g.succ[b] == if b in splits then f.g.succ[b] - {s} + {splits[b]} else f.g.succ[b]
    ensures b != s ==> g.pred[b] == f.g.pred[b]
  {
  }

  lemma AfterIsBelow(f: Function, f': Function, s: BlockId, splits: map<BlockId, BlockId>, was: Block, now: Block,
                     heads: seq<Instr>, tail: seq<Instr>, b: BlockId)
    requires BlockBelow(was, f'.nextReg) && CodeBelow(heads, f'.nextReg) && CodeBelow(tail, f'.nextReg)
    requires now == Block(if b == s then [] else was.phis, (if b == s then heads else []) + was.code + tail,
                          if b in splits then Redirect(was.exits, s, splits[b]) else was.exits)
    ensures BlockBelow(now, f'.nextReg)
  {
    hide InstrBelow, PhiBelow, ExitsBelow;
    if b in splits {
      RedirectBelow(was.exits, s, splits[b], f'.nextReg);
    }
  }

  lemma SuccInPred(f: Function, s: BlockId, b: BlockId)
    requires WellFormed(f.g) && s in f.g.pred && b in f.g.pred[s]
    ensures b in f.g.succ && s in f.g.succ[b]
  {
  }

  lemma BlockNumbers(f: Function, b: BlockId)
    requires ValidFunction(f) && b in f.g.succ
    ensures forall t :: t in f.g.succ[b] ==> t < f.nextBlock
  {
    forall t | t in f.g.succ[b] ensures t < f.nextBlock {
      assert t in f.blocks;
      assert BlockFits(f, t);
    }
  }

  lemma SplitIsNew(f: Function, s: BlockId, splits: map<BlockId, BlockId>, nextBlock: nat, b: BlockId)
    requires SplitsFit(f, s, splits, nextBlock) && b in splits
    ensures f.nextBlock <= splits[b] < nextBlock
  {
  }

  lemma PhisFitNothing(g: Graph, b: BlockId)
    ensures b in g.pred ==> PhisFit([], g.pred[b])
  {
  }

  lemma FitsHolds(f: Function, b: BlockId)
    requires b in f.blocks && b in f.g.succ && b in f.g.pred && b < f.nextBlock
        && f.g.succ[b] == Targets(f.blocks[b].exits)
    requires |f.g.succ[b]| > 1 ==> DistinctTargets(f.blocks[b].exits)
    requires PhisFit(f.blocks[b].phis, f.g.pred[b]) && BlockBelow(f.blocks[b], f.nextReg)
    ensures BlockFits(f, b)
  {
  }

  lemma FinishedNewFits(f: Function, blocks: map<BlockId, Block>, f': Function, s: BlockId,
                        splits: map<BlockId, BlockId>, inserts: map<BlockId, seq<Instr>>,
                        heads: seq<Instr>, q: BlockId)
    requires ValidFunction(f) && s in f.blocks && SplitEdges(f, f'.g, s, splits)
        && SplitsFit(f, s, splits, f'.nextBlock) && q in splits
    requires SplitBlocks(f, blocks, s, splits, []) && Finished(blocks, f'.blocks, s, inserts, heads)
    requires CodeBelow(InsertAt(inserts, splits[q]), f'.nextReg)
    ensures splits[q] in f'.blocks && splits[q] in f'.g.succ && splits[q] in f'.g.pred && BlockFits(f', splits[q])
  {
    hide *;
    SplitIsNew(f, s, splits, f'.nextBlock, q);
    NewIsFresh(f, splits[q]);
    NewBlockAfter(f, blocks, f', s, splits, inserts, heads, q);
    NewEdges(f, f'.g, s, splits, q);
    OneTarget(s);
    PhisFitNothing(f'.g, splits[q]);
    JumpIsBelow(s, InsertAt(inserts, splits[q]), f'.nextReg);
    FitsHolds(f', splits[q]);
  }

  lemma NewBlockAfter(f: Function, blocks: map<BlockId, Block>, f': Function, s: BlockId, splits: map<BlockId, BlockId>,
                      inserts: map<BlockId, seq<Instr>>,
                      heads: seq<Instr>, q: BlockId)
    requires s in f.blocks && q in splits && splits[q] !in f.blocks
    requires SplitBlocks(f, blocks, s, splits, []) && Finished(blocks, f'.blocks, s, inserts, heads)
    ensures splits[q] in f'.blocks && f'.blocks[splits[q]] == Block([], InsertAt(inserts, splits[q]), [Jump(s)])
  {
    hide InsertAt, SplitBlock;
    var b := splits[q];
    assert blocks[b] == Block([], [], [Jump(s)]);
    assert [] + [] + InsertAt(inserts, b) == InsertAt(inserts, b);
  }

  lemma NewEdges(f: Function, g: Graph, s: BlockId, splits: map<BlockId, BlockId>, q: BlockId)
    requires SplitEdges(f, g, s, splits) && q in splits
    ensures splits[q] in g.succ && g.succ[splits[q]] == {s} && splits[q] in g.pred
  {
  }

  lemma OneTarget(s: BlockId)
    ensures Targets([Jump(s)]) == {s} && |{s}| == 1
  {
    assert [Jump(s)][0].target == s;
  }

  lemma JumpIsBelow(s: BlockId, code: seq<Instr>, limit: nat)
    requires CodeBelow(code, limit)
    ensures BlockBelow(Block([], code, [Jump(s)]), limit)
  {
    hide InstrBelow;
  }

  /** The function after one block: the branches and both edge lists agree again, everything is
      below the registers and block numbers taken so far. */
  lemma FinishedValid(f: Function, blocks: map<BlockId, Block>, f': Function, s: BlockId, splits: map<BlockId, BlockId>,
                      inserts: map<BlockId, seq<Instr>>,
                      temps: map<Operand, Operand>, heads: seq<Instr>)
    requires ValidFunction(f) && s in f.blocks && s in f.g.pred && SplitEdges(f, f'.g, s, splits)
        && SplitsFit(f, s, splits, f'.nextBlock)
    requires SplitBlocks(f, blocks, s, splits, []) && Finished(blocks, f'.blocks, s, inserts, heads)
        && InsertsFit(f, s, splits, inserts)
    requires Collected(f, s, splits, inserts, temps, |f.blocks[s].phis|, {}, f'.nextReg)
        && TempsBelow(temps, f'.nextReg) && f.nextReg <= f'.nextReg
    requires HeadsFor(heads, temps) && forall o :: o in temps ==> o.Virt? && o.id < f'.nextReg
    ensures ValidFunction(f')
  {
    hide *;
    SplitWellFormed(f, f'.g, s, splits, f'.nextBlock);
    HeadsAreBelow(heads, temps, f'.nextReg);
    KeysAfter(f, blocks, f', s, splits, inserts, heads);
    forall b | b in f'.blocks ensures b in f'.g.succ && b in f'.g.pred && BlockFits(f', b) {
      InsertsAreBelow(f, s, splits, inserts, temps, f'.nextReg, b);
      if b in f.blocks {
        FinishedOldFits(f, blocks, f', s, splits, inserts, temps, heads, b);
      } else {
        var q :| q in splits && splits[q] == b;
        FinishedNewFits(f, blocks, f', s, splits, inserts, heads, q);
      }
    }
    EntryAfter(f, blocks, f', s, splits, inserts, heads);
    ValidHolds(f');
  }

  lemma KeysAfter(f: Function, blocks: map<BlockId, Block>, f': Function, s: BlockId, splits: map<BlockId, BlockId>,
                  inserts: map<BlockId, seq<Instr>>, heads: seq<Instr>)
    requires ValidFunction(f) && SplitEdges(f, f'.g, s, splits) && SplitBlocks(f, blocks, s, splits, [])
        && Finished(blocks, f'.blocks, s, inserts, heads)
    ensures f'.blocks.Keys == f'.g.succ.Keys && forall b :: b in f'.blocks ==> b in f.blocks || exists q ::
        q in splits
        && splits[q] == b
  {
    ValidGraph(f);
    hide *;
    SplitKeys(f, blocks, s, splits);
    FinishedKeys(blocks, f'.blocks, s, inserts, heads);
    EdgeKeys(f, f'.g, s, splits);
    forall b | b in f'.blocks ensures b in f.blocks || exists q :: q in splits && splits[q] == b {
    }
  }

  lemma SplitKeys(f: Function, blocks: map<BlockId, Block>, s: BlockId, splits: map<BlockId, BlockId>)
    requires SplitBlocks(f, blocks, s, splits, [])
    ensures blocks.Keys == f.blocks.Keys + splits.Values
  {
    hide SplitBlock;
    forall x | x in splits.Values ensures x in blocks {
      var q :| q in splits && splits[q] == x;
    }
  }

  lemma FinishedKeys(before: map<BlockId, Block>, after: map<BlockId, Block>, s: BlockId,
                     inserts: map<BlockId, seq<Instr>>, heads: seq<Instr>)
    requires Finished(before, after, s, inserts, heads)
    ensures after.Keys == before.Keys
  {
  }

  lemma EdgeKeys(f: Function, g: Graph, s: BlockId, splits: map<BlockId, BlockId>)
    requires SplitEdges(f, g, s, splits)
    ensures g.succ.Keys == f.g.succ.Keys + splits.Values
  {
  }

  lemma EntryAfter(f: Function, blocks: map<BlockId, Block>, f': Function, s: BlockId, splits: map<BlockId, BlockId>,
                   inserts: map<BlockId, seq<Instr>>, heads: seq<Instr>)
    requires ValidFunction(f) && SplitEdges(f, f'.g, s, splits) && SplitBlocks(f, blocks, s, splits, [])
        && Finished(blocks, f'.blocks, s, inserts, heads)
    ensures f'.g.entry in f'.blocks && f'.blocks[f'.g.entry].phis == []
  {
    assert f.g.entry in f.blocks && f.blocks[f.g.entry].phis == [];
    hide ValidFunction;
    OldBlockAfter(f, blocks, f', s, splits, inserts, heads, f.g.entry);
  }

  lemma ValidHolds(f: Function)
    requires WellFormed(f.g) && f.blocks.Keys == f.g.succ.Keys
    requires forall b :: b in f.blocks ==> b in f.g.succ && b in f.g.pred && BlockFits(f, b)
    requires f.g.entry in f.blocks && f.blocks[f.g.entry].phis == []
    ensures ValidFunction(f)
  {
    hide BlockFits;
  }

  // ----- conflict detection -----

  /** Scanning the first `i` phis and `k` operands of the next finds the conflicts among them. */
  ghost predicate ConflictSoFar(phis: seq<Phi>, i: nat, k: nat, o: Operand) {
    (exists a, b :: 0 <= a < b < i && b < |phis| && phis[a].rd == o && Reads(phis[b], o))
    || (i < |phis| && (exists a :: 0 <= a < i && phis[a].rd == o) && exists j ::
        0 <= j < k && j < |phis[i].incoming|
        && phis[i].incoming[j].0 == o)
  }

  lemma ConflictOperand(phis: seq<Phi>, i: nat, k: nat, o: Operand)
    requires i < |phis| && k < |phis[i].incoming|
    ensures ConflictSoFar(phis, i, k + 1, o) <==>
        ConflictSoFar(phis, i, k, o)
        || (phis[i].incoming[k].0 == o && exists a :: 0 <= a < i && phis[a].rd == o)
  {
  }

  lemma ConflictPhi(phis: seq<Phi>, i: nat, o: Operand)
    requires i < |phis|
    ensures ConflictSoFar(phis, i, |phis[i].incoming|, o) <==> ConflictSoFar(phis, i + 1, 0, o)
  {
    if ConflictSoFar(phis, i, |phis[i].incoming|, o) {
      if a, b :| 0 <= a < b < i && b < |phis| && phis[a].rd == o && Reads(phis[b], o) {
        assert 0 <= a < b < i + 1;
      } else {
        var a :| 0 <= a < i && phis[a].rd == o;
        var j :| 0 <= j < |phis[i].incoming| && phis[i].incoming[j].0 == o;
        assert Reads(phis[i], o);
        assert 0 <= a < i < i + 1;
      }
    }
    if ConflictSoFar(phis, i + 1, 0, o) {
      var a, b :| 0 <= a < b < i + 1 && b < |phis| && phis[a].rd == o && Reads(phis[b], o);
      if b == i {
        var j :| 0 <= j < |phis[i].incoming| && phis[i].incoming[j].0 == o;
      }
    }
  }

  lemma ConflictAll(phis: seq<Phi>, o: Operand)
    ensures ConflictSoFar(phis, |phis|, 0, o) <==> InConflict(phis, o)
    ensures !ConflictSoFar(phis, 0, 0, o)
  {
  }

  /** The results that a later phi of the block reads. */
  method FindConflicts(phis: seq<Phi>) returns (conflict: set<Operand>)
    ensures forall o :: o in conflict <==> InConflict(phis, o)
  {
    hide ConflictSoFar, InConflict;
    conflict := {};
    var defs: set<Operand> := {};
    var i: nat := 0;
    forall o ensures !ConflictSoFar(phis, 0, 0, o) { ConflictAll(phis, o); }
    while i < |phis|
      invariant i <= |phis|
      invariant forall o :: o in defs <==> exists a :: 0 <= a < i && phis[a].rd == o
      invariant forall o :: o in conflict <==> ConflictSoFar(phis, i, 0, o)
    {
      var incoming := phis[i].incoming;
      var k: nat := 0;
      while k < |incoming|
        invariant k <= |incoming|
        invariant forall o :: o in conflict <==> ConflictSoFar(phis, i, k, o)
      {
        forall o ensures ConflictSoFar(phis, i, k + 1, o) <==>
            ConflictSoFar(phis, i, k, o)
            || (incoming[k].0 == o && o in defs) {
          ConflictOperand(phis, i, k, o);
        }
        if incoming[k].0 in defs {
          conflict := conflict + {incoming[k].0};
        }
        k := k + 1;
      }
      forall o ensures ConflictSoFar(phis, i, k, o) <==> ConflictSoFar(phis, i + 1, 0, o) { ConflictPhi(phis, i, o); }
      ghost var was := defs;
      defs := defs + {phis[i].rd};
      forall o ensures o in defs <==> exists a :: 0 <= a < i + 1 && phis[a].rd == o {
        if o == phis[i].rd { assert phis[i].rd == o; }
      }
      i := i + 1;
    }
    forall o ensures ConflictSoFar(phis, i, 0, o) <==> InConflict(phis, o) { ConflictAll(phis, o); }
  }

  class PhiElimination {
    var g: Graph
    var blocks: map<BlockId, Block>
    var nextBlock: nat
    var nextReg: nat

    function Current(): Function
      reads this
    {
      Function(g, blocks, nextBlock, nextReg)
    }

    constructor (f: Function)
      ensures Current() == f
    {
      g, blocks, nextBlock, nextReg := f.g, f.blocks, f.nextBlock, f.nextReg;
    }

    /** The block that will run the copies for the edge from `p`, splitting the edge if `p` has a choice. */
    method InsertBlock(ghost f: Function, s: BlockId, p: BlockId, splits0: map<BlockId, BlockId>, ghost rest: seq<Phi>)
      returns (where: BlockId, splits: map<BlockId, BlockId>)
      requires ValidFunction(f) && s in f.blocks && s in f.g.pred && p in f.g.pred[s] && p in f.g.succ
      requires SplitBlocks(f, blocks, s, splits0, rest) && SplitEdges(f, g, s, splits0)
          && SplitsFit(f, s, splits0, nextBlock)
      modifies this`g, this`blocks, this`nextBlock
      ensures SplitBlocks(f, blocks, s, splits, rest) && SplitEdges(f, g, s, splits)
          && SplitsFit(f, s, splits, nextBlock)
      ensures where == Where(splits, p) && (p in splits <==> |f.g.succ[p]| > 1)
      ensures splits == splits0 || (p !in splits0 && p in splits && splits == splits0[p := splits[p]]
          && splits[p] !in splits0.Values && splits[p] !in f.g.pred[s])
    {
      hide *;
      splits := splits0;
      where := p;
      ChoiceKept(f, g, s, splits0, nextBlock, p);
      if |g.succ[p]| > 1 {
        if p in splits {
          where := splits[p];
        } else {
          var e: BlockId := nextBlock;
          SplitMore(f, g, blocks, s, splits, rest, e, p);
          Rerouting(g, blocks, s, p, e);
          nextBlock := nextBlock + 1;
          splits := splits[p := e];
          where := e;
          blocks := blocks[e := Block([], [], [Jump(s)])];
          g := Graph(g.entry, g.succ[p := g.succ[p] - {s} + {e}][e := {s}],
              g.pred[s := g.pred[s] - {p} + {e}][e := {p}]);
          blocks := blocks[p := blocks[p].(exits := Redirect(blocks[p].exits, s, e))];
        }
      }
      WhereMeans(splits, p);
    }

    /** The copies of one phi, for every predecessor. */
    method CollectPhi(ghost f: Function, s: BlockId, ghost i: nat, phi: Phi, d: Operand, predSet: set<BlockId>,
                      splits0: map<BlockId, BlockId>,
                      inserts0: map<BlockId, seq<Instr>>, ghost temps: map<Operand, Operand>, ghost rest: seq<Phi>)
      returns (splits: map<BlockId, BlockId>, inserts: map<BlockId, seq<Instr>>)
      requires ValidFunction(f) && s in f.blocks && s in f.g.pred && i < |f.blocks[s].phis|
          && phi == f.blocks[s].phis[i]
      requires predSet == f.g.pred[s] && d == Dst(temps, phi.rd)
      requires SplitBlocks(f, blocks, s, splits0, rest) && SplitEdges(f, g, s, splits0)
          && SplitsFit(f, s, splits0, nextBlock)
      requires Collected(f, s, splits0, inserts0, temps, i, {}, nextReg) && InsertsFit(f, s, splits0, inserts0)
          && SplitSoFar(f, s, splits0, i, {})
      requires TempsBelow(temps, nextReg) && f.nextReg <= nextReg
      modifies this`g, this`blocks, this`nextBlock, this`nextReg
      ensures SplitBlocks(f, blocks, s, splits, rest) && SplitEdges(f, g, s, splits)
          && SplitsFit(f, s, splits, nextBlock)
      ensures Collected(f, s, splits, inserts, temps, i + 1, {}, nextReg) && InsertsFit(f, s, splits, inserts)
          && SplitSoFar(f, s, splits, i + 1, {})
      ensures TempsBelow(temps, nextReg) && old(nextReg) <= nextReg
    {
      hide *;
      PredsHaveEdges(f, s);
      PhiFacts(f, s, i);
      splits, inserts := splits0, inserts0;
      ghost var done: set<BlockId> := {};
      var k: nat := 0;
      while k < |phi.incoming|
        invariant k <= |phi.incoming|
        invariant SplitBlocks(f, blocks, s, splits, rest) && SplitEdges(f, g, s, splits)
            && SplitsFit(f, s, splits, nextBlock)
        invariant Collected(f, s, splits, inserts, temps, i, done, nextReg) && InsertsFit(f, s, splits, inserts)
            && SplitSoFar(f, s, splits, i, done)
        invariant TempsBelow(temps, nextReg) && f.nextReg <= nextReg && old(nextReg) <= nextReg
        invariant forall p :: p in done <==> p in predSet && exists j :: 0 <= j < k && phi.incoming[j].1 == p
        modifies this`g, this`blocks, this`nextBlock, this`nextReg
      {
        var (o, p) := phi.incoming[k];
        DoneGrows(phi.incoming, k, predSet, done);
        k := k + 1;
        if p in predSet {
          ghost var splits1 := splits;
          var where;
          where, splits := InsertBlock(f, s, p, splits, rest);
          if splits != splits1 {
            CollectedSplits(f, s, splits1, inserts, temps, i, done, nextReg, p, splits[p]);
          }
          SplitReaches(f, s, splits1, splits, i, done, p);
          SourceAt(phi.incoming, k - 1);
          var tmp := Virt(nextReg, false);
          ghost var hi := nextReg;
          var code := CopyCode(d, o, tmp);
          if NeedsTemp(d, o) {
            nextReg := nextReg + 1;
          }
          FreshCopy(d, o, f.nextReg, hi, nextReg, temps);
          CollectedKeeps(f, s, splits, inserts, temps, temps, i, done, hi, nextReg);
          CollectedStep(f, s, splits, inserts, temps, i, done, nextReg, nextBlock, p, code);
          InsertAtMeans(inserts, where);
          inserts := inserts[where := (if where in inserts then inserts[where] else []) + code];
          done := done + {p};
        }
      }
      AllDone(f, s, i, phi.incoming, done);
      CollectedNext(f, s, splits, inserts, temps, i, done, nextReg);
    }

    /** Put the collected copies before the trailing branches of their blocks. */
    method AppendInserts(inserts: map<BlockId, seq<Instr>>)
      requires inserts.Keys <= blocks.Keys
      modifies this`blocks
      ensures blocks.Keys == old(blocks).Keys
      ensures forall b :: b in blocks ==> blocks[b] == old(blocks)[b].(code := old(blocks)[b].code + InsertAt(inserts,
          b))
    {
      ghost var before := blocks;
      var rest := inserts.Keys;
      while rest != {}
        invariant rest <= inserts.Keys && blocks.Keys == before.Keys
        invariant forall b :: b in blocks ==> blocks[b] == before[b].(code := before[b].code + if b in rest then []
            else InsertAt(inserts, b))
        decreases rest
      {
        var b :| b in rest;
        rest := rest - {b};
        assert before[b].code + [] == before[b].code;
        blocks := blocks[b := blocks[b].(code := blocks[b].code + inserts[b])];
      }
    }

    /** Put a move out of every temporary at the head of the block. */
    method AddHeads(s: BlockId, temps: map<Operand, Operand>) returns (ghost heads: seq<Instr>)
      requires s in blocks
      modifies this`blocks
      ensures HeadsFor(heads, temps) && blocks == old(blocks)[s := old(blocks)[s].(code := heads + old(blocks)[s].code)]
    {
      ghost var before := blocks;
      heads := [];
      assert [] + before[s].code == before[s].code;
      var rest := temps.Keys;
      while rest != {}
        invariant rest <= temps.Keys && blocks == before[s := before[s].(code := heads + before[s].code)]
        invariant forall k :: 0 <= k < |heads| ==> IsHead(heads[k], temps)
        invariant forall o :: o in temps.Keys - rest ==> Mv(o, temps[o]) in heads
        decreases rest
      {
        var rd :| rd in rest;
        rest := rest - {rd};
        var move := Mv(rd, temps[rd]);
        ghost var heads0 := heads;
        heads := [move] + heads;
        assert forall x :: x in heads <==> x == move || x in heads0;
        assert [move] + (heads0 + before[s].code) == heads + before[s].code;
        blocks := blocks[s := blocks[s].(code := [move] + blocks[s].code)];
      }
    }

    /** The temporary of one phi, if a later phi reads its result. */
    method TempFor(ghost f: Function, s: BlockId, ghost i: nat, rd: Operand, conflict: set<Operand>,
                   temps0: map<Operand, Operand>,
                   ghost splits: map<BlockId, BlockId>, ghost inserts: map<BlockId, seq<Instr>>)
      returns (d: Operand, temps: map<Operand, Operand>)
      requires ValidFunction(f) && s in f.blocks && s in f.g.pred && i < |f.blocks[s].phis|
          && rd == f.blocks[s].phis[i].rd && f.nextReg <= nextReg
      requires forall o :: o in conflict <==> InConflict(f.blocks[s].phis, o)
      requires TempsSoFar(temps0, f.blocks[s].phis, i, f.nextReg, nextReg)
          && Collected(f, s, splits, inserts, temps0, i, {}, nextReg)
      modifies this`nextReg
      ensures TempsSoFar(temps, f.blocks[s].phis, i + 1, f.nextReg, nextReg)
          && Collected(f, s, splits, inserts, temps, i, {}, nextReg)
      ensures d == Dst(temps, rd) && TempsBelow(temps, nextReg) && old(nextReg) <= nextReg
    {
      hide *;
      d, temps := rd, temps0;
      if rd in conflict {
        TempsGrow(f, s, splits, inserts, temps, i, nextReg);
        d := Virt(nextReg, rd.isFloat);
        nextReg := nextReg + 1;
        temps := temps[rd := d];
      } else {
        TempsSkip(f, s, temps, i, nextReg);
      }
      TempsFacts(temps, f.blocks[s].phis, i + 1, f.nextReg, nextReg);
    }

    /** Take the phis of the block one after the other. */
    method CollectAll(ghost f: Function, s: BlockId)
      returns (splits: map<BlockId, BlockId>, inserts: map<BlockId, seq<Instr>>, temps: map<Operand, Operand>)
      requires ValidFunction(f) && f == Current() && s in blocks
      modifies this`g, this`blocks, this`nextBlock, this`nextReg
      ensures s in f.g.pred && SplitBlocks(f, blocks, s, splits, []) && SplitEdges(f, g, s, splits)
          && SplitsFit(f, s, splits, nextBlock)
      ensures Collected(f, s, splits, inserts, temps, |f.blocks[s].phis|, {}, nextReg)
          && InsertsFit(f, s, splits, inserts)
      ensures SplitSoFar(f, s, splits, |f.blocks[s].phis|, {})
      ensures TempsSoFar(temps, f.blocks[s].phis, |f.blocks[s].phis|, f.nextReg, nextReg) && f.nextReg <= nextReg
    {
      hide *;
      CurrentIs();
      StartFacts(f, s);
      var phis := blocks[s].phis;
      var predSet := g.pred[s];
      var conflict := FindConflicts(phis);
      splits, inserts, temps := map[], map[], map[];
      NothingSplit(f, s);
      CollectedStarts(f, s, nextReg);
      TempsStart(phis, f.nextReg);
      var i: nat := 0;
      assert phis[0..] == phis;
      while i < |phis|
        invariant i <= |phis|
        invariant SplitBlocks(f, blocks, s, splits, phis[i..]) && SplitEdges(f, g, s, splits)
            && SplitsFit(f, s, splits, nextBlock)
        invariant Collected(f, s, splits, inserts, temps, i, {}, nextReg) && InsertsFit(f, s, splits, inserts)
            && SplitSoFar(f, s, splits, i, {})
        invariant TempsSoFar(temps, phis, i, f.nextReg, nextReg) && f.nextReg <= nextReg
        modifies this`g, this`blocks, this`nextBlock, this`nextReg
      {
        var d;
        d, temps := TempFor(f, s, i, phis[i].rd, conflict, temps, splits, inserts);
        ghost var hi := nextReg;
        splits, inserts := CollectPhi(f, s, i, phis[i], d, predSet, splits, inserts, temps, phis[i..]);
        TempsWiden(temps, phis, i + 1, f.nextReg, hi, nextReg);
        PhiDropped(f, blocks, s, splits, phis, i, nextBlock);
        blocks := blocks[s := blocks[s].(phis := phis[i + 1..])];
        i := i + 1;
      }
      assert phis[i..] == [];
    }

    /** Replace all phis of one block. */
    method EliminateBlock(s: BlockId) returns (ghost e: Elim)
      requires ValidFunction(Current()) && s in blocks
      modifies this
      ensures ValidFunction(Current()) && s in blocks && blocks[s].phis == [] && g.entry == old(g.entry)
      ensures old(blocks[s].phis) != [] ==> Eliminated(old(Current()), Current(), s, e)
      ensures old(blocks[s].phis) == [] ==> Current() == old(Current())
      ensures forall b :: b in old(blocks) ==> b in blocks && (b != s ==> blocks[b].phis == old(blocks)[b].phis)
      ensures forall b :: b in blocks && b !in old(blocks) ==> blocks[b].phis == []
      ensures AllClassed(Current()) <==> old(AllClassed(Current()) && EdgesFitClass(Current(), s))
      ensures AllEdgesFitClass(old(Current())) <==> old(EdgesFitClass(Current(), s)) && AllEdgesFitClass(Current())
    {
      hide *;
      ghost var f := Current();
      CurrentIs();
      e := Elim(map[], map[], map[], []);
      if blocks[s].phis == [] {
        NoPhisFitClass(f, s);
        return;
      }
      StartFacts(f, s);
      var splits, inserts, temps := CollectAll(f, s);
      ghost var blocks1 := blocks;
      InsertBlocksExist(f, blocks, s, splits, inserts);
      SplitKeys2(f, blocks, s, splits, []);
      AppendInserts(inserts);
      ghost var heads := AddHeads(s, temps);
      FinishedHolds(blocks1, blocks, s, inserts, heads);
      CurrentIs();
      BlockDone(f, blocks1, Current(), s, splits, inserts, temps, heads);
      e := Elim(splits, temps, CopiesOf(f, s, splits, inserts), heads);
      EliminationClassedIff(f, Current(), s, e);
      OtherPreds(f, g, s, splits);
      OthersFitClass(f, Current(), s);
    }

    lemma CurrentIs()
      ensures Current() == Function(g, blocks, nextBlock, nextReg)
    {
    }

    /** Replace the phis of every block of the function, in the order of its layout. */
    method Run(layout: seq<BlockId>)
      requires ValidFunction(Current()) && forall b :: b in layout ==> b in blocks
      requires forall b :: b in blocks ==> b in layout
      modifies this
      ensures ValidFunction(Current()) && Preserves(old(Current()), Current())
      ensures forall b :: b in blocks ==> blocks[b].phis == []
      ensures AllClassed(Current()) <==> old(AllClassed(Current()) && AllEdgesFitClass(Current()))
    {
      hide *;
      ghost var f := Current();
      CurrentIs();
      PreservesItself(f);
      var i: nat := 0;
      while i < |layout|
        invariant i <= |layout| && ValidFunction(Current()) && Preserves(f, Current())
        invariant forall b :: b in old(blocks) ==> b in blocks
        invariant forall b :: b in blocks && b !in layout[i..] ==> blocks[b].phis == []
        invariant AllClassed(Current()) && AllEdgesFitClass(Current()) <==> AllClassed(f) && AllEdgesFitClass(f)
      {
        ghost var f1 := Current();
        CurrentIs();
        assert layout[i] in layout;
        ghost var blocks1 := blocks;
        ghost var e := EliminateBlock(layout[i]);
        CurrentIs();
        if blocks1[layout[i]].phis != [] {
          EntryHasNoPhis(f1, layout[i]);
          EliminationPreserves(f1, Current(), layout[i], e);
          PreservesTransitive(f, f1, Current());
        }
        assert layout[i..] == [layout[i]] + layout[i + 1..];
        i := i + 1;
      }
      CurrentIs();
      NothingLeftToFit(Current());
    }
  }

  lemma NothingLeftToFit(f: Function)
    requires forall b :: b in f.blocks ==> f.blocks[b].phis == []
    ensures AllEdgesFitClass(f)
  {
    hide EdgesFitClass;
    forall b | b in f.blocks ensures EdgesFitClass(f, b) {
      NoPhisFitClass(f, b);
    }
  }

  lemma Rerouting(g: Graph, blocks: map<BlockId, Block>, s: BlockId, p: BlockId, e: BlockId)
    requires s in g.pred && p in g.succ && p in blocks
    ensures Rerouted(g, s, p, e) == Graph(g.entry, g.succ[p := g.succ[p] - {s} + {e}][e := {s}],
        g.pred[s := g.pred[s] - {p} + {e}][e := {p}])
    ensures WithNewBlock(blocks, s, p, e) == blocks[e := Block([], [],
        [Jump(s)])][p := blocks[p].(exits := Redirect(blocks[p].exits, s, e))]
  {
  }

  lemma WhereMeans(splits: map<BlockId, BlockId>, p: BlockId)
    ensures Where(splits, p) == if p in splits then splits[p] else p
  {
  }

  /** Splitting an edge does not change how many successors a block has. */
  lemma ChoiceKept(f: Function, g: Graph, s: BlockId, splits: map<BlockId, BlockId>, nextBlock: nat, p: BlockId)
    requires ValidFunction(f) && SplitEdges(f, g, s, splits) && SplitsFit(f, s, splits, nextBlock) && s in f.g.pred
        && p in f.g.pred[s] && p in f.g.succ
    ensures p in g.succ && |g.succ[p]| == |f.g.succ[p]|
    ensures p in splits ==> |f.g.succ[p]| > 1
  {
    hide BlockFits;
    if p in splits {
      BlockNumbers(f, p);
      assert s in f.g.succ[p] && splits[p] !in f.g.succ[p];
      assert |f.g.succ[p] - {s} + {splits[p]}| == |f.g.succ[p]|;
    }
  }

  /** The edge from `p` to `s` led through `e`, in both edge lists. */
  function Rerouted(g: Graph, s: BlockId, p: BlockId, e: BlockId): Graph
    requires s in g.pred && p in g.succ
  {
    Graph(g.entry, g.succ[p := g.succ[p] - {s} + {e}][e := {s}], g.pred[s := g.pred[s] - {p} + {e}][e := {p}])
  }

  /** The new block jumps to `s`, and one exit of `p` goes to it. */
  function WithNewBlock(blocks: map<BlockId, Block>, s: BlockId, p: BlockId, e: BlockId): map<BlockId, Block>
    requires p in blocks
  {
    blocks[e := Block([], [], [Jump(s)])][p := blocks[p].(exits := Redirect(blocks[p].exits, s, e))]
  }

  lemma SplitMore(f: Function, g: Graph, blocks: map<BlockId, Block>, s: BlockId, splits: map<BlockId, BlockId>,
                  rest: seq<Phi>, e: nat, p: BlockId)
    requires ValidFunction(f) && s in f.blocks && s in f.g.pred && p in f.g.pred[s] && p in f.g.succ
        && |f.g.succ[p]| > 1 && p !in splits
    requires SplitBlocks(f, blocks, s, splits, rest) && SplitEdges(f, g, s, splits) && SplitsFit(f, s, splits, e)
    ensures p in blocks && p in g.succ && s in g.pred && e !in splits.Values && e !in f.g.pred[s]
    ensures SplitBlocks(f, WithNewBlock(blocks, s, p, e), s, splits[p := e], rest)
    ensures SplitEdges(f, Rerouted(g, s, p, e), s, splits[p := e])
    ensures SplitsFit(f, s, splits[p := e], e + 1)
  {
    hide *;
    NewBlocksFresh(f, s, splits, e);
    SplitsAreEdges(f, s, splits, e);
    NewIsFresh(f, e);
    ValidGraph(f);
    PredsHaveEdges(f, s);
    SplitKeys2(f, blocks, s, splits, rest);
    EdgesAfter(f, g, s, splits, p);
    EdgesAfter(f, g, s, splits, s);
    BlocksSplit(f, blocks, s, splits, rest, p, e);
    EdgesSplit(f, g, s, splits, p, e);
    FitMore(f, s, splits, e, p);
  }

  lemma SplitKeys2(f: Function, blocks: map<BlockId, Block>, s: BlockId, splits: map<BlockId, BlockId>, rest: seq<Phi>)
    requires SplitBlocks(f, blocks, s, splits, rest)
    ensures forall b :: b in f.blocks ==> b in blocks
  {
  }

  lemma BlocksSplit(f: Function, blocks: map<BlockId, Block>, s: BlockId, splits: map<BlockId, BlockId>, rest: seq<Phi>,
                    p: BlockId, e: BlockId)
    requires SplitBlocks(f, blocks, s, splits, rest) && p in f.blocks && p !in splits && e !in f.blocks
        && e !in splits.Values && p in blocks
    requires p !in splits.Values
    ensures SplitBlocks(f, WithNewBlock(blocks, s, p, e), s, splits[p := e], rest)
  {
    hide SplitBlocks, Redirect;
    SplitBlocksMore(f, blocks, s, splits, rest, p, e);
  }

  lemma EdgesSplit(f: Function, g: Graph, s: BlockId, splits: map<BlockId, BlockId>, p: BlockId, e: BlockId)
    requires SplitEdges(f, g, s, splits) && p in f.g.succ && p !in splits && s in f.g.pred && p in f.g.pred[s]
        && e !in f.g.succ && e !in f.g.pred && e !in splits.Values
    requires p !in splits.Values && p in g.succ && s in g.pred && s !in splits.Values
        && (forall b :: b in f.g.pred[s] ==> b !in splits.Values)
    ensures SplitEdges(f, Rerouted(g, s, p, e), s, splits[p := e])
  {
    SplitSuccMore(f, g.succ, s, splits, p, e);
    SplitPredMore(f, g.pred, s, splits, p, e);
    hide SplitSucc, SplitPred;
  }

  lemma FitMore(f: Function, s: BlockId, splits: map<BlockId, BlockId>, e: nat, p: BlockId)
    requires SplitsFit(f, s, splits, e) && p in f.g.pred[s] && p in f.g.succ && |f.g.succ[p]| > 1
    ensures SplitsFit(f, s, splits[p := e], e + 1)
  {
  }

  // ----- helpers of the loops -----

  lemma PhiFacts(f: Function, s: BlockId, i: nat)
    requires ValidFunction(f) && s in f.blocks && s in f.g.pred && i < |f.blocks[s].phis|
    ensures var phi := f.blocks[s].phis[i];
            && phi.rd.Virt? && phi.rd.id < f.nextReg
            && (forall k, l :: 0 <= k < l < |phi.incoming| ==> phi.incoming[k].1 != phi.incoming[l].1)
            && (forall p :: p in f.g.pred[s] ==> exists k :: 0 <= k < |phi.incoming| && phi.incoming[k].1 == p)
  {
    assert BlockFits(f, s);
    assert OperandPerPred(f.blocks[s].phis[i].incoming, f.g.pred[s]);
    assert PhiBelow(f.blocks[s].phis[i], f.nextReg);
  }

  lemma DoneGrows(incoming: seq<(Operand, BlockId)>, k: nat, preds: set<BlockId>, done: set<BlockId>)
    requires k < |incoming| && (forall a, b :: 0 <= a < b < |incoming| ==> incoming[a].1 != incoming[b].1)
    requires forall p :: p in done <==> p in preds && exists j :: 0 <= j < k && incoming[j].1 == p
    ensures incoming[k].1 !in done
    ensures forall p :: (p in done || (p == incoming[k].1 && p in preds)) <==> p in preds && exists j ::
        0 <= j < k + 1
        && incoming[j].1 == p
  {
    forall p ensures (p in done || (p == incoming[k].1 && p in preds)) <==> p in preds && exists j ::
        0 <= j < k + 1
        && incoming[j].1 == p {
      if p == incoming[k].1 {
        assert incoming[k].1 == p;
      }
    }
  }

  lemma AllDone(f: Function, s: BlockId, i: nat, incoming: seq<(Operand, BlockId)>, done: set<BlockId>)
    requires ValidFunction(f) && s in f.blocks && s in f.g.pred && i < |f.blocks[s].phis|
        && incoming == f.blocks[s].phis[i].incoming
    requires forall p :: p in done <==> p in f.g.pred[s] && exists j :: 0 <= j < |incoming| && incoming[j].1 == p
    ensures f.g.pred[s] <= done
  {
    PhiFacts(f, s, i);
    hide ValidFunction;
  }

  lemma SplitReaches(f: Function, s: BlockId, splits: map<BlockId, BlockId>, more: map<BlockId, BlockId>, i: nat,
                     done: set<BlockId>, p: BlockId)
    requires SplitSoFar(f, s, splits, i, done) && p in f.g.succ && (p in more <==> |f.g.succ[p]| > 1)
        && forall q :: q in splits ==> q in more
    ensures SplitSoFar(f, s, more, i, done) && SplitSoFar(f, s, more, i, done + {p})
  {
  }

  lemma FreshCopy(d: Operand, src: Operand, lo: nat, hi: nat, hi': nat, temps: map<Operand, Operand>)
    requires TempsBelow(temps, hi) && lo <= hi && hi' == (if NeedsTemp(d, src) then hi + 1 else hi)
    ensures IsCopyBelow(CopyCode(d, src, Virt(hi, false)), d, src, lo, hi', temps.Values) && TempsBelow(temps, hi')
    ensures forall o :: o in temps ==> temps[o].Virt?
  {
    hide CopyCode, NeedsTemp;
    assert Virt(hi, false) !in temps.Values;
  }

  lemma InsertAtMeans(inserts: map<BlockId, seq<Instr>>, w: BlockId)
    ensures InsertAt(inserts, w) == if w in inserts then inserts[w] else []
  {
  }

  /** The temporaries of the first `i` phis. */
  ghost predicate TempsSoFar(temps: map<Operand, Operand>, phis: seq<Phi>, i: nat, lo: nat, hi: nat) {
    && i <= |phis|
    && (forall o :: o in temps ==> (exists k :: 0 <= k < i && phis[k].rd == o) && InConflict(phis, o))
    && (forall k :: 0 <= k < i && InConflict(phis, phis[k].rd) ==> phis[k].rd in temps)
    && (forall o :: o in temps ==> temps[o].Virt? && lo <= temps[o].id < hi)
    && (forall o :: o in temps && o.Virt? ==> temps[o].Virt? && temps[o].isFloat == o.isFloat)
    && (forall o, p :: o in temps && p in temps && temps[o] == temps[p] ==> o == p)
  }

  lemma TempsStart(phis: seq<Phi>, lo: nat)
    ensures TempsSoFar(map[], phis, 0, lo, lo)
  {
  }

  lemma TempsFacts(temps: map<Operand, Operand>, phis: seq<Phi>, i: nat, lo: nat, hi: nat)
    requires TempsSoFar(temps, phis, i, lo, hi)
    ensures TempsBelow(temps, hi)
  {
  }

  lemma TempsWiden(temps: map<Operand, Operand>, phis: seq<Phi>, i: nat, lo: nat, hi: nat, hi': nat)
    requires TempsSoFar(temps, phis, i, lo, hi) && hi <= hi'
    ensures TempsSoFar(temps, phis, i, lo, hi')
  {
    hide InConflict;
  }

  lemma DistinctResults(f: Function, s: BlockId)
    requires ValidFunction(f) && s in f.blocks
    ensures forall a, b :: 0 <= a < b < |f.blocks[s].phis| ==> f.blocks[s].phis[a].rd != f.blocks[s].phis[b].rd
  {
    assert BlockFits(f, s);
  }

  lemma TempsGrow(f: Function, s: BlockId, splits: map<BlockId, BlockId>, inserts: map<BlockId, seq<Instr>>,
                  temps: map<Operand, Operand>, i: nat, hi: nat)
    requires ValidFunction(f) && s in f.blocks && s in f.g.pred && i < |f.blocks[s].phis| && f.nextReg <= hi
    requires TempsSoFar(temps, f.blocks[s].phis, i, f.nextReg, hi) && InConflict(f.blocks[s].phis,
        f.blocks[s].phis[i].rd)
    requires Collected(f, s, splits, inserts, temps, i, {}, hi)
    ensures var rd := f.blocks[s].phis[i].rd;
            && rd.Virt?
            && TempsSoFar(temps[rd := Virt(hi, rd.isFloat)], f.blocks[s].phis, i + 1, f.nextReg, hi + 1)
            && Collected(f, s, splits, inserts, temps[rd := Virt(hi, rd.isFloat)], i, {}, hi + 1)
            && Dst(temps[rd := Virt(hi, rd.isFloat)], rd) == Virt(hi, rd.isFloat)
  {
    hide *;
    var phis := f.blocks[s].phis;
    var rd := phis[i].rd;
    DistinctResults(f, s);
    PhiFacts(f, s, i);
    var more := temps[rd := Virt(hi, rd.isFloat)];
    OneMoreTemp(temps, phis, i, f.nextReg, hi, Virt(hi, rd.isFloat));
    TempsFacts(more, phis, i + 1, f.nextReg, hi + 1);
    CollectedKeeps(f, s, splits, inserts, temps, more, i, {}, hi, hi + 1);
  }

  lemma OneMoreTemp(temps: map<Operand, Operand>, phis: seq<Phi>, i: nat, lo: nat, hi: nat, t: Operand)
    requires i < |phis| && lo <= hi && TempsSoFar(temps, phis, i, lo, hi) && InConflict(phis, phis[i].rd) && t.Virt?
        && t.id == hi && (phis[i].rd.Virt? ==> t.isFloat == phis[i].rd.isFloat)
    requires forall a, b :: 0 <= a < b < |phis| ==> phis[a].rd != phis[b].rd
    ensures TempsSoFar(temps[phis[i].rd := t], phis, i + 1, lo, hi + 1)
    ensures Dst(temps[phis[i].rd := t], phis[i].rd) == t
    ensures forall k :: 0 <= k < |phis| && k < i ==> Dst(temps[phis[i].rd := t], phis[k].rd) == Dst(temps, phis[k].rd)
  {
    hide InConflict;
    var rd := phis[i].rd;
    var more := temps[rd := t];
    forall o | o in more ensures exists k :: 0 <= k < i + 1 && phis[k].rd == o {
      if o == rd {
        assert phis[i].rd == o;
      } else {
        var k :| 0 <= k < i && phis[k].rd == o;
        assert k < i + 1;
      }
    }
  }

  lemma TempsSkip(f: Function, s: BlockId, temps: map<Operand, Operand>, i: nat, hi: nat)
    requires ValidFunction(f) && s in f.blocks && i < |f.blocks[s].phis|
    requires TempsSoFar(temps, f.blocks[s].phis, i, f.nextReg, hi) && !InConflict(f.blocks[s].phis,
        f.blocks[s].phis[i].rd)
    ensures TempsSoFar(temps, f.blocks[s].phis, i + 1, f.nextReg, hi)
    ensures Dst(temps, f.blocks[s].phis[i].rd) == f.blocks[s].phis[i].rd
  {
    hide ValidFunction, InConflict;
    var phis := f.blocks[s].phis;
    forall o | o in temps ensures exists k :: 0 <= k < i + 1 && phis[k].rd == o {
      var k :| 0 <= k < i && phis[k].rd == o;
    }
  }

  lemma TempsComplete(temps: map<Operand, Operand>, phis: seq<Phi>, lo: nat, hi: nat)
    requires TempsSoFar(temps, phis, |phis|, lo, hi) && forall i :: 0 <= i < |phis| ==> PhiBelow(phis[i], lo)
    ensures TempsFit(temps, phis, lo)
    ensures forall o :: o in temps ==> exists i :: 0 <= i < |phis| && phis[i].rd == o
    ensures forall o :: o in temps ==> o.Virt? && o.id < lo
  {
    hide InConflict;
    forall o | o in temps ensures o.Virt? && o.id < lo {
      var k :| 0 <= k < |phis| && phis[k].rd == o;
      assert PhiBelow(phis[k], lo);
    }
  }

  lemma TempsAreOld(f: Function, s: BlockId, temps: map<Operand, Operand>, hi: nat)
    requires f.nextReg <= hi && forall o :: o in temps ==> o.Virt? && o.id < f.nextReg
    ensures forall o :: o in temps ==> o.Virt? && o.id < hi
  {
  }

  lemma PhiDropped(f: Function, blocks: map<BlockId, Block>, s: BlockId, splits: map<BlockId, BlockId>, phis: seq<Phi>,
                   i: nat, nextBlock: nat)
    requires i < |phis| && ValidFunction(f) && s in f.blocks && SplitBlocks(f, blocks, s, splits, phis[i..])
        && SplitsFit(f, s, splits, nextBlock)
    ensures s in blocks && SplitBlocks(f, blocks[s := blocks[s].(phis := phis[i + 1..])], s, splits, phis[i + 1..])
  {
    hide *;
    OldIsOld(f, s);
    SplitsNew(f, s, splits, nextBlock);
    SplitKeys2(f, blocks, s, splits, phis[i..]);
    PhiDroppedFrom(f, blocks, s, splits, phis[i..], phis[i + 1..]);
  }

  lemma PhiDroppedFrom(f: Function, blocks: map<BlockId, Block>, s: BlockId, splits: map<BlockId, BlockId>,
                       rest: seq<Phi>, rest': seq<Phi>)
    requires s in f.blocks && s in blocks && SplitBlocks(f, blocks, s, splits, rest) && forall b ::
        b in splits
        ==> splits[b] != s
    ensures SplitBlocks(f, blocks[s := blocks[s].(phis := rest')], s, splits, rest')
  {
    hide Redirect, SplitBlock;
    var after := blocks[s := blocks[s].(phis := rest')];
    forall b | b in f.blocks ensures b in after && SplitBlock(f, after[b], s, splits, rest', b) {
      PhiDroppedAt(f, blocks[b], s, splits, rest, rest', b);
    }
  }

  lemma PhiDroppedAt(f: Function, block: Block, s: BlockId, splits: map<BlockId, BlockId>, rest: seq<Phi>,
                     rest': seq<Phi>, b: BlockId)
    requires b in f.blocks && SplitBlock(f, block, s, splits, rest, b)
    ensures SplitBlock(f, if b == s then block.(phis := rest') else block, s, splits, rest', b)
  {
    hide Redirect;
  }

  lemma SplitsNew(f: Function, s: BlockId, splits: map<BlockId, BlockId>, nextBlock: nat)
    requires SplitsFit(f, s, splits, nextBlock) && s < f.nextBlock
    ensures forall b :: b in splits ==> splits[b] != s
  {
  }

  lemma OwnerOf(f: Function, s: BlockId, splits: map<BlockId, BlockId>, inserts: map<BlockId, seq<Instr>>, w: BlockId)
    returns (p: BlockId)
    requires InsertsFit(f, s, splits, inserts) && w in inserts
    ensures p in f.g.pred[s] && p in f.g.succ && Where(splits, p) == w && (p in splits || |f.g.succ[p]| <= 1)
  {
    p :| p in f.g.pred[s] && p in f.g.succ && Where(splits, p) == w && (p in splits || |f.g.succ[p]| <= 1);
  }

  lemma InsertBlocksExist(f: Function, blocks: map<BlockId, Block>, s: BlockId, splits: map<BlockId, BlockId>,
                          inserts: map<BlockId, seq<Instr>>)
    requires ValidFunction(f) && InsertsFit(f, s, splits, inserts) && SplitBlocks(f, blocks, s, splits, [])
    ensures inserts.Keys <= blocks.Keys
  {
    ValidGraph(f);
    SplitKeys(f, blocks, s, splits);
    hide ValidFunction, WellFormed, SplitBlocks, InsertsFit;
    forall w | w in inserts ensures w in blocks {
      var p := OwnerOf(f, s, splits, inserts, w);
      if p in splits { assert splits[p] in splits.Values; }
    }
  }

  /** All that one block's elimination achieves. */
  lemma BlockDone(f: Function, blocks: map<BlockId, Block>, f': Function, s: BlockId, splits: map<BlockId, BlockId>,
                  inserts: map<BlockId, seq<Instr>>,
                  temps: map<Operand, Operand>, heads: seq<Instr>)
    requires ValidFunction(f) && s in f.blocks && s in f.g.pred && SplitEdges(f, f'.g, s, splits)
        && SplitsFit(f, s, splits, f'.nextBlock)
    requires SplitBlocks(f, blocks, s, splits, []) && Finished(blocks, f'.blocks, s, inserts, heads)
        && InsertsFit(f, s, splits, inserts)
    requires Collected(f, s, splits, inserts, temps, |f.blocks[s].phis|, {}, f'.nextReg)
        && SplitSoFar(f, s, splits, |f.blocks[s].phis|, {})
    requires TempsSoFar(temps, f.blocks[s].phis, |f.blocks[s].phis|, f.nextReg, f'.nextReg) && f.nextReg <= f'.nextReg
        && f.blocks[s].phis != []
    requires HeadsFor(heads, temps)
    ensures ValidFunction(f') && f'.g.entry == f.g.entry
    ensures Eliminated(f, f', s, Elim(splits, temps, CopiesOf(f, s, splits, inserts), heads))
    ensures forall b :: b in f.blocks ==> b in f'.blocks && f'.blocks[b].phis == if b == s then [] else f.blocks[b].phis
    ensures forall b :: b in f'.blocks && b !in f.blocks ==> f'.blocks[b].phis == []
  {
    hide *;
    var phis := f.blocks[s].phis;
    StartFacts(f, s);
    TempsComplete(temps, phis, f.nextReg, f'.nextReg);
    TempsFacts(temps, phis, |phis|, f.nextReg, f'.nextReg);
    TempsAreOld(f, s, temps, f'.nextReg);
    SplitEntry(f, f'.g, s, splits);
    FinishedValid(f, blocks, f', s, splits, inserts, temps, heads);
    FinishedEliminates(f, blocks, f', s, splits, inserts, temps, heads, f'.nextReg);
    PhisAfter(f, blocks, f', s, splits, inserts, heads);
  }

  lemma FinishedHolds(before: map<BlockId, Block>, after: map<BlockId, Block>, s: BlockId,
                      inserts: map<BlockId, seq<Instr>>, heads: seq<Instr>)
    requires s in before && after.Keys == before.Keys
    requires forall b :: b in before && b != s ==> after[b] == before[b].(code := before[b].code + InsertAt(inserts, b))
    requires after[s] == before[s].(code := heads + (before[s].code + InsertAt(inserts, s)))
    ensures Finished(before, after, s, inserts, heads)
  {
    hide InsertAt;
    assert heads + (before[s].code + InsertAt(inserts, s)) == heads + before[s].code + InsertAt(inserts, s);
    forall b | b in before ensures [] + before[b].code + InsertAt(inserts, b) == before[b].code + InsertAt(inserts, b) {
    }
  }

  lemma StartFacts(f: Function, s: BlockId)
    requires ValidFunction(f) && s in f.blocks
    ensures s in f.g.pred && forall i :: 0 <= i < |f.blocks[s].phis| ==> PhiBelow(f.blocks[s].phis[i], f.nextReg)
  {
    assert BlockFits(f, s);
  }

  lemma SplitEntry(f: Function, g: Graph, s: BlockId, splits: map<BlockId, BlockId>)
    requires SplitEdges(f, g, s, splits)
    ensures g.entry == f.g.entry
  {
  }

  lemma PhisAfter(f: Function, blocks: map<BlockId, Block>, f': Function, s: BlockId, splits: map<BlockId, BlockId>,
                  inserts: map<BlockId, seq<Instr>>, heads: seq<Instr>)
    requires s in f.blocks && SplitBlocks(f, blocks, s, splits, []) && Finished(blocks, f'.blocks, s, inserts, heads)
    ensures forall b :: b in f.blocks ==> b in f'.blocks && f'.blocks[b].phis == if b == s then [] else f.blocks[b].phis
    ensures forall b :: b in f'.blocks && b !in f.blocks ==> f'.blocks[b].phis == []
  {
    hide Redirect, InsertAt;
    forall b | b in f.blocks ensures b in f'.blocks && f'.blocks[b].phis == if b == s then [] else f.blocks[b].phis {
      assert SplitBlock(f, blocks[b], s, splits, [], b);
    }
    forall b | b in f'.blocks && b !in f.blocks ensures f'.blocks[b].phis == [] {
      var q :| q in splits && splits[q] == b;
    }
  }

  lemma NoPhisFitClass(f: Function, s: BlockId)
    requires s in f.blocks && f.blocks[s].phis == []
    ensures EdgesFitClass(f, s)
  {
  }

  /** The predecessors of the other blocks stay. */
  lemma OtherPreds(f: Function, g: Graph, s: BlockId, splits: map<BlockId, BlockId>)
    requires ValidFunction(f) && SplitEdges(f, g, s, splits)
    ensures forall b :: b in f.blocks && b != s ==>
        (b in g.pred <==> b in f.g.pred) && (b in f.g.pred ==> g.pred[b] == f.g.pred[b])
  {
    hide SplitSucc, BlockFits;
    forall b | b in f.blocks && b != s
      ensures b in f.g.pred && b in g.pred && g.pred[b] == f.g.pred[b]
    {
      assert b in f.g.pred.Keys + splits.Values;
    }
  }

  lemma EntryHasNoPhis(f: Function, s: BlockId)
    requires ValidFunction(f) && s in f.blocks && f.blocks[s].phis != []
    ensures s != f.g.entry
  {
  }
}
