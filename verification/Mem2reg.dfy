/** `Mem2reg`: promotion of stack variables to SSA operands. */
module Mem2regPass {
  import opened ControlFlowGraph
  import opened SsaProgram
  import opened ControlFlowAnalysis
  import opened Renaming
  import opened RenamingSimulation
  import opened PhiPlacement
  import opened RenamingWalk

  class Mem2reg {
    var code: Program
    var promotable: set<Operand>
    var varType: map<Operand, Type>
    var defBb: map<Operand, set<BlockId>>
    var insertedBb: map<Operand, set<BlockId>>
    var worklistMap: map<Operand, seq<BlockId>>
    var defStack: map<Operand, seq<Operand>>
    var nextId: nat

    ghost var record: Record
    ghost var pos: map<BlockId, nat>
    ghost var done: set<BlockId>

    constructor (program: Program, firstFreeId: nat)
      ensures code == program && nextId == firstFreeId
    {
      code, nextId := program, firstFreeId;
      promotable, varType, defBb, insertedBb, worklistMap, defStack := {}, map[], map[], map[], map[], map[];
      record, pos, done := Record(map[], map[], map[], {}), map[], {};
    }

    // ----- promotable variables -----

    /** `isAllocaPromotable`: every user of the address is a load, or a store of something else to it. */
    method IsAllocaPromotable(alloca: Operand) returns (ok: bool)
      ensures ok <==> AddressNotTaken(code, alloca)
    {
      var users := set b, i: nat | b in code && i < |code[b].body| && Uses(code[b].body[i], alloca) :: (b, i);
      while users != {}
        invariant forall u :: u in users ==> At(code, u.0, u.1) && Uses(code[u.0].body[u.1], alloca)
        invariant forall b, i: nat :: At(code, b, i) && (b, i) !in users ==> HarmlessUse(code[b].body[i], alloca)
        decreases users
      {
        var u :| u in users;
        users := users - {u};
        var ins := code[u.0].body[u.1];
        var harmless :=
          match ins
          case Store(value, _) => value != alloca
          case Load(_, _) => true
          case _ => false;
        if !harmless {
          assert ins in code[u.0].body && !HarmlessUse(ins, alloca);
          return false;
        }
      }
      return true;
    }

    /** `gen_promotable` */
    method GenPromotable(g: Graph)
      requires g.entry in code && UniqueDefinitions(code)
      modifies this`code, this`promotable, this`varType, this`defBb, this`insertedBb, this`worklistMap
      ensures code == EntryCleared(g, promotable, old(code))
      ensures forall v :: v in promotable <==> Promotable(g, old(code), v)
      ensures Emptied(promotable, defBb, insertedBb, worklistMap)
      ensures forall v :: v in promotable ==> v in varType && AllocatedAs(g, old(code), v, varType[v])
    {
      hide *;
      promotable, varType, defBb, insertedBb, worklistMap := {}, map[], map[], map[], map[];
      ghost var p := code;
      ghost var i := 0;
      var j := 0;
      ClearingLoopStarts(g, p);
      ClearingLoopFacts(g, p, code, promotable, i, j);
      EmptiedGrows({}, map[], map[], map[], Id(0));
      while j < |code[g.entry].body|
        invariant ClearingLoop(g, p, code, promotable, i, j)
        invariant g.entry in code && i <= |p[g.entry].body| && |code[g.entry].body| == j + |p[g.entry].body| - i
        invariant Emptied(promotable, defBb, insertedBb, worklistMap)
        invariant forall v :: v in promotable ==> v in varType && AllocatedAs(g, p, v, varType[v])
        decreases |p[g.entry].body| - i
      {
        ClearingLoopFacts(g, p, code, promotable, i, j);
        var ins := code[g.entry].body[j];
        ScalarTypes(ins);
        var promote := false;
        if ins.Alloca? {
          promote := IsAllocaPromotable(ins.dst);
          promote := promote && (ins.ty.IntType? || ins.ty.FloatType? || ins.ty.PointerType?);
        }
        if promote {
          EmptiedGrows(promotable, defBb, insertedBb, worklistMap, ins.dst);
          ghost var code0 := code;
          code := code[g.entry := Block(code[g.entry].phis, code[g.entry].body[..j] + code[g.entry].body[j + 1..])];
          ClearingLoopRemoves(g, p, code0, code, promotable, i, j);
          promotable := promotable + {ins.dst};
          defBb, insertedBb, worklistMap := defBb[ins.dst := {}], insertedBb[ins.dst := {}], worklistMap[ins.dst := []];
          varType := varType[ins.dst := ins.ty];
          AllocationAt(g, p, i);
        } else {
          ClearingLoopStep(g, p, code, promotable, i, j);
          j := j + 1;
        }
        i := i + 1;
        ClearingLoopFacts(g, p, code, promotable, i, j);
      }
      ClearingLoopEnds(g, p, code, promotable, i, j);
    }

    // ----- placing phis -----

    /** The first loop of `insert_phi`: the blocks that store to each variable. */
    method CollectDefs()
      requires Emptied(promotable, defBb, insertedBb, worklistMap) && code != map[]
      modifies this`defBb, this`worklistMap
      ensures DefsCollected(code, promotable, defBb, worklistMap)
    {
      hide Collected, DefsCollected;
      var rest := code.Keys;
      CollectedNothing(code, promotable, defBb, worklistMap);
      assert code.Keys - rest == {};
      while rest != {}
        invariant rest <= code.Keys
        invariant forall c :: c in code ==> Collected(code, promotable, defBb, worklistMap, code.Keys - rest, c, 0)
        decreases rest
      {
        var b :| b in rest;
        ghost var seen := code.Keys - rest;
        var i := 0;
        while i < |code[b].body|
          invariant i <= |code[b].body| && Collected(code, promotable, defBb, worklistMap, seen, b, i)
        {
          var ins := code[b].body[i];
          CollectedKeys(code, promotable, defBb, worklistMap, seen, b, i);
          if ins.Store? && ins.ptr in promotable {
            ghost var work := worklistMap;
            if b !in defBb[ins.ptr] {
              worklistMap := worklistMap[ins.ptr := worklistMap[ins.ptr] + [b]];
            }
            CollectedStore(code, promotable, defBb, work, worklistMap, seen, b, i);
            defBb := defBb[ins.ptr := defBb[ins.ptr] + {b}];
          } else {
            CollectedOther(code, promotable, defBb, worklistMap, seen, b, i);
          }
          i := i + 1;
        }
        CollectedBlock(code, promotable, defBb, worklistMap, seen, b);
        rest := rest - {b};
        assert code.Keys - rest == seen + {b};
      }
      assert code.Keys - rest == code.Keys;
      var c :| c in code;
      CollectedAll(code, promotable, defBb, worklistMap, c);
    }

    /** The worklist of one variable in `insert_phi`. */
    method PlacePhis(dfSet: map<BlockId, set<BlockId>>, v: Operand, ghost p: Program, ghost lo: nat)
      requires PhisStanding(p, code, promotable, insertedBb, lo, nextId) && v in promotable
      requires v in defBb && v in worklistMap && v in insertedBb && insertedBb[v] == {}
      requires forall x :: x in worklistMap[v] <==> x in defBb[v]
      requires forall x :: Frontier(dfSet, x) <= p.Keys
      modifies this`code, this`insertedBb, this`worklistMap, this`nextId
      ensures PhisStanding(p, code, promotable, insertedBb, lo, nextId) && v in insertedBb
      ensures IsIteratedFrontier(dfSet, defBb[v], insertedBb[v])
      ensures insertedBb == old(insertedBb)[v := insertedBb[v]]
      ensures v in worklistMap && worklistMap == old(worklistMap)[v := worklistMap[v]]
    {
      hide PhisStanding, InEveryClosed, ClosedExcept, IsIteratedFrontier, Elements, Frontier;
      WorklistStarts(dfSet, defBb[v], worklistMap[v]);
      while worklistMap[v] != []
        invariant v in worklistMap && v in insertedBb
        invariant PhisStanding(p, code, promotable, insertedBb, lo, nextId)
        invariant InEveryClosed(dfSet, defBb[v], insertedBb[v]) && ClosedExcept(dfSet, defBb[v], insertedBb[v],
            Elements(worklistMap[v]))
        invariant forall x :: x in worklistMap[v] ==> x in defBb[v] || x in insertedBb[v]
        invariant insertedBb == old(insertedBb)[v := insertedBb[v]]
            && worklistMap == old(worklistMap)[v := worklistMap[v]]
        decreases p.Keys - insertedBb[v], |worklistMap[v]|
      {
        var bb := worklistMap[v][0];
        WorklistPopped(dfSet, defBb[v], insertedBb[v], worklistMap[v]);
        worklistMap := worklistMap[v := worklistMap[v][1..]];
        PlaceAtFrontier(dfSet, v, bb, p, lo);
      }
      NoElements();
      WorklistEmpty(dfSet, defBb[v], insertedBb[v]);
    }

    /** One phi, in front of the others of its block; the block is examined in its turn unless it stores. */
    method PlacePhi(ghost dfSet: map<BlockId, set<BlockId>>, v: Operand, ghost bb: BlockId, df: BlockId,
                    ghost p: Program, ghost lo: nat)
      requires PhisStanding(p, code, promotable, insertedBb, lo, nextId) && v in promotable
      requires v in defBb && v in worklistMap && v in insertedBb && df in p && df in code && df !in insertedBb[v]
      requires InEveryClosed(dfSet, defBb[v], insertedBb[v]) && ClosedExcept(dfSet, defBb[v], insertedBb[v],
          Elements(worklistMap[v]) + {bb})
      requires (bb in defBb[v] || bb in insertedBb[v]) && df in Frontier(dfSet, bb)
      requires forall x :: x in worklistMap[v] ==> x in defBb[v] || x in insertedBb[v]
      modifies this`code, this`insertedBb, this`worklistMap, this`nextId
      ensures insertedBb == old(insertedBb)[v := old(insertedBb)[v] + {df}]
      ensures worklistMap == if df in defBb[v] then old(worklistMap)
          else old(worklistMap)[v := old(worklistMap)[v] + [df]]
      ensures PhisStanding(p, code, promotable, insertedBb, lo, nextId)
      ensures InEveryClosed(dfSet, defBb[v], insertedBb[v]) && ClosedExcept(dfSet, defBb[v], insertedBb[v],
          Elements(worklistMap[v]) + {bb})
      ensures forall x :: x in worklistMap[v] ==> x in defBb[v] || x in insertedBb[v]
    {
      hide *;
      InEveryClosedGrows(dfSet, defBb[v], insertedBb[v], bb, df);
      WorklistPushed(dfSet, defBb[v], insertedBb[v], worklistMap[v], bb, df);
      ghost var code0 := code;
      code := code[df := Block([Phi(v, Id(nextId), map[])] + code[df].phis, code[df].body)];
      PhiPrepended(p, code0, code, promotable, insertedBb, lo, nextId, v, df);
      nextId := nextId + 1;
      insertedBb := insertedBb[v := insertedBb[v] + {df}];
      if df !in defBb[v] {
        worklistMap := worklistMap[v := worklistMap[v] + [df]];
      }
    }

    /** The inner loop of `insert_phi`: phis at the frontier of one block. */
    method PlaceAtFrontier(dfSet: map<BlockId, set<BlockId>>, v: Operand, bb: BlockId, ghost p: Program, ghost lo: nat)
      requires PhisStanding(p, code, promotable, insertedBb, lo, nextId) && v in promotable
      requires v in defBb && v in worklistMap && v in insertedBb
      requires InEveryClosed(dfSet, defBb[v], insertedBb[v]) && ClosedExcept(dfSet, defBb[v], insertedBb[v],
          Elements(worklistMap[v]) + {bb})
      requires forall x :: x in worklistMap[v] ==> x in defBb[v] || x in insertedBb[v]
      requires bb in defBb[v] || bb in insertedBb[v]
      requires forall x :: Frontier(dfSet, x) <= p.Keys
      modifies this`code, this`insertedBb, this`worklistMap, this`nextId
      ensures v in worklistMap && v in insertedBb
      ensures PhisStanding(p, code, promotable, insertedBb, lo, nextId)
      ensures InEveryClosed(dfSet, defBb[v], insertedBb[v]) && ClosedExcept(dfSet, defBb[v], insertedBb[v],
          Elements(worklistMap[v]))
      ensures forall x :: x in worklistMap[v] ==> x in defBb[v] || x in insertedBb[v]
      ensures insertedBb == old(insertedBb)[v := insertedBb[v]] && worklistMap == old(worklistMap)[v := worklistMap[v]]
      ensures old(insertedBb)[v] <= insertedBb[v]
      ensures insertedBb[v] == old(insertedBb)[v] ==> worklistMap[v] == old(worklistMap)[v]
      ensures insertedBb[v] != old(insertedBb)[v] ==> p.Keys - insertedBb[v] < p.Keys - old(insertedBb)[v]
    {
      hide PhisStanding, InEveryClosed, ClosedExcept, Elements;
      var rest := Frontier(dfSet, bb);
      hide Frontier;
      while rest != {}
        invariant v in worklistMap && v in insertedBb
        invariant rest <= Frontier(dfSet, bb) && Frontier(dfSet, bb) - rest <= insertedBb[v]
        invariant PhisStanding(p, code, promotable, insertedBb, lo, nextId)
        invariant InEveryClosed(dfSet, defBb[v], insertedBb[v]) && ClosedExcept(dfSet, defBb[v], insertedBb[v],
            Elements(worklistMap[v]) + {bb})
        invariant forall x :: x in worklistMap[v] ==> x in defBb[v] || x in insertedBb[v]
        invariant insertedBb == old(insertedBb)[v := insertedBb[v]]
            && worklistMap == old(worklistMap)[v := worklistMap[v]]
        invariant old(insertedBb)[v] <= insertedBb[v]
        invariant insertedBb[v] == old(insertedBb)[v] ==> worklistMap[v] == old(worklistMap)[v]
        invariant insertedBb[v] != old(insertedBb)[v] ==> p.Keys - insertedBb[v] < p.Keys - old(insertedBb)[v]
        decreases rest
      {
        var df :| df in rest;
        rest := rest - {df};
        if df !in insertedBb[v] {
          ghost var inserted0 := insertedBb[v];
          StandingKeys(p, code, promotable, insertedBb, lo, nextId);
          PlacePhi(dfSet, v, bb, df, p, lo);
          FewerLeft(p.Keys, inserted0, df);
        }
      }
      FrontierFinished(dfSet, defBb[v], insertedBb[v], worklistMap[v], bb);
    }

    /** `insert_phi` */
    method InsertPhi(g: Graph, dfSet: map<BlockId, set<BlockId>>)
      requires WellFormed(g) && code.Keys == g.succ.Keys && (forall b :: b in code ==> code[b].phis == [])
          && NamesBelow(code, nextId)
      requires Emptied(promotable, defBb, insertedBb, worklistMap)
      requires forall x :: Frontier(dfSet, x) <= code.Keys
      requires forall y :: y in g.succ ==> FrontierExactAt(g, dfSet, y)
      modifies this`code, this`defBb, this`insertedBb, this`worklistMap, this`nextId
      ensures PhisPlaced(g, old(code), promotable, code) && (forall b ::
          b in code
          ==> code[b].body == old(code)[b].body)
      ensures PhisNeeded(g, old(code), code)
      ensures forall b, k :: b in code && 0 <= k < |code[b].phis| ==> code[b].phis[k].srcs == map[]
      ensures defBb.Keys == insertedBb.Keys == promotable
      ensures forall v, x :: v in promotable ==> (x in defBb[v] <==> StoresTo(old(code), x, v))
      ensures forall v :: v in promotable ==> IsIteratedFrontier(dfSet, defBb[v], insertedBb[v])
      ensures forall v, b :: v in promotable && b in code ==> (PhiFor(code, b, v) <==> b in insertedBb[v])
    {
      hide *;
      ghost var p, lo := code, nextId;
      EntryHasBlock(g);
      EmptiedFacts(promotable, defBb, insertedBb, worklistMap);
      CollectDefs();
      CollectedFacts(code, promotable, defBb, worklistMap);
      PhisStandingStarts(p, promotable, insertedBb, nextId);
      var rest := promotable;
      while rest != {}
        invariant rest <= promotable
        invariant defBb.Keys == insertedBb.Keys == worklistMap.Keys == promotable
        invariant forall v :: v in rest ==> insertedBb[v] == {} && forall x :: x in worklistMap[v] <==> x in defBb[v]
        invariant PhisStanding(p, code, promotable, insertedBb, lo, nextId)
        invariant forall v :: v in promotable - rest ==> IsIteratedFrontier(dfSet, defBb[v], insertedBb[v])
        decreases rest
        modifies this`code, this`insertedBb, this`worklistMap, this`nextId
      {
        var v :| v in rest;
        rest := rest - {v};
        PlacePhis(dfSet, v, p, lo);
      }
      StandingIsPlaced(g, p, code, promotable, dfSet, defBb, insertedBb, lo, nextId);
      StandingExactly(p, code, promotable, insertedBb, lo, nextId);
      StandingIsNeeded(g, p, code, promotable, dfSet, defBb, insertedBb);
    }

    // ----- renaming -----

    /** The loop over the users of a removed load's result. */
    method ReplaceAllUses(d: Operand, n: Operand)
      modifies this`code
      ensures code.Keys == old(code).Keys
      ensures forall b :: b in code ==>
          code[b].phis == old(code)[b].phis
          && AllReplaced(old(code)[b].body, code[b].body, d, n)
    {
      hide PartlyReplaced, AllReplaced, ReplaceOperand;
      var users := set b, i: nat | b in code && i < |code[b].body| && Uses(code[b].body[i], d) :: (b, i);
      NothingReplaced(code, d, n);
      assert users == UsersOf(code, d);
      hide Uses;
      while users != {}
        invariant PartlyReplaced(old(code), code, users, d, n)
        decreases users
      {
        var u :| u in users;
        UserReplaced(old(code), code, users, d, n, u);
        users := users - {u};
        var block := code[u.0];
        code := code[u.0 := Block(block.phis, block.body[u.1 := ReplaceOperand(block.body[u.1], d, n)])];
      }
      UsersReplaced(old(code), code, d, n);
    }

    /** Pushing the phis at the head of `b`, which were placed there for promoted variables. */
    method PushPhisOf(g: Graph, idom: map<BlockId, BlockId>, b: BlockId, ghost num: map<BlockId, nat>,
                      ghost domTree: map<BlockId, seq<BlockId>>, ghost p: Program, ghost q0: Program)
      returns (defCnt: map<Operand, nat>)
      requires Context(g, idom, num, domTree, p, promotable, q0) && WalkInv(g, idom, p, promotable, q0, code, record,
          pos, done, {}) && MayWalk(g, p, done, b)
      requires StacksAtEntry(g, idom, p, record, Normal(promotable, defStack), b)
          && StacksClean(p, promotable, Normal(promotable, defStack))
      modifies this`defStack, this`record
      ensures ScanInv(g, idom, p, promotable, q0, code, record, pos, done, defStack, b, 0)
          && Counted(old(defStack), defStack, defCnt)
      ensures record.sigma == old(record).sigma && RecordSame(old(record), record, b)
          && record.floats == old(record).floats
      ensures StaysEmpty(p, promotable, q0, old(defStack), defStack)
    {
      hide *;
      ArrivalFacts(g, idom, num, domTree, p, promotable, q0, code, record, pos, done, b);
      ghost var s, r := Normal(promotable, defStack), record;
      PushPhisNone(s, q0[b].phis);
      defCnt := map[];
      CountedStarts(defStack);
      StillEmpty(p, promotable, q0, defStack);
      var k := 0;
      while k < |code[b].phis|
        invariant k <= |code[b].phis|
        invariant Normal(promotable, defStack) == PushPhis(s, q0[b].phis[..k])
            && StacksClean(p, promotable, Normal(promotable, defStack))
        invariant Counted(old(defStack), defStack, defCnt) && StaysEmpty(p, promotable, q0, old(defStack), defStack)
        modifies this`defStack
      {
        var v, dst := code[b].phis[k].variable, code[b].phis[k].dst;
        PhiPushed(g, p, promotable, q0, code, defStack, s, b, k);
        PhiMeansStored(p, promotable, q0, b);
        if v in promotable {
          CountedPush(old(defStack), defStack, defCnt, v, dst);
          defStack := defStack[v := StackOf(defStack, v) + [dst]];
          defCnt := defCnt[v := Count(defCnt, v) + 1];
        }
        k := k + 1;
      }
      record := r.(entry := r.entry[b := s], at := r.at[b := [PushPhis(s, q0[b].phis)]]);
      WalkArrives(g, idom, p, promotable, q0, code, r, record, pos, done, b, s);
      ScanStarts(g, idom, p, promotable, q0, code, record, pos, done, defStack, b);
      RecordUpdated(r, record, b);
    }

    /** What a load of `v` is replaced by: a zero as long as there is no stack at all, afterwards the top of
        the stack of `v`. Where that is empty, the source reads it all the same. */
    method Replacement(v: Operand) returns (ok: bool, newId: Operand)
      ensures ok <==> defStack == map[] || StackOf(defStack, v) != []
      ensures ok && v in varType ==> Replaces(StackOf(defStack, v), varType[v] == FloatType, newId)
    {
      var stack := StackOf(defStack, v);
      ok := defStack == map[] || stack != [];
      newId := if defStack == map[] || stack == [] then ZeroFor(varType, v) else stack[|stack| - 1];
    }

    /** A load at position `j` of the block goes; its users read what replaces it. */
    method RemoveLoad(g: Graph, idom: map<BlockId, BlockId>, b: BlockId, j: nat, ghost num: map<BlockId, nat>,
                      ghost domTree: map<BlockId, seq<BlockId>>, ghost p: Program, ghost q0: Program, ghost i: nat)
      returns (ok: bool)
      requires Context(g, idom, num, domTree, p, promotable, q0) && MayWalk(g, p, done, b)
      requires ScanInv(g, idom, p, promotable, q0, code, record, pos, done, defStack, b, i) && At(p, b, i)
          && PromotedLoad(promotable, p[b].body[i])
      requires j == Cursor(p, promotable, record.sigma, b, i) && b in code && j < |code[b].body|
          && code[b].body[j] == p[b].body[i]
      requires TypesMatch(varType, promotable, record.floats)
      modifies this`code, this`record
      ensures ok <==> defStack == map[] || StackOf(defStack, p[b].body[i].ptr) != []
      ensures !ok ==> code == old(code) && record == old(record)
      ensures ok ==> ScanInv(g, idom, p, promotable, q0, code, record, pos[b := i + 1], done, defStack, b, i + 1)
      ensures ok ==> j == Cursor(p, promotable, record.sigma, b, i + 1)
      ensures RecordSame(old(record), record, b) && record.floats == old(record).floats
    {
      hide *;
      AtFacts(p, b, i);
      RecordItself(record, b);
      LoadedPromoted(promotable, p[b].body[i]);
      var ins := code[b].body[j];
      var newId;
      ok, newId := Replacement(ins.ptr);
      TypeKnown(varType, promotable, record.floats, ins.ptr);
      if ok {
        ghost var code0 := code;
        ReplaceAllUses(ins.dst, newId);
        ghost var code1 := code;
        ReplacedLength(code0, code1, ins.dst, newId, b);
        code := code[b := Block(code[b].phis, code[b].body[..j] + code[b].body[j + 1..])];
        record := ScanLoad(g, idom, num, domTree, p, promotable, q0, code0, code1, code, record, pos, done, defStack,
            b, i, newId);
      }
    }

    /** The instruction loop of `rename`: stores are pushed, loads replaced, both removed. A load of a
        variable without a definition gets a zero as long as there is no stack at all; afterwards the
        source reads the top of an empty stack, and the walk is not followed any further. */
    method ScanBlock(g: Graph, idom: map<BlockId, BlockId>, b: BlockId, ghost num: map<BlockId, nat>,
                     ghost domTree: map<BlockId, seq<BlockId>>, ghost p: Program, ghost q0: Program)
      returns (ok: bool, defCnt: map<Operand, nat>)
      requires Context(g, idom, num, domTree, p, promotable, q0) && WalkInv(g, idom, p, promotable, q0, code, record,
          pos, done, {}) && MayWalk(g, p, done, b)
      requires StacksAtEntry(g, idom, p, record, Normal(promotable, defStack), b)
          && StacksClean(p, promotable, Normal(promotable, defStack))
      requires TypesMatch(varType, promotable, record.floats)
      modifies this`code, this`defStack, this`record, this`pos
      ensures ok ==> b in p && ScanInv(g, idom, p, promotable, q0, code, record, pos, done, defStack, b, |p[b].body|)
      ensures ok ==> Counted(old(defStack), defStack, defCnt) && RecordSame(old(record), record, b)
      ensures StaysEmpty(p, promotable, q0, old(defStack), defStack)
      ensures LoadsInReach(g, p, promotable, q0) || (NeverStored(p, promotable, q0) && old(defStack) == map[]) ==> ok
    {
      hide *;
      ArrivalFacts(g, idom, num, domTree, p, promotable, q0, code, record, pos, done, b);
      defCnt := PushPhisOf(g, idom, b, num, domTree, p, q0);
      ok := true;
      var j := 0;
      ghost var i := 0;
      CursorStart(p, promotable, record.sigma, b);
      ScanFacts(g, idom, p, promotable, q0, code, record, pos, done, defStack, b, i);
      while j < |code[b].body|
        invariant i <= |p[b].body| && b in code && ScanInv(g, idom, p, promotable, q0, code, record, pos, done,
            defStack, b, i) && j == Cursor(p, promotable, record.sigma, b, i)
        invariant |code[b].body| == j + |p[b].body| - i && ok
        invariant Counted(old(defStack), defStack, defCnt) && RecordSame(old(record), record, b)
        invariant TypesMatch(varType, promotable, record.floats)
        invariant StaysEmpty(p, promotable, q0, old(defStack), defStack)
        decreases |p[b].body| - i
      {
        ghost var r0 := record;
        ScanFacts(g, idom, p, promotable, q0, code, record, pos, done, defStack, b, i);
        AtFacts(p, b, i);
        ScanStepEqual(promotable, record.sigma, p[b].body[i]);
        var ins := code[b].body[j];
        PromotedKinds(promotable, ins);
        if ins.Store? && ins.ptr in promotable {
          StoreMeansStored(p, promotable, q0, b, i);
          CountedPush(old(defStack), defStack, defCnt, ins.ptr, ins.value);
          ghost var code0, ds0 := code, defStack;
          defStack := defStack[ins.ptr := StackOf(defStack, ins.ptr) + [ins.value]];
          defCnt := defCnt[ins.ptr := Count(defCnt, ins.ptr) + 1];
          code := code[b := Block(code[b].phis, code[b].body[..j] + code[b].body[j + 1..])];
          record := ScanStore(g, idom, num, domTree, p, promotable, q0, code0, code, record, pos, done, ds0, defStack,
              b, i);
        } else if ins.Load? && ins.ptr in promotable {
          ok := RemoveLoad(g, idom, b, j, num, domTree, p, q0, i);
          if !ok {
            LoadNotFound(g, idom, num, domTree, p, promotable, q0, code, record, pos, done, old(defStack), defStack, b,
                i);
            return;
          }
        } else {
          record := ScanKept(g, idom, num, domTree, p, promotable, q0, code, record, pos, done, defStack, b, i);
          j := j + 1;
        }
        RecordSameTransitive(old(record), r0, record, b);
        pos := pos[b := i + 1];
        i := i + 1;
        ScanFacts(g, idom, p, promotable, q0, code, record, pos, done, defStack, b, i);
      }
    }

    /** The loops over the phis of the successors. */
    method FillSuccessors(g: Graph, b: BlockId)
      requires b in g.succ && g.succ[b] <= code.Keys
      modifies this`code, this`defStack
      ensures SuccessorsFilled(old(code), code, varType, old(defStack), b, g.succ[b])
      ensures SameStacks(old(defStack), defStack)
      ensures NoPhisIn(old(code)) ==> defStack == old(defStack)
    {
      hide *;
      var rest := g.succ[b];
      NoSuccessorFilled(code, varType, defStack, b);
      SameStacksReflexive(defStack);
      assert g.succ[b] - rest == {};
      while rest != {}
        invariant rest <= g.succ[b] <= code.Keys
        invariant SuccessorsFilled(old(code), code, varType, old(defStack), b, g.succ[b] - rest)
        invariant SameStacks(old(defStack), defStack)
        invariant NoPhisIn(old(code)) ==> defStack == old(defStack)
        decreases rest
      {
        var succ :| succ in rest;
        ghost var filled, code1, ds1 := g.succ[b] - rest, code, defStack;
        rest := rest - {succ};
        FilledShape(old(code), code, varType, old(defStack), b, filled, succ);
        NoPhisAt(old(code), succ);
        FillPhisOf(succ, b);
        SameStacksFill(varType, old(defStack), ds1, b, code1[succ].phis, code[succ].phis, |code1[succ].phis|);
        SameStacksTransitive(old(defStack), ds1, defStack);
        OneSuccessorFilled(old(code), code1, code, varType, old(defStack), b, filled, succ);
        assert g.succ[b] - rest == filled + {succ};
      }
      assert g.succ[b] - rest == g.succ[b];
    }

    /** The loop over the phis of one successor. Asking for the stack of a variable makes an empty one. */
    method FillPhisOf(succ: BlockId, b: BlockId)
      requires succ in code
      modifies this`code, this`defStack
      ensures code.Keys == old(code).Keys && (forall x :: x in code && x != succ ==> code[x] == old(code)[x])
      ensures code[succ].body == old(code)[succ].body
      ensures PhisFilledIn(varType, old(defStack), b, old(code)[succ].phis, code[succ].phis, |old(code)[succ].phis|)
      ensures SameStacks(old(defStack), defStack) && (old(code)[succ].phis == [] ==> defStack == old(defStack))
    {
      var k := 0;
      while k < |code[succ].phis|
        invariant code.Keys == old(code).Keys && (forall x :: x in code && x != succ ==> code[x] == old(code)[x])
        invariant code[succ].body == old(code)[succ].body && k <= |code[succ].phis|
        invariant PhisFilledIn(varType, old(defStack), b, old(code)[succ].phis, code[succ].phis, k)
        invariant SameStacks(old(defStack), defStack) && (old(code)[succ].phis == [] ==> defStack == old(defStack))
      {
        var phi := code[succ].phis[k];
        if phi.variable !in defStack {
          defStack := defStack[phi.variable := []];
        }
        var stack := StackOf(defStack, phi.variable);
        var incoming := if stack == [] then ZeroFor(varType, phi.variable) else stack[|stack| - 1];
        code := code[succ := Block(code[succ].phis[k := phi.(srcs := phi.srcs[b := incoming])], code[succ].body)];
        k := k + 1;
      }
    }

    /** Popping what the visit of a block has pushed. */
    method PopTimes(v: Operand, count: nat)
      requires count <= |StackOf(defStack, v)|
      modifies this`defStack
      ensures forall w :: w != v ==> StackOf(defStack, w) == StackOf(old(defStack), w)
      ensures StackOf(defStack, v) == StackOf(old(defStack), v)[..|StackOf(old(defStack), v)| - count]
      ensures count == 0 ==> defStack == old(defStack)
    {
      var cnt := count;
      while cnt > 0
        invariant count == 0 ==> defStack == old(defStack)
        invariant 0 <= cnt <= count <= |StackOf(old(defStack), v)|
        invariant forall w :: w != v ==> StackOf(defStack, w) == StackOf(old(defStack), w)
        invariant StackOf(defStack, v) == StackOf(old(defStack), v)[..|StackOf(old(defStack), v)| - count + cnt]
        decreases cnt
      {
        var stack := StackOf(defStack, v);
        defStack := defStack[v := stack[..|stack| - 1]];
        cnt := cnt - 1;
      }
    }

    method PopAll(defCnt: map<Operand, nat>, ghost ds: map<Operand, seq<Operand>>)
      requires Counted(ds, defStack, defCnt)
      modifies this`defStack
      ensures SameStacks(ds, defStack)
      ensures (forall v :: v in defCnt ==> defCnt[v] == 0) ==> defStack == old(defStack)
    {
      var rest := defCnt.Keys;
      while rest != {}
        invariant (forall v :: v in defCnt ==> defCnt[v] == 0) ==> defStack == old(defStack)
        invariant rest <= defCnt.Keys
        invariant forall v :: StackOf(ds, v) <= StackOf(defStack, v)
        invariant forall v :: |StackOf(defStack, v)| == |StackOf(ds, v)| + if v in rest then Count(defCnt, v) else 0
        decreases rest
      {
        var v :| v in rest;
        PopTimes(v, defCnt[v]);
        rest := rest - {v};
      }
    }

    /** `rename`: the block, then its children in the dominator tree; the stacks end as they began. */
    method Rename(g: Graph, idom: map<BlockId, BlockId>, domTree: map<BlockId, seq<BlockId>>, b: BlockId,
                  ghost num: map<BlockId, nat>, ghost p: Program, ghost q0: Program) returns (ok: bool)
      requires Context(g, idom, num, domTree, p, promotable, q0) && WalkInv(g, idom, p, promotable, q0, code, record,
          pos, done, {}) && MayWalk(g, p, done, b)
      requires StacksAtEntry(g, idom, p, record, Normal(promotable, defStack), b)
          && StacksClean(p, promotable, Normal(promotable, defStack))
      requires TypesMatch(varType, promotable, record.floats)
      modifies this`code, this`defStack, this`record, this`pos, this`done
      ensures ok ==> WalkInv(g, idom, p, promotable, q0, code, record, pos, done, {})
      ensures ok ==> SameStacks(old(defStack), defStack)
      ensures ok ==> forall x :: x in done <==> x in old(done) || (x in p && Dominates(g, b, x))
      ensures ok ==> RecordKept(old(record), record, old(done))
      ensures StaysEmpty(p, promotable, q0, old(defStack), defStack)
      ensures LoadsInReach(g, p, promotable, q0) || (NeverStored(p, promotable, q0) && old(defStack) == map[]) ==> ok
      decreases p.Keys - done
    {
      hide *;
      ghost var before, ds, r := done, defStack, record;
      RenameFacts(g, idom, num, domTree, p, promotable, q0, done, b);
      var defCnt;
      ok, defCnt := ScanBlock(g, idom, b, num, domTree, p, q0);
      if !ok {
        return;
      }
      RecordSameKept(r, record, b, before);
      RecordSameFloats(r, record, b);
      ScanCode(g, idom, p, promotable, q0, code, record, pos, done, defStack, b, |p[b].body|);
      ghost var code1, ds1 := code, defStack;
      NoPhisYet(g, idom, p, promotable, q0, code, record, pos, done, defStack, b, |p[b].body|);
      FillSuccessors(g, b);
      FillingStaysEmpty(p, promotable, q0, code1, ds1, defStack);
      StaysEmptyOn(p, promotable, q0, ds, ds1, defStack);
      BlockLeft(g, idom, num, domTree, p, promotable, q0, code1, code, record, pos, done, varType, ds1, b);
      done := done + {b};
      var kids := if b in domTree then domTree[b] else [];
      ChildrenListed(g, idom, domTree, b, kids);
      var j := 0;
      while j < |kids|
        invariant j <= |kids| && ok
        invariant WalkInv(g, idom, p, promotable, q0, code, record, pos, done, {})
        invariant SameStacks(ds1, defStack)
        invariant forall x :: x in done <==> x in before || x == b || (x in p && exists k ::
            0 <= k < j
            && Dominates(g, kids[k], x))
        invariant Recorded(p, record, b) && AtEnd(p, record, b) == Normal(promotable, ds1)
        invariant RecordKept(r, record, before) && TypesMatch(varType, promotable, record.floats)
        invariant StaysEmpty(p, promotable, q0, ds, defStack)
      {
        ChildMayWalk(g, idom, p, before, done, b, kids, j);
        SameNormal(promotable, ds1, defStack);
        ChildEntry(g, idom, p, record, Normal(promotable, defStack), b, kids[j]);
        ghost var done1, record1, defStack1 := done, record, defStack;
        ok := Rename(g, idom, domTree, kids[j], num, p, q0);
        StaysEmptyOn(p, promotable, q0, ds, defStack1, defStack);
        EmptyMeans(p, promotable, q0, ds, defStack1);
        if !ok {
          return;
        }
        SameStacksTransitive(ds1, defStack1, defStack);
        RecordKeptTransitive(r, record1, record, before, done1);
        RecordKeptFloats(record1, record, done1);
        DoneRecorded(g, idom, p, promotable, q0, code, record, pos, done, b);
        RecordOf(p, record1, record, done1, b);
        j := j + 1;
      }
      SubtreeWalked(g, idom, num, domTree, p, before, done, b, kids);
      CountedSame(ds, ds1, defStack, defCnt);
      ghost var ds2 := defStack;
      PopAll(defCnt, ds);
      NothingCounted(p, promotable, q0, ds, ds2, defStack, defCnt);
    }

    /** `run` for one function: promote, place phis, rename. It succeeds at least where every promoted load
        comes after a store on some path, and where no promoted variable is stored to. */
    method Run(g: Graph) returns (ok: bool, ghost idom: map<BlockId, BlockId>, ghost num: map<BlockId, nat>)
      requires WellFormed(g) && AllReachable(g) && g.pred[g.entry] == {} && |g.succ| <= SIZE_MAX
      requires code.Keys == g.succ.Keys && NamesBelow(code, nextId)
      requires SsaInput(g, code, PromotableSet(g, code))
      modifies this
      ensures promotable == PromotableSet(g, old(code))
      ensures LoadsMayFollowStores(g, old(code), PromotableSet(g, old(code))) ==> ok
      ensures NothingStored(old(code), PromotableSet(g, old(code))) ==> ok
      ensures ok ==> Setting(g, idom, num, EntryCleared(g, promotable, old(code)), promotable, code, record)
      ensures ok ==> SameRuns(g, promotable, old(code), code)
      ensures ok ==> record.floats == FloatVariables(g, old(code))
      ensures ok ==> forall b, ins :: b in code && ins in code[b].body ==> !Promoted(promotable, ins)
    {
      hide *;
      EntryHasBlock(g);
      InputFacts(g, code, PromotableSet(g, code));
      ghost var original, prom := code, PromotableSet(g, code);
      var cfa := new Cfa();
      cfa.Run(g);
      FrontiersExactIffEntryHasNoPreds(g, cfa.dfSet);
      FrontiersInGraph(g, cfa.dfSet);
      idom, num := cfa.idom, cfa.id2dfs;
      GenPromotable(g);
      assert promotable == prom;
      ghost var p := code;
      Prepared(g, original, promotable, nextId);
      InsertPhi(g, cfa.dfSet);
      ghost var q0 := code;
      InContext(g, idom, num, cfa.domTree, original, p, promotable, q0);
      NothingEverStored(g, original, p, promotable, q0);
      TypesOfVariables(g, original, promotable, varType);
      ok := RenameAll(g, cfa.idom, cfa.domTree, num, p, q0, FloatVariables(g, original));
      if ok {
        RenamedRunsSame(g, idom, num, p, promotable, code, record, original);
        NothingPromoted(g, idom, num, p, promotable, code, record);
      }
    }

    /** The walk from the entry block, with nothing on the stacks. */
    method RenameAll(g: Graph, idom: map<BlockId, BlockId>, domTree: map<BlockId, seq<BlockId>>,
                     ghost num: map<BlockId, nat>, ghost p: Program, ghost q0: Program, ghost floats: set<Operand>)
      returns (ok: bool)
      requires Context(g, idom, num, domTree, p, promotable, q0) && PhisPlaced(g, p, promotable, q0)
      requires code == q0 && q0.Keys == p.Keys && g.entry in p && forall b :: b in p ==> q0[b].body == p[b].body
      requires TypesMatch(varType, promotable, floats)
      modifies this`code, this`defStack, this`record, this`pos, this`done
      ensures LoadsInReach(g, p, promotable, q0) || NeverStored(p, promotable, q0) ==> ok
      ensures ok ==> Setting(g, idom, num, p, promotable, code, record) && record.floats == floats
    {
      hide *;
      defStack := map[];
      record, pos, done := Record(map[], map[], map[], floats), map b | b in p :: 0, {};
      WalkBegins(g, idom, num, domTree, p, promotable, q0, pos, floats);
      ghost var started := record;
      ok := Rename(g, idom, domTree, g.entry, num, p, q0);
      if ok {
        RecordKeptFloats(started, record, {});
        WalkComplete(g, idom, num, domTree, p, promotable, q0, code, record, pos, done);
      }
    }
  }

  /** The entry block allocates `v` with the type. */
  ghost predicate AllocatedAs(g: Graph, p: Program, v: Operand, ty: Type) {
    exists k: nat :: At(p, g.entry, k) && p[g.entry].body[k] == Alloca(v, ty)
  }

  /** The variables that the entry block allocates for a float. */
  ghost function FloatVariables(g: Graph, p: Program): set<Operand> {
    if g.entry in p then
      set k: nat | k < |p[g.entry].body| && p[g.entry].body[k].Alloca? && p[g.entry].body[k].ty == FloatType
        :: p[g.entry].body[k].dst
    else {}
  }

  lemma AllocationAt(g: Graph, p: Program, k: nat)
    requires At(p, g.entry, k) && p[g.entry].body[k].Alloca?
    ensures AllocatedAs(g, p, p[g.entry].body[k].dst, p[g.entry].body[k].ty)
  {
    assert p[g.entry].body[k] == Alloca(p[g.entry].body[k].dst, p[g.entry].body[k].ty);
  }

  /** A variable is allocated once, so the types remembered are those of the allocations. */
  lemma TypesOfVariables(g: Graph, p: Program, prom: set<Operand>, varType: map<Operand, Type>)
    requires UniqueDefinitions(p) && forall v :: v in prom ==> v in varType && AllocatedAs(g, p, v, varType[v])
    ensures TypesMatch(varType, prom, FloatVariables(g, p))
  {
    hide UniqueDefinitions;
    forall v | v in prom ensures v in FloatVariables(g, p) <==> varType[v] == FloatType {
      var k: nat :| At(p, g.entry, k) && p[g.entry].body[k] == Alloca(v, varType[v]);
      if v in FloatVariables(g, p) {
        var j: nat :| j < |p[g.entry].body| && p[g.entry].body[j].Alloca? && p[g.entry].body[j].ty == FloatType
          && p[g.entry].body[j].dst == v;
        DefinedOnce(p, g.entry, j, k, v);
      }
    }
  }

  lemma DefinedOnce(p: Program, b: BlockId, j: nat, k: nat, v: Operand)
    requires UniqueDefinitions(p) && At(p, b, j) && At(p, b, k)
    requires Defines(p[b].body[j], v) && Defines(p[b].body[k], v)
    ensures j == k
  {
  }

  lemma TypeKnown(varType: map<Operand, Type>, prom: set<Operand>, floats: set<Operand>, v: Operand)
    requires TypesMatch(varType, prom, floats) && v in prom
    ensures v in varType && (v in floats <==> varType[v] == FloatType)
  {
  }

  ghost predicate NothingStored(p: Program, prom: set<Operand>) {
    forall b, i: nat :: At(p, b, i) ==> !PromotedStore(prom, p[b].body[i])
  }

  /** Without stores there are no phis. */
  lemma NothingEverStored(g: Graph, original: Program, p: Program, prom: set<Operand>, q0: Program)
    requires g.entry in original && p == EntryCleared(g, prom, original) && PhisNeeded(g, p, q0)
    requires PhisPlaced(g, p, prom, q0)
    ensures NothingStored(original, prom) ==> NeverStored(p, prom, q0)
  {
    hide PhisPlaced, WithoutAllocas;
    if NothingStored(original, prom) {
      forall b, i: nat | At(p, b, i) ensures !PromotedStore(prom, p[b].body[i]) {
        var j := Position(g, prom, original, b, i);
      }
      forall b | b in q0 ensures q0[b].phis == [] {
        if q0[b].phis != [] {
          NotAsked(g, p, prom, q0, q0[b].phis[0].variable, b);
        }
      }
    }
  }

  lemma NotAsked(g: Graph, p: Program, prom: set<Operand>, q0: Program, v: Operand, b: BlockId)
    requires PhisNeeded(g, p, q0) && PhisPlaced(g, p, prom, q0)
    requires forall c, i: nat :: At(p, c, i) ==> !PromotedStore(prom, p[c].body[i])
    ensures !PhiFor(q0, b, v)
  {
    if v in prom {
      hide PhisPlaced;
      assert Asked(g, p, v, {});
    }
  }

  lemma InputFacts(g: Graph, p: Program, prom: set<Operand>)
    requires WellFormed(g) && SsaInput(g, p, prom)
    ensures g.entry in p && UniqueDefinitions(p) && (forall b :: b in p ==> p[b].phis == [])
  {
  }

  lemma FrontiersInGraph(g: Graph, dfSet: map<BlockId, set<BlockId>>)
    requires WellFormed(g) && forall x, y :: y in Frontier(dfSet, x) ==> y in g.succ
    ensures forall x :: Frontier(dfSet, x) <= g.succ.Keys
  {
  }

  lemma Prepared(g: Graph, original: Program, prom: set<Operand>, lo: nat)
    requires WellFormed(g) && SsaInput(g, original, prom) && NamesBelow(original, lo)
    ensures g.entry in original && NamesBelow(EntryCleared(g, prom, original), lo)
        && EntryCleared(g, prom, original).Keys == g.succ.Keys
    ensures forall b :: b in EntryCleared(g, prom, original) ==> EntryCleared(g, prom, original)[b].phis == []
  {
    NamesCleared(g, original, prom, lo);
  }

  lemma InContext(g: Graph, idom: map<BlockId, BlockId>, num: map<BlockId, nat>, domTree: map<BlockId, seq<BlockId>>,
                  original: Program, p: Program, prom: set<Operand>, q0: Program)
    requires WellFormed(g) && AllReachable(g) && g.pred[g.entry] == {} && IdomsCorrect(g, idom)
        && IdomsDescend(g, idom, num) && DomTreeCorrect(g, idom, domTree)
    requires SsaInput(g, original, prom) && g.entry in original
        && p == EntryCleared(g, prom, original)
    requires (forall v :: v in prom <==> Promotable(g, original, v)) && PhisPlaced(g, p, prom, q0)
    ensures Context(g, idom, num, domTree, p, prom, q0) && q0.Keys == p.Keys
    ensures LoadsMayFollowStores(g, original, prom) ==> LoadsInReach(g, p, prom, q0)
  {
    hide LoadsMayFollowStores, UniqueDefinitions, DefinedBeforeUse, AddressesNotLoaded, LoadsInReach, Promotable,
        IdomsCorrect, IdomsDescend, DomTreeCorrect, WithoutAllocas;
    SsaCleared(g, original, prom);
    if LoadsMayFollowStores(g, original, prom) {
      MayFollowCleared(g, original, prom);
    }
    LoadsInReachIff(g, p, prom, q0);
    forall b, i: nat | At(p, b, i) && p[b].body[i].Alloca?
      ensures p[b].body[i].dst !in prom
    {
      NoAllocas(g, original, prom, b, i);
    }
  }

  lemma NothingPromoted(g: Graph, idom: map<BlockId, BlockId>, num: map<BlockId, nat>, p: Program, prom: set<Operand>,
                        q: Program, r: Record)
    requires Setting(g, idom, num, p, prom, q, r)
    ensures forall b, ins :: b in q && ins in q[b].body ==> !Promoted(prom, ins)
  {
    hide Setting;
    SettingInput(g, idom, num, p, prom, q, r);
    forall b | b in q
      ensures forall ins :: ins in q[b].body ==> !Promoted(prom, ins)
    {
      SettingBlock(g, idom, num, p, prom, q, r, b);
      NothingPromotedKept(prom, r.sigma, p[b].body);
    }
  }
}
