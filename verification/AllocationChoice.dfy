/** What one iteration of the allocation loop does with the alloc it popped, said of the registers and the
    allocs in them and not of the searches that find it. */
module AllocationChoice {
  import opened AsmProgram
  import opened BackendRegisters
  import opened LiveRanges
  import opened LivenessPass
  import opened ConflictScan
  import opened AllocatedCode
  import opened AllocatorState

  // ----- the registers an alloc can get -----

  /** A register of the right class that the code itself leaves free for the alloc. */
  ghost predicate Candidate(su: Setup, n: nat, r: Register) {
    && r in su.registers && IsAlloc(su, n)
    && r.Float? == FloatOperand(su.operandOf[n]) && !HardConflict(su, n, r)
  }

  /** The allocs in `r` that conflict with `n`. */
  ghost function InTheWay(su: Setup, allocMap: map<nat, Register>, n: nat, r: Register): (found: set<nat>)
    ensures ConflictsOf(su, allocMap, n, r, found)
  {
    set x | x in allocMap && allocMap[x] == r && Interfere(RangeList(su, n), RangeList(su, x))
  }

  lemma FitsIff(su: Setup, allocMap: map<nat, Register>, n: nat, r: Register)
    ensures Fits(su, allocMap, n, r) <==> Candidate(su, n, r) && InTheWay(su, allocMap, n, r) == {}
  {
    hide HardConflict, RangeList;
    forall x | x in allocMap && allocMap[x] == r && Interfere(RangeList(su, n), RangeList(su, x))
      ensures x in InTheWay(su, allocMap, n, r)
    {
    }
  }

  /** The hinted register comes first, the others as they are listed. */
  ghost predicate TriedBefore(registers: seq<Register>, hints: map<Operand, Register>, o: Operand, x: Register,
                              r: Register) {
    && x in registers && r in registers && x != r && !(o in hints && hints[o] == r)
    && ((o in hints && hints[o] == x) || exists i :: 0 <= i < |registers| && registers[i] == x && r !in registers[..i])
  }

  /** The alloc fits `r`, and no register that is tried before. */
  ghost predicate FirstFit(su: Setup, hints: map<Operand, Register>, allocMap: map<nat, Register>, n: nat,
                           r: Register) {
    && Fits(su, allocMap, n, r)
    && forall x :: TriedBefore(su.registers, hints, su.operandOf[n], x, r) ==> !Fits(su, allocMap, n, x)
  }

  /** No candidate holds allocs in the way of less total weight. */
  ghost predicate Cheapest(su: Setup, allocMap: map<nat, Register>, n: nat, r: Register) {
    && Candidate(su, n, r)
    && forall x :: Candidate(su, n, x) ==>
         Total(su, InTheWay(su, allocMap, n, r)) <= Total(su, InTheWay(su, allocMap, n, x))
  }

  ghost predicate HasFit(su: Setup, allocMap: map<nat, Register>, n: nat) {
    exists r :: Fits(su, allocMap, n, r)
  }

  /** In some candidate the allocs in the way weigh less than `n`. */
  ghost predicate HasLighter(su: Setup, allocMap: map<nat, Register>, n: nat) {
    exists r :: Candidate(su, n, r) && Total(su, InTheWay(su, allocMap, n, r)) < su.weights[n]
  }

  // ----- what becomes of it -----

  ghost predicate Placed(su: Setup, s: AllocState, n: nat, r: Register, t: AllocState) {
    r in s.occupied && r in s.occupiedRanges && t == AfterPlacing(su, s, n, r)
  }

  /** The victims left one after the other, in some order. */
  ghost predicate AllEvicted(s: AllocState, victims: set<nat>, r: Register, t: AllocState) {
    && r in s.occupied && r in s.occupiedRanges
    && exists order: seq<nat> :: Lists(order, victims) && t == AfterEvictions(s, order, r)
  }

  /** ... and then `n` came in. */
  ghost predicate TakenOver(su: Setup, s: AllocState, n: nat, r: Register, victims: set<nat>, t: AllocState) {
    exists between: AllocState :: AllEvicted(s, victims, r, between) && Placed(su, between, n, r, t)
  }

  /** What becomes of an alloc that wants a register: if it fits some, it gets the first it fits; otherwise
      it takes the cheapest candidate over if the allocs in the way there weigh less; otherwise it is
      queued again to be split. */
  ghost predicate TryOutcome(su: Setup, hints: map<Operand, Register>, s: AllocState, n: nat, t: AllocState,
                             evicted: set<nat>) {
    var m, popped := s.allocMap, s.queue - multiset{n};
    && IsAlloc(su, n)
    && if HasFit(su, m, n) then
         && evicted == {} && n in t.allocMap && FirstFit(su, hints, m, n, t.allocMap[n])
         && Placed(su, s.(queue := popped, status := s.status[n := Assign]), n, t.allocMap[n], t)
       else if HasLighter(su, m, n) then
         && n in t.allocMap && Cheapest(su, m, n, t.allocMap[n]) && evicted == InTheWay(su, m, n, t.allocMap[n])
         && TakenOver(su, s.(queue := popped), n, t.allocMap[n], evicted, t)
       else
         evicted == {} && t == s.(status := s.status[n := Split])
  }

  /** One iteration, for an alloc of any status; a spilled register gets `slot`. */
  ghost predicate StepResult(su: Setup, hints: map<Operand, Register>, s: AllocState, n: nat, slot: nat, t: AllocState,
                             evicted: set<nat>) {
    && IsAlloc(su, n) && n in s.status
    && match s.status[n]
       case New => TryOutcome(su, hints, s, n, t, evicted)
       case Assign => TryOutcome(su, hints, s, n, t, evicted)
       case Split => evicted == {} && t == s.(status := s.status[n := Spill])
       case Spill =>
         evicted == {} && t == s.(queue := s.queue - multiset{n}, slotOf := s.slotOf[su.operandOf[n] := slot])
       case Memory => false
       case Done => false
  }

  /** An order of candidates that puts the hinted one first and keeps the others. */
  ghost predicate OrderedAs(order: seq<Register>, registers: seq<Register>, hints: map<Operand, Register>, o: Operand) {
    forall x, r :: TriedBefore(registers, hints, o, x, r) ==>
      exists k :: 0 <= k < |order| && order[k] == x && r !in order[..k]
  }

  lemma FirstInOrder(su: Setup, hints: map<Operand, Register>, allocMap: map<nat, Register>, n: nat,
                     order: seq<Register>, i: nat)
    requires IsAlloc(su, n) && OrderedAs(order, su.registers, hints, su.operandOf[n])
    requires i < |order| && Fits(su, allocMap, n, order[i]) && forall j ::
        0 <= j < i
        ==> !Fits(su, allocMap, n, order[j])
    ensures FirstFit(su, hints, allocMap, n, order[i])
  {
    hide Fits;
    forall x | TriedBefore(su.registers, hints, su.operandOf[n], x, order[i]) ensures !Fits(su, allocMap, n, x) {
      var k :| 0 <= k < |order| && order[k] == x && order[i] !in order[..k];
      NotBehind(order, i, k);
    }
  }

  lemma NotBehind(order: seq<Register>, i: nat, k: nat)
    requires i < |order| && k < |order| && order[i] !in order[..k]
    ensures k <= i
  {
    assert forall j :: 0 <= j < k ==> order[j] == order[..k][j];
  }

  lemma {:induction false} EvictionsMean(s: AllocState, order: seq<nat>, r: Register, victims: set<nat>)
    requires r in s.occupied && r in s.occupiedRanges && Lists(order, victims)
    ensures var t := AfterEvictions(s, order, r);
      && t.allocMap == s.allocMap - victims && t.queue == s.queue + multiset(victims)
      && t.status == s.status && t.slotOf == s.slotOf && t.occupied == s.occupied[r := s.occupied[r] - victims]
  {
    if order != [] {
      var k := |order| - 1;
      var v := order[k];
      LastListed(order, victims);
      EvictionsMean(s, order[..k], r, victims - {v});
      hide Lists, AfterEvictions, WithoutFirst;
      OneMoreGone(s.occupied[r], s.queue, s.allocMap, victims, v);
      AfterEvictionIs(AfterEvictions(s, order[..k], r), v, r);
      LastEviction(s, order, r);
    } else {
      assert victims == {} && s.allocMap - victims == s.allocMap;
      assert s.occupied[r] - victims == s.occupied[r] && s.occupied[r := s.occupied[r]] == s.occupied;
    }
  }

  lemma NoneIsEvicted(s: AllocState, r: Register)
    requires r in s.occupied && r in s.occupiedRanges
    ensures AllEvicted(s, {}, r, s)
  {
    assert Lists([], {}) && AfterEvictions(s, [], r) == s;
  }

  lemma OneMoreIsEvicted(s: AllocState, xs: set<nat>, r: Register, t: AllocState, v: nat)
    requires AllEvicted(s, xs, r, t) && v !in xs
    ensures r in t.occupied && r in t.occupiedRanges && AllEvicted(s, xs + {v}, r, AfterEviction(t, v, r))
  {
    hide AfterEviction;
    var order :| Lists(order, xs) && t == AfterEvictions(s, order, r);
    OneMoreListed(order, xs, v);
    LastEviction(s, order + [v], r);
    assert (order + [v])[..|order + [v]| - 1] == order;
    hide AfterEvictions, Lists;
    assert AfterEvictions(s, order + [v], r) == AfterEviction(t, v, r);
  }

  lemma OneMoreListed(order: seq<nat>, xs: set<nat>, v: nat)
    requires Lists(order, xs) && v !in xs
    ensures Lists(order + [v], xs + {v})
  {
    assert forall x :: x in order + [v] <==> x in order || x == v;
  }

  lemma TakesIn(su: Setup, s: AllocState, n: nat, r: Register, victims: set<nat>, between: AllocState, t: AllocState)
    requires AllEvicted(s, victims, r, between) && Placed(su, between, n, r, t)
    ensures TakenOver(su, s, n, r, victims, t)
  {
  }

  lemma LastEviction(s: AllocState, order: seq<nat>, r: Register)
    requires r in s.occupied && r in s.occupiedRanges && order != []
    ensures AfterEvictions(s, order, r) == AfterEviction(AfterEvictions(s, order[..|order| - 1], r), order[|order| - 1],
        r)
  {
    hide AfterEviction;
  }

  lemma LastListed(order: seq<nat>, xs: set<nat>)
    requires Lists(order, xs) && order != []
    ensures order[|order| - 1] in xs && Lists(order[..|order| - 1], xs - {order[|order| - 1]})
  {
    var v := order[|order| - 1];
    assert order == order[..|order| - 1] + [v];
    assert forall x :: x in xs <==> x in order[..|order| - 1] || x == v;
  }

  lemma OneMoreGone(there: set<nat>, queue: multiset<nat>, allocMap: map<nat, Register>, xs: set<nat>, v: nat)
    requires v in xs
    ensures there - (xs - {v}) - {v} == there - xs
    ensures allocMap - (xs - {v}) - {v} == allocMap - xs
    ensures queue + multiset(xs - {v}) + multiset{v} == queue + multiset(xs)
  {
    assert xs == (xs - {v}) + {v};
  }

  lemma PlacedMeans(su: Setup, s: AllocState, n: nat, r: Register, t: AllocState)
    requires Placed(su, s, n, r, t)
    ensures r in s.occupied && t.occupied == s.occupied[r := s.occupied[r] + {n}]
    ensures t.allocMap == s.allocMap[n := r] && t.queue == s.queue && t.status == s.status && t.slotOf == s.slotOf
  {
    hide InsertedAll, RangeList;
  }

  /** Of a take-over: the victims are queued and out of the register, and `n` is in it. */
  lemma TakenOverMeans(su: Setup, s: AllocState, n: nat, r: Register, victims: set<nat>, t: AllocState)
    requires TakenOver(su, s, n, r, victims, t)
    ensures t.allocMap == (s.allocMap - victims)[n := r] && t.queue == s.queue + multiset(victims)
    ensures t.status == s.status && t.slotOf == s.slotOf
    ensures t.occupied == s.occupied[r := s.occupied[r] - victims + {n}]
  {
    var between :| AllEvicted(s, victims, r, between) && Placed(su, between, n, r, t);
    AllEvictedMeans(s, victims, r, between);
    PlacedMeans(su, between, n, r, t);
    hide *;
    assert between.occupied[r := between.occupied[r] + {n}] == s.occupied[r := s.occupied[r] - victims + {n}];
  }

  lemma AllEvictedMeans(s: AllocState, victims: set<nat>, r: Register, t: AllocState)
    requires AllEvicted(s, victims, r, t)
    ensures r in s.occupied && t.occupied == s.occupied[r := s.occupied[r] - victims]
    ensures t.allocMap == s.allocMap - victims && t.queue == s.queue + multiset(victims)
    ensures t.status == s.status && t.slotOf == s.slotOf
  {
    var order :| Lists(order, victims) && t == AfterEvictions(s, order, r);
    EvictionsMean(s, order, r, victims);
  }

  /** The three cases, in terms of where the alloc is afterwards. */
  lemma OutcomeOfTry(su: Setup, hints: map<Operand, Register>, s: AllocState, n: nat, t: AllocState, evicted: set<nat>)
    requires TryOutcome(su, hints, s, n, t, evicted) && n in s.queue && n !in s.allocMap
    requires n in s.status && !s.status[n].Split?
    ensures HasFit(su, s.allocMap, n) ==>
      && evicted == {} && t.status == s.status[n := Assign] && t.queue == s.queue - multiset{n}
      && n in t.allocMap && FirstFit(su, hints, s.allocMap, n, t.allocMap[n])
      && t.allocMap == s.allocMap[n := t.allocMap[n]]
    ensures !HasFit(su, s.allocMap, n) ==>
      && (n in t.allocMap <==> HasLighter(su, s.allocMap, n))
      && (n in t.allocMap ==>
            && Cheapest(su, s.allocMap, n, t.allocMap[n]) && evicted == InTheWay(su, s.allocMap, n, t.allocMap[n])
            && evicted != {} && Total(su, evicted) < su.weights[n]
            && t.allocMap == (s.allocMap - evicted)[n := t.allocMap[n]] && t.status == s.status
            && t.queue == s.queue - multiset{n} + multiset(evicted))
      && (n !in t.allocMap ==>
            evicted == {} && t.status == s.status[n := Split] && n in t.queue && t.allocMap == s.allocMap)
  {
    hide Candidate, Fits, Total, TakenOver;
    var m := s.allocMap;
    if !HasFit(su, m, n) && HasLighter(su, m, n) {
      var r := t.allocMap[n];
      TakenOverMeans(su, s.(queue := s.queue - multiset{n}), n, r, evicted, t);
      FitsIff(su, m, n, r);
      assert !Fits(su, m, n, r);
      var x :| Candidate(su, n, x) && Total(su, InTheWay(su, m, n, x)) < su.weights[n];
    }
  }

  // ----- allocs that are never spilled -----

  /** The allocs that conflict with `n`, wherever they are. */
  ghost function Neighbours(su: Setup, n: nat): set<nat> {
    set x: nat | 1 <= x <= su.count && x != n && Interfere(RangeList(su, n), RangeList(su, x))
  }

  ghost function Candidates(su: Setup, n: nat): set<Register> {
    set r | r in su.registers && Candidate(su, n, r)
  }

  /** Fewer allocs conflict with it than there are candidates. */
  ghost predicate FewNeighbours(su: Setup, n: nat) {
    IsAlloc(su, n) && |Neighbours(su, n)| < |Candidates(su, n)|
  }

  lemma {:induction false} OnePerRegister(rs: set<Register>, xs: set<nat>, allocMap: map<nat, Register>)
    requires forall r :: r in rs ==> exists x :: x in xs && x in allocMap && allocMap[x] == r
    ensures |rs| <= |xs|
    decreases |rs|
  {
    if rs != {} {
      var r :| r in rs;
      var x :| x in xs && x in allocMap && allocMap[x] == r;
      forall q | q in rs - {r} ensures exists y :: y in xs - {x} && y in allocMap && allocMap[y] == q {
        var y :| y in xs && y in allocMap && allocMap[y] == q;
        assert y in xs - {x};
      }
      OnePerRegister(rs - {r}, xs - {x}, allocMap);
    }
  }

  /** Such an alloc fits some register whatever is allocated. */
  lemma FewNeighboursFit(su: Setup, allocMap: map<nat, Register>, n: nat)
    requires FewNeighbours(su, n) && n !in allocMap && forall x :: x in allocMap ==> IsAlloc(su, x)
    ensures HasFit(su, allocMap, n)
  {
    hide Candidate, RangeList, Fits;
    if !HasFit(su, allocMap, n) {
      forall r | r in Candidates(su, n) ensures exists x ::
          x in Neighbours(su, n) && x in allocMap
          && allocMap[x] == r {
        FitsIff(su, allocMap, n, r);
        assert !Fits(su, allocMap, n, r);
        var x :| x in InTheWay(su, allocMap, n, r);
        assert x in Neighbours(su, n);
      }
      OnePerRegister(Candidates(su, n), Neighbours(su, n), allocMap);
    }
  }

  /** Not given up on. */
  ghost predicate InPlay(su: Setup, s: AllocState, n: nat) {
    && n in s.status && (s.status[n].New? || s.status[n].Assign?)
    && n in su.operandOf && su.operandOf[n] !in s.slotOf
  }

  /** One iteration never gives up on it. */
  lemma StaysInPlay(su: Setup, hints: map<Operand, Register>, s: AllocState, k: nat, slot: nat, t: AllocState,
                    evicted: set<nat>, n: nat)
    requires Inv(su, s, {}) && k in s.queue && StepResult(su, hints, s, k, slot, t, evicted)
    requires FewNeighbours(su, n) && InPlay(su, s, n)
    ensures InPlay(su, t, n)
  {
    assert IsAlloc(su, n);
    hide *;
    PopKeeps(su, s, k);
    InvFacts(su, s, {});
    if s.status[k].New? || s.status[k].Assign? {
      TryStaysInPlay(su, hints, s, k, slot, t, evicted, n);
    } else {
      OtherStaysInPlay(su, hints, s, k, slot, t, evicted, n);
    }
  }

  lemma TryStaysInPlay(su: Setup, hints: map<Operand, Register>, s: AllocState, k: nat, slot: nat, t: AllocState,
                       evicted: set<nat>, n: nat)
    requires StepResult(su, hints, s, k, slot, t, evicted) && (s.status[k].New? || s.status[k].Assign?)
    requires k in s.queue && k !in s.allocMap && forall x :: x in s.allocMap ==> IsAlloc(su, x)
    requires FewNeighbours(su, n) && InPlay(su, s, n)
    ensures InPlay(su, t, n)
  {
    hide TryOutcome, FewNeighbours, HasFit, HasLighter, FirstFit, Cheapest, InTheWay, Total;
    OutcomeOfTry(su, hints, s, k, t, evicted);
    OutcomeSlots(su, hints, s, k, t, evicted);
    if k == n {
      FewNeighboursFit(su, s.allocMap, n);
    }
  }

  lemma OtherStaysInPlay(su: Setup, hints: map<Operand, Register>, s: AllocState, k: nat, slot: nat, t: AllocState,
                         evicted: set<nat>, n: nat)
    requires StepResult(su, hints, s, k, slot, t, evicted) && !(s.status[k].New? || s.status[k].Assign?)
    requires ValidSetup(su) && IsAlloc(su, n) && InPlay(su, s, n)
    ensures InPlay(su, t, n)
  {
    assert k != n;
    assert su.operandOf[k] != su.operandOf[n];
  }

  lemma OutcomeSlots(su: Setup, hints: map<Operand, Register>, s: AllocState, n: nat, t: AllocState, evicted: set<nat>)
    requires TryOutcome(su, hints, s, n, t, evicted)
    ensures t.slotOf == s.slotOf
  {
    hide HasFit, HasLighter, FirstFit, Cheapest, TakenOver;
    if !HasFit(su, s.allocMap, n) && HasLighter(su, s.allocMap, n) {
      TakenOverMeans(su, s.(queue := s.queue - multiset{n}), n, t.allocMap[n], evicted, t);
    }
  }

  /** When the queue is empty, an alloc still in play has a register. */
  lemma InPlayIsPlaced(su: Setup, s: AllocState, n: nat)
    requires Inv(su, s, {}) && s.queue == multiset{} && IsAlloc(su, n) && InPlay(su, s, n)
    ensures n in s.allocMap
  {
    assert InOnePlace(s.queue, s.allocMap, s.slotOf, {}, n, su.operandOf[n]);
  }

  /** Every such alloc that was in play at the start is still. */
  ghost predicate StillInPlay(su: Setup, start: AllocState, s: AllocState) {
    forall n :: FewNeighbours(su, n) && InPlay(su, start, n) ==> InPlay(su, s, n)
  }

  lemma AtStartInPlay(su: Setup, start: AllocState)
    ensures StillInPlay(su, start, start)
  {
    hide FewNeighbours, InPlay;
  }

  lemma StepKeepsInPlay(su: Setup, start: AllocState, s: AllocState, hints: map<Operand, Register>, k: nat, slot: nat,
                        t: AllocState, evicted: set<nat>)
    requires StillInPlay(su, start, s)
    requires Inv(su, s, {}) && k in s.queue && StepResult(su, hints, s, k, slot, t, evicted)
    ensures StillInPlay(su, start, t)
  {
    hide Inv, StepResult, FewNeighbours, InPlay;
    forall n | FewNeighbours(su, n) && InPlay(su, start, n) ensures InPlay(su, t, n) {
      StaysInPlay(su, hints, s, k, slot, t, evicted, n);
    }
  }

  lemma AllInPlayPlaced(su: Setup, start: AllocState, s: AllocState)
    requires StillInPlay(su, start, s) && Inv(su, s, {}) && s.queue == multiset{}
    ensures forall n :: FewNeighbours(su, n) && InPlay(su, start, n) ==> n in s.allocMap
  {
    hide Inv, InPlay;
    forall n | FewNeighbours(su, n) && InPlay(su, start, n) ensures n in s.allocMap {
      InPlayIsPlaced(su, s, n);
    }
  }

  // ----- the cases of one iteration -----

  lemma SplitIsOutcome(su: Setup, hints: map<Operand, Register>, s: AllocState, n: nat, t: AllocState)
    requires IsAlloc(su, n) && !HasLighter(su, s.allocMap, n) && t == s.(status := s.status[n := Split])
    ensures !HasFit(su, s.allocMap, n) ==> TryOutcome(su, hints, s, n, t, {})
  {
    hide HasLighter, HasFit;
  }

  lemma TakenIsOutcome(su: Setup, hints: map<Operand, Register>, s: AllocState, n: nat, r: Register, t: AllocState,
                       evicted: set<nat>)
    requires IsAlloc(su, n) && HasLighter(su, s.allocMap, n) && Cheapest(su, s.allocMap, n, r)
    requires evicted == InTheWay(su, s.allocMap, n, r)
    requires TakenOver(su, s.(queue := s.queue - multiset{n}), n, r, evicted, t)
    ensures !HasFit(su, s.allocMap, n) ==> TryOutcome(su, hints, s, n, t, evicted)
  {
    TakenOverMeans(su, s.(queue := s.queue - multiset{n}), n, r, evicted, t);
    hide HasLighter, HasFit, Cheapest, InTheWay, TakenOver;
  }

  lemma PlacedIsOutcome(su: Setup, hints: map<Operand, Register>, s: AllocState, n: nat, r: Register, t: AllocState)
    requires IsAlloc(su, n) && FirstFit(su, hints, s.allocMap, n, r)
    requires Placed(su, s.(queue := s.queue - multiset{n}, status := s.status[n := Assign]), n, r, t)
    ensures HasFit(su, s.allocMap, n) && TryOutcome(su, hints, s, n, t, {})
    ensures n in t.allocMap && t.allocMap[n] == r
  {
    hide Fits, InsertedAll, RangeList;
    assert Fits(su, s.allocMap, n, r);
  }

  lemma FirstFitFits(su: Setup, hints: map<Operand, Register>, allocMap: map<nat, Register>, n: nat, r: Register)
    requires FirstFit(su, hints, allocMap, n, r)
    ensures Fits(su, allocMap, n, r)
  {
    hide Fits;
  }

  lemma StepResultIs(su: Setup, hints: map<Operand, Register>, s: AllocState, n: nat, slot: nat, t: AllocState,
                     evicted: set<nat>)
    requires IsAlloc(su, n) && n in s.status && LoopStatus(s.status[n])
    requires s.status[n].New? || s.status[n].Assign? ==> TryOutcome(su, hints, s, n, t, evicted)
    requires s.status[n].Split? ==> evicted == {} && t == s.(status := s.status[n := Spill])
    requires s.status[n].Spill? ==>
        evicted == {} && t == s.(queue := s.queue - multiset{n}, slotOf := s.slotOf[su.operandOf[n] := slot])
    ensures StepResult(su, hints, s, n, slot, t, evicted)
  {
    hide TryOutcome;
  }
}
