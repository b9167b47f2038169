/** What the range that an eviction leaves behind can lead to: a run of the allocation loop, from a proper
    start, that puts two conflicting allocs into one register. */
module StaleRanges {
  import opened AsmProgram
  import opened BackendRegisters
  import opened LiveRanges
  import opened LivenessPass
  import opened ConflictScan
  import opened AllocatedCode
  import opened AllocatorState
  import opened RegisterAllocator

  // ----- steps of the loop, whatever the state -----

  /** The allocs the scan of `r` finds in the way of `n`. */
  function Found(su: Setup, s: AllocState, n: nat, r: Register): set<nat> {
    if n in su.rangesOf && su.rangesOf[n] != [] && r in s.occupiedRanges then
      ScanAfter(s.occupiedRanges[r], su.rangesOf[n], Start(s.occupiedRanges[r], su.rangesOf[n][0]))
    else {}
  }

  /** `r` is a register that `n` is tried in and that the code itself leaves free for it. */
  ghost predicate Tried(su: Setup, s: AllocState, n: nat, r: Register) {
    && IsAlloc(su, n) && n in s.queue && n in s.status && (s.status[n].New? || s.status[n].Assign?)
    && r in su.registers && r in s.occupied && r in s.occupiedRanges
    && r.Float? == FloatOperand(su.operandOf[n]) && !HardConflict(su, n, r)
  }

  /** A register is found free. */
  ghost predicate TakesFree(su: Setup, s: AllocState, n: nat, r: Register, t: AllocState) {
    && Tried(su, s, n, r) && Found(su, s, n, r) == {}
    && t == AfterPlacing(su, s.(queue := s.queue - multiset{n}, status := s.status[n := Assign]), n, r)
  }

  /** None is free; the allocs in the way in `r` weigh the least, and less than the newcomer. */
  ghost predicate TakesOver(su: Setup, s: AllocState, n: nat, r: Register, t: AllocState) {
    && Tried(su, s, n, r) && Found(su, s, n, r) != {}
    && (forall x :: Tried(su, s, n, x) ==> Found(su, s, n, x) != {} && Total(su, Found(su, s, n, r)) <= Total(su,
        Found(su,
        s, n, x)))
    && Total(su, Found(su, s, n, r)) < su.weights[n]
    && exists order: seq<nat> ::
         && Lists(order, Found(su, s, n, r))
         && t == AfterPlacing(su, AfterEvictions(s.(queue := s.queue - multiset{n}), order, r), n, r)
  }

  // ----- the run -----

  const REG := General(18)

  /** Three virtual registers and one register: the first has the ranges `p` and `q`, the others only `q`. */
  function Three(p: Range, q: Range): Setup {
    var a, b, c := Virtual(1, false), Virtual(2, false), Virtual(3, false);
    Setup(3, map[1 := [p, q], 2 := [q], 3 := [q]], map[1 := a, 2 := b, 3 := c], map[a := [p, q], b := [q], c := [q]],
        [REG],
          map[1 := 1, 2 := 2, 3 := 3])
  }

  function Begin(): AllocState {
    AllocState(map[], map[1 := New, 2 := New, 3 := New], multiset{1, 2, 3}, map[REG := {}], map[REG := []], map[])
  }

  lemma ThreeIsValid(p: Range, q: Range)
    requires p.begin <= p.end < q.begin <= q.end
    ensures ValidSetup(Three(p, q))
  {
    var su := Three(p, q);
    assert IsAlloc(su, 1) && IsAlloc(su, 2) && IsAlloc(su, 3);
  }

  lemma BeginIsProper(p: Range, q: Range)
    requires p.begin <= p.end < q.begin <= q.end
    ensures Inv(Three(p, q), Begin(), {})
  {
    var su := Three(p, q);
    ThreeIsValid(p, q);
    hide ValidSetup;
    InvStarts(su, Begin());
  }

  lemma WeightsOfThree(p: Range, q: Range)
    ensures Total(Three(p, q), {1}) == 1
  {
    SumOne(Three(p, q).weights, 3, 1);
  }

  lemma OnlyOne(p: Range, q: Range, s: AllocState, n: nat, x: Register)
    requires Tried(Three(p, q), s, n, x)
    ensures x == REG
  {
  }

  /** The states of the run. */
  function First(p: Range, q: Range): AllocState {
    AllocState(map[1 := REG], map[1 := Assign, 2 := New, 3 := New], multiset{2, 3}, map[REG := {1}],
               map[REG := [AllocRange(p, 1), AllocRange(q, 1)]], map[])
  }

  function Second(q: Range): AllocState {
    AllocState(map[2 := REG], map[1 := Assign, 2 := New, 3 := New], multiset{1, 3}, map[REG := {2}],
               map[REG := [AllocRange(q, 1)]], map[])
  }

  function Third(q: Range): AllocState {
    AllocState(map[2 := REG, 3 := REG], map[1 := Assign, 2 := New, 3 := New], multiset{1, 1}, map[REG := {2, 3}],
               map[REG := [AllocRange(q, 3)]], map[])
  }

  lemma FirstStored(p: Range, q: Range)
    requires p.begin <= p.end < q.begin <= q.end
    ensures InsertedAll([], [p, q], 1, 2) == [AllocRange(p, 1), AllocRange(q, 1)]
  {
    var first, second := AllocRange(p, 1), AllocRange(q, 1);
    assert [first][1..] == [] && Inserted([], second) == [second] && Inserted([], first) == [first];
    assert Inserted([first], second) == [first] + [second] == [first, second];
    assert InsertedAll([], [p, q], 1, 0) == [];
    assert InsertedAll([], [p, q], 1, 1) == [first];
  }

  lemma FirstIs(p: Range, q: Range)
    requires p.begin <= p.end < q.begin <= q.end
    ensures var s := Begin();
      First(p, q) == AfterPlacing(Three(p, q), s.(queue := s.queue - multiset{1}, status := s.status[1 := Assign]), 1,
          REG)
  {
    FirstStored(p, q);
    var s := Begin();
    assert RangeList(Three(p, q), 1) == [p, q];
    hide InsertedAll;
    assert s.occupied[REG] + {1} == {1};
    assert s.occupied[REG := {1}] == map[REG := {1}];
    assert s.queue - multiset{1} == multiset{2, 3};
  }

  lemma SecondIs(p: Range, q: Range)
    requires p.begin <= p.end < q.begin <= q.end
    ensures var s := First(p, q).(queue := First(p, q).queue - multiset{2});
      Second(q) == AfterPlacing(Three(p, q), AfterEvictions(s, [1], REG), 2, REG)
  {
    var s, stored := First(p, q).(queue := First(p, q).queue - multiset{2}), [AllocRange(p, 1), AllocRange(q, 1)];
    EvictsFirst(s);
    assert stored[1..] == [AllocRange(q, 1)] && WithoutFirst(stored, 1) == stored[1..];
    SameRangeStays(AllocRange(q, 1), q, 2);
    assert RangeList(Three(p, q), 2) == [q];
    hide InsertedAll, WithoutFirst;
    assert s.occupied[REG] - {1} + {2} == {2};
    assert s.queue + multiset{1} == multiset{1, 3};
    assert (s.allocMap - {1})[2 := REG] == map[2 := REG];
  }

  lemma ThirdIs(p: Range, q: Range)
    ensures var s := Second(q).(queue := Second(q).queue - multiset{3});
      Third(q) == AfterPlacing(Three(p, q), AfterEvictions(s, [1], REG), 3, REG)
  {
    var s, stored := Second(q).(queue := Second(q).queue - multiset{3}), [AllocRange(q, 1)];
    EvictsFirst(s);
    assert stored[1..] == [] && WithoutFirst(stored, 1) == [];
    assert InsertedAll([], [q], 3, 0) == [] && InsertedAll([], [q], 3, 1) == [AllocRange(q, 3)];
    assert RangeList(Three(p, q), 3) == [q];
    hide InsertedAll, WithoutFirst;
    assert s.occupied[REG] - {1} + {3} == {2, 3};
    assert s.queue + multiset{1} == multiset{1, 1};
    assert (s.allocMap - {1})[3 := REG] == map[2 := REG, 3 := REG];
  }

  lemma TakesOverOne(p: Range, q: Range, s: AllocState, n: nat, t: AllocState)
    requires n in {2, 3} && Tried(Three(p, q), s, n, REG) && Found(Three(p, q), s, n, REG) == {1}
    requires t == AfterPlacing(Three(p, q), AfterEvictions(s.(queue := s.queue - multiset{n}), [1], REG), n, REG)
    ensures TakesOver(Three(p, q), s, n, REG, t)
  {
    hide HardConflict, AfterPlacing, AfterEvictions, Found;
    WeightsOfThree(p, q);
    var order: seq<nat> := [1];
    assert forall v :: v in order <==> v in {1};
    forall x | Tried(Three(p, q), s, n, x) ensures x == REG {
      OnlyOne(p, q, s, n, x);
    }
  }

  lemma EvictsFirst(s: AllocState)
    requires REG in s.occupied && REG in s.occupiedRanges
    ensures AfterEvictions(s, [1], REG) == AfterEviction(s, 1, REG)
  {
    assert [1][..0] == [];
  }

  lemma SameRangeStays(e: AllocRange, q: Range, n: nat)
    requires e.range == q
    ensures InsertedAll([e], [q], n, 1) == [e]
  {
    assert InsertedAll([e], [q], n, 0) == [e];
  }

  /** Before and after the first eviction the scan for `q` finds the first alloc, and only that. */
  lemma ScanFindsFirst(p: Range, q: Range)
    requires p.begin <= p.end < q.begin <= q.end
    ensures var stored := [AllocRange(p, 1), AllocRange(q, 1)]; ScanAfter(stored, [q], Start(stored, q)) == {1}
    ensures var left := [AllocRange(q, 1)]; ScanAfter(left, [q], Start(left, q)) == {1}
  {
    var stored, left := [AllocRange(p, 1), AllocRange(q, 1)], [AllocRange(q, 1)];
    StaleRangeHidesNewcomer(p, q, 2, 1);
    PrecedingIsLowerBound(stored, q, 1);
    assert Conflict([q][0], stored[1].range);
    assert ConflictsWith([q], stored[1].range);
    assert stored[1].alloc in ScanAfter(stored, [q], 0);
  }

  /** The first is placed; the second, heavier, evicts it, and its range is not stored because an equal one
      stayed behind; the third is told of that one only, evicts the first once more, and shares the
      register with the second. The first is then in the queue twice. */
  lemma SharingReached(p: Range, q: Range)
    requires p.begin <= p.end < q.begin <= q.end
    ensures Inv(Three(p, q), Begin(), {})
    ensures TakesFree(Three(p, q), Begin(), 1, REG, First(p, q))
    ensures TakesOver(Three(p, q), First(p, q), 2, REG, Second(q))
    ensures TakesOver(Three(p, q), Second(q), 3, REG, Third(q))
    ensures 2 in Third(q).allocMap && 3 in Third(q).allocMap
    ensures Third(q).allocMap[2] == Third(q).allocMap[3] == REG && Third(q).queue[1] == 2
    ensures Interfere(RangeList(Three(p, q), 2), RangeList(Three(p, q), 3))
  {
    hide *;
    BeginIsProper(p, q);
    StepOne(p, q);
    StepTwo(p, q);
    StepThree(p, q);
    BothThere(p, q);
  }

  lemma StepOne(p: Range, q: Range)
    requires p.begin <= p.end < q.begin <= q.end
    ensures TakesFree(Three(p, q), Begin(), 1, REG, First(p, q))
  {
    FirstIs(p, q);
    hide AfterPlacing, First, ScanAfter;
    EmptyScan([p, q]);
  }

  lemma StepTwo(p: Range, q: Range)
    requires p.begin <= p.end < q.begin <= q.end
    ensures TakesOver(Three(p, q), First(p, q), 2, REG, Second(q))
  {
    SecondIs(p, q);
    ScanFindsFirst(p, q);
    hide AfterPlacing, AfterEvictions, ScanAfter, TakesOver, Second;
    TakesOverOne(p, q, First(p, q), 2, Second(q));
  }

  lemma StepThree(p: Range, q: Range)
    requires p.begin <= p.end < q.begin <= q.end
    ensures TakesOver(Three(p, q), Second(q), 3, REG, Third(q))
  {
    ThirdIs(p, q);
    ScanFindsFirst(p, q);
    hide AfterPlacing, AfterEvictions, ScanAfter, TakesOver, Third;
    TakesOverOne(p, q, Second(q), 3, Third(q));
  }

  lemma BothThere(p: Range, q: Range)
    requires q.begin <= q.end
    ensures 2 in Third(q).allocMap && 3 in Third(q).allocMap
    ensures Third(q).allocMap[2] == Third(q).allocMap[3] == REG && Third(q).queue[1] == 2
    ensures Interfere(RangeList(Three(p, q), 2), RangeList(Three(p, q), 3))
  {
    assert Conflict(q, q) && q in [q];
  }

  lemma EmptyScan(rs: seq<Range>)
    requires rs != []
    ensures ScanAfter([], rs, Start([], rs[0])) == {}
  {
  }
}
