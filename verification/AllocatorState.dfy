/** The state of the allocation loop: what holds of it after every step, and what makes the loop end. */
module AllocatorState {
  import opened AsmProgram
  import opened BackendRegisters
  import opened LiveRanges
  import opened LivenessPass
  import opened ConflictScan
  import opened AllocatedCode

  datatype AllocStatus = New | Assign | Split | Spill | Memory | Done

  /** What never changes: the allocs are numbered from 1, one for each virtual register with ranges. */
  datatype Setup = Setup(count: nat, rangesOf: map<nat, seq<Range>>, operandOf: map<nat, Operand>,
                         ranges: map<Operand, seq<Range>>, registers: seq<Register>, weights: map<nat, nat>)

  datatype AllocState = AllocState(allocMap: map<nat, Register>, status: map<nat, AllocStatus>, queue: multiset<nat>,
                                   occupied: map<Register, set<nat>>, occupiedRanges: map<Register, seq<AllocRange>>,
                                   slotOf: map<Operand, nat>)

  predicate IsAlloc(su: Setup, n: nat) {
    1 <= n <= su.count && n in su.rangesOf && n in su.operandOf && n in su.weights
  }

  /** Ranges in order of which no two share an instruction. */
  predicate Separate(rs: seq<Range>) {
    && (forall i :: 0 <= i < |rs| ==> rs[i].begin <= rs[i].end)
    && (forall i, j :: 0 <= i < j < |rs| ==> rs[i].end < rs[j].begin)
  }

  /** Every virtual register has ranges, however many, and no instruction is in two of them. */
  ghost predicate ValidSetup(su: Setup) {
    && (forall n: nat :: 1 <= n <= su.count ==> IsAlloc(su, n))
    && (forall n: nat :: IsAlloc(su, n) ==> su.operandOf[n].Virtual? && su.rangesOf[n] == ListOf(su.ranges,
        su.operandOf[n]))
    && (forall n: nat :: IsAlloc(su, n) ==> su.rangesOf[n] != [] && Separate(su.rangesOf[n]))
    && (forall n: nat, k: nat :: IsAlloc(su, n) && IsAlloc(su, k) && su.operandOf[n] == su.operandOf[k] ==> n == k)
    && (forall r :: r in su.registers ==> !IsTemp(r) && Physical(r) != SP)
  }

  function RangeList(su: Setup, n: nat): seq<Range> {
    if n in su.rangesOf then su.rangesOf[n] else []
  }

  /** The argument and caller-saved registers, which the code itself uses. */
  predicate HardChecked(r: Register) {
    match r
    case General(i) => 5 <= i <= 7 || 10 <= i <= 17 || 28 <= i <= 31
    case Float(i) => i <= 7 || 10 <= i <= 17 || 28 <= i <= 31
  }

  /** The code's own ranges of `r` conflict with those of the alloc. */
  ghost predicate HardConflict(su: Setup, n: nat, r: Register) {
    HardChecked(r) && Interfere(RangeList(su, n), ListOf(su.ranges, Physical(r)))
  }

  function Count(b: bool): nat {
    if b then 1 else 0
  }

  /** In the queue, in the hand of the step that is running, in a register or in memory. */
  ghost predicate InOnePlace(queue: multiset<nat>, allocMap: map<nat, Register>, slotOf: map<Operand, nat>,
                             hand: set<nat>, n: nat, o: Operand) {
    queue[n] + Count(n in hand) + Count(n in allocMap) + Count(o in slotOf) == 1
  }

  ghost predicate Partition(su: Setup, queue: multiset<nat>, allocMap: map<nat, Register>, slotOf: map<Operand, nat>,
                            hand: set<nat>) {
    && (forall n: nat :: IsAlloc(su, n) ==> InOnePlace(queue, allocMap, slotOf, hand, n, su.operandOf[n]))
    && (forall n :: n in queue || n in hand || n in allocMap ==> IsAlloc(su, n))
    && (forall o :: o in slotOf ==> exists n: nat :: IsAlloc(su, n) && su.operandOf[n] == o)
  }

  predicate LoopStatus(st: AllocStatus) {
    st.New? || st.Assign? || st.Split? || st.Spill?
  }

  ghost predicate Statuses(su: Setup, allocMap: map<nat, Register>, status: map<nat, AllocStatus>) {
    && (forall n: nat :: IsAlloc(su, n) ==> n in status && LoopStatus(status[n]))
    && (forall n :: n in allocMap ==> n in status && (status[n].New? || status[n].Assign?))
  }

  ghost predicate OccupiedExact(su: Setup, allocMap: map<nat, Register>, occupied: map<Register, set<nat>>) {
    && (forall r :: r in su.registers ==> r in occupied)
    && (forall r, n :: r in occupied ==> (n in occupied[r] <==> n in allocMap && allocMap[n] == r))
    && (forall n :: n in allocMap ==> allocMap[n] in su.registers)
  }

  /** The stored ranges of `r` are those of the allocs in it, in order. */
  ghost predicate StoredExactly(su: Setup, allocMap: map<nat, Register>, r: Register, rs: seq<AllocRange>) {
    && InOrder(rs)
    && forall e :: e in rs <==> e.alloc in allocMap && allocMap[e.alloc] == r && e.range in RangeList(su, e.alloc)
  }

  ghost predicate StoredRangesExact(su: Setup, allocMap: map<nat, Register>,
                                    occupiedRanges: map<Register, seq<AllocRange>>) {
    forall r :: r in su.registers ==> r in occupiedRanges && StoredExactly(su, allocMap, r, occupiedRanges[r])
  }

  /** No two allocs in one register conflict, none conflicts with the register's own ranges, and
      floats are in float registers. */
  ghost predicate Safe(su: Setup, allocMap: map<nat, Register>) {
    && (forall x, y ::
        x in allocMap && y in allocMap && x != y && allocMap[x] == allocMap[y]
        ==> !Interfere(RangeList(su, x), RangeList(su, y)))
    && (forall x :: x in allocMap ==> !HardConflict(su, x, allocMap[x]))
    && (forall x :: x in allocMap && x in su.operandOf ==> allocMap[x].Float? == FloatOperand(su.operandOf[x]))
  }

  ghost predicate Inv(su: Setup, s: AllocState, hand: set<nat>) {
    && ValidSetup(su)
    && Partition(su, s.queue, s.allocMap, s.slotOf, hand)
    && Statuses(su, s.allocMap, s.status)
    && OccupiedExact(su, s.allocMap, s.occupied)
    && StoredRangesExact(su, s.allocMap, s.occupiedRanges)
    && Safe(su, s.allocMap)
  }

  // ----- weights -----

  /** The total weight of the allocs of `xs` numbered at most `k`. */
  function SumUpTo(weights: map<nat, nat>, k: nat, xs: set<nat>): nat {
    if k == 0 then 0
    else SumUpTo(weights, k - 1, xs) + if k in xs && k in weights then weights[k] else 0
  }

  function Total(su: Setup, xs: set<nat>): nat {
    SumUpTo(su.weights, su.count, xs)
  }

  lemma {:induction false} SumSplits(weights: map<nat, nat>, k: nat, xs: set<nat>, ys: set<nat>)
    requires xs !! ys
    ensures SumUpTo(weights, k, xs + ys) == SumUpTo(weights, k, xs) + SumUpTo(weights, k, ys)
  {
    if k > 0 {
      SumSplits(weights, k - 1, xs, ys);
    }
  }

  lemma {:induction false} SumOne(weights: map<nat, nat>, k: nat, n: nat)
    requires n in weights
    ensures SumUpTo(weights, k, {n}) == if 1 <= n <= k then weights[n] else 0
  {
    if k > 0 {
      SumOne(weights, k - 1, n);
    }
  }

  lemma {:induction false} SumMonotone(weights: map<nat, nat>, k: nat, xs: set<nat>, ys: set<nat>)
    requires xs <= ys
    ensures SumUpTo(weights, k, xs) <= SumUpTo(weights, k, ys)
  {
    if k > 0 {
      SumMonotone(weights, k - 1, xs, ys);
    }
  }

  /** Adding one alloc adds its weight. */
  lemma TotalAdds(su: Setup, xs: set<nat>, n: nat)
    requires ValidSetup(su) && IsAlloc(su, n) && n !in xs
    ensures Total(su, xs + {n}) == Total(su, xs) + su.weights[n]
  {
    SumSplits(su.weights, su.count, xs, {n});
    SumOne(su.weights, su.count, n);
  }

  lemma TotalRemoves(su: Setup, xs: set<nat>, ys: set<nat>)
    requires ys <= xs
    ensures Total(su, xs - ys) == Total(su, xs) - Total(su, ys)
  {
    SumSplits(su.weights, su.count, xs - ys, ys);
    assert xs - ys + ys == xs;
  }

  function AllAllocs(su: Setup): set<nat> {
    set n: nat | 1 <= n <= su.count && IsAlloc(su, n)
  }

  // ----- what decreases -----

  /** Allocs that may still get a register. */
  function Allocatable(su: Setup, s: AllocState): set<nat> {
    set n: nat | 1 <= n <= su.count && n in s.status && (s.status[n].New? || s.status[n].Assign?)
  }

  /** Allocs that have not yet been told to spill. */
  function Unspilled(su: Setup, s: AllocState): set<nat> {
    set n: nat | 1 <= n <= su.count && n in s.status && !s.status[n].Spill?
  }

  /** Weight still outside registers. */
  function Slack(su: Setup, s: AllocState): nat {
    var slack := Total(su, AllAllocs(su)) - Total(su, s.allocMap.Keys);
    if slack < 0 then 0 else slack
  }

  lemma AssignedWithinAll(su: Setup, s: AllocState, hand: set<nat>)
    requires Inv(su, s, hand)
    ensures Total(su, s.allocMap.Keys) <= Total(su, AllAllocs(su))
  {
    assert forall n :: n in s.allocMap ==> IsAlloc(su, n);
    SumMonotone(su.weights, su.count, s.allocMap.Keys, AllAllocs(su));
  }

  // ----- steps -----

  lemma PopKeeps(su: Setup, s: AllocState, n: nat)
    requires Inv(su, s, {}) && n in s.queue
    ensures Inv(su, s.(queue := s.queue - multiset{n}), {n})
    ensures IsAlloc(su, n) && n !in s.allocMap && n in s.status && su.operandOf[n] !in s.slotOf
        && LoopStatus(s.status[n])
  {
    hide ValidSetup, OccupiedExact, StoredRangesExact, Safe;
    var queue := s.queue - multiset{n};
    assert InOnePlace(s.queue, s.allocMap, s.slotOf, {}, n, su.operandOf[n]);
    forall k: nat | IsAlloc(su, k) ensures InOnePlace(queue, s.allocMap, s.slotOf, {n}, k, su.operandOf[k]) {
      assert InOnePlace(s.queue, s.allocMap, s.slotOf, {}, k, su.operandOf[k]);
    }
  }

  /** The alloc in hand goes back to the queue with a lower status. */
  lemma RequeueKeeps(su: Setup, s: AllocState, n: nat, st: AllocStatus)
    requires Inv(su, s, {n}) && (st.Split? || st.Spill?)
    ensures Inv(su, s.(status := s.status[n := st], queue := s.queue + multiset{n}), {})
  {
    hide *;
    InvFacts(su, s, {n});
    RequeuePartition(su, s.queue, s.allocMap, s.slotOf, n);
    RequeueStatuses(su, s.queue, s.allocMap, s.slotOf, s.status, n, st);
    InvHolds(su, s.(status := s.status[n := st], queue := s.queue + multiset{n}), {});
  }

  lemma RequeuePartition(su: Setup, queue: multiset<nat>, allocMap: map<nat, Register>, slotOf: map<Operand, nat>,
                         n: nat)
    requires Partition(su, queue, allocMap, slotOf, {n})
    ensures Partition(su, queue + multiset{n}, allocMap, slotOf, {})
  {
    assert InOnePlace(queue, allocMap, slotOf, {n}, n, su.operandOf[n]);
    forall k: nat | IsAlloc(su, k) ensures InOnePlace(queue + multiset{n}, allocMap, slotOf, {}, k, su.operandOf[k]) {
      assert InOnePlace(queue, allocMap, slotOf, {n}, k, su.operandOf[k]);
    }
  }

  lemma RequeueStatuses(su: Setup, queue: multiset<nat>, allocMap: map<nat, Register>, slotOf: map<Operand, nat>,
                        status: map<nat, AllocStatus>, n: nat, st: AllocStatus)
    requires Partition(su, queue, allocMap, slotOf, {n}) && Statuses(su, allocMap, status) && (st.Split? || st.Spill?)
    ensures Statuses(su, allocMap, status[n := st])
  {
    assert InOnePlace(queue, allocMap, slotOf, {n}, n, su.operandOf[n]);
  }

  /** The alloc in hand goes to memory. */
  lemma SpillKeeps(su: Setup, s: AllocState, n: nat, offset: nat)
    requires Inv(su, s, {n}) && IsAlloc(su, n)
    ensures Inv(su, s.(slotOf := s.slotOf[su.operandOf[n] := offset]), {})
  {
    hide *;
    InvFacts(su, s, {n});
    SpillPartition(su, s.queue, s.allocMap, s.slotOf, n, offset);
    IsAllocFacts(su, n);
    InvHolds(su, s.(slotOf := s.slotOf[su.operandOf[n] := offset]), {});
  }

  lemma IsAllocFacts(su: Setup, n: nat)
    requires IsAlloc(su, n)
    ensures n in su.operandOf && n in su.rangesOf && n in su.weights
  {
  }

  lemma SpillPartition(su: Setup, queue: multiset<nat>, allocMap: map<nat, Register>, slotOf: map<Operand, nat>, n: nat,
                       offset: nat)
    requires ValidSetup(su) && Partition(su, queue, allocMap, slotOf, {n}) && IsAlloc(su, n)
    ensures Partition(su, queue, allocMap, slotOf[su.operandOf[n] := offset], {})
  {
    assert InOnePlace(queue, allocMap, slotOf, {n}, n, su.operandOf[n]);
    forall k: nat | IsAlloc(su, k) ensures InOnePlace(queue, allocMap, slotOf[su.operandOf[n] := offset], {}, k,
        su.operandOf[k]) {
      assert InOnePlace(queue, allocMap, slotOf, {n}, k, su.operandOf[k]);
    }
  }

  /** The alloc in hand conflicts with nothing in `r`. */
  ghost predicate Fits(su: Setup, allocMap: map<nat, Register>, n: nat, r: Register) {
    && r in su.registers && IsAlloc(su, n)
    && r.Float? == FloatOperand(su.operandOf[n])
    && !HardConflict(su, n, r)
    && forall x :: x in allocMap && allocMap[x] == r ==> !Interfere(RangeList(su, n), RangeList(su, x))
  }

  lemma PlacePartition(su: Setup, queue: multiset<nat>, allocMap: map<nat, Register>, slotOf: map<Operand, nat>, n: nat,
                       r: Register)
    requires Partition(su, queue, allocMap, slotOf, {n})
    ensures n !in allocMap && Partition(su, queue, allocMap[n := r], slotOf, {})
  {
    assert InOnePlace(queue, allocMap, slotOf, {n}, n, su.operandOf[n]);
    forall k: nat | IsAlloc(su, k) ensures InOnePlace(queue, allocMap[n := r], slotOf, {}, k, su.operandOf[k]) {
      assert InOnePlace(queue, allocMap, slotOf, {n}, k, su.operandOf[k]);
    }
  }

  lemma PlaceSafe(su: Setup, allocMap: map<nat, Register>, n: nat, r: Register)
    requires ValidSetup(su) && Safe(su, allocMap) && Fits(su, allocMap, n, r) && n !in allocMap
    requires forall x :: x in allocMap ==> IsAlloc(su, x)
    ensures Safe(su, allocMap[n := r])
  {
    hide HardConflict, ValidSetup;
    var after := allocMap[n := r];
    forall x, y | x in after && y in after && x != y && after[x] == after[y]
      ensures !Interfere(RangeList(su, x), RangeList(su, y))
    {
      if y == n { InterfereBothWays(su, x, n); }
    }
  }

  lemma InterfereBothWays(su: Setup, x: nat, y: nat)
    requires ValidSetup(su) && IsAlloc(su, x) && IsAlloc(su, y)
    ensures Interfere(RangeList(su, x), RangeList(su, y)) == Interfere(RangeList(su, y), RangeList(su, x))
  {
    SeparateInterfere(RangeList(su, x), RangeList(su, y));
    SeparateInterfere(RangeList(su, y), RangeList(su, x));
  }

  lemma SeparateInterfere(rs: seq<Range>, qs: seq<Range>)
    requires Separate(rs) && Separate(qs)
    ensures Interfere(rs, qs) ==> Interfere(qs, rs)
  {
    if r, q :| r in rs && q in qs && Conflict(r, q) {
      ConflictMeaning(r, q);
    }
  }

  lemma RangesProper(su: Setup, n: nat)
    requires ValidSetup(su) && IsAlloc(su, n)
    ensures RangeList(su, n) == su.rangesOf[n] && su.rangesOf[n] != [] && Separate(su.rangesOf[n])
  {
  }

  lemma PlaceRanges(su: Setup, allocMap: map<nat, Register>, ranges: map<Register, seq<AllocRange>>, n: nat,
                    r: Register, rs: seq<AllocRange>)
    requires StoredRangesExact(su, allocMap, ranges) && n !in allocMap && r in su.registers && r in ranges
    requires InOrder(rs) && forall e :: e in rs <==> e in ranges[r] || (e.alloc == n && e.range in RangeList(su, n))
    ensures StoredRangesExact(su, allocMap[n := r], ranges[r := rs])
  {
    hide RangeList;
    forall x | x in su.registers
      ensures x in ranges[r := rs] && StoredExactly(su, allocMap[n := r], x, ranges[r := rs][x])
    {
      assert StoredExactly(su, allocMap, x, ranges[x]);
      forall e ensures e in ranges[r := rs][x] <==>
          e.alloc in allocMap[n := r] && allocMap[n := r][e.alloc] == x
          && e.range in RangeList(su, e.alloc) {
        assert e in ranges[x] <==> e.alloc in allocMap && allocMap[e.alloc] == x && e.range in RangeList(su, e.alloc);
        assert e == AllocRange(e.range, e.alloc);
      }
    }
  }

  /** The alloc in hand is put into a register it fits. */
  lemma PlaceKeeps(su: Setup, s: AllocState, n: nat, r: Register, status: map<nat, AllocStatus>, rs: seq<AllocRange>)
    requires Inv(su, s, {n}) && Fits(su, s.allocMap, n, r) && n in s.status && (s.status[n].New? || s.status[n].Assign?)
    requires status == s.status || status == s.status[n := Assign]
    requires r in s.occupied && r in s.occupiedRanges
    requires InOrder(rs) && forall e :: e in rs <==>
        e in s.occupiedRanges[r]
        || (e.alloc == n && e.range in RangeList(su, n))
    ensures n !in s.allocMap
    ensures Inv(su, s.(allocMap := s.allocMap[n := r], status := status,
        occupied := s.occupied[r := s.occupied[r] + {n}],
                       occupiedRanges := s.occupiedRanges[r := rs]), {})
  {
    hide *;
    InvFacts(su, s, {n});
    PlacePartition(su, s.queue, s.allocMap, s.slotOf, n, r);
    PlaceSafe(su, s.allocMap, n, r);
    FitsFacts(su, s.allocMap, n, r);
    PlaceRanges(su, s.allocMap, s.occupiedRanges, n, r, rs);
    PlaceStatuses(su, s.allocMap, s.status, status, n, r);
    PlaceOccupied(su, s.allocMap, s.occupied, n, r);
    InvHolds(su, s.(allocMap := s.allocMap[n := r], status := status, occupied := s.occupied[r := s.occupied[r] + {n}],
                    occupiedRanges := s.occupiedRanges[r := rs]), {});
  }

  lemma InvFacts(su: Setup, s: AllocState, hand: set<nat>)
    requires Inv(su, s, hand)
    ensures ValidSetup(su) && Partition(su, s.queue, s.allocMap, s.slotOf, hand) && Statuses(su, s.allocMap, s.status)
    ensures OccupiedExact(su, s.allocMap, s.occupied) && StoredRangesExact(su, s.allocMap, s.occupiedRanges)
        && Safe(su, s.allocMap)
    ensures forall x :: x in s.allocMap ==> IsAlloc(su, x) && s.allocMap[x] in su.registers
    ensures forall n: nat :: IsAlloc(su, n) ==> n in s.status
    ensures forall r :: r in su.registers ==> r in s.occupied && r in s.occupiedRanges
  {
  }

  lemma InvHolds(su: Setup, s: AllocState, hand: set<nat>)
    requires ValidSetup(su) && Partition(su, s.queue, s.allocMap, s.slotOf, hand) && Statuses(su, s.allocMap, s.status)
    requires OccupiedExact(su, s.allocMap, s.occupied) && StoredRangesExact(su, s.allocMap, s.occupiedRanges)
        && Safe(su, s.allocMap)
    ensures Inv(su, s, hand)
  {
  }

  lemma FitsFacts(su: Setup, allocMap: map<nat, Register>, n: nat, r: Register)
    requires Fits(su, allocMap, n, r)
    ensures r in su.registers && IsAlloc(su, n)
  {
  }

  lemma PlaceStatuses(su: Setup, allocMap: map<nat, Register>, before: map<nat, AllocStatus>,
                      after: map<nat, AllocStatus>, n: nat, r: Register)
    requires Statuses(su, allocMap, before) && n in before && (before[n].New? || before[n].Assign?)
    requires after == before || after == before[n := Assign]
    ensures Statuses(su, allocMap[n := r], after)
  {
  }

  lemma PlaceOccupied(su: Setup, allocMap: map<nat, Register>, occupied: map<Register, set<nat>>, n: nat, r: Register)
    requires OccupiedExact(su, allocMap, occupied) && n !in allocMap && r in su.registers && r in occupied
    ensures OccupiedExact(su, allocMap[n := r], occupied[r := occupied[r] + {n}])
  {
  }

  lemma EvictOthers(su: Setup, allocMap: map<nat, Register>, status: map<nat, AllocStatus>,
                    occupied: map<Register, set<nat>>, v: nat, r: Register)
    requires Statuses(su, allocMap, status) && OccupiedExact(su, allocMap, occupied) && Safe(su, allocMap)
    requires v in allocMap && allocMap[v] == r && r in occupied
    ensures Statuses(su, allocMap - {v}, status) && OccupiedExact(su, allocMap - {v}, occupied[r := occupied[r] - {v}])
    ensures Safe(su, allocMap - {v})
  {
    hide HardConflict;
  }

  lemma EvictPartition(su: Setup, queue: multiset<nat>, allocMap: map<nat, Register>, slotOf: map<Operand, nat>,
                       hand: set<nat>, v: nat)
    requires Partition(su, queue, allocMap, slotOf, hand) && v in allocMap
    ensures Partition(su, queue + multiset{v}, allocMap - {v}, slotOf, hand)
  {
    forall k: nat | IsAlloc(su, k) ensures InOnePlace(queue + multiset{v}, allocMap - {v}, slotOf, hand, k,
        su.operandOf[k]) {
      assert InOnePlace(queue, allocMap, slotOf, hand, k, su.operandOf[k]);
    }
  }

  lemma {:induction false} WithoutAllKeepsOrder(rs: seq<AllocRange>, v: nat)
    requires InOrder(rs)
    ensures InOrder(WithoutAll(rs, v))
    ensures forall e :: e in WithoutAll(rs, v) <==> e in rs && e.alloc != v
  {
    if rs != [] {
      WithoutAllKeepsOrder(rs[1..], v);
      var t := WithoutAll(rs, v);
      assert rs == [rs[0]] + rs[1..];
      if rs[0].alloc != v {
        forall i, j | 0 <= i < j < |t| ensures Precedes(t[i].range, t[j].range) {
          if i == 0 {
            assert t[j] in rs[1..];
          }
        }
      }
    }
  }

  lemma EvictRanges(su: Setup, allocMap: map<nat, Register>, ranges: map<Register, seq<AllocRange>>, v: nat,
                    r: Register)
    requires StoredRangesExact(su, allocMap, ranges) && r in su.registers && r in ranges && v in allocMap
        && allocMap[v] == r
    ensures StoredRangesExact(su, allocMap - {v}, ranges[r := WithoutAll(ranges[r], v)])
  {
    hide RangeList, WithoutAll;
    assert StoredExactly(su, allocMap, r, ranges[r]);
    WithoutAllKeepsOrder(ranges[r], v);
    var after := ranges[r := WithoutAll(ranges[r], v)];
    forall x | x in su.registers ensures x in after && StoredExactly(su, allocMap - {v}, x, after[x]) {
      assert StoredExactly(su, allocMap, x, ranges[x]);
    }
  }

  /** One victim leaves its register: all its ranges are erased and it is queued again. */
  lemma EvictKeeps(su: Setup, s: AllocState, hand: set<nat>, v: nat, r: Register)
    requires Inv(su, s, hand) && v in s.allocMap && s.allocMap[v] == r && r in s.occupied && r in s.occupiedRanges
    ensures Inv(su, s.(allocMap := s.allocMap - {v}, queue := s.queue + multiset{v},
        occupied := s.occupied[r := s.occupied[r] - {v}],
                       occupiedRanges := s.occupiedRanges[r := WithoutAll(s.occupiedRanges[r], v)]), hand)
  {
    hide *;
    InvFacts(su, s, hand);
    EvictPartition(su, s.queue, s.allocMap, s.slotOf, hand, v);
    EvictRanges(su, s.allocMap, s.occupiedRanges, v, r);
    EvictOthers(su, s.allocMap, s.status, s.occupied, v, r);
    InvHolds(su, s.(allocMap := s.allocMap - {v}, queue := s.queue + multiset{v},
        occupied := s.occupied[r := s.occupied[r] - {v}],
                    occupiedRanges := s.occupiedRanges[r := WithoutAll(s.occupiedRanges[r], v)]), hand);
  }

  /** The state after an eviction that erases only the first stored range of the victim. */
  function AfterEviction(s: AllocState, v: nat, r: Register): AllocState
    requires r in s.occupied && r in s.occupiedRanges
  {
    s.(allocMap := s.allocMap - {v}, queue := s.queue + multiset{v}, occupied := s.occupied[r := s.occupied[r] - {v}],
       occupiedRanges := s.occupiedRanges[r := WithoutFirst(s.occupiedRanges[r], v)])
  }

  /** ... after several have been evicted, one after the other. */
  function AfterEvictions(s: AllocState, order: seq<nat>, r: Register): (t: AllocState)
    requires r in s.occupied && r in s.occupiedRanges
    ensures r in t.occupied && r in t.occupiedRanges
  {
    if order == [] then s else AfterEviction(AfterEvictions(s, order[..|order| - 1], r), order[|order| - 1], r)
  }

  /** Each of the set once. */
  ghost predicate Lists(order: seq<nat>, xs: set<nat>) {
    && (forall i, j :: 0 <= i < j < |order| ==> order[i] != order[j])
    && (forall v :: v in order <==> v in xs)
  }

  /** The state after an alloc has been entered into a register, with as many of its ranges as the set takes. */
  function AfterPlacing(su: Setup, s: AllocState, n: nat, r: Register): AllocState
    requires r in s.occupied && r in s.occupiedRanges
  {
    var own := RangeList(su, n);
    s.(allocMap := s.allocMap[n := r], occupied := s.occupied[r := s.occupied[r] + {n}],
       occupiedRanges := s.occupiedRanges[r := InsertedAll(s.occupiedRanges[r], own, n, |own|)])
  }

  /** As coded, evicting an alloc keeps the invariant if and only if the alloc has one range: of any
      further one an entry stays behind in the register. */
  lemma EvictionKeepsIff(su: Setup, s: AllocState, hand: set<nat>, v: nat, r: Register)
    requires Inv(su, s, hand) && v in s.allocMap && s.allocMap[v] == r && r in s.occupied && r in s.occupiedRanges
    ensures Inv(su, AfterEviction(s, v, r), hand) <==> |RangeList(su, v)| == 1
  {
    hide *;
    InvFacts(su, s, hand);
    StoredCount(su, s.allocMap, s.occupiedRanges, v, r);
    EvictionCompleteIff(s.occupiedRanges[r], v);
    EvictKeeps(su, s, hand, v, r);
    AfterEvictionIs(s, v, r);
    if |RangeList(su, v)| != 1 && Inv(su, AfterEviction(s, v, r), hand) {
      EntryLeft(WithoutFirst(s.occupiedRanges[r], v), v);
      NoEntryOfEvicted(su, AfterEviction(s, v, r), hand, v, r);
    }
  }

  lemma AfterEvictionIs(s: AllocState, v: nat, r: Register)
    requires r in s.occupied && r in s.occupiedRanges
    ensures AfterEviction(s, v, r) == s.(allocMap := s.allocMap - {v}, queue := s.queue + multiset{v},
        occupied := s.occupied[r := s.occupied[r] - {v}],
                                         occupiedRanges := s.occupiedRanges[r := WithoutFirst(s.occupiedRanges[r], v)])
  {
  }

  lemma NoEntryOfEvicted(su: Setup, s: AllocState, hand: set<nat>, v: nat, r: Register)
    requires Inv(su, s, hand) && v !in s.allocMap && r in su.registers
    ensures r in s.occupiedRanges && forall e :: e in s.occupiedRanges[r] ==> e.alloc != v
  {
    hide ValidSetup, Partition, Statuses, OccupiedExact, Safe, RangeList;
    assert StoredExactly(su, s.allocMap, r, s.occupiedRanges[r]);
  }

  lemma {:induction false} EntryLeft(rs: seq<AllocRange>, v: nat)
    requires Stored(rs, v) > 0
    ensures exists e :: e in rs && e.alloc == v
  {
    if rs[0].alloc == v {
      assert rs[0] in rs;
    } else {
      EntryLeft(rs[1..], v);
      var e :| e in rs[1..] && e.alloc == v;
      assert e in rs;
    }
  }

  /** A register stores as many entries of an alloc as the alloc has ranges. */
  lemma StoredCount(su: Setup, allocMap: map<nat, Register>, ranges: map<Register, seq<AllocRange>>, v: nat,
                    r: Register)
    requires ValidSetup(su) && StoredRangesExact(su, allocMap, ranges) && r in su.registers && r in ranges
    requires v in allocMap && allocMap[v] == r && IsAlloc(su, v)
    ensures Stored(ranges[r], v) == |RangeList(su, v)| && |RangeList(su, v)| > 0
  {
    assert StoredExactly(su, allocMap, r, ranges[r]);
    RangesProper(su, v);
    var rs, own := ranges[r], RangeList(su, v);
    hide ValidSetup, StoredRangesExact, RangeList;
    StoredAsRanges(rs, v);
    EntriesDistinct(rs);
    forall q ensures q in own <==> q in RangesStored(rs, v) {
      assert AllocRange(q, v) in rs <==> q in own;
      InRangesStored(rs, v, q);
    }
    SeparateDistinct(own);
    SameSetSameSize(own, RangesStored(rs, v));
  }

  function RangesStored(rs: seq<AllocRange>, v: nat): seq<Range> {
    if rs == [] then [] else (if rs[0].alloc == v then [rs[0].range] else []) + RangesStored(rs[1..], v)
  }

  lemma {:induction false} StoredAsRanges(rs: seq<AllocRange>, v: nat)
    ensures |RangesStored(rs, v)| == Stored(rs, v)
  {
    if rs != [] {
      StoredAsRanges(rs[1..], v);
    }
  }

  lemma {:induction false} InRangesStored(rs: seq<AllocRange>, v: nat, q: Range)
    ensures q in RangesStored(rs, v) <==> AllocRange(q, v) in rs
  {
    if rs != [] {
      InRangesStored(rs[1..], v, q);
      assert rs == [rs[0]] + rs[1..];
    }
  }

  predicate Distinct(rs: seq<Range>) {
    forall i, j :: 0 <= i < j < |rs| ==> rs[i] != rs[j]
  }

  lemma {:induction false} EntriesDistinct(rs: seq<AllocRange>)
    requires InOrder(rs)
    ensures forall v :: Distinct(RangesStored(rs, v))
  {
    if rs != [] {
      EntriesDistinct(rs[1..]);
      forall v ensures Distinct(RangesStored(rs, v)) {
        InRangesStored(rs[1..], v, rs[0].range);
        forall e | e in rs[1..] ensures e.range != rs[0].range {
          var i :| 0 <= i < |rs[1..]| && rs[1..][i] == e;
          assert Precedes(rs[0].range, rs[i + 1].range);
        }
      }
    }
  }

  lemma SeparateDistinct(rs: seq<Range>)
    requires Separate(rs)
    ensures Distinct(rs)
  {
  }

  lemma {:induction false} SameSetSameSize(rs: seq<Range>, qs: seq<Range>)
    requires Distinct(rs) && Distinct(qs) && forall r :: r in rs <==> r in qs
    ensures |rs| == |qs|
  {
    DistinctSize(rs);
    DistinctSize(qs);
    assert (set r | r in rs) == (set r | r in qs);
  }

  lemma {:induction false} DistinctSize(rs: seq<Range>)
    requires Distinct(rs)
    ensures |set r | r in rs| == |rs|
  {
    if rs != [] {
      DistinctSize(rs[1..]);
      assert rs == [rs[0]] + rs[1..];
      assert (set r | r in rs) == {rs[0]} + set r | r in rs[1..];
      assert rs[0] !in rs[1..];
    }
  }

  // ----- what the scan of one register finds -----

  /** The allocs in `r` that conflict with `n`. */
  ghost predicate ConflictsOf(su: Setup, allocMap: map<nat, Register>, n: nat, r: Register, found: set<nat>) {
    forall x :: x in found <==> x in allocMap && allocMap[x] == r && Interfere(RangeList(su, n), RangeList(su, x))
  }

  lemma SeparateApart(rs: seq<Range>, r: Range, q: Range)
    requires Separate(rs) && r in rs && q in rs && r != q
    ensures !Conflict(r, q)
  {
    var i :| 0 <= i < |rs| && rs[i] == r;
    var j :| 0 <= j < |rs| && rs[j] == q;
    assert i < j || j < i;
  }

  lemma StoredEntry(su: Setup, allocMap: map<nat, Register>, r: Register, rs: seq<AllocRange>, i: nat)
    requires ValidSetup(su) && StoredExactly(su, allocMap, r, rs) && (forall x :: x in allocMap ==> IsAlloc(su, x))
        && i < |rs|
    ensures rs[i].alloc in allocMap && allocMap[rs[i].alloc] == r && IsAlloc(su, rs[i].alloc)
    ensures rs[i].range in RangeList(su, rs[i].alloc) && Separate(RangeList(su, rs[i].alloc))
        && rs[i].range.begin <= rs[i].range.end
  {
    hide RangeList;
    assert rs[i] in rs;
    RangesProper(su, rs[i].alloc);
  }

  lemma StoredDisjoint(su: Setup, allocMap: map<nat, Register>, r: Register, rs: seq<AllocRange>)
    requires ValidSetup(su) && Safe(su, allocMap) && StoredExactly(su, allocMap, r, rs)
        && (forall x :: x in allocMap ==> IsAlloc(su, x))
    ensures Disjoint(rs) && ProperRanges(rs)
  {
    hide HardConflict, RangeList;
    forall i | 0 <= i < |rs| ensures rs[i].range.begin <= rs[i].range.end {
      StoredEntry(su, allocMap, r, rs, i);
    }
    forall i, j | 0 <= i < |rs| && 0 <= j < |rs| && i != j ensures !Conflict(rs[i].range, rs[j].range) {
      StoredEntry(su, allocMap, r, rs, i);
      StoredEntry(su, allocMap, r, rs, j);
      assert i < j || j < i;
      assert rs[i].range != rs[j].range;
      if rs[i].alloc == rs[j].alloc {
        SeparateApart(RangeList(su, rs[i].alloc), rs[i].range, rs[j].range);
      } else {
        assert !Interfere(RangeList(su, rs[i].alloc), RangeList(su, rs[j].alloc));
      }
    }
  }

  lemma SeparateScans(rs: seq<Range>)
    requires Separate(rs) && rs != []
    ensures SortedFrom(rs) && !HiddenRange(rs)
  {
  }

  /** The short scan finds exactly the conflicting allocs. */
  lemma ScanFindsConflicts(su: Setup, s: AllocState, hand: set<nat>, n: nat, r: Register)
    requires Inv(su, s, hand) && IsAlloc(su, n) && r in su.registers
    ensures r in s.occupiedRanges && InOrder(s.occupiedRanges[r]) && su.rangesOf[n] != []
    ensures ConflictsOf(su, s.allocMap, n, r, ScanAfter(s.occupiedRanges[r], su.rangesOf[n],
        Start(s.occupiedRanges[r], su.rangesOf[n][0])))
  {
    var rs, ns := s.occupiedRanges[r], su.rangesOf[n];
    assert StoredExactly(su, s.allocMap, r, rs);
    assert forall x :: x in s.allocMap ==> IsAlloc(su, x);
    StoredDisjoint(su, s.allocMap, r, rs);
    RangesProper(su, n);
    SeparateScans(ns);
    hide ValidSetup, Safe, RangeList;
    ShortScanFindsAll(rs, ns);
    FullScanConflicts(su, s.allocMap, n, r, rs);
  }

  lemma FullScanConflicts(su: Setup, allocMap: map<nat, Register>, n: nat, r: Register, rs: seq<AllocRange>)
    requires StoredExactly(su, allocMap, r, rs)
    ensures ConflictsOf(su, allocMap, n, r, FullScan(rs, RangeList(su, n)))
  {
    var ns := RangeList(su, n);
    hide RangeList;
    forall x | x in allocMap && allocMap[x] == r && Interfere(ns, RangeList(su, x)) ensures x in FullScan(rs, ns) {
      var a, q :| a in ns && q in RangeList(su, x) && Conflict(a, q);
      var e := AllocRange(q, x);
      assert e in rs;
      var i :| 0 <= i < |rs| && rs[i] == e;
      var k :| 0 <= k < |ns| && ns[k] == a;
      assert ConflictsWith(ns, rs[i].range);
    }
    forall x | x in FullScan(rs, ns) ensures x in allocMap && allocMap[x] == r && Interfere(ns, RangeList(su, x)) {
      var i :| 0 <= i < |rs| && ConflictsWith(ns, rs[i].range) && rs[i].alloc == x;
      assert rs[i] in rs;
      var k :| 0 <= k < |ns| && Conflict(ns[k], rs[i].range);
      assert ns[k] in ns;
    }
  }

  // ----- every step makes progress -----

  /** An alloc stops being allocatable, or stops waiting to spill, or weight moves into registers, or
      the queue gets shorter. */
  ghost predicate Progress(su: Setup, s: AllocState, t: AllocState) {
    || Allocatable(su, t) < Allocatable(su, s)
    || (Allocatable(su, t) == Allocatable(su, s)
        && (|| Unspilled(su, t) < Unspilled(su, s)
            || (Unspilled(su, t) == Unspilled(su, s)
                && (|| Slack(su, t) < Slack(su, s)
                    || (Slack(su, t) == Slack(su, s) && |t.queue| < |s.queue|)))))
  }

  lemma SameRanks(su: Setup, s: AllocState, t: AllocState, n: nat)
    requires n in s.status && (s.status[n].New? || s.status[n].Assign?)
    requires t.status == s.status || t.status == s.status[n := Assign]
    ensures Allocatable(su, t) == Allocatable(su, s) && Unspilled(su, t) == Unspilled(su, s)
  {
  }

  lemma SlackFalls(su: Setup, s: AllocState, t: AllocState, n: nat, r: Register, victims: set<nat>)
    requires Inv(su, s, {}) && Inv(su, t, {}) && IsAlloc(su, n) && n !in s.allocMap && victims <= s.allocMap.Keys
    requires t.allocMap == (s.allocMap - victims)[n := r]
    ensures Total(su, victims) <= su.weights[n] ==> Slack(su, t) <= Slack(su, s)
    ensures Total(su, victims) < su.weights[n] ==> Slack(su, t) < Slack(su, s)
  {
    hide Total, Partition, Statuses, OccupiedExact, StoredRangesExact, Safe, AllAllocs;
    assert t.allocMap.Keys == s.allocMap.Keys - victims + {n};
    TotalAdds(su, s.allocMap.Keys - victims, n);
    TotalRemoves(su, s.allocMap.Keys, victims);
    AssignedWithinAll(su, t, {});
    AssignedWithinAll(su, s, {});
  }

  lemma {:induction false} SumNone(weights: map<nat, nat>, k: nat)
    ensures SumUpTo(weights, k, {}) == 0
  {
    if k > 0 {
      SumNone(weights, k - 1);
    }
  }

  lemma PlaceProgress(su: Setup, s: AllocState, t: AllocState, n: nat, r: Register)
    requires Inv(su, s, {}) && Inv(su, t, {}) && n in s.queue && IsAlloc(su, n) && n !in s.allocMap
    requires n in s.status && (s.status[n].New? || s.status[n].Assign?)
    requires t.allocMap == s.allocMap[n := r] && t.queue == s.queue - multiset{n} && t.status == s.status[n := Assign]
    ensures Progress(su, s, t)
  {
    hide *;
    SameRanks(su, s, t, n);
    TotalNone(su);
    IsAllocFacts(su, n);
    var weight: nat := su.weights[n];
    assert s.allocMap - {} == s.allocMap;
    SlackFalls(su, s, t, n, r, {});
    assert |s.queue| == |t.queue| + 1;
    LessIsProgress(su, s, t);
  }

  lemma TotalNone(su: Setup)
    ensures Total(su, {}) == 0
  {
    SumNone(su.weights, su.count);
  }

  lemma LessIsProgress(su: Setup, s: AllocState, t: AllocState)
    requires Allocatable(su, t) == Allocatable(su, s) && Unspilled(su, t) == Unspilled(su, s)
    requires Slack(su, t) < Slack(su, s) || (Slack(su, t) <= Slack(su, s) && |t.queue| < |s.queue|)
    ensures Progress(su, s, t)
  {
    hide Allocatable, Unspilled, Slack;
  }

  lemma SplitProgress(su: Setup, s: AllocState, t: AllocState, n: nat)
    requires IsAlloc(su, n) && n in s.status && (s.status[n].New? || s.status[n].Assign?)
    requires t.status == s.status[n := Split]
    ensures Progress(su, s, t)
  {
    hide Unspilled, Slack;
    assert n in Allocatable(su, s) && n !in Allocatable(su, t);
  }

  lemma SpillStatusProgress(su: Setup, s: AllocState, t: AllocState, n: nat)
    requires IsAlloc(su, n) && n in s.status && s.status[n].Split?
    requires t.status == s.status[n := Spill]
    ensures Progress(su, s, t)
  {
    hide Slack;
    assert Allocatable(su, t) == Allocatable(su, s);
    assert n in Unspilled(su, s) && n !in Unspilled(su, t);
  }

  lemma QueueProgress(su: Setup, s: AllocState, t: AllocState, n: nat)
    requires n in s.queue && t.queue == s.queue - multiset{n} && t.status == s.status && t.allocMap == s.allocMap
    ensures Progress(su, s, t)
  {
    assert |s.queue| == |t.queue| + 1;
    assert Allocatable(su, t) == Allocatable(su, s);
    assert Unspilled(su, t) == Unspilled(su, s);
  }

  lemma EvictProgress(su: Setup, s: AllocState, t: AllocState, n: nat, r: Register, victims: set<nat>)
    requires Inv(su, s, {}) && Inv(su, t, {}) && IsAlloc(su, n) && n !in s.allocMap && victims <= s.allocMap.Keys
    requires n in s.status && (s.status[n].New? || s.status[n].Assign?)
    requires t.allocMap == (s.allocMap - victims)[n := r] && t.status == s.status
    requires Total(su, victims) < su.weights[n]
    ensures Progress(su, s, t)
  {
    SameRanks(su, s, t, n);
    SlackFalls(su, s, t, n, r, victims);
    hide Inv, Allocatable, Unspilled, Slack;
  }
}
