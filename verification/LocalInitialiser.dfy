/**
 * The code for a local array initialiser: a breadth-first queue of initialisers
 * drives one moving pointer, over an array that is zero-filled first when it is
 * an integer array of at least eight words.
 */
module LocalInitialiser {
  import opened Initialisers
  import InitialiserLists
  import InitialiserMeaning
  import Normalisation

  type Temp = nat

  /** The emitted instructions; sizes and indices are counted in words. */
  datatype Instruction =
    | Bitcast(dst: Temp, src: Temp)
    | ElementPointer(dst: Temp, src: Temp, index: nat)
    | FillZero(ptr: Temp, count: nat)
    | Store(leaf: Leaf, ptr: Temp)

  /** Pointers into the array under construction, and the words of that array. */
  datatype State = State(pointers: map<Temp, nat>, memory: seq<nat>)

  datatype Outcome = Fault | Running(state: State)

  function Fill(memory: seq<nat>, from: nat, count: nat): (r: seq<nat>)
    requires from + count <= |memory|
    ensures |r| == |memory|
    ensures forall i :: 0 <= i < |memory| ==> r[i] == if from <= i < from + count then 0 else memory[i]
  {
    memory[..from] + seq(count, _ => 0) + memory[from + count..]
  }

  /** One instruction; an access outside the array is a fault. */
  ghost function Step(i: Instruction, values: nat -> int, s: State): Outcome {
    match i
    case Bitcast(dst, src) =>
      if src in s.pointers then Running(s.(pointers := s.pointers[dst := s.pointers[src]])) else Fault
    case ElementPointer(dst, src, index) =>
      if src in s.pointers then Running(s.(pointers := s.pointers[dst := s.pointers[src] + index])) else Fault
    case FillZero(ptr, count) =>
      if ptr in s.pointers && s.pointers[ptr] + count <= |s.memory|
      then Running(s.(memory := Fill(s.memory, s.pointers[ptr], count)))
      else Fault
    case Store(leaf, ptr) =>
      if ptr in s.pointers && s.pointers[ptr] < |s.memory|
      then Running(s.(memory := s.memory[s.pointers[ptr] := WordOf(leaf, values)]))
      else Fault
  }

  ghost function Run(code: seq<Instruction>, values: nat -> int, s: State): Outcome {
    if code == [] then Running(s)
    else
      var before := Run(code[..|code| - 1], values, s);
      if before.Running? then Step(code[|code| - 1], values, before.state) else Fault
  }

  lemma RunOneMore(code: seq<Instruction>, i: Instruction, values: nat -> int, s: State)
    ensures Run(code + [i], values, s)
         == (var before := Run(code, values, s); if before.Running? then Step(i, values, before.state) else Fault)
  {
    assert (code + [i])[..|code|] == code;
  }

  ghost function Initial(base: Temp, memory: seq<nat>): State {
    State(map[base := 0], memory)
  }

  /** The array after `done` leaves: their words, then zeros or what was there before. */
  ghost function Image(done: seq<Leaf>, values: nat -> int, cleared: bool, before: seq<nat>): (r: seq<nat>)
    requires |done| <= |before|
    ensures |r| == |before|
  {
    WordsOf(done, values) + (if cleared then seq(|before| - |done|, _ => 0) else before[|done|..])
  }

  /** Whatever the array held and whatever the scalars evaluate to, the code so far leaves `done`
      at the front of the array and the pointer `ptr` at `offset`. */
  ghost predicate Reaches(code: seq<Instruction>, base: Temp, size: nat, ptr: Temp, offset: nat, done: seq<Leaf>,
                          cleared: bool) {
    && |done| <= size
    && forall values: nat -> int, before: seq<nat> | |before| == size ::
         ReachesFrom(Run(code, values, Initial(base, before)), ptr, offset, Image(done, values, cleared, before))
  }

  ghost predicate ReachesFrom(o: Outcome, ptr: Temp, offset: nat, image: seq<nat>) {
    o.Running? && ptr in o.state.pointers && o.state.pointers[ptr] == offset && o.state.memory == image
  }

  /** One pointer to a first element after the other, from `base` to `ptr`. */
  ghost predicate Descends(code: seq<Instruction>, base: Temp, ptr: Temp) {
    if code == [] then base == ptr
    else
      var last := code[|code| - 1];
      last.ElementPointer? && last.dst == ptr && last.index == 0 && Descends(code[..|code| - 1], base, last.src)
  }

  lemma DescendsOneMore(code: seq<Instruction>, base: Temp, ptr: Temp, next: Temp)
    requires Descends(code, base, ptr)
    ensures Descends(code + [ElementPointer(next, ptr, 0)], base, next)
  {
    var longer := code + [ElementPointer(next, ptr, 0)];
    assert longer[..|longer| - 1] == code;
  }

  lemma ReachesAtStart(base: Temp, size: nat)
    ensures Reaches([], base, size, base, 0, [], false)
  {
    forall values: nat -> int, before: seq<nat> | |before| == size
      ensures ReachesFrom(Run([], values, Initial(base, before)), base, 0, Image([], values, false, before))
    {
      assert before[0..] == before;
    }
  }

  lemma PointerMoves(code: seq<Instruction>, base: Temp, size: nat, ptr: Temp, offset: nat, done: seq<Leaf>,
                     cleared: bool, dst: Temp, index: nat)
    requires Reaches(code, base, size, ptr, offset, done, cleared)
    ensures Reaches(code + [ElementPointer(dst, ptr, index)], base, size, dst, offset + index, done, cleared)
  {
    forall values: nat -> int, before: seq<nat> | |before| == size
      ensures ReachesFrom(Run(code + [ElementPointer(dst, ptr, index)], values, Initial(base, before)), dst,
          offset + index, Image(done, values, cleared, before))
    {
      assert ReachesFrom(Run(code, values, Initial(base, before)), ptr, offset, Image(done, values, cleared, before));
      RunOneMore(code, ElementPointer(dst, ptr, index), values, Initial(base, before));
    }
  }

  lemma ClearingWorks(base: Temp, size: nat, copy: Temp)
    requires copy != base
    ensures Reaches([Bitcast(copy, base), FillZero(copy, size)], base, size, base, 0, [], true)
  {
    var code := [Bitcast(copy, base)];
    forall values: nat -> int, before: seq<nat> | |before| == size
      ensures ReachesFrom(Run([Bitcast(copy, base), FillZero(copy, size)], values, Initial(base, before)), base, 0,
          Image([], values, true, before))
    {
      RunOneMore([], Bitcast(copy, base), values, Initial(base, before));
      RunOneMore(code, FillZero(copy, size), values, Initial(base, before));
      assert [] + code == code;
      assert code + [FillZero(copy, size)] == [Bitcast(copy, base), FillZero(copy, size)];
      assert Fill(before, 0, size) == Image([], values, true, before);
    }
  }

  lemma StoreExtends(code: seq<Instruction>, base: Temp, size: nat, ptr: Temp, done: seq<Leaf>, cleared: bool,
                     leaf: Leaf)
    requires Reaches(code, base, size, ptr, |done|, done, cleared) && |done| < size
    ensures Reaches(code + [Store(leaf, ptr)], base, size, ptr, |done|, done + [leaf], cleared)
  {
    forall values: nat -> int, before: seq<nat> | |before| == size
      ensures ReachesFrom(Run(code + [Store(leaf, ptr)], values, Initial(base, before)), ptr, |done|,
          Image(done + [leaf], values, cleared, before))
    {
      assert ReachesFrom(Run(code, values, Initial(base, before)), ptr, |done|, Image(done, values, cleared, before));
      RunOneMore(code, Store(leaf, ptr), values, Initial(base, before));
      ImageExtends(done, leaf, values, cleared, before);
    }
  }

  lemma ImageExtends(done: seq<Leaf>, leaf: Leaf, values: nat -> int, cleared: bool, before: seq<nat>)
    requires |done| < |before|
    ensures Image(done, values, cleared, before)[|done| := WordOf(leaf, values)] == Image(done + [leaf], values,
        cleared, before)
  {
    WordsOfAppends(done, [leaf], values);
    assert WordsOf([leaf], values) == [WordOf(leaf, values)];
  }

  /** A zero needs no store in a cleared array. */
  lemma ZeroIsThere(code: seq<Instruction>, base: Temp, size: nat, ptr: Temp, offset: nat, done: seq<Leaf>)
    requires Reaches(code, base, size, ptr, offset, done, true) && |done| < size
    ensures Reaches(code, base, size, ptr, offset, done + [Constant(0)], true)
  {
    forall values: nat -> int, before: seq<nat> | |before| == size
      ensures ReachesFrom(Run(code, values, Initial(base, before)), ptr, offset,
          Image(done + [Constant(0)], values, true, before))
    {
      assert ReachesFrom(Run(code, values, Initial(base, before)), ptr, offset, Image(done, values, true, before));
      ImageExtends(done, Constant(0), values, true, before);
      assert Image(done, values, true, before)[|done|] == WordOf(Constant(0), values);
    }
  }

  /** The code stores the leaves of `leaves`, in order, over the whole array. */
  ghost predicate Initialises(code: seq<Instruction>, base: Temp, leaves: seq<Leaf>) {
    forall values: nat -> int, before: seq<nat> | |before| == |leaves| ::
      Leaves(Run(code, values, Initial(base, before)), WordsOf(leaves, values))
  }

  ghost predicate Leaves(o: Outcome, words: seq<nat>) {
    o.Running? && o.state.memory == words
  }

  lemma FullyDone(code: seq<Instruction>, base: Temp, size: nat, ptr: Temp, offset: nat, done: seq<Leaf>, cleared: bool)
    requires Reaches(code, base, size, ptr, offset, done, cleared) && |done| == size
    ensures Initialises(code, base, done)
  {
    forall values: nat -> int, before: seq<nat> | |before| == size
      ensures Leaves(Run(code, values, Initial(base, before)), WordsOf(done, values))
    {
      assert ReachesFrom(Run(code, values, Initial(base, before)), ptr, offset, Image(done, values, cleared, before));
    }
  }

  // ---- The queue ----

  /** The work left in an initialiser: every node of its full expansion. */
  ghost function Work(t: Init): (w: nat)
    ensures w > 0
  {
    match t
    case Value(_) => 1
    case Zero(dims) => ZeroWork(dims)
    case List(_, elements) => 1 + TotalWork(elements)
  }

  ghost function ZeroWork(dims: seq<nat>): (w: nat)
    ensures w > 0
  {
    if dims == [] then 1 else 1 + dims[0] * ZeroWork(dims[1..])
  }

  ghost function TotalWork(ts: seq<Init>): nat {
    if ts == [] then 0 else Work(ts[0]) + TotalWork(ts[1..])
  }

  lemma {:induction false} TotalWorkAppends(a: seq<Init>, b: seq<Init>)
    ensures TotalWork(a + b) == TotalWork(a) + TotalWork(b)
    decreases |a|
  {
    if a == [] {
      assert a + b == b;
    } else {
      TotalWorkAppends(a[1..], b);
      assert (a + b)[1..] == a[1..] + b;
    }
  }

  function ZeroOf(dims: seq<nat>): Init {
    if dims == [] then Value(Constant(0)) else Zero(dims)
  }

  ghost function Copies(n: nat, t: Init): seq<Init> {
    seq(n, _ => t)
  }

  /** The parts of an all-zero list are as many zeros and a little less work. */
  lemma {:induction false} CopiesOfZero(n: nat, dims: seq<nat>)
    ensures FlattenAll(Copies(n, ZeroOf(dims))) == Zeros(n * Size(dims))
    ensures TotalWork(Copies(n, ZeroOf(dims))) == n * ZeroWork(dims)
  {
    if n > 0 {
      CopiesOfZero(n - 1, dims);
      assert Copies(n, ZeroOf(dims))[1..] == Copies(n - 1, ZeroOf(dims));
      assert Flatten(ZeroOf(dims)) == Zeros(Size(dims));
      hide Size, ZeroWork;
      OneMore(n - 1, Size(dims));
      OneMore(n - 1, ZeroWork(dims));
      ZerosJoin(Size(dims), n - 1);
    } else {
      hide Size, ZeroWork;
      assert Zeros(0) == [] && Copies(0, ZeroOf(dims)) == [];
    }
  }

  lemma ZerosJoin(size: nat, n: nat)
    ensures Zeros(size) + Zeros(n * size) == Zeros((n + 1) * size)
  {
    OneMore(n, size);
  }

  ghost predicate AllHaveShape(ts: seq<Init>, dims: seq<nat>) {
    forall i :: 0 <= i < |ts| ==> HasShape(ts[i], dims)
  }

  /** The queue while trees of one level are being replaced by those of the next: `level` are still
      to be expanded, `below` were put behind them, and what `below` holds comes first in the array. */
  datatype Front = Front(level: seq<Init>, below: seq<Init>, dims: seq<nat>)

  ghost predicate Queued(queue: seq<Init>, f: Front, done: seq<Leaf>, all: seq<Leaf>) {
    && queue == f.level + f.below
    && AllHaveShape(f.level, f.dims)
    && Positive(f.dims)
    && (if f.dims == [] then f.below == [] else done == [] && AllHaveShape(f.below, f.dims[1..]))
    && (f.level == [] ==> f.below == [])
    && all == done + FlattenAll(f.below) + FlattenAll(f.level)
  }

  ghost function Advance(f: Front): Front
    requires f.dims != []
  {
    if f.level == [] then Front(f.below, [], f.dims[1..]) else f
  }

  /** The parts of a list, as the queue receives them. */
  ghost function Parts(t: Init): seq<Init>
    requires t.List? || (t.Zero? && t.dims != [])
  {
    if t.List? then t.elements else Copies(t.dims[0], ZeroOf(t.dims[1..]))
  }

  lemma PartsAreTheList(t: Init, dims: seq<nat>)
    requires HasShape(t, dims) && !t.Value?
    ensures dims != []
    ensures AllHaveShape(Parts(t), dims[1..])
    ensures FlattenAll(Parts(t)) == Flatten(t)
  {
    if t.Zero? {
      CopiesOfZero(t.dims[0], t.dims[1..]);
    }
  }

  lemma ExpandedList(t: Init, f: Front)
    requires f.level != [] && f.level[0] == t && !t.Value?
    requires AllHaveShape(f.level, f.dims) && Positive(f.dims)
    requires f.dims != [] ==> AllHaveShape(f.below, f.dims[1..])
    ensures f.dims != [] && (t.Zero? ==> t.dims != [])
    ensures AllHaveShape(f.below + Parts(t), f.dims[1..])
    ensures FlattenAll(f.below) + FlattenAll(f.level) == FlattenAll(f.below + Parts(t)) + FlattenAll(f.level[1..])
  {
    hide Size, Positive;
    assert HasShape(t, f.dims);
    PartsAreTheList(t, f.dims);
    FlattenAllAppends(f.below, Parts(t));
    assert FlattenAll(f.level) == Flatten(t) + FlattenAll(f.level[1..]);
  }

  lemma LevelStepsDown(queue: seq<Init>, f: Front, all: seq<Leaf>)
    requires queue == f.level + f.below && f.dims != []
    requires AllHaveShape(f.level, f.dims) && Positive(f.dims) && AllHaveShape(f.below, f.dims[1..])
    requires all == FlattenAll(f.below) + FlattenAll(f.level)
    ensures Queued(queue, Advance(f), [], all)
  {
    hide HasShape, Size;
    assert FlattenAll([]) == [];
    assert [] + f.below == f.below == f.below + [];
    var g := Advance(f);
    assert queue == g.level + g.below;
    assert all == [] + FlattenAll(g.below) + FlattenAll(g.level);
  }

  lemma ListIsExpanded(queue: seq<Init>, f: Front, done: seq<Leaf>, all: seq<Leaf>)
    requires Queued(queue, f, done, all) && queue != [] && !queue[0].Value?
    ensures f.dims != [] && f.level != [] && f.level[0] == queue[0]
    ensures Queued(queue[1..] + Parts(queue[0]), Advance(Front(f.level[1..], f.below + Parts(queue[0]), f.dims)), done,
        all)
    ensures TotalWork(queue[1..] + Parts(queue[0])) < TotalWork(queue)
  {
    hide HasShape, Size, Flatten, FlattenAll, Work, ZeroWork, Parts, Advance;
    var t := queue[0];
    assert f.level != [] && t == f.level[0];
    ExpandedList(t, f);
    var g := Front(f.level[1..], f.below + Parts(t), f.dims);
    assert queue[1..] + Parts(t) == g.level + g.below;
    LevelStepsDown(queue[1..] + Parts(t), g, all);
    PartsTakeLess(t);
    TotalWorkAppends(queue[1..], Parts(t));
  }

  lemma PartsTakeLess(t: Init)
    requires !t.Value?
    requires t.Zero? ==> t.dims != []
    ensures TotalWork(Parts(t)) < Work(t)
  {
    if t.Zero? {
      CopiesOfZero(t.dims[0], t.dims[1..]);
    }
  }

  lemma LeafIsTaken(queue: seq<Init>, f: Front, done: seq<Leaf>, all: seq<Leaf>)
    requires Queued(queue, f, done, all) && queue != [] && queue[0].Value?
    ensures f.dims == [] && f.level != [] && f.level[0] == queue[0]
    ensures Queued(queue[1..], Front(f.level[1..], [], f.dims), done + [queue[0].leaf], all)
    ensures |done| < |all|
    ensures TotalWork(queue[1..]) < TotalWork(queue)
  {
    assert f.level != [];
    assert f.level[0] == queue[0] && HasShape(queue[0], f.dims);
    assert queue[1..] == f.level[1..];
    assert FlattenAll([]) == [];
    assert FlattenAll(f.level) == [queue[0].leaf] + FlattenAll(f.level[1..]);
    assert done + [] + FlattenAll(f.level) == (done + [queue[0].leaf]) + [] + FlattenAll(f.level[1..]);
  }

  lemma QueueStarts(t: Init, dims: seq<nat>)
    requires HasShape(t, dims) && Positive(dims)
    ensures Queued([t], Front([t], [], dims), [], Flatten(t))
  {
    assert [t][1..] == [];
    assert FlattenAll([t]) == Flatten(t);
  }

  lemma QueueEmpty(f: Front, done: seq<Leaf>, all: seq<Leaf>)
    requires Queued([], f, done, all)
    ensures done == all
  {
    assert f.level == [] && f.below == [];
  }

  /** The part of the builder that the initialiser uses: the code it appends to and the next temporary. */
  class Builder {
    var code: seq<Instruction>
    var nextTemp: Temp

    constructor (base: Temp)
      ensures code == [] && nextTemp == base + 1
    {
      code := [];
      nextTemp := base + 1;
    }

    method FetchTemp() returns (t: Temp)
      modifies this`nextTemp
      ensures t == old(nextTemp) && nextTemp == t + 1
    {
      t := nextTemp;
      nextTemp := nextTemp + 1;
    }

    method AppendInstruction(i: Instruction)
      modifies this`code
      ensures code == old(code) + [i]
    {
      code := code + [i];
    }

    /** Zero-fills the array in front of its stores when it is a large integer array. */
    method Clear(base: Temp, dims: seq<nat>, isInteger: bool) returns (cleared: bool)
      requires code == [] && base < nextTemp
      modifies this
      ensures Reaches(code, base, Size(dims), base, 0, [], cleared)
      ensures cleared == (dims != [] && isInteger && Size(dims) >= 8)
    {
      cleared := false;
      ReachesAtStart(base, Size(dims));
      if dims != [] && isInteger {
        var bits := SizeInBits(dims);
        var arraySize := bits / 32;
        if arraySize >= 8 {
          var copy := FetchTemp();
          AppendInstruction(Bitcast(copy, base));
          AppendInstruction(FillZero(copy, arraySize));
          cleared := true;
          ClearingWorks(base, Size(dims), copy);
          assert code == [Bitcast(copy, base), FillZero(copy, Size(dims))];
        }
      }
    }

    /** Descends to the first scalar of the array, one pointer a dimension. */
    method Descend(base: Temp, dims: seq<nat>, ghost cleared: bool) returns (ptr: Temp)
      requires Reaches(code, base, Size(dims), base, 0, [], cleared)
      modifies this
      ensures Reaches(code, base, Size(dims), ptr, 0, [], cleared)
      ensures |code| == |old(code)| + |dims| && old(code) <= code && Descends(code[|old(code)|..], base, ptr)
    {
      ptr := base;
      var current := dims;
      while current != []
        invariant Reaches(code, base, Size(dims), ptr, 0, [], cleared)
        invariant |code| == |old(code)| + |dims| - |current| && old(code) <= code
        invariant Descends(code[|old(code)|..], base, ptr)
      {
        var next := FetchTemp();
        PointerMoves(code, base, Size(dims), ptr, 0, [], cleared, next, 0);
        ghost var before := code;
        AppendInstruction(ElementPointer(next, ptr, 0));
        DescendsOneMore(before[|old(code)|..], base, ptr, next);
        assert code[|old(code)|..] == before[|old(code)|..] + [ElementPointer(next, ptr, 0)];
        current := current[1..];
        ptr := next;
      }
    }

    /** What a list puts into the queue. */
    method PushParts(queue: seq<Init>, t: Init, ghost dims: seq<nat>) returns (r: seq<Init>)
      requires !t.Value? && HasShape(t, dims) && Positive(dims)
      ensures r == queue + Parts(t)
    {
      r := queue;
      match t {
        case Zero(own) =>
          var bits := SizeInBits(own);
          var elementBits := SizeInBits(own[1..]);
          SizePositive(own[1..]);
          LengthFromSizes(own[0], Size(own[1..]));
          var length := bits / elementBits;
          for i := 0 to length
            invariant r == queue + Copies(i, ZeroOf(own[1..]))
          {
            if own[1..] != [] {
              r := r + [Zero(own[1..])];
            } else {
              r := r + [Value(Constant(0))];
            }
          }
        case List(_, elements) =>
          for i := 0 to |elements|
            invariant r == queue + elements[..i]
          {
            r := r + [elements[i]];
          }
      }
    }

    /** One scalar: skipped when it is a zero in a cleared array, stored at the moving pointer otherwise. */
    method Place(leaf: Leaf, ptr: Temp, shift: nat, cleared: bool,
                 ghost base: Temp, ghost size: nat, ghost offset: nat, ghost done: seq<Leaf>)
      returns (ptr': Temp, shift': nat, ghost offset': nat)
      requires Reaches(code, base, size, ptr, offset, done, cleared) && |done| < size
      requires offset + shift == |done|
      modifies this
      ensures Reaches(code, base, size, ptr', offset', done + [leaf], cleared)
      ensures offset' + shift' == |done| + 1
      ensures !cleared ==> shift' == shift
      requires !cleared ==> shift == 0
    {
      ptr', shift', offset' := ptr, shift, offset;
      if cleared {
        if leaf.Constant? && leaf.value == 0 {
          shift' := shift + 1;
          ZeroIsThere(code, base, size, ptr, offset, done);
        } else {
          var next := FetchTemp();
          PointerMoves(code, base, size, ptr, offset, done, cleared, next, shift);
          AppendInstruction(ElementPointer(next, ptr, shift));
          shift' := 1;
          ptr' := next;
          StoreExtends(code, base, size, next, done, cleared, leaf);
          AppendInstruction(Store(leaf, ptr'));
          offset' := |done|;
        }
      } else {
        StoreExtends(code, base, size, ptr, done, cleared, leaf);
        AppendInstruction(Store(leaf, ptr));
        var next := FetchTemp();
        PointerMoves(code, base, size, ptr, offset, done + [leaf], cleared, next, 1);
        AppendInstruction(ElementPointer(next, ptr, 1));
        ptr' := next;
        offset' := offset + 1;
      }
    }

    /** The whole initialiser: afterwards the array holds the leaves of the tree depth first. */
    method Initialise(base: Temp, t: Init, dims: seq<nat>, isInteger: bool)
      requires code == [] && base < nextTemp
      requires HasShape(t, dims) && Positive(dims) && dims != []
      modifies this
      ensures Initialises(code, base, Flatten(t))
      ensures |Flatten(t)| == Size(dims)
    {
      hide *;
      var cleared := Clear(base, dims, isInteger);
      var ptr := Descend(base, dims, cleared);
      var queue := [t];
      var shift: nat := 0;
      ghost var f, done := Front([t], [], dims), [];
      ghost var offset: nat := 0;
      ShapeFixesLength(t, dims);
      QueueStarts(t, dims);
      while queue != []
        invariant Queued(queue, f, done, Flatten(t))
        invariant Reaches(code, base, Size(dims), ptr, offset, done, cleared)
        invariant offset + shift == |done|
        invariant !cleared ==> shift == 0
        decreases TotalWork(queue)
      {
        var first := queue[0];
        match first {
          case Value(leaf) =>
            LeafIsTaken(queue, f, done, Flatten(t));
            queue := queue[1..];
            ptr, shift, offset := Place(leaf, ptr, shift, cleared, base, Size(dims), offset, done);
            done := done + [leaf];
            f := Front(f.level[1..], [], f.dims);
          case _ =>
            ListIsExpanded(queue, f, done, Flatten(t));
            LevelFacts(queue, f, done, Flatten(t));
            ghost var g := Front(f.level[1..], f.below + Parts(first), f.dims);
            queue := PushParts(queue[1..], first, f.dims);
            f := Advance(g);
        }
      }
      QueueEmpty(f, done, Flatten(t));
      FullyDone(code, base, Size(dims), ptr, offset, done, cleared);
    }

    /** A local array declared with a list whose runs close holds, whatever was on the stack, the values
        written in the list and zeros in every other place. */
    method Declare(base: Temp, dims: seq<nat>, elements: seq<InitialiserLists.Written>, kind: InitialiserLists.Kind)
      requires code == [] && base < nextTemp
      requires dims != [] && Positive(dims)
      requires InitialiserMeaning.Legal(dims, elements, 0) && Normalisation.RunsClose(dims, elements, kind)
      modifies this
      ensures Initialises(code, base, InitialiserMeaning.Denoted(dims, elements, kind))
    {
      hide *;
      var t := InitialiserLists.SetValueType(dims, elements, kind);
      Normalisation.NormalisationFillsTheArray(dims, elements, kind);
      TypedFacts(dims, t, elements, kind);
      Initialise(base, t.value, dims, kind == InitialiserLists.Integer);
    }
  }

  lemma TypedFacts(dims: seq<nat>, t: InitialiserLists.Option<Init>, elements: seq<InitialiserLists.Written>,
                   kind: InitialiserLists.Kind)
    requires dims != []
    requires Normalisation.TypedRight(dims, t, InitialiserMeaning.Laid(dims, elements, 0, kind))
    ensures t.Some? && HasShape(t.value, dims)
    ensures Flatten(t.value) == InitialiserMeaning.Denoted(dims, elements, kind)
  {
  }

  lemma LevelFacts(queue: seq<Init>, f: Front, done: seq<Leaf>, all: seq<Leaf>)
    requires Queued(queue, f, done, all) && f.level != []
    ensures HasShape(f.level[0], f.dims) && Positive(f.dims)
  {
  }

  lemma LengthFromSizes(n: nat, size: nat)
    requires size > 0
    ensures (32 * (n * size)) / (32 * size) == n
  {
    assert 32 * (n * size) == n * (32 * size);
    DivideBack(n, 32 * size);
  }

  lemma DivideBack(n: nat, d: nat)
    requires d > 0
    ensures (n * d) / d == n
  {
    var product := n * d;
    QuotientIsUnique(n, product / d, d, product % d);
  }

  lemma QuotientIsUnique(n: int, q: int, d: nat, r: nat)
    requires n * d == q * d + r && r < d
    ensures n == q
  {
    assert (n - q) * d == r;
    if n > q {
      MultipleAtLeast(n - q, d);
    } else if n < q {
      MultipleAtLeast(q - n, d);
    }
  }

  lemma MultipleAtLeast(k: nat, d: nat)
    requires k > 0
    ensures k * d >= d
  {
  }

  /** A local array and a global one with the same compile-time initialiser hold the same words. */
  lemma LocalEqualsGlobal(code: seq<Instruction>, base: Temp, t: Init, dims: seq<nat>,
                          values: nat -> int, before: seq<nat>)
    requires HasShape(t, dims) && CompileTime(t) && |before| == Size(dims)
    requires Initialises(code, base, Flatten(t))
    ensures Leaves(Run(code, values, Initial(base, before)), DataWords(ConstantOf(t)))
  {
    ShapeFixesLength(t, dims);
    DataWordsAreLeaves(t, dims, values);
  }
}
