/**
 * Array initialisers after normalisation: the tree that both the local and the
 * global translation read, its row-major meaning, and the words that the
 * global translation puts into the data section.
 *
 * Sizes are counted in 32-bit words; an array type is the sequence of its
 * dimensions, outermost first, over a scalar element.
 */
module Initialisers {

  /** A scalar initialiser: a constant, or an expression known by an identity. */
  datatype Leaf = Constant(value: int) | Computed(id: nat)

  /** A normalised initialiser; every list node carries its own array type. */
  datatype Init =
    | Value(leaf: Leaf)
    | List(dims: seq<nat>, elements: seq<Init>)
    | Zero(dims: seq<nat>)

  ghost function Size(dims: seq<nat>): nat {
    if dims == [] then 1 else dims[0] * Size(dims[1..])
  }

  ghost predicate Positive(dims: seq<nat>) {
    forall i :: 0 <= i < |dims| ==> dims[i] > 0
  }

  ghost predicate HasShape(t: Init, dims: seq<nat>)
    decreases |dims|
  {
    match t
    case Value(_) => dims == []
    case Zero(own) => own == dims && dims != []
    case List(own, elements) =>
      && own == dims
      && dims != []
      && |elements| == dims[0]
      && forall i :: 0 <= i < |elements| ==> HasShape(elements[i], dims[1..])
  }

  ghost function Zeros(n: nat): (s: seq<Leaf>)
    ensures |s| == n
  {
    seq(n, _ => Constant(0))
  }

  /** The leaves depth first. */
  ghost function Flatten(t: Init): seq<Leaf> {
    match t
    case Value(leaf) => [leaf]
    case Zero(dims) => Zeros(Size(dims))
    case List(_, elements) => FlattenAll(elements)
  }

  ghost function FlattenAll(elements: seq<Init>): seq<Leaf> {
    if elements == [] then [] else Flatten(elements[0]) + FlattenAll(elements[1..])
  }

  lemma {:induction false} FlattenAllAppends(a: seq<Init>, b: seq<Init>)
    ensures FlattenAll(a + b) == FlattenAll(a) + FlattenAll(b)
    decreases |a|
  {
    if a == [] {
      assert a + b == b;
    } else {
      FlattenAllAppends(a[1..], b);
      assert (a + b)[1..] == a[1..] + b;
    }
  }

  lemma {:induction false} SizePositive(dims: seq<nat>)
    requires Positive(dims)
    ensures Size(dims) > 0
  {
    if dims != [] {
      SizePositive(dims[1..]);
      Times(dims[0], Size(dims[1..]));
    }
  }

  lemma Times(a: nat, b: nat)
    requires a > 0 && b > 0
    ensures a * b > 0
  {
  }

  /** A tree of a given shape has exactly as many leaves as the array has elements. */
  lemma {:induction false} ShapeFixesLength(t: Init, dims: seq<nat>)
    requires HasShape(t, dims)
    ensures |Flatten(t)| == Size(dims)
    decreases |dims|, 0
  {
    if t.List? {
      ShapesFixLength(t.elements, dims[1..]);
    }
  }

  lemma {:induction false} ShapesFixLength(elements: seq<Init>, dims: seq<nat>)
    requires forall i :: 0 <= i < |elements| ==> HasShape(elements[i], dims)
    ensures |FlattenAll(elements)| == |elements| * Size(dims)
    decreases |dims|, 1, |elements|
  {
    hide Size, HasShape, Flatten;
    if elements != [] {
      ShapeFixesLength(elements[0], dims);
      ShapesFixLength(elements[1..], dims);
      OneMore(|elements| - 1, Size(dims));
    }
  }

  // ---- Row-major order ----

  ghost predicate Indexes(dims: seq<nat>, index: seq<nat>) {
    |index| == |dims| && forall i :: 0 <= i < |dims| ==> index[i] < dims[i]
  }

  ghost function Offset(dims: seq<nat>, index: seq<nat>): nat
    requires |index| == |dims|
  {
    if dims == [] then 0 else index[0] * Size(dims[1..]) + Offset(dims[1..], index[1..])
  }

  /** The leaf found by following an index from the root of the tree. */
  ghost function At(t: Init, dims: seq<nat>, index: seq<nat>): Leaf
    requires HasShape(t, dims) && Indexes(dims, index)
    decreases |dims|
  {
    match t
    case Value(leaf) => leaf
    case Zero(_) => Constant(0)
    case List(_, elements) => At(elements[index[0]], dims[1..], index[1..])
  }

  lemma {:induction false} OffsetInside(dims: seq<nat>, index: seq<nat>)
    requires Indexes(dims, index)
    ensures Offset(dims, index) < Size(dims)
  {
    if dims != [] {
      OffsetInside(dims[1..], index[1..]);
      Room(index[0], dims[0], Size(dims[1..]));
    }
  }

  lemma Room(i: nat, n: nat, size: nat)
    requires i < n
    ensures i * size + size <= n * size
  {
    assert (i + 1) * size <= n * size;
  }

  lemma OneMore(k: nat, size: nat)
    ensures (k + 1) * size == k * size + size
  {
  }

  lemma {:induction false} FlattenAllAt(elements: seq<Init>, dims: seq<nat>, i: nat, k: nat)
    requires forall j :: 0 <= j < |elements| ==> HasShape(elements[j], dims)
    requires i < |elements| && k < Size(dims)
    ensures |Flatten(elements[i])| == Size(dims)
    ensures i * Size(dims) + k < |FlattenAll(elements)|
    ensures FlattenAll(elements)[i * Size(dims) + k] == Flatten(elements[i])[k]
    decreases |elements|
  {
    hide Size, HasShape, Flatten;
    ShapeFixesLength(elements[0], dims);
    ShapesFixLength(elements[1..], dims);
    if i > 0 {
      FlattenAllAt(elements[1..], dims, i - 1, k);
      OneMore(i - 1, Size(dims));
    }
  }

  /** Depth-first order is row-major order. */
  lemma {:induction false} FlattenIsRowMajor(t: Init, dims: seq<nat>, index: seq<nat>)
    requires HasShape(t, dims) && Indexes(dims, index)
    ensures |Flatten(t)| == Size(dims) && Offset(dims, index) < Size(dims)
    ensures Flatten(t)[Offset(dims, index)] == At(t, dims, index)
    decreases |dims|
  {
    ShapeFixesLength(t, dims);
    OffsetInside(dims, index);
    if t.List? {
      OffsetInside(dims[1..], index[1..]);
      FlattenIsRowMajor(t.elements[index[0]], dims[1..], index[1..]);
      FlattenAllAt(t.elements, dims[1..], index[0], Offset(dims[1..], index[1..]));
    }
  }

  // ---- Words ----

  const WORD_VALUES := 0x1_0000_0000

  /** The unsigned word with the bits of a signed 32-bit value. */
  function Bits(value: int): (word: nat)
    ensures word < 0x1_0000_0000 && (word - value) % 0x1_0000_0000 == 0
  {
    value % WORD_VALUES
  }

  /** What a leaf is worth when its expression evaluates as given. */
  function WordOf(leaf: Leaf, values: nat -> int): nat {
    match leaf
    case Constant(value) => Bits(value)
    case Computed(id) => Bits(values(id))
  }

  ghost function WordsOf(leaves: seq<Leaf>, values: nat -> int): (words: seq<nat>)
    ensures |words| == |leaves|
  {
    seq(|leaves|, (i: nat) requires i < |leaves| => WordOf(leaves[i], values))
  }

  // ---- The global translation ----

  /** A constant operand: a word, the all-zero aggregate, or a list of constants. */
  datatype ConstantValue =
    | Word(value: int)
    | ZeroInitializer(dims: seq<nat>)
    | Aggregate(items: seq<ConstantValue>)

  ghost predicate CompileTime(t: Init) {
    match t
    case Value(leaf) => leaf.Constant?
    case Zero(_) => true
    case List(_, elements) => forall i :: 0 <= i < |elements| ==> CompileTime(elements[i])
  }

  /** The constant of a compile-time initialiser; a list without elements is all zero. */
  function ConstantOf(t: Init): ConstantValue
    requires CompileTime(t)
  {
    match t
    case Value(leaf) => Word(leaf.value)
    case Zero(dims) => ZeroInitializer(dims)
    case List(dims, elements) =>
      if elements == [] then ZeroInitializer(dims)
      else Aggregate(seq(|elements|, i requires 0 <= i < |elements| => ConstantOf(elements[i])))
  }

  ghost function DataWords(c: ConstantValue): seq<nat> {
    match c
    case Word(value) => [Bits(value)]
    case ZeroInitializer(dims) => seq(Size(dims), _ => 0)
    case Aggregate(items) => AllDataWords(items)
  }

  ghost function AllDataWords(items: seq<ConstantValue>): seq<nat> {
    if items == [] then [] else DataWords(items[0]) + AllDataWords(items[1..])
  }

  lemma {:induction false} AllDataWordsAppends(a: seq<ConstantValue>, b: seq<ConstantValue>)
    ensures AllDataWords(a + b) == AllDataWords(a) + AllDataWords(b)
    decreases |a|
  {
    if a == [] {
      assert a + b == b;
    } else {
      AllDataWordsAppends(a[1..], b);
      assert (a + b)[1..] == a[1..] + b;
    }
  }

  method SizeInBits(dims: seq<nat>) returns (bits: nat)
    ensures bits == 32 * Size(dims)
  {
    if dims == [] {
      bits := 32;
    } else {
      var inner := SizeInBits(dims[1..]);
      bits := dims[0] * inner;
      Reassociate(dims[0], Size(dims[1..]));
    }
  }

  lemma Reassociate(a: nat, b: nat)
    ensures a * (32 * b) == 32 * (a * b)
  {
  }

  lemma {:induction false} WordsOfAppends(a: seq<Leaf>, b: seq<Leaf>, values: nat -> int)
    ensures WordsOf(a + b, values) == WordsOf(a, values) + WordsOf(b, values)
  {
    var left, right := WordsOf(a + b, values), WordsOf(a, values) + WordsOf(b, values);
    forall i | 0 <= i < |left| ensures left[i] == right[i] {
      assert (a + b)[i] == if i < |a| then a[i] else b[i - |a|];
    }
  }

  /** The data words of a constant tree are the words of its leaves in depth-first order. */
  lemma {:induction false} DataWordsAreLeaves(t: Init, dims: seq<nat>, values: nat -> int)
    requires HasShape(t, dims) && CompileTime(t)
    ensures DataWords(ConstantOf(t)) == WordsOf(Flatten(t), values)
    decreases |dims|, 0
  {
    match t
    case Value(_) =>
    case Zero(_) =>
    case List(_, elements) =>
      if elements == [] {
        ShapeFixesLength(t, dims);
        assert Flatten(t) == [];
      } else {
        AllDataWordsAreLeaves(elements, dims[1..], values);
      }
  }

  ghost function ConstantsOf(elements: seq<Init>): seq<ConstantValue>
    requires forall i :: 0 <= i < |elements| ==> CompileTime(elements[i])
  {
    seq(|elements|, i requires 0 <= i < |elements| => ConstantOf(elements[i]))
  }

  lemma {:induction false} AllDataWordsAreLeaves(elements: seq<Init>, dims: seq<nat>, values: nat -> int)
    requires forall i :: 0 <= i < |elements| ==> HasShape(elements[i], dims) && CompileTime(elements[i])
    ensures AllDataWords(ConstantsOf(elements)) == WordsOf(FlattenAll(elements), values)
    decreases |dims|, 1, |elements|
  {
    if elements != [] {
      DataWordsAreLeaves(elements[0], dims, values);
      AllDataWordsAreLeaves(elements[1..], dims, values);
      assert ConstantsOf(elements)[1..] == ConstantsOf(elements[1..]);
      WordsOfAppends(Flatten(elements[0]), FlattenAll(elements[1..]), values);
    }
  }

  /** What is recorded for a global: its words, or a number of zero bytes. */
  datatype Data = Words(words: seq<nat>) | ZeroBytes(bytes: nat)

  /** The bytes of a word, the lowest first. */
  function BytesOf(word: nat): seq<nat> {
    [word % 0x100, word / 0x100 % 0x100, word / 0x1_0000 % 0x100, word / 0x100_0000 % 0x100]
  }

  function AllBytes(words: seq<nat>): (bytes: seq<nat>)
    ensures |bytes| == 4 * |words|
  {
    if words == [] then [] else BytesOf(words[0]) + AllBytes(words[1..])
  }

  lemma {:induction false} ZeroWords(words: seq<nat>)
    requires forall i :: 0 <= i < |words| ==> words[i] == 0
    ensures forall i :: 0 <= i < 4 * |words| ==> AllBytes(words)[i] == 0
  {
    if words != [] {
      ZeroWords(words[1..]);
    }
  }

  /** What is in memory, byte for byte. */
  ghost function Image(data: Data): seq<nat> {
    match data
    case Words(words) => AllBytes(words)
    case ZeroBytes(bytes) => seq(bytes, _ => 0)
  }

  /** The words of one global, pushed while its initialiser is walked depth first. */
  class GlobalData {
    var asmValue: seq<nat>

    constructor ()
      ensures asmValue == []
    {
      asmValue := [];
    }

    method Push(item: ConstantValue)
      modifies this
      ensures asmValue == old(asmValue) + DataWords(item)
      decreases item
    {
      match item {
        case Word(value) =>
          asmValue := asmValue + [Bits(value)];
        case ZeroInitializer(dims) =>
          var bits := SizeInBits(dims);
          var zeroCount := bits / 32;
          for i := 0 to zeroCount
            invariant asmValue == old(asmValue) + seq(i, _ => 0)
          {
            asmValue := asmValue + [0];
          }
        case Aggregate(items) =>
          for i := 0 to |items|
            invariant asmValue == old(asmValue) + AllDataWords(items[..i])
          {
            Push(items[i]);
            assert items[..i + 1] == items[..i] + [items[i]];
            AllDataWordsAppends(items[..i], [items[i]]);
            assert AllDataWords([items[i]]) == DataWords(items[i]) by {
              assert [items[i]][1..] == [];
            }
          }
          assert items[..|items|] == items;
      }
    }

    method Record(init: ConstantValue) returns (data: Data)
      requires asmValue == []
      modifies this
      ensures Image(data) == AllBytes(DataWords(init))
    {
      match init {
        case Word(value) =>
          data := Words([Bits(value)]);
        case ZeroInitializer(dims) =>
          var bits := SizeInBits(dims);
          data := ZeroBytes(bits / 8);
          ZeroWords(DataWords(init));
          assert Image(data) == AllBytes(DataWords(init));
        case Aggregate(items) =>
          Push(init);
          assert asmValue == DataWords(init);
          data := Words(asmValue);
      }
    }
  }
}
