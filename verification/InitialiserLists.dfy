/**
 * Normalisation of a written initialiser list: nested braces and runs of scalars
 * become a tree that has exactly the shape of the declared array.
 */
module InitialiserLists {
  import opened Initialisers

  datatype Kind = Integer | Float

  /** An initialiser as written. `cast` is what a conversion to the other scalar kind makes of the leaf. */
  datatype Written =
    | Scalar(leaf: Leaf, kind: Kind, cast: Leaf)
    | Braces(elements: seq<Written>)

  // ---- Counting ----

  const SIZE_VALUES := 0x1_0000_0000_0000_0000

  /** The level one further out, in unsigned 64-bit arithmetic. */
  function Outer(from: nat): nat {
    if from == 0 then SIZE_VALUES - 1 else from - 1
  }

  ghost function Weight(dims: seq<nat>, from: nat, to: nat): nat
    requires to <= |dims|
    decreases if from < to then to - from else 0
  {
    if from >= to then 1
    else
      var rest: nat := Weight(dims, from + 1, to);
      dims[from] * rest
  }

  /** How many scalars the list is taken for. */
  ghost function Count(dims: seq<nat>, from: nat, to: nat, elements: seq<Written>): nat
    requires to <= |dims|
    decreases elements
  {
    if elements == [] then 0 else CountOne(dims, from, to, elements[0]) + Count(dims, from, to, elements[1..])
  }

  ghost function CountOne(dims: seq<nat>, from: nat, to: nat, e: Written): nat
    requires to <= |dims|
    decreases e
  {
    match e
    case Braces(inner) => Count(dims, Outer(from), to, inner)
    case Scalar(_, _, _) => Weight(dims, from, to)
  }

  lemma {:induction false} CountAppends(dims: seq<nat>, from: nat, to: nat, a: seq<Written>, b: seq<Written>)
    requires to <= |dims|
    ensures Count(dims, from, to, a + b) == Count(dims, from, to, a) + Count(dims, from, to, b)
    decreases |a|
  {
    if a == [] {
      assert a + b == b;
    } else {
      CountAppends(dims, from, to, a[1..], b);
      assert (a + b)[1..] == a[1..] + b;
    }
  }

  lemma {:induction false} WeightFromTheLeft(dims: seq<nat>, from: nat, i: nat, to: nat)
    requires from <= i < to <= |dims|
    ensures Weight(dims, from, i + 1) == Weight(dims, from, i) * dims[i]
    decreases i - from
  {
    if from < i {
      WeightFromTheLeft(dims, from + 1, i, to);
      Associate(dims[from], Weight(dims, from + 1, i), dims[i]);
    }
  }

  lemma Associate(a: nat, b: nat, c: nat)
    ensures a * (b * c) == a * b * c
  {
  }

  method CountElements(dims: seq<nat>, from: nat, to: nat, elements: seq<Written>) returns (count: nat)
    requires to <= |dims|
    ensures count == Count(dims, from, to, elements)
    decreases elements
  {
    var weight: nat := 1;
    var i := from;
    while i < to
      invariant from <= i && (from <= to ==> i <= to)
      invariant weight == if i <= to then Weight(dims, from, i) else 1
    {
      WeightFromTheLeft(dims, from, i, to);
      weight := weight * dims[i];
      i := i + 1;
    }
    count := 0;
    for j := 0 to |elements|
      invariant count == Count(dims, from, to, elements[..j])
    {
      var e := elements[j];
      if e.Braces? {
        var inner := CountElements(dims, Outer(from), to, e.elements);
        count := count + inner;
      } else {
        count := count + weight;
      }
      assert elements[..j + 1] == elements[..j] + [e];
      CountAppends(dims, from, to, elements[..j], [e]);
      assert [e][1..] == [];
    }
    assert elements[..|elements|] == elements;
  }

  ghost predicate AllScalars(elements: seq<Written>) {
    forall i :: 0 <= i < |elements| ==> elements[i].Scalar?
  }

  /** Scalars alone are counted exactly. */
  lemma {:induction false} ScalarsCount(dims: seq<nat>, elements: seq<Written>)
    requires AllScalars(elements)
    ensures Count(dims, |dims|, |dims|, elements) == |elements|
  {
    if elements != [] {
      ScalarsCount(dims, elements[1..]);
    }
  }

  lemma {:induction false} InnerScalarsCount(dims: seq<nat>, elements: seq<Written>)
    requires AllScalars(elements) && dims != []
    ensures Count(dims, |dims| - 1, |dims|, elements) == |elements| * dims[|dims| - 1]
  {
    if elements != [] {
      InnerScalarsCount(dims, elements[1..]);
      assert Weight(dims, |dims| - 1, |dims|) == dims[|dims| - 1] * 1;
      assert |elements| * dims[|dims| - 1] == dims[|dims| - 1] + (|elements| - 1) * dims[|dims| - 1];
    }
  }

  /** A brace that opens inside a run of scalars, on an innermost array, is taken for that array
      exactly when it holds one scalar: anything else is counted wrongly. */
  lemma BraceInRunCountedRight(dims: seq<nat>, inner: seq<Written>)
    requires AllScalars(inner) && dims != [] && dims[|dims| - 1] > 0
    ensures CountOne(dims, |dims|, |dims|, Braces(inner)) == dims[|dims| - 1] <==> |inner| == 1
  {
    InnerScalarsCount(dims, inner);
    var d := dims[|dims| - 1];
    if |inner| > 1 {
      assert |inner| * d >= 2 * d;
    }
  }

  // ---- Normalisation ----

  function ScalarOf(e: Written, kind: Kind): Leaf
    requires e.Scalar?
  {
    if e.kind == kind then e.leaf else e.cast
  }

  /** Nothing when a brace is met where only a scalar has a type: the source then reads a type that is not there. */
  datatype Option<T> = None | Some(value: T)

  ghost function Converted(elements: seq<Written>, kind: Kind): seq<Init>
    requires AllScalars(elements)
  {
    seq(|elements|, i requires 0 <= i < |elements| => Value(ScalarOf(elements[i], kind)))
  }

  ghost function ZeroLists(n: nat, t: Init): seq<Init> {
    seq(n, _ => t)
  }

  ghost function Extended(done: seq<Init>, capacity: nat, t: Init): seq<Init> {
    if |done| < capacity then done + ZeroLists(capacity - |done|, t) else done
  }

  /** The tree that a list is turned into. */
  ghost function Typed(dims: seq<nat>, elements: seq<Written>, kind: Kind): Option<Init>
    requires dims != []
    decreases |dims|, 1, 0
  {
    if elements == [] then Some(Zero(dims))
    else if |dims| == 1 then
      if AllScalars(elements) then Some(List(dims, Extended(Converted(elements, kind), dims[0], Value(Constant(0)))))
          else None
    else
      match Grouped(dims, elements, kind, [], [])
      case None => None
      case Some(parts) => Some(List(dims, Extended(parts, dims[0], Zero(dims[1..]))))
  }

  /** One element of the array made from a brace or from a full run of scalars. */
  ghost function Closed(dims: seq<nat>, elements: seq<Written>, kind: Kind, done: seq<Init>): Option<seq<Init>>
    requires |dims| > 1
    decreases |dims|, 0, 0
  {
    match Typed(dims[1..], elements, kind)
    case None => None
    case Some(t) => Some(done + [t])
  }

  ghost predicate RunIsFull(dims: seq<nat>, run: seq<Written>)
    requires |dims| > 1
  {
    var inner := dims[1..];
    Count(inner, |inner|, |inner|, run) == Size(inner)
  }

  /** The elements made so far and the open run, after one more item of the list. */
  ghost function Taken(dims: seq<nat>, e: Written, kind: Kind, done: seq<Init>,
                       run: seq<Written>): Option<(seq<Init>, seq<Written>)>
    requires |dims| > 1
    decreases |dims|, 0, 1
  {
    if e.Braces? && run == [] then
      match Closed(dims, e.elements, kind, done)
      case None => None
      case Some(parts) => Some((parts, []))
    else if e.Braces? || e.kind == kind then
      if RunIsFull(dims, run + [e]) then
        match Closed(dims, run + [e], kind, done)
        case None => None
        case Some(parts) => Some((parts, []))
      else Some((done, run + [e]))
    else Some((done, run))
  }

  ghost function Grouped(dims: seq<nat>, elements: seq<Written>, kind: Kind, done: seq<Init>,
                         run: seq<Written>): Option<seq<Init>>
    requires |dims| > 1
    decreases |dims|, 0, 2 + |elements|
  {
    if elements == [] then
      if run == [] then Some(done) else Closed(dims, run, kind, done)
    else
      match Taken(dims, elements[0], kind, done, run)
      case None => None
      case Some((parts, open)) => Grouped(dims, elements[1..], kind, parts, open)
  }

  lemma GroupedOneMore(dims: seq<nat>, elements: seq<Written>, i: nat, kind: Kind, done: seq<Init>, run: seq<Written>)
    requires |dims| > 1 && i < |elements|
    ensures Grouped(dims, elements[i..], kind, done, run)
         == match Taken(dims, elements[i], kind, done, run)
            case None => None
            case Some((parts, open)) => Grouped(dims, elements[i + 1..], kind, parts, open)
  {
    assert elements[i..][0] == elements[i] && elements[i..][1..] == elements[i + 1..];
  }

  lemma GroupedEnds(dims: seq<nat>, kind: Kind, done: seq<Init>, run: seq<Written>)
    requires |dims| > 1
    ensures Grouped(dims, [], kind, done, run) == if run == [] then Some(done) else Closed(dims, run, kind, done)
  {
  }

  method SetValueType(dims: seq<nat>, elements: seq<Written>, kind: Kind) returns (r: Option<Init>)
    requires dims != []
    ensures r == Typed(dims, elements, kind)
    decreases |dims|, 1
  {
    if elements == [] {
      r := Some(Zero(dims));
      return;
    }
    if |dims| == 1 {
      r := SetTrivial(dims, elements, kind);
      return;
    }
    hide Grouped, Count, RunIsFull;
    var newElements: seq<Init>, buffer: seq<Written> := [], [];
    for i := 0 to |elements|
      invariant Grouped(dims, elements[i..], kind, newElements, buffer) == Grouped(dims, elements, kind, [], [])
    {
      GroupedOneMore(dims, elements, i, kind, newElements, buffer);
      var e := elements[i];
      if e.Braces? && buffer == [] {
        var t := SetValueType(dims[1..], e.elements, kind);
        if t.None? { return None; }
        newElements := newElements + [t.value];
      } else if e.Braces? || e.kind == kind {
        buffer := buffer + [e];
        var full := IsFull(dims, buffer);
        if full {
          var t := SetValueType(dims[1..], buffer, kind);
          if t.None? { return None; }
          newElements := newElements + [t.value];
          buffer := [];
        }
      }
    }
    GroupedEnds(dims, kind, newElements, buffer);
    if buffer != [] {
      var t := SetValueType(dims[1..], buffer, kind);
      if t.None? { return None; }
      newElements := newElements + [t.value];
    }
    ghost var parts := newElements;
    while |newElements| < dims[0]
      invariant |parts| <= |newElements| && (|newElements| <= dims[0] || newElements == parts)
      invariant newElements == parts + ZeroLists(|newElements| - |parts|, Zero(dims[1..]))
    {
      var t := SetValueType(dims[1..], [], kind);
      newElements := newElements + [t.value];
    }
    r := Some(List(dims, newElements));
  }

  method IsFull(dims: seq<nat>, buffer: seq<Written>) returns (full: bool)
    requires |dims| > 1
    ensures full == RunIsFull(dims, buffer)
  {
    var inner := dims[1..];
    var bits := SizeInBits(inner);
    var count := CountElements(inner, |inner|, |inner|, buffer);
    full := count == bits / 32;
  }

  /** An array of scalars: each element converted, zeros behind them. */
  method SetTrivial(dims: seq<nat>, elements: seq<Written>, kind: Kind) returns (r: Option<Init>)
    requires |dims| == 1 && elements != []
    ensures r == Typed(dims, elements, kind)
    ensures r.Some? <==> AllScalars(elements)
    ensures r.Some? ==> r.value.List? && |r.value.elements| == if |elements| < dims[0] then dims[0] else |elements|
    ensures r.Some? ==> forall i :: 0 <= i < |elements| ==>
        r.value.elements[i] == Value(if elements[i].kind == kind then elements[i].leaf else elements[i].cast)
    ensures r.Some? ==> forall i :: |elements| <= i < |r.value.elements| ==> r.value.elements[i] == Value(Constant(0))
  {
    var values: seq<Init> := [];
    for i := 0 to |elements|
      invariant AllScalars(elements[..i])
      invariant values == Converted(elements[..i], kind)
    {
      var e := elements[i];
      if e.Braces? { return None; }
      values := values + [Value(if e.kind != kind then e.cast else e.leaf)];
    }
    assert elements[..|elements|] == elements;
    ghost var given := values;
    while |values| < dims[0]
      invariant |given| <= |values| && (|values| <= dims[0] || values == given)
      invariant values == given + ZeroLists(|values| - |given|, Value(Constant(0)))
    {
      values := values + [Value(Constant(0))];
    }
    r := Some(List(dims, values));
  }

  // ---- A brace inside a run ----

  lemma TrivialListIsTyped(n: nat, elements: seq<Written>, kind: Kind)
    requires AllScalars(elements)
    ensures Typed([n], elements, kind).Some?
  {
  }

  lemma CountOfPair(a: Written, b: Written, dims: seq<nat>)
    requires a.Scalar? && b.Scalar?
    ensures Count(dims, |dims|, |dims|, [a]) == 1
    ensures Count(dims, |dims|, |dims|, [a, b]) == 2
  {
    ScalarsCount(dims, [a]);
    ScalarsCount(dims, [a, b]);
  }

  /** The run around the brace is counted as six and as seven, never as four. */
  lemma CountsAroundBrace(a: Written, b: Written, c: Written, inner: seq<Written>)
    requires a.Scalar? && b.Scalar? && c.Scalar? && AllScalars(inner) && |inner| == 2
    ensures Count([2, 2], 2, 2, [a, b, Braces(inner)]) == 6
    ensures Count([2, 2], 2, 2, [a, b, Braces(inner), c]) == 7
  {
    var dims, brace: Written := [2, 2], Braces(inner);
    CountOfPair(a, b, dims);
    InnerScalarsCount(dims, inner);
    CountAppends(dims, 2, 2, [a, b], [brace]);
    CountAppends(dims, 2, 2, [a, b, brace], [c]);
    assert [a, b] + [brace] == [a, b, brace];
    assert [a, b, brace] + [c] == [a, b, brace, c];
    assert [brace][1..] == [] && [c][1..] == [];
  }

  lemma SmallSizes()
    ensures Size([2]) == 2 && Size([2, 2]) == 4
  {
    assert [2][1..] == [] && [2, 2][1..] == [2];
    assert Size([2]) == 2 * Size([]);
    assert Size([2, 2]) == 2 * Size([2]);
  }

  lemma ThreeElementsForTwo(a: Written, b: Written, c: Written, inner: seq<Written>)
    requires a.Scalar? && b.Scalar? && c.Scalar? && a.kind == b.kind == c.kind == Integer && AllScalars(inner)
    ensures var r := Typed([2, 2], [a, b, Braces(inner), c], Integer);
            r.Some? && r.value.List? && |r.value.elements| == 3
  {
    hide Typed, Grouped, Count, Size;
    var dims, brace: Written := [2, 2], Braces(inner);
    var list := [a, b, brace, c];
    assert dims[1..] == [2];
    SmallSizes();
    CountOfPair(a, b, [2]);
    CountOfPair(c, c, [2]);
    TrivialListIsTyped(2, [a, b], Integer);
    TrivialListIsTyped(2, inner, Integer);
    TrivialListIsTyped(2, [c], Integer);
    var t, u, v := Typed([2], [a, b], Integer).value, Typed([2], inner, Integer).value, Typed([2], [c], Integer).value;
    assert [] + [a] == [a] && [a] + [b] == [a, b] && [] + [c] == [c];
    GroupedOneMore(dims, list, 0, Integer, [], []);
    GroupedOneMore(dims, list, 1, Integer, [], [a]);
    GroupedOneMore(dims, list, 2, Integer, [t], []);
    GroupedOneMore(dims, list, 3, Integer, [t, u], []);
    GroupedEnds(dims, Integer, [t, u], [c]);
    assert list[0..] == list && list[4..] == [];
    assert [] + [t] == [t] && [t] + [u] == [t, u] && [t, u] + [v] == [t, u, v];
    NestedListIsGrouped(dims, list, Integer);
  }

  lemma NestedListIsGrouped(dims: seq<nat>, elements: seq<Written>, kind: Kind)
    requires |dims| > 1 && elements != []
    ensures var parts := Grouped(dims, elements, kind, [], []);
            parts.Some? ==> Typed(dims, elements, kind) == Some(List(dims,
                Extended(parts.value, dims[0], Zero(dims[1..]))))
  {
  }

  /** `{1, 2, {3, 4}, 5}` for a two by two by two array: the brace opens where an innermost array
      begins, but the run around it is then never taken for full, and the tree has the wrong shape. */
  lemma BraceInsideRunBreaksShape(a: Written, b: Written, c: Written, inner: seq<Written>)
    requires a.Scalar? && b.Scalar? && c.Scalar? && a.kind == b.kind == c.kind == Integer
    requires AllScalars(inner) && |inner| == 2
    ensures var r := Typed([2, 2, 2], [a, b, Braces(inner), c], Integer);
            r.Some? && !HasShape(r.value, [2, 2, 2])
  {
    hide Typed, Grouped, Count, Size;
    var dims, brace: Written := [2, 2, 2], Braces(inner);
    var list := [a, b, brace, c];
    assert dims[1..] == [2, 2];
    SmallSizes();
    CountOfPair(a, b, [2, 2]);
    CountsAroundBrace(a, b, c, inner);
    ThreeElementsForTwo(a, b, c, inner);
    var t := Typed([2, 2], list, Integer).value;
    assert [] + [a] == [a] && [a] + [b] == [a, b] && [a, b] + [brace] == [a, b, brace] && [a, b, brace] + [c] == list;
    GroupedOneMore(dims, list, 0, Integer, [], []);
    GroupedOneMore(dims, list, 1, Integer, [], [a]);
    GroupedOneMore(dims, list, 2, Integer, [], [a, b]);
    GroupedOneMore(dims, list, 3, Integer, [], [a, b, brace]);
    GroupedEnds(dims, Integer, [], list);
    assert list[0..] == list && list[4..] == [];
    assert [] + [t] == [t];
    NestedListIsGrouped(dims, list, Integer);
    FirstElementBreaksShape(dims, t, Extended([t], 2, Zero([2, 2])));
  }

  lemma FirstElementBreaksShape(dims: seq<nat>, t: Init, elements: seq<Init>)
    requires |dims| > 1 && elements != [] && elements[0] == t && t.List? && |t.elements| != dims[1]
    ensures !HasShape(List(dims, elements), dims)
  {
  }
}
