/**
 * When normalisation is right: a condition on the form of the list, and why it is enough.
 */
module Normalisation {
  import opened Initialisers
  import opened InitialiserLists
  import opened InitialiserMeaning

  // ---- The condition ----

  /** Braces without scalars that are no more, at any depth, than the array has elements. */
  ghost predicate HollowFits(dims: seq<nat>, elements: seq<Written>)
    requires dims != []
    decreases elements, 1
  {
    elements == [] || (|dims| > 1 && HollowRest(dims, elements, 0))
  }

  /** Such braces as the rest of a list, one for each of the elements from `done` on. */
  ghost predicate HollowRest(dims: seq<nat>, rest: seq<Written>, done: nat)
    requires |dims| > 1
    decreases rest, 0
  {
    && done + |rest| <= dims[0]
    && forall i :: 0 <= i < |rest| ==> rest[i].Braces? && HollowFits(dims[1..], rest[i].elements)
  }

  /** Every run is closed where it should be. In an array of arrays, a run of scalars and braces is taken
      for an element as soon as it is counted as one. That must be where it fills the element; or it is
      never counted as one and the list ends no later than that; or it is counted too early and only
      empty braces follow. Scalars have the element kind, and the same holds inside every element. */
  ghost predicate RunsClose(dims: seq<nat>, elements: seq<Written>, kind: Kind)
    requires dims != []
    decreases |dims|, 1, 0
  {
    elements == [] || |dims| == 1 || RunsCloseFrom(dims, elements, 0, [], kind)
  }

  /** ... when `done` elements and the open run come before. */
  ghost predicate RunsCloseFrom(dims: seq<nat>, rest: seq<Written>, done: nat, run: seq<Written>, kind: Kind)
    requires |dims| > 1
    decreases |dims|, 0, |rest|
  {
    var inner := dims[1..];
    if rest == [] then RunsClose(inner, run, kind)
    else if rest[0].Braces? && run == [] then
      RunsClose(inner, rest[0].elements, kind) && RunsCloseFrom(dims, rest[1..], done + 1, [], kind)
    else
      var longer := run + [rest[0]];
      var filled := End(inner, longer, 0) == Size(inner);
      && (rest[0].Scalar? ==> rest[0].kind == kind)
      && if RunIsFull(dims, longer) then
           && RunsClose(inner, longer, kind)
           && if filled then RunsCloseFrom(dims, rest[1..], done + 1, [], kind)
              else HollowRest(dims, rest[1..], done + 1)
         else if filled then rest[1..] == [] && RunsClose(inner, longer, kind)
         else RunsCloseFrom(dims, rest[1..], done, longer, kind)
  }

  // ---- What normalisation promises ----

  ghost predicate AllHaveShape(ts: seq<Init>, dims: seq<nat>) {
    forall i :: 0 <= i < |ts| ==> HasShape(ts[i], dims)
  }

  /** A tree of exactly the declared shape with the given leaves, and zeros behind them. */
  ghost predicate TypedRight(dims: seq<nat>, r: Option<Init>, leaves: seq<Leaf>) {
    r.Some? && HasShape(r.value, dims) && Flatten(r.value) == Padded(leaves, Size(dims))
  }

  /** The elements made for an array of arrays: no more than it has, each of the right shape, and with
      zeros for the missing ones they hold the given leaves. */
  ghost predicate GroupedRight(dims: seq<nat>, r: Option<seq<Init>>, leaves: seq<Leaf>)
    requires dims != []
  {
    && r.Some?
    && |r.value| <= dims[0]
    && AllHaveShape(r.value, dims[1..])
    && FlattenAll(r.value) + Zeros((dims[0] - |r.value|) * Size(dims[1..])) == Padded(leaves, Size(dims))
  }

  lemma AllFixLength(parts: seq<Init>, dims: seq<nat>)
    requires AllHaveShape(parts, dims)
    ensures |FlattenAll(parts)| == |parts| * Size(dims)
  {
    ShapesFixLength(parts, dims);
  }

  lemma {:induction false} FlattenAllZeros(n: nat, t: Init, size: nat)
    requires Flatten(t) == Zeros(size)
    ensures FlattenAll(ZeroLists(n, t)) == Zeros(n * size)
  {
    if n > 0 {
      FlattenAllZeros(n - 1, t, size);
      assert ZeroLists(n, t)[1..] == ZeroLists(n - 1, t);
      OneMore(n - 1, size);
      assert Zeros(size) + Zeros((n - 1) * size) == Zeros(n * size);
    }
  }

  lemma FlattenOne(t: Init)
    ensures FlattenAll([t]) == Flatten(t)
  {
    assert [t][1..] == [];
  }

  lemma ExtendedFlattens(parts: seq<Init>, dims: seq<nat>)
    requires dims != [] && |parts| <= dims[0]
    ensures FlattenAll(Extended(parts, dims[0],
        Zero(dims[1..]))) == FlattenAll(parts) + Zeros((dims[0] - |parts|) * Size(
        dims[1..]))
  {
    var rest, zero := dims[0] - |parts|, Zero(dims[1..]);
    FlattenAllZeros(rest, zero, Size(dims[1..]));
    assert Extended(parts, dims[0], zero) == parts + ZeroLists(rest, zero);
    FlattenAllAppends(parts, ZeroLists(rest, zero));
  }

  /** The tree of an array of arrays is right exactly if its elements are. */
  lemma TypedIsGrouped(dims: seq<nat>, elements: seq<Written>, kind: Kind, leaves: seq<Leaf>)
    requires |dims| > 1 && elements != []
    ensures TypedRight(dims, Typed(dims, elements, kind), leaves)
        <==> GroupedRight(dims, Grouped(dims, elements, kind, [], []), leaves)
  {
    hide Grouped, Flatten, FlattenAll, Padded, Size;
    var r, inner := Grouped(dims, elements, kind, [], []), dims[1..];
    if r.Some? {
      var parts := r.value;
      var all := Extended(parts, dims[0], Zero(inner));
      ListFlattens(dims, all);
      if |parts| <= dims[0] {
        ExtendedFlattens(parts, dims);
        assert forall i :: 0 <= i < |parts| ==> all[i] == parts[i];
        assert HasShape(List(dims, all), dims) <==> AllHaveShape(parts, inner);
      }
    }
  }

  lemma ListFlattens(dims: seq<nat>, elements: seq<Init>)
    ensures Flatten(List(dims, elements)) == FlattenAll(elements)
  {
  }

  // ---- One item of the list ----

  /** Where the next item goes: to a new element of its own, or into the run, which stays inside its
      element. */
  lemma NextItem(dims: seq<nat>, elements: seq<Written>, n: nat, run: seq<Written>, kind: Kind)
    requires |dims| > 1 && elements != [] && Legal(dims[1..], run, 0) && End(dims[1..], run, 0) < Size(dims[1..])
    requires Legal(dims, elements, n * Size(dims[1..]) + End(dims[1..], run, 0))
    ensures var inner, e := dims[1..], elements[0];
      var size, p := Size(inner), n * Size(inner) + End(inner, run, 0);
      && Laid(dims, elements, p, kind) == LaidOne(dims, e, p, kind) + Laid(dims, elements[1..], p + Step(dims, e, p),
          kind)
      && Legal(dims, elements[1..], p + Step(dims, e, p))
      && (e.Braces? && run == [] ==>
            && p == n * size && Step(dims, e, p) == size && Legal(inner, e.elements, 0)
            && LaidOne(dims, e, p, kind) == Padded(Laid(inner, e.elements, 0, kind), size))
      && (e.Scalar? || run != [] ==>
            && Legal(inner, run + [e], 0)
            && End(inner, run + [e], 0) == End(inner, run, 0) + Step(dims, e, p)
            && Laid(inner, run + [e], 0, kind) == Laid(inner, run, 0, kind) + LaidOne(dims, e, p, kind))
  {
    var inner, e := dims[1..], elements[0];
    var r := End(inner, run, 0);
    EndGrows(inner, run, 0);
    OpenedInside(dims, n, r);
    StepInside(inner, e, r);
    OneMoreItem(inner, run, e, 0, kind);
    hide Opened, Size;
    if e.Scalar? || run != [] {
      assert Legal(inner, [e], r) by {
        assert [e][1..] == [];
      }
    }
  }

  /** One more element behind full ones. */
  lemma OneMoreElement(parts: seq<Init>, t: Init, dims: seq<nat>, before: seq<Leaf>)
    requires AllHaveShape(parts, dims) && FlattenAll(parts) == before && HasShape(t, dims)
    ensures AllHaveShape(parts + [t], dims) && FlattenAll(parts + [t]) == before + Flatten(t)
    ensures |before| == |parts| * Size(dims) && |Flatten(t)| == Size(dims)
    ensures |before + Flatten(t)| == |parts + [t]| * Size(dims)
  {
    hide HasShape, Flatten, FlattenAll, Size;
    AllFixLength(parts, dims);
    AllFixLength(parts + [t], dims);
    FlattenAllAppends(parts, [t]);
    FlattenOne(t);
    ShapeFixesLength(t, dims);
  }

  // ---- Empty braces ----

  /** Empty braces that fit become zeros. */
  lemma {:induction false} HollowIsZero(dims: seq<nat>, elements: seq<Written>, kind: Kind)
    requires dims != [] && HollowFits(dims, elements)
    ensures TypedRight(dims, Typed(dims, elements, kind), [])
    decreases elements, 1
  {
    if elements != [] {
      HollowGrouped(dims, elements, kind, []);
      TypedIsGrouped(dims, elements, kind, []);
    } else {
      assert Flatten(Zero(dims)) == Zeros(Size(dims));
    }
  }

  lemma {:induction false} HollowGrouped(dims: seq<nat>, rest: seq<Written>, kind: Kind, done: seq<Init>)
    requires |dims| > 1 && HollowRest(dims, rest, |done|) && AllHaveShape(done, dims[1..])
    ensures GroupedRight(dims, Grouped(dims, rest, kind, done, []), FlattenAll(done))
    decreases rest, 0
  {
    hide *;
    AllFixLength(done, dims[1..]);
    GroupedEnds(dims, kind, done, []);
    if rest == [] {
      HollowFacts(dims, rest, |done|);
      HollowEnds(dims, done);
    } else {
      HollowFacts(dims, rest, |done|);
      HollowIsZero(dims[1..], rest[0].elements, kind);
      var t := Typed(dims[1..], rest[0].elements, kind);
      BraceTaken(dims, rest, kind, done, t);
      ZeroElement(dims[1..], t, done);
      HollowGrouped(dims, rest[1..], kind, done + [t.value]);
      RoomForOneMore(dims, |done|);
      ZerosBehind(dims, Grouped(dims, rest, kind, done, []), FlattenAll(done), Size(dims[1..]));
    }
  }

  lemma HollowFacts(dims: seq<nat>, rest: seq<Written>, n: nat)
    requires |dims| > 1 && HollowRest(dims, rest, n)
    ensures n <= dims[0]
    ensures rest != [] ==>
        n < dims[0] && rest[0].Braces? && HollowFits(dims[1..], rest[0].elements) && HollowRest(dims, rest[1..], n + 1)
  {
  }

  lemma HollowEnds(dims: seq<nat>, done: seq<Init>)
    requires |dims| > 1 && |done| <= dims[0] && AllHaveShape(done, dims[1..])
    requires |FlattenAll(done)| == |done| * Size(dims[1..])
    ensures GroupedRight(dims, Some(done), FlattenAll(done))
  {
    SplitSize(dims, |done|);
    hide HasShape, FlattenAll, Size;
  }

  lemma SplitSize(dims: seq<nat>, n: nat)
    requires dims != [] && n <= dims[0]
    ensures Size(dims) == n * Size(dims[1..]) + (dims[0] - n) * Size(dims[1..])
  {
    var size, k: nat := Size(dims[1..]), dims[0] - n;
    Distribute(n, k, size);
  }

  lemma Distribute(n: nat, k: nat, size: nat)
    ensures (n + k) * size == n * size + k * size
  {
  }

  lemma RoomForOneMore(dims: seq<nat>, n: nat)
    requires dims != [] && n < dims[0]
    ensures n * Size(dims[1..]) + Size(dims[1..]) <= Size(dims)
  {
    OneMore(n, Size(dims[1..]));
    AtLeastAsMany(dims[0], n + 1, Size(dims[1..]));
  }

  lemma BraceTaken(dims: seq<nat>, elements: seq<Written>, kind: Kind, done: seq<Init>, t: Option<Init>)
    requires |dims| > 1 && elements != [] && elements[0].Braces? && t == Typed(dims[1..], elements[0].elements, kind)
    ensures t.Some? ==> Grouped(dims, elements, kind, done, []) == Grouped(dims, elements[1..], kind, done + [t.value],
        [])
    ensures t.None? ==> Grouped(dims, elements, kind, done, []) == None
  {
    hide Typed;
    if t.Some? {
      assert Taken(dims, elements[0], kind, done, []) == Some((done + [t.value], []));
    } else {
      assert Taken(dims, elements[0], kind, done, []) == None;
    }
  }

  lemma ZeroElement(dims: seq<nat>, t: Option<Init>, done: seq<Init>)
    requires TypedRight(dims, t, []) && AllHaveShape(done, dims)
    ensures t.Some? && AllHaveShape(done + [t.value], dims)
    ensures FlattenAll(done + [t.value]) == FlattenAll(done) + Zeros(Size(dims))
  {
    hide Size, Flatten, FlattenAll, HasShape;
    OneMoreElement(done, t.value, dims, FlattenAll(done));
    assert [] + Zeros(Size(dims)) == Zeros(Size(dims));
  }

  lemma ZerosBehind(dims: seq<nat>, r: Option<seq<Init>>, leaves: seq<Leaf>, n: nat)
    requires dims != [] && GroupedRight(dims, r, leaves + Zeros(n)) && |leaves + Zeros(n)| <= Size(dims)
    ensures GroupedRight(dims, r, leaves)
  {
    hide Size, FlattenAll, HasShape;
    assert Padded(leaves + Zeros(n), Size(dims)) == Padded(leaves, Size(dims));
  }

  // ---- The condition is enough ----

  /** A list whose runs close is normalised to a tree of exactly the declared shape, whose leaves are
      the values it denotes, with zeros in every place it leaves open. */
  lemma {:induction false} NormalisationFillsTheArray(dims: seq<nat>, elements: seq<Written>, kind: Kind)
    requires dims != [] && Legal(dims, elements, 0) && RunsClose(dims, elements, kind)
    ensures TypedRight(dims, Typed(dims, elements, kind), Laid(dims, elements, 0, kind))
    decreases |dims|, 1, 0
  {
    if elements == [] {
      assert Flatten(Zero(dims)) == Zeros(Size(dims));
    } else if |dims| == 1 {
      TrivialListIsRight(dims, elements, kind);
    } else {
      hide *;
      StartsEmpty(dims, elements, kind);
      GroupingIsRight(dims, elements, kind, [], [], []);
      assert [] + [] + Laid(dims, elements, 0, kind) == Laid(dims, elements, 0, kind);
      TypedIsGrouped(dims, elements, kind, Laid(dims, elements, 0, kind));
    }
  }

  lemma StartsEmpty(dims: seq<nat>, elements: seq<Written>, kind: Kind)
    requires |dims| > 1 && elements != [] && Legal(dims, elements, 0)
    ensures FlattenAll([]) == [] && AllHaveShape([], dims[1..]) && Size(dims[1..]) > 0
    ensures Legal(dims[1..], [], 0) && End(dims[1..], [], 0) == 0 && Laid(dims[1..], [], 0, kind) == []
    ensures RunsClose(dims, elements, kind) ==> RunsCloseFrom(dims, elements, 0, [], kind)
  {
    EndGrows(dims, elements, 0);
    assert Size(dims) == dims[0] * Size(dims[1..]);
    hide RunsCloseFrom;
  }

  /** In an array of scalars, each scalar is its own place. */
  lemma {:induction false} ScalarsAreLaid(dims: seq<nat>, elements: seq<Written>, position: nat, kind: Kind)
    requires |dims| == 1 && Legal(dims, elements, position)
    ensures AllScalars(elements) && position + |elements| <= dims[0] == Size(dims)
    ensures End(dims, elements, position) == position + |elements|
    ensures Laid(dims, elements, position, kind) == FlattenAll(Converted(elements, kind))
  {
    assert dims[1..] == [];
    assert Size(dims) == dims[0] * Size([]) == dims[0];
    if elements != [] {
      assert Opened(dims, position) == [];
      ScalarsAreLaid(dims, elements[1..], position + 1, kind);
      assert Flatten(Converted(elements, kind)[0]) == [ScalarOf(elements[0], kind)];
      assert Converted(elements, kind)[1..] == Converted(elements[1..], kind);
    }
  }

  lemma TrivialListIsRight(dims: seq<nat>, elements: seq<Written>, kind: Kind)
    requires |dims| == 1 && elements != [] && Legal(dims, elements, 0)
    ensures TypedRight(dims, Typed(dims, elements, kind), Laid(dims, elements, 0, kind))
  {
    ScalarsAreLaid(dims, elements, 0, kind);
    var leaf := Value(Constant(0));
    var given := Converted(elements, kind);
    var rest := dims[0] - |given|;
    assert Flatten(leaf) == Zeros(1);
    FlattenAllZeros(rest, leaf, 1);
    assert ZeroLists(0, leaf) == [];
    assert Extended(given, dims[0], leaf) == given + ZeroLists(rest, leaf);
    FlattenAllAppends(given, ZeroLists(rest, leaf));
    LaidLength(dims, elements, 0, kind);
    assert dims[1..] == [];
  }

  lemma ItemJoinsRun(dims: seq<nat>, elements: seq<Written>, kind: Kind, done: seq<Init>, run: seq<Written>)
    requires |dims| > 1 && elements != []
    requires if elements[0].Scalar? then elements[0].kind == kind else run != []
    ensures var longer := run + [elements[0]];
      var t := Typed(dims[1..], longer, kind);
      && (!RunIsFull(dims, longer) ==> Grouped(dims, elements, kind, done, run) == Grouped(dims, elements[1..], kind,
          done,
          longer))
      && (RunIsFull(dims, longer) && t.Some? ==>
            Grouped(dims, elements, kind, done, run) == Grouped(dims, elements[1..], kind, done + [t.value], []))
      && (RunIsFull(dims, longer) && t.None? ==> Grouped(dims, elements, kind, done, run) == None)
  {
    hide Typed, RunIsFull;
    var longer := run + [elements[0]];
    var t := Typed(dims[1..], longer, kind);
    if !RunIsFull(dims, longer) {
      assert Taken(dims, elements[0], kind, done, run) == Some((done, longer));
    } else if t.Some? {
      assert Taken(dims, elements[0], kind, done, run) == Some((done + [t.value], []));
    } else {
      assert Taken(dims, elements[0], kind, done, run) == None;
    }
  }

  /** What the condition says of the next item. */
  lemma CloseNext(dims: seq<nat>, rest: seq<Written>, n: nat, run: seq<Written>, kind: Kind)
    requires |dims| > 1 && RunsCloseFrom(dims, rest, n, run, kind)
    ensures rest == [] ==> RunsClose(dims[1..], run, kind)
    ensures rest != [] && rest[0].Braces? && run == [] ==>
        RunsClose(dims[1..], rest[0].elements, kind) && RunsCloseFrom(dims, rest[1..], n + 1, [], kind)
    ensures rest != [] && (rest[0].Scalar? || run != []) ==>
      var longer := run + [rest[0]];
      var filled := End(dims[1..], longer, 0) == Size(dims[1..]);
      && (rest[0].Scalar? ==> rest[0].kind == kind)
      && (RunIsFull(dims, longer) ==> RunsClose(dims[1..], longer, kind))
      && (RunIsFull(dims, longer) && filled ==> RunsCloseFrom(dims, rest[1..], n + 1, [], kind))
      && (RunIsFull(dims, longer) && !filled ==> HollowRest(dims, rest[1..], n + 1))
      && (!RunIsFull(dims, longer) && filled ==> rest[1..] == [] && RunsClose(dims[1..], longer, kind))
      && (!RunIsFull(dims, longer) && !filled ==> RunsCloseFrom(dims, rest[1..], n, longer, kind))
  {
    hide RunsClose, RunIsFull, HollowRest, End;
  }

  /** The last run closes at the end of the list. */
  lemma {:induction false} GroupingEnds(dims: seq<nat>, kind: Kind, done: seq<Init>, run: seq<Written>,
                                        before: seq<Leaf>)
    requires |dims| > 1 && AllHaveShape(done, dims[1..]) && FlattenAll(done) == before
    requires Legal(dims[1..], run, 0) && RunsClose(dims[1..], run, kind)
    requires |before| + End(dims[1..], run, 0) <= Size(dims) && Size(dims[1..]) > 0
    ensures GroupedRight(dims, Grouped(dims, [], kind, done, run), before + Laid(dims[1..], run, 0, kind))
    decreases |dims|, 0, 0
  {
    hide *;
    var inner := dims[1..];
    GroupedEnds(dims, kind, done, run);
    AllFixLength(done, inner);
    LaidLength(inner, run, 0, kind);
    if run == [] {
      RoomFor(dims, |done|, 0);
      NoneLaid(inner, kind);
      assert before + [] == before;
      HollowEnds(dims, done);
    } else {
      NormalisationFillsTheArray(inner, run, kind);
      EndGrows(inner, run, 0);
      RoomFor(dims, |done|, End(inner, run, 0));
      ElementClosed(dims, kind, done, run, before);
      LastElement(dims, done, Typed(inner, run, kind).value, before, Laid(inner, run, 0, kind));
    }
  }

  lemma NoneLaid(dims: seq<nat>, kind: Kind)
    requires dims != []
    ensures Laid(dims, [], 0, kind) == []
  {
  }

  /** Places left mean elements left. */
  lemma RoomFor(dims: seq<nat>, n: nat, r: nat)
    requires dims != [] && n * Size(dims[1..]) + r <= Size(dims) && Size(dims[1..]) > 0
    ensures n <= dims[0] && (r > 0 ==> n < dims[0])
  {
    RoomIn(n, dims[0], Size(dims[1..]), r);
  }

  lemma RoomIn(n: nat, m: nat, size: nat, r: nat)
    requires n * size + r <= m * size && size > 0
    ensures n <= m && (r > 0 ==> n < m)
  {
    if n > m {
      AtLeastAsMany(n, m + 1, size);
      OneMore(m, size);
    } else if n == m {
      assert n * size == m * size;
    }
  }

  lemma ElementClosed(dims: seq<nat>, kind: Kind, done: seq<Init>, run: seq<Written>, before: seq<Leaf>)
    requires |dims| > 1 && AllHaveShape(done, dims[1..]) && FlattenAll(done) == before
    requires TypedRight(dims[1..], Typed(dims[1..], run, kind), Laid(dims[1..], run, 0, kind))
    ensures Typed(dims[1..], run, kind).Some?
    ensures Closed(dims, run, kind, done) == Some(done + [Typed(dims[1..], run, kind).value])
    ensures HasShape(Typed(dims[1..], run, kind).value, dims[1..])
    ensures Flatten(Typed(dims[1..], run, kind).value) == Padded(Laid(dims[1..], run, 0, kind), Size(dims[1..]))
    ensures AllHaveShape(done + [Typed(dims[1..], run, kind).value], dims[1..])
    ensures FlattenAll(done + [Typed(dims[1..], run, kind).value])
         == before + Padded(Laid(dims[1..], run, 0, kind), Size(dims[1..]))
  {
    hide Typed, Laid, Flatten, FlattenAll, HasShape, Size;
    OneMoreElement(done, Typed(dims[1..], run, kind).value, dims[1..], before);
  }

  /** The places behind the next element. */
  lemma RestBehind(dims: seq<nat>, n: nat) returns (more: nat)
    requires dims != [] && n < dims[0]
    ensures more == (dims[0] - (n + 1)) * Size(dims[1..])
    ensures Size(dims) == n * Size(dims[1..]) + Size(dims[1..]) + more
  {
    SplitSize(dims, n + 1);
    OneMore(n, Size(dims[1..]));
    more := Product(dims[0] - (n + 1), Size(dims[1..]));
  }

  lemma Product(n: nat, size: nat) returns (p: nat)
    ensures p == n * size
  {
    p := n * size;
  }

  lemma LastElement(dims: seq<nat>, done: seq<Init>, t: Init, before: seq<Leaf>, leaves: seq<Leaf>)
    requires |dims| > 1 && |done| < dims[0] && |before| == |done| * Size(dims[1..]) && |leaves| <= Size(dims[1..])
    requires AllHaveShape(done + [t], dims[1..]) && FlattenAll(done + [t]) == before + Padded(leaves, Size(dims[1..]))
    ensures GroupedRight(dims, Some(done + [t]), before + leaves)
  {
    hide *;
    var more := RestBehind(dims, |done|);
    PaddedBehind(before, leaves, Size(dims[1..]), more);
    GroupedMeans(dims, done + [t], before + leaves, more);
  }

  lemma GroupedMeans(dims: seq<nat>, parts: seq<Init>, leaves: seq<Leaf>, more: nat)
    requires dims != [] && |parts| <= dims[0] && AllHaveShape(parts, dims[1..])
    requires more == (dims[0] - |parts|) * Size(dims[1..])
    requires FlattenAll(parts) + Zeros(more) == Padded(leaves, Size(dims))
    ensures GroupedRight(dims, Some(parts), leaves)
  {
    hide Size, FlattenAll, HasShape;
  }

  lemma PaddedBehind(before: seq<Leaf>, leaves: seq<Leaf>, size: nat, more: nat)
    requires |leaves| <= size
    ensures before + Padded(leaves, size) + Zeros(more) == Padded(before + leaves, |before| + size + more)
  {
  }

  /** Grouping, from any point of the list: `before` are the leaves of the elements made so far. */
  lemma {:induction false} GroupingIsRight(dims: seq<nat>, elements: seq<Written>, kind: Kind, done: seq<Init>,
                                           run: seq<Written>, before: seq<Leaf>)
    requires |dims| > 1 && AllHaveShape(done, dims[1..]) && FlattenAll(done) == before
    requires Legal(dims[1..], run, 0) && End(dims[1..], run, 0) < Size(dims[1..])
    requires Legal(dims, elements, |before| + End(dims[1..], run, 0))
    requires RunsCloseFrom(dims, elements, |done|, run, kind)
    ensures GroupedRight(dims, Grouped(dims, elements, kind, done, run),
        before + Laid(dims[1..], run, 0, kind) + Laid(dims, elements, |before| + End(dims[1..], run, 0), kind))
    decreases |dims|, 0, 2 * |elements| + 1
  {
    hide *;
    var inner := dims[1..];
    var p := |before| + End(inner, run, 0);
    AllFixLength(done, inner);
    CloseNext(dims, elements, |done|, run, kind);
    EndGrows(dims, elements, p);
    if elements == [] {
      NothingLaid(dims, p, kind);
      GroupingEnds(dims, kind, done, run, before);
      assert before + Laid(inner, run, 0, kind) + [] == before + Laid(inner, run, 0, kind);
    } else {
      var e := elements[0];
      NextItem(dims, elements, |done|, run, kind);
      if e.Braces? && run == [] {
        NormalisationFillsTheArray(inner, e.elements, kind);
        ElementClosed(dims, kind, done, e.elements, before);
        var t := Typed(inner, e.elements, kind);
        BraceTaken(dims, elements, kind, done, t);
        NextElement(dims, elements[1..], kind, done, t.value, before);
        var leaves := Padded(Laid(inner, e.elements, 0, kind), Size(inner));
        GroupingIsRight(dims, elements[1..], kind, done + [t.value], [], before + leaves);
        NoneLaid(inner, kind);
        assert before + leaves + [] + Laid(dims, elements[1..], p + Size(inner), kind)
            == before + [] + (leaves + Laid(dims, elements[1..], p + Size(inner), kind));
      } else {
        RunIsRight(dims, elements, kind, done, run, before);
      }
    }
  }

  lemma NothingLaid(dims: seq<nat>, p: nat, kind: Kind)
    requires dims != []
    ensures Laid(dims, [], p, kind) == [] && End(dims, [], p) == p
  {
  }

  /** Between two elements the run is empty and the next one begins. */
  lemma NextElement(dims: seq<nat>, rest: seq<Written>, kind: Kind, done: seq<Init>, t: Init, before: seq<Leaf>)
    requires |dims| > 1 && AllHaveShape(done, dims[1..]) && FlattenAll(done) == before && HasShape(t, dims[1..])
    ensures |before| == |done| * Size(dims[1..]) && |Flatten(t)| == Size(dims[1..])
    ensures |before + Flatten(t)| == |before| + Size(dims[1..])
    ensures |done + [t]| == |done| + 1
    ensures Legal(dims[1..], [], 0) && End(dims[1..], [], 0) == 0
  {
    OneMoreElement(done, t, dims[1..], before);
  }

  /** An item that joins the run. */
  lemma {:induction false} RunIsRight(dims: seq<nat>, elements: seq<Written>, kind: Kind, done: seq<Init>,
                                      run: seq<Written>, before: seq<Leaf>)
    requires |dims| > 1 && AllHaveShape(done, dims[1..]) && FlattenAll(done) == before
    requires Legal(dims[1..], run, 0) && End(dims[1..], run, 0) < Size(dims[1..])
    requires Legal(dims, elements, |before| + End(dims[1..], run, 0))
    requires RunsCloseFrom(dims, elements, |done|, run, kind)
    requires elements != [] && (elements[0].Scalar? || run != [])
    ensures GroupedRight(dims, Grouped(dims, elements, kind, done, run),
        before + Laid(dims[1..], run, 0, kind) + Laid(dims, elements, |before| + End(dims[1..], run, 0), kind))
    decreases |dims|, 0, 2 * |elements|
  {
    hide *;
    var inner, e, rest := dims[1..], elements[0], elements[1..];
    var p := |before| + End(inner, run, 0);
    var longer, next := run + [e], p + Step(dims, e, p);
    AllFixLength(done, inner);
    NextItem(dims, elements, |done|, run, kind);
    CloseNext(dims, elements, |done|, run, kind);
    ItemJoinsRun(dims, elements, kind, done, run);
    EndGrows(inner, longer, 0);
    EndGrows(dims, rest, next);
    LaidLength(inner, longer, 0, kind);
    assert before + Laid(inner, run, 0, kind) + (LaidOne(dims, e, p, kind) + Laid(dims, rest, next, kind))
        == before + (Laid(inner, run, 0, kind) + LaidOne(dims, e, p, kind)) + Laid(dims, rest, next, kind);
    if !RunIsFull(dims, longer) {
      if End(inner, longer, 0) == Size(inner) {
        NothingLaid(dims, next, kind);
        GroupingEnds(dims, kind, done, longer, before);
        assert before + Laid(inner, longer, 0, kind) + [] == before + Laid(inner, longer, 0, kind);
      } else {
        GroupingIsRight(dims, rest, kind, done, longer, before);
      }
    } else {
      NormalisationFillsTheArray(inner, longer, kind);
      ElementClosed(dims, kind, done, longer, before);
      var t := Typed(inner, longer, kind);
      NextElement(dims, rest, kind, done, t.value, before);
      if End(inner, longer, 0) == Size(inner) {
        FullIsPadded(Laid(inner, longer, 0, kind), Size(inner));
        GroupingIsRight(dims, rest, kind, done + [t.value], [], before + Laid(inner, longer, 0, kind));
        NoneLaid(inner, kind);
        assert before + Laid(inner, longer, 0, kind) + [] + Laid(dims, rest, next, kind)
            == before + Laid(inner, longer, 0, kind) + Laid(dims, rest, next, kind);
      } else {
        HollowGrouped(dims, rest, kind, done + [t.value]);
        HollowHasNone(dims, rest, |done| + 1);
        HollowLaid(dims, rest, next, kind);
        LaidLength(dims, rest, next, kind);
        HollowFacts(dims, rest, |done| + 1);
        RoomForOneMore(dims, |done|);
        ZerosInstead(dims, Grouped(dims, rest, kind, done + [t.value], []), before, Laid(inner, longer, 0, kind),
            Laid(dims, rest, next, kind));
      }
    }
  }

  lemma FullIsPadded(leaves: seq<Leaf>, size: nat)
    requires |leaves| == size
    ensures Padded(leaves, size) == leaves
  {
  }

  lemma {:induction false} HollowHasNone(dims: seq<nat>, rest: seq<Written>, n: nat)
    requires |dims| > 1 && HollowRest(dims, rest, n)
    ensures Scalars(rest) == 0
    decreases rest
  {
    if rest != [] {
      HollowFacts(dims, rest, n);
      HollowHasNone(dims, rest[1..], n + 1);
      if rest[0].elements != [] {
        assert HollowFits(dims[1..], rest[0].elements);
        HollowHasNone(dims[1..], rest[0].elements, 0);
      }
      assert ScalarsOne(rest[0]) == Scalars(rest[0].elements) == 0;
    }
  }

  lemma ZerosInstead(dims: seq<nat>, r: Option<seq<Init>>, before: seq<Leaf>, leaves: seq<Leaf>, zeros: seq<Leaf>)
    requires dims != [] && |leaves| <= Size(dims[1..]) && |before| + Size(dims[1..]) <= Size(dims)
    requires GroupedRight(dims, r, before + Padded(leaves, Size(dims[1..])))
    requires AllZero(zeros) && |before| + |leaves| + |zeros| <= Size(dims)
    ensures GroupedRight(dims, r, before + leaves + zeros)
  {
    hide Size, FlattenAll, HasShape;
    assert Padded(before + Padded(leaves, Size(dims[1..])), Size(dims)) == Padded(before + leaves + zeros, Size(dims));
  }
}
