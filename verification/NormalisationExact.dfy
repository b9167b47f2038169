/**
 * Why the condition on the runs is needed: if a list of ones is normalised rightly, its runs close.
 */
module NormalisationExact {
  import opened Initialisers
  import opened InitialiserLists
  import opened InitialiserMeaning
  import opened Normalisation

  // ---- What grouping never does ----

  lemma TakenKeeps(dims: seq<nat>, e: Written, kind: Kind, done: seq<Init>, run: seq<Written>)
    requires |dims| > 1 && Taken(dims, e, kind, done, run).Some?
    ensures var next := Taken(dims, e, kind, done, run).value;
      && |done| <= |next.0| && next.0[..|done|] == done
      && (run != [] && next.1 == [] ==> |done| < |next.0|)
  {
    hide Typed, RunIsFull;
  }

  /** The elements made so far are kept, and an open run becomes one more. */
  lemma {:induction false} GroupedKeeps(dims: seq<nat>, rest: seq<Written>, kind: Kind, done: seq<Init>,
                                        run: seq<Written>)
    requires |dims| > 1 && Grouped(dims, rest, kind, done, run).Some?
    ensures var parts := Grouped(dims, rest, kind, done, run).value;
      && |done| <= |parts| && parts[..|done|] == done
      && (run != [] ==> |done| < |parts|)
    decreases |rest|
  {
    hide Typed, Taken;
    if rest != [] {
      TakenKeeps(dims, rest[0], kind, done, run);
      var next := Taken(dims, rest[0], kind, done, run);
      GroupedKeeps(dims, rest[1..], kind, next.value.0, next.value.1);
      var parts := Grouped(dims, rest, kind, done, run).value;
      assert parts[..|done|] == parts[..|next.value.0|][..|done|];
    }
  }

  /** No scalar is made up. */
  lemma {:induction false} TypedOnes(dims: seq<nat>, elements: seq<Written>, kind: Kind)
    requires dims != [] && Typed(dims, elements, kind).Some?
    ensures Ones(Flatten(Typed(dims, elements, kind).value)) <= Scalars(elements)
    decreases |dims|, 1, 0
  {
    if elements == [] {
      NoOnes(Size(dims));
    } else if |dims| == 1 {
      var given, leaf := Converted(elements, kind), Value(Constant(0));
      ConvertedOnes(elements, kind);
      ExtendedOnes(given, dims[0], leaf, 1);
    } else {
      hide *;
      TypedMeans(dims, elements, kind);
      GroupedOnes(dims, elements, kind, [], []);
      var parts := Grouped(dims, elements, kind, [], []).value;
      NothingYet();
      ZeroFlattens(dims[1..]);
      ExtendedOnes(parts, dims[0], Zero(dims[1..]), Size(dims[1..]));
    }
  }

  lemma NothingYet()
    ensures FlattenAll([]) == [] && Ones([]) == 0 && Scalars([]) == 0
  {
  }

  lemma ZeroFlattens(dims: seq<nat>)
    ensures Flatten(Zero(dims)) == Zeros(Size(dims))
  {
  }

  lemma TypedMeans(dims: seq<nat>, elements: seq<Written>, kind: Kind)
    requires |dims| > 1 && elements != [] && Typed(dims, elements, kind).Some?
    ensures var r := Grouped(dims, elements, kind, [], []);
      r.Some? && Flatten(Typed(dims, elements, kind).value) == FlattenAll(Extended(r.value, dims[0], Zero(dims[1..])))
  {
    hide Grouped;
  }

  lemma ExtendedOnes(parts: seq<Init>, capacity: nat, t: Init, size: nat)
    requires Flatten(t) == Zeros(size)
    ensures Ones(FlattenAll(Extended(parts, capacity, t))) == Ones(FlattenAll(parts))
  {
    hide Flatten, FlattenAll;
    if |parts| < capacity {
      var more := ZeroLists(capacity - |parts|, t);
      FlattenAllAppends(parts, more);
      FlattenAllZeros(capacity - |parts|, t, size);
      NoOnes((capacity - |parts|) * size);
      OnesAppend(FlattenAll(parts), FlattenAll(more));
    }
  }

  lemma {:induction false} ConvertedOnes(elements: seq<Written>, kind: Kind)
    requires AllScalars(elements)
    ensures Ones(FlattenAll(Converted(elements, kind))) <= Scalars(elements)
  {
    if elements != [] {
      ConvertedOnes(elements[1..], kind);
      assert Converted(elements, kind)[1..] == Converted(elements[1..], kind);
      var first := [ScalarOf(elements[0], kind)];
      assert Flatten(Converted(elements, kind)[0]) == first && first[1..] == [];
      OnesAppend(first, FlattenAll(Converted(elements[1..], kind)));
    }
  }

  lemma {:induction false} GroupedOnes(dims: seq<nat>, rest: seq<Written>, kind: Kind, done: seq<Init>,
                                       run: seq<Written>)
    requires |dims| > 1 && Grouped(dims, rest, kind, done, run).Some?
    ensures Ones(FlattenAll(Grouped(dims, rest, kind, done, run).value))
         <= Ones(FlattenAll(done)) + Scalars(run) + Scalars(rest)
    decreases |dims|, 0, |rest| + 1
  {
    hide Typed, RunIsFull, Flatten, FlattenAll, Ones;
    if rest == [] {
      if run != [] {
        ElementOnes(dims, run, kind, done);
      }
    } else {
      var e := rest[0];
      var next := Taken(dims, e, kind, done, run);
      GroupedOnes(dims, rest[1..], kind, next.value.0, next.value.1);
      ScalarsAppend(run, [e]);
      assert [e][1..] == [];
      if e.Braces? && run == [] {
        ElementOnes(dims, e.elements, kind, done);
      } else if e.Braces? || e.kind == kind {
        if RunIsFull(dims, run + [e]) {
          ElementOnes(dims, run + [e], kind, done);
        }
      }
    }
  }

  lemma {:induction false} ElementOnes(dims: seq<nat>, elements: seq<Written>, kind: Kind, done: seq<Init>)
    requires |dims| > 1 && Closed(dims, elements, kind, done).Some?
    ensures Ones(FlattenAll(Closed(dims, elements, kind, done).value)) <= Ones(FlattenAll(done)) + Scalars(elements)
    decreases |dims|, 0, 0
  {
    hide Typed, Flatten, FlattenAll, Ones;
    var t := Typed(dims[1..], elements, kind);
    TypedOnes(dims[1..], elements, kind);
    FlattenAllAppends(done, [t.value]);
    FlattenOne(t.value);
    OnesAppend(FlattenAll(done), Flatten(t.value));
  }

  // ---- No scalar is lost ----

  ghost predicate NothingLost(r: Option<seq<Init>>, done: seq<Init>, run: seq<Written>, rest: seq<Written>) {
    r.Some? && Ones(FlattenAll(r.value)) == Ones(FlattenAll(done)) + Scalars(run) + Scalars(rest)
  }

  /** A scalar of another kind that stands directly in a list for an array of arrays is lost. */
  lemma OtherKindIsLost(dims: seq<nat>, elements: seq<Written>, kind: Kind, done: seq<Init>, run: seq<Written>)
    requires |dims| > 1 && elements != [] && NothingLost(Grouped(dims, elements, kind, done, run), done, run, elements)
    ensures elements[0].Scalar? ==> elements[0].kind == kind
  {
    hide Typed, RunIsFull, FlattenAll, Ones;
    var e := elements[0];
    assert e.Scalar? ==> ScalarsOne(e) == 1;
    if e.Scalar? && e.kind != kind {
      assert Taken(dims, e, kind, done, run) == Some((done, run));
      GroupedOnes(dims, elements[1..], kind, done, run);
    }
  }

  /** If nothing is lost in the whole, nothing is lost in an element nor behind it. */
  lemma LostNowhere(dims: seq<nat>, rest: seq<Written>, kind: Kind, done: seq<Init>, elements: seq<Written>)
    requires |dims| > 1 && Typed(dims[1..], elements, kind).Some?
    requires NothingLost(Grouped(dims, rest, kind, done + [Typed(dims[1..], elements, kind).value], []), done, elements,
        rest)
    ensures var t := Typed(dims[1..], elements, kind).value;
      && Ones(Flatten(t)) == Scalars(elements)
      && NothingLost(Grouped(dims, rest, kind, done + [t], []), done + [t], [], rest)
  {
    hide Typed, Grouped, Flatten, FlattenAll, Ones;
    var t := Typed(dims[1..], elements, kind).value;
    TypedOnes(dims[1..], elements, kind);
    GroupedOnes(dims, rest, kind, done + [t], []);
    FlattenAllAppends(done, [t]);
    FlattenOne(t);
    OnesAppend(FlattenAll(done), Flatten(t));
  }

  lemma JoiningLosesNothing(r: Option<seq<Init>>, done: seq<Init>, run: seq<Written>, elements: seq<Written>)
    requires elements != [] && NothingLost(r, done, run, elements)
    ensures NothingLost(r, done, run + [elements[0]], elements[1..])
  {
    hide FlattenAll, Ones;
    ScalarsAppend(run, [elements[0]]);
    assert [elements[0]][1..] == [];
  }

  lemma BraceLosesNothing(r: Option<seq<Init>>, done: seq<Init>, elements: seq<Written>)
    requires elements != [] && elements[0].Braces? && NothingLost(r, done, [], elements)
    ensures NothingLost(r, done, elements[0].elements, elements[1..])
  {
    hide FlattenAll, Ones;
    assert ScalarsOne(elements[0]) == Scalars(elements[0].elements);
  }

  // ---- One element of the result ----

  /** An element of a right result holds its part of the leaves. */
  lemma ElementOfRight(dims: seq<nat>, r: Option<seq<Init>>, before: seq<Leaf>, own: seq<Leaf>, behind: seq<Leaf>,
                       i: nat)
    requires |dims| > 1 && GroupedRight(dims, r, before + own + behind) && i < |r.value|
    requires |before| == i * Size(dims[1..]) && |own| == Size(dims[1..]) && |before + own + behind| <= Size(dims)
    ensures HasShape(r.value[i], dims[1..]) && Flatten(r.value[i]) == own
  {
    hide *;
    var zeros := ZerosBehind(dims, r, before + own + behind);
    forall k: nat | k < |own| ensures |Flatten(r.value[i])| == |own| && Flatten(r.value[i])[k] == own[k] {
      FlattenAllAt(r.value, dims[1..], i, k);
      PlaceOf(FlattenAll(r.value), zeros, before, own, behind, Size(dims), k);
    }
    ShapeFixesLength(r.value[i], dims[1..]);
  }

  lemma ZerosBehind(dims: seq<nat>, r: Option<seq<Init>>, leaves: seq<Leaf>) returns (zeros: seq<Leaf>)
    requires dims != [] && GroupedRight(dims, r, leaves)
    ensures r.Some? && AllHaveShape(r.value, dims[1..])
    ensures forall i :: 0 <= i < |r.value| ==> HasShape(r.value[i], dims[1..])
    ensures FlattenAll(r.value) + zeros == Padded(leaves, Size(dims))
  {
    hide Size, FlattenAll, HasShape, Padded;
    zeros := Zeros((dims[0] - |r.value|) * Size(dims[1..]));
  }

  lemma PlaceOf(all: seq<Leaf>, zeros: seq<Leaf>, before: seq<Leaf>, own: seq<Leaf>, behind: seq<Leaf>, size: nat,
                k: nat)
    requires all + zeros == Padded(before + own + behind, size) && |before + own + behind| <= size
    requires k < |own| && |before| + k < |all|
    ensures all[|before| + k] == own[k]
  {
    assert (all + zeros)[|before| + k] == all[|before| + k];
    assert (before + own + behind)[|before| + k] == own[k];
  }

  lemma SameLeaves(dims: seq<nat>, r: Option<seq<Init>>, a: seq<Leaf>, b: seq<Leaf>)
    requires dims != [] && GroupedRight(dims, r, a) && Padded(a, Size(dims)) == Padded(b, Size(dims))
    ensures GroupedRight(dims, r, b)
  {
  }

  /** The same for an element that the list leaves partly open and nothing but zeros behind. */
  lemma OpenElementOfRight(dims: seq<nat>, r: Option<seq<Init>>, before: seq<Leaf>, own: seq<Leaf>, behind: seq<Leaf>,
                           i: nat)
    requires |dims| > 1 && GroupedRight(dims, r, before + own + behind) && i < |r.value| && AllZero(behind)
    requires |before| == i * Size(dims[1..]) && |own| <= Size(dims[1..]) && |before + own + behind| <= Size(dims)
    ensures TypedRight(dims[1..], Some(r.value[i]), own)
  {
    hide HasShape, Flatten, FlattenAll, Size;
    var full := Padded(own, Size(dims[1..]));
    RoomForOneMore(dims, i);
    assert Padded(before + own + behind, Size(dims)) == Padded(before + full + [], Size(dims));
    SameLeaves(dims, r, before + own + behind, before + full + []);
    ElementOfRight(dims, r, before, full, [], i);
  }

  // ---- Ones ----

  lemma OnesInside(elements: seq<Written>)
    requires elements != [] && AllOnes(elements)
    ensures AllOnes(elements[1..]) && IsOne(elements[0]) && (elements[0].Braces? ==> AllOnes(elements[0].elements))
  {
    assert forall i :: 0 <= i < |elements[1..]| ==> elements[1..][i] == elements[i + 1];
  }

  lemma OnesJoin(run: seq<Written>, e: Written)
    requires AllOnes(run) && IsOne(e)
    ensures AllOnes(run + [e])
  {
  }

  lemma OnesAfter(p: seq<Written>, x: seq<Written>)
    requires p != [] && AllOnes(p + x)
    ensures (p + x)[0] == p[0] && (p + x)[1..] == p[1..] + x && AllOnes(p[1..] + x)
    ensures IsOne(p[0]) && (p[0].Braces? ==> AllOnes(p[0].elements)) && AllOnes(p)
  {
    OnesInside(p + x);
    assert forall i :: 0 <= i < |p| ==> (p + x)[i] == p[i];
  }

  // ---- Behind an element that was closed too early ----

  /** A right tree without scalars comes from braces that fit. */
  lemma {:induction false} HollowOnlyIf(dims: seq<nat>, elements: seq<Written>, kind: Kind)
    requires dims != [] && Scalars(elements) == 0
    requires Typed(dims, elements, kind).Some? && HasShape(Typed(dims, elements, kind).value, dims)
    ensures HollowFits(dims, elements)
    decreases elements, 1
  {
    if elements != [] {
      assert Scalars(elements) == ScalarsOne(elements[0]) + Scalars(elements[1..]);
      assert elements[0].Braces?;
      if |dims| > 1 {
        ShapedParts(dims, elements, kind);
        HollowRestOnlyIf(dims, elements, kind, []);
      }
    }
  }

  lemma ShapedParts(dims: seq<nat>, elements: seq<Written>, kind: Kind)
    requires |dims| > 1 && elements != []
    requires Typed(dims, elements, kind).Some? && HasShape(Typed(dims, elements, kind).value, dims)
    ensures var r := Grouped(dims, elements, kind, [], []);
      r.Some? && |r.value| <= dims[0] && AllHaveShape(r.value, dims[1..])
  {
    hide Grouped;
    var r := Grouped(dims, elements, kind, [], []);
    var all := Extended(r.value, dims[0], Zero(dims[1..]));
    assert forall i :: 0 <= i < |r.value| ==> all[i] == r.value[i];
  }

  lemma {:induction false} HollowRestOnlyIf(dims: seq<nat>, rest: seq<Written>, kind: Kind, done: seq<Init>)
    requires |dims| > 1 && Scalars(rest) == 0
    requires var r := Grouped(dims, rest, kind, done, []);
      r.Some? && |r.value| <= dims[0] && AllHaveShape(r.value, dims[1..])
    ensures HollowRest(dims, rest, |done|)
    decreases rest, 0
  {
    hide Typed, HasShape, Taken, HollowFits;
    GroupedKeeps(dims, rest, kind, done, []);
    if rest != [] {
      assert Scalars(rest) == ScalarsOne(rest[0]) + Scalars(rest[1..]);
      var e := rest[0];
      assert e.Braces? && Scalars(e.elements) == 0;
      var t := Typed(dims[1..], e.elements, kind);
      BraceTaken(dims, rest, kind, done, t);
      GroupedKeeps(dims, rest[1..], kind, done + [t.value], []);
      LastKept(Grouped(dims, rest, kind, done, []).value, done, t.value);
      HollowOnlyIf(dims[1..], e.elements, kind);
      HollowRestOnlyIf(dims, rest[1..], kind, done + [t.value]);
      HollowJoins(dims, rest, |done|);
    }
  }

  lemma HollowJoins(dims: seq<nat>, rest: seq<Written>, n: nat)
    requires |dims| > 1 && rest != [] && rest[0].Braces? && HollowFits(dims[1..], rest[0].elements)
    requires HollowRest(dims, rest[1..], n + 1)
    ensures HollowRest(dims, rest, n)
  {
    hide HollowFits;
    forall i | 0 <= i < |rest| ensures rest[i].Braces? && HollowFits(dims[1..], rest[i].elements) {
      assert i > 0 ==> rest[i] == rest[1..][i - 1];
    }
  }

  lemma LastKept(parts: seq<Init>, done: seq<Init>, t: Init)
    requires |done| + 1 <= |parts| && parts[..|done| + 1] == done + [t]
    ensures parts[|done|] == t && parts[..|done|] == done
  {
    assert parts[|done|] == parts[..|done| + 1][|done|];
    assert parts[..|done|] == parts[..|done| + 1][..|done|];
  }

  /** The leaves of the first elements of a right result are the first leaves. */
  lemma FirstElements(dims: seq<nat>, r: Option<seq<Init>>, leaves: seq<Leaf>, n: nat)
    requires |dims| > 1 && GroupedRight(dims, r, leaves) && n <= |r.value| && |leaves| <= Size(dims)
    ensures n * Size(dims[1..]) <= |Padded(leaves, Size(dims))| == Size(dims)
    ensures FlattenAll(r.value[..n]) == Padded(leaves, Size(dims))[..n * Size(dims[1..])]
  {
    hide HasShape, FlattenAll, Size;
    var parts := r.value;
    assert parts == parts[..n] + parts[n..];
    FlattenAllAppends(parts[..n], parts[n..]);
    AllFixLength(parts[..n], dims[1..]);
    AllFixLength(parts, dims[1..]);
    AtLeastAsMany(dims[0], n, Size(dims[1..]));
    SplitSize(dims, n);
  }

  /** A scalar that stands before the place the elements made so far end at is among them. */
  lemma ScalarInside(dims: seq<nat>, r: Option<seq<Init>>, sem: seq<Leaf>, own: seq<Leaf>, behind: seq<Leaf>,
                     n: nat)
    requires |dims| > 1 && GroupedRight(dims, r, sem + own + behind) && n <= |r.value|
    requires |sem + own + behind| <= Size(dims) && |sem| + |own| <= n * Size(dims[1..])
    ensures Ones(sem) + Ones(own) <= Ones(FlattenAll(r.value[..n]))
  {
    hide HasShape, FlattenAll, Size, Ones;
    var leaves := sem + own + behind;
    FirstElements(dims, r, leaves, n);
    var all := Padded(leaves, Size(dims))[..n * Size(dims[1..])];
    var more := all[|sem| + |own|..];
    assert all == (sem + own) + more;
    OnesAppend(sem + own, more);
    OnesAppend(sem, own);
  }

  /** Behind an element that was closed too early, only empty braces can follow. */
  lemma {:induction false} EarlyOnlyIf(dims: seq<nat>, p: seq<Written>, x: seq<Written>, kind: Kind, done: seq<Init>,
                                       sem: seq<Leaf>)
    requires |dims| > 1 && AllHaveShape(done, dims[1..]) && |sem| < |done| * Size(dims[1..])
    requires Legal(dims, p, |sem|) && (x == [] || End(dims, p, |sem|) == Size(dims)) && AllOnes(p + x)
    requires GroupedRight(dims, Grouped(dims, p + x, kind, done, []), sem + Laid(dims, p, |sem|, kind))
    requires NothingLost(Grouped(dims, p + x, kind, done, []), done, [], p + x)
    requires Ones(FlattenAll(done)) == Ones(sem)
    ensures x == [] && HollowRest(dims, p, |done|) && Scalars(p) == 0
    decreases |p|
  {
    hide *;
    var r, size := Grouped(dims, p + x, kind, done, []), Size(dims[1..]);
    RightFacts(dims, r, sem + Laid(dims, p, |sem|, kind));
    GroupedKeeps(dims, p + x, kind, done, []);
    EndGrows(dims, p, |sem|);
    LaidLength(dims, p, |sem|, kind);
    if p == [] {
      NothingLaid(dims, |sem|, kind);
      if x != [] {
        AtLeastAsMany(dims[0], |done|, size);
        assert false;
      }
      HollowNone(dims, |done|);
    } else {
      var e := p[0];
      var q := |sem| + Step(dims, e, |sem|);
      OnesAfter(p, x);
      LegalHead(dims, p, |sem|, kind);
      StepStaysBelow(dims, e, |sem|, |done|);
      OnesLaidOne(dims, e, |sem|, kind);
      var own, behind := LaidOne(dims, e, |sem|, kind), Laid(dims, p[1..], q, kind);
      assert sem + (own + behind) == sem + own + behind;
      ScalarInside(dims, r, sem, own, behind, |done|);
      ScalarHasOne(e);
      var t := Typed(dims[1..], e.elements, kind);
      BraceTaken(dims, p + x, kind, done, t);
      BraceLosesNothing(r, done, p + x);
      SomeTyped(dims, p + x, kind, done);
      LostNowhere(dims, p[1..] + x, kind, done, e.elements);
      GroupedKeeps(dims, p[1..] + x, kind, done + [t.value], []);
      LastKept(r.value, done, t.value);
      OneMoreElement(done, t.value, dims[1..], FlattenAll(done));
      OneMore(|done|, size);
      OnesAppend(FlattenAll(done), Flatten(t.value));
      OnesAppend(sem, own);
      EarlyOnlyIf(dims, p[1..], x, kind, done + [t.value], sem + own);
      HollowOnlyIf(dims[1..], e.elements, kind);
      HollowJoins(dims, p, |done|);
      HollowHasNone(dims, p, |done|);
    }
  }

  lemma RightFacts(dims: seq<nat>, r: Option<seq<Init>>, leaves: seq<Leaf>)
    requires dims != [] && GroupedRight(dims, r, leaves)
    ensures r.Some? && |r.value| <= dims[0] && AllHaveShape(r.value, dims[1..])
    ensures forall i :: 0 <= i < |r.value| ==> HasShape(r.value[i], dims[1..])
    ensures Size(dims) == dims[0] * Size(dims[1..])
  {
  }

  lemma HollowNone(dims: seq<nat>, n: nat)
    requires |dims| > 1 && n <= dims[0]
    ensures HollowRest(dims, [], n) && Scalars([]) == 0
  {
  }

  lemma LegalHead(dims: seq<nat>, p: seq<Written>, position: nat, kind: Kind)
    requires dims != [] && p != [] && Legal(dims, p, position)
    ensures var e := p[0];
      var q := position + Step(dims, e, position);
      && Legal(dims, p[1..], q) && End(dims, p, position) == End(dims, p[1..], q)
      && Laid(dims, p, position, kind) == LaidOne(dims, e, position, kind) + Laid(dims, p[1..], q, kind)
      && |LaidOne(dims, e, position, kind)| == Step(dims, e, position)
      && (e.Braces? ==> Opened(dims, position) != [] && Legal(Opened(dims, position), e.elements, 0))
  {
    var e := p[0];
    if e.Braces? {
      LaidLength(Opened(dims, position), e.elements, 0, kind);
    }
  }

  lemma ScalarHasOne(e: Written)
    ensures ScalarsOne(e) == 0 ==> e.Braces? && Scalars(e.elements) == 0
  {
  }

  lemma SomeTyped(dims: seq<nat>, elements: seq<Written>, kind: Kind, done: seq<Init>)
    requires |dims| > 1 && elements != [] && elements[0].Braces? && Grouped(dims, elements, kind, done, []).Some?
    ensures Typed(dims[1..], elements[0].elements, kind).Some?
  {
    BraceTaken(dims, elements, kind, done, Typed(dims[1..], elements[0].elements, kind));
  }

  // ---- The condition is needed ----

  /** Let `p` be allowed, with further items `x` only if `p` fills the array. If the tree of both is
      right for `p` and no scalar is lost, there are no further items, and the runs close. */
  lemma {:induction false} OnlyIf(dims: seq<nat>, p: seq<Written>, x: seq<Written>, kind: Kind)
    requires dims != [] && AllOnes(p + x) && Legal(dims, p, 0)
    requires x == [] || 0 < End(dims, p, 0) == Size(dims)
    requires TypedRight(dims, Typed(dims, p + x, kind), Laid(dims, p, 0, kind))
    requires Ones(Flatten(Typed(dims, p + x, kind).value)) == Scalars(p + x)
    ensures x == [] && RunsClose(dims, p, kind)
    decreases |dims|, 1, 0
  {
    if p == [] {
      assert End(dims, p, 0) == 0;
    } else if |dims| == 1 {
      TrivialOnlyIf(dims, p, x, kind);
    } else {
      hide *;
      StartsEmpty(dims, p, kind);
      TypedIsGrouped(dims, p + x, kind, Laid(dims, p, 0, kind));
      StartsLossless(dims, p + x, kind, Laid(dims, p, 0, kind));
      assert [] + [] + Laid(dims, p, 0, kind) == Laid(dims, p, 0, kind);
      NothingYet();
      NoOnesYet();
      GroupingOnlyIf(dims, p, x, kind, [], [], []);
      CloseStarts(dims, p, kind);
    }
  }

  lemma NoOnesYet()
    ensures AllOnes([])
  {
  }

  lemma CloseStarts(dims: seq<nat>, p: seq<Written>, kind: Kind)
    requires |dims| > 1 && RunsCloseFrom(dims, p, 0, [], kind)
    ensures RunsClose(dims, p, kind)
  {
    hide RunsCloseFrom;
  }

  lemma TrivialOnlyIf(dims: seq<nat>, p: seq<Written>, x: seq<Written>, kind: Kind)
    requires |dims| == 1 && p != [] && Legal(dims, p, 0) && (x == [] || End(dims, p, 0) == Size(dims))
    requires Typed(dims, p + x, kind).Some? && HasShape(Typed(dims, p + x, kind).value, dims)
    ensures x == [] && RunsClose(dims, p, kind)
  {
    ScalarsAreLaid(dims, p, 0, kind);
    assert |Extended(Converted(p + x, kind), dims[0], Value(Constant(0)))| == dims[0];
  }

  lemma StartsLossless(dims: seq<nat>, elements: seq<Written>, kind: Kind, leaves: seq<Leaf>)
    requires |dims| > 1 && elements != [] && GroupedRight(dims, Grouped(dims, elements, kind, [], []), leaves)
    requires Typed(dims, elements, kind).Some? && Ones(Flatten(Typed(dims, elements, kind).value)) == Scalars(elements)
    ensures NothingLost(Grouped(dims, elements, kind, [], []), [], [], elements)
  {
    hide Typed, Grouped, Flatten;
    TypedMeans(dims, elements, kind);
    ZeroFlattens(dims[1..]);
    ExtendedOnes(Grouped(dims, elements, kind, [], []).value, dims[0], Zero(dims[1..]), Size(dims[1..]));
  }

  /** The run at the end of the list. */
  lemma {:induction false} EndOnlyIf(dims: seq<nat>, kind: Kind, done: seq<Init>, run: seq<Written>, before: seq<Leaf>)
    requires |dims| > 1 && AllHaveShape(done, dims[1..]) && FlattenAll(done) == before
    requires Legal(dims[1..], run, 0) && AllOnes(run) && |before| + End(dims[1..], run, 0) <= Size(dims)
    requires GroupedRight(dims, Grouped(dims, [], kind, done, run), before + Laid(dims[1..], run, 0, kind))
    requires NothingLost(Grouped(dims, [], kind, done, run), done, run, [])
    ensures RunsClose(dims[1..], run, kind)
    decreases |dims|, 0, 0
  {
    hide *;
    var inner, r := dims[1..], Grouped(dims, [], kind, done, run);
    if run == [] {
      EmptyCloses(inner, kind);
    } else {
      RightFacts(dims, r, before + Laid(inner, run, 0, kind));
      AllFixLength(done, inner);
      LaidLength(inner, run, 0, kind);
      LastRun(dims, kind, done, run);
      var t := Typed(inner, run, kind);
      GroupedEnds(dims, kind, done + [t.value], []);
      LostNowhere(dims, [], kind, done, run);
      assert before + Laid(inner, run, 0, kind) == before + Laid(inner, run, 0, kind) + [];
      NoneZero();
      OpenElementOfRight(dims, r, before, Laid(inner, run, 0, kind), [], |done|);
      assert run + [] == run;
      OnlyIf(inner, run, [], kind);
    }
  }

  lemma NoneZero()
    ensures AllZero([])
  {
  }

  lemma EmptyCloses(dims: seq<nat>, kind: Kind)
    requires dims != []
    ensures RunsClose(dims, [], kind)
  {
  }

  lemma LastRun(dims: seq<nat>, kind: Kind, done: seq<Init>, run: seq<Written>)
    requires |dims| > 1 && run != [] && Grouped(dims, [], kind, done, run).Some?
    ensures var t := Typed(dims[1..], run, kind);
      t.Some? && Grouped(dims, [], kind, done, run) == Some(done + [t.value]) && (done + [t.value])[|done|] == t.value
  {
    hide Typed;
  }

  /** A run that has filled its element without being counted as one is not closed rightly any more if
      another item follows. */
  lemma {:induction false} OverfullFails(dims: seq<nat>, rest: seq<Written>, kind: Kind, done: seq<Init>,
                                         full: seq<Written>, extra: seq<Written>)
    requires |dims| > 1 && Legal(dims[1..], full, 0) && 0 < End(dims[1..], full, 0) == Size(dims[1..])
    requires AllOnes(full + extra) && AllOnes(rest) && (extra != [] || rest != [])
    requires NothingLost(Grouped(dims, rest, kind, done, full + extra), done, full + extra, rest)
    requires var parts := Grouped(dims, rest, kind, done, full + extra).value;
      |done| < |parts| ==> TypedRight(dims[1..], Some(parts[|done|]), Laid(dims[1..], full, 0, kind))
    ensures false
    decreases |dims|, 0, 2 * |rest|
  {
    hide *;
    var inner, r, run := dims[1..], Grouped(dims, rest, kind, done, full + extra), full + extra;
    FilledIsSome(inner, full);
    LosslessIsSome(r, done, run, rest);
    if rest == [] {
      LastRun(dims, kind, done, run);
      var t := Typed(inner, run, kind);
      GroupedEnds(dims, kind, done + [t.value], []);
      LostNowhere(dims, [], kind, done, run);
      OnlyIf(inner, full, extra, kind);
    } else {
      var e := rest[0];
      OnesInside(rest);
      OnesJoin(run, e);
      OtherKindIsLost(dims, rest, kind, done, run);
      ItemJoinsRun(dims, rest, kind, done, run);
      JoiningLosesNothing(r, done, run, rest);
      assert full + (extra + [e]) == run + [e];
      if RunIsFull(dims, run + [e]) {
        var t := Typed(inner, run + [e], kind);
        LostNowhere(dims, rest[1..], kind, done, run + [e]);
        GroupedKeeps(dims, rest[1..], kind, done + [t.value], []);
        LastKept(r.value, done, t.value);
        OnlyIf(inner, full, extra + [e], kind);
      } else {
        OverfullFails(dims, rest[1..], kind, done, full, extra + [e]);
      }
    }
  }

  lemma FilledIsSome(dims: seq<nat>, full: seq<Written>)
    requires dims != [] && 0 < End(dims, full, 0)
    ensures full != []
  {
  }

  lemma LosslessIsSome(r: Option<seq<Init>>, done: seq<Init>, run: seq<Written>, rest: seq<Written>)
    requires NothingLost(r, done, run, rest)
    ensures r.Some?
  {
  }

  /** Grouping, from any point of the list. */
  lemma {:induction false} GroupingOnlyIf(dims: seq<nat>, p: seq<Written>, x: seq<Written>, kind: Kind, done: seq<Init>,
                                          run: seq<Written>, before: seq<Leaf>)
    requires |dims| > 1 && AllHaveShape(done, dims[1..]) && FlattenAll(done) == before
    requires Legal(dims[1..], run, 0) && End(dims[1..], run, 0) < Size(dims[1..]) && AllOnes(run) && AllOnes(p + x)
    requires Legal(dims, p, |before| + End(dims[1..], run, 0))
    requires x == [] || End(dims, p, |before| + End(dims[1..], run, 0)) == Size(dims)
    requires GroupedRight(dims, Grouped(dims, p + x, kind, done, run),
        before + Laid(dims[1..], run, 0, kind) + Laid(dims, p, |before| + End(dims[1..], run, 0), kind))
    requires NothingLost(Grouped(dims, p + x, kind, done, run), done, run, p + x)
    ensures x == [] && RunsCloseFrom(dims, p, |done|, run, kind)
    decreases |dims|, 0, 3 * |p + x| + 2
  {
    hide *;
    var inner := dims[1..];
    var q, r := |before| + End(inner, run, 0), Grouped(dims, p + x, kind, done, run);
    AllFixLength(done, inner);
    EndGrows(dims, p, q);
    RightFacts(dims, r, before + Laid(inner, run, 0, kind) + Laid(dims, p, q, kind));
    if p == [] {
      NothingLaid(dims, q, kind);
      if x == [] {
        assert before + Laid(inner, run, 0, kind) + [] == before + Laid(inner, run, 0, kind);
        assert [] + x == [];
        EndOnlyIf(dims, kind, done, run, before);
        CloseEnds(dims, |done|, run, kind);
      } else {
        assert [] + x == x;
        EndGrows(inner, run, 0);
        FullArray(|done|, dims[0], Size(inner), End(inner, run, 0));
        ExtraMakesMore(dims, x, kind, done);
      }
    } else {
      var e := p[0];
      OnesAfter(p, x);
      if e.Braces? && run == [] {
        NextItem(dims, p, |done|, run, kind);
        var next := q + Step(dims, e, q);
        var own, behind := LaidOne(dims, e, q, kind), Laid(dims, p[1..], next, kind);
        SomeTyped(dims, p + x, kind, done);
        var t := Typed(inner, e.elements, kind);
        BraceTaken(dims, p + x, kind, done, t);
        BraceLosesNothing(r, done, p + x);
        LostNowhere(dims, p[1..] + x, kind, done, e.elements);
        GroupedKeeps(dims, p[1..] + x, kind, done + [t.value], []);
        LastKept(r.value, done, t.value);
        EndGrows(dims, p[1..], next);
        LaidLength(dims, p[1..], next, kind);
        LaidLength(inner, e.elements, 0, kind);
        NoneLaid(inner, kind);
        assert before + [] + (own + behind) == before + own + behind;
        PaddedIsLong(Laid(inner, e.elements, 0, kind), Size(inner));
        ElementOfRight(dims, r, before, own, behind, |done|);
        TypedRightIs(inner, t, Laid(inner, e.elements, 0, kind));
        assert e.elements + [] == e.elements;
        OnlyIf(inner, e.elements, [], kind);
        NextElement(dims, p[1..] + x, kind, done, t.value, before);
        OneMoreElement(done, t.value, inner, before);
        LegalHead(dims, p, q, kind);
        assert before + own + [] + behind == before + own + behind;
        GroupingOnlyIf(dims, p[1..], x, kind, done + [t.value], [], before + own);
        CloseBrace(dims, p, |done|, kind);
      } else {
        RunOnlyIf(dims, p, x, kind, done, run, before);
      }
    }
  }

  lemma PaddedIsLong(leaves: seq<Leaf>, size: nat)
    requires |leaves| <= size
    ensures |Padded(leaves, size)| == size
  {
  }

  lemma TypedRightIs(dims: seq<nat>, t: Option<Init>, leaves: seq<Leaf>)
    requires t.Some? && HasShape(t.value, dims) && Flatten(t.value) == Padded(leaves, Size(dims))
    ensures TypedRight(dims, t, leaves)
  {
  }

  lemma CloseEnds(dims: seq<nat>, n: nat, run: seq<Written>, kind: Kind)
    requires |dims| > 1 && RunsClose(dims[1..], run, kind)
    ensures RunsCloseFrom(dims, [], n, run, kind)
  {
    hide RunsClose;
  }

  lemma CloseBrace(dims: seq<nat>, p: seq<Written>, n: nat, kind: Kind)
    requires |dims| > 1 && p != [] && p[0].Braces? && RunsClose(dims[1..], p[0].elements, kind)
    requires RunsCloseFrom(dims, p[1..], n + 1, [], kind)
    ensures RunsCloseFrom(dims, p, n, [], kind)
  {
    hide RunsClose, RunIsFull, HollowRest, End;
  }

  lemma FullArray(n: nat, m: nat, size: nat, r: nat)
    requires n * size + r == m * size && r < size
    ensures n == m && r == 0
  {
    RoomIn(n, m, size, r);
    if n < m {
      AtLeastAsMany(m, n + 1, size);
      OneMore(n, size);
    }
  }

  /** An item behind the last element becomes one more. */
  lemma ExtraMakesMore(dims: seq<nat>, x: seq<Written>, kind: Kind, done: seq<Init>)
    requires |dims| > 1 && x != [] && NothingLost(Grouped(dims, x, kind, done, []), done, [], x)
    ensures |done| < |Grouped(dims, x, kind, done, []).value|
  {
    hide Typed, RunIsFull, Grouped, NothingLost;
    LosslessIsSome(Grouped(dims, x, kind, done, []), done, [], x);
    OtherKindIsLost(dims, x, kind, done, []);
    if x[0].Braces? {
      SomeTyped(dims, x, kind, done);
      var t := Typed(dims[1..], x[0].elements, kind);
      BraceTaken(dims, x, kind, done, t);
      GroupedKeeps(dims, x[1..], kind, done + [t.value], []);
    } else {
      ItemJoinsRun(dims, x, kind, done, []);
      var t := Typed(dims[1..], [] + [x[0]], kind);
      if RunIsFull(dims, [] + [x[0]]) {
        GroupedKeeps(dims, x[1..], kind, done + [t.value], []);
      } else {
        GroupedKeeps(dims, x[1..], kind, done, [] + [x[0]]);
      }
    }
  }

  /** An item that joins the run. */
  lemma {:induction false} RunOnlyIf(dims: seq<nat>, p: seq<Written>, x: seq<Written>, kind: Kind, done: seq<Init>,
                                     run: seq<Written>, before: seq<Leaf>)
    requires |dims| > 1 && AllHaveShape(done, dims[1..]) && FlattenAll(done) == before
    requires Legal(dims[1..], run, 0) && End(dims[1..], run, 0) < Size(dims[1..]) && AllOnes(run) && AllOnes(p + x)
    requires Legal(dims, p, |before| + End(dims[1..], run, 0)) && p != [] && (p[0].Scalar? || run != [])
    requires x == [] || End(dims, p, |before| + End(dims[1..], run, 0)) == Size(dims)
    requires GroupedRight(dims, Grouped(dims, p + x, kind, done, run),
        before + Laid(dims[1..], run, 0, kind) + Laid(dims, p, |before| + End(dims[1..], run, 0), kind))
    requires NothingLost(Grouped(dims, p + x, kind, done, run), done, run, p + x)
    ensures x == [] && RunsCloseFrom(dims, p, |done|, run, kind)
    decreases |dims|, 0, 3 * |p + x| + 1
  {
    hide *;
    var inner, e, rest := dims[1..], p[0], p[1..];
    var q := |before| + End(inner, run, 0);
    var longer, next, r := run + [e], q + Step(dims, e, q), Grouped(dims, p + x, kind, done, run);
    var own, behind := Laid(inner, longer, 0, kind), Laid(dims, rest, next, kind);
    AllFixLength(done, inner);
    OnesAfter(p, x);
    OnesJoin(run, e);
    NextItem(dims, p, |done|, run, kind);
    LegalHead(dims, p, q, kind);
    OtherKindIsLost(dims, p + x, kind, done, run);
    ItemJoinsRun(dims, p + x, kind, done, run);
    JoiningLosesNothing(r, done, run, p + x);
    EndGrows(inner, longer, 0);
    EndGrows(dims, rest, next);
    LaidLength(inner, longer, 0, kind);
    LaidLength(dims, rest, next, kind);
    assert before + Laid(inner, run, 0, kind) + (LaidOne(dims, e, q, kind) + behind)
        == before + (Laid(inner, run, 0, kind) + LaidOne(dims, e, q, kind)) + behind;
    assert GroupedRight(dims, r, before + own + behind);
    RightFacts(dims, r, before + own + behind);
    if RunIsFull(dims, longer) {
      FullRunOnlyIf(dims, p, x, kind, done, run, before);
    } else if End(inner, longer, 0) < Size(inner) {
      GroupingOnlyIf(dims, rest, x, kind, done, longer, before);
      CloseRun(dims, p, |done|, run, kind);
    } else if rest + x == [] {
      assert rest == [] && x == [];
      NothingLaid(dims, next, kind);
      assert before + own + [] == before + own;
      EndOnlyIf(dims, kind, done, longer, before);
      CloseRun(dims, p, |done|, run, kind);
    } else {
      NoOnesYet();
      assert longer + [] == longer;
      if |done| < |r.value| {
        FullIsPadded(own, Size(inner));
        ElementOfRight(dims, r, before, own, behind, |done|);
        TypedRightIs(inner, Some(r.value[|done|]), own);
      }
      OverfullFails(dims, rest + x, kind, done, longer, []);
    }
  }

  /** What makes the runs close from an item on that joins the run. */
  lemma CloseRun(dims: seq<nat>, p: seq<Written>, n: nat, run: seq<Written>, kind: Kind)
    requires |dims| > 1 && p != [] && (if p[0].Scalar? then p[0].kind == kind else run != [])
    requires var longer := run + [p[0]];
      var filled := End(dims[1..], longer, 0) == Size(dims[1..]);
      && (RunIsFull(dims, longer) || filled ==> RunsClose(dims[1..], longer, kind))
      && (RunIsFull(dims, longer) && filled ==> RunsCloseFrom(dims, p[1..], n + 1, [], kind))
      && (RunIsFull(dims, longer) && !filled ==> HollowRest(dims, p[1..], n + 1))
      && (!RunIsFull(dims, longer) && filled ==> p[1..] == [])
      && (!RunIsFull(dims, longer) && !filled ==> RunsCloseFrom(dims, p[1..], n, longer, kind))
    ensures RunsCloseFrom(dims, p, n, run, kind)
  {
    hide RunsClose, RunIsFull, HollowRest, End;
  }

  /** An item that makes the run count as full. */
  lemma {:induction false} FullRunOnlyIf(dims: seq<nat>, p: seq<Written>, x: seq<Written>, kind: Kind, done: seq<Init>,
                                         run: seq<Written>, before: seq<Leaf>)
    requires |dims| > 1 && AllHaveShape(done, dims[1..]) && FlattenAll(done) == before
    requires p != [] && (if p[0].Scalar? then p[0].kind == kind else run != []) && AllOnes(p + x)
    requires var inner, longer := dims[1..], run + [p[0]];
      var next, r := |before| + End(inner, longer, 0), Grouped(dims, p + x, kind, done, run);
      && Legal(inner, longer, 0) && AllOnes(longer) && RunIsFull(dims, longer)
      && Legal(dims, p[1..], next) && (x == [] || End(dims, p[1..], next) == Size(dims)) && Size(inner) > 0
      && GroupedRight(dims, r, before + Laid(inner, longer, 0, kind) + Laid(dims, p[1..], next, kind))
      && NothingLost(r, done, longer, p[1..] + x)
    ensures x == [] && RunsCloseFrom(dims, p, |done|, run, kind)
    decreases |dims|, 0, 3 * |p + x|
  {
    hide *;
    var inner, longer, rest := dims[1..], run + [p[0]], p[1..];
    var next, r := |before| + End(inner, longer, 0), Grouped(dims, p + x, kind, done, run);
    var own, behind := Laid(inner, longer, 0, kind), Laid(dims, rest, next, kind);
    AllFixLength(done, inner);
    OnesAfter(p, x);
    EndGrows(inner, longer, 0);
    EndGrows(dims, rest, next);
    LaidLength(inner, longer, 0, kind);
    LaidLength(dims, rest, next, kind);
    RightFacts(dims, r, before + own + behind);
    ItemJoinsRun(dims, p + x, kind, done, run);
    var t := Typed(inner, longer, kind);
    LostNowhere(dims, rest + x, kind, done, longer);
    GroupedKeeps(dims, rest + x, kind, done + [t.value], []);
    LastKept(r.value, done, t.value);
    OneMoreElement(done, t.value, inner, before);
    assert longer + [] == longer;
    if End(inner, longer, 0) == Size(inner) {
      FullIsPadded(own, Size(inner));
      ElementOfRight(dims, r, before, own, behind, |done|);
      TypedRightIs(inner, t, own);
      OnlyIf(inner, longer, [], kind);
      NextElement(dims, rest + x, kind, done, t.value, before);
      NoneLaid(inner, kind);
      NoOnesYet();
      assert before + own + [] + behind == before + own + behind;
      GroupingOnlyIf(dims, rest, x, kind, done + [t.value], [], before + own);
    } else {
      OneMore(|done|, Size(inner));
      OnesAppend(before, own);
      OnesAppend(before, Flatten(t.value));
      OnesLaid(inner, longer, 0, kind);
      EarlyOnlyIf(dims, rest, x, kind, done + [t.value], before + own);
      HollowLaid(dims, rest, next, kind);
      OpenElementOfRight(dims, r, before, own, behind, |done|);
      OnlyIf(inner, longer, [], kind);
    }
    CloseRun(dims, p, |done|, run, kind);
  }

  // ---- For every choice of values ----

  lemma {:induction false} SameHollow(dims: seq<nat>, a: seq<Written>, b: seq<Written>)
    requires dims != [] && SameForm(a, b) && HollowFits(dims, a)
    ensures HollowFits(dims, b)
    decreases a, 1
  {
    if a != [] {
      SameHollowRest(dims, a, b, 0);
    }
  }

  lemma {:induction false} SameHollowRest(dims: seq<nat>, a: seq<Written>, b: seq<Written>, n: nat)
    requires |dims| > 1 && SameForm(a, b) && HollowRest(dims, a, n)
    ensures HollowRest(dims, b, n)
    decreases a, 0
  {
    hide HollowFits;
    forall i | 0 <= i < |b| ensures b[i].Braces? && HollowFits(dims[1..], b[i].elements) {
      assert SameFormOne(a[i], b[i]);
      SameHollow(dims[1..], a[i].elements, b[i].elements);
    }
  }

  lemma SameTail(a: seq<Written>, b: seq<Written>)
    requires SameForm(a, b) && a != []
    ensures b != [] && SameForm(a[1..], b[1..]) && SameFormOne(a[0], b[0])
    ensures a[0].Braces? <==> b[0].Braces?
    ensures a[0].Braces? ==> SameForm(a[0].elements, b[0].elements)
    ensures a[0].Scalar? ==> a[0].kind == b[0].kind
  {
    assert forall i :: 0 <= i < |a[1..]| ==> a[1..][i] == a[i + 1] && b[1..][i] == b[i + 1];
  }

  lemma SameJoin(a: seq<Written>, b: seq<Written>, x: Written, y: Written)
    requires SameForm(a, b) && SameFormOne(x, y)
    ensures SameForm(a + [x], b + [y])
  {
  }

  lemma SameFull(dims: seq<nat>, a: seq<Written>, b: seq<Written>)
    requires |dims| > 1 && SameForm(a, b)
    ensures RunIsFull(dims, a) == RunIsFull(dims, b)
  {
    SameCount(dims[1..], |dims[1..]|, |dims[1..]|, a, b);
  }

  /** Whether the runs close is a matter of form. */
  lemma {:induction false} SameClose(dims: seq<nat>, a: seq<Written>, b: seq<Written>, kind: Kind)
    requires dims != [] && SameForm(a, b) && RunsClose(dims, a, kind)
    ensures RunsClose(dims, b, kind)
    decreases |dims|, 1, 0
  {
    if a != [] && |dims| > 1 {
      assert SameForm([], []);
      SameCloseFrom(dims, a, b, 0, [], [], kind);
    }
  }

  lemma {:induction false} SameCloseFrom(dims: seq<nat>, a: seq<Written>, b: seq<Written>, n: nat, run: seq<Written>,
                                         other: seq<Written>, kind: Kind)
    requires |dims| > 1 && SameForm(a, b) && SameForm(run, other) && RunsCloseFrom(dims, a, n, run, kind)
    ensures RunsCloseFrom(dims, b, n, other, kind)
    decreases |dims|, 0, |a|
  {
    hide *;
    CloseNext(dims, a, n, run, kind);
    var inner := dims[1..];
    SameLengths(a, b);
    SameLengths(run, other);
    if a == [] {
      SameClose(inner, run, other, kind);
      CloseEnds(dims, n, other, kind);
    } else {
      SameTail(a, b);
      if a[0].Braces? && run == [] {
        SameClose(inner, a[0].elements, b[0].elements, kind);
        SameCloseFrom(dims, a[1..], b[1..], n + 1, [], [], kind);
        CloseBrace(dims, b, n, kind);
      } else {
        var longer, longest := run + [a[0]], other + [b[0]];
        SameJoin(run, other, a[0], b[0]);
        SameFull(dims, longer, longest);
        SameLegal(inner, longer, longest, 0);
        var full, filled := RunIsFull(dims, longer), End(inner, longer, 0) == Size(inner);
        SameLengths(a[1..], b[1..]);
        if full || filled {
          SameClose(inner, longer, longest, kind);
        }
        if full && filled {
          NoFormYet();
          SameCloseFrom(dims, a[1..], b[1..], n + 1, [], [], kind);
        } else if full {
          SameHollowRest(dims, a[1..], b[1..], n + 1);
        } else if !filled {
          SameCloseFrom(dims, a[1..], b[1..], n, longer, longest, kind);
        }
        CloseRun(dims, b, n, other, kind);
      }
    }
  }

  lemma NoFormYet()
    ensures SameForm([], [])
  {
  }

  lemma SameLengths(a: seq<Written>, b: seq<Written>)
    requires SameForm(a, b)
    ensures |a| == |b|
  {
  }

  /** Whatever values stand in a list of this form, it is normalised to a tree of exactly the declared
      shape with the leaves that it denotes. */
  ghost predicate AlwaysRight(dims: seq<nat>, elements: seq<Written>, kind: Kind)
    requires dims != []
  {
    forall other :: SameForm(elements, other)
      ==> TypedRight(dims, Typed(dims, other, kind), Laid(dims, other, 0, kind))
  }

  /** Normalisation is right, for all values, if and only if every run closes where it should. */
  lemma NormalisationRightIff(dims: seq<nat>, elements: seq<Written>, kind: Kind)
    requires dims != [] && Legal(dims, elements, 0)
    ensures AlwaysRight(dims, elements, kind) <==> RunsClose(dims, elements, kind)
  {
    hide *;
    if RunsClose(dims, elements, kind) {
      forall other | SameForm(elements, other)
        ensures TypedRight(dims, Typed(dims, other, kind), Laid(dims, other, 0, kind))
      {
        SameLegal(dims, elements, other, 0);
        SameClose(dims, elements, other, kind);
        NormalisationFillsTheArray(dims, other, kind);
      }
      RightAlways(dims, elements, kind);
    }
    if AlwaysRight(dims, elements, kind) {
      var ones := OnesFor(elements);
      OnesForSame(elements);
      RightFor(dims, elements, ones, kind);
      SameLegal(dims, elements, ones, 0);
      assert ones + [] == ones;
      RightHasOnes(dims, ones, kind);
      OnlyIf(dims, ones, [], kind);
      SameFormBack(elements, ones);
      SameClose(dims, ones, elements, kind);
    }
  }

  lemma RightAlways(dims: seq<nat>, elements: seq<Written>, kind: Kind)
    requires dims != []
    requires forall other :: SameForm(elements, other)
               ==> TypedRight(dims, Typed(dims, other, kind), Laid(dims, other, 0, kind))
    ensures AlwaysRight(dims, elements, kind)
  {
    hide SameForm, TypedRight, Typed, Laid;
  }

  lemma RightFor(dims: seq<nat>, elements: seq<Written>, other: seq<Written>, kind: Kind)
    requires dims != [] && AlwaysRight(dims, elements, kind) && SameForm(elements, other)
    ensures TypedRight(dims, Typed(dims, other, kind), Laid(dims, other, 0, kind))
  {
    hide SameForm, TypedRight, Typed, Laid;
  }

  lemma RightHasOnes(dims: seq<nat>, ones: seq<Written>, kind: Kind)
    requires dims != [] && Legal(dims, ones, 0) && AllOnes(ones)
    requires TypedRight(dims, Typed(dims, ones, kind), Laid(dims, ones, 0, kind))
    ensures Ones(Flatten(Typed(dims, ones, kind).value)) == Scalars(ones)
  {
    hide Typed, Flatten, HasShape;
    OnesLaid(dims, ones, 0, kind);
    OnesPadded(Laid(dims, ones, 0, kind), Size(dims));
  }
}
