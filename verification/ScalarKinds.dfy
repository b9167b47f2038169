/**
 * Scalars of another kind than the element: converted in an array of scalars, lost in an array of
 * arrays. And what the condition on the runs says of some lists.
 */
module ScalarKinds {
  import opened Initialisers
  import opened InitialiserLists
  import opened InitialiserMeaning
  import opened Normalisation
  import opened NormalisationExact

  // ---- What is lost ----

  ghost predicate Lost(e: Written, kind: Kind) {
    e.Scalar? && e.kind != kind
  }

  /** The list without the scalars of another kind that stand directly in it. */
  ghost function WithoutLost(elements: seq<Written>, kind: Kind): seq<Written> {
    if elements == [] then []
    else (if Lost(elements[0], kind) then [] else [elements[0]]) + WithoutLost(elements[1..], kind)
  }

  lemma {:induction false} GroupedWithoutLost(dims: seq<nat>, elements: seq<Written>, kind: Kind, done: seq<Init>,
                                              run: seq<Written>)
    requires |dims| > 1
    ensures Grouped(dims, elements, kind, done, run) == Grouped(dims, WithoutLost(elements, kind), kind, done, run)
    decreases |elements|
  {
    hide Typed, RunIsFull;
    if elements != [] {
      var e, rest := elements[0], WithoutLost(elements[1..], kind);
      var next := Taken(dims, e, kind, done, run);
      if Lost(e, kind) {
        assert next == Some((done, run));
        assert [] + rest == rest;
      } else {
        assert ([e] + rest)[0] == e && ([e] + rest)[1..] == rest;
      }
      if next.Some? {
        GroupedWithoutLost(dims, elements[1..], kind, next.value.0, next.value.1);
      }
    }
  }

  /** For an array of arrays, a list becomes what it becomes without these scalars; if nothing else
      stands in it, a list of zero elements. */
  lemma TypedWithoutLost(dims: seq<nat>, elements: seq<Written>, kind: Kind)
    requires |dims| > 1 && elements != []
    ensures Typed(dims, elements, kind) ==
      if WithoutLost(elements, kind) == [] then Some(List(dims, ZeroLists(dims[0], Zero(dims[1..]))))
      else Typed(dims, WithoutLost(elements, kind), kind)
  {
    hide Grouped;
    GroupedWithoutLost(dims, elements, kind, [], []);
    if WithoutLost(elements, kind) == [] {
      GroupedEnds(dims, kind, [], []);
      assert Extended([], dims[0], Zero(dims[1..])) == ZeroLists(dims[0], Zero(dims[1..]));
    }
  }

  lemma {:induction false} AllLost(elements: seq<Written>, kind: Kind)
    requires forall i :: 0 <= i < |elements| ==> Lost(elements[i], kind)
    ensures WithoutLost(elements, kind) == []
  {
    if elements != [] {
      AllLost(elements[1..], kind);
    }
  }

  /** `float a[2][2] = {1, 2, 3, 4};`, whatever the four integers: the list means their conversions, and
      the tree holds nothing but zeros. */
  lemma IntegersLostInFloats(elements: seq<Written>)
    requires |elements| == 4 && forall i :: 0 <= i < 4 ==> elements[i].Scalar? && elements[i].kind == Integer
    ensures Legal([2, 2], elements, 0)
    ensures |Laid([2, 2], elements, 0, Float)| == 4
    ensures forall i :: 0 <= i < 4 ==> Laid([2, 2], elements, 0, Float)[i] == elements[i].cast
    ensures TypedRight([2, 2], Typed([2, 2], elements, Float), [])
  {
    var dims := [2, 2];
    SmallSizes();
    ScalarsMean(dims, elements, 0, Float);
    AllLost(elements, Float);
    TypedWithoutLost(dims, elements, Float);
    hide Typed, Laid, Legal;
    var zeros := ZeroLists(2, Zero([2]));
    assert dims[1..] == [2];
    FlattenAllZeros(2, Zero([2]), 2);
    ListFlattens(dims, zeros);
  }

  /** Scalars alone fill one place each. */
  lemma {:induction false} ScalarsMean(dims: seq<nat>, elements: seq<Written>, position: nat, kind: Kind)
    requires dims != [] && AllScalars(elements) && position + |elements| <= Size(dims)
    ensures Legal(dims, elements, position) && End(dims, elements, position) == position + |elements|
    ensures |Laid(dims, elements, position, kind)| == |elements|
    ensures forall i :: 0 <= i < |elements| ==> Laid(dims, elements, position, kind)[i] == ScalarOf(elements[i], kind)
  {
    if elements != [] {
      ScalarsMean(dims, elements[1..], position + 1, kind);
    }
  }

  // ---- Lists whose braces open elements of their own array ----

  /** A brace opens only where an element of the array of its own list begins. */
  ghost predicate OpensElements(dims: seq<nat>, elements: seq<Written>, position: nat)
    requires dims != []
    decreases elements
  {
    if elements == [] then position <= Size(dims)
    else if elements[0].Scalar? then OpensElements(dims, elements[1..], position + 1)
    else
      && |dims| > 1
      && Size(dims[1..]) > 0
      && position % Size(dims[1..]) == 0
      && OpensElements(dims[1..], elements[0].elements, 0)
      && OpensElements(dims, elements[1..], position + Size(dims[1..]))
  }

  /** Every scalar that stands directly in a list for an array of arrays has the element kind. */
  ghost predicate KindsAgree(dims: seq<nat>, elements: seq<Written>, kind: Kind)
    requires dims != []
    decreases elements
  {
    |dims| == 1
    || forall i :: 0 <= i < |elements| ==>
         if elements[i].Scalar? then elements[i].kind == kind else KindsAgree(dims[1..], elements[i].elements, kind)
  }

  lemma {:induction false} OpensIsLegal(dims: seq<nat>, elements: seq<Written>, position: nat)
    requires dims != [] && OpensElements(dims, elements, position)
    ensures Legal(dims, elements, position)
    decreases elements
  {
    if elements != [] {
      if elements[0].Scalar? {
        OpensIsLegal(dims, elements[1..], position + 1);
      } else {
        assert Opened(dims, position) == dims[1..];
        OpensIsLegal(dims[1..], elements[0].elements, 0);
        OpensIsLegal(dims, elements[1..], position + Size(dims[1..]));
      }
    }
  }

  /** In such a list a run is scalars only, so it is counted exactly; what remains is their kind. */
  lemma {:induction false} KindsClose(dims: seq<nat>, elements: seq<Written>, kind: Kind)
    requires dims != [] && OpensElements(dims, elements, 0)
    ensures RunsClose(dims, elements, kind) <==> KindsAgree(dims, elements, kind)
    decreases |dims|, 1, 0
  {
    if elements != [] && |dims| > 1 {
      OpensIsLegal(dims, elements, 0);
      StartsEmpty(dims, elements, kind);
      hide RunsCloseFrom, KindsAgree, OpensElements;
      KindsCloseFrom(dims, elements, 0, [], kind);
    }
  }

  ghost predicate IsRun(run: seq<Written>, kind: Kind) {
    forall i :: 0 <= i < |run| ==> run[i].Scalar? && run[i].kind == kind
  }

  lemma RunOpens(dims: seq<nat>, run: seq<Written>, kind: Kind)
    requires dims != [] && IsRun(run, kind) && |run| <= Size(dims)
    ensures OpensElements(dims, run, 0) && KindsAgree(dims, run, kind) && AllScalars(run) && End(dims, run, 0) == |run|
  {
    ScalarsMean(dims, run, 0, kind);
    ScalarsOpen(dims, run, 0);
  }

  lemma {:induction false} ScalarsOpen(dims: seq<nat>, run: seq<Written>, position: nat)
    requires dims != [] && AllScalars(run) && position + |run| <= Size(dims)
    ensures OpensElements(dims, run, position)
  {
    if run != [] {
      ScalarsOpen(dims, run[1..], position + 1);
    }
  }

  lemma NextOpens(dims: seq<nat>, rest: seq<Written>, n: nat, r: nat, kind: Kind)
    requires |dims| > 1 && rest != [] && r < Size(dims[1..]) && OpensElements(dims, rest, n * Size(dims[1..]) + r)
    ensures rest[0].Scalar? ==> OpensElements(dims, rest[1..], n * Size(dims[1..]) + r + 1)
    ensures rest[0].Braces? ==>
      r == 0 && OpensElements(dims[1..], rest[0].elements, 0) && OpensElements(dims, rest[1..],
          (n + 1) * Size(dims[1..]))
    ensures KindsAgree(dims, rest, kind) <==>
        && (if rest[0].Scalar? then rest[0].kind == kind else KindsAgree(dims[1..], rest[0].elements, kind))
        && KindsAgree(dims, rest[1..], kind)
  {
    RemainderOf(n, Size(dims[1..]), r);
    OneMore(n, Size(dims[1..]));
    assert forall i :: 0 < i < |rest| ==> rest[i] == rest[1..][i - 1];
  }

  lemma {:induction false} KindsCloseFrom(dims: seq<nat>, rest: seq<Written>, n: nat, run: seq<Written>, kind: Kind)
    requires |dims| > 1 && IsRun(run, kind) && |run| < Size(dims[1..])
    requires OpensElements(dims, rest, n * Size(dims[1..]) + |run|)
    ensures RunsCloseFrom(dims, rest, n, run, kind) <==> KindsAgree(dims, rest, kind)
    decreases |dims|, 0, |rest|
  {
    hide *;
    var inner := dims[1..];
    RunOpens(inner, run, kind);
    if rest == [] {
      KindsClose(inner, run, kind);
      CloseEnds(dims, n, run, kind);
      NoKinds(dims, kind);
    } else {
      NextOpens(dims, rest, n, |run|, kind);
      if rest[0].Braces? {
        KindsClose(inner, rest[0].elements, kind);
        NoRun(kind);
        KindsCloseFrom(dims, rest[1..], n + 1, [], kind);
        CloseBraceIff(dims, rest, n, kind);
      } else if rest[0].kind == kind {
        RunGrows(run, rest[0], kind);
        var longer := run + [rest[0]];
        RunOpens(inner, longer, kind);
        KindsClose(inner, longer, kind);
        FullRun(dims, longer);
        CloseScalarIff(dims, rest, n, run, kind);
        if |longer| == Size(inner) {
          OneMore(n, Size(inner));
          NoRun(kind);
          KindsCloseFrom(dims, rest[1..], n + 1, [], kind);
        } else {
          KindsCloseFrom(dims, rest[1..], n, longer, kind);
        }
      } else {
        CloseScalarIff(dims, rest, n, run, kind);
      }
    }
  }

  lemma NoKinds(dims: seq<nat>, kind: Kind)
    requires dims != []
    ensures KindsAgree(dims, [], kind)
  {
  }

  lemma NoRun(kind: Kind)
    ensures IsRun([], kind)
  {
  }

  lemma RunGrows(run: seq<Written>, e: Written, kind: Kind)
    requires IsRun(run, kind) && e.Scalar? && e.kind == kind
    ensures IsRun(run + [e], kind)
  {
  }

  lemma FullRun(dims: seq<nat>, run: seq<Written>)
    requires |dims| > 1 && AllScalars(run)
    ensures RunIsFull(dims, run) <==> |run| == Size(dims[1..])
  {
    ScalarsCount(dims[1..], run);
  }

  lemma CloseBraceIff(dims: seq<nat>, rest: seq<Written>, n: nat, kind: Kind)
    requires |dims| > 1 && rest != [] && rest[0].Braces?
    ensures RunsCloseFrom(dims, rest, n, [], kind)
        <==> RunsClose(dims[1..], rest[0].elements, kind) && RunsCloseFrom(dims, rest[1..], n + 1, [], kind)
  {
    hide RunsClose, RunIsFull, HollowRest, End;
  }

  lemma CloseScalarIff(dims: seq<nat>, rest: seq<Written>, n: nat, run: seq<Written>, kind: Kind)
    requires |dims| > 1 && rest != [] && rest[0].Scalar?
    requires rest[0].kind == kind ==>
      var longer := run + [rest[0]];
      RunsClose(dims[1..], longer, kind) && (RunIsFull(dims, longer) <==> End(dims[1..], longer, 0) == Size(dims[1..]))
    ensures RunsCloseFrom(dims, rest, n, run, kind) <==>
      && rest[0].kind == kind
      && if RunIsFull(dims, run + [rest[0]]) then RunsCloseFrom(dims, rest[1..], n + 1, [], kind)
         else RunsCloseFrom(dims, rest[1..], n, run + [rest[0]], kind)
  {
    hide RunsClose, RunIsFull, HollowRest, End;
  }

  /** Where braces open only elements of their own array, normalisation is right for all values if and
      only if every scalar that stands directly in a list for an array of arrays has the element kind. */
  lemma RightIffKindsAgree(dims: seq<nat>, elements: seq<Written>, kind: Kind)
    requires dims != [] && OpensElements(dims, elements, 0)
    ensures AlwaysRight(dims, elements, kind) <==> KindsAgree(dims, elements, kind)
  {
    hide *;
    OpensIsLegal(dims, elements, 0);
    KindsClose(dims, elements, kind);
    NormalisationRightIff(dims, elements, kind);
  }

  // ---- Three lists with braces inside a run ----

  lemma Sizes()
    ensures Size([2]) == 2 && Size([2, 2]) == 4 && Size([2, 2, 2]) == 8 && Size([4, 2]) == 8 && Size([2, 4, 2]) == 16
    ensures [2, 2][1..] == [2] && [2, 2, 2][1..] == [2, 2] && [4, 2][1..] == [2] && [2, 4, 2][1..] == [4, 2]
  {
    SmallSizes();
    assert [2, 2, 2][1..] == [2, 2] && [4, 2][1..] == [2] && [2, 4, 2][1..] == [4, 2];
    assert Size([2, 2, 2]) == 2 * Size([2, 2]) && Size([4, 2]) == 4 * Size([2]) && Size([2, 4, 2]) == 2 * Size([4, 2]);
  }

  lemma {:induction false} JoinLegal(dims: seq<nat>, a: seq<Written>, b: seq<Written>, position: nat)
    requires dims != [] && Legal(dims, a, position) && Legal(dims, b, End(dims, a, position))
    ensures Legal(dims, a + b, position) && End(dims, a + b, position) == End(dims, b, End(dims, a, position))
    decreases |a|
  {
    if a == [] {
      assert a + b == b;
    } else {
      assert (a + b)[1..] == a[1..] + b;
      JoinLegal(dims, a[1..], b, position + Step(dims, a[0], position));
    }
  }

  /** A brace of at most two scalars, where a pair begins. */
  lemma PairIsLegal(dims: seq<nat>, inner: seq<Written>, position: nat)
    requires dims != [] && Opened(dims, position) == [2] && AllScalars(inner) && |inner| <= 2
    requires position + 2 <= Size(dims)
    ensures Legal(dims, [Braces(inner)], position) && End(dims, [Braces(inner)], position) == position + 2
  {
    Sizes();
    ScalarsMean([2], inner, 0, Integer);
    var brace: Written := Braces(inner);
    assert [brace][1..] == [] && Step(dims, brace, position) == 2;
    hide Size, Opened;
  }

  lemma PairOpens(dims: seq<nat>, inner: seq<Written>, more: seq<Written>, position: nat, kind: Kind)
    requires |dims| == 2 && dims[1..] == [2] && position % 2 == 0 && AllScalars(inner) && |inner| <= 2
    requires OpensElements(dims, more, position + 2) && KindsAgree(dims, more, kind)
    ensures OpensElements(dims, [Braces(inner)] + more, position) && KindsAgree(dims, [Braces(inner)] + more, kind)
  {
    Sizes();
    ScalarsOpen([2], inner, 0);
    var brace: Written := Braces(inner);
    assert ([brace] + more)[1..] == more;
  }

  lemma ScalarOpens(dims: seq<nat>, e: Written, more: seq<Written>, position: nat, kind: Kind)
    requires dims != [] && e.Scalar? && e.kind == kind
    requires OpensElements(dims, more, position + 1) && KindsAgree(dims, more, kind)
    ensures OpensElements(dims, [e] + more, position) && KindsAgree(dims, [e] + more, kind)
  {
    assert ([e] + more)[1..] == more;
  }

  /** Two scalars and braces of at most two, for an array whose elements are pairs. */
  lemma PairsClose(dims: seq<nat>, a: Written, b: Written, inner: seq<Written>, more: seq<Written>)
    requires |dims| == 2 && dims[1..] == [2] && OpensElements(dims, more, 4) && KindsAgree(dims, more, Integer)
    requires a.Scalar? && b.Scalar? && a.kind == b.kind == Integer && AllScalars(inner) && |inner| <= 2
    ensures RunsClose(dims, [a, b, Braces(inner)] + more, Integer)
  {
    PairOpens(dims, inner, more, 2, Integer);
    ScalarOpens(dims, b, [Braces(inner)] + more, 1, Integer);
    ScalarOpens(dims, a, [b] + ([Braces(inner)] + more), 0, Integer);
    assert [a] + ([b] + ([Braces(inner)] + more)) == [a, b, Braces(inner)] + more;
    KindsClose(dims, [a, b, Braces(inner)] + more, Integer);
  }

  /** The two scalars and the brace take four places. */
  lemma PairsAreLegal(dims: seq<nat>, a: Written, b: Written, inner: seq<Written>)
    requires dims != [] && Size(dims) >= 4 && Opened(dims, 2) == [2]
    requires a.Scalar? && b.Scalar? && AllScalars(inner) && |inner| <= 2
    ensures Legal(dims, [a, b, Braces(inner)], 0) && End(dims, [a, b, Braces(inner)], 0) == 4
  {
    ScalarsMean(dims, [a, b], 0, Integer);
    PairIsLegal(dims, inner, 2);
    JoinLegal(dims, [a, b], [Braces(inner)], 0);
    assert [a, b] + [Braces(inner)] == [a, b, Braces(inner)];
  }

  lemma PairsOpened()
    ensures Opened([2, 2], 2) == [2] && Opened([2, 2, 2], 2) == [2]
    ensures Opened([4, 2], 2) == Opened([4, 2], 4) == Opened([4, 2], 6) == [2]
    ensures Opened([2, 4, 2], 2) == Opened([2, 4, 2], 4) == Opened([2, 4, 2], 6) == [2]
  {
    Sizes();
    hide Size;
    assert Opened([2, 2], 2) == [2] && Opened([4, 2], 2) == Opened([4, 2], 4) == Opened([4, 2], 6) == [2];
  }

  /** Two scalars at the start do not fill an element of at least four places. */
  lemma TwoScalars(dims: seq<nat>, list: seq<Written>, kind: Kind)
    requires |dims| > 1 && Size(dims[1..]) >= 4 && |list| >= 2 && list[0].Scalar? && list[1].Scalar?
    requires list[0].kind == list[1].kind == kind && RunsCloseFrom(dims, list[2..], 0, [list[0], list[1]], kind)
    ensures RunsClose(dims, list, kind)
  {
    var a, b := list[0], list[1];
    ScalarsMean(dims[1..], [a], 0, kind);
    ScalarsMean(dims[1..], [a, b], 0, kind);
    FullRun(dims, [a]);
    FullRun(dims, [a, b]);
    assert [] + [a] == [a] && [a] + [b] == [a, b] && list[1..][0] == b && list[1..][1..] == list[2..];
    hide *;
    CloseRun(dims, list[1..], 0, [a], kind);
    CloseRun(dims, list, 0, [], kind);
    CloseStarts(dims, list, kind);
  }

  /** `{1, 2, {3, 4}}` for a two by two by two array: the run is never counted as an element, but the list
      ends where the run fills one, so every such list is normalised rightly. */
  lemma BraceAtTheEnd(a: Written, b: Written, inner: seq<Written>)
    requires a.Scalar? && b.Scalar? && a.kind == b.kind == Integer && AllScalars(inner) && |inner| == 2
    ensures Legal([2, 2, 2], [a, b, Braces(inner)], 0) && AlwaysRight([2, 2, 2], [a, b, Braces(inner)], Integer)
  {
    var dims: seq<nat>, brace: Written := [2, 2, 2], Braces(inner);
    var list := [a, b, brace];
    Sizes();
    PairsOpened();
    PairsAreLegal(dims, a, b, inner);
    PairsAreLegal([2, 2], a, b, inner);
    assert list + [] == list;
    PairsClose([2, 2], a, b, inner, []);
    CountsAroundBrace(a, b, a, inner);
    NeverFull(dims, list, 6);
    assert [a, b] + [brace] == list && list[2..] == [brace] && [brace][0] == brace && [brace][1..] == [];
    hide *;
    CloseRun(dims, [brace], 0, [a, b], Integer);
    TwoScalars(dims, list, Integer);
    NormalisationRightIff(dims, list, Integer);
  }

  lemma NeverFull(dims: seq<nat>, run: seq<Written>, count: nat)
    requires |dims| > 1 && Count(dims[1..], |dims[1..]|, |dims[1..]|, run) == count
    ensures RunIsFull(dims, run) <==> count == Size(dims[1..])
  {
  }

  /** `{1, 2, {3, 4}, 5}` for the same array: the language allows it, and its runs do not close. */
  lemma BraceInTheMiddle(a: Written, b: Written, c: Written, inner: seq<Written>)
    requires a.Scalar? && b.Scalar? && c.Scalar? && a.kind == b.kind == c.kind == Integer
    requires AllScalars(inner) && |inner| == 2
    ensures Legal([2, 2, 2], [a, b, Braces(inner), c], 0)
    ensures !RunsClose([2, 2, 2], [a, b, Braces(inner), c], Integer)
  {
    var dims: seq<nat>, list := [2, 2, 2], [a, b, Braces(inner), c];
    Sizes();
    PairsOpened();
    PairsAreLegal(dims, a, b, inner);
    ScalarsMean(dims, [c], 4, Integer);
    JoinLegal(dims, [a, b, Braces(inner)], [c], 0);
    assert [a, b, Braces(inner)] + [c] == list;
    BraceInsideRunBreaksShape(a, b, c, inner);
    hide *;
    if RunsClose(dims, list, Integer) {
      NormalisationFillsTheArray(dims, list, Integer);
      RightHasShape(dims, list, Integer);
    }
  }

  lemma RightHasShape(dims: seq<nat>, list: seq<Written>, kind: Kind)
    requires dims != [] && TypedRight(dims, Typed(dims, list, kind), Laid(dims, list, 0, kind))
    ensures Typed(dims, list, kind).Some? && HasShape(Typed(dims, list, kind).value, dims)
  {
  }

  /** `{1, 2, {3, 4}, {5}, {}}` for a two by four by two array: the run is counted as an element two places
      too early, but nothing except an empty brace follows, so this too is normalised rightly. */
  lemma EarlyButRight(a: Written, b: Written, inner: seq<Written>, c: Written)
    requires a.Scalar? && b.Scalar? && c.Scalar? && a.kind == b.kind == Integer && AllScalars(inner) && |inner| == 2
    ensures var list := [a, b, Braces(inner), Braces([c]), Braces([])];
      && Legal([2, 4, 2], list, 0) && AlwaysRight([2, 4, 2], list, Integer)
      && RunIsFull([2, 4, 2], list[..4]) && End([4, 2], list[..4], 0) < Size([4, 2])
  {
    var dims: seq<nat>, part: seq<nat>, brace: Written, one: Written, none: Written :=
      [2, 4, 2], [4, 2], Braces(inner), Braces([c]), Braces([]);
    var run, list := [a, b, brace, one], [a, b, brace, one, none];
    Sizes();
    PairsOpened();
    EarlyLegal(dims, a, b, inner, c);
    EarlyLegal(part, a, b, inner, c);
    PairOpens(part, [c], [], 4, Integer);
    assert [one] + [] == [one] && [a, b, brace] + [one] == run && list[..4] == run;
    PairsClose(part, a, b, inner, [one]);
    EarlyCount(a, b, inner, c);
    NeverFull(dims, run, 8);
    NeverFull(dims, [a, b, brace], 6);
    PairsAreLegal(part, a, b, inner);
    assert [a, b] + [brace] == [a, b, brace];
    assert list[2..] == [brace, one, none] && [brace, one, none][1..] == [one, none] && [one, none][1..] == [none];
    assert HollowRest(dims, [none], 1);
    hide *;
    CloseRun(dims, [one, none], 0, [a, b, brace], Integer);
    CloseRun(dims, [brace, one, none], 0, [a, b], Integer);
    TwoScalars(dims, list, Integer);
    NormalisationRightIff(dims, list, Integer);
  }

  lemma EarlyLegal(dims: seq<nat>, a: Written, b: Written, inner: seq<Written>, c: Written)
    requires dims != [] && Size(dims) >= 8 && Opened(dims, 2) == Opened(dims, 4) == Opened(dims, 6) == [2]
    requires a.Scalar? && b.Scalar? && c.Scalar? && AllScalars(inner) && |inner| <= 2
    ensures End(dims, [a, b, Braces(inner), Braces([c])], 0) == 6
    ensures Legal(dims, [a, b, Braces(inner), Braces([c]), Braces([])], 0)
  {
    PairsAreLegal(dims, a, b, inner);
    PairIsLegal(dims, [c], 4);
    PairIsLegal(dims, [], 6);
    var first: seq<Written> := [a, b, Braces(inner)];
    JoinLegal(dims, first, [Braces([c])], 0);
    JoinLegal(dims, first + [Braces([c])], [Braces([])], 0);
    assert first + [Braces([c])] == [a, b, Braces(inner), Braces([c])];
    assert first + [Braces([c])] + [Braces([])] == [a, b, Braces(inner), Braces([c]), Braces([])];
  }

  lemma EarlyCount(a: Written, b: Written, inner: seq<Written>, c: Written)
    requires a.Scalar? && b.Scalar? && c.Scalar? && AllScalars(inner) && |inner| == 2
    ensures Count([4, 2], 2, 2, [a, b, Braces(inner)]) == 6
    ensures Count([4, 2], 2, 2, [a, b, Braces(inner), Braces([c])]) == 8
  {
    var dims: seq<nat>, brace: Written, one: Written := [4, 2], Braces(inner), Braces([c]);
    CountOfPair(a, b, dims);
    InnerScalarsCount(dims, inner);
    InnerScalarsCount(dims, [c]);
    CountAppends(dims, 2, 2, [a, b], [brace]);
    CountAppends(dims, 2, 2, [a, b, brace], [one]);
    assert [a, b] + [brace] == [a, b, brace] && [a, b, brace] + [one] == [a, b, brace, one];
    assert [brace][1..] == [] && [one][1..] == [];
  }
}
