/**
 * Where the scalars of an initialiser list end up: at the place counted off by what comes before
 * them, as they are written if they have the element kind and converted otherwise.
 */
module ScalarPlaces {
  import opened Initialisers
  import opened InitialiserLists
  import opened InitialiserMeaning
  import opened Normalisation

  /** A scalar and its place in the whole array. */
  datatype Place = Place(at: nat, scalar: Written)

  /** The scalars of a list in the order in which they are written. */
  function InOrderWritten(elements: seq<Written>): seq<Written> {
    if elements == [] then []
    else
      (match elements[0]
       case Scalar(_, _, _) => [elements[0]]
       case Braces(inner) => InOrderWritten(inner))
      + InOrderWritten(elements[1..])
  }

  /** ... with their places: the list goes on at `position` of a part that begins at `start`. */
  ghost function Places(dims: seq<nat>, elements: seq<Written>, position: nat, start: nat): seq<Place>
    requires dims != []
    decreases elements
  {
    if elements == [] then []
    else
      PlacesOfOne(dims, elements[0], position, start)
      + Places(dims, elements[1..], position + Step(dims, elements[0], position), start)
  }

  ghost function PlacesOfOne(dims: seq<nat>, e: Written, position: nat, start: nat): seq<Place>
    requires dims != []
    decreases e
  {
    match e
    case Scalar(_, _, _) => [Place(start + position, e)]
    case Braces(inner) =>
      var part := Opened(dims, position);
      if part == [] then [] else Places(part, inner, 0, start + position)
  }

  function Scalars(places: seq<Place>): seq<Written> {
    seq(|places|, i requires 0 <= i < |places| => places[i].scalar)
  }

  /** No scalar is left out or moved. */
  lemma {:induction false} PlacesAreAll(dims: seq<nat>, elements: seq<Written>, position: nat, start: nat)
    requires dims != [] && Legal(dims, elements, position)
    ensures Scalars(Places(dims, elements, position, start)) == InOrderWritten(elements)
    decreases elements
  {
    if elements != [] {
      var e := elements[0];
      PlacesAreAll(dims, elements[1..], position + Step(dims, e, position), start);
      if e.Braces? {
        PlacesAreAll(Opened(dims, position), e.elements, 0, start + position);
      }
      hide Legal, Opened, Step;
      ScalarsJoin(PlacesOfOne(dims, e, position, start), Places(dims, elements[1..], position + Step(dims, e, position),
          start));
    }
  }

  lemma ScalarsJoin(a: seq<Place>, b: seq<Place>)
    ensures Scalars(a + b) == Scalars(a) + Scalars(b)
  {
  }

  /** Between `from` and `to`, in increasing order. */
  ghost predicate Ascending(places: seq<Place>, from: nat, to: nat) {
    && (forall i :: 0 <= i < |places| ==> from <= places[i].at < to && places[i].scalar.Scalar?)
    && (forall i, j :: 0 <= i < j < |places| ==> places[i].at < places[j].at)
  }

  lemma AscendingJoin(a: seq<Place>, b: seq<Place>, from: nat, middle: nat, to: nat)
    requires Ascending(a, from, middle) && Ascending(b, middle, to) && from <= middle <= to
    ensures Ascending(a + b, from, to)
  {
  }

  ghost predicate Vacant(places: seq<Place>, at: nat) {
    forall i :: 0 <= i < |places| ==> places[i].at != at
  }

  /** Every scalar is at its place among the leaves that begin at `from`: itself if it has the element kind,
      otherwise its conversion. */
  ghost predicate Stand(leaves: seq<Leaf>, places: seq<Place>, from: nat, kind: Kind)
    requires Ascending(places, from, from + |leaves|)
  {
    forall i :: 0 <= i < |places| ==>
      leaves[places[i].at - from] ==
      if places[i].scalar.kind == kind then places[i].scalar.leaf else places[i].scalar.cast
  }

  /** ... and everything else is zero. */
  ghost predicate Filled(leaves: seq<Leaf>, places: seq<Place>, from: nat, kind: Kind) {
    && Ascending(places, from, from + |leaves|)
    && Stand(leaves, places, from, kind)
    && forall q :: 0 <= q < |leaves| && Vacant(places, from + q) ==> leaves[q] == Constant(0)
  }

  lemma FilledJoin(x: seq<Leaf>, y: seq<Leaf>, a: seq<Place>, b: seq<Place>, from: nat, kind: Kind)
    requires Filled(x, a, from, kind) && Filled(y, b, from + |x|, kind)
    ensures Filled(x + y, a + b, from, kind)
  {
    AscendingJoin(a, b, from, from + |x|, from + |x| + |y|);
    StandJoin(x, y, a, b, from, kind);
    hide Stand, Ascending;
    forall q | 0 <= q < |x + y| && Vacant(a + b, from + q) ensures (x + y)[q] == Constant(0) {
      VacantJoin(a, b, from + q);
      if q >= |x| {
        assert Vacant(b, from + |x| + (q - |x|));
      }
    }
  }

  lemma VacantJoin(a: seq<Place>, b: seq<Place>, at: nat)
    requires Vacant(a + b, at)
    ensures Vacant(a, at) && Vacant(b, at)
  {
    assert forall i :: 0 <= i < |a| ==> (a + b)[i] == a[i];
    assert forall i :: 0 <= i < |b| ==> (a + b)[|a| + i] == b[i];
  }

  lemma StandJoin(x: seq<Leaf>, y: seq<Leaf>, a: seq<Place>, b: seq<Place>, from: nat, kind: Kind)
    requires Ascending(a, from, from + |x|) && Ascending(b, from + |x|, from + |x| + |y|)
    requires Stand(x, a, from, kind) && Stand(y, b, from + |x|, kind)
    ensures Ascending(a + b, from, from + |x + y|) && Stand(x + y, a + b, from, kind)
  {
    AscendingJoin(a, b, from, from + |x|, from + |x| + |y|);
    forall i | 0 <= i < |a + b|
      ensures (x + y)[(a + b)[i].at - from] ==
        if (a + b)[i].scalar.kind == kind then (a + b)[i].scalar.leaf else (a + b)[i].scalar.cast
    {
      if i < |a| {
        assert (a + b)[i] == a[i];
      } else {
        assert (a + b)[i] == b[i - |a|];
      }
    }
  }

  lemma FilledPadded(leaves: seq<Leaf>, places: seq<Place>, from: nat, kind: Kind, size: nat)
    requires Filled(leaves, places, from, kind) && |leaves| <= size
    ensures Filled(Padded(leaves, size), places, from, kind) && |Padded(leaves, size)| == size
  {
  }

  lemma {:induction false} LaidIsFilled(dims: seq<nat>, elements: seq<Written>, position: nat, start: nat, kind: Kind)
    requires dims != [] && Legal(dims, elements, position)
    ensures Filled(Laid(dims, elements, position, kind), Places(dims, elements, position, start), start + position,
        kind)
    decreases elements
  {
    hide *;
    if elements == [] {
      NothingFilled(dims, position, start, kind);
    } else {
      var e := elements[0];
      LegalParts(dims, elements, position);
      LaidIsFilled(dims, elements[1..], position + Step(dims, e, position), start, kind);
      if e.Braces? {
        LaidIsFilled(Opened(dims, position), e.elements, 0, start + position, kind);
      }
      FirstIsFilled(dims, elements, position, start, kind);
      RestIsFilled(dims, elements, position, start, kind);
    }
  }

  lemma NothingFilled(dims: seq<nat>, position: nat, start: nat, kind: Kind)
    requires dims != []
    ensures Filled(Laid(dims, [], position, kind), Places(dims, [], position, start), start + position, kind)
  {
  }

  lemma LegalParts(dims: seq<nat>, elements: seq<Written>, position: nat)
    requires dims != [] && elements != [] && Legal(dims, elements, position)
    ensures Legal(dims, elements[1..], position + Step(dims, elements[0], position))
    ensures elements[0].Braces? ==> Opened(dims, position) != [] && Legal(Opened(dims, position), elements[0].elements,
        0)
  {
  }

  lemma RestIsFilled(dims: seq<nat>, elements: seq<Written>, position: nat, start: nat, kind: Kind)
    requires dims != [] && elements != []
    requires var next := position + Step(dims, elements[0], position);
      Filled(Laid(dims, elements[1..], next, kind), Places(dims, elements[1..], next, start), start + next, kind)
    requires Filled(LaidOne(dims, elements[0], position, kind), PlacesOfOne(dims, elements[0], position, start),
                    start + position, kind)
    requires |LaidOne(dims, elements[0], position, kind)| == Step(dims, elements[0], position)
    ensures Filled(Laid(dims, elements, position, kind), Places(dims, elements, position, start), start + position,
        kind)
  {
    hide Filled, Step, LaidOne, PlacesOfOne;
    var next := position + Step(dims, elements[0], position);
    FilledJoin(LaidOne(dims, elements[0], position, kind), Laid(dims, elements[1..], next, kind),
               PlacesOfOne(dims, elements[0], position, start), Places(dims, elements[1..], next, start),
               start + position, kind);
  }

  lemma FirstIsFilled(dims: seq<nat>, elements: seq<Written>, position: nat, start: nat, kind: Kind)
    requires dims != [] && elements != [] && Legal(dims, elements, position)
    requires elements[0].Braces? ==>
      var part := Opened(dims, position);
      part != [] ==> Filled(Laid(part, elements[0].elements, 0, kind), Places(part, elements[0].elements, 0,
          start + position), start + position, kind)
    ensures Filled(LaidOne(dims, elements[0], position, kind), PlacesOfOne(dims, elements[0], position, start),
                   start + position, kind)
    ensures |LaidOne(dims, elements[0], position, kind)| == Step(dims, elements[0], position)
  {
    var e := elements[0];
    hide Filled;
    if e.Scalar? {
      OneFilled(e, start + position, kind);
    } else {
      var part := Opened(dims, position);
      assert part != [] && Legal(part, e.elements, 0);
      LaidLength(part, e.elements, 0, kind);
      FilledPadded(Laid(part, e.elements, 0, kind), Places(part, e.elements, 0, start + position), start + position,
          kind, Size(part));
    }
  }

  lemma OneFilled(e: Written, at: nat, kind: Kind)
    requires e.Scalar?
    ensures Filled([ScalarOf(e, kind)], [Place(at, e)], at, kind)
  {
    assert [Place(at, e)][0].at == at;
  }

  /** What a list denotes: every scalar at its place, in the order written, itself or its conversion, and
      zeros elsewhere. */
  lemma DenotedIsFilled(dims: seq<nat>, elements: seq<Written>, kind: Kind)
    requires dims != [] && Legal(dims, elements, 0)
    ensures Filled(Denoted(dims, elements, kind), Places(dims, elements, 0, 0), 0, kind)
    ensures |Denoted(dims, elements, kind)| == Size(dims)
    ensures Scalars(Places(dims, elements, 0, 0)) == InOrderWritten(elements)
  {
    LaidIsFilled(dims, elements, 0, 0, kind);
    LaidLength(dims, elements, 0, kind);
    FilledPadded(Laid(dims, elements, 0, kind), Places(dims, elements, 0, 0), 0, kind, Size(dims));
    PlacesAreAll(dims, elements, 0, 0);
  }

  /** So the normalised tree of a list whose runs close holds every scalar at its place. */
  lemma TreeIsFilled(dims: seq<nat>, elements: seq<Written>, kind: Kind)
    requires dims != [] && Legal(dims, elements, 0) && RunsClose(dims, elements, kind)
    ensures Typed(dims, elements, kind).Some? && HasShape(Typed(dims, elements, kind).value, dims)
    ensures Filled(Flatten(Typed(dims, elements, kind).value), Places(dims, elements, 0, 0), 0, kind)
    ensures Scalars(Places(dims, elements, 0, 0)) == InOrderWritten(elements)
  {
    NormalisationFillsTheArray(dims, elements, kind);
    DenotedIsFilled(dims, elements, kind);
  }

  /** In one dimension, scalars of the element kind stay as they are written. */
  lemma ScalarsStay(n: nat, elements: seq<Written>, kind: Kind)
    requires |elements| <= n && forall i :: 0 <= i < |elements| ==> elements[i].Scalar? && elements[i].kind == kind
    ensures Typed([n], elements, kind).Some? && |Flatten(Typed([n], elements, kind).value)| == n
    ensures forall i :: 0 <= i < |elements| ==> Flatten(Typed([n], elements, kind).value)[i] == elements[i].leaf
    ensures forall i :: |elements| <= i < n ==> Flatten(Typed([n], elements, kind).value)[i] == Constant(0)
  {
    assert [n][1..] == [] && Size([n]) == n * Size([]);
    ScalarsInRow(n, elements, 0);
    TreeIsFilled([n], elements, kind);
    var ps := Places([n], elements, 0, 0);
    ShapeFixesLength(Typed([n], elements, kind).value, [n]);
    forall i | 0 <= i < |elements| ensures Flatten(Typed([n], elements, kind).value)[i] == elements[i].leaf {
      assert ps[i] == Place(i, elements[i]);
    }
  }

  lemma {:induction false} ScalarsInRow(n: nat, elements: seq<Written>, position: nat)
    requires position + |elements| <= n && forall i :: 0 <= i < |elements| ==> elements[i].Scalar?
    ensures Legal([n], elements, position)
    ensures Places([n], elements, position, 0) == seq(|elements|, i requires 0 <= i < |elements| => Place(position + i,
        elements[i]))
  {
    assert [n][1..] == [] && Size([n]) == n * Size([]);
    if elements != [] {
      ScalarsInRow(n, elements[1..], position + 1);
    }
  }
}
