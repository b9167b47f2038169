/**
 * What a written initialiser list means: a scalar fills the next place of the array, a brace the
 * largest part of the array that begins there.
 */
module InitialiserMeaning {
  import opened Initialisers
  import opened InitialiserLists

  // ---- Where a brace opens ----

  /** The type of the largest part of an array that begins at `position`; `[]` if only a scalar does. */
  ghost function Opened(dims: seq<nat>, position: nat): seq<nat>
    requires dims != []
  {
    var size := Size(dims[1..]);
    if size == 0 || position % size == 0 then dims[1..]
    else Opened(dims[1..], position % size)
  }

  /** How many places one item takes. */
  ghost function Step(dims: seq<nat>, e: Written, position: nat): nat
    requires dims != []
  {
    if e.Scalar? then 1 else Size(Opened(dims, position))
  }

  /** The place behind the items, counted from the start of the array. */
  ghost function End(dims: seq<nat>, elements: seq<Written>, position: nat): nat
    requires dims != []
  {
    if elements == [] then position
    else End(dims, elements[1..], position + Step(dims, elements[0], position))
  }

  /** The list is one that the language allows for the array, from `position` on: every brace opens
      where a part of the array begins and is itself allowed for that part, and nothing is left over. */
  ghost predicate Legal(dims: seq<nat>, elements: seq<Written>, position: nat)
    requires dims != []
    decreases elements
  {
    if elements == [] then position <= Size(dims)
    else
      var e := elements[0];
      && (e.Braces? ==>
            var part := Opened(dims, position);
            part != [] && Size(part) > 0 && Legal(part, e.elements, 0))
      && Legal(dims, elements[1..], position + Step(dims, e, position))
  }

  ghost function Padded(leaves: seq<Leaf>, size: nat): seq<Leaf> {
    if |leaves| <= size then leaves + Zeros(size - |leaves|) else leaves
  }

  /** The leaves that the list denotes, from `position` on, without the zeros at the end of the array. */
  ghost function Laid(dims: seq<nat>, elements: seq<Written>, position: nat, kind: Kind): seq<Leaf>
    requires dims != []
    decreases elements
  {
    if elements == [] then []
    else
      var e := elements[0];
      LaidOne(dims, e, position, kind) + Laid(dims, elements[1..], position + Step(dims, e, position), kind)
  }

  ghost function LaidOne(dims: seq<nat>, e: Written, position: nat, kind: Kind): seq<Leaf>
    requires dims != []
    decreases e
  {
    if e.Scalar? then [ScalarOf(e, kind)]
    else
      var part := Opened(dims, position);
      Padded(if part == [] then [] else Laid(part, e.elements, 0, kind), Size(part))
  }

  /** The array that the list denotes. */
  ghost function Denoted(dims: seq<nat>, elements: seq<Written>, kind: Kind): seq<Leaf>
    requires dims != []
  {
    Padded(Laid(dims, elements, 0, kind), Size(dims))
  }

  // ---- Positions ----

  /** A part that begins inside one element lies in that element, wherever the element is. */
  lemma OpenedInside(dims: seq<nat>, n: nat, r: nat)
    requires |dims| > 1 && r < Size(dims[1..])
    ensures Opened(dims, n * Size(dims[1..]) + r) == if r == 0 then dims[1..] else Opened(dims[1..], r)
  {
    RemainderOf(n, Size(dims[1..]), r);
  }

  lemma RemainderOf(n: nat, size: nat, r: nat)
    requires r < size
    ensures (n * size + r) % size == r
  {
    var q := (n * size + r) / size;
    var rest := (n * size + r) % size;
    assert n * size + r == q * size + rest;
    assert (n - q) * size == rest - r;
    if n > q {
      AtLeastOne(n - q, size);
    } else if n < q {
      AtLeastOne(q - n, size);
    }
  }

  lemma AtLeastOne(k: nat, size: nat)
    requires k > 0
    ensures k * size >= size
  {
  }

  lemma Split(p: nat, size: nat) returns (n: nat, r: nat)
    requires size > 0
    ensures p == n * size + r && r < size && n == p / size && r == p % size
  {
    n, r := p / size, p % size;
  }

  /** A part ends no later than the elements it begins before. */
  lemma {:induction false} StepStaysBelow(dims: seq<nat>, e: Written, p: nat, n: nat)
    requires dims != [] && p < n * Size(dims[1..])
    ensures p + Step(dims, e, p) <= n * Size(dims[1..])
    decreases |dims|
  {
    var size := Size(dims[1..]);
    if e.Braces? {
      var q, r := Split(p, size);
      Between(q, n, size, r);
      if r > 0 {
        assert |dims| > 1;
        OpenedInside(dims, q, r);
        assert dims[1..][1..] == dims[2..];
        assert size == dims[1] * Size(dims[2..]);
        StepStaysBelow(dims[1..], e, r, dims[1]);
      }
    }
  }

  lemma Between(q: nat, n: nat, size: nat, r: nat)
    requires q * size + r < n * size
    ensures q * size + size <= n * size
  {
    if q >= n {
      AtLeastAsMany(q, n, size);
    } else {
      AtLeastAsMany(n, q + 1, size);
      OneMore(q, size);
    }
  }

  lemma AtLeastAsMany(k: nat, n: nat, size: nat)
    requires k >= n
    ensures k * size >= n * size
  {
    assert k * size == n * size + (k - n) * size;
  }

  lemma StepInside(dims: seq<nat>, e: Written, p: nat)
    requires dims != [] && p < Size(dims)
    ensures p + Step(dims, e, p) <= Size(dims)
  {
    StepStaysBelow(dims, e, p, dims[0]);
  }

  lemma {:induction false} EndGrows(dims: seq<nat>, elements: seq<Written>, position: nat)
    requires dims != [] && Legal(dims, elements, position)
    ensures position + |elements| <= End(dims, elements, position) <= Size(dims)
  {
    if elements != [] {
      EndGrows(dims, elements[1..], position + Step(dims, elements[0], position));
    }
  }

  lemma {:induction false} LaidLength(dims: seq<nat>, elements: seq<Written>, position: nat, kind: Kind)
    requires dims != [] && Legal(dims, elements, position)
    ensures position + |Laid(dims, elements, position, kind)| == End(dims, elements, position) <= Size(dims)
    decreases elements
  {
    if elements != [] {
      var e := elements[0];
      if e.Braces? {
        LaidLength(Opened(dims, position), e.elements, 0, kind);
      }
      LaidLength(dims, elements[1..], position + Step(dims, e, position), kind);
    }
  }

  lemma {:induction false} OneMoreItem(dims: seq<nat>, elements: seq<Written>, e: Written, position: nat, kind: Kind)
    requires dims != []
    ensures var p := End(dims, elements, position);
      && End(dims, elements + [e], position) == p + Step(dims, e, p)
      && Laid(dims, elements + [e], position, kind) == Laid(dims, elements, position, kind) + LaidOne(dims, e, p, kind)
      && (Legal(dims, elements, position) && Legal(dims, [e], p) ==> Legal(dims, elements + [e], position))
    decreases elements
  {
    if elements == [] {
      assert [] + [e] == [e] && [e][1..] == [];
    } else {
      assert (elements + [e])[1..] == elements[1..] + [e];
      OneMoreItem(dims, elements[1..], e, position + Step(dims, elements[0], position), kind);
    }
  }

  // ---- Counting scalars ----

  /** How many scalars are written, at any depth. */
  ghost function Scalars(elements: seq<Written>): nat
    decreases elements
  {
    if elements == [] then 0 else ScalarsOne(elements[0]) + Scalars(elements[1..])
  }

  ghost function ScalarsOne(e: Written): nat
    decreases e
  {
    match e
    case Braces(inner) => Scalars(inner)
    case Scalar(_, _, _) => 1
  }

  lemma {:induction false} ScalarsAppend(a: seq<Written>, b: seq<Written>)
    ensures Scalars(a + b) == Scalars(a) + Scalars(b)
    decreases |a|
  {
    if a == [] {
      assert a + b == b;
    } else {
      ScalarsAppend(a[1..], b);
      assert (a + b)[1..] == a[1..] + b;
    }
  }

  ghost function Ones(leaves: seq<Leaf>): nat {
    if leaves == [] then 0 else (if leaves[0] == Constant(1) then 1 else 0) + Ones(leaves[1..])
  }

  lemma {:induction false} OnesAppend(a: seq<Leaf>, b: seq<Leaf>)
    ensures Ones(a + b) == Ones(a) + Ones(b)
    decreases |a|
  {
    if a == [] {
      assert a + b == b;
    } else {
      OnesAppend(a[1..], b);
      assert (a + b)[1..] == a[1..] + b;
    }
  }

  lemma {:induction false} NoOnes(n: nat)
    ensures Ones(Zeros(n)) == 0
  {
    if n > 0 {
      NoOnes(n - 1);
      assert Zeros(n)[1..] == Zeros(n - 1);
    }
  }

  lemma OnesPadded(leaves: seq<Leaf>, size: nat)
    ensures Ones(Padded(leaves, size)) == Ones(leaves)
  {
    if |leaves| <= size {
      OnesAppend(leaves, Zeros(size - |leaves|));
      NoOnes(size - |leaves|);
    }
  }

  /** Every scalar is written, and converted, as one. */
  ghost predicate AllOnes(elements: seq<Written>)
    decreases elements
  {
    forall i :: 0 <= i < |elements| ==> IsOne(elements[i])
  }

  ghost predicate IsOne(e: Written)
    decreases e
  {
    match e
    case Braces(inner) => AllOnes(inner)
    case Scalar(leaf, _, cast) => leaf == Constant(1) && cast == Constant(1)
  }

  /** Of such a list, the array has a one for every scalar. */
  lemma {:induction false} OnesLaid(dims: seq<nat>, elements: seq<Written>, position: nat, kind: Kind)
    requires dims != [] && Legal(dims, elements, position) && AllOnes(elements)
    ensures Ones(Laid(dims, elements, position, kind)) == Scalars(elements)
    decreases elements
  {
    if elements != [] {
      var e := elements[0];
      assert IsOne(e);
      OnesLaidOne(dims, e, position, kind);
      var p := position + Step(dims, e, position);
      OnesLaid(dims, elements[1..], p, kind);
      OnesAppend(LaidOne(dims, e, position, kind), Laid(dims, elements[1..], p, kind));
    }
  }

  lemma {:induction false} OnesLaidOne(dims: seq<nat>, e: Written, position: nat, kind: Kind)
    requires dims != [] && IsOne(e)
    requires e.Braces? ==> Opened(dims, position) != [] && Legal(Opened(dims, position), e.elements, 0)
    ensures Ones(LaidOne(dims, e, position, kind)) == ScalarsOne(e)
    decreases e
  {
    if e.Braces? {
      var part := Opened(dims, position);
      OnesLaid(part, e.elements, 0, kind);
      OnesPadded(Laid(part, e.elements, 0, kind), Size(part));
    } else {
      assert [ScalarOf(e, kind)][1..] == [];
    }
  }

  ghost predicate AllZero(leaves: seq<Leaf>) {
    forall i :: 0 <= i < |leaves| ==> leaves[i] == Constant(0)
  }

  /** A list without a scalar means zeros. */
  lemma {:induction false} HollowLaid(dims: seq<nat>, elements: seq<Written>, position: nat, kind: Kind)
    requires dims != [] && Scalars(elements) == 0
    ensures AllZero(Laid(dims, elements, position, kind))
    decreases elements
  {
    if elements != [] {
      var e := elements[0];
      var part := Opened(dims, position);
      if part != [] {
        HollowLaid(part, e.elements, 0, kind);
      }
      assert AllZero(LaidOne(dims, e, position, kind));
      HollowLaid(dims, elements[1..], position + Step(dims, e, position), kind);
    }
  }

  // ---- Lists of the same form ----

  /** The same braces and the same kinds of scalars, whatever their values. */
  ghost predicate SameForm(a: seq<Written>, b: seq<Written>)
    decreases a
  {
    |a| == |b| && forall i :: 0 <= i < |a| ==> SameFormOne(a[i], b[i])
  }

  ghost predicate SameFormOne(a: Written, b: Written)
    decreases a
  {
    match a
    case Braces(inner) => b.Braces? && SameForm(inner, b.elements)
    case Scalar(_, kind, _) => b.Scalar? && b.kind == kind
  }

  lemma {:induction false} SameCount(dims: seq<nat>, from: nat, to: nat, a: seq<Written>, b: seq<Written>)
    requires to <= |dims| && SameForm(a, b)
    ensures Count(dims, from, to, a) == Count(dims, from, to, b) && Scalars(a) == Scalars(b)
    decreases a
  {
    if a != [] {
      assert SameFormOne(a[0], b[0]);
      SameCount(dims, from, to, a[1..], b[1..]);
      if a[0].Braces? {
        SameCount(dims, Outer(from), to, a[0].elements, b[0].elements);
      }
    }
  }

  lemma {:induction false} SameLegal(dims: seq<nat>, a: seq<Written>, b: seq<Written>, position: nat)
    requires dims != [] && SameForm(a, b)
    ensures End(dims, a, position) == End(dims, b, position)
    ensures Legal(dims, a, position) == Legal(dims, b, position)
    decreases a
  {
    if a != [] {
      assert SameFormOne(a[0], b[0]);
      SameLegal(dims, a[1..], b[1..], position + Step(dims, a[0], position));
      if a[0].Braces? && Opened(dims, position) != [] {
        SameLegal(Opened(dims, position), a[0].elements, b[0].elements, 0);
      }
    }
  }

  lemma {:induction false} SameFormBack(a: seq<Written>, b: seq<Written>)
    requires SameForm(a, b)
    ensures SameForm(b, a)
    decreases a
  {
    forall i | 0 <= i < |b| ensures SameFormOne(b[i], a[i]) {
      assert SameFormOne(a[i], b[i]);
      if a[i].Braces? {
        SameFormBack(a[i].elements, b[i].elements);
      }
    }
  }

  /** The list with a one for every scalar. */
  ghost function OnesFor(elements: seq<Written>): seq<Written>
    decreases elements
  {
    if elements == [] then [] else [OneFor(elements[0])] + OnesFor(elements[1..])
  }

  ghost function OneFor(e: Written): Written
    decreases e
  {
    match e
    case Braces(inner) => Braces(OnesFor(inner))
    case Scalar(_, kind, _) => Scalar(Constant(1), kind, Constant(1))
  }

  lemma {:induction false} OnesForSame(elements: seq<Written>)
    ensures SameForm(elements, OnesFor(elements)) && AllOnes(OnesFor(elements))
    decreases elements
  {
    if elements != [] {
      OnesForSame(elements[1..]);
      if elements[0].Braces? {
        OnesForSame(elements[0].elements);
      }
      assert SameFormOne(elements[0], OnesFor(elements)[0]);
    }
  }
}
