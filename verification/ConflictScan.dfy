/** The occupied ranges of one register, kept in order, and the scan that finds the allocs a newcomer
    conflicts with without looking at all of them. */
module ConflictScan {
  import opened LiveRanges

  datatype AllocRange = AllocRange(range: Range, alloc: nat)

  /** The order of the set: by first instruction, then by last. */
  predicate Precedes(a: Range, b: Range) {
    a.begin < b.begin || (a.begin == b.begin && a.end < b.end)
  }

  ghost predicate InOrder(s: seq<AllocRange>) {
    forall i, j :: 0 <= i < j < |s| ==> Precedes(s[i].range, s[j].range)
  }

  ghost predicate ProperRanges(s: seq<AllocRange>) {
    forall i :: 0 <= i < |s| ==> s[i].range.begin <= s[i].range.end
  }

  ghost predicate Disjoint(s: seq<AllocRange>) {
    forall i, j :: 0 <= i < |s| && 0 <= j < |s| && i != j ==> !Conflict(s[i].range, s[j].range)
  }

  /** The first entry that does not precede `r`. */
  method LowerBound(s: seq<AllocRange>, r: Range) returns (k: nat)
    requires InOrder(s)
    ensures k <= |s| && (forall i :: 0 <= i < k ==> Precedes(s[i].range, r))
        && (forall i :: k <= i < |s| ==> !Precedes(s[i].range, r))
    ensures forall i :: 0 <= i < |s| ==>
        (i < k <==> s[i].range.begin < r.begin || (s[i].range.begin == r.begin && s[i].range.end < r.end))
  {
    k := 0;
    while k < |s| && Precedes(s[k].range, r)
      invariant k <= |s| && forall i :: 0 <= i < k ==> Precedes(s[i].range, r)
    {
      k := k + 1;
    }
  }

  predicate ConflictsWith(rs: seq<Range>, o: Range) {
    exists k :: 0 <= k < |rs| && Conflict(rs[k], o)
  }

  /** The allocs of all entries that conflict with some range of the newcomer. */
  function FullScan(s: seq<AllocRange>, rs: seq<Range>): set<nat> {
    set i | 0 <= i < |s| && ConflictsWith(rs, s[i].range) :: s[i].alloc
  }

  /** The scan of the allocator: it starts one entry before the lower bound of the first range. */
  method ScanRegister(s: seq<AllocRange>, rs: seq<Range>) returns (conflicts: set<nat>)
    requires InOrder(s) && |rs| > 0
    ensures conflicts == ScanAfter(s, rs, Start(s, rs[0]))
  {
    var iter := LowerBound(s, rs[0]);
    assert IsLowerBound(s, rs[0], iter);
    if iter != 0 {
      iter := iter - 1;
    }
    StartUnique(s, rs[0], iter);
    conflicts := {};
    ghost var start := iter;
    while iter < |s|
      invariant start <= iter <= |s|
      invariant conflicts == set i | start <= i < iter && ConflictsWith(rs, s[i].range) :: s[i].alloc
    {
      var found := false;
      var k := 0;
      while k < |rs| && !found
        invariant 0 <= k <= |rs|
        invariant found ==> ConflictsWith(rs, s[iter].range)
        invariant !found ==> forall j :: 0 <= j < k ==> !Conflict(rs[j], s[iter].range)
      {
        if Conflict(rs[k], s[iter].range) {
          found := true;
        }
        k := k + 1;
      }
      if found {
        conflicts := conflicts + {s[iter].alloc};
      }
      iter := iter + 1;
    }
  }

  function ScanAfter(s: seq<AllocRange>, rs: seq<Range>, start: nat): set<nat> {
    set i | start <= i < |s| && ConflictsWith(rs, s[i].range) :: s[i].alloc
  }

  /** How many entries precede `r`. */
  function Preceding(s: seq<AllocRange>, r: Range): (k: nat)
    ensures k <= |s|
  {
    if s == [] then 0 else if Precedes(s[0].range, r) then 1 + Preceding(s[1..], r) else 0
  }

  function Start(s: seq<AllocRange>, r: Range): nat {
    var k := Preceding(s, r);
    if k == 0 then 0 else k - 1
  }

  lemma {:induction false} PrecedingIsLowerBound(s: seq<AllocRange>, r: Range, k: nat)
    requires k <= |s| && (forall i :: 0 <= i < k ==> Precedes(s[i].range, r)) && (k < |s| ==> !Precedes(s[k].range, r))
    ensures Preceding(s, r) == k
  {
    if k > 0 {
      PrecedingIsLowerBound(s[1..], r, k - 1);
    }
  }

  lemma {:induction false} PrecedingPrecede(s: seq<AllocRange>, r: Range, i: nat)
    requires i < Preceding(s, r)
    ensures Precedes(s[i].range, r)
  {
    if i > 0 {
      PrecedingPrecede(s[1..], r, i - 1);
    }
  }

  lemma StartUnique(s: seq<AllocRange>, r: Range, iter: nat)
    requires exists k: nat :: IsLowerBound(s, r, k) && iter == if k == 0 then 0 else k - 1
    ensures iter == Start(s, r)
  {
    var k: nat :| IsLowerBound(s, r, k) && iter == if k == 0 then 0 else k - 1;
    PrecedingIsLowerBound(s, r, k);
  }

  ghost predicate IsLowerBound(s: seq<AllocRange>, r: Range, k: nat) {
    k <= |s| && (forall i :: 0 <= i < k ==> Precedes(s[i].range, r)) && (forall i ::
        k <= i < |s|
        ==> !Precedes(s[i].range, r))
  }

  // ----- the short scan and the full one -----

  predicate SortedFrom(rs: seq<Range>) {
    |rs| > 0 && forall k :: 0 <= k < |rs| ==> rs[0].begin <= rs[k].begin <= rs[k].end
  }

  /** Behind the first range hides a one-instruction range at the same place, and the first is long
      enough for a third range to fit between the two in the order of the set. */
  predicate HiddenRange(rs: seq<Range>) {
    |rs| > 0 && rs[0].begin > 0 && rs[0].end >= rs[0].begin + 2
    && exists k :: 0 <= k < |rs| && rs[k].begin == rs[0].begin && rs[k].end == rs[0].begin
  }

  /** A skipped entry conflicts with no range of the newcomer. */
  lemma SkippedIsClear(s: seq<AllocRange>, rs: seq<Range>, i: nat, k: nat)
    requires InOrder(s) && ProperRanges(s) && Disjoint(s) && SortedFrom(rs) && !HiddenRange(rs)
    requires i < Start(s, rs[0]) && k < |rs|
    ensures !Conflict(rs[k], s[i].range)
  {
    var j := Start(s, rs[0]);
    PrecedingPrecede(s, rs[0], j);
    assert Precedes(s[i].range, s[j].range);
    assert !Conflict(s[i].range, s[j].range);
    var a, b, f, r := s[i].range, s[j].range, rs[0], rs[k];
    assert a.end <= b.begin <= f.begin <= r.begin;
    assert r.begin == f.begin == r.end == b.begin && b.end < f.end ==> HiddenRange(rs) || b.begin == b.end;
  }

  /** For every sorted newcomer, among arbitrary disjoint sets of ranges: the short scan finds what the
      full one finds, whatever is stored, exactly if no range hides behind the first. */
  lemma ShortScanIsFull(rs: seq<Range>)
    requires SortedFrom(rs)
    ensures (forall s :: InOrder(s) && ProperRanges(s) && Disjoint(s) ==>
        ScanAfter(s, rs,
        Start(s, rs[0])) == FullScan(s, rs)) <==> !HiddenRange(rs)
  {
    if !HiddenRange(rs) {
      forall s | InOrder(s) && ProperRanges(s) && Disjoint(s) ensures ScanAfter(s, rs, Start(s, rs[0])) == FullScan(s,
          rs) {
        ShortScanFindsAll(s, rs);
      }
    } else {
      HiddenRangeMissed(rs);
    }
  }

  lemma ShortScanFindsAll(s: seq<AllocRange>, rs: seq<Range>)
    requires InOrder(s) && ProperRanges(s) && Disjoint(s) && SortedFrom(rs) && !HiddenRange(rs)
    ensures ScanAfter(s, rs, Start(s, rs[0])) == FullScan(s, rs)
  {
    forall i: nat | i < |s| && ConflictsWith(rs, s[i].range) ensures i >= Start(s, rs[0]) {
      var k :| 0 <= k < |rs| && Conflict(rs[k], s[i].range);
      if i < Start(s, rs[0]) {
        SkippedIsClear(s, rs, i, k);
      }
    }
  }

  /** No stored range reaches across one of the numbers in `starts`. */
  ghost predicate CrossesNone(s: seq<AllocRange>, starts: set<nat>) {
    forall i, x :: 0 <= i < |s| && x in starts && s[i].range.begin < x ==> s[i].range.end < x
  }

  /** Where ranges do not cross the start of a block, and two ranges of the newcomer begin together only
      at such a start, the short scan finds what the full one finds, hidden ranges included. */
  lemma BlockLocalScanIsFull(s: seq<AllocRange>, rs: seq<Range>, starts: set<nat>)
    requires InOrder(s) && ProperRanges(s) && Disjoint(s) && CrossesNone(s, starts) && SortedFrom(rs)
    requires forall k :: 0 <= k < |rs| && rs[k].begin == rs[0].begin && rs[k] != rs[0] ==> rs[0].begin in starts
    ensures ScanAfter(s, rs, Start(s, rs[0])) == FullScan(s, rs)
  {
    forall i: nat | i < |s| && ConflictsWith(rs, s[i].range) ensures i >= Start(s, rs[0]) {
      var k :| 0 <= k < |rs| && Conflict(rs[k], s[i].range);
      if i < Start(s, rs[0]) {
        BlockLocalSkippedIsClear(s, rs, starts, i, k);
      }
    }
  }

  lemma BlockLocalSkippedIsClear(s: seq<AllocRange>, rs: seq<Range>, starts: set<nat>, i: nat, k: nat)
    requires InOrder(s) && ProperRanges(s) && Disjoint(s) && CrossesNone(s, starts) && SortedFrom(rs)
    requires forall k :: 0 <= k < |rs| && rs[k].begin == rs[0].begin && rs[k] != rs[0] ==> rs[0].begin in starts
    requires i < Start(s, rs[0]) && k < |rs|
    ensures !Conflict(rs[k], s[i].range)
  {
    var j := Start(s, rs[0]);
    PrecedingPrecede(s, rs[0], j);
    assert Precedes(s[i].range, s[j].range);
    assert !Conflict(s[i].range, s[j].range);
    var a, b, f, r := s[i].range, s[j].range, rs[0], rs[k];
    assert a.end <= b.begin <= f.begin <= r.begin;
  }

  /** On arbitrary sets of ranges, not those of a function: a store on which a hidden range makes the
      short scan miss an alloc. */
  lemma HiddenRangeMissed(rs: seq<Range>)
    requires SortedFrom(rs) && HiddenRange(rs)
    ensures exists s :: InOrder(s) && ProperRanges(s) && Disjoint(s) && ScanAfter(s, rs, Start(s, rs[0])) != FullScan(s,
        rs)
  {
    var e := rs[0].begin;
    var s := [AllocRange(Range(e - 1, e, 0, 0), 1), AllocRange(Range(e, e + 1, 0, 0), 2)];
    PrecedingIsLowerBound(s, rs[0], 2);
    var k :| 0 <= k < |rs| && rs[k].begin == e && rs[k].end == e;
    assert Conflict(rs[k], s[0].range);
    assert ConflictsWith(rs, s[0].range);
    assert 1 in FullScan(s, rs);
    assert 1 !in ScanAfter(s, rs, 1);
  }

  // ----- adding and removing entries -----

  predicate SameRange(a: Range, b: Range) {
    a.begin == b.begin && a.end == b.end
  }

  /** The set with one more entry: an entry with the same range is left as it is. */
  function Inserted(s: seq<AllocRange>, a: AllocRange): seq<AllocRange> {
    if s == [] || Precedes(a.range, s[0].range) then [a] + s
    else if SameRange(s[0].range, a.range) then s
    else [s[0]] + Inserted(s[1..], a)
  }

  /** The set with the first `k` of an alloc's ranges. */
  function InsertedAll(s: seq<AllocRange>, own: seq<Range>, alloc: nat, k: nat): seq<AllocRange>
    requires k <= |own|
  {
    if k == 0 then s else Inserted(InsertedAll(s, own, alloc, k - 1), AllocRange(own[k - 1], alloc))
  }

  lemma {:induction false} InsertedKeeps(s: seq<AllocRange>, a: AllocRange)
    ensures forall e :: e in s ==> e in Inserted(s, a)
  {
    if s != [] {
      InsertedKeeps(s[1..], a);
      assert s == [s[0]] + s[1..];
    }
  }

  lemma {:induction false} InsertedAllKeeps(s: seq<AllocRange>, own: seq<Range>, alloc: nat, k: nat)
    requires k <= |own|
    ensures forall e :: e in s ==> e in InsertedAll(s, own, alloc, k)
  {
    if k > 0 {
      InsertedAllKeeps(s, own, alloc, k - 1);
      InsertedKeeps(InsertedAll(s, own, alloc, k - 1), AllocRange(own[k - 1], alloc));
    }
  }

  lemma {:induction false} InsertedAt(s: seq<AllocRange>, a: AllocRange, k: nat)
    requires InOrder(s) && IsLowerBound(s, a.range, k)
    ensures Inserted(s, a) == if k < |s| && SameRange(s[k].range, a.range) then s else s[..k] + [a] + s[k..]
  {
    if k > 0 {
      InsertedAt(s[1..], a, k - 1);
      assert Precedes(s[0].range, a.range);
      InsertedBehind(s, a, k);
    } else {
      assert s[..0] + [a] + s[0..] == [a] + s;
    }
  }

  lemma InsertedBehind(s: seq<AllocRange>, a: AllocRange, k: nat)
    requires 0 < k <= |s|
    ensures [s[0]] + (s[1..][..k - 1] + [a] + s[1..][k - 1..]) == s[..k] + [a] + s[k..]
    ensures [s[0]] + s[1..] == s && (k < |s| ==> s[1..][k - 1] == s[k])
  {
  }

  /** Inserting into the set. */
  method Insert(s: seq<AllocRange>, a: AllocRange) returns (t: seq<AllocRange>)
    requires InOrder(s)
    ensures t == Inserted(s, a) && InOrder(t)
    ensures (exists x :: x in s && x.range.begin == a.range.begin && x.range.end == a.range.end) ==> t == s
    ensures !(exists x :: x in s && x.range.begin == a.range.begin && x.range.end == a.range.end) ==>
        multiset(t) == multiset(s) + multiset{a}
        && forall e :: e in t <==> e in s || e == a
  {
    var k := LowerBound(s, a.range);
    InsertedAt(s, a, k);
    InsertedMeans(s, a, k);
    t := if k < |s| && SameRange(s[k].range, a.range) then s else s[..k] + [a] + s[k..];
  }

  /** The entry is there in order, and nothing else has changed, unless one with the same range was there. */
  lemma InsertedMeans(s: seq<AllocRange>, a: AllocRange, k: nat)
    requires InOrder(s) && IsLowerBound(s, a.range, k)
    ensures InOrder(Inserted(s, a))
    ensures (exists x :: x in s && SameRange(x.range, a.range)) ==> Inserted(s, a) == s
    ensures !(exists x :: x in s && SameRange(x.range, a.range)) ==>
        multiset(Inserted(s, a)) == multiset(s) + multiset{a}
        && forall e :: e in Inserted(s, a) <==> e in s || e == a
  {
    InsertedAt(s, a, k);
    if k < |s| && SameRange(s[k].range, a.range) {
      assert s[k] in s;
    } else {
      SameRangeIsAtBound(s, a, k);
      InsertedInOrder(s, a, k);
      InsertedMembers(s, a, k);
    }
  }

  lemma SameRangeIsAtBound(s: seq<AllocRange>, a: AllocRange, k: nat)
    requires InOrder(s) && IsLowerBound(s, a.range, k)
    requires k < |s| ==> !SameRange(s[k].range, a.range)
    ensures !exists x :: x in s && SameRange(x.range, a.range)
  {
    forall i | 0 <= i < |s| ensures !SameRange(s[i].range, a.range) {
      if i < k {
        assert Precedes(s[i].range, a.range);
      } else if i > k {
        assert Precedes(s[k].range, s[i].range) && !Precedes(s[k].range, a.range);
      }
    }
  }

  lemma InsertedInOrder(s: seq<AllocRange>, a: AllocRange, k: nat)
    requires InOrder(s) && IsLowerBound(s, a.range, k)
    requires k < |s| ==> !SameRange(s[k].range, a.range)
    ensures InOrder(s[..k] + [a] + s[k..])
  {
    var t := s[..k] + [a] + s[k..];
    forall i, j | 0 <= i < j < |t| ensures Precedes(t[i].range, t[j].range) {
      var x, y := if i < k then i else i - 1, if j < k then j else j - 1;
      if i == k {
        assert !Precedes(s[k].range, a.range) && t[j] == s[y];
        assert y == k || Precedes(s[k].range, s[y].range);
      } else if j == k {
        assert t[i] == s[i] && Precedes(s[i].range, a.range);
      } else {
        assert t[i] == s[x] && t[j] == s[y];
        assert Precedes(s[x].range, s[y].range);
      }
    }
  }

  lemma InsertedMembers(s: seq<AllocRange>, a: AllocRange, k: nat)
    requires k <= |s|
    ensures multiset(s[..k] + [a] + s[k..]) == multiset(s) + multiset{a}
    ensures forall e :: e in s[..k] + [a] + s[k..] <==> e in s || e == a
  {
    assert s == s[..k] + s[k..];
    assert multiset(s) == multiset(s[..k]) + multiset(s[k..]);
    forall e ensures e in s[..k] + [a] + s[k..] <==> e in s || e == a {
      assert e in s <==> e in s[..k] || e in s[k..];
    }
  }

  /** The eviction of `alloc`: the walk over the set stops at the first entry it erases. */
  method EraseFirst(s: seq<AllocRange>, alloc: nat) returns (t: seq<AllocRange>)
    ensures t == WithoutFirst(s, alloc)
  {
    var i: nat := 0;
    while i < |s| && s[i].alloc != alloc
      invariant i <= |s| && forall j :: 0 <= j < i ==> s[j].alloc != alloc
    {
      i := i + 1;
    }
    WithoutFirstAt(s, alloc, i);
    t := if i < |s| then s[..i] + s[i + 1..] else s;
  }

  function WithoutFirst(s: seq<AllocRange>, alloc: nat): seq<AllocRange> {
    if s == [] then [] else if s[0].alloc == alloc then s[1..] else [s[0]] + WithoutFirst(s[1..], alloc)
  }

  lemma {:induction false} WithoutFirstAt(s: seq<AllocRange>, alloc: nat, i: nat)
    requires i <= |s| && (forall j :: 0 <= j < i ==> s[j].alloc != alloc) && (i < |s| ==> s[i].alloc == alloc)
    ensures WithoutFirst(s, alloc) == if i < |s| then s[..i] + s[i + 1..] else s
  {
    if i > 0 {
      WithoutFirstAt(s[1..], alloc, i - 1);
    }
  }

  /** What eviction should leave: no entry of `alloc`. */
  function WithoutAll(s: seq<AllocRange>, alloc: nat): seq<AllocRange> {
    if s == [] then [] else if s[0].alloc == alloc then WithoutAll(s[1..], alloc)
        else [s[0]] + WithoutAll(s[1..], alloc)
  }

  function Stored(s: seq<AllocRange>, alloc: nat): nat {
    if s == [] then 0 else Stored(s[1..], alloc) + if s[0].alloc == alloc then 1 else 0
  }

  /** Evicting removes all of an alloc's ranges exactly if it has at most one. */
  lemma {:induction false} EvictionCompleteIff(s: seq<AllocRange>, alloc: nat)
    ensures WithoutFirst(s, alloc) == WithoutAll(s, alloc) <==> Stored(s, alloc) <= 1
    ensures Stored(WithoutFirst(s, alloc), alloc) == if Stored(s, alloc) == 0 then 0 else Stored(s, alloc) - 1
  {
    if s != [] {
      EvictionCompleteIff(s[1..], alloc);
      NoneLeft(s[1..], alloc);
      if s[0].alloc != alloc {
        assert WithoutFirst(s, alloc)[1..] == WithoutFirst(s[1..], alloc);
        assert WithoutAll(s, alloc)[1..] == WithoutAll(s[1..], alloc);
      }
    }
  }

  lemma {:induction false} NoneLeft(s: seq<AllocRange>, alloc: nat)
    ensures WithoutAll(s, alloc) == s <==> Stored(s, alloc) == 0
    ensures |WithoutAll(s, alloc)| == |s| - Stored(s, alloc)
  {
    if s != [] {
      NoneLeft(s[1..], alloc);
    }
  }

  /** What an eviction that stops at the first range can lead to: alloc `b` leaves the register but its
      second range stays; a newcomer `a` with an equal range then leaves no entry of its own, so a third
      alloc with that range again is told only of `b`, although `a` is in the register. */
  lemma StaleRangeHidesNewcomer(p: Range, q: Range, a: nat, b: nat)
    requires p.begin <= p.end < q.begin <= q.end && a != b
    ensures var left := WithoutFirst([AllocRange(p, b), AllocRange(q, b)], b);
      && left == [AllocRange(q, b)]
      && FullScan([AllocRange(p, b), AllocRange(q, b)], [q]) == {b}
      && (exists x :: x in left && SameRange(x.range, q))
      && Conflict(q, q) && ScanAfter(left, [q], Start(left, q)) == {b}
  {
    var stored, left := [AllocRange(p, b), AllocRange(q, b)], [AllocRange(q, b)];
    assert stored[1..] == left;
    assert AllocRange(q, b) in left;
    assert ConflictsWith([q], stored[1].range) by { assert Conflict([q][0], stored[1].range); }
    assert ConflictsWith([q], left[0].range) by { assert Conflict([q][0], left[0].range); }
    assert Preceding(left, q) == 0;
  }
}
