/** Where `Mem2reg` puts phis: promotable variables, iterated dominance frontiers, and why every
    removed load then finds a definition on its stack. */
module PhiPlacement {
  import opened ControlFlowGraph
  import opened SsaProgram
  import opened ControlFlowAnalysis
  import opened Renaming
  import opened RenamingSimulation

  // ----- which variables are promoted -----

  predicate Scalar(t: Type) {
    t.IntType? || t.FloatType? || t.PointerType?
  }

  /** An instruction may use the address `v` only as the address of a load or of a store. */
  predicate HarmlessUse(ins: Instr, v: Operand) {
    match ins
    case Load(_, _) => true
    case Store(value, _) => value != v
    case Other(_, _, srcs) => v !in srcs
    case Alloca(_, _) => true
  }

  ghost predicate AddressNotTaken(p: Program, v: Operand) {
    forall b, ins :: b in p && ins in p[b].body ==> HarmlessUse(ins, v)
  }

  /** `v` is allocated in the entry block, holds a scalar, and its address is only loaded from and stored to. */
  ghost predicate Promotable(g: Graph, p: Program, v: Operand) {
    && (exists i: nat ::
        At(p, g.entry, i) && p[g.entry].body[i].Alloca? && p[g.entry].body[i].dst == v
        && Scalar(p[g.entry].body[i].ty))
    && AddressNotTaken(p, v)
  }

  /** The body without the allocations of promoted variables. */
  function WithoutAllocas(prom: set<Operand>, body: seq<Instr>): (r: seq<Instr>)
    ensures |r| <= |body|
  {
    if body == [] then []
    else WithoutAllocas(prom, body[..|body| - 1]) +
         if body[|body| - 1].Alloca? && body[|body| - 1].dst in prom then [] else [body[|body| - 1]]
  }

  /** Only the entry block is cleared. */
  function EntryCleared(g: Graph, prom: set<Operand>, p: Program): Program
    requires g.entry in p
  {
    p[g.entry := Block(p[g.entry].phis, WithoutAllocas(prom, p[g.entry].body))]
  }

  /** The position in `body` of instruction `i` of the cleared body. */
  function Original(prom: set<Operand>, body: seq<Instr>, i: nat): (j: nat)
    requires i < |WithoutAllocas(prom, body)|
    ensures j < |body| && body[j] == WithoutAllocas(prom, body)[i]
    ensures !(body[j].Alloca? && body[j].dst in prom)
  {
    var n := |body| - 1;
    if i < |WithoutAllocas(prom, body[..n])| then Original(prom, body[..n], i) else n
  }

  lemma {:induction false} OriginalMonotone(prom: set<Operand>, body: seq<Instr>, i: nat, j: nat)
    requires i < j < |WithoutAllocas(prom, body)|
    ensures Original(prom, body, i) < Original(prom, body, j)
  {
    var n := |body| - 1;
    if j < |WithoutAllocas(prom, body[..n])| {
      OriginalMonotone(prom, body[..n], i, j);
    }
  }

  lemma {:induction false} PrefixCleared(prom: set<Operand>, body: seq<Instr>, i: nat)
    requires i < |WithoutAllocas(prom, body)|
    ensures StoredIn(prom, WithoutAllocas(prom, body)[..i]) == StoredIn(prom, body[..Original(prom, body, i)])
  {
    var n := |body| - 1;
    var w := WithoutAllocas(prom, body[..n]);
    if i < |w| {
      PrefixCleared(prom, body[..n], i);
      assert WithoutAllocas(prom, body)[..i] == w[..i];
      assert body[..n][..Original(prom, body, i)] == body[..Original(prom, body, i)];
    } else {
      StoredCleared(prom, body[..n]);
      assert WithoutAllocas(prom, body)[..i] == w;
    }
  }

  lemma {:induction false} StoredCleared(prom: set<Operand>, body: seq<Instr>)
    ensures StoredIn(prom, WithoutAllocas(prom, body)) == StoredIn(prom, body)
  {
    if body != [] {
      var n := |body| - 1;
      StoredCleared(prom, body[..n]);
      var w := WithoutAllocas(prom, body[..n]);
      assert (w + [body[n]])[..|w|] == w;
      assert w + [] == w;
    }
  }

  lemma {:induction false} ExecCleared(m: Machine, prom: set<Operand>, body: seq<Instr>, s: State)
    ensures ExecBody(m, prom, WithoutAllocas(prom, body), s) == ExecBody(m, prom, body, s)
  {
    if body != [] {
      var n := |body| - 1;
      ExecCleared(m, prom, body[..n], s);
      var w := WithoutAllocas(prom, body[..n]);
      assert (w + [body[n]])[..|w|] == w;
      assert w + [] == w;
    }
  }

  /** Removing the allocations changes no run. */
  lemma {:induction false} RunCleared(g: Graph, m: Machine, prom: set<Operand>, p: Program, path: seq<BlockId>,
                                      init: State)
    requires g.entry in p && |path| > 0 && (forall b :: b in path ==> b in p)
    ensures Arrive(m, prom, EntryCleared(g, prom, p), path, init) == Arrive(m, prom, p, path, init)
    ensures Run(m, prom, EntryCleared(g, prom, p), path, init) == Run(m, prom, p, path, init)
    decreases |path|
  {
    if |path| > 1 {
      RunCleared(g, m, prom, p, path[..|path| - 1], init);
    }
    ExecCleared(m, prom, p[path[|path| - 1]].body, Arrive(m, prom, p, path, init));
  }

  lemma {:induction false} StoredAlongCleared(g: Graph, prom: set<Operand>, p: Program, path: seq<BlockId>)
    requires g.entry in p && (forall b :: b in path ==> b in p)
    ensures StoredAlong(prom, EntryCleared(g, prom, p), path) == StoredAlong(prom, p, path)
  {
    if path != [] {
      StoredAlongCleared(g, prom, p, path[..|path| - 1]);
      StoredCleared(prom, p[path[|path| - 1]].body);
    }
  }

  // ----- the cleared program is still a proper input -----

  /** Position `i` of block `b` in the cleared program, in terms of the original one. */
  ghost function Position(g: Graph, prom: set<Operand>, p: Program, b: BlockId, i: nat): (j: nat)
    requires g.entry in p && At(EntryCleared(g, prom, p), b, i)
    ensures At(p, b, j) && p[b].body[j] == EntryCleared(g, prom, p)[b].body[i]
  {
    if b == g.entry then Original(prom, p[b].body, i) else i
  }

  lemma PositionOrder(g: Graph, prom: set<Operand>, p: Program, b: BlockId, i: nat, c: BlockId, j: nat)
    requires g.entry in p && At(EntryCleared(g, prom, p), b, i) && At(EntryCleared(g, prom, p), c, j)
    ensures Before(g, b, Position(g, prom, p, b, i), c, Position(g, prom, p, c, j)) ==> Before(g, b, i, c, j)
    ensures b == c && Position(g, prom, p, b, i) == Position(g, prom, p, c, j) ==> i == j
  {
    if b == c && b == g.entry {
      if i < j {
        OriginalMonotone(prom, p[b].body, i, j);
      } else if j < i {
        OriginalMonotone(prom, p[b].body, j, i);
      }
    }
  }

  lemma LoadResultCleared(g: Graph, prom: set<Operand>, p: Program, o: Operand)
    requires g.entry in p && IsLoadResult(EntryCleared(g, prom, p), prom, o)
    ensures IsLoadResult(p, prom, o)
  {
    var q := EntryCleared(g, prom, p);
    var b, i: nat :| At(q, b, i) && PromotedLoad(prom, q[b].body[i]) && q[b].body[i].dst == o;
    var j := Position(g, prom, p, b, i);
  }

  lemma SsaCleared(g: Graph, p: Program, prom: set<Operand>)
    requires g.entry in p && SsaInput(g, p, prom)
    ensures SsaInput(g, EntryCleared(g, prom, p), prom)
  {
    hide WithoutAllocas, Before, Uses, Defines;
    var q := EntryCleared(g, prom, p);
    forall b, i: nat, c, j: nat, o | At(q, b, i) && At(q, c, j) && Defines(q[b].body[i], o)
      ensures Defines(q[c].body[j], o) ==> b == c && i == j
      ensures Uses(q[c].body[j], o) ==> Before(g, b, i, c, j)
    {
      var i', j' := Position(g, prom, p, b, i), Position(g, prom, p, c, j);
      PositionOrder(g, prom, p, b, i, c, j);
    }
    forall b, i: nat | At(q, b, i)
      ensures (q[b].body[i].Load? || q[b].body[i].Store?) ==> !IsLoadResult(q, prom, q[b].body[i].ptr)
      ensures forall o :: Defines(q[b].body[i], o) ==> o.Id?
    {
      var i' := Position(g, prom, p, b, i);
      if (q[b].body[i].Load? || q[b].body[i].Store?) && IsLoadResult(q, prom, q[b].body[i].ptr) {
        LoadResultCleared(g, prom, p, q[b].body[i].ptr);
      }
    }
  }

  lemma LoadsCleared(prom: set<Operand>, stored: set<Operand>, body: seq<Instr>)
    requires LoadsAfterStores(prom, stored, body)
    ensures LoadsAfterStores(prom, stored, WithoutAllocas(prom, body))
  {
    hide WithoutAllocas;
    forall i: nat | i < |WithoutAllocas(prom, body)| && PromotedLoad(prom, WithoutAllocas(prom, body)[i])
      ensures WithoutAllocas(prom, body)[i].ptr in stored + StoredIn(prom, WithoutAllocas(prom, body)[..i])
    {
      var j := Original(prom, body, i);
      PrefixCleared(prom, body, i);
    }
  }

  lemma {:induction false} StoresFirstCleared(g: Graph, prom: set<Operand>, p: Program, path: seq<BlockId>)
    requires g.entry in p && (forall b :: b in path ==> b in p) && StoresFirst(prom, p, path)
    ensures StoresFirst(prom, EntryCleared(g, prom, p), path)
  {
    hide WithoutAllocas, LoadsAfterStores;
    if path != [] {
      var n := |path| - 1;
      StoresFirstCleared(g, prom, p, path[..n]);
      StoredAlongCleared(g, prom, p, path[..n]);
      LoadsCleared(prom, StoredAlong(prom, p, path[..n]), p[path[n]].body);
    }
  }

  // ----- iterated dominance frontiers -----

  /** `s` is closed: the frontier of every block that stores or is in `s` lies in `s`. */
  ghost predicate ClosedUnderFrontier(dfSet: map<BlockId, set<BlockId>>, defs: set<BlockId>, s: set<BlockId>) {
    forall x :: x in defs || x in s ==> Frontier(dfSet, x) <= s
  }

  /** The iterated dominance frontier: the least closed set. */
  ghost predicate IsIteratedFrontier(dfSet: map<BlockId, set<BlockId>>, defs: set<BlockId>, s: set<BlockId>) {
    && ClosedUnderFrontier(dfSet, defs, s)
    && forall t :: ClosedUnderFrontier(dfSet, defs, t) ==> s <= t
  }

  // ----- every load finds a definition -----

  ghost predicate HasDefinition(p: Program, q: Program, x: BlockId, v: Operand) {
    StoresTo(p, x, v) || PhiFor(q, x, v)
  }

  /** At the start of `b`, its phis included, some definition of `v` dominates. */
  ghost predicate StartInReach(g: Graph, p: Program, q: Program, b: BlockId, v: Operand) {
    PhiFor(q, b, v) || exists x :: StrictlyDominates(g, x, b) && HasDefinition(p, q, x, v)
  }

  ghost predicate StoreBefore(p: Program, b: BlockId, i: nat, v: Operand) {
    b in p && i <= |p[b].body| && exists k: nat :: k < i && p[b].body[k].Store? && p[b].body[k].ptr == v
  }

  ghost predicate LoadsInReach(g: Graph, p: Program, prom: set<Operand>, q: Program) {
    forall b, i: nat :: At(p, b, i) && PromotedLoad(prom, p[b].body[i]) ==>
      StartInReach(g, p, q, b, p[b].body[i].ptr) || StoreBefore(p, b, i, p[b].body[i].ptr)
  }

  lemma {:induction false} StoredInExists(prom: set<Operand>, body: seq<Instr>, v: Operand) returns (k: nat)
    requires v in StoredIn(prom, body)
    ensures k < |body| && body[k].Store? && body[k].ptr == v
  {
    var n := |body| - 1;
    if PromotedStore(prom, body[n]) && body[n].ptr == v {
      k := n;
    } else {
      k := StoredInExists(prom, body[..n], v);
    }
  }

  /** A definition in a dominator of a predecessor reaches the start of the block, by a phi if need be. */
  lemma ReachesOverEdge(g: Graph, p: Program, prom: set<Operand>, q: Program, x: BlockId, a: BlockId, b: BlockId,
                        v: Operand)
    requires WellFormed(g) && Edge(g, a, b) && Dominates(g, x, a) && HasDefinition(p, q, x, v) && v in prom
        && PhisPlaced(g, p, prom, q)
    ensures StartInReach(g, p, q, b, v)
  {
    hide Dominates;
    if !StrictlyDominates(g, x, b) {
      assert InFrontier(g, x, b);
    }
  }

  lemma {:induction false} StoredReaches(g: Graph, p: Program, prom: set<Operand>, q: Program, path: seq<BlockId>,
                                         b: BlockId, v: Operand)
    requires WellFormed(g) && p.Keys == g.succ.Keys && PhisPlaced(g, p, prom, q) && IsPath(g, path, g.entry, b)
    requires (forall x :: x in path ==> x in p) && v in StoredAlong(prom, p, path[..|path| - 1])
    ensures StartInReach(g, p, q, b, v)
    decreases |path|
  {
    hide PhisPlaced, StartInReach, StoredIn;
    if |path| > 1 {
      var path', a := DropLast(g, path, g.entry, b);
      assert path[..|path| - 1] == path';
      PathEnds(g, path', g.entry, a);
      StoredAlongPromoted(prom, p, path');
      var x := DefinitionAtPred(g, p, prom, q, path', a, v) by {
        if v in StoredAlong(prom, p, path'[..|path'| - 1]) {
          StoredReaches(g, p, prom, q, path', a, v);
        }
      }
      ReachesOverEdge(g, p, prom, q, x, a, b, v);
    }
  }

  lemma DefinitionAtPred(g: Graph, p: Program, prom: set<Operand>, q: Program, path: seq<BlockId>, a: BlockId,
                         v: Operand) returns (x: BlockId)
    requires |path| > 0 && (forall x :: x in path ==> x in p) && path[|path| - 1] == a && WellFormed(g)
    requires v in StoredAlong(prom, p, path)
    requires v in StoredAlong(prom, p, path[..|path| - 1]) ==> StartInReach(g, p, q, a, v)
    ensures Dominates(g, x, a) && HasDefinition(p, q, x, v)
  {
    DominatesReflexive(g, a);
    if v in StoredIn(prom, p[a].body) {
      var k := StoredInExists(prom, p[a].body, v);
      assert At(p, a, k);
      x := a;
    } else if PhiFor(q, a, v) {
      x := a;
    } else {
      x :| StrictlyDominates(g, x, a) && HasDefinition(p, q, x, v);
    }
  }

  /** Some path from the entry through the end of `a` stores to `v`. */
  ghost predicate StoredBy(g: Graph, p: Program, prom: set<Operand>, a: BlockId, v: Operand) {
    exists path :: IsPath(g, path, g.entry, a) && (forall x :: x in path ==> x in p) && v in StoredAlong(prom, p, path)
  }

  /** Some path to the start of `b` does. */
  ghost predicate StoredOnTheWay(g: Graph, p: Program, prom: set<Operand>, b: BlockId, v: Operand) {
    exists a :: Edge(g, a, b) && StoredBy(g, p, prom, a, v)
  }

  /** Every promoted load comes after a store to its variable on some path. */
  ghost predicate LoadsMayFollowStores(g: Graph, p: Program, prom: set<Operand>) {
    forall b, i: nat :: At(p, b, i) && PromotedLoad(prom, p[b].body[i]) ==>
      StoredOnTheWay(g, p, prom, b, p[b].body[i].ptr) || StoreBefore(p, b, i, p[b].body[i].ptr)
  }

  lemma StoredByNext(g: Graph, p: Program, prom: set<Operand>, a: BlockId, b: BlockId, v: Operand)
    requires WellFormed(g) && p.Keys == g.succ.Keys && StoredBy(g, p, prom, a, v) && Edge(g, a, b)
    ensures StoredBy(g, p, prom, b, v)
  {
    hide StoredIn;
    var path :| IsPath(g, path, g.entry, a) && (forall x :: x in path ==> x in p) && v in StoredAlong(prom, p, path);
    SingletonPath(g, b);
    ConcatPaths(g, path, [b], g.entry, a, b, b);
    assert (path + [b])[..|path|] == path;
  }

  lemma StoresHere(g: Graph, p: Program, prom: set<Operand>, b: BlockId, v: Operand)
    requires WellFormed(g) && p.Keys == g.succ.Keys && Reachable(g, b) && StoresTo(p, b, v) && v in prom
    ensures StoredBy(g, p, prom, b, v)
  {
    var path :| IsPath(g, path, g.entry, b);
    PathEnds(g, path, g.entry, b);
    var k: nat :| At(p, b, k) && p[b].body[k].Store? && p[b].body[k].ptr == v;
    StoreIsStored(prom, p[b].body, k);
  }

  lemma {:induction false} StoreIsStored(prom: set<Operand>, body: seq<Instr>, k: nat)
    requires k < |body| && body[k].Store? && body[k].ptr in prom
    ensures body[k].ptr in StoredIn(prom, body)
  {
    var n := |body| - 1;
    if k < n {
      StoreIsStored(prom, body[..n], k);
    }
  }

  /** What is stored by the end of one block of a path is stored by the end of the path. */
  lemma {:induction false} StoredByLater(g: Graph, p: Program, prom: set<Operand>, path: seq<BlockId>, x: BlockId,
                                         a: BlockId, v: Operand)
    requires WellFormed(g) && p.Keys == g.succ.Keys && IsPath(g, path, g.entry, a) && x in path
    requires StoredBy(g, p, prom, x, v)
    ensures StoredBy(g, p, prom, a, v)
    ensures x != a ==> StoredOnTheWay(g, p, prom, a, v)
    decreases |path|
  {
    hide StoredBy;
    PathEnds(g, path, g.entry, a);
    if x != a {
      assert |path| > 1;
      var path', c := DropLast(g, path, g.entry, a);
      assert path == path' + [a];
      StoredByLater(g, p, prom, path', x, c, v);
      StoredByNext(g, p, prom, c, a, v);
    }
  }

  /** No block has a phi that the frontiers do not ask for. */
  ghost predicate PhisNeeded(g: Graph, p: Program, q: Program) {
    forall v, t: set<BlockId> :: Asked(g, p, v, t) ==> forall y :: PhiFor(q, y, v) ==> y in t
  }

  ghost predicate Asked(g: Graph, p: Program, v: Operand, t: set<BlockId>) {
    forall x, y :: (StoresTo(p, x, v) || x in t) && InFrontier(g, x, y) ==> y in t
  }

  /** The blocks that some path reaches with `v` stored are closed under frontiers. */
  lemma StoredIsAsked(g: Graph, p: Program, prom: set<Operand>, v: Operand, t: set<BlockId>)
    requires WellFormed(g) && AllReachable(g) && p.Keys == g.succ.Keys && v in prom
    requires forall y :: y in t <==> y in g.succ && StoredOnTheWay(g, p, prom, y, v)
    ensures Asked(g, p, v, t)
  {
    hide StoredBy, StoresTo;
    forall x, y | (StoresTo(p, x, v) || x in t) && InFrontier(g, x, y) ensures y in t {
      var a :| a in g.pred[y] && Dominates(g, x, a);
      DominatorIsReachable(g, x, a);
      assert StoredBy(g, p, prom, x, v) by {
        if StoresTo(p, x, v) {
          StoresHere(g, p, prom, x, v);
        } else {
          var c :| Edge(g, c, x) && StoredBy(g, p, prom, c, v);
          StoredByNext(g, p, prom, c, x, v);
        }
      }
      var path :| IsPath(g, path, g.entry, a);
      StoredByLater(g, p, prom, path, x, a, v);
      assert Edge(g, a, y);
    }
  }

  /** A definition that reaches the start of a block is one that some path stores. */
  lemma InReachIsStored(g: Graph, p: Program, prom: set<Operand>, q: Program, b: BlockId, v: Operand)
    requires WellFormed(g) && AllReachable(g) && p.Keys == g.succ.Keys && v in prom && b in p
    requires PhisNeeded(g, p, q) && q.Keys == p.Keys && StartInReach(g, p, q, b, v)
    ensures StoredOnTheWay(g, p, prom, b, v)
  {
    var t := set y | y in g.succ && StoredOnTheWay(g, p, prom, y, v);
    StoredIsAsked(g, p, prom, v, t);
    hide StoredBy, StoredOnTheWay, StoresTo, PhiFor, Asked;
    if PhiFor(q, b, v) {
      assert b in t;
    } else {
      var x :| StrictlyDominates(g, x, b) && HasDefinition(p, q, x, v);
      DominatorIsReachable(g, x, b);
      assert StoredBy(g, p, prom, x, v) by {
        if StoresTo(p, x, v) {
          StoresHere(g, p, prom, x, v);
        } else {
          assert x in t;
          EntersStored(g, p, prom, x, v);
        }
      }
      var path :| IsPath(g, path, g.entry, b);
      StoredByLater(g, p, prom, path, x, b, v);
    }
  }

  lemma EntersStored(g: Graph, p: Program, prom: set<Operand>, b: BlockId, v: Operand)
    requires WellFormed(g) && p.Keys == g.succ.Keys && StoredOnTheWay(g, p, prom, b, v)
    ensures StoredBy(g, p, prom, b, v)
  {
    hide StoredBy;
    var a :| Edge(g, a, b) && StoredBy(g, p, prom, a, v);
    StoredByNext(g, p, prom, a, b, v);
  }

  lemma StoredIsInReach(g: Graph, p: Program, prom: set<Operand>, q: Program, b: BlockId, v: Operand)
    requires WellFormed(g) && p.Keys == g.succ.Keys && PhisPlaced(g, p, prom, q) && StoredOnTheWay(g, p, prom, b, v)
    ensures StartInReach(g, p, q, b, v)
  {
    hide PhisPlaced, StartInReach, StoredIn;
    var a :| Edge(g, a, b) && StoredBy(g, p, prom, a, v);
    var path :| IsPath(g, path, g.entry, a) && (forall x :: x in path ==> x in p) && v in StoredAlong(prom, p, path);
    SingletonPath(g, b);
    ConcatPaths(g, path, [b], g.entry, a, b, b);
    assert (path + [b])[..|path|] == path;
    StoredReaches(g, p, prom, q, path + [b], b, v);
  }

  /** The walk finds a definition at every load exactly if every load comes after a store on some path. */
  lemma LoadsInReachIff(g: Graph, p: Program, prom: set<Operand>, q: Program)
    requires WellFormed(g) && AllReachable(g) && p.Keys == g.succ.Keys && PhisPlaced(g, p, prom, q)
    ensures LoadsMayFollowStores(g, p, prom) ==> LoadsInReach(g, p, prom, q)
    ensures PhisNeeded(g, p, q) && LoadsInReach(g, p, prom, q) ==> LoadsMayFollowStores(g, p, prom)
  {
    hide StartInReach, StoredOnTheWay, WellFormed, PhisNeeded;
    assert q.Keys == p.Keys;
    hide PhisPlaced;
    forall b, i: nat | At(p, b, i) && PromotedLoad(prom, p[b].body[i])
      ensures StoredOnTheWay(g, p, prom, b, p[b].body[i].ptr) ==> StartInReach(g, p, q, b, p[b].body[i].ptr)
      ensures PhisNeeded(g, p, q) && StartInReach(g, p, q, b, p[b].body[i].ptr) ==>
          StoredOnTheWay(g, p, prom, b, p[b].body[i].ptr)
    {
      var v := p[b].body[i].ptr;
      if StoredOnTheWay(g, p, prom, b, v) {
        StoredIsInReach(g, p, prom, q, b, v);
      }
      if PhisNeeded(g, p, q) && StartInReach(g, p, q, b, v) {
        InReachIsStored(g, p, prom, q, b, v);
      }
    }
  }

  /** `int x, y; y = v; return x;`: no path stores to `x`, and when the walk comes to its load there is a
      stack for `y`, so no zero is taken, and none for `x`. */
  lemma TopOfNothing(x: Operand, y: Operand, v: Operand, d: Operand)
    requires x != y
    ensures var g := Graph(0, map[0 := {}], map[0 := {}]);
      var p := map[0 := Block([], [Store(v, y), Load(d, x)])];
      var stacks := StepStacks({x, y}, map[], map[], p[0].body[0]);
      && WellFormed(g) && !LoadsMayFollowStores(g, p, {x, y})
      && PromotedLoad({x, y}, p[0].body[1]) && stacks != map[] && Stack(stacks, x) == []
  {
    var g, p := Graph(0, map[0 := {}], map[0 := {}]), map[0 := Block([], [Store(v, y), Load(d, x)])];
    assert At(p, 0, 1) && !StoreBefore(p, 0, 1, x);
    assert y in StepStacks({x, y}, map[], map[], p[0].body[0]);
  }

  /** Removing the allocations keeps stores and loads in order. */
  lemma MayFollowCleared(g: Graph, p: Program, prom: set<Operand>)
    requires WellFormed(g) && g.entry in p && p.Keys == g.succ.Keys && LoadsMayFollowStores(g, p, prom)
    ensures LoadsMayFollowStores(g, EntryCleared(g, prom, p), prom)
  {
    hide WithoutAllocas;
    var q := EntryCleared(g, prom, p);
    assert q.Keys == p.Keys;
    forall b, i: nat | At(q, b, i) && PromotedLoad(prom, q[b].body[i])
      ensures StoredOnTheWay(g, q, prom, b, q[b].body[i].ptr) || StoreBefore(q, b, i, q[b].body[i].ptr)
    {
      var i', v := Position(g, prom, p, b, i), q[b].body[i].ptr;
      if StoredOnTheWay(g, p, prom, b, v) {
        OnTheWayCleared(g, p, prom, b, v);
      } else {
        StoreBeforeCleared(g, p, prom, b, i, v);
      }
    }
  }

  lemma OnTheWayCleared(g: Graph, p: Program, prom: set<Operand>, b: BlockId, v: Operand)
    requires g.entry in p && StoredOnTheWay(g, p, prom, b, v)
    ensures StoredOnTheWay(g, EntryCleared(g, prom, p), prom, b, v)
  {
    hide WithoutAllocas, StoredIn;
    var a :| Edge(g, a, b) && StoredBy(g, p, prom, a, v);
    var path :| IsPath(g, path, g.entry, a) && (forall x :: x in path ==> x in p) && v in StoredAlong(prom, p, path);
    StoredAlongCleared(g, prom, p, path);
    assert EntryCleared(g, prom, p).Keys == p.Keys;
    assert forall x :: x in path ==> x in EntryCleared(g, prom, p).Keys;
    assert StoredBy(g, EntryCleared(g, prom, p), prom, a, v);
  }

  lemma StoreBeforeCleared(g: Graph, p: Program, prom: set<Operand>, b: BlockId, i: nat, v: Operand)
    requires g.entry in p && At(EntryCleared(g, prom, p), b, i) && v in prom
    requires StoreBefore(p, b, Position(g, prom, p, b, i), v)
    ensures StoreBefore(EntryCleared(g, prom, p), b, i, v)
  {
    hide WithoutAllocas;
    var q := EntryCleared(g, prom, p);
    if b == g.entry {
      var j := Original(prom, p[b].body, i);
      var k: nat :| k < j && p[b].body[k].Store? && p[b].body[k].ptr == v;
      PrefixCleared(prom, p[b].body, i);
      StoreIsStored(prom, p[b].body[..j], k);
      var l := StoredInExists(prom, q[b].body[..i], v);
      assert q[b].body[l] == q[b].body[..i][l];
    }
  }

  // ----- clearing the entry block -----

  lemma {:induction false} ClearedMembers(prom: set<Operand>, body: seq<Instr>)
    ensures forall ins :: ins in WithoutAllocas(prom, body) <==> ins in body && !(ins.Alloca? && ins.dst in prom)
  {
    if body != [] {
      var n := |body| - 1;
      ClearedMembers(prom, body[..n]);
      assert body == body[..n] + [body[n]];
    }
  }

  /** Promoting one more variable does not touch a body that does not allocate it. */
  lemma {:induction false} ClearedGrows(prom: set<Operand>, body: seq<Instr>, v: Operand)
    requires forall i :: 0 <= i < |body| && body[i].Alloca? ==> body[i].dst != v
    ensures WithoutAllocas(prom + {v}, body) == WithoutAllocas(prom, body)
  {
    if body != [] {
      ClearedGrows(prom, body[..|body| - 1], v);
    }
  }

  /** The loop of `gen_promotable` after `i` instructions of the original entry block. */
  ghost predicate Clearing(g: Graph, p: Program, code: Program, prom: set<Operand>, i: nat) {
    && g.entry in p && i <= |p[g.entry].body|
    && code == p[g.entry := Block(p[g.entry].phis, WithoutAllocas(prom, p[g.entry].body[..i]) + p[g.entry].body[i..])]
    && (forall v :: v in prom <==> PromotableUpTo(g, p, v, i))
  }

  ghost predicate PromotableUpTo(g: Graph, p: Program, v: Operand, i: nat)
    requires g.entry in p
  {
    && (exists k: nat ::
        k < i && k < |p[g.entry].body| && p[g.entry].body[k].Alloca? && p[g.entry].body[k].dst == v
        && Scalar(p[g.entry].body[k].ty))
    && AddressNotTaken(p, v)
  }

  lemma ClearingStarts(g: Graph, p: Program)
    requires g.entry in p
    ensures Clearing(g, p, p, {}, 0)
  {
    assert p[g.entry].body[..0] == [] && p[g.entry].body[0..] == p[g.entry].body;
    assert p[g.entry].body == [] + p[g.entry].body;
    assert p == p[g.entry := Block(p[g.entry].phis, p[g.entry].body)];
  }

  lemma ClearingEnds(g: Graph, p: Program, code: Program, prom: set<Operand>, i: nat)
    requires Clearing(g, p, code, prom, i) && i == |p[g.entry].body|
    ensures code == EntryCleared(g, prom, p)
    ensures forall v :: v in prom <==> Promotable(g, p, v)
  {
    var body := p[g.entry].body;
    assert body[..i] == body && body[i..] == [];
    assert WithoutAllocas(prom, body) + [] == WithoutAllocas(prom, body);
    forall v
      ensures PromotableUpTo(g, p, v, i) <==> Promotable(g, p, v)
    {
      if Promotable(g, p, v) {
        var k: nat :| At(p, g.entry, k) && body[k].Alloca? && body[k].dst == v && Scalar(body[k].ty);
        assert k < i && k < |body|;
      }
      if PromotableUpTo(g, p, v, i) {
        var k: nat :| k < i && k < |body| && body[k].Alloca? && body[k].dst == v && Scalar(body[k].ty);
        assert At(p, g.entry, k);
      }
    }
  }

  lemma ClearingFacts(g: Graph, p: Program, code: Program, prom: set<Operand>, i: nat)
    requires Clearing(g, p, code, prom, i)
    ensures g.entry in p && g.entry in code && code.Keys == p.Keys
    ensures var j := |WithoutAllocas(prom, p[g.entry].body[..i])|;
            && |code[g.entry].body| == j + |p[g.entry].body| - i
            && (i < |p[g.entry].body| ==> code[g.entry].body[j] == p[g.entry].body[i])
    ensures forall v :: AddressNotTaken(code, v) <==> AddressNotTaken(p, v)
  {
    var body := p[g.entry].body;
    ClearedMembers(prom, body[..i]);
    assert body == body[..i] + body[i..];
    forall v
      ensures AddressNotTaken(code, v) <==> AddressNotTaken(p, v)
    {
      forall ins
        ensures ins in code[g.entry].body ==> ins in body
        ensures ins in body && !(ins.Alloca?) ==> ins in code[g.entry].body
      {
      }
      forall b, ins | b in p && ins in p[b].body && AddressNotTaken(code, v)
        ensures HarmlessUse(ins, v)
      {
        assert ins in code[b].body || ins.Alloca?;
      }
    }
  }

  /** One instruction of the entry block: removed if it allocates a promotable variable. */
  lemma ClearingStep(g: Graph, p: Program, code: Program, prom: set<Operand>, i: nat)
    requires Clearing(g, p, code, prom, i) && UniqueDefinitions(p) && i < |p[g.entry].body|
    ensures var ins := p[g.entry].body[i];
            var j := |WithoutAllocas(prom, p[g.entry].body[..i])|;
            if ins.Alloca? && Scalar(ins.ty) && AddressNotTaken(p, ins.dst)
            then g.entry in code && j < |code[g.entry].body| && ins.dst !in prom &&
                 Clearing(g, p, code[g.entry := Block(code[g.entry].phis,
                     code[g.entry].body[..j] + code[g.entry].body[j + 1..])], prom + {ins.dst}, i + 1) &&
                 |WithoutAllocas(prom + {ins.dst}, p[g.entry].body[..i + 1])| == j
            else Clearing(g, p, code, prom, i + 1) && |WithoutAllocas(prom, p[g.entry].body[..i + 1])| == j + 1
  {
    hide UniqueDefinitions, HarmlessUse, AddressNotTaken, WithoutAllocas;
    var body := p[g.entry].body;
    var ins := body[i];
    var w := WithoutAllocas(prom, body[..i]);
    CutOut(w, body, i);
    WithoutNext(prom, body, i);
    if ins.Alloca? {
      AllocatedOnce(g, p, i);
      ClearedGrows(prom, body[..i], ins.dst);
      WithoutNext(prom + {ins.dst}, body, i);
    }
    PromotableNextAll(g, p, i);
    hide PromotableUpTo;
  }

  lemma WithoutNext(prom: set<Operand>, body: seq<Instr>, i: nat)
    requires i < |body|
    ensures WithoutAllocas(prom, body[..i + 1])
         == WithoutAllocas(prom, body[..i]) + if body[i].Alloca? && body[i].dst in prom then [] else [body[i]]
  {
    assert body[..i + 1][..i] == body[..i];
  }

  /** The cursor is behind `w`; the instruction there is passed or cut out. */
  lemma CutOut(w: seq<Instr>, body: seq<Instr>, i: nat)
    requires i < |body|
    ensures var all := w + body[i..];
      && all[..|w|] + all[|w| + 1..] == w + body[i + 1..]
      && w + [body[i]] + body[i + 1..] == all && w + [] == w
  {
    assert body[i..] == [body[i]] + body[i + 1..];
  }

  lemma PromotableNextAll(g: Graph, p: Program, i: nat)
    requires g.entry in p && i < |p[g.entry].body|
    ensures var ins := p[g.entry].body[i];
      forall v :: PromotableUpTo(g, p, v, i + 1) <==>
        PromotableUpTo(g, p, v, i) || (ins.Alloca? && Scalar(ins.ty) && AddressNotTaken(p, ins.dst) && v == ins.dst)
  {
    hide PromotableUpTo, AddressNotTaken;
    forall v
      ensures var ins := p[g.entry].body[i];
        PromotableUpTo(g, p, v, i + 1) <==>
          PromotableUpTo(g, p, v, i) || (ins.Alloca? && Scalar(ins.ty) && AddressNotTaken(p, ins.dst) && v == ins.dst)
    {
      PromotableNext(g, p, v, i);
    }
  }

  /** The loop with its cursor `j` into the list that is being edited. */
  ghost predicate ClearingLoop(g: Graph, p: Program, code: Program, prom: set<Operand>, i: nat, j: nat) {
    Clearing(g, p, code, prom, i) && j == |WithoutAllocas(prom, p[g.entry].body[..i])|
  }

  lemma ClearingLoopStarts(g: Graph, p: Program)
    requires g.entry in p
    ensures ClearingLoop(g, p, p, {}, 0, 0)
  {
    ClearingStarts(g, p);
  }

  lemma ClearingLoopFacts(g: Graph, p: Program, code: Program, prom: set<Operand>, i: nat, j: nat)
    requires ClearingLoop(g, p, code, prom, i, j)
    ensures g.entry in p && g.entry in code && |code[g.entry].body| == j + |p[g.entry].body| - i
        && i <= |p[g.entry].body|
    ensures i < |p[g.entry].body| ==> code[g.entry].body[j] == p[g.entry].body[i]
    ensures forall v :: AddressNotTaken(code, v) <==> AddressNotTaken(p, v)
  {
    ClearingFacts(g, p, code, prom, i);
  }

  lemma ClearingLoopStep(g: Graph, p: Program, code: Program, prom: set<Operand>, i: nat, j: nat)
    requires ClearingLoop(g, p, code, prom, i, j) && UniqueDefinitions(p) && g.entry in p && i < |p[g.entry].body|
    requires !(p[g.entry].body[i].Alloca? && Scalar(p[g.entry].body[i].ty)
        && AddressNotTaken(p, p[g.entry].body[i].dst))
    ensures ClearingLoop(g, p, code, prom, i + 1, j + 1)
  {
    ClearingStep(g, p, code, prom, i);
  }

  lemma ClearingLoopRemoves(g: Graph, p: Program, code: Program, code': Program, prom: set<Operand>, i: nat, j: nat)
    requires ClearingLoop(g, p, code, prom, i, j) && UniqueDefinitions(p) && g.entry in p && i < |p[g.entry].body|
    requires p[g.entry].body[i].Alloca? && Scalar(p[g.entry].body[i].ty) && AddressNotTaken(p, p[g.entry].body[i].dst)
    requires g.entry in code && j < |code[g.entry].body|
    requires code' == code[g.entry := Block(code[g.entry].phis, code[g.entry].body[..j] + code[g.entry].body[j + 1..])]
    ensures ClearingLoop(g, p, code', prom + {p[g.entry].body[i].dst}, i + 1, j)
  {
    ClearingStep(g, p, code, prom, i);
  }

  /** The maps of a pass that has selected `prom` and nothing more. */
  ghost predicate Emptied(prom: set<Operand>, defs: map<Operand, set<BlockId>>, ins: map<Operand, set<BlockId>>,
                          work: map<Operand, seq<BlockId>>) {
    && defs.Keys == ins.Keys == work.Keys == prom
    && forall v :: v in prom ==> defs[v] == {} && ins[v] == {} && work[v] == []
  }

  lemma EmptiedGrows(prom: set<Operand>, defs: map<Operand, set<BlockId>>, ins: map<Operand, set<BlockId>>,
                     work: map<Operand, seq<BlockId>>, v: Operand)
    ensures Emptied({}, map[], map[], map[])
    ensures Emptied(prom, defs, ins, work) ==> Emptied(prom + {v}, defs[v := {}], ins[v := {}], work[v := []])
  {
  }

  lemma PromotableNext(g: Graph, p: Program, v: Operand, i: nat)
    requires g.entry in p && i < |p[g.entry].body|
    ensures var ins := p[g.entry].body[i];
            PromotableUpTo(g, p, v, i + 1) <==>
              PromotableUpTo(g, p, v, i) || (ins.Alloca? && Scalar(ins.ty) && AddressNotTaken(p, ins.dst)
                  && v == ins.dst)
  {
    hide AddressNotTaken;
    var body := p[g.entry].body;
    if k: nat :| k < i + 1 && k < |body| && body[k].Alloca? && body[k].dst == v && Scalar(body[k].ty) {
      assert k < i || k == i;
    }
  }

  lemma AllocatedOnce(g: Graph, p: Program, i: nat)
    requires UniqueDefinitions(p) && At(p, g.entry, i) && p[g.entry].body[i].Alloca?
    ensures forall k :: 0 <= k < i && p[g.entry].body[k].Alloca? ==> p[g.entry].body[k].dst != p[g.entry].body[i].dst
    ensures forall k ::
        0 <= k < i && p[g.entry].body[..i][k].Alloca?
        ==> p[g.entry].body[..i][k].dst != p[g.entry].body[i].dst
  {
    forall k | 0 <= k < i && p[g.entry].body[k].Alloca?
      ensures p[g.entry].body[k].dst != p[g.entry].body[i].dst
    {
      assert At(p, g.entry, k) && Defines(p[g.entry].body[k], p[g.entry].body[k].dst);
      assert Defines(p[g.entry].body[i], p[g.entry].body[i].dst);
    }
  }

  /** No allocation of a promoted variable is left anywhere. */
  lemma NoAllocas(g: Graph, p: Program, prom: set<Operand>, b: BlockId, i: nat)
    requires g.entry in p && UniqueDefinitions(p) && (forall v :: v in prom <==> Promotable(g, p, v))
        && At(EntryCleared(g, prom, p), b, i)
    ensures EntryCleared(g, prom, p)[b].body[i].Alloca? ==> EntryCleared(g, prom, p)[b].body[i].dst !in prom
  {
    var j := Position(g, prom, p, b, i);
    var ins := p[b].body[j];
    if ins.Alloca? && ins.dst in prom && b != g.entry {
      var k: nat :| At(p, g.entry, k) && p[g.entry].body[k].Alloca? && p[g.entry].body[k].dst == ins.dst;
      assert Defines(p[g.entry].body[k], ins.dst) && Defines(p[b].body[j], ins.dst);
    }
  }

  // ----- the phis as they are placed -----

  /** All operands of the program have numbers below `lo`. */
  ghost predicate NamesBelow(p: Program, lo: nat) {
    forall b, i: nat, o :: At(p, b, i) && (Defines(p[b].body[i], o) || Uses(p[b].body[i], o)) ==> o.Zero? || o.n < lo
  }

  /** The phis stand exactly where `ins` says, with new names from `lo` up to `hi`. */
  ghost predicate PhisStanding(p: Program, code: Program, prom: set<Operand>, ins: map<Operand, set<BlockId>>, lo: nat,
                               hi: nat) {
    && code.Keys == p.Keys && ins.Keys == prom && lo <= hi
    && (forall b :: b in p ==> code[b].body == p[b].body)
    && (forall b, k :: b in code && 0 <= k < |code[b].phis| ==>
          var phi := code[b].phis[k];
              phi.variable in prom && b in ins[phi.variable] && phi.dst.Id?
              && lo <= phi.dst.n < hi && phi.srcs == map[])
    && (forall b, k, l ::
        b in code && 0 <= k < l < |code[b].phis|
        ==> code[b].phis[k].variable != code[b].phis[l].variable)
    && (forall b, k, c, l ::
        b in code && c in code && 0 <= k < |code[b].phis| && 0 <= l < |code[c].phis|
        && code[b].phis[k].dst == code[c].phis[l].dst
        ==> b == c && k == l)
    && (forall v, b :: v in prom && b in ins[v] ==> PhiFor(code, b, v))
  }

  lemma PhisStandingStarts(p: Program, prom: set<Operand>, ins: map<Operand, set<BlockId>>, lo: nat)
    requires (forall b :: b in p ==> p[b].phis == []) && ins.Keys == prom && (forall v :: v in prom ==> ins[v] == {})
    ensures PhisStanding(p, p, prom, ins, lo, lo)
  {
  }

  /** The phi is at the front; the others move up by one. */
  lemma PrependedAt(code: Program, code': Program, phi: Phi, d: BlockId, b: BlockId, k: nat)
    requires d in code && code' == code[d := Block([phi] + code[d].phis, code[d].body)] && b in code'
        && k < |code'[b].phis|
    ensures code'[b].phis[k] == if b == d then if k == 0 then phi else code[b].phis[k - 1] else code[b].phis[k]
  {
  }

  lemma PrependedStands(p: Program, code: Program, code': Program, prom: set<Operand>, ins: map<Operand, set<BlockId>>,
                        lo: nat, hi: nat, v: Operand, d: BlockId)
    requires PhisStanding(p, code, prom, ins, lo, hi) && v in prom && d in p && d in code
    requires code' == code[d := Block([Phi(v, Id(hi), map[])] + code[d].phis, code[d].body)]
    ensures forall w, b :: w in prom && b in ins[w] ==> PhiFor(code', b, w)
    ensures PhiFor(code', d, v)
  {
    forall w, b | w in prom && b in ins[w]
      ensures PhiFor(code', b, w)
    {
      var k :| 0 <= k < |code[b].phis| && code[b].phis[k].variable == w;
      assert code'[b].phis[if b == d then k + 1 else k] == code[b].phis[k];
    }
    assert code'[d].phis[0].variable == v;
  }

  lemma PrependedWellFormed(p: Program, code: Program, code': Program, prom: set<Operand>,
                            ins: map<Operand, set<BlockId>>, lo: nat, hi: nat, v: Operand, d: BlockId)
    requires PhisStanding(p, code, prom, ins, lo, hi) && v in prom && d in p && d in code
    requires code' == code[d := Block([Phi(v, Id(hi), map[])] + code[d].phis, code[d].body)]
    ensures forall b, k :: b in code' && 0 <= k < |code'[b].phis| ==>
              var phi := code'[b].phis[k];
              phi.variable in prom && b in ins[v := ins[v] + {d}][phi.variable] && phi.dst.Id?
                  && lo <= phi.dst.n < hi + 1 && phi.srcs == map[]
  {
    hide PhiFor;
    forall b, k | b in code' && 0 <= k < |code'[b].phis|
      ensures var phi := code'[b].phis[k];
              phi.variable in prom && b in ins[v := ins[v] + {d}][phi.variable] && phi.dst.Id?
                  && lo <= phi.dst.n < hi + 1 && phi.srcs == map[]
    {
      PrependedAt(code, code', Phi(v, Id(hi), map[]), d, b, k);
    }
  }

  /** One more phi at the head of a block that has none for the variable. */
  lemma PhiPrepended(p: Program, code: Program, code': Program, prom: set<Operand>, ins: map<Operand, set<BlockId>>,
                     lo: nat, hi: nat, v: Operand, d: BlockId)
    requires PhisStanding(p, code, prom, ins, lo, hi) && v in prom && d in p && d in code && v in ins && d !in ins[v]
    requires code' == code[d := Block([Phi(v, Id(hi), map[])] + code[d].phis, code[d].body)]
    ensures PhisStanding(p, code', prom, ins[v := ins[v] + {d}], lo, hi + 1)
  {
    hide PhiFor;
    PrependedNames(p, code, code', prom, ins, lo, hi, v, d);
    PrependedStands(p, code, code', prom, ins, lo, hi, v, d);
    PrependedWellFormed(p, code, code', prom, ins, lo, hi, v, d);
  }

  lemma PrependedNames(p: Program, code: Program, code': Program, prom: set<Operand>, ins: map<Operand, set<BlockId>>,
                       lo: nat, hi: nat, v: Operand, d: BlockId)
    requires PhisStanding(p, code, prom, ins, lo, hi) && v in prom && d in p && d !in ins[v] && d in code
    requires code' == code[d := Block([Phi(v, Id(hi), map[])] + code[d].phis, code[d].body)]
    ensures forall b, k, l ::
        b in code' && 0 <= k < l < |code'[b].phis|
        ==> code'[b].phis[k].variable != code'[b].phis[l].variable
    ensures forall b, k, c, l ::
        b in code' && c in code' && 0 <= k < |code'[b].phis| && 0 <= l < |code'[c].phis|
        && code'[b].phis[k].dst == code'[c].phis[l].dst
        ==> b == c && k == l
  {
    hide PhiFor;
  }

  /** The placement the walk needs: where the iterated frontiers are, nowhere else. */
  lemma StandingIsPlaced(g: Graph, p: Program, code: Program, prom: set<Operand>, dfSet: map<BlockId, set<BlockId>>,
                         defs: map<Operand, set<BlockId>>, ins: map<Operand, set<BlockId>>, lo: nat, hi: nat)
    requires PhisStanding(p, code, prom, ins, lo, hi) && NamesBelow(p, lo) && p.Keys == g.succ.Keys && defs.Keys == prom
    requires forall v, x :: v in prom ==> (x in defs[v] <==> StoresTo(p, x, v))
    requires forall v :: v in prom ==> IsIteratedFrontier(dfSet, defs[v], ins[v])
    requires forall y :: y in g.succ ==> FrontierExactAt(g, dfSet, y)
    requires WellFormed(g)
    ensures PhisPlaced(g, p, prom, code)
  {
    hide InFrontier;
    forall b, o, c, i: nat | IsPhiResult(code, b, o) && At(p, c, i)
      ensures !Defines(p[c].body[i], o) && !Uses(p[c].body[i], o)
    {
    }
    forall x, y, v | v in prom && (StoresTo(p, x, v) || PhiFor(code, x, v)) && InFrontier(g, x, y)
      ensures PhiFor(code, y, v)
    {
      FrontierInGraph(g, x, y);
      assert FrontierExactAt(g, dfSet, y);
      assert y in Frontier(dfSet, x);
      assert x in defs[v] || x in ins[v];
    }
  }

  lemma FrontierInGraph(g: Graph, x: BlockId, y: BlockId)
    requires WellFormed(g) && InFrontier(g, x, y)
    ensures y in g.succ
  {
  }

  /** The variables `gen_promotable` selects. */
  ghost function PromotableSet(g: Graph, p: Program): (r: set<Operand>)
    requires g.entry in p
    ensures forall v :: v in r <==> Promotable(g, p, v)
  {
    var body := p[g.entry].body;
    var r := set k | 0 <= k < |body| && body[k].Alloca? && Scalar(body[k].ty)
        && AddressNotTaken(p, body[k].dst) :: body[k].dst;
    assert forall v :: Promotable(g, p, v) ==> v in r by {
      forall v | Promotable(g, p, v)
        ensures v in r
      {
        var k: nat :| At(p, g.entry, k) && body[k].Alloca? && body[k].dst == v && Scalar(body[k].ty);
      }
    }
    assert forall v :: v in r ==> Promotable(g, p, v) by {
      forall v | v in r
        ensures Promotable(g, p, v)
      {
        var k: nat :| k < |body| && body[k].Alloca? && Scalar(body[k].ty) && AddressNotTaken(p, body[k].dst)
            && body[k].dst == v;
        assert At(p, g.entry, k);
      }
    }
    r
  }

  // ----- the worklist -----

  /** Everything inserted must be in any closed set. */
  ghost predicate InEveryClosed(dfSet: map<BlockId, set<BlockId>>, defs: set<BlockId>, s: set<BlockId>) {
    forall t :: ClosedUnderFrontier(dfSet, defs, t) ==> s <= t
  }

  /** Blocks not waiting in the worklist have their frontier inserted. */
  ghost predicate ClosedExcept(dfSet: map<BlockId, set<BlockId>>, defs: set<BlockId>, s: set<BlockId>,
                               waiting: set<BlockId>) {
    forall x :: (x in defs || x in s) && x !in waiting ==> Frontier(dfSet, x) <= s
  }

  lemma InEveryClosedGrows(dfSet: map<BlockId, set<BlockId>>, defs: set<BlockId>, s: set<BlockId>, x: BlockId,
                           y: BlockId)
    requires InEveryClosed(dfSet, defs, s) && (x in defs || x in s) && y in Frontier(dfSet, x)
    ensures InEveryClosed(dfSet, defs, s + {y})
  {
    forall t | ClosedUnderFrontier(dfSet, defs, t)
      ensures s + {y} <= t
    {
      assert s <= t;
      assert Frontier(dfSet, x) <= t;
    }
  }

  lemma WorklistEmpty(dfSet: map<BlockId, set<BlockId>>, defs: set<BlockId>, s: set<BlockId>)
    requires InEveryClosed(dfSet, defs, s) && ClosedExcept(dfSet, defs, s, {})
    ensures IsIteratedFrontier(dfSet, defs, s)
  {
  }

  function Elements(s: seq<BlockId>): set<BlockId> {
    set x | x in s
  }

  /** Popping `x`, with its frontier still to be looked at. */
  lemma WorklistPopped(dfSet: map<BlockId, set<BlockId>>, defs: set<BlockId>, s: set<BlockId>, w: seq<BlockId>)
    requires w != [] && ClosedExcept(dfSet, defs, s, Elements(w))
    ensures ClosedExcept(dfSet, defs, s, Elements(w[1..]) + {w[0]})
  {
    assert w == [w[0]] + w[1..];
  }

  /** Inserting `y`: it waits, unless it stores to the variable and so has waited before. */
  lemma WorklistPushed(dfSet: map<BlockId, set<BlockId>>, defs: set<BlockId>, s: set<BlockId>, w: seq<BlockId>,
                       x: BlockId, y: BlockId)
    requires ClosedExcept(dfSet, defs, s, Elements(w) + {x})
    ensures y !in defs ==> ClosedExcept(dfSet, defs, s + {y}, Elements(w + [y]) + {x})
    ensures y in defs ==> ClosedExcept(dfSet, defs, s + {y}, Elements(w) + {x})
  {
    assert y in w + [y] by { assert (w + [y])[|w|] == y; }
    forall z | z in w
      ensures z in w + [y]
    {
    }
  }

  lemma FrontierFinished(dfSet: map<BlockId, set<BlockId>>, defs: set<BlockId>, s: set<BlockId>, w: seq<BlockId>,
                         x: BlockId)
    requires ClosedExcept(dfSet, defs, s, Elements(w) + {x}) && Frontier(dfSet, x) <= s
    ensures ClosedExcept(dfSet, defs, s, Elements(w))
  {
  }

  lemma WorklistStarts(dfSet: map<BlockId, set<BlockId>>, defs: set<BlockId>, w: seq<BlockId>)
    requires forall x :: x in w <==> x in defs
    ensures InEveryClosed(dfSet, defs, {}) && ClosedExcept(dfSet, defs, {}, Elements(w))
  {
  }

  // ----- collecting the stores -----

  /** `defs` and `work` after the blocks in `seen` and the first `i` instructions of block `b`. */
  ghost predicate Collected(p: Program, prom: set<Operand>, defs: map<Operand, set<BlockId>>,
                            work: map<Operand, seq<BlockId>>, seen: set<BlockId>, b: BlockId, i: nat) {
    && defs.Keys == prom && work.Keys == prom
    && forall v, x :: v in prom ==> CollectedFor(p, defs, work, seen, b, i, v, x)
  }

  ghost predicate CollectedFor(p: Program, defs: map<Operand, set<BlockId>>, work: map<Operand, seq<BlockId>>,
                               seen: set<BlockId>, b: BlockId, i: nat, v: Operand, x: BlockId)
    requires v in defs && v in work
  {
    && (x in defs[v] <==> (x in seen && StoresTo(p, x, v)) || (x == b && StoreBefore(p, b, i, v)))
    && (x in work[v] <==> x in defs[v])
  }

  lemma StoreBeforeNext(p: Program, b: BlockId, i: nat, v: Operand)
    requires At(p, b, i)
    ensures StoreBefore(p, b, i + 1, v) <==> StoreBefore(p, b, i, v) || (p[b].body[i].Store? && p[b].body[i].ptr == v)
  {
    if StoreBefore(p, b, i + 1, v) {
      var k: nat :| k < i + 1 && p[b].body[k].Store? && p[b].body[k].ptr == v;
      assert k < i || k == i;
    }
  }

  lemma CollectedStore(p: Program, prom: set<Operand>, defs: map<Operand, set<BlockId>>,
                       work: map<Operand, seq<BlockId>>, work': map<Operand, seq<BlockId>>,
                       seen: set<BlockId>, b: BlockId, i: nat)
    requires Collected(p, prom, defs, work, seen, b, i) && At(p, b, i) && PromotedStore(prom, p[b].body[i])
    requires var v := p[b].body[i].ptr; v in defs && v in work && work' == if b in defs[v] then work
        else work[v := work[v] + [b]]
    ensures Collected(p, prom, defs[p[b].body[i].ptr := defs[p[b].body[i].ptr] + {b}], work', seen, b, i + 1)
  {
    hide StoreBefore, StoresTo;
    var v := p[b].body[i].ptr;
    var defs' := defs[v := defs[v] + {b}];
    var next := i + 1;
    forall w, x | w in prom
      ensures CollectedFor(p, defs', work', seen, b, next, w, x)
    {
      StoreBeforeNext(p, b, i, w);
      assert CollectedFor(p, defs, work, seen, b, i, w, x);
      if w == v && b !in defs[v] {
        assert x in work'[w] <==> x in work[w] || x == b;
      }
    }
  }

  lemma CollectedOther(p: Program, prom: set<Operand>, defs: map<Operand, set<BlockId>>,
                       work: map<Operand, seq<BlockId>>, seen: set<BlockId>, b: BlockId, i: nat)
    requires Collected(p, prom, defs, work, seen, b, i) && At(p, b, i) && !PromotedStore(prom, p[b].body[i])
    ensures Collected(p, prom, defs, work, seen, b, i + 1)
  {
    hide StoreBefore, StoresTo;
    var next := i + 1;
    forall w, x | w in prom
      ensures CollectedFor(p, defs, work, seen, b, next, w, x)
    {
      StoreBeforeNext(p, b, i, w);
      assert CollectedFor(p, defs, work, seen, b, i, w, x);
    }
  }

  lemma CollectedBlock(p: Program, prom: set<Operand>, defs: map<Operand, set<BlockId>>,
                       work: map<Operand, seq<BlockId>>, seen: set<BlockId>, b: BlockId)
    requires b in p && Collected(p, prom, defs, work, seen, b, |p[b].body|) && b !in seen
    ensures forall c :: c in p ==> Collected(p, prom, defs, work, seen + {b}, c, 0)
  {
    hide StoreBefore, StoresTo;
    forall c | c in p ensures Collected(p, prom, defs, work, seen + {b}, c, 0) {
      forall v, x | v in prom
        ensures CollectedFor(p, defs, work, seen + {b}, c, 0, v, x)
      {
        assert CollectedFor(p, defs, work, seen, b, |p[b].body|, v, x);
        WholeBlockStores(p, b, v);
        NothingStoredYet(p, c, v);
      }
    }
  }

  lemma WholeBlockStores(p: Program, b: BlockId, v: Operand)
    requires b in p
    ensures StoreBefore(p, b, |p[b].body|, v) <==> StoresTo(p, b, v)
  {
    if StoresTo(p, b, v) {
      var k: nat :| At(p, b, k) && p[b].body[k].Store? && p[b].body[k].ptr == v;
    }
    if StoreBefore(p, b, |p[b].body|, v) {
      var k: nat :| k < |p[b].body| && p[b].body[k].Store? && p[b].body[k].ptr == v;
      assert At(p, b, k);
    }
  }

  lemma NothingStoredYet(p: Program, b: BlockId, v: Operand)
    ensures !StoreBefore(p, b, 0, v)
  {
  }

  /** All stores are collected. */
  ghost predicate DefsCollected(p: Program, prom: set<Operand>, defs: map<Operand, set<BlockId>>,
                                work: map<Operand, seq<BlockId>>) {
    && defs.Keys == prom && work.Keys == prom
    && (forall v, x :: v in prom ==> (x in defs[v] <==> StoresTo(p, x, v)))
    && (forall v, x :: v in prom ==> (x in work[v] <==> x in defs[v]))
  }

  lemma CollectedAll(p: Program, prom: set<Operand>, defs: map<Operand, set<BlockId>>, work: map<Operand, seq<BlockId>>,
                     c: BlockId)
    requires Collected(p, prom, defs, work, p.Keys, c, 0)
    ensures DefsCollected(p, prom, defs, work)
  {
    forall v, x | v in prom
      ensures x in defs[v] <==> StoresTo(p, x, v)
      ensures x in work[v] <==> x in defs[v]
    {
      assert CollectedFor(p, defs, work, p.Keys, c, 0, v, x);
      NothingStoredYet(p, c, v);
    }
  }

  lemma CollectedNothing(p: Program, prom: set<Operand>, defs: map<Operand, set<BlockId>>,
                         work: map<Operand, seq<BlockId>>)
    requires defs.Keys == prom && work.Keys == prom && (forall v :: v in prom ==> defs[v] == {} && work[v] == [])
    ensures forall c :: Collected(p, prom, defs, work, {}, c, 0)
  {
  }

  // ----- small facts for the driver -----

  lemma ScalarTypes(ins: Instr)
    ensures ins.Alloca? ==> (Scalar(ins.ty) <==> ins.ty.IntType? || ins.ty.FloatType? || ins.ty.PointerType?)
  {
  }

  lemma CollectedKeys(p: Program, prom: set<Operand>, defs: map<Operand, set<BlockId>>,
                      work: map<Operand, seq<BlockId>>, seen: set<BlockId>, b: BlockId, i: nat)
    requires Collected(p, prom, defs, work, seen, b, i)
    ensures defs.Keys == prom && work.Keys == prom
    ensures forall v :: v in prom && b in defs[v] ==> defs[v] + {b} == defs[v]
  {
  }

  lemma CollectedFacts(p: Program, prom: set<Operand>, defs: map<Operand, set<BlockId>>,
                       work: map<Operand, seq<BlockId>>)
    requires DefsCollected(p, prom, defs, work)
    ensures defs.Keys == prom && work.Keys == prom
    ensures forall v, x :: v in prom ==> (x in defs[v] <==> StoresTo(p, x, v))
    ensures forall v, x :: v in prom ==> (x in work[v] <==> x in defs[v])
  {
  }

  lemma NoElements()
    ensures Elements([]) == {}
  {
  }

  lemma EntryHasBlock(g: Graph)
    requires WellFormed(g)
    ensures g.entry in g.succ
  {
  }

  lemma FewerLeft(keys: set<BlockId>, done: set<BlockId>, d: BlockId)
    requires d in keys && d !in done
    ensures keys - (done + {d}) < keys - done
  {
    assert d in keys - done && d !in keys - (done + {d});
  }

  lemma StandingKeys(p: Program, code: Program, prom: set<Operand>, ins: map<Operand, set<BlockId>>, lo: nat, hi: nat)
    requires PhisStanding(p, code, prom, ins, lo, hi)
    ensures code.Keys == p.Keys && ins.Keys == prom
  {
  }

  /** Every closed set holds the iterated frontier, so no phi stands where none is asked for. */
  lemma StandingIsNeeded(g: Graph, p: Program, code: Program, prom: set<Operand>, dfSet: map<BlockId, set<BlockId>>,
                         defs: map<Operand, set<BlockId>>, ins: map<Operand, set<BlockId>>)
    requires PhisPlaced(g, p, prom, code) && defs.Keys == ins.Keys == prom
    requires forall v, x :: v in prom ==> (x in defs[v] <==> StoresTo(p, x, v))
    requires forall v :: v in prom ==> IsIteratedFrontier(dfSet, defs[v], ins[v])
    requires forall y :: y in g.succ ==> FrontierExactAt(g, dfSet, y)
    requires forall x :: Frontier(dfSet, x) <= g.succ.Keys
    requires forall v, b :: v in prom && b in code ==> (PhiFor(code, b, v) <==> b in ins[v])
    ensures PhisNeeded(g, p, code)
  {
    hide InFrontier, StoresTo;
    forall v, t: set<BlockId>, y | Asked(g, p, v, t) && PhiFor(code, y, v) ensures y in t {
      assert v in prom && y in ins[v];
      forall x | x in defs[v] || x in t ensures Frontier(dfSet, x) <= t {
        forall z | z in Frontier(dfSet, x) ensures z in t {
          assert FrontierExactAt(g, dfSet, z);
          assert InFrontier(g, x, z);
        }
      }
      assert ClosedUnderFrontier(dfSet, defs[v], t);
    }
  }

  lemma StandingExactly(p: Program, code: Program, prom: set<Operand>, ins: map<Operand, set<BlockId>>, lo: nat,
                        hi: nat)
    requires PhisStanding(p, code, prom, ins, lo, hi)
    ensures code.Keys == p.Keys && ins.Keys == prom && (forall b :: b in code ==> code[b].body == p[b].body)
    ensures forall b, k :: b in code && 0 <= k < |code[b].phis| ==> code[b].phis[k].srcs == map[]
    ensures forall v, b :: v in prom && b in code ==> (PhiFor(code, b, v) <==> b in ins[v])
  {
  }

  lemma EmptiedFacts(prom: set<Operand>, defs: map<Operand, set<BlockId>>, ins: map<Operand, set<BlockId>>,
                     work: map<Operand, seq<BlockId>>)
    requires Emptied(prom, defs, ins, work)
    ensures ins.Keys == prom && forall v :: v in prom ==> ins[v] == {}
  {
  }

  lemma ClearingLoopEnds(g: Graph, p: Program, code: Program, prom: set<Operand>, i: nat, j: nat)
    requires ClearingLoop(g, p, code, prom, i, j) && g.entry in p && i == |p[g.entry].body|
    ensures code == EntryCleared(g, prom, p)
    ensures forall v :: v in prom <==> Promotable(g, p, v)
  {
    ClearingEnds(g, p, code, prom, i);
  }

  lemma NamesCleared(g: Graph, p: Program, prom: set<Operand>, lo: nat)
    requires g.entry in p && NamesBelow(p, lo)
    ensures NamesBelow(EntryCleared(g, prom, p), lo)
  {
    hide WithoutAllocas, Defines, Uses;
    var q := EntryCleared(g, prom, p);
    forall b, i: nat, o | At(q, b, i) && (Defines(q[b].body[i], o) || Uses(q[b].body[i], o))
      ensures o.Zero? || o.n < lo
    {
      var j := Position(g, prom, p, b, i);
    }
  }
}
