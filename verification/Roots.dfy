/** A new engine, and the roots: the words on the stacks and those that C code has registered. */
module Roots {
  import opened Varint
  import opened Values
  import opened StringLayout
  import opened HeapGraph
  import opened ArenaLayout
  import opened HeapLayout
  import opened Collector
  import opened ArenaRuns
  import opened Mutator

  // ----- a new engine -----

  /** What an arena is created from: the memory of its first block, and the constants of its kind. */
  datatype Plan = Plan(cells: seq<Addr>, size: nat, increment: nat, words: seq<nat>)

  /** The memory is disjoint cells, away from the roots. */
  predicate PlanOk(p: Plan, roots: set<Addr>) {
    p.size > 0 && p.increment > 0 && FreshCells(Arena([], 0, |p.cells|, p.size, p.words), map[], p.cells)
    && (forall w :: w in p.words ==> 0 < w < p.size)
    && (forall r, c :: r in roots && c in p.cells ==> !(c <= r < c + p.size))
  }

  predicate PlansApart(p: Plan, q: Plan) {
    forall c, c' :: c in p.cells && c' in q.cells ==> c + p.size <= c' || c' + q.size <= c
  }

  /** The arena that was created from `p`. */
  ghost predicate Created(p: Plan, a: Arena, free: seq<Addr>, head: map<Addr, Head>) {
    a == Arena([Block(p.cells)], a.free, p.increment, p.size, p.words) && ArenaOk(a, head, free) && Clear(head, p.cells)
  }

  /** `gc_arena_init`, next to whatever is there already. */
  method InitArena(mjs: Mjs, p: Plan, ghost roots: set<Addr>) returns (a: Arena, ghost free: seq<Addr>)
    requires PlanOk(p, roots) && forall c :: c in p.cells ==> c !in mjs.head
    modifies mjs`head, mjs`val
    ensures Created(p, a, free, mjs.head)
    ensures mjs.head.Keys == old(mjs.head).Keys + SetOf(p.cells)
    ensures forall c :: c in old(mjs.head) ==> mjs.head[c] == old(mjs.head)[c]
    ensures forall w :: w in roots && w in old(mjs.val) ==> w in mjs.val && mjs.val[w] == old(mjs.val)[w]
  {
    hide ArenaOk;
    a, free := ArenaInit(mjs, p.cells, p.size, p.increment, p.words);
    assert Cells(a.blocks) == p.cells + Cells([]) == p.cells;
    forall w | w in roots
      ensures w !in ValueWords(p.cells, p.words)
    {
    }
  }

  /** An arena does not notice that another one is created. */
  lemma StaysCreated(p: Plan, a: Arena, free: seq<Addr>, head: map<Addr, Head>, head': map<Addr, Head>)
    requires Created(p, a, free, head) && forall c :: c in head ==> c in head' && head'[c] == head[c]
    ensures Created(p, a, free, head')
  {
    ChainFrame(head, head', a.free, free);
  }

  /** The graph of a new engine: only roots, and nothing that they could refer to. */
  function Bare(roots: set<Addr>, v: map<Addr, Value>): Graph {
    Graph({}, map[], {}, roots, v)
  }

  lemma BareReady(o: Plan, p: Plan, f: Plan, a: Arenas, head: map<Addr, Head>, v: map<Addr, Value>, roots: set<Addr>)
    requires PlanOk(o, roots) && PlanOk(p, roots) && PlanOk(f, roots) && p.size == 24
    requires PlansApart(o, p) && PlansApart(o, f) && PlansApart(p, f)
    requires Created(o, a.objects, a.objectFree, head) && Created(p, a.properties, a.propertyFree, head)
    requires Created(f, a.sigs, a.sigFree, head) && head.Keys == SetOf(o.cells) + SetOf(p.cells) + SetOf(f.cells)
    requires forall w :: w in roots ==> w in v && v[w] == ZERO
    ensures HeapReady(Bare(roots, v), v, head, roots, [0], [], a)
  {
    hide ArenaOk, FreshCells, PlanOk, Created;
    assert ArenasReady(Bare(roots, v), head, a) by {
      BareArenas(o, p, f, a, head, v, roots);
    }
    assert forall c :: c in head ==> !head[c].marked && !head[c].free by {
      CreatedClear(o, a.objects, a.objectFree, head);
      CreatedClear(p, a.properties, a.propertyFree, head);
      CreatedClear(f, a.sigs, a.sigFree, head);
    }
    assert Image([]) == [0];
  }

  lemma CreatedClear(p: Plan, a: Arena, free: seq<Addr>, head: map<Addr, Head>)
    requires Created(p, a, free, head)
    ensures Cells(a.blocks) == p.cells && a.cellSize == p.size && ArenaOk(a, head, free)
    ensures forall c :: c in p.cells ==> c in head && !head[c].marked && !head[c].free
  {
    assert Cells(a.blocks) == p.cells + Cells([]) == p.cells;
  }

  lemma BareArenas(o: Plan, p: Plan, f: Plan, a: Arenas, head: map<Addr, Head>, v: map<Addr, Value>, roots: set<Addr>)
    requires PlanOk(o, roots) && PlanOk(p, roots) && PlanOk(f, roots) && p.size == 24
    requires PlansApart(o, p) && PlansApart(o, f) && PlansApart(p, f)
    requires Created(o, a.objects, a.objectFree, head) && Created(p, a.properties, a.propertyFree, head)
    requires Created(f, a.sigs, a.sigFree, head) && head.Keys == SetOf(o.cells) + SetOf(p.cells) + SetOf(f.cells)
    ensures ArenasReady(Bare(roots, v), head, a)
  {
    hide ArenaOk, FreshCells, Created;
    CreatedClear(o, a.objects, a.objectFree, head);
    CreatedClear(p, a.properties, a.propertyFree, head);
    CreatedClear(f, a.sigs, a.sigFree, head);
  }

  /** The three arenas of an engine without cells. */
  method InitArenas(mjs: Mjs, o: Plan, p: Plan, f: Plan, ghost roots: set<Addr>)
    requires PlanOk(o, roots) && PlanOk(p, roots) && PlanOk(f, roots)
    requires PlansApart(o, p) && PlansApart(o, f) && PlansApart(p, f)
    requires mjs.head == map[] && forall w :: w in roots ==> w in mjs.val && mjs.val[w] == ZERO
    modifies mjs`head, mjs`val, mjs`objectArena, mjs`objectFree, mjs`propertyArena, mjs`propertyFree, mjs`ffiSigArena, mjs`ffiSigFree
    ensures Created(o, mjs.objectArena, mjs.objectFree, mjs.head) && Created(p, mjs.propertyArena, mjs.propertyFree, mjs.head)
    ensures Created(f, mjs.ffiSigArena, mjs.ffiSigFree, mjs.head)
    ensures mjs.head.Keys == SetOf(o.cells) + SetOf(p.cells) + SetOf(f.cells)
    ensures forall w :: w in roots ==> w in mjs.val && mjs.val[w] == ZERO
  {
    hide Created, FreshCells;
    ghost var h1, h2;
    mjs.objectArena, mjs.objectFree := InitArena(mjs, o, roots);
    h1 := mjs.head;
    mjs.propertyArena, mjs.propertyFree := InitArena(mjs, p, roots);
    h2 := mjs.head;
    mjs.ffiSigArena, mjs.ffiSigFree := InitArena(mjs, f, roots);
    StaysCreated(o, mjs.objectArena, mjs.objectFree, h1, mjs.head);
    StaysCreated(p, mjs.propertyArena, mjs.propertyFree, h2, mjs.head);
  }

  /** `mjs_create` up to the arenas: no stacks, the empty string buffer, and three arenas of one block. `vals` are the
      values of the engine's own structure. */
  method Create(mjs: Mjs, o: Plan, p: Plan, f: Plan, vals: seq<Addr>)
    requires PlanOk(o, SetOf(vals)) && PlanOk(p, SetOf(vals)) && PlanOk(f, SetOf(vals)) && p.size == 24
    requires PlansApart(o, p) && PlansApart(o, f) && PlansApart(p, f)
    modifies mjs
    ensures mjs.HeapOk() && mjs.graph == Bare(SetOf(vals), mjs.val) && mjs.chunks == []
    ensures mjs.objectArena.increment > 0 && mjs.propertyArena.increment > 0 && mjs.ffiSigArena.increment > 0
  {
    hide ArenaOk, PlanOk, PlansApart, HeapReady, Clear, Created, SetOf, Mjs.RootSlots;
    Blank(mjs, vals);
    InitArenas(mjs, o, p, f, SetOf(vals));
    Increments(o, p, f, SetOf(vals));
    CreatedPlans(o, p, f, mjs.AllArenas(), mjs.head);
    BareReady(o, p, f, mjs.AllArenas(), mjs.head, mjs.val, SetOf(vals));
    mjs.graph := Bare(SetOf(vals), mjs.val);
  }

  /** The engine before its arenas: no stacks, and an empty string buffer. */
  method Blank(mjs: Mjs, vals: seq<Addr>)
    modifies mjs
    ensures mjs.RootSlots() == vals && mjs.head == map[] && mjs.owned == [0] && mjs.chunks == []
    ensures forall w :: w in SetOf(vals) ==> w in mjs.val && mjs.val[w] == ZERO
  {
    mjs.vals, mjs.ownedValues, mjs.scopes, mjs.stack, mjs.callStack, mjs.ffiCbArgs := vals, [], [], [], [], [];
    mjs.head, mjs.val := map[], map w | w in vals :: ZERO;
    mjs.owned, mjs.chunks := [0], [];
  }

  lemma CreatedPlans(o: Plan, p: Plan, f: Plan, a: Arenas, head: map<Addr, Head>)
    requires Created(o, a.objects, a.objectFree, head) && Created(p, a.properties, a.propertyFree, head)
    requires Created(f, a.sigs, a.sigFree, head)
    ensures a.objects.increment == o.increment && a.properties.increment == p.increment && a.sigs.increment == f.increment
  {}

  lemma Increments(o: Plan, p: Plan, f: Plan, roots: set<Addr>)
    requires PlanOk(o, roots) && PlanOk(p, roots) && PlanOk(f, roots)
    ensures o.increment > 0 && p.increment > 0 && f.increment > 0
  {}

  // ----- other roots -----

  /** A word outside the arenas, as the stacks are. */
  predicate Away(a: Arenas, w: Addr) {
    Outside({w}, a.objects) && Outside({w}, a.properties) && Outside({w}, a.sigs)
  }

  /** The word at `w` holds a value that may be a root. */
  ghost predicate MayRoot(g: Graph, chunks: seq<Chunk>, a: Arenas, w: Addr)
    requires AllSized(chunks)
  {
    w in g.at && ValueFits(g, chunks, g.at[w]) && Away(a, w)
  }

  /** The roots after a change: each was one before or may be one. */
  ghost predicate NewRoots(g: Graph, chunks: seq<Chunk>, a: Arenas, roots': set<Addr>)
    requires AllSized(chunks)
  {
    forall w :: w in roots' ==> w in g.roots || MayRoot(g, chunks, a, w)
  }

  lemma RootsGraph(g: Graph, chunks: seq<Chunk>, a: Arenas, roots': set<Addr>)
    requires GraphOk(g) && AllSized(chunks) && NewRoots(g, chunks, a, roots')
    ensures GraphOk(g.(roots := roots'))
  {
    hide PointsToChunk, Away;
    forall o, p | o in g.objects && p in g.props[o]
      ensures PropertyOk(g.(roots := roots'), p)
    {
      assert PropertyOk(g, p);
    }
  }

  lemma RootsStrings(g: Graph, chunks: seq<Chunk>, a: Arenas, roots': set<Addr>)
    requires g.props.Keys == g.objects && AllSized(chunks) && NewRoots(g, chunks, a, roots') && StringsKnown(g, g.objects, chunks)
    ensures StringsKnown(g.(roots := roots'), g.objects, chunks)
  {
    hide PointsToChunk, Away;
    forall w | SlotWithin(g.(roots := roots'), g.objects, w)
      ensures SlotWithin(g, g.objects, w) || MayRoot(g, chunks, a, w)
    {
    }
  }

  lemma RootsArenas(g: Graph, h: map<Addr, Head>, chunks: seq<Chunk>, a: Arenas, roots': set<Addr>)
    requires g.props.Keys == g.objects && AllSized(chunks) && NewRoots(g, chunks, a, roots') && ArenasReady(g, h, a)
    ensures ArenasReady(g.(roots := roots'), h, a)
  {
    hide ArenaOk, CellsOf, PointsToChunk, InArena, Apart;
    forall x: Arena | x == a.objects || x == a.properties || x == a.sigs
      ensures Outside(roots', x)
    {
      forall w, c | w in roots' && c in Cells(x.blocks)
        ensures !(c <= w < c + x.cellSize)
      {
        assert w !in g.roots ==> w in {w} && Outside({w}, x);
      }
    }
  }

  /** Other roots leave the heap in order. */
  lemma RootsReady(g: Graph, v: map<Addr, Value>, h: map<Addr, Head>, roots: set<Addr>, owned: seq<Byte>, chunks: seq<Chunk>, a: Arenas,
                   roots': set<Addr>)
    requires HeapReady(g, v, h, roots, owned, chunks, a) && NewRoots(g, chunks, a, roots')
    ensures HeapReady(g.(roots := roots'), v, h, roots', owned, chunks, a)
  {
    hide ArenasReady, HeadsOk, GraphOk, StringsKnown, NewRoots;
    GraphKeys(g);
    RootsGraph(g, chunks, a, roots');
    RootsStrings(g, chunks, a, roots');
    RootsArenas(g, h, chunks, a, roots');
    RootsHeads(g, h, roots');
  }

  lemma RootsHeads(g: Graph, h: map<Addr, Head>, roots': set<Addr>)
    requires g.props.Keys == g.objects && HeadsOk(g, h)
    ensures HeadsOk(g.(roots := roots'), h)
  {
    hide Chain;
  }

  /** The roots have changed; `was` are those from before. */
  ghost method Reroot(mjs: Mjs, was: set<Addr>)
    requires HeapReady(mjs.graph, mjs.val, mjs.head, was, mjs.owned, mjs.chunks, mjs.AllArenas())
    requires AllSized(mjs.chunks) && NewRoots(mjs.graph, mjs.chunks, mjs.AllArenas(), SetOf(mjs.RootSlots()))
    modifies mjs`graph
    ensures mjs.HeapOk() && mjs.graph == old(mjs.graph).(roots := SetOf(mjs.RootSlots()))
  {
    hide HeapReady, NewRoots, SetOf, Mjs.RootSlots, Mjs.AllArenas;
    var roots := SetOf(mjs.RootSlots());
    RootsReady(mjs.graph, mjs.val, mjs.head, was, mjs.owned, mjs.chunks, mjs.AllArenas(), roots);
    mjs.graph := mjs.graph.(roots := roots);
  }

  /** `mjs_push`: the value goes into the word behind the data stack. */
  method MjsPush(mjs: Mjs, w: Addr, x: Value)
    requires mjs.HeapOk() && AllSized(mjs.chunks) && ValueFits(mjs.graph, mjs.chunks, x) && Away(mjs.AllArenas(), w)
    modifies mjs`val, mjs`graph, mjs`stack
    ensures mjs.HeapOk() && mjs.stack == old(mjs.stack) + [w] && mjs.val == old(mjs.val)[w := x]
    ensures mjs.graph == old(mjs.graph).(at := mjs.val, roots := old(mjs.graph).roots + {w})
  {
    hide HeapReady, ValueFits, Away;
    ghost var g, was := mjs.graph, SetOf(mjs.RootSlots());
    HeapRoots(mjs);
    StoreValue(mjs, w, x);
    FitsAlike(g, mjs.graph, mjs.chunks, x);
    mjs.stack := mjs.stack + [w];
    assert SetOf(mjs.RootSlots()) == was + {w};
    Reroot(mjs, was);
  }

  lemma HeapRoots(mjs: Mjs)
    requires mjs.HeapOk()
    ensures mjs.graph.roots == SetOf(mjs.RootSlots()) && mjs.graph.at == mjs.val && AllSized(mjs.chunks)
    ensures forall w :: w in mjs.RootSlots() ==> w in mjs.val
  {
    hide ArenasReady, HeadsOk;
    forall w | w in mjs.RootSlots()
      ensures w in mjs.val
    {
      assert w in SetOf(mjs.RootSlots()) && SlotOk(mjs.graph, w);
    }
  }

  /** `mjs_pop`: the value on top; `undefined` when there is none. */
  method MjsPop(mjs: Mjs) returns (x: Value)
    requires mjs.HeapOk()
    modifies mjs`graph, mjs`stack
    ensures mjs.HeapOk() && mjs.graph == old(mjs.graph).(roots := SetOf(mjs.RootSlots()))
    ensures if old(mjs.stack) == [] then x == Value(Undefined, 0) && mjs.stack == []
            else
              var w := old(mjs.stack)[|old(mjs.stack)| - 1];
              mjs.stack == old(mjs.stack)[..|old(mjs.stack)| - 1] && w in mjs.val && x == mjs.val[w]
  {
    hide HeapReady, MayRoot;
    HeapRoots(mjs);
    if mjs.stack == [] {
      return Value(Undefined, 0);
    }
    ghost var was := SetOf(mjs.RootSlots());
    x := mjs.val[mjs.stack[|mjs.stack| - 1]];
    mjs.stack := mjs.stack[..|mjs.stack| - 1];
    assert SetOf(mjs.RootSlots()) <= was;
    Reroot(mjs, was);
  }

  /** `mjs_own`: a word of C code becomes a root. */
  method MjsOwn(mjs: Mjs, w: Addr)
    requires mjs.HeapOk() && AllSized(mjs.chunks) && MayRoot(mjs.graph, mjs.chunks, mjs.AllArenas(), w)
    modifies mjs`graph, mjs`ownedValues
    ensures mjs.HeapOk() && mjs.ownedValues == old(mjs.ownedValues) + [w]
    ensures mjs.graph == old(mjs.graph).(roots := old(mjs.graph).roots + {w})
  {
    hide HeapReady, MayRoot;
    ghost var was := SetOf(mjs.RootSlots());
    HeapRoots(mjs);
    mjs.ownedValues := mjs.ownedValues + [w];
    assert SetOf(mjs.RootSlots()) == was + {w};
    Reroot(mjs, was);
  }

  /** `mjs_disown`: the last registration of the word is dropped, and the last one of all takes its place. */
  method MjsDisown(mjs: Mjs, w: Addr) returns (found: bool)
    requires mjs.HeapOk()
    modifies mjs`graph, mjs`ownedValues
    ensures mjs.HeapOk() && mjs.graph == old(mjs.graph).(roots := SetOf(mjs.RootSlots()))
    ensures found <==> w in old(mjs.ownedValues)
    ensures multiset(mjs.ownedValues) == multiset(old(mjs.ownedValues)) - multiset{w}
  {
    hide HeapReady, MayRoot;
    HeapRoots(mjs);
    ghost var was, values := SetOf(mjs.RootSlots()), mjs.ownedValues;
    var k := |mjs.ownedValues|;
    while k > 0
      invariant 0 <= k <= |values| && mjs.ownedValues == values && w !in values[k..]
      invariant mjs.HeapOk() && mjs.graph == old(mjs.graph)
    {
      k := k - 1;
      if mjs.ownedValues[k] == w {
        DropAt(mjs.ownedValues, k);
        mjs.ownedValues := Without(mjs.ownedValues, k);
        assert SetOf(mjs.RootSlots()) <= was;
        Reroot(mjs, was);
        return true;
      }
    }
    return false;
  }

  /** The list with its last element in place of element `k`. */
  function Without(s: seq<Addr>, k: nat): seq<Addr>
    requires k < |s|
  {
    s[k := s[|s| - 1]][..|s| - 1]
  }

  lemma DropAt(s: seq<Addr>, k: nat)
    requires k < |s|
    ensures multiset(Without(s, k)) == multiset(s) - multiset{s[k]}
  {
    var last := s[|s| - 1];
    var t := s[k := last];
    assert multiset(t) == multiset(s) - multiset{s[k]} + multiset{last};
    assert t == Without(s, k) + [last];
    Cancel(multiset(Without(s, k)), multiset(s) - multiset{s[k]}, multiset{last});
  }

  lemma Cancel(a: multiset<Addr>, b: multiset<Addr>, c: multiset<Addr>)
    requires a + c == b + c
    ensures a == b
  {
    assert a == (a + c) - c && b == (b + c) - c;
  }
}
