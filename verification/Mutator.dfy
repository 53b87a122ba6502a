/** The heap over any run of allocations, stores and collections: every operation keeps the invariant that a
    collection needs. */
module Mutator {
  import opened Varint
  import opened Values
  import opened StringLayout
  import opened HeapGraph
  import opened ArenaLayout
  import opened HeapLayout
  import opened Collector

  // ----- taking a cell -----

  /** The memory of a new block: away from the other arena and from the roots. */
  predicate Room(x: Arena, free: seq<Addr>, added: seq<Addr>, y: Arena, roots: set<Addr>) {
    free == [] ==> forall c :: c in added ==>
      (forall c' :: c' in Cells(y.blocks) ==> c + x.cellSize <= c' || c' + y.cellSize <= c)
      && (forall w :: w in roots ==> !(c <= w < c + x.cellSize))
  }

  /** What `GcAllocCell` does to its arena and to the memory. */
  ghost predicate Took(x: Arena, x': Arena, free: seq<Addr>, added: seq<Addr>, r: Addr, h: map<Addr, Head>, h': map<Addr, Head>,
                       v: map<Addr, Value>, v': map<Addr, Value>) {
    && Refilled(free, added) != [] && r == Refilled(free, added)[0]
    && x' == x.(blocks := RefilledBlocks(x, free, added), free := x'.free)
    && ArenaOk(x', h', Refilled(free, added)[1..]) && Clear(h', Cells(x'.blocks))
    && h'.Keys == h.Keys + (if free == [] then SetOf(added) else {})
    && HeadsKeptBut(h, h', r) && r in h' && h'[r] == Head(0, false, false)
    && WordsZeroed(v, v', r, x.cellSize, AddedWords(x, free, added))
  }

  /** The cells of the arena afterwards. */
  lemma TookCells(x: Arena, free: seq<Addr>, added: seq<Addr>)
    ensures var cells := Cells(RefilledBlocks(x, free, added));
            if free == [] then cells == added + Cells(x.blocks) else cells == Cells(x.blocks)
  {
    if free == [] {
      assert ([Block(added)] + x.blocks)[1..] == x.blocks;
    }
  }

  lemma TookFrom(x: Arena, x': Arena, free: seq<Addr>, added: seq<Addr>, r: Addr, h: map<Addr, Head>, h': map<Addr, Head>,
                 v: map<Addr, Value>, v': map<Addr, Value>)
    requires ArenaOk(x, h, free) && (free == [] ==> FreshCells(x, h, added)) && Took(x, x', free, added, r, h, h', v, v')
    ensures r in Cells(x'.blocks) && r !in Refilled(free, added)[1..] && (r in h ==> r in free)
    ensures forall c :: c in Refilled(free, added)[1..] ==> c in free || c !in h
    ensures r in h' && (forall c :: c in h' ==> c in h || c in Cells(x'.blocks))
  {
    TookCells(x, free, added);
    var list := Refilled(free, added);
    if free == [] {
      PushedElements(added, {});
    }
    assert list == [r] + list[1..];
  }

  /** Another arena does not notice. */
  lemma OtherArena(y: Arena, fy: seq<Addr>, h: map<Addr, Head>, h': map<Addr, Head>, r: Addr)
    requires ArenaOk(y, h, fy) && HeadsKeptBut(h, h', r) && r !in Cells(y.blocks)
    ensures ArenaOk(y, h', fy)
  {
    ChainFrame(h, h', y.free, fy);
  }

  lemma StillApartFrom(x: Arena, x': Arena, free: seq<Addr>, added: seq<Addr>, y: Arena, roots: set<Addr>)
    requires x' == x.(blocks := RefilledBlocks(x, free, added), free := x'.free) && Room(x, free, added, y, roots)
    ensures Apart(x, y) ==> Apart(x', y)
    ensures Apart(y, x) ==> Apart(y, x')
    ensures Outside(roots, x) ==> Outside(roots, x')
    ensures forall c :: InArena(x, c) ==> InArena(x', c)
  {
    TookCells(x, free, added);
  }

  // ----- values that stay -----

  /** Every slot of the graph has kept its value. */
  predicate SameSlots(g: Graph, v: map<Addr, Value>)
    requires g.props.Keys == g.objects
  {
    forall w :: SlotWithin(g, g.objects, w) && w in g.at ==> w in v && v[w] == g.at[w]
  }

  /** No slot of the graph lies in a cell that is not one of its properties. */
  lemma SlotsAway(g: Graph, o: Arena, p: Arena, f: Arena, h: map<Addr, Head>, w: nat, c: Addr, size: nat)
    requires g.props.Keys == g.objects && GraphIn(g, o, p, f) && CellsOk(p, h) && SlotWithin(g, g.objects, w)
    requires (InArena(o, c) && size == o.cellSize) || (InArena(p, c) && size == p.cellSize) || (InArena(f, c) && size == f.cellSize)
    requires forall x :: x in g.objects ==> c !in g.props[x]
    ensures !(c <= w < c + size)
  {
    hide NoDup;
    if w !in g.roots {
      var x, q :| x in g.objects && q in g.props[x] && (w == NameSlot(q) || w == ValueSlot(q));
      assert InArena(p, q) && q != c && q < w < q + 24;
    }
  }

  /** The words of a graph keep their values when a cell is taken that is not part of it. */
  lemma TakingKeepsSlots(g: Graph, o: Arena, p: Arena, f: Arena, x: Arena, x': Arena, free: seq<Addr>, added: seq<Addr>, r: Addr,
                         h: map<Addr, Head>, h': map<Addr, Head>, v': map<Addr, Value>)
    requires g.props.Keys == g.objects && GraphIn(g, o, p, f) && CellsOk(p, h') && (x' == o || x' == p || x' == f)
    requires ArenaOk(x, h, free) && (free == [] ==> FreshCells(x, h, added)) && Took(x, x', free, added, r, h, h', g.at, v')
    requires forall z :: z in g.objects ==> r !in g.props[z]
    requires free == [] ==> forall z, c :: z in g.objects && c in added ==> c !in g.props[z]
    ensures SameSlots(g, v')
  {
    hide GraphIn, NoDup, FreshCells, Took, ArenaOk;
    TookWords(x, x', free, added, r, h, h', g.at, v');
    TookFrom(x, x', free, added, r, h, h', g.at, v');
    WordsInside(x, h, free);
    forall w | SlotWithin(g, g.objects, w) && w in g.at
      ensures w in v' && v'[w] == g.at[w]
    {
      SlotsAway(g, o, p, f, h', w, r, x.cellSize);
      if w in AddedWords(x, free, added) {
        var c, k :| c in added && k in x.words && w == c + k;
        AddedInArena(x, x', free, added, c, h, h', r, g.at, v');
        SlotsAway(g, o, p, f, h', w, c, x.cellSize);
      }
    }
  }

  lemma TookWords(x: Arena, x': Arena, free: seq<Addr>, added: seq<Addr>, r: Addr, h: map<Addr, Head>, h': map<Addr, Head>,
                  v: map<Addr, Value>, v': map<Addr, Value>)
    requires Took(x, x', free, added, r, h, h', v, v')
    ensures WordsZeroed(v, v', r, x.cellSize, AddedWords(x, free, added)) && x'.cellSize == x.cellSize && x'.words == x.words
  {}

  lemma WordsInside(x: Arena, h: map<Addr, Head>, free: seq<Addr>)
    requires ArenaOk(x, h, free)
    ensures forall w :: w in x.words ==> 0 < w < x.cellSize
  {}

  lemma AddedInArena(x: Arena, x': Arena, free: seq<Addr>, added: seq<Addr>, c: Addr, h: map<Addr, Head>, h': map<Addr, Head>, r: Addr,
                     v: map<Addr, Value>, v': map<Addr, Value>)
    requires Took(x, x', free, added, r, h, h', v, v') && free == [] && c in added
    ensures InArena(x', c)
  {
    TookCells(x, free, added);
  }

  /** `r` is a cell outside the graph. */
  predicate Outsider(g: Graph, r: Addr)
    requires g.props.Keys == g.objects
  {
    r !in g.objects && r !in g.sigs && forall x :: x in g.objects ==> r !in g.props[x]
  }

  // ----- the invariant after taking a cell -----

  /** The slots of a graph exist. */
  lemma SlotExists(g: Graph, w: nat)
    requires GraphOk(g) && SlotWithin(g, g.objects, w)
    ensures SlotOk(g, w)
  {
    hide Owned, SlotOk;
    if w !in g.roots {
      var o, p :| o in g.objects && p in g.props[o] && (w == NameSlot(p) || w == ValueSlot(p));
      assert PropertyOk(g, p);
    }
  }

  lemma SlotStays(g: Graph, v: map<Addr, Value>, w: nat)
    requires GraphOk(g) && SameSlots(g, v) && SlotWithin(g, g.objects, w)
    ensures w in g.at && SlotOk(g.(at := v), w) && v[w] == g.at[w]
  {
    hide GraphOk, SlotWithin;
    SlotExists(g, w);
  }

  /** A graph whose slots have kept their values is as good as before. */
  lemma GraphWith(g: Graph, v: map<Addr, Value>, chunks: seq<Chunk>)
    requires GraphOk(g) && SameSlots(g, v) && AllSized(chunks) && StringsKnown(g, g.objects, chunks)
    ensures GraphOk(g.(at := v)) && StringsKnown(g.(at := v), g.objects, chunks)
  {
    hide SameSlots, SlotOk, SlotWithin;
    forall o, p | o in g.objects && p in g.props[o]
      ensures SlotOk(g.(at := v), NameSlot(p)) && SlotOk(g.(at := v), ValueSlot(p))
    {
      SlotsOfProperty(g, o, p);
      SlotStays(g, v, NameSlot(p));
      SlotStays(g, v, ValueSlot(p));
    }
    forall w | w in g.roots
      ensures SlotOk(g.(at := v), w)
    {
      RootSlot(g, w);
      SlotStays(g, v, w);
    }
    assert StringsKnown(g.(at := v), g.objects, chunks) by {
      StringsStay(g, v, chunks);
    }
  }

  lemma SlotsOfProperty(g: Graph, o: Addr, p: Addr)
    requires g.props.Keys == g.objects && o in g.objects && p in g.props[o]
    ensures SlotWithin(g, g.objects, NameSlot(p)) && SlotWithin(g, g.objects, ValueSlot(p))
  {}

  lemma RootSlot(g: Graph, w: nat)
    requires g.props.Keys == g.objects && w in g.roots
    ensures SlotWithin(g, g.objects, w)
  {}

  lemma StringsStay(g: Graph, v: map<Addr, Value>, chunks: seq<Chunk>)
    requires GraphOk(g) && SameSlots(g, v) && AllSized(chunks) && StringsKnown(g, g.objects, chunks)
    ensures StringsKnown(g.(at := v), g.objects, chunks)
  {
    hide SameSlots, Owned, PropertyOk, PointsToChunk, SlotWithin;
    forall w | SlotWithin(g.(at := v), g.objects, w) && w in v && IsOwnedString(v[w])
      ensures PointsToChunk(v[w].payload, chunks)
    {
      SameWithin(g, v, w);
      SlotStays(g, v, w);
      SlotExists(g, w);
    }
  }

  lemma SameWithin(g: Graph, v: map<Addr, Value>, w: nat)
    requires g.props.Keys == g.objects && SlotWithin(g.(at := v), g.objects, w)
    ensures SlotWithin(g, g.objects, w)
  {}

  /** Nothing of the graph is on a free list or new. */
  lemma TakenUnused(g: Graph, h: map<Addr, Head>, o: Arena, p: Arena, f: Arena, fo: seq<Addr>, fp: seq<Addr>, ff: seq<Addr>, c: Addr)
    requires GraphIn(g, o, p, f) && InUseOk(g, fo, fp, ff) && ArenaOk(o, h, fo) && ArenaOk(p, h, fp) && ArenaOk(f, h, ff)
    requires c in fo || c in fp || c in ff || c !in h
    ensures c !in g.objects && c !in g.sigs && forall x :: x in g.objects ==> c !in g.props[x]
  {
    hide NoDup, Chain, Outside, Apart;
    GraphInDisjoint(g, o, p, f);
    forall x | x in g.objects
      ensures c !in g.props[x]
    {
      assert c in g.props[x] ==> InArena(p, c);
    }
  }

  /** The heads of the graph's cells are as they were. */
  lemma HeadsStay(g: Graph, h: map<Addr, Head>, h': map<Addr, Head>, r: Addr)
    requires g.props.Keys == g.objects && HeadsOk(g, h) && HeadsKeptBut(h, h', r)
    requires r !in g.objects && r !in g.sigs && forall x :: x in g.objects ==> r !in g.props[x]
    ensures HeadsOk(g, h')
  {
    forall o | o in g.objects
      ensures o in h' && Chain(h', h'[o].link, g.props[o])
    {
      ChainFrame(h, h', h[o].link, g.props[o]);
    }
  }

  /** The parts of the invariant that do not depend on the arena a cell was taken from. */
  lemma TakenReady(g: Graph, v: map<Addr, Value>, h: map<Addr, Head>, roots: set<Addr>, owned: seq<Byte>, chunks: seq<Chunk>,
                   h': map<Addr, Head>, v': map<Addr, Value>, r: Addr)
    requires GraphReady(g, v, h, roots) && StringsReady(g, owned, chunks) && SameSlots(g, v') && HeadsKeptBut(h, h', r)
    requires r !in g.objects && r !in g.sigs && forall x :: x in g.objects ==> r !in g.props[x]
    requires forall c :: c in h' ==> !h'[c].marked && !h'[c].free
    ensures GraphReady(g.(at := v'), v', h', roots) && StringsReady(g.(at := v'), owned, chunks)
  {
    hide Chain;
    GraphWith(g, v', chunks);
    HeadsStay(g, h, h', r);
  }

  lemma ClearAll(x: Arena, x': Arena, free: seq<Addr>, added: seq<Addr>, r: Addr, h: map<Addr, Head>, h': map<Addr, Head>,
                 v: map<Addr, Value>, v': map<Addr, Value>)
    requires ArenaOk(x, h, free) && (free == [] ==> FreshCells(x, h, added)) && Took(x, x', free, added, r, h, h', v, v')
    requires forall c :: c in h ==> !h[c].marked && !h[c].free
    ensures forall c :: c in h' ==> !h'[c].marked && !h'[c].free
  {
    TookFrom(x, x', free, added, r, h, h', v, v');
  }

  /** What holds of one arena once a cell has been taken from it, and of the two others. */
  ghost predicate ArenasTaken(x: Arena, x': Arena, free: seq<Addr>, added: seq<Addr>, r: Addr, y: Arena, fy: seq<Addr>, z: Arena,
                              fz: seq<Addr>, h: map<Addr, Head>, h': map<Addr, Head>) {
    && Refilled(free, added) != []
    && ArenaOk(x', h', Refilled(free, added)[1..]) && ArenaOk(y, h', fy) && ArenaOk(z, h', fz)
    && r in Cells(x'.blocks) && r !in Refilled(free, added)[1..] && (r in free || r !in h)
    && (forall c :: c in Refilled(free, added)[1..] ==> c in free || c !in h)
    && (forall c :: c in Cells(x.blocks) ==> c in Cells(x'.blocks)) && x'.cellSize == x.cellSize
    && (free == [] ==> forall c :: c in added ==> c !in h)
    && HeadsKeptBut(h, h', r)
    && (forall c :: c in h' ==> c in h || c in Cells(x'.blocks))
  }

  lemma TakenArenas(x: Arena, x': Arena, free: seq<Addr>, added: seq<Addr>, r: Addr, y: Arena, fy: seq<Addr>, z: Arena, fz: seq<Addr>,
                    h: map<Addr, Head>, h': map<Addr, Head>, v: map<Addr, Value>, v': map<Addr, Value>)
    requires ArenaOk(x, h, free) && ArenaOk(y, h, fy) && ArenaOk(z, h, fz) && (free == [] ==> FreshCells(x, h, added))
    requires Took(x, x', free, added, r, h, h', v, v')
    requires r !in Cells(y.blocks) && r !in Cells(z.blocks)
    ensures ArenasTaken(x, x', free, added, r, y, fy, z, fz, h, h')
  {
    hide Chain, NoDup, WordsZeroed;
    TookFrom(x, x', free, added, r, h, h', v, v');
    TookCells(x, free, added);
    OtherArena(y, fy, h, h', r);
    OtherArena(z, fz, h, h', r);
  }

  /** A cell taken from `x` is in no other arena. */
  lemma TakenElsewhere(x: Arena, free: seq<Addr>, added: seq<Addr>, r: Addr, y: Arena, fy: seq<Addr>, h: map<Addr, Head>)
    requires ArenaOk(x, h, free) && ArenaOk(y, h, fy) && Disjoint(x, y) && (r in free || r !in h)
    ensures r !in Cells(y.blocks)
  {
    hide Chain, NoDup;
  }

  lemma TookShape(x: Arena, x': Arena, free: seq<Addr>, added: seq<Addr>, r: Addr, h: map<Addr, Head>, h': map<Addr, Head>,
                  v: map<Addr, Value>, v': map<Addr, Value>)
    requires Took(x, x', free, added, r, h, h', v, v')
    ensures x' == x.(blocks := RefilledBlocks(x, free, added), free := x'.free) && Refilled(free, added) != []
  {}

  lemma CellsFine(x: Arena, h: map<Addr, Head>, free: seq<Addr>)
    requires ArenaOk(x, h, free)
    ensures CellsOk(x, h)
  {}

  /** Neither the cell taken nor the new ones are part of the graph. */
  lemma Unused(g: Graph, h: map<Addr, Head>, a: Arenas, free: seq<Addr>, added: seq<Addr>, r: Addr)
    requires g.props.Keys == g.objects && ArenasReady(g, h, a) && (free == a.objectFree || free == a.propertyFree || free == a.sigFree)
    requires (r in free || r !in h) && (free == [] ==> forall c :: c in added ==> c !in h)
    ensures r !in g.objects && r !in g.sigs && forall x :: x in g.objects ==> r !in g.props[x]
    ensures free == [] ==> forall z, c :: z in g.objects && c in added ==> c !in g.props[z]
  {
    hide GraphIn, InUseOk, ArenaOk;
    TakenUnused(g, h, a.objects, a.properties, a.sigs, a.objectFree, a.propertyFree, a.sigFree, r);
    if free == [] {
      forall c | c in added
        ensures forall z :: z in g.objects ==> c !in g.props[z]
      {
        TakenUnused(g, h, a.objects, a.properties, a.sigs, a.objectFree, a.propertyFree, a.sigFree, c);
      }
    }
  }

  /** The arena a cell is taken from. */
  datatype Kind = Objects | Properties | Sigs

  function ArenaOf(a: Arenas, k: Kind): Arena {
    match k case Objects => a.objects case Properties => a.properties case Sigs => a.sigs
  }

  function FreeOf(a: Arenas, k: Kind): seq<Addr> {
    match k case Objects => a.objectFree case Properties => a.propertyFree case Sigs => a.sigFree
  }

  /** The two other arenas. */
  function Other(k: Kind): Kind {
    if k == Objects then Properties else Objects
  }

  function Another(k: Kind): Kind {
    if k == Sigs then Properties else Sigs
  }

  function Replaced(a: Arenas, k: Kind, x: Arena, free: seq<Addr>): Arenas {
    match k
    case Objects => a.(objects := x, objectFree := free)
    case Properties => a.(properties := x, propertyFree := free)
    case Sigs => a.(sigs := x, sigFree := free)
  }

  /** `added` is memory for a block of arena `k`, if a cell of it needs one. */
  predicate Space(a: Arenas, k: Kind, added: seq<Addr>, h: map<Addr, Head>, roots: set<Addr>) {
    (FreeOf(a, k) == [] ==> FreshCells(ArenaOf(a, k), h, added))
    && Room(ArenaOf(a, k), FreeOf(a, k), added, ArenaOf(a, Other(k)), roots)
    && Room(ArenaOf(a, k), FreeOf(a, k), added, ArenaOf(a, Another(k)), roots)
  }

  /** What the invariant says of one arena, `x`, and the two others. */
  lemma ThreeArenas(g: Graph, h: map<Addr, Head>, a: Arenas, k: Kind)
    requires g.props.Keys == g.objects && ArenasReady(g, h, a)
    ensures var x, y, z := ArenaOf(a, k), ArenaOf(a, Other(k)), ArenaOf(a, Another(k));
            ArenaOk(x, h, FreeOf(a, k)) && ArenaOk(y, h, FreeOf(a, Other(k))) && ArenaOk(z, h, FreeOf(a, Another(k)))
            && Disjoint(x, y) && Disjoint(x, z)
  {
    hide ArenaOk, InUseOk, CellsOf;
    GraphInDisjoint(g, a.objects, a.properties, a.sigs);
  }

  /** The graph lies in the arenas, one of which may have grown. */
  lemma TakenIn(g: Graph, a: Arenas, k: Kind, x': Arena, free: seq<Addr>, added: seq<Addr>, free': seq<Addr>)
    requires GraphIn(g, a.objects, a.properties, a.sigs)
    requires x' == ArenaOf(a, k).(blocks := RefilledBlocks(ArenaOf(a, k), free, added), free := x'.free)
    requires Room(ArenaOf(a, k), free, added, ArenaOf(a, Other(k)), g.roots)
    requires Room(ArenaOf(a, k), free, added, ArenaOf(a, Another(k)), g.roots)
    ensures var b := Replaced(a, k, x', free'); GraphIn(g, b.objects, b.properties, b.sigs)
  {
    hide Apart, Outside, InArena, Room;
    StillApartFrom(ArenaOf(a, k), x', free, added, ArenaOf(a, Other(k)), g.roots);
    StillApartFrom(ArenaOf(a, k), x', free, added, ArenaOf(a, Another(k)), g.roots);
  }

  /** No cell that is free afterwards is part of the graph. */
  lemma TakenInUse(g: Graph, h: map<Addr, Head>, a: Arenas, k: Kind, x': Arena, list: seq<Addr>)
    requires g.props.Keys == g.objects && ArenasReady(g, h, a)
    requires forall c :: c in list ==> c in FreeOf(a, k) || c !in h
    ensures var b := Replaced(a, k, x', list); InUseOk(g, b.objectFree, b.propertyFree, b.sigFree)
  {
    hide GraphIn, ArenaOk, CellsOf;
    forall c | c in list
      ensures c !in g.objects && c !in g.sigs && forall x :: x in g.objects ==> c !in g.props[x]
    {
      TakenUnused(g, h, a.objects, a.properties, a.sigs, a.objectFree, a.propertyFree, a.sigFree, c);
    }
  }

  /** The three arenas are in order again. */
  lemma TakenArenasReady(g: Graph, h: map<Addr, Head>, a: Arenas, k: Kind, x': Arena, added: seq<Addr>, r: Addr, h': map<Addr, Head>)
    requires g.props.Keys == g.objects && ArenasReady(g, h, a)
    requires ArenasTaken(ArenaOf(a, k), x', FreeOf(a, k), added, r, ArenaOf(a, Other(k)), FreeOf(a, Other(k)), ArenaOf(a, Another(k)),
                         FreeOf(a, Another(k)), h, h')
    requires x' == ArenaOf(a, k).(blocks := RefilledBlocks(ArenaOf(a, k), FreeOf(a, k), added), free := x'.free)
    requires Space(a, k, added, h, g.roots)
    ensures ArenasReady(g, h', Replaced(a, k, x', Refilled(FreeOf(a, k), added)[1..]))
  {
    hide ArenaOk, GraphIn, InUseOk, Room, FreshCells, Cells, HeadsKeptBut, Refilled, RefilledBlocks;
    var list := Refilled(FreeOf(a, k), added)[1..];
    TakenIn(g, a, k, x', FreeOf(a, k), added, list);
    TakenInUse(g, h, a, k, x', list);
  }

  /** The cell `r` has come from arena `k`, and is not part of the graph yet. */
  lemma CellTaken(g: Graph, v: map<Addr, Value>, h: map<Addr, Head>, roots: set<Addr>, owned: seq<Byte>, chunks: seq<Chunk>, a: Arenas,
                  k: Kind, x': Arena, added: seq<Addr>, r: Addr, h': map<Addr, Head>, v': map<Addr, Value>)
    requires HeapReady(g, v, h, roots, owned, chunks, a) && Space(a, k, added, h, roots)
    requires Took(ArenaOf(a, k), x', FreeOf(a, k), added, r, h, h', v, v')
    ensures HeapReady(g.(at := v'), v', h', roots, owned, chunks, Replaced(a, k, x', Refilled(FreeOf(a, k), added)[1..]))
    ensures Outsider(g, r) && SameSlots(g, v')
    ensures InArena(x', r) && r !in Refilled(FreeOf(a, k), added)[1..]
  {
    hide FreshCells, Took, ArenaOk, Room, GraphOk, HeadsOk, StringsKnown, HeadsKeptBut, WordsZeroed, NoDup, SameSlots, Chain, Cells,
      ArenasReady, Replaced, Refilled, RefilledBlocks;
    var x, free := ArenaOf(a, k), FreeOf(a, k);
    GraphKeys(g);
    ThreeArenas(g, h, a, k);
    TookFrom(x, x', free, added, r, h, h', v, v');
    TookShape(x, x', free, added, r, h, h', v, v');
    var b := Replaced(a, k, x', Refilled(free, added)[1..]);
    TakenElsewhere(x, free, added, r, ArenaOf(a, Other(k)), FreeOf(a, Other(k)), h);
    TakenElsewhere(x, free, added, r, ArenaOf(a, Another(k)), FreeOf(a, Another(k)), h);
    TakenArenas(x, x', free, added, r, ArenaOf(a, Other(k)), FreeOf(a, Other(k)), ArenaOf(a, Another(k)), FreeOf(a, Another(k)), h, h', v, v');
    Unused(g, h, a, free, added, r);
    TakenArenasReady(g, h, a, k, x', added, r, h');
    KeepsSlots(g, h, a, k, x', added, r, h', v', b);
    ClearAll(x, x', free, added, r, h, h', v, v');
    TakenReady(g, v, h, roots, owned, chunks, h', v', r);
    ArenasAlike(g, g.(at := v'), h', b);
  }

  lemma ArenasAlike(g: Graph, g': Graph, h: map<Addr, Head>, a: Arenas)
    requires g.props.Keys == g.objects && ArenasReady(g, h, a) && g' == g.(at := g'.at)
    ensures ArenasReady(g', h, a)
  {
    hide ArenaOk, Outside, Apart, InArena, CellsOf;
  }

  lemma KeepsSlots(g: Graph, h: map<Addr, Head>, a: Arenas, k: Kind, x': Arena, added: seq<Addr>, r: Addr, h': map<Addr, Head>,
                   v': map<Addr, Value>, b: Arenas)
    requires g.props.Keys == g.objects && ArenasReady(g, h, a) && ArenasReady(g, h', b)
    requires Refilled(FreeOf(a, k), added) != [] && b == Replaced(a, k, x', Refilled(FreeOf(a, k), added)[1..])
    requires FreeOf(a, k) == [] ==> FreshCells(ArenaOf(a, k), h, added)
    requires Took(ArenaOf(a, k), x', FreeOf(a, k), added, r, h, h', g.at, v') && Outsider(g, r)
    requires FreeOf(a, k) == [] ==> forall z, c :: z in g.objects && c in added ==> c !in g.props[z]
    ensures SameSlots(g, v')
  {
    hide FreshCells, Took, ArenaOk, GraphIn, InUseOk, CellsOf, SameSlots, Refilled;
    ThreeArenas(g, h, a, k);
    CellsFine(b.properties, h', b.propertyFree);
    TakingKeepsSlots(g, b.objects, b.properties, b.sigs, ArenaOf(a, k), x', FreeOf(a, k), added, r, h, h', v');
  }

  // ----- the graph grows -----

  /** The graph with a further object, which has no properties, or with a further signature. */
  function WithObject(g: Graph, r: Addr): Graph {
    g.(objects := g.objects + {r}, props := g.props[r := []])
  }

  function WithSig(g: Graph, r: Addr): Graph {
    g.(sigs := g.sigs + {r})
  }

  /** `g'` has the slots of `g`, in the same objects, and possibly more cells to refer to. */
  predicate Widens(g: Graph, g': Graph) {
    && g.props.Keys == g.objects && g'.props.Keys == g'.objects && g'.at == g.at && g'.roots == g.roots
    && g.objects <= g'.objects && g.sigs <= g'.sigs
    && (forall o :: o in g'.objects ==> g'.props[o] == if o in g.objects then g.props[o] else [])
  }

  lemma WidensSlot(g: Graph, g': Graph, w: nat)
    requires Widens(g, g') && SlotOk(g, w)
    ensures SlotOk(g', w)
  {}

  lemma WidensGraph(g: Graph, g': Graph)
    requires Widens(g, g') && GraphOk(g) && g'.objects !! g'.sigs
    requires forall o, p :: o in g.objects && p in g.props[o] ==> p !in g'.objects && p !in g'.sigs
    ensures GraphOk(g')
  {
    hide SlotOk;
    forall o, p | o in g'.objects && p in g'.props[o]
      ensures PropertyOk(g', p) && o in g.objects && p in g.props[o]
    {
      assert PropertyOk(g, p);
      WidensSlot(g, g', NameSlot(p));
      WidensSlot(g, g', ValueSlot(p));
    }
    forall w | w in g.roots
      ensures SlotOk(g', w)
    {
      WidensSlot(g, g', w);
    }
  }

  lemma WidensStrings(g: Graph, g': Graph, chunks: seq<Chunk>)
    requires Widens(g, g') && AllSized(chunks) && StringsKnown(g, g.objects, chunks)
    ensures StringsKnown(g', g'.objects, chunks)
  {
    hide PointsToChunk;
    forall w | SlotWithin(g', g'.objects, w)
      ensures SlotWithin(g, g.objects, w)
    {
    }
  }

  /** A cell of the object arena becomes an object without properties. */
  lemma ObjectJoins(g: Graph, v: map<Addr, Value>, h: map<Addr, Head>, roots: set<Addr>, owned: seq<Byte>, chunks: seq<Chunk>, a: Arenas,
                    r: Addr)
    requires HeapReady(g, v, h, roots, owned, chunks, a) && InArena(a.objects, r) && r !in a.objectFree
    requires Outsider(g, r) && r in h && h[r].link == 0
    ensures HeapReady(WithObject(g, r), v, h, roots, owned, chunks, a)
  {
    hide StringsKnown, ArenasReady, HeadsOk, SlotOk, PropertyOk, Owned;
    var g' := WithObject(g, r);
    WidensGraph(g, g');
    WidensStrings(g, g', chunks);
    assert HeadsOk(g', h) by {
      ObjectHeads(g, h, r);
    }
    assert ArenasReady(g', h, a) by {
      ObjectArenas(g, h, a, r);
    }
  }

  lemma ObjectHeads(g: Graph, h: map<Addr, Head>, r: Addr)
    requires g.props.Keys == g.objects && HeadsOk(g, h) && r !in g.objects && r in h && h[r].link == 0
    ensures HeadsOk(WithObject(g, r), h)
  {
    assert Chain(h, 0, []);
  }

  lemma ObjectArenas(g: Graph, h: map<Addr, Head>, a: Arenas, r: Addr)
    requires ArenasReady(g, h, a) && InArena(a.objects, r) && r !in a.objectFree && r !in g.objects
    ensures ArenasReady(WithObject(g, r), h, a)
  {
    hide ArenaOk, Outside, Apart, InArena, CellsOf;
  }

  /** A cell of the signature arena becomes a signature. */
  lemma SigJoins(g: Graph, v: map<Addr, Value>, h: map<Addr, Head>, roots: set<Addr>, owned: seq<Byte>, chunks: seq<Chunk>, a: Arenas,
                 r: Addr)
    requires HeapReady(g, v, h, roots, owned, chunks, a) && InArena(a.sigs, r) && r !in a.sigFree
    requires Outsider(g, r) && r in h
    ensures HeapReady(WithSig(g, r), v, h, roots, owned, chunks, a)
  {
    hide StringsKnown, ArenasReady, HeadsOk, SlotOk, PropertyOk, Owned;
    var g' := WithSig(g, r);
    WidensGraph(g, g');
    WidensStrings(g, g', chunks);
    assert HeadsOk(g', h) by {
      SigHeads(g, h, r);
    }
    assert ArenasReady(g', h, a) by {
      SigArenas(g, h, a, r);
    }
  }

  lemma SigHeads(g: Graph, h: map<Addr, Head>, r: Addr)
    requires g.props.Keys == g.objects && HeadsOk(g, h) && r in h
    ensures HeadsOk(WithSig(g, r), h)
  {
    hide Chain;
  }

  lemma SigArenas(g: Graph, h: map<Addr, Head>, a: Arenas, r: Addr)
    requires ArenasReady(g, h, a) && InArena(a.sigs, r) && r !in a.sigFree
    ensures ArenasReady(WithSig(g, r), h, a)
  {
    hide ArenaOk, Outside, Apart, InArena, CellsOf;
  }

  // ----- stores -----

  /** What a value refers to exists. */
  ghost predicate ValueFits(g: Graph, chunks: seq<Chunk>, x: Value)
    requires AllSized(chunks)
  {
    (IsObject(x) ==> x.payload in g.objects) && (IsFfiSig(x) ==> x.payload in g.sigs)
    && (IsOwnedString(x) ==> PointsToChunk(x.payload, chunks))
  }

  lemma StoredSlot(g: Graph, w: Addr, x: Value, chunks: seq<Chunk>, u: nat)
    requires g.props.Keys == g.objects && AllSized(chunks) && SlotOk(g, u) && ValueFits(g, chunks, x)
    ensures SlotOk(g.(at := g.at[w := x]), u)
  {
    hide PointsToChunk;
  }

  lemma StoredGraph(g: Graph, w: Addr, x: Value, chunks: seq<Chunk>)
    requires GraphOk(g) && AllSized(chunks) && ValueFits(g, chunks, x)
    ensures GraphOk(g.(at := g.at[w := x]))
  {
    hide SlotOk, ValueFits;
    forall o, p | o in g.objects && p in g.props[o]
      ensures PropertyOk(g.(at := g.at[w := x]), p)
    {
      assert PropertyOk(g, p);
      StoredSlot(g, w, x, chunks, NameSlot(p));
      StoredSlot(g, w, x, chunks, ValueSlot(p));
    }
    forall u | u in g.roots
      ensures SlotOk(g.(at := g.at[w := x]), u)
    {
      StoredSlot(g, w, x, chunks, u);
    }
  }

  lemma StoredStrings(g: Graph, w: Addr, x: Value, chunks: seq<Chunk>)
    requires g.props.Keys == g.objects && AllSized(chunks) && ValueFits(g, chunks, x) && StringsKnown(g, g.objects, chunks)
    ensures StringsKnown(g.(at := g.at[w := x]), g.objects, chunks)
  {
    hide PointsToChunk, SlotWithin;
    forall u | SlotWithin(g.(at := g.at[w := x]), g.objects, u)
      ensures SlotWithin(g, g.objects, u)
    {
      SameWithin(g, g.at[w := x], u);
    }
  }

  /** A slot takes another value. */
  lemma StoreReady(g: Graph, v: map<Addr, Value>, h: map<Addr, Head>, roots: set<Addr>, owned: seq<Byte>, chunks: seq<Chunk>, a: Arenas,
                   w: Addr, x: Value)
    requires HeapReady(g, v, h, roots, owned, chunks, a) && ValueFits(g, chunks, x)
    ensures HeapReady(g.(at := v[w := x]), v[w := x], h, roots, owned, chunks, a)
  {
    hide ArenasReady, HeadsOk, GraphOk, PointsToChunk, StringsKnown, ValueFits;
    GraphKeys(g);
    StoredGraph(g, w, x, chunks);
    StoredStrings(g, w, x, chunks);
    SameCells(g, g.(at := v[w := x]), h, a);
  }

  lemma GraphKeys(g: Graph)
    requires GraphOk(g)
    ensures g.props.Keys == g.objects
  {}

  lemma SameCells(g: Graph, g': Graph, h: map<Addr, Head>, a: Arenas)
    requires g.props.Keys == g.objects && HeadsOk(g, h) && ArenasReady(g, h, a) && g' == g.(at := g'.at)
    ensures HeadsOk(g', h) && ArenasReady(g', h, a)
  {
    hide ArenaOk, Outside, Apart, InArena, CellsOf, Chain;
  }

  /** The graph with `r` as the first property of `o`. */
  function WithProperty(g: Graph, o: Addr, r: Addr, v: map<Addr, Value>): Graph
    requires o in g.props
  {
    g.(props := g.props[o := [r] + g.props[o]], at := v)
  }

  /** The heads with `r` linked in front of the properties of `o`. */
  function WithLink(h: map<Addr, Head>, o: Addr, r: Addr): map<Addr, Head>
    requires o in h && r in h && o != r
  {
    h[r := h[r].(link := h[o].link)][o := h[o].(link := r)]
  }

  /** A property of the extended graph. */
  predicate PropertyOf(g: Graph, x: Addr, p: Addr)
    requires g.props.Keys == g.objects
  {
    x in g.objects && p in g.props[x]
  }

  lemma PropertyCases(g: Graph, o: Addr, r: Addr, x: Addr, p: Addr)
    requires g.props.Keys == g.objects && o in g.objects && PropertyOf(WithProperty(g, o, r, g.at), x, p)
    ensures x in g.objects && (p == r || PropertyOf(g, x, p))
  {}

  lemma PropertyGraph(g: Graph, o: Addr, r: Addr, chunks: seq<Chunk>)
    requires GraphOk(g) && o in g.objects && Outsider(g, r) && AllSized(chunks) && StringsKnown(g, g.objects, chunks)
    requires NameSlot(r) in g.at && ValueSlot(r) in g.at
    requires ValueFits(g, chunks, g.at[NameSlot(r)]) && ValueFits(g, chunks, g.at[ValueSlot(r)])
    ensures GraphOk(WithProperty(g, o, r, g.at)) && StringsKnown(WithProperty(g, o, r, g.at), g.objects, chunks)
  {
    hide PointsToChunk, Owned, StringsKnown, WithProperty;
    var g' := WithProperty(g, o, r, g.at);
    SameButProps(g, o, r);
    forall x, p | x in g.objects && p in g'.props[x]
      ensures PropertyOk(g', p) && p !in g.objects && p !in g.sigs
    {
      PropertyCases(g, o, r, x, p);
      assert p != r ==> p in g.props[x] && PropertyOk(g, p);
    }
    PropertyOwned(g, o, r);
    PropertyStrings(g, o, r, chunks);
  }

  lemma SameButProps(g: Graph, o: Addr, r: Addr)
    requires g.props.Keys == g.objects && o in g.objects
    ensures var g' := WithProperty(g, o, r, g.at);
            g' == g.(props := g'.props) && g'.props.Keys == g.objects
  {}

  lemma PropertyStrings(g: Graph, o: Addr, r: Addr, chunks: seq<Chunk>)
    requires g.props.Keys == g.objects && o in g.objects && AllSized(chunks) && StringsKnown(g, g.objects, chunks)
    requires NameSlot(r) in g.at && ValueSlot(r) in g.at
    requires ValueFits(g, chunks, g.at[NameSlot(r)]) && ValueFits(g, chunks, g.at[ValueSlot(r)])
    ensures StringsKnown(WithProperty(g, o, r, g.at), g.objects, chunks)
  {
    hide PointsToChunk, WithProperty;
    var g' := WithProperty(g, o, r, g.at);
    SameButProps(g, o, r);
    forall w | SlotWithin(g', g.objects, w) && w != NameSlot(r) && w != ValueSlot(r)
      ensures SlotWithin(g, g.objects, w)
    {
      if w !in g.roots {
        var x, p :| x in g.objects && p in g'.props[x] && (w == NameSlot(p) || w == ValueSlot(p));
        PropertyCases(g, o, r, x, p);
      }
    }
  }

  lemma PropertyOwned(g: Graph, o: Addr, r: Addr)
    requires g.props.Keys == g.objects && Owned(g) && o in g.objects && Outsider(g, r)
    ensures Owned(WithProperty(g, o, r, g.at))
  {
    var g' := WithProperty(g, o, r, g.at);
    forall x, i, j | x in g.objects && 0 <= i < j < |g'.props[x]|
      ensures g'.props[x][i] != g'.props[x][j]
    {
      if x == o {
        assert g'.props[x][j] == g.props[x][j - 1];
        assert g'.props[x][j] in g.props[x];
      }
    }
  }

  /** The chains of the objects after linking. */
  lemma PropertyHeads(g: Graph, o: Addr, r: Addr, h: map<Addr, Head>)
    requires GraphOk(g) && HeadsOk(g, h) && o in g.objects && Outsider(g, r) && r in h && r != 0
    ensures HeadsOk(WithProperty(g, o, r, g.at), WithLink(h, o, r))
  {
    hide Owned, PropertyOk, SlotOk;
    var h', g' := WithLink(h, o, r), WithProperty(g, o, r, g.at);
    forall x | x in g.objects
      ensures x in h' && Chain(h', h'[x].link, g'.props[x])
    {
      ChainFrame(h, h', h[x].link, g.props[x]);
      if x == o {
        assert ([r] + g.props[o])[1..] == g.props[o];
      }
    }
  }

  /** Linking does not touch the free lists. */
  lemma PropertyArenas(g: Graph, o: Addr, r: Addr, h: map<Addr, Head>, a: Arenas)
    requires g.props.Keys == g.objects && ArenasReady(g, h, a) && o in g.objects && Outsider(g, r) && o in h && r in h
    requires InArena(a.properties, r) && r !in a.propertyFree
    ensures ArenasReady(WithProperty(g, o, r, g.at), WithLink(h, o, r), a)
  {
    hide Outside, Apart, CellsOk, Chain, CellsOf;
    var h', g' := WithLink(h, o, r), WithProperty(g, o, r, g.at);
    GraphInDisjoint(g, a.objects, a.properties, a.sigs);
    FreeUnlinked(a.objects, a.objectFree, h, h', o, r);
    FreeUnlinked(a.properties, a.propertyFree, h, h', o, r);
    FreeUnlinked(a.sigs, a.sigFree, h, h', o, r);
    assert CellsOf(h', a.objects, a.properties, a.sigs) by {
      SameKeys(h, h', a);
    }
    forall x, p | x in g.objects && p in g'.props[x]
      ensures InArena(a.properties, p) && p !in a.propertyFree
    {
      assert p != r ==> p in g.props[x];
    }
  }

  lemma SameKeys(h: map<Addr, Head>, h': map<Addr, Head>, a: Arenas)
    requires CellsOf(h, a.objects, a.properties, a.sigs) && h'.Keys == h.Keys
    ensures CellsOf(h', a.objects, a.properties, a.sigs)
  {}

  lemma FreeUnlinked(y: Arena, fy: seq<Addr>, h: map<Addr, Head>, h': map<Addr, Head>, o: Addr, r: Addr)
    requires ArenaOk(y, h, fy) && h'.Keys == h.Keys && o !in fy && r !in fy
    requires forall c :: c in h && c != o && c != r ==> h'[c] == h[c]
    ensures ArenaOk(y, h', fy)
  {
    ChainFrame(h, h', y.free, fy);
  }

  /** A cell of the property arena becomes the first property of `o`, with the given name and value. */
  lemma PropertyJoins(g: Graph, v: map<Addr, Value>, h: map<Addr, Head>, roots: set<Addr>, owned: seq<Byte>, chunks: seq<Chunk>, a: Arenas,
                      o: Addr, r: Addr, v': map<Addr, Value>)
    requires HeapReady(g, v, h, roots, owned, chunks, a) && InArena(a.properties, r) && r !in a.propertyFree
    requires o in g.objects && Outsider(g, r) && r in h
    requires (forall w :: w in v && w != NameSlot(r) && w != ValueSlot(r) ==> w in v' && v'[w] == v[w])
    requires NameSlot(r) in v' && ValueSlot(r) in v'
    requires ValueFits(g, chunks, v'[NameSlot(r)]) && ValueFits(g, chunks, v'[ValueSlot(r)])
    ensures o in h && o != r && HeapReady(WithProperty(g, o, r, v'), v', WithLink(h, o, r), roots, owned, chunks, a)
  {
    hide SlotWithin, StringsKnown, HeadsOk, ArenasReady, GraphOk, ArenaOk, Apart, Outside, CellsOf, PointsToChunk;
    GraphKeys(g);
    Present(g, h, a, o, r);
    assert SameSlots(g, v') by {
      FreshSlots(g, h, a, r, v');
    }
    GraphWith(g, v', chunks);
    var g1 := g.(at := v');
    SameCells(g, g1, h, a);
    PropertyGraph(g1, o, r, chunks);
    PropertyHeads(g1, o, r, h);
    PropertyArenas(g1, o, r, h, a);
    assert WithProperty(g1, o, r, v') == WithProperty(g, o, r, v');
  }

  lemma Present(g: Graph, h: map<Addr, Head>, a: Arenas, o: Addr, r: Addr)
    requires g.props.Keys == g.objects && HeadsOk(g, h) && ArenasReady(g, h, a) && o in g.objects && InArena(a.properties, r)
    ensures o in h && r != 0
  {
    hide Chain, NoDup, Apart, Outside;
  }

  lemma FreshSlots(g: Graph, h: map<Addr, Head>, a: Arenas, r: Addr, v': map<Addr, Value>)
    requires g.props.Keys == g.objects && ArenasReady(g, h, a) && InArena(a.properties, r) && forall x :: x in g.objects ==> r !in g.props[x]
    requires (forall w :: w in g.at && w != NameSlot(r) && w != ValueSlot(r) ==> w in v' && v'[w] == g.at[w])
    ensures SameSlots(g, v')
  {
    hide NoDup, Chain, Apart, Outside;
    forall w | SlotWithin(g, g.objects, w) && w in g.at
      ensures w in v' && v'[w] == g.at[w]
    {
      SlotsAway(g, a.objects, a.properties, a.sigs, h, w, r, a.properties.cellSize);
    }
  }

  /** A further string at the end of the buffer. */
  lemma StringJoins(g: Graph, owned: seq<Byte>, chunks: seq<Chunk>, str: seq<Byte>)
    requires StringsReady(g, owned, chunks) && Sized(str)
    ensures StringsReady(g, owned + Encode(|str|) + str + [0], chunks + [Chunk(str, [])])
    ensures PointsToChunk(|owned|, chunks + [Chunk(str, [])])
    ensures var buf := owned + Encode(|str|) + str + [0]; Readable(buf, |owned|) && StringAt(buf, |owned|) == str
  {
    hide GraphOk, Encode, StringAt, Readable, Image, Offset, Sized;
    var more := chunks + [Chunk(str, [])];
    ImageMore(chunks, str);
    OffsetMore(chunks, str);
    ReadChunk(more, |chunks|);
    GraphKeys(g);
    KnownMore(g, chunks, more);
  }

  lemma ImageMore(chunks: seq<Chunk>, str: seq<Byte>)
    requires AllSized(chunks) && Sized(str)
    ensures AllSized(chunks + [Chunk(str, [])]) && Image(chunks + [Chunk(str, [])]) == Image(chunks) + Encode(|str|) + str + [0]
  {
    hide Pieces, Encode, Sized;
    PiecesThree(chunks, Chunk(str, []), []);
    Rebracket(Pieces(chunks), [0], Encode(|str|), str);
  }

  lemma Rebracket(a: seq<Byte>, z: seq<Byte>, e: seq<Byte>, s: seq<Byte>)
    ensures a + (z + (e + s)) + z == a + z + e + s + z
  {}

  lemma OffsetMore(chunks: seq<Chunk>, str: seq<Byte>)
    requires AllSized(chunks) && Sized(str)
    ensures AllSized(chunks + [Chunk(str, [])]) && Offset(chunks + [Chunk(str, [])], |chunks|) == |Image(chunks)|
    ensures forall i :: 0 <= i < |chunks| ==> Offset(chunks + [Chunk(str, [])], i) == Offset(chunks, i)
  {
    hide Pieces, Sized;
    var more := chunks + [Chunk(str, [])];
    forall i | 0 <= i <= |chunks|
      ensures more[..i] == chunks[..i]
    {
    }
    assert chunks[..|chunks|] == chunks;
  }

  lemma KnownMore(g: Graph, chunks: seq<Chunk>, more: seq<Chunk>)
    requires g.props.Keys == g.objects && AllSized(chunks) && AllSized(more) && StringsKnown(g, g.objects, chunks) && |chunks| <= |more|
    requires forall i :: 0 <= i < |chunks| ==> Offset(more, i) == Offset(chunks, i)
    ensures StringsKnown(g, g.objects, more)
  {
    hide Offset, SlotWithin;
  }

  // ----- the operations -----

  /** A cell of arena `k`, which the graph does not contain. `added` is the memory of a new block, if one is needed. */
  method TakeCell(mjs: Mjs, k: Kind, added: seq<Addr>) returns (r: Addr)
    requires mjs.HeapOk() && ArenaOf(mjs.AllArenas(), k).increment > 0
    requires Space(mjs.AllArenas(), k, added, mjs.head, SetOf(mjs.RootSlots()))
    modifies mjs`head, mjs`val, mjs`graph, mjs`objectArena, mjs`objectFree, mjs`propertyArena, mjs`propertyFree, mjs`ffiSigArena,
      mjs`ffiSigFree
    ensures mjs.HeapOk() && mjs.graph == old(mjs.graph).(at := mjs.val) && old(mjs.graph).props.Keys == old(mjs.graph).objects
    ensures SameSlots(old(mjs.graph), mjs.val) && Outsider(old(mjs.graph), r)
    ensures InArena(ArenaOf(mjs.AllArenas(), k), r) && r !in FreeOf(mjs.AllArenas(), k)
    ensures r in mjs.head && mjs.head[r] == Head(0, false, false)
    ensures r in Refilled(FreeOf(old(mjs.AllArenas()), k), added)
    ensures mjs.AllArenas() == Replaced(old(mjs.AllArenas()), k, ArenaOf(mjs.AllArenas(), k), FreeOf(mjs.AllArenas(), k))
  {
    hide HeapReady, FreshCells, Room, ArenaOk, Took, SameSlots, HeadsKeptBut, WordsZeroed, Clear, Cells, AddedWords, RefilledBlocks, Outsider,
      Refilled, InArena, SetOf, Space, ArenaOf, FreeOf, Replaced, Mjs.RootSlots, Mjs.AllArenas;
    ghost var g, h, w, a, roots := mjs.graph, mjs.head, mjs.val, mjs.AllArenas(), SetOf(mjs.RootSlots());
    ReadyToTake(g, w, h, roots, mjs.owned, mjs.chunks, a, k);
    SpaceFresh(a, k, added, h, roots);
    var x;
    r, x := AllocFrom(mjs, k, a, added);
    CellTaken(g, w, h, roots, mjs.owned, mjs.chunks, a, k, x, added, r, mjs.head, mjs.val);
    PutBack(mjs, k, x, Refilled(FreeOf(a, k), added)[1..]);
    ReplacedParts(a, k, x, Refilled(FreeOf(a, k), added)[1..]);
    mjs.graph := g.(at := mjs.val);
  }

  /** `gc_alloc_cell` on arena `k`. */
  method AllocFrom(mjs: Mjs, k: Kind, ghost a: Arenas, added: seq<Addr>) returns (r: Addr, x: Arena)
    requires a == mjs.AllArenas() && ArenaOf(a, k).increment > 0 && ArenaOk(ArenaOf(a, k), mjs.head, FreeOf(a, k))
    requires Clear(mjs.head, Cells(ArenaOf(a, k).blocks)) && (FreeOf(a, k) == [] ==> FreshCells(ArenaOf(a, k), mjs.head, added))
    modifies mjs`head, mjs`val
    ensures Took(ArenaOf(a, k), x, FreeOf(a, k), added, r, old(mjs.head), mjs.head, old(mjs.val), mjs.val)
    ensures r in mjs.head && mjs.head[r] == Head(0, false, false) && Refilled(FreeOf(a, k), added) != []
    ensures r in Refilled(FreeOf(a, k), added)
  {
    hide FreshCells, ArenaOk, Took, HeadsKeptBut, WordsZeroed, Clear, Cells, AddedWords, RefilledBlocks, Refilled, SetOf, ArenaOf, FreeOf;
    ghost var h, w := mjs.head, mjs.val;
    var y := Chosen(mjs, k);
    var needGc;
    r, x, needGc := mjs.GcAllocCell(y, added, FreeOf(a, k));
    IsTaken(y, x, FreeOf(a, k), added, r, h, mjs.head, w, mjs.val);
  }

  lemma ReplacedParts(a: Arenas, k: Kind, x: Arena, free: seq<Addr>)
    ensures ArenaOf(Replaced(a, k, x, free), k) == x && FreeOf(Replaced(a, k, x, free), k) == free
  {}

  method Chosen(mjs: Mjs, k: Kind) returns (x: Arena)
    ensures x == ArenaOf(mjs.AllArenas(), k)
  {
    match k
    case Objects => x := mjs.objectArena;
    case Properties => x := mjs.propertyArena;
    case Sigs => x := mjs.ffiSigArena;
  }

  lemma SpaceFresh(a: Arenas, k: Kind, added: seq<Addr>, h: map<Addr, Head>, roots: set<Addr>)
    requires Space(a, k, added, h, roots)
    ensures FreeOf(a, k) == [] ==> FreshCells(ArenaOf(a, k), h, added)
  {}

  /** The arena's record after a cell was taken. */
  method PutBack(mjs: Mjs, k: Kind, x: Arena, ghost free: seq<Addr>)
    modifies mjs`objectArena, mjs`objectFree, mjs`propertyArena, mjs`propertyFree, mjs`ffiSigArena, mjs`ffiSigFree
    ensures mjs.AllArenas() == Replaced(old(mjs.AllArenas()), k, x, free)
  {
    match k
    case Objects => mjs.objectArena, mjs.objectFree := x, free;
    case Properties => mjs.propertyArena, mjs.propertyFree := x, free;
    case Sigs => mjs.ffiSigArena, mjs.ffiSigFree := x, free;
  }

  /** `mjs_mk_object`: an object without properties that nothing refers to yet. */
  method MkObject(mjs: Mjs, added: seq<Addr>) returns (v: Value)
    requires mjs.HeapOk() && mjs.objectArena.increment > 0
    requires Space(mjs.AllArenas(), Objects, added, mjs.head, SetOf(mjs.RootSlots()))
    modifies mjs`head, mjs`val, mjs`graph, mjs`objectArena, mjs`objectFree, mjs`propertyArena, mjs`propertyFree, mjs`ffiSigArena,
      mjs`ffiSigFree
    ensures mjs.HeapOk() && v == Value(Object, v.payload) && v.payload !in old(mjs.graph).objects
    ensures v.payload < 0x1_0000_0000_0000 && mjs.graph == WithObject(old(mjs.graph), v.payload).(at := mjs.val)
    ensures SameSlots(old(mjs.graph), mjs.val)
  {
    hide HeapReady, FreshCells, Room, SameSlots, InArena;
    ghost var g := mjs.graph;
    var r := TakeCell(mjs, Objects, added);
    ObjectJoins(mjs.graph, mjs.val, mjs.head, SetOf(mjs.RootSlots()), mjs.owned, mjs.chunks, mjs.AllArenas(), r);
    mjs.graph := WithObject(mjs.graph, r);
    v := Value(Object, r);
  }

  lemma ReadyToTake(g: Graph, v: map<Addr, Value>, h: map<Addr, Head>, roots: set<Addr>, owned: seq<Byte>, chunks: seq<Chunk>, a: Arenas,
                    k: Kind)
    requires HeapReady(g, v, h, roots, owned, chunks, a)
    ensures g.at == v && g.roots == roots && g.props.Keys == g.objects
    ensures ArenaOk(ArenaOf(a, k), h, FreeOf(a, k)) && Clear(h, Cells(ArenaOf(a, k).blocks))
  {
    hide Chain, NoDup, GraphIn, InUseOk;
  }

  lemma IsTaken(x: Arena, x': Arena, free: seq<Addr>, added: seq<Addr>, r: Addr, h: map<Addr, Head>, h': map<Addr, Head>,
                v: map<Addr, Value>, v': map<Addr, Value>)
    requires Refilled(free, added) != [] && r == Refilled(free, added)[0]
    requires x' == x.(blocks := RefilledBlocks(x, free, added), free := x'.free)
    requires ArenaOk(x', h', Refilled(free, added)[1..]) && Clear(h', Cells(x'.blocks))
    requires h'.Keys == h.Keys + (if free == [] then SetOf(added) else {})
    requires HeadsKeptBut(h, h', r) && r in h' && h'[r] == Head(0, false, false)
    requires WordsZeroed(v, v', r, x.cellSize, AddedWords(x, free, added))
    ensures Took(x, x', free, added, r, h, h', v, v')
  {
    hide ArenaOk, Clear, HeadsKeptBut, WordsZeroed;
  }

  /** `new_ffi_sig`: a signature that nothing refers to yet. */
  method NewFfiSig(mjs: Mjs, added: seq<Addr>) returns (r: Addr)
    requires mjs.HeapOk() && mjs.ffiSigArena.increment > 0
    requires Space(mjs.AllArenas(), Sigs, added, mjs.head, SetOf(mjs.RootSlots()))
    modifies mjs`head, mjs`val, mjs`graph, mjs`objectArena, mjs`objectFree, mjs`propertyArena, mjs`propertyFree, mjs`ffiSigArena,
      mjs`ffiSigFree
    ensures mjs.HeapOk() && r !in old(mjs.graph).sigs && mjs.graph == WithSig(old(mjs.graph), r).(at := mjs.val)
    ensures SameSlots(old(mjs.graph), mjs.val)
  {
    hide HeapReady, FreshCells, Room, SameSlots, InArena;
    r := TakeCell(mjs, Sigs, added);
    SigJoins(mjs.graph, mjs.val, mjs.head, SetOf(mjs.RootSlots()), mjs.owned, mjs.chunks, mjs.AllArenas(), r);
    mjs.graph := WithSig(mjs.graph, r);
  }

  /** `mjs_mk_property`, and the lines of `mjs_set_internal` that link the property in front of those of `o`. */
  method AddProperty(mjs: Mjs, o: Addr, name: Value, value: Value, added: seq<Addr>) returns (r: Addr)
    requires mjs.HeapOk() && mjs.propertyArena.increment > 0 && o in mjs.graph.objects
    requires AllSized(mjs.chunks) && ValueFits(mjs.graph, mjs.chunks, name) && ValueFits(mjs.graph, mjs.chunks, value)
    requires Space(mjs.AllArenas(), Properties, added, mjs.head, SetOf(mjs.RootSlots()))
    requires forall c :: c in Refilled(mjs.propertyFree, added) ==> ValueSlot(c) < 0x1_0000_0000_0000
    modifies mjs`head, mjs`val, mjs`graph, mjs`objectArena, mjs`objectFree, mjs`propertyArena, mjs`propertyFree, mjs`ffiSigArena,
      mjs`ffiSigFree
    ensures mjs.HeapOk() && o in old(mjs.graph).props && old(mjs.graph).props.Keys == old(mjs.graph).objects
    ensures Outsider(old(mjs.graph), r)
    ensures mjs.graph == WithProperty(old(mjs.graph), o, r, mjs.val) && SameSlots(old(mjs.graph), mjs.val)
    ensures NameSlot(r) in mjs.val && ValueSlot(r) in mjs.val && mjs.val[NameSlot(r)] == name && mjs.val[ValueSlot(r)] == value
  {
    hide HeapReady, FreshCells, Room, SameSlots, InArena, ValueFits, AllSized, Refilled, Outsider;
    ghost var g := mjs.graph;
    r := TakeCell(mjs, Properties, added);
    FitsAlike(g, mjs.graph, mjs.chunks, name);
    FitsAlike(g, mjs.graph, mjs.chunks, value);
    OutsiderAlike(g, mjs.graph, r);
    LinkProperty(mjs, g, o, r, name, value);
  }

  /** Fills a property cell and links it in front of the properties of `o`; `g` is the graph with its values from
      before the cell was taken. */
  method LinkProperty(mjs: Mjs, ghost g: Graph, o: Addr, r: Addr, name: Value, value: Value)
    requires mjs.HeapOk() && o in mjs.graph.objects && g == mjs.graph.(at := g.at) && g.props.Keys == g.objects
    requires AllSized(mjs.chunks) && ValueFits(mjs.graph, mjs.chunks, name) && ValueFits(mjs.graph, mjs.chunks, value)
    requires InArena(mjs.propertyArena, r) && r !in mjs.propertyFree && r in mjs.head && Outsider(mjs.graph, r)
    requires ValueSlot(r) < 0x1_0000_0000_0000 && mjs.graph.at == mjs.val && SameSlots(g, mjs.val)
    modifies mjs`head, mjs`val, mjs`graph
    ensures mjs.HeapOk() && mjs.graph == WithProperty(g, o, r, mjs.val) && SameSlots(g, mjs.val)
    ensures NameSlot(r) in mjs.val && ValueSlot(r) in mjs.val && mjs.val[NameSlot(r)] == name && mjs.val[ValueSlot(r)] == value
  {
    hide HeapReady, SameSlots, InArena, ValueFits, AllSized, Outsider, SlotWithin, SetOf, Mjs.RootSlots, ArenasReady;
    ghost var v1, g1, a, roots := mjs.val, mjs.graph, mjs.AllArenas(), SetOf(mjs.RootSlots());
    ReadyCells(g1, v1, mjs.head, roots, mjs.owned, mjs.chunks, a);
    OutsiderAlike(g1, g, r);
    mjs.val := mjs.val[NameSlot(r) := name][ValueSlot(r) := value];
    StillSame(g, v1, mjs.val, mjs.head, a, r);
    PropertyJoins(g1, v1, mjs.head, roots, mjs.owned, mjs.chunks, a, o, r, mjs.val);
    mjs.head := mjs.head[r := mjs.head[r].(link := mjs.head[o].link)];
    mjs.head := mjs.head[o := mjs.head[o].(link := r)];
    mjs.graph := WithProperty(g1, o, r, mjs.val);
  }

  lemma OutsiderAlike(g: Graph, g': Graph, r: Addr)
    requires g.props.Keys == g.objects && Outsider(g, r) && g' == g.(at := g'.at)
    ensures Outsider(g', r) && forall x :: x in g.objects ==> r !in g.props[x]
  {}

  lemma ReadyCells(g: Graph, v: map<Addr, Value>, h: map<Addr, Head>, roots: set<Addr>, owned: seq<Byte>, chunks: seq<Chunk>, a: Arenas)
    requires HeapReady(g, v, h, roots, owned, chunks, a)
    ensures ArenasReady(g, h, a)
  {
    hide GraphReady, StringsReady, ArenasReady;
  }

  lemma FitsAlike(g: Graph, g': Graph, chunks: seq<Chunk>, x: Value)
    requires AllSized(chunks) && ValueFits(g, chunks, x) && g'.objects == g.objects && g'.sigs == g.sigs
    ensures ValueFits(g', chunks, x)
  {}

  /** Writing the words of a new property leaves every slot of the graph alone. */
  lemma StillSame(g: Graph, v1: map<Addr, Value>, v2: map<Addr, Value>, h: map<Addr, Head>, a: Arenas, r: Addr)
    requires g.props.Keys == g.objects && SameSlots(g, v1)
    requires ArenasReady(g.(at := v1), h, a) && InArena(a.properties, r) && forall x :: x in g.objects ==> r !in g.props[x]
    requires forall w :: w in v1 && w != NameSlot(r) && w != ValueSlot(r) ==> w in v2 && v2[w] == v1[w]
    ensures SameSlots(g, v2)
  {
    hide SlotWithin, ArenasReady;
    FreshSlots(g.(at := v1), h, a, r, v2);
    forall w | SlotWithin(g, g.objects, w)
      ensures SlotWithin(g.(at := v1), g.objects, w)
    {
      WithinAlike(g, v1, w);
    }
  }

  lemma WithinAlike(g: Graph, v: map<Addr, Value>, w: nat)
    requires g.props.Keys == g.objects && SlotWithin(g, g.objects, w)
    ensures SlotWithin(g.(at := v), g.objects, w)
  {}

  /** A value is stored in a word: a root, or the value of a property. */
  method StoreValue(mjs: Mjs, w: Addr, x: Value)
    requires mjs.HeapOk() && AllSized(mjs.chunks) && ValueFits(mjs.graph, mjs.chunks, x)
    modifies mjs`val, mjs`graph
    ensures mjs.HeapOk() && mjs.val == old(mjs.val)[w := x] && mjs.graph == old(mjs.graph).(at := mjs.val)
  {
    hide HeapReady, ValueFits;
    StoreReady(mjs.graph, mjs.val, mjs.head, SetOf(mjs.RootSlots()), mjs.owned, mjs.chunks, mjs.AllArenas(), w, x);
    mjs.val := mjs.val[w := x];
    mjs.graph := mjs.graph.(at := mjs.val);
  }

  /** `mjs_mk_string` on a string too long for a value: it goes to the end of the buffer. */
  method MkString(mjs: Mjs, str: seq<Byte>) returns (v: Value)
    requires mjs.HeapOk() && Sized(str)
    modifies mjs`owned, mjs`chunks
    ensures mjs.HeapOk() && mjs.chunks == old(mjs.chunks) + [Chunk(str, [])] && AllSized(mjs.chunks)
    ensures IsOwnedString(v) && ValueFits(mjs.graph, mjs.chunks, v)
    ensures Readable(mjs.owned, v.payload) && StringAt(mjs.owned, v.payload) == str
  {
    hide GraphReady, StringsReady, ArenasReady, Encode, PointsToChunk, StringAt, Readable;
    StringJoins(mjs.graph, mjs.owned, mjs.chunks, str);
    v := Value(StringO, |mjs.owned|);
    mjs.owned := mjs.owned + Encode(|str|) + str + [0];
    mjs.chunks := mjs.chunks + [Chunk(str, [])];
    ReadyStrings(mjs.graph, mjs.owned, mjs.chunks);
  }
}
