/** How the object graph, the strings and the three arenas fit together. */
module HeapLayout {
  import opened Varint
  import opened Values
  import opened StringLayout
  import opened StringCompaction
  import opened HeapGraph
  import opened ArenaLayout

  /** The words of all cells are as in `head0`, except that the cells in `m` are marked. */
  predicate MarkBits(head: map<Addr, Head>, head0: map<Addr, Head>, m: set<Addr>) {
    && head.Keys == head0.Keys && m <= head0.Keys
    && forall c :: c in head0 ==> head[c] == Head(head0[c].link, c in m, false)
  }

  /** The cells of the graph exist, and every object's properties are linked from it. */
  predicate HeadsOk(g: Graph, head: map<Addr, Head>)
    requires g.props.Keys == g.objects
  {
    && (forall o :: o in g.objects ==> o in head && Chain(head, head[o].link, g.props[o]))
    && (forall c :: c in g.sigs ==> c in head)
  }

  /** The owned strings of the slots within `s` lie in the buffer. */
  ghost predicate StringsKnown(g: Graph, s: set<Addr>, chunks: seq<Chunk>)
    requires g.props.Keys == g.objects && AllSized(chunks)
  {
    forall a :: SlotWithin(g, s, a) && a in g.at && IsOwnedString(g.at[a]) ==> PointsToChunk(g.at[a].payload, chunks)
  }

  lemma StringsStayKnown(g: Graph, s: set<Addr>, a: seq<Chunk>, b: seq<Chunk>)
    requires g.props.Keys == g.objects && AllSized(a) && SameStrings(a, b) && StringsKnown(g, s, a)
    ensures AllSized(b) && StringsKnown(g, s, b)
  {
    SameOffsets(a, b);
  }

  function Flatten(args: seq<(Addr, Addr)>): seq<Addr> {
    if args == [] then []
    else
      var last := args[|args| - 1];
      Flatten(args[..|args| - 1]) + [last.0, last.1]
  }

  lemma {:induction false} Flattened(args: seq<(Addr, Addr)>, a: Addr)
    ensures a in Flatten(args) <==> exists pair :: pair in args && (a == pair.0 || a == pair.1)
  {
    if args != [] {
      Flattened(args[..|args| - 1], a);
    }
  }

  lemma {:induction false} FlattenElements(args: seq<(Addr, Addr)>, k: nat)
    requires k < |args|
    ensures args[k].0 in Flatten(args) && args[k].1 in Flatten(args)
    ensures Flatten(args[..k + 1]) == Flatten(args[..k]) + [args[k].0, args[k].1]
  {
    assert args[..k + 1][..k] == args[..k];
    var n := |args| - 1;
    if k < n {
      assert args[..n][..k + 1] == args[..k + 1] && args[..n][k] == args[k];
      FlattenElements(args[..n], k);
    } else {
      assert args[..k + 1] == args;
    }
  }

  /** Cells of different arenas do not overlap. */
  predicate Apart(a: Arena, b: Arena) {
    forall c, c' :: c in Cells(a.blocks) && c' in Cells(b.blocks) ==> c + a.cellSize <= c' || c' + b.cellSize <= c
  }

  /** The roots lie outside the arena. */
  predicate Outside(roots: set<Addr>, a: Arena) {
    forall r, c :: r in roots && c in Cells(a.blocks) ==> !(c <= r < c + a.cellSize)
  }

  predicate InArena(a: Arena, c: Addr) {
    c in Cells(a.blocks)
  }

  /** How the object graph lies in the three arenas. */
  predicate GraphIn(g: Graph, objects: Arena, properties: Arena, sigs: Arena) {
    && (forall o :: o in g.objects ==> InArena(objects, o))
    && (forall f :: f in g.sigs ==> InArena(sigs, f))
    && g.props.Keys == g.objects
    && (forall o, p :: o in g.objects && p in g.props[o] ==> InArena(properties, p))
    && Outside(g.roots, objects) && Outside(g.roots, properties) && Outside(g.roots, sigs)
    && Apart(objects, properties) && Apart(objects, sigs) && Apart(properties, sigs)
    && objects.cellSize > 0 && properties.cellSize == 24 && sigs.cellSize > 0
  }

  /** Between collections no string is threaded. */
  predicate Unthreaded(chunks: seq<Chunk>) {
    forall i :: 0 <= i < |chunks| ==> chunks[i].chain == []
  }

  /** The cells of the graph are in use. */
  predicate InUseOk(g: Graph, objectFree: seq<Addr>, propertyFree: seq<Addr>, ffiSigFree: seq<Addr>)
    requires g.props.Keys == g.objects
  {
    && (forall c :: c in objectFree ==> c !in g.objects)
    && (forall c :: c in ffiSigFree ==> c !in g.sigs)
    && (forall c, o :: c in propertyFree && o in g.objects ==> c !in g.props[o])
  }

  /** Every cell belongs to an arena. */
  predicate CellsOf(head: map<Addr, Head>, a: Arena, b: Arena, c: Arena) {
    forall x :: x in head ==> InArena(a, x) || InArena(b, x) || InArena(c, x)
  }

  /** The arenas share no cell. */
  predicate Disjoint(a: Arena, b: Arena) {
    forall c :: c in Cells(a.blocks) ==> c !in Cells(b.blocks)
  }

  /** `a'` is what a sweep makes of `a`: blocks without a cell in `m` are given back, but never the last one. */
  predicate OnlyFreed(a: Arena, a': Arena, m: set<Addr>) {
    a.blocks != [] && a' == a.(blocks := Kept(a.blocks, m), free := a'.free) && SubCells(a'.blocks, a.blocks)
  }

  // ----- the start of a collection -----

  /** All cells of the graph. */
  function GraphCells(g: Graph): set<Addr>
    requires g.props.Keys == g.objects
  {
    g.objects + g.sigs + (set o, p | o in g.objects && p in g.props[o] :: p)
  }

  lemma GraphCellsClosed(g: Graph)
    requires GraphOk(g)
    ensures RootClosed(g, GraphCells(g))
  {
    hide Owned;
    var all := GraphCells(g);
    forall o, p | o in all && o in g.objects && p in g.props[o]
      ensures PropertyOk(g, p) && p in all && Follows(g, all, NameSlot(p)) && Follows(g, all, ValueSlot(p))
    {
    }
    forall a | a in g.roots
      ensures SlotOk(g, a) && Follows(g, all, a)
    {
    }
  }

  /** What is reachable can be collected in a set of cells of the graph. */
  lemma ReachableSet(g: Graph) returns (s: set<Addr>)
    requires GraphOk(g)
    ensures IsReachableSet(g, s) && RootClosed(g, s) && s <= GraphCells(g)
  {
    var all := GraphCells(g);
    GraphCellsClosed(g);
    s := set c | c in all && Reachable(g, c);
    assert IsReachableSet(g, s);
    ReachableClosed(g, s);
  }

  lemma StartStrings(owned: seq<Byte>, val: map<Addr, Value>, chunks: seq<Chunk>)
    requires AllSized(chunks) && Unthreaded(chunks) && owned == Image(chunks)
    ensures Threaded(owned, val, val, chunks)
    ensures forall a: Addr :: !Threads(chunks, a)
  {}

  lemma StartMarking(g: Graph, s: set<Addr>)
    requires GraphOk(g) && RootClosed(g, s)
    ensures Marking(g, {}, iset{}, {}, s)
  {}

  lemma StartKnown(g: Graph, s: set<Addr>, chunks: seq<Chunk>)
    requires g.props.Keys == g.objects && AllSized(chunks) && StringsKnown(g, g.objects, chunks)
    ensures StringsKnown(g, s, chunks)
  {
    forall a | SlotWithin(g, s, a)
      ensures SlotWithin(g, g.objects, a)
    {
      if a !in g.roots {
        var o, p :| o in g.objects && o in s && p in g.props[o] && (a == NameSlot(p) || a == ValueSlot(p));
        assert o in g.objects && o in g.objects && p in g.props[o];
      }
    }
  }

  // ----- after marking -----

  /** The reachable cells are none of the free ones. */
  lemma FreeUnmarked(g: Graph, objects: Arena, properties: Arena, sigs: Arena, s: set<Addr>,
                     objectFree: seq<Addr>, propertyFree: seq<Addr>, ffiSigFree: seq<Addr>)
    requires GraphIn(g, objects, properties, sigs) && InUseOk(g, objectFree, propertyFree, ffiSigFree)
    requires s <= GraphCells(g)
    requires forall c :: c in objectFree ==> InArena(objects, c)
    requires forall c :: c in propertyFree ==> InArena(properties, c)
    requires forall c :: c in ffiSigFree ==> InArena(sigs, c)
    ensures forall c :: c in objectFree || c in propertyFree || c in ffiSigFree ==> c !in s
  {
    forall c | c in GraphCells(g)
      ensures c !in objectFree && c !in propertyFree && c !in ffiSigFree
    {
      if c in g.objects {
        assert InArena(objects, c);
      } else if c in g.sigs {
        assert InArena(sigs, c);
      } else {
        var o, p :| o in g.objects && p in g.props[o] && p == c;
        assert InArena(properties, c);
      }
    }
  }

  lemma ReadyToSweep(a: Arena, head0: map<Addr, Head>, head: map<Addr, Head>, free: seq<Addr>, m: set<Addr>)
    requires ArenaOk(a, head0, free) && MarkBits(head, head0, m)
    requires forall c :: c in free ==> c !in m
    ensures Ready(a, head, free, m)
  {
    ChainFrame(head0, head, a.free, free);
  }

  // ----- after sweeping -----

  /** The word at `w` lies inside an unmarked cell of `cells`, behind its first word. */
  predicate InDead(cells: seq<Addr>, m: set<Addr>, size: nat, w: Addr) {
    exists c :: c in cells && c !in m && c < w < c + size
  }

  /** A root, or a word of a marked property, is outside all unmarked cells. */
  lemma SlotSurvives(g: Graph, objects: Arena, properties: Arena, sigs: Arena, h: map<Addr, Head>, s: set<Addr>, w: Addr)
    requires GraphOk(g) && GraphIn(g, objects, properties, sigs) && Closed(g, s) && SlotWithin(g, s, w)
    requires CellsOk(properties, h)
    ensures !InDead(Cells(objects.blocks), s, objects.cellSize, w)
    ensures !InDead(Cells(properties.blocks), s, properties.cellSize, w)
    ensures !InDead(Cells(sigs.blocks), s, sigs.cellSize, w)
  {
    hide GraphOk, NoDup, Follows, PropertyOk;
    if w !in g.roots {
      var o, p :| o in g.objects && o in s && p in g.props[o] && (w == NameSlot(p) || w == ValueSlot(p));
      assert p in s && InArena(properties, p) && p < w < p + 24;
    }
  }

  /** The cells of `m` still exist and link as before. */
  predicate LinksKept(h: map<Addr, Head>, h': map<Addr, Head>, m: set<Addr>) {
    forall c :: c in h && c in m ==> c in h' && h'[c].link == h[c].link
  }

  /** One sweep, seen from the swept arena and from two others. */
  lemma AfterSweep(a: Arena, a': Arena, h: map<Addr, Head>, h': map<Addr, Head>, m: set<Addr>)
    requires a.blocks != [] && CellsOk(a, h) && SweptTo(a, a', h, h', m)
    ensures Clean(a', h', m) && OnlyFreed(a, a', m) && LinksKept(h, h', m) && SweptHeads(a, a', h, h', m)
  {
    SweptClean(a, a', h, h', m);
  }

  lemma ReadyAcross(a: Arena, a': Arena, b: Arena, h: map<Addr, Head>, h': map<Addr, Head>, free: seq<Addr>, m: set<Addr>)
    requires SweptHeads(a, a', h, h', m) && Disjoint(a, b) && Ready(b, h, free, m)
    ensures Ready(b, h', free, m)
  {
    ReadyFrame(b, h, h', free, m);
  }

  lemma CleanAcross(a: Arena, a': Arena, b: Arena, b': Arena, h: map<Addr, Head>, h': map<Addr, Head>, m: set<Addr>)
    requires SweptHeads(a, a', h, h', m) && Disjoint(b, a) && Clean(b', h, m) && OnlyFreed(b, b', m)
    ensures Clean(b', h', m)
  {
    CleanFrame(b', h, h', m);
  }

  lemma CellsAcross(h0: map<Addr, Head>, h1: map<Addr, Head>, h2: map<Addr, Head>, h3: map<Addr, Head>, m: set<Addr>,
                    a: Arena, b: Arena, c: Arena, a': Arena, b': Arena, c': Arena)
    requires CellsOf(h0, a, b, c)
    requires SweptHeads(a, a', h0, h1, m) && SweptHeads(b, b', h1, h2, m) && SweptHeads(c, c', h2, h3, m)
    ensures CellsOf(h3, a', b', c') && LinksKept(h0, h3, m)
  {
    forall x | x in h3
      ensures InArena(a', x) || InArena(b', x) || InArena(c', x)
    {
      assert x in h2 && x in h1 && x in h0;
    }
  }

  /** The words outside all unmarked cells keep their values. */
  predicate WordsKept(v: map<Addr, Value>, v': map<Addr, Value>, a: Arena, m: set<Addr>) {
    WordsOf(v, v', Cells(a.blocks), m, a.cellSize)
  }

  predicate WordsOf(v: map<Addr, Value>, v': map<Addr, Value>, cells: seq<Addr>, m: set<Addr>, size: nat) {
    forall w :: w in v && !InDead(cells, m, size, w) ==> w in v' && v'[w] == v[w]
  }

  lemma WordsOfMore(v: map<Addr, Value>, v1: map<Addr, Value>, v2: map<Addr, Value>, all: seq<Addr>, cells: seq<Addr>,
                    m: set<Addr>, size: nat)
    requires WordsOf(v, v1, all, m, size) && WordsOf(v1, v2, cells, m, size)
    requires forall c :: c in cells ==> c in all
    ensures WordsOf(v, v2, all, m, size)
  {}

  /** Words only vanish or become zero. */
  predicate OnlyZeroed(v: map<Addr, Value>, v': map<Addr, Value>) {
    forall w :: w in v' ==> w in v && (v'[w] == v[w] || v'[w] == ZERO)
  }

  /** Of the cells in `cells`, the unmarked ones that were in use according to `h` hold zeros only. */
  predicate Wiped(v: map<Addr, Value>, h: map<Addr, Head>, m: set<Addr>, cells: set<Addr>, size: nat) {
    forall c, w :: c in cells && c in h && c !in m && !h[c].free && w in v && c < w < c + size ==> v[w] == ZERO
  }

  lemma StaysWiped(v: map<Addr, Value>, v': map<Addr, Value>, h: map<Addr, Head>, m: set<Addr>, cells: set<Addr>, size: nat)
    requires Wiped(v, h, m, cells, size) && OnlyZeroed(v, v')
    ensures Wiped(v', h, m, cells, size)
  {}

  lemma OnlyZeroedTwice(v: map<Addr, Value>, v': map<Addr, Value>, v'': map<Addr, Value>)
    requires OnlyZeroed(v, v') && OnlyZeroed(v', v'')
    ensures OnlyZeroed(v, v'')
  {}

  /** One more cell of a block that is being swept; `h` are the words of the cells when its turn comes. */
  lemma WipedCell(v: map<Addr, Value>, v': map<Addr, Value>, h: map<Addr, Head>, h1: map<Addr, Head>, m: set<Addr>, cells: seq<Addr>,
                  k: nat, done: set<Addr>, size: nat)
    requires k < |cells| && Wiped(v, h1, m, SetOf(cells[..k]), size) && OnlyZeroed(v, v')
    requires cells[k] in h && cells[k] in h1 && h[cells[k]] == h1[cells[k]] && Wiped(v', h, m, {cells[k]}, size)
    ensures Wiped(v', h1, m, SetOf(cells[..k + 1]), size)
  {
    StaysWiped(v, v', h1, m, SetOf(cells[..k]), size);
    assert cells[..k + 1] == cells[..k] + [cells[k]];
  }

  lemma NothingWiped(v: map<Addr, Value>, h: map<Addr, Head>, m: set<Addr>, blocks: seq<Block>, size: nat)
    ensures Wiped(v, h, m, SetOf(Cells(blocks[..0])), size)
  {
    assert blocks[..0] == [];
  }

  /** One more block. */
  lemma WipedBlock(v: map<Addr, Value>, v': map<Addr, Value>, h: map<Addr, Head>, m: set<Addr>, blocks: seq<Block>, j: nat, size: nat)
    requires j < |blocks| && Wiped(v, h, m, SetOf(Cells(blocks[..j])), size) && OnlyZeroed(v, v')
    requires Wiped(v', h, m, SetOf(blocks[j].cells), size)
    ensures Wiped(v', h, m, SetOf(Cells(blocks[..j + 1])), size)
  {
    StaysWiped(v, v', h, m, SetOf(Cells(blocks[..j])), size);
    CellsSplit(blocks, j);
  }

  /** The words of the garbage that a sweep found in cells of `a`: zero wherever they still exist. */
  predicate GarbageZeroed(v: map<Addr, Value>, a: Arena, m: set<Addr>, free: seq<Addr>) {
    forall c, w :: c in Cells(a.blocks) && c !in m && c !in free && w in v && c < w < c + a.cellSize ==> v[w] == ZERO
  }

  lemma WipedIsGarbage(v: map<Addr, Value>, h0: map<Addr, Head>, h1: map<Addr, Head>, a: Arena, m: set<Addr>, free: seq<Addr>)
    requires Ready(a, h0, free, m) && FreeMarked(h0, h1, free) && Wiped(v, h1, m, SetOf(Cells(a.blocks)), a.cellSize)
    ensures GarbageZeroed(v, a, m, free)
  {}

  // ----- what a collection keeps -----

  /** Two values mean the same: equal, or owned strings with the same bytes. */
  predicate SameMeaning(owned0: seq<Byte>, v0: Value, owned: seq<Byte>, v: Value) {
    if IsOwnedString(v0) then
      && IsOwnedString(v)
      && Readable(owned0, v0.payload) && Readable(owned, v.payload)
      && StringAt(owned, v.payload) == StringAt(owned0, v0.payload)
    else
      v == v0
  }

  /** The graph that is left when only the cells of `s` survive. */
  function Survivors(g: Graph, s: set<Addr>, val: map<Addr, Value>): Graph
    requires g.props.Keys == g.objects
  {
    Graph(g.objects * s, map o | o in g.objects * s :: g.props[o], g.sigs * s, g.roots, val)
  }

  /** Every slot within `s` still has a value, the same one but for the place of an owned string. */
  predicate SlotsKept(g: Graph, s: set<Addr>, val: map<Addr, Value>)
    requires g.props.Keys == g.objects
  {
    forall a :: SlotWithin(g, s, a) && a in g.at ==>
      && a in val
      && (if IsOwnedString(g.at[a]) then IsOwnedString(val[a]) else val[a] == g.at[a])
  }

  lemma SurvivorsOwned(g: Graph, s: set<Addr>, val: map<Addr, Value>)
    requires g.props.Keys == g.objects && Owned(g)
    ensures Owned(Survivors(g, s, val))
  {}

  lemma SurvivorsOk(g: Graph, s: set<Addr>, val: map<Addr, Value>)
    requires GraphOk(g) && RootClosed(g, s) && SlotsKept(g, s, val)
    ensures GraphOk(Survivors(g, s, val))
  {
    hide Owned;
    var g' := Survivors(g, s, val);
    assert Owned(g') by {
      SurvivorsOwned(g, s, val);
    }
    forall a | a in g.roots
      ensures SlotOk(g', a)
    {
      assert SlotWithin(g, s, a);
    }
    forall o, p | o in g'.objects && p in g'.props[o]
      ensures PropertyOk(g', p) && p !in g'.objects && p !in g'.sigs
    {
      assert PropertyOk(g, p);
      assert SlotWithin(g, s, NameSlot(p)) && SlotWithin(g, s, ValueSlot(p));
    }
  }

  lemma SurvivorSlots(g: Graph, s: set<Addr>, val: map<Addr, Value>)
    requires g.props.Keys == g.objects
    ensures forall a :: SlotWithin(Survivors(g, s, val), g.objects * s, a) ==> SlotWithin(g, s, a)
  {
    var g' := Survivors(g, s, val);
    forall a | SlotWithin(g', g'.objects, a)
      ensures SlotWithin(g, s, a)
    {
      if a !in g.roots {
        var o, p :| o in g'.objects && o in g'.objects && p in g'.props[o] && (a == NameSlot(p) || a == ValueSlot(p));
        assert o in g.objects && o in s && p in g.props[o];
      }
    }
  }

  /** The surviving objects have their properties linked as before. */
  lemma SurvivorHeads(g: Graph, s: set<Addr>, val: map<Addr, Value>, head0: map<Addr, Head>, head: map<Addr, Head>)
    requires GraphOk(g) && Closed(g, s) && HeadsOk(g, head0)
    requires forall c :: c in s && c in head0 ==> c in head && head[c].link == head0[c].link
    ensures HeadsOk(Survivors(g, s, val), head)
  {
    forall o | o in g.objects && o in s
      ensures o in head && Chain(head, head[o].link, g.props[o])
    {
      ChainFrame(head0, head, head0[o].link, g.props[o]);
    }
  }

  // ----- the slots after compaction -----

  /** Exactly the owned-string slots within `s` are threaded. */
  ghost predicate ThreadsWithin(g: Graph, s: set<Addr>, chunks: seq<Chunk>)
    requires g.props.Keys == g.objects
  {
    forall a: Addr :: Threads(chunks, a) <==> SlotWithin(g, s, a) && a in g.at && IsOwnedString(g.at[a])
  }

  /** The slot at `a` pointed to chunk `j` and points to its new place. */
  predicate Followed(g: Graph, val: map<Addr, Value>, chunks: seq<Chunk>, a: Addr, j: nat)
    requires AllSized(chunks)
  {
    && j < |chunks| && a in g.at && a in val && Live(chunks[j])
    && g.at[a] == Value(StringO, Offset(chunks, j))
    && val[a] == Value(StringO, NewOffset(chunks, j))
  }

  lemma SlotFollowed(g: Graph, s: set<Addr>, val: map<Addr, Value>, chunks: seq<Chunk>, a: Addr) returns (j: nat)
    requires g.props.Keys == g.objects && AllSized(chunks) && AllFrom(g.at, chunks)
    requires Relocated(val, g.at, chunks, |chunks|) && ThreadsWithin(g, s, chunks)
    requires SlotWithin(g, s, a) && a in g.at && IsOwnedString(g.at[a])
    ensures Followed(g, val, chunks, a, j)
  {
    assert Threads(chunks, a);
    j :| 0 <= j < |chunks| && a in chunks[j].chain;
  }

  lemma CompactedSlots(g: Graph, s: set<Addr>, val: map<Addr, Value>, chunks: seq<Chunk>)
    requires g.props.Keys == g.objects && AllSized(chunks) && AllFrom(g.at, chunks)
    requires Relocated(val, g.at, chunks, |chunks|) && ThreadsWithin(g, s, chunks)
    ensures SlotsKept(g, s, val)
  {
    forall a | SlotWithin(g, s, a) && a in g.at
      ensures a in val && (if IsOwnedString(g.at[a]) then IsOwnedString(val[a]) else val[a] == g.at[a])
    {
      if IsOwnedString(g.at[a]) {
        var j := SlotFollowed(g, s, val, chunks, a);
      } else {
        assert !Threads(chunks, a);
      }
    }
  }

  /** Every slot within `s` means what it meant. */
  predicate Meanings(g: Graph, s: set<Addr>, owned0: seq<Byte>, owned: seq<Byte>, val: map<Addr, Value>)
    requires g.props.Keys == g.objects
  {
    forall a :: SlotWithin(g, s, a) && a in g.at ==> a in val && SameMeaning(owned0, g.at[a], owned, val[a])
  }

  lemma CompactedMeanings(g: Graph, s: set<Addr>, val: map<Addr, Value>, chunks0: seq<Chunk>, chunks: seq<Chunk>)
    requires g.props.Keys == g.objects && AllSized(chunks) && AllFrom(g.at, chunks)
    requires Relocated(val, g.at, chunks, |chunks|) && ThreadsWithin(g, s, chunks)
    requires AllSized(chunks0) && SameStrings(chunks0, chunks) && Unthreaded(chunks0)
    ensures Meanings(g, s, Image(chunks0), Image(Packed(chunks)), val)
  {
    CompactedSlots(g, s, val, chunks);
    SameOffsets(chunks0, chunks);
    forall a | SlotWithin(g, s, a) && a in g.at
      ensures a in val && SameMeaning(Image(chunks0), g.at[a], Image(Packed(chunks)), val[a])
    {
      if IsOwnedString(g.at[a]) {
        var j := SlotFollowed(g, s, val, chunks, a);
        ReadChunk(chunks0, j);
        PackedHolds(chunks, j);
      }
    }
  }

  /** Owned strings keep their order in the buffer, and so slots that shared a string still do. */
  predicate OrderKept(g: Graph, s: set<Addr>, val: map<Addr, Value>)
    requires g.props.Keys == g.objects
  {
    forall a, b :: SlotWithin(g, s, a) && SlotWithin(g, s, b) && a in g.at && b in g.at && a in val && b in val
                   && IsOwnedString(g.at[a]) && IsOwnedString(g.at[b]) ==>
      (g.at[a].payload < g.at[b].payload <==> val[a].payload < val[b].payload)
  }

  lemma CompactedOrder(g: Graph, s: set<Addr>, val: map<Addr, Value>, chunks: seq<Chunk>)
    requires g.props.Keys == g.objects && AllSized(chunks) && AllFrom(g.at, chunks)
    requires Relocated(val, g.at, chunks, |chunks|) && ThreadsWithin(g, s, chunks)
    ensures OrderKept(g, s, val)
  {
    forall a, b | SlotWithin(g, s, a) && SlotWithin(g, s, b) && a in g.at && b in g.at && a in val && b in val
                  && IsOwnedString(g.at[a]) && IsOwnedString(g.at[b])
      ensures g.at[a].payload < g.at[b].payload <==> val[a].payload < val[b].payload
    {
      var i := SlotFollowed(g, s, val, chunks, a);
      var j := SlotFollowed(g, s, val, chunks, b);
      if i < j {
        OffsetsIncrease(chunks, i, j);
        NewOffsetsIncrease(chunks, i, j);
      } else if j < i {
        OffsetsIncrease(chunks, j, i);
        NewOffsetsIncrease(chunks, j, i);
      }
    }
  }

  /** The owned strings of the slots within `s` lie in the compacted buffer. */
  ghost predicate KnownAt(g: Graph, s: set<Addr>, val: map<Addr, Value>, chunks: seq<Chunk>)
    requires g.props.Keys == g.objects && AllSized(chunks)
  {
    forall a :: SlotWithin(g, s, a) && a in g.at && a in val && IsOwnedString(g.at[a]) ==> PointsToChunk(val[a].payload, chunks)
  }

  lemma CompactedKnown(g: Graph, s: set<Addr>, val: map<Addr, Value>, chunks: seq<Chunk>)
    requires g.props.Keys == g.objects && AllSized(chunks) && AllFrom(g.at, chunks)
    requires Relocated(val, g.at, chunks, |chunks|) && ThreadsWithin(g, s, chunks)
    ensures KnownAt(g, s, val, Packed(chunks))
  {
    forall a | SlotWithin(g, s, a) && a in g.at && a in val && IsOwnedString(g.at[a])
      ensures PointsToChunk(val[a].payload, Packed(chunks))
    {
      var j := SlotFollowed(g, s, val, chunks, a);
      PackedIndex(chunks, j);
    }
  }

  lemma SurvivorStrings(g: Graph, s: set<Addr>, val: map<Addr, Value>, chunks: seq<Chunk>)
    requires GraphOk(g) && AllSized(chunks) && SlotsKept(g, s, val) && KnownAt(g, s, val, chunks)
    ensures StringsKnown(Survivors(g, s, val), g.objects * s, chunks)
  {
    SurvivorSlots(g, s, val);
    SlotsExist(g, s);
    forall a | SlotWithin(Survivors(g, s, val), g.objects * s, a) && a in val && IsOwnedString(val[a])
      ensures PointsToChunk(val[a].payload, chunks)
    {
      assert SlotWithin(g, s, a) && a in g.at;
    }
  }

  lemma PackedIndex(chunks: seq<Chunk>, j: nat)
    requires AllSized(chunks) && j < |chunks| && Live(chunks[j])
    ensures PointsToChunk(NewOffset(chunks, j), Packed(chunks))
  {
    var all, k := Packed(chunks), |Packed(chunks[..j])|;
    PackedStep(chunks, j);
    PackedPrefix(chunks, j + 1);
    PackedPrefix(chunks, j);
    assert all[..k] == Packed(chunks[..j]);
    assert NewOffset(chunks, j) == Offset(all, k);
  }

  lemma RelocateStart(owned: seq<Byte>, val: map<Addr, Value>, val0: map<Addr, Value>, chunks: seq<Chunk>)
    requires Threaded(owned, val, val0, chunks)
    ensures AllSized(chunks) && AllFrom(val0, chunks) && owned == Image(chunks) && Relocated(val, val0, chunks, 0)
  {}

  lemma SlotsExist(g: Graph, s: set<Addr>)
    requires GraphOk(g)
    ensures forall a :: SlotWithin(g, s, a) ==> a in g.at
  {
    hide Owned;
    forall a | SlotWithin(g, s, a)
      ensures a in g.at
    {
      if a !in g.roots {
        var o, p :| o in g.objects && o in s && p in g.props[o] && (a == NameSlot(p) || a == ValueSlot(p));
        assert PropertyOk(g, p);
      }
    }
  }

  /** The slots within `s` have the same value in `w` as in `v`. */
  predicate Agree(g: Graph, s: set<Addr>, v: map<Addr, Value>, w: map<Addr, Value>)
    requires g.props.Keys == g.objects
  {
    forall a :: SlotWithin(g, s, a) && a in v ==> a in w && w[a] == v[a]
  }

  /** The words outside all unmarked cells of all arenas keep their values. */
  predicate WordsKeptAll(v: map<Addr, Value>, v': map<Addr, Value>, o: Arena, p: Arena, f: Arena, m: set<Addr>) {
    forall w :: w in v && !AnyDead(o, p, f, m, w) ==> w in v' && v'[w] == v[w]
  }

  predicate AnyDead(o: Arena, p: Arena, f: Arena, m: set<Addr>, w: Addr) {
    || InDead(Cells(o.blocks), m, o.cellSize, w)
    || InDead(Cells(p.blocks), m, p.cellSize, w)
    || InDead(Cells(f.blocks), m, f.cellSize, w)
  }

  lemma WordsKeptTwice(v: map<Addr, Value>, v1: map<Addr, Value>, v2: map<Addr, Value>, v3: map<Addr, Value>,
                       o: Arena, p: Arena, f: Arena, m: set<Addr>)
    requires WordsKept(v, v1, o, m) && WordsKept(v1, v2, p, m) && WordsKept(v2, v3, f, m)
    ensures WordsKeptAll(v, v3, o, p, f, m)
  {}

  lemma SweepsAgree(g: Graph, objects: Arena, properties: Arena, sigs: Arena, h: map<Addr, Head>, s: set<Addr>,
                    v: map<Addr, Value>, v': map<Addr, Value>)
    requires GraphOk(g) && GraphIn(g, objects, properties, sigs) && Closed(g, s) && CellsOk(properties, h)
    requires WordsKeptAll(v, v', objects, properties, sigs, s)
    ensures Agree(g, s, v, v')
  {
    forall a | SlotWithin(g, s, a) && a in v
      ensures a in v' && v'[a] == v[a]
    {
      SlotSurvives(g, objects, properties, sigs, h, s, a);
    }
  }

  lemma Agreement(g: Graph, s: set<Addr>, owned0: seq<Byte>, owned: seq<Byte>, v: map<Addr, Value>, w: map<Addr, Value>)
    requires g.props.Keys == g.objects && Agree(g, s, v, w)
    requires Kept3(g, s, owned0, owned, v)
    ensures Kept3(g, s, owned0, owned, w)
  {}

  /** What holds of the values of all slots within `s` after a collection. */
  predicate Kept3(g: Graph, s: set<Addr>, owned0: seq<Byte>, owned: seq<Byte>, val: map<Addr, Value>)
    requires g.props.Keys == g.objects
  {
    SlotsKept(g, s, val) && Meanings(g, s, owned0, owned, val) && OrderKept(g, s, val)
  }

  lemma KnownAgree(g: Graph, s: set<Addr>, v: map<Addr, Value>, w: map<Addr, Value>, chunks: seq<Chunk>)
    requires GraphOk(g) && AllSized(chunks) && Agree(g, s, v, w) && SlotsKept(g, s, v) && KnownAt(g, s, v, chunks)
    ensures KnownAt(g, s, w, chunks)
  {}

  /** The graph of the survivors lies in the arenas that the sweeps left. */
  lemma SurvivorsIn(g: Graph, s: set<Addr>, val: map<Addr, Value>, o: Arena, p: Arena, f: Arena,
                    o': Arena, p': Arena, f': Arena)
    requires GraphOk(g) && GraphIn(g, o, p, f) && Closed(g, s)
    requires OnlyFreed(o, o', s) && OnlyFreed(p, p', s) && OnlyFreed(f, f', s)
    ensures GraphIn(Survivors(g, s, val), o', p', f')
  {
    hide OnlyFreed, InArena, Outside, Apart, GraphOk, PropertyOk, Follows;
    forall c | c in s
      ensures InArena(o, c) ==> InArena(o', c)
      ensures InArena(p, c) ==> InArena(p', c)
      ensures InArena(f, c) ==> InArena(f', c)
    {
      KeptIn(o, o', s, c);
      KeptIn(p, p', s, c);
      KeptIn(f, f', s, c);
    }
    StillApart(g.roots, o, o', p, p', s);
    StillApart(g.roots, o, o', f, f', s);
    StillApart(g.roots, p, p', f, f', s);
  }

  lemma KeptIn(a: Arena, a': Arena, s: set<Addr>, c: Addr)
    requires OnlyFreed(a, a', s) && c in s
    ensures InArena(a, c) ==> InArena(a', c)
  {
    if InArena(a, c) {
      KeptHoldMarked(a.blocks, s, c);
    }
  }

  /** Arenas that only lose blocks stay away from each other and from the roots. */
  lemma StillApart(roots: set<Addr>, a: Arena, a': Arena, b: Arena, b': Arena, s: set<Addr>)
    requires OnlyFreed(a, a', s) && OnlyFreed(b, b', s)
    requires Outside(roots, a) && Outside(roots, b) && Apart(a, b)
    ensures Outside(roots, a') && Outside(roots, b') && Apart(a', b')
    ensures a'.cellSize == a.cellSize && b'.cellSize == b.cellSize
  {}

  /** The strings kept are exactly those that a slot within `s` refers to, in their old order. */
  ghost predicate StringsKept(g: Graph, s: set<Addr>, before: seq<Chunk>, after: seq<Chunk>)
    requires g.props.Keys == g.objects && AllSized(before)
  {
    exists t: seq<Chunk> ::
      && AllSized(t) && SameStrings(before, t) && after == Packed(t)
      && (forall i :: 0 <= i < |t| ==> (Live(t[i]) <==> Referenced(g, s, Offset(before, i))))
  }

  /** Some slot within `s` holds the owned string at `off`. */
  ghost predicate Referenced(g: Graph, s: set<Addr>, off: nat)
    requires g.props.Keys == g.objects
  {
    exists a: Addr :: SlotWithin(g, s, a) && a in g.at && g.at[a] == Value(StringO, off)
  }

  lemma LiveReferenced(g: Graph, s: set<Addr>, before: seq<Chunk>, t: seq<Chunk>)
    requires g.props.Keys == g.objects && AllSized(before) && SameStrings(before, t)
    requires AllSized(t) && AllFrom(g.at, t) && ThreadsWithin(g, s, t)
    ensures StringsKept(g, s, before, Packed(t))
  {
    SameOffsets(before, t);
    forall i | 0 <= i < |t|
      ensures Live(t[i]) <==> Referenced(g, s, Offset(before, i))
    {
      if Live(t[i]) {
        var a := t[i].chain[0];
        assert Threads(t, a);
        assert g.at[a] == Value(StringO, Offset(t, i));
      }
      if Referenced(g, s, Offset(before, i)) {
        var a: Addr :| SlotWithin(g, s, a) && a in g.at && g.at[a] == Value(StringO, Offset(before, i));
        assert Threads(t, a);
        var j :| 0 <= j < |t| && a in t[j].chain;
        assert g.at[a] == Value(StringO, Offset(t, j));
        if j < i {
          OffsetsIncrease(t, j, i);
        } else if i < j {
          OffsetsIncrease(t, i, j);
        }
      }
    }
  }

  lemma GraphInDisjoint(g: Graph, o: Arena, p: Arena, f: Arena)
    requires GraphIn(g, o, p, f)
    ensures Disjoint(o, p) && Disjoint(o, f) && Disjoint(p, f)
  {}

  /** The free cells of swept arenas are none of the survivors. */
  lemma SurvivorsInUse(g: Graph, s: set<Addr>, val: map<Addr, Value>, objectFree: seq<Addr>, propertyFree: seq<Addr>,
                       ffiSigFree: seq<Addr>)
    requires GraphOk(g) && Closed(g, s)
    requires forall c :: c in objectFree || c in propertyFree || c in ffiSigFree ==> c !in s
    ensures InUseOk(Survivors(g, s, val), objectFree, propertyFree, ffiSigFree)
  {}

  /** The arenas with their free lists, as they are between collections. */
  ghost predicate ArenasOk(g: Graph, head: map<Addr, Head>, o: Arena, p: Arena, f: Arena,
                           objectFree: seq<Addr>, propertyFree: seq<Addr>, ffiSigFree: seq<Addr>) {
    && GraphIn(g, o, p, f)
    && ArenaOk(o, head, objectFree) && ArenaOk(p, head, propertyFree) && ArenaOk(f, head, ffiSigFree)
    && InUseOk(g, objectFree, propertyFree, ffiSigFree)
    && CellsOf(head, o, p, f)
  }

  /** The arenas are in order for the survivors. */
  lemma SurvivorArenas(g: Graph, head0: map<Addr, Head>, o: Arena, p: Arena, f: Arena, s: set<Addr>, val: map<Addr, Value>,
                       head: map<Addr, Head>, o': Arena, p': Arena, f': Arena)
    requires GraphOk(g) && GraphIn(g, o, p, f) && Closed(g, s)
    requires OnlyFreed(o, o', s) && OnlyFreed(p, p', s) && OnlyFreed(f, f', s)
    requires Clean(o', head, s) && Clean(p', head, s) && Clean(f', head, s) && CellsOf(head, o', p', f')
    ensures ArenasOk(Survivors(g, s, val), head, o', p', f', FreeList(o'.blocks, s), FreeList(p'.blocks, s), FreeList(f'.blocks, s))
    ensures forall c :: c in head ==> !head[c].marked && !head[c].free
  {
    SurvivorsIn(g, s, val, o, p, f, o', p', f');
    SurvivorsInUse(g, s, val, FreeList(o'.blocks, s), FreeList(p'.blocks, s), FreeList(f'.blocks, s));
  }

  /** The free list holds exactly the cells of the arena that are not in `live`. */
  ghost predicate FreeIsDead(a: Arena, free: seq<Addr>, live: set<Addr>) {
    NoDup(free) && forall c :: c in free <==> c in Cells(a.blocks) && c !in live
  }

  /** The graph, its cells and the roots between collections. */
  predicate GraphReady(g: Graph, val: map<Addr, Value>, head: map<Addr, Head>, roots: set<Addr>) {
    && g.at == val && g.roots == roots
    && GraphOk(g) && HeadsOk(g, head)
    && (forall c :: c in head ==> !head[c].marked && !head[c].free)
  }

  /** The owned strings between collections. */
  ghost predicate StringsReady(g: Graph, owned: seq<Byte>, chunks: seq<Chunk>) {
    && GraphOk(g)
    && AllSized(chunks) && Unthreaded(chunks) && owned == Image(chunks)
    && StringsKnown(g, g.objects, chunks)
  }

  /** The three arenas with their free lists. */
  datatype Arenas = Arenas(objects: Arena, properties: Arena, sigs: Arena,
                           objectFree: seq<Addr>, propertyFree: seq<Addr>, sigFree: seq<Addr>)

  ghost predicate ArenasReady(g: Graph, head: map<Addr, Head>, a: Arenas) {
    ArenasOk(g, head, a.objects, a.properties, a.sigs, a.objectFree, a.propertyFree, a.sigFree)
  }

  /** The invariant between collections. */
  ghost predicate HeapReady(g: Graph, val: map<Addr, Value>, head: map<Addr, Head>, roots: set<Addr>,
                            owned: seq<Byte>, chunks: seq<Chunk>, a: Arenas) {
    GraphReady(g, val, head, roots) && StringsReady(g, owned, chunks) && ArenasReady(g, head, a)
  }

  /** What the sweeps of a collection did to arenas, cell words and values. */
  ghost predicate SweptAll(a: Arenas, a': Arenas, h: map<Addr, Head>, h': map<Addr, Head>, m: set<Addr>) {
    && Clean(a'.objects, h', m) && Clean(a'.properties, h', m) && Clean(a'.sigs, h', m)
    && OnlyFreed(a.objects, a'.objects, m) && OnlyFreed(a.properties, a'.properties, m) && OnlyFreed(a.sigs, a'.sigs, m)
    && LinksKept(h, h', m) && CellsOf(h', a'.objects, a'.properties, a'.sigs)
    && a'.objectFree == FreeList(a'.objects.blocks, m) && a'.propertyFree == FreeList(a'.properties.blocks, m)
    && a'.sigFree == FreeList(a'.sigs.blocks, m)
  }

  /** A collection that marked `s`, compacted the strings and swept the arenas leaves the heap in order. */
  lemma Collected(g: Graph, head0: map<Addr, Head>, roots: set<Addr>, a: Arenas, s: set<Addr>,
                  val: map<Addr, Value>, head: map<Addr, Head>, owned: seq<Byte>, chunks: seq<Chunk>, a': Arenas)
    requires GraphReady(g, g.at, head0, roots) && ArenasReady(g, head0, a) && RootClosed(g, s)
    requires SlotsKept(g, s, val) && AllSized(chunks) && Unthreaded(chunks) && owned == Image(chunks) && KnownAt(g, s, val, chunks)
    requires SweptAll(a, a', head0, head, s)
    ensures HeapReady(Survivors(g, s, val), val, head, roots, owned, chunks, a')
  {
    SurvivorsOk(g, s, val);
    SurvivorHeads(g, s, val, head0, head);
    SurvivorStrings(g, s, val, chunks);
    SurvivorArenas(g, head0, a.objects, a.properties, a.sigs, s, val, head, a'.objects, a'.properties, a'.sigs);
  }

  /** The values of the survivors after the sweeps. */
  lemma SweptValues(g: Graph, head0: map<Addr, Head>, a: Arenas, s: set<Addr>, owned0: seq<Byte>, owned: seq<Byte>, chunks: seq<Chunk>,
                    v: map<Addr, Value>, v': map<Addr, Value>)
    requires GraphOk(g) && ArenasReady(g, head0, a) && Closed(g, s) && AllSized(chunks)
    requires WordsKeptAll(v, v', a.objects, a.properties, a.sigs, s)
    requires Kept3(g, s, owned0, owned, v) && KnownAt(g, s, v, chunks)
    ensures Kept3(g, s, owned0, owned, v') && KnownAt(g, s, v', chunks)
  {
    SweepsAgree(g, a.objects, a.properties, a.sigs, head0, s, v, v');
    Agreement(g, s, owned0, owned, v, v');
    KnownAgree(g, s, v, v', chunks);
  }

  /** The arenas can be swept. */
  ghost predicate ReadyAll(a: Arenas, head: map<Addr, Head>, m: set<Addr>) {
    && Ready(a.objects, head, a.objectFree, m) && Ready(a.properties, head, a.propertyFree, m) && Ready(a.sigs, head, a.sigFree, m)
    && Disjoint(a.objects, a.properties) && Disjoint(a.objects, a.sigs) && Disjoint(a.properties, a.sigs)
    && CellsOf(head, a.objects, a.properties, a.sigs)
  }

  lemma ReadyStrings(g: Graph, owned: seq<Byte>, chunks: seq<Chunk>)
    requires StringsReady(g, owned, chunks)
    ensures AllSized(chunks) && Unthreaded(chunks) && owned == Image(chunks)
  {}

  lemma ReadyKeys(g: Graph, val: map<Addr, Value>, head: map<Addr, Head>, roots: set<Addr>)
    requires GraphReady(g, val, head, roots)
    ensures GraphOk(g) && g.props.Keys == g.objects
  {}

  /** The free cells are unmarked, so that the arenas can be swept. */
  lemma ReadyArenas(g: Graph, head0: map<Addr, Head>, a: Arenas, s: set<Addr>, head: map<Addr, Head>)
    requires ArenasReady(g, head0, a) && s <= GraphCells(g) && MarkBits(head, head0, s)
    ensures ReadyAll(a, head, s)
  {
    FreeUnmarked(g, a.objects, a.properties, a.sigs, s, a.objectFree, a.propertyFree, a.sigFree);
    ReadyToSweep(a.objects, head0, head, a.objectFree, s);
    ReadyToSweep(a.properties, head0, head, a.propertyFree, s);
    ReadyToSweep(a.sigs, head0, head, a.sigFree, s);
    GraphInDisjoint(g, a.objects, a.properties, a.sigs);
  }

  /** The end of a collection. */
  lemma Conclude(g: Graph, head0: map<Addr, Head>, roots: set<Addr>, a: Arenas, s: set<Addr>, owned0: seq<Byte>,
                 val0: map<Addr, Value>, v: map<Addr, Value>, val: map<Addr, Value>, head: map<Addr, Head>, head1: map<Addr, Head>,
                 owned: seq<Byte>, chunks: seq<Chunk>, a': Arenas)
    requires GraphReady(g, val0, head0, roots) && ArenasReady(g, head0, a) && RootClosed(g, s)
    requires AllSized(chunks) && Unthreaded(chunks) && owned == Image(chunks)
    requires Kept3(g, s, owned0, owned, v) && KnownAt(g, s, v, chunks)
    requires WordsKeptAll(v, val, a.objects, a.properties, a.sigs, s)
    requires MarkBits(head1, head0, s) && SweptAll(a, a', head1, head, s)
    ensures HeapReady(Survivors(g, s, val), val, head, roots, owned, chunks, a')
    ensures Kept3(g, s, owned0, owned, val)
    ensures OnlyFreed(a.objects, a'.objects, s) && OnlyFreed(a.properties, a'.properties, s) && OnlyFreed(a.sigs, a'.sigs, s)
    ensures FreeIsDead(a'.objects, a'.objectFree, s) && FreeIsDead(a'.properties, a'.propertyFree, s)
    ensures FreeIsDead(a'.sigs, a'.sigFree, s)
  {
    SweptValues(g, head0, a, s, owned0, owned, chunks, v, val);
    assert LinksKept(head0, head, s);
    Collected(g, head0, roots, a, s, val, head, owned, chunks, a');
  }

  /** What marking the free cells needs. */
  lemma ReadyFree(a: Arena, h: map<Addr, Head>, free: seq<Addr>, m: set<Addr>)
    requires Ready(a, h, free, m)
    ensures a.blocks != [] && NoDup(Cells(a.blocks)) && Chain(h, a.free, free) && NoDup(free)
    ensures forall c :: c in free ==> c in h && !h[c].marked && !h[c].free
  {}

  /** The sweep may start once the free cells are marked as such. */
  lemma FreeMarkedSweepable(a: Arena, h0: map<Addr, Head>, h1: map<Addr, Head>, m: set<Addr>, free: seq<Addr>)
    requires Ready(a, h0, free, m) && FreeMarked(h0, h1, free)
    ensures Sweepable(h1, m, Cells(a.blocks))
  {}

  /** A sweep put together: marking the free cells, then the blocks. */
  lemma SweepResult(a: Arena, a': Arena, h0: map<Addr, Head>, h1: map<Addr, Head>, h2: map<Addr, Head>, m: set<Addr>, free: seq<Addr>)
    requires Ready(a, h0, free, m)
    requires FreeMarked(h0, h1, free)
    requires a.blocks != [] && a' == a.(blocks := Kept(a.blocks, m), free := a'.free) && Chain(h2, a'.free, FreeList(a'.blocks, m))
    requires Sweeping(h2, h1, m, SetOf(Cells(a.blocks)), Gone(a.blocks, m, |a.blocks|))
    ensures Clean(a', h2, m) && OnlyFreed(a, a', m) && SweptHeads(a, a', h0, h2, m)
  {
    assert a.blocks[..|a.blocks|] == a.blocks;
    SweptFrom(h0, h1, h2, m, SetOf(Cells(a.blocks)), Gone(a.blocks, m, |a.blocks|), free);
    AfterSweep(a, a', h0, h2, m);
  }

  /** The checks with which marking guards its pointers never fail on a slot, so marking never aborts. */
  lemma ChecksPass(g: Graph, o: Arena, p: Arena, f: Arena, w: nat)
    requires GraphOk(g) && GraphIn(g, o, p, f) && SlotOk(g, w)
    ensures IsObject(g.at[w]) ==> CheckPtr(o, g.at[w].payload)
    ensures IsObject(g.at[w]) ==> forall q :: q in g.props[g.at[w].payload] ==> CheckPtr(p, q)
    ensures IsFfiSig(g.at[w]) ==> CheckPtr(f, g.at[w].payload)
  {
    hide GraphOk, Outside, Apart;
    if IsObject(g.at[w]) {
      CheckPtrIsCell(o.blocks, g.at[w].payload);
      forall q | q in g.props[g.at[w].payload]
        ensures CheckPtr(p, q)
      {
        CheckPtrIsCell(p.blocks, q);
        assert InArena(p, q);
      }
    }
    if IsFfiSig(g.at[w]) {
      CheckPtrIsCell(f.blocks, g.at[w].payload);
    }
  }
}
