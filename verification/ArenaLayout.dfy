/** Arenas: lists of blocks of equal cells, and the free list that runs through the cells. */
module ArenaLayout {
  import opened Values
  import opened Sequences

  /** The first word of a cell: a pointer, whose two low bits are the marks. */
  datatype Head = Head(link: Addr, marked: bool, free: bool)

  /** The word of a cell read as a pointer, which needs both mark bits clear. */
  function Pointer(h: Head): Addr
    requires !h.marked && !h.free
  {
    h.link
  }

  /** A block, given by the addresses of its cells in order. */
  datatype Block = Block(cells: seq<Addr>)

  /** `words` are the offsets, inside a cell of `cellSize` bytes, of the words that hold values. */
  datatype Arena = Arena(blocks: seq<Block>, free: Addr, increment: nat, cellSize: nat, words: seq<nat>)

  /** All cells, block by block. */
  function Cells(blocks: seq<Block>): seq<Addr> {
    if blocks == [] then [] else blocks[0].cells + Cells(blocks[1..])
  }

  predicate NoDup(s: seq<Addr>) {
    forall i, j :: 0 <= i < j < |s| ==> s[i] != s[j]
  }

  /** Following links from `first` visits `list` and ends at NULL. */
  predicate Chain(head: map<Addr, Head>, first: Addr, list: seq<Addr>)
    decreases |list|
  {
    if list == [] then first == 0
    else first == list[0] && first != 0 && first in head && Chain(head, head[first].link, list[1..])
  }

  lemma {:induction false} ChainFrame(h: map<Addr, Head>, h': map<Addr, Head>, first: Addr, list: seq<Addr>)
    requires Chain(h, first, list)
    requires forall c :: c in list && c in h ==> c in h' && h'[c].link == h[c].link
    ensures Chain(h', first, list)
    decreases |list|
  {
    if list != [] {
      ChainFrame(h, h', h[first].link, list[1..]);
    }
  }

  lemma {:induction false} ChainIn(h: map<Addr, Head>, first: Addr, list: seq<Addr>, c: Addr)
    requires Chain(h, first, list) && c in list
    ensures c in h && c != 0
    decreases |list|
  {
    if c != list[0] {
      ChainIn(h, h[first].link, list[1..], c);
    }
  }

  /** The blocks, the free list `free` and the mark bits are in order. `free` has no cell twice and only
      cells of the arena; no mark bit is set. */
  ghost predicate ArenaOk(a: Arena, head: map<Addr, Head>, free: seq<Addr>) {
    && a.blocks != []
    && CellsOk(a, head)
    && FreeOk(a, head, free)
  }

  predicate CellsOk(a: Arena, head: map<Addr, Head>) {
    && NoDup(Cells(a.blocks))
    && (forall c :: c in Cells(a.blocks) ==> c in head && c != 0)
    && (forall c, c' :: c in Cells(a.blocks) && c' in Cells(a.blocks) && c != c' ==> c + a.cellSize <= c' || c' + a.cellSize <= c)
    && (forall w :: w in a.words ==> 0 < w < a.cellSize)
  }

  predicate FreeOk(a: Arena, head: map<Addr, Head>, free: seq<Addr>) {
    && Chain(head, a.free, free)
    && NoDup(free)
    && (forall c :: c in free ==> c in Cells(a.blocks))
  }

  /** `gc_check_ptr`. */
  predicate CheckPtr(a: Arena, p: Addr) {
    exists b :: b in a.blocks && p in b.cells
  }

  lemma {:induction false} CheckPtrIsCell(blocks: seq<Block>, p: Addr)
    ensures p in Cells(blocks) <==> exists b :: b in blocks && p in b.cells
  {
    if blocks != [] {
      CheckPtrIsCell(blocks[1..], p);
      if p in blocks[0].cells {
        assert blocks[0] in blocks;
      }
      assert forall b :: b in blocks <==> b == blocks[0] || b in blocks[1..];
    }
  }

  lemma {:induction false} CellsConcat(a: seq<Block>, b: seq<Block>)
    ensures Cells(a + b) == Cells(a) + Cells(b)
  {
    if a == [] {
      assert a + b == b;
    } else {
      assert (a + b)[1..] == a[1..] + b;
      CellsConcat(a[1..], b);
    }
  }

  lemma CellsAppend(a: seq<Block>, x: Block)
    ensures Cells(a + [x]) == Cells(a) + x.cells
  {
    CellsConcat(a, [x]);
    assert Cells([x]) == x.cells + Cells([]);
  }

  lemma CellsThree(a: seq<Block>, x: Block, b: seq<Block>)
    ensures Cells(a + [x] + b) == Cells(a) + x.cells + Cells(b)
  {
    CellsAppend(a, x);
    CellsConcat(a + [x], b);
  }

  lemma CellsPrefix(blocks: seq<Block>, j: nat)
    requires j < |blocks|
    ensures Cells(blocks[..j + 1]) == Cells(blocks[..j]) + blocks[j].cells
  {
    CellsAppend(blocks[..j], blocks[j]);
    assert blocks[..j + 1] == blocks[..j] + [blocks[j]];
  }

  lemma CellsAround(blocks: seq<Block>, j: nat)
    requires j < |blocks|
    ensures Cells(blocks) == Cells(blocks[..j]) + blocks[j].cells + Cells(blocks[j + 1..])
  {
    hide Cells;
    CellsThree(blocks[..j], blocks[j], blocks[j + 1..]);
    Around(blocks, j);
  }

  lemma CellsSplit(blocks: seq<Block>, j: nat)
    requires j < |blocks|
    ensures Cells(blocks) == Cells(blocks[..j]) + blocks[j].cells + Cells(blocks[j + 1..])
    ensures Cells(blocks[..j + 1]) == Cells(blocks[..j]) + blocks[j].cells
  {
    hide Cells;
    CellsPrefix(blocks, j);
    CellsAround(blocks, j);
  }

  // ----- what a sweep leaves, `m` being the marked cells -----

  /** The unmarked cells, last one first: the order in which a block's cells end on the free list. */
  function Pushed(cells: seq<Addr>, m: set<Addr>): seq<Addr> {
    if cells == [] then []
    else
      var c := cells[|cells| - 1];
      (if c in m then [] else [c]) + Pushed(cells[..|cells| - 1], m)
  }

  /** Whether a block has a marked cell. */
  predicate InUse(b: Block, m: set<Addr>) {
    exists c :: c in b.cells && c in m
  }

  /** The blocks with a marked cell. */
  function UsedBlocks(blocks: seq<Block>, m: set<Addr>): seq<Block> {
    if blocks == [] then []
    else
      var b := blocks[|blocks| - 1];
      UsedBlocks(blocks[..|blocks| - 1], m) + (if InUse(b, m) then [b] else [])
  }

  /** The blocks a sweep keeps: those in use, and always the last, initial one. */
  function Kept(blocks: seq<Block>, m: set<Addr>): seq<Block>
    requires blocks != []
  {
    UsedBlocks(blocks[..|blocks| - 1], m) + [blocks[|blocks| - 1]]
  }

  /** The free list after a sweep that kept `blocks`. */
  function FreeList(blocks: seq<Block>, m: set<Addr>): seq<Addr> {
    if blocks == [] then []
    else Pushed(blocks[|blocks| - 1].cells, m) + FreeList(blocks[..|blocks| - 1], m)
  }

  lemma {:induction false} PushedElements(cells: seq<Addr>, m: set<Addr>)
    requires NoDup(cells)
    ensures forall c :: c in Pushed(cells, m) <==> c in cells && c !in m
    ensures NoDup(Pushed(cells, m))
  {
    if cells != [] {
      var rest := cells[..|cells| - 1];
      PushedElements(rest, m);
      assert cells == rest + [cells[|cells| - 1]];
    }
  }

  lemma NoDupConcat(a: seq<Addr>, b: seq<Addr>)
    ensures NoDup(a + b) <==> NoDup(a) && NoDup(b) && forall c :: c in a ==> c !in b
  {
    var s := a + b;
    if NoDup(s) {
      assert forall i :: 0 <= i < |a| ==> s[i] == a[i];
      assert forall i :: 0 <= i < |b| ==> s[|a| + i] == b[i];
      forall i, j | 0 <= i < |a| && 0 <= j < |b|
        ensures a[i] != b[j]
      {
        assert s[i] != s[|a| + j];
      }
    }
    if NoDup(a) && NoDup(b) && forall c :: c in a ==> c !in b {
      forall i, j | 0 <= i < j < |s|
        ensures s[i] != s[j]
      {
        if i < |a| <= j {
          assert s[i] in a && s[j] == b[j - |a|] && s[j] in b;
        }
      }
    }
  }

  /** The cells of a block as a set. */
  function SetOf(cells: seq<Addr>): set<Addr> {
    set c | c in cells
  }

  /** One more cell. */
  lemma PushedMore(cells: seq<Addr>, m: set<Addr>, acc: seq<Addr>, k: nat)
    requires k < |cells|
    ensures Pushed(cells[..k + 1], m) + acc ==
            if cells[k] in m then Pushed(cells[..k], m) + acc else [cells[k]] + (Pushed(cells[..k], m) + acc)
    ensures |Pushed(cells[..k + 1], m)| == |Pushed(cells[..k], m)| + (if cells[k] in m then 0 else 1)
  {
    assert cells[..k + 1][..k] == cells[..k];
    if cells[k] in m {
      assert [] + Pushed(cells[..k], m) == Pushed(cells[..k], m);
    } else {
      assert [cells[k]] + Pushed(cells[..k], m) + acc == [cells[k]] + (Pushed(cells[..k], m) + acc);
    }
  }

  lemma OneMore(cells: seq<Addr>, m: set<Addr>, done: set<Addr>, k: nat)
    requires NoDup(cells) && k < |cells|
    ensures cells[k] !in cells[..k]
    ensures done + SetOf(cells[..k + 1]) == done + SetOf(cells[..k]) + {cells[k]}
    ensures forall c :: c in Pushed(cells[..k], m) ==> c in cells[..k]
  {
    assert cells[..k + 1] == cells[..k] + [cells[k]];
    assert NoDup(cells[..k]);
    PushedElements(cells[..k], m);
  }

  /** The cells of block `j` and of the blocks before it are distinct. */
  lemma BlockApart(blocks: seq<Block>, j: nat)
    requires NoDup(Cells(blocks)) && j < |blocks|
    ensures NoDup(Cells(blocks[..j])) && NoDup(blocks[j].cells)
    ensures forall c :: c in blocks[j].cells ==> c !in Cells(blocks[..j])
  {
    CellsSplit(blocks, j);
    NoDupConcat(Cells(blocks[..j + 1]), Cells(blocks[j + 1..]));
    NoDupConcat(Cells(blocks[..j]), blocks[j].cells);
  }

  /** The free list holds exactly the unmarked cells, each once. */
  lemma {:induction false} FreeListElements(blocks: seq<Block>, m: set<Addr>)
    requires NoDup(Cells(blocks))
    ensures forall c :: c in FreeList(blocks, m) <==> c in Cells(blocks) && c !in m
    ensures NoDup(FreeList(blocks, m))
  {
    if blocks != [] {
      var j := |blocks| - 1;
      var rest, b := blocks[..j], blocks[j];
      BlockApart(blocks, j);
      CellsSplit(blocks, j);
      assert blocks[..j + 1] == blocks;
      FreeListElements(rest, m);
      PushedElements(b.cells, m);
      NoDupConcat(Pushed(b.cells, m), FreeList(rest, m));
    }
  }

  lemma {:induction false} PushedLength(cells: seq<Addr>, m: set<Addr>)
    ensures |Pushed(cells, m)| <= |cells|
    ensures |Pushed(cells, m)| == |cells| <==> forall c :: c in cells ==> c !in m
  {
    if cells != [] {
      var rest := cells[..|cells| - 1];
      PushedLength(rest, m);
      assert cells == rest + [cells[|cells| - 1]];
    }
  }

  // ----- the progress of a sweep -----

  /** The cells in `done` have been swept, those in `gone` no longer exist, the others are as in `h1`. */
  predicate Sweeping(head: map<Addr, Head>, h1: map<Addr, Head>, m: set<Addr>, done: set<Addr>, gone: set<Addr>) {
    && head.Keys == h1.Keys - gone
    && gone <= done
    && (forall c :: c in head && c !in done ==> head[c] == h1[c])
    && (forall c :: c in head && c in done && c in m ==> head[c] == Head(h1[c].link, false, false))
    && (forall c :: c in head && c in done && c !in m ==> !head[c].marked && !head[c].free)
  }

  /** Sweeping one more cell. */
  lemma SweepStep(head: map<Addr, Head>, h1: map<Addr, Head>, m: set<Addr>, done: set<Addr>, gone: set<Addr>, c: Addr, h: Head)
    requires Sweeping(head, h1, m, done, gone) && c in head && c !in done
    requires if c in m then h == Head(h1[c].link, false, false) else !h.marked && !h.free
    ensures Sweeping(head[c := h], h1, m, done + {c}, gone)
  {}

  /** The blocks kept among the first `j`. */
  function KeptSoFar(blocks: seq<Block>, m: set<Addr>, j: nat): seq<Block>
    requires j <= |blocks| && blocks != []
  {
    if j < |blocks| then UsedBlocks(blocks[..j], m) else Kept(blocks, m)
  }

  /** The cells of the blocks released among the first `j`. */
  function Gone(blocks: seq<Block>, m: set<Addr>, j: nat): set<Addr>
    requires j <= |blocks| && blocks != []
  {
    Minus(Cells(blocks[..j]), Cells(KeptSoFar(blocks, m, j)))
  }

  function Minus(all: seq<Addr>, kept: seq<Addr>): set<Addr> {
    SetOf(all) - SetOf(kept)
  }

  lemma MinusStep(all: seq<Addr>, kept: seq<Addr>, b: seq<Addr>)
    requires forall c :: c in kept ==> c in all
    requires forall c :: c in b ==> c !in all
    ensures SetOf(all + b) == SetOf(all) + SetOf(b)
    ensures Minus(all + b, kept + b) == Minus(all, kept)
    ensures Minus(all + b, kept) == Minus(all, kept) + SetOf(b)
  {
    assert forall c :: c in all + b <==> c in all || c in b;
    assert forall c :: c in kept + b <==> c in kept || c in b;
  }

  /** `a` has no cell twice, and only cells of `b`. */
  predicate SubCells(a: seq<Block>, b: seq<Block>) {
    NoDup(Cells(a)) && forall c :: c in Cells(a) ==> c in Cells(b)
  }

  lemma SubAppend(a: seq<Block>, b: seq<Block>, x: Block)
    requires NoDup(Cells(b + [x])) && SubCells(a, b)
    ensures SubCells(a + [x], b + [x]) && SubCells(a, b + [x])
  {
    CellsAppend(a, x);
    CellsAppend(b, x);
    NoDupConcat(Cells(b), x.cells);
    NoDupConcat(Cells(a), x.cells);
  }

  lemma NoDupPrefix(blocks: seq<Block>, j: nat)
    requires NoDup(Cells(blocks)) && j <= |blocks|
    ensures NoDup(Cells(blocks[..j]))
  {
    assert blocks == blocks[..j] + blocks[j..];
    CellsConcat(blocks[..j], blocks[j..]);
    NoDupConcat(Cells(blocks[..j]), Cells(blocks[j..]));
  }

  lemma {:induction false} UsedCells(blocks: seq<Block>, m: set<Addr>)
    requires NoDup(Cells(blocks))
    ensures SubCells(UsedBlocks(blocks, m), blocks)
  {
    if blocks != [] {
      var j := |blocks| - 1;
      var rest, b, used := blocks[..j], blocks[j], UsedBlocks(blocks[..j], m);
      assert blocks == rest + [b];
      NoDupPrefix(blocks, j);
      UsedCells(rest, m);
      SubAppend(used, rest, b);
      assert used + [] == used;
    }
  }

  lemma AllKept(blocks: seq<Block>, m: set<Addr>)
    requires NoDup(Cells(blocks)) && blocks != []
    ensures SubCells(Kept(blocks, m), blocks)
  {
    hide Cells, UsedBlocks;
    var n := |blocks| - 1;
    assert blocks == blocks[..n] + [blocks[n]];
    NoDupPrefix(blocks, n);
    UsedCells(blocks[..n], m);
    SubAppend(UsedBlocks(blocks[..n], m), blocks[..n], blocks[n]);
  }

  lemma KeptCells(blocks: seq<Block>, m: set<Addr>, j: nat)
    requires NoDup(Cells(blocks)) && j <= |blocks| && blocks != []
    ensures SubCells(KeptSoFar(blocks, m, j), blocks[..j])
  {
    if j < |blocks| {
      NoDupPrefix(blocks, j);
      UsedCells(blocks[..j], m);
    } else {
      AllKept(blocks, m);
      assert blocks[..j] == blocks;
    }
  }

  /** Whether block `j` stays. */
  predicate Stays(blocks: seq<Block>, m: set<Addr>, j: nat)
    requires j < |blocks|
  {
    j == |blocks| - 1 || InUse(blocks[j], m)
  }

  lemma KeptStep(blocks: seq<Block>, m: set<Addr>, j: nat)
    requires j < |blocks|
    ensures KeptSoFar(blocks, m, j + 1) ==
            if Stays(blocks, m, j) then KeptSoFar(blocks, m, j) + [blocks[j]] else KeptSoFar(blocks, m, j)
  {
    assert blocks[..j + 1][..j] == blocks[..j];
    if j + 1 < |blocks| && !Stays(blocks, m, j) {
      assert UsedBlocks(blocks[..j], m) + [] == UsedBlocks(blocks[..j], m);
    }
  }

  lemma GoneStep(blocks: seq<Block>, m: set<Addr>, j: nat)
    requires NoDup(Cells(blocks)) && j < |blocks|
    ensures SetOf(Cells(blocks[..j + 1])) == SetOf(Cells(blocks[..j])) + SetOf(blocks[j].cells)
    ensures Gone(blocks, m, j + 1) ==
            if Stays(blocks, m, j) then Gone(blocks, m, j) else Gone(blocks, m, j) + SetOf(blocks[j].cells)
  {
    var k, b := KeptSoFar(blocks, m, j), blocks[j];
    MinusStep(Cells(blocks[..j]), Cells(k), b.cells) by {
      KeptCells(blocks, m, j);
      BlockApart(blocks, j);
    }
    CellsSplit(blocks, j);
    CellsAppend(k, b);
    KeptStep(blocks, m, j);
  }

  /** Releasing a block of swept, unmarked cells. */
  lemma SweepRelease(head: map<Addr, Head>, h1: map<Addr, Head>, m: set<Addr>, done: set<Addr>, gone: set<Addr>, b: set<Addr>)
    requires Sweeping(head, h1, m, done, gone) && b <= done
    ensures Sweeping(head - b, h1, m, done, gone + b)
  {}

  /** Block `j` when its turn comes: none of its cells is swept yet, and the free list has only swept ones. */
  lemma BlockCells(blocks: seq<Block>, m: set<Addr>, j: nat)
    requires NoDup(Cells(blocks)) && j < |blocks|
    ensures NoDup(blocks[j].cells)
    ensures forall c :: c in blocks[j].cells ==> c in Cells(blocks) && c !in Cells(blocks[..j])
    ensures forall c :: c in FreeList(KeptSoFar(blocks, m, j), m) ==> c in Cells(blocks[..j])
  {
    BlockApart(blocks, j);
    CellsSplit(blocks, j);
    KeptCells(blocks, m, j);
    FreeListElements(KeptSoFar(blocks, m, j), m);
  }

  lemma FreeListAppend(kept: seq<Block>, b: Block, m: set<Addr>)
    ensures FreeList(kept + [b], m) == Pushed(b.cells, m) + FreeList(kept, m)
  {
    assert (kept + [b])[..|kept|] == kept;
  }

  /** The remaining blocks and the free list after block `j`. */
  lemma NextBlocks(blocks: seq<Block>, m: set<Addr>, j: nat)
    requires j < |blocks|
    ensures var kept, kept' := KeptSoFar(blocks, m, j), KeptSoFar(blocks, m, j + 1);
            var bs, i := kept + blocks[j..], |kept|;
            && bs[i] == blocks[j] && (i + 1 < |bs| <==> j + 1 < |blocks|)
            && kept' + blocks[j + 1..] == (if Stays(blocks, m, j) then bs else bs[..i] + bs[i + 1..])
            && |kept'| == (if Stays(blocks, m, j) then i + 1 else i)
            && FreeList(kept', m) ==
               (if Stays(blocks, m, j) then Pushed(blocks[j].cells, m) + FreeList(kept, m) else FreeList(kept, m))
  {
    hide KeptSoFar, Stays, Pushed, FreeList;
    KeptStep(blocks, m, j);
    FreeListAppend(KeptSoFar(blocks, m, j), blocks[j], m);
    var kept := KeptSoFar(blocks, m, j);
    assert blocks[j..] == [blocks[j]] + blocks[j + 1..];
    assert (kept + [blocks[j]])[..|kept|] == kept;
  }

  lemma StaysIff(blocks: seq<Block>, m: set<Addr>, j: nat)
    requires j < |blocks|
    ensures !Stays(blocks, m, j) <==> j + 1 < |blocks| && |Pushed(blocks[j].cells, m)| == |blocks[j].cells|
  {
    PushedLength(blocks[j].cells, m);
  }

  /** `h1` is `h0` with the second mark bit of the cells in `free` set. */
  predicate FreeMarked(h0: map<Addr, Head>, h1: map<Addr, Head>, free: seq<Addr>) {
    && h1.Keys == h0.Keys
    && forall c :: c in h0 ==> h1[c] == if c in free then h0[c].(free := true) else h0[c]
  }

  /** The mark bits a sweep starts from. */
  predicate Sweepable(h: map<Addr, Head>, m: set<Addr>, cells: seq<Addr>) {
    forall c :: c in cells ==> c in h && c != 0 && (h[c].marked <==> c in m) && (c in m ==> !h[c].free)
  }

  /** A sweep seen from before its free cells were marked. */
  lemma SweptFrom(h0: map<Addr, Head>, h1: map<Addr, Head>, head: map<Addr, Head>, m: set<Addr>, done: set<Addr>, gone: set<Addr>,
                  free: seq<Addr>)
    requires Sweeping(head, h1, m, done, gone) && FreeMarked(h0, h1, free)
    requires forall c :: c in free ==> c in done
    ensures Sweeping(head, h0, m, done, gone)
  {}

  /** An arena whose live cells are marked: `m` are the marked cells, `free` is the free list. */
  ghost predicate Ready(a: Arena, head: map<Addr, Head>, free: seq<Addr>, m: set<Addr>) {
    && ArenaOk(a, head, free)
    && (forall c :: c in Cells(a.blocks) ==> !head[c].free && (head[c].marked <==> c in m))
    && (forall c :: c in free ==> c !in m)
  }

  /** An arena does not notice what happens to other cells. */
  lemma ReadyFrame(a: Arena, h: map<Addr, Head>, h': map<Addr, Head>, free: seq<Addr>, m: set<Addr>)
    requires Ready(a, h, free, m)
    requires forall c :: c in Cells(a.blocks) ==> c in h' && h'[c] == h[c]
    ensures Ready(a, h', free, m)
  {
    ChainFrame(h, h', a.free, free);
  }

  /** A sweep of `a` ended as `Sweeping` says, with `a'` the arena after it. */
  ghost predicate SweptTo(a: Arena, a': Arena, h: map<Addr, Head>, h': map<Addr, Head>, m: set<Addr>)
    requires a.blocks != []
  {
    && a' == a.(blocks := Kept(a.blocks, m), free := a'.free)
    && Chain(h', a'.free, FreeList(a'.blocks, m))
    && Sweeping(h', h, m, SetOf(Cells(a.blocks)), Minus(Cells(a.blocks), Cells(a'.blocks)))
  }

  /** The swept arena is in order again: its free list holds exactly its unmarked cells. */
  lemma SweptOk(a: Arena, a': Arena, h: map<Addr, Head>, h': map<Addr, Head>, m: set<Addr>)
    requires a.blocks != [] && CellsOk(a, h) && SweptTo(a, a', h, h', m)
    ensures SubCells(a'.blocks, a.blocks)
    ensures ArenaOk(a', h', FreeList(a'.blocks, m))
    ensures forall c :: c in Cells(a'.blocks) ==> !h'[c].marked && !h'[c].free
    ensures forall c :: c in FreeList(a'.blocks, m) <==> c in Cells(a'.blocks) && c !in m
  {
    KeptCells(a.blocks, m, |a.blocks|);
    assert a.blocks[..|a.blocks|] == a.blocks;
    FreeListElements(a'.blocks, m);
  }

  /** No marked cell is released. */
  lemma {:induction false} UsedHoldMarked(blocks: seq<Block>, m: set<Addr>, c: Addr)
    requires c in Cells(blocks) && c in m
    ensures c in Cells(UsedBlocks(blocks, m))
  {
    var j := |blocks| - 1;
    var rest, b := blocks[..j], blocks[j];
    assert blocks == rest + [b];
    CellsAppend(rest, b);
    CellsAppend(UsedBlocks(rest, m), b);
    if c in b.cells {
      assert InUse(b, m);
    } else {
      UsedHoldMarked(rest, m, c);
      assert UsedBlocks(rest, m) + [] == UsedBlocks(rest, m);
    }
  }

  lemma KeptHoldMarked(blocks: seq<Block>, m: set<Addr>, c: Addr)
    requires blocks != [] && c in Cells(blocks) && c in m
    ensures c in Cells(Kept(blocks, m))
  {
    var j := |blocks| - 1;
    var rest, b := blocks[..j], blocks[j];
    assert blocks == rest + [b];
    CellsAppend(rest, b);
    CellsAppend(UsedBlocks(rest, m), b);
    if c !in b.cells {
      UsedHoldMarked(rest, m, c);
    }
  }

  /** A swept arena: its free list holds exactly the cells outside `m`, and no mark bit is set. */
  ghost predicate Clean(a: Arena, head: map<Addr, Head>, m: set<Addr>) {
    && ArenaOk(a, head, FreeList(a.blocks, m))
    && (forall c :: c in FreeList(a.blocks, m) <==> c in Cells(a.blocks) && c !in m)
    && (forall c :: c in Cells(a.blocks) ==> !head[c].marked && !head[c].free)
  }

  lemma CleanFrame(a: Arena, h: map<Addr, Head>, h': map<Addr, Head>, m: set<Addr>)
    requires Clean(a, h, m)
    requires forall c :: c in Cells(a.blocks) ==> c in h' && h'[c] == h[c]
    ensures Clean(a, h', m)
  {
    ChainFrame(h, h', a.free, FreeList(a.blocks, m));
  }

  /** What a sweep does to the words of all cells: `a` and `a'` are the arena before and after. */
  predicate SweptHeads(a: Arena, a': Arena, h: map<Addr, Head>, h': map<Addr, Head>, m: set<Addr>) {
    && h'.Keys <= h.Keys
    && (forall c :: c in h && c !in Cells(a.blocks) ==> c in h' && h'[c] == h[c])
    && (forall c :: c in h && c in Cells(a.blocks) && c in m ==> c in h' && h'[c].link == h[c].link)
    && (forall c :: c in h' && c in Cells(a.blocks) ==> c in Cells(a'.blocks))
  }

  lemma SweptClean(a: Arena, a': Arena, h: map<Addr, Head>, h': map<Addr, Head>, m: set<Addr>)
    requires a.blocks != [] && CellsOk(a, h) && SweptTo(a, a', h, h', m)
    ensures Clean(a', h', m) && SubCells(a'.blocks, a.blocks) && SweptHeads(a, a', h, h', m)
  {
    SweptOk(a, a', h, h', m);
    forall c | c in h && c in Cells(a.blocks) && c in m
      ensures c in h' && h'[c].link == h[c].link
    {
      KeptHoldMarked(a.blocks, m, c);
    }
  }

  // ----- allocation -----

  /** When an arena has that many free cells or fewer, a collection is scheduled. */
  const CELLS_RESERVE := 2

  /** The cells of a block that the allocator just provided: zeroed memory nobody else uses. */
  predicate FreshCells(a: Arena, head: map<Addr, Head>, cells: seq<Addr>) {
    && |cells| == a.increment && NoDup(cells)
    && (forall c :: c in cells ==> c != 0 && c !in head && c + a.cellSize < 0x1_0000_0000_0000)
    && (forall c, c' :: c in cells && c' in cells && c != c' ==> c + a.cellSize <= c' || c' + a.cellSize <= c)
    && (forall c, c' :: c in cells && c' in Cells(a.blocks) ==> c + a.cellSize <= c' || c' + a.cellSize <= c)
  }

  /** The words that hold values in the given cells. */
  function ValueWords(cells: seq<Addr>, words: seq<nat>): set<nat> {
    set c, w | c in cells && w in words :: c + w
  }

  /** The free list from which a cell is taken: a new block is added when there was none. */
  function Refilled(free: seq<Addr>, added: seq<Addr>): seq<Addr> {
    if free == [] then Pushed(added, {}) else free
  }

  lemma RefilledNonEmpty(a: Arena, free: seq<Addr>, added: seq<Addr>)
    requires free == [] ==> |added| > 0
    ensures Refilled(free, added) != []
  {
    PushedLength(added, {});
  }

  function RefilledBlocks(a: Arena, free: seq<Addr>, added: seq<Addr>): seq<Block> {
    if free == [] then [Block(added)] + a.blocks else a.blocks
  }

  /** Taking the first cell off the free list. */
  lemma TakeFirst(a: Arena, h: map<Addr, Head>, h': map<Addr, Head>, free: seq<Addr>)
    requires ArenaOk(a, h, free) && free != []
    requires free[0] in h && h' == h[free[0] := Head(0, false, false)]
    ensures ArenaOk(a.(free := h[free[0]].link), h', free[1..])
  {
    assert free[0] !in free[1..];
    ChainFrame(h, h', h[free[0]].link, free[1..]);
  }

  /** Adding a block of new cells to an arena whose free list is empty. */
  lemma AddBlock(a: Arena, h: map<Addr, Head>, h': map<Addr, Head>, added: seq<Addr>, first: Addr)
    requires ArenaOk(a, h, []) && FreshCells(a, h, added)
    requires forall c :: c in h ==> c in h' && h'[c] == h[c]
    requires forall c :: c in added ==> c in h'
    requires Chain(h', first, Pushed(added, {}))
    ensures ArenaOk(a.(blocks := [Block(added)] + a.blocks, free := first), h', Pushed(added, {}))
  {
    var bs := [Block(added)] + a.blocks;
    assert Cells(bs) == added + Cells(a.blocks);
    NoDupConcat(added, Cells(a.blocks));
    PushedElements(added, {});
  }

  /** The cells of a block before they are swept. */
  predicate Unswept(head: map<Addr, Head>, m: set<Addr>, done: set<Addr>, cells: seq<Addr>) {
    && NoDup(cells)
    && forall c :: c in cells ==>
         c in head && c !in done && c != 0 && (head[c].marked <==> c in m) && (c in m ==> !head[c].free)
  }

  /** Block `j` when its turn comes. */
  lemma BlockUnswept(blocks: seq<Block>, m: set<Addr>, j: nat, head: map<Addr, Head>, h1: map<Addr, Head>)
    requires NoDup(Cells(blocks)) && j < |blocks| && Sweepable(h1, m, Cells(blocks))
    requires Sweeping(head, h1, m, SetOf(Cells(blocks[..j])), Gone(blocks, m, j))
    ensures Unswept(head, m, SetOf(Cells(blocks[..j])), blocks[j].cells)
    ensures forall c :: c in FreeList(KeptSoFar(blocks, m, j), m) ==> c in SetOf(Cells(blocks[..j])) && c !in blocks[j].cells
  {
    BlockCells(blocks, m, j);
  }

  /** No mark bit is set in the given cells. */
  predicate Clear(head: map<Addr, Head>, cells: seq<Addr>) {
    forall c :: c in cells ==> c in head && !head[c].marked && !head[c].free
  }

  /** The words of the other cells are as before. */
  predicate HeadsKeptBut(h: map<Addr, Head>, h': map<Addr, Head>, r: Addr) {
    forall c :: c in h && c != r ==> c in h' && h'[c] == h[c]
  }

  /** The words of `cells` no longer count; all others keep their values, and those of `r` are zero. */
  predicate WordsZeroed(v: map<Addr, Value>, v': map<Addr, Value>, r: Addr, size: nat, added: set<nat>) {
    && (forall w :: w in v' && r <= w < r + size ==> v'[w] == ZERO)
    && (forall w :: w in v && !(r <= w < r + size) && w !in added ==> w in v' && v'[w] == v[w])
  }

  predicate WordsAdded(v: map<Addr, Value>, v': map<Addr, Value>, added: set<nat>) {
    forall w :: w in v && w !in added ==> w in v' && v'[w] == v[w]
  }

  /** The value words of the block that is added, if one is. */
  function AddedWords(a: Arena, free: seq<Addr>, added: seq<Addr>): set<nat> {
    if free == [] then ValueWords(added, a.words) else {}
  }

  /** The arena and the words of its cells after the first free cell `r` was taken. */
  lemma Taken(a: Arena, h: map<Addr, Head>, list: seq<Addr>, v: map<Addr, Value>, v1: map<Addr, Value>, v2: map<Addr, Value>,
              h0: map<Addr, Head>, added: set<nat>)
    requires ArenaOk(a, h, list) && list != [] && Clear(h, Cells(a.blocks))
    requires forall c :: c in h0 ==> c in h && h[c] == h0[c]
    requires WordsAdded(v, v1, added) && v2.Keys == v1.Keys
    requires forall w :: w in v1 ==> v2[w] == if list[0] <= w < list[0] + a.cellSize then ZERO else v1[w]
    ensures list[0] == a.free && list[0] in h && !h[list[0]].marked && !h[list[0]].free
    ensures var h' := h[list[0] := Head(0, false, false)];
            && ArenaOk(a.(free := h[list[0]].link), h', list[1..])
            && Clear(h', Cells(a.blocks)) && Clear(h', list[1..])
            && HeadsKeptBut(h0, h', list[0]) && h'.Keys == h.Keys
    ensures WordsZeroed(v, v2, list[0], a.cellSize, added)
  {
    var h' := h[list[0] := Head(0, false, false)];
    TakeFirst(a, h, h', list);
  }

  lemma FirstFree(a: Arena, h: map<Addr, Head>, list: seq<Addr>)
    requires ArenaOk(a, h, list) && list != []
    ensures list[0] == a.free
  {}

  lemma FreeChain(a: Arena, h: map<Addr, Head>, list: seq<Addr>)
    requires ArenaOk(a, h, list)
    ensures Chain(h, a.free, list)
  {}

  lemma RefilledSome(a: Arena, head: map<Addr, Head>, free: seq<Addr>, added: seq<Addr>)
    requires a.increment > 0 && (free == [] ==> FreshCells(a, head, added))
    ensures Refilled(free, added) != []
  {
    RefilledNonEmpty(a, free, added);
  }

  lemma SweepStart(blocks: seq<Block>, head: map<Addr, Head>, m: set<Addr>)
    requires blocks != []
    ensures KeptSoFar(blocks, m, 0) == [] && blocks[0..] == blocks
    ensures Sweeping(head, head, m, SetOf(Cells(blocks[..0])), Gone(blocks, m, 0))
    ensures Chain(head, 0, FreeList(KeptSoFar(blocks, m, 0), m))
  {
    assert blocks[..0] == [];
  }

  lemma BlockInCells(blocks: seq<Block>, j: nat)
    requires j < |blocks|
    ensures forall c :: c in blocks[j].cells ==> c in Cells(blocks)
  {
    CellsAround(blocks, j);
  }
}
