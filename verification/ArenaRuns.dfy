/** One arena over any run of initialisation, allocations and collections. */
module ArenaRuns {
  import opened Values
  import opened ArenaLayout
  import opened HeapLayout
  import opened Collector

  /** What every operation keeps: the free list is a chain without duplicates inside the blocks, every cell is
      either on it or in use, and no mark bit is set. `initial` is the block that was there first. */
  ghost predicate Settled(head: map<Addr, Head>, a: Arena, free: seq<Addr>, inUse: set<Addr>, initial: Block) {
    ArenaOk(a, head, free) && Clear(head, Cells(a.blocks)) && a.increment > 0
    && Partition(Cells(a.blocks), free, inUse) && a.blocks[|a.blocks| - 1] == initial
  }

  ghost predicate Partition(cells: seq<Addr>, free: seq<Addr>, inUse: set<Addr>) {
    (forall c :: c in cells <==> c in free || c in inUse) && (forall c :: c in free ==> c !in inUse)
  }

  /** `gc_arena_init`: one block, all of it free. */
  method ArenaInit(mjs: Mjs, cells: seq<Addr>, cellSize: nat, increment: nat, words: seq<nat>)
    returns (a: Arena, ghost free: seq<Addr>)
    requires increment > 0 && FreshCells(Arena([], 0, |cells|, cellSize, words), mjs.head, cells)
    requires forall w :: w in words ==> 0 < w < cellSize
    modifies mjs`head, mjs`val
    ensures Settled(mjs.head, a, free, {}, Block(cells))
    ensures a == Arena([Block(cells)], a.free, increment, cellSize, words)
    ensures mjs.head.Keys == old(mjs.head).Keys + SetOf(cells)
    ensures forall c :: c in old(mjs.head) ==> mjs.head[c] == old(mjs.head)[c]
    ensures forall w :: w in old(mjs.val) && w !in ValueWords(cells, words) ==> w in mjs.val && mjs.val[w] == old(mjs.val)[w]
  {
    hide Settled;
    ghost var h0 := mjs.head;
    var top := mjs.GcNewBlock(cells, words, 0, []);
    a := Arena([Block(cells)], top, increment, cellSize, words);
    free := Pushed(cells, {});
    assert free + [] == free;
    InitIsSettled(h0, mjs.head, a, free, cells);
  }

  lemma InitIsSettled(h0: map<Addr, Head>, head: map<Addr, Head>, a: Arena, free: seq<Addr>, cells: seq<Addr>)
    requires a.blocks == [Block(cells)] && a.increment > 0 && forall w :: w in a.words ==> 0 < w < a.cellSize
    requires FreshCells(Arena([], 0, |cells|, a.cellSize, a.words), h0, cells) && free == Pushed(cells, {})
    requires Chain(head, a.free, free) && Clear(head, cells)
    ensures Settled(head, a, free, {}, Block(cells))
  {
    hide Chain;
    PushedElements(cells, {});
    assert Cells(a.blocks) == cells + Cells([]) == cells;
  }

  /** Allocation gives out a cell that was not in use, zeroed, and nothing else comes into use. */
  method AllocTurn(mjs: Mjs, a: Arena, added: seq<Addr>, ghost free: seq<Addr>, ghost inUse: set<Addr>, ghost initial: Block)
    returns (r: Addr, a': Arena, ghost free': seq<Addr>)
    requires Settled(mjs.head, a, free, inUse, initial)
    requires free == [] ==> FreshCells(a, mjs.head, added)
    modifies mjs`head, mjs`val
    ensures r !in inUse && Settled(mjs.head, a', free', inUse + {r}, initial)
    ensures WordsZeroed(old(mjs.val), mjs.val, r, a.cellSize, AddedWords(a, free, added))
    ensures forall c :: c in inUse ==> c in mjs.head && mjs.head[c] == old(mjs.head[c])
  {
    hide ArenaOk, Clear, FreshCells, AddedWords, WordsZeroed, Cells;
    UsedHaveHeads(mjs.head, a, free, inUse);
    ghost var was := Refilled(free, added);
    RefilledPartition(mjs.head, a, free, added, inUse);
    var needGc;
    r, a', needGc := mjs.GcAllocCell(a, added, free);
    free' := was[1..];
    TakeFromPartition(Cells(a'.blocks), was, inUse);
  }

  lemma UsedHaveHeads(head: map<Addr, Head>, a: Arena, free: seq<Addr>, inUse: set<Addr>)
    requires ArenaOk(a, head, free) && Partition(Cells(a.blocks), free, inUse)
    ensures forall c :: c in inUse ==> c in head
  {}

  /** A block that is added comes whole onto the free list. */
  lemma RefilledPartition(head: map<Addr, Head>, a: Arena, free: seq<Addr>, added: seq<Addr>, inUse: set<Addr>)
    requires ArenaOk(a, head, free) && Partition(Cells(a.blocks), free, inUse)
    requires free == [] ==> FreshCells(a, head, added)
    ensures Partition(Cells(RefilledBlocks(a, free, added)), Refilled(free, added), inUse)
    ensures NoDup(Refilled(free, added))
    ensures var blocks := RefilledBlocks(a, free, added); blocks != [] && blocks[|blocks| - 1] == a.blocks[|a.blocks| - 1]
  {
    if free == [] {
      PushedElements(added, {});
      var blocks := RefilledBlocks(a, free, added);
      assert blocks[0].cells == added && blocks[1..] == a.blocks;
      assert Cells(blocks) == added + Cells(a.blocks);
      UsedHaveHeads(head, a, free, inUse);
    }
  }

  lemma TakeFromPartition(cells: seq<Addr>, free: seq<Addr>, inUse: set<Addr>)
    requires Partition(cells, free, inUse) && NoDup(free) && free != []
    ensures free[0] !in inUse && Partition(cells, free[1..], inUse + {free[0]})
  {
    assert free == [free[0]] + free[1..];
  }

  /** From `h0` to `head` marking has set the first mark bit of the cells of `a` in `live`, and nothing else there. */
  ghost predicate MarkedFrom(h0: map<Addr, Head>, head: map<Addr, Head>, a: Arena, live: set<Addr>) {
    forall c :: c in Cells(a.blocks) ==> c in h0 && c in head && head[c] == h0[c].(marked := c in live)
  }

  /** A sweep after marking the cells `live` leaves exactly these in use. Blocks may go, but the initial one
      stays, and no cell of a block that has gone is on the free list. */
  method SweepTurn(mjs: Mjs, ghost h0: map<Addr, Head>, a: Arena, ghost live: set<Addr>, ghost free: seq<Addr>,
                   ghost inUse: set<Addr>, ghost initial: Block) returns (a': Arena, ghost free': seq<Addr>)
    requires Settled(h0, a, free, inUse, initial) && live <= inUse && MarkedFrom(h0, mjs.head, a, live)
    modifies mjs`head, mjs`val
    ensures Settled(mjs.head, a', free', live, initial) && OnlyFreed(a, a', live)
    ensures WordsKept(old(mjs.val), mjs.val, a, live)
  {
    hide ArenaOk, Clear, Cells, WordsKept, Ready, Clean, Settled, MarkedFrom, OnlyFreed;
    MarkedIsReady(h0, mjs.head, a, free, inUse, initial, live);
    a' := mjs.GcSweep(a, live, free);
    free' := FreeList(a'.blocks, live);
    CleanIsSettled(h0, mjs.head, a, a', free, inUse, initial, live);
  }

  lemma MarkedIsReady(h0: map<Addr, Head>, head: map<Addr, Head>, a: Arena, free: seq<Addr>, inUse: set<Addr>, initial: Block,
                      live: set<Addr>)
    requires Settled(h0, a, free, inUse, initial) && live <= inUse && MarkedFrom(h0, head, a, live)
    ensures Ready(a, head, free, live)
  {
    ChainFrame(h0, head, a.free, free);
  }

  lemma CleanIsSettled(h0: map<Addr, Head>, head: map<Addr, Head>, a: Arena, a': Arena, free: seq<Addr>, inUse: set<Addr>,
                       initial: Block, live: set<Addr>)
    requires Settled(h0, a, free, inUse, initial) && live <= inUse
    requires Clean(a', head, live) && OnlyFreed(a, a', live)
    ensures Settled(head, a', FreeList(a'.blocks, live), live, initial)
  {
    hide ArenaOk;
    forall c | c in live
      ensures c in Cells(a'.blocks)
    {
      KeptHoldMarked(a.blocks, live, c);
    }
    CellsHaveHeads(a', head, FreeList(a'.blocks, live));
  }

  lemma CellsHaveHeads(a: Arena, head: map<Addr, Head>, free: seq<Addr>)
    requires ArenaOk(a, head, free)
    ensures a.blocks != [] && forall c :: c in Cells(a.blocks) ==> c in head
  {}
}
