/** The collector itself: marking, compaction, sweeping and allocation on the memory of one engine. */
module Collector {
  import opened Varint
  import opened Values
  import opened StringLayout
  import opened StringCompaction
  import opened HeapGraph
  import opened ArenaLayout
  import opened HeapLayout
  import opened Liveness

  class Mjs {
    /** The first word of every cell of the three arenas. */
    var head: map<Addr, Head>

    /** The owned-string buffer. */
    var owned: seq<Byte>
    /** Every memory word that holds a value, by address. */
    var val: map<Addr, Value>

    var objectArena: Arena
    var propertyArena: Arena
    var ffiSigArena: Arena

    // The roots, as addresses of the slots that hold them: the interpreter's own values, the values C code
    // registered, the scope, data and call stacks, and the functions and user data of pending callbacks.
    var vals: seq<Addr>
    var ownedValues: seq<Addr>
    var scopes: seq<Addr>
    var stack: seq<Addr>
    var callStack: seq<Addr>
    var ffiCbArgs: seq<(Addr, Addr)>

    ghost var objectFree: seq<Addr>
    ghost var propertyFree: seq<Addr>
    ghost var ffiSigFree: seq<Addr>

    /** The strings of the buffer, and the slots threaded onto each while a collection runs. */
    ghost var chunks: seq<Chunk>
    /** The values when the running collection started. */
    ghost var val0: map<Addr, Value>

    /** The buffer and the values are in the state that marking builds up. */
    ghost predicate StringsThreaded()
      reads `owned, `val, `val0, `chunks
    {
      Threaded(owned, val, val0, chunks)
    }

    /** The graph being collected, its cells' first words, and the cells marked so far. */
    ghost var graph: Graph
    ghost var head0: map<Addr, Head>
    ghost var marks: set<Addr>

    ghost function Slots(): iset<Addr>
      reads `chunks
    {
      iset a: Addr | Threads(chunks, a)
    }

    /** The state of the heap while marking: `stack` are the objects under way, `s` bounds what is marked. */
    ghost predicate InMark(stack: set<Addr>, s: set<Addr>)
      reads this
    {
      && GraphOk(graph) && HeadsOk(graph, head0)
      && StringsThreaded() && val0 == graph.at && StringsKnown(graph, s, chunks)
      && MarkBits(head, head0, marks)
      && Marking(graph, marks, Slots(), stack, s)
    }

    /** What `gc_mark` on a slot may do. */
    twostate predicate Marked(s: set<Addr>, stack: set<Addr>, a: Addr)
      reads this
    {
      && InMark(stack, s)
      && graph == old(graph) && head0 == old(head0) && val0 == old(val0)
      && SameStrings(old(chunks), chunks)
      && Grows(graph, old(marks), old(Slots()), marks, Slots())
      && a in graph.at && SlotDone(graph, marks, Slots(), a)
    }

    /** `gc_mark_string` on the slot at address `v`, which refers to chunk `i`. */
    method GcMarkString(v: Addr, ghost i: nat)
      requires StringsThreaded() && i < |chunks|
      requires v in val && val[v] == Value(StringO, Offset(chunks, i))
      modifies `owned, `val, `chunks
      ensures StringsThreaded() && SameStrings(old(chunks), chunks)
      ensures forall a :: Threads(chunks, a) <==> old(Threads(chunks, a)) || a == v
      ensures val == old(val)[v := val[v]] && val[v].tag in {StringC, Foreign}
    {
      hide Threaded, Threads, Image, ToBytes, FromBytes, AllSized;
      ThreadStep(owned, val, val0, chunks, i, v);
      ThreadsMore(chunks, i, v);
      var s := val[v].payload;
      var tmp := FromBytes(owned[s..s + 6]);
      MarkThenSteal(owned, s, ToBytes(v, 6));
      var tag := if owned[s - 1] == 0 then StringC else Foreign;
      var buf := owned[s - 1 := 1];
      buf := buf[..s] + ToBytes(v, 6) + buf[s + 6..];
      owned, val, chunks := buf, val[v := Value(tag, tmp)], Thread(chunks, i, v);
    }

    /** `gc_mark_ffi_sig`. */
    method GcMarkFfiSig(v: Addr, ghost stack: set<Addr>, ghost s: set<Addr>)
      requires InMark(stack, s) && SlotWithin(graph, s, v) && SlotOk(graph, v) && Follows(graph, s, v)
      requires IsFfiSig(graph.at[v]) && val[v] == graph.at[v]
      modifies `head, `marks
      ensures Marked(s, stack, v)
    {
      var psig: Addr := val[v].payload;
      if head[psig].marked {
        return;
      }
      MarkSig(graph, marks, Slots(), stack, s, psig);
      head := head[psig := head[psig].(marked := true)];
      marks := marks + {psig};
    }

    /** `gc_mark`. A slot that was threaded before no longer holds an owned string and is left alone. */
    method GcMark(v: Addr, ghost stack: set<Addr>, ghost s: set<Addr>)
      requires InMark(stack, s) && SlotWithin(graph, s, v) && SlotOk(graph, v) && Follows(graph, s, v)
      modifies `head, `owned, `val, `chunks, `marks
      ensures Marked(s, stack, v)
      decreases graph.objects - marks, 1
    {
      SlotNow(v, stack, s);
      if IsObject(val[v]) {
        GcMarkObject(v, stack, s);
      } else if IsFfiSig(val[v]) {
        GcMarkFfiSig(v, stack, s);
      } else if val[v].tag == StringO {
        ThreadSlot(v, stack, s);
      }
    }

    /** `gc_mark` on a slot with an owned string that is not threaded yet. */
    method ThreadSlot(v: Addr, ghost stack: set<Addr>, ghost s: set<Addr>)
      requires InMark(stack, s) && SlotWithin(graph, s, v) && SlotOk(graph, v) && Follows(graph, s, v)
      requires IsOwnedString(graph.at[v]) && v in val && val[v] == graph.at[v]
      modifies `owned, `val, `chunks
      ensures Marked(s, stack, v)
    {
      hide HeadsOk, MarkBits, Marking, Grows, AllLinked, AllFrom, Untouched, Owned;
      MarkString(graph, marks, Slots(), stack, s, v);
      ghost var i :| 0 <= i < |chunks| && val[v].payload == Offset(chunks, i);
      GcMarkString(v, i);
      assert Slots() == old(Slots()) + iset{v};
      StringsStayKnown(graph, s, old(chunks), chunks);
    }

    /** Before it is visited a slot has its old value; afterwards it may be threaded. */
    lemma SlotNow(v: Addr, stack: set<Addr>, s: set<Addr>)
      requires InMark(stack, s) && v in graph.at
      ensures v in val
      ensures Threads(chunks, v) ==> val[v].tag in {StringC, Foreign} && IsOwnedString(graph.at[v])
      ensures !Threads(chunks, v) ==> val[v] == graph.at[v]
    {
      if Threads(chunks, v) {
        var i :| 0 <= i < |chunks| && v in chunks[i].chain;
        LinkedTags(val, chunks[i].chain, chunks[i].str, v);
      }
    }

    /** `gc_mark_object`. */
    method GcMarkObject(v: Addr, ghost stack: set<Addr>, ghost s: set<Addr>)
      requires InMark(stack, s) && SlotWithin(graph, s, v) && SlotOk(graph, v) && Follows(graph, s, v)
      requires IsObject(graph.at[v]) && v in val && val[v] == graph.at[v]
      modifies `head, `owned, `val, `chunks, `marks
      ensures Marked(s, stack, v)
      decreases graph.objects - marks, 0
    {
      hide Marking, Tracing, Threaded, Owned;
      var o: Addr := val[v].payload;
      if head[o].marked {
        GrowsRefl(graph, marks, Slots());
        return;
      }
      TracingStart(graph, marks, Slots(), stack, s, o);
      var first := Pointer(head[o]);
      head := head[o := head[o].(marked := true)];
      marks := marks + {o};
      GcMarkProperties(first, o, old(marks), old(Slots()), stack + {o}, s);
      TracingEnd(graph, old(marks), old(Slots()), marks, Slots(), stack, s, o);
    }

    /** The loop of `gc_mark_object` over the properties of `o`. */
    method GcMarkProperties(first: Addr, ghost o: Addr, ghost m0: set<Addr>, ghost t0: iset<Addr>,
                            ghost stack: set<Addr>, ghost s: set<Addr>)
      requires InMark(stack, s) && o in stack && o in graph.objects
      requires Tracing(graph, m0, t0, marks, Slots(), o, 0) && Chain(head0, first, graph.props[o])
      modifies `head, `owned, `val, `chunks, `marks
      ensures graph == old(graph) && head0 == old(head0) && val0 == old(val0) && SameStrings(old(chunks), chunks)
      ensures InMark(stack, s)
      ensures Tracing(graph, m0, t0, marks, Slots(), o, |graph.props[o]|)
      decreases graph.objects - marks, 3
    {
      ghost var ps := graph.props[o];
      ghost var i := 0;
      var prop := first;
      assert ps[0..] == ps;
      while prop != 0
        invariant graph == old(graph) && head0 == old(head0) && val0 == old(val0) && SameStrings(old(chunks), chunks)
        invariant InMark(stack, s) && old(marks) <= marks
        invariant Tracing(graph, m0, t0, marks, Slots(), o, i)
        invariant Chain(head0, prop, ps[i..])
        decreases |ps| - i
      {
        ghost var m, t := marks, Slots();
        assert prop == ps[i] && ps[i..][1..] == ps[i + 1..];
        prop := GcMarkProperty(prop, o, stack, s);
        TracingStep(graph, m0, t0, m, t, marks, Slots(), o, i);
        i := i + 1;
      }
    }

    /** One round of the loop of `gc_mark_object`; returns the next property. */
    method GcMarkProperty(prop: Addr, ghost o: Addr, ghost stack: set<Addr>, ghost s: set<Addr>) returns (next: Addr)
      requires InMark(stack, s) && o in graph.objects && o in stack && prop in graph.props[o]
      requires prop in head && prop !in marks
      modifies `head, `owned, `val, `chunks, `marks
      ensures graph == old(graph) && head0 == old(head0) && val0 == old(val0) && SameStrings(old(chunks), chunks)
      ensures InMark(stack, s)
      ensures GrowsFor(graph, old(marks), old(Slots()), marks, Slots(), o, prop)
      ensures PropertyOk(graph, prop) && PropertyDone(graph, marks, Slots(), prop)
      ensures next == head0[prop].link
      decreases graph.objects - marks, 2
    {
      PropertySlots(graph, marks, Slots(), stack, s, o, prop);
      GcMark(NameSlot(prop), stack, s);
      ghost var m, t := marks, Slots();
      GcMark(ValueSlot(prop), stack, s);
      next := Pointer(head[prop]);
      SetMark(prop, o, old(marks), old(Slots()), m, t, stack, s);
    }

    /** The property's own mark, after its name and its value. */
    method SetMark(prop: Addr, ghost o: Addr, ghost m0: set<Addr>, ghost t0: iset<Addr>, ghost m: set<Addr>, ghost t: iset<Addr>,
                   ghost stack: set<Addr>, ghost s: set<Addr>)
      requires InMark(stack, s) && o in graph.objects && o in stack && prop in graph.props[o] && prop in head
      requires PropertyOk(graph, prop)
      requires Grows(graph, m0, t0, m, t) && Grows(graph, m, t, marks, Slots())
      requires SlotDone(graph, m, t, NameSlot(prop)) && SlotDone(graph, marks, Slots(), ValueSlot(prop))
      modifies `head, `marks
      ensures InMark(stack, s)
      ensures GrowsFor(graph, m0, t0, marks, Slots(), o, prop)
      ensures PropertyDone(graph, marks, Slots(), prop)
    {
      hide Threaded, StringsKnown, HeadsOk, GraphOk, Grows, GrowsFor, Marking, PropertyDone, SlotDone;
      PropertyStep(graph, m0, t0, m, t, marks, Slots(), stack, s, o, prop);
      head := head[prop := head[prop].(marked := true)];
      marks := marks + {prop};
    }

    ghost function AllArenas(): Arenas
      reads `objectArena, `propertyArena, `ffiSigArena, `objectFree, `propertyFree, `ffiSigFree
    {
      Arenas(objectArena, propertyArena, ffiSigArena, objectFree, propertyFree, ffiSigFree)
    }

    /** The invariant between collections. */
    ghost predicate HeapOk()
      reads this
    {
      HeapReady(graph, val, head, SetOf(RootSlots()), owned, chunks, AllArenas())
    }

    /** `gc_mark_val_array`: values lying one behind the other, given by their addresses. */
    method GcMarkValArray(slots: seq<Addr>, ghost s: set<Addr>)
      requires InMark({}, s) && RootsWithin(slots, s)
      modifies `head, `owned, `val, `chunks, `marks
      ensures RootsMarked(s, slots)
    {
      for k := 0 to |slots|
        invariant RootsMarked(s, slots[..k])
        invariant RootsWithin(slots, s)
      {
        ghost var m, t := marks, Slots();
        GcMark(slots[k], {}, s);
        RootsStay(m, t, slots[..k]);
        assert slots[..k + 1] == slots[..k] + [slots[k]];
      }
      assert slots[..|slots|] == slots;
    }

    /** `gc_mark_ffi_cbargs_list`. */
    method GcMarkFfiCbArgs(args: seq<(Addr, Addr)>, ghost s: set<Addr>)
      requires InMark({}, s) && RootsWithin(Flatten(args), s)
      modifies `head, `owned, `val, `chunks, `marks
      ensures RootsMarked(s, Flatten(args))
    {
      for k := 0 to |args|
        invariant RootsMarked(s, Flatten(args[..k]))
      {
        FlattenElements(args, k);
        ghost var m, t := marks, Slots();
        GcMark(args[k].0, {}, s);
        GcMark(args[k].1, {}, s);
        RootsStay(m, t, Flatten(args[..k]));
      }
      assert args[..|args|] == args;
    }

    /** The marking of `mjs_gc`: every root it walks, in its order. */
    method MarkRoots(ghost s: set<Addr>)
      requires InMark({}, s) && RootsWithin(RootSlots(), s)
      modifies `head, `owned, `val, `chunks, `marks
      ensures RootsMarked(s, RootSlots())
    {
      hide Threaded, StringsKnown, HeadsOk, GraphOk, Marking, MarkBits, SlotDone;
      GcMarkValArray(vals, s);
      ghost var m, t := marks, Slots();
      GcMarkValArray(ownedValues, s);
      RootsStay(m, t, vals);
      m, t := marks, Slots();
      GcMarkValArray(scopes, s);
      RootsStay(m, t, vals + ownedValues);
      m, t := marks, Slots();
      GcMarkValArray(stack, s);
      RootsStay(m, t, vals + ownedValues + scopes);
      m, t := marks, Slots();
      GcMarkValArray(callStack, s);
      RootsStay(m, t, vals + ownedValues + scopes + stack);
      m, t := marks, Slots();
      GcMarkFfiCbArgs(ffiCbArgs, s);
      RootsStay(m, t, vals + ownedValues + scopes + stack + callStack);
    }

    /** The roots of a collection, one by one. */
    lemma RootWords(a: Addr)
      requires HeapOk()
      ensures a in graph.roots
          <==> a in vals || a in ownedValues || a in scopes || a in stack || a in callStack
               || exists pair :: pair in ffiCbArgs && (a == pair.0 || a == pair.1)
    {
      hide GraphOk, HeadsOk, StringsReady, ArenasReady;
      Flattened(ffiCbArgs, a);
    }

    function RootSlots(): seq<Addr>
      reads `vals, `ownedValues, `scopes, `stack, `callStack, `ffiCbArgs
    {
      vals + ownedValues + scopes + stack + callStack + Flatten(ffiCbArgs)
    }

    /** `slots` are among the roots. */
    ghost predicate RootsWithin(slots: seq<Addr>, s: set<Addr>)
      requires GraphOk(graph)
      reads this
    {
      forall a :: a in slots ==> a in graph.roots && SlotOk(graph, a) && Follows(graph, s, a)
    }

    ghost predicate RootsDone(slots: seq<Addr>)
      requires GraphOk(graph)
      reads this
    {
      forall a :: a in slots ==> a in graph.at && SlotDone(graph, marks, Slots(), a)
    }

    twostate predicate RootsMarked(s: set<Addr>, slots: seq<Addr>)
      reads this
    {
      && InMark({}, s)
      && graph == old(graph) && head0 == old(head0) && val0 == old(val0)
      && SameStrings(old(chunks), chunks)
      && old(marks) <= marks && old(Slots()) <= Slots()
      && RootsDone(slots)
    }

    lemma RootsStay(m: set<Addr>, t: iset<Addr>, slots: seq<Addr>)
      requires GraphOk(graph) && m <= marks && t <= Slots()
      requires forall a :: a in slots ==> a in graph.at && SlotDone(graph, m, t, a)
      ensures RootsDone(slots)
    {}

    /** The inner loop of `gc_compact_strings`: follows the chain that starts at `h`, points every slot on
        it at `head`, and returns the bytes saved in the last one. */
    method Unthread(first: Addr, head: nat, ghost chain: seq<Addr>, ghost str: seq<Byte>) returns (saved: nat)
      requires Sized(str) && Linked(val, chain, str) && chain != [] && first == chain[0]
      modifies `val
      ensures SetAll(old(val), val, chain, Value(StringO, head))
      ensures saved == FromBytes(Body(str)[..6])
    {
      var h := Value(Untagged, first);
      ghost var rem := chain;
      while h.tag != StringC
        invariant Linked(old(val), rem, str)
        invariant if rem == [] then h == Value(StringC, FromBytes(Body(str)[..6]))
                  else h.tag != StringC && h.payload == rem[0]
        invariant forall a :: a in rem ==> a in chain
        invariant val.Keys == old(val).Keys
        invariant forall a :: a in val ==> val[a] == if a in chain && a !in rem then Value(StringO, head) else old(val)[a]
        decreases |rem|
      {
        assert h.payload == rem[0];
        var slot: Addr := h.payload;
        var next := val[slot];
        val := val[slot := Value(StringO, head)];
        h := next;
        rem := rem[1..];
      }
      saved := h.payload;
    }

    /** `gc_compact_strings`. */
    method GcCompactStrings()
      requires StringsThreaded()
      modifies `owned, `val
      ensures owned == Image(Packed(chunks))
      ensures Relocated(val, val0, chunks, |chunks|)
    {
      RelocateStart(owned, val, val0, chunks);
      CompactStart(chunks);
      var head := CompactAll();
      CompactEnd(owned, chunks, |chunks|, |owned|, head);
      owned := owned[..head];
    }

    /** The outer loop of `gc_compact_strings`. */
    method CompactAll() returns (head: nat)
      requires AllSized(chunks) && AllFrom(val0, chunks)
      requires 1 <= |owned| && Compacting(owned, chunks, 0, 1, 1) && Relocated(val, val0, chunks, 0)
      modifies `owned, `val
      ensures Compacting(owned, chunks, |chunks|, |owned|, head)
      ensures Relocated(val, val0, chunks, |chunks|)
    {
      hide *;
      var p: nat := 1;
      head := 1;
      ghost var i := 0;
      while p < |owned|
        invariant i <= |chunks| && p <= |owned| && Compacting(owned, chunks, i, p, head)
        invariant Relocated(val, val0, chunks, i)
        decreases |owned| - p
      {
        p, head := CompactOne(i, p, head);
        i := i + 1;
      }
      CompactEnd(owned, chunks, i, p, head);
    }

    /** One round of the outer loop of `gc_compact_strings`, at chunk `i`. */
    method CompactOne(ghost i: nat, p: nat, head: nat) returns (p': nat, head': nat)
      requires AllSized(chunks) && AllFrom(val0, chunks)
      requires Compacting(owned, chunks, i, p, head) && p < |owned|
      requires Relocated(val, val0, chunks, i)
      modifies `owned, `val
      ensures i < |chunks| && Compacting(owned, chunks, i + 1, p', head')
      ensures Relocated(val, val0, chunks, i + 1)
      ensures |owned| == old(|owned|) && p < p' <= |owned|
    {
      hide Relocated, AllFrom, AllSized, Live;
      MarkTells(owned, chunks, i, p, head);
      if owned[p - 1] == 1 {
        p', head' := CompactLiveOne(i, p, head);
      } else {
        p', head' := CompactDeadOne(i, p, head);
      }
    }

    /** The branch of a string without a mark: it is passed over. */
    method CompactDeadOne(ghost i: nat, p: nat, head: nat) returns (p': nat, head': nat)
      requires AllSized(chunks) && AllFrom(val0, chunks)
      requires Compacting(owned, chunks, i, p, head) && i < |chunks| && !Live(chunks[i])
      requires Relocated(val, val0, chunks, i)
      ensures Compacting(owned, chunks, i + 1, p', head')
      ensures Relocated(val, val0, chunks, i + 1)
      ensures p < p'
    {
      hide Image, Relocated, Pieces, Piece, AllFrom;
      CompactDead(owned, chunks, i, p, head);
      RelocateStep(val, val, val0, chunks, i);
      DecodeHere(owned, p, chunks[i].str, Image(chunks[i + 1..]));
      var n, llen := DecodeAt(owned[p..]);
      p', head' := p + n + llen + 1, head;
    }

    /** The branch of a marked string. */
    method CompactLiveOne(ghost i: nat, p: nat, head: nat) returns (p': nat, head': nat)
      requires AllSized(chunks) && AllFrom(val0, chunks)
      requires Compacting(owned, chunks, i, p, head) && i < |chunks| && Live(chunks[i])
      requires Relocated(val, val0, chunks, i)
      modifies `owned, `val
      ensures Compacting(owned, chunks, i + 1, p', head')
      ensures Relocated(val, val0, chunks, i + 1)
      ensures |owned| == old(|owned|) && p < p'
    {
      hide Compacting, Tail, Front, Relocated, Packing, Packed, Image, Pieces, Piece, Body, AllFrom, AllSized,
        Untouched, Moved, Pending, FromBytes, ToBytes, Linked, Sized, Offset, NewOffset;
      LiveRound(owned, chunks, i, p, head, val, val0);
      ghost var cs, o, str := chunks, owned, chunks[i].str;
      var h := UnthreadChunk(FromBytes(owned[p..p + 6]), head, i);
      assert chunks == cs && owned == o;
      p', head' := Relocate(str, h, p, head);
      assert owned == Packing(o, head, p, Body(str));
    }

    /** Points the slots of chunk `i` at `head`. */
    method UnthreadChunk(first: Addr, head: nat, ghost i: nat) returns (h: nat)
      requires AllSized(chunks) && AllFrom(val0, chunks) && i < |chunks| && Live(chunks[i])
      requires Relocated(val, val0, chunks, i) && first == chunks[i].chain[0] && head == NewOffset(chunks, i)
      modifies `val
      ensures Relocated(val, val0, chunks, i + 1)
      ensures Sized(chunks[i].str) && h == FromBytes(Body(chunks[i].str)[..6])
    {
      hide Relocated, AllFrom, AllSized, Untouched, Moved, Pending, FromBytes, Linked, Sized, NewOffset, Body, SetAll;
      PendingHere(val, val0, chunks, i);
      h := Unthread(first, head, chunks[i].chain, chunks[i].str);
      RelocateStep(old(val), val, val0, chunks, i);
    }

    /** Restores the six bytes `h` of the string at `p` and slides it left to `head`. */
    method Relocate(ghost str: seq<Byte>, h: nat, p: nat, head: nat) returns (p': nat, head': nat)
      requires Sized(str) && h == FromBytes(Body(str)[..6])
      requires 1 <= head <= p && p + |Body(str)| + 1 <= |owned|
      modifies `owned
      ensures owned == Packing(old(owned), head, p, Body(str))
      ensures p' == p + |Body(str)| + 1 && head' == head + |Body(str)| + 1
    {
      Saved6(str, h);
      var six := ToBytes(h, 6);
      var n, llen := DecodeAt(six + [0, 0]);
      var len := n + llen + 1;
      owned := Slide(owned[..p] + six + owned[p + 6..], head, p, len);
      p', head' := p + len, head + len;
    }

    /** The loop of `gc_sweep` over the cells of one block. */
    method SweepCells(cells: seq<Addr>, first: Addr, size: nat, ghost acc: seq<Addr>,
                      ghost h1: map<Addr, Head>, ghost m: set<Addr>, ghost done: set<Addr>, ghost gone: set<Addr>)
      returns (free: Addr, freed: nat)
      requires Unswept(head, m, done, cells) && Sweeping(head, h1, m, done, gone)
      requires Chain(head, first, acc) && forall c :: c in acc ==> c in done
      modifies `head, `val
      ensures Sweeping(head, h1, m, done + SetOf(cells), gone)
      ensures Chain(head, free, Pushed(cells, m) + acc) && Chain(head, first, acc)
      ensures freed == |Pushed(cells, m)|
      ensures WordsOf(old(val), val, cells, m, size)
      ensures OnlyZeroed(old(val), val) && Wiped(val, h1, m, SetOf(cells), size)
    {
      free, freed := first, 0;
      assert cells[..0] == [] && [] + acc == acc;
      for k := 0 to |cells|
        invariant Sweeping(head, h1, m, done + SetOf(cells[..k]), gone)
        invariant Chain(head, free, Pushed(cells[..k], m) + acc) && Chain(head, first, acc)
        invariant freed == |Pushed(cells[..k], m)|
        invariant val.Keys == old(val).Keys
        invariant forall a :: a in val && !InDead(cells, m, size, a) ==> val[a] == old(val)[a]
        invariant OnlyZeroed(old(val), val) && Wiped(val, h1, m, SetOf(cells[..k]), size)
      {
        ghost var v, h := val, head;
        OneMore(cells, m, done, k);
        PushedMore(cells, m, acc, k);
        var pushed;
        free, pushed := SweepCell(cells[k], free, size, Pushed(cells[..k], m) + acc, first, acc,
                                  h1, m, done + SetOf(cells[..k]), gone);
        freed := if pushed then freed + 1 else freed;
        WipedCell(v, val, h, h1, m, cells, k, done, size);
      }
      assert cells[..|cells|] == cells;
    }

    /** `gc_sweep` at cell `cur`; returns the new head of the free list. */
    method SweepCell(cur: Addr, free: Addr, size: nat, ghost list: seq<Addr>, ghost prev: Addr, ghost acc: seq<Addr>,
                     ghost h1: map<Addr, Head>, ghost m: set<Addr>, ghost done: set<Addr>, ghost gone: set<Addr>)
      returns (free': Addr, pushed: bool)
      requires Sweeping(head, h1, m, done, gone)
      requires cur in head && cur !in done && cur != 0 && (head[cur].marked <==> cur in m)
      requires head[cur].marked ==> !head[cur].free
      requires Chain(head, free, list) && Chain(head, prev, acc)
      requires forall c :: c in list || c in acc ==> c in done
      modifies `head, `val
      ensures Sweeping(head, h1, m, done + {cur}, gone)
      ensures pushed == (cur !in m)
      ensures Chain(head, free', if cur in m then list else [cur] + list)
      ensures cur in m ==> val == old(val)
      ensures Chain(head, prev, acc)
      ensures val.Keys == old(val).Keys
      ensures forall a :: a in val && !(cur < a < cur + size) ==> val[a] == old(val)[a]
      ensures OnlyZeroed(old(val), val) && Wiped(val, old(head), m, {cur}, size)
    {
      ghost var h0 := head;
      free', pushed := free, false;
      if head[cur].marked {
        head := head[cur := head[cur].(marked := false)];
      } else {
        if head[cur].free {
          head := head[cur := head[cur].(free := false)];
        } else {
          head := head[cur := Head(0, false, false)];
          val := map a | a in val :: if cur < a < cur + size then ZERO else val[a];
        }
        head := head[cur := head[cur].(link := free)];
        free', pushed := cur, true;
      }
      SweepStep(h0, h1, m, done, gone, cur, head[cur]);
      assert head == h0[cur := head[cur]];
      ChainFrame(h0, head, free, list);
      ChainFrame(h0, head, prev, acc);
    }

    /** The first loop of `gc_sweep`: sets the second mark bit of every cell of the free list. */
    method MarkFreeCells(first: Addr, ghost free: seq<Addr>)
      requires Chain(head, first, free) && NoDup(free)
      requires forall c :: c in free ==> c in head && !head[c].marked && !head[c].free
      modifies `head
      ensures FreeMarked(old(head), head, free)
    {
      var cur := first;
      ghost var k := 0;
      assert free[0..] == free;
      while cur != 0
        invariant k <= |free| && Chain(old(head), cur, free[k..])
        invariant FreeMarked(old(head), head, free[..k])
        decreases |free| - k
      {
        assert cur == free[k] && cur !in free[..k] && free[..k + 1] == free[..k] + [cur] && free[k..][1..] == free[k + 1..];
        var next := Pointer(head[cur]);
        head := head[cur := head[cur].(free := true)];
        cur := next;
        k := k + 1;
      }
      assert free[..k] == free;
    }

    /** Gives a block back: its cells and the words inside them cease to exist. */
    method GcFreeBlock(b: Block, size: nat)
      modifies `head, `val
      ensures head == old(head) - SetOf(b.cells)
      ensures val.Keys <= old(val).Keys
      ensures forall a :: a in old(val) && !(exists c :: c in b.cells && c < a < c + size) ==> a in val && val[a] == old(val)[a]
      ensures forall a :: a in val ==> val[a] == old(val)[a]
    {
      head := head - SetOf(b.cells);
      val := map a | a in val && !(exists c :: c in b.cells && c < a < c + size) :: val[a];
    }

    /** `gc_sweep`, with `m` the marked cells and `free` the free list. */
    method GcSweep(a: Arena, ghost m: set<Addr>, ghost free: seq<Addr>) returns (a': Arena)
      requires Ready(a, head, free, m)
      modifies `head, `val
      ensures Clean(a', head, m) && OnlyFreed(a, a', m) && SweptHeads(a, a', old(head), head, m)
      ensures WordsKept(old(val), val, a, m) && GarbageZeroed(val, a, m, free)
    {
      hide Wiped, GarbageZeroed, Ready, FreeMarked, Sweepable, Chain, FreeList, Sweeping, Gone, Kept, Clean, OnlyFreed, SweptHeads, NoDup, Cells, InDead,
        WordsOf;
      ReadyFree(a, head, free, m);
      MarkFreeCells(a.free, free);
      ghost var h1 := head;
      FreeMarkedSweepable(a, old(head), h1, m, free);
      var bs, first := SweepBlocks(a.blocks, a.cellSize, m);
      a' := a.(blocks := bs, free := first);
      SweepResult(a, a', old(head), h1, head, m, free);
      WipedIsGarbage(val, old(head), h1, a, m, free);
    }

    /** The loop of `gc_sweep` over the blocks. */
    method SweepBlocks(blocks: seq<Block>, size: nat, ghost m: set<Addr>) returns (bs: seq<Block>, first: Addr)
      requires blocks != [] && NoDup(Cells(blocks)) && Sweepable(head, m, Cells(blocks))
      modifies `head, `val
      ensures bs == Kept(blocks, m) && Chain(head, first, FreeList(bs, m))
      ensures Sweeping(head, old(head), m, SetOf(Cells(blocks)), Gone(blocks, m, |blocks|))
      ensures WordsOf(old(val), val, Cells(blocks), m, size)
      ensures Wiped(val, old(head), m, SetOf(Cells(blocks)), size)
    {
      hide Wiped, OnlyZeroed, Kept, NoDup, Cells, Sweepable, Chain, FreeList, Sweeping, Gone, UsedBlocks, SetOf, InDead;
      ghost var j := 0;
      bs, first := blocks, 0;
      var i := 0;
      SweepStart(blocks, head, m);
      NothingWiped(val, head, m, blocks, size);
      while i < |bs|
        invariant j <= |blocks| && bs == KeptSoFar(blocks, m, j) + blocks[j..] && i == |KeptSoFar(blocks, m, j)|
        invariant Sweeping(head, old(head), m, SetOf(Cells(blocks[..j])), Gone(blocks, m, j))
        invariant Chain(head, first, FreeList(KeptSoFar(blocks, m, j), m))
        invariant WordsOf(old(val), val, Cells(blocks), m, size)
        invariant Wiped(val, old(head), m, SetOf(Cells(blocks[..j])), size)
        decreases |blocks| - j
      {
        ghost var v := val;
        bs, i, first := SweepBlock(bs, i, first, size, blocks, j, old(head), m);
        BlockInCells(blocks, j);
        WordsOfMore(old(val), v, val, Cells(blocks), blocks[j].cells, m, size);
        WipedBlock(v, val, old(head), m, blocks, j, size);
        j := j + 1;
      }
      assert blocks[..j] == blocks && blocks[j..] == [];
    }

    /** One round of the loop of `gc_sweep` over the blocks: block `i` of the remaining blocks `bs`, which
        was block `j` of the arena's `blocks`. */
    method SweepBlock(bs: seq<Block>, i: nat, first: Addr, size: nat,
                      ghost blocks: seq<Block>, ghost j: nat, ghost h1: map<Addr, Head>, ghost m: set<Addr>)
      returns (bs': seq<Block>, i': nat, free: Addr)
      requires NoDup(Cells(blocks)) && j < |blocks|
      requires bs == KeptSoFar(blocks, m, j) + blocks[j..] && i == |KeptSoFar(blocks, m, j)|
      requires Sweeping(head, h1, m, SetOf(Cells(blocks[..j])), Gone(blocks, m, j))
      requires Sweepable(h1, m, Cells(blocks))
      requires Chain(head, first, FreeList(KeptSoFar(blocks, m, j), m))
      modifies `head, `val
      ensures bs' == KeptSoFar(blocks, m, j + 1) + blocks[j + 1..] && i' == |KeptSoFar(blocks, m, j + 1)|
      ensures Sweeping(head, h1, m, SetOf(Cells(blocks[..j + 1])), Gone(blocks, m, j + 1))
      ensures Chain(head, free, FreeList(KeptSoFar(blocks, m, j + 1), m))
      ensures WordsOf(old(val), val, blocks[j].cells, m, size)
      ensures OnlyZeroed(old(val), val) && Wiped(val, h1, m, SetOf(blocks[j].cells), size)
    {
      hide *;
      BlockUnswept(blocks, m, j, head, h1);
      NextBlocks(blocks, m, j);
      StaysIff(blocks, m, j);
      ghost var kept, kept' := KeptSoFar(blocks, m, j), KeptSoFar(blocks, m, j + 1);
      GoneStep(blocks, m, j);
      PushedLength(blocks[j].cells, m);
      var b := bs[i];
      ghost var list, done, gone := FreeList(kept, m), SetOf(Cells(blocks[..j])), Gone(blocks, m, j);
      var freed;
      free, freed := SweepCells(b.cells, first, size, list, h1, m, done, gone);
      if i + 1 < |bs| && freed == |b.cells| {
        bs', i', free := bs[..i] + bs[i + 1..], i, first;
        ghost var v := val;
        ReleaseBlock(b, size, first, list, h1, m, done + SetOf(b.cells), gone);
        WordsOfMore(old(val), v, val, b.cells, b.cells, m, size);
        StaysWiped(v, val, h1, m, SetOf(b.cells), size);
        OnlyZeroedTwice(old(val), v, val);
      } else {
        bs', i' := bs, i + 1;
      }
    }

    /** Gives a swept block without marked cells back, and with it the part of the free list it added. */
    method ReleaseBlock(b: Block, size: nat, first: Addr, ghost list: seq<Addr>,
                        ghost h1: map<Addr, Head>, ghost m: set<Addr>, ghost done: set<Addr>, ghost gone: set<Addr>)
      requires Sweeping(head, h1, m, done, gone) && SetOf(b.cells) <= done
      requires Chain(head, first, list) && forall c :: c in list ==> c !in b.cells
      requires forall c :: c in b.cells ==> c !in m
      modifies `head, `val
      ensures Sweeping(head, h1, m, done, gone + SetOf(b.cells))
      ensures Chain(head, first, list)
      ensures WordsOf(old(val), val, b.cells, m, size) && OnlyZeroed(old(val), val)
    {
      GcFreeBlock(b, size);
      SweepRelease(old(head), h1, m, done, gone, SetOf(b.cells));
      ChainFrame(old(head), head, first, list);
    }

    /** The heap with everything reachable, the cells `s`, marked. */
    ghost predicate AllMarked(s: set<Addr>)
      reads this
    {
      && GraphOk(graph) && IsReachableSet(graph, s) && RootClosed(graph, s) && s <= GraphCells(graph)
      && StringsThreaded() && val0 == graph.at && ThreadsWithin(graph, s, chunks)
      && MarkBits(head, head0, s)
    }

    /** The marking phase of `mjs_gc`. */
    method MarkPhase() returns (ghost s: set<Addr>)
      requires GraphReady(graph, val, head, SetOf(RootSlots())) && StringsReady(graph, owned, chunks)
      modifies `head, `owned, `val, `chunks, `marks, `val0, `head0
      ensures AllMarked(s)
      ensures val0 == old(val) && head0 == old(head) && SameStrings(old(chunks), chunks)
    {
      hide RootSlots, HeadsOk, StringsKnown, Threaded;
      s := ReachableSet(graph);
      val0, head0, marks := val, head, {};
      StartInMark(s);
      MarkRoots(s);
      MarkedIsReachable(graph, marks, Slots(), s);
    }

    /** Nothing is marked yet. */
    lemma StartInMark(s: set<Addr>)
      requires GraphReady(graph, val, head, SetOf(RootSlots())) && StringsReady(graph, owned, chunks) && val0 == val && head0 == head && marks == {}
      requires RootClosed(graph, s)
      ensures InMark({}, s) && RootsWithin(RootSlots(), s)
    {
      StartStrings(owned, val, chunks);
      StartMarking(graph, s);
      StartKnown(graph, s, chunks);
      assert Slots() == iset{};
    }

    /** The three sweeps of `mjs_gc`; `m` are the marked cells. */
    method SweepPhase(ghost m: set<Addr>)
      requires ReadyAll(AllArenas(), head, m)
      modifies `head, `val, `objectArena, `propertyArena, `ffiSigArena, `objectFree, `propertyFree, `ffiSigFree
      ensures SweptAll(old(AllArenas()), AllArenas(), old(head), head, m)
      ensures WordsKeptAll(old(val), val, old(objectArena), old(propertyArena), old(ffiSigArena), m)
    {
      hide Ready, Clean, OnlyFreed, SweptHeads, WordsKept, WordsKeptAll, LinksKept, CellsOf, Disjoint, FreeList;
      ghost var o0, p0, f0, h0 := objectArena, propertyArena, ffiSigArena, head;
      ghost var h1, v1;
      var o, p;
      o, p, h1, v1 := SweepTwo(m);
      ghost var h2, v2 := head, val;
      var f := GcSweep(ffiSigArena, m, ffiSigFree);
      CleanAcross(f0, f, o0, o, h2, head, m);
      CleanAcross(f0, f, p0, p, h2, head, m);
      CellsAcross(h0, h1, h2, head, m, o0, p0, f0, o, p, f);
      WordsKeptTwice(old(val), v1, v2, val, o0, p0, f0, m);
      objectArena, propertyArena, ffiSigArena := o, p, f;
      objectFree, propertyFree, ffiSigFree := FreeList(o.blocks, m), FreeList(p.blocks, m), FreeList(f.blocks, m);
    }

    /** The sweeps of the objects and of the properties. */
    method SweepTwo(ghost m: set<Addr>) returns (o: Arena, p: Arena, ghost h1: map<Addr, Head>, ghost v1: map<Addr, Value>)
      requires ReadyAll(AllArenas(), head, m)
      modifies `head, `val
      ensures Clean(o, head, m) && Clean(p, head, m) && Ready(ffiSigArena, head, ffiSigFree, m)
      ensures OnlyFreed(objectArena, o, m) && OnlyFreed(propertyArena, p, m)
      ensures SweptHeads(objectArena, o, old(head), h1, m)
      ensures SweptHeads(propertyArena, p, h1, head, m)
      ensures WordsKept(old(val), v1, objectArena, m) && WordsKept(v1, val, propertyArena, m)
    {
      hide Ready, Clean, OnlyFreed, SweptHeads, WordsKept, CellsOf, Disjoint;
      ghost var h0 := head;
      o := GcSweep(objectArena, m, objectFree);
      h1, v1 := head, val;
      ReadyAcross(objectArena, o, propertyArena, h0, h1, propertyFree, m);
      ReadyAcross(objectArena, o, ffiSigArena, h0, h1, ffiSigFree, m);
      p := GcSweep(propertyArena, m, propertyFree);
      CleanAcross(propertyArena, p, objectArena, o, h1, head, m);
      ReadyAcross(propertyArena, p, ffiSigArena, h1, head, ffiSigFree, m);
    }

    /** The compaction of `mjs_gc`; `c0` are the strings before the collection. */
    method CompactPhase(ghost s: set<Addr>, ghost c0: seq<Chunk>)
      requires AllMarked(s) && AllSized(c0) && SameStrings(c0, chunks) && Unthreaded(c0)
      modifies `owned, `val, `chunks
      ensures AllSized(chunks) && Unthreaded(chunks) && owned == Image(chunks)
      ensures Kept3(graph, s, Image(c0), owned, val) && KnownAt(graph, s, val, chunks)
      ensures StringsKept(graph, s, c0, chunks)
    {
      GcCompactStrings();
      ghost var t := chunks;
      CompactedSlots(graph, s, val, t);
      CompactedMeanings(graph, s, val, c0, t);
      CompactedOrder(graph, s, val, t);
      CompactedKnown(graph, s, val, t);
      LiveReferenced(graph, s, c0, t);
      chunks := Packed(t);
    }

    /** `mjs_gc`. Afterwards exactly the cells reachable from the roots are left, `live`: their objects have
        the same properties in the same order, every slot means what it meant, and the buffer holds exactly
        the strings these slots refer to. Every other cell is on a free list or in a released block. */
    method MjsGc() returns (ghost live: set<Addr>)
      requires HeapOk()
      modifies `head, `owned, `val, `chunks, `marks, `val0, `head0, `graph
      modifies `objectArena, `propertyArena, `ffiSigArena, `objectFree, `propertyFree, `ffiSigFree
      ensures HeapOk()
      ensures IsReachableSet(old(graph), live) && graph == Survivors(old(graph), live, val)
      ensures Kept3(old(graph), live, old(owned), owned, val)
      ensures StringsKept(old(graph), live, old(chunks), chunks)
      ensures OnlyFreed(old(objectArena), objectArena, live) && OnlyFreed(old(propertyArena), propertyArena, live)
      ensures OnlyFreed(old(ffiSigArena), ffiSigArena, live)
      ensures FreeIsDead(objectArena, objectFree, live) && FreeIsDead(propertyArena, propertyFree, live)
      ensures FreeIsDead(ffiSigArena, ffiSigFree, live)
      ensures LeastTraced(old(graph), live) && WordsMean(old(graph), live, old(owned), owned, val)
    {
      hide ReadyAll, SweptAll, Kept3, KnownAt, StringsKept, WordsKeptAll, AllSized, Unthreaded, Image,
        GraphReady, StringsReady, ArenasReady, RootClosed, MarkBits, IsReachableSet, FreeIsDead, OnlyFreed, Survivors, GraphOk,
        RootSlots, LeastTraced, WordsMean;
      ghost var g, h0, o0, r, a, w := graph, head, owned, SetOf(RootSlots()), AllArenas(), val;
      live := MarkAndCompact();
      ghost var v, h1 := val, head;
      SweepPhase(live);
      ReadyKeys(g, w, h0, r);
      graph := Survivors(g, live, val);
      Conclude(g, h0, r, a, live, o0, w, v, val, head, h1, owned, chunks, AllArenas());
      ReachableIsTraced(g, live);
      KeptWords(g, live, o0, owned, val);
    }

    /** The first half of `mjs_gc`. */
    method MarkAndCompact() returns (ghost live: set<Addr>)
      requires HeapOk()
      modifies `head, `owned, `val, `chunks, `marks, `val0, `head0
      ensures IsReachableSet(graph, live) && RootClosed(graph, live) && MarkBits(head, old(head), live)
      ensures AllSized(chunks) && Unthreaded(chunks) && owned == Image(chunks)
      ensures Kept3(graph, live, old(owned), owned, val) && KnownAt(graph, live, val, chunks)
      ensures StringsKept(graph, live, old(chunks), chunks)
      ensures ReadyAll(AllArenas(), head, live)
    {
      hide Kept3, KnownAt, StringsKept, ReadyAll, GraphReady, StringsReady, ArenasReady, RootClosed, IsReachableSet, MarkBits;
      ghost var c0, h0, a := chunks, head, AllArenas();
      ReadyStrings(graph, owned, chunks);
      live := MarkPhase();
      CompactPhase(live, c0);
      ReadyArenas(graph, h0, a, live, head);
    }

    // ----- allocation -----

    /** The zeroed memory of a new block. */
    method Calloc(cells: seq<Addr>, words: seq<nat>)
      requires forall c :: c in cells ==> c !in head
      requires forall a :: a in ValueWords(cells, words) ==> a < 0x1_0000_0000_0000
      modifies `head, `val
      ensures head.Keys == old(head).Keys + SetOf(cells)
      ensures forall c :: c in old(head) ==> head[c] == old(head)[c]
      ensures forall c :: c in cells ==> head[c] == Head(0, false, false)
      ensures forall a :: a in old(val) && a !in ValueWords(cells, words) ==> a in val && val[a] == old(val)[a]
      ensures forall a :: a in ValueWords(cells, words) ==> a in val && val[a] == ZERO
    {
      head := head + map c | c in cells :: Head(0, false, false);
      var ws := ValueWords(cells, words);
      val := val + map a: Addr | a in ws :: ZERO;
    }

    /** `gc_new_block`: pushes the zeroed cells of a new block onto the free list, first to last. */
    method GcNewBlock(cells: seq<Addr>, words: seq<nat>, first: Addr, ghost free: seq<Addr>) returns (top: Addr)
      requires NoDup(cells) && Chain(head, first, free)
      requires forall c :: c in cells ==> c != 0 && c !in head
      requires forall a :: a in ValueWords(cells, words) ==> a < 0x1_0000_0000_0000
      modifies `head, `val
      ensures head.Keys == old(head).Keys + SetOf(cells)
      ensures forall c :: c in old(head) ==> head[c] == old(head)[c]
      ensures forall c :: c in cells ==> !head[c].marked && !head[c].free
      ensures Chain(head, top, Pushed(cells, {}) + free)
      ensures forall a :: a in old(val) && a !in ValueWords(cells, words) ==> a in val && val[a] == old(val)[a]
      ensures forall a :: a in ValueWords(cells, words) ==> a in val && val[a] == ZERO
    {
      forall c | c in free
        ensures c in head && c !in cells
      {
        ChainIn(head, first, free, c);
      }
      Calloc(cells, words);
      ChainFrame(old(head), head, first, free);
      top := PushCells(cells, first, free);
    }

    /** The loop of `gc_new_block`. */
    method PushCells(cells: seq<Addr>, first: Addr, ghost free: seq<Addr>) returns (top: Addr)
      requires NoDup(cells) && Chain(head, first, free)
      requires forall c :: c in cells ==> c != 0 && c in head && c !in free && !head[c].marked && !head[c].free
      modifies `head
      ensures head.Keys == old(head).Keys
      ensures forall c :: c in head && c !in cells ==> head[c] == old(head)[c]
      ensures forall c :: c in cells ==> !head[c].marked && !head[c].free
      ensures Chain(head, top, Pushed(cells, {}) + free)
    {
      top := first;
      assert cells[..0] == [] && [] + free == free;
      hide Chain, NoDup, Pushed;
      for k := 0 to |cells|
        invariant head.Keys == old(head).Keys
        invariant forall c :: c in head && c !in cells ==> head[c] == old(head)[c]
        invariant forall c :: c in cells ==> !head[c].marked && !head[c].free
        invariant Chain(head, top, Pushed(cells[..k], {}) + free)
      {
        top := PushCell(cells, k, top, free);
      }
      assert cells[..|cells|] == cells;
    }

    /** Pushes cell `k` of a new block. */
    method PushCell(cells: seq<Addr>, k: nat, first: Addr, ghost free: seq<Addr>) returns (top: Addr)
      requires k < |cells| && NoDup(cells) && cells[k] in head && cells[k] != 0
      requires Chain(head, first, Pushed(cells[..k], {}) + free) && cells[k] !in free
      modifies `head
      ensures head == old(head)[cells[k] := old(head)[cells[k]].(link := first)]
      ensures top == cells[k] && Chain(head, top, Pushed(cells[..k + 1], {}) + free)
    {
      OneMore(cells, {}, {}, k);
      PushedMore(cells, {}, free, k);
      head := head[cells[k] := head[cells[k]].(link := first)];
      top := cells[k];
      ChainFrame(old(head), head, first, Pushed(cells[..k], {}) + free);
    }

    /** `gc_arena_is_gc_needed`: follows the free list for at most three links. */
    method ArenaIsGcNeeded(a: Arena, ghost free: seq<Addr>) returns (needed: bool)
      requires Chain(head, a.free, free) && Clear(head, free)
      ensures needed <==> |free| <= CELLS_RESERVE
    {
      var r, i := a.free, 0;
      assert free[0..] == free;
      while i <= CELLS_RESERVE
        invariant 0 <= i <= CELLS_RESERVE + 1 && i <= |free| && Chain(head, r, free[i..])
        decreases CELLS_RESERVE + 1 - i
      {
        if r == 0 {
          return true;
        }
        assert free[i..][1..] == free[i + 1..] && r == free[i];
        i, r := i + 1, Pointer(head[r]);
      }
      needed := false;
    }

    /** The first step of `gc_alloc_cell`: an arena without a free cell gets a new block. */
    method Refill(a: Arena, added: seq<Addr>, ghost free: seq<Addr>) returns (a': Arena)
      requires ArenaOk(a, head, free) && Clear(head, Cells(a.blocks))
      requires free == [] ==> FreshCells(a, head, added)
      modifies `head, `val
      ensures a' == a.(blocks := RefilledBlocks(a, free, added), free := a'.free)
      ensures ArenaOk(a', head, Refilled(free, added)) && Clear(head, Cells(a'.blocks))
      ensures head.Keys == old(head).Keys + (if free == [] then SetOf(added) else {})
      ensures forall c :: c in old(head) ==> c in head && head[c] == old(head)[c]
      ensures WordsAdded(old(val), val, AddedWords(a, free, added))
    {
      a' := a;
      if a.free == 0 {
        var top := GcNewBlock(added, a.words, a.free, free);
        assert Pushed(added, {}) + free == Pushed(added, {});
        AddBlock(a, old(head), head, added, top);
        a' := a.(blocks := [Block(added)] + a.blocks, free := top);
        assert Cells(a'.blocks) == added + Cells(a.blocks);
      }
    }

    /** `gc_alloc_cell`; `added` are the cells of the block the allocator provides if one is needed. The cell
        returned was free or is new, and is zeroed; the free list loses it and nothing else changes. */
    method GcAllocCell(a: Arena, added: seq<Addr>, ghost free: seq<Addr>) returns (r: Addr, a': Arena, needGc: bool)
      requires ArenaOk(a, head, free) && Clear(head, Cells(a.blocks)) && a.increment > 0
      requires free == [] ==> FreshCells(a, head, added)
      modifies `head, `val
      ensures Refilled(free, added) != [] && r == Refilled(free, added)[0]
      ensures a' == a.(blocks := RefilledBlocks(a, free, added), free := a'.free)
      ensures ArenaOk(a', head, Refilled(free, added)[1..]) && Clear(head, Cells(a'.blocks))
      ensures head.Keys == old(head).Keys + (if free == [] then SetOf(added) else {})
      ensures HeadsKeptBut(old(head), head, r) && r in head && head[r] == Head(0, false, false)
      ensures WordsZeroed(old(val), val, r, a.cellSize, AddedWords(a, free, added))
      ensures needGc <==> |Refilled(free, added)| <= CELLS_RESERVE + 1
    {
      hide ArenaOk, Clear, FreshCells, Refilled, WordsAdded, WordsZeroed, AddedWords, HeadsKeptBut, Chain, NoDup, Cells;
      RefilledSome(a, head, free, added);
      a' := Refill(a, added, free);
      ghost var list, h, v1 := Refilled(free, added), head, val;
      var size := a.cellSize;
      val := map w | w in val :: if a'.free <= w < a'.free + size then ZERO else val[w];
      assert list[0] == a'.free by {
        FirstFree(a', head, list);
      }
      Taken(a', h, list, old(val), v1, val, old(head), AddedWords(a, free, added));
      r := a'.free;
      var link := Pointer(head[r]);
      head := head[r := Head(0, false, false)];
      a' := a'.(free := link);
      FreeChain(a', head, list[1..]);
      needGc := ArenaIsGcNeeded(a', list[1..]);
    }
  }
}
