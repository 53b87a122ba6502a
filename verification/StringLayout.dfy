/** The owned-string buffer: one zero byte, then for every string its varint length, its bytes and a
    terminator. While a collection runs, the byte before a string doubles as its mark, and the first six
    bytes of a marked string hold the address of the last slot threaded onto it. */
module StringLayout {
  import opened Varint
  import opened Values
  import opened Sequences

  /** A string of the buffer, with the slots threaded onto it, latest first. */
  datatype Chunk = Chunk(str: seq<Byte>, chain: seq<Addr>)

  /** Owned strings have at least six bytes (shorter ones are stored inside the value), and their chunk
      length is an `int`. */
  predicate Sized(str: seq<Byte>) {
    6 <= |str| && |str| + 6 <= INT_MAX
  }

  predicate AllSized(chunks: seq<Chunk>) {
    forall i :: 0 <= i < |chunks| ==> Sized(chunks[i].str)
  }

  /** What is stored for a string, without its terminator. */
  function Body(str: seq<Byte>): (b: seq<Byte>)
    ensures |b| >= |str| + 1
  {
    Encode(|str|) + str
  }

  /** The mark byte of a chunk and its body, with the first six bytes taken over by the chain. */
  function Piece(c: Chunk): (b: seq<Byte>)
    requires Sized(c.str)
    ensures |b| == 1 + |Body(c.str)|
  {
    if c.chain == [] then [0] + Body(c.str) else [1] + ToBytes(c.chain[0], 6) + Body(c.str)[6..]
  }

  function Pieces(chunks: seq<Chunk>): seq<Byte>
    requires AllSized(chunks)
  {
    if chunks == [] then [] else Piece(chunks[0]) + Pieces(chunks[1..])
  }

  /** The whole buffer. */
  function Image(chunks: seq<Chunk>): seq<Byte>
    requires AllSized(chunks)
  {
    Pieces(chunks) + [0]
  }

  /** Where the first byte of chunk `i` lies. */
  function Offset(chunks: seq<Chunk>, i: nat): nat
    requires AllSized(chunks) && i <= |chunks|
  {
    |Pieces(chunks[..i])| + 1
  }

  lemma {:induction false} PiecesConcat(a: seq<Chunk>, b: seq<Chunk>)
    requires AllSized(a) && AllSized(b)
    ensures Pieces(a + b) == Pieces(a) + Pieces(b)
  {
    hide Piece, Sized;
    if a == [] {
      assert a + b == b && [] + Pieces(b) == Pieces(b);
    } else {
      assert (a + b)[1..] == a[1..] + b && (a + b)[0] == a[0];
      PiecesConcat(a[1..], b);
      assert Piece(a[0]) + (Pieces(a[1..]) + Pieces(b)) == (Piece(a[0]) + Pieces(a[1..])) + Pieces(b);
    }
  }

  /** For each string its length, its bytes and a zero. */
  function Records(chunks: seq<Chunk>): seq<Byte> {
    if chunks == [] then [] else Encode(|chunks[0].str|) + chunks[0].str + [0] + Records(chunks[1..])
  }

  /** Outside collections a buffer is a zero and the strings, each with a terminator, which is also the mark byte of
      the string behind it. */
  lemma {:induction false} Terminated(chunks: seq<Chunk>)
    requires AllSized(chunks) && forall i :: 0 <= i < |chunks| ==> chunks[i].chain == []
    ensures Image(chunks) == [0] + Records(chunks)
  {
    hide Sized;
    if chunks != [] {
      var c, rest := chunks[0], chunks[1..];
      Terminated(rest);
      var body := Encode(|c.str|) + c.str;
      assert Piece(c) == [0] + body;
      calc {
        Image(chunks);
        ([0] + body + Pieces(rest)) + [0];
        { Assoc([0] + body, Pieces(rest), [0]); }
        [0] + body + Image(rest);
        { Assoc([0] + body, [0], Records(rest)); Assoc([0], body, [0]); }
        [0] + (body + [0]) + Records(rest);
        { Assoc([0], body + [0], Records(rest)); }
        [0] + Records(chunks);
      }
    }
  }

  lemma PiecesThree(a: seq<Chunk>, c: Chunk, b: seq<Chunk>)
    requires AllSized(a) && Sized(c.str) && AllSized(b)
    ensures Pieces(a + [c]) == Pieces(a) + Piece(c)
    ensures Pieces([c] + b) == Piece(c) + Pieces(b)
    ensures Pieces(a + [c] + b) == Pieces(a) + Piece(c) + Pieces(b)
  {
    assert Pieces([c]) == Piece(c) + Pieces([]);
    PiecesConcat(a, [c]);
    PiecesConcat([c], b);
    PiecesConcat(a + [c], b);
  }

  /** The buffer around chunk `i`. */
  lemma Split(chunks: seq<Chunk>, i: nat)
    requires AllSized(chunks) && i < |chunks|
    ensures Pieces(chunks) == Pieces(chunks[..i]) + Piece(chunks[i]) + Pieces(chunks[i + 1..])
    ensures Pieces(chunks[..i + 1]) == Pieces(chunks[..i]) + Piece(chunks[i])
    ensures Pieces(chunks[i..]) == Piece(chunks[i]) + Pieces(chunks[i + 1..])
    ensures Offset(chunks, i + 1) == Offset(chunks, i) + 1 + |Body(chunks[i].str)|
  {
    hide Pieces, Piece, Sized;
    PiecesThree(chunks[..i], chunks[i], chunks[i + 1..]);
    CutAt(chunks, i);
    Around(chunks, i);
  }

  lemma {:induction false} OffsetsIncrease(chunks: seq<Chunk>, i: nat, j: nat)
    requires AllSized(chunks) && i < j <= |chunks|
    ensures Offset(chunks, i) + 7 < Offset(chunks, j)
    decreases j
  {
    var k := j - 1;
    assert Offset(chunks, k) + 7 < Offset(chunks, j) by {
      Split(chunks, k);
      assert Sized(chunks[k].str);
    }
    if i < k {
      OffsetsIncrease(chunks, i, k);
    }
  }

  /** Lengths and offsets do not depend on the chains. */
  lemma {:induction false} PiecesLength(a: seq<Chunk>, b: seq<Chunk>)
    requires AllSized(a) && AllSized(b) && |a| == |b|
    requires forall i :: 0 <= i < |a| ==> a[i].str == b[i].str
    ensures |Pieces(a)| == |Pieces(b)|
  {
    if a != [] {
      PiecesLength(a[1..], b[1..]);
    }
  }

  // ----- reading a string back -----

  /** `mjs_get_string` on an owned string: the length is decoded and the bytes after it are the string. */
  function StringAt(buf: seq<Byte>, off: nat): seq<Byte>
    requires off <= |buf| && Decodable(buf[off..], 0)
    requires Decode(buf[off..]).0 + Decode(buf[off..]).1 <= |buf| - off
  {
    var r := Decode(buf[off..]);
    buf[off + r.1..off + r.1 + r.0]
  }

  /** A string starts at `off`. */
  predicate Readable(buf: seq<Byte>, off: nat) {
    && off <= |buf|
    && Decodable(buf[off..], 0)
    && Decode(buf[off..]).0 + Decode(buf[off..]).1 <= |buf| - off
  }

  /** Reading at a stored body gives the string. */
  lemma ReadBack(buf: seq<Byte>, off: nat, str: seq<Byte>)
    requires |str| < U64
    requires off + |Body(str)| <= |buf| && buf[off..off + |Body(str)|] == Body(str)
    ensures Readable(buf, off) && StringAt(buf, off) == str
  {
    var after := str + buf[off + |Body(str)|..];
    assert buf[off..] == Body(str) + buf[off + |Body(str)|..] == Encode(|str|) + after;
    RoundTrip(|str|, after);
    assert Body(str)[|Encode(|str|)|..] == str;
  }

  /** An unthreaded chunk can be read at its offset. */
  lemma ReadChunk(chunks: seq<Chunk>, i: nat)
    requires AllSized(chunks) && i < |chunks| && chunks[i].chain == []
    ensures Readable(Image(chunks), Offset(chunks, i))
    ensures StringAt(Image(chunks), Offset(chunks, i)) == chunks[i].str
  {
    var before, body, after := Pieces(chunks[..i]) + [0], Body(chunks[i].str), Pieces(chunks[i + 1..]) + [0];
    assert Image(chunks) == before + body + after by {
      Split(chunks, i);
      Regroup(Pieces(chunks[..i]), body, Pieces(chunks[i + 1..]));
    }
    assert Offset(chunks, i) == |before|;
    hide Image, Offset, Pieces, Body;
    ReadBack(before + body + after, |before|, chunks[i].str);
  }

  lemma Regroup(a: seq<Byte>, b: seq<Byte>, c: seq<Byte>)
    ensures a + ([0] + b) + c + [0] == (a + [0]) + b + (c + [0])
  {}

  // ----- chains -----

  /** The slots of `chain` point one to the next; the last holds the six bytes taken from the string. */
  predicate Linked(val: map<Addr, Value>, chain: seq<Addr>, str: seq<Byte>)
    requires Sized(str)
  {
    chain != [] ==>
      && chain[0] in val
      && chain[0] !in chain[1..]
      && val[chain[0]] ==
         (if |chain| == 1 then Value(StringC, FromBytes(Body(str)[..6])) else Value(Foreign, chain[1]))
      && Linked(val, chain[1..], str)
  }

  lemma {:induction false} LinkedFrame(val: map<Addr, Value>, slot: Addr, v: Value, chain: seq<Addr>, str: seq<Byte>)
    requires Sized(str) && Linked(val, chain, str) && slot !in chain
    ensures Linked(val[slot := v], chain, str)
  {
    if chain != [] {
      LinkedFrame(val, slot, v, chain[1..], str);
    }
  }

  lemma {:induction false} LinkedTags(val: map<Addr, Value>, chain: seq<Addr>, str: seq<Byte>, a: Addr)
    requires Sized(str) && Linked(val, chain, str) && a in chain
    ensures a in val && val[a].tag in {StringC, Foreign}
  {
    if a != chain[0] {
      LinkedTags(val, chain[1..], str, a);
    }
  }

  /** Some chunk has `a` threaded onto it. */
  ghost predicate Threads(chunks: seq<Chunk>, a: Addr) {
    exists i :: 0 <= i < |chunks| && a in chunks[i].chain
  }

  /** Every chain is properly linked. */
  predicate AllLinked(val: map<Addr, Value>, chunks: seq<Chunk>)
    requires AllSized(chunks)
  {
    forall i :: 0 <= i < |chunks| ==> Linked(val, chunks[i].chain, chunks[i].str)
  }

  /** The slots of a chain used to point at the chunk the chain hangs on. */
  predicate AllFrom(val0: map<Addr, Value>, chunks: seq<Chunk>)
    requires AllSized(chunks)
  {
    forall i, a :: 0 <= i < |chunks| && a in chunks[i].chain ==>
      a in val0 && val0[a] == Value(StringO, Offset(chunks, i))
  }

  /** Slots on no chain keep their values. */
  ghost predicate Untouched(val: map<Addr, Value>, val0: map<Addr, Value>, chunks: seq<Chunk>) {
    && val.Keys == val0.Keys
    && forall a :: a in val && !Threads(chunks, a) ==> val[a] == val0[a]
  }

  /** The state between marking a first slot and compacting: `val0` are the values before the collection. */
  ghost predicate Threaded(owned: seq<Byte>, val: map<Addr, Value>, val0: map<Addr, Value>, chunks: seq<Chunk>) {
    && AllSized(chunks)
    && owned == Image(chunks)
    && AllLinked(val, chunks)
    && AllFrom(val0, chunks)
    && Untouched(val, val0, chunks)
  }

  /** The chunks after `slot` is threaded onto chunk `i`. */
  function Thread(chunks: seq<Chunk>, i: nat, slot: Addr): seq<Chunk>
    requires i < |chunks|
  {
    chunks[i := Chunk(chunks[i].str, [slot] + chunks[i].chain)]
  }

  /** An owned string of the buffer starts at `off`. */
  ghost predicate PointsToChunk(off: nat, chunks: seq<Chunk>)
    requires AllSized(chunks)
  {
    exists i :: 0 <= i < |chunks| && off == Offset(chunks, i)
  }

  /** The head of a chain is read off the buffer. */
  lemma ChainHead(o: seq<Byte>, p: nat, c: Chunk, rest: seq<Byte>)
    requires Sized(c.str) && c.chain != [] && 1 <= p <= |o| && o[p - 1..] == Piece(c) + rest
    ensures p + 6 <= |o| && FromBytes(o[p..p + 6]) == c.chain[0]
  {
    assert o[p..p + 6] == o[p - 1..][1..7] == Piece(c)[1..7] == ToBytes(c.chain[0], 6);
    Pow2At48();
    FromBytesOfToBytes(c.chain[0], 6);
  }

  /** The value that threading leaves in the slot. */
  function Saved(owned: seq<Byte>, off: nat): Value
    requires 0 < off && off + 6 <= |owned|
  {
    Value(if owned[off - 1] == 0 then StringC else Foreign, FromBytes(owned[off..off + 6]))
  }

  lemma SplitImage(chunks: seq<Chunk>, i: nat)
    requires AllSized(chunks) && i < |chunks|
    ensures Image(chunks) == Pieces(chunks[..i]) + Piece(chunks[i]) + (Pieces(chunks[i + 1..]) + [0])
    ensures Offset(chunks, i) + 6 < |Image(chunks)|
    ensures Image(chunks)[Offset(chunks, i) - 1..Offset(chunks, i) + 6] == Piece(chunks[i])[..7]
  {
    hide Pieces, Piece, Body;
    var before, mid, after := Pieces(chunks[..i]), Piece(chunks[i]), Pieces(chunks[i + 1..]) + [0];
    assert Image(chunks) == before + mid + after by {
      Split(chunks, i);
      Assoc(before + mid, Pieces(chunks[i + 1..]), [0]);
    }
    assert |mid| >= 7;
    Replace(before, mid, after, mid[..7]);
  }

  lemma ThreadPiece(c: Chunk, slot: Addr)
    requires Sized(c.str)
    ensures Piece(Chunk(c.str, [slot] + c.chain)) == [1] + ToBytes(slot, 6) + Piece(c)[7..]
  {
    assert Piece(c)[7..] == Body(c.str)[6..];
  }

  /** Threading rewrites the mark and the first six bytes of one chunk, and nothing else. */
  lemma ThreadImage(chunks: seq<Chunk>, i: nat, slot: Addr)
    requires AllSized(chunks) && i < |chunks|
    ensures AllSized(Thread(chunks, i, slot))
    ensures var off := Offset(chunks, i);
            && off + 6 < |Image(chunks)|
            && Image(Thread(chunks, i, slot)) ==
               Image(chunks)[..off - 1] + ([1] + ToBytes(slot, 6)) + Image(chunks)[off + 6..]
  {
    hide Pieces, Piece, ToBytes, Pow2, Encode;
    var t := Thread(chunks, i, slot);
    assert AllSized(t);
    var before, after := Pieces(chunks[..i]), Pieces(chunks[i + 1..]) + [0];
    var front := [1] + ToBytes(slot, 6);
    assert Image(chunks) == before + Piece(chunks[i]) + after by {
      SplitImage(chunks, i);
    }
    assert Image(t) == before + Piece(t[i]) + after by {
      SplitImage(t, i);
      assert t[..i] == chunks[..i] && t[i + 1..] == chunks[i + 1..];
    }
    ThreadPiece(chunks[i], slot);
    Replace(before, Piece(chunks[i]), after, front);
  }

  /** Replacing the front of the middle of three parts. */
  lemma Replace(before: seq<Byte>, mid: seq<Byte>, after: seq<Byte>, front: seq<Byte>)
    requires |front| <= |mid|
    ensures var all := before + mid + after;
            && all[|before|..|before| + |front|] == mid[..|front|]
            && all[..|before|] + front + all[|before| + |front|..] == before + (front + mid[|front|..]) + after
  {}

  lemma MarkThenSteal(o: seq<Byte>, s: nat, six: seq<Byte>)
    requires 0 < s && s + 6 <= |o|
    ensures var o1 := o[s - 1 := 1];
            o1[..s] + six + o1[s + 6..] == o[..s - 1] + ([1] + six) + o[s + 6..]
  {}

  /** Offsets survive any change of the chains. */
  lemma SameOffsets(a: seq<Chunk>, b: seq<Chunk>)
    requires AllSized(a) && SameStrings(a, b)
    ensures AllSized(b) && forall i :: 0 <= i <= |a| ==> Offset(a, i) == Offset(b, i)
  {
    assert AllSized(b);
    forall i | 0 <= i <= |a|
      ensures Offset(a, i) == Offset(b, i)
    {
      PiecesLength(a[..i], b[..i]);
    }
  }

  predicate SameStrings(a: seq<Chunk>, b: seq<Chunk>) {
    |a| == |b| && forall i :: 0 <= i < |a| ==> a[i].str == b[i].str
  }

  /** A slot that still holds an owned string is on no chain. */
  lemma StringsUnthreaded(val: map<Addr, Value>, chunks: seq<Chunk>, slot: Addr)
    requires AllSized(chunks) && AllLinked(val, chunks)
    requires slot in val ==> IsOwnedString(val[slot])
    ensures !Threads(chunks, slot)
  {
    if Threads(chunks, slot) {
      var j :| 0 <= j < |chunks| && slot in chunks[j].chain;
      LinkedTags(val, chunks[j].chain, chunks[j].str, slot);
    }
  }

  lemma ThreadLinks(owned: seq<Byte>, val: map<Addr, Value>, chunks: seq<Chunk>, i: nat, slot: Addr)
    requires AllSized(chunks) && AllLinked(val, chunks) && owned == Image(chunks) && i < |chunks|
    requires slot in val && !Threads(chunks, slot)
    ensures 0 < Offset(chunks, i) && Offset(chunks, i) + 6 <= |owned|
    ensures AllSized(Thread(chunks, i, slot))
    ensures AllLinked(val[slot := Saved(owned, Offset(chunks, i))], Thread(chunks, i, slot))
  {
    var t := Thread(chunks, i, slot);
    assert AllSized(t);
    ThreadHead(owned, chunks, i);
    var v := Saved(owned, Offset(chunks, i));
    forall j | 0 <= j < |t|
      ensures Linked(val[slot := v], t[j].chain, t[j].str)
    {
      LinkedFrame(val, slot, v, chunks[j].chain, chunks[j].str);
      if j == i {
        assert t[i].chain[1..] == chunks[i].chain;
      }
    }
  }

  /** What threading saves from a chunk is the head of its chain, or its own first bytes. */
  lemma ThreadHead(owned: seq<Byte>, chunks: seq<Chunk>, i: nat)
    requires AllSized(chunks) && i < |chunks| && owned == Image(chunks)
    ensures 0 < Offset(chunks, i) && Offset(chunks, i) + 6 <= |owned|
    ensures Saved(owned, Offset(chunks, i)) ==
            if chunks[i].chain == [] then Value(StringC, FromBytes(Body(chunks[i].str)[..6]))
            else Value(Foreign, chunks[i].chain[0])
  {
    hide Image, Piece, Body, FromBytes, ToBytes;
    var off, c := Offset(chunks, i), chunks[i];
    SplitImage(chunks, i);
    PieceHead(c);
    var head := owned[off - 1..off + 6];
    assert head == Piece(c)[..7];
    assert owned[off - 1] == head[0] == Piece(c)[0];
    assert owned[off..off + 6] == head[1..] == Piece(c)[1..7];
  }

  lemma PieceHead(c: Chunk)
    requires Sized(c.str)
    ensures Piece(c)[0] == (if c.chain == [] then 0 else 1)
    ensures FromBytes(Piece(c)[1..7]) == if c.chain == [] then FromBytes(Body(c.str)[..6]) else c.chain[0]
  {
    if c.chain == [] {
      assert Piece(c)[1..7] == Body(c.str)[..6];
    } else {
      assert Piece(c)[1..7] == ToBytes(c.chain[0], 6);
      Pow2At48();
      FromBytesOfToBytes(c.chain[0], 6);
    }
  }

  lemma Pow2At48()
    ensures Pow2(8 * 6) == 0x1_0000_0000_0000
  {
    assert Pow2(8) == 256;
    Pow2Add(8, 8);
    Pow2Add(16, 16);
    Pow2Add(32, 16);
  }

  lemma ThreadFrom(val0: map<Addr, Value>, chunks: seq<Chunk>, i: nat, slot: Addr)
    requires AllSized(chunks) && AllFrom(val0, chunks) && i < |chunks|
    requires slot in val0 && val0[slot] == Value(StringO, Offset(chunks, i))
    ensures AllSized(Thread(chunks, i, slot)) && AllFrom(val0, Thread(chunks, i, slot))
  {
    var t := Thread(chunks, i, slot);
    SameOffsets(chunks, t);
    forall j, a | 0 <= j < |t| && a in t[j].chain
      ensures a in val0 && val0[a] == Value(StringO, Offset(t, j))
    {
      assert a in chunks[j].chain || (j == i && a == slot);
      assert Offset(t, j) == Offset(chunks, j);
    }
  }

  /** Marking one more slot keeps the threaded state. */
  lemma ThreadStep(owned: seq<Byte>, val: map<Addr, Value>, val0: map<Addr, Value>, chunks: seq<Chunk>,
                   i: nat, slot: Addr)
    requires Threaded(owned, val, val0, chunks) && i < |chunks|
    requires slot in val && val[slot] == Value(StringO, Offset(chunks, i))
    ensures 0 < Offset(chunks, i) && Offset(chunks, i) + 6 <= |owned|
    ensures var off := Offset(chunks, i);
            Threaded(owned[..off - 1] + ([1] + ToBytes(slot, 6)) + owned[off + 6..],
                     val[slot := Saved(owned, off)], val0, Thread(chunks, i, slot))
  {
    StringsUnthreaded(val, chunks, slot);
    ThreadLinks(owned, val, chunks, i, slot);
    ThreadFrom(val0, chunks, i, slot);
    ThreadImage(chunks, i, slot);
    ThreadsMore(chunks, i, slot);
  }

  lemma ThreadsMore(chunks: seq<Chunk>, i: nat, slot: Addr)
    requires i < |chunks|
    ensures forall a :: Threads(Thread(chunks, i, slot), a) <==> Threads(chunks, a) || a == slot
  {
    var t := Thread(chunks, i, slot);
    forall a: Addr
      ensures Threads(t, a) <==> Threads(chunks, a) || a == slot
    {
      if Threads(chunks, a) {
        var j :| 0 <= j < |chunks| && a in chunks[j].chain;
        assert a in t[j].chain;
      }
      if a == slot {
        assert a in t[i].chain;
      }
      if Threads(t, a) && a != slot {
        var j :| 0 <= j < |t| && a in t[j].chain;
        assert a in chunks[j].chain;
      }
    }
  }
}
