/** What compacting the owned-string buffer keeps, chunk by chunk. */
module StringCompaction {
  import opened Varint
  import opened Values
  import opened StringLayout

  predicate Live(c: Chunk) {
    c.chain != []
  }

  /** The live strings, unthreaded, in their old order. */
  function Packed(chunks: seq<Chunk>): (p: seq<Chunk>)
    requires AllSized(chunks)
    ensures AllSized(p) && forall k :: 0 <= k < |p| ==> p[k].chain == []
  {
    if chunks == [] then []
    else
      var c := chunks[|chunks| - 1];
      Packed(chunks[..|chunks| - 1]) + (if Live(c) then [Chunk(c.str, [])] else [])
  }

  /** Where chunk `i` ends up. */
  function NewOffset(chunks: seq<Chunk>, i: nat): nat
    requires AllSized(chunks) && i <= |chunks|
  {
    |Pieces(Packed(chunks[..i]))| + 1
  }

  lemma PackedStep(chunks: seq<Chunk>, i: nat)
    requires AllSized(chunks) && i < |chunks|
    ensures Packed(chunks[..i + 1]) == Packed(chunks[..i]) + (if Live(chunks[i]) then [Chunk(chunks[i].str, [])] else [])
    ensures Pieces(Packed(chunks[..i + 1])) ==
            Pieces(Packed(chunks[..i])) + (if Live(chunks[i]) then [0] + Body(chunks[i].str) else [])
  {
    var c := chunks[i];
    assert chunks[..i + 1][..i] == chunks[..i];
    if Live(c) {
      var one := [Chunk(c.str, [])];
      PiecesConcat(Packed(chunks[..i]), one);
      assert Pieces(one) == Piece(one[0]) + Pieces([]);
    } else {
      assert Packed(chunks[..i]) + [] == Packed(chunks[..i]);
      assert Pieces(Packed(chunks[..i])) + [] == Pieces(Packed(chunks[..i]));
    }
  }

  lemma PackedWhere(chunks: seq<Chunk>, i: nat)
    requires AllSized(chunks) && i < |chunks| && Live(chunks[i])
    ensures var all, k := Packed(chunks), |Packed(chunks[..i])|;
            k < |all| && all[..k] == Packed(chunks[..i]) && all[k].str == chunks[i].str
  {
    hide Packed, Pieces, Sized;
    PackedStep(chunks, i);
    PackedPrefix(chunks, i + 1);
    assert Packed(chunks[..i + 1])[|Packed(chunks[..i])|].str == chunks[i].str;
  }

  /** The packed image holds chunk `i`'s string at its new offset. */
  lemma PackedHolds(chunks: seq<Chunk>, i: nat)
    requires AllSized(chunks) && i < |chunks| && Live(chunks[i])
    ensures Readable(Image(Packed(chunks)), NewOffset(chunks, i))
    ensures StringAt(Image(Packed(chunks)), NewOffset(chunks, i)) == chunks[i].str
  {
    hide Pieces, Image, StringAt, Readable, Piece;
    var all, k := Packed(chunks), |Packed(chunks[..i])|;
    PackedWhere(chunks, i);
    ReadChunk(all, k);
  }

  lemma {:induction false} PackedPrefix(chunks: seq<Chunk>, i: nat)
    requires AllSized(chunks) && i <= |chunks|
    ensures Packed(chunks[..i]) <= Packed(chunks)
    decreases |chunks|
  {
    if i == |chunks| {
      assert chunks[..i] == chunks;
    } else {
      var most := chunks[..|chunks| - 1];
      assert most[..i] == chunks[..i];
      PackedPrefix(most, i);
    }
  }

  lemma NewOffsetStep(chunks: seq<Chunk>, i: nat)
    requires AllSized(chunks) && i < |chunks|
    ensures NewOffset(chunks, i + 1) == NewOffset(chunks, i) + (if Live(chunks[i]) then 1 + |Body(chunks[i].str)| else 0)
  {
    PackedStep(chunks, i);
  }

  /** New offsets keep the order and distinctness of the live strings. */
  lemma {:induction false} NewOffsetsIncrease(chunks: seq<Chunk>, i: nat, j: nat)
    requires AllSized(chunks) && i < j <= |chunks| && Live(chunks[i])
    ensures NewOffset(chunks, i) < NewOffset(chunks, j)
    decreases j - i
  {
    hide NewOffset;
    NewOffsetStep(chunks, j - 1);
    if i < j - 1 {
      NewOffsetsIncrease(chunks, i, j - 1);
    }
  }

  // ----- the buffer -----

  /** Sliding `len` bytes from `p` left to `head` and clearing the byte before them. */
  function Slide(o: seq<Byte>, head: nat, p: nat, len: nat): (o': seq<Byte>)
    requires 1 <= head <= p && p + len <= |o|
    ensures |o'| == |o|
  {
    (o[..head] + o[p..p + len] + o[head + len..])[head - 1 := 0]
  }

  /** One live chunk is moved behind what is already packed; the rest is untouched. */
  lemma SlideStep(o: seq<Byte>, head: nat, p: nat, body: seq<Byte>, rest: seq<Byte>)
    requires 1 <= head <= p && |rest| > 0 && p + |body| + |rest| == |o|
    requires o[p..] == body + rest
    ensures var o' := Slide(o, head, p, |body| + 1);
            && o'[..head + |body|] == o[..head - 1] + ([0] + body)
            && o'[p + |body|..] == rest
            && o'[head + |body|] == rest[0]
  {
    var o' := Slide(o, head, p, |body| + 1);
    forall k | p + |body| <= k < |o|
      ensures o'[k] == o[k]
    {
    }
    assert forall k :: 0 <= k < |body| ==> o[p + k] == o[p..][k] == body[k];
    assert o[p + |body|] == o[p..][|body|] == rest[0];
    assert o[p + |body|..] == o[p..][|body|..] == rest;
  }

  /** Putting the stolen bytes back. */
  lemma Restore(o: seq<Byte>, p: nat, c: Chunk, rest: seq<Byte>)
    requires Sized(c.str) && Live(c) && 1 <= p <= |o|
    requires o[p - 1..] == Piece(c) + rest
    ensures p + |Body(c.str)| + |rest| == |o|
    ensures var o' := o[..p] + Body(c.str)[..6] + o[p + 6..];
            o'[..p] == o[..p] && o'[p..] == Body(c.str) + rest
  {
    var body := Body(c.str);
    var stolen := [1] + ToBytes(c.chain[0], 6);
    assert Piece(c) == stolen + body[6..];
    Rejoin(o, p, stolen, body[6..] + rest, body[..6]);
    assert body[..6] + (body[6..] + rest) == body + rest;
  }

  /** Overwriting the six bytes that follow a mark. */
  lemma Rejoin(o: seq<Byte>, p: nat, stolen: seq<Byte>, tail: seq<Byte>, own: seq<Byte>)
    requires 1 <= p <= |o| && |stolen| == 7 && |own| == 6 && o[p - 1..] == stolen + tail
    ensures p + 6 <= |o|
    ensures (o[..p] + own + o[p + 6..])[p..] == own + tail
  {
    assert o[p + 6..] == o[p - 1..][7..] == tail;
  }

  /** The six bytes taken from a chunk are enough to decode its length. */
  lemma DecodeStolen(str: seq<Byte>)
    requires Sized(str)
    ensures Decodable(Body(str)[..6] + [0, 0], 0)
    ensures Decode(Body(str)[..6] + [0, 0]) == (|str|, |Encode(|str|)|)
  {
    var llen := |Encode(|str|)|;
    assert llen <= 6 by {
      assert Pow2(7) == 128;
      Pow2Add(7, 7);
      Pow2Add(14, 14);
      Pow2Add(28, 7);
      EncodeLength(|str|, 5);
    }
    assert Body(str)[..6] + [0, 0] == Encode(|str|) + (str[..6 - llen] + [0, 0]);
    RoundTrip(|str|, str[..6 - llen] + [0, 0]);
  }

  /** The word saved in the last slot of a chain gives back the bytes and the length. */
  lemma Saved6(str: seq<Byte>, h: nat)
    requires Sized(str) && h == FromBytes(Body(str)[..6])
    ensures ToBytes(h, 6) == Body(str)[..6]
    ensures Decodable(ToBytes(h, 6) + [0, 0], 0)
    ensures Decode(ToBytes(h, 6) + [0, 0]).0 == |str|
    ensures Decode(ToBytes(h, 6) + [0, 0]).1 == |Body(str)| - |str|
  {
    DecodeStolen(str);
    ToBytesOfFromBytes(Body(str)[..6]);
  }

  /** The chunks from `i` on lie as they were, from `p`. */
  predicate Tail(o: seq<Byte>, chunks: seq<Chunk>, i: nat, p: nat)
    requires AllSized(chunks)
  {
    i <= |chunks| && p == Offset(chunks, i) && p <= |o| && o[p - 1..] == Image(chunks[i..])
  }

  /** The live ones among the first `i` chunks are packed below `head`. */
  predicate Front(o: seq<Byte>, chunks: seq<Chunk>, i: nat, head: nat)
    requires AllSized(chunks)
  {
    && i <= |chunks| && head == NewOffset(chunks, i) && head <= |o|
    && o[..head - 1] == Pieces(Packed(chunks[..i]))
    && (o[head - 1] == 0 || (i < |chunks| && Live(chunks[i])))
  }

  predicate Compacting(o: seq<Byte>, chunks: seq<Chunk>, i: nat, p: nat, head: nat)
    requires AllSized(chunks)
  {
    Tail(o, chunks, i, p) && Front(o, chunks, i, head) && head <= p
  }

  lemma TailNext(o: seq<Byte>, chunks: seq<Chunk>, i: nat, p: nat)
    requires AllSized(chunks) && i < |chunks| && p == Offset(chunks, i)
    requires p + |Body(chunks[i].str)| <= |o| && o[p + |Body(chunks[i].str)|..] == Image(chunks[i + 1..])
    ensures Tail(o, chunks, i + 1, p + |Body(chunks[i].str)| + 1)
  {
    Split(chunks, i);
    assert |Image(chunks[i + 1..])| > 0;
  }

  lemma FrontDead(o: seq<Byte>, chunks: seq<Chunk>, i: nat, head: nat)
    requires AllSized(chunks) && i < |chunks| && !Live(chunks[i]) && Front(o, chunks, i, head)
    ensures Front(o, chunks, i + 1, head)
  {
    PackedStep(chunks, i);
  }

  lemma FrontLive(o: seq<Byte>, o': seq<Byte>, chunks: seq<Chunk>, i: nat, head: nat)
    requires AllSized(chunks) && i < |chunks| && Live(chunks[i]) && Front(o, chunks, i, head)
    requires head + |Body(chunks[i].str)| < |o'| && |Image(chunks[i + 1..])| > 0
    requires o'[..head + |Body(chunks[i].str)|] == o[..head - 1] + ([0] + Body(chunks[i].str))
    requires o'[head + |Body(chunks[i].str)|] == Image(chunks[i + 1..])[0]
    ensures Front(o', chunks, i + 1, head + |Body(chunks[i].str)| + 1)
  {
    PackedStep(chunks, i);
    MarkByte(chunks[i + 1..]);
  }

  lemma CompactStart(chunks: seq<Chunk>)
    requires AllSized(chunks)
    ensures |Image(chunks)| > 0 && Compacting(Image(chunks), chunks, 0, 1, 1)
  {
    assert chunks[0..] == chunks;
    if chunks != [] {
      assert Image(chunks)[0] == Piece(chunks[0])[0];
    }
  }

  lemma CompactEnd(o: seq<Byte>, chunks: seq<Chunk>, i: nat, p: nat, head: nat)
    requires AllSized(chunks) && Compacting(o, chunks, i, p, head) && p == |o|
    ensures i == |chunks| && head <= |o| && o[..head] == Image(Packed(chunks))
  {
    if i < |chunks| {
      CompactHere(o, chunks, i, p, head);
      assert false;
    }
    assert Packed(chunks[..i]) == Packed(chunks) by {
      assert chunks[..i] == chunks;
    }
    LastByte(o, head, Pieces(Packed(chunks)));
  }

  lemma LastByte(o: seq<Byte>, head: nat, packed: seq<Byte>)
    requires 0 < head <= |o| && o[..head - 1] == packed && o[head - 1] == 0
    ensures o[..head] == packed + [0]
  {}

  /** What lies at `p`: the mark and body of chunk `i`, then the rest. */
  lemma CompactHere(o: seq<Byte>, chunks: seq<Chunk>, i: nat, p: nat, head: nat)
    requires AllSized(chunks) && Compacting(o, chunks, i, p, head) && i < |chunks|
    ensures o[p - 1..] == Piece(chunks[i]) + Image(chunks[i + 1..])
    ensures o[p - 1] == if Live(chunks[i]) then 1 else 0
    ensures p + |Body(chunks[i].str)| + |Image(chunks[i + 1..])| == |o|
    ensures Offset(chunks, i + 1) == p + |Body(chunks[i].str)| + 1
    ensures |Image(chunks[i + 1..])| > 0
  {
    Split(chunks, i);
    var piece, tail := Piece(chunks[i]), Pieces(chunks[i + 1..]);
    assert piece[0] == if Live(chunks[i]) then 1 else 0;
    hide Pieces, Body, Piece, NewOffset;
    assert (piece + tail) + [0] == piece + (tail + [0]);
    assert o[p - 1] == o[p - 1..][0] == piece[0];
  }

  /** There is another chunk as long as the end is not reached. */
  lemma CompactMore(o: seq<Byte>, chunks: seq<Chunk>, i: nat, p: nat, head: nat)
    requires AllSized(chunks) && Compacting(o, chunks, i, p, head) && p < |o|
    ensures i < |chunks|
  {
    EmptyImage(chunks[i..]);
    assert |Image(chunks[i..])| == |o| - p + 1;
  }

  lemma EmptyImage(chunks: seq<Chunk>)
    requires AllSized(chunks)
    ensures chunks == [] ==> |Image(chunks)| == 1
  {}

  /** The byte before a chunk tells whether it is live. */
  lemma MarkTells(o: seq<Byte>, chunks: seq<Chunk>, i: nat, p: nat, head: nat)
    requires AllSized(chunks) && Compacting(o, chunks, i, p, head) && p < |o|
    ensures i < |chunks| && o[p - 1] == (if Live(chunks[i]) then 1 else 0)
  {
    CompactMore(o, chunks, i, p, head);
    CompactHere(o, chunks, i, p, head);
  }

  lemma HeadHere(o: seq<Byte>, chunks: seq<Chunk>, i: nat, p: nat, head: nat)
    requires AllSized(chunks) && Compacting(o, chunks, i, p, head) && i < |chunks| && Live(chunks[i])
    ensures p + 6 <= |o| && FromBytes(o[p..p + 6]) == chunks[i].chain[0]
  {
    CompactHere(o, chunks, i, p, head);
    ChainHead(o, p, chunks[i], Image(chunks[i + 1..]));
  }

  /** What one round for a live chunk starts from, and what it ends in. */
  lemma LiveRound(o: seq<Byte>, chunks: seq<Chunk>, i: nat, p: nat, head: nat, val: map<Addr, Value>, val0: map<Addr, Value>)
    requires AllSized(chunks) && Compacting(o, chunks, i, p, head) && i < |chunks| && Live(chunks[i])
    requires Relocated(val, val0, chunks, i)
    ensures Sized(chunks[i].str) && Linked(val, chunks[i].chain, chunks[i].str)
    ensures p + 6 <= |o| && FromBytes(o[p..p + 6]) == chunks[i].chain[0]
    ensures head == NewOffset(chunks, i) && 1 <= head <= p && p + |Body(chunks[i].str)| + 1 <= |o|
    ensures Compacting(Packing(o, head, p, Body(chunks[i].str)), chunks, i + 1,
                       p + |Body(chunks[i].str)| + 1, head + |Body(chunks[i].str)| + 1)
  {
    CompactLive(o, chunks, i, p, head);
    HeadHere(o, chunks, i, p, head);
    CompactIndex(o, chunks, i, p, head);
    PendingHere(val, val0, chunks, i);
  }

  lemma CompactIndex(o: seq<Byte>, chunks: seq<Chunk>, i: nat, p: nat, head: nat)
    requires AllSized(chunks) && Compacting(o, chunks, i, p, head)
    ensures p == Offset(chunks, i) && head == NewOffset(chunks, i) && 1 <= head <= p <= |o|
  {}

  /** Decoding at an untouched chunk gives its length. */
  lemma DecodeHere(o: seq<Byte>, p: nat, str: seq<Byte>, rest: seq<Byte>)
    requires Sized(str) && p <= |o| && o[p..] == Body(str) + rest
    ensures Decodable(o[p..], 0) && Decode(o[p..]) == (|str|, |Encode(|str|)|)
  {
    RoundTrip(|str|, str + rest);
    assert o[p..] == Encode(|str|) + (str + rest);
  }

  /** Stepping over a mark, a body and what follows. */
  lemma StepOver(o: seq<Byte>, p: nat, mark: Byte, body: seq<Byte>, rest: seq<Byte>)
    requires 1 <= p <= |o| && o[p - 1..] == [mark] + body + rest
    ensures p + |body| <= |o| && o[p..] == body + rest && o[p + |body|..] == rest
  {}

  lemma CompactDead(o: seq<Byte>, chunks: seq<Chunk>, i: nat, p: nat, head: nat)
    requires AllSized(chunks) && Compacting(o, chunks, i, p, head) && i < |chunks| && !Live(chunks[i])
    ensures o[p..] == Body(chunks[i].str) + Image(chunks[i + 1..])
    ensures Compacting(o, chunks, i + 1, p + |Body(chunks[i].str)| + 1, head)
  {
    var body, rest := Body(chunks[i].str), Image(chunks[i + 1..]);
    CompactHere(o, chunks, i, p, head);
    assert Piece(chunks[i]) == [0] + body;
    FrontDead(o, chunks, i, head);
    hide Image, Pieces, Body, Piece, Front, Packed, NewOffset;
    StepOver(o, p, 0, body, rest);
    TailNext(o, chunks, i, p);
  }

  /** The buffer after the stolen bytes of `body` at `p` are put back and it is slid to `head`. */
  function Packing(o: seq<Byte>, head: nat, p: nat, body: seq<Byte>): (o': seq<Byte>)
    requires 1 <= head <= p && 6 <= |body| && p + |body| + 1 <= |o|
    ensures |o'| == |o|
  {
    Slide(o[..p] + body[..6] + o[p + 6..], head, p, |body| + 1)
  }

  lemma PackingStep(o: seq<Byte>, head: nat, p: nat, c: Chunk, rest: seq<Byte>)
    requires Sized(c.str) && Live(c) && 1 <= head <= p <= |o| && |rest| > 0
    requires o[p - 1..] == Piece(c) + rest
    ensures p + |Body(c.str)| + 1 <= |o|
    ensures var body, o' := Body(c.str), Packing(o, head, p, Body(c.str));
            && o'[..head + |body|] == o[..head - 1] + ([0] + body)
            && o'[p + |body|..] == rest
            && o'[head + |body|] == rest[0]
  {
    var body := Body(c.str);
    Restore(o, p, c, rest);
    var o1 := o[..p] + body[..6] + o[p + 6..];
    SlideStep(o1, head, p, body, rest);
    assert o1[..head - 1] == o[..head - 1];
  }

  lemma CompactLive(o: seq<Byte>, chunks: seq<Chunk>, i: nat, p: nat, head: nat)
    requires AllSized(chunks) && Compacting(o, chunks, i, p, head) && i < |chunks| && Live(chunks[i])
    ensures p + |Body(chunks[i].str)| + 1 <= |o|
    ensures Compacting(Packing(o, head, p, Body(chunks[i].str)), chunks, i + 1,
                       p + |Body(chunks[i].str)| + 1, head + |Body(chunks[i].str)| + 1)
  {
    hide Image, Pieces, Body, Piece, Packing, NewOffset, Offset, Packed, Front, Tail;
    var rest := Image(chunks[i + 1..]);
    CompactHere(o, chunks, i, p, head);
    CompactIndex(o, chunks, i, p, head);
    PackingStep(o, head, p, chunks[i], rest);
    var o' := Packing(o, head, p, Body(chunks[i].str));
    TailNext(o', chunks, i, p);
    FrontLive(o, o', chunks, i, head);
  }

  lemma MarkByte(chunks: seq<Chunk>)
    requires AllSized(chunks)
    ensures Image(chunks)[0] == 0 || (0 < |chunks| && Live(chunks[0]))
  {
    if chunks != [] {
      assert Image(chunks)[0] == Piece(chunks[0])[0];
    }
  }

  // ----- the slots -----

  lemma {:induction false} LinkedAgree(v: map<Addr, Value>, w: map<Addr, Value>, chain: seq<Addr>, str: seq<Byte>)
    requires Sized(str) && Linked(v, chain, str)
    requires forall a :: a in chain && a in v ==> a in w && w[a] == v[a]
    ensures Linked(w, chain, str)
  {
    if chain != [] {
      LinkedAgree(v, w, chain[1..], str);
    }
  }

  /** No slot is threaded onto two chunks. */
  lemma ChainsDisjoint(val0: map<Addr, Value>, chunks: seq<Chunk>, i: nat, j: nat, a: Addr)
    requires AllSized(chunks) && AllFrom(val0, chunks)
    requires i < |chunks| && j < |chunks| && a in chunks[i].chain && a in chunks[j].chain
    ensures i == j
  {
    assert val0[a] == Value(StringO, Offset(chunks, i));
    assert val0[a] == Value(StringO, Offset(chunks, j));
    if i < j {
      OffsetsIncrease(chunks, i, j);
    } else if j < i {
      OffsetsIncrease(chunks, j, i);
    }
  }

  /** The slots of the first `i` chunks point at the new places. */
  predicate Moved(val: map<Addr, Value>, chunks: seq<Chunk>, i: nat)
    requires AllSized(chunks) && i <= |chunks|
  {
    forall j, a :: 0 <= j < i && a in chunks[j].chain ==>
      a in val && val[a] == Value(StringO, NewOffset(chunks, j))
  }

  /** The slots from chunk `i` on are still threaded. */
  predicate Pending(val: map<Addr, Value>, chunks: seq<Chunk>, i: nat)
    requires AllSized(chunks)
  {
    forall j :: i <= j < |chunks| ==> Linked(val, chunks[j].chain, chunks[j].str)
  }

  ghost predicate Relocated(val: map<Addr, Value>, val0: map<Addr, Value>, chunks: seq<Chunk>, i: nat)
    requires AllSized(chunks) && i <= |chunks|
  {
    Untouched(val, val0, chunks) && Moved(val, chunks, i) && Pending(val, chunks, i)
  }

  lemma PendingHere(val: map<Addr, Value>, val0: map<Addr, Value>, chunks: seq<Chunk>, i: nat)
    requires AllSized(chunks) && i < |chunks| && Relocated(val, val0, chunks, i)
    ensures Sized(chunks[i].str) && Linked(val, chunks[i].chain, chunks[i].str)
  {}

  /** `w` is `v` with every slot of `chain` set to `x`. */
  predicate SetAll(v: map<Addr, Value>, w: map<Addr, Value>, chain: seq<Addr>, x: Value) {
    && w.Keys == v.Keys
    && forall a :: a in v ==> w[a] == if a in chain then x else v[a]
  }

  lemma PendingStep(v: map<Addr, Value>, w: map<Addr, Value>, val0: map<Addr, Value>, chunks: seq<Chunk>, i: nat, x: Value)
    requires AllSized(chunks) && AllFrom(val0, chunks) && i < |chunks|
    requires Pending(v, chunks, i) && SetAll(v, w, chunks[i].chain, x)
    ensures Pending(w, chunks, i + 1)
  {
    forall j | i + 1 <= j < |chunks|
      ensures Linked(w, chunks[j].chain, chunks[j].str)
    {
      forall a | a in chunks[j].chain && a in v
        ensures w[a] == v[a]
      {
        if a in chunks[i].chain {
          ChainsDisjoint(val0, chunks, i, j, a);
        }
      }
      LinkedAgree(v, w, chunks[j].chain, chunks[j].str);
    }
  }

  lemma MovedStep(v: map<Addr, Value>, w: map<Addr, Value>, val0: map<Addr, Value>, chunks: seq<Chunk>, i: nat)
    requires AllSized(chunks) && AllFrom(val0, chunks) && i < |chunks| && v.Keys == val0.Keys
    requires Moved(v, chunks, i) && SetAll(v, w, chunks[i].chain, Value(StringO, NewOffset(chunks, i)))
    ensures Moved(w, chunks, i + 1)
  {
    forall j, a | 0 <= j < i + 1 && a in chunks[j].chain
      ensures a in w && w[a] == Value(StringO, NewOffset(chunks, j))
    {
      assert a in val0;
      if a in chunks[i].chain {
        ChainsDisjoint(val0, chunks, i, j, a);
      }
    }
  }

  lemma RelocateStep(v: map<Addr, Value>, w: map<Addr, Value>, val0: map<Addr, Value>, chunks: seq<Chunk>, i: nat)
    requires AllSized(chunks) && AllFrom(val0, chunks) && i < |chunks|
    requires Relocated(v, val0, chunks, i)
    requires SetAll(v, w, chunks[i].chain, Value(StringO, NewOffset(chunks, i)))
    ensures Relocated(w, val0, chunks, i + 1)
  {
    PendingStep(v, w, val0, chunks, i, Value(StringO, NewOffset(chunks, i)));
    MovedStep(v, w, val0, chunks, i);
    forall a | a in w && !Threads(chunks, a)
      ensures w[a] == val0[a]
    {
      assert a !in chunks[i].chain;
    }
  }
}
