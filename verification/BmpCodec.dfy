/** `EncodeImage` and `DecodeImage` of the BMP coder, on byte buffers written in place. */
module BmpCodec {
  import opened Varint
  import opened RunLength

  // ----- encoding -----

  /** One row: pairs of a count and a byte. */
  method EncodeRow(pixels: array<Byte>, p0: nat, bpl: nat, out: array<Byte>, q0: nat) returns (q: nat)
    requires pixels != out && p0 + bpl <= pixels.Length
    requires q0 + |RowCode(pixels[p0..p0 + bpl])| <= out.Length
    modifies out
    ensures q == q0 + |RowCode(pixels[p0..p0 + bpl])|
    ensures out[..q] == old(out[..q0]) + RowCode(pixels[p0..p0 + bpl])
  {
    hide RowCode, RunLen;
    ghost var row := pixels[p0..p0 + bpl];
    ghost var goal := out[..q0] + RowCode(row);
    q := q0;
    var x := 0;
    assert row[0..] == row;
    while x < bpl
      invariant 0 <= x <= bpl && q0 <= q && q + |RowCode(row[x..])| == |goal| <= out.Length
      invariant out[..q] + RowCode(row[x..]) == goal
      decreases bpl - x
    {
      ghost var rest := row[x..];
      var i := FindRun(pixels, p0 + x, bpl - x);
      assert pixels[p0 + x..p0 + bpl] == rest && rest[i..] == row[x + i..];
      StepRow(out[..q], rest);
      WritePair(out, q, i, pixels[p0 + x]);
      q := q + 2;
      x := x + i;
    }
    RowOfNothing(row[bpl..], out[..q]);
  }

  method WritePair(out: array<Byte>, q: nat, a: Byte, b: Byte)
    requires q + 2 <= out.Length
    modifies out
    ensures out[..q + 2] == old(out[..q]) + [a, b]
  {
    out[q] := a;
    out[q + 1] := b;
  }

  lemma RowOfNothing(row: seq<Byte>, done: seq<Byte>)
    requires row == []
    ensures RowCode(row) == [] && done + RowCode(row) == done
  {}

  lemma StepRow(done: seq<Byte>, rest: seq<Byte>)
    requires rest != []
    ensures 1 <= RunLen(rest) <= 255 && RunLen(rest) <= |rest|
    ensures done + RowCode(rest) == done + [RunLen(rest), rest[0]] + RowCode(rest[RunLen(rest)..])
    ensures |RowCode(rest)| == 2 + |RowCode(rest[RunLen(rest)..])|
  {}

  /** The inner loop of the encoder: the length of the run at `p`. */
  method FindRun(pixels: array<Byte>, p: nat, left: nat) returns (i: nat)
    requires left > 0 && p + left <= pixels.Length
    ensures i == RunLen(pixels[p..p + left])
  {
    ghost var row := pixels[p..p + left];
    i := 1;
    while i < left
      invariant 1 <= i <= left && i <= 255
      invariant forall k :: 0 <= k < i ==> row[k] == row[0]
      invariant RunFrom(row, 1) == RunFrom(row, i)
    {
      if i == 255 || pixels[p + i] != pixels[p] {
        return;
      }
      i := i + 1;
    }
  }

  /** `EncodeImage`, into a buffer of the size `WriteBMPImage` allocates. */
  method EncodeImage(pixels: array<Byte>, bpl: nat, rows: nat, out: array<Byte>) returns (n: nat)
    requires pixels != out && pixels.Length == rows * bpl
    requires out.Length >= 2 * ((bpl + 2) * (rows + 2)) + 2
    modifies out
    ensures n <= out.Length && out[..n] == Encoded(pixels[..], bpl, rows, 0)
  {
    hide RowCode, Encoded;
    ghost var all := pixels[..];
    ghost var goal := Encoded(all, bpl, rows, 0);
    EncodedLength(all, bpl, rows, 0);
    BufferFits(bpl, rows);
    var y, p := 0, 0;
    n := 0;
    while y < rows
      invariant 0 <= y <= rows && p == y * bpl && pixels[..] == all
      invariant n + |Encoded(all, bpl, rows, y)| == |goal| <= out.Length && out[..n] + Encoded(all, bpl, rows, y) == goal
    {
      RowFits(bpl, rows, y);
      EncodeOneRow(all, bpl, rows, y, out[..n]);
      assert pixels[p..p + bpl] == Row(all, bpl, rows, y);
      n := EncodeRow(pixels, p, bpl, out, n);
      WritePair(out, n, 0, 0);
      n := n + 2;
      p := p + bpl;
      y := y + 1;
    }
    EncodeNothing(all, bpl, rows);
    WritePair(out, n, 0, 1);
    n := n + 2;
  }

  lemma EncodeOneRow(pixels: seq<Byte>, bpl: nat, rows: nat, y: nat, done: seq<Byte>)
    requires |pixels| == rows * bpl && y < rows
    ensures var code := RowCode(Row(pixels, bpl, rows, y));
            |Encoded(pixels, bpl, rows, y)| == |code| + 2 + |Encoded(pixels, bpl, rows, y + 1)|
            && done + Encoded(pixels, bpl, rows, y) == done + code + [0, 0] + Encoded(pixels, bpl, rows, y + 1)
  {
    hide RowCode, Row;
  }

  lemma EncodeNothing(pixels: seq<Byte>, bpl: nat, rows: nat)
    requires |pixels| == rows * bpl
    ensures Encoded(pixels, bpl, rows, rows) == [0, 1]
  {}

  // ----- decoding -----

  /** What is left to read. */
  class Blob {
    const data: seq<Byte>
    var pos: nat

    constructor (data: seq<Byte>)
      ensures this.data == data && pos == 0
    {
      this.data, pos := data, 0;
    }

    function Rest(): seq<Byte>
      reads this
    {
      if pos <= |data| then data[pos..] else []
    }

    /** `ReadBlobByte`, which is negative at the end of the file. */
    method ReadBlobByte() returns (b: int)
      modifies this
      ensures old(Rest()) == [] ==> b == -1 && Rest() == []
      ensures old(Rest()) != [] ==> b == old(Rest())[0] && Rest() == old(Rest())[1..]
    {
      if pos < |data| {
        b := data[pos];
        pos := pos + 1;
      } else {
        b := -1;
      }
    }
  }

  lemma PutMore(buf: seq<Byte>, q: nat, s: seq<Byte>, b: Byte)
    requires q + |s| < |buf|
    ensures Put(buf, q, s + [b]) == Put(buf, q, s)[q + |s| := b]
  {}

  lemma PutNothing(buf: seq<Byte>, q: nat)
    requires q <= |buf|
    ensures Put(buf, q, []) == buf
  {}

  lemma RunMore(rle8: bool, i: nat, b: Byte)
    ensures Run(rle8, i + 1, b) == Run(rle8, i, b) + [if rle8 then b else Half(b, i)]
  {}

  /** Encoded mode: writing a run. */
  method WriteRun(f: Format, pixels: array<Byte>, q: nat, count: nat, b: Byte)
    requires q + count <= pixels.Length
    modifies pixels
    ensures pixels[..] == Put(old(pixels[..]), q, Run(f.rle8, count, b))
  {
    hide Put, Run, Half;
    ghost var was := pixels[..];
    var i := 0;
    PutNothing(was, q);
    assert Run(f.rle8, 0, b) == [];
    while i < count
      invariant 0 <= i <= count
      invariant pixels[..] == Put(was, q, Run(f.rle8, i, b))
    {
      RunMore(f.rle8, i, b);
      PutMore(was, q, Run(f.rle8, i, b), if f.rle8 then b else Half(b, i));
      pixels[q + i] := if f.rle8 then b else Half(b, i);
      i := i + 1;
    }
  }

  lemma LiteralMore(data: seq<Byte>, i: nat)
    requires i < |data|
    ensures Literal(true, data, i + 1) == Literal(true, data, i) + [data[i]]
  {}

  /** Absolute mode with a byte for each pixel. At the end of the file it gives up. */
  method CopyBytes(blob: Blob, pixels: array<Byte>, q: nat, count: nat) returns (ok: bool)
    requires q + count <= pixels.Length
    modifies pixels, blob
    ensures ok <==> count <= |old(blob.Rest())|
    ensures ok ==> pixels[..] == Put(old(pixels[..]), q, Literal(true, old(blob.Rest()), count))
                   && blob.Rest() == old(blob.Rest())[count..]
  {
    hide Put, Literal;
    ghost var was, data := pixels[..], blob.Rest();
    var i := 0;
    PutNothing(was, q);
    assert Literal(true, data, 0) == [] && data[0..] == data;
    while i < count
      invariant 0 <= i <= count && i <= |data| && blob.Rest() == data[i..]
      invariant pixels[..] == Put(was, q, Literal(true, data, i))
    {
      var b := blob.ReadBlobByte();
      if b < 0 {
        return false;
      }
      LiteralMore(data, i);
      PutMore(was, q, Literal(true, data, i), b);
      pixels[q + i] := b;
      i := i + 1;
    }
    return true;
  }

  lemma HalvesMore(data: seq<Byte>, i: nat)
    requires (i + 2) / 2 <= |data|
    ensures Literal(false, data, i + 1) == Literal(false, data, i) + [Half(data[i / 2], i)]
  {}

  /** Absolute mode with two pixels in a byte. */
  method CopyHalves(blob: Blob, pixels: array<Byte>, q: nat, count: nat) returns (ok: bool)
    requires q + count <= pixels.Length
    modifies pixels, blob
    ensures ok <==> (count + 1) / 2 <= |old(blob.Rest())|
    ensures ok ==> pixels[..] == Put(old(pixels[..]), q, Literal(false, old(blob.Rest()), count))
                   && blob.Rest() == old(blob.Rest())[(count + 1) / 2..]
  {
    hide Put, Literal, Half;
    ghost var was, data := pixels[..], blob.Rest();
    var i, b := 0, 0;
    PutNothing(was, q);
    assert Literal(false, data, 0) == [] && data[0..] == data;
    while i < count
      invariant 0 <= i <= count && (i + 1) / 2 <= |data| && blob.Rest() == data[(i + 1) / 2..]
      invariant i % 2 == 1 ==> b == data[i / 2]
      invariant pixels[..] == Put(was, q, Literal(false, data, i))
    {
      if i % 2 == 0 {
        b := blob.ReadBlobByte();
        if b < 0 {
          return false;
        }
      }
      HalvesMore(data, i);
      PutMore(was, q, Literal(false, data, i), Half(b, i));
      pixels[q + i] := Half(b, i);
      i := i + 1;
    }
    return true;
  }

  /** Absolute mode: copying literal pixels. */
  method WriteLiteral(f: Format, blob: Blob, pixels: array<Byte>, q: nat, count: nat) returns (ok: bool)
    requires q + count <= pixels.Length
    modifies pixels, blob
    ensures ok <==> LiteralBytes(f.rle8, count) <= |old(blob.Rest())|
    ensures ok ==> pixels[..] == Put(old(pixels[..]), q, Literal(f.rle8, old(blob.Rest()), count))
                   && blob.Rest() == old(blob.Rest())[LiteralBytes(f.rle8, count)..]
  {
    hide Put, Literal;
    if f.rle8 {
      ok := CopyBytes(blob, pixels, q, count);
    } else {
      ok := CopyHalves(blob, pixels, q, count);
    }
  }

  datatype Status = Going | Finished | Failed

  /** Where the next pixel goes. */
  datatype Cursor = Cursor(q: int, x: int, y: int)

  function DrawnAt(f: Format, stream: seq<Byte>, buf: seq<Byte>, c: Cursor): Decoded {
    Drawn(f, stream, buf, c.q, c.x, c.y)
  }

  /** The cursor is on a pixel of the image. */
  predicate OnImage(f: Format, len: nat, c: Cursor) {
    c.y < f.rows && 0 <= c.q < len
  }

  lemma DrawnRun(f: Format, s: seq<Byte>, buf: seq<Byte>, c: Cursor)
    requires OnImage(f, |buf|, c) && |s| >= 2 && s[0] != 0
    ensures var n := Min(s[0], |buf| - c.q);
            DrawnAt(f, s, buf, c) == DrawnAt(f, s[2..], Put(buf, c.q, Run(f.rle8, n, s[1])), Cursor(c.q + n, c.x + n, c.y))
  {}

  lemma DrawnShort(f: Format, s: seq<Byte>, buf: seq<Byte>, c: Cursor)
    requires OnImage(f, |buf|, c) && |s| < 2
    ensures DrawnAt(f, s, buf, c) == Truncated
  {}

  /** Literal pixels that the stream is too short for. */
  lemma DrawnTooFew(f: Format, s: seq<Byte>, buf: seq<Byte>, c: Cursor)
    requires OnImage(f, |buf|, c) && |s| >= 2 && s[0] == 0 && s[1] > 2
    requires |s[2..]| < LiteralBytes(f.rle8, Min(s[1], |buf| - c.q))
    ensures DrawnAt(f, s, buf, c) == Truncated
  {}

  /** Literal pixels that are there. */
  lemma DrawnLiteral(f: Format, s: seq<Byte>, buf: seq<Byte>, c: Cursor)
    requires OnImage(f, |buf|, c) && |s| >= 2 && s[0] == 0 && s[1] > 2
    requires LiteralBytes(f.rle8, Min(s[1], |buf| - c.q)) <= |s[2..]|
    ensures var n := Min(s[1], |buf| - c.q);
            DrawnAt(f, s, buf, c) == DrawnAt(f, BehindLiteral(f.rle8, s[2..], n), Put(buf, c.q, Literal(f.rle8, s[2..], n)),
                                             Cursor(c.q + n, c.x + n, c.y))
  {}

  lemma DrawnEscape(f: Format, s: seq<Byte>, buf: seq<Byte>, c: Cursor)
    requires OnImage(f, |buf|, c) && |s| >= 2 && s[0] == 0 && s[1] <= 2
    ensures s[1] == 0 ==> DrawnAt(f, s, buf, c) == DrawnAt(f, s[2..], buf, Cursor((c.y + 1) * f.columns, 0, c.y + 1))
    ensures s[1] == 1 ==> DrawnAt(f, s, buf, c) == Image(buf)
    ensures s[1] == 2 && |s| < 4 ==> DrawnAt(f, s, buf, c) == Truncated
    ensures s[1] == 2 && |s| >= 4 ==>
            DrawnAt(f, s, buf, c) == DrawnAt(f, s[4..], buf, Cursor((c.y + s[3]) * f.columns + c.x + s[2], c.x + s[2], c.y + s[3]))
  {}

  /** What one turn of the decoding loop leaves to be drawn. */
  ghost predicate Turned(f: Format, goal: Decoded, status: Status, rest: seq<Byte>, buf: seq<Byte>, c: Cursor) {
    match status
    case Going => goal == DrawnAt(f, rest, buf, c)
    case Finished => goal == Image(buf)
    case Failed => goal == Truncated
  }

  /** One command. */
  method Command(f: Format, blob: Blob, pixels: array<Byte>, c: Cursor) returns (status: Status, d: Cursor)
    requires OnImage(f, pixels.Length, c)
    modifies blob, pixels
    ensures Turned(f, old(DrawnAt(f, blob.Rest(), pixels[..], c)), status, blob.Rest(), pixels[..], d)
    ensures status == Going ==> |blob.Rest()| < |old(blob.Rest())|
  {
    hide Drawn, Put, Run, Literal;
    ghost var s, buf := blob.Rest(), pixels[..];
    d := c;
    var count := blob.ReadBlobByte();
    if count < 0 {
      DrawnShort(f, s, buf, c);
      return Failed, d;
    }
    var next := blob.ReadBlobByte();
    if next < 0 {
      DrawnShort(f, s, buf, c);
      return Failed, d;
    }
    assert blob.Rest() == s[2..];
    if count != 0 {
      DrawnRun(f, s, buf, c);
      count := Min(count, pixels.Length - c.q);
      WriteRun(f, pixels, c.q, count, next);
      return Going, Cursor(c.q + count, c.x + count, c.y);
    }
    if next > 2 {
      status, d := Absolute(f, blob, pixels, c, next, s);
    } else {
      status, d := Escape(f, blob, pixels, c, next, s);
    }
  }

  /** The pad byte, if there is one. */
  method SkipPad(blob: Blob, padded: bool)
    modifies blob
    ensures blob.Rest() == Drop(old(blob.Rest()), if padded then 1 else 0)
  {
    if padded {
      var _ := blob.ReadBlobByte();
    }
  }

  /** Literal pixels and their pad byte. */
  method Absolute(f: Format, blob: Blob, pixels: array<Byte>, c: Cursor, code: Byte, ghost s: seq<Byte>)
    returns (status: Status, d: Cursor)
    requires OnImage(f, pixels.Length, c) && |s| >= 2 && s[0] == 0 && s[1] == code > 2 && blob.Rest() == s[2..]
    modifies blob, pixels
    ensures Turned(f, old(DrawnAt(f, s, pixels[..], c)), status, blob.Rest(), pixels[..], d)
    ensures status == Going ==> |blob.Rest()| < |s|
  {
    hide Drawn, DrawnAt, Put, Literal, LiteralBytes, Padded, Drop, Turned;
    ghost var buf := pixels[..];
    var count := Min(code, pixels.Length - c.q);
    var ok := WriteLiteral(f, blob, pixels, c.q, count);
    if !ok {
      DrawnTooFew(f, s, buf, c);
      TurnedBy(f, Truncated, Failed, blob.Rest(), pixels[..], c);
      return Failed, c;
    }
    SkipPad(blob, Padded(f.rle8, count));
    status, d := Going, Cursor(c.q + count, c.x + count, c.y);
    DrawnLiteral(f, s, buf, c);
    TurnedBy(f, DrawnAt(f, s, buf, c), status, blob.Rest(), pixels[..], d);
  }

  lemma TurnedBy(f: Format, goal: Decoded, status: Status, rest: seq<Byte>, buf: seq<Byte>, c: Cursor)
    requires match status case Going => goal == DrawnAt(f, rest, buf, c) case Finished => goal == Image(buf) case Failed => goal == Truncated
    ensures Turned(f, goal, status, rest, buf, c)
  {}

  /** End of line, end of bitmap, delta. */
  method Escape(f: Format, blob: Blob, pixels: array<Byte>, c: Cursor, code: Byte, ghost s: seq<Byte>)
    returns (status: Status, d: Cursor)
    requires OnImage(f, pixels.Length, c) && |s| >= 2 && s[0] == 0 && s[1] == code <= 2 && blob.Rest() == s[2..]
    modifies blob
    ensures Turned(f, DrawnAt(f, s, pixels[..], c), status, blob.Rest(), pixels[..], d)
    ensures status == Going ==> |blob.Rest()| < |s|
  {
    hide Drawn;
    DrawnEscape(f, s, pixels[..], c);
    d := c;
    if code == 1 {
      return Finished, d;
    }
    if code == 0 {
      return Going, Cursor((c.y + 1) * f.columns, 0, c.y + 1);
    }
    var right := blob.ReadBlobByte();
    if right < 0 {
      return Failed, d;
    }
    var up := blob.ReadBlobByte();
    if up < 0 {
      return Failed, d;
    }
    return Going, Cursor((c.y + up) * f.columns + c.x + right, c.x + right, c.y + up);
  }

  /** `DecodeImage`. The array is the `columns * rows` bytes that it may write; every stream comes to an end. */
  method DecodeImage(f: Format, blob: Blob, pixels: array<Byte>) returns (pass: bool)
    requires pixels.Length == f.columns * f.rows
    modifies blob, pixels
    ensures var r := Drawn(f, old(blob.Rest()), Zeros(pixels.Length), 0, 0, 0);
            pass == r.Image? && (pass ==> pixels[..] == r.buf)
  {
    hide Drawn, Put;
    var i := 0;
    while i < pixels.Length
      invariant 0 <= i <= pixels.Length && forall k :: 0 <= k < i ==> pixels[k] == 0
      modifies pixels
    {
      pixels[i] := 0;
      i := i + 1;
    }
    assert pixels[..] == Zeros(pixels.Length);
    ghost var goal := DrawnAt(f, blob.Rest(), pixels[..], Cursor(0, 0, 0));
    var c := Cursor(0, 0, 0);
    var status := Going;
    while status == Going && OnImage(f, pixels.Length, c)
      invariant status != Failed && Turned(f, goal, status, blob.Rest(), pixels[..], c)
      decreases |blob.Rest()|, if status == Going then 1 else 0
    {
      status, c := Command(f, blob, pixels, c);
      if status == Failed {
        return false;
      }
      if status == Finished {
        return true;
      }
    }
    DrawnNoMore(f, blob.Rest(), pixels[..], c);
    var _ := blob.ReadBlobByte();
    var _ := blob.ReadBlobByte();
    return true;
  }

  lemma DrawnNoMore(f: Format, s: seq<Byte>, buf: seq<Byte>, c: Cursor)
    ensures !OnImage(f, |buf|, c) ==> DrawnAt(f, s, buf, c) == Image(buf)
  {}
}
