/** The commands of run-length data one by one, for pixels of eight bits and of four, and pictures written in them. */
module RunLengthForms {
  import opened Varint
  import opened RunLength

  /** Pixels of the format: of four bits, they are below sixteen. */
  predicate Fits(rle8: bool, s: seq<Byte>) {
    rle8 || forall i :: 0 <= i < |s| ==> s[i] < 16
  }

  /** Two pixels in a byte, the first one in the high half. */
  function Packed(s: seq<Byte>): (r: seq<Byte>)
    requires Fits(false, s)
    ensures |r| == (|s| + 1) / 2
  {
    if s == [] then []
    else if |s| == 1 then [16 * s[0]]
    else [16 * s[0] + s[1]] + Packed(s[2..])
  }

  /** The bytes of the literal pixels, without the pad byte. */
  function LiteralData(rle8: bool, s: seq<Byte>): (r: seq<Byte>)
    requires Fits(rle8, s)
    ensures |r| == if rle8 then |s| else (|s| + 1) / 2
  {
    if rle8 then s else Packed(s)
  }

  /** Literal pixels: their number behind a zero, the pixels, and a byte to make their bytes even. */
  function LiteralCommand(rle8: bool, s: seq<Byte>): (r: seq<Byte>)
    requires Fits(rle8, s) && 3 <= |s| <= 255
    ensures |r| > 2
  {
    var data := LiteralData(rle8, s);
    [0, |s|] + data + (if |data| % 2 == 1 then [0] else [])
  }

  /** `buf` with `s` written over what was there. */
  function Over(buf: seq<Byte>, q: nat, s: seq<Byte>): (r: seq<Byte>)
    requires q + |s| <= |buf|
    ensures |r| == |buf|
  {
    buf[..q] + s + buf[q + |s|..]
  }

  lemma {:induction false} PackedHalves(s: seq<Byte>, i: nat)
    requires Fits(false, s) && i < |s|
    ensures s[i] == if i % 2 == 0 then Packed(s)[i / 2] / 16 else Packed(s)[i / 2] % 16
  {
    if i >= 2 {
      PackedHalves(s[2..], i - 2);
      assert Packed(s)[i / 2] == Packed(s[2..])[(i - 2) / 2];
    }
  }

  lemma PadsToEven(rle8: bool, n: nat)
    ensures Padded(rle8, n) <==> LiteralBytes(rle8, n) % 2 == 1
  {}

  lemma LiteralPixels(rle8: bool, s: seq<Byte>, tail: seq<Byte>)
    requires Fits(rle8, s)
    ensures LiteralBytes(rle8, |s|) == |LiteralData(rle8, s)| && Literal(rle8, LiteralData(rle8, s) + tail, |s|) == s
  {
    var all := LiteralData(rle8, s) + tail;
    forall i | 0 <= i < |s|
      ensures Literal(rle8, all, |s|)[i] == s[i]
    {
      if rle8 {
        assert all[i] == s[i];
      } else {
        HalfPixel(s, all, i);
      }
    }
  }

  lemma HalfPixel(s: seq<Byte>, all: seq<Byte>, i: nat)
    requires Fits(false, s) && i < |s| && |Packed(s)| <= |all| && all[..|Packed(s)|] == Packed(s)
    ensures i / 2 < |all| && Half(all[i / 2], i) == s[i]
  {
    PackedHalves(s, i);
    assert all[i / 2] == all[..|Packed(s)|][i / 2];
  }

  lemma LiteralTurn(f: Format, stream: seq<Byte>, buf: seq<Byte>, q: nat, x: int, y: int)
    requires y < f.rows && q < |buf| && |stream| >= 2 && stream[0] == 0 && 2 < stream[1] <= |buf| - q
    requires LiteralBytes(f.rle8, stream[1]) <= |stream[2..]|
    ensures var n := stream[1];
            Drawn(f, stream, buf, q, x, y)
            == Drawn(f, BehindLiteral(f.rle8, stream[2..], n), Put(buf, q, Literal(f.rle8, stream[2..], n)), q + n, x + n, y)
  {
    hide Literal, LiteralBytes, BehindLiteral, Put;
  }

  lemma BehindPad(rle8: bool, data: seq<Byte>, pad: seq<Byte>, rest: seq<Byte>, n: nat)
    requires LiteralBytes(rle8, n) == |data| && |pad| == if Padded(rle8, n) then 1 else 0
    ensures BehindLiteral(rle8, data + pad + rest, n) == rest
  {
    assert (data + pad + rest)[|data|..] == pad + rest && (pad + rest)[|pad|..] == rest;
  }

  /** Literal pixels are drawn as they are, and the stream goes on behind their pad byte. */
  lemma LiteralDraws(f: Format, s: seq<Byte>, rest: seq<Byte>, buf: seq<Byte>, q: nat, x: int, y: int)
    requires Fits(f.rle8, s) && 3 <= |s| <= 255 && y < f.rows && q + |s| <= |buf|
    ensures Drawn(f, LiteralCommand(f.rle8, s) + rest, buf, q, x, y) == Drawn(f, rest, Over(buf, q, s), q + |s|, x + |s|, y)
  {
    hide Drawn, LiteralBytes, Literal, Padded, BehindLiteral, Packed, Fits;
    var data := LiteralData(f.rle8, s);
    var pad: seq<Byte> := if |data| % 2 == 1 then [0] else [];
    var stream := LiteralCommand(f.rle8, s) + rest;
    assert stream[0] == 0 && stream[1] == |s| && stream[2..] == data + pad + rest == data + (pad + rest);
    PadsToEven(f.rle8, |s|);
    LiteralPixels(f.rle8, s, pad + rest);
    BehindPad(f.rle8, data, pad, rest, |s|);
    LiteralTurn(f, stream, buf, q, x, y);
    assert Put(buf, q, s) == Over(buf, q, s);
  }

  lemma RunTurn(f: Format, n: Byte, b: Byte, rest: seq<Byte>, buf: seq<Byte>, q: nat, x: int, y: int)
    requires n > 0 && y < f.rows && q + n <= |buf|
    ensures Drawn(f, [n, b] + rest, buf, q, x, y) == Drawn(f, rest, Put(buf, q, Run(f.rle8, n, b)), q + n, x + n, y)
  {
    assert ([n, b] + rest)[2..] == rest;
  }

  /** A run of `n` pixels: of eight bits all alike, of four bits two in turn. */
  lemma RunDraws(f: Format, n: Byte, a: Byte, b: Byte, rest: seq<Byte>, buf: seq<Byte>, q: nat, x: int, y: int)
    requires n > 0 && y < f.rows && q + n <= |buf| && (!f.rle8 ==> a < 16 && b < 16)
    ensures var code: Byte := if f.rle8 then a else 16 * a + b;
            var s := seq(n, i requires 0 <= i < n => if f.rle8 || i % 2 == 0 then a else b);
            Drawn(f, [n, code] + rest, buf, q, x, y) == Drawn(f, rest, Over(buf, q, s), q + n, x + n, y)
  {
    var code: Byte := if f.rle8 then a else 16 * a + b;
    var s := seq(n, i requires 0 <= i < n => if f.rle8 || i % 2 == 0 then a else b);
    hide Drawn;
    RunTurn(f, n, code, rest, buf, q, x, y);
    assert Run(f.rle8, n, code) == s;
    assert Put(buf, q, s) == Over(buf, q, s);
  }

  /** From any pixel, a delta and a run of one pixel draw the pixel that is `dx` to the right and `dy` rows on. */
  lemma DeltaDraws(f: Format, dx: Byte, dy: Byte, a: Byte, b: Byte, buf: seq<Byte>, x: nat, y: nat)
    requires |buf| == f.columns * f.rows && x + dx < f.columns && y + dy < f.rows && (!f.rle8 ==> a < 16 && b < 16)
    ensures 0 <= y * f.columns + x < |buf| && 0 <= (y + dy) * f.columns + (x + dx) < |buf|
    ensures var code: Byte := if f.rle8 then a else 16 * a + b;
            Drawn(f, [0, 2, dx, dy, 1, code, 0, 1], buf, y * f.columns + x, x, y)
            == Image(buf[(y + dy) * f.columns + (x + dx) := a])
  {
    hide Drawn, Fits;
    PixelInside(f, x, y);
    PixelInside(f, x + dx, y + dy);
    var code: Byte := if f.rle8 then a else 16 * a + b;
    var t := (y + dy) * f.columns + (x + dx);
    var stream: seq<Byte> := [0, 2, dx, dy, 1, code, 0, 1];
    assert stream == [0, 2, dx, dy] + ([1, code] + [0, 1]);
    DeltaTurn(f, dx, dy, [1, code] + [0, 1], buf, y * f.columns + x, x, y);
    RunDraws(f, 1, a, b, [0, 1], buf, t, x + dx, y + dy);
    var s := seq(1, i requires 0 <= i < 1 => if f.rle8 || i % 2 == 0 then a else b);
    assert s == [a] && Over(buf, t, s) == buf[t := a];
    EndOfBitmap(f, buf[t := a], t + 1, x + dx + 1, y + dy);
  }

  lemma DeltaTurn(f: Format, dx: Byte, dy: Byte, rest: seq<Byte>, buf: seq<Byte>, q: nat, x: nat, y: nat)
    requires y < f.rows && q < |buf|
    ensures Drawn(f, [0, 2, dx, dy] + rest, buf, q, x, y) == Drawn(f, rest, buf, (y + dy) * f.columns + (x + dx), x + dx, y + dy)
  {
    var stream := [0, 2, dx, dy] + rest;
    assert stream[0] == 0 && stream[1] == 2 && stream[2] == dx && stream[3] == dy && stream[4..] == rest;
  }

  lemma PixelInside(f: Format, x: nat, y: nat)
    requires x < f.columns && y < f.rows
    ensures 0 <= y * f.columns + x < f.columns * f.rows
  {
    assert f.columns * f.rows == f.rows * f.columns;
    RowFits(f.columns, f.rows, y);
  }

  lemma EndOfBitmap(f: Format, buf: seq<Byte>, q: int, x: int, y: int)
    ensures Drawn(f, [0, 1], buf, q, x, y) == Image(buf)
  {}

  // ----- whole pictures -----

  /** A picture in literal pixels as far as there are three of them, and single runs behind. */
  function InLiterals(rle8: bool, s: seq<Byte>): seq<Byte>
    requires Fits(rle8, s)
  {
    if s == [] then [0, 1]
    else if |s| < 3 then [1, if rle8 then s[0] else 16 * s[0]] + InLiterals(rle8, s[1..])
    else
      var n := if |s| < 255 then |s| else 255;
      LiteralCommand(rle8, s[..n]) + InLiterals(rle8, s[n..])
  }

  /** A picture in runs: one pixel each, or two in a byte. */
  function InRuns(rle8: bool, s: seq<Byte>): seq<Byte>
    requires Fits(rle8, s)
  {
    if s == [] then [0, 1]
    else if rle8 || |s| == 1 then [1, if rle8 then s[0] else 16 * s[0]] + InRuns(rle8, s[1..])
    else [2, 16 * s[0] + s[1]] + InRuns(rle8, s[2..])
  }

  lemma OverInParts(buf: seq<Byte>, q: nat, s: seq<Byte>, n: nat)
    requires n <= |s| && q + |s| <= |buf|
    ensures Over(Over(buf, q, s[..n]), q + n, s[n..]) == Over(buf, q, s)
  {}

  lemma {:induction false} LiteralsDraw(f: Format, s: seq<Byte>, buf: seq<Byte>, q: nat)
    requires Fits(f.rle8, s) && q + |s| == |buf| && f.rows > 0
    ensures Drawn(f, InLiterals(f.rle8, s), buf, q, q, 0) == Image(Over(buf, q, s))
    decreases |s|
  {
    hide Drawn, LiteralCommand;
    if s == [] {
      assert Over(buf, q, s) == buf;
      EndOfBitmap(f, buf, q, q, 0);
    } else if |s| < 3 {
      RunDraws(f, 1, s[0], 0, InLiterals(f.rle8, s[1..]), buf, q, q, 0);
      assert seq(1, i requires 0 <= i < 1 => if f.rle8 || i % 2 == 0 then s[0] else 0) == s[..1];
      LiteralsDraw(f, s[1..], Over(buf, q, s[..1]), q + 1);
      OverInParts(buf, q, s, 1);
    } else {
      var n := if |s| < 255 then |s| else 255;
      LiteralDraws(f, s[..n], InLiterals(f.rle8, s[n..]), buf, q, q, 0);
      LiteralsDraw(f, s[n..], Over(buf, q, s[..n]), q + n);
      OverInParts(buf, q, s, n);
    }
  }

  lemma {:induction false} RunsDraw(f: Format, s: seq<Byte>, buf: seq<Byte>, q: nat)
    requires Fits(f.rle8, s) && q + |s| == |buf| && f.rows > 0
    ensures Drawn(f, InRuns(f.rle8, s), buf, q, q, 0) == Image(Over(buf, q, s))
    decreases |s|
  {
    hide Drawn;
    if s == [] {
      assert Over(buf, q, s) == buf;
      EndOfBitmap(f, buf, q, q, 0);
    } else {
      var n := if f.rle8 || |s| == 1 then 1 else 2;
      var b := if n == 2 then s[1] else 0;
      RunDraws(f, n, s[0], b, InRuns(f.rle8, s[n..]), buf, q, q, 0);
      assert seq(n, i requires 0 <= i < n => if f.rle8 || i % 2 == 0 then s[0] else b) == s[..n];
      RunsDraw(f, s[n..], Over(buf, q, s[..n]), q + n);
      OverInParts(buf, q, s, n);
    }
  }

  /** Every picture can be written in either way, with pixels of either size, and is drawn from it again. */
  lemma PictureComesBack(f: Format, s: seq<Byte>)
    requires Fits(f.rle8, s) && |s| == f.columns * f.rows
    ensures Drawn(f, InLiterals(f.rle8, s), Zeros(|s|), 0, 0, 0) == Image(s)
    ensures Drawn(f, InRuns(f.rle8, s), Zeros(|s|), 0, 0, 0) == Image(s)
  {
    if f.rows == 0 {
      assert Zeros(|s|) == s;
    } else {
      LiteralsDraw(f, s, Zeros(|s|), 0);
      RunsDraw(f, s, Zeros(|s|), 0);
      assert Over(Zeros(|s|), 0, s) == s;
    }
  }
}
