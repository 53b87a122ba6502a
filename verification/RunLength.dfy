/** BMP run-length data: what a stream of commands draws, and the stream that stands for an image. */
module RunLength {
  import opened Varint

  // ----- decoding -----

  /** The pixels, or nothing when the stream ends in the middle of a command. */
  datatype Decoded = Image(buf: seq<Byte>) | Truncated

  function Min(a: int, b: int): int {
    if a < b then a else b
  }

  /** `buf` with `s` written at `q`. */
  function Put(buf: seq<Byte>, q: nat, s: seq<Byte>): (r: seq<Byte>)
    requires q + |s| <= |buf|
    ensures |r| == |buf|
  {
    buf[..q] + s + buf[q + |s|..]
  }

  /** The pixel number `i` of an encoded run, or of a byte that holds two pixels. */
  function Half(b: Byte, i: nat): Byte {
    if i % 2 == 1 then b % 16 else b / 16
  }

  function Run(rle8: bool, count: nat, b: Byte): (s: seq<Byte>)
    ensures |s| == count
  {
    seq(count, i requires 0 <= i < count => if rle8 then b else Half(b, i))
  }

  /** How many bytes `count` literal pixels take, without the pad byte. */
  function LiteralBytes(rle8: bool, count: nat): (n: nat)
    ensures n <= count && (count > 0 ==> n > 0)
  {
    if rle8 then count else (count + 1) / 2
  }

  function Literal(rle8: bool, data: seq<Byte>, count: nat): (s: seq<Byte>)
    requires LiteralBytes(rle8, count) <= |data|
    ensures |s| == count
  {
    seq(count, i requires 0 <= i < count => if rle8 then data[i] else Half(data[i / 2], i))
  }

  /** Whether literal pixels are followed by a pad byte. */
  predicate Padded(rle8: bool, count: nat) {
    if rle8 then count % 2 == 1 else count % 4 == 1 || count % 4 == 2
  }

  function Drop(s: seq<Byte>, n: nat): (r: seq<Byte>)
    ensures |r| <= |s| && (n > 0 && s != [] ==> |r| < |s|)
  {
    if n <= |s| then s[n..] else []
  }

  /** The stream behind literal pixels and their pad byte. */
  function BehindLiteral(rle8: bool, data: seq<Byte>, n: nat): (rest: seq<Byte>)
    requires LiteralBytes(rle8, n) <= |data|
    ensures |rest| <= |data|
  {
    Drop(data[LiteralBytes(rle8, n)..], if Padded(rle8, n) then 1 else 0)
  }

  /** The image format: pixels of eight bits or of four, and the size. */
  datatype Format = Format(rle8: bool, columns: nat, rows: nat)

  /** What remains to be drawn by `stream` from pixel `q` on, in row `y` with `x` pixels drawn. */
  function Drawn(f: Format, stream: seq<Byte>, buf: seq<Byte>, q: int, x: int, y: int): (r: Decoded)
    ensures r.Image? ==> |r.buf| == |buf|
    decreases |stream|
  {
    if y >= f.rows || q < 0 || q >= |buf| then Image(buf)
    else if |stream| < 2 then Truncated
    else if stream[0] != 0 then
      var count := Min(stream[0], |buf| - q);
      Drawn(f, stream[2..], Put(buf, q, Run(f.rle8, count, stream[1])), q + count, x + count, y)
    else if stream[1] == 1 then Image(buf)
    else if stream[1] == 0 then Drawn(f, stream[2..], buf, (y + 1) * f.columns, 0, y + 1)
    else if stream[1] == 2 then
      if |stream| < 4 then Truncated
      else Drawn(f, stream[4..], buf, (y + stream[3]) * f.columns + x + stream[2], x + stream[2], y + stream[3])
    else
      var count := Min(stream[1], |buf| - q);
      if |stream[2..]| < LiteralBytes(f.rle8, count) then Truncated
      else
        var rest := BehindLiteral(f.rle8, stream[2..], count);
        Drawn(f, rest, Put(buf, q, Literal(f.rle8, stream[2..], count)), q + count, x + count, y)
  }

  function Zeros(n: nat): (s: seq<Byte>)
    ensures |s| == n
  {
    seq(n, i => 0)
  }

  // ----- encoding -----

  /** How many of the first bytes of `row` are equal, up to 255. */
  function RunLen(row: seq<Byte>): (i: nat)
    requires row != []
    ensures 1 <= i <= 255 && i <= |row|
    ensures forall k :: 0 <= k < i ==> row[k] == row[0]
    ensures i == 255 || i == |row| || row[i] != row[0]
  {
    RunFrom(row, 1)
  }

  function RunFrom(row: seq<Byte>, i: nat): (r: nat)
    requires 1 <= i <= |row| && i <= 255 && forall k :: 0 <= k < i ==> row[k] == row[0]
    ensures i <= r <= 255 && r <= |row|
    ensures forall k :: 0 <= k < r ==> row[k] == row[0]
    ensures r == 255 || r == |row| || row[r] != row[0]
    decreases |row| - i
  {
    if i == |row| || i == 255 || row[i] != row[0] then i else RunFrom(row, i + 1)
  }

  /** A row as pairs of a count and a byte. */
  function RowCode(row: seq<Byte>): (s: seq<Byte>)
    ensures |s| <= 2 * |row|
  {
    if row == [] then [] else [RunLen(row), row[0]] + RowCode(row[RunLen(row)..])
  }

  /** The stream for the rows from `y` on: each ends with a mark, and the last with the end of the bitmap. */
  function Encoded(pixels: seq<Byte>, bpl: nat, rows: nat, y: nat): (s: seq<Byte>)
    requires |pixels| == rows * bpl && y <= rows
    decreases rows - y
  {
    if y == rows then [0, 1]
    else RowCode(Row(pixels, bpl, rows, y)) + [0, 0] + Encoded(pixels, bpl, rows, y + 1)
  }

  function Row(pixels: seq<Byte>, bpl: nat, rows: nat, y: nat): (r: seq<Byte>)
    requires |pixels| == rows * bpl && y < rows
    ensures |r| == bpl
  {
    RowFits(bpl, rows, y);
    pixels[y * bpl..y * bpl + bpl]
  }

  lemma RowFits(bpl: nat, rows: nat, y: nat)
    requires y < rows
    ensures 0 <= y * bpl && y * bpl + bpl <= rows * bpl
  {
    assert (rows - y - 1) * bpl >= 0;
    assert rows * bpl == y * bpl + bpl + (rows - y - 1) * bpl;
  }

  /** What the pairs of a row stand for. */
  function Expand(code: seq<Byte>): seq<Byte> {
    if |code| < 2 then [] else Run(true, code[0], code[1]) + Expand(code[2..])
  }

  /** Pairs of a count that is not zero and a byte. */
  predicate Pairs(code: seq<Byte>) {
    code == [] || (|code| >= 2 && code[0] > 0 && Pairs(code[2..]))
  }

  /** A row is written in pairs whose counts are from 1 to 255, and together they stand for the row. */
  lemma {:induction false} RowCodeExpands(row: seq<Byte>)
    ensures Pairs(RowCode(row)) && Expand(RowCode(row)) == row
    decreases |row|
  {
    if row != [] {
      var n := RunLen(row);
      RowCodeExpands(row[n..]);
      Front(n, row[0], RowCode(row[n..]));
      RunOfRow(row);
    }
  }

  lemma Front(a: Byte, b: Byte, s: seq<Byte>)
    ensures ([a, b] + s)[0] == a && ([a, b] + s)[1] == b && ([a, b] + s)[2..] == s
  {}

  lemma RunOfRow(row: seq<Byte>)
    requires row != []
    ensures Run(true, RunLen(row), row[0]) + row[RunLen(row)..] == row
  {}

  /** The writer's buffer is large enough. */
  lemma {:induction false} EncodedLength(pixels: seq<Byte>, bpl: nat, rows: nat, y: nat)
    requires |pixels| == rows * bpl && y <= rows
    ensures |Encoded(pixels, bpl, rows, y)| <= 2 * ((rows - y) * (bpl + 1)) + 2
    decreases rows - y
  {
    if y < rows {
      EncodedLength(pixels, bpl, rows, y + 1);
      assert (rows - y) * (bpl + 1) == (rows - y - 1) * (bpl + 1) + (bpl + 1);
    }
  }

  lemma BufferFits(bpl: nat, rows: nat)
    ensures 2 * (rows * (bpl + 1)) + 2 <= 2 * ((bpl + 2) * (rows + 2)) + 2
  {
    assert (bpl + 2) * (rows + 2) == rows * (bpl + 1) + rows + 2 * (bpl + 2);
  }
}
