/** When decoding an encoded image gives the image back, and when it does not. */
module RunLengthRoundTrip {
  import opened Varint
  import opened Sequences
  import opened RunLength

  /** An image of eight-bit pixels whose rows are stored with padding, `bpl` bytes to the row. */
  predicate Stored(f: Format, bpl: nat, pixels: seq<Byte>) {
    f.rle8 && 1 <= f.columns <= bpl && |pixels| == f.rows * bpl
  }

  lemma PutTwice(buf: seq<Byte>, q: nat, a: seq<Byte>, b: seq<Byte>)
    requires q + |a| + |b| <= |buf|
    ensures Put(Put(buf, q, a), q + |a|, b) == Put(buf, q, a + b)
  {}

  /** One pair at the front of a stream, as far as there is room. */
  lemma DrawPair(f: Format, n: Byte, b: Byte, rest: seq<Byte>, buf: seq<Byte>, q: nat, x: int, y: int)
    requires f.rle8 && y < f.rows && q < |buf| && n > 0
    ensures var m := Min(n, |buf| - q);
            Drawn(f, [n, b] + rest, buf, q, x, y) == Drawn(f, rest, Put(buf, q, Run(true, m, b)), q + m, x + m, y)
  {
    assert ([n, b] + rest)[2..] == rest;
  }

  /** The pairs of a row draw the row, when there is room for more behind it. */
  lemma {:induction false} DrawRow(f: Format, row: seq<Byte>, rest: seq<Byte>, buf: seq<Byte>, q: nat, x: int, y: int)
    requires f.rle8 && y < f.rows && q + |row| < |buf|
    ensures Drawn(f, RowCode(row) + rest, buf, q, x, y) == Drawn(f, rest, Put(buf, q, row), q + |row|, x + |row|, y)
    decreases |row|
  {
    hide Drawn, Put, Run, RunLen, RowCode;
    if row == [] {
      RowEmpty(row);
      assert RowCode(row) + rest == rest;
      PutEmpty(buf, q, row);
    } else {
      var n := RunLen(row);
      RowSplit(row, rest);
      CutRow(row, n);
      RunPrefix(row, n);
      DrawPair(f, n, row[0], RowCode(row[n..]) + rest, buf, q, x, y);
      DrawRow(f, row[n..], rest, Put(buf, q, row[..n]), q + n, x + n, y);
      PutTwice(buf, q, row[..n], row[n..]);
    }
  }

  lemma RowEmpty(row: seq<Byte>)
    requires row == []
    ensures RowCode(row) == []
  {}

  lemma PutEmpty(buf: seq<Byte>, q: nat, s: seq<Byte>)
    requires s == [] && q <= |buf|
    ensures Put(buf, q, s) == buf
  {}

  lemma RowSplit(row: seq<Byte>, rest: seq<Byte>)
    requires row != []
    ensures 1 <= RunLen(row) <= 255 && RunLen(row) <= |row|
    ensures RowCode(row) + rest == [RunLen(row), row[0]] + (RowCode(row[RunLen(row)..]) + rest)
  {
    hide RunLen, RowCode;
    RowUnfolds(row);
    Joined([RunLen(row), row[0]], RowCode(row[RunLen(row)..]), rest, RowCode(row));
  }

  lemma Joined(a: seq<Byte>, b: seq<Byte>, c: seq<Byte>, ab: seq<Byte>)
    requires ab == a + b
    ensures ab + c == a + (b + c)
  {}

  lemma CutRow(row: seq<Byte>, n: nat)
    requires n <= |row|
    ensures row[..n] + row[n..] == row
  {}

  lemma RowUnfolds(row: seq<Byte>)
    requires row != []
    ensures RowCode(row) == [RunLen(row), row[0]] + RowCode(row[RunLen(row)..])
  {}

  lemma RunPrefix(row: seq<Byte>, m: nat)
    requires row != [] && m <= RunLen(row)
    ensures Run(true, m, row[0]) == row[..m]
  {}

  /** A row that reaches the end of the image is cut off there, and decoding is over. */
  lemma {:induction false} DrawCut(f: Format, row: seq<Byte>, rest: seq<Byte>, buf: seq<Byte>, q: nat, x: int, y: int)
    requires f.rle8 && y < f.rows && q < |buf| <= q + |row|
    ensures Drawn(f, RowCode(row) + rest, buf, q, x, y) == Image(Put(buf, q, row[..|buf| - q]))
    decreases |row|
  {
    hide Put, Run, Drawn, RunLen, RowCode;
    var n := RunLen(row);
    RowSplit(row, rest);
    RunPrefix(row, Min(n, |buf| - q));
    DrawPair(f, n, row[0], RowCode(row[n..]) + rest, buf, q, x, y);
    if q + n < |buf| {
      DrawCut(f, row[n..], rest, Put(buf, q, row[..n]), q + n, x + n, y);
      PutTwice(buf, q, row[..n], row[n..][..|buf| - q - n]);
      assert row[..n] + row[n..][..|buf| - q - n] == row[..|buf| - q];
    } else {
      DrawOver(f, RowCode(row[n..]) + rest, Put(buf, q, row[..|buf| - q]), |buf|, x + |buf| - q, y);
    }
  }

  lemma DrawOver(f: Format, s: seq<Byte>, buf: seq<Byte>, q: int, x: int, y: int)
    requires q >= |buf| || y >= f.rows
    ensures Drawn(f, s, buf, q, x, y) == Image(buf)
  {}

  lemma DrawLine(f: Format, rest: seq<Byte>, buf: seq<Byte>, q: nat, x: int, y: int)
    requires y < f.rows && q < |buf|
    ensures Drawn(f, [0, 0] + rest, buf, q, x, y) == Drawn(f, rest, buf, (y + 1) * f.columns, 0, y + 1)
  {
    assert ([0, 0] + rest)[2..] == rest;
  }

  /** Decoding from the start of row `y` on. */
  function FromRow(f: Format, bpl: nat, pixels: seq<Byte>, y: nat, buf: seq<Byte>): Decoded
    requires Stored(f, bpl, pixels) && y <= f.rows
  {
    Drawn(f, Encoded(pixels, bpl, f.rows, y), buf, y * f.columns, 0, y)
  }

  /** Whether a row with its padding ends before the image does. */
  predicate HasRoom(f: Format, bpl: nat, y: nat) {
    y * f.columns + bpl < f.columns * f.rows
  }

  /** One row: its pixels are drawn, its padding spills over, and the next row starts where it should. */
  lemma NextRow(f: Format, bpl: nat, pixels: seq<Byte>, y: nat, buf: seq<Byte>)
    requires Stored(f, bpl, pixels) && y < f.rows && |buf| == f.columns * f.rows && HasRoom(f, bpl, y)
    ensures 0 <= y * f.columns
    ensures FromRow(f, bpl, pixels, y, buf)
         == FromRow(f, bpl, pixels, y + 1, Put(buf, y * f.columns, Row(pixels, bpl, f.rows, y)))
  {
    hide Drawn, RowCode, Put, Row;
    var row := Row(pixels, bpl, f.rows, y);
    var rest := Encoded(pixels, bpl, f.rows, y + 1);
    assert y * f.columns >= 0;
    Assoc(RowCode(row), [0, 0], rest);
    DrawRow(f, row, [0, 0] + rest, buf, y * f.columns, 0, y);
    DrawLine(f, rest, Put(buf, y * f.columns, row), y * f.columns + bpl, bpl, y);
  }

  /** A row without room ends the image. */
  lemma LastRow(f: Format, bpl: nat, pixels: seq<Byte>, y: nat, buf: seq<Byte>)
    requires Stored(f, bpl, pixels) && y < f.rows && |buf| == f.columns * f.rows && !HasRoom(f, bpl, y)
    ensures 0 <= y * f.columns < |buf| && |buf| - y * f.columns <= bpl
    ensures FromRow(f, bpl, pixels, y, buf)
         == Image(Put(buf, y * f.columns, Row(pixels, bpl, f.rows, y)[..|buf| - y * f.columns]))
  {
    hide Drawn, RowCode, Put, Row;
    var row := Row(pixels, bpl, f.rows, y);
    RowFits(f.columns, f.rows, y);
    assert f.columns * f.rows == f.rows * f.columns;
    Assoc(RowCode(row), [0, 0], Encoded(pixels, bpl, f.rows, y + 1));
    DrawCut(f, row, [0, 0] + Encoded(pixels, bpl, f.rows, y + 1), buf, y * f.columns, 0, y);
  }

  /** Row `y` of the decoded image holds the pixels of the original row, without its padding. */
  predicate Restored(f: Format, bpl: nat, pixels: seq<Byte>, buf: seq<Byte>, y: nat)
    requires Stored(f, bpl, pixels) && |buf| == f.rows * f.columns && y < f.rows
  {
    Row(buf, f.columns, f.rows, y) == Row(pixels, bpl, f.rows, y)[..f.columns]
  }

  /** The rows below `n` are restored. */
  predicate RestoredTo(f: Format, bpl: nat, pixels: seq<Byte>, buf: seq<Byte>, n: nat)
    requires Stored(f, bpl, pixels)
  {
    |buf| == f.rows * f.columns && forall y :: 0 <= y < n && y < f.rows ==> Restored(f, bpl, pixels, buf, y)
  }

  /** Writing at least a row's worth of pixels at row `y` restores it and leaves the rows before it alone. */
  lemma PutRow(f: Format, bpl: nat, pixels: seq<Byte>, buf: seq<Byte>, y: nat, s: seq<Byte>)
    requires Stored(f, bpl, pixels) && y < f.rows && RestoredTo(f, bpl, pixels, buf, y)
    requires f.columns <= |s| && 0 <= y * f.columns && y * f.columns + |s| <= |buf|
    requires s[..f.columns] == Row(pixels, bpl, f.rows, y)[..f.columns]
    ensures RestoredTo(f, bpl, pixels, Put(buf, y * f.columns, s), y + 1)
  {
    var next := Put(buf, y * f.columns, s);
    forall j | 0 <= j < y + 1
      ensures Restored(f, bpl, pixels, next, j)
    {
      PutAt(f, buf, y, s, j);
      if j < y {
        assert Restored(f, bpl, pixels, buf, j);
      }
    }
  }

  lemma PutAt(f: Format, buf: seq<Byte>, y: nat, s: seq<Byte>, j: nat)
    requires |buf| == f.rows * f.columns && j <= y < f.rows && f.columns <= |s|
    requires 0 <= y * f.columns && y * f.columns + |s| <= |buf|
    ensures Row(Put(buf, y * f.columns, s), f.columns, f.rows, j)
         == if j < y then Row(buf, f.columns, f.rows, j) else s[..f.columns]
  {
    RowFits(f.columns, f.rows, j);
    if j < y {
      RowFits(f.columns, y, j);
      Below(buf, y * f.columns, s, j * f.columns, f.columns);
    } else {
      Inside(buf, y * f.columns, s, f.columns);
    }
  }

  lemma Below(buf: seq<Byte>, q: nat, s: seq<Byte>, a: nat, n: nat)
    requires q + |s| <= |buf| && a + n <= q
    ensures Put(buf, q, s)[a..a + n] == buf[a..a + n]
  {}

  lemma Inside(buf: seq<Byte>, q: nat, s: seq<Byte>, n: nat)
    requires q + |s| <= |buf| && n <= |s|
    ensures Put(buf, q, s)[q..q + n] == s[..n]
  {}

  /** The padding of a row never reaches past the row behind it, and the last row has no row behind it. */
  predicate PaddingFits(f: Format, bpl: nat) {
    f.rows <= 1 || bpl < 2 * f.columns
  }

  lemma RoomBeforeLast(f: Format, bpl: nat, y: nat)
    requires f.columns <= bpl && PaddingFits(f, bpl) && y < f.rows
    ensures HasRoom(f, bpl, y) ==> y + 1 < f.rows
    ensures !HasRoom(f, bpl, y) ==> y + 1 == f.rows
  {
    RowsLeft(f, y);
    Times(f.rows - y, f.columns);
  }

  lemma RowsLeft(f: Format, y: nat)
    ensures f.columns * f.rows == y * f.columns + (f.rows - y) * f.columns
  {}

  lemma Times(k: int, c: nat)
    ensures k >= 2 ==> k * c >= 2 * c
    ensures k == 1 ==> k * c == c
    ensures k <= 2 ==> k * c <= 2 * c
  {}

  lemma {:induction false} RestoresFrom(f: Format, bpl: nat, pixels: seq<Byte>, y: nat, buf: seq<Byte>)
    requires Stored(f, bpl, pixels) && PaddingFits(f, bpl) && y <= f.rows && RestoredTo(f, bpl, pixels, buf, y)
    ensures FromRow(f, bpl, pixels, y, buf).Image?
    ensures RestoredTo(f, bpl, pixels, FromRow(f, bpl, pixels, y, buf).buf, f.rows)
    decreases f.rows - y
  {
    hide Drawn, Put, Row, RestoredTo;
    assert |buf| == f.rows * f.columns == f.columns * f.rows by {
      SizeOf(f, bpl, pixels, buf, y);
    }
    if y == f.rows {
      DrawOver(f, Encoded(pixels, bpl, f.rows, y), buf, y * f.columns, 0, y);
      return;
    }
    RoomBeforeLast(f, bpl, y);
    var row := Row(pixels, bpl, f.rows, y);
    if HasRoom(f, bpl, y) {
      NextRow(f, bpl, pixels, y, buf);
      PutRow(f, bpl, pixels, buf, y, row);
      RestoresFrom(f, bpl, pixels, y + 1, Put(buf, y * f.columns, row));
    } else {
      LastRow(f, bpl, pixels, y, buf);
      LastLength(f, y);
      PutRow(f, bpl, pixels, buf, y, row[..f.columns]);
    }
  }

  lemma SizeOf(f: Format, bpl: nat, pixels: seq<Byte>, buf: seq<Byte>, y: nat)
    requires Stored(f, bpl, pixels) && RestoredTo(f, bpl, pixels, buf, y)
    ensures |buf| == f.rows * f.columns
  {}

  lemma LastLength(f: Format, y: nat)
    requires y + 1 == f.rows
    ensures f.columns * f.rows - y * f.columns == f.columns
  {
    assert f.columns * f.rows == y * f.columns + f.columns;
  }

  /** What decoding makes of an encoded image. */
  function RoundTripped(f: Format, bpl: nat, pixels: seq<Byte>): Decoded
    requires Stored(f, bpl, pixels)
  {
    Drawn(f, Encoded(pixels, bpl, f.rows, 0), Zeros(f.columns * f.rows), 0, 0, 0)
  }

  predicate ComesBack(f: Format, bpl: nat, pixels: seq<Byte>)
    requires Stored(f, bpl, pixels)
  {
    var r := RoundTripped(f, bpl, pixels);
    r.Image? && RestoredTo(f, bpl, pixels, r.buf, f.rows)
  }

  /** With padding that fits, every image comes back. */
  lemma RoundTrip(f: Format, bpl: nat, pixels: seq<Byte>)
    requires Stored(f, bpl, pixels) && PaddingFits(f, bpl)
    ensures ComesBack(f, bpl, pixels)
  {
    hide Drawn;
    var buf := Zeros(f.columns * f.rows);
    assert f.columns * f.rows == f.rows * f.columns;
    RestoresFrom(f, bpl, pixels, 0, buf);
    assert 0 * f.columns == 0;
  }

  // ----- when it fails -----

  /** Black but for the first pixel of the last row. */
  function Dark(bpl: nat, rows: nat): (s: seq<Byte>)
    requires bpl > 0 && rows > 0
    ensures |s| == rows * bpl
  {
    RowFits(bpl, rows, rows - 1);
    Zeros((rows - 1) * bpl) + [1] + Zeros(rows * bpl - (rows - 1) * bpl - 1)
  }

  lemma DarkRows(bpl: nat, rows: nat, y: nat)
    requires bpl > 0 && y < rows
    ensures y + 1 < rows ==> Row(Dark(bpl, rows), bpl, rows, y) == Zeros(bpl)
    ensures y + 1 == rows ==> Row(Dark(bpl, rows), bpl, rows, y)[0] == 1
  {
    RowFits(bpl, rows, y);
    RowFits(bpl, rows, rows - 1);
    if y + 1 < rows {
      RowFits(bpl, rows - 1, y);
    }
    Spike((rows - 1) * bpl, rows * bpl - (rows - 1) * bpl - 1, y * bpl, bpl);
    assert y + 1 == rows ==> y * bpl == (rows - 1) * bpl;
  }

  lemma Spike(n: nat, m: nat, a: nat, k: nat)
    requires k > 0 && a + k <= n + 1 + m
    ensures a + k <= n ==> (Zeros(n) + [1] + Zeros(m))[a..a + k] == Zeros(k)
    ensures a == n ==> (Zeros(n) + [1] + Zeros(m))[a..a + k][0] == 1
  {}

  lemma PutZeros(n: nat, q: nat, k: nat)
    requires q + k <= n
    ensures Put(Zeros(n), q, Zeros(k)) == Zeros(n)
  {}

  /** Padding as wide as a row ends the image before its last row is drawn. */
  lemma {:induction false} StaysDark(f: Format, bpl: nat, y: nat)
    requires f.rle8 && 1 <= f.columns && 2 * f.columns <= bpl && y + 2 <= f.rows
    ensures FromRow(f, bpl, Dark(bpl, f.rows), y, Zeros(f.columns * f.rows)) == Image(Zeros(f.columns * f.rows))
    decreases f.rows - y
  {
    hide Drawn, Row, Put, Dark, Zeros;
    var size := f.columns * f.rows;
    DarkRows(bpl, f.rows, y);
    assert y * f.columns >= 0;
    if HasRoom(f, bpl, y) {
      NextRow(f, bpl, Dark(bpl, f.rows), y, Zeros(size));
      PutZeros(size, y * f.columns, bpl);
      NotYetLast(f, bpl, y);
      StaysDark(f, bpl, y + 1);
    } else {
      LastRow(f, bpl, Dark(bpl, f.rows), y, Zeros(size));
      ZerosCut(bpl, size - y * f.columns);
      PutZeros(size, y * f.columns, size - y * f.columns);
    }
  }

  lemma ZerosCut(n: nat, k: nat)
    requires k <= n
    ensures Zeros(n)[..k] == Zeros(k)
  {}

  lemma NotYetLast(f: Format, bpl: nat, y: nat)
    requires 2 * f.columns <= bpl && HasRoom(f, bpl, y) && y + 2 <= f.rows
    ensures y + 3 <= f.rows
  {
    RowsLeft(f, y);
    Times(f.rows - y, f.columns);
  }

  /** Every image of a size comes back exactly when its padding fits. */
  lemma RoundTripIff(f: Format, bpl: nat)
    requires f.rle8 && 1 <= f.columns <= bpl
    ensures (forall pixels :: Stored(f, bpl, pixels) ==> ComesBack(f, bpl, pixels)) <==> PaddingFits(f, bpl)
  {
    hide Drawn, Encoded, Row, ComesBack;
    if PaddingFits(f, bpl) {
      forall pixels | Stored(f, bpl, pixels)
        ensures ComesBack(f, bpl, pixels)
      {
        RoundTrip(f, bpl, pixels);
      }
    } else {
      DarkIsLost(f, bpl);
      assert Stored(f, bpl, Dark(bpl, f.rows));
    }
  }

  lemma DarkIsLost(f: Format, bpl: nat)
    requires f.rle8 && 1 <= f.columns && !PaddingFits(f, bpl)
    ensures Stored(f, bpl, Dark(bpl, f.rows)) && !ComesBack(f, bpl, Dark(bpl, f.rows))
  {
    hide Drawn, Dark;
    var pixels := Dark(bpl, f.rows);
    var last := f.rows - 1;
    StaysDark(f, bpl, 0);
    assert 0 * f.columns == 0;
    DarkRows(bpl, f.rows, last);
    RowFits(f.columns, f.rows, last);
    var buf := Zeros(f.columns * f.rows);
    assert f.columns * f.rows == f.rows * f.columns;
    assert Row(buf, f.columns, f.rows, last)[0] == 0;
    assert !Restored(f, bpl, pixels, buf, last);
  }

  /** The writer rounds rows up to a multiple of four bytes, so only images of one or two columns are lost. */
  lemma WriterRows(columns: nat)
    requires columns >= 1
    ensures var bpl := 4 * ((columns * 8 + 31) / 32);
            columns <= bpl && (bpl < 2 * columns <==> columns >= 3)
  {}
}
