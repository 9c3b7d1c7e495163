/** Bitmaps as they are written by other programs: a header, then padded rows, in either order and with
    three or four bytes a pixel. */
module DibRows {
  import opened Bytes
  import opened Dib

  /** The first words of a header: its size, the sides, one plane, bits a pixel, no compression. */
  function FirstWords(size: nat, width: nat, height: nat, bits: nat): (h: seq<byte>)
    ensures |h| == 20
  {
    Le(size, 4) + Le(width, 4) + Le(height, 4) + Le(1, 2) + Le(bits, 2) + Le(0, 4)
  }

  /** The height word of rows that begin at the top is negative. */
  function HeightWord(height: nat, topDown: bool): nat
    requires height <= MAX_I32
  {
    if topDown && height > 0 then 0x1_0000_0000 - height else height
  }

  lemma FirstWordsSplit(size: nat, width: nat, height: nat, bits: nat)
    ensures var h := FirstWords(size, width, height, bits);
            && h[0..4] == Le(size, 4) && h[4..8] == Le(width, 4) && h[8..12] == Le(height, 4)
            && h[12..14] == Le(1, 2) && h[14..16] == Le(bits, 2) && h[16..20] == Le(0, 4)
  {
    hide Le;
  }

  lemma WordsRead(size: nat, width: nat, height: nat, bits: nat, data: seq<byte>)
    requires size < 0x1_0000_0000 && width < 0x1_0000_0000 && height < 0x1_0000_0000 && bits < 0x1_0000
    requires |data| >= 20 && data[..20] == FirstWords(size, width, height, bits)
    ensures U(data, 0, 4) == size && U(data, 4, 4) == width && U(data, 8, 4) == height
    ensures U(data, 12, 2) == 1 && U(data, 14, 2) == bits && U(data, 16, 4) == 0
  {
    hide Le, U, Pow256;
    FirstWordsSplit(size, width, height, bits);
    hide FirstWords;
    assert data[0..20] == data[..20];
    SliceOf(data, 0, 20, 0, 4);
    SliceOf(data, 0, 20, 4, 8);
    SliceOf(data, 0, 20, 8, 12);
    SliceOf(data, 0, 20, 12, 14);
    SliceOf(data, 0, 20, 14, 16);
    SliceOf(data, 0, 20, 16, 20);
    Pow256Values();
    WordAt(data, 0, size, 4);
    WordAt(data, 4, width, 4);
    WordAt(data, 8, height, 4);
    WordAt(data, 12, 1, 2);
    WordAt(data, 14, bits, 2);
    WordAt(data, 16, 0, 4);
  }

  /** Nothing else decodes than uncompressed bitmaps of one plane and 24 or 32 bits. */
  lemma DecodesOnly(dib: seq<byte>)
    requires ToRgba(dib).Some?
    ensures |dib| > 40 && dib[12..14] == [1, 0] && dib[14] in {24, 32} && dib[15] == 0 && dib[16..20] == [0, 0, 0, 0]
  {
    TwoBytes(dib[12..14]);
    TwoBytes(dib[14..16]);
    FourZeros(dib[16..20]);
    HasRows(dib);
    hide FromLe;
  }

  lemma TwoBytes(s: seq<byte>)
    requires |s| == 2
    ensures FromLe(s) == s[0] + 256 * s[1] as int
  {
    assert FromLe(s[1..]) == s[1] + 256 * FromLe(s[2..]);
  }

  lemma FourZeros(s: seq<byte>)
    requires |s| == 4
    ensures FromLe(s) == 0 ==> s == [0, 0, 0, 0]
  {
    assert FromLe(s) == s[0] + 256 * FromLe(s[1..]);
    assert FromLe(s[1..]) == s[1] + 256 * FromLe(s[1..][1..]);
    assert FromLe(s[1..][1..]) == s[2] + 256 * FromLe(s[1..][1..][1..]);
  }

  lemma HasRows(dib: seq<byte>)
    requires ToRgba(dib).Some?
    ensures |dib| > 40
  {
    var l := Parse(dib).value;
    RowCovers(l.width * l.bpp);
    MulStep(RowPadded(l.width, l.bpp), 0, l.height);
    TimesZero(RowPadded(l.width, l.bpp));
    Grows(l.width, l.bpp);
    hide Parse, RowPadded;
  }

  lemma Grows(width: nat, bpp: nat)
    requires width > 0 && bpp > 0
    ensures RowPadded(width, bpp) > 0
  {
    MulStep(bpp, 0, width);
    TimesZero(bpp);
    Commute(bpp, width);
    RowCovers(width * bpp);
  }

  ghost predicate AllLong(rows: seq<seq<byte>>, stride: nat) {
    forall i :: 0 <= i < |rows| ==> |rows[i]| == stride
  }

  lemma {:induction false} RowsLength(rows: seq<seq<byte>>, stride: nat)
    requires AllLong(rows, stride)
    ensures |Flatten(rows)| == stride * |rows|
  {
    if rows == [] {
      TimesZero(stride);
    } else {
      assert AllLong(rows[1..], stride);
      RowsLength(rows[1..], stride);
      assert stride * |rows| == stride + stride * (|rows| - 1);
    }
  }

  /** Byte `j` of row `row`. */
  lemma {:induction false} RowByte(rows: seq<seq<byte>>, stride: nat, row: nat, j: nat)
    requires AllLong(rows, stride) && row < |rows| && j < stride
    ensures stride * row + j < |Flatten(rows)| && Flatten(rows)[stride * row + j] == rows[row][j]
  {
    assert |rows[0]| == stride;
    if row == 0 {
      TimesZero(stride);
    } else {
      assert AllLong(rows[1..], stride);
      RowByte(rows[1..], stride, row - 1, j);
      assert stride * row == stride + stride * (row - 1);
    }
  }

  /** The multiple of four that pads a row is the next one. */
  lemma PaddedIs(width: nat, bpp: nat, stride: nat)
    requires stride % 4 == 0 && width * bpp <= stride < width * bpp + 4
    ensures RowPadded(width, bpp) == stride
  {
    var n := width * bpp;
    assert RowPadded(width, bpp) == (n + 3) / 4 * 4;
  }

  /** What pixel `(x, y)` shows in channel `c`: rows are bottom first unless `topDown`, pixels are BGR
      or BGRA, and what has no alpha is opaque. */
  function Shown(rows: seq<seq<byte>>, topDown: bool, bpp: nat, y: nat, x: nat, c: nat): byte
    requires y < |rows| && c < 4 && 3 <= bpp <= 4
  {
    var row := rows[if topDown then y else |rows| - 1 - y];
    var j := bpp * x + if c < 3 then 2 - c else 3;
    if c == 3 && bpp == 3 then 255 else if 0 <= j < |row| then row[j] else 0
  }

  ghost predicate Bitmap(dib: seq<byte>, rest: seq<byte>, rows: seq<seq<byte>>, width: nat, bpp: nat, topDown: bool,
                         stride: nat)
  {
    && 3 <= bpp <= 4 && 0 < width <= MAX_I32 && 0 < |rows| <= MAX_I32 && 20 <= |rest| < 0x1_0000_0000 - 20
    && AllLong(rows, stride) && stride % 4 == 0 && width * bpp <= stride < width * bpp + 4
    && dib == FirstWords(20 + |rest|, width, HeightWord(|rows|, topDown), 8 * bpp) + rest + Flatten(rows)
  }

  lemma BitmapParses(dib: seq<byte>, rest: seq<byte>, rows: seq<seq<byte>>, width: nat, bpp: nat, topDown: bool,
                     stride: nat)
    requires Bitmap(dib, rest, rows, width, bpp, topDown, stride)
    ensures Parse(dib) == Some(Layout(20 + |rest|, width, |rows|, bpp, topDown))
  {
    var size, word := 20 + |rest|, HeightWord(|rows|, topDown);
    hide U, FirstWords, RowPadded, Flatten, AllLong;
    BitmapReads(dib, rest, rows, width, bpp, topDown, stride);
    assert dib[..20] == FirstWords(size, width, word, 8 * bpp);
    WordsRead(size, width, word, 8 * bpp, dib);
  }

  lemma Behind(head: seq<byte>, rows: seq<seq<byte>>, stride: nat, row: nat, j: nat, at: nat)
    requires AllLong(rows, stride) && row < |rows| && j < stride && at == stride * row + j
    ensures |head| + at < |head + Flatten(rows)| && (head + Flatten(rows))[|head| + at] == rows[row][j]
  {
    RowByte(rows, stride, row, j);
    hide Flatten, AllLong;
  }

  /** The bytes of a pixel lie in its row. */
  lemma InRow(width: nat, bpp: nat, stride: nat, x: nat)
    requires 3 <= bpp <= 4 && x < width && width * bpp <= stride
    ensures bpp * x + bpp <= stride && x * bpp == bpp * x
  {
    MulStep(bpp, x, width);
    Commute(bpp, width);
    Commute(bpp, x);
  }

  /** Where a channel is read. */
  lemma ChannelByte(dib: seq<byte>, l: Layout, y: nat, x: nat, c: nat, stride: nat, j: nat, at: nat)
    requires Readable(dib, l) && y < l.height && x < l.width && c < 4 && stride == RowPadded(l.width, l.bpp)
    requires 3 <= l.bpp <= 4 && x * l.bpp == l.bpp * x && j == l.bpp * x + (if c < 3 then 2 - c else 3)
    requires at == stride * SourceRow(l, y) + j && l.start + at < |dib|
    ensures Channel(dib, l, y, x, c) == if c == 3 && l.bpp == 3 then 255 else dib[l.start + at]
  {
    hide RowPadded, Readable, RowBytes;
  }

  lemma BitmapReads(dib: seq<byte>, rest: seq<byte>, rows: seq<seq<byte>>, width: nat, bpp: nat, topDown: bool,
                    stride: nat)
    requires Bitmap(dib, rest, rows, width, bpp, topDown, stride)
    ensures Readable(dib, Layout(20 + |rest|, width, |rows|, bpp, topDown)) && stride == RowPadded(width, bpp)
  {
    RowsLength(rows, stride);
    PaddedIs(width, bpp, stride);
    hide RowPadded, Flatten, AllLong, FirstWords;
  }

  lemma PixelRead(dib: seq<byte>, rest: seq<byte>, rows: seq<seq<byte>>, width: nat, bpp: nat, topDown: bool,
                  stride: nat, y: nat, x: nat, c: nat)
    requires Bitmap(dib, rest, rows, width, bpp, topDown, stride) && y < |rows| && x < width && c < 4
    ensures var l := Layout(20 + |rest|, width, |rows|, bpp, topDown);
            Readable(dib, l) && Channel(dib, l, y, x, c) == Shown(rows, topDown, bpp, y, x, c)
  {
    hide Flatten, FirstWords, RowPadded, Readable, Channel, RowBytes;
    var l := Layout(20 + |rest|, width, |rows|, bpp, topDown);
    var row := SourceRow(l, y);
    assert |rows[row]| == stride;
    BitmapReads(dib, rest, rows, width, bpp, topDown, stride);
    InRow(width, bpp, stride, x);
    var j := bpp * x + if c < 3 then 2 - c else bpp - 1;
    var at := stride * row + j;
    Behind(FirstWords(20 + |rest|, width, HeightWord(|rows|, topDown), 8 * bpp) + rest, rows, stride, row, j, at);
    hide Bitmap, AllLong;
    if c == 3 && bpp == 3 {
      assert Channel(dib, l, y, x, c) == 255 by {
        OpaqueAlpha(dib, l, y, x);
      }
    } else {
      ChannelByte(dib, l, y, x, c, stride, j, at);
    }
  }

  lemma OpaqueAlpha(dib: seq<byte>, l: Layout, y: nat, x: nat)
    requires Readable(dib, l) && y < l.height && x < l.width && l.bpp == 3
    ensures Channel(dib, l, y, x, 3) == 255
  {
  }

  /** Every uncompressed bitmap of 24 or 32 bits decodes to what its rows say, whatever follows the
      first words of its header and whatever the padding holds. */
  lemma RowsDecode(dib: seq<byte>, rest: seq<byte>, rows: seq<seq<byte>>, width: nat, bpp: nat, topDown: bool,
                   stride: nat, y: nat, x: nat, c: nat, k: nat)
    requires Bitmap(dib, rest, rows, width, bpp, topDown, stride) && y < |rows| && x < width && c < 4
    requires k == 4 * (y * width + x) + c
    ensures ToRgba(dib).Some?
    ensures var image := ToRgba(dib).value;
            && image.width == width && image.height == |rows| && k < |image.rgba|
            && image.rgba[k] == Shown(rows, topDown, bpp, y, x, c)
  {
    hide Bitmap, Parse, Shown, Channel, Row, Col, Readable;
    BitmapParses(dib, rest, rows, width, bpp, topDown, stride);
    PixelRead(dib, rest, rows, width, bpp, topDown, stride, y, x, c);
    assert width > 0;
    Placed(width, |rows|, y, x, c);
    DecodedAt(dib, Layout(20 + |rest|, width, |rows|, bpp, topDown), k);
  }

  lemma DecodedAt(dib: seq<byte>, l: Layout, k: nat)
    requires Readable(dib, l) && k < 4 * (l.height * l.width)
    ensures |Decoded(dib, l)| == 4 * (l.height * l.width) && Decoded(dib, l)[k] == Wanted(dib, l, k)
    ensures Row(l.width, k) < l.height && Col(l.width, k) < l.width
    ensures Wanted(dib, l, k) == Channel(dib, l, Row(l.width, k), Col(l.width, k), k % 4)
  {
    hide Readable, Channel, Row, Col;
    Place(l.width, l.height, k);
  }
}
