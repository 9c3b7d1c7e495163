/** The Windows clipboard bitmap: RGBA pixels to a device-independent bitmap and back. */
module Dib {
  import opened Bytes

  const HEADER_SIZE: nat := 40
  const MAX_I32: nat := 0x7fff_ffff

  datatype Image = Image(rgba: seq<byte>, width: nat, height: nat)

  /** What the header of a usable bitmap says. */
  datatype Layout = Layout(start: nat, width: nat, height: nat, bpp: nat, topDown: bool)

  // ---- fields ----

  function U(data: seq<byte>, at: nat, width: nat): nat
    requires at + width <= |data|
  {
    FromLe(data[at..at + width])
  }

  /** A 32-bit word read as a signed number. */
  function Signed(n: nat): int {
    if n < 0x8000_0000 then n else n - 0x1_0000_0000
  }

  function Abs(n: int): nat {
    if n < 0 then -n else n
  }

  /** Rows are padded to a multiple of four bytes. */
  function RowPadded(width: nat, bpp: nat): nat {
    (width * bpp + 3) / 4 * 4
  }

  /** Bytes of pixel data that the rows take. */
  function RowBytes(l: Layout): nat {
    RowPadded(l.width, l.bpp) * l.height
  }

  function Parse(dib: seq<byte>): (r: Option<Layout>)
    ensures r.Some? ==> HEADER_SIZE <= r.value.start && r.value.start + RowBytes(r.value) <= |dib|
    ensures r.Some? ==> r.value.width > 0 && r.value.height > 0 && r.value.bpp in {3, 4}
  {
    if |dib| < HEADER_SIZE then None
    else
      var start := U(dib, 0, 4);
      if !(HEADER_SIZE <= start <= |dib|) then None
      else
        var width, height := Signed(U(dib, 4, 4)), Signed(U(dib, 8, 4));
        var planes, bits, compression := U(dib, 12, 2), U(dib, 14, 2), U(dib, 16, 4);
        if planes != 1 || compression != 0 || width <= 0 || height == 0 then None
        else if bits != 24 && bits != 32 then None
        else
          var l := Layout(start, width, Abs(height), bits / 8, height < 0);
          if |dib| - start < RowBytes(l) then None else Some(l)
  }

  // ---- decoding ----

  /** The row of the file that holds row `y` of the picture. */
  function SourceRow(l: Layout, y: nat): nat
    requires y < l.height
  {
    if l.topDown then y else l.height - 1 - y
  }

  /** Position in the file of byte `j` of file row `row`. */
  function At(l: Layout, row: nat, j: nat): nat {
    l.start + RowPadded(l.width, l.bpp) * row + j
  }

  predicate Readable(dib: seq<byte>, l: Layout) {
    l.bpp in {3, 4} && l.start + RowBytes(l) <= |dib|
  }

  lemma AtInside(l: Layout, row: nat, x: nat)
    requires row < l.height && x < l.width
    ensures x * l.bpp + l.bpp <= l.width * l.bpp <= RowPadded(l.width, l.bpp)
    ensures At(l, row, x * l.bpp) + l.bpp <= l.start + RowBytes(l)
  {
    var p := RowPadded(l.width, l.bpp);
    MulStep(l.bpp, x, l.width);
    RowCovers(l.width * l.bpp);
    MulStep(p, row, l.height);
  }

  lemma RowCovers(n: nat)
    ensures n <= (n + 3) / 4 * 4
  {
  }

  /** Channel `c` of the pixel in column `x` of row `y`: BGR becomes RGB, a missing alpha 255. */
  function Channel(dib: seq<byte>, l: Layout, y: nat, x: nat, c: nat): byte
    requires Readable(dib, l) && y < l.height && x < l.width && c < 4
  {
    var row := SourceRow(l, y);
    AtInside(l, row, x);
    if c < 3 then dib[At(l, row, x * l.bpp) + 2 - c]
    else if l.bpp == 4 then dib[At(l, row, x * l.bpp) + 3] else 255
  }

  /** Row and column of the pixel that byte `k` of an RGBA image belongs to. */
  function Row(width: nat, k: nat): nat
    requires width > 0
  {
    k / 4 / width
  }

  function Col(width: nat, k: nat): nat
    requires width > 0
  {
    k / 4 % width
  }

  /** Byte `k` of the RGBA form. */
  function Wanted(dib: seq<byte>, l: Layout, k: nat): byte
    requires Readable(dib, l) && k < 4 * (l.height * l.width)
  {
    hide Readable, Channel, Row, Col;
    Place(l.width, l.height, k);
    Channel(dib, l, Row(l.width, k), Col(l.width, k), k % 4)
  }

  /** Row, column and channel of a byte, and back. */
  lemma Place(width: nat, height: nat, k: nat)
    requires k < 4 * (height * width)
    ensures width > 0 && Row(width, k) < height && Col(width, k) < width
    ensures k == 4 * (Row(width, k) * width + Col(width, k)) + k % 4
  {
    TimesZero(height);
    var q := k / 4 / width;
    assert k / 4 == width * q + k / 4 % width;
    assert k / 4 < height * width;
    if q >= height {
      MulMono(width, height, q);
    }
    Commute(q, width);
  }

  /** The byte of a given row, column and channel. */
  lemma Placed(width: nat, height: nat, y: nat, x: nat, c: nat)
    requires y < height && x < width && c < 4
    ensures var k := 4 * (y * width + x) + c;
            && k < 4 * (height * width) && k / 4 == y * width + x
            && Row(width, k) == y && Col(width, k) == x && k % 4 == c
  {
    Commute(y, width);
    Remainder(y * width + x, width, y, x);
    MulStep(width, y, height);
    Commute(height, width);
  }

  ghost predicate Decodes(dib: seq<byte>, l: Layout, rgba: seq<byte>) {
    && Readable(dib, l) && |rgba| == 4 * (l.height * l.width)
    && forall k :: 0 <= k < |rgba| ==> rgba[k] == Wanted(dib, l, k)
  }

  function Decoded(dib: seq<byte>, l: Layout): seq<byte>
    requires Readable(dib, l)
  {
    hide Readable, Wanted;
    seq(4 * (l.height * l.width), k requires 0 <= k < 4 * (l.height * l.width) => Wanted(dib, l, k))
  }

  /** `dib_to_rgba`. */
  function ToRgba(dib: seq<byte>): Option<Image> {
    match Parse(dib)
    case None => None
    case Some(l) => Some(Image(Decoded(dib, l), l.width, l.height))
  }

  // ---- encoding ----

  /** Size, width, height, planes, bits per pixel and compression. */
  function Words(width: nat, height: nat): (h: seq<byte>)
    ensures |h| == 20
  {
    Le(40, 4) + Le(width, 4) + Le(height, 4) + Le(1, 2) + Le(32, 2) + Le(0, 4)
  }

  function Header(width: nat, height: nat): (h: seq<byte>)
    ensures |h| == HEADER_SIZE
  {
    Words(width, height) + (Le(0, 4) + Le(0, 4) + Le(0, 4) + Le(0, 4) + Le(0, 4))
  }

  /** Byte `k` of the pixel rows, bottom row first: BGR of the source, alpha 255. */
  function Packed(rgba: seq<byte>, width: nat, height: nat, k: nat): byte
    requires |rgba| == 4 * (height * width) && k < |rgba|
  {
    Place(width, height, k);
    var y, x, c := height - 1 - Row(width, k), Col(width, k), k % 4;
    Placed(width, height, y, x, if c < 3 then 2 - c else 0);
    if c < 3 then rgba[4 * (y * width + x) + (2 - c)] else 255
  }

  function Body(rgba: seq<byte>, width: nat, height: nat): (b: seq<byte>)
    requires |rgba| == 4 * (height * width)
    ensures |b| == |rgba|
    ensures forall k :: 0 <= k < |b| ==> b[k] == Packed(rgba, width, height, k)
  {
    seq(|rgba|, k requires 0 <= k < |rgba| => Packed(rgba, width, height, k))
  }

  /** `rgba_to_dib`. */
  function FromRgba(rgba: seq<byte>, width: nat, height: nat): Option<seq<byte>> {
    if width == 0 || height == 0 || |rgba| != 4 * (height * width) then None
    else Some(Header(width, height) + Body(rgba, width, height))
  }

  // ---- round trip ----

  function Opaque(rgba: seq<byte>): seq<byte> {
    seq(|rgba|, k requires 0 <= k < |rgba| => if k % 4 == 3 then 255 else rgba[k])
  }

  lemma WordAt(data: seq<byte>, at: nat, n: nat, width: nat)
    requires at + width <= |data| && data[at..at + width] == Le(n, width)
    requires n < Pow256(width)
    ensures U(data, at, width) == n
  {
    LeRoundTrip(n, width);
    SmallMod(n, Pow256(width));
  }

  lemma SmallMod(n: nat, m: nat)
    requires n < m
    ensures n % m == n
  {
  }

  lemma SliceOf(data: seq<byte>, off: nat, end: nat, i: nat, j: nat)
    requires off <= end <= |data| && i <= j <= end - off
    ensures data[off..end][i..j] == data[off + i..off + j]
  {
    var s := data[off..end];
    forall k | 0 <= k < j - i ensures s[i..j][k] == data[off + i..off + j][k] {
      assert s[i..j][k] == s[i + k];
      assert s[i + k] == data[off + (i + k)];
    }
  }

  lemma WordsSplit(width: nat, height: nat)
    ensures var h := Words(width, height);
            && h[0..4] == Le(40, 4) && h[4..8] == Le(width, 4) && h[8..12] == Le(height, 4)
            && h[12..14] == Le(1, 2) && h[14..16] == Le(32, 2) && h[16..20] == Le(0, 4)
  {
    hide Le;
  }

  lemma HeaderWords(width: nat, height: nat, data: seq<byte>)
    requires |data| >= HEADER_SIZE && data[..HEADER_SIZE] == Header(width, height)
    ensures data[0..4] == Le(40, 4) && data[4..8] == Le(width, 4) && data[8..12] == Le(height, 4)
    ensures data[12..14] == Le(1, 2) && data[14..16] == Le(32, 2) && data[16..20] == Le(0, 4)
  {
    hide Le, Words;
    WordsSplit(width, height);
    assert data[0..20] == data[..HEADER_SIZE][0..20] == Words(width, height);
    hide Header;
    SliceOf(data, 0, 20, 0, 4);
    SliceOf(data, 0, 20, 4, 8);
    SliceOf(data, 0, 20, 8, 12);
    SliceOf(data, 0, 20, 12, 14);
    SliceOf(data, 0, 20, 14, 16);
    SliceOf(data, 0, 20, 16, 20);
  }

  lemma HeaderFields(width: nat, height: nat, data: seq<byte>)
    requires 0 < width <= MAX_I32 && 0 < height <= MAX_I32 + 1
    requires |data| >= HEADER_SIZE && data[..HEADER_SIZE] == Header(width, height)
    ensures U(data, 0, 4) == 40 && U(data, 4, 4) == width && U(data, 8, 4) == height
    ensures U(data, 12, 2) == 1 && U(data, 14, 2) == 32 && U(data, 16, 4) == 0
  {
    hide Le, U, Header, Pow256;
    HeaderWords(width, height, data);
    Pow256Values();
    WordAt(data, 0, 40, 4);
    WordAt(data, 4, width, 4);
    WordAt(data, 8, height, 4);
    WordAt(data, 12, 1, 2);
    WordAt(data, 14, 32, 2);
    WordAt(data, 16, 0, 4);
  }

  lemma FourBytes(width: nat, height: nat)
    ensures RowPadded(width, 4) == 4 * width
    ensures RowPadded(width, 4) * height == 4 * (height * width)
  {
    Commute(height, width);
    Assoc(4, width, height);
  }

  lemma Assoc(a: nat, b: nat, c: nat)
    ensures a * b * c == a * (b * c)
  {
  }

  /** The height word of a picture of 2^31 rows reads as negative: top row first. */
  lemma HeaderParses(width: nat, height: nat, data: seq<byte>)
    requires 0 < width <= MAX_I32 && 0 < height <= MAX_I32 + 1
    requires |data| == HEADER_SIZE + 4 * (height * width) && data[..HEADER_SIZE] == Header(width, height)
    ensures Parse(data) == Some(Layout(HEADER_SIZE, width, height, 4, height > MAX_I32))
  {
    hide U, Header, RowPadded;
    HeaderFields(width, height, data);
    FourBytes(width, height);
  }

  /** Position in the file of a pixel of a bitmap that the encoder wrote. */
  lemma AtPacked(width: nat, height: nat, topDown: bool, row: nat, x: nat)
    ensures At(Layout(HEADER_SIZE, width, height, 4, topDown), row, x * 4) == HEADER_SIZE + 4 * (row * width + x)
  {
    hide RowPadded;
    FourBytes(width, row);
  }

  /** Reading one channel of what the encoder wrote: file row `r` holds picture row `height - 1 - r`. */
  lemma ChannelBack(rgba: seq<byte>, width: nat, height: nat, dib: seq<byte>, l: Layout, y: nat, x: nat, c: nat, k: nat)
    requires |rgba| == 4 * (height * width) && y < height && x < width && c < 4
    requires l == Layout(HEADER_SIZE, width, height, 4, l.topDown) && Readable(dib, l)
    requires k == 4 * ((height - 1 - SourceRow(l, y)) * width + x) + c && k < |rgba|
    requires dib == Header(width, height) + Body(rgba, width, height)
    ensures Channel(dib, l, y, x, c) == if c == 3 then 255 else rgba[k]
  {
    hide At, Header, RowBytes, Packed, Row, Col, Channel;
    var row := SourceRow(l, y);
    var c' := if c < 3 then 2 - c else 3;
    var j := 4 * (row * width + x) + c';
    Placed(width, height, row, x, c');
    AtPacked(width, height, l.topDown, row, x);
    if c < 3 {
      PackedAt(rgba, width, height, row, x, 2 - c, j, k);
    } else {
      PackedAlpha(rgba, width, height, row, x, j);
    }
    BodyAt(rgba, width, height, dib, j);
    ChannelAt(dib, l, y, x, c, HEADER_SIZE + j);
  }

  lemma PackedAlpha(rgba: seq<byte>, width: nat, height: nat, row: nat, x: nat, k: nat)
    requires |rgba| == 4 * (height * width) && row < height && x < width && k == 4 * (row * width + x) + 3
    ensures k < |rgba| && Packed(rgba, width, height, k) == 255
  {
    Placed(width, height, row, x, 3);
  }

  lemma BodyAt(rgba: seq<byte>, width: nat, height: nat, dib: seq<byte>, j: nat)
    requires |rgba| == 4 * (height * width) && dib == Header(width, height) + Body(rgba, width, height) && j < |rgba|
    ensures HEADER_SIZE + j < |dib| && dib[HEADER_SIZE + j] == Packed(rgba, width, height, j)
  {
    hide Header, Packed;
  }

  /** With four bytes a pixel every channel is read. */
  lemma ChannelAt(dib: seq<byte>, l: Layout, y: nat, x: nat, c: nat, i: nat)
    requires Readable(dib, l) && l.bpp == 4 && y < l.height && x < l.width && c < 4
    requires i == At(l, SourceRow(l, y), x * 4) + if c < 3 then 2 - c else 3
    ensures i < |dib| && Channel(dib, l, y, x, c) == dib[i]
  {
    hide RowBytes, At;
    AtInside(l, SourceRow(l, y), x);
  }

  /** Byte `k` of the picture with its rows in reverse order. */
  function Mirrored(rgba: seq<byte>, width: nat, height: nat, k: nat): byte
    requires |rgba| == 4 * (height * width) && k < |rgba|
  {
    hide Row, Col;
    Place(width, height, k);
    Placed(width, height, height - 1 - Row(width, k), Col(width, k), k % 4);
    rgba[4 * ((height - 1 - Row(width, k)) * width + Col(width, k)) + k % 4]
  }

  function Mirror(rgba: seq<byte>, width: nat, height: nat): seq<byte>
    requires |rgba| == 4 * (height * width)
  {
    seq(|rgba|, k requires 0 <= k < |rgba| => Mirrored(rgba, width, height, k))
  }

  lemma WantedBack(rgba: seq<byte>, width: nat, height: nat, dib: seq<byte>, l: Layout, k: nat)
    requires |rgba| == 4 * (height * width) && k < |rgba|
    requires dib == Header(width, height) + Body(rgba, width, height)
    requires l == Layout(HEADER_SIZE, width, height, 4, l.topDown) && Readable(dib, l)
    ensures Wanted(dib, l, k) ==
      if k % 4 == 3 then 255 else if l.topDown then Mirrored(rgba, width, height, k) else rgba[k]
  {
    hide Channel, Header, Body, Readable, Row, Col;
    Place(width, height, k);
    var y, x, c := Row(width, k), Col(width, k), k % 4;
    Placed(width, height, height - 1 - SourceRow(l, y), x, c);
    ChannelBack(rgba, width, height, dib, l, y, x, c, 4 * ((height - 1 - SourceRow(l, y)) * width + x) + c);
  }

  /** What comes back from a picture whose width fits 31 bits and whose height is at most 2^31. */
  lemma ComesBack(rgba: seq<byte>, width: nat, height: nat)
    requires 0 < width <= MAX_I32 && 0 < height <= MAX_I32 + 1 && |rgba| == 4 * (height * width)
    ensures FromRgba(rgba, width, height).Some?
    ensures ToRgba(FromRgba(rgba, width, height).value)
         == Some(Image(Opaque(if height > MAX_I32 then Mirror(rgba, width, height) else rgba), width, height))
  {
    hide Parse, Header, Body, Wanted, RowBytes, Mirrored;
    var dib := FromRgba(rgba, width, height).value;
    assert dib[..HEADER_SIZE] == Header(width, height);
    HeaderParses(width, height, dib);
    var l := Parse(dib).value;
    var back := Opaque(if height > MAX_I32 then Mirror(rgba, width, height) else rgba);
    forall k | 0 <= k < |rgba| ensures Wanted(dib, l, k) == back[k] {
      WantedBack(rgba, width, height, dib, l, k);
    }
    assert ToRgba(dib).value.rgba == back;
  }

  /** Every picture whose sides fit 31 bits comes back, with every alpha 255. */
  lemma RoundTrip(rgba: seq<byte>, width: nat, height: nat)
    requires 0 < width <= MAX_I32 && 0 < height <= MAX_I32 && |rgba| == 4 * (height * width)
    ensures FromRgba(rgba, width, height).Some?
    ensures ToRgba(FromRgba(rgba, width, height).value) == Some(Image(Opaque(rgba), width, height))
  {
    hide FromRgba, ToRgba, Opaque, Mirror;
    ComesBack(rgba, width, height);
  }

  /** Of all pictures exactly these come back: sides that fit 31 bits, or 2^31 rows that read the
      same from below. */
  lemma RoundTripIff(rgba: seq<byte>, width: nat, height: nat)
    requires width > 0 && height > 0 && |rgba| == 4 * (height * width)
    ensures FromRgba(rgba, width, height).Some?
    ensures ToRgba(FromRgba(rgba, width, height).value) == Some(Image(Opaque(rgba), width, height)) <==>
              (width <= MAX_I32
               && (height <= MAX_I32
                   || (height == MAX_I32 + 1 && Opaque(Mirror(rgba, width, height)) == Opaque(rgba))))
  {
    assert FromRgba(rgba, width, height).Some? && |FromRgba(rgba, width, height).value| >= 12;
    hide FromRgba, ToRgba, Opaque, Mirror;
    if width <= MAX_I32 && height <= MAX_I32 + 1 {
      ComesBack(rgba, width, height);
    } else if ToRgba(FromRgba(rgba, width, height).value).Some? {
      DecodedSize(FromRgba(rgba, width, height).value);
    }
  }

  /** No bitmap decodes to a width that a signed word cannot hold, so wider pictures do not come
      back. */
  lemma {:induction false} DecodedSize(dib: seq<byte>)
    requires |dib| >= 12 && ToRgba(dib).Some?
    ensures 0 < ToRgba(dib).value.width <= MAX_I32 && 0 < ToRgba(dib).value.height <= MAX_I32 + 1
  {
    hide FromLe, RowBytes, Wanted;
    FromLeBound4(dib[4..8]);
    FromLeBound4(dib[8..12]);
  }

  lemma FromLeBound4(s: seq<byte>)
    requires |s| == 4
    ensures FromLe(s) < 0x1_0000_0000
  {
    FromLeBound(s);
    Pow256Values();
  }

  // ---- orientation ----

  /** `b` is `a` with the rows in reverse order and the height negated. */
  ghost predicate Flipped(a: seq<byte>, b: seq<byte>) {
    && Parse(a).Some? && |a| == |b|
    && var l := Parse(a).value;
    && a[..8] == b[..8] && a[12..l.start] == b[12..l.start]
    && Signed(U(b, 8, 4)) == -Signed(U(a, 8, 4))
    && forall row, j :: 0 <= row < l.height && 0 <= j < RowPadded(l.width, l.bpp) ==>
         SameByte(a, b, l, row, j)
  }

  predicate SameByte(a: seq<byte>, b: seq<byte>, l: Layout, row: nat, j: nat)
    requires row < l.height
  {
    && At(l, row, j) < |b| && At(l, l.height - 1 - row, j) < |a|
    && b[At(l, row, j)] == a[At(l, l.height - 1 - row, j)]
  }

  lemma FlippedWords(a: seq<byte>, b: seq<byte>)
    requires |a| == |b| && |a| >= HEADER_SIZE && a[..8] == b[..8] && a[12..HEADER_SIZE] == b[12..HEADER_SIZE]
    ensures a[0..4] == b[0..4] && a[4..8] == b[4..8]
    ensures a[12..14] == b[12..14] && a[14..16] == b[14..16] && a[16..20] == b[16..20]
  {
    assert a[0..8] == a[..8] && b[0..8] == b[..8];
    SliceOf(a, 0, 8, 0, 4);
    SliceOf(b, 0, 8, 0, 4);
    SliceOf(a, 0, 8, 4, 8);
    SliceOf(b, 0, 8, 4, 8);
    SliceOf(a, 12, HEADER_SIZE, 0, 2);
    SliceOf(b, 12, HEADER_SIZE, 0, 2);
    SliceOf(a, 12, HEADER_SIZE, 2, 4);
    SliceOf(b, 12, HEADER_SIZE, 2, 4);
    SliceOf(a, 12, HEADER_SIZE, 4, 8);
    SliceOf(b, 12, HEADER_SIZE, 4, 8);
  }

  lemma FlippedParse(a: seq<byte>, b: seq<byte>)
    requires Flipped(a, b)
    ensures Parse(b) == Some(Parse(a).value.(topDown := !Parse(a).value.topDown))
  {
    hide RowPadded, SameByte, FromLe, At;
    var l := Parse(a).value;
    assert a[12..HEADER_SIZE] == a[12..l.start][..HEADER_SIZE - 12];
    assert b[12..HEADER_SIZE] == b[12..l.start][..HEADER_SIZE - 12];
    FlippedWords(a, b);
  }

  lemma FlippedChannel(a: seq<byte>, b: seq<byte>, l: Layout, y: nat, x: nat, c: nat)
    requires Flipped(a, b) && Parse(a) == Some(l) && y < l.height && x < l.width && c < 4
    ensures Readable(a, l) && Readable(b, l)
    ensures Channel(b, l.(topDown := !l.topDown), y, x, c) == Channel(a, l, y, x, c)
  {
    hide Parse, RowPadded, U;
    var l' := l.(topDown := !l.topDown);
    var row := SourceRow(l', y);
    assert l.height - 1 - row == SourceRow(l, y);
    AtInside(l, row, x);
    var j := x * l.bpp + if c < 3 then 2 - c else 3;
    if c < 3 || l.bpp == 4 {
      assert SameByte(a, b, l, row, j);
    }
  }

  lemma FlippedWanted(a: seq<byte>, b: seq<byte>, l: Layout, k: nat)
    requires Flipped(a, b) && Parse(a) == Some(l) && k < 4 * (l.height * l.width)
    ensures Readable(a, l) && Readable(b, l)
    ensures Wanted(b, l.(topDown := !l.topDown), k) == Wanted(a, l, k)
  {
    hide Parse, Channel, Flipped, RowPadded;
    Place(l.width, l.height, k);
    FlippedChannel(a, b, l, Row(l.width, k), Col(l.width, k), k % 4);
  }

  /** Reversing the rows and negating the height leaves the decoded picture as it is. */
  lemma FlipKeepsImage(a: seq<byte>, b: seq<byte>)
    requires Flipped(a, b)
    ensures ToRgba(a) == ToRgba(b) && ToRgba(a).Some?
  {
    FlippedParse(a, b);
    assert Parse(a).Some?;
    hide Parse, Channel, Flipped, RowBytes, RowPadded, Wanted;
    var l := Parse(a).value;
    forall k: nat | k < 4 * (l.height * l.width)
      ensures Readable(a, l) && Readable(b, l) && Wanted(b, l.(topDown := !l.topDown), k) == Wanted(a, l, k)
    {
      FlippedWanted(a, b, l, k);
    }
    assert ToRgba(a).value.rgba == ToRgba(b).value.rgba;
  }

  // ---- the loops ----

  lemma WantedAt(dib: seq<byte>, l: Layout, y: nat, x: nat, c: nat)
    requires Readable(dib, l) && y < l.height && x < l.width && c < 4
    ensures 4 * (y * l.width + x) + c < 4 * (l.height * l.width)
    ensures Wanted(dib, l, 4 * (y * l.width + x) + c) == Channel(dib, l, y, x, c)
  {
    hide Readable, Channel;
    Placed(l.width, l.height, y, x, c);
  }

  lemma NextRow(width: nat, y: nat)
    ensures (y + 1) * width == y * width + width && 0 * width == 0
  {
  }

  /** The bytes of one pixel, read from its row of the file. */
  method Pixel(row: seq<byte>, bpp: nat, x: nat, ghost dib: seq<byte>, ghost l: Layout, ghost y: nat)
    returns (red: byte, green: byte, blue: byte, alpha: byte)
    requires Readable(dib, l) && y < l.height && x < l.width && bpp == l.bpp
    requires At(l, SourceRow(l, y), l.width * bpp) <= |dib|
    requires row == dib[At(l, SourceRow(l, y), 0)..At(l, SourceRow(l, y), l.width * bpp)]
    ensures red == Channel(dib, l, y, x, 0) && green == Channel(dib, l, y, x, 1)
    ensures blue == Channel(dib, l, y, x, 2) && alpha == Channel(dib, l, y, x, 3)
  {
    hide RowPadded, RowBytes;
    AtInside(l, SourceRow(l, y), x);
    var i := x * bpp;
    red, green, blue := row[i + 2], row[i + 1], row[i];
    alpha := if bpp == 4 then row[i + 3] else 255;
  }

  lemma RowInside(dib: seq<byte>, l: Layout, row: nat)
    requires Readable(dib, l) && row < l.height && l.width > 0
    ensures At(l, row, l.width * l.bpp) <= |dib|
  {
    hide RowPadded;
    AtInside(l, row, l.width - 1);
    assert (l.width - 1) * l.bpp + l.bpp == l.width * l.bpp;
  }

  method DibToRgba(dib: seq<byte>) returns (r: Option<Image>)
    ensures r == ToRgba(dib)
  {
    hide Parse, Wanted;
    var parsed := Parse(dib);
    if parsed.None? {
      return None;
    }
    var l := parsed.value;
    var rgba := Decode(dib, l);
    assert rgba == ToRgba(dib).value.rgba;
    return Some(Image(rgba, l.width, l.height));
  }

  method Decode(dib: seq<byte>, l: Layout) returns (out: seq<byte>)
    requires Readable(dib, l) && l.width > 0
    ensures Decodes(dib, l, out)
  {
    hide Readable, Wanted, Channel, RowPadded;
    var w, h := l.width, l.height;
    NonNegative(h, w);
    var rgba := new byte[4 * (h * w)](_ => 0);
    NextRow(w, 0);
    for y := 0 to h
      invariant 4 * (y * w) <= rgba.Length
      invariant forall k :: 0 <= k < 4 * (y * w) ==> rgba[k] == Wanted(dib, l, k)
    {
      var row := SourceRow(l, y);
      RowInside(dib, l, row);
      DecodeRow(dib, l, y, rgba, dib[At(l, row, 0)..At(l, row, w * l.bpp)]);
      NextRow(w, y);
    }
    return rgba[..];
  }

  /** The inner loop. */
  method DecodeRow(dib: seq<byte>, l: Layout, y: nat, rgba: array<byte>, row: seq<byte>)
    requires Readable(dib, l) && l.width > 0 && y < l.height && rgba.Length == 4 * (l.height * l.width)
    requires At(l, SourceRow(l, y), l.width * l.bpp) <= |dib|
    requires row == dib[At(l, SourceRow(l, y), 0)..At(l, SourceRow(l, y), l.width * l.bpp)]
    requires 4 * (y * l.width) <= rgba.Length
    requires forall k :: 0 <= k < 4 * (y * l.width) ==> rgba[k] == Wanted(dib, l, k)
    modifies rgba
    ensures 4 * (y * l.width + l.width) <= rgba.Length
    ensures forall k :: 0 <= k < 4 * (y * l.width + l.width) ==> rgba[k] == Wanted(dib, l, k)
  {
    hide Readable, Wanted, Channel, At, SourceRow;
    for x := 0 to l.width
      invariant 4 * (y * l.width + x) <= rgba.Length
      invariant forall k :: 0 <= k < 4 * (y * l.width + x) ==> rgba[k] == Wanted(dib, l, k)
    {
      var red, green, blue, alpha := Pixel(row, l.bpp, x, dib, l, y);
      var i := 4 * (y * l.width + x);
      WantedAt(dib, l, y, x, 0);
      WantedAt(dib, l, y, x, 1);
      WantedAt(dib, l, y, x, 2);
      WantedAt(dib, l, y, x, 3);
      rgba[i], rgba[i + 1], rgba[i + 2], rgba[i + 3] := red, green, blue, alpha;
    }
  }

  /** The encoder reads byte `j` of the picture for byte `k` of the rows. */
  lemma PackedAt(rgba: seq<byte>, width: nat, height: nat, row: nat, x: nat, c: nat, k: nat, j: nat)
    requires |rgba| == 4 * (height * width) && row < height && x < width && c < 4
    requires k == 4 * (row * width + x) + c
    requires j == 4 * ((height - 1 - row) * width + x) + if c < 3 then 2 - c else 0
    ensures k < |rgba| && j < |rgba|
    ensures Packed(rgba, width, height, k) == if c < 3 then rgba[j] else 255
  {
    Placed(width, height, row, x, c);
    Placed(width, height, height - 1 - row, x, if c < 3 then 2 - c else 0);
  }

  method RgbaToDib(rgba: seq<byte>, width: nat, height: nat) returns (r: Option<seq<byte>>)
    ensures r == FromRgba(rgba, width, height)
  {
    if width == 0 || height == 0 || |rgba| != width * height * 4 {
      SameProduct(width, height);
      return None;
    }
    SameProduct(width, height);
    hide Header, Packed;
    var body := [];
    var y := height;
    NextRow(width, 0);
    while y > 0
      invariant y <= height && |body| == 4 * ((height - y) * width) <= |rgba|
      invariant forall k :: 0 <= k < |body| ==> body[k] == Packed(rgba, width, height, k)
    {
      y := y - 1;
      body := EncodeRow(rgba, width, height, y, body);
      NextRow(width, height - 1 - y);
    }
    assert body == Body(rgba, width, height);
    return Some(Header(width, height) + body);
  }

  lemma SameProduct(width: nat, height: nat)
    ensures width * height * 4 == 4 * (height * width)
  {
  }

  /** The inner loop: row `y` of the picture becomes row `height - 1 - y` of the file. */
  method EncodeRow(rgba: seq<byte>, width: nat, height: nat, y: nat, body: seq<byte>) returns (out: seq<byte>)
    requires |rgba| == 4 * (height * width) && y < height
    requires |body| == 4 * ((height - 1 - y) * width) <= |rgba|
    requires forall k :: 0 <= k < |body| ==> body[k] == Packed(rgba, width, height, k)
    ensures |out| == 4 * ((height - 1 - y) * width + width) <= |rgba|
    ensures forall k :: 0 <= k < |out| ==> out[k] == Packed(rgba, width, height, k)
  {
    hide Packed;
    out := body;
    ghost var row := height - 1 - y;
    for x := 0 to width
      invariant |out| == 4 * (row * width + x) <= |rgba|
      invariant forall k :: 0 <= k < |out| ==> out[k] == Packed(rgba, width, height, k)
    {
      var i, n := 4 * (y * width + x), |out|;
      PackedAt(rgba, width, height, row, x, 0, n, i + 2);
      PackedAt(rgba, width, height, row, x, 1, n + 1, i + 1);
      PackedAt(rgba, width, height, row, x, 2, n + 2, i);
      PackedAt(rgba, width, height, row, x, 3, n + 3, i);
      out := out + [rgba[i + 2], rgba[i + 1], rgba[i], 255];
    }
  }
}
