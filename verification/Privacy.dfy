/** The privacy screen: black, or black with the wrapped text drawn in scaled 8x8 glyphs. */
module Privacy {
  import opened Bytes
  import opened Wrapping

  const CHANNEL: seq<byte> := [220, 220, 220, 255]
  const GLYPH_SIZE: nat := 8

  datatype Mode = Black | Text

  /** Whether a glyph has a bit at a row and a column. */
  type Font = (char, nat, nat) -> bool

  // ---- pixels ----

  /** Column and row of pixel `p` of a frame. */
  function Col(w: nat, p: nat): nat {
    if w == 0 then 0 else p % w
  }

  function Row(w: nat, p: nat): nat {
    if w == 0 then 0 else p / w
  }

  lemma PixelAt(w: nat, h: nat, x: nat, y: nat)
    requires x < w && y < h
    ensures y * w + x < h * w && Col(w, y * w + x) == x && Row(w, y * w + x) == y
  {
    Commute(y, w);
    Remainder(y * w + x, w, y, x);
    MulStep(w, y, h);
    Commute(h, w);
  }

  lemma PixelUnique(w: nat, p: nat, x: nat, y: nat)
    requires w > 0 && Col(w, p) == x && Row(w, p) == y
    ensures p == y * w + x
  {
    Commute(y, w);
  }

  predicate IsText(s: seq<byte>, p: nat)
    requires 4 * p + 4 <= |s|
  {
    s[4 * p] == CHANNEL[0] && s[4 * p + 1] == CHANNEL[1] && s[4 * p + 2] == CHANNEL[2] && s[4 * p + 3] == CHANNEL[3]
  }

  predicate SamePixel(a: seq<byte>, b: seq<byte>, p: nat)
    requires |a| == |b| && 4 * p + 4 <= |a|
  {
    a[4 * p] == b[4 * p] && a[4 * p + 1] == b[4 * p + 1] && a[4 * p + 2] == b[4 * p + 2] && a[4 * p + 3] == b[4 * p + 3]
  }

  predicate InFrame(n: nat, on: set<nat>) {
    forall p :: p in on ==> p < n
  }

  /** Of the first `n` pixels those in `on` have become text, and nothing else has changed. */
  ghost predicate Painted(a: seq<byte>, b: seq<byte>, n: nat, on: set<nat>) {
    && |a| == |b| && 4 * n <= |a| && InFrame(n, on)
    && (forall p :: p in on ==> IsText(b, p))
    && (forall p :: 0 <= p < n && p !in on ==> SamePixel(a, b, p))
    && a[4 * n..] == b[4 * n..]
  }

  lemma PaintedThen(a: seq<byte>, b: seq<byte>, c: seq<byte>, n: nat, on: set<nat>, more: set<nat>)
    requires Painted(a, b, n, on) && Painted(b, c, n, more)
    ensures Painted(a, c, n, on + more)
  {
    forall p | p in on + more ensures IsText(c, p) {
      assert p in on && p !in more ==> IsText(b, p) && SamePixel(b, c, p);
    }
    forall p | 0 <= p < n && p !in on + more ensures SamePixel(a, c, p) {
      assert SamePixel(a, b, p) && SamePixel(b, c, p);
    }
  }

  // ---- one glyph ----

  /** The pixels of a frame inside a rectangle. */
  ghost function Rect(w: nat, h: nat, x: int, y: int, width: nat, height: nat): set<nat> {
    set p: nat | p < h * w && x <= Col(w, p) < x + width && y <= Row(w, p) < y + height
  }

  /** Whether the glyph of `ch` drawn at `(gx, gy)` covers the pixel `(x, y)`. */
  predicate Covers(font: Font, ch: char, gx: int, gy: int, scale: nat, x: int, y: int)
    requires scale > 0
  {
    && gx <= x < gx + GLYPH_SIZE * scale && gy <= y < gy + GLYPH_SIZE * scale
    && font(ch, (y - gy) / scale, (x - gx) / scale)
  }

  ghost function Glyph(font: Font, ch: char, w: nat, h: nat, gx: int, gy: int, scale: nat): set<nat>
    requires scale > 0
  {
    set p: nat | p < h * w && Covers(font, ch, gx, gy, scale, Col(w, p), Row(w, p))
  }

  /** The part of a glyph in the rows before `row` and the columns of that row before `col`. */
  ghost function GlyphPart(font: Font, ch: char, w: nat, h: nat, gx: int, gy: int, scale: nat, row: nat,
                           col: nat): set<nat>
    requires scale > 0
  {
    set p: nat | p in Glyph(font, ch, w, h, gx, gy, scale)
                 && Before((Row(w, p) - gy) / scale, (Col(w, p) - gx) / scale, row, col)
  }

  predicate Before(r: int, c: int, row: int, col: int) {
    r < row || (r == row && c < col)
  }

  /** A pixel lies in a block of the scaled grid exactly when dividing by the scale gives it. */
  lemma BlockIndex(d: int, scale: nat, i: nat)
    requires scale > 0
    ensures scale * i <= d < scale * i + scale <==> d >= 0 && d / scale == i
  {
    if d >= 0 {
      var q := d / scale;
      assert d == scale * q + d % scale;
      if scale * i <= d < scale * i + scale {
        Remainder(d, scale, i, d - scale * i);
      }
    } else {
      NonNegative(scale, i);
    }
  }

  /** Being in block `(row, col)` of a glyph, by position and by index. */
  lemma InBlock(font: Font, ch: char, gx: int, gy: int, scale: nat, row: nat, col: nat, x: int, y: int)
    requires scale > 0 && row < GLYPH_SIZE && col < GLYPH_SIZE && font(ch, row, col)
    ensures gx + scale * col <= x < gx + scale * col + scale && gy + scale * row <= y < gy + scale * row + scale
            <==> Covers(font, ch, gx, gy, scale, x, y) && (y - gy) / scale == row && (x - gx) / scale == col
  {
    BlockIndex(x - gx, scale, col);
    BlockIndex(y - gy, scale, row);
    BlockEnd(scale, col);
    BlockEnd(scale, row);
  }

  lemma BlockEnd(scale: nat, i: nat)
    requires i < GLYPH_SIZE
    ensures 0 <= scale * i && scale * i + scale <= GLYPH_SIZE * scale
  {
    MulStep(scale, i, GLYPH_SIZE);
    NonNegative(scale, i);
  }

  /** Drawing one more block of the glyph, or skipping one whose bit is clear. */
  lemma NextBlock(font: Font, ch: char, w: nat, h: nat, gx: int, gy: int, scale: nat, row: nat, col: nat)
    requires scale > 0 && row < GLYPH_SIZE && col < GLYPH_SIZE
    ensures GlyphPart(font, ch, w, h, gx, gy, scale, row, col + 1)
            == var part := GlyphPart(font, ch, w, h, gx, gy, scale, row, col);
               if font(ch, row, col) then part + Rect(w, h, gx + scale * col, gy + scale * row, scale, scale)
               else part
  {
    hide Covers, Before, Col, Row;
    forall p: nat | p < h * w
      ensures p in GlyphPart(font, ch, w, h, gx, gy, scale, row, col + 1)
              <==> p in GlyphPart(font, ch, w, h, gx, gy, scale, row, col)
                   || (font(ch, row, col) && p in Rect(w, h, gx + scale * col, gy + scale * row, scale, scale))
    {
      NextBlockAt(font, ch, gx, gy, scale, row, col, Col(w, p), Row(w, p));
    }
    hide GlyphPart, Rect;
    var (part, next) := (GlyphPart(font, ch, w, h, gx, gy, scale, row, col),
                         GlyphPart(font, ch, w, h, gx, gy, scale, row, col + 1));
    var block := Rect(w, h, gx + scale * col, gy + scale * row, scale, scale);
    GlyphInFrame(font, ch, w, h, gx, gy, scale, row, col);
    InRect(w, h, gx + scale * col, gy + scale * row, scale, scale);
    SamePixels(h * w, next, if font(ch, row, col) then part + block else part);
  }

  lemma SamePixels(n: nat, a: set<nat>, b: set<nat>)
    requires InFrame(n, a) && InFrame(n, b)
    requires forall p: nat | p < n :: p in a <==> p in b
    ensures a == b
  {
    assert forall p :: p in a <==> p in b;
  }

  lemma GlyphInFrame(font: Font, ch: char, w: nat, h: nat, gx: int, gy: int, scale: nat, row: nat, col: nat)
    requires scale > 0
    ensures InFrame(h * w, GlyphPart(font, ch, w, h, gx, gy, scale, row, col))
    ensures InFrame(h * w, GlyphPart(font, ch, w, h, gx, gy, scale, row, col + 1))
  {
  }

  lemma InRect(w: nat, h: nat, x: int, y: int, width: nat, height: nat)
    ensures InFrame(h * w, Rect(w, h, x, y, width, height))
  {
  }

  lemma NextBlockAt(font: Font, ch: char, gx: int, gy: int, scale: nat, row: nat, col: nat, x: int, y: int)
    requires scale > 0 && row < GLYPH_SIZE && col < GLYPH_SIZE
    ensures var now := Covers(font, ch, gx, gy, scale, x, y);
            var r, c := (y - gy) / scale, (x - gx) / scale;
            now && Before(r, c, row, col + 1) <==>
              (now && Before(r, c, row, col))
              || (font(ch, row, col) && gx + scale * col <= x < gx + scale * col + scale
                  && gy + scale * row <= y < gy + scale * row + scale)
  {
    var r, c := (y - gy) / scale, (x - gx) / scale;
    assert Covers(font, ch, gx, gy, scale, x, y) ==> font(ch, r, c);
    if font(ch, row, col) {
      InBlock(font, ch, gx, gy, scale, row, col, x, y);
    }
    hide Covers;
  }

  /** The next row begins where the previous one ends. */
  lemma NextGlyphRow(font: Font, ch: char, w: nat, h: nat, gx: int, gy: int, scale: nat, row: nat)
    requires scale > 0
    ensures GlyphPart(font, ch, w, h, gx, gy, scale, row, GLYPH_SIZE)
            == GlyphPart(font, ch, w, h, gx, gy, scale, row + 1, 0)
  {
    hide Col, Row;
    forall p | p in Glyph(font, ch, w, h, gx, gy, scale)
      ensures 0 <= (Row(w, p) - gy) / scale < GLYPH_SIZE && 0 <= (Col(w, p) - gx) / scale < GLYPH_SIZE
    {
      GridIndex(Row(w, p) - gy, scale);
      GridIndex(Col(w, p) - gx, scale);
    }
    hide Glyph;
  }

  lemma GridIndex(d: int, scale: nat)
    requires scale > 0 && 0 <= d < GLYPH_SIZE * scale
    ensures 0 <= d / scale < GLYPH_SIZE
  {
    var q := d / scale;
    assert d == scale * q + d % scale;
    if q >= GLYPH_SIZE {
      MulMono(scale, GLYPH_SIZE, q);
    }
    if q < 0 {
      Below(scale, q);
    }
  }

  lemma Below(d: nat, q: int)
    requires q < 0 && d > 0
    ensures d * q + d <= 0
  {
    MulStep(d, 0, -q);
    assert d * q == -(d * -q);
  }

  lemma GlyphWhole(font: Font, ch: char, w: nat, h: nat, gx: int, gy: int, scale: nat)
    requires scale > 0
    ensures GlyphPart(font, ch, w, h, gx, gy, scale, GLYPH_SIZE, 0) == Glyph(font, ch, w, h, gx, gy, scale)
    ensures GlyphPart(font, ch, w, h, gx, gy, scale, 0, 0) == {}
  {
    hide Col, Row;
    forall p | p in Glyph(font, ch, w, h, gx, gy, scale)
      ensures 0 <= (Row(w, p) - gy) / scale < GLYPH_SIZE && 0 <= (Col(w, p) - gx) / scale < GLYPH_SIZE
    {
      GridIndex(Row(w, p) - gy, scale);
      GridIndex(Col(w, p) - gx, scale);
    }
    hide Glyph;
  }

  // ---- layout ----

  /** What `paint` computes before it draws. */
  datatype Layout = Layout(w: nat, h: nat, lines: seq<string>)

  function Scale(h: nat): (s: nat)
    ensures s > 0
  {
    Max(h / 180, 2)
  }

  function Cell(h: nat): (c: nat)
    ensures c > 0
  {
    GLYPH_SIZE * Scale(h)
  }

  function MaxCols(w: nat, h: nat): (n: nat)
    ensures n > 0
  {
    Max(w / Cell(h), 1)
  }

  function MaxLines(h: nat): (n: nat)
    ensures n > 0
  {
    Max(h / Cell(h), 1)
  }

  function LineWidth(lines: seq<string>): (n: nat)
    ensures forall i :: 0 <= i < |lines| ==> |lines[i]| <= n
    ensures lines != [] ==> exists i :: 0 <= i < |lines| && |lines[i]| == n
  {
    if lines == [] then 0
    else
      var n := LineWidth(lines[1..]);
      assert forall i :: 0 < i < |lines| ==> lines[i] == lines[1..][i - 1];
      assert forall i :: 0 <= i < |lines| - 1 ==> lines[1..][i] == lines[i + 1];
      Max(|lines[0]|, n)
  }

  function Wrapped(text: string, w: nat, h: nat): seq<string> {
    Wrapping.Wrapped(text, MaxCols(w, h), MaxLines(h))
  }

  function Centre(room: nat, block: nat): nat {
    Max(room - block, 0) / 2
  }

  /** Left edge of character `ci` of line `li`; lines are centred in the widest one. */
  function CellX(l: Layout, li: nat, ci: nat): nat
    requires li < |l.lines|
  {
    var cell := Cell(l.h);
    var widest := LineWidth(l.lines) * cell;
    LineFits(l, li);
    Centre(l.w, widest) + (widest - |l.lines[li]| * cell) / 2 + ci * cell
  }

  lemma LineFits(l: Layout, li: nat)
    requires li < |l.lines|
    ensures |l.lines[li]| * Cell(l.h) <= LineWidth(l.lines) * Cell(l.h)
  {
    var c := Cell(l.h);
    MulMono(c, |l.lines[li]|, LineWidth(l.lines));
    Commute(c, LineWidth(l.lines));
  }

  function CellY(l: Layout, li: nat): nat {
    Centre(l.h, |l.lines| * Cell(l.h)) + li * Cell(l.h)
  }

  predicate InCell(l: Layout, li: nat, ci: nat, x: int, y: int)
    requires li < |l.lines|
  {
    && CellX(l, li, ci) <= x < CellX(l, li, ci) + Cell(l.h)
    && CellY(l, li) <= y < CellY(l, li) + Cell(l.h)
  }

  /** The pixel lies in the cell of a character, at a set bit of its glyph. */
  predicate Hit(font: Font, l: Layout, li: nat, ci: nat, x: int, y: int) {
    && li < |l.lines| && ci < |l.lines[li]|
    && Covers(font, l.lines[li][ci], CellX(l, li, ci), CellY(l, li), Scale(l.h), x, y)
  }

  ghost predicate HitSome(font: Font, l: Layout, x: int, y: int) {
    exists li: nat, ci: nat :: Hit(font, l, li, ci, x, y)
  }

  /** The pixels of text. */
  ghost function Lit(font: Font, l: Layout): set<nat> {
    set p: nat | p < l.h * l.w && HitSome(font, l, Col(l.w, p), Row(l.w, p))
  }

  lemma HitInCell(font: Font, l: Layout, li: nat, ci: nat, x: int, y: int)
    requires Hit(font, l, li, ci, x, y)
    ensures li < |l.lines| && InCell(l, li, ci, x, y)
  {
  }

  /** No pixel lies in two cells. */
  lemma CellsDisjoint(l: Layout, li: nat, ci: nat, lj: nat, cj: nat, x: int, y: int)
    requires li < |l.lines| && lj < |l.lines|
    requires InCell(l, li, ci, x, y) && InCell(l, lj, cj, x, y)
    ensures li == lj && ci == cj
  {
    var cell := Cell(l.h);
    Apart(cell, Centre(l.h, |l.lines| * cell), li, lj, y);
    var widest := LineWidth(l.lines) * cell;
    LineFits(l, li);
    Apart(cell, Centre(l.w, widest) + (widest - |l.lines[li]| * cell) / 2, ci, cj, x);
  }

  /** A text pixel belongs to one character only: glyphs never overlap. */
  lemma OneCharacter(font: Font, l: Layout, li: nat, ci: nat, lj: nat, cj: nat, x: int, y: int)
    requires Hit(font, l, li, ci, x, y) && Hit(font, l, lj, cj, x, y)
    ensures li == lj && ci == cj
  {
    HitInCell(font, l, li, ci, x, y);
    HitInCell(font, l, lj, cj, x, y);
    HitInLine(font, l, li, ci, x, y);
    HitInLine(font, l, lj, cj, x, y);
    hide Hit, InCell;
    CellsDisjoint(l, li, ci, lj, cj, x, y);
  }

  lemma Apart(cell: nat, origin: nat, i: nat, j: nat, x: int)
    requires origin + i * cell <= x < origin + i * cell + cell
    requires origin + j * cell <= x < origin + j * cell + cell
    ensures i == j
  {
    Commute(i, cell);
    Commute(j, cell);
    if i < j {
      MulStep(cell, i, j);
    } else if j < i {
      MulStep(cell, j, i);
    }
  }

  /** In a frame of at least one cell every cell of the wrapped text lies wholly inside. */
  lemma NothingClipped(text: string, w: nat, h: nat, li: nat, ci: nat)
    requires w >= Cell(h) && h >= Cell(h)
    requires var lines := Wrapped(text, w, h); li < |lines| && ci < |lines[li]|
    ensures var l := Layout(w, h, Wrapped(text, w, h));
            CellX(l, li, ci) + Cell(h) <= w && CellY(l, li) + Cell(h) <= h
  {
    hide Wrapping.Wrapped, Cell, LineWidth;
    var lines := Wrapped(text, w, h);
    var l := Layout(w, h, lines);
    var cell := Cell(h);
    WrappedShowsPrefix(text, MaxCols(w, h), MaxLines(h));
    WidthAtMost(lines, MaxCols(w, h));
    Block(w, cell, LineWidth(lines));
    Block(h, cell, |lines|);
    LineFits(l, li);
    Inside(cell, |lines[li]|, ci);
    Inside(cell, |lines|, li);
  }

  lemma WidthAtMost(lines: seq<string>, cols: nat)
    requires lines != [] && forall i :: 0 <= i < |lines| ==> LineOk(lines[i], cols)
    ensures LineWidth(lines) <= cols
  {
  }

  /** As many cells as divide into the room fit into it. */
  lemma Block(room: nat, cell: nat, count: nat)
    requires cell > 0 && room >= cell && count <= Max(room / cell, 1)
    ensures count * cell <= room
  {
    var q := room / cell;
    assert room == cell * q + room % cell;
    if q == 0 {
      TimesZero(cell);
    } else {
      MulMono(cell, count, q);
    }
  }

  /** Each line is centred in a frame that holds it, up to the two pixels that halving loses, and so
      is the block of lines; characters and lines follow each other cell by cell. */
  lemma Centred(l: Layout, li: nat)
    requires li < |l.lines| && LineWidth(l.lines) * Cell(l.h) <= l.w && |l.lines| * Cell(l.h) <= l.h
    ensures 0 <= l.w - CellX(l, li, |l.lines[li]|) - CellX(l, li, 0) <= 2
    ensures 0 <= l.h - CellY(l, |l.lines|) - CellY(l, 0) <= 1
    ensures forall ci: nat :: CellX(l, li, ci + 1) == CellX(l, li, ci) + Cell(l.h)
    ensures CellY(l, li + 1) == CellY(l, li) + Cell(l.h)
  {
    hide Cell, LineWidth;
    LineFits(l, li);
    var cell, widest, own := Cell(l.h), LineWidth(l.lines) * Cell(l.h), |l.lines[li]| * Cell(l.h);
    NoCells(cell);
    Halves(l.w, widest, own);
    Halves(l.h, |l.lines| * cell, |l.lines| * cell);
    NextCell(cell, li);
    forall ci: nat ensures CellX(l, li, ci + 1) == CellX(l, li, ci) + cell {
      NextCell(cell, ci);
    }
  }

  lemma NoCells(cell: nat)
    ensures 0 * cell == 0
  {
  }

  lemma NextCell(cell: nat, i: nat)
    ensures (i + 1) * cell == i * cell + cell
  {
  }

  lemma Halves(room: nat, widest: nat, own: nat)
    requires own <= widest <= room
    ensures var left := Centre(room, widest) + (widest - own) / 2; 0 <= room - (left + own) - left <= 2
    ensures own == widest ==> room - (Centre(room, widest) + own) - Centre(room, widest) <= 1
  {
  }

  /** Characters are at least 16 pixels high, and a frame of 352 rows or more has room for 22 lines. */
  lemma CellSize(h: nat)
    ensures Cell(h) >= 16 && Cell(h) % 8 == 0
    ensures h >= 352 ==> MaxLines(h) >= 22
    ensures h >= 360 ==> h < 23 * Cell(h) + 180
  {
    if h >= 352 {
      var cell, n := Cell(h), h / Cell(h);
      assert 22 * cell <= h;
      AtLeast(h, cell, 22);
    }
  }

  /** As many columns and lines are used as fit the frame, and at least one of each. */
  lemma RoomUsed(w: nat, h: nat)
    ensures w >= Cell(h) ==> MaxCols(w, h) * Cell(h) <= w < (MaxCols(w, h) + 1) * Cell(h)
    ensures h >= Cell(h) ==> MaxLines(h) * Cell(h) <= h < (MaxLines(h) + 1) * Cell(h)
    ensures w < Cell(h) ==> MaxCols(w, h) == 1
    ensures h < Cell(h) ==> MaxLines(h) == 1
  {
    hide Cell;
    Quotient(w, Cell(h));
    Quotient(h, Cell(h));
  }

  lemma Quotient(n: nat, d: nat)
    requires d > 0
    ensures n / d * d <= n < (n / d + 1) * d
    ensures n >= d <==> n / d >= 1
    ensures n < d ==> n / d == 0
  {
    var q := n / d;
    assert n == d * q + n % d;
    Commute(d, q);
    NextCell(d, q);
    if q == 0 {
      TimesZero(d);
    } else {
      MulMono(d, 1, q);
    }
  }

  lemma AtLeast(n: nat, d: nat, q: nat)
    requires d > 0 && q * d <= n
    ensures n / d >= q
  {
    var k := n / d;
    assert n == d * k + n % d;
    if k < q {
      MulStep(d, k, q);
      Commute(d, q);
    }
  }

  lemma Inside(cell: nat, count: nat, i: nat)
    requires i < count
    ensures i * cell + cell <= count * cell
  {
    MulStep(cell, i, count);
    Commute(i, cell);
    Commute(count, cell);
  }

  // ---- drawing ----

  lemma RowInside(w: nat, h: nat, p: nat)
    requires p < h * w
    ensures Col(w, p) < w && Row(w, p) < h
  {
    TimesZero(h);
    var q := p / w;
    assert p == w * q + p % w;
    if q >= h {
      MulMono(w, h, q);
    }
  }

  /** One more pixel of a span, unless it is outside the frame. */
  lemma NextPixel(w: nat, h: nat, x: int, y: nat, width: nat)
    requires y < h
    ensures 0 <= x + width < w ==> y * w + x + width < h * w
    ensures Rect(w, h, x, y, width + 1, 1)
            == if 0 <= x + width < w then Rect(w, h, x, y, width, 1) + {y * w + x + width}
               else Rect(w, h, x, y, width, 1)
  {
    if 0 <= x + width < w {
      PixelAt(w, h, x + width, y);
      forall p: nat | p < h * w && Col(w, p) == x + width && Row(w, p) == y ensures p == y * w + x + width {
        PixelUnique(w, p, x + width, y);
      }
    } else {
      forall p: nat | p < h * w ensures Col(w, p) != x + width {
        RowInside(w, h, p);
      }
    }
    hide Col, Row;
  }

  lemma NextSpan(w: nat, h: nat, x: int, y: int, width: nat, height: nat)
    ensures Rect(w, h, x, y, width, height + 1)
            == if 0 <= y + height < h then Rect(w, h, x, y, width, height) + Rect(w, h, x, y + height, width, 1)
               else Rect(w, h, x, y, width, height)
  {
    forall p: nat | p < h * w ensures Row(w, p) < h {
      RowInside(w, h, p);
    }
    hide Col, Row;
  }

  lemma EmptyRect(w: nat, h: nat, x: int, y: int, width: nat)
    ensures Rect(w, h, x, y, 0, 1) == {} && Rect(w, h, x, y, width, 0) == {}
  {
  }

  lemma PaintedNone(a: seq<byte>, n: nat)
    requires 4 * n <= |a|
    ensures Painted(a, a, n, {})
  {
  }

  lemma PaintedOne(a: seq<byte>, b: seq<byte>, n: nat, p: nat)
    requires 4 * n <= |a| && p < n && b == a[..4 * p] + CHANNEL + a[4 * p + 4..]
    ensures Painted(a, b, n, {p})
  {
    assert IsText(b, p);
    forall q: nat | q < n && q != p ensures SamePixel(a, b, q) {
    }
    assert a[4 * n..] == b[4 * n..];
  }

  method SetPixel(bgra: array<byte>, n: nat, p: nat)
    requires 4 * n <= bgra.Length && p < n
    modifies bgra
    ensures Painted(old(bgra[..]), bgra[..], n, {p})
  {
    var i := p * 4;
    bgra[i], bgra[i + 1], bgra[i + 2], bgra[i + 3] := CHANNEL[0], CHANNEL[1], CHANNEL[2], CHANNEL[3];
    hide Painted;
    assert bgra[..] == old(bgra[..i]) + CHANNEL + old(bgra[i + 4..]);
    PaintedOne(old(bgra[..]), bgra[..], n, p);
  }

  /** The `dx` loop. */
  method DrawSpan(bgra: array<byte>, w: nat, h: nat, x: int, y: nat, scale: nat)
    requires 4 * (h * w) <= bgra.Length && y < h
    modifies bgra
    ensures Painted(old(bgra[..]), bgra[..], h * w, Rect(w, h, x, y, scale, 1))
  {
    hide Painted, Rect;
    EmptyRect(w, h, x, y, 0);
    PaintedNone(bgra[..], h * w);
    for dx := 0 to scale
      invariant Painted(old(bgra[..]), bgra[..], h * w, Rect(w, h, x, y, dx, 1))
    {
      NextPixel(w, h, x, y, dx);
      ghost var before := bgra[..];
      if 0 <= x + dx < w {
        SetPixel(bgra, h * w, y * w + (x + dx));
        PaintedThen(old(bgra[..]), before, bgra[..], h * w, Rect(w, h, x, y, dx, 1), {y * w + x + dx});
      }
    }
  }

  /** The `dy` loop. */
  method DrawBlock(bgra: array<byte>, w: nat, h: nat, x: int, y: int, scale: nat)
    requires 4 * (h * w) <= bgra.Length
    modifies bgra
    ensures Painted(old(bgra[..]), bgra[..], h * w, Rect(w, h, x, y, scale, scale))
  {
    hide Painted, Rect;
    EmptyRect(w, h, x, y, scale);
    PaintedNone(bgra[..], h * w);
    for dy := 0 to scale
      invariant Painted(old(bgra[..]), bgra[..], h * w, Rect(w, h, x, y, scale, dy))
    {
      NextSpan(w, h, x, y, scale, dy);
      ghost var before := bgra[..];
      if 0 <= y + dy < h {
        DrawSpan(bgra, w, h, x, y + dy, scale);
        PaintedThen(old(bgra[..]), before, bgra[..], h * w, Rect(w, h, x, y, scale, dy),
                    Rect(w, h, x, y + dy, scale, 1));
      }
    }
  }

  /** `draw_glyph`. */
  method DrawGlyph(font: Font, bgra: array<byte>, w: nat, h: nat, ch: char, gx: int, gy: int, scale: nat)
    requires 4 * (h * w) <= bgra.Length && scale > 0
    modifies bgra
    ensures Painted(old(bgra[..]), bgra[..], h * w, Glyph(font, ch, w, h, gx, gy, scale))
  {
    hide Painted, Rect, Glyph, GlyphPart;
    GlyphWhole(font, ch, w, h, gx, gy, scale);
    PaintedNone(bgra[..], h * w);
    for row := 0 to GLYPH_SIZE
      invariant Painted(old(bgra[..]), bgra[..], h * w, GlyphPart(font, ch, w, h, gx, gy, scale, row, 0))
    {
      for col := 0 to GLYPH_SIZE
        invariant Painted(old(bgra[..]), bgra[..], h * w, GlyphPart(font, ch, w, h, gx, gy, scale, row, col))
      {
        NextBlock(font, ch, w, h, gx, gy, scale, row, col);
        ghost var before := bgra[..];
        ghost var part := GlyphPart(font, ch, w, h, gx, gy, scale, row, col);
        if font(ch, row, col) {
          DrawBlock(bgra, w, h, gx + scale * col, gy + scale * row, scale);
          PaintedThen(old(bgra[..]), before, bgra[..], h * w, part,
                      Rect(w, h, gx + scale * col, gy + scale * row, scale, scale));
        }
      }
      NextGlyphRow(font, ch, w, h, gx, gy, scale, row);
    }
  }

  /** The text pixels of the lines before `li` and of the characters of that line before `ci`. */
  ghost function LitBefore(font: Font, l: Layout, li: nat, ci: nat): set<nat> {
    set p: nat | p < l.h * l.w && HitBefore(font, l, li, ci, Col(l.w, p), Row(l.w, p))
  }

  ghost predicate HitBefore(font: Font, l: Layout, li: nat, ci: nat, x: int, y: int) {
    exists a: nat, b: nat :: Hit(font, l, a, b, x, y) && Before(a, b, li, ci)
  }

  lemma NextChar(font: Font, l: Layout, li: nat, ci: nat)
    requires li < |l.lines| && ci < |l.lines[li]|
    ensures LitBefore(font, l, li, ci + 1)
            == LitBefore(font, l, li, ci)
               + Glyph(font, l.lines[li][ci], l.w, l.h, CellX(l, li, ci), CellY(l, li), Scale(l.h))
  {
    hide Hit, Col, Row, Covers, CellX, CellY, Scale;
    forall p: nat | p < l.h * l.w
      ensures var x, y := Col(l.w, p), Row(l.w, p);
              HitBefore(font, l, li, ci + 1, x, y) <==>
                (HitBefore(font, l, li, ci, x, y)
                 || Covers(font, l.lines[li][ci], CellX(l, li, ci), CellY(l, li), Scale(l.h), x, y))
    {
      NextCharAt(font, l, li, ci, Col(l.w, p), Row(l.w, p));
    }
    hide HitBefore;
  }

  lemma HitHere(font: Font, l: Layout, li: nat, ci: nat, x: int, y: int)
    requires li < |l.lines| && ci < |l.lines[li]|
    ensures Hit(font, l, li, ci, x, y)
            <==> Covers(font, l.lines[li][ci], CellX(l, li, ci), CellY(l, li), Scale(l.h), x, y)
  {
  }

  lemma NextCharAt(font: Font, l: Layout, li: nat, ci: nat, x: int, y: int)
    requires li < |l.lines| && ci < |l.lines[li]|
    ensures HitBefore(font, l, li, ci + 1, x, y) <==>
              (HitBefore(font, l, li, ci, x, y)
               || Covers(font, l.lines[li][ci], CellX(l, li, ci), CellY(l, li), Scale(l.h), x, y))
  {
    HitHere(font, l, li, ci, x, y);
    hide Hit, Covers, CellX, CellY, Scale, HitBefore;
    OneMore(font, l, li, ci, x, y);
  }

  lemma OneMore(font: Font, l: Layout, li: nat, ci: nat, x: int, y: int)
    ensures HitBefore(font, l, li, ci + 1, x, y) <==> HitBefore(font, l, li, ci, x, y) || Hit(font, l, li, ci, x, y)
  {
    hide Hit;
    if HitBefore(font, l, li, ci + 1, x, y) {
      var a: nat, b: nat :| Hit(font, l, a, b, x, y) && Before(a, b, li, ci + 1);
      assert Before(a, b, li, ci) || (a == li && b == ci);
    }
    if HitBefore(font, l, li, ci, x, y) {
      var a: nat, b: nat :| Hit(font, l, a, b, x, y) && Before(a, b, li, ci);
      assert Before(a, b, li, ci + 1);
    }
    if Hit(font, l, li, ci, x, y) {
      assert Before(li, ci, li, ci + 1);
    }
  }

  lemma NextLine(font: Font, l: Layout, li: nat)
    requires li < |l.lines|
    ensures LitBefore(font, l, li, |l.lines[li]|) == LitBefore(font, l, li + 1, 0)
  {
    hide Col, Row;
    forall p: nat | p < l.h * l.w
      ensures HitBefore(font, l, li, |l.lines[li]|, Col(l.w, p), Row(l.w, p))
              <==> HitBefore(font, l, li + 1, 0, Col(l.w, p), Row(l.w, p))
    {
      NextLineAt(font, l, li, Col(l.w, p), Row(l.w, p));
    }
    hide HitBefore;
  }

  lemma HitInLine(font: Font, l: Layout, li: nat, ci: nat, x: int, y: int)
    requires Hit(font, l, li, ci, x, y)
    ensures li < |l.lines| && ci < |l.lines[li]|
  {
  }

  lemma NextLineAt(font: Font, l: Layout, li: nat, x: int, y: int)
    requires li < |l.lines|
    ensures HitBefore(font, l, li, |l.lines[li]|, x, y) <==> HitBefore(font, l, li + 1, 0, x, y)
  {
    hide Hit;
    if HitBefore(font, l, li + 1, 0, x, y) {
      var a: nat, b: nat :| Hit(font, l, a, b, x, y) && Before(a, b, li + 1, 0);
      HitInLine(font, l, a, b, x, y);
      assert Before(a, b, li, |l.lines[li]|);
    }
    if HitBefore(font, l, li, |l.lines[li]|, x, y) {
      var a: nat, b: nat :| Hit(font, l, a, b, x, y) && Before(a, b, li, |l.lines[li]|);
      assert Before(a, b, li + 1, 0);
    }
  }

  lemma AllLines(font: Font, l: Layout)
    ensures LitBefore(font, l, 0, 0) == {}
    ensures LitBefore(font, l, |l.lines|, 0) == Lit(font, l)
  {
    forall p: nat | p < l.h * l.w
      ensures !HitBefore(font, l, 0, 0, Col(l.w, p), Row(l.w, p))
      ensures HitBefore(font, l, |l.lines|, 0, Col(l.w, p), Row(l.w, p)) <==> HitSome(font, l, Col(l.w, p), Row(l.w, p))
    {
      AllLinesAt(font, l, Col(l.w, p), Row(l.w, p));
    }
    hide HitSome, HitBefore, Col, Row;
  }

  lemma AllLinesAt(font: Font, l: Layout, x: int, y: int)
    ensures !HitBefore(font, l, 0, 0, x, y)
    ensures HitBefore(font, l, |l.lines|, 0, x, y) <==> HitSome(font, l, x, y)
  {
    hide Hit;
    if HitSome(font, l, x, y) {
      var li: nat, ci: nat :| Hit(font, l, li, ci, x, y);
      HitInLine(font, l, li, ci, x, y);
      assert Before(li, ci, |l.lines|, 0);
    }
  }

  /** The buffer with its first `n` bytes zero. */
  function Blank(s: seq<byte>, n: nat): (b: seq<byte>)
    requires n <= |s|
    ensures |b| == |s|
  {
    seq(n, _ => 0) + s[n..]
  }

  method Fill(bgra: array<byte>, n: nat)
    requires n <= bgra.Length
    modifies bgra
    ensures bgra[..] == Blank(old(bgra[..]), n)
  {
    forall i | 0 <= i < n {
      bgra[i] := 0;
    }
  }

  /** The lines of the layout, one glyph a character. */
  method DrawLines(font: Font, bgra: array<byte>, l: Layout)
    requires 4 * (l.h * l.w) <= bgra.Length
    modifies bgra
    ensures Painted(old(bgra[..]), bgra[..], l.h * l.w, Lit(font, l))
  {
    hide Painted, Lit, LitBefore, Glyph, LineWidth;
    AllLines(font, l);
    PaintedNone(bgra[..], l.h * l.w);
    var scale, cell := Scale(l.h), Cell(l.h);
    var widest := LineWidth(l.lines) * cell;
    var x0, y0 := Centre(l.w, widest), Centre(l.h, |l.lines| * cell);
    for li := 0 to |l.lines|
      invariant Painted(old(bgra[..]), bgra[..], l.h * l.w, LitBefore(font, l, li, 0))
    {
      var line := l.lines[li];
      LineFits(l, li);
      var offset := (widest - |line| * cell) / 2;
      for ci := 0 to |line|
        invariant Painted(old(bgra[..]), bgra[..], l.h * l.w, LitBefore(font, l, li, ci))
      {
        NextChar(font, l, li, ci);
        ghost var before := bgra[..];
        var gx, gy := x0 + offset + ci * cell, y0 + li * cell;
        DrawGlyph(font, bgra, l.w, l.h, line[ci], gx, gy, scale);
        PaintedThen(old(bgra[..]), before, bgra[..], l.h * l.w, LitBefore(font, l, li, ci),
                    Glyph(font, line[ci], l.w, l.h, gx, gy, scale));
      }
      NextLine(font, l, li);
    }
  }

  /** Four bytes a pixel. */
  function FrameBytes(w: nat, h: nat): nat {
    NonNegative(h, w);
    4 * (h * w)
  }

  /** `paint`. Text needs a buffer that holds the frame and indices that fit 32 bits. */
  method Paint(font: Font, mode: Mode, text: string, bgra: array<byte>, w: u32, h: u32)
    requires mode.Text? && text != "" ==> FrameBytes(w, h) <= bgra.Length && FrameBytes(w, h) <= 0x1_0000_0000
    modifies bgra
    ensures mode.Black? || text == "" ==> bgra[..] == Blank(old(bgra[..]), Min(FrameBytes(w, h), bgra.Length))
    ensures mode.Text? && text != "" ==>
      Painted(Blank(old(bgra[..]), FrameBytes(w, h)), bgra[..], h * w, Lit(font, Layout(w, h, Wrapped(text, w, h))))
  {
    hide Painted, Lit, Blank, Wrapping.Wrapped;
    assert FrameBytes(w, h) == 4 * (h * w);
    var end := Min(FrameBytes(w, h), bgra.Length);
    Fill(bgra, end);
    if mode != Text || text == "" {
      return;
    }
    var lines := Wrap(text, MaxCols(w, h), MaxLines(h));
    DrawLines(font, bgra, Layout(w, h, lines));
  }

  /** What a painted frame shows: a pixel is text exactly when it lies in the cell of some
      character at a set bit of its glyph, and black with zero alpha otherwise. */
  lemma PixelShown(font: Font, l: Layout, before: seq<byte>, after: seq<byte>, x: nat, y: nat)
    requires x < l.w && y < l.h && 4 * (l.h * l.w) <= |before|
    requires Painted(Blank(before, 4 * (l.h * l.w)), after, l.h * l.w, Lit(font, l))
    ensures 4 * (y * l.w + x) + 4 <= |after|
    ensures after[4 * (y * l.w + x)..4 * (y * l.w + x) + 4]
            == if HitSome(font, l, x, y) then [220, 220, 220, 255] else [0, 0, 0, 0]
  {
    hide HitSome;
    PixelAt(l.w, l.h, x, y);
    var p := y * l.w + x;
    hide Row, Col;
    assert p in Lit(font, l) <==> HitSome(font, l, x, y);
    PixelBytes(Blank(before, 4 * (l.h * l.w)), after, l.h * l.w, Lit(font, l), p);
  }

  lemma PixelBytes(blank: seq<byte>, after: seq<byte>, n: nat, on: set<nat>, p: nat)
    requires Painted(blank, after, n, on) && p < n
    requires forall i :: 0 <= i < 4 * n ==> blank[i] == 0
    ensures after[4 * p..4 * p + 4] == if p in on then CHANNEL else [0, 0, 0, 0]
  {
    assert p in on || SamePixel(blank, after, p);
  }
}
