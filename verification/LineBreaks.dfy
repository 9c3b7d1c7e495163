/** Where each character of a wrapped text goes: a cursor that walks over the text. */
module LineBreaks {
  import opened Bytes
  import opened Wrapping

  /** The line the cursor is on, and how many characters stand on it. */
  datatype Cursor = Cursor(line: nat, col: nat)

  /** A newline ends a line that has begun; a character that finds its line full begins the next. */
  function Walk(text: string, cols: nat): (c: Cursor)
    requires cols > 0
    ensures c.col <= cols
  {
    if text == [] then Cursor(0, 0)
    else
      var c := Walk(text[..|text| - 1], cols);
      if text[|text| - 1] == '\n' then (if c.col == 0 then c else Cursor(c.line + 1, 0))
      else if c.col == cols then Cursor(c.line + 1, 1)
      else Cursor(c.line, c.col + 1)
  }

  /** The lines so far, when the cursor stands at `c`. */
  ghost predicate Stands(lines: seq<string>, c: Cursor) {
    if c.col == 0 then |lines| == c.line else |lines| == c.line + 1 && |lines[c.line]| == c.col
  }

  /** One more character at the cursor. */
  function Put(lines: seq<string>, c: Cursor, ch: char): (out: seq<string>)
    requires Stands(lines, c) && c.col > 0
  {
    lines[..c.line] + [lines[c.line] + [ch]]
  }

  // ---- the last segment ----

  /** The segments after one more character. */
  function Longer(segs: seq<string>, ch: char): seq<string>
    requires segs != []
  {
    if ch == '\n' then segs + [[]] else segs[..|segs| - 1] + [segs[|segs| - 1] + [ch]]
  }

  lemma {:induction false} SegmentsSnoc(text: string, ch: char)
    ensures Segments(text + [ch]) == Longer(Segments(text), ch)
  {
    var all := text + [ch];
    if text == [] {
      assert all == [ch] && all[1..] == [];
      assert [ch] + [] == [ch];
    } else {
      assert all[0] == text[0] && all[1..] == text[1..] + [ch];
      SegmentsSnoc(text[1..], ch);
      FrontKept(text[0], Segments(text[1..]), ch);
    }
  }

  /** Putting a character before the first segment and one behind the last do not interfere. */
  lemma FrontKept(front: char, rest: seq<string>, ch: char)
    requires rest != []
    ensures Longer([[]] + rest, ch) == [[]] + Longer(rest, ch)
    ensures Longer([[front] + rest[0]] + rest[1..], ch) == [[front] + Longer(rest, ch)[0]] + Longer(rest, ch)[1..]
  {
    if |rest| == 1 {
      assert rest[1..] == [];
      Regroup([front], rest[0], [ch]);
    }
  }

  lemma {:induction false} AllChunksAppend(a: seq<string>, b: seq<string>, cols: nat)
    requires cols > 0
    ensures AllChunks(a + b, cols) == AllChunks(a, cols) + AllChunks(b, cols)
  {
    hide Chunks;
    if a == [] {
      assert a + b == b;
    } else {
      assert (a + b)[1..] == a[1..] + b;
      AllChunksAppend(a[1..], b, cols);
      Regroup(Chunks(a[0], cols), AllChunks(a[1..], cols), AllChunks(b, cols));
    }
  }

  lemma AllChunksOne(seg: string, cols: nat)
    requires cols > 0
    ensures AllChunks([seg], cols) == Chunks(seg, cols)
  {
    assert Chunks(seg, cols) + [] == Chunks(seg, cols);
  }

  /** The last chunk of a segment is what stands on the line. */
  function Tail(seg: string, cols: nat): (n: nat)
    requires cols > 0
    ensures n <= cols
  {
    if |seg| <= cols then |seg| else Tail(seg[cols..], cols)
  }

  lemma {:induction false} ChunksSnoc(seg: string, ch: char, cols: nat)
    requires cols > 0
    ensures var lines := Chunks(seg, cols);
            if seg == [] || Tail(seg, cols) == cols then Chunks(seg + [ch], cols) == lines + [[ch]]
            else lines != [] && Chunks(seg + [ch], cols) == lines[..|lines| - 1] + [lines[|lines| - 1] + [ch]]
    ensures seg != [] ==> Chunks(seg, cols) != [] && |Chunks(seg, cols)[|Chunks(seg, cols)| - 1]| == Tail(seg, cols) > 0
    ensures Tail(seg + [ch], cols) == if Tail(seg, cols) == cols then 1 else Tail(seg, cols) + 1
  {
    if |seg| > cols {
      ChunksSnoc(seg[cols..], ch, cols);
      assert (seg + [ch])[cols..] == seg[cols..] + [ch] && (seg + [ch])[..cols] == seg[..cols];
    } else if |seg| == cols {
      assert (seg + [ch])[..cols] == seg && (seg + [ch])[cols..] == [ch];
      FullLine(seg, [ch], cols);
      LastLine([ch], cols);
      LastLine(seg, cols);
    } else {
      LastLine(seg + [ch], cols);
      LastLine(seg, cols);
      assert [] + [ch] == [ch];
    }
  }

  // ---- the walk ----

  ghost predicate Follows(text: string, cols: nat)
    requires cols > 0
  {
    var segs := Segments(text);
    Stands(AllChunks(segs, cols), Walk(text, cols)) && Walk(text, cols).col == Tail(segs[|segs| - 1], cols)
  }

  lemma LastSegment(text: string, cols: nat) returns (early: seq<string>, last: string)
    requires cols > 0
    ensures AllChunks(Segments(text), cols) == early + Chunks(last, cols)
    ensures last == Segments(text)[|Segments(text)| - 1]
    ensures forall ch :: ch != '\n' ==> AllChunks(Longer(Segments(text), ch), cols) == early + Chunks(last + [ch], cols)
  {
    var segs := Segments(text);
    var n := |segs| - 1;
    last := segs[n];
    early := AllChunks(segs[..n], cols);
    assert segs == segs[..n] + [last];
    AllChunksAppend(segs[..n], [last], cols);
    AllChunksOne(last, cols);
    forall ch | ch != '\n' ensures AllChunks(Longer(segs, ch), cols) == early + Chunks(last + [ch], cols) {
      AllChunksAppend(segs[..n], [last + [ch]], cols);
      AllChunksOne(last + [ch], cols);
    }
  }

  /** What one more character does to the lines. */
  lemma LinesSnoc(text: string, ch: char, cols: nat)
    requires cols > 0 && Follows(text, cols)
    ensures Follows(text + [ch], cols)
    ensures var (lines, c) := (AllChunks(Segments(text), cols), Walk(text, cols));
            var out := AllChunks(Segments(text + [ch]), cols);
            out == if ch == '\n' then lines
                   else if c.col == 0 || c.col == cols then lines + [[ch]]
                   else Put(lines, c, ch)
  {
    hide Chunks, AllChunks, Segments, Tail, Longer;
    SegmentsSnoc(text, ch);
    assert (text + [ch])[..|text|] == text;
    if ch == '\n' {
      NewlineSnoc(text, cols);
    } else {
      CharSnoc(text, ch, cols);
    }
  }

  lemma NewlineSnoc(text: string, cols: nat)
    requires cols > 0
    ensures var segs := Longer(Segments(text), '\n');
            AllChunks(segs, cols) == AllChunks(Segments(text), cols) && Tail(segs[|segs| - 1], cols) == 0
  {
    AllChunksAppend(Segments(text), [[]], cols);
    AllChunksOne([], cols);
    hide Segments;
    assert AllChunks(Segments(text), cols) + [] == AllChunks(Segments(text), cols);
  }

  lemma CharSnoc(text: string, ch: char, cols: nat)
    requires cols > 0 && Follows(text, cols) && ch != '\n'
    ensures var (segs, c) := (Longer(Segments(text), ch), Walk(text, cols));
            && Tail(segs[|segs| - 1], cols) == (if c.col == cols then 1 else c.col + 1)
            && var lines := AllChunks(Segments(text), cols);
            AllChunks(segs, cols) == if c.col == 0 || c.col == cols then lines + [[ch]] else Put(lines, c, ch)
  {
    var early, last := LastSegment(text, cols);
    ChunksSnoc(last, ch, cols);
    hide Chunks, AllChunks, Segments, Walk;
    TailNone(last, cols);
    hide Tail;
    if last == [] || Walk(text, cols).col == cols {
      NewLine(early, Chunks(last, cols), ch);
    } else {
      SameLine(early, Chunks(last, cols), ch, Walk(text, cols));
    }
  }

  lemma TailNone(seg: string, cols: nat)
    requires cols > 0
    ensures seg == [] ==> Tail(seg, cols) == 0
  {
  }

  lemma NewLine(early: seq<string>, late: seq<string>, ch: char)
    ensures early + (late + [[ch]]) == (early + late) + [[ch]]
  {
  }

  lemma SameLine(early: seq<string>, late: seq<string>, ch: char, c: Cursor)
    requires late != [] && Stands(early + late, c) && c.col > 0
    ensures early + (late[..|late| - 1] + [late[|late| - 1] + [ch]]) == Put(early + late, c, ch)
  {
  }

  lemma {:induction false} WalkFollows(text: string, cols: nat)
    requires cols > 0
    ensures Follows(text, cols)
  {
    if text == [] {
      AllChunksOne([], cols);
    } else {
      var n := |text| - 1;
      assert text == text[..n] + [text[n]];
      WalkFollows(text[..n], cols);
      LinesSnoc(text[..n], text[n], cols);
    }
  }

  /** Lines that have been started stay; only the one the cursor is on grows. */
  ghost predicate Keeps(before: seq<string>, after: seq<string>) {
    |before| <= |after| && forall i :: 0 <= i < |before| ==> before[i] <= after[i]
  }

  lemma OneMoreKeeps(text: string, ch: char, cols: nat)
    requires cols > 0
    ensures var (before, after) := (AllChunks(Segments(text), cols), AllChunks(Segments(text + [ch]), cols));
            && Keeps(before, after)
            && var c := Walk(text + [ch], cols);
            (ch != '\n' ==>
               && c.col > 0 && c.line < |after| && c.col - 1 < |after[c.line]|
               && after[c.line][c.col - 1] == ch)
  {
    WalkFollows(text, cols);
    WalkFollows(text + [ch], cols);
    LinesSnoc(text, ch, cols);
    assert (text + [ch])[..|text|] == text;
    hide AllChunks, Segments, Tail;
  }

  lemma {:induction false} AllKeep(text: string, k: nat, cols: nat)
    requires cols > 0 && k <= |text|
    ensures Keeps(AllChunks(Segments(text[..k]), cols), AllChunks(Segments(text), cols))
    decreases |text| - k
  {
    hide AllChunks, Segments;
    if k == |text| {
      assert text[..k] == text;
    } else {
      assert text[..k + 1] == text[..k] + [text[k]];
      OneMoreKeeps(text[..k], text[k], cols);
      AllKeep(text, k + 1, cols);
    }
  }

  /** Every character but newlines stands where the cursor puts it, as far as lines are shown, and
      there is nothing else: as many lines are shown as the walk begins, up to the limit. */
  lemma CharactersPlaced(text: string, cols: nat, maxLines: nat, k: nat)
    requires cols > 0 && k < |text| && text[k] != '\n'
    ensures var (c, lines) := (Walk(text[..k + 1], cols), Wrapped(text, cols, maxLines));
            && c.col > 0
            && (c.line < maxLines ==>
                  && c.line < |lines| && c.col - 1 < |lines[c.line]|
                  && lines[c.line][c.col - 1] == text[k])
  {
    hide AllChunks, Segments;
    assert text[..k + 1] == text[..k] + [text[k]];
    OneMoreKeeps(text[..k], text[k], cols);
    AllKeep(text, k + 1, cols);
  }

  lemma LinesCounted(text: string, cols: nat, maxLines: nat)
    requires cols > 0
    ensures var c := Walk(text, cols);
            |Wrapped(text, cols, maxLines)| == Min(maxLines, if c.col == 0 then c.line else c.line + 1)
  {
    WalkFollows(text, cols);
    hide AllChunks, Segments, Walk, Tail;
  }
}
