/** The privacy screen's text layout: splitting at newlines and wrapping at the cell width. */
module Wrapping {
  import opened Bytes

  /** `text.split('\n')`. */
  function Segments(text: string): (segs: seq<string>)
    ensures segs != []
  {
    if text == [] then [[]]
    else
      var rest := Segments(text[1..]);
      if text[0] == '\n' then [[]] + rest else [[text[0]] + rest[0]] + rest[1..]
  }

  function WithoutNewlines(text: string): string {
    if text == [] then []
    else (if text[0] == '\n' then [] else [text[0]]) + WithoutNewlines(text[1..])
  }

  /** Lines of `cols` characters; only the last one may be shorter, none is empty. */
  function Chunks(seg: string, cols: nat): seq<string>
    requires cols > 0
  {
    if seg == [] then []
    else if |seg| <= cols then [seg]
    else [seg[..cols]] + Chunks(seg[cols..], cols)
  }

  function AllChunks(segs: seq<string>, cols: nat): seq<string>
    requires cols > 0
  {
    if segs == [] then [] else Chunks(segs[0], cols) + AllChunks(segs[1..], cols)
  }

  function Take(lines: seq<string>, n: nat): (t: seq<string>)
    ensures t <= lines
  {
    lines[..Min(n, |lines|)]
  }

  /** The lines that are shown. */
  function Wrapped(text: string, cols: nat, maxLines: nat): seq<string>
    requires cols > 0
  {
    Take(AllChunks(Segments(text), cols), maxLines)
  }

  // ---- what is shown ----

  lemma {:induction false} FlattenSegments(text: string)
    ensures Flatten(Segments(text)) == WithoutNewlines(text)
  {
    hide Flatten;
    if text == [] {
      FlattenCons([], []);
      FlattenNone();
      assert [[]] + [] == Segments(text);
    } else {
      FlattenSegments(text[1..]);
      SegmentsStep(text[0], Segments(text[1..]));
    }
  }

  lemma FlattenNone()
    ensures Flatten<char>([]) == []
  {
  }

  lemma SegmentsStep(c: char, rest: seq<string>)
    requires rest != []
    ensures Flatten([[]] + rest) == Flatten(rest)
    ensures Flatten([[c] + rest[0]] + rest[1..]) == [c] + Flatten(rest)
  {
    hide Flatten;
    var none: string := [];
    FlattenCons(none, rest);
    assert none + Flatten(rest) == Flatten(rest);
    var head, tail := rest[0], rest[1..];
    FlattenCons([c] + head, tail);
    FlattenCons(head, tail);
    assert rest == [head] + tail;
    Regroup([c], head, Flatten(tail));
  }

  lemma FlattenCons(head: string, tail: seq<string>)
    ensures Flatten([head] + tail) == head + Flatten(tail)
  {
    assert ([head] + tail)[1..] == tail;
  }

  lemma {:induction false} FlattenChunks(seg: string, cols: nat)
    requires cols > 0
    ensures Flatten(Chunks(seg, cols)) == seg
  {
    if |seg| <= cols {
      assert seg != [] ==> [seg] + [] == [seg];
      FlattenCons(seg, []);
    } else {
      FlattenChunks(seg[cols..], cols);
      FlattenCons(seg[..cols], Chunks(seg[cols..], cols));
    }
  }

  lemma {:induction false} FlattenAllChunks(segs: seq<string>, cols: nat)
    requires cols > 0
    ensures Flatten(AllChunks(segs, cols)) == Flatten(segs)
  {
    hide Chunks;
    if segs != [] {
      FlattenChunks(segs[0], cols);
      FlattenAppend(Chunks(segs[0], cols), AllChunks(segs[1..], cols));
      FlattenAllChunks(segs[1..], cols);
    }
  }

  predicate LineOk(line: string, cols: nat) {
    0 < |line| <= cols
  }

  lemma {:induction false} ChunksOk(seg: string, cols: nat)
    requires cols > 0
    ensures forall i :: 0 <= i < |Chunks(seg, cols)| ==> LineOk(Chunks(seg, cols)[i], cols)
  {
    if |seg| > cols {
      ChunksOk(seg[cols..], cols);
    }
  }

  lemma {:induction false} AllChunksOk(segs: seq<string>, cols: nat)
    requires cols > 0
    ensures forall i :: 0 <= i < |AllChunks(segs, cols)| ==> LineOk(AllChunks(segs, cols)[i], cols)
  {
    hide Chunks, LineOk;
    if segs != [] {
      ChunksOk(segs[0], cols);
      AllChunksOk(segs[1..], cols);
    }
  }

  /** The lines, concatenated, are a prefix of the text without its newlines, and all of it unless
      the line limit was reached; no line is empty or too long. */
  lemma {:induction false} WrappedShowsPrefix(text: string, cols: nat, maxLines: nat)
    requires cols > 0
    ensures var lines := Wrapped(text, cols, maxLines);
            && |lines| <= maxLines && (forall i :: 0 <= i < |lines| ==> LineOk(lines[i], cols))
            && Flatten(lines) <= WithoutNewlines(text)
            && (|lines| < maxLines ==> Flatten(lines) == WithoutNewlines(text))
  {
    hide AllChunks, Segments, LineOk, Flatten;
    var all := AllChunks(Segments(text), cols);
    AllChunksOk(Segments(text), cols);
    FlattenAllChunks(Segments(text), cols);
    FlattenSegments(text);
    var n := Min(maxLines, |all|);
    FlattenAppend(all[..n], all[n..]);
    assert all == all[..n] + all[n..];
    assert n == |all| ==> all[..n] == all;
  }

  // ---- the loops ----

  lemma FullLine(line: string, rest: string, cols: nat)
    requires |line| == cols > 0 && rest != []
    ensures Chunks(line + rest, cols) == [line] + Chunks(rest, cols)
  {
    assert (line + rest)[..cols] == line && (line + rest)[cols..] == rest;
  }

  /** One segment: full lines are pushed as the next character arrives. */
  method WrapSegment(lines: seq<string>, seg: string, cols: nat, maxLines: nat) returns (out: seq<string>)
    requires cols > 0 && |lines| < maxLines
    ensures |out| <= maxLines && out == Take(lines + Chunks(seg, cols), maxLines)
  {
    hide Chunks;
    out := lines;
    var line: string := [];
    assert [] + seg == seg[0..] == seg;
    ghost var all := lines + Chunks(seg, cols);
    for j := 0 to |seg|
      invariant |line| <= cols && |out| < maxLines
      invariant all == out + Chunks(line + seg[j..], cols)
    {
      assert seg[j..] == [seg[j]] + seg[j + 1..];
      if |line| >= cols {
        FullLine(line, seg[j..], cols);
        Regroup(out, [line], Chunks(seg[j..], cols));
        out := out + [line];
        line := [];
        assert [] + seg[j..] == seg[j..];
        if |out| >= maxLines {
          return;
        }
      }
      assert line + seg[j..] == (line + [seg[j]]) + seg[j + 1..];
      line := line + [seg[j]];
    }
    assert line + seg[|seg|..] == line;
    LastLine(line, cols);
    if line != [] && |out| < maxLines {
      out := out + [line];
    }
    assert out == all;
  }

  lemma LastLine(line: string, cols: nat)
    requires |line| <= cols && cols > 0
    ensures Chunks(line, cols) == if line == [] then [] else [line]
  {
  }

  method Wrap(text: string, cols: nat, maxLines: nat) returns (lines: seq<string>)
    requires cols > 0 && maxLines > 0
    ensures lines == Wrapped(text, cols, maxLines)
  {
    hide Chunks, Segments;
    lines := [];
    var segs := Segments(text);
    ghost var all := AllChunks(segs, cols);
    assert segs[0..] == segs && [] + all == all;
    for i := 0 to |segs|
      invariant |lines| < maxLines
      invariant lines + AllChunks(segs[i..], cols) == all
    {
      assert segs[i..][0] == segs[i] && segs[i..][1..] == segs[i + 1..];
      ghost var rest := AllChunks(segs[i + 1..], cols);
      assert lines + (Chunks(segs[i], cols) + rest) == (lines + Chunks(segs[i], cols)) + rest;
      ghost var whole := lines + Chunks(segs[i], cols);
      lines := WrapSegment(lines, segs[i], cols, maxLines);
      if |lines| >= maxLines {
        return;
      }
      assert lines == whole;
    }
    assert segs[|segs|..] == [] && lines + [] == lines;
  }
}
