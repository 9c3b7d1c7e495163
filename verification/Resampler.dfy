/** The playback resampler: a window of at most 4000 input samples and a fractional read
    position. Floating point is modelled by real numbers. */
module Resampler {
  import opened Bytes

  const WINDOW: nat := 4000

  datatype Window = Window(buf: seq<i16>, pos: real)

  const EmptyWindow := Window([], 0.0)

  // ---- one sample ----

  /** Rust's `as i16` of a value in range: rounds towards zero. */
  function Truncate(x: real): int {
    if x >= 0.0 then x.Floor else -((-x).Floor)
  }

  function Clamp(x: real): real {
    if x < -32768.0 then -32768.0 else if x > 32767.0 then 32767.0 else x
  }

  /** The straight line from `s0` to `s1` at `frac`. */
  function Line(s0: i16, s1: i16, frac: real): real
    requires 0.0 <= frac < 1.0
  {
    s0 as real + Scale((s1 - s0) as real, frac)
  }

  /** A fraction of `d`. */
  function Scale(d: real, frac: real): (p: real)
    requires 0.0 <= frac < 1.0
    ensures d >= 0.0 ==> 0.0 <= p <= d
    ensures d <= 0.0 ==> d <= p <= 0.0
  {
    var p := d * frac;
    ScaleBounds(d, frac, p);
    p
  }

  lemma ProductSign(a: real, b: real, p: real)
    requires a >= 0.0 && b >= 0.0 && p == a * b
    ensures p >= 0.0
  {
  }

  lemma ScaleBounds(d: real, frac: real, p: real)
    requires 0.0 <= frac < 1.0 && p == d * frac
    ensures d >= 0.0 ==> 0.0 <= p <= d
    ensures d <= 0.0 ==> d <= p <= 0.0
  {
    var rest := 1.0 - frac;
    assert d * frac + d * rest == d;
    if d >= 0.0 {
      ProductSign(d, frac, p);
      ProductSign(d, rest, d - p);
    } else {
      ProductSign(-d, frac, -p);
      ProductSign(-d, rest, p - d);
    }
  }

  lemma TruncateBetween(lo: int, hi: int, x: real)
    requires lo as real <= x <= hi as real
    ensures lo <= Truncate(x) <= hi
  {
  }

  /** The line stays between its ends, so that clamping never changes it. */
  lemma LineBetween(s0: i16, s1: i16, frac: real)
    requires 0.0 <= frac < 1.0
    ensures Min(s0, s1) as real <= Line(s0, s1, frac) <= Max(s0, s1) as real
    ensures Clamp(Line(s0, s1, frac)) == Line(s0, s1, frac)
    ensures Min(s0, s1) <= Truncate(Line(s0, s1, frac)) <= Max(s0, s1)
  {
    PointBetween(s0, s1, Scale((s1 - s0) as real, frac));
  }

  lemma PointBetween(s0: i16, s1: i16, step: real)
    requires s1 >= s0 ==> 0.0 <= step <= (s1 - s0) as real
    requires s1 <= s0 ==> (s1 - s0) as real <= step <= 0.0
    ensures var x := s0 as real + step;
            Min(s0, s1) as real <= x <= Max(s0, s1) as real && Clamp(x) == x
            && Min(s0, s1) <= Truncate(x) <= Max(s0, s1)
  {
    var x := s0 as real + step;
    if s0 <= s1 {
      TruncateBetween(s0, s1, x);
    } else {
      TruncateBetween(s1, s0, x);
    }
  }

  predicate InRange(history: seq<i16>, x: real) {
    0.0 <= x && x + 1.0 < |history| as real
  }

  /** The ideal resampler: truncated linear interpolation of the whole history at `x`. */
  function SampleAt(history: seq<i16>, x: real): (s: i16)
    requires InRange(history, x)
    ensures Min(history[x.Floor], history[x.Floor + 1]) <= s <= Max(history[x.Floor], history[x.Floor + 1])
  {
    var i := x.Floor;
    LineBetween(history[i], history[i + 1], x - i as real);
    Truncate(Line(history[i], history[i + 1], x - i as real))
  }

  lemma Weights(a: real, b: real, frac: real, p: real)
    requires p == (b - a) * frac
    ensures a + p == a * (1.0 - frac) + b * frac
  {
  }

  /** `s` is `v` without its fraction. */
  predicate RoundsTo(s: int, v: real) {
    (v >= 0.0 ==> s == v.Floor) && (v <= 0.0 ==> s == -((-v).Floor))
  }

  /** The mean of two samples, the second with weight `far`. */
  function Blend(near: int, next: int, far: real): real {
    near as real * (1.0 - far) + next as real * far
  }

  /** What the ideal sample is: the two inputs around `x`, each weighted by how near it is, rounded
      towards zero; at a whole position the input itself. */
  lemma LinearlyInterpolated(history: seq<i16>, x: real)
    requires InRange(history, x)
    ensures var i := x.Floor;
            RoundsTo(SampleAt(history, x), Blend(history[i], history[i + 1], x - i as real))
    ensures x == x.Floor as real ==> SampleAt(history, x) == history[x.Floor]
  {
    var i := x.Floor;
    TruncateRounds(Line(history[i], history[i + 1], x - i as real));
    LineBlends(history[i], history[i + 1], x - i as real);
    hide Line, RoundsTo, Blend;
  }

  lemma TruncateRounds(v: real)
    ensures RoundsTo(Truncate(v), v)
  {
  }

  lemma LineBlends(s0: i16, s1: i16, frac: real)
    requires 0.0 <= frac < 1.0
    ensures Line(s0, s1, frac) == Blend(s0, s1, frac)
    ensures frac == 0.0 ==> Line(s0, s1, frac) == s0 as real
  {
    Weights(s0 as real, s1 as real, frac, (s1 as int - s0 as int) as real * frac);
  }

  // ---- the window ----

  function Push(w: Window, samples: seq<i16>): Window {
    var all := w.buf + samples;
    if |all| <= WINDOW then Window(all, w.pos)
    else
      var cut := |all| - WINDOW;
      Window(all[cut..], if w.pos > cut as real then w.pos - cut as real else 0.0)
  }

  predicate Starved(w: Window) {
    w.pos + 1.0 >= |w.buf| as real
  }

  /** `next_sample`: silence without moving while starved. */
  function Next(w: Window, ratio: real): (n: (Window, Option<i16>))
    requires w.pos >= 0.0
    ensures ratio >= 0.0 ==> n.0.pos >= 0.0
  {
    if Starved(w) then (w, None)
    else
      var i := w.pos.Floor;
      var line := Line(w.buf[i], w.buf[i + 1], w.pos - i as real);
      LineBetween(w.buf[i], w.buf[i + 1], w.pos - i as real);
      (Window(w.buf, w.pos + ratio), Some(Truncate(Clamp(line))))
  }

  // ---- whole runs ----

  /** The ideal position of output `n`. */
  function Position(n: nat, ratio: real): real {
    n as real * ratio
  }

  lemma NextPosition(n: nat, ratio: real)
    ensures Position(n + 1, ratio) == Position(n, ratio) + ratio
  {
    assert (n as real + 1.0) * ratio == n as real * ratio + ratio;
  }

  datatype Op = OpPush(samples: seq<i16>) | OpNext | OpReset

  /** A run since its last reset: the window, all input, what was trimmed away, how far trimming
      has moved the reader, the samples put out, and that displacement at each of them. */
  datatype Run = Run(w: Window, history: seq<i16>, trimmed: nat, skipped: real, outputs: seq<i16>, skips: seq<real>)

  function Step(r: Run, op: Op, ratio: real): Run
    requires r.w.pos >= 0.0
  {
    match op
    case OpPush(samples) =>
      var over := |r.w.buf + samples| - WINDOW;
      var cut := if over > 0 then over else 0;
      Run(Push(r.w, samples), r.history + samples, r.trimmed + cut,
          r.skipped + (if r.w.pos >= cut as real then 0.0 else cut as real - r.w.pos), r.outputs, r.skips)
    case OpNext =>
      var (w', s) := Next(r.w, ratio);
      if s.None? then r else r.(w := w', outputs := r.outputs + [s.value], skips := r.skips + [r.skipped])
    case OpReset => Start
  }

  const Start := Run(EmptyWindow, [], 0, 0.0, [], [])

  ghost predicate RunInv(r: Run, ratio: real) {
    && r.w.pos >= 0.0 && r.skipped >= 0.0
    && r.trimmed <= |r.history| && r.w.buf == r.history[r.trimmed..] && |r.w.buf| <= WINDOW
    && r.w.pos + r.trimmed as real == Position(|r.outputs|, ratio) + r.skipped
    && |r.skips| == |r.outputs|
    && (forall j, k :: 0 <= j < k < |r.skips| ==> r.skips[j] <= r.skips[k])
    && forall k :: 0 <= k < |r.outputs| ==> Exact(r, ratio, k)
  }

  /** Output `k` is the ideal sample at k·ratio, displaced by what trimming had skipped. */
  ghost predicate Exact(r: Run, ratio: real, k: nat)
    requires k < |r.outputs| == |r.skips|
  {
    var x := Position(k, ratio) + r.skips[k];
    0.0 <= r.skips[k] <= r.skipped && InRange(r.history, x) && r.outputs[k] == SampleAt(r.history, x)
  }

  lemma SampleSame(history: seq<i16>, more: seq<i16>, x: real)
    requires InRange(history, x)
    ensures InRange(history + more, x) && SampleAt(history + more, x) == SampleAt(history, x)
  {
    hide Position, Scale;
  }

  lemma StepPush(r: Run, samples: seq<i16>, ratio: real)
    requires RunInv(r, ratio)
    ensures RunInv(Step(r, OpPush(samples), ratio), ratio)
  {
    hide Position, Scale;
    var r' := Step(r, OpPush(samples), ratio);
    assert r.w.buf + samples == r'.history[r.trimmed..];
    forall k | 0 <= k < |r'.outputs| ensures Exact(r', ratio, k) {
      assert Exact(r, ratio, k);
      SampleSame(r.history, samples, Position(k, ratio) + r.skips[k]);
    }
  }

  /** The window read at `pos` is the history read at `pos` plus what was trimmed. */
  lemma WindowReadsHistory(r: Run, ratio: real)
    requires RunInv(r, ratio) && !Starved(r.w)
    ensures var x := r.w.pos + r.trimmed as real;
            InRange(r.history, x) && Next(r.w, ratio).1 == Some(SampleAt(r.history, x))
  {
    var x := r.w.pos + r.trimmed as real;
    assert x.Floor == r.w.pos.Floor + r.trimmed;
    var i := r.w.pos.Floor;
    LineBetween(r.w.buf[i], r.w.buf[i + 1], r.w.pos - i as real);
  }

  lemma StepNext(r: Run, ratio: real)
    requires RunInv(r, ratio) && ratio >= 0.0
    ensures RunInv(Step(r, OpNext, ratio), ratio)
  {
    hide Position, Scale;
    var r' := Step(r, OpNext, ratio);
    if !Starved(r.w) {
      WindowReadsHistory(r, ratio);
      NextPosition(|r.outputs|, ratio);
      forall j | 0 <= j < |r.skips| ensures r.skips[j] <= r.skipped {
        assert Exact(r, ratio, j);
      }
      forall k | 0 <= k < |r'.outputs| ensures Exact(r', ratio, k) {
        if k < |r.outputs| {
          assert Exact(r, ratio, k);
        }
      }
    }
  }

  lemma StepKeeps(r: Run, op: Op, ratio: real)
    requires RunInv(r, ratio) && ratio >= 0.0
    ensures RunInv(Step(r, op, ratio), ratio)
  {
    hide RunInv;
    match op
    case OpPush(samples) => StepPush(r, samples, ratio);
    case OpNext => StepNext(r, ratio);
    case OpReset => StartInv(ratio);
  }

  lemma StartInv(ratio: real)
    ensures RunInv(Start, ratio)
  {
  }

  ghost function RunOf(ops: seq<Op>, ratio: real): (r: Run)
    requires ratio >= 0.0
    ensures RunInv(r, ratio)
  {
    if ops == [] then Start
    else
      var r, op := RunOf(ops[..|ops| - 1], ratio), ops[|ops| - 1];
      StepKeeps(r, op, ratio);
      Step(r, op, ratio)
  }

  /** Everything pushed since the last reset, in order. */
  function Input(ops: seq<Op>): seq<i16> {
    if ops == [] || ops[|ops| - 1].OpReset? then []
    else Input(ops[..|ops| - 1]) + (if ops[|ops| - 1].OpPush? then ops[|ops| - 1].samples else [])
  }

  lemma {:induction false} HistoryIsInput(ops: seq<Op>, ratio: real)
    requires ratio >= 0.0
    ensures RunOf(ops, ratio).history == Input(ops)
  {
    if ops != [] {
      HistoryIsInput(ops[..|ops| - 1], ratio);
    }
  }

  /** The window is the newest 4000 samples, or all there are. */
  lemma {:induction false} WindowIsNewest(ops: seq<Op>, ratio: real)
    requires ratio >= 0.0
    ensures var (input, buf) := (Input(ops), RunOf(ops, ratio).w.buf);
            |buf| == Min(|input|, 4000) && buf == input[|input| - |buf|..]
  {
    if ops != [] {
      var before, op := ops[..|ops| - 1], ops[|ops| - 1];
      WindowIsNewest(before, ratio);
      hide Input, RunInv, Next, Position;
      match op
      case OpPush(samples) =>
        InputStep(ops);
        NewestAfter(Input(before), RunOf(before, ratio).w, samples);
      case OpNext => InputStep(ops); NextKeeps(RunOf(before, ratio).w, ratio);
      case OpReset => InputStep(ops);
    } else {
      InputNone();
    }
  }

  lemma InputNone()
    ensures Input([]) == []
  {
  }

  lemma InputStep(ops: seq<Op>)
    requires ops != []
    ensures var (before, op) := (Input(ops[..|ops| - 1]), ops[|ops| - 1]);
            Input(ops) == match op
                          case OpPush(samples) => before + samples
                          case OpNext => before
                          case OpReset => []
  {
  }

  lemma NextKeeps(w: Window, ratio: real)
    requires w.pos >= 0.0
    ensures Next(w, ratio).0.buf == w.buf
  {
  }

  lemma NewestAfter(input: seq<i16>, w: Window, samples: seq<i16>)
    requires |w.buf| == Min(|input|, 4000) && w.buf == input[|input| - |w.buf|..]
    ensures var (all, buf) := (input + samples, Push(w, samples).buf);
            |buf| == Min(|all|, 4000) && buf == all[|all| - |buf|..]
  {
    assert w.buf + samples == (input + samples)[|input| - |w.buf|..];
  }

  /** The reader has not been overtaken by a trim since the last reset. */
  ghost predicate NeverOvertaken(ops: seq<Op>, ratio: real)
    requires ratio >= 0.0
  {
    RunOf(ops, ratio).skipped == 0.0
  }

  /** The windowed resampler refines the ideal one: as long as the reader is not overtaken, its
      n-th sample is the interpolation of all input at n·ratio, whatever the chunks, the trimming
      and the underruns were. */
  lemma RefinesIdeal(ops: seq<Op>, ratio: real, n: nat)
    requires ratio >= 0.0 && NeverOvertaken(ops, ratio) && n < |RunOf(ops, ratio).outputs|
    ensures InRange(Input(ops), Position(n, ratio))
    ensures RunOf(ops, ratio).outputs[n] == SampleAt(Input(ops), Position(n, ratio))
  {
    hide Position, Scale, SampleAt, InRange, RunOf, Input;
    HistoryIsInput(ops, ratio);
    assert Exact(RunOf(ops, ratio), ratio, n);
  }

  lemma UnitPosition(n: nat)
    ensures Position(n, 1.0) == n as real && (n as real).Floor == n
  {
  }

  /** At ratio one the resampler copies its input. */
  lemma CopiesAtRatioOne(ops: seq<Op>, n: nat)
    requires NeverOvertaken(ops, 1.0) && n < |RunOf(ops, 1.0).outputs|
    ensures n + 1 < |Input(ops)| && RunOf(ops, 1.0).outputs[n] == Input(ops)[n]
  {
    RefinesIdeal(ops, 1.0, n);
    hide RunOf, Input, Position, SampleAt;
    UnitPosition(n);
    LinearlyInterpolated(Input(ops), n as real);
  }

  /** Pushing a window's worth and reading, at any ratio, as often as the input covers puts out a
      sample each time and overtakes nothing. */
  lemma {:induction false} PlaysThrough(samples: seq<i16>, count: nat, ratio: real)
    requires ratio >= 0.0 && |samples| <= WINDOW
    requires count > 0 ==> Position(count - 1, ratio) + 1.0 < |samples| as real
    ensures var ops := [OpPush(samples)] + seq(count, _ => OpNext);
            var r := RunOf(ops, ratio);
            NeverOvertaken(ops, ratio) && |r.outputs| == count && Input(ops) == samples && r.w.buf == samples
            && r.w.pos == Position(count, ratio)
    decreases count
  {
    hide RunInv, Position, Input, Next;
    var ops := [OpPush(samples)] + seq(count, _ => OpNext);
    if count == 0 {
      FirstPush(samples, ratio);
      assert ops == [OpPush(samples)];
    } else {
      var before := [OpPush(samples)] + seq(count - 1, _ => OpNext);
      assert ops == before + [OpNext];
      PositionGrows(count - 1, ratio);
      PlaysThrough(samples, count - 1, ratio);
      NextPosition(count - 1, ratio);
      OneRead(before, ratio);
    }
  }

  lemma FirstPush(samples: seq<i16>, ratio: real)
    requires ratio >= 0.0 && |samples| <= WINDOW
    ensures var r := RunOf([OpPush(samples)], ratio);
            && r.w == Window(samples, 0.0) && r.skipped == 0.0 && r.outputs == []
            && Input([OpPush(samples)]) == samples && Position(0, ratio) == 0.0
  {
    var ops := [OpPush(samples)];
    assert ops[..0] == [] && [] + samples == samples;
  }

  lemma OneRead(ops: seq<Op>, ratio: real)
    requires ratio >= 0.0 && !Starved(RunOf(ops, ratio).w)
    ensures var (r, r') := (RunOf(ops, ratio), RunOf(ops + [OpNext], ratio));
            && r'.w == Window(r.w.buf, r.w.pos + ratio) && r'.skipped == r.skipped
            && |r'.outputs| == |r.outputs| + 1 && Input(ops + [OpNext]) == Input(ops)
  {
    assert (ops + [OpNext])[..|ops|] == ops;
    hide Line;
  }

  lemma PositionGrows(n: nat, ratio: real)
    requires ratio >= 0.0
    ensures n > 0 ==> Position(n - 1, ratio) <= Position(n, ratio)
  {
    if n > 0 {
      NextPosition(n - 1, ratio);
    }
  }

  /** Whatever was trimmed, output `n` since the last reset is the ideal sample at n·ratio plus what
      trimming had skipped by then, and that never becomes less. */
  lemma DisplacedIdeal(ops: seq<Op>, ratio: real, n: nat)
    requires ratio >= 0.0 && n < |RunOf(ops, ratio).outputs|
    ensures var r := RunOf(ops, ratio);
            && |r.skips| == |r.outputs| && 0.0 <= r.skips[n] <= r.skipped
            && (n + 1 < |r.skips| ==> r.skips[n] <= r.skips[n + 1])
            && InRange(Input(ops), Position(n, ratio) + r.skips[n])
            && r.outputs[n] == SampleAt(Input(ops), Position(n, ratio) + r.skips[n])
  {
    hide Position, Scale, SampleAt, InRange, RunOf, Input;
    HistoryIsInput(ops, ratio);
    assert Exact(RunOf(ops, ratio), ratio, n);
  }

  /** It is silent exactly when the next position is not yet covered by the input. */
  lemma StarvedIff(ops: seq<Op>, ratio: real)
    requires ratio >= 0.0 && NeverOvertaken(ops, ratio)
    ensures Starved(RunOf(ops, ratio).w) <==> !InRange(Input(ops), Position(|RunOf(ops, ratio).outputs|, ratio))
  {
    hide RunInv, Starved, InRange, Position, Step;
    HistoryIsInput(ops, ratio);
    var r := RunOf(ops, ratio);
    StarvedRun(r, ratio, Position(|r.outputs|, ratio));
  }

  lemma StarvedRun(r: Run, ratio: real, x: real)
    requires RunInv(r, ratio) && r.skipped == 0.0 && x == Position(|r.outputs|, ratio)
    ensures Starved(r.w) <==> !InRange(r.history, x)
  {
    hide Position, Scale;
    assert r.w.pos + r.trimmed as real == x;
    assert |r.w.buf| == |r.history| - r.trimmed;
  }

  /** Two runs over the same input, chunked and interleaved differently, put out the same samples
      as far as both have got. */
  lemma ChunkingIrrelevant(ops: seq<Op>, ops': seq<Op>, ratio: real, n: nat)
    requires ratio >= 0.0 && Input(ops) == Input(ops')
    requires NeverOvertaken(ops, ratio) && NeverOvertaken(ops', ratio)
    requires n < |RunOf(ops, ratio).outputs| && n < |RunOf(ops', ratio).outputs|
    ensures RunOf(ops, ratio).outputs[n] == RunOf(ops', ratio).outputs[n]
  {
    RefinesIdeal(ops, ratio, n);
    RefinesIdeal(ops', ratio, n);
  }

  /** A trim overtakes the reader exactly when it cuts past the read position. */
  lemma OvertakenIff(ops: seq<Op>, samples: seq<i16>, ratio: real)
    requires ratio >= 0.0 && NeverOvertaken(ops, ratio)
    ensures NeverOvertaken(ops + [OpPush(samples)], ratio)
       <==> RunOf(ops, ratio).w.pos >= (|RunOf(ops, ratio).w.buf| + |samples| - WINDOW) as real
  {
    assert (ops + [OpPush(samples)])[..|ops|] == ops;
  }

  // ---- the object ----

  /** Silence stands in for a missing sample. */
  function Heard(s: Option<i16>): i16 {
    if s.Some? then s.value else 0
  }

  /** `frames` samples in a row, silence where the window is starved. */
  function Fill(w: Window, ratio: real, frames: nat): (Window, seq<i16>)
    requires w.pos >= 0.0 && ratio >= 0.0
    decreases frames
  {
    if frames == 0 then (w, [])
    else
      var (w', s) := Next(w, ratio);
      var (w'', rest) := Fill(w', ratio, frames - 1);
      (w'', [Heard(s)] + rest)
  }

  /** Filling a buffer reads on where the run stands: its samples are those of as many more reads, the
      run's own outputs first, and 0 for every read that found nothing. */
  lemma {:induction false} FillContinues(ops: seq<Op>, ratio: real, frames: nat)
    requires ratio >= 0.0
    ensures var (r, r') := (RunOf(ops, ratio), RunOf(ops + seq(frames, _ => OpNext), ratio));
            var (w, mono) := Fill(r.w, ratio, frames);
            && w == r'.w && r.outputs <= r'.outputs
            && var played := |r'.outputs| - |r.outputs|;
            && played <= frames && (played < frames ==> Starved(w)) && (Starved(r.w) ==> played == 0)
            && mono == r'.outputs[|r.outputs|..] + seq(frames - played, _ => 0)
    decreases frames
  {
    hide RunOf, RunInv, Next, Starved;
    if frames == 0 {
      assert ops + seq(0, _ => OpNext) == ops;
    } else {
      assert ops + seq(frames, _ => OpNext) == (ops + [OpNext]) + seq(frames - 1, _ => OpNext);
      ReadsOne(ops, ratio);
      FillContinues(ops + [OpNext], ratio, frames - 1);
      var (r, r', last) := (RunOf(ops, ratio), RunOf(ops + [OpNext], ratio),
                            RunOf(ops + seq(frames, _ => OpNext), ratio));
      OneMoreSample(r.outputs, r'.outputs, last.outputs, Heard(Next(r.w, ratio).1), frames);
    }
  }

  lemma OneMoreSample(before: seq<i16>, next: seq<i16>, last: seq<i16>, s: i16, frames: nat)
    requires frames > 0 && next <= last && |last| - |next| < frames
    requires next == before + [s] || (next == before && s == 0 && |last| == |next|)
    ensures before <= last && |last| - |before| <= frames
    ensures [s] + (last[|next|..] + seq(frames - 1 - (|last| - |next|), _ => 0))
         == last[|before|..] + seq(frames - (|last| - |before|), _ => 0)
  {
  }

  lemma ReadsOne(ops: seq<Op>, ratio: real)
    requires ratio >= 0.0
    ensures var (r, r') := (RunOf(ops, ratio), RunOf(ops + [OpNext], ratio));
            && r.w.pos >= 0.0 && r'.w == Next(r.w, ratio).0
            && if Starved(r.w) then r' == r && Heard(Next(r.w, ratio).1) == 0
               else r'.outputs == r.outputs + [Heard(Next(r.w, ratio).1)]
  {
    assert (ops + [OpNext])[..|ops|] == ops;
    hide Line;
  }

  class Resampler {
    var buf: seq<i16>
    var readPos: real
    const ratio: real
    const outChannels: nat

    ghost function View(): Window
      reads this
    {
      Window(buf, readPos)
    }

    ghost predicate Valid()
      reads this
    {
      readPos >= 0.0 && ratio >= 0.0 && outChannels >= 1
    }

    constructor (inRate: u32, outRate: u32, outChannels: u16)
      ensures Valid() && View() == EmptyWindow
      ensures ratio == inRate as real / Max(outRate, 1) as real && this.outChannels == Max(outChannels, 1)
    {
      buf, readPos := [], 0.0;
      ratio := inRate as real / Max(outRate, 1) as real;
      this.outChannels := Max(outChannels, 1);
    }

    method PushSamples(samples: seq<i16>)
      requires Valid()
      modifies this
      ensures Valid() && View() == Push(old(View()), samples)
    {
      buf := buf + samples;
      if |buf| > WINDOW {
        var cut := |buf| - WINDOW;
        buf := buf[cut..];
        readPos := readPos - cut as real;
        if readPos < 0.0 {
          readPos := 0.0;
        }
      }
    }

    method Reset()
      requires Valid()
      modifies this
      ensures Valid() && View() == EmptyWindow
    {
      buf, readPos := [], 0.0;
    }

    method NextSample() returns (s: i16)
      requires Valid()
      modifies this
      ensures Valid() && View() == Next(old(View()), ratio).0
      ensures s == Heard(Next(old(View()), ratio).1)
    {
      if readPos + 1.0 >= |buf| as real {
        return 0;
      }
      var i := readPos.Floor;
      var frac := readPos - i as real;
      LineBetween(buf[i], buf[i + 1], frac);
      s := Truncate(Clamp(Line(buf[i], buf[i + 1], frac)));
      readPos := readPos + ratio;
    }

    /** Fills `out` with whole frames, the same sample on every channel, and zeroes what is left. */
    method FillI16(out: array<i16>)
      requires Valid()
      modifies this, out
      ensures Valid()
      ensures var (w, mono) := Fill(old(View()), ratio, out.Length / outChannels);
              && View() == w && |mono| == out.Length / outChannels
              && forall i :: 0 <= i < out.Length ==>
                  out[i] == if FrameOf(i, outChannels) < |mono| then mono[FrameOf(i, outChannels)] else 0
    {
      hide Next, Fill, FrameOf, FrameStart;
      var frames := out.Length / outChannels;
      FrameRange(out.Length, outChannels);
      ghost var mono: seq<i16> := [];
      var wrote := 0;
      PrependNone(View(), ratio, frames);
      for f := 0 to frames
        invariant Valid() && |mono| == f && wrote == FrameStart(f, outChannels) <= out.Length
        invariant Fill(old(View()), ratio, frames) == Prepend(mono, Fill(View(), ratio, frames - f))
        invariant forall i :: 0 <= i < wrote ==> FrameOf(i, outChannels) < f && out[i] == mono[FrameOf(i, outChannels)]
      {
        ghost var before := View();
        var s := NextSample();
        PrependStep(before, ratio, frames - f, mono);
        StartsApart(f, frames, outChannels);
        CopyFrame(out, wrote, s);
        forall i | 0 <= i < wrote + outChannels
          ensures FrameOf(i, outChannels) < f + 1 && out[i] == (mono + [s])[FrameOf(i, outChannels)]
        {
          FrameIndex(i, f, outChannels);
        }
        mono := mono + [s];
        wrote := wrote + outChannels;
      }
      PrependAll(mono, View(), ratio);
      ZeroTail(out, wrote);
      forall i | 0 <= i < out.Length ensures FrameOf(i, outChannels) < frames <==> i < wrote {
        FrameIndex(i, frames, outChannels);
      }
    }

    /** Silences the samples that do not make up a whole frame. */
    method ZeroTail(out: array<i16>, wrote: nat)
      requires wrote <= out.Length
      modifies out
      ensures forall i :: 0 <= i < out.Length ==> out[i] == if i < wrote then old(out[i]) else 0
    {
      for i := wrote to out.Length
        invariant forall j :: 0 <= j < out.Length ==> out[j] == if wrote <= j < i then 0 else old(out[j])
      {
        out[i] := 0;
      }
    }

    /** Writes one sample to every channel of the frame that begins at `start`. */
    method CopyFrame(out: array<i16>, start: nat, s: i16)
      requires start + outChannels <= out.Length
      modifies out
      ensures forall i :: 0 <= i < out.Length ==> out[i] == if start <= i < start + outChannels then s else old(out[i])
    {
      for c := 0 to outChannels
        invariant forall i :: 0 <= i < out.Length ==> out[i] == if start <= i < start + c then s else old(out[i])
      {
        out[start + c] := s;
      }
    }
  }

  function Prepend(mono: seq<i16>, rest: (Window, seq<i16>)): (Window, seq<i16>) {
    (rest.0, mono + rest.1)
  }

  lemma PrependNone(w: Window, ratio: real, frames: nat)
    requires w.pos >= 0.0 && ratio >= 0.0
    ensures Fill(w, ratio, frames) == Prepend([], Fill(w, ratio, frames))
  {
    var f := Fill(w, ratio, frames);
    assert [] + f.1 == f.1;
  }

  lemma PrependAll(mono: seq<i16>, w: Window, ratio: real)
    requires w.pos >= 0.0 && ratio >= 0.0
    ensures Prepend(mono, Fill(w, ratio, 0)) == (w, mono)
  {
    assert mono + [] == mono;
  }

  lemma PrependStep(w: Window, ratio: real, frames: nat, mono: seq<i16>)
    requires w.pos >= 0.0 && ratio >= 0.0 && frames > 0
    ensures Prepend(mono, Fill(w, ratio, frames))
         == Prepend(mono + [Heard(Next(w, ratio).1)], Fill(Next(w, ratio).0, ratio, frames - 1))
  {
    var (w', s) := Next(w, ratio);
    var rest := Fill(w', ratio, frames - 1).1;
    assert mono + ([Heard(s)] + rest) == (mono + [Heard(s)]) + rest;
  }

  function FrameOf(i: nat, channels: nat): nat
    requires channels >= 1
  {
    i / channels
  }

  function FrameStart(f: nat, channels: nat): nat {
    f * channels
  }

  lemma FrameRange(length: nat, channels: nat)
    requires channels >= 1
    ensures FrameStart(length / channels, channels) <= length && FrameStart(0, channels) == 0
  {
  }

  lemma {:induction false} StartAdds(a: nat, b: nat, channels: nat)
    ensures FrameStart(a + b, channels) == FrameStart(a, channels) + FrameStart(b, channels)
  {
  }

  lemma StartsApart(a: nat, b: nat, channels: nat)
    requires a < b
    ensures FrameStart(a + 1, channels) == FrameStart(a, channels) + channels <= FrameStart(b, channels)
  {
    assert FrameStart(1, channels) == channels;
    hide FrameStart;
    StartAdds(a, 1, channels);
    StartAdds(a + 1, b - a - 1, channels);
  }

  lemma {:induction false} IndexInFrame(i: nat, channels: nat)
    requires channels >= 1
    ensures FrameStart(FrameOf(i, channels), channels) <= i < FrameStart(FrameOf(i, channels), channels) + channels
  {
    assert i == i / channels * channels + i % channels;
  }

  /** The frame an index falls in. */
  lemma FrameIndex(i: nat, f: nat, channels: nat)
    requires channels >= 1
    ensures FrameOf(i, channels) < f <==> i < FrameStart(f, channels)
    ensures FrameStart(f, channels) <= i < FrameStart(f, channels) + channels ==> FrameOf(i, channels) == f
  {
    hide FrameOf, FrameStart;
    var q := FrameOf(i, channels);
    IndexInFrame(i, channels);
    if q < f {
      StartsApart(q, f, channels);
    } else if q > f {
      StartsApart(f, q, channels);
    }
  }
}
