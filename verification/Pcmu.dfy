/** The telephone-quality audio sender: 48 kHz input is averaged 6:1 to 8 kHz and sent in frames
    of 160 samples, at most one per tick. */
module Pcmu {
  import opened Bytes

  const GROUP: nat := 6
  const FRAME: nat := 160
  const FRAME_MS: nat := 20
  const RETRY_MS: nat := 5

  /** Rust's integer division, which rounds towards zero. */
  function TruncDiv(a: int, b: int): int
    requires b > 0
  {
    if a >= 0 then a / b else -((-a) / b)
  }

  /** A captured sample in 16 bits. */
  function Quantize(v: real): i16 {
    var scaled := (if v < -1.0 then -1.0 else if v > 1.0 then 1.0 else v) * 32767.0;
    if scaled >= 0.0 then scaled.Floor else -((-scaled).Floor)
  }

  function QuantizeAll(samples: seq<real>): (q: seq<i16>)
    ensures |q| == |samples|
  {
    seq(|samples|, i requires 0 <= i < |samples| => Quantize(samples[i]))
  }

  function Sum(s: seq<i16>): (sum: int)
    ensures -0x8000 * |s| <= sum <= 0x7fff * |s|
  {
    if s == [] then 0 else Sum(s[..|s| - 1]) + s[|s| - 1] as int
  }

  function Average(s: seq<i16>): i16
    requires |s| == GROUP
  {
    TruncDiv(Sum(s), GROUP)
  }

  /** The averages of the whole groups of six, and the samples after them. */
  function Averages(s: seq<i16>): seq<i16> {
    if |s| < GROUP then [] else [Average(s[..GROUP])] + Averages(s[GROUP..])
  }

  function Rest(s: seq<i16>): (r: seq<i16>)
    ensures |r| < GROUP
  {
    if |s| < GROUP then s else Rest(s[GROUP..])
  }

  /** Averaging in instalments, carrying the rest over, is averaging the whole. */
  lemma {:induction false} AveragesInInstalments(a: seq<i16>, b: seq<i16>)
    ensures Averages(a + b) == Averages(a) + Averages(Rest(a) + b)
    ensures Rest(a + b) == Rest(Rest(a) + b)
    decreases |a|
  {
    if |a| >= GROUP {
      AveragesInInstalments(a[GROUP..], b);
      assert (a + b)[..GROUP] == a[..GROUP] && (a + b)[GROUP..] == a[GROUP..] + b;
    }
  }

  function SumOf(s: seq<int>): int
    requires |s| == 6
  {
    s[0] + s[1] + s[2] + s[3] + s[4] + s[5]
  }

  /** An average is the sum of the six samples divided by six and rounded towards zero. */
  lemma AverageIs(s: seq<i16>)
    requires |s| == 6
    ensures var sum: int, a: int := SumOf(s), Average(s);
            (sum >= 0 ==> 0 <= sum - 6 * a <= 5) && (sum <= 0 ==> -5 <= sum - 6 * a <= 0)
  {
    SumOfSix(s);
    Towards(Sum(s));
  }

  lemma SumOfSix(s: seq<i16>)
    requires |s| == 6
    ensures Sum(s) == SumOf(s)
  {
    LastOfSum(s, 1);
    LastOfSum(s, 2);
    LastOfSum(s, 3);
    LastOfSum(s, 4);
    LastOfSum(s, 5);
    LastOfSum(s, 6);
    assert Sum(s[..0]) == 0 && s[..6] == s;
  }

  lemma LastOfSum(s: seq<i16>, n: nat)
    requires 0 < n <= |s|
    ensures Sum(s[..n]) == Sum(s[..n - 1]) + s[n - 1] as int
  {
    assert s[..n][..n - 1] == s[..n - 1];
  }

  lemma Towards(sum: int)
    ensures var a := TruncDiv(sum, 6); (sum >= 0 ==> 0 <= sum - 6 * a <= 5) && (sum <= 0 ==> -5 <= sum - 6 * a <= 0)
  {
  }

  /** A captured sample is scaled to 16 bits, rounded towards zero and clipped at full scale. */
  lemma QuantizeIs(v: real)
    ensures var q := Quantize(v) as real;
            && (v >= 1.0 ==> q == 32767.0) && (v <= -1.0 ==> q == -32767.0)
            && (0.0 <= v <= 1.0 ==> q <= 32767.0 * v < q + 1.0)
            && (-1.0 <= v <= 0.0 ==> q - 1.0 < 32767.0 * v <= q)
  {
  }

  lemma {:induction false} AveragesCount(s: seq<i16>)
    ensures |Averages(s)| == |s| / 6
    decreases |s|
  {
    if |s| >= GROUP {
      AveragesCount(s[GROUP..]);
    }
  }

  // ---- one tick ----

  datatype Sender = Sender(buf48: seq<i16>, buf8: seq<i16>, pts: nat, nextSend: nat, muted: bool)
  datatype Frame = Frame(timestamp: nat, samples: seq<i16>)

  function Silence(n: nat): seq<i16> {
    seq(n, _ => 0)
  }

  /** A tick with the captured samples; no sample is fetched before `nextSend`. */
  function Tick(s: Sender, now: nat, samples: seq<real>): (Sender, Option<Frame>) {
    if now < s.nextSend then (s, None)
    else
      var all := s.buf48 + QuantizeAll(samples);
      var buf8 := s.buf8 + Averages(all);
      if |buf8| >= FRAME then
        (Sender(Rest(all), buf8[FRAME..], s.pts + 1, now + FRAME_MS, s.muted),
         Some(Frame(s.pts * FRAME, if s.muted then Silence(FRAME) else buf8[..FRAME])))
      else (Sender(Rest(all), buf8, s.pts, now + RETRY_MS, s.muted), None)
  }

  /** When a tick sends a frame, and when the next may come: 20 ms after a frame, 5 ms after a tick that
      found too few samples, and a tick before its time does nothing. */
  lemma SendsIff(s: Sender, now: nat, samples: seq<real>)
    ensures var (s', f) := Tick(s, now, samples);
            && (f.Some? <==> now >= s.nextSend && |s.buf8| + (|s.buf48| + |samples|) / 6 >= 160)
            && (if now < s.nextSend then s' == s
                else s'.nextSend == now + (if f.Some? then 20 else 5) && s'.muted == s.muted
                     && s'.pts == s.pts + if f.Some? then 1 else 0)
  {
    AveragesCount(s.buf48 + QuantizeAll(samples));
    hide Averages, Rest, QuantizeAll;
  }

  // ---- whole runs ----

  datatype Op = OpTick(now: nat, samples: seq<real>) | OpMute(muted: bool)

  /** A run so far: the input consumed, the samples taken for frames before muting, the frames
      sent, whether each was muted, and when it was sent. */
  datatype Run = Run(s: Sender, consumed: seq<i16>, taken: seq<i16>, frames: seq<Frame>, mutes: seq<bool>,
                     times: seq<nat>)

  function Step(r: Run, op: Op): Run {
    match op
    case OpMute(muted) => r.(s := r.s.(muted := muted))
    case OpTick(now, samples) =>
      if now < r.s.nextSend then r
      else
        var (s', f) := Tick(r.s, now, samples);
        var r1 := r.(s := s', consumed := r.consumed + QuantizeAll(samples));
        if f.None? then r1
        else
          var buf8 := r.s.buf8 + Averages(r.s.buf48 + QuantizeAll(samples));
          r1.(taken := r.taken + buf8[..Min(FRAME, |buf8|)], frames := r.frames + [f.value],
              mutes := r.mutes + [r.s.muted], times := r.times + [now])
  }

  const Start := Run(Sender([], [], 0, 0, false), [], [], [], [], [])

  function RunOf(ops: seq<Op>): Run {
    if ops == [] then Start else Step(RunOf(ops[..|ops| - 1]), ops[|ops| - 1])
  }

  /** Frame `k` starts at sample 160·k and carries the samples from there on, or silence. */
  ghost predicate FrameOk(r: Run, k: nat)
    requires k < |r.frames| == |r.mutes|
  {
    && (k + 1) * FRAME <= |r.taken|
    && r.frames[k].timestamp == k * FRAME
    && r.frames[k].samples == if r.mutes[k] then Silence(FRAME) else r.taken[k * FRAME..(k + 1) * FRAME]
  }

  ghost predicate RunInv(r: Run) {
    && r.taken + r.s.buf8 == Averages(r.consumed)
    && r.s.buf48 == Rest(r.consumed)
    && |r.frames| == |r.mutes| == |r.times| == r.s.pts
    && |r.taken| == r.s.pts * FRAME
    && (forall k :: 0 <= k < |r.frames| ==> FrameOk(r, k))
    && (forall k :: 0 <= k < |r.times| - 1 ==> r.times[k] + FRAME_MS <= r.times[k + 1])
    && (r.times != [] ==> r.times[|r.times| - 1] + FRAME_MS <= r.s.nextSend)
  }

  lemma TickCarries(r: Run, now: nat, samples: seq<real>)
    requires RunInv(r) && now >= r.s.nextSend
    ensures var q := QuantizeAll(samples);
            && Averages(r.consumed + q) == r.taken + (r.s.buf8 + Averages(r.s.buf48 + q))
            && Rest(r.consumed + q) == Rest(r.s.buf48 + q)
  {
    AveragesInInstalments(r.consumed, QuantizeAll(samples));
  }

  lemma FrameStays(r: Run, r': Run, k: nat)
    requires |r.frames| == |r.mutes| && |r'.frames| == |r'.mutes| && k < |r.frames| && FrameOk(r, k)
    requires r.frames <= r'.frames && r.mutes <= r'.mutes && r.taken <= r'.taken
    ensures FrameOk(r', k)
  {
    assert r'.taken[k * FRAME..(k + 1) * FRAME] == r.taken[k * FRAME..(k + 1) * FRAME];
  }

  /** The samples waiting for a frame after a tick has averaged its input. */
  function Waiting(s: Sender, samples: seq<real>): seq<i16> {
    s.buf8 + Averages(s.buf48 + QuantizeAll(samples))
  }

  lemma QuietTickKeeps(r: Run, now: nat, samples: seq<real>)
    requires RunInv(r) && now >= r.s.nextSend && |Waiting(r.s, samples)| < FRAME
    ensures RunInv(Step(r, OpTick(now, samples)))
  {
    hide Averages, Rest, QuantizeAll;
    TickCarries(r, now, samples);
    var r' := Step(r, OpTick(now, samples));
    forall k | 0 <= k < |r'.frames| ensures FrameOk(r', k) {
      FrameStays(r, r', k);
    }
  }

  lemma Halves(a: seq<i16>, b: seq<i16>)
    requires |b| >= FRAME
    ensures (a + b[..FRAME]) + b[FRAME..] == a + b
  {
  }

  lemma FrameTickKeeps(r: Run, now: nat, samples: seq<real>)
    requires RunInv(r) && now >= r.s.nextSend && |Waiting(r.s, samples)| >= FRAME
    ensures RunInv(Step(r, OpTick(now, samples)))
  {
    hide Averages, Rest, QuantizeAll, Silence;
    TickCarries(r, now, samples);
    var r', buf8, n := Step(r, OpTick(now, samples)), Waiting(r.s, samples), r.s.pts;
    assert r'.taken == r.taken + buf8[..FRAME] && r'.s.buf8 == buf8[FRAME..];
    assert r'.taken + r'.s.buf8 == r.taken + buf8 by {
      Halves(r.taken, buf8);
    }
    forall k | 0 <= k < |r'.frames| ensures FrameOk(r', k) {
      if k < n {
        FrameStays(r, r', k);
      } else {
        FrameAdded(r, now, samples);
      }
    }
  }

  lemma FrameAdded(r: Run, now: nat, samples: seq<real>)
    requires RunInv(r) && now >= r.s.nextSend && |Waiting(r.s, samples)| >= FRAME
    ensures FrameOk(Step(r, OpTick(now, samples)), r.s.pts)
  {
    hide Averages, Rest, QuantizeAll, Silence;
    var r', buf8, n := Step(r, OpTick(now, samples)), Waiting(r.s, samples), r.s.pts;
    assert r'.frames[n] == Frame(n * FRAME, if r.s.muted then Silence(FRAME) else buf8[..FRAME]);
    assert r'.taken[n * FRAME..(n + 1) * FRAME] == buf8[..FRAME];
  }

  lemma StepKeeps(r: Run, op: Op)
    requires RunInv(r)
    ensures RunInv(Step(r, op))
  {
    match op
    case OpMute(muted) =>
      forall k | 0 <= k < |r.frames| ensures FrameOk(Step(r, op), k) {
        FrameStays(r, Step(r, op), k);
      }
    case OpTick(now, samples) =>
      hide RunInv;
      if now >= r.s.nextSend {
        if |Waiting(r.s, samples)| < FRAME {
          QuietTickKeeps(r, now, samples);
        } else {
          FrameTickKeeps(r, now, samples);
        }
      }
  }

  lemma {:induction false} RunKeeps(ops: seq<Op>)
    ensures RunInv(RunOf(ops))
  {
    if ops != [] {
      RunKeeps(ops[..|ops| - 1]);
      StepKeeps(RunOf(ops[..|ops| - 1]), ops[|ops| - 1]);
    } else {
      assert Averages([]) == [];
    }
  }

  /** After any run: the samples put into frames, then the ones waiting, are the averages of all
      input consumed; fewer than six input samples are left over. */
  lemma NothingLost(ops: seq<Op>)
    ensures RunOf(ops).taken + RunOf(ops).s.buf8 == Averages(RunOf(ops).consumed)
    ensures RunOf(ops).s.buf48 == Rest(RunOf(ops).consumed) && |RunOf(ops).s.buf48| < GROUP
    ensures |RunOf(ops).taken| == |RunOf(ops).frames| * FRAME
  {
    RunKeeps(ops);
  }

  /** Frame `k` carries timestamp 160·k and, unless muted, the averages from that offset on;
      a muted frame is as long and all zero. Frames are at least 20 ms apart. */
  lemma FrameContents(ops: seq<Op>, k: nat)
    requires k < |RunOf(ops).frames|
    ensures var r := RunOf(ops);
            && (k + 1) * FRAME <= |Averages(r.consumed)|
            && r.frames[k].timestamp == k * FRAME && |r.frames[k].samples| == FRAME
            && |r.mutes| == |r.frames|
            && r.frames[k].samples == (if r.mutes[k] then Silence(FRAME)
                                    else Averages(r.consumed)[k * FRAME..(k + 1) * FRAME])
    ensures var t := RunOf(ops).times; |t| == |RunOf(ops).frames| && (k + 1 < |t| ==> t[k] + FRAME_MS <= t[k + 1])
    ensures RunOf(ops).mutes[k] ==> forall i :: 0 <= i < 160 ==> RunOf(ops).frames[k].samples[i] == 0
  {
    RunKeeps(ops);
    hide RunInv, RunOf, Averages;
    FrameOf(RunOf(ops), k);
  }

  lemma FrameOf(r: Run, k: nat)
    requires RunInv(r) && k < |r.frames|
    ensures (k + 1) * FRAME <= |Averages(r.consumed)| && |r.mutes| == |r.frames| == |r.times|
    ensures r.frames[k].timestamp == k * FRAME && |r.frames[k].samples| == FRAME
    ensures r.frames[k].samples == (if r.mutes[k] then Silence(FRAME)
                                    else Averages(r.consumed)[k * FRAME..(k + 1) * FRAME])
    ensures k + 1 < |r.times| ==> r.times[k] + FRAME_MS <= r.times[k + 1]
    ensures r.mutes[k] ==> forall i :: 0 <= i < 160 ==> r.frames[k].samples[i] == 0
  {
    hide Averages, Rest;
    assert FrameOk(r, k);
    assert (r.taken + r.s.buf8)[k * FRAME..(k + 1) * FRAME] == r.taken[k * FRAME..(k + 1) * FRAME];
  }

  /** How the input was split over the ticks, and when it was muted, does not change any frame
      that neither run muted. */
  lemma ChunkingIrrelevant(ops: seq<Op>, ops': seq<Op>, k: nat)
    requires k < |RunOf(ops).frames| == |RunOf(ops).mutes| && k < |RunOf(ops').frames| == |RunOf(ops').mutes|
    requires RunOf(ops).consumed == RunOf(ops').consumed
    requires !RunOf(ops).mutes[k] && !RunOf(ops').mutes[k]
    ensures RunOf(ops).frames[k] == RunOf(ops').frames[k]
  {
    FrameContents(ops, k);
    FrameContents(ops', k);
  }

  // ---- the object ----

  class RealAudioSender {
    var buf48: seq<i16>
    var buf8: seq<i16>
    var pts: nat
    var nextSend: nat
    var muted: bool

    ghost function View(): Sender
      reads this
    {
      Sender(buf48, buf8, pts, nextSend, muted)
    }

    constructor (now: nat)
      ensures View() == Sender([], [], 0, now, false)
    {
      buf48, buf8, pts, nextSend, muted := [], [], 0, now, false;
    }

    method SetMuted(muted: bool)
      modifies this
      ensures View() == old(View()).(muted := muted)
    {
      this.muted := muted;
    }

    /** Averages the whole groups of six in `buf48`. */
    method Downsample()
      modifies this`buf48, this`buf8
      ensures buf8 == old(buf8) + Averages(old(buf48)) && buf48 == Rest(old(buf48))
    {
      var i := 0;
      while i + GROUP <= |buf48|
        invariant 0 <= i <= |buf48| && buf48 == old(buf48)
        invariant buf8 + Averages(buf48[i..]) == old(buf8) + Averages(old(buf48))
        invariant Rest(buf48[i..]) == Rest(old(buf48))
      {
        var group := buf48[i..i + GROUP];
        assert buf48[i..][..GROUP] == group && buf48[i..][GROUP..] == buf48[i + GROUP..];
        assert buf8 + ([Average(group)] + Averages(buf48[i + GROUP..]))
            == (buf8 + [Average(group)]) + Averages(buf48[i + GROUP..]);
        buf8 := buf8 + [Average(group)];
        i := i + GROUP;
      }
      assert buf8 + [] == buf8;
      buf48 := buf48[i..];
    }

    /** One tick; `samples` is what the capturer holds. */
    method SendTick(now: nat, samples: seq<real>) returns (frame: Option<Frame>)
      modifies this
      ensures (View(), frame) == Tick(old(View()), now, samples)
    {
      hide Averages, Rest, QuantizeAll, Silence;
      if now < nextSend {
        return None;
      }
      buf48 := buf48 + QuantizeAll(samples);
      Downsample();
      if |buf8| < FRAME {
        nextSend := now + RETRY_MS;
        return None;
      }
      var samples := buf8[..FRAME];
      buf8 := buf8[FRAME..];
      if muted {
        samples := Silence(FRAME);
      }
      frame := Some(Frame(pts * FRAME, samples));
      pts := pts + 1;
      nextSend := now + FRAME_MS;
    }
  }
}
