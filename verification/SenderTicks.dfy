/** What one tick of a sender puts on the channel, with its times and sizes written out, and that a
    lost announcement is made again. */
module SenderTicks {
  import opened Bytes
  import opened FileProtocol
  import opened TransferSpec

  /** The channel accepts the next `n` messages. */
  ghost predicate Willing(c: Channel, n: nat) {
    n <= |c.verdicts| && forall i :: 0 <= i < n ==> c.verdicts[i]
  }

  /** How many messages in a row the channel accepts. */
  ghost function Leading(verdicts: seq<bool>): nat {
    if verdicts == [] || !verdicts[0] then 0 else 1 + Leading(verdicts[1..])
  }

  /** The chunks of `content` from `from` on, `count` of them, 8 KiB each but the last. */
  ghost function Chunks(id: Id, content: seq<byte>, from: nat, count: nat): seq<Message>
    requires (from + count) * 8192 < |content| + 8192
  {
    seq(count, i requires 0 <= i < count =>
      Chunk(id, from + i, content[(from + i) * 8192..Min((from + i + 1) * 8192, |content|)]))
  }

  lemma ChunksCons(id: Id, content: seq<byte>, from: nat, count: nat)
    requires count > 0 && (from + count) * 8192 < |content| + 8192
    ensures Chunks(id, content, from, count)
         == [Chunk(id, from, content[from * 8192..Min((from + 1) * 8192, |content|)])]
            + Chunks(id, content, from + 1, count - 1)
  {
  }

  /** What was sent from `c` to `c'`. */
  ghost function Sent(c: Channel, c': Channel): seq<Message>
    requires c.sent <= c'.sent
  {
    c'.sent[|c.sent|..]
  }

  /** `stop` is the first chunk from the cursor on that cannot be read, or the number of chunks. */
  ghost predicate ReadableUntil(s: Snd, unreadable: set<nat>, stop: nat) {
    && s.nextChunk <= stop <= s.total
    && (forall i :: s.nextChunk <= i < stop ==> s.inMemory || i !in unreadable)
    && (stop < s.total ==> !s.inMemory && stop in unreadable)
  }

  ghost function BurstLength(s: Snd, c: Channel, left: nat, stop: nat): nat
    requires s.nextChunk <= stop
  {
    Min(Min(left, stop - s.nextChunk), Leading(c.verdicts))
  }

  /** A burst sends chunks in order until `left` are out, one is refused, one cannot be read or none
      is left; only a failed read ends the send. */
  ghost predicate Burst(s: Snd, c: Channel, s': Snd, c': Channel, left: nat, stop: nat) {
    && s.nextChunk <= stop <= s.total
    && var n := BurstLength(s, c, left, stop);
    && (s.nextChunk + n) * 8192 < |s.content| + 8192
    && c'.sent == c.sent + Chunks(s.id, s.content, s.nextChunk, n)
    && (if n < left && s.nextChunk + n == stop < s.total
        then s' == s.(nextChunk := s.nextChunk + n, confirmed := true, failed := true)
        else s' == s.(nextChunk := s.nextChunk + n))
  }

  lemma {:induction false} BurstSends(s: Snd, c: Channel, unreadable: set<nat>, left: nat, stop: nat)
    requires SndShape(s) && ReadableUntil(s, unreadable, stop)
    ensures Burst(s, c, BurstStep(s, c, unreadable, left).0, BurstStep(s, c, unreadable, left).1, left, stop)
    decreases left
  {
    hide Burst;
    if left > 0 && s.nextChunk < stop && Accepts(c) {
      assert !ReadFails(s, s.nextChunk, unreadable);
      var s1, c1 := s.(nextChunk := s.nextChunk + 1), Push(c, ChunkAt(s, s.nextChunk));
      BurstSends(s1, c1, unreadable, left - 1, stop);
      var (s', c') := BurstStep(s, c, unreadable, left);
      assert (s', c') == BurstStep(s1, c1, unreadable, left - 1);
      LengthGrows(s, c, left, stop);
      BurstGoesOn(s, c, s1, c1, s', c', left, stop);
    } else {
      BurstEnds(s, c, unreadable, left, stop);
    }
  }

  ghost function ChunkAt(s: Snd, index: nat): Message
    requires index < ChunkCount(|s.content|)
  {
    Chunk(s.id, index, Slice(s.content, index))
  }

  lemma BurstEnds(s: Snd, c: Channel, unreadable: set<nat>, left: nat, stop: nat)
    requires SndShape(s) && ReadableUntil(s, unreadable, stop)
    requires left == 0 || s.nextChunk == stop || !Accepts(c)
    ensures Burst(s, c, BurstStep(s, c, unreadable, left).0, BurstStep(s, c, unreadable, left).1, left, stop)
  {
    assert c.sent + [] == c.sent;
    hide Slice;
  }

  lemma BurstGoesOn(s: Snd, c: Channel, s1: Snd, c1: Channel, s': Snd, c': Channel, left: nat, stop: nat)
    requires s.nextChunk < ChunkCount(|s.content|) && s1 == s.(nextChunk := s.nextChunk + 1)
    requires c1.sent == c.sent + [ChunkAt(s, s.nextChunk)] && s.nextChunk < stop && left > 0
    requires BurstLength(s, c, left, stop) == 1 + BurstLength(s1, c1, left - 1, stop)
    requires Burst(s1, c1, s', c', left - 1, stop)
    ensures Burst(s, c, s', c', left, stop)
  {
    hide Chunks, ChunkAt, BurstLength, ChunkCount;
    var n := BurstLength(s, c, left, stop);
    ChunkIs(s, s.nextChunk);
    ChunksCons(s.id, s.content, s.nextChunk, n);
    Regroup(c.sent, [ChunkAt(s, s.nextChunk)], Chunks(s.id, s.content, s.nextChunk + 1, n - 1));
  }

  lemma LengthGrows(s: Snd, c: Channel, left: nat, stop: nat)
    requires s.nextChunk < stop && left > 0 && Accepts(c) && s.nextChunk < ChunkCount(|s.content|)
    ensures BurstLength(s, c, left, stop)
         == 1 + BurstLength(s.(nextChunk := s.nextChunk + 1), Push(c, ChunkAt(s, s.nextChunk)), left - 1, stop)
  {
  }

  lemma ChunkIs(s: Snd, index: nat)
    requires index < ChunkCount(|s.content|)
    ensures index * 8192 < |s.content|
    ensures ChunkAt(s, index) == Chunk(s.id, index, s.content[index * 8192..Min((index + 1) * 8192, |s.content|)])
  {
    ChunkBounds(|s.content|, index);
  }

  // ---- whole ticks ----

  ghost function Announcement(s: Snd): Message {
    Meta(s.id, s.name, |s.content|, s.total, Some(s.hash), s.kind)
  }

  /** Meta data is due at first and again a second after it went out. */
  ghost predicate MetaDue(s: Snd, now: nat) {
    !s.metaSent || now >= s.lastMeta + 1000
  }

  /** What goes out behind the meta data, and the sender afterwards: the chunk on top of the stack, or
      else a burst of at most 32, or else a Done, at first and again after a second. */
  ghost predicate GoesOn(s: Snd, now: nat, stop: nat, out: seq<Message>, s': Snd) {
    if s.resend != [] then
      var top := s.resend[|s.resend| - 1];
      && top * 8192 < |s.content|
      && out == [Chunk(s.id, top, s.content[top * 8192..Min((top + 1) * 8192, |s.content|)])]
      && s' == s.(resend := s.resend[..|s.resend| - 1])
    else if s.nextChunk < s.total then
      && s.nextChunk <= stop <= s.total
      && var n := Min(32, stop - s.nextChunk);
      && (s.nextChunk + n) * 8192 < |s.content| + 8192
      && out == Chunks(s.id, s.content, s.nextChunk, n)
      && (if n < 32 && stop < s.total
          then s' == s.(nextChunk := stop, confirmed := true, failed := true)
          else s' == s.(nextChunk := s.nextChunk + n))
    else if !s.doneSent || now >= s.lastDone + 1000 then
      out == [Done(s.id, true)] && s' == s.(doneSent := true, lastDone := now)
    else out == [] && s' == s
  }

  ghost predicate TopReadable(s: Snd, unreadable: set<nat>) {
    s.resend != [] && !s.inMemory ==> s.resend[|s.resend| - 1] !in unreadable
  }

  /** A due and unconfirmed sender on a channel that accepts what it offers: all that it sends, and
      what it is afterwards. */
  lemma TickSends(s: Snd, c: Channel, now: nat, unreadable: set<nat>, stop: nat) returns (rest: seq<Message>)
    requires SndShape(s) && !s.confirmed && now >= s.startAfter && Willing(c, 33)
    requires ReadableUntil(s, unreadable, stop) && TopReadable(s, unreadable)
    ensures var (s', c') := SndTick(s, c, now, unreadable);
            var s1 := if MetaDue(s, now) then s.(metaSent := true, lastMeta := now) else s;
            && GoesOn(s1, now, stop, rest, s')
            && c'.sent == c.sent + (if MetaDue(s, now) then [Announcement(s)] else []) + rest
  {
    var (s1, c1) := MetaStep(s, c, now);
    var (s', c') := SndTick(s, c, now, unreadable);
    WillingAfter(c, Announcement(s), 32);
    assert Willing(c1, 32);
    assert c1.sent == c.sent + if MetaDue(s, now) then [Announcement(s)] else [];
    rest := BodySends(s1, c1, now, unreadable, stop);
    hide BurstStep, ResendStep, DoneStep, GoesOn;
  }

  lemma WillingAfter(c: Channel, m: Message, n: nat)
    requires Willing(c, n + 1)
    ensures Willing(Push(c, m), n) && Willing(c, n) && Accepts(c) && Push(c, m).sent == c.sent + [m]
  {
  }

  /** The part of a tick behind the meta data. */
  ghost function Body(s: Snd, c: Channel, now: nat, unreadable: set<nat>): (Snd, Channel)
    requires SndShape(s)
  {
    if s.resend != [] then ResendStep(s, c, unreadable)
    else if s.nextChunk < s.total then BurstStep(s, c, unreadable, 32)
    else DoneStep(s, c, now)
  }

  lemma BodySends(s: Snd, c: Channel, now: nat, unreadable: set<nat>, stop: nat) returns (out: seq<Message>)
    requires SndShape(s) && Willing(c, 32) && ReadableUntil(s, unreadable, stop) && TopReadable(s, unreadable)
    ensures var (s', c') := Body(s, c, now, unreadable);
            GoesOn(s, now, stop, out, s') && c'.sent == c.sent + out
  {
    hide GoesOn, BurstStep, ResendStep, DoneStep, SndShape;
    if s.resend != [] {
      out := ResendSends(s, c, now, unreadable, stop);
    } else if s.nextChunk < s.total {
      out := BurstGoes(s, c, now, unreadable, stop);
    } else {
      out := DoneSends(s, c, now, stop);
    }
  }

  lemma ResendSends(s: Snd, c: Channel, now: nat, unreadable: set<nat>, stop: nat) returns (out: seq<Message>)
    requires SndShape(s) && Accepts(c) && TopReadable(s, unreadable) && s.resend != []
    ensures var (s', c') := ResendStep(s, c, unreadable);
            GoesOn(s, now, stop, out, s') && c'.sent == c.sent + out
  {
    var top := s.resend[|s.resend| - 1];
    ChunkIs(s, top);
    hide Slice, ChunkCount;
    out := [ChunkAt(s, top)];
  }

  lemma BurstGoes(s: Snd, c: Channel, now: nat, unreadable: set<nat>, stop: nat) returns (out: seq<Message>)
    requires SndShape(s) && Willing(c, 32) && ReadableUntil(s, unreadable, stop)
    requires s.resend == [] && s.nextChunk < s.total
    ensures var (s', c') := BurstStep(s, c, unreadable, 32);
            GoesOn(s, now, stop, out, s') && c'.sent == c.sent + out
  {
    hide BurstStep, Chunks, Leading, SndShape, Willing;
    LeadingWilling(c, 32);
    BurstSends(s, c, unreadable, 32, stop);
    hide ReadableUntil;
    var n := Min(32, stop - s.nextChunk);
    assert n == BurstLength(s, c, 32, stop);
    out := Chunks(s.id, s.content, s.nextChunk, n);
  }

  lemma DoneSends(s: Snd, c: Channel, now: nat, stop: nat) returns (out: seq<Message>)
    requires Accepts(c) && s.resend == [] && s.nextChunk >= s.total
    ensures var (s', c') := DoneStep(s, c, now);
            GoesOn(s, now, stop, out, s') && c'.sent == c.sent + out
  {
    out := if !s.doneSent || now >= s.lastDone + 1000 then [Done(s.id, true)] else [];
    assert c.sent + [] == c.sent;
  }

  lemma {:induction false} LeadingWilling(c: Channel, n: nat)
    requires Willing(c, n)
    ensures Leading(c.verdicts) >= n
    decreases n
  {
    if n > 0 {
      LeadingWilling(Channel(c.sent, c.verdicts[1..]), n - 1);
    }
  }

  /** However the channel behaves after the first message it is offered, meta data goes out first
      exactly when it is due. */
  lemma AnnouncesIff(s: Snd, c: Channel, now: nat, unreadable: set<nat>)
    requires SndShape(s) && !s.confirmed && now >= s.startAfter && c.verdicts != [] && c.verdicts[0]
    ensures var c' := SndTick(s, c, now, unreadable).1;
            && c.sent <= c'.sent
            && (Sent(c, c') != [] && Sent(c, c')[0] == Announcement(s)
                <==> !s.metaSent || now >= s.lastMeta + 1000)
  {
    var (s1, c1) := MetaStep(s, c, now);
    SentMore(s1, c1, now, unreadable);
    hide ResendStep, BurstStep, DoneStep;
    if MetaDue(s, now) {
      assert c1.sent == c.sent + [Announcement(s)];
      var c' := SndTick(s, c, now, unreadable).1;
      assert c'.sent[|c.sent|] == c1.sent[|c.sent|];
    }
  }

  /** The messages behind the meta data are other ones. */
  lemma SentMore(s: Snd, c: Channel, now: nat, unreadable: set<nat>)
    requires SndShape(s)
    ensures var c' := Body(s, c, now, unreadable).1;
            c.sent <= c'.sent && forall i :: |c.sent| <= i < |c'.sent| ==> !c'.sent[i].Meta?
  {
    hide Slice, BurstStep;
    BurstMore(s, c, unreadable, 32);
  }

  lemma {:induction false} BurstMore(s: Snd, c: Channel, unreadable: set<nat>, left: nat)
    requires SndShape(s)
    ensures var c' := BurstStep(s, c, unreadable, left).1;
            c.sent <= c'.sent && forall i :: |c.sent| <= i < |c'.sent| ==> !c'.sent[i].Meta?
    decreases left
  {
    hide Slice;
    if left > 0 && s.nextChunk < s.total && !ReadFails(s, s.nextChunk, unreadable) && Accepts(c) {
      BurstMore(s.(nextChunk := s.nextChunk + 1), Push(c, ChunkAt(s, s.nextChunk)), unreadable, left - 1);
    }
  }

  /** On a channel that refuses everything nothing goes out, and unless a read fails the sender is as
      it was: nothing is lost. */
  lemma RefusedLosesNothing(s: Snd, c: Channel, now: nat, unreadable: set<nat>)
    requires SndShape(s) && forall i :: 0 <= i < |c.verdicts| ==> !c.verdicts[i]
    ensures var (s', c') := SndTick(s, c, now, unreadable);
            c'.sent == c.sent && (s' == s || s' == s.(confirmed := true, failed := true))
  {
    hide Slice;
    var c1 := MetaStep(s, c, now).1;
    assert forall i :: 0 <= i < |c1.verdicts| ==> !c1.verdicts[i];
  }

  /** Before its time and after it is confirmed a sender does nothing. */
  lemma SilentWhen(s: Snd, c: Channel, now: nat, unreadable: set<nat>)
    requires SndShape(s) && (s.confirmed || now < s.startAfter)
    ensures SndTick(s, c, now, unreadable) == (s, c)
  {
  }

  /** A tick offers the channel at most 33 messages. */
  lemma TickUses(s: Snd, c: Channel, now: nat, unreadable: set<nat>, n: nat)
    requires SndShape(s) && Willing(c, n + 33)
    ensures Willing(SndTick(s, c, now, unreadable).1, n)
  {
    var (s1, c1) := MetaStep(s, c, now);
    WillingAfter(c, Announcement(s), n + 32);
    WillingAfter(c1, Done(s.id, true), n + 31);
    if s.resend != [] {
      WillingAfter(c1, ChunkAt(s, s.resend[|s.resend| - 1]), n + 31);
    }
    BurstUses(s1, c1, unreadable, 32, n);
    hide BurstStep, Push;
  }

  lemma {:induction false} BurstUses(s: Snd, c: Channel, unreadable: set<nat>, left: nat, n: nat)
    requires SndShape(s) && Willing(c, n + left)
    ensures Willing(BurstStep(s, c, unreadable, left).1, n)
    decreases left
  {
    hide Push;
    if left > 0 && s.nextChunk < s.total && !ReadFails(s, s.nextChunk, unreadable) {
      WillingAfter(c, ChunkAt(s, s.nextChunk), n + left - 1);
      BurstUses(s.(nextChunk := s.nextChunk + 1), Push(c, ChunkAt(s, s.nextChunk)), unreadable, left - 1, n);
    }
  }
}
