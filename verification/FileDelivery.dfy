/** A whole transfer: whatever is lost of the bursts, the repair that follows delivers the content. */
module FileDelivery {
  import opened Bytes
  import opened FileProtocol
  import opened TransferSpec
  import opened PeerRuns
  import opened SendRuns
  import opened FileNetwork
  import opened FileRepair
  import opened FileAnnounce
  import opened SenderTicks

  /** `q` is receiving `id`, and all it holds of it is right. */
  ghost predicate Taking(q: Peer, id: Id, content: seq<byte>) {
    && (q.out.send.Some? ==> q.out.send.value.id != id) && id in q.inc.recv
    && var r := q.inc.recv[id];
    && Holds(r, content) && (r.hash.Some? ==> r.hash.value == q.sha(content))
    && (r.kind == File ==> q.inc.dir.Some?)
  }

  /** `p` is sending `id` and has not come to its end. */
  ghost predicate Offering(p: Peer, id: Id, content: seq<byte>) {
    && p.out.send.Some?
    && var s := p.out.send.value;
    && s.id == id && s.content == content && SndShape(s) && s.metaSent && !s.confirmed && !s.failed && s.resend == []
  }

  /** What a sender sends before its Done. */
  ghost predicate OfSend(s: Snd, m: Message) {
    m == Announcement(s) || exists i :: 0 <= i < ChunkCount(|s.content|) && m == ChunkAt(s, i)
  }

  ghost function Received(q: Peer, messages: seq<Message>, env: Env): Peer
    decreases |messages|
  {
    if messages == [] then q else Received(HandleData(q, messages[0], Channel([], []), env).0, messages[1..], env)
  }

  lemma OneTaken(q: Peer, s: Snd, m: Message, env: Env)
    requires Taking(q, s.id, s.content) && OfSend(s, m)
    ensures var q' := HandleData(q, m, Channel([], []), env).0;
            Taking(q', s.id, s.content) && q'.inc.commits == q.inc.commits
  {
    if m.Chunk? {
      ChunkHolds(q.inc.recv[s.id], s.content, m.index);
    }
    hide Holds;
  }

  /** Any selection of a sender's messages, in any order and number, leaves what is held right. */
  lemma {:induction false} AllTaken(q: Peer, s: Snd, messages: seq<Message>, env: Env)
    requires Taking(q, s.id, s.content) && forall m :: m in messages ==> OfSend(s, m)
    ensures Taking(Received(q, messages, env), s.id, s.content)
    ensures Received(q, messages, env).inc.commits == q.inc.commits
    decreases |messages|
  {
    hide Taking, OfSend, HandleData;
    if messages != [] {
      OneTaken(q, s, messages[0], env);
      AllTaken(HandleData(q, messages[0], Channel([], []), env).0, s, messages[1..], env);
    }
  }

  /** One tick of the sender, and what arrives of it. */
  datatype Burst = Burst(verdicts: seq<bool>, ep: Env, eq: Env, arrived: seq<Message>)

  ghost function AfterBurst(w: Pair, b: Burst): Pair
    requires SndShapes(w.p.out)
  {
    Pair(AdvanceSend(w.p, Channel([], b.verdicts), b.ep).0, Received(w.q, b.arrived, b.eq))
  }

  /** The channel accepts, the file can be read, and nothing arrives that was not sent. */
  ghost predicate Lossy(w: Pair, b: Burst)
    requires SndShapes(w.p.out) && w.p.out.send.Some?
  {
    && Willing(Channel([], b.verdicts), 33) && b.ep.unreadable == {} && b.ep.now >= w.p.out.send.value.startAfter
    && forall m :: m in b.arrived ==> m in AdvanceSend(w.p, Channel([], b.verdicts), b.ep).1.sent
  }

  lemma BurstSent(p: Peer, id: Id, content: seq<byte>, b: Burst)
    requires Offering(p, id, content) && p.out.send.value.nextChunk < p.out.send.value.total
    requires Willing(Channel([], b.verdicts), 33) && b.ep.unreadable == {} && b.ep.now >= p.out.send.value.startAfter
    ensures var (p', c') := AdvanceSend(p, Channel([], b.verdicts), b.ep);
            var s := p.out.send.value;
            && Offering(p', id, content) && p'.out.send.value.startAfter == s.startAfter
            && p'.out.send.value.doneSent == s.doneSent && p'.out.send.value.total == s.total
            && p'.out.send.value.nextChunk == Min(s.nextChunk + 32, s.total)
            && forall m :: m in c'.sent ==> OfSend(s, m)
  {
    var s, c := p.out.send.value, Channel([], b.verdicts);
    var rest := TickSends(s, c, b.ep.now, {}, s.total);
    SndTickMove(s, c, b.ep.now, {});
    var (s', c') := SndTick(s, c, b.ep.now, {});
    hide SndTick, StartNext, LogSend, SndMove, Willing, Announcement;
    var n := Min(32, s.total - s.nextChunk);
    assert rest == Chunks(s.id, s.content, s.nextChunk, n);
    ChunksOfSend(s, s.nextChunk, n);
    hide Chunks, OfSend;
    forall m | m in c'.sent ensures OfSend(s, m) {
      assert m == Announcement(s) || m in rest;
      AnnouncementOfSend(s);
    }
  }

  lemma AnnouncementOfSend(s: Snd)
    ensures OfSend(s, Announcement(s))
  {
  }

  lemma ChunksOfSend(s: Snd, from: nat, n: nat)
    requires from + n <= ChunkCount(|s.content|)
    ensures (from + n) * 8192 < |s.content| + 8192
    ensures forall m :: m in Chunks(s.id, s.content, from, n) ==> OfSend(s, m)
  {
    forall m | m in Chunks(s.id, s.content, from, n) ensures OfSend(s, m) {
      var i :| 0 <= i < n && m == Chunks(s.id, s.content, from, n)[i];
      ChunkIs(s, from + i);
      assert m == ChunkAt(s, from + i);
    }
  }

  // ---- what has arrived ----

  ghost function Piece(id: Id, content: seq<byte>, i: nat): Message
    requires i < ChunkCount(|content|)
  {
    Chunk(id, i, Slice(content, i))
  }

  /** Exactly the chunks among `messages` have been marked. */
  ghost predicate Marked(q: Peer, q': Peer, id: Id, content: seq<byte>, messages: seq<Message>)
    requires Taking(q, id, content) && Taking(q', id, content)
  {
    forall i :: 0 <= i < ChunkCount(|content|) ==>
      (q'.inc.recv[id].flags[i] <==> q.inc.recv[id].flags[i] || Piece(id, content, i) in messages)
  }

  lemma OneMarked(q: Peer, s: Snd, m: Message, env: Env)
    requires Taking(q, s.id, s.content) && OfSend(s, m)
    ensures var q' := HandleData(q, m, Channel([], []), env).0;
            Taking(q', s.id, s.content) && Marked(q, q', s.id, s.content, [m])
  {
    OneTaken(q, s, m, env);
    var q' := HandleData(q, m, Channel([], []), env).0;
    if m.Chunk? {
      ChunkBounds(|s.content|, m.index);
      forall i | 0 <= i < ChunkCount(|s.content|)
        ensures q'.inc.recv[s.id].flags[i] <==> q.inc.recv[s.id].flags[i] || Piece(s.id, s.content, i) in [m]
      {
        assert Piece(s.id, s.content, i) in [m] <==> i == m.index;
      }
    }
  }

  lemma MarkedTwice(q: Peer, q1: Peer, q2: Peer, id: Id, content: seq<byte>, a: seq<Message>, b: seq<Message>)
    requires Taking(q, id, content) && Taking(q1, id, content) && Taking(q2, id, content)
    requires Marked(q, q1, id, content, a) && Marked(q1, q2, id, content, b)
    ensures Marked(q, q2, id, content, a + b)
  {
    hide Holds, Piece;
  }

  lemma {:induction false} AllMarked(q: Peer, s: Snd, messages: seq<Message>, env: Env)
    requires Taking(q, s.id, s.content) && forall m :: m in messages ==> OfSend(s, m)
    ensures Taking(Received(q, messages, env), s.id, s.content)
    ensures Marked(q, Received(q, messages, env), s.id, s.content, messages)
    decreases |messages|
  {
    AllTaken(q, s, messages, env);
    if messages == [] {
      NoneMarked(q, s.id, s.content);
    } else {
      hide Taking, OfSend, HandleData, Marked;
      var q1 := HandleData(q, messages[0], Channel([], []), env).0;
      OneMarked(q, s, messages[0], env);
      AllMarked(q1, s, messages[1..], env);
      MarkedTwice(q, q1, Received(q, messages, env), s.id, s.content, [messages[0]], messages[1..]);
      assert messages == [messages[0]] + messages[1..];
    }
  }

  lemma NoneMarked(q: Peer, id: Id, content: seq<byte>)
    requires Taking(q, id, content)
    ensures Marked(q, q, id, content, [])
  {
    hide Holds;
  }

  // ---- all bursts ----

  ghost function Bursts(w: Pair, bs: seq<Burst>): Pair
    decreases |bs|
  {
    if bs == [] || !SndShapes(w.p.out) then w else Bursts(AfterBurst(w, bs[0]), bs[1..])
  }

  ghost predicate AllLossy(w: Pair, bs: seq<Burst>)
    decreases |bs|
  {
    bs == []
    || (SndShapes(w.p.out) && w.p.out.send.Some? && Lossy(w, bs[0]) && AllLossy(AfterBurst(w, bs[0]), bs[1..]))
  }

  /** Everything that arrived during the bursts. */
  ghost function Arrived(bs: seq<Burst>): seq<Message> {
    if bs == [] then [] else bs[0].arrived + Arrived(bs[1..])
  }

  ghost predicate UnderWay(w: Pair, id: Id, content: seq<byte>) {
    Offering(w.p, id, content) && Taking(w.q, id, content) && !w.p.out.send.value.doneSent
  }

  lemma OneBurst(w: Pair, id: Id, content: seq<byte>, b: Burst)
    requires UnderWay(w, id, content) && w.p.out.send.value.nextChunk < w.p.out.send.value.total
    requires SndShapes(w.p.out) && Lossy(w, b)
    ensures var w' := AfterBurst(w, b);
            && UnderWay(w', id, content) && Marked(w.q, w'.q, id, content, b.arrived)
            && w'.q.inc.commits == w.q.inc.commits
            && var (s, s') := (w.p.out.send.value, w'.p.out.send.value);
            && s'.startAfter == s.startAfter && s'.total == s.total && s'.nextChunk == Min(s.nextChunk + 32, s.total)
  {
    BurstSent(w.p, id, content, b);
    hide AdvanceSend, Received, Taking, Marked, SndShape, OfSend, Willing;
    AllTaken(w.q, w.p.out.send.value, b.arrived, b.eq);
    AllMarked(w.q, w.p.out.send.value, b.arrived, b.eq);
  }

  /** After as many bursts as the chunks need the transfer is in repair, and its gaps are the chunks
      that never arrived. */
  lemma {:induction false} BurstsEnd(w: Pair, bs: seq<Burst>, id: Id, content: seq<byte>)
    requires UnderWay(w, id, content) && AllLossy(w, bs)
    requires |bs| == CeilDiv(w.p.out.send.value.total - w.p.out.send.value.nextChunk, 32)
    ensures var w' := Bursts(w, bs);
            && UnderWay(w', id, content) && Marked(w.q, w'.q, id, content, Arrived(bs))
            && w'.q.inc.commits == w.q.inc.commits && w'.p.out.send.value.nextChunk == w'.p.out.send.value.total
            && w'.p.out.send.value.startAfter == w.p.out.send.value.startAfter
    decreases |bs|
  {
    hide AfterBurst, Lossy, Taking, Marked, Arrived, SndShape;
    var s := w.p.out.send.value;
    ShapeFits(w.p, id, content);
    BurstsNeeded(s.total - s.nextChunk);
    if bs == [] {
      NothingArrived();
      NoneMarked(w.q, id, content);
    } else {
      var w1 := AfterBurst(w, bs[0]);
      OneBurst(w, id, content, bs[0]);
      BurstsEnd(w1, bs[1..], id, content);
      MarkedTwice(w.q, w1.q, Bursts(w, bs).q, id, content, bs[0].arrived, Arrived(bs[1..]));
      ArrivedFirst(bs);
    }
  }

  lemma ArrivedFirst(bs: seq<Burst>)
    requires bs != []
    ensures Arrived(bs) == bs[0].arrived + Arrived(bs[1..])
  {
  }

  lemma NothingArrived()
    ensures Arrived([]) == []
  {
  }

  lemma ShapeFits(p: Peer, id: Id, content: seq<byte>)
    requires Offering(p, id, content)
    ensures SndShapes(p.out) && p.out.send.value.nextChunk <= p.out.send.value.total
  {
  }

  lemma BurstsNeeded(n: nat)
    ensures CeilDiv(n, 32) == if n == 0 then 0 else 1 + CeilDiv(if n >= 32 then n - 32 else 0, 32)
  {
  }

  /** What a round of the repair needs from its surroundings. */
  ghost predicate Smooth(w: Pair, st: Settings)
    requires w.p.out.send.Some?
  {
    Accepting(st) && st.ep.now >= w.p.out.send.value.startAfter && st.ep.unreadable == {} && st.eq.writable
  }

  /** A whole transfer: from the moment the receiver exists, with the sender anywhere in its content and
      any of the bursts' messages lost, repeated or reordered, the content is committed after
      m + ceil(m/512) + 1 further rounds in which nothing is lost, where m is the number of chunks that
      never arrived. */
  lemma DeliveredAfterLoss(w: Pair, bs: seq<Burst>, rounds: seq<Settings>, id: Id, content: seq<byte>)
    requires UnderWay(w, id, content) && AllLossy(w, bs)
    requires |bs| == CeilDiv(w.p.out.send.value.total - w.p.out.send.value.nextChunk, 32)
    requires forall i :: 0 <= i < |rounds| ==> Smooth(w, rounds[i])
    ensures var w' := Bursts(w, bs);
            && Repairing(w', id, content)
            && (forall i :: 0 <= i < ChunkCount(|content|) ==>
                  (w'.q.inc.recv[id].flags[i] <==> w.q.inc.recv[id].flags[i] || Piece(id, content, i) in Arrived(bs)))
            && var (t, m) := (Repair(w', rounds), MissingIn(w', id));
            && t.w.p.out.send.Some?
            && (t.w.p.out.send.value.confirmed <==> |rounds| >= m + NacksNeeded(m) + 1)
            && (t.w.p.out.send.value.confirmed ==>
                  exists name :: t.w.q.inc.commits == w.q.inc.commits + [Committed(id, name, content)])
  {
    BurstsEnd(w, bs, id, content);
    var w' := Bursts(w, bs);
    InRepair(w', id, content);
    hide Bursts, AllLossy, UnderWay, Repairing, Repair, Arrived, Holds, Accepting;
    forall i | 0 <= i < |rounds| ensures Ready(w', rounds[i]) && Accepting(rounds[i]) {
      assert Smooth(w, rounds[i]);
    }
    RepairTerminates(w', rounds, id, content);
  }

  lemma InRepair(w: Pair, id: Id, content: seq<byte>)
    requires UnderWay(w, id, content) && w.p.out.send.value.nextChunk == w.p.out.send.value.total
    ensures Repairing(w, id, content) && w.p.out.send.value.resend == [] && !w.p.out.send.value.doneSent
  {
  }

  /** An announcement that has made its receiver puts the transfer under way. */
  lemma AnnouncedUnderWay(w: Pair, s: Snd, hash: Digest, now: nat)
    requires Offering(w.p, s.id, s.content) && !w.p.out.send.value.doneSent && SndShape(s)
    requires s.id in w.q.inc.recv && EmptyReceiver(w.q.inc.recv[s.id], s, hash, now) && hash == w.q.sha(s.content)
    requires (w.q.out.send.Some? ==> w.q.out.send.value.id != s.id) && (s.kind == File ==> w.q.inc.dir.Some?)
    requires |s.content| > 0
    ensures UnderWay(w, s.id, s.content)
    ensures forall i :: 0 <= i < |w.q.inc.recv[s.id].flags| ==> !w.q.inc.recv[s.id].flags[i]
  {
    var r := w.q.inc.recv[s.id];
    NoneCounted(r.flags);
  }

  lemma {:induction false} NoneCounted(flags: seq<bool>)
    requires forall i :: 0 <= i < |flags| ==> !flags[i]
    ensures CountTrue(flags) == 0
  {
    if flags != [] {
      NoneCounted(flags[..|flags| - 1]);
    }
  }
}
