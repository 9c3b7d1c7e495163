/** Announcements reach their receiver: whatever a sender announces is of a form the other end takes,
    so that after lost meta data the next one that gets through makes the receiver. */
module FileAnnounce {
  import opened Bytes
  import opened FileProtocol
  import opened TransferSpec
  import opened PeerRuns
  import opened SendRuns
  import opened FileNetwork
  import opened FileReceives
  import opened SenderTicks

  /** The size is within its limit and the name is safe. */
  ghost predicate Announceable(s: Snd) {
    && 0 < |s.content| <= (if s.kind == ClipboardImage then 0x100_0000 else 0x4000_0000)
    && (s.kind == File ==> s.name != "" && SafeFileName(s.name) == s.name)
  }

  ghost predicate SlotAnnounceable(o: Outgoing) {
    o.send.Some? ==> Announceable(o.send.value)
  }

  lemma SendNameIsSafe(path: Path)
    ensures SendName(path) != "" && SafeFileName(SendName(path)) == SendName(path)
  {
    FileNameIsLast("", SendName(path));
  }

  lemma LaunchAnnounceable(p: Peer, id: Id, path: Path, env: Env)
    requires Openable(path, env)
    ensures SlotAnnounceable(Launch(p, id, path, env).out)
  {
    SendNameIsSafe(path);
    hide SendName, SafeFileName, ChunkCount;
  }

  lemma {:induction false} StartNextAnnounceable(p: Peer, env: Env)
    requires SlotAnnounceable(p.out)
    ensures SlotAnnounceable(StartNext(p, env).out)
    decreases |p.out.queue|
  {
    hide Announceable, Launch;
    if p.out.queue != [] {
      var q := p.out.queue[0];
      if Openable(q.path, env) {
        LaunchAnnounceable(p.(out := p.out.(queue := p.out.queue[1..])), q.id, q.path, env);
      } else {
        StartNextAnnounceable(DropQueued(p, 0, Failure), env);
      }
    }
  }

  lemma FileAnnounceable(p: Peer, path: Path, env: Env)
    requires SlotAnnounceable(p.out)
    ensures SlotAnnounceable(SendFile(p, path, env).0.out)
  {
    hide Announceable, Launch, SendName;
    if SendFile(p, path, env).1 && p.out.send.None? {
      var id := Id(p.tag, false, p.out.sendSeq);
      LaunchAnnounceable(p.(out := Note(p.out, Accepted(id))), id, path, env);
    }
  }

  lemma ImageAnnounceable(p: Peer, png: seq<byte>, env: Env)
    requires SlotAnnounceable(p.out)
    ensures SlotAnnounceable(SendImage(p, png, env).0.out)
  {
    hide ImageName, ChunkCount, SafeFileName;
  }

  lemma CancelAnnounceable(p: Peer, id: Id, c: Channel, env: Env)
    requires SlotAnnounceable(p.out)
    ensures SlotAnnounceable(CancelSend(p, c, env).0.out) && SlotAnnounceable(CancelSendId(p, id, c, env).0.out)
  {
    hide Announceable, StartNext;
    if p.out.send.Some? {
      StartNextAnnounceable(LogSend(EmptySlot(p), SendRecord(p.out.send.value, Cancelled)), env);
    }
  }

  lemma MovedAnnounceable(s: Snd, s': Snd)
    requires Announceable(s) && SndMove(s, s')
    ensures Announceable(s')
  {
    hide SndShape, SafeFileName;
  }

  lemma AdvanceAnnounceable(p: Peer, c: Channel, env: Env)
    requires SndShapes(p.out) && SlotAnnounceable(p.out)
    ensures SlotAnnounceable(AdvanceSend(p, c, env).0.out)
  {
    hide Announceable, StartNext, SndTick, SndMove, SndShape;
    if p.out.send.Some? {
      var s := SndTick(p.out.send.value, c, env.now, env.unreadable).0;
      SndTickMove(p.out.send.value, c, env.now, env.unreadable);
      MovedAnnounceable(p.out.send.value, s);
      StartNextAnnounceable(LogSend(EmptySlot(p), SendRecord(s, Failure)), env);
      StartNextAnnounceable(EmptySlot(p), env);
    }
  }

  lemma TickAnnounceable(p: Peer, c: Channel, env: Env)
    requires PeerInv(p) && SlotAnnounceable(p.out)
    ensures SlotAnnounceable(Tick(p, c, env).0.out)
  {
    var p1 := ExpireReceivers(p, env.order, env.now);
    var p2 := ExpireCompleted(p1, env.now);
    var (p3, c3) := AdvanceSend(p2, c, env);
    ExpireMove(p, env.order, env.now);
    ExpireCompletedMove(p1, env.now);
    AdvanceSendKeeps(p2, c, env);
    RetryMove(p3, env.order, c3, env);
    hide ExpireReceivers, AdvanceSend, RetryNacks, SndShape, Announceable;
    AdvanceAnnounceable(p2, c, env);
  }

  lemma ReceiveAnnounceable(p: Peer, m: Message, c: Channel, env: Env)
    requires SlotAnnounceable(p.out)
    ensures SlotAnnounceable(HandleData(p, m, c, env).0.out)
  {
    hide SafeFileName, SendFile, AddMissing;
    if m.Request? {
      FileAnnounceable(p, m.path, env);
    }
    hide RequestResend, Commit;
    if m.Done? && m.id in p.inc.recv {
      DoneSameOut(p, m, c, env);
    }
  }

  lemma DoneSameOut(p: Peer, m: Message, c: Channel, env: Env)
    requires m.Done?
    ensures OnDone(p, m, c, env).0.out == p.out
  {
    hide Remember;
  }

  lemma StepAnnounceable(p: Peer, st: Step)
    requires PeerInv(p) && SlotAnnounceable(p.out)
    ensures SlotAnnounceable(After(p, st).out)
  {
    hide SendFile, SendImage, CancelSend, CancelSendId, Tick, HandleData, OutInv, IncInv, BookInv, Announceable;
    var c, env := Channel([], st.verdicts), st.env;
    match st.op
    case OpSendFile(path) => FileAnnounceable(p, path, env);
    case OpSendImage(png) => ImageAnnounceable(p, png, env);
    case OpCancelSend => CancelAnnounceable(p, Id(0, false, 0), c, env);
    case OpCancelSendId(id) => CancelAnnounceable(p, id, c, env);
    case OpTick => TickAnnounceable(p, c, env);
    case OpReceive(m) => ReceiveAnnounceable(p, m, c, env);
    case _ =>
  }

  ghost predicate BothAnnounceable(w: World) {
    SlotAnnounceable(w.p.out) && SlotAnnounceable(w.q.out)
  }

  lemma WorldAnnounceable(w: World, w': World)
    requires WorldInv(w) && BothAnnounceable(w) && StepsTo(w, w')
    ensures BothAnnounceable(w')
  {
    hide PeerInv, Half, After, SlotAnnounceable;
    if exists st, sent :: Moves(w.p, w.qp, st, w'.p, sent) && w' == World(w'.p, w.q, w.pq + sent, w.qp) {
      var st, sent :| Moves(w.p, w.qp, st, w'.p, sent) && w' == World(w'.p, w.q, w.pq + sent, w.qp);
      StepAnnounceable(w.p, st);
    } else {
      var st, sent :| Moves(w.q, w.pq, st, w'.q, sent) && w' == World(w.p, w'.q, w.pq, w.qp + sent);
      StepAnnounceable(w.q, st);
    }
  }

  /** Whatever is in a slot in any state of any run can be announced. */
  lemma {:induction false} RunAnnounceable(ws: seq<World>, i: nat)
    requires IsWorldRun(ws) && i < |ws|
    ensures WorldInv(ws[i]) && BothAnnounceable(ws[i])
  {
    hide WorldInv, StepsTo, BothAnnounceable;
    WorldRunKeeps(ws, i);
    if i == 0 {
      NothingAnnounced(ws[0]);
    } else {
      RunAnnounceable(ws, i - 1);
      assert StepsAt(ws, i - 1);
      WorldAnnounceable(ws[i - 1], ws[i]);
    }
  }

  lemma NothingAnnounced(w: World)
    requires InitialWorld(w)
    ensures BothAnnounceable(w)
  {
  }

  /** The receiver that an announcement asks for: of its size, with nothing in it. */
  ghost predicate EmptyReceiver(r: Rcv, s: Snd, hash: Digest, now: nat) {
    && r.kind == s.kind && r.size == |r.buf| == |s.content| && r.total == |r.flags| == (|s.content| + 8191) / 8192
    && r.hash == Some(hash) && r.received == 0 && r.lastNack.None? && r.createdAt == now
    && r.name == (if s.kind == ClipboardImage then "clipboard-image.png" else s.name)
    && (forall i :: 0 <= i < |r.buf| ==> r.buf[i] == 0) && (forall i :: 0 <= i < |r.flags| ==> !r.flags[i])
  }

  /** The other end has room for the send and wants it. */
  ghost predicate Welcome(q: Peer, s: Snd) {
    (s.kind == File ==> q.inc.dir.Some?) && s.id !in q.inc.recv && |q.inc.recv| < 16
  }

  lemma AnnouncementMakes(q: Peer, s: Snd, c: Channel, env: Env)
    requires Announceable(s) && SndShape(s) && Welcome(q, s)
    ensures var q' := HandleData(q, Announcement(s), c, env).0;
            s.id in q'.inc.recv && EmptyReceiver(q'.inc.recv[s.id], s, s.hash, env.now)
  {
    hide SafeFileName;
    MetaMakesIff(q, Announcement(s), c, env);
    hide HandleData;
  }

  lemma AdvanceAnnounces(p: Peer, c: Channel, env: Env)
    requires SndShapes(p.out) && p.out.send.Some? && c.verdicts != [] && c.verdicts[0]
    requires var s := p.out.send.value;
             !s.confirmed && env.now >= s.startAfter && (!s.metaSent || env.now >= s.lastMeta + 1000)
    ensures Announcement(p.out.send.value) in AdvanceSend(p, c, env).1.sent
  {
    var s := p.out.send.value;
    AnnouncesIff(s, c, env.now, env.unreadable);
    hide SndTick, StartNext, Announcement;
    var c' := SndTick(s, c, env.now, env.unreadable).1;
    assert Sent(c, c')[0] == c'.sent[|c.sent|];
  }

  lemma {:induction false} RetrySendsMore(p: Peer, order: seq<Id>, c: Channel, env: Env)
    ensures c.sent <= RetryNacks(p, order, c, env).1.sent
    decreases |order|
  {
    if order != [] {
      var id := order[0];
      if id in p.inc.recv && NackDue(p.inc.recv[id], env.now) {
        var (p1, c1) := RequestResend(DropRcv(p, id), id, p.inc.recv[id], c, env);
        RetrySendsMore(p1, order[1..], c1, env);
      } else {
        RetrySendsMore(p, order[1..], c, env);
      }
    }
  }

  lemma TickAnnounces(p: Peer, c: Channel, env: Env)
    requires PeerInv(p) && p.out.send.Some? && c.verdicts != [] && c.verdicts[0]
    requires var s := p.out.send.value;
             !s.confirmed && env.now >= s.startAfter && (!s.metaSent || env.now >= s.lastMeta + 1000)
    ensures Announcement(p.out.send.value) in Tick(p, c, env).1.sent
  {
    var p1 := ExpireReceivers(p, env.order, env.now);
    var p2 := ExpireCompleted(p1, env.now);
    var (p3, c3) := AdvanceSend(p2, c, env);
    ExpireMove(p, env.order, env.now);
    ExpireCompletedMove(p1, env.now);
    AdvanceAnnounces(p2, c, env);
    RetrySendsMore(p3, env.order, c3, env);
    hide ExpireReceivers, AdvanceSend, RetryNacks, SndShape, Announcement;
  }

  /** In any state of any run: a tick of an unconfirmed sender whose time has come and whose meta data
      has not gone out or went out a second ago sends it, if the channel takes the first message; and
      when it is delivered to an end that has room for it, that end has an empty receiver of the size
      and digest of the content. Whatever was lost before does not matter. */
  lemma AnnouncedAgain(ws: seq<World>, i: nat, verdicts: seq<bool>, env: Env, env': Env)
    requires IsWorldRun(ws) && i < |ws|
    requires ws[i].p.out.send.Some? && Welcome(ws[i].q, ws[i].p.out.send.value)
    requires verdicts != [] && verdicts[0]
    requires var s := ws[i].p.out.send.value;
             !s.confirmed && env.now >= s.startAfter && (!s.metaSent || env.now >= s.lastMeta + 1000)
    ensures SndShapes(ws[i].p.out)
    ensures var s := ws[i].p.out.send.value;
            var m := Meta(s.id, s.name, |s.content|, s.total, Some(s.hash), s.kind);
            && m in Apply(ws[i].p, OpTick, Channel([], verdicts), env).1.sent
            && var q' := HandleData(ws[i].q, m, Channel([], []), env').0;
            s.id in q'.inc.recv && EmptyReceiver(q'.inc.recv[s.id], s, ws[i].p.sha(s.content), env'.now)
  {
    hide WorldInv, IsWorldRun, EmptyReceiver, Tick, HandleData, PeerInv, SndShape, Announceable, Welcome;
    RunAnnounceable(ws, i);
    var p, s := ws[i].p, ws[i].p.out.send.value;
    Genuinely(ws[i]);
    TickAnnounces(p, Channel([], verdicts), env);
    AnnouncementMakes(ws[i].q, s, Channel([], []), env');
  }

  lemma Genuinely(w: World)
    requires WorldInv(w) && w.p.out.send.Some?
    ensures PeerInv(w.p) && SndShape(w.p.out.send.value) && SndShapes(w.p.out)
    ensures w.p.out.send.value.hash == w.p.sha(w.p.out.send.value.content)
  {
    hide Fifo, Recorded, Sticky, IncInv, BookInv;
  }
}
