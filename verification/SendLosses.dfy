/** When an accepted send is lost: the one step of one peer that breaks conservation. */
module SendLosses {
  import opened Bytes
  import opened FileProtocol
  import opened TransferSpec
  import opened PeerRuns
  import opened SendRuns

  /** The slot holds a regular send that failed and of which no record was ever written. */
  ghost predicate LostIfDisplaced(p: Peer) {
    && p.out.send.Some? && p.out.send.value.kind == File && p.out.send.value.failed
    && p.out.send.value.id !in SendIds(p.book.all)
  }

  // ---- what ties the fields to the trace ----

  ghost predicate AcceptedOld(o: Outgoing) {
    forall id :: id in AcceptedIds(o.trace) ==> id.seqNo < o.sendSeq
  }

  ghost predicate QueueAccepted(o: Outgoing) {
    forall i :: 0 <= i < |o.queue| ==> o.queue[i].id in AcceptedIds(o.trace)
  }

  /** Regular sends were accepted, images were not; what failed is over. */
  ghost predicate SlotAccepted(o: Outgoing) {
    o.send.Some? ==>
      && (o.send.value.kind == File <==> o.send.value.id in AcceptedIds(o.trace))
      && (o.send.value.failed ==> o.send.value.confirmed)
  }

  ghost predicate Traced(p: Peer) {
    && AcceptedOld(p.out) && QueueAccepted(p.out) && SlotAccepted(p.out)
    && LoggedIds(p.out.trace) == SendIds(p.book.all)
  }

  lemma NewPeerTraced(tag: nat, sha: seq<byte> -> Digest, dir: Option<Path>)
    ensures Traced(NewPeer(tag, sha, dir))
  {
  }

  lemma ReceiverMoveTraced(p: Peer, p': Peer)
    requires Traced(p) && ReceiverMove(p, p')
    ensures Traced(p')
  {
    hide AcceptedOld, QueueAccepted, SlotAccepted, SendIds, LoggedIds;
  }

  lemma LogSendTraced(p: Peer, r: Record)
    requires Traced(p) && r.direction == Sending
    ensures Traced(LogSend(p, r))
  {
    hide SendIds;
    SendIdsAppend(p.book.all, r);
  }

  lemma EmptyTraced(p: Peer)
    requires Traced(p)
    ensures Traced(EmptySlot(p))
  {
  }

  lemma DropTraced(p: Peer, i: nat, outcome: Outcome)
    requires Traced(p) && i < |p.out.queue|
    ensures Traced(DropQueued(p, i, outcome))
  {
    var q := p.out.queue[i];
    var rest := p.out.queue[..i] + p.out.queue[i + 1..];
    var p1 := p.(out := Note(p.out.(queue := rest), Dropped(q.id)));
    forall j | 0 <= j < |rest| ensures rest[j].id in AcceptedIds(p1.out.trace) {
      assert rest[j] == p.out.queue[if j < i then j else j + 1];
    }
    assert Traced(p1);
    hide Traced;
    LogSendTraced(p1, QueueRecord(q, outcome));
  }

  lemma LaunchTraced(p: Peer, id: Id, path: Path, env: Env)
    requires path in env.disk && AcceptedOld(p.out) && QueueAccepted(p.out) && id in AcceptedIds(p.out.trace)
    requires LoggedIds(p.out.trace) == SendIds(p.book.all)
    ensures Traced(Launch(p, id, path, env))
  {
    hide SendIds, SendName, ChunkCount;
    var p' := Launch(p, id, path, env);
    assert AcceptedIds(p'.out.trace) == AcceptedIds(p.out.trace) && LoggedIds(p'.out.trace) == LoggedIds(p.out.trace);
  }

  lemma {:induction false} StartNextTraced(p: Peer, env: Env)
    requires Traced(p)
    ensures Traced(StartNext(p, env))
    decreases |p.out.queue|
  {
    hide DropQueued, Launch, SendIds, LoggedIds, AcceptedIds;
    if p.out.queue != [] {
      var q := p.out.queue[0];
      if Openable(q.path, env) {
        var p1 := p.(out := p.out.(queue := p.out.queue[1..]));
        assert QueueAccepted(p1.out);
        LaunchTraced(p1, q.id, q.path, env);
      } else {
        DropTraced(p, 0, Failure);
        DropShorter(p, 0, Failure);
        StartNextTraced(DropQueued(p, 0, Failure), env);
      }
    }
  }

  lemma DropShorter(p: Peer, i: nat, outcome: Outcome)
    requires i < |p.out.queue|
    ensures |DropQueued(p, i, outcome).out.queue| == |p.out.queue| - 1
  {
  }

  // ---- the operations ----

  lemma AcceptTraced(p: Peer, id: Id)
    requires Traced(p) && id.seqNo >= p.out.sendSeq
    requires p.out.send.Some? ==> p.out.send.value.id.seqNo < p.out.sendSeq
    ensures var o := Note(p.out.(sendSeq := id.seqNo + 1), Accepted(id));
            && id in AcceptedIds(o.trace) && Traced(p.(out := o))
  {
    hide SendIds;
  }

  lemma SlotOld(p: Peer)
    requires PeerInv(p)
    ensures p.out.send.Some? ==> p.out.send.value.id.seqNo < p.out.sendSeq
  {
  }

  lemma SendFileTraced(p: Peer, path: Path, env: Env)
    requires Traced(p) && PeerInv(p)
    ensures Traced(SendFile(p, path, env).0)
  {
    SlotOld(p);
    hide SendIds, PeerInv, Launch;
    if SendFile(p, path, env).1 {
      var id := Id(p.tag, p.out.send.Some?, p.out.sendSeq);
      AcceptTraced(p, id);
      var p1 := p.(out := Note(p.out.(sendSeq := id.seqNo + 1), Accepted(id)));
      if p.out.send.Some? {
        var q := Queued(id, path, SendName(path), |env.disk[path]|);
        assert SendFile(p, path, env).0 == p1.(out := p1.out.(queue := p.out.queue + [q]));
      } else {
        var p2 := p.(out := Note(p.out, Accepted(id)));
        LaunchLater(p1, p2, id, path, env);
      }
    }
  }

  /** Launch counts the sequence number itself. */
  lemma LaunchLater(p1: Peer, p2: Peer, id: Id, path: Path, env: Env)
    requires Traced(p1) && path in env.disk && id in AcceptedIds(p1.out.trace)
    requires p2 == p1.(out := p1.out.(sendSeq := p2.out.sendSeq)) && p1.out.sendSeq == p2.out.sendSeq + 1
    ensures Traced(Launch(p2, id, path, env))
  {
    hide SendIds, SendName, ChunkCount;
    var p' := Launch(p2, id, path, env);
    assert AcceptedIds(p'.out.trace) == AcceptedIds(p1.out.trace) && LoggedIds(p'.out.trace) == LoggedIds(p1.out.trace);
  }

  lemma SendImageTraced(p: Peer, png: seq<byte>, env: Env)
    requires Traced(p)
    ensures Traced(SendImage(p, png, env).0)
  {
    hide SendIds, ImageName, ChunkCount;
    var p' := SendImage(p, png, env).0;
    if SendImage(p, png, env).1 {
      assert AcceptedIds(p'.out.trace) == AcceptedIds(p.out.trace) && LoggedIds(p'.out.trace) == LoggedIds(p.out.trace);
    }
  }

  lemma CancelSendTraced(p: Peer, c: Channel, env: Env)
    requires Traced(p)
    ensures Traced(CancelSend(p, c, env).0)
  {
    hide Traced, StartNext;
    if p.out.send.Some? {
      EmptyTraced(p);
      LogSendTraced(EmptySlot(p), SendRecord(p.out.send.value, Cancelled));
      StartNextTraced(LogSend(EmptySlot(p), SendRecord(p.out.send.value, Cancelled)), env);
    }
  }

  lemma CancelSendIdTraced(p: Peer, id: Id, c: Channel, env: Env)
    requires Traced(p)
    ensures Traced(CancelSendId(p, id, c, env).0)
  {
    hide Traced, CancelSend, DropQueued;
    CancelSendTraced(p, c, env);
    var i := QueuePosition(p.out.queue, id);
    if i < |p.out.queue| {
      DropTraced(p, i, Cancelled);
    }
  }

  /** The slot after an answer, a Nack or a tick: the same send further on. */
  lemma MovedTraced(p: Peer, s: Snd, o: Outgoing)
    requires Traced(p) && p.out.send.Some?
    requires s.id == p.out.send.value.id && s.kind == p.out.send.value.kind && (s.failed ==> s.confirmed)
    requires o == p.out.(send := Some(s), lastDoneFile := o.lastDoneFile, trace := o.trace)
    requires AcceptedIds(o.trace) == AcceptedIds(p.out.trace) && LoggedIds(o.trace) == LoggedIds(p.out.trace)
    ensures Traced(p.(out := o))
  {
    hide SendIds;
  }

  lemma OnAckTraced(p: Peer, ok: bool)
    requires Traced(p) && p.out.send.Some?
    ensures Traced(OnAck(p, ok))
  {
    hide Traced, SendIds;
    var s := p.out.send.value;
    var s' := if ok then s.(confirmed := true) else s.(confirmed := true, failed := true);
    var done := if s.kind == File then Some(s.id) else p.out.lastDoneFile;
    var o := Note(p.out.(send := Some(s'), lastDoneFile := done), Acked(s.id, s.kind, ok));
    MovedTraced(p, s', o);
    if ok {
      LogSendTraced(p.(out := o), SendRecord(s, Success));
    }
  }

  lemma FailedIsOver(p: Peer)
    requires Traced(p) && p.out.send.Some?
    ensures p.out.send.value.failed ==> p.out.send.value.confirmed
  {
  }

  lemma OnNackTraced(p: Peer, m: Message)
    requires m.Nack? && Traced(p)
    ensures Traced(OnNack(p, m))
  {
    hide Traced, AddMissing;
    if p.out.send.Some? {
      FailedIsOver(p);
      var s := p.out.send.value;
      var s' := s.(resend := AddMissing(s.resend, m.missing, s.total), doneSent := false);
      MovedTraced(p, s', p.out.(send := Some(s')));
    }
  }

  lemma SndMoveOver(s: Snd, s': Snd)
    requires SndMove(s, s') && (s.failed ==> s.confirmed)
    ensures s'.id == s.id && s'.kind == s.kind && (s'.failed ==> s'.confirmed)
  {
    hide SndShape;
  }

  lemma AdvanceSendTraced(p: Peer, c: Channel, env: Env)
    requires Traced(p) && SndShapes(p.out)
    ensures Traced(AdvanceSend(p, c, env).0)
  {
    hide Traced, SndMove, SndTick, StartNext, LogSend, EmptySlot;
    if p.out.send.Some? {
      var s := p.out.send.value;
      var s' := SndTick(s, c, env.now, env.unreadable).0;
      SndTickMove(s, c, env.now, env.unreadable);
      FailedIsOver(p);
      SndMoveOver(s, s');
      EmptyTraced(p);
      LogSendTraced(EmptySlot(p), SendRecord(s', Failure));
      StartNextTraced(LogSend(EmptySlot(p), SendRecord(s', Failure)), env);
      StartNextTraced(EmptySlot(p), env);
      MovedTraced(p, s', p.out.(send := Some(s')));
    }
  }

  lemma TickTraced(p: Peer, c: Channel, env: Env)
    requires Traced(p) && PeerInv(p)
    ensures Traced(Tick(p, c, env).0)
  {
    var p1 := ExpireReceivers(p, env.order, env.now);
    ExpireMove(p, env.order, env.now);
    ExpireCompletedMove(p1, env.now);
    var p2 := ExpireCompleted(p1, env.now);
    AdvanceSendKeeps(p2, c, env);
    var (p3, c3) := AdvanceSend(p2, c, env);
    RetryMove(p3, env.order, c3, env);
    hide Traced, PeerInv, ReceiverMove, AdvanceSend, ExpireReceivers, ExpireCompleted, RetryNacks;
    ReceiverMoveTraced(p, p1);
    ReceiverMoveTraced(p1, p2);
    Shapes(p, p1, p2);
    AdvanceSendTraced(p2, c, env);
    ReceiverMoveTraced(p3, RetryNacks(p3, env.order, c3, env).0);
  }

  lemma Shapes(p: Peer, p1: Peer, p2: Peer)
    requires PeerInv(p) && ReceiverMove(p, p1) && ReceiverMove(p1, p2)
    ensures SndShapes(p2.out)
  {
  }

  lemma HandleDataTraced(p: Peer, m: Message, c: Channel, env: Env)
    requires Traced(p) && PeerInv(p) && Covers(env.order, p.inc.completed.Keys)
    ensures Traced(HandleData(p, m, c, env).0)
  {
    hide Traced, ReceiverMove, OnChunk, OnMeta, OnDone, OnCancel, OnNack, OnAck, SendFile, OutInv, BookInv;
    match m
    case Chunk(_, _, _) => OnChunkMove(p, m); ReceiverMoveTraced(p, OnChunk(p, m));
    case Meta(_, _, _, _, _, _) => OnMetaMove(p, m, env); ReceiverMoveTraced(p, OnMeta(p, m, env));
    case Done(id, ok) =>
      if p.out.send.Some? && p.out.send.value.id == id {
        OnAckTraced(p, ok);
      } else {
        OnDoneMove(p, m, c, env);
        ReceiverMoveTraced(p, OnDone(p, m, c, env).0);
      }
    case Cancel(_) => OnCancelMove(p, m); ReceiverMoveTraced(p, OnCancel(p, m));
    case Nack(_, _) => OnNackTraced(p, m);
    case Request(path) => SendFileTraced(p, path, env);
  }

  lemma SettingsTraced(p: Peer, i: Incoming, history: seq<Record>)
    requires Traced(p)
    ensures Traced(p.(inc := i)) && Traced(p.(book := p.book.(history := history)))
  {
  }

  lemma StepTraced(p: Peer, st: Step)
    requires Traced(p) && PeerInv(p) && Fits(p, st)
    ensures Traced(After(p, st))
  {
    hide Traced, SendFile, SendImage, CancelSend, CancelSendId, Tick, HandleData, OutInv, IncInv, BookInv;
    var c, env := Channel([], st.verdicts), st.env;
    match st.op
    case OpSendFile(path) => SendFileTraced(p, path, env);
    case OpSendImage(png) => SendImageTraced(p, png, env);
    case OpCancelSend => CancelSendTraced(p, c, env);
    case OpCancelSendId(id) => CancelSendIdTraced(p, id, c, env);
    case OpTick => TickTraced(p, c, env);
    case OpReceive(m) => HandleDataTraced(p, m, c, env);
    case OpSetRecvDir(dir) => SettingsTraced(p, p.inc.(dir := dir), []);
    case OpSetAllowRequest(allow) => SettingsTraced(p, p.inc.(allowRequest := allow), []);
    case OpClearHistory => SettingsTraced(p, p.inc, []);
    case OpTakeImage => SettingsTraced(p, p.inc.(image := None), []);
  }

  lemma {:induction false} RunTraced(ps: seq<Peer>, steps: seq<Step>, i: nat)
    requires IsRun(ps, steps) && i < |ps|
    ensures Traced(ps[i]) && PeerInv(ps[i])
  {
    hide Traced, PeerInv, After;
    RunKeepsInv(ps, steps);
    if i == 0 {
      var tag, sha, dir :| ps[0] == NewPeer(tag, sha, dir);
      NewPeerTraced(tag, sha, dir);
    } else {
      RunTraced(ps, steps, i - 1);
      assert FollowsAt(ps, steps, i - 1);
      StepTraced(ps[i - 1], steps[i - 1]);
    }
  }

  // ---- exactly when a send is lost ----

  /** On the fields of the object: what a send displaced from the slot would lose. */
  lemma LostIffUnlogged(p: Peer)
    requires Traced(p) && PeerInv(p)
    ensures LostIfDisplaced(p) <==> RefusedUnlogged(p.out)
  {
    hide AcceptedIds, LoggedIds, SendIds, SndShapes, Sticky, IdsFresh, Fifo, IncInv, BookInv;
  }

  /** In every run, from a state in which no accepted send is lost, a step loses one exactly when
      it is a clipboard image that takes the slot from a failed regular send without a record. */
  lemma LosesIff(ps: seq<Peer>, steps: seq<Step>, i: nat)
    requires IsRun(ps, steps) && i < |steps| && Conserved(ps[i].out)
    ensures !Conserved(ps[i + 1].out) <==>
              && steps[i].op.OpSendImage?
              && SendImage(ps[i], steps[i].op.png, steps[i].env).1 && LostIfDisplaced(ps[i])
  {
    hide Traced, PeerInv, LostIfDisplaced, RefusedUnlogged, Conserved;
    var p, st := ps[i], steps[i];
    RunTraced(ps, steps, i);
    assert FollowsAt(ps, steps, i);
    if st.op.OpSendImage? {
      LostIffUnlogged(p);
      ImageLosesIff(p, st);
    } else {
      StepConserves(p, st);
    }
  }

  lemma ImageLosesIff(p: Peer, st: Step)
    requires PeerInv(p) && Conserved(p.out) && st.op.OpSendImage?
    ensures !Conserved(After(p, st).out) <==> SendImage(p, st.op.png, st.env).1 && RefusedUnlogged(p.out)
  {
    if SendImage(p, st.op.png, st.env).1 {
      SendImageConservesIff(p, st.op.png, st.env);
    }
  }
}
