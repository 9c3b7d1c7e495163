/** The sending side over whole runs: every operation keeps the invariants of PeerRuns, and
    what that means for order, conservation, sticky completion and the history. */
module SendRuns {
  import opened Bytes
  import opened FileProtocol
  import opened TransferSpec
  import opened PeerRuns

  // ---- sequences of ids ----

  lemma {:induction false} WithoutAbsent(ids: seq<Id>, id: Id)
    requires id !in ids
    ensures Without(ids, id) == ids
  {
    if ids != [] {
      var rest, last := ids[..|ids| - 1], ids[|ids| - 1];
      assert ids == rest + [last];
      WithoutAbsent(rest, id);
    }
  }

  lemma {:induction false} WithoutAt(ids: seq<Id>, k: nat)
    requires NoDup(ids) && k < |ids|
    ensures Without(ids, ids[k]) == ids[..k] + ids[k + 1..]
  {
    var n := |ids| - 1;
    if k < n {
      WithoutAt(ids[..n], k);
      assert ids[..n][..k] == ids[..k] && ids[k + 1..] == ids[k + 1..n] + [ids[n]];
    } else {
      WithoutAbsent(ids[..n], ids[n]);
    }
  }

  // ---- the sender's tick ----

  /** A tick moves the cursor, the resend stack and the timers; only a failed read ends the send. */
  ghost predicate SndMove(s: Snd, s': Snd) {
    && s' == s.(nextChunk := s'.nextChunk, metaSent := s'.metaSent, lastMeta := s'.lastMeta, doneSent := s'.doneSent,
                lastDone := s'.lastDone, resend := s'.resend, confirmed := s'.confirmed, failed := s'.failed)
    && SndShape(s')
    && ((s'.confirmed == s.confirmed && s'.failed == s.failed) || (s'.confirmed && s'.failed))
  }

  lemma {:induction false} BurstMove(s: Snd, c: Channel, unreadable: set<nat>, left: nat)
    requires SndShape(s)
    ensures SndMove(s, BurstStep(s, c, unreadable, left).0)
    decreases left
  {
    hide Slice, Push;
    if left > 0 && s.nextChunk < s.total && !ReadFails(s, s.nextChunk, unreadable) && Accepts(c) {
      BurstMove(s.(nextChunk := s.nextChunk + 1), Push(c, Chunk(s.id, s.nextChunk, Slice(s.content, s.nextChunk))),
                unreadable, left - 1);
    }
  }

  lemma ResendMove(s: Snd, c: Channel, unreadable: set<nat>)
    requires SndShape(s) && s.resend != []
    ensures SndMove(s, ResendStep(s, c, unreadable).0)
  {
    hide Slice, Push;
  }

  lemma MoveTransitive(s: Snd, s1: Snd, s2: Snd)
    requires SndMove(s, s1) && SndMove(s1, s2)
    ensures SndMove(s, s2)
  {
  }

  lemma DoneMove(s: Snd, c: Channel, now: nat)
    requires SndShape(s)
    ensures SndMove(s, DoneStep(s, c, now).0)
  {
  }

  lemma SndTickMove(s: Snd, c: Channel, now: nat, unreadable: set<nat>)
    requires SndShape(s)
    ensures SndMove(s, SndTick(s, c, now, unreadable).0)
  {
    hide ResendStep, BurstStep;
    if !s.confirmed && now >= s.startAfter {
      var (s1, c1) := MetaStep(s, c, now);
      assert SndMove(s, s1);
      DoneMove(s1, c1, now);
      hide SndMove, SndShape, DoneStep, MetaStep;
      if s1.metaSent {
        if s1.resend != [] {
          ResendMove(s1, c1, unreadable);
          MoveTransitive(s, s1, ResendStep(s1, c1, unreadable).0);
        } else if s1.nextChunk < s1.total {
          BurstMove(s1, c1, unreadable, BURST);
          MoveTransitive(s, s1, BurstStep(s1, c1, unreadable, BURST).0);
        } else {
          MoveTransitive(s, s1, DoneStep(s1, c1, now).0);
        }
      }
    }
  }

  // ---- slot and queue ----

  lemma LogSendKeepsBook(p: Peer, r: Record)
    requires BookInv(p.book)
    ensures BookInv(LogSend(p, r).book)
  {
    WriteKeepsBook(p.book, r);
  }

  lemma RemoveAt(ids: seq<Id>, k: nat)
    requires NoDup(ids) && k < |ids|
    ensures NoDup(ids[..k] + ids[k + 1..])
    ensures forall id :: id in ids[..k] + ids[k + 1..] ==> id in ids
  {
    var rest := ids[..k] + ids[k + 1..];
    assert forall j :: 0 <= j < |rest| ==> rest[j] == ids[if j < k then j else j + 1];
  }

  /** Taking item `i` out of the queue takes it out of the kept ids at the same place. */
  lemma DropKept(o: Outgoing, i: nat)
    requires Fifo(o) && i < |o.queue|
    ensures o.queue[i].id in Kept(o.trace)
    ensures Without(Kept(o.trace), o.queue[i].id) == StartedFiles(o.trace) + QueueIds(o.queue[..i] + o.queue[i + 1..])
    ensures NoDup(Without(Kept(o.trace), o.queue[i].id))
    ensures forall id :: id in Without(Kept(o.trace), o.queue[i].id) ==> id in Kept(o.trace)
  {
    hide Kept, StartedFiles, Without;
    var kept, started, waiting := Kept(o.trace), StartedFiles(o.trace), QueueIds(o.queue);
    var k := |started| + i;
    assert kept[k] == waiting[i];
    WithoutAt(kept, k);
    RemoveAt(kept, k);
    assert QueueIds(o.queue[..i] + o.queue[i + 1..]) == waiting[..i] + waiting[i + 1..];
    hide QueueIds;
    CutAt(started, waiting, i);
  }

  lemma CutAt(a: seq<Id>, b: seq<Id>, i: nat)
    requires i < |b|
    ensures (a + b)[..|a| + i] + (a + b)[|a| + i + 1..] == a + (b[..i] + b[i + 1..])
  {
    assert (a + b)[..|a| + i] == a + b[..i];
    assert (a + b)[|a| + i + 1..] == b[i + 1..];
  }

  /** The other queued items keep their place, and are other ids. */
  lemma DropOthers(o: Outgoing, i: nat, j: nat)
    requires Fifo(o) && i < |o.queue| && j < |o.queue| - 1
    ensures var rest := o.queue[..i] + o.queue[i + 1..];
            rest[j] in o.queue && rest[j].id != o.queue[i].id
  {
    var j' := if j < i then j else j + 1;
    assert (o.queue[..i] + o.queue[i + 1..])[j] == o.queue[j'];
    var n := |StartedFiles(o.trace)|;
    assert Kept(o.trace)[n + j'] == o.queue[j'].id && Kept(o.trace)[n + i] == o.queue[i].id;
  }

  lemma DropConserves(o: Outgoing, i: nat, id: Id)
    requires i < |o.queue| && id in QueueIds(o.queue)
    ensures id == o.queue[i].id || id in QueueIds(o.queue[..i] + o.queue[i + 1..])
  {
    var j :| 0 <= j < |o.queue| && QueueIds(o.queue)[j] == id;
    if j != i {
      assert QueueIds(o.queue[..i] + o.queue[i + 1..])[if j < i then j else j - 1] == id;
    }
  }

  /** What dropping a queued send adds to a trace. */
  lemma DropTrace(t: Trace, id: Id, r: Record)
    requires r.id == id
    ensures var t' := Then(Then(t, Dropped(id)), Logged(r));
            && Kept(t') == Without(Kept(t), id) && StartedFiles(t') == StartedFiles(t) && Origins(t') == Origins(t)
            && (AckedSinceStart(t') <==> AckedSinceStart(t)) && LoggedIds(t') == LoggedIds(t) + {id}
  {
  }

  lemma DropQueuedKeeps(p: Peer, i: nat, outcome: Outcome)
    requires OutCore(p.tag, p.out) && BookInv(p.book)
    requires i < |p.out.queue|
    ensures OutCore(p.tag, DropQueued(p, i, outcome).out) && BookInv(DropQueued(p, i, outcome).book)
  {
    hide SndShape, BookInv, Without, NoDup;
    var o, o' := p.out, DropQueued(p, i, outcome).out;
    WriteKeepsBook(p.book, QueueRecord(o.queue[i], outcome));
    DropKept(o, i);
    DropTrace(o.trace, o.queue[i].id, QueueRecord(o.queue[i], outcome));
    assert o'.trace == Then(Then(o.trace, Dropped(o.queue[i].id)), Logged(QueueRecord(o.queue[i], outcome)));
    hide Kept, StartedFiles, Origins, AckedSinceStart, LoggedIds, QueueIds;
    forall j | 0 <= j < |o'.queue|
      ensures o'.queue[j].id !in LoggedIds(o'.trace) && o'.queue[j].id !in Origins(o'.trace)
    {
      DropOthers(o, i, j);
    }
  }

  lemma DropQueuedConserves(p: Peer, i: nat, outcome: Outcome)
    requires i < |p.out.queue| && Conserved(p.out)
    ensures Conserved(DropQueued(p, i, outcome).out)
  {
    var o, o' := p.out, DropQueued(p, i, outcome).out;
    assert o'.trace == Then(Then(o.trace, Dropped(o.queue[i].id)), Logged(QueueRecord(o.queue[i], outcome)));
    forall id | id in AcceptedIds(o'.trace) && id in QueueIds(o.queue)
      ensures id in LoggedIds(o'.trace) || id in QueueIds(o'.queue)
    {
      DropConserves(o, i, id);
    }
  }

  lemma NewSndShape(kind: Kind, id: Id, name: string, path: Option<Path>, content: seq<byte>,
                    sha: seq<byte> -> Digest, now: nat)
    ensures SndShape(NewSnd(kind, id, name, path, content, sha, now))
  {
  }

  /** What starting a queued file adds to a trace. */
  lemma LaunchTrace(t: Trace, id: Id, content: seq<byte>)
    ensures var t' := Then(t, Started(id, File, content));
            && Kept(t') == Kept(t) && StartedFiles(t') == StartedFiles(t) + [id]
            && Origins(t') == Origins(t)[id := content]
            && !AckedSinceStart(t') && LoggedIds(t') == LoggedIds(t) && AcceptedIds(t') == AcceptedIds(t)
  {
  }

  lemma LaunchHeadKeeps(p: Peer, env: Env)
    requires OutCore(p.tag, p.out) && p.out.queue != []
    requires Openable(p.out.queue[0].path, env)
    ensures var p' := Launch(p.(out := p.out.(queue := p.out.queue[1..])), p.out.queue[0].id, p.out.queue[0].path, env);
            OutInv(p.tag, p'.out) && (Conserved(p.out) && p.out.send.None? ==> Conserved(p'.out))
  {
    hide NoDup, SendName, ChunkCount, Conserved;
    var o, q := p.out, p.out.queue[0];
    var o' := Launch(p.(out := o.(queue := o.queue[1..])), q.id, q.path, env).out;
    var started := StartedFiles(o.trace);
    NewSndShape(File, q.id, SendName(q.path), Some(q.path), env.disk[q.path], p.sha, env.now);
    LaunchTrace(o.trace, q.id, env.disk[q.path]);
    hide Kept, StartedFiles, Origins, AckedSinceStart, LoggedIds, AcceptedIds, SndShape;
    HeadIsNext(o);
    assert QueueIds(o.queue) == [q.id] + QueueIds(o'.queue);
    Regroup(started, [q.id], QueueIds(o'.queue));
    hide QueueIds;
    forall j | 0 <= j < |o'.queue|
      ensures o'.queue[j].id !in Origins(o'.trace) && o'.queue[j].id !in LoggedIds(o'.trace)
    {
      assert o'.queue[j] == o.queue[j + 1];
    }
    if Conserved(p.out) && p.out.send.None? {
      LaunchConserves(o, o');
    }
  }

  /** The head of the queue is a kept id, and no later one is the same. */
  lemma HeadIsNext(o: Outgoing)
    requires Fifo(o) && o.queue != []
    ensures o.queue[0].id in Kept(o.trace) && forall j :: 1 <= j < |o.queue| ==> o.queue[j].id != o.queue[0].id
  {
    hide Kept, StartedFiles;
    var n := |StartedFiles(o.trace)|;
    assert Kept(o.trace)[n] == o.queue[0].id;
    assert forall j :: 1 <= j < |o.queue| ==> Kept(o.trace)[n + j] == o.queue[j].id;
  }

  lemma LaunchConserves(o: Outgoing, o': Outgoing)
    requires Conserved(o) && o.send.None? && o.queue != [] && o'.queue == o.queue[1..]
    requires o'.send.Some? && o'.send.value.id == o.queue[0].id
    requires AcceptedIds(o'.trace) == AcceptedIds(o.trace) && LoggedIds(o'.trace) == LoggedIds(o.trace)
    ensures Conserved(o')
  {
    hide AcceptedIds, LoggedIds;
    forall id | id in QueueIds(o.queue) ensures id == o.queue[0].id || id in QueueIds(o'.queue) {
      var j :| 0 <= j < |o.queue| && QueueIds(o.queue)[j] == id;
      assert j > 0 ==> QueueIds(o'.queue)[j - 1] == id;
    }
  }

  lemma {:induction false} StartNextKeeps(p: Peer, env: Env)
    requires OutCore(p.tag, p.out) && BookInv(p.book) && p.out.send.None?
    ensures var p' := StartNext(p, env);
            p' == p.(out := p'.out, book := p'.book) && OutInv(p.tag, p'.out) && BookInv(p'.book)
    ensures Conserved(p.out) ==> Conserved(StartNext(p, env).out)
    ensures StartNext(p, env).out.send.Some? ==>
              !StartNext(p, env).out.send.value.confirmed && !StartNext(p, env).out.send.value.failed
    decreases |p.out.queue|
  {
    if p.out.queue != [] {
      if Openable(p.out.queue[0].path, env) {
        LaunchHeadKeeps(p, env);
      } else {
        DropQueuedKeeps(p, 0, Failure);
        if Conserved(p.out) {
          DropQueuedConserves(p, 0, Failure);
        }
        StartNextKeeps(DropQueued(p, 0, Failure), env);
      }
    }
  }

  // ---- the operations ----

  /** A send that is accepted while another is active goes to the end of the queue. */
  lemma Enqueue(tag: nat, o: Outgoing, q: Queued)
    requires OutInv(tag, o) && o.send.Some? && |o.queue| < MAX_QUEUE && q.id == Id(tag, true, o.sendSeq)
    ensures OutInv(tag, Note(o.(queue := o.queue + [q], sendSeq := o.sendSeq + 1), Accepted(q.id)))
    ensures Conserved(o) ==> Conserved(Note(o.(queue := o.queue + [q], sendSeq := o.sendSeq + 1), Accepted(q.id)))
  {
    var o' := Note(o.(queue := o.queue + [q], sendSeq := o.sendSeq + 1), Accepted(q.id));
    assert QueueIds(o'.queue) == QueueIds(o.queue) + [q.id];
    assert Kept(o'.trace) == Kept(o.trace) + [q.id];
    assert q.id !in Kept(o.trace);
  }

  lemma QueueFileKeeps(p: Peer, path: Path, env: Env)
    requires PeerInv(p) && p.out.send.Some?
    ensures OutInv(p.tag, SendFile(p, path, env).0.out)
    ensures Conserved(p.out) ==> Conserved(SendFile(p, path, env).0.out)
  {
    if SendFile(p, path, env).1 {
      Enqueue(p.tag, p.out, Queued(Id(p.tag, true, p.out.sendSeq), path, SendName(path), |env.disk[path]|));
    }
  }

  lemma AcceptAndStart(t: Trace, s: Snd)
    requires s.kind == File
    ensures var t' := Then(Then(t, Accepted(s.id)), Started(s.id, File, s.content));
            && StartedFiles(t') == StartedFiles(t) + [s.id] && Kept(t') == Kept(t) + [s.id]
            && Origins(t') == Origins(t)[s.id := s.content] && LoggedIds(t') == LoggedIds(t)
            && !AckedSinceStart(t')
  {
  }

  /** A send that is accepted while nothing is active goes straight into the slot. */
  lemma StartDirect(tag: nat, o: Outgoing, s: Snd)
    requires OutInv(tag, o) && o.send.None?
    requires SndShape(s) && s.kind == File && !s.confirmed && s.id == Id(tag, false, o.sendSeq)
    ensures OutInv(tag, Note(Note(o, Accepted(s.id)).(send := Some(s), lastDoneFile := None, sendSeq := o.sendSeq + 1),
                              Started(s.id, File, s.content)))
  {
    hide SndShape;
    var o' := Note(Note(o, Accepted(s.id)).(send := Some(s), lastDoneFile := None, sendSeq := o.sendSeq + 1),
                   Started(s.id, File, s.content));
    assert QueueIds(o.queue) == [] && QueueIds(o'.queue) == [];
    AcceptAndStart(o.trace, s);
    assert s.id !in Kept(o.trace);
    hide Kept, StartedFiles, Origins, LoggedIds, AckedSinceStart, QueueIds;
    assert forall id :: id in Kept(o'.trace) ==> id.peer == tag && id.seqNo < o'.sendSeq;
    assert o'.queue == [];
    assert o'.send.value.id in Origins(o'.trace) && Origins(o'.trace)[o'.send.value.id] == o'.send.value.content;
  }

  lemma DirectSendKeeps(p: Peer, path: Path, env: Env)
    requires PeerInv(p) && p.out.send.None? && SendFile(p, path, env).1
    ensures OutInv(p.tag, SendFile(p, path, env).0.out)
  {
    var id := Id(p.tag, false, p.out.sendSeq);
    var s := NewSnd(File, id, SendName(path), Some(path), env.disk[path], p.sha, env.now);
    NewSndShape(File, id, SendName(path), Some(path), env.disk[path], p.sha, env.now);
    StartDirect(p.tag, p.out, s);
    assert SendFile(p, path, env).0.out
        == Note(Note(p.out, Accepted(id)).(send := Some(s), lastDoneFile := None, sendSeq := p.out.sendSeq + 1),
                Started(id, File, s.content));
  }

  lemma DirectSendConserves(p: Peer, path: Path, env: Env)
    requires p.out.send.None? && p.out.queue == [] && SendFile(p, path, env).1
    ensures Conserved(p.out) ==> Conserved(SendFile(p, path, env).0.out)
  {
    var o, o' := p.out, SendFile(p, path, env).0.out;
    var id := Id(p.tag, false, o.sendSeq);
    assert o'.trace == Then(Then(o.trace, Accepted(id)), Started(id, File, env.disk[path]));
  }

  lemma SendFileKeeps(p: Peer, path: Path, env: Env)
    requires PeerInv(p)
    ensures PeerInv(SendFile(p, path, env).0)
    ensures Conserved(p.out) ==> Conserved(SendFile(p, path, env).0.out)
  {
    if SendFile(p, path, env).1 {
      if p.out.send.Some? {
        QueueFileKeeps(p, path, env);
      } else {
        DirectSendKeeps(p, path, env);
        DirectSendConserves(p, path, env);
      }
    }
  }

  /** What starting an image adds to a trace. */
  lemma ImageTrace(t: Trace, id: Id, png: seq<byte>)
    ensures var t' := Then(t, Started(id, ClipboardImage, png));
            && Kept(t') == Kept(t) && StartedFiles(t') == StartedFiles(t) && Origins(t') == Origins(t)[id := png]
            && (AckedSinceStart(t') <==> AckedSinceStart(t)) && LoggedIds(t') == LoggedIds(t)
  {
  }

  lemma SendImageKeeps(p: Peer, png: seq<byte>, env: Env)
    requires PeerInv(p)
    ensures PeerInv(SendImage(p, png, env).0)
  {
    hide IncInv, BookInv, ImageName, NoDup, ChunkCount;
    var o, o' := p.out, SendImage(p, png, env).0.out;
    if SendImage(p, png, env).1 {
      var id := Id(p.tag, false, o.sendSeq + 1);
      assert o'.trace == Then(o.trace, Started(id, ClipboardImage, png));
      NewSndShape(ClipboardImage, id, ImageName(o.sendSeq), None, png, p.sha, env.now);
      ImageTrace(o.trace, id, png);
      hide Kept, StartedFiles, Origins, AckedSinceStart, LoggedIds, SndShape;
      forall j | 0 <= j < |o'.queue| ensures o'.queue[j].id !in Origins(o'.trace) {
        assert Kept(o.trace)[|StartedFiles(o.trace)| + j] == QueueIds(o.queue)[j];
      }
    }
  }

  /** The slot holds an accepted send that was answered or broke off and is not logged. */
  ghost predicate RefusedUnlogged(o: Outgoing) {
    && o.send.Some? && o.send.value.confirmed
    && o.send.value.id in AcceptedIds(o.trace) && o.send.value.id !in LoggedIds(o.trace)
  }

  /** A clipboard image loses track of an accepted send exactly when it displaces such a send. */
  lemma SendImageConservesIff(p: Peer, png: seq<byte>, env: Env)
    requires PeerInv(p) && Conserved(p.out)
    requires SendImage(p, png, env).1
    ensures Conserved(SendImage(p, png, env).0.out) <==> !RefusedUnlogged(p.out)
  {
    var o, o' := p.out, SendImage(p, png, env).0.out;
    var id := Id(p.tag, false, o.sendSeq + 1);
    assert o'.trace == Then(o.trace, Started(id, ClipboardImage, png));
    if RefusedUnlogged(o) {
      var lost := o.send.value.id;
      assert lost in Origins(o.trace) && lost != id;
    }
  }

  lemma EmptySlotKeeps(p: Peer)
    requires OutCore(p.tag, p.out)
    ensures OutCore(p.tag, EmptySlot(p).out)
    ensures Conserved(p.out) && p.out.send.Some? && p.out.send.value.id in LoggedIds(p.out.trace) ==>
              Conserved(EmptySlot(p).out)
  {
  }

  /** Logging the send in the slot while emptying it. */
  lemma CloseSlotKeeps(p: Peer, outcome: Outcome)
    requires OutCore(p.tag, p.out) && BookInv(p.book) && p.out.send.Some?
    ensures var p' := LogSend(EmptySlot(p), SendRecord(p.out.send.value, outcome));
            OutCore(p.tag, p'.out) && BookInv(p'.book) && (Conserved(p.out) ==> Conserved(p'.out))
  {
    LogSendKeepsBook(EmptySlot(p), SendRecord(p.out.send.value, outcome));
  }

  lemma CancelSendKeeps(p: Peer, c: Channel, env: Env)
    requires PeerInv(p)
    ensures PeerInv(CancelSend(p, c, env).0)
    ensures Conserved(p.out) ==> Conserved(CancelSend(p, c, env).0.out)
  {
    if p.out.send.Some? {
      CloseSlotKeeps(p, Cancelled);
      StartNextKeeps(LogSend(EmptySlot(p), SendRecord(p.out.send.value, Cancelled)), env);
    }
  }

  lemma CancelSendIdKeeps(p: Peer, id: Id, c: Channel, env: Env)
    requires PeerInv(p)
    ensures PeerInv(CancelSendId(p, id, c, env).0)
    ensures Conserved(p.out) ==> Conserved(CancelSendId(p, id, c, env).0.out)
  {
    hide CancelSend, DropQueued, OutCore, IncInv, BookInv, Conserved;
    var i := QueuePosition(p.out.queue, id);
    if p.out.send.Some? && p.out.send.value.id == id {
      CancelSendKeeps(p, c, env);
    } else if i < |p.out.queue| {
      DropQueuedKeeps(p, i, Cancelled);
      DropSame(p, i, Cancelled);
      if Conserved(p.out) {
        DropQueuedConserves(p, i, Cancelled);
      }
    }
  }

  lemma DropSame(p: Peer, i: nat, outcome: Outcome)
    requires i < |p.out.queue|
    ensures var p' := DropQueued(p, i, outcome); p'.inc == p.inc && p'.tag == p.tag && p'.out.send == p.out.send
  {
  }

  /** What an answer, logged or not, adds to a trace. */
  lemma AckTrace(t: Trace, id: Id, kind: Kind, ok: bool, r: Record)
    requires r.id == id
    ensures var t1 := Then(t, Acked(id, kind, ok));
            var t' := if ok then Then(t1, Logged(r)) else t1;
            && Kept(t') == Kept(t) && StartedFiles(t') == StartedFiles(t) && Origins(t') == Origins(t)
            && AcceptedIds(t') == AcceptedIds(t) && (AckedSinceStart(t') <==> kind == File || AckedSinceStart(t))
            && LoggedIds(t') == if ok then LoggedIds(t) + {id} else LoggedIds(t)
  {
  }

  lemma OnAckKeeps(p: Peer, ok: bool)
    requires PeerInv(p) && p.out.send.Some?
    ensures PeerInv(OnAck(p, ok))
    ensures Conserved(p.out) ==> Conserved(OnAck(p, ok).out)
  {
    hide Kept, StartedFiles, Origins, AcceptedIds, AckedSinceStart, LoggedIds, IncInv, QueueIds, NoDup;
    var s := p.out.send.value;
    AckTrace(p.out.trace, s.id, s.kind, ok, SendRecord(s, Success));
    WriteKeepsBook(p.book, SendRecord(s, Success));
    AckShape(s, ok);
    SlotNotQueued(p);
    hide SndShape, BookInv;
  }

  lemma AckShape(s: Snd, ok: bool)
    requires SndShape(s)
    ensures SndShape(if ok then s.(confirmed := true) else s.(confirmed := true, failed := true))
  {
  }

  /** The send in the slot is not one of the queued ones. */
  lemma SlotNotQueued(p: Peer)
    requires PeerInv(p) && p.out.send.Some?
    ensures forall i :: 0 <= i < |p.out.queue| ==> p.out.queue[i].id != p.out.send.value.id
  {
    hide Kept, StartedFiles, Origins, AckedSinceStart, LoggedIds, IncInv, BookInv, QueueIds, NoDup, SndShape;
  }

  lemma {:induction false} AddMissingShape(resend: seq<nat>, missing: seq<nat>, total: nat)
    requires NoDup(resend) && forall i :: 0 <= i < |resend| ==> resend[i] < total
    ensures NoDup(AddMissing(resend, missing, total))
    ensures forall i :: 0 <= i < |AddMissing(resend, missing, total)| ==> AddMissing(resend, missing, total)[i] < total
    decreases |missing|
  {
    if missing != [] {
      var more := if missing[0] < total && missing[0] !in resend then resend + [missing[0]] else resend;
      AddMissingShape(more, missing[1..], total);
    }
  }

  lemma OnNackKeeps(p: Peer, m: Message)
    requires m.Nack? && PeerInv(p)
    ensures PeerInv(OnNack(p, m))
    ensures Conserved(p.out) ==> Conserved(OnNack(p, m).out)
  {
    if p.out.send.Some? {
      AddMissingShape(p.out.send.value.resend, m.missing, p.out.send.value.total);
    }
  }

  /** A tick leaves no refused or broken send in the slot. */
  lemma AdvanceSendKeeps(p: Peer, c: Channel, env: Env)
    requires PeerInv(p)
    ensures var p' := AdvanceSend(p, c, env).0;
            PeerInv(p') && p' == p.(out := p'.out, book := p'.book) && (p'.out.send.Some? ==> !p'.out.send.value.failed)
    ensures Conserved(p.out) ==> Conserved(AdvanceSend(p, c, env).0.out)
  {
    if p.out.send.Some? {
      var s, s1 := p.out.send.value, SndTick(p.out.send.value, c, env.now, env.unreadable).0;
      SndTickMove(s, c, env.now, env.unreadable);
      if s1.failed {
        assert SendRecord(s1, Failure) == SendRecord(s, Failure);
        CloseSlotKeeps(p, Failure);
        StartNextKeeps(LogSend(EmptySlot(p), SendRecord(s, Failure)), env);
      } else if s1.confirmed && p.out.queue != [] {
        EmptySlotKeeps(p);
        StartNextKeeps(EmptySlot(p), env);
      }
    }
  }

  lemma TickKeeps(p: Peer, c: Channel, env: Env)
    requires PeerInv(p)
    ensures PeerInv(Tick(p, c, env).0)
    ensures Conserved(p.out) ==> Conserved(Tick(p, c, env).0.out)
    ensures Tick(p, c, env).0.out.send.Some? ==> !Tick(p, c, env).0.out.send.value.failed
  {
    var p1 := ExpireReceivers(p, env.order, env.now);
    ExpireMove(p, env.order, env.now);
    ExpireCompletedMove(p1, env.now);
    var p2 := ExpireCompleted(p1, env.now);
    AdvanceSendKeeps(p2, c, env);
    var (p3, c3) := AdvanceSend(p2, c, env);
    RetryMove(p3, env.order, c3, env);
  }

  lemma HandleDataKeeps(p: Peer, m: Message, c: Channel, env: Env)
    requires PeerInv(p) && Covers(env.order, p.inc.completed.Keys)
    ensures PeerInv(HandleData(p, m, c, env).0)
    ensures Conserved(p.out) ==> Conserved(HandleData(p, m, c, env).0.out)
  {
    match m
    case Chunk(_, _, _) => OnChunkMove(p, m);
    case Meta(_, _, _, _, _, _) => OnMetaMove(p, m, env);
    case Done(id, ok) =>
      if p.out.send.Some? && p.out.send.value.id == id {
        OnAckKeeps(p, ok);
      } else {
        OnDoneMove(p, m, c, env);
      }
    case Cancel(_) => OnCancelMove(p, m);
    case Nack(_, _) => OnNackKeeps(p, m);
    case Request(path) => SendFileKeeps(p, path, env);
  }

  // ---- whole runs of one peer, against any messages ----

  datatype Step = Step(op: Op, verdicts: seq<bool>, env: Env)

  /** Hash maps are iterated over all their keys. */
  ghost predicate Fits(p: Peer, st: Step) {
    Covers(st.env.order, p.inc.recv.Keys + p.inc.completed.Keys)
  }

  ghost function After(p: Peer, st: Step): Peer
    requires SndShapes(p.out)
  {
    Apply(p, st.op, Channel([], st.verdicts), st.env).0
  }

  lemma SettingsKeep(p: Peer, dir: Option<Path>, allow: bool)
    requires PeerInv(p)
    ensures PeerInv(p.(inc := p.inc.(dir := dir))) && PeerInv(p.(inc := p.inc.(allowRequest := allow)))
    ensures PeerInv(p.(book := p.book.(history := []))) && PeerInv(p.(inc := p.inc.(image := None)))
  {
  }

  lemma StepKeeps(p: Peer, st: Step)
    requires PeerInv(p) && Fits(p, st)
    ensures PeerInv(After(p, st))
  {
    hide SendFile, SendImage, CancelSend, CancelSendId, Tick, HandleData, OutInv, IncInv, BookInv;
    var c, env := Channel([], st.verdicts), st.env;
    match st.op
    case OpSendFile(path) => SendFileKeeps(p, path, env);
    case OpSendImage(png) => SendImageKeeps(p, png, env);
    case OpCancelSend => CancelSendKeeps(p, c, env);
    case OpCancelSendId(id) => CancelSendIdKeeps(p, id, c, env);
    case OpTick => TickKeeps(p, c, env);
    case OpReceive(m) => HandleDataKeeps(p, m, c, env);
    case OpSetRecvDir(dir) => SettingsKeep(p, dir, true);
    case OpSetAllowRequest(allow) => SettingsKeep(p, None, allow);
    case _ => SettingsKeep(p, None, true);
  }

  lemma StepConserves(p: Peer, st: Step)
    requires PeerInv(p) && Fits(p, st)
    requires Conserved(p.out) && !st.op.OpSendImage?
    ensures Conserved(After(p, st).out)
  {
    hide SendFile, SendImage, CancelSend, CancelSendId, Tick, HandleData, OutInv, IncInv, BookInv, Conserved;
    var c, env := Channel([], st.verdicts), st.env;
    match st.op
    case OpSendFile(path) => SendFileKeeps(p, path, env);
    case OpCancelSend => CancelSendKeeps(p, c, env);
    case OpCancelSendId(id) => CancelSendIdKeeps(p, id, c, env);
    case OpTick => TickKeeps(p, c, env);
    case OpReceive(m) => HandleDataKeeps(p, m, c, env);
    case _ =>
  }

  ghost predicate Follows(p: Peer, st: Step, p': Peer) {
    && SndShapes(p.out) && Fits(p, st)
    && p' == After(p, st)
  }

  ghost predicate FollowsAt(ps: seq<Peer>, steps: seq<Step>, i: nat)
    requires i < |steps| && i + 1 < |ps|
  {
    Follows(ps[i], steps[i], ps[i + 1])
  }

  /** The states of a run: each is the one before it after one step. */
  ghost predicate IsRun(ps: seq<Peer>, steps: seq<Step>) {
    && |ps| == |steps| + 1
    && (exists tag, sha, dir :: ps[0] == NewPeer(tag, sha, dir))
    && forall i :: 0 <= i < |steps| ==> FollowsAt(ps, steps, i)
  }

  lemma NewPeerInv(tag: nat, sha: seq<byte> -> Digest, dir: Option<Path>)
    ensures PeerInv(NewPeer(tag, sha, dir)) && Conserved(NewPeer(tag, sha, dir).out)
  {
  }

  /** Whatever is called and whatever arrives, in any order: the tables stay bounded, the
      buffers well-formed, regular sends start in the order they were accepted, and completion
      is reported exactly when the last started send has been answered. */
  lemma {:induction false} RunKeepsInv(ps: seq<Peer>, steps: seq<Step>)
    requires IsRun(ps, steps)
    ensures forall i :: 0 <= i < |ps| ==> PeerInv(ps[i])
    ensures forall i :: 0 <= i < |ps| ==> (SendComplete(ps[i].out) <==> AckedSinceStart(ps[i].out.trace))
    decreases |steps|
  {
    hide PeerInv, SendComplete, After, Follows;
    var n := |steps|;
    if n == 0 {
      var tag, sha, dir :| ps[0] == NewPeer(tag, sha, dir);
      NewPeerInv(tag, sha, dir);
    } else {
      var before, earlier := ps[..n], steps[..n - 1];
      forall i | 0 <= i < n - 1 ensures FollowsAt(before, earlier, i) {
        assert FollowsAt(ps, steps, i);
      }
      RunKeepsInv(before, earlier);
      assert ps[n - 1] == ps[..n][n - 1];
      assert FollowsAt(ps, steps, n - 1);
      FollowsKeeps(ps[n - 1], steps[n - 1], ps[n]);
      forall i | 0 <= i < |ps| ensures PeerInv(ps[i]) {
        assert i < n ==> ps[i] == ps[..n][i];
      }
    }
    forall i | 0 <= i < |ps| ensures SendComplete(ps[i].out) <==> AckedSinceStart(ps[i].out.trace) {
      CompleteIffAcked(ps[i]);
    }
  }

  lemma FollowsKeeps(p: Peer, st: Step, p': Peer)
    requires PeerInv(p) && Follows(p, st, p')
    ensures PeerInv(p')
  {
    hide PeerInv, After;
    StepKeeps(p, st);
  }

  lemma CompleteIffAcked(p: Peer)
    requires PeerInv(p)
    ensures SendComplete(p.out) <==> AckedSinceStart(p.out.trace)
  {
  }

  /** The agent polls the clipboard only right after a tick. */
  ghost predicate AgentOrder(steps: seq<Step>) {
    forall i :: 0 <= i < |steps| && steps[i].op.OpSendImage? ==> i > 0 && steps[i - 1].op.OpTick?
  }

  /** Under the agent's order of events every accepted send is always exactly one of: in the
      slot without a record, queued, or logged. */
  lemma {:induction false} AgentConserves(ps: seq<Peer>, steps: seq<Step>, i: nat, id: Id)
    requires IsRun(ps, steps) && AgentOrder(steps)
    requires i < |ps| && id in AcceptedIds(ps[i].out.trace)
    ensures var o := ps[i].out;
            var active := o.send.Some? && o.send.value.id == id && id !in LoggedIds(o.trace);
            var waits := id in QueueIds(o.queue);
            var logged := id in LoggedIds(o.trace);
            (active && !waits && !logged) || (!active && waits && !logged) || (!active && !waits && logged)
  {
    RunKeepsInv(ps, steps);
    ConservedThroughout(ps, steps, i);
    var o := ps[i].out;
    if id in QueueIds(o.queue) {
      var j :| 0 <= j < |o.queue| && QueueIds(o.queue)[j] == id;
      assert o.queue[j].id !in LoggedIds(o.trace) && o.queue[j].id !in Origins(o.trace);
    }
  }

  /** Right after a tick the slot holds nothing that was refused. */
  lemma TickClears(p: Peer, st: Step)
    requires PeerInv(p) && st.op.OpTick?
    ensures After(p, st).out.send.Some? ==> !After(p, st).out.send.value.failed
  {
    hide SendFile, SendImage, CancelSend, CancelSendId, Tick, HandleData,
         IncInv, BookInv, Kept, StartedFiles, Origins, LoggedIds;
    TickKeeps(p, Channel([], st.verdicts), st.env);
  }

  lemma {:induction false} ConservedThroughout(ps: seq<Peer>, steps: seq<Step>, i: nat)
    requires IsRun(ps, steps) && AgentOrder(steps) && i < |ps|
    requires forall j :: 0 <= j < |ps| ==> PeerInv(ps[j])
    ensures Conserved(ps[i].out)
  {
    hide After, PeerInv;
    if i == 0 {
      assert ps[0].out.trace == Fresh;
    } else {
      var p, st := ps[i - 1], steps[i - 1];
      ConservedThroughout(ps, steps, i - 1);
      assert FollowsAt(ps, steps, i - 1);
      if st.op.OpSendImage? {
        assert FollowsAt(ps, steps, i - 2);
        TickClears(ps[i - 2], steps[i - 2]);
        ImageAfterTick(p, st);
      } else {
        StepConserves(p, st);
      }
    }
  }

  lemma ImageAfterTick(p: Peer, st: Step)
    requires PeerInv(p) && Conserved(p.out) && st.op.OpSendImage?
    requires p.out.send.Some? ==> !p.out.send.value.failed
    ensures Conserved(After(p, st).out)
  {
    if SendImage(p, st.op.png, st.env).1 {
      SendImageConservesIff(p, st.op.png, st.env);
    }
  }
}
