/** Two peers over a network that loses, repeats and reorders messages: whatever a peer commits
    is what the other one started to send, and a send is only reported as delivered when the
    other side has committed it. */
module FileNetwork {
  import opened Bytes
  import opened FileProtocol
  import opened TransferSpec
  import opened PeerRuns
  import opened SendRuns

  // ---- what a peer has sent and stored ----

  ghost function CommitIds(i: Incoming): set<Id> {
    set k | 0 <= k < |i.commits| :: i.commits[k].id
  }

  datatype Known = Known(tag: nat, sha: seq<byte> -> Digest, origins: map<Id, seq<byte>>, committed: set<Id>)

  ghost function Know(p: Peer): Known {
    Known(p.tag, p.sha, Origins(p.out.trace), CommitIds(p.inc))
  }

  /** What is known only grows, and the content of an id never changes. */
  ghost predicate Grows(k: Known, k': Known) {
    && k'.tag == k.tag && k'.sha == k.sha
    && (forall id :: id in k.origins ==> id in k'.origins && k'.origins[id] == k.origins[id])
    && k.committed <= k'.committed
  }

  /** `m` is a message that a peer with this knowledge sends: meta data and chunks describe the
      content started under their id, and a positive Done for an id of the other side is only
      sent once that id is committed. */
  ghost predicate Genuine(k: Known, m: Message) {
    match m
    case Meta(id, _, size, chunks, hash, _) =>
      && id in k.origins && size == |k.origins[id]| && chunks == ChunkCount(size) && hash == Some(k.sha(k.origins[id]))
    case Chunk(id, index, payload) =>
      id in k.origins && index < ChunkCount(|k.origins[id]|) && payload == Slice(k.origins[id], index)
    case Done(id, ok) => ok && id.peer != k.tag ==> id in k.committed
    case _ => true
  }

  lemma GenuineGrows(k: Known, k': Known, m: Message)
    requires Genuine(k, m) && Grows(k, k')
    ensures Genuine(k', m)
  {
  }

  ghost predicate SentOk(k: Known, c: Channel, c': Channel) {
    forall m :: m in c'.sent ==> m in c.sent || Genuine(k, m)
  }

  // ---- buffers hold what was sent ----

  /** Every chunk flagged as received is in place. */
  ghost predicate Holds(r: Rcv, content: seq<byte>) {
    && RcvShape(r)
    && r.size == |content|
    && forall i :: 0 <= i < r.total && r.flags[i] ==> HoldsChunk(r.buf, content, i)
  }

  ghost predicate HoldsChunk(buf: seq<byte>, content: seq<byte>, i: nat)
    requires |buf| == |content|
  {
    i < ChunkCount(|content|) && (ChunkBounds(|content|, i); Slice(buf, i) == Slice(content, i))
  }

  lemma ChunkWriteKeeps(buf: seq<byte>, content: seq<byte>, at: nat, i: nat)
    requires |buf| == |content| && at < ChunkCount(|content|)
    requires i == at || HoldsChunk(buf, content, i)
    ensures ChunkStart(at) + |Slice(content, at)| <= |buf|
    ensures |Overwrite(buf, ChunkStart(at), Slice(content, at))| == |content|
    ensures HoldsChunk(Overwrite(buf, ChunkStart(at), Slice(content, at)), content, i)
  {
    ChunkBounds(|content|, at);
    ChunkBounds(|content|, i);
    var start, payload := ChunkStart(at), Slice(content, at);
    var buf' := Overwrite(buf, start, payload);
    var lo, hi := ChunkStart(i), ChunkEnd(|content|, i);
    if i != at {
      assert hi <= start || start + |payload| <= lo;
      assert forall j :: lo <= j < hi ==> buf'[j] == buf[j];
    }
    assert buf'[lo..hi] == content[lo..hi] by {
      if i != at {
        assert buf[lo..hi] == content[lo..hi];
        assert buf'[lo..hi] == buf[lo..hi];
      }
    }
  }

  lemma ChunkHolds(r: Rcv, content: seq<byte>, index: nat)
    requires Holds(r, content) && index < ChunkCount(|content|)
    ensures Holds(RcvChunk(r, index, Slice(content, index)), content)
  {
    var payload := Slice(content, index);
    RcvChunkShape(r, index, payload);
    ChunkWriteKeeps(r.buf, content, index, index);
    var r' := RcvChunk(r, index, payload);
    forall i | 0 <= i < r'.total && r'.flags[i] ensures HoldsChunk(r'.buf, content, i) {
      ChunkWriteKeeps(r.buf, content, index, i);
    }
  }

  /** When every flag is set the buffer is the content. */
  lemma AllHeld(r: Rcv, content: seq<byte>)
    requires Holds(r, content) && r.received == r.total
    ensures r.buf == content
  {
    CountAllTrue(r.flags);
    forall j | 0 <= j < |content| ensures r.buf[j] == content[j] {
      var i := j / CHUNK_SIZE;
      assert i < ChunkCount(|content|);
      assert HoldsChunk(r.buf, content, i);
      ChunkBounds(|content|, i);
      assert Slice(r.buf, i)[j - ChunkStart(i)] == Slice(content, i)[j - ChunkStart(i)];
    }
  }

  /** The receiving side of a peer agrees with what the other peer (`k`) has started. */
  ghost predicate ReceivesFrom(k: Known, i: Incoming) {
    && (forall id :: id in i.recv ==> id in k.origins && Holds(i.recv[id], k.origins[id]))
    && (forall id :: id in i.completed ==> id in CommitIds(i))
    && (forall n :: 0 <= n < |i.commits| ==>
          i.commits[n].id in k.origins && i.commits[n].content == k.origins[i.commits[n].id])
  }

  lemma ReceivesGrows(k: Known, k': Known, i: Incoming)
    requires ReceivesFrom(k, i) && Grows(k, k')
    ensures ReceivesFrom(k', i)
  {
  }

  lemma CommitAppends(i: Incoming, i': Incoming, d: Committed)
    requires i'.commits == i.commits + [d]
    ensures CommitIds(i') == CommitIds(i) + {d.id}
  {
    forall id | id in CommitIds(i) + {d.id} ensures id in CommitIds(i') {
      if id == d.id {
        assert i'.commits[|i.commits|].id == id;
      } else {
        var n :| 0 <= n < |i.commits| && i.commits[n].id == id;
        assert i'.commits[n].id == id;
      }
    }
  }

  // ---- what is reported as delivered ----

  ghost predicate DeliveredRecord(r: Record) {
    r.direction == Sending && r.outcome == Success
  }

  /** No new record of a delivery. */
  ghost predicate NoNewDelivery(b: Book, b': Book) {
    forall r :: r in b'.all && DeliveredRecord(r) ==> r in b.all
  }

  /** Everything reported as delivered has been committed by the other side. */
  ghost predicate Truthful(p: Peer, other: Known) {
    && AckedOk(p.out.trace) <= other.committed
    && forall r :: r in p.book.all && DeliveredRecord(r) ==> r.id in other.committed
  }

  // ---- receiving: genuine messages keep the agreement, replies are genuine ----

  /** Effect of receiving on a peer: what it stored still agrees with the other side `k`, its own
      knowledge grows, and what it sends is genuine. */
  ghost predicate GoodReceive(k: Known, p: Peer, c: Channel, p': Peer, c': Channel) {
    && p'.out == p.out && p'.tag == p.tag && p'.sha == p.sha
    && (ReceivesFrom(k, p.inc) ==> ReceivesFrom(k, p'.inc))
    && CommitIds(p.inc) <= CommitIds(p'.inc)
    && SentOk(Know(p'), c, c')
    && NoNewDelivery(p.book, p'.book)
  }

  lemma GoodReceiveTransitive(k: Known, p: Peer, c: Channel, p1: Peer, c1: Channel, p2: Peer, c2: Channel)
    requires GoodReceive(k, p, c, p1, c1) && GoodReceive(k, p1, c1, p2, c2)
    ensures GoodReceive(k, p, c, p2, c2)
  {
    forall m | m in c2.sent ensures m in c.sent || Genuine(Know(p2), m) {
      if m in c1.sent && m !in c.sent {
        GenuineGrows(Know(p1), Know(p2), m);
      }
    }
  }

  lemma ResendGood(k: Known, p: Peer, id: Id, r: Rcv, c: Channel, env: Env)
    requires id in k.origins && Holds(r, k.origins[id])
    ensures GoodReceive(k, p, c, RequestResend(p, id, r, c, env).0, RequestResend(p, id, r, c, env).1)
  {
    hide HoldsChunk;
  }

  lemma CommitGood(k: Known, p: Peer, id: Id, r: Rcv, c: Channel, env: Env)
    requires id in k.origins && Holds(r, k.origins[id]) && r.received == r.total
    ensures GoodReceive(k, p, c, Commit(p, id, r, c, env).0, Commit(p, id, r, c, env).1)
  {
    hide Holds, Remember, CommitIds, ReceivesFrom;
    AllHeld(r, k.origins[id]);
    RememberKeys(p.inc.completed, id, env);
    var p' := Commit(p, id, r, c, env).0;
    if r.kind != File || (p.inc.dir.Some? && env.writable) {
      CommitAppends(p.inc, p'.inc, TransferSpec.Committed(id, r.name, r.buf));
      if ReceivesFrom(k, p.inc) {
        CommitReceives(k, p.inc, p'.inc, TransferSpec.Committed(id, r.name, r.buf));
      }
    }
  }

  lemma CommitReceives(k: Known, i: Incoming, i': Incoming, d: Committed)
    requires ReceivesFrom(k, i) && i'.recv == i.recv && i'.commits == i.commits + [d]
    requires i'.completed.Keys <= i.completed.Keys + {d.id}
    requires d.id in k.origins && d.content == k.origins[d.id]
    ensures ReceivesFrom(k, i')
  {
    CommitAppends(i, i', d);
    hide Holds, CommitIds;
    assert forall x :: x in i'.completed ==> x in i.completed || x == d.id;
  }

  lemma RememberKeys(completed: map<Id, nat>, id: Id, env: Env)
    ensures Remember(completed, id, env).Keys <= completed.Keys + {id}
  {
  }

  lemma DropGood(k: Known, p: Peer, id: Id, c: Channel)
    ensures GoodReceive(k, p, c, DropRcv(p, id), c)
  {
  }

  lemma OnDoneGood(k: Known, p: Peer, m: Message, c: Channel, env: Env)
    requires m.Done? && ReceivesFrom(k, p.inc)
    ensures GoodReceive(k, p, c, OnDone(p, m, c, env).0, OnDone(p, m, c, env).1)
  {
    hide RequestResend, Commit;
    if m.id in p.inc.recv {
      var r, p1 := p.inc.recv[m.id], DropRcv(p, m.id);
      var (p2, c2) := OnDone(p, m, c, env);
      DropGood(k, p, m.id, c);
      if !m.ok {
      } else if r.received != r.total || (r.hash.Some? && p.sha(r.buf) != r.hash.value) {
        ResendGood(k, p1, m.id, r, c, env);
        GoodReceiveTransitive(k, p, c, p1, c, p2, c2);
      } else {
        CommitGood(k, p1, m.id, r, c, env);
        GoodReceiveTransitive(k, p, c, p1, c, p2, c2);
      }
    }
  }

  lemma OnMetaGood(k: Known, p: Peer, m: Message, c: Channel, env: Env)
    requires m.Meta? && Genuine(k, m)
    ensures GoodReceive(k, p, c, OnMeta(p, m, env), c)
  {
    hide SafeFileName, RcvShape, ReceivesFrom;
    if m.size > 0 && m.chunks == ChunkCount(m.size) {
      var name := if m.kind == ClipboardImage then "clipboard-image.png" else SafeFileName(m.name);
      NewHolds(m.kind, name, k.origins[m.id], m.hash, env.now);
      PutGood(k, p, m.id, NewRcv(m.kind, name, m.size, m.chunks, m.hash, env.now), c);
    }
    hide NewRcv, ChunkCount;
  }

  lemma NewHolds(kind: Kind, name: string, content: seq<byte>, hash: Option<Digest>, now: nat)
    requires |content| > 0
    ensures Holds(NewRcv(kind, name, |content|, ChunkCount(|content|), hash, now), content)
  {
    CountNone(ChunkCount(|content|));
  }

  /** A buffer that holds the content may be kept under its id. */
  lemma PutGood(k: Known, p: Peer, id: Id, r: Rcv, c: Channel)
    requires id in k.origins && (ReceivesFrom(k, p.inc) ==> Holds(r, k.origins[id]))
    ensures GoodReceive(k, p, c, PutRcv(p, id, r), c)
  {
    hide Holds, CommitIds;
    assert CommitIds(PutRcv(p, id, r).inc) == CommitIds(p.inc) by {
      SameCommits(p.inc, PutRcv(p, id, r).inc);
    }
  }

  lemma SameCommits(i: Incoming, i': Incoming)
    requires i'.commits == i.commits
    ensures CommitIds(i') == CommitIds(i)
  {
  }

  lemma OnChunkGood(k: Known, p: Peer, m: Message, c: Channel)
    requires m.Chunk? && Genuine(k, m) && RcvShapes(p.inc)
    ensures GoodReceive(k, p, c, OnChunk(p, m), c)
  {
    hide Holds, RcvChunk, ReceivesFrom, RcvShape, Slice;
    if m.id in p.inc.recv {
      var r := p.inc.recv[m.id];
      if ReceivesFrom(k, p.inc) {
        HeldBy(k, p.inc, m.id);
        ChunkHolds(r, k.origins[m.id], m.index);
      }
      PutGood(k, p, m.id, RcvChunk(r, m.index, m.payload), c);
    } else {
      NothingGood(k, p, c);
    }
  }

  lemma HeldBy(k: Known, i: Incoming, id: Id)
    requires ReceivesFrom(k, i) && id in i.recv
    ensures id in k.origins && Holds(i.recv[id], k.origins[id])
  {
  }

  lemma NothingGood(k: Known, p: Peer, c: Channel)
    ensures GoodReceive(k, p, c, p, c)
  {
  }

  lemma OnCancelGood(k: Known, p: Peer, m: Message, c: Channel)
    requires m.Cancel?
    ensures GoodReceive(k, p, c, OnCancel(p, m), c)
  {
  }

  lemma {:induction false} ExpireGood(k: Known, p: Peer, order: seq<Id>, now: nat, c: Channel)
    ensures GoodReceive(k, p, c, ExpireReceivers(p, order, now), c)
    decreases |order|
  {
    if order != [] {
      var id := order[0];
      if id in p.inc.recv && Expired(p.inc.recv[id], now) {
        var p1 := LogReceive(DropRcv(p, id), id, p.inc.recv[id], Failure);
        ExpireGood(k, p1, order[1..], now, c);
        GoodReceiveTransitive(k, p, c, p1, c, ExpireReceivers(p1, order[1..], now), c);
      } else {
        ExpireGood(k, p, order[1..], now, c);
      }
    }
  }

  lemma {:induction false} RetryGood(k: Known, p: Peer, order: seq<Id>, c: Channel, env: Env)
    requires ReceivesFrom(k, p.inc)
    ensures GoodReceive(k, p, c, RetryNacks(p, order, c, env).0, RetryNacks(p, order, c, env).1)
    decreases |order|
  {
    if order != [] {
      var id := order[0];
      if id in p.inc.recv && NackDue(p.inc.recv[id], env.now) {
        var p0 := DropRcv(p, id);
        var (p1, c1) := RequestResend(p0, id, p.inc.recv[id], c, env);
        DropGood(k, p, id, c);
        ResendGood(k, p0, id, p.inc.recv[id], c, env);
        GoodReceiveTransitive(k, p, c, p0, c, p1, c1);
        RetryGood(k, p1, order[1..], c1, env);
        var (p2, c2) := RetryNacks(p1, order[1..], c1, env);
        GoodReceiveTransitive(k, p, c, p1, c1, p2, c2);
      } else {
        RetryGood(k, p, order[1..], c, env);
      }
    }
  }

  // ---- sending ----

  /** Effect of a sending operation: nothing stored changes, knowledge grows, what is sent is
      genuine, no delivery is reported. */
  ghost predicate GoodSend(p: Peer, c: Channel, p': Peer, c': Channel) {
    && p'.inc == p.inc
    && Grows(Know(p), Know(p'))
    && SentOk(Know(p'), c, c')
    && (SlotGenuine(p) ==> SlotGenuine(p'))
    && AckedOk(p'.out.trace) == AckedOk(p.out.trace)
    && NoNewDelivery(p.book, p'.book)
  }

  ghost predicate SlotGenuine(p: Peer) {
    p.out.send.Some? ==> p.out.send.value.hash == p.sha(p.out.send.value.content)
  }

  lemma GoodSendTransitive(p: Peer, c: Channel, p1: Peer, c1: Channel, p2: Peer, c2: Channel)
    requires GoodSend(p, c, p1, c1) && GoodSend(p1, c1, p2, c2)
    ensures GoodSend(p, c, p2, c2)
  {
    forall m | m in c2.sent ensures m in c.sent || Genuine(Know(p2), m) {
      if m in c1.sent && m !in c.sent {
        GenuineGrows(Know(p1), Know(p2), m);
      }
    }
  }

  /** The sender stands for its id in the knowledge. */
  ghost predicate Backed(k: Known, s: Snd) {
    SndShape(s) && s.id in k.origins && k.origins[s.id] == s.content && s.hash == k.sha(s.content) && s.id.peer == k.tag
  }

  lemma {:induction false} BurstGood(k: Known, s: Snd, c: Channel, unreadable: set<nat>, left: nat)
    requires Backed(k, s)
    ensures SentOk(k, c, BurstStep(s, c, unreadable, left).1)
    decreases left
  {
    if left > 0 && s.nextChunk < s.total && !ReadFails(s, s.nextChunk, unreadable) {
      var c' := Push(c, Chunk(s.id, s.nextChunk, Slice(s.content, s.nextChunk)));
      assert SentOk(k, c, c');
      if Accepts(c) {
        BurstGood(k, s.(nextChunk := s.nextChunk + 1), c', unreadable, left - 1);
      }
    }
  }

  lemma SndTickGood(k: Known, s: Snd, c: Channel, now: nat, unreadable: set<nat>)
    requires Backed(k, s)
    ensures SentOk(k, c, SndTick(s, c, now, unreadable).1)
  {
    hide MetaStep, ResendStep, BurstStep, DoneStep, Genuine, SndShape;
    if !s.confirmed && now >= s.startAfter {
      var (s1, c1) := MetaStep(s, c, now);
      MetaGood(k, s, c, now);
      if s1.metaSent {
        if s1.resend != [] {
          ResendStepGood(k, s1, c1, unreadable);
        } else if s1.nextChunk < s1.total {
          BurstGood(k, s1, c1, unreadable, BURST);
        } else {
          DoneGood(k, s1, c1, now);
        }
      }
    }
  }

  lemma MetaGood(k: Known, s: Snd, c: Channel, now: nat)
    requires Backed(k, s)
    ensures SentOk(k, c, MetaStep(s, c, now).1) && Backed(k, MetaStep(s, c, now).0)
  {
  }

  lemma ResendStepGood(k: Known, s: Snd, c: Channel, unreadable: set<nat>)
    requires Backed(k, s) && s.resend != []
    ensures SentOk(k, c, ResendStep(s, c, unreadable).1)
  {
    hide Slice;
  }

  lemma DoneGood(k: Known, s: Snd, c: Channel, now: nat)
    requires Backed(k, s)
    ensures SentOk(k, c, DoneStep(s, c, now).1)
  {
    hide SndShape;
  }

  lemma DropQueuedGood(p: Peer, i: nat, outcome: Outcome, c: Channel)
    requires i < |p.out.queue| && outcome != Success
    ensures GoodSend(p, c, DropQueued(p, i, outcome), c)
  {
    var p' := DropQueued(p, i, outcome);
    var t1 := Then(p.out.trace, Dropped(p.out.queue[i].id));
    assert p'.out.trace == Then(t1, Logged(QueueRecord(p.out.queue[i], outcome)));
    assert Origins(p'.out.trace) == Origins(t1) == Origins(p.out.trace);
    assert AckedOk(p'.out.trace) == AckedOk(t1);
  }

  lemma LaunchGood(p: Peer, id: Id, path: Path, env: Env, c: Channel)
    requires path in env.disk && id !in Origins(p.out.trace)
    ensures GoodSend(p, c, Launch(p, id, path, env), c)
  {
    var p' := Launch(p, id, path, env);
    assert p'.out.trace == Then(p.out.trace, Started(id, File, env.disk[path]));
  }

  lemma StartHeadGood(p: Peer, env: Env, c: Channel)
    requires OutCore(p.tag, p.out) && p.out.queue != [] && Openable(p.out.queue[0].path, env)
    ensures GoodSend(p, c, Launch(p.(out := p.out.(queue := p.out.queue[1..])), p.out.queue[0].id,
                                  p.out.queue[0].path, env), c)
  {
    LaunchGood(p.(out := p.out.(queue := p.out.queue[1..])), p.out.queue[0].id, p.out.queue[0].path, env, c);
  }

  lemma {:induction false} StartNextGood(p: Peer, env: Env, c: Channel)
    requires OutCore(p.tag, p.out) && BookInv(p.book) && p.out.send.None?
    ensures GoodSend(p, c, StartNext(p, env), c)
    decreases |p.out.queue|
  {
    if p.out.queue != [] {
      var q := p.out.queue[0];
      if Openable(q.path, env) {
        StartHeadGood(p, env, c);
      } else {
        var p1 := DropQueued(p, 0, Failure);
        DropQueuedKeeps(p, 0, Failure);
        DropQueuedGood(p, 0, Failure, c);
        assert p1.out.queue == p.out.queue[1..] && p1.out.send == p.out.send && p1.tag == p.tag;
        StartNextGood(p1, env, c);
        GoodSendTransitive(p, c, p1, c, StartNext(p1, env), c);
      }
    }
  }

  lemma SendFileGood(p: Peer, path: Path, env: Env, c: Channel)
    requires PeerInv(p)
    ensures GoodSend(p, c, SendFile(p, path, env).0, c)
  {
    FreshId(p);
    hide PeerInv, Launch, GoodSend, SendName;
    if SendFile(p, path, env).1 {
      var id := Id(p.tag, p.out.send.Some?, p.out.sendSeq);
      if p.out.send.None? {
        var p1 := p.(out := Note(p.out, Accepted(id)));
        AcceptGood(p, p1.out, id, c);
        LaunchGood(p1, id, path, env, c);
        GoodSendTransitive(p, c, p1, c, SendFile(p, path, env).0, c);
      } else {
        AcceptGood(p, SendFile(p, path, env).0.out, id, c);
      }
    } else {
      SameGood(p, c);
    }
  }

  lemma SameGood(p: Peer, c: Channel)
    ensures GoodSend(p, c, p, c)
  {
  }

  lemma FreshId(p: Peer)
    requires PeerInv(p)
    ensures forall id :: id in Origins(p.out.trace) ==> id.seqNo < p.out.sendSeq
  {
    hide SndShapes, Fifo, Recorded, Sticky, IncInv, BookInv;
  }

  lemma AcceptGood(p: Peer, o: Outgoing, id: Id, c: Channel)
    requires o.trace == Then(p.out.trace, Accepted(id)) && o.send == p.out.send
    ensures GoodSend(p, c, p.(out := o), c) && Origins(o.trace) == Origins(p.out.trace)
  {
  }

  lemma SendImageGood(p: Peer, png: seq<byte>, env: Env, c: Channel)
    requires PeerInv(p)
    ensures GoodSend(p, c, SendImage(p, png, env).0, c)
  {
    FreshId(p);
    hide PeerInv, GoodSend;
    if SendImage(p, png, env).1 {
      ImageGood(p, png, env, c);
    } else {
      SameGood(p, c);
    }
  }

  lemma ImageGood(p: Peer, png: seq<byte>, env: Env, c: Channel)
    requires SendImage(p, png, env).1 && Id(p.tag, false, p.out.sendSeq + 1) !in Origins(p.out.trace)
    ensures GoodSend(p, c, SendImage(p, png, env).0, c)
  {
    hide ImageName, ChunkCount, Genuine;
    var p' := SendImage(p, png, env).0;
    assert p'.out.trace == Then(p.out.trace, Started(Id(p.tag, false, p.out.sendSeq + 1), ClipboardImage, png));
  }

  lemma CloseSlotGood(p: Peer, outcome: Outcome, c: Channel)
    requires p.out.send.Some? && outcome != Success
    ensures GoodSend(p, c, LogSend(EmptySlot(p), SendRecord(p.out.send.value, outcome)), c)
  {
    assert LogSend(EmptySlot(p), SendRecord(p.out.send.value, outcome)).out.trace
        == Then(p.out.trace, Logged(SendRecord(p.out.send.value, outcome)));
  }

  lemma CancelSendGood(p: Peer, c: Channel, env: Env)
    requires PeerInv(p)
    ensures GoodSend(p, c, CancelSend(p, c, env).0, CancelSend(p, c, env).1)
  {
    if p.out.send.Some? {
      var p1 := LogSend(EmptySlot(p), SendRecord(p.out.send.value, Cancelled));
      CloseSlotGood(p, Cancelled, c);
      CloseSlotKeeps(p, Cancelled);
      StartNextGood(p1, env, c);
      GoodSendTransitive(p, c, p1, c, StartNext(p1, env), c);
    }
  }

  lemma CancelSendIdGood(p: Peer, id: Id, c: Channel, env: Env)
    requires PeerInv(p)
    ensures GoodSend(p, c, CancelSendId(p, id, c, env).0, CancelSendId(p, id, c, env).1)
  {
    var i := QueuePosition(p.out.queue, id);
    if p.out.send.Some? && p.out.send.value.id == id {
      CancelSendGood(p, c, env);
    } else if i < |p.out.queue| {
      DropQueuedGood(p, i, Cancelled, c);
    }
  }

  lemma AdvanceSendGood(p: Peer, c: Channel, env: Env)
    requires PeerInv(p) && SlotGenuine(p)
    ensures GoodSend(p, c, AdvanceSend(p, c, env).0, AdvanceSend(p, c, env).1)
  {
    if p.out.send.Some? {
      hide SndTick, StartNext, GoodSend, SlotGenuine, OutCore, IncInv, BookInv;
      var s := p.out.send.value;
      var (s1, c1) := SndTick(s, c, env.now, env.unreadable);
      TickedGood(p, c, env);
      var p0 := p.(out := p.out.(send := Some(s1)));
      if s1.failed {
        var p1 := LogSend(EmptySlot(p), SendRecord(s1, Failure));
        CloseSlotGood(p0, Failure, c1);
        assert p1 == LogSend(EmptySlot(p0), SendRecord(s1, Failure));
        CloseSlotKeeps(p, Failure);
        StartNextGood(p1, env, c1);
        GoodSendTransitive(p, c, p0, c1, p1, c1);
        GoodSendTransitive(p, c, p1, c1, StartNext(p1, env), c1);
      } else if s1.confirmed && p.out.queue != [] {
        var p1 := EmptySlot(p0);
        EmptyGood(p0, c1);
        GoodSendTransitive(p, c, p0, c1, p1, c1);
        EmptySlotKeeps(p);
        StartNextGood(p1, env, c1);
        GoodSendTransitive(p, c, p1, c1, StartNext(p1, env), c1);
      }
    } else {
      SameGood(p, c);
    }
  }

  lemma EmptyGood(p: Peer, c: Channel)
    ensures GoodSend(p, c, EmptySlot(p), c)
  {
  }

  /** The slot after its tick, still in place. */
  lemma TickedGood(p: Peer, c: Channel, env: Env)
    requires PeerInv(p) && SlotGenuine(p) && p.out.send.Some?
    ensures SndShape(p.out.send.value)
    ensures var s := p.out.send.value;
            var (s1, c1) := SndTick(s, c, env.now, env.unreadable);
            && GoodSend(p, c, p.(out := p.out.(send := Some(s1))), c1)
            && SendRecord(s1, Failure) == SendRecord(s, Failure)
  {
    SlotBacked(p);
    hide SndTick, PeerInv, SndShape, Genuine;
    var s := p.out.send.value;
    SndTickMove(s, c, env.now, env.unreadable);
    SndTickGood(Know(p), s, c, env.now, env.unreadable);
  }

  lemma SlotBacked(p: Peer)
    requires PeerInv(p) && SlotGenuine(p) && p.out.send.Some?
    ensures Backed(Know(p), p.out.send.value) && SndShape(p.out.send.value)
  {
    hide Fifo, Recorded, Sticky, IncInv, BookInv;
  }

  /** The one operation that reports a delivery: the acknowledgement named a committed id. */
  lemma OnAckGood(p: Peer, ok: bool, k: Known, c: Channel)
    requires p.out.send.Some? && Truthful(p, k)
    requires ok ==> p.out.send.value.id in k.committed
    ensures var p' := OnAck(p, ok);
            && p'.inc == p.inc && Grows(Know(p), Know(p')) && (SlotGenuine(p) ==> SlotGenuine(p'))
            && Truthful(p', k)
  {
    var s, p' := p.out.send.value, OnAck(p, ok);
    var t1 := Then(p.out.trace, Acked(s.id, s.kind, ok));
    if ok {
      assert p'.out.trace == Then(t1, Logged(SendRecord(s, Success)));
    } else {
      assert p'.out.trace == t1;
    }
    assert Origins(p'.out.trace) == Origins(t1) == Origins(p.out.trace);
    assert AckedOk(p'.out.trace) == AckedOk(t1);
  }

  lemma OnNackGood(p: Peer, m: Message, c: Channel)
    requires m.Nack?
    ensures GoodSend(p, c, OnNack(p, m), c)
  {
  }

  // ---- one operation ----

  /** What any operation of a peer does, `k` being what the other side has started and stored. */
  ghost predicate GoodMove(k: Known, p: Peer, c: Channel, p': Peer, c': Channel) {
    && Grows(Know(p), Know(p'))
    && (ReceivesFrom(k, p.inc) ==> ReceivesFrom(k, p'.inc))
    && SentOk(Know(p'), c, c')
    && (SlotGenuine(p) ==> SlotGenuine(p'))
    && (Truthful(p, k) ==> Truthful(p', k))
  }

  lemma SendIsGood(k: Known, p: Peer, c: Channel, p': Peer, c': Channel)
    requires GoodSend(p, c, p', c')
    ensures GoodMove(k, p, c, p', c')
  {
  }

  lemma ReceiveIsGood(k: Known, p: Peer, c: Channel, p': Peer, c': Channel)
    requires GoodReceive(k, p, c, p', c')
    ensures GoodMove(k, p, c, p', c')
  {
  }

  lemma GoodMoveTransitive(k: Known, p: Peer, c: Channel, p1: Peer, c1: Channel, p2: Peer, c2: Channel)
    requires GoodMove(k, p, c, p1, c1) && GoodMove(k, p1, c1, p2, c2)
    ensures GoodMove(k, p, c, p2, c2)
  {
    forall m | m in c2.sent ensures m in c.sent || Genuine(Know(p2), m) {
      if m in c1.sent && m !in c.sent {
        GenuineGrows(Know(p1), Know(p2), m);
      }
    }
  }

  lemma TickGood(k: Known, p: Peer, c: Channel, env: Env)
    requires PeerInv(p) && SlotGenuine(p) && ReceivesFrom(k, p.inc)
    ensures GoodMove(k, p, c, Tick(p, c, env).0, Tick(p, c, env).1)
  {
    hide SlotGenuine, ReceivesFrom, RetryNacks, AdvanceSend, GoodMove, GoodSend, GoodReceive, IncInv, BookInv;
    var p0 := ExpireReceivers(p, env.order, env.now);
    var p1 := ExpireCompleted(p0, env.now);
    var (p2, c2) := AdvanceSend(p1, c, env);
    var (p3, c3) := RetryNacks(p2, env.order, c2, env);
    ExpireGood(k, p, env.order, env.now, c);
    ExpireCompletedGood(k, p0, env.now, c);
    GoodReceiveTransitive(k, p, c, p0, c, p1, c);
    ReceiveIsGood(k, p, c, p1, c);
    ExpiredInv(k, p, env);
    AdvanceSendGood(p1, c, env);
    SendIsGood(k, p1, c, p2, c2);
    GoodMoveTransitive(k, p, c, p1, c, p2, c2);
    AdvanceReceives(k, p1, c, env);
    RetryGood(k, p2, env.order, c2, env);
    ReceiveIsGood(k, p2, c2, p3, c3);
    GoodMoveTransitive(k, p, c, p2, c2, p3, c3);
  }

  lemma ExpireCompletedGood(k: Known, p: Peer, now: nat, c: Channel)
    ensures GoodReceive(k, p, c, ExpireCompleted(p, now), c)
  {
  }

  lemma ExpiredInv(k: Known, p: Peer, env: Env)
    requires PeerInv(p) && SlotGenuine(p) && ReceivesFrom(k, p.inc)
    ensures var p1 := ExpireCompleted(ExpireReceivers(p, env.order, env.now), env.now);
            PeerInv(p1) && SlotGenuine(p1) && ReceivesFrom(k, p1.inc)
  {
    var p0 := ExpireReceivers(p, env.order, env.now);
    ExpireMove(p, env.order, env.now);
    ExpireCompletedMove(p0, env.now);
    ExpireGood(k, p, env.order, env.now, Channel([], []));
    ExpireCompletedGood(k, p0, env.now, Channel([], []));
  }

  lemma AdvanceReceives(k: Known, p: Peer, c: Channel, env: Env)
    requires PeerInv(p) && SlotGenuine(p) && ReceivesFrom(k, p.inc)
    ensures ReceivesFrom(k, AdvanceSend(p, c, env).0.inc)
  {
    AdvanceSendGood(p, c, env);
  }

  /** A genuine message of a peer with knowledge `k` is handled well. */
  lemma HandleDataGood(k: Known, p: Peer, m: Message, c: Channel, env: Env)
    requires PeerInv(p) && ReceivesFrom(k, p.inc) && Truthful(p, k)
    requires Genuine(k, m) && k.tag != p.tag
    ensures GoodMove(k, p, c, HandleData(p, m, c, env).0, HandleData(p, m, c, env).1)
  {
    hide OnChunk, OnMeta, OnDone, OnCancel, OnNack, SendFile, GoodSend, GoodReceive;
    match m
    case Chunk(_, _, _) => OnChunkGood(k, p, m, c); ReceiveIsGood(k, p, c, OnChunk(p, m), c);
    case Meta(_, _, _, _, _, _) => OnMetaGood(k, p, m, c, env); ReceiveIsGood(k, p, c, OnMeta(p, m, env), c);
    case Done(id, ok) =>
      if p.out.send.Some? && p.out.send.value.id == id {
        assert id.peer == p.tag;
        OnAckGood(p, ok, k, c);
      } else {
        OnDoneGood(k, p, m, c, env);
        ReceiveIsGood(k, p, c, OnDone(p, m, c, env).0, OnDone(p, m, c, env).1);
      }
    case Cancel(_) => OnCancelGood(k, p, m, c); ReceiveIsGood(k, p, c, OnCancel(p, m), c);
    case Nack(_, _) => OnNackGood(p, m, c); SendIsGood(k, p, c, OnNack(p, m), c);
    case Request(path) => SendFileGood(p, path, env, c); SendIsGood(k, p, c, SendFile(p, path, env).0, c);
  }

  lemma SettingsGood(k: Known, p: Peer, dir: Option<Path>, allow: bool, c: Channel)
    ensures GoodMove(k, p, c, p.(inc := p.inc.(dir := dir)), c)
            && GoodMove(k, p, c, p.(inc := p.inc.(allowRequest := allow)), c)
    ensures GoodMove(k, p, c, p.(book := p.book.(history := [])), c)
            && GoodMove(k, p, c, p.(inc := p.inc.(image := None)), c)
  {
    hide GoodMove;
    SettingGood(k, p, p.inc.(dir := dir), p.book.history, c);
    SettingGood(k, p, p.inc.(allowRequest := allow), p.book.history, c);
    SettingGood(k, p, p.inc.(image := None), p.book.history, c);
    SettingGood(k, p, p.inc, [], c);
  }

  lemma SettingGood(k: Known, p: Peer, i: Incoming, history: seq<Record>, c: Channel)
    requires i.recv == p.inc.recv && i.completed == p.inc.completed && i.commits == p.inc.commits
    ensures GoodMove(k, p, c, p.(inc := i, book := p.book.(history := history)), c)
  {
    hide Holds;
    SameCommits(p.inc, i);
  }

  lemma ApplyGood(k: Known, p: Peer, op: Op, c: Channel, env: Env)
    requires PeerInv(p) && SlotGenuine(p) && ReceivesFrom(k, p.inc) && Truthful(p, k)
    requires k.tag != p.tag && (op.OpReceive? ==> Genuine(k, op.m))
    ensures GoodMove(k, p, c, Apply(p, op, c, env).0, Apply(p, op, c, env).1)
  {
    hide SendFile, SendImage, CancelSend, CancelSendId, Tick, HandleData, OutInv, IncInv, BookInv, GoodMove, GoodSend;
    match op
    case OpSendFile(path) => SendFileGood(p, path, env, c); SendIsGood(k, p, c, SendFile(p, path, env).0, c);
    case OpSendImage(png) => SendImageGood(p, png, env, c); SendIsGood(k, p, c, SendImage(p, png, env).0, c);
    case OpCancelSend => CancelSendGood(p, c, env);
      SendIsGood(k, p, c, CancelSend(p, c, env).0, CancelSend(p, c, env).1);
    case OpCancelSendId(id) =>
      CancelSendIdGood(p, id, c, env);
      SendIsGood(k, p, c, CancelSendId(p, id, c, env).0, CancelSendId(p, id, c, env).1);
    case OpTick => TickGood(k, p, c, env);
    case OpReceive(m) => HandleDataGood(k, p, m, c, env);
    case OpSetRecvDir(dir) => SettingsGood(k, p, dir, true, c);
    case OpSetAllowRequest(allow) => SettingsGood(k, p, None, allow, c);
    case _ => SettingsGood(k, p, None, true, c);
  }

  // ---- two peers ----

  /** `pq` holds every message ever sent by `p`: delivering a message does not remove it, so it
      may be delivered never, once or many times, in any order. */
  datatype World = World(p: Peer, q: Peer, pq: set<Message>, qp: set<Message>)

  ghost predicate Half(p: Peer, q: Peer, net: set<Message>) {
    && (forall m :: m in net ==> Genuine(Know(p), m))
    && ReceivesFrom(Know(p), q.inc)
    && Truthful(p, Know(q))
    && SlotGenuine(p)
  }

  ghost predicate WorldInv(w: World) {
    && PeerInv(w.p) && PeerInv(w.q) && w.p.tag != w.q.tag
    && Half(w.p, w.q, w.pq) && Half(w.q, w.p, w.qp)
  }

  /** `p` does one step; a received message comes from `inbox`. */
  ghost predicate Moves(p: Peer, inbox: set<Message>, st: Step, p': Peer, sent: set<Message>) {
    && SndShapes(p.out) && Fits(p, st)
    && (st.op.OpReceive? ==> st.op.m in inbox)
    && p' == After(p, st)
    && sent == set m | m in Apply(p, st.op, Channel([], st.verdicts), st.env).1.sent
  }

  ghost predicate StepsTo(w: World, w': World) {
    || (exists st, sent :: Moves(w.p, w.qp, st, w'.p, sent) && w' == World(w'.p, w.q, w.pq + sent, w.qp))
    || (exists st, sent :: Moves(w.q, w.pq, st, w'.q, sent) && w' == World(w.p, w'.q, w.pq, w.qp + sent))
  }

  lemma MoveKeeps(p: Peer, q: Peer, pq: set<Message>, qp: set<Message>, st: Step, p': Peer, sent: set<Message>)
    requires PeerInv(p) && p.tag != q.tag && Half(p, q, pq) && Half(q, p, qp)
    requires Moves(p, qp, st, p', sent)
    ensures PeerInv(p') && p'.tag == p.tag
    ensures Half(p', q, pq + sent) && Half(q, p', qp)
  {
    hide Apply, PeerInv;
    var c := Channel([], st.verdicts);
    StepKeeps(p, st);
    ApplyGood(Know(q), p, st.op, c, st.env);
    forall m | m in pq + sent ensures Genuine(Know(p'), m) {
      if m in pq {
        GenuineGrows(Know(p), Know(p'), m);
      }
    }
    ReceivesGrows(Know(p), Know(p'), q.inc);
  }

  lemma WorldStepKeeps(w: World, w': World)
    requires WorldInv(w) && StepsTo(w, w')
    ensures WorldInv(w')
  {
    hide PeerInv, Half, Moves;
    if exists st, sent :: Moves(w.p, w.qp, st, w'.p, sent) && w' == World(w'.p, w.q, w.pq + sent, w.qp) {
      var st, sent :| Moves(w.p, w.qp, st, w'.p, sent) && w' == World(w'.p, w.q, w.pq + sent, w.qp);
      MoveKeeps(w.p, w.q, w.pq, w.qp, st, w'.p, sent);
    } else {
      var st, sent :| Moves(w.q, w.pq, st, w'.q, sent) && w' == World(w.p, w'.q, w.pq, w.qp + sent);
      MoveKeeps(w.q, w.p, w.qp, w.pq, st, w'.q, sent);
    }
  }

  ghost predicate InitialWorld(w: World) {
    && (exists t1, sha1, d1 :: w.p == NewPeer(t1, sha1, d1)) && (exists t2, sha2, d2 :: w.q == NewPeer(t2, sha2, d2))
    && w.p.tag != w.q.tag && w.pq == {} && w.qp == {}
  }

  /** From state `i` of a run to the next. */
  ghost predicate StepsAt(ws: seq<World>, i: nat)
    requires i + 1 < |ws|
  {
    StepsTo(ws[i], ws[i + 1])
  }

  ghost predicate IsWorldRun(ws: seq<World>) {
    ws != [] && InitialWorld(ws[0]) && forall i :: 0 <= i && i + 1 < |ws| ==> StepsAt(ws, i)
  }

  lemma {:induction false} WorldRunKeeps(ws: seq<World>, i: nat)
    requires IsWorldRun(ws) && i < |ws|
    ensures WorldInv(ws[i])
  {
    hide StepsTo, WorldInv;
    if i > 0 {
      WorldRunKeeps(ws, i - 1);
      assert StepsAt(ws, i - 1);
      WorldStepKeeps(ws[i - 1], ws[i]);
    } else {
      InitialInv(ws[0]);
    }
  }

  lemma InitialInv(w: World)
    requires InitialWorld(w)
    ensures WorldInv(w)
  {
    var t1, sha1, d1 :| w.p == NewPeer(t1, sha1, d1);
    var t2, sha2, d2 :| w.q == NewPeer(t2, sha2, d2);
    hide PeerInv, Half;
    NewPeerInv(t1, sha1, d1);
    NewPeerInv(t2, sha2, d2);
    NewHalf(w.p, w.q);
    NewHalf(w.q, w.p);
  }

  lemma NewHalf(p: Peer, q: Peer)
    requires p.out.trace == Fresh && p.out.send.None? && p.book.all == []
    requires q.inc.recv == map[] && q.inc.completed == map[] && q.inc.commits == []
    ensures Half(p, q, {})
  {
  }

  /** End-to-end integrity: in every run with losses, repetitions, reordering, cancels, expiry and
      re-created receivers, a buffer committed under an id is what the other peer started under it. */
  lemma CommittedIsSent(ws: seq<World>, i: nat, n: nat)
    requires IsWorldRun(ws) && i < |ws|
    ensures n < |ws[i].q.inc.commits| ==>
              var d := ws[i].q.inc.commits[n];
              d.id in Origins(ws[i].p.out.trace) && d.content == Origins(ws[i].p.out.trace)[d.id]
    ensures n < |ws[i].p.inc.commits| ==>
              var d := ws[i].p.inc.commits[n];
              d.id in Origins(ws[i].q.out.trace) && d.content == Origins(ws[i].q.out.trace)[d.id]
  {
    WorldRunKeeps(ws, i);
  }

  /** A success in the history, or a positive acknowledgement, means that the other peer has
      committed that id. */
  lemma SuccessIsTruthful(ws: seq<World>, i: nat)
    requires IsWorldRun(ws) && i < |ws|
    ensures forall r :: r in ws[i].p.book.history && DeliveredRecord(r) ==> r.id in CommitIds(ws[i].q.inc)
    ensures forall id :: id in AckedOk(ws[i].p.out.trace) ==> id in CommitIds(ws[i].q.inc)
    ensures forall r :: r in ws[i].q.book.history && DeliveredRecord(r) ==> r.id in CommitIds(ws[i].p.inc)
    ensures forall id :: id in AckedOk(ws[i].q.out.trace) ==> id in CommitIds(ws[i].p.inc)
  {
    WorldRunKeeps(ws, i);
  }
}
