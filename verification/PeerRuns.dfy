/** Everything one peer can do, and what holds of a peer whatever is done to it: the bounds
    of its tables, the shape of its buffers, the order and the fate of its sends, and the
    sticky completion flag. */
module PeerRuns {
  import opened Bytes
  import opened FileProtocol
  import opened TransferSpec

  datatype Op =
    | OpSendFile(path: Path)
    | OpSendImage(png: seq<byte>)
    | OpCancelSend
    | OpCancelSendId(id: Id)
    | OpTick
    | OpReceive(m: Message)
    | OpSetRecvDir(dir: Option<Path>)
    | OpSetAllowRequest(allow: bool)
    | OpClearHistory
    | OpTakeImage

  ghost function Apply(p: Peer, op: Op, c: Channel, env: Env): (Peer, Channel)
    requires SndShapes(p.out)
  {
    match op
    case OpSendFile(path) => (SendFile(p, path, env).0, c)
    case OpSendImage(png) => (SendImage(p, png, env).0, c)
    case OpCancelSend => CancelSend(p, c, env)
    case OpCancelSendId(id) => var (p1, c1, _) := CancelSendId(p, id, c, env); (p1, c1)
    case OpTick => Tick(p, c, env)
    case OpReceive(m) => HandleData(p, m, c, env)
    case OpSetRecvDir(dir) => (p.(inc := p.inc.(dir := dir)), c)
    case OpSetAllowRequest(allow) => (p.(inc := p.inc.(allowRequest := allow)), c)
    case OpClearHistory => (p.(book := p.book.(history := [])), c)
    case OpTakeImage => (p.(inc := p.inc.(image := None)), c)
  }

  // ---- what a trace says ----

  /** The content each started id was started with. */
  ghost function Origins(t: Trace): map<Id, seq<byte>> {
    match t
    case Fresh => map[]
    case Then(b, Started(id, _, content)) => Origins(b)[id := content]
    case Then(b, _) => Origins(b)
  }

  ghost function AcceptedIds(t: Trace): set<Id> {
    match t
    case Fresh => {}
    case Then(b, Accepted(id)) => AcceptedIds(b) + {id}
    case Then(b, _) => AcceptedIds(b)
  }

  ghost function Without(ids: seq<Id>, id: Id): seq<Id> {
    if ids == [] then []
    else Without(ids[..|ids| - 1], id) + (if ids[|ids| - 1] == id then [] else [ids[|ids| - 1]])
  }

  /** The accepted regular sends in order of acceptance, minus those dropped from the queue. */
  ghost function Kept(t: Trace): seq<Id> {
    match t
    case Fresh => []
    case Then(b, Accepted(id)) => Kept(b) + [id]
    case Then(b, Dropped(id)) => Without(Kept(b), id)
    case Then(b, _) => Kept(b)
  }

  /** The regular sends in the order they took the slot. */
  ghost function StartedFiles(t: Trace): seq<Id> {
    match t
    case Fresh => []
    case Then(b, Started(id, kind, _)) => if kind == File then StartedFiles(b) + [id] else StartedFiles(b)
    case Then(b, _) => StartedFiles(b)
  }

  /** The ids with a history record of a send. */
  ghost function LoggedIds(t: Trace): set<Id> {
    match t
    case Fresh => {}
    case Then(b, Logged(r)) => LoggedIds(b) + {r.id}
    case Then(b, _) => LoggedIds(b)
  }

  /** A regular send has been acknowledged or refused since the last regular send started. */
  ghost predicate AckedSinceStart(t: Trace) {
    match t
    case Fresh => false
    case Then(b, Started(_, kind, _)) => kind != File && AckedSinceStart(b)
    case Then(b, Acked(_, kind, _)) => kind == File || AckedSinceStart(b)
    case Then(b, _) => AckedSinceStart(b)
  }

  /** The ids whose active send got a positive Done. */
  ghost function AckedOk(t: Trace): set<Id> {
    match t
    case Fresh => {}
    case Then(b, Acked(id, _, ok)) => if ok then AckedOk(b) + {id} else AckedOk(b)
    case Then(b, _) => AckedOk(b)
  }

  ghost function QueueIds(queue: seq<Queued>): seq<Id> {
    seq(|queue|, i requires 0 <= i < |queue| => queue[i].id)
  }

  ghost predicate NoDup<T>(s: seq<T>) {
    forall i, j :: 0 <= i < j < |s| ==> s[i] != s[j]
  }

  // ---- invariants of one peer ----

  ghost predicate SndShapes(o: Outgoing) {
    o.send.Some? ==> SndShape(o.send.value)
  }

  ghost predicate RcvShapes(i: Incoming) {
    forall id :: id in i.recv ==> RcvShape(i.recv[id])
  }

  ghost predicate IncBounded(i: Incoming) {
    |i.recv| <= MAX_RECV && |i.completed| <= MAX_COMPLETED
  }

  ghost predicate IncInv(i: Incoming) {
    RcvShapes(i) && IncBounded(i)
  }

  /** The history is the latest part of everything that was ever written to it. */
  ghost predicate BookInv(b: Book) {
    && |b.history| <= MAX_HISTORY
    && |b.history| <= |b.all|
    && b.history == b.all[|b.all| - |b.history|..]
  }

  /** `send_complete` is true exactly when the last regular send to start has been answered. */
  ghost predicate Sticky(o: Outgoing) {
    && (o.lastDoneFile.Some? <==> AckedSinceStart(o.trace))
    && (o.send.Some? && o.send.value.confirmed && o.send.value.kind == File ==> o.lastDoneFile.Some?)
  }

  /** Ids are given out once: a queued id has not been started, the id in the slot stands for
      the content in the slot. */
  ghost predicate IdsFresh(tag: nat, o: Outgoing) {
    && (forall id :: id in Origins(o.trace) ==> id.peer == tag && id.seqNo < o.sendSeq)
    && (forall id :: id in LoggedIds(o.trace) ==> id.seqNo < o.sendSeq)
    && (forall id :: id in Kept(o.trace) ==> id.peer == tag && id.seqNo < o.sendSeq)
    && (forall i :: 0 <= i < |o.queue| ==> o.queue[i].id !in Origins(o.trace))
    && (o.send.Some? ==>
          o.send.value.id in Origins(o.trace) && Origins(o.trace)[o.send.value.id] == o.send.value.content)
  }

  /** Regular sends start in the order they were accepted, minus the dropped ones; what is
      accepted and neither started nor dropped is the queue, in order. */
  ghost predicate Fifo(o: Outgoing) {
    && NoDup(Kept(o.trace))
    && Kept(o.trace) == StartedFiles(o.trace) + QueueIds(o.queue)
  }

  /** Queued sends have no record yet; a slot that was acknowledged and not refused has one. */
  ghost predicate Recorded(o: Outgoing) {
    && (forall i :: 0 <= i < |o.queue| ==> o.queue[i].id !in LoggedIds(o.trace))
    && (o.send.Some? && o.send.value.confirmed && !o.send.value.failed ==> o.send.value.id in LoggedIds(o.trace))
  }

  /** Everything but: the slot may be empty while files are queued. */
  ghost predicate OutCore(tag: nat, o: Outgoing) {
    SndShapes(o) && |o.queue| <= MAX_QUEUE && Sticky(o) && IdsFresh(tag, o) && Fifo(o) && Recorded(o)
  }

  ghost predicate OutInv(tag: nat, o: Outgoing) {
    OutCore(tag, o) && (o.send.None? ==> o.queue == [])
  }

  ghost predicate PeerInv(p: Peer) {
    OutInv(p.tag, p.out) && IncInv(p.inc) && BookInv(p.book)
  }

  /** Every accepted send is in the slot, queued or logged. */
  ghost predicate Conserved(o: Outgoing) {
    forall id :: id in AcceptedIds(o.trace) ==>
      || id in LoggedIds(o.trace)
      || id in QueueIds(o.queue)
      || (o.send.Some? && o.send.value.id == id)
  }

  lemma WriteKeepsBook(b: Book, r: Record)
    requires BookInv(b)
    ensures BookInv(Write(b, r))
  {
    assert b.history + [r] == (b.all + [r])[|b.all| - |b.history|..];
  }

  // ---- flags and tables of the receiving side ----

  lemma CountAllTrue(flags: seq<bool>)
    ensures |MissingOf(flags)| + CountTrue(flags) == |flags|
    ensures CountTrue(flags) == |flags| <==> forall i :: 0 <= i < |flags| ==> flags[i]
  {
    if flags != [] {
      CountAllTrue(flags[..|flags| - 1]);
    }
  }

  lemma CountSet(flags: seq<bool>, index: nat)
    requires index < |flags| && !flags[index]
    ensures CountTrue(flags[index := true]) == CountTrue(flags) + 1
  {
    var n := |flags| - 1;
    if index < n {
      assert flags[index := true][..n] == flags[..n][index := true];
      CountSet(flags[..n], index);
    } else {
      assert flags[index := true][..n] == flags[..n];
    }
  }

  lemma CountNone(n: nat)
    ensures CountTrue(seq(n, _ => false)) == 0
  {
    if n > 0 {
      assert seq(n, _ => false)[..n - 1] == seq(n - 1, _ => false);
      CountNone(n - 1);
    }
  }

  lemma RcvChunkShape(r: Rcv, index: nat, payload: seq<byte>)
    requires RcvShape(r)
    ensures RcvShape(RcvChunk(r, index, payload))
  {
    if index < r.total && !r.flags[index] {
      CountSet(r.flags, index);
    }
  }

  /** The entry forgotten is one of the earliest. */
  lemma OldestIsEarliest(order: seq<Id>, completed: map<Id, nat>)
    ensures Oldest(order, completed).Some? <==> exists k :: k in order && k in completed
    ensures Oldest(order, completed).Some? ==> Oldest(order, completed).value in completed
    ensures Oldest(order, completed).Some? ==>
              forall k :: k in order && k in completed ==> completed[Oldest(order, completed).value] <= completed[k]
  {
    if order != [] {
      var n := |order| - 1;
      OldestIsEarliest(order[..n], completed);
      assert order == order[..n] + [order[n]];
    }
  }

  /** Of several earliest entries it is the first that the iteration meets. */
  lemma {:induction false} OldestIsFirst(order: seq<Id>, completed: map<Id, nat>) returns (i: nat)
    requires Oldest(order, completed).Some?
    ensures i < |order| && order[i] == Oldest(order, completed).value && order[i] in completed
    ensures forall j :: 0 <= j < i && order[j] in completed ==> completed[order[j]] > completed[order[i]]
    decreases |order|
  {
    var n := |order| - 1;
    OldestIsEarliest(order[..n], completed);
    if Oldest(order, completed) == Oldest(order[..n], completed) {
      i := OldestIsFirst(order[..n], completed);
    } else {
      i := n;
    }
  }

  lemma RememberBounded(completed: map<Id, nat>, id: Id, env: Env)
    requires |completed| <= MAX_COMPLETED
    requires Covers(env.order, completed.Keys)
    ensures |Remember(completed, id, env)| <= MAX_COMPLETED
    ensures Remember(completed, id, env).Keys <= completed.Keys + {id}
  {
    hide Oldest;
    var all := completed[id := env.now];
    OneMoreKey(completed, id, env.now);
    if |all| > MAX_COMPLETED {
      var k: Id :| k in completed;
      assert k in env.order && k in all;
      OldestIsEarliest(env.order, all);
      OneLessKey(all, Oldest(env.order, all).value);
    }
  }

  lemma OneMoreKey(m: map<Id, nat>, id: Id, now: nat)
    ensures m[id := now].Keys == m.Keys + {id} && |m[id := now]| <= |m| + 1
    ensures |m[id := now]| > 1 ==> exists k :: k in m
  {
    var all := m[id := now];
    assert all.Keys == m.Keys + {id};
    assert |all| == |all.Keys| && |m| == |m.Keys|;
    if m.Keys == {} {
      assert all.Keys == {id};
    } else {
      var k :| k in m.Keys;
      assert k in m;
    }
  }

  lemma OneLessKey(m: map<Id, nat>, id: Id)
    requires id in m
    ensures (m - {id}).Keys == m.Keys - {id} && |m - {id}| == |m| - 1
  {
    var less := m - {id};
    assert less.Keys == m.Keys - {id};
    assert |less| == |less.Keys| && |m| == |m.Keys|;
  }

  // ---- steps of the receiving side ----

  /** The ids with a history record of a send, in everything that was ever written. */
  ghost function SendIds(all: seq<Record>): set<Id> {
    set r | r in all && r.direction == Sending :: r.id
  }

  /** The history records of sends, in the order they were written. */
  ghost function Sendings(all: seq<Record>): seq<Record> {
    if all == [] then []
    else Sendings(all[..|all| - 1]) + (if all[|all| - 1].direction == Sending then [all[|all| - 1]] else [])
  }

  lemma SendingsAppend(all: seq<Record>, r: Record)
    ensures Sendings(all + [r]) == if r.direction == Sending then Sendings(all) + [r] else Sendings(all)
  {
    assert (all + [r])[..|all|] == all;
  }

  lemma SendIdsAppend(all: seq<Record>, r: Record)
    ensures SendIds(all + [r]) == if r.direction == Sending then SendIds(all) + {r.id} else SendIds(all)
  {
    assert forall x :: x in all + [r] <==> x in all || x == r;
    if r.direction == Sending {
      assert r in all + [r];
    }
  }

  /** Of what is written the history loses nothing while it has no more than 200 records. */
  ghost predicate Written(b: Book, b': Book) {
    |b.all| <= |b'.all| && |b'.history| >= Min(200, |b.history| + |b'.all| - |b.all|)
  }

  lemma WriteWrites(b: Book, r: Record)
    ensures Written(b, Write(b, r)) && Written(b, b)
  {
  }

  /** Only the receiving side and the history change, their invariants are kept, and no record of
      a send is written. */
  ghost predicate ReceiverMove(p: Peer, p': Peer) {
    && p' == p.(inc := p'.inc, book := p'.book)
    && SendIds(p'.book.all) == SendIds(p.book.all) && Sendings(p'.book.all) == Sendings(p.book.all)
    && Written(p.book, p'.book)
    && (IncInv(p.inc) ==> IncInv(p'.inc))
    && (BookInv(p.book) ==> BookInv(p'.book))
  }

  lemma DropMove(p: Peer, id: Id)
    ensures ReceiverMove(p, DropRcv(p, id))
    ensures IncInv(p.inc) && id in p.inc.recv ==> |DropRcv(p, id).inc.recv| < MAX_RECV
  {
    assert DropRcv(p, id).inc.recv.Keys == p.inc.recv.Keys - {id};
    SubsetSize(p.inc.recv.Keys - {id}, p.inc.recv.Keys);
  }

  lemma PutMove(p: Peer, id: Id, r: Rcv)
    requires RcvShape(r)
    requires id in p.inc.recv || |p.inc.recv| < MAX_RECV
    ensures ReceiverMove(p, PutRcv(p, id, r))
  {
    assert PutRcv(p, id, r).inc.recv.Keys == p.inc.recv.Keys + {id};
    if id in p.inc.recv {
      assert PutRcv(p, id, r).inc.recv.Keys == p.inc.recv.Keys;
    }
  }

  lemma LogReceiveMove(p: Peer, id: Id, r: Rcv, outcome: Outcome)
    ensures ReceiverMove(p, LogReceive(p, id, r, outcome))
  {
    SendIdsAppend(p.book.all, Record(Receiving, id, r.name, r.size, outcome, None));
    SendingsAppend(p.book.all, Record(Receiving, id, r.name, r.size, outcome, None));
    if BookInv(p.book) {
      WriteKeepsBook(p.book, Record(Receiving, id, r.name, r.size, outcome, None));
    }
  }

  lemma RequestResendMove(p: Peer, id: Id, r: Rcv, c: Channel, env: Env)
    requires RcvShape(r)
    requires |p.inc.recv| < MAX_RECV
    ensures ReceiverMove(p, RequestResend(p, id, r, c, env).0)
  {
    hide ReceiverMove, CountTrue, ChunkCount;
    LogReceiveMove(p, id, r, Failure);
    PutMove(p, id, r.(lastNack := Some(env.now)));
  }

  lemma CommitMove(p: Peer, id: Id, r: Rcv, c: Channel, env: Env)
    requires IncInv(p.inc)
    requires Covers(env.order, p.inc.completed.Keys)
    ensures ReceiverMove(p, Commit(p, id, r, c, env).0)
  {
    hide Remember, SendIds, Sendings, RcvShape, Written;
    RememberBounded(p.inc.completed, id, env);
    WriteWrites(p.book, Record(Receiving, id, r.name, r.size, Success, None));
    SendIdsAppend(p.book.all, Record(Receiving, id, r.name, r.size, Success, None));
    SendingsAppend(p.book.all, Record(Receiving, id, r.name, r.size, Success, None));
    if BookInv(p.book) {
      WriteKeepsBook(p.book, Record(Receiving, id, r.name, r.size, Success, None));
    }
  }

  lemma OnDoneMove(p: Peer, m: Message, c: Channel, env: Env)
    requires m.Done?
    requires IncInv(p.inc)
    requires Covers(env.order, p.inc.completed.Keys)
    ensures ReceiverMove(p, OnDone(p, m, c, env).0)
  {
    if m.id in p.inc.recv {
      var r, p1 := p.inc.recv[m.id], DropRcv(p, m.id);
      DropMove(p, m.id);
      RequestResendMove(p1, m.id, r, c, env);
      CommitMove(p1, m.id, r, c, env);
    }
  }

  lemma OnMetaMove(p: Peer, m: Message, env: Env)
    requires m.Meta?
    ensures ReceiverMove(p, OnMeta(p, m, env))
  {
    if m.size > 0 && m.chunks == ChunkCount(m.size) && |p.inc.recv| < MAX_RECV {
      CountNone(m.chunks);
      var name := if m.kind == ClipboardImage then "clipboard-image.png" else SafeFileName(m.name);
      PutMove(p, m.id, NewRcv(m.kind, name, m.size, m.chunks, m.hash, env.now));
    }
  }

  lemma OnChunkMove(p: Peer, m: Message)
    requires m.Chunk? && RcvShapes(p.inc)
    ensures ReceiverMove(p, OnChunk(p, m))
  {
    if m.id in p.inc.recv {
      RcvChunkShape(p.inc.recv[m.id], m.index, m.payload);
      PutMove(p, m.id, RcvChunk(p.inc.recv[m.id], m.index, m.payload));
    }
  }

  lemma OnCancelMove(p: Peer, m: Message)
    requires m.Cancel?
    ensures ReceiverMove(p, OnCancel(p, m))
  {
    if m.id in p.inc.recv {
      DropMove(p, m.id);
      LogReceiveMove(DropRcv(p, m.id), m.id, p.inc.recv[m.id], Cancelled);
    }
  }

  lemma {:induction false} ExpireMove(p: Peer, order: seq<Id>, now: nat)
    ensures ReceiverMove(p, ExpireReceivers(p, order, now))
    decreases |order|
  {
    if order != [] {
      var id := order[0];
      if id in p.inc.recv && Expired(p.inc.recv[id], now) {
        var p1 := DropRcv(p, id);
        DropMove(p, id);
        LogReceiveMove(p1, id, p.inc.recv[id], Failure);
        ExpireMove(LogReceive(p1, id, p.inc.recv[id], Failure), order[1..], now);
      } else {
        ExpireMove(p, order[1..], now);
      }
    }
  }

  lemma {:induction false} RetryMove(p: Peer, order: seq<Id>, c: Channel, env: Env)
    requires IncInv(p.inc)
    ensures ReceiverMove(p, RetryNacks(p, order, c, env).0)
    decreases |order|
  {
    if order != [] {
      var id := order[0];
      if id in p.inc.recv && NackDue(p.inc.recv[id], env.now) {
        var p0 := DropRcv(p, id);
        DropMove(p, id);
        RequestResendMove(p0, id, p.inc.recv[id], c, env);
        var (p1, c1) := RequestResend(p0, id, p.inc.recv[id], c, env);
        RetryMove(p1, order[1..], c1, env);
      } else {
        RetryMove(p, order[1..], c, env);
      }
    }
  }

  lemma ExpireCompletedMove(p: Peer, now: nat)
    ensures ReceiverMove(p, ExpireCompleted(p, now))
  {
    SubsetSize(ExpireCompleted(p, now).inc.completed.Keys, p.inc.completed.Keys);
  }
}
