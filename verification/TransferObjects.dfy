/** The file-transfer objects: FileTransfer, Sender and Receiver update their fields and buffers
    in place, and every method computes the function of TransferSpec that carries its name. */
module TransferObjects {
  import opened Bytes
  import opened FileProtocol
  import opened TransferSpec

  /** The "file" data channel of an endpoint. */
  class Endpoint {
    var sent: seq<Message>
    var verdicts: seq<bool>

    ghost function View(): Channel
      reads this
    {
      Channel(sent, verdicts)
    }

    constructor (verdicts: seq<bool>)
      ensures View() == Channel([], verdicts)
    {
      this.sent, this.verdicts := [], verdicts;
    }

    method Send(m: Message) returns (ok: bool)
      modifies this
      ensures View() == Push(old(View()), m)
      ensures ok == Accepts(old(View()))
    {
      ok := verdicts != [] && verdicts[0];
      if verdicts != [] {
        verdicts := verdicts[1..];
      }
      if ok {
        sent := sent + [m];
      }
    }
  }

  class Sender {
    const kind: Kind
    var id: Id
    const name: string
    const path: Option<Path>
    /** The picture in memory, or the bytes behind the open file. */
    const content: seq<byte>
    const inMemory: bool
    const hash: Digest
    const total: nat
    var nextChunk: nat
    var metaSent: bool
    var lastMeta: nat
    var doneSent: bool
    var lastDone: nat
    const startAfter: nat
    var resend: seq<nat>
    var confirmed: bool
    var failed: bool

    ghost function View(): Snd
      reads this
    {
      Snd(kind, id, name, path, content, inMemory, hash, total, nextChunk, metaSent, lastMeta,
          doneSent, lastDone, startAfter, resend, confirmed, failed)
    }

    constructor (kind: Kind, id: Id, name: string, path: Option<Path>, content: seq<byte>,
                 sha: seq<byte> -> Digest, now: nat)
      ensures View() == NewSnd(kind, id, name, path, content, sha, now)
    {
      this.kind, this.id, this.name, this.path, this.content := kind, id, name, path, content;
      this.inMemory, this.hash, this.total := path.None?, sha(content), ChunkCount(|content|);
      this.nextChunk, this.metaSent, this.lastMeta := 0, false, now;
      this.doneSent, this.lastDone, this.startAfter := false, now, now + START_DELAY;
      this.resend, this.confirmed, this.failed := [], false, false;
    }

    /** The bytes of chunk `index`; None when the file cannot be read there. */
    method ReadChunk(index: nat, unreadable: set<nat>) returns (chunk: Option<seq<byte>>)
      requires index < ChunkCount(|content|)
      ensures chunk == if ReadFails(View(), index, unreadable) then None else Some(Slice(content, index))
    {
      var start := index * CHUNK_SIZE;
      var end := Min((index + 1) * CHUNK_SIZE, |content|);
      if inMemory {
        return Some(content[start..Min(end, |content|)]);
      }
      if index in unreadable {
        return None;
      }
      chunk := Some(content[start..end]);
    }

    method FailLocally()
      modifies this
      ensures View() == old(View()).(failed := true, confirmed := true)
    {
      failed := true;
      confirmed := true;
    }

    /** Sends the meta data, first or again. */
    method SendMeta(ep: Endpoint, now: nat)
      requires SndShape(View())
      modifies this, ep
      ensures (View(), ep.View()) == MetaStep(old(View()), old(ep.View()), now)
    {
      if !metaSent || Elapsed(now, lastMeta) >= RETRY_AFTER {
        var ok := ep.Send(Meta(id, name, |content|, total, Some(hash), kind));
        if ok {
          metaSent, lastMeta := true, now;
        }
      }
    }

    /** Sends the chunk on top of the resend stack; it is popped only when it was accepted. */
    method SendResend(ep: Endpoint, unreadable: set<nat>)
      requires SndShape(View()) && resend != []
      modifies this, ep
      ensures (View(), ep.View()) == ResendStep(old(View()), old(ep.View()), unreadable)
    {
      var index := resend[|resend| - 1];
      var chunk := ReadChunk(index, unreadable);
      if chunk.None? {
        FailLocally();
        return;
      }
      var ok := ep.Send(Chunk(id, index, chunk.value));
      if ok {
        resend := resend[..|resend| - 1];
      }
    }

    /** Sends up to 32 further chunks, until one is refused. */
    method SendBurst(ep: Endpoint, unreadable: set<nat>)
      requires SndShape(View())
      modifies this, ep
      ensures (View(), ep.View()) == BurstStep(old(View()), old(ep.View()), unreadable, BURST)
    {
      hide Push, Accepts, ReadFails, Slice, ChunkCount;
      var count := 0;
      while nextChunk < total && count < BURST
        invariant count <= BURST
        invariant SndShape(View())
        invariant BurstStep(View(), ep.View(), unreadable, BURST - count)
                  == BurstStep(old(View()), old(ep.View()), unreadable, BURST)
        decreases BURST - count
      {
        var chunk := ReadChunk(nextChunk, unreadable);
        if chunk.None? {
          FailLocally();
          return;
        }
        var ok := ep.Send(Chunk(id, nextChunk, chunk.value));
        if !ok {
          break;
        }
        nextChunk := nextChunk + 1;
        count := count + 1;
      }
    }

    method SendDone(ep: Endpoint, now: nat)
      modifies this, ep
      ensures (View(), ep.View()) == DoneStep(old(View()), old(ep.View()), now)
    {
      if !doneSent || Elapsed(now, lastDone) >= RETRY_AFTER {
        var ok := ep.Send(Done(id, true));
        if ok {
          doneSent, lastDone := true, now;
        }
      }
    }

    method Tick(ep: Endpoint, now: nat, unreadable: set<nat>)
      requires SndShape(View())
      modifies this, ep
      ensures (View(), ep.View()) == SndTick(old(View()), old(ep.View()), now, unreadable)
    {
      if confirmed || now < startAfter {
        return;
      }
      SendMeta(ep, now);
      if !metaSent {
        return;
      }
      if resend != [] {
        SendResend(ep, unreadable);
      } else if nextChunk < total {
        SendBurst(ep, unreadable);
      } else {
        SendDone(ep, now);
      }
    }

    /** Takes the indices of a Nack: valid ones not yet on the stack, so that Done is sent again
        after them. */
    method AddResends(missing: seq<nat>)
      modifies this
      ensures View() == old(View()).(resend := AddMissing(old(resend), missing, total), doneSent := false)
    {
      var i := 0;
      while i < |missing|
        invariant i <= |missing|
        invariant View() == old(View()).(resend := resend)
        invariant AddMissing(resend, missing[i..], total) == AddMissing(old(resend), missing, total)
      {
        assert missing[i..][1..] == missing[i + 1..];
        if missing[i] < total && missing[i] !in resend {
          resend := resend + [missing[i]];
        }
        i := i + 1;
      }
      doneSent := false;
    }
  }

  class Receiver {
    const kind: Kind
    const name: string
    const size: nat
    const total: nat
    const hash: Option<Digest>
    const buf: array<byte>
    var received: nat
    const flags: array<bool>
    var lastNack: Option<nat>
    const createdAt: nat

    ghost function View(): Rcv
      reads this, buf, flags
    {
      Rcv(kind, name, size, total, hash, buf[..], received, flags[..], lastNack, createdAt)
    }

    constructor (kind: Kind, name: string, size: nat, chunks: nat, hash: Option<Digest>, now: nat)
      ensures View() == NewRcv(kind, name, size, chunks, hash, now)
      ensures fresh(buf) && fresh(flags)
    {
      this.kind, this.name, this.size, this.total, this.hash := kind, name, size, chunks, hash;
      this.buf := new byte[size](_ => 0);
      this.received, this.flags := 0, new bool[chunks](_ => false);
      this.lastNack, this.createdAt := None, now;
    }

    /** Puts a chunk in place; only its first arrival is counted. */
    method Store(index: nat, payload: seq<byte>)
      modifies this, buf, flags
      ensures View() == RcvChunk(old(View()), index, payload)
    {
      if index >= total {
        return;
      }
      var start := index * CHUNK_SIZE;
      if start + |payload| > buf.Length {
        return;
      }
      ghost var before := buf[..];
      forall j | 0 <= j < |payload| {
        buf[start + j] := payload[j];
      }
      assert buf[..] == Overwrite(before, start, payload);
      if index >= flags.Length || flags[index] {
        return;
      }
      flags[index] := true;
      received := received + 1;
    }

    /** The unset flags, in order. */
    method Missing() returns (missing: seq<nat>)
      ensures missing == MissingOf(flags[..])
    {
      missing := [];
      for i := 0 to flags.Length
        invariant missing == MissingOf(flags[..i])
      {
        assert flags[..i + 1][..i] == flags[..i];
        if !flags[i] {
          missing := missing + [i];
        }
      }
      assert flags[..flags.Length] == flags[..];
    }
  }

  class FileTransfer {
    const tag: nat
    const sha: seq<byte> -> Digest
    var send: Sender?
    var queue: seq<Queued>
    var lastDoneFile: Option<Id>
    var sendSeq: nat
    ghost var trace: Trace
    var recv: map<Id, Receiver>
    var recvDir: Option<Path>
    var completed: map<Id, nat>
    var allowRequest: bool
    var clipboardImage: Option<seq<byte>>
    ghost var commits: seq<Committed>
    var history: seq<Record>
    ghost var records: seq<Record>
    /** The values of the receivers in `recv`, and the objects they are made of. */
    ghost var model: map<Id, Rcv>
    ghost var footprint: set<object>

    ghost function OutView(): Outgoing
      reads this`send, this`queue, this`lastDoneFile, this`sendSeq, this`trace, send
    {
      Outgoing(if send == null then None else Some(send.View()), queue, lastDoneFile, sendSeq, trace)
    }

    ghost function Parts(r: Receiver): set<object> {
      {r, r.buf, r.flags}
    }

    /** The receivers lie in `space` and share nothing. */
    ghost predicate Apart(rs: map<Id, Receiver>, space: set<object>) {
      && (forall a :: a in rs ==> Parts(rs[a]) <= space)
      && (forall a, b :: a in rs && b in rs && a != b ==> Parts(rs[a]) !! Parts(rs[b]))
    }

    /** The receivers hold what `values` says, in objects of `space` that they do not share. */
    ghost predicate Holds(rs: map<Id, Receiver>, values: map<Id, Rcv>, space: set<object>)
      reads space
    {
      && values.Keys == rs.Keys && Apart(rs, space)
      && (forall a :: a in rs ==> rs[a].View() == values[a])
    }

    /** `model` is what the receivers hold; the footprint is made of their objects. */
    ghost predicate Owned()
      reads this`recv, this`model, this`footprint, footprint
    {
      this !in footprint && Holds(recv, model, footprint)
    }

    lemma HoldsWith(rs: map<Id, Receiver>, values: map<Id, Rcv>, space: set<object>, id: Id, r: Receiver)
      requires Holds(rs, values, space) && space !! Parts(r) && id !in rs
      ensures Holds(rs[id := r], values[id := r.View()], space + Parts(r))
    {
      hide Parts;
    }

    lemma HoldsWithout(rs: map<Id, Receiver>, values: map<Id, Rcv>, space: set<object>, id: Id)
      requires Holds(rs, values, space) && id in rs
      ensures rs[id].View() == values[id] && Parts(rs[id]) <= space
      ensures Holds(rs - {id}, values - {id}, space - Parts(rs[id]))
    {
      hide Parts;
    }

    /** One receiver is put back after its content has changed. */
    lemma HoldsAgain(rs: map<Id, Receiver>, values: map<Id, Rcv>, space: set<object>, id: Id)
      requires id in rs && values.Keys == rs.Keys && Parts(rs[id]) <= space
      requires Holds(rs - {id}, values - {id}, space - Parts(rs[id]))
      ensures Holds(rs, values[id := rs[id].View()], space)
    {
      hide Holds, Parts;
      var (r, rest, others) := (rs[id], rs - {id}, values - {id});
      HoldsWith(rest, others, space - Parts(r), id, r);
      assert rest[id := r] == rs && others[id := r.View()] == values[id := r.View()];
      assert space - Parts(r) + Parts(r) == space;
    }

    ghost function IncView(): Incoming
      reads this`model, this`recvDir, this`completed, this`allowRequest, this`clipboardImage, this`commits
    {
      Incoming(model, recvDir, completed, allowRequest, clipboardImage, commits)
    }

    ghost function BookView(): Book
      reads this`history, this`records
    {
      Book(history, records)
    }

    ghost function View(): Peer
      reads this, send
    {
      Peer(tag, sha, OutView(), IncView(), BookView())
    }

    /** The object invariant. That indices and buffers are in range is part of PeerInv(View()),
        which every step of a run keeps. */
    ghost predicate Valid()
      reads this, footprint
    {
      Owned() && (send != null ==> send !in footprint)
    }

    constructor (tag: nat, sha: seq<byte> -> Digest, dir: Option<Path>)
      ensures Valid() && footprint == {} && send == null
      ensures View() == NewPeer(tag, sha, dir)
    {
      this.tag, this.sha := tag, sha;
      send, queue, lastDoneFile, sendSeq, trace := null, [], None, 0, Fresh;
      recv, recvDir, completed, allowRequest := map[], dir, map[], false;
      clipboardImage, commits, history, records, footprint := None, [], [], [], {};
      model := map[];
    }

    // ---- history ----

    method PushRecord(r: Record)
      modifies this`history, this`records
      ensures BookView() == Write(old(BookView()), r)
    {
      history := history + [r];
      records := records + [r];
      if |history| > MAX_HISTORY {
        history := history[|history| - MAX_HISTORY..];
      }
    }

    // ---- slot and queue ----

    /** Opens the file and puts its send into the slot. */
    method Start(ghost p: Peer, id: Id, path: Path, env: Env)
      requires path in env.disk
      requires p.out == OutView() && p.sha == sha
      modifies this`send, this`lastDoneFile, this`sendSeq, this`trace
      ensures fresh(send) && OutView() == Launch(p, id, path, env).out
    {
      send := new Sender(File, id, SendName(path), Some(path), env.disk[path], sha, env.now);
      lastDoneFile := None;
      sendSeq := sendSeq + 1;
      trace := Then(trace, Started(id, File, env.disk[path]));
    }

    method StartNextQueued(ghost p: Peer, env: Env)
      requires p.out == OutView() && p.book == BookView() && p.sha == sha
      modifies this`send, this`queue, this`lastDoneFile, this`sendSeq, this`trace, this`history, this`records
      ensures p.(out := OutView(), book := BookView()) == StartNext(p, env)
      ensures send == old(send) || fresh(send)
    {
      ghost var rest := p;
      while queue != []
        invariant rest == p.(out := OutView(), book := BookView())
        invariant StartNext(rest, env) == StartNext(p, env)
        invariant send == old(send)
        decreases |queue|
      {
        var q := queue[0];
        queue := queue[1..];
        if Openable(q.path, env) {
          rest := rest.(out := OutView());
          Start(rest, q.id, q.path, env);
          return;
        }
        trace := Then(Then(trace, Dropped(q.id)), Logged(QueueRecord(q, Failure)));
        PushRecord(QueueRecord(q, Failure));
        assert rest.out.queue[..0] + rest.out.queue[1..] == queue;
        rest := DropQueued(rest, 0, Failure);
      }
    }

    method SendFile(path: Path, env: Env) returns (ok: bool)
      requires Valid()
      modifies this`send, this`queue, this`lastDoneFile, this`sendSeq, this`trace
      ensures Valid()
      ensures (old(View()).(out := OutView()), ok) == TransferSpec.SendFile(old(View()), path, env)
      ensures send == old(send) || fresh(send)
    {
      hide Owned, NewSnd, FileName;
      KeysAgree();
      if path !in env.disk {
        return false;
      }
      var size := |env.disk[path]|;
      if size == 0 || size > MAX_FILE_SIZE {
        return false;
      }
      if send != null {
        ok := PushQueue(path, size);
      } else {
        if path in env.locked {
          return false;
        }
        ghost var p := View();
        var id := Id(tag, false, sendSeq);
        trace := Then(trace, Accepted(id));
        Start(p.(out := OutView()), id, path, env);
        ok := true;
      }
    }

    method PushQueue(path: Path, size: nat) returns (ok: bool)
      modifies this`queue, this`sendSeq, this`trace
      ensures ok == (|old(queue)| < MAX_QUEUE)
      ensures var id := Id(tag, true, old(sendSeq));
              OutView() == if !ok then old(OutView())
                           else Note(old(OutView()).(queue := old(queue) + [Queued(id, path, SendName(path), size)],
                                                     sendSeq := old(sendSeq) + 1), Accepted(id))
    {
      if |queue| >= MAX_QUEUE {
        return false;
      }
      var id := Id(tag, true, sendSeq);
      sendSeq := sendSeq + 1;
      queue := queue + [Queued(id, path, SendName(path), size)];
      trace := Then(trace, Accepted(id));
      ok := true;
    }

    method SendClipboardImage(png: seq<byte>, env: Env) returns (ok: bool)
      requires Valid()
      modifies this`send, this`sendSeq, this`trace
      ensures Valid()
      ensures (old(View()).(out := OutView()), ok) == SendImage(old(View()), png, env)
      ensures send == old(send) || fresh(send)
    {
      hide Owned, NewSnd, ImageName, ChunkCount;
      KeysAgree();
      if send != null && !send.confirmed {
        return false;
      }
      if png == [] || |png| > MAX_CLIPBOARD_IMAGE {
        return false;
      }
      var name := ImageName(sendSeq);
      var id := Id(tag, false, sendSeq + 1);
      send := new Sender(ClipboardImage, id, name, None, png, sha, env.now);
      sendSeq := sendSeq + 2;
      trace := Then(trace, Started(id, ClipboardImage, png));
      ok := true;
    }

    /** Empties the slot and writes the history record of the send that was in it. */
    method CloseSlot(ghost p: Peer, outcome: Outcome)
      requires send != null && p.out == OutView() && p.book == BookView()
      modifies this`send, this`trace, this`history, this`records
      ensures send == null
      ensures p.(out := OutView(), book := BookView()) == LogSend(EmptySlot(p), SendRecord(p.out.send.value, outcome))
    {
      var record := Record(Sending, send.id, send.name, |send.content|, outcome, send.path);
      trace := Then(trace, Logged(record));
      PushRecord(record);
      send := null;
    }

    method CancelSend(ep: Endpoint, env: Env)
      requires Valid() && ep !in footprint
      modifies this`send, this`queue, this`lastDoneFile, this`sendSeq, this`trace, this`history, this`records, ep
      ensures Valid()
      ensures (old(View()).(out := OutView(), book := BookView()), ep.View())
           == TransferSpec.CancelSend(old(View()), old(ep.View()), env)
      ensures send == old(send) || send == null || fresh(send)
    {
      hide Owned, StartNext, LogSend, EmptySlot, Push;
      KeysAgree();
      ghost var p := View();
      if send == null {
        return;
      }
      var _ := ep.Send(Cancel(send.id));
      CloseSlot(p, Cancelled);
      StartNextQueued(p.(out := OutView(), book := BookView()), env);
    }

    method CancelSendId(id: Id, ep: Endpoint, env: Env) returns (hit: bool)
      requires Valid() && ep !in footprint
      modifies this`send, this`queue, this`lastDoneFile, this`sendSeq, this`trace, this`history, this`records, ep
      ensures Valid()
      ensures (old(View()).(out := OutView(), book := BookView()), ep.View(), hit)
           == TransferSpec.CancelSendId(old(View()), id, old(ep.View()), env)
      ensures send == old(send) || send == null || fresh(send)
    {
      hide Owned;
      KeysAgree();
      if send != null && send.id == id {
        CancelSend(ep, env);
        return true;
      }
      var pos := QueuePosition(queue, id);
      if pos == |queue| {
        return false;
      }
      var q := queue[pos];
      queue := queue[..pos] + queue[pos + 1..];
      trace := Then(Then(trace, Dropped(q.id)), Logged(QueueRecord(q, Cancelled)));
      PushRecord(QueueRecord(q, Cancelled));
      hit := true;
    }

    method SendComplete() returns (done: bool)
      ensures done <==> TransferSpec.SendComplete(OutView())
    {
      done := (send != null && send.confirmed && send.kind == File) || lastDoneFile.Some?;
    }

    /** The part of a tick that drives the active send and the queue. */
    method Advance(ghost p: Peer, ep: Endpoint, env: Env)
      requires p == View() && (send != null ==> SndShape(send.View()))
      modifies this`send, this`queue, this`lastDoneFile, this`sendSeq, this`trace, this`history, this`records, send, ep
      ensures (p.(out := OutView(), book := BookView()), ep.View()) == AdvanceSend(p, old(ep.View()), env)
      ensures send == old(send) || send == null || fresh(send)
    {
      if send == null {
        return;
      }
      var s: Sender := send;
      s.Tick(ep, env.now, env.unreadable);
      if s.failed {
        CloseSlot(p.(out := OutView()), Failure);
        StartNextQueued(p.(out := OutView(), book := BookView()), env);
      } else if s.confirmed && queue != [] {
        send := null;
        StartNextQueued(EmptySlot(p), env);
      }
    }

    // ---- receiving ----

    method Insert(id: Id, r: Receiver)
      requires Owned() && footprint !! Parts(r) && this !in Parts(r) && id !in recv
      modifies this`recv, this`model, this`footprint
      ensures Owned() && footprint == old(footprint) + Parts(r) && model == old(model)[id := r.View()]
    {
      hide Holds, Parts;
      HoldsWith(recv, model, footprint, id, r);
      recv := recv[id := r];
      model := model[id := r.View()];
      footprint := footprint + Parts(r);
    }

    method Remove(id: Id) returns (r: Receiver)
      requires Owned() && id in recv
      modifies this`recv, this`model, this`footprint
      ensures r.View() == old(model)[id] && Parts(r) <= old(footprint)
      ensures Owned() && footprint == old(footprint) - Parts(r) && model == old(model) - {id}
    {
      hide Holds, Parts;
      HoldsWithout(recv, model, footprint, id);
      r := recv[id];
      recv := recv - {id};
      model := model - {id};
      footprint := footprint - Parts(r);
    }

    lemma KeysAgree()
      requires Owned()
      ensures recv.Keys == model.Keys && |recv| == |model| && this !in footprint
    {
      assert |recv| == |recv.Keys| && |model| == |model.Keys|;
    }

    method OnMeta(ghost p: Peer, m: Message, env: Env)
      requires m.Meta? && Owned() && p == View()
      modifies this`recv, this`model, this`footprint
      ensures Owned() && fresh(footprint - old(footprint))
      ensures p.(inc := IncView()) == TransferSpec.OnMeta(p, m, env)
    {
      hide Owned, SafeFileName, ChunkCount, NewRcv;
      KeysAgree();
      var image := m.kind == ClipboardImage;
      if !image && recvDir.None? {
        return;
      }
      if m.id in recv {
        return;
      }
      var name := if image then "clipboard-image.png" else SafeFileName(m.name);
      if name == "" {
        return;
      }
      var expected := ChunkCount(m.size);
      var limit := if image then MAX_CLIPBOARD_IMAGE else MAX_FILE_SIZE;
      if m.size == 0 || m.size > limit {
        return;
      }
      if m.chunks != expected {
        return;
      }
      if |recv| >= MAX_RECV {
        return;
      }
      var r := new Receiver(m.kind, name, m.size, m.chunks, m.hash, env.now);
      Insert(m.id, r);
    }

    method OnChunk(ghost p: Peer, m: Message)
      requires m.Chunk? && Owned() && p == View()
      modifies footprint, this`model
      ensures Owned()
      ensures p.(inc := IncView()) == TransferSpec.OnChunk(p, m)
    {
      hide Holds, RcvChunk;
      KeysAgree();
      if m.id !in recv {
        return;
      }
      var r := recv[m.id];
      HoldsWithout(recv, model, footprint, m.id);
      r.Store(m.index, m.payload);
      HoldsAgain(recv, model, footprint, m.id);
      model := model[m.id := r.View()];
    }

    /** Puts a receiver with gaps back and asks for the first 512 of them; one without gaps is
        given up. */
    method RequestResend(ghost p: Peer, id: Id, r: Receiver, ep: Endpoint, env: Env)
      requires Owned() && footprint !! Parts(r) && this !in Parts(r) && ep !in footprint && id !in recv
      requires p.inc == IncView() && p.book == BookView()
      modifies this`recv, this`model, this`footprint, this`history, this`records, r`lastNack, ep
      ensures Owned() && footprint <= old(footprint) + Parts(r)
      ensures (p.(inc := IncView(), book := BookView()), ep.View())
           == TransferSpec.RequestResend(p, id, old(r.View()), old(ep.View()), env)
    {
      hide Owned;
      KeysAgree();
      var missing := r.Missing();
      if missing == [] {
        PushRecord(Record(Receiving, id, r.name, r.size, Failure, None));
        return;
      }
      var _ := ep.Send(Nack(id, missing[..Min(|missing|, NACK_BATCH)]));
      r.lastNack := Some(env.now);
      Insert(id, r);
    }

    method OnCancel(ghost p: Peer, m: Message)
      requires m.Cancel? && Owned() && p == View()
      modifies this`recv, this`model, this`footprint, this`history, this`records
      ensures Owned() && footprint <= old(footprint)
      ensures p.(inc := IncView(), book := BookView()) == TransferSpec.OnCancel(p, m)
    {
      hide Owned;
      KeysAgree();
      if m.id in recv {
        var r := Remove(m.id);
        PushRecord(Record(Receiving, m.id, r.name, r.size, Cancelled, None));
      }
    }

    /** The first of the earliest entries of `completed`. */
    method FindOldest(order: seq<Id>) returns (best: Option<Id>)
      ensures best == Oldest(order, completed)
    {
      best := None;
      for i := 0 to |order|
        invariant best == Oldest(order[..i], completed)
      {
        assert order[..i + 1][..i] == order[..i];
        var k := order[i];
        if k in completed && (best.None? || best.value !in completed || completed[k] < completed[best.value]) {
          best := Some(k);
        }
      }
      assert order[..|order|] == order;
    }

    /** Remembers that `id` was acknowledged; the cache stays bounded. */
    method Acknowledge(id: Id, env: Env)
      modifies this`completed
      ensures completed == Remember(old(completed), id, env)
    {
      completed := completed[id := env.now];
      if |completed| > MAX_COMPLETED {
        var oldest := FindOldest(env.order);
        if oldest.Some? {
          completed := completed - {oldest.value};
        }
      }
    }

    /** Stores a complete buffer, or hands it to the clipboard, and acknowledges it. */
    method CommitReceived(id: Id, r: Receiver, ep: Endpoint, env: Env)
      requires ep !in footprint
      modifies this`completed, this`commits, this`clipboardImage, this`history, this`records, ep
      ensures (old(View()).(inc := IncView(), book := BookView()), ep.View())
           == Commit(old(View()), id, r.View(), old(ep.View()), env)
    {
      if r.kind == ClipboardImage {
        clipboardImage := Some(r.buf[..]);
        commits := commits + [Committed(id, r.name, r.buf[..])];
        Acknowledge(id, env);
        var _ := ep.Send(Done(id, true));
        return;
      }
      if recvDir.None? || !env.writable {
        return;
      }
      commits := commits + [Committed(id, r.name, r.buf[..])];
      PushRecord(Record(Receiving, id, r.name, r.size, Success, None));
      Acknowledge(id, env);
      var _ := ep.Send(Done(id, true));
    }

    /** The sender is done with `id`: a complete and intact buffer is committed, otherwise the
        receiver goes back to wait for repair. */
    method FinishReceive(ghost p: Peer, id: Id, r: Receiver, ep: Endpoint, env: Env)
      requires Owned() && footprint !! Parts(r) && this !in Parts(r) && ep !in footprint && id !in recv
      requires p == View()
      modifies this`recv, this`model, this`footprint, this`completed, this`commits, this`clipboardImage,
               this`history, this`records, r`lastNack, ep
      ensures Owned() && footprint <= old(footprint) + Parts(r)
      ensures (p.(inc := IncView(), book := BookView()), ep.View())
           == var v := old(r.View());
              if v.received != v.total || |v.buf| != v.size || (v.hash.Some? && sha(v.buf) != v.hash.value)
              then TransferSpec.RequestResend(p, id, v, old(ep.View()), env)
              else Commit(p, id, v, old(ep.View()), env)
    {
      hide Owned, TransferSpec.RequestResend, Commit, Push;
      KeysAgree();
      if r.received != r.total || r.buf.Length != r.size {
        RequestResend(p, id, r, ep, env);
        return;
      }
      if r.hash.Some? && sha(r.buf[..]) != r.hash.value {
        RequestResend(p, id, r, ep, env);
        return;
      }
      CommitReceived(id, r, ep, env);
    }

    method OnDone(ghost p: Peer, m: Message, ep: Endpoint, env: Env)
      requires m.Done? && Owned() && ep !in footprint && p == View()
      modifies this`recv, this`model, this`footprint, this`completed, this`commits, this`clipboardImage,
               this`history, this`records, footprint, ep
      ensures Owned() && footprint <= old(footprint)
      ensures (p.(inc := IncView(), book := BookView()), ep.View()) == TransferSpec.OnDone(p, m, old(ep.View()), env)
    {
      hide Owned, TransferSpec.RequestResend, Commit;
      KeysAgree();
      if m.id !in recv {
        if m.ok {
          var _ := ep.Send(Done(m.id, m.id in completed));
        }
        return;
      }
      var r := Remove(m.id);
      ghost var p1 := View();
      assert p1 == DropRcv(p, m.id);
      if m.ok {
        KeysAgree();
        FinishReceive(p1, m.id, r, ep, env);
      }
    }

    // ---- one message ----

    /** A Done for the active send. */
    method OnAck(ghost p: Peer, ok: bool)
      requires send != null && p == View()
      modifies this`lastDoneFile, this`trace, this`history, this`records, send
      ensures p.(out := OutView(), book := BookView()) == TransferSpec.OnAck(p, ok)
    {
      send.confirmed := true;
      if !ok {
        send.failed := true;
      }
      if send.kind == File {
        lastDoneFile := Some(send.id);
      }
      trace := Then(trace, Acked(send.id, send.kind, ok));
      if ok {
        var record := Record(Sending, send.id, send.name, |send.content|, Success, send.path);
        trace := Then(trace, Logged(record));
        PushRecord(record);
      }
    }

    method OnNack(ghost p: Peer, m: Message)
      requires m.Nack? && p == View()
      modifies send
      ensures p.(out := OutView()) == TransferSpec.OnNack(p, m)
    {
      if send != null && send.id == m.id && !send.confirmed {
        send.AddResends(m.missing);
      }
    }

    /** What another peer finished, or has finished receiving from us. */
    method OnDoneOrAck(m: Message, ep: Endpoint, env: Env)
      requires m.Done? && Valid() && ep !in footprint
      modifies this, send, footprint, ep
      ensures Valid() && footprint <= old(footprint) && send == old(send)
      ensures (View(), ep.View()) == if old(send != null && send.id == m.id)
                                     then (TransferSpec.OnAck(old(View()), m.ok), old(ep.View()))
                                     else TransferSpec.OnDone(old(View()), m, old(ep.View()), env)
    {
      hide Owned, TransferSpec.OnDone, TransferSpec.OnAck;
      KeysAgree();
      ghost var p := View();
      if send != null && send.id == m.id {
        OnAck(p, m.ok);
      } else {
        OnDone(p, m, ep, env);
      }
    }

    method HandleData(m: Message, ep: Endpoint, env: Env)
      requires Valid() && ep !in footprint
      modifies this, send, footprint, ep
      ensures Valid() && fresh(footprint - old(footprint)) && (send == old(send) || fresh(send))
      ensures (View(), ep.View()) == TransferSpec.HandleData(old(View()), m, old(ep.View()), env)
    {
      hide Owned, TransferSpec.OnChunk, TransferSpec.OnMeta, TransferSpec.OnDone, TransferSpec.OnCancel,
           TransferSpec.OnNack, TransferSpec.OnAck, TransferSpec.SendFile, SndShape;
      KeysAgree();
      ghost var p := View();
      match m
      case Chunk(_, _, _) => OnChunk(p, m);
      case Meta(_, _, _, _, _, _) => OnMeta(p, m, env);
      case Done(_, _) => OnDoneOrAck(m, ep, env);
      case Cancel(_) => OnCancel(p, m);
      case Nack(_, _) => OnNack(p, m);
      case Request(path) =>
        if allowRequest {
          var _ := SendFile(path, env);
        }
    }

    // ---- tick ----

    lemma ViewAt(id: Id)
      requires Owned() && id in recv
      ensures id in model && recv[id].View() == model[id]
    {
    }

    method ExpireIfDue(ghost p: Peer, id: Id, now: nat)
      requires Owned() && p.inc == IncView() && p.book == BookView()
      modifies this`recv, this`model, this`footprint, this`history, this`records
      ensures Owned() && footprint <= old(footprint)
      ensures p.(inc := IncView(), book := BookView())
           == if id in p.inc.recv && Expired(p.inc.recv[id], now)
              then LogReceive(DropRcv(p, id), id, p.inc.recv[id], Failure) else p
    {
      hide Owned;
      KeysAgree();
      if id in recv {
        ViewAt(id);
        if Elapsed(now, recv[id].createdAt) >= RECV_TTL {
          var r := Remove(id);
          PushRecord(Record(Receiving, id, r.name, r.size, Failure, None));
        }
      }
    }

    /** Drops the receivers whose time is up. */
    method ExpireReceivers(ghost p: Peer, order: seq<Id>, now: nat)
      requires Owned() && p.inc == IncView() && p.book == BookView()
      modifies this`recv, this`model, this`footprint, this`history, this`records
      ensures Owned() && footprint <= old(footprint)
      ensures p.(inc := IncView(), book := BookView()) == TransferSpec.ExpireReceivers(p, order, now)
    {
      ghost var rest := p;
      for i := 0 to |order|
        invariant Owned() && footprint <= old(footprint)
        invariant rest == p.(inc := IncView(), book := BookView())
        invariant TransferSpec.ExpireReceivers(rest, order[i..], now) == TransferSpec.ExpireReceivers(p, order, now)
      {
        hide Owned;
        assert order[i..][0] == order[i] && order[i..][1..] == order[i + 1..];
        ExpireIfDue(rest, order[i], now);
        rest := rest.(inc := IncView(), book := BookView());
      }
      assert order[|order|..] == [];
    }

    method RetryIfDue(ghost p: Peer, id: Id, ep: Endpoint, env: Env)
      requires Owned() && ep !in footprint && p.inc == IncView() && p.book == BookView()
      modifies this`recv, this`model, this`footprint, this`history, this`records, footprint, ep
      ensures Owned() && footprint <= old(footprint)
      ensures (p.(inc := IncView(), book := BookView()), ep.View())
           == if id in p.inc.recv && NackDue(p.inc.recv[id], env.now)
              then TransferSpec.RequestResend(DropRcv(p, id), id, p.inc.recv[id], old(ep.View()), env)
              else (p, old(ep.View()))
    {
      hide Owned, TransferSpec.RequestResend;
      KeysAgree();
      if id in recv {
        ViewAt(id);
        if recv[id].lastNack.Some? && Elapsed(env.now, recv[id].lastNack.value) >= RETRY_AFTER {
          var r := Remove(id);
          KeysAgree();
          RequestResend(DropRcv(p, id), id, r, ep, env);
        }
      }
    }

    /** Repeats the Nacks that have gone unanswered for a second. */
    method RetryNacks(ghost p: Peer, order: seq<Id>, ep: Endpoint, env: Env)
      requires Owned() && ep !in footprint && p.inc == IncView() && p.book == BookView()
      modifies this`recv, this`model, this`footprint, this`history, this`records, footprint, ep
      ensures Owned() && footprint <= old(footprint)
      ensures (p.(inc := IncView(), book := BookView()), ep.View())
           == TransferSpec.RetryNacks(p, order, old(ep.View()), env)
    {
      ghost var rest := p;
      for i := 0 to |order|
        invariant Owned() && footprint <= old(footprint)
        invariant rest == p.(inc := IncView(), book := BookView())
        invariant TransferSpec.RetryNacks(rest, order[i..], ep.View(), env)
                  == TransferSpec.RetryNacks(p, order, old(ep.View()), env)
      {
        hide Owned;
        assert order[i..][0] == order[i] && order[i..][1..] == order[i + 1..];
        RetryIfDue(rest, order[i], ep, env);
        rest := rest.(inc := IncView(), book := BookView());
      }
      assert order[|order|..] == [];
    }

    /** Forgets receivers and acknowledgements that are too old. */
    method ExpireOld(env: Env)
      requires Owned()
      modifies this`recv, this`model, this`footprint, this`completed, this`history, this`records
      ensures Owned() && footprint <= old(footprint)
      ensures View() == ExpireCompleted(TransferSpec.ExpireReceivers(old(View()), env.order, env.now), env.now)
    {
      hide Owned, TransferSpec.ExpireReceivers;
      KeysAgree();
      ExpireReceivers(View(), env.order, env.now);
      completed := map id | id in completed && Elapsed(env.now, completed[id]) < COMPLETED_TTL :: completed[id];
    }

    /** Drives the active send, then repeats overdue Nacks. */
    method AdvanceAndRetry(ep: Endpoint, env: Env)
      requires Valid() && ep !in footprint && (send != null ==> SndShape(send.View()))
      modifies this, send, footprint, ep
      ensures Valid() && footprint <= old(footprint) && (send == old(send) || send == null || fresh(send))
      ensures (View(), ep.View()) == var (p, c) := AdvanceSend(old(View()), old(ep.View()), env);
                                     TransferSpec.RetryNacks(p, env.order, c, env)
    {
      hide Owned, TransferSpec.RetryNacks, AdvanceSend, SndShape;
      KeysAgree();
      Advance(View(), ep, env);
      RetryNacks(View(), env.order, ep, env);
    }

    /** One round of the event loop. */
    method Tick(ep: Endpoint, env: Env)
      requires Valid() && ep !in footprint && (send != null ==> SndShape(send.View()))
      modifies this, send, footprint, ep
      ensures Valid() && footprint <= old(footprint) && (send == old(send) || send == null || fresh(send))
      ensures (View(), ep.View()) == TransferSpec.Tick(old(View()), old(ep.View()), env)
    {
      hide Owned, TransferSpec.ExpireReceivers, TransferSpec.RetryNacks, AdvanceSend, SndShape, ExpireCompleted;
      KeysAgree();
      ExpireOld(env);
      AdvanceAndRetry(ep, env);
    }
  }
}
