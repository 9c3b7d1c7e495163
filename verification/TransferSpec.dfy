/** What each operation of the file-transfer state machine does, as functions on values.
    The classes of TransferObjects compute exactly these functions; the theorems about runs
    are stated on them. */
module TransferSpec {
  import opened Bytes
  import opened FileProtocol

  // ---- surroundings of one operation ----

  /** The data channel: what it has accepted, and whether it will accept the next messages.
      A refused message is not sent; with no verdict left the channel refuses. */
  datatype Channel = Channel(sent: seq<Message>, verdicts: seq<bool>)

  /** Readings of the outside world during one operation. */
  datatype Env = Env(
    now: nat,                     // the clock
    disk: map<Path, seq<byte>>,   // the files that exist
    locked: set<Path>,            // files that exist but cannot be opened or hashed
    unreadable: set<nat>,         // chunk indices whose read from disk fails
    writable: bool,               // whether storing a received file succeeds
    order: seq<Id>)               // the order in which hash maps are iterated

  ghost predicate Covers(order: seq<Id>, keys: set<Id>) {
    && (forall i, j :: 0 <= i < j < |order| ==> order[i] != order[j])
    && (forall k :: k in keys ==> k in order)
  }

  function Push(c: Channel, m: Message): Channel {
    if Accepts(c) then Channel(c.sent + [m], c.verdicts[1..])
    else Channel(c.sent, if c.verdicts == [] then [] else c.verdicts[1..])
  }

  predicate Accepts(c: Channel) {
    c.verdicts != [] && c.verdicts[0]
  }

  // ---- state ----

  datatype Snd = Snd(
    kind: Kind, id: Id, name: string, path: Option<Path>, content: seq<byte>, inMemory: bool,
    hash: Digest, total: nat, nextChunk: nat, metaSent: bool, lastMeta: nat, doneSent: bool,
    lastDone: nat, startAfter: nat, resend: seq<nat>, confirmed: bool, failed: bool)

  datatype Rcv = Rcv(
    kind: Kind, name: string, size: nat, total: nat, hash: Option<Digest>, buf: seq<byte>,
    received: nat, flags: seq<bool>, lastNack: Option<nat>, createdAt: nat)

  datatype Queued = Queued(id: Id, path: Path, name: string, size: nat)

  datatype Direction = Sending | Receiving
  datatype Outcome = Success | Failure | Cancelled
  datatype Record = Record(direction: Direction, id: Id, name: string, size: nat, outcome: Outcome, path: Option<Path>)

  /** What has happened to the sending side so far. The program keeps no such trace: it is
      what the properties of whole runs are about. */
  datatype Event =
    | Accepted(id: Id)                                   // a regular send was accepted
    | Started(id: Id, kind: Kind, content: seq<byte>)    // a send took the slot
    | Dropped(id: Id)                                    // a queued send was cancelled or could not be opened
    | Acked(id: Id, kind: Kind, ok: bool)                // the active send got its Done
    | Logged(record: Record)                             // the history record of a send was written

  datatype Trace = Fresh | Then(before: Trace, event: Event)

  datatype Outgoing = Outgoing(
    send: Option<Snd>, queue: seq<Queued>, lastDoneFile: Option<Id>, sendSeq: nat, trace: Trace)

  /** A received buffer that was stored, or handed to the clipboard. */
  datatype Committed = Committed(id: Id, name: string, content: seq<byte>)

  datatype Incoming = Incoming(
    recv: map<Id, Rcv>, dir: Option<Path>, completed: map<Id, nat>, allowRequest: bool,
    image: Option<seq<byte>>, commits: seq<Committed>)

  /** The bounded history, and everything that was ever written to it. */
  datatype Book = Book(history: seq<Record>, all: seq<Record>)

  datatype Peer = Peer(tag: nat, sha: seq<byte> -> Digest, out: Outgoing, inc: Incoming, book: Book)

  ghost function NewPeer(tag: nat, sha: seq<byte> -> Digest, dir: Option<Path>): Peer {
    Peer(tag, sha, Outgoing(None, [], None, 0, Fresh), Incoming(map[], dir, map[], false, None, []), Book([], []))
  }

  // ---- sender ----

  ghost function NewSnd(kind: Kind, id: Id, name: string, path: Option<Path>, content: seq<byte>,
                        sha: seq<byte> -> Digest, now: nat): Snd {
    Snd(kind, id, name, path, content, path.None?, sha(content), ChunkCount(|content|), 0,
        false, now, false, now, now + START_DELAY, [], false, false)
  }

  function MetaOf(s: Snd): Message {
    Meta(s.id, s.name, |s.content|, s.total, Some(s.hash), s.kind)
  }

  ghost predicate SndShape(s: Snd) {
    && s.total == ChunkCount(|s.content|)
    && s.nextChunk <= s.total
    && (forall i :: 0 <= i < |s.resend| ==> s.resend[i] < s.total)
    && (forall i, j :: 0 <= i < j < |s.resend| ==> s.resend[i] != s.resend[j])
  }

  predicate ReadFails(s: Snd, index: nat, unreadable: set<nat>) {
    !s.inMemory && index in unreadable
  }

  ghost function MetaStep(s: Snd, c: Channel, now: nat): (Snd, Channel) {
    if s.metaSent && Elapsed(now, s.lastMeta) < RETRY_AFTER then (s, c)
    else (if Accepts(c) then s.(metaSent := true, lastMeta := now) else s, Push(c, MetaOf(s)))
  }

  ghost function ResendStep(s: Snd, c: Channel, unreadable: set<nat>): (Snd, Channel)
    requires SndShape(s) && s.resend != []
  {
    var index := s.resend[|s.resend| - 1];
    if ReadFails(s, index, unreadable) then (s.(failed := true, confirmed := true), c)
    else
      (if Accepts(c) then s.(resend := s.resend[..|s.resend| - 1]) else s,
       Push(c, Chunk(s.id, index, Slice(s.content, index))))
  }

  ghost function BurstStep(s: Snd, c: Channel, unreadable: set<nat>, left: nat): (Snd, Channel)
    requires SndShape(s)
    decreases left
  {
    if left == 0 || s.nextChunk >= s.total then (s, c)
    else if ReadFails(s, s.nextChunk, unreadable) then (s.(failed := true, confirmed := true), c)
    else
      var c' := Push(c, Chunk(s.id, s.nextChunk, Slice(s.content, s.nextChunk)));
      if Accepts(c) then BurstStep(s.(nextChunk := s.nextChunk + 1), c', unreadable, left - 1) else (s, c')
  }

  ghost function DoneStep(s: Snd, c: Channel, now: nat): (Snd, Channel) {
    if s.doneSent && Elapsed(now, s.lastDone) < RETRY_AFTER then (s, c)
    else (if Accepts(c) then s.(doneSent := true, lastDone := now) else s, Push(c, Done(s.id, true)))
  }

  ghost function SndTick(s: Snd, c: Channel, now: nat, unreadable: set<nat>): (Snd, Channel)
    requires SndShape(s)
  {
    if s.confirmed || now < s.startAfter then (s, c)
    else
      var (s1, c1) := MetaStep(s, c, now);
      if !s1.metaSent then (s1, c1)
      else if s1.resend != [] then ResendStep(s1, c1, unreadable)
      else if s1.nextChunk < s1.total then BurstStep(s1, c1, unreadable, BURST)
      else DoneStep(s1, c1, now)
  }

  /** The resend stack after a Nack: new valid indices on top, none twice. */
  ghost function AddMissing(resend: seq<nat>, missing: seq<nat>, total: nat): seq<nat>
    decreases |missing|
  {
    if missing == [] then resend
    else if missing[0] < total && missing[0] !in resend then AddMissing(resend + [missing[0]], missing[1..], total)
    else AddMissing(resend, missing[1..], total)
  }

  // ---- receiver ----

  function CountTrue(flags: seq<bool>): nat {
    if flags == [] then 0 else CountTrue(flags[..|flags| - 1]) + (if flags[|flags| - 1] then 1 else 0)
  }

  /** The indices of the unset flags, in increasing order. */
  function MissingOf(flags: seq<bool>): seq<nat> {
    if flags == [] then []
    else MissingOf(flags[..|flags| - 1]) + (if flags[|flags| - 1] then [] else [|flags| - 1])
  }

  ghost predicate RcvShape(r: Rcv) {
    && r.size > 0
    && r.total == ChunkCount(r.size)
    && |r.buf| == r.size
    && |r.flags| == r.total
    && r.received == CountTrue(r.flags)
  }

  function NewRcv(kind: Kind, name: string, size: nat, chunks: nat, hash: Option<Digest>, now: nat): Rcv {
    Rcv(kind, name, size, chunks, hash, seq(size, _ => 0), 0, seq(chunks, _ => false), None, now)
  }

  function Overwrite(buf: seq<byte>, start: nat, payload: seq<byte>): seq<byte>
    requires start + |payload| <= |buf|
  {
    buf[..start] + payload + buf[start + |payload|..]
  }

  ghost function RcvChunk(r: Rcv, index: nat, payload: seq<byte>): Rcv {
    if index >= r.total || ChunkStart(index) + |payload| > |r.buf| then r
    else
      var r' := r.(buf := Overwrite(r.buf, ChunkStart(index), payload));
      if index >= |r.flags| || r.flags[index] then r'
      else r'.(flags := r.flags[index := true], received := r.received + 1)
  }

  // ---- history ----

  function Trim(history: seq<Record>): seq<Record> {
    if |history| > MAX_HISTORY then history[|history| - MAX_HISTORY..] else history
  }

  ghost function Write(b: Book, r: Record): Book {
    Book(Trim(b.history + [r]), b.all + [r])
  }

  ghost function Note(o: Outgoing, e: Event): Outgoing {
    o.(trace := Then(o.trace, e))
  }

  /** Writes the history record of a send. */
  ghost function LogSend(p: Peer, r: Record): Peer {
    p.(out := Note(p.out, Logged(r)), book := Write(p.book, r))
  }

  /** Writes the history record of a receive. */
  ghost function LogReceive(p: Peer, id: Id, r: Rcv, outcome: Outcome): Peer {
    p.(book := Write(p.book, Record(Receiving, id, r.name, r.size, outcome, None)))
  }

  function SendRecord(s: Snd, outcome: Outcome): Record {
    Record(Sending, s.id, s.name, |s.content|, outcome, s.path)
  }

  function QueueRecord(q: Queued, outcome: Outcome): Record {
    Record(Sending, q.id, q.name, q.size, outcome, Some(q.path))
  }

  // ---- slot and queue ----

  predicate Openable(path: Path, env: Env) {
    path in env.disk && path !in env.locked && 0 < |env.disk[path]| <= MAX_FILE_SIZE
  }

  /** Puts a regular send into the slot; the completion of earlier sends is forgotten. */
  ghost function Launch(p: Peer, id: Id, path: Path, env: Env): Peer
    requires path in env.disk
  {
    var s := NewSnd(File, id, SendName(path), Some(path), env.disk[path], p.sha, env.now);
    p.(out := Note(p.out.(send := Some(s), lastDoneFile := None, sendSeq := p.out.sendSeq + 1),
                    Started(id, File, s.content)))
  }

  /** Takes the head of the queue away because it was cancelled or cannot be opened. */
  ghost function DropQueued(p: Peer, i: nat, outcome: Outcome): Peer
    requires i < |p.out.queue|
  {
    var q := p.out.queue[i];
    LogSend(p.(out := Note(p.out.(queue := p.out.queue[..i] + p.out.queue[i + 1..]), Dropped(q.id))),
            QueueRecord(q, outcome))
  }

  /** Starts the first queued file that can be opened; those before it are logged as failed. */
  ghost function StartNext(p: Peer, env: Env): Peer
    decreases |p.out.queue|
  {
    if p.out.queue == [] then p
    else
      var q := p.out.queue[0];
      if Openable(q.path, env) then Launch(p.(out := p.out.(queue := p.out.queue[1..])), q.id, q.path, env)
      else StartNext(DropQueued(p, 0, Failure), env)
  }

  /** `send_file`: the new state, and whether the file was accepted. */
  ghost function SendFile(p: Peer, path: Path, env: Env): (Peer, bool) {
    if path !in env.disk || |env.disk[path]| == 0 || |env.disk[path]| > MAX_FILE_SIZE then (p, false)
    else if p.out.send.Some? then
      if |p.out.queue| >= MAX_QUEUE then (p, false)
      else
        var id := Id(p.tag, true, p.out.sendSeq);
        var q := Queued(id, path, SendName(path), |env.disk[path]|);
        (p.(out := Note(p.out.(queue := p.out.queue + [q], sendSeq := p.out.sendSeq + 1), Accepted(id))), true)
    else if path in env.locked then (p, false)
    else
      var id := Id(p.tag, false, p.out.sendSeq);
      (Launch(p.(out := Note(p.out, Accepted(id))), id, path, env), true)
  }

  function Digits(n: nat): string {
    if n < 10 then ["0123456789"[n]] else Digits(n / 10) + ["0123456789"[n % 10]]
  }

  function ImageName(seqNo: nat): string {
    "clipboard-image-" + Digits(seqNo) + ".png"
  }

  ghost function SendImage(p: Peer, png: seq<byte>, env: Env): (Peer, bool) {
    if p.out.send.Some? && !p.out.send.value.confirmed then (p, false)
    else if png == [] || |png| > MAX_CLIPBOARD_IMAGE then (p, false)
    else
      // the counter is read twice: once for the name, once for the id
      var id := Id(p.tag, false, p.out.sendSeq + 1);
      var s := NewSnd(ClipboardImage, id, ImageName(p.out.sendSeq), None, png, p.sha, env.now);
      (p.(out := Note(p.out.(send := Some(s), sendSeq := p.out.sendSeq + 2), Started(id, ClipboardImage, png))), true)
  }

  ghost function EmptySlot(p: Peer): Peer {
    p.(out := p.out.(send := None))
  }

  ghost function CancelSend(p: Peer, c: Channel, env: Env): (Peer, Channel) {
    match p.out.send
    case None => (p, c)
    case Some(s) => (StartNext(LogSend(EmptySlot(p), SendRecord(s, Cancelled)), env), Push(c, Cancel(s.id)))
  }

  /** The position of the queued item `id`, or the length of the queue. */
  function QueuePosition(queue: seq<Queued>, id: Id): (i: nat)
    ensures i <= |queue|
    ensures i < |queue| ==> queue[i].id == id
    ensures forall j :: 0 <= j < i ==> queue[j].id != id
  {
    if queue == [] || queue[0].id == id then 0 else 1 + QueuePosition(queue[1..], id)
  }

  ghost function CancelSendId(p: Peer, id: Id, c: Channel, env: Env): (Peer, Channel, bool) {
    if p.out.send.Some? && p.out.send.value.id == id then
      var (p1, c1) := CancelSend(p, c, env);
      (p1, c1, true)
    else
      var i := QueuePosition(p.out.queue, id);
      if i == |p.out.queue| then (p, c, false) else (DropQueued(p, i, Cancelled), c, true)
  }

  ghost predicate SendComplete(o: Outgoing) {
    || (o.send.Some? && o.send.value.confirmed && o.send.value.kind == File)
    || o.lastDoneFile.Some?
  }

  /** A Done for the active send: the receiver's acknowledgement, or its refusal. */
  ghost function OnAck(p: Peer, ok: bool): Peer
    requires p.out.send.Some?
  {
    var s := p.out.send.value;
    var s' := if ok then s.(confirmed := true) else s.(confirmed := true, failed := true);
    var done := if s.kind == File then Some(s.id) else p.out.lastDoneFile;
    var p1 := p.(out := Note(p.out.(send := Some(s'), lastDoneFile := done), Acked(s.id, s.kind, ok)));
    if ok then LogSend(p1, SendRecord(s, Success)) else p1
  }

  ghost function OnNack(p: Peer, m: Message): Peer
    requires m.Nack?
  {
    if p.out.send.Some? && p.out.send.value.id == m.id && !p.out.send.value.confirmed then
      var s := p.out.send.value;
      p.(out := p.out.(send := Some(s.(resend := AddMissing(s.resend, m.missing, s.total), doneSent := false))))
    else p
  }

  ghost function AdvanceSend(p: Peer, c: Channel, env: Env): (Peer, Channel)
    requires p.out.send.Some? ==> SndShape(p.out.send.value)
  {
    if p.out.send.None? then (p, c)
    else
      var (s, c1) := SndTick(p.out.send.value, c, env.now, env.unreadable);
      if s.failed then (StartNext(LogSend(EmptySlot(p), SendRecord(s, Failure)), env), c1)
      else if s.confirmed && p.out.queue != [] then (StartNext(EmptySlot(p), env), c1)
      else (p.(out := p.out.(send := Some(s))), c1)
  }

  // ---- incoming transfers ----

  ghost function PutRcv(p: Peer, id: Id, r: Rcv): Peer {
    p.(inc := p.inc.(recv := p.inc.recv[id := r]))
  }

  ghost function DropRcv(p: Peer, id: Id): Peer {
    p.(inc := p.inc.(recv := p.inc.recv - {id}))
  }

  ghost function OnMeta(p: Peer, m: Message, env: Env): Peer
    requires m.Meta?
  {
    var image := m.kind == ClipboardImage;
    var name := if image then "clipboard-image.png" else SafeFileName(m.name);
    if !image && p.inc.dir.None? then p
    else if m.id in p.inc.recv then p
    else if name == "" then p
    else if m.size == 0 || m.size > (if image then MAX_CLIPBOARD_IMAGE else MAX_FILE_SIZE) then p
    else if m.chunks != ChunkCount(m.size) then p
    else if |p.inc.recv| >= MAX_RECV then p
    else PutRcv(p, m.id, NewRcv(m.kind, name, m.size, m.chunks, m.hash, env.now))
  }

  ghost function OnChunk(p: Peer, m: Message): Peer
    requires m.Chunk?
  {
    if m.id !in p.inc.recv then p else PutRcv(p, m.id, RcvChunk(p.inc.recv[m.id], m.index, m.payload))
  }

  /** `request_resend` for a receiver that has been taken out of the map. */
  ghost function RequestResend(p: Peer, id: Id, r: Rcv, c: Channel, env: Env): (Peer, Channel) {
    var missing := MissingOf(r.flags);
    if missing == [] then (LogReceive(p, id, r, Failure), c)
    else (PutRcv(p, id, r.(lastNack := Some(env.now))), Push(c, Nack(id, missing[..Min(|missing|, NACK_BATCH)])))
  }

  /** The first of the earliest entries in iteration order. */
  function Oldest(order: seq<Id>, completed: map<Id, nat>): Option<Id>
    decreases |order|
  {
    if order == [] then None
    else
      var k := order[|order| - 1];
      var best := Oldest(order[..|order| - 1], completed);
      if k !in completed then best
      else if best.None? || best.value !in completed || completed[k] < completed[best.value] then Some(k)
      else best
  }

  /** Remembers an acknowledged id; past the bound the oldest entry is forgotten. */
  ghost function Remember(completed: map<Id, nat>, id: Id, env: Env): map<Id, nat> {
    var all := completed[id := env.now];
    if |all| <= MAX_COMPLETED then all
    else
      match Oldest(env.order, all)
      case None => all
      case Some(k) => all - {k}
  }

  ghost function Commit(p: Peer, id: Id, r: Rcv, c: Channel, env: Env): (Peer, Channel) {
    if r.kind == File && (p.inc.dir.None? || !env.writable) then (p, c)
    else
      var p1 := p.(inc := p.inc.(completed := Remember(p.inc.completed, id, env),
                                 commits := p.inc.commits + [Committed(id, r.name, r.buf)],
                                 image := if r.kind == File then p.inc.image else Some(r.buf)));
      (if r.kind == File then LogReceive(p1, id, r, Success) else p1, Push(c, Done(id, true)))
  }

  ghost function OnDone(p: Peer, m: Message, c: Channel, env: Env): (Peer, Channel)
    requires m.Done?
  {
    if m.id !in p.inc.recv then
      if m.ok then (p, Push(c, Done(m.id, m.id in p.inc.completed))) else (p, c)
    else
      var r := p.inc.recv[m.id];
      var p1 := DropRcv(p, m.id);
      if !m.ok then (p1, c)
      else if r.received != r.total || |r.buf| != r.size then RequestResend(p1, m.id, r, c, env)
      else if r.hash.Some? && p.sha(r.buf) != r.hash.value then RequestResend(p1, m.id, r, c, env)
      else Commit(p1, m.id, r, c, env)
  }

  ghost function OnCancel(p: Peer, m: Message): Peer
    requires m.Cancel?
  {
    if m.id !in p.inc.recv then p else LogReceive(DropRcv(p, m.id), m.id, p.inc.recv[m.id], Cancelled)
  }

  predicate Expired(r: Rcv, now: nat) {
    Elapsed(now, r.createdAt) >= RECV_TTL
  }

  /** Drops receivers that have outlived their time, in iteration order. */
  ghost function ExpireReceivers(p: Peer, order: seq<Id>, now: nat): (p': Peer)
    ensures p'.out == p.out
    decreases |order|
  {
    if order == [] then p
    else
      var id := order[0];
      if id in p.inc.recv && Expired(p.inc.recv[id], now)
      then ExpireReceivers(LogReceive(DropRcv(p, id), id, p.inc.recv[id], Failure), order[1..], now)
      else ExpireReceivers(p, order[1..], now)
  }

  ghost function ExpireCompleted(p: Peer, now: nat): Peer {
    var completed := p.inc.completed;
    p.(inc := p.inc.(completed := map id | id in completed && Elapsed(now, completed[id]) < COMPLETED_TTL ::
                        completed[id]))
  }

  predicate NackDue(r: Rcv, now: nat) {
    r.lastNack.Some? && Elapsed(now, r.lastNack.value) >= RETRY_AFTER
  }

  /** Repeats the Nack of every receiver that has waited a second for its repair. */
  ghost function RetryNacks(p: Peer, order: seq<Id>, c: Channel, env: Env): (Peer, Channel)
    decreases |order|
  {
    if order == [] then (p, c)
    else
      var id := order[0];
      if id in p.inc.recv && NackDue(p.inc.recv[id], env.now) then
        var (p1, c1) := RequestResend(DropRcv(p, id), id, p.inc.recv[id], c, env);
        RetryNacks(p1, order[1..], c1, env)
      else RetryNacks(p, order[1..], c, env)
  }

  // ---- one message, one tick ----

  ghost function HandleData(p: Peer, m: Message, c: Channel, env: Env): (Peer, Channel) {
    match m
    case Chunk(_, _, _) => (OnChunk(p, m), c)
    case Meta(_, _, _, _, _, _) => (OnMeta(p, m, env), c)
    case Done(id, ok) =>
      if p.out.send.Some? && p.out.send.value.id == id then (OnAck(p, ok), c) else OnDone(p, m, c, env)
    case Cancel(_) => (OnCancel(p, m), c)
    case Nack(_, _) => (OnNack(p, m), c)
    case Request(path) => (if p.inc.allowRequest then SendFile(p, path, env).0 else p, c)
  }

  ghost function Tick(p: Peer, c: Channel, env: Env): (Peer, Channel)
    requires p.out.send.Some? ==> SndShape(p.out.send.value)
  {
    var p1 := ExpireCompleted(ExpireReceivers(p, env.order, env.now), env.now);
    var (p2, c2) := AdvanceSend(p1, c, env);
    RetryNacks(p2, env.order, c2, env)
  }
}
