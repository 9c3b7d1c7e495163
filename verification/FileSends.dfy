/** What each call of the sending side leaves behind, on the fields of the object and with the limits
    and times written out: which files are accepted, which queued file starts, what is recorded. */
module FileSends {
  import opened Bytes
  import opened FileProtocol
  import opened TransferSpec
  import opened PeerRuns

  // ---- starting ----

  /** A file that is gone, locked, empty or over 1 GiB. */
  ghost predicate Unusable(path: Path, env: Env) {
    path !in env.disk || path in env.locked || |env.disk[path]| == 0 || |env.disk[path]| > 0x4000_0000
  }

  /** A send of which nothing has gone out yet; it waits three seconds. */
  ghost predicate Untouched(s: Snd, kind: Kind, id: Id, content: seq<byte>, hash: Digest, now: nat) {
    && s.kind == kind && s.id == id && s.content == content && s.hash == hash
    && s.total == (|content| + 8191) / 8192
    && s.nextChunk == 0 && s.resend == [] && !s.metaSent && !s.doneSent && s.startAfter == now + 3000
    && !s.confirmed && !s.failed
  }

  /** The records of the first `k` queued files, which could not be started. */
  ghost function Skipped(queue: seq<Queued>, k: nat): seq<Record>
    requires k <= |queue|
  {
    seq(k, i requires 0 <= i < k =>
      Record(Sending, queue[i].id, queue[i].name, queue[i].size, Failure, Some(queue[i].path)))
  }

  /** `k` is the first queued file that can be used, or the length of the queue. */
  ghost predicate FirstUsable(queue: seq<Queued>, env: Env, k: nat) {
    && k <= |queue| && (forall i :: 0 <= i < k ==> Unusable(queue[i].path, env))
    && (k < |queue| ==> !Unusable(queue[k].path, env))
  }

  /** The queue has moved on to file `k`: it is in the slot, and those before it are gone. */
  ghost predicate MovedOn(p: Peer, o: Outgoing, env: Env, k: nat)
    requires FirstUsable(p.out.queue, env, k)
  {
    var queue := p.out.queue;
    if k == |queue| then o.queue == [] && o.send.None? && o.lastDoneFile == p.out.lastDoneFile
    else
      && o.queue == queue[k + 1..] && o.send.Some? && o.lastDoneFile.None?
      && var content := env.disk[queue[k].path];
      && Untouched(o.send.value, File, queue[k].id, content, p.sha(content), env.now)
      && o.send.value.path == Some(queue[k].path)
  }

  /** From an empty slot the first queued file that can be used is started under its queued id; each
      one before it gets a failure record. */
  lemma {:induction false} StartsFirst(p: Peer, env: Env, k: nat)
    requires FirstUsable(p.out.queue, env, k) && p.out.send.None?
    ensures MovedOn(p, StartNext(p, env).out, env, k) && StartNext(p, env).inc == p.inc
    ensures StartNext(p, env).book.all == p.book.all + Skipped(p.out.queue, k)
    decreases k
  {
    hide MovedOn, DropQueued, Skipped, Unusable, Launch;
    if k > 0 {
      var queue, p1 := p.out.queue, DropQueued(p, 0, Failure);
      HeadDropped(p);
      TailUsable(queue, env, k);
      UnusableIs(queue[0].path, env);
      StartsFirst(p1, env, k - 1);
      MovedOnTail(p, p1, StartNext(p1, env).out, env, k);
      SkippedCons(queue, k);
      Regroup(p.book.all, [QueueRecord(queue[0], Failure)], Skipped(queue[1..], k - 1));
    } else {
      StartsHead(p, env);
    }
  }

  lemma UnusableIs(path: Path, env: Env)
    ensures Unusable(path, env) <==> !Openable(path, env)
  {
  }

  lemma StartsHead(p: Peer, env: Env)
    requires FirstUsable(p.out.queue, env, 0) && p.out.send.None?
    ensures MovedOn(p, StartNext(p, env).out, env, 0) && StartNext(p, env).inc == p.inc
    ensures StartNext(p, env).book.all == p.book.all + Skipped(p.out.queue, 0)
  {
    hide SendName;
    assert p.book.all + [] == p.book.all;
  }

  lemma MovedOnTail(p: Peer, p1: Peer, o: Outgoing, env: Env, k: nat)
    requires k > 0 && FirstUsable(p.out.queue, env, k) && FirstUsable(p.out.queue[1..], env, k - 1)
    requires p1.out.queue == p.out.queue[1..] && p1.out.lastDoneFile == p.out.lastDoneFile && p1.sha == p.sha
    requires MovedOn(p1, o, env, k - 1)
    ensures MovedOn(p, o, env, k)
  {
    hide Unusable, Untouched;
    var queue := p.out.queue;
    assert k < |queue| ==> queue[k + 1..] == queue[1..][k..] && queue[k] == queue[1..][k - 1];
  }

  lemma HeadDropped(p: Peer)
    requires p.out.queue != []
    ensures var p1 := DropQueued(p, 0, Failure);
            && p1 == p.(out := p1.out, book := p1.book)
            && p1.out == p.out.(queue := p.out.queue[1..], trace := p1.out.trace)
            && p1.book.all == p.book.all + [QueueRecord(p.out.queue[0], Failure)]
  {
    assert p.out.queue[..0] + p.out.queue[1..] == p.out.queue[1..];
  }

  lemma TailUsable(queue: seq<Queued>, env: Env, k: nat)
    requires k > 0 && FirstUsable(queue, env, k)
    ensures FirstUsable(queue[1..], env, k - 1) && Unusable(queue[0].path, env)
  {
    hide Unusable;
    assert k < |queue| ==> queue[1..][k - 1] == queue[k];
  }

  lemma SkippedCons(queue: seq<Queued>, k: nat)
    requires 0 < k <= |queue|
    ensures Skipped(queue, k) == [QueueRecord(queue[0], Failure)] + Skipped(queue[1..], k - 1)
  {
  }

  // ---- the calls ----

  /** When a file is accepted, and what that changes. */
  lemma SendFileIff(p: Peer, path: Path, env: Env)
    ensures SendFile(p, path, env).1 <==>
              && path in env.disk && 0 < |env.disk[path]| <= 0x4000_0000
              && if p.out.send.Some? then |p.out.queue| < 64 else path !in env.locked
    ensures var (p', ok) := SendFile(p, path, env);
            && p'.inc == p.inc && p'.book == p.book && (!ok ==> p' == p)
            && (ok ==> p'.out.sendSeq == p.out.sendSeq + 1)
            && (ok && p.out.send.Some? ==>
                  && p'.out.send == p.out.send && p'.out.lastDoneFile == p.out.lastDoneFile
                  && var q := Queued(Id(p.tag, true, p.out.sendSeq), path, SendName(path), |env.disk[path]|);
                  p'.out.queue == p.out.queue + [q])
            && (ok && p.out.send.None? ==>
                  && p'.out.queue == p.out.queue && p'.out.send.Some? && p'.out.lastDoneFile.None?
                  && var content := env.disk[path];
                  && Untouched(p'.out.send.value, File, Id(p.tag, false, p.out.sendSeq),
                               content, p.sha(content), env.now)
                  && p'.out.send.value.path == Some(path))
  {
  }

  /** When an image is accepted, and what that changes: an observed completion stays. */
  lemma SendImageIff(p: Peer, png: seq<byte>, env: Env)
    ensures SendImage(p, png, env).1 <==>
              (p.out.send.Some? ==> p.out.send.value.confirmed) && 0 < |png| <= 0x100_0000
    ensures var (p', ok) := SendImage(p, png, env);
            && p'.inc == p.inc && p'.book == p.book && (!ok ==> p' == p)
            && (ok ==>
                  && p'.out.queue == p.out.queue && p'.out.lastDoneFile == p.out.lastDoneFile && p'.out.send.Some?
                  && p'.out.sendSeq == p.out.sendSeq + 2 && p'.out.send.value.path.None?
                  && Untouched(p'.out.send.value, ClipboardImage, Id(p.tag, false, p.out.sendSeq + 1), png,
                               p.sha(png), env.now))
  {
    hide ImageName;
  }

  ghost function RecordOf(s: Snd, outcome: Outcome): Record {
    Record(Sending, s.id, s.name, |s.content|, outcome, s.path)
  }

  /** Cancelling tells the receiver, records the send as cancelled and moves the queue on. */
  lemma CancelEffect(p: Peer, c: Channel, env: Env, k: nat)
    requires p.out.send.Some? && FirstUsable(p.out.queue, env, k)
    ensures var (p', c') := CancelSend(p, c, env);
            var s := p.out.send.value;
            && MovedOn(p, p'.out, env, k) && p'.inc == p.inc
            && p'.book.all == p.book.all + [RecordOf(s, Cancelled)] + Skipped(p.out.queue, k)
            && c'.sent == (if c.verdicts != [] && c.verdicts[0] then c.sent + [Cancel(s.id)] else c.sent)
  {
    StartsFirst(LogSend(EmptySlot(p), SendRecord(p.out.send.value, Cancelled)), env, k);
  }

  /** Cancelling by id, `i` being the first queued item of that id or the length of the queue: the
      active send if it has the id, otherwise that item alone. */
  lemma CancelIdEffect(p: Peer, id: Id, c: Channel, env: Env, i: nat)
    requires i <= |p.out.queue| && (forall j :: 0 <= j < i ==> p.out.queue[j].id != id)
    requires i < |p.out.queue| ==> p.out.queue[i].id == id
    ensures var (p', c', hit) := CancelSendId(p, id, c, env);
            var queue := p.out.queue;
            if p.out.send.Some? && p.out.send.value.id == id then hit && (p', c') == CancelSend(p, c, env)
            else if i == |queue| then !hit && p' == p && c' == c
            else
              && hit && c' == c && p'.inc == p.inc && p'.out.send == p.out.send
              && p'.out.queue == queue[..i] + queue[i + 1..]
              && p'.book.all == p.book.all
                                + [Record(Sending, id, queue[i].name, queue[i].size, Cancelled, Some(queue[i].path))]
  {
    hide CancelSend;
  }

  // ---- messages for the sender ----

  /** An answer for the active send: accepted, it is confirmed and recorded as a success once more;
      refused, it has failed, and no record is written before the next tick. */
  lemma AnswerEffect(p: Peer, ok: bool, c: Channel, env: Env)
    requires p.out.send.Some?
    ensures var s := p.out.send.value;
            var (p', c') := HandleData(p, Done(s.id, ok), c, env);
            && c' == c && p'.inc == p.inc && p'.out.queue == p.out.queue && p'.out.sendSeq == p.out.sendSeq
            && p'.out.send == Some(s.(confirmed := true, failed := s.failed || !ok))
            && p'.out.lastDoneFile == (if s.kind == File then Some(s.id) else p.out.lastDoneFile)
            && p'.book.all == (if ok then p.book.all + [RecordOf(s, Success)] else p.book.all)
  {
  }

  /** Resending: what is asked for, valid and not yet waiting goes on the stack, once each. */
  lemma NackEffect(p: Peer, missing: seq<nat>, id: Id, c: Channel, env: Env)
    ensures var (p', c') := HandleData(p, Nack(id, missing), c, env);
            if p.out.send.Some? && p.out.send.value.id == id && !p.out.send.value.confirmed then
              && c' == c && p'.out.send.Some?
              && var s, s' := p.out.send.value, p'.out.send.value;
              && p' == p.(out := p.out.(send := Some(s'))) && s' == s.(resend := s'.resend, doneSent := false)
              && s.resend <= s'.resend
              && (forall i: nat :: i in s'.resend <==> i in s.resend || (i in missing && i < s.total))
              && (NoDup(s.resend) ==> NoDup(s'.resend))
            else p' == p && c' == c
  {
    hide NoDup;
    if p.out.send.Some? {
      Added(p.out.send.value.resend, missing, p.out.send.value.total);
    }
  }

  lemma {:induction false} Added(resend: seq<nat>, missing: seq<nat>, total: nat)
    ensures var all := AddMissing(resend, missing, total);
            && resend <= all && (forall i: nat :: i in all <==> i in resend || (i in missing && i < total))
            && (NoDup(resend) ==> NoDup(all))
    decreases |missing|
  {
    if missing != [] {
      var more := if missing[0] < total && missing[0] !in resend then resend + [missing[0]] else resend;
      Added(more, missing[1..], total);
      assert missing == [missing[0]] + missing[1..];
    }
  }

  /** A request for a file does nothing unless requests are allowed, and is a call of `send_file`
      then. */
  lemma RequestEffect(p: Peer, path: Path, c: Channel, env: Env)
    ensures HandleData(p, Request(path), c, env) == (if p.inc.allowRequest then SendFile(p, path, env).0 else p, c)
  {
    hide SendFile;
  }

  // ---- the sending part of a tick ----

  lemma {:induction false} SendingsPlus(all: seq<Record>, more: seq<Record>)
    requires forall i :: 0 <= i < |more| ==> more[i].direction == Sending
    ensures Sendings(all + more) == Sendings(all) + more
  {
    if more == [] {
      assert all + more == all;
    } else {
      var n := |more| - 1;
      hide Sendings;
      var front, last := more[..n], more[n];
      assert more == front + [last];
      Regroup(all, front, [last]);
      SendingsPlus(all, front);
      SendingsAppend(all + front, last);
      Regroup(Sendings(all), front, [last]);
    }
  }

  lemma StartsFirstSendings(p: Peer, env: Env, k: nat)
    requires FirstUsable(p.out.queue, env, k) && p.out.send.None?
    ensures MovedOn(p, StartNext(p, env).out, env, k)
    ensures Sendings(StartNext(p, env).book.all) == Sendings(p.book.all) + Skipped(p.out.queue, k)
  {
    StartsFirst(p, env, k);
    SendingsPlus(p.book.all, Skipped(p.out.queue, k));
  }

  /** What a tick does with the slot, `s` being the sender after its own tick: a failed send is recorded
      and makes way, a confirmed one makes way when others wait, and any other one stays. */
  lemma AdvanceEffect(p: Peer, c: Channel, env: Env, k: nat)
    requires SndShapes(p.out) && p.out.send.Some? && FirstUsable(p.out.queue, env, k)
    ensures var (p', s) := (AdvanceSend(p, c, env).0, SndTick(p.out.send.value, c, env.now, env.unreadable).0);
            var (before, after) := (Sendings(p.book.all), Sendings(p'.book.all));
            && p'.inc == p.inc
            && if s.failed then
                 MovedOn(p, p'.out, env, k) && after == before + [RecordOf(s, Failure)] + Skipped(p.out.queue, k)
               else if s.confirmed && p.out.queue != [] then
                 MovedOn(p, p'.out, env, k) && after == before + Skipped(p.out.queue, k)
               else p'.out == p.out.(send := Some(s)) && after == before
  {
    hide SndTick, StartNext, Sendings, Untouched, Unusable, Skipped, SndShape;
    var s := SndTick(p.out.send.value, c, env.now, env.unreadable).0;
    var p0 := EmptySlot(p);
    var p1 := LogSend(p0, SendRecord(s, Failure));
    if s.failed {
      StartsFirst(p1, env, k);
      StartsFirstSendings(p1, env, k);
      SendingsAppend(p.book.all, SendRecord(s, Failure));
      SameMove(p, p1, StartNext(p1, env).out, env, k);
    } else if s.confirmed && p.out.queue != [] {
      StartsFirst(p0, env, k);
      StartsFirstSendings(p0, env, k);
      SameMove(p, p0, StartNext(p0, env).out, env, k);
    }
  }

  /** Moving on depends on the queue and on what completion was observed. */
  lemma SameMove(p: Peer, p1: Peer, o: Outgoing, env: Env, k: nat)
    requires p1.out.queue == p.out.queue && p1.out.lastDoneFile == p.out.lastDoneFile && p1.sha == p.sha
    requires FirstUsable(p.out.queue, env, k) && MovedOn(p1, o, env, k)
    ensures MovedOn(p, o, env, k)
  {
  }

  /** The same for the whole tick, which writes no other record of a send. */
  lemma TickEffect(p: Peer, c: Channel, env: Env, k: nat)
    requires PeerInv(p) && p.out.send.Some? && FirstUsable(p.out.queue, env, k)
    ensures SndShape(p.out.send.value)
    ensures var (p', s) := (Tick(p, c, env).0, SndTick(p.out.send.value, c, env.now, env.unreadable).0);
            var (before, after) := (Sendings(p.book.all), Sendings(p'.book.all));
            if s.failed then
              MovedOn(p, p'.out, env, k) && after == before + [RecordOf(s, Failure)] + Skipped(p.out.queue, k)
            else if s.confirmed && p.out.queue != [] then
              MovedOn(p, p'.out, env, k) && after == before + Skipped(p.out.queue, k)
            else p'.out == p.out.(send := Some(s)) && after == before
  {
    var p1 := ExpireReceivers(p, env.order, env.now);
    var p2 := ExpireCompleted(p1, env.now);
    var (p3, c3) := AdvanceSend(p2, c, env);
    ExpireMove(p, env.order, env.now);
    AdvanceEffect(p2, c, env, k);
    ExpireCompletedMove(p1, env.now);
    RetryMove(p3, env.order, c3, env);
    hide ExpireReceivers, AdvanceSend, RetryNacks, SndTick, Sendings, Untouched, Unusable, Skipped, SndShape;
  }
}
