/** What the history says of sends over whole runs: a success is recorded exactly for the sends that
    their receiver acknowledged. */
module FileOutcomes {
  import opened Bytes
  import opened FileProtocol
  import opened TransferSpec
  import opened PeerRuns
  import opened SendRuns

  /** The ids recorded as sent with success. */
  ghost function SuccessIds(all: seq<Record>): set<Id> {
    set r | r in all && r.direction == Sending && r.outcome == Success :: r.id
  }

  lemma SuccessAppend(all: seq<Record>, r: Record)
    ensures SuccessIds(all + [r])
         == SuccessIds(all) + (if r.direction == Sending && r.outcome == Success then {r.id} else {})
  {
    assert forall x :: x in all + [r] <==> x in all || x == r;
  }

  lemma {:induction false} SendingsHold(all: seq<Record>)
    ensures SuccessIds(Sendings(all)) == SuccessIds(all)
  {
    if all != [] {
      var n := |all| - 1;
      SendingsHold(all[..n]);
      SuccessAppend(all[..n], all[n]);
      SuccessAppend(Sendings(all[..n]), all[n]);
      assert all == all[..n] + [all[n]];
    }
  }

  /** From `p` to `p'` exactly the ids `won` are newly acknowledged and newly recorded as a success. */
  ghost predicate Gains(p: Peer, p': Peer, won: set<Id>) {
    && AckedOk(p'.out.trace) == AckedOk(p.out.trace) + won
    && SuccessIds(p'.book.all) == SuccessIds(p.book.all) + won
  }

  ghost predicate Wins(p: Peer, p': Peer, won: set<Id>) {
    Gains(p, p', won) && Written(p.book, p'.book)
  }

  lemma ReceiverWins(p: Peer, p': Peer)
    requires ReceiverMove(p, p')
    ensures Wins(p, p', {})
  {
    SendingsHold(p.book.all);
    SendingsHold(p'.book.all);
  }

  lemma LogWins(p: Peer, r: Record)
    requires r.outcome != Success
    ensures Wins(p, LogSend(p, r), {})
  {
    SuccessAppend(p.book.all, r);
  }

  lemma {:induction false} StartNextWins(p: Peer, env: Env)
    ensures Wins(p, StartNext(p, env), {})
    decreases |p.out.queue|
  {
    hide SuccessIds;
    if p.out.queue != [] && !Openable(p.out.queue[0].path, env) {
      var q := p.out.queue[0];
      var o := Note(p.out.(queue := p.out.queue[..0] + p.out.queue[1..]), Dropped(q.id));
      LogWins(p.(out := o), QueueRecord(q, Failure));
      StartNextWins(DropQueued(p, 0, Failure), env);
    }
  }

  lemma CancelWins(p: Peer, c: Channel, env: Env)
    ensures Wins(p, CancelSend(p, c, env).0, {})
  {
    hide SuccessIds, StartNext, LogSend;
    if p.out.send.Some? {
      var p1 := LogSend(EmptySlot(p), SendRecord(p.out.send.value, Cancelled));
      LogWins(EmptySlot(p), SendRecord(p.out.send.value, Cancelled));
      StartNextWins(p1, env);
    }
  }

  lemma CancelIdWins(p: Peer, id: Id, c: Channel, env: Env)
    ensures Wins(p, CancelSendId(p, id, c, env).0, {})
  {
    hide SuccessIds, CancelSend, LogSend;
    CancelWins(p, c, env);
    var i := QueuePosition(p.out.queue, id);
    if i < |p.out.queue| {
      var o := Note(p.out.(queue := p.out.queue[..i] + p.out.queue[i + 1..]), Dropped(p.out.queue[i].id));
      LogWins(p.(out := o), QueueRecord(p.out.queue[i], Cancelled));
    }
  }

  /** Only an answer counts. */
  lemma Quiet(t: Trace, e: Event)
    ensures AckedOk(Then(t, e)) == AckedOk(t) + (if e.Acked? && e.ok then {e.id} else {})
  {
  }

  lemma FileWins(p: Peer, path: Path, env: Env)
    ensures Wins(p, SendFile(p, path, env).0, {})
  {
    hide SuccessIds, AckedOk, SendName, NewSnd;
    if SendFile(p, path, env).1 {
      var id := Id(p.tag, p.out.send.Some?, p.out.sendSeq);
      Quiet(p.out.trace, Accepted(id));
      Quiet(Then(p.out.trace, Accepted(id)), Started(id, File, NewSnd(File, id, SendName(path), Some(path),
                                                                      env.disk[path], p.sha, env.now).content));
    }
  }

  lemma ImageWins(p: Peer, png: seq<byte>, env: Env)
    ensures Wins(p, SendImage(p, png, env).0, {})
  {
    hide SuccessIds, AckedOk, ImageName, NewSnd;
    Quiet(p.out.trace, Started(Id(p.tag, false, p.out.sendSeq + 1), ClipboardImage, png));
  }

  lemma AdvanceWins(p: Peer, c: Channel, env: Env)
    requires SndShapes(p.out)
    ensures Wins(p, AdvanceSend(p, c, env).0, {})
  {
    hide SuccessIds, StartNext, LogSend, SndTick;
    if p.out.send.Some? {
      var s := SndTick(p.out.send.value, c, env.now, env.unreadable).0;
      LogWins(EmptySlot(p), SendRecord(s, Failure));
      StartNextWins(LogSend(EmptySlot(p), SendRecord(s, Failure)), env);
      StartNextWins(EmptySlot(p), env);
    }
  }

  lemma TickWins(p: Peer, c: Channel, env: Env)
    requires PeerInv(p)
    ensures Wins(p, Tick(p, c, env).0, {})
  {
    var p1 := ExpireReceivers(p, env.order, env.now);
    var p2 := ExpireCompleted(p1, env.now);
    var (p3, c3) := AdvanceSend(p2, c, env);
    ExpireMove(p, env.order, env.now);
    ExpireCompletedMove(p1, env.now);
    AdvanceSendKeeps(p2, c, env);
    RetryMove(p3, env.order, c3, env);
    var p4 := RetryNacks(p3, env.order, c3, env).0;
    hide ReceiverMove, ExpireReceivers, ExpireCompleted, AdvanceSend, RetryNacks, Wins, SndShape;
    ReceiverWins(p, p1);
    ReceiverWins(p1, p2);
    AdvanceWins(p2, c, env);
    ReceiverWins(p3, p4);
    WinsTwice(p, p1, p2);
    WinsTwice(p, p2, p3);
    WinsTwice(p, p3, p4);
  }

  lemma WinsTwice(p: Peer, p1: Peer, p2: Peer)
    requires Wins(p, p1, {}) && Wins(p1, p2, {})
    ensures Wins(p, p2, {})
  {
    hide SuccessIds, AckedOk;
  }

  /** The send in the slot is acknowledged by this step. */
  ghost predicate Acknowledges(p: Peer, st: Step, id: Id) {
    st.op == OpReceive(Done(id, true)) && p.out.send.Some? && p.out.send.value.id == id
  }

  ghost function Acknowledged(p: Peer, st: Step): set<Id> {
    if st.op.OpReceive? && st.op.m.Done? && Acknowledges(p, st, st.op.m.id) then {st.op.m.id} else {}
  }

  lemma AckWins(p: Peer, ok: bool)
    requires p.out.send.Some?
    ensures Wins(p, OnAck(p, ok), if ok then {p.out.send.value.id} else {})
  {
    var s := p.out.send.value;
    var e := Acked(s.id, s.kind, ok);
    SuccessAppend(p.book.all, SendRecord(s, Success));
    Quiet(p.out.trace, e);
    Quiet(Then(p.out.trace, e), Logged(SendRecord(s, Success)));
    hide SuccessIds, AckedOk;
  }

  lemma ReceiveWins(p: Peer, st: Step)
    requires PeerInv(p) && Fits(p, st) && st.op.OpReceive?
    ensures Wins(p, After(p, st), Acknowledged(p, st))
  {
    hide Wins, ReceiverMove, OnChunk, OnMeta, OnDone, OnCancel, OnNack, OnAck, SendFile, OutInv, BookInv;
    var m, c, env := st.op.m, Channel([], st.verdicts), st.env;
    match m
    case Chunk(_, _, _) => OnChunkMove(p, m); ReceiverWins(p, OnChunk(p, m));
    case Meta(_, _, _, _, _, _) => OnMetaMove(p, m, env); ReceiverWins(p, OnMeta(p, m, env));
    case Done(id, ok) =>
      if p.out.send.Some? && p.out.send.value.id == id {
        AckWins(p, ok);
      } else {
        OnDoneMove(p, m, c, env);
        ReceiverWins(p, OnDone(p, m, c, env).0);
      }
    case Cancel(_) => OnCancelMove(p, m); ReceiverWins(p, OnCancel(p, m));
    case Nack(_, _) => NackWins(p, m);
    case Request(path) => FileWins(p, path, env); SameWins(p);
  }

  lemma NackWins(p: Peer, m: Message)
    requires m.Nack?
    ensures Wins(p, OnNack(p, m), {})
  {
  }

  lemma SameWins(p: Peer)
    ensures Wins(p, p, {})
  {
  }

  /** Every step: acknowledgements and success records grow by the same id, and by none unless the
      step is a positive Done for the send in the slot. */
  lemma StepWins(p: Peer, st: Step)
    requires PeerInv(p) && Fits(p, st)
    ensures Gains(p, After(p, st), Acknowledged(p, st))
    ensures !st.op.OpClearHistory? ==> Written(p.book, After(p, st).book)
  {
    hide Gains, After, OutInv, IncInv, BookInv;
    if st.op.OpReceive? {
      ReceiveWins(p, st);
    } else if st.op.OpClearHistory? {
      ClearGains(p, st);
    } else {
      OtherWins(p, st);
    }
  }

  lemma OtherWins(p: Peer, st: Step)
    requires PeerInv(p) && !st.op.OpReceive? && !st.op.OpClearHistory?
    ensures Wins(p, After(p, st), {})
  {
    var c, env := Channel([], st.verdicts), st.env;
    hide SendFile, SendImage, CancelSend, CancelSendId, Tick, OutInv, IncInv, BookInv, Wins;
    match st.op
    case OpSendFile(path) => FileWins(p, path, env);
    case OpSendImage(png) => ImageWins(p, png, env);
    case OpCancelSend => CancelWins(p, c, env);
    case OpCancelSendId(id) => CancelIdWins(p, id, c, env);
    case OpTick => TickWins(p, c, env);
    case OpSetRecvDir(dir) => SettingWins(p, p.inc.(dir := dir));
    case OpSetAllowRequest(allow) => SettingWins(p, p.inc.(allowRequest := allow));
    case OpTakeImage => SettingWins(p, p.inc.(image := None));
  }

  lemma SettingWins(p: Peer, i: Incoming)
    ensures Wins(p, p.(inc := i), {})
  {
    hide AckedOk, SuccessIds;
  }

  lemma ClearGains(p: Peer, st: Step)
    requires PeerInv(p) && st.op.OpClearHistory?
    ensures Gains(p, After(p, st), Acknowledged(p, st))
  {
    hide AckedOk, SuccessIds, OutInv, IncInv, BookInv, Tick, HandleData, SendFile, SendImage, CancelSend, CancelSendId;
  }

  /** The history keeps the newest 200 of the records written since it was last cleared. */
  lemma {:induction false} HistoryIsNewest(ps: seq<Peer>, steps: seq<Step>, i: nat, j: nat)
    requires IsRun(ps, steps) && j <= i < |ps|
    requires forall k :: j <= k < i ==> !steps[k].op.OpClearHistory?
    ensures Written(ps[j].book, ps[i].book) && |ps[i].book.history| <= 200
    ensures |ps[i].book.history| <= |ps[i].book.all|
    ensures ps[i].book.history == ps[i].book.all[|ps[i].book.all| - |ps[i].book.history|..]
    decreases i - j
  {
    hide After, Gains, Acknowledged, PeerInv, Written, Fits, SendComplete;
    RunKeepsInv(ps, steps);
    BookIsKept(ps[i]);
    WriteWrites(ps[j].book, Record(Sending, Id(0, false, 0), "", 0, Failure, None));
    if j < i {
      HistoryIsNewest(ps, steps, i - 1, j);
      assert FollowsAt(ps, steps, i - 1);
      StepWins(ps[i - 1], steps[i - 1]);
      WrittenTwice(ps[j].book, ps[i - 1].book, ps[i].book);
    }
  }

  lemma BookIsKept(p: Peer)
    requires PeerInv(p)
    ensures |p.book.history| <= 200 && |p.book.history| <= |p.book.all|
    ensures p.book.history == p.book.all[|p.book.all| - |p.book.history|..]
  {
    hide OutInv, IncInv;
  }

  lemma WrittenTwice(b: Book, b1: Book, b2: Book)
    requires Written(b, b1) && Written(b1, b2)
    ensures Written(b, b2)
  {
  }

  ghost predicate AcknowledgedBefore(ps: seq<Peer>, steps: seq<Step>, i: nat, id: Id)
    requires i < |ps| == |steps| + 1
  {
    exists j :: 0 <= j < i && Acknowledges(ps[j], steps[j], id)
  }

  /** Over every run: an id has a success record of a send exactly when an earlier step delivered a
      positive Done for it while it was in the slot, and exactly then the trace says so. */
  lemma {:induction false} SuccessIff(ps: seq<Peer>, steps: seq<Step>, i: nat, id: Id)
    requires IsRun(ps, steps) && i < |ps|
    ensures (exists r :: r in ps[i].book.all && r.direction == Sending && r.outcome == Success && r.id == id)
            <==> AcknowledgedBefore(ps, steps, i, id)
    ensures AcknowledgedBefore(ps, steps, i, id) <==> id in AckedOk(ps[i].out.trace)
  {
    hide PeerInv, After, Gains, AckedOk;
    RunKeepsInv(ps, steps);
    if i == 0 {
      var tag, sha, dir :| ps[0] == NewPeer(tag, sha, dir);
      NothingYet(tag, sha, dir);
    } else {
      SuccessIff(ps, steps, i - 1, id);
      assert FollowsAt(ps, steps, i - 1);
      StepWins(ps[i - 1], steps[i - 1]);
      Grown(ps[i - 1], ps[i], Acknowledged(ps[i - 1], steps[i - 1]), id);
      assert id in Acknowledged(ps[i - 1], steps[i - 1]) <==> Acknowledges(ps[i - 1], steps[i - 1], id);
      hide Acknowledges, Acknowledged;
      assert AcknowledgedBefore(ps, steps, i, id)
        <==> AcknowledgedBefore(ps, steps, i - 1, id) || Acknowledges(ps[i - 1], steps[i - 1], id);
    }
  }

  lemma NothingYet(tag: nat, sha: seq<byte> -> Digest, dir: Option<Path>)
    ensures NewPeer(tag, sha, dir).book.all == [] && AckedOk(NewPeer(tag, sha, dir).out.trace) == {}
  {
  }

  lemma Grown(p: Peer, p': Peer, won: set<Id>, id: Id)
    requires Gains(p, p', won)
    ensures id in AckedOk(p'.out.trace) <==> id in AckedOk(p.out.trace) || id in won
    ensures (exists r :: r in p'.book.all && r.direction == Sending && r.outcome == Success && r.id == id)
            <==> (exists r :: r in p.book.all && r.direction == Sending && r.outcome == Success && r.id == id)
                 || id in won
  {
    assert id in SuccessIds(p'.book.all) <==> id in SuccessIds(p.book.all) || id in won;
  }
}
