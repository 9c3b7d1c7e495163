/** Runs that show what the protocol does not promise: a clipboard image can lose an accepted send,
    an id can be committed twice, and a chain of three replies occurs. */
module FileWitnesses {
  import opened Bytes
  import opened FileProtocol
  import opened TransferSpec
  import opened PeerRuns
  import opened SendRuns
  import opened FileNetwork
  import FileAcks
  import SendLosses

  const PATH: Path := "f"
  const CONTENT: seq<byte> := [7]
  const ID: Id := Id(1, false, 0)
  const CHUNK: Message := Chunk(ID, 0, CONTENT)
  const DONE: Message := Done(ID, true)

  ghost function META(sha: seq<byte> -> Digest): Message {
    Meta(ID, PATH, 1, 1, Some(sha(CONTENT)), File)
  }

  ghost function EnvAt(now: nat, order: seq<Id>): Env {
    Env(now, map[PATH := CONTENT], {}, {}, true, order)
  }

  lemma NameIsSafe()
    ensures SendName(PATH) == PATH && SafeFileName(PATH) == PATH
  {
    assert PATH[..0] == [] && LastComponent(PATH) == [] + [PATH[0]] == PATH;
  }

  ghost function FirstSend(sha: seq<byte> -> Digest): Snd {
    NewSnd(File, ID, PATH, Some(PATH), CONTENT, sha, 0)
  }

  /** A new peer starts the file. */
  lemma SendStarts(p: Peer, sha: seq<byte> -> Digest, dir: Option<Path>, order: seq<Id>)
    requires p == NewPeer(1, sha, dir)
    ensures var (p', ok) := SendFile(p, PATH, EnvAt(0, order));
            && ok && p' == p.(out := p'.out) && p'.out.send == Some(FirstSend(sha)) && FirstSend(sha).id == ID
            && p'.out.queue == []
            && p'.out.trace == Then(Then(Fresh, Accepted(ID)), Started(ID, File, CONTENT)) && p'.out.sendSeq == 1
  {
    hide SendName, SafeFileName, LastComponent, ChunkCount;
    NameIsSafe();
  }

  // ---- an accepted send is lost ----

  /** A regular send is refused and, before the next tick, a clipboard image takes its slot: the
      send is neither active nor queued nor logged. */
  lemma ImageLosesSend(sha: seq<byte> -> Digest) returns (ps: seq<Peer>, steps: seq<Step>)
    ensures IsRun(ps, steps) && |steps| == 3
    ensures steps[0].op == OpSendFile(PATH) && steps[1].op == OpReceive(Done(ID, false)) && steps[2].op.OpSendImage?
    ensures SendLosses.LostIfDisplaced(ps[2]) && Conserved(ps[2].out) && !Conserved(ps[3].out)
    ensures var p := ps[3];
            && ID in AcceptedIds(p.out.trace) && p.book.all == [] && p.out.queue == []
            && p.out.send.Some? && p.out.send.value.id != ID
  {
    hide SendFile, OnAck, SendImage, FirstSend, Conserved, AcceptedIds, SendLosses.LostIfDisplaced;
    var p0 := NewPeer(1, sha, None);
    SendStarts(p0, sha, None, []);
    var p1 := SendFile(p0, PATH, EnvAt(0, [])).0;
    RefusedThenImage(p1, sha);
    var p2 := OnAck(p1, false);
    assert IsRun([p0], []) by {
      assert [p0][0] == NewPeer(1, sha, None);
    }
    ps, steps := ThreeSteps(p0, p1, p2, SendImage(p2, [1], EnvAt(0, [])).0);
  }

  lemma ThreeSteps(p0: Peer, p1: Peer, p2: Peer, p3: Peer) returns (ps: seq<Peer>, steps: seq<Step>)
    requires IsRun([p0], []) && p0.inc.recv == map[] && p0.inc.completed == map[]
      && p1.inc == p0.inc && p2.inc == p0.inc
    requires p1.out.send.Some? && p1.out.send.value.id == ID
    requires p1 == SendFile(p0, PATH, EnvAt(0, [])).0 && p2 == OnAck(p1, false)
    requires p3 == SendImage(p2, [1], EnvAt(0, [])).0
    ensures IsRun(ps, steps) && ps == [p0, p1, p2, p3] && |steps| == 3
    ensures steps[0].op == OpSendFile(PATH) && steps[1].op == OpReceive(Done(ID, false))
      && steps[2].op == OpSendImage([1])
  {
    hide Apply, IsRun, PeerInv, SndShapes, SendFile, OnAck, SendImage, EnvAt;
    Steps(p0, p1, p2);
    ps, steps := ExtendRun([p0], [], OpSendFile(PATH), p1);
    ps, steps := ExtendRun(ps, steps, OpReceive(Done(ID, false)), p2);
    ps, steps := ExtendRun(ps, steps, OpSendImage([1]), p3);
  }

  /** What the three steps do. */
  lemma Steps(p0: Peer, p1: Peer, p2: Peer)
    requires p1.out.send.Some? && p1.out.send.value.id == ID
    ensures var c, env := Channel([], []), EnvAt(0, []);
            && (SndShapes(p0.out) ==> Apply(p0, OpSendFile(PATH), c, env).0 == SendFile(p0, PATH, env).0)
            && (SndShapes(p1.out) ==> Apply(p1, OpReceive(Done(ID, false)), c, env).0 == OnAck(p1, false))
            && (SndShapes(p2.out) ==> Apply(p2, OpSendImage([1]), c, env).0 == SendImage(p2, [1], env).0)
  {
    hide SendFile, OnAck, OnDone, SendImage, SndShape;
  }

  /** One more step of a run of one peer, with nothing on the receiving side. */
  lemma ExtendRun(ps: seq<Peer>, steps: seq<Step>, op: Op, p': Peer) returns (ps': seq<Peer>, steps': seq<Step>)
    requires IsRun(ps, steps)
    requires var p := ps[|ps| - 1];
             && p.inc.recv == map[] && p.inc.completed == map[]
             && (SndShapes(p.out) ==> Apply(p, op, Channel([], []), EnvAt(0, [])).0 == p')
    ensures steps' == steps + [Step(op, [], EnvAt(0, []))] && ps' == ps + [p'] && ps' != [] && ps'[|ps'| - 1] == p'
    ensures IsRun(ps', steps')
  {
    hide Apply;
    var st := Step(op, [], EnvAt(0, []));
    RunKeepsInv(ps, steps);
    Shaped(ps[|ps| - 1]);
    ps', steps' := ps + [p'], steps + [st];
    hide PeerInv;
    assert Follows(ps[|ps| - 1], st, p');
    hide Follows, After;
    forall i | 0 <= i < |steps'| ensures FollowsAt(ps', steps', i) {
      assert i < |steps| ==> FollowsAt(ps, steps, i);
    }
  }

  lemma Shaped(p: Peer)
    requires PeerInv(p)
    ensures SndShapes(p.out)
  {
  }

  lemma RefusedThenImage(p1: Peer, sha: seq<byte> -> Digest)
    requires p1.out.send == Some(FirstSend(sha)) && p1.out.queue == [] && p1.out.sendSeq == 1 && p1.tag == 1
    requires p1.out.trace == Then(Then(Fresh, Accepted(ID)), Started(ID, File, CONTENT)) && p1.book.all == []
    ensures var p2 := OnAck(p1, false);
            var p3 := SendImage(p2, [1], EnvAt(0, [])).0;
            && p2.inc == p1.inc && SendLosses.LostIfDisplaced(p2) && Conserved(p2.out) && !Conserved(p3.out)
            && ID in AcceptedIds(p3.out.trace) && p3.out.send.Some? && p3.out.send.value.id != ID
            && p3.out.queue == [] && p3.book.all == []
  {
    var p2 := OnAck(p1, false);
    assert p2.out.trace == Then(p1.out.trace, Acked(ID, File, false));
    var p3 := SendImage(p2, [1], EnvAt(0, [])).0;
    assert p3.out.trace == Then(p2.out.trace, Started(Id(1, false, 2), ClipboardImage, [1]));
    assert AcceptedIds(p3.out.trace) == {ID} && LoggedIds(p3.out.trace) == {};
  }

  // ---- runs of two peers, step by step ----

  ghost function MoveP(w: World, st: Step): World
    requires SndShapes(w.p.out)
  {
    World(After(w.p, st), w.q, w.pq + Sends(w.p, st), w.qp)
  }

  ghost function MoveQ(w: World, st: Step): World
    requires SndShapes(w.q.out)
  {
    World(w.p, After(w.q, st), w.pq, w.qp + Sends(w.q, st))
  }

  ghost function Sends(p: Peer, st: Step): set<Message>
    requires SndShapes(p.out)
  {
    set m | m in Apply(p, st.op, Channel([], st.verdicts), st.env).1.sent
  }

  lemma ExtendP(ws: seq<World>, st: Step)
    requires IsWorldRun(ws) && Fits(ws[|ws| - 1].p, st) && (st.op.OpReceive? ==> st.op.m in ws[|ws| - 1].qp)
    ensures SndShapes(ws[|ws| - 1].p.out) && IsWorldRun(ws + [MoveP(ws[|ws| - 1], st)])
  {
    hide PeerInv, Half, After, Apply, InitialWorld;
    var w := ws[|ws| - 1];
    WorldRunKeeps(ws, |ws| - 1);
    Shaped(w.p);
    assert Moves(w.p, w.qp, st, MoveP(w, st).p, Sends(w.p, st));
    Extend(ws, MoveP(w, st));
  }

  lemma ExtendQ(ws: seq<World>, st: Step)
    requires IsWorldRun(ws) && Fits(ws[|ws| - 1].q, st) && (st.op.OpReceive? ==> st.op.m in ws[|ws| - 1].pq)
    ensures SndShapes(ws[|ws| - 1].q.out) && IsWorldRun(ws + [MoveQ(ws[|ws| - 1], st)])
  {
    hide PeerInv, Half, After, Apply, InitialWorld;
    var w := ws[|ws| - 1];
    WorldRunKeeps(ws, |ws| - 1);
    Shaped(w.q);
    assert Moves(w.q, w.pq, st, MoveQ(w, st).q, Sends(w.q, st));
    Extend(ws, MoveQ(w, st));
  }

  lemma Extend(ws: seq<World>, w: World)
    requires IsWorldRun(ws) && StepsTo(ws[|ws| - 1], w)
    ensures IsWorldRun(ws + [w])
  {
    hide StepsTo, InitialWorld;
    var more := ws + [w];
    forall i | 0 <= i && i + 1 < |more| ensures StepsAt(more, i) {
      assert i + 1 < |ws| ==> StepsAt(ws, i);
    }
  }

  // ---- the sender's three messages ----

  ghost predicate Offered(net: set<Message>, sha: seq<byte> -> Digest) {
    META(sha) in net && CHUNK in net && DONE in net
  }

  /** A tick that neither fails nor ends the send, with nothing on the receiving side. */
  lemma QuietTick(p: Peer, c: Channel, env: Env)
    requires p.inc.completed == map[] && env.order == [] && p.out.send.Some? && SndShape(p.out.send.value)
    requires var s := SndTick(p.out.send.value, c, env.now, env.unreadable).0; !s.failed && !s.confirmed
    ensures var (s, c') := SndTick(p.out.send.value, c, env.now, env.unreadable);
            Tick(p, c, env) == (p.(out := p.out.(send := Some(s))), c')
  {
    hide SndTick, SndShape;
    assert ExpireCompleted(p, env.now) == p by {
      assert ExpireCompleted(p, env.now).inc.completed == map[];
    }
  }

  lemma FirstTick(sha: seq<byte> -> Digest)
    ensures var s := FirstSend(sha);
            && SndShape(s)
            && SndTick(s, Channel([], [true, true]), 3000, {})
            == (s.(metaSent := true, lastMeta := 3000, nextChunk := 1), Channel([META(sha), CHUNK], []))
  {
    var s := FirstSend(sha);
    var s1 := s.(metaSent := true, lastMeta := 3000);
    var c := Channel([META(sha)], [true]);
    assert [true, true][1..] == [true] && [] + [META(sha)] == [META(sha)];
    assert MetaStep(s, Channel([], [true, true]), 3000) == (s1, c);
    assert Slice(CONTENT, 0) == CONTENT;
    assert [true][1..] == [] && [META(sha)] + [CHUNK] == [META(sha), CHUNK];
  }

  lemma SecondTick(sha: seq<byte> -> Digest)
    ensures var s := FirstSend(sha).(metaSent := true, lastMeta := 3000, nextChunk := 1);
            && SndShape(s)
            && SndTick(s, Channel([], [true]), 3000, {})
            == (s.(doneSent := true, lastDone := 3000), Channel([DONE], []))
  {
    assert [] + [DONE] == [DONE] && [true][1..] == [];
  }

  ghost predicate Quiet(w: World, sha: seq<byte> -> Digest) {
    && w.q == NewPeer(2, sha, Some("d")) && w.qp == {} && w.p.tag == 1 && w.p.out.queue == []
    && w.p.inc.recv == map[] && w.p.inc.completed == map[]
  }

  lemma FileStarted(sha: seq<byte> -> Digest) returns (ws: seq<World>)
    ensures IsWorldRun(ws) && ws != []
    ensures Quiet(ws[|ws| - 1], sha) && ws[|ws| - 1].p.out.send == Some(FirstSend(sha))
  {
    var w0 := World(NewPeer(1, sha, None), NewPeer(2, sha, Some("d")), {}, {});
    ws := [w0];
    assert InitialWorld(w0);
    var st := Step(OpSendFile(PATH), [], EnvAt(0, []));
    ExtendP(ws, st);
    SendStarts(w0.p, sha, None, []);
    hide SendFile, FirstSend, IsWorldRun;
    ws := ws + [MoveP(w0, st)];
  }

  /** One tick of the sender. */
  lemma TickedOn(ws: seq<World>, verdicts: seq<bool>, sha: seq<byte> -> Digest, s: Snd) returns (more: seq<World>)
    requires IsWorldRun(ws) && Quiet(ws[|ws| - 1], sha) && SndShape(s) && ws[|ws| - 1].p.out.send == Some(s)
    requires var s' := SndTick(s, Channel([], verdicts), 3000, {}).0; !s'.failed && !s'.confirmed
    ensures IsWorldRun(more) && more != [] && Quiet(more[|more| - 1], sha)
    ensures var (s', c) := SndTick(s, Channel([], verdicts), 3000, {});
            && more[|more| - 1].p.out.send == Some(s')
            && more[|more| - 1].pq == ws[|ws| - 1].pq + set m | m in c.sent
  {
    assert ws != [];
    hide IsWorldRun, SndTick, SndShape, Tick;
    var w, st := ws[|ws| - 1], Step(OpTick, verdicts, EnvAt(3000, []));
    ExtendP(ws, st);
    Ticked(w, st, sha, s);
    more := ws + [MoveP(w, st)];
  }

  /** One peer offers the file; the other has done nothing yet. */
  lemma FileOffered(sha: seq<byte> -> Digest) returns (ws: seq<World>)
    ensures IsWorldRun(ws) && ws != []
    ensures var w := ws[|ws| - 1];
            Offered(w.pq, sha) && Quiet(w, sha) && w.p.out.send.Some? && w.p.out.send.value.id == ID
  {
    hide IsWorldRun, Quiet, SndTick, SndShape;
    ws := FileStarted(sha);
    FirstTick(sha);
    ws := TickedOn(ws, [true, true], sha, FirstSend(sha));
    SecondTick(sha);
    ws := TickedOn(ws, [true], sha, FirstSend(sha).(metaSent := true, lastMeta := 3000, nextChunk := 1));
  }

  /** What a tick of the sender leaves in the world. */
  lemma Ticked(w: World, st: Step, sha: seq<byte> -> Digest, s: Snd)
    requires SndShapes(w.p.out) && SndShape(s) && st.op == OpTick && st.env == EnvAt(3000, [])
    requires w.p.out.send == Some(s) && w.p.inc.completed == map[]
    requires var s' := SndTick(s, Channel([], st.verdicts), 3000, {}).0; !s'.failed && !s'.confirmed
    ensures var (s', c) := SndTick(s, Channel([], st.verdicts), 3000, {});
            && MoveP(w, st).p == w.p.(out := w.p.out.(send := Some(s')))
            && MoveP(w, st).pq == w.pq + (set m | m in c.sent)
  {
    hide SndTick, SndShape, Tick;
    QuietTick(w.p, Channel([], st.verdicts), st.env);
  }

  // ---- receiving them ----

  ghost predicate Listens(q: Peer, sha: seq<byte> -> Digest) {
    && q.tag == 2 && q.sha == sha && q.out.send.None? && q.inc.dir.Some?
    && q.inc.recv == map[] && q.inc.completed.Keys <= {ID}
  }

  ghost function Empty(sha: seq<byte> -> Digest): Rcv {
    NewRcv(File, PATH, 1, 1, Some(sha(CONTENT)), 4000)
  }

  ghost function Full(sha: seq<byte> -> Digest): Rcv {
    Empty(sha).(buf := CONTENT, flags := [true], received := 1)
  }

  lemma MetaArrives(q: Peer, sha: seq<byte> -> Digest)
    requires Listens(q, sha)
    ensures OnMeta(q, META(sha), EnvAt(4000, [ID])) == PutRcv(q, ID, Empty(sha))
  {
    hide SafeFileName, SendName, NewRcv, LastComponent;
    NameIsSafe();
    assert ChunkCount(1) == 1;
    hide ChunkCount;
  }

  lemma ChunkArrives(sha: seq<byte> -> Digest)
    ensures RcvChunk(Empty(sha), 0, CONTENT) == Full(sha)
  {
    var r := Empty(sha);
    assert Overwrite(r.buf, 0, CONTENT) == CONTENT;
    assert r.flags[0 := true] == [true];
  }

  lemma DoneArrives(q: Peer, c: Channel, sha: seq<byte> -> Digest)
    requires q.tag == 2 && q.sha == sha && q.inc.dir.Some? && q.inc.completed.Keys <= {ID}
      && q.inc.recv == map[ID := Full(sha)]
    ensures var q' := OnDone(q, DONE, c, EnvAt(4000, [ID])).0;
            && q'.tag == 2 && q'.sha == sha && q'.out == q.out && q'.inc.dir == q.inc.dir
            && q'.inc.recv == map[] && q'.inc.completed.Keys == {ID}
            && q'.inc.commits == q.inc.commits + [Committed(ID, PATH, CONTENT)]
            && q'.book == Write(q.book, Record(Receiving, ID, PATH, 1, Success, None))
  {
    var all := q.inc.completed[ID := 4000];
    assert all.Keys == {ID} && |all| == |all.Keys|;
    assert q.inc.recv - {ID} == map[];
  }

  /** A delivered message, at the level of worlds. */
  ghost function Delivery(m: Message): Step {
    Step(OpReceive(m), [true], EnvAt(4000, [ID]))
  }

  lemma Deliver(ws: seq<World>, m: Message) returns (w: World)
    requires IsWorldRun(ws) && m in ws[|ws| - 1].pq
    requires ws[|ws| - 1].q.inc.recv.Keys + ws[|ws| - 1].q.inc.completed.Keys <= {ID}
    ensures IsWorldRun(ws + [w])
    ensures w.p == ws[|ws| - 1].p && w.pq == ws[|ws| - 1].pq
    ensures var (q, c) := HandleData(ws[|ws| - 1].q, m, Channel([], [true]), EnvAt(4000, [ID]));
            w.q == q && w.qp == ws[|ws| - 1].qp + set x | x in c.sent
  {
    assert ws != [];
    hide IsWorldRun, HandleData;
    ExtendQ(ws, Delivery(m));
    w := MoveQ(ws[|ws| - 1], Delivery(m));
  }

  /** A peer to which the three messages are delivered commits the file once more. */
  lemma ThreeReceived(q: Peer, sha: seq<byte> -> Digest)
    requires Listens(q, sha)
    ensures var env, c := EnvAt(4000, [ID]), Channel([], [true]);
            var q1 := HandleData(q, META(sha), c, env).0;
            var q2 := HandleData(q1, CHUNK, c, env).0;
            var q3 := HandleData(q2, DONE, c, env).0;
            && q1.inc.recv.Keys + q1.inc.completed.Keys <= {ID} && q2.inc.recv.Keys + q2.inc.completed.Keys <= {ID}
            && Listens(q3, sha) && ID in q3.inc.completed
            && q3.inc.commits == q.inc.commits + [Committed(ID, PATH, CONTENT)]
            && q3.book == Write(q.book, Record(Receiving, ID, PATH, 1, Success, None))
  {
    hide OnMeta, OnDone, RcvChunk, Empty, Full;
    MetaArrives(q, sha);
    ChunkArrives(sha);
    var q1 := PutRcv(q, ID, Empty(sha));
    var q2 := PutRcv(q1, ID, Full(sha));
    assert q2.inc.recv == map[ID := Full(sha)];
    DoneArrives(q2, Channel([], [true]), sha);
  }

  /** The three messages are delivered, and the file is committed once more. */
  lemma ReceivedOnce(ws: seq<World>, sha: seq<byte> -> Digest) returns (more: seq<World>)
    requires IsWorldRun(ws) && Listens(ws[|ws| - 1].q, sha) && Offered(ws[|ws| - 1].pq, sha)
    ensures IsWorldRun(more) && more != []
    ensures var w, w' := ws[|ws| - 1], more[|more| - 1];
            && w'.p == w.p && w'.pq == w.pq && Listens(w'.q, sha) && ID in w'.q.inc.completed
            && w'.q.inc.commits == w.q.inc.commits + [Committed(ID, PATH, CONTENT)]
            && w'.q.book == Write(w.q.book, Record(Receiving, ID, PATH, 1, Success, None))
  {
    assert ws != [];
    hide IsWorldRun, HandleData, EnvAt, Write;
    ThreeReceived(ws[|ws| - 1].q, sha);
    var w1 := Deliver(ws, META(sha));
    more := ws + [w1];
    var w2 := Deliver(more, CHUNK);
    more := more + [w2];
    var w3 := Deliver(more, DONE);
    more := more + [w3];
  }

  /** One id is committed twice, and has two records of success: the network repeats the three
      messages of a send after it was received. */
  lemma CommittedTwice(sha: seq<byte> -> Digest) returns (ws: seq<World>)
    ensures IsWorldRun(ws)
    ensures var q := ws[|ws| - 1].q;
            && q.inc.commits == [Committed(ID, PATH, CONTENT), Committed(ID, PATH, CONTENT)]
            && q.book.history == [Record(Receiving, ID, PATH, 1, Success, None),
                                  Record(Receiving, ID, PATH, 1, Success, None)]
  {
    hide IsWorldRun;
    ws := FileOffered(sha);
    ws := ReceivedOnce(ws, sha);
    ws := ReceivedOnce(ws, sha);
  }

  // ---- three replies ----

  /** The file is received, and then the sender cancels. */
  lemma ReceivedThenCancelled(sha: seq<byte> -> Digest) returns (ws: seq<World>)
    ensures IsWorldRun(ws) && ws != []
    ensures var w := ws[|ws| - 1];
            && DONE in w.pq && Listens(w.q, sha) && ID in w.q.inc.completed
            && w.p.out.send.None? && w.p.inc.recv == map[] && w.p.inc.completed == map[]
  {
    hide IsWorldRun, Offered, CancelSend, EnvAt, Listens;
    ws := FileOffered(sha);
    OfferedDone(ws[|ws| - 1].pq, sha);
    FileOfferedListens(ws[|ws| - 1], sha);
    ws := ReceivedOnce(ws, sha);
    var w := ws[|ws| - 1];
    var st := Step(OpCancelSend, [], EnvAt(5000, []));
    NothingReceiving(w.p, st);
    ExtendP(ws, st);
    Cancelled(w.p, EnvAt(5000, []));
    ws := ws + [MoveP(w, st)];
  }

  lemma FileOfferedListens(w: World, sha: seq<byte> -> Digest)
    requires Quiet(w, sha)
    ensures Listens(w.q, sha)
  {
  }

  lemma NothingReceiving(p: Peer, st: Step)
    requires p.inc.recv == map[] && p.inc.completed == map[] && st.env == EnvAt(5000, [])
    ensures Fits(p, st)
  {
  }

  /** The acknowledgement that a repeated Done causes is refused: a chain of three in the states of
      one run, its messages on the way. */
  lemma ThreeInARun(sha: seq<byte> -> Digest) returns (ws: seq<World>)
    ensures IsWorldRun(ws) && |ws| >= 2
    ensures var last := ws[|ws| - 2..];
            && DONE in last[0].pq && DONE in last[1].qp
            && FileAcks.ReplyChain(last, [DONE, DONE, Done(ID, false)])
  {
    hide IsWorldRun, HandleData, EnvAt, FileAcks.ReplyChain;
    ws := ReceivedThenCancelled(sha);
    var w1 := ws[|ws| - 1];
    Repeated(w1, sha);
    var w2 := Deliver(ws, DONE);
    ws := ws + [w2];
    assert ws[|ws| - 2..] == [w1, w2];
    WorldRunKeeps(ws, |ws| - 2);
    WorldRunKeeps(ws, |ws| - 1);
    hide WorldInv;
    Chain(w1, w2);
  }

  lemma OfferedDone(net: set<Message>, sha: seq<byte> -> Digest)
    requires Offered(net, sha)
    ensures DONE in net
  {
  }

  lemma Cancelled(p: Peer, env: Env)
    requires p.out.queue == []
    ensures var (p', _) := CancelSend(p, Channel([], []), env); p'.out.send.None? && p'.inc == p.inc && p'.tag == p.tag
  {
  }

  /** A Done for an id that is remembered is acknowledged. */
  lemma Repeated(w: World, sha: seq<byte> -> Digest)
    requires Listens(w.q, sha) && ID in w.q.inc.completed
    ensures HandleData(w.q, DONE, Channel([], [true]), EnvAt(4000, [ID])) == (w.q, Channel([DONE], []))
  {
    assert [] + [DONE] == [DONE] && [true][1..] == [];
  }

  lemma Chain(w1: World, w2: World)
    requires WorldInv(w1) && WorldInv(w2) && w2.p == w1.p && w2.q == w1.q
    requires w1.q.out.send.None? && ID in w1.q.inc.completed && ID !in w1.q.inc.recv
    requires w1.p.out.send.None? && w1.p.inc.recv == map[] && w1.p.inc.completed == map[]
    ensures FileAcks.ReplyChain([w1, w2], [DONE, DONE, Done(ID, false)])
  {
    hide WorldInv, FileAcks.Replies, FileAcks.Answers, EnvAt;
    FileAcks.ThreeIsReached(w1.p, w1.q, ID, EnvAt(4000, [ID]));
    Answered(w1.q, DONE, DONE, EnvAt(4000, [ID]));
    Answered(w2.p, DONE, Done(ID, false), EnvAt(4000, [ID]));
  }

  lemma Answered(p: Peer, m: Message, answer: Message, env: Env)
    requires FileAcks.Replies(p, m, [true], env) == [answer]
    ensures FileAcks.Answers(p, m, answer)
  {
    hide FileAcks.Replies;
    assert answer in FileAcks.Replies(p, m, [true], env);
  }
}
