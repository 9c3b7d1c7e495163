/** How often one id can be committed: each commit uses up a receiver, and only accepted meta data
    makes one. */
module FileRecommit {
  import opened Bytes
  import opened FileProtocol
  import opened TransferSpec
  import opened PeerRuns
  import opened SendRuns
  import opened FileNetwork

  /** The commits of an id. */
  ghost function CommitsOf(commits: seq<Committed>, id: Id): nat {
    if commits == [] then 0
    else CommitsOf(commits[..|commits| - 1], id) + if commits[|commits| - 1].id == id then 1 else 0
  }

  /** Commits of an id, and the receiver that may still lead to one. */
  ghost function Stake(i: Incoming, id: Id): nat {
    CommitsOf(i.commits, id) + if id in i.recv then 1 else 0
  }

  ghost predicate Creates(i: Incoming, i': Incoming, id: Id) {
    id !in i.recv && id in i'.recv
  }

  /** A commit uses up the receiver, and the stake grows with a new receiver only. */
  ghost predicate StakeStep(i: Incoming, i': Incoming, id: Id) {
    && Stake(i', id) <= Stake(i, id) + (if Creates(i, i', id) then 1 else 0)
    && CommitsOf(i.commits, id) <= CommitsOf(i'.commits, id)
    && (CommitsOf(i'.commits, id) > CommitsOf(i.commits, id) ==> id in i.recv && id !in i'.recv)
  }

  lemma CommitAdds(commits: seq<Committed>, d: Committed, id: Id)
    ensures CommitsOf(commits + [d], id) == CommitsOf(commits, id) + if d.id == id then 1 else 0
  {
    assert (commits + [d])[..|commits|] == commits;
  }

  // ---- one step ----

  /** Nothing is committed and no receiver made. */
  ghost predicate OnlyDrops(i: Incoming, i': Incoming) {
    i'.commits == i.commits && forall id :: id in i'.recv ==> id in i.recv
  }

  lemma OnlyDropsStep(i: Incoming, i': Incoming, id: Id)
    requires OnlyDrops(i, i')
    ensures StakeStep(i, i', id) && !Creates(i, i', id)
  {
  }

  lemma ResendDrops(p: Peer, id: Id, r: Rcv, c: Channel, env: Env)
    ensures var i := RequestResend(p, id, r, c, env).0.inc;
            i.commits == p.inc.commits && forall k :: k in i.recv ==> k in p.inc.recv || k == id
  {
  }

  lemma OnDoneStep(p: Peer, m: Message, c: Channel, env: Env, id: Id)
    requires m.Done?
    ensures StakeStep(p.inc, OnDone(p, m, c, env).0.inc, id) && !Creates(p.inc, OnDone(p, m, c, env).0.inc, id)
  {
    if m.id in p.inc.recv {
      var r := p.inc.recv[m.id];
      ResendDrops(DropRcv(p, m.id), m.id, r, c, env);
      CommitAdds(p.inc.commits, Committed(m.id, r.name, r.buf), id);
      hide RequestResend, Remember, CommitsOf;
    }
  }

  lemma {:induction false} ExpireDrops(p: Peer, order: seq<Id>, now: nat)
    ensures OnlyDrops(p.inc, ExpireReceivers(p, order, now).inc)
    decreases |order|
  {
    if order != [] {
      var k := order[0];
      if k in p.inc.recv && Expired(p.inc.recv[k], now) {
        ExpireDrops(LogReceive(DropRcv(p, k), k, p.inc.recv[k], Failure), order[1..], now);
      } else {
        ExpireDrops(p, order[1..], now);
      }
    }
  }

  lemma {:induction false} RetryDrops(p: Peer, order: seq<Id>, c: Channel, env: Env)
    ensures OnlyDrops(p.inc, RetryNacks(p, order, c, env).0.inc)
    decreases |order|
  {
    hide RequestResend;
    if order != [] {
      var k := order[0];
      if k in p.inc.recv && NackDue(p.inc.recv[k], env.now) {
        ResendDrops(DropRcv(p, k), k, p.inc.recv[k], c, env);
        var (p1, c1) := RequestResend(DropRcv(p, k), k, p.inc.recv[k], c, env);
        RetryDrops(p1, order[1..], c1, env);
      } else {
        RetryDrops(p, order[1..], c, env);
      }
    }
  }

  lemma {:induction false} StartNextSame(p: Peer, env: Env)
    ensures StartNext(p, env).inc == p.inc
    decreases |p.out.queue|
  {
    if p.out.queue != [] && !Openable(p.out.queue[0].path, env) {
      StartNextSame(DropQueued(p, 0, Failure), env);
    }
  }

  lemma AdvanceSame(p: Peer, c: Channel, env: Env)
    requires SndShapes(p.out)
    ensures AdvanceSend(p, c, env).0.inc == p.inc
  {
    hide StartNext, SndTick;
    if p.out.send.Some? {
      var s := p.out.send.value;
      StartNextSame(LogSend(EmptySlot(p), SendRecord(SndTick(s, c, env.now, env.unreadable).0, Failure)), env);
      StartNextSame(LogSend(EmptySlot(p), SendRecord(s, Failure)), env);
      StartNextSame(EmptySlot(p), env);
    }
  }

  lemma CancelSame(p: Peer, c: Channel, env: Env)
    ensures CancelSend(p, c, env).0.inc == p.inc
  {
    hide StartNext;
    if p.out.send.Some? {
      StartNextSame(LogSend(EmptySlot(p), SendRecord(p.out.send.value, Cancelled)), env);
    }
  }

  lemma TickDrops(p: Peer, c: Channel, env: Env)
    requires SndShapes(p.out)
    ensures OnlyDrops(p.inc, Tick(p, c, env).0.inc)
  {
    ExpireDrops(p, env.order, env.now);
    var p1 := ExpireReceivers(p, env.order, env.now);
    var p2 := ExpireCompleted(p1, env.now);
    AdvanceSame(p2, c, env);
    var (p3, c3) := AdvanceSend(p2, c, env);
    RetryDrops(p3, env.order, c3, env);
    hide ExpireReceivers, AdvanceSend, RetryNacks;
  }

  lemma HandleDataStep(p: Peer, m: Message, c: Channel, env: Env, id: Id)
    ensures StakeStep(p.inc, HandleData(p, m, c, env).0.inc, id)
    ensures Creates(p.inc, HandleData(p, m, c, env).0.inc, id) ==> m.Meta? && m.id == id
  {
    hide StakeStep, OnDone, OnAck;
    var i' := HandleData(p, m, c, env).0.inc;
    match m
    case Done(k, ok) =>
      if p.out.send.Some? && p.out.send.value.id == k {
        AckSame(p, ok);
        OnlyDropsStep(p.inc, i', id);
      } else {
        OnDoneStep(p, m, c, env, id);
      }
    case Meta(k, _, _, _, _, _) =>
      MetaStep(p, m, env, id);
    case Chunk(k, _, _) =>
      OnlyDropsStep(p.inc, i', id);
    case Cancel(k) =>
      OnlyDropsStep(p.inc, i', id);
    case Nack(_, _) =>
      OnlyDropsStep(p.inc, i', id);
    case Request(path) =>
      SendFileSame(p, path, env);
      OnlyDropsStep(p.inc, i', id);
  }

  lemma AckSame(p: Peer, ok: bool)
    requires p.out.send.Some?
    ensures OnAck(p, ok).inc == p.inc
  {
  }

  lemma SendFileSame(p: Peer, path: Path, env: Env)
    ensures SendFile(p, path, env).0.inc == p.inc
  {
  }

  lemma MetaStep(p: Peer, m: Message, env: Env, id: Id)
    requires m.Meta?
    ensures StakeStep(p.inc, OnMeta(p, m, env).inc, id)
    ensures Creates(p.inc, OnMeta(p, m, env).inc, id) ==> m.id == id
  {
    hide NewRcv, SafeFileName, ChunkCount, CommitsOf;
  }

  /** One step of a peer, whatever it is. */
  lemma ApplyStep(p: Peer, st: Step, id: Id)
    requires SndShapes(p.out)
    ensures StakeStep(p.inc, After(p, st).inc, id)
    ensures Creates(p.inc, After(p, st).inc, id) ==> st.op.OpReceive? && st.op.m.Meta? && st.op.m.id == id
  {
    hide StakeStep, SendFile, SendImage, CancelSend, CancelSendId, Tick, HandleData;
    var c, env := Channel([], st.verdicts), st.env;
    var i' := After(p, st).inc;
    match st.op
    case OpReceive(m) => HandleDataStep(p, m, c, env, id);
    case OpTick => TickDrops(p, c, env); OnlyDropsStep(p.inc, i', id);
    case OpSendFile(path) => SendFileSame(p, path, env); OnlyDropsStep(p.inc, i', id);
    case OpSendImage(png) => SendImageSame(p, png, env); OnlyDropsStep(p.inc, i', id);
    case OpCancelSend => CancelSame(p, c, env); OnlyDropsStep(p.inc, i', id);
    case OpCancelSendId(k) => CancelIdSame(p, k, c, env); OnlyDropsStep(p.inc, i', id);
    case _ => OnlyDropsStep(p.inc, i', id);
  }

  lemma SendImageSame(p: Peer, png: seq<byte>, env: Env)
    ensures SendImage(p, png, env).0.inc == p.inc
  {
  }

  lemma CancelIdSame(p: Peer, id: Id, c: Channel, env: Env)
    ensures CancelSendId(p, id, c, env).0.inc == p.inc
  {
    hide CancelSend;
    CancelSame(p, c, env);
  }

  // ---- whole runs ----

  /** From state `k` of a run to the next a receiver for `id` is made. */
  ghost predicate CreatedAt(run: seq<Incoming>, k: nat, id: Id)
    requires k + 1 < |run|
  {
    Creates(run[k], run[k + 1], id)
  }

  /** From state `k` of a run to the next `id` is committed. */
  ghost predicate CommittedAt(run: seq<Incoming>, k: nat, id: Id)
    requires k + 1 < |run|
  {
    CommitsOf(run[k + 1].commits, id) > CommitsOf(run[k].commits, id)
  }

  /** How often a receiver for `id` was made along the way. */
  ghost function Creations(run: seq<Incoming>, id: Id): nat {
    if |run| <= 1 then 0
    else Creations(run[..|run| - 1], id) + if CreatedAt(run, |run| - 2, id) then 1 else 0
  }

  ghost predicate StepAt(run: seq<Incoming>, k: nat, id: Id)
    requires k + 1 < |run|
  {
    StakeStep(run[k], run[k + 1], id)
  }

  ghost predicate StakeRun(run: seq<Incoming>, id: Id) {
    run != [] && Stake(run[0], id) == 0 && forall k :: 0 <= k && k + 1 < |run| ==> StepAt(run, k, id)
  }

  lemma {:induction false} StakeBounded(run: seq<Incoming>, id: Id)
    requires StakeRun(run, id)
    ensures Stake(run[|run| - 1], id) <= Creations(run, id)
    decreases |run|
  {
    hide StakeStep, Stake;
    if |run| > 1 {
      var n := |run| - 1;
      var before := run[..n];
      forall k | 0 <= k && k + 1 < n ensures StepAt(before, k, id) {
        assert StepAt(run, k, id);
      }
      StakeBounded(before, id);
      assert StepAt(run, n - 1, id);
      Bounded(run[n - 1], run[n], id);
    }
  }

  lemma Bounded(i: Incoming, i': Incoming, id: Id)
    requires StakeStep(i, i', id)
    ensures Stake(i', id) <= Stake(i, id) + if Creates(i, i', id) then 1 else 0
  {
  }

  /** Without a receiver nothing is committed before one is made. */
  lemma {:induction false} CommitNeedsReceiver(run: seq<Incoming>, id: Id, a: nat, b: nat)
    requires StakeRun(run, id) && a <= b < |run|
    requires id !in run[a].recv && forall k :: a <= k < b ==> !CreatedAt(run, k, id)
    ensures id !in run[b].recv
    decreases b - a
  {
    if a < b {
      CommitNeedsReceiver(run, id, a, b - 1);
      assert !CreatedAt(run, b - 1, id);
    }
  }

  lemma CommitUses(run: seq<Incoming>, id: Id, k: nat)
    requires StakeRun(run, id) && k + 1 < |run| && CommittedAt(run, k, id)
    ensures id in run[k].recv && id !in run[k + 1].recv
  {
    hide CommitsOf;
    assert StepAt(run, k, id);
  }

  /** Between two commits of an id a receiver for it is made. */
  lemma CommitsApart(run: seq<Incoming>, id: Id, a: nat, b: nat) returns (j: nat)
    requires StakeRun(run, id) && a < b && b + 1 < |run| && CommittedAt(run, a, id) && CommittedAt(run, b, id)
    ensures a < j < b && CreatedAt(run, j, id)
  {
    CommitUses(run, id, a);
    CommitUses(run, id, b);
    hide StakeRun, CommittedAt, CreatedAt;
    if forall k :: a + 1 <= k < b ==> !CreatedAt(run, k, id) {
      CommitNeedsReceiver(run, id, a + 1, b);
      assert false;
    }
    j :| a + 1 <= j < b && CreatedAt(run, j, id);
  }

  /** What each of the two peers received along a run. */
  ghost function IncomingOf(ws: seq<World>, ofQ: bool): seq<Incoming> {
    seq(|ws|, i requires 0 <= i < |ws| => if ofQ then ws[i].q.inc else ws[i].p.inc)
  }

  lemma MoveStep(p: Peer, inbox: set<Message>, st: Step, p': Peer, sent: set<Message>, id: Id)
    requires Moves(p, inbox, st, p', sent)
    ensures StakeStep(p.inc, p'.inc, id)
    ensures Creates(p.inc, p'.inc, id) ==> exists m :: m in inbox && m.Meta? && m.id == id && st.op == OpReceive(m)
  {
    hide StakeStep, After, Apply;
    ApplyStep(p, st, id);
    if Creates(p.inc, p'.inc, id) {
      assert st.op.m in inbox && st.op == OpReceive(st.op.m);
    }
  }

  /** A receiver is made by meta data that the other peer sent, and by nothing else. */
  ghost predicate MadeByMeta(p: Peer, inbox: set<Message>, p': Peer, id: Id) {
    exists st, sent, m ::
      && Moves(p, inbox, st, p', sent) && m in inbox && m.Meta? && m.id == id && st.op == OpReceive(m)
  }

  lemma WorldStep(w: World, w': World, id: Id)
    requires StepsTo(w, w')
    ensures StakeStep(w.p.inc, w'.p.inc, id) && StakeStep(w.q.inc, w'.q.inc, id)
    ensures Creates(w.p.inc, w'.p.inc, id) ==> MadeByMeta(w.p, w.qp, w'.p, id)
    ensures Creates(w.q.inc, w'.q.inc, id) ==> MadeByMeta(w.q, w.pq, w'.q, id)
  {
    hide Moves, StakeStep;
    SameStep(w.p.inc, id);
    SameStep(w.q.inc, id);
    if exists st, sent :: Moves(w.p, w.qp, st, w'.p, sent) && w' == World(w'.p, w.q, w.pq + sent, w.qp) {
      var st, sent :| Moves(w.p, w.qp, st, w'.p, sent) && w' == World(w'.p, w.q, w.pq + sent, w.qp);
      MoveStep(w.p, w.qp, st, w'.p, sent, id);
    } else {
      var st, sent :| Moves(w.q, w.pq, st, w'.q, sent) && w' == World(w.p, w'.q, w.pq, w.qp + sent);
      MoveStep(w.q, w.pq, st, w'.q, sent, id);
    }
  }

  lemma SameStep(i: Incoming, id: Id)
    ensures StakeStep(i, i, id) && !Creates(i, i, id)
  {
  }

  lemma RunSteps(ws: seq<World>, id: Id, ofQ: bool)
    requires IsWorldRun(ws)
    ensures StakeRun(IncomingOf(ws, ofQ), id)
  {
    hide StepsTo, StakeStep;
    var run := IncomingOf(ws, ofQ);
    assert Stake(run[0], id) == 0;
    forall k | 0 <= k && k + 1 < |run| ensures StepAt(run, k, id) {
      assert StepsAt(ws, k);
      WorldStep(ws[k], ws[k + 1], id);
    }
  }

  /** In every state of every run and for every id: the commits, and the receiver there may be, are
      no more than the receivers that were made for the id. */
  lemma CommitsBounded(ws: seq<World>, id: Id, ofQ: bool)
    requires IsWorldRun(ws)
    ensures var i := if ofQ then ws[|ws| - 1].q.inc else ws[|ws| - 1].p.inc;
            CommitsOf(i.commits, id) + (if id in i.recv then 1 else 0) <= Creations(IncomingOf(ws, ofQ), id)
  {
    hide IsWorldRun, StakeRun, Creations, CommitsOf;
    RunSteps(ws, id, ofQ);
    StakeBounded(IncomingOf(ws, ofQ), id);
  }

  /** An id is committed a second time only if, after the first commit, meta data that the other
      peer sent for it was accepted again. */
  lemma RecommitNeedsMeta(ws: seq<World>, id: Id, ofQ: bool, a: nat, b: nat) returns (j: nat)
    requires IsWorldRun(ws) && a < b && b + 1 < |ws|
    requires CommittedAt(IncomingOf(ws, ofQ), a, id) && CommittedAt(IncomingOf(ws, ofQ), b, id)
    ensures a < j < b && CreatedAt(IncomingOf(ws, ofQ), j, id)
    ensures if ofQ then MadeByMeta(ws[j].q, ws[j].pq, ws[j + 1].q, id)
            else MadeByMeta(ws[j].p, ws[j].qp, ws[j + 1].p, id)
  {
    hide StepsTo, MadeByMeta, CommittedAt, StakeRun, StakeStep;
    RunSteps(ws, id, ofQ);
    j := CommitsApart(IncomingOf(ws, ofQ), id, a, b);
    assert StepsAt(ws, j);
    WorldStep(ws[j], ws[j + 1], id);
  }
}
