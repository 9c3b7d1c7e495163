/** What a tick does, with its times written out: which receivers live on, which are given up or asked
    for repair, which acknowledgements are forgotten, and what becomes of a finished send. */
module FileTicks {
  import opened FileProtocol
  import opened TransferSpec
  import opened PeerRuns
  import opened FileReceives
  import opened SenderTicks

  // ---- the parts of a tick ----

  lemma OtherReceiver(p: Peer, id: Id, other: Id)
    requires other != id && id in p.inc.recv
    ensures Untold(p, LogReceive(DropRcv(p, id), id, p.inc.recv[id], Failure), other)
  {
    ReceiptsAppend(p.book.all, GivenUp(id, p.inc.recv[id]), other);
  }

  lemma {:induction false} ExpireAbsent(p: Peer, order: seq<Id>, now: nat, id: Id)
    requires id !in order || id !in p.inc.recv
    ensures Untold(p, ExpireReceivers(p, order, now), id)
    decreases |order|
  {
    if order != [] {
      var k := order[0];
      assert k in order && forall x :: x in order[1..] ==> x in order;
      if k in p.inc.recv && Expired(p.inc.recv[k], now) {
        OtherReceiver(p, k, id);
        ExpireAbsent(LogReceive(DropRcv(p, k), k, p.inc.recv[k], Failure), order[1..], now, id);
      } else {
        ExpireAbsent(p, order[1..], now, id);
      }
    }
  }

  lemma {:induction false} ExpireAt(p: Peer, order: seq<Id>, now: nat, id: Id)
    requires NoDup(order) && id in order && id in p.inc.recv
    ensures var p' := ExpireReceivers(p, order, now);
            if now >= p.inc.recv[id].createdAt + 300_000 then Abandoned(p, p', id) else Untold(p, p', id)
    decreases |order|
  {
    var k, rest := order[0], order[1..];
    assert order == [k] + rest && k !in rest;
    if k == id {
      if now >= p.inc.recv[id].createdAt + 300_000 {
        ReceiptsAppend(p.book.all, GivenUp(id, p.inc.recv[id]), id);
        ExpireAbsent(LogReceive(DropRcv(p, id), id, p.inc.recv[id], Failure), rest, now, id);
      } else {
        ExpireAbsent(p, rest, now, id);
      }
    } else if k in p.inc.recv && Expired(p.inc.recv[k], now) {
      OtherReceiver(p, k, id);
      ExpireAt(LogReceive(DropRcv(p, k), k, p.inc.recv[k], Failure), rest, now, id);
    } else {
      ExpireAt(p, rest, now, id);
    }
  }

  ghost predicate Overdue(r: Rcv, now: nat) {
    r.lastNack.Some? && now >= r.lastNack.value + 1000
  }

  lemma ResendOther(p: Peer, id: Id, r: Rcv, c: Channel, env: Env, other: Id)
    requires other != id
    ensures Untold(p, RequestResend(DropRcv(p, id), id, r, c, env).0, other)
  {
    ReceiptsAppend(p.book.all, GivenUp(id, r), other);
  }

  lemma ResendThis(p: Peer, id: Id, c: Channel, env: Env)
    requires id in p.inc.recv
    ensures var p' := RequestResend(DropRcv(p, id), id, p.inc.recv[id], c, env).0;
            if Complete(p.inc.recv[id]) then Abandoned(p, p', id) else Renewed(p, p', id, env.now)
  {
    GapsLeft(p.inc.recv[id]);
    ReceiptsAppend(p.book.all, GivenUp(id, p.inc.recv[id]), id);
  }

  lemma {:induction false} RetryAbsent(p: Peer, order: seq<Id>, c: Channel, env: Env, id: Id)
    requires id !in order || id !in p.inc.recv
    ensures Untold(p, RetryNacks(p, order, c, env).0, id)
    decreases |order|
  {
    hide RequestResend;
    if order != [] {
      var k, rest := order[0], order[1..];
      assert order == [k] + rest;
      if k in p.inc.recv && NackDue(p.inc.recv[k], env.now) {
        ResendOther(p, k, p.inc.recv[k], c, env, id);
        var (p1, c1) := RequestResend(DropRcv(p, k), k, p.inc.recv[k], c, env);
        RetryAbsent(p1, rest, c1, env, id);
      } else {
        RetryAbsent(p, rest, c, env, id);
      }
    }
  }

  lemma {:induction false} RetryAt(p: Peer, order: seq<Id>, c: Channel, env: Env, id: Id)
    requires NoDup(order) && id in order && id in p.inc.recv
    ensures var r, p' := p.inc.recv[id], RetryNacks(p, order, c, env).0;
            if !Overdue(r, env.now) then Untold(p, p', id)
            else if Complete(r) then Abandoned(p, p', id)
            else Renewed(p, p', id, env.now)
    decreases |order|
  {
    hide RequestResend, Complete, Receipts;
    var k, rest := order[0], order[1..];
    assert order == [k] + rest && k !in rest;
    var (p1, c1) := if k in p.inc.recv && NackDue(p.inc.recv[k], env.now)
                    then RequestResend(DropRcv(p, k), k, p.inc.recv[k], c, env) else (p, c);
    if k == id {
      ResendThis(p, id, c, env);
      RetryAbsent(p1, rest, c1, env, id);
    } else {
      if k in p.inc.recv {
        ResendOther(p, k, p.inc.recv[k], c, env, id);
      }
      RetryAt(p1, rest, c1, env, id);
    }
  }

  // ---- the sending part leaves receives alone ----

  lemma {:induction false} StartNextUntold(p: Peer, env: Env, id: Id)
    ensures Untold(p, StartNext(p, env), id) && StartNext(p, env).inc == p.inc
    decreases |p.out.queue|
  {
    if p.out.queue != [] && !Openable(p.out.queue[0].path, env) {
      ReceiptsAppend(p.book.all, QueueRecord(p.out.queue[0], Failure), id);
      StartNextUntold(DropQueued(p, 0, Failure), env, id);
    }
  }

  lemma AdvanceUntold(p: Peer, c: Channel, env: Env, id: Id)
    requires SndShapes(p.out)
    ensures Untold(p, AdvanceSend(p, c, env).0, id) && AdvanceSend(p, c, env).0.inc == p.inc
  {
    hide StartNext, SndTick;
    if p.out.send.Some? {
      var s := SndTick(p.out.send.value, c, env.now, env.unreadable).0;
      var p1 := LogSend(EmptySlot(p), SendRecord(s, Failure));
      ReceiptsAppend(p.book.all, SendRecord(s, Failure), id);
      StartNextUntold(p1, env, id);
      StartNextUntold(EmptySlot(p), env, id);
    }
  }

  // ---- a whole tick ----

  /** A receiver lives for five minutes; while it lives, a Nack that has gone unanswered for a second
      is repeated, unless nothing is missing, when the receiver is given up. Exactly the given-up
      ones get a record. */
  lemma TickReceiver(p: Peer, c: Channel, env: Env, id: Id)
    requires SndShapes(p.out) && Covers(env.order, p.inc.recv.Keys) && id in p.inc.recv
    ensures var r, p' := p.inc.recv[id], Tick(p, c, env).0;
            if env.now >= r.createdAt + 300_000 then Abandoned(p, p', id)
            else if r.lastNack.None? || env.now < r.lastNack.value + 1000 then Untold(p, p', id)
            else if Complete(r) then Abandoned(p, p', id)
            else Renewed(p, p', id, env.now)
  {
    var p1 := ExpireReceivers(p, env.order, env.now);
    var p2 := ExpireCompleted(p1, env.now);
    var (p3, c3) := AdvanceSend(p2, c, env);
    ExpireAt(p, env.order, env.now, id);
    AdvanceUntold(p2, c, env, id);
    hide ExpireReceivers, AdvanceSend, RetryNacks, Complete, Receipts, SndShape;
    if id in p3.inc.recv {
      RetryAt(p3, env.order, c3, env, id);
    } else {
      RetryAbsent(p3, env.order, c3, env, id);
    }
  }

  /** A tick makes no receiver. */
  lemma TickMakesNone(p: Peer, c: Channel, env: Env, id: Id)
    requires SndShapes(p.out) && id !in p.inc.recv
    ensures Untold(p, Tick(p, c, env).0, id)
  {
    var p1 := ExpireReceivers(p, env.order, env.now);
    var p2 := ExpireCompleted(p1, env.now);
    var (p3, c3) := AdvanceSend(p2, c, env);
    ExpireAbsent(p, env.order, env.now, id);
    AdvanceUntold(p2, c, env, id);
    hide ExpireReceivers, AdvanceSend, RetryNacks, Receipts, SndShape;
    RetryAbsent(p3, env.order, c3, env, id);
  }

  lemma {:induction false} ExpireKeepsRest(p: Peer, order: seq<Id>, now: nat)
    ensures var p' := ExpireReceivers(p, order, now);
            p' == p.(inc := p.inc.(recv := p'.inc.recv), book := p'.book)
    decreases |order|
  {
    if order != [] {
      var k := order[0];
      if k in p.inc.recv && Expired(p.inc.recv[k], now) {
        ExpireKeepsRest(LogReceive(DropRcv(p, k), k, p.inc.recv[k], Failure), order[1..], now);
      } else {
        ExpireKeepsRest(p, order[1..], now);
      }
    }
  }

  lemma {:induction false} RetryKeepsRest(p: Peer, order: seq<Id>, c: Channel, env: Env)
    ensures var p' := RetryNacks(p, order, c, env).0;
            p' == p.(inc := p.inc.(recv := p'.inc.recv), book := p'.book)
    decreases |order|
  {
    if order != [] {
      var k := order[0];
      if k in p.inc.recv && NackDue(p.inc.recv[k], env.now) {
        var (p1, c1) := RequestResend(DropRcv(p, k), k, p.inc.recv[k], c, env);
        RetryKeepsRest(p1, order[1..], c1, env);
      } else {
        RetryKeepsRest(p, order[1..], c, env);
      }
    }
  }

  /** An acknowledgement is remembered for an hour. */
  lemma TickForgets(p: Peer, c: Channel, env: Env, id: Id)
    requires SndShapes(p.out)
    ensures var (before, after) := (p.inc.completed, Tick(p, c, env).0.inc.completed);
            && (id in after <==> id in before && env.now < before[id] + 3_600_000)
            && (id in after ==> after[id] == before[id])
  {
    var p1 := ExpireReceivers(p, env.order, env.now);
    var p2 := ExpireCompleted(p1, env.now);
    var (p3, c3) := AdvanceSend(p2, c, env);
    ExpireKeepsRest(p, env.order, env.now);
    AdvanceUntold(p2, c, env, id);
    RetryKeepsRest(p3, env.order, c3, env);
    hide ExpireReceivers, AdvanceSend, RetryNacks, Receipts, SndShape;
  }

  // ---- the Nacks of a tick ----

  ghost predicate Asked(r: Rcv, id: Id, sent: seq<Message>) {
    exists gaps :: FirstGaps(r.flags, gaps) && Nack(id, gaps) in sent
  }

  lemma ResendAsks(p: Peer, id: Id, c: Channel, env: Env)
    requires id in p.inc.recv && !Complete(p.inc.recv[id]) && Accepts(c)
    ensures Asked(p.inc.recv[id], id, RequestResend(DropRcv(p, id), id, p.inc.recv[id], c, env).1.sent)
  {
    ResendRepairs(p, id, c, env);
    hide RequestResend, FirstGaps, Complete;
    var c' := RequestResend(DropRcv(p, id), id, p.inc.recv[id], c, env).1;
    var gaps :| FirstGaps(p.inc.recv[id].flags, gaps) && c' == Push(c, Nack(id, gaps));
    assert c'.sent[|c.sent|] == Nack(id, gaps);
  }

  lemma ResendUses(p: Peer, id: Id, r: Rcv, c: Channel, env: Env, n: nat)
    requires Willing(c, n + 1)
    ensures var c' := RequestResend(DropRcv(p, id), id, r, c, env).1;
            Willing(c', n) && c.sent <= c'.sent
  {
  }

  lemma AskedMore(r: Rcv, id: Id, sent: seq<Message>, sent': seq<Message>)
    requires Asked(r, id, sent) && sent <= sent'
    ensures Asked(r, id, sent')
  {
    hide FirstGaps;
    var gaps :| FirstGaps(r.flags, gaps) && Nack(id, gaps) in sent;
    var i :| 0 <= i < |sent| && sent[i] == Nack(id, gaps);
    assert sent'[i] == Nack(id, gaps);
  }

  lemma {:induction false} RetryAsks(p: Peer, order: seq<Id>, c: Channel, env: Env, id: Id)
    requires NoDup(order) && Willing(c, |order|)
    ensures c.sent <= RetryNacks(p, order, c, env).1.sent
    ensures id in order && id in p.inc.recv && Overdue(p.inc.recv[id], env.now) && !Complete(p.inc.recv[id]) ==>
              Asked(p.inc.recv[id], id, RetryNacks(p, order, c, env).1.sent)
    decreases |order|
  {
    hide RequestResend, Complete, Receipts, Asked, Willing, NoDup;
    if order != [] {
      var k, rest := order[0], order[1..];
      Distinct(order);
      var (p1, c1) := if k in p.inc.recv && NackDue(p.inc.recv[k], env.now)
                      then RequestResend(DropRcv(p, k), k, p.inc.recv[k], c, env) else (p, c);
      Fewer(c, |rest|);
      if k in p.inc.recv {
        ResendUses(p, k, p.inc.recv[k], c, env, |rest|);
        if k != id {
          ResendOther(p, k, p.inc.recv[k], c, env, id);
        }
      }
      RetryAsks(p1, rest, c1, env, id);
      if k == id && k in p.inc.recv && Overdue(p.inc.recv[k], env.now) && !Complete(p.inc.recv[k]) {
        ResendAsks(p, id, c, env);
        AskedMore(p.inc.recv[id], id, c1.sent, RetryNacks(p, order, c, env).1.sent);
      }
    }
  }

  lemma Distinct(order: seq<Id>)
    requires NoDup(order) && order != []
    ensures order[0] !in order[1..] && NoDup(order[1..]) && forall x :: x in order <==> x == order[0] || x in order[1..]
  {
    assert order == [order[0]] + order[1..];
  }

  lemma Fewer(c: Channel, n: nat)
    requires Willing(c, n + 1)
    ensures Willing(c, n) && Accepts(c)
  {
  }

  /** Provided the channel accepts, every receiver that lives on and has waited a second for its repair
      is asked about again: its first 512 gaps, in order. */
  lemma TickAsks(p: Peer, c: Channel, env: Env, id: Id)
    requires SndShapes(p.out) && Covers(env.order, p.inc.recv.Keys) && id in p.inc.recv
    requires Willing(c, |env.order| + 33)
    requires env.now < p.inc.recv[id].createdAt + 300_000 && !Complete(p.inc.recv[id])
    requires p.inc.recv[id].lastNack.Some? && env.now >= p.inc.recv[id].lastNack.value + 1000
    ensures Asked(p.inc.recv[id], id, Tick(p, c, env).1.sent)
  {
    var p1 := ExpireReceivers(p, env.order, env.now);
    var p2 := ExpireCompleted(p1, env.now);
    var (p3, c3) := AdvanceSend(p2, c, env);
    ExpireAt(p, env.order, env.now, id);
    AdvanceUntold(p2, c, env, id);
    AdvanceUses(p2, c, env, |env.order|);
    hide ExpireReceivers, AdvanceSend, RetryNacks, Complete, Receipts, SndShape, Willing, Asked;
    RetryAsks(p3, env.order, c3, env, id);
  }

  lemma AdvanceUses(p: Peer, c: Channel, env: Env, n: nat)
    requires SndShapes(p.out) && Willing(c, n + 33)
    ensures Willing(AdvanceSend(p, c, env).1, n)
  {
    if p.out.send.Some? {
      TickUses(p.out.send.value, c, env.now, env.unreadable, n);
      hide SndTick, StartNext, Willing;
    } else {
      assert Willing(c, n);
    }
  }
}
