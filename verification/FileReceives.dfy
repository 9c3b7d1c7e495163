/** What each message does to the receiving side, on the fields of the object and with the limits
    written out: when a receiver is made, what a Done leads to, what is recorded. */
module FileReceives {
  import opened Bytes
  import opened FileProtocol
  import opened TransferSpec
  import opened PeerRuns

  // ---- records of one receive ----

  /** The history records about receiving `id`, in the order they were written. */
  ghost function Receipts(all: seq<Record>, id: Id): seq<Record> {
    if all == [] then []
    else
      var r := all[|all| - 1];
      Receipts(all[..|all| - 1], id) + (if r.direction == Receiving && r.id == id then [r] else [])
  }

  lemma ReceiptsAppend(all: seq<Record>, r: Record, id: Id)
    ensures Receipts(all + [r], id)
         == Receipts(all, id) + (if r.direction == Receiving && r.id == id then [r] else [])
  {
    assert (all + [r])[..|all|] == all;
  }

  /** The record of a receive that came to nothing. */
  ghost function GivenUp(id: Id, r: Rcv): Record {
    Record(Receiving, id, r.name, r.size, Failure, None)
  }

  ghost predicate Complete(r: Rcv) {
    forall i :: 0 <= i < |r.flags| ==> r.flags[i]
  }

  /** The receiver of `id` and the records about it are as they were. */
  ghost predicate Untold(p: Peer, p': Peer, id: Id) {
    && (id in p'.inc.recv <==> id in p.inc.recv) && (id in p.inc.recv ==> p'.inc.recv[id] == p.inc.recv[id])
    && Receipts(p'.book.all, id) == Receipts(p.book.all, id)
  }

  /** The receiver of `id` is gone, with one record that it came to nothing. */
  ghost predicate Abandoned(p: Peer, p': Peer, id: Id)
    requires id in p.inc.recv
  {
    id !in p'.inc.recv && Receipts(p'.book.all, id) == Receipts(p.book.all, id) + [GivenUp(id, p.inc.recv[id])]
  }

  /** The receiver of `id` waits for a repair asked for at `now`. */
  ghost predicate Renewed(p: Peer, p': Peer, id: Id, now: nat)
    requires id in p.inc.recv
  {
    && id in p'.inc.recv && p'.inc.recv[id] == p.inc.recv[id].(lastNack := Some(now))
    && Receipts(p'.book.all, id) == Receipts(p.book.all, id)
  }

  // ---- gaps ----

  /** The first 512 unset flags, in order. */
  ghost predicate FirstGaps(flags: seq<bool>, gaps: seq<nat>) {
    && |gaps| <= 512
    && (forall i, j :: 0 <= i < j < |gaps| ==> gaps[i] < gaps[j])
    && (forall i :: 0 <= i < |gaps| ==> gaps[i] < |flags| && !flags[gaps[i]])
    && (forall k :: 0 <= k < |flags| && !flags[k] ==> k in gaps || (|gaps| == 512 && gaps[511] < k))
  }

  /** All unset flags, in order. */
  ghost predicate AllGaps(flags: seq<bool>, gaps: seq<nat>) {
    && (forall i, j :: 0 <= i < j < |gaps| ==> gaps[i] < gaps[j])
    && (forall i :: 0 <= i < |gaps| ==> gaps[i] < |flags| && !flags[gaps[i]])
    && (forall k :: 0 <= k < |flags| && !flags[k] ==> k in gaps)
  }

  lemma {:induction false} MissingAreGaps(flags: seq<bool>)
    ensures AllGaps(flags, MissingOf(flags))
  {
    if flags != [] {
      var n := |flags| - 1;
      MissingAreGaps(flags[..n]);
      forall k | 0 <= k < |flags| && !flags[k] ensures k in MissingOf(flags) {
        if k < n {
          assert !flags[..n][k];
        }
      }
    }
  }

  lemma CutGaps(flags: seq<bool>, gaps: seq<nat>)
    requires AllGaps(flags, gaps)
    ensures FirstGaps(flags, gaps[..Min(|gaps|, 512)])
  {
    var first := gaps[..Min(|gaps|, 512)];
    forall k | 0 <= k < |flags| && !flags[k] ensures k in first || (|first| == 512 && first[511] < k) {
      var i :| 0 <= i < |gaps| && gaps[i] == k;
      if i < |first| {
        assert first[i] == k;
      }
    }
  }

  // ---- messages ----

  /** When meta data makes a receiver, and what it is then: nothing received, all bytes zero. */
  lemma MetaMakesIff(p: Peer, m: Message, c: Channel, env: Env)
    requires m.Meta? && m.id !in p.inc.recv
    ensures var (p', c') := HandleData(p, m, c, env);
            var image := m.kind == ClipboardImage;
            && c' == c && p'.out == p.out && p'.book == p.book
            && (m.id in p'.inc.recv <==>
                  && (image || (p.inc.dir.Some? && SafeFileName(m.name) != ""))
                  && 0 < m.size <= (if image then 0x100_0000 else 0x4000_0000)
                  && m.chunks == (m.size + 8191) / 8192 && |p.inc.recv| < 16)
            && (m.id !in p'.inc.recv ==> p' == p)
            && (m.id in p'.inc.recv ==>
                  && p'.inc == p.inc.(recv := p.inc.recv[m.id := p'.inc.recv[m.id]])
                  && var r := p'.inc.recv[m.id];
                  && r.kind == m.kind && r.hash == m.hash
                  && r.size == |r.buf| == m.size && r.total == |r.flags| == m.chunks
                  && r.received == 0 && r.lastNack.None? && r.createdAt == env.now
                  && r.name == (if image then "clipboard-image.png" else SafeFileName(m.name))
                  && (forall i :: 0 <= i < |r.buf| ==> r.buf[i] == 0)
                  && (forall i :: 0 <= i < |r.flags| ==> !r.flags[i]))
  {
    hide SafeFileName;
  }

  /** Meta data for a known id changes nothing. */
  lemma MetaRepeated(p: Peer, m: Message, c: Channel, env: Env)
    requires m.Meta? && m.id in p.inc.recv
    ensures HandleData(p, m, c, env) == (p, c)
  {
  }

  /** A chunk that fits is written at 8192 times its index and counted once; any other one, and one for
      an unknown id, changes nothing. */
  lemma ChunkEffect(p: Peer, id: Id, index: nat, payload: seq<byte>, c: Channel, env: Env)
    requires RcvShapes(p.inc)
    ensures var (p', c') := HandleData(p, Chunk(id, index, payload), c, env);
            c' == c
            && if id !in p.inc.recv || index >= p.inc.recv[id].total
                  || index * 8192 + |payload| > |p.inc.recv[id].buf| then p' == p
            else
              && p' == p.(inc := p.inc.(recv := p'.inc.recv)) && id in p'.inc.recv
              && p'.inc.recv == p.inc.recv[id := p'.inc.recv[id]]
              && var r, r' := p.inc.recv[id], p'.inc.recv[id];
              && r' == r.(buf := r'.buf, flags := r.flags[index := true], received := r'.received)
              && r'.received == r.received + (if r.flags[index] then 0 else 1)
              && |r'.buf| == |r.buf|
              && forall i :: 0 <= i < |r.buf| ==>
                   r'.buf[i] == if index * 8192 <= i < index * 8192 + |payload| then payload[i - index * 8192]
                                else r.buf[i]
  {
    if id in p.inc.recv {
      var r := p.inc.recv[id];
      if index < r.total && index * 8192 + |payload| <= |r.buf| {
        assert r.flags[index] ==> r.flags == r.flags[index := true];
      } else {
        assert p.inc.recv == p.inc.recv[id := r];
      }
    }
  }

  /** A receive that is cancelled by the sender is dropped and recorded. */
  lemma CancelEffect(p: Peer, id: Id, c: Channel, env: Env)
    ensures var (p', c') := HandleData(p, Cancel(id), c, env);
            && c' == c && p'.out == p.out
            && if id !in p.inc.recv then p' == p
               else
                 && p'.inc == p.inc.(recv := p.inc.recv - {id})
                 && var r := p.inc.recv[id];
                 p'.book.all == p.book.all + [Record(Receiving, id, r.name, r.size, Cancelled, None)]
  {
  }

  /** Every chunk is there and the digest is right. */
  ghost predicate Intact(p: Peer, r: Rcv) {
    r.received == r.total && |r.buf| == r.size && (r.hash.Some? ==> p.sha(r.buf) == r.hash.value)
  }

  /** A positive Done is always answered when the id is not being received: whether it is known to be
      stored. */
  lemma DoneUnknown(p: Peer, id: Id, ok: bool, c: Channel, env: Env)
    requires id !in p.inc.recv && (p.out.send.Some? ==> p.out.send.value.id != id)
    ensures var (p', c') := HandleData(p, Done(id, ok), c, env);
            p' == p && c' == if ok then Push(c, Done(id, id in p.inc.completed)) else c
  {
  }

  /** The receiver of `id` is repaired: its first gaps are asked for, or without a gap it is given up. */
  ghost predicate Repaired(p: Peer, c: Channel, p': Peer, c': Channel, id: Id, now: nat)
    requires id in p.inc.recv
  {
    if Complete(p.inc.recv[id]) then Abandoned(p, p', id) && c' == c
    else
      && Renewed(p, p', id, now)
      && exists gaps :: FirstGaps(p.inc.recv[id].flags, gaps) && c' == Push(c, Nack(id, gaps))
  }

  /** The receiver of `id` is stored and acknowledged; a file gets a record, an image goes to the
      clipboard. */
  ghost predicate Stored(p: Peer, c: Channel, p': Peer, c': Channel, id: Id, env: Env)
    requires id in p.inc.recv
  {
    var r := p.inc.recv[id];
    && id !in p'.inc.recv && c' == Push(c, Done(id, true))
    && p'.inc.commits == p.inc.commits + [Committed(id, r.name, r.buf)]
    && p'.inc.completed == Remember(p.inc.completed, id, env)
    && p'.inc.image == (if r.kind == ClipboardImage then Some(r.buf) else p.inc.image)
    && p'.book.all == p.book.all
         + (if r.kind == File then [Record(Receiving, id, r.name, r.size, Success, None)] else [])
  }

  lemma ResendRepairs(p: Peer, id: Id, c: Channel, env: Env)
    requires id in p.inc.recv
    ensures var (p', c') := RequestResend(DropRcv(p, id), id, p.inc.recv[id], c, env);
            Repaired(p, c, p', c', id, env.now) && p'.out == p.out
  {
    GapsLeft(p.inc.recv[id]);
    hide Push, MissingOf, Repaired;
    var r, p0 := p.inc.recv[id], DropRcv(p, id);
    var missing := MissingOf(r.flags);
    if missing == [] {
      GaveUp(p, id, c, env);
    } else {
      MissingAreGaps(r.flags);
      CutGaps(r.flags, missing);
      AskedFor(p, id, c, env, missing[..Min(|missing|, 512)]);
    }
  }

  lemma GaveUp(p: Peer, id: Id, c: Channel, env: Env)
    requires id in p.inc.recv && Complete(p.inc.recv[id])
    ensures Repaired(p, c, LogReceive(DropRcv(p, id), id, p.inc.recv[id], Failure), c, id, env.now)
  {
    hide Complete;
    ReceiptsAppend(p.book.all, GivenUp(id, p.inc.recv[id]), id);
  }

  lemma AskedFor(p: Peer, id: Id, c: Channel, env: Env, gaps: seq<nat>)
    requires id in p.inc.recv && !Complete(p.inc.recv[id]) && FirstGaps(p.inc.recv[id].flags, gaps)
    ensures var r := p.inc.recv[id].(lastNack := Some(env.now));
            Repaired(p, c, PutRcv(DropRcv(p, id), id, r), Push(c, Nack(id, gaps)), id, env.now)
  {
    hide Complete, FirstGaps, Push, Receipts;
  }

  lemma GapsLeft(r: Rcv)
    ensures MissingOf(r.flags) == [] <==> Complete(r)
  {
    CountAllTrue(r.flags);
  }

  lemma CommitStores(p: Peer, id: Id, c: Channel, env: Env)
    requires id in p.inc.recv
    requires p.inc.recv[id].kind == File ==> p.inc.dir.Some? && env.writable
    ensures var (p', c') := Commit(DropRcv(p, id), id, p.inc.recv[id], c, env);
            Stored(p, c, p', c', id, env) && p'.out == p.out
  {
    hide Push, Remember;
    assert p.book.all + [] == p.book.all;
  }

  /** A Done for a receive: a failed one is dropped, an intact one is stored and acknowledged unless
      there is nowhere to store it, and any other one is repaired. */
  lemma DoneEffect(p: Peer, id: Id, ok: bool, c: Channel, env: Env)
    requires id in p.inc.recv && (p.out.send.Some? ==> p.out.send.value.id != id)
    ensures var r, (p', c') := p.inc.recv[id], HandleData(p, Done(id, ok), c, env);
            && p'.out == p.out
            && if !ok then p' == DropRcv(p, id) && c' == c
               else if !Intact(p, r) then Repaired(p, c, p', c', id, env.now)
               else if r.kind == File && (p.inc.dir.None? || !env.writable) then p' == DropRcv(p, id) && c' == c
               else Stored(p, c, p', c', id, env)
  {
    ResendRepairs(p, id, c, env);
    if p.inc.recv[id].kind == File ==> p.inc.dir.Some? && env.writable {
      CommitStores(p, id, c, env);
    }
    hide RequestResend, Repaired, Stored, Push, Remember;
  }

  /** The newest acknowledgement is remembered for sure while there is room. */
  lemma RemembersNew(completed: map<Id, nat>, id: Id, env: Env)
    requires |completed[id := env.now]| <= 64
    ensures Remember(completed, id, env) == completed[id := env.now]
  {
  }

  /** Past 64 acknowledgements the one that is forgotten is one of the earliest. */
  lemma ForgetsEarliest(completed: map<Id, nat>, id: Id, env: Env) returns (k: Id)
    requires Covers(env.order, completed.Keys + {id}) && |completed[id := env.now]| > 64
    ensures var all := completed[id := env.now];
            && k in all && Remember(completed, id, env) == all - {k} && forall x :: x in all ==> all[k] <= all[x]
  {
    var all := completed[id := env.now];
    assert all.Keys == completed.Keys + {id};
    assert id in env.order && id in all;
    OldestIsEarliest(env.order, all);
    hide Oldest;
    k := Oldest(env.order, all).value;
  }
}
