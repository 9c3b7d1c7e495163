/** The repair phase: all chunks have been sent once, some were lost. Over a channel that may
    refuse messages but delivers what it accepts, the receiver gets exactly the missing chunks,
    asked for in batches of 512, and then commits. */
module FileRepair {
  import opened Bytes
  import opened FileProtocol
  import opened TransferSpec
  import opened PeerRuns
  import opened FileNetwork

  // ---- the missing chunks ----

  lemma {:induction false} MissingMembers(flags: seq<bool>)
    ensures forall i: nat :: i in MissingOf(flags) <==> i < |flags| && !flags[i]
    ensures NoDup(MissingOf(flags))
  {
    if flags != [] {
      var n := |flags| - 1;
      MissingMembers(flags[..n]);
      forall i: nat ensures i in MissingOf(flags) <==> i < |flags| && !flags[i] {
        assert i in MissingOf(flags[..n]) <==> i < n && !flags[i];
      }
      assert n !in MissingOf(flags[..n]);
    }
  }

  /** The batch a Nack asks for. */
  lemma BatchIsMissing(r: Rcv)
    requires RcvShape(r)
    ensures |MissingOf(r.flags)| == r.total - r.received
    ensures var batch := MissingOf(r.flags)[..Min(r.total - r.received, NACK_BATCH)];
            NoDup(batch) && forall i :: 0 <= i < |batch| ==> batch[i] < r.total && !r.flags[batch[i]]
  {
    CountAllTrue(r.flags);
    MissingMembers(r.flags);
    var batch := MissingOf(r.flags)[..Min(r.total - r.received, NACK_BATCH)];
    forall i | 0 <= i < |batch| ensures batch[i] < r.total && !r.flags[batch[i]] {
      assert batch[i] in MissingOf(r.flags);
    }
  }

  ghost function MissingCount(r: Rcv): nat
    requires RcvShape(r)
  {
    CountAllTrue(r.flags);
    r.total - r.received
  }

  /** The resend stack after a Nack that finds it empty is the Nack's list. */
  lemma {:induction false} AddMissingToEmpty(resend: seq<nat>, missing: seq<nat>, total: nat)
    requires NoDup(resend + missing) && forall i :: 0 <= i < |missing| ==> missing[i] < total
    ensures AddMissing(resend, missing, total) == resend + missing
    decreases |missing|
  {
    if missing != [] {
      assert resend + missing == resend + [missing[0]] + missing[1..];
      assert missing[0] !in resend by {
        assert forall j :: 0 <= j < |resend| ==> resend[j] == (resend + missing)[j] != (resend + missing)[|resend|];
      }
      AddMissingToEmpty(resend + [missing[0]], missing[1..], total);
    } else {
      assert resend + missing == resend;
    }
  }

  // ---- one round ----

  /** A round: the sender ticks; what the channel accepts is delivered at once, and so is the
      reply to it. */
  datatype Pair = Pair(p: Peer, q: Peer)
  datatype Settings = Settings(verdicts: seq<bool>, ep: Env, eq: Env)

  ghost function Deliver(w: Pair, messages: seq<Message>, st: Settings): (Pair, seq<Message>)
    decreases |messages|
  {
    if messages == [] then (w, [])
    else
      var (q1, c) := HandleData(w.q, messages[0], Channel([], [true]), st.eq);
      var p1 := if c.sent == [] then w.p else HandleData(w.p, c.sent[0], Channel([], []), st.ep).0;
      var (w2, replies) := Deliver(Pair(p1, q1), messages[1..], st);
      (w2, c.sent + replies)
  }

  ghost function Round(w: Pair, st: Settings): (Pair, seq<Message>, seq<Message>)
    requires SndShapes(w.p.out)
  {
    var (p1, c) := AdvanceSend(w.p, Channel([], st.verdicts), st.ep);
    var (w2, replies) := Deliver(Pair(p1, w.q), c.sent, st);
    (w2, c.sent, replies)
  }

  /** `p` is repairing `id` towards `q`. */
  ghost predicate Repairing(w: Pair, id: Id, content: seq<byte>) {
    && w.p.out.send.Some?
    && var s := w.p.out.send.value;
    && s.id == id && s.content == content && SndShape(s)
    && s.metaSent && !s.confirmed && !s.failed && s.nextChunk == s.total
    && (w.q.out.send.Some? ==> w.q.out.send.value.id != id)
    && id in w.q.inc.recv
    && var r := w.q.inc.recv[id];
    && Holds(r, content)
    && (r.hash.Some? ==> r.hash.value == w.q.sha(content))
    && (r.kind == File ==> w.q.inc.dir.Some?)
    && (forall i :: 0 <= i < |s.resend| ==> !r.flags[s.resend[i]])
    && |s.resend| <= MissingCount(r)
  }

  ghost predicate Ready(w: Pair, st: Settings) {
    && w.p.out.send.Some? && st.ep.now >= w.p.out.send.value.startAfter
    && st.ep.unreadable == {} && st.eq.writable
  }

  ghost function AfterMeta(s: Snd, st: Settings): (Snd, Channel) {
    MetaStep(s, Channel([], st.verdicts), st.ep.now)
  }

  /** The tick has a chunk or a Done to send, and the channel accepts it. */
  ghost predicate Progresses(s: Snd, st: Settings) {
    && Accepts(AfterMeta(s, st).1)
    && (s.resend != [] || !s.doneSent || Elapsed(st.ep.now, s.lastDone) >= RETRY_AFTER)
  }

  ghost function MissingIn(w: Pair, id: Id): nat
    requires id in w.q.inc.recv && RcvShape(w.q.inc.recv[id])
  {
    MissingCount(w.q.inc.recv[id])
  }

  /** Repeated meta data is ignored. */
  lemma MetaIgnored(w: Pair, m: Message, rest: seq<Message>, st: Settings)
    requires m.Meta? && m.id in w.q.inc.recv
    ensures Deliver(w, [m] + rest, st) == Deliver(w, rest, st)
  {
    assert ([m] + rest)[1..] == rest;
    assert [] + Deliver(w, rest, st).1 == Deliver(w, rest, st).1;
  }

  /** What a tick of a repairing sender sends: perhaps the meta data, then perhaps one message. */
  lemma TickOutput(w: Pair, id: Id, content: seq<byte>, st: Settings)
    requires Repairing(w, id, content) && Ready(w, st)
    ensures var s, (s1, c1) := w.p.out.send.value, AfterMeta(w.p.out.send.value, st);
            var (p', c') := AdvanceSend(w.p, Channel([], st.verdicts), st.ep);
            && (c1.sent == [] || c1.sent == [MetaOf(s)])
            && s1 == s.(lastMeta := s1.lastMeta)
            && p' == w.p.(out := w.p.out.(send := p'.out.send)) && p'.out.send.Some?
            && var s' := p'.out.send.value;
            if !Progresses(s, st) then s' == s1 && c'.sent == c1.sent
            else if s.resend != [] then
              var n := |s.resend| - 1;
              s' == s1.(resend := s.resend[..n])
              && c'.sent == c1.sent + [Chunk(id, s.resend[n], Slice(content, s.resend[n]))]
            else s' == s1.(doneSent := true, lastDone := st.ep.now) && c'.sent == c1.sent + [Done(id, true)]
  {
    hide AfterMeta, Progresses, SndTick, Holds;
    SenderOutput(w.p.out.send.value, st);
  }

  lemma SenderOutput(s: Snd, st: Settings)
    requires SndShape(s) && s.metaSent && !s.confirmed && !s.failed && s.nextChunk == s.total
    requires st.ep.now >= s.startAfter && st.ep.unreadable == {}
    ensures var (s1, c1) := AfterMeta(s, st);
            var (s', c') := SndTick(s, Channel([], st.verdicts), st.ep.now, st.ep.unreadable);
            && (c1.sent == [] || c1.sent == [MetaOf(s)])
            && s1 == s.(lastMeta := s1.lastMeta) && !s'.failed && !s'.confirmed
            && if !Progresses(s, st) then s' == s1 && c'.sent == c1.sent
               else if s.resend != [] then
                 var n := |s.resend| - 1;
                 s' == s1.(resend := s.resend[..n])
                 && c'.sent == c1.sent + [Chunk(s.id, s.resend[n], Slice(s.content, s.resend[n]))]
               else s' == s1.(doneSent := true, lastDone := st.ep.now) && c'.sent == c1.sent + [Done(s.id, true)]
  {
    hide Slice, ChunkCount;
  }

  /** Nothing is sent, or only repeated meta data: neither the buffer nor the stack changes. */
  lemma IdleRound(w: Pair, id: Id, content: seq<byte>, st: Settings)
    requires Repairing(w, id, content) && Ready(w, st) && !Progresses(w.p.out.send.value, st)
    ensures var (w', sent, replies) := Round(w, st);
            && Repairing(w', id, content) && w'.q == w.q && replies == []
            && w'.p.out.send.value.resend == w.p.out.send.value.resend
            && w'.p.out.send.value.startAfter == w.p.out.send.value.startAfter
            && w'.p.out.send.value.doneSent == w.p.out.send.value.doneSent
            && ChunksIn(sent) == 0
  {
    hide AdvanceSend, HandleData;
    TickOutput(w, id, content, st);
    var (p', c') := AdvanceSend(w.p, Channel([], st.verdicts), st.ep);
    if c'.sent != [] {
      MetaIgnored(Pair(p', w.q), MetaOf(w.p.out.send.value), [], st);
      assert c'.sent == [MetaOf(w.p.out.send.value)] + [];
    }
  }

  ghost function ChunksIn(sent: seq<Message>): nat {
    if sent == [] then 0 else ChunksIn(sent[..|sent| - 1]) + (if sent[|sent| - 1].Chunk? then 1 else 0)
  }

  ghost function NacksIn(replies: seq<Message>): nat {
    if replies == [] then 0 else NacksIn(replies[..|replies| - 1]) + (if replies[|replies| - 1].Nack? then 1 else 0)
  }

  /** Delivering the output of a progressing tick is delivering its last message. */
  lemma DeliverLast(w: Pair, meta: seq<Message>, m: Message, st: Settings)
    requires meta == [] || (|meta| == 1 && meta[0].Meta? && meta[0].id in w.q.inc.recv)
    ensures Deliver(w, meta + [m], st) == Deliver(w, [m], st)
    ensures ChunksIn(meta + [m]) == if m.Chunk? then 1 else 0
  {
    hide HandleData;
    if meta == [] {
      assert meta + [m] == [m];
    } else {
      assert meta == [meta[0]];
      MetaIgnored(w, meta[0], [m], st);
    }
    assert (meta + [m])[..|meta|] == meta;
  }

  /** Delivering one message and its reply. */
  lemma DeliverOne(w: Pair, m: Message, st: Settings)
    ensures var (q1, c) := HandleData(w.q, m, Channel([], [true]), st.eq);
            Deliver(w, [m], st) == (Pair(if c.sent == [] then w.p else HandleData(w.p, c.sent[0], Channel([], []),
                    st.ep).0, q1), c.sent)
  {
    hide HandleData;
    var (q1, c) := HandleData(w.q, m, Channel([], [true]), st.eq);
    var p1 := if c.sent == [] then w.p else HandleData(w.p, c.sent[0], Channel([], []), st.ep).0;
    assert Deliver(Pair(p1, q1), [m][1..], st) == (Pair(p1, q1), []);
    assert c.sent + [] == c.sent;
  }

  /** An accepted resend fills its gap. */
  lemma ResendRound(w: Pair, id: Id, content: seq<byte>, st: Settings)
    requires Repairing(w, id, content) && Ready(w, st)
    requires Progresses(w.p.out.send.value, st) && w.p.out.send.value.resend != []
    ensures var (w', sent, replies) := Round(w, st);
            && Repairing(w', id, content) && replies == [] && ChunksIn(sent) == 1
            && w'.q.inc.commits == w.q.inc.commits
            && MissingIn(w', id) == MissingIn(w, id) - 1
            && |w'.p.out.send.value.resend| == |w.p.out.send.value.resend| - 1
            && w'.p.out.send.value.startAfter == w.p.out.send.value.startAfter
            && w'.p.out.send.value.doneSent == w.p.out.send.value.doneSent
  {
    hide AdvanceSend, HandleData, AfterMeta, Progresses;
    TickOutput(w, id, content, st);
    var s, r := w.p.out.send.value, w.q.inc.recv[id];
    var (p', c') := AdvanceSend(w.p, Channel([], st.verdicts), st.ep);
    var n := |s.resend| - 1;
    var m := Chunk(id, s.resend[n], Slice(content, s.resend[n]));
    DeliverLast(Pair(p', w.q), AfterMeta(s, st).1.sent, m, st);
    DeliverOne(Pair(p', w.q), m, st);
    ChunkHandled(w.q, id, r, content, s.resend[n], st.eq);
    ChunkHolds(r, content, s.resend[n]);
    CountSet(r.flags, s.resend[n]);
  }

  lemma ChunkHandled(q: Peer, id: Id, r: Rcv, content: seq<byte>, index: nat, env: Env)
    requires id in q.inc.recv && q.inc.recv[id] == r && Holds(r, content)
    requires index < r.total && !r.flags[index]
    ensures var (q', c) := HandleData(q, Chunk(id, index, Slice(content, index)), Channel([], [true]), env);
            && q' == PutRcv(q, id, RcvChunk(r, index, Slice(content, index))) && c.sent == []
    ensures var r' := RcvChunk(r, index, Slice(content, index));
            r' == r.(buf := r'.buf, flags := r.flags[index := true], received := r.received + 1)
  {
    ChunkBounds(|content|, index);
  }

  /** A Done that finds gaps is answered by a Nack for the first 512 of them. */
  lemma NackRound(w: Pair, id: Id, content: seq<byte>, st: Settings)
    requires Repairing(w, id, content) && Ready(w, st)
    requires Progresses(w.p.out.send.value, st) && w.p.out.send.value.resend == [] && MissingIn(w, id) > 0
    ensures var (w', sent, replies) := Round(w, st);
            && Repairing(w', id, content) && ChunksIn(sent) == 0 && |replies| == 1 && replies[0].Nack?
            && w'.q.inc.commits == w.q.inc.commits
            && MissingIn(w', id) == MissingIn(w, id)
            && |w'.p.out.send.value.resend| == Min(MissingIn(w, id), NACK_BATCH)
            && w'.p.out.send.value.startAfter == w.p.out.send.value.startAfter
            && !w'.p.out.send.value.doneSent
  {
    hide AdvanceSend, HandleData, AfterMeta, Progresses;
    TickOutput(w, id, content, st);
    var s, r := w.p.out.send.value, w.q.inc.recv[id];
    var (p', c') := AdvanceSend(w.p, Channel([], st.verdicts), st.ep);
    BatchIsMissing(r);
    var batch := MissingOf(r.flags)[..Min(r.total - r.received, NACK_BATCH)];
    DeliverLast(Pair(p', w.q), AfterMeta(s, st).1.sent, Done(id, true), st);
    DeliverOne(Pair(p', w.q), Done(id, true), st);
    DoneNacked(w.q, id, r, st.eq);
    NackHandled(p', p'.out.send.value, batch, st.ep);
  }

  lemma DoneNacked(q: Peer, id: Id, r: Rcv, env: Env)
    requires id in q.inc.recv && q.inc.recv[id] == r && RcvShape(r) && r.received < r.total
    requires q.out.send.Some? ==> q.out.send.value.id != id
    requires |MissingOf(r.flags)| == r.total - r.received
    ensures var (q', c) := HandleData(q, Done(id, true), Channel([], [true]), env);
            && q' == PutRcv(DropRcv(q, id), id, r.(lastNack := Some(env.now)))
            && c.sent == [Nack(id, MissingOf(r.flags)[..Min(r.total - r.received, NACK_BATCH)])]
  {
  }

  lemma NackHandled(p: Peer, s: Snd, batch: seq<nat>, env: Env)
    requires p.out.send == Some(s) && !s.confirmed && s.resend == [] && NoDup(batch)
    requires forall i :: 0 <= i < |batch| ==> batch[i] < s.total
    ensures HandleData(p, Nack(s.id, batch), Channel([], []), env).0
         == p.(out := p.out.(send := Some(s.(resend := batch, doneSent := false))))
  {
    assert [] + batch == batch;
    AddMissingToEmpty([], batch, s.total);
  }

  /** A Done that finds every chunk in place commits the content and confirms the send. */
  lemma CommitRound(w: Pair, id: Id, content: seq<byte>, st: Settings)
    requires Repairing(w, id, content) && Ready(w, st)
    requires Progresses(w.p.out.send.value, st) && w.p.out.send.value.resend == [] && MissingIn(w, id) == 0
    ensures var (w', sent, replies) := Round(w, st);
            && w'.p.out.send.Some? && w'.p.out.send.value.confirmed
            && ChunksIn(sent) == 0 && replies == [Done(id, true)]
            && w'.q.inc.commits == w.q.inc.commits + [Committed(id, w.q.inc.recv[id].name, content)]
  {
    hide AdvanceSend, HandleData, AfterMeta, Progresses;
    TickOutput(w, id, content, st);
    var s, r := w.p.out.send.value, w.q.inc.recv[id];
    var (p', c') := AdvanceSend(w.p, Channel([], st.verdicts), st.ep);
    AllHeld(r, content);
    DeliverLast(Pair(p', w.q), AfterMeta(s, st).1.sent, Done(id, true), st);
    DeliverOne(Pair(p', w.q), Done(id, true), st);
    DoneCommits(w.q, id, r, st.eq);
    AckHandled(p', p'.out.send.value, st.ep);
  }

  lemma DoneCommits(q: Peer, id: Id, r: Rcv, env: Env)
    requires id in q.inc.recv && q.inc.recv[id] == r && RcvShape(r) && r.received == r.total
    requires q.out.send.Some? ==> q.out.send.value.id != id
    requires (r.hash.Some? ==> r.hash.value == q.sha(r.buf)) && (r.kind == File ==> q.inc.dir.Some?) && env.writable
    ensures var (q', c) := HandleData(q, Done(id, true), Channel([], [true]), env);
            q'.inc.commits == q.inc.commits + [Committed(id, r.name, r.buf)] && c.sent == [Done(id, true)]
  {
  }

  lemma AckHandled(p: Peer, s: Snd, env: Env)
    requires p.out.send == Some(s)
    ensures HandleData(p, Done(s.id, true), Channel([], []), env).0.out.send == Some(s.(confirmed := true))
  {
  }

  // ---- whole repairs ----

  /** The state after some rounds, and how many ticks got a chunk or a Done through, how many
      Nacks and how many chunks were sent. The repair is over once the send is confirmed. */
  datatype Tally = Tally(w: Pair, accepted: nat, nacks: nat, resends: nat)

  ghost predicate Over(w: Pair) {
    w.p.out.send.None? || w.p.out.send.value.confirmed || !SndShape(w.p.out.send.value)
  }

  ghost function Repair(w: Pair, rounds: seq<Settings>): Tally {
    if rounds == [] then Tally(w, 0, 0, 0)
    else
      var n := |rounds| - 1;
      var t := Repair(w, rounds[..n]);
      if Over(t.w) then t
      else
        var (w', sent, replies) := Round(t.w, rounds[n]);
        Tally(w', t.accepted + (if Progresses(t.w.p.out.send.value, rounds[n]) then 1 else 0),
              t.nacks + NacksIn(replies), t.resends + ChunksIn(sent))
  }

  /** Rounds after the start delay, with readable and writable disks and any verdicts. */
  ghost predicate Calm(w: Pair, rounds: seq<Settings>) {
    forall i :: 0 <= i < |rounds| ==> Ready(w, rounds[i])
  }

  ghost function NacksNeeded(m: nat): nat {
    CeilDiv(m, NACK_BATCH)
  }

  /** The books of a repair that began with `m` gaps and an empty resend stack. */
  ghost predicate OnTrack(w: Pair, t: Tally, id: Id, content: seq<byte>, m: nat)
    requires w.p.out.send.Some?
  {
    if t.w.p.out.send.Some? && t.w.p.out.send.value.confirmed then
      && t.resends == m && t.nacks == NacksNeeded(m) && t.accepted == m + NacksNeeded(m) + 1
      && exists name :: t.w.q.inc.commits == w.q.inc.commits + [Committed(id, name, content)]
    else
      && Repairing(t.w, id, content)
      && t.accepted == t.resends + t.nacks
      && t.resends + MissingIn(t.w, id) == m
      && t.nacks + NacksNeeded(MissingIn(t.w, id) - |t.w.p.out.send.value.resend|) == NacksNeeded(m)
      && t.w.q.inc.commits == w.q.inc.commits
      && t.w.p.out.send.value.startAfter == w.p.out.send.value.startAfter
  }

  lemma NacksArithmetic(m: nat)
    requires m > 0
    ensures NacksNeeded(m) == NacksNeeded(m - Min(m, NACK_BATCH)) + 1
  {
  }

  lemma OneRoundOnTrack(w: Pair, t: Tally, id: Id, content: seq<byte>, m: nat, st: Settings)
    requires w.p.out.send.Some? && OnTrack(w, t, id, content, m) && !Over(t.w) && Ready(t.w, st)
    ensures var (w', sent, replies) := Round(t.w, st);
            OnTrack(w, Tally(w', t.accepted + (if Progresses(t.w.p.out.send.value, st) then 1 else 0),
                             t.nacks + NacksIn(replies), t.resends + ChunksIn(sent)), id, content, m)
  {
    hide Round, Ready, Progresses;
    var s, r := t.w.p.out.send.value, t.w.q.inc.recv[id];
    if !Progresses(s, st) {
      IdleRound(t.w, id, content, st);
    } else if s.resend != [] {
      ResendRound(t.w, id, content, st);
    } else if MissingIn(t.w, id) > 0 {
      NackRound(t.w, id, content, st);
      NacksArithmetic(MissingIn(t.w, id));
      assert Round(t.w, st).2[..0] == [];
    } else {
      CommitRound(t.w, id, content, st);
      assert Round(t.w, st).2[..0] == [];
    }
  }

  /** Back-pressure never loses a chunk: whatever the channel refuses, the books balance. */
  lemma {:induction false} RepairOnTrack(w: Pair, rounds: seq<Settings>, id: Id, content: seq<byte>)
    requires Repairing(w, id, content) && w.p.out.send.value.resend == [] && Calm(w, rounds)
    ensures OnTrack(w, Repair(w, rounds), id, content, MissingIn(w, id))
    decreases |rounds|
  {
    hide Round, Ready;
    if rounds != [] {
      var n := |rounds| - 1;
      RepairOnTrack(w, rounds[..n], id, content);
      var t := Repair(w, rounds[..n]);
      if !Over(t.w) {
        assert Ready(w, rounds[n]);
        ReadySame(w, t.w, rounds[n]);
        OneRoundOnTrack(w, t, id, content, MissingIn(w, id), rounds[n]);
      }
    }
  }

  lemma ReadySame(w: Pair, w': Pair, st: Settings)
    requires Ready(w, st) && w'.p.out.send.Some? && w'.p.out.send.value.startAfter == w.p.out.send.value.startAfter
    ensures Ready(w', st)
  {
  }

  /** With `m` gaps, the content is committed exactly when m + ceil(m/512) + 1 ticks have got a
      message through; it then took ceil(m/512) Nacks and m resends. */
  lemma RepairCommits(w: Pair, rounds: seq<Settings>, id: Id, content: seq<byte>)
    requires Repairing(w, id, content) && w.p.out.send.value.resend == [] && Calm(w, rounds)
    ensures var t, m := Repair(w, rounds), MissingIn(w, id);
            && t.w.p.out.send.Some?
            && (t.w.p.out.send.value.confirmed <==> t.accepted == m + NacksNeeded(m) + 1)
            && t.accepted <= m + NacksNeeded(m) + 1
            && (t.w.p.out.send.value.confirmed ==>
                  && t.nacks == NacksNeeded(m) && t.resends == m
                  && exists name :: t.w.q.inc.commits == w.q.inc.commits + [Committed(id, name, content)])
  {
    hide Round, Repair;
    RepairOnTrack(w, rounds, id, content);
  }

  // ---- termination ----

  /** The channel accepts what a tick sends, repeated meta data included. */
  predicate Accepting(st: Settings) {
    |st.verdicts| >= 2 && st.verdicts[0] && st.verdicts[1]
  }

  /** Every round's channel accepts, and the first round's Done is due. */
  ghost predicate Driven(w: Pair, rounds: seq<Settings>)
    requires w.p.out.send.Some?
  {
    && (forall i :: 0 <= i < |rounds| ==> Accepting(rounds[i]))
    && (rounds != [] ==>
          !w.p.out.send.value.doneSent || Elapsed(rounds[0].ep.now, w.p.out.send.value.lastDone) >= RETRY_AFTER)
  }

  lemma AcceptingProgresses(s: Snd, st: Settings)
    requires Accepting(st) && (s.resend != [] || !s.doneSent || Elapsed(st.ep.now, s.lastDone) >= RETRY_AFTER)
    ensures Progresses(s, st)
  {
  }

  /** A round of a driven repair gets a message through and leaves nothing to wait for. */
  lemma DrivenRound(w: Pair, id: Id, content: seq<byte>, st: Settings)
    requires Repairing(w, id, content) && Ready(w, st) && Accepting(st)
    requires var s := w.p.out.send.value;
             !s.doneSent || (s.resend == [] && Elapsed(st.ep.now, s.lastDone) >= RETRY_AFTER)
    ensures Progresses(w.p.out.send.value, st)
    ensures var p := Round(w, st).0.p;
            p.out.send.Some? && (!p.out.send.value.confirmed ==> !p.out.send.value.doneSent)
  {
    hide Round, Progresses, Ready, Accepting;
    var s := w.p.out.send.value;
    AcceptingProgresses(s, st);
    if s.resend != [] {
      ResendRound(w, id, content, st);
    } else if MissingIn(w, id) > 0 {
      NackRound(w, id, content, st);
    } else {
      CommitRound(w, id, content, st);
    }
  }

  /** Until it is over, every round of a driven repair gets a message through. */
  lemma {:induction false} DrivenOnTrack(w: Pair, rounds: seq<Settings>, id: Id, content: seq<byte>)
    requires Repairing(w, id, content) && w.p.out.send.value.resend == [] && Calm(w, rounds) && Driven(w, rounds)
    ensures var t := Repair(w, rounds);
            && t.w.p.out.send.Some?
            && (!t.w.p.out.send.value.confirmed ==>
                  t.accepted == |rounds| && (rounds != [] ==> !t.w.p.out.send.value.doneSent))
    decreases |rounds|
  {
    hide Round, Ready, Accepting, Progresses;
    RepairOnTrack(w, rounds, id, content);
    if rounds != [] {
      var n := |rounds| - 1;
      DrivenOnTrack(w, rounds[..n], id, content);
      RepairOnTrack(w, rounds[..n], id, content);
      var t := Repair(w, rounds[..n]);
      if !Over(t.w) {
        DrivenStep(w, rounds, id, content, t);
      }
    }
  }

  lemma DrivenStep(w: Pair, rounds: seq<Settings>, id: Id, content: seq<byte>, t: Tally)
    requires Repairing(w, id, content) && w.p.out.send.value.resend == [] && Calm(w, rounds) && Driven(w, rounds)
    requires rounds != [] && t == Repair(w, rounds[..|rounds| - 1]) && !Over(t.w)
    requires OnTrack(w, t, id, content, MissingIn(w, id))
    requires |rounds| > 1 ==> !t.w.p.out.send.value.doneSent
    ensures Progresses(t.w.p.out.send.value, rounds[|rounds| - 1])
    ensures var p := Round(t.w, rounds[|rounds| - 1]).0.p;
            p.out.send.Some? && (!p.out.send.value.confirmed ==> !p.out.send.value.doneSent)
  {
    hide Round, Ready, Progresses, Accepting;
    var n := |rounds| - 1;
    assert Ready(w, rounds[n]) && Accepting(rounds[n]);
    ReadySame(w, t.w, rounds[n]);
    DrivenRound(t.w, id, content, rounds[n]);
  }

  /** Repair terminates: when nothing is refused, with `m` gaps the content is committed after
      exactly m + ceil(m/512) + 1 ticks. */
  lemma RepairTerminates(w: Pair, rounds: seq<Settings>, id: Id, content: seq<byte>)
    requires Repairing(w, id, content) && w.p.out.send.value.resend == [] && Calm(w, rounds) && Driven(w, rounds)
    ensures var t, m := Repair(w, rounds), MissingIn(w, id);
            && t.w.p.out.send.Some?
            && (t.w.p.out.send.value.confirmed <==> |rounds| >= m + NacksNeeded(m) + 1)
            && (t.w.p.out.send.value.confirmed ==>
                  exists name :: t.w.q.inc.commits == w.q.inc.commits + [Committed(id, name, content)])
  {
    hide Round, Repair, Repairing, Driven;
    RepairCommits(w, rounds, id, content);
    DrivenOnTrack(w, rounds, id, content);
    AcceptedAtMost(w, rounds);
  }

  lemma {:induction false} AcceptedAtMost(w: Pair, rounds: seq<Settings>)
    ensures Repair(w, rounds).accepted <= |rounds|
    decreases |rounds|
  {
    hide Round, Progresses;
    if rounds != [] {
      AcceptedAtMost(w, rounds[..|rounds| - 1]);
    }
  }
}
