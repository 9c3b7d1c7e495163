/** TURN from a new transport: which calls bind a channel, and the round trip of a list of sends that
    begins with nothing bound. */
module TurnRuns {
  import opened Bytes
  import opened Turn

  /** There are 0x4000 channel numbers. */
  const NUMBERS: nat := 0x4000

  /** Exactly when `ensure_peer` reports a channel, which one, and what it leaves in the table. */
  lemma BindsIff(t: Table, buf: seq<byte>, peer: SocketAddr, permission: Transaction, bind: Transaction)
    requires TableInv(t)
    ensures var chan := EnsurePeer(t, buf, peer, permission, bind).2;
            chan.Some? <==> peer in t.channels || (permission.ok && bind.ok && |t.tried| < NUMBERS)
    ensures var (t', buf', chan) := EnsurePeer(t, buf, peer, permission, bind);
            if peer in t.channels then t' == t && buf' == buf && chan == Some(t.channels[peer])
            else
              && (chan.Some? ==>
                    var n := 0x4000 + |t.tried|;
                    chan == Some(n) && t'.channels == t.channels[peer := n] && t'.reverse == t.reverse[n := peer])
              && (chan.None? ==> t'.channels == t.channels && t'.reverse == t.reverse)
              && |t'.tried| == |t.tried| + (if permission.ok && |t.tried| < NUMBERS then 1 else 0)
              && buf' == if permission.ok && |t.tried| < NUMBERS then bind.leftover else permission.leftover
  {
    hide Inverse;
  }

  // ---- a list of sends ----

  const DONE: Transaction := Transaction(true, [])

  /** `send_to` for each delivery in turn, every transaction succeeding: the table afterwards and what
      was written. */
  function SendAll(t: Table, sends: seq<Delivery>): (Table, seq<byte>)
    decreases |sends|
  {
    if sends == [] then (t, [])
    else
      var (t1, _, chan) := EnsurePeer(t, [], sends[0].peer, DONE, DONE);
      var (t', more) := SendAll(t1, sends[1..]);
      (t', (if chan.Some? then Frame(ChannelData(chan.value, sends[0].payload)) else []) + more)
  }

  ghost function Peers(sends: seq<Delivery>): set<SocketAddr> {
    set d | d in sends :: d.peer
  }

  lemma PeersCons(sends: seq<Delivery>)
    requires sends != []
    ensures Peers(sends) == {sends[0].peer} + Peers(sends[1..])
  {
    assert sends == [sends[0]] + sends[1..];
    forall p | p in Peers(sends[1..]) ensures p in Peers(sends) {
      var d :| d in sends[1..] && d.peer == p;
      assert d in sends;
    }
    assert sends[0] in sends;
  }

  /** No more channels than numbers were used. */
  ghost predicate Counted(t: Table) {
    TableInv(t) && |t.channels.Keys| <= |t.tried|
  }

  /** Bindings stay. */
  ghost predicate Extends(t: Table, t': Table) {
    forall p :: p in t.channels ==> p in t'.channels && t'.channels[p] == t.channels[p]
  }

  lemma TriedAtMost(t: Table)
    requires TableInv(t)
    ensures |t.tried| <= NUMBERS
  {
  }

  /** One call with succeeding transactions. */
  ghost predicate Called(t: Table, peer: SocketAddr, t1: Table, chan: Option<u16>) {
    && Counted(t1) && Extends(t, t1) && |t.tried| <= |t1.tried|
    && (chan.Some? <==> peer in t1.channels) && (chan.Some? ==> chan.value == t1.channels[peer])
    && if peer in t.channels || |t.tried| == NUMBERS then t1.channels == t.channels && |t1.tried| == |t.tried|
       else t1.channels.Keys == t.channels.Keys + {peer} && |t1.tried| == |t.tried| + 1
  }

  lemma OneCall(t: Table, peer: SocketAddr)
    requires Counted(t)
    ensures Called(t, peer, EnsurePeer(t, [], peer, DONE, DONE).0, EnsurePeer(t, [], peer, DONE, DONE).2)
  {
    TriedAtMost(t);
    BindsIff(t, [], peer, DONE, DONE);
    EnsurePeerKeeps(t, [], peer, DONE, DONE);
    hide EnsurePeer, TableInv;
    var (t1, buf, chan) := EnsurePeer(t, [], peer, DONE, DONE);
    if peer in t.channels {
      assert t1 == t;
    } else if |t.tried| < NUMBERS {
      NewCall(t, peer, t1, chan);
    } else {
      assert chan.None? && t1.channels == t.channels;
    }
  }

  lemma NewCall(t: Table, peer: SocketAddr, t1: Table, chan: Option<u16>)
    requires Counted(t) && TableInv(t1) && peer !in t.channels && |t.tried| < NUMBERS
    requires chan == Some(0x4000 + |t.tried|) && t1.channels == t.channels[peer := chan.value]
    requires |t1.tried| == |t.tried| + 1
    ensures Called(t, peer, t1, chan)
  {
    hide TableInv;
    KeysWith(t.channels, peer, chan.value);
  }

  lemma KeysWith(channels: map<SocketAddr, u16>, peer: SocketAddr, n: u16)
    requires peer !in channels
    ensures channels[peer := n].Keys == channels.Keys + {peer} && |channels[peer := n].Keys| == |channels.Keys| + 1
  {
    assert channels[peer := n].Keys == channels.Keys + {peer};
  }

  lemma SendHead(t: Table, sends: seq<Delivery>)
    requires sends != [] && Counted(t)
    ensures var t1 := EnsurePeer(t, [], sends[0].peer, DONE, DONE).0;
            var (t', more) := SendAll(t1, sends[1..]);
            var head := if sends[0].peer in t1.channels
                        then Frame(ChannelData(t1.channels[sends[0].peer], sends[0].payload)) else [];
            SendAll(t, sends) == (t', head + more)
  {
    OneCall(t, sends[0].peer);
    hide Counted, EnsurePeer, Frame, ChannelData;
  }

  lemma {:induction false} AllKeeps(t: Table, sends: seq<Delivery>)
    requires Counted(t)
    ensures var t' := SendAll(t, sends).0;
            Counted(t') && Extends(t, t') && (|t.tried| == NUMBERS ==> t'.channels == t.channels)
    decreases |sends|
  {
    hide Counted, EnsurePeer, Frame, ChannelData, SendAll;
    if sends == [] {
      SendNone(t);
    } else {
      var t1 := EnsurePeer(t, [], sends[0].peer, DONE, DONE).0;
      OneCall(t, sends[0].peer);
      SendHead(t, sends);
      CountedAtMost(t1);
      AllKeeps(t1, sends[1..]);
    }
  }

  lemma SendNone(t: Table)
    ensures SendAll(t, []) == (t, [])
  {
  }

  lemma CountedAtMost(t: Table)
    requires Counted(t)
    ensures |t.tried| <= NUMBERS
  {
    TriedAtMost(t);
  }

  /** While there are numbers for the new peers every peer gets bound. */
  lemma {:induction false} AllBound(t: Table, sends: seq<Delivery>)
    requires Counted(t) && |t.tried| + |Peers(sends) - t.channels.Keys| <= NUMBERS
    ensures Bound(SendAll(t, sends).0, sends)
    decreases |sends|
  {
    hide Counted, EnsurePeer, Frame, ChannelData, SendAll, Peers;
    if sends != [] {
      var peer, t1 := sends[0].peer, EnsurePeer(t, [], sends[0].peer, DONE, DONE).0;
      OneCall(t, peer);
      SendHead(t, sends);
      PeersCons(sends);
      FewerNew(t, t1, sends);
      AllBound(t1, sends[1..]);
      AllKeeps(t1, sends[1..]);
      assert peer in t1.channels;
      BoundCons(SendAll(t, sends).0, sends);
    }
  }

  lemma FewerNew(t: Table, t1: Table, sends: seq<Delivery>)
    requires sends != [] && |t.tried| + |Peers(sends) - t.channels.Keys| <= NUMBERS
    requires Peers(sends) == {sends[0].peer} + Peers(sends[1..])
    requires if sends[0].peer in t.channels || |t.tried| == NUMBERS
             then t1.channels == t.channels && |t1.tried| == |t.tried|
             else t1.channels.Keys == t.channels.Keys + {sends[0].peer} && |t1.tried| == |t.tried| + 1
    ensures |t1.tried| + |Peers(sends[1..]) - t1.channels.Keys| <= NUMBERS && sends[0].peer in t1.channels
  {
    hide Peers;
    var unbound, later := Peers(sends) - t.channels.Keys, Peers(sends[1..]) - t1.channels.Keys;
    if sends[0].peer in t.channels {
      assert later == unbound;
    } else {
      OneFewer(unbound, sends[0].peer);
      assert |t.tried| < NUMBERS;
      assert later == unbound - {sends[0].peer};
    }
  }

  lemma OneFewer(s: set<SocketAddr>, peer: SocketAddr)
    requires peer in s
    ensures |s| >= 1 && |s - {peer}| == |s| - 1
  {
  }

  lemma BoundCons(t: Table, sends: seq<Delivery>)
    requires sends != []
    ensures Bound(t, sends) <==> sends[0].peer in t.channels && Bound(t, sends[1..])
  {
    if sends[0].peer in t.channels && Bound(t, sends[1..]) {
      forall i | 0 <= i < |sends| ensures sends[i].peer in t.channels {
        assert i > 0 ==> sends[i] == sends[1..][i - 1];
      }
    }
  }

  /** What is written: the stream of the packets when every peer ends up bound, and fewer bytes than
      the sends weigh otherwise. */
  lemma {:induction false} AllWritten(t: Table, sends: seq<Delivery>)
    requires Counted(t)
    ensures var (t', out) := SendAll(t, sends);
            if Bound(t', sends) then out == Stream(Sent(t', sends)) else |out| < Weight(sends)
    decreases |sends|
  {
    hide Counted, EnsurePeer, Frame, ChannelData, SendAll, Sent, Stream, Bound;
    if sends == [] {
      SendNone(t);
      NoneSent(t);
      BoundNone(t);
    } else {
      var d, t1, t' := sends[0], EnsurePeer(t, [], sends[0].peer, DONE, DONE).0, SendAll(t, sends).0;
      OneCall(t, d.peer);
      SendHead(t, sends);
      AllKeeps(t1, sends[1..]);
      AllWritten(t1, sends[1..]);
      BoundCons(t', sends);
      if d.peer in t1.channels {
        Weighs(t1.channels[d.peer], d);
      } else {
        assert d.peer !in t'.channels;
      }
      if Bound(t', sends) {
        StreamOfSends(t', sends);
      } else if Bound(t', sends[1..]) {
        StreamWeight(t', sends[1..]);
      }
    }
  }

  lemma BoundNone(t: Table)
    ensures Bound(t, [])
  {
  }

  lemma Weighs(chan: u16, d: Delivery)
    ensures |Frame(ChannelData(chan, d.payload))| == |d.payload| + 6
  {
  }

  /** From a new transport: a list of sends, in which every transaction succeeds, comes back, however
      the stream is cut, if and only if every payload is carried and there are no more peers than
      channel numbers. */
  lemma FromEmptyTable(sends: seq<Delivery>, input: seq<Read>, capacity: nat, indication: seq<byte> -> Option<Delivery>)
    requires Flows(input) && Parses(indication)
    requires BytesOf(input) == SendAll(EmptyTable, sends).1
    ensures DeliverAll([], input, capacity, SendAll(EmptyTable, sends).0.reverse, indication) == sends
            <==> AllCarried(sends, capacity) && |Peers(sends)| <= 0x4000
  {
    var t := SendAll(EmptyTable, sends).0;
    EmptyCounted();
    AllKeeps(EmptyTable, sends);
    AllWritten(EmptyTable, sends);
    if |Peers(sends)| <= NUMBERS {
      NewPeers(sends);
      AllBound(EmptyTable, sends);
    }
    hide SendAll, Flows, Parses, AllCarried, DeliverAll, Sent, Stream, Bound, Peers, TableInv;
    if Bound(t, sends) {
      FewPeers(t, sends);
      RoundTripIff(t, sends, input, capacity, indication);
    } else {
      DeliveriesFit([], input, capacity, t.reverse, indication);
    }
  }

  lemma EmptyCounted()
    ensures Counted(EmptyTable) && EmptyTable.channels.Keys == {} && EmptyTable.tried == []
  {
  }

  lemma NewPeers(sends: seq<Delivery>)
    ensures Peers(sends) - EmptyTable.channels.Keys == Peers(sends)
  {
    hide Peers;
  }

  lemma FewPeers(t: Table, sends: seq<Delivery>)
    requires Counted(t) && Bound(t, sends)
    ensures |Peers(sends)| <= NUMBERS
  {
    TriedAtMost(t);
    SubsetSize(Peers(sends), t.channels.Keys);
  }
}
