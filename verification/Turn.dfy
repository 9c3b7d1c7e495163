/** TURN over TCP: two-byte length framing (section 2 of RFC 4571), ChannelData messages and the
    channel table (section 11 of RFC 5766). */
module Turn {
  import opened Bytes

  const CHANNEL_BASE: u16 := 0x4000
  const CHANNEL_MAX: u16 := 0x7fff
  const MIN_FRAME: nat := 20

  datatype SocketAddr = SocketAddr(ip: nat, port: u16)

  // ---- wire format ----

  /** Rust's `as u16`. */
  function Wrap16(n: nat): u16 {
    n % 0x1_0000
  }

  function Be16(n: u16): (s: seq<byte>)
    ensures |s| == 2
  {
    [n / 256, n % 256]
  }

  function FromBe16(hi: byte, lo: byte): u16 {
    hi * 256 + lo
  }

  function Frame(packet: seq<byte>): seq<byte> {
    Be16(Wrap16(|packet|)) + packet
  }

  function ChannelData(chan: u16, payload: seq<byte>): seq<byte> {
    Be16(chan) + Be16(Wrap16(|payload|)) + payload
  }

  predicate IsChannelData(packet: seq<byte>) {
    |packet| >= 4 && 0x40 <= packet[0] < 0x80
  }

  // ---- receiving ----

  /** One result of reading the stream; `Received([])` is the end of the stream. */
  datatype Read = Received(data: seq<byte>) | WouldBlock | Failed

  datatype Got<T> = Item(value: T) | Nothing | Broken

  /** `take_tcp_frame`: the first complete frame and what stays in the buffer. A frame shorter
      than any TURN message throws the buffer away. */
  function TakeFrame(buf: seq<byte>): (Option<seq<byte>>, seq<byte>) {
    if |buf| < 2 then (None, buf)
    else
      var len := FromBe16(buf[0], buf[1]);
      if len < MIN_FRAME then (None, [])
      else if |buf| < 2 + len then (None, buf)
      else (Some(buf[2..2 + len]), buf[2 + len..])
  }

  /** `recv_tcp_frame`: the frame, the new buffer and the remaining input. */
  function RecvFrame(buf: seq<byte>, input: seq<Read>): (Got<seq<byte>>, seq<byte>, seq<Read>) {
    var (first, rest) := TakeFrame(buf);
    if first.Some? then (Item(first.value), rest, input)
    else if input == [] || input[0].WouldBlock? then (Nothing, rest, if input == [] then [] else input[1..])
    else if input[0].Failed? || input[0].data == [] then (Broken, rest, input[1..])
    else
      var (second, rest2) := TakeFrame(rest + input[0].data);
      (if second.Some? then Item(second.value) else Nothing, rest2, input[1..])
  }

  datatype Delivery = Delivery(peer: SocketAddr, payload: seq<byte>)

  /** What a packet delivers to a caller whose buffer holds `capacity` bytes. Data indications
      are parsed by `indication`. */
  function Deliver(packet: seq<byte>, capacity: nat, reverse: map<u16, SocketAddr>,
                   indication: seq<byte> -> Option<Delivery>): Option<Delivery>
  {
    var packet := packet[..Min(|packet|, capacity)];
    if IsChannelData(packet) then
      var chan := FromBe16(packet[0], packet[1]);
      var len := FromBe16(packet[2], packet[3]);
      if chan in reverse then Some(Delivery(reverse[chan], packet[4..4 + Min(len, |packet| - 4)])) else None
    else if |packet| < MIN_FRAME then None
    else
      match indication(packet)
      case None => None
      case Some(d) => Some(d.(payload := d.payload[..Min(|d.payload|, capacity)]))
  }

  /** What is delivered, byte by byte: ChannelData packets begin with 0x40 to 0x7f and carry a channel
      number and a length, high byte first; of other packets those of 20 bytes or more are parsed. */
  lemma DeliverIs(packet: seq<byte>, capacity: nat, reverse: map<u16, SocketAddr>,
                  indication: seq<byte> -> Option<Delivery>)
    requires |packet| <= capacity
    ensures var d := Deliver(packet, capacity, reverse, indication);
            if |packet| >= 4 && 0x40 <= packet[0] <= 0x7f then
              var chan := 256 * (packet[0] as int) + packet[1] as int;
              var len := 256 * (packet[2] as int) + packet[3] as int;
              if chan !in reverse then d == None
              else d == Some(Delivery(reverse[chan], packet[4..if 4 + len <= |packet| then 4 + len else |packet|]))
            else if |packet| < 20 || indication(packet).None? then d == None
            else
              var whole := indication(packet).value;
              d.Some? && d.value.peer == whole.peer && d.value.payload <= whole.payload
              && |d.value.payload| == Min(|whole.payload|, capacity)
  {
    assert packet[..|packet|] == packet;
  }

  /** Everything that repeated calls of `recv_packet` deliver while there is input. */
  function DeliverAll(buf: seq<byte>, input: seq<Read>, capacity: nat, reverse: map<u16, SocketAddr>,
                      indication: seq<byte> -> Option<Delivery>): seq<Delivery>
    decreases |input|, |buf|
  {
    var (got, rest, input') := RecvFrame(buf, input);
    match got
    case Broken => []
    case Nothing => if input == [] then [] else DeliverAll(rest, input', capacity, reverse, indication)
    case Item(packet) =>
      var d := Deliver(packet, capacity, reverse, indication);
      (if d.Some? then [d.value] else []) + DeliverAll(rest, input', capacity, reverse, indication)
  }

  // ---- the byte stream of a list of packets ----

  function Stream(packets: seq<seq<byte>>): seq<byte> {
    if packets == [] then [] else Frame(packets[0]) + Stream(packets[1..])
  }

  predicate Fits(packet: seq<byte>) {
    MIN_FRAME <= |packet| < 0x1_0000
  }

  predicate AllFit(packets: seq<seq<byte>>) {
    forall i :: 0 <= i < |packets| ==> Fits(packets[i])
  }

  /** The input is bytes and pauses; it neither ends nor fails. */
  predicate Flows(input: seq<Read>) {
    forall i :: 0 <= i < |input| ==> !input[i].Failed? && (input[i].Received? ==> input[i].data != [])
  }

  function BytesOf(input: seq<Read>): seq<byte> {
    if input == [] then [] else (if input[0].Received? then input[0].data else []) + BytesOf(input[1..])
  }

  lemma TakeFromStream(buf: seq<byte>, more: seq<byte>, packets: seq<seq<byte>>)
    requires AllFit(packets) && buf + more == Stream(packets)
    ensures TakeFrame(buf).0.None? ==> TakeFrame(buf).1 == buf
    ensures TakeFrame(buf).0.Some? ==>
              packets != [] && TakeFrame(buf).0.value == packets[0] && TakeFrame(buf).1 + more == Stream(packets[1..])
    ensures more == [] && packets != [] ==> TakeFrame(buf).0.Some?
  {
    if packets != [] && |buf| >= 2 {
      assert Fits(packets[0]);
      LengthFirst(buf, more, packets[0], Stream(packets[1..]));
      hide FromBe16, Frame, AllFit;
      if |buf| >= 2 + |packets[0]| {
        FrameFirst(buf, more, packets[0], Stream(packets[1..]));
      }
    }
  }

  lemma LengthFirst(buf: seq<byte>, more: seq<byte>, p: seq<byte>, rest: seq<byte>)
    requires Fits(p) && |buf| >= 2 && buf + more == Frame(p) + rest
    ensures FromBe16(buf[0], buf[1]) == |p| && |buf| + |more| == 2 + |p| + |rest|
  {
    assert (buf + more)[0] == buf[0] && (buf + more)[1] == buf[1];
  }

  lemma FrameFirst(buf: seq<byte>, more: seq<byte>, p: seq<byte>, rest: seq<byte>)
    requires |buf| >= 2 + |p| && buf + more == Frame(p) + rest
    ensures buf[2..2 + |p|] == p && buf[2 + |p|..] + more == rest
  {
    assert buf[2..2 + |p|] == (buf + more)[2..2 + |p|] == p;
    assert buf[2 + |p|..] + more == (buf + more)[2 + |p|..] == rest;
  }

  lemma TakeUses(buf: seq<byte>)
    ensures var (frame, rest) := TakeFrame(buf);
            && (frame.Some? ==> |frame.value| + 2 + |rest| == |buf|)
            && (frame.None? ==> |rest| <= |buf|)
  {
    hide FromBe16;
  }

  /** What cannot yield a frame can be replaced by what is left of it. */
  lemma Settled(buf: seq<byte>, input: seq<Read>, capacity: nat, reverse: map<u16, SocketAddr>,
                indication: seq<byte> -> Option<Delivery>)
    requires TakeFrame(buf).0.None?
    ensures DeliverAll(buf, input, capacity, reverse, indication)
         == DeliverAll(TakeFrame(buf).1, input, capacity, reverse, indication)
  {
    TakeTwice(buf);
    hide TakeFrame, Deliver;
  }

  lemma TakeTwice(buf: seq<byte>)
    requires TakeFrame(buf).0.None?
    ensures TakeFrame(TakeFrame(buf).1) == (None, TakeFrame(buf).1)
  {
    hide FromBe16;
  }

  /** A frame shorter than any TURN message costs what is in the buffer, and nothing that comes later. */
  lemma Recovers(buf: seq<byte>, input: seq<Read>, capacity: nat, reverse: map<u16, SocketAddr>,
                 indication: seq<byte> -> Option<Delivery>)
    requires |buf| >= 2 && 256 * (buf[0] as int) + buf[1] as int < 20
    ensures DeliverAll(buf, input, capacity, reverse, indication)
         == DeliverAll([], input, capacity, reverse, indication)
  {
    Settled(buf, input, capacity, reverse, indication);
  }

  /** Without a whole frame in the buffer the end of the stream, like a failure, is reported. */
  lemma EndIsReported(buf: seq<byte>, input: seq<Read>)
    requires |buf| >= 2 ==>
               var len := 256 * (buf[0] as int) + buf[1] as int;
               len >= 20 && |buf| < 2 + len
    requires input != [] && (input[0] == Received([]) || input[0].Failed?)
    ensures RecvFrame(buf, input) == (Broken, buf, input[1..])
  {
  }

  /** Reading on is appending. */
  lemma ReadOn(buf: seq<byte>, input: seq<Read>, capacity: nat, reverse: map<u16, SocketAddr>,
               indication: seq<byte> -> Option<Delivery>)
    requires TakeFrame(buf) == (None, buf) && input != [] && Flows(input)
    ensures var data := if input[0].Received? then input[0].data else [];
            (DeliverAll(buf, input, capacity, reverse, indication)
             == DeliverAll(buf + data, input[1..], capacity, reverse, indication))
  {
    hide TakeFrame, Deliver;
    if input[0].WouldBlock? {
      assert buf + [] == buf;
    } else {
      var grown := buf + input[0].data;
      if TakeFrame(grown).0.None? {
        Settled(grown, input[1..], capacity, reverse, indication);
      }
    }
  }

  lemma ItemFirst(buf: seq<byte>, input: seq<Read>, capacity: nat, reverse: map<u16, SocketAddr>,
                  indication: seq<byte> -> Option<Delivery>)
    requires TakeFrame(buf).0.Some?
    ensures |TakeFrame(buf).1| < |buf|
    ensures var (frame, rest) := TakeFrame(buf);
            var d := Deliver(frame.value, capacity, reverse, indication);
            var more := DeliverAll(rest, input, capacity, reverse, indication);
            DeliverAll(buf, input, capacity, reverse, indication) == if d.Some? then [d.value] + more else more
  {
    TakeUses(buf);
    hide TakeFrame, Deliver;
    var more := DeliverAll(TakeFrame(buf).1, input, capacity, reverse, indication);
    assert [] + more == more;
  }

  function DeliverEach(packets: seq<seq<byte>>, capacity: nat, reverse: map<u16, SocketAddr>,
                       indication: seq<byte> -> Option<Delivery>): seq<Delivery>
  {
    if packets == [] then []
    else
      var d := Deliver(packets[0], capacity, reverse, indication);
      (if d.Some? then [d.value] else []) + DeliverEach(packets[1..], capacity, reverse, indication)
  }

  lemma Shifted(buf: seq<byte>, input: seq<Read>)
    requires input != []
    ensures (buf + if input[0].Received? then input[0].data else []) + BytesOf(input[1..]) == buf + BytesOf(input)
  {
    Regroup(buf, if input[0].Received? then input[0].data else [], BytesOf(input[1..]));
  }

  lemma EachNone(capacity: nat, reverse: map<u16, SocketAddr>, indication: seq<byte> -> Option<Delivery>)
    ensures DeliverEach([], capacity, reverse, indication) == []
  {
  }

  lemma EachHead(packets: seq<seq<byte>>, capacity: nat, reverse: map<u16, SocketAddr>,
                 indication: seq<byte> -> Option<Delivery>)
    requires packets != []
    ensures var d := Deliver(packets[0], capacity, reverse, indication);
            var more := DeliverEach(packets[1..], capacity, reverse, indication);
            DeliverEach(packets, capacity, reverse, indication) == if d.Some? then [d.value] + more else more
  {
    hide Deliver;
    var more := DeliverEach(packets[1..], capacity, reverse, indication);
    assert [] + more == more;
  }

  /** However a stream of fitting packets is cut into input, what is delivered is what delivering
      the packets one by one gives. */
  lemma {:induction false} FragmentationIrrelevant(
    buf: seq<byte>, input: seq<Read>, packets: seq<seq<byte>>, capacity: nat,
    reverse: map<u16, SocketAddr>, indication: seq<byte> -> Option<Delivery>)
    requires AllFit(packets) && Flows(input) && buf + BytesOf(input) == Stream(packets)
    ensures DeliverAll(buf, input, capacity, reverse, indication) == DeliverEach(packets, capacity, reverse, indication)
    decreases |input|, |buf|
  {
    hide TakeFrame, DeliverAll, DeliverEach, Deliver, Stream, Fits;
    TakeFromStream(buf, BytesOf(input), packets);
    if TakeFrame(buf).0.Some? {
      ItemFirst(buf, input, capacity, reverse, indication);
      FragmentationIrrelevant(TakeFrame(buf).1, input, packets[1..], capacity, reverse, indication);
      EachHead(packets, capacity, reverse, indication);
    } else if input == [] {
      NothingTaken(buf, capacity, reverse, indication);
      EachNone(capacity, reverse, indication);
    } else {
      ReadOn(buf, input, capacity, reverse, indication);
      var data := if input[0].Received? then input[0].data else [];
      Shifted(buf, input);
      FragmentationIrrelevant(buf + data, input[1..], packets, capacity, reverse, indication);
    }
  }

  lemma NothingTaken(buf: seq<byte>, capacity: nat, reverse: map<u16, SocketAddr>,
                     indication: seq<byte> -> Option<Delivery>)
    requires TakeFrame(buf).0.None?
    ensures DeliverAll(buf, [], capacity, reverse, indication) == []
  {
  }

  // ---- the channel table ----

  /** A ChannelBind or CreatePermission transaction: whether it succeeded, and the frame buffer
      it leaves (packets that arrive meanwhile are thrown away). */
  datatype Transaction = Transaction(ok: bool, leftover: seq<byte>)

  datatype Table = Table(channels: map<SocketAddr, u16>, reverse: map<u16, SocketAddr>, next: nat, tried: seq<u16>)

  const EmptyTable := Table(map[], map[], CHANNEL_BASE, [])

  ghost predicate Inverse(channels: map<SocketAddr, u16>, reverse: map<u16, SocketAddr>) {
    && (forall p :: p in channels ==> channels[p] in reverse && reverse[channels[p]] == p)
    && (forall c :: c in reverse ==> reverse[c] in channels && channels[reverse[c]] == c)
  }

  /** `channels` and `reverse` are inverse to each other, and no number was ever asked for twice. */
  ghost predicate TableInv(t: Table) {
    && Inverse(t.channels, t.reverse)
    && (forall c :: c in t.reverse ==> c in t.tried)
    && CHANNEL_BASE <= t.next <= CHANNEL_MAX + 1
    && |t.tried| == t.next - CHANNEL_BASE
    && (forall i :: 0 <= i < |t.tried| ==> t.tried[i] == CHANNEL_BASE + i)
  }

  /** `ensure_peer`: the table and frame buffer after it, and the channel if there is one. */
  function EnsurePeer(t: Table, buf: seq<byte>, peer: SocketAddr, permission: Transaction,
                      bind: Transaction): (Table, seq<byte>, Option<u16>) {
    if peer in t.channels then (t, buf, Some(t.channels[peer]))
    else if !permission.ok || t.next > CHANNEL_MAX then (t, permission.leftover, None)
    else
      var chan: u16 := t.next;
      var t1 := t.(next := t.next + 1, tried := t.tried + [chan]);
      if !bind.ok then (t1, bind.leftover, None)
      else (t1.(channels := t1.channels[peer := chan], reverse := t1.reverse[chan := peer]), bind.leftover, Some(chan))
  }

  lemma InverseWith(channels: map<SocketAddr, u16>, reverse: map<u16, SocketAddr>, peer: SocketAddr, chan: u16)
    requires Inverse(channels, reverse) && peer !in channels && chan !in reverse
    ensures Inverse(channels[peer := chan], reverse[chan := peer])
  {
  }

  lemma EnsurePeerKeeps(t: Table, buf: seq<byte>, peer: SocketAddr, permission: Transaction, bind: Transaction)
    requires TableInv(t)
    ensures var (t', _, chan) := EnsurePeer(t, buf, peer, permission, bind);
            && TableInv(t') && t.tried <= t'.tried
            && (forall p :: p in t.channels ==> p in t'.channels && t'.channels[p] == t.channels[p])
            && (chan.Some? <==> peer in t'.channels)
            && (chan.Some? ==> chan.value == t'.channels[peer] && CHANNEL_BASE <= chan.value <= CHANNEL_MAX)
  {
    hide Inverse;
    var t' := EnsurePeer(t, buf, peer, permission, bind).0;
    assert t.next !in t.reverse;
    if peer in t.channels {
      ChannelNumber(t, peer);
    } else if t.next <= CHANNEL_MAX {
      InverseWith(t.channels, t.reverse, peer, t.next);
    }
    forall c | c in t'.reverse ensures c in t'.tried {
      if c !in t.reverse {
        assert t'.tried[|t.tried|] == c;
      }
    }
  }

  // ---- the pipeline ----

  /** What `send_to` writes for bound peers. */
  function Sent(t: Table, sends: seq<Delivery>): seq<seq<byte>>
    requires forall i :: 0 <= i < |sends| ==> sends[i].peer in t.channels
  {
    seq(|sends|, i requires 0 <= i < |sends| => ChannelData(t.channels[sends[i].peer], sends[i].payload))
  }

  /** A payload that a receiver whose buffer holds `capacity` bytes gets back: its packet is no
      shorter than a TURN message and fits both the length field and the buffer. */
  predicate Carried(payload: seq<byte>, capacity: nat) {
    16 <= |payload| <= 65531 && |payload| + 4 <= capacity
  }

  predicate Bound(t: Table, sends: seq<Delivery>) {
    forall i :: 0 <= i < |sends| ==> sends[i].peer in t.channels
  }

  predicate AllCarried(sends: seq<Delivery>, capacity: nat) {
    forall i :: 0 <= i < |sends| ==> Carried(sends[i].payload, capacity)
  }

  lemma ChannelNumber(t: Table, peer: SocketAddr)
    requires TableInv(t) && peer in t.channels
    ensures CHANNEL_BASE <= t.channels[peer] <= CHANNEL_MAX
    ensures t.channels[peer] in t.reverse && t.reverse[t.channels[peer]] == peer
  {
    var i :| 0 <= i < |t.tried| && t.tried[i] == t.channels[peer];
  }

  /** The fields of a ChannelData message. */
  lemma Fields(chan: u16, payload: seq<byte>)
    ensures var packet := ChannelData(chan, payload);
            && |packet| == |payload| + 4 && packet[4..] == payload
            && FromBe16(packet[0], packet[1]) == chan && FromBe16(packet[2], packet[3]) == Wrap16(|payload|)
            && (CHANNEL_BASE <= chan <= CHANNEL_MAX ==> IsChannelData(packet))
  {
  }

  lemma OnePacket(t: Table, d: Delivery, capacity: nat, indication: seq<byte> -> Option<Delivery>)
    requires TableInv(t) && d.peer in t.channels
    ensures var packet := ChannelData(t.channels[d.peer], d.payload);
            Carried(d.payload, capacity) ==> Fits(packet) && Deliver(packet, capacity, t.reverse, indication) == Some(d)
  {
    ChannelNumber(t, d.peer);
    var chan := t.channels[d.peer];
    Fields(chan, d.payload);
    hide TableInv, ChannelData, FromBe16, IsChannelData;
    var packet := ChannelData(chan, d.payload);
    if Carried(d.payload, capacity) {
      assert packet[..|packet|] == packet;
      assert packet[4..4 + |d.payload|] == d.payload;
    }
  }

  lemma SentHead(t: Table, sends: seq<Delivery>)
    requires sends != [] && Bound(t, sends)
    ensures Sent(t, sends) == [ChannelData(t.channels[sends[0].peer], sends[0].payload)] + Sent(t, sends[1..])
  {
  }

  lemma {:induction false} EachDelivered(t: Table, sends: seq<Delivery>, capacity: nat,
                                         indication: seq<byte> -> Option<Delivery>)
    requires TableInv(t) && Bound(t, sends) && AllCarried(sends, capacity)
    ensures AllFit(Sent(t, sends)) && DeliverEach(Sent(t, sends), capacity, t.reverse, indication) == sends
  {
    hide TableInv, Deliver, ChannelData, Fits, Carried, Sent;
    if sends == [] {
      NoneSent(t);
    } else {
      OnePacket(t, sends[0], capacity, indication);
      EachDelivered(t, sends[1..], capacity, indication);
      SentHead(t, sends);
      assert Sent(t, sends)[1..] == Sent(t, sends[1..]);
      assert sends == [sends[0]] + sends[1..];
    }
  }

  lemma NoneSent(t: Table)
    ensures Sent(t, []) == [] && Stream(Sent(t, [])) == []
  {
  }

  /** The round trip: payloads that the receiver's buffer holds, sent to bound peers and returned
      unchanged, come back as the same sequence, however the byte stream is cut. */
  lemma RoundTrip(t: Table, sends: seq<Delivery>, input: seq<Read>, capacity: nat,
                  indication: seq<byte> -> Option<Delivery>)
    requires TableInv(t) && Bound(t, sends) && AllCarried(sends, capacity) && Flows(input)
    requires BytesOf(input) == Stream(Sent(t, sends))
    ensures DeliverAll([], input, capacity, t.reverse, indication) == sends
  {
    hide DeliverAll, DeliverEach, TableInv, Flows, Stream, Sent, AllFit;
    EachDelivered(t, sends, capacity, indication);
    assert [] + BytesOf(input) == BytesOf(input);
    FragmentationIrrelevant([], input, Sent(t, sends), capacity, t.reverse, indication);
  }

  // ---- what happens to other sizes ----

  /** The data of an indication is a slice of the packet behind an attribute header. */
  ghost predicate Parses(indication: seq<byte> -> Option<Delivery>) {
    forall packet: seq<byte> :: indication(packet).Some? ==> |indication(packet).value.payload| + 4 <= |packet|
  }

  /** Bytes that deliveries take up on the stream: each payload comes with two headers. */
  function Weight(ds: seq<Delivery>): nat {
    if ds == [] then 0 else |ds[0].payload| + 6 + Weight(ds[1..])
  }

  lemma WeightCons(d: Delivery, rest: seq<Delivery>)
    ensures Weight([d] + rest) == |d.payload| + 6 + Weight(rest)
  {
    assert ([d] + rest)[1..] == rest;
  }

  lemma DeliverShort(packet: seq<byte>, capacity: nat, reverse: map<u16, SocketAddr>,
                     indication: seq<byte> -> Option<Delivery>)
    requires Parses(indication)
    ensures var d := Deliver(packet, capacity, reverse, indication);
            d.Some? ==> |d.value.payload| + 4 <= |packet| && |d.value.payload| + 4 <= capacity
  {
    hide FromBe16;
    var cut := packet[..Min(|packet|, capacity)];
    assert indication(cut).Some? ==> |indication(cut).value.payload| + 4 <= |cut|;
  }

  lemma RecvUses(buf: seq<byte>, input: seq<Read>)
    ensures var (got, rest, input') := RecvFrame(buf, input);
            && (got.Item? ==> |got.value| + 2 + |rest| + |BytesOf(input')| <= |buf| + |BytesOf(input)|)
            && (got.Nothing? ==> |rest| + |BytesOf(input')| <= |buf| + |BytesOf(input)|)
  {
    hide TakeFrame;
    TakeUses(buf);
    var (got, rest, input') := RecvFrame(buf, input);
    if input == [] {
      assert input' == input;
      assert got.Nothing? ==> rest == TakeFrame(buf).1;
    } else {
      BytesSplit(input);
      assert got.Nothing? ==> input' == input[1..];
      if input[0].Received? {
        TakeUses(TakeFrame(buf).1 + input[0].data);
        var (second, rest2) := TakeFrame(TakeFrame(buf).1 + input[0].data);
        assert got.Nothing? ==> TakeFrame(buf).0.None? && second.None? && rest == rest2;
      } else {
        assert got.Nothing? ==> rest == TakeFrame(buf).1;
      }
    }
  }

  lemma BytesSplit(input: seq<Read>)
    requires input != []
    ensures |BytesOf(input)| == (if input[0].Received? then |input[0].data| else 0) + |BytesOf(input[1..])|
  {
  }

  /** Whatever is read, deliveries never take up more bytes than there were. */
  lemma {:induction false} DeliveriesFit(buf: seq<byte>, input: seq<Read>, capacity: nat, reverse: map<u16, SocketAddr>,
                                         indication: seq<byte> -> Option<Delivery>)
    requires Parses(indication)
    ensures Weight(DeliverAll(buf, input, capacity, reverse, indication)) <= |buf| + |BytesOf(input)|
    decreases |input|, |buf|
  {
    RecvUses(buf, input);
    RecvShrinks(buf, input);
    var (got, rest, input') := RecvFrame(buf, input);
    hide Parses, RecvFrame, Deliver, BytesOf;
    match got
    case Broken =>
    case Nothing =>
      if input != [] {
        DeliveriesFit(rest, input', capacity, reverse, indication);
      }
    case Item(packet) =>
      DeliverShort(packet, capacity, reverse, indication);
      DeliveriesFit(rest, input', capacity, reverse, indication);
      var more := DeliverAll(rest, input', capacity, reverse, indication);
      var d := Deliver(packet, capacity, reverse, indication);
      if d.Some? {
        WeightCons(d.value, more);
      } else {
        assert [] + more == more;
      }
  }

  lemma RecvShrinks(buf: seq<byte>, input: seq<Read>)
    ensures var (got, rest, input') := RecvFrame(buf, input);
            && (got.Item? ==> |input'| < |input| || (|input'| == |input| && |rest| < |buf|))
            && (got.Nothing? && input != [] ==> |input'| < |input|)
  {
    hide TakeFrame;
    TakeUses(buf);
  }

  lemma HeaderRead(buf: seq<byte>, more: seq<byte>, packet: seq<byte>, tail: seq<byte>)
    requires buf + more == Frame(packet) + tail && |buf| >= 2
    ensures FromBe16(buf[0], buf[1]) == Wrap16(|packet|) <= |packet|
  {
    assert (buf + more)[0] == buf[0] && (buf + more)[1] == buf[1];
  }

  /** What the front of a buffer yields when a stream begins with the frame of `packet`. */
  lemma TakeHead(buf: seq<byte>, more: seq<byte>, packet: seq<byte>, tail: seq<byte>)
    requires buf + more == Frame(packet) + tail
    ensures var len := Wrap16(|packet|);
            TakeFrame(buf) ==
              if |buf| < 2 then (None, buf)
              else if len < MIN_FRAME then (None, [])
              else if |buf| < 2 + len then (None, buf)
              else (Some(packet[..len]), buf[2 + len..])
  {
    var len: nat := Wrap16(|packet|);
    if |buf| >= 2 {
      HeaderRead(buf, more, packet, tail);
      hide FromBe16, Wrap16, Be16;
      if |buf| >= 2 + len {
        assert buf[2..2 + len] == (buf + more)[2..2 + len] == packet[..len];
      }
    }
  }

  /** Behind a packet that was cut whole the stream goes on with the next one. */
  lemma TakeRest(buf: seq<byte>, more: seq<byte>, packet: seq<byte>, tail: seq<byte>)
    requires buf + more == Frame(packet) + tail && |buf| >= 2 + |packet|
    ensures buf[2 + |packet|..] + more == tail
  {
    assert buf[2 + |packet|..] + more == (buf + more)[2 + |packet|..] == tail;
  }

  lemma {:induction false} StreamWeight(t: Table, sends: seq<Delivery>)
    requires Bound(t, sends)
    ensures |Stream(Sent(t, sends))| == Weight(sends)
  {
    hide ChannelData;
    if sends != [] {
      StreamOfSends(t, sends);
      Fields(t.channels[sends[0].peer], sends[0].payload);
      StreamWeight(t, sends[1..]);
    }
  }

  lemma StreamOfSends(t: Table, sends: seq<Delivery>)
    requires sends != [] && Bound(t, sends)
    ensures Stream(Sent(t, sends))
         == Frame(ChannelData(t.channels[sends[0].peer], sends[0].payload)) + Stream(Sent(t, sends[1..]))
  {
    SentHead(t, sends);
    assert Sent(t, sends)[1..] == Sent(t, sends[1..]);
  }

  /** What is delivered for a packet that is not carried is something else, or nothing. */
  lemma DeliveredDiffers(packet: seq<byte>, d: Delivery, chan: u16, capacity: nat, reverse: map<u16, SocketAddr>,
                         indication: seq<byte> -> Option<Delivery>)
    requires Parses(indication) && packet == ChannelData(chan, d.payload) && !Carried(d.payload, capacity)
    requires Wrap16(|packet|) >= MIN_FRAME
    ensures Deliver(packet[..Wrap16(|packet|)], capacity, reverse, indication) != Some(d)
  {
    hide Deliver, Parses, ChannelData, FromBe16, IsChannelData;
    Fields(chan, d.payload);
    DeliverShort(packet[..Wrap16(|packet|)], capacity, reverse, indication);
  }

  lemma ConsDiffers(d: Delivery, rest: seq<Delivery>, sends: seq<Delivery>)
    requires sends != [] && (d != sends[0] || rest != sends[1..])
    ensures [d] + rest != sends
  {
    assert ([d] + rest)[0] == d && ([d] + rest)[1..] == rest;
  }

  /** With a payload that is not carried the deliveries are never what was sent, however the
      stream is cut: bytes were thrown away that the deliveries would need. */
  lemma {:induction false} NotReturned(t: Table, sends: seq<Delivery>, buf: seq<byte>, input: seq<Read>, capacity: nat,
                                       indication: seq<byte> -> Option<Delivery>)
    requires TableInv(t) && Bound(t, sends) && Flows(input) && Parses(indication)
    requires buf + BytesOf(input) == Stream(Sent(t, sends)) && !AllCarried(sends, capacity)
    ensures DeliverAll(buf, input, capacity, t.reverse, indication) != sends
    decreases |input|, |buf|
  {
    hide TableInv, Parses, TakeFrame, DeliverAll, Deliver, Stream, Sent, ChannelData, Carried;
    var packet, tail := ChannelData(t.channels[sends[0].peer], sends[0].payload), Stream(Sent(t, sends[1..]));
    StreamOfSends(t, sends);
    TakeHead(buf, BytesOf(input), packet, tail);
    if TakeFrame(buf).0.Some? {
      if Carried(sends[0].payload, capacity) {
        CarriedTaken(t, sends, buf, input, capacity, indication);
        NotReturned(t, sends[1..], TakeFrame(buf).1, input, capacity, indication);
        ConsDiffers(sends[0], DeliverAll(TakeFrame(buf).1, input, capacity, t.reverse, indication), sends);
      } else {
        OtherTaken(t, sends, buf, input, capacity, indication);
      }
    } else if TakeFrame(buf).1 != buf {
      Settled(buf, input, capacity, t.reverse, indication);
      DeliveriesFit([], input, capacity, t.reverse, indication);
      StreamWeight(t, sends);
    } else if input == [] {
      assert false;
    } else {
      ReadOn(buf, input, capacity, t.reverse, indication);
      var data := if input[0].Received? then input[0].data else [];
      Shifted(buf, input);
      NotReturned(t, sends, buf + data, input[1..], capacity, indication);
    }
  }

  /** The step of NotReturned that cuts the frame of a carried payload off the buffer. */
  lemma CarriedTaken(t: Table, sends: seq<Delivery>, buf: seq<byte>, input: seq<Read>, capacity: nat,
                     indication: seq<byte> -> Option<Delivery>)
    requires TableInv(t) && sends != [] && Bound(t, sends) && Carried(sends[0].payload, capacity)
    requires buf + BytesOf(input) == Stream(Sent(t, sends)) && TakeFrame(buf).0.Some?
    ensures |TakeFrame(buf).1| < |buf|
    ensures TakeFrame(buf).1 + BytesOf(input) == Stream(Sent(t, sends[1..]))
    ensures DeliverAll(buf, input, capacity, t.reverse, indication)
         == [sends[0]] + DeliverAll(TakeFrame(buf).1, input, capacity, t.reverse, indication)
  {
    hide TableInv, TakeFrame, DeliverAll, Deliver, Stream, Sent, ChannelData, Carried;
    var packet, tail := ChannelData(t.channels[sends[0].peer], sends[0].payload), Stream(Sent(t, sends[1..]));
    StreamOfSends(t, sends);
    TakeHead(buf, BytesOf(input), packet, tail);
    ItemFirst(buf, input, capacity, t.reverse, indication);
    OnePacket(t, sends[0], capacity, indication);
    assert packet[..|packet|] == packet;
    TakeRest(buf, BytesOf(input), packet, tail);
  }

  /** The step of NotReturned that cuts the frame of another payload off the buffer. */
  lemma OtherTaken(t: Table, sends: seq<Delivery>, buf: seq<byte>, input: seq<Read>, capacity: nat,
                   indication: seq<byte> -> Option<Delivery>)
    requires sends != [] && Bound(t, sends) && Parses(indication) && !Carried(sends[0].payload, capacity)
    requires buf + BytesOf(input) == Stream(Sent(t, sends)) && TakeFrame(buf).0.Some?
    ensures DeliverAll(buf, input, capacity, t.reverse, indication) != sends
  {
    hide Parses, TakeFrame, DeliverAll, Deliver, Stream, Sent, ChannelData, Carried;
    var chan := t.channels[sends[0].peer];
    var packet, tail := ChannelData(chan, sends[0].payload), Stream(Sent(t, sends[1..]));
    StreamOfSends(t, sends);
    TakeHead(buf, BytesOf(input), packet, tail);
    ItemFirst(buf, input, capacity, t.reverse, indication);
    var (frame, rest) := TakeFrame(buf);
    var more := DeliverAll(rest, input, capacity, t.reverse, indication);
    var d := Deliver(frame.value, capacity, t.reverse, indication);
    DeliveredDiffers(packet, sends[0], chan, capacity, t.reverse, indication);
    if d.Some? {
      ConsDiffers(d.value, more, sends);
    } else {
      DeliveriesFit(rest, input, capacity, t.reverse, indication);
      StreamWeight(t, sends);
    }
  }

  /** The sizes are exact: for every receive buffer and however the stream is cut, what was sent
      comes back if and only if every payload is carried. */
  lemma RoundTripIff(t: Table, sends: seq<Delivery>, input: seq<Read>, capacity: nat,
                     indication: seq<byte> -> Option<Delivery>)
    requires TableInv(t) && Bound(t, sends) && Flows(input) && Parses(indication)
    requires BytesOf(input) == Stream(Sent(t, sends))
    ensures DeliverAll([], input, capacity, t.reverse, indication) == sends <==> AllCarried(sends, capacity)
  {
    hide TableInv, Parses, Stream, Sent, Flows, AllCarried;
    if AllCarried(sends, capacity) {
      RoundTrip(t, sends, input, capacity, indication);
    } else {
      assert [] + BytesOf(input) == BytesOf(input);
      NotReturned(t, sends, [], input, capacity, indication);
    }
  }

  /** In one piece, a payload that is not carried is dropped with everything behind it, or comes
      back different. */
  lemma FirstNotCarried(t: Table, d: Delivery, rest: seq<byte>, capacity: nat,
                        indication: seq<byte> -> Option<Delivery>)
    requires TableInv(t) && d.peer in t.channels && !Carried(d.payload, capacity) && capacity >= 4
    ensures var all := DeliverAll(Frame(ChannelData(t.channels[d.peer], d.payload)) + rest, [],
                                 capacity, t.reverse, indication);
            all == [] || all[0].payload != d.payload
  {
    hide DeliverAll, TakeFrame, TableInv, ChannelData;
    var chan := t.channels[d.peer];
    var packet := ChannelData(chan, d.payload);
    var buf, len := Frame(packet) + rest, Wrap16(|packet|);
    ChannelNumber(t, d.peer);
    assert buf + [] == buf;
    TakeHead(buf, [], packet, rest);
    if len < MIN_FRAME {
      Settled(buf, [], capacity, t.reverse, indication);
      NothingComes(capacity, t.reverse, indication);
    } else {
      ItemFirst(buf, [], capacity, t.reverse, indication);
      CutIsShort(packet, d.payload, chan, capacity, t.reverse, indication);
    }
  }

  lemma NothingComes(capacity: nat, reverse: map<u16, SocketAddr>, indication: seq<byte> -> Option<Delivery>)
    ensures DeliverAll([], [], capacity, reverse, indication) == []
  {
  }

  lemma CutIsShort(packet: seq<byte>, payload: seq<byte>, chan: u16, capacity: nat, reverse: map<u16, SocketAddr>,
                   indication: seq<byte> -> Option<Delivery>)
    requires packet == ChannelData(chan, payload) && CHANNEL_BASE <= chan <= CHANNEL_MAX && chan in reverse
    requires Wrap16(|packet|) >= MIN_FRAME && !Carried(payload, capacity) && capacity >= 4
    ensures var d := Deliver(packet[..Wrap16(|packet|)], capacity, reverse, indication);
            d.Some? && |d.value.payload| < |payload|
  {
    Fields(chan, payload);
    hide ChannelData, FromBe16;
    var cut := packet[..Wrap16(|packet|)][..Min(Wrap16(|packet|), capacity)];
    assert cut[0] == packet[0] && cut[1] == packet[1] && cut[2] == packet[2] && cut[3] == packet[3];
  }
}
