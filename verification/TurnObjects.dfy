/** The TURN transport object: each method computes the function of module Turn that carries its name. */
module TurnObjects {
  import opened Bytes
  import opened Turn

  class TcpStream {
    var written: seq<byte>
    var input: seq<Read>

    method ReadSome() returns (r: Read)
      modifies this`input
      ensures r == if old(input) == [] then WouldBlock else old(input)[0]
      ensures input == if old(input) == [] then [] else old(input)[1..]
    {
      if input == [] {
        return WouldBlock;
      }
      r := input[0];
      input := input[1..];
    }

    method WriteAll(bytes: seq<byte>)
      modifies this`written
      ensures written == old(written) + bytes
    {
      written := written + bytes;
    }
  }

  class TurnTransport {
    const stream: TcpStream
    const indication: seq<byte> -> Option<Delivery>
    var frameBuf: seq<byte>
    var channels: map<SocketAddr, u16>
    var reverse: map<u16, SocketAddr>
    var nextChannel: u16
    ghost var tried: seq<u16>

    ghost function View(): Table
      reads this
    {
      Table(channels, reverse, nextChannel, tried)
    }

    constructor (stream: TcpStream, indication: seq<byte> -> Option<Delivery>)
      ensures View() == EmptyTable && TableInv(View()) && frameBuf == []
              && this.stream == stream && this.indication == indication
    {
      this.stream, this.indication, this.frameBuf := stream, indication, [];
      channels, reverse, nextChannel, tried := map[], map[], CHANNEL_BASE, [];
    }

    method EnsurePeer(peer: SocketAddr, permission: Transaction, bind: Transaction) returns (chan: Option<u16>)
      requires TableInv(View())
      modifies this
      ensures TableInv(View())
      ensures (View(), frameBuf, chan) == Turn.EnsurePeer(old(View()), old(frameBuf), peer, permission, bind)
    {
      EnsurePeerKeeps(View(), frameBuf, peer, permission, bind);
      hide TableInv;
      if peer in channels {
        return Some(channels[peer]);
      }
      frameBuf := permission.leftover;
      if !permission.ok || nextChannel > CHANNEL_MAX {
        return None;
      }
      var number := nextChannel;
      nextChannel := nextChannel + 1;
      tried := tried + [number];
      frameBuf := bind.leftover;
      if !bind.ok {
        return None;
      }
      channels := channels[peer := number];
      reverse := reverse[number := peer];
      chan := Some(number);
    }

    method SendRaw(packet: seq<byte>)
      modifies stream`written
      ensures stream.written == old(stream.written) + Frame(packet)
    {
      stream.WriteAll(Be16(Wrap16(|packet|)) + packet);
    }

    /** Binds a channel for the peer if there is none, and writes one framed ChannelData message. */
    method SendTo(peer: SocketAddr, payload: seq<byte>, permission: Transaction, bind: Transaction) returns (ok: bool)
      requires TableInv(View())
      modifies this, stream`written
      ensures TableInv(View())
      ensures var (t, buf, chan) := Turn.EnsurePeer(old(View()), old(frameBuf), peer, permission, bind);
              && View() == t && frameBuf == buf && ok == chan.Some?
              && stream.written == old(stream.written) + if ok then Frame(ChannelData(chan.value, payload)) else []
    {
      var chan := EnsurePeer(peer, permission, bind);
      if chan.None? {
        return false;
      }
      SendRaw(Be16(chan.value) + Be16(Wrap16(|payload|)) + payload);
      ok := true;
    }

    /** Cuts the first complete frame off the frame buffer. */
    method TakeTcpFrame() returns (frame: Option<seq<byte>>)
      modifies this`frameBuf
      ensures (frame, frameBuf) == TakeFrame(old(frameBuf))
    {
      if |frameBuf| < 2 {
        return None;
      }
      var len := FromBe16(frameBuf[0], frameBuf[1]);
      if len < MIN_FRAME {
        frameBuf := [];
        return None;
      }
      if |frameBuf| < 2 + len {
        return None;
      }
      frame := Some(frameBuf[2..2 + len]);
      frameBuf := frameBuf[2 + len..];
    }

    /** Copies the next frame into `buf`, cut to its length, reading the stream once if needed. */
    method RecvTcpFrame(buf: array<byte>) returns (n: Got<nat>)
      modifies this`frameBuf, stream`input, buf
      ensures var (got, rest, input) := RecvFrame(old(frameBuf), old(stream.input));
              && frameBuf == rest && stream.input == input
              && match got
                 case Item(frame) => n == Item(Min(|frame|, buf.Length)) && buf[..n.value] == frame[..n.value]
                 case Nothing => n.Nothing? && buf[..] == old(buf[..])
                 case Broken => n.Broken? && buf[..] == old(buf[..])
    {
      var frame := TakeTcpFrame();
      if frame.None? {
        var r := stream.ReadSome();
        if r.WouldBlock? {
          return Nothing;
        }
        if r.Failed? || r.data == [] {
          return Broken;
        }
        frameBuf := frameBuf + r.data;
        frame := TakeTcpFrame();
        if frame.None? {
          return Nothing;
        }
      }
      var count := Min(|frame.value|, buf.Length);
      forall i | 0 <= i < count {
        buf[i] := frame.value[i];
      }
      n := Item(count);
    }

    /** `recv_packet`: at most one delivery, its payload at the front of `buf`. */
    method RecvPacket(buf: array<byte>) returns (r: Got<Option<(SocketAddr, nat)>>)
      modifies this`frameBuf, stream`input, buf
      ensures var (got, rest, input) := RecvFrame(old(frameBuf), old(stream.input));
              && frameBuf == rest && stream.input == input
              && match got
                 case Item(packet) =>
                   (match Deliver(packet, buf.Length, reverse, indication)
                    case Some(d) => r == Item(Some((d.peer, |d.payload|)))
                      && |d.payload| <= buf.Length && buf[..|d.payload|] == d.payload
                    case None => r == Item(None))
                 case Nothing => r.Nothing?
                 case Broken => r.Broken?
    {
      hide RecvFrame, FromBe16;
      var got := RecvTcpFrame(buf);
      if got.Nothing? {
        return Nothing;
      }
      if got.Broken? {
        return Broken;
      }
      var packet := buf[..got.value];
      if IsChannelData(packet) {
        var chan := FromBe16(packet[0], packet[1]);
        var len := FromBe16(packet[2], packet[3]);
        if chan !in reverse {
          return Item(None);
        }
        var n2 := Min(len, got.value - 4);
        forall i | 0 <= i < n2 {
          buf[i] := packet[4 + i];
        }
        assert buf[..n2] == packet[4..4 + n2];
        return Item(Some((reverse[chan], n2)));
      }
      if |packet| < MIN_FRAME {
        return Item(None);
      }
      var d := indication(packet);
      if d.None? {
        return Item(None);
      }
      var n2 := Min(|d.value.payload|, buf.Length);
      forall i | 0 <= i < n2 {
        buf[i] := d.value.payload[i];
      }
      assert buf[..n2] == d.value.payload[..n2];
      r := Item(Some((d.value.peer, n2)));
    }
  }
}
