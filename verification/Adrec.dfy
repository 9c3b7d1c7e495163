/** ADREC2 recordings: what the recorder writes and what `read_adrec` gets back from a file that
    may have been cut short. */
module Adrec {
  import opened Bytes

  const MAGIC: seq<byte> := [0x41, 0x44, 0x52, 0x45, 0x43, 0x32, 0x0a]
  const HEADER_LEN: nat := 24

  /** A packet as the recorder writes it. */
  datatype Record = Record(kind: byte, codec: byte, flags: byte, reserved: byte,
                           wallUs: u64, rtpTs: u64, payload: seq<byte>)

  /** A packet as the reader returns it. */
  datatype Packet = Packet(kind: byte, codec: byte, rtpTs: u64, keyframe: bool, payload: seq<byte>)

  datatype Result = Packets(packets: seq<Packet>) | NoMagic | NotAdrec

  // ---- writing ----

  function Header(r: Record): (h: seq<byte>)
    ensures |h| == HEADER_LEN
  {
    [r.kind, r.codec, r.flags, r.reserved] + Le(r.wallUs, 8) + Le(r.rtpTs, 8) + Le(|r.payload|, 4)
  }

  function Encode(r: Record): seq<byte> {
    Header(r) + r.payload
  }

  function Stream(records: seq<Record>): seq<byte> {
    if records == [] then [] else Encode(records[0]) + Stream(records[1..])
  }

  // ---- reading ----

  function PayloadLen(header: seq<byte>): nat
    requires |header| == HEADER_LEN
  {
    FromLe(header[20..24])
  }

  function Decode(header: seq<byte>, payload: seq<byte>): Packet
    requires |header| == HEADER_LEN
  {
    FromLeFits(header[12..20]);
    Packet(header[0], header[1], FromLe(header[12..20]), header[2] % 2 == 1, payload)
  }

  lemma FromLeFits(s: seq<byte>)
    requires |s| == 8
    ensures FromLe(s) < 0x1_0000_0000_0000_0000
  {
    FromLeBound(s);
    Pow256Values();
  }

  function ReadPackets(data: seq<byte>): seq<Packet> {
    if |data| < HEADER_LEN then []
    else
      var header := data[..HEADER_LEN];
      var n := PayloadLen(header);
      if |data| - HEADER_LEN < n then []
      else [Decode(header, data[HEADER_LEN..HEADER_LEN + n])] + ReadPackets(data[HEADER_LEN + n..])
  }

  function ReadFile(file: seq<byte>): Result {
    if |file| < |MAGIC| then NoMagic
    else if file[..|MAGIC|] != MAGIC then NotAdrec
    else Packets(ReadPackets(file[|MAGIC|..]))
  }

  // ---- what is got back ----

  /** The fields of a record that the reader keeps. */
  function Kept(r: Record): Packet {
    Packet(r.kind, r.codec, r.rtpTs, r.flags % 2 == 1, r.payload)
  }

  function KeptAll(records: seq<Record>): seq<Packet> {
    seq(|records|, i requires 0 <= i < |records| => Kept(records[i]))
  }

  /** The payload length is written in 32 bits. */
  predicate Fits(r: Record) {
    |r.payload| < 0x1_0000_0000
  }

  lemma HeaderFields(r: Record)
    ensures var h := Header(r);
            && h[0] == r.kind && h[1] == r.codec && h[2] == r.flags
            && FromLe(h[12..20]) == r.rtpTs && PayloadLen(h) == |r.payload| % 0x1_0000_0000
  {
    hide Le, FromLe, Pow256;
    var h := Header(r);
    assert h[12..20] == Le(r.rtpTs, 8) && h[20..24] == Le(|r.payload|, 4);
    LeRoundTrip(r.rtpTs, 8);
    LeRoundTrip(|r.payload|, 4);
    Pow256Values();
  }

  /** Reading what begins with a whole record that fits. */
  lemma ReadWhole(r: Record, data: seq<byte>, rest: seq<byte>)
    requires Fits(r) && data == Encode(r) + rest
    ensures ReadPackets(data) == [Kept(r)] + ReadPackets(rest)
  {
    hide Header, PayloadLen, FromLe;
    HeaderFields(r);
    var n := |r.payload|;
    assert data[..HEADER_LEN] == Header(r);
    assert data[HEADER_LEN..HEADER_LEN + n] == r.payload && data[HEADER_LEN + n..] == rest;
  }

  /** Reading a record of which only a part is there. */
  lemma ReadPart(r: Record, data: seq<byte>)
    requires Fits(r) && data < Encode(r)
    ensures ReadPackets(data) == []
  {
    hide Header, PayloadLen, FromLe;
    HeaderFields(r);
    if |data| >= HEADER_LEN {
      assert data[..HEADER_LEN] == Encode(r)[..HEADER_LEN] == Header(r);
    }
  }

  lemma StreamPrefix(records: seq<Record>, k: nat)
    requires 0 < k <= |records|
    ensures Stream(records[..k]) == Encode(records[0]) + Stream(records[1..][..k - 1])
  {
    assert records[..k][1..] == records[1..][..k - 1];
  }

  /** From a stream cut after `n` bytes come back exactly the `k` records that lie wholly before
      the cut. */
  lemma {:induction false} ReadCut(records: seq<Record>, n: nat, k: nat)
    requires forall i :: 0 <= i < |records| ==> Fits(records[i])
    requires n <= |Stream(records)| && k <= |records| && |Stream(records[..k])| <= n
    requires k < |records| ==> n < |Stream(records[..k + 1])|
    ensures ReadPackets(Stream(records)[..n]) == KeptAll(records[..k])
    decreases |records|
  {
    hide Encode, Fits, Kept, ReadPackets, Stream;
    if records == [] {
      NothingRead(records, n, k);
    } else {
      var size := |Encode(records[0])|;
      var rest := Stream(records[1..]);
      StreamHead(records);
      var data := Stream(records)[..n];
      if k == 0 {
        StreamPrefix(records, 1);
        EmptyStream(records);
        assert data == Encode(records[0])[..n];
        ReadPart(records[0], data);
      } else {
        StreamPrefix(records, k);
        if k < |records| {
          StreamPrefix(records, k + 1);
        }
        assert data == Encode(records[0]) + rest[..n - size];
        ReadWhole(records[0], data, rest[..n - size]);
        ReadCut(records[1..], n - size, k - 1);
        assert KeptAll(records[..k]) == [Kept(records[0])] + KeptAll(records[1..][..k - 1]);
      }
    }
  }

  lemma NothingRead(records: seq<Record>, n: nat, k: nat)
    requires records == [] && k == 0 && n <= |Stream(records)|
    ensures ReadPackets(Stream(records)[..n]) == KeptAll(records[..k])
  {
  }

  lemma StreamHead(records: seq<Record>)
    requires records != []
    ensures Stream(records) == Encode(records[0]) + Stream(records[1..])
  {
  }

  lemma EmptyStream(records: seq<Record>)
    requires records != []
    ensures Stream(records[1..][..0]) == []
  {
  }

  /** The number of records whose encodings lie wholly within the first `n` bytes of a stream. */
  function Whole(records: seq<Record>, n: nat): (k: nat)
    ensures k <= |records|
  {
    if records == [] || n < |Encode(records[0])| then 0 else 1 + Whole(records[1..], n - |Encode(records[0])|)
  }

  /** It is the largest number of leading records that fit. */
  lemma {:induction false} WholeIsLargest(records: seq<Record>, n: nat)
    ensures var k := Whole(records, n);
            && |Stream(records[..k])| <= n
            && (k < |records| ==> n < |Stream(records[..k + 1])|)
  {
    hide Encode;
    var k := Whole(records, n);
    if records == [] || n < |Encode(records[0])| {
      assert records[..0] == [];
      if records != [] {
        StreamPrefix(records, 1);
        EmptyStream(records);
      }
    } else {
      WholeIsLargest(records[1..], n - |Encode(records[0])|);
      StreamPrefix(records, k);
      if k < |records| {
        StreamPrefix(records, k + 1);
      }
    }
  }

  /** A recording cut anywhere at or after the magic loses only its tail: the records that lie
      wholly before the cut come back, and nothing else. */
  lemma CutLosesOnlyTheTail(records: seq<Record>, cut: nat)
    requires forall i :: 0 <= i < |records| ==> Fits(records[i])
    requires |MAGIC| <= cut <= |MAGIC| + |Stream(records)|
    ensures ReadFile((MAGIC + Stream(records))[..cut]) == Packets(KeptAll(records[..Whole(records, cut - |MAGIC|)]))
  {
    hide Stream, Encode, Fits, ReadPackets, Kept, Whole;
    var file := (MAGIC + Stream(records))[..cut];
    assert file[..|MAGIC|] == MAGIC && file[|MAGIC|..] == Stream(records)[..cut - |MAGIC|];
    WholeIsLargest(records, cut - |MAGIC|);
    ReadCut(records, cut - |MAGIC|, Whole(records, cut - |MAGIC|));
  }

  /** A file cut inside the magic is an error, and so is one with another magic. */
  lemma NoPacketsWithoutMagic(file: seq<byte>)
    ensures ReadFile(file).Packets? <==> MAGIC <= file
    ensures ReadFile(file).NoMagic? <==> |file| < 7
    ensures ReadFile(file).Packets? <==> |file| >= 7 && file[..7] == [0x41, 0x44, 0x52, 0x45, 0x43, 0x32, 0x0a]
  {
    if MAGIC <= file {
      assert file[..|MAGIC|] == MAGIC;
    } else if |file| >= |MAGIC| {
      assert file[..|MAGIC|] != MAGIC;
    }
  }

  /** A payload that does not fit the length field is read back shorter. */
  lemma ReadTooLong(r: Record, data: seq<byte>, rest: seq<byte>)
    requires !Fits(r) && data == Encode(r) + rest
    ensures ReadPackets(data) != [] && ReadPackets(data)[0] != Kept(r)
  {
    hide Header, PayloadLen, FromLe;
    HeaderFields(r);
    var n := |r.payload| % 0x1_0000_0000;
    assert n < |r.payload|;
    assert data[..HEADER_LEN] == Header(r);
    assert |data[HEADER_LEN..HEADER_LEN + n]| == n;
  }

  /** An uncut recording is read back in full exactly when every payload fits its length field. */
  lemma {:induction false} WholeIffFits(records: seq<Record>)
    ensures ReadPackets(Stream(records)) == KeptAll(records) <==> forall i :: 0 <= i < |records| ==> Fits(records[i])
  {
    hide Encode, Fits, Kept, ReadPackets;
    if records == [] {
      assert Stream(records)[..0] == Stream(records) && records[..0] == records;
      NothingRead(records, 0, 0);
    } else {
      var rest := records[1..];
      assert KeptAll(records) == [Kept(records[0])] + KeptAll(rest);
      assert forall i :: 0 < i < |records| ==> records[i] == rest[i - 1];
      if Fits(records[0]) {
        ReadWhole(records[0], Stream(records), Stream(rest));
        WholeIffFits(rest);
        TailEqual(Kept(records[0]), ReadPackets(Stream(rest)), KeptAll(rest));
        assert forall i :: 0 <= i < |rest| ==> rest[i] == records[i + 1];
      } else {
        ReadTooLong(records[0], Stream(records), Stream(rest));
      }
    }
  }

  lemma TailEqual(p: Packet, a: seq<Packet>, b: seq<Packet>)
    ensures [p] + a == [p] + b <==> a == b
  {
    if [p] + a == [p] + b {
      assert a == ([p] + a)[1..];
      assert b == ([p] + b)[1..];
    }
  }

  // ---- the loop ----

  /** One turn of the loop at position `pos`. */
  lemma ReadAt(file: seq<byte>, pos: nat)
    requires pos <= |file|
    ensures |file| - pos < HEADER_LEN ==> ReadPackets(file[pos..]) == []
    ensures |file| - pos >= HEADER_LEN ==>
      var header := file[pos..pos + HEADER_LEN];
      var start := pos + HEADER_LEN;
      var len := PayloadLen(header);
      ReadPackets(file[pos..]) ==
        if |file| - start < len then []
        else [Decode(header, file[start..start + len])] + ReadPackets(file[start + len..])
  {
    hide PayloadLen, Decode;
    var data := file[pos..];
    if |data| >= HEADER_LEN {
      var len := PayloadLen(data[..HEADER_LEN]);
      assert data[..HEADER_LEN] == file[pos..pos + HEADER_LEN];
      if |data| - HEADER_LEN >= len {
        assert data[HEADER_LEN..HEADER_LEN + len] == file[pos + HEADER_LEN..pos + HEADER_LEN + len];
        assert data[HEADER_LEN + len..] == file[pos + HEADER_LEN + len..];
      }
    }
  }

  /** The packet loop of `read_adrec`, from the end of the magic on. */
  method ReadLoop(file: seq<byte>, start: nat) returns (out: seq<Packet>)
    requires start <= |file|
    ensures out == ReadPackets(file[start..])
  {
    hide PayloadLen, Decode, ReadPackets;
    out := [];
    var pos := start;
    ghost var whole := ReadPackets(file[start..]);
    assert [] + whole == whole;
    while true
      invariant start <= pos <= |file|
      invariant out + ReadPackets(file[pos..]) == whole
      decreases |file| - pos
    {
      ReadAt(file, pos);
      if |file| - pos < HEADER_LEN {
        break;
      }
      var header := file[pos..pos + HEADER_LEN];
      pos := pos + HEADER_LEN;
      var len := PayloadLen(header);
      if |file| - pos < len {
        break;
      }
      var packet := Decode(header, file[pos..pos + len]);
      pos := pos + len;
      Regroup(out, [packet], ReadPackets(file[pos..]));
      out := out + [packet];
    }
    assert out + [] == out;
  }

  method ReadAdrec(file: seq<byte>) returns (result: Result)
    ensures result == ReadFile(file)
  {
    if |file| < |MAGIC| {
      return NoMagic;
    }
    if file[..|MAGIC|] != MAGIC {
      return NotAdrec;
    }
    var packets := ReadLoop(file, |MAGIC|);
    return Packets(packets);
  }
}
