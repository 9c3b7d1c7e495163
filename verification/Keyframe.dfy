/** Parameter-set injection: the encoder caches the parameter sets of its first key frame that
    carries any and puts them before later key frames that carry none. */
module Keyframe {
  import opened Bytes
  import opened StartCodes

  datatype CodecId = H264 | Hevc | Vp9 | Av1

  /** One NAL unit with its start code. */
  datatype Nal = Nal(kind: byte, bytes: seq<byte>)

  datatype Packet = Packet(data: seq<byte>, key: bool)

  // ---- splitting ----

  /** The first start code from `i` on, or the end of the data. */
  function First(data: seq<byte>, i: nat): (k: nat)
    requires i <= |data|
    ensures i <= k <= |data|
    ensures k < |data| ==> Code3(data, k)
    ensures forall j :: i <= j < k ==> !Code3(data, j)
    decreases |data| - i
  {
    if i + 2 >= |data| then |data| else if Code3(data, i) then i else First(data, i + 1)
  }

  /** The unit type in the byte that follows the start code. */
  function NalType(codec: CodecId, header: byte): byte {
    if codec.Hevc? then header / 2 % 64 else header % 32
  }

  predicate IsParamSet(codec: CodecId, kind: byte) {
    if codec.Hevc? then kind in {32, 33, 34} else kind in {7, 8}
  }

  /** Where the type is: in HEVC the six bits behind the first one (section 7.3.1.2 of ITU-T H.265), in
      the other codecs the low five; parameter sets are VPS, SPS and PPS, and SPS and PPS. */
  lemma TypeInHeader(codec: CodecId, header: byte, high: nat, t: nat, low: nat)
    requires codec.Hevc? ==> high < 2 && t < 64 && low < 2 && header == 128 * high + 2 * t + low
    requires !codec.Hevc? ==> t < 32 && header == 32 * high + t
    ensures NalType(codec, header) == t
    ensures IsParamSet(codec, t) <==> if codec.Hevc? then 32 <= t <= 34 else t == 7 || t == 8
  {
    if codec.Hevc? {
      Remainder(header, 2, 64 * high + t, low);
      Remainder(64 * high + t, 64, high, t);
    } else {
      Remainder(header, 32, high, t);
    }
  }

  /** The unit that begins with the start code at `k`, unless it is empty. */
  function Cut(codec: CodecId, data: seq<byte>, k: nat): seq<Nal>
    requires k + 3 <= |data|
  {
    var end := First(data, k + 3);
    if end > k + 3 then [Nal(NalType(codec, data[k + 3]), data[k..end])] else []
  }

  function Split(codec: CodecId, data: seq<byte>, i: nat): seq<Nal>
    requires i <= |data|
    decreases |data| - i
  {
    var k := First(data, i);
    if k == |data| then [] else Cut(codec, data, k) + Split(codec, data, First(data, k + 3))
  }

  function Join(nals: seq<Nal>): seq<byte> {
    if nals == [] then [] else nals[0].bytes + Join(nals[1..])
  }

  function Kinds(nals: seq<Nal>): seq<byte> {
    if nals == [] then [] else [nals[0].kind] + Kinds(nals[1..])
  }

  function ParamSets(codec: CodecId, nals: seq<Nal>): seq<Nal> {
    if nals == [] then []
    else (if IsParamSet(codec, nals[0].kind) then [nals[0]] else []) + ParamSets(codec, nals[1..])
  }

  predicate HasParams(codec: CodecId, data: seq<byte>) {
    exists i :: 0 <= i < |Split(codec, data, 0)| && IsParamSet(codec, Split(codec, data, 0)[i].kind)
  }

  // ---- what splitting yields ----

  /** A start code, at least one byte after it that gives the type, and no further start code. */
  predicate Unit(codec: CodecId, nal: Nal) {
    && |nal.bytes| > 3 && Code3(nal.bytes, 0) && nal.kind == NalType(codec, nal.bytes[3])
    && forall i :: 0 < i < |nal.bytes| ==> !Code3(nal.bytes, i)
  }

  ghost predicate Units(codec: CodecId, nals: seq<Nal>) {
    forall i :: 0 <= i < |nals| ==> Unit(codec, nals[i])
  }

  lemma CodeInside(data: seq<byte>, k: nat, end: nat, i: nat)
    requires k <= end <= |data| && k + i <= end
    ensures Code3(data[k..end], i) <==> Code3(data, k + i) && k + i + 3 <= end
  {
  }

  /** What is cut between two start codes is a unit. */
  lemma CutIsUnit(codec: CodecId, data: seq<byte>, k: nat)
    requires k < |data| && Code3(data, k)
    ensures Units(codec, Cut(codec, data, k))
  {
    hide First, NalType, Code3;
    Room(data, k);
    var end := First(data, k + 3);
    if end > k + 3 {
      var b := data[k..end];
      CodeInside(data, k, end, 0);
      assert b[3] == data[k + 3];
      forall i | 0 < i < |b| ensures !Code3(b, i) {
        CodeInside(data, k, end, i);
      }
    }
  }

  lemma UnitsAppend(codec: CodecId, a: seq<Nal>, b: seq<Nal>)
    requires Units(codec, a) && Units(codec, b)
    ensures Units(codec, a + b)
  {
    hide Unit;
  }

  lemma {:induction false} SplitUnits(codec: CodecId, data: seq<byte>, i: nat)
    requires i <= |data|
    ensures Units(codec, Split(codec, data, i))
    decreases |data| - i
  {
    hide First, Code3, Cut, Unit;
    var k := First(data, i);
    if k < |data| {
      Room(data, k);
      CutIsUnit(codec, data, k);
      SplitUnits(codec, data, First(data, k + 3));
      UnitsAppend(codec, Cut(codec, data, k), Split(codec, data, First(data, k + 3)));
    }
  }

  lemma Room(data: seq<byte>, k: nat)
    requires Code3(data, k)
    ensures k + 3 <= |data| && !Code3(data, k + 1) && !Code3(data, k + 2)
  {
  }

  /** From `i` on no start code is followed at once by another or by the end. */
  ghost predicate NoEmptyNal(data: seq<byte>, i: nat) {
    forall k :: i <= k < |data| && Code3(data, k) ==> k + 3 < |data| && !Code3(data, k + 3)
  }

  lemma {:induction false} JoinCons(nal: Nal, rest: seq<Nal>)
    ensures Join([nal] + rest) == nal.bytes + Join(rest)
  {
    assert ([nal] + rest)[1..] == rest;
  }

  /** A start code beyond the first one is at or after the end of the first unit. */
  lemma NextIsBeyond(data: seq<byte>, i: nat, j: nat)
    requires i <= j < |data| && Code3(data, j) && First(data, i) + 3 <= |data|
    ensures j == First(data, i) || j >= First(data, First(data, i) + 3)
  {
    hide First;
    Room(data, First(data, i));
  }

  /** Whether a start code is followed by a unit, and what that says about the rest. */
  lemma NoEmptyStep(data: seq<byte>, i: nat)
    requires i <= |data| && First(data, i) < |data|
    ensures First(data, i) + 3 <= |data|
    ensures var k := First(data, i);
            var end := First(data, k + 3);
            NoEmptyNal(data, i) <==> end > k + 3 && NoEmptyNal(data, end)
  {
    hide First;
    var k := First(data, i);
    Room(data, k);
    var end := First(data, k + 3);
    if end > k + 3 && NoEmptyNal(data, end) {
      hide Code3;
      forall j | i <= j < |data| && Code3(data, j) ensures j + 3 < |data| && !Code3(data, j + 3) {
        NextIsBeyond(data, i, j);
      }
    }
  }

  lemma JoinCut(codec: CodecId, data: seq<byte>, k: nat, rest: seq<Nal>)
    requires k + 3 <= |data|
    ensures var end := First(data, k + 3);
            Join(Cut(codec, data, k) + rest) == (if end > k + 3 then data[k..end] else []) + Join(rest)
  {
    hide First, NalType, Join;
    var end := First(data, k + 3);
    if end > k + 3 {
      JoinCons(Nal(NalType(codec, data[k + 3]), data[k..end]), rest);
    } else {
      assert [] + rest == rest;
    }
  }

  /** The units of the data, concatenated, are the data from the first start code on exactly when
      no unit is empty; otherwise they are shorter. */
  lemma {:induction false} SplitCovers(codec: CodecId, data: seq<byte>, i: nat)
    requires i <= |data|
    ensures |Join(Split(codec, data, i))| <= |data| - First(data, i)
    ensures Join(Split(codec, data, i)) == data[First(data, i)..] <==> NoEmptyNal(data, i)
    decreases |data| - i
  {
    hide Code3, First, NoEmptyNal, NalType, Join, Cut;
    var k := First(data, i);
    if k == |data| {
      Nothing(data, i);
      JoinNone();
    } else {
      NoEmptyStep(data, i);
      var end := First(data, k + 3);
      SplitCovers(codec, data, end);
      FirstAgain(data, k + 3);
      JoinCut(codec, data, k, Split(codec, data, end));
      Covers(data, k, end, Join(Split(codec, data, end)));
    }
  }

  lemma Covers(data: seq<byte>, k: nat, end: nat, rest: seq<byte>)
    requires k + 3 <= end <= |data| && |rest| <= |data| - end
    ensures var all := (if end > k + 3 then data[k..end] else []) + rest;
            all == data[k..] <==> end > k + 3 && rest == data[end..]
  {
    if end > k + 3 {
      assert data[k..] == data[k..end] + data[end..];
      Cancel(data[k..end], rest, data[end..]);
    }
  }

  lemma JoinNone()
    ensures Join([]) == []
  {
  }

  lemma Cancel(head: seq<byte>, a: seq<byte>, b: seq<byte>)
    ensures head + a == head + b <==> a == b
  {
    if head + a == head + b {
      assert a == (head + a)[|head|..];
      assert b == (head + b)[|head|..];
    }
  }

  lemma Nothing(data: seq<byte>, i: nat)
    requires i <= |data| && First(data, i) == |data|
    ensures NoEmptyNal(data, i)
  {
  }

  lemma FirstAgain(data: seq<byte>, i: nat)
    requires i <= |data|
    ensures First(data, First(data, i)) == First(data, i)
  {
  }

  // ---- units put before other data ----

  /** The search result is the only position with its property. */
  lemma {:induction false} FirstIs(data: seq<byte>, i: nat, k: nat)
    requires i <= k <= |data| && (k == |data| || Code3(data, k))
    requires forall j :: i <= j < k ==> !Code3(data, j)
    ensures First(data, i) == k
    decreases k - i
  {
    hide Code3;
    if i < k {
      FirstSkips(data, i);
      FirstIs(data, i + 1, k);
    } else {
      FirstHere(data, i);
    }
  }

  lemma FirstSkips(data: seq<byte>, i: nat)
    requires i < |data| && !Code3(data, i)
    ensures First(data, i) == First(data, i + 1)
  {
  }

  lemma FirstHere(data: seq<byte>, i: nat)
    requires i <= |data| && (i == |data| || Code3(data, i))
    ensures First(data, i) == i
  {
  }

  /** Splitting only looks at what lies ahead. */
  lemma {:induction false} FirstShift(data: seq<byte>, c: nat, tail: seq<byte>, i: nat)
    requires c <= |data| && data[c..] == tail && i <= |tail|
    ensures First(data, c + i) == c + First(tail, i)
  {
    hide First;
    var k := First(tail, i);
    assert forall j :: 0 <= j < |tail| ==> data[c + j] == tail[j];
    forall j | c + i <= j < c + k ensures !Code3(data, j) {
      assert !Code3(tail, j - c);
    }
    FirstIs(data, c + i, c + k);
  }

  lemma CutShift(codec: CodecId, data: seq<byte>, c: nat, tail: seq<byte>, k: nat)
    requires c <= |data| && data[c..] == tail && k + 3 <= |tail|
    requires First(data, c + k + 3) == c + First(tail, k + 3)
    ensures Cut(codec, data, c + k) == Cut(codec, tail, k)
  {
    hide First, NalType;
    var end := First(tail, k + 3);
    Within(data, c, tail, k, end);
  }

  lemma Within(data: seq<byte>, c: nat, tail: seq<byte>, i: nat, j: nat)
    requires c <= |data| && data[c..] == tail && i <= j <= |tail|
    ensures data[c + i..c + j] == tail[i..j]
    ensures i + 3 < |tail| ==> data[c + i + 3] == tail[i + 3]
  {
    assert data[c..][i..j] == data[c + i..c + j];
  }

  lemma {:induction false} SplitShift(codec: CodecId, data: seq<byte>, c: nat, tail: seq<byte>, i: nat)
    requires c <= |data| && data[c..] == tail && i <= |tail|
    ensures Split(codec, data, c + i) == Split(codec, tail, i)
    decreases |tail| - i
  {
    hide Code3, First, Cut, Split;
    FirstShift(data, c, tail, i);
    SplitFromFirst(codec, tail, i);
    SplitFromFirst(codec, data, c + i);
    var k := First(tail, i);
    if k == |tail| {
      SplitEnd(codec, tail);
      SplitEnd(codec, data);
    } else {
      Room(tail, k);
      FirstShift(data, c, tail, k + 3);
      CutShift(codec, data, c, tail, k);
      SplitCons(codec, tail, k);
      SplitCons(codec, data, c + k);
      SplitShift(codec, data, c, tail, First(tail, k + 3));
    }
  }

  lemma SplitEnd(codec: CodecId, data: seq<byte>)
    ensures Split(codec, data, |data|) == []
  {
  }

  lemma SplitCons(codec: CodecId, data: seq<byte>, k: nat)
    requires k < |data| && First(data, k) == k && k + 3 <= |data|
    ensures Split(codec, data, k) == Cut(codec, data, k) + Split(codec, data, First(data, k + 3))
  {
    hide First, Cut;
  }

  /** A three- or four-byte start code, or nothing at all. */
  predicate StartsWithCode(data: seq<byte>) {
    data == [] || Code3(data, 0) || (Code3(data, 1) && data[0] == 0)
  }

  /** A unit is found whole when it is followed by a start code; a leading zero byte of that
      code counts as its last byte. */
  lemma UnitEnds(codec: CodecId, data: seq<byte>, i: nat, nal: Nal, rest: seq<byte>)
    requires Unit(codec, nal) && StartsWithCode(rest) && i <= |data| && data[i..] == nal.bytes + rest
    ensures First(data, i) == i && i + 3 < |data|
    ensures First(data, i + 3) == First(data, i + |nal.bytes|) >= i + |nal.bytes|
    ensures data[i + 3] == nal.bytes[3]
  {
    hide First;
    var end := i + |nal.bytes|;
    assert forall j :: 0 <= j < |nal.bytes| + |rest| ==> data[i + j] == (nal.bytes + rest)[j];
    FirstIs(data, i, i);
    var stop := First(data, end);
    forall j | i + 3 <= j < end ensures !Code3(data, j) {
      assert !Code3(nal.bytes, j - i);
    }
    FirstIs(data, i + 3, stop);
  }

  /** The search that starts at the end of a unit cuts the same rest as one that starts at the
      next code. */
  lemma SplitFromFirst(codec: CodecId, data: seq<byte>, i: nat)
    requires i <= |data|
    ensures Split(codec, data, First(data, i)) == Split(codec, data, i)
  {
    FirstAgain(data, i);
    hide First, Cut;
  }

  lemma {:induction false} KindsCons(nal: Nal, rest: seq<Nal>)
    ensures Kinds([nal] + rest) == [nal.kind] + Kinds(rest)
  {
    assert ([nal] + rest)[1..] == rest;
  }

  /** One turn of the splitting loop when it stands at a start code. */
  lemma KindsHere(codec: CodecId, data: seq<byte>, i: nat, end: nat)
    requires i + 3 < end <= |data| && First(data, i) == i && First(data, i + 3) == end
    ensures Kinds(Split(codec, data, i)) == [NalType(codec, data[i + 3])] + Kinds(Split(codec, data, end))
  {
    hide First, NalType, Kinds;
    KindsCons(Nal(NalType(codec, data[i + 3]), data[i..end]), Split(codec, data, end));
  }

  lemma UnitKind(codec: CodecId, nal: Nal)
    requires Unit(codec, nal)
    ensures |nal.bytes| > 3 && nal.kind == NalType(codec, nal.bytes[3])
  {
  }

  lemma {:induction false} KindsThen(codec: CodecId, data: seq<byte>, i: nat, nal: Nal, rest: seq<byte>)
    requires Unit(codec, nal) && StartsWithCode(rest) && i <= |data| && data[i..] == nal.bytes + rest
    ensures i + |nal.bytes| <= |data|
    ensures Kinds(Split(codec, data, i)) == [nal.kind] + Kinds(Split(codec, data, i + |nal.bytes|))
  {
    hide First, NalType, Kinds, Unit, Split, StartsWithCode;
    UnitKind(codec, nal);
    UnitEnds(codec, data, i, nal, rest);
    assert |data[i..]| == |nal.bytes| + |rest|;
    var end := First(data, i + 3);
    KindsHere(codec, data, i, end);
    SplitFromFirst(codec, data, i + |nal.bytes|);
  }

  lemma JoinStartsWithCode(codec: CodecId, sets: seq<Nal>, raw: seq<byte>)
    requires Units(codec, sets) && StartsWithCode(raw)
    ensures StartsWithCode(Join(sets) + raw)
  {
    if sets == [] {
      assert Join(sets) + raw == raw;
    } else {
      var all := Join(sets) + raw;
      assert Unit(codec, sets[0]);
      assert all[0] == sets[0].bytes[0] && all[1] == sets[0].bytes[1] && all[2] == sets[0].bytes[2];
    }
  }

  lemma {:induction false} JoinHead(sets: seq<Nal>, raw: seq<byte>)
    requires sets != []
    ensures Join(sets) + raw == sets[0].bytes + (Join(sets[1..]) + raw)
  {
  }

  lemma {:induction false} KindsOfJoin(codec: CodecId, data: seq<byte>, i: nat, sets: seq<Nal>, raw: seq<byte>)
    requires Units(codec, sets) && StartsWithCode(raw) && i <= |data| && data[i..] == Join(sets) + raw
    ensures Kinds(Split(codec, data, i)) == Kinds(sets) + Kinds(Split(codec, raw, 0))
    decreases |sets|
  {
    hide First, Code3, NalType, Split, StartsWithCode, Join, Kinds;
    if sets == [] {
      JoinNone();
      assert Join(sets) + raw == raw;
      SplitShift(codec, data, i, raw, 0);
      KindsNone(codec, raw);
    } else {
      var n := |sets[0].bytes|;
      JoinHead(sets, raw);
      var tail := Join(sets[1..]) + raw;
      JoinStartsWithCode(codec, sets[1..], raw);
      KindsThen(codec, data, i, sets[0], tail);
      assert data[i + n..] == data[i..][n..] == tail;
      KindsOfJoin(codec, data, i + n, sets[1..], raw);
      KindsCons(sets[0], sets[1..]);
      assert sets == [sets[0]] + sets[1..];
      Regroup([sets[0].kind], Kinds(sets[1..]), Kinds(Split(codec, raw, 0)));
    }
  }

  lemma KindsNone(codec: CodecId, raw: seq<byte>)
    ensures Kinds([]) + Kinds(Split(codec, raw, 0)) == Kinds(Split(codec, raw, 0))
  {
  }

  /** If a frame begins with a start code, the unit types of the frame with parameter sets before
      it are those of the sets followed by those of the frame. */
  lemma InjectedKinds(codec: CodecId, sets: seq<Nal>, raw: seq<byte>)
    requires Units(codec, sets) && StartsWithCode(raw)
    ensures Kinds(Split(codec, Join(sets) + raw, 0)) == Kinds(sets) + Kinds(Split(codec, raw, 0))
  {
    var data := Join(sets) + raw;
    assert data[0..] == data;
    KindsOfJoin(codec, data, 0, sets, raw);
  }

  // ---- the cache ----

  ghost predicate CacheInv(codec: CodecId, sets: seq<Nal>) {
    Units(codec, sets) && forall i :: 0 <= i < |sets| ==> IsParamSet(codec, sets[i].kind)
  }

  lemma {:induction false} ParamSetsInv(codec: CodecId, nals: seq<Nal>)
    requires Units(codec, nals)
    ensures CacheInv(codec, ParamSets(codec, nals))
    ensures ParamSets(codec, nals) != [] <==> exists i :: 0 <= i < |nals| && IsParamSet(codec, nals[i].kind)
  {
    hide Unit, IsParamSet;
    if nals != [] {
      ParamSetsInv(codec, nals[1..]);
      var rest := ParamSets(codec, nals[1..]);
      assert !IsParamSet(codec, nals[0].kind) ==> ParamSets(codec, nals) == rest;
      forall i | 0 <= i < |nals| && IsParamSet(codec, nals[i].kind) ensures ParamSets(codec, nals) != [] {
        assert i > 0 ==> nals[1..][i - 1] == nals[i];
      }
    }
  }

  /** Whatever follows a cached set, the first unit of the result has its type. */
  lemma FirstUnitStays(codec: CodecId, nal: Nal, rest: seq<byte>)
    requires Unit(codec, nal) && IsParamSet(codec, nal.kind)
    ensures var nals := Split(codec, nal.bytes + rest, 0); nals != [] && nals[0].kind == nal.kind
  {
    var data := nal.bytes + rest;
    FirstHere(data, 0);
    assert data[3] == nal.bytes[3] != 0;
    FirstSkips(data, 3);
  }

  /** Any frame with a non-empty cache before it carries a parameter set. */
  lemma InjectedHasParams(codec: CodecId, sets: seq<Nal>, raw: seq<byte>)
    requires CacheInv(codec, sets) && sets != []
    ensures HasParams(codec, Join(sets) + raw)
  {
    hide Split, Join, IsParamSet, Unit;
    JoinHead(sets, raw);
    FirstUnitStays(codec, sets[0], Join(sets[1..]) + raw);
  }

  /** `keyframe_data`: what is sent and the new cache. */
  function Inject(codec: CodecId, sets: seq<Nal>, packet: Packet): (seq<byte>, seq<Nal>) {
    if !packet.key then (packet.data, sets)
    else
      var found := ParamSets(codec, Split(codec, packet.data, 0));
      if sets == [] then (packet.data, found)
      else if found == [] then (Join(sets) + packet.data, sets)
      else (packet.data, sets)
  }

  /** The parameter sets of a list of units are all there are in it, in their order. */
  lemma {:induction false} ParamSetsAre(codec: CodecId, a: seq<Nal>, nal: Nal, b: seq<Nal>)
    ensures ParamSets(codec, a + [nal] + b)
         == ParamSets(codec, a) + (if IsParamSet(codec, nal.kind) then [nal] else []) + ParamSets(codec, b)
    ensures ParamSets(codec, []) == []
    decreases |a|
  {
    hide IsParamSet;
    var all := a + [nal] + b;
    if a == [] {
      assert all[0] == nal && all[1..] == b;
      var own := if IsParamSet(codec, nal.kind) then [nal] else [];
      assert [] + own == own;
    } else {
      assert all[0] == a[0] && all[1..] == a[1..] + [nal] + b;
      ParamSetsAre(codec, a[1..], nal, b);
      var head := if IsParamSet(codec, a[0].kind) then [a[0]] else [];
      var mine := if IsParamSet(codec, nal.kind) then [nal] else [];
      Regroup(head, ParamSets(codec, a[1..]), mine);
      Regroup(head, ParamSets(codec, a[1..]) + mine, ParamSets(codec, b));
    }
  }

  lemma FoundIffHasParams(codec: CodecId, data: seq<byte>)
    ensures CacheInv(codec, ParamSets(codec, Split(codec, data, 0)))
    ensures ParamSets(codec, Split(codec, data, 0)) != [] <==> HasParams(codec, data)
  {
    hide Split, Units;
    SplitUnits(codec, data, 0);
    ParamSetsInv(codec, Split(codec, data, 0));
  }

  /** The cache after a run of packets from a new encoder. */
  function CacheAfter(codec: CodecId, packets: seq<Packet>): seq<Nal> {
    if packets == [] then []
    else Inject(codec, CacheAfter(codec, packets[..|packets| - 1]), packets[|packets| - 1]).1
  }

  /** What is sent for packet `n` of a run. */
  function Output(codec: CodecId, packets: seq<Packet>, n: nat): seq<byte>
    requires n < |packets|
  {
    Inject(codec, CacheAfter(codec, packets[..n]), packets[n]).0
  }

  predicate Carries(codec: CodecId, packet: Packet) {
    packet.key && HasParams(codec, packet.data)
  }

  /** The first packet of a run that carries parameter sets, or the length of the run. */
  function FirstCarrier(codec: CodecId, packets: seq<Packet>): (m: nat)
    ensures m <= |packets|
    ensures forall i :: 0 <= i < m ==> !Carries(codec, packets[i])
    ensures m < |packets| ==> Carries(codec, packets[m])
  {
    if packets == [] then 0
    else
      var n := |packets| - 1;
      var m := FirstCarrier(codec, packets[..n]);
      if m < n || Carries(codec, packets[n]) then m else |packets|
  }

  function SetsOf(codec: CodecId, packet: Packet): seq<Nal> {
    ParamSets(codec, Split(codec, packet.data, 0))
  }

  /** The cache holds the parameter sets of the first key frame that carried any. */
  lemma {:induction false} CacheIsFirst(codec: CodecId, packets: seq<Packet>)
    ensures CacheInv(codec, CacheAfter(codec, packets))
    ensures var m := FirstCarrier(codec, packets);
            CacheAfter(codec, packets) == if m < |packets| then SetsOf(codec, packets[m]) else []
    ensures CacheAfter(codec, packets) != [] <==> FirstCarrier(codec, packets) < |packets|
    decreases |packets|
  {
    hide CacheInv, HasParams, SetsOf, Inject, Carries;
    if packets == [] {
      EmptyCache(codec);
    } else {
      var n := |packets| - 1;
      CacheIsFirst(codec, packets[..n]);
      CacheStep(codec, packets);
    }
  }

  lemma EmptyCache(codec: CodecId)
    ensures CacheInv(codec, [])
  {
  }

  lemma CacheStep(codec: CodecId, packets: seq<Packet>)
    requires packets != []
    ensures var n := |packets| - 1;
            var before := CacheAfter(codec, packets[..n]);
            CacheAfter(codec, packets) ==
              if before == [] && Carries(codec, packets[n]) then SetsOf(codec, packets[n]) else before
    ensures Carries(codec, packets[|packets| - 1]) ==> SetsOf(codec, packets[|packets| - 1]) != []
    ensures CacheInv(codec, SetsOf(codec, packets[|packets| - 1]))
  {
    hide Split, ParamSets, HasParams, Join, CacheInv;
    FoundIffHasParams(codec, packets[|packets| - 1].data);
  }

  /** From the first key frame with parameter sets on, every key frame is sent with some. */
  lemma EveryKeyframeCarries(codec: CodecId, packets: seq<Packet>, m: nat, n: nat)
    requires m <= n < |packets| && Carries(codec, packets[m]) && packets[n].key
    ensures HasParams(codec, Output(codec, packets, n))
  {
    hide Split, ParamSets, CacheInv, HasParams, Join, CacheAfter, FirstCarrier;
    CacheIsFirst(codec, packets[..n]);
    FoundIffHasParams(codec, packets[n].data);
    if m < n {
      assert packets[..n][m] == packets[m];
      InjectedHasParams(codec, CacheAfter(codec, packets[..n]), packets[n].data);
    }
  }

  /** A packet is sent as it is, or, exactly when it is a key frame without parameter sets after
      one that had some, with the sets of the first such frame before it. */
  lemma OutputIs(codec: CodecId, packets: seq<Packet>, n: nat)
    requires n < |packets|
    ensures var m := FirstCarrier(codec, packets[..n]);
            Output(codec, packets, n) ==
              if m < n && packets[n].key && !HasParams(codec, packets[n].data)
              then Join(SetsOf(codec, packets[m])) + packets[n].data
              else packets[n].data
  {
    hide Split, ParamSets, CacheInv, HasParams, Join, CacheAfter, FirstCarrier;
    CacheIsFirst(codec, packets[..n]);
    FoundIffHasParams(codec, packets[n].data);
    var m := FirstCarrier(codec, packets[..n]);
    assert m < n ==> packets[..n][m] == packets[m];
  }

  // ---- the encoder ----

  class FfmpegEncoder {
    const codec: CodecId
    var paramSets: seq<Nal>

    constructor (codec: CodecId)
      ensures this.codec == codec && paramSets == []
    {
      this.codec := codec;
      paramSets := [];
    }

    static method SplitAnnexb(codec: CodecId, data: seq<byte>) returns (out: seq<Nal>)
      ensures out == Split(codec, data, 0)
    {
      hide NalType, Split, First, Code3;
      out := [];
      var i := 0;
      while i + 3 <= |data|
        invariant i <= |data|
        invariant out + Split(codec, data, i) == Split(codec, data, 0)
        decreases |data| - i
      {
        if Code3(data, i) {
          var start := i + 3;
          var j := start;
          while j + 3 <= |data|
            invariant start <= j <= |data| && First(data, j) == First(data, start)
          {
            if Code3(data, j) {
              break;
            }
            FirstSkips(data, j);
            j := j + 1;
          }
          if j + 3 > |data| {
            NoCodeLeft(data, j);
            j := |data|;
          } else {
            FirstHere(data, j);
          }
          SplitAtCode(codec, data, i, j);
          Regroup(out, Cut(codec, data, i), Split(codec, data, j));
          if j > start {
            out := out + [Nal(NalType(codec, data[start]), data[i..j])];
          } else {
            assert out + [] == out;
          }
          i := j;
        } else {
          SplitSkips(codec, data, i);
          i := i + 1;
        }
      }
      NoneLeft(codec, data, i);
      assert out + [] == out;
    }

    /** `keyframe_data`. */
    method KeyframeData(packet: Packet) returns (out: seq<byte>)
      modifies this
      ensures (out, paramSets) == Inject(codec, old(paramSets), packet)
    {
      hide Split;
      var raw := packet.data;
      if !packet.key {
        return raw;
      }
      var nals := SplitAnnexb(codec, raw);
      var found := Filter(codec, nals);
      var hasParam := found != [];
      if paramSets == [] && hasParam {
        paramSets := found;
        return raw;
      }
      if paramSets != [] && !hasParam {
        out := [];
        for i := 0 to |paramSets|
          invariant out + Join(paramSets[i..]) == Join(paramSets)
        {
          assert paramSets[i..][0] == paramSets[i] && paramSets[i..][1..] == paramSets[i + 1..];
          out := out + paramSets[i].bytes;
        }
        assert paramSets[|paramSets|..] == [] && out + [] == out;
        return out + raw;
      }
      return raw;
    }

    static method Filter(codec: CodecId, nals: seq<Nal>) returns (found: seq<Nal>)
      ensures found == ParamSets(codec, nals)
    {
      hide IsParamSet;
      found := [];
      for i := 0 to |nals|
        invariant found + ParamSets(codec, nals[i..]) == ParamSets(codec, nals)
      {
        assert nals[i..][0] == nals[i] && nals[i..][1..] == nals[i + 1..];
        Regroup(found, if IsParamSet(codec, nals[i].kind) then [nals[i]] else [], ParamSets(codec, nals[i + 1..]));
        assert found + [] == found;
        if IsParamSet(codec, nals[i].kind) {
          found := found + [nals[i]];
        }
      }
      assert nals[|nals|..] == [] && found + [] == found;
    }
  }

  lemma SplitAtCode(codec: CodecId, data: seq<byte>, i: nat, end: nat)
    requires i < |data| && Code3(data, i) && i + 3 <= |data| && end == First(data, i + 3)
    ensures Split(codec, data, i) == Cut(codec, data, i) + Split(codec, data, end)
  {
    hide Cut, First, Code3;
    FirstHere(data, i);
  }

  lemma NoCodeLeft(data: seq<byte>, j: nat)
    requires j <= |data| < j + 3
    ensures First(data, j) == |data|
  {
  }

  lemma NoneLeft(codec: CodecId, data: seq<byte>, i: nat)
    requires i <= |data| < i + 3
    ensures Split(codec, data, i) == []
  {
  }

  lemma SplitSkips(codec: CodecId, data: seq<byte>, i: nat)
    requires i < |data| && !Code3(data, i)
    ensures Split(codec, data, i) == Split(codec, data, i + 1)
  {
    FirstSkips(data, i);
  }
}
