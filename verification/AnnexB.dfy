/** Annex B byte streams (Annex B of ITU-T H.264): cutting them into NAL units for MP4 files. */
module AnnexB {
  import opened Bytes
  import opened StartCodes

  /** 00 00 00 01 at `i`. */
  predicate Code4(data: seq<byte>, i: nat) {
    i + 3 < |data| && data[i] == 0 && data[i + 1] == 0 && data[i + 2] == 0 && data[i + 3] == 1
  }

  /** The first position from `i` on with a start code of either length, or the end of the data. */
  function NextCode(data: seq<byte>, i: nat): (k: nat)
    ensures i <= k <= |data| || k == |data| < i
    ensures k < |data| ==> Code3(data, k) || Code4(data, k)
    ensures forall j :: i <= j < k ==> !Code3(data, j) && !Code4(data, j)
    decreases |data| - i
  {
    if i + 2 >= |data| then |data|
    else if Code3(data, i) || Code4(data, i) then i
    else NextCode(data, i + 1)
  }

  /** What is cut from position `pos` on. */
  function Nalus(data: seq<byte>, pos: nat): seq<seq<byte>>
    decreases |data| - pos
  {
    if pos + 3 >= |data| then []
    else
      var sc := NextCode(data, pos);
      if sc == |data| then []
      else
        var start := sc + if Code4(data, sc) then 4 else 3;
        if start >= |data| then []
        else
          var end := NextCode(data, start + 1);
          [data[start..end]] + Nalus(data, end)
  }

  // ---- joining ----

  function Code(long: bool): seq<byte> {
    if long then [0, 0, 0, 1] else [0, 0, 1]
  }

  /** The stream of `nals`, each after a start code of the given length. */
  function Join(nals: seq<seq<byte>>, long: seq<bool>): seq<byte>
    requires |nals| == |long|
  {
    if nals == [] then [] else Code(long[0]) + nals[0] + Join(nals[1..], long[1..])
  }

  /** A unit that comes back whatever follows it. */
  predicate Clean(nal: seq<byte>) {
    nal != [] && nal[|nal| - 1] != 0 && forall i :: 0 <= i < |nal| ==> !Code3(nal, i)
  }

  /** The first unit comes back: it is not empty, no start code begins inside it, and it does not
      end in a zero that a three-byte start code behind it would take for its own. */
  predicate HeadSurvives(nals: seq<seq<byte>>, long: seq<bool>)
    requires |nals| == |long| && nals != []
  {
    var nal := nals[0];
    && nal != []
    && (forall j :: 1 <= j < |nal| ==> !Code3(nal, j))
    && (|nal| >= 2 && nal[|nal| - 1] == 0 ==> |nals| == 1 || long[1])
  }

  predicate AllSurvive(nals: seq<seq<byte>>, long: seq<bool>)
    requires |nals| == |long|
  {
    forall i :: 0 <= i < |nals| ==> HeadSurvives(nals[i..], long[i..])
  }

  /** A joined stream begins with a start code that is recognised with its length. */
  lemma CodeRecognised(data: seq<byte>, pos: nat, long: bool, rest: seq<byte>)
    requires pos <= |data| && data[pos..] == Code(long) + rest
    ensures NextCode(data, pos) == pos && pos < |data| && (Code4(data, pos) <==> long)
  {
    var tail := data[pos..];
    assert forall k :: 0 <= k < |tail| ==> data[pos + k] == tail[k];
    assert tail[0] == 0 && tail[1] == 0 && tail[2] == if long then 0 else 1;
    assert long ==> tail[3] == 1;
  }

  /** The bytes around the end of the first unit. */
  lemma Around(data: seq<byte>, start: nat, nals: seq<seq<byte>>, long: seq<bool>)
    requires |nals| == |long| && nals != [] && start <= |data| && data[start..] == nals[0] + Join(nals[1..], long[1..])
    ensures var end := start + |nals[0]|;
            && end <= |data| && (forall k :: 0 <= k < |nals[0]| ==> data[start + k] == nals[0][k])
            && (|nals| == 1 ==> end == |data|)
            && (|nals| > 1 ==>
                  end + 2 < |data| && data[end] == 0 && data[end + 1] == 0 && (data[end + 2] == 1 <==> !long[1]))
  {
    var nal, tail := nals[0], data[start..];
    assert forall k :: 0 <= k < |tail| ==> data[start + k] == tail[k];
    if |nals| > 1 {
      var rest := Join(nals[1..], long[1..]);
      JoinHead(nals[1..], long[1..]);
      assert |rest| >= 3 && rest[0] == 0 && rest[1] == 0 && (rest[2] == 1 <==> !long[1]);
      assert tail[|nal|] == rest[0] && tail[|nal| + 1] == rest[1] && tail[|nal| + 2] == rest[2];
      assert data[start + |nal|] == tail[|nal|] && data[start + (|nal| + 1)] == tail[|nal| + 1];
      assert data[start + (|nal| + 2)] == tail[|nal| + 2];
    }
  }

  /** No start code begins behind the first byte of a surviving unit, not even one that ends
      beyond it. */
  lemma NoCodeInside(data: seq<byte>, start: nat, nals: seq<seq<byte>>, long: seq<bool>, i: nat)
    requires |nals| == |long| && nals != [] && start <= |data| && data[start..] == nals[0] + Join(nals[1..], long[1..])
    requires HeadSurvives(nals, long) && start + 1 <= i < start + |nals[0]|
    ensures !Code3(data, i) && !Code4(data, i)
  {
    Around(data, start, nals, long);
    var nal, j := nals[0], i - start;
    assert data[start + j] == nal[j];
    assert j + 1 < |nal| ==> data[start + (j + 1)] == nal[j + 1];
    assert j + 2 < |nal| ==> data[start + (j + 2)] == nal[j + 2];
    assert j + 3 < |nal| ==> data[start + (j + 3)] == nal[j + 3];
    assert !Code3(nal, j) && (j + 1 < |nal| ==> !Code3(nal, j + 1));
  }

  /** In or behind a unit that does not survive a start code begins too early. */
  lemma CodeInside(data: seq<byte>, start: nat, nals: seq<seq<byte>>, long: seq<bool>) returns (i: nat)
    requires |nals| == |long| && nals != [] && start <= |data| && data[start..] == nals[0] + Join(nals[1..], long[1..])
    requires !HeadSurvives(nals, long) && nals[0] != []
    ensures start + 1 <= i < start + |nals[0]| && i < |data| && (Code3(data, i) || Code4(data, i))
  {
    Around(data, start, nals, long);
    var nal := nals[0];
    if j :| 1 <= j < |nal| && Code3(nal, j) {
      i := start + j;
      assert data[start + j] == nal[j] && data[start + (j + 1)] == nal[j + 1] && data[start + (j + 2)] == nal[j + 2];
    } else {
      i := start + |nal| - 1;
      assert data[start + (|nal| - 1)] == nal[|nal| - 1];
    }
  }

  /** The search result is the only position with its property. */
  lemma {:induction false} NextCodeIs(data: seq<byte>, i: nat, k: nat)
    requires i <= k <= |data|
    requires forall j :: i <= j < k ==> !Code3(data, j) && !Code4(data, j)
    requires k == |data| || Code3(data, k) || Code4(data, k)
    ensures NextCode(data, i) == k
    decreases k - i
  {
    hide Code3, Code4;
    if i < k {
      Later(data, i);
      NextCodeIs(data, i + 1, k);
    }
  }

  lemma Later(data: seq<byte>, i: nat)
    requires i < |data| && !Code3(data, i) && !Code4(data, i)
    ensures NextCode(data, i) == NextCode(data, i + 1)
  {
  }

  lemma Slices(data: seq<byte>, start: nat, head: seq<byte>, tail: seq<byte>)
    requires start <= |data| && data[start..] == head + tail
    ensures start + |head| <= |data|
    ensures data[start..start + |head|] == head && data[start + |head|..] == tail
  {
    assert data[start..start + |head|] == data[start..][..|head|];
    assert data[start + |head|..] == data[start..][|head|..];
  }

  lemma {:induction false} EndOfNal(data: seq<byte>, start: nat, nals: seq<seq<byte>>, long: seq<bool>)
    requires |nals| == |long| && nals != [] && start <= |data| && data[start..] == nals[0] + Join(nals[1..], long[1..])
    requires HeadSurvives(nals, long)
    ensures start + |nals[0]| <= |data| && NextCode(data, start + 1) == start + |nals[0]| && nals[0] != []
  {
    NotEmpty(nals, long);
    hide HeadSurvives, Code3, Code4, NextCode;
    var end := start + |nals[0]|;
    Slices(data, start, nals[0], Join(nals[1..], long[1..]));
    forall i | start + 1 <= i < end ensures !Code3(data, i) && !Code4(data, i) {
      NoCodeInside(data, start, nals, long, i);
    }
    if |nals| > 1 {
      JoinHead(nals[1..], long[1..]);
      CodeAt(data, end, long[1], nals[1] + Join(nals[2..], long[2..]));
    }
    NextCodeIs(data, start + 1, end);
  }

  lemma NotEmpty(nals: seq<seq<byte>>, long: seq<bool>)
    requires |nals| == |long| && nals != [] && HeadSurvives(nals, long)
    ensures nals[0] != []
  {
  }

  lemma CodeAt(data: seq<byte>, pos: nat, long: bool, rest: seq<byte>)
    requires pos <= |data| && data[pos..] == Code(long) + rest
    ensures Code3(data, pos) || Code4(data, pos)
  {
    CodeRecognised(data, pos, long, rest);
  }

  /** One turn of the cutting loop that stands at a start code. */
  lemma CutHere(data: seq<byte>, pos: nat)
    requires pos + 2 < |data| && NextCode(data, pos) == pos
    ensures var start := pos + if Code4(data, pos) then 4 else 3;
            Nalus(data, pos) ==
              if start >= |data| then []
              else
                var end := NextCode(data, start + 1);
                [data[start..end]] + Nalus(data, end)
  {
    hide NextCode;
  }

  lemma JoinHead(nals: seq<seq<byte>>, long: seq<bool>)
    requires |nals| == |long| && nals != []
    ensures Join(nals, long) == Code(long[0]) + (nals[0] + Join(nals[1..], long[1..]))
  {
  }

  lemma NothingJoined(data: seq<byte>, pos: nat, long: seq<bool>)
    requires long == [] && pos <= |data| && data[pos..] == Join([], long)
    ensures Nalus(data, pos) == []
  {
  }

  /** A unit that does not survive is not what is cut. */
  lemma HeadLost(data: seq<byte>, pos: nat, nals: seq<seq<byte>>, long: seq<bool>)
    requires |nals| == |long| && nals != [] && pos <= |data| && data[pos..] == Join(nals, long)
    requires !HeadSurvives(nals, long)
    ensures Nalus(data, pos) != nals
  {
    hide NextCode, HeadSurvives, Nalus, Join, Code3;
    var nal, rest := nals[0], Join(nals[1..], long[1..]);
    var start := pos + |Code(long[0])|;
    JoinHead(nals, long);
    CodeRecognised(data, pos, long[0], nal + rest);
    Slices(data, pos, Code(long[0]), nal + rest);
    CutHere(data, pos);
    if start < |data| {
      var end := NextCode(data, start + 1);
      if nal != [] {
        var i := CodeInside(data, start, nals, long);
        Stops(data, start + 1, i);
      }
      assert |data[start..end]| != |nal|;
      assert ([data[start..end]] + Nalus(data, end))[0] == data[start..end];
    }
  }

  lemma Stops(data: seq<byte>, i: nat, k: nat)
    requires i <= k < |data| && (Code3(data, k) || Code4(data, k))
    ensures NextCode(data, i) <= k
  {
  }

  /** A surviving unit is cut off, and cutting goes on behind it. */
  lemma HeadCut(data: seq<byte>, pos: nat, nals: seq<seq<byte>>, long: seq<bool>) returns (next: nat)
    requires |nals| == |long| && nals != [] && pos <= |data| && data[pos..] == Join(nals, long)
    requires HeadSurvives(nals, long)
    ensures next <= |data| && data[next..] == Join(nals[1..], long[1..])
    ensures Nalus(data, pos) == [nals[0]] + Nalus(data, next)
  {
    hide NextCode, HeadSurvives, Nalus, Join, Code3;
    var nal, rest := nals[0], Join(nals[1..], long[1..]);
    var start := pos + |Code(long[0])|;
    JoinHead(nals, long);
    CodeRecognised(data, pos, long[0], nal + rest);
    Slices(data, pos, Code(long[0]), nal + rest);
    CutHere(data, pos);
    EndOfNal(data, start, nals, long);
    Slices(data, start, nal, rest);
    next := start + |nal|;
  }

  lemma SurviveSplit(nals: seq<seq<byte>>, long: seq<bool>)
    requires |nals| == |long| && nals != []
    ensures AllSurvive(nals, long) <==> HeadSurvives(nals, long) && AllSurvive(nals[1..], long[1..])
  {
    hide HeadSurvives;
    assert nals[0..] == nals && long[0..] == long;
    forall i | 0 <= i < |nals| - 1 ensures nals[1..][i..] == nals[i + 1..] && long[1..][i..] == long[i + 1..] {
    }
    if AllSurvive(nals[1..], long[1..]) && HeadSurvives(nals, long) {
      forall i | 0 <= i < |nals| ensures HeadSurvives(nals[i..], long[i..]) {
        if i > 0 {
          assert HeadSurvives(nals[1..][i - 1..], long[1..][i - 1..]);
        }
      }
    }
    if AllSurvive(nals, long) {
      forall i | 0 <= i < |nals| - 1 ensures HeadSurvives(nals[1..][i..], long[1..][i..]) {
        assert HeadSurvives(nals[i + 1..], long[i + 1..]);
      }
    }
  }

  /** Cutting inverts joining, from any position on, exactly when every unit survives. */
  lemma {:induction false} CutJoined(data: seq<byte>, pos: nat, nals: seq<seq<byte>>, long: seq<bool>)
    requires |nals| == |long| && pos <= |data| && data[pos..] == Join(nals, long)
    ensures Nalus(data, pos) == nals <==> AllSurvive(nals, long)
    decreases |nals|
  {
    hide NextCode, HeadSurvives, Code3, Code4, Nalus, Join;
    if nals == [] {
      NothingJoined(data, pos, long);
    } else {
      hide AllSurvive;
      SurviveSplit(nals, long);
      if HeadSurvives(nals, long) {
        var next := HeadCut(data, pos, nals, long);
        CutJoined(data, next, nals[1..], long[1..]);
        SameTail(nals, Nalus(data, next));
      } else {
        HeadLost(data, pos, nals, long);
      }
    }
  }

  lemma SameTail(nals: seq<seq<byte>>, rest: seq<seq<byte>>)
    requires nals != []
    ensures [nals[0]] + rest == nals <==> rest == nals[1..]
  {
    assert ([nals[0]] + rest)[1..] == rest;
    assert nals == [nals[0]] + nals[1..];
  }

  /** Joining NALs with a given mix of start codes and cutting the stream gives them back exactly
      when every one of them survives. */
  lemma SplitInvertsJoinIff(nals: seq<seq<byte>>, long: seq<bool>)
    requires |nals| == |long|
    ensures Nalus(Join(nals, long), 0) == nals <==> AllSurvive(nals, long)
  {
    hide Nalus, Join, AllSurvive;
    var data := Join(nals, long);
    assert data[0..] == data;
    CutJoined(data, 0, nals, long);
  }

  /** Clean NALs survive any mix of start codes. */
  lemma SplitInvertsJoin(nals: seq<seq<byte>>, long: seq<bool>)
    requires |nals| == |long| && forall i :: 0 <= i < |nals| ==> Clean(nals[i])
    ensures Nalus(Join(nals, long), 0) == nals
  {
    hide Nalus, Join, Code3;
    SplitInvertsJoinIff(nals, long);
    forall i | 0 <= i < |nals| ensures HeadSurvives(nals[i..], long[i..]) {
      assert nals[i..][0] == nals[i] && Clean(nals[i]);
    }
  }

  // ---- length-prefixed form ----

  /** Rust's `(n as u32).to_be_bytes()`. */
  function Be32(n: nat): (s: seq<byte>)
    ensures |s| == 4
  {
    var w := n % 0x1_0000_0000;
    [w / 256 / 256 / 256, w / 256 / 256 % 256, w / 256 % 256, w % 256]
  }

  function FromBe32(s: seq<byte>): nat
    requires |s| == 4
  {
    var a: nat, b: nat, c: nat, d: nat := s[0], s[1], s[2], s[3];
    ((a * 256 + b) * 256 + c) * 256 + d
  }

  lemma Be32RoundTrip(n: nat)
    requires n < 0x1_0000_0000
    ensures FromBe32(Be32(n)) == n
  {
    var c := n / 256;
    var b := c / 256;
    var a := b / 256;
    assert n == c * 256 + n % 256 && c == b * 256 + c % 256 && b == a * 256 + b % 256;
  }

  function Avcc(nals: seq<seq<byte>>): seq<byte> {
    if nals == [] then [] else Be32(|nals[0]|) + nals[0] + Avcc(nals[1..])
  }

  /** Reading four-byte lengths and that many bytes each. */
  function ReadAvcc(data: seq<byte>): Option<seq<seq<byte>>> {
    if data == [] then Some([])
    else if |data| < 4 then None
    else
      var n := FromBe32(data[..4]);
      if |data| < 4 + n then None
      else
        match ReadAvcc(data[4 + n..])
        case None => None
        case Some(rest) => Some([data[4..4 + n]] + rest)
  }

  lemma {:induction false} AvccRoundTrip(nals: seq<seq<byte>>)
    requires forall i :: 0 <= i < |nals| ==> |nals[i]| < 0x1_0000_0000
    ensures ReadAvcc(Avcc(nals)) == Some(nals)
  {
    if nals != [] {
      var n, data := |nals[0]|, Avcc(nals);
      Be32RoundTrip(n);
      assert data[..4] == Be32(n);
      assert data[4..4 + n] == nals[0] && data[4 + n..] == Avcc(nals[1..]);
      AvccRoundTrip(nals[1..]);
      assert nals == [nals[0]] + nals[1..];
    }
  }

  // ---- the loops ----

  /** The first start code from `i` on that the search loops find. */
  method FindCode(data: seq<byte>, i: nat) returns (k: nat)
    ensures k == NextCode(data, i)
  {
    k := i;
    while k + 2 < |data|
      invariant i <= k && NextCode(data, k) == NextCode(data, i)
    {
      if Code3(data, k) || Code4(data, k) {
        return;
      }
      k := k + 1;
    }
    k := |data|;
  }

  method AnnexbNalus(data: seq<byte>) returns (out: seq<seq<byte>>)
    ensures out == Nalus(data, 0)
  {
    hide NextCode, Code3, Code4, Nalus;
    out := [];
    var pos := 0;
    assert [] + Nalus(data, 0) == Nalus(data, 0);
    while pos + 3 < |data|
      invariant pos <= |data|
      invariant Nalus(data, 0) == out + Nalus(data, pos)
      decreases |data| - pos
    {
      NalusFrom(data, pos);
      assert out + [] == out;
      var sc := FindCode(data, pos);
      if sc == |data| {
        break;
      }
      var start := sc + if Code4(data, sc) then 4 else 3;
      if start >= |data| {
        break;
      }
      var end := FindCode(data, start + 1);
      assert out + ([data[start..end]] + Nalus(data, end)) == (out + [data[start..end]]) + Nalus(data, end);
      out := out + [data[start..end]];
      pos := end;
    }
    NalusFrom(data, pos);
    assert out + [] == out;
  }

  /** One turn of the cutting loop. */
  lemma NalusFrom(data: seq<byte>, pos: nat)
    ensures var sc := NextCode(data, pos);
            var start := sc + if Code4(data, sc) then 4 else 3;
            if pos + 3 >= |data| || sc == |data| || start >= |data| then Nalus(data, pos) == []
            else Nalus(data, pos) == [data[start..NextCode(data, start + 1)]] + Nalus(data, NextCode(data, start + 1))
  {
    hide NextCode, Code3, Code4;
  }

  lemma AvccAt(nals: seq<seq<byte>>, i: nat)
    requires i <= |nals|
    ensures Avcc(nals[i..]) == if i == |nals| then [] else (Be32(|nals[i]|) + nals[i]) + Avcc(nals[i + 1..])
  {
    hide Be32;
    if i < |nals| {
      assert nals[i..][0] == nals[i] && nals[i..][1..] == nals[i + 1..];
    }
  }

  /** Annex B to length-prefixed form; reading it back gives the NALs. */
  method AnnexbToAvcc(data: seq<byte>) returns (out: seq<byte>)
    ensures out == Avcc(Nalus(data, 0))
    ensures |data| < 0x1_0000_0000 ==> ReadAvcc(out) == Some(Nalus(data, 0))
  {
    hide NextCode, Code3, Code4, Nalus, Avcc, Be32;
    var nals := AnnexbNalus(data);
    out := [];
    for i := 0 to |nals|
      invariant out + Avcc(nals[i..]) == Avcc(nals)
    {
      AvccAt(nals, i);
      ghost var unit, more := Be32(|nals[i]|) + nals[i], Avcc(nals[i + 1..]);
      assert out + (unit + more) == (out + unit) + more;
      assert out + Be32(|nals[i]|) + nals[i] == out + unit;
      out := out + Be32(|nals[i]|) + nals[i];
    }
    AvccAt(nals, |nals|);
    assert out + [] == out;
    if |data| < 0x1_0000_0000 {
      NalusAreShort(data, 0);
      AvccRoundTrip(nals);
    }
  }

  lemma {:induction false} NalusAreShort(data: seq<byte>, pos: nat)
    ensures forall i :: 0 <= i < |Nalus(data, pos)| ==> |Nalus(data, pos)[i]| <= |data|
    decreases |data| - pos
  {
    if pos + 3 < |data| {
      var sc := NextCode(data, pos);
      if sc < |data| {
        var start := sc + if Code4(data, sc) then 4 else 3;
        if start < |data| {
          NalusAreShort(data, NextCode(data, start + 1));
        }
      }
    }
  }
}
