/** Host candidates for ICE: which interface addresses are offered and in which order. */
module Candidates {
  import opened Bytes

  datatype IpAddr =
    | V4(a: byte, b: byte, c: byte, d: byte)
    | V6(s0: u16, s1: u16, s2: u16, s3: u16, s4: u16, s5: u16, s6: u16, s7: u16)

  datatype Entry = Entry(name: string, ip: IpAddr)

  const VIRTUAL_PREFIXES: seq<string> := [
    "utun", "ipsec", "tun", "tap", "wg", "tailscale", "npcap", "docker", "podman", "br-", "veth", "vmnet",
    "vboxnet", "virbr", "llw", "awdl", "anpi", "bridge"
  ]

  const PHYSICAL_PREFIXES: seq<string> := [
    "en", "eth", "wlan", "wl", "wifi", "wi-fi", "ethernet", "local area connection"
  ]

  function Lower(name: string): string {
    seq(|name|, i requires 0 <= i < |name| => if 'A' <= name[i] <= 'Z' then (name[i] as int + 32) as char else name[i])
  }

  predicate HasPrefix(name: string, prefixes: seq<string>) {
    exists i :: 0 <= i < |prefixes| && prefixes[i] <= Lower(name)
  }

  /** Physical interfaces before unknown ones, tunnels and bridges last. */
  function Rank(name: string): (r: nat)
    ensures r <= 2
  {
    if HasPrefix(name, VIRTUAL_PREFIXES) then 2 else if HasPrefix(name, PHYSICAL_PREFIXES) then 0 else 1
  }

  /** Where names rank: every name with a prefix of a tunnel, bridge or container last, every one with
      a physical prefix first, whatever follows the prefix; any other name between the two. */
  lemma RankOfPrefix(i: nat, rest: string)
    ensures i < |VIRTUAL_PREFIXES| ==> Rank(VIRTUAL_PREFIXES[i] + rest) == 2
    ensures i < |PHYSICAL_PREFIXES| ==> Rank(PHYSICAL_PREFIXES[i] + rest) == 0
  {
    if i < |VIRTUAL_PREFIXES| {
      LowerPrefix(VIRTUAL_PREFIXES[i], rest);
    }
    if i < |PHYSICAL_PREFIXES| {
      LowerPrefix(PHYSICAL_PREFIXES[i], rest);
      forall v | 0 <= v < |VIRTUAL_PREFIXES| ensures !(VIRTUAL_PREFIXES[v] <= Lower(PHYSICAL_PREFIXES[i] + rest)) {
        TwoLetters(v, i);
        BothPrefixes(VIRTUAL_PREFIXES[v], PHYSICAL_PREFIXES[i], Lower(PHYSICAL_PREFIXES[i] + rest));
      }
    }
  }

  /** No prefix of one kind begins with the same two letters as one of the other kind. */
  lemma TwoLetters(v: nat, p: nat)
    requires v < |VIRTUAL_PREFIXES| && p < |PHYSICAL_PREFIXES|
    ensures |VIRTUAL_PREFIXES[v]| >= 2 && |PHYSICAL_PREFIXES[p]| >= 2
    ensures VIRTUAL_PREFIXES[v][0] != PHYSICAL_PREFIXES[p][0] || VIRTUAL_PREFIXES[v][1] != PHYSICAL_PREFIXES[p][1]
  {
  }

  lemma BothPrefixes(a: string, b: string, name: string)
    requires |a| >= 2 && |b| >= 2 && (a[0] != b[0] || a[1] != b[1])
    ensures !(a <= name && b <= name)
  {
  }

  lemma RankOtherwise(name: string)
    requires forall i :: 0 <= i < |VIRTUAL_PREFIXES| ==> !(VIRTUAL_PREFIXES[i] <= Lower(name))
    requires forall i :: 0 <= i < |PHYSICAL_PREFIXES| ==> !(PHYSICAL_PREFIXES[i] <= Lower(name))
    ensures Rank(name) == 1
  {
  }

  lemma LowerPrefix(p: string, rest: string)
    requires forall k :: 0 <= k < |p| ==> !('A' <= p[k] <= 'Z')
    ensures p <= Lower(p + rest)
  {
  }

  /** Upper and lower case make no difference. */
  lemma RankIgnoresCase(a: string, b: string)
    requires |a| == |b|
    requires forall i :: 0 <= i < |a| ==> a[i] == b[i] || ('a' <= a[i] <= 'z' && b[i] as int == a[i] as int - 32)
    ensures Rank(a) == Rank(b)
  {
    assert Lower(a) == Lower(b);
  }

  // ---- which addresses ----

  predicate UsableV4(ip: IpAddr)
    requires ip.V4?
  {
    && ip != V4(0, 0, 0, 0)
    && !(224 <= ip.a < 240)
    && ip != V4(255, 255, 255, 255)
    && !(ip.a == 169 && ip.b == 254)
    && ip.a != 127
    && !(ip.a == 198 && (ip.b == 18 || ip.b == 19))
  }

  /** The blocks of IPv4 that are not offered, by their first and last number. */
  lemma UsableBlocks(a: byte, b: byte, c: byte, d: byte)
    ensures var n := 0x100_0000 * a + 0x1_0000 * b + 0x100 * c + d;
            Usable(V4(a, b, c, d)) <==>
              && n != 0 && n != 0xffff_ffff                 // unspecified and broadcast
              && !(0x7f00_0000 <= n <= 0x7fff_ffff)         // 127.0.0.0/8
              && !(0xa9fe_0000 <= n <= 0xa9fe_ffff)         // 169.254.0.0/16
              && !(0xc612_0000 <= n <= 0xc613_ffff)         // 198.18.0.0/15
              && !(0xe000_0000 <= n <= 0xefff_ffff)         // 224.0.0.0/4
  {
  }

  /** Of IPv6 the unspecified and the loopback address, multicast and link-local blocks are not offered,
      and a mapped IPv4 address only when the plain one is. */
  lemma UsableV6Blocks(ip: IpAddr)
    requires ip.V6?
    ensures var small := ip.s0 == 0 && ip.s1 == 0 && ip.s2 == 0 && ip.s3 == 0 && ip.s4 == 0;
            Usable(ip) <==>
              && !(small && ip.s5 == 0 && ip.s6 == 0 && ip.s7 <= 1)   // :: and ::1
              && ip.s0 / 0x100 != 0xff                                // ff00::/8
              && ip.s0 / 0x40 != 0x3fa                                // fe80::/10
              && (small && ip.s5 == 0xffff ==>
                    Usable(V4(ip.s6 / 256, ip.s6 % 256, ip.s7 / 256, ip.s7 % 256)))
  {
  }

  /** `to_ipv4_mapped`. */
  function Mapped(ip: IpAddr): Option<IpAddr>
    requires ip.V6?
  {
    if ip.s0 == 0 && ip.s1 == 0 && ip.s2 == 0 && ip.s3 == 0 && ip.s4 == 0 && ip.s5 == 0xffff
    then Some(V4(ip.s6 / 256, ip.s6 % 256, ip.s7 / 256, ip.s7 % 256))
    else None
  }

  predicate Usable(ip: IpAddr) {
    match ip
    case V4(_, _, _, _) => UsableV4(ip)
    case V6(s0, _, _, _, _, _, _, _) =>
      && ip != V6(0, 0, 0, 0, 0, 0, 0, 0)
      && s0 < 0xff00
      && !(0xfe80 <= s0 < 0xfec0)
      && ip != V6(0, 0, 0, 0, 0, 0, 0, 1)
      && (Mapped(ip).Some? ==> UsableV4(Mapped(ip).value))
  }

  function MapV4(ip: IpAddr): IpAddr
    requires ip.V4?
  {
    V6(0, 0, 0, 0, 0, 0xffff, ip.a * 256 + ip.b, ip.c * 256 + ip.d)
  }

  /** An IPv4 address is judged the same when it comes mapped into IPv6. */
  lemma MappedAlike(ip: IpAddr)
    requires ip.V4?
    ensures Mapped(MapV4(ip)) == Some(ip) && (Usable(MapV4(ip)) <==> Usable(ip))
  {
  }

  // ---- the iterator chain ----

  datatype Item = Item(rank: nat, ip: IpAddr)

  /** Indices of the usable entries. */
  function UsableIndices(entries: seq<Entry>): (t: seq<nat>)
    ensures forall i :: 0 <= i < |t| ==> t[i] < |entries| && Usable(entries[t[i]].ip)
    ensures forall i, j :: 0 <= i < j < |t| ==> t[i] < t[j]
    ensures forall k :: 0 <= k < |entries| && Usable(entries[k].ip) ==> k in t
  {
    if entries == [] then []
    else
      var n := |entries| - 1;
      UsableIndices(entries[..n]) + if Usable(entries[n].ip) then [n] else []
  }

  ghost predicate Within(t: seq<nat>, n: nat) {
    forall i :: 0 <= i < |t| ==> t[i] < n
  }

  function ItemOf(e: Entry): Item {
    Item(Rank(e.name), e.ip)
  }

  /** The ranked items at some indices. */
  function Items(entries: seq<Entry>, t: seq<nat>): seq<Item>
    requires Within(t, |entries|)
  {
    seq(|t|, i requires 0 <= i < |t| => ItemOf(entries[t[i]]))
  }

  function OfRank(items: seq<Item>, r: nat): seq<Item> {
    if items == [] then [] else (if items[0].rank == r then [items[0]] else []) + OfRank(items[1..], r)
  }

  /** The stable sort by rank, for the three ranks there are. */
  function Sorted(items: seq<Item>): seq<Item> {
    OfRank(items, 0) + OfRank(items, 1) + OfRank(items, 2)
  }

  /** First occurrences, as the `seen` set leaves them. */
  function Dedupe(items: seq<Item>): seq<IpAddr> {
    if items == [] then []
    else
      var before := Dedupe(items[..|items| - 1]);
      var ip := items[|items| - 1].ip;
      if ip in before then before else before + [ip]
  }

  function OrderCandidates(entries: seq<Entry>): seq<IpAddr> {
    Dedupe(Sorted(Items(entries, UsableIndices(entries))))
  }

  // ---- the sort is the stable sort ----

  predicate ByRank(items: seq<Item>) {
    forall i, j :: 0 <= i < j < |items| ==> items[i].rank <= items[j].rank
  }

  predicate ThreeRanks(items: seq<Item>) {
    forall i :: 0 <= i < |items| ==> items[i].rank <= 2
  }

  lemma {:induction false} NoneBelow(items: seq<Item>, r: nat)
    requires forall i :: 0 <= i < |items| ==> items[i].rank > r
    ensures OfRank(items, r) == []
  {
    if items != [] {
      NoneBelow(items[1..], r);
    }
  }

  /** A list in rank order is its parts of equal rank in order, so there is only one stable sort. */
  lemma {:induction false} StableSortUnique(items: seq<Item>, out: seq<Item>)
    requires ByRank(out) && ThreeRanks(out)
    requires forall r :: 0 <= r <= 2 ==> OfRank(out, r) == OfRank(items, r)
    ensures out == Sorted(items)
  {
    Parts(out);
  }

  lemma OfRankHead(items: seq<Item>, r: nat)
    requires items != []
    ensures OfRank(items, r) == if items[0].rank == r then [items[0]] + OfRank(items[1..], r) else OfRank(items[1..], r)
  {
  }

  lemma HeadAbove(items: seq<Item>, r: nat)
    requires ByRank(items) && items != [] && items[0].rank > r
    ensures OfRank(items, r) == [] && OfRank(items[1..], r) == []
  {
    NoneBelow(items, r);
    NoneBelow(items[1..], r);
  }

  lemma {:induction false} Parts(out: seq<Item>)
    requires ByRank(out) && ThreeRanks(out)
    ensures out == Sorted(out)
  {
    hide OfRank;
    if out == [] {
      NoneBelow(out, 0);
      NoneBelow(out, 1);
      NoneBelow(out, 2);
    } else {
      Parts(out[1..]);
      PartsStep(out);
    }
  }

  lemma PartsStep(out: seq<Item>)
    requires ByRank(out) && ThreeRanks(out) && out != [] && out[1..] == Sorted(out[1..])
    ensures out == Sorted(out)
  {
    hide OfRank, Sorted;
    var head, rest := [out[0]], out[1..];
    var a, b, c := OfRank(rest, 0), OfRank(rest, 1), OfRank(rest, 2);
    SortedIs(rest);
    SortedIs(out);
    OfRankHead(out, 0);
    OfRankHead(out, 1);
    OfRankHead(out, 2);
    if out[0].rank > 0 {
      HeadAbove(out, 0);
    }
    if out[0].rank > 1 {
      HeadAbove(out, 1);
    }
    assert out[0].rank <= 2;
    hide ByRank, ThreeRanks;
    assert out == head + rest;
    HeadFirst(head, a, b, c);
  }

  lemma SortedIs(items: seq<Item>)
    ensures Sorted(items) == OfRank(items, 0) + OfRank(items, 1) + OfRank(items, 2)
  {
  }

  lemma HeadFirst(head: seq<Item>, a: seq<Item>, b: seq<Item>, c: seq<Item>)
    ensures head + (a + b + c) == (head + a) + b + c
    ensures a == [] ==> head + (a + b + c) == a + (head + b) + c
    ensures a == [] && b == [] ==> head + (a + b + c) == a + b + (head + c)
  {
  }

  lemma OfRankNone(r: nat)
    ensures OfRank([], r) == []
  {
  }

  lemma {:induction false} OfRankAppend(a: seq<Item>, b: seq<Item>, r: nat)
    ensures OfRank(a + b, r) == OfRank(a, r) + OfRank(b, r)
    decreases |a|
  {
    hide OfRank;
    if a == [] {
      OfRankNone(r);
      assert a + b == b && [] + OfRank(b, r) == OfRank(b, r);
    } else {
      assert (a + b)[0] == a[0] && (a + b)[1..] == a[1..] + b;
      OfRankHead(a, r);
      OfRankHead(a + b, r);
      OfRankAppend(a[1..], b, r);
      Regroup([a[0]], OfRank(a[1..], r), OfRank(b, r));
    }
  }

  lemma {:induction false} OfRankRank(items: seq<Item>, r: nat)
    ensures forall i :: 0 <= i < |OfRank(items, r)| ==> OfRank(items, r)[i].rank == r
  {
    if items != [] {
      OfRankRank(items[1..], r);
    }
  }

  lemma {:induction false} OfSameRank(items: seq<Item>, r: nat, q: nat)
    requires forall i :: 0 <= i < |items| ==> items[i].rank == r
    ensures OfRank(items, q) == if q == r then items else []
  {
    if items != [] {
      OfSameRank(items[1..], r, q);
    }
  }

  lemma SortedByRank(items: seq<Item>)
    ensures ByRank(Sorted(items))
  {
    hide OfRank;
    OfRankRank(items, 0);
    OfRankRank(items, 1);
    OfRankRank(items, 2);
  }

  /** Sorting puts the items in rank order and keeps the order within each rank. */
  lemma SortedIsStable(items: seq<Item>, q: nat)
    requires q <= 2
    ensures ByRank(Sorted(items)) && OfRank(Sorted(items), q) == OfRank(items, q)
  {
    SortedByRank(items);
    hide OfRank, ByRank;
    var a, b, c := OfRank(items, 0), OfRank(items, 1), OfRank(items, 2);
    OfRankRank(items, 0);
    OfRankRank(items, 1);
    OfRankRank(items, 2);
    OfRankAppend(a + b, c, q);
    OfRankAppend(a, b, q);
    OfSameRank(a, 0, q);
    OfSameRank(b, 1, q);
    OfSameRank(c, 2, q);
    assert OfRank(items, q) + [] == OfRank(items, q) && [] + OfRank(items, q) == OfRank(items, q);
  }

  // ---- the order of the result ----

  /** Entry `i` comes before entry `j`: lower rank, or the same rank and earlier. */
  predicate Before(entries: seq<Entry>, i: nat, j: nat)
    requires i < |entries| && j < |entries|
  {
    Rank(entries[i].name) < Rank(entries[j].name) || (Rank(entries[i].name) == Rank(entries[j].name) && i < j)
  }

  ghost predicate Increasing(entries: seq<Entry>, t: seq<nat>) {
    && Within(t, |entries|)
    && forall i, j :: 0 <= i < j < |t| ==> Before(entries, t[i], t[j])
  }

  function IndicesOf(entries: seq<Entry>, t: seq<nat>, r: nat): seq<nat>
    requires Within(t, |entries|)
  {
    if t == [] then []
    else (if Rank(entries[t[0]].name) == r then [t[0]] else []) + IndicesOf(entries, t[1..], r)
  }

  predicate Ascending(t: seq<nat>) {
    forall i, j :: 0 <= i < j < |t| ==> t[i] < t[j]
  }

  lemma {:induction false} IndicesAscend(entries: seq<Entry>, t: seq<nat>, r: nat, from: nat)
    requires Within(t, |entries|) && Ascending(t) && forall i :: 0 <= i < |t| ==> from <= t[i]
    ensures var u := IndicesOf(entries, t, r);
            && AllOfRank(entries, u, r) && forall i :: 0 <= i < |u| ==> from <= u[i]
  {
    hide Rank;
    if t != [] {
      var rest := IndicesOf(entries, t[1..], r);
      IndicesAscend(entries, t[1..], r, t[0] + 1);
      assert t[0] in t;
      IndicesSplit(entries, t, r);
      hide IndicesOf;
      if Rank(entries[t[0]].name) == r {
        AscendCons(entries, t[0], rest, r);
      }
    }
  }

  lemma IndicesSplit(entries: seq<Entry>, t: seq<nat>, r: nat)
    requires t != [] && Within(t, |entries|)
    ensures var rest := IndicesOf(entries, t[1..], r);
            IndicesOf(entries, t, r) == if Rank(entries[t[0]].name) == r then [t[0]] + rest else rest
  {
    hide Rank;
  }

  lemma AscendCons(entries: seq<Entry>, k: nat, rest: seq<nat>, r: nat)
    requires k < |entries| && Rank(entries[k].name) == r && AllOfRank(entries, rest, r)
    requires forall i :: 0 <= i < |rest| ==> k + 1 <= rest[i]
    ensures AllOfRank(entries, [k] + rest, r) && forall i :: 0 <= i < |rest| + 1 ==> k <= ([k] + rest)[i]
  {
    hide Rank;
  }

  lemma {:induction false} IndicesFrom(entries: seq<Entry>, t: seq<nat>, r: nat, k: nat)
    requires Within(t, |entries|) && k in IndicesOf(entries, t, r)
    ensures k in t
  {
    hide Rank;
    if k != t[0] {
      IndicesFrom(entries, t[1..], r, k);
    }
  }

  lemma {:induction false} IndicesHold(entries: seq<Entry>, t: seq<nat>, k: nat)
    requires Within(t, |entries|) && k in t
    ensures k < |entries| && k in IndicesOf(entries, t, Rank(entries[k].name))
  {
    hide Rank;
    if k != t[0] {
      IndicesHold(entries, t[1..], k);
    }
  }

  lemma {:induction false} IndicesOfItems(entries: seq<Entry>, t: seq<nat>, r: nat)
    requires Within(t, |entries|)
    ensures Within(IndicesOf(entries, t, r), |entries|)
    ensures Items(entries, IndicesOf(entries, t, r)) == OfRank(Items(entries, t), r)
  {
    hide Rank;
    if t != [] {
      var rest := IndicesOf(entries, t[1..], r);
      IndicesOfItems(entries, t[1..], r);
      IndicesSplit(entries, t, r);
      ItemsCons(entries, t[0], t[1..]);
      assert t == [t[0]] + t[1..];
      RankCons(ItemOf(entries[t[0]]), Items(entries, t[1..]), r);
      hide IndicesOf, Items, OfRank;
      if Rank(entries[t[0]].name) == r {
        ItemsCons(entries, t[0], rest);
      }
    }
  }

  lemma RankCons(item: Item, rest: seq<Item>, r: nat)
    ensures OfRank([item] + rest, r) == if item.rank == r then [item] + OfRank(rest, r) else OfRank(rest, r)
  {
    assert ([item] + rest)[1..] == rest;
  }

  lemma ItemsCons(entries: seq<Entry>, k: nat, t: seq<nat>)
    requires k < |entries| && Within(t, |entries|)
    ensures Within([k] + t, |entries|) && Items(entries, [k] + t) == [ItemOf(entries[k])] + Items(entries, t)
  {
    hide Rank;
  }

  /** The indices of the usable entries in the order of the sorted items. */
  function SortedIndices(entries: seq<Entry>): (u: seq<nat>)
  {
    var t := UsableIndices(entries);
    IndicesOf(entries, t, 0) + IndicesOf(entries, t, 1) + IndicesOf(entries, t, 2)
  }

  lemma SortedIndicesIs(entries: seq<Entry>)
    ensures var u := SortedIndices(entries);
            && Increasing(entries, u) && Items(entries, u) == Sorted(Items(entries, UsableIndices(entries)))
            && forall k :: k in u <==> 0 <= k < |entries| && Usable(entries[k].ip)
  {
    hide Rank, Usable, IndicesOf, Items, Increasing, OfRank;
    var t := UsableIndices(entries);
    RankPart(entries, t, 0);
    RankPart(entries, t, 1);
    RankPart(entries, t, 2);
    ThreeParts(entries, IndicesOf(entries, t, 0), IndicesOf(entries, t, 1), IndicesOf(entries, t, 2));
    Members(entries, t);
  }

  lemma RankPart(entries: seq<Entry>, t: seq<nat>, r: nat)
    requires Within(t, |entries|) && Ascending(t)
    ensures AllOfRank(entries, IndicesOf(entries, t, r), r)
    ensures Items(entries, IndicesOf(entries, t, r)) == OfRank(Items(entries, t), r)
  {
    hide Rank, IndicesOf, Items, OfRank;
    IndicesAscend(entries, t, r, 0);
    IndicesOfItems(entries, t, r);
  }

  /** Every index has one of the three ranks. */
  lemma Members(entries: seq<Entry>, t: seq<nat>)
    requires Within(t, |entries|)
    requires forall k :: k in t <==> 0 <= k < |entries| && Usable(entries[k].ip)
    ensures forall k :: k in IndicesOf(entries, t, 0) + IndicesOf(entries, t, 1) + IndicesOf(entries, t, 2)
                        <==> 0 <= k < |entries| && Usable(entries[k].ip)
  {
    hide Rank, Usable, IndicesOf;
    var u := IndicesOf(entries, t, 0) + IndicesOf(entries, t, 1) + IndicesOf(entries, t, 2);
    forall k | k in u ensures k in t {
      Member(entries, t, k);
    }
    forall k | k in t ensures k in u {
      Member(entries, t, k);
    }
  }

  lemma Member(entries: seq<Entry>, t: seq<nat>, k: nat)
    requires Within(t, |entries|)
    ensures k in t <==> k in IndicesOf(entries, t, 0) || k in IndicesOf(entries, t, 1) || k in IndicesOf(entries, t, 2)
  {
    hide Rank, IndicesOf;
    if k in t {
      IndicesHold(entries, t, k);
      var r := Rank(entries[k].name);
    } else {
      forall r | 0 <= r <= 2 ensures k !in IndicesOf(entries, t, r) {
        if k in IndicesOf(entries, t, r) {
          IndicesFrom(entries, t, r, k);
        }
      }
    }
  }

  lemma AnyRank(entries: seq<Entry>)
    ensures forall k :: 0 <= k < |entries| ==> Rank(entries[k].name) in {0, 1, 2}
  {
    forall k | 0 <= k < |entries| ensures Rank(entries[k].name) in {0, 1, 2} {
      var r := Rank(entries[k].name);
    }
  }

  ghost predicate AllOfRank(entries: seq<Entry>, t: seq<nat>, r: nat) {
    Within(t, |entries|) && Ascending(t) && forall i :: 0 <= i < |t| ==> Rank(entries[t[i]].name) == r
  }

  lemma ThreeParts(entries: seq<Entry>, a: seq<nat>, b: seq<nat>, c: seq<nat>)
    requires AllOfRank(entries, a, 0) && AllOfRank(entries, b, 1) && AllOfRank(entries, c, 2)
    ensures Increasing(entries, a + b + c)
    ensures Items(entries, a + b + c) == Items(entries, a) + Items(entries, b) + Items(entries, c)
  {
    hide Rank;
  }

  /** The index at which each address is first met. */
  function FirstMet(entries: seq<Entry>, t: seq<nat>): (keys: seq<nat>)
    requires Within(t, |entries|)
    ensures Within(keys, |entries|)
    ensures forall i :: 0 <= i < |keys| ==> keys[i] in t
  {
    if t == [] then []
    else
      var m := |t| - 1;
      var before := FirstMet(entries, t[..m]);
      if entries[t[m]].ip in Ips(entries, before) then before else before + [t[m]]
  }

  function Ips(entries: seq<Entry>, keys: seq<nat>): seq<IpAddr>
    requires Within(keys, |entries|)
  {
    seq(|keys|, i requires 0 <= i < |keys| => entries[keys[i]].ip)
  }

  lemma {:induction false} DedupeIs(entries: seq<Entry>, t: seq<nat>)
    requires Within(t, |entries|)
    ensures Dedupe(Items(entries, t)) == Ips(entries, FirstMet(entries, t))
    decreases |t|
  {
    hide Rank;
    if t != [] {
      var m := |t| - 1;
      assert Items(entries, t)[..m] == Items(entries, t[..m]);
      DedupeIs(entries, t[..m]);
    }
  }

  /** Some key has the address of entry `k` and comes no later. */
  ghost predicate Covered(entries: seq<Entry>, keys: seq<nat>, k: nat)
    requires k < |entries| && Within(keys, |entries|)
  {
    exists i :: 0 <= i < |keys| && entries[keys[i]].ip == entries[k].ip && (keys[i] == k || Before(entries, keys[i], k))
  }

  lemma CoveredMore(entries: seq<Entry>, keys: seq<nat>, last: nat, k: nat)
    requires k < |entries| && last < |entries| && Within(keys, |entries|) && Within(keys + [last], |entries|)
    requires Covered(entries, keys, k)
    ensures Covered(entries, keys + [last], k)
  {
    hide Before;
    var i :| 0 <= i < |keys| && entries[keys[i]].ip == entries[k].ip && (keys[i] == k || Before(entries, keys[i], k));
    assert (keys + [last])[i] == keys[i];
  }

  lemma {:induction false} FirstMetIs(entries: seq<Entry>, t: seq<nat>)
    requires Increasing(entries, t)
    ensures var keys := FirstMet(entries, t);
            && Increasing(entries, keys)
            && (forall k :: k in t ==> k < |entries| && Covered(entries, keys, k))
            && forall i, j :: 0 <= i < j < |keys| ==> entries[keys[i]].ip != entries[keys[j]].ip
    decreases |t|
  {
    hide Before, Covered;
    if t != [] {
      var m := |t| - 1;
      FirstMetIs(entries, t[..m]);
      FirstMetStep(entries, t, FirstMet(entries, t[..m]));
    }
  }

  lemma FirstMetStep(entries: seq<Entry>, t: seq<nat>, before: seq<nat>)
    requires Increasing(entries, t) && t != [] && Within(before, |entries|)
    requires forall i :: 0 <= i < |before| ==> before[i] in t[..|t| - 1]
    requires Increasing(entries, before)
      && forall k :: k in t[..|t| - 1] ==> k < |entries| && Covered(entries, before, k)
    requires forall i, j :: 0 <= i < j < |before| ==> entries[before[i]].ip != entries[before[j]].ip
    ensures var last := t[|t| - 1];
            var keys := if entries[last].ip in Ips(entries, before) then before else before + [last];
            && Increasing(entries, keys)
            && (forall k :: k in t ==> k < |entries| && Covered(entries, keys, k))
            && forall i, j :: 0 <= i < j < |keys| ==> entries[keys[i]].ip != entries[keys[j]].ip
  {
    hide Before, Covered;
    var m := |t| - 1;
    var last := t[m];
    assert forall k :: k in t ==> k == last || k in t[..m];
    BeforeLast(entries, t, before);
    if entries[last].ip in Ips(entries, before) {
      CoveredBySeen(entries, before, last);
    } else {
      NewIp(entries, before, last);
      CoveredByItself(entries, before, last);
      forall k | k in t[..m] ensures Covered(entries, before + [last], k) {
        CoveredMore(entries, before, last, k);
      }
    }
  }

  lemma BeforeLast(entries: seq<Entry>, t: seq<nat>, before: seq<nat>)
    requires Increasing(entries, t) && t != [] && Within(before, |entries|)
    requires forall i :: 0 <= i < |before| ==> before[i] in t[..|t| - 1]
    ensures forall i :: 0 <= i < |before| ==> Before(entries, before[i], t[|t| - 1])
  {
    hide Before;
  }

  lemma CoveredBySeen(entries: seq<Entry>, before: seq<nat>, last: nat)
    requires Within(before, |entries|) && last < |entries| && entries[last].ip in Ips(entries, before)
    requires forall i :: 0 <= i < |before| ==> Before(entries, before[i], last)
    ensures Covered(entries, before, last)
  {
    hide Before;
    var i :| 0 <= i < |before| && Ips(entries, before)[i] == entries[last].ip;
    assert entries[before[i]].ip == entries[last].ip;
  }

  lemma CoveredByItself(entries: seq<Entry>, before: seq<nat>, last: nat)
    requires Within(before + [last], |entries|) && last < |entries|
    ensures Covered(entries, before + [last], last)
  {
    hide Before;
    assert (before + [last])[|before|] == last;
  }

  lemma NewIp(entries: seq<Entry>, before: seq<nat>, last: nat)
    requires Increasing(entries, before) && last < |entries| && entries[last].ip !in Ips(entries, before)
    requires forall i :: 0 <= i < |before| ==> Before(entries, before[i], last)
    requires forall i, j :: 0 <= i < j < |before| ==> entries[before[i]].ip != entries[before[j]].ip
    ensures var keys := before + [last];
            && Increasing(entries, keys)
            && forall i, j :: 0 <= i < j < |keys| ==> entries[keys[i]].ip != entries[keys[j]].ip
  {
    hide Before;
    assert forall i :: 0 <= i < |before| ==> Ips(entries, before)[i] == entries[before[i]].ip;
  }

  /** Entry `key` is where its address is reported at the lowest rank, and first among those. */
  ghost predicate BestEntry(entries: seq<Entry>, key: nat) {
    && key < |entries|
    && forall k: nat :: k < |entries| && entries[k].ip == entries[key].ip ==> key == k || Before(entries, key, k)
  }

  /** Every usable address is offered exactly once and nothing else is; the addresses stand in the
      order of the lowest rank of an interface reporting them, and among those of the same rank in
      the order of the first such report. */
  lemma CandidateOrder(entries: seq<Entry>) returns (keys: seq<nat>)
    ensures var out := OrderCandidates(entries);
            && |keys| == |out| && Increasing(entries, keys)
            && (forall i :: 0 <= i < |out| ==> BestEntry(entries, keys[i]) && out[i] == entries[keys[i]].ip)
            && (forall i, j :: 0 <= i < j < |out| ==> out[i] != out[j])
            && forall ip :: ip in out <==> Usable(ip) && exists k :: 0 <= k < |entries| && entries[k].ip == ip
  {
    hide Usable, Before, Covered, Dedupe, Sorted, FirstMet;
    var t := SortedIndices(entries);
    SortedIndicesIs(entries);
    DedupeIs(entries, t);
    FirstMetIs(entries, t);
    keys := FirstMet(entries, t);
    var out := Ips(entries, keys);
    forall i | 0 <= i < |out| ensures BestEntry(entries, keys[i]) && Usable(out[i]) {
      BestOfFirstMet(entries, t, keys, i);
    }
    forall k | 0 <= k < |entries| && Usable(entries[k].ip) ensures entries[k].ip in out {
      CoveredIn(entries, keys, k);
    }
  }

  lemma CoveredIn(entries: seq<Entry>, keys: seq<nat>, k: nat)
    requires k < |entries| && Within(keys, |entries|) && Covered(entries, keys, k)
    ensures entries[k].ip in Ips(entries, keys)
  {
    hide Before;
    var i :| 0 <= i < |keys| && entries[keys[i]].ip == entries[k].ip && (keys[i] == k || Before(entries, keys[i], k));
    assert Ips(entries, keys)[i] == entries[k].ip;
  }

  lemma BestOfFirstMet(entries: seq<Entry>, t: seq<nat>, keys: seq<nat>, i: nat)
    requires Within(t, |entries|) && Within(keys, |entries|) && i < |keys| && keys[i] in t
    requires forall k :: k in t <==> 0 <= k < |entries| && Usable(entries[k].ip)
    requires forall k :: k in t ==> Covered(entries, keys, k)
    requires forall a, b :: 0 <= a < b < |keys| ==> entries[keys[a]].ip != entries[keys[b]].ip
    ensures BestEntry(entries, keys[i]) && Usable(entries[keys[i]].ip)
  {
    hide Usable, Before;
    forall k: nat | k < |entries| && entries[k].ip == entries[keys[i]].ip
      ensures keys[i] == k || Before(entries, keys[i], k)
    {
      assert Usable(entries[k].ip) && k in t;
      var j :| 0 <= j < |keys| && entries[keys[j]].ip == entries[k].ip && (keys[j] == k || Before(entries, keys[j], k));
      assert i == j;
    }
  }

  // ---- the loops ----

  method Order(entries: seq<Entry>) returns (out: seq<IpAddr>)
    ensures out == OrderCandidates(entries)
  {
    hide Rank, Usable, OfRank, Dedupe;
    var ranked: seq<Item> := [];
    for n := 0 to |entries|
      invariant ranked == Items(entries[..n], UsableIndices(entries[..n]))
    {
      KeepOrSkip(entries, n);
      if Usable(entries[n].ip) {
        ranked := ranked + [Item(Rank(entries[n].name), entries[n].ip)];
      }
    }
    assert entries[..|entries|] == entries;
    var sorted := SortByRank(ranked);
    AllThree(entries, UsableIndices(entries));
    StableSortUnique(ranked, sorted);
    out := Unseen(sorted);
  }

  lemma KeepOrSkip(entries: seq<Entry>, n: nat)
    requires n < |entries|
    ensures Items(entries[..n + 1], UsableIndices(entries[..n + 1]))
            == Items(entries[..n], UsableIndices(entries[..n]))
               + if Usable(entries[n].ip) then [ItemOf(entries[n])] else []
  {
    hide Usable, Rank;
    assert entries[..n + 1][..n] == entries[..n];
  }

  lemma AllThree(entries: seq<Entry>, t: seq<nat>)
    requires Within(t, |entries|)
    ensures ThreeRanks(Items(entries, t))
  {
    AnyRank(entries);
    hide Rank;
  }

  /** A stable insertion sort in the place of the library's `sort_by_key`. */
  method SortByRank(items: seq<Item>) returns (out: seq<Item>)
    requires ThreeRanks(items)
    ensures ByRank(out) && ThreeRanks(out) && forall r: nat :: OfRank(out, r) == OfRank(items, r)
  {
    hide OfRank;
    out := [];
    for n := 0 to |items|
      invariant ByRank(out) && ThreeRanks(out) && forall r: nat :: OfRank(out, r) == OfRank(items[..n], r)
    {
      var k := |out|;
      while k > 0 && out[k - 1].rank > items[n].rank
        invariant 0 <= k <= |out| && forall i :: k <= i < |out| ==> out[i].rank > items[n].rank
      {
        k := k - 1;
      }
      ghost var was := out;
      out := out[..k] + [items[n]] + out[k..];
      assert items[..n + 1] == items[..n] + [items[n]];
      forall r: nat ensures OfRank(out, r) == OfRank(items[..n + 1], r) {
        Inserted(was, k, items[n], r);
        OfRankAppend(items[..n], [items[n]], r);
      }
    }
    assert items[..|items|] == items;
  }

  /** Inserting before items of higher rank only is appending, as far as any one rank is concerned. */
  lemma Inserted(out: seq<Item>, k: nat, item: Item, r: nat)
    requires k <= |out| && forall i :: k <= i < |out| ==> out[i].rank > item.rank
    ensures OfRank(out[..k] + [item] + out[k..], r) == OfRank(out, r) + OfRank([item], r)
  {
    hide OfRank;
    var a, b := out[..k], out[k..];
    assert out == a + b;
    OfRankAppend(a, b, r);
    OfRankAppend(a + [item], b, r);
    OfRankAppend(a, [item], r);
    if r == item.rank {
      NoneBelow(b, r);
    } else {
      OfSameRank([item], item.rank, r);
    }
  }

  method Unseen(items: seq<Item>) returns (out: seq<IpAddr>)
    ensures out == Dedupe(items)
  {
    out := [];
    var seen: set<IpAddr> := {};
    for n := 0 to |items|
      invariant out == Dedupe(items[..n]) && forall ip :: ip in seen <==> ip in out
    {
      assert items[..n + 1][..n] == items[..n];
      if items[n].ip !in seen {
        seen := seen + {items[n].ip};
        out := out + [items[n].ip];
      }
    }
    assert items[..|items|] == items;
  }
}
