// iputils.c: checksums in ones' complement (RFC 1071), and what tun.c rewrites in a
// packet still being right afterwards.

module OnesComplement {
  import opened Bytes

  const ALL_ONES: u16 := 0xFFFF

  // ip4_update_sum: add, then add the carry.
  function Update(previous: u32, data: u16): u16 {
    var sum := (previous + data) % 0x1_0000_0000;
    (sum + sum / 0x1_0000) % 0x1_0000
  }

  // ip_sum_to_checksum: the complement, with no two ways to write zero.
  function ToChecksum(sum: u16): u16 { if sum == ALL_ONES then ALL_ONES else ALL_ONES - sum }

  function Add(x: u16, y: u16): u16 { if x + y <= ALL_ONES then x + y else x + y - ALL_ONES }

  lemma UpdateIsAdd(x: u16, y: u16)
    ensures Update(x, y) == Add(x, y)
  {
  }

  lemma AddCommutes(x: u16, y: u16)
    ensures Add(x, y) == Add(y, x)
  {
  }

  lemma AddAssociates(x: u16, y: u16, z: u16)
    ensures Add(Add(x, y), z) == Add(x, Add(y, z))
  {
  }

  // A sum and its checksum give all ones, and no other checksum does, but for the
  // two that mean zero.
  lemma ChecksumCompletes(sum: u16, c: u16)
    ensures Add(sum, ToChecksum(sum)) == ALL_ONES
    ensures Add(sum, c) == ALL_ONES <==>
              c == ToChecksum(sum) || (sum == ALL_ONES && c == 0) || (sum == 0 && c == ALL_ONES)
  {
  }

  // The sum of n words.
  function Words(s: seq<byte>, at: nat, n: nat): u16
    requires at + 2 * n <= |s|
  {
    if n == 0 then 0 else Add(Words(s, at, n - 1), ShortAt(s, at + 2 * (n - 1)))
  }

  // The same on top of another sum, leaving out one of the words.
  function WordsBut(s: seq<byte>, at: nat, n: nat, skip: nat, from: u16): u16
    requires at + 2 * n <= |s|
  {
    if n == 0 then from
    else if n - 1 == skip then WordsBut(s, at, n - 1, skip, from)
    else Add(WordsBut(s, at, n - 1, skip, from), ShortAt(s, at + 2 * (n - 1)))
  }

  lemma {:induction false} WordsButAdds(s: seq<byte>, at: nat, n: nat, skip: nat, from: u16)
    requires at + 2 * n <= |s|
    ensures n <= skip ==> WordsBut(s, at, n, skip, from) == Add(from, Words(s, at, n))
    ensures n > skip ==>
              Add(WordsBut(s, at, n, skip, from), ShortAt(s, at + 2 * skip)) == Add(from, Words(s, at, n))
    decreases n
  {
    if n > 0 {
      WordsButAdds(s, at, n - 1, skip, from);
      var w := ShortAt(s, at + 2 * (n - 1));
      var rest := Words(s, at, n - 1);
      AddAssociates(from, rest, w);
      if n - 1 == skip {
        if n == 1 {
          AddZero(from, w);
        }
      } else if n - 1 < skip {
        if n == 1 {
          AddZero(from, w);
        }
      } else {
        var c := ShortAt(s, at + 2 * skip);
        var most := WordsBut(s, at, n - 1, skip, from);
        AddAssociates(most, w, c);
        AddCommutes(w, c);
        AddAssociates(most, c, w);
      }
    }
  }

  lemma AddZero(from: u16, w: u16)
    ensures Add(from, Add(0, w)) == Add(from, w)
  {
  }

  // A sum depends on the words it is made of.
  lemma {:induction false} WordsButSame(s: seq<byte>, t: seq<byte>, at: nat, n: nat, skip: nat, from: u16)
    requires at + 2 * n <= |s| == |t|
    requires forall i :: at <= i < at + 2 * n && (i - at) / 2 != skip ==> s[i] == t[i]
    ensures WordsBut(s, at, n, skip, from) == WordsBut(t, at, n, skip, from)
    decreases n
  {
    if n > 0 {
      WordsButSame(s, t, at, n - 1, skip, from);
      var i := at + 2 * (n - 1);
      assert (i - at) / 2 == n - 1 && (i + 1 - at) / 2 == n - 1;
    }
  }

  function Put(s: seq<byte>, at: nat, x: u16): (t: seq<byte>)
    requires at + 1 < |s|
    ensures |t| == |s| && ShortAt(t, at) == x
    ensures forall i :: 0 <= i < |s| && i != at && i != at + 1 ==> t[i] == s[i]
  {
    s[at := x / 0x100][at + 1 := x % 0x100]
  }

  // Whatever the word left out was, with the checksum in its place all is well.
  lemma PutChecksumCompletes(s: seq<byte>, at: nat, n: nat, skip: nat, from: u16, x: u16)
    requires at + 2 * n <= |s| && skip < n
    requires x == ToChecksum(WordsBut(s, at, n, skip, from))
    ensures Add(from, Words(Put(s, at + 2 * skip, x), at, n)) == ALL_ONES
  {
    var t := Put(s, at + 2 * skip, x);
    WordsButSame(s, t, at, n, skip, from);
    WordsButAdds(t, at, n, skip, from);
    ChecksumCompletes(WordsBut(s, at, n, skip, from), x);
  }
}

// Where things are in an IPv4 packet, and when its checksums are right.
module Ip4Packet {
  import opened Bytes
  import opened OnesComplement

  const IPPROTO_TCP: byte := 6
  const IPPROTO_UDP: byte := 17

  const SOURCE := 12
  const DESTINATION := 16

  function HeaderSize(s: seq<byte>): nat
    requires |s| >= 20
  {
    s[0] % 16 * 4
  }

  function TotalSize(s: seq<byte>): nat
    requires |s| >= 20
  {
    ShortAt(s, 2)
  }

  // A packet that ends where it says, behind its header.
  predicate Measured(s: seq<byte>) { |s| >= 20 && HeaderSize(s) <= TotalSize(s) <= |s| }

  // A packet whose lengths are consistent.
  predicate Consistent(s: seq<byte>) {
    && Measured(s) && s[0] / 16 == 4 && 20 <= HeaderSize(s)
    && (s[9] == IPPROTO_TCP ==> HeaderSize(s) + 20 <= TotalSize(s))
    && (s[9] == IPPROTO_UDP ==> HeaderSize(s) + 8 <= TotalSize(s))
  }

  predicate HeaderVerifies(s: seq<byte>)
    requires Consistent(s)
  {
    Words(s, 0, HeaderSize(s) / 2) == ALL_ONES
  }

  // Addresses, protocol and length, as if they stood in front of the segment.
  function Pseudo(s: seq<byte>): u16
    requires Measured(s)
  {
    Add(Add(Words(s, SOURCE, 4), s[9]), TotalSize(s) - HeaderSize(s))
  }

  // The odd octet at the end, if there is one, counts as the upper half of a word.
  function Tail(s: seq<byte>): u16
    requires Measured(s)
  {
    if (TotalSize(s) - HeaderSize(s)) % 2 == 1 then Short(s[TotalSize(s) - 1], 0) else 0
  }

  function SegmentWords(s: seq<byte>): nat
    requires Measured(s)
  {
    (TotalSize(s) - HeaderSize(s)) / 2
  }

  predicate TcpVerifies(s: seq<byte>)
    requires Consistent(s)
  {
    Add(Add(Pseudo(s), Words(s, HeaderSize(s), SegmentWords(s))), Tail(s)) == ALL_ONES
  }

  // What ip4_calc_ip_checksum writes at octet 10, and ip4_calc_tcp_checksum at octet
  // 16 of the segment.
  function HeaderChecksum(s: seq<byte>): u16
    requires Consistent(s)
  {
    ToChecksum(WordsBut(s, 0, HeaderSize(s) / 2, 5, 0))
  }

  function TcpChecksum(s: seq<byte>): u16
    requires Measured(s)
  {
    ToChecksum(Add(WordsBut(s, HeaderSize(s), SegmentWords(s), 8, Pseudo(s)), Tail(s)))
  }

  lemma HeaderChecksumIsRight(s: seq<byte>)
    requires Consistent(s)
    ensures Consistent(Put(s, 10, HeaderChecksum(s))) && HeaderVerifies(Put(s, 10, HeaderChecksum(s)))
  {
    PutChecksumCompletes(s, 0, HeaderSize(s) / 2, 5, 0, HeaderChecksum(s));
  }

  lemma TcpChecksumIsRight(s: seq<byte>)
    requires Consistent(s) && s[9] == IPPROTO_TCP
    ensures var t := Put(s, HeaderSize(s) + 16, TcpChecksum(s)); Consistent(t) && TcpVerifies(t)
  {
    var at, n, from := HeaderSize(s), SegmentWords(s), Pseudo(s);
    var x := TcpChecksum(s);
    var t := Put(s, at + 16, x);
    PseudoStays(s, x);
    WordsButSame(s, t, at, n, 8, from);
    WordsButAdds(t, at, n, 8, from);
    var most := WordsBut(s, at, n, 8, from);
    ChecksumCompletes(Add(most, Tail(s)), x);
    Swap(most, Tail(s), x);
  }

  lemma PseudoStays(s: seq<byte>, x: u16)
    requires Consistent(s) && s[9] == IPPROTO_TCP
    ensures var t := Put(s, HeaderSize(s) + 16, x);
            && Consistent(t) && Pseudo(t) == Pseudo(s) && Tail(t) == Tail(s)
            && HeaderSize(t) == HeaderSize(s) && SegmentWords(t) == SegmentWords(s)
  {
    SameInFront(s, Put(s, HeaderSize(s) + 16, x), SOURCE, 4);
  }

  lemma Swap(x: u16, y: u16, z: u16)
    ensures Add(Add(x, y), z) == Add(Add(x, z), y)
  {
    AddAssociates(x, y, z);
    AddCommutes(y, z);
    AddAssociates(x, z, y);
  }

  lemma {:induction false} SameInFront(s: seq<byte>, t: seq<byte>, at: nat, n: nat)
    requires at + 2 * n <= |s| == |t|
    requires forall i :: at <= i < at + 2 * n ==> s[i] == t[i]
    ensures Words(s, at, n) == Words(t, at, n)
    decreases n
  {
    if n > 0 {
      SameInFront(s, t, at, n - 1);
    }
  }

  // An address, as masquerade_src and masquerade_dst and the NAT write it.
  function PutAddress(s: seq<byte>, at: nat, address: u32): (t: seq<byte>)
    requires at + 3 < |s|
    ensures |t| == |s| && ShortAt(t, at) == address / 0x1_0000 && ShortAt(t, at + 2) == address % 0x1_0000
    ensures forall i :: 0 <= i < |s| && !(at <= i < at + 4) ==> t[i] == s[i]
  {
    Put(Put(s, at, address / 0x1_0000), at + 2, address % 0x1_0000)
  }

  // Both checksums, as far as the protocol has one, after a change.
  function Recomputed(s: seq<byte>): (t: seq<byte>)
    requires Consistent(s)
    ensures |t| == |s|
  {
    var h := Put(s, 10, HeaderChecksum(s));
    if s[9] == IPPROTO_TCP then Put(h, HeaderSize(s) + 16, TcpChecksum(h))
    else if s[9] == IPPROTO_UDP && |s| >= 40 then Put(h, HeaderSize(s) + 6, 0)
    else h
  }

  // A recomputed packet verifies, and only its checksums have changed.  An UDP
  // checksum of 0 stands for none; a packet of less than 40 octets keeps its old one.
  lemma RecomputedVerifies(s: seq<byte>)
    requires Consistent(s)
    ensures var t := Recomputed(s);
            && Consistent(t) && HeaderVerifies(t)
            && (s[9] == IPPROTO_TCP ==> TcpVerifies(t))
            && (s[9] == IPPROTO_UDP
                ==> ShortAt(t, HeaderSize(s) + 6) == if |s| >= 40 then 0 else ShortAt(s, HeaderSize(s) + 6))
            && (forall i :: 0 <= i < |s| && !IsChecksum(s, i) ==> t[i] == s[i])
  {
    HeaderChecksumIsRight(s);
    var h := Put(s, 10, HeaderChecksum(s));
    assert Consistent(h) && HeaderVerifies(h) && HeaderSize(h) == HeaderSize(s);
    HeaderStays(h, Recomputed(s));
    if s[9] == IPPROTO_TCP {
      TcpChecksumIsRight(h);
    }
  }

  lemma HeaderStays(h: seq<byte>, t: seq<byte>)
    requires Consistent(h) && HeaderVerifies(h) && |t| == |h|
    requires forall i :: 0 <= i < HeaderSize(h) ==> t[i] == h[i]
    ensures Consistent(t) && HeaderVerifies(t)
  {
    SameInFront(h, t, 0, HeaderSize(h) / 2);
  }

  // An UDP checksum is right if it is 0, which means none, or if the sum is.
  predicate UdpVerifies(s: seq<byte>)
    requires Consistent(s) && s[9] == IPPROTO_UDP
  {
    ShortAt(s, HeaderSize(s) + 6) == 0 || TcpVerifies(s)
  }

  // Recomputing never breaks it, and mends it in packets of at least 40 octets only.
  lemma UdpRecomputed(s: seq<byte>)
    requires Consistent(s) && s[9] == IPPROTO_UDP
    ensures Consistent(Recomputed(s)) && (UdpVerifies(Recomputed(s)) <==> |s| >= 40 || UdpVerifies(s))
  {
    RecomputedVerifies(s);
    if |s| < 40 {
      SegmentSame(s, Recomputed(s));
    }
  }

  lemma SegmentSame(s: seq<byte>, t: seq<byte>)
    requires Consistent(s) && |t| == |s| && forall i :: 0 <= i < |s| && i / 2 != 5 ==> t[i] == s[i]
    ensures Consistent(t) && (TcpVerifies(t) <==> TcpVerifies(s))
  {
    LengthsSame(s, t);
    SameInFront(s, t, SOURCE, 4);
    SameInFront(s, t, HeaderSize(s), SegmentWords(s));
  }

  lemma LengthsSame(s: seq<byte>, t: seq<byte>)
    requires Consistent(s) && |t| == |s| && forall i :: 0 <= i < |s| && i / 2 != 5 ==> t[i] == s[i]
    ensures Consistent(t) && HeaderSize(t) == HeaderSize(s) && TotalSize(t) == TotalSize(s) && t[9] == s[9]
    ensures Tail(t) == Tail(s)
  {
  }

  // The two words of an address.
  function Sum2(address: u32): nat { address / 0x1_0000 + address % 0x1_0000 }

  function AddressSum(s: seq<byte>, at: nat): nat
    requires at + 3 < |s|
  {
    ShortAt(s, at) + ShortAt(s, at + 2)
  }

  // In a shorter packet a checksum that was right stays right after a new address if
  // and only if both addresses have the same sum.
  lemma UdpMasqueraded(s: seq<byte>, at: nat, address: u32)
    requires Consistent(s) && s[9] == IPPROTO_UDP && |s| < 40 && (at == SOURCE || at == DESTINATION)
    requires ShortAt(s, HeaderSize(s) + 6) != 0 && UdpVerifies(s)
    ensures Consistent(PutAddress(s, at, address))
    ensures var t := Recomputed(PutAddress(s, at, address));
            && Consistent(t)
            && (UdpVerifies(t) <==> (Sum2(address) - AddressSum(s, at)) % ALL_ONES == 0)
  {
    RestStays(s, at, address);
    UdpRecomputed(PutAddress(s, at, address));
    SumReaddressed(s, at, address);
  }

  // 28 octets from 10.0.0.1 to 10.0.0.2.
  lemma ShortPacket() returns (s: seq<byte>)
    ensures |s| == 28 && Consistent(s) && s[9] == IPPROTO_UDP && HeaderSize(s) == 20 && TotalSize(s) == 28
    ensures ShortAt(s, 12) == ShortAt(s, 16) == 0x0A00 && ShortAt(s, 14) == 1 && ShortAt(s, 18) == 2
    ensures ShortAt(s, 20) == 0x1000 && ShortAt(s, 22) == 0x35 && ShortAt(s, 24) == 8 && ShortAt(s, 26) == 0xDBA6
  {
    s := [0x45, 0, 0, 28, 0, 0, 0, 0, 64, IPPROTO_UDP, 0, 0, 10, 0, 0, 1, 10, 0, 0, 2,
          0x10, 0, 0, 0x35, 0, 8, 0xDB, 0xA6];
    assert s[0] == 0x45 && s[0] % 16 == 5 && s[0] / 16 == 4;
    assert s[2] == 0 && s[3] == 28 && s[9] == IPPROTO_UDP;
    assert s[12] == s[16] == 10 && s[13] == s[14] == s[17] == s[18] == 0 && s[15] == 1 && s[19] == 2;
    assert s[20] == 0x10 && s[21] == s[22] == s[24] == 0 && s[23] == 0x35 && s[25] == 8;
    assert s[26] == 0xDB && s[27] == 0xA6;
  }

  lemma SmallResidue(x: u16, r: nat)
    requires x % ALL_ONES == r % ALL_ONES && 0 < r < ALL_ONES
    ensures x == r
  {
  }

  // Their checksum is right.
  lemma ShortUdp() returns (s: seq<byte>)
    ensures |s| == 28 && Consistent(s) && s[9] == IPPROTO_UDP && ShortAt(s, HeaderSize(s) + 6) == 0xDBA6
    ensures UdpVerifies(s) && AddressSum(s, SOURCE) == 0x0A01
  {
    s := ShortPacket();
    FourWords(s, SOURCE);
    FourWords(s, 20);
    SmallResidue(Words(s, SOURCE, 4), 0x1403);
    SmallResidue(Words(s, 20, 4), 0xEBE3);
    SumVerifies(s);
  }

  // With another address it is wrong, and recomputing leaves it so.
  lemma StaleChecksum() returns (s: seq<byte>)
    ensures |s| == 28 && Consistent(s) && s[9] == IPPROTO_UDP && UdpVerifies(s)
    ensures var u := PutAddress(s, SOURCE, 0x0A00_0003);
            && Consistent(u) && u[9] == IPPROTO_UDP && Consistent(Recomputed(u)) && Recomputed(u)[9] == IPPROTO_UDP
            && !UdpVerifies(Recomputed(u))
  {
    s := ShortUdp();
    RestStays(s, SOURCE, 0x0A00_0003);
    UdpMasqueraded(s, SOURCE, 0x0A00_0003);
    assert Sum2(0x0A00_0003) == 0x0A03;
  }

  lemma SumReaddressed(s: seq<byte>, at: nat, address: u32)
    requires Consistent(s) && s[9] == IPPROTO_UDP && (at == SOURCE || at == DESTINATION) && TcpVerifies(s)
    ensures var u := PutAddress(s, at, address);
            Consistent(u) && (TcpVerifies(u) <==> (Sum2(address) - AddressSum(s, at)) % ALL_ONES == 0)
  {
    RestStays(s, at, address);
    AddressMoves(s, at, address);
    SumsDiffer(s, PutAddress(s, at, address), Sum2(address) - AddressSum(s, at));
  }

  lemma SumsDiffer(s: seq<byte>, u: seq<byte>, d: int)
    requires Consistent(s) && s[9] == IPPROTO_UDP && TcpVerifies(s)
    requires Consistent(u) && u[9] == IPPROTO_UDP && Rest(u) == Rest(s)
    requires (Words(u, SOURCE, 4) - Words(s, SOURCE, 4) - d) % ALL_ONES == 0
    ensures TcpVerifies(u) <==> d % ALL_ONES == 0
  {
    SumVerifies(s);
    SumVerifies(u);
    Moves(Words(s, SOURCE, 4), Words(u, SOURCE, 4), Rest(s), d);
  }

  // All that is added up but the addresses.
  function Rest(s: seq<byte>): nat
    requires Consistent(s)
  {
    IPPROTO_UDP + (TotalSize(s) - HeaderSize(s)) + Words(s, HeaderSize(s), SegmentWords(s)) + Tail(s)
  }

  lemma SumVerifies(s: seq<byte>)
    requires Consistent(s) && s[9] == IPPROTO_UDP
    ensures TcpVerifies(s) <==> (Words(s, SOURCE, 4) + Rest(s)) % ALL_ONES == 0
  {
    TotalResidue(Words(s, SOURCE, 4), TotalSize(s) - HeaderSize(s), Words(s, HeaderSize(s), SegmentWords(s)),
        Tail(s));
  }

  lemma RestStays(s: seq<byte>, at: nat, address: u32)
    requires Consistent(s) && s[9] == IPPROTO_UDP && (at == SOURCE || at == DESTINATION)
    ensures var u := PutAddress(s, at, address);
            && Consistent(u) && u[9] == s[9] && HeaderSize(u) == HeaderSize(s) && Rest(u) == Rest(s)
            && ShortAt(u, HeaderSize(u) + 6) == ShortAt(s, HeaderSize(s) + 6)
  {
    AddressKeepsConsistent(s, at, address);
    SameInFront(s, PutAddress(s, at, address), HeaderSize(s), SegmentWords(s));
  }

  // The sum of the addresses changes by what the address changes.
  lemma AddressMoves(s: seq<byte>, at: nat, address: u32)
    requires Consistent(s) && (at == SOURCE || at == DESTINATION)
    ensures var d := Sum2(address) - AddressSum(s, at);
            (Words(PutAddress(s, at, address), SOURCE, 4) - Words(s, SOURCE, 4) - d) % ALL_ONES == 0
  {
    var u := PutAddress(s, at, address);
    var other := if at == SOURCE then DESTINATION else SOURCE;
    AddressesSum(s, at, other);
    AddressesSum(u, at, other);
    AddressIn(s, at, other, address);
    Differ(Words(u, SOURCE, 4), Sum2(address) + AddressSum(s, other), Words(s, SOURCE, 4),
        AddressSum(s, at) + AddressSum(s, other));
  }

  lemma AddressesSum(s: seq<byte>, at: nat, other: nat)
    requires |s| >= 20 && ((at == SOURCE && other == DESTINATION) || (at == DESTINATION && other == SOURCE))
    ensures Words(s, SOURCE, 4) % ALL_ONES == (AddressSum(s, at) + AddressSum(s, other)) % ALL_ONES
  {
    FourWords(s, SOURCE);
  }

  lemma AddressIn(s: seq<byte>, at: nat, other: nat, address: u32)
    requires |s| >= 20 && ((at == SOURCE && other == DESTINATION) || (at == DESTINATION && other == SOURCE))
    ensures AddressSum(PutAddress(s, at, address), at) == Sum2(address)
    ensures AddressSum(PutAddress(s, at, address), other) == AddressSum(s, other)
  {
  }

  lemma Differ(x: nat, x': nat, y: nat, y': nat)
    requires x % ALL_ONES == x' % ALL_ONES && y % ALL_ONES == y' % ALL_ONES
    ensures (x - y - x' + y') % ALL_ONES == 0
  {
    var p, p' := x / ALL_ONES, x' / ALL_ONES;
    var q, q' := y / ALL_ONES, y' / ALL_ONES;
    Multiple(x - y - x' + y', p - p' - q + q');
  }

  lemma Multiple(n: int, k: int)
    requires n == k * ALL_ONES
    ensures n % ALL_ONES == 0
  {
  }

  lemma Moves(before: nat, after: nat, rest: nat, d: int)
    requires (before + rest) % ALL_ONES == 0 && (after - before - d) % ALL_ONES == 0
    ensures (after + rest) % ALL_ONES == 0 <==> d % ALL_ONES == 0
  {
    var p, q := (before + rest) / ALL_ONES, (after - before - d) / ALL_ONES;
    assert after + rest == d + (p + q) * ALL_ONES;
    Shift(d, p + q);
  }

  lemma Shift(n: int, k: int)
    ensures (n + k * ALL_ONES) % ALL_ONES == 0 <==> n % ALL_ONES == 0
  {
    if n % ALL_ONES == 0 {
      Multiple(n + k * ALL_ONES, n / ALL_ONES + k);
    }
    if (n + k * ALL_ONES) % ALL_ONES == 0 {
      Multiple(n, (n + k * ALL_ONES) / ALL_ONES - k);
    }
  }

  lemma AddResidue(x: u16, y: u16)
    ensures Add(x, y) % ALL_ONES == (x + y) % ALL_ONES
    ensures Add(x, y) == 0 <==> x == 0 && y == 0
  {
  }

  lemma FourWords(s: seq<byte>, at: nat)
    requires at + 8 <= |s|
    ensures Words(s, at, 4) % ALL_ONES
              == (ShortAt(s, at) + ShortAt(s, at + 2) + ShortAt(s, at + 4) + ShortAt(s, at + 6)) % ALL_ONES
  {
    var w0, w1, w2, w3 := ShortAt(s, at), ShortAt(s, at + 2), ShortAt(s, at + 4), ShortAt(s, at + 6);
    assert Words(s, at, 1) == Add(0, w0) == w0;
    assert Words(s, at, 2) == Add(Words(s, at, 1), w1);
    assert Words(s, at, 3) == Add(Words(s, at, 2), w2);
    FourAdds(w0, w1, w2, w3);
  }

  lemma FourAdds(w0: u16, w1: u16, w2: u16, w3: u16)
    ensures Add(Add(Add(w0, w1), w2), w3) % ALL_ONES == (w0 + w1 + w2 + w3) % ALL_ONES
  {
    AddResidue(w0, w1);
    AddResidue(Add(w0, w1), w2);
    AddResidue(Add(Add(w0, w1), w2), w3);
  }

  // Seventeen, the protocol, keeps the sum from being 0.
  lemma TotalResidue(addresses: u16, length: u16, words: u16, tail: u16)
    ensures Add(Add(Add(Add(addresses, IPPROTO_UDP), length), words), tail) == ALL_ONES
            <==> (addresses + IPPROTO_UDP + length + words + tail) % ALL_ONES == 0
  {
    AddResidue(addresses, IPPROTO_UDP);
    AddResidue(Add(addresses, IPPROTO_UDP), length);
    AddResidue(Add(Add(addresses, IPPROTO_UDP), length), words);
    AddResidue(Add(Add(Add(addresses, IPPROTO_UDP), length), words), tail);
  }

  predicate IsChecksum(s: seq<byte>, i: nat)
    requires Consistent(s)
  {
    || i / 2 == 5
    || (s[9] == IPPROTO_TCP && (i == HeaderSize(s) + 16 || i == HeaderSize(s) + 17))
    || (s[9] == IPPROTO_UDP && (i == HeaderSize(s) + 6 || i == HeaderSize(s) + 7))
  }

  lemma AddressKeepsConsistent(s: seq<byte>, at: nat, address: u32)
    requires Consistent(s) && 12 <= at <= 16
    ensures Consistent(PutAddress(s, at, address))
  {
  }

  // masquerade_src and masquerade_dst, for an IPv4 packet: the new address is in
  // place, everything verifies, and the rest is as it was.
  lemma MasqueradedVerifies(s: seq<byte>, at: nat, address: u32)
    requires Consistent(s) && (at == SOURCE || at == DESTINATION)
    ensures Consistent(PutAddress(s, at, address))
    ensures var t := Recomputed(PutAddress(s, at, address));
            && Consistent(t) && HeaderVerifies(t) && (s[9] == IPPROTO_TCP ==> TcpVerifies(t))
            && ShortAt(t, at) == address / 0x1_0000 && ShortAt(t, at + 2) == address % 0x1_0000
            && (forall i :: 0 <= i < |s| && !(at <= i < at + 4) && !IsChecksum(s, i) ==> t[i] == s[i])
  {
    AddressKeepsConsistent(s, at, address);
    RecomputedVerifies(PutAddress(s, at, address));
  }
}
