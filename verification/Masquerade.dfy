// iputils.c and tun.c: the checksum loops on the packet buffer, and the rewriting of
// addresses in place.

module Masquerade {
  import opened Bytes
  import opened OnesComplement
  import opened Ip4Packet

  // One loop of the calculators, over n words from `at`, without one of them.
  method SumWords(b: array<byte>, at: nat, n: nat, skip: nat, from: u16) returns (sum: u16)
    requires at + 2 * n <= b.Length
    ensures sum == WordsBut(b[..], at, n, skip, from)
  {
    sum := from;
    ghost var s := b[..];
    for seq_num := 0 to n
      invariant sum == WordsBut(s, at, seq_num, skip, from)
    {
      if seq_num == skip {
        continue;
      }
      var w := Short(b[at + 2 * seq_num], b[at + 2 * seq_num + 1]);
      UpdateIsAdd(sum, w);
      sum := Update(sum, w);
    }
  }

  method PutWord(b: array<byte>, at: nat, x: u16)
    requires at + 1 < b.Length
    modifies b
    ensures b[..] == Put(old(b[..]), at, x)
  {
    b[at] := x / 0x100;
    b[at + 1] := x % 0x100;
  }

  // ip4_calc_ip_checksum
  method CalcIpChecksum(b: array<byte>) returns (checksum: u16)
    modifies b
    ensures b.Length < 20 || b.Length < b[0] % 16 * 4 ==> checksum == 0 && b[..] == old(b[..])
    ensures b.Length >= 20 && b.Length >= old(b[0]) % 16 * 4 ==>
              && checksum == ToChecksum(WordsBut(old(b[..]), 0, old(b[0]) % 16 * 2, 5, 0))
              && b[..] == Put(old(b[..]), 10, checksum)
  {
    if b.Length < 20 {
      return 0;
    }
    var cycles: nat := b[0] % 16 * 2;
    if b.Length < cycles * 2 {
      return 0;
    }
    var sum := SumWords(b, 0, cycles, 5, 0);
    checksum := ToChecksum(sum);
    PutWord(b, 10, checksum);
  }

  // ip4_calc_pseudoheader_sum
  method CalcPseudoheaderSum(b: array<byte>) returns (sum: u16)
    requires Measured(b[..])
    ensures sum == Pseudo(b[..])
  {
    ghost var s := b[..];
    sum := SumWords(b, SOURCE, 4, 4, 0);
    WordsButAdds(s, SOURCE, 4, 4, 0);
    UpdateIsAdd(sum, b[9]);
    sum := Update(sum, b[9]);
    var length: u16 := Short(b[2], b[3]) - b[0] % 16 * 4;
    UpdateIsAdd(sum, length);
    sum := Update(sum, length);
  }

  // ip4_calc_tcp_checksum; the checksum has its place behind sixteen octets of the
  // segment, even of one that is shorter.
  method CalcTcpChecksum(b: array<byte>) returns (checksum: u16)
    requires b.Length >= 40 ==> Measured(b[..]) && HeaderSize(b[..]) + 18 <= b.Length
    modifies b
    ensures b.Length < 40 ==> checksum == 0 && b[..] == old(b[..])
    ensures b.Length >= 40 ==>
              checksum == TcpChecksum(old(b[..])) && b[..] == Put(old(b[..]), HeaderSize(old(b[..])) + 16, checksum)
  {
    if b.Length < 40 {
      return 0;
    }
    var sum := SumSegment(b);
    checksum := ToChecksum(sum);
    PutWord(b, b[0] % 16 * 4 + 16, checksum);
  }

  // Pseudo-header, words but for the checksum, and the odd octet.
  method SumSegment(b: array<byte>) returns (sum: u16)
    requires Measured(b[..])
    ensures var s := b[..]; sum == Add(WordsBut(s, HeaderSize(s), SegmentWords(s), 8, Pseudo(s)), Tail(s))
  {
    var header: nat := b[0] % 16 * 4;
    var total: nat := Short(b[2], b[3]);
    var tcp_len: nat := total - header;
    sum := CalcPseudoheaderSum(b);
    sum := SumWords(b, header, tcp_len / 2, 8, sum);
    if tcp_len % 2 == 1 {
      var odd := Short(b[total - 1], 0);
      UpdateIsAdd(sum, odd);
      sum := Update(sum, odd);
    }
  }

  // ip4_calc_udp_checksum: none, but not in packets of less than 40 octets.
  method CalcUdpChecksum(b: array<byte>)
    requires b.Length >= 40 ==> HeaderSize(b[..]) + 8 <= b.Length
    modifies b
    ensures b[..] == if b.Length < 40 then old(b[..]) else Put(old(b[..]), HeaderSize(old(b[..])) + 6, 0)
  {
    if b.Length < 40 {
      return;
    }
    PutWord(b, b[0] % 16 * 4 + 6, 0);
  }

  // The checksums after a rewritten address or port.
  method Recompute(b: array<byte>)
    requires Consistent(b[..])
    modifies b
    ensures b[..] == Recomputed(old(b[..]))
  {
    var x := CalcIpChecksum(b);
    if b[9] == IPPROTO_TCP {
      x := CalcTcpChecksum(b);
    } else if b[9] == IPPROTO_UDP {
      CalcUdpChecksum(b);
    }
  }

  method PutAddressIn(b: array<byte>, at: nat, address: u32)
    requires at + 3 < b.Length
    modifies b
    ensures b[..] == PutAddress(old(b[..]), at, address)
  {
    PutWord(b, at, address / 0x1_0000);
    PutWord(b, at + 2, address % 0x1_0000);
  }

  class Tunnel {
    var use_masquerade4: bool
    var masquerade4: u32

    constructor ()
      ensures !use_masquerade4
    {
      use_masquerade4, masquerade4 := false, 0;
    }

    // masquerade_src (at SOURCE) and masquerade_dst (at DESTINATION).
    method Masquerade(b: array<byte>, at: nat)
      requires Consistent(b[..]) && (at == SOURCE || at == DESTINATION)
      modifies b
      ensures b[..] == if use_masquerade4 then Recomputed(MasqueradedWith(old(b[..]), at, masquerade4))
                else old(b[..])
      ensures use_masquerade4 ==>
                Consistent(b[..]) && HeaderVerifies(b[..]) && (b[9] == IPPROTO_TCP ==> TcpVerifies(b[..]))
    {
      if use_masquerade4 {
        MasqueradedVerifies(b[..], at, masquerade4);
        PutAddressIn(b, at, masquerade4);
        Recompute(b);
      }
    }
  }

  function MasqueradedWith(s: seq<byte>, at: nat, address: u32): (t: seq<byte>)
    requires Consistent(s) && (at == SOURCE || at == DESTINATION)
    ensures Consistent(t)
  {
    AddressKeepsConsistent(s, at, address);
    PutAddress(s, at, address)
  }
}
