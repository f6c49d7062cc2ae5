// tun_usernat.c: the NAT on its list of links and on the octets of a packet.

module NatPacket {
  import opened Bytes
  import opened OnesComplement
  import opened Ip4Packet
  import opened NatRules

  predicate HasPorts(s: seq<byte>)
    requires |s| >= 20
  {
    s[9] == IPPROTO_TCP || s[9] == IPPROTO_UDP
  }

  function AddressAt(s: seq<byte>, at: nat): u32
    requires at + 3 < |s|
  {
    ShortAt(s, at) * 0x1_0000 + ShortAt(s, at + 2)
  }

  function SourcePort(s: seq<byte>): u16
    requires Consistent(s)
  {
    if HasPorts(s) then ShortAt(s, HeaderSize(s)) else 0
  }

  function DestinationPort(s: seq<byte>): u16
    requires Consistent(s)
  {
    if HasPorts(s) then ShortAt(s, HeaderSize(s) + 2) else 0
  }

  function FlowOf(s: seq<byte>): Flow
    requires Consistent(s)
  {
    Flow(s[9], AddressAt(s, SOURCE), SourcePort(s), AddressAt(s, DESTINATION), DestinationPort(s))
  }

  predicate IsSyn(s: seq<byte>)
    requires Consistent(s)
  {
    s[9] == IPPROTO_TCP && s[HeaderSize(s) + 13] / 2 % 2 == 1
  }

  // New addresses, and a new port at one end.
  function Readdressed(s: seq<byte>, src: u32, dst: u32, portAt: nat, port: u16): (t: seq<byte>)
    requires Consistent(s) && HasPorts(s) && (portAt == 0 || portAt == 2)
    ensures Consistent(t)
  {
    Put(PutAddress(PutAddress(s, SOURCE, src), DESTINATION, dst), HeaderSize(s) + portAt, port)
  }

  // What an octet of the payload is: not an address, a port or a checksum.
  predicate IsPayload(s: seq<byte>, i: nat)
    requires Consistent(s)
  {
    !(SOURCE <= i < SOURCE + 8) && !(HeaderSize(s) <= i < HeaderSize(s) + 4) && !IsChecksum(s, i)
  }

  lemma ReaddressedReads(s: seq<byte>, src: u32, dst: u32, portAt: nat, port: u16)
    requires Consistent(s) && HasPorts(s) && (portAt == 0 || portAt == 2)
    ensures var t := Readdressed(s, src, dst, portAt, port);
            && FlowOf(t) == Flow(s[9], src, if portAt == 0 then port else SourcePort(s),
                                 dst, if portAt == 2 then port else DestinationPort(s))
            && HeaderSize(t) == HeaderSize(s) && t[9] == s[9]
            && (forall i :: 0 <= i < |s| && IsPayload(s, i) ==> t[i] == s[i])
  {
    var t1 := PutAddress(s, SOURCE, src);
    var t2 := PutAddress(t1, DESTINATION, dst);
    var t := Readdressed(s, src, dst, portAt, port);
    AddressPut(s, SOURCE, src);
    AddressPut(t1, DESTINATION, dst);
    AddressSame(t1, t, SOURCE);
    AddressSame(t2, t, DESTINATION);
    PortsPut(s, t2, t, portAt, port);
  }

  lemma AddressPut(s: seq<byte>, at: nat, a: u32)
    requires at + 3 < |s|
    ensures AddressAt(PutAddress(s, at, a), at) == a
  {
  }

  lemma AddressSame(s: seq<byte>, t: seq<byte>, at: nat)
    requires at + 3 < |s| && |t| == |s| && s[at] == t[at] && s[at+1] == t[at+1] && s[at+2] == t[at+2]
              && s[at+3] == t[at+3]
    ensures AddressAt(s, at) == AddressAt(t, at)
  {
  }

  lemma PortsPut(s: seq<byte>, u: seq<byte>, t: seq<byte>, portAt: nat, port: u16)
    requires Consistent(s) && HasPorts(s) && (portAt == 0 || portAt == 2)
    requires |u| == |s| && (forall i :: 0 <= i < |s| && !(SOURCE <= i < SOURCE + 8) ==> u[i] == s[i])
    requires t == Put(u, HeaderSize(s) + portAt, port)
    ensures Consistent(t) && HasPorts(t) && HeaderSize(t) == HeaderSize(s) && t[9] == s[9]
    ensures SourcePort(t) == if portAt == 0 then port else SourcePort(s)
    ensures DestinationPort(t) == if portAt == 2 then port else DestinationPort(s)
  {
    var h := HeaderSize(s);
    assert u[h] == s[h] && u[h+1] == s[h+1] && u[h+2] == s[h+2] && u[h+3] == s[h+3];
  }

  lemma RecomputedReads(s: seq<byte>)
    requires Consistent(s)
    ensures Consistent(Recomputed(s)) && FlowOf(Recomputed(s)) == FlowOf(s)
  {
    RecomputedVerifies(s);
    var t := Recomputed(s);
    assert forall i :: 12 <= i < 20 ==> t[i] == s[i];
    if HasPorts(s) {
      var h := HeaderSize(s);
      assert t[h] == s[h] && t[h+1] == s[h+1] && t[h+2] == s[h+2] && t[h+3] == s[h+3];
    }
  }

  // The packet that goes on reads as the new flow, verifies, and carries what it carried.
  lemma ForwardedReads(s: seq<byte>, src: u32, dst: u32, portAt: nat, port: u16)
    requires Consistent(s) && HasPorts(s) && (portAt == 0 || portAt == 2)
    ensures var r := Readdressed(s, src, dst, portAt, port);
            var t := Recomputed(r);
            && Consistent(t) && FlowOf(t) == FlowOf(r) && HeaderVerifies(t)
                && (s[9] == IPPROTO_TCP ==> TcpVerifies(t))
            && (forall i :: 0 <= i < |s| && IsPayload(s, i) ==> t[i] == s[i])
  {
    var r := Readdressed(s, src, dst, portAt, port);
    ReaddressedReads(s, src, dst, portAt, port);
    RecomputedVerifies(r);
    RecomputedReads(r);
  }
}

module UserNat {
  import opened Bytes
  import opened OnesComplement
  import opened Ip4Packet
  import opened Masquerade
  import opened NatRules
  import opened NatPacket

  class Node {
    const link: Link
    const next: Node?

    constructor (link: Link, next: Node?)
      ensures this.link == link && this.next == next
    {
      this.link, this.next := link, next;
    }
  }

  // Virtual addresses of DNS servers, both ways.
  method Real(names: seq<Name>, a: u32) returns (r: u32)
    ensures r == ToReal(names, a)
  {
    for i := 0 to |names|
      invariant forall j :: 0 <= j < i && Active(names[j]) ==> names[j].offered != a
    {
      if names[i].server != 0 && names[i].offered != 0 && names[i].offered == a {
        return names[i].server;
      }
    }
    r := a;
  }

  method Virtual(names: seq<Name>, a: u32) returns (r: u32)
    ensures r == ToVirtual(names, a)
  {
    for i := 0 to |names|
      invariant forall j :: 0 <= j < i && Active(names[j]) ==> names[j].server != a
    {
      if names[i].server != 0 && names[i].offered != 0 && names[i].server == a {
        return names[i].offered;
      }
    }
    r := a;
  }

  class Nat {
    const config: Config
    var head: Node?
    ghost var nodes: seq<Node>
    ghost var links: seq<Link>

    ghost predicate Valid()
      reads this
    {
      && |nodes| == |links| && head == (if nodes == [] then null else nodes[0])
      && (forall i {:trigger nodes[i].next} ::
            0 <= i < |nodes| ==> nodes[i].next == if i + 1 < |nodes| then nodes[i+1] else null)
      && (forall i :: 0 <= i < |nodes| ==> nodes[i].link == links[i])
    }

    constructor (config: Config)
      ensures Valid() && links == [] && this.config == config
    {
      this.config := config;
      head, nodes, links := null, [], [];
    }

    // find_link4
    method FindLink4(f: Flow, incoming: bool) returns (x: Found)
      requires Valid()
      ensures x == Find(links, config, f, incoming)
    {
      var curr := head;
      ghost var i: nat := 0;
      while curr != null
        invariant i <= |nodes| && curr == if i < |nodes| then nodes[i] else null
        invariant Find(links[i..], config, f, incoming) == Find(links, config, f, incoming)
        decreases |nodes| - i
      {
        assert links[i..][0] == curr.link && links[i..][1..] == links[i+1..];
        if Matches(curr.link, config, f, incoming) {
          return Found(curr.link);
        }
        curr := curr.next;
        i := i + 1;
      }
      x := NoLink;
    }

    method Prepend(l: Link)
      requires Valid()
      modifies this`head, this`nodes, this`links
      ensures Valid() && links == [l] + old(links)
    {
      head := new Node(l, head);
      nodes, links := [head] + nodes, [l] + links;
    }

    // find_link: what becomes of a packet, by its addresses and ports.
    method Forward(f: Flow, w: World) returns (fate: Fate)
      requires Valid()
      modifies this`head, this`nodes, this`links
      ensures Valid() && Outcome(links, fate) == Send(config, old(links), f, w)
    {
      if f.dst == config.remote4 {
        if f.proto != TCP && f.proto != UDP {
          return Dropped;
        }
        var x := FindLink4(f, true);
        if x.NoLink? {
          return Dropped;
        }
        var src := Virtual(config.names, x.link.dstAddr);
        return Passed(Flow(f.proto, src, x.link.dstPort, config.local4, f.dport));
      }
      if f.src != config.local4 || (f.proto != TCP && f.proto != UDP) {
        return Dropped;
      }
      var dst := Real(config.names, f.dst);
      var fwd := f.(dst := dst);
      var x := FindLink4(fwd, false);
      if x.NoLink? {
        if !w.sockets || (f.proto == TCP && !w.syn) {
          return Dropped;
        }
        x := Found(NewLink(fwd, w));
        Prepend(x.link);
        if !w.started {
          return Dropped;
        }
      }
      fate := Passed(Flow(f.proto, config.remote4, f.sport, config.local4, x.link.hop));
    }

    // usernat_tun_ctx_send, on the packet itself.
    method SendPacket(b: array<byte>, sockets: bool, hop: u16, started: bool) returns (passed: bool)
      requires Valid() && Consistent(b[..])
      modifies this`head, this`nodes, this`links, b
      ensures Valid() && Consistent(b[..])
      ensures Outcome(links, if passed then Passed(FlowOf(b[..])) else Dropped)
              == Send(config, old(links), FlowOf(old(b[..])), World(IsSyn(old(b[..])), sockets, hop, started))
      ensures passed ==> HeaderVerifies(b[..]) && (b[9] == IPPROTO_TCP ==> TcpVerifies(b[..]))
      ensures passed ==> forall i :: 0 <= i < b.Length && IsPayload(old(b[..]), i) ==> b[i] == old(b[i])
      ensures !passed ==> b[..] == PutAddress(old(b[..]), DESTINATION, Destination(config, FlowOf(old(b[..]))))
    {
      ghost var s := b[..];
      var f := FlowOf(b[..]);
      var fate := Forward(f, World(IsSyn(b[..]), sockets, hop, started));
      if fate.Dropped? {
        // find_link has changed the address already.
        AddressKept(s, f.dst);
        if f.dst != config.remote4 && f.src == config.local4 {
          var dst := Real(config.names, f.dst);
          AddressKeepsConsistent(s, DESTINATION, dst);
          if dst != f.dst {
            PutAddressIn(b, DESTINATION, dst);
          }
        }
        return false;
      }
      SentHasPorts(config, old(links), f, World(IsSyn(s), sockets, hop, started));
      Rewrite(b, fate.flow, f.dst == config.remote4);
      passed := true;
    }
  }

  lemma AddressKept(s: seq<byte>, a: u32)
    requires Consistent(s) && a == AddressAt(s, DESTINATION)
    ensures PutAddress(s, DESTINATION, a) == s
  {
    var t := PutAddress(s, DESTINATION, a);
    SameWord(s[DESTINATION], s[DESTINATION+1], t[DESTINATION], t[DESTINATION+1]);
    SameWord(s[DESTINATION+2], s[DESTINATION+3], t[DESTINATION+2], t[DESTINATION+3]);
  }

  lemma SameWord(a: byte, b: byte, c: byte, d: byte)
    ensures Short(a, b) == Short(c, d) ==> a == c && b == d
  {
  }

  // The direction of a packet decides which of its ports is rewritten.
  lemma SentHasPorts(c: Config, links: seq<Link>, f: Flow, w: World)
    requires Send(c, links, f, w).fate.Passed?
    ensures var g := Send(c, links, f, w).fate.flow;
            && (f.proto == TCP || f.proto == UDP) && g.proto == f.proto
            && if f.dst == c.remote4 then g.dport == f.dport else g.sport == f.sport
  {
  }

  method Rewrite(b: array<byte>, g: Flow, incoming: bool)
    requires Consistent(b[..]) && HasPorts(b[..]) && g.proto == b[9]
    requires if incoming then g.dport == FlowOf(b[..]).dport else g.sport == FlowOf(b[..]).sport
    modifies b
    ensures Consistent(b[..]) && FlowOf(b[..]) == g
    ensures HeaderVerifies(b[..]) && (b[9] == IPPROTO_TCP ==> TcpVerifies(b[..]))
    ensures forall i :: 0 <= i < b.Length && IsPayload(old(b[..]), i) ==> b[i] == old(b[i])
  {
    ghost var s := b[..];
    var at: nat := b[0] % 16 * 4;
    PutAddressIn(b, SOURCE, g.src);
    PutAddressIn(b, DESTINATION, g.dst);
    if incoming {
      PutWord(b, at, g.sport);
    } else {
      PutWord(b, at + 2, g.dport);
    }
    ghost var portAt, port := if incoming then 0 else 2, if incoming then g.sport else g.dport;
    assert b[..] == Readdressed(s, g.src, g.dst, portAt, port);
    ReaddressedReads(s, g.src, g.dst, portAt, port);
    ForwardedReads(s, g.src, g.dst, portAt, port);
    Recompute(b);
    assert forall i :: 0 <= i < b.Length ==> b[i] == b[..][i];
  }
}
