// tun_usernat.c: the user-space NAT for IPv4.  What it does to the answer to a packet
// undoes what it did to the packet, virtual DNS addresses included.

module NatRules {
  import opened Bytes

  const TCP: byte := 6
  const UDP: byte := 17

  // A DNS server and the address under which it is offered; 0 stands for none.
  datatype Name = Name(server: u32, offered: u32)

  predicate Active(n: Name) { n.server != 0 && n.offered != 0 }

  datatype Config = Config(local4: u32, remote4: u32, names: seq<Name>)

  // The first entry with that virtual, or that real address.
  function FirstVirtual(names: seq<Name>, a: u32): (i: nat)
    ensures i <= |names| && (i < |names| ==> Active(names[i]) && names[i].offered == a)
    ensures forall j :: 0 <= j < i && Active(names[j]) ==> names[j].offered != a
  {
    if names == [] || (Active(names[0]) && names[0].offered == a) then 0 else 1 + FirstVirtual(names[1..], a)
  }

  function FirstReal(names: seq<Name>, a: u32): (i: nat)
    ensures i <= |names| && (i < |names| ==> Active(names[i]) && names[i].server == a)
    ensures forall j :: 0 <= j < i && Active(names[j]) ==> names[j].server != a
  {
    if names == [] || (Active(names[0]) && names[0].server == a) then 0 else 1 + FirstReal(names[1..], a)
  }

  function ToReal(names: seq<Name>, a: u32): u32 {
    var i := FirstVirtual(names, a);
    if i < |names| then names[i].server else a
  }

  function ToVirtual(names: seq<Name>, a: u32): u32 {
    var i := FirstReal(names, a);
    if i < |names| then names[i].offered else a
  }

  // There is one way back from an address: if it is virtual, no entry in front of the
  // first one that offers it has the same real address; if it is not, no entry has it
  // for its real address.
  ghost predicate Reversible(names: seq<Name>, a: u32) {
    forall j :: 0 <= j < FirstVirtual(names, a) && Active(names[j]) ==> names[j].server != ToReal(names, a)
  }

  // Translating back an address that was translated gives it again just then.
  lemma TranslationReversed(names: seq<Name>, a: u32)
    ensures ToVirtual(names, ToReal(names, a)) == a <==> Reversible(names, a)
  {
    var i, k := FirstVirtual(names, a), FirstReal(names, ToReal(names, a));
    if i < |names| {
      assert k <= i;
    } else if k < |names| {
      assert Active(names[k]) && names[k].offered != a;
    }
  }

  // With different real addresses, the way back can only be lost for one of these.
  lemma DistinctIsReversible(names: seq<Name>, a: u32)
    requires forall i, j :: 0 <= i < j < |names| && Active(names[i]) && Active(names[j])
              ==> names[i].server != names[j].server
    requires forall j :: 0 <= j < |names| && Active(names[j]) ==> names[j].server != a
    ensures Reversible(names, a)
  {
  }

  // A link: the two ends as the sender knows them, and the port in between.  When its
  // helper process has failed or ended a link is not alive, but stays for a while.
  datatype Link = Link(proto: byte, srcAddr: u32, srcPort: u16, dstAddr: u32, dstPort: u16, hop: u16, alive: bool)

  datatype Flow = Flow(proto: byte, src: u32, sport: u16, dst: u32, dport: u16)

  function Reverse(f: Flow): Flow { Flow(f.proto, f.dst, f.dport, f.src, f.sport) }

  predicate Incoming(c: Config, f: Flow) { f.dst == c.remote4 }

  predicate Outgoing(c: Config, f: Flow) { f.dst != c.remote4 && f.src == c.local4 }

  predicate Matches(l: Link, c: Config, f: Flow, incoming: bool) {
    && l.proto == f.proto && l.srcAddr == c.local4
    && if incoming then l.srcPort == f.dport && l.hop == f.sport
       else l.srcPort == f.sport && l.dstAddr == f.dst && l.dstPort == f.dport
  }

  // find_link4: the first link that matches.
  datatype Found = NoLink | Found(link: Link)

  function Find(links: seq<Link>, c: Config, f: Flow, incoming: bool): Found {
    if links == [] then NoLink
    else if Matches(links[0], c, f, incoming) then Found(links[0])
    else Find(links[1..], c, f, incoming)
  }

  // No link in front of the i-th matches.
  lemma {:induction false} FindFinds(links: seq<Link>, c: Config, f: Flow, incoming: bool) returns (i: nat)
    ensures i <= |links| && forall j :: 0 <= j < i ==> !Matches(links[j], c, f, incoming)
    ensures var x := Find(links, c, f, incoming);
            if x.Found? then i < |links| && x.link == links[i] && Matches(x.link, c, f, incoming) else i == |links|
  {
    if links == [] || Matches(links[0], c, f, incoming) {
      i := 0;
    } else {
      i := FindFinds(links[1..], c, f, incoming);
      assert forall j :: 0 < j < |links| ==> links[j] == links[1..][j-1];
      i := i + 1;
    }
  }

  // What the world adds: whether the packet opens a connection, whether sockets could
  // be had and with what port, and whether the helper process could be started.
  datatype World = World(syn: bool, sockets: bool, hop: u16, started: bool)

  datatype Fate = Dropped | Passed(flow: Flow)
  datatype Outcome = Outcome(links: seq<Link>, fate: Fate)

  function ToHop(c: Config, l: Link, f: Flow): Flow { Flow(f.proto, c.remote4, f.sport, c.local4, l.hop) }

  function FromHop(c: Config, l: Link, f: Flow): Flow {
    Flow(f.proto, ToVirtual(c.names, l.dstAddr), l.dstPort, c.local4, f.dport)
  }

  function NewLink(f: Flow, w: World): Link { Link(f.proto, f.src, f.sport, f.dst, f.dport, w.hop, w.started) }

  predicate Opens(f: Flow, w: World) { w.sockets && (f.proto == TCP ==> w.syn) }

  // usernat_tun_ctx_send, by way of find_link.
  function Send(c: Config, links: seq<Link>, f: Flow, w: World): Outcome {
    if (!Incoming(c, f) && !Outgoing(c, f)) || (f.proto != TCP && f.proto != UDP) then Outcome(links, Dropped)
    else if Incoming(c, f) then
      var x := Find(links, c, f, true);
      Outcome(links, if x.Found? then Passed(FromHop(c, x.link, f)) else Dropped)
    else
      var fwd := f.(dst := ToReal(c.names, f.dst));
      var x := Find(links, c, fwd, false);
      if x.Found? then Outcome(links, Passed(ToHop(c, x.link, f)))
      else if !Opens(f, w) then Outcome(links, Dropped)
      else Outcome([NewLink(fwd, w)] + links, if w.started then Passed(ToHop(c, NewLink(fwd, w), f)) else Dropped)
  }

  // Of the links of a protocol with the same port only the first can be alive: the
  // system gives a port anew only when its link is not.
  ghost predicate DistinctHops(links: seq<Link>) {
    forall i, j :: 0 <= i < j < |links| && links[i].proto == links[j].proto && links[i].hop == links[j].hop
        ==> !links[j].alive
  }

  // The link that a packet goes by.
  lemma Carrier(c: Config, links: seq<Link>, f: Flow, w: World) returns (l: Link)
    requires Outgoing(c, f) && Send(c, links, f, w).fate.Passed?
    ensures l in Send(c, links, f, w).links && Matches(l, c, f.(dst := ToReal(c.names, f.dst)), false)
    ensures Send(c, links, f, w).fate == Passed(ToHop(c, l, f))
  {
    var fwd := f.(dst := ToReal(c.names, f.dst));
    var i := FindFinds(links, c, fwd, false);
    var x := Find(links, c, fwd, false);
    l := if x.Found? then x.link else NewLink(fwd, w);
  }

  // The answer to a packet that went by a link which is still alive comes back, from
  // the address the packet was sent to if and only if there is one way back from it.
  lemma AnswerComesBack(c: Config, links: seq<Link>, f: Flow, l: Link, w: World)
    requires (f.proto == TCP || f.proto == UDP) && Outgoing(c, f)
    requires Matches(l, c, f.(dst := ToReal(c.names, f.dst)), false)
    requires l in links && l.alive && DistinctHops(links)
    ensures var out := Send(c, links, Reverse(ToHop(c, l, f)), w);
            && out.links == links && out.fate.Passed?
            && out.fate.flow == Reverse(f).(src := ToVirtual(c.names, ToReal(c.names, f.dst)))
            && (out.fate.flow == Reverse(f) <==> Reversible(c.names, f.dst))
  {
    var g := Reverse(ToHop(c, l, f));
    var j :| 0 <= j < |links| && links[j] == l;
    assert Matches(l, c, g, true);
    var i := FindFinds(links, c, g, true);
    assert i <= j;
    TranslationReversed(c.names, f.dst);
  }

  // Runs: packets from both sides, links whose process ends, and links given up.
  datatype Event = Packet(flow: Flow, world: World) | Die(link: Link) | Expire(link: Link)

  function Dropping(links: seq<Link>, l: Link): seq<Link> {
    if links == [] then [] else if links[0] == l then links[1..] else [links[0]] + Dropping(links[1..], l)
  }

  function Killing(links: seq<Link>, l: Link): seq<Link> {
    if links == [] then [] else if links[0] == l then [l.(alive := false)] + links[1..]
        else [links[0]] + Killing(links[1..], l)
  }

  // The system gives no port that a living link of the same protocol has.
  ghost predicate Fresh(links: seq<Link>, e: Event) {
    e.Packet? ==> forall l :: l in links && l.alive && l.proto == e.flow.proto ==> l.hop != e.world.hop
  }

  function After(c: Config, links: seq<Link>, e: Event): seq<Link> {
    match e
    case Packet(f, w) => Send(c, links, f, w).links
    case Die(l) => Killing(links, l)
    case Expire(l) => Dropping(links, l)
  }

  ghost predicate Run(c: Config, links: seq<Link>, es: seq<Event>, links': seq<Link>)
    decreases |es|
  {
    if es == [] then links' == links
    else Fresh(links, es[0]) && Run(c, After(c, links, es[0]), es[1..], links')
  }

  lemma {:induction false} DroppingKeeps(links: seq<Link>, l: Link, other: Link)
    requires DistinctHops(links)
    ensures DistinctHops(Dropping(links, l))
    ensures forall x :: x in Dropping(links, l) ==> x in links
    ensures other in links && other != l ==> other in Dropping(links, l)
  {
    if links != [] && links[0] != l {
      DroppingKeeps(links[1..], l, other);
      InFront(links, Dropping(links[1..], l));
    }
  }

  // A list put behind the first link keeps to the rule if what it holds was there.
  lemma InFront(links: seq<Link>, rest: seq<Link>)
    requires links != [] && DistinctHops(links) && DistinctHops(rest)
    requires forall x :: x in rest ==> x in links[1..] || !x.alive
    ensures DistinctHops([links[0]] + rest)
  {
    var all := [links[0]] + rest;
    forall j | 0 < j < |all| && all[j].proto == links[0].proto && all[j].hop == links[0].hop ensures !all[j].alive {
      assert all[j] == rest[j-1] && all[j] in rest;
      if all[j] in links[1..] {
        var k :| 0 <= k < |links[1..]| && links[1..][k] == all[j];
        assert links[k+1] == all[j];
      }
    }
    assert forall j :: 0 < j < |all| ==> all[j] == rest[j-1];
  }

  lemma {:induction false} KillingKeeps(links: seq<Link>, l: Link, other: Link)
    requires DistinctHops(links)
    ensures DistinctHops(Killing(links, l))
    ensures forall x :: x in Killing(links, l) ==> x in links || !x.alive
    ensures other in links && other != l ==> other in Killing(links, l)
  {
    if links != [] && links[0] != l {
      KillingKeeps(links[1..], l, other);
      InFront(links, Killing(links[1..], l));
    } else if links != [] {
      var all := Killing(links, l);
      assert forall j :: 0 < j < |all| ==> all[j] == links[j];
      assert other in links && other != l ==> other in links[1..];
    }
  }

  lemma SendKeeps(c: Config, links: seq<Link>, f: Flow, w: World)
    requires DistinctHops(links) && Fresh(links, Packet(f, w))
    ensures DistinctHops(Send(c, links, f, w).links)
    ensures forall l :: l in links ==> l in Send(c, links, f, w).links
  {
    var l := NewLink(f.(dst := ToReal(c.names, f.dst)), w);
    if Send(c, links, f, w).links == [l] + links {
      var all := [l] + links;
      assert forall j :: 0 < j < |all| ==> all[j] == links[j-1] && all[j] in links;
    }
  }

  lemma {:induction false} RunKeeps(c: Config, links: seq<Link>, es: seq<Event>, links': seq<Link>, l: Link)
    requires DistinctHops(links) && Run(c, links, es, links')
    ensures DistinctHops(links')
    ensures l in links && Expire(l) !in es && Die(l) !in es ==> l in links'
    decreases |es|
  {
    if es != [] {
      match es[0]
      case Packet(f, w) => SendKeeps(c, links, f, w);
        RunKeeps(c, After(c, links, es[0]), es[1..], links', l);
      case Die(k) => KillingKeeps(links, k, l);
        RunKeeps(c, After(c, links, es[0]), es[1..], links', l);
      case Expire(k) => DroppingKeeps(links, k, l);
        RunKeeps(c, After(c, links, es[0]), es[1..], links', l);
    }
  }

  // In every run from the start: a packet that passed, then anything but the end of its
  // link, then its answer: this comes out as the exact reverse of the packet if
  // and only if there is one way back from the address the packet was sent to.
  lemma AnswersUndoRequests(c: Config, before: seq<Event>, f: Flow, w: World, between: seq<Event>, w': World,
                            links: seq<Link>, links': seq<Link>)
    returns (l: Link)
    requires (f.proto == TCP || f.proto == UDP) && Outgoing(c, f)
    requires Run(c, [], before, links) && Fresh(links, Packet(f, w)) && Send(c, links, f, w).fate.Passed?
    requires Run(c, Send(c, links, f, w).links, between, links')
    ensures l in Send(c, links, f, w).links && Send(c, links, f, w).fate == Passed(ToHop(c, l, f))
    ensures l.alive && Expire(l) !in between && Die(l) !in between ==>
              var answer := Send(c, links', Reverse(Send(c, links, f, w).fate.flow), w');
              && answer.fate.Passed?
              && (answer.fate == Passed(Reverse(f)) <==> Reversible(c.names, f.dst))
  {
    l := Carrier(c, links, f, w);
    RunKeeps(c, [], before, links, l);
    SendKeeps(c, links, f, w);
    RunKeeps(c, Send(c, links, f, w).links, between, links', l);
    if l.alive && Expire(l) !in between && Die(l) !in between {
      AnswerComesBack(c, links', f, l, w');
    }
  }

  // What find_link has done to the packet by then: an address under which a DNS server
  // is offered is replaced, even if the packet goes nowhere afterwards.
  function Destination(c: Config, f: Flow): u32 { if Outgoing(c, f) then ToReal(c.names, f.dst) else f.dst }
}
