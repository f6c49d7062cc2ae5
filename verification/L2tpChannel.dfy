// The L2TP control channel with windows of one message (section 5.8 of RFC 2661),
// as l2tp.c runs it: what two endpoints that keep to it can rely on when packets
// are lost, repeated and delayed.

module L2tpSequence {
  import opened Bytes

  const MODULUS := 0x1_0000

  function Wrap(n: nat): u16 { n % MODULUS }

  // recv_packet's use of the two numbers of a packet.  Duplicate packets are
  // acknowledged again and dropped; a packet is taken only if it is the next one
  // and says that our own last message has arrived.
  datatype Fate = Duplicate | Ignored | Accepted

  predicate Stale(ns: u16, remote: u16) { (ns - remote) % MODULUS > 32767 }

  function AckedBy(nr: u16, local: u16, acked: bool): bool { acked || nr == local }

  function FateOf(ns: u16, nr: u16, local: u16, remote: u16, acked: bool): Fate {
    if Stale(ns, remote) then Duplicate
    else if ns != remote || !AckedBy(nr, local, acked) then Ignored
    else Accepted
  }
}

module L2tpChannel {
  import opened Bytes
  import opened L2tpSequence

  type Message = seq<byte>

  // A packet: its numbers before they are cut to 16 bits, and the message it
  // carries, if it is not a mere acknowledgement.
  datatype Option<T> = None | Some(value: T)
  datatype Packet = Packet(ns: nat, nr: nat, body: Option<Message>)

  // An endpoint: the counters (the real ones are these cut to 16 bits), whether
  // the last message has been acknowledged, the packet kept for retransmission,
  // all messages ever sent and accepted, and whether it has shut down.
  datatype End = End(local: nat, remote: nat, acked: bool, outgoing: Option<Packet>,
                        sent: seq<Message>, got: seq<Message>, down: bool)

  // Every packet ever put on the wire can arrive, any number of times or never.
  datatype Net = Net(a: End, b: End, fromA: set<Packet>, fromB: set<Packet>)

  function Flip(n: Net): Net { Net(n.b, n.a, n.fromB, n.fromA) }

  function AckOf(e: End): Packet { Packet(e.local, e.remote, None) }

  // set_message and send_packet.
  function SendNew(e: End, m: Message): End {
    e.(local := e.local + 1, acked := false, sent := e.sent + [m],
       outgoing := Some(Packet(e.local, e.remote, Some(m))))
  }

  function Fated(e: End, p: Packet): Fate {
    FateOf(Wrap(p.ns), Wrap(p.nr), Wrap(e.local), Wrap(e.remote), e.acked)
  }

  // recv_packet
  function Received(e: End, p: Packet): End {
    if Fated(e, p) == Duplicate then e
    else
      var e' := e.(acked := AckedBy(Wrap(p.nr), Wrap(e.local), e.acked));
      if Fated(e, p) == Accepted && p.body.Some? then e'.(remote := e.remote + 1, got := e.got + [p.body.value])
      else e'
  }

  // Less than 2^15 sequence numbers old, by the counters of both ends.
  predicate Recent(p: Packet, sender: End, receiver: End) {
    sender.local < p.ns + 0x8000 && receiver.local < p.nr + 0x8000
  }

  // What endpoint a may do: start the conversation, take a packet and answer it
  // with a new message, an acknowledgement or nothing, repeat its last message
  // when the timer runs out, and shut down with a last message.
  datatype Step =
    Connect(m: Message)
  | Take(p: Packet, reply: Option<Message>, ack: bool)
  | Timeout
  | Shutdown(m: Message)

  predicate Possible(n: Net, st: Step) {
    && !n.a.down
    && match st
       case Connect(_) => n.a.local == 0
       case Take(p, reply, _) =>
         && p in n.fromB && Recent(p, n.b, n.a)
         && (reply.Some? ==> Fated(n.a, p) == Accepted)
       case Timeout => !n.a.acked && n.a.outgoing.Some?
       case Shutdown(_) => true
  }

  function Launch(n: Net, e: End): Net
    requires e.outgoing.Some?
  {
    n.(a := e, fromA := n.fromA + {e.outgoing.value})
  }

  function Taken(n: Net, st: Step): Net
    requires Possible(n, st)
  {
    match st
    case Connect(m) => Launch(n, SendNew(n.a, m))
    case Take(p, reply, ack) =>
      var e := Received(n.a, p);
      if reply.Some? then Launch(n, SendNew(e, reply.value))
      else n.(a := e, fromA := n.fromA + if ack then {AckOf(e)} else {})
    case Timeout => n.(fromA := n.fromA + {n.a.outgoing.value})
    case Shutdown(m) => Launch(n, SendNew(n.a, m).(down := true))
  }

  ghost predicate Own(e: End) {
    && e.local == |e.sent| && e.remote == |e.got|
    && (!e.acked && e.local > 0 && !e.down ==>
          e.outgoing == Some(Packet(e.local - 1, e.remote, Some(e.sent[e.local-1]))))
    && (e.outgoing.Some? ==> e.local > 0)
  }

  // A packet of a: no younger than a and b are now, and its message is the one of
  // its number.
  ghost predicate Honest(p: Packet, a: End, b: End) {
    && p.ns <= a.local && p.nr <= a.remote
    && (p.body.Some? ==> p.ns < |a.sent| && a.sent[p.ns] == p.body.value)
  }

  // What b knows of a's messages.
  ghost predicate Half(a: End, b: End, fromA: set<Packet>) {
    && |b.got| <= |a.sent| && b.got == a.sent[..|b.got|]
    && (forall p :: p in fromA ==> Honest(p, a, b))
    && (a.outgoing.Some? ==> a.outgoing.value in fromA)
    && |a.sent| <= |b.got| + (if a.down then 2 else 1)
    && (a.acked && !a.down ==> |b.got| == |a.sent|)
  }

  ghost predicate InOrder(n: Net) {
    && Own(n.a) && Own(n.b)
    && Half(n.a, n.b, n.fromA) && Half(n.b, n.a, n.fromB)
  }

  // Numbers less than 2^15 apart are told apart, and ordered, by their last 16 bits.
  lemma WrapTells(x: nat, y: nat)
    requires -0x8000 < x - y < 0x8000
    ensures Wrap(x) == Wrap(y) <==> x == y
    ensures Stale(Wrap(x), Wrap(y)) <==> x < y
  {
    assert (Wrap(x) - Wrap(y)) % MODULUS == (x - y) % MODULUS;
  }

  // So recv_packet decides as if the numbers never wrapped.
  lemma FateIsTrue(n: Net, p: Packet)
    requires InOrder(n) && p in n.fromB && Recent(p, n.b, n.a)
    ensures Fated(n.a, p) == Duplicate <==> p.ns < n.a.remote
    ensures Fated(n.a, p) == Accepted <==> p.ns == n.a.remote && (n.a.acked || p.nr == n.a.local)
    ensures AckedBy(Wrap(p.nr), Wrap(n.a.local), n.a.acked) <==> n.a.acked || p.nr == n.a.local
  {
    assert Honest(p, n.b, n.a);
    WrapTells(p.ns, n.a.remote);
    WrapTells(p.nr, n.a.local);
  }

  // Taking a packet keeps the channel in order, and whoever accepts one may send.
  lemma ReceivedKeepsOrder(n: Net, p: Packet)
    requires InOrder(n) && !n.a.down && p in n.fromB && Recent(p, n.b, n.a)
    ensures InOrder(n.(a := Received(n.a, p)))
    ensures Fated(n.a, p) == Accepted ==> Received(n.a, p).acked
  {
    FateIsTrue(n, p);
    assert Honest(p, n.b, n.a);
    var e := Received(n.a, p);
    if Fated(n.a, p) == Accepted && p.body.Some? {
      assert n.b.sent[..|e.got|] == n.b.sent[..|n.a.got|] + [n.b.sent[p.ns]];
    }
  }

  lemma LaunchKeepsOrder(n: Net, m: Message, down: bool)
    requires InOrder(n) && !n.a.down
    requires down || n.a.acked || n.a.local == 0
    ensures InOrder(Launch(n, SendNew(n.a, m).(down := down)))
  {
    var e := SendNew(n.a, m).(down := down);
    assert n.b.got == e.sent[..|n.b.got|];
    forall p | p in n.fromA ensures Honest(p, e, n.b) {
      assert Honest(p, n.a, n.b);
    }
  }

  lemma StepKeepsOrder(n: Net, st: Step)
    requires InOrder(n) && Possible(n, st)
    ensures InOrder(Taken(n, st))
  {
    match st
    case Connect(m) => LaunchKeepsOrder(n, m, false);
    case Take(p, reply, ack) =>
      ReceivedKeepsOrder(n, p);
      if reply.Some? {
        LaunchKeepsOrder(n.(a := Received(n.a, p)), reply.value, false);
      }
    case Timeout =>
    case Shutdown(m) => LaunchKeepsOrder(n, m, true);
  }

  datatype Move = Move(byB: bool, step: Step)

  function Turned(n: Net, byB: bool): Net { if byB then Flip(n) else n }

  ghost predicate Run(n: Net, ms: seq<Move>, n': Net)
    decreases |ms|
  {
    if ms == [] then n' == n
    else
      var t := Turned(n, ms[0].byB);
      && Possible(t, ms[0].step)
      && Run(Turned(Taken(t, ms[0].step), ms[0].byB), ms[1..], n')
  }

  function Idle(): End { End(0, 0, false, None, [], [], false) }

  lemma {:induction false} RunKeepsOrder(n: Net, ms: seq<Move>, n': Net)
    requires InOrder(n) && Run(n, ms, n')
    ensures InOrder(n')
    decreases |ms|
  {
    if ms != [] {
      var t := Turned(n, ms[0].byB);
      StepKeepsOrder(t, ms[0].step);
      RunKeepsOrder(Turned(Taken(t, ms[0].step), ms[0].byB), ms[1..], n');
    }
  }

  // In every run, what one end has accepted is what the other has sent, in order
  // and without repetition, short of at most the one message outstanding; after a
  // shutdown, which does not wait for an acknowledgement, at most two.
  lemma AcceptedIsSent(ms: seq<Move>, n: Net)
    requires Run(Net(Idle(), Idle(), {}, {}), ms, n)
    ensures n.b.got <= n.a.sent && |n.a.sent| - |n.b.got| <= if n.a.down then 2 else 1
    ensures n.a.got <= n.b.sent && |n.b.sent| - |n.a.got| <= if n.b.down then 2 else 1
    ensures n.a.acked && !n.a.down ==> n.b.got == n.a.sent
  {
    RunKeepsOrder(Net(Idle(), Idle(), {}, {}), ms, n);
    assert n.a.sent[..|n.a.sent|] == n.a.sent;
  }

  // Until the acknowledgement comes, the packet repeated is the last message with
  // the numbers it was first sent with, and these are still the current ones.
  lemma RepeatsLastMessage(ms: seq<Move>, n: Net)
    requires Run(Net(Idle(), Idle(), {}, {}), ms, n)
    requires !n.a.down && !n.a.acked && n.a.sent != []
    ensures n.a.outgoing == Some(Packet(|n.a.sent| - 1, n.a.remote, Some(n.a.sent[|n.a.sent|-1])))
    ensures Possible(n, Timeout) && Taken(n, Timeout) == n
  {
    RunKeepsOrder(Net(Idle(), Idle(), {}, {}), ms, n);
    assert n.fromA + {n.a.outgoing.value} == n.fromA;
  }
}
