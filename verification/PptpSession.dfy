// pptp.c: the messages sent, and what pptp_process does about those received.

module PptpMessage {
  import opened Bytes
  import opened PptpStream

  const SCCRQ: u16 := 1
  const SCCRP: u16 := 2
  const STOPCCRQ: u16 := 3
  const ECHORQ: u16 := 5
  const ECHORP: u16 := 6
  const OCRQ: u16 := 7
  const OCRP: u16 := 8
  const ICRQ: u16 := 9
  const ICRP: u16 := 10
  const CCRQ: u16 := 12
  const CDN: u16 := 13
  const WEN: u16 := 14
  const SLI: u16 := 15
  const MESSAGE_MAX: u16 := 15

  const RESULT_ERROR: byte := 2
  const MIN_MESSAGE_SIZE := 10

  const LENGTHS: seq<byte> := [0, 156, 156, 16, 16, 16, 20, 168, 32, 220, 24, 28, 16, 148, 40, 24]

  datatype Outgoing =
    ControlRequest
  | CallRequest(call: u16, serial: u16)
  | EchoReply(identifier: u32)
  | Refused(incoming: bool, peer: u16)

  function Type(o: Outgoing): u16 {
    match o
    case ControlRequest => SCCRQ
    case CallRequest(_, _) => OCRQ
    case EchoReply(_) => ECHORP
    case Refused(incoming, _) => if incoming then ICRP else OCRP
  }

  function Zeros(n: nat): (s: seq<byte>)
    ensures |s| == n
  {
    seq(n, _ => 0)
  }

  // The fields behind the message type and the reserved word.
  function Fields(o: Outgoing): (s: seq<byte>)
    ensures 12 + |s| <= LENGTHS[Type(o)]
  {
    match o
    // version 1.0, both framings, both bearers, one channel, "anonymous"
    case ControlRequest => [1, 0, 0, 0, 0, 0, 0, 3, 0, 0, 0, 3, 0, 1, 0, 0]
                           + [0x61, 0x6E, 0x6F, 0x6E, 0x79, 0x6D, 0x6F, 0x75, 0x73]
    // between 1000 and 100000000 bit/s, both bearers, both framings, a window of 8192
    case CallRequest(call, serial) => PutShort(call) + PutShort(serial)
                                      + [0, 0, 0x03, 0xE8, 0x05, 0xF5, 0xE1, 0, 0, 0, 0, 3, 0, 0, 0, 3, 0x20, 0]
    case EchoReply(identifier) => PutLong(identifier) + [1]
    case Refused(_, peer) => [0, 0] + PutShort(peer) + [RESULT_ERROR]
  }

  function Header(type_: u16, length: byte): (s: seq<byte>)
    ensures |s| == 12
  {
    [0, length, 0, 1, 0x1A, 0x2B, 0x3C, 0x4D] + PutShort(type_) + [0, 0]
  }

  // set_message, and the fields set before send_packet.
  function Octets(o: Outgoing): seq<byte> {
    var n: nat := LENGTHS[Type(o)];
    var s := Header(Type(o), LENGTHS[Type(o)]) + Fields(o);
    s + Zeros(n - |s|)
  }

  // Everything sent is framed as it should be, and what is read out of it at the
  // other end is its type.
  lemma OctetsAreMessage(o: Outgoing)
    ensures IsMessage(Octets(o)) && Delivered(Octets(o)) == [Control(LENGTHS[Type(o)], Octets(o))]
    ensures Short(Octets(o)[8], Octets(o)[9]) == Type(o)
  {
    Framing(Type(o), LENGTHS[Type(o)], Fields(o));
  }

  lemma Framing(type_: u16, length: byte, fields: seq<byte>)
    requires 12 + |fields| <= length <= 220
    ensures var s := Header(type_, length) + fields + Zeros(length - 12 - |fields|);
            IsMessage(s) && Delivered(s) == [Control(length, s)] && Short(s[8], s[9]) == type_
  {
    var h := Header(type_, length);
    var s := h + fields + Zeros(length - 12 - |fields|);
    assert forall i :: 0 <= i < 12 ==> s[i] == h[i];
    assert s[..|s|] == s;
  }

  function Sent(os: seq<Outgoing>): (ms: seq<Message>)
    ensures |ms| == |os|
  {
    if os == [] then [] else (OctetsAreMessage(os[0]); [Octets(os[0])] + Sent(os[1..]))
  }

  // The stream of an endpoint, in whatever pieces it arrives, holds its messages.
  lemma SentIsFramed(os: seq<Outgoing>)
    ensures Frames(Concat(Sent(os))) ==
            Framed(seq(|os|, i requires 0 <= i < |os| => Control(LENGTHS[Type(os[i])], Octets(os[i]))),
                |Concat(Sent(os))|, false)
  {
    FramesOfMessages(Sent(os), []);
    assert Concat(Sent(os)) + [] == Concat(Sent(os));
    SentIsDelivered(os);
  }

  lemma {:induction false} SentIsDelivered(os: seq<Outgoing>)
    ensures AllDelivered(Sent(os))
              == seq(|os|, i requires 0 <= i < |os| => Control(LENGTHS[Type(os[i])], Octets(os[i])))
  {
    if os != [] {
      OctetsAreMessage(os[0]);
      SentIsDelivered(os[1..]);
    }
  }
}

module PptpSession {
  import opened Bytes
  import opened PptpStream
  import opened PptpMessage
  import opened PptpReceiver

  datatype View = View(state: u16, local: u16, remote: u16)

  // What random() gives: the first number that is not 0, and a serial number.
  datatype Random = Random(call: u16, serial: u16)

  // A message that is long enough for its type, and the fields anyone asks for.
  datatype Heard = Nonsense | Heard(type_: u16, word: u16, next: u16, status: byte, result: byte)

  function At(front: seq<byte>, i: nat): byte { if i < |front| then front[i] else 0 }

  function Fields(type_: u16, front: seq<byte>): Heard {
    Heard(type_, Short(At(front, 12), At(front, 13)), Short(At(front, 14), At(front, 15)), At(front, 14),
        At(front, 16))
  }

  // The checks at the head of pptp_process.
  function Reading(c: Control): Heard {
    if c.length < MIN_MESSAGE_SIZE then Nonsense
    else
      var type_ := Short(At(c.front, 8), At(c.front, 9));
      if type_ == 0 || type_ > MESSAGE_MAX || c.length < LENGTHS[type_] then Nonsense
      else Fields(type_, c.front)
  }

  datatype Decision = Go(view: View, reply: Reply) | HangUp(view: View)
  datatype Reply = Silence | Say(message: Outgoing)

  // What pptp_process makes of a message.  A result of 0 counts as success.
  function React(v: View, x: Heard, random: Random): Decision {
    if x.Nonsense? then Go(v, Silence)
    else if x.type_ == SCCRP && v.state == SCCRQ then
      if x.word == 0x0100 && x.status <= 1 then
        var call := if v.local == 0 then random.call else v.local;
        Go(v.(local := call, state := OCRQ), Say(CallRequest(call, random.serial)))
      else HangUp(v)
    else if x.type_ == OCRP && v.state == OCRQ && x.next == v.local then
      if x.result <= 1 then Go(v.(remote := x.word, state := OCRP), Silence) else HangUp(v)
    else if x.type_ == STOPCCRQ then HangUp(v.(state := STOPCCRQ))
    else if (x.type_ == CCRQ || x.type_ == CDN) && v.state == OCRP && x.word == v.remote then HangUp(v)
    else if x.type_ == ECHORQ then Go(v, Say(EchoReply(x.word * 0x1_0000 + x.next)))
    else if x.type_ == ICRQ then Go(v, Say(Refused(true, x.word)))
    else if x.type_ == OCRQ then Go(v, Say(Refused(false, x.word)))
    else Go(v, Silence)
  }

  datatype Turn = Turn(x: Heard, random: Random)

  // A run of messages that does not hang up, what it says, and the view it leaves.
  ghost predicate Ran(v: View, ts: seq<Turn>, v': View)
    decreases |ts|
  {
    if ts == [] then v' == v
    else
      var d := React(v, ts[0].x, ts[0].random);
      ts[0].random.call != 0 && d.Go? && Ran(d.view, ts[1..], v')
  }

  predicate Granted(x: Heard) { x.Heard? && x.type_ == SCCRP && x.word == 0x0100 && x.status <= 1 }

  predicate Connected(x: Heard, local: u16, remote: u16) {
    x.Heard? && x.type_ == OCRP && x.next == local && x.result <= 1 && x.word == remote
  }

  // With a call up, there was a reply that granted the connection and after it one
  // that connected the very call asked for; the numbers in use are those of the two.
  lemma {:induction false} UpMeansConnected(v: View, ts: seq<Turn>, v': View)
    requires v.state == SCCRQ && Ran(v, ts, v') && v'.state == OCRP
    ensures exists i, j :: 0 <= i < j < |ts| && Granted(ts[i].x) && Connected(ts[j].x, v'.local, v'.remote)
    ensures v'.local == v.local || v.local == 0
    decreases |ts|
  {
    var d := React(v, ts[0].x, ts[0].random);
    if Granted(ts[0].x) {
      var j := CallComesUp(d.view, ts[1..], v');
      assert Granted(ts[0].x) && Connected(ts[j+1].x, v'.local, v'.remote);
    } else {
      assert d.view == v;
      UpMeansConnected(v, ts[1..], v');
      var i, j :| 0 <= i < j < |ts| - 1 && Granted(ts[1..][i].x) && Connected(ts[1..][j].x, v'.local, v'.remote);
      assert Granted(ts[i+1].x) && Connected(ts[j+1].x, v'.local, v'.remote);
    }
  }

  lemma {:induction false} CallComesUp(v: View, ts: seq<Turn>, v': View) returns (j: nat)
    requires v.state == OCRQ && Ran(v, ts, v') && v'.state == OCRP
    ensures j < |ts| && Connected(ts[j].x, v'.local, v'.remote) && v'.local == v.local
    decreases |ts|
  {
    var d := React(v, ts[0].x, ts[0].random);
    if d.view.state == OCRP {
      CallStays(d.view, ts[1..], v');
      j := 0;
    } else {
      j := CallComesUp(d.view, ts[1..], v');
      j := j + 1;
    }
  }

  // A call that is up keeps its numbers until someone hangs up.
  lemma {:induction false} CallStays(v: View, ts: seq<Turn>, v': View)
    requires v.state == OCRP && Ran(v, ts, v')
    ensures v' == v
    decreases |ts|
  {
    if ts != [] {
      assert React(v, ts[0].x, ts[0].random).view == v;
      CallStays(v, ts[1..], v');
    }
  }

  // Only the call that is up can be cleared, and the connection closed, from outside.
  lemma OnlyOurCallIsCleared(v: View, x: Heard, random: Random)
    requires v.state == OCRP
    ensures React(v, x, random).HangUp? <==>
              x.Heard? && (x.type_ == STOPCCRQ || (x.type_ in {CCRQ, CDN} && x.word == v.remote))
  {
  }

  datatype Outcome = Wait | ProtocolError | RemoteRequested

  class Endpoint {
    var state: u16
    var local: u16
    var remote: u16
    const incoming: Incoming
    // Everything sent.
    ghost var wire: seq<Outgoing>
    var output: seq<byte>

    ghost predicate Valid()
      reads this
    {
      output == Concat(Sent(wire))
    }

    function Now(): View
      reads this
    {
      View(state, local, remote)
    }

    constructor ()
      ensures Valid() && wire == [] && Now() == View(0, 0, 0)
      ensures fresh(incoming) && fresh(incoming.buffer) && incoming.Valid() && incoming.taken == []
    {
      state, local, remote := 0, 0, 0;
      incoming := new Incoming();
      wire, output := [], [];
    }

    // set_message and send_packet
    method Send(o: Outgoing)
      requires Valid()
      modifies this`output, this`wire
      ensures Valid() && wire == old(wire) + [o]
    {
      output := output + Octets(o);
      SentOneMore(wire, o);
      wire := wire + [o];
    }

    // pptp_connect
    method Connect()
      requires Valid()
      modifies this`state, this`output, this`wire
      ensures Valid() && wire == old(wire) + [ControlRequest] && Now() == old(Now()).(state := SCCRQ)
    {
      state := SCCRQ;
      Send(ControlRequest);
    }

    ghost predicate Done(d: Decision, w: seq<Outgoing>, r: Outcome)
      reads this
    {
      && Valid() && Now() == d.view && r == (if d.HangUp? then RemoteRequested else Wait)
      && wire == if d.Go? && d.reply.Say? then w + [d.reply.message] else w
    }

    // pptp_process, behind its checks.
    method Handle(x: Heard, random: Random) returns (r: Outcome)
      requires Valid()
      modifies this`state, this`local, this`remote, this`output, this`wire
      ensures Done(React(old(Now()), x, random), old(wire), r)
    {
      r := Wait;
      if x.Nonsense? {
        return;
      }
      if x.type_ == SCCRP && state == SCCRQ {
        if x.word == 0x0100 && x.status <= 1 {
          if local == 0 {
            local := random.call;
          }
          state := OCRQ;
          Send(CallRequest(local, random.serial));
          return;
        }
        return RemoteRequested;
      }
      if x.type_ == OCRP && state == OCRQ && x.next == local {
        if x.result <= 1 {
          remote := x.word;
          state := OCRP;
          return;
        }
        return RemoteRequested;
      }
      if x.type_ == STOPCCRQ {
        state := STOPCCRQ;
        return RemoteRequested;
      }
      if (x.type_ == CCRQ || x.type_ == CDN) && state == OCRP && x.word == remote {
        return RemoteRequested;
      }
      Answer(x);
    }

    // The messages that are answered in any state.
    method Answer(x: Heard)
      requires Valid() && x.Heard?
      modifies this`output, this`wire
      ensures Valid()
      ensures wire == old(wire) + if x.type_ == ECHORQ then [EchoReply(x.word * 0x1_0000 + x.next)]
                                  else if x.type_ == ICRQ then [Refused(true, x.word)]
                                  else if x.type_ == OCRQ then [Refused(false, x.word)] else []
    {
      if x.type_ == ECHORQ {
        Send(EchoReply(x.word * 0x1_0000 + x.next));
      } else if x.type_ == ICRQ {
        Send(Refused(true, x.word));
      } else if x.type_ == OCRQ {
        Send(Refused(false, x.word));
      }
    }

    // pptp_process, with what recv came back with.
    method Process(octets: seq<byte>, random: Random) returns (r: Outcome)
      requires Valid() && incoming.Valid() && !incoming.Failed() && |octets| <= incoming.Wanted()
      modifies this`state, this`local, this`remote, this`output, this`wire, incoming, incoming.buffer
      ensures Valid() && incoming.Valid() && incoming.taken == old(incoming.taken) + octets
      ensures old(AllDelivered(incoming.whole)) <= AllDelivered(incoming.whole)
      ensures var new_ := AllDelivered(incoming.whole)[|old(AllDelivered(incoming.whole))|..];
              if new_ == [] then Now() == old(Now()) && wire == old(wire)
                                 && (r == RemoteRequested <==> octets == [])
                                     && (r == ProtocolError <==> incoming.Failed())
              else |new_| == 1 && Done(React(old(Now()), Reading(new_[0]), random), old(wire), r)
    {
      var result := incoming.Recv(octets);
      if result == Closed {
        return RemoteRequested;
      } else if result == LostSync {
        return ProtocolError;
      } else if result == NotYet {
        return Wait;
      }
      var front := incoming.buffer[..Min(incoming.length, MAX_PACKET_LENGTH)];
      r := Handle(Reading(Control(incoming.length, front)), random);
    }
  }

  lemma {:induction false} SentOneMore(os: seq<Outgoing>, o: Outgoing)
    ensures Concat(Sent(os + [o])) == Concat(Sent(os)) + Octets(o)
  {
    if os == [] {
      assert [o][1..] == [];
      assert Sent([o]) == [Octets(o)] && Concat([Octets(o)][1..]) == [];
    } else {
      assert (os + [o])[0] == os[0] && (os + [o])[1..] == os[1..] + [o];
      SentOneMore(os[1..], o);
    }
  }
}
