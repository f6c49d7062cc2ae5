// l2tp.c: one endpoint of the control connection, with its packet buffer.  Every
// move it makes on the wire is a step of L2tpChannel.

module L2tpEndpoint {
  import opened Bytes
  import opened L2tpAvp
  import opened L2tpSequence
  import opened L2tpChannel
  import opened L2tpPacket
  import opened L2tpSession

  datatype Outcome = Wait(milliseconds: nat) | Exit(reason: Reason)

  const TIMEOUT_INTERVAL := 2000

  // What goes out: a message, the same once more, or a mere acknowledgement.
  datatype Sending = New(octets: seq<byte>) | Again(octets: seq<byte>) | Bare(octets: seq<byte>)

  // The last message of all that went out.
  function Last(wire: seq<Sending>): seq<byte>
    decreases |wire|
  {
    if wire == [] then []
    else if wire[|wire|-1].New? then wire[|wire|-1].octets
    else Last(wire[..|wire|-1])
  }

  // Whatever was repeated was the last message.
  ghost predicate Repeats(wire: seq<Sending>)
    decreases |wire|
  {
    wire == [] ||
    (Repeats(wire[..|wire|-1]) && (wire[|wire|-1].Again? ==> wire[|wire|-1].octets == Last(wire[..|wire|-1])))
  }

  // That is, octet by octet the nearest new one in front of it.
  lemma {:induction false} RepeatsNearest(wire: seq<Sending>, i: nat)
    requires Repeats(wire) && i < |wire| && wire[i].Again?
    ensures (exists j :: 0 <= j < i && wire[j] == New(wire[i].octets) && forall k :: j < k < i ==> !wire[k].New?)
            || (wire[i].octets == [] && forall k :: 0 <= k < i ==> !wire[k].New?)
    decreases |wire|
  {
    var n := |wire| - 1;
    if i < n {
      RepeatsNearest(wire[..n], i);
      assert forall k :: 0 <= k < n ==> wire[..n][k] == wire[k];
    } else {
      LastIsNearest(wire[..n]);
      assert forall k :: 0 <= k < n ==> wire[..n][k] == wire[k];
    }
  }

  lemma {:induction false} LastIsNearest(wire: seq<Sending>)
    ensures (exists j ::
              0 <= j < |wire| && wire[j] == New(Last(wire)) && forall k :: j < k < |wire| ==> !wire[k].New?)
            || (Last(wire) == [] && forall k :: 0 <= k < |wire| ==> !wire[k].New?)
    decreases |wire|
  {
    if wire != [] && !wire[|wire|-1].New? {
      var n := |wire| - 1;
      LastIsNearest(wire[..n]);
      assert forall k :: 0 <= k < n ==> wire[..n][k] == wire[k];
    } else if wire != [] {
      assert wire[|wire|-1] == New(Last(wire));
    }
  }

  // All that went out, and its last message.
  ghost predicate Logged(wire: seq<Sending>, last: seq<byte>) {
    forall w: seq<Sending> :: w == wire ==> last == Last(w) && Repeats(w)
  }

  lemma LoggedMore(wire: seq<Sending>, last: seq<byte>, x: Sending)
    requires Logged(wire, last) && (x.Again? ==> x.octets == last)
    ensures Logged(wire + [x], if x.New? then x.octets else last)
  {
    assert (wire + [x])[..|wire|] == wire;
    assert last == Last(wire) && Repeats(wire);
  }

  // What is no new message leaves the last one the last.
  lemma LastKept(wire: seq<Sending>, x: Sending)
    requires !x.New?
    ensures Last(wire + [x]) == Last(wire)
  {
    assert (wire + [x])[..|wire|] == wire;
  }

  // So unless a decision sends a message, what would be repeated stays the same.
  lemma KeptUnlessSent(w: seq<Sending>, e: End, d: Decision)
    requires d.Go? ==> !d.reply.Send?
    ensures Last(w + Octets(e, d)) == Last(w)
  {
    if Octets(e, d) == [] {
      assert w + [] == w;
    } else {
      LastKept(w, Octets(e, d)[0]);
    }
  }

  lemma KeptWhenDropped(w: seq<Sending>, heard: Parsed, remoteTunnel: u16, e: End, p: Packet)
    ensures Last(w + AcksAgain(heard, remoteTunnel, e, p)) == Last(w)
  {
    var more := AcksAgain(heard, remoteTunnel, e, p);
    if more == [] {
      assert w + [] == w;
    } else {
      LastKept(w, more[0]);
    }
  }

  lemma LoggedNothing()
    ensures Logged([], [])
  {
  }

  // The octets are the packet of the channel that carries a message.
  ghost predicate Holds(b: seq<byte>, p: Packet) {
    forall c: seq<byte> :: c == b ==>
      && |c| >= MESSAGE_HEADER_SIZE
      && ShortAt(c, 8) == Wrap(p.ns) && ShortAt(c, 10) == Wrap(p.nr)
      && p.body == Some(c[ACK_SIZE..])
  }

  // Octets written into the buffer one by one.
  method Paste(buffer: array<byte>, at: nat, octets: seq<byte>)
    requires at + |octets| <= buffer.Length
    modifies buffer
    ensures buffer[at..at + |octets|] == octets
    ensures buffer[..at] == old(buffer[..at])
  {
    for i := 0 to |octets|
      invariant forall j :: at <= j < at + i ==> buffer[j] == octets[j - at]
      invariant forall j :: 0 <= j < at ==> buffer[j] == old(buffer[j])
    {
      buffer[at + i] := octets[i];
    }
  }

  method PasteBehind(buffer: array<byte>, from: nat, at: nat, octets: seq<byte>)
    requires 2 <= from <= at && at + |octets| <= buffer.Length
    modifies buffer
    ensures buffer[from..at + |octets|] == old(buffer[from..at]) + octets
    ensures buffer[0] == old(buffer[0]) && buffer[1] == old(buffer[1])
  {
    ghost var before := buffer[..at];
    Paste(buffer, at, octets);
    assert buffer[0] == buffer[..at][0] && buffer[1] == buffer[..at][1];
    assert buffer[from..at + |octets|] == buffer[..at][from..] + buffer[at..at + |octets|];
  }

  method AttributeOctets(kind: u16, value: seq<byte>) returns (octets: seq<byte>)
    requires Fits(Plain(kind, value))
    ensures octets == EncodeOne(Plain(kind, value)) && |octets| == ATTRIBUTE_HEADER_SIZE + |value|
  {
    var size: nat := ATTRIBUTE_HEADER_SIZE + |value|;
    octets := PutShort(0x8000 + size) + [0, 0] + PutShort(kind) + value;
  }

  // A brief message is far below what a length field can say.
  function MessageOf(h: Header, type_: u16, avps: Own): seq<byte> {
    BriefBody(type_, avps);
    MessageBytes(h, Body(type_, avps))
  }

  lemma BriefBody(type_: u16, avps: Own)
    ensures |Body(type_, avps)| <= 8 + 38 * |avps|
  {
    BriefEncode(avps);
  }

  lemma {:induction false} BriefEncode(avps: seq<Avp>)
    requires Sendable(avps) && forall a :: a in avps ==> |a.value| <= 32
    ensures |Encode(avps)| <= 38 * |avps|
  {
    if avps != [] {
      EncodeOneSize(avps[0]);
      BriefEncode(avps[1..]);
    }
  }

  function AckNumbers(remoteTunnel: u16, e: End): Header {
    Header(remoteTunnel, 0, Wrap(e.local), Wrap(e.remote))
  }

  // What a decision puts on the wire, and what it makes of an endpoint that has
  // received the packet.
  ghost function Octets(e: End, d: Decision): seq<Sending> {
    if d.Stop? || d.reply.Silence? then []
    else if d.reply.Acknowledge? then [Bare(HeaderBytes(ACK_SIZE, AckNumbers(d.view.remoteTunnel, e)))]
    else [New(MessageOf(AckNumbers(d.view.remoteTunnel, e).(session := d.reply.session), d.reply.message,
                        Avps(d.reply.content)))]
  }

  ghost function After(e: End, d: Decision): End {
    if d.Go? && d.reply.Send? then SendNew(e, Body(d.reply.message, Avps(d.reply.content))) else e
  }

  // What was read is the packet p of the channel.
  ghost predicate Stands(heard: Parsed, p: Packet) {
    heard.Heard? ==>
      && heard.header.ns == Wrap(p.ns) && heard.header.nr == Wrap(p.nr)
      && (heard.message == ACK <==> p.body.None?)
  }

  ghost predicate Accepts(heard: Parsed, e: End, p: Packet) { heard.Heard? && Fated(e, p) == Accepted }

  // A message that came before is acknowledged once more.
  ghost function AcksAgain(heard: Parsed, remoteTunnel: u16, e: End, p: Packet): seq<Sending> {
    if heard.Heard? && Fated(e, p) == Duplicate && heard.message != ACK
    then [Bare(HeaderBytes(ACK_SIZE, AckNumbers(remoteTunnel, e)))] else []
  }

  // A packet that is not stale leaves the sending side alone.
  lemma ReceivedFresh(e: End, p: Packet) returns (e': End)
    requires Fated(e, p) != Duplicate
    ensures e' == Received(e, p) && e'.local == e.local && e'.outgoing == e.outgoing
    ensures e'.acked == AckedBy(Wrap(p.nr), Wrap(e.local), e.acked)
    ensures e'.remote == if Fated(e, p) == Accepted && p.body.Some? then e.remote + 1 else e.remote
  {
    e' := Received(e, p);
  }

  // What follows says nothing about single octets before it is asked.

  ghost predicate IsBody(body: seq<byte>, type_: u16, avps: Own) {
    forall t: u16, s: Own :: t == type_ && s == avps ==> body == Body(t, s)
  }

  // The header behind its first four octets.
  ghost predicate IsWords(words: seq<byte>, h: Header) {
    forall g: Header :: g == h ==> words == HeaderBytes(0, g)[4..]
  }

  // The end e with everything sent so far, w, has become e' and w' by one message.
  ghost predicate Sends(e: End, w: seq<Sending>, h: Header, type_: u16, avps: Own, e': End, w': seq<Sending>) {
    forall own: Own :: own == avps ==> e' == SendNew(e, Body(type_, own)) && w' == w + [New(MessageOf(h, type_, own))]
  }

  ghost predicate Obeys(e: End, w: seq<Sending>, d: Decision, e': End, w': seq<Sending>) {
    forall c: Decision :: c == d ==> e' == After(e, c) && w' == w + Octets(e, c)
  }

  ghost function OutcomeOf(d: Decision): Outcome {
    if d.Stop? then Exit(d.reason) else Wait(if d.reply.Send? then TIMEOUT_INTERVAL else 0)
  }

  ghost predicate IsAvps(avps: Own, content: Content) {
    forall c: Content :: c == content ==> avps == Avps(c)
  }

  method AvpsOf(content: Content) returns (avps: Own)
    ensures IsAvps(avps, content)
  {
    avps := Avps(content);
  }

  lemma SendsObeys(e: End, w: seq<Sending>, h: Header, d: Decision, avps: Own, e': End, w': seq<Sending>)
    requires d.Go? && d.reply.Send? && IsAvps(avps, d.reply.content)
    requires h == AckNumbers(d.view.remoteTunnel, e).(session := d.reply.session)
    requires Sends(e, w, h, d.reply.message, avps, e', w')
    ensures Obeys(e, w, d, e', w')
  {
    assert avps == Avps(d.reply.content);
    assert e' == SendNew(e, Body(d.reply.message, avps));
  }

  lemma SentSo(e: End, w: seq<Sending>, h: Header, type_: u16, avps: Own, body: seq<byte>, b: seq<byte>)
    requires IsBody(body, type_, avps) && IsMessage(b, h, body)
    ensures Sends(e, w, h, type_, avps, SendNew(e, body), w + [New(b)])
  {
    assert body == Body(type_, avps);
    assert b == MessageBytes(h, body);
  }

  // These octets are that message.
  ghost predicate IsMessage(b: seq<byte>, h: Header, body: seq<byte>) {
    ACK_SIZE + |body| < 0x1_0000 && forall g: Header :: g == h ==> b == MessageBytes(g, body)
  }

  lemma Sealed(h: Header, words: seq<byte>, body: seq<byte>, length: u16, e: End, b: seq<byte>)
    requires IsWords(words, h) && length == ACK_SIZE + |body| && |body| >= 8
    requires h.ns == Wrap(e.local) && h.nr == Wrap(e.remote)
    requires b == Front(length) + (words + body)
    ensures IsMessage(b, h, body) && Holds(b, Packet(e.local, e.remote, Some(body)))
  {
    assert words == HeaderBytes(0, h)[4..];
    HeaderReads(length, h, body);
    assert HeaderBytes(length, h) == Front(length) + words;
    assert b == MessageBytes(h, body);
  }

  // The first four octets.
  function Front(length: u16): (s: seq<byte>)
    ensures |s| == 4
  {
    [FLAG_HIGH, FLAG_LOW, Hi(length), Lo(length)]
  }

  class Endpoint {
    var localTunnel: u16
    var localSession: u16
    var localSequence: u16
    var remoteTunnel: u16
    var remoteSession: u16
    var remoteSequence: u16
    var state: u16
    var acknowledged: bool
    var message: u16
    var length: nat
    const buffer: array<byte>
    const keys: Keys
    // Everything sent, and this end of the channel.
    ghost var wire: seq<Sending>
    ghost var end: End

    ghost predicate Counted()
      reads this
    {
      localSequence == Wrap(end.local) && remoteSequence == Wrap(end.remote) && acknowledged == end.acked
    }

    ghost predicate Valid()
      reads this, buffer
    {
      && buffer.Length == MAX_PACKET_LENGTH && length <= MAX_PACKET_LENGTH
      && Counted()
      && (end.outgoing.Some? ==> Holds(buffer[..length], end.outgoing.value))
      && Logged(wire, buffer[..length])
    }

    function Numbers(session: u16): Header
      reads this
    {
      Header(remoteTunnel, session, localSequence, remoteSequence)
    }

    function View(): View
      reads this
    {
      L2tpSession.View(state, localTunnel, localSession, remoteTunnel, remoteSession)
    }

    // A message in the making: everything but its length is in place.
    ghost predicate Draft(words: seq<byte>, body: seq<byte>)
      reads this, buffer
    {
      && buffer.Length == MAX_PACKET_LENGTH && |words| == 8 && |body| >= 8
      && length == ACK_SIZE + |body| <= MAX_PACKET_LENGTH
      && buffer[0] == FLAG_HIGH && buffer[1] == FLAG_LOW
      && buffer[4..length] == words + body
    }

    constructor (keys: Keys, tunnel: u16)
      ensures Valid() && end == Idle() && wire == [] && View() == L2tpSession.View(ACK, tunnel, 0, 0, 0)
      ensures fresh(buffer) && this.keys == keys
    {
      this.keys := keys;
      localTunnel, localSession, localSequence := tunnel, 0, 0;
      remoteTunnel, remoteSession, remoteSequence := 0, 0, 0;
      state, acknowledged, message, length := ACK, false, 0, 0;
      buffer := new byte[MAX_PACKET_LENGTH](_ => 0);
      wire, end := [], Idle();
      LoggedNothing();
      new;
      assert buffer[..length] == [];
    }

    // set_message
    method SetMessage(session: u16, type_: u16) returns (ghost words: seq<byte>)
      requires buffer.Length == MAX_PACKET_LENGTH
      modifies this`message, this`length, this`localSequence, buffer
      ensures Draft(words, TypeBytes(type_)) && IsWords(words, old(Numbers(session)))
      ensures localSequence == (old(localSequence) + 1) % 0x1_0000
    {
      ghost var h := Numbers(session);
      buffer[0], buffer[1] := FLAG_HIGH, FLAG_LOW;
      var words' := [Hi(remoteTunnel), Lo(remoteTunnel), Hi(session), Lo(session),
                     Hi(localSequence), Lo(localSequence), Hi(remoteSequence), Lo(remoteSequence)];
      var opening := [0x80, 0x08, 0, 0, 0, 0, Hi(type_), Lo(type_)];
      words := words';
      assert words == HeaderBytes(0, h)[4..] && opening == TypeBytes(type_);
      Paste(buffer, 4, words' + opening);
      message := type_;
      length := MESSAGE_HEADER_SIZE;
      assert buffer[0] == buffer[..4][0] && buffer[1] == buffer[..4][1];
      localSequence := (localSequence + 1) % 0x1_0000;
    }

    // add_attribute_raw, for one attribute after another.
    method AddOctets(octets: seq<byte>, ghost words: seq<byte>, ghost body: seq<byte>)
      requires Draft(words, body) && length + |octets| <= MAX_PACKET_LENGTH
      modifies this`length, buffer
      ensures Draft(words, body + octets)
    {
      PasteBehind(buffer, 4, length, octets);
      length := length + |octets|;
      assert words + body + octets == words + (body + octets);
    }

    method AddAttribute(kind: u16, value: seq<byte>, ghost words: seq<byte>, ghost body: seq<byte>)
      requires Draft(words, body) && Fits(Plain(kind, value))
      requires length + ATTRIBUTE_HEADER_SIZE + |value| <= MAX_PACKET_LENGTH
      modifies this`length, buffer
      ensures Draft(words, body + EncodeOne(Plain(kind, value)))
    {
      var octets := AttributeOctets(kind, value);
      AddOctets(octets, words, body);
    }

    // send_packet, where a message begun with SetMessage goes out.
    method SendPacket(ghost h: Header, ghost words: seq<byte>, ghost body: seq<byte>, ghost e: End,
                      ghost last: seq<byte>)
      requires Draft(words, body) && IsWords(words, h) && Logged(wire, last)
      requires h.ns == Wrap(e.local) && h.nr == Wrap(e.remote)
      requires localSequence == Wrap(e.local + 1) && remoteSequence == Wrap(e.remote)
      modifies this`acknowledged, this`wire, this`end, buffer
      ensures Valid() && end == SendNew(e, body)
      ensures wire == old(wire) + [New(buffer[..length])] && IsMessage(buffer[..length], h, body)
    {
      Seal(words, body);
      Sealed(h, words, body, length, e, buffer[..length]);
      LoggedMore(wire, last, New(buffer[..length]));
      wire := wire + [New(buffer[..length])];
      acknowledged := false;
      end := SendNew(e, body);
    }

    method Seal(ghost words: seq<byte>, ghost body: seq<byte>)
      requires Draft(words, body)
      modifies buffer
      ensures buffer[..length] == Front(length) + (words + body)
    {
      ghost var rest := buffer[4..length];
      buffer[2], buffer[3] := Hi(length), Lo(length);
      assert buffer[4..length] == rest;
      assert buffer[..length] == buffer[..4] + buffer[4..length];
    }

    method AddAttributes(type_: u16, avps: Own, ghost words: seq<byte>) returns (ghost body: seq<byte>)
      requires Draft(words, TypeBytes(type_))
      modifies this`length, buffer
      ensures Draft(words, body) && IsBody(body, type_, avps)
    {
      body := TypeBytes(type_);
      BodyStarts(type_, avps);
      for i := 0 to |avps|
        invariant Draft(words, body) && |body| <= 8 + 38 * i
        invariant body == Body(type_, avps[..i])
      {
        AddAttribute(avps[i].kind, avps[i].value, words, body);
        BodyGrows(type_, avps, i);
        body := body + EncodeOne(avps[i]);
      }
    }

    method ReplyWith(session: u16, type_: u16, avps: Own) returns (ghost body: seq<byte>, ghost b: seq<byte>)
      requires Valid()
      modifies this`message, this`length, this`localSequence, this`acknowledged, this`wire, this`end, buffer
      ensures Valid() && end == SendNew(old(end), body) && wire == old(wire) + [New(b)]
      ensures IsBody(body, type_, avps) && IsMessage(b, old(Numbers(session)), body)
    {
      ghost var h, last := Numbers(session), buffer[..length];
      ghost var words := SetMessage(session, type_);
      body := AddAttributes(type_, avps, words);
      SendPacket(h, words, body, end, last);
      b := buffer[..length];
    }

    // A whole message: set_message, its attributes, send_packet.
    method Reply(session: u16, type_: u16, avps: Own)
      requires Valid()
      modifies this`message, this`length, this`localSequence, this`acknowledged, this`wire, this`end, buffer
      ensures Valid()
      ensures Sends(old(end), old(wire), old(Numbers(session)), type_, avps, end, wire)
    {
      ghost var h, e, w := Numbers(session), end, wire;
      ghost var body, b := ReplyWith(session, type_, avps);
      SentSo(e, w, h, type_, avps, body, b);
    }

    // send_ack
    method SendAck()
      requires Valid()
      modifies this`wire
      ensures Valid() && wire == old(wire) + [Bare(HeaderBytes(ACK_SIZE, AckNumbers(remoteTunnel, end)))]
    {
      var octets := HeaderBytes(ACK_SIZE, Header(remoteTunnel, 0, localSequence, remoteSequence));
      LoggedMore(wire, buffer[..length], Bare(octets));
      wire := wire + [Bare(octets)];
    }

    // recv_packet, behind its checks of the format: whether to handle the packet.
    method RecvPacket(heard: Parsed, ghost p: Packet) returns (ok: bool)
      requires Valid() && Stands(heard, p)
      modifies this`acknowledged, this`remoteSequence, this`wire, this`end
      ensures Valid()
      ensures ok <==> Accepts(heard, old(end), p)
      ensures end == if heard.Heard? then Received(old(end), p) else old(end)
      ensures wire == old(wire) + AcksAgain(heard, remoteTunnel, old(end), p)
    {
      if heard.Dropped? {
        return false;
      }
      var ns, nr := heard.header.ns, heard.header.nr;
      if (ns - remoteSequence) % 0x1_0000 > 32767 {
        if heard.message != ACK {
          SendAck();
        }
        return false;
      }
      if nr == localSequence {
        acknowledged := true;
      }
      end := ReceivedFresh(end, p);
      if ns != remoteSequence || !acknowledged {
        return false;
      }
      if heard.message != ACK {
        remoteSequence := (remoteSequence + 1) % 0x1_0000;
      }
      ok := true;
    }

    // This decision has been carried out, on an endpoint that was e and had sent w.
    ghost predicate Done(d: Decision, e: End, w: seq<Sending>, r: Outcome)
      reads this, buffer
    {
      && Valid() && View() == d.view && r == OutcomeOf(d)
      && Obeys(e, w, d, end, wire)
    }

    // The message a decision asks for.
    method CarryOut(session: u16, type_: u16, content: Content, ghost h: Header, ghost d: Decision)
      requires Valid() && d == Go(View(), Send(session, type_, content))
      requires h == Numbers(session) == AckNumbers(remoteTunnel, end).(session := session)
      modifies this`message, this`length, this`localSequence, this`acknowledged, this`wire, this`end, buffer
      ensures Valid() && Obeys(old(end), old(wire), d, end, wire)
    {
      ghost var e, w := end, wire;
      var avps := AvpsOf(content);
      Reply(session, type_, avps);
      SendsObeys(e, w, h, d, avps, end, wire);
    }

    method Carry(session: u16, type_: u16, content: Content)
      requires Valid()
      modifies this`message, this`length, this`localSequence, this`acknowledged, this`wire, this`end, buffer
      ensures Done(Go(View(), Send(session, type_, content)), old(end), old(wire), Wait(TIMEOUT_INTERVAL))
    {
      ghost var d := Go(View(), Send(session, type_, content));
      CarryOut(session, type_, content, Numbers(session), d);
      assert d == Go(View(), Send(session, type_, content));
    }

    method HandleSccrp(b: seq<byte>) returns (r: Outcome)
      requires Valid() && state == SCCRQ
      modifies this, buffer
      ensures Done(OnSccrp(old(View()), Reading(keys, Attributes(b, MESSAGE_HEADER_SIZE))), old(end), old(wire), r)
    {
      var tunnel := GetAttribute(keys.md5, keys.secret, b, ASSIGNED_TUNNEL, 2);
      var proven := VerifyChallenge(keys, b);
      if |tunnel| == 2 && Short(tunnel[0], tunnel[1]) != 0 && proven {
        remoteTunnel := Short(tunnel[0], tunnel[1]);
        state := SCCCN;
        var answer := AnswerChallenge(keys, b);
        Carry(0, SCCCN, Answer(answer));
        return Wait(TIMEOUT_INTERVAL);
      }
      r := Exit(if AnyNonzero(tunnel) then CHALLENGE_FAILED else PROTOCOL_ERROR);
    }

    method HandleIcrp(b: seq<byte>) returns (r: Outcome)
      requires Valid()
      modifies this, buffer
      ensures Done(OnIcrp(old(View()), Reading(keys, Attributes(b, MESSAGE_HEADER_SIZE))), old(end), old(wire), r)
    {
      var session := GetU16(keys, b, ASSIGNED_SESSION);
      if session == 0 {
        return Exit(PROTOCOL_ERROR);
      }
      remoteSession := session;
      state := ICCN;
      Carry(session, ICCN, CallDetails);
      r := Wait(TIMEOUT_INTERVAL);
    }

    method HandleHarmless(type_: u16, random: Random) returns (r: Outcome)
      requires Valid()
      modifies this, buffer
      ensures Done(OnHarmless(old(View()), type_, random), old(end), old(wire), r)
    {
      if state == SCCCN {
        if localSession == 0 {
          localSession := random.session;
        }
        state := ICRQ;
        Carry(0, ICRQ, CallRequest(localSession, random.serial));
        return Wait(TIMEOUT_INTERVAL);
      }
      if type_ != ACK {
        SendAck();
      }
      if state == ICCN {
        state := ACK;
      }
      r := Wait(0);
    }

    method HandleCall(b: seq<byte>) returns (r: Outcome)
      requires Valid()
      modifies this, buffer
      ensures Done(OnCall(old(View()), Reading(keys, Attributes(b, MESSAGE_HEADER_SIZE))), old(end), old(wire), r)
    {
      var session := GetU16(keys, b, ASSIGNED_SESSION);
      if session != 0 {
        Carry(session, CDN, Refusal);
        return Wait(TIMEOUT_INTERVAL);
      }
      SendAck();
      r := Wait(0);
    }

    // l2tp_process, behind recv_packet.
    method Handle(b: seq<byte>, session: u16, type_: u16, random: Random) returns (r: Outcome)
      requires Valid()
      modifies this, buffer
      ensures Done(React(old(View()), Input(session, type_, Reading(keys, Attributes(b, MESSAGE_HEADER_SIZE))),
                random),
                   old(end), old(wire), r)
    {
      if type_ == SCCRP && state == SCCRQ {
        r := HandleSccrp(b);
      } else if type_ == ICRP && state == ICRQ && session == localSession {
        r := HandleIcrp(b);
      } else if type_ == STOPCCN {
        state := STOPCCN;
        r := Exit(REMOTE_REQUESTED);
      } else if type_ == CDN && session != 0 && session == localSession {
        r := Exit(REMOTE_REQUESTED);
      } else if type_ == ACK || type_ == HELLO || type_ == WEN || type_ == SLI {
        r := HandleHarmless(type_, random);
      } else if type_ == ICRQ || type_ == OCRQ {
        r := HandleCall(b);
      } else {
        SendAck();
        r := Wait(0);
      }
    }

    // What l2tp_process makes of a packet that reads so, from that view and end.
    ghost predicate Processed(heard: Parsed, avps: seq<Avp>, random: Random, p: Packet,
                              v: View, e: End, w: seq<Sending>, r: Outcome)
      reads this, buffer
    {
      if Accepts(heard, e, p) then
        Done(React(v, Input(heard.header.session, heard.message, Reading(keys, avps)), random), Received(e, p), w, r)
      else
        && Valid() && View() == v && r == Wait(if acknowledged then 0 else TIMEOUT_INTERVAL)
        && end == (if heard.Heard? then Received(e, p) else e)
        && wire == w + AcksAgain(heard, remoteTunnel, e, p)
    }

    method ProcessHeard(heard: Parsed, b: seq<byte>, random: Random, ghost p: Packet) returns (r: Outcome)
      requires Valid() && Stands(heard, p)
      modifies this, buffer
      ensures Processed(heard, Attributes(b, MESSAGE_HEADER_SIZE), random, p, old(View()), old(end), old(wire), r)
    {
      var ok := RecvPacket(heard, p);
      if !ok {
        return Wait(if acknowledged then 0 else TIMEOUT_INTERVAL);
      }
      assert AcksAgain(heard, remoteTunnel, old(end), p) == [] && wire == old(wire);
      r := Handle(b, heard.header.session, heard.message, random);
    }

    // l2tp_process
    method Process(b: seq<byte>, random: Random, ghost p: Packet) returns (r: Outcome)
      requires Valid() && Stands(Parse(b, localTunnel), p)
      modifies this, buffer
      ensures Processed(Parse(b, old(localTunnel)), Attributes(b, MESSAGE_HEADER_SIZE), random, p,
                        old(View()), old(end), old(wire), r)
    {
      var heard := Parse(b, localTunnel);
      r := ProcessHeard(heard, b, random, p);
    }

    // l2tp_connect
    method Connect() returns (r: Outcome)
      requires Valid() && end == Idle() && |keys.challenge| == 32
      modifies this, buffer
      ensures Valid() && r == Wait(TIMEOUT_INTERVAL)
      ensures View() == old(View()).(state := SCCRQ)
      ensures Sends(Idle(), old(wire), old(Numbers(0)), SCCRQ, Opening(keys, localTunnel), end, wire)
    {
      state := SCCRQ;
      Reply(0, SCCRQ, Opening(keys, localTunnel));
      r := Wait(TIMEOUT_INTERVAL);
    }

    // l2tp_timeout: the message goes out again, octet by octet as it went out last.
    method Timeout() returns (r: Outcome)
      requires Valid()
      modifies this`wire
      ensures Valid()
      ensures acknowledged ==> wire == old(wire) && r == Wait(0)
      ensures !acknowledged ==> wire == old(wire) + [Again(Last(old(wire)))] && r == Wait(TIMEOUT_INTERVAL)
    {
      if acknowledged {
        return Wait(0);
      }
      assert wire == wire ==> buffer[..length] == Last(wire);
      LoggedMore(wire, buffer[..length], Again(buffer[..length]));
      wire := wire + [Again(buffer[..length])];
      r := Wait(TIMEOUT_INTERVAL);
    }

    // l2tp_shutdown
    method Shutdown()
      requires Valid()
      modifies this`message, this`length, this`localSequence, this`acknowledged, this`wire, this`end, buffer
      ensures Valid()
      ensures state == STOPCCN ==> end == old(end) && wire == old(wire)
      ensures state != STOPCCN ==>
                Sends(old(end), old(wire), old(Numbers(0)), STOPCCN, Farewell(localTunnel), end, wire)
    {
      if state != STOPCCN {
        Reply(0, STOPCCN, Farewell(localTunnel));
      }
    }
  }

  function Farewell(tunnel: u16): Own {
    Two(ASSIGNED_TUNNEL, [Hi(tunnel), Lo(tunnel)], RESULT_CODE, [0, 6])
  }

  // HOST_NAME is "anonymous".
  function Opening(keys: Keys, tunnel: u16): Own
    requires |keys.challenge| == 32
  {
    [Plain(PROTOCOL_VERSION, [1, 0]), Plain(HOST_NAME, [0x61, 0x6E, 0x6F, 0x6E, 0x79, 0x6D, 0x6F, 0x75, 0x73]),
     Plain(FRAMING_CAPABILITIES, [0, 0, 0, 3]), Plain(ASSIGNED_TUNNEL, [Hi(tunnel), Lo(tunnel)]),
         Plain(WINDOW_SIZE, [0, 1])]
    + if keys.secret.Secret? then [Plain(CHALLENGE, keys.challenge)] else []
  }

  method GetU16(keys: Keys, b: seq<byte>, kind: u16) returns (x: u16)
    ensures x == FindU16(keys, Attributes(b, MESSAGE_HEADER_SIZE), kind)
  {
    var s := GetAttribute(keys.md5, keys.secret, b, kind, 2);
    x := if |s| == 2 then Short(s[0], s[1]) else 0;
  }

  method VerifyChallenge(keys: Keys, b: seq<byte>) returns (ok: bool)
    ensures ok <==> Proven(keys, Attributes(b, MESSAGE_HEADER_SIZE))
  {
    if keys.secret.NoSecret? {
      return true;
    }
    var response := GetAttribute(keys.md5, keys.secret, b, CHALLENGE_RESPONSE, DIGEST);
    if |response| != DIGEST {
      return false;
    }
    ok := Response(keys, SCCRP, keys.challenge) == response;
  }

  method AnswerChallenge(keys: Keys, b: seq<byte>) returns (answer: Own)
    ensures answer == Answered(keys, Attributes(b, MESSAGE_HEADER_SIZE))
  {
    answer := [];
    if keys.secret.Secret? {
      var c := GetAttribute(keys.md5, keys.secret, b, CHALLENGE, MAX_ATTRIBUTE_SIZE);
      if |c| > 0 {
        answer := [Plain(CHALLENGE_RESPONSE, Response(keys, SCCCN, c))];
      }
    }
  }

  // What one endpoint writes, the other reads as the packet of the channel that it
  // is, and as the message it was meant to be.
  lemma SentIsUnderstood(e: End, tunnel: u16, session: u16, type_: u16, avps: Own)
    requires type_ != ACK
    ensures var h := AckNumbers(tunnel, e).(session := session);
            var b := MessageOf(h, type_, avps);
            && Parse(b, tunnel) == Heard(h, type_) && Attributes(b, MESSAGE_HEADER_SIZE) == avps
            && Stands(Parse(b, tunnel), SendNew(e, Body(type_, avps)).outgoing.value)
  {
    BriefBody(type_, avps);
    ParseOfMessage(AckNumbers(tunnel, e).(session := session), type_, avps);
  }

  lemma AckIsUnderstood(e: End, tunnel: u16)
    ensures var b := HeaderBytes(ACK_SIZE, AckNumbers(tunnel, e));
            && Parse(b, tunnel) == Heard(AckNumbers(tunnel, e), ACK)
            && Stands(Parse(b, tunnel), AckOf(e))
  {
    ParseOfAck(AckNumbers(tunnel, e));
  }

  // In every run of an endpoint whatever goes out again is the last message, unchanged:
  // every method keeps Valid.
  lemma RepetitionsAreFaithful(x: Endpoint, i: nat)
    requires x.Valid() && i < |x.wire| && x.wire[i].Again?
    ensures (exists j ::
              0 <= j < i && x.wire[j] == New(x.wire[i].octets) && forall k :: j < k < i ==> !x.wire[k].New?)
            || (x.wire[i].octets == [] && forall k :: 0 <= k < i ==> !x.wire[k].New?)
    ensures x.buffer[..x.length] == Last(x.wire)
  {
    assert x.buffer[..x.length] == Last(x.wire) && Repeats(x.wire);
    RepeatsNearest(x.wire, i);
  }

  // What was put on the wire is, as the peer reads it, nothing or one packet of the
  // channel.
  ghost predicate Reads(more: seq<Sending>, tunnel: u16, news: set<Packet>) {
    if more == [] then news == {}
    else |more| == 1 && exists q :: news == {q} && ReadsAs(more[0].octets, tunnel, q)
  }

  ghost predicate ReadsAs(b: seq<byte>, tunnel: u16, q: Packet) {
    Parse(b, tunnel).Heard? && Stands(Parse(b, tunnel), q)
  }

  lemma NeverSendsAck(v: View, x: Heard, random: Random)
    ensures var d := React(v, x, random); d.Go? && d.reply.Send? ==> d.reply.message != ACK
  {
  }

  // The packet that a decision puts on the wire, if any.
  ghost function Says(e: End, d: Decision): set<Packet> {
    if d.Go? && d.reply.Send? then {SendNew(e, Body(d.reply.message, Avps(d.reply.content))).outgoing.value}
    else if d.Go? && d.reply.Acknowledge? then {AckOf(e)} else {}
  }

  lemma OneReads(x: Sending, tunnel: u16, q: Packet)
    requires ReadsAs(x.octets, tunnel, q)
    ensures Reads([x], tunnel, {q})
  {
    assert [x][0] == x;
  }

  lemma MessageReads(e: End, tunnel: u16, session: u16, type_: u16, avps: Own)
    requires type_ != ACK
    ensures ReadsAs(MessageOf(AckNumbers(tunnel, e).(session := session), type_, avps), tunnel,
                    SendNew(e, Body(type_, avps)).outgoing.value)
  {
    SentIsUnderstood(e, tunnel, session, type_, avps);
  }

  lemma AckReads(e: End, tunnel: u16)
    ensures ReadsAs(HeaderBytes(ACK_SIZE, AckNumbers(tunnel, e)), tunnel, AckOf(e))
  {
    AckIsUnderstood(e, tunnel);
  }

  lemma DecisionReads(e: End, d: Decision)
    requires d.Go? && d.reply.Send? ==> d.reply.message != ACK
    ensures Reads(Octets(e, d), d.view.remoteTunnel, Says(e, d))
  {
    var tunnel := d.view.remoteTunnel;
    if d.Go? && d.reply.Send? {
      var avps := Avps(d.reply.content);
      MessageReads(e, tunnel, d.reply.session, d.reply.message, avps);
      OneReads(New(MessageOf(AckNumbers(tunnel, e).(session := d.reply.session), d.reply.message, avps)), tunnel,
               SendNew(e, Body(d.reply.message, avps)).outgoing.value);
    } else if d.Go? && d.reply.Acknowledge? {
      AckReads(e, tunnel);
      OneReads(Bare(HeaderBytes(ACK_SIZE, AckNumbers(tunnel, e))), tunnel, AckOf(e));
    }
  }

  // Handling a packet is a step of the channel, of which L2tpChannel.AcceptedIsSent
  // and the others speak: for the end, and for what is put on the wire.
  lemma HandlingIsStep(n: Net, heard: Parsed, v: View, x: Heard, random: Random, p: Packet, w: seq<Sending>,
      e': End, w': seq<Sending>)
    requires !n.a.down && p in n.fromB && Recent(p, n.b, n.a) && Accepts(heard, n.a, p)
    requires Obeys(Received(n.a, p), w, React(v, x, random), e', w')
    ensures var d := React(v, x, random);
            var reply := if d.Go? && d.reply.Send? then Some(Body(d.reply.message, Avps(d.reply.content))) else None;
            var st := Take(p, reply, d.Go? && d.reply.Acknowledge?);
            var e := Received(n.a, p);
            && Possible(n, st) && Taken(n, st).a == e' && Taken(n, st).fromA == n.fromA + Says(e, d)
            && w' == w + Octets(e, d) && Reads(Octets(e, d), d.view.remoteTunnel, Says(e, d))
  {
    var d := React(v, x, random);
    assert e' == After(Received(n.a, p), d);
    NeverSendsAck(v, x, random);
    DecisionReads(Received(n.a, p), d);
  }

  // So is ignoring one, or acknowledging it again.
  lemma ReceivingIsStep(n: Net, heard: Parsed, p: Packet, tunnel: u16)
    requires !n.a.down && p in n.fromB && Recent(p, n.b, n.a) && heard.Heard? && !Accepts(heard, n.a, p)
    ensures var again := AcksAgain(heard, tunnel, n.a, p);
            var st := Take(p, None, again != []);
            var news := if again != [] then {AckOf(n.a)} else {};
            && Possible(n, st) && Taken(n, st).a == Received(n.a, p) && Taken(n, st).fromA == n.fromA + news
            && Reads(again, tunnel, news)
  {
    AckReads(n.a, tunnel);
    OneReads(Bare(HeaderBytes(ACK_SIZE, AckNumbers(tunnel, n.a))), tunnel, AckOf(n.a));
  }

  lemma EncodeOneSize(a: Avp)
    requires Fits(a)
    ensures |EncodeOne(a)| == Size(a)
  {
  }

  lemma {:induction false} EncodeOneMore(avps: seq<Avp>, a: Avp)
    requires Sendable(avps) && Fits(a)
    ensures Sendable(avps + [a]) && Encode(avps + [a]) == Encode(avps) + EncodeOne(a)
  {
    if avps == [] {
      assert ([] + [a])[1..] == [];
    } else {
      assert (avps + [a])[0] == avps[0] && (avps + [a])[1..] == avps[1..] + [a];
      EncodeOneMore(avps[1..], a);
      var front, rest, last := EncodeOne(avps[0]), Encode(avps[1..]), EncodeOne(a);
      assert front + (rest + last) == (front + rest) + last;
    }
  }

  lemma BodyStarts(type_: u16, avps: Own)
    ensures Body(type_, avps[..0]) == TypeBytes(type_)
    ensures avps[..|avps|] == avps
  {
  }

  lemma BodyGrows(type_: u16, avps: Own, i: nat)
    requires i < |avps|
    ensures Body(type_, avps[..i+1]) == Body(type_, avps[..i]) + EncodeOne(avps[i])
    ensures |EncodeOne(avps[i])| <= 38 && avps[i] == Plain(avps[i].kind, avps[i].value)
  {
    EncodeOneSize(avps[i]);
    EncodeOneMore(avps[..i], avps[i]);
    assert avps[..i+1] == avps[..i] + [avps[i]];
  }
}
