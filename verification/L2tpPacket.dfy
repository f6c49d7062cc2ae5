// L2TP control packets (section 3.1 of RFC 2661): what l2tp.c writes, and what its
// receive checks take for a control packet of the tunnel.

module L2tpPacket {
  import opened Bytes
  import opened L2tpAvp
  import opened L2tpSequence
  import opened L2tpChannel

  const ACK: u16 := 0
  const SCCRQ: u16 := 1
  const SCCRP: u16 := 2
  const SCCCN: u16 := 3
  const STOPCCN: u16 := 4
  const HELLO: u16 := 6
  const OCRQ: u16 := 7
  const ICRQ: u16 := 10
  const ICRP: u16 := 11
  const ICCN: u16 := 12
  const CDN: u16 := 14
  const WEN: u16 := 15
  const SLI: u16 := 16

  const RESULT_CODE: u16 := 1
  const PROTOCOL_VERSION: u16 := 2
  const FRAMING_CAPABILITIES: u16 := 3
  const HOST_NAME: u16 := 7
  const ASSIGNED_TUNNEL: u16 := 9
  const WINDOW_SIZE: u16 := 10
  const CHALLENGE: u16 := 11
  const CHALLENGE_RESPONSE: u16 := 13
  const ASSIGNED_SESSION: u16 := 14
  const CALL_SERIAL_NUMBER: u16 := 15
  const FRAMING_TYPE: u16 := 19
  const CONNECT_SPEED: u16 := 24

  const ACK_SIZE := 12
  const MAX_PACKET_LENGTH := 2048
  const MAX_ATTRIBUTE_SIZE := 1024

  // MESSAGE_FLAG, and what MESSAGE_MASK lets through.
  const FLAG_HIGH: byte := 0xC8
  const FLAG_LOW: byte := 0x02

  predicate FlagsMatch(hi: byte, lo: byte) {
    hi / 64 == 3 && hi / 8 % 2 == 1 && hi % 4 == 0 && lo % 16 == 2
  }

  // Tunnel, session and the two sequence numbers of a header.
  datatype Header = Header(tunnel: u16, session: u16, ns: u16, nr: u16)

  function Hi(x: u16): byte { x / 0x100 }
  function Lo(x: u16): byte { x % 0x100 }

  function HeaderBytes(length: u16, h: Header): (s: seq<byte>)
    ensures |s| == ACK_SIZE
  {
    [FLAG_HIGH, FLAG_LOW, Hi(length), Lo(length), Hi(h.tunnel), Lo(h.tunnel),
     Hi(h.session), Lo(h.session), Hi(h.ns), Lo(h.ns), Hi(h.nr), Lo(h.nr)]
  }

  // The Message Type attribute that opens every message but an acknowledgement.
  function TypeBytes(message: u16): (s: seq<byte>)
    ensures |s| == 8
  {
    [0x80, 0x08, 0, 0, 0, 0, Hi(message), Lo(message)]
  }

  predicate Sendable(avps: seq<Avp>) { forall a :: a in avps ==> Fits(a) }

  // What a message says beyond its header.
  function Body(message: u16, avps: seq<Avp>): seq<byte>
    requires Sendable(avps)
  {
    TypeBytes(message) + Encode(avps)
  }

  function MessageBytes(h: Header, body: seq<byte>): seq<byte>
    requires ACK_SIZE + |body| < 0x1_0000
  {
    HeaderBytes(ACK_SIZE + |body|, h) + body
  }

  datatype Parsed = Dropped | Heard(header: Header, message: u16)

  // The checks of recv_packet in front of the sequence numbers.
  function Parse(b: seq<byte>, tunnel: u16): Parsed {
    if (|b| != ACK_SIZE && |b| < MESSAGE_HEADER_SIZE)
       || !FlagsMatch(b[0], b[1]) || ShortAt(b, 2) != |b| || ShortAt(b, 4) != tunnel then Dropped
    else
      var h := Header(tunnel, ShortAt(b, 6), ShortAt(b, 8), ShortAt(b, 10));
      if |b| == ACK_SIZE then Heard(h, ACK)
      else if ShortAt(b, 12) == 0x8008 && ShortAt(b, 14) == 0 && ShortAt(b, 16) == 0 then Heard(h, ShortAt(b, 18))
      else Dropped
  }

  lemma HeaderReads(length: u16, h: Header, body: seq<byte>)
    ensures var b := HeaderBytes(length, h) + body;
            && b[0] == FLAG_HIGH && b[1] == FLAG_LOW && ShortAt(b, 2) == length && ShortAt(b, 4) == h.tunnel
            && ShortAt(b, 6) == h.session && ShortAt(b, 8) == h.ns && ShortAt(b, 10) == h.nr
            && b[ACK_SIZE..] == body
  {
    var b := HeaderBytes(length, h) + body;
    assert forall i :: 0 <= i < ACK_SIZE ==> b[i] == HeaderBytes(length, h)[i];
  }

  lemma ParseReads(b: seq<byte>, h: Header, message: u16)
    requires |b| == ACK_SIZE || |b| >= MESSAGE_HEADER_SIZE
    requires b[0] == FLAG_HIGH && b[1] == FLAG_LOW && ShortAt(b, 2) == |b|
    requires h == Header(ShortAt(b, 4), ShortAt(b, 6), ShortAt(b, 8), ShortAt(b, 10))
    requires if |b| == ACK_SIZE then message == ACK
             else ShortAt(b, 12) == 0x8008 && ShortAt(b, 14) == 0 && ShortAt(b, 16) == 0 && ShortAt(b, 18) == message
    ensures Parse(b, h.tunnel) == Heard(h, message)
  {
  }

  lemma Within<T>(front: seq<T>, t: seq<T>, rest: seq<T>, i: nat)
    requires i < |t|
    ensures (front + (t + rest))[|front| + i] == t[i]
  {
  }

  lemma OfHalves(b: seq<byte>, i: nat, x: u16)
    requires i + 1 < |b| && b[i] == Hi(x) && b[i+1] == Lo(x)
    ensures ShortAt(b, i) == x
  {
  }

  lemma TypeReads(front: seq<byte>, message: u16, rest: seq<byte>, b: seq<byte>)
    requires |front| == ACK_SIZE && b == front + (TypeBytes(message) + rest)
    ensures |b| >= MESSAGE_HEADER_SIZE
    ensures ShortAt(b, 12) == 0x8008 && ShortAt(b, 14) == 0 && ShortAt(b, 16) == 0 && ShortAt(b, 18) == message
  {
    var t := TypeBytes(message);
    Within(front, t, rest, 0);
    Within(front, t, rest, 1);
    Within(front, t, rest, 2);
    Within(front, t, rest, 3);
    Within(front, t, rest, 4);
    Within(front, t, rest, 5);
    Within(front, t, rest, 6);
    Within(front, t, rest, 7);
    OfHalves(b, 18, message);
  }

  // A message is understood as it was meant, attributes included, and an
  // acknowledgement as one.
  lemma ParseOfMessage(h: Header, message: u16, avps: seq<Avp>)
    requires Sendable(avps) && ACK_SIZE + |Body(message, avps)| < 0x1_0000
    ensures var b := MessageBytes(h, Body(message, avps));
            && Parse(b, h.tunnel) == Heard(h, message)
            && Attributes(b, MESSAGE_HEADER_SIZE) == avps
            && b[ACK_SIZE..] == Body(message, avps)
  {
    var body := Body(message, avps);
    var b := MessageBytes(h, body);
    ParseInFull(h, message, Encode(avps), b);
    AttributesInFull(HeaderBytes(ACK_SIZE + |body|, h), message, avps);
  }

  lemma AttributesInFull(head: seq<byte>, message: u16, avps: seq<Avp>)
    requires Sendable(avps) && |head| == ACK_SIZE
    ensures Attributes(head + Body(message, avps), MESSAGE_HEADER_SIZE) == avps
    ensures (head + Body(message, avps))[ACK_SIZE..] == Body(message, avps)
  {
    var front := head + TypeBytes(message);
    assert head + Body(message, avps) == front + Encode(avps);
    AttributesOfEncoded(front, avps);
  }

  lemma FlagsInFull(h: Header, message: u16, rest: seq<byte>, b: seq<byte>)
    requires ACK_SIZE + 8 + |rest| < 0x1_0000
    requires b == HeaderBytes(ACK_SIZE + 8 + |rest|, h) + (TypeBytes(message) + rest)
    ensures b[0] == FLAG_HIGH && b[1] == FLAG_LOW && ShortAt(b, 2) == |b|
  {
    HeaderReads(ACK_SIZE + 8 + |rest|, h, TypeBytes(message) + rest);
  }

  lemma NumbersInFull(h: Header, message: u16, rest: seq<byte>, b: seq<byte>)
    requires ACK_SIZE + 8 + |rest| < 0x1_0000
    requires b == HeaderBytes(ACK_SIZE + 8 + |rest|, h) + (TypeBytes(message) + rest)
    ensures h == Header(ShortAt(b, 4), ShortAt(b, 6), ShortAt(b, 8), ShortAt(b, 10))
  {
    HeaderReads(ACK_SIZE + 8 + |rest|, h, TypeBytes(message) + rest);
  }

  lemma ParseInFull(h: Header, message: u16, rest: seq<byte>, b: seq<byte>)
    requires ACK_SIZE + 8 + |rest| < 0x1_0000
    requires b == HeaderBytes(ACK_SIZE + 8 + |rest|, h) + (TypeBytes(message) + rest)
    ensures Parse(b, h.tunnel) == Heard(h, message)
  {
    FlagsInFull(h, message, rest, b);
    NumbersInFull(h, message, rest, b);
    TypeReads(HeaderBytes(ACK_SIZE + 8 + |rest|, h), message, rest, b);
    ParseReads(b, h, message);
  }

  lemma ParseOfAck(h: Header)
    ensures Parse(HeaderBytes(ACK_SIZE, h), h.tunnel) == Heard(h, ACK)
  {
    var b := HeaderBytes(ACK_SIZE, h);
    HeaderReads(ACK_SIZE, h, []);
    assert b + [] == b;
    ParseReads(b, h, ACK);
  }
}
