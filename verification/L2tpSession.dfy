// The conversation that sets up one session: what l2tp_process decides about a
// packet that was accepted, and what must have been heard before a session is up.

module L2tpSession {
  import opened Bytes
  import opened L2tpAvp
  import opened L2tpPacket

  datatype Reason = REMOTE_REQUESTED | PROTOCOL_ERROR | CHALLENGE_FAILED

  // The shared secret, if any, the octets of our own challenge, and the digest.
  datatype Keys = Keys(secret: Secret, challenge: seq<byte>, md5: seq<byte> -> Digest)

  datatype View = View(state: u16, localTunnel: u16, localSession: u16, remoteTunnel: u16, remoteSession: u16)

  // Attributes as add_attribute_raw writes them, few and short.
  function Plain(kind: u16, value: seq<byte>): Avp { Avp(32, 0, kind, value) }

  predicate Brief(avps: seq<Avp>) {
    |avps| <= 6 && forall a :: a in avps ==> a == Plain(a.kind, a.value) && |a.value| <= 32
  }

  type Own = avps: seq<Avp> | Brief(avps) witness []

  // What the attributes of a packet say, as far as anyone asks: the tunnel and the
  // session assigned (0 if there is none of two octets, and whether there is any
  // octet of a tunnel but 0), whether the sender proved to know the secret, and
  // what answers its own challenge.
  datatype Says = Says(tunnel: u16, anyTunnel: bool, session: u16, proven: bool, answer: Own)

  datatype Heard = Input(session: u16, message: u16, says: Says)

  // What random() gives where a handler asks for it: the first session number
  // that is not 0, and a serial number.
  datatype Random = Random(session: u16, serial: u32)

  // What a message says besides its type.
  datatype Content = Answer(avps: Own) | CallDetails | CallRequest(session: u16, serial: u32) | Refusal

  datatype Reply = Silence | Acknowledge | Send(session: u16, message: u16, content: Content)
  datatype Decision = Go(view: View, reply: Reply) | Stop(view: View, reason: Reason)

  function Two(kind: u16, value: seq<byte>, kind': u16, value': seq<byte>): Own
    requires |value| <= 32 && |value'| <= 32
  {
    [Plain(kind, value), Plain(kind', value')]
  }

  function Avps(c: Content): Own {
    match c
    case Answer(avps) => avps
    // 100 Mbit/s, synchronous and asynchronous framing
    case CallDetails => Two(CONNECT_SPEED, [0x05, 0xF5, 0xE1, 0], FRAMING_TYPE, [0, 0, 0, 3])
    case CallRequest(session, serial) => Two(ASSIGNED_SESSION, [Hi(session), Lo(session)], CALL_SERIAL_NUMBER,
        PutLong(serial))
    case Refusal => Two(RESULT_CODE, [0, 2, 0, 6], ASSIGNED_SESSION, [0, 0])
  }

  function Find(keys: Keys, avps: seq<Avp>, kind: u16, size: nat): seq<byte> {
    Lookup(keys.md5, keys.secret, avps, kind, size, NoVector)
  }

  // get_attribute_u16: 0 stands for no number.
  function FindU16(keys: Keys, avps: seq<Avp>, kind: u16): u16 {
    var s := Find(keys, avps, kind, 2);
    if |s| == 2 then Short(s[0], s[1]) else 0
  }

  function Response(keys: Keys, message: u16, challenge: seq<byte>): Digest
    requires keys.secret.Secret?
  {
    keys.md5([Lo(message)] + keys.secret.key + challenge)
  }

  // verify_challenge
  predicate Proven(keys: Keys, avps: seq<Avp>) {
    keys.secret.Secret? ==>
      Find(keys, avps, CHALLENGE_RESPONSE, DIGEST) == Response(keys, SCCRP, keys.challenge)
  }

  // answer_challenge
  function Answered(keys: Keys, avps: seq<Avp>): Own
  {
    if keys.secret.NoSecret? then []
    else
      var c := Find(keys, avps, CHALLENGE, MAX_ATTRIBUTE_SIZE);
      if c == [] then [] else [Plain(CHALLENGE_RESPONSE, Response(keys, SCCCN, c))]
  }

  predicate Harmless(message: u16) { message == ACK || message == HELLO || message == WEN || message == SLI }

  predicate AnyNonzero(s: seq<byte>) { exists i :: 0 <= i < |s| && s[i] != 0 }

  function Reading(keys: Keys, avps: seq<Avp>): Says {
    Says(FindU16(keys, avps, ASSIGNED_TUNNEL), AnyNonzero(Find(keys, avps, ASSIGNED_TUNNEL, 2)),
         FindU16(keys, avps, ASSIGNED_SESSION), Proven(keys, avps), Answered(keys, avps))
  }

  // A single octet of a tunnel number is enough to blame the challenge.
  function OnSccrp(v: View, says: Says): Decision {
    if says.tunnel != 0 && says.proven then
      Go(v.(remoteTunnel := says.tunnel, state := SCCCN), Send(0, SCCCN, Answer(says.answer)))
    else Stop(v, if says.anyTunnel then CHALLENGE_FAILED else PROTOCOL_ERROR)
  }

  // An SCCRP that assigns no tunnel number is blamed on the challenge if and only if
  // the attribute is there with a single octet, and that is not 0; otherwise it is a
  // protocol error.
  lemma ChallengeBlamed(v: View, keys: Keys, avps: seq<Avp>)
    ensures var says := Reading(keys, avps); var found := Find(keys, avps, ASSIGNED_TUNNEL, 2);
            says.tunnel == 0 ==>
              OnSccrp(v, says) == Stop(v, if |found| == 1 && found[0] != 0 then CHALLENGE_FAILED else PROTOCOL_ERROR)
  {
    ReadsTunnel(keys, avps);
    if Reading(keys, avps).tunnel == 0 {
      Unassigned(v, Reading(keys, avps));
    }
  }

  lemma ReadsTunnel(keys: Keys, avps: seq<Avp>)
    ensures var says := Reading(keys, avps); var found := Find(keys, avps, ASSIGNED_TUNNEL, 2);
            says.tunnel == 0 ==> (says.anyTunnel <==> |found| == 1 && found[0] != 0)
  {
    var found := Find(keys, avps, ASSIGNED_TUNNEL, 2);
    FoundIsCut(keys.md5, keys.secret, avps, ASSIGNED_TUNNEL, 2, NoVector);
    OneOctet(found, FindU16(keys, avps, ASSIGNED_TUNNEL));
  }

  lemma OneOctet(found: seq<byte>, tunnel: u16)
    requires |found| <= 2 && tunnel == if |found| == 2 then Short(found[0], found[1]) else 0
    ensures tunnel == 0 ==> (AnyNonzero(found) <==> |found| == 1 && found[0] != 0)
  {
    if |found| == 2 {
      ShortNonzero(found[0], found[1]);
      AnyOfTwo(found, found[0], found[1]);
    } else if |found| == 1 {
      AnyOfOne(found, found[0]);
    } else {
      AnyOfNone(found);
    }
  }

  lemma AnyOfTwo(s: seq<byte>, x: byte, y: byte)
    requires |s| == 2 && x == s[0] && y == s[1]
    ensures AnyNonzero(s) <==> x != 0 || y != 0
  {
  }

  lemma AnyOfOne(s: seq<byte>, x: byte)
    requires |s| == 1 && x == s[0]
    ensures AnyNonzero(s) <==> x != 0
  {
  }

  lemma AnyOfNone(s: seq<byte>)
    requires |s| == 0
    ensures !AnyNonzero(s)
  {
  }

  lemma Unassigned(v: View, says: Says)
    requires says.tunnel == 0
    ensures OnSccrp(v, says) == Stop(v, if says.anyTunnel then CHALLENGE_FAILED else PROTOCOL_ERROR)
  {
  }

  lemma ShortNonzero(hi: byte, lo: byte)
    ensures Short(hi, lo) == 0 <==> hi == 0 && lo == 0
  {
  }

  lemma {:induction false} FoundIsCut(md5: seq<byte> -> Digest, secret: Secret, avps: seq<Avp>, kind: u16,
      size: nat, vector: Vector)
    ensures |Lookup(md5, secret, avps, kind, size, vector)| <= size
    decreases |avps|
  {
    if avps != [] {
      var a := avps[0];
      var vector' := if a.kind == RANDOM_VECTOR && !Hidden(a) then Vector(a.value) else vector;
      FoundIsCut(md5, secret, avps[1..], kind, size, vector);
      FoundIsCut(md5, secret, avps[1..], kind, size, vector');
      OpenedIsCut(md5, secret, a, size, vector);
    }
  }

  lemma OpenedIsCut(md5: seq<byte> -> Digest, secret: Secret, a: Avp, size: nat, vector: Vector)
    ensures |Opened(md5, secret, a, size, vector)| <= size
  {
  }

  // For instance, one that carries the tunnel number in one octet.
  lemma ShortTunnelBlamed(v: View, keys: Keys, x: byte)
    requires x != 0
    ensures OnSccrp(v, Reading(keys, [Plain(ASSIGNED_TUNNEL, [x])])) == Stop(v, CHALLENGE_FAILED)
  {
    var avps := [Plain(ASSIGNED_TUNNEL, [x])];
    FoundPlain(keys, ASSIGNED_TUNNEL, [x]);
    ChallengeBlamed(v, keys, avps);
  }

  lemma FoundPlain(keys: Keys, kind: u16, value: seq<byte>)
    requires |value| <= 2
    ensures Find(keys, [Plain(kind, value)], kind, 2) == value
  {
    assert value[..|value|] == value;
  }

  function OnIcrp(v: View, says: Says): Decision {
    if says.session == 0 then Stop(v, PROTOCOL_ERROR)
    else Go(v.(remoteSession := says.session, state := ICCN), Send(says.session, ICCN, CallDetails))
  }

  function OnHarmless(v: View, message: u16, random: Random): Decision {
    if v.state == SCCCN then
      var session := if v.localSession == 0 then random.session else v.localSession;
      Go(v.(localSession := session, state := ICRQ),
         Send(0, ICRQ, CallRequest(session, random.serial)))
    else
      Go(if v.state == ICCN then v.(state := ACK) else v, if message == ACK then Silence else Acknowledge)
  }

  function OnCall(v: View, says: Says): Decision {
    if says.session == 0 then Go(v, Acknowledge) else Go(v, Send(says.session, CDN, Refusal))
  }

  // l2tp_process, for a packet that recv_packet let through.
  function React(v: View, x: Heard, random: Random): Decision {
    if x.message == SCCRP && v.state == SCCRQ then OnSccrp(v, x.says)
    else if x.message == ICRP && v.state == ICRQ && x.session == v.localSession then OnIcrp(v, x.says)
    else if x.message == STOPCCN then Stop(v.(state := STOPCCN), REMOTE_REQUESTED)
    else if x.message == CDN && x.session != 0 && x.session == v.localSession then Stop(v, REMOTE_REQUESTED)
    else if Harmless(x.message) then OnHarmless(v, x.message, random)
    else if x.message == ICRQ || x.message == OCRQ then OnCall(v, x.says)
    else Go(v, Acknowledge)
  }

  // The four steps of the handshake, with the packet that may take each.
  datatype Stage = AwaitTunnel | AwaitAck | AwaitSession | AwaitLast | Up

  function StageOf(state: u16): Stage {
    if state == SCCRQ then AwaitTunnel
    else if state == SCCCN then AwaitAck
    else if state == ICRQ then AwaitSession
    else if state == ICCN then AwaitLast
    else Up
  }

  function Rank(s: Stage): nat {
    match s case AwaitTunnel => 0 case AwaitAck => 1 case AwaitSession => 2 case AwaitLast => 3 case Up => 4
  }

  predicate Advances(rank: nat, x: Heard, session: u16) {
    match rank
    case 0 => x.message == SCCRP && x.says.tunnel != 0 && x.says.proven
    case 2 => x.message == ICRP && x.session == session && x.says.session != 0
    case _ => Harmless(x.message)
  }

  // The numbers known at each stage.
  predicate Known(v: View) {
    && (Rank(StageOf(v.state)) in {1, 2, 3} ==> v.remoteTunnel != 0)
    && (Rank(StageOf(v.state)) in {2, 3} ==> v.localSession != 0)
    && (Rank(StageOf(v.state)) == 3 ==> v.remoteSession != 0)
    && (StageOf(v.state) == Up ==> v.state == ACK || v.state == STOPCCN)
  }

  datatype Turn = Turn(x: Heard, random: Random)

  predicate Fair(t: Turn) { t.random.session != 0 }

  // A run of accepted packets that does not stop, and the view it leaves.
  ghost predicate Ran(v: View, ts: seq<Turn>, v': View)
    decreases |ts|
  {
    if ts == [] then v' == v
    else
      var d := React(v, ts[0].x, ts[0].random);
      Fair(ts[0]) && d.Go? && Ran(d.view, ts[1..], v')
  }

  // Each packet moves the handshake on by one stage, if it is the one that may,
  // and otherwise leaves every number as it is.
  lemma ReactAdvances(v: View, x: Heard, random: Random)
    requires Known(v) && v.state != STOPCCN && random.session != 0
    requires React(v, x, random).Go?
    ensures var v' := React(v, x, random).view;
            && Known(v') && v'.state != STOPCCN && v'.localTunnel == v.localTunnel
            && (if v.state != ACK && Advances(Rank(StageOf(v.state)), x, v.localSession)
                then Rank(StageOf(v'.state)) == Rank(StageOf(v.state)) + 1
                else v' == v)
            && (Rank(StageOf(v.state)) >= 2 ==>
                  v'.localSession == v.localSession && v'.remoteTunnel == v.remoteTunnel)
            && (Rank(StageOf(v.state)) >= 4 ==> v'.remoteSession == v.remoteSession)
  {
  }

  // The turns from `rank` on happened, one after the other.
  ghost predicate Passed(rank: nat, ts: seq<Turn>, session: u16)
    decreases 4 - rank
  {
    rank >= 4 || exists i :: 0 <= i < |ts| && Advances(rank, ts[i].x, session) && Passed(rank + 1, ts[i+1..], session)
  }

  lemma PassedLater(rank: nat, t: Turn, ts: seq<Turn>, session: u16)
    requires Passed(rank, ts, session)
    ensures Passed(rank, [t] + ts, session)
  {
    if rank < 4 {
      var i :| 0 <= i < |ts| && Advances(rank, ts[i].x, session) && Passed(rank + 1, ts[i+1..], session);
      assert ([t] + ts)[i+1] == ts[i] && ([t] + ts)[i+2..] == ts[i+1..];
    }
  }

  // What is known after a packet, said without the packet's details.
  ghost predicate Stepped(v: View, w: View, t: Turn) {
    && Known(w) && w.state != STOPCCN
    && (w == v || (Advances(Rank(StageOf(v.state)), t.x, v.localSession)
                   && Rank(StageOf(w.state)) == Rank(StageOf(v.state)) + 1))
    && (Rank(StageOf(v.state)) >= 2 ==> w.localSession == v.localSession)
  }

  lemma RanFirst(v: View, ts: seq<Turn>, v': View) returns (w: View)
    requires Known(v) && v.state != STOPCCN && Ran(v, ts, v') && ts != []
    ensures Stepped(v, w, ts[0]) && Ran(w, ts[1..], v')
  {
    w := React(v, ts[0].x, ts[0].random).view;
    ReactAdvances(v, ts[0].x, ts[0].random);
  }

  // A session that is up was set up: some packet assigned a tunnel and proved that
  // its sender knows the secret, a later one acknowledged our answer, a later one
  // assigned a session to the number we chose, and a later one acknowledged that.
  lemma {:induction false} UpMeansHandshake(v: View, ts: seq<Turn>, v': View)
    requires Known(v) && v.state != STOPCCN && Ran(v, ts, v')
    requires v'.state == ACK
    ensures Known(v')
    ensures Passed(Rank(StageOf(v.state)), ts, v'.localSession)
    ensures Rank(StageOf(v.state)) >= 2 ==> v'.localSession == v.localSession
    decreases |ts|
  {
    if ts != [] {
      var w := RanFirst(v, ts, v');
      UpMeansHandshake(w, ts[1..], v');
      assert [ts[0]] + ts[1..] == ts;
      PassedStep(v, w, ts[0], ts[1..], v'.localSession);
    }
  }

  lemma PassedStep(v: View, w: View, t: Turn, ts: seq<Turn>, session: u16)
    requires Passed(Rank(StageOf(w.state)), ts, session)
    requires Rank(StageOf(v.state)) == 2 && w != v ==> session == v.localSession
    requires w == v || (Advances(Rank(StageOf(v.state)), t.x, v.localSession)
                        && Rank(StageOf(w.state)) == Rank(StageOf(v.state)) + 1)
    ensures Passed(Rank(StageOf(v.state)), [t] + ts, session)
  {
    if w == v {
      PassedLater(Rank(StageOf(v.state)), t, ts, session);
    } else {
      assert ([t] + ts)[0+1..] == ts && ([t] + ts)[0] == t;
      assert Advances(Rank(StageOf(v.state)), ([t] + ts)[0].x, session);
    }
  }

  // Whoever does not know the secret gets no session: without a packet that
  // carries the right response, an endpoint that asked for one is never up.
  lemma NoSessionUnproven(v: View, ts: seq<Turn>, v': View)
    requires v.state == SCCRQ && Ran(v, ts, v')
    requires forall i :: 0 <= i < |ts| && ts[i].x.message == SCCRP ==> !ts[i].x.says.proven
    ensures v' == v
  {
    if ts != [] {
      ReactAdvances(v, ts[0].x, ts[0].random);
      assert React(v, ts[0].x, ts[0].random).view == v;
      NoSessionUnproven(v, ts[1..], v');
    }
  }
}
