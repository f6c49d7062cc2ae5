// pptp.c: cutting a TCP stream into control messages (section 2 of RFC 2637) whose
// first octets alone are kept, whatever pieces the stream arrives in.

module PptpStream {
  import opened Bytes

  const HEADER_SIZE := 8
  const MAX_PACKET_LENGTH := 220

  function Min(a: nat, b: nat): nat { if a < b then a else b }

  // A control message: its length, and as much of it as is kept.
  datatype Control = Control(length: nat, front: seq<byte>)

  // What a stream holds: the control messages that are complete, how many octets
  // all complete messages take up, and whether the next header is unacceptable.
  datatype Framed = Framed(got: seq<Control>, used: nat, failed: bool)

  predicate Synchronized(s: seq<byte>)
    requires |s| >= HEADER_SIZE
  {
    s[4] == 0x1A && s[5] == 0x2B && s[6] == 0x3C && s[7] == 0x4D
  }

  function LengthOf(s: seq<byte>): nat
    requires |s| >= HEADER_SIZE
  {
    Short(s[0], s[1])
  }

  predicate Acceptable(s: seq<byte>)
    requires |s| >= HEADER_SIZE
  {
    Synchronized(s) && LengthOf(s) >= HEADER_SIZE
  }

  predicate IsControl(s: seq<byte>)
    requires |s| >= HEADER_SIZE
  {
    s[2] == 0 && s[3] == 1
  }

  // A complete message, delivered if it is a control message.
  function Delivered(m: seq<byte>): seq<Control>
    requires |m| >= HEADER_SIZE
  {
    if IsControl(m) then [Control(|m|, m[..Min(|m|, MAX_PACKET_LENGTH)])] else []
  }

  function Join(f: Framed, g: Framed): Framed { Framed(f.got + g.got, f.used + g.used, g.failed) }

  predicate IsMessage(m: seq<byte>) { |m| >= HEADER_SIZE && Acceptable(m) && LengthOf(m) == |m| }

  type Message = m: seq<byte> | IsMessage(m) witness [0, 8, 0, 1, 0x1A, 0x2B, 0x3C, 0x4D]

  predicate HoldsMessage(s: seq<byte>) { |s| >= HEADER_SIZE && Acceptable(s) && LengthOf(s) <= |s| }

  // The stream read at leisure, as a whole.
  function Frames(s: seq<byte>): Framed {
    if HoldsMessage(s) then
      var n := LengthOf(s);
      Join(Framed(Delivered(s[..n]), n, false), Frames(s[n..]))
    else Framed([], 0, |s| >= HEADER_SIZE && !Acceptable(s))
  }

  lemma FirstMessage(m: Message, rest: seq<byte>)
    ensures Frames(m + rest) == Join(Framed(Delivered(m), |m|, false), Frames(rest))
  {
    var s := m + rest;
    assert s[..|m|] == m && s[|m|..] == rest;
    assert forall i :: 0 <= i < HEADER_SIZE ==> s[i] == m[i];
  }

  lemma NoMessage(s: seq<byte>)
    requires !HoldsMessage(s)
    ensures Frames(s) == Framed([], 0, |s| >= HEADER_SIZE && !Acceptable(s))
  {
  }

  // Messages laid end to end are found again, whatever comes behind them.
  function Concat(ms: seq<Message>): seq<byte> { if ms == [] then [] else ms[0] + Concat(ms[1..]) }

  function AllDelivered(ms: seq<Message>): seq<Control> {
    if ms == [] then [] else Delivered(ms[0]) + AllDelivered(ms[1..])
  }

  lemma {:induction false} FramesOfMessages(ms: seq<Message>, rest: seq<byte>)
    ensures Frames(Concat(ms) + rest) == Join(Framed(AllDelivered(ms), |Concat(ms)|, false), Frames(rest))
  {
    InFront(ms, rest, Frames(rest));
  }

  lemma {:induction false} InFront(ms: seq<Message>, rest: seq<byte>, f: Framed)
    requires Frames(rest) == f
    ensures Frames(Concat(ms) + rest) == Join(Framed(AllDelivered(ms), |Concat(ms)|, false), f)
  {
    if ms == [] {
      assert Concat(ms) + rest == rest;
    } else {
      InFront(ms[1..], rest, f);
      OneInFront(ms[0], Concat(ms[1..]), rest, AllDelivered(ms[1..]), f, Concat(ms) + rest);
    }
  }

  lemma OneInFront(m: Message, behind: seq<byte>, rest: seq<byte>, got: seq<Control>, f: Framed, s: seq<byte>)
    requires Frames(behind + rest) == Join(Framed(got, |behind|, false), f)
    requires s == m + behind + rest
    ensures Frames(s) == Join(Framed(Delivered(m) + got, |m| + |behind|, false), f)
  {
    assert s == m + (behind + rest);
    FirstMessage(m, behind + rest);
    JoinTwice(Delivered(m), |m|, got, |behind|, f);
  }

  lemma JoinTwice(a: seq<Control>, m: nat, b: seq<Control>, n: nat, f: Framed)
    ensures Join(Framed(a, m, false), Join(Framed(b, n, false), f)) == Join(Framed(a + b, m + n, false), f)
  {
    assert a + (b + f.got) == (a + b) + f.got;
  }

  lemma {:induction false} OneMore(ms: seq<Message>, m: Message)
    ensures Concat(ms + [m]) == Concat(ms) + m
    ensures AllDelivered(ms + [m]) == AllDelivered(ms) + Delivered(m)
  {
    if ms != [] {
      assert (ms + [m])[0] == ms[0] && (ms + [m])[1..] == ms[1..] + [m];
      OneMore(ms[1..], m);
    } else {
      assert ([] + [m])[1..] == [];
    }
  }

  // A stream is messages and what is left over.
  lemma {:induction false} Cut(s: seq<byte>) returns (ms: seq<Message>, rest: seq<byte>)
    ensures s == Concat(ms) + rest && !HoldsMessage(rest)
    decreases |s|
  {
    ms, rest := [], s;
    if HoldsMessage(s) {
      var n := LengthOf(s);
      var m := s[..n];
      assert forall i :: 0 <= i < HEADER_SIZE ==> s[i] == m[i];
      var ms', rest' := Cut(s[n..]);
      ms, rest := [m] + ms', rest';
      assert ms[1..] == ms' && s == m + (Concat(ms') + rest);
    }
  }

  lemma FramesOfCut(s: seq<byte>, ms: seq<Message>, rest: seq<byte>)
    requires s == Concat(ms) + rest && !HoldsMessage(rest)
    ensures Frames(s) == Framed(AllDelivered(ms), |Concat(ms)|, |rest| >= HEADER_SIZE && !Acceptable(rest))
  {
    NoMessage(rest);
    InFront(ms, rest, Framed([], 0, |rest| >= HEADER_SIZE && !Acceptable(rest)));
  }

  // An unacceptable header ends all framing: the same messages, the same position,
  // whatever follows; and it is not judged before its last octet is there.
  lemma FailureIsFinal(s: seq<byte>, t: seq<byte>)
    requires Frames(s).failed
    ensures Frames(s + t) == Frames(s)
  {
    var ms, rest := Cut(s);
    Glued(Concat(ms), rest, t);
    StillFails(ms, rest, t, s);
  }

  lemma Glued<T>(a: seq<T>, b: seq<T>, c: seq<T>)
    ensures (a + b) + c == a + (b + c)
  {
  }

  lemma StillFails(ms: seq<Message>, rest: seq<byte>, t: seq<byte>, s: seq<byte>)
    requires s == Concat(ms) + rest && !HoldsMessage(rest) && Frames(s).failed
    ensures Frames(Concat(ms) + (rest + t)) == Frames(s)
  {
    FramesOfCut(s, ms, rest);
    HeaderStays(rest, t);
    FramesOfCut(Concat(ms) + (rest + t), ms, rest + t);
  }

  lemma HeaderStays(rest: seq<byte>, t: seq<byte>)
    requires |rest| >= HEADER_SIZE && !Acceptable(rest)
    ensures !Acceptable(rest + t)
  {
    assert forall i :: 0 <= i < HEADER_SIZE ==> (rest + t)[i] == rest[i];
  }

  lemma NotBeforeItIsThere(s: seq<byte>, k: nat)
    requires Frames(s).failed && k < Frames(s).used + HEADER_SIZE
    ensures k < |s| && !Frames(s[..k]).failed
  {
    FailedBounds(s);
    var front := s[..k];
    var back := s[k..];
    assert front + back == s;
    if Frames(front).failed {
      FailedBounds(front);
      FailureIsFinal(front, back);
    }
  }

  lemma FailedBounds(s: seq<byte>)
    requires Frames(s).failed
    ensures Frames(s).used + HEADER_SIZE <= |s|
  {
    var ms, rest := Cut(s);
    FramesOfCut(s, ms, rest);
  }
}

module PptpReceiver {
  import opened Bytes
  import opened PptpStream

  // What recv_packet returns: 1, 0, -PROTOCOL_ERROR or -REMOTE_REQUESTED.
  datatype Result = Ready | NotYet | LostSync | Closed

  class Incoming {
    var length: nat
    var expected: nat
    const buffer: array<byte>
    // All octets received: the complete messages, and those of the next one.
    ghost var taken: seq<byte>
    ghost var whole: seq<Message>
    ghost var rest: seq<byte>

    ghost predicate Kept(octets: seq<byte>)
      reads this, buffer
    {
      buffer.Length == MAX_PACKET_LENGTH && length == |octets|
      && buffer[..Min(length, MAX_PACKET_LENGTH)] == octets[..Min(length, MAX_PACKET_LENGTH)]
    }

    ghost predicate Awaits(octets: seq<byte>)
      reads this
    {
      |octets| < expected
      && if |octets| < HEADER_SIZE then expected == HEADER_SIZE
         else Acceptable(octets) && expected == LengthOf(octets)
    }

    ghost predicate Failed()
      reads this
    {
      |rest| >= HEADER_SIZE && !Acceptable(rest)
    }

    ghost predicate Valid()
      reads this, buffer
    {
      && buffer.Length == MAX_PACKET_LENGTH
      && taken == Concat(whole) + rest
      && (!Failed() ==> if expected == 0 then rest == [] else Kept(rest) && Awaits(rest))
    }

    // Whatever the pieces were, the messages delivered are those that the whole
    // stream holds, and framing has failed if and where the whole stream says so.
    lemma PiecesDoNotMatter()
      requires Valid()
      ensures Frames(taken) == Framed(AllDelivered(whole), |taken| - |rest|, Failed())
    {
      FramesOfMessages(whole, rest);
      NoMessage(rest);
    }

    constructor ()
      ensures Valid() && taken == [] && whole == [] && rest == [] && fresh(buffer)
    {
      length, expected := 0, 0;
      buffer := new byte[MAX_PACKET_LENGTH](_ => 0);
      taken, whole, rest := [], [], [];
    }

    // How much recv is asked for.
    function Wanted(): int
      reads this
    {
      var expected' := if expected == 0 then HEADER_SIZE else expected;
      var length' := if expected == 0 then 0 else length;
      (if length' < MAX_PACKET_LENGTH
          && expected' > MAX_PACKET_LENGTH then MAX_PACKET_LENGTH else expected') - length'
    }

    // recv never asks for nothing, so an empty answer means that the peer closed.
    lemma WantedIsPositive()
      requires Valid() && !Failed()
      ensures Wanted() > 0
    {
    }

    // The octets that arrived, kept as far as there is room.
    method Keep(octets: seq<byte>, ghost front: seq<byte>)
      requires Kept(front) && (length < MAX_PACKET_LENGTH ==> length + |octets| <= MAX_PACKET_LENGTH)
      modifies this`length, buffer
      ensures Kept(front + octets)
    {
      if length < MAX_PACKET_LENGTH {
        assert forall j :: 0 <= j < length ==> buffer[j] == buffer[..length][j];
        for i := 0 to |octets|
          invariant length + |octets| <= buffer.Length && length == |front|
          invariant forall j :: 0 <= j < length ==> buffer[j] == front[j]
          invariant forall j :: length <= j < length + i ==> buffer[j] == octets[j - length]
        {
          buffer[length + i] := octets[i];
        }
      } else {
        assert (front + octets)[..MAX_PACKET_LENGTH] == front[..MAX_PACKET_LENGTH];
      }
      length := length + |octets|;
    }

    // The end of recv_packet: the header, once it is there, and the end of the message.
    method Judge(ghost octets: seq<byte>) returns (r: Result)
      requires Kept(octets) && octets != []
      requires |octets| <= HEADER_SIZE ==> expected == HEADER_SIZE
      requires |octets| > HEADER_SIZE ==> Acceptable(octets) && expected == LengthOf(octets) && length <= expected
      modifies this`expected
      ensures Kept(octets) && r != Closed
      ensures r == LostSync <==> |octets| >= HEADER_SIZE && !Acceptable(octets)
      ensures r == LostSync ==> |octets| == HEADER_SIZE
      ensures r != LostSync && expected == 0 ==> IsMessage(octets)
      ensures r != LostSync && expected != 0 ==> Awaits(octets) && r == NotYet
      ensures r != LostSync && expected == 0 ==>
                Delivered(octets) == if r == Ready then [Control(length, buffer[..Min(length, MAX_PACKET_LENGTH)])]
                    else []
    {
      assert forall i ::
          0 <= i < Min(length, HEADER_SIZE) ==> buffer[i] == buffer[..Min(length, MAX_PACKET_LENGTH)][i] == octets[i];
      if length == HEADER_SIZE && expected == HEADER_SIZE {
        if !(buffer[4] == 0x1A && buffer[5] == 0x2B && buffer[6] == 0x3C && buffer[7] == 0x4D) {
          return LostSync;
        }
        expected := Short(buffer[0], buffer[1]);
        if expected < HEADER_SIZE {
          return LostSync;
        }
      }
      if length == expected {
        expected := 0;
        if buffer[2] == 0 && buffer[3] == 1 {
          return Ready;
        }
      }
      r := NotYet;
    }

    // recv_packet, for the octets recv came back with; none when the peer closed.
    method Recv(octets: seq<byte>) returns (r: Result)
      requires Valid() && !Failed() && |octets| <= Wanted()
      modifies this, buffer
      ensures Valid() && taken == old(taken) + octets
      ensures r == Closed <==> octets == []
      ensures r == LostSync <==> Failed()
      ensures r == LostSync ==> |rest| == HEADER_SIZE
      ensures AllDelivered(whole) == old(AllDelivered(whole)) +
                if r == Ready then [Control(length, buffer[..Min(length, MAX_PACKET_LENGTH)])] else []
    {
      if expected == 0 {
        length := 0;
        expected := HEADER_SIZE;
      }
      if octets == [] {
        assert taken + octets == taken;
        return Closed;
      }
      r := Take(octets);
    }

    method Take(octets: seq<byte>) returns (r: Result)
      requires taken == Concat(whole) + rest && Kept(rest) && Awaits(rest)
      requires octets != [] && |octets| <= Wanted()
      modifies this, buffer
      ensures Valid() && taken == old(taken) + octets
      ensures r != Closed && (r == LostSync <==> Failed()) && (r == LostSync ==> |rest| == HEADER_SIZE)
      ensures AllDelivered(whole) == old(AllDelivered(whole)) +
                if r == Ready then [Control(length, buffer[..Min(length, MAX_PACKET_LENGTH)])] else []
    {
      Keep(octets, rest);
      taken, rest := taken + octets, rest + octets;
      r := Judge(rest);
      if r != LostSync && expected == 0 {
        Finish();
      }
    }

    ghost method Finish()
      requires IsMessage(rest) && taken == Concat(whole) + rest
      modifies this`whole, this`rest
      ensures rest == [] && taken == Concat(whole) + rest
      ensures AllDelivered(whole) == old(AllDelivered(whole)) + Delivered(old(rest))
    {
      OneMore(whole, rest);
      whole, rest := whole + [rest], [];
    }
  }
}
