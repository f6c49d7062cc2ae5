// HDLC-like framing (section 4 of RFC 1662): what a stream of octets holds, said
// without regard to the pieces it is read in, and that deframing inverts framing.

module HdlcFraming {
  import opened Fcs

  const FLAG: octet := 0x7E
  const ESCAPE: octet := 0x7D
  const TRANS: octet := 0x20

  // What stands between two flags, with its escapes undone; the last may be cut short.
  datatype Raw = Raw(octets: seq<octet>, dangling: bool)

  function Undo(r: Raw, c: octet): Raw {
    if r.dangling then Raw(r.octets + [c ^ TRANS], false)
    else if c == ESCAPE then Raw(r.octets, true)
    else Raw(r.octets + [c], false)
  }

  function Unescape(line: seq<octet>): Raw
    decreases |line|
  {
    if line == [] then Raw([], false) else Undo(Unescape(line[..|line|-1]), line[|line|-1])
  }

  // The frame of a line, if it is one, without its check sequence.
  predicate IsFrame(r: Raw, max: nat) {
    !r.dangling && 2 < |r.octets| <= max && Sum(INITIAL, r.octets) == GOOD
  }

  function FrameOf(r: Raw, max: nat): seq<seq<octet>> {
    if IsFrame(r, max) then [r.octets[..|r.octets|-2]] else []
  }

  // All frames of a stream, and what has come since the last flag.
  datatype Stream = Stream(frames: seq<seq<octet>>, open: seq<octet>)

  function Advance(t: Stream, c: octet, max: nat): Stream {
    if c == FLAG then Stream(t.frames + FrameOf(Unescape(t.open), max), []) else t.(open := t.open + [c])
  }

  function Deframe(s: seq<octet>, max: nat): Stream
    decreases |s|
  {
    if s == [] then Stream([], []) else Advance(Deframe(s[..|s|-1], max), s[|s|-1], max)
  }

  lemma DeframeOneMore(s: seq<octet>, c: octet, max: nat)
    ensures Deframe(s + [c], max) == Advance(Deframe(s, max), c, max)
  {
    assert (s + [c])[..|s|] == s;
  }

  lemma UnescapeOneMore(line: seq<octet>, c: octet)
    ensures Unescape(line + [c]) == Undo(Unescape(line), c)
  {
    assert (line + [c])[..|line|] == line;
  }

  predicate NoFlag(line: seq<octet>) { forall i :: 0 <= i < |line| ==> line[i] != FLAG }

  // A line without flags is left open, whole; the flag behind it closes it.
  lemma {:induction false} DeframeLine(s: seq<octet>, line: seq<octet>, max: nat)
    requires NoFlag(line)
    ensures Deframe(s + line, max) == Stream(Deframe(s, max).frames, Deframe(s, max).open + line)
  {
    LineStaysOpen(s, line, max, Deframe(s, max));
  }

  lemma {:induction false} LineStaysOpen(s: seq<octet>, line: seq<octet>, max: nat, t: Stream)
    requires NoFlag(line) && Deframe(s, max) == t
    ensures Deframe(s + line, max) == Stream(t.frames, t.open + line)
    decreases |line|
  {
    if line == [] {
      assert s + line == s && t.open + line == t.open;
    } else {
      var n := |line| - 1;
      LineStaysOpen(s, line[..n], max, t);
      OctetStaysOpen(s + line[..n], line[n], max, Stream(t.frames, t.open + line[..n]));
      LastApart(s, line);
      LastApart(t.open, line);
    }
  }

  lemma LastApart<T>(s: seq<T>, t: seq<T>)
    requires t != []
    ensures s + t == s + t[..|t|-1] + [t[|t|-1]]
  {
    assert t == t[..|t|-1] + [t[|t|-1]];
  }

  lemma OctetStaysOpen(s: seq<octet>, c: octet, max: nat, t: Stream)
    requires c != FLAG && Deframe(s, max) == t
    ensures Deframe(s + [c], max) == Stream(t.frames, t.open + [c])
  {
    DeframeOneMore(s, c, max);
  }

  // A sender escapes whatever octets it likes, flags and escapes at least.  One it
  // must not escape is the octet that would turn into a flag.
  function Stuff(b: octet, escaped: bool): seq<octet> { if escaped then [ESCAPE, b ^ TRANS] else [b] }

  predicate Legal(b: octet, escaped: bool) {
    ((b == FLAG || b == ESCAPE) ==> escaped) && (escaped ==> b != FLAG ^ TRANS)
  }

  predicate AllLegal(frame: seq<octet>, escaped: seq<bool>) {
    |escaped| == |frame| && forall i :: 0 <= i < |frame| ==> Legal(frame[i], escaped[i])
  }

  function Line(frame: seq<octet>, escaped: seq<bool>): seq<octet>
    requires |escaped| == |frame|
    decreases |frame|
  {
    if frame == [] then []
        else Line(frame[..|frame|-1], escaped[..|frame|-1]) + Stuff(frame[|frame|-1], escaped[|frame|-1])
  }

  lemma StuffUndone(line: seq<octet>, b: octet, escaped: bool)
    requires Legal(b, escaped) && !Unescape(line).dangling
    ensures NoFlag(Stuff(b, escaped))
    ensures Unescape(line + Stuff(b, escaped)) == Raw(Unescape(line).octets + [b], false)
  {
    Transparent(b);
    if escaped {
      UnescapeOneMore(line, ESCAPE);
      UnescapeOneMore(line + [ESCAPE], b ^ TRANS);
      assert line + Stuff(b, escaped) == line + [ESCAPE] + [b ^ TRANS];
    } else {
      UnescapeOneMore(line, b);
    }
  }

  lemma Transparent(b: octet)
    ensures (b ^ TRANS) ^ TRANS == b
    ensures b ^ TRANS == FLAG ==> b == FLAG ^ TRANS
  {
  }

  lemma {:induction false} LineUnescapes(frame: seq<octet>, escaped: seq<bool>)
    requires AllLegal(frame, escaped)
    ensures NoFlag(Line(frame, escaped)) && Unescape(Line(frame, escaped)) == Raw(frame, false)
    decreases |frame|
  {
    if frame != [] {
      var n := |frame| - 1;
      var before, last := Line(frame[..n], escaped[..n]), Stuff(frame[n], escaped[n]);
      LineUnescapes(frame[..n], escaped[..n]);
      StuffUndone(before, frame[n], escaped[n]);
      NoFlagInEither(before, last);
      LastApart([], frame);
    }
  }

  lemma NoFlagInEither(a: seq<octet>, b: seq<octet>)
    requires NoFlag(a) && NoFlag(b)
    ensures NoFlag(a + b)
  {
  }

  function Framed(payload: seq<octet>): seq<octet> { payload + Trailer(Sum(INITIAL, payload)) }

  lemma FramedIsFrame(payload: seq<octet>, max: nat)
    requires 0 < |payload| <= max - 2
    ensures FrameOf(Raw(Framed(payload), false), max) == [payload]
  {
    var t := Trailer(Sum(INITIAL, payload));
    GoodIsTrailer(payload, t[0], t[1]);
    assert t == [t[0], t[1]];
    assert Framed(payload)[..|payload|] == payload;
  }

  // Whatever is escaped, a payload sent between flags is the next frame heard.
  lemma FramingRoundTrip(s: seq<octet>, payload: seq<octet>, escaped: seq<bool>, max: nat)
    requires 0 < |payload| <= max - 2 && AllLegal(Framed(payload), escaped)
    requires Deframe(s, max).open == []
    ensures Deframe(s + Line(Framed(payload), escaped) + [FLAG], max) == Stream(Deframe(s, max).frames + [payload],
              [])
  {
    var line := Line(Framed(payload), escaped);
    LineUnescapes(Framed(payload), escaped);
    DeframeLine(s, line, max);
    DeframeOneMore(s + line, FLAG, max);
    FramedIsFrame(payload, max);
    assert Deframe(s, max).open + line == line;
  }

  // A frame never is anything else: whatever is delivered was sent with its check
  // sequence behind it.
  lemma DeliveredIsFramed(line: seq<octet>, max: nat, payload: seq<octet>)
    requires FrameOf(Unescape(line), max) == [payload]
    ensures 0 < |payload| <= max - 2 && Unescape(line) == Raw(Framed(payload), false)
  {
    var r := Unescape(line);
    var n := |r.octets| - 2;
    assert r.octets == r.octets[..n] + [r.octets[n], r.octets[n+1]];
    GoodIsTrailer(r.octets[..n], r.octets[n], r.octets[n+1]);
  }

  // Damage to two neighbouring octets of a frame, or to one, is never overlooked.
  lemma DamageIsNoticed(payload: seq<octet>, front: seq<octet>, x: octet, x': octet, y: octet, y': octet,
      rest: seq<octet>, max: nat)
    requires Framed(payload) == front + ([x, x'] + rest) && (x != y || x' != y')
    ensures FrameOf(Raw(front + ([y, y'] + rest), false), max) == []
  {
    var t := Trailer(Sum(INITIAL, payload));
    GoodIsTrailer(payload, t[0], t[1]);
    assert t == [t[0], t[1]];
    if Sum(INITIAL, front + ([y, y'] + rest)) == GOOD {
      BurstChangesSum(INITIAL, front, x, x', y, y', rest);
    }
  }

  // An escaped octet that turns into a flag ends the frame, which is lost.
  lemma EscapedFlagAborts(s: seq<octet>, line: seq<octet>, max: nat, t: Stream)
    requires Deframe(s, max) == t && NoFlag(line) && !Unescape(t.open + line).dangling
    ensures Deframe(s + line + Stuff(FLAG ^ TRANS, true), max) == Stream(t.frames, [])
  {
    LineStaysOpen(s, line, max, t);
    EscapeThenFlag(s + line, max, Stream(t.frames, t.open + line));
    EscapedFlag();
    LastApart(s + line, [ESCAPE, FLAG]);
  }

  lemma EscapedFlag()
    ensures Stuff(FLAG ^ TRANS, true) == [ESCAPE, FLAG] && [ESCAPE, FLAG][..1] == [ESCAPE]
  {
  }

  lemma EscapeThenFlag(s: seq<octet>, max: nat, t: Stream)
    requires Deframe(s, max) == t && !Unescape(t.open).dangling
    ensures Deframe(s + [ESCAPE] + [FLAG], max) == Stream(t.frames, [])
  {
    OctetStaysOpen(s, ESCAPE, max, t);
    UnescapeOneMore(t.open, ESCAPE);
    DeframeOneMore(s + [ESCAPE], FLAG, max);
  }

  // A whole conversation: every payload with its own choice of escapes.
  datatype Sending = Sending(payload: seq<octet>, escaped: seq<bool>)

  predicate Sound(x: Sending, max: nat) { 0 < |x.payload| <= max - 2 && AllLegal(Framed(x.payload), x.escaped) }

  predicate AllSound(xs: seq<Sending>, max: nat) { forall i :: 0 <= i < |xs| ==> Sound(xs[i], max) }

  function Wire(xs: seq<Sending>, max: nat): seq<octet>
    requires AllSound(xs, max)
    decreases |xs|
  {
    if xs == [] then []
    else
      var n := |xs| - 1;
      assert Sound(xs[n], max);
      Wire(xs[..n], max) + Line(Framed(xs[n].payload), xs[n].escaped) + [FLAG]
  }

  function Payloads(xs: seq<Sending>): (ps: seq<seq<octet>>)
    ensures |ps| == |xs| && forall i :: 0 <= i < |xs| ==> ps[i] == xs[i].payload
  {
    seq(|xs|, i requires 0 <= i < |xs| => xs[i].payload)
  }

  lemma {:induction false} DeframeInvertsFraming(xs: seq<Sending>, max: nat)
    requires AllSound(xs, max)
    ensures Deframe(Wire(xs, max), max) == Stream(Payloads(xs), [])
    decreases |xs|
  {
    if xs != [] {
      var n := |xs| - 1;
      DeframeInvertsFraming(xs[..n], max);
      LastSending(xs, Wire(xs[..n], max), Payloads(xs[..n]), max);
    }
  }

  lemma LastSending(xs: seq<Sending>, s: seq<octet>, before: seq<seq<octet>>, max: nat)
    requires xs != [] && AllSound(xs, max)
    requires s == Wire(xs[..|xs|-1], max) && before == Payloads(xs[..|xs|-1])
    requires Deframe(s, max) == Stream(before, [])
    ensures Deframe(Wire(xs, max), max) == Stream(Payloads(xs), [])
  {
    var x := xs[|xs|-1];
    assert Sound(x, max);
    LastOnWire(xs, max);
    assert Payloads(xs) == before + [x.payload];
    OneMoreSending(s, x, before, max);
  }

  lemma LastOnWire(xs: seq<Sending>, max: nat)
    requires xs != [] && AllSound(xs, max)
    ensures var x := xs[|xs|-1];
            Sound(x, max) && Wire(xs, max) == Wire(xs[..|xs|-1], max) + Line(Framed(x.payload), x.escaped) + [FLAG]
  {
  }

  lemma OneMoreSending(s: seq<octet>, x: Sending, before: seq<seq<octet>>, max: nat)
    requires Sound(x, max) && Deframe(s, max) == Stream(before, [])
    ensures Deframe(s + Line(Framed(x.payload), x.escaped) + [FLAG], max) == Stream(before + [x.payload], [])
  {
    FramingRoundTrip(s, x.payload, x.escaped, max);
  }
}
