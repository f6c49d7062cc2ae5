// demand.c: frames that reach the loopback before the link is up are taken apart
// octet by octet, kept in a queue, and sent when their protocol comes up.

module PendingQueue {
  import opened Fcs

  const PPP_HDRLEN := 4

  function Protocol(d: seq<octet>): nat
    requires |d| >= PPP_HDRLEN
  {
    d[2] as nat * 0x100 + d[3] as nat
  }

  type Frame = d: seq<octet> | |d| >= PPP_HDRLEN witness [0, 0, 0, 0]

  // The frames of one protocol, and all others, in order.
  function Of(q: seq<Frame>, proto: nat): seq<Frame>
    decreases |q|
  {
    if q == [] then []
    else
      var n := |q| - 1;
      Of(q[..n], proto) + if Protocol(q[n]) == proto then [q[n]] else []
  }

  function But(q: seq<Frame>, proto: nat): seq<Frame>
    decreases |q|
  {
    if q == [] then []
    else
      var n := |q| - 1;
      But(q[..n], proto) + if Protocol(q[n]) == proto then [] else [q[n]]
  }

  lemma OfOneMore(q: seq<Frame>, d: Frame, proto: nat)
    ensures Of(q + [d], proto) == Of(q, proto) + if Protocol(d) == proto then [d] else []
    ensures But(q + [d], proto) == But(q, proto) + if Protocol(d) == proto then [] else [d]
  {
    assert (q + [d])[..|q|] == q;
  }

  lemma {:induction false} OfTwo(q: seq<Frame>, r: seq<Frame>, proto: nat)
    ensures Of(q + r, proto) == Of(q, proto) + Of(r, proto)
    decreases |r|
  {
    if r == [] {
      assert q + r == q;
    } else {
      var before, d := r[..|r| - 1], r[|r| - 1];
      OfTwo(q, before, proto);
      OfOneMore(q + before, d, proto);
      OfOneMore(before, d, proto);
      assert r == before + [d];
      assert q + r == (q + before) + [d];
      var last := if Protocol(d) == proto then [d] else [];
      assert (Of(q, proto) + Of(before, proto)) + last == Of(q, proto) + (Of(before, proto) + last);
    }
  }

  // Taking out one protocol leaves every other as it was.
  lemma {:induction false} ButKeepsOthers(q: seq<Frame>, proto: nat, other: nat)
    ensures Of(But(q, proto), other) == if other == proto then [] else Of(q, other)
    decreases |q|
  {
    if q != [] {
      var n := |q| - 1;
      ButKeepsOthers(q[..n], proto, other);
      OfOneMore(But(q[..n], proto), q[n], other);
      if Protocol(q[n]) == proto {
        assert But(q, proto) == But(q[..n], proto);
      }
    }
  }

  lemma {:induction false} OfOf(q: seq<Frame>, proto: nat, other: nat)
    ensures Of(Of(q, proto), other) == if other == proto then Of(q, proto) else []
    decreases |q|
  {
    if q != [] {
      var n := |q| - 1;
      OfOf(q[..n], proto, other);
      OfOneMore(Of(q[..n], proto), q[n], other);
      if Protocol(q[n]) != proto {
        assert Of(q, proto) == Of(q[..n], proto);
      }
    }
  }

  // Nothing is lost or sent twice, and frames of one protocol keep their order: of
  // every protocol, what has been sent and what still waits is what was accepted.
  ghost predicate Conserved(accepted: seq<Frame>, sent: seq<Frame>, queue: seq<Frame>) {
    forall p: nat :: Of(accepted, p) == Of(sent, p) + Of(queue, p)
  }

  lemma AcceptingConserves(accepted: seq<Frame>, sent: seq<Frame>, queue: seq<Frame>, d: Frame)
    requires Conserved(accepted, sent, queue)
    ensures Conserved(accepted + [d], sent, queue + [d])
  {
    forall p: nat ensures Of(accepted + [d], p) == Of(sent, p) + Of(queue + [d], p) {
      OfOneMore(accepted, d, p);
      OfOneMore(queue, d, p);
    }
  }

  lemma AcceptingMoreConserves(accepted: seq<Frame>, sent: seq<Frame>, queue: seq<Frame>, more: seq<Frame>)
    requires Conserved(accepted, sent, queue) && |more| <= 1
    ensures Conserved(accepted + more, sent, queue + more)
  {
    if more == [] {
      assert accepted + more == accepted && queue + more == queue;
    } else {
      assert more == [more[0]];
      AcceptingConserves(accepted, sent, queue, more[0]);
    }
  }

  lemma SendingConserves(accepted: seq<Frame>, sent: seq<Frame>, queue: seq<Frame>, proto: nat)
    requires Conserved(accepted, sent, queue)
    ensures Conserved(accepted, sent + Of(queue, proto), But(queue, proto))
  {
    forall p: nat ensures Of(accepted, p) == Of(sent + Of(queue, proto), p) + Of(But(queue, proto), p) {
      SendingOne(sent, queue, proto, p);
    }
  }

  lemma SendingOne(sent: seq<Frame>, queue: seq<Frame>, proto: nat, p: nat)
    ensures Of(sent + Of(queue, proto), p) + Of(But(queue, proto), p) == Of(sent, p) + Of(queue, p)
  {
    OfTwo(sent, Of(queue, proto), p);
    ButKeepsOthers(queue, proto, p);
    OfOf(queue, proto, p);
  }

  class Packet {
    const data: Frame
    var next: Packet?

    constructor (data: Frame)
      ensures this.data == data && next == null
    {
      this.data, next := data, null;
    }
  }

  // pend_q and pend_qtail
  class Queue {
    var head: Packet?
    var tail: Packet?
    ghost var links: seq<Packet>

    ghost predicate Valid()
      reads this, links
    {
      && (links == [] ==> head == null)
      && (links != [] ==> head == links[0] && tail == links[|links|-1])
      && (forall i {:trigger links[i].next} ::
            0 <= i < |links| ==> links[i].next == if i + 1 < |links| then links[i+1] else null)
      && (forall i, j :: 0 <= i < j < |links| ==> links[i] != links[j])
    }

    ghost function Contents(): seq<Frame>
      reads this
    {
      Data(links)
    }

    constructor ()
      ensures Valid() && links == []
    {
      head, tail, links := null, null, [];
    }

    // loop_frame, where it keeps the frame.
    method Append(data: Frame)
      requires Valid()
      modifies this, links
      ensures Valid() && Contents() == old(Contents()) + [data]
      ensures fresh(set p | p in links && p !in old(links))
    {
      var pkt := new Packet(data);
      if head == null {
        head := pkt;
      } else {
        tail.next := pkt;
      }
      tail := pkt;
      links := links + [pkt];
    }

    // demand_discard, where it lets go of all frames.
    method Clear()
      modifies this
      ensures Valid() && links == []
    {
      head, links := null, [];
    }

    // The list as far as it has been put together again, up to prev.
    ghost predicate Spine(prev: Packet?)
      reads this, links
    {
      && (links == [] ==> head == null && prev == null)
      && (links != [] ==> head == links[0] && prev == links[|links|-1])
      && (forall i {:trigger links[i].next} :: 0 <= i < |links| - 1 ==> links[i].next == links[i+1])
      && (forall i, j :: 0 <= i < j < |links| ==> links[i] != links[j])
    }

    method Relink(pkt: Packet, prev: Packet?)
      requires Spine(prev) && pkt !in links
      modifies this`head, this`links, prev
      ensures links == old(links) + [pkt] && Spine(pkt)
    {
      if prev == null {
        head := pkt;
      } else {
        prev.next := pkt;
      }
      links := links + [pkt];
    }

    // demand_rexmit: the frames of one protocol come out, the others stay.
    method Drain(proto: nat) returns (output: seq<Frame>)
      requires Valid()
      modifies this, links
      ensures Valid() && (forall p :: p in links ==> p in old(links))
      ensures output == Of(old(Contents()), proto) && Contents() == But(old(Contents()), proto)
    {
      ghost var was := links;
      ghost var i: nat := 0;
      var pkt, prev: Packet? := head, null;
      head, links, output := null, [], [];
      DividedStarts(was, proto);
      while pkt != null
        invariant i <= |was| && pkt == (if i < |was| then was[i] else null)
        invariant Ahead(was, i) && Spine(prev) && Divided(was, i, proto, links, output)
        decreases |was| - i
      {
        var nextpkt := pkt.next;
        DividedStep(was, i, proto, links, output);
        if Protocol(pkt.data) == proto {
          output := output + [pkt.data];
        } else {
          assert prev != null ==> prev in links;
          Relink(pkt, prev);
          prev := pkt;
        }
        i := i + 1;
        pkt := nextpkt;
      }
      DividedEnds(was, proto, links, output);
      assert prev != null ==> prev in links;
      Close(prev);
    }

    // What has not been reached yet.
    ghost predicate Ahead(was: seq<Packet>, i: nat)
      reads was
    {
      forall k {:trigger was[k].next} :: i <= k < |was| ==> was[k].next == if k + 1 < |was| then was[k+1] else null
    }

    method Close(prev: Packet?)
      requires Spine(prev)
      modifies this`tail, prev
      ensures Valid() && links == old(links)
    {
      tail := prev;
      if prev != null {
        prev.next := null;
      }
    }
  }

  ghost function Staying(links: seq<Packet>, proto: nat): (r: seq<Packet>)
    ensures forall p :: p in r ==> p in links
    decreases |links|
  {
    if links == [] then []
    else
      var n := |links| - 1;
      Staying(links[..n], proto) + if Protocol(links[n].data) == proto then [] else [links[n]]
  }

  predicate Distinct(links: seq<Packet>) { forall k, l :: 0 <= k < l < |links| ==> links[k] != links[l] }

  // The first i of the links are divided into those that stay and what goes out.
  ghost predicate Divided(was: seq<Packet>, i: nat, proto: nat, links: seq<Packet>, output: seq<Frame>) {
    && i <= |was| && (forall p :: p in links ==> p in was[..i])
    && forall w: seq<Packet> :: w == was[..i] ==> links == Staying(w, proto) && output == Of(Data(w), proto)
  }

  lemma DividedStarts(was: seq<Packet>, proto: nat)
    ensures Divided(was, 0, proto, [], [])
  {
  }

  lemma DividedStep(was: seq<Packet>, i: nat, proto: nat, links: seq<Packet>, output: seq<Frame>)
    requires Divided(was, i, proto, links, output) && i < |was| && Distinct(was)
    ensures was[i] !in links && (forall p :: p in links ==> p in was)
    ensures forall k :: i <= k < |was| ==> was[k] !in links
    ensures if Protocol(was[i].data) == proto then Divided(was, i + 1, proto, links, output + [was[i].data])
            else Divided(was, i + 1, proto, links + [was[i]], output)
  {
    var w := was[..i+1];
    assert w[..i] == was[..i];
    assert Data(w) == Data(was[..i]) + [was[i].data];
    OfOneMore(Data(was[..i]), was[i].data, proto);
    assert links == Staying(was[..i], proto) && output == Of(Data(was[..i]), proto);
  }

  lemma DividedEnds(was: seq<Packet>, proto: nat, links: seq<Packet>, output: seq<Frame>)
    requires Divided(was, |was|, proto, links, output)
    ensures (forall p :: p in links ==> p in was)
    ensures output == Of(Data(was), proto) && Data(links) == But(Data(was), proto)
  {
    assert was[..|was|] == was;
    assert links == Staying(was, proto);
    StayingData(was, proto);
  }

  lemma {:induction false} StayingData(links: seq<Packet>, proto: nat)
    ensures Data(Staying(links, proto)) == But(Data(links), proto)
    decreases |links|
  {
    if links != [] {
      var n := |links| - 1;
      StayingData(links[..n], proto);
      OfOneMore(Data(links[..n]), links[n].data, proto);
      assert Data(links) == Data(links[..n]) + [links[n].data];
      if Protocol(links[n].data) == proto {
        assert Staying(links, proto) == Staying(links[..n], proto);
      } else {
        assert Data(Staying(links[..n], proto) + [links[n]]) == Data(Staying(links[..n], proto)) + [links[n].data];
      }
    }
  }

  ghost function Data(links: seq<Packet>): (q: seq<Frame>)
    ensures |q| == |links|
  {
    seq(|links|, i requires 0 <= i < |links| => links[i].data)
  }
}

module Demand {
  import opened Fcs
  import opened FcsTable
  import opened HdlcFraming
  import opened PendingQueue

  // The frames that may bring up the link; what the filters and protocols say is
  // left open.
  predicate Wanted(d: seq<octet>, active: seq<octet> -> bool) {
    |d| >= PPP_HDRLEN && Protocol(d) < 0x8000 && active(d)
  }

  function Accepted(frames: seq<seq<octet>>, active: seq<octet> -> bool): seq<Frame>
    decreases |frames|
  {
    if frames == [] then []
    else
      var d := frames[|frames|-1];
      Accepted(frames[..|frames|-1], active) + if Wanted(d, active) then [d] else []
  }

  lemma AcceptedOneMore(frames: seq<seq<octet>>, d: seq<octet>, active: seq<octet> -> bool)
    ensures Accepted(frames + [d], active) == Accepted(frames, active) + if Wanted(d, active) then [d] else []
  {
    assert (frames + [d])[..|frames|] == frames;
  }

  lemma AcceptedMore(frames: seq<seq<octet>>, more: seq<seq<octet>>, active: seq<octet> -> bool)
    requires |more| <= 1
    ensures Accepted(frames + more, active) == Accepted(frames, active) + Accepted(more, active)
  {
    if more == [] {
      assert frames + more == frames;
    } else {
      assert more == [more[0]] && [] + [more[0]] == [more[0]];
      AcceptedOneMore(frames, more[0], active);
      AcceptedOneMore([], more[0], active);
    }
  }

  // What a whole stream has to say: the line since its last flag, and the frames
  // worth keeping.  (Not to be looked into before it is asked for.)
  ghost predicate Reads(taken: seq<octet>, max: nat, active: seq<octet> -> bool, raw: Raw, heard: seq<Frame>) {
    forall s: seq<octet> :: s == taken ==>
      raw == Unescape(Deframe(s, max).open) && heard == Accepted(Deframe(s, max).frames, active)
  }

  // The check sequence so far.
  ghost predicate Summed(octets: seq<octet>, fcs: Crc) {
    forall s: seq<octet> :: s == octets ==> fcs == Sum(INITIAL, s)
  }

  lemma SummedOneMore(octets: seq<octet>, fcs: Crc, c: octet)
    requires Summed(octets, fcs)
    ensures Summed(octets + [c], Step(fcs, c))
  {
    assert fcs == Sum(INITIAL, octets);
    StepIsNext(fcs, c);
    SumOfTwo(INITIAL, octets, [c]);
    assert [c][1..] == [] && Sum(Next(fcs, c), []) == Next(fcs, c);
  }

  lemma SummedNothing()
    ensures Summed([], INITIAL)
  {
  }

  // What a flag behind that line adds to the frames worth keeping.
  ghost predicate Adds(raw: Raw, max: nat, active: seq<octet> -> bool, more: seq<Frame>) {
    |more| <= 1 && forall r: Raw :: r == raw ==> more == Accepted(FrameOf(r, max), active)
  }

  // Read off the line, its check sequence, and the octets in front of that.
  lemma Added(r: Raw, max: nat, active: seq<octet> -> bool, fcs: Crc, d: seq<octet>) returns (more: seq<Frame>)
    requires Summed(r.octets, fcs)
    requires |r.octets| > 2 ==> d == r.octets[..|r.octets|-2]
    ensures Adds(r, max, active, more)
    ensures more == if !r.dangling && 2 < |r.octets| <= max && fcs == GOOD && Wanted(d, active) then [d] else []
  {
    assert fcs == Sum(INITIAL, r.octets);
    more := Accepted(FrameOf(r, max), active);
    if IsFrame(r, max) {
      AcceptedOneMore([], d, active);
      assert [] + [d] == [d];
    }
  }

  lemma NoneAdded(r: Raw, max: nat, active: seq<octet> -> bool)
    requires |r.octets| > max
    ensures Adds(r, max, active, [])
  {
  }

  lemma ReadsFlag(taken: seq<octet>, max: nat, active: seq<octet> -> bool, raw: Raw, heard: seq<Frame>,
      more: seq<Frame>)
    requires Reads(taken, max, active, raw, heard) && Adds(raw, max, active, more)
    ensures Reads(taken + [FLAG], max, active, Raw([], false), heard + more)
  {
    var t := Deframe(taken, max);
    assert more == Accepted(FrameOf(raw, max), active);
    DeframeOneMore(taken, FLAG, max);
    AcceptedMore(t.frames, FrameOf(raw, max), active);
  }

  lemma ReadsOther(taken: seq<octet>, c: octet, max: nat, active: seq<octet> -> bool, raw: Raw, heard: seq<Frame>)
    requires Reads(taken, max, active, raw, heard) && c != FLAG
    ensures Reads(taken + [c], max, active, Undo(raw, c), heard)
  {
    var t := Deframe(taken, max);
    DeframeOneMore(taken, c, max);
    UnescapeOneMore(t.open, c);
  }

  class Loopback {
    const frame: array<octet>
    const framemax: nat
    const active: seq<octet> -> bool
    const queue: Queue
    var framelen: nat
    var escape_flag: bool
    var flush_flag: bool
    var fcs: Crc
    // Everything received since the last discard.
    ghost var taken: seq<octet>
    // The frames worth keeping among those heard.
    ghost var heard: seq<Frame>
    // Those of them for which there was memory, and for how many there was not.
    ghost var kept: seq<Frame>
    ghost var lost: nat
    ghost var sent: seq<Frame>
    // The line since the last flag.
    ghost var raw: Raw

    ghost predicate Holds(r: Raw)
      reads this, frame
    {
      && frame.Length == framemax && framelen <= framemax
      && flush_flag == (|r.octets| > framemax)
      && (!flush_flag ==> framelen == |r.octets| && frame[..framelen] == r.octets
                          && escape_flag == r.dangling && Summed(r.octets, fcs))
    }

    // However the octets came, the state says what the whole stream says.
    ghost predicate Valid()
      reads this, frame, queue, queue.links
    {
      && Holds(raw) && Reads(taken, framemax, active, raw, heard)
      && queue.Valid()
      && Conserved(kept, sent, queue.Contents())
      && |kept| + lost == |heard| && (lost == 0 ==> kept == heard)
    }

    // In whatever pieces the octets came, the frames kept are those of the stream.
    lemma PiecesDoNotMatter()
      requires Valid()
      ensures heard == Accepted(Deframe(taken, framemax).frames, active)
      ensures Conserved(kept, sent, queue.Contents()) && (lost == 0 ==> kept == heard)
    {
      assert Deframe(taken, framemax) == Deframe(taken, framemax);
    }

    constructor (framemax: nat, active: seq<octet> -> bool)
      ensures Valid() && taken == [] && heard == [] && kept == [] && lost == 0 && sent == []
      ensures this.framemax == framemax && this.active == active
      ensures fresh(frame) && fresh(queue) && queue.links == []
    {
      this.framemax, this.active := framemax, active;
      frame := new octet[framemax](_ => 0);
      queue := new Queue();
      framelen, escape_flag, flush_flag, fcs := 0, false, false, INITIAL;
      taken, heard, kept, lost, sent, raw := [], [], [], 0, [], Raw([], false);
    }

    // An octet that is not a flag.
    method Take(c: octet, ghost r: Raw)
      requires Holds(r)
      modifies this`framelen, this`escape_flag, this`flush_flag, this`fcs, frame
      ensures Holds(Undo(r, c))
    {
      if flush_flag {
        return;
      }
      var c' := c;
      if escape_flag {
        c' := c ^ TRANS;
        escape_flag := false;
      } else if c == ESCAPE {
        escape_flag := true;
        return;
      }
      if framelen >= framemax {
        flush_flag := true;
        return;
      }
      Store(c');
      SummedOneMore(r.octets, fcs, c');
      fcs := Step(fcs, c');
    }

    method Store(c: octet)
      requires frame.Length == framemax && framelen < framemax
      modifies this`framelen, frame
      ensures framelen == old(framelen) + 1 && frame[..framelen] == old(frame[..framelen]) + [c]
    {
      frame[framelen] := c;
      framelen := framelen + 1;
    }

    method Reset()
      modifies this`framelen, this`escape_flag, this`flush_flag, this`fcs
      ensures framelen == 0 && !escape_flag && !flush_flag && fcs == INITIAL
    {
      framelen, flush_flag, escape_flag, fcs := 0, false, false, INITIAL;
    }

    // loop_frame; `room` says whether there is memory for another packet.
    method LoopFrame(d: seq<octet>, room: bool) returns (up: bool)
      requires queue.Valid()
      modifies queue, queue.links
      ensures queue.Valid() && up == Wanted(d, active)
      ensures queue.Contents() == old(queue.Contents()) + if up && room then [d] else []
      ensures fresh(set p | p in queue.links && p !in old(queue.links))
    {
      if |d| < PPP_HDRLEN {
        return false;
      }
      if Protocol(d) >= 0x8000 {
        return false;
      }
      if !active(d) {
        return false;
      }
      if room {
        queue.Append(d);
      }
      up := true;
    }

    // A flag: the frame it ends, if any, is handed on.
    method Flag(room: bool) returns (up: bool, ghost more: seq<Frame>)
      requires Holds(raw) && queue.Valid()
      modifies this`framelen, this`escape_flag, this`flush_flag, this`fcs, this`raw, queue, queue.links
      ensures raw == Raw([], false) && Holds(raw) && queue.Valid()
      ensures Adds(old(raw), framemax, active, more)
      ensures queue.Contents() == old(queue.Contents()) + (if room then more else []) && (up <==> more != [])
      ensures fresh(set p | p in queue.links && p !in old(queue.links))
    {
      more := FlagAdds();
      up := false;
      if !escape_flag && !flush_flag && framelen > 2 && fcs == GOOD {
        framelen := framelen - 2;
        up := LoopFrame(frame[..framelen], room);
      }
      Reset();
      SummedNothing();
      raw := Raw([], false);
    }

    lemma FlagAdds() returns (more: seq<Frame>)
      requires Holds(raw)
      ensures Adds(raw, framemax, active, more)
      ensures more == if !escape_flag && !flush_flag && framelen > 2 && fcs == GOOD
                && Wanted(frame[..framelen-2], active)
                      then [frame[..framelen-2]] else []
    {
      if flush_flag {
        NoneAdded(raw, framemax, active);
        more := [];
      } else {
        var d := if framelen > 2 then frame[..framelen-2] else [];
        assert framelen > 2 ==> frame[..framelen-2] == frame[..framelen][..framelen-2];
        more := Added(raw, framemax, active, fcs, d);
      }
    }

    // loop_chars; `room` says for every octet whether there is memory then.
    method LoopChars(p: seq<octet>, room: nat -> bool) returns (up: bool, ghost all: seq<Frame>)
      requires Valid()
      modifies this`framelen, this`escape_flag, this`flush_flag, this`fcs, this`taken, this`heard, this`kept, this`lost,
               this`raw, frame, queue, queue.links
      ensures Valid() && taken == old(taken) + p && old(lost) <= lost
      ensures heard == old(heard) + all && (up <==> all != [])
      ensures lost == old(lost) ==> queue.Contents() == old(queue.Contents()) + all
      ensures (forall i: nat :: i < |p| ==> room(i)) ==> lost == old(lost)
      ensures fresh(set p | p in queue.links && p !in old(queue.links))
    {
      up, all := false, [];
      for n := 0 to |p|
        invariant Valid() && taken == old(taken) + p[..n] && old(lost) <= lost
        invariant heard == old(heard) + all && (up <==> all != [])
        invariant lost == old(lost) ==> queue.Contents() == old(queue.Contents()) + all
        invariant (forall i: nat :: i < n ==> room(i)) ==> lost == old(lost)
        invariant fresh(set p | p in queue.links && p !in old(queue.links))
      {
        var up', more := LoopChar(p[n], room(n));
        up := up || up';
        all := all + more;
        assert p[..n+1] == p[..n] + [p[n]];
      }
    }

    method LoopChar(c: octet, room: bool) returns (up: bool, ghost more: seq<Frame>)
      requires Valid()
      modifies this`framelen, this`escape_flag, this`flush_flag, this`fcs, this`taken, this`heard, this`kept, this`lost,
               this`raw, frame, queue, queue.links
      ensures Valid() && taken == old(taken) + [c]
      ensures heard == old(heard) + more && (up <==> more != [])
      ensures queue.Contents() == old(queue.Contents()) + if room then more else []
      ensures lost == old(lost) + if room then 0 else |more|
      ensures fresh(set p | p in queue.links && p !in old(queue.links))
    {
      ghost var before := queue.Contents();
      if c == FLAG {
        ghost var r := raw;
        up, more := Flag(room);
        ReadsFlag(taken, framemax, active, r, heard, more);
      } else {
        ReadsOther(taken, c, framemax, active, raw, heard);
        Take(c, raw);
        up, more := false, [];
        raw := Undo(raw, c);
        assert heard + more == heard;
      }
      Account(c, room, before, more);
    }

    // The books, after an octet.
    ghost method Account(c: octet, room: bool, before: seq<Frame>, more: seq<Frame>)
      requires queue.Valid() && Conserved(kept, sent, before) && |more| <= 1
      requires |kept| + lost == |heard| && (lost == 0 ==> kept == heard)
      requires queue.Contents() == before + if room then more else []
      modifies this`taken, this`heard, this`kept, this`lost
      ensures Conserved(kept, sent, queue.Contents())
      ensures |kept| + lost == |heard| && (lost == 0 ==> kept == heard)
      ensures taken == old(taken) + [c] && heard == old(heard) + more
      ensures lost == old(lost) + if room then 0 else |more|
    {
      var now := if room then more else [];
      AcceptingMoreConserves(kept, sent, before, now);
      taken, heard, kept := taken + [c], heard + more, kept + now;
      lost := lost + if room then 0 else |more|;
    }

    // demand_rexmit
    method Rexmit(proto: nat)
      requires Valid()
      modifies this`sent, queue, queue.links
      ensures Valid()
      ensures sent == old(sent) + Of(old(queue.Contents()), proto)
      ensures queue.Contents() == But(old(queue.Contents()), proto)
    {
      SendingConserves(kept, sent, queue.Contents(), proto);
      var output := queue.Drain(proto);
      sent := sent + output;
    }

    // demand_discard; what is heard and sent counts from here anew.
    method Discard()
      requires Valid()
      modifies this`framelen, this`escape_flag, this`flush_flag, this`fcs, this`taken, this`heard, this`kept, this`lost,
               this`raw, this`sent, queue
      ensures Valid() && taken == [] && heard == [] && kept == [] && lost == 0 && sent == [] && queue.Contents() == []
    {
      queue.Clear();
      Reset();
      taken, heard, kept, lost, sent, raw := [], [], [], 0, [], Raw([], false);
    }
  }
}
