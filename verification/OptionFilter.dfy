// The loop that lcp_reqci runs over a Configure-Request, for any way of judging a
// single option: the packet becomes the answer inside the buffer it came in.

module OptionFilter {
  import opened Bytes
  import opened FsmTable

  // The verdict on one option, the hint that goes into a Nak, and what has been
  // recorded of the peer's options after it.
  datatype Judgement<O> = Judgement(verdict: Verdict, hint: seq<byte>, ho: O)

  // Given what is recorded so far, the option, and where in the packet it stands.
  type Judging<!O> = (O, seq<byte>, nat) -> Judgement<O>

  ghost predicate Sound<O(!new)>(judge: Judging<O>) {
    forall ho: O, c: seq<byte>, at: nat :: judge(ho, c, at).verdict == Ack ==> judge(ho, c, at).hint == []
  }

  // An option as it stands in the packet: too short, or of the wrong length, only
  // where the packet ends in the middle of it.
  predicate Whole(c: seq<byte>) { |c| >= 2 && c[1] == |c| }

  // The first option of a non-empty packet ends where its length says, or at the
  // end of the packet when the length makes no sense.
  function FirstLen(p: seq<byte>): (n: nat)
    requires p != []
    ensures 0 < n <= |p|
  {
    if |p| < 2 || p[1] < 2 || p[1] > |p| then |p| else p[1]
  }

  // The options of the packet in order, each with what is decided about it.
  datatype Ruling = Ruling(option: seq<byte>, verdict: Verdict, hint: seq<byte>)

  // `at` counts the octets in front.
  function Rulings<O>(judge: Judging<O>, ho: O, p: seq<byte>, at: nat): seq<Ruling>
    decreases |p|
  {
    if p == [] then []
    else
      var c := p[..FirstLen(p)];
      var j := judge(ho, c, at);
      [Ruling(c, j.verdict, j.hint)] + Rulings(judge, j.ho, p[FirstLen(p)..], at + FirstLen(p))
  }

  function Recorded<O>(judge: Judging<O>, ho: O, p: seq<byte>, at: nat): O
    decreases |p|
  {
    if p == [] then ho
    else Recorded(judge, judge(ho, p[..FirstLen(p)], at).ho, p[FirstLen(p)..], at + FirstLen(p))
  }

  // The worst verdict decides: any Reject beats any Nak, any Nak beats Ack.
  function Worst(rs: seq<Ruling>): Verdict {
    if exists r :: r in rs && r.verdict == Rej then Rej
    else if exists r :: r in rs && r.verdict == Nak then Nak
    else Ack
  }

  function Rejected(rs: seq<Ruling>): seq<byte> {
    if rs == [] then [] else (if rs[0].verdict == Rej then rs[0].option else []) + Rejected(rs[1..])
  }

  function Hints(rs: seq<Ruling>): seq<byte> {
    if rs == [] then [] else (if rs[0].verdict == Nak then rs[0].hint else []) + Hints(rs[1..])
  }

  // All hints, those of options that are then rejected included.
  function Written(rs: seq<Ruling>): seq<byte> { if rs == [] then [] else rs[0].hint + Written(rs[1..]) }

  // The answer: the rejected options as they came, or the hints for the naked
  // ones, or the whole request acknowledged.
  function Reply(rs: seq<Ruling>, p: seq<byte>): seq<byte> {
    match Worst(rs) case Rej => Rejected(rs) case Nak => Hints(rs) case Ack => p
  }

  function AllOptions(rs: seq<Ruling>): seq<byte> {
    if rs == [] then [] else rs[0].option + AllOptions(rs[1..])
  }

  // The cutting loses nothing.
  lemma {:induction false} RulingsCoverPacket<O>(judge: Judging<O>, ho: O, p: seq<byte>, at: nat)
    ensures AllOptions(Rulings(judge, ho, p, at)) == p
    decreases |p|
  {
    if p != [] {
      var n := FirstLen(p);
      var j := judge(ho, p[..n], at);
      RulingsCoverPacket(judge, j.ho, p[n..], at + n);
      OptionsInFront(Ruling(p[..n], j.verdict, j.hint), Rulings(judge, j.ho, p[n..], at + n));
      assert p == p[..n] + p[n..];
    }
  }

  lemma OptionsInFront(r: Ruling, rs: seq<Ruling>)
    ensures AllOptions([r] + rs) == r.option + AllOptions(rs)
  {
    assert ([r] + rs)[1..] == rs;
  }

  function Harder(rc: Verdict, v: Verdict): Verdict {
    if rc == Rej || v == Rej then Rej else if rc == Nak || v == Nak then Nak else Ack
  }

  lemma WorstOneMore(rs: seq<Ruling>, r: Ruling)
    ensures Worst(rs + [r]) == Harder(Worst(rs), r.verdict)
  {
    assert r in rs + [r];
    assert forall q :: q in rs + [r] <==> q in rs || q == r;
  }

  lemma {:induction false} RejectedOneMore(rs: seq<Ruling>, r: Ruling)
    ensures Rejected(rs + [r]) == Rejected(rs) + if r.verdict == Rej then r.option else []
    ensures Hints(rs + [r]) == Hints(rs) + if r.verdict == Nak then r.hint else []
  {
    if rs == [] {
      assert (rs + [r])[1..] == [];
    } else {
      assert (rs + [r])[1..] == rs[1..] + [r];
      RejectedOneMore(rs[1..], r);
    }
  }

  lemma {:induction false} WrittenOneMore(rs: seq<Ruling>, r: Ruling)
    ensures Written(rs + [r]) == Written(rs) + r.hint
  {
    if rs == [] {
      assert (rs + [r])[1..] == [];
    } else {
      assert (rs + [r])[1..] == rs[1..] + [r];
      WrittenOneMore(rs[1..], r);
    }
  }

  // What memcpy is asked to do.  C says nothing of areas that overlap.
  datatype Copy = Copy(from: nat, to: nat, n: nat)

  predicate Apart(m: Copy) { m.from == m.to || m.to + m.n <= m.from || m.from + m.n <= m.to }

  predicate AllApart(ms: seq<Copy>) { forall m :: m in ms ==> Apart(m) }

  // Every rejected option goes behind those before it, if it does not lie there.
  function Moves(rs: seq<Ruling>): seq<Copy> {
    if rs == [] then []
    else
      var before, r := rs[..|rs| - 1], rs[|rs| - 1];
      Moves(before)
      + if r.verdict == Rej then [Copy(|AllOptions(before)|, |Rejected(before)|, |r.option|)] else []
  }

  lemma MovesOneMore(rs: seq<Ruling>, r: Ruling)
    ensures Moves(rs + [r])
            == Moves(rs)
               + if r.verdict == Rej then [Copy(|AllOptions(rs)|, |Rejected(rs)|, |r.option|)] else []
  {
    assert (rs + [r])[..|rs|] == rs;
  }

  lemma {:induction false} OptionsOneMore(rs: seq<Ruling>, r: Ruling)
    ensures AllOptions(rs + [r]) == AllOptions(rs) + r.option
  {
    if rs == [] {
      assert (rs + [r])[1..] == [];
    } else {
      assert (rs + [r])[1..] == rs[1..] + [r];
      OptionsOneMore(rs[1..], r);
    }
  }

  // The options that are not rejected.
  function Spared(rs: seq<Ruling>): seq<byte> {
    if rs == [] then [] else (if rs[0].verdict == Rej then [] else rs[0].option) + Spared(rs[1..])
  }

  lemma {:induction false} SparedIsRest(rs: seq<Ruling>)
    ensures |AllOptions(rs)| == |Rejected(rs)| + |Spared(rs)|
  {
    if rs != [] {
      SparedIsRest(rs[1..]);
    }
  }

  // An option that has no need to move, or has enough options spared in front of it.
  predicate Fits(rs: seq<Ruling>, i: nat)
    requires i < |rs|
  {
    rs[i].verdict == Rej ==> Spared(rs[..i]) == [] || |rs[i].option| <= |Spared(rs[..i])|
  }

  // No copy overlaps if and only if that is so of all options.
  lemma {:induction false} MovesApart(rs: seq<Ruling>)
    ensures AllApart(Moves(rs)) <==> forall i :: 0 <= i < |rs| ==> Fits(rs, i)
  {
    if rs != [] {
      var before, r := rs[..|rs| - 1], rs[|rs| - 1];
      MovesApart(before);
      SparedIsRest(before);
      forall i | 0 <= i < |before| ensures Fits(before, i) <==> Fits(rs, i) {
        assert before[..i] == rs[..i];
      }
      var last := Copy(|AllOptions(before)|, |Rejected(before)|, |r.option|);
      assert rs[..|before|] == before;
      assert Fits(rs, |before|) <==> (r.verdict == Rej ==> Apart(last));
      assert r.verdict == Rej ==> last in Moves(rs);
    }
  }

  // Thus a short option that is spared, and a longer one that is rejected.
  lemma ShortThenLong(r: Ruling, s: Ruling)
    requires r.verdict != Rej && s.verdict == Rej && 0 < |r.option| < |s.option|
    ensures !AllApart(Moves([r, s]))
  {
    var rs := [r, s];
    assert rs[..1] == [r] && [r][1..] == [];
    assert AllOptions([r]) == r.option && Rejected([r]) == [];
    var m := Copy(|r.option|, 0, |s.option|);
    assert m in Moves(rs) && !Apart(m);
  }

  // A packet of two options.
  lemma TwoRulings<O>(judge: Judging<O>, ho: O, a: seq<byte>, b: seq<byte>)
    requires Whole(a) && Whole(b)
    ensures var j := judge(ho, a, 0); var k := judge(j.ho, b, |a|);
            Rulings(judge, ho, a + b, 0) == [Ruling(a, j.verdict, j.hint), Ruling(b, k.verdict, k.hint)]
  {
    var p := a + b;
    assert p[..|a|] == a && p[|a|..] == b && b[..|b|] == b && b[|b|..] == [];
    assert p[1] == a[1];
    var j := judge(ho, a, 0);
    var k := judge(j.ho, b, |a|);
    assert Rulings(judge, k.ho, [], |a| + |b|) == [];
    assert Rulings(judge, j.ho, b, |a|) == [Ruling(b, k.verdict, k.hint)];
  }

  // What the loop knows when the first `next` octets of p are dealt with: the
  // rulings so far, the rejected options kept, the hints written, and the copies made.
  ghost predicate Midway<O>(judge: Judging<O>, ho0: O, p: seq<byte>, next: nat, ho: O,
                            rs: seq<Ruling>, rc: Verdict, kept: seq<byte>, nak: seq<byte>, moves: seq<Copy>)
  {
    && next <= |p| && next == |AllOptions(rs)| && moves == Moves(rs)
    && Rulings(judge, ho0, p, 0) == rs + Rulings(judge, ho, p[next..], next)
    && Recorded(judge, ho0, p, 0) == Recorded(judge, ho, p[next..], next)
    && rc == Worst(rs)
    && kept == Rejected(rs)
    && nak == Written(rs)
    && (rc != Rej ==> nak == Hints(rs))
  }

  lemma UnfoldRulings<O>(judge: Judging<O>, ho: O, p: seq<byte>, next: nat)
    requires next < |p|
    ensures var n := FirstLen(p[next..]); var c := p[next..next + n]; var j := judge(ho, c, next);
            && Rulings(judge, ho, p[next..], next)
               == [Ruling(c, j.verdict, j.hint)] + Rulings(judge, j.ho, p[next + n..], next + n)
            && Recorded(judge, ho, p[next..], next) == Recorded(judge, j.ho, p[next + n..], next + n)
  {
    var rest := p[next..];
    var n := FirstLen(rest);
    assert p[next..next + n] == rest[..n] && p[next + n..] == rest[n..];
  }

  lemma Regroup<T>(a: seq<T>, r: T, b: seq<T>)
    ensures a + ([r] + b) == (a + [r]) + b
  {
  }

  lemma OneRuling<O(!new)>(judge: Judging<O>, ho0: O, p: seq<byte>, next: nat, ho: O,
                           rs: seq<Ruling>, rc: Verdict, kept: seq<byte>, nak: seq<byte>, moves: seq<Copy>,
                           c: seq<byte>)
    requires Sound(judge)
    requires next < |p| && Midway(judge, ho0, p, next, ho, rs, rc, kept, nak, moves)
    requires |c| == FirstLen(p[next..]) && c == p[next..next + |c|]
    ensures var j := judge(ho, c, next);
            Midway(judge, ho0, p, next + |c|, j.ho, rs + [Ruling(c, j.verdict, j.hint)], Harder(rc, j.verdict),
                   kept + (if j.verdict == Rej then c else []), nak + j.hint,
                   moves + if j.verdict == Rej then [Copy(next, |kept|, |c|)] else [])
  {
    var j := judge(ho, c, next);
    var r := Ruling(c, j.verdict, j.hint);
    UnfoldRulings(judge, ho, p, next);
    Regroup(rs, r, Rulings(judge, j.ho, p[next + |c|..], next + |c|));
    WorstOneMore(rs, r);
    RejectedOneMore(rs, r);
    WrittenOneMore(rs, r);
    OptionsOneMore(rs, r);
    MovesOneMore(rs, r);
  }

  lemma AllRuled<O(!new)>(judge: Judging<O>, ho0: O, p: seq<byte>, ho: O,
                    rs: seq<Ruling>, rc: Verdict, kept: seq<byte>, nak: seq<byte>, moves: seq<Copy>)
    requires Sound(judge)
    requires Midway(judge, ho0, p, |p|, ho, rs, rc, kept, nak, moves)
    ensures moves == Moves(Rulings(judge, ho0, p, 0))
    ensures rs == Rulings(judge, ho0, p, 0) && ho == Recorded(judge, ho0, p, 0)
    ensures rc == Worst(rs) && nak == Written(rs) && (rc != Rej ==> nak == Hints(rs))
    ensures Reply(rs, p) == match rc case Ack => p case Nak => nak case Rej => kept
  {
    assert p[|p|..] == [];
    assert Rulings(judge, ho, [], |p|) == [];
    assert rs + [] == rs;
  }

  // BCOPY downwards within the packet, lowest octet first.
  method Move(buf: array<byte>, from: nat, to: nat, n: nat)
    requires to <= from && from + n <= buf.Length
    modifies buf
    ensures buf[to..to + n] == old(buf[from..from + n])
    ensures buf[..to] == old(buf[..to]) && buf[from + n..] == old(buf[from + n..])
  {
    for i := 0 to n
      invariant forall j :: 0 <= j < to ==> buf[j] == old(buf[j])
      invariant forall j :: to <= j < to + i ==> buf[j] == old(buf[j + from - to])
      invariant forall j :: to + i <= j < buf.Length ==> buf[j] == old(buf[j])
    {
      buf[to + i] := buf[from + i];
    }
  }

  // The option at cip joins the rejected ones in front of rejp.
  method Keep(buf: array<byte>, cip: nat, rejp: nat, cilen: nat, len: nat)
    requires rejp <= cip && cip + cilen <= len <= buf.Length
    modifies buf
    ensures buf[..rejp + cilen] == old(buf[..rejp]) + old(buf[cip..cip + cilen])
    ensures buf[cip + cilen..len] == old(buf[cip + cilen..len])
  {
    if cip != rejp {
      Move(buf, cip, rejp, cilen);
    }
    assert buf[..rejp + cilen] == buf[..rejp] + buf[rejp..rejp + cilen];
    assert buf[cip + cilen..len] == buf[cip + cilen..][..len - cip - cilen];
  }

  method CopyIn(buf: array<byte>, s: seq<byte>)
    requires |s| <= buf.Length
    modifies buf
    ensures buf[..|s|] == s
  {
    for i := 0 to |s|
      invariant forall j :: 0 <= j < i ==> buf[j] == s[j]
    {
      buf[i] := s[i];
    }
  }

  // The buffer on the way: kept options in front, the rest of the packet behind,
  // and the packet untouched as long as nothing is rejected.
  ghost predicate InPlace(buf: array<byte>, len: nat, next: nat, rejp: nat, p: seq<byte>, kept: seq<byte>,
      rc: Verdict)
    reads buf
  {
    && rejp <= next <= len == |p| && len <= buf.Length
    && buf[..rejp] == kept
    && buf[next..len] == p[next..]
    && (rc != Rej ==> buf[..len] == p)
  }

  // The option at `next`: its length octet, or all that is left if that makes no sense.
  method Peek(buf: array<byte>, len: nat, next: nat, ghost p: seq<byte>) returns (c: seq<byte>)
    requires next < len == |p| && len <= buf.Length && buf[next..len] == p[next..]
    ensures |c| == FirstLen(p[next..]) && c == p[next..next + |c|]
  {
    ghost var rest := p[next..];
    assert buf[next] == buf[next..len][0];
    if len - next >= 2 {
      assert buf[next + 1] == buf[next..len][1];
    }
    var cilen := if len - next < 2 || buf[next + 1] < 2 || buf[next + 1] > len - next then len - next
                 else buf[next + 1];
    c := buf[next..next + cilen];
    assert c == buf[next..len][..cilen];
  }

  lemma SplitEqual<T>(a: seq<T>, b: seq<T>, k: nat)
    requires a == b && k <= |a|
    ensures a[..k] == b[..k] && a[k..] == b[k..]
  {
  }

  // Update the answer for one option.
  method Settle(buf: array<byte>, len: nat, next: nat, rejp: nat, c: seq<byte>, rc: Verdict, verdict: Verdict,
                ghost p: seq<byte>, ghost kept: seq<byte>)
    returns (rejp': nat, rc': Verdict, ghost moves: seq<Copy>)
    requires InPlace(buf, len, next, rejp, p, kept, rc) && next + |c| <= len && c == p[next..next + |c|]
    modifies buf
    ensures rc' == Harder(rc, verdict)
    ensures InPlace(buf, len, next + |c|, rejp', p, kept + (if verdict == Rej then c else []), rc')
    ensures moves == if verdict == Rej then [Copy(next, rejp, |c|)] else []
  {
    rejp', rc', moves := rejp, rc, [];
    var cilen := |c|;
    SplitEqual(buf[next..len], p[next..], cilen);
    assert buf[next..len][..cilen] == buf[next..next + cilen];
    assert p[next..][..cilen] == p[next..next + cilen];
    assert buf[next..len][cilen..] == buf[next + cilen..len];
    assert p[next..][cilen..] == p[next + cilen..];
    if verdict == Nak && rc != Rej {
      rc' := Nak;
    }
    if verdict == Rej {
      rc' := Rej;
      Keep(buf, next, rejp, cilen, len);
      moves := [Copy(next, rejp, cilen)];
      rejp' := rejp + cilen;
    }
  }

  method Deliver(buf: array<byte>, len: nat, rejp: nat, rc: Verdict, nak: seq<byte>,
                 ghost p: seq<byte>, ghost kept: seq<byte>)
    returns (outlen: nat)
    requires InPlace(buf, len, len, rejp, p, kept, rc)
    requires rc == Nak ==> |nak| <= buf.Length
    modifies buf
    ensures outlen <= buf.Length
    ensures buf[..outlen] == match rc case Ack => p case Nak => nak case Rej => kept
  {
    match rc {
      case Ack => outlen := len;
      case Nak =>
        outlen := |nak|;
        CopyIn(buf, nak);
      case Rej => outlen := rejp;
    }
  }

  // One turn of the loop, for the option at `next`.
  method Turn<O(!new)>(judge: Judging<O>, ghost ho0: O, buf: array<byte>, len: nat, next: nat, rejp: nat, ho: O,
                       rc: Verdict, nak: seq<byte>, ghost p: seq<byte>, ghost rs: seq<Ruling>, ghost kept: seq<byte>,
                       ghost moves: seq<Copy>)
    returns (next': nat, rejp': nat, ho': O, rc': Verdict, nak': seq<byte>, ghost rs': seq<Ruling>,
        ghost kept': seq<byte>, ghost moves': seq<Copy>)
    requires Sound(judge) && next < len
    requires InPlace(buf, len, next, rejp, p, kept, rc)
    requires Midway(judge, ho0, p, next, ho, rs, rc, kept, nak, moves)
    modifies buf
    ensures InPlace(buf, len, next', rejp', p, kept', rc') && next < next'
    ensures Midway(judge, ho0, p, next', ho', rs', rc', kept', nak', moves')
  {
    assert rejp == |kept|;
    var c := Peek(buf, len, next, p);
    var j := judge(ho, c, next);
    OneRuling(judge, ho0, p, next, ho, rs, rc, kept, nak, moves, c);
    ghost var moved: seq<Copy>;
    rejp', rc', moved := Settle(buf, len, next, rejp, c, rc, j.verdict, p, kept);
    rs', kept' := rs + [Ruling(c, j.verdict, j.hint)], kept + if j.verdict == Rej then c else [];
    moves' := moves + moved;
    next', ho', nak' := next + |c|, j.ho, nak + j.hint;
  }

  // The loop.  The packet comes in buf[..len] and the answer goes out in
  // buf[..outlen], which must have room for the hints if they are the answer.  `nakp`
  // is how far the hints have reached in their own buffer, `moves` what was copied
  // within the packet.
  method Filter<O(!new)>(judge: Judging<O>, ho0: O, buf: array<byte>, len: nat)
    returns (rc: Verdict, outlen: nat, ho: O, nakp: nat, ghost moves: seq<Copy>)
    requires Sound(judge) && len <= buf.Length
    requires var rs := Rulings(judge, ho0, buf[..len], 0); Worst(rs) == Nak ==> |Hints(rs)| <= buf.Length
    modifies buf
    ensures var p := old(buf[..len]); var rs := Rulings(judge, ho0, p, 0);
            && rc == Worst(rs) && nakp == |Written(rs)|
            && outlen <= buf.Length && buf[..outlen] == Reply(rs, p)
    ensures moves == Moves(Rulings(judge, ho0, old(buf[..len]), 0))
    ensures ho == Recorded(judge, ho0, old(buf[..len]), 0)
  {
    ghost var p := buf[..len];
    ghost var rs: seq<Ruling>, kept: seq<byte> := [], [];
    moves := [];
    rc, ho := Ack, ho0;
    var next: nat, rejp: nat := 0, 0;
    var nak: seq<byte> := [];
    assert p[0..] == p;
    while next < len
      invariant InPlace(buf, len, next, rejp, p, kept, rc)
      invariant Midway(judge, ho0, p, next, ho, rs, rc, kept, nak, moves)
      decreases len - next
    {
      next, rejp, ho, rc, nak, rs, kept, moves :=
        Turn(judge, ho0, buf, len, next, rejp, ho, rc, nak, p, rs, kept, moves);
    }
    AllRuled(judge, ho0, p, ho, rs, rc, kept, nak, moves);
    nakp := |nak|;
    outlen := Deliver(buf, len, rejp, rc, nak, p, kept);
  }
}
