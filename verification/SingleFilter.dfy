// The loops of ipcp_reqci and ccp_reqci: like that of lcp_reqci they turn a request
// into its answer where it lies, but with no second buffer.  Suggestions are written
// over the options themselves, and whatever is returned moves to the front.

module SingleFilter {
  import opened Bytes
  import opened FsmTable
  import opened OptionFilter

  // Here the hint is the option as it stands once it has been judged: as long as
  // before, and untouched when it is acknowledged.
  ghost predicate Steady<O(!new)>(judge: Judging<O>) {
    forall ho: O, c: seq<byte>, at: nat :: Keeps(judge(ho, c, at), c)
  }

  predicate Keeps<O>(j: Judgement<O>, c: seq<byte>) {
    |j.hint| == |c| && (j.verdict == Ack ==> j.hint == c)
  }

  lemma SteadyAt<O(!new)>(judge: Judging<O>, ho: O, c: seq<byte>, at: nat)
    requires Steady(judge)
    ensures Keeps(judge(ho, c, at), c)
  {
  }

  // The options with one verdict, as they stand after judgement, in order.
  function Kept(rs: seq<Ruling>, v: Verdict): seq<byte> {
    if rs == [] then [] else (if rs[0].verdict == v then rs[0].hint else []) + Kept(rs[1..], v)
  }

  // The answer: those with the worst verdict, or the whole request acknowledged.
  function Answer(rs: seq<Ruling>, p: seq<byte>): seq<byte> {
    if Worst(rs) == Ack then p else Kept(rs, Worst(rs))
  }

  lemma {:induction false} KeptOneMore(rs: seq<Ruling>, r: Ruling, v: Verdict)
    ensures Kept(rs + [r], v) == Kept(rs, v) + if r.verdict == v then r.hint else []
  {
    if rs == [] {
      assert (rs + [r])[1..] == [];
    } else {
      KeptOneMore(rs[1..], r, v);
      assert (rs + [r])[0] == rs[0] && (rs + [r])[1..] == rs[1..] + [r];
      var front, last := if rs[0].verdict == v then rs[0].hint else [], if r.verdict == v then r.hint else [];
      assert front + (Kept(rs[1..], v) + last) == front + Kept(rs[1..], v) + last;
    }
  }

  lemma {:induction false} NoneKept(rs: seq<Ruling>, v: Verdict)
    requires forall r :: r in rs ==> r.verdict != v
    ensures Kept(rs, v) == []
  {
    if rs != [] {
      NoneKept(rs[1..], v);
    }
  }

  // A worse verdict than all before starts the answer anew.
  lemma KeptAfter(rs: seq<Ruling>, r: Ruling)
    ensures var rc := Harder(Worst(rs), r.verdict);
            && (rc != Worst(rs) ==> Kept(rs + [r], rc) == r.hint)
            && (rc == Worst(rs) && r.verdict == rc ==> Kept(rs + [r], rc) == Kept(rs, rc) + r.hint)
            && (rc == Worst(rs) && r.verdict != rc ==> Kept(rs + [r], rc) == Kept(rs, rc))
  {
    var rc := Harder(Worst(rs), r.verdict);
    KeptOneMore(rs, r, rc);
    if rc != Worst(rs) {
      NoneKept(rs, rc);
    }
  }

  // If no rejected option was written over, a Reject returns the very options the
  // peer sent, as section 5.4 of RFC 1661 wants it.
  lemma {:induction false} FaithfulReject(rs: seq<Ruling>)
    requires forall r :: r in rs && r.verdict == Rej ==> r.hint == r.option
    ensures Kept(rs, Rej) == Rejected(rs)
  {
    if rs != [] {
      FaithfulReject(rs[1..]);
    }
  }

  // Answers of options as long as they came are as they came only if each of them is.
  lemma {:induction false} KeptAsSent(rs: seq<Ruling>)
    requires forall x :: x in rs ==> |x.hint| == |x.option|
    ensures |Kept(rs, Rej)| == |Rejected(rs)|
    ensures Kept(rs, Rej) == Rejected(rs) <==> forall x :: x in rs && x.verdict == Rej ==> x.hint == x.option
    decreases |rs|
  {
    if rs != [] {
      KeptAsSent(rs[1..]);
      assert forall x :: x in rs <==> x == rs[0] || x in rs[1..];
      if rs[0].verdict == Rej {
        FrontAndRest(rs[0].hint, Kept(rs[1..], Rej), rs[0].option, Rejected(rs[1..]));
      } else {
        assert Kept(rs, Rej) == Kept(rs[1..], Rej) && Rejected(rs) == Rejected(rs[1..]);
      }
    }
  }

  lemma FrontAndRest<T>(a: seq<T>, b: seq<T>, c: seq<T>, d: seq<T>)
    requires |a| == |c|
    ensures a + b == c + d <==> a == c && b == d
  {
    assert (a + b)[..|a|] == a && (a + b)[|a|..] == b;
    assert (c + d)[..|c|] == c && (c + d)[|c|..] == d;
  }

  // A packet of a single option.
  lemma SingleRuling<O>(judge: Judging<O>, ho: O, c: seq<byte>, j: Judgement<O>)
    requires c != [] && FirstLen(c) == |c| && judge(ho, c, 0) == j && j.verdict == Rej
    ensures var rs := Rulings(judge, ho, c, 0); Worst(rs) == Rej && Kept(rs, Rej) == j.hint && Rejected(rs) == c
  {
    assert c[..|c|] == c && c[|c|..] == [];
    var rs := Rulings(judge, ho, c, 0);
    assert Rulings(judge, j.ho, [], |c|) == [];
    assert rs == [Ruling(c, j.verdict, j.hint)] && rs[1..] == [];
    assert rs[0] in rs;
    assert Kept(rs, Rej) == j.hint + Kept(rs[1..], Rej);
    assert Rejected(rs) == c + Rejected(rs[1..]);
  }

  // Whether an option is returned, by the verdicts so far and its own.
  predicate Returned(rc: Verdict, verdict: Verdict, carry: bool) {
    verdict == Rej || (verdict == Nak && rc != Rej) || (verdict == Ack && rc == Ack && carry)
  }

  // Where an option that is returned goes: behind those already there, or to the front
  // if its verdict is worse than theirs.
  function Start(rs: seq<Ruling>, verdict: Verdict, carry: bool): nat {
    if Harder(Worst(rs), verdict) != Worst(rs) then 0
    else if Worst(rs) != Ack then |Kept(rs, Worst(rs))|
    else if carry then |AllOptions(rs)| else 0
  }

  // What the loop copies.
  function Shifts(rs: seq<Ruling>, carry: bool): seq<Copy> {
    if rs == [] then []
    else
      var before, r := rs[..|rs| - 1], rs[|rs| - 1];
      Shifts(before, carry)
      + if Returned(Worst(before), r.verdict, carry)
        then [Copy(|AllOptions(before)|, Start(before, r.verdict, carry), |r.option|)] else []
  }

  lemma ShiftsOneMore(rs: seq<Ruling>, r: Ruling, carry: bool)
    ensures Shifts(rs + [r], carry)
            == Shifts(rs, carry)
               + if Returned(Worst(rs), r.verdict, carry)
                 then [Copy(|AllOptions(rs)|, Start(rs, r.verdict, carry), |r.option|)] else []
  {
    assert (rs + [r])[..|rs|] == rs;
  }

  // An option that stays in the packet or goes at least its own length down.
  predicate Clears(rs: seq<Ruling>, i: nat, carry: bool)
    requires i < |rs|
  {
    var before := rs[..i];
    var start := Start(before, rs[i].verdict, carry);
    Returned(Worst(before), rs[i].verdict, carry) ==>
      start == |AllOptions(before)| || start + |rs[i].option| <= |AllOptions(before)|
  }

  lemma {:induction false} AnswerIsShorter(rs: seq<Ruling>, v: Verdict)
    requires forall r :: r in rs ==> |r.hint| == |r.option|
    ensures |Kept(rs, v)| <= |AllOptions(rs)|
    decreases |rs|
  {
    if rs != [] {
      AnswerIsShorter(rs[1..], v);
    }
  }

  // No copy overlaps if and only if that is so of all options.
  lemma {:induction false} ShiftsApart(rs: seq<Ruling>, carry: bool)
    requires forall r :: r in rs ==> |r.hint| == |r.option|
    ensures AllApart(Shifts(rs, carry)) <==> forall i :: 0 <= i < |rs| ==> Clears(rs, i, carry)
  {
    if rs != [] {
      var before, r := rs[..|rs| - 1], rs[|rs| - 1];
      ShiftsApart(before, carry);
      AnswerIsShorter(before, Worst(before));
      forall i | 0 <= i < |before| ensures Clears(before, i, carry) <==> Clears(rs, i, carry) {
        assert before[..i] == rs[..i];
      }
      var last := Copy(|AllOptions(before)|, Start(before, r.verdict, carry), |r.option|);
      assert rs[..|before|] == before;
      assert Clears(rs, |before|, carry) <==> (Returned(Worst(before), r.verdict, carry) ==> Apart(last));
      assert Returned(Worst(before), r.verdict, carry) ==> last in Shifts(rs, carry);
    }
  }

  // Thus a short option that is accepted, and a longer one that is not.
  lemma ShortThenLongShifts(r: Ruling, s: Ruling, carry: bool)
    requires r.verdict == Ack && s.verdict == Rej && 0 < |r.option| < |s.option|
    ensures !AllApart(Shifts([r, s], carry))
  {
    var rs := [r, s];
    assert rs[..1] == [r] && [r][..0] == [] && [r][1..] == [];
    assert AllOptions([r]) == r.option && Worst([r]) == Ack;
    var m := Copy(|r.option|, 0, |s.option|);
    assert m in Shifts(rs, carry) && !Apart(m);
  }

  // The loop on its way; `carry` says whether acknowledged options are carried along
  // (ipcp_reqci) or passed by (ccp_reqci) as long as nothing worse has come.
  ghost predicate Halfway<O>(judge: Judging<O>, ho0: O, p: seq<byte>, next: nat, ho: O, rs: seq<Ruling>,
      rc: Verdict, carry: bool, shifts: seq<Copy>) {
    && next <= |p| && rc == Worst(rs) && next == |AllOptions(rs)| && shifts == Shifts(rs, carry)
    && Rulings(judge, ho0, p, 0) == rs + Rulings(judge, ho, p[next..], next)
    && Recorded(judge, ho0, p, 0) == Recorded(judge, ho, p[next..], next)
  }

  ghost predicate Arranged(buf: array<byte>, len: nat, next: nat, out: nat, p: seq<byte>, rs: seq<Ruling>,
      rc: Verdict, carry: bool)
    reads buf
  {
    && out <= next && Behind(buf, len, next, p)
    && if rc == Ack then buf[..next] == p[..next]
        && out == (if carry then next else 0) else buf[..out] == Kept(rs, rc)
  }

  function Shifted(rc: Verdict, verdict: Verdict, carry: bool, from: nat, to: nat, n: nat): seq<Copy> {
    if Returned(rc, verdict, carry) then [Copy(from, to, n)] else []
  }

  lemma HalfwayOn<O>(judge: Judging<O>, ho0: O, p: seq<byte>, next: nat, ho: O, rs: seq<Ruling>, rc: Verdict,
      carry: bool, shifts: seq<Copy>, c: seq<byte>)
    requires Halfway(judge, ho0, p, next, ho, rs, rc, carry, shifts) && next < |p|
    requires |c| == FirstLen(p[next..]) && c == p[next..next + |c|]
    ensures var j := judge(ho, c, next);
            Halfway(judge, ho0, p, next + |c|, j.ho, rs + [Ruling(c, j.verdict, j.hint)], Harder(rc, j.verdict),
                    carry, shifts + Shifted(rc, j.verdict, carry, next, Start(rs, j.verdict, carry), |c|))
  {
    var j := judge(ho, c, next);
    var r := Ruling(c, j.verdict, j.hint);
    UnfoldRulings(judge, ho, p, next);
    Regroup(rs, r, Rulings(judge, j.ho, p[next + |c|..], next + |c|));
    WorstOneMore(rs, r);
    OptionsOneMore(rs, r);
    ShiftsOneMore(rs, r, carry);
  }

  lemma AllDone<O>(judge: Judging<O>, ho0: O, p: seq<byte>, ho: O, rs: seq<Ruling>, rc: Verdict, carry: bool,
      shifts: seq<Copy>)
    requires Halfway(judge, ho0, p, |p|, ho, rs, rc, carry, shifts)
    ensures rs == Rulings(judge, ho0, p, 0) && ho == Recorded(judge, ho0, p, 0)
    ensures rc == Worst(rs) && shifts == Shifts(rs, carry)
  {
    assert p[|p|..] == [];
    assert Rulings(judge, ho, [], |p|) == [];
    assert rs + [] == rs;
  }

  // What judging an option writes over it.
  method Overwrite(buf: array<byte>, at: nat, s: seq<byte>)
    requires at + |s| <= buf.Length
    modifies buf
    ensures buf[..at] == old(buf[..at]) && buf[at..at + |s|] == s && buf[at + |s|..] == old(buf[at + |s|..])
  {
    for i := 0 to |s|
      invariant forall j :: 0 <= j < i ==> buf[at + j] == s[j]
      invariant forall j :: 0 <= j < at || at + |s| <= j < buf.Length ==> buf[j] == old(buf[j])
    {
      buf[at + i] := s[i];
    }
  }

  // BCOPY, unless the option is where it should be.
  method Shift(buf: array<byte>, from: nat, to: nat, n: nat)
    requires to <= from && from + n <= buf.Length
    modifies buf
    ensures buf[..to + n] == old(buf[..to]) + old(buf[from..from + n]) && buf[from + n..] == old(buf[from + n..])
  {
    if from != to {
      OptionFilter.Move(buf, from, to, n);
    }
    assert buf[..to + n] == buf[..to] + buf[to..to + n];
  }

  lemma FrontAfter(rs: seq<Ruling>, r: Ruling, front: seq<byte>, carry: bool)
    requires Worst(rs) != Ack ==> front == Kept(rs, Worst(rs))
    ensures var rc := Harder(Worst(rs), r.verdict);
            rc != Ack ==>
              Kept(rs + [r], rc) == if Returned(Worst(rs), r.verdict, carry)
                                    then (if rc != Worst(rs) then [] else front) + r.hint else front
  {
    KeptAfter(rs, r);
    assert [] + r.hint == r.hint;
  }

  // The rest of the packet is still as it came.
  ghost predicate Behind(buf: array<byte>, len: nat, next: nat, p: seq<byte>)
    reads buf
  {
    next <= len == |p| && len <= buf.Length && buf[next..len] == p[next..]
  }

  // Judging is done: the option stands there rewritten.
  method Stage(buf: array<byte>, len: nat, next: nat, s: seq<byte>, ghost p: seq<byte>)
    requires Behind(buf, len, next, p) && next + |s| <= len
    modifies buf
    ensures Behind(buf, len, next + |s|, p)
    ensures buf[..next] == old(buf[..next]) && buf[next..next + |s|] == s && buf[len..] == old(buf[len..])
  {
    Later(buf, len, next, |s|, p);
    SliceOfTail(buf, next + |s|, len);
    Overwrite(buf, next, s);
    SliceOfTail(buf, next + |s|, len);
  }

  method Commit(buf: array<byte>, len: nat, next: nat, start: nat, n: nat, ghost p: seq<byte>)
    returns (ghost shifted: seq<Copy>)
    requires start <= next && next + n <= len && Behind(buf, len, next + n, p)
    modifies buf
    ensures Behind(buf, len, next + n, p)
    ensures buf[..start + n] == old(buf[..start]) + old(buf[next..next + n]) && buf[len..] == old(buf[len..])
    ensures shifted == [Copy(next, start, n)]
  {
    SliceOfTail(buf, next + n, len);
    Shift(buf, next, start, n);
    shifted := [Copy(next, start, n)];
    SliceOfTail(buf, next + n, len);
  }

  // One option of n octets at `next`, rewritten as s, goes where its verdict sends it.
  method Place(buf: array<byte>, len: nat, next: nat, out: nat, s: seq<byte>, verdict: Verdict, rc: Verdict,
      carry: bool,
               ghost p: seq<byte>, ghost rs: seq<Ruling>, ghost c: seq<byte>)
    returns (out': nat, rc': Verdict, ghost shifted: seq<Copy>)
    requires Arranged(buf, len, next, out, p, rs, rc, carry) && rc == Worst(rs)
    requires next + |s| <= len && |c| == |s| && c == p[next..next + |s|] && (verdict == Ack ==> s == c)
    requires next == |AllOptions(rs)|
    modifies buf
    ensures rc' == Harder(rc, verdict)
    ensures Arranged(buf, len, next + |s|, out', p, rs + [Ruling(c, verdict, s)], rc', carry)
    ensures shifted == Shifted(rc, verdict, carry, next, Start(rs, verdict, carry), |s|)
    ensures buf[len..] == old(buf[len..])
  {
    Stage(buf, len, next, s, p);
    rc' := if verdict == Rej || rc == Rej then Rej else if verdict == Nak || rc == Nak then Nak else Ack;
    if rc' == Ack {
      out', shifted := PlaceAck(buf, len, next, out, s, carry, p);
    } else {
      ghost var front := buf[..out];
      assert front == old(buf[..next])[..out];
      assert rc != Ack ==> front == old(buf[..out]);
      FrontAfter(rs, Ruling(c, verdict, s), front, carry);
      out', shifted :=
        PlaceOther(buf, len, next, out, s, rc' != rc, verdict == Rej || (verdict == Nak && rc != Rej), p);
    }
  }

  method PlaceAck(buf: array<byte>, len: nat, next: nat, out: nat, s: seq<byte>, carry: bool, ghost p: seq<byte>)
      returns (out': nat, ghost shifted: seq<Copy>)
    requires next + |s| <= len && Behind(buf, len, next + |s|, p) && s == p[next..next + |s|]
    requires buf[..next] == p[..next] && buf[next..next + |s|] == s && out == if carry then next else 0
    modifies buf
    ensures Behind(buf, len, next + |s|, p) && buf[len..] == old(buf[len..])
    ensures buf[..next + |s|] == p[..next + |s|] && out' == if carry then next + |s| else 0
    ensures shifted == if carry then [Copy(next, next, |s|)] else []
  {
    PrefixGrows(p, next, |s|);
    out', shifted := out, [];
    if carry {
      shifted := Commit(buf, len, next, out, |s|, p);
      out' := out + |s|;
    } else {
      assert buf[..next + |s|] == buf[..next] + buf[next..next + |s|];
    }
  }

  method PlaceOther(buf: array<byte>, len: nat, next: nat, out: nat, s: seq<byte>, anew: bool, returned: bool,
      ghost p: seq<byte>)
    returns (out': nat, ghost shifted: seq<Copy>)
    requires out <= next && next + |s| <= len && Behind(buf, len, next + |s|, p) && buf[next..next + |s|] == s
    modifies buf
    ensures out' <= next + |s| && Behind(buf, len, next + |s|, p) && buf[len..] == old(buf[len..])
    ensures buf[..out'] == if returned then (if anew then [] else old(buf[..out])) + s else old(buf[..out])
    ensures shifted == if returned then [Copy(next, if anew then 0 else out, |s|)] else []
  {
    out', shifted := out, [];
    if returned {
      var start: nat := if anew then 0 else out;
      shifted := Commit(buf, len, next, start, |s|, p);
      out' := start + |s|;
    }
  }

  lemma PrefixGrows<T>(p: seq<T>, k: nat, n: nat)
    requires k + n <= |p|
    ensures p[..k + n] == p[..k] + p[k..k + n]
  {
  }

  lemma SliceOfTail(buf: array<byte>, from: nat, len: nat)
    requires from <= len <= buf.Length
    ensures buf[from..len] == buf[from..][..len - from] && buf[len..] == buf[from..][len - from..]
  {
  }

  lemma Later(buf: array<byte>, len: nat, next: nat, n: nat, p: seq<byte>)
    requires Behind(buf, len, next, p) && next + n <= len
    ensures Behind(buf, len, next + n, p)
  {
    SplitEqual(buf[next..len], p[next..], n);
    assert buf[next..len][n..] == buf[next + n..len];
    assert p[next..][n..] == p[next + n..];
  }

  method Filter<O(!new)>(judge: Judging<O>, ho0: O, buf: array<byte>, len: nat, carry: bool)
    returns (rc: Verdict, outlen: nat, ho: O, ghost shifts: seq<Copy>)
    requires Steady(judge) && len <= buf.Length
    modifies buf
    ensures var p := old(buf[..len]); var rs := Rulings(judge, ho0, p, 0);
            && rc == Worst(rs) && ho == Recorded(judge, ho0, p, 0)
            && outlen <= len && buf[..outlen] == Answer(rs, p) && shifts == Shifts(rs, carry)
            && buf[len..] == old(buf[len..])
  {
    ghost var p := buf[..len];
    ghost var rs: seq<Ruling> := [];
    shifts := [];
    rc, ho := Ack, ho0;
    var next: nat, out: nat := 0, 0;
    assert p[0..] == p;
    while next < len
      invariant Arranged(buf, len, next, out, p, rs, rc, carry)
      invariant Halfway(judge, ho0, p, next, ho, rs, rc, carry, shifts)
      invariant buf[len..] == old(buf[len..])
      decreases len - next
    {
      next, out, ho, rc, rs, shifts := Turn(judge, ho0, buf, len, next, out, ho, rc, carry, p, rs, shifts);
    }
    AllDone(judge, ho0, p, ho, rs, rc, carry, shifts);
    outlen := if rc == Ack then len else out;
    assert p[..len] == p;
  }

  method Turn<O(!new)>(judge: Judging<O>, ghost ho0: O, buf: array<byte>, len: nat, next: nat, out: nat, ho: O,
      rc: Verdict,
                       carry: bool, ghost p: seq<byte>, ghost rs: seq<Ruling>, ghost shifts: seq<Copy>)
    returns (next': nat, out': nat, ho': O, rc': Verdict, ghost rs': seq<Ruling>, ghost shifts': seq<Copy>)
    requires Steady(judge) && next < len
    requires Arranged(buf, len, next, out, p, rs, rc, carry) && Halfway(judge, ho0, p, next, ho, rs, rc, carry, shifts)
    modifies buf
    ensures next < next' && Arranged(buf, len, next', out', p, rs', rc', carry)
              && Halfway(judge, ho0, p, next', ho', rs', rc', carry, shifts')
    ensures buf[len..] == old(buf[len..])
  {
    var c := Peek(buf, len, next, p);
    var j := judge(ho, c, next);
    SteadyAt(judge, ho, c, next);
    HalfwayOn(judge, ho0, p, next, ho, rs, rc, carry, shifts, c);
    ghost var shifted: seq<Copy>;
    out', rc', shifted := Place(buf, len, next, out, j.hint, j.verdict, rc, carry, p, rs, c);
    next', ho' := next + |c|, j.ho;
    rs', shifts' := rs + [Ruling(c, j.verdict, j.hint)], shifts + shifted;
  }
}
