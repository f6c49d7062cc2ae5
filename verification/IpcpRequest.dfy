// ipcp_reqci: how one option of the peer's request is judged, and the answer to the
// whole of it.

module IpcpJudge {
  import opened Bytes
  import opened FsmTable
  import opened OptionFilter
  import opened SingleFilter
  import opened IpcpOptions

  // What is recorded of the peer, and what we want, which the peer may change.
  datatype Record = Record(ho: Options, wo: Options)

  // The option with other octets at one place.
  function Over(c: seq<byte>, at: nat, s: seq<byte>): (r: seq<byte>)
    requires at + |s| <= |c|
    ensures |r| == |c|
  {
    c[..at] + s + c[at + |s|..]
  }

  function Reject(r: Record, c: seq<byte>): Judgement<Record> { Judgement(Rej, c, r) }

  // Naks, which become Rejects when we are fed up with them; only then is nothing
  // written over an address.
  function Disagree(r: Record, c: seq<byte>, c': seq<byte>, tough: bool): Judgement<Record> {
    Judgement(if tough then Rej else Nak, if tough then c else c', r)
  }

  // His address: ours is better if he has none, or if we insist on it.
  predicate Contests(a: u32, wo: Options) { a != wo.hisaddr && (a == 0 || !wo.acceptRemote) }

  function JudgeAddr(ao: Options, r: Record, c: seq<byte>, tough: bool): Judgement<Record>
    requires Whole(c)
  {
    if !ao.negAddr || r.ho.oldAddrs || |c| != 6 then Reject(r, c)
    else
      var a := LongAt(c, 2);
      var heard := r.(ho := r.ho.(negAddr := true, hisaddr := a));
      if Contests(a, r.wo) then Disagree(heard, c, Over(c, 2, PutLong(r.wo.hisaddr)), tough)
      else if a == 0 && r.wo.hisaddr == 0 then Reject(r.(wo := r.wo.(reqAddr := false)), c)
      else Judgement(Ack, c, heard)
  }

  function JudgeAddrs(ao: Options, r: Record, c: seq<byte>, tough: bool): Judgement<Record>
    requires Whole(c)
  {
    if !ao.oldAddrs || r.ho.negAddr || |c| != 10 then Reject(r, c)
    else JudgePair(r, c, LongAt(c, 2), LongAt(c, 6), tough)
  }

  // His address and ours.
  function JudgePair(r: Record, c: seq<byte>, a: u32, b: u32, tough: bool): Judgement<Record>
    requires |c| == 10
  {
    if !Contests(a, r.wo) && a == 0 && r.wo.hisaddr == 0 then Reject(r.(wo := r.wo.(reqAddr := false)), c)
    else
      var heard := r.(ho := r.ho.(oldAddrs := true, hisaddr := a, ouraddr := b));
      var c1 := if Contests(a, r.wo) then Over(c, 2, PutLong(r.wo.hisaddr)) else c;
      if b != r.wo.ouraddr && (b == 0 || !r.wo.acceptLocal) then
        Disagree(heard, c, Over(c1, 6, PutLong(r.wo.ouraddr)), tough)
      else
        var agreed := heard.(wo := r.wo.(ouraddr := b));
        if Contests(a, r.wo) then Disagree(agreed, c, c1, tough) else Judgement(Ack, c, agreed)
  }

  predicate IsServer(kind: byte) { kind == CI_MS_DNS1 || kind == CI_MS_DNS2 || kind == CI_MS_WINS1
      || kind == CI_MS_WINS2 }

  function Server(ao: Options, kind: byte): u32 {
    if kind == CI_MS_DNS1 then ao.dns1 else if kind == CI_MS_DNS2 then ao.dns2
    else if kind == CI_MS_WINS1 then ao.wins1 else ao.wins2
  }

  // A server's address is written over the option even if it is then rejected.
  function JudgeServer(ao: Options, r: Record, c: seq<byte>, tough: bool): Judgement<Record>
    requires Whole(c)
  {
    var ours := Server(ao, c[0]);
    if ours == 0 || |c| != 6 then Reject(r, c)
    else if LongAt(c, 2) == ours then Judgement(Ack, c, r)
    else Judgement(if tough then Rej else Nak, Over(c, 2, PutLong(ours)), r)
  }

  function JudgeVj(ao: Options, r: Record, c: seq<byte>, tough: bool): Judgement<Record>
    requires Whole(c)
  {
    if !ao.negVj || (|c| != 6 && |c| != 4) then Reject(r, c)
    else
      var protocol := Short(c[2], c[3]);
      if !(protocol == IPCP_VJ_COMP || (protocol == IPCP_VJ_COMP_OLD && |c| == 4)) then Reject(r, c)
      else if |c| == 4 then
        Judgement(Ack, c, r.(ho := r.ho.(negVj := true, vjProtocol := protocol, oldVj := true,
                                         maxslotindex := MAX_STATES - 1, cflag := 1)))
      else
        var heard := r.(ho := r.ho.(negVj := true, vjProtocol := protocol, maxslotindex := c[4], cflag := c[5]));
        var many, flagged := c[4] > ao.maxslotindex, c[5] != 0 && ao.cflag == 0;
        var c' := Over(c, 4, [if many then ao.maxslotindex else c[4], if flagged then r.wo.cflag else c[5]]);
        if many || flagged then Disagree(heard, c, c', tough) else Judgement(Ack, c, heard)
  }

  // The body of the loop of ipcp_reqci.
  function Judge(ao: Options, tough: bool, r: Record, c: seq<byte>): Judgement<Record> {
    if !Whole(c) then Reject(r, c)
    else if c[0] == CI_ADDRS then JudgeAddrs(ao, r, c, tough)
    else if c[0] == CI_ADDR then JudgeAddr(ao, r, c, tough)
    else if IsServer(c[0]) then JudgeServer(ao, r, c, tough)
    else if c[0] == CI_COMPRESSTYPE then JudgeVj(ao, r, c, tough)
    else Reject(r, c)
  }

  lemma JudgeIsSteady(ao: Options, tough: bool, r: Record, c: seq<byte>)
    ensures |Judge(ao, tough, r, c).hint| == |c|
    ensures Judge(ao, tough, r, c).verdict == Ack ==> Judge(ao, tough, r, c).hint == c
    ensures tough ==> Judge(ao, tough, r, c).verdict != Nak
  {
  }

  // The option a Reject returns is the one that was sent, unless it asked us, fed up
  // with Naks, for a server whose address we know and named another.
  lemma RejectedAsSent(ao: Options, tough: bool, r: Record, c: seq<byte>)
    requires Judge(ao, tough, r, c).verdict == Rej
    ensures Judge(ao, tough, r, c).hint == c <==>
              !(tough && AsksOther(ao, c))
  {
    if Whole(c) && IsServer(c[0]) && |c| == 6 {
      OverReads(c, Server(ao, c[0]));
    }
  }

  lemma OverReads(c: seq<byte>, x: u32)
    requires |c| == 6
    ensures LongAt(Over(c, 2, PutLong(x)), 2) == x
  {
    var s := PutLong(x);
    var r := Over(c, 2, s);
    assert r[2] == s[0] && r[3] == s[1] && r[4] == s[2] && r[5] == s[3];
  }

  function Judges(ao: Options, tough: bool): (judge: Judging<Record>)
    ensures Steady(judge)
  {
    var judge := (r: Record, c: seq<byte>, at: nat) => Judge(ao, tough, r, c);
    JudgesSteady(ao, tough, judge);
    judge
  }

  lemma JudgesSteady(ao: Options, tough: bool, judge: Judging<Record>)
    requires forall r: Record, c: seq<byte>, at: nat :: judge(r, c, at) == Judge(ao, tough, r, c)
    ensures Steady(judge)
  {
    forall r: Record, c: seq<byte>, at: nat
      ensures |judge(r, c, at).hint| == |c| && (judge(r, c, at).verdict == Ack ==> judge(r, c, at).hint == c)
    {
      JudgeIsSteady(ao, tough, r, c);
    }
  }

  // Every ruling is the judgement of some record.
  ghost predicate Judged(ao: Options, tough: bool, x: Ruling) {
    exists r :: Judge(ao, tough, r, x.option) == Judgement(x.verdict, x.hint, Judge(ao, tough, r, x.option).ho)
  }

  lemma {:induction false} RulingsOf(ao: Options, tough: bool, r: Record, p: seq<byte>, at: nat)
    ensures forall x :: x in Rulings(Judges(ao, tough), r, p, at) ==> Judged(ao, tough, x)
    decreases |p|
  {
    if p != [] {
      var judge, n := Judges(ao, tough), FirstLen(p);
      var c := p[..n];
      var j := judge(r, c, at);
      assert j == Judge(ao, tough, r, c);
      RulingsOf(ao, tough, j.ho, p[n..], at + n);
      var rs := Rulings(judge, r, p, at);
      assert rs[0] == Ruling(c, j.verdict, j.hint) && rs[1..] == Rulings(judge, j.ho, p[n..], at + n);
      forall x | x in rs ensures Judged(ao, tough, x) {
        if x == rs[0] {
          assert Judge(ao, tough, r, c) == Judgement(x.verdict, x.hint, Judge(ao, tough, r, c).ho);
        } else {
          assert x in rs[1..];
        }
      }
    }
  }

  // An option that asks for a server whose address we know, and names another.
  predicate AsksOther(ao: Options, c: seq<byte>) {
    |c| == 6 && Whole(c) && IsServer(c[0]) && Server(ao, c[0]) != 0 && LongAt(c, 2) != Server(ao, c[0])
  }

  lemma RulingAsSent(ao: Options, tough: bool, x: Ruling)
    requires Judged(ao, tough, x)
    ensures |x.hint| == |x.option|
    ensures x.verdict == Rej ==> (x.hint == x.option <==> !(tough && AsksOther(ao, x.option)))
    ensures tough && AsksOther(ao, x.option) ==> x.verdict == Rej
  {
    var r :| Judge(ao, tough, r, x.option) == Judgement(x.verdict, x.hint, Judge(ao, tough, r, x.option).ho);
    JudgeIsSteady(ao, tough, r, x.option);
    if x.verdict == Rej {
      RejectedAsSent(ao, tough, r, x.option);
    }
  }

  // A Configure-Reject holds exactly the octets of the rejected options, unless we are
  // fed up with Naks and some option asked for a server other than ours: then it holds
  // options that nobody sent.
  lemma RejectIsFaithfulExactly(ao: Options, tough: bool, r: Record, p: seq<byte>)
    ensures var rs := Rulings(Judges(ao, tough), r, p, 0);
            Kept(rs, Rej) == Rejected(rs) <==> !(tough && exists x :: x in rs && AsksOther(ao, x.option))
  {
    var rs := Rulings(Judges(ao, tough), r, p, 0);
    RulingsOf(ao, tough, r, p, 0);
    forall x | x in rs
      ensures |x.hint| == |x.option|
      ensures x.verdict == Rej ==> (x.hint == x.option <==> !(tough && AsksOther(ao, x.option)))
      ensures tough && AsksOther(ao, x.option) ==> x.verdict == Rej
    {
      RulingAsSent(ao, tough, x);
    }
    KeptAsSent(rs);
  }

  // So a single request for the DNS server 0.0.0.0, when we know one.
  lemma ServerRejected(ao: Options, r: Record, c: seq<byte>)
    requires AsksOther(ao, c)
    ensures var rs := Rulings(Judges(ao, true), r, c, 0);
            Worst(rs) == Rej && Kept(rs, Rej) != Rejected(rs) == c
  {
    RejectedAsSent(ao, true, r, c);
    SingleRuling(Judges(ao, true), r, c, Judge(ao, true, r, c));
  }

  lemma Asking(kind: byte) returns (c: seq<byte>)
    ensures |c| == 6 && Whole(c) && c[0] == kind && LongAt(c, 2) == 0
  {
    c := [kind, 6, 0, 0, 0, 0];
  }

  lemma NoServerNamed(ao: Options, r: Record) returns (c: seq<byte>)
    requires ao.dns1 != 0
    ensures |c| == 6 && Whole(c) && c[0] == CI_MS_DNS1 && LongAt(c, 2) == 0
    ensures var rs := Rulings(Judges(ao, true), r, c, 0); Kept(rs, Rej) != Rejected(rs) == c
  {
    c := Asking(CI_MS_DNS1);
    ServerRejected(ao, r, c);
  }
}

module IpcpRequest {
  import opened Bytes
  import opened FsmTable
  import opened OptionFilter
  import opened SingleFilter
  import opened IpcpOptions
  import opened IpcpJudge

  // Whether a CI_ADDR is put behind the answer: we want an address of the peer's and
  // it has not named any.
  predicate Asks(rc: Verdict, r: Record, tough: bool) {
    rc != Rej && !r.ho.negAddr && !r.ho.oldAddrs && r.wo.reqAddr && !tough
  }

  function Question(wo: Options): seq<byte> { [CI_ADDR, 6] + PutLong(wo.hisaddr) }

  // What the answer needs of the buffer beyond the request.
  ghost predicate HasRoom(ao: Options, wo: Options, tough: bool, p: seq<byte>, room: nat) {
    var rs := Rulings(Judges(ao, tough), Record(ZERO, wo), p, 0);
    Asks(Worst(rs), Recorded(Judges(ao, tough), Record(ZERO, wo), p, 0), tough) ==>
      (if Worst(rs) == Nak then |Answer(rs, p)| else 0) + 6 <= room
  }

  // ipcp_reqci.  The packet comes in buf[..len] and the answer goes out in
  // buf[..outlen].
  method ReqCi(ao: Options, wo: Options, buf: array<byte>, len: nat, tough: bool)
    returns (rc: Verdict, outlen: nat, r: Record, ghost shifts: seq<Copy>)
    requires len <= buf.Length && HasRoom(ao, wo, tough, buf[..len], buf.Length)
    modifies buf
    ensures var p := old(buf[..len]); var rs := Rulings(Judges(ao, tough), Record(ZERO, wo), p, 0);
            var heard := Recorded(Judges(ao, tough), Record(ZERO, wo), p, 0);
            && outlen <= buf.Length && shifts == Shifts(rs, true)
            && if Asks(Worst(rs), heard, tough) then
                 && rc == Nak && buf[..outlen] == (if Worst(rs) == Nak then Answer(rs, p)
                     else []) + Question(heard.wo)
                 && r == if Worst(rs) == Ack then heard.(wo := heard.wo.(reqAddr := false)) else heard
               else rc == Worst(rs) && buf[..outlen] == Answer(rs, p) && r == heard
  {
    ghost var p := buf[..len];
    ghost var rs := Rulings(Judges(ao, tough), Record(ZERO, wo), p, 0);
    rc, outlen, r, shifts := SingleFilter.Filter(Judges(ao, tough), Record(ZERO, wo), buf, len, true);
    assert outlen == |Answer(rs, p)|;
    if Asks(rc, r, tough) {
      var question := Question(r.wo);
      if rc == Ack {
        rc := Nak;
        outlen := 0;
        r := r.(wo := r.wo.(reqAddr := false));
      }
      Overwrite(buf, outlen, question);
      assert buf[..outlen + 6] == buf[..outlen] + buf[outlen..outlen + 6];
      outlen := outlen + 6;
    }
  }

  // A request that has memcpy copy an option onto part of itself: our DNS server, and
  // what nobody knows.
  lemma CopyOverlaps(ao: Options, wo: Options, tough: bool) returns (p: seq<byte>)
    requires ao.dns1 != 0
    ensures p == [CI_MS_DNS1, 6] + PutLong(ao.dns1) + [99, 8, 0, 0, 0, 0, 0, 0]
    ensures !AllApart(Shifts(Rulings(Judges(ao, tough), Record(ZERO, wo), p, 0), true))
  {
    var judge, r := Judges(ao, tough), Record(ZERO, wo);
    var first, second := [CI_MS_DNS1, 6] + PutLong(ao.dns1), [99, 8, 0, 0, 0, 0, 0, 0];
    p := first + second;
    OurServer(ao, tough, r, first);
    TwoRulings(judge, r, first, second);
    assert judge(r, first, 0) == Judge(ao, tough, r, first);
    assert judge(r, second, 6) == Judge(ao, tough, r, second) == Judgement(Rej, second, r);
    var rs := Rulings(judge, r, p, 0);
    ShortThenLongShifts(rs[0], rs[1], true);
  }

  lemma OurServer(ao: Options, tough: bool, r: Record, c: seq<byte>)
    requires ao.dns1 != 0 && c == [CI_MS_DNS1, 6] + PutLong(ao.dns1)
    ensures Judge(ao, tough, r, c) == Judgement(Ack, c, r)
  {
    var s := PutLong(ao.dns1);
    assert c[2] == s[0] && c[3] == s[1] && c[4] == s[2] && c[5] == s[3];
  }
}

// Whether the question for an address still fits behind a long answer.
module IpcpRoom {
  import opened Bytes
  import opened FsmTable
  import opened OptionFilter
  import opened SingleFilter
  import opened IpcpOptions
  import opened IpcpJudge
  import opened IpcpRequest

  // What inpacket_buf holds behind the headers, and the longest request there is.
  const ROOM := 1496

  // Whether we have anything to say to an option that names no address: a server, or
  // a slot number of header compression.
  predicate CanNak(ao: Options) {
    ao.dns1 != 0 || ao.dns2 != 0 || ao.wins1 != 0 || ao.wins2 != 0
    || (ao.negVj && (ao.maxslotindex < 255 || ao.cflag == 0))
  }

  predicate Unnamed(r: Record) { !r.ho.negAddr && !r.ho.oldAddrs }

  // Options that are not rejected, of a peer that has named no address so far, are
  // of four or six octets, and those naked of six.
  ghost predicate Usual(ao: Options, tough: bool, r: Record, c: seq<byte>, j: Judgement<Record>) {
    && (j.ho.wo.reqAddr ==> r.wo.reqAddr) && (Unnamed(j.ho) ==> Unnamed(r))
    && (j.verdict == Ack && Unnamed(j.ho) ==> |c| == 4 || |c| == 6)
    && (j.verdict == Nak && Unnamed(j.ho) ==> |j.hint| == |c| == 6 && CanNak(ao) && !tough)
  }

  lemma UsualAddrs(ao: Options, tough: bool, r: Record, c: seq<byte>)
    requires Whole(c)
    ensures Usual(ao, tough, r, c, JudgeAddrs(ao, r, c, tough))
  {
    if ao.oldAddrs && !r.ho.negAddr && |c| == 10 {
      UsualPair(ao, r, c, LongAt(c, 2), LongAt(c, 6), tough);
    }
  }

  lemma UsualPair(ao: Options, r: Record, c: seq<byte>, a: u32, b: u32, tough: bool)
    requires |c| == 10
    ensures Usual(ao, tough, r, c, JudgePair(r, c, a, b, tough))
  {
    var j := JudgePair(r, c, a, b, tough);
    assert j.verdict == Rej || j.ho.ho.oldAddrs;
  }

  lemma UsualAddr(ao: Options, tough: bool, r: Record, c: seq<byte>)
    requires Whole(c)
    ensures Usual(ao, tough, r, c, JudgeAddr(ao, r, c, tough))
  {
    var j := JudgeAddr(ao, r, c, tough);
    assert j.verdict == Rej || j.ho.ho.negAddr;
  }

  lemma UsualServer(ao: Options, tough: bool, r: Record, c: seq<byte>)
    requires Whole(c)
    ensures Usual(ao, tough, r, c, JudgeServer(ao, r, c, tough))
  {
  }

  lemma UsualVj(ao: Options, tough: bool, r: Record, c: seq<byte>)
    requires Whole(c)
    ensures Usual(ao, tough, r, c, JudgeVj(ao, r, c, tough))
  {
  }

  ghost predicate AllUsual(ao: Options, tough: bool, judge: Judging<Record>) {
    forall r: Record, c: seq<byte>, at: nat :: Usual(ao, tough, r, c, judge(r, c, at))
  }

  lemma UsualJudges(ao: Options, tough: bool)
    ensures AllUsual(ao, tough, Judges(ao, tough))
  {
    forall r: Record, c: seq<byte>, at: nat ensures Usual(ao, tough, r, c, Judges(ao, tough)(r, c, at)) {
      assert Judges(ao, tough)(r, c, at) == Judge(ao, tough, r, c);
      if Whole(c) {
        UsualAddrs(ao, tough, r, c);
        UsualAddr(ao, tough, r, c);
        UsualServer(ao, tough, r, c);
        UsualVj(ao, tough, r, c);
      }
    }
  }

  // So too the answer, of k options: it is as long as the request, or at least four
  // octets shorter.
  ghost predicate Sized(ao: Options, tough: bool, k: nat, kept: nat, len: nat) {
    kept == 6 * k && (kept == len || kept + 4 <= len) && (kept > 0 ==> CanNak(ao) && !tough)
  }

  lemma SizedOn(ao: Options, tough: bool, r: Record, c: seq<byte>, j: Judgement<Record>, rest: seq<Ruling>, k: nat,
      len: nat) returns (k': nat)
    requires Usual(ao, tough, r, c, j) && Unnamed(j.ho) && j.verdict != Rej && |c| <= len
    requires Sized(ao, tough, k, |Kept(rest, Nak)|, len - |c|)
    ensures Sized(ao, tough, k', |Kept([Ruling(c, j.verdict, j.hint)] + rest, Nak)|, len)
  {
    var rs := [Ruling(c, j.verdict, j.hint)] + rest;
    assert rs[1..] == rest;
    k' := if j.verdict == Nak then k + 1 else k;
  }

  ghost predicate NoReject(rs: seq<Ruling>) { forall x :: x in rs ==> x.verdict != Rej }

  lemma NoRejectBehind(x: Ruling, rest: seq<Ruling>)
    requires NoReject([x] + rest)
    ensures x.verdict != Rej && NoReject(rest)
  {
    var rs := [x] + rest;
    assert x in rs && forall y :: y in rest ==> y in rs;
  }

  lemma {:induction false} SizeOfAnswer(ao: Options, tough: bool, judge: Judging<Record>, r: Record, p: seq<byte>,
      at: nat) returns (k: nat)
    requires AllUsual(ao, tough, judge) && NoReject(Rulings(judge, r, p, at)) && Unnamed(Recorded(judge, r, p, at))
    ensures Sized(ao, tough, k, |Kept(Rulings(judge, r, p, at), Nak)|, |p|) && Unnamed(r)
    ensures Recorded(judge, r, p, at).wo.reqAddr ==> r.wo.reqAddr
    decreases |p|
  {
    k := 0;
    if p != [] {
      var n := FirstLen(p);
      var j := judge(r, p[..n], at);
      assert Usual(ao, tough, r, p[..n], j);
      var rest := Rulings(judge, j.ho, p[n..], at + n);
      NoRejectBehind(Ruling(p[..n], j.verdict, j.hint), rest);
      k := SizeOfAnswer(ao, tough, judge, j.ho, p[n..], at + n);
      k := SizedOn(ao, tough, r, p[..n], j, rest, k, |p|);
    }
  }

  // It is naked and leaves addresses alone.
  ghost predicate NakedAs(ao: Options, r: Record, c: seq<byte>) {
    var j := Judge(ao, false, r, c);
    |c| == 6 && c[1] == 6 && j.verdict == Nak && |j.hint| == 6 && (Unnamed(r) ==> Unnamed(j.ho)) && j.ho.wo == r.wo
  }

  lemma OtherServer(ao: Options, r: Record, c: seq<byte>)
    requires AsksOther(ao, c)
    ensures NakedAs(ao, r, c)
  {
    JudgeIsSteady(ao, false, r, c);
  }

  const SLOTS: seq<byte> := [CI_COMPRESSTYPE, 6, 0, 0x2d, 255, 1]

  lemma OtherSlots(ao: Options, r: Record)
    requires ao.negVj && (ao.maxslotindex < 255 || ao.cflag == 0)
    ensures NakedAs(ao, r, SLOTS)
  {
    assert Short(SLOTS[2], SLOTS[3]) == IPCP_VJ_COMP && Judge(ao, false, r, SLOTS) == JudgeVj(ao, r, SLOTS, false);
  }

  // Options for which we know better: another server, or a lower slot.
  lemma Wrong(ao: Options) returns (c: seq<byte>)
    requires CanNak(ao)
    ensures forall r: Record :: NakedAs(ao, r, c)
  {
    if kind: byte :| IsServer(kind) && Server(ao, kind) != 0 {
      c := Asking(kind);
      forall r: Record ensures NakedAs(ao, r, c) {
        OtherServer(ao, r, c);
      }
    } else {
      assert Server(ao, CI_MS_DNS1) == 0 && Server(ao, CI_MS_DNS2) == 0;
      assert Server(ao, CI_MS_WINS1) == 0 && Server(ao, CI_MS_WINS2) == 0;
      c := SLOTS;
      forall r: Record ensures NakedAs(ao, r, c) {
        OtherSlots(ao, r);
      }
    }
  }

  function Times(k: nat, c: seq<byte>): seq<byte> { if k == 0 then [] else c + Times(k - 1, c) }

  // What comes of k of them.
  ghost predicate Naked(r: Record, k: nat, p: seq<byte>, rs: seq<Ruling>, heard: Record) {
    && |p| == |Kept(rs, Nak)| == 6 * k && |rs| == k && (forall x :: x in rs ==> x.verdict == Nak)
    && Unnamed(heard) && heard.wo == r.wo
  }

  lemma {:induction false} AllNaked(ao: Options, r: Record, c: seq<byte>, k: nat, at: nat)
    requires Unnamed(r) && forall r: Record :: NakedAs(ao, r, c)
    ensures var p := Times(k, c);
            Naked(r, k, p, Rulings(Judges(ao, false), r, p, at), Recorded(Judges(ao, false), r, p, at))
    decreases k
  {
    if k > 0 {
      var p, p' := Times(k, c), Times(k - 1, c);
      assert NakedAs(ao, r, c);
      assert FirstLen(p) == 6 && p[..6] == c && p[6..] == p';
      var j := Judges(ao, false)(r, c, at);
      assert j == Judge(ao, false, r, c);
      AllNaked(ao, j.ho, c, k - 1, at + 6);
      OneMoreNaked(j.ho, k - 1, p', Rulings(Judges(ao, false), j.ho, p', at + 6),
                   Recorded(Judges(ao, false), j.ho, p', at + 6), Ruling(c, j.verdict, j.hint));
    }
  }

  lemma OneMoreNaked(r: Record, k: nat, p: seq<byte>, rest: seq<Ruling>, heard: Record, x: Ruling)
    requires Naked(r, k, p, rest, heard) && x.verdict == Nak && |x.hint| == |x.option| == 6
    ensures Naked(r, k + 1, x.option + p, [x] + rest, heard)
  {
    assert ([x] + rest)[1..] == rest;
  }

  // 249 of them, of a peer that names no address though we want one: with the
  // question the answer is of 1500 octets.
  lemma QuestionOverruns(ao: Options, wo: Options) returns (p: seq<byte>)
    requires CanNak(ao) && wo.reqAddr
    ensures |p| == 1494 && !HasRoom(ao, wo, false, p, ROOM)
    ensures var rs := Rulings(Judges(ao, false), Record(ZERO, wo), p, 0);
            Worst(rs) == Nak && |Answer(rs, p) + Question(wo)| == 1500
  {
    var c := Wrong(ao);
    p := Times(249, c);
    AllNaked(ao, Record(ZERO, wo), c, 249, 0);
    var rs := Rulings(Judges(ao, false), Record(ZERO, wo), p, 0);
    assert rs[0] in rs;
  }

  lemma SizeIsExact(ao: Options, tough: bool, k: nat, kept: nat, len: nat)
    requires Sized(ao, tough, k, kept, len) && kept + 6 > ROOM >= len
    ensures len == 1494 && CanNak(ao) && !tough
  {
    assert k == 249;
  }

  // The answers to all requests of a length stay within the buffer if and only if the
  // length is not 1494, we are fed up with Naks, ask for no address, or cannot nak
  // anything else.
  lemma QuestionFits(ao: Options, wo: Options, tough: bool, len: nat)
    requires len <= ROOM
    ensures (forall p: seq<byte> :: |p| == len ==> HasRoom(ao, wo, tough, p, ROOM)) <==>
              !(len == 1494 && !tough && wo.reqAddr && CanNak(ao))
  {
    if len == 1494 && !tough && wo.reqAddr && CanNak(ao) {
      var p := QuestionOverruns(ao, wo);
    } else {
      forall p: seq<byte> | |p| == len ensures HasRoom(ao, wo, tough, p, ROOM) {
        if !HasRoom(ao, wo, tough, p, ROOM) {
          UsualJudges(ao, tough);
          var k := SizeOfAnswer(ao, tough, Judges(ao, tough), Record(ZERO, wo), p, 0);
          SizeIsExact(ao, tough, k, |Kept(Rulings(Judges(ao, tough), Record(ZERO, wo), p, 0), Nak)|, len);
        }
      }
    }
  }
}
