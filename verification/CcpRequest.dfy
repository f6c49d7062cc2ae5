// ccp_reqci: how one option of the peer's request for compression is judged, and the
// answer to the whole of it.

module CcpJudge {
  import opened Bytes
  import opened FsmTable
  import opened OptionFilter
  import opened SingleFilter

  const CI_PREDICTOR_1: byte := 1
  const CI_PREDICTOR_2: byte := 2
  const CI_MPPE: byte := 18
  const CI_BSD_COMPRESS: byte := 21
  const CI_DEFLATE_DRAFT: byte := 24
  const CI_DEFLATE: byte := 26

  const DEFLATE_MIN_SIZE := 8
  const DEFLATE_MIN_WORKS := 9
  const DEFLATE_METHOD_VAL := 8
  const BSD_CURRENT_VERSION := 1
  const BSD_MIN_BITS := 9

  // Encryption of MPPE: stateful or not, 128 and 40 bits.
  datatype Mppe = Mppe(stateful: bool, strong: bool, weak: bool)

  const NO_MPPE := Mppe(false, false, false)

  // struct ccp_options, as far as a request is judged by it or recorded in it.
  datatype Options = Options(
    bsd: bool, bsdBits: nat, deflate: bool, deflateSize: nat, deflateCorrect: bool, deflateDraft: bool,
    predictor1: bool, predictor2: bool, mppe: Mppe)

  const ZERO := Options(false, 0, false, 0, false, false, false, false, NO_MPPE)

  // What trying an option in the kernel comes to: it works, it works once its third
  // octet has been changed, or it does not.  The loops that try ever smaller codes
  // are in here.
  datatype Trial = Works | Smaller(octet: byte) | Fails

  // What an answer depends on: what we allow, whether we are fed up with Naks, the
  // kernel, whether the interface has a receive unit, and stateful MPPE is refused.
  datatype Context = Context(ao: Options, tough: bool, trial: seq<byte> -> Trial, mtu: bool, refuseStateful: bool)

  function Reject(ho: Options, c: seq<byte>): Judgement<Options> { Judgement(Rej, c, ho) }

  // A Nak, or a Reject if we are fed up with them.
  function Disagree(x: Context, ho: Options, c: seq<byte>): Judgement<Options> {
    Judgement(if x.tough then Rej else Nak, c, ho)
  }

  // MPPE_CI_TO_OPTS, and the bits that nobody supports or knows.
  function MppeOf(c: seq<byte>): Mppe
    requires |c| == 6
  {
    Mppe(c[2] % 2 == 0, c[5] / 0x40 % 2 == 1, c[5] / 0x20 % 2 == 1)
  }

  predicate Odd(c: seq<byte>)
    requires |c| == 6
  {
    c[2] >= 2 || c[3] != 0 || c[4] != 0 || c[5] / 0x80 == 1 || c[5] / 0x10 % 2 == 1 || c[5] % 0x10 != 0
  }

  // MPPE_OPTS_TO_CI
  function MppeCi(m: Mppe): (c: seq<byte>)
    ensures |c| == 6
  {
    [CI_MPPE, 6, if m.stateful then 0 else 1, 0, 0, (if m.strong then 0x40 else 0) + if m.weak then 0x20 else 0]
  }

  // The strongest of what is asked for and allowed, of at least one of the two.
  datatype Choice = NoChoice | Chosen(mppe: Mppe)

  function Strength(ao: Mppe, m: Mppe): Choice {
    if m.strong && m.weak then
      if ao.strong then Chosen(m.(weak := false)) else if ao.weak then Chosen(m.(strong := false)) else NoChoice
    else if m.strong then (if ao.strong then Chosen(m) else NoChoice)
    else if m.weak then (if ao.weak then Chosen(m) else NoChoice)
    else NoChoice
  }

  function JudgeMppe(x: Context, ho: Options, c: seq<byte>): Judgement<Options>
    requires Whole(c)
  {
    if x.ao.mppe == NO_MPPE || |c| != 6 then Reject(ho, c)
    else
      var m := MppeOf(c);
      var heard := ho.(mppe := m);
      if (m.stateful && x.refuseStateful) || Strength(x.ao.mppe, m).NoChoice? then Reject(heard, c)
      else
        var n := Strength(x.ao.mppe, m).mppe;
        var c' := MppeCi(n);
        if Odd(c) || n != m then Disagree(x, ho.(mppe := n), c')
        else if x.trial(c) != Works || !x.mtu then Judgement(Rej, c', heard)
        else Judgement(Ack, c', heard)
  }

  // The option with another third octet.
  function Third(c: seq<byte>, x: byte): (r: seq<byte>)
    requires |c| >= 3
    ensures |r| == |c|
  {
    c[2 := x]
  }

  function DeflateOctet(size: nat): byte { ((size - DEFLATE_MIN_SIZE) * 0x10 + DEFLATE_METHOD_VAL) % 0x100 }

  function BsdOctet(bits: nat): byte { (BSD_CURRENT_VERSION * 0x20 + bits % 0x20) % 0x100 }

  // A first option is tried; `restored` is the third octet it is rejected with.
  function Tried(x: Context, ho: Options, c: seq<byte>, naked: bool, at: nat, restored: byte): Judgement<Options>
    requires |c| >= 3
  {
    var r := if at == 0 then x.trial(c) else Works;
    if r == Fails || (r.Smaller? && x.tough) then Judgement(Rej, Third(c, restored), ho)
    else if r.Smaller? then Judgement(Nak, Third(c, r.octet), ho)
    else if naked then Disagree(x, ho, c) else Judgement(Ack, c, ho)
  }

  function JudgeDeflate(x: Context, ho: Options, c: seq<byte>, at: nat): Judgement<Options>
    requires Whole(c)
  {
    if !x.ao.deflate || |c| != 4 || (!x.ao.deflateCorrect && c[0] == CI_DEFLATE)
       || (!x.ao.deflateDraft && c[0] == CI_DEFLATE_DRAFT) then Reject(ho, c)
    else
      var size: nat := c[2] / 0x10 + DEFLATE_MIN_SIZE;
      var heard := ho.(deflate := true, deflateSize := size);
      var naked := c[2] % 0x10 != DEFLATE_METHOD_VAL || c[3] != 0 || size > x.ao.deflateSize
          || size < DEFLATE_MIN_WORKS;
      if naked && x.tough then Judgement(Rej, c, heard)
      else Tried(x, heard, if naked then c[2 := DeflateOctet(x.ao.deflateSize)][3 := 0]
          else c, naked, at, DeflateOctet(size))
  }

  function JudgeBsd(x: Context, ho: Options, c: seq<byte>, at: nat): Judgement<Options>
    requires Whole(c)
  {
    if !x.ao.bsd || |c| != 3 then Reject(ho, c)
    else
      var bits: nat := c[2] % 0x20;
      var heard := ho.(bsd := true, bsdBits := bits);
      var naked := c[2] / 0x20 != BSD_CURRENT_VERSION || bits > x.ao.bsdBits || bits < BSD_MIN_BITS;
      if naked && x.tough then Judgement(Rej, c, heard)
      else Tried(x, heard, if naked then Third(c, BsdOctet(x.ao.bsdBits)) else c, naked, at, BsdOctet(bits))
  }

  function JudgePredictor(x: Context, ho: Options, c: seq<byte>, allowed: bool, at: nat): Judgement<Options>
    requires Whole(c)
  {
    var heard := if c[0] == CI_PREDICTOR_1 then ho.(predictor1 := true) else ho.(predictor2 := true);
    if !allowed || |c| != 2 then Reject(ho, c)
    else if at == 0 && x.trial(c) != Works then Reject(heard, c)
    else Judgement(Ack, c, heard)
  }

  // The body of the loop of ccp_reqci.
  function Judge(x: Context, ho: Options, c: seq<byte>, at: nat): Judgement<Options> {
    if !Whole(c) then Reject(ho, c)
    else if c[0] == CI_MPPE then JudgeMppe(x, ho, c)
    else if c[0] == CI_DEFLATE || c[0] == CI_DEFLATE_DRAFT then JudgeDeflate(x, ho, c, at)
    else if c[0] == CI_BSD_COMPRESS then JudgeBsd(x, ho, c, at)
    else if c[0] == CI_PREDICTOR_1 then JudgePredictor(x, ho, c, x.ao.predictor1, at)
    else if c[0] == CI_PREDICTOR_2 then JudgePredictor(x, ho, c, x.ao.predictor2, at)
    else Reject(ho, c)
  }

  // Building an option from what was read of it gives it back, if it held nothing odd.
  lemma MppeRoundTrip(c: seq<byte>)
    requires |c| == 6 && c[0] == CI_MPPE && c[1] == 6 && !Odd(c)
    ensures MppeCi(MppeOf(c)) == c
  {
    UpperBits(c[5]);
  }

  lemma UpperBits(x: byte)
    requires x / 0x80 != 1 && x / 0x10 % 2 != 1 && x % 0x10 == 0
    ensures x == (if x / 0x40 % 2 == 1 then 0x40 else 0) + (if x / 0x20 % 2 == 1 then 0x20 else 0)
  {
  }

  lemma MppeSteady(x: Context, ho: Options, c: seq<byte>)
    requires Whole(c) && c[0] == CI_MPPE
    ensures Keeps(JudgeMppe(x, ho, c), c)
  {
    if |c| == 6 && !Odd(c) {
      MppeRoundTrip(c);
    }
  }

  lemma JudgeIsSteady(x: Context, ho: Options, c: seq<byte>, at: nat)
    ensures Keeps(Judge(x, ho, c, at), c)
    ensures x.tough ==> Judge(x, ho, c, at).verdict != Nak
  {
    if Whole(c) && c[0] == CI_MPPE {
      MppeSteady(x, ho, c);
    }
  }

  // An option of MPPE whose strength, of what is allowed, is written over it.
  predicate OverwritesMppe(x: Context, c: seq<byte>)
    requires Whole(c)
  {
    && |c| == 6 && x.ao.mppe != NO_MPPE && !(MppeOf(c).stateful && x.refuseStateful)
    && Strength(x.ao.mppe, MppeOf(c)).Chosen?
    && (Odd(c) || Strength(x.ao.mppe, MppeOf(c)).mppe != MppeOf(c))
  }

  predicate AllowsDeflate(ao: Options, c: seq<byte>)
    requires Whole(c)
  {
    ao.deflate && |c| == 4 && (if c[0] == CI_DEFLATE then ao.deflateCorrect else ao.deflateDraft)
  }

  // A request for Deflate of another method, or with other checks than ours, whose
  // replacement the kernel does not take.
  predicate LosesDeflate(x: Context, c: seq<byte>)
    requires Whole(c)
  {
    && AllowsDeflate(x.ao, c) && (c[2] % 0x10 != DEFLATE_METHOD_VAL || c[3] != 0)
    && x.trial(c[2 := DeflateOctet(x.ao.deflateSize)][3 := 0]) == Fails
  }

  // A request for another version of BSD compression, likewise.
  predicate LosesBsd(x: Context, c: seq<byte>)
    requires Whole(c)
  {
    && x.ao.bsd && |c| == 3 && c[2] / 0x20 != BSD_CURRENT_VERSION
    && x.trial(Third(c, BsdOctet(x.ao.bsdBits))) == Fails
  }

  // The options that are rejected with other octets than they came with.  Only the
  // first option of a packet is tried in the kernel.
  predicate Altered(x: Context, c: seq<byte>, first: bool) {
    Whole(c) &&
    if c[0] == CI_MPPE then x.tough && OverwritesMppe(x, c)
    else if c[0] == CI_DEFLATE || c[0] == CI_DEFLATE_DRAFT then first && !x.tough && LosesDeflate(x, c)
    else c[0] == CI_BSD_COMPRESS && first && !x.tough && LosesBsd(x, c)
  }

  lemma MppeCiReads(m: Mppe)
    ensures var c := MppeCi(m); !Odd(c) && MppeOf(c) == m
  {
  }

  lemma MppeAsSent(x: Context, ho: Options, c: seq<byte>)
    requires Whole(c) && c[0] == CI_MPPE
    ensures var j := JudgeMppe(x, ho, c);
            && (x.tough && OverwritesMppe(x, c) ==> j.verdict == Rej)
            && (j.verdict == Rej ==> (j.hint == c <==> !(x.tough && OverwritesMppe(x, c))))
  {
    if |c| == 6 {
      if !Odd(c) {
        MppeRoundTrip(c);
      }
      if Strength(x.ao.mppe, MppeOf(c)).Chosen? {
        MppeCiReads(Strength(x.ao.mppe, MppeOf(c)).mppe);
      }
    }
  }

  lemma DeflateAsSent(x: Context, ho: Options, c: seq<byte>, at: nat)
    requires Whole(c) && (c[0] == CI_DEFLATE || c[0] == CI_DEFLATE_DRAFT)
    ensures var j := JudgeDeflate(x, ho, c, at); var lost := at == 0 && !x.tough && LosesDeflate(x, c);
            (lost ==> j.verdict == Rej) && (j.verdict == Rej ==> (j.hint == c <==> !lost))
  {
  }

  lemma BsdAsSent(x: Context, ho: Options, c: seq<byte>, at: nat)
    requires Whole(c) && c[0] == CI_BSD_COMPRESS
    ensures var j := JudgeBsd(x, ho, c, at); var lost := at == 0 && !x.tough && LosesBsd(x, c);
            (lost ==> j.verdict == Rej) && (j.verdict == Rej ==> (j.hint == c <==> !lost))
  {
  }

  // A rejected option is returned as it was sent if and only if it is none of these,
  // and these are always rejected.
  lemma RejectedAsSent(x: Context, ho: Options, c: seq<byte>, at: nat)
    ensures Altered(x, c, at == 0) ==> Judge(x, ho, c, at).verdict == Rej
    ensures Judge(x, ho, c, at).verdict == Rej ==>
              (Judge(x, ho, c, at).hint == c <==> !Altered(x, c, at == 0))
  {
    if Whole(c) {
      if c[0] == CI_MPPE {
        MppeAsSent(x, ho, c);
      } else if c[0] == CI_DEFLATE || c[0] == CI_DEFLATE_DRAFT {
        DeflateAsSent(x, ho, c, at);
      } else if c[0] == CI_BSD_COMPRESS {
        BsdAsSent(x, ho, c, at);
      }
    }
  }

  // What a ruling says of its option.
  ghost predicate AsSent(x: Context, r: Ruling, first: bool) {
    && |r.hint| == |r.option|
    && (Altered(x, r.option, first) ==> r.verdict == Rej)
    && (r.verdict == Rej ==> (r.hint == r.option <==> !Altered(x, r.option, first)))
  }

  // `start` says whether the first of them is the first of its packet.
  ghost predicate AllAsSent(x: Context, rs: seq<Ruling>, start: bool) {
    forall i {:trigger rs[i]} :: 0 <= i < |rs| ==> if start && i == 0 then AsSent(x, rs[i], true)
                                                   else AsSent(x, rs[i], false)
  }

  lemma {:induction false} RulingsAsSent(x: Context, ho: Options, p: seq<byte>, at: nat)
    ensures AllAsSent(x, Rulings(Judges(x), ho, p, at), at == 0)
    decreases |p|
  {
    if p != [] {
      var n := FirstLen(p);
      var j := Judges(x)(ho, p[..n], at);
      assert j == Judge(x, ho, p[..n], at);
      JudgeIsSteady(x, ho, p[..n], at);
      RejectedAsSent(x, ho, p[..n], at);
      RulingsAsSent(x, j.ho, p[n..], at + n);
      FirstAndRest(x, Ruling(p[..n], j.verdict, j.hint), Rulings(Judges(x), j.ho, p[n..], at + n), at == 0);
    }
  }

  lemma FirstAndRest(x: Context, r: Ruling, rest: seq<Ruling>, first: bool)
    requires AsSent(x, r, first) && AllAsSent(x, rest, false)
    ensures AllAsSent(x, [r] + rest, first)
  {
    var rs := [r] + rest;
    forall i | 0 <= i < |rs|
      ensures if first && i == 0 then AsSent(x, rs[i], true) else AsSent(x, rs[i], false) {
      if i > 0 {
        assert rs[i] == rest[i - 1];
      }
    }
  }

  // A Configure-Reject holds exactly the octets of the rejected options if and only if
  // none of the options of the packet is written over and then rejected.
  lemma RejectIsFaithfulExactly(x: Context, ho: Options, p: seq<byte>)
    ensures var rs := Rulings(Judges(x), ho, p, 0);
            Kept(rs, Rej) == Rejected(rs) <==> !(exists i :: 0 <= i < |rs| && Altered(x, rs[i].option, i == 0))
  {
    var rs := Rulings(Judges(x), ho, p, 0);
    RulingsAsSent(x, ho, p, 0);
    forall r | r in rs ensures |r.hint| == |r.option| {
      var i :| 0 <= i < |rs| && rs[i] == r;
      assert AsSent(x, rs[i], i == 0);
    }
    KeptAsSent(rs);
    if i :| 0 <= i < |rs| && Altered(x, rs[i].option, i == 0) {
      assert AsSent(x, rs[i], i == 0) && rs[i] in rs;
    }
  }

  // So the request for both strengths, when we are fed up with Naks: what is rejected
  // is a request for the stronger one, which nobody made.
  lemma BothStrengths(x: Context, ho: Options) returns (c: seq<byte>)
    requires x.tough && x.ao.mppe.strong
    ensures c == [CI_MPPE, 6, 1, 0, 0, 0x60]
    ensures var rs := Rulings(Judges(x), ho, c, 0);
            Worst(rs) == Rej && Rejected(rs) == c && Kept(rs, Rej) == [CI_MPPE, 6, 1, 0, 0, 0x40]
  {
    c := [CI_MPPE, 6, 1, 0, 0, 0x60];
    var j := Judge(x, ho, c, 0);
    assert MppeOf(c) == Mppe(false, true, true);
    assert j.verdict == Rej && j.hint == MppeCi(Mppe(false, true, false));
    SingleRuling(Judges(x), ho, c, j);
  }

  // And a first request for Deflate of another method, when the kernel has none.
  lemma OtherMethod(x: Context, ho: Options) returns (c: seq<byte>)
    requires x.ao.deflate && x.ao.deflateCorrect && !x.tough && forall s :: x.trial(s) == Fails
    ensures c == [CI_DEFLATE, 4, 0x79, 0]
    ensures var rs := Rulings(Judges(x), ho, c, 0);
            Worst(rs) == Rej && Rejected(rs) == c && Kept(rs, Rej) == [CI_DEFLATE, 4, 0x78, 0]
  {
    c := [CI_DEFLATE, 4, 0x79, 0];
    var j := Judge(x, ho, c, 0);
    assert j.verdict == Rej && j.hint == [CI_DEFLATE, 4, 0x78, 0];
    SingleRuling(Judges(x), ho, c, j);
  }

  function Judges(x: Context): (judge: Judging<Options>)
    ensures Steady(judge)
  {
    var judge := (ho: Options, c: seq<byte>, at: nat) => Judge(x, ho, c, at);
    JudgesSteady(x, judge);
    judge
  }

  lemma JudgesSteady(x: Context, judge: Judging<Options>)
    requires forall ho: Options, c: seq<byte>, at: nat :: judge(ho, c, at) == Judge(x, ho, c, at)
    ensures Steady(judge)
  {
    forall ho: Options, c: seq<byte>, at: nat ensures Keeps(judge(ho, c, at), c) {
      JudgeIsSteady(x, ho, c, at);
    }
  }
}

module CcpRequest {
  import opened Bytes
  import opened FsmTable
  import opened OptionFilter
  import opened SingleFilter
  import opened CcpJudge

  // ccp_reqci; `allRejected` is set where it notes that every option was.
  method ReqCi(x: Context, buf: array<byte>, len: nat)
    returns (rc: Verdict, outlen: nat, ho: Options, method_: int, allRejected: bool,
             ghost shifts: seq<Copy>)
    requires len <= buf.Length
    modifies buf
    ensures var p := old(buf[..len]); var rs := Rulings(Judges(x), ZERO, p, 0);
            && rc == Worst(rs) && ho == Recorded(Judges(x), ZERO, p, 0)
            && outlen <= len && buf[..outlen] == Answer(rs, p) && shifts == Shifts(rs, false)
            && method_ == (if len > 0 then p[0] as int else -1)
            && (allRejected <==> Worst(rs) == Rej && |Answer(rs, p)| == len)
  {
    method_ := if len > 0 then buf[0] else -1;
    rc, outlen, ho, shifts := SingleFilter.Filter(Judges(x), ZERO, buf, len, false);
    allRejected := rc == Rej && outlen == len;
  }

  // That is the case just if all options were.
  lemma AllRejected(x: Context, p: seq<byte>)
    ensures var rs := Rulings(Judges(x), ZERO, p, 0);
            |Kept(rs, Rej)| == |p| <==> forall r :: r in rs ==> r.verdict == Rej
  {
    RulingsCoverPacket(Judges(x), ZERO, p, 0);
    RulingsSteady(Judges(x), ZERO, p, 0);
    KeptLength(Rulings(Judges(x), ZERO, p, 0));
  }

  lemma {:induction false} RulingsSteady(judge: Judging<Options>, ho: Options, p: seq<byte>, at: nat)
    requires Steady(judge)
    ensures forall r :: r in Rulings(judge, ho, p, at) ==> |r.hint| == |r.option| > 0
    decreases |p|
  {
    if p != [] {
      var n := FirstLen(p);
      var j := judge(ho, p[..n], at);
      SteadyAt(judge, ho, p[..n], at);
      RulingsSteady(judge, j.ho, p[n..], at + n);
    }
  }

  lemma {:induction false} KeptLength(rs: seq<Ruling>)
    requires forall r :: r in rs ==> |r.hint| == |r.option| > 0
    ensures |Kept(rs, Rej)| <= |AllOptions(rs)|
    ensures |Kept(rs, Rej)| == |AllOptions(rs)| <==> forall r :: r in rs ==> r.verdict == Rej
    decreases |rs|
  {
    if rs != [] {
      KeptLength(rs[1..]);
      assert forall r :: r in rs <==> r == rs[0] || r in rs[1..];
    }
  }
}
