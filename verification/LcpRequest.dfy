// How lcp_reqci judges one option of the peer's Configure-Request.

module LcpJudge {
  import opened Bytes
  import opened OptionMenu
  import opened LcpOptions
  import opened FsmTable
  import opened OptionFilter

  // What a verdict depends on: what we allow, what we asked for ourselves, and
  // whether we do multilink.
  datatype Context = Context(ao: Options, go: Options, multilink: bool)

  // (need & ~have) != 0, and need | have, bit by bit.
  predicate Lacks(need: nat, have: nat) {
    need > 0 && ((need % 2 == 1 && have % 2 == 0) || Lacks(need / 2, have / 2))
  }

  function Union(need: nat, have: nat, bits: nat): (u: nat)
    requires need < Pow2(bits) && have < Pow2(bits)
    ensures u < Pow2(bits)
    decreases bits
  {
    if bits == 0 then 0
    else (if need % 2 == 1 || have % 2 == 1 then 1 else 0) + 2 * Union(need / 2, have / 2, bits - 1)
  }

  lemma Pow2Of32()
    ensures Pow2(32) == 0x1_0000_0000
  {
    assert Pow2(8) == 0x100;
    assert Pow2(16) == 0x1_0000;
    assert Pow2(24) == 0x100_0000;
  }

  function Joined(need: u32, have: u32): u32 {
    Pow2Of32();
    Union(need, have, 32)
  }

  function Reject(ho: Options): Judgement<Options> { Judgement(Rej, [], ho) }
  function Accept(ho: Options): Judgement<Options> { Judgement(Ack, [], ho) }
  function Suggest(ho: Options, c: Ci): Judgement<Options> { Judgement(Nak, Enc(c), ho) }

  // The body of the loop of lcp_reqci.  `ho` is what has been recorded so far,
  // `magic` the number magic() would return.
  function Judge(x: Context, ho: Options, c: seq<byte>, magic: u32): Judgement<Options> {
    if !Whole(c) then Reject(ho)
    else if c[0] == CI_MRU then
      if !x.ao.negMru || |c| != 4 then Reject(ho)
      else if ShortAt(c, 2) < MINMRU then Suggest(ho, Ci(CI_MRU, PutShort(MINMRU)))
      else Accept(ho.(negMru := true, mru := ShortAt(c, 2)))
    else if c[0] == CI_ASYNCMAP then JudgeAsyncmap(x.ao, ho, c)
    else if c[0] == CI_AUTHTYPE then JudgeAuth(x.ao, ho, c)
    else if c[0] == CI_QUALITY then
      if !x.ao.negLqr || |c| != 8 then Reject(ho)
      else if ShortAt(c, 2) != PPP_LQR then Suggest(ho, LqrCi(x.ao.lqrPeriod))
      else Accept(ho)
    else if c[0] == CI_MAGICNUMBER then
      if !(x.ao.negMagic || x.go.negMagic) || |c| != 6 then Reject(ho)
      else if x.go.negMagic && LongAt(c, 2) == x.go.magic then Suggest(ho, MagicCi(magic))
      else Accept(ho.(negMagic := true, magic := LongAt(c, 2)))
    else JudgePlain(x, ho, c)
  }

  // The options that are taken as they are or not at all.
  function JudgePlain(x: Context, ho: Options, c: seq<byte>): (j: Judgement<Options>)
    requires Whole(c)
    ensures j.hint == [] && j.verdict != Nak
  {
    if c[0] == CI_PCOMPRESSION then
      if !x.ao.negPcomp || |c| != 2 then Reject(ho) else Accept(ho.(negPcomp := true))
    else if c[0] == CI_ACCOMPRESSION then
      if !x.ao.negAccomp || |c| != 2 then Reject(ho) else Accept(ho.(negAccomp := true))
    else if c[0] == CI_MRRU then
      if !x.ao.negMrru || !x.multilink || |c| != 4 then Reject(ho)
      else Accept(ho.(negMrru := true, mrru := ShortAt(c, 2)))
    else if c[0] == CI_SSNHF then
      if !x.ao.negSsnhf || !x.multilink || |c| != 2 then Reject(ho) else Accept(ho.(negSsnhf := true))
    else if c[0] == CI_EPDISC then
      if !x.ao.negEndpoint || |c| < 3 || |c| > 3 + MAX_ENDP_LEN then Reject(ho)
      else Accept(ho.(negEndpoint := true, endpoint := Endpoint(c[2], c[3..])))
    else Reject(ho)
  }

  function JudgeAsyncmap(ao: Options, ho: Options, c: seq<byte>): Judgement<Options>
    requires Whole(c)
  {
    if !ao.negAsyncmap || |c| != 6 then Reject(ho)
    else if Lacks(ao.asyncmap, LongAt(c, 2)) then
      Suggest(ho, Ci(CI_ASYNCMAP, PutLong(Joined(ao.asyncmap, LongAt(c, 2)))))
    else Accept(ho.(negAsyncmap := true, asyncmap := LongAt(c, 2)))
  }

  // At most one of PAP, CHAP and EAP is recorded, the first one acceptable.
  function JudgeAuth(ao: Options, ho: Options, c: seq<byte>): Judgement<Options>
    requires Whole(c)
  {
    if |c| < 4 || !(ao.negUpap || ao.negChap || ao.negEap) then Reject(ho)
    else if ShortAt(c, 2) == PPP_PAP then
      if ho.negChap || ho.negEap || |c| != 4 then Reject(ho)
      else if !ao.negUpap then Suggest(ho, if ao.negEap then EapCi() else ChapCi(ao.chapMdtype))
      else Accept(ho.(negUpap := true))
    else if ShortAt(c, 2) == PPP_CHAP then
      if ho.negUpap || ho.negEap || |c| != 5 then Reject(ho)
      else if !ao.negChap then Suggest(ho, if ao.negEap then EapCi() else PapCi())
      else if !CanDigest(ao.chapMdtype, c[4]) then Suggest(ho, ChapCi(ao.chapMdtype))
      else Accept(ho.(negChap := true, chapMdtype := MdtypeOf(c[4])))
    else if ShortAt(c, 2) == PPP_EAP then
      if ho.negChap || ho.negUpap || |c| != 4 then Reject(ho)
      else if !ao.negEap then Suggest(ho, if ao.negChap then ChapCi(ao.chapMdtype) else PapCi())
      else Accept(ho.(negEap := true))
    else Suggest(ho, if ao.negEap then EapCi() else if ao.negChap then ChapCi(ao.chapMdtype) else PapCi())
  }

  lemma NoHintWithAck(x: Context, ho: Options, c: seq<byte>, magic: u32)
    ensures Judge(x, ho, c, magic).verdict == Ack ==> Judge(x, ho, c, magic).hint == []
  {
  }

  // Fed up with Naks: everything but a magic number is rejected instead.
  function Harden(j: Judgement<Options>, c: seq<byte>, tough: bool): Judgement<Options> {
    if j.verdict == Nak && tough && !(Whole(c) && c[0] == CI_MAGICNUMBER) then j.(verdict := Rej) else j
  }

  // The whole of lcp_reqci's judgement; magic() is asked anew at each option, so
  // what it returns may depend on where the option stands.
  function Judges(x: Context, magic: nat -> u32,
      tough: bool): (judge: (Options, seq<byte>, nat) -> Judgement<Options>)
    ensures Sound(judge)
  {
    var judge := (ho: Options, c: seq<byte>, at: nat) => Harden(Judge(x, ho, c, magic(at)), c, tough);
    JudgesSound(x, magic, tough, judge);
    judge
  }

  lemma JudgesSound(x: Context, magic: nat -> u32, tough: bool,
      judge: (Options, seq<byte>, nat) -> Judgement<Options>)
    requires forall ho: Options, c: seq<byte>,
              at: nat :: judge(ho, c, at) == Harden(Judge(x, ho, c, magic(at)), c, tough)
    ensures Sound(judge)
  {
    forall ho: Options, c: seq<byte>, at: nat ensures judge(ho, c, at).verdict == Ack
        ==> judge(ho, c, at).hint == [] {
      NoHintWithAck(x, ho, c, magic(at));
    }
  }
}

module LcpRequest {
  import opened Bytes
  import opened OptionMenu
  import opened LcpOptions
  import opened FsmTable
  import opened OptionFilter
  import opened LcpJudge

  // lcp_reqci.  The packet comes in buf[..len] and the answer goes out in
  // buf[..outlen]; the options accepted are recorded in ho.  `nakp` is how far
  // nak_buffer has been written, `moves` what was copied within the packet.
  method ReqCi(x: Context, buf: array<byte>, len: nat, magic: nat -> u32, tough: bool)
    returns (rc: Verdict, outlen: nat, ho: Options, nakp: nat, ghost moves: seq<Copy>)
    requires len <= buf.Length
    requires var rs := Rulings(Judges(x, magic, tough), ZERO, buf[..len], 0);
             Worst(rs) == Nak ==> |Hints(rs)| <= buf.Length
    modifies buf
    ensures var p := old(buf[..len]); var rs := Rulings(Judges(x, magic, tough), ZERO, p, 0);
            && rc == Worst(rs) && nakp == |Written(rs)|
            && outlen <= buf.Length && buf[..outlen] == Reply(rs, p) && moves == Moves(rs)
    ensures ho == Recorded(Judges(x, magic, tough), ZERO, old(buf[..len]), 0)
  {
    rc, outlen, ho, nakp, moves := Filter(Judges(x, magic, tough), ZERO, buf, len);
  }

  // A request that has memcpy copy an option onto part of itself: protocol compression,
  // which we allow, and what nobody knows.
  lemma CopyOverlaps(x: Context, magic: nat -> u32, tough: bool) returns (p: seq<byte>)
    requires x.ao.negPcomp
    ensures p == [CI_PCOMPRESSION, 2, 99, 4, 0, 0]
    ensures !AllApart(Moves(Rulings(Judges(x, magic, tough), ZERO, p, 0)))
  {
    var judge := Judges(x, magic, tough);
    var first, second := [CI_PCOMPRESSION, 2], [99, 4, 0, 0];
    p := first + second;
    TwoRulings(judge, ZERO, first, second);
    var j := judge(ZERO, first, 0);
    assert j == Harden(Judge(x, ZERO, first, magic(0)), first, tough);
    assert judge(j.ho, second, 2) == Harden(Judge(x, j.ho, second, magic(2)), second, tough);
    var rs := Rulings(judge, ZERO, p, 0);
    ShortThenLong(rs[0], rs[1]);
  }
}

// How much room the hints need.
module LcpNakBuffer {
  import opened Bytes
  import opened OptionMenu
  import opened LcpOptions
  import opened FsmTable
  import opened OptionFilter
  import opened LcpJudge

  // The size of nak_buffer, and the longest request that reaches lcp_reqci.
  const PPP_MRU := 1500
  const LONGEST := 1496

  // A suggestion longer than the option it answers: CHAP, for four octets.
  predicate Grows(x: Context) { x.ao.negChap && !x.ao.negEap }

  // Whether an option of six octets can get a hint of six.
  predicate Sixes(x: Context) { (x.ao.negAsyncmap && x.ao.asyncmap > 0) || x.go.negMagic }

  // What an option of n octets leaves unused of five quarters of its length, in
  // quarters of an octet.
  function Slack(sixes: bool, n: nat): nat {
    if n % 4 == 0 then 0 else if n % 4 == 1 then 5
    else if n % 4 == 2 then (if sixes then 6 else 10) else if sixes then 11 else 15
  }

  lemma SlackAdds(sixes: bool, m: nat, n: nat)
    ensures Slack(sixes, m + n) <= Slack(sixes, m) + Slack(sixes, n)
  {
    assert (m + n) % 4 == (m % 4 + n % 4) % 4;
  }

  lemma AuthHint(ao: Options, ho: Options, c: seq<byte>)
    requires Whole(c)
    ensures |JudgeAuth(ao, ho, c).hint| in {0, 4, 5}
    ensures |JudgeAuth(ao, ho, c).hint| > 0 ==> |c| >= 4
    ensures |JudgeAuth(ao, ho, c).hint| == 5 ==> (ao.negChap && !ao.negEap) || |c| == 5
  {
  }

  lemma HintSizes(x: Context, ho: Options, c: seq<byte>, magic: u32)
    ensures var h := |Judge(x, ho, c, magic).hint|;
            && h in {0, 4, 5, 6, 8}
            && (h == 4 ==> |c| >= 4) && (h == 5 ==> |c| == 5 || (Grows(x) && |c| >= 4))
            && (h == 6 ==> |c| == 6 && Sixes(x)) && (h == 8 ==> |c| == 8)
  {
    if Whole(c) {
      AuthHint(x.ao, ho, c);
      LacksNothing(x.ao.asyncmap);
    }
  }

  lemma LacksNothing(need: nat)
    ensures need == 0 ==> forall have: nat :: !Lacks(need, have)
  {
  }

  lemma HintGrowth(x: Context, ho: Options, c: seq<byte>, magic: u32)
    ensures Within(x, |Judge(x, ho, c, magic).hint|, |c|)
  {
    HintSizes(x, ho, c, magic);
    SizesWithin(x, |Judge(x, ho, c, magic).hint|, |c|);
  }

  lemma SizesWithin(x: Context, h: nat, n: nat)
    requires h in {0, 4, 5, 6, 8}
    requires (h == 4 ==> n >= 4) && (h == 5 ==> n == 5 || (Grows(x) && n >= 4))
    requires (h == 6 ==> n == 6 && Sixes(x)) && (h == 8 ==> n == 8)
    ensures Within(x, h, n)
  {
  }

  // n octets of hints, at most, for m octets of options.
  predicate Within(x: Context, n: nat, m: nat) {
    4 * n + Slack(Sixes(x), m) <= 5 * m && (!Grows(x) ==> n <= m)
  }

  lemma WithinAdds(x: Context, n: nat, m: nat, n': nat, m': nat)
    requires Within(x, n, m) && Within(x, n', m')
    ensures Within(x, n + n', m + m')
  {
    SlackAdds(Sixes(x), m, m');
  }

  lemma {:induction false} AllGrowth(x: Context, magic: nat -> u32, tough: bool, ho: Options, p: seq<byte>, at: nat)
    ensures Within(x, |Written(Rulings(Judges(x, magic, tough), ho, p, at))|, |p|)
    decreases |p|
  {
    if p != [] {
      var k := FirstLen(p);
      HintGrowth(x, ho, p[..k], magic(at));
      AllGrowth(x, magic, tough, Judges(x, magic, tough)(ho, p[..k], at).ho, p[k..], at + k);
      JudgesHints(x, magic, tough, ho, p[..k], at);
      GrowthStep(x, Judges(x, magic, tough), ho, p, at);
    }
  }

  lemma JudgesHints(x: Context, magic: nat -> u32, tough: bool, ho: Options, c: seq<byte>, at: nat)
    ensures Judges(x, magic, tough)(ho, c, at).hint == Judge(x, ho, c, magic(at)).hint
  {
  }

  lemma GrowthStep<O>(x: Context, judge: Judging<O>, ho: O, p: seq<byte>, at: nat)
    requires p != []
    requires var k := FirstLen(p); var j := judge(ho, p[..k], at);
             Within(x, |j.hint|, k) && Within(x, |Written(Rulings(judge, j.ho, p[k..], at + k))|, |p| - k)
    ensures Within(x, |Written(Rulings(judge, ho, p, at))|, |p|)
  {
    var k := FirstLen(p);
    var j := judge(ho, p[..k], at);
    WrittenFirst(judge, ho, p, at);
    WithinAdds(x, |j.hint|, k, |Written(Rulings(judge, j.ho, p[k..], at + k))|, |p| - k);
  }

  lemma WrittenFirst<O>(judge: Judging<O>, ho: O, p: seq<byte>, at: nat)
    requires p != []
    ensures var k := FirstLen(p); var j := judge(ho, p[..k], at);
            |Written(Rulings(judge, ho, p, at))| == |j.hint| + |Written(Rulings(judge, j.ho, p[k..], at + k))|
  {
    var k := FirstLen(p);
    var j := judge(ho, p[..k], at);
    var rest := Rulings(judge, j.ho, p[k..], at + k);
    assert ([Ruling(p[..k], j.verdict, j.hint)] + rest)[1..] == rest;
  }

  // Requests for an authentication that nobody knows, and one more option.
  const UNKNOWN: seq<byte> := [CI_AUTHTYPE, 4, 0, 0]

  function Many(k: nat, rest: seq<byte>): seq<byte> { if k == 0 then rest else UNKNOWN + Many(k - 1, rest) }

  lemma {:induction false} ManyLength(k: nat, rest: seq<byte>)
    ensures |Many(k, rest)| == 4 * k + |rest|
  {
    if k > 0 {
      ManyLength(k - 1, rest);
    }
  }

  lemma UnknownHint(x: Context, ho: Options, magic: u32)
    requires Grows(x)
    ensures Judge(x, ho, UNKNOWN, magic) == Judgement(Nak, Enc(ChapCi(x.ao.chapMdtype)), ho)
    ensures |Enc(ChapCi(x.ao.chapMdtype))| == 5
  {
  }

  // Each of them gets a hint of five octets, and leaves the records alone.
  ghost predicate FiveAt(judge: Judging<Options>, ho: Options, at: nat) {
    judge(ho, UNKNOWN, at).ho == ho && |judge(ho, UNKNOWN, at).hint| == 5
  }

  ghost predicate Fives(judge: Judging<Options>) { forall ho: Options, at: nat :: FiveAt(judge, ho, at) }

  lemma JudgesFive(x: Context, magic: nat -> u32, tough: bool)
    requires Grows(x)
    ensures Fives(Judges(x, magic, tough))
  {
    forall ho: Options, at: nat ensures FiveAt(Judges(x, magic, tough), ho, at) {
      UnknownHint(x, ho, magic(at));
    }
  }

  lemma {:induction false} ManyHints(judge: Judging<Options>, ho: Options, k: nat, rest: seq<byte>, at: nat)
    requires Fives(judge)
    ensures |Written(Rulings(judge, ho, Many(k, rest), at))|
              == 5 * k + |Written(Rulings(judge, ho, rest, at + 4 * k))|
    decreases k
  {
    if k > 0 {
      assert FiveAt(judge, ho, at);
      OneUnknown(judge, ho, Many(k - 1, rest), at);
      ManyHints(judge, ho, k - 1, rest, at + 4);
    }
  }

  lemma OneUnknown<O>(judge: Judging<O>, ho: O, rest: seq<byte>, at: nat)
    requires judge(ho, UNKNOWN, at).ho == ho && |judge(ho, UNKNOWN, at).hint| == 5
    ensures |Written(Rulings(judge, ho, UNKNOWN + rest, at))| == 5 + |Written(Rulings(judge, ho, rest, at + 4))|
    ensures Rulings(judge, ho, UNKNOWN + rest, at)
            == [Ruling(UNKNOWN, judge(ho, UNKNOWN, at).verdict, judge(ho, UNKNOWN, at).hint)] + Rulings(judge, ho,
                rest, at + 4)
  {
    var p := UNKNOWN + rest;
    assert FirstLen(p) == 4 && p[..4] == UNKNOWN && p[4..] == rest;
    WrittenFirst(judge, ho, p, at);
  }

  lemma {:induction false} LacksZero(need: nat, have: nat)
    requires need > 0 && have == 0
    ensures Lacks(need, have)
    decreases need
  {
    if need % 2 == 0 {
      LacksZero(need / 2, have / 2);
    }
  }

  lemma AsyncmapHint(x: Context, ho: Options, c: seq<byte>, magic: u32)
    requires Whole(c) && c[0] == CI_ASYNCMAP && |c| == 6 && x.ao.negAsyncmap && Lacks(x.ao.asyncmap, LongAt(c, 2))
    ensures |Judge(x, ho, c, magic).hint| == 6
  {
    assert Judge(x, ho, c, magic) == JudgeAsyncmap(x.ao, ho, c);
  }

  lemma NoControls() returns (c: seq<byte>)
    ensures |c| == 6 && Whole(c) && c[0] == CI_ASYNCMAP && LongAt(c, 2) == 0
  {
    c := [CI_ASYNCMAP, 6, 0, 0, 0, 0];
  }

  lemma MagicHint(x: Context, ho: Options, c: seq<byte>, magic: u32)
    requires x.go.negMagic && |c| == 6 && c[0] == CI_MAGICNUMBER && c[1] == 6 && LongAt(c, 2) == x.go.magic
    ensures |Judge(x, ho, c, magic).hint| == 6
  {
  }

  lemma LoopedBack(y: u32) returns (c: seq<byte>)
    ensures |c| == 6 && Whole(c) && c[0] == CI_MAGICNUMBER && LongAt(c, 2) == y
  {
    var s := PutLong(y);
    c := [CI_MAGICNUMBER, 6] + s;
    assert c[2] == s[0] && c[3] == s[1] && c[4] == s[2] && c[5] == s[3];
  }

  // An option of six octets with a hint as long.
  lemma SixOctets(x: Context) returns (c: seq<byte>)
    requires Sixes(x)
    ensures |c| == 6 && Whole(c) && forall ho: Options, magic: u32 :: |Judge(x, ho, c, magic).hint| == 6
  {
    if x.ao.negAsyncmap && x.ao.asyncmap > 0 {
      c := NoControls();
      LacksZero(x.ao.asyncmap, LongAt(c, 2));
      forall ho: Options, magic: u32 ensures |Judge(x, ho, c, magic).hint| == 6 {
        AsyncmapHint(x, ho, c, magic);
      }
    } else {
      c := LoopedBack(x.go.magic);
      forall ho: Options, magic: u32 ensures |Judge(x, ho, c, magic).hint| == 6 {
        MagicHint(x, ho, c, magic);
      }
    }
  }

  lemma SixHints<O>(judge: Judging<O>, ho: O, c: seq<byte>, rest: seq<byte>, at: nat)
    requires |c| == 6 && c[1] == 6 && |judge(ho, c, at).hint| == 6
    ensures |Written(Rulings(judge, ho, c + rest, at))| >= 6
  {
    var p := c + rest;
    assert FirstLen(p) == 6 && p[..6] == c;
    WrittenFirst(judge, ho, p, at);
  }

  // The longest request whose hints are certain to find room.
  function Limit(x: Context): nat { if Sixes(x) then 1201 else 1203 }

  ghost predicate Suffices(x: Context, magic: nat -> u32, tough: bool, p: seq<byte>) {
    |Written(Rulings(Judges(x, magic, tough), ZERO, p, 0))| <= PPP_MRU
  }

  // A request of every length beyond that runs over the end of nak_buffer.
  lemma Overrun(x: Context, magic: nat -> u32, tough: bool, len: nat) returns (p: seq<byte>)
    requires Grows(x) && len > Limit(x)
    ensures |p| == len && !Suffices(x, magic, tough, p)
  {
    if Sixes(x) {
      var rest := seq(len - 1202, _ => 0);
      var c := SixOctets(x);
      p := Many(299, c + rest);
      ManyLength(299, c + rest);
      JudgesFive(x, magic, tough);
      ManyHints(Judges(x, magic, tough), ZERO, 299, c + rest, 0);
      SixHints(Judges(x, magic, tough), ZERO, c, rest, 1196);
    } else {
      var rest := seq(len - 1204, _ => 0);
      p := Many(301, rest);
      ManyLength(301, rest);
      JudgesFive(x, magic, tough);
      ManyHints(Judges(x, magic, tough), ZERO, 301, rest, 0);
    }
  }

  // nak_buffer is long enough for the hints to every request of a length if and only
  // if CHAP is not what we suggest, or the request is short.
  lemma NakBufferSuffices(x: Context, magic: nat -> u32, tough: bool, len: nat)
    requires len <= LONGEST
    ensures (forall p: seq<byte> :: |p| == len ==> Suffices(x, magic, tough, p)) <==> (Grows(x) ==> len <= Limit(x))
  {
    if Grows(x) && len > Limit(x) {
      var p := Overrun(x, magic, tough, len);
    } else {
      forall p: seq<byte> | |p| == len ensures Suffices(x, magic, tough, p) {
        AllGrowth(x, magic, tough, ZERO, p, 0);
      }
    }
  }

  // The longest request of such options: 1870 octets of hints in a buffer of 1500,
  // and all of them the answer.
  lemma {:induction false} LongestOverrun(x: Context, magic: nat -> u32)
    requires Grows(x)
    ensures var p := Many(374, []); var rs := Rulings(Judges(x, magic, false), ZERO, p, 0);
            |p| == LONGEST && Worst(rs) == Nak && |Hints(rs)| == |Written(rs)| == 1870 > PPP_MRU
  {
    ManyLength(374, []);
    var judge := Judges(x, magic, false);
    forall ho: Options, at: nat ensures NakedAt(judge, ho, at) {
      UnknownHint(x, ho, magic(at));
    }
    ManyNaked(judge, ZERO, 374, 0);
    var rs := Rulings(judge, ZERO, Many(374, []), 0);
    assert rs[0] in rs;
  }

  ghost predicate NakedAt(judge: Judging<Options>, ho: Options, at: nat) {
    FiveAt(judge, ho, at) && judge(ho, UNKNOWN, at).verdict == Nak
  }

  ghost predicate Naked(rs: seq<Ruling>, k: nat) {
    |rs| == k && (forall r :: r in rs ==> r.verdict == Nak) && |Hints(rs)| == |Written(rs)| == 5 * k
  }

  lemma {:induction false} ManyNaked(judge: Judging<Options>, ho: Options, k: nat, at: nat)
    requires forall ho: Options, at: nat :: NakedAt(judge, ho, at)
    ensures Naked(Rulings(judge, ho, Many(k, []), at), k)
    decreases k
  {
    if k > 0 {
      assert NakedAt(judge, ho, at);
      var j := judge(ho, UNKNOWN, at);
      ManyNaked(judge, ho, k - 1, at + 4);
      OneUnknown(judge, ho, Many(k - 1, []), at);
      NakedInFront(Ruling(UNKNOWN, j.verdict, j.hint), Rulings(judge, ho, Many(k - 1, []), at + 4), k - 1);
    }
  }

  lemma NakedInFront(r: Ruling, rs: seq<Ruling>, k: nat)
    requires r.verdict == Nak && |r.hint| == 5 && Naked(rs, k)
    ensures Naked([r] + rs, k + 1)
  {
    assert ([r] + rs)[1..] == rs;
  }

  // An answer of hints goes back to where the request was, and has to fit there too.
  ghost predicate FitsBack(x: Context, magic: nat -> u32, tough: bool, p: seq<byte>) {
    var rs := Rulings(Judges(x, magic, tough), ZERO, p, 0);
    Worst(rs) == Nak ==> |Hints(rs)| <= LONGEST
  }

  // When we are fed up with Naks only magic numbers get a hint that is sent, of the
  // octets they had.
  lemma ToughHint(x: Context, ho: Options, c: seq<byte>, magic: u32)
    requires Harden(Judge(x, ho, c, magic), c, true).verdict == Nak
    ensures |Judge(x, ho, c, magic).hint| == |c|
  {
  }

  lemma {:induction false} ToughHints(x: Context, magic: nat -> u32, ho: Options, p: seq<byte>, at: nat)
    ensures |Hints(Rulings(Judges(x, magic, true), ho, p, at))| <= |p|
    decreases |p|
  {
    if p != [] {
      var k := FirstLen(p);
      var j := Judges(x, magic, true)(ho, p[..k], at);
      assert j == Harden(Judge(x, ho, p[..k], magic(at)), p[..k], true);
      if j.verdict == Nak {
        ToughHint(x, ho, p[..k], magic(at));
      }
      ToughHints(x, magic, j.ho, p[k..], at + k);
      HintsInFront(Ruling(p[..k], j.verdict, j.hint), Rulings(Judges(x, magic, true), j.ho, p[k..], at + k));
    }
  }

  lemma HintsInFront(r: Ruling, rs: seq<Ruling>)
    ensures |Hints([r] + rs)| == (if r.verdict == Nak then |r.hint| else 0) + |Hints(rs)|
  {
    assert ([r] + rs)[1..] == rs;
  }

  lemma {:induction false} HintsAreWritten(rs: seq<Ruling>)
    ensures |Hints(rs)| <= |Written(rs)|
  {
    if rs != [] {
      HintsAreWritten(rs[1..]);
    }
  }

  // CHAP with a digest that is not one.
  const NO_DIGEST: seq<byte> := [CI_AUTHTYPE, 5, 0xc2, 0x23, 1]

  // n requests for that, and k for what nobody knows.
  function Mixed(n: nat, k: nat): seq<byte> { if n == 0 then Many(k, []) else NO_DIGEST + Mixed(n - 1, k) }

  lemma NoDigestHint(x: Context, ho: Options, magic: u32)
    requires Grows(x) && !ho.negUpap && !ho.negEap
    ensures Judge(x, ho, NO_DIGEST, magic) == Judgement(Nak, Enc(ChapCi(x.ao.chapMdtype)), ho)
  {
    assert ShortAt(NO_DIGEST, 2) == PPP_CHAP;
  }

  lemma {:induction false} MixedLength(n: nat, k: nat)
    ensures |Mixed(n, k)| == 5 * n + 4 * k
  {
    if n == 0 {
      ManyLength(k, []);
    } else {
      MixedLength(n - 1, k);
    }
  }

  lemma UnknownNaked(x: Context, magic: nat -> u32, k: nat, at: nat)
    requires Grows(x)
    ensures Naked(Rulings(Judges(x, magic, false), ZERO, Many(k, []), at), k)
  {
    var judge := Judges(x, magic, false);
    forall ho: Options, at: nat ensures NakedAt(judge, ho, at) {
      UnknownHint(x, ho, magic(at));
    }
    ManyNaked(judge, ZERO, k, at);
  }

  lemma {:induction false} MixedNaked(x: Context, magic: nat -> u32, n: nat, k: nat, at: nat)
    requires Grows(x)
    ensures Naked(Rulings(Judges(x, magic, false), ZERO, Mixed(n, k), at), n + k)
    decreases n
  {
    if n == 0 {
      UnknownNaked(x, magic, k, at);
    } else {
      MixedNaked(x, magic, n - 1, k, at + 5);
      NoDigestHint(x, ZERO, magic(at));
      UnknownHint(x, ZERO, 0);
      NoDigestFirst(Judges(x, magic, false), ZERO, Mixed(n - 1, k), at, n - 1 + k);
    }
  }

  lemma NoDigestFirst<O>(judge: Judging<O>, ho: O, rest: seq<byte>, at: nat, k: nat)
    requires var j := judge(ho, NO_DIGEST, at);
             j.verdict == Nak && |j.hint| == 5 && j.ho == ho && Naked(Rulings(judge, ho, rest, at + 5), k)
    ensures Naked(Rulings(judge, ho, NO_DIGEST + rest, at), k + 1)
  {
    var p := NO_DIGEST + rest;
    assert FirstLen(p) == 5 && p[..5] == NO_DIGEST && p[5..] == rest;
    NakedInFront(Ruling(NO_DIGEST, Nak, judge(ho, NO_DIGEST, at).hint), Rulings(judge, ho, rest, at + 5), k);
  }

  lemma NakedAnswer(rs: seq<Ruling>, k: nat)
    requires Naked(rs, k) && k > 0
    ensures Worst(rs) == Nak && |Hints(rs)| == |Written(rs)| == 5 * k
  {
    assert rs[0] in rs;
  }

  // A request of every length from 1200 on has an answer that does not.
  lemma OverrunsBack(x: Context, magic: nat -> u32, len: nat) returns (p: seq<byte>)
    requires Grows(x) && len >= 1200
    ensures |p| == len && !FitsBack(x, magic, false, p)
  {
    var n: nat, k: nat := len % 4, (len - 5 * (len % 4)) / 4;
    p := Mixed(n, k);
    MixedLength(n, k);
    MixedNaked(x, magic, n, k, 0);
    NakedAnswer(Rulings(Judges(x, magic, false), ZERO, p, 0), n + k);
  }

  lemma ToughFitsBack(x: Context, magic: nat -> u32, p: seq<byte>)
    requires |p| <= LONGEST
    ensures FitsBack(x, magic, true, p)
  {
    ToughHints(x, magic, ZERO, p, 0);
  }

  lemma ShortFitsBack(x: Context, magic: nat -> u32, p: seq<byte>)
    requires |p| <= LONGEST && (Grows(x) ==> |p| < 1200)
    ensures FitsBack(x, magic, false, p)
  {
    AllGrowth(x, magic, false, ZERO, p, 0);
    HintsAreWritten(Rulings(Judges(x, magic, false), ZERO, p, 0));
    WithinShort(x, |Written(Rulings(Judges(x, magic, false), ZERO, p, 0))|, |p|);
  }

  lemma WithinShort(x: Context, n: nat, m: nat)
    requires Within(x, n, m) && m <= LONGEST && (Grows(x) ==> m < 1200)
    ensures n <= LONGEST
  {
  }

  // All answers to the requests of a length fit if and only if CHAP is not what we
  // suggest, or we are fed up with Naks, or the request is short.
  lemma AnswerFitsBack(x: Context, magic: nat -> u32, tough: bool, len: nat)
    requires len <= LONGEST
    ensures (forall p: seq<byte> :: |p| == len ==> FitsBack(x, magic, tough, p)) <==>
              (Grows(x) && !tough ==> len < 1200)
  {
    if Grows(x) && !tough && len >= 1200 {
      var p := OverrunsBack(x, magic, len);
    } else {
      forall p: seq<byte> | |p| == len ensures FitsBack(x, magic, tough, p) {
        if tough {
          ToughFitsBack(x, magic, p);
        } else {
          ShortFitsBack(x, magic, p);
        }
      }
    }
  }

  // 300 unknown authentications: the hints fill nak_buffer to its end, and are four
  // octets too many for the packet they go back to.
  lemma FullNakBuffer(x: Context, magic: nat -> u32, k: nat)
    requires Grows(x) && k == 300
    ensures var p := Many(k, []);
            && |p| == 1200 && Suffices(x, magic, false, p) && !FitsBack(x, magic, false, p)
            && |Hints(Rulings(Judges(x, magic, false), ZERO, p, 0))| == 1500 == LONGEST + 4
  {
    ManyLength(k, []);
    UnknownNaked(x, magic, k, 0);
    NakedAnswer(Rulings(Judges(x, magic, false), ZERO, Many(k, []), 0), k);
  }
}
