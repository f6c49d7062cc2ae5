// What a side has recorded of its peer once it has acknowledged the peer's
// request: exactly what that request asked for.

module LcpHeard {
  import opened Bytes
  import opened OptionMenu
  import opened LcpOptions
  import opened FsmTable
  import opened OptionFilter
  import opened LcpJudge

  // What lcp_reqci can know of the options behind a request.  It has no place for
  // link quality, and it never accepts a callback.
  function Heard(go: Options): Options { HeardUpto(go, MACROS) }

  function HeardUpto(go: Options, k: nat): Options {
    Options(k > 0 && AsksMru(go), if k > 0 && AsksMru(go) then go.mru else 0,
            k > 1 && AsksAsyncmap(go), if k > 1 && AsksAsyncmap(go) then go.asyncmap else 0,
            k > 4 && AsksPap(go),
            k > 3 && AsksChap(go),
            k > 2 && go.negEap,
            if k > 3 && AsksChap(go) then MdtypeOf(ChapDigest(go.chapMdtype)) else 0,
            false, 0,
            false,
            k > 7 && go.negMagic, if k > 7 && go.negMagic then go.magic else 0,
            k > 8 && go.negPcomp,
            k > 9 && go.negAccomp,
            k > 10 && go.negMrru, if k > 10 && go.negMrru then go.mrru else 0,
            k > 11 && go.negSsnhf,
            k > 12 && go.negEndpoint, if k > 12 && go.negEndpoint then go.endpoint else Endpoint(0, []))
  }

  // Cutting a printed request gives back the options printed.
  lemma FirstOfWire(c: Ci, rest: seq<byte>)
    ensures var p := Enc(c) + rest;
            FirstLen(p) == |Enc(c)| && p[..FirstLen(p)] == Enc(c) && p[FirstLen(p)..] == rest
  {
    var p := Enc(c) + rest;
    assert p[1] == |Enc(c)|;
  }

  lemma WorstOfCons(r: Ruling, rs: seq<Ruling>)
    requires Worst([r] + rs) == Ack
    ensures r.verdict == Ack && Worst(rs) == Ack
  {
    assert r in [r] + rs;
    assert forall q :: q in rs ==> q in [r] + rs;
  }

  // An acceptable option is recorded as it was meant.
  lemma HeardOne(x: Context, go: Options, k: nat, magic: u32)
    requires k < MACROS && Menu(go)[k].neg
    ensures var j := Judge(x, HeardUpto(go, k), Enc(Menu(go)[k].ci), magic);
            j.verdict == Ack ==> j.ho == HeardUpto(go, k + 1)
  {
    var c := Enc(Menu(go)[k].ci);
    if k == 2 || k == 3 || k == 4 {
      HeardAuth(x, go, k, magic);
    } else if k == 12 {
      assert c == [CI_EPDISC, |go.endpoint.value| + 3, go.endpoint.class_] + go.endpoint.value;
      assert c[3..] == go.endpoint.value;
    } else if k < 7 {
      HeardFirst(x, go, k, magic);
    } else if k < 10 {
      HeardMiddle(x, go, k, magic);
    } else {
      HeardLast(x, go, k, magic);
    }
  }

  lemma HeardAuth(x: Context, go: Options, k: nat, magic: u32)
    requires 2 <= k <= 4 && Menu(go)[k].neg
    ensures var j := Judge(x, HeardUpto(go, k), Enc(Menu(go)[k].ci), magic);
            j.verdict == Ack ==> j.ho == HeardUpto(go, k + 1)
  {
  }

  lemma HeardFirst(x: Context, go: Options, k: nat, magic: u32)
    requires k in {0, 1, 5, 6} && Menu(go)[k].neg
    ensures var j := Judge(x, HeardUpto(go, k), Enc(Menu(go)[k].ci), magic);
            j.verdict == Ack ==> j.ho == HeardUpto(go, k + 1)
  {
  }

  lemma HeardMiddle(x: Context, go: Options, k: nat, magic: u32)
    requires 7 <= k < 10 && Menu(go)[k].neg
    ensures var j := Judge(x, HeardUpto(go, k), Enc(Menu(go)[k].ci), magic);
            j.verdict == Ack ==> j.ho == HeardUpto(go, k + 1)
  {
  }

  lemma HeardLast(x: Context, go: Options, k: nat, magic: u32)
    requires 10 <= k <= 11 && Menu(go)[k].neg
    ensures var j := Judge(x, HeardUpto(go, k), Enc(Menu(go)[k].ci), magic);
            j.verdict == Ack ==> j.ho == HeardUpto(go, k + 1)
  {
  }

  lemma HeardNothing(go: Options, k: nat)
    requires k < MACROS && !Menu(go)[k].neg
    ensures HeardUpto(go, k + 1) == HeardUpto(go, k)
  {
  }

  // A way of judging that, where it accepts what a macro asks for, records the step
  // from ho to ho'.
  ghost predicate HearsAt<O>(judge: Judging<O>, m: Macro, ho: O, ho': O, at: nat) {
    if m.neg then judge(ho, Enc(m.ci), at).verdict == Ack ==> judge(ho, Enc(m.ci), at).ho == ho' else ho' == ho
  }

  ghost predicate HearsStep<O>(judge: Judging<O>, ms: seq<Macro>, hos: seq<O>, k: nat, at: nat)
    requires |hos| == |ms| + 1
  {
    k < |ms| ==> HearsAt(judge, ms[k], hos[k], hos[k+1], at)
  }

  ghost predicate Hears<O>(judge: Judging<O>, ms: seq<Macro>, hos: seq<O>) {
    |hos| == |ms| + 1 && forall k: nat, at: nat :: HearsStep(judge, ms, hos, k, at)
  }

  lemma RuledInFront<O>(judge: Judging<O>, ho: O, ci: Ci, rest: seq<byte>, at: nat)
    requires Worst(Rulings(judge, ho, Enc(ci) + rest, at)) == Ack
    ensures var j := judge(ho, Enc(ci), at); var at' := at + |Enc(ci)|;
            && j.verdict == Ack
            && Worst(Rulings(judge, j.ho, rest, at')) == Ack
            && Recorded(judge, ho, Enc(ci) + rest, at) == Recorded(judge, j.ho, rest, at')
  {
    FirstOfWire(ci, rest);
    var j := judge(ho, Enc(ci), at);
    WorstOfCons(Ruling(Enc(ci), j.verdict, j.hint), Rulings(judge, j.ho, rest, at + |Enc(ci)|));
  }

  // A packet is acknowledged, and what is recorded after it.
  ghost predicate Acks<O(!new)>(judge: Judging<O>, ho: O, p: seq<byte>, at: nat) {
    forall q: seq<byte> :: q == p ==> Worst(Rulings(judge, ho, q, at)) == Ack
  }

  ghost predicate Leaves<O(!new)>(judge: Judging<O>, ho: O, p: seq<byte>, at: nat, end: O) {
    forall q: seq<byte> :: q == p ==> Recorded(judge, ho, q, at) == end
  }

  lemma HeardPart<O(!new)>(judge: Judging<O>, m: Macro, ho: O, ho': O, rest: seq<byte>, at: nat) returns (at': nat)
    requires HearsAt(judge, m, ho, ho', at) && Acks(judge, ho, Part(m) + rest, at)
    ensures Acks(judge, ho', rest, at')
    ensures forall end :: Leaves(judge, ho', rest, at', end) ==> Leaves(judge, ho, Part(m) + rest, at, end)
  {
    assert Worst(Rulings(judge, ho, Part(m) + rest, at)) == Ack;
    if m.neg {
      RuledInFront(judge, ho, m.ci, rest, at);
      at' := at + |Enc(m.ci)|;
      assert Recorded(judge, ho, Part(m) + rest, at) == Recorded(judge, ho', rest, at');
    } else {
      assert Part(m) + rest == rest;
      at' := at;
    }
  }

  // If everything a menu asks for is acknowledged, everything is heard.
  lemma {:induction false} AllHeard<O(!new)>(judge: Judging<O>, ms: seq<Macro>, hos: seq<O>, at: nat)
    requires Hears(judge, ms, hos) && Acks(judge, hos[0], Wire(ms), at)
    ensures Leaves(judge, hos[0], Wire(ms), at, hos[|ms|])
    decreases |ms|
  {
    if ms == [] {
      assert Recorded(judge, hos[0], [], at) == hos[0];
    } else {
      assert HearsStep(judge, ms, hos, 0, at);
      HearsRest(judge, ms, hos);
      var at' := HeardPart(judge, ms[0], hos[0], hos[1], Wire(ms[1..]), at);
      AllHeard(judge, ms[1..], hos[1..], at');
    }
  }

  lemma HearsRest<O>(judge: Judging<O>, ms: seq<Macro>, hos: seq<O>)
    requires ms != [] && Hears(judge, ms, hos)
    ensures Hears(judge, ms[1..], hos[1..])
  {
    forall k: nat, at: nat ensures HearsStep(judge, ms[1..], hos[1..], k, at) {
      assert HearsStep(judge, ms, hos, k + 1, at);
    }
  }

  function Steps(go: Options): (hos: seq<Options>)
    ensures |hos| == MACROS + 1
    ensures forall k :: 0 <= k <= MACROS ==> hos[k] == HeardUpto(go, k)
  {
    seq(MACROS + 1, k requires 0 <= k <= MACROS => HeardUpto(go, k))
  }

  lemma JudgesHear(x: Context, magic: nat -> u32, tough: bool, go: Options)
    ensures Hears(Judges(x, magic, tough), Menu(go), Steps(go))
  {
    var judge, ms, hos := Judges(x, magic, tough), Menu(go), Steps(go);
    forall k: nat, at: nat ensures HearsStep(judge, ms, hos, k, at) {
      if k < MACROS {
        if ms[k].neg {
          HeardOne(x, go, k, magic(at));
        } else {
          HeardNothing(go, k);
        }
      }
    }
  }

  // Whoever acknowledges a whole request has recorded what it asked for.
  lemma AcknowledgedIsHeard(x: Context, go: Options, magic: nat -> u32, tough: bool)
    requires Worst(Rulings(Judges(x, magic, tough), ZERO, RequestOf(go), 0)) == Ack
    ensures Recorded(Judges(x, magic, tough), ZERO, RequestOf(go), 0) == Heard(go)
  {
    JudgesHear(x, magic, tough, go);
    assert HeardUpto(go, 0) == ZERO;
    AllHeard(Judges(x, magic, tough), Menu(go), Steps(go), 0);
    assert Recorded(Judges(x, magic, tough), ZERO, Wire(Menu(go)), 0) == Steps(go)[MACROS];
  }
}
