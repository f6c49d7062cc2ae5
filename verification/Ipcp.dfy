// ipcp.c: the options of IPCP (section 3 of RFC 1332), our requests for them, and what
// becomes of the peer's.

module IpcpOptions {
  import opened Bytes
  import opened OptionMenu

  const CI_ADDRS: byte := 1
  const CI_COMPRESSTYPE: byte := 2
  const CI_ADDR: byte := 3
  const CI_MS_DNS1: byte := 129
  const CI_MS_WINS1: byte := 130
  const CI_MS_DNS2: byte := 131
  const CI_MS_WINS2: byte := 132

  const IPCP_VJ_COMP: u16 := 0x002d
  const IPCP_VJ_COMP_OLD: u16 := 0x0037
  const MAX_STATES := 16

  // The negotiable part of struct ipcp_options; addresses as numbers.
  datatype Options = Options(
    negAddr: bool, oldAddrs: bool, reqAddr: bool,
    negVj: bool, oldVj: bool, vjProtocol: u16, maxslotindex: byte, cflag: byte,
    acceptLocal: bool, acceptRemote: bool,
    reqDns1: bool, reqDns2: bool,
    ouraddr: u32, hisaddr: u32,
    dns1: u32, dns2: u32, wins1: u32, wins2: u32)

  const ZERO := Options(false, false, false, false, false, 0, 0, 0, false, false, false, false, 0, 0, 0, 0, 0, 0)

  predicate AsksAddrs(go: Options) { !go.negAddr && go.oldAddrs }

  function AddrsCi(go: Options): Ci { Ci(CI_ADDRS, PutLong(go.ouraddr) + PutLong(go.hisaddr)) }

  function VjCi(go: Options): Ci {
    Ci(CI_COMPRESSTYPE, PutShort(go.vjProtocol) + if go.oldVj then [] else [go.maxslotindex, go.cflag])
  }

  // The five macros of ipcp_addci.
  function Menu(go: Options): (m: seq<Macro>)
    ensures |m| == 5
  {
    [Macro(AsksAddrs(go), AddrsCi(go)), Macro(go.negVj, VjCi(go)),
        Macro(go.negAddr, Ci(CI_ADDR, PutLong(go.ouraddr))),
     Macro(go.reqDns1, Ci(CI_MS_DNS1, PutLong(go.dns1))), Macro(go.reqDns2, Ci(CI_MS_DNS2, PutLong(go.dns2)))]
  }

  // ipcp_cilen's change of mind, before it counts: old forms, if the peer uses them.
  function Adapted(go: Options, wo: Options, ho: Options): Options {
    var go' := if go.negAddr && go.oldAddrs && !ho.negAddr && ho.oldAddrs then go.(negAddr := false) else go;
    if wo.negVj && !go'.negVj && !go'.oldVj && ho.negVj && ho.oldVj
    then go'.(negVj := true, oldVj := true, vjProtocol := ho.vjProtocol) else go'
  }

  // ipcp_cilen
  function CiLen(go: Options): nat {
    (if AsksAddrs(go) then 10 else 0) + (if go.negVj then (if go.oldVj then 4 else 6) else 0)
    + (if go.negAddr then 6 else 0) + (if go.reqDns1 then 6 else 0) + (if go.reqDns2 then 6 else 0)
  }

  lemma CiLenIsLength(go: Options)
    ensures |Wire(Menu(go))| == Total(Menu(go)) == CiLen(go)
  {
    var m := Menu(go);
    WireLength(m);
    TotalOfFive(m);
  }

  lemma TotalOfFive(ms: seq<Macro>)
    requires |ms| == 5
    ensures Total(ms) == Size(ms[0]) + Size(ms[1]) + Size(ms[2]) + Size(ms[3]) + Size(ms[4])
  {
    assert ms[1..][1..] == ms[2..] && ms[2..][1..] == ms[3..] && ms[3..][1..] == ms[4..] && ms[4..][1..] == [];
    assert Total(ms[4..]) == Size(ms[4]);
    assert Total(ms[3..]) == Size(ms[3]) + Total(ms[4..]);
    assert Total(ms[2..]) == Size(ms[2]) + Total(ms[3..]);
    assert Total(ms[1..]) == Size(ms[1]) + Total(ms[2..]);
  }

  // Whoever is short of room leaves options out, from the first that does not fit.
  function Fitting(ms: seq<Macro>, len: nat): (r: seq<Macro>)
    ensures |r| == |ms|
  {
    if ms == [] then []
    else if ms[0].neg && Size(ms[0]) > len then [ms[0].(neg := false)] + Fitting(ms[1..], len)
    else [ms[0]] + Fitting(ms[1..], len - Size(ms[0]))
  }

  lemma {:induction false} FittingFits(ms: seq<Macro>, len: nat)
    ensures Total(Fitting(ms, len)) <= len
    ensures Total(ms) <= len ==> Fitting(ms, len) == ms
  {
    if ms != [] {
      if ms[0].neg && Size(ms[0]) > len {
        FittingFits(ms[1..], len);
        assert Fitting(ms, len)[1..] == Fitting(ms[1..], len);
      } else {
        FittingFits(ms[1..], len - Size(ms[0]));
        assert Fitting(ms, len)[1..] == Fitting(ms[1..], len - Size(ms[0]));
      }
    }
  }

  function Negs(ms: seq<Macro>): (neg: seq<bool>)
    ensures |neg| == |ms|
  {
    seq(|ms|, i requires 0 <= i < |ms| => ms[i].neg)
  }

  // The options after ipcp_addci has left some out.
  function Left(go: Options, neg: seq<bool>): Options
    requires |neg| == 5
  {
    go.(oldAddrs := go.oldAddrs && (AsksAddrs(go) ==> neg[0]), negVj := go.negVj && neg[1],
        negAddr := go.negAddr && neg[2], reqDns1 := go.reqDns1 && neg[3], reqDns2 := go.reqDns2 && neg[4])
  }

  // Room for an address option, once IP compression has had its own.
  function RoomForAddress(go: Options, len: nat): nat {
    var vj := if go.oldVj then 4 else 6;
    if go.negVj && vj <= len then len - vj else len
  }

  // The checker then expects what was written, unless an address option had no room
  // and the old form of it, kept in reserve, takes its place.
  lemma LeftIsExpected(go: Options, len: nat)
    ensures var kept := Fitting(Menu(go), len);
            Menu(Left(go, Negs(kept))) == kept <==> !(go.negAddr && go.oldAddrs && RoomForAddress(go, len) < 6)
  {
    var ms := Menu(go);
    FittingKeeps(ms, len);
    if go.negAddr {
      FittingThird(ms, len);
    }
  }

  lemma FittingThird(ms: seq<Macro>, len: nat)
    requires |ms| == 5 && !(ms[0].neg && Size(ms[0]) > len)
    ensures var len' := len - Size(ms[0]);
            var len'' := if ms[1].neg && Size(ms[1]) > len' then len' else len' - Size(ms[1]);
            Fitting(ms, len)[2].neg <==> ms[2].neg && Size(ms[2]) <= len''
  {
    var len' := len - Size(ms[0]);
    assert ms[1..][0] == ms[1] && ms[1..][1..] == ms[2..] && ms[2..][0] == ms[2];
    assert Fitting(ms, len)[1..] == Fitting(ms[1..], len');
    assert Fitting(ms, len)[2] == Fitting(ms[1..], len')[1];
  }

  // All options together are short, shorter than what any peer can receive: the
  // smallest receive unit is MINMRU, 128 octets.
  lemma RequestsAreShort(go: Options)
    ensures CiLen(go) <= 28
  {
  }

  // So no request is ever cut, and the checker always expects what was written.
  lemma NothingIsLeftOut(go: Options, mru: nat)
    requires mru >= 128
    ensures var room := if CiLen(go) > mru - 4 then mru - 4 else CiLen(go);
            room == CiLen(go) && Fitting(Menu(go), room) == Menu(go) && Left(go, Negs(Menu(go))) == go
  {
    RequestsAreShort(go);
    CiLenIsLength(go);
    FittingFits(Menu(go), CiLen(go));
  }

  // Changing one's mind once is enough: the old forms are then asked for, just where
  // the peer had used them.
  lemma AdaptedOnce(go: Options, wo: Options, ho: Options)
    ensures Adapted(Adapted(go, wo, ho), wo, ho) == Adapted(go, wo, ho)
  {
  }

  lemma AdaptedAsks(go: Options, wo: Options, ho: Options)
    ensures var go' := Adapted(go, wo, ho);
            && (AsksAddrs(go') <==> go.oldAddrs && (!go.negAddr || (ho.oldAddrs && !ho.negAddr)))
            && (go'.negVj && !go.negVj <==> wo.negVj && !go.negVj && !go.oldVj && ho.negVj && ho.oldVj)
            && (go'.negVj && !go.negVj ==> VjCi(go').value == PutShort(ho.vjProtocol))
  {
    var go' := Adapted(go, wo, ho);
    if go'.negVj && !go.negVj {
      assert PutShort(ho.vjProtocol) + [] == PutShort(ho.vjProtocol);
    }
  }

  lemma {:induction false} FittingKeeps(ms: seq<Macro>, len: nat)
    ensures forall i :: 0 <= i < |ms| ==>
              Fitting(ms, len)[i].ci == ms[i].ci && (Fitting(ms, len)[i].neg ==> ms[i].neg)
  {
    if ms != [] {
      FittingKeeps(ms[1..], if ms[0].neg && Size(ms[0]) > len then len else len - Size(ms[0]));
    }
  }
}

module IpcpCodec {
  import opened Bytes
  import opened OptionMenu
  import opened IpcpOptions

  // From the k-th macro on, with that much room left, all goes as decided.
  ghost predicate Decided(ms: seq<Macro>, kept: seq<Macro>, k: nat, left: nat) {
    k <= |ms| == |kept| && forall rest: seq<Macro> :: rest == ms[k..] ==> kept[k..] == Fitting(rest, left)
  }

  lemma DecidedStart(ms: seq<Macro>, len: nat)
    ensures Decided(ms, Fitting(ms, len), 0, len)
  {
    assert ms[0..] == ms && Fitting(ms, len)[0..] == Fitting(ms, len);
  }

  lemma DecidedStep(ms: seq<Macro>, kept: seq<Macro>, k: nat, left: nat)
    requires Decided(ms, kept, k, left) && k < |ms|
    ensures kept[k] == if ms[k].neg && Size(ms[k]) > left then ms[k].(neg := false) else ms[k]
    ensures Decided(ms, kept, k + 1, if ms[k].neg && Size(ms[k]) > left then left else left - Size(ms[k]))
  {
    var rest := ms[k..];
    assert kept[k..] == Fitting(rest, left);
    assert rest[0] == ms[k] && rest[1..] == ms[k+1..];
    assert kept[k..][0] == kept[k] && kept[k..][1..] == kept[k+1..];
  }

  // One macro of ipcp_addci.
  method PutPart(buf: array<byte>, ucp: nat, left: nat, m: Macro) returns (fits: bool, ucp': nat, left': nat)
    requires ucp + left <= buf.Length
    modifies buf
    ensures fits <==> m.neg && Size(m) <= left
    ensures ucp' + left' == ucp + left && left' == if fits then left - Size(m) else left
    ensures buf[..ucp'] == old(buf[..ucp]) + if fits then Enc(m.ci) else []
  {
    fits, ucp', left' := m.neg && |m.ci.value| + 2 <= left, ucp, left;
    if fits {
      ucp' := Put(buf, ucp, m.ci);
      assert buf[..ucp'] == buf[..ucp] + buf[ucp..ucp'];
      left' := left - (|m.ci.value| + 2);
    }
  }

  // The row of macros, with an eye on the room left.
  method WriteKept(ms: seq<Macro>, buf: array<byte>, len: nat, ghost kept: seq<Macro>)
      returns (neg: seq<bool>, left: nat)
    requires len <= buf.Length && Decided(ms, kept, 0, len)
    modifies buf
    ensures neg == Negs(kept)
    ensures left <= len && len - left == Total(kept) && buf[..len - left] == Wire(kept)
  {
    var ucp: nat := 0;
    neg, left := [], len;
    for k := 0 to |ms|
      invariant |neg| == k && forall i :: 0 <= i < k ==> neg[i] == kept[i].neg
      invariant Decided(ms, kept, k, left) && ucp + left == len && IsWire(buf[..ucp], kept, k)
    {
      DecidedStep(ms, kept, k, left);
      IsWireStep(buf[..ucp], kept, k);
      var fits;
      fits, ucp, left := PutPart(buf, ucp, left, ms[k]);
      neg := neg + [fits];
    }
    IsWireEnd(buf[..ucp], kept);
  }

  // The octets of the first k macros.
  ghost predicate IsWire(s: seq<byte>, kept: seq<Macro>, k: nat) {
    k <= |kept| && forall ms: seq<Macro> :: ms == kept[..k] ==> s == Wire(ms)
  }

  lemma IsWireStep(s: seq<byte>, kept: seq<Macro>, k: nat)
    requires IsWire(s, kept, k) && k < |kept|
    ensures IsWire(s + Part(kept[k]), kept, k + 1)
  {
    WireAt(kept, k);
    assert s == Wire(kept[..k]);
  }

  lemma IsWireEnd(s: seq<byte>, kept: seq<Macro>)
    requires IsWire(s, kept, |kept|)
    ensures s == Wire(kept) && |s| == Total(kept)
  {
    assert kept[..|kept|] == kept;
    WireLength(kept);
  }

  // What fsm_sconfreq does with them: the options are adapted and counted, cut to what
  // the peer can receive, and written.  Nothing is cut, and the checker will accept
  // just this request.
  method Request(go: Options, wo: Options, ho: Options, buf: array<byte>, mru: nat)
      returns (go': Options, written: nat)
    requires mru >= 128 && 28 <= buf.Length
    modifies buf
    ensures go' == Adapted(go, wo, ho)
    ensures written == CiLen(go') && buf[..written] == Wire(Menu(go'))
  {
    go' := Adapted(go, wo, ho);
    NothingIsLeftOut(go', mru);
    RequestsAreShort(go');
    CiLenIsLength(go');
    var cilen := CiLen(go');
    if cilen > mru - 4 {
      cilen := mru - 4;
    }
    go', written := AddCi(go', buf, cilen);
  }

  // ipcp_addci: what fits into len octets, and the options that are left.
  method AddCi(go: Options, buf: array<byte>, len: nat) returns (go': Options, written: nat)
    requires len <= buf.Length
    modifies buf
    ensures var kept := Fitting(Menu(go), len);
            && written == Total(kept) <= len && buf[..written] == Wire(kept)
            && go' == Left(go, Negs(kept))
  {
    DecidedStart(Menu(go), len);
    var neg, left := WriteKept(Menu(go), buf, len, Fitting(Menu(go), len));
    FittingFits(Menu(go), len);
    go' := Left(go, neg);
    written := len - left;
  }

  // ipcp_ackci accepts exactly what ipcp_addci writes when all of it fits.
  method AckCi(go: Options, p: seq<byte>) returns (good: bool)
    ensures good <==> p == Wire(Menu(go))
  {
    good := Check(Menu(go), p);
  }
}
