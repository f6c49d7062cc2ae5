// LCP configuration options (section 6 of RFC 1661): the option structure, the
// bytes of a Configure-Request, and the writer and checker of lcp.c.

module LcpOptions {
  import opened Bytes
  import opened OptionMenu

  const CI_MRU: byte := 1
  const CI_ASYNCMAP: byte := 2
  const CI_AUTHTYPE: byte := 3
  const CI_QUALITY: byte := 4
  const CI_MAGICNUMBER: byte := 5
  const CI_PCOMPRESSION: byte := 7
  const CI_ACCOMPRESSION: byte := 8
  const CI_CALLBACK: byte := 13
  const CI_MRRU: byte := 17
  const CI_SSNHF: byte := 18
  const CI_EPDISC: byte := 19

  const PPP_PAP: u16 := 0xc023
  const PPP_LQR: u16 := 0xc025
  const PPP_CHAP: u16 := 0xc223
  const PPP_EAP: u16 := 0xc227
  const CBCP_OPT: byte := 6

  const DEFMRU: u16 := 1500
  const MINMRU: u16 := 128
  const ALL_CONTROL: u32 := 0xFFFF_FFFF
  const MAX_ENDP_LEN := 20

  type Discriminator = s: seq<byte> | |s| <= MAX_ENDP_LEN

  datatype Endpoint = Endpoint(class_: byte, value: Discriminator)

  // The negotiable part of struct lcp_options.
  datatype Options = Options(
    negMru: bool, mru: u16,
    negAsyncmap: bool, asyncmap: u32,
    negUpap: bool, negChap: bool, negEap: bool, chapMdtype: byte,
    negLqr: bool, lqrPeriod: u32,
    negCbcp: bool,
    negMagic: bool, magic: u32,
    negPcomp: bool, negAccomp: bool,
    negMrru: bool, mrru: u16,
    negSsnhf: bool,
    negEndpoint: bool, endpoint: Endpoint)

  const ZERO := Options(false, 0, false, 0, false, false, false, 0, false, 0, false, false, 0,
                        false, false, false, 0, false, false, Endpoint(0, []))

  // CHAP digests, as bits of a preference mask and as codes on the wire.
  const CHAP_MD5: byte := 5
  const CHAP_MICROSOFT: byte := 0x80
  const CHAP_MICROSOFT_V2: byte := 0x81

  predicate HasMd5(m: byte) { m / 4 % 2 == 1 }
  predicate HasMicrosoft(m: byte) { m / 2 % 2 == 1 }
  predicate HasMicrosoftV2(m: byte) { m % 2 == 1 }

  function ChapDigest(m: byte): byte {
    if HasMd5(m) then CHAP_MD5
    else if HasMicrosoftV2(m) then CHAP_MICROSOFT_V2
    else if HasMicrosoft(m) then CHAP_MICROSOFT
    else 0
  }

  function MdtypeOf(digest: byte): byte {
    if digest == CHAP_MICROSOFT_V2 then 1 else if digest == CHAP_MICROSOFT then 2
    else if digest == CHAP_MD5 then 4 else 0
  }

  predicate CanDigest(m: byte, digest: byte) {
    if digest == CHAP_MICROSOFT_V2 then HasMicrosoftV2(m)
    else if digest == CHAP_MICROSOFT then HasMicrosoft(m)
    else if digest == CHAP_MD5 then HasMd5(m)
    else false
  }

  // Which options a side asks for, in the order lcp_addci writes them.
  predicate AsksMru(go: Options) { go.negMru && go.mru != DEFMRU }
  predicate AsksAsyncmap(go: Options) { go.negAsyncmap && go.asyncmap != ALL_CONTROL }
  predicate AsksChap(go: Options) { !go.negEap && go.negChap }
  predicate AsksPap(go: Options) { !go.negEap && !go.negChap && go.negUpap }

  function MruCi(go: Options): Ci { Ci(CI_MRU, PutShort(go.mru)) }
  function AsyncmapCi(go: Options): Ci { Ci(CI_ASYNCMAP, PutLong(go.asyncmap)) }
  function EapCi(): Ci { Ci(CI_AUTHTYPE, PutShort(PPP_EAP)) }
  function ChapCi(mdtype: byte): Ci { Ci(CI_AUTHTYPE, PutShort(PPP_CHAP) + [ChapDigest(mdtype)]) }
  function PapCi(): Ci { Ci(CI_AUTHTYPE, PutShort(PPP_PAP)) }
  function LqrCi(period: u32): Ci { Ci(CI_QUALITY, PutShort(PPP_LQR) + PutLong(period)) }
  function CallbackCi(): Ci { Ci(CI_CALLBACK, [CBCP_OPT]) }
  function MagicCi(magic: u32): Ci { Ci(CI_MAGICNUMBER, PutLong(magic)) }
  function MrruCi(go: Options): Ci { Ci(CI_MRRU, PutShort(go.mrru)) }
  function EndpointCi(go: Options): Ci { Ci(CI_EPDISC, [go.endpoint.class_] + go.endpoint.value) }

  // The thirteen macros of lcp_addci.
  const MACROS := 13

  function Menu(go: Options): (m: seq<Macro>)
    ensures |m| == MACROS
  {
    [ Macro(AsksMru(go), MruCi(go)),
      Macro(AsksAsyncmap(go), AsyncmapCi(go)),
      Macro(go.negEap, EapCi()),
      Macro(AsksChap(go), ChapCi(go.chapMdtype)),
      Macro(AsksPap(go), PapCi()),
      Macro(go.negLqr, LqrCi(go.lqrPeriod)),
      Macro(go.negCbcp, CallbackCi()),
      Macro(go.negMagic, MagicCi(go.magic)),
      Macro(go.negPcomp, Ci(CI_PCOMPRESSION, [])),
      Macro(go.negAccomp, Ci(CI_ACCOMPRESSION, [])),
      Macro(go.negMrru, MrruCi(go)),
      Macro(go.negSsnhf, Ci(CI_SSNHF, [])),
      Macro(go.negEndpoint, EndpointCi(go)) ]
  }

  // The Configure-Request for these options.
  function RequestOf(go: Options): seq<byte> { Wire(Menu(go)) }

  // lcp_cilen
  function CiLen(go: Options): nat {
    (if AsksMru(go) then 4 else 0)
    + (if AsksAsyncmap(go) then 6 else 0)
    + (if go.negEap then 4 else 0)
    + (if AsksChap(go) then 5 else 0)
    + (if AsksPap(go) then 4 else 0)
    + (if go.negLqr then 8 else 0)
    + (if go.negCbcp then 3 else 0)
    + (if go.negMagic then 6 else 0)
    + (if go.negPcomp then 2 else 0)
    + (if go.negAccomp then 2 else 0)
    + (if go.negMrru then 4 else 0)
    + (if go.negSsnhf then 2 else 0)
    + (if go.negEndpoint then 3 + |go.endpoint.value| else 0)
  }

  lemma TotalOfThirteen(ms: seq<Macro>)
    requires |ms| == 13
    ensures Total(ms) == Size(ms[0]) + Size(ms[1]) + Size(ms[2]) + Size(ms[3]) + Size(ms[4]) + Size(ms[5])
                         + Size(ms[6]) + Size(ms[7]) + Size(ms[8]) + Size(ms[9]) + Size(ms[10])
                         + Size(ms[11]) + Size(ms[12])
  {
    TotalOfSix(ms[7..]);
    TotalAt(ms, 0);
    TotalAt(ms, 1);
    TotalAt(ms, 2);
    TotalAt(ms, 3);
    TotalAt(ms, 4);
    TotalAt(ms, 5);
    TotalAt(ms, 6);
    assert ms[0..] == ms;
  }

  lemma TotalAt(ms: seq<Macro>, k: nat)
    requires k < |ms|
    ensures Total(ms[k..]) == Size(ms[k]) + Total(ms[k+1..])
  {
    assert ms[k..][1..] == ms[k+1..];
  }

  lemma TotalOfSix(ms: seq<Macro>)
    requires |ms| == 6
    ensures Total(ms) == Size(ms[0]) + Size(ms[1]) + Size(ms[2]) + Size(ms[3]) + Size(ms[4]) + Size(ms[5])
  {
    TotalAt(ms, 0);
    TotalAt(ms, 1);
    TotalAt(ms, 2);
    TotalAt(ms, 3);
    TotalAt(ms, 4);
    TotalAt(ms, 5);
    assert ms[0..] == ms && ms[6..] == [];
  }

  ghost predicate FirstSizes(go: Options, m: seq<Macro>)
    requires |m| == MACROS
  {
    && Size(m[0]) == (if AsksMru(go) then 4 else 0)
    && Size(m[1]) == (if AsksAsyncmap(go) then 6 else 0)
    && Size(m[2]) == (if go.negEap then 4 else 0)
    && Size(m[3]) == (if AsksChap(go) then 5 else 0)
    && Size(m[4]) == (if AsksPap(go) then 4 else 0)
    && Size(m[5]) == (if go.negLqr then 8 else 0)
    && Size(m[6]) == (if go.negCbcp then 3 else 0)
  }

  ghost predicate LastSizes(go: Options, m: seq<Macro>)
    requires |m| == MACROS
  {
    && Size(m[7]) == (if go.negMagic then 6 else 0)
    && Size(m[8]) == (if go.negPcomp then 2 else 0)
    && Size(m[9]) == (if go.negAccomp then 2 else 0)
    && Size(m[10]) == (if go.negMrru then 4 else 0)
    && Size(m[11]) == (if go.negSsnhf then 2 else 0)
    && Size(m[12]) == (if go.negEndpoint then 3 + |go.endpoint.value| else 0)
  }

  lemma MenuSizes(go: Options)
    ensures FirstSizes(go, Menu(go)) && LastSizes(go, Menu(go))
  {
  }

  lemma CiLenIsSum(go: Options, m: seq<Macro>)
    requires |m| == MACROS && FirstSizes(go, m) && LastSizes(go, m)
    ensures Total(m) == CiLen(go)
  {
    TotalOfThirteen(m);
  }

  // lcp_cilen is the length of what lcp_addci writes.
  lemma CiLenIsLength(go: Options)
    ensures |RequestOf(go)| == Total(Menu(go)) == CiLen(go)
  {
    WireLength(Menu(go));
    MenuSizes(go);
    CiLenIsSum(go, Menu(go));
  }
}
