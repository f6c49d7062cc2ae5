// The frame check sequence of HDLC-like framing (appendix C of RFC 1662): what the
// table of demand.c computes, what it accepts, and which errors it detects.

module Fcs {
  type octet = bv8

  // The sixteen bits, by halves.
  datatype Crc = Crc(hi: octet, lo: octet)

  // PPP_INITFCS and PPP_GOODFCS
  const INITIAL := Crc(0xFF, 0xFF)
  const GOOD := Crc(0xF0, 0xB8)

  function High(t: bv16): octet { (t >> 8) as octet }
  function Low(t: bv16): octet { (t & 0xFF) as octet }

  // One bit, and one octet bit by bit, with the polynomial of RFC 1662.
  function Bit(v: bv16): bv16 { (v >> 1) ^ ((0 - (v & 1)) & 0x8408) }

  function Bits(x: octet): bv16 { Bit(Bit(Bit(Bit(Bit(Bit(Bit(Bit(x as bv16)))))))) }

  // The same at once.
  function Fold(x: octet): bv16 { (x ^ (x << 4)) as bv16 }

  function Spread(x: octet): bv16 { (Fold(x) << 8) ^ (Fold(x) << 3) ^ (Fold(x) >> 4) }

  lemma SpreadIsPolynomial(x: octet)
    ensures Spread(x) == Bits(x)
  {
  }

  function Upper(x: octet): octet { High(Spread(x)) }

  function Lower(x: octet): octet { Low(Spread(x)) }

  function Entry(upper: octet, lower: octet, hi: octet): Crc { Crc(upper, hi ^ lower) }

  // One step, whatever the table entries.
  function NextBy(upper: octet -> octet, lower: octet -> octet, f: Crc, c: octet): Crc {
    Entry(upper(f.lo ^ c), lower(f.lo ^ c), f.hi)
  }

  function Next(f: Crc, c: octet): Crc { NextBy(Upper, Lower, f, c) }

  // The check sequence of a frame.
  function Sum(f: Crc, s: seq<octet>): Crc
    decreases |s|
  {
    if s == [] then f else Sum(Next(f, s[0]), s[1..])
  }

  lemma {:induction false} SumOfTwo(f: Crc, s: seq<octet>, t: seq<octet>)
    ensures Sum(f, s + t) == Sum(Sum(f, s), t)
    decreases |s|
  {
    if s == [] {
      assert s + t == t;
    } else {
      assert (s + t)[1..] == s[1..] + t;
      SumOfTwo(Next(f, s[0]), s[1..], t);
    }
  }

  // Octets are told apart by the upper halves of their table entries.
  lemma UpperTells(i: octet, j: octet)
    requires Upper(i) == Upper(j)
    ensures i == j
  {
  }

  lemma AllUpperTell()
    ensures forall i, j :: Upper(i) == Upper(j) ==> i == j
  {
    forall i, j | Upper(i) == Upper(j) ensures i == j {
      UpperTells(i, j);
    }
  }

  lemma InjectiveBy(upper: octet -> octet, lower: octet -> octet, f: Crc, g: Crc, c: octet)
    requires forall i, j :: upper(i) == upper(j) ==> i == j
    requires NextBy(upper, lower, f, c) == NextBy(upper, lower, g, c)
    ensures f == g
  {
  }

  lemma PairShowsBy(upper: octet -> octet, lower: octet -> octet, f: Crc, x: octet, x': octet, y: octet, y': octet)
    requires forall i, j :: upper(i) == upper(j) ==> i == j
    requires NextBy(upper, lower, NextBy(upper, lower, f, x), x')
              == NextBy(upper, lower, NextBy(upper, lower, f, y), y')
    ensures x == y && x' == y'
  {
  }

  lemma NextInjective(f: Crc, g: Crc, c: octet)
    requires Next(f, c) == Next(g, c)
    ensures f == g
  {
    AllUpperTell();
    InjectiveBy(Upper, Lower, f, g, c);
  }

  lemma PairShows(f: Crc, x: octet, x': octet, y: octet, y': octet)
    requires Next(Next(f, x), x') == Next(Next(f, y), y')
    ensures x == y && x' == y'
  {
    AllUpperTell();
    PairShowsBy(Upper, Lower, f, x, x', y, y');
  }

  lemma {:induction false} SumInjective(f: Crc, g: Crc, s: seq<octet>)
    requires Sum(f, s) == Sum(g, s)
    ensures f == g
    decreases |s|
  {
    if s != [] {
      SumInjective(Next(f, s[0]), Next(g, s[0]), s[1..]);
      NextInjective(f, g, s[0]);
    }
  }

  // Frames that differ in two neighbouring octets at most never have the same sum:
  // no burst of errors of that length gets through.
  lemma BurstChangesSum(f: Crc, front: seq<octet>, x: octet, x': octet, y: octet, y': octet, rest: seq<octet>)
    requires Sum(f, front + ([x, x'] + rest)) == Sum(f, front + ([y, y'] + rest))
    ensures x == y && x' == y'
  {
    var g := Sum(f, front);
    SumOfTwo(f, front, [x, x'] + rest);
    SumOfTwo(f, front, [y, y'] + rest);
    SumOfTwo(g, [x, x'], rest);
    SumOfTwo(g, [y, y'], rest);
    SumOfPair(g, x, x');
    SumOfPair(g, y, y');
    SumInjective(Next(Next(g, x), x'), Next(Next(g, y), y'), rest);
    PairShows(g, x, x', y, y');
  }

  lemma SumOfPair(f: Crc, x: octet, x': octet)
    ensures Sum(f, [x, x']) == Next(Next(f, x), x')
  {
    assert [x, x'][1..] == [x'] && [x'][1..] == [];
    assert Sum(Next(f, x), [x']) == Next(Next(f, x), x');
  }

  // The two octets that a frame is sent with, lower one first.
  function Trailer(f: Crc): seq<octet> { [!f.lo, !f.hi] }

  lemma TrailerIsGood(f: Crc)
    ensures Next(Next(f, !f.lo), !f.hi) == GOOD
  {
    assert f.lo ^ !f.lo == 0xFF && Upper(0xFF) == 0x0F && Lower(0xFF) == 0x78;
    assert f.hi ^ 0x78 ^ !f.hi == 0x87 && Upper(0x87) == 0xF0 && Lower(0x87) == 0xB7;
  }

  // A frame is good just if its last two octets are the trailer of those in front.
  lemma GoodIsTrailer(s: seq<octet>, a: octet, b: octet)
    ensures Sum(INITIAL, s + [a, b]) == GOOD <==> [a, b] == Trailer(Sum(INITIAL, s))
  {
    var f := Sum(INITIAL, s);
    SumOfTwo(INITIAL, s, [a, b]);
    SumOfPair(f, a, b);
    TrailerIsGood(f);
    if Next(Next(f, a), b) == GOOD {
      PairShows(f, a, b, !f.lo, !f.hi);
    }
  }
}

// fcstab and PPP_FCS.
module FcsTable {
  import opened Fcs

  function Row0(i: octet): bv16 {
    if i == 0x00 then 0x0000 else if i == 0x01 then 0x1189 else if i == 0x02 then 0x2312 else if i == 0x03 then 0x329B
    else if i == 0x04 then 0x4624 else if i == 0x05 then 0x57AD else if i == 0x06 then 0x6536
        else if i == 0x07 then 0x74BF
    else if i == 0x08 then 0x8C48 else if i == 0x09 then 0x9DC1 else if i == 0x0A then 0xAF5A
        else if i == 0x0B then 0xBED3
    else if i == 0x0C then 0xCA6C else if i == 0x0D then 0xDBE5 else if i == 0x0E then 0xE97E else 0xF8F7
  }

  function Row1(i: octet): bv16 {
    if i == 0x10 then 0x1081 else if i == 0x11 then 0x0108 else if i == 0x12 then 0x3393 else if i == 0x13 then 0x221A
    else if i == 0x14 then 0x56A5 else if i == 0x15 then 0x472C else if i == 0x16 then 0x75B7
        else if i == 0x17 then 0x643E
    else if i == 0x18 then 0x9CC9 else if i == 0x19 then 0x8D40 else if i == 0x1A then 0xBFDB
        else if i == 0x1B then 0xAE52
    else if i == 0x1C then 0xDAED else if i == 0x1D then 0xCB64 else if i == 0x1E then 0xF9FF else 0xE876
  }

  function Row2(i: octet): bv16 {
    if i == 0x20 then 0x2102 else if i == 0x21 then 0x308B else if i == 0x22 then 0x0210 else if i == 0x23 then 0x1399
    else if i == 0x24 then 0x6726 else if i == 0x25 then 0x76AF else if i == 0x26 then 0x4434
        else if i == 0x27 then 0x55BD
    else if i == 0x28 then 0xAD4A else if i == 0x29 then 0xBCC3 else if i == 0x2A then 0x8E58
        else if i == 0x2B then 0x9FD1
    else if i == 0x2C then 0xEB6E else if i == 0x2D then 0xFAE7 else if i == 0x2E then 0xC87C else 0xD9F5
  }

  function Row3(i: octet): bv16 {
    if i == 0x30 then 0x3183 else if i == 0x31 then 0x200A else if i == 0x32 then 0x1291 else if i == 0x33 then 0x0318
    else if i == 0x34 then 0x77A7 else if i == 0x35 then 0x662E else if i == 0x36 then 0x54B5
        else if i == 0x37 then 0x453C
    else if i == 0x38 then 0xBDCB else if i == 0x39 then 0xAC42 else if i == 0x3A then 0x9ED9
        else if i == 0x3B then 0x8F50
    else if i == 0x3C then 0xFBEF else if i == 0x3D then 0xEA66 else if i == 0x3E then 0xD8FD else 0xC974
  }

  function Row4(i: octet): bv16 {
    if i == 0x40 then 0x4204 else if i == 0x41 then 0x538D else if i == 0x42 then 0x6116 else if i == 0x43 then 0x709F
    else if i == 0x44 then 0x0420 else if i == 0x45 then 0x15A9 else if i == 0x46 then 0x2732
        else if i == 0x47 then 0x36BB
    else if i == 0x48 then 0xCE4C else if i == 0x49 then 0xDFC5 else if i == 0x4A then 0xED5E
        else if i == 0x4B then 0xFCD7
    else if i == 0x4C then 0x8868 else if i == 0x4D then 0x99E1 else if i == 0x4E then 0xAB7A else 0xBAF3
  }

  function Row5(i: octet): bv16 {
    if i == 0x50 then 0x5285 else if i == 0x51 then 0x430C else if i == 0x52 then 0x7197 else if i == 0x53 then 0x601E
    else if i == 0x54 then 0x14A1 else if i == 0x55 then 0x0528 else if i == 0x56 then 0x37B3
        else if i == 0x57 then 0x263A
    else if i == 0x58 then 0xDECD else if i == 0x59 then 0xCF44 else if i == 0x5A then 0xFDDF
        else if i == 0x5B then 0xEC56
    else if i == 0x5C then 0x98E9 else if i == 0x5D then 0x8960 else if i == 0x5E then 0xBBFB else 0xAA72
  }

  function Row6(i: octet): bv16 {
    if i == 0x60 then 0x6306 else if i == 0x61 then 0x728F else if i == 0x62 then 0x4014 else if i == 0x63 then 0x519D
    else if i == 0x64 then 0x2522 else if i == 0x65 then 0x34AB else if i == 0x66 then 0x0630
        else if i == 0x67 then 0x17B9
    else if i == 0x68 then 0xEF4E else if i == 0x69 then 0xFEC7 else if i == 0x6A then 0xCC5C
        else if i == 0x6B then 0xDDD5
    else if i == 0x6C then 0xA96A else if i == 0x6D then 0xB8E3 else if i == 0x6E then 0x8A78 else 0x9BF1
  }

  function Row7(i: octet): bv16 {
    if i == 0x70 then 0x7387 else if i == 0x71 then 0x620E else if i == 0x72 then 0x5095 else if i == 0x73 then 0x411C
    else if i == 0x74 then 0x35A3 else if i == 0x75 then 0x242A else if i == 0x76 then 0x16B1
        else if i == 0x77 then 0x0738
    else if i == 0x78 then 0xFFCF else if i == 0x79 then 0xEE46 else if i == 0x7A then 0xDCDD
        else if i == 0x7B then 0xCD54
    else if i == 0x7C then 0xB9EB else if i == 0x7D then 0xA862 else if i == 0x7E then 0x9AF9 else 0x8B70
  }

  function Row8(i: octet): bv16 {
    if i == 0x80 then 0x8408 else if i == 0x81 then 0x9581 else if i == 0x82 then 0xA71A else if i == 0x83 then 0xB693
    else if i == 0x84 then 0xC22C else if i == 0x85 then 0xD3A5 else if i == 0x86 then 0xE13E
        else if i == 0x87 then 0xF0B7
    else if i == 0x88 then 0x0840 else if i == 0x89 then 0x19C9 else if i == 0x8A then 0x2B52
        else if i == 0x8B then 0x3ADB
    else if i == 0x8C then 0x4E64 else if i == 0x8D then 0x5FED else if i == 0x8E then 0x6D76 else 0x7CFF
  }

  function Row9(i: octet): bv16 {
    if i == 0x90 then 0x9489 else if i == 0x91 then 0x8500 else if i == 0x92 then 0xB79B else if i == 0x93 then 0xA612
    else if i == 0x94 then 0xD2AD else if i == 0x95 then 0xC324 else if i == 0x96 then 0xF1BF
        else if i == 0x97 then 0xE036
    else if i == 0x98 then 0x18C1 else if i == 0x99 then 0x0948 else if i == 0x9A then 0x3BD3
        else if i == 0x9B then 0x2A5A
    else if i == 0x9C then 0x5EE5 else if i == 0x9D then 0x4F6C else if i == 0x9E then 0x7DF7 else 0x6C7E
  }

  function RowA(i: octet): bv16 {
    if i == 0xA0 then 0xA50A else if i == 0xA1 then 0xB483 else if i == 0xA2 then 0x8618 else if i == 0xA3 then 0x9791
    else if i == 0xA4 then 0xE32E else if i == 0xA5 then 0xF2A7 else if i == 0xA6 then 0xC03C
        else if i == 0xA7 then 0xD1B5
    else if i == 0xA8 then 0x2942 else if i == 0xA9 then 0x38CB else if i == 0xAA then 0x0A50
        else if i == 0xAB then 0x1BD9
    else if i == 0xAC then 0x6F66 else if i == 0xAD then 0x7EEF else if i == 0xAE then 0x4C74 else 0x5DFD
  }

  function RowB(i: octet): bv16 {
    if i == 0xB0 then 0xB58B else if i == 0xB1 then 0xA402 else if i == 0xB2 then 0x9699 else if i == 0xB3 then 0x8710
    else if i == 0xB4 then 0xF3AF else if i == 0xB5 then 0xE226 else if i == 0xB6 then 0xD0BD
        else if i == 0xB7 then 0xC134
    else if i == 0xB8 then 0x39C3 else if i == 0xB9 then 0x284A else if i == 0xBA then 0x1AD1
        else if i == 0xBB then 0x0B58
    else if i == 0xBC then 0x7FE7 else if i == 0xBD then 0x6E6E else if i == 0xBE then 0x5CF5 else 0x4D7C
  }

  function RowC(i: octet): bv16 {
    if i == 0xC0 then 0xC60C else if i == 0xC1 then 0xD785 else if i == 0xC2 then 0xE51E else if i == 0xC3 then 0xF497
    else if i == 0xC4 then 0x8028 else if i == 0xC5 then 0x91A1 else if i == 0xC6 then 0xA33A
        else if i == 0xC7 then 0xB2B3
    else if i == 0xC8 then 0x4A44 else if i == 0xC9 then 0x5BCD else if i == 0xCA then 0x6956
        else if i == 0xCB then 0x78DF
    else if i == 0xCC then 0x0C60 else if i == 0xCD then 0x1DE9 else if i == 0xCE then 0x2F72 else 0x3EFB
  }

  function RowD(i: octet): bv16 {
    if i == 0xD0 then 0xD68D else if i == 0xD1 then 0xC704 else if i == 0xD2 then 0xF59F else if i == 0xD3 then 0xE416
    else if i == 0xD4 then 0x90A9 else if i == 0xD5 then 0x8120 else if i == 0xD6 then 0xB3BB
        else if i == 0xD7 then 0xA232
    else if i == 0xD8 then 0x5AC5 else if i == 0xD9 then 0x4B4C else if i == 0xDA then 0x79D7
        else if i == 0xDB then 0x685E
    else if i == 0xDC then 0x1CE1 else if i == 0xDD then 0x0D68 else if i == 0xDE then 0x3FF3 else 0x2E7A
  }

  function RowE(i: octet): bv16 {
    if i == 0xE0 then 0xE70E else if i == 0xE1 then 0xF687 else if i == 0xE2 then 0xC41C else if i == 0xE3 then 0xD595
    else if i == 0xE4 then 0xA12A else if i == 0xE5 then 0xB0A3 else if i == 0xE6 then 0x8238
        else if i == 0xE7 then 0x93B1
    else if i == 0xE8 then 0x6B46 else if i == 0xE9 then 0x7ACF else if i == 0xEA then 0x4854
        else if i == 0xEB then 0x59DD
    else if i == 0xEC then 0x2D62 else if i == 0xED then 0x3CEB else if i == 0xEE then 0x0E70 else 0x1FF9
  }

  function RowF(i: octet): bv16 {
    if i == 0xF0 then 0xF78F else if i == 0xF1 then 0xE606 else if i == 0xF2 then 0xD49D else if i == 0xF3 then 0xC514
    else if i == 0xF4 then 0xB1AB else if i == 0xF5 then 0xA022 else if i == 0xF6 then 0x92B9
        else if i == 0xF7 then 0x8330
    else if i == 0xF8 then 0x7BC7 else if i == 0xF9 then 0x6A4E else if i == 0xFA then 0x58D5
        else if i == 0xFB then 0x495C
    else if i == 0xFC then 0x3DE3 else if i == 0xFD then 0x2C6A else if i == 0xFE then 0x1EF1 else 0x0F78
  }

  function Table(i: octet): bv16 {
    if i < 0x10 then Row0(i)
    else if i < 0x20 then Row1(i)
    else if i < 0x30 then Row2(i)
    else if i < 0x40 then Row3(i)
    else if i < 0x50 then Row4(i)
    else if i < 0x60 then Row5(i)
    else if i < 0x70 then Row6(i)
    else if i < 0x80 then Row7(i)
    else if i < 0x90 then Row8(i)
    else if i < 0xA0 then Row9(i)
    else if i < 0xB0 then RowA(i)
    else if i < 0xC0 then RowB(i)
    else if i < 0xD0 then RowC(i)
    else if i < 0xE0 then RowD(i)
    else if i < 0xF0 then RowE(i)
    else RowF(i)
  }

  // (fcs >> 8) ^ fcstab[(fcs ^ c) & 0xff], by halves.
  function Step(fcs: Crc, c: octet): Crc { NextBy(UpperEntry, LowerEntry, fcs, c) }

  function UpperEntry(i: octet): octet { High(Table(i)) }

  function LowerEntry(i: octet): octet { Low(Table(i)) }

  lemma Row0IsPolynomial(i: octet)
    requires i < 0x10
    ensures Row0(i) == Bits(i)
  {
  }

  lemma Row1IsPolynomial(i: octet)
    requires 0x10 <= i < 0x20
    ensures Row1(i) == Bits(i)
  {
  }

  lemma Row2IsPolynomial(i: octet)
    requires 0x20 <= i < 0x30
    ensures Row2(i) == Bits(i)
  {
  }

  lemma Row3IsPolynomial(i: octet)
    requires 0x30 <= i < 0x40
    ensures Row3(i) == Bits(i)
  {
  }

  lemma Row4IsPolynomial(i: octet)
    requires 0x40 <= i < 0x50
    ensures Row4(i) == Bits(i)
  {
  }

  lemma Row5IsPolynomial(i: octet)
    requires 0x50 <= i < 0x60
    ensures Row5(i) == Bits(i)
  {
  }

  lemma Row6IsPolynomial(i: octet)
    requires 0x60 <= i < 0x70
    ensures Row6(i) == Bits(i)
  {
  }

  lemma Row7IsPolynomial(i: octet)
    requires 0x70 <= i < 0x80
    ensures Row7(i) == Bits(i)
  {
  }

  lemma Row8IsPolynomial(i: octet)
    requires 0x80 <= i < 0x90
    ensures Row8(i) == Bits(i)
  {
  }

  lemma Row9IsPolynomial(i: octet)
    requires 0x90 <= i < 0xA0
    ensures Row9(i) == Bits(i)
  {
  }

  lemma RowAIsPolynomial(i: octet)
    requires 0xA0 <= i < 0xB0
    ensures RowA(i) == Bits(i)
  {
  }

  lemma RowBIsPolynomial(i: octet)
    requires 0xB0 <= i < 0xC0
    ensures RowB(i) == Bits(i)
  {
  }

  lemma RowCIsPolynomial(i: octet)
    requires 0xC0 <= i < 0xD0
    ensures RowC(i) == Bits(i)
  {
  }

  lemma RowDIsPolynomial(i: octet)
    requires 0xD0 <= i < 0xE0
    ensures RowD(i) == Bits(i)
  {
  }

  lemma RowEIsPolynomial(i: octet)
    requires 0xE0 <= i < 0xF0
    ensures RowE(i) == Bits(i)
  {
  }

  lemma RowFIsPolynomial(i: octet)
    requires 0xF0 <= i
    ensures RowF(i) == Bits(i)
  {
  }

  lemma TableIsPolynomial(i: octet)
    ensures Table(i) == Bits(i)
  {
    if i < 0x10 { Row0IsPolynomial(i); }
    else if i < 0x20 { Row1IsPolynomial(i); }
    else if i < 0x30 { Row2IsPolynomial(i); }
    else if i < 0x40 { Row3IsPolynomial(i); }
    else if i < 0x50 { Row4IsPolynomial(i); }
    else if i < 0x60 { Row5IsPolynomial(i); }
    else if i < 0x70 { Row6IsPolynomial(i); }
    else if i < 0x80 { Row7IsPolynomial(i); }
    else if i < 0x90 { Row8IsPolynomial(i); }
    else if i < 0xA0 { Row9IsPolynomial(i); }
    else if i < 0xB0 { RowAIsPolynomial(i); }
    else if i < 0xC0 { RowBIsPolynomial(i); }
    else if i < 0xD0 { RowCIsPolynomial(i); }
    else if i < 0xE0 { RowDIsPolynomial(i); }
    else if i < 0xF0 { RowEIsPolynomial(i); }
    else { RowFIsPolynomial(i); }
  }

  // The table does eight bits at once, and its sums are those of Fcs.
  lemma StepIsNext(f: Crc, c: octet)
    ensures Step(f, c) == Next(f, c)
  {
    EntriesAgree(f.lo ^ c);
    AgreeBy(UpperEntry, LowerEntry, Upper, Lower, f, c);
  }

  lemma AgreeBy(upper: octet -> octet, lower: octet -> octet, upper': octet -> octet, lower': octet -> octet,
      f: Crc, c: octet)
    requires upper(f.lo ^ c) == upper'(f.lo ^ c) && lower(f.lo ^ c) == lower'(f.lo ^ c)
    ensures NextBy(upper, lower, f, c) == NextBy(upper', lower', f, c)
  {
  }

  lemma EntriesAgree(i: octet)
    ensures UpperEntry(i) == Upper(i) && LowerEntry(i) == Lower(i)
  {
    TableIsPolynomial(i);
    SpreadIsPolynomial(i);
  }
}
