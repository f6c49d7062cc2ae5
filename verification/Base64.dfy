// eap.c: base64 (section 4 of RFC 4648, without padding) written and read in pieces
// of any length, with the bits in between kept in a small state.

module Machine {
  import opened Bytes

  // A machine that eats octets one by one and may stop at one.
  datatype Move<S> = Halt | Go(state: S, out: seq<byte>)
  datatype Ran<S> = Ran(state: S, out: seq<byte>)

  function Run<S>(step: (S, byte) -> Move<S>, s: S, inp: seq<byte>): Ran<S>
    decreases |inp|
  {
    if inp == [] || step(s, inp[0]).Halt? then Ran(s, [])
    else
      var r := Run(step, step(s, inp[0]).state, inp[1..]);
      Ran(r.state, step(s, inp[0]).out + r.out)
  }

  lemma RunOne<S>(step: (S, byte) -> Move<S>, s: S, b: byte, rest: seq<byte>, t: S, out: seq<byte>)
    requires step(s, b) == Go(t, out)
    ensures Run(step, s, [b] + rest) == Ran(Run(step, t, rest).state, out + Run(step, t, rest).out)
  {
    assert ([b] + rest)[1..] == rest;
  }

  // Pieces, one after the other.
  function RunAll<S>(step: (S, byte) -> Move<S>, s: S, pieces: seq<seq<byte>>): Ran<S>
    decreases |pieces|
  {
    if pieces == [] then Ran(s, [])
    else
      var r := Run(step, s, pieces[0]);
      var r' := RunAll(step, r.state, pieces[1..]);
      Ran(r'.state, r.out + r'.out)
  }

  function Flat(pieces: seq<seq<byte>>): seq<byte> {
    if pieces == [] then [] else pieces[0] + Flat(pieces[1..])
  }

  // No octet of the input stops the machine, in any state.
  ghost predicate Runs<S(!new)>(step: (S, byte) -> Move<S>, inp: seq<byte>) {
    forall s: S, i :: 0 <= i < |inp| ==> step(s, inp[i]).Go?
  }

  lemma {:induction false} RunTwo<S(!new)>(step: (S, byte) -> Move<S>, s: S, x: seq<byte>, y: seq<byte>)
    requires Runs(step, x)
    ensures Run(step, s, x + y)
            == Ran(Run(step, Run(step, s, x).state, y).state,
                Run(step, s, x).out + Run(step, Run(step, s, x).state, y).out)
    decreases |x|
  {
    if x == [] {
      assert x + y == y;
    } else {
      assert step(s, x[0]).Go?;
      var t := step(s, x[0]).state;
      RunTwo(step, t, x[1..], y);
      RunOne(step, s, x[0], x[1..] + y, t, step(s, x[0]).out);
      assert x + y == [x[0]] + (x[1..] + y);
    }
  }

  // How the input is cut up does not matter.
  lemma {:induction false} PiecesDoNotMatter<S(!new)>(step: (S, byte) -> Move<S>, s: S, pieces: seq<seq<byte>>)
    requires Runs(step, Flat(pieces))
    ensures RunAll(step, s, pieces) == Run(step, s, Flat(pieces))
    decreases |pieces|
  {
    if pieces != [] {
      var x, y := pieces[0], Flat(pieces[1..]);
      RunsParts(step, x, y);
      RunTwo(step, s, x, y);
      PiecesDoNotMatter(step, Run(step, s, x).state, pieces[1..]);
    }
  }

  lemma RunsParts<S(!new)>(step: (S, byte) -> Move<S>, x: seq<byte>, y: seq<byte>)
    requires Runs(step, x + y)
    ensures Runs(step, x) && Runs(step, y)
  {
    forall s: S, i | 0 <= i < |x| ensures step(s, x[i]).Go? {
      assert (x + y)[i] == x[i];
    }
    forall s: S, i | 0 <= i < |y| ensures step(s, y[i]).Go? {
      assert (x + y)[|x| + i] == y[i];
    }
  }

  lemma ThreeSteps<S>(step: (S, byte) -> Move<S>, s: S, t: S, u: S, v: S, a: byte, b: byte, c: byte,
      out: seq<byte>, rest: seq<byte>)
    requires step(s, a) == Go(t, []) && step(t, b) == Go(u, []) && step(u, c) == Go(v, out)
    ensures Run(step, s, [a, b, c] + rest) == Ran(Run(step, v, rest).state, out + Run(step, v, rest).out)
  {
    RunOne(step, s, a, [b] + ([c] + rest), t, []);
    RunOne(step, t, b, [c] + rest, u, []);
    RunOne(step, u, c, rest, v, out);
    assert [a, b, c] + rest == [a] + ([b] + ([c] + rest));
  }

  lemma FourSteps<S>(step: (S, byte) -> Move<S>, s: S, t: S, u: S, v: S, w: S, a: byte, b: byte, c: byte, d: byte,
                     x: byte, y: byte, z: byte, rest: seq<byte>)
    requires step(s, a) == Go(t, []) && step(t, b) == Go(u, [x]) && step(u, c) == Go(v, [y])
              && step(v, d) == Go(w, [z])
    ensures Run(step, s, [a, b, c, d] + rest) == Ran(Run(step, w, rest).state, [x, y, z] + Run(step, w, rest).out)
  {
    RunOne(step, s, a, [b] + ([c] + ([d] + rest)), t, []);
    RunOne(step, t, b, [c] + ([d] + rest), u, [x]);
    RunOne(step, u, c, [d] + rest, v, [y]);
    RunOne(step, v, d, rest, w, [z]);
    assert [a, b, c, d] + rest == [a] + ([b] + ([c] + ([d] + rest)));
    assert [] + ([x] + ([y] + ([z] + Run(step, w, rest).out))) == [x, y, z] + Run(step, w, rest).out;
  }
}

module Base64Spec {
  import opened Bytes
  import opened Machine

  // The alphabet in order: letters, small letters, digits, '+' and '/'.
  type Digit = x: int | 0 <= x < 64

  function Char(v: Digit): byte {
    if v < 26 then 65 + v else if v < 52 then 97 + v - 26 else if v < 62 then 48 + v - 52 else if v == 62 then 43
        else 47
  }

  // strchr in the alphabet, where the octet 0 is found behind the last character.
  datatype Place = Nowhere | Place(index: nat)

  function Find(c: byte): Place {
    if 65 <= c < 91 then Place(c - 65)
    else if 97 <= c < 123 then Place(c - 97 + 26)
    else if 48 <= c < 58 then Place(c - 48 + 52)
    else if c == 43 then Place(62)
    else if c == 47 then Place(63)
    else if c == 0 then Place(64)
    else Nowhere
  }

  lemma FindChar(v: Digit)
    ensures Find(Char(v)) == Place(v)
  {
  }

  // b64state
  datatype State = State(bits: nat, offs: nat)

  const CLEAR := State(0, 0)

  function FourChars(bits: nat): (s: seq<byte>)
    ensures |s| == 4
  {
    [Char(bits / 0x4_0000 % 64), Char(bits / 0x1000 % 64), Char(bits / 64 % 64), Char(bits % 64)]
  }

  // One octet into b64enc.
  function Enc(s: State, b: byte): Move<State> {
    var bits := (s.bits * 0x100 + b) % 0x1_0000_0000;
    if s.offs + 8 >= 24 then Go(CLEAR, FourChars(bits)) else Go(State(bits, s.offs + 8), [])
  }

  // b64flush
  function Flushed(s: State): seq<byte> {
    if s.offs == 8 then [Char(s.bits / 4 % 64), Char(s.bits * 16 % 64)]
    else if s.offs == 16 then [Char(s.bits / 1024 % 64), Char(s.bits / 16 % 64), Char(s.bits * 4 % 64)]
    else []
  }

  // (bits << 6) | index, in 32 bits; the index 64 shares a bit with the rest.
  function Shifted(bits: nat, index: nat): nat {
    (bits * 64 + if index == 64 && bits % 2 == 1 then 0 else index) % 0x1_0000_0000
  }

  // One character into b64dec.
  function Dec(s: State, c: byte): Move<State> {
    if Find(c).Nowhere? then Halt
    else
      var bits := Shifted(s.bits, Find(c).index);
      if s.offs + 6 >= 8 then Go(State(bits, s.offs - 2), [bits / Pow2(s.offs - 2) % 0x100])
      else Go(State(bits, s.offs + 6), [])
  }

  // Base64 as it is defined: groups of three octets, and what is left over.
  function Group3(a: byte, b: byte, c: byte): seq<byte> {
    [Char(a / 4), Char(a % 4 * 16 + b / 16), Char(b % 16 * 4 + c / 64), Char(c % 64)]
  }

  function Group2(a: byte, b: byte): seq<byte> { [Char(a / 4), Char(a % 4 * 16 + b / 16), Char(b % 16 * 4)] }

  function Group1(a: byte): seq<byte> { [Char(a / 4), Char(a % 4 * 16)] }

  function Encode(s: seq<byte>): seq<byte> {
    if s == [] then []
    else if |s| == 1 then Group1(s[0])
    else if |s| == 2 then Group2(s[0], s[1])
    else Group3(s[0], s[1], s[2]) + Encode(s[3..])
  }

  // Quotient and remainder, read off.
  lemma By4(n: nat, q: nat, r: nat)
    requires n == 4 * q + r && r < 4
    ensures n / 4 == q && n % 4 == r
  {
  }

  lemma By16(n: nat, q: nat, r: nat)
    requires n == 16 * q + r && r < 16
    ensures n / 16 == q && n % 16 == r
  {
  }

  lemma By64(n: nat, q: nat, r: nat)
    requires n == 64 * q + r && r < 64
    ensures n / 64 == q && n % 64 == r
  {
  }

  lemma By256(n: nat, q: nat, r: nat)
    requires n == 256 * q + r && r < 256
    ensures n / 256 == q && n % 256 == r
  {
  }

  lemma By1024(n: nat, q: nat, r: nat)
    requires n == 1024 * q + r && r < 1024
    ensures n / 1024 == q && n % 1024 == r
  {
  }

  lemma By4096(n: nat, q: nat, r: nat)
    requires n == 4096 * q + r && r < 4096
    ensures n / 4096 == q && n % 4096 == r
  {
  }

  lemma By262144(n: nat, q: nat, r: nat)
    requires n == 0x4_0000 * q + r && r < 0x4_0000
    ensures n / 0x4_0000 == q && n % 0x4_0000 == r
  {
  }

  lemma Halves4(x: nat) returns (h: nat, l: nat)
    ensures x == 4 * h + l && l < 4 && h == x / 4 && l == x % 4
  {
    h, l := x / 4, x % 4;
  }

  lemma Halves16(x: nat) returns (h: nat, l: nat)
    ensures x == 16 * h + l && l < 16 && h == x / 16 && l == x % 16
  {
    h, l := x / 16, x % 16;
  }

  lemma Halves64(x: nat) returns (h: nat, l: nat)
    ensures x == 64 * h + l && l < 64 && h == x / 64 && l == x % 64
  {
    h, l := x / 64, x % 64;
  }

  lemma Split0(a: byte, low: nat)
    requires low < 0x1_0000
    ensures (a * 0x1_0000 + low) / 0x4_0000 % 64 == a / 4
  {
    var h, l := Halves4(a);
    By262144(a * 0x1_0000 + low, h, l * 0x1_0000 + low);
    By64(h, 0, h);
  }

  lemma Split1(a: byte, b: byte, c: byte)
    ensures (a * 0x1_0000 + b * 0x100 + c) / 0x1000 % 64 == a % 4 * 16 + b / 16
  {
    var h, l := Halves4(a);
    var p, q := Halves16(b);
    By4096(a * 0x1_0000 + b * 0x100 + c, a * 16 + p, q * 256 + c);
    By64(a * 16 + p, h, l * 16 + p);
  }

  lemma Split2(a: byte, b: byte, c: byte)
    ensures (a * 0x1_0000 + b * 0x100 + c) / 64 % 64 == b % 16 * 4 + c / 64
  {
    var p, q := Halves16(b);
    var r, s := Halves64(c);
    By64(a * 0x1_0000 + b * 0x100 + c, a * 1024 + b * 4 + r, s);
    By64(a * 1024 + b * 4 + r, a * 16 + p, q * 4 + r);
  }

  lemma Split3(a: byte, b: byte, c: byte)
    ensures (a * 0x1_0000 + b * 0x100 + c) % 64 == c % 64
  {
    var r, s := Halves64(c);
    By64(a * 0x1_0000 + b * 0x100 + c, a * 1024 + b * 4 + r, s);
  }

  lemma CharsOfThree(a: byte, b: byte, c: byte, bits: nat)
    requires bits == a * 0x1_0000 + b * 0x100 + c
    ensures FourChars(bits) == Group3(a, b, c)
  {
    Split0(a, b * 0x100 + c);
    Split1(a, b, c);
    Split2(a, b, c);
    Split3(a, b, c);
  }

  lemma EncFirst(a: byte)
    ensures Enc(CLEAR, a) == Go(State(a, 8), [])
  {
  }

  lemma EncSecond(a: byte, b: byte)
    ensures Enc(State(a, 8), b) == Go(State(a * 0x100 + b, 16), [])
  {
  }

  lemma EncThird(s: State, c: byte, bits: nat)
    requires s.offs == 16 && bits == s.bits * 0x100 + c < 0x1_0000_0000
    ensures Enc(s, c) == Go(CLEAR, FourChars(bits))
  {
  }

  lemma EncodedGroup(a: byte, b: byte, c: byte, rest: seq<byte>)
    ensures Run(Enc, CLEAR, [a, b, c] + rest)
              == Ran(Run(Enc, CLEAR, rest).state, Group3(a, b, c) + Run(Enc, CLEAR, rest).out)
  {
    var bits: nat := a * 0x1_0000 + b * 0x100 + c;
    EncFirst(a);
    EncSecond(a, b);
    EncThird(State(a * 0x100 + b, 16), c, bits);
    CharsOfThree(a, b, c, bits);
    ThreeSteps(Enc, CLEAR, State(a, 8), State(a * 0x100 + b, 16), CLEAR, a, b, c, FourChars(bits), rest);
  }

  // Everything given to b64enc in one piece, and b64flush behind it.
  function Whole(s: seq<byte>): seq<byte> {
    var r := Run(Enc, CLEAR, s);
    r.out + Flushed(r.state)
  }

  lemma {:induction false} WholeIsEncode(s: seq<byte>)
    ensures Whole(s) == Encode(s)
    decreases |s|
  {
    if |s| >= 3 {
      EncodedGroup(s[0], s[1], s[2], s[3..]);
      assert s == [s[0], s[1], s[2]] + s[3..];
      WholeIsEncode(s[3..]);
    } else if |s| == 2 {
      WholeOfTwo(s[0], s[1]);
      assert s == [s[0], s[1]];
    } else if |s| == 1 {
      WholeOfOne(s[0]);
      assert s == [s[0]];
    }
  }

  lemma WholeOfOne(a: byte)
    ensures Whole([a]) == Group1(a)
  {
    EncFirst(a);
    RunOne(Enc, CLEAR, a, [], State(a, 8), []);
    assert [a] + [] == [a];
    FlushedOne(a);
  }

  lemma FlushedOne(a: byte)
    ensures Flushed(State(a, 8)) == Group1(a)
  {
    BitsOfOne(a);
  }

  lemma BitsOfOne(a: byte)
    ensures a / 4 % 64 == a / 4 && a * 16 % 64 == a % 4 * 16
  {
    var h, l := Halves4(a);
    By64(h, 0, h);
    By64(a * 16, h, l * 16);
  }

  lemma WholeOfTwo(a: byte, b: byte)
    ensures Whole([a, b]) == Group2(a, b)
  {
    EncFirst(a);
    EncSecond(a, b);
    RunOne(Enc, CLEAR, a, [b], State(a, 8), []);
    RunOne(Enc, State(a, 8), b, [], State(a * 0x100 + b, 16), []);
    assert [a] + [b] == [a, b] && [b] + [] == [b];
    FlushedTwo(a, b);
  }

  lemma FlushedTwo(a: byte, b: byte)
    ensures Flushed(State(a * 0x100 + b, 16)) == Group2(a, b)
  {
    BitsOfTwo(a, b);
  }

  lemma BitsOfTwo(a: byte, b: byte)
    ensures (a * 0x100 + b) / 1024 % 64 == a / 4
    ensures (a * 0x100 + b) / 16 % 64 == a % 4 * 16 + b / 16
    ensures (a * 0x100 + b) * 4 % 64 == b % 16 * 4
  {
    var h, l := Halves4(a);
    var p, q := Halves16(b);
    By1024(a * 0x100 + b, h, l * 256 + b);
    By64(h, 0, h);
    By16(a * 0x100 + b, a * 16 + p, q);
    By64(a * 16 + p, h, l * 16 + p);
    By64((a * 0x100 + b) * 4, a * 16 + p, q * 4);
  }

  function After(s: State, v: Digit, offs: nat): State { State(Shifted(s.bits, v), offs) }

  lemma Low6(bits: nat, v: Digit)
    ensures Shifted(bits, v) % 64 == v && Shifted(bits, v) % 16 == v % 16 && Shifted(bits, v) % 4 == v % 4
  {
    var h, u := Halves64(bits);
    Cut(bits, v);
    LowOf(Shifted(bits, v), Shifted(bits, v) / 0x1000 * 64 + u, v);
  }

  lemma LowOf(x: nat, m: nat, v: Digit)
    requires x == m * 64 + v
    ensures x % 64 == v && x % 16 == v % 16 && x % 4 == v % 4
  {
    var p, q := Halves16(v);
    var g, h := Halves4(v);
    By64(x, m, v);
    By16(x, m * 4 + p, q);
    By4(x, m * 16 + g, h);
  }

  // What is lost beyond 32 bits does not reach the lower twelve.
  lemma Cut(bits: nat, v: Digit)
    ensures Shifted(bits, v) == Shifted(bits, v) / 0x1000 * 0x1000 + bits % 64 * 64 + v
  {
    var n: nat := bits * 64 + v;
    var k := n / 0x1_0000_0000;
    assert n == bits / 64 * 0x1000 + (bits % 64 * 64 + v);
    CutAt(n % 0x1_0000_0000, bits / 64 - k * 0x10_0000, bits % 64 * 64 + v);
  }

  lemma CutAt(x: nat, m: nat, low: nat)
    requires x == m * 0x1000 + low && low < 0x1000
    ensures x == x / 0x1000 * 0x1000 + low
  {
    By4096(x, m, low);
  }

  lemma Dec0(s: State, v: Digit)
    requires s.offs == 0
    ensures Dec(s, Char(v)) == Go(After(s, v, 6), [])
  {
    FindChar(v);
  }

  lemma Top6(bits: nat, v: Digit)
    ensures Shifted(bits, v) / 16 % 0x100 == bits % 64 * 4 + v / 16
  {
    Cut(bits, v);
    TopOf6(Shifted(bits, v), Shifted(bits, v) / 0x1000, bits % 64, v);
  }

  lemma TopOf6(x: nat, m: nat, u: Digit, v: Digit)
    requires x == m * 0x1000 + u * 64 + v
    ensures x / 16 % 0x100 == u * 4 + v / 16
  {
    var p, q := Halves16(v);
    By16(x, m * 256 + u * 4 + p, q);
    By256(m * 256 + u * 4 + p, m, u * 4 + p);
  }

  lemma Dec6(s: State, v: Digit)
    requires s.offs == 6
    ensures Dec(s, Char(v)) == Go(After(s, v, 4), [s.bits % 64 * 4 + v / 16])
  {
    FindChar(v);
    Top6(s.bits, v);
    assert Pow2(2) == 4 && Pow2(4) == 16;
  }

  lemma Top4(bits: nat, v: Digit)
    ensures Shifted(bits, v) / 4 % 0x100 == bits % 16 * 16 + v / 4
  {
    Cut(bits, v);
    var h, u := Halves64(bits);
    TopOf4(Shifted(bits, v), Shifted(bits, v) / 0x1000, u, v);
    var g, w := Halves16(u);
    By16(bits, h * 4 + g, w);
  }

  lemma TopOf4(x: nat, m: nat, u: Digit, v: Digit)
    requires x == m * 0x1000 + u * 64 + v
    ensures x / 4 % 0x100 == u % 16 * 16 + v / 4
  {
    var g, w := Halves16(u);
    var p, q := Halves4(v);
    By4(x, m * 1024 + u * 16 + p, q);
    By256(m * 1024 + u * 16 + p, m * 4 + g, w * 16 + p);
  }

  lemma Dec4(s: State, v: Digit)
    requires s.offs == 4
    ensures Dec(s, Char(v)) == Go(After(s, v, 2), [s.bits % 16 * 16 + v / 4])
  {
    FindChar(v);
    Top4(s.bits, v);
    assert Pow2(2) == 4;
  }

  lemma Top2(bits: nat, v: Digit)
    ensures Shifted(bits, v) % 0x100 == bits % 4 * 64 + v
  {
    Cut(bits, v);
    var h, u := Halves64(bits);
    var g, w := Halves4(u);
    By4(bits, h * 16 + g, w);
    By256(Shifted(bits, v), Shifted(bits, v) / 0x1000 * 16 + g, w * 64 + v);
  }

  lemma Dec2(s: State, v: Digit)
    requires s.offs == 2
    ensures Dec(s, Char(v)) == Go(After(s, v, 0), [s.bits % 4 * 64 + v])
  {
    FindChar(v);
    Top2(s.bits, v);
    assert Pow2(0) == 1;
  }

  // Four characters of three octets give these back, whatever bits were left before.
  lemma DecodedGroup(s: State, a: byte, b: byte, c: byte, rest: seq<byte>)
    returns (t: State)
    requires s.offs == 0
    ensures t.offs == 0
    ensures Run(Dec, s, Group3(a, b, c) + rest) == Ran(Run(Dec, t, rest).state, [a, b, c] + Run(Dec, t, rest).out)
  {
    t := DecodedDigits(s, a, b, c, a / 4, a % 4 * 16 + b / 16, b % 16 * 4 + c / 64, c % 64, rest);
  }

  lemma DecodedDigits(s: State, a: byte, b: byte, c: byte, v0: Digit, v1: Digit, v2: Digit, v3: Digit,
      rest: seq<byte>)
    returns (t: State)
    requires s.offs == 0 && v0 == a / 4 && v1 == a % 4 * 16 + b / 16 && v2 == b % 16 * 4 + c / 64 && v3 == c % 64
    ensures t.offs == 0
    ensures Run(Dec, s, [Char(v0), Char(v1), Char(v2), Char(v3)] + rest)
            == Ran(Run(Dec, t, rest).state, [a, b, c] + Run(Dec, t, rest).out)
  {
    var s1, s2, s3;
    s1, s2, s3, t := DecodedSteps(s, a, b, c, v0, v1, v2, v3);
    FourSteps(Dec, s, s1, s2, s3, t, Char(v0), Char(v1), Char(v2), Char(v3), a, b, c, rest);
  }

  lemma DecodedSteps(s: State, a: byte, b: byte, c: byte, v0: Digit, v1: Digit, v2: Digit, v3: Digit)
    returns (s1: State, s2: State, s3: State, t: State)
    requires s.offs == 0 && v0 == a / 4 && v1 == a % 4 * 16 + b / 16 && v2 == b % 16 * 4 + c / 64 && v3 == c % 64
    ensures t.offs == 0
    ensures Dec(s, Char(v0)) == Go(s1, []) && Dec(s1, Char(v1)) == Go(s2, [a])
    ensures Dec(s2, Char(v2)) == Go(s3, [b]) && Dec(s3, Char(v3)) == Go(t, [c])
  {
    s1 := After(s, v0, 6);
    s2 := After(s1, v1, 4);
    s3 := After(s2, v2, 2);
    t := After(s3, v3, 0);
    LowDigits(a, b, c, v1, v2);
    FirstTwo(s, a, b, v0, v1);
    ThirdOctet(s2, b, c, v1, v2, s1.bits);
    FourthOctet(s3, c, v2, v3, s2.bits);
  }

  lemma LowDigits(a: byte, b: byte, c: byte, v1: Digit, v2: Digit)
    requires v1 == a % 4 * 16 + b / 16 && v2 == b % 16 * 4 + c / 64
    ensures v1 % 16 == b / 16 && v2 % 4 == c / 64
  {
  }

  lemma FirstTwo(s: State, a: byte, b: byte, v0: Digit, v1: Digit)
    requires s.offs == 0 && v0 == a / 4 && v1 == a % 4 * 16 + b / 16
    ensures Dec(s, Char(v0)) == Go(After(s, v0, 6), [])
    ensures Dec(After(s, v0, 6), Char(v1)) == Go(After(After(s, v0, 6), v1, 4), [a])
  {
    Dec0(s, v0);
    Low6(s.bits, v0);
    Dec6(After(s, v0, 6), v1);
    assert v0 * 4 + v1 / 16 == a;
  }

  lemma ThirdOctet(s: State, b: byte, c: byte, v1: Digit, v2: Digit, before: nat)
    requires s == State(Shifted(before, v1), 4)
    requires v1 % 16 == b / 16 && v2 == b % 16 * 4 + c / 64
    ensures Dec(s, Char(v2)) == Go(After(s, v2, 2), [b])
  {
    Low6(before, v1);
    Dec4(s, v2);
    assert b / 16 * 16 + v2 / 4 == b;
  }

  lemma FourthOctet(s: State, c: byte, v2: Digit, v3: Digit, before: nat)
    requires s == State(Shifted(before, v2), 2)
    requires v2 % 4 == c / 64 && v3 == c % 64
    ensures Dec(s, Char(v3)) == Go(After(s, v3, 0), [c])
  {
    Low6(before, v2);
    Dec2(s, v3);
  }

  lemma {:induction false} DecodedEncode(s: State, x: seq<byte>)
    requires s.offs == 0
    ensures Run(Dec, s, Encode(x)).out == x
    decreases |x|
  {
    if |x| >= 3 {
      var t := DecodedGroup(s, x[0], x[1], x[2], Encode(x[3..]));
      DecodedEncode(t, x[3..]);
      assert x == [x[0], x[1], x[2]] + x[3..];
    } else if |x| == 2 {
      DecodedTwo(s, x[0], x[1]);
      assert x == [x[0], x[1]];
    } else if |x| == 1 {
      DecodedOne(s, x[0]);
      assert x == [x[0]];
    }
  }

  lemma DecodedOne(s: State, a: byte)
    requires s.offs == 0
    ensures Run(Dec, s, Group1(a)).out == [a]
  {
    var v0: Digit, v1: Digit := a / 4, a % 4 * 16;
    FirstTwo(s, a, 0, v0, v1);
    var s1 := After(s, v0, 6);
    RunOne(Dec, s1, Char(v1), [], After(s1, v1, 4), [a]);
    RunOne(Dec, s, Char(v0), [Char(v1)], s1, []);
    assert [Char(v1)] + [] == [Char(v1)] && [Char(v0)] + [Char(v1)] == Group1(a);
  }

  lemma DecodedTwo(s: State, a: byte, b: byte)
    requires s.offs == 0
    ensures Run(Dec, s, Group2(a, b)).out == [a, b]
  {
    var v0: Digit, v1: Digit, v2: Digit := a / 4, a % 4 * 16 + b / 16, b % 16 * 4;
    var s1 := After(s, v0, 6);
    var s2 := After(s1, v1, 4);
    FirstTwo(s, a, b, v0, v1);
    ThirdOctet(s2, b, 0, v1, v2, s1.bits);
    RunOne(Dec, s2, Char(v2), [], After(s2, v2, 2), [b]);
    RunOne(Dec, s1, Char(v1), [Char(v2)], s2, [a]);
    RunOne(Dec, s, Char(v0), [Char(v1)] + [Char(v2)], s1, []);
    assert [Char(v2)] + [] == [Char(v2)] && [Char(v0)] + ([Char(v1)] + [Char(v2)]) == Group2(a, b);
  }

  predicate Alphabetic(s: seq<byte>) { forall i :: 0 <= i < |s| ==> !Find(s[i]).Nowhere? }

  lemma {:induction false} EncodeIsAlphabetic(x: seq<byte>)
    ensures Alphabetic(Encode(x))
    decreases |x|
  {
    if |x| >= 3 {
      EncodeIsAlphabetic(x[3..]);
    }
  }

  // The state in which a run of pieces ends, and then the flush.
  function EncodedPieces(ps: seq<seq<byte>>): seq<byte> {
    var r := RunAll(Enc, CLEAR, ps);
    r.out + Flushed(r.state)
  }

  // Written in any pieces, flushed, and read in any pieces, the octets come back.
  lemma RoundTrip(ins: seq<seq<byte>>, outs: seq<seq<byte>>, s: State)
    requires s.offs == 0 && Flat(outs) == EncodedPieces(ins)
    ensures EncodedPieces(ins) == Encode(Flat(ins))
    ensures RunAll(Dec, s, outs).out == Flat(ins)
  {
    PiecesDoNotMatter(Enc, CLEAR, ins);
    WholeIsEncode(Flat(ins));
    EncodeIsAlphabetic(Flat(ins));
    PiecesDoNotMatter(Dec, s, outs);
    DecodedEncode(s, Flat(ins));
  }

  // The decoder as it was meant, that stops at any octet outside the alphabet.
  function Strict(s: State, c: byte): Move<State> { if c == 0 then Halt else Dec(s, c) }

  // How many octets a machine eats, and how many bits have come in since.
  function Eaten(step: (State, byte) -> Move<State>, s: State, x: seq<byte>): nat
    decreases |x|
  {
    if x == [] || step(s, x[0]).Halt? then 0 else 1 + Eaten(step, step(s, x[0]).state, x[1..])
  }

  ghost predicate SixBits(step: (State, byte) -> Move<State>, s: State, c: byte) {
    var m := step(s, c);
    m.Go? ==> 8 * |m.out| + m.state.offs == s.offs + 6
  }

  lemma {:induction false} BitsEaten(step: (State, byte) -> Move<State>, s: State, x: seq<byte>)
    requires forall t, c :: SixBits(step, t, c)
    ensures var r := Run(step, s, x); 8 * |r.out| + r.state.offs == s.offs + 6 * Eaten(step, s, x)
    decreases |x|
  {
    if x != [] && step(s, x[0]).Go? {
      assert SixBits(step, s, x[0]);
      BitsEaten(step, step(s, x[0]).state, x[1..]);
    }
  }

  lemma AllSixBits()
    ensures forall s, c :: SixBits(Dec, s, c)
    ensures forall s, c :: SixBits(Strict, s, c)
  {
    forall s, c ensures SixBits(Dec, s, c) && SixBits(Strict, s, c) {
    }
  }

  // The first octet at which the strict decoder stops, if any.
  function FirstStop(x: seq<byte>): (i: nat)
    ensures i <= |x|
    ensures forall j :: 0 <= j < i ==> x[j] != 0 && Find(x[j]).Place?
    ensures i < |x| ==> x[i] == 0 || Find(x[i]).Nowhere?
  {
    if x == [] || x[0] == 0 || Find(x[0]).Nowhere? then 0 else 1 + FirstStop(x[1..])
  }

  predicate NulFirst(x: seq<byte>) { FirstStop(x) < |x| && x[FirstStop(x)] == 0 }

  lemma {:induction false} SameWithoutNul(s: State, x: seq<byte>)
    ensures !NulFirst(x) ==> Run(Dec, s, x) == Run(Strict, s, x)
    ensures NulFirst(x) ==> Eaten(Dec, s, x) > Eaten(Strict, s, x)
    decreases |x|
  {
    if x != [] && x[0] != 0 && Find(x[0]).Place? {
      assert FirstStop(x) == 1 + FirstStop(x[1..]);
      assert Strict(s, x[0]) == Dec(s, x[0]);
      SameWithoutNul(Dec(s, x[0]).state, x[1..]);
    }
  }

  // b64dec does what the strict decoder does if and only if the first octet that is
  // none of the 64 characters, if there is one, is not 0.
  lemma DecIsStrictExactly(s: State, x: seq<byte>)
    ensures Run(Dec, s, x) == Run(Strict, s, x) <==> !NulFirst(x)
  {
    SameWithoutNul(s, x);
    AllSixBits();
    BitsEaten(Dec, s, x);
    BitsEaten(Strict, s, x);
  }

  // The octet 0 alone is taken for six bits.
  lemma NulIsTaken(s: State)
    requires s.offs == 0
    ensures Run(Dec, s, [0]).state.offs == 6 && Run(Strict, s, [0]) == Ran(s, [])
  {
    assert [0][1..] == [];
  }
}

module Base64 {
  import opened Bytes
  import opened Machine
  import opened Base64Spec

  class B64 {
    var bits: nat
    var offs: nat

    function Now(): State
      reads this
    {
      State(bits, offs)
    }

    constructor ()
      ensures Now() == CLEAR
    {
      bits, offs := 0, 0;
    }

    // The body of the loop of b64enc.
    method EncodeOctet(b: byte) returns (out: seq<byte>)
      modifies this
      ensures Enc(old(Now()), b) == Go(Now(), out)
    {
      out := [];
      bits := (bits * 0x100 + b) % 0x1_0000_0000;
      offs := offs + 8;
      if offs >= 24 {
        out := FourChars(bits);
        bits, offs := 0, 0;
      }
    }

    // b64enc
    method Encode(inp: seq<byte>) returns (out: seq<byte>)
      modifies this
      ensures Ran(Now(), out) == Run(Enc, old(Now()), inp)
    {
      out := [];
      var i: nat := 0;
      Starts(Enc, Now(), inp);
      while i < |inp|
        invariant Underway(Enc, old(Now()), inp, i, Now(), out)
      {
        ghost var was := Now();
        var more := EncodeOctet(inp[i]);
        Follow(Enc, old(Now()), inp, i, was, out, Now(), more);
        out := out + more;
        i := i + 1;
      }
      Ends(Enc, old(Now()), inp, i, Now(), out);
    }

    // b64flush
    method Flush() returns (out: seq<byte>)
      modifies this
      ensures out == Flushed(old(Now())) && Now() == CLEAR
    {
      out := [];
      if offs == 8 {
        out := [Char(bits / 4 % 64), Char(bits * 16 % 64)];
      } else if offs == 16 {
        out := [Char(bits / 1024 % 64), Char(bits / 16 % 64), Char(bits * 4 % 64)];
      }
      bits, offs := 0, 0;
    }

    // The body of the loop of b64dec, for a character of the alphabet.
    method DecodeOctet(c: byte) returns (out: seq<byte>)
      requires Find(c).Place?
      modifies this
      ensures Dec(old(Now()), c) == Go(Now(), out)
    {
      out := [];
      bits := Shifted(bits, Find(c).index);
      offs := offs + 6;
      if offs >= 8 {
        out := [bits / Pow2(offs - 8) % 0x100];
        offs := offs - 8;
      }
    }

    // b64dec
    method Decode(inp: seq<byte>) returns (out: seq<byte>)
      modifies this
      ensures Ran(Now(), out) == Run(Dec, old(Now()), inp)
    {
      out := [];
      var i: nat := 0;
      Starts(Dec, Now(), inp);
      while i < |inp|
        invariant Underway(Dec, old(Now()), inp, i, Now(), out)
      {
        if Find(inp[i]).Nowhere? {
          break;
        }
        ghost var was := Now();
        var more := DecodeOctet(inp[i]);
        Follow(Dec, old(Now()), inp, i, was, out, Now(), more);
        out := out + more;
        i := i + 1;
      }
      Ends(Dec, old(Now()), inp, i, Now(), out);
    }
  }

  // The first i octets are dealt with, and the rest will do what is left.
  ghost predicate Underway(step: (State, byte) -> Move<State>, s0: State, inp: seq<byte>, i: nat, s: State,
      out: seq<byte>) {
    i <= |inp| && forall x, rest: seq<byte> :: x == inp && rest == inp[i..] ==>
      Run(step, s0, x) == Ran(Run(step, s, rest).state, out + Run(step, s, rest).out)
  }

  lemma Starts(step: (State, byte) -> Move<State>, s: State, inp: seq<byte>)
    ensures Underway(step, s, inp, 0, s, [])
  {
    assert inp[0..] == inp;
  }

  lemma Follow(step: (State, byte) -> Move<State>, s0: State, inp: seq<byte>, i: nat, s: State, out: seq<byte>,
      t: State, more: seq<byte>)
    requires Underway(step, s0, inp, i, s, out) && i < |inp| && step(s, inp[i]) == Go(t, more)
    ensures Underway(step, s0, inp, i + 1, t, out + more)
  {
    var rest := inp[i+1..];
    RunOne(step, s, inp[i], rest, t, more);
    assert inp[i..] == [inp[i]] + rest;
    assert Run(step, s0, inp) == Ran(Run(step, s, inp[i..]).state, out + Run(step, s, inp[i..]).out);
    assert out + (more + Run(step, t, rest).out) == out + more + Run(step, t, rest).out;
  }

  lemma Ends(step: (State, byte) -> Move<State>, s0: State, inp: seq<byte>, i: nat, s: State, out: seq<byte>)
    requires Underway(step, s0, inp, i, s, out) && (i == |inp| || step(s, inp[i]).Halt?)
    ensures Run(step, s0, inp) == Ran(s, out)
  {
    var rest := inp[i..];
    assert Run(step, s0, inp) == Ran(Run(step, s, rest).state, out + Run(step, s, rest).out);
    assert i < |inp| ==> rest[0] == inp[i];
    assert Run(step, s, rest) == Ran(s, []);
  }
}
