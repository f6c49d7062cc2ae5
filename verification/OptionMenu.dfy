// Writers and checkers of Configure-Requests.  lcp_addci and ipcp_addci are a row of
// macros, one for each option, and so are lcp_ackci and ipcp_ackci: a menu of what
// may be asked for, written or compared from top to bottom.

module OptionMenu {
  import opened Bytes

  // One option: its type and its value.
  datatype Field = Ci(kind: byte, value: seq<byte>)
  type Ci = c: Field | |c.value| <= 253 witness Ci(0, [])

  // One macro: whether the option is asked for, and which it is.
  datatype Macro = Macro(neg: bool, ci: Ci)

  // An option on the wire: type, length of the whole, value.
  function Enc(c: Ci): (s: seq<byte>)
    ensures |s| == |c.value| + 2
  {
    [c.kind, |c.value| + 2] + c.value
  }

  function Part(m: Macro): seq<byte> { if m.neg then Enc(m.ci) else [] }

  // The request a menu asks for.
  function Wire(ms: seq<Macro>): seq<byte> { if ms == [] then [] else Part(ms[0]) + Wire(ms[1..]) }

  function Size(m: Macro): nat { if m.neg then |m.ci.value| + 2 else 0 }

  function Total(ms: seq<Macro>): nat { if ms == [] then 0 else Size(ms[0]) + Total(ms[1..]) }

  lemma {:induction false} WireLength(ms: seq<Macro>)
    ensures |Wire(ms)| == Total(ms)
  {
    if ms != [] {
      WireLength(ms[1..]);
    }
  }

  lemma {:induction false} WireOfTwo(a: seq<Macro>, b: seq<Macro>)
    ensures Wire(a + b) == Wire(a) + Wire(b)
  {
    if a == [] {
      assert a + b == b;
    } else {
      assert (a + b)[0] == a[0] && (a + b)[1..] == a[1..] + b;
      WireOfTwo(a[1..], b);
    }
  }

  // The first k macros, the next one, and the others.
  lemma WireAt(ms: seq<Macro>, k: nat)
    requires k < |ms|
    ensures Wire(ms[..k+1]) == Wire(ms[..k]) + Part(ms[k])
    ensures Wire(ms[..k+1]) <= Wire(ms) && |Wire(ms[..k+1])| <= Total(ms)
  {
    assert ms[..k+1] == ms[..k] + [ms[k]] && [ms[k]][1..] == [];
    WireOfTwo(ms[..k], [ms[k]]);
    assert ms == ms[..k+1] + ms[k+1..];
    WireOfTwo(ms[..k+1], ms[k+1..]);
    WireLength(ms);
  }

  // PUTCHAR(type), PUTCHAR(length), and the value.
  method Put(buf: array<byte>, pos: nat, c: Ci) returns (end: nat)
    requires pos + |c.value| + 2 <= buf.Length
    modifies buf
    ensures end == pos + |c.value| + 2
    ensures buf[..pos] == old(buf[..pos]) && buf[pos..end] == Enc(c)
  {
    buf[pos], buf[pos + 1] := c.kind, |c.value| + 2;
    end := pos + 2;
    for i := 0 to |c.value|
      invariant end == pos + 2 + i
      invariant buf[..pos] == old(buf[..pos])
      invariant buf[pos] == c.kind && buf[pos + 1] == |c.value| + 2
      invariant forall j :: 0 <= j < i ==> buf[pos + 2 + j] == c.value[j]
    {
      buf[end] := c.value[i];
      end := end + 1;
    }
  }

  // Where ucp stands behind the last macro.
  method Write(ms: seq<Macro>, buf: array<byte>) returns (p: nat)
    requires Total(ms) <= buf.Length
    modifies buf
    ensures p == Total(ms) && buf[..p] == Wire(ms)
  {
    p := 0;
    for k := 0 to |ms|
      invariant p <= buf.Length && buf[..p] == Wire(ms[..k])
    {
      WireAt(ms, k);
      if ms[k].neg {
        var end := Put(buf, p, ms[k].ci);
        assert buf[..end] == buf[..p] + buf[p..end];
        p := end;
      }
    }
    assert ms[..|ms|] == ms;
    WireLength(ms);
  }

  lemma PrefixStep(a: seq<byte>, e: seq<byte>, p: seq<byte>)
    requires a <= p
    ensures a + e <= p <==> |a| + |e| <= |p| && forall j :: 0 <= j < |e| ==> p[|a| + j] == e[j]
  {
    if |a| + |e| <= |p| && forall j :: 0 <= j < |e| ==> p[|a| + j] == e[j] {
      assert p[..|a| + |e|] == a + e;
    }
    if a + e <= p {
      assert forall j :: 0 <= j < |e| ==> (a + e)[|a| + j] == e[j];
    }
  }

  // One macro of a checker: room, length octet, type, then the value.
  method Get(p: seq<byte>, pos: nat, c: Ci, ghost before: seq<byte>) returns (good: bool)
    requires before <= p && pos == |before|
    ensures good <==> before + Enc(c) <= p
  {
    PrefixStep(before, Enc(c), p);
    var cilen := |c.value| + 2;
    if |p| - pos < cilen {
      return false;
    }
    assert Enc(c)[0] == c.kind && Enc(c)[1] == cilen;
    if p[pos + 1] != cilen || p[pos] != c.kind {
      assert p[pos + 0] != Enc(c)[0] || p[pos + 1] != Enc(c)[1];
      return false;
    }
    for i := 0 to |c.value|
      invariant forall j :: 0 <= j < i ==> p[pos + 2 + j] == c.value[j]
    {
      if p[pos + 2 + i] != c.value[i] {
        assert p[pos + (2 + i)] != Enc(c)[2 + i];
        return false;
      }
    }
    forall j | 0 <= j < |Enc(c)| ensures p[pos + j] == Enc(c)[j] {
      if j >= 2 { assert p[pos + 2 + (j - 2)] == c.value[j - 2]; }
    }
    good := true;
  }

  // A checker accepts exactly the bytes the writer wrote.
  method Check(ms: seq<Macro>, p: seq<byte>) returns (good: bool)
    ensures good <==> p == Wire(ms)
  {
    var pos: nat := 0;
    for k := 0 to |ms|
      invariant pos == |Wire(ms[..k])| && Wire(ms[..k]) <= p
    {
      WireAt(ms, k);
      if ms[k].neg {
        var fits := Get(p, pos, ms[k].ci, Wire(ms[..k]));
        if !fits {
          return false;
        }
        pos := pos + |ms[k].ci.value| + 2;
      }
    }
    assert ms[..|ms|] == ms;
    good := |p| - pos == 0;
  }
}
