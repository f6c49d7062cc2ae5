// L2TP attribute-value pairs (sections 4.1 and 4.3 of RFC 2661): the loop of
// get_attribute_raw, and what it finds in a message.

module L2tpAvp {
  import opened Bytes

  const MESSAGE_HEADER_SIZE := 20
  const ATTRIBUTE_HEADER_SIZE := 6
  const RANDOM_VECTOR: u16 := 36
  const DIGEST := 16

  // The sixteen octets of MD5, whatever they are.
  type Digest = s: seq<byte> | |s| == DIGEST witness seq(DIGEST, _ => 0)

  datatype Secret = NoSecret | Secret(key: seq<byte>)
  datatype Vector = NoVector | Vector(octets: seq<byte>)

  // Exclusive or of octets, bit by bit.
  function XorBits(a: nat, b: nat, bits: nat): nat
    decreases bits
  {
    if bits == 0 then 0 else (a + b) % 2 + 2 * XorBits(a / 2, b / 2, bits - 1)
  }

  lemma Halves(bit: nat, rest: nat)
    requires bit < 2
    ensures (bit + 2 * rest) / 2 == rest && (bit + 2 * rest) % 2 == bit
  {
  }

  lemma {:induction false} XorBelow(a: nat, b: nat, bits: nat)
    ensures XorBits(a, b, bits) < Pow2(bits)
    decreases bits
  {
    if bits > 0 {
      XorBelow(a / 2, b / 2, bits - 1);
    }
  }

  lemma {:induction false} XorTwice(a: nat, b: nat, bits: nat)
    requires a < Pow2(bits)
    ensures XorBits(XorBits(a, b, bits), b, bits) == a
    decreases bits
  {
    if bits > 0 {
      var bit, rest := (a + b) % 2, XorBits(a / 2, b / 2, bits - 1);
      XorTwice(a / 2, b / 2, bits - 1);
      Halves(bit, rest);
      BitTwice(a, b);
      assert (bit + 2 * rest + b) % 2 == a % 2;
    }
  }

  lemma BitTwice(a: nat, b: nat)
    ensures forall c: nat :: c % 2 == (a + b) % 2 ==> (c + b) % 2 == a % 2
  {
  }

  function Xor(a: byte, b: byte): byte {
    XorOctets(a, b);
    XorBits(a, b, 8)
  }

  lemma XorOctets(a: byte, b: byte)
    ensures XorBits(a, b, 8) < 256 && XorBits(XorBits(a, b, 8), b, 8) == a
  {
    assert Pow2(4) == 16 && Pow2(8) == 256;
    XorTwice(a, b, 8);
  }

  // One attribute: the six upper bits of its flag word, of which one says that
  // the value is hidden, and its contents.
  datatype Avp = Avp(high: nat, vendor: u16, kind: u16, value: seq<byte>)

  predicate Fits(a: Avp) { a.high < 64 && |a.value| + ATTRIBUTE_HEADER_SIZE < 0x400 }

  predicate Hidden(a: Avp) { a.high / 16 % 2 == 1 }

  function Size(a: Avp): nat { |a.value| + ATTRIBUTE_HEADER_SIZE }

  function EncodeOne(a: Avp): seq<byte>
    requires Fits(a)
  {
    PutShort(a.high * 0x400 + Size(a)) + PutShort(a.vendor) + PutShort(a.kind) + a.value
  }

  function Encode(avps: seq<Avp>): seq<byte>
    requires forall a :: a in avps ==> Fits(a)
  {
    if avps == [] then [] else EncodeOne(avps[0]) + Encode(avps[1..])
  }

  // The key octet for position i of a hidden value: the digest of type, secret
  // and random vector for the first sixteen, of secret and the sixteen hidden
  // octets before for the others.
  function KeyBlock(md5: seq<byte> -> Digest, kind: u16, key: seq<byte>, vector: seq<byte>, hidden: seq<byte>,
      block: nat): Digest
    requires DIGEST * block <= |hidden|
  {
    if block == 0 then md5(PutShort(kind) + key + vector)
    else md5(key + hidden[DIGEST * (block - 1)..DIGEST * block])
  }

  function KeyAt(md5: seq<byte> -> Digest, kind: u16, key: seq<byte>, vector: seq<byte>, hidden: seq<byte>,
      i: nat): byte
    requires i <= |hidden|
  {
    KeyBlock(md5, kind, key, vector, hidden, i / DIGEST)[i % DIGEST]
  }

  function Unhide(md5: seq<byte> -> Digest, kind: u16, key: seq<byte>, vector: seq<byte>,
      hidden: seq<byte>): (p: seq<byte>)
    ensures |p| == |hidden|
  {
    seq(|hidden|, i requires 0 <= i < |hidden| => Xor(hidden[i], KeyAt(md5, kind, key, vector, hidden, i)))
  }

  // Hiding the first n octets of a value, as section 4.3 of RFC 2661 has it.
  function Hide(md5: seq<byte> -> Digest, kind: u16, key: seq<byte>, vector: seq<byte>, plain: seq<byte>,
      n: nat): (h: seq<byte>)
    requires n <= |plain|
    ensures |h| == n
  {
    if n == 0 then []
    else
      var h := Hide(md5, kind, key, vector, plain, n - 1);
      h + [Xor(plain[n-1], KeyAt(md5, kind, key, vector, h, n - 1))]
  }

  lemma {:induction false} HidePrefix(md5: seq<byte> -> Digest, kind: u16, key: seq<byte>, vector: seq<byte>,
                                      plain: seq<byte>, k: nat, n: nat)
    requires k <= n <= |plain|
    ensures Hide(md5, kind, key, vector, plain, n)[..k] == Hide(md5, kind, key, vector, plain, k)
  {
    if k < n {
      HidePrefix(md5, kind, key, vector, plain, k, n - 1);
    }
  }

  // The key for a position depends on hidden octets of earlier blocks only.
  lemma KeyFromFront(md5: seq<byte> -> Digest, kind: u16, key: seq<byte>, vector: seq<byte>, hidden: seq<byte>,
      i: nat)
    requires i <= |hidden|
    ensures KeyAt(md5, kind, key, vector, hidden, i) == KeyAt(md5, kind, key, vector, hidden[..i], i)
  {
    var block := i / DIGEST;
    if block > 0 {
      assert DIGEST * block <= i;
      assert hidden[DIGEST * (block - 1)..DIGEST * block] == hidden[..i][DIGEST * (block - 1)..DIGEST * block];
    }
  }

  lemma UnhideHidden(md5: seq<byte> -> Digest, kind: u16, key: seq<byte>, vector: seq<byte>, plain: seq<byte>)
    ensures Unhide(md5, kind, key, vector, Hide(md5, kind, key, vector, plain, |plain|)) == plain
  {
    var h := Hide(md5, kind, key, vector, plain, |plain|);
    forall i | 0 <= i < |plain| ensures Unhide(md5, kind, key, vector, h)[i] == plain[i] {
      UnhideHiddenAt(md5, kind, key, vector, plain, i);
    }
  }

  lemma UnhideHiddenAt(md5: seq<byte> -> Digest, kind: u16, key: seq<byte>, vector: seq<byte>, plain: seq<byte>,
      i: nat)
    requires i < |plain|
    ensures var h := Hide(md5, kind, key, vector, plain, |plain|);
            Xor(h[i], KeyAt(md5, kind, key, vector, h, i)) == plain[i]
  {
    var h := Hide(md5, kind, key, vector, plain, |plain|);
    HidePrefix(md5, kind, key, vector, plain, i, |plain|);
    HidePrefix(md5, kind, key, vector, plain, i + 1, |plain|);
    KeyFromFront(md5, kind, key, vector, h, i);
    assert h[i] == h[..i+1][i] == Xor(plain[i], KeyAt(md5, kind, key, vector, h[..i], i));
    XorOctets(plain[i], KeyAt(md5, kind, key, vector, h[..i], i));
  }

  function Cut(s: seq<byte>, size: nat): seq<byte> { if size > |s| then s else s[..size] }

  // The original length in front of the unhidden value says where it ends.
  function Original(p: seq<byte>, size: nat): seq<byte>
    requires |p| >= 2
  {
    var length := Short(p[0], p[1]);
    if length > |p| - 2 then [] else Cut(p[2..2 + length], size)
  }

  // What a reader of the attributes, rather than the octets, finds: the first
  // attribute asked for, unhidden with the last random vector seen before it.
  function Lookup(md5: seq<byte> -> Digest, secret: Secret, avps: seq<Avp>, kind: u16, size: nat,
      vector: Vector): seq<byte> {
    if avps == [] then []
    else
      var a := avps[0];
      if a.vendor != 0 then Lookup(md5, secret, avps[1..], kind, size, vector)
      else if a.kind != kind then
        var vector' := if a.kind == RANDOM_VECTOR && !Hidden(a) then Vector(a.value) else vector;
        Lookup(md5, secret, avps[1..], kind, size, vector')
      else Opened(md5, secret, a, size, vector)
  }

  // The value of an attribute, or nothing if it is hidden and cannot be unhidden.
  function Opened(md5: seq<byte> -> Digest, secret: Secret, a: Avp, size: nat, vector: Vector): seq<byte> {
    if !Hidden(a) then Cut(a.value, size)
    else if secret.NoSecret? || vector.NoVector? || |a.value| < 2 then []
    else Original(Unhide(md5, a.kind, secret.key, vector.octets, a.value), size)
  }

  // An attribute hidden with that vector comes back as it was, whatever the padding.
  lemma HiddenIsFound(md5: seq<byte> -> Digest, secret: Secret, a: Avp, rest: seq<Avp>, size: nat, vector: Vector,
                      value: seq<byte>, padding: seq<byte>)
    requires secret.Secret? && vector.Vector? && a.vendor == 0 && Hidden(a) && |value| < 0x1_0000
    requires var plain := PutShort(|value|) + value + padding;
             a.value == Hide(md5, a.kind, secret.key, vector.octets, plain, |plain|)
    ensures Lookup(md5, secret, [a] + rest, a.kind, size, vector) == Cut(value, size)
  {
    var plain := PutShort(|value|) + value + padding;
    UnhideHidden(md5, a.kind, secret.key, vector.octets, plain);
    assert plain[2..2 + |value|] == value;
    assert ([a] + rest)[0] == a;
  }

  // Attributes of other types in front do not matter, but for the vectors.
  function LastVector(avps: seq<Avp>, vector: Vector): Vector {
    if avps == [] then vector
    else
      var a := avps[0];
      LastVector(avps[1..], if a.vendor == 0 && a.kind == RANDOM_VECTOR
          && !Hidden(a) then Vector(a.value) else vector)
  }

  lemma {:induction false} LookupSkips(md5: seq<byte> -> Digest, secret: Secret, front: seq<Avp>, avps: seq<Avp>,
                                       kind: u16, size: nat, vector: Vector)
    requires forall a :: a in front ==> a.vendor != 0 || a.kind != kind
    ensures Lookup(md5, secret, front + avps, kind, size, vector)
            == Lookup(md5, secret, avps, kind, size, LastVector(front, vector))
    decreases |front|
  {
    if front == [] {
      assert front + avps == avps;
    } else {
      assert (front + avps)[0] == front[0] && (front + avps)[1..] == front[1..] + avps;
      var a := front[0];
      LookupSkips(md5, secret, front[1..], avps, kind, size,
                  if a.vendor == 0 && a.kind == RANDOM_VECTOR && !Hidden(a) then Vector(a.value) else vector);
    }
  }

  // A message that carries a hidden attribute behind its random vector, with
  // anything but that attribute in front, gives up the original value.
  lemma HiddenRoundTrip(md5: seq<byte> -> Digest, secret: Secret, front: seq<Avp>, a: Avp, rest: seq<Avp>,
                        size: nat, value: seq<byte>, padding: seq<byte>)
    requires secret.Secret? && LastVector(front, NoVector).Vector?
    requires forall b :: b in front ==> b.vendor != 0 || b.kind != a.kind
    requires a.vendor == 0 && Hidden(a) && |value| < 0x1_0000
    requires var plain := PutShort(|value|) + value + padding;
             a.value == Hide(md5, a.kind, secret.key, LastVector(front, NoVector).octets, plain, |plain|)
    ensures Lookup(md5, secret, front + ([a] + rest), a.kind, size, NoVector) == Cut(value, size)
  {
    LookupSkips(md5, secret, front, [a] + rest, a.kind, size, NoVector);
    HiddenIsFound(md5, secret, a, rest, size, LastVector(front, NoVector), value, padding);
  }

  // One attribute as it stands in the packet at `offset`.
  function LengthAt(b: seq<byte>, offset: nat): nat
    requires offset + ATTRIBUTE_HEADER_SIZE <= |b|
  {
    Short(b[offset], b[offset+1]) % 0x400
  }

  function AvpAt(b: seq<byte>, offset: nat): Avp
    requires offset + ATTRIBUTE_HEADER_SIZE <= |b|
    requires LengthAt(b, offset) >= ATTRIBUTE_HEADER_SIZE && offset + LengthAt(b, offset) <= |b|
  {
    Avp(Short(b[offset], b[offset+1]) / 0x400, Short(b[offset+2], b[offset+3]), Short(b[offset+4], b[offset+5]),
        b[offset + ATTRIBUTE_HEADER_SIZE..offset + LengthAt(b, offset)])
  }

  // All attributes from `offset` on, up to the first that does not fit.
  function Attributes(b: seq<byte>, offset: nat): seq<Avp>
    decreases |b| - offset
  {
    if |b| < offset + ATTRIBUTE_HEADER_SIZE then []
    else
      var length := LengthAt(b, offset);
      if length < ATTRIBUTE_HEADER_SIZE || offset + length > |b| then []
      else [AvpAt(b, offset)] + Attributes(b, offset + length)
  }

  lemma ReadBack(front: seq<byte>, a: Avp, rest: seq<byte>)
    requires Fits(a)
    ensures var b := front + EncodeOne(a) + rest;
            && |front| + ATTRIBUTE_HEADER_SIZE <= |b|
            && LengthAt(b, |front|) == Size(a) && |front| + Size(a) <= |b|
            && AvpAt(b, |front|) == a
  {
    var b := front + EncodeOne(a) + rest;
    var n := |front|;
    var one := EncodeOne(a);
    assert forall i :: 0 <= i < |one| ==> b[n + i] == one[i];
    assert b[n] == one[0] && b[n + 1] == one[1] && b[n + 2] == one[2];
    assert b[n + 3] == one[3] && b[n + 4] == one[4] && b[n + 5] == one[5];
    assert Short(one[0], one[1]) == a.high * 0x400 + Size(a);
    assert Short(one[2], one[3]) == a.vendor && Short(one[4], one[5]) == a.kind;
    assert b[n + ATTRIBUTE_HEADER_SIZE..n + Size(a)] == a.value;
  }

  lemma NextRead(front: seq<byte>, a: Avp, rest: seq<byte>, b: seq<byte>)
    requires Fits(a) && b == front + EncodeOne(a) + rest
    ensures Attributes(b, |front|) == [a] + Attributes(b, |front| + Size(a))
  {
    ReadBack(front, a, rest);
  }

  // What was written is what is read.
  lemma {:induction false} AttributesOfEncoded(front: seq<byte>, avps: seq<Avp>)
    requires forall a :: a in avps ==> Fits(a)
    ensures Attributes(front + Encode(avps), |front|) == avps
    decreases |avps|
  {
    if avps == [] {
      assert front + Encode(avps) == front;
    } else {
      var a, rest := avps[0], Encode(avps[1..]);
      var front' := front + EncodeOne(a);
      assert front + Encode(avps) == front' + rest;
      NextRead(front, a, rest, front' + rest);
      AttributesOfEncoded(front', avps[1..]);
      assert |front'| == |front| + Size(a);
    }
  }

  // Where a new block of sixteen octets begins.
  lemma BlockOf(i: nat)
    requires i > 0
    ensures i % DIGEST == 0 ==> i / DIGEST == (i - 1) / DIGEST + 1 && DIGEST * (i / DIGEST) == i
    ensures i % DIGEST != 0 ==> i / DIGEST == (i - 1) / DIGEST
  {
  }

  // The digest for position i, given the one before.
  method NextHash(md5: seq<byte> -> Digest, kind: u16, key: seq<byte>, vector: seq<byte>, value: seq<byte>, i: nat,
      hash: Digest)
    returns (hash': Digest)
    requires i <= |value|
    requires hash == KeyBlock(md5, kind, key, vector, value, if i == 0 then 0 else (i - 1) / DIGEST)
    ensures hash' == KeyBlock(md5, kind, key, vector, value, i / DIGEST)
  {
    hash' := hash;
    if i > 0 {
      BlockOf(i);
      if i % DIGEST == 0 {
        hash' := md5(key + value[i - DIGEST..i]);
      }
    }
  }

  // The unhiding loop of get_attribute_raw.
  method UnhideValue(md5: seq<byte> -> Digest, kind: u16, key: seq<byte>, vector: seq<byte>, value: seq<byte>)
    returns (buffer: seq<byte>)
    ensures buffer == Unhide(md5, kind, key, vector, value)
  {
    buffer := [];
    var hash := md5(PutShort(kind) + key + vector);
    for i := 0 to |value|
      invariant |buffer| == i
      invariant forall k :: 0 <= k < i ==> buffer[k] == Xor(value[k], KeyAt(md5, kind, key, vector, value, k))
      invariant hash == KeyBlock(md5, kind, key, vector, value, if i == 0 then 0 else (i - 1) / DIGEST)
    {
      hash := NextHash(md5, kind, key, vector, value, i, hash);
      buffer := buffer + [Xor(value[i], hash[i % DIGEST])];
    }
  }

  // The end of get_attribute_raw, once the attribute is found.
  method Open(md5: seq<byte> -> Digest, secret: Secret, hidden: bool, kind: u16, octets: seq<byte>, size: nat,
      vector: Vector)
    returns (value: seq<byte>)
    ensures forall a: Avp :: a.kind == kind && a.value == octets && Hidden(a) == hidden ==>
              value == Opened(md5, secret, a, size, vector)
  {
    if !hidden {
      return Cut(octets, size);
    }
    if secret.NoSecret? || vector.NoVector? || |octets| < 2 {
      return [];
    }
    var buffer := UnhideValue(md5, kind, secret.key, vector.octets, octets);
    var original := Short(buffer[0], buffer[1]);
    if original > |octets| - 2 {
      return [];
    }
    value := Cut(buffer[2..2 + original], size);
  }

  // What is found from `offset` on is what is found at all.
  ghost predicate Onward(md5: seq<byte> -> Digest, secret: Secret, b: seq<byte>, kind: u16, size: nat, offset: nat,
      vector: Vector, goal: seq<byte>) {
    forall avps: seq<Avp> :: avps == Attributes(b, offset) ==> goal == Lookup(md5, secret, avps, kind, size, vector)
  }

  predicate FitsAt(b: seq<byte>, offset: nat) {
    && offset + ATTRIBUTE_HEADER_SIZE <= |b|
    && LengthAt(b, offset) >= ATTRIBUTE_HEADER_SIZE && offset + LengthAt(b, offset) <= |b|
  }

  lemma OnwardStep(md5: seq<byte> -> Digest, secret: Secret, b: seq<byte>, kind: u16, size: nat, offset: nat,
      vector: Vector, goal: seq<byte>)
    requires Onward(md5, secret, b, kind, size, offset, vector, goal) && FitsAt(b, offset)
    ensures var a := AvpAt(b, offset); var next := offset + LengthAt(b, offset);
            if a.vendor != 0 then Onward(md5, secret, b, kind, size, next, vector, goal)
            else if a.kind != kind then
              Onward(md5, secret, b, kind, size, next,
                     if a.kind == RANDOM_VECTOR && !Hidden(a) then Vector(a.value) else vector, goal)
            else goal == Opened(md5, secret, a, size, vector)
  {
    var avps := Attributes(b, offset);
    FirstAttribute(b, offset);
    assert goal == Lookup(md5, secret, avps, kind, size, vector);
  }

  lemma OnwardEnds(md5: seq<byte> -> Digest, secret: Secret, b: seq<byte>, kind: u16, size: nat, offset: nat,
      vector: Vector, goal: seq<byte>)
    requires Onward(md5, secret, b, kind, size, offset, vector, goal) && !FitsAt(b, offset)
    ensures goal == []
  {
    assert Attributes(b, offset) == [];
    assert goal == Lookup(md5, secret, [], kind, size, vector);
  }

  // get_attribute_raw, for any packet: the value found, cut to `size`.
  method GetAttribute(md5: seq<byte> -> Digest, secret: Secret, b: seq<byte>, kind: u16, size: nat)
    returns (value: seq<byte>)
    ensures value == Lookup(md5, secret, Attributes(b, MESSAGE_HEADER_SIZE), kind, size, NoVector)
  {
    ghost var goal := Lookup(md5, secret, Attributes(b, MESSAGE_HEADER_SIZE), kind, size, NoVector);
    value := Search(md5, secret, b, kind, size, goal);
  }

  method Search(md5: seq<byte> -> Digest, secret: Secret, b: seq<byte>, kind: u16, size: nat, ghost goal: seq<byte>)
    returns (value: seq<byte>)
    requires Onward(md5, secret, b, kind, size, MESSAGE_HEADER_SIZE, NoVector, goal)
    ensures value == goal
  {
    var offset: nat := MESSAGE_HEADER_SIZE;
    var vector := NoVector;
    while |b| >= offset + ATTRIBUTE_HEADER_SIZE
      invariant Onward(md5, secret, b, kind, size, offset, vector, goal)
      decreases |b| - offset
    {
      var flag := Short(b[offset], b[offset+1]);
      var length := flag % 0x400;
      if length < ATTRIBUTE_HEADER_SIZE || offset + length > |b| {
        break;
      }
      var vendor, type_ := Short(b[offset+2], b[offset+3]), Short(b[offset+4], b[offset+5]);
      var octets := b[offset + ATTRIBUTE_HEADER_SIZE..offset + length];
      var hidden := flag / 0x4000 % 2 == 1;
      FirstAttribute(b, offset);
      OnwardStep(md5, secret, b, kind, size, offset, vector, goal);
      offset := offset + length;
      if vendor != 0 {
        continue;
      }
      if type_ != kind {
        if type_ == RANDOM_VECTOR && !hidden {
          vector := Vector(octets);
        }
        continue;
      }
      value := Open(md5, secret, hidden, type_, octets, size, vector);
      return;
    }
    OnwardEnds(md5, secret, b, kind, size, offset, vector, goal);
    value := [];
  }

  lemma FirstAttribute(b: seq<byte>, offset: nat)
    requires offset + ATTRIBUTE_HEADER_SIZE <= |b|
    requires LengthAt(b, offset) >= ATTRIBUTE_HEADER_SIZE && offset + LengthAt(b, offset) <= |b|
    ensures Attributes(b, offset)[0] == AvpAt(b, offset)
    ensures Attributes(b, offset)[1..] == Attributes(b, offset + LengthAt(b, offset))
    ensures Hidden(AvpAt(b, offset)) <==> Short(b[offset], b[offset+1]) / 0x4000 % 2 == 1
  {
  }
}
