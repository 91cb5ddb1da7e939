/** The DER encodings the SAN encoder builds by hand (ITU-T X.690): tag and
    length octets (section 8.1), INTEGER contents (section 8.3) and OBJECT
    IDENTIFIER contents (section 8.19), with a parser for each so that
    every encoding is proved to read back to what was encoded. */
module Der {
  import opened Base
  import opened Numerals

  /** One more than the longest Go byte slice: lengths are 64-bit `int`s. */
  const LengthBound: nat := 0x8000_0000_0000_0000

  const TagInteger: byte := 0x02
  const TagOid: byte := 0x06
  const TagUtf8String: byte := 0x0C
  const TagNumericString: byte := 0x12
  const TagPrintableString: byte := 0x13
  const TagIA5String: byte := 0x16
  const TagSequence: byte := 0x30

  /** The identifier octet of a context-specific tag `[n]`, low tag form. */
  function ContextTag(n: nat, constructed: bool): (t: byte)
    requires n < 31
    ensures t >= 0x80
  {
    (0x80 + (if constructed then 0x20 else 0) + n) as byte
  }

  function Nats(b: Bytes): (r: seq<nat>)
    ensures |r| == |b|
    ensures forall i | 0 <= i < |b| :: r[i] == b[i] as nat
  {
    seq(|b|, i requires 0 <= i < |b| => b[i] as nat)
  }

  /** Minimal unsigned big-endian base-256 form; zero has no octets. */
  function BigEndian(n: nat): (r: Bytes)
    ensures Nats(r) == ToDigits(n, 256)
  {
    var ds := ToDigits(n, 256);
    seq(|ds|, i requires 0 <= i < |ds| => ds[i] as byte)
  }

  function FromBigEndian(b: Bytes): nat {
    FromDigits(Nats(b), 256)
  }

  /** Length octets (section 8.1.3): the short form below 128, otherwise
      the long form, `0x80 | count` followed by the minimal count octets. */
  function LengthOctets(n: nat): (r: Bytes)
    ensures |r| >= 1
  {
    if n < 128 then [n as byte]
    else
      var k := BigEndian(n);
      [LongFormPrefix(|k|)] + k
  }

  /** The first octet of the long form. Counts above 126 would need lengths
      beyond 2^1008 and are never reached; there the octet is only kept a
      byte. */
  function LongFormPrefix(count: nat): (r: byte)
    ensures count <= 126 ==> r as int == 0x80 + count
  {
    ((0x80 + count) % 256) as byte
  }

  /** Reads length octets: the length and the number of octets used. */
  function ParseLength(b: Bytes): (r: Option<(nat, nat)>)
    ensures r.Some? ==> 1 <= r.value.1 <= |b|
  {
    if b == [] then None
    else if b[0] < 128 then Some((b[0] as nat, 1))
    else
      var k := (b[0] - 128) as nat;
      if k == 0 || k == 127 || |b| < 1 + k then None
      else Some((FromBigEndian(b[1..1 + k]), 1 + k))
  }

  lemma LengthRoundTrip(n: nat, rest: Bytes)
    requires n < LengthBound
    ensures ParseLength(LengthOctets(n) + rest) == Some((n, |LengthOctets(n)|))
  {
    if n >= 128 {
      var k := BigEndian(n);
      LongForm(n);
      assert LengthOctets(n) + rest == [LongFormPrefix(|k|)] + k + rest;
      ParseLongForm(k, rest);
    } else {
      assert LengthOctets(n) + rest == [n as byte] + rest;
    }
  }

  lemma LongForm(n: nat)
    requires 128 <= n < LengthBound
    ensures 1 <= |BigEndian(n)| <= 8
    ensures FromBigEndian(BigEndian(n)) == n
  {
    EightOctets();
    DigitsLength(n, 256, 8);
    FromToDigits(n, 256);
  }

  lemma ParseLongForm(k: Bytes, rest: Bytes)
    requires 1 <= |k| <= 8
    ensures ParseLength([LongFormPrefix(|k|)] + k + rest) == Some((FromBigEndian(k), 1 + |k|))
  {
    var b := [LongFormPrefix(|k|)] + k + rest;
    assert b[0] as int == 0x80 + |k|;
    assert b[1..1 + |k|] == k;
  }

  lemma EightOctets()
    ensures LengthBound < Pow(256, 8)
  {
    assert Pow(256, 2) == 0x1_0000;
    assert Pow(256, 4) == 0x1_0000 * Pow(256, 2);
    assert Pow(256, 6) == 0x1_0000 * Pow(256, 4);
    assert Pow(256, 8) == 0x1_0000 * Pow(256, 6);
  }

  /** A primitive or constructed TLV with a single identifier octet. */
  function Tlv(tag: byte, content: Bytes): (r: Bytes)
    ensures |r| > |content|
  {
    [tag] + LengthOctets(|content|) + content
  }

  function ParseTlv(b: Bytes): (r: Option<(byte, Bytes, Bytes)>)
    ensures r.Some? ==> |r.value.2| < |b|
  {
    if b == [] then None
    else
      match ParseLength(b[1..])
      case None => None
      case Some((n, k)) =>
        if 1 + k + n <= |b| then Some((b[0], b[1 + k..1 + k + n], b[1 + k + n..])) else None
  }

  lemma TlvRoundTrip(tag: byte, content: Bytes, rest: Bytes)
    requires |content| < LengthBound
    ensures ParseTlv(Tlv(tag, content) + rest) == Some((tag, content, rest))
  {
    var len := LengthOctets(|content|);
    var b := Tlv(tag, content) + rest;
    assert b[1..] == len + (content + rest);
    LengthRoundTrip(|content|, content + rest);
    var k := |len|;
    assert b[1 + k..1 + k + |content|] == content;
    assert b[1 + k + |content|..] == rest;
  }

  /** Tag-and-content pairs written one after the other, as the elements of
      a SEQUENCE. */
  function Tlvs(items: seq<(byte, Bytes)>): Bytes
    decreases |items|
  {
    if items == [] then [] else Tlv(items[0].0, items[0].1) + Tlvs(items[1..])
  }

  function ParseTlvs(b: Bytes): Option<seq<(byte, Bytes)>>
    decreases |b|
  {
    if b == [] then Some([])
    else
      match ParseTlv(b)
      case None => None
      case Some((t, c, rest)) =>
        match ParseTlvs(rest)
        case None => None
        case Some(items) => Some([(t, c)] + items)
  }

  lemma {:induction false} TlvsRoundTrip(items: seq<(byte, Bytes)>)
    requires forall i | 0 <= i < |items| :: |items[i].1| < LengthBound
    ensures ParseTlvs(Tlvs(items)) == Some(items)
    decreases |items|
  {
    if items != [] {
      var (t, c) := items[0];
      TlvRoundTrip(t, c, Tlvs(items[1..]));
      TlvsRoundTrip(items[1..]);
      assert [(t, c)] + items[1..] == items;
    }
  }

  /** One subidentifier of an OBJECT IDENTIFIER (section 8.19.2): minimal
      base-128 digits, bit 8 set on every octet but the last. */
  function Base128(n: nat): (r: Bytes)
    ensures |r| > 0
    ensures forall i | 0 <= i < |r| - 1 :: r[i] >= 128
    ensures r[|r| - 1] < 128
  {
    var ds := if n == 0 then [0] else ToDigits(n, 128);
    seq(|ds|, i requires 0 <= i < |ds| => (if i < |ds| - 1 then ds[i] + 128 else ds[i]) as byte)
  }

  /** The index of the first octet with bit 8 clear, or `|b|`. */
  function Terminal(b: Bytes): (k: nat)
    ensures k <= |b|
    ensures forall i | 0 <= i < k :: b[i] >= 128
    ensures k < |b| ==> b[k] < 128
    decreases |b|
  {
    if b == [] || b[0] < 128 then 0 else 1 + Terminal(b[1..])
  }

  function Low7(b: Bytes): (r: seq<nat>)
    ensures |r| == |b|
  {
    seq(|b|, i requires 0 <= i < |b| => (b[i] % 128) as nat)
  }

  /** Reads one subidentifier: its value and the number of octets used. */
  function ParseBase128(b: Bytes): (r: Option<(nat, nat)>)
    ensures r.Some? ==> 1 <= r.value.1 <= |b|
  {
    var k := Terminal(b);
    if k == |b| then None else Some((FromDigits(Low7(b[..k + 1]), 128), k + 1))
  }

  lemma Base128RoundTrip(n: nat, rest: Bytes)
    ensures ParseBase128(Base128(n) + rest) == Some((n, |Base128(n)|))
  {
    var e := Base128(n);
    var b := e + rest;
    assert Terminal(b) == |e| - 1 by {
      TerminalAt(b, |e| - 1);
    }
    assert b[..|e|] == e;
    Base128Value(n);
  }

  /** The low seven bits of the encoding are the base-128 digits of `n`. */
  lemma Base128Value(n: nat)
    ensures FromDigits(Low7(Base128(n)), 128) == n
  {
    Base128Digits(n);
    if n == 0 {
      assert FromDigits([0], 128) == FromDigits([], 128) * 128 + 0;
    } else {
      FromToDigits(n, 128);
    }
  }

  lemma Base128Digits(n: nat)
    ensures Low7(Base128(n)) == if n == 0 then [0] else ToDigits(n, 128)
  {
  }

  lemma TerminalAt(b: Bytes, k: nat)
    requires k < |b| && b[k] < 128
    requires forall i | 0 <= i < k :: b[i] >= 128
    ensures Terminal(b) == k
  {
  }

  /** Section 8.19.4: what DER can encode (at least two arcs, the first at
      most 2, the second below 40 under arcs 0 and 1). Go's marshaller
      rejects every other identifier. */
  predicate Encodable(o: Oid) {
    |o| >= 2 && o[0] <= 2 && (o[0] < 2 ==> o[1] < 40)
  }

  function SubIdentifiers(ids: seq<nat>): Bytes
    decreases |ids|
  {
    if ids == [] then [] else Base128(ids[0]) + SubIdentifiers(ids[1..])
  }

  /** The contents octets of an OBJECT IDENTIFIER: the first two arcs
      combined as `40 * X + Y` (section 8.19.4), then one subidentifier per
      remaining arc. */
  function OidContent(o: Oid): Bytes
    requires Encodable(o)
  {
    Base128(FirstSubIdentifier(o[0], o[1])) + SubIdentifiers(o[2..])
  }

  /** Section 8.19.4: the first two arcs share one subidentifier. */
  function FirstSubIdentifier(x: nat, y: nat): nat {
    x * 40 + y
  }

  function ParseSubIdentifiers(b: Bytes): Option<seq<nat>>
    decreases |b|
  {
    if b == [] then Some([])
    else
      match ParseBase128(b)
      case None => None
      case Some((v, k)) =>
        match ParseSubIdentifiers(b[k..])
        case None => None
        case Some(vs) => Some([v] + vs)
  }

  function ParseOidContent(b: Bytes): Option<Oid> {
    match ParseSubIdentifiers(b)
    case None => None
    case Some(ids) =>
      if ids == [] then None
      else
        Some(FirstArcs(ids[0]) + ids[1..])
  }

  /** The first two arcs recovered from the first subidentifier. */
  function FirstArcs(f: nat): (r: Oid)
    ensures |r| == 2
  {
    if f < 40 then [0, f] else if f < 80 then [1, f - 40] else [2, f - 80]
  }

  lemma FirstArcsOf(x: nat, y: nat)
    requires x <= 2 && (x < 2 ==> y < 40)
    ensures FirstArcs(FirstSubIdentifier(x, y)) == [x, y]
  {
    if x == 0 {
      assert x * 40 + y == y;
    } else if x == 1 {
      assert x * 40 + y == 40 + y;
    } else {
      assert x * 40 + y == 80 + y;
    }
  }

  lemma {:induction false} SubIdentifiersRoundTrip(ids: seq<nat>)
    ensures ParseSubIdentifiers(SubIdentifiers(ids)) == Some(ids)
    decreases |ids|
  {
    if ids != [] {
      var e := Base128(ids[0]);
      var tail := SubIdentifiers(ids[1..]);
      assert SubIdentifiers(ids) == e + tail;
      Base128RoundTrip(ids[0], tail);
      assert (e + tail)[|e|..] == tail;
      SubIdentifiersRoundTrip(ids[1..]);
      ParseSubIdentifiersCons(e + tail, ids[0], |e|, ids[1..]);
      assert [ids[0]] + ids[1..] == ids;
    }
  }

  lemma OidContentRoundTrip(o: Oid)
    requires Encodable(o)
    ensures ParseOidContent(OidContent(o)) == Some(o)
  {
    assert [o[0], o[1]] + o[2..] == o;
    var f := FirstSubIdentifier(o[0], o[1]);
    var head, tail := Base128(f), SubIdentifiers(o[2..]);
    assert OidContent(o) == head + tail;
    Base128RoundTrip(f, tail);
    SubIdentifiersRoundTrip(o[2..]);
    assert (head + tail)[|head|..] == tail;
    ParseSubIdentifiersCons(head + tail, f, |head|, o[2..]);
    ParseOidContentOf(head + tail, [f] + o[2..]);
    FirstArcsOf(o[0], o[1]);
  }

  lemma ParseSubIdentifiersCons(b: Bytes, v: nat, k: nat, vs: seq<nat>)
    requires ParseBase128(b) == Some((v, k)) && ParseSubIdentifiers(b[k..]) == Some(vs)
    ensures ParseSubIdentifiers(b) == Some([v] + vs)
  {
  }

  lemma ParseOidContentOf(b: Bytes, ids: seq<nat>)
    requires ParseSubIdentifiers(b) == Some(ids) && ids != []
    ensures ParseOidContent(b) == Some(FirstArcs(ids[0]) + ids[1..])
  {
  }

  /** The contents octets of an INTEGER (section 8.3): minimal big-endian
      two's complement. */
  function IntContent(i: int): (r: Bytes)
    ensures |r| > 0
    decreases if i < 0 then -i else i
  {
    if -128 <= i < 128 then [(if i < 0 then i + 256 else i) as byte]
    else IntContent(i / 256) + [(i % 256) as byte]
  }

  /** The value of two's-complement contents octets. */
  function IntValue(b: Bytes): int
    requires |b| > 0
    decreases |b|
  {
    if |b| == 1 then (if b[0] >= 128 then b[0] as int - 256 else b[0] as int)
    else IntValue(b[..|b| - 1]) * 256 + b[|b| - 1] as int
  }

  /** Section 8.3.2: the first nine bits are neither all zero nor all one. */
  predicate MinimalInt(b: Bytes) {
    |b| > 0 && (|b| > 1 ==> !(b[0] == 0 && b[1] < 128) && !(b[0] == 255 && b[1] >= 128))
  }

  lemma {:induction false} IntRoundTrip(i: int)
    ensures IntValue(IntContent(i)) == i
    ensures MinimalInt(IntContent(i))
    decreases if i < 0 then -i else i
  {
    if !(-128 <= i < 128) {
      var q, r := i / 256, i % 256;
      IntRoundTrip(q);
      var x := IntContent(q);
      var e := x + [r as byte];
      assert e[..|e| - 1] == x;
      assert i == q * 256 + r;
      if |x| == 1 {
        assert -128 <= q < 128;
        assert q == 0 ==> r >= 128;
        assert q == -1 ==> r < 128;
      } else {
        assert e[0] == x[0] && e[1] == x[1];
      }
    }
  }
}
