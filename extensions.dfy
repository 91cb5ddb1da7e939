/** The extension engine of the template layer: the name tables and their
    decoders (key usage, extended key usage), the raw-extension and
    object-identifier conversions, and the `Set` projections that write a
    template's parts onto an `x509.Certificate`. */
module Extensions {
  import opened Base
  import Numerals
  import Oids
  import X509
  import opened Collaborators

  // ---------------------------------------------------------------------
  // Name normalisation and the name tables

  /** No upper-case letter, no underscore and neither U+212A nor U+0130:
      what `convertName` yields for UTF-8 text. */
  predicate Converted(s: Bytes) {
    (forall i | 0 <= i < |s| :: !IsUpper(s[i]) && s[i] != Underscore) && FoldFree(s)
  }

  /** `convertName`: lower-case the name, then remove every underscore. */
  function ConvertName(s: Bytes): (r: Bytes)
    ensures forall i | 0 <= i < |r| :: !IsUpper(r[i]) && r[i] != Underscore
  {
    var r := Without(ToLower(s), Underscore);
    assert forall i | 0 <= i < |r| :: !IsUpper(r[i]) && r[i] != Underscore by {
      forall i | 0 <= i < |r| ensures !IsUpper(r[i]) && r[i] != Underscore {
        assert r[i] in ToLower(s);
      }
    }
    r
  }

  /** On UTF-8 text, such as the strings JSON decoding yields, the
      converted name is in converted form. */
  lemma ConvertNameConverted(s: Bytes)
    requires NoSplitSequence(s)
    ensures Converted(ConvertName(s))
  {
    ToLowerFoldFree(s);
    ToLowerNoSplit(s);
    WithoutFoldFree(ToLower(s));
  }

  /** A converted name converts to itself. */
  lemma ConvertNameFixed(s: Bytes)
    requires Converted(s)
    ensures ConvertName(s) == s
  {
    ToLowerFixed(s);
    WithoutAbsent(s, Underscore);
  }

  lemma ConvertNameIdempotent(s: Bytes)
    requires NoSplitSequence(s)
    ensures ConvertName(ConvertName(s)) == ConvertName(s)
  {
    ConvertNameConverted(s);
    ConvertNameFixed(ConvertName(s));
  }

  /** Underscores are ignored: `digital_signature` and `digitalsignature`
      select the same entry. The underscore must not stand inside a code
      point, as it cannot in UTF-8 text. */
  lemma ConvertNameIgnoresUnderscore(s: Bytes, t: Bytes)
    requires t == [] || !IsContinuation(t[0])
    ensures ConvertName(s + [Underscore] + t) == ConvertName(s + t)
  {
    ToLowerAppend(s + [Underscore], t);
    ToLowerAppend(s, [Underscore]);
    ToLowerAppend(s, t);
    assert ToLower([Underscore]) == [Underscore];
    WithoutSeparator(ToLower(s), ToLower(t));
  }

  /** Case is ignored: `DigitalSignature` and `digitalsignature` select
      the same entry. */
  lemma ConvertNameIgnoresCase(s: Bytes, t: Bytes)
    requires |s| == |t|
    requires forall i | 0 <= i < |s| :: LowerByte(s[i]) == LowerByte(t[i])
    ensures ConvertName(s) == ConvertName(t)
  {
    ToLowerCaseless(s, t);
  }

  /** U+212A KELVIN SIGN converts as `K` does and U+0130 as `I` does, as
      Go's Unicode lower-casing maps them to `k` and `i`. */
  lemma ConvertNameFoldsSigns(a: Bytes, b: Bytes)
    ensures ConvertName(a + KelvinSign + b) == ConvertName(a + [0x4B] + b)
    ensures ConvertName(a + DottedCapitalI + b) == ConvertName(a + [0x49] + b)
  {
    assert (KelvinSign + b)[3..] == b;
    ToLowerBetween(a, KelvinSign, 0x6B, b);
    assert ([0x4B as byte] + b)[1..] == b;
    ToLowerBetween(a, [0x4B], 0x6B, b);
    assert (DottedCapitalI + b)[2..] == b;
    ToLowerBetween(a, DottedCapitalI, 0x69, b);
    assert ([0x49 as byte] + b)[1..] == b;
    ToLowerBetween(a, [0x49], 0x69, b);
  }

  /** A character `x` that lowers to `l` lowers to `l` wherever it stands. */
  lemma ToLowerBetween(a: Bytes, x: Bytes, l: byte, b: Bytes)
    requires |x| > 0 && !IsContinuation(x[0]) && ToLower(x + b) == [l] + ToLower(b)
    ensures ToLower(a + x + b) == ToLower(a) + [l] + ToLower(b)
  {
    assert a + x + b == a + (x + b);
    ToLowerAppend(a, x + b);
  }

  predicate LowerWord(s: string) {
    forall i | 0 <= i < |s| :: 'a' <= s[i] <= 'z'
  }

  /** A table name: lower-case ASCII letters, already converted. */
  function Word(s: string): (r: Bytes)
    requires LowerWord(s)
    ensures |r| == |s| && IsAscii(r) && Converted(r)
    ensures forall i | 0 <= i < |s| :: r[i] as int == s[i] as int
  {
    Ascii(s)
  }

  /** The key-usage names after `convertName`, in the order of Go's flags
      `x509.KeyUsageDigitalSignature` (bit 0) to `KeyUsageDecipherOnly`
      (bit 8). */
  const KeyUsageWords: seq<string> := [
    "digitalsignature", "contentcommitment", "keyencipherment", "dataencipherment",
    "keyagreement", "certsign", "crlsign", "encipheronly", "decipheronly"]

  /** The extended-key-usage names after `convertName`, in the order of
      Go's `x509.ExtKeyUsage` enumeration (`ExtKeyUsageAny` is 0). */
  const ExtKeyUsageWords: seq<string> := [
    "any", "serverauth", "clientauth", "codesigning", "emailprotection",
    "ipsecendsystem", "ipsectunnel", "ipsecuser", "timestamping", "ocspsigning",
    "microsoftservergatedcrypto", "netscapeservergatedcrypto",
    "microsoftcommercialcodesigning", "microsoftkernelcodesigning"]

  lemma KeyUsageWordsLower()
    ensures forall i | 0 <= i < |KeyUsageWords| :: LowerWord(KeyUsageWords[i])
  {
  }

  /** Split in four: the fourteen long words at once are beyond what the
      solver checks cheaply. */
  lemma ExtKeyUsageWordsLower()
    ensures forall i | 0 <= i < |ExtKeyUsageWords| :: LowerWord(ExtKeyUsageWords[i])
  {
    ExtKeyUsageWordsLowerA();
    ExtKeyUsageWordsLowerB();
    ExtKeyUsageWordsLowerC();
    ExtKeyUsageWordsLowerD();
  }

  lemma ExtKeyUsageWordsLowerA()
    ensures forall i | 0 <= i < 5 :: LowerWord(ExtKeyUsageWords[i])
  {
  }

  lemma ExtKeyUsageWordsLowerB()
    ensures forall i | 5 <= i < 10 :: LowerWord(ExtKeyUsageWords[i])
  {
  }

  lemma ExtKeyUsageWordsLowerC()
    ensures forall i | 10 <= i < 12 :: LowerWord(ExtKeyUsageWords[i])
  {
  }

  lemma ExtKeyUsageWordsLowerD()
    ensures forall i | 12 <= i < 14 :: LowerWord(ExtKeyUsageWords[i])
  {
  }

  const KeyUsageNames: seq<Bytes> :=
    (KeyUsageWordsLower();
     seq(|KeyUsageWords|, i requires 0 <= i < |KeyUsageWords| => Word(KeyUsageWords[i])))

  const ExtKeyUsageNames: seq<Bytes> :=
    (ExtKeyUsageWordsLower();
     seq(|ExtKeyUsageWords|, i requires 0 <= i < |ExtKeyUsageWords| => Word(ExtKeyUsageWords[i])))

  predicate Distinct(table: seq<Bytes>) {
    forall i, j | 0 <= i < j < |table| :: table[i] != table[j]
  }

  lemma WordsDistinct()
    ensures forall i, j | 0 <= i < j < |KeyUsageWords| :: KeyUsageWords[i] != KeyUsageWords[j]
    ensures forall i, j | 0 <= i < j < |ExtKeyUsageWords| :: ExtKeyUsageWords[i] != ExtKeyUsageWords[j]
  {
  }

  /** Both tables are free of duplicates and hold converted names. */
  lemma TablesDistinct()
    ensures |KeyUsageNames| == 9 && Distinct(KeyUsageNames)
    ensures |ExtKeyUsageNames| == 14 && Distinct(ExtKeyUsageNames)
    ensures forall i | 0 <= i < 9 :: Converted(KeyUsageNames[i])
    ensures forall i | 0 <= i < 14 :: Converted(ExtKeyUsageNames[i])
  {
    WordsDistinct();
    KeyUsageWordsLower();
    ExtKeyUsageWordsLower();
    forall i, j | 0 <= i < j < 9 ensures KeyUsageNames[i] != KeyUsageNames[j] {
      AsciiInjective(KeyUsageWords[i], KeyUsageWords[j]);
    }
    forall i, j | 0 <= i < j < 14 ensures ExtKeyUsageNames[i] != ExtKeyUsageNames[j] {
      AsciiInjective(ExtKeyUsageWords[i], ExtKeyUsageWords[j]);
    }
  }

  function FirstIndex(table: seq<Bytes>, x: Bytes): (r: Option<nat>)
    ensures r.Some? ==> r.value < |table| && table[r.value] == x
    ensures r.Some? ==> forall j | 0 <= j < r.value :: table[j] != x
    ensures r.None? ==> forall j | 0 <= j < |table| :: table[j] != x
    decreases |table|
  {
    if table == [] then None
    else if table[0] == x then Some(0)
    else match FirstIndex(table[1..], x)
      case None => None
      case Some(i) => Some(i + 1)
  }

  /** The `switch convertName(s)` of the decoders: the first table entry
      equal to the converted name. */
  function Lookup(table: seq<Bytes>, s: Bytes): (r: Option<nat>)
    ensures r.Some? ==> r.value < |table| && table[r.value] == ConvertName(s)
    ensures r.None? <==> forall j | 0 <= j < |table| :: table[j] != ConvertName(s)
  {
    FirstIndex(table, ConvertName(s))
  }

  /** In a table of distinct converted names, every entry finds itself. */
  lemma LookupEntry(table: seq<Bytes>, i: nat)
    requires Distinct(table) && i < |table| && Converted(table[i])
    ensures Lookup(table, table[i]) == Some(i)
  {
    ConvertNameFixed(table[i]);
  }

  /** `\u212AeyAgreement`, the key-agreement name with its `k` written as
      the Kelvin sign, selects the key-agreement flag. */
  lemma KelvinSignSelectsKeyAgreement()
    ensures |KeyUsageNames[4]| > 0 && KeyUsageNames[4][0] == 0x6B
    ensures Lookup(KeyUsageNames, KelvinSign + KeyUsageNames[4][1..]) == Some(4)
  {
    TablesDistinct();
    var e := KeyUsageNames[4];
    assert e == Word("keyagreement");
    var w := e[1..];
    ConvertNameFoldsSigns([], w);
    assert [] + KelvinSign + w == KelvinSign + w && [] + [0x4B as byte] + w == [0x4B as byte] + w;
    assert e == [0x6B as byte] + w;
    ConvertNameIgnoresCase([0x4B as byte] + w, e);
    LookupEntry(KeyUsageNames, 4);
  }

  /** The index of the first name the table does not know, or `|ms|`. */
  function FirstUnknown(table: seq<Bytes>, ms: seq<Bytes>): (j: nat)
    ensures j <= |ms|
    ensures forall i | 0 <= i < j :: Lookup(table, ms[i]).Some?
    ensures j < |ms| ==> Lookup(table, ms[j]).None?
    decreases |ms|
  {
    if ms == [] || Lookup(table, ms[0]).None? then 0 else 1 + FirstUnknown(table, ms[1..])
  }

  predicate AllKnown(table: seq<Bytes>, ms: seq<Bytes>) {
    forall i | 0 <= i < |ms| :: Lookup(table, ms[i]).Some?
  }

  lemma {:induction false} FirstUnknownAt(table: seq<Bytes>, ms: seq<Bytes>, j: nat)
    requires j <= |ms| && AllKnown(table, ms[..j])
    requires j < |ms| ==> Lookup(table, ms[j]).None?
    ensures FirstUnknown(table, ms) == j
  {
    var k := FirstUnknown(table, ms);
    if k < j {
      assert false;
    } else if k > j {
      assert false;
    }
  }

  /** The table indices the names select, one per name. */
  function Indices(table: seq<Bytes>, ms: seq<Bytes>): (r: seq<nat>)
    requires AllKnown(table, ms)
    ensures |r| == |ms|
    ensures forall i | 0 <= i < |ms| :: r[i] < |table| && Lookup(table, ms[i]) == Some(r[i])
  {
    seq(|ms|, i requires 0 <= i < |ms| && AllKnown(table, ms) => Lookup(table, ms[i]).value)
  }

  lemma IndicesSnoc(table: seq<Bytes>, ms: seq<Bytes>, i: nat)
    requires i < |ms| && AllKnown(table, ms[..i]) && Lookup(table, ms[i]).Some?
    ensures AllKnown(table, ms[..i + 1])
    ensures Indices(table, ms[..i + 1]) == Indices(table, ms[..i]) + [Lookup(table, ms[i]).value]
  {
    assert ms[..i + 1] == ms[..i] + [ms[i]];
  }

  // ---------------------------------------------------------------------
  // Key usage

  /** The Go flag with table index `i`: `1 << i`. */
  function KeyUsageFlag(i: nat): X509.KeyUsage
    requires i < 9
  {
    (1 as bv16) << i
  }

  predicate FlagIndices(fs: seq<nat>) {
    forall i | 0 <= i < |fs| :: fs[i] < 9
  }

  /** The bitwise OR of the flags. */
  function KeyUsageMask(fs: seq<nat>): (k: X509.KeyUsage)
    requires FlagIndices(fs)
    decreases |fs|
  {
    if fs == [] then 0 else KeyUsageMask(fs[..|fs| - 1]) | KeyUsageFlag(fs[|fs| - 1])
  }

  lemma FlagOr(x: X509.KeyUsage, l: nat, b: nat)
    requires l < 9 && b < 9
    ensures ((x | KeyUsageFlag(l)) & KeyUsageFlag(b) != 0) <==> (x & KeyUsageFlag(b) != 0 || l == b)
    ensures x & 0xFE00 == 0 ==> (x | KeyUsageFlag(l)) & 0xFE00 == 0
  {
  }

  /** Bit `b` of the mask is set exactly when flag `b` was ORed in, and no
      bit above the nine flags is ever set. */
  lemma {:induction false} KeyUsageMaskBits(fs: seq<nat>, b: nat)
    requires FlagIndices(fs) && b < 9
    ensures (KeyUsageMask(fs) & KeyUsageFlag(b) != 0) <==> b in fs
    ensures KeyUsageMask(fs) & 0xFE00 == 0
    decreases |fs|
  {
    if fs != [] {
      var init, l := fs[..|fs| - 1], fs[|fs| - 1];
      assert fs == init + [l];
      KeyUsageMaskBits(init, b);
      FlagOr(KeyUsageMask(init), l, b);
    }
  }

  /** `KeyUsage.UnmarshalJSON` on the extracted names: `*k` is reset to 0
      and the flags are ORed in one by one; at the first unknown name the
      error is returned, and `*k` keeps the flags of the names before it. */
  method DecodeKeyUsage(ms: seq<Bytes>) returns (k: X509.KeyUsage, err: Option<Error>)
    ensures var j := FirstUnknown(KeyUsageNames, ms);
      AllKnown(KeyUsageNames, ms[..j]) && k == KeyUsageMask(Indices(KeyUsageNames, ms[..j])) &&
      err == (if j == |ms| then None else Some(UnsupportedKeyUsage(ms[j])))
  {
    k := 0;
    var i := 0;
    while i < |ms|
      invariant 0 <= i <= |ms|
      invariant AllKnown(KeyUsageNames, ms[..i])
      invariant k == KeyUsageMask(Indices(KeyUsageNames, ms[..i]))
    {
      var ku := Lookup(KeyUsageNames, ms[i]);
      if ku.None? {
        FirstUnknownAt(KeyUsageNames, ms, i);
        return k, Some(UnsupportedKeyUsage(ms[i]));
      }
      IndicesSnoc(KeyUsageNames, ms, i);
      ghost var fs := Indices(KeyUsageNames, ms[..i + 1]);
      assert fs[..|fs| - 1] == Indices(KeyUsageNames, ms[..i]);
      k := k | KeyUsageFlag(ku.value);
      i := i + 1;
    }
    assert ms[..|ms|] == ms;
    FirstUnknownAt(KeyUsageNames, ms, |ms|);
    err := None;
  }

  /** Naming flags by their table names and decoding gives back exactly
      those flags. */
  lemma KeyUsageNamesRoundTrip(flags: seq<nat>)
    requires FlagIndices(flags)
    ensures var ms := seq(|flags|, i requires 0 <= i < |flags| => KeyUsageNames[flags[i]]);
      AllKnown(KeyUsageNames, ms) && Indices(KeyUsageNames, ms) == flags
  {
    TablesDistinct();
    forall i | 0 <= i < |flags| ensures Lookup(KeyUsageNames, KeyUsageNames[flags[i]]) == Some(flags[i]) {
      LookupEntry(KeyUsageNames, flags[i]);
    }
  }

  /** `KeyUsage.Set`. */
  method SetKeyUsage(k: X509.KeyUsage, c: X509.Certificate)
    modifies c`keyUsage
    ensures c.keyUsage == k
  {
    c.keyUsage := k;
  }

  // ---------------------------------------------------------------------
  // Extended key usage

  /** `ExtKeyUsage.UnmarshalJSON` on the extracted names: one value per
      name, in order, duplicates kept; at the first unknown name the error
      is returned and `*k` keeps its previous value. */
  method DecodeExtKeyUsage(current: seq<X509.ExtKeyUsage>, ms: seq<Bytes>)
    returns (k: seq<X509.ExtKeyUsage>, err: Option<Error>)
    ensures var j := FirstUnknown(ExtKeyUsageNames, ms);
      if j == |ms| then AllKnown(ExtKeyUsageNames, ms) && err == None && k == Indices(ExtKeyUsageNames, ms)
      else err == Some(UnsupportedExtKeyUsage(ms[j])) && k == current
  {
    var eku := new X509.ExtKeyUsage[|ms|];
    var i := 0;
    while i < |ms|
      invariant 0 <= i <= |ms|
      invariant AllKnown(ExtKeyUsageNames, ms[..i])
      invariant eku[..i] == Indices(ExtKeyUsageNames, ms[..i])
    {
      var ku := Lookup(ExtKeyUsageNames, ms[i]);
      if ku.None? {
        FirstUnknownAt(ExtKeyUsageNames, ms, i);
        return current, Some(UnsupportedExtKeyUsage(ms[i]));
      }
      IndicesSnoc(ExtKeyUsageNames, ms, i);
      eku[i] := ku.value;
      assert eku[..i + 1] == eku[..i] + [ku.value];
      i := i + 1;
    }
    assert ms[..|ms|] == ms;
    FirstUnknownAt(ExtKeyUsageNames, ms, |ms|);
    k, err := eku[..], None;
  }

  /** Writing each usage by its table name and decoding gives back the
      same list, in the same order. */
  lemma ExtKeyUsageNamesRoundTrip(us: seq<X509.ExtKeyUsage>)
    requires forall i | 0 <= i < |us| :: us[i] < 14
    ensures var ms := seq(|us|, i requires 0 <= i < |us| => ExtKeyUsageNames[us[i]]);
      AllKnown(ExtKeyUsageNames, ms) && Indices(ExtKeyUsageNames, ms) == us
  {
    var ms := seq(|us|, i requires 0 <= i < |us| => ExtKeyUsageNames[us[i]]);
    TablesDistinct();
    forall i | 0 <= i < |ms| ensures Lookup(ExtKeyUsageNames, ms[i]) == Some(us[i]) {
      LookupEntry(ExtKeyUsageNames, us[i]);
    }
  }

  /** `ExtKeyUsage.Set`. */
  method SetExtKeyUsage(k: seq<X509.ExtKeyUsage>, c: X509.Certificate)
    modifies c`extKeyUsage
    ensures c.extKeyUsage == k
  {
    c.extKeyUsage := k;
  }

  // ---------------------------------------------------------------------
  // Raw extensions and object identifiers

  /** `Extension`: a raw extension of the template. */
  datatype Extension = Extension(id: Oid, critical: bool, value: Bytes)

  /** The `pkix.Extension` that `Extension.Set` builds. */
  function ToPkix(e: Extension): X509.Extension {
    X509.Extension(e.id, e.critical, e.value)
  }

  /** `newExtension`: the inverse of the conversion `Extension.Set` makes. */
  function NewExtension(e: X509.Extension): (r: Extension)
    ensures ToPkix(r) == e
  {
    Extension(e.id, e.critical, e.value)
  }

  lemma ToPkixInjective(a: Extension, b: Extension)
    requires ToPkix(a) == ToPkix(b)
    ensures a == b
  {
  }

  /** `newExtensions`: nil stays nil; otherwise one extension per element,
      in order. */
  method NewExtensions(exts: Option<seq<X509.Extension>>) returns (r: Option<seq<Extension>>)
    ensures r.None? <==> exts.None?
    ensures exts.Some? ==> (|r.value| == |exts.value| &&
      forall i | 0 <= i < |exts.value| :: ToPkix(r.value[i]) == exts.value[i])
  {
    if exts.None? {
      return None;
    }
    var es := exts.value;
    var ret := new Extension[|es|](_ => Extension([], false, []));
    var i := 0;
    while i < |es|
      invariant 0 <= i <= |es|
      invariant forall j | 0 <= j < i :: ToPkix(ret[j]) == es[j]
    {
      ret[i] := NewExtension(es[i]);
      i := i + 1;
    }
    return Some(ret[..]);
  }

  /** `Extension.Set`: appends, keeping every earlier extension. */
  method SetExtension(e: Extension, c: X509.Certificate)
    modifies c`extraExtensions
    ensures c.extraExtensions == old(c.extraExtensions) + [ToPkix(e)]
  {
    c.extraExtensions := c.extraExtensions + [ToPkix(e)];
  }

  /** `ObjectIdentifier.MarshalJSON`, without the JSON quoting: the dotted
      text of `asn1.ObjectIdentifier.String`. */
  function MarshalObjectIdentifier(o: Oid): (r: Bytes)
    ensures |o| > 0 ==> Oids.Parse(r) == Some(o)
  {
    var r := Oids.Format(o);
    assert |o| > 0 ==> Oids.Parse(r) == Some(o) by {
      if |o| > 0 { Oids.ParseFormat(o); }
    }
    r
  }

  /** `ObjectIdentifier.UnmarshalJSON` on the extracted string. */
  function UnmarshalObjectIdentifier(s: Bytes): (r: Result<Oid, Error>)
    ensures r.Ok? <==> Oids.Parse(s).Some?
    ensures r.Err? ==> r.error == InvalidObjectIdentifier(s)
  {
    match Oids.Parse(s)
    case None => Err(InvalidObjectIdentifier(s))
    case Some(o) => Ok(o)
  }

  lemma ObjectIdentifierRoundTrip(o: Oid)
    requires |o| > 0
    ensures UnmarshalObjectIdentifier(MarshalObjectIdentifier(o)) == Ok(o)
  {
  }

  /** Text written as Go writes identifiers reads back and prints as the
      same text. */
  lemma ObjectIdentifierTextRoundTrip(s: Bytes)
    requires UnmarshalObjectIdentifier(s).Ok? && Oids.Canonical(s)
    ensures MarshalObjectIdentifier(UnmarshalObjectIdentifier(s).value) == s
  {
    Oids.FormatParse(s);
  }

  /** `UnknownExtKeyUsage.Set`. */
  method SetUnknownExtKeyUsage(u: seq<Oid>, c: X509.Certificate)
    modifies c`unknownExtKeyUsage
    ensures c.unknownExtKeyUsage == u
  {
    c.unknownExtKeyUsage := u;
  }

  /** `SubjectKeyID.Set`: a nil id stays nil. */
  method SetSubjectKeyId(id: Option<Bytes>, c: X509.Certificate)
    modifies c`subjectKeyId
    ensures c.subjectKeyId == id
  {
    c.subjectKeyId := id;
  }

  /** `AuthorityKeyID.Set`. */
  method SetAuthorityKeyId(id: Bytes, c: X509.Certificate)
    modifies c`authorityKeyId
    ensures c.authorityKeyId == id
  {
    c.authorityKeyId := id;
  }

  /** `OCSPServer.Set`. */
  method SetOCSPServer(o: seq<Bytes>, c: X509.Certificate)
    modifies c`ocspServer
    ensures c.ocspServer == o
  {
    c.ocspServer := o;
  }

  /** `IssuingCertificateURL.Set`. */
  method SetIssuingCertificateURL(u: seq<Bytes>, c: X509.Certificate)
    modifies c`issuingCertificateURL
    ensures c.issuingCertificateURL == u
  {
    c.issuingCertificateURL := u;
  }

  /** `CRLDistributionPoints.Set`. */
  method SetCRLDistributionPoints(u: seq<Bytes>, c: X509.Certificate)
    modifies c`crlDistributionPoints
    ensures c.crlDistributionPoints == u
  {
    c.crlDistributionPoints := u;
  }

  /** `PolicyIdentifiers.Set`. */
  method SetPolicyIdentifiers(p: seq<Oid>, c: X509.Certificate)
    modifies c`policyIdentifiers
    ensures c.policyIdentifiers == p
  {
    c.policyIdentifiers := p;
  }

  // ---------------------------------------------------------------------
  // Subject alternative names on the certificate

  /** `SubjectAlternativeName`: a type tag and a value. */
  datatype SubjectAlternativeName = SubjectAlternativeName(typ: Bytes, value: Bytes)

  const AutoType: Bytes := Word("auto")
  const EmailType: Bytes := Word("email")
  const DNSType: Bytes := Word("dns")
  const X400AddressType: Bytes := Ascii("x400Address")
  const DirectoryNameType: Bytes := Word("dn")
  const EDIPartyNameType: Bytes := Ascii("ediPartyName")
  const URIType: Bytes := Word("uri")
  const IPType: Bytes := Word("ip")
  const RegisteredIDType: Bytes := Ascii("registeredID")

  function OptionList<T>(o: Option<T>): (r: seq<T>)
    ensures |r| <= 1
  {
    if o.None? then [] else [o.value]
  }

  /** The type tags `SubjectAlternativeName.Set` accepts, after lower-casing. */
  predicate SetType(t: Bytes) {
    t == DNSType || t == EmailType || t == IPType || t == URIType || t == [] || t == AutoType
  }

  /** What `SubjectAlternativeName.Set` appends to the DNS names, IP
      addresses, email addresses and URIs (in `SplitSANs` order); none
      where it panics. */
  function SanAdditions(san: SubjectAlternativeName, p: Env): (r: Option<Split>)
    ensures r.Some? <==> SetType(ToLower(san.typ))
  {
    var t := ToLower(san.typ);
    if t == DNSType then Some(Split([san.value], [], [], []))
    else if t == EmailType then Some(Split([], [], [san.value], []))
    else if t == IPType then Some(Split([], OptionList(p.parseIP(san.value)), [], []))
    else if t == URIType then Some(Split([], [], [], OptionList(p.parseURL(san.value))))
    else if t == [] || t == AutoType then Some(p.splitSANs(san.value))
    else None
  }

  /** The typed cases add exactly one value to their own list, or nothing
      when the address or URL does not parse. */
  lemma SanAdditionsTyped(san: SubjectAlternativeName, p: Env)
    ensures ToLower(san.typ) == DNSType ==> SanAdditions(san, p) == Some(Split([san.value], [], [], []))
    ensures ToLower(san.typ) == EmailType ==> SanAdditions(san, p) == Some(Split([], [], [san.value], []))
    ensures ToLower(san.typ) == IPType ==>
      SanAdditions(san, p).value.ips == (if p.parseIP(san.value).Some? then [p.parseIP(san.value).value] else []) &&
      SanAdditions(san, p).value.dnsNames == SanAdditions(san, p).value.emails == [] &&
      SanAdditions(san, p).value.uris == []
    ensures ToLower(san.typ) == URIType ==>
      SanAdditions(san, p).value.uris == (if p.parseURL(san.value).Some? then [p.parseURL(san.value).value] else []) &&
      SanAdditions(san, p).value.dnsNames == SanAdditions(san, p).value.emails == [] &&
      SanAdditions(san, p).value.ips == []
  {
    AsciiInjective("dns", "uri");
  }

  /** `\u0130p`, spelt with the dotted capital I, is the `ip` type. */
  lemma DottedCapitalISelectsIp(san: SubjectAlternativeName, p: Env)
    requires san.typ == DottedCapitalI + [0x70]
    ensures SanAdditions(san, p) == Some(Split([], OptionList(p.parseIP(san.value)), [], []))
  {
    assert san.typ[2..] == [0x70];
    assert ToLower(san.typ) == [0x69, 0x70];
  }

  /** `registeredID` and object-identifier type tags, which the DER encoder
      handles, make `SubjectAlternativeName.Set` panic. */
  lemma SanSetRejectsEncoderTypes(san: SubjectAlternativeName, p: Env)
    requires san.typ == RegisteredIDType || Oids.Parse(san.typ).Some?
    ensures SanAdditions(san, p).None?
  {
    if san.typ == RegisteredIDType {
      ToLowerAscii(san.typ);
      assert |ToLower(san.typ)| == 12;
    } else {
      OidTypeLowered(san.typ);
    }
  }

  /** An object-identifier type starts with a digit, which lowering keeps,
      so it is none of the types `Set` accepts. */
  lemma OidTypeLowered(typ: Bytes)
    requires Oids.Parse(typ).Some?
    ensures !SetType(ToLower(typ))
  {
    var k := Oids.DotIndex(typ);
    assert Oids.IsArc(typ[..k]);
    assert Numerals.IsDigit(typ[0], 10) by {
      assert typ[..k][0] == typ[0];
    }
    ToLowerHead(typ);
    var t := ToLower(typ);
    assert t[0] == typ[0];
    assert t != [] && t[0] !in {0x61 as byte, 0x64, 0x65, 0x69, 0x75};
  }

  /** `SubjectAlternativeName.Set`: appends to the certificate's lists,
      keeping their earlier elements; on an unknown type it panics, which
      the model reports as `false` with nothing changed. */
  method SetSAN(san: SubjectAlternativeName, c: X509.Certificate, p: Env) returns (ok: bool)
    modifies c`dnsNames, c`emailAddresses, c`ipAddresses, c`uris
    ensures ok <==> SanAdditions(san, p).Some?
    ensures ok ==> var a := SanAdditions(san, p).value;
      c.dnsNames == old(c.dnsNames) + a.dnsNames &&
      c.emailAddresses == old(c.emailAddresses) + a.emails &&
      c.ipAddresses == old(c.ipAddresses) + a.ips &&
      c.uris == old(c.uris) + a.uris
    ensures !ok ==> (c.dnsNames == old(c.dnsNames) && c.emailAddresses == old(c.emailAddresses) &&
      c.ipAddresses == old(c.ipAddresses) && c.uris == old(c.uris))
  {
    var t := ToLower(san.typ);
    ok := true;
    if t == DNSType {
      c.dnsNames := c.dnsNames + [san.value];
    } else if t == EmailType {
      c.emailAddresses := c.emailAddresses + [san.value];
    } else if t == IPType {
      var ip := p.parseIP(san.value);
      if ip.Some? {
        c.ipAddresses := c.ipAddresses + [ip.value];
      }
    } else if t == URIType {
      var u := p.parseURL(san.value);
      if u.Some? {
        c.uris := c.uris + [u.value];
      }
    } else if t == [] || t == AutoType {
      var split := p.splitSANs(san.value);
      c.dnsNames := c.dnsNames + split.dnsNames;
      c.ipAddresses := c.ipAddresses + split.ips;
      c.emailAddresses := c.emailAddresses + split.emails;
      c.uris := c.uris + split.uris;
    } else {
      ok := false;
    }
  }

  /** The four lists extended field by field. */
  function Extend(a: Split, b: Split): Split {
    Split(a.dnsNames + b.dnsNames, a.ips + b.ips, a.emails + b.emails, a.uris + b.uris)
  }

  /** The lists after `Set` of each SAN in turn; the first panicking SAN
      stops the assembly. */
  function ApplySANs(lists: Split, sans: seq<SubjectAlternativeName>, p: Env): Result<Split, Error>
    decreases |sans|
  {
    if sans == [] then Ok(lists)
    else match SanAdditions(sans[0], p)
      case None => Err(SANTypePanic(sans[0].typ))
      case Some(a) => ApplySANs(Extend(lists, a), sans[1..], p)
  }

  /** Applying SANs only appends: the starting lists are prefixes of the
      result, and the result fails exactly at a SAN of unknown type. */
  lemma {:induction false} ApplySANsExtends(lists: Split, sans: seq<SubjectAlternativeName>, p: Env)
    ensures ApplySANs(lists, sans, p).Ok? <==>
      forall i | 0 <= i < |sans| :: SanAdditions(sans[i], p).Some?
    ensures ApplySANs(lists, sans, p).Ok? ==>
      var r := ApplySANs(lists, sans, p).value;
      lists.dnsNames <= r.dnsNames && lists.ips <= r.ips &&
      lists.emails <= r.emails && lists.uris <= r.uris
    decreases |sans|
  {
    if sans != [] {
      match SanAdditions(sans[0], p)
      case None =>
      case Some(a) =>
        ApplySANsExtends(Extend(lists, a), sans[1..], p);
        assert forall i | 1 <= i < |sans| :: sans[i] == sans[1..][i - 1];
    }
  }

  /** With only DNS-typed SANs, their values follow the starting DNS names
      in order. */
  lemma {:induction false} ApplyDnsSANs(lists: Split, sans: seq<SubjectAlternativeName>, p: Env)
    requires forall i | 0 <= i < |sans| :: ToLower(sans[i].typ) == DNSType
    ensures ApplySANs(lists, sans, p) ==
      Ok(lists.(dnsNames := lists.dnsNames + seq(|sans|, i requires 0 <= i < |sans| => sans[i].value)))
    decreases |sans|
  {
    if sans != [] {
      var l2 := Extend(lists, Split([sans[0].value], [], [], []));
      SanAdditionsTyped(sans[0], p);
      assert SanAdditions(sans[0], p) == Some(Split([sans[0].value], [], [], []));
      assert ApplySANs(lists, sans, p) == ApplySANs(l2, sans[1..], p);
      assert forall i | 0 <= i < |sans[1..]| :: sans[1..][i] == sans[i + 1];
      ApplyDnsSANs(l2, sans[1..], p);
      var vs := seq(|sans|, i requires 0 <= i < |sans| => sans[i].value);
      var vs' := seq(|sans| - 1, i requires 0 <= i < |sans| - 1 => sans[1..][i].value);
      assert vs == [sans[0].value] + vs';
      assert l2.dnsNames + vs' == lists.dnsNames + vs;
      assert l2.ips == lists.ips && l2.emails == lists.emails && l2.uris == lists.uris;
      assert l2.(dnsNames := l2.dnsNames + vs') == lists.(dnsNames := lists.dnsNames + vs);
    } else {
      var vs := seq(|sans|, i requires 0 <= i < |sans| => sans[i].value);
      assert vs == [];
      assert lists.(dnsNames := lists.dnsNames + vs) == lists;
    }
  }

  // ---------------------------------------------------------------------
  // Basic and name constraints

  /** `BasicConstraints`. */
  datatype BasicConstraints = BasicConstraints(isCA: bool, maxPathLen: int)

  /** The `MaxPathLen` and `MaxPathLenZero` pair `BasicConstraints.Set`
      writes. */
  function PathLenFields(b: BasicConstraints): (r: (int, bool))
    ensures !b.isCA ==> r == (0, false)
    ensures b.isCA && b.maxPathLen == 0 ==> r == (0, true)
    ensures b.isCA && b.maxPathLen < 0 ==> r == (-1, false)
    ensures b.isCA && b.maxPathLen > 0 ==> r == (b.maxPathLen, false)
  {
    if b.isCA then
      if b.maxPathLen == 0 then (0, true)
      else if b.maxPathLen < 0 then (-1, false)
      else (b.maxPathLen, false)
    else (0, false)
  }

  /** The path length constraint `crypto/x509` writes into the basic
      constraints extension for the two fields: a zero without
      `MaxPathLenZero` means no limit, and -1 is omitted as the default. */
  function EncodedPathLen(maxPathLen: int, maxPathLenZero: bool): Option<int> {
    var m := if maxPathLen == 0 && !maxPathLenZero then -1 else maxPathLen;
    if m == -1 then None else Some(m)
  }

  /** What the fields mean is what the template says: a CA with a
      non-negative `maxPathLen` is limited to that depth, any other template
      gets no limit. */
  lemma BasicConstraintsMeaning(b: BasicConstraints)
    ensures EncodedPathLen(PathLenFields(b).0, PathLenFields(b).1) ==
      (if b.isCA && b.maxPathLen >= 0 then Some(b.maxPathLen) else None)
  {
  }

  /** `BasicConstraints.Set`. */
  method SetBasicConstraints(b: BasicConstraints, c: X509.Certificate)
    modifies c`basicConstraintsValid, c`isCA, c`maxPathLen, c`maxPathLenZero
    ensures c.basicConstraintsValid && c.isCA == b.isCA
    ensures (c.maxPathLen, c.maxPathLenZero) == PathLenFields(b)
  {
    c.basicConstraintsValid := true;
    c.isCA := b.isCA;
    if c.isCA {
      if b.maxPathLen == 0 {
        c.maxPathLen := 0;
        c.maxPathLenZero := true;
      } else if b.maxPathLen < 0 {
        c.maxPathLen := -1;
        c.maxPathLenZero := false;
      } else {
        c.maxPathLen := b.maxPathLen;
        c.maxPathLenZero := false;
      }
    } else {
      c.maxPathLen := 0;
      c.maxPathLenZero := false;
    }
  }

  /** `NameConstraints`. */
  datatype NameConstraints = NameConstraints(
    critical: bool,
    permittedDNSDomains: seq<Bytes>,
    excludedDNSDomains: seq<Bytes>,
    permittedIPRanges: seq<X509.IPNet>,
    excludedIPRanges: seq<X509.IPNet>,
    permittedEmailAddresses: seq<Bytes>,
    excludedEmailAddresses: seq<Bytes>,
    permittedURIDomains: seq<Bytes>,
    excludedURIDomains: seq<Bytes>)

  /** `NameConstraints.Set`: copies every constraint list and the
      criticality. */
  method SetNameConstraints(n: NameConstraints, c: X509.Certificate)
    modifies c`permittedDNSDomainsCritical, c`permittedDNSDomains, c`excludedDNSDomains,
      c`permittedIPRanges, c`excludedIPRanges, c`permittedEmailAddresses,
      c`excludedEmailAddresses, c`permittedURIDomains, c`excludedURIDomains
    ensures c.permittedDNSDomainsCritical == n.critical
    ensures c.permittedDNSDomains == n.permittedDNSDomains && c.excludedDNSDomains == n.excludedDNSDomains
    ensures c.permittedIPRanges == n.permittedIPRanges && c.excludedIPRanges == n.excludedIPRanges
    ensures c.permittedEmailAddresses == n.permittedEmailAddresses
    ensures c.excludedEmailAddresses == n.excludedEmailAddresses
    ensures c.permittedURIDomains == n.permittedURIDomains && c.excludedURIDomains == n.excludedURIDomains
  {
    c.permittedDNSDomainsCritical := n.critical;
    c.permittedDNSDomains := n.permittedDNSDomains;
    c.excludedDNSDomains := n.excludedDNSDomains;
    c.permittedIPRanges := n.permittedIPRanges;
    c.excludedIPRanges := n.excludedIPRanges;
    c.permittedEmailAddresses := n.permittedEmailAddresses;
    c.excludedEmailAddresses := n.excludedEmailAddresses;
    c.permittedURIDomains := n.permittedURIDomains;
    c.excludedURIDomains := n.excludedURIDomains;
  }

  /** `SerialNumber.Set`: a nil serial stays nil. */
  method SetSerialNumber(s: Option<int>, c: X509.Certificate)
    modifies c`serialNumber
    ensures c.serialNumber == s
  {
    c.serialNumber := s;
  }

  /** The `x509.SignatureAlgorithm` a template's algorithm stands for. */
  function SignatureAlgorithmOf(s: nat, p: Env): nat {
    p.signatureAlgorithm(s)
  }

  /** `SignatureAlgorithm.Set`, through the collaborator that maps the
      template's algorithm to Go's. */
  method SetSignatureAlgorithm(s: nat, c: X509.Certificate, p: Env)
    modifies c`signatureAlgorithm
    ensures c.signatureAlgorithm == SignatureAlgorithmOf(s, p)
  {
    c.signatureAlgorithm := SignatureAlgorithmOf(s, p);
  }
}
