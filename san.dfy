/** The hand-built Subject Alternative Name extension of
    x509util/extensions.go (`createSubjectAltNameExtension`): the template's
    SANs and address lists become GeneralNames (section 4.2.1.6 of RFC 5280),
    DER-encoded as a SEQUENCE under OID 2.5.29.17. A decoder for that
    encoding is given as the encoder's partner. */
module SanEncoder {
  import opened Base
  import opened Numerals
  import opened Der
  import Oids
  import X509
  import opened Collaborators
  import opened Extensions
  import Certificates

  /** The `id-ce-subjectAltName` extension OID, 2.5.29.17. */
  const SubjectAlternativeNameOid: Oid := [2, 5, 29, 17]

  // ---------------------------------------------------------------------
  // GeneralNames and their DER encoding

  /** The value an otherName carries, in one of the ASN.1 types Go's
      marshaller supports. */
  datatype OtherValue =
    | IntegerValue(i: int)
    | OidValue(o: Oid)
    | StringValue(kind: StringKind, s: Bytes)

  /** The GeneralName alternatives the encoder emits (section 4.2.1.6 of
      RFC 5280): `[0]` otherName, `[1]` rfc822Name, `[2]` dNSName, `[6]`
      uniformResourceIdentifier, `[7]` iPAddress and `[8]` registeredID. */
  datatype GeneralName =
    | OtherName(typeId: Oid, value: OtherValue)
    | Rfc822Name(name: Bytes)
    | DnsName(name: Bytes)
    | Uri(name: Bytes)
    | IPAddress(octets: Bytes)
    | RegisteredId(id: Oid)

  /** Every identifier in the name is one DER can encode. */
  predicate OidsEncodable(g: GeneralName) {
    match g
    case OtherName(t, v) => Encodable(t) && (v.OidValue? ==> Encodable(v.o))
    case RegisteredId(o) => Encodable(o)
    case _ => true
  }

  /** The universal tag of each string type. */
  function StringTag(k: StringKind): (t: byte)
    ensures t != TagInteger && t != TagOid
  {
    match k
    case Utf8 => TagUtf8String
    case IA5 => TagIA5String
    case Numeric => TagNumericString
    case Printable => TagPrintableString
  }

  /** `asn1.Marshal` of the otherName value: a complete TLV. */
  function EncodeOtherValue(v: OtherValue): Bytes
    requires v.OidValue? ==> Encodable(v.o)
  {
    match v
    case IntegerValue(i) => Tlv(TagInteger, IntContent(i))
    case OidValue(o) => Tlv(TagOid, OidContent(o))
    case StringValue(k, s) => Tlv(StringTag(k), s)
  }

  /** The identifier octet and contents octets of a GeneralName. The string
      and address alternatives are primitive context-specific values over
      the bytes; registeredID is the OID contents under `[8]`; otherName is
      `[0] { OID, [0] { value } }`, as the `OtherName` struct marshals. */
  function NameItem(g: GeneralName): (byte, Bytes)
    requires OidsEncodable(g)
  {
    match g
    case OtherName(t, v) =>
      (ContextTag(0, true), Tlv(TagOid, OidContent(t)) + Tlv(ContextTag(0, true), EncodeOtherValue(v)))
    case Rfc822Name(n) => (ContextTag(1, false), n)
    case DnsName(n) => (ContextTag(2, false), n)
    case Uri(n) => (ContextTag(6, false), n)
    case IPAddress(o) => (ContextTag(7, false), o)
    case RegisteredId(o) => (ContextTag(8, false), OidContent(o))
  }

  function NameItems(gs: seq<GeneralName>): (r: seq<(byte, Bytes)>)
    requires forall i | 0 <= i < |gs| :: OidsEncodable(gs[i])
    ensures |r| == |gs|
    ensures forall i | 0 <= i < |gs| :: r[i] == NameItem(gs[i])
  {
    seq(|gs|, i requires 0 <= i < |gs| && OidsEncodable(gs[i]) => NameItem(gs[i]))
  }

  /** `asn1.Marshal(rawValues)`: a SEQUENCE of the GeneralNames in order. */
  function EncodeGeneralNames(gs: seq<GeneralName>): Bytes
    requires forall i | 0 <= i < |gs| :: OidsEncodable(gs[i])
  {
    Tlv(TagSequence, Tlvs(NameItems(gs)))
  }

  // ---------------------------------------------------------------------
  // Decoding, the encoder's partner

  function DecodeOtherValue(b: Bytes): Option<OtherValue> {
    match ParseTlv(b)
    case None => None
    case Some((tag, c, rest)) =>
      if rest != [] then None
      else if tag == TagInteger then (if |c| > 0 then Some(IntegerValue(IntValue(c))) else None)
      else if tag == TagOid then
        (match ParseOidContent(c)
         case None => None
         case Some(o) => Some(OidValue(o)))
      else if tag == TagUtf8String then Some(StringValue(Utf8, c))
      else if tag == TagIA5String then Some(StringValue(IA5, c))
      else if tag == TagNumericString then Some(StringValue(Numeric, c))
      else if tag == TagPrintableString then Some(StringValue(Printable, c))
      else None
  }

  /** The contents of an otherName: the type OID, then the `[0]` value. */
  function DecodeOtherName(c: Bytes): Option<GeneralName> {
    match ParseTlv(c)
    case None => None
    case Some((tag, oc, rest)) =>
      if tag != TagOid then None
      else
        match ParseOidContent(oc)
        case None => None
        case Some(t) =>
          match ParseTlv(rest)
          case None => None
          case Some((tag2, inner, rest2)) =>
            if tag2 != ContextTag(0, true) || rest2 != [] then None
            else
              match DecodeOtherValue(inner)
              case None => None
              case Some(v) => Some(OtherName(t, v))
  }

  function DecodeName(item: (byte, Bytes)): Option<GeneralName> {
    var (tag, c) := item;
    if tag == ContextTag(0, true) then DecodeOtherName(c)
    else if tag == ContextTag(1, false) then Some(Rfc822Name(c))
    else if tag == ContextTag(2, false) then Some(DnsName(c))
    else if tag == ContextTag(6, false) then Some(Uri(c))
    else if tag == ContextTag(7, false) then Some(IPAddress(c))
    else if tag == ContextTag(8, false) then
      (match ParseOidContent(c)
       case None => None
       case Some(o) => Some(RegisteredId(o)))
    else None
  }

  function DecodeNames(items: seq<(byte, Bytes)>): Option<seq<GeneralName>>
    decreases |items|
  {
    if items == [] then Some([])
    else
      match DecodeName(items[0])
      case None => None
      case Some(g) =>
        match DecodeNames(items[1..])
        case None => None
        case Some(gs) => Some([g] + gs)
  }

  /** A SEQUENCE OF GeneralName, the whole input consumed. */
  function ParseGeneralNames(b: Bytes): Option<seq<GeneralName>> {
    match ParseTlv(b)
    case None => None
    case Some((tag, c, rest)) =>
      if tag != TagSequence || rest != [] then None
      else
        match ParseTlvs(c)
        case None => None
        case Some(items) => DecodeNames(items)
  }

  lemma OtherValueRoundTrip(v: OtherValue)
    requires v.OidValue? ==> Encodable(v.o)
    requires |EncodeOtherValue(v)| < LengthBound
    ensures DecodeOtherValue(EncodeOtherValue(v)) == Some(v)
  {
    match v
    case IntegerValue(i) => IntegerRoundTrip(i);
    case OidValue(o) => OidValueRoundTrip(o);
    case StringValue(k, s) => StringRoundTrip(k, s);
  }

  lemma IntegerRoundTrip(i: int)
    requires |Tlv(TagInteger, IntContent(i))| < LengthBound
    ensures DecodeOtherValue(Tlv(TagInteger, IntContent(i))) == Some(IntegerValue(i))
  {
    var b := Tlv(TagInteger, IntContent(i));
    assert b + [] == b;
    TlvRoundTrip(TagInteger, IntContent(i), []);
    IntRoundTrip(i);
  }

  lemma OidValueRoundTrip(o: Oid)
    requires Encodable(o) && |Tlv(TagOid, OidContent(o))| < LengthBound
    ensures DecodeOtherValue(Tlv(TagOid, OidContent(o))) == Some(OidValue(o))
  {
    var b := Tlv(TagOid, OidContent(o));
    assert b + [] == b;
    TlvRoundTrip(TagOid, OidContent(o), []);
    OidContentRoundTrip(o);
  }

  lemma StringRoundTrip(k: StringKind, s: Bytes)
    requires |Tlv(StringTag(k), s)| < LengthBound
    ensures DecodeOtherValue(Tlv(StringTag(k), s)) == Some(StringValue(k, s))
  {
    var b := Tlv(StringTag(k), s);
    assert b + [] == b;
    TlvRoundTrip(StringTag(k), s, []);
  }

  lemma OtherNameRoundTrip(t: Oid, v: OtherValue)
    requires OidsEncodable(OtherName(t, v))
    requires |NameItem(OtherName(t, v)).1| < LengthBound
    ensures DecodeOtherName(NameItem(OtherName(t, v)).1) == Some(OtherName(t, v))
  {
    var oc := OidContent(t);
    var inner := EncodeOtherValue(v);
    assert |oc| < LengthBound && |inner| < LengthBound;
    OidContentRoundTrip(t);
    OtherValueRoundTrip(v);
    DecodeOtherNameOf(oc, inner, t, v);
  }

  /** The two TLVs of an otherName decode to their parts. */
  lemma DecodeOtherNameOf(oc: Bytes, inner: Bytes, t: Oid, v: OtherValue)
    requires |oc| < LengthBound && |inner| < LengthBound
    requires ParseOidContent(oc) == Some(t) && DecodeOtherValue(inner) == Some(v)
    ensures DecodeOtherName(Tlv(TagOid, oc) + Tlv(ContextTag(0, true), inner)) == Some(OtherName(t, v))
  {
    var second := Tlv(ContextTag(0, true), inner);
    TlvRoundTrip(TagOid, oc, second);
    assert second + [] == second;
    TlvRoundTrip(ContextTag(0, true), inner, []);
  }

  lemma NameRoundTrip(g: GeneralName)
    requires OidsEncodable(g)
    requires |NameItem(g).1| < LengthBound
    ensures DecodeName(NameItem(g)) == Some(g)
  {
    match g
    case OtherName(t, v) => OtherNameRoundTrip(t, v);
    case RegisteredId(o) => OidContentRoundTrip(o);
    case _ =>
  }

  lemma {:induction false} NamesRoundTrip(gs: seq<GeneralName>)
    requires forall i | 0 <= i < |gs| :: OidsEncodable(gs[i])
    requires forall i | 0 <= i < |gs| :: |NameItem(gs[i]).1| < LengthBound
    ensures DecodeNames(NameItems(gs)) == Some(gs)
    decreases |gs|
  {
    if gs != [] {
      var items := NameItems(gs);
      NameRoundTrip(gs[0]);
      assert items[1..] == NameItems(gs[1..]);
      NamesRoundTrip(gs[1..]);
      DecodeNamesCons(items, gs[0], gs[1..]);
      assert [gs[0]] + gs[1..] == gs;
    }
  }

  lemma DecodeNamesCons(items: seq<(byte, Bytes)>, g: GeneralName, rest: seq<GeneralName>)
    requires items != [] && DecodeName(items[0]) == Some(g) && DecodeNames(items[1..]) == Some(rest)
    ensures DecodeNames(items) == Some([g] + rest)
  {
  }

  /** Every element's contents are shorter than the whole sequence. */
  lemma {:induction false} TlvsBound(items: seq<(byte, Bytes)>, i: nat)
    requires i < |items|
    ensures |items[i].1| < |Tlvs(items)|
    decreases |items|
  {
    if i > 0 {
      TlvsBound(items[1..], i - 1);
    }
  }

  /** Decoding the encoding gives back the names, in order, when the
      encoding has a length DER can state. */
  lemma GeneralNamesRoundTrip(gs: seq<GeneralName>)
    requires forall i | 0 <= i < |gs| :: OidsEncodable(gs[i])
    requires |EncodeGeneralNames(gs)| < LengthBound
    ensures ParseGeneralNames(EncodeGeneralNames(gs)) == Some(gs)
  {
    var items := NameItems(gs);
    var b := EncodeGeneralNames(gs);
    assert b + [] == b;
    TlvRoundTrip(TagSequence, Tlvs(items), []);
    forall i | 0 <= i < |items| ensures |items[i].1| < LengthBound {
      TlvsBound(items, i);
    }
    TlvsRoundTrip(items);
    NamesRoundTrip(gs);
  }

  // ---------------------------------------------------------------------
  // From a template SAN to a GeneralName

  const IntKind: Bytes := Ascii("int")
  const OidKind: Bytes := Ascii("oid")
  const Utf8Kind: Bytes := Ascii("utf8")
  const IA5Kind: Bytes := Ascii("ia5")
  const NumericKind: Bytes := Ascii("numeric")
  const PrintableKind: Bytes := Ascii("printable")

  /** The index of the first `;`, or `|s|`. */
  function SemicolonIndex(s: Bytes): (k: nat)
    ensures k <= |s|
    ensures Semicolon !in s[..k]
    ensures k < |s| ==> s[k] == Semicolon
    ensures Semicolon !in s ==> k == |s|
    decreases |s|
  {
    if s == [] || s[0] == Semicolon then 0
    else
      var k := 1 + SemicolonIndex(s[1..]);
      assert s[..k] == [s[0]] + s[1..][..k - 1];
      k
  }

  /** The kind and payload of an otherName value: the text before the
      first `;` and the text after it, or `printable` and the whole value
      when there is no `;`. */
  function SplitValue(v: Bytes): (r: (Bytes, Bytes))
    ensures Semicolon !in v ==> r == (PrintableKind, v)
    ensures Semicolon in v ==> Semicolon !in r.0 && r.0 + [Semicolon] + r.1 == v
  {
    var k := SemicolonIndex(v);
    if k == |v| then (PrintableKind, v)
    else
      assert v[..k] + [Semicolon] + v[k + 1..] == v;
      (v[..k], v[k + 1..])
  }

  /** The PrintableString alphabet of ITU-T X.680 as Go's marshaller
      checks it: letters, digits, space and `'()+,-./:=?`, and also `*`. */
  predicate PrintableChar(b: byte) {
    (0x61 <= b <= 0x7A) || (0x41 <= b <= 0x5A) || (0x30 <= b <= 0x39) ||
    (0x27 <= b <= 0x29) || (0x2B <= b <= 0x2F) ||
    b == 0x20 || b == 0x3A || b == 0x3D || b == 0x3F || b == 0x2A
  }

  /** The NumericString alphabet: digits and space. */
  predicate NumericChar(b: byte) {
    (0x30 <= b <= 0x39) || b == 0x20
  }

  /** Whether the bytes can be marshalled as the string type: any ASCII for
      an IA5String, and the alphabets above for the other two. */
  predicate ValidString(k: StringKind, s: Bytes, p: Env) {
    match k
    case Utf8 => p.validUtf8(s)
    case IA5 => IsAscii(s)
    case Numeric => forall i | 0 <= i < |s| :: NumericChar(s[i])
    case Printable => forall i | 0 <= i < |s| :: PrintableChar(s[i])
  }

  /** `asn1.MarshalWithParams(s, kind)`: fails when the bytes are not in
      the string type's character set. */
  function MarshalString(k: StringKind, s: Bytes, p: Env): (r: Result<OtherValue, Error>)
    ensures r.Ok? <==> ValidString(k, s, p)
    ensures r.Ok? ==> r.value == StringValue(k, s)
    ensures r.Err? ==> r.error == MarshalFailure
  {
    if ValidString(k, s, p) then Ok(StringValue(k, s)) else Err(MarshalFailure)
  }

  /** A `;` is never part of a PrintableString. */
  lemma SemicolonNotPrintable(s: Bytes, p: Env)
    requires Semicolon in s
    ensures MarshalString(Printable, s, p) == Err(MarshalFailure)
  {
    var i :| 0 <= i < |s| && s[i] == Semicolon;
    assert !PrintableChar(s[i]);
  }

  /** The otherName value a SAN's value stands for. `int` payloads go
      through `strconv.Atoi`, `oid` payloads through `parseObjectIdentifier`
      and the DER encoder; the four string kinds encode the payload; an
      unknown kind encodes the whole value as a PrintableString. */
  function OtherNameValue(sanType: Bytes, v: Bytes, p: Env): (r: Result<OtherValue, Error>)
    ensures r.Ok? && r.value.OidValue? ==> Encodable(r.value.o)
    ensures r.Err? ==>
      r.error == InvalidOtherNameInt(sanType) || r.error == InvalidOtherNameOid(sanType) ||
      r.error == MarshalFailure
  {
    var (kind, payload) := SplitValue(v);
    if kind == IntKind then
      (match ParseInt(payload)
       case None => Err(InvalidOtherNameInt(sanType))
       case Some(i) => Ok(IntegerValue(i)))
    else if kind == OidKind then
      (match Oids.Parse(payload)
       case None => Err(InvalidOtherNameOid(sanType))
       case Some(o) => if Encodable(o) then Ok(OidValue(o)) else Err(MarshalFailure))
    else if kind == Utf8Kind then MarshalString(Utf8, payload, p)
    else if kind == IA5Kind then MarshalString(IA5, payload, p)
    else if kind == NumericKind then MarshalString(Numeric, payload, p)
    else if kind == PrintableKind then MarshalString(Printable, payload, p)
    else MarshalString(Printable, v, p)
  }

  /** The octets of an IP SAN: the 4-octet form, the last four octets,
      when there is one. */
  function IPOctets(ip: X509.IP): (r: Bytes)
    ensures X509.To4(ip).Some? ==> |ip.octets| >= 4 && r == ip.octets[|ip.octets| - 4..]
    ensures X509.To4(ip).None? ==> r == ip.octets
  {
    match X509.To4(ip)
    case Some(o) => o
    case None => ip.octets
  }

  /** The type tags with a case of their own in the encoder's switch. */
  predicate KnownType(t: Bytes) {
    t == EmailType || t == DNSType || t == X400AddressType || t == DirectoryNameType ||
    t == EDIPartyNameType || t == URIType || t == IPType || t == RegisteredIDType || t == []
  }

  /** The identifiers a SAN names are ones DER can encode. Go discards the
      marshalling error of a registeredID and of an otherName type OID, so
      the encoding of any other identifier is outside the model. */
  predicate DerReady(san: SubjectAlternativeName) {
    (san.typ == RegisteredIDType && Oids.Parse(san.value).Some? ==> Encodable(Oids.Parse(san.value).value)) &&
    (!KnownType(san.typ) && Oids.Parse(san.typ).Some? ==> Encodable(Oids.Parse(san.typ).value))
  }

  /** One case of the encoder's switch: an error, nothing (a dropped SAN),
      or the GeneralName to emit. Type tags are compared exactly. */
  function ToGeneralName(san: SubjectAlternativeName, p: Env): (r: Result<Option<GeneralName>, Error>)
    ensures DerReady(san) && r.Ok? && r.value.Some? ==> OidsEncodable(r.value.value)
  {
    var t := san.typ;
    if t == EmailType then Ok(Some(Rfc822Name(san.value)))
    else if t == DNSType then Ok(Some(DnsName(san.value)))
    else if t == X400AddressType || t == DirectoryNameType || t == EDIPartyNameType then
      Err(UnimplementedSANType(t))
    else if t == URIType then Ok(Some(Uri(san.value)))
    else if t == IPType then
      (match p.parseIP(san.value)
       case None => Ok(None)
       case Some(ip) => Ok(Some(IPAddress(IPOctets(ip)))))
    else if t == RegisteredIDType then
      if san.value == [] then Ok(None)
      else
        (match Oids.Parse(san.value)
         case None => Ok(None)
         case Some(o) => Ok(Some(RegisteredId(o))))
    else if t == [] then Ok(None)
    else
      match Oids.Parse(t)
      case None => Err(UnsupportedSANType(t))
      case Some(o) =>
        match OtherNameValue(t, san.value, p)
        case Err(e) => Err(e)
        case Ok(v) => Ok(Some(OtherName(o, v)))
  }

  /** The switch over a whole list: the emitted names in order, or the
      error of the first SAN that fails. */
  function ToGeneralNames(sans: seq<SubjectAlternativeName>, p: Env): (r: Result<seq<GeneralName>, Error>)
    ensures (forall i | 0 <= i < |sans| :: DerReady(sans[i])) && r.Ok? ==>
      forall j | 0 <= j < |r.value| :: OidsEncodable(r.value[j])
    ensures r.Ok? ==> |r.value| <= |sans|
    decreases |sans|
  {
    if sans == [] then Ok([])
    else
      var init := sans[..|sans| - 1];
      assert forall i | 0 <= i < |init| :: init[i] == sans[i];
      var x, y := ToGeneralNames(init, p), Emitted(ToGeneralName(sans[|sans| - 1], p));
      ThenEncodable(x, y);
      Then(x, y)
  }

  /** What one case of the switch adds to `rawValues`. */
  function Emitted(r: Result<Option<GeneralName>, Error>): (e: Result<seq<GeneralName>, Error>)
    ensures r.Err? ==> e == Err(r.error)
    ensures r == Ok(None) ==> e == Ok([])
    ensures r.Ok? && r.value.Some? ==> e == Ok([r.value.value])
  {
    match r
    case Err(e) => Err(e)
    case Ok(None) => Ok([])
    case Ok(Some(g)) => Ok([g])
  }

  /** Running two lists one after the other: the first error, or both
      results concatenated. */
  function Then(x: Result<seq<GeneralName>, Error>, y: Result<seq<GeneralName>, Error>): (r: Result<seq<GeneralName>, Error>)
    ensures x.Err? ==> r == x
    ensures x.Ok? && y.Err? ==> r == y
    ensures x.Ok? && y.Ok? ==> r == Ok(x.value + y.value)
  {
    match x
    case Err(e) => Err(e)
    case Ok(a) =>
      match y
      case Err(e) => Err(e)
      case Ok(b) => Ok(a + b)
  }

  /** Concatenating names ready for the encoder keeps them ready. */
  lemma ThenEncodable(x: Result<seq<GeneralName>, Error>, y: Result<seq<GeneralName>, Error>)
    ensures (x.Ok? && y.Ok? &&
             (forall i | 0 <= i < |x.value| :: OidsEncodable(x.value[i])) &&
             (forall i | 0 <= i < |y.value| :: OidsEncodable(y.value[i])))
      ==> forall i | 0 <= i < |Then(x, y).value| :: OidsEncodable(Then(x, y).value[i])
  {
    if x.Ok? && y.Ok? {
      var a, b := x.value, y.value;
      assert forall i | 0 <= i < |a + b| :: (a + b)[i] == if i < |a| then a[i] else b[i - |a|];
    }
  }

  lemma ThenAssoc(x: Result<seq<GeneralName>, Error>, y: Result<seq<GeneralName>, Error>, z: Result<seq<GeneralName>, Error>)
    ensures Then(Then(x, y), z) == Then(x, Then(y, z))
  {
    if x.Ok? && y.Ok? && z.Ok? {
      assert x.value + y.value + z.value == x.value + (y.value + z.value);
    }
  }

  // ---------------------------------------------------------------------
  // The working list and the extension

  function DnsSANs(ds: seq<Bytes>): (r: seq<SubjectAlternativeName>)
    ensures |r| == |ds| && forall i | 0 <= i < |ds| :: r[i] == SubjectAlternativeName(DNSType, ds[i])
  {
    seq(|ds|, i requires 0 <= i < |ds| => SubjectAlternativeName(DNSType, ds[i]))
  }

  function EmailSANs(es: seq<Bytes>): (r: seq<SubjectAlternativeName>)
    ensures |r| == |es| && forall i | 0 <= i < |es| :: r[i] == SubjectAlternativeName(EmailType, es[i])
  {
    seq(|es|, i requires 0 <= i < |es| => SubjectAlternativeName(EmailType, es[i]))
  }

  function UriSANs(us: seq<X509.URL>, p: Env): (r: seq<SubjectAlternativeName>)
    ensures |r| == |us| && forall i | 0 <= i < |us| :: r[i] == SubjectAlternativeName(URIType, p.urlString(us[i]))
  {
    seq(|us|, i requires 0 <= i < |us| => SubjectAlternativeName(URIType, p.urlString(us[i])))
  }

  function IpSANs(ips: seq<X509.IP>, p: Env): (r: seq<SubjectAlternativeName>)
    ensures |r| == |ips| && forall i | 0 <= i < |ips| :: r[i] == SubjectAlternativeName(IPType, p.ipString(ips[i]))
  {
    seq(|ips|, i requires 0 <= i < |ips| => SubjectAlternativeName(IPType, p.ipString(ips[i])))
  }

  /** `allSANs`: the explicit SANs, then the DNS names, email addresses,
      URIs and IP addresses of the template, in that order. */
  function AllSANs(t: Certificates.Template, p: Env): (r: seq<SubjectAlternativeName>)
    ensures |r| == |t.sans| + |t.dnsNames| + |t.emailAddresses| + |t.uris| + |t.ipAddresses|
    ensures r[..|t.sans|] == t.sans
  {
    t.sans + DnsSANs(t.dnsNames) + EmailSANs(t.emailAddresses) + UriSANs(t.uris, p) + IpSANs(t.ipAddresses, p)
  }

  /** Only the explicit SANs can name an identifier. */
  lemma AllSANsReady(t: Certificates.Template, p: Env)
    requires forall i | 0 <= i < |t.sans| :: DerReady(t.sans[i])
    ensures forall i | 0 <= i < |AllSANs(t, p)| :: DerReady(AllSANs(t, p)[i])
  {
  }

  /** What `createSubjectAltNameExtension` returns. */
  function SubjectAltNameExtension(t: Certificates.Template, p: Env): (r: Result<Extension, Error>)
    requires forall i | 0 <= i < |t.sans| :: DerReady(t.sans[i])
    ensures r.Ok? ==> r.value.id == SubjectAlternativeNameOid && !r.value.critical
    ensures r.Ok? <==> ToGeneralNames(AllSANs(t, p), p).Ok?
  {
    AllSANsReady(t, p);
    match ToGeneralNames(AllSANs(t, p), p)
    case Err(e) => Err(e)
    case Ok(gs) => Ok(Extension(SubjectAlternativeNameOid, false, EncodeGeneralNames(gs)))
  }

  /** The first part of `createSubjectAltNameExtension`: the working list
      built by appends. */
  method CollectSANs(t: Certificates.Template, p: Env) returns (all: seq<SubjectAlternativeName>)
    ensures all == AllSANs(t, p)
  {
    all := t.sans;
    for i := 0 to |t.dnsNames|
      invariant all == t.sans + DnsSANs(t.dnsNames[..i])
    {
      all := all + [SubjectAlternativeName(DNSType, t.dnsNames[i])];
    }
    assert t.dnsNames[..|t.dnsNames|] == t.dnsNames;
    var withDns := all;
    for i := 0 to |t.emailAddresses|
      invariant all == withDns + EmailSANs(t.emailAddresses[..i])
    {
      all := all + [SubjectAlternativeName(EmailType, t.emailAddresses[i])];
    }
    assert t.emailAddresses[..|t.emailAddresses|] == t.emailAddresses;
    var withEmails := all;
    for i := 0 to |t.uris|
      invariant all == withEmails + UriSANs(t.uris[..i], p)
    {
      all := all + [SubjectAlternativeName(URIType, p.urlString(t.uris[i]))];
    }
    assert t.uris[..|t.uris|] == t.uris;
    var withUris := all;
    for i := 0 to |t.ipAddresses|
      invariant all == withUris + IpSANs(t.ipAddresses[..i], p)
    {
      all := all + [SubjectAlternativeName(IPType, p.ipString(t.ipAddresses[i]))];
    }
    assert t.ipAddresses[..|t.ipAddresses|] == t.ipAddresses;
  }

  /** The second part: the switch applied to each SAN in turn, appending
      to `rawValues` and stopping at the first error. */
  method ConvertSANs(all: seq<SubjectAlternativeName>, p: Env) returns (r: Result<seq<GeneralName>, Error>)
    ensures r == ToGeneralNames(all, p)
  {
    var raw: seq<GeneralName> := [];
    for i := 0 to |all|
      invariant ToGeneralNames(all[..i], p) == Ok(raw)
    {
      ConvertStep(all, i, raw, p);
      match ToGeneralName(all[i], p)
      case Err(e) =>
        return Err(e);
      case Ok(None) =>
      case Ok(Some(g)) =>
        raw := raw + [g];
    }
    assert all[..|all|] == all;
    r := Ok(raw);
  }

  /** `createSubjectAltNameExtension`. */
  method CreateSubjectAltNameExtension(t: Certificates.Template, p: Env) returns (r: Result<Extension, Error>)
    requires forall i | 0 <= i < |t.sans| :: DerReady(t.sans[i])
    ensures r == SubjectAltNameExtension(t, p)
  {
    var all := CollectSANs(t, p);
    var names := ConvertSANs(all, p);
    if names.Err? {
      return Err(names.error);
    }
    AllSANsReady(t, p);
    r := Ok(Extension(SubjectAlternativeNameOid, false, EncodeGeneralNames(names.value)));
  }

  // ---------------------------------------------------------------------
  // Properties of the encoder

  /** The extension's value decodes to the GeneralNames of the working
      list, in order. */
  lemma SubjectAltNameDecodes(t: Certificates.Template, p: Env)
    requires forall i | 0 <= i < |t.sans| :: DerReady(t.sans[i])
    requires SubjectAltNameExtension(t, p).Ok?
    requires |SubjectAltNameExtension(t, p).value.value| < LengthBound
    ensures ParseGeneralNames(SubjectAltNameExtension(t, p).value.value) == Some(ToGeneralNames(AllSANs(t, p), p).value)
  {
    AllSANsReady(t, p);
    GeneralNamesRoundTrip(ToGeneralNames(AllSANs(t, p), p).value);
  }

  /** The list fails exactly when one of its SANs fails, and then with the
      error of the first failing SAN. */
  lemma FirstErrorWins(sans: seq<SubjectAlternativeName>, p: Env)
    ensures ToGeneralNames(sans, p).Err? <==> exists i | 0 <= i < |sans| :: ToGeneralName(sans[i], p).Err?
    ensures forall j | 0 <= j < |sans| && ToGeneralName(sans[j], p).Err? &&
        (forall i | 0 <= i < j :: ToGeneralName(sans[i], p).Ok?) ::
      ToGeneralNames(sans, p) == Err(ToGeneralName(sans[j], p).error)
  {
    ErrorIffAny(sans, p);
    forall j | 0 <= j < |sans| && ToGeneralName(sans[j], p).Err? &&
        (forall i | 0 <= i < j :: ToGeneralName(sans[i], p).Ok?)
      ensures ToGeneralNames(sans, p) == Err(ToGeneralName(sans[j], p).error)
    {
      FirstErrorResult(sans, j, p);
    }
  }

  lemma {:induction false} ErrorIffAny(sans: seq<SubjectAlternativeName>, p: Env)
    ensures ToGeneralNames(sans, p).Err? <==> exists i | 0 <= i < |sans| :: ToGeneralName(sans[i], p).Err?
    decreases |sans|
  {
    if sans != [] {
      var init := sans[..|sans| - 1];
      ErrorIffAny(init, p);
      assert forall i | 0 <= i < |init| :: init[i] == sans[i];
      ErrorIffAnyStep(sans, p);
    }
  }

  lemma ErrorIffAnyStep(sans: seq<SubjectAlternativeName>, p: Env)
    requires sans != []
    requires ToGeneralNames(sans[..|sans| - 1], p).Err? <==>
      exists i | 0 <= i < |sans| - 1 :: ToGeneralName(sans[i], p).Err?
    ensures ToGeneralNames(sans, p).Err? <==> exists i | 0 <= i < |sans| :: ToGeneralName(sans[i], p).Err?
  {
    var n := |sans|;
    ToGeneralNamesPrefixStep(sans, n - 1, p);
    assert sans[..n] == sans;
    if ToGeneralNames(sans, p).Err? && ToGeneralNames(sans[..n - 1], p).Ok? {
      assert ToGeneralName(sans[n - 1], p).Err?;
    }
    if exists i | 0 <= i < n :: ToGeneralName(sans[i], p).Err? {
      var i :| 0 <= i < n && ToGeneralName(sans[i], p).Err?;
      assert i < n - 1 || ToGeneralName(sans[n - 1], p).Err?;
    }
  }

  /** The first failing element decides the error. */
  lemma FirstErrorResult(sans: seq<SubjectAlternativeName>, j: nat, p: Env)
    requires j < |sans| && ToGeneralName(sans[j], p).Err?
    requires forall i | 0 <= i < j :: ToGeneralName(sans[i], p).Ok?
    ensures ToGeneralNames(sans, p) == Err(ToGeneralName(sans[j], p).error)
  {
    var before := sans[..j];
    assert ToGeneralNames(before, p).Ok? by {
      assert forall i | 0 <= i < j :: before[i] == sans[i];
      ErrorIffAny(before, p);
    }
    ToGeneralNamesPrefixStep(sans, j, p);
    FailureAfterSuccess(ToGeneralNames(before, p), ToGeneralName(sans[j], p));
    ToGeneralNamesStopped(sans, j + 1, p);
  }

  /** A failing SAN after a successful prefix fails the two together. */
  lemma FailureAfterSuccess(x: Result<seq<GeneralName>, Error>, y: Result<Option<GeneralName>, Error>)
    requires x.Ok? && y.Err?
    ensures Then(x, Emitted(y)) == Err(y.error)
  {
  }

  /** One iteration of `ConvertSANs`: an error ends the whole conversion,
      a dropped name leaves the prefix's names as they are, and a name is
      appended to them. */
  lemma ConvertStep(all: seq<SubjectAlternativeName>, i: nat, raw: seq<GeneralName>, p: Env)
    requires i < |all| && ToGeneralNames(all[..i], p) == Ok(raw)
    ensures ToGeneralName(all[i], p).Err? ==> ToGeneralNames(all, p) == Err(ToGeneralName(all[i], p).error)
    ensures ToGeneralName(all[i], p) == Ok(None) ==> ToGeneralNames(all[..i + 1], p) == Ok(raw)
    ensures ToGeneralName(all[i], p).Ok? && ToGeneralName(all[i], p).value.Some? ==>
      ToGeneralNames(all[..i + 1], p) == Ok(raw + [ToGeneralName(all[i], p).value.value])
  {
    var r := ToGeneralName(all[i], p);
    ToGeneralNamesPrefixStep(all, i, p);
    if r.Err? {
      ToGeneralNamesStopped(all, i + 1, p);
    } else if r.value.None? {
      assert raw + [] == raw;
    }
  }

  /** One more element of a prefix is converted after the ones before it. */
  lemma ToGeneralNamesPrefixStep(all: seq<SubjectAlternativeName>, i: nat, p: Env)
    requires i < |all|
    ensures ToGeneralNames(all[..i + 1], p) == Then(ToGeneralNames(all[..i], p), Emitted(ToGeneralName(all[i], p)))
  {
    assert all[..i + 1] == all[..i] + [all[i]];
    ToGeneralNamesSnoc(all[..i], all[i], p);
  }

  /** Once a prefix fails, the whole sequence fails with the same error. */
  lemma ToGeneralNamesStopped(all: seq<SubjectAlternativeName>, n: nat, p: Env)
    requires n <= |all| && ToGeneralNames(all[..n], p).Err?
    ensures ToGeneralNames(all, p) == ToGeneralNames(all[..n], p)
  {
    assert all == all[..n] + all[n..];
    ToGeneralNamesAppend(all[..n], all[n..], p);
  }

  lemma ToGeneralNamesSnoc(sans: seq<SubjectAlternativeName>, z: SubjectAlternativeName, p: Env)
    ensures ToGeneralNames(sans + [z], p) == Then(ToGeneralNames(sans, p), Emitted(ToGeneralName(z, p)))
  {
    assert (sans + [z])[..|sans|] == sans;
  }

  lemma {:induction false} ToGeneralNamesAppend(a: seq<SubjectAlternativeName>, b: seq<SubjectAlternativeName>, p: Env)
    ensures ToGeneralNames(a + b, p) == Then(ToGeneralNames(a, p), ToGeneralNames(b, p))
    decreases |b|
  {
    if b == [] {
      assert a + b == a;
      if ToGeneralNames(a, p).Ok? {
        assert ToGeneralNames(a, p).value + [] == ToGeneralNames(a, p).value;
      }
    } else {
      var n := |b|;
      var init, z := b[..n - 1], b[n - 1];
      assert a + b == (a + init) + [z];
      assert b == init + [z];
      ToGeneralNamesSnoc(a + init, z, p);
      ToGeneralNamesSnoc(init, z, p);
      ToGeneralNamesAppend(a, init, p);
      ThenAssoc(ToGeneralNames(a, p), ToGeneralNames(init, p), Emitted(ToGeneralName(z, p)));
    }
  }

  lemma {:induction false} EachEmits(sans: seq<SubjectAlternativeName>, gs: seq<GeneralName>, p: Env)
    requires |gs| == |sans|
    requires forall i | 0 <= i < |sans| :: ToGeneralName(sans[i], p) == Ok(Some(gs[i]))
    ensures ToGeneralNames(sans, p) == Ok(gs)
    decreases |sans|
  {
    if sans != [] {
      var n := |sans|;
      EachEmits(sans[..n - 1], gs[..n - 1], p);
      EachEmitsStep(sans, gs, p);
    }
  }

  lemma EmittedOne(r: Result<Option<GeneralName>, Error>, g: GeneralName)
    requires r == Ok(Some(g))
    ensures Emitted(r) == Ok([g])
  {
  }

  lemma EachEmitsStep(sans: seq<SubjectAlternativeName>, gs: seq<GeneralName>, p: Env)
    requires |gs| == |sans| > 0
    requires ToGeneralName(sans[|sans| - 1], p) == Ok(Some(gs[|gs| - 1]))
    requires ToGeneralNames(sans[..|sans| - 1], p) == Ok(gs[..|gs| - 1])
    ensures ToGeneralNames(sans, p) == Ok(gs)
  {
    var n := |sans|;
    var init, last := gs[..n - 1], gs[n - 1];
    assert sans[..n] == sans;
    ToGeneralNamesPrefixStep(sans, n - 1, p);
    EmittedOne(ToGeneralName(sans[n - 1], p), last);
    assert Then(Ok(init), Ok([last])) == Ok(init + [last]);
    FrontLast(gs);
  }

  /** The names the IP addresses of a template yield: each address is
      printed and parsed again, and dropped when that fails. */
  function IPNames(ips: seq<X509.IP>, p: Env): (r: seq<GeneralName>)
    ensures |r| <= |ips|
    decreases |ips|
  {
    if ips == [] then []
    else
      var n := |ips|;
      IPNames(ips[..n - 1], p) +
      (match p.parseIP(p.ipString(ips[n - 1]))
       case None => []
       case Some(ip) => [IPAddress(IPOctets(ip))])
  }

  lemma DnsTypeCase(v: Bytes, p: Env)
    ensures ToGeneralName(SubjectAlternativeName(DNSType, v), p) == Ok(Some(DnsName(v)))
  {
    assert |DNSType| != |EmailType|;
  }

  lemma UriTypeCase(v: Bytes, p: Env)
    ensures ToGeneralName(SubjectAlternativeName(URIType, v), p) == Ok(Some(Uri(v)))
  {
    var t := URIType;
    assert t[0] != DNSType[0] && |t| != |EmailType| && |t| != |X400AddressType|;
    assert |t| != |DirectoryNameType| && |t| != |EDIPartyNameType|;
  }

  lemma IPTypeCase(v: Bytes, p: Env)
    ensures ToGeneralName(SubjectAlternativeName(IPType, v), p) ==
      match p.parseIP(v)
      case None => Ok(None)
      case Some(ip) => Ok(Some(IPAddress(IPOctets(ip))))
  {
    var t := IPType;
    assert |t| != |EmailType| && |t| != |DNSType| && |t| != |X400AddressType|;
    assert t[0] != DirectoryNameType[0] && |t| != |EDIPartyNameType| && |t| != |URIType|;
  }

  lemma EmailTypeCase(v: Bytes, p: Env)
    ensures ToGeneralName(SubjectAlternativeName(EmailType, v), p) == Ok(Some(Rfc822Name(v)))
  {
  }

  /** The three GeneralName choices the encoder does not build are errors. */
  lemma UnimplementedTypeCase(t: Bytes, v: Bytes, p: Env)
    requires t == X400AddressType || t == DirectoryNameType || t == EDIPartyNameType
    ensures ToGeneralName(SubjectAlternativeName(t, v), p) == Err(UnimplementedSANType(t))
  {
    assert |t| != |EmailType| && |t| != |DNSType|;
  }

  /** A registered id is emitted when it parses and dropped otherwise. */
  lemma RegisteredIdTypeCase(v: Bytes, p: Env)
    ensures v == [] ==> ToGeneralName(SubjectAlternativeName(RegisteredIDType, v), p) == Ok(None)
    ensures v != [] ==>
      ToGeneralName(SubjectAlternativeName(RegisteredIDType, v), p) ==
      (match Oids.Parse(v)
       case None => Ok(None)
       case Some(o) => Ok(Some(RegisteredId(o))))
  {
    var t := RegisteredIDType;
    assert |t| != |EmailType| && |t| != |DNSType| && |t| != |X400AddressType|;
    assert |t| != |DirectoryNameType| && t[0] != EDIPartyNameType[0];
    assert |t| != |URIType| && |t| != |IPType|;
  }

  lemma EmptyTypeDropped(v: Bytes, p: Env)
    ensures ToGeneralName(SubjectAlternativeName([], v), p) == Ok(None)
  {
    assert |EmailType| != 0 && |DNSType| != 0 && |X400AddressType| != 0 && |DirectoryNameType| != 0;
    assert |EDIPartyNameType| != 0 && |URIType| != 0 && |IPType| != 0 && |RegisteredIDType| != 0;
  }

  /** Any other type names the OID of an otherName, or is unsupported. */
  lemma OtherTypeCase(t: Bytes, v: Bytes, p: Env)
    requires !KnownType(t)
    ensures Oids.Parse(t).None? ==> ToGeneralName(SubjectAlternativeName(t, v), p) == Err(UnsupportedSANType(t))
    ensures Oids.Parse(t).Some? ==>
      ToGeneralName(SubjectAlternativeName(t, v), p) ==
      (match OtherNameValue(t, v, p)
       case Err(e) => Err(e)
       case Ok(w) => Ok(Some(OtherName(Oids.Parse(t).value, w))))
  {
  }

  function DnsNames(ds: seq<Bytes>): (r: seq<GeneralName>)
    ensures |r| == |ds| && forall i | 0 <= i < |ds| :: r[i] == DnsName(ds[i])
  {
    seq(|ds|, i requires 0 <= i < |ds| => DnsName(ds[i]))
  }

  function EmailNames(es: seq<Bytes>): (r: seq<GeneralName>)
    ensures |r| == |es| && forall i | 0 <= i < |es| :: r[i] == Rfc822Name(es[i])
  {
    seq(|es|, i requires 0 <= i < |es| => Rfc822Name(es[i]))
  }

  function UriNames(us: seq<X509.URL>, p: Env): (r: seq<GeneralName>)
    ensures |r| == |us| && forall i | 0 <= i < |us| :: r[i] == Uri(p.urlString(us[i]))
  {
    seq(|us|, i requires 0 <= i < |us| => Uri(p.urlString(us[i])))
  }

  lemma DnsSANsNames(ds: seq<Bytes>, p: Env)
    ensures ToGeneralNames(DnsSANs(ds), p) == Ok(DnsNames(ds))
  {
    var gs := DnsNames(ds);
    forall i | 0 <= i < |ds| ensures ToGeneralName(DnsSANs(ds)[i], p) == Ok(Some(gs[i])) {
      DnsTypeCase(ds[i], p);
    }
    EachEmits(DnsSANs(ds), gs, p);
  }

  lemma EmailSANsNames(es: seq<Bytes>, p: Env)
    ensures ToGeneralNames(EmailSANs(es), p) == Ok(EmailNames(es))
  {
    var gs := EmailNames(es);
    EachEmits(EmailSANs(es), gs, p);
  }

  lemma UriSANsNames(us: seq<X509.URL>, p: Env)
    ensures ToGeneralNames(UriSANs(us, p), p) == Ok(UriNames(us, p))
  {
    var gs := UriNames(us, p);
    forall i | 0 <= i < |us| ensures ToGeneralName(UriSANs(us, p)[i], p) == Ok(Some(gs[i])) {
      UriTypeCase(p.urlString(us[i]), p);
    }
    EachEmits(UriSANs(us, p), gs, p);
  }

  lemma {:induction false} IpSANsNames(ips: seq<X509.IP>, p: Env)
    ensures ToGeneralNames(IpSANs(ips, p), p) == Ok(IPNames(ips, p))
    decreases |ips|
  {
    if ips != [] {
      var n := |ips|;
      var last := SubjectAlternativeName(IPType, p.ipString(ips[n - 1]));
      assert IpSANs(ips, p) == IpSANs(ips[..n - 1], p) + [last];
      ToGeneralNamesSnoc(IpSANs(ips[..n - 1], p), last, p);
      IpSANsNames(ips[..n - 1], p);
      IPTypeCase(p.ipString(ips[n - 1]), p);
      assert IPNames(ips[..n - 1], p) + [] == IPNames(ips[..n - 1], p);
    }
  }

  /** The names the address lists of a template yield, in the order the
      working list has them: DNS names, email addresses, URIs, then IPs. */
  function ListNames(t: Certificates.Template, p: Env): (r: seq<GeneralName>) {
    DnsNames(t.dnsNames) + EmailNames(t.emailAddresses) + UriNames(t.uris, p) + IPNames(t.ipAddresses, p)
  }

  /** The explicit SANs come first and decide any error; the address
      lists then add their names in order, and never fail. */
  lemma AllSANsNames(t: Certificates.Template, p: Env)
    ensures ToGeneralNames(AllSANs(t, p), p) == Then(ToGeneralNames(t.sans, p), Ok(ListNames(t, p)))
  {
    var d, e, u := DnsNames(t.dnsNames), EmailNames(t.emailAddresses), UriNames(t.uris, p);
    var ips := IPNames(t.ipAddresses, p);
    var sd, se := DnsSANs(t.dnsNames), EmailSANs(t.emailAddresses);
    var su, si := UriSANs(t.uris, p), IpSANs(t.ipAddresses, p);
    DnsSANsNames(t.dnsNames, p);
    EmailSANsNames(t.emailAddresses, p);
    UriSANsNames(t.uris, p);
    IpSANsNames(t.ipAddresses, p);
    var x := ToGeneralNames(t.sans, p);
    ToGeneralNamesAppend(t.sans, sd, p);
    ToGeneralNamesAppend(t.sans + sd, se, p);
    ToGeneralNamesAppend(t.sans + sd + se, su, p);
    ToGeneralNamesAppend(t.sans + sd + se + su, si, p);
    ThenAssoc(x, Ok(d), Ok(e));
    ThenAssoc(x, Ok(d + e), Ok(u));
    ThenAssoc(x, Ok(d + e + u), Ok(ips));
  }

  /** A template without explicit SANs always gets the extension, and its
      value decodes to the names of the address lists. */
  lemma ListsOnly(t: Certificates.Template, p: Env)
    requires t.sans == []
    ensures SubjectAltNameExtension(t, p).Ok?
    ensures |SubjectAltNameExtension(t, p).value.value| < LengthBound ==>
      ParseGeneralNames(SubjectAltNameExtension(t, p).value.value) == Some(ListNames(t, p))
  {
    AllSANsNames(t, p);
    assert [] + ListNames(t, p) == ListNames(t, p);
    if |SubjectAltNameExtension(t, p).value.value| < LengthBound {
      SubjectAltNameDecodes(t, p);
    }
  }

  /** Type tags are matched exactly: `DNS` is neither `dns` nor an OID. */
  lemma TypesAreCaseSensitive(v: Bytes, p: Env)
    ensures ToGeneralName(SubjectAlternativeName(Ascii("DNS"), v), p) == Err(UnsupportedSANType(Ascii("DNS")))
  {
    var t := Ascii("DNS");
    assert t[0] != DNSType[0] && t[0] != URIType[0] && t[0] != DirectoryNameType[0];
    assert !Oids.IsArc(t[..Oids.DotIndex(t)]) by {
      assert t[0] == 0x44;
    }
  }

  /** `auto`, which `SubjectAlternativeName.Set` accepts, is no type here. */
  lemma AutoIsUnsupported(v: Bytes, p: Env)
    ensures ToGeneralName(SubjectAlternativeName(AutoType, v), p) == Err(UnsupportedSANType(AutoType))
  {
    var t := AutoType;
    assert t[0] != EmailType[0] && t[0] != URIType[0] && t[0] != RegisteredIDType[0];
    assert !Oids.IsArc(t[..Oids.DotIndex(t)]) by {
      assert t[0] == 0x61;
    }
  }

  /** An IP SAN that parses is emitted with 4 octets when it has an IPv4
      form and with the 16 octets `net.ParseIP` returns otherwise. */
  lemma IPOctetCount(san: SubjectAlternativeName, p: Env)
    requires san.typ == IPType && SixteenOctetIPs(p)
    ensures ToGeneralName(san, p).Ok?
    ensures ToGeneralName(san, p).value.Some? <==> p.parseIP(san.value).Some?
    ensures ToGeneralName(san, p).value.Some? ==>
      var g := ToGeneralName(san, p).value.value;
      g.IPAddress? &&
      (X509.To4(p.parseIP(san.value).value).Some? ==> |g.octets| == 4) &&
      (X509.To4(p.parseIP(san.value).value).None? ==> |g.octets| == 16)
  {
    IPTypeCase(san.value, p);
  }

  /** When the text before the first `;` and the text after it are both
      known, the split is forced. */
  lemma SplitUnique(a: Bytes, b: Bytes, a': Bytes, b': Bytes)
    requires Semicolon !in a && Semicolon !in a'
    requires a + [Semicolon] + b == a' + [Semicolon] + b'
    ensures a == a' && b == b'
  {
    var v := a + [Semicolon] + b;
    assert v[|a|] == Semicolon && v[|a'|] == Semicolon;
    assert a == v[..|a|] && a' == v[..|a'|];
    assert b == v[|a| + 1..] && b' == v[|a'| + 1..];
  }

  /** `int;` followed by a decimal integer gives back that integer. */
  lemma OtherNameInt(sanType: Bytes, i: int, p: Env)
    ensures OtherNameValue(sanType, IntKind + [Semicolon] + FormatInt(i), p) == Ok(IntegerValue(i))
  {
    var v := IntKind + [Semicolon] + FormatInt(i);
    assert v[|IntKind|] == Semicolon;
    assert Semicolon !in IntKind;
    SplitUnique(SplitValue(v).0, SplitValue(v).1, IntKind, FormatInt(i));
    ParseFormatInt(i);
  }

  /** `oid;` followed by a dotted OID DER can encode gives back that OID. */
  lemma OtherNameOid(sanType: Bytes, o: Oid, p: Env)
    requires Encodable(o)
    ensures OtherNameValue(sanType, OidKind + [Semicolon] + Oids.Format(o), p) == Ok(OidValue(o))
  {
    var v := OidKind + [Semicolon] + Oids.Format(o);
    assert v[|OidKind|] == Semicolon;
    assert Semicolon !in OidKind;
    SplitUnique(SplitValue(v).0, SplitValue(v).1, OidKind, Oids.Format(o));
    assert OidKind != IntKind by { assert OidKind[0] != IntKind[0]; }
    Oids.ParseFormat(o);
  }

  /** `int;` followed by text `strconv.Atoi` rejects is the invalid-int
      error. */
  lemma OtherNameIntInvalid(sanType: Bytes, payload: Bytes, p: Env)
    requires ParseInt(payload).None?
    ensures OtherNameValue(sanType, IntKind + [Semicolon] + payload, p) == Err(InvalidOtherNameInt(sanType))
  {
    var v := IntKind + [Semicolon] + payload;
    assert v[|IntKind|] == Semicolon;
    assert Semicolon !in IntKind;
    SplitUnique(SplitValue(v).0, SplitValue(v).1, IntKind, payload);
  }

  /** `oid;` followed by text that is no dotted identifier is the
      invalid-OID error. */
  lemma OtherNameOidInvalid(sanType: Bytes, payload: Bytes, p: Env)
    requires Oids.Parse(payload).None?
    ensures OtherNameValue(sanType, OidKind + [Semicolon] + payload, p) == Err(InvalidOtherNameOid(sanType))
  {
    var v := OidKind + [Semicolon] + payload;
    assert v[|OidKind|] == Semicolon;
    assert Semicolon !in OidKind;
    SplitUnique(SplitValue(v).0, SplitValue(v).1, OidKind, payload);
    assert OidKind != IntKind by { assert OidKind[0] != IntKind[0]; }
  }

  /** `oid;` followed by an identifier DER cannot encode is the marshal
      error. */
  lemma OtherNameOidUnencodable(sanType: Bytes, payload: Bytes, p: Env)
    requires Oids.Parse(payload).Some? && !Encodable(Oids.Parse(payload).value)
    ensures OtherNameValue(sanType, OidKind + [Semicolon] + payload, p) == Err(MarshalFailure)
  {
    var v := OidKind + [Semicolon] + payload;
    assert v[|OidKind|] == Semicolon;
    assert Semicolon !in OidKind;
    SplitUnique(SplitValue(v).0, SplitValue(v).1, OidKind, payload);
    assert OidKind != IntKind by { assert OidKind[0] != IntKind[0]; }
  }

  /** A value without `;` is a PrintableString of the whole value. */
  lemma OtherNameWithoutKind(sanType: Bytes, v: Bytes, p: Env)
    requires Semicolon !in v
    ensures OtherNameValue(sanType, v, p) == MarshalString(Printable, v, p)
  {
    assert |PrintableKind| == 9;
  }

  /** A kind outside the six marshals the whole value, `;` included, as a
      PrintableString, which the `;` makes fail: this branch is always the
      marshal error. */
  lemma OtherNameUnknownKind(sanType: Bytes, kind: Bytes, payload: Bytes, p: Env)
    requires Semicolon !in kind
    requires kind !in {IntKind, OidKind, Utf8Kind, IA5Kind, NumericKind, PrintableKind}
    ensures OtherNameValue(sanType, kind + [Semicolon] + payload, p) ==
      MarshalString(Printable, kind + [Semicolon] + payload, p)
    ensures OtherNameValue(sanType, kind + [Semicolon] + payload, p) == Err(MarshalFailure)
  {
    var v := kind + [Semicolon] + payload;
    assert v[|kind|] == Semicolon;
    SplitUnique(SplitValue(v).0, SplitValue(v).1, kind, payload);
    SemicolonNotPrintable(v, p);
  }

  /** The kind text that selects a string type. */
  function KindName(k: StringKind): (r: Bytes)
    ensures r == Utf8Kind || r == IA5Kind || r == NumericKind || r == PrintableKind
  {
    match k
    case Utf8 => Utf8Kind
    case IA5 => IA5Kind
    case Numeric => NumericKind
    case Printable => PrintableKind
  }

  /** The kind texts are distinct and contain no `;`. */
  lemma KindNameSelects(k: StringKind)
    ensures Semicolon !in KindName(k)
    ensures KindName(k) != IntKind && KindName(k) != OidKind
    ensures KindName(k) == Utf8Kind <==> k == Utf8
    ensures KindName(k) == IA5Kind <==> k == IA5
    ensures KindName(k) == NumericKind <==> k == Numeric
    ensures KindName(k) == PrintableKind <==> k == Printable
  {
    var kind := KindName(k);
    assert kind[1] != IntKind[1] && kind[1] != OidKind[1];
    assert |Utf8Kind| == 4 && |IA5Kind| == 3 && |NumericKind| == 7 && |PrintableKind| == 9;
  }

  /** A string kind encodes the payload alone, as that string type. */
  lemma OtherNameStringKind(sanType: Bytes, k: StringKind, payload: Bytes, p: Env)
    ensures OtherNameValue(sanType, KindName(k) + [Semicolon] + payload, p) == MarshalString(k, payload, p)
  {
    var kind := KindName(k);
    var v := kind + [Semicolon] + payload;
    KindNameSelects(k);
    assert v[|kind|] == Semicolon;
    SplitUnique(SplitValue(v).0, SplitValue(v).1, kind, payload);
  }
}
