/** The certificate template (x509util/certificate.go): building it from a
    request, turning it into the `x509.Certificate` to sign, and completing
    and signing that certificate. */
module Certificates {
  import opened Base
  import X509
  import opened Collaborators
  import opened Extensions
  import Names

  /** `Certificate`: the JSON template of an X.509 certificate. */
  datatype Template = Template(
    version: int,
    subject: Names.Name,
    issuer: Names.Name,
    serialNumber: Option<int>,
    dnsNames: seq<Bytes>,
    emailAddresses: seq<Bytes>,
    ipAddresses: seq<X509.IP>,
    uris: seq<X509.URL>,
    sans: seq<SubjectAlternativeName>,
    extensions: seq<Extension>,
    keyUsage: X509.KeyUsage,
    extKeyUsage: seq<X509.ExtKeyUsage>,
    unknownExtKeyUsage: seq<Oid>,
    subjectKeyId: Option<Bytes>,
    authorityKeyId: Bytes,
    ocspServer: seq<Bytes>,
    issuingCertificateURL: seq<Bytes>,
    crlDistributionPoints: seq<Bytes>,
    policyIdentifiers: seq<Oid>,
    basicConstraints: Option<BasicConstraints>,
    nameConstraints: Option<NameConstraints>,
    signatureAlgorithm: nat,
    publicKeyAlgorithm: nat,
    publicKey: X509.PublicKey)

  // ---------------------------------------------------------------------
  // NewCertificate

  /** The parts of an `x509.CertificateRequest` the template layer reads:
      the outcome of `CheckSignature` and the requested key. */
  datatype Request = Request(signatureError: Option<Error>, publicKey: X509.PublicKey, publicKeyAlgorithm: nat)

  /** The collaborators of `NewCertificate`: applying the options (which
      yields the rendered template text, or none when no template is
      given), the default leaf certificate of a request, and the JSON
      decoder of a template. */
  datatype Builder = Builder(
    apply: Request -> Result<Option<Bytes>, Error>,
    leaf: Request -> Template,
    decode: Bytes -> Result<Template, Error>)

  /** `NewCertificate`. */
  function NewCertificate(cr: Request, b: Builder): (r: Result<Template, Error>)
    ensures cr.signatureError.Some? ==> r == Err(Wrapped(ValidatingRequest, cr.signatureError.value))
    ensures cr.signatureError.None? && b.apply(cr).Err? ==> r == Err(b.apply(cr).error)
    ensures cr.signatureError.None? && b.apply(cr) == Ok(None) ==>
      r == Ok(b.leaf(cr).(signatureAlgorithm := 0))
    ensures cr.signatureError.None? && b.apply(cr).Ok? && b.apply(cr).value.Some? ==>
      var d := b.decode(b.apply(cr).value.value);
      (d.Err? ==> r == Err(Wrapped(UnmarshalingCertificate, d.error))) &&
      (d.Ok? ==>
         (r.Ok? && r.value.publicKey == cr.publicKey &&
          r.value.publicKeyAlgorithm == cr.publicKeyAlgorithm &&
          r.value.(publicKey := d.value.publicKey, publicKeyAlgorithm := d.value.publicKeyAlgorithm) == d.value))
  {
    if cr.signatureError.Some? then Err(Wrapped(ValidatingRequest, cr.signatureError.value))
    else
      var o :- b.apply(cr);
      match o
      case None => Ok(b.leaf(cr).(signatureAlgorithm := 0))
      case Some(buffer) =>
        match b.decode(buffer)
        case Err(e) => Err(Wrapped(UnmarshalingCertificate, e))
        case Ok(t) => Ok(t.(publicKey := cr.publicKey, publicKeyAlgorithm := cr.publicKeyAlgorithm))
  }

  /** Whatever the template says about the key, the certificate built from
      a template carries the request's key. */
  lemma NewCertificateUsesRequestKey(cr: Request, b: Builder)
    requires NewCertificate(cr, b).Ok? && b.apply(cr).Ok? && b.apply(cr).value.Some?
    ensures NewCertificate(cr, b).value.publicKey == cr.publicKey
    ensures NewCertificate(cr, b).value.publicKeyAlgorithm == cr.publicKeyAlgorithm
  {
  }

  // ---------------------------------------------------------------------
  // GetCertificate

  /** The address lists a template starts `GetCertificate` with. */
  function TemplateLists(t: Template): Split {
    Split(t.dnsNames, t.ipAddresses, t.emailAddresses, t.uris)
  }

  /** The pkix extensions of a template, in order. */
  function PkixExtensions(es: seq<Extension>): (r: seq<X509.Extension>)
    ensures |r| == |es|
    ensures forall i | 0 <= i < |es| :: r[i] == ToPkix(es[i])
  {
    seq(|es|, i requires 0 <= i < |es| => ToPkix(es[i]))
  }

  /** The basic-constraint fields of a certificate (`BasicConstraintsValid`,
      `IsCA`, `MaxPathLen`, `MaxPathLenZero`) after `GetCertificate`: the
      zero values when the template has no basic constraints. */
  function BasicConstraintFields(b: Option<BasicConstraints>): (r: (bool, bool, int, bool))
    ensures r.0 <==> b.Some?
    ensures b.None? ==> r == (false, false, 0, false)
    ensures b.Some? ==> r.1 == b.value.isCA && (r.2, r.3) == PathLenFields(b.value)
  {
    match b
    case None => (false, false, 0, false)
    case Some(c) => (true, c.isCA, PathLenFields(c).0, PathLenFields(c).1)
  }

  /** The name-constraint fields of a certificate after `GetCertificate`:
      the zero values when the template has no name constraints. */
  function NameConstraintFields(n: Option<NameConstraints>): (r: NameConstraints)
    ensures n.Some? ==> r == n.value
    ensures n.None? ==> r == NameConstraints(false, [], [], [], [], [], [], [], [])
  {
    match n
    case None => NameConstraints(false, [], [], [], [], [], [], [], [])
    case Some(c) => c
  }

  /** The `for _, san := range c.SANs { san.Set(cert) }` loop. */
  method SetSANs(sans: seq<SubjectAlternativeName>, cert: X509.Certificate, p: Env) returns (ok: bool)
    modifies cert`dnsNames, cert`emailAddresses, cert`ipAddresses, cert`uris
    ensures ok <==> ApplySANs(old(Split(cert.dnsNames, cert.ipAddresses, cert.emailAddresses, cert.uris)), sans, p).Ok?
    ensures ok ==> Split(cert.dnsNames, cert.ipAddresses, cert.emailAddresses, cert.uris) == ApplySANs(old(Split(cert.dnsNames, cert.ipAddresses, cert.emailAddresses, cert.uris)), sans, p).value
  {
    ok := true;
    for i := 0 to |sans|
      invariant ApplySANs(Split(cert.dnsNames, cert.ipAddresses, cert.emailAddresses, cert.uris), sans[i..], p) == ApplySANs(old(Split(cert.dnsNames, cert.ipAddresses, cert.emailAddresses, cert.uris)), sans, p)
    {
      ok := SetSAN(sans[i], cert, p);
      if !ok {
        return;
      }
      assert sans[i..][1..] == sans[i + 1..];
    }
  }

  /** The "Defined extensions" block of `GetCertificate`, on a certificate
      whose constraint fields are still zero. */
  method SetDefinedExtensions(t: Template, cert: X509.Certificate)
    requires (cert.basicConstraintsValid, cert.isCA, cert.maxPathLen, cert.maxPathLenZero) == BasicConstraintFields(None)
    requires NameConstraints(cert.permittedDNSDomainsCritical, cert.permittedDNSDomains, cert.excludedDNSDomains,
                    cert.permittedIPRanges, cert.excludedIPRanges,
                    cert.permittedEmailAddresses, cert.excludedEmailAddresses,
                    cert.permittedURIDomains, cert.excludedURIDomains) == NameConstraintFields(None)
    modifies cert`keyUsage, cert`extKeyUsage, cert`unknownExtKeyUsage, cert`subjectKeyId,
      cert`authorityKeyId, cert`ocspServer, cert`issuingCertificateURL, cert`crlDistributionPoints,
      cert`policyIdentifiers,
      cert`basicConstraintsValid, cert`isCA, cert`maxPathLen, cert`maxPathLenZero,
      cert`permittedDNSDomainsCritical, cert`permittedDNSDomains, cert`excludedDNSDomains,
      cert`permittedIPRanges, cert`excludedIPRanges, cert`permittedEmailAddresses,
      cert`excludedEmailAddresses, cert`permittedURIDomains, cert`excludedURIDomains
    ensures cert.keyUsage == t.keyUsage && cert.extKeyUsage == t.extKeyUsage
    ensures cert.unknownExtKeyUsage == t.unknownExtKeyUsage
    ensures cert.subjectKeyId == t.subjectKeyId && cert.authorityKeyId == t.authorityKeyId
    ensures cert.ocspServer == t.ocspServer && cert.issuingCertificateURL == t.issuingCertificateURL
    ensures cert.crlDistributionPoints == t.crlDistributionPoints
    ensures cert.policyIdentifiers == t.policyIdentifiers
    ensures (cert.basicConstraintsValid, cert.isCA, cert.maxPathLen, cert.maxPathLenZero) == BasicConstraintFields(t.basicConstraints)
    ensures NameConstraints(cert.permittedDNSDomainsCritical, cert.permittedDNSDomains, cert.excludedDNSDomains,
                    cert.permittedIPRanges, cert.excludedIPRanges,
                    cert.permittedEmailAddresses, cert.excludedEmailAddresses,
                    cert.permittedURIDomains, cert.excludedURIDomains) == NameConstraintFields(t.nameConstraints)
  {
    SetUsageExtensions(t, cert);
    SetBasic(t, cert);
    SetNames(t, cert);
  }

  /** The first nine setters of the "Defined extensions" block. */
  method SetUsageExtensions(t: Template, cert: X509.Certificate)
    modifies cert`keyUsage, cert`extKeyUsage, cert`unknownExtKeyUsage, cert`subjectKeyId,
      cert`authorityKeyId, cert`ocspServer, cert`issuingCertificateURL, cert`crlDistributionPoints,
      cert`policyIdentifiers
    ensures cert.keyUsage == t.keyUsage && cert.extKeyUsage == t.extKeyUsage
    ensures cert.unknownExtKeyUsage == t.unknownExtKeyUsage
    ensures cert.subjectKeyId == t.subjectKeyId && cert.authorityKeyId == t.authorityKeyId
    ensures cert.ocspServer == t.ocspServer && cert.issuingCertificateURL == t.issuingCertificateURL
    ensures cert.crlDistributionPoints == t.crlDistributionPoints
    ensures cert.policyIdentifiers == t.policyIdentifiers
  {
    SetKeyUsage(t.keyUsage, cert);
    SetExtKeyUsage(t.extKeyUsage, cert);
    SetUnknownExtKeyUsage(t.unknownExtKeyUsage, cert);
    SetSubjectKeyId(t.subjectKeyId, cert);
    SetAuthorityKeyId(t.authorityKeyId, cert);
    SetOCSPServer(t.ocspServer, cert);
    SetIssuingCertificateURL(t.issuingCertificateURL, cert);
    SetCRLDistributionPoints(t.crlDistributionPoints, cert);
    SetPolicyIdentifiers(t.policyIdentifiers, cert);
  }

  /** `if c.BasicConstraints != nil { c.BasicConstraints.Set(cert) }`. */
  method SetBasic(t: Template, cert: X509.Certificate)
    requires (cert.basicConstraintsValid, cert.isCA, cert.maxPathLen, cert.maxPathLenZero) == BasicConstraintFields(None)
    modifies cert`basicConstraintsValid, cert`isCA, cert`maxPathLen, cert`maxPathLenZero
    ensures (cert.basicConstraintsValid, cert.isCA, cert.maxPathLen, cert.maxPathLenZero) == BasicConstraintFields(t.basicConstraints)
  {
    if t.basicConstraints.Some? {
      SetBasicConstraints(t.basicConstraints.value, cert);
    }
  }

  /** `if c.NameConstraints != nil { c.NameConstraints.Set(cert) }`. */
  method SetNames(t: Template, cert: X509.Certificate)
    requires NameConstraints(cert.permittedDNSDomainsCritical, cert.permittedDNSDomains, cert.excludedDNSDomains,
                    cert.permittedIPRanges, cert.excludedIPRanges,
                    cert.permittedEmailAddresses, cert.excludedEmailAddresses,
                    cert.permittedURIDomains, cert.excludedURIDomains) == NameConstraintFields(None)
    modifies cert`permittedDNSDomainsCritical, cert`permittedDNSDomains, cert`excludedDNSDomains,
      cert`permittedIPRanges, cert`excludedIPRanges, cert`permittedEmailAddresses,
      cert`excludedEmailAddresses, cert`permittedURIDomains, cert`excludedURIDomains
    ensures NameConstraints(cert.permittedDNSDomainsCritical, cert.permittedDNSDomains, cert.excludedDNSDomains,
                    cert.permittedIPRanges, cert.excludedIPRanges,
                    cert.permittedEmailAddresses, cert.excludedEmailAddresses,
                    cert.permittedURIDomains, cert.excludedURIDomains) == NameConstraintFields(t.nameConstraints)
  {
    if t.nameConstraints.Some? {
      SetNameConstraints(t.nameConstraints.value, cert);
    }
  }

  /** The "Custom Extensions" loop: each extension appended in order. */
  method SetExtensions(es: seq<Extension>, cert: X509.Certificate)
    modifies cert`extraExtensions
    ensures cert.extraExtensions == old(cert.extraExtensions) + PkixExtensions(es)
  {
    for i := 0 to |es|
      invariant cert.extraExtensions == old(cert.extraExtensions) + PkixExtensions(es[..i])
    {
      SetExtension(es[i], cert);
      assert PkixExtensions(es[..i + 1]) == PkixExtensions(es[..i]) + [ToPkix(es[i])];
    }
    assert es[..|es|] == es;
  }

  /** The subject and the "Defined extensions" block. */
  method SetSubjectAndExtensions(t: Template, cert: X509.Certificate)
    requires (cert.basicConstraintsValid, cert.isCA, cert.maxPathLen, cert.maxPathLenZero) == BasicConstraintFields(None)
    requires NameConstraints(cert.permittedDNSDomainsCritical, cert.permittedDNSDomains, cert.excludedDNSDomains,
                    cert.permittedIPRanges, cert.excludedIPRanges,
                    cert.permittedEmailAddresses, cert.excludedEmailAddresses,
                    cert.permittedURIDomains, cert.excludedURIDomains) == NameConstraintFields(None)
    modifies cert`subject, cert`keyUsage, cert`extKeyUsage, cert`unknownExtKeyUsage, cert`subjectKeyId,
      cert`authorityKeyId, cert`ocspServer, cert`issuingCertificateURL, cert`crlDistributionPoints,
      cert`policyIdentifiers,
      cert`basicConstraintsValid, cert`isCA, cert`maxPathLen, cert`maxPathLenZero,
      cert`permittedDNSDomainsCritical, cert`permittedDNSDomains, cert`excludedDNSDomains,
      cert`permittedIPRanges, cert`excludedIPRanges, cert`permittedEmailAddresses,
      cert`excludedEmailAddresses, cert`permittedURIDomains, cert`excludedURIDomains
    ensures cert.subject == X509.EmptyName.(extraNames := Names.SubjectAttributes(t.subject))
    ensures cert.keyUsage == t.keyUsage && cert.extKeyUsage == t.extKeyUsage
    ensures cert.unknownExtKeyUsage == t.unknownExtKeyUsage
    ensures cert.subjectKeyId == t.subjectKeyId && cert.authorityKeyId == t.authorityKeyId
    ensures cert.ocspServer == t.ocspServer && cert.issuingCertificateURL == t.issuingCertificateURL
    ensures cert.crlDistributionPoints == t.crlDistributionPoints
    ensures cert.policyIdentifiers == t.policyIdentifiers
    ensures (cert.basicConstraintsValid, cert.isCA, cert.maxPathLen, cert.maxPathLenZero) == BasicConstraintFields(t.basicConstraints)
    ensures NameConstraints(cert.permittedDNSDomainsCritical, cert.permittedDNSDomains, cert.excludedDNSDomains,
                    cert.permittedIPRanges, cert.excludedIPRanges,
                    cert.permittedEmailAddresses, cert.excludedEmailAddresses,
                    cert.permittedURIDomains, cert.excludedURIDomains) == NameConstraintFields(t.nameConstraints)
  {
    Names.SetSubject(t.subject, cert);
    SetDefinedExtensions(t, cert);
  }

  /** The custom extensions and the "Others" block: the serial number and
      the signature algorithm. */
  method SetOthers(t: Template, cert: X509.Certificate, p: Env)
    modifies cert`extraExtensions, cert`serialNumber, cert`signatureAlgorithm
    ensures cert.extraExtensions == old(cert.extraExtensions) + PkixExtensions(t.extensions)
    ensures cert.serialNumber == t.serialNumber
    ensures cert.signatureAlgorithm == SignatureAlgorithmOf(t.signatureAlgorithm, p)
  {
    SetExtensions(t.extensions, cert);
    SetSerialNumber(t.serialNumber, cert);
    SetSignatureAlgorithm(t.signatureAlgorithm, cert, p);
  }

  /** Everything `GetCertificate` does after the SANs, on a certificate
      whose constraint fields and extra extensions are still zero. */
  method SetRest(t: Template, cert: X509.Certificate, p: Env)
    requires (cert.basicConstraintsValid, cert.isCA, cert.maxPathLen, cert.maxPathLenZero) == BasicConstraintFields(None)
    requires NameConstraints(cert.permittedDNSDomainsCritical, cert.permittedDNSDomains, cert.excludedDNSDomains,
                    cert.permittedIPRanges, cert.excludedIPRanges,
                    cert.permittedEmailAddresses, cert.excludedEmailAddresses,
                    cert.permittedURIDomains, cert.excludedURIDomains) == NameConstraintFields(None)
    requires cert.extraExtensions == []
    modifies cert`subject, cert`keyUsage, cert`extKeyUsage, cert`unknownExtKeyUsage, cert`subjectKeyId,
      cert`authorityKeyId, cert`ocspServer, cert`issuingCertificateURL, cert`crlDistributionPoints,
      cert`policyIdentifiers,
      cert`basicConstraintsValid, cert`isCA, cert`maxPathLen, cert`maxPathLenZero,
      cert`permittedDNSDomainsCritical, cert`permittedDNSDomains, cert`excludedDNSDomains,
      cert`permittedIPRanges, cert`excludedIPRanges, cert`permittedEmailAddresses,
      cert`excludedEmailAddresses, cert`permittedURIDomains, cert`excludedURIDomains,
      cert`extraExtensions, cert`serialNumber, cert`signatureAlgorithm
    ensures cert.subject == X509.EmptyName.(extraNames := Names.SubjectAttributes(t.subject))
    ensures cert.keyUsage == t.keyUsage && cert.extKeyUsage == t.extKeyUsage
    ensures cert.unknownExtKeyUsage == t.unknownExtKeyUsage
    ensures cert.subjectKeyId == t.subjectKeyId && cert.authorityKeyId == t.authorityKeyId
    ensures cert.ocspServer == t.ocspServer && cert.issuingCertificateURL == t.issuingCertificateURL
    ensures cert.crlDistributionPoints == t.crlDistributionPoints
    ensures cert.policyIdentifiers == t.policyIdentifiers
    ensures (cert.basicConstraintsValid, cert.isCA, cert.maxPathLen, cert.maxPathLenZero) == BasicConstraintFields(t.basicConstraints)
    ensures NameConstraints(cert.permittedDNSDomainsCritical, cert.permittedDNSDomains, cert.excludedDNSDomains,
                    cert.permittedIPRanges, cert.excludedIPRanges,
                    cert.permittedEmailAddresses, cert.excludedEmailAddresses,
                    cert.permittedURIDomains, cert.excludedURIDomains) == NameConstraintFields(t.nameConstraints)
    ensures cert.extraExtensions == PkixExtensions(t.extensions)
    ensures cert.serialNumber == t.serialNumber
    ensures cert.signatureAlgorithm == SignatureAlgorithmOf(t.signatureAlgorithm, p)
  {
    SetSubjectAndExtensions(t, cert);
    SetOthers(t, cert, p);
  }

  /** The body of `GetCertificate` on the zero certificate it allocates:
      the key and the address lists are copied, the SANs applied (stopping
      at the first that panics), then the rest of the template set. */
  method Populate(t: Template, cert: X509.Certificate, p: Env) returns (ok: bool)
    requires (cert.basicConstraintsValid, cert.isCA, cert.maxPathLen, cert.maxPathLenZero) == BasicConstraintFields(None)
    requires NameConstraints(cert.permittedDNSDomainsCritical, cert.permittedDNSDomains, cert.excludedDNSDomains,
                    cert.permittedIPRanges, cert.excludedIPRanges,
                    cert.permittedEmailAddresses, cert.excludedEmailAddresses,
                    cert.permittedURIDomains, cert.excludedURIDomains) == NameConstraintFields(None)
    requires cert.extraExtensions == []
    modifies cert`publicKey, cert`publicKeyAlgorithm, cert`dnsNames, cert`emailAddresses, cert`ipAddresses, cert`uris,
      cert`subject, cert`keyUsage, cert`extKeyUsage, cert`unknownExtKeyUsage, cert`subjectKeyId,
      cert`authorityKeyId, cert`ocspServer, cert`issuingCertificateURL, cert`crlDistributionPoints,
      cert`policyIdentifiers,
      cert`basicConstraintsValid, cert`isCA, cert`maxPathLen, cert`maxPathLenZero,
      cert`permittedDNSDomainsCritical, cert`permittedDNSDomains, cert`excludedDNSDomains,
      cert`permittedIPRanges, cert`excludedIPRanges, cert`permittedEmailAddresses,
      cert`excludedEmailAddresses, cert`permittedURIDomains, cert`excludedURIDomains,
      cert`extraExtensions, cert`serialNumber, cert`signatureAlgorithm
    ensures ok <==> ApplySANs(TemplateLists(t), t.sans, p).Ok?
    ensures ok ==> Split(cert.dnsNames, cert.ipAddresses, cert.emailAddresses, cert.uris) == ApplySANs(TemplateLists(t), t.sans, p).value
    ensures ok ==> cert.publicKey == t.publicKey && cert.publicKeyAlgorithm == t.publicKeyAlgorithm
    ensures ok ==> cert.subject == X509.EmptyName.(extraNames := Names.SubjectAttributes(t.subject))
    ensures ok ==> cert.keyUsage == t.keyUsage && cert.extKeyUsage == t.extKeyUsage
    ensures ok ==> cert.unknownExtKeyUsage == t.unknownExtKeyUsage
    ensures ok ==> cert.subjectKeyId == t.subjectKeyId && cert.authorityKeyId == t.authorityKeyId
    ensures ok ==> cert.ocspServer == t.ocspServer && cert.issuingCertificateURL == t.issuingCertificateURL
    ensures ok ==> cert.crlDistributionPoints == t.crlDistributionPoints
    ensures ok ==> cert.policyIdentifiers == t.policyIdentifiers
    ensures ok ==> (cert.basicConstraintsValid, cert.isCA, cert.maxPathLen, cert.maxPathLenZero) == BasicConstraintFields(t.basicConstraints)
    ensures ok ==> NameConstraints(cert.permittedDNSDomainsCritical, cert.permittedDNSDomains, cert.excludedDNSDomains,
                    cert.permittedIPRanges, cert.excludedIPRanges,
                    cert.permittedEmailAddresses, cert.excludedEmailAddresses,
                    cert.permittedURIDomains, cert.excludedURIDomains) == NameConstraintFields(t.nameConstraints)
    ensures ok ==> cert.extraExtensions == PkixExtensions(t.extensions)
    ensures ok ==> cert.serialNumber == t.serialNumber
    ensures ok ==> cert.signatureAlgorithm == SignatureAlgorithmOf(t.signatureAlgorithm, p)
  {
    ghost var basic := (cert.basicConstraintsValid, cert.isCA, cert.maxPathLen, cert.maxPathLenZero);
    ghost var names := NameConstraints(cert.permittedDNSDomainsCritical, cert.permittedDNSDomains, cert.excludedDNSDomains,
                    cert.permittedIPRanges, cert.excludedIPRanges,
                    cert.permittedEmailAddresses, cert.excludedEmailAddresses,
                    cert.permittedURIDomains, cert.excludedURIDomains);
    ok := SetKeyAndSANs(t, cert, p);
    if !ok {
      return;
    }
    assert (cert.basicConstraintsValid, cert.isCA, cert.maxPathLen, cert.maxPathLenZero) == basic;
    assert NameConstraints(cert.permittedDNSDomainsCritical, cert.permittedDNSDomains, cert.excludedDNSDomains,
                    cert.permittedIPRanges, cert.excludedIPRanges,
                    cert.permittedEmailAddresses, cert.excludedEmailAddresses,
                    cert.permittedURIDomains, cert.excludedURIDomains) == names;

    ghost var kept := (cert.publicKey, cert.publicKeyAlgorithm, cert.dnsNames, cert.ipAddresses, cert.emailAddresses, cert.uris);
    SetRest(t, cert, p);
    assert (cert.publicKey, cert.publicKeyAlgorithm, cert.dnsNames, cert.ipAddresses, cert.emailAddresses, cert.uris) == kept;
  }

  /** The first part of `GetCertificate`: the unparsed key and the address
      lists are copied, then the SANs applied. */
  method SetKeyAndSANs(t: Template, cert: X509.Certificate, p: Env) returns (ok: bool)
    modifies cert`publicKey, cert`publicKeyAlgorithm, cert`dnsNames, cert`emailAddresses, cert`ipAddresses, cert`uris
    ensures ok <==> ApplySANs(TemplateLists(t), t.sans, p).Ok?
    ensures ok ==> Split(cert.dnsNames, cert.ipAddresses, cert.emailAddresses, cert.uris) == ApplySANs(TemplateLists(t), t.sans, p).value
    ensures cert.publicKey == t.publicKey && cert.publicKeyAlgorithm == t.publicKeyAlgorithm
  {
    cert.publicKey := t.publicKey;
    cert.publicKeyAlgorithm := t.publicKeyAlgorithm;

    cert.dnsNames := t.dnsNames;
    cert.emailAddresses := t.emailAddresses;
    cert.ipAddresses := t.ipAddresses;
    cert.uris := t.uris;

    ok := SetSANs(t.sans, cert, p);
  }

  /** `GetCertificate`: a fresh certificate with the template's fields.
      A SAN of unknown type makes `SubjectAlternativeName.Set` panic; the
      model then reports `ok == false` and promises nothing about the
      certificate. The issuer is not set. */
  method GetCertificate(t: Template, p: Env) returns (cert: X509.Certificate, ok: bool)
    ensures fresh(cert)
    ensures ok <==> ApplySANs(TemplateLists(t), t.sans, p).Ok?
    ensures ok ==> Split(cert.dnsNames, cert.ipAddresses, cert.emailAddresses, cert.uris) == ApplySANs(TemplateLists(t), t.sans, p).value
    ensures ok ==> cert.publicKey == t.publicKey && cert.publicKeyAlgorithm == t.publicKeyAlgorithm
    ensures ok ==> cert.subject == X509.EmptyName.(extraNames := Names.SubjectAttributes(t.subject))
    ensures ok ==> cert.issuer == X509.EmptyName
    ensures ok ==> cert.keyUsage == t.keyUsage && cert.extKeyUsage == t.extKeyUsage
    ensures ok ==> cert.unknownExtKeyUsage == t.unknownExtKeyUsage
    ensures ok ==> cert.subjectKeyId == t.subjectKeyId && cert.authorityKeyId == t.authorityKeyId
    ensures ok ==> cert.ocspServer == t.ocspServer && cert.issuingCertificateURL == t.issuingCertificateURL
    ensures ok ==> cert.crlDistributionPoints == t.crlDistributionPoints
    ensures ok ==> cert.policyIdentifiers == t.policyIdentifiers
    ensures ok ==> (cert.basicConstraintsValid, cert.isCA, cert.maxPathLen, cert.maxPathLenZero) == BasicConstraintFields(t.basicConstraints)
    ensures ok ==> NameConstraints(cert.permittedDNSDomainsCritical, cert.permittedDNSDomains, cert.excludedDNSDomains,
                    cert.permittedIPRanges, cert.excludedIPRanges,
                    cert.permittedEmailAddresses, cert.excludedEmailAddresses,
                    cert.permittedURIDomains, cert.excludedURIDomains) == NameConstraintFields(t.nameConstraints)
    ensures ok ==> cert.extraExtensions == PkixExtensions(t.extensions)
    ensures ok ==> cert.serialNumber == t.serialNumber
    ensures ok ==> cert.signatureAlgorithm == SignatureAlgorithmOf(t.signatureAlgorithm, p)
  {
    cert := new X509.Certificate();
    ok := Populate(t, cert, p);
  }

  // ---------------------------------------------------------------------
  // CreateCertificate

  /** The collaborators of `CreateCertificate`: the random serial number
      generator, the key identifier of a public key, `x509.CreateCertificate`
      given the completed serial number and key identifier (the rest of its
      input is fixed for one call), and `x509.ParseCertificate`, reported as
      its error if any. */
  datatype Signer = Signer(
    generateSerialNumber: Result<int, Error>,
    generateSubjectKeyID: X509.PublicKey -> Result<Bytes, Error>,
    sign: (int, Bytes) -> Result<Bytes, Error>,
    parse: Bytes -> Option<Error>)

  /** A value the template already has is kept; a missing one is
      generated. */
  function Complete<T>(current: Option<T>, generated: Result<T, Error>): (r: Result<T, Error>)
    ensures current.Some? ==> r == Ok(current.value)
    ensures current.None? ==> r == generated
  {
    match current
    case Some(v) => Ok(v)
    case None => generated
  }

  /** The result of `CreateCertificate` for the template's serial number and
      key identifier: the signed certificate, or the first error, wrapped as
      the source wraps it. */
  function CreateResult(serial: Option<int>, keyId: Option<Bytes>, pub: X509.PublicKey, s: Signer): Result<Bytes, Error> {
    var sn :- Complete(serial, s.generateSerialNumber);
    var id :- Complete(keyId, s.generateSubjectKeyID(pub));
    match s.sign(sn, id)
    case Err(e) => Err(Wrapped(CreatingCertificate, e))
    case Ok(der) =>
      match s.parse(der)
      case Some(e) => Err(Wrapped(ParsingCertificate, e))
      case None => Ok(der)
  }

  /** `CreateCertificate`: fills a missing serial number and a missing
      subject key id into the template, in that order, then signs it. On
      failure the fields filled so far stay filled. */
  method CreateCertificate(template: X509.Certificate, pub: X509.PublicKey, s: Signer) returns (r: Result<Bytes, Error>)
    modifies template`serialNumber, template`subjectKeyId
    ensures r == CreateResult(old(template.serialNumber), old(template.subjectKeyId), pub, s)
    ensures old(template.serialNumber).Some? ==> template.serialNumber == old(template.serialNumber)
    ensures old(template.subjectKeyId).Some? ==> template.subjectKeyId == old(template.subjectKeyId)
    ensures Complete(old(template.serialNumber), s.generateSerialNumber).Ok? ==>
      template.serialNumber == Some(Complete(old(template.serialNumber), s.generateSerialNumber).value)
    ensures Complete(old(template.serialNumber), s.generateSerialNumber).Err? ==>
      template.serialNumber == None && template.subjectKeyId == old(template.subjectKeyId)
    ensures Complete(old(template.serialNumber), s.generateSerialNumber).Ok? && old(template.subjectKeyId).None? ==>
      template.subjectKeyId == (if s.generateSubjectKeyID(pub).Ok? then Some(s.generateSubjectKeyID(pub).value) else None)
  {
    if template.serialNumber.None? {
      var g := s.generateSerialNumber;
      if g.Err? {
        return Err(g.error);
      }
      template.serialNumber := Some(g.value);
    }
    if template.subjectKeyId.None? {
      var g := s.generateSubjectKeyID(pub);
      if g.Err? {
        return Err(g.error);
      }
      template.subjectKeyId := Some(g.value);
    }
    var asn1Data := s.sign(template.serialNumber.value, template.subjectKeyId.value);
    if asn1Data.Err? {
      return Err(Wrapped(CreatingCertificate, asn1Data.error));
    }
    var parseError := s.parse(asn1Data.value);
    if parseError.Some? {
      return Err(Wrapped(ParsingCertificate, parseError.value));
    }
    return Ok(asn1Data.value);
  }

  /** A template that has both a serial number and a key identifier is
      signed as it is: no generator is consulted. */
  lemma CompleteTemplateIgnoresGenerators(serial: int, keyId: Bytes, pub: X509.PublicKey, s: Signer, s': Signer)
    requires s.sign == s'.sign && s.parse == s'.parse
    ensures CreateResult(Some(serial), Some(keyId), pub, s) == CreateResult(Some(serial), Some(keyId), pub, s')
  {
  }

  /** A signer failure is reported, wrapped, and no certificate returned. */
  lemma SignerFailure(serial: Option<int>, keyId: Option<Bytes>, pub: X509.PublicKey, s: Signer)
    requires Complete(serial, s.generateSerialNumber).Ok?
    requires Complete(keyId, s.generateSubjectKeyID(pub)).Ok?
    requires s.sign(Complete(serial, s.generateSerialNumber).value, Complete(keyId, s.generateSubjectKeyID(pub)).value).Err?
    ensures CreateResult(serial, keyId, pub, s).Err?
    ensures CreateResult(serial, keyId, pub, s).error.Wrapped?
    ensures CreateResult(serial, keyId, pub, s).error.context == CreatingCertificate
  {
  }
}
