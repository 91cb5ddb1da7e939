/** The parts of Go's `crypto/x509` and `crypto/x509/pkix` records that the
    template layer writes: `pkix.Name`, `pkix.Extension`, `net.IP` and the
    `x509.Certificate` being assembled. */
module X509 {
  import opened Base

  /** `net.IP`: the address octets (4 or 16 of them). */
  datatype IP = IP(octets: Bytes)

  /** `net.IP.To4`: the 4-octet form of an IPv4 address, whether stored in
      4 octets or as an IPv4-mapped IPv6 address; none for other addresses. */
  function To4(ip: IP): (r: Option<Bytes>)
    ensures r.Some? ==> |r.value| == 4
    ensures |ip.octets| == 4 ==> r == Some(ip.octets)
    ensures |ip.octets| != 4 && |ip.octets| != 16 ==> r == None
  {
    var o := ip.octets;
    if |o| == 4 then Some(o)
    else if |o| == 16 && (forall i | 0 <= i < 10 :: o[i] == 0) && o[10] == 0xFF && o[11] == 0xFF then Some(o[12..])
    else None
  }

  /** A parsed `*url.URL`; its structure is not modelled. */
  datatype URL = URL(parsed: Bytes)

  /** `*net.IPNet`. */
  datatype IPNet = IPNet(ip: IP, mask: Bytes)

  /** The `interface{}` public key: nil or some key value. */
  datatype PublicKey = NoKey | Key(handle: nat)

  /** `asn1.RawValue` as the name projector fills it: class, tag and
      contents octets. */
  datatype RawValue = RawValue(tagClass: nat, tag: nat, bytes: Bytes)

  datatype AttributeTypeAndValue = AttributeTypeAndValue(typ: Oid, value: RawValue)

  /** `pkix.Name` (the parsed `Names` field is not modelled). */
  datatype Name = Name(
    country: seq<Bytes>,
    organization: seq<Bytes>,
    organizationalUnit: seq<Bytes>,
    locality: seq<Bytes>,
    province: seq<Bytes>,
    streetAddress: seq<Bytes>,
    postalCode: seq<Bytes>,
    serialNumber: Bytes,
    commonName: Bytes,
    extraNames: seq<AttributeTypeAndValue>)

  /** `pkix.Name{}`. */
  const EmptyName := Name([], [], [], [], [], [], [], [], [], [])

  /** `pkix.Extension`. */
  datatype Extension = Extension(id: Oid, critical: bool, value: Bytes)

  /** `x509.KeyUsage`: a bit mask; Go's flags use bits 0 to 8. */
  type KeyUsage = bv16

  /** `x509.ExtKeyUsage`: Go's enumeration, numbered from 0. */
  type ExtKeyUsage = nat

  /** `x509.Certificate`, restricted to the fields the template layer
      writes. Go's nil and empty slices are both the empty sequence, except
      for the serial number and the subject key id, whose nil-ness the
      certificate creation tests. */
  class Certificate {
    var publicKey: PublicKey
    var publicKeyAlgorithm: nat
    var signatureAlgorithm: nat
    var serialNumber: Option<int>
    var subject: Name
    var issuer: Name
    var dnsNames: seq<Bytes>
    var emailAddresses: seq<Bytes>
    var ipAddresses: seq<IP>
    var uris: seq<URL>
    var keyUsage: KeyUsage
    var extKeyUsage: seq<ExtKeyUsage>
    var unknownExtKeyUsage: seq<Oid>
    var subjectKeyId: Option<Bytes>
    var authorityKeyId: Bytes
    var ocspServer: seq<Bytes>
    var issuingCertificateURL: seq<Bytes>
    var crlDistributionPoints: seq<Bytes>
    var policyIdentifiers: seq<Oid>
    var basicConstraintsValid: bool
    var isCA: bool
    var maxPathLen: int
    var maxPathLenZero: bool
    var permittedDNSDomainsCritical: bool
    var permittedDNSDomains: seq<Bytes>
    var excludedDNSDomains: seq<Bytes>
    var permittedIPRanges: seq<IPNet>
    var excludedIPRanges: seq<IPNet>
    var permittedEmailAddresses: seq<Bytes>
    var excludedEmailAddresses: seq<Bytes>
    var permittedURIDomains: seq<Bytes>
    var excludedURIDomains: seq<Bytes>
    var extraExtensions: seq<Extension>

    /** `new(x509.Certificate)`: every field at its zero value. */
    constructor ()
      ensures publicKey == NoKey && publicKeyAlgorithm == 0 && signatureAlgorithm == 0
      ensures serialNumber == None && subject == EmptyName && issuer == EmptyName
      ensures dnsNames == [] && emailAddresses == [] && ipAddresses == [] && uris == []
      ensures keyUsage == 0 && extKeyUsage == [] && unknownExtKeyUsage == []
      ensures subjectKeyId == None && authorityKeyId == []
      ensures ocspServer == [] && issuingCertificateURL == [] && crlDistributionPoints == []
      ensures policyIdentifiers == []
      ensures !basicConstraintsValid && !isCA && maxPathLen == 0 && !maxPathLenZero
      ensures !permittedDNSDomainsCritical
      ensures permittedDNSDomains == [] && excludedDNSDomains == []
      ensures permittedIPRanges == [] && excludedIPRanges == []
      ensures permittedEmailAddresses == [] && excludedEmailAddresses == []
      ensures permittedURIDomains == [] && excludedURIDomains == []
      ensures extraExtensions == []
    {
      publicKey, publicKeyAlgorithm, signatureAlgorithm := NoKey, 0, 0;
      serialNumber, subject, issuer := None, EmptyName, EmptyName;
      dnsNames, emailAddresses, ipAddresses, uris := [], [], [], [];
      keyUsage, extKeyUsage, unknownExtKeyUsage := 0, [], [];
      subjectKeyId, authorityKeyId := None, [];
      ocspServer, issuingCertificateURL, crlDistributionPoints := [], [], [];
      policyIdentifiers := [];
      basicConstraintsValid, isCA, maxPathLen, maxPathLenZero := false, false, 0, false;
      permittedDNSDomainsCritical := false;
      permittedDNSDomains, excludedDNSDomains := [], [];
      permittedIPRanges, excludedIPRanges := [], [];
      permittedEmailAddresses, excludedEmailAddresses := [], [];
      permittedURIDomains, excludedURIDomains := [], [];
      extraExtensions := [];
    }
  }
}
