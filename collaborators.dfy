/** The collaborators the core calls but does not define: Go's text parsers
    and printers for addresses and URLs, the repository's `SplitSANs` and
    `SignatureAlgorithm.Set`, and the UTF-8 check of Go's ASN.1 string
    marshaller. They are parameters of the model, so every property
    proved holds whatever they do. */
module Collaborators {
  import opened Base
  import X509

  /** The ASN.1 string types an otherName value can be written as. */
  datatype StringKind = Utf8 | IA5 | Numeric | Printable

  /** What `SplitSANs` sorts a list of names into, in Go's result order. */
  datatype Split = Split(dnsNames: seq<Bytes>, ips: seq<X509.IP>, emails: seq<Bytes>, uris: seq<X509.URL>)

  datatype Env = Env(
    /** `net.ParseIP`: none for text that is not an address. */
    parseIP: Bytes -> Option<X509.IP>,
    /** `net.IP.String`. */
    ipString: X509.IP -> Bytes,
    /** `url.Parse`: none where it returns an error. */
    parseURL: Bytes -> Option<X509.URL>,
    /** `url.URL.String`. */
    urlString: X509.URL -> Bytes,
    /** `SplitSANs` applied to a one-element list. */
    splitSANs: Bytes -> Split,
    /** Whether Go's ASN.1 marshaller accepts the bytes as a UTF8String. */
    validUtf8: Bytes -> bool,
    /** `SignatureAlgorithm.Set`: the `x509.SignatureAlgorithm` a template's
        algorithm stands for. */
    signatureAlgorithm: nat -> nat)

  /** `net.ParseIP` returns the 16-octet form of every address it accepts. */
  ghost predicate SixteenOctetIPs(p: Env) {
    forall s :: p.parseIP(s).Some? ==> |p.parseIP(s).value.octets| == 16
  }
}
