# x509util template layer, modelled in Dafny

This project models the part of the `x509util` package that turns a certificate
template into an `x509.Certificate`:

- the extension and SAN engine of `x509util/extensions.go`:
  - the name-table decoders for key usages, extended key usages and serial numbers;
  - the `Set` projections that write template values onto a certificate;
  - `newExtensions`;
  - the hand-built DER encoder of the Subject Alternative Name extension, `createSubjectAltNameExtension`;
- the name projector of `x509util/name.go`: `Subject.Set`, `Issuer.Set`, `newSubject`, `newIssuer` and the string shorthand of `Name`;
- the assembler of `x509util/certificate.go`: `NewCertificate`, `GetCertificate` and the fill-if-missing part of `CreateCertificate`.

Go strings and byte slices are `seq<byte>`. Object identifiers are `seq<nat>`.

`x509.Certificate` is the class `X509.Certificate`. Its fields are sequences, options and integers. The `Set` methods are methods that modify only the fields the Go code writes. `GetCertificate` allocates a fresh certificate and calls them in the source's order.

Pure code is written as functions, with lemmas about those functions. This covers `convertName`, `newExtension`, the name constructors, serial-number parsing and the DER builders.

Each loop in the source is a loop in a method. Every such method is proved equal to a specification function:

- the key-usage decode;
- the extended-key-usage decode;
- `newExtensions`;
- the SAN loop of `GetCertificate`;
- the extension loop of `GetCertificate`;
- the attribute loops of `Subject.Set`;
- the five loops of `createSubjectAltNameExtension`: its four collecting loops are the loops of `CollectSANs`, and its converting loop is the loop of `ConvertSANs`.

The properties are then proved about that function.

Go's library parsers and the repository's helpers that are not shown are fields of a `Collaborators.Env` record. These are `net.ParseIP`, `IP.String`, `url.Parse`, `URL.String`, `SplitSANs`, `SignatureAlgorithm.Set` and the UTF-8 check of the ASN.1 marshaller. Because they are parameters, every lemma holds whatever they do, with one exception. `SanEncoder.IPOctetCount` assumes `Collaborators.SixteenOctetIPs`: every address `net.ParseIP` returns has 16 octets, as Go's parser always does.

The starting points of `NewCertificate` and `CreateCertificate` are also records of functions: option application, template decoding, the serial and key-id generators, signing and parsing.

The DER encoder follows ITU-T X.690:

- tag, length octets (section 8.1.3), content;
- INTEGER content (section 8.3);
- OBJECT IDENTIFIER content (section 8.19).

The GeneralName CHOICE follows section 4.2.1.6 of RFC 5280. The encoder has a decoder beside it, and the value of the extension is proved to decode back to the GeneralNames the SANs were converted to. SANs the encoder drops (an empty type, an address or identifier that does not parse) are not among them.

Modules: `Base` (bytes, `Result`/`Option`, ASCII helpers), `Numerals` (digit strings), `Der`, `Oids` (dotted text), `X509` (the `pkix`/`x509` records and the `Certificate` class), `Collaborators`, `Extensions`, `Names`, `Certificates` (the template and the assembler), `Serials`, `SanEncoder`.

Where the code and its documentation differ, the model follows the code:

- the directory-name SAN type is `dn`, not `directoryName`;
- the JSON string shorthand of a name sets the common name to the whole string and nothing else;
- serial-number strings go through `big.Int.SetString(s, 0)`, so a sign and `_` separators are accepted, and negative serials can result.

## Model

| member | source | states |
|---|---|---|
| Extensions.ConvertName | x509util/extensions.go:18-20 | the result has no upper-case letter and no `_`; ASCII letters, U+212A and U+0130 are lowered as Go lowers them |
| Extensions.ConvertNameConverted | x509util/extensions.go:18-20 | for UTF-8 text the result is in converted form: no upper-case letter, no `_`, no U+212A, no U+0130 |
| Extensions.ConvertNameFixed | x509util/extensions.go:18-20 | a name already in converted form is left unchanged |
| Extensions.ConvertNameIdempotent | x509util/extensions.go:18-20 | converting UTF-8 text twice is converting it once |
| Extensions.ConvertNameIgnoresUnderscore | x509util/extensions.go:18-20 | inserting a `_` between code points does not change the converted name |
| Extensions.ConvertNameIgnoresCase | x509util/extensions.go:18-20 | two names that differ only in the case of ASCII letters convert to the same name |
| Extensions.ConvertNameFoldsSigns | x509util/extensions.go:18-20 | anywhere in a name, U+212A KELVIN SIGN converts as `K` and U+0130 as `I` |
| Base.ToLowerAscii | x509util/extensions.go:19 | on ASCII text every byte is lowered on its own |
| Base.ToLowerFoldFree | x509util/extensions.go:19 | a lowered text contains neither U+212A nor U+0130 |
| Base.ToLowerAppend | x509util/extensions.go:19 | lowering distributes over a split that cuts no code point |
| Base.ToLowerFixed | x509util/extensions.go:19 | text without an upper-case letter, U+212A or U+0130 is left unchanged |
| Base.ToLowerCaseless | x509util/extensions.go:19 | texts that differ only in the case of ASCII letters lower alike |
| Base.WithoutFoldFree | x509util/extensions.go:19 | removing the underscores of UTF-8 text joins no new U+212A or U+0130 |
| Extensions.Word | x509util/extensions.go:23-48 | a table entry has one ASCII byte per letter of a lower-case word and is already in converted form |
| Extensions.KeyUsageWordsLower | x509util/extensions.go:23-33 | all 9 key-usage names are lower-case words |
| Extensions.ExtKeyUsageWordsLower | x509util/extensions.go:36-51 | all 14 extended-key-usage names are lower-case words |
| Extensions.WordsDistinct | x509util/extensions.go:23-51 | the names within each table are pairwise distinct |
| Extensions.TablesDistinct | x509util/extensions.go:23-51 | the tables have 9 and 14 entries, distinct and in converted form |
| Extensions.FirstIndex | x509util/extensions.go:210-232 | the position of the first matching table entry, or none exactly when no entry matches |
| Extensions.Lookup | x509util/extensions.go:210-232 | a name selects the table entry equal to its converted form; none exactly when no entry equals it |
| Extensions.LookupEntry | x509util/extensions.go:210-232 | every table entry selects its own position |
| Extensions.KelvinSignSelectsKeyAgreement | x509util/extensions.go:210-232 | `keyAgreement` with its `k` written as U+212A selects the key-agreement flag |
| Extensions.FirstUnknown | x509util/extensions.go:210-234 | the index of the first name that selects no entry; every earlier name is known |
| Extensions.FirstUnknownAt | x509util/extensions.go:210-234 | a position before which all names are known and at which one is unknown is the first unknown one |
| Extensions.Indices | x509util/extensions.go:258-294 | one table position per name, in input order |
| Extensions.IndicesSnoc | x509util/extensions.go:258-294 | extending a known prefix by a known name appends its position |
| Extensions.FlagOr | x509util/extensions.go:236 | ORing a flag in sets that bit, keeps the others and sets no bit above the 9 flags |
| Extensions.KeyUsageMaskBits | x509util/extensions.go:210-237 | the mask of a list of flags has bit `b` set exactly when `b` is in the list, and nothing above bit 8 |
| Extensions.DecodeKeyUsage | x509util/extensions.go:204-240 | starts at 0 and ORs the flag of each name; at the first unknown name it returns that error, keeping the flags of the earlier names |
| Extensions.KeyUsageNamesRoundTrip | x509util/extensions.go:204-240 | naming flags by their table names and decoding yields exactly those flags |
| Extensions.SetKeyUsage | x509util/extensions.go:198-200 | the certificate's key usage is the template's |
| Extensions.DecodeExtKeyUsage | x509util/extensions.go:252-298 | one usage per name, same length and order, duplicates kept; an unknown name is an error and leaves the value unchanged |
| Extensions.ExtKeyUsageNamesRoundTrip | x509util/extensions.go:252-298 | writing usages by table name and decoding returns the same list |
| Extensions.SetExtKeyUsage | x509util/extensions.go:246-248 | the certificate's extended key usages are the template's |
| Extensions.NewExtension | x509util/extensions.go:101-107 | the template extension converts back to the `pkix.Extension` it came from |
| Extensions.ToPkixInjective | x509util/extensions.go:101-107 | distinct template extensions give distinct `pkix` extensions, so `newExtension` loses nothing |
| Extensions.NewExtensions | x509util/extensions.go:110-120 | nil maps to nil; otherwise same length and order, each element copied field for field |
| Extensions.SetExtension | x509util/extensions.go:123-129 | appends the extension to `ExtraExtensions`, keeping the earlier ones |
| Extensions.MarshalObjectIdentifier | x509util/extensions.go:137-139 | the dotted text parses back to the identifier |
| Extensions.UnmarshalObjectIdentifier | x509util/extensions.go:143-155 | succeeds exactly when the text parses; otherwise it is the invalid-identifier error naming the text |
| Extensions.ObjectIdentifierRoundTrip | x509util/extensions.go:137-155 | marshal then unmarshal returns the identifier |
| Extensions.ObjectIdentifierTextRoundTrip | x509util/extensions.go:137-155 | canonical dotted text survives unmarshal then marshal |
| Extensions.SetUnknownExtKeyUsage | x509util/extensions.go:320-322 | the certificate's unknown extended key usages are the template's |
| Extensions.SetSubjectKeyId | x509util/extensions.go:331-333 | the certificate's subject key id is the template's |
| Extensions.SetAuthorityKeyId | x509util/extensions.go:342-344 | the certificate's authority key id is the template's |
| Extensions.SetOCSPServer | x509util/extensions.go:361-363 | the certificate's OCSP servers are the template's |
| Extensions.SetIssuingCertificateURL | x509util/extensions.go:380-382 | the certificate's issuing-certificate URLs are the template's |
| Extensions.SetCRLDistributionPoints | x509util/extensions.go:399-401 | the certificate's CRL distribution points are the template's |
| Extensions.SetPolicyIdentifiers | x509util/extensions.go:423-425 | the certificate's policy identifiers are the template's |
| Extensions.OptionList | x509util/extensions.go:175-181 | a parse result contributes at most one element |
| Extensions.SanAdditions | x509util/extensions.go:166-191 | defined exactly for the types `dns`, `email`, `ip`, `uri`, `""` and `auto`, compared after lower-casing ASCII letters, U+212A and U+0130 |
| Extensions.DottedCapitalISelectsIp | x509util/extensions.go:166-177 | the type `\u0130p` is lowered to `ip` and takes the IP branch |
| Extensions.OidTypeLowered | x509util/extensions.go:166-191 | a dotted object-identifier type lowers to none of the accepted types |
| Extensions.SanAdditionsTyped | x509util/extensions.go:167-181 | `dns` and `email` add their value; `ip` and `uri` add the parsed value, or nothing when it does not parse |
| Extensions.SanSetRejectsEncoderTypes | x509util/extensions.go:166-191 | `registeredID` and object-identifier types panic in `Set` |
| Extensions.SetSAN | x509util/extensions.go:166-191 | the type is lowered as `SanAdditions` lowers it; appends to the four address lists, keeping their earlier elements; a panic is `false` with nothing changed |
| Extensions.ApplySANsExtends | x509util/extensions.go:166-191 | applying a list of SANs succeeds exactly when every type is accepted, and the lists it starts from are prefixes of the result |
| Extensions.ApplyDnsSANs | x509util/extensions.go:168-169 | DNS-typed SANs append their values after the starting DNS names, in order |
| Extensions.PathLenFields | x509util/extensions.go:438-457 | the four-case policy: non-CA gets (0,false); a CA with 0 gets (0,true); negative gets (-1,false); positive keeps its value with false |
| Extensions.BasicConstraintsMeaning | x509util/extensions.go:438-457 | the fields encode a depth limit exactly for a CA with a non-negative maximum, and that limit is the template's |
| Extensions.SetBasicConstraints | x509util/extensions.go:438-457 | sets `BasicConstraintsValid`, copies `IsCA` and writes the path-length fields of the policy |
| Extensions.SetNameConstraints | x509util/extensions.go:476-486 | copies criticality and the eight permitted and excluded lists |
| Extensions.SetSerialNumber | x509util/extensions.go:494-496 | the certificate's serial number is the template's |
| Extensions.SetSignatureAlgorithm | x509util/certificate.go:123 | the certificate's algorithm is what the collaborator assigns for the template's |
| Serials.Digits | x509util/extensions.go:512-534 | a digit string of the base, `_` only between digits or after the prefix, is read; anything else is rejected |
| Serials.Radix | x509util/extensions.go:512-534 | every prefix selects a base between 2 and 16 |
| Serials.ParseFormatSerial | x509util/extensions.go:512-534 | every integer written in any notation (decimal, `0b`, `0o`, leading `0`, `0x`, either case, with sign) parses back to itself |
| Serials.ParseSigned | x509util/extensions.go:512-534 | a leading `-` negates the magnitude |
| Serials.MagnitudeOfFormat | x509util/extensions.go:512-534 | the prefix selects the base of the digits that follow |
| Serials.MagnitudeOfDecimal | x509util/extensions.go:512-534 | a decimal numeral reads as its value |
| Serials.MagnitudeOfLeadingZero | x509util/extensions.go:512-534 | a leading `0` selects octal |
| Serials.MagnitudeOfLettered | x509util/extensions.go:512-534 | `0b`, `0o` and `0x` select bases 2, 8 and 16 |
| Serials.NumeralLeading | x509util/extensions.go:512-534 | a positive numeral does not start with `0`, so decimal text is never octal |
| Serials.DigitsOfNumeral | x509util/extensions.go:512-534 | the numeral of a value in a base reads back as that value |
| Serials.SeparatorIgnored | x509util/extensions.go:512-534 | a `_` between two digits does not change the value |
| Serials.LeadingZeroIsOctal | x509util/extensions.go:512-534 | `0` is 0, `010` is 8, and `08` is rejected |
| Serials.RejectedSeparators | x509util/extensions.go:512-534 | a bare prefix, a leading, trailing or doubled `_`, a bare sign and the empty string are rejected |
| Serials.UnmarshalSerialNumber | x509util/extensions.go:512-534 | text is parsed with the prefix rules and an invalid string is an error; a number is taken as is; other JSON is an error |
| Serials.MarshalSerialNumber | x509util/extensions.go:500-505 | nil is JSON null; otherwise the number |
| Serials.UnmarshalText | x509util/extensions.go:512-534 | the text of any integer in any notation decodes to it |
| Serials.MarshalRoundTrip | x509util/extensions.go:500-534 | marshal then unmarshal returns the serial; a nil serial comes back as 0 |
| Names.UnmarshalName | x509util/name.go:50-63 | a JSON string sets only the common name, an object replaces the whole name, `null` gives the empty name without error, and other JSON that is neither a string nor an object is an error |
| Names.UnmarshalSubject | x509util/name.go:84-91 | the same decoding for a subject, starting from the empty name: a string gives a name with only a common name, and `null` gives the empty subject |
| Names.NewSubject | x509util/name.go:68-80 | copies the nine `pkix.Name` fields and leaves the five template-only fields empty |
| Names.NewIssuer | x509util/name.go:255-267 | copies the nine `pkix.Name` fields and leaves the five template-only fields empty |
| Names.IssuerPkix | x509util/name.go:281-293 | the nine shared fields are copied and no `ExtraNames` are added |
| Names.SetIssuer | x509util/name.go:281-293 | the certificate's issuer is that copy |
| Names.IssuerRoundTrip | x509util/name.go:255-293 | `newIssuer` after `Issuer.Set` keeps the shared fields and drops domain component, title, given name, surname and UID |
| Names.PkixIssuerRoundTrip | x509util/name.go:255-293 | `Issuer.Set` after `newIssuer` restores the `pkix.Name` except its `ExtraNames` |
| Names.SubjectOrderDistinct | x509util/name.go:31-46 | the 14 attribute types are distinct |
| Names.Attributes | x509util/name.go:109-165 | one attribute per list value, in order, each an IA5String of the value |
| Names.Optional | x509util/name.go:166-246 | a single-valued field contributes nothing exactly when it is empty |
| Names.Groups | x509util/name.go:107-247 | the groups, in order: country, locality, province, street address, postal code, organization, domain component, organizational unit, title, given name, surname, common name, serial number, UID |
| Names.ValuesOfAppend | x509util/name.go:107-247 | the values of a type in a concatenation are those of each part, in order |
| Names.ValuesOfAttributes | x509util/name.go:109-246 | a group holds values of its own type only |
| Names.ValuesOfGroups | x509util/name.go:107-247 | the values of a type come from its own group alone |
| Names.ValuesOfSubject | x509util/name.go:107-247 | the values of each attribute type in `ExtraNames` are exactly that field's values |
| Names.PrefixCountStep | x509util/name.go:107-247 | each group adds one attribute per value of its field |
| Names.PrefixCountEnds | x509util/name.go:107-247 | the count starts at zero and ends at the length of `ExtraNames` |
| Names.SubjectAttributeCount | x509util/name.go:107-247 | the number of `ExtraNames` is the sum of the list lengths plus the number of non-empty single-valued fields |
| Names.SubjectRoundTrip | x509util/name.go:107-247 | every field of the subject, including the five the issuer drops, can be read back from `ExtraNames` |
| Names.RankOfOrder | x509util/name.go:31-46 | each type's rank is its position in the order |
| Names.GroupsOrdered | x509util/name.go:107-247 | the attributes of the first groups are ordered by group rank |
| Names.SubjectAttributesOrdered | x509util/name.go:107-247 | the attributes of `ExtraNames` are grouped in the fixed type order |
| Names.GroupsIA5 | x509util/name.go:110-246 | every attribute of the groups is tagged IA5String |
| Names.SubjectAttributesIA5 | x509util/name.go:110-246 | every entry of `ExtraNames` is an IA5String of the raw value bytes |
| Names.AppendAttributes | x509util/name.go:109-165 | appends one attribute per value to `ExtraNames`, keeping the earlier entries |
| Names.AppendIfSet | x509util/name.go:166-246 | appends the attribute only when the value is non-empty |
| Names.SetSubject | x509util/name.go:94-249 | the subject is reset to an empty name whose `ExtraNames` are the attributes in the fixed order |
| Certificates.NewCertificate | x509util/certificate.go:45-75 | a bad request signature fails before anything else; without a template the signature algorithm is 0; with a template the request's key and key algorithm win and nothing else changes |
| Certificates.NewCertificateUsesRequestKey | x509util/certificate.go:71-72 | a certificate built from a template carries the request's key |
| Certificates.PkixExtensions | x509util/certificate.go:117-119 | one `pkix.Extension` per template extension, in declaration order |
| Certificates.BasicConstraintFields | x509util/certificate.go:109-111 | absent constraints leave the fields at their zero values with `BasicConstraintsValid` false |
| Certificates.NameConstraintFields | x509util/certificate.go:112-114 | absent name constraints leave all nine fields at their zero values; present ones are copied |
| Certificates.SetSANs | x509util/certificate.go:91-93 | applies each SAN's `Set` in order; succeeds exactly when the list function does, with its lists |
| Certificates.SetDefinedExtensions | x509util/certificate.go:99-114 | writes every defined extension; the constraints only when present |
| Certificates.SetUsageExtensions | x509util/certificate.go:99-108 | copies key usages, key ids, URLs and policies from the template |
| Certificates.SetBasic | x509util/certificate.go:109-111 | sets basic constraints only when the template has them |
| Certificates.SetNames | x509util/certificate.go:112-114 | sets name constraints only when the template has them |
| Certificates.SetExtensions | x509util/certificate.go:117-119 | appends the custom extensions in declaration order |
| Certificates.SetSubjectAndExtensions | x509util/certificate.go:96-114 | the subject and every defined extension are written |
| Certificates.SetOthers | x509util/certificate.go:117-123 | custom extensions appended, then the serial number and signature algorithm set |
| Certificates.SetRest | x509util/certificate.go:96-123 | the subject, defined extensions, custom extensions, serial and algorithm, with `ExtraExtensions` exactly the template's extensions |
| Certificates.SetKeyAndSANs | x509util/certificate.go:82-93 | the key passes through; shorthand lists installed first, then each SAN appended |
| Certificates.Populate | x509util/certificate.go:82-123 | all projections in order on a blank certificate; fails exactly when a SAN `Set` panics |
| Certificates.GetCertificate | x509util/certificate.go:79-126 | a fresh certificate carrying every template field as its projection writes it; the shorthand lists are a prefix of the address lists; the issuer stays empty |
| Certificates.Complete | x509util/certificate.go:133-143 | a present value is kept; a missing one is generated |
| Certificates.CreateCertificate | x509util/certificate.go:130-154 | fills only a missing serial and a missing key id, in that order, each with its generator's value, and leaves the key id missing when its generator fails; signs with them; a failure is an error with no certificate |
| Certificates.CompleteTemplateIgnoresGenerators | x509util/certificate.go:133-143 | a template with both values consults no generator |
| Certificates.SignerFailure | x509util/certificate.go:146-149 | a signer failure is wrapped as the certificate-creation error |
| SanEncoder.StringTag | x509util/extensions.go:651-659 | a string kind's tag is neither INTEGER nor OBJECT IDENTIFIER, so the three kinds of value are told apart |
| SanEncoder.NameItems | x509util/extensions.go:582-684 | one tag/content pair per GeneralName, in order |
| Der.LengthRoundTrip | x509util/extensions.go:687-695 | DER length octets (section 8.1.3 of X.690) read back as the length |
| Der.TlvRoundTrip | x509util/extensions.go:687-695 | a tag-length-value reads back as its tag and content, with nothing consumed beyond it |
| Der.TlvsRoundTrip | x509util/extensions.go:687-695 | a sequence of TLVs reads back item by item |
| Der.Base128RoundTrip | x509util/extensions.go:606-613 | the base-128 sub-identifier encoding reads back |
| Der.OidContentRoundTrip | x509util/extensions.go:606-613 | OBJECT IDENTIFIER content (section 8.19 of X.690) reads back as the identifier |
| Der.IntRoundTrip | x509util/extensions.go:634-642 | INTEGER content (section 8.3 of X.690) is minimal two's complement and reads back as the integer |
| Oids.ParseFormat | x509util/extensions.go:137-155 | the dotted text of an identifier parses back to it |
| Oids.FormatParse | x509util/extensions.go:137-155 | canonical dotted text is the text of what it parses to |
| Numerals.ParseFormatInt | x509util/extensions.go:634-642 | the decimal text of an integer parses back to it |
| SanEncoder.OtherValueRoundTrip | x509util/extensions.go:634-659 | an otherName value decodes back from its DER |
| SanEncoder.IntegerRoundTrip | x509util/extensions.go:634-642 | an INTEGER value decodes back |
| SanEncoder.OidValueRoundTrip | x509util/extensions.go:643-650 | an OBJECT IDENTIFIER value decodes back |
| SanEncoder.StringRoundTrip | x509util/extensions.go:651-659 | a string value decodes back with its kind |
| SanEncoder.OtherNameRoundTrip | x509util/extensions.go:668-676 | `[0]{ OID(type), [0]{ value } }` decodes back to the type and value |
| SanEncoder.NameRoundTrip | x509util/extensions.go:582-684 | every GeneralName choice decodes back from its tag and content |
| SanEncoder.NamesRoundTrip | x509util/extensions.go:582-684 | the list of name items decodes to the list of names |
| SanEncoder.TlvsBound | x509util/extensions.go:687-695 | every item is shorter than the whole encoding |
| SanEncoder.GeneralNamesRoundTrip | x509util/extensions.go:687-695 | the SEQUENCE of GeneralNames parses back to the names |
| SanEncoder.SemicolonIndex | x509util/extensions.go:626-631 | the position of the first `;`, or the length when there is none |
| SanEncoder.SplitValue | x509util/extensions.go:626-631 | without `;` the kind is printable and the payload the whole value; with one, the kind is the text before the first `;` and the payload the rest |
| SanEncoder.SplitUnique | x509util/extensions.go:626-631 | the split at the first `;` is unique |
| SanEncoder.OtherNameValue | x509util/extensions.go:632-667 | an OBJECT IDENTIFIER value it builds is one DER can encode, and its only errors are the invalid-int, invalid-OID and marshal errors |
| SanEncoder.MarshalString | x509util/extensions.go:651-662 | a string value is produced exactly when its bytes are in the string type's alphabet (any ASCII for IA5String, digits and space for NumericString, the X.680 PrintableString alphabet plus `*`), and otherwise the marshal error |
| SanEncoder.SemicolonNotPrintable | x509util/extensions.go:660-666 | text holding a `;` never marshals as a PrintableString |
| SanEncoder.OtherNameIntInvalid | x509util/extensions.go:634-640 | `int;` followed by text `strconv.Atoi` rejects is the invalid-int error naming the SAN type |
| SanEncoder.OtherNameOidInvalid | x509util/extensions.go:643-648 | `oid;` followed by text that is no dotted identifier is the invalid-OID error naming the SAN type |
| SanEncoder.OtherNameOidUnencodable | x509util/extensions.go:643-650 | `oid;` followed by an identifier DER cannot encode is the marshal error |
| SanEncoder.OtherNameInt | x509util/extensions.go:634-642 | `int;` followed by a decimal integer encodes that integer |
| SanEncoder.OtherNameOid | x509util/extensions.go:643-650 | `oid;` followed by a dotted identifier encodes that identifier |
| SanEncoder.OtherNameWithoutKind | x509util/extensions.go:626-631 | a value without `;` is encoded whole as a PrintableString |
| SanEncoder.OtherNameUnknownKind | x509util/extensions.go:626-666 | an unknown kind marshals the entire original value as a PrintableString; that value holds the `;` that selected the kind, so this branch is always the marshal error |
| SanEncoder.OtherNameStringKind | x509util/extensions.go:651-659 | `utf8`, `ia5`, `numeric` and `printable` encode the payload as that string type |
| SanEncoder.KindNameSelects | x509util/extensions.go:651-659 | each string kind's text selects its own branch and no other (not `int`, not `oid`) |
| SanEncoder.IPOctets | x509util/extensions.go:598-605 | an IPv4-representable address gives its last 4 octets, the To4 form; any other gives its own octets |
| SanEncoder.ToGeneralName | x509util/extensions.go:582-684 | for a DerReady SAN, every name it emits has only identifiers DER can encode |
| SanEncoder.EmailTypeCase | x509util/extensions.go:586-587 | `email` emits `[1]` over the value |
| SanEncoder.DnsTypeCase | x509util/extensions.go:588-589 | `dns` emits `[2]` over the value |
| SanEncoder.UnimplementedTypeCase | x509util/extensions.go:590-595 | `x400Address`, `dn` and `ediPartyName` are errors |
| SanEncoder.UriTypeCase | x509util/extensions.go:596-597 | `uri` emits `[6]` over the value |
| SanEncoder.IPTypeCase | x509util/extensions.go:598-605 | `ip` emits `[7]` over the octets, or nothing when the address does not parse |
| SanEncoder.RegisteredIdTypeCase | x509util/extensions.go:606-613 | `registeredID` emits `[8]` over the identifier, and is dropped when empty or unparsable |
| SanEncoder.EmptyTypeDropped | x509util/extensions.go:614-615 | a SAN with an empty type is dropped |
| SanEncoder.OtherTypeCase | x509util/extensions.go:614-681 | any other type is an otherName under its OID, or the unsupported-type error when it is not an OID |
| SanEncoder.TypesAreCaseSensitive | x509util/extensions.go:582-681 | `DNS` is neither `dns` nor an OID, so it is unsupported |
| SanEncoder.AutoIsUnsupported | x509util/extensions.go:582-681 | `auto`, which `Set` accepts, is unsupported here |
| SanEncoder.IPOctetCount | x509util/extensions.go:598-605 | an `ip` SAN always succeeds; it emits 4 or 16 octets exactly when the address parses |
| SanEncoder.ToGeneralNames | x509util/extensions.go:582-684 | at most one name per SAN, and for DerReady SANs the emitted names are DER-encodable |
| SanEncoder.Emitted | x509util/extensions.go:582-684 | an error stops, a dropped SAN adds nothing, an emitted name adds one |
| SanEncoder.Then | x509util/extensions.go:582-684 | the first error wins; otherwise the names are concatenated |
| SanEncoder.ThenAssoc | x509util/extensions.go:582-684 | combining results is associative |
| SanEncoder.FirstErrorWins | x509util/extensions.go:582-684 | the list fails exactly when some SAN fails, and then with the error of the first failing SAN |
| SanEncoder.ErrorIffAny | x509util/extensions.go:582-684 | the list conversion fails exactly when one of its SANs fails |
| SanEncoder.FirstErrorResult | x509util/extensions.go:582-684 | when the SANs before one all succeed and that one fails, the list fails with that SAN's error |
| SanEncoder.ToGeneralNamesSnoc | x509util/extensions.go:582-684 | one more SAN appends its name |
| SanEncoder.ToGeneralNamesAppend | x509util/extensions.go:582-684 | converting a concatenation is concatenating the conversions |
| SanEncoder.EachEmits | x509util/extensions.go:582-684 | when every SAN emits a name, the result is those names in order |
| SanEncoder.DnsSANs | x509util/extensions.go:552-557 | one `dns` SAN per DNS name, in order |
| SanEncoder.EmailSANs | x509util/extensions.go:558-563 | one `email` SAN per address, in order |
| SanEncoder.UriSANs | x509util/extensions.go:564-570 | one `uri` SAN per URL, holding its text |
| SanEncoder.IpSANs | x509util/extensions.go:571-577 | one `ip` SAN per address, holding its text |
| SanEncoder.AllSANs | x509util/extensions.go:548-579 | explicit SANs first, then DNS, email, URI and IP; the length is the sum |
| SanEncoder.AllSANsReady | x509util/extensions.go:548-579 | the generated SANs add no identifier DER cannot encode |
| SanEncoder.IPNames | x509util/extensions.go:598-605 | at most one name per address |
| SanEncoder.DnsNames | x509util/extensions.go:588-589 | one `[2]` name per DNS name |
| SanEncoder.EmailNames | x509util/extensions.go:586-587 | one `[1]` name per address |
| SanEncoder.UriNames | x509util/extensions.go:596-597 | one `[6]` name per URL text |
| SanEncoder.DnsSANsNames | x509util/extensions.go:552-589 | the DNS shorthand converts to its names, without error |
| SanEncoder.EmailSANsNames | x509util/extensions.go:558-587 | the email shorthand converts to its names, without error |
| SanEncoder.UriSANsNames | x509util/extensions.go:564-597 | the URI shorthand converts to its names, without error |
| SanEncoder.IpSANsNames | x509util/extensions.go:571-605 | the IP shorthand converts to the names of the addresses whose text parses again, without error |
| SanEncoder.AllSANsNames | x509util/extensions.go:548-684 | the whole list converts to the explicit SANs' result followed by the shorthand names |
| SanEncoder.SubjectAltNameExtension | x509util/extensions.go:543-696 | the extension has OID 2.5.29.17 and is non-critical; it exists exactly when the conversion succeeds |
| SanEncoder.CollectSANs | x509util/extensions.go:548-579 | the loops build exactly the working list |
| SanEncoder.ConvertSANs | x509util/extensions.go:582-684 | the loop yields exactly the list conversion, stopping at the first error |
| SanEncoder.ConvertStep | x509util/extensions.go:582-684 | one iteration: an error ends the conversion with that error, a dropped SAN leaves the names as they are, an emitted name is appended |
| SanEncoder.CreateSubjectAltNameExtension | x509util/extensions.go:543-696 | the method computes the extension function |
| SanEncoder.SubjectAltNameDecodes | x509util/extensions.go:687-695 | the extension value decodes back to the emitted names |
| SanEncoder.ListsOnly | x509util/extensions.go:548-695 | without explicit SANs there is always an extension, and its value decodes to the shorthand names |

## Left out

- ConvertName: Go's `strings.ToLower` works on code points. The model lowers only ASCII letters, U+212A and U+0130, the only code points whose lower case is ASCII. Other non-ASCII letters keep their bytes, and invalid UTF-8 is not replaced by U+FFFD. Such bytes never occur in an ASCII table name, so the name a decoder selects is the same.
- ConvertNameIdempotent: stated for text in which no `_` is followed by a UTF-8 continuation byte, which holds for UTF-8 text such as decoded JSON strings. For other byte strings Go's U+FFFD replacement, which the model leaves out, is what makes a second conversion a no-op.
- ConvertNameIgnoresUnderscore: the `_` must not be followed by a continuation byte. Go has the same limit: an `_` placed inside a code point breaks that code point.
- SanAdditions: the type is lowered by the same `ToLower` as `ConvertName`, with the same limits. The accepted types are ASCII, so a type is accepted by the model exactly when Go accepts it.
- SetSAN: lowers the type as `SanAdditions` does.
- JSON plumbing is left out. Decoders start from the already-extracted string, list or number. Go's `encoding/json` and the helpers used with it, `unmarshalString`, `unmarshalMultiString` and `maybeString`, are not part of this model. So are the `MarshalJSON`/`UnmarshalJSON` pairs of the list types.
- The collaborators are parameters without definitions. These are `net.ParseIP`, `IP.String`, `url.Parse`, `URL.String`, `SplitSANs` (the `""`/`auto` branch of `SubjectAlternativeName.Set`), `SignatureAlgorithm.Set` and the loose `MultiIP`/`MultiURL`/`MultiIPNet` types. They live in files that are not part of this model.
- Extensions.UnmarshalObjectIdentifier: `parseObjectIdentifier` is not part of this model. The model reads it with a reference definition: dot-separated, non-empty decimal components. The Go helper converts each part with `strconv.Atoi` and maps `""` to an empty identifier, so `+1`, `-1` and the empty text are not modelled.
- SanEncoder.ToGeneralName reads the SAN type and a `registeredID` value with the same digits-only parse. So a type such as `+1.2`, which Go's parse accepts and turns into an otherName, is the unsupported-type error in the model. A `registeredID` of `1.+2`, which Go emits, is dropped in the model.
- SanEncoder.OtherNameValue reads an `oid;` payload with the same parse. An empty payload, which Go turns into the empty identifier and then a marshal error, is the invalid-OID error in the model.
- Serials.UnmarshalSerialNumber: the JSON decoder itself is not modelled; its input is already classified as text, integer, null or malformed JSON. The `int64` range of Go's decoder is modelled: a number outside it is `InvalidJson`.
- Numerals.ParseInt: the `int;` otherName kind is read as an unbounded decimal integer. The range limit of `strconv.Atoi` is not modelled.
- Go's UTF-8 check for the `utf8` kind is the abstract collaborator `validUtf8`. A string it rejects is the marshal error. The alphabets of the other three kinds are written out in `SanEncoder.ValidString`, following the checks of Go's `encoding/asn1`. That package is not part of this model.
- SanEncoder.SubjectAltNameExtension requires every explicit SAN to be `DerReady`, in isolation. This excludes identifiers DER cannot encode, such as a first arc above 2 or a single arc, whether in an otherName type or a `registeredID`. The Go code discards the marshal errors of those identifiers, and the model does not describe the output it then produces.
- SanEncoder.CreateSubjectAltNameExtension has the same requirement, since it computes `SubjectAltNameExtension`. A `registeredID` SAN such as `3.1` is outside it: Go discards the marshal error and emits an empty RawValue for that name, which the model does not describe.
- The round-trip lemmas of the DER encoder assume an encoding shorter than 2^63 octets, the range of the length octets the decoder reads.
- The SAN encoder builds `asn1.RawValue`s, and the model represents them by `GeneralName` values. Their DER is the tag-length-value the model builds, with `Tlv(ContextTag(n, constructed), content)` for the class-context items.
- CreateCertificate: `x509.CreateCertificate` and `x509.ParseCertificate` are the functions `sign` and `parse`. `sign` sees only the completed serial number and key id. The parsed certificate is represented by its DER.
- The signature check of the request, the option application, the default leaf template and the template decoding are functions of `Certificates.Builder`. The random serial generator and the SHA-1 key identifier are fields of `Certificates.Signer`.
- A panic in `SubjectAlternativeName.Set` is modelled as a `false` result. `GetCertificate` then reports `ok == false` instead of unwinding.
- `GetCertificate` never calls `Issuer.Set` or `createSubjectAltNameExtension`, and the model does not connect them either. The issuer of an assembled certificate stays empty.
- The template's `Version` field is not read by any modelled code.
- Extensions.SetKeyUsage: a key usage is a 16-bit vector. The difference between a nil and an empty slice is modelled only where the code tests for nil: `newExtensions`, the serial number and the key id.
