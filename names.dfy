/** The subject and issuer of a template (x509util/name.go): the JSON
    `Name` record, its projections from and into `pkix.Name`, and the
    `Subject.Set` encoding of every field as IA5String attributes of
    `ExtraNames` in a fixed order. */
module Names {
  import opened Base
  import X509

  /** `Name`, and with it `Subject` and `Issuer`, which share its fields. */
  datatype Name = Name(
    country: seq<Bytes>,
    organization: seq<Bytes>,
    organizationalUnit: seq<Bytes>,
    domainController: seq<Bytes>,
    locality: seq<Bytes>,
    province: seq<Bytes>,
    streetAddress: seq<Bytes>,
    postalCode: seq<Bytes>,
    serialNumber: Bytes,
    commonName: Bytes,
    surname: Bytes,
    givenName: Bytes,
    title: Bytes,
    uid: Bytes)

  const EmptyTemplateName := Name([], [], [], [], [], [], [], [], [], [], [], [], [], [])

  // ---------------------------------------------------------------------
  // JSON

  /** The JSON value a name is decoded from: a string (already unquoted),
      an object (already decoded field by field), `null`, or anything
      else. */
  datatype NameJson = NameText(text: Bytes) | NameObject(fields: Name) | NameNull | NameMalformed

  /** `Name.UnmarshalJSON` on the name `n`: a string sets only the common
      name, an object replaces the whole name, and `null` leaves the
      decoded alias at its zero value, which then replaces the name. */
  function UnmarshalName(n: Name, data: NameJson): (r: Result<Name, Error>)
    ensures data.NameText? ==>
      r.Ok? && r.value.commonName == data.text && r.value.(commonName := n.commonName) == n
    ensures data.NameObject? ==> r == Ok(data.fields)
    ensures data.NameNull? ==> r == Ok(EmptyTemplateName)
    ensures data.NameMalformed? ==> r.Err?
  {
    match data
    case NameText(cn) => Ok(n.(commonName := cn))
    case NameObject(m) => Ok(m)
    case NameNull => Ok(EmptyTemplateName)
    case NameMalformed => Err(InvalidJson)
  }

  /** `Subject.UnmarshalJSON` and `Issuer.UnmarshalJSON`: decode into a
      fresh name, so a string yields a name with only a common name. */
  function UnmarshalSubject(data: NameJson): (r: Result<Name, Error>)
    ensures data.NameText? ==> r == Ok(EmptyTemplateName.(commonName := data.text))
    ensures data.NameObject? ==> r == Ok(data.fields)
    ensures data.NameNull? ==> r == Ok(EmptyTemplateName)
    ensures data.NameMalformed? ==> r.Err?
  {
    UnmarshalName(EmptyTemplateName, data)
  }

  // ---------------------------------------------------------------------
  // Projections

  /** The fields `pkix.Name` and `Name` have in common. */
  predicate SharedFieldsAgree(s: Name, n: X509.Name) {
    s.country == n.country && s.organization == n.organization &&
    s.organizationalUnit == n.organizationalUnit && s.locality == n.locality &&
    s.province == n.province && s.streetAddress == n.streetAddress &&
    s.postalCode == n.postalCode && s.serialNumber == n.serialNumber &&
    s.commonName == n.commonName
  }

  /** The fields only the template has. */
  predicate TemplateOnlyEmpty(s: Name) {
    s.domainController == [] && s.surname == [] && s.givenName == [] && s.title == [] && s.uid == []
  }

  /** `newSubject`: the nine shared fields of a `pkix.Name`. */
  function NewSubject(n: X509.Name): (s: Name)
    ensures SharedFieldsAgree(s, n) && TemplateOnlyEmpty(s)
  {
    Name(n.country, n.organization, n.organizationalUnit, [], n.locality, n.province,
      n.streetAddress, n.postalCode, n.serialNumber, n.commonName, [], [], [], [])
  }

  /** `newIssuer`, which copies the same fields. */
  function NewIssuer(n: X509.Name): (s: Name)
    ensures SharedFieldsAgree(s, n) && TemplateOnlyEmpty(s)
  {
    Name(n.country, n.organization, n.organizationalUnit, [], n.locality, n.province,
      n.streetAddress, n.postalCode, n.serialNumber, n.commonName, [], [], [], [])
  }

  /** The `pkix.Name` `Issuer.Set` writes: the nine shared fields, and no
      `ExtraNames`. */
  function IssuerPkix(i: Name): (n: X509.Name)
    ensures SharedFieldsAgree(i, n) && n.extraNames == []
  {
    X509.Name(i.country, i.organization, i.organizationalUnit, i.locality, i.province,
      i.streetAddress, i.postalCode, i.serialNumber, i.commonName, [])
  }

  /** `Issuer.Set`. */
  method SetIssuer(i: Name, c: X509.Certificate)
    modifies c`issuer
    ensures c.issuer == IssuerPkix(i)
  {
    c.issuer := X509.Name(i.country, i.organization, i.organizationalUnit, i.locality,
      i.province, i.streetAddress, i.postalCode, i.serialNumber, i.commonName, []);
  }

  /** Reading back the issuer recovers every field but the five the
      issuer drops (domain component, surname, given name, title, UID). */
  lemma IssuerRoundTrip(i: Name)
    ensures NewIssuer(IssuerPkix(i)) ==
      i.(domainController := [], surname := [], givenName := [], title := [], uid := [])
    ensures TemplateOnlyEmpty(i) ==> NewIssuer(IssuerPkix(i)) == i
  {
  }

  /** Writing back a read issuer loses only `Names`/`ExtraNames`. */
  lemma PkixIssuerRoundTrip(n: X509.Name)
    ensures IssuerPkix(NewIssuer(n)) == n.(extraNames := [])
  {
  }

  // ---------------------------------------------------------------------
  // Subject attributes

  const OidUID: Oid := [0, 9, 2342, 19200300, 100, 1, 1]
  const OidDC: Oid := [0, 9, 2342, 19200300, 100, 1, 25]
  const OidCommonName: Oid := [2, 5, 4, 3]
  const OidSurname: Oid := [2, 5, 4, 4]
  const OidSerialNumber: Oid := [2, 5, 4, 5]
  const OidCountry: Oid := [2, 5, 4, 6]
  const OidLocality: Oid := [2, 5, 4, 7]
  const OidProvince: Oid := [2, 5, 4, 8]
  const OidStreetAddress: Oid := [2, 5, 4, 9]
  const OidOrganization: Oid := [2, 5, 4, 10]
  const OidOrganizationalUnit: Oid := [2, 5, 4, 11]
  const OidTitle: Oid := [2, 5, 4, 12]
  const OidPostalCode: Oid := [2, 5, 4, 17]
  const OidGivenName: Oid := [2, 5, 4, 42]

  /** The universal tag of IA5String. */
  const TagIA5String: nat := 22

  /** The order in which `Subject.Set` emits the attribute groups. */
  const SubjectOrder: seq<Oid> := [
    OidCountry, OidLocality, OidProvince, OidStreetAddress, OidPostalCode,
    OidOrganization, OidDC, OidOrganizationalUnit, OidTitle, OidGivenName,
    OidSurname, OidCommonName, OidSerialNumber, OidUID]

  lemma SubjectOrderDistinct()
    ensures |SubjectOrder| == 14
    ensures forall i, j | 0 <= i < j < |SubjectOrder| :: SubjectOrder[i] != SubjectOrder[j]
  {
  }

  /** One attribute as `Subject.Set` builds it: the value bytes under
      IA5String. */
  function Attribute(typ: Oid, v: Bytes): X509.AttributeTypeAndValue {
    X509.AttributeTypeAndValue(typ, X509.RawValue(0, TagIA5String, v))
  }

  /** The attributes of one list field, in list order. */
  function Attributes(typ: Oid, vs: seq<Bytes>): (r: seq<X509.AttributeTypeAndValue>)
    ensures |r| == |vs|
    ensures forall i | 0 <= i < |vs| :: r[i] == Attribute(typ, vs[i])
  {
    seq(|vs|, i requires 0 <= i < |vs| => Attribute(typ, vs[i]))
  }

  /** A single-valued field contributes its value only when it is set. */
  function Optional(v: Bytes): (r: seq<Bytes>)
    ensures v == [] <==> r == []
  {
    if v == [] then [] else [v]
  }

  /** The single value of a group, or the empty string. */
  function Single(vs: seq<Bytes>): Bytes {
    if vs == [] then [] else vs[0]
  }

  /** The values of each group, in the order of `SubjectOrder`. */
  function FieldValues(s: Name): (r: seq<seq<Bytes>>)
    ensures |r| == 14
  {
    [s.country, s.locality, s.province, s.streetAddress, s.postalCode,
     s.organization, s.domainController, s.organizationalUnit,
     Optional(s.title), Optional(s.givenName), Optional(s.surname),
     Optional(s.commonName), Optional(s.serialNumber), Optional(s.uid)]
  }

  function Groups(s: Name): (r: seq<seq<X509.AttributeTypeAndValue>>)
    ensures |r| == 14
    ensures forall k | 0 <= k < 14 :: r[k] == Attributes(SubjectOrder[k], FieldValues(s)[k])
  {
    seq(14, k requires 0 <= k < 14 => Attributes(SubjectOrder[k], FieldValues(s)[k]))
  }

  /** The `ExtraNames` `Subject.Set` writes. */
  function SubjectAttributes(s: Name): seq<X509.AttributeTypeAndValue> {
    Concat(Groups(s))
  }

  /** The values of the attributes of type `typ`, in order. */
  function ValuesOf(attrs: seq<X509.AttributeTypeAndValue>, typ: Oid): seq<Bytes>
    decreases |attrs|
  {
    if attrs == [] then []
    else
      var a := attrs[|attrs| - 1];
      ValuesOf(attrs[..|attrs| - 1], typ) + (if a.typ == typ then [a.value.bytes] else [])
  }

  lemma {:induction false} ValuesOfAppend(a: seq<X509.AttributeTypeAndValue>, b: seq<X509.AttributeTypeAndValue>, typ: Oid)
    ensures ValuesOf(a + b, typ) == ValuesOf(a, typ) + ValuesOf(b, typ)
    decreases |b|
  {
    if b == [] {
      assert a + b == a;
    } else {
      var b' := b[..|b| - 1];
      assert (a + b)[..|a + b| - 1] == a + b';
      ValuesOfAppend(a, b', typ);
    }
  }

  lemma {:induction false} ValuesOfAttributes(t: Oid, vs: seq<Bytes>, typ: Oid)
    ensures ValuesOf(Attributes(t, vs), typ) == if t == typ then vs else []
    decreases |vs|
  {
    if vs != [] {
      var init := vs[..|vs| - 1];
      assert Attributes(t, vs)[..|vs| - 1] == Attributes(t, init);
      ValuesOfAttributes(t, init, typ);
      if t == typ {
        assert init + [vs[|vs| - 1]] == vs;
      }
    }
  }

  /** The values of a group's type come from that group alone. */
  lemma {:induction false} ValuesOfGroups(s: Name, k: nat, m: nat)
    requires k < 14 && m <= 14
    ensures ValuesOf(Concat(Groups(s)[..m]), SubjectOrder[k]) == if k < m then FieldValues(s)[k] else []
    decreases m
  {
    if m > 0 {
      ValuesOfGroups(s, k, m - 1);
      ValuesOfGroupsStep(s, k, m);
    }
  }

  lemma ValuesOfGroupsStep(s: Name, k: nat, m: nat)
    requires k < 14 && 0 < m <= 14
    requires ValuesOf(Concat(Groups(s)[..m - 1]), SubjectOrder[k]) == if k < m - 1 then FieldValues(s)[k] else []
    ensures ValuesOf(Concat(Groups(s)[..m]), SubjectOrder[k]) == if k < m then FieldValues(s)[k] else []
  {
    var gs, typ := Groups(s), SubjectOrder[k];
    var prev, g := Concat(gs[..m - 1]), gs[m - 1];
    ConcatSnoc(gs, m - 1);
    ValuesOfAppend(prev, g, typ);
    ValuesOfAttributes(SubjectOrder[m - 1], FieldValues(s)[m - 1], typ);
    SubjectOrderIndex(m - 1, k);
    if k < m - 1 {
      assert ValuesOf(g, typ) == [];
      assert ValuesOf(prev, typ) + [] == FieldValues(s)[k];
    } else if k == m - 1 {
      assert ValuesOf(prev, typ) == [];
      assert [] + ValuesOf(g, typ) == FieldValues(s)[k];
    } else {
      assert ValuesOf(prev, typ) + ValuesOf(g, typ) == [];
    }
  }

  lemma SubjectOrderIndex(i: nat, j: nat)
    requires i < 14 && j < 14
    ensures SubjectOrder[i] == SubjectOrder[j] <==> i == j
  {
    SubjectOrderDistinct();
  }

  lemma ValuesOfSubject(s: Name, k: nat)
    requires k < 14
    ensures ValuesOf(SubjectAttributes(s), SubjectOrder[k]) == FieldValues(s)[k]
  {
    ValuesOfGroups(s, k, 14);
    assert Groups(s)[..14] == Groups(s);
  }

  /** The number of attributes the first `m` groups contribute. */
  function PrefixCount(s: Name, m: nat): nat
    requires m <= 14
  {
    |Concat(Groups(s)[..m])|
  }

  /** Each group adds one attribute per value of its field. */
  lemma PrefixCountStep(s: Name, m: nat)
    requires m < 14
    ensures PrefixCount(s, m + 1) == PrefixCount(s, m) + |FieldValues(s)[m]|
  {
    ConcatSnoc(Groups(s), m);
  }

  lemma PrefixCountEnds(s: Name)
    ensures PrefixCount(s, 0) == 0
    ensures PrefixCount(s, 14) == |SubjectAttributes(s)|
  {
    assert Groups(s)[..0] == [];
    assert Groups(s)[..14] == Groups(s);
  }

  /** How many values each group of `FieldValues` holds. */
  lemma FieldLengths(s: Name)
    ensures |FieldValues(s)[0]| == |s.country| && |FieldValues(s)[1]| == |s.locality|
    ensures |FieldValues(s)[2]| == |s.province| && |FieldValues(s)[3]| == |s.streetAddress|
    ensures |FieldValues(s)[4]| == |s.postalCode| && |FieldValues(s)[5]| == |s.organization|
    ensures |FieldValues(s)[6]| == |s.domainController| && |FieldValues(s)[7]| == |s.organizationalUnit|
    ensures |FieldValues(s)[8]| == (if s.title == [] then 0 else 1)
    ensures |FieldValues(s)[9]| == (if s.givenName == [] then 0 else 1)
    ensures |FieldValues(s)[10]| == (if s.surname == [] then 0 else 1)
    ensures |FieldValues(s)[11]| == (if s.commonName == [] then 0 else 1)
    ensures |FieldValues(s)[12]| == (if s.serialNumber == [] then 0 else 1)
    ensures |FieldValues(s)[13]| == (if s.uid == [] then 0 else 1)
  {
  }

  /** `Subject.Set` writes one attribute per list entry and one per set
      single-valued field, and no others. */
  lemma SubjectAttributeCount(s: Name)
    ensures |SubjectAttributes(s)| ==
      |s.country| + |s.locality| + |s.province| + |s.streetAddress| +
      |s.postalCode| + |s.organization| + |s.domainController| +
      |s.organizationalUnit| +
      (if s.title == [] then 0 else 1) + (if s.givenName == [] then 0 else 1) +
      (if s.surname == [] then 0 else 1) + (if s.commonName == [] then 0 else 1) +
      (if s.serialNumber == [] then 0 else 1) + (if s.uid == [] then 0 else 1)
  {
    FieldLengths(s);
    PrefixCountEnds(s);
    PrefixCountStep(s, 0);
    PrefixCountStep(s, 1);
    PrefixCountStep(s, 2);
    PrefixCountStep(s, 3);
    PrefixCountStep(s, 4);
    PrefixCountStep(s, 5);
    PrefixCountStep(s, 6);
    PrefixCountStep(s, 7);
    PrefixCountStep(s, 8);
    PrefixCountStep(s, 9);
    PrefixCountStep(s, 10);
    PrefixCountStep(s, 11);
    PrefixCountStep(s, 12);
    PrefixCountStep(s, 13);
  }

  /** Reads a template subject back from its `ExtraNames`. */
  function SubjectFromAttributes(attrs: seq<X509.AttributeTypeAndValue>): Name {
    Name(
      ValuesOf(attrs, OidCountry), ValuesOf(attrs, OidOrganization),
      ValuesOf(attrs, OidOrganizationalUnit), ValuesOf(attrs, OidDC),
      ValuesOf(attrs, OidLocality), ValuesOf(attrs, OidProvince),
      ValuesOf(attrs, OidStreetAddress), ValuesOf(attrs, OidPostalCode),
      Single(ValuesOf(attrs, OidSerialNumber)), Single(ValuesOf(attrs, OidCommonName)),
      Single(ValuesOf(attrs, OidSurname)), Single(ValuesOf(attrs, OidGivenName)),
      Single(ValuesOf(attrs, OidTitle)), Single(ValuesOf(attrs, OidUID)))
  }

  /** `Subject.Set` loses nothing: every field, the five the issuer drops
      included, can be read back from the attributes. */
  lemma SubjectRoundTrip(s: Name)
    ensures SubjectFromAttributes(SubjectAttributes(s)) == s
  {
    var a := SubjectAttributes(s);
    ValuesOfSubject(s, 0);
    ValuesOfSubject(s, 1);
    ValuesOfSubject(s, 2);
    ValuesOfSubject(s, 3);
    ValuesOfSubject(s, 4);
    ValuesOfSubject(s, 5);
    ValuesOfSubject(s, 6);
    ValuesOfSubject(s, 7);
    ValuesOfSubject(s, 8);
    ValuesOfSubject(s, 9);
    ValuesOfSubject(s, 10);
    ValuesOfSubject(s, 11);
    ValuesOfSubject(s, 12);
    ValuesOfSubject(s, 13);
    assert ValuesOf(a, OidTitle) == Optional(s.title);
    assert ValuesOf(a, OidGivenName) == Optional(s.givenName);
    assert ValuesOf(a, OidSurname) == Optional(s.surname);
    assert ValuesOf(a, OidCommonName) == Optional(s.commonName);
    assert ValuesOf(a, OidSerialNumber) == Optional(s.serialNumber);
    assert ValuesOf(a, OidUID) == Optional(s.uid);
  }

  /** The position of a type in `SubjectOrder`. */
  function Rank(typ: Oid): nat {
    if typ == OidCountry then 0 else if typ == OidLocality then 1
    else if typ == OidProvince then 2 else if typ == OidStreetAddress then 3
    else if typ == OidPostalCode then 4 else if typ == OidOrganization then 5
    else if typ == OidDC then 6 else if typ == OidOrganizationalUnit then 7
    else if typ == OidTitle then 8 else if typ == OidGivenName then 9
    else if typ == OidSurname then 10 else if typ == OidCommonName then 11
    else if typ == OidSerialNumber then 12 else if typ == OidUID then 13
    else 14
  }

  lemma RankOfOrder()
    ensures forall k | 0 <= k < 14 :: Rank(SubjectOrder[k]) == k
  {
  }

  predicate RanksBelow(attrs: seq<X509.AttributeTypeAndValue>, m: nat) {
    forall i | 0 <= i < |attrs| :: Rank(attrs[i].typ) < m
  }

  /** Attributes sorted by the rank of their type. */
  predicate RanksOrdered(attrs: seq<X509.AttributeTypeAndValue>) {
    forall i, j | 0 <= i < j < |attrs| :: Rank(attrs[i].typ) <= Rank(attrs[j].typ)
  }

  lemma {:induction false} GroupsOrdered(s: Name, m: nat)
    requires m <= 14
    ensures RanksBelow(Concat(Groups(s)[..m]), m) && RanksOrdered(Concat(Groups(s)[..m]))
    decreases m
  {
    if m > 0 {
      var gs := Groups(s);
      assert gs[..m][..m - 1] == gs[..m - 1];
      GroupsOrdered(s, m - 1);
      GroupRank(s, m - 1);
      assert Concat(gs[..m]) == Concat(gs[..m - 1]) + gs[m - 1];
      OrderedAppend(Concat(gs[..m - 1]), gs[m - 1], m - 1);
    }
  }

  /** Every attribute of group `k` has rank `k`. */
  lemma GroupRank(s: Name, k: nat)
    requires k < 14
    ensures forall i | 0 <= i < |Groups(s)[k]| :: Rank(Groups(s)[k][i].typ) == k
  {
    RankOfOrder();
  }

  /** Appending a group of rank `k` to attributes of lower rank keeps them
      ordered. */
  lemma OrderedAppend(prev: seq<X509.AttributeTypeAndValue>, g: seq<X509.AttributeTypeAndValue>, k: nat)
    requires RanksBelow(prev, k) && RanksOrdered(prev)
    requires forall i | 0 <= i < |g| :: Rank(g[i].typ) == k
    ensures RanksBelow(prev + g, k + 1) && RanksOrdered(prev + g)
  {
    var attrs := prev + g;
    forall i | 0 <= i < |attrs| ensures Rank(attrs[i].typ) < k + 1 {
      if i < |prev| {
        assert attrs[i] == prev[i];
      } else {
        assert attrs[i] == g[i - |prev|];
      }
    }
    forall i, j | 0 <= i < j < |attrs| ensures Rank(attrs[i].typ) <= Rank(attrs[j].typ) {
      if j < |prev| {
        assert attrs[i] == prev[i] && attrs[j] == prev[j];
      } else if i < |prev| {
        assert attrs[i] == prev[i] && attrs[j] == g[j - |prev|];
      } else {
        assert attrs[i] == g[i - |prev|] && attrs[j] == g[j - |prev|];
      }
    }
  }

  /** `Subject.Set` writes country, locality, province, street address,
      postal code, organization, domain component, organizational unit,
      title, given name, surname, common name, serial number and UID, in
      this order, each value under IA5String. */
  lemma SubjectAttributesOrdered(s: Name)
    ensures RanksOrdered(SubjectAttributes(s))
  {
    GroupsOrdered(s, 14);
    assert Groups(s)[..14] == Groups(s);
    assert SubjectAttributes(s) == Concat(Groups(s)[..14]);
  }

  /** Every attribute value is an IA5String. */
  predicate AllIA5(attrs: seq<X509.AttributeTypeAndValue>) {
    forall i | 0 <= i < |attrs| :: attrs[i].value == X509.RawValue(0, TagIA5String, attrs[i].value.bytes)
  }

  lemma {:induction false} GroupsIA5(s: Name, m: nat)
    requires m <= 14
    ensures AllIA5(Concat(Groups(s)[..m]))
    decreases m
  {
    if m > 0 {
      var gs := Groups(s);
      assert gs[..m][..m - 1] == gs[..m - 1];
      GroupsIA5(s, m - 1);
      var prev := Concat(gs[..m - 1]);
      var g: seq<X509.AttributeTypeAndValue> := gs[m - 1];
      var attrs := Concat(gs[..m]);
      assert attrs == prev + g;
      forall i | 0 <= i < |attrs| ensures attrs[i].value == X509.RawValue(0, TagIA5String, attrs[i].value.bytes) {
        if i < |prev| { assert attrs[i] == prev[i]; } else { assert attrs[i] == g[i - |prev|]; }
      }
    }
  }

  lemma SubjectAttributesIA5(s: Name)
    ensures AllIA5(SubjectAttributes(s))
  {
    GroupsIA5(s, 14);
    assert Groups(s)[..14] == Groups(s);
    assert SubjectAttributes(s) == Concat(Groups(s)[..14]);
  }

  // ---------------------------------------------------------------------
  // Subject.Set

  /** One `for _, v := range vs { ExtraNames = append(...) }` loop of
      `Subject.Set`. */
  method AppendAttributes(c: X509.Certificate, typ: Oid, vs: seq<Bytes>)
    modifies c`subject
    ensures c.subject == old(c.subject).(extraNames := old(c.subject.extraNames) + Attributes(typ, vs))
  {
    ghost var start := c.subject.extraNames;
    for i := 0 to |vs|
      invariant c.subject == old(c.subject).(extraNames := start + Attributes(typ, vs[..i]))
    {
      c.subject := c.subject.(extraNames := c.subject.extraNames + [Attribute(typ, vs[i])]);
      assert Attributes(typ, vs[..i + 1]) == Attributes(typ, vs[..i]) + [Attribute(typ, vs[i])];
    }
    assert vs[..|vs|] == vs;
  }

  /** One `if v != "" { ExtraNames = append(...) }` step of `Subject.Set`. */
  method AppendIfSet(c: X509.Certificate, typ: Oid, v: Bytes)
    modifies c`subject
    ensures c.subject == old(c.subject).(extraNames := old(c.subject.extraNames) + Attributes(typ, Optional(v)))
  {
    if v != [] {
      c.subject := c.subject.(extraNames := c.subject.extraNames + [Attribute(typ, v)]);
    }
  }

  /** `Subject.Set`: the subject is reset to an empty `pkix.Name`, and
      every field then goes into `ExtraNames`. */
  method SetSubject(s: Name, c: X509.Certificate)
    modifies c`subject
    ensures c.subject == X509.EmptyName.(extraNames := SubjectAttributes(s))
  {
    ghost var gs := Groups(s);
    c.subject := X509.EmptyName;
    assert c.subject.extraNames == Concat(gs[..0]);
    AppendAttributes(c, OidCountry, s.country);
    ConcatSnoc(gs, 0);
    AppendAttributes(c, OidLocality, s.locality);
    ConcatSnoc(gs, 1);
    AppendAttributes(c, OidProvince, s.province);
    ConcatSnoc(gs, 2);
    AppendAttributes(c, OidStreetAddress, s.streetAddress);
    ConcatSnoc(gs, 3);
    AppendAttributes(c, OidPostalCode, s.postalCode);
    ConcatSnoc(gs, 4);
    AppendAttributes(c, OidOrganization, s.organization);
    ConcatSnoc(gs, 5);
    AppendAttributes(c, OidDC, s.domainController);
    ConcatSnoc(gs, 6);
    AppendAttributes(c, OidOrganizationalUnit, s.organizationalUnit);
    ConcatSnoc(gs, 7);
    AppendIfSet(c, OidTitle, s.title);
    ConcatSnoc(gs, 8);
    AppendIfSet(c, OidGivenName, s.givenName);
    ConcatSnoc(gs, 9);
    AppendIfSet(c, OidSurname, s.surname);
    ConcatSnoc(gs, 10);
    AppendIfSet(c, OidCommonName, s.commonName);
    ConcatSnoc(gs, 11);
    AppendIfSet(c, OidSerialNumber, s.serialNumber);
    ConcatSnoc(gs, 12);
    AppendIfSet(c, OidUID, s.uid);
    ConcatSnoc(gs, 13);
    assert gs[..14] == gs;
  }
}
