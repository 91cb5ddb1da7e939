/** The serial number of a template (`SerialNumber` in
    x509util/extensions.go): its JSON decoding, which reads a string with
    `big.Int.SetString(s, 0)` and a number as an `int64`, and its JSON
    encoding as a decimal number or `null`. */
module Serials {
  import opened Base
  import opened Numerals

  /** The grammar `big.Int.SetString` accepts for the digits after the sign
      and the base prefix when called with base 0: digits of `base`, where a
      `_` may only follow a digit (or the prefix, when there is one) and may
      not end the text. */
  predicate Separated(t: Bytes, base: nat, afterPrefix: bool) {
    (forall i | 0 <= i < |t| :: t[i] == Underscore || IsDigit(t[i], base)) &&
    (|t| > 0 && t[0] == Underscore ==> afterPrefix) &&
    (forall i | 0 < i < |t| && t[i] == Underscore :: t[i - 1] != Underscore) &&
    (|t| > 0 ==> t[|t| - 1] != Underscore)
  }

  /** The value of separated digits; at least one digit is required. */
  function Digits(t: Bytes, base: nat, afterPrefix: bool): (r: Option<nat>)
    requires 2 <= base <= 36
    ensures r.Some? <==> Separated(t, base, afterPrefix) && |Without(t, Underscore)| > 0
  {
    var ds := Without(t, Underscore);
    if |ds| > 0 && Separated(t, base, afterPrefix) then
      assert forall i | 0 <= i < |ds| :: IsDigit(ds[i], base) by {
        forall i | 0 <= i < |ds| ensures IsDigit(ds[i], base) {
          assert ds[i] in t;
          var j :| 0 <= j < |t| && t[j] == ds[i];
        }
      }
      Some(Value(ds, base))
    else None
  }

  predicate IsLetter(c: byte, lower: byte) { c == lower || c as int == lower as int - 32 }

  /** The magnitude after the sign: `0b`/`0B` selects base 2, `0o`/`0O` or
      a leading `0` followed by more text base 8, `0x`/`0X` base 16, and
      anything else (including a lone `0`) base 10. */
  function Magnitude(b: Bytes): (r: Option<nat>)
  {
    if |b| >= 2 && b[0] == 0x30 then
      var c := b[1];
      if IsLetter(c, 0x62) then Digits(b[2..], 2, true)
      else if IsLetter(c, 0x6F) then Digits(b[2..], 8, true)
      else if IsLetter(c, 0x78) then Digits(b[2..], 16, true)
      else Digits(b[1..], 8, true)
    else Digits(b, 10, false)
  }

  /** `new(big.Int).SetString(s, 0)`: an optional sign, then the magnitude;
      the whole text must be consumed. */
  function ParseSerialNumber(s: Bytes): (r: Option<int>)
  {
    var neg := |s| > 0 && s[0] == Minus;
    var body := if |s| > 0 && (s[0] == Minus || s[0] == Plus) then s[1..] else s;
    match Magnitude(body)
    case None => None
    case Some(m) => var v: int := m; Some(if neg then -v else v)
  }

  /** The ways a serial number can be written as a JSON string. */
  datatype Notation = Decimal | Binary(upper: bool) | Octal(upper: bool) | LeadingZero | Hex(upper: bool)

  function Radix(n: Notation): (b: nat)
    ensures 2 <= b <= 16
  {
    match n
    case Decimal => 10
    case Binary(_) => 2
    case Octal(_) => 8
    case LeadingZero => 8
    case Hex(_) => 16
  }

  function Prefix(n: Notation): Bytes {
    match n
    case Decimal => []
    case Binary(u) => [0x30, if u then 0x42 else 0x62]
    case Octal(u) => [0x30, if u then 0x4F else 0x6F]
    case LeadingZero => [0x30]
    case Hex(u) => [0x30, if u then 0x58 else 0x78]
  }

  /** `i` written in notation `n`: sign, prefix, then the digits of `|i|`. */
  function FormatSerial(i: int, n: Notation): (s: Bytes) {
    (if i < 0 then [Minus] else []) + (Prefix(n) + Numeral(if i < 0 then -i else i, Radix(n)))
  }

  /** A numeral of a positive value does not start with `0`. */
  lemma NumeralLeading(m: nat, base: nat)
    requires 2 <= base <= 36 && m > 0
    ensures Numeral(m, base)[0] != 0x30
  {
    var ds := ToDigits(m, base);
    assert Numeral(m, base)[0] == DigitChar(ds[0]);
  }

  /** A numeral is separated digits whose value is the number written. */
  lemma DigitsOfNumeral(m: nat, base: nat, afterPrefix: bool)
    requires 2 <= base <= 36
    ensures Digits(Numeral(m, base), base, afterPrefix) == Some(m)
  {
    var t := Numeral(m, base);
    assert Underscore !in t by {
      forall i | 0 <= i < |t| ensures t[i] != Underscore { assert IsDigit(t[i], base); }
    }
    WithoutAbsent(t, Underscore);
    NumeralValue(m, base);
  }

  /** Every notation reads back as the number written in it. */
  lemma ParseFormatSerial(i: int, n: Notation)
    ensures ParseSerialNumber(FormatSerial(i, n)) == Some(i)
  {
    var m := if i < 0 then -i else i;
    var body := Prefix(n) + Numeral(m, Radix(n));
    MagnitudeOfFormat(m, n);
    ParseSigned(body, m);
    if i >= 0 {
      assert FormatSerial(i, n) == [] + body;
      assert [] + body == body;
    }
  }

  /** An unsigned magnitude reads back as itself, and after a `-` as its
      negation. */
  lemma ParseSigned(body: Bytes, m: nat)
    requires Magnitude(body) == Some(m)
    requires |body| > 0 && body[0] != Minus && body[0] != Plus
    ensures ParseSerialNumber(body) == Some(m)
    ensures ParseSerialNumber([Minus] + body) == Some(-(m as int))
  {
    assert ([Minus] + body)[1..] == body;
  }

  /** The prefix selects the base the digits are written in. */
  lemma MagnitudeOfFormat(m: nat, n: Notation)
    ensures var body := Prefix(n) + Numeral(m, Radix(n));
      |body| > 0 && Magnitude(body) == Some(m) && body[0] != Minus && body[0] != Plus
  {
    var num := Numeral(m, Radix(n));
    assert IsDigit(num[0], Radix(n));
    match n
    case Decimal =>
      MagnitudeOfDecimal(m);
      assert Prefix(n) + num == num;
    case LeadingZero => MagnitudeOfLeadingZero(m);
    case _ => MagnitudeOfLettered(m, n);
  }

  lemma MagnitudeOfDecimal(m: nat)
    ensures Magnitude(Numeral(m, 10)) == Some(m)
  {
    var num := Numeral(m, 10);
    DigitsOfNumeral(m, 10, false);
    if |num| >= 2 {
      NumeralLeading(m, 10);
    }
  }

  lemma MagnitudeOfLeadingZero(m: nat)
    ensures Magnitude([0x30] + Numeral(m, 8)) == Some(m)
  {
    var num := Numeral(m, 8);
    var body := [0x30] + num;
    DigitsOfNumeral(m, 8, true);
    assert IsDigit(num[0], 8);
    assert body[1..] == num;
    assert body[1] == num[0];
  }

  lemma MagnitudeOfLettered(m: nat, n: Notation)
    requires n.Binary? || n.Octal? || n.Hex?
    ensures Magnitude(Prefix(n) + Numeral(m, Radix(n))) == Some(m)
  {
    var body := Prefix(n) + Numeral(m, Radix(n));
    DigitsOfNumeral(m, Radix(n), true);
    assert body[2..] == Numeral(m, Radix(n));
  }

  /** A separator between two digits does not change the value. */
  lemma SeparatorIgnored(a: Bytes, c: Bytes, base: nat, afterPrefix: bool)
    requires 2 <= base <= 36
    requires |a| > 0 && |c| > 0 && a[|a| - 1] != Underscore && c[0] != Underscore
    requires Separated(a + c, base, afterPrefix)
    ensures Digits(a + [Underscore] + c, base, afterPrefix) == Digits(a + c, base, afterPrefix)
  {
    SeparatedInsert(a, c, base, afterPrefix);
    WithoutSeparator(a, c);
  }

  lemma SeparatedInsert(a: Bytes, c: Bytes, base: nat, afterPrefix: bool)
    requires |a| > 0 && |c| > 0 && a[|a| - 1] != Underscore && c[0] != Underscore
    requires Separated(a + c, base, afterPrefix)
    ensures Separated(a + [Underscore] + c, base, afterPrefix)
  {
    var t := a + [Underscore] + c;
    var u := a + c;
    forall i | 0 < i < |t| ensures t[i] == Underscore ==> t[i - 1] != Underscore {
      if i < |a| {
        assert t[i] == u[i] && t[i - 1] == u[i - 1];
      } else if i > |a| + 1 {
        assert t[i] == u[i - 1] && t[i - 1] == u[i - 2];
      } else if i == |a| + 1 {
        assert t[i] == c[0];
      } else {
        assert t[i - 1] == a[|a| - 1];
      }
    }
    forall i | 0 <= i < |t| ensures t[i] == Underscore || IsDigit(t[i], base) {
      if i < |a| { assert t[i] == u[i]; } else if i > |a| { assert t[i] == u[i - 1]; }
    }
    assert t[0] == u[0] && t[|t| - 1] == u[|u| - 1];
  }

  /** A lone `0` is decimal zero, while a `0` before more digits selects
      octal, so `010` is eight and `08` is rejected. */
  lemma LeadingZeroIsOctal()
    ensures ParseSerialNumber([0x30]) == Some(0)
    ensures ParseSerialNumber([0x30, 0x31, 0x30]) == Some(8)
    ensures ParseSerialNumber([0x30, 0x38]) == None
  {
    LoneZero();
    OctalTen();
    assert !IsDigit(0x38, 8);
  }

  lemma LoneZero()
    ensures ParseSerialNumber([0x30]) == Some(0)
  {
    assert Without([0x30], Underscore) == [0x30];
    assert Values([0x30], 10) == [0];
    assert FromDigits([0], 10) == FromDigits([], 10) * 10;
  }

  lemma OctalTen()
    ensures ParseSerialNumber([0x30, 0x31, 0x30]) == Some(8)
  {
    assert Without([0x31, 0x30], Underscore) == [0x31, 0x30];
    assert Values([0x31, 0x30], 8) == [1, 0];
    assert FromDigits([1, 0], 8) == FromDigits([1], 8) * 8;
    assert FromDigits([1], 8) == FromDigits([], 8) * 8 + 1;
  }

  /** A prefix without digits, and a separator that does not sit between
      digits, are rejected. */
  lemma RejectedSeparators()
    ensures ParseSerialNumber([0x30, 0x78]) == None
    ensures ParseSerialNumber([Underscore, 0x31]) == None
    ensures ParseSerialNumber([0x31, Underscore]) == None
    ensures ParseSerialNumber([0x31, Underscore, Underscore, 0x31]) == None
    ensures ParseSerialNumber([Minus]) == None && ParseSerialNumber([]) == None
  {
    assert Without([], Underscore) == [];
    var a: Bytes := [Underscore, 0x31];
    assert a[0] == Underscore && !Separated(a, 10, false);
    assert Magnitude(a) == Digits(a, 10, false);
    var b: Bytes := [0x31, Underscore, Underscore, 0x31];
    assert b[2] == Underscore && b[1] == Underscore && !Separated(b, 10, false);
    assert Magnitude(b) == Digits(b, 10, false);
  }

  // ---------------------------------------------------------------------
  // JSON

  /** The JSON value `UnmarshalJSON` is given; a string arrives already
      unquoted, and a number lies in `SerialInteger` as far as it is an
      integer. */
  datatype SerialJson = SerialText(text: Bytes) | SerialInteger(value: int) | SerialNull | SerialMalformed

  const Int64Min: int := -0x8000_0000_0000_0000
  const Int64Max: int := 0x7FFF_FFFF_FFFF_FFFF

  /** `SerialNumber.UnmarshalJSON`: a string is parsed by `SetString(s, 0)`
      and an invalid one is an error naming the text; anything else is
      decoded as an `int64`, which rejects numbers out of range and values
      that are no integer, while `null` leaves that `int64` at zero. */
  function UnmarshalSerialNumber(data: SerialJson): (r: Result<int, Error>)
    ensures data.SerialText? ==>
      (r.Ok? <==> ParseSerialNumber(data.text).Some?) &&
      (r.Ok? ==> r.value == ParseSerialNumber(data.text).value) &&
      (r.Err? ==> r.error == InvalidSerialNumber(data.text))
    ensures data.SerialInteger? ==>
      (r.Ok? <==> Int64Min <= data.value <= Int64Max) && (r.Ok? ==> r.value == data.value)
    ensures data.SerialMalformed? ==> r.Err?
  {
    match data
    case SerialText(text) =>
      (match ParseSerialNumber(text)
       case None => Err(InvalidSerialNumber(text))
       case Some(i) => Ok(i))
    case SerialInteger(v) =>
      if Int64Min <= v <= Int64Max then Ok(v) else Err(InvalidJson)
    case SerialNull => Ok(0)
    case SerialMalformed => Err(InvalidJson)
  }

  /** `SerialNumber.MarshalJSON`: `null` when unset, else the decimal
      number. */
  function MarshalSerialNumber(s: Option<int>): (r: SerialJson)
    ensures r.SerialNull? <==> s.None?
    ensures s.Some? ==> r == SerialInteger(s.value)
  {
    match s
    case None => SerialNull
    case Some(i) => SerialInteger(i)
  }

  /** A serial written as a JSON string in any notation decodes to itself. */
  lemma UnmarshalText(i: int, n: Notation)
    ensures UnmarshalSerialNumber(SerialText(FormatSerial(i, n))) == Ok(i)
  {
    ParseFormatSerial(i, n);
  }

  /** Encoding then decoding returns a set serial exactly when it fits in
      an `int64`; an unset serial comes back as zero. */
  lemma MarshalRoundTrip(s: Option<int>)
    ensures s.Some? ==>
      (UnmarshalSerialNumber(MarshalSerialNumber(s)) == Ok(s.value) <==> Int64Min <= s.value <= Int64Max)
    ensures s.None? ==> UnmarshalSerialNumber(MarshalSerialNumber(s)) == Ok(0)
  {
  }
}
