/** Positional numerals: digit sequences in a base and their text form.
    Shared by the OID text form, the base-10 integer parse of otherName
    `int` values, the serial-number text form and the DER base-256 and
    base-128 encodings. */
module Numerals {
  import opened Base

  function Pow(b: nat, k: nat): (r: nat)
    ensures b >= 1 ==> r >= 1
  {
    if k == 0 then 1 else b * Pow(b, k - 1)
  }

  /** The minimal digits of `n` in `base`, most significant first; zero has
      no digits. */
  function ToDigits(n: nat, base: nat): (r: seq<nat>)
    requires 2 <= base
    ensures forall i | 0 <= i < |r| :: r[i] < base
    ensures n == 0 <==> r == []
    ensures r != [] ==> r[0] != 0
    decreases n
  {
    if n == 0 then [] else ToDigits(n / base, base) + [n % base]
  }

  /** The value of a digit sequence, most significant first. */
  function FromDigits(ds: seq<nat>, base: nat): nat
    decreases |ds|
  {
    if ds == [] then 0 else FromDigits(ds[..|ds| - 1], base) * base + ds[|ds| - 1]
  }

  lemma FromDigitsSnoc(ds: seq<nat>, d: nat, base: nat)
    ensures FromDigits(ds + [d], base) == FromDigits(ds, base) * base + d
  {
    assert (ds + [d])[..|ds + [d]| - 1] == ds;
  }

  lemma {:induction false} FromToDigits(n: nat, base: nat)
    requires 2 <= base
    ensures FromDigits(ToDigits(n, base), base) == n
    decreases n
  {
    if n != 0 {
      FromToDigits(n / base, base);
      FromToDigitsStep(n, base);
    }
  }

  /** One digit more: the induction step of `FromToDigits`. */
  lemma FromToDigitsStep(n: nat, base: nat)
    requires 2 <= base && n != 0
    requires FromDigits(ToDigits(n / base, base), base) == n / base
    ensures FromDigits(ToDigits(n, base), base) == n
  {
    var q, d := n / base, n % base;
    var ds := ToDigits(q, base);
    assert ToDigits(n, base) == ds + [d];
    FromDigitsSnoc(ds, d, base);
    Euclid(n, base);
  }

  lemma Euclid(n: nat, base: nat)
    requires 2 <= base
    ensures n == (n / base) * base + n % base
  {
  }

  /** A digit sequence without a leading zero is the minimal one. */
  lemma {:induction false} ToFromDigits(ds: seq<nat>, base: nat)
    requires 2 <= base
    requires forall i | 0 <= i < |ds| :: ds[i] < base
    requires ds != [] ==> ds[0] != 0
    ensures ToDigits(FromDigits(ds, base), base) == ds
    decreases |ds|
  {
    if ds != [] {
      var init, d := ds[..|ds| - 1], ds[|ds| - 1];
      var v := FromDigits(init, base);
      ToFromDigits(init, base);
      assert v != 0 || d != 0 by {
        if init == [] { assert d == ds[0]; }
      }
      var n := FromDigits(ds, base);
      assert n == v * base + d;
      DivModOfDigit(v, d, base);
      assert ToDigits(n, base) == ToDigits(v, base) + [d];
      assert ds == init + [d];
    }
  }

  lemma DivModOfDigit(v: nat, d: nat, base: nat)
    requires d < base
    ensures (v * base + d) / base == v && (v * base + d) % base == d
    ensures v != 0 || d != 0 ==> v * base + d != 0
  {
    var n := v * base + d;
    var q, r := n / base, n % base;
    assert n == q * base + r && 0 <= r < base;
    if q > v {
      MulMono(v + 1, q, base);
      assert false;
    } else if q < v {
      MulMono(q + 1, v, base);
      assert false;
    }
    if v != 0 {
      MulMono(1, v, base);
    }
  }

  lemma MulMono(x: int, y: int, m: nat)
    requires x <= y
    ensures x * m <= y * m
  {
    assert y * m - x * m == (y - x) * m;
  }

  lemma {:induction false} DigitsLength(n: nat, base: nat, k: nat)
    requires 2 <= base
    requires n < Pow(base, k)
    ensures |ToDigits(n, base)| <= k
    decreases k
  {
    if n != 0 {
      assert k > 0;
      DivBound(n, base, Pow(base, k - 1));
      DigitsLength(n / base, base, k - 1);
    }
  }

  lemma DivBound(n: nat, base: nat, p: nat)
    requires 2 <= base && n < base * p
    ensures n / base < p
  {
    var q := n / base;
    assert q * base <= n;
    if q >= p {
      MulMono(p, q, base);
      assert false;
    }
  }

  /** The value of one character as a digit of `big.Int`'s scanner
      (bases up to 36: `0-9`, then `a-z` or `A-Z`). */
  function DigitValue(c: byte): Option<nat> {
    if 0x30 <= c <= 0x39 then Some((c - 0x30) as nat)
    else if 0x61 <= c <= 0x7A then Some((c - 0x61) as nat + 10)
    else if 0x41 <= c <= 0x5A then Some((c - 0x41) as nat + 10)
    else None
  }

  predicate IsDigit(c: byte, base: nat) {
    DigitValue(c).Some? && DigitValue(c).value < base
  }

  /** The character Go formats digit `d` with (lower-case letters). */
  function DigitChar(d: nat): (c: byte)
    requires d < 36
    ensures DigitValue(c) == Some(d)
  {
    if d < 10 then (0x30 + d) as byte else (0x61 + d - 10) as byte
  }

  /** The digit values of a string of digits. */
  function Values(s: Bytes, base: nat): (ds: seq<nat>)
    requires forall i | 0 <= i < |s| :: IsDigit(s[i], base)
    ensures |ds| == |s|
    ensures forall i | 0 <= i < |s| :: ds[i] < base && Some(ds[i]) == DigitValue(s[i])
  {
    var ds: seq<nat> := seq(|s|, i requires 0 <= i < |s| && IsDigit(s[i], base) => DigitValue(s[i]).value);
    ds
  }

  /** The value of a string of digits. */
  function Value(s: Bytes, base: nat): nat
    requires forall i | 0 <= i < |s| :: IsDigit(s[i], base)
  {
    FromDigits(Values(s, base), base)
  }

  /** `n` written in `base`, as `strconv` and `big.Int.Text` write it. */
  function Numeral(n: nat, base: nat): (s: Bytes)
    requires 2 <= base <= 36
    ensures |s| > 0
    ensures forall i | 0 <= i < |s| :: IsDigit(s[i], base)
  {
    if n == 0 then [0x30]
    else
      var ds := ToDigits(n, base);
      seq(|ds|, i requires 0 <= i < |ds| => DigitChar(ds[i]))
  }

  lemma NumeralValue(n: nat, base: nat)
    requires 2 <= base <= 36
    ensures Value(Numeral(n, base), base) == n
  {
    if n == 0 {
      assert Values(Numeral(n, base), base) == [0];
      assert FromDigits([0], base) == FromDigits([], base) * base + 0;
    } else {
      assert Values(Numeral(n, base), base) == ToDigits(n, base);
      FromToDigits(n, base);
    }
  }

  /** A decimal numeral without redundant leading zero is the one Go writes. */
  lemma CanonicalNumeral(s: Bytes)
    requires |s| > 0 && forall i | 0 <= i < |s| :: IsDigit(s[i], 10)
    requires s[0] == 0x30 ==> |s| == 1
    ensures Numeral(Value(s, 10), 10) == s
  {
    var ds := Values(s, 10);
    if s[0] == 0x30 {
      assert ds == [0];
      assert FromDigits(ds, 10) == FromDigits([], 10) * 10 + 0;
    } else {
      ToFromDigits(ds, 10);
      assert ds != [];
      var n := Value(s, 10);
      assert n != 0;
      assert ToDigits(n, 10) == ds;
      var t := Numeral(n, 10);
      assert |t| == |s|;
      forall i | 0 <= i < |s| ensures t[i] == s[i] {
        assert t[i] == DigitChar(ds[i]);
      }
    }
  }

  /** `strconv.Atoi`: an optional sign followed by at least one decimal
      digit. Range limits of Go's `int` are not modelled. */
  function ParseInt(s: Bytes): (r: Option<int>)
  {
    var neg := |s| > 0 && s[0] == Minus;
    var body := if |s| > 0 && (s[0] == Minus || s[0] == Plus) then s[1..] else s;
    if |body| > 0 && forall i | 0 <= i < |body| :: IsDigit(body[i], 10) then
      var v: int := Value(body, 10);
      Some(if neg then -v else v)
    else None
  }

  /** `strconv.Itoa`. */
  function FormatInt(i: int): (s: Bytes) {
    if i < 0 then [Minus] + Numeral(-i, 10) else Numeral(i, 10)
  }

  lemma ParseFormatInt(i: int)
    ensures ParseInt(FormatInt(i)) == Some(i)
  {
    if i < 0 {
      var n: nat := -i;
      assert FormatInt(i) == [Minus] + Numeral(n, 10);
      ParseNegativeNumeral(n);
    } else {
      var n: nat := i;
      assert FormatInt(i) == Numeral(n, 10);
      ParseNumeral(n);
    }
  }

  lemma ParseNumeral(n: nat)
    ensures ParseInt(Numeral(n, 10)) == Some(n)
  {
    NumeralValue(n, 10);
    var s := Numeral(n, 10);
    assert s[0] != Minus && s[0] != Plus by { assert IsDigit(s[0], 10); }
  }

  lemma ParseNegativeNumeral(n: nat)
    ensures ParseInt([Minus] + Numeral(n, 10)) == Some(-(n as int))
  {
    NumeralValue(n, 10);
    var s := [Minus] + Numeral(n, 10);
    assert s[1..] == Numeral(n, 10);
  }
}
