/** The text form of object identifiers: `asn1.ObjectIdentifier.String`
    and a reference definition of the repository's `parseObjectIdentifier`
    (dot-separated decimal arcs), with both round trips proved. */
module Oids {
  import opened Base
  import opened Numerals

  /** `asn1.ObjectIdentifier.String`: the arcs in decimal, joined by dots. */
  function Format(o: Oid): Bytes
    decreases |o|
  {
    if o == [] then []
    else if |o| == 1 then Numeral(o[0], 10)
    else Numeral(o[0], 10) + [Dot] + Format(o[1..])
  }

  /** The index of the first dot, or `|s|`. */
  function DotIndex(s: Bytes): (k: nat)
    ensures k <= |s|
    ensures forall i | 0 <= i < k :: s[i] != Dot
    ensures k < |s| ==> s[k] == Dot
    decreases |s|
  {
    if s == [] || s[0] == Dot then 0 else 1 + DotIndex(s[1..])
  }

  predicate IsArc(s: Bytes) {
    |s| > 0 && forall i | 0 <= i < |s| :: IsDigit(s[i], 10)
  }

  /** `parseObjectIdentifier`: every dot-separated part must be a decimal
      numeral; the result has one arc per part, so it is never empty. */
  function Parse(s: Bytes): (r: Option<Oid>)
    ensures r.Some? ==> |r.value| > 0
    decreases |s|
  {
    var k := DotIndex(s);
    var arc := s[..k];
    if !IsArc(arc) then None
    else if k == |s| then Some([Value(arc, 10)])
    else
      match Parse(s[k + 1..])
      case None => None
      case Some(rest) => Some([Value(arc, 10)] + rest)
  }

  /** A numeral has no dot, so the first dot is after it. */
  lemma NumeralArc(n: nat, tail: Bytes)
    ensures var a := Numeral(n, 10); IsArc(a) && Value(a, 10) == n && DotIndex(a) == |a|
    ensures var a := Numeral(n, 10); DotIndex(a + [Dot] + tail) == |a|
  {
    var a := Numeral(n, 10);
    NumeralValue(n, 10);
    assert forall i | 0 <= i < |a| :: a[i] != Dot by {
      forall i | 0 <= i < |a| ensures a[i] != Dot { assert IsDigit(a[i], 10); }
    }
    DotIndexAt(a, |a|);
    var s := a + [Dot] + tail;
    assert forall i | 0 <= i < |a| :: s[i] == a[i];
    DotIndexAt(s, |a|);
  }

  lemma {:induction false} DotIndexAt(s: Bytes, k: nat)
    requires k <= |s| && (k < |s| ==> s[k] == Dot)
    requires forall i | 0 <= i < k :: s[i] != Dot
    ensures DotIndex(s) == k
    decreases k
  {
    if k > 0 {
      DotIndexAt(s[1..], k - 1);
    }
  }

  lemma {:induction false} ParseFormat(o: Oid)
    requires |o| > 0
    ensures Parse(Format(o)) == Some(o)
    decreases |o|
  {
    if |o| == 1 {
      ParseFormatSingle(o);
    } else {
      ParseFormat(o[1..]);
      ParseFormatStep(o);
    }
  }

  lemma ParseFormatSingle(o: Oid)
    requires |o| == 1
    ensures Parse(Format(o)) == Some(o)
  {
    var a := Numeral(o[0], 10);
    NumeralArc(o[0], []);
    assert a[..|a|] == a;
    assert o == [o[0]];
  }

  /** The induction step of `ParseFormat`: one more arc in front. */
  lemma ParseFormatStep(o: Oid)
    requires |o| > 1 && Parse(Format(o[1..])) == Some(o[1..])
    ensures Parse(Format(o)) == Some(o)
  {
    var tail := Format(o[1..]);
    HeadTail(o);
    FormatCons(o);
    ParseCons(o[0], tail);
  }

  lemma FormatCons(o: Oid)
    requires |o| > 1
    ensures Format(o) == Numeral(o[0], 10) + [Dot] + Format(o[1..])
  {
  }

  /** A numeral, a dot and parseable text parse to that arc in front. */
  lemma ParseCons(n: nat, tail: Bytes)
    requires Parse(tail).Some?
    ensures Parse(Numeral(n, 10) + [Dot] + tail) == Some([n] + Parse(tail).value)
  {
    NumeralArc(n, tail);
    ParseArcThenRest(Numeral(n, 10), tail);
  }

  lemma ParseArcThenRest(a: Bytes, tail: Bytes)
    requires IsArc(a) && DotIndex(a + [Dot] + tail) == |a| && Parse(tail).Some?
    ensures Parse(a + [Dot] + tail) == Some([Value(a, 10)] + Parse(tail).value)
  {
    var s := a + [Dot] + tail;
    assert s[..|a|] == a;
    assert s[|a| + 1..] == tail;
  }

  /** Written as Go writes it: no arc has a redundant leading zero. */
  predicate Canonical(s: Bytes)
    decreases |s|
  {
    var k := DotIndex(s);
    (k > 0 && s[0] == 0x30 ==> k == 1) && (k < |s| ==> Canonical(s[k + 1..]))
  }

  lemma {:induction false} FormatParse(s: Bytes)
    requires Parse(s).Some? && Canonical(s)
    ensures Format(Parse(s).value) == s
    decreases |s|
  {
    var k := DotIndex(s);
    ArcCanonical(s);
    if k < |s| {
      ParseRest(s);
      FormatParse(s[k + 1..]);
      FormatParseStep(s);
    } else {
      FormatParseLast(s);
    }
  }

  /** The first part of parseable text is an arc, with no leading zero
      when the text is canonical. */
  lemma ParseArc(s: Bytes)
    requires Parse(s).Some? && Canonical(s)
    ensures var k := DotIndex(s); IsArc(s[..k]) && (s[0] == 0x30 ==> k == 1)
  {
    var k := DotIndex(s);
    assert IsArc(s[..k]);
    assert |s[..k]| > 0;
  }

  /** The first arc of canonical text is the numeral of its value. */
  lemma ArcCanonical(s: Bytes)
    requires Parse(s).Some? && Canonical(s)
    ensures var k := DotIndex(s); IsArc(s[..k]) && Numeral(Value(s[..k], 10), 10) == s[..k]
  {
    var k := DotIndex(s);
    ParseArc(s);
    CanonicalNumeral(s[..k]);
  }

  /** After the first dot, parseable canonical text goes on with
      parseable canonical text. */
  lemma ParseRest(s: Bytes)
    requires Parse(s).Some? && Canonical(s) && DotIndex(s) < |s|
    ensures var k := DotIndex(s); Parse(s[k + 1..]).Some? && Canonical(s[k + 1..])
  {
    var k := DotIndex(s);
    assert IsArc(s[..k]);
    assert Parse(s[k + 1..]).Some?;
  }

  /** The last arc: text without a dot. */
  lemma FormatParseLast(s: Bytes)
    requires Parse(s).Some? && DotIndex(s) == |s|
    requires Numeral(Value(s[..|s|], 10), 10) == s[..|s|]
    ensures Format(Parse(s).value) == s
  {
    assert s[..|s|] == s;
  }

  /** The induction step of `FormatParse`: an arc, a dot, and a rest that
      formats back to itself. */
  lemma FormatParseStep(s: Bytes)
    requires Parse(s).Some? && DotIndex(s) < |s|
    requires var k := DotIndex(s); IsArc(s[..k]) && Numeral(Value(s[..k], 10), 10) == s[..k]
    requires var k := DotIndex(s); Parse(s[k + 1..]).Some? && Format(Parse(s[k + 1..]).value) == s[k + 1..]
    ensures Format(Parse(s).value) == s
  {
    var k := DotIndex(s);
    ParseSplit(s);
    FormatJoin(Value(s[..k], 10), Parse(s[k + 1..]).value, s[..k], s[k + 1..]);
    SplitAround(s, k);
  }

  /** Text with a dot parses to its first arc in front of the rest's arcs. */
  lemma ParseSplit(s: Bytes)
    requires Parse(s).Some? && DotIndex(s) < |s|
    ensures var k := DotIndex(s); Parse(s[k + 1..]).Some?
    ensures var k := DotIndex(s); Parse(s).value == [Value(s[..k], 10)] + Parse(s[k + 1..]).value
  {
  }

  lemma FormatJoin(v: nat, r: Oid, arc: Bytes, rest: Bytes)
    requires |r| > 0 && Numeral(v, 10) == arc && Format(r) == rest
    ensures Format([v] + r) == arc + [Dot] + rest
  {
    var o := [v] + r;
    assert o[1..] == r;
    FormatCons(o);
  }

  lemma SplitAround(s: Bytes, k: nat)
    requires k < |s|
    ensures s == s[..k] + [s[k]] + s[k + 1..]
  {
  }
}
