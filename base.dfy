/** Shared vocabulary of the model: Go byte strings, the Option/Result
    wrappers used for Go's (value, error) returns, and the error values the
    core reports. */
module Base {

  /** A Go byte. Go strings are immutable byte sequences, so both Go
      `string` and `[]byte` are modelled as `Bytes`. */
  newtype byte = x: int | 0 <= x < 256

  type Bytes = seq<byte>

  /** An ASN.1 object identifier: its arcs, as Go's `asn1.ObjectIdentifier`
      holds them. */
  type Oid = seq<nat>

  datatype Option<+T> = None | Some(value: T)

  datatype Result<+T, +E> = Ok(value: T) | Err(error: E) {
    predicate IsFailure() { Err? }
    function PropagateFailure<U>(): Result<U, E> requires Err? { Err(error) }
    function Extract(): T requires Ok? { value }
  }

  /** Where an error returned by a collaborator was wrapped
      (the `errors.Wrap` messages of the source). */
  datatype Context =
    | ValidatingRequest       // "error validating certificate request"
    | UnmarshalingCertificate // "error unmarshaling certificate"
    | CreatingCertificate     // "error creating certificate"
    | ParsingCertificate      // "error parsing certificate"

  datatype Error =
    | UnsupportedKeyUsage(name: Bytes)
    | UnsupportedExtKeyUsage(name: Bytes)
    | InvalidSerialNumber(text: Bytes)
      /** A JSON value that does not decode into the Go type asked for. */
    | InvalidJson
    | InvalidObjectIdentifier(text: Bytes)
      /** The panic of `SubjectAlternativeName.Set` on an unknown type. */
    | SANTypePanic(sanType: Bytes)
      /** "unimplemented SAN type" (x400Address, dn, ediPartyName). */
    | UnimplementedSANType(sanType: Bytes)
      /** "unsupported SAN type": neither a known type nor an OID. */
    | UnsupportedSANType(sanType: Bytes)
    | InvalidOtherNameInt(sanType: Bytes)
    | InvalidOtherNameOid(sanType: Bytes)
      /** "could not marshal ASN1 values". */
    | MarshalFailure
      /** An error produced by a collaborator outside the model. */
    | External(code: nat)
    | Wrapped(context: Context, cause: Error)

  /** The bytes of an ASCII literal. */
  function Ascii(s: string): (r: Bytes)
    requires forall i | 0 <= i < |s| :: s[i] as int < 128
    ensures |r| == |s|
    ensures forall i | 0 <= i < |s| :: r[i] as int == s[i] as int
  {
    seq(|s|, i requires 0 <= i < |s| => s[i] as int as byte)
  }

  lemma AsciiInjective(s: string, t: string)
    requires forall i | 0 <= i < |s| :: s[i] as int < 128
    requires forall i | 0 <= i < |t| :: t[i] as int < 128
    requires s != t
    ensures Ascii(s) != Ascii(t)
  {
    if |s| == |t| {
      var i :| 0 <= i < |s| && s[i] != t[i];
      assert Ascii(s)[i] != Ascii(t)[i];
    }
  }

  const Underscore: byte := 0x5F
  const Dot: byte := 0x2E
  const Semicolon: byte := 0x3B
  const Plus: byte := 0x2B
  const Minus: byte := 0x2D

  predicate IsUpper(b: byte) { 0x41 <= b <= 0x5A }

  /** `strings.ToLower` on one ASCII byte. */
  function LowerByte(b: byte): (r: byte)
    ensures !IsUpper(r)
    ensures IsUpper(b) ==> r as int == b as int + 32
    ensures !IsUpper(b) ==> r == b
  {
    if IsUpper(b) then b + 32 else b
  }

  /** The UTF-8 encodings of the two upper-case code points whose lower
      case is an ASCII letter: U+212A KELVIN SIGN, lowered to `k`, and
      U+0130 LATIN CAPITAL LETTER I WITH DOT ABOVE, lowered to `i`. */
  const KelvinSign: Bytes := [0xE2, 0x84, 0xAA]
  const DottedCapitalI: Bytes := [0xC4, 0xB0]

  /** A UTF-8 continuation byte: never the first byte of a code point. */
  predicate IsContinuation(b: byte) { 0x80 <= b < 0xC0 }

  predicate IsAscii(s: Bytes) {
    forall i | 0 <= i < |s| :: s[i] < 0x80
  }

  /** U+212A begins at position `i` of `s`. */
  predicate KelvinAt(s: Bytes, i: nat) {
    i + 3 <= |s| && s[i] == 0xE2 && s[i + 1] == 0x84 && s[i + 2] == 0xAA
  }

  /** U+0130 begins at position `i` of `s`. */
  predicate DottedIAt(s: Bytes, i: nat) {
    i + 2 <= |s| && s[i] == 0xC4 && s[i + 1] == 0xB0
  }

  /** No position of `s` begins U+212A or U+0130. */
  predicate FoldFree(s: Bytes) {
    forall i | 0 <= i < |s| :: !KelvinAt(s, i) && !DottedIAt(s, i)
  }

  /** No `_` is directly followed by a continuation byte, as in any valid
      UTF-8 text. */
  predicate NoSplitSequence(s: Bytes) {
    forall i | 0 <= i < |s| - 1 :: s[i] == Underscore ==> !IsContinuation(s[i + 1])
  }

  /** `strings.ToLower`, as far as its result can be ASCII: ASCII upper-case
      letters, U+212A and U+0130 are lowered, scanning from the left; every
      other byte is kept. Go lowers the other non-ASCII letters to non-ASCII
      letters and replaces invalid UTF-8 by U+FFFD, which this function does
      not do. */
  function ToLower(s: Bytes): (r: Bytes)
    ensures |r| <= |s|
    ensures forall i | 0 <= i < |r| :: !IsUpper(r[i])
    decreases |s|
  {
    if s == [] then []
    else if KelvinAt(s, 0) then [0x6B] + ToLower(s[3..])
    else if DottedIAt(s, 0) then [0x69] + ToLower(s[2..])
    else [LowerByte(s[0])] + ToLower(s[1..])
  }

  /** On ASCII text, as in Go's fast path, every byte is lowered on its
      own. */
  lemma {:induction false} ToLowerAscii(s: Bytes)
    requires IsAscii(s)
    ensures |ToLower(s)| == |s| && forall i | 0 <= i < |s| :: ToLower(s)[i] == LowerByte(s[i])
    decreases |s|
  {
    if s != [] {
      ToLowerAscii(s[1..]);
    }
  }

  /** The number of bytes the first step of `ToLower` reads. */
  function FoldWidth(s: Bytes): (n: nat)
    requires |s| > 0
    ensures 1 <= n <= |s|
    ensures n == 1 <==> !KelvinAt(s, 0) && !DottedIAt(s, 0)
  {
    if KelvinAt(s, 0) then 3 else if DottedIAt(s, 0) then 2 else 1
  }

  /** A continuation byte is never lowered, and a lowered text starts with
      one only where the original did. */
  lemma ToLowerHead(t: Bytes)
    requires |t| > 0
    ensures |ToLower(t)| > 0
    ensures ToLower(t) == [ToLower(t)[0]] + ToLower(t[FoldWidth(t)..])
    ensures FoldWidth(t) == 1 ==> ToLower(t)[0] == LowerByte(t[0])
    ensures IsContinuation(t[0]) ==> FoldWidth(t) == 1 && ToLower(t)[0] == t[0]
    ensures IsContinuation(ToLower(t)[0]) ==> IsContinuation(t[0])
  {
  }

  /** Lowering never leaves U+212A or U+0130 behind. */
  lemma {:induction false} ToLowerFoldFree(s: Bytes)
    ensures FoldFree(ToLower(s))
    decreases |s|
  {
    if s != [] {
      var r := ToLower(s);
      ToLowerHead(s);
      var rest := ToLower(s[FoldWidth(s)..]);
      ToLowerFoldFree(s[FoldWidth(s)..]);
      FoldFreeCons(r[0], rest);
      ToLowerFirstFree(s);
    }
  }

  /** A byte in front of fold-free text leaves the rest fold-free. */
  lemma FoldFreeCons(x: byte, rest: Bytes)
    requires FoldFree(rest)
    ensures forall i | 1 <= i < |[x] + rest| :: !KelvinAt([x] + rest, i) && !DottedIAt([x] + rest, i)
  {
    var r := [x] + rest;
    forall i | 1 <= i < |r| ensures !KelvinAt(r, i) && !DottedIAt(r, i) {
      assert !KelvinAt(rest, i - 1) && !DottedIAt(rest, i - 1);
    }
  }

  /** The lowered text does not begin with U+212A or U+0130. */
  lemma ToLowerFirstFree(s: Bytes)
    requires s != []
    ensures !KelvinAt(ToLower(s), 0) && !DottedIAt(ToLower(s), 0)
  {
    var r := ToLower(s);
    ToLowerHead(s);
    if |r| > 1 && (r[0] == 0xE2 || r[0] == 0xC4) && IsContinuation(r[1]) {
      assert FoldWidth(s) == 1;
      ToLowerHead(s[1..]);
      if |r| > 2 && IsContinuation(r[2]) {
        ToLowerHead(s[2..]);
        assert r[2] == s[2];
      }
    }
  }

  /** Lowering distributes over a split that cuts no code point. */
  lemma {:induction false} ToLowerAppend(a: Bytes, c: Bytes)
    requires c == [] || !IsContinuation(c[0])
    ensures ToLower(a + c) == ToLower(a) + ToLower(c)
    decreases |a|
  {
    if a == [] {
      assert a + c == c;
    } else {
      ToLowerAppend(a[FoldWidth(a)..], c);
      ToLowerAppendStep(a, c);
    }
  }

  /** The induction step of `ToLowerAppend`. */
  lemma ToLowerAppendStep(a: Bytes, c: Bytes)
    requires a != [] && (c == [] || !IsContinuation(c[0]))
    requires var rest := a[FoldWidth(a)..]; ToLower(rest + c) == ToLower(rest) + ToLower(c)
    ensures ToLower(a + c) == ToLower(a) + ToLower(c)
  {
    var rest := a[FoldWidth(a)..];
    ToLowerHead(a);
    ToLowerAppendHead(a, c);
    ConsJoin(ToLower(a + c), ToLower(a), ToLower(a)[0], ToLower(rest), ToLower(rest + c), ToLower(c));
  }

  /** The first step of lowering reads the same bytes of `a` and of
      `a + c`. */
  lemma ToLowerAppendHead(a: Bytes, c: Bytes)
    requires a != [] && (c == [] || !IsContinuation(c[0]))
    ensures |ToLower(a)| > 0
    ensures ToLower(a + c) == [ToLower(a)[0]] + ToLower(a[FoldWidth(a)..] + c)
  {
    var n := FoldWidth(a);
    FoldWidthAppend(a, c);
    ToLowerHead(a);
    ToLowerHead(a + c);
    DropAppend(a, c, n);
  }

  lemma DropAppend<T>(a: seq<T>, c: seq<T>, n: nat)
    requires n <= |a|
    ensures (a + c)[n..] == a[n..] + c
  {
  }

  /** `x` in front of `u + v`, read as `[x] + u` followed by `v`. */
  lemma ConsJoin<T>(whole: seq<T>, front: seq<T>, x: T, u: seq<T>, uv: seq<T>, v: seq<T>)
    requires whole == [x] + uv && uv == u + v && front == [x] + u
    ensures whole == front + v
  {
    assert [x] + (u + v) == ([x] + u) + v;
  }

  /** The first step reads the same bytes when text that starts no code
      point is appended. */
  lemma FoldWidthAppend(a: Bytes, c: Bytes)
    requires a != [] && (c == [] || !IsContinuation(c[0]))
    ensures FoldWidth(a + c) == FoldWidth(a) <= |a|
    ensures ToLower(a + c)[0] == ToLower(a)[0]
  {
    var s := a + c;
    if |a| == 1 && c != [] { assert s[1] == c[0]; }
    if |a| == 2 && c != [] { assert s[2] == c[0]; }
    assert forall i | 0 <= i < |a| :: s[i] == a[i];
  }

  /** Text without upper-case letters, U+212A or U+0130 is already lower
      case. */
  lemma {:induction false} ToLowerFixed(s: Bytes)
    requires FoldFree(s) && forall i | 0 <= i < |s| :: !IsUpper(s[i])
    ensures ToLower(s) == s
    decreases |s|
  {
    if s != [] {
      assert !KelvinAt(s, 0) && !DottedIAt(s, 0);
      assert forall i | 0 <= i < |s| - 1 :: KelvinAt(s[1..], i) == KelvinAt(s, i + 1);
      assert forall i | 0 <= i < |s| - 1 :: DottedIAt(s[1..], i) == DottedIAt(s, i + 1);
      ToLowerFixed(s[1..]);
    }
  }

  /** Texts that differ only in the case of ASCII letters lower alike. */
  lemma {:induction false} ToLowerCaseless(s: Bytes, t: Bytes)
    requires |s| == |t| && forall i | 0 <= i < |s| :: LowerByte(s[i]) == LowerByte(t[i])
    ensures ToLower(s) == ToLower(t)
    decreases |s|
  {
    if s != [] {
      assert forall i | 0 <= i < |s| && (s[i] >= 0x80 || t[i] >= 0x80) :: s[i] == t[i];
      var n := FoldWidth(s);
      assert FoldWidth(t) == n;
      ToLowerCaseless(s[n..], t[n..]);
    }
  }

  /** Lowering keeps every `_` clear of a following continuation byte. */
  lemma {:induction false} ToLowerNoSplit(s: Bytes)
    requires NoSplitSequence(s)
    ensures NoSplitSequence(ToLower(s))
    decreases |s|
  {
    if s != [] {
      var r := ToLower(s);
      ToLowerHead(s);
      var rest := ToLower(s[FoldWidth(s)..]);
      ToLowerNoSplit(s[FoldWidth(s)..]);
      if r[0] == Underscore && |r| > 1 {
        ToLowerHead(s[1..]);
      }
      assert forall i | 1 <= i < |r| - 1 :: r[i] == rest[i - 1] && r[i + 1] == rest[i];
    }
  }

  /** `strings.ReplaceAll(s, string(b), "")`: `s` with every `b` removed. */
  function Without(s: Bytes, b: byte): (r: Bytes)
    ensures b !in r
    ensures |r| <= |s|
    ensures forall x | x in r :: x in s
    decreases |s|
  {
    if s == [] then []
    else (if s[0] == b then [] else [s[0]]) + Without(s[1..], b)
  }

  lemma {:induction false} WithoutAppend(a: Bytes, b: Bytes, x: byte)
    ensures Without(a + b, x) == Without(a, x) + Without(b, x)
    decreases |a|
  {
    if a != [] {
      assert (a + b)[1..] == a[1..] + b;
      WithoutAppend(a[1..], b, x);
    } else {
      assert a + b == b;
    }
  }

  /** Where underscores are never followed by a continuation byte, a
      result that starts with one starts with the text's own first byte. */
  lemma {:induction false} WithoutHead(t: Bytes)
    requires NoSplitSequence(t)
    ensures var w := Without(t, Underscore);
      w != [] && IsContinuation(w[0]) ==> t[0] == w[0] && w == [t[0]] + Without(t[1..], Underscore)
    decreases |t|
  {
    if t != [] && t[0] == Underscore {
      WithoutHead(t[1..]);
    }
  }

  /** Removing underscores that precede no continuation byte joins no new
      U+212A or U+0130. */
  lemma {:induction false} WithoutFoldFree(u: Bytes)
    requires FoldFree(u) && NoSplitSequence(u)
    ensures FoldFree(Without(u, Underscore))
    decreases |u|
  {
    if u != [] {
      var w, rest := Without(u, Underscore), Without(u[1..], Underscore);
      FoldFreeTail(u);
      WithoutFoldFree(u[1..]);
      if u[0] != Underscore {
        assert w == [u[0]] + rest;
        assert forall i | 1 <= i < |w| :: !KelvinAt(w, i) && !DottedIAt(w, i) by {
          forall i | 1 <= i < |w| ensures !KelvinAt(w, i) && !DottedIAt(w, i) {
            assert !KelvinAt(rest, i - 1) && !DottedIAt(rest, i - 1);
          }
        }
        assert !KelvinAt(u, 0) && !DottedIAt(u, 0);
        WithoutJoinsNothing(u);
      } else {
        assert w == rest;
      }
    }
  }

  lemma FoldFreeTail(u: Bytes)
    requires u != [] && FoldFree(u)
    ensures FoldFree(u[1..])
  {
    assert forall i | 0 <= i < |u| - 1 :: KelvinAt(u[1..], i) == KelvinAt(u, i + 1);
    assert forall i | 0 <= i < |u| - 1 :: DottedIAt(u[1..], i) == DottedIAt(u, i + 1);
  }

  /** The first position of the result begins a code point of the two only
      where the text's own first position does. */
  lemma WithoutJoinsNothing(u: Bytes)
    requires NoSplitSequence(u) && u != [] && u[0] != Underscore
    requires !KelvinAt(u, 0) && !DottedIAt(u, 0)
    ensures var w := Without(u, Underscore); !KelvinAt(w, 0) && !DottedIAt(w, 0)
  {
    var w, rest := Without(u, Underscore), Without(u[1..], Underscore);
    assert w == [u[0]] + rest;
    if |w| > 1 && IsContinuation(w[1]) {
      WithoutHead(u[1..]);
      assert w[1] == u[1] && rest == [u[1]] + Without(u[2..], Underscore);
      if |w| > 2 && IsContinuation(w[2]) {
        assert u[1..][1..] == u[2..];
        WithoutHead(u[2..]);
        assert w[2] == u[2];
      }
    }
  }

  /** Removing underscores makes an inserted underscore disappear. */
  lemma WithoutSeparator(a: Bytes, c: Bytes)
    ensures Without(a + [Underscore] + c, Underscore) == Without(a + c, Underscore)
  {
    var w, v := Without(a, Underscore), Without(c, Underscore);
    assert Without([Underscore], Underscore) == [] + Without([], Underscore);
    WithoutAppend(a, [Underscore], Underscore);
    assert Without(a + [Underscore], Underscore) == w;
    WithoutAppend(a + [Underscore], c, Underscore);
    WithoutAppend(a, c, Underscore);
  }

  lemma {:induction false} WithoutAbsent(s: Bytes, x: byte)
    requires x !in s
    ensures Without(s, x) == s
    decreases |s|
  {
    if s != [] {
      WithoutAbsent(s[1..], x);
      assert [s[0]] + s[1..] == s;
    }
  }

  /** Concatenation of a sequence of sequences. */
  function Concat<T>(parts: seq<seq<T>>): (r: seq<T>)
    decreases |parts|
  {
    if parts == [] then [] else Concat(parts[..|parts| - 1]) + parts[|parts| - 1]
  }

  /** A non-empty sequence is its front followed by its last element. */
  lemma FrontLast<T>(s: seq<T>)
    requires |s| > 0
    ensures s[..|s| - 1] + [s[|s| - 1]] == s
  {
  }

  /** A non-empty sequence is its first element followed by the rest. */
  lemma HeadTail<T>(s: seq<T>)
    requires |s| > 0
    ensures [s[0]] + s[1..] == s
  {
  }

  lemma ConcatSnoc<T>(parts: seq<seq<T>>, k: nat)
    requires k < |parts|
    ensures Concat(parts[..k + 1]) == Concat(parts[..k]) + parts[k]
  {
    assert parts[..k + 1][..k] == parts[..k];
  }

  lemma {:induction false} ConcatAppend<T>(a: seq<seq<T>>, b: seq<seq<T>>)
    ensures Concat(a + b) == Concat(a) + Concat(b)
    decreases |b|
  {
    if b == [] {
      assert a + b == a;
    } else {
      var b' := b[..|b| - 1];
      assert (a + b)[..|a + b| - 1] == a + b';
      ConcatAppend(a, b');
    }
  }
}
