/** Decimal strings, as numeric columns are read and written as text.

A litre figure travels as text between the ledger and the program.  Reversing a movement
negates that text, so the arithmetic of reversals is the arithmetic of `Negate`.
 */
module DecimalText {

  // ---- Meaning of a decimal string ----

  predicate IsDigit(c: char) {
    '0' <= c <= '9'
  }

  predicate AllDigits(s: string) {
    forall i :: 0 <= i < |s| ==> IsDigit(s[i])
  }

  function DigitsValue(s: string): nat
    requires AllDigits(s)
  {
    if s == [] then 0 else 10 * DigitsValue(s[..|s| - 1]) + (s[|s| - 1] as int - '0' as int)
  }

  function Pow10(k: nat): (p: nat)
    ensures p > 0
  {
    if k == 0 then 1 else 10 * Pow10(k - 1)
  }

  /** Position of the decimal point, or the length when there is none. */
  function Point(s: string): (d: nat)
    ensures d <= |s|
    ensures d < |s| ==> s[d] == '.'
    ensures forall i :: 0 <= i < d ==> s[i] != '.'
  {
    if s == [] || s[0] == '.' then 0 else 1 + Point(s[1..])
  }

  function Fraction(s: string): string {
    if Point(s) < |s| then s[Point(s) + 1..] else []
  }

  predicate UnsignedOk(s: string) {
    && AllDigits(s[..Point(s)]) && AllDigits(Fraction(s))
    && Point(s) + |Fraction(s)| > 0
  }

  function UnsignedValue(s: string): (v: real)
    requires UnsignedOk(s)
    ensures v >= 0.0
  {
    DigitsValue(s[..Point(s)]) as real + DigitsValue(Fraction(s)) as real / Pow10(|Fraction(s)|) as real
  }

  predicate Signed(s: string) {
    |s| > 0 && s[0] == '-'
  }

  /** The string without a leading minus. */
  function Magnitude(s: string): string {
    if Signed(s) then s[1..] else s
  }

  /** An optional minus, digits, and optionally a point and more digits; at least one digit. */
  predicate WellFormed(s: string) {
    UnsignedOk(Magnitude(s))
  }

  function Value(s: string): real
    requires WellFormed(s)
  {
    if Signed(s) then -UnsignedValue(Magnitude(s)) else UnsignedValue(s)
  }

  // ---- Negation of the text ----

  /** Unicode White_Space, which `TrimSpace` strips. */
  predicate IsSpace(c: char) {
    || c in {'\t', '\n', '\U{0b}', '\U{0c}', '\r', ' ', '\U{85}', '\U{a0}', '\U{1680}'}
    || '\U{2000}' <= c <= '\U{200a}'
    || c in {'\U{2028}', '\U{2029}', '\U{202f}', '\U{205f}', '\U{3000}'}
  }

  function TrimSpace(s: string): string {
    if s == [] then []
    else if IsSpace(s[0]) then TrimSpace(s[1..])
    else if IsSpace(s[|s| - 1]) then TrimSpace(s[..|s| - 1])
    else s
  }

  function TrimLeft(s: string, cut: set<char>): string {
    if s != [] && s[0] in cut then TrimLeft(s[1..], cut) else s
  }

  function Negate(text: string): string {
    var s := TrimSpace(text);
    if s == [] then s
    else if TrimLeft(Magnitude(s), {'0', '.'}) == [] then Magnitude(s)
    else if Signed(s) then s[1..]
    else ['-'] + s
  }

  lemma {:induction false} TrimLeftEmpty(s: string, cut: set<char>)
    ensures TrimLeft(s, cut) == [] <==> forall i :: 0 <= i < |s| ==> s[i] in cut
  {
    if s != [] {
      TrimLeftEmpty(s[1..], cut);
      if s[0] in cut {
        assert forall i :: 0 < i < |s| ==> s[i] == s[1..][i - 1];
      }
    }
  }

  predicate AllZeros(s: string) {
    forall i :: 0 <= i < |s| ==> s[i] == '0'
  }

  lemma {:induction false} ZeroDigits(s: string)
    requires AllDigits(s)
    ensures DigitsValue(s) == 0 <==> AllZeros(s)
  {
    if s != [] {
      ZeroDigits(s[..|s| - 1]);
      assert s[|s| - 1] as int - '0' as int == 0 <==> s[|s| - 1] == '0';
    }
  }

  predicate ZerosAndPoints(s: string) {
    forall i :: 0 <= i < |s| ==> s[i] in {'0', '.'}
  }

  lemma ZeroConcat(whole: string, part: string, s: string)
    requires s == whole + ['.'] + part && AllDigits(whole) && AllDigits(part)
    ensures ZerosAndPoints(s) <==> AllZeros(whole) && AllZeros(part)
  {
    if ZerosAndPoints(s) {
      assert forall i :: 0 <= i < |whole| ==> whole[i] == s[i];
      assert forall i :: 0 <= i < |part| ==> part[i] == s[|whole| + 1 + i];
    }
  }

  lemma ZeroParts(s: string, whole: string, part: string)
    requires UnsignedOk(s) && whole == s[..Point(s)] && part == Fraction(s)
    ensures ZerosAndPoints(s) <==> DigitsValue(whole) == 0 && DigitsValue(part) == 0
  {
    ZeroDigits(whole);
    ZeroDigits(part);
    if Point(s) < |s| {
      assert s == whole + ['.'] + part;
      ZeroConcat(whole, part, s);
    } else {
      assert s == whole;
    }
  }

  lemma QuotientZero(f: real, p: real)
    requires f >= 0.0 && p > 0.0
    ensures f / p >= 0.0 && (f / p == 0.0 <==> f == 0.0)
  {
  }

  lemma ZeroText(s: string)
    requires UnsignedOk(s)
    ensures TrimLeft(s, {'0', '.'}) == [] <==> UnsignedValue(s) == 0.0
  {
    TrimLeftEmpty(s, {'0', '.'});
    ZeroParts(s, s[..Point(s)], Fraction(s));
    QuotientZero(DigitsValue(Fraction(s)) as real, Pow10(|Fraction(s)|) as real);
  }

  /** Negating the text negates the number, a minus appears exactly on negative results, and so
      zero never comes back as minus zero. */
  lemma NegateIsNegation(text: string)
    requires WellFormed(TrimSpace(text))
    ensures var s, t := TrimSpace(text), Negate(text);
      WellFormed(t) && Value(t) == -Value(s) && (Signed(t) <==> Value(t) < 0.0)
  {
    var s := TrimSpace(text);
    ZeroText(Magnitude(s));
    DigitsNotSigned(Magnitude(s));
    if !Signed(s) {
      assert Magnitude(['-'] + s) == s;
    }
  }

  lemma DigitsNotSigned(s: string)
    requires UnsignedOk(s)
    ensures !Signed(s)
  {
    if Point(s) > 0 {
      assert IsDigit(s[..Point(s)][0]);
    }
  }

  // ---- The text of a stored figure ----

  function NatText(n: nat): (s: string)
    ensures |s| > 0 && AllDigits(s) && DigitsValue(s) == n
  {
    var last := ['0' + (n % 10) as char];
    if n < 10 then
      assert last[..0] == [];
      last
    else
      var front := NatText(n / 10);
      assert (front + last)[..|front|] == front;
      front + last
  }

  /** Digits as a number is written: no zero in front of others. */
  predicate PlainDigits(s: string) {
    s != [] && AllDigits(s) && (s[0] == '0' ==> |s| == 1)
  }

  lemma {:induction false} LeadingDigit(s: string)
    requires s != [] && AllDigits(s) && s[0] != '0'
    ensures DigitsValue(s) > 0
  {
    if |s| > 1 {
      LeadingDigit(s[..|s| - 1]);
    }
  }

  lemma {:induction false} NatTextIsPlain(n: nat)
    ensures PlainDigits(NatText(n))
  {
    if n >= 10 {
      NatTextIsPlain(n / 10);
    }
  }

  lemma LastDigit(front: nat, d: nat)
    requires d < 10
    ensures (10 * front + d) / 10 == front && (10 * front + d) % 10 == d
  {
  }

  lemma NatTextSnoc(n: nat, d: nat)
    requires n > 0 && d < 10
    ensures NatText(10 * n + d) == NatText(n) + ['0' + d as char]
  {
    LastDigit(n, d);
  }

  /** There is one way to write a number in plain digits. */
  lemma {:induction false} OnePlainText(s: string)
    requires PlainDigits(s)
    ensures s == NatText(DigitsValue(s))
  {
    var last := s[|s| - 1] as int - '0' as int;
    assert s == s[..|s| - 1] + ['0' + last as char];
    if |s| == 1 {
      assert s[..0] == [];
    } else {
      LeadingDigit(s[..|s| - 1]);
      OnePlainText(s[..|s| - 1]);
      NatTextSnoc(DigitsValue(s[..|s| - 1]), last);
    }
  }

  /** A whole number in plain digits, with a minus exactly when it is negative. */
  predicate IsWholeText(s: string, x: real) {
    PlainDigits(Magnitude(s)) && WellFormed(s) && Value(s) == x && (Signed(s) <==> x < 0.0)
  }

  lemma {:induction false} NoPoint(s: string)
    requires AllDigits(s) && s != []
    ensures UnsignedOk(s) && UnsignedValue(s) == DigitsValue(s) as real
  {
    assert s[..Point(s)] == s && Fraction(s) == [];
    assert DigitsValue([]) == 0 && Pow10(0) == 1;
  }

  lemma OneWholeText(s: string, n: int)
    ensures IsWholeText(s, n as real) <==> s == if n < 0 then ['-'] + NatText(-n) else NatText(n)
  {
    WholeTextIs(n);
    if IsWholeText(s, n as real) {
      NoPoint(Magnitude(s));
      assert DigitsValue(Magnitude(s)) == if n < 0 then -n else n;
      OnePlainText(Magnitude(s));
      assert s == if Signed(s) then ['-'] + Magnitude(s) else Magnitude(s);
    }
  }

  lemma WholeTextIs(n: int)
    ensures IsWholeText(if n < 0 then ['-'] + NatText(-n) else NatText(n), n as real)
  {
    var m: nat := if n < 0 then -n else n;
    var u := NatText(m);
    NatTextIsPlain(m);
    NoPoint(u);
    DigitsNotSigned(u);
    assert Magnitude(['-'] + u) == u;
    if m > 0 {
      assert UnsignedValue(u) > 0.0;
    }
  }

  function ThreeDigits(n: nat): (s: string)
    requires n < 1000
    ensures |s| == 3 && AllDigits(s) && DigitsValue(s) == n
  {
    var s := ['0' + (n / 100) as char, '0' + (n / 10 % 10) as char, '0' + (n % 10) as char];
    assert s[..2][..1][..0] == [];
    assert DigitsValue(s[..2][..1]) == n / 100;
    assert DigitsValue(s[..2]) == n / 10;
    s
  }

  function Unsigned(n: nat): string {
    NatText(n / 1000) + ['.'] + ThreeDigits(n % 1000)
  }

  /** `n` thousandths as a `numeric(14,3)` column prints them. */
  function Text(n: int): string {
    if n < 0 then ['-'] + Unsigned(-n) else Unsigned(n)
  }

  lemma {:induction false} PointAfterDigits(digits: string, rest: string)
    requires AllDigits(digits)
    ensures Point(digits + ['.'] + rest) == |digits|
  {
    var s := digits + ['.'] + rest;
    assert forall i :: 0 <= i < |digits| ==> IsDigit(s[i]);
    assert s[|digits|] == '.';
  }

  lemma UnsignedRoundTrip(n: nat)
    ensures UnsignedOk(Unsigned(n)) && UnsignedValue(Unsigned(n)) == n as real / 1000.0
  {
    var whole, part := NatText(n / 1000), ThreeDigits(n % 1000);
    var s := Unsigned(n);
    PointAfterDigits(whole, part);
    assert s == whole + ['.'] + part;
    assert s[..|whole|] == whole && Fraction(s) == part;
    assert Pow10(3) == 10 * Pow10(2) && Pow10(2) == 10 * Pow10(1) && Pow10(1) == 10 * Pow10(0);
    assert n as real == (n / 1000) as real * 1000.0 + (n % 1000) as real;
  }

  /** Reading back what the column prints gives the stored figure. */
  lemma TextRoundTrip(n: int)
    ensures WellFormed(Text(n)) && Value(Text(n)) == n as real / 1000.0
  {
    var u := Unsigned(if n < 0 then -n else n);
    UnsignedRoundTrip(if n < 0 then -n else n);
    DigitsNotSigned(u);
    assert Magnitude(['-'] + u) == u;
  }

  lemma StoredTextIsTrimmed(n: int)
    ensures TrimSpace(Text(n)) == Text(n)
  {
    var m: nat := if n < 0 then -n else n;
    var whole, part := NatText(m / 1000), ThreeDigits(m % 1000);
    var s := Text(n);
    assert s[|s| - 1] == part[2] && IsDigit(part[2]);
    assert IsDigit(whole[0]) && s[0] == if n < 0 then '-' else whole[0];
  }

  /** On stored figures the textual negation is exact: the contra's text is the text of -n. */
  lemma NegateStored(n: int)
    ensures Negate(Text(n)) == Text(-n)
  {
    StoredTextIsTrimmed(n);
    var u := Unsigned(if n < 0 then -n else n);
    UnsignedRoundTrip(if n < 0 then -n else n);
    ZeroText(u);
    DigitsNotSigned(u);
    assert Magnitude(['-'] + u) == u;
  }

  lemma NegateIs(n: int, m: int, s: string)
    requires m == -n && s == Text(n)
    ensures Negate(s) == Text(m)
  {
    NegateStored(n);
  }

  lemma NegatedText(n: int, s: string) returns (t: string)
    requires s == Text(n)
    ensures t == Negate(s) && t == Text(-n)
  {
    t := Negate(s);
    NegateIs(n, -n, s);
  }

  /** Negating a stored figure twice gives it back. */
  lemma NegateTwice(n: int, s: string)
    requires s == Text(n)
    ensures Negate(Negate(s)) == s
  {
    var t := NegatedText(n, s);
    NegateIs(-n, n, t);
  }
}
