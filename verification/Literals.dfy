// The texts of numbers and strings, told without the scanner: the scanner
// takes the longest number, and exactly the strings whose escape sequences
// stand for characters; and a quoted text stands for the text that was quoted.
module Literals {
  import opened Tokens
  import opened Syntax
  import opened Lexis
  import opened Quoting
  import opened Lexemes

  // ---- numbers ----

  predicate DigitsIn(s: string, i: nat, j: nat)
    requires j <= |s|
  {
    forall k :: i <= k < j ==> '0' <= s[k] <= '9'
  }

  predicate WholeNumber(s: string, i: nat, j: nat) {
    i < j <= |s| && DigitsIn(s, i, j)
  }

  // Digits, a point at d, and digits; at least one digit in all.
  predicate PointNumber(s: string, i: nat, d: nat, j: nat) {
    i <= d < j <= |s| && j - i > 1 && s[d] == '.' && DigitsIn(s, i, d) && DigitsIn(s, d + 1, j)
  }

  predicate Exponent(s: string, i: nat, j: nat) {
    && i + 1 < j <= |s| && (s[i] == 'e' || s[i] == 'E')
    && if s[i + 1] == '+' || s[i + 1] == '-' then WholeNumber(s, i + 2, j) else WholeNumber(s, i + 1, j)
  }

  ghost predicate Mantissa(s: string, i: nat, m: nat) {
    WholeNumber(s, i, m) || exists d: nat :: PointNumber(s, i, d, m)
  }

  ghost predicate FloatNumber(s: string, i: nat, j: nat) {
    || (exists d: nat :: PointNumber(s, i, d, j))
    || (exists m: nat :: Mantissa(s, i, m) && Exponent(s, m, j))
  }

  lemma DigitsStop(s: string, i: nat, j: nat)
    requires i <= j <= |s| && DigitsIn(s, i, j)
    ensures j <= DigitsEnd(s, i) && (j == |s| || !IsDecimal(s[j]) ==> j == DigitsEnd(s, i))
  {
    if j < DigitsEnd(s, i) {
      assert IsDecimal(s[j]);
    }
  }

  // Where the integer part and the fraction of the number at i end.
  function MantissaEnd(s: string, i: nat): (f: Span)
    requires StartsNumber(s, i)
    ensures i <= f.end <= |s| && (f.kind == NUMBER || f.kind == FLOAT)
  {
    FractionEnd(s, if s[i] == '.' then i else DigitsEnd(s, i))
  }

  lemma PointLongest(s: string, i: nat, d: nat, m: nat)
    requires StartsNumber(s, i) && PointNumber(s, i, d, m)
    ensures m <= MantissaEnd(s, i).end && (m == |s| || !IsDecimal(s[m]) ==> MantissaEnd(s, i) == Span(FLOAT, m, true))
  {
    DigitsStop(s, i, d);
    DigitsStop(s, d + 1, m);
  }

  lemma WholeLongest(s: string, i: nat, m: nat)
    requires StartsNumber(s, i) && WholeNumber(s, i, m)
    ensures m <= MantissaEnd(s, i).end
    ensures m == |s| || (!IsDecimal(s[m]) && s[m] != '.') ==> MantissaEnd(s, i) == Span(NUMBER, m, true)
  {
    assert '0' <= s[i] <= '9';
    DigitsStop(s, i, m);
  }

  // The integer part and the fraction are what they should be.
  lemma MantissaRead(s: string, i: nat)
    requires StartsNumber(s, i)
    ensures var f := MantissaEnd(s, i);
            if f.kind == NUMBER then WholeNumber(s, i, f.end) else exists d: nat :: PointNumber(s, i, d, f.end)
  {
    var f := MantissaEnd(s, i);
    if f.kind == FLOAT {
      var d := if s[i] == '.' then i else DigitsEnd(s, i);
      assert f.end > i + 1;
      assert PointNumber(s, i, d, f.end);
    }
  }

  lemma ExponentRead(s: string, i: nat, kind: Kind)
    requires i < |s| && (s[i] == 'e' || s[i] == 'E')
    ensures var r := ExponentEnd(s, i, kind); r.kind == FLOAT && (r.ok <==> Exponent(s, i, r.end))
    ensures forall j: nat :: Exponent(s, i, j) ==> j <= ExponentEnd(s, i, kind).end
  {
    forall j: nat | Exponent(s, i, j)
      ensures j <= ExponentEnd(s, i, kind).end
    {
      DigitsStop(s, if s[i + 1] == '+' || s[i + 1] == '-' then i + 2 else i + 1, j);
    }
  }

  // No text that is a number is longer than what the scanner takes for one,
  // and that is a number, whole or not, exactly if it is no error.
  lemma NumberLongest(s: string, i: nat, j: nat)
    requires StartsNumber(s, i)
    ensures var n := NumberEnd(s, i);
            && (n.ok && n.kind == NUMBER <==> WholeNumber(s, i, n.end))
            && (n.ok && n.kind == FLOAT <==> FloatNumber(s, i, n.end))
            && (WholeNumber(s, i, j) || FloatNumber(s, i, j) ==> j <= n.end)
  {
    hide FractionEnd, ExponentEnd, DigitsIn;
    var n, f := NumberEnd(s, i), MantissaEnd(s, i);
    MantissaRead(s, i);
    NumberParts(s, i);
    if FloatNumber(s, i, j) {
      FloatWithin(s, i, j);
    }
    if WholeNumber(s, i, j) {
      WholeLongest(s, i, j);
    }
    if FloatNumber(s, i, n.end) {
      FloatKind(s, i);
    }
    if WholeNumber(s, i, n.end) {
      WholeKind(s, i);
    }
    if n.ok && n.kind == FLOAT && n.end != f.end {
      assert Mantissa(s, i, f.end) && Exponent(s, f.end, n.end);
    }
  }

  lemma NumberParts(s: string, i: nat)
    requires StartsNumber(s, i)
    ensures var n, f := NumberEnd(s, i), MantissaEnd(s, i);
            && n.end >= f.end
            && (if f.end < |s| && (s[f.end] == 'e' || s[f.end] == 'E')
                then n.end > f.end && n.kind == FLOAT && (n.ok <==> Exponent(s, f.end, n.end))
                else n == Span(f.kind, f.end, true))
    ensures forall j: nat :: Exponent(s, MantissaEnd(s, i).end, j) ==> j <= NumberEnd(s, i).end
  {
    hide FractionEnd, DigitsEnd;
    var f := MantissaEnd(s, i);
    if f.end < |s| && (s[f.end] == 'e' || s[f.end] == 'E') {
      ExponentRead(s, f.end, f.kind);
    }
  }

  lemma FloatWithin(s: string, i: nat, j: nat)
    requires StartsNumber(s, i) && FloatNumber(s, i, j)
    ensures j <= NumberEnd(s, i).end
  {
    hide FractionEnd, ExponentEnd, DigitsIn, NumberEnd, MantissaEnd, PointNumber;
    NumberParts(s, i);
    if d: nat :| PointNumber(s, i, d, j) {
      PointLongest(s, i, d, j);
    } else {
      var m: nat :| Mantissa(s, i, m) && Exponent(s, m, j);
      MantissaStops(s, i, m);
    }
  }

  lemma MantissaStops(s: string, i: nat, m: nat)
    requires StartsNumber(s, i) && Mantissa(s, i, m) && m < |s| && (s[m] == 'e' || s[m] == 'E')
    ensures MantissaEnd(s, i).end == m
  {
    hide StartsNumber, MantissaEnd, PointNumber;
    if WholeNumber(s, i, m) {
      WholeLongest(s, i, m);
    } else {
      var d: nat :| PointNumber(s, i, d, m);
      PointLongest(s, i, d, m);
    }
  }

  // What ends in a fraction or an exponent was read as one.
  lemma FloatKind(s: string, i: nat)
    requires StartsNumber(s, i) && FloatNumber(s, i, NumberEnd(s, i).end)
    ensures NumberEnd(s, i).ok && NumberEnd(s, i).kind == FLOAT
  {
    hide FractionEnd, ExponentEnd, DigitsIn, NumberEnd, MantissaEnd;
    var n := NumberEnd(s, i);
    NumberParts(s, i);
    if d: nat :| PointNumber(s, i, d, n.end) {
      PointLongest(s, i, d, n.end);
      PointKind(s, i, d, n.end);
    } else {
      var m: nat :| Mantissa(s, i, m) && Exponent(s, m, n.end);
      MantissaStops(s, i, m);
    }
  }

  lemma PointKind(s: string, i: nat, d: nat, m: nat)
    requires StartsNumber(s, i) && PointNumber(s, i, d, m) && m == NumberEnd(s, i).end
    ensures MantissaEnd(s, i).kind == FLOAT && MantissaEnd(s, i).end == m
  {
    hide FractionEnd, ExponentEnd, NumberEnd;
    PointLongest(s, i, d, m);
    NumberParts(s, i);
    MantissaRead(s, i);
  }

  lemma WholeKind(s: string, i: nat)
    requires StartsNumber(s, i) && WholeNumber(s, i, NumberEnd(s, i).end)
    ensures NumberEnd(s, i).ok && NumberEnd(s, i).kind == NUMBER
  {
    hide FractionEnd, ExponentEnd, NumberEnd, MantissaEnd;
    var n := NumberEnd(s, i);
    NumberParts(s, i);
    WholeLongest(s, i, n.end);
    MantissaRead(s, i);
  }

  // ---- escape sequences ----

  // The digits up to 16, lower-case and upper-case.
  const LOWER := "0123456789abcdef"
  const UPPER := "0123456789ABCDEF"

  // The value of a digit; 16 for what is none.
  function Digit(c: char): (d: nat)
    ensures d <= 16 && (d < 16 ==> c == LOWER[d] || c == UPPER[d])
    ensures d == 16 ==> c !in LOWER && c !in UPPER
  {
    DigitRead(c);
    DigitVal(Some(c))
  }

  lemma DigitRead(c: char)
    ensures var d := DigitVal(Some(c)); d <= 16 && (d < 16 ==> c == LOWER[d] || c == UPPER[d])
    ensures DigitVal(Some(c)) == 16 ==> c !in LOWER && c !in UPPER
  {
    assert forall d :: 0 <= d < 16 ==> '0' <= LOWER[d] <= '9' || 'a' <= LOWER[d] <= 'f';
    assert forall d :: 0 <= d < 16 ==> '0' <= UPPER[d] <= '9' || 'A' <= UPPER[d] <= 'F';
  }

  // The text from i to j is a numeral of that base.
  predicate Numeral(s: string, i: nat, j: nat, base: nat) {
    i <= j <= |s| && forall k :: i <= k < j ==> Digit(s[k]) < base
  }

  function Value(s: string, i: nat, j: nat, base: nat): nat
    requires i <= j <= |s|
    decreases j
  {
    if i == j then 0 else Value(s, i, j - 1, base) * base + Digit(s[j - 1])
  }

  // What the letters of the escape sequences of one letter stand for.
  const LETTERS := "abfnrtv\\\""
  const CODES := [7, 8, 12, 10, 13, 9, 11, 92, 34]

  // Code points that are characters: no surrogates.
  predicate IsCodePoint(v: nat) {
    v < 0xD800 || 0xE000 <= v < 0x110000
  }

  // One letter, which stands for v.
  predicate LetterFor(s: string, i: nat, j: nat, v: nat) {
    i + 1 < j <= |s| && j == i + 2 && exists k :: 0 <= k < |LETTERS| && s[i + 1] == LETTERS[k] && v == CODES[k]
  }

  // Three octal digits of the value v.
  predicate OctalFor(s: string, i: nat, j: nat, v: nat) {
    j == i + 4 && Numeral(s, i + 1, j, 8) && v == Value(s, i + 1, j, 8) && v < 256
  }

  // The letter c and n hexadecimal digits of the code point v.
  predicate CodedFor(s: string, i: nat, j: nat, c: char, n: nat, v: nat) {
    j == i + 2 + n && Numeral(s, i + 2, j, 16) && s[i + 1] == c && v == Value(s, i + 2, j, 16) && IsCodePoint(v)
  }

  // The text from i to j, which starts with a backslash, is an escape sequence
  // that stands for v.
  predicate StandsFor(s: string, i: nat, j: nat, v: nat) {
    || LetterFor(s, i, j, v)
    || OctalFor(s, i, j, v)
    || CodedFor(s, i, j, 'x', 2, v)
    || CodedFor(s, i, j, 'u', 4, v)
    || CodedFor(s, i, j, 'U', 8, v)
  }

  lemma NumeralStep(s: string, i: nat, n: nat, base: nat)
    requires n > 0 && i < |s|
    ensures Numeral(s, i, i + n, base) <==> Digit(s[i]) < base && Numeral(s, i + 1, i + n, base)
  {
    hide Digit;
  }

  lemma DigitsStep(s: string, i: nat, n: nat, base: nat, max: nat, x: nat)
    requires i <= |s| && base <= 16
    ensures n > 0 && i < |s| && Digit(s[i]) < base ==>
            EscapeDigits(s, i, n, base, max, x) == EscapeDigits(s, i + 1, n - 1, base, max, x * base + Digit(s[i]))
    ensures n > 0 && (i == |s| || Digit(s[i]) >= base) ==> !EscapeDigits(s, i, n, base, max, x).ok
    ensures n == 0 ==> EscapeDigits(s, i, n, base, max, x) == Span(STRING, i, x <= max && !(0xD800 <= x < 0xE000))
  {
    hide DigitVal;
    NoDigit();
  }

  lemma {:induction false} DigitsValue(s: string, a: nat, i: nat, n: nat, base: nat, max: nat)
    requires a <= i <= |s| && base <= 16
    ensures var r := EscapeDigits(s, i, n, base, max, Value(s, a, i, base));
            && (r.ok <==> Numeral(s, i, i + n, base) && Value(s, a, i + n, base) <= max
                          && !(0xD800 <= Value(s, a, i + n, base) < 0xE000))
            && (r.ok ==> r.end == i + n)
    decreases n
  {
    hide EscapeDigits, Digit, Numeral;
    var x := Value(s, a, i, base);
    DigitsStep(s, i, n, base, max, x);
    if n > 0 && i < |s| {
      NumeralStep(s, i, n, base);
      if Digit(s[i]) < base {
        DigitsValue(s, a, i + 1, n - 1, base, max);
      }
    } else {
      NumeralEnds(s, i, n, base);
    }
  }

  lemma NumeralEnds(s: string, i: nat, n: nat, base: nat)
    requires i <= |s| && (n == 0 || i == |s|)
    ensures Numeral(s, i, i + n, base) <==> n == 0
  {
  }

  lemma TwoDigits(s: string, i: nat)
    requires Numeral(s, i, i + 2, 16)
    ensures Value(s, i, i + 2, 16) < 256
  {
    assert Digit(s[i]) < 16 && Digit(s[i + 1]) < 16;
    assert Value(s, i, i + 1, 16) == Digit(s[i]);
  }

  lemma OctalMeans(s: string, i: nat, j: nat)
    requires i + 1 < |s|
    ensures EscapeDigits(s, i + 1, 3, 8, 255, 0) == Span(STRING, j, true) <==> exists v: nat :: OctalFor(s, i, j, v)
  {
    hide EscapeDigits, Digit, Numeral;
    DigitsValue(s, i + 1, i + 1, 3, 8, 255);
    DigitsKind(s, i + 1, 3, 8, 255, 0);
    if EscapeDigits(s, i + 1, 3, 8, 255, 0) == Span(STRING, j, true) {
      assert OctalFor(s, i, j, Value(s, i + 1, j, 8));
    }
  }

  lemma {:induction false} DigitsKind(s: string, i: nat, n: nat, base: nat, max: nat, x: nat)
    requires i <= |s| && base <= 16
    ensures EscapeDigits(s, i, n, base, max, x).kind == STRING
    decreases n
  {
    if n > 0 && DigitVal(At(s, i)) < base {
      DigitsKind(s, i + 1, n - 1, base, max, x * base + DigitVal(At(s, i)));
    }
  }

  lemma CodedMeans(s: string, i: nat, j: nat, c: char, n: nat, max: nat)
    requires i + 1 < |s| && s[i + 1] == c && (max == 0x10FFFF || (n == 2 && max == 255))
    ensures EscapeDigits(s, i + 2, n, 16, max, 0) == Span(STRING, j, true) <==>
            exists v: nat :: CodedFor(s, i, j, c, n, v)
  {
    hide EscapeDigits, Digit, Numeral;
    DigitsValue(s, i + 2, i + 2, n, 16, max);
    DigitsKind(s, i + 2, n, 16, max, 0);
    if EscapeDigits(s, i + 2, n, 16, max, 0) == Span(STRING, j, true) {
      assert CodedFor(s, i, j, c, n, Value(s, i + 2, j, 16));
    }
    if max == 255 && Numeral(s, i + 2, i + 4, 16) {
      TwoDigits(s, i + 2);
    }
  }

  lemma LetterMeans(s: string, i: nat, j: nat)
    requires i + 1 < |s|
    ensures (s[i + 1] in LETTERS && j == i + 2) <==> exists v: nat :: LetterFor(s, i, j, v)
  {
    if s[i + 1] in LETTERS && j == i + 2 {
      var k: nat :| k < |LETTERS| && s[i + 1] == LETTERS[k];
      assert LetterFor(s, i, j, CODES[k]);
    }
  }

  // Which kind of escape sequence it is tells from its second character.
  lemma OctalStart(s: string, i: nat, j: nat, v: nat)
    requires OctalFor(s, i, j, v)
    ensures '0' <= s[i + 1] <= '7'
  {
    assert Digit(s[i + 1]) < 8;
  }

  // An escape sequence is read without error exactly if it stands for a
  // character.
  lemma EscapeMeans(s: string, i: nat, j: nat)
    requires i + 1 < |s|
    ensures EscapeEnd(s, i + 1) == Span(STRING, j, true) <==> exists v: nat :: StandsFor(s, i, j, v)
  {
    hide EscapeDigits, OctalFor, CodedFor, LetterFor;
    var c := s[i + 1];
    LetterMeans(s, i, j);
    if v: nat :| LetterFor(s, i, j, v) {
      assert StandsFor(s, i, j, v);
    }
    if v: nat :| OctalFor(s, i, j, v) {
      OctalStart(s, i, j, v);
      assert StandsFor(s, i, j, v);
    }
    if '0' <= c <= '7' {
      OctalMeans(s, i, j);
    }
    Coded(s, i, j);
    if c == 'x' {
      CodedMeans(s, i, j, c, 2, 255);
      CodedStands(s, i, j, c, 2);
    } else if c == 'u' {
      CodedMeans(s, i, j, c, 4, 0x10FFFF);
      CodedStands(s, i, j, c, 4);
    } else if c == 'U' {
      CodedMeans(s, i, j, c, 8, 0x10FFFF);
      CodedStands(s, i, j, c, 8);
    }
  }

  lemma CodedStands(s: string, i: nat, j: nat, c: char, n: nat)
    requires (c, n) == ('x', 2) || (c, n) == ('u', 4) || (c, n) == ('U', 8)
    ensures (exists v: nat :: CodedFor(s, i, j, c, n, v)) ==> exists v: nat :: StandsFor(s, i, j, v)
  {
    hide CodedFor, OctalFor, LetterFor;
    if v: nat :| CodedFor(s, i, j, c, n, v) {
      assert StandsFor(s, i, j, v);
    }
  }

  lemma Coded(s: string, i: nat, j: nat)
    requires i + 1 < |s|
    ensures forall c, n: nat, v: nat :: CodedFor(s, i, j, c, n, v) ==> s[i + 1] == c
  {
  }

  // ---- strings ----

  // The text from i to k, between quotes, stands for v: a character for
  // itself, or an escape sequence.
  predicate OneFor(s: string, i: nat, k: nat, v: nat) {
    && i < k <= |s|
    && if s[i] == '\\' then StandsFor(s, i, k, v)
       else k == i + 1 && s[i] != '"' && s[i] != '\n' && v == s[i] as nat
  }

  // The text from i to j, between quotes, stands for vs.
  ghost predicate Spells(s: string, i: nat, j: nat, vs: seq<nat>)
    decreases |vs|
  {
    if vs == [] then i == j <= |s| else exists k: nat :: OneFor(s, i, k, vs[0]) && Spells(s, k, j, vs[1..])
  }

  ghost predicate Spelled(s: string, i: nat, j: nat) {
    exists vs :: Spells(s, i, j, vs)
  }

  ghost predicate QuotedString(s: string, i: nat, j: nat) {
    && i + 1 < j <= |s| && s[i] == '"' && s[j - 1] == '"' && Spelled(s, i + 1, j - 1)
  }

  predicate RawString(s: string, i: nat, j: nat) {
    i + 1 < j <= |s| && s[i] == '`' && s[j - 1] == '`' && forall k :: i < k < j - 1 ==> s[k] != '`'
  }

  lemma SpellsCons(s: string, i: nat, k: nat, j: nat, v: nat, vs: seq<nat>)
    requires OneFor(s, i, k, v) && Spells(s, k, j, vs)
    ensures Spells(s, i, j, [v] + vs)
  {
    hide OneFor;
    assert ([v] + vs)[1..] == vs;
  }

  lemma {:induction false} QuotedEnds(s: string, i: nat)
    requires i <= |s|
    ensures var r := StringEnd(s, i, '"', true, false);
            r.ok ==> i < r.end && s[r.end - 1] == '"' && Spelled(s, i, r.end - 1)
    decreases |s| - i
  {
    hide EscapeEnd, StandsFor;
    var r := StringEnd(s, i, '"', true, false);
    if r.ok {
      if s[i] == '"' {
        assert Spells(s, i, i, []);
      } else {
        var e := if s[i] == '\\' then EscapeEnd(s, i + 1).end else i + 1;
        QuotedEnds(s, e);
        var vs :| Spells(s, e, r.end - 1, vs);
        var v := OneRead(s, i);
        SpellsCons(s, i, e, r.end - 1, v, vs);
      }
    }
  }

  // What the first character, or escape sequence, stands for.
  lemma OneRead(s: string, i: nat) returns (v: nat)
    requires i < |s| && s[i] != '"' && s[i] != '\n' && (s[i] == '\\' ==> EscapeEnd(s, i + 1).ok)
    ensures OneFor(s, i, if s[i] == '\\' then EscapeEnd(s, i + 1).end else i + 1, v)
  {
    hide EscapeEnd, StandsFor;
    v := s[i] as nat;
    if s[i] == '\\' {
      var e := EscapeEnd(s, i + 1);
      EscapeKind(s, i + 1);
      EscapeMeans(s, i, e.end);
      v :| StandsFor(s, i, e.end, v);
    }
  }

  lemma EscapeKind(s: string, i: nat)
    requires i <= |s|
    ensures EscapeEnd(s, i).kind == STRING && (EscapeEnd(s, i).ok ==> i < |s| && i < EscapeEnd(s, i).end)
  {
    EscapeProgressed(s, i);
    hide EscapeDigits;
    DigitsKind(s, i, 3, 8, 255, 0);
    if i + 1 <= |s| {
      DigitsKind(s, i + 1, 2, 16, 255, 0);
      DigitsKind(s, i + 1, 4, 16, 0x10FFFF, 0);
      DigitsKind(s, i + 1, 8, 16, 0x10FFFF, 0);
    }
  }

  lemma EscapeProgressed(s: string, i: nat)
    requires i <= |s|
    ensures EscapeEnd(s, i).ok ==> i < |s| && i < EscapeEnd(s, i).end
  {
    if EscapeEnd(s, i).ok {
      EscapeProgress(s, i);
    }
  }

  lemma {:induction false} SpelledEnds(s: string, i: nat, j: nat, vs: seq<nat>)
    requires Spells(s, i, j, vs) && j < |s| && s[j] == '"'
    ensures i <= |s| && StringEnd(s, i, '"', true, false) == Span(STRING, j + 1, true)
    decreases |vs|
  {
    hide EscapeEnd, StandsFor;
    if vs != [] {
      var k: nat :| OneFor(s, i, k, vs[0]) && Spells(s, k, j, vs[1..]);
      SpelledEnds(s, k, j, vs[1..]);
      if s[i] == '\\' {
        StandsWithin(s, i, k, vs[0]);
        EscapeMeans(s, i, k);
      }
    }
  }

  lemma StandsWithin(s: string, i: nat, j: nat, v: nat)
    requires StandsFor(s, i, j, v)
    ensures i + 1 < j <= |s|
  {
    hide Digit;
  }

  // A string in double quotes is read without error exactly if everything
  // between the quotes stands for something, and it ends there.
  lemma QuotedMeans(s: string, i: nat, j: nat)
    requires i < |s| && s[i] == '"'
    ensures StringEnd(s, i + 1, '"', true, false) == Span(STRING, j, true) <==> QuotedString(s, i, j)
  {
    hide StringEnd, Spells;
    QuotedEnds(s, i + 1);
    if QuotedString(s, i, j) {
      var vs :| Spells(s, i + 1, j - 1, vs);
      SpelledEnds(s, i + 1, j - 1, vs);
    }
  }

  lemma {:induction false} RawEnds(s: string, i: nat)
    requires i <= |s|
    ensures var r := StringEnd(s, i, '`', false, true);
            && (r.ok ==> i < r.end && s[r.end - 1] == '`' && forall k :: i <= k < r.end - 1 ==> s[k] != '`')
            && (!r.ok ==> forall k :: i <= k < |s| ==> s[k] != '`')
    decreases |s| - i
  {
    if i < |s| && s[i] != '`' {
      RawEnds(s, i + 1);
    }
  }

  // A string in backquotes ends with the next backquote.
  lemma RawMeans(s: string, i: nat, j: nat)
    requires i < |s| && s[i] == '`'
    ensures StringEnd(s, i + 1, '`', false, true) == Span(STRING, j, true) <==> RawString(s, i, j)
  {
    RawEnds(s, i + 1);
    var r := StringEnd(s, i + 1, '`', false, true);
    hide StringEnd;
    if RawString(s, i, j) {
      assert s[j - 1] == '`';
    }
  }

  // ---- tokens ----

  // A letter, and letters and digits.
  predicate Word(s: string, i: nat, j: nat) {
    i < j <= |s| && IsLetter(s[i]) && forall k :: i <= k < j ==> IsLetter(s[k]) || IsDigit(s[k])
  }

  // The operators, as the lexical grammar of the scanner spells them: the same
  // texts as in the table of token.go.
  function Symbol(k: Kind): (t: string)
    ensures t == Text(k)
  {
    match k
    case OR => "||"
    case AND => "&&"
    case NOT => "!"
    case NEQ => "!="
    case ASSIGN => "="
    case EQ => "=="
    case LT => "<"
    case LTE => "<="
    case GT => ">"
    case GTE => ">="
    case ADD => "+"
    case SUB => "-"
    case MUL => "*"
    case DIV => "/"
    case MOD => "%"
    case POW => "^"
    case LCURLY => "{"
    case RCURLY => "}"
    case LPAREN => "("
    case RPAREN => ")"
    case LBRACK => "["
    case RBRACK => "]"
    case COMMA => ","
    case DOT => "."
    case _ => ""
  }

  // The text from i to j is a token of that kind by the lexical grammar.
  ghost predicate IsToken(s: string, i: nat, j: nat, kind: Kind) {
    i < j <= |s| &&
    match kind
    case IDENT => Word(s, i, j) && s[i..j] !in {"true", "false", "null"}
    case BOOL => s[i..j] == "true" || s[i..j] == "false"
    case NULL => s[i..j] == "null"
    case NUMBER => WholeNumber(s, i, j)
    case FLOAT => FloatNumber(s, i, j)
    case STRING => QuotedString(s, i, j) || RawString(s, i, j)
    case _ => Symbol(kind) != "" && s[i..j] == Symbol(kind)
  }

  lemma WordLongest(s: string, i: nat)
    requires i < |s| && IsLetter(s[i])
    ensures var j := IdentifierEnd(s, i + 1); Word(s, i, j) && forall m: nat :: Word(s, i, m) ==> m <= j
  {
    hide IsLetter, IsDigit;
    var j := IdentifierEnd(s, i + 1);
    forall k | i <= k < j
      ensures IsLetter(s[k]) || IsDigit(s[k])
    {
      assert k > i ==> InIdentifier(s[k]);
    }
    assert j < |s| ==> !(IsLetter(s[j]) || IsDigit(s[j]));
  }

  // What a token starts with.
  lemma TokenStart(s: string, i: nat, j: nat, kind: Kind)
    requires IsToken(s, i, j, kind)
    ensures match kind
            case IDENT | BOOL | NULL => IsLetter(s[i])
            case NUMBER | FLOAT => StartsNumber(s, i)
            case STRING => s[i] == '"' || s[i] == '`'
            case _ => !HasText(kind) && IsPunctuation(s[i])
  {
    hide Spelled, IsPunctuation, Text, Symbol, StartsNumber;
    match kind
    case IDENT =>
    case BOOL | NULL =>
      assert s[i] == s[i..j][0];
    case NUMBER | FLOAT =>
      NumberStart(s, i, j);
    case STRING =>
    case _ =>
      TextKind(kind);
      OperatorText(kind);
      assert s[i] == s[i..j][0];
  }

  lemma TextKind(kind: Kind)
    requires Text(kind) != ""
    ensures !HasText(kind)
  {
  }

  lemma NumberStart(s: string, i: nat, j: nat)
    requires WholeNumber(s, i, j) || FloatNumber(s, i, j)
    ensures StartsNumber(s, i)
  {
    if FloatNumber(s, i, j) {
      if d: nat :| PointNumber(s, i, d, j) {
        PointStart(s, i, d, j);
      } else {
        var m: nat :| Mantissa(s, i, m) && Exponent(s, m, j);
        if !WholeNumber(s, i, m) {
          var d: nat :| PointNumber(s, i, d, m);
          PointStart(s, i, d, m);
        }
      }
    }
  }

  lemma PointStart(s: string, i: nat, d: nat, j: nat)
    requires PointNumber(s, i, d, j)
    ensures StartsNumber(s, i)
  {
    if d == i {
      assert '0' <= s[i + 1] <= '9';
    }
  }

  // Which characters start what is disjoint, but for the point.
  lemma Starts(s: string, i: nat)
    requires i < |s|
    ensures IsLetter(s[i]) ==> !StartsNumber(s, i) && s[i] != '"' && s[i] != '`' && !IsPunctuation(s[i])
    ensures StartsNumber(s, i) ==> s[i] != '"' && s[i] != '`' && (IsPunctuation(s[i]) ==> s[i] == '.')
    ensures s[i] == '"' || s[i] == '`' ==> !IsPunctuation(s[i])
  {
  }

  // The longest token of a place, and the kind it is of.
  ghost predicate IsLongest(s: string, i: nat, j: nat, kind: Kind) {
    && IsToken(s, i, j, kind)
    && forall m: nat, k :: IsToken(s, i, m, k) ==> m <= j && (m == j ==> k == kind)
  }

  lemma LongestWord(s: string, i: nat, ends: bool)
    requires i < |s| && IsLetter(s[i])
    ensures var t := TokenAt(s, i, ends);
            IsLongest(s, i, t.next, t.sym.kind) && t.sym.lit == s[i..t.next] && HasText(t.sym.kind)
  {
    hide IsLetter, IsPunctuation, StartsNumber, IsDigit, FloatNumber, QuotedString, RawString, Text, Symbol,
         IdentifierEnd;
    var t := TokenAt(s, i, ends);
    WordLongest(s, i);
    Starts(s, i);
    forall m: nat, k | IsToken(s, i, m, k)
      ensures m <= t.next && (m == t.next ==> k == t.sym.kind)
    {
      TokenStart(s, i, m, k);
      WordOnly(s, i, m, k);
    }
  }

  lemma WordOnly(s: string, i: nat, m: nat, k: Kind)
    requires IsToken(s, i, m, k) && (k == IDENT || k == BOOL || k == NULL)
    ensures Word(s, i, m) && Lookup(s[i..m]) == k
  {
    if k != IDENT {
      forall n | i <= n < m
        ensures IsLetter(s[n])
      {
        assert s[n] == s[i..m][n - i];
      }
    }
  }

  lemma PointText(k: Kind)
    requires Text(k) != "" && Text(k)[0] == '.'
    ensures |Text(k)| == 1
  {
  }

  // A number token that starts with a point is longer than the operator.
  lemma PointShort(s: string, i: nat, m: nat, k: Kind)
    requires StartsNumber(s, i) && IsToken(s, i, m, k) && k != NUMBER && k != FLOAT
    ensures m < NumberEnd(s, i).end
  {
    hide Spelled, IsPunctuation, Text, Symbol, StartsNumber, FractionEnd, ExponentEnd, IsLetter;
    TokenStart(s, i, m, k);
    Starts(s, i);
    assert s[i] == s[i..m][0];
    PointText(k);
    DotNumber(s, i);
    NumberParts(s, i);
  }

  lemma LongestNumber(s: string, i: nat, ends: bool)
    requires StartsNumber(s, i) && !IsLetter(s[i]) && NumberEnd(s, i).ok
    ensures var t := TokenAt(s, i, ends);
            IsLongest(s, i, t.next, t.sym.kind) && t.sym.lit == s[i..t.next] && HasText(t.sym.kind)
  {
    hide IsLetter, IsPunctuation, WholeNumber, FloatNumber, QuotedString, RawString, Text, Symbol, NumberEnd;
    var n := NumberEnd(s, i);
    NumberLongest(s, i, n.end);
    forall m: nat, k | IsToken(s, i, m, k)
      ensures m <= n.end && (m == n.end ==> k == n.kind)
    {
      if k == NUMBER || k == FLOAT {
        NumberLongest(s, i, m);
      } else {
        PointShort(s, i, m, k);
      }
    }
  }

  // A string is all there is between its quotes.
  lemma StringOnly(s: string, i: nat, m: nat, k: Kind)
    requires i < |s| && (s[i] == '"' || s[i] == '`') && IsToken(s, i, m, k)
    ensures k == STRING
    ensures m == if s[i] == '"' then StringEnd(s, i + 1, '"', true, false).end
                 else StringEnd(s, i + 1, '`', false, true).end
  {
    hide IsLetter, IsPunctuation, FloatNumber, Text, Symbol, StringEnd, StartsNumber;
    TokenStart(s, i, m, k);
    Starts(s, i);
    if s[i] == '"' {
      QuotedMeans(s, i, m);
    } else {
      RawMeans(s, i, m);
    }
  }

  lemma LongestString(s: string, i: nat, ends: bool)
    requires i < |s| && (s[i] == '"' || s[i] == '`') && TokenAt(s, i, ends).ok
    ensures var t := TokenAt(s, i, ends);
            IsLongest(s, i, t.next, t.sym.kind) && t.sym.lit == s[i..t.next] && HasText(t.sym.kind)
  {
    hide IsLetter, IsPunctuation, FloatNumber, QuotedString, RawString, Text, Symbol, StringEnd, StartsNumber;
    var t := TokenAt(s, i, ends);
    Starts(s, i);
    if s[i] == '"' {
      QuotedMeans(s, i, t.next);
    } else {
      RawMeans(s, i, t.next);
    }
    QuotesApart(s, i, t.next);
    forall m: nat, k | IsToken(s, i, m, k)
      ensures m <= t.next && (m == t.next ==> k == STRING)
    {
      StringOnly(s, i, m, k);
    }
  }

  lemma QuotesApart(s: string, i: nat, j: nat)
    ensures QuotedString(s, i, j) || RawString(s, i, j) ==> i < j <= |s|
  {
  }

  // An operator of two characters is taken for it; one of one character for
  // no other of one character.
  lemma OperatorLongest(s: string, i: nat, m: nat, k: Kind)
    requires i < m <= |s| && Text(k) != "" && s[i..m] == Text(k) && !HasText(k)
    ensures var o := OperatorEnd(s, i); o.ok ==> m <= o.end && (m == o.end ==> k == o.kind)
  {
    assert s[i] == Text(k)[0];
    OperatorText(k);
    if |Text(k)| == 2 {
      assert s[i + 1] == Text(k)[1];
      DoubleRead(s, i, k);
    } else {
      SingleOnly(s, i, k);
    }
  }

  lemma SingleOnly(s: string, i: nat, k: Kind)
    requires i < |s| && !HasText(k) && |Text(k)| == 1 && s[i] == Text(k)[0]
    ensures var o := OperatorEnd(s, i); o.ok && o.end == i + 1 ==> o.kind == k
  {
  }

  lemma OperatorSpelled(s: string, i: nat)
    requires i < |s| && OperatorEnd(s, i).ok
    ensures var o := OperatorEnd(s, i); !HasText(o.kind) && Text(o.kind) != "" && s[i..o.end] == Text(o.kind)
  {
    var o := OperatorEnd(s, i);
    assert |s[i..o.end]| == |Text(o.kind)| && forall k :: 0 <= k < o.end - i ==> s[i..o.end][k] == Text(o.kind)[k];
  }

  lemma LongestOperator(s: string, i: nat, ends: bool)
    requires i < |s| && !IsBlank(s[i], false) && !StartsComment(s, i) && TokenAt(s, i, ends).ok
    requires !IsLetter(s[i]) && !StartsNumber(s, i) && s[i] != '"' && s[i] != '`'
    ensures var t := TokenAt(s, i, ends); IsLongest(s, i, t.next, t.sym.kind) && t.sym.lit == ""
  {
    hide IsLetter, IsPunctuation, WholeNumber, FloatNumber, QuotedString, RawString, Text, Symbol, StringEnd,
         StartsNumber, OperatorEnd;
    var o := OperatorEnd(s, i);
    OperatorSpelled(s, i);
    forall m: nat, k | IsToken(s, i, m, k)
      ensures m <= o.end && (m == o.end ==> k == o.kind)
    {
      TokenStart(s, i, m, k);
      OperatorLongest(s, i, m, k);
    }
  }

  lemma OperatorWrong(s: string, i: nat)
    requires i < |s| && (OperatorEnd(s, i).kind == ILLEGAL || !OperatorEnd(s, i).ok)
    ensures var o := OperatorEnd(s, i); Text(o.kind) != "" ==> |Text(o.kind)| == 2 && o.end == i + 1
    ensures var o := OperatorEnd(s, i); o.kind == ILLEGAL || o.kind == OR || o.kind == AND
  {
  }

  // What is no token of the grammar is an error.
  lemma WrongToken(s: string, i: nat, ends: bool)
    requires i < |s| && !IsBlank(s[i], false) && !StartsComment(s, i) && !TokenAt(s, i, ends).ok
    ensures var t := TokenAt(s, i, ends); !IsToken(s, i, t.next, t.sym.kind)
  {
    hide IsLetter, IsPunctuation, WholeNumber, FloatNumber, QuotedString, RawString, StringEnd, StartsNumber,
         OperatorEnd, Text, Symbol, NumberEnd;
    var t := TokenAt(s, i, ends);
    Illegal();
    if StartsNumber(s, i) {
      NumberLongest(s, i, t.next);
    } else if s[i] == '"' || s[i] == '`' {
      if IsToken(s, i, t.next, t.sym.kind) {
        NotRead(s, i, t.next);
      }
    } else if s[i] != '\'' {
      OperatorWrong(s, i);
    }
  }

  lemma Illegal()
    ensures Text(ILLEGAL) == ""
  {
  }

  lemma NotRead(s: string, i: nat, j: nat)
    requires i < |s| && (s[i] == '"' || s[i] == '`') && IsToken(s, i, j, STRING)
    ensures s[i] == '"' ==> StringEnd(s, i + 1, '"', true, false) == Span(STRING, j, true)
    ensures s[i] == '`' ==> StringEnd(s, i + 1, '`', false, true) == Span(STRING, j, true)
  {
    hide StringEnd, Spelled;
    if s[i] == '"' {
      QuotedMeans(s, i, j);
    } else {
      RawMeans(s, i, j);
    }
  }

  // What the scanner takes is an error exactly if it is no token of the
  // grammar; and if it is one, no other and no longer token stands there.
  lemma TokenLongest(s: string, i: nat, ends: bool)
    requires i < |s| && !IsBlank(s[i], false) && !StartsComment(s, i)
    ensures var t := TokenAt(s, i, ends);
            && (t.ok <==> IsToken(s, i, t.next, t.sym.kind))
            && (t.ok ==> IsLongest(s, i, t.next, t.sym.kind)
                         && t.sym.lit == if HasText(t.sym.kind) then s[i..t.next] else "")
  {
    hide IsLetter, IsPunctuation, IsToken, StringEnd, StartsNumber, OperatorEnd, NumberEnd, HasText;
    var t := TokenAt(s, i, ends);
    if !t.ok {
      WrongToken(s, i, ends);
    } else if IsLetter(s[i]) {
      LongestWord(s, i, ends);
    } else if StartsNumber(s, i) {
      LongestNumber(s, i, ends);
    } else if s[i] == '"' || s[i] == '`' {
      LongestString(s, i, ends);
    } else {
      LongestOperator(s, i, ends);
      OperatorSpelled(s, i);
    }
  }

  // ---- quoted texts ----

  function Codes(name: string): (vs: seq<nat>)
    ensures |vs| == |name| && forall k :: 0 <= k < |name| ==> vs[k] == name[k] as nat
  {
    seq(|name|, k requires 0 <= k < |name| => name[k] as nat)
  }

  lemma CutFirst(t: string, i: nat, n: nat, u: string)
    requires n > 0 && Cut(t, i, i + n, u)
    ensures t[i] == u[0] && Cut(t, i + 1, i + n, u[1..])
  {
  }

  lemma HexFirst(v: nat, n: nat, d: nat, rest: nat)
    requires n > 0 && v < Pow16(n) && d == v / Pow16(n - 1) && rest == v % Pow16(n - 1)
    ensures d < 16 && rest < Pow16(n - 1) && v == d * Pow16(n - 1) + rest && Pow16(n) == 16 * Pow16(n - 1)
    ensures Hex(v, n)[0] == HexDigit(d) && Hex(v, n)[1..] == Hex(rest, n - 1)
  {
    hide HexDigit;
    Divide(v, Pow16(n - 1));
  }

  lemma ValueStep(t: string, a: nat, i: nat)
    requires a <= i < |t|
    ensures Value(t, a, i + 1, 16) == Value(t, a, i, 16) * 16 + Digit(t[i])
  {
    hide Digit;
  }

  // The digits of v stand for v.
  lemma {:induction false} HexValued(t: string, a: nat, i: nat, n: nat, v: nat)
    requires a <= i && v < Pow16(n) && Cut(t, i, i + n, Hex(v, n))
    ensures Numeral(t, i, i + n, 16) && Value(t, a, i + n, 16) == Value(t, a, i, 16) * Pow16(n) + v
    decreases n
  {
    hide Digit, Numeral, Cut, Hex, Value, HexDigit;
    Within(t, i, n, Hex(v, n));
    if n > 0 {
      var d, rest := v / Pow16(n - 1), v % Pow16(n - 1);
      HexFirst(v, n, d, rest);
      CutFirst(t, i, n, Hex(v, n));
      DigitHex(d);
      HexValued(t, a, i + 1, n - 1, rest);
      NumeralStep(t, i, n, 16);
      ValueStep(t, a, i);
      Shifted(Value(t, a, i, 16), d, Pow16(n - 1), rest, v);
    } else {
      NumeralEnds(t, i, n, 16);
    }
  }

  lemma Within(t: string, i: nat, n: nat, u: string)
    requires Cut(t, i, i + n, u)
    ensures i + n <= |t|
  {
  }

  lemma DigitHex(d: nat)
    requires d < 16
    ensures Digit(HexDigit(d)) == d
  {
    Lexemes.HexValue(d);
  }

  // The escape sequence the printer writes for a character stands for it.
  lemma EscapeStands(t: string, i: nat, c: char)
    requires !Verbatim(c) && Cut(t, i, i + |Escape(c)|, Escape(c))
    ensures StandsFor(t, i, i + |Escape(c)|, c as nat) && t[i] == '\\'
  {
    hide Printable, Hex, Digit, Numeral, Value;
    var e := Escape(c);
    Powers();
    EscapeText(c);
    assert t[i] == e[0] && t[i + 1] == e[1];
    if |e| > 2 {
      HexStands(t, i, c, |e| - 2);
    } else {
      LetterStands(t, i, c);
    }
  }

  lemma CutTail(t: string, i: nat, n: nat, u: string)
    requires Cut(t, i, i + 2 + n, u)
    ensures Cut(t, i + 2, i + 2 + n, u[2..])
  {
  }

  lemma HexStands(t: string, i: nat, c: char, n: nat)
    requires !Verbatim(c) && Cut(t, i, i + |Escape(c)|, Escape(c)) && |Escape(c)| == n + 2 && n > 0
    ensures StandsFor(t, i, i + |Escape(c)|, c as nat)
  {
    hide Printable, Hex, Digit, Numeral, Value;
    var e := Escape(c);
    Powers();
    EscapeText(c);
    assert t[i + 1] == e[1];
    CutTail(t, i, n, e);
    HexValued(t, i + 2, i + 2, n, c as nat);
    NoDigits(t, i + 2);
    assert CodedFor(t, i, i + 2 + n, e[1], n, c as nat);
  }

  lemma NoDigits(t: string, i: nat)
    requires i <= |t|
    ensures Value(t, i, i, 16) == 0
  {
  }

  lemma LetterStands(t: string, i: nat, c: char)
    requires !Verbatim(c) && Cut(t, i, i + 2, Escape(c)) && |Escape(c)| == 2
    ensures LetterFor(t, i, i + 2, c as nat)
  {
    var k := LetterCode(c);
    assert t[i + 1] == Escape(c)[1];
    assert t[i + 1] == LETTERS[k] && c as nat == CODES[k];
  }

  lemma LetterCode(c: char) returns (k: nat)
    requires !Verbatim(c) && |Escape(c)| == 2
    ensures k < |LETTERS| && Escape(c)[1] == LETTERS[k] && c as nat == CODES[k]
  {
    hide Printable, Hex;
    k := if c == '\U{07}' then 0 else if c == '\U{08}' then 1 else if c == '\U{0C}' then 2 else if c == '\n' then 3
         else if c == '\r' then 4 else if c == '\t' then 5 else if c == '\U{0B}' then 6 else if c == '\\' then 7 else 8;
  }

  lemma {:induction false} EscapesSpell(t: string, i: nat, name: string)
    requires i <= |t| && t[i..] == Escapes(name) + "\""
    ensures |t| > 0 && t[|t| - 1] == '"' && Spells(t, i, |t| - 1, Codes(name))
    decreases |name|
  {
    hide Printable, Hex, StandsFor, Escape;
    if name == "" {
      assert t[i..][0] == t[i];
    } else {
      var c, e := name[0], Escape(name[0]);
      var j := i + |e|;
      Split(t, i, e, Escapes(name[1..]) + "\"");
      EscapesSpell(t, j, name[1..]);
      if Verbatim(c) {
        PrintableOnly(c);
        assert t[i] == c;
      } else {
        EscapeStands(t, i, c);
      }
      assert OneFor(t, i, j, c as nat);
      SpellsCons(t, i, j, |t| - 1, c as nat, Codes(name[1..]));
      assert [c as nat] + Codes(name[1..]) == Codes(name);
    }
  }

  // A text quoted by the printer is a string that stands for that text.
  lemma QuoteSpells(name: string)
    ensures var t := Quote(name); QuotedString(t, 0, |t|) && Spells(t, 1, |t| - 1, Codes(name))
  {
    hide Spells;
    var t := Quote(name);
    assert t[1..] == Escapes(name) + "\"";
    EscapesSpell(t, 1, name);
  }

  lemma StandsOnce(s: string, i: nat, j: nat, v: nat, k: nat, w: nat)
    requires StandsFor(s, i, j, v) && StandsFor(s, i, k, w)
    ensures j == k && v == w
  {
    StandsWithin(s, i, j, v);
    SecondCharacter(s, i, j, v);
    SecondCharacter(s, i, k, w);
    hide Digit, Numeral, Value;
  }

  lemma SecondCharacter(s: string, i: nat, j: nat, v: nat)
    requires StandsFor(s, i, j, v) && i + 1 < |s|
    ensures s[i + 1] in LETTERS ==> LetterFor(s, i, j, v)
    ensures '0' <= s[i + 1] <= '7' ==> OctalFor(s, i, j, v)
    ensures s[i + 1] == 'x' ==> CodedFor(s, i, j, 'x', 2, v)
    ensures s[i + 1] == 'u' ==> CodedFor(s, i, j, 'u', 4, v)
    ensures s[i + 1] == 'U' ==> CodedFor(s, i, j, 'U', 8, v)
  {
    hide Digit, Numeral, Value;
    if OctalFor(s, i, j, v) {
      OctalStart(s, i, j, v);
    }
  }

  // A string stands for one text only.
  lemma {:induction false} SpellsOnce(s: string, i: nat, j: nat, vs: seq<nat>, ws: seq<nat>)
    requires Spells(s, i, j, vs) && Spells(s, i, j, ws)
    ensures vs == ws
    decreases |vs|
  {
    hide StandsFor;
    SpellsForward(s, i, j, vs);
    SpellsForward(s, i, j, ws);
    if vs != [] && ws != [] {
      var k: nat :| OneFor(s, i, k, vs[0]) && Spells(s, k, j, vs[1..]);
      var m: nat :| OneFor(s, i, m, ws[0]) && Spells(s, m, j, ws[1..]);
      if s[i] == '\\' {
        StandsOnce(s, i, k, vs[0], m, ws[0]);
      }
      SpellsOnce(s, k, j, vs[1..], ws[1..]);
      assert vs == [vs[0]] + vs[1..] && ws == [ws[0]] + ws[1..];
    }
  }

  lemma {:induction false} SpellsForward(s: string, i: nat, j: nat, vs: seq<nat>)
    requires Spells(s, i, j, vs)
    ensures i <= j <= |s| && (i == j <==> vs == [])
    decreases |vs|
  {
    hide StandsFor;
    if vs != [] {
      var k: nat :| OneFor(s, i, k, vs[0]) && Spells(s, k, j, vs[1..]);
      SpellsForward(s, k, j, vs[1..]);
    }
  }
}
