// The text of a token is read as that token wherever it stands, if what follows
// does not continue it; and what was read as a token is its text.
module Lexemes {
  import opened Tokens
  import opened Syntax
  import opened Lexis
  import opened Printers
  import opened Quoting

  // Text without characters that are errors by themselves.
  predicate CleanText(s: string) {
    forall i :: 0 <= i < |s| ==> s[i] != NUL && s[i] != BOM
  }

  // The text of sym, by itself, scans as sym.
  predicate Lexeme(sym: Sym) {
    && (sym.kind == IDENT || IsLiteral(sym.kind)) && sym.lit != "" && CleanText(sym.lit)
    && TokenAt(sym.lit, 0, false) == Scanned(sym, 0, |sym.lit|, true, true)
  }

  // t is what s holds from i to j.
  predicate Cut(s: string, i: nat, j: nat, t: string) {
    i <= j <= |s| && |t| == j - i && forall k :: i <= k < j ==> s[k] == t[k - i]
  }

  lemma CutSlice(s: string, i: nat, j: nat, t: string)
    requires i <= j <= |s|
    ensures Cut(s, i, j, t) <==> t == s[i..j]
  {
  }

  lemma CutAt(s: string, i: nat, j: nat, t: string, k: nat)
    requires Cut(s, i, j, t) && i <= k < j
    ensures At(t, k - i) == At(s, k) && s[k] == t[k - i]
  {
  }

  // ---- identifiers and digits ----

  lemma {:induction false} IdentifierCut(s: string, i: nat, j: nat, t: string, k: nat)
    requires Cut(s, i, j, t) && i <= k <= j
    ensures IdentifierEnd(t, k - i) == |t| && (j == |s| || !InIdentifier(s[j])) ==> IdentifierEnd(s, k) == j
    ensures IdentifierEnd(s, k) == j ==> IdentifierEnd(t, k - i) == |t|
    decreases j - k
  {
    if k < j {
      IdentifierCut(s, i, j, t, k + 1);
    }
  }

  lemma {:induction false} DigitsCut(s: string, i: nat, j: nat, t: string, k: nat)
    requires Cut(s, i, j, t) && i <= k <= j
    ensures DigitsEnd(s, k) <= j ==> DigitsEnd(t, k - i) == DigitsEnd(s, k) - i
    ensures j == |s| || !IsDecimal(s[j]) ==> DigitsEnd(s, k) <= j
    decreases j - k
  {
    if k < j {
      DigitsCut(s, i, j, t, k + 1);
    }
  }

  // ---- numbers ----

  lemma FractionCut(s: string, i: nat, j: nat, t: string, k: nat)
    requires Cut(s, i, j, t) && i <= k <= j && FractionEnd(s, k).end <= j
    ensures var r := FractionEnd(s, k); FractionEnd(t, k - i) == Span(r.kind, r.end - i, true)
  {
    if k < j {
      CutAt(s, i, j, t, k);
      DigitsCut(s, i, j, t, if s[k] == '.' then k + 1 else k);
    }
  }

  lemma ExponentCut(s: string, i: nat, j: nat, t: string, k: nat, kind: Kind)
    requires Cut(s, i, j, t) && i <= k <= j && ExponentEnd(s, k, kind).end <= j
    ensures var r := ExponentEnd(s, k, kind); ExponentEnd(t, k - i, kind) == Span(r.kind, r.end - i, r.ok)
  {
    hide DigitsEnd, Cut;
    AtCut(s, i, j, t, k);
    if k < j && (s[k] == 'e' || s[k] == 'E') {
      AtCut(s, i, j, t, k + 1);
      var sign := At(s, k + 1) == Some('+') || At(s, k + 1) == Some('-');
      assert k + 1 == j ==> !sign;
      DigitsCut(s, i, j, t, if sign then k + 2 else k + 1);
    }
  }

  // What a cut shows of its text.
  lemma AtCut(s: string, i: nat, j: nat, t: string, k: nat)
    requires Cut(s, i, j, t) && i <= k <= j
    ensures |t| == j - i && j <= |s| && At(t, k - i) == if k < j then At(s, k) else None
  {
  }

  // A number read within j is read the same by itself.
  lemma NumberCut(s: string, i: nat, j: nat, t: string)
    requires Cut(s, i, j, t) && StartsNumber(s, i) && NumberEnd(s, i).end <= j
    ensures StartsNumber(t, 0)
    ensures var n := NumberEnd(s, i); NumberEnd(t, 0) == Span(n.kind, n.end - i, n.ok)
  {
    hide Cut, DigitsEnd, FractionEnd, ExponentEnd;
    AtCut(s, i, j, t, i);
    var a := if s[i] == '.' then i else DigitsEnd(s, i);
    var f := FractionEnd(s, a);
    if s[i] == '.' {
      DotNumber(s, i);
      AtCut(s, i, j, t, i + 1);
    } else {
      DigitsCut(s, i, j, t, i);
    }
    FractionCut(s, i, j, t, a);
    ExponentCut(s, i, j, t, f.end, f.kind);
  }

  lemma DotNumber(s: string, i: nat)
    requires StartsNumber(s, i) && s[i] == '.'
    ensures FractionEnd(s, i).end >= i + 2
  {
  }

  // The exponent of a number that ends before j does not go on after it.
  lemma ExponentWithin(s: string, i: nat, j: nat, t: string, k: nat, kind: Kind)
    requires Cut(s, i, j, t) && i <= k <= j && (j == |s| || (!IsDecimal(s[j]) && s[j] != 'e' && s[j] != 'E'))
    requires ExponentEnd(t, k - i, kind).ok
    ensures ExponentEnd(s, k, kind).end <= j
  {
    hide DigitsEnd, Cut;
    AtCut(s, i, j, t, k);
    if k < j && (s[k] == 'e' || s[k] == 'E') {
      AtCut(s, i, j, t, k + 1);
      if k + 1 == j {
        assert DigitsEnd(t, |t|) == |t|;
      } else {
        DigitsCut(s, i, j, t, if At(s, k + 1) == Some('+') || At(s, k + 1) == Some('-') then k + 2 else k + 1);
      }
    }
  }

  lemma FractionWithin(s: string, i: nat, j: nat, k: nat)
    requires i <= k <= j <= |s| && (j == |s| || !IsDecimal(s[j])) && (k == j ==> j == |s| || s[j] != '.')
    ensures FractionEnd(s, k).end <= j
  {
    if k < j {
      CutSlice(s, i, j, s[i..j]);
      DigitsCut(s, i, j, s[i..j], k + 1);
    }
  }

  lemma NumberWithin(s: string, i: nat, j: nat, t: string, kind: Kind)
    requires Cut(s, i, j, t) && StartsNumber(t, 0) && NumberEnd(t, 0) == Span(kind, |t|, true)
    requires kind == NUMBER || kind == FLOAT
    requires j == |s| || Stops(kind, s[j])
    ensures StartsNumber(s, i) && NumberEnd(s, i).end <= j
  {
    assert i < j;
    hide DigitsEnd, FractionEnd, ExponentEnd, Cut;
    AtCut(s, i, j, t, i);
    if |t| > 1 {
      AtCut(s, i, j, t, i + 1);
    }
    var a := if s[i] == '.' then i else DigitsEnd(s, i);
    DigitsCut(s, i, j, t, i);
    if a == j {
      AllDigits(t);
    }
    FractionWithin(s, i, j, a);
    FractionCut(s, i, j, t, a);
    var f := FractionEnd(s, a);
    ExponentWithin(s, i, j, t, f.end, f.kind);
  }

  // The text of a number is read as that number before what cannot continue it.
  lemma NumberScans(s: string, i: nat, j: nat, t: string, kind: Kind)
    requires Cut(s, i, j, t) && StartsNumber(t, 0) && NumberEnd(t, 0) == Span(kind, |t|, true)
    requires kind == NUMBER || kind == FLOAT
    requires j == |s| || Stops(kind, s[j])
    ensures StartsNumber(s, i) && NumberEnd(s, i) == Span(kind, j, true)
  {
    NumberWithin(s, i, j, t, kind);
    hide NumberEnd, StartsNumber, Stops;
    NumberCut(s, i, j, t);
  }

  lemma AllDigits(t: string)
    requires StartsNumber(t, 0) && t[0] != '.' && DigitsEnd(t, 0) == |t|
    ensures NumberEnd(t, 0) == Span(NUMBER, |t|, true)
  {
  }

  // ---- strings ----

  lemma {:induction false} EscapeDigitsCut(s: string, i: nat, j: nat, t: string, k: nat, n: nat, base: nat, max: nat,
        x: nat)
    requires Cut(s, i, j, t) && i <= k <= j && base <= 16
    ensures var r := EscapeDigits(s, k, n, base, max, x);
            r.ok && r.end <= j ==> EscapeDigits(t, k - i, n, base, max, x) == Span(STRING, r.end - i, true)
    ensures var r := EscapeDigits(t, k - i, n, base, max, x);
            r.ok ==> EscapeDigits(s, k, n, base, max, x) == Span(STRING, r.end + i, true)
    decreases n
  {
    hide Cut, DigitVal;
    AtCut(s, i, j, t, k);
    NoDigit();
    if n > 0 && k < j {
      if DigitVal(At(s, k)) < base {
        EscapeDigitsCut(s, i, j, t, k + 1, n - 1, base, max, x * base + DigitVal(At(s, k)));
      }
    }
  }

  lemma NoDigit()
    ensures DigitVal(None) == 16
  {
  }

  lemma EscapeCut(s: string, i: nat, j: nat, t: string, k: nat)
    requires Cut(s, i, j, t) && i <= k <= j
    ensures EscapeEnd(s, k).ok && EscapeEnd(s, k).end <= j ==>
            EscapeEnd(t, k - i) == Span(STRING, EscapeEnd(s, k).end - i, true)
    ensures EscapeEnd(t, k - i).ok ==> EscapeEnd(s, k) == Span(STRING, EscapeEnd(t, k - i).end + i, true)
  {
    hide Cut, EscapeDigits, DigitVal;
    AtCut(s, i, j, t, k);
    if k < j {
      var c := s[k];
      EscapeDigitsCut(s, i, j, t, k, 3, 8, 255, 0);
      EscapeDigitsCut(s, i, j, t, k + 1, 2, 16, 255, 0);
      EscapeDigitsCut(s, i, j, t, k + 1, 4, 16, 0x10FFFF, 0);
      EscapeDigitsCut(s, i, j, t, k + 1, 8, 16, 0x10FFFF, 0);
    } else if EscapeEnd(s, k).ok {
      EscapeProgress(s, k);
    }
  }

  lemma EscapeProgress(s: string, k: nat)
    requires k <= |s| && EscapeEnd(s, k).ok
    ensures EscapeEnd(s, k).end > k
  {
  }

  // A string without error is read the same by itself and in place.
  lemma {:induction false} StringCut(s: string, i: nat, j: nat, t: string, k: nat, until: char, escape: bool,
        multiline: bool)
    requires Cut(s, i, j, t) && i <= k <= j
    ensures StringEnd(s, k, until, escape, multiline) == Span(STRING, j, true) <==>
            StringEnd(t, k - i, until, escape, multiline) == Span(STRING, |t|, true)
    decreases j - k
  {
    hide Cut, EscapeEnd;
    AtCut(s, i, j, t, k);
    if k < j && s[k] != until && (multiline || s[k] != '\n') {
      if escape && s[k] == '\\' {
        EscapeCut(s, i, j, t, k + 1);
        var e, f := EscapeEnd(s, k + 1), EscapeEnd(t, k + 1 - i);
        if e.ok && e.end <= j {
          StringCut(s, i, j, t, e.end, until, escape, multiline);
        }
      } else {
        StringCut(s, i, j, t, k + 1, until, escape, multiline);
      }
    }
  }

  // ---- tokens ----

  // Nothing continues a token of kind k at j.
  predicate Ended(s: string, j: nat, k: Kind) {
    j < |s| ==> Stops(k, s[j])
  }

  // Characters an operator starts with.
  predicate IsPunctuation(c: char) {
    c in "|&!=<>+-*/%^{}()[],."
  }

  lemma OperatorText(k: Kind)
    requires !HasText(k) && Text(k) != ""
    ensures 1 <= |Text(k)| <= 2 && IsPunctuation(Text(k)[0])
  {
  }

  lemma PunctuationOnly(c: char, ends: bool)
    requires IsPunctuation(c)
    ensures !IsLetter(c) && !IsDecimal(c) && !IsBlank(c, ends) && c != '\n' && c != '\'' && c != '"' && c != '`'
  {
  }

  lemma OperatorRead(s: string, i: nat, j: nat, k: Kind)
    requires !HasText(k) && Text(k) != "" && Cut(s, i, j, Text(k)) && Ended(s, j, k)
    ensures i < |s| && OperatorEnd(s, i) == Span(k, j, true) && s[i] == Text(k)[0]
  {
    hide IsLetter, IsDigit, IsDecimal, IsPunctuation;
    OperatorText(k);
    if |Text(k)| == 2 {
      DoubleRead(s, i, k);
    } else {
      SingleRead(s, i, k);
    }
  }

  lemma DoubleRead(s: string, i: nat, k: Kind)
    requires !HasText(k) && |Text(k)| == 2 && i + 1 < |s| && s[i] == Text(k)[0] && s[i + 1] == Text(k)[1]
    ensures OperatorEnd(s, i) == Span(k, i + 2, true)
  {
  }

  lemma SingleRead(s: string, i: nat, k: Kind)
    requires !HasText(k) && |Text(k)| == 1 && i < |s| && s[i] == Text(k)[0] && (i + 1 < |s| ==> Stops(k, s[i + 1]))
    ensures OperatorEnd(s, i) == Span(k, i + 1, true)
  {
    hide IsLetter, IsDigit, IsDecimal;
  }

  // No operator starts a comment or a number there.
  lemma OperatorAlone(s: string, i: nat, j: nat, k: Kind)
    requires !HasText(k) && Text(k) != "" && Cut(s, i, j, Text(k)) && Ended(s, j, k)
    ensures !StartsComment(s, i) && !StartsNumber(s, i)
  {
    hide OperatorEnd;
    OperatorText(k);
    assert s[i] == Text(k)[0];
    PunctuationOnly(s[i], false);
  }

  lemma OperatorScans(s: string, i: nat, j: nat, k: Kind, ends: bool)
    requires !HasText(k) && Text(k) != "" && Cut(s, i, j, Text(k)) && Ended(s, j, k)
    ensures i < j <= |s| && !IsBlank(s[i], ends)
    ensures TokenAt(s, i, ends) == Scanned(Op(k), i, j, EndsStatement(k), true)
  {
    OperatorRead(s, i, j, k);
    OperatorAlone(s, i, j, k);
    OperatorText(k);
    PunctuationOnly(s[i], ends);
    hide IdentifierEnd, NumberEnd, StringEnd, CommentEnd, EndsLine, OperatorEnd, Text, IsLetter, StartsComment,
         StartsNumber, IsPunctuation, Ended, IsBlank;
  }

  lemma LexemeScans(s: string, i: nat, j: nat, sym: Sym, ends: bool)
    requires Lexeme(sym) && Cut(s, i, j, sym.lit) && Ended(s, j, sym.kind)
    ensures i < j && !IsBlank(s[i], ends)
    ensures TokenAt(s, i, ends) == Scanned(sym, i, j, true, true)
  {
    var t := sym.lit;
    hide NumberEnd, StringEnd, CommentEnd, EndsLine, OperatorEnd, IdentifierEnd, EndsStatement;
    CutSlice(s, i, j, t);
    assert s[i] == t[0] && t[0..|t|] == t;
    if IsLetter(t[0]) {
      IdentifierCut(s, i, j, t, i + 1);
    } else if StartsNumber(t, 0) {
      NumberScans(s, i, j, t, sym.kind);
    } else if t[0] == '"' {
      StringCut(s, i, j, t, i + 1, '"', true, false);
      DotOnly(s, i, t);
    } else if t[0] == '`' {
      StringCut(s, i, j, t, i + 1, '`', false, true);
      DotOnly(s, i, t);
    }
  }

  lemma DotOnly(s: string, i: nat, t: string)
    requires i < |s| && t != "" && s[i] == t[0] && t[0] != '.' && !StartsNumber(t, 0)
    ensures !StartsNumber(s, i)
  {
  }

  lemma SliceClean(s: string, i: nat, j: nat)
    requires i <= j <= |s| && forall k :: i <= k < |s| ==> s[k] != NUL && s[k] != BOM
    ensures CleanText(s[i..j])
  {
  }

  lemma ScannedWord(s: string, i: nat, ends: bool)
    requires i < |s| && IsLetter(s[i]) && forall k :: i <= k < |s| ==> s[k] != NUL && s[k] != BOM
    ensures var t := TokenAt(s, i, ends); t.sym.kind == IDENT || IsLiteral(t.sym.kind) ==> Lexeme(t.sym)
  {
    hide NumberEnd, StringEnd, CommentEnd, EndsLine, IdentifierEnd, OperatorEnd, CleanText, Cut;
    var j := IdentifierEnd(s, i + 1);
    var u := s[i..j];
    CutSlice(s, i, j, u);
    SliceClean(s, i, j);
    assert u[0] == s[i] && u[0..|u|] == u;
    IdentifierCut(s, i, j, u, i + 1);
  }

  lemma ScannedNumber(s: string, i: nat)
    requires i < |s| && StartsNumber(s, i) && NumberEnd(s, i).ok
    requires forall k :: i <= k < |s| ==> s[k] != NUL && s[k] != BOM
    ensures Lexeme(Sym(NumberEnd(s, i).kind, s[i..NumberEnd(s, i).end]))
  {
    hide NumberEnd, StringEnd, IdentifierEnd, CleanText, Cut;
    var n := NumberEnd(s, i);
    CutSlice(s, i, n.end, s[i..n.end]);
    SliceClean(s, i, n.end);
    NumberCut(s, i, n.end, s[i..n.end]);
  }

  lemma ScannedString(s: string, i: nat, until: char, escape: bool, multiline: bool)
    requires i < |s| && s[i] == until && forall k :: i <= k < |s| ==> s[k] != NUL && s[k] != BOM
    requires (until == '"' && escape && !multiline) || (until == '`' && !escape && multiline)
    requires StringEnd(s, i + 1, until, escape, multiline).ok
    ensures Lexeme(Sym(STRING, s[i..StringEnd(s, i + 1, until, escape, multiline).end]))
  {
    hide NumberEnd, StringEnd, IdentifierEnd, CleanText, Cut;
    var j := StringEnd(s, i + 1, until, escape, multiline).end;
    CutSlice(s, i, j, s[i..j]);
    SliceClean(s, i, j);
    StringCut(s, i, j, s[i..j], i + 1, until, escape, multiline);
  }

  // What is scanned without error is a lexeme.
  lemma ScannedLexeme(s: string, i: nat, ends: bool)
    requires i <= |s| && forall k :: i <= k < |s| ==> s[k] != NUL && s[k] != BOM
    ensures var t := TokenAt(s, i, ends); t.ok && (t.sym.kind == IDENT || IsLiteral(t.sym.kind)) ==> Lexeme(t.sym)
  {
    var t := TokenAt(s, i, ends);
    if t.ok && (t.sym.kind == IDENT || IsLiteral(t.sym.kind)) {
      hide NumberEnd, StringEnd, CommentEnd, EndsLine, IdentifierEnd, OperatorEnd, Lexeme;
      if IsLetter(s[i]) {
        ScannedWord(s, i, ends);
      } else if StartsNumber(s, i) {
        ScannedNumber(s, i);
      } else if s[i] == '"' {
        ScannedString(s, i, '"', true, false);
      } else {
        ScannedString(s, i, '`', false, true);
      }
    }
  }

  lemma IdentifierLexeme(name: string)
    requires IsIdentifier(name)
    ensures Lexeme(Sym(IDENT, name))
  {
    assert name[0..|name|] == name;
    assert CleanText(name);
    hide Lookup, IsLetter, IsDigit, CleanText;
    IdentifierWhole(name, 1);
  }

  lemma {:induction false} IdentifierWhole(name: string, i: nat)
    requires i <= |name| && forall k :: i <= k < |name| ==> InIdentifier(name[k])
    ensures IdentifierEnd(name, i) == |name|
    decreases |name| - i
  {
    hide IsLetter, IsDigit;
    if i < |name| {
      IdentifierWhole(name, i + 1);
    }
  }

  lemma {:induction false} HexScans(t: string, i: nat, n: nat, v: nat, max: nat, x: nat)
    requires v < Pow16(n) && Cut(t, i, i + n, Hex(v, n))
    ensures var y := x * Pow16(n) + v;
            EscapeDigits(t, i, n, 16, max, x) == Span(STRING, i + n, y <= max && !(0xD800 <= y < 0xE000))
    decreases n
  {
    if n > 0 {
      var p := Pow16(n - 1);
      var d, rest := v / p, v % p;
      Divide(v, p);
      assert Hex(v, n)[0] == HexDigit(d) && Hex(v, n)[1..] == Hex(rest, n - 1);
      assert t[i] == HexDigit(d);
      HexValue(d);
      forall k | i + 1 <= k < i + n
        ensures t[k] == Hex(rest, n - 1)[k - i - 1]
      {
        assert t[k] == Hex(v, n)[k - i] == Hex(v, n)[1..][k - i - 1];
      }
      HexScans(t, i + 1, n - 1, rest, max, x * 16 + d);
      Shifted(x, d, p, rest, v);
    }
  }

  lemma Divide(v: nat, p: nat)
    requires p > 0 && v < 16 * p
    ensures v / p < 16 && (v / p) % 16 == v / p && v % p < p && v == (v / p) * p + v % p
  {
  }

  lemma Shifted(x: nat, d: nat, p: nat, rest: nat, v: nat)
    requires v == d * p + rest
    ensures (x * 16 + d) * p + rest == x * (16 * p) + v
  {
  }

  lemma HexValue(d: nat)
    requires d < 16
    ensures DigitVal(Some(HexDigit(d))) == d
  {
  }

  lemma Powers()
    ensures Pow16(2) == 256 && Pow16(4) == 0x10000 && Pow16(8) == 0x100000000
  {
    assert Pow16(4) == 256 * Pow16(2);
    assert Pow16(8) == 0x10000 * Pow16(4);
  }

  // An escape sequence of the printer is one the scanner accepts.
  lemma EscapeScans(t: string, i: nat, c: char)
    requires !Verbatim(c) && Cut(t, i, i + |Escape(c)|, Escape(c))
    ensures t[i] == '\\' && EscapeEnd(t, i + 1) == Span(STRING, i + |Escape(c)|, true)
  {
    hide Printable, Hex, EscapeDigits;
    var e := Escape(c);
    Powers();
    EscapeText(c);
    assert t[i] == e[0] && t[i + 1] == e[1];
    if |e| > 2 {
      var n := |e| - 2;
      forall k | i + 2 <= k < i + |e|
        ensures t[k] == e[2..][k - i - 2]
      {
        assert t[k] == e[k - i];
      }
      HexScans(t, i + 2, n, c as int, if n == 2 then 255 else 0x10FFFF, 0);
    }
  }

  lemma EscapeText(c: char)
    requires !Verbatim(c)
    ensures var e := Escape(c);
            && |e| >= 2 && e[0] == '\\' && (|e| == 2 ==> e[1] in "abfnrtv\\\"")
            && (|e| > 2 ==> && (|e|, e[1]) in {(4, 'x'), (6, 'u'), (10, 'U')} && e[2..] == Hex(c as int, |e| - 2)
                            && c as int < if |e| == 4 then 256 else if |e| == 6 then 0x10000 else 0x110000)
  {
    hide Printable;
    var e := Escape(c);
    if |e| > 2 {
      assert e == "\\x" + Hex(c as int, 2) || e == "\\u" + Hex(c as int, 4) || e == "\\U" + Hex(c as int, 8);
    }
  }

  lemma {:induction false} EscapesScan(t: string, i: nat, name: string)
    requires i <= |t| && t[i..] == Escapes(name) + "\""
    ensures StringEnd(t, i, '"', true, false) == Span(STRING, |t|, true)
    decreases |name|
  {
    hide Printable, Hex, EscapeEnd, Escape;
    if name == "" {
      assert t[i..][0] == t[i];
    } else {
      var c, e := name[0], Escape(name[0]);
      var j := i + |e|;
      Split(t, i, e, Escapes(name[1..]) + "\"");
      EscapesScan(t, j, name[1..]);
      if Verbatim(c) {
        PrintableOnly(c);
        assert t[i] == c;
      } else {
        EscapeScans(t, i, c);
      }
    }
  }

  lemma Split(t: string, i: nat, e: string, rest: string)
    requires i <= |t| && t[i..] == e + rest && e != ""
    ensures i + |e| <= |t| && Cut(t, i, i + |e|, e) && t[i + |e|..] == rest && t[i] == e[0]
  {
    assert t[i..][|e|..] == rest;
    assert forall k :: i <= k < i + |e| ==> t[k] == t[i..][k - i];
  }

  lemma PrintableOnly(c: char)
    requires Verbatim(c)
    ensures Escape(c) == [c] && c != '\n'
  {
  }

  lemma {:induction false} EscapesClean(name: string)
    ensures CleanText(Escapes(name))
  {
    hide Escape;
    if name != "" {
      EscapeClean(name[0]);
      EscapesClean(name[1..]);
    }
  }

  lemma EscapeClean(c: char)
    ensures CleanText(Escape(c))
  {
    hide Hex;
    HexClean(c as int, 2);
    HexClean(c as int, 4);
    HexClean(c as int, 8);
  }

  lemma DigitClean(d: nat)
    requires d < 16
    ensures HexDigit(d) != NUL && HexDigit(d) != BOM
  {
    assert '0' <= HexDigit(d) <= 'f';
  }

  lemma CleanCons(c: char, t: string)
    requires c != NUL && c != BOM && CleanText(t)
    ensures CleanText([c] + t)
  {
  }

  lemma {:induction false} HexClean(v: nat, n: nat)
    ensures CleanText(Hex(v, n))
  {
    hide Pow16, HexDigit, CleanText;
    if n == 0 {
      NoneClean();
    } else {
      var d, rest := (v / Pow16(n - 1)) % 16, v % Pow16(n - 1);
      DigitClean(d);
      HexClean(rest, n - 1);
      CleanCons(HexDigit(d), Hex(rest, n - 1));
    }
  }

  lemma NoneClean()
    ensures CleanText("")
  {
  }

  // A quoted text is a string of its own.
  lemma QuoteLexeme(name: string)
    ensures Lexeme(Sym(STRING, Quote(name)))
  {
    var t := Quote(name);
    EscapesClean(name);
    hide Escapes;
    assert t[1..] == Escapes(name) + "\"" && t[0..|t|] == t;
    EscapesScan(t, 1, name);
  }

  // What the parser and the printer need of a lexeme.
  lemma LexemeProper(sym: Sym)
    requires Lexeme(sym)
    ensures sym.lit[0] != '=' && sym.lit[|sym.lit| - 1] !in {'\n', '\U{000C}'}
    ensures sym.kind == IDENT ==> IsIdentifier(sym.lit)
    ensures sym.kind == STRING ==> |sym.lit| >= 2 && (|sym.lit| == 2 ==> sym.lit == "\"\"" || sym.lit == "``")
  {
    var t := sym.lit;
    hide IdentifierEnd, NumberEnd, StringEnd, CommentEnd, EndsLine, OperatorEnd;
    assert t[0..|t|] == t;
    if IsLetter(t[0]) {
      LettersProper(t);
    } else if StartsNumber(t, 0) {
      NumberProper(t);
    } else {
      StringProper(t, t[0], t[0] == '"', t[0] == '`');
    }
  }

  lemma LettersProper(t: string)
    requires t != "" && IsLetter(t[0]) && IdentifierEnd(t, 1) == |t|
    ensures t[0] != '=' && t[|t| - 1] !in {'\n', '\U{000C}'}
    ensures Lookup(t) == IDENT ==> IsIdentifier(t)
  {
    assert forall i :: 0 <= i < |t| ==> InIdentifier(t[i]);
  }

  lemma NumberProper(t: string)
    requires StartsNumber(t, 0) && NumberEnd(t, 0).end == |t|
    ensures t[0] != '=' && t[|t| - 1] !in {'\n', '\U{000C}'}
  {
    var a := if t[0] == '.' then 0 else DigitsEnd(t, 0);
    var f := FractionEnd(t, a);
    hide DigitsEnd;
  }

  lemma {:induction false} StringEndsQuoted(t: string, i: nat, until: char, escape: bool, multiline: bool)
    requires i <= |t| && StringEnd(t, i, until, escape, multiline) == Span(STRING, |t|, true)
    ensures i < |t| && t[|t| - 1] == until
    decreases |t| - i
  {
    hide EscapeEnd;
    if t[i] != until {
      StringEndsQuoted(t, if escape && t[i] == '\\' then EscapeEnd(t, i + 1).end else i + 1, until, escape, multiline);
    }
  }

  lemma StringProper(t: string, until: char, escape: bool, multiline: bool)
    requires t != "" && t[0] == until && (until == '"' || until == '`')
    requires StringEnd(t, 1, until, escape, multiline) == Span(STRING, |t|, true)
    ensures t[0] != '=' && t[|t| - 1] !in {'\n', '\U{000C}'} && |t| >= 2 && (|t| == 2 ==> t == "\"\"" || t == "``")
  {
    StringEndsQuoted(t, 1, until, escape, multiline);
  }
}
