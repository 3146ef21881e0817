// What scanner.go reads, as functions on the input: where the text that starts
// at an offset ends, and which token it is. A character has width 1.
module Lexis {
  import opened Tokens
  import opened Syntax

  const NUL := '\U{0}'

  // Characters that are an error wherever they are read.
  predicate BadChar(s: string, i: nat)
    requires i < |s|
  {
    s[i] == NUL || (s[i] == BOM && i > 0)
  }

  // The character at i; none at the end of the file.
  function At(s: string, i: nat): Option<char> {
    if i < |s| then Some(s[i]) else None
  }

  predicate IsBlank(c: char, ends: bool) {
    c == ' ' || c == '\t' || c == '\r' || (c == '\n' && !ends)
  }

  function SkipBlanks(s: string, i: nat, ends: bool): (j: nat)
    requires i <= |s|
    ensures i <= j <= |s| && (j < |s| ==> !IsBlank(s[j], ends))
    ensures forall k :: i <= k < j ==> IsBlank(s[k], ends)
    decreases |s| - i
  {
    if i < |s| && IsBlank(s[i], ends) then SkipBlanks(s, i + 1, ends) else i
  }

  predicate InIdentifier(c: char) {
    IsLetter(c) || IsDigit(c)
  }

  function IdentifierEnd(s: string, i: nat): (j: nat)
    requires i <= |s|
    ensures i <= j <= |s| && (j < |s| ==> !InIdentifier(s[j]))
    ensures forall k :: i <= k < j ==> InIdentifier(s[k])
    decreases |s| - i
  {
    if i < |s| && InIdentifier(s[i]) then IdentifierEnd(s, i + 1) else i
  }

  function DigitsEnd(s: string, i: nat): (j: nat)
    requires i <= |s|
    ensures i <= j <= |s| && (j < |s| ==> !IsDecimal(s[j]))
    ensures forall k :: i <= k < j ==> IsDecimal(s[k])
    decreases |s| - i
  {
    if i < |s| && IsDecimal(s[i]) then DigitsEnd(s, i + 1) else i
  }

  // A kind or an end, and whether no error was found.
  datatype Span = Span(kind: Kind, end: nat, ok: bool)

  // The fraction of a number whose integer part ends at i.
  function FractionEnd(s: string, i: nat): (r: Span)
    requires i <= |s|
    ensures i <= r.end <= |s| && (r.kind == NUMBER || r.kind == FLOAT)
  {
    if At(s, i) == Some('.') then Span(FLOAT, DigitsEnd(s, i + 1), true) else Span(NUMBER, i, true)
  }

  // The exponent of a number that is of kind kind up to i.
  function ExponentEnd(s: string, i: nat, kind: Kind): (r: Span)
    requires i <= |s|
    ensures i <= r.end <= |s| && (r.kind == kind || r.kind == FLOAT)
  {
    if At(s, i) == Some('e') || At(s, i) == Some('E') then
      var j := if At(s, i + 1) == Some('+') || At(s, i + 1) == Some('-') then i + 2 else i + 1;
      Span(FLOAT, DigitsEnd(s, j), DigitsEnd(s, j) > j)
    else Span(kind, i, true)
  }

  function NumberEnd(s: string, i: nat): (r: Span)
    requires i < |s| && (IsDecimal(s[i]) || (s[i] == '.' && i + 1 < |s| && IsDecimal(s[i + 1])))
    ensures i < r.end <= |s| && (r.kind == NUMBER || r.kind == FLOAT)
  {
    var f := FractionEnd(s, if s[i] == '.' then i else DigitsEnd(s, i));
    ExponentEnd(s, f.end, f.kind)
  }

  function DigitVal(c: Option<char>): nat {
    match c
    case None => 16
    case Some(c) =>
      if '0' <= c <= '9' then c as int - '0' as int
      else if 'a' <= c <= 'f' then c as int - 'a' as int + 10
      else if 'A' <= c <= 'F' then c as int - 'A' as int + 10
      else 16
  }

  // n digits of an escape sequence, after the value x.
  function EscapeDigits(s: string, i: nat, n: nat, base: nat, max: nat, x: nat): (r: Span)
    requires i <= |s| && base <= 16
    ensures i <= r.end <= |s|
    decreases n
  {
    if n == 0 then Span(STRING, i, x <= max && !(0xD800 <= x < 0xE000))
    else if DigitVal(At(s, i)) >= base then Span(STRING, i, false)
    else EscapeDigits(s, i + 1, n - 1, base, max, x * base + DigitVal(At(s, i)))
  }

  // The escape sequence whose backslash stands before i.
  function EscapeEnd(s: string, i: nat): (r: Span)
    requires i <= |s|
    ensures i <= r.end <= |s|
  {
    match At(s, i)
    case None => Span(STRING, i, false)
    case Some(c) =>
      if c in "abfnrtv\\\"" then Span(STRING, i + 1, true)
      else if '0' <= c <= '7' then EscapeDigits(s, i, 3, 8, 255, 0)
      else if c == 'x' then EscapeDigits(s, i + 1, 2, 16, 255, 0)
      else if c == 'u' then EscapeDigits(s, i + 1, 4, 16, 0x10FFFF, 0)
      else if c == 'U' then EscapeDigits(s, i + 1, 8, 16, 0x10FFFF, 0)
      else Span(STRING, i, false)
  }

  // The string whose opening quote stands before i.
  function StringEnd(s: string, i: nat, until: char, escape: bool, multiline: bool): (r: Span)
    requires i <= |s|
    ensures i <= r.end <= |s| && r.kind == STRING
    decreases |s| - i
  {
    if i == |s| || (!multiline && s[i] == '\n') then Span(STRING, i, false)
    else if s[i] == until then Span(STRING, i + 1, true)
    else
      var e := if escape && s[i] == '\\' then EscapeEnd(s, i + 1) else Span(STRING, i + 1, true);
      var r := StringEnd(s, e.end, until, escape, multiline);
      r.(ok := e.ok && r.ok)
  }

  function LineEnd(s: string, i: nat): (j: nat)
    requires i <= |s|
    ensures i <= j <= |s|
    decreases |s| - i
  {
    if i < |s| && s[i] != '\n' then LineEnd(s, i + 1) else i
  }

  function BlockEnd(s: string, i: nat): (r: Span)
    requires i <= |s|
    ensures i <= r.end <= |s|
    decreases |s| - i
  {
    if i == |s| then Span(COMMENT, i, false)
    else if s[i] == '*' && At(s, i + 1) == Some('/') then Span(COMMENT, i + 2, true)
    else BlockEnd(s, i + 1)
  }

  // The comment whose second character is at i.
  function CommentEnd(s: string, i: nat): (r: Span)
    requires i < |s| && (s[i] == '/' || s[i] == '*')
    ensures i < r.end <= |s|
  {
    if s[i] == '/' then Span(COMMENT, LineEnd(s, i + 1), true) else BlockEnd(s, i + 1)
  }

  // Whether a block comment holds a newline, from i, where its text starts.
  function NewlineIn(s: string, i: nat): bool
    requires i <= |s|
    decreases |s| - i
  {
    if i == |s| then false
    else if s[i] == '\n' then true
    else if s[i] == '*' && At(s, i + 1) == Some('/') then false
    else NewlineIn(s, i + 1)
  }

  // Whether the comments whose first slash stands before i run to the end of
  // the line.
  function EndsLine(s: string, i: nat): bool
    requires i <= |s|
    decreases |s| - i
  {
    if At(s, i) == Some('/') then true
    else if At(s, i) != Some('*') then false
    else
      NewlineIn(s, i + 1) ||
      var j := SkipBlanks(s, BlockEnd(s, i + 1).end, true);
      if j == |s| || s[j] == '\n' then true
      else if s[j] != '/' then false
      else EndsLine(s, j + 1)
  }

  // Tokens of one or two characters that need no more than the next character.
  function OperatorEnd(s: string, i: nat): (r: Span)
    requires i < |s|
    ensures i < r.end <= |s| && r.kind != TERMINATOR
  {
    var two := At(s, i + 1) == Some('=');
    match s[i]
    case '|' => if At(s, i + 1) == Some('|') then Span(OR, i + 2, true) else Span(OR, i + 1, false)
    case '&' => if At(s, i + 1) == Some('&') then Span(AND, i + 2, true) else Span(AND, i + 1, false)
    case '!' => if two then Span(NEQ, i + 2, true) else Span(NOT, i + 1, true)
    case '=' => if two then Span(EQ, i + 2, true) else Span(ASSIGN, i + 1, true)
    case '<' => if two then Span(LTE, i + 2, true) else Span(LT, i + 1, true)
    case '>' => if two then Span(GTE, i + 2, true) else Span(GT, i + 1, true)
    case '+' => Span(ADD, i + 1, true)
    case '-' => Span(SUB, i + 1, true)
    case '*' => Span(MUL, i + 1, true)
    case '/' => Span(DIV, i + 1, true)
    case '%' => Span(MOD, i + 1, true)
    case '^' => Span(POW, i + 1, true)
    case '{' => Span(LCURLY, i + 1, true)
    case '}' => Span(RCURLY, i + 1, true)
    case '(' => Span(LPAREN, i + 1, true)
    case ')' => Span(RPAREN, i + 1, true)
    case '[' => Span(LBRACK, i + 1, true)
    case ']' => Span(RBRACK, i + 1, true)
    case ',' => Span(COMMA, i + 1, true)
    case '.' => Span(DOT, i + 1, true)
    case _ => Span(ILLEGAL, i + 1, false)
  }

  // A token: where it starts, where the scanner stands after it, whether the
  // end of a line would now be a terminator, and whether it holds no error.
  datatype Scanned = Scanned(sym: Sym, start: nat, next: nat, ends: bool, ok: bool)

  predicate StartsNumber(s: string, i: nat) {
    i < |s| && (IsDecimal(s[i]) || (s[i] == '.' && i + 1 < |s| && IsDecimal(s[i + 1])))
  }

  predicate StartsComment(s: string, i: nat) {
    i + 1 < |s| && s[i] == '/' && (s[i + 1] == '/' || s[i + 1] == '*')
  }

  // The token at i, where no whitespace stands.
  function TokenAt(s: string, i: nat, ends: bool): (t: Scanned)
    requires i <= |s|
    ensures t.start == i && i <= t.next <= |s|
    ensures t.sym.kind == EOF
            || 2 * (|s| - t.next) + (if t.ends then 1 else 0) < 2 * (|s| - i) + (if ends then 1 else 0)
  {
    if i == |s| then Scanned(Op(if ends then TERMINATOR else EOF), i, i, false, true)
    else if IsLetter(s[i]) then
      var j := IdentifierEnd(s, i + 1);
      Scanned(Sym(Lookup(s[i..j]), s[i..j]), i, j, true, true)
    else if StartsNumber(s, i) then
      var n := NumberEnd(s, i);
      Scanned(Sym(n.kind, s[i..n.end]), i, n.end, true, n.ok)
    else if s[i] == '\n' then Scanned(Op(TERMINATOR), i, i + 1, false, true)
    else if s[i] == '\'' then
      var n := StringEnd(s, i + 1, '\'', true, false);
      Scanned(Sym(ILLEGAL, s[i..n.end]), i, n.end, true, false)
    else if s[i] == '"' then
      var n := StringEnd(s, i + 1, '"', true, false);
      Scanned(Sym(STRING, s[i..n.end]), i, n.end, true, n.ok)
    else if s[i] == '`' then
      var n := StringEnd(s, i + 1, '`', false, true);
      Scanned(Sym(STRING, s[i..n.end]), i, n.end, true, n.ok)
    else if StartsComment(s, i) then
      if ends && EndsLine(s, i + 1) then Scanned(Op(TERMINATOR), i, i, false, true)
      else
        var c := CommentEnd(s, i + 1);
        Scanned(Sym(COMMENT, s[i..c.end]), i, c.end, false, c.ok)
    else
      var o := OperatorEnd(s, i);
      if o.kind == ILLEGAL then Scanned(Sym(ILLEGAL, [s[i]]), i, o.end, ends, false)
      else Scanned(Op(o.kind), i, o.end, o.kind == RCURLY || o.kind == RPAREN || o.kind == RBRACK, o.ok)
  }

  // All tokens from i, the end of the file last.
  function ScanAll(s: string, i: nat, ends: bool): (ts: seq<Scanned>)
    requires i <= |s|
    ensures |ts| > 0 && ts[|ts| - 1].sym == Op(EOF)
    decreases 2 * (|s| - i) + (if ends then 1 else 0)
  {
    var t := TokenAt(s, SkipBlanks(s, i, ends), ends);
    if t.sym.kind == EOF then [t] else [t] + ScanAll(s, t.next, t.ends)
  }
}
