// The %q of package fmt, as the printer uses it on labels and field names.
module Quoting {
  import opened Tokens

  // Printable characters above ASCII that are neither letters nor digits.
  const UNICODE_SYMBOL: char -> bool

  predicate Printable(c: char) {
    ' ' <= c <= '~' || (c >= 128 as char && c != BOM && (UNICODE_LETTER(c) || UNICODE_DIGIT(c) || UNICODE_SYMBOL(c)))
  }

  // Characters that stand for themselves between quotes.
  predicate Verbatim(c: char) {
    Printable(c) && c != '"' && c != '\\'
  }

  function HexDigit(d: nat): char
    requires d < 16
  {
    "0123456789abcdef"[d]
  }

  function Pow16(n: nat): (p: nat)
    ensures p > 0
  {
    if n == 0 then 1 else 16 * Pow16(n - 1)
  }

  // The last n hexadecimal digits of x.
  function Hex(x: nat, n: nat): (s: string)
    ensures |s| == n
  {
    if n == 0 then "" else [HexDigit((x / Pow16(n - 1)) % 16)] + Hex(x % Pow16(n - 1), n - 1)
  }

  function Escape(c: char): (s: string)
    ensures |s| > 0
  {
    if c == '"' || c == '\\' then ['\\', c]
    else if Printable(c) then [c]
    else if c == '\U{07}' then "\\a"
    else if c == '\U{08}' then "\\b"
    else if c == '\U{0C}' then "\\f"
    else if c == '\n' then "\\n"
    else if c == '\r' then "\\r"
    else if c == '\t' then "\\t"
    else if c == '\U{0B}' then "\\v"
    else if c < ' ' || c == '\U{7F}' then "\\x" + Hex(c as int, 2)
    else if c < '\U{10000}' then "\\u" + Hex(c as int, 4)
    else "\\U" + Hex(c as int, 8)
  }

  function Escapes(s: string): (r: string)
    ensures |r| >= |s|
  {
    if s == "" then "" else Escape(s[0]) + Escapes(s[1..])
  }

  function Quote(s: string): string {
    "\"" + Escapes(s) + "\""
  }

  // Quoting changes a text unless it has nothing to escape.
  lemma {:induction false} QuoteKeeps(s: string)
    ensures Escapes(s) == s <==> forall i :: 0 <= i < |s| ==> Verbatim(s[i])
  {
    if s != "" {
      var rest := s[1..];
      QuoteKeeps(rest);
      assert s == [s[0]] + rest;
      assert forall i :: 0 <= i < |rest| ==> rest[i] == s[i + 1];
      if !Verbatim(s[0]) {
        EscapeGrows(s[0]);
        assert |Escapes(s)| > |s|;
      } else {
        assert Escape(s[0]) == [s[0]];
        assert Escapes(s)[1..] == Escapes(rest);
        assert s[1..] == rest;
        if forall i :: 0 <= i < |rest| ==> Verbatim(rest[i]) {
          assert forall i :: 0 <= i < |s| ==> i == 0 || s[i] == rest[i - 1];
        } else {
          assert Escapes(rest) != rest;
        }
      }
    }
  }

  lemma EscapeGrows(c: char)
    requires !Verbatim(c)
    ensures |Escape(c)| > 1
  {
  }
}
