// scanner.go: the scanner's state and how it moves, one character at a time
// except over identifiers, ahead of comments and back. Every method ends where
// the function of Lexis says, whatever shortcut it takes; line starts are
// recorded for everything read; and the error count is zero exactly while
// nothing wrong was read.
module Scanners {
  import opened Tokens
  import opened Syntax
  import opened Lines
  import opened Lexis
  import opened Comments
  import opened Literals

  // Nothing up to the character at far is an error by itself.
  predicate NoBad(s: string, far: nat) {
    forall i :: 0 <= i <= far && i < |s| ==> !BadChar(s, i)
  }

  // A line start among the lines up to far is not beyond the last.
  lemma {:induction false} LineKnown(s: string, i: nat, far: nat)
    requires i < far <= |s| && s[i] == '\n'
    ensures var ls := LineStarts(s, far); |ls| > 0 && ls[|ls| - 1] >= i + 1
    decreases far
  {
    if i + 1 < far {
      LineKnown(s, i, far - 1);
      LineStartsIncreasing(s, far - 1);
      LineStartsIncreasing(s, far);
    }
  }

  // Without newlines in between no line starts.
  lemma {:induction false} NoLines(s: string, a: nat, b: nat)
    requires a <= b <= |s| && forall k :: a <= k < b ==> s[k] != '\n'
    ensures LineStarts(s, a) == LineStarts(s, b)
    decreases b
  {
    if a < b {
      NoLines(s, a, b - 1);
    }
  }

  // The lines once r is reached from far, with newline telling the character before r.
  lemma LinesAfter(s: string, far: nat, r: nat, newline: bool)
    requires far <= |s| && r <= |s| && (newline ==> r > 0 && s[r - 1] == '\n')
    requires r > far && r > 0 && s[r - 1] == '\n' ==> newline
    requires forall k :: far <= k < r - 1 ==> s[k] != '\n'
    ensures Increasing(LineStarts(s, far))
    ensures var ls := LineStarts(s, far);
            LineStarts(s, if r > far then r else far) == if newline && r > ls[|ls| - 1] then ls + [r] else ls
  {
    LineStartsIncreasing(s, far);
    if r > far {
      NoLines(s, far, r - 1);
    } else if newline {
      LineKnown(s, r - 1, far);
    }
  }

  lemma NoBadAfter(s: string, far: nat, r: nat)
    requires r <= |s| && forall k :: far < k < r ==> !BadChar(s, k)
    ensures NoBad(s, if r > far then r else far) <==> NoBad(s, far) && (r < |s| ==> !BadChar(s, r))
  {
    hide BadChar;
    if r > far && r < |s| && NoBad(s, r) {
      assert !BadChar(s, r);
    }
  }

  // The value of a numeral of value x with the digit d after it.
  function Extended(x: nat, base: nat, d: nat): nat {
    x * base + d
  }

  lemma EscapeDigitsTurn(s: string, i: nat, n: nat, base: nat, max: nat, x: nat)
    requires i <= |s| && base <= 16
    ensures var d := DigitVal(At(s, i));
            if n == 0 then EscapeDigits(s, i, n, base, max, x) == Span(STRING, i, x <= max && !(0xD800 <= x < 0xE000))
            else if d >= base then EscapeDigits(s, i, n, base, max, x) == Span(STRING, i, false)
            else i < |s|
                 && EscapeDigits(s, i, n, base, max, x)
                    == EscapeDigits(s, i + 1, n - 1, base, max, Extended(x, base, d))
  {
  }

  // The characters the fast path of an identifier passes over.
  predicate IsAscii(b: char) {
    'a' <= b <= 'z' || 'A' <= b <= 'Z' || b == '_' || '0' <= b <= '9'
  }

  lemma AsciiInside(b: char)
    requires IsAscii(b)
    ensures InIdentifier(b) && b != '\n'
  {
  }

  lemma AsciiOutside(b: char)
    requires !IsAscii(b) && NUL < b < 128 as char
    ensures !InIdentifier(b) && b != BOM
  {
  }

  // Passing over an identifier from off to k meets no newline and no error.
  lemma Passed(s: string, far: nat, off: nat, k: nat)
    requires off <= far <= |s| && off < k <= |s| && IsLetter(s[off]) && forall i :: off < i < k ==> IsAscii(s[i])
    ensures s[k - 1] != '\n' && s[off] != '\n' && (forall i :: far <= i < k - 1 ==> s[i] != '\n')
    ensures forall i :: far < i < k ==> !BadChar(s, i)
    ensures k < |s| && NUL < s[k] < 128 as char ==> !BadChar(s, k)
    ensures LineStarts(s, if k > far then k else far) == LineStarts(s, far)
    ensures (k == |s| || !BadChar(s, k)) ==> (NoBad(s, if k > far then k else far) <==> NoBad(s, far))
  {
    assert forall i :: off <= i < k ==> s[i] != '\n';
    if k > far {
      NoLines(s, far, k);
    }
    NoBadAfter(s, far, k);
  }

  // The next token; comments are skipped unless they are wanted.
  function NextToken(s: string, i: nat, ends: bool, comments: bool): (t: Scanned)
    requires i <= |s|
    ensures i <= t.next <= |s|
    decreases 2 * (|s| - i) + (if ends then 1 else 0)
  {
    var t := TokenAt(s, SkipBlanks(s, i, ends), ends);
    if t.sym.kind == COMMENT && !comments then
      var u := NextToken(s, t.next, false, comments);
      u.(ok := t.ok && u.ok)
    else t
  }

  lemma NextTokenIs(s: string, i: nat, ends: bool, comments: bool)
    requires i <= |s|
    ensures var t := TokenAt(s, SkipBlanks(s, i, ends), ends);
            && NextToken(s, i, ends, comments)
               == (if t.sym.kind == COMMENT && !comments
                   then var u := NextToken(s, t.next, false, comments); u.(ok := t.ok && u.ok) else t)
            && (t.sym.kind == COMMENT ==>
                  2 * (|s| - t.next) < 2 * (|s| - i) + (if ends then 1 else 0))
  {
    hide TokenAt;
  }

  // The token t is next after i: the next of the text without its comments, if
  // they are skipped; and unless it is a terminator, a comment or the end of
  // the file, the longest token of the lexical grammar at its place.
  ghost predicate IsNext(s: string, i: nat, ends: bool, comments: bool, t: Scanned)
    requires i <= |s| && t.next <= |s|
  {
    && (!comments ==>
          Uncommented(s, i, ends) == [t.sym] + if t.sym.kind == EOF then [] else Uncommented(s, t.next, t.ends))
    && (t.sym.kind != TERMINATOR && t.sym.kind != COMMENT && t.sym.kind != EOF ==>
          IsLongest(s, t.start, t.next, t.sym.kind)
          && t.sym.lit == if HasText(t.sym.kind) then s[t.start..t.next] else "")
  }

  lemma AtIsNext(s: string, i: nat, ends: bool, comments: bool)
    requires i <= |s| && (i < |s| ==> !IsBlank(s[i], ends)) && TokenAt(s, i, ends).ok
    requires TokenAt(s, i, ends).sym.kind == COMMENT ==> comments
    ensures IsNext(s, i, ends, comments, TokenAt(s, i, ends))
  {
    hide TokenAt, Uncommented, IsLongest, EndsLine, HasText;
    var t := TokenAt(s, i, ends);
    OnlyEof(s, i, ends);
    if t.sym.kind == EOF {
      AtEnd(s, i, ends);
      assert [t.sym] + [] == [t.sym];
    } else {
      UncommentedStep(s, i, ends);
    }
    if i == |s| {
      EndToken(s, ends);
    } else if s[i] == '\n' {
      LineToken(s, i);
    } else if StartsComment(s, i) {
      CommentToken(s, i, ends);
    } else {
      TokenLongest(s, i, ends);
    }
  }

  // Without error, the next token is what the text has there.
  lemma {:induction false} NextIs(s: string, i: nat, ends: bool, comments: bool)
    requires i <= |s|
    ensures NextToken(s, i, ends, comments).ok ==> IsNext(s, i, ends, comments, NextToken(s, i, ends, comments))
    decreases 2 * (|s| - i) + (if ends then 1 else 0)
  {
    hide TokenAt, Uncommented, IsLongest, EndsLine, HasText, NextToken;
    var j := SkipBlanks(s, i, ends);
    var t := TokenAt(s, j, ends);
    NextTokenIs(s, i, ends, comments);
    UncommentedSkips(s, i, ends);
    if t.sym.kind == COMMENT && !comments {
      NextIs(s, t.next, false, comments);
      CommentEnds(s, j, ends);
      if t.ok {
        UncommentedStep(s, j, ends);
      }
    } else if t.ok {
      AtIsNext(s, j, ends, comments);
    }
  }

  lemma CommentEnds(s: string, i: nat, ends: bool)
    requires i <= |s| && TokenAt(s, i, ends).sym.kind == COMMENT
    ensures !TokenAt(s, i, ends).ends
  {
  }

  class Scanner {
    const file: File
    const input: string
    const comments: bool
    var ch: Option<char>
    var offset: nat
    var readOffset: nat
    var insertTerm: bool
    var numErrors: nat
    // The furthest offset reached.
    ghost var far: nat

    ghost predicate Recorded()
      reads this, file
    {
      && far <= |input| && file.lines == LineStarts(input, far)
      && (numErrors == 0 ==> NoBad(input, far))
    }

    // The character at readOffset can be read, and what was passed over to get
    // there is known to be neither an error nor a newline.
    ghost predicate Ready()
      reads this, file
    {
      && Recorded() && readOffset <= |input|
      && (ch == Some('\n') ==> readOffset > 0 && input[readOffset - 1] == '\n')
      && (readOffset > far && readOffset > 0 && input[readOffset - 1] == '\n' ==> ch == Some('\n'))
      && (forall k :: far <= k < readOffset - 1 ==> input[k] != '\n')
      && (forall k :: far < k < readOffset ==> !BadChar(input, k))
    }

    ghost predicate Valid()
      reads this, file
    {
      && Recorded() && offset <= far && offset <= |input| && ch == At(input, offset)
      && readOffset == if offset < |input| then offset + 1 else offset
    }

    // The scanner stands at to, having met an error since unless fine.
    twostate predicate Moved(to: nat, fine: bool)
      reads this, file
    {
      && Valid() && offset == to && far >= old(far) && insertTerm == old(insertTerm)
      && (numErrors == 0 <==> old(numErrors) == 0 && NoBad(input, far) && fine)
    }

    constructor (input: string, comments: bool)
      ensures Valid() && fresh(file) && this.input == input && this.comments == comments && !insertTerm
      ensures offset == if At(input, 0) == Some(BOM) then 1 else 0
      ensures numErrors == 0 <==> NoBad(input, far)
    {
      file := new File();
      this.input, this.comments := input, comments;
      ch, offset, readOffset := At(input, 0), 0, if input == "" then 0 else 1;
      insertTerm, far := false, 0;
      numErrors := if input != "" && input[0] == NUL then 1 else 0;
      new;
      assert input != "" ==> (BadChar(input, 0) <==> input[0] == NUL);
      if ch == Some(BOM) {
        Next();
      }
    }

    function Peek(): Option<char>
      reads this
    {
      At(input, readOffset)
    }

    method OnError()
      modifies this`numErrors
      ensures numErrors == old(numErrors) + 1
    {
      numErrors := numErrors + 1;
    }

    method Next()
      requires Valid() || Ready()
      modifies this, file
      ensures Moved(old(readOffset), true)
    {
      hide BadChar, NoBad, LineStarts, Increasing;
      ghost var newline := ch == Some('\n');
      LinesAfter(input, far, readOffset, newline);
      NoBadAfter(input, far, readOffset);
      far := if readOffset > far then readOffset else far;
      if readOffset >= |input| {
        offset := |input|;
        if ch == Some('\n') {
          file.AddLine(offset);
        }
        ch := None;
        return;
      }
      offset := readOffset;
      if ch == Some('\n') {
        file.AddLine(offset);
      }
      if BadChar(input, readOffset) {
        OnError();
      }
      readOffset := readOffset + 1;
      ch := Some(input[offset]);
    }

    method SkipWhitespace()
      requires Valid()
      modifies this, file
      ensures Moved(SkipBlanks(input, old(offset), insertTerm), true)
    {
      hide BadChar, LineStarts;
      while ch.Some? && IsBlank(ch.value, insertTerm)
        invariant Moved(offset, true) && insertTerm == old(insertTerm)
        invariant SkipBlanks(input, old(offset), insertTerm) == SkipBlanks(input, offset, insertTerm)
        decreases |input| - offset
      {
        Next();
      }
    }

    method Digits() returns (count: nat)
      requires Valid()
      modifies this, file
      ensures Moved(DigitsEnd(input, old(offset)), true) && count == offset - old(offset)
    {
      hide BadChar, LineStarts;
      count := 0;
      while ch.Some? && IsDecimal(ch.value)
        invariant Moved(offset, true) && count == offset - old(offset)
        invariant DigitsEnd(input, old(offset)) == DigitsEnd(input, offset)
        decreases |input| - offset
      {
        Next();
        count := count + 1;
      }
    }

    // The integer part, the fraction and the exponent.
    method ScanNumber() returns (tok: Kind, lit: string)
      requires Valid() && StartsNumber(input, offset)
      modifies this, file
      ensures var n := NumberEnd(input, old(offset));
              Moved(n.end, n.ok) && tok == n.kind && lit == input[old(offset)..n.end]
    {
      hide BadChar, LineStarts, DigitsEnd, ExponentEnd;
      tok := NUMBER;
      var off := offset;
      if ch != Some('.') {
        var _ := Digits();
      }
      if ch == Some('.') {
        tok := FLOAT;
        Next();
        var _ := Digits();
      }
      tok := ScanExponent(tok);
      lit := input[off..offset];
    }

    method ScanExponent(kind: Kind) returns (tok: Kind)
      requires Valid()
      modifies this, file
      ensures var n := ExponentEnd(input, old(offset), kind); Moved(n.end, n.ok) && tok == n.kind
    {
      hide BadChar, LineStarts, DigitsEnd;
      tok := kind;
      if ch == Some('e') || ch == Some('E') {
        tok := FLOAT;
        Next();
        if ch == Some('+') || ch == Some('-') {
          Next();
        }
        var count := Digits();
        if count == 0 {
          OnError();
        }
      }
    }

    // A run of letters and digits. Below character 128 they are passed over
    // without calling Next; the state is set as Next would have set it.
    method ScanIdentifier() returns (lit: string)
      requires Valid() && offset < |input| && IsLetter(input[offset])
      modifies this, file
      ensures var j := IdentifierEnd(input, old(offset) + 1);
              Moved(j, true) && lit == input[old(offset)..j]
    {
      hide BadChar, LineStarts, NoBad, IsLetter, IsDigit;
      var off := offset;
      var k := PassAscii();
      Passed(input, far, off, k);
      readOffset := k;
      if k == |input| {
        far := k;
        offset := k;
        ch := None;
      } else {
        var b := input[k];
        if NUL < b < 128 as char {
          AsciiOutside(b);
          far := if k > far then k else far;
          ch := Some(b);
          offset := readOffset;
          readOffset := readOffset + 1;
        } else {
          ScanLetters();
        }
      }
      lit := input[off..offset];
    }

    // The loop over the bytes from readOffset on, up to one that needs a look.
    method PassAscii() returns (k: nat)
      requires Valid() && offset < |input|
      ensures readOffset <= k <= |input| && forall i :: offset < i < k ==> IsAscii(input[i])
      ensures IdentifierEnd(input, offset + 1) == IdentifierEnd(input, k)
      ensures k < |input| ==> !IsAscii(input[k])
    {
      hide BadChar, LineStarts, NoBad, IsLetter, IsDigit;
      k := readOffset;
      while k < |input|
        invariant offset < k <= |input|
        invariant forall i :: offset < i < k ==> IsAscii(input[i])
        invariant IdentifierEnd(input, offset + 1) == IdentifierEnd(input, k)
        decreases |input| - k
      {
        if !IsAscii(input[k]) {
          return;
        }
        AsciiInside(input[k]);
        k := k + 1;
      }
    }

    // The slow path, from a character of any width.
    method ScanLetters()
      requires Ready()
      modifies this, file
      ensures Moved(IdentifierEnd(input, old(readOffset)), true)
    {
      hide BadChar, LineStarts, IsLetter, IsDigit;
      Next();
      while ch.Some? && InIdentifier(ch.value)
        invariant Moved(offset, true)
        invariant IdentifierEnd(input, old(readOffset)) == IdentifierEnd(input, offset)
        decreases |input| - offset
      {
        Next();
      }
    }


    // After the backslash; an illegal character is not consumed.
    method ScanEscape()
      requires Valid()
      modifies this, file
      ensures var e := EscapeEnd(input, old(offset)); Moved(e.end, e.ok)
    {
      hide BadChar, LineStarts, EscapeDigits;
      var n, base, max;
      match ch {
        case None =>
          OnError();
          return;
        case Some(c) =>
          if c in "abfnrtv\\\"" {
            Next();
            return;
          } else if '0' <= c <= '7' {
            n, base, max := 3, 8, 255;
          } else if c == 'x' {
            Next();
            n, base, max := 2, 16, 255;
          } else if c == 'u' {
            Next();
            n, base, max := 4, 16, 0x10FFFF;
          } else if c == 'U' {
            Next();
            n, base, max := 8, 16, 0x10FFFF;
          } else {
            OnError();
            return;
          }
      }
      ScanEscapeDigits(n, base, max);
    }

    method ScanEscapeDigits(n0: nat, base: nat, max: nat)
      requires Valid() && base <= 16
      modifies this, file
      ensures var e := EscapeDigits(input, old(offset), n0, base, max, 0); Moved(e.end, e.ok)
    {
      hide BadChar, LineStarts, DigitVal, EscapeDigits, Extended;
      var x: nat, n: nat := 0, n0;
      while n > 0
        invariant Moved(offset, true)
        invariant EscapeDigits(input, old(offset), n0, base, max, 0) == EscapeDigits(input, offset, n, base, max, x)
      {
        EscapeDigitsTurn(input, offset, n, base, max, x);
        var d := DigitVal(ch);
        if d >= base {
          OnError();
          return;
        }
        x := Extended(x, base, d);
        Next();
        n := n - 1;
      }
      EscapeDigitsTurn(input, offset, n, base, max, x);
      if x > max || 0xD800 <= x < 0xE000 {
        OnError();
      }
    }

    // After the opening quote, which is part of the literal.
    method ScanString(until: char, escape: bool, multiline: bool) returns (lit: string)
      requires Valid() && offset > 0
      modifies this, file
      ensures var r := StringEnd(input, old(offset), until, escape, multiline);
              Moved(r.end, r.ok) && lit == input[old(offset) - 1..r.end]
    {
      hide BadChar, LineStarts, EscapeEnd;
      var off := offset - 1;
      ghost var fine := true;
      while true
        invariant Moved(offset, fine) && offset > off
        invariant var r := StringEnd(input, offset, until, escape, multiline);
                  StringEnd(input, old(offset), until, escape, multiline) == r.(ok := fine && r.ok)
        decreases |input| - offset
      {
        var c := ch;
        if (!multiline && c == Some('\n')) || c.None? {
          OnError();
          break;
        }
        Next();
        if c.value == until {
          break;
        }
        if escape && c.value == '\\' {
          fine := fine && EscapeEnd(input, offset).ok;
          ScanEscape();
        }
      }
      lit := input[off..offset];
    }

    // After the first slash, which is part of the literal.
    method ScanComment() returns (lit: string)
      requires Valid() && offset > 0 && (ch == Some('/') || ch == Some('*'))
      modifies this, file
      ensures var c := CommentEnd(input, old(offset));
              Moved(c.end, c.ok) && lit == input[old(offset) - 1..c.end]
    {
      hide BadChar, LineStarts;
      var off := offset - 1;
      if ch == Some('/') {
        Next();
        ghost var start := offset;
        while ch != Some('\n') && ch != None
          invariant Moved(offset, true) && offset > off && LineEnd(input, start) == LineEnd(input, offset)
          decreases |input| - offset
        {
          Next();
        }
        return input[off..offset];
      }
      Next();
      var ended := ScanBlock();
      if !ended {
        OnError();
      }
      lit := input[off..offset];
    }

    // The text of a block comment; ended says whether its end was met.
    method ScanBlock() returns (ended: bool)
      requires Valid()
      modifies this, file
      ensures Moved(BlockEnd(input, old(offset)).end, true) && ended == BlockEnd(input, old(offset)).ok
    {
      hide BadChar, LineStarts;
      while ch.Some?
        invariant Moved(offset, true) && BlockEnd(input, old(offset)) == BlockEnd(input, offset)
        decreases |input| - offset
      {
        var c := ch;
        Next();
        if c == Some('*') && ch == Some('/') {
          Next();
          return true;
        }
      }
      return false;
    }

    // Reads ahead over a block comment; its text is left unread at a newline.
    method BlockAhead() returns (newline: bool)
      requires Valid()
      modifies this, file
      ensures newline == NewlineIn(input, old(offset))
      ensures Moved(if newline then offset else BlockEnd(input, old(offset)).end, true) && offset >= old(offset)
    {
      hide BadChar, LineStarts;
      while ch.Some?
        invariant Moved(offset, true) && offset >= old(offset)
        invariant BlockEnd(input, old(offset)) == BlockEnd(input, offset)
        invariant NewlineIn(input, old(offset)) == NewlineIn(input, offset)
        decreases |input| - offset
      {
        var c := ch;
        if c == Some('\n') {
          return true;
        }
        Next();
        if c == Some('*') && ch == Some('/') {
          Next();
          return false;
        }
      }
      return false;
    }

    // Reads ahead over comments to a newline, the end of the file or a token.
    method LookAhead() returns (found: bool)
      requires Valid() && insertTerm
      modifies this, file
      ensures Moved(offset, true) && found == EndsLine(input, old(offset))
      ensures old(offset) > 0 && StartsComment(input, old(offset) - 1) ==>
                (found <==> RunsToLineEnd(input, old(offset) - 1))
    {
      hide BadChar, LineStarts, NewlineIn, BlockEnd, SkipBlanks, RunsToLineEnd;
      if offset > 0 && StartsComment(input, offset - 1) {
        RunsIs(input, offset - 1);
      }
      while ch == Some('/') || ch == Some('*')
        invariant Moved(offset, true) && EndsLine(input, old(offset)) == EndsLine(input, offset)
        decreases |input| - offset
      {
        if ch == Some('/') {
          return true;
        }
        Next();
        var newline := BlockAhead();
        if newline {
          return true;
        }
        SkipWhitespace();
        if ch == None || ch == Some('\n') {
          return true;
        }
        if ch != Some('/') {
          return false;
        }
        Next();
      }
      return false;
    }

    // The scanner is set back to where it was: only what was recorded on the
    // way stays.
    method FindLineEnd() returns (found: bool)
      requires Valid() && insertTerm && 0 < offset <= |input| && input[offset - 1] == '/'
      modifies this, file
      ensures Moved(old(offset), true) && found == EndsLine(input, old(offset))
      ensures StartsComment(input, offset - 1) ==> (found <==> RunsToLineEnd(input, offset - 1))
      ensures ch == old(ch) && readOffset == old(readOffset)
    {
      hide BadChar, LineStarts, EndsLine, RunsToLineEnd;
      var off := offset - 1;
      found := LookAhead();
      ch := Some('/');
      offset := off;
      readOffset := off + 1;
      Next();
    }

    method Switch2(a: Kind, b: Kind, next: char) returns (tok: Kind)
      requires Valid()
      modifies this, file
      ensures var two := At(input, old(offset)) == Some(next);
              Moved(old(offset) + (if two then 1 else 0), true) && tok == if two then b else a
    {
      if ch == Some(next) {
        Next();
        return b;
      }
      return a;
    }

    // The token t was scanned.
    twostate predicate Did(t: Scanned)
      reads this, file
    {
      && Valid() && offset == t.next && far >= old(far) && insertTerm == t.ends
      && (numErrors == 0 <==> old(numErrors) == 0 && NoBad(input, far) && t.ok)
    }

    // After c, the first character of an operator.
    method ScanOperator(c: char) returns (tok: Kind)
      requires Valid() && offset > 0 && input[offset - 1] == c && !StartsComment(input, offset - 1)
      modifies this, file
      ensures var o := OperatorEnd(input, old(offset) - 1); Moved(o.end, o.ok || o.kind == ILLEGAL) && tok == o.kind
    {
      hide BadChar, LineStarts;
      match c {
        case '|' => tok := ScanDouble(OR, '|');
        case '&' => tok := ScanDouble(AND, '&');
        case '!' => tok := Switch2(NOT, NEQ, '=');
        case '=' => tok := Switch2(ASSIGN, EQ, '=');
        case '<' => tok := Switch2(LT, LTE, '=');
        case '>' => tok := Switch2(GT, GTE, '=');
        case '+' => tok := ADD;
        case '-' => tok := SUB;
        case '*' => tok := MUL;
        case '/' => tok := DIV;
        case '%' => tok := MOD;
        case '^' => tok := POW;
        case '{' => tok := LCURLY;
        case '}' => tok := RCURLY;
        case '(' => tok := LPAREN;
        case ')' => tok := RPAREN;
        case '[' => tok := LBRACK;
        case ']' => tok := RBRACK;
        case ',' => tok := COMMA;
        case '.' => tok := DOT;
        case _ => tok := ILLEGAL;
      }
    }

    // A token of two equal characters; a single one counts as the token too.
    method ScanDouble(k: Kind, c: char) returns (tok: Kind)
      requires Valid()
      modifies this, file
      ensures var two := At(input, old(offset)) == Some(c);
              Moved(old(offset) + (if two then 1 else 0), two) && tok == k
    {
      if ch != Some(c) {
        OnError();
      } else {
        Next();
      }
      tok := k;
    }

    // The token at the offset, where no whitespace stands.
    method ScanToken() returns (pos: nat, tok: Kind, lit: string)
      requires Valid() && (insertTerm || ch != Some('\n'))
      modifies this, file
      ensures var t := TokenAt(input, old(offset), old(insertTerm));
              Did(t) && pos == t.start && Sym(tok, lit) == t.sym
    {
      hide BadChar, LineStarts, NumberEnd, IsLetter, NoBad, OperatorEnd, StringEnd, CommentEnd;
      pos := offset;
      if ch.Some? && IsLetter(ch.value) {
        lit := ScanIdentifier();
        tok := Lookup(lit);
        insertTerm := true;
      } else if ch.Some? && (IsDecimal(ch.value) || (ch == Some('.') && Peek().Some? && IsDecimal(Peek().value))) {
        tok, lit := ScanNumber();
        insertTerm := true;
      } else {
        tok, lit := ScanDefault();
      }
    }

    method ScanDefault() returns (tok: Kind, lit: string)
      requires Valid() && (insertTerm || ch != Some('\n'))
      requires ch.Some? ==> !IsLetter(ch.value) && !StartsNumber(input, offset)
      modifies this, file
      ensures var t := TokenAt(input, old(offset), old(insertTerm)); Did(t) && Sym(tok, lit) == t.sym
    {
      hide BadChar, LineStarts, IsLetter, NumberEnd, IdentifierEnd, OperatorEnd, StringEnd, CommentEnd, EndsLine;
      var c := ch;
      Next();
      match c {
        case None =>
          tok, lit := if insertTerm then TERMINATOR else EOF, if insertTerm then "\n" else "";
          insertTerm := false;
        case Some(c) =>
          if c == '\n' {
            insertTerm := false;
            return TERMINATOR, "\n";
          } else if c == '\'' || c == '"' || c == '`' {
            tok, lit := ScanQuoted(c);
          } else if c == '/' && (ch == Some('/') || ch == Some('*')) {
            tok, lit := ScanSlash();
          } else {
            tok, lit := ScanOther(c);
          }
      }
    }

    // After the quote c.
    method ScanQuoted(c: char) returns (tok: Kind, lit: string)
      requires Valid() && offset > 0 && input[offset - 1] == c && (c == '\'' || c == '"' || c == '`')
      modifies this, file
      ensures var t := TokenAt(input, old(offset) - 1, old(insertTerm)); Did(t) && Sym(tok, lit) == t.sym
    {
      hide BadChar, LineStarts, NumberEnd, IdentifierEnd, OperatorEnd, StringEnd, CommentEnd, EndsLine;
      if c == '\'' {
        OnError();
        lit := ScanString('\'', true, false);
        tok, insertTerm := ILLEGAL, true;
      } else if c == '"' {
        lit := ScanString('"', true, false);
        tok, insertTerm := STRING, true;
      } else {
        lit := ScanString('`', false, true);
        tok, insertTerm := STRING, true;
      }
    }

    // A comment, or a terminator before it if the line ends there.
    method ScanSlash() returns (tok: Kind, lit: string)
      requires Valid() && offset > 0 && StartsComment(input, offset - 1)
      modifies this, file
      ensures var t := TokenAt(input, old(offset) - 1, old(insertTerm)); Did(t) && Sym(tok, lit) == t.sym
    {
      hide BadChar, LineStarts, NumberEnd, IdentifierEnd, OperatorEnd, StringEnd, CommentEnd, EndsLine;
      var start := offset - 1;
      if insertTerm {
        var found := FindLineEnd();
        if found {
          ch := Some('/');
          offset := start;
          readOffset := start + 1;
          insertTerm := false;
          return TERMINATOR, "\n";
        }
      }
      lit := ScanComment();
      tok, insertTerm := COMMENT, false;
    }

    method ScanOther(c: char) returns (tok: Kind, lit: string)
      requires Valid() && offset > 0 && input[offset - 1] == c && !StartsComment(input, offset - 1) && c != '\n'
      requires !IsLetter(c) && !StartsNumber(input, offset - 1) && c != '\'' && c != '"' && c != '`'
      modifies this, file
      ensures var t := TokenAt(input, old(offset) - 1, old(insertTerm)); Did(t) && Sym(tok, lit) == t.sym
    {
      hide BadChar, LineStarts, IsLetter, NumberEnd, IdentifierEnd, NoBad, OperatorEnd, StringEnd, CommentEnd, EndsLine;
      tok := ScanOperator(c);
      lit := "";
      if tok == ILLEGAL {
        lit := [c];
        OnError();
      } else {
        insertTerm := tok == RCURLY || tok == RPAREN || tok == RBRACK;
      }
    }

    // The next token. Comments are skipped unless they are wanted.
    method Scan() returns (pos: nat, tok: Kind, lit: string)
      requires Valid()
      modifies this, file
      ensures var t := NextToken(input, old(offset), old(insertTerm), comments);
              Did(t) && pos == t.start && Sym(tok, lit) == t.sym
      ensures numErrors == 0 ==>
                pos <= |input| && IsNext(input, old(offset), old(insertTerm), comments,
                                         Scanned(Sym(tok, lit), pos, offset, insertTerm, true))
    {
      hide BadChar, LineStarts, TokenAt, SkipBlanks, NextToken, IsNext;
      ghost var fine := true;
      NextIs(input, offset, insertTerm, comments);
      while true
        invariant Valid() && far >= old(far)
        invariant numErrors == 0 <==> old(numErrors) == 0 && NoBad(input, far) && fine
        invariant var t := NextToken(input, offset, insertTerm, comments);
                  NextToken(input, old(offset), old(insertTerm), comments) == t.(ok := fine && t.ok)
        decreases 2 * (|input| - offset) + (if insertTerm then 1 else 0)
      {
        NextTokenIs(input, offset, insertTerm, comments);
        SkipWhitespace();
        ghost var t := TokenAt(input, offset, insertTerm);
        pos, tok, lit := ScanToken();
        if tok != COMMENT || comments {
          return;
        }
        fine := fine && t.ok;
        insertTerm := false;
      }
    }

    // The line recorded for any position passed is 1 more than the newlines before it.
    lemma LineOfScanned(off: nat)
      requires Valid() && off <= far
      ensures LineOf(file.lines, PosAt(off)) == 1 + Newlines(input, off)
    {
      LineOfOffset(input, off, far);
    }
  }

  // identifier.go
  method IsValidIdentifier(text: string) returns (valid: bool)
    ensures valid <==> IsIdentifier(text)
  {
    hide BadChar, NextToken, IsIdentifier, NoBad;
    var s := new Scanner(text, false);
    IdentifierScanned(text, s.offset);
    var _, tok, lit := s.Scan();
    valid := tok == IDENT && lit == text;
  }

  // A token that is the whole text starts where the text does.
  lemma {:induction false} WholeToken(s: string, i: nat, ends: bool, comments: bool)
    requires i <= |s| && NextToken(s, i, ends, comments).sym == Sym(IDENT, s)
    ensures i == 0 && NextToken(s, i, ends, comments) == TokenAt(s, 0, ends) && s != ""
    decreases 2 * (|s| - i) + (if ends then 1 else 0)
  {
    hide IdentifierEnd, NumberEnd, StringEnd, CommentEnd, EndsLine;
    var j := SkipBlanks(s, i, ends);
    var t := TokenAt(s, j, ends);
    if t.sym.kind == COMMENT && !comments {
      WholeToken(s, t.next, false, comments);
    }
  }

  lemma ScannedIdentifier(text: string, i: nat)
    requires i <= |text| && NextToken(text, i, false, false).sym == Sym(IDENT, text)
    ensures IsIdentifier(text)
  {
    hide NextToken, NumberEnd, StringEnd, CommentEnd, EndsLine;
    WholeToken(text, i, false, false);
    assert forall k :: 1 <= k < |text| ==> InIdentifier(text[k]);
  }

  lemma IdentifierScanned(text: string, i: nat)
    requires i == if At(text, 0) == Some(BOM) then 1 else 0
    ensures NextToken(text, i, false, false).sym == Sym(IDENT, text) <==> IsIdentifier(text)
  {
    if IsIdentifier(text) {
      hide Lookup;
      LettersWhole(text, 1);
      assert text[0..|text|] == text;
    }
    if NextToken(text, i, false, false).sym == Sym(IDENT, text) {
      ScannedIdentifier(text, i);
    }
  }

  lemma {:induction false} LettersWhole(s: string, i: nat)
    requires i <= |s| && forall k :: i <= k < |s| ==> InIdentifier(s[k])
    ensures IdentifierEnd(s, i) == |s|
    decreases |s| - i
  {
    hide IsLetter, IsDigit;
    if i < |s| {
      LettersWhole(s, i + 1);
    }
  }
}
