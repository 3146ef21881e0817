// From text to text: a file is scanned, parsed, walked and printed, and the
// printed text is scanned and parsed again. Comments are dropped between the
// scanner and the parser, and are not printed.
module Formatting {
  import opened Tokens
  import opened Syntax
  import Lines
  import opened Lexis
  import opened Comments
  import opened Scanners
  import opened Lexemes
  import opened Grammar
  import opened Trees
  import opened Parsers
  import opened Printers
  import opened Canonical
  import opened Walkers
  import opened RoundTrips
  import opened CompletenessStmts
  import opened PrintedFiles
  import opened Rescans

  // ---- what the parser gets of a scan ----

  function Kept(ts: seq<Scanned>): (toks: seq<Token>)
    ensures forall k :: 0 <= k < |toks| ==> toks[k].pos.PosAt?
  {
    if ts == [] then []
    else if ts[0].sym.kind == COMMENT then Kept(ts[1..])
    else [Token(ts[0].sym, PosAt(ts[0].start))] + Kept(ts[1..])
  }

  // A byte order mark is passed over at the start of the file.
  function Start(source: string): (i: nat)
    ensures i <= |source|
  {
    if At(source, 0) == Some(BOM) then 1 else 0
  }

  function TokensOf(source: string): (toks: seq<Token>)
    ensures forall k :: 0 <= k < |toks| ==> toks[k].pos.PosAt?
  {
    Kept(ScanAll(source, Start(source), false))
  }

  // No token and no character is an error.
  predicate Clean(source: string) {
    AllOk(ScanAll(source, Start(source), false)) && NoBad(source, |source|)
  }

  lemma SymsCons(t: Token, toks: seq<Token>)
    ensures Syms([t] + toks) == [t.sym] + Syms(toks)
  {
  }

  // One token more, of a scan that does not end with it.
  lemma ScanStep(s: string, i: nat, ends: bool)
    requires i <= |s|
    ensures var t := TokenAt(s, SkipBlanks(s, i, ends), ends);
            if t.sym.kind == EOF then Kept(ScanAll(s, i, ends)) == [Token(t.sym, PosAt(t.start))] && t.start == |s|
                && t.sym == Op(EOF) && t.ok
            else Kept(ScanAll(s, i, ends))
                 == (if t.sym.kind == COMMENT then []
                     else [Token(t.sym, PosAt(t.start))]) + Kept(ScanAll(s, t.next, t.ends))
    ensures var t := TokenAt(s, SkipBlanks(s, i, ends), ends);
            AllOk(ScanAll(s, i, ends)) <==> t.ok && (t.sym.kind != EOF ==> AllOk(ScanAll(s, t.next, t.ends)))
  {
    var t := TokenAt(s, SkipBlanks(s, i, ends), ends);
    OnlyEof(s, SkipBlanks(s, i, ends), ends);
    hide TokenAt;
    if t.sym.kind == EOF {
      assert ScanAll(s, i, ends) == [t] && [t][1..] == [];
    } else {
      var rest := ScanAll(s, t.next, t.ends);
      assert ScanAll(s, i, ends) == [t] + rest && ([t] + rest)[1..] == rest;
      OkCons(t, rest);
    }
  }

  lemma OkCons(t: Scanned, rest: seq<Scanned>)
    ensures AllOk([t] + rest) <==> t.ok && AllOk(rest)
  {
    if AllOk([t] + rest) {
      assert t in [t] + rest;
      assert forall u :: u in rest ==> u in [t] + rest;
    }
  }

  // The tokens of one step of the scan, and those after it.
  lemma KeptStep(s: string, i: nat, ends: bool)
    requires i <= |s|
    ensures var t := TokenAt(s, SkipBlanks(s, i, ends), ends);
            Syms(Kept(ScanAll(s, i, ends)))
            == if t.sym.kind == EOF then [Op(EOF)]
               else (if t.sym.kind == COMMENT then [] else [t.sym]) + Syms(Kept(ScanAll(s, t.next, t.ends)))
  {
    hide TokenAt, SkipBlanks, ScanAll, Kept;
    ScanStep(s, i, ends);
    var t := TokenAt(s, SkipBlanks(s, i, ends), ends);
    if t.sym.kind != EOF {
      var rest := Kept(ScanAll(s, t.next, t.ends));
      SymsCons(Token(t.sym, PosAt(t.start)), rest);
      assert [] + rest == rest && [] + Syms(rest) == Syms(rest);
    } else {
      assert Syms([Token(t.sym, PosAt(t.start))]) == [t.sym];
    }
  }

  // The tokens of a text that scans without error are those of the text
  // without its comments.
  lemma {:induction false} CommentsAreBlanks(s: string, i: nat, ends: bool)
    requires i <= |s| && AllOk(ScanAll(s, i, ends))
    ensures Syms(Kept(ScanAll(s, i, ends))) == Uncommented(s, i, ends)
    decreases 2 * (|s| - i) + (if ends then 1 else 0)
  {
    hide TokenAt, Uncommented, ScanAll, Kept, AllOk, EndsLine, CommentEnd, HoldsNewline, SkipBlanks, IsBlank;
    var j := SkipBlanks(s, i, ends);
    var t := TokenAt(s, j, ends);
    KeptStep(s, i, ends);
    ScanStep(s, i, ends);
    UncommentedSkips(s, i, ends);
    if t.sym.kind == EOF {
      AtEnd(s, j, ends);
    } else {
      CommentsAreBlanks(s, t.next, t.ends);
      UncommentedStep(s, j, ends);
    }
  }

  // The tokens the parser gets of a file that scans without error; a byte order
  // mark at its start is passed over.
  lemma FileWithoutComments(source: string)
    requires AllOk(ScanAll(source, Start(source), false))
    ensures Syms(TokensOf(source)) == Uncommented(source, if source != "" && source[0] == BOM then 1 else 0, false)
  {
    hide ScanAll, Kept, Uncommented;
    CommentsAreBlanks(source, Start(source), false);
  }

  // A symbol between the start and the end of a file.
  predicate Inner(s: Sym) {
    s.kind != EOF && (HasText(s.kind) || s == Op(s.kind))
  }

  predicate IsFile(ts: seq<Sym>) {
    |ts| > 0 && ts[|ts| - 1] == Op(EOF) && forall k :: 0 <= k < |ts| - 1 ==> Inner(ts[k])
  }

  lemma FileCons(s: Sym, ts: seq<Sym>)
    requires Inner(s) && IsFile(ts)
    ensures IsFile([s] + ts)
  {
  }

  lemma FileEnd()
    ensures IsFile([Op(EOF)])
  {
  }

  lemma {:induction false} KeptInner(s: string, i: nat, ends: bool)
    requires i <= |s|
    ensures IsFile(Syms(Kept(ScanAll(s, i, ends))))
    decreases 2 * (|s| - i) + (if ends then 1 else 0)
  {
    hide TokenAt, SkipBlanks, Inner, ScanAll, Kept, IsFile;
    var t := TokenAt(s, SkipBlanks(s, i, ends), ends);
    ScanStep(s, i, ends);
    if t.sym.kind != EOF {
      KeptInner(s, t.next, t.ends);
      OneInner(s, SkipBlanks(s, i, ends), ends);
      var rest := Kept(ScanAll(s, t.next, t.ends));
      SymsCons(Token(t.sym, PosAt(t.start)), rest);
      FileCons(t.sym, Syms(rest));
      assert [] + rest == rest;
    } else {
      FileEnd();
      assert Syms([Token(t.sym, PosAt(t.start))]) == [t.sym];
    }
  }

  lemma OneInner(s: string, i: nat, ends: bool)
    requires i <= |s| && TokenAt(s, i, ends).sym.kind != EOF
    ensures Inner(TokenAt(s, i, ends).sym)
  {
    hide TokenAt;
    OnlyEof(s, i, ends);
  }

  // Whatever the file holds, the parser gets tokens it can be run on.
  lemma TokensLexed(source: string)
    ensures Lexed(Syms(TokensOf(source)))
  {
    hide ScanAll, Kept;
    KeptInner(source, Start(source), false);
    var ts := Syms(TokensOf(source));
    assert forall k :: 0 <= k < |ts| - 1 ==> Inner(ts[k]);
  }

  // The tokens of a clean file have the text of lexemes.
  lemma {:induction false} KeptProper(s: string, i: nat, ends: bool)
    requires i <= |s| && AllOk(ScanAll(s, i, ends)) && forall k :: i <= k < |s| ==> s[k] != NUL && s[k] != BOM
    ensures AllProper(Syms(Kept(ScanAll(s, i, ends))))
    decreases 2 * (|s| - i) + (if ends then 1 else 0)
  {
    hide TokenAt, ScanAll, AllOk, Lexeme, AllProper;
    var j := SkipBlanks(s, i, ends);
    var t := TokenAt(s, j, ends);
    ScanStep(s, i, ends);
    var tok := Token(t.sym, PosAt(t.start));
    ScannedLexeme(s, j, ends);
    ProperSingle(t.sym);
    if t.sym.kind != EOF {
      var rest := Kept(ScanAll(s, t.next, t.ends));
      KeptProper(s, t.next, t.ends);
      SymsCons(tok, rest);
      ProperParts([t.sym], Syms(rest));
      assert [] + rest == rest;
    } else {
      assert Syms([tok]) == [t.sym];
    }
  }

  lemma ProperSingle(s: Sym)
    ensures AllProper([s]) <==> ProperSym(s)
  {
    hide Lexeme;
    if AllProper([s]) {
      assert s in [s];
    }
  }

  lemma TokensProper(source: string)
    requires Clean(source)
    ensures AllProper(Syms(TokensOf(source)))
  {
    var i := Start(source);
    forall k | i <= k < |source|
      ensures source[k] != NUL && source[k] != BOM
    {
      assert !BadChar(source, k);
    }
    KeptProper(source, i, false);
  }

  // ---- the pipeline ----

  // After the tokens toks of a file the scanner stands at i, or at the end;
  // fine says that no token so far is an error.
  ghost predicate Scanning(source: string, toks: seq<Token>, fine: bool, more: bool, i: nat, ends: bool)
    requires i <= |source|
  {
    && TokensOf(source) == toks + (if more then Kept(ScanAll(source, i, ends)) else [])
    && (AllOk(ScanAll(source, Start(source), false)) <==> fine && (more ==> AllOk(ScanAll(source, i, ends))))
    && (!more ==> i == |source|)
  }

  lemma ScanningStarts(source: string)
    ensures Scanning(source, [], true, true, Start(source), false)
  {
    hide Kept, ScanAll, AllOk;
    assert [] + Kept(ScanAll(source, Start(source), false)) == Kept(ScanAll(source, Start(source), false));
  }

  lemma ScanningTurn(source: string, toks: seq<Token>, fine: bool, i: nat, ends: bool)
    requires i <= |source| && Scanning(source, toks, fine, true, i, ends)
    ensures var t := NextToken(source, i, ends, true);
            Scanning(source, if t.sym.kind == COMMENT then toks else toks + [Token(t.sym, PosAt(t.start))],
                     fine && t.ok,
                     t.sym.kind != EOF, t.next, t.ends)
    ensures var t := NextToken(source, i, ends, true);
            t.sym.kind != EOF ==>
              2 * (|source| - t.next) + (if t.ends then 1 else 0) < 2 * (|source| - i) + (if ends then 1 else 0)
  {
    hide Kept, ScanAll, AllOk, TokenAt, SkipBlanks;
    var t := NextToken(source, i, ends, true);
    ScanStep(source, i, ends);
    var rest := if t.sym.kind == EOF then [] else Kept(ScanAll(source, t.next, t.ends));
    var one := if t.sym.kind == COMMENT then [] else [Token(t.sym, PosAt(t.start))];
    assert toks + (one + rest) == toks + one + rest;
    assert toks + [] == toks && one + [] == one;
  }

  // The scanner run to the end of the file, comments left out.
  method Tokenize(source: string) returns (toks: seq<Token>, lines: seq<nat>, fine: bool)
    ensures toks == TokensOf(source) && lines == Lines.LineStarts(source, |source|)
    ensures fine <==> Clean(source)
  {
    hide BadChar, NextToken, AllOk, ScanAll, Kept, TokensOf, Scanning, NoBad;
    var s := new Scanner(source, true);
    toks := [];
    ghost var done := true;
    var more := true;
    ScanningStarts(source);
    while more
      invariant s.Valid() && s.input == source && s.comments && fresh(s) && fresh(s.file)
      invariant Scanning(source, toks, done, more, s.offset, s.insertTerm)
      invariant s.numErrors == 0 <==> NoBad(source, s.far) && done
      decreases more, 2 * (|source| - s.offset) + (if s.insertTerm then 1 else 0)
    {
      ghost var i, ends, far := s.offset, s.insertTerm, s.far;
      ScanningTurn(source, toks, done, i, ends);
      var pos, tok, lit := s.Scan();
      NoBadLess(source, far, s.far);
      if tok != COMMENT {
        toks := toks + [Token(Sym(tok, lit), PosAt(pos))];
      }
      done := done && NextToken(source, i, ends, true).ok;
      more := tok != EOF;
    }
    lines := s.file.lines;
    fine := s.numErrors == 0;
    ScanningEnds(source, toks, done, s.offset, s.insertTerm);
  }

  lemma NoBadLess(s: string, far: nat, far': nat)
    requires far <= far'
    ensures NoBad(s, far') ==> NoBad(s, far)
  {
  }

  lemma ScanningEnds(source: string, toks: seq<Token>, fine: bool, i: nat, ends: bool)
    requires i <= |source| && Scanning(source, toks, fine, false, i, ends)
    ensures TokensOf(source) == toks && i == |source| && (Clean(source) <==> fine && NoBad(source, |source|))
  {
    hide Kept, ScanAll, AllOk, NoBad;
  }

  // The body of a file that is accepted: no error from the scanner or the parser.
  predicate Accepted(source: string)
  {
    TokensLexed(source);
    Clean(source) && File(Syms(TokensOf(source))).Ok?
  }

  function BodyOf(source: string): seq<Stmt>
    requires Accepted(source)
  {
    hide TokensOf, File, Lexed, Clean;
    TokensLexed(source);
    BuildBody(File(Syms(TokensOf(source))).val.members, TokensOf(source), 0)
  }

  // How a file reads once it is printed.
  ghost predicate Wrote(p: Printer, source: string)
    requires Accepted(source)
    reads p
  {
    var body, lines := BodyOf(source), Lines.LineStarts(source, |source|);
    p.Said() == Reading(UnparseBody(CanonBody(body, lines), body != []), false, None, true)
  }

  // The formatter: fine is false if there is any diagnostic.
  method Format(source: string) returns (fine: bool, p: Printer)
    ensures fine <==> Accepted(source)
    ensures fresh(p) && p.Valid() && p.Level() == 0 && (fine ==> Wrote(p, source))
  {
    hide Printer.Valid, Printer.Said, Printer.Level, File, BuildBody, TokensOf, CanonBody, UnparseBody, Clean,
         WalkableStmt;
    var toks, lines, clean := Tokenize(source);
    TokensLexed(source);
    Lines.LineStartsIncreasing(source, |source|);
    var parser := new Parser(toks, lines);
    var body := parser.ParseFile();
    fine := clean && parser.diags == 0;
    p := new Printer();
    if fine {
      TokensProper(source);
      PrintAfterParse(Syms(toks), toks, body, lines);
      var w := new Walker(p, lines);
      w.WalkFile(body);
    }
  }

  // ---- the printed text ----

  lemma WordClean(s: Sym)
    requires IsWord(s)
    ensures CleanText(SymText(s))
  {
    hide TokenAt;
    if !Lexeme(s) {
      OperatorClean(s.kind);
    }
  }

  lemma OperatorClean(k: Kind)
    ensures CleanText(Text(k))
  {
  }

  lemma {:induction false} WordTextClean(syms: seq<Sym>)
    requires forall k :: 0 <= k < |syms| ==> IsWord(syms[k])
    ensures CleanText(WordText(syms))
    decreases |syms|
  {
    hide IsWord, SymText;
    if syms != [] {
      WordTextClean(syms[..|syms| - 1]);
      WordClean(syms[|syms| - 1]);
    }
  }

  lemma SpreadClean(p: Piece, pad: string)
    requires PadOk(p, pad) && (p.Word? ==> forall k :: 0 <= k < |p.syms| ==> IsWord(p.syms[k]))
    ensures CleanText(Spread(p, pad))
  {
    hide IsWord, WordText;
    if p.Word? {
      WordTextClean(p.syms);
    }
  }

  lemma {:induction false} LayoutClean(ps: seq<Piece>, pads: seq<string>)
    requires PadsOk(ps, pads) && Worded(ps)
    ensures CleanText(Layout(ps, pads))
    decreases |ps|
  {
    hide IsWord, Spread, PadOk;
    if ps != [] {
      LayoutClean(ps[..|ps| - 1], pads[..|ps| - 1]);
      SpreadClean(ps[|ps| - 1], pads[|ps| - 1]);
    }
  }

  lemma EndClean(text: string, end: string)
    requires CleanText(text) && IsEnd(end)
    ensures CleanText(text + end)
  {
  }

  lemma {:induction false} KeptAll(ts: seq<Scanned>)
    requires forall s :: s in SymsOf(ts) ==> s.kind != COMMENT
    ensures Syms(Kept(ts)) == SymsOf(ts)
    decreases |ts|
  {
    if ts != [] {
      assert ts[0].sym in SymsOf(ts);
      assert forall s :: s in SymsOf(ts[1..]) ==> s in SymsOf(ts);
      KeptAll(ts[1..]);
      SymsCons(Token(ts[0].sym, PosAt(ts[0].start)), Kept(ts[1..]));
    }
  }

  lemma CleanAll(text: string)
    requires CleanText(text)
    ensures NoBad(text, |text|) && Start(text) == 0
  {
  }

  lemma WordKinds(s: Sym)
    requires s == Op(TERMINATOR) || s == Op(EOF) || IsWord(s)
    ensures s.kind != COMMENT
  {
  }

  lemma WordsOf(ts: seq<Sym>)
    requires AllScannable(ts)
    ensures forall s :: s in ts ==> s == Op(TERMINATOR) || IsWord(s)
  {
    hide Lexeme;
  }

  // Formatting an accepted file, with any blanks in its gaps, and with the
  // newline that is added at the end or without it, gives a file that
  // scans cleanly as the tokens of the canonical tree. It is accepted again
  // exactly if no call without arguments has its parentheses on different
  // lines; then its tree is the tree printed, up to positions and the quotes of
  // field names, and the very same up to positions exactly if no field name
  // needs an escape.
  lemma FormatComesBack(source: string, p: Printer, pads: seq<string>, end: string)
    requires Accepted(source) && Wrote(p, source) && PadsOk(p.output, pads) && IsEnd(end)
    ensures var text, body := Layout(p.output, pads) + end, BodyOf(source);
            && Clean(text)
            && (Accepted(text) <==>
                forall k :: 0 <= k < |body| ==> StmtCallsClosed(body[k], Lines.LineStarts(source, |source|)))
            && (Accepted(text) ==>
                  && PlainBody(BodyOf(text)) == PlainBody(RequoteBody(body))
                  && (PlainBody(BodyOf(text)) == PlainBody(body) <==>
                      forall k :: 0 <= k < |body| ==> StmtVerbatim(body[k])))
  {
    hide File, BuildBody, CanonBody, UnparseBody, IsWord, Layout, ScanAll, AllScannable, AllOk, NoBad, AllProper,
         Lexed, StmtCallsClosed, StmtVerbatim, PlainBody, RequoteBody, WalkableStmt, Start;
    var text, toks := Layout(p.output, pads) + end, TokensOf(source);
    var body, lines := BodyOf(source), Lines.LineStarts(source, |source|);
    var ts := UnparseBody(CanonBody(body, lines), body != []);
    TokensLexed(source);
    TokensProper(source);
    PrintAfterParse(Syms(toks), toks, body, lines);
    WordsOf(ts);
    assert Finish(p.Said()) == ts + [] == ts;
    TextScans(p, pads, ts, end);
    ParseAfterPrint(Syms(toks), toks, body, lines, TokensOf(text));
  }

  lemma TextScans(p: Printer, pads: seq<string>, ts: seq<Sym>, end: string)
    requires PadsOk(p.output, pads) && p.Said().clean && Finish(p.Said()) == ts && IsEnd(end)
    requires forall s :: s in ts ==> s == Op(TERMINATOR) || IsWord(s)
    ensures var text := Layout(p.output, pads) + end; Clean(text) && Syms(TokensOf(text)) == ts + [Op(EOF)]
  {
    hide IsWord, Layout, ScanAll, AllOk, NoBad, Finish, Printer.Said, Kept, Worded;
    var text := Layout(p.output, pads) + end;
    OutputScans(p, pads, end);
    OutputWorded(p);
    LayoutClean(p.output, pads);
    EndClean(Layout(p.output, pads), end);
    CleanAll(text);
    forall s | s in SymsOf(ScanAll(text, 0, false))
      ensures s.kind != COMMENT
    {
      WordKinds(s);
    }
    KeptAll(ScanAll(text, 0, false));
  }

  lemma OutputWorded(p: Printer)
    requires p.Said().clean && forall s :: s in Finish(p.Said()) ==> s == Op(TERMINATOR) || IsWord(s)
    ensures Worded(p.output)
  {
    hide IsWord, Worded;
    var r := Printers.Read(p.output);
    FinishSpaces(r, p.whitespace);
    assert forall s :: s in r.toks ==> s in Finish(r);
    ReadWorded(p.output);
  }
}
