// The printed text is scanned again: whatever blanks the layout makes of the
// gaps, the tokens come out as they were meant.
module Rescans {
  import opened Tokens
  import opened Syntax
  import opened Lexis
  import opened Printers
  import opened Lexemes

  // ---- what a scan yields ----

  function SymsOf(ts: seq<Scanned>): seq<Sym> {
    if ts == [] then [] else [ts[0].sym] + SymsOf(ts[1..])
  }

  predicate AllOk(ts: seq<Scanned>) {
    forall t :: t in ts ==> t.ok
  }

  // Scanning s from i yields syms, without error, and goes on from j.
  ghost predicate Reaches(s: string, i: nat, ends: bool, syms: seq<Sym>, j: nat, ends': bool)
    requires i <= |s| && j <= |s|
  {
    && SymsOf(ScanAll(s, i, ends)) == syms + SymsOf(ScanAll(s, j, ends'))
    && (AllOk(ScanAll(s, j, ends')) ==> AllOk(ScanAll(s, i, ends)))
  }

  lemma ReachesNext(s: string, i: nat, ends: bool, xs: seq<Sym>, j: nat, ends': bool, ys: seq<Sym>, k: nat,
        ends'': bool)
    requires i <= |s| && j <= |s| && k <= |s| && Reaches(s, i, ends, xs, j, ends')
            && Reaches(s, j, ends', ys, k, ends'')
    ensures Reaches(s, i, ends, xs + ys, k, ends'')
  {
    var zs := SymsOf(ScanAll(s, k, ends''));
    assert xs + (ys + zs) == xs + ys + zs;
  }

  lemma ReachesHere(s: string, i: nat, ends: bool)
    requires i <= |s|
    ensures Reaches(s, i, ends, [], i, ends)
  {
    assert [] + SymsOf(ScanAll(s, i, ends)) == SymsOf(ScanAll(s, i, ends));
  }

  lemma ReachesToken(s: string, i: nat, ends: bool, t: Scanned)
    requires i < |s| && !IsBlank(s[i], ends) && t == TokenAt(s, i, ends) && t.ok && t.sym.kind != EOF
    ensures Reaches(s, i, ends, [t.sym], t.next, t.ends)
  {
    hide TokenAt;
    assert SkipBlanks(s, i, ends) == i;
    var rest := ScanAll(s, t.next, t.ends);
    assert ScanAll(s, i, ends) == [t] + rest;
    assert ([t] + rest)[1..] == rest;
  }

  lemma {:induction false} SkipsTo(s: string, i: nat, j: nat, ends: bool)
    requires i <= j <= |s| && forall k :: i <= k < j ==> IsBlank(s[k], ends)
    ensures SkipBlanks(s, i, ends) == SkipBlanks(s, j, ends)
    decreases j - i
  {
    if i < j {
      SkipsTo(s, i + 1, j, ends);
    }
  }

  lemma ReachesOver(s: string, i: nat, j: nat, ends: bool)
    requires i <= j <= |s| && forall k :: i <= k < j ==> IsBlank(s[k], ends)
    ensures Reaches(s, i, ends, [], j, ends)
  {
    hide TokenAt;
    SkipsTo(s, i, j, ends);
    assert ScanAll(s, i, ends) == ScanAll(s, j, ends);
    ReachesHere(s, j, ends);
  }

  // ---- the text of the output ----

  predicate Blanks(pad: string) {
    forall i :: 0 <= i < |pad| ==> pad[i] == ' ' || pad[i] == '\t'
  }

  // The blanks a layout can add to a piece: a gap is at least one blank, and
  // an indentation by tabs is not lost.
  predicate PadOk(p: Piece, pad: string) {
    Blanks(pad) && (p.Tabs? && p.n > 0 ==> pad != "")
  }

  function Spread(p: Piece, pad: string): string {
    match p
    case Gap(ws) =>
      if ws.Newline? || ws.Formfeed? then "\n" else if ws.Blank? || ws.VTab? then " " + pad else ""
    case Tabs(_) => pad
    case Word(syms) => WordText(syms)
  }

  predicate PadsOk(ps: seq<Piece>, pads: seq<string>) {
    |pads| == |ps| && forall i :: 0 <= i < |ps| ==> PadOk(ps[i], pads[i])
  }

  function Layout(ps: seq<Piece>, pads: seq<string>): string
    requires |pads| == |ps|
  {
    if ps == [] then ""
    else Layout(ps[..|ps| - 1], pads[..|ps| - 1]) + Spread(ps[|ps| - 1], pads[|ps| - 1])
  }

  // A lexeme, or an operator.
  predicate IsWord(sym: Sym) {
    Lexeme(sym) || (sym == Op(sym.kind) && !HasText(sym.kind) && Text(sym.kind) != "")
  }

  // ---- one word ----

  // What follows in rest does not continue the last token of r.
  predicate Apart(r: Reading, rest: string) {
    r.last.Some? && rest != "" ==> Stops(r.last.value, rest[0])
  }

  lemma CutMiddle(a: string, b: string, c: string)
    ensures Cut(a + b + c, |a|, |a| + |b|, b)
  {
  }

  lemma SymRead(s: string, i: nat, j: nat, sym: Sym, ends: bool)
    requires IsWord(sym) && Cut(s, i, j, SymText(sym)) && Ended(s, j, sym.kind)
    ensures i < j <= |s| && !IsBlank(s[i], ends) && sym.kind != EOF
    ensures TokenAt(s, i, ends) == Scanned(sym, i, j, EndsStatement(sym.kind), true)
  {
    hide Lexeme, Stops, IsBlank, TokenAt, Cut, Ended;
    if Lexeme(sym) {
      LexemeKind(sym);
      LexemeScans(s, i, j, sym, ends);
    } else {
      OperatorScans(s, i, j, sym.kind, ends);
    }
  }

  lemma SymScans(pre: string, sym: Sym, rest: string, ends: bool)
    requires IsWord(sym) && (rest != "" ==> Stops(sym.kind, rest[0]))
    ensures Reaches(pre + SymText(sym) + rest, |pre|, ends, [sym], |pre| + |SymText(sym)|, EndsStatement(sym.kind))
  {
    hide IsWord, SymText, Stops, IsBlank, EndsStatement, TokenAt, Reaches;
    var s, i, j := pre + SymText(sym) + rest, |pre|, |pre| + |SymText(sym)|;
    CutMiddle(pre, SymText(sym), rest);
    assert j < |s| ==> s[j] == rest[0];
    SymRead(s, i, j, sym, ends);
    ReachesToken(s, i, ends, TokenAt(s, i, ends));
  }

  lemma LexemeKind(sym: Sym)
    requires Lexeme(sym)
    ensures (sym.kind == IDENT || IsLiteral(sym.kind)) && EndsStatement(sym.kind) && SymText(sym) == sym.lit
  {
  }

  lemma {:induction false} WordScans(pre: string, syms: seq<Sym>, rest: string, r: Reading)
    requires ReadSyms(r, syms).clean && Apart(ReadSyms(r, syms), rest)
    requires forall k :: 0 <= k < |syms| ==> IsWord(syms[k])
    ensures Reaches(pre + WordText(syms) + rest, |pre|, r.ends, syms, |pre| + |WordText(syms)|, ReadSyms(r, syms).ends)
    decreases |syms|
  {
    hide IsWord, SymText, Stops, EndsStatement, Reaches;
    if syms == [] {
      ReachesHere(pre + "" + rest, |pre|, r.ends);
    } else {
      var front, x := syms[..|syms| - 1], syms[|syms| - 1];
      var a, b := WordText(front), SymText(x);
      var m := ReadSyms(r, front);
      assert pre + (a + b) + rest == pre + a + (b + rest) == (pre + a) + b + rest;
      WordScans(pre, front, b + rest, r);
      SymScans(pre + a, x, rest, m.ends);
      ReachesNext(pre + (a + b) + rest, |pre|, r.ends, front, |pre + a|, m.ends, [x], |pre + a| + |b|,
          EndsStatement(x.kind));
      assert front + [x] == syms;
    }
  }

  // ---- one piece ----

  lemma StopsBlank(k: Kind, c: char)
    requires c == ' ' || c == '\t' || c == '\n'
    ensures Stops(k, c)
  {
  }

  // The first symbol of a word can stand where it does.
  lemma {:induction false} FirstOfWord(r: Reading, syms: seq<Sym>)
    requires syms != [] && ReadSyms(r, syms).clean
    ensures r.clean && MayFollow(r.last, syms[0])
    ensures WordText(syms) != "" && WordText(syms)[0] == SymText(syms[0])[0]
    decreases |syms|
  {
    hide SymText, Stops;
    var front := syms[..|syms| - 1];
    if |syms| > 1 {
      FirstOfWord(r, front);
      assert WordText(syms)[0] == WordText(front)[0];
    } else {
      assert front == [];
    }
  }

  lemma PieceApart(r: Reading, p: Piece, pad: string, rest: string)
    requires PadOk(p, pad) && ReadPiece(r, p).clean && Apart(ReadPiece(r, p), rest)
    ensures r.clean && Apart(r, Spread(p, pad) + rest)
  {
    hide Stops, SymText, ReadSyms, WordText;
    if p.Word? && p.syms != [] {
      FirstOfWord(r, p.syms);
    } else if p.Word? {
      NoWord(r);
    } else if r.last.Some? && Spread(p, pad) != "" {
      StopsBlank(r.last.value, Spread(p, pad)[0]);
    }
  }

  lemma NoWord(r: Reading)
    ensures ReadSyms(r, []) == r && WordText([]) == ""
  {
  }

  // The tokens a piece adds.
  function Adds(r: Reading, p: Piece): seq<Sym> {
    match p
    case Gap(ws) => if (ws.Newline? || ws.Formfeed?) && r.ends then [Op(TERMINATOR)] else []
    case Tabs(_) => []
    case Word(syms) => syms
  }

  lemma {:induction false} ReadSymsToks(r: Reading, syms: seq<Sym>)
    ensures ReadSyms(r, syms).toks == r.toks + syms
    decreases |syms|
  {
    if syms != [] {
      ReadSymsToks(r, syms[..|syms| - 1]);
    }
  }

  lemma AddsToks(r: Reading, p: Piece)
    ensures ReadPiece(r, p).toks == r.toks + Adds(r, p)
  {
    hide ReadSyms;
    if p.Word? {
      ReadSymsToks(r, p.syms);
    }
  }

  lemma BlanksScan(pre: string, blanks: string, rest: string, ends: bool)
    requires forall i :: 0 <= i < |blanks| ==> IsBlank(blanks[i], ends)
    ensures Reaches(pre + blanks + rest, |pre|, ends, [], |pre| + |blanks|, ends)
  {
    hide Reaches;
    CutMiddle(pre, blanks, rest);
    ReachesOver(pre + blanks + rest, |pre|, |pre| + |blanks|, ends);
  }

  lemma NewlineScans(pre: string, rest: string, ends: bool)
    ensures Reaches(pre + "\n" + rest, |pre|, ends, if ends then [Op(TERMINATOR)] else [], |pre| + 1, false)
  {
    hide Reaches;
    var s, i := pre + "\n" + rest, |pre|;
    assert s[i] == '\n';
    if ends {
      hide IdentifierEnd, NumberEnd, StringEnd, CommentEnd, EndsLine, OperatorEnd;
      ReachesToken(s, i, ends, Scanned(Op(TERMINATOR), i, i + 1, false, true));
    } else {
      BlanksScan(pre, "\n", rest, false);
    }
  }

  lemma PieceScans(pre: string, p: Piece, pad: string, rest: string, r: Reading)
    requires PadOk(p, pad) && ReadPiece(r, p).clean && Apart(ReadPiece(r, p), rest)
    requires p.Word? ==> forall k :: 0 <= k < |p.syms| ==> IsWord(p.syms[k])
    ensures Reaches(pre + Spread(p, pad) + rest, |pre|, r.ends, Adds(r, p), |pre| + |Spread(p, pad)|,
            ReadPiece(r, p).ends)
  {
    hide Reaches, IsWord, Stops, SymText, ReadSyms;
    match p
    case Gap(ws) =>
      if ws.Newline? || ws.Formfeed? {
        NewlineScans(pre, rest, r.ends);
      } else {
        BlanksScan(pre, Spread(p, pad), rest, r.ends);
      }
    case Tabs(_) => BlanksScan(pre, pad, rest, r.ends);
    case Word(syms) => WordScans(pre, syms, rest, r);
  }

  // ---- the output ----

  predicate Worded(ps: seq<Piece>) {
    forall i :: 0 <= i < |ps| ==> (ps[i].Word? ==> forall k :: 0 <= k < |ps[i].syms| ==> IsWord(ps[i].syms[k]))
  }

  // However the gaps are laid out, the text scans as it reads.
  lemma {:induction false} LayoutScans(ps: seq<Piece>, pads: seq<string>, rest: string)
    requires PadsOk(ps, pads) && Worded(ps) && Read(ps).clean && Apart(Read(ps), rest)
    ensures Reaches(Layout(ps, pads) + rest, 0, false, Read(ps).toks, |Layout(ps, pads)|, Read(ps).ends)
    decreases |ps|
  {
    hide Reaches, IsWord, ReadPiece, Spread, PadOk, Apart;
    if ps == [] {
      ReachesHere("" + rest, 0, false);
    } else {
      var n := |ps| - 1;
      var front, p, fpads, pad := ps[..n], ps[n], pads[..n], pads[n];
      var r, a, b := Read(front), Layout(front, fpads), Spread(p, pad);
      PieceApart(r, p, pad, rest);
      LayoutScans(front, fpads, b + rest);
      PieceScans(a, p, pad, rest, r);
      assert a + (b + rest) == a + b + rest;
      AddsToks(r, p);
      ReachesNext(a + b + rest, 0, false, r.toks, |a|, r.ends, Adds(r, p), |a| + |b|, ReadPiece(r, p).ends);
    }
  }

  // ---- whitespace that is never flushed ----

  // The tokens of a reading once the file ends.
  function Finish(r: Reading): seq<Sym> {
    r.toks + (if r.ends then [Op(TERMINATOR)] else [])
  }

  lemma {:induction false} FinishSpaces(r: Reading, wss: seq<Whitespace>)
    ensures Finish(ReadSpaces(r, wss)) == Finish(r) && ReadSpaces(r, wss).clean == r.clean
    decreases |wss|
  {
    if wss != [] {
      FinishSpaces(r, wss[..|wss| - 1]);
    }
  }

  lemma EndScans(s: string, ends: bool)
    ensures SymsOf(ScanAll(s, |s|, ends)) == (if ends then [Op(TERMINATOR)] else []) + [Op(EOF)]
    ensures AllOk(ScanAll(s, |s|, ends))
  {
    var e := Scanned(Op(EOF), |s|, |s|, false, true);
    assert ScanAll(s, |s|, false) == [e] && [e][1..] == [];
    if ends {
      var t := Scanned(Op(TERMINATOR), |s|, |s|, false, true);
      assert ScanAll(s, |s|, true) == [t] + [e] && ([t] + [e])[1..] == [e];
    }
  }

  // All words in the output are words if all tokens it reads as are.
  lemma {:induction false} ReadWorded(ps: seq<Piece>)
    requires Read(ps).clean && forall s :: s in Read(ps).toks ==> s == Op(TERMINATOR) || IsWord(s)
    ensures Worded(ps)
    decreases |ps|
  {
    hide IsWord, ReadPiece;
    if ps != [] {
      var front, p := ps[..|ps| - 1], ps[|ps| - 1];
      var r := Read(front);
      AddsToks(r, p);
      PieceClean(r, p);
      assert forall s :: s in r.toks ==> s in Read(ps).toks;
      ReadWorded(front);
      if p.Word? {
        forall k | 0 <= k < |p.syms|
          ensures IsWord(p.syms[k])
        {
          assert p.syms[k] in Read(ps).toks;
        }
      }
      assert forall i :: 0 <= i < |front| ==> front[i] == ps[i];
    }
  }

  lemma PieceClean(r: Reading, p: Piece)
    requires ReadPiece(r, p).clean
    ensures r.clean && (p.Word? ==> Op(TERMINATOR) !in p.syms)
  {
    hide MayFollow, SymText;
    if p.Word? {
      CleanSyms(r, p.syms);
    }
  }

  lemma {:induction false} CleanSyms(r: Reading, syms: seq<Sym>)
    requires ReadSyms(r, syms).clean
    ensures r.clean && Op(TERMINATOR) !in syms
    decreases |syms|
  {
    hide Stops;
    if syms != [] {
      CleanSyms(r, syms[..|syms| - 1]);
    }
  }

  // Output, or output with one more newline, as the formatter adds it.
  predicate IsEnd(end: string) {
    end == "" || end == "\n"
  }

  lemma EndApart(r: Reading, end: string)
    requires IsEnd(end)
    ensures Apart(r, end)
  {
    if end != "" && r.last.Some? {
      StopsBlank(r.last.value, '\n');
    }
  }

  lemma LastScans(text: string, end: string, toks: seq<Sym>, ends: bool)
    requires IsEnd(end) && Reaches(text + end, 0, false, toks, |text|, ends)
    ensures var all := toks + (if ends then [Op(TERMINATOR)] else []) + [Op(EOF)];
            SymsOf(ScanAll(text + end, 0, false)) == all && AllOk(ScanAll(text + end, 0, false))
  {
    hide AllOk;
    var s := text + end;
    var more := if ends then [Op(TERMINATOR)] else [];
    if end == "" {
      assert s == text;
      EndScans(s, ends);
      assert toks + (more + [Op(EOF)]) == toks + more + [Op(EOF)];
    } else {
      assert s == text + "\n" + "";
      NewlineScans(text, "", ends);
      ReachesNext(s, 0, false, toks, |text|, ends, more, |s|, false);
      EndScans(s, false);
    }
  }

  // The main result: the printed text, however it is laid out, scans without
  // error as the tokens that were written.
  lemma OutputScans(p: Printer, pads: seq<string>, end: string)
    requires PadsOk(p.output, pads) && p.Said().clean && IsEnd(end)
    requires forall s :: s in Finish(p.Said()) ==> s == Op(TERMINATOR) || IsWord(s)
    ensures var text := Layout(p.output, pads) + end;
            SymsOf(ScanAll(text, 0, false)) == Finish(p.Said()) + [Op(EOF)] && AllOk(ScanAll(text, 0, false))
  {
    hide IsWord, Apart, Layout, AllOk, Reaches, IsEnd;
    var text, r := Layout(p.output, pads), Read(p.output);
    FinishSpaces(r, p.whitespace);
    assert forall s :: s in r.toks ==> s in Finish(r);
    ReadWorded(p.output);
    EndApart(r, end);
    LayoutScans(p.output, pads, end);
    LastScans(text, end, r.toks, r.ends);
  }
}
