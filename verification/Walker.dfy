// walker.go: the walk over a syntax tree that sends tokens and whitespace to
// the printer. Whatever the layout chosen, what is written reads as the tokens
// of the canonical tree, no two of them run together, indentation is balanced,
// and a line ends within an expression only where no terminator is read.
module Walkers {
  import opened Tokens
  import opened Syntax
  import opened Lines
  import opened Quoting
  import opened Lexemes
  import opened Printers
  import opened Canonical

  // A reading after which any expression can stand.
  predicate Opening(r: Reading) {
    r.clean && (r.last.Some? ==> IsOpener(r.last.value) || r.last.value.COMMA?)
  }

  predicate IsOpener(k: Kind) {
    k.NOT? || k.SUB? || k.LPAREN? || k.LBRACK? || k.LCURLY?
  }

  predicate IsCloser(k: Kind) {
    k.RPAREN? || k.RBRACK? || k.RCURLY?
  }

  // A reading that ends with an operand.
  predicate Closed(r: Reading) {
    r.clean && r.ends && r.last.Some? && EndsStatement(r.last.value)
  }

  // Text that can stand at the start of an expression, and after a key.
  lemma StartsExpression(r: Reading, sym: Sym)
    requires Opening(r)
    requires Lexeme(sym) || IsOpener(sym.kind)
    ensures MayFollow(r.last, sym) && (Lexeme(sym) ==> Solid(SymText(sym)))
  {
    hide Lexeme;
    if Lexeme(sym) {
      LexemeText(sym);
      LexemeProper(sym);
    }
  }

  lemma LexemeText(sym: Sym)
    requires Lexeme(sym)
    ensures SymText(sym) == sym.lit && sym.lit != "" && (sym.kind == IDENT || IsLiteral(sym.kind))
  {
  }

  // Punctuation can follow an operand; a dot after a number takes a space.
  lemma Follows(r: Reading, k: Kind)
    requires Closed(r) || Opening(r)
    requires k.DOT? || k.LBRACK? || k.LPAREN? || IsCloser(k) || k.COMMA?
    ensures (k.DOT? && r.last == Some(NUMBER)) || MayFollow(r.last, Op(k))
  {
  }

  lemma AfterDot(name: string)
    requires IsIdentifier(name)
    ensures MayFollow(Some(DOT), Sym(IDENT, name)) && Solid(name)
  {
    assert IsLetter(name[|name| - 1]) || IsDigit(name[|name| - 1]);
  }

  // The tokens of the first i members of a list, with a comma after each but
  // the last of all.
  function Sofar(cs: seq<Cst>, i: nat): seq<Sym>
    requires i <= |cs|
  {
    if i == 0 then []
    else Sofar(cs, i - 1) + Unparse(cs[i - 1]) + (if i < |cs| then [Op(COMMA)] else [])
  }

  lemma {:induction false} SofarTail(cs: seq<Cst>, i: nat)
    requires 1 <= i <= |cs|
    ensures Sofar(cs, i) == Unparse(cs[0]) + (if |cs| > 1 then [Op(COMMA)] else []) + Sofar(cs[1..], i - 1)
  {
    hide Unparse;
    if i > 1 {
      SofarTail(cs, i - 1);
    }
  }

  lemma {:induction false} SofarAll(cs: seq<Cst>, comma: bool)
    ensures UnparseList(cs, comma) == Sofar(cs, |cs|) + (if comma then [Op(COMMA)] else [])
  {
    hide Unparse;
    if cs != [] {
      SofarTail(cs, |cs|);
      SofarAll(cs[1..], comma);
      if |cs| == 1 {
        assert cs[1..] == [];
      }
    }
  }

  function FieldsSofar(fs: seq<CField>, i: nat): seq<Sym>
    requires i <= |fs|
  {
    if i == 0 then []
    else FieldsSofar(fs, i - 1) + UnparseField(fs[i - 1]) + (if i < |fs| then [Op(COMMA)] else [])
  }

  lemma {:induction false} FieldsSofarTail(fs: seq<CField>, i: nat)
    requires 1 <= i <= |fs|
    ensures FieldsSofar(fs, i) ==
            UnparseField(fs[0]) + (if |fs| > 1 then [Op(COMMA)] else []) + FieldsSofar(fs[1..], i - 1)
  {
    hide UnparseField;
    if i > 1 {
      FieldsSofarTail(fs, i - 1);
    }
  }

  lemma {:induction false} FieldsSofarAll(fs: seq<CField>, comma: bool)
    ensures UnparseFields(fs, comma) == FieldsSofar(fs, |fs|) + (if comma then [Op(COMMA)] else [])
  {
    hide UnparseField;
    if fs != [] {
      FieldsSofarTail(fs, |fs|);
      FieldsSofarAll(fs[1..], comma);
      if |fs| == 1 {
        assert fs[1..] == [];
      }
    }
  }

  lemma SofarNone(cs: seq<Cst>)
    ensures Sofar(cs, 0) == []
  {
  }

  lemma Regroup(b: seq<Sym>, open: seq<Sym>, s: seq<Sym>, t: seq<Sym>, close: seq<Sym>)
    ensures b + open + s + t + close == b + (open + (s + t) + close)
  {
  }

  // What is written in parts is the whole.
  lemma Two(b: seq<Sym>, x: seq<Sym>, y: seq<Sym>)
    ensures b + x + y == b + (x + y)
  {
  }

  lemma Three(b: seq<Sym>, x: seq<Sym>, y: seq<Sym>, z: seq<Sym>)
    ensures b + x + y + z == b + (x + y + z)
  {
  }

  lemma Four(b: seq<Sym>, x: seq<Sym>, y: seq<Sym>, z: seq<Sym>, w: seq<Sym>)
    ensures b + x + y + z + w == b + (x + y + z + w)
  {
  }

  lemma ArrayTokens(e: Expr, lines: seq<nat>, b: seq<Sym>)
    requires e.Array?
    ensures var cs := CanonList(e.elements, lines);
            var comma := e.elements != [] && DifferentLines(lines, ListEnd(e.elements, e.lbrackPos), e.rbrackPos);
            b + [Op(LBRACK)] + Sofar(cs, |cs|) + (if comma then [Op(COMMA)] else []) + [Op(RBRACK)] ==
                b + Unparse(Canon(e, lines))
  {
    hide Sofar, DifferentLines, CanonList, UnparseList;
    var cs := CanonList(e.elements, lines);
    var comma := e.elements != [] && DifferentLines(lines, ListEnd(e.elements, e.lbrackPos), e.rbrackPos);
    SofarAll(cs, comma);
    Regroup(b, [Op(LBRACK)], Sofar(cs, |cs|), if comma then [Op(COMMA)] else [], [Op(RBRACK)]);
  }

  lemma ObjectTokens(e: Expr, lines: seq<nat>, b: seq<Sym>)
    requires e.Object?
    ensures var cs := CanonFields(e.fields, lines);
            var comma := e.fields != [] && DifferentLines(lines, NamesEnd(e.fields, e.lcurlyPos), e.rcurlyPos);
            b + [Op(LCURLY)] + FieldsSofar(cs, |cs|) + (if comma then [Op(COMMA)] else []) + [Op(RCURLY)] ==
                b + Unparse(Canon(e, lines))
  {
    hide FieldsSofar, DifferentLines, CanonFields, UnparseFields;
    var cs := CanonFields(e.fields, lines);
    var comma := e.fields != [] && DifferentLines(lines, NamesEnd(e.fields, e.lcurlyPos), e.rcurlyPos);
    FieldsSofarAll(cs, comma);
    Regroup(b, [Op(LCURLY)], FieldsSofar(cs, |cs|), if comma then [Op(COMMA)] else [], [Op(RCURLY)]);
  }

  lemma CallTokens(e: Expr, lines: seq<nat>, b: seq<Sym>)
    requires e.Call?
    ensures var cs := CanonList(e.args, lines);
            var comma := DifferentLines(lines, ListEnd(e.args, e.lparenPos), e.rparenPos);
            b + Unparse(Canon(e.value, lines)) + [Op(LPAREN)] + Sofar(cs, |cs|)
            + (if comma then [Op(COMMA)] else []) + [Op(RPAREN)]
            == b + Unparse(Canon(e, lines))
  {
    hide Sofar, DifferentLines, CanonList, UnparseList;
    var cs := CanonList(e.args, lines);
    var comma := DifferentLines(lines, ListEnd(e.args, e.lparenPos), e.rparenPos);
    var v, t := Unparse(Canon(e.value, lines)), if comma then [Op(COMMA)] else [];
    SofarAll(cs, comma);
    Two(b + v + [Op(LPAREN)], Sofar(cs, |cs|), t);
    Four(b, v, [Op(LPAREN)], Sofar(cs, |cs|) + t, [Op(RPAREN)]);
  }

  lemma Empty(b: seq<Sym>)
    ensures b + [] == b
  {
  }

  lemma FieldsSofarNone(fs: seq<CField>)
    ensures FieldsSofar(fs, 0) == []
  {
  }

  lemma FieldTokens(b: seq<Sym>, x: seq<Sym>, key: Sym, value: seq<Sym>)
    ensures b + x + [key] + [Op(ASSIGN)] + value == b + (x + ([key, Op(ASSIGN)] + value))
  {
    assert [key] + [Op(ASSIGN)] == [key, Op(ASSIGN)];
    Four(b, x, [key], [Op(ASSIGN)], value);
    Three(x, [key], [Op(ASSIGN)], value);
  }

  lemma KeyStarts(r: Reading, f: Field)
    requires Opening(r) && ProperField(f)
    ensures MayFollow(r.last, FieldKey(f)) && Solid(SymText(FieldKey(f)))
  {
    if IsIdentifier(f.name) {
      AfterDot(f.name);
    }
  }

  // ast.go and walker.go: the number of lines a node crosses.
  function NodeLines(lines: seq<nat>, start: Pos, end: Pos): int {
    LineOf(lines, end) - LineOf(lines, start) + 1
  }

  // ---- statements ----

  // A reading at the start of a line.
  predicate Fresh(r: Reading) {
    r.clean && !r.ends && r.last.None?
  }

  // The tokens of the first i statements, a terminator after each.
  function Terminated(cs: seq<CStmt>, i: nat): seq<Sym>
    requires i <= |cs|
  {
    if i == 0 then [] else Terminated(cs, i - 1) + UnparseStmt(cs[i - 1]) + [Op(TERMINATOR)]
  }

  lemma {:induction false} TerminatedTail(cs: seq<CStmt>, i: nat)
    requires 1 <= i <= |cs|
    ensures Terminated(cs, i) == UnparseStmt(cs[0]) + [Op(TERMINATOR)] + Terminated(cs[1..], i - 1)
  {
    hide UnparseStmt;
    if i > 1 {
      TerminatedTail(cs, i - 1);
    }
  }

  lemma {:induction false} TerminatedAll(cs: seq<CStmt>)
    ensures UnparseBody(cs, cs != []) == Terminated(cs, |cs|)
  {
    hide UnparseStmt;
    if cs != [] {
      TerminatedTail(cs, |cs|);
      TerminatedAll(cs[1..]);
      if |cs| == 1 {
        assert cs[1..] == [];
      }
    }
  }

  lemma OneTerminated(cs: seq<CStmt>, i: nat, b: seq<Sym>)
    requires i < |cs|
    ensures b + Terminated(cs, i) + UnparseStmt(cs[i]) + [Op(TERMINATOR)] == b + Terminated(cs, i + 1)
  {
    Three(b, Terminated(cs, i), UnparseStmt(cs[i]), [Op(TERMINATOR)]);
  }

  lemma NoneTerminated(cs: seq<CStmt>)
    ensures Terminated(cs, 0) == []
  {
  }

  lemma {:induction false} ReadSymsCat(r: Reading, a: seq<Sym>, b: seq<Sym>)
    ensures ReadSyms(r, a + b) == ReadSyms(ReadSyms(r, a), b)
    decreases |b|
  {
    hide ReadSym;
    if b == [] {
      Empty(a);
    } else {
      var front := b[..|b| - 1];
      assert (a + b)[..|a + b| - 1] == a + front;
      ReadSymsCat(r, a, front);
    }
  }

  lemma {:induction false} WordTextCat(a: seq<Sym>, b: seq<Sym>)
    ensures WordText(a + b) == WordText(a) + WordText(b)
    decreases |b|
  {
    hide SymText;
    if b == [] {
      Empty(a);
    } else {
      var front := b[..|b| - 1];
      assert (a + b)[..|a + b| - 1] == a + front;
      WordTextCat(a, front);
    }
  }

  lemma ReadOne(r: Reading, s: Sym)
    ensures ReadSyms(r, [s]) == ReadSym(r, s) && WordText([s]) == SymText(s)
  {
    assert [s][..0] == [];
  }

  lemma ReadName(r: Reading, name: string)
    requires r.clean && r.last in {None, Some(DOT)} && IsIdentifier(name)
    ensures ReadSym(r, Sym(IDENT, name)) == Reading(r.toks + [Sym(IDENT, name)], true, Some(IDENT), true)
    ensures Solid(name)
  {
    hide IsIdentifier, Stops;
    AfterDot(name);
  }

  lemma ReadNameDot(r: Reading, name: string)
    requires r.clean && r.last in {None, Some(DOT)} && IsIdentifier(name)
    ensures ReadSyms(r, [Sym(IDENT, name), Op(DOT)])
            == Reading(r.toks + [Sym(IDENT, name)] + [Op(DOT)], false, Some(DOT), true)
  {
    hide IsIdentifier, ReadSym;
    var s := Sym(IDENT, name);
    ReadName(r, name);
    assert [s] + [Op(DOT)] == [s, Op(DOT)];
    ReadSymsCat(r, [s], [Op(DOT)]);
    ReadOne(r, s);
    ReadOne(ReadSym(r, s), Op(DOT));
    DotFollows(r.toks + [s]);
  }

  lemma DotFollows(ts: seq<Sym>)
    ensures ReadSym(Reading(ts, true, Some(IDENT), true), Op(DOT)) == Reading(ts + [Op(DOT)], false, Some(DOT), true)
  {
  }

  // A block name is written as one word: its fragments joined with dots.
  lemma {:induction false} ReadNames(r: Reading, names: seq<string>)
    requires r.clean && r.last in {None, Some(DOT)}
    requires names != [] && forall i :: 0 <= i < |names| ==> IsIdentifier(names[i])
    ensures ReadSyms(r, UnparseNames(names)) == Reading(r.toks + UnparseNames(names), true, Some(IDENT), true)
    ensures Solid(WordText(UnparseNames(names)))
    decreases |names|
  {
    hide IsIdentifier, ReadSym, ReadSyms, WordText;
    var s := Sym(IDENT, names[0]);
    if |names| == 1 {
      ReadName(r, names[0]);
      ReadOne(r, s);
    } else {
      var rest := UnparseNames(names[1..]);
      ReadNameDot(r, names[0]);
      var m := Reading(r.toks + [s] + [Op(DOT)], false, Some(DOT), true);
      ReadSymsCat(r, [s, Op(DOT)], rest);
      WordTextCat([s, Op(DOT)], rest);
      ReadNames(m, names[1..]);
      Two(r.toks, [s], [Op(DOT)]);
      assert [s] + [Op(DOT)] == [s, Op(DOT)];
      Two(r.toks, [s, Op(DOT)], rest);
    }
  }

  lemma NoBody(lines: seq<nat>)
    ensures UnparseBody(CanonBody([], lines), false) == []
  {
  }

  lemma QuoteSolid(text: string)
    ensures Solid(Quote(text))
  {
  }

  lemma BlockTokens(s: Stmt, lines: seq<nat>, b: seq<Sym>)
    requires s.Block?
    ensures var cs := CanonBody(s.body, lines);
            b + UnparseNames(s.names) + (if s.tag == "" then [] else [Sym(STRING, Quote(s.tag))]) + [Op(LCURLY)]
            + UnparseBody(cs, cs != []) + [Op(RCURLY)] == b + UnparseStmt(CanonStmt(s, lines))
  {
    hide UnparseNames, CanonBody, UnparseBody;
    var cs := CanonBody(s.body, lines);
    var n, t := UnparseNames(s.names), if s.tag == "" then [] else [Sym(STRING, Quote(s.tag))];
    Four(b, n, t, [Op(LCURLY)], UnparseBody(cs, cs != []));
    Two(b, n + t + [Op(LCURLY)] + UnparseBody(cs, cs != []), [Op(RCURLY)]);
  }

  class Walker {
    const p: Printer
    const lines: seq<nat>

    constructor (p: Printer, lines: seq<nat>)
      ensures this.p == p && this.lines == lines
    {
      this.p, this.lines := p, lines;
    }

    // From the reading r, at indentation level, the tokens ts of an operand were written.
    ghost predicate Wrote(r: Reading, level: int, ts: seq<Sym>)
      reads p
    {
      && p.Valid() && p.Level() == level && p.whitespace == []
      && p.Said() == Reading(r.toks + ts, true, Some(p.lastTok), true) && EndsStatement(p.lastTok)
    }

    // Punctuation after an operand.
    method WriteClosing(k: Kind)
      requires p.Valid() && (Closed(p.Said()) || Opening(p.Said()))
              && (k.LBRACK? || k.LPAREN? || IsCloser(k) || k.COMMA?)
      modifies p
      ensures p.Valid() && p.Level() == old(p.Level()) && p.whitespace == [] && p.lastTok == k
      ensures p.Said() == Reading(old(p.Said()).toks + [Op(k)], IsCloser(k), Some(k), true)
      ensures EndsStatement(k) <==> IsCloser(k)
    {
      hide MayFollow, Stops, Printer.Valid, Printer.Said, Printer.Level;
      Follows(p.Said(), k);
      p.WriteToken(k);
    }

    // A bracket or a unary operator that starts an expression.
    method WriteOpening(k: Kind)
      requires p.Valid() && Opening(p.Said()) && IsOpener(k)
      modifies p
      ensures p.Valid() && p.Level() == old(p.Level()) && p.whitespace == [] && p.lastTok == k
      ensures p.Said() == Reading(old(p.Said()).toks + [Op(k)], false, Some(k), true)
    {
      hide MayFollow, Stops, Printer.Valid, Printer.Said, Printer.Level;
      StartsExpression(p.Said(), Op(k));
      p.WriteToken(k);
    }

    method WriteName(syms: seq<Sym>, tok: Kind)
      requires p.Valid() && |syms| == 1 && MayFollow(p.Said().last, syms[0]) && p.Said().clean
              && Solid(SymText(syms[0]))
      modifies p
      ensures p.Valid() && p.Level() == old(p.Level()) && p.whitespace == [] && p.lastTok == tok
      ensures p.Said() == Reading(old(p.Said()).toks + syms, EndsStatement(syms[0].kind), Some(syms[0].kind), true)
    {
      hide MayFollow, Stops, EndsStatement, SymText, Printer.Valid, Printer.Said, Printer.Level;
      assert syms == [syms[0]] && syms[..0] == [];
      p.WriteWord(syms, tok);
    }

    method WalkExpr(e: Expr)
      requires p.Valid() && Walkable(e) && Opening(p.Said()) && p.Level() >= 0
      modifies p
      ensures Wrote(old(p.Said()), old(p.Level()), Unparse(Canon(e, lines)))
      decreases e, 1
    {
      hide MayFollow, Stops, EndsStatement, IsIdentifier, Lexeme, ReadSym, ReadSyms, Printer.Valid, Printer.Said,
           Printer.Level;
      match e
      case Literal(kind, text, _) => WalkLeaf(Sym(kind, text));
      case Identifier(name, _) => IdentifierLexeme(name); WalkLeaf(Sym(IDENT, name));
      case Array(_, _, _) => WalkArrayExpr(e);
      case Object(_, _, _) => WalkObjectExpr(e);
      case Access(_, _, _) => WalkAccessExpr(e);
      case Index(_, _, _, _) => WalkIndexExpr(e);
      case Call(_, _, _, _) => WalkCallExpr(e);
      case Unary(_, _, _) => WalkUnaryExpr(e);
      case Binary(_, _, _, _) => WalkBinaryExpr(e);
      case Paren(_, _, _) => WalkParenExpr(e);
    }

    method WalkLeaf(sym: Sym)
      requires p.Valid() && Opening(p.Said())
      requires Lexeme(sym)
      modifies p
      ensures Wrote(old(p.Said()), old(p.Level()), [sym])
    {
      hide MayFollow, Stops, Lexeme, Printer.Valid, Printer.Said, Printer.Level;
      StartsExpression(p.Said(), sym);
      LexemeText(sym);
      WriteName([sym], sym.kind);
    }

    method WalkAccessExpr(e: Expr)
      requires e.Access? && p.Valid() && Walkable(e) && Opening(p.Said()) && p.Level() >= 0
      modifies p
      ensures Wrote(old(p.Said()), old(p.Level()), Unparse(Canon(e, lines)))
      decreases e, 0
    {
      hide IsIdentifier, Lexeme, Stops, ReadSyms, Printer.Valid, Printer.Said, Printer.Level;
      ghost var b, u := p.Said().toks, Unparse(Canon(e.value, lines));
      WalkExpr(e.value);
      Follows(p.Said(), DOT);
      AfterDot(e.name);
      p.WriteToken(DOT);
      WriteName([Sym(IDENT, e.name)], IDENT);
      assert [Op(DOT)] + [Sym(IDENT, e.name)] == [Op(DOT), Sym(IDENT, e.name)];
      Three(b, u, [Op(DOT)], [Sym(IDENT, e.name)]);
      Two(u, [Op(DOT)], [Sym(IDENT, e.name)]);
    }

    method WalkIndexExpr(e: Expr)
      requires e.Index? && p.Valid() && Walkable(e) && Opening(p.Said()) && p.Level() >= 0
      modifies p
      ensures Wrote(old(p.Said()), old(p.Level()), Unparse(Canon(e, lines)))
      decreases e, 0
    {
      hide IsIdentifier, Lexeme, ReadSyms, Printer.Valid, Printer.Said, Printer.Level;
      ghost var b, u, v := p.Said().toks, Unparse(Canon(e.value, lines)), Unparse(Canon(e.index, lines));
      WalkExpr(e.value);
      WriteClosing(LBRACK);
      WalkExpr(e.index);
      WriteClosing(RBRACK);
      Four(b, u, [Op(LBRACK)], v, [Op(RBRACK)]);
    }

    method WalkUnaryExpr(e: Expr)
      requires e.Unary? && p.Valid() && Walkable(e) && Opening(p.Said()) && p.Level() >= 0
      modifies p
      ensures Wrote(old(p.Said()), old(p.Level()), Unparse(Canon(e, lines)))
      decreases e, 0
    {
      hide IsIdentifier, Lexeme, EndsStatement, Printer.Valid, Printer.Said, Printer.Level;
      ghost var b, u := p.Said().toks, Unparse(Canon(e.operand, lines));
      WriteOpening(e.op);
      WalkExpr(e.operand);
      Two(b, [Op(e.op)], u);
    }

    method WalkBinaryExpr(e: Expr)
      requires e.Binary? && p.Valid() && Walkable(e) && Opening(p.Said()) && p.Level() >= 0
      modifies p
      ensures Wrote(old(p.Said()), old(p.Level()), Unparse(Canon(e, lines)))
      decreases e, 0
    {
      hide IsIdentifier, Lexeme, EndsStatement, Printer.Valid, Printer.Said, Printer.Level;
      ghost var b, u, v := p.Said().toks, Unparse(Canon(e.left, lines)), Unparse(Canon(e.right, lines));
      WalkExpr(e.left);
      p.WriteSpace(Blank);
      p.WriteToken(e.op);
      p.WriteSpace(Blank);
      WalkExpr(e.right);
      Three(b, u, [Op(e.op)], v);
    }

    method WalkParenExpr(e: Expr)
      requires e.Paren? && p.Valid() && Walkable(e) && Opening(p.Said()) && p.Level() >= 0
      modifies p
      ensures Wrote(old(p.Said()), old(p.Level()), Unparse(Canon(e, lines)))
      decreases e, 0
    {
      hide IsIdentifier, Lexeme, Printer.Valid, Printer.Said, Printer.Level;
      ghost var b, u := p.Said().toks, Unparse(Canon(e.inner, lines));
      WriteOpening(LPAREN);
      WalkExpr(e.inner);
      WriteClosing(RPAREN);
      Three(b, [Op(LPAREN)], u, [Op(RPAREN)]);
    }

    // Within a list, b are the tokens before it and ts those written of it;
    // done says that the last member was written.
    ghost predicate Within(b: seq<Sym>, ts: seq<Sym>, level: int, done: bool)
      reads p
    {
      && p.Valid() && p.Level() == level && p.Said().toks == b + ts && p.Said().ends == done
      && if done then Closed(p.Said()) else Opening(p.Said())
    }

    // A gap between members: no token is read where a line ends.
    method WriteGap(ws: Whitespace)
      requires p.Valid() && p.Said().clean && !p.Said().ends && (ws.Blank? || ws.Newline? || ws.Formfeed?)
      modifies p
      ensures p.Valid() && p.Said() == Reading(old(p.Said()).toks, false, None, true) && p.Level() == old(p.Level())
    {
      hide Printer.Valid, Printer.Said, Printer.Level;
      p.WriteSpace(ws);
    }

    method WalkArrayExpr(e: Expr)
      requires e.Array? && p.Valid() && Walkable(e) && Opening(p.Said()) && p.Level() >= 0
      modifies p
      ensures Wrote(old(p.Said()), old(p.Level()), Unparse(Canon(e, lines)))
      decreases e, 0
    {
      hide Canon, EndsStatement, IsIdentifier, Lexeme, LineOf, EndOf, StartOf, Sofar, Unparse, Printer.Valid,
           Printer.Said, Printer.Level;
      ghost var b, cs := p.Said().toks, CanonList(e.elements, lines);
      WriteOpening(LBRACK);
      var prevPos := WalkElements(e.elements, e.lbrackPos, b + [Op(LBRACK)]);
      if |e.elements| > 0 && DifferentLines(lines, prevPos, e.rbrackPos) {
        WriteSuffix();
      }
      WriteClosing(RBRACK);
      ArrayTokens(e, lines, b);
      Empty(b + [Op(LBRACK)] + Sofar(cs, |cs|));
    }

    // The comma after the last element, and the line that follows it, indented
    // for comments.
    method WriteSuffix()
      requires p.Valid() && Closed(p.Said()) && p.Level() >= 0
      modifies p
      ensures p.Valid() && p.Level() == old(p.Level())
      ensures p.Said() == Reading(old(p.Said()).toks + [Op(COMMA)], false, None, true)
    {
      hide EndsStatement, Printer.Valid, Printer.Said, Printer.Level;
      WriteClosing(COMMA);
      p.WriteSpace(Indent);
      WriteGap(Formfeed);
      p.WriteSpace(Unindent);
    }

    // The loop over the elements of an array, after the tokens b.
    method WalkElements(elements: seq<Expr>, open: Pos, ghost b: seq<Sym>) returns (prevPos: Pos)
      requires p.Valid() && Opening(p.Said()) && !p.Said().ends && p.Level() >= 0 && p.Said().toks == b
      requires forall i :: 0 <= i < |elements| ==> Walkable(elements[i])
      modifies p
      ensures Within(b, Sofar(CanonList(elements, lines), |elements|), old(p.Level()), elements != [])
      ensures prevPos == ListEnd(elements, open)
      decreases elements, 3
    {
      hide Canon, CanonList, EndsStatement, IsIdentifier, Lexeme, LineOf, EndOf, StartOf, Sofar, Unparse, Walkable,
           Printer.Valid, Printer.Said, Printer.Level;
      ghost var level, cs := p.Level(), CanonList(elements, lines);
      SofarNone(cs);
      Empty(b);
      prevPos := open;
      var i := 0;
      while i < |elements|
        invariant i <= |elements| && prevPos == if i == 0 then open else EndOf(elements[i - 1])
        invariant Within(b, Sofar(cs, i), level, i > 0 && i == |elements|)
      {
        var addedNewline := false;
        if DifferentLines(lines, prevPos, StartOf(elements[i])) {
          p.WriteSpace(Indent);
          WriteGap(Formfeed);
          addedNewline := true;
        } else if i > 0 {
          WriteGap(Blank);
        }
        prevPos := EndOf(elements[i]);
        WalkMember(elements[i], i + 1 < |elements|, b, cs, i);
        if addedNewline {
          p.WriteSpace(Unindent);
        }
        i := i + 1;
      }
    }

    // A member, and a comma if another follows.
    method WalkMember(e: Expr, more: bool, ghost b: seq<Sym>, ghost cs: seq<Cst>, ghost i: nat)
      requires p.Valid() && Walkable(e) && Opening(p.Said()) && p.Level() >= 0
      requires i < |cs| && (more <==> i + 1 < |cs|) && cs[i] == Canon(e, lines) && p.Said().toks == b + Sofar(cs, i)
      modifies p
      ensures Within(b, Sofar(cs, i + 1), old(p.Level()), i + 1 == |cs|)
      decreases e, 2
    {
      hide Canon, IsIdentifier, Lexeme, Unparse, Printer.Valid, Printer.Said, Printer.Level;
      WalkExpr(e);
      Two(b, Sofar(cs, i), Unparse(cs[i]));
      if more {
        WriteClosing(COMMA);
      }
    }

    method WalkObjectExpr(e: Expr)
      requires e.Object? && p.Valid() && Walkable(e) && Opening(p.Said()) && p.Level() >= 0
      modifies p
      ensures Wrote(old(p.Said()), old(p.Level()), Unparse(Canon(e, lines)))
      decreases e, 0
    {
      hide Canon, EndsStatement, IsIdentifier, Lexeme, ProperField, LineOf, FieldsSofar, Unparse, TextEnd,
           Printer.Valid, Printer.Said, Printer.Level;
      ghost var b, cs := p.Said().toks, CanonFields(e.fields, lines);
      WriteOpening(LCURLY);
      p.WriteSpace(Indent);
      var prevPos := WalkFields(e.fields, e.lcurlyPos, b + [Op(LCURLY)]);
      if |e.fields| > 0 && DifferentLines(lines, prevPos, e.rcurlyPos) {
        WriteClosing(COMMA);
        WriteGap(Formfeed);
      }
      p.WriteSpace(Unindent);
      WriteClosing(RCURLY);
      ObjectTokens(e, lines, b);
      Empty(b + [Op(LCURLY)] + FieldsSofar(cs, |cs|));
    }

    method WalkFields(fields: seq<Field>, open: Pos, ghost b: seq<Sym>) returns (prevPos: Pos)
      requires p.Valid() && Opening(p.Said()) && !p.Said().ends && p.Level() >= 0 && p.Said().toks == b
      requires forall i :: 0 <= i < |fields| ==> Walkable(fields[i].value) && ProperField(fields[i])
      modifies p
      ensures Within(b, FieldsSofar(CanonFields(fields, lines), |fields|), old(p.Level()), fields != [])
      ensures prevPos == NamesEnd(fields, open)
      decreases fields, 4
    {
      hide Canon, CanonFields, EndsStatement, IsIdentifier, Lexeme, ProperField, LineOf, EndOf, StartOf, FieldKey,
           FieldsSofar, Unparse, Walkable, TextEnd, NodeLines, Printer.Valid, Printer.Said, Printer.Level;
      ghost var level, cs := p.Level(), CanonFields(fields, lines);
      FieldsSofarNone(cs);
      Empty(b);
      prevPos := open;
      var i := 0;
      while i < |fields|
        invariant i <= |fields|
        invariant prevPos == if i == 0 then open else TextEnd(fields[i - 1].namePos, fields[i - 1].name)
        invariant Within(b, FieldsSofar(cs, i), level, i > 0 && i == |fields|)
      {
        var field := fields[i];
        if DifferentLines(lines, prevPos, field.namePos) {
          if i > 0 && NodeLines(lines, StartOf(fields[i - 1].value), EndOf(fields[i - 1].value)) == 1 {
            WriteGap(Newline);
          } else {
            WriteGap(Formfeed);
          }
        } else if i > 0 {
          WriteGap(Blank);
        }
        prevPos := TextEnd(field.namePos, field.name);
        WalkField(field, i + 1 < |fields|, b, cs, i);
        i := i + 1;
      }
    }

    // A field, and a comma if another follows.
    method WalkField(f: Field, more: bool, ghost b: seq<Sym>, ghost cs: seq<CField>, ghost i: nat)
      requires p.Valid() && Walkable(f.value) && ProperField(f) && Opening(p.Said()) && p.Level() >= 0
      requires i < |cs| && (more <==> i + 1 < |cs|) && cs[i] == CField(FieldKey(f), Canon(f.value, lines))
      requires p.Said().toks == b + FieldsSofar(cs, i)
      modifies p
      ensures Within(b, FieldsSofar(cs, i + 1), old(p.Level()), i + 1 == |cs|)
      decreases f, 3
    {
      hide Canon, IsIdentifier, Lexeme, ProperField, FieldKey, Unparse, MayFollow, Stops, Printer.Valid,
           Printer.Said, Printer.Level;
      ghost var key, value := FieldKey(f), Unparse(Canon(f.value, lines));
      KeyStarts(p.Said(), f);
      WriteName([FieldKey(f)], if f.quoted then STRING else IDENT);
      WriteAssign();
      WalkExpr(f.value);
      FieldTokens(b, FieldsSofar(cs, i), key, value);
      if more {
        WriteClosing(COMMA);
        Two(b, FieldsSofar(cs, i) + UnparseField(cs[i]), [Op(COMMA)]);
      }
    }

    method WriteAssign()
      requires p.Valid() && p.Said().clean
      modifies p
      ensures p.Valid() && p.Said() == Reading(old(p.Said()).toks + [Op(ASSIGN)], false, None, true)
      ensures p.Level() == old(p.Level())
    {
      hide Printer.Valid, Printer.Said, Printer.Level;
      p.WriteSpace(VTab);
      p.WriteToken(ASSIGN);
      p.WriteSpace(Blank);
    }

    method WalkCallExpr(e: Expr)
      requires e.Call? && p.Valid() && Walkable(e) && Opening(p.Said()) && p.Level() >= 0
      modifies p
      ensures Wrote(old(p.Said()), old(p.Level()), Unparse(Canon(e, lines)))
      decreases e, 0
    {
      hide Canon, EndsStatement, IsIdentifier, Lexeme, LineOf, EndOf, StartOf, Sofar, Unparse, Printer.Valid,
           Printer.Said, Printer.Level;
      ghost var b, v, cs := p.Said().toks, Unparse(Canon(e.value, lines)), CanonList(e.args, lines);
      WalkExpr(e.value);
      WriteClosing(LPAREN);
      var prevPos := WalkArgs(e.args, e.lparenPos, b + v + [Op(LPAREN)]);
      if DifferentLines(lines, prevPos, e.rparenPos) {
        WriteClosing(COMMA);
        WriteGap(Formfeed);
      }
      WriteClosing(RPAREN);
      CallTokens(e, lines, b);
      Empty(b + v + [Op(LPAREN)] + Sofar(cs, |cs|));
    }

    method WalkArgs(args: seq<Expr>, open: Pos, ghost b: seq<Sym>) returns (prevPos: Pos)
      requires p.Valid() && Opening(p.Said()) && !p.Said().ends && p.Level() >= 0 && p.Said().toks == b
      requires forall i :: 0 <= i < |args| ==> Walkable(args[i])
      modifies p
      ensures Within(b, Sofar(CanonList(args, lines), |args|), old(p.Level()), args != [])
      ensures prevPos == ListEnd(args, open)
      decreases args, 3
    {
      hide Canon, CanonList, EndsStatement, IsIdentifier, Lexeme, LineOf, EndOf, StartOf, Sofar, Unparse, Walkable,
           Printer.Valid, Printer.Said, Printer.Level;
      ghost var level, cs := p.Level(), CanonList(args, lines);
      SofarNone(cs);
      Empty(b);
      prevPos := open;
      var i := 0;
      while i < |args|
        invariant i <= |args| && prevPos == if i == 0 then open else EndOf(args[i - 1])
        invariant Within(b, Sofar(cs, i), level, i > 0 && i == |args|)
      {
        var addedNewline := false;
        if DifferentLines(lines, prevPos, StartOf(args[i])) {
          WriteGap(Formfeed);
          p.WriteSpace(Indent);
          addedNewline := true;
        }
        WalkMember(args[i], i + 1 < |args|, b, cs, i);
        prevPos := EndOf(args[i]);
        if i + 1 < |args| {
          WriteGap(Blank);
        }
        if addedNewline {
          p.WriteSpace(Unindent);
        }
        i := i + 1;
      }
    }

    // A statement was written from the reading r.
    ghost predicate WroteStmt(r: Reading, level: int, s: Stmt)
      reads p
    {
      && p.Valid() && p.Level() == level && Closed(p.Said())
      && p.Said().toks == r.toks + UnparseStmt(CanonStmt(s, lines))
    }

    method WalkFile(body: seq<Stmt>)
      requires p.Valid() && p.Said() == NOTHING && p.Level() == 0
      requires forall i :: 0 <= i < |body| ==> WalkableStmt(body[i])
      modifies p
      ensures p.Valid() && p.Level() == 0
      ensures p.Said() == Reading(UnparseBody(CanonBody(body, lines), body != []), false, None, true)
    {
      WalkStmts(body);
    }

    method WalkStmts(ss: seq<Stmt>)
      requires p.Valid() && Fresh(p.Said()) && p.Level() >= 0
      requires forall i :: 0 <= i < |ss| ==> WalkableStmt(ss[i])
      modifies p
      ensures p.Valid() && Fresh(p.Said()) && p.Level() == old(p.Level())
      ensures p.Said().toks == old(p.Said()).toks + UnparseBody(CanonBody(ss, lines), ss != [])
      decreases ss, 2
    {
      hide CanonStmt, CanonBody, EndsStatement, LineOf, Terminated, UnparseStmt, UnparseBody, WalkableStmt,
           StmtStart, StmtEnd, NodeLines, Printer.Valid, Printer.Said, Printer.Level;
      ghost var b, level, cs := p.Said().toks, p.Level(), CanonBody(ss, lines);
      NoneTerminated(cs);
      Empty(b);
      for i := 0 to |ss|
        invariant p.Valid() && Fresh(p.Said()) && p.Level() == level
        invariant p.Said().toks == b + Terminated(cs, i)
      {
        var addedSpacing := false;
        if i > 0 && ss[i].Block? {
          p.WriteSpace(Formfeed);
          addedSpacing := true;
        }
        if i > 0 && !addedSpacing {
          var prevLine: int, curLine: int := LineOf(lines, StmtEnd(ss[i - 1])), LineOf(lines, StmtStart(ss[i]));
          if curLine - prevLine > 1 {
            p.WriteSpace(Formfeed);
          }
        }
        WalkStmt(ss[i]);
        if NodeLines(lines, StmtStart(ss[i]), StmtEnd(ss[i])) > 1 {
          p.WriteSpace(Formfeed);
        } else {
          p.WriteSpace(Newline);
        }
        OneTerminated(cs, i, b);
      }
      TerminatedAll(cs);
    }

    method WalkStmt(s: Stmt)
      requires p.Valid() && Fresh(p.Said()) && p.Level() >= 0 && WalkableStmt(s)
      modifies p
      ensures WroteStmt(old(p.Said()), old(p.Level()), s)
      decreases s, 1
    {
      hide Fresh, Closed, UnparseStmt, CanonStmt, IsIdentifier, Printer.Valid, Printer.Said, Printer.Level;
      match s
      case Attribute(_, _, _) => WalkAttributeStmt(s);
      case Block(_, _, _, _, _, _, _) => WalkBlockStmt(s);
    }

    method WalkAttributeStmt(s: Stmt)
      requires s.Attribute? && p.Valid() && Fresh(p.Said()) && p.Level() >= 0 && WalkableStmt(s)
      modifies p
      ensures WroteStmt(old(p.Said()), old(p.Level()), s)
      decreases s, 0
    {
      hide IsIdentifier, EndsStatement, Unparse, Stops, Canon, Printer.Valid, Printer.Said, Printer.Level;
      ghost var b, u := p.Said().toks, Unparse(Canon(s.value, lines));
      AfterDot(s.name);
      WriteName([Sym(IDENT, s.name)], IDENT);
      WriteAssign();
      WalkExpr(s.value);
      Three(b, [Sym(IDENT, s.name)], [Op(ASSIGN)], u);
      assert [Sym(IDENT, s.name)] + [Op(ASSIGN)] == [Sym(IDENT, s.name), Op(ASSIGN)];
    }

    method WalkBlockStmt(s: Stmt)
      requires s.Block? && p.Valid() && Fresh(p.Said()) && p.Level() >= 0 && WalkableStmt(s)
      modifies p
      ensures WroteStmt(old(p.Said()), old(p.Level()), s)
      decreases s, 0
    {
      hide IsIdentifier, CanonStmt, CanonBody, UnparseNames, UnparseBody, UnparseStmt, Stops, Quote, Printer.Valid,
           Printer.Said, Printer.Level;
      ghost var b := p.Said().toks;
      WriteHeader(s);
      p.WriteSpace(Indent);
      if |s.body| > 0 {
        p.WriteSpace(Formfeed);
        WalkStmts(s.body);
      } else {
        p.WriteSpace(Blank);
        NoBody(lines);
        Empty(p.Said().toks);
      }
      p.WriteSpace(Unindent);
      p.WriteToken(RCURLY);
      BlockTokens(s, lines, b);
    }

    // The name of a block, its label if it has one, and the bracket.
    method WriteHeader(s: Stmt)
      requires s.Block? && p.Valid() && Fresh(p.Said()) && WalkableStmt(s)
      modifies p
      ensures p.Valid() && p.Level() == old(p.Level())
      ensures p.Said() == Reading(old(p.Said()).toks + UnparseNames(s.names)
                                  + (if s.tag == "" then [] else [Sym(STRING, Quote(s.tag))]) + [Op(LCURLY)], false,
                                      Some(LCURLY), true)
    {
      hide IsIdentifier, UnparseNames, WordText, Stops, ReadSyms, Quote, Printer.Valid, Printer.Said, Printer.Level;
      ghost var b := p.Said().toks;
      ReadNames(p.Said(), s.names);
      p.WriteWord(UnparseNames(s.names), IDENT);
      if s.tag != "" {
        p.WriteSpace(Blank);
        QuoteSolid(s.tag);
        WriteName([Sym(STRING, Quote(s.tag))], STRING);
      } else {
        Empty(b + UnparseNames(s.names));
      }
      p.WriteSpace(Blank);
      p.WriteToken(LCURLY);
    }
  }
}
