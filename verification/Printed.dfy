// The printed file is parsed again: to the tree it was printed from, or it is
// rejected for a call without arguments that spans lines.
module PrintedFiles {
  import opened Tokens
  import opened Syntax
  import Lines
  import opened Grammar
  import opened Soundness
  import opened CompletenessStmts
  import opened Trees
  import opened Quoting
  import opened Lexemes
  import opened Printers
  import opened Canonical
  import opened RoundTrips
  import opened Likeness

  // ---- the printed tree is one of the grammar ----

  lemma {:induction false} AlikeShaped(c: Cst, d: Cst)
    requires Shaped(c) && Lexical(c) && Alike(c, d)
    ensures Shaped(d) && Lexical(d) && Level(d) == Level(c)
    decreases c, 1
  {
    hide ProperSym, IsIdentifier, AlikeList, AlikeFields, ShapedField;
    match c
    case CLit(_) =>
    case CName(_) =>
    case CArray(elems, _) => AlikeListShaped(elems, d.elems);
    case CObject(fields, _) => AlikeFieldsShaped(fields, d.fields);
    case CAccess(value, _) => AlikeShaped(value, d.value);
    case CIndex(value, index) => AlikeShaped(value, d.value); AlikeShaped(index, d.index);
    case CCall(value, args, _) => AlikeShaped(value, d.value); AlikeListShaped(args, d.elems);
    case CUnary(_, operand) => AlikeShaped(operand, d.operand);
    case CBinary(_, left, right) => AlikeShaped(left, d.left); AlikeShaped(right, d.right);
    case CParen(inner) => AlikeShaped(inner, d.inner);
  }

  lemma {:induction false} AlikeListShaped(cs: seq<Cst>, ds: seq<Cst>)
    requires AlikeList(cs, ds) && forall i :: 0 <= i < |cs| ==> Shaped(cs[i]) && Lexical(cs[i])
    ensures forall i :: 0 <= i < |ds| ==> Shaped(ds[i]) && Lexical(ds[i])
    decreases cs, 2
  {
    hide Shaped, Lexical, Alike;
    if cs != [] {
      AlikeShaped(cs[0], ds[0]);
      AlikeListShaped(cs[1..], ds[1..]);
      assert forall i :: 1 <= i < |ds| ==> ds[i] == ds[1..][i - 1];
    }
  }

  lemma {:induction false} AlikeFieldShaped(c: CField, d: CField)
    requires ShapedField(c) && ProperSym(c.key) && Lexical(c.value) && AlikeField(c, d)
    ensures ShapedField(d) && ProperSym(d.key) && Lexical(d.value)
    decreases c, 1
  {
    hide Shaped, Alike, Lexical, Lexeme, Quote, FieldName;
    QuoteLexeme(FieldName(c.key));
    AlikeShaped(c.value, d.value);
  }

  lemma {:induction false} AlikeFieldsShaped(cs: seq<CField>, ds: seq<CField>)
    requires AlikeFields(cs, ds)
    requires forall i :: 0 <= i < |cs| ==> ShapedField(cs[i]) && ProperSym(cs[i].key) && Lexical(cs[i].value)
    ensures forall i :: 0 <= i < |ds| ==> ShapedField(ds[i]) && ProperSym(ds[i].key) && Lexical(ds[i].value)
    decreases cs, 2
  {
    hide ShapedField, ProperSym, Lexical, AlikeField;
    if cs != [] {
      AlikeFieldShaped(cs[0], ds[0]);
      AlikeFieldsShaped(cs[1..], ds[1..]);
      assert forall i :: 1 <= i < |ds| ==> ds[i] == ds[1..][i - 1];
    }
  }

  predicate AllLexical(ss: seq<CStmt>) {
    forall k :: 0 <= k < |ss| ==> LexicalStmt(ss[k])
  }

  lemma {:induction false} CanonStmtShaped(c: CStmt, toks: seq<Token>, i: nat, lines: seq<nat>)
    requires ShapedStmt(c) && LexicalStmt(c)
    ensures ShapedStmt(CanonStmt(BuildStmt(c, toks, i), lines)) && LexicalStmt(CanonStmt(BuildStmt(c, toks, i), lines))
    decreases c, 1
  {
    hide Canon, CanonBody, Build, BuildBody, UnparseNames, UnparseBody, UnparseTag, LabelName, LabelOk, Quote,
         Lexical, Shaped, IsIdentifier, Lexeme;
    match c
    case CAttribute(_, value) =>
      CanonAlike(value, toks, i + 2, lines);
      AlikeShaped(value, Canon(Build(value, toks, i + 2), lines));
    case CBlock(names, tag, body, _) =>
      var k := i + |UnparseNames(names)| + |UnparseTag(tag)| + 1;
      LabelAlike(tag);
      if LabelName(tag) != "" {
        LabelComesBack(LabelName(tag));
        QuoteLexeme(LabelName(tag));
      }
      CanonBodyShaped(body, toks, k, lines);
  }

  lemma {:induction false} CanonBodyShaped(cs: seq<CStmt>, toks: seq<Token>, i: nat, lines: seq<nat>)
    requires forall k :: 0 <= k < |cs| ==> ShapedStmt(cs[k]) && LexicalStmt(cs[k])
    ensures AllStmtsShaped(CanonBody(BuildBody(cs, toks, i), lines))
            && AllLexical(CanonBody(BuildBody(cs, toks, i), lines))
    decreases cs, 2
  {
    hide ShapedStmt, LexicalStmt, BuildStmt, CanonStmt, UnparseStmt;
    if cs != [] {
      var s, ss := BuildStmt(cs[0], toks, i), BuildBody(cs[1..], toks, i + |UnparseStmt(cs[0])| + 1);
      CanonStmtShaped(cs[0], toks, i, lines);
      CanonBodyShaped(cs[1..], toks, i + |UnparseStmt(cs[0])| + 1, lines);
      CanonBodyCons(s, ss, lines);
      var ds := CanonBody(BuildBody(cs, toks, i), lines);
      assert ds[0] == CanonStmt(s, lines) && ds[1..] == CanonBody(ss, lines);
      assert forall k :: 1 <= k < |ds| ==> ds[k] == ds[1..][k - 1];
    }
  }

  // ---- the tokens of a tree of the grammar can come from the scanner ----

  // A lexeme, or an operator or a terminator.
  predicate Scannable(s: Sym) {
    Lexeme(s) || (s == Op(s.kind) && IsOperator(s.kind))
  }

  predicate IsOperator(k: Kind) {
    !HasText(k) && (k.TERMINATOR? || Text(k) != "")
  }

  predicate AllScannable(ts: seq<Sym>) {
    forall s :: s in ts ==> Scannable(s)
  }

  lemma ScannableParts(a: seq<Sym>, b: seq<Sym>)
    ensures AllScannable(a + b) <==> AllScannable(a) && AllScannable(b)
  {
    assert forall s :: s in a + b <==> s in a || s in b;
  }

  lemma OneScannable(s: Sym)
    ensures AllScannable([s]) <==> Scannable(s)
  {
    if AllScannable([s]) {
      assert s in [s];
    }
  }

  // Two parts around an operator, a part between brackets, and a part before an operator.
  lemma ScannableAround(a: seq<Sym>, k: Kind, b: seq<Sym>)
    requires AllScannable(a) && AllScannable(b) && IsOperator(k)
    ensures AllScannable(a + [Op(k)] + b)
  {
    hide AllScannable;
    OneScannable(Op(k));
    ScannableParts(a + [Op(k)], b);
    ScannableParts(a, [Op(k)]);
  }

  lemma ScannableBetween(a: seq<Sym>, o: Kind, b: seq<Sym>, c: Kind)
    requires AllScannable(a) && AllScannable(b) && IsOperator(o) && IsOperator(c)
    ensures AllScannable(a + [Op(o)] + b + [Op(c)])
  {
    hide AllScannable;
    ScannableAround(a, o, b);
    OneScannable(Op(c));
    ScannableParts(a + [Op(o)] + b, [Op(c)]);
  }

  lemma ScannableEnclosed(o: Kind, b: seq<Sym>, c: Kind)
    requires AllScannable(b) && IsOperator(o) && IsOperator(c)
    ensures AllScannable([Op(o)] + b + [Op(c)])
  {
    hide AllScannable;
    OneScannable(Op(o));
    OneScannable(Op(c));
    ScannableParts([Op(o)], b);
    ScannableParts([Op(o)] + b, [Op(c)]);
  }

  lemma ScannablePair(s: Sym, t: Sym)
    requires Scannable(s) && Scannable(t)
    ensures AllScannable([s, t])
  {
  }

  // A part with or without a last operator.
  lemma ScannableWith(a: seq<Sym>, k: Kind, b: bool)
    requires AllScannable(a) && IsOperator(k)
    ensures AllScannable(a + (if b then [Op(k)] else [])) && AllScannable(if b then [Op(k)] else [])
  {
    ScannableParts(a, if b then [Op(k)] else []);
  }

  lemma Brackets()
    ensures IsOperator(LPAREN) && IsOperator(RPAREN) && IsOperator(LBRACK) && IsOperator(RBRACK) && IsOperator(LCURLY)
  {
  }

  lemma Marks()
    ensures IsOperator(RCURLY) && IsOperator(COMMA) && IsOperator(DOT) && IsOperator(ASSIGN) && IsOperator(TERMINATOR)
  {
  }

  lemma PrecedenceOperator(k: Kind)
    ensures BinaryPrecedence(k) > 0 || IsUnaryOp(k) ==> IsOperator(k)
  {
  }

  lemma Operators(k: Kind)
    ensures BinaryPrecedence(k) > 0 || IsUnaryOp(k) ==> IsOperator(k)
    ensures IsOperator(LPAREN) && IsOperator(RPAREN) && IsOperator(LBRACK) && IsOperator(RBRACK) && IsOperator(LCURLY)
    ensures IsOperator(RCURLY) && IsOperator(COMMA) && IsOperator(DOT) && IsOperator(ASSIGN) && IsOperator(TERMINATOR)
    ensures IsOperator(k) ==> Scannable(Op(k))
  {
    hide IsOperator, BinaryPrecedence, IsUnaryOp;
    Brackets();
    Marks();
    PrecedenceOperator(k);
  }

  lemma NameScannable(name: string)
    requires IsIdentifier(name)
    ensures Scannable(Sym(IDENT, name))
  {
    IdentifierLexeme(name);
  }

  lemma KeyScannable(key: Sym)
    requires (key.kind == IDENT || IsLiteral(key.kind)) && ProperSym(key)
    ensures Scannable(key)
  {
  }

  lemma {:induction false} ShapedScannable(c: Cst)
    requires Shaped(c) && Lexical(c)
    ensures AllScannable(Unparse(c))
    decreases c, 1
  {
    hide AllScannable, Scannable, IsOperator, IsIdentifier, ProperSym;
    Operators(if c.CUnary? || c.CBinary? then c.op else DOT);
    match c
    case CLit(sym) => KeyScannable(sym); OneScannable(sym);
    case CName(name) => NameScannable(name); OneScannable(Sym(IDENT, name));
    case CArray(elems, comma) =>
      ListScannable(elems, comma);
      ScannableEnclosed(LBRACK, UnparseList(elems, comma), RBRACK);
    case CObject(fields, comma) =>
      FieldsScannable(fields, comma);
      ScannableEnclosed(LCURLY, UnparseFields(fields, comma), RCURLY);
    case CAccess(value, name) =>
      ShapedScannable(value);
      NameScannable(name);
      ScannablePair(Op(DOT), Sym(IDENT, name));
      ScannableParts(Unparse(value), [Op(DOT), Sym(IDENT, name)]);
    case CIndex(value, index) =>
      ShapedScannable(value);
      ShapedScannable(index);
      ScannableBetween(Unparse(value), LBRACK, Unparse(index), RBRACK);
    case CCall(value, args, comma) =>
      ShapedScannable(value);
      ListScannable(args, comma);
      ScannableBetween(Unparse(value), LPAREN, UnparseList(args, comma), RPAREN);
    case CUnary(op, operand) =>
      ShapedScannable(operand);
      OneScannable(Op(op));
      ScannableParts([Op(op)], Unparse(operand));
    case CBinary(op, left, right) =>
      ShapedScannable(left);
      ShapedScannable(right);
      ScannableAround(Unparse(left), op, Unparse(right));
    case CParen(inner) =>
      ShapedScannable(inner);
      ScannableEnclosed(LPAREN, Unparse(inner), RPAREN);
  }

  lemma {:induction false} ListScannable(cs: seq<Cst>, comma: bool)
    requires forall i :: 0 <= i < |cs| ==> Shaped(cs[i]) && Lexical(cs[i])
    ensures AllScannable(UnparseList(cs, comma))
    decreases cs, 2
  {
    hide AllScannable, Unparse, Shaped, Lexical, IsOperator;
    Operators(COMMA);
    if cs == [] {
      ScannableNone();
      ScannableWith([], COMMA, comma);
    } else {
      ShapedScannable(cs[0]);
      if |cs| == 1 {
        ScannableWith(Unparse(cs[0]), COMMA, comma);
      } else {
        ListScannable(cs[1..], comma);
        ScannableAround(Unparse(cs[0]), COMMA, UnparseList(cs[1..], comma));
      }
    }
  }

  lemma ScannableNone()
    ensures AllScannable([])
  {
  }

  lemma {:induction false} FieldScannable(f: CField)
    requires ShapedField(f) && ProperSym(f.key) && Lexical(f.value)
    ensures AllScannable(UnparseField(f))
    decreases f, 1
  {
    hide AllScannable, Unparse, Shaped, Lexical, ProperSym, Scannable, IsOperator;
    Operators(ASSIGN);
    KeyScannable(f.key);
    ShapedScannable(f.value);
    ScannablePair(f.key, Op(ASSIGN));
    ScannableParts([f.key, Op(ASSIGN)], Unparse(f.value));
  }

  lemma {:induction false} FieldsScannable(fs: seq<CField>, comma: bool)
    requires forall i :: 0 <= i < |fs| ==> ShapedField(fs[i]) && ProperSym(fs[i].key) && Lexical(fs[i].value)
    ensures AllScannable(UnparseFields(fs, comma))
    decreases fs, 2
  {
    hide AllScannable, UnparseField, ShapedField, Lexical, ProperSym, IsOperator;
    Operators(COMMA);
    if fs == [] {
      ScannableNone();
      ScannableWith([], COMMA, comma);
    } else {
      FieldScannable(fs[0]);
      if |fs| == 1 {
        ScannableWith(UnparseField(fs[0]), COMMA, comma);
      } else {
        FieldsScannable(fs[1..], comma);
        ScannableAround(UnparseField(fs[0]), COMMA, UnparseFields(fs[1..], comma));
      }
    }
  }

  lemma {:induction false} NamesScannable(names: seq<string>)
    requires forall i :: 0 <= i < |names| ==> IsIdentifier(names[i])
    ensures AllScannable(UnparseNames(names))
  {
    hide AllScannable, Scannable, IsIdentifier, IsOperator;
    Operators(DOT);
    if names != [] {
      NameScannable(names[0]);
    }
    if names == [] {
      ScannableNone();
    } else if |names| == 1 {
      OneScannable(Sym(IDENT, names[0]));
    } else {
      NamesScannable(names[1..]);
      ScannablePair(Sym(IDENT, names[0]), Op(DOT));
      ScannableParts([Sym(IDENT, names[0]), Op(DOT)], UnparseNames(names[1..]));
    }
  }

  lemma TagScannable(tag: Option<string>)
    requires tag.Some? ==> Lexeme(Sym(STRING, tag.value))
    ensures AllScannable(UnparseTag(tag))
  {
  }

  lemma {:induction false} StmtScannable(s: CStmt)
    requires ShapedStmt(s) && LexicalStmt(s)
    ensures AllScannable(UnparseStmt(s))
    decreases s, 1
  {
    hide AllScannable, Unparse, UnparseNames, UnparseTag, UnparseBody, Shaped, LabelOk, Lexical, IsOperator,
         IsIdentifier, Lexeme, Scannable;
    Operators(ASSIGN);
    match s
    case CAttribute(name, value) =>
      ShapedScannable(value);
      NameScannable(name);
      ScannablePair(Sym(IDENT, name), Op(ASSIGN));
      ScannableParts([Sym(IDENT, name), Op(ASSIGN)], Unparse(value));
    case CBlock(names, tag, body, term) =>
      NamesScannable(names);
      TagScannable(tag);
      ScannableParts(UnparseNames(names), UnparseTag(tag));
      BodyScannable(body, term);
      ScannableBetween(UnparseNames(names) + UnparseTag(tag), LCURLY, UnparseBody(body, term), RCURLY);
  }

  lemma {:induction false} BodyScannable(ss: seq<CStmt>, term: bool)
    requires forall i :: 0 <= i < |ss| ==> ShapedStmt(ss[i]) && LexicalStmt(ss[i])
    ensures AllScannable(UnparseBody(ss, term))
    decreases ss, 2
  {
    hide AllScannable, UnparseStmt, ShapedStmt, LexicalStmt, IsOperator;
    Operators(TERMINATOR);
    if ss == [] {
      ScannableNone();
      ScannableWith([], TERMINATOR, term);
    } else {
      StmtScannable(ss[0]);
      if |ss| == 1 {
        ScannableWith(UnparseStmt(ss[0]), TERMINATOR, term);
      } else {
        BodyScannable(ss[1..], term);
        ScannableAround(UnparseStmt(ss[0]), TERMINATOR, UnparseBody(ss[1..], term));
      }
    }
  }

  lemma FileLexed(ss: seq<CStmt>, term: bool)
    requires AllStmtsShaped(ss) && AllLexical(ss)
    ensures Lexed(FileTokens(ss, term)) && AllScannable(UnparseBody(ss, term))
  {
    hide UnparseBody;
    BodyScannable(ss, term);
    var ts := FileTokens(ss, term);
    forall i | 0 <= i < |ts| - 1
      ensures Scannable(ts[i])
    {
      assert ts[i] == UnparseBody(ss, term)[i];
    }
  }

  // ---- the main results ----

  // A parsed file, from the tokens ts.
  ghost predicate Parsed(ts: seq<Sym>, toks: seq<Token>, body: seq<Stmt>) {
    && Lexed(ts) && AllProper(ts) && ts == Syms(toks) && File(ts).Ok?
    && body == BuildBody(File(ts).val.members, toks, 0)
  }

  // The tokens the walker writes for it.
  function PrintedTokens(body: seq<Stmt>, lines: seq<nat>): seq<Sym> {
    FileTokens(CanonBody(body, lines), body != [])
  }

  lemma ParsedTree(ts: seq<Sym>, toks: seq<Token>, body: seq<Stmt>)
    requires Parsed(ts, toks, body)
    ensures var b := File(ts).val;
            && UnparseBody(b.members, b.comma) + [Op(EOF)] == ts && |b.members| == |body|
            && forall k :: 0 <= k < |b.members| ==> ShapedStmt(b.members[k]) && LexicalStmt(b.members[k])
  {
    hide File, UnparseBody, ShapedStmt, LexicalStmt, ProperSym, BuildBody, Lexed;
    var b := File(ts).val;
    FileSound(ts);
    ProperParts(UnparseBody(b.members, b.comma), [Op(EOF)]);
    ProperLexicalBody(b.members, b.comma);
    BuildBodySize(b.members, toks, 0);
  }

  lemma {:induction false} BuildBodySize(cs: seq<CStmt>, toks: seq<Token>, i: nat)
    ensures |BuildBody(cs, toks, i)| == |cs|
    decreases cs
  {
    hide BuildStmt, UnparseStmt;
    if cs != [] {
      BuildBodySize(cs[1..], toks, i + |UnparseStmt(cs[0])| + 1);
    }
  }

  // Printing keeps the tokens of the file, up to trailing commas and
  // terminators, empty labels and the quotes of names; and every tree of an
  // error-free parse can be walked.
  lemma PrintAfterParse(ts: seq<Sym>, toks: seq<Token>, body: seq<Stmt>, lines: seq<nat>)
    requires Parsed(ts, toks, body)
    ensures var b := File(ts).val;
            UnparseBody(b.members, b.comma) + [Op(EOF)] == ts && AlikeBody(b.members, CanonBody(body, lines))
    ensures forall k :: 0 <= k < |body| ==> WalkableStmt(body[k])
    ensures Lexed(PrintedTokens(body, lines)) && AllScannable(UnparseBody(CanonBody(body, lines), body != []))
  {
    hide File, UnparseBody, ShapedStmt, LexicalStmt, WalkableStmt, BuildBody, CanonBody, Lexed, AlikeBody,
         AllStmtsShaped, AllLexical;
    ParsedTree(ts, toks, body);
    CanonAlikeBody(File(ts).val.members, toks, 0, lines);
    CanonBodyShaped(File(ts).val.members, toks, 0, lines);
    FileLexed(CanonBody(body, lines), body != []);
  }

  // Parsing the printed tokens gives the tree back up to positions, with its
  // quoted names quoted once more; the file is rejected exactly if a call
  // without arguments has its parentheses on different lines.
  lemma ParseAfterPrint(ts: seq<Sym>, toks: seq<Token>, body: seq<Stmt>, lines: seq<nat>, toks': seq<Token>)
    requires Parsed(ts, toks, body) && Syms(toks') == PrintedTokens(body, lines)
    ensures Lexed(Syms(toks'))
    ensures File(Syms(toks')).Ok? <==> forall k :: 0 <= k < |body| ==> StmtCallsClosed(body[k], lines)
    ensures File(Syms(toks')).Ok? ==>
              var again := BuildBody(File(Syms(toks')).val.members, toks', 0);
              && PlainBody(again) == PlainBody(RequoteBody(body))
              && (PlainBody(again) == PlainBody(body) <==> forall k :: 0 <= k < |body| ==> StmtVerbatim(body[k]))
  {
    hide File, UnparseBody, ShapedStmt, LexicalStmt, WalkableStmt, BuildBody, CanonBody, Lexed, AlikeBody,
         StmtCommasOk, StmtCallsClosed, StmtVerbatim, AllStmtsShaped, AllLexical;
    PrintAfterParse(ts, toks, body, lines);
    ParsedTree(ts, toks, body);
    CanonBodyShaped(File(ts).val.members, toks, 0, lines);
    var cs := CanonBody(body, lines);
    FileComplete(cs, body != []);
    CanonBodyCommas(body, lines);
    BuildCanonBody(body, lines, toks', 0);
    RequoteBodySame(body);
  }

  // ---- the two shapes that do not come back ----

  function TokenOf(sym: Sym, off: nat): Token {
    Token(sym, PosAt(off))
  }

  // a = f(
  // )
  const SPLIT_CALL: seq<Token> := [
    TokenOf(Sym(IDENT, "a"), 0), TokenOf(Op(ASSIGN), 2), TokenOf(Sym(IDENT, "f"), 4), TokenOf(Op(LPAREN), 5),
    TokenOf(Op(RPAREN), 7), TokenOf(Op(TERMINATOR), 8), TokenOf(Op(EOF), 9)]

  const SPLIT_BODY: seq<Stmt> :=
    [Attribute("a", PosAt(0), Call(Identifier("f", PosAt(4)), [], PosAt(5), PosAt(7)))]

  const SPLIT_LINES: seq<nat> := [0, 7, 9]

  // A file of one statement of the grammar.
  lemma OneStatement(s: CStmt, toks: seq<Token>)
    requires ShapedStmt(s) && LexicalStmt(s) && StmtCommasOk(s) && Syms(toks) == FileTokens([s], true)
    ensures Parsed(Syms(toks), toks, [BuildStmt(s, toks, 0)])
  {
    hide ShapedStmt, LexicalStmt, StmtCommasOk, UnparseStmt, BuildStmt, File, Lexed, AllScannable;
    FileLexed([s], true);
    FileComplete([s], true);
    assert [s][1..] == [] && BuildBody([s], toks, 0) == [BuildStmt(s, toks, 0)] + [];
    assert AllStmtCommasOk([s]);
    ScannableProper(UnparseBody([s], true));
    ProperParts(UnparseBody([s], true), [Op(EOF)]);
    assert AllProper([Op(EOF)]);
  }

  lemma ScannableProper(ts: seq<Sym>)
    requires AllScannable(ts)
    ensures AllProper(ts)
  {
    hide Lexeme;
  }

  lemma SplitCallParses()
    ensures Parsed(Syms(SPLIT_CALL), SPLIT_CALL, SPLIT_BODY)
  {
    hide Parsed, File, Lexed;
    var call := CCall(CName("f"), [], false);
    var s := CAttribute("a", call);
    assert Unparse(call) == [Sym(IDENT, "f"), Op(LPAREN), Op(RPAREN)];
    assert UnparseStmt(s) == [Sym(IDENT, "a"), Op(ASSIGN), Sym(IDENT, "f"), Op(LPAREN), Op(RPAREN)];
    assert Syms(SPLIT_CALL) == FileTokens([s], true);
    OneStatement(s, SPLIT_CALL);
  }

  // A call whose empty parentheses are on two lines is printed with a comma
  // that the parser rejects.
  lemma SplitCallRejected()
    ensures Parsed(Syms(SPLIT_CALL), SPLIT_CALL, SPLIT_BODY)
    ensures Lexed(PrintedTokens(SPLIT_BODY, SPLIT_LINES)) && File(PrintedTokens(SPLIT_BODY, SPLIT_LINES)) == Fail
  {
    hide Parsed, File, PrintedTokens, Lexed;
    SplitCallParses();
    PrintAfterParse(Syms(SPLIT_CALL), SPLIT_CALL, SPLIT_BODY, SPLIT_LINES);
    var out := PrintedTokens(SPLIT_BODY, SPLIT_LINES);
    var toks' := seq(|out|, i requires 0 <= i < |out| => TokenOf(out[i], 0));
    assert Syms(toks') == out;
    ParseAfterPrint(Syms(SPLIT_CALL), SPLIT_CALL, SPLIT_BODY, SPLIT_LINES, toks');
    SplitCallOpen();
  }

  lemma SplitCallOpen()
    ensures !StmtCallsClosed(SPLIT_BODY[0], SPLIT_LINES)
  {
    assert Lines.LineOf(SPLIT_LINES, PosAt(5)) == 1 && Lines.LineOf(SPLIT_LINES, PosAt(7)) == 2;
  }

  // a = {"\n" = b}, with the two characters of the escape sequence in the name.
  const ESCAPED_NAME: seq<Token> := [
    TokenOf(Sym(IDENT, "a"), 0), TokenOf(Op(ASSIGN), 2), TokenOf(Op(LCURLY), 4), TokenOf(Sym(STRING, "\"\\n\""), 5),
    TokenOf(Op(ASSIGN), 10), TokenOf(Sym(IDENT, "b"), 12), TokenOf(Op(RCURLY), 13), TokenOf(Op(TERMINATOR), 14),
    TokenOf(Op(EOF), 15)]

  const ESCAPED_BODY: seq<Stmt> :=
    [Attribute("a", PosAt(0), Object([Field("\\n", PosAt(5), true, Identifier("b", PosAt(12)))], PosAt(4), PosAt(13)))]

  const ESCAPED_STMT: CStmt :=
    CAttribute("a", CObject([CField(Sym(STRING, "\"\\n\""), CName("b"))], false))

  lemma EscapedTokens()
    ensures Syms(ESCAPED_NAME) == FileTokens([ESCAPED_STMT], true)
  {
    var key := Sym(STRING, "\"\\n\"");
    var f := CField(key, CName("b"));
    var obj := CObject([f], false);
    assert UnparseField(f) == [key, Op(ASSIGN), Sym(IDENT, "b")];
    assert Unparse(obj) == [Op(LCURLY), key, Op(ASSIGN), Sym(IDENT, "b"), Op(RCURLY)];
    assert UnparseStmt(ESCAPED_STMT)
        == [Sym(IDENT, "a"), Op(ASSIGN), Op(LCURLY), key, Op(ASSIGN), Sym(IDENT, "b"), Op(RCURLY)];
  }

  lemma EscapedTree()
    ensures BuildStmt(ESCAPED_STMT, ESCAPED_NAME, 0) == ESCAPED_BODY[0]
  {
    var key := Sym(STRING, "\"\\n\"");
    var f := CField(key, CName("b"));
    assert FieldName(key) == "\\n" && [f][1..] == [];
    assert BuildField(f, ESCAPED_NAME, 3) == Field("\\n", PosAt(5), true, Identifier("b", PosAt(12)));
    assert BuildFields([f], ESCAPED_NAME, 3) == [BuildField(f, ESCAPED_NAME, 3)];
    assert |UnparseFields([f], false)| == 3 by {
      assert UnparseField(f) == [key, Op(ASSIGN), Sym(IDENT, "b")];
    }
  }

  lemma EscapedKey()
    ensures Lexeme(Sym(STRING, "\"\\n\""))
  {
    assert Escapes("\n") == "\\n";
    QuoteLexeme("\n");
    hide Lexeme;
  }

  lemma ShortNames()
    ensures IsIdentifier("a") && IsIdentifier("b")
  {
  }

  lemma EscapedLexical()
    ensures ShapedStmt(ESCAPED_STMT) && LexicalStmt(ESCAPED_STMT) && StmtCommasOk(ESCAPED_STMT)
  {
    hide Lexeme, IsIdentifier;
    EscapedKey();
    ShortNames();
  }

  lemma EscapedNameParses()
    ensures Parsed(Syms(ESCAPED_NAME), ESCAPED_NAME, ESCAPED_BODY)
  {
    hide Parsed, ShapedStmt, LexicalStmt, StmtCommasOk, FileTokens, Syms, BuildStmt;
    EscapedLexical();
    EscapedTokens();
    EscapedTree();
    OneStatement(ESCAPED_STMT, ESCAPED_NAME);
  }

  // A quoted name with an escape sequence comes back with its backslash escaped.
  lemma EscapedNameChanges(toks': seq<Token>)
    requires Syms(toks') == PrintedTokens(ESCAPED_BODY, [0, 15])
    ensures Parsed(Syms(ESCAPED_NAME), ESCAPED_NAME, ESCAPED_BODY)
    ensures Lexed(Syms(toks')) && File(Syms(toks')).Ok?
    ensures PlainBody(BuildBody(File(Syms(toks')).val.members, toks', 0)) != PlainBody(ESCAPED_BODY)
  {
    hide Parsed, File, PrintedTokens, Lexed, BuildBody;
    EscapedNameParses();
    ParseAfterPrint(Syms(ESCAPED_NAME), ESCAPED_NAME, ESCAPED_BODY, [0, 15], toks');
    assert ESCAPED_BODY[0].value.fields[0].name[0] == '\\';
  }
}
