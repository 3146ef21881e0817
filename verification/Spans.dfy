// Where the nodes of a tree begin and end, in terms of the tokens it was read
// from; and, from that, when the walker ends a list with a comma.
module Spans {
  import opened Tokens
  import opened Syntax
  import opened Lines
  import opened Completeness
  import opened CompletenessStmts
  import opened Trees
  import opened Lexemes
  import opened Printers
  import opened Canonical
  import opened RoundTrips
  import opened Likeness

  // The tokens from i on are ts.
  ghost predicate Stands(toks: seq<Token>, i: nat, ts: seq<Sym>) {
    i + |ts| <= |toks| && forall k :: 0 <= k < |ts| ==> toks[i + k].sym == ts[k]
  }

  lemma StandsParts(toks: seq<Token>, i: nat, a: seq<Sym>, b: seq<Sym>)
    ensures Stands(toks, i, a + b) <==> Stands(toks, i, a) && Stands(toks, i + |a|, b)
  {
    if Stands(toks, i, a + b) {
      forall k | 0 <= k < |b|
        ensures toks[i + |a| + k].sym == b[k]
      {
        assert (a + b)[|a| + k] == b[k];
      }
      forall k | 0 <= k < |a|
        ensures toks[i + k].sym == a[k]
      {
        assert (a + b)[k] == a[k];
      }
    }
  }

  // The last character of a token.
  function LastChar(t: Token): Pos {
    var n := |SymText(t.sym)|;
    if t.pos.NoPos? then NoPos else PosAt(t.pos.off + if n == 0 then 0 else n - 1)
  }

  // The token at k is that mark, and pos is where it stands.
  ghost predicate MarkAt(toks: seq<Token>, k: nat, pos: Pos, mark: Kind) {
    k < |toks| && toks[k].sym == Op(mark) && toks[k].pos == pos
  }

  // A tree read at i from tokens as it is written.
  ghost predicate ReadAt(c: Cst, toks: seq<Token>, i: nat) {
    Shaped(c) && Lexical(c) && Stands(toks, i, Unparse(c))
  }

  // An operand, an operator and an operand.
  lemma InfixStands(toks: seq<Token>, i: nat, a: seq<Sym>, op: Sym, b: seq<Sym>)
    requires Stands(toks, i, a + [op] + b)
    ensures Stands(toks, i, a) && Stands(toks, i + |a| + 1, b) && |a + [op] + b| == |a| + 1 + |b|
    ensures i + |a| + 1 + |b| <= |toks| && toks[i + |a|].sym == op
  {
    StandsParts(toks, i, a + [op], b);
    StandsParts(toks, i, a, [op]);
    assert [op][0] == op;
  }

  // An operand and something in brackets.
  lemma BracketsStand(toks: seq<Token>, i: nat, a: seq<Sym>, open: Sym, b: seq<Sym>, close: Sym)
    requires Stands(toks, i, a + [open] + b + [close])
    ensures Stands(toks, i, a) && Stands(toks, i + |a| + 1, b) && |a + [open] + b + [close]| == |a| + |b| + 2
    ensures i + |a| + |b| + 2 <= |toks|
    ensures toks[i + |a|].sym == open && toks[i + |a| + 1 + |b|].sym == close
  {
    StandsParts(toks, i, a + [open] + b, [close]);
    InfixStands(toks, i, a, open, b);
    assert [close][0] == close;
  }

  lemma LexicalParts(c: Cst)
    requires Lexical(c)
    ensures c.CAccess? || c.CIndex? || c.CCall? ==> Lexical(c.value)
    ensures c.CIndex? ==> Lexical(c.index)
    ensures c.CUnary? ==> Lexical(c.operand)
    ensures c.CBinary? ==> Lexical(c.left) && Lexical(c.right)
    ensures c.CParen? ==> Lexical(c.inner)
    ensures c.CCall? || c.CArray? ==> forall k :: 0 <= k < |c.elems| ==> Lexical(c.elems[k])
    ensures c.CObject? ==> forall k :: 0 <= k < |c.fields| ==> ProperSym(c.fields[k].key) && Lexical(c.fields[k].value)
  {
  }

  lemma AccessStands(c: Cst, toks: seq<Token>, i: nat)
    requires c.CAccess? && ReadAt(c, toks, i)
    ensures var j := i + |Unparse(c.value)|;
            && ReadAt(c.value, toks, i) && i + |Unparse(c)| == j + 2 <= |toks|
            && toks[j].sym == Op(DOT) && toks[j + 1].sym == Sym(IDENT, c.name)
  {
    hide Unparse, Shaped, Lexical, Stands;
    AccessParts(c);
    LexicalParts(c);
    InfixStands(toks, i, Unparse(c.value), Op(DOT), [Sym(IDENT, c.name)]);
    OneStands(toks, i + |Unparse(c.value)| + 1, Sym(IDENT, c.name));
  }

  lemma OneStands(toks: seq<Token>, i: nat, s: Sym)
    requires Stands(toks, i, [s])
    ensures i < |toks| && toks[i].sym == s
  {
    assert [s][0] == s;
  }

  lemma IndexStands(c: Cst, toks: seq<Token>, i: nat)
    requires c.CIndex? && ReadAt(c, toks, i)
    ensures var j := i + |Unparse(c.value)|;
            var k := j + 1 + |Unparse(c.index)|;
            && ReadAt(c.value, toks, i) && ReadAt(c.index, toks, j + 1) && i + |Unparse(c)| == k + 1 <= |toks|
            && toks[j].sym == Op(LBRACK) && toks[k].sym == Op(RBRACK)
  {
    hide Unparse, Shaped, Lexical, Stands;
    IndexParts(c);
    LexicalParts(c);
    BracketsStand(toks, i, Unparse(c.value), Op(LBRACK), Unparse(c.index), Op(RBRACK));
  }

  lemma UnaryStands(c: Cst, toks: seq<Token>, i: nat)
    requires c.CUnary? && ReadAt(c, toks, i)
    ensures ReadAt(c.operand, toks, i + 1) && |Unparse(c)| == 1 + |Unparse(c.operand)|
    ensures i < |toks| && toks[i].sym == Op(c.op)
  {
    hide Unparse, Shaped, Lexical, Stands;
    UnaryParts(c);
    LexicalParts(c);
    InfixStands(toks, i, [], Op(c.op), Unparse(c.operand));
  }

  lemma BinaryStands(c: Cst, toks: seq<Token>, i: nat)
    requires c.CBinary? && ReadAt(c, toks, i)
    ensures var j := i + |Unparse(c.left)|;
            && ReadAt(c.left, toks, i) && ReadAt(c.right, toks, j + 1) && j < |toks| && toks[j].sym == Op(c.op)
            && i + |Unparse(c)| == j + 1 + |Unparse(c.right)|
  {
    hide Unparse, Shaped, Lexical, Stands;
    BinaryParts(c);
    LexicalParts(c);
    InfixStands(toks, i, Unparse(c.left), Op(c.op), Unparse(c.right));
  }

  lemma CallStands(c: Cst, toks: seq<Token>, i: nat)
    requires c.CCall? && ReadAt(c, toks, i)
    ensures var j := i + |Unparse(c.value)|;
            var k := j + 1 + |UnparseList(c.elems, c.comma)|;
            && ReadAt(c.value, toks, i) && Stands(toks, j + 1, UnparseList(c.elems, c.comma))
            && i + |Unparse(c)| == k + 1 <= |toks| && toks[j].sym == Op(LPAREN) && toks[k].sym == Op(RPAREN)
  {
    hide Unparse, Shaped, Lexical, Stands;
    CallParts(c);
    LexicalParts(c);
    BracketsStand(toks, i, Unparse(c.value), Op(LPAREN), UnparseList(c.elems, c.comma), Op(RPAREN));
  }

  // Something in brackets of its own.
  lemma Enclosed(toks: seq<Token>, i: nat, open: Kind, b: seq<Sym>, close: Kind)
    requires Stands(toks, i, [Op(open)] + b + [Op(close)])
    ensures |[Op(open)] + b + [Op(close)]| == |b| + 2 && i + |b| + 2 <= |toks| && Stands(toks, i + 1, b)
    ensures toks[i].sym == Op(open) && toks[i + 1 + |b|].sym == Op(close)
  {
    assert [] + [Op(open)] + b + [Op(close)] == [Op(open)] + b + [Op(close)];
    BracketsStand(toks, i, [], Op(open), b, Op(close));
  }

  lemma ArrayStands(c: Cst, toks: seq<Token>, i: nat)
    requires c.CArray? && ReadAt(c, toks, i)
    ensures var k := i + 1 + |UnparseList(c.elems, c.comma)|;
            && Stands(toks, i + 1, UnparseList(c.elems, c.comma)) && i + |Unparse(c)| == k + 1 <= |toks|
            && toks[i].sym == Op(LBRACK) && toks[k].sym == Op(RBRACK)
  {
    hide Unparse, Shaped, Lexical, Stands;
    ArrayParts(c);
    Enclosed(toks, i, LBRACK, UnparseList(c.elems, c.comma), RBRACK);
  }

  lemma ObjectStands(c: Cst, toks: seq<Token>, i: nat)
    requires c.CObject? && ReadAt(c, toks, i)
    ensures var k := i + 1 + |UnparseFields(c.fields, c.comma)|;
            && Stands(toks, i + 1, UnparseFields(c.fields, c.comma)) && i + |Unparse(c)| == k + 1 <= |toks|
            && toks[i].sym == Op(LCURLY) && toks[k].sym == Op(RCURLY)
  {
    hide Unparse, Shaped, Lexical, Stands;
    ObjectParts(c);
    Enclosed(toks, i, LCURLY, UnparseFields(c.fields, c.comma), RCURLY);
  }

  lemma ParenStands(c: Cst, toks: seq<Token>, i: nat)
    requires c.CParen? && ReadAt(c, toks, i)
    ensures var k := i + 1 + |Unparse(c.inner)|;
            && ReadAt(c.inner, toks, i + 1) && i + |Unparse(c)| == k + 1 <= |toks|
            && toks[i].sym == Op(LPAREN) && toks[k].sym == Op(RPAREN)
  {
    hide Unparse, Shaped, Lexical, Stands;
    ParenParts(c);
    LexicalParts(c);
    Enclosed(toks, i, LPAREN, Unparse(c.inner), RPAREN);
  }

  lemma LeafStands(c: Cst, toks: seq<Token>, i: nat)
    requires ReadAt(c, toks, i) && (c.CLit? || c.CName?)
    ensures i < |toks| && |Unparse(c)| == 1 && StartOf(Build(c, toks, i)) == toks[i].pos
    ensures EndOf(Build(c, toks, i)) == LastChar(toks[i])
  {
    assert toks[i].sym == Unparse(c)[0];
  }

  lemma LastMark(toks: seq<Token>, k: nat)
    requires k < |toks| && toks[k].sym.kind in {RBRACK, RPAREN, RCURLY}
    ensures LastChar(toks[k]) == toks[k].pos
  {
    assert |SymText(toks[k].sym)| == 1;
  }

  lemma ClosedSpan(c: Cst, toks: seq<Token>, i: nat)
    requires ReadAt(c, toks, i) && (c.CArray? || c.CObject? || c.CParen?)
    ensures i + |Unparse(c)| <= |toks| && StartOf(Build(c, toks, i)) == toks[i].pos
    ensures EndOf(Build(c, toks, i)) == LastChar(toks[i + |Unparse(c)| - 1])
  {
    hide ReadAt, Unparse, UnparseList, UnparseFields, BuildList, BuildFields, LastChar;
    match c
    case CArray(_, _) => ArrayStands(c, toks, i); LastMark(toks, i + |Unparse(c)| - 1);
    case CObject(_, _) => ObjectStands(c, toks, i); LastMark(toks, i + |Unparse(c)| - 1);
    case CParen(_) => ParenStands(c, toks, i); LastMark(toks, i + |Unparse(c)| - 1);
  }

  // The end of an index or a call; its start is that of its operand.
  lemma BracketEnd(c: Cst, toks: seq<Token>, i: nat)
    requires ReadAt(c, toks, i) && (c.CIndex? || c.CCall?)
    ensures ReadAt(c.value, toks, i) && i + |Unparse(c)| <= |toks|
    ensures StartOf(Build(c, toks, i)) == StartOf(Build(c.value, toks, i))
    ensures EndOf(Build(c, toks, i)) == LastChar(toks[i + |Unparse(c)| - 1])
  {
    hide ReadAt, Unparse, UnparseList, BuildList, LastChar;
    if c.CIndex? {
      IndexStands(c, toks, i);
    } else {
      CallStands(c, toks, i);
    }
    LastMark(toks, i + |Unparse(c)| - 1);
  }

  // A node starts at its first token and ends with the last character of its last.
  lemma {:induction false} Span(c: Cst, toks: seq<Token>, i: nat)
    requires ReadAt(c, toks, i)
    ensures i + |Unparse(c)| <= |toks|
    ensures StartOf(Build(c, toks, i)) == toks[i].pos
    ensures EndOf(Build(c, toks, i)) == LastChar(toks[i + |Unparse(c)| - 1])
    decreases c
  {
    hide ReadAt, Unparse, UnparseList, UnparseFields, BuildList, BuildFields, LastChar;
    match c
    case CAccess(value, _) => AccessStands(c, toks, i); Span(value, toks, i); NameEnd(c, toks, i);
    case CIndex(value, _) => BracketEnd(c, toks, i); Span(value, toks, i);
    case CCall(value, _, _) => BracketEnd(c, toks, i); Span(value, toks, i);
    case CUnary(_, operand) => UnaryStands(c, toks, i); Span(operand, toks, i + 1);
    case CBinary(_, left, right) =>
      BinaryStands(c, toks, i);
      Span(left, toks, i);
      Span(right, toks, i + |Unparse(left)| + 1);
    case CLit(_) | CName(_) => LeafStands(c, toks, i);
    case _ => ClosedSpan(c, toks, i);
  }

  lemma NameEnd(c: Cst, toks: seq<Token>, i: nat)
    requires c.CAccess? && ReadAt(c, toks, i)
    ensures i + |Unparse(c)| <= |toks| && EndOf(Build(c, toks, i)) == LastChar(toks[i + |Unparse(c)| - 1])
  {
    hide ReadAt, Unparse;
    AccessStands(c, toks, i);
  }

  // ---- the marks a node records ----

  // Each is the position of a token of that kind, which stands where the parts of
  // the node leave it.

  lemma ClosedMarks(c: Cst, toks: seq<Token>, i: nat)
    requires ReadAt(c, toks, i) && (c.CArray? || c.CObject? || c.CParen?)
    ensures var e, last := Build(c, toks, i), i + |Unparse(c)| - 1;
            && (c.CArray? ==> MarkAt(toks, i, e.lbrackPos, LBRACK) && MarkAt(toks, last, e.rbrackPos, RBRACK))
            && (c.CObject? ==> MarkAt(toks, i, e.lcurlyPos, LCURLY) && MarkAt(toks, last, e.rcurlyPos, RCURLY))
            && (c.CParen? ==> MarkAt(toks, i, e.lparenPos, LPAREN) && MarkAt(toks, last, e.rparenPos, RPAREN))
  {
    hide ReadAt, Unparse, UnparseList, UnparseFields, BuildList, BuildFields;
    match c
    case CArray(_, _) => ArrayStands(c, toks, i);
    case CObject(_, _) => ObjectStands(c, toks, i);
    case CParen(_) => ParenStands(c, toks, i);
  }

  lemma AccessMarks(c: Cst, toks: seq<Token>, i: nat)
    requires ReadAt(c, toks, i) && c.CAccess?
    ensures var e, last := Build(c, toks, i), i + |Unparse(c)| - 1;
            && i + 2 <= last < |toks| && toks[last] == Token(Sym(IDENT, e.name), e.namePos)
            && EndOf(e.value) == LastChar(toks[last - 2])
  {
    hide ReadAt, Unparse, EndOf, LastChar;
    AccessStands(c, toks, i);
    Span(c.value, toks, i);
  }

  lemma IndexMarks(c: Cst, toks: seq<Token>, i: nat) returns (k: nat)
    requires ReadAt(c, toks, i) && c.CIndex?
    ensures var e, last := Build(c, toks, i), i + |Unparse(c)| - 1;
            && i < k < last < |toks| && MarkAt(toks, k, e.lbrackPos, LBRACK) && MarkAt(toks, last, e.rbrackPos, RBRACK)
            && EndOf(e.value) == LastChar(toks[k - 1]) && StartOf(e.index) == toks[k + 1].pos
            && EndOf(e.index) == LastChar(toks[last - 1])
  {
    hide ReadAt, Unparse, EndOf, StartOf, LastChar;
    k := i + |Unparse(c.value)|;
    IndexStands(c, toks, i);
    Span(c.value, toks, i);
    Span(c.index, toks, k + 1);
  }

  lemma CallMarks(c: Cst, toks: seq<Token>, i: nat) returns (k: nat)
    requires ReadAt(c, toks, i) && c.CCall?
    ensures var e, last := Build(c, toks, i), i + |Unparse(c)| - 1;
            && i < k < last < |toks| && MarkAt(toks, k, e.lparenPos, LPAREN) && MarkAt(toks, last, e.rparenPos, RPAREN)
            && EndOf(e.value) == LastChar(toks[k - 1])
  {
    hide ReadAt, Unparse, UnparseList, BuildList, EndOf, LastChar;
    k := i + |Unparse(c.value)|;
    CallStands(c, toks, i);
    Span(c.value, toks, i);
  }

  lemma UnaryMarks(c: Cst, toks: seq<Token>, i: nat)
    requires ReadAt(c, toks, i) && c.CUnary?
    ensures var e := Build(c, toks, i);
            MarkAt(toks, i, e.opPos, e.op) && i + 1 < |toks| && StartOf(e.operand) == toks[i + 1].pos
  {
    hide ReadAt, Unparse, StartOf, EndOf;
    UnaryStands(c, toks, i);
    Span(c.operand, toks, i + 1);
  }

  lemma BinaryMarks(c: Cst, toks: seq<Token>, i: nat) returns (k: nat)
    requires ReadAt(c, toks, i) && c.CBinary?
    ensures var e := Build(c, toks, i);
            && i < k && k + 1 < |toks| && MarkAt(toks, k, e.opPos, e.op)
            && EndOf(e.left) == LastChar(toks[k - 1]) && StartOf(e.right) == toks[k + 1].pos
  {
    hide ReadAt, Unparse, StartOf, EndOf, LastChar;
    k := i + |Unparse(c.left)|;
    BinaryStands(c, toks, i);
    Span(c.left, toks, i);
    Span(c.right, toks, k + 1);
  }

  // ---- the last member of a list ----

  // The token of the last member: before the closing bracket, and before the comma
  // if there is one.
  lemma {:induction false} LastMember(cs: seq<Cst>, comma: bool, toks: seq<Token>, i: nat)
    requires cs != [] && AllShaped(cs) && (forall k :: 0 <= k < |cs| ==> Lexical(cs[k]))
    requires Stands(toks, i, UnparseList(cs, comma))
    ensures var es, k := BuildList(cs, toks, i), i + |UnparseList(cs, comma)| - (if comma then 2 else 1);
            0 <= k < |toks| && es != [] && EndOf(es[|es| - 1]) == LastChar(toks[k])
    decreases |cs|
  {
    hide Unparse, UnparseList, Build, BuildList, EndOf, Stands, Shaped, Lexical, AllShaped, LastChar, CommasOk;
    ListParts(cs, comma);
    if |cs| == 1 {
      StandsParts(toks, i, Unparse(cs[0]), if comma then [Op(COMMA)] else []);
      OneMember(cs, toks, i);
      Span(cs[0], toks, i);
    } else {
      InfixStands(toks, i, Unparse(cs[0]), Op(COMMA), UnparseList(cs[1..], comma));
      var j := i + |Unparse(cs[0])| + 1;
      LastMember(cs[1..], comma, toks, j);
      SameLast(cs, toks, i);
    }
  }

  lemma SameLast(cs: seq<Cst>, toks: seq<Token>, i: nat)
    requires |cs| > 1
    ensures var es, fs := BuildList(cs, toks, i), BuildList(cs[1..], toks, i + |Unparse(cs[0])| + 1);
            fs != [] ==> es != [] && es[|es| - 1] == fs[|fs| - 1]
  {
    hide Unparse, Build;
  }

  lemma OneMember(cs: seq<Cst>, toks: seq<Token>, i: nat)
    requires |cs| == 1
    ensures BuildList(cs, toks, i) == [Build(cs[0], toks, i)]
  {
    assert BuildList(cs[1..], toks, i + |Unparse(cs[0])| + 1) == [];
  }

  // ---- down the tree ----

  // Where the k-th element of a list is read, and that it is built from there.
  lemma {:induction false} ElementRead(cs: seq<Cst>, comma: bool, toks: seq<Token>, i: nat, k: nat) returns (j: nat)
    requires k < |cs| && AllShaped(cs) && (forall k :: 0 <= k < |cs| ==> Lexical(cs[k]))
    requires Stands(toks, i, UnparseList(cs, comma))
    ensures ReadAt(cs[k], toks, j) && i <= j
    ensures k < |BuildList(cs, toks, i)| && BuildList(cs, toks, i)[k] == Build(cs[k], toks, j)
    decreases |cs|
  {
    hide Unparse, UnparseList, Build, Stands, Shaped, Lexical, AllShaped, CommasOk;
    ListParts(cs, comma);
    if |cs| == 1 {
      StandsParts(toks, i, Unparse(cs[0]), if comma then [Op(COMMA)] else []);
      OneMember(cs, toks, i);
      j := i;
    } else {
      InfixStands(toks, i, Unparse(cs[0]), Op(COMMA), UnparseList(cs[1..], comma));
      if k == 0 {
        j := i;
      } else {
        j := ElementRead(cs[1..], comma, toks, i + |Unparse(cs[0])| + 1, k - 1);
      }
    }
  }

  // The same for the value of a field, two tokens after its key.
  lemma {:induction false} FieldRead(fs: seq<CField>, comma: bool, toks: seq<Token>, i: nat, k: nat) returns (j: nat)
    requires k < |fs| && AllFieldsShaped(fs) && (forall k :: 0 <= k < |fs| ==> Lexical(fs[k].value))
    requires Stands(toks, i, UnparseFields(fs, comma))
    ensures ReadAt(fs[k].value, toks, j + 2) && i <= j && toks[j].sym == fs[k].key && toks[j + 1].sym == Op(ASSIGN)
    ensures k < |BuildFields(fs, toks, i)| && BuildFields(fs, toks, i)[k] == BuildField(fs[k], toks, j)
    decreases |fs|
  {
    hide Unparse, UnparseField, UnparseFields, BuildField, Stands, Shaped, Lexical, AllFieldsShaped, CommasOk;
    FieldsParts(fs, comma);
    if |fs| == 1 {
      StandsParts(toks, i, UnparseField(fs[0]), if comma then [Op(COMMA)] else []);
    } else {
      InfixStands(toks, i, UnparseField(fs[0]), Op(COMMA), UnparseFields(fs[1..], comma));
    }
    if k == 0 {
      j := i;
      ValueStands(fs[0], toks, i);
    } else {
      j := FieldRead(fs[1..], comma, toks, i + |UnparseField(fs[0])| + 1, k - 1);
    }
  }

  lemma ValueStands(f: CField, toks: seq<Token>, i: nat)
    requires ShapedField(f) && Lexical(f.value) && Stands(toks, i, UnparseField(f))
    ensures ReadAt(f.value, toks, i + 2) && i + 1 < |toks| && toks[i].sym == f.key && toks[i + 1].sym == Op(ASSIGN)
  {
    hide Unparse, Lexical, Shaped, Stands;
    StandsParts(toks, i, [f.key, Op(ASSIGN)], Unparse(f.value));
    TwoStand(toks, i, f.key, Op(ASSIGN));
  }

  // And for statements.
  lemma {:induction false} StatementRead(ss: seq<CStmt>, term: bool, toks: seq<Token>, i: nat, k: nat) returns (j: nat)
    requires k < |ss| && AllStmtsShaped(ss) && Stands(toks, i, UnparseBody(ss, term))
    ensures Stands(toks, j, UnparseStmt(ss[k])) && i <= j
    ensures k < |BuildBody(ss, toks, i)| && BuildBody(ss, toks, i)[k] == BuildStmt(ss[k], toks, j)
    decreases |ss|
  {
    hide UnparseStmt, UnparseBody, BuildStmt, Stands, ShapedStmt, StmtCommasOk, AllStmtsShaped;
    BodyParts(ss, term);
    if |ss| == 1 {
      StandsParts(toks, i, UnparseStmt(ss[0]), if term then [Op(TERMINATOR)] else []);
    } else {
      InfixStands(toks, i, UnparseStmt(ss[0]), Op(TERMINATOR), UnparseBody(ss[1..], term));
    }
    if k == 0 {
      j := i;
    } else {
      j := StatementRead(ss[1..], term, toks, i + |UnparseStmt(ss[0])| + 1, k - 1);
    }
  }

  // ---- the comma at the end of a list ----

  // A comma is written before the closing bracket of an array exactly if the bracket
  // is not on the line on which the last element ends.
  lemma ArrayComma(c: Cst, toks: seq<Token>, i: nat, lines: seq<nat>)
    requires ReadAt(c, toks, i) && c.CArray? && c.elems != []
    ensures var close := i + |Unparse(c)| - 1;
            var last := close - (if c.comma then 2 else 1);
            && 0 <= last < close < |toks| && toks[close].sym == Op(RBRACK)
            && (Canon(Build(c, toks, i), lines).comma <==>
                LineOf(lines, LastChar(toks[last])) != LineOf(lines, toks[close].pos))
  {
    hide Unparse, UnparseList, EndOf, Stands, Shaped, Lexical, AllShaped, LastChar, CommasOk, CanonList, BuildList;
    ArrayStands(c, toks, i);
    ArrayParts(c);
    LexicalParts(c);
    LastMember(c.elems, c.comma, toks, i + 1);
  }

  lemma CallCanon(c: Cst, toks: seq<Token>, i: nat, lines: seq<nat>)
    requires c.CCall?
    ensures var j := i + |Unparse(c.value)|;
            Canon(Build(c, toks, i), lines).comma <==>
            DifferentLines(lines, Canonical.ListEnd(BuildList(c.elems, toks, j + 1), PosOf(toks, j)),
                           PosOf(toks, j + 1 + |UnparseList(c.elems, c.comma)|))
  {
    hide Unparse, UnparseList, EndOf, CanonList, BuildList, DifferentLines;
  }

  lemma OpenChar(toks: seq<Token>, j: nat)
    requires j < |toks| && toks[j].sym == Op(LPAREN)
    ensures LastChar(toks[j]) == toks[j].pos
  {
    assert |SymText(Op(LPAREN))| == 1;
  }

  // The same for calls. Without arguments it is the line of the opening bracket
  // that counts.
  lemma CallComma(c: Cst, toks: seq<Token>, i: nat, lines: seq<nat>)
    requires ReadAt(c, toks, i) && c.CCall? && (c.comma ==> c.elems != [])
    ensures var close := i + |Unparse(c)| - 1;
            var last := close - (if c.comma then 2 else 1);
            && 0 <= last < close < |toks| && toks[close].sym == Op(RPAREN)
            && (c.elems == [] ==> toks[last].sym == Op(LPAREN))
            && (Canon(Build(c, toks, i), lines).comma <==>
                LineOf(lines, LastChar(toks[last])) != LineOf(lines, toks[close].pos))
  {
    hide Unparse, EndOf, Stands, Shaped, Lexical, AllShaped, LastChar, CommasOk, CanonList, Canon, Build;
    CallStands(c, toks, i);
    CallParts(c);
    LexicalParts(c);
    CallCanon(c, toks, i, lines);
    var j := i + |Unparse(c.value)|;
    if c.elems != [] {
      LastMember(c.elems, c.comma, toks, j + 1);
    } else {
      OpenChar(toks, j);
    }
  }

  lemma LastBuilt(fs: seq<CField>, toks: seq<Token>, i: nat)
    requires fs != []
    ensures var es, rest := BuildFields(fs, toks, i), BuildFields(fs[1..], toks, i + |UnparseField(fs[0])| + 1);
            && es != [] && (|fs| == 1 ==> es[|es| - 1] == BuildField(fs[0], toks, i))
            && (rest != [] ==> es[|es| - 1] == rest[|rest| - 1])
  {
    hide UnparseField, BuildField;
    if |fs| == 1 {
      assert fs[1..] == [];
    }
  }

  // The key of the last field.
  lemma {:induction false} LastField(fs: seq<CField>, comma: bool, toks: seq<Token>, i: nat)
    requires fs != [] && AllFieldsShaped(fs) && Stands(toks, i, UnparseFields(fs, comma))
    ensures var es, f := BuildFields(fs, toks, i), fs[|fs| - 1];
            var k := i + |UnparseFields(fs, comma)| - (if comma then 1 else 0) - |UnparseField(f)|;
            && 0 <= k < |toks| && toks[k].sym == f.key && es != [] && |UnparseField(f)| >= 2
            && es[|es| - 1].namePos == toks[k].pos && es[|es| - 1].name == FieldName(f.key)
    decreases |fs|
  {
    hide UnparseField, UnparseFields, BuildField, BuildFields, Stands, ShapedField, AllFieldsShaped, CommasOk,
         FieldName;
    FieldsParts(fs, comma);
    LastBuilt(fs, toks, i);
    if |fs| == 1 {
      StandsParts(toks, i, UnparseField(fs[0]), if comma then [Op(COMMA)] else []);
      KeyStands(fs[0], toks, i);
    } else {
      InfixStands(toks, i, UnparseField(fs[0]), Op(COMMA), UnparseFields(fs[1..], comma));
      LastField(fs[1..], comma, toks, i + |UnparseField(fs[0])| + 1);
    }
  }

  lemma KeyStands(f: CField, toks: seq<Token>, i: nat)
    requires Stands(toks, i, UnparseField(f))
    ensures i < |toks| && toks[i].sym == f.key && |UnparseField(f)| >= 2
    ensures BuildField(f, toks, i).namePos == toks[i].pos && BuildField(f, toks, i).name == FieldName(f.key)
  {
    assert UnparseField(f)[0] == f.key;
  }

  // For objects it is the line on which the name of the last field ends.
  lemma ObjectComma(c: Cst, toks: seq<Token>, i: nat, lines: seq<nat>)
    requires ReadAt(c, toks, i) && c.CObject? && c.fields != []
    ensures var f, close := c.fields[|c.fields| - 1], i + |Unparse(c)| - 1;
            var k := close - (if c.comma then 1 else 0) - |UnparseField(f)|;
            && 0 <= k < close < |toks| && toks[close].sym == Op(RCURLY) && toks[k].sym == f.key
            && (Canon(Build(c, toks, i), lines).comma <==>
                LineOf(lines, TextEnd(toks[k].pos, FieldName(f.key))) != LineOf(lines, toks[close].pos))
  {
    hide Unparse, UnparseField, UnparseFields, Stands, Shaped, Lexical, AllFieldsShaped, CommasOk, CanonFields, TextEnd,
         FieldName, Canon, Build, BuildFields;
    ObjectStands(c, toks, i);
    ObjectParts(c);
    LastField(c.fields, c.comma, toks, i + 1);
    ObjectCanon(c, toks, i, lines);
  }

  lemma ObjectCanon(c: Cst, toks: seq<Token>, i: nat, lines: seq<nat>)
    requires c.CObject? && c.fields != []
    ensures Canon(Build(c, toks, i), lines).comma <==>
            DifferentLines(lines, NamesEnd(BuildFields(c.fields, toks, i + 1), PosOf(toks, i)),
                           PosOf(toks, i + 1 + |UnparseFields(c.fields, c.comma)|))
  {
    hide Unparse, UnparseFields, CanonFields, DifferentLines, NamesEnd;
  }

  // ---- statements ----

  // The name, the label and the brackets of a block.
  lemma BlockMarks(s: CStmt, toks: seq<Token>, i: nat) returns (k: nat)
    requires s.CBlock? && ShapedStmt(s) && Stands(toks, i, UnparseStmt(s))
    ensures var b, last := BuildStmt(s, toks, i), i + |UnparseStmt(s)| - 1;
            && i < k < last < |toks| && MarkAt(toks, k, b.lcurlyPos, LCURLY) && MarkAt(toks, last, b.rcurlyPos, RCURLY)
            && toks[i] == Token(Sym(IDENT, s.names[0]), b.namePos)
            && (s.tag.Some? ==> toks[k - 1] == Token(Sym(STRING, s.tag.value), b.tagPos))
            && Stands(toks, i, UnparseNames(s.names) + UnparseTag(s.tag))
            && k == i + |UnparseNames(s.names) + UnparseTag(s.tag)|
            && Stands(toks, k + 1, UnparseBody(s.body, s.term)) && last == k + 1 + |UnparseBody(s.body, s.term)|
            && StmtStart(b) == toks[i].pos && StmtEnd(b) == LastChar(toks[last])
  {
    hide UnparseNames, UnparseTag, UnparseBody, UnparseStmt, ShapedStmt, Stands, BuildBody;
    BlockParts(s);
    var names, tag, body := UnparseNames(s.names), UnparseTag(s.tag), UnparseBody(s.body, s.term);
    assert names + tag + [Op(LCURLY)] + (body + [Op(RCURLY)]) == names + tag + [Op(LCURLY)] + body + [Op(RCURLY)];
    BracketsStand(toks, i, names + tag, Op(LCURLY), body, Op(RCURLY));
    k := i + |names + tag|;
    StandsParts(toks, i, names, tag);
    NamesFirst(s.names);
    FirstName(s.names, toks, i);
    TagStands(s.tag, toks, i + |names|);
    LastMark(toks, i + |UnparseStmt(s)| - 1);
  }

  lemma FirstName(names: seq<string>, toks: seq<Token>, i: nat)
    requires names != [] && Stands(toks, i, UnparseNames(names))
    ensures i < |toks| && toks[i].sym == Sym(IDENT, names[0])
  {
    assert UnparseNames(names)[0] == Sym(IDENT, names[0]);
  }

  lemma TagStands(tag: Option<string>, toks: seq<Token>, i: nat)
    requires Stands(toks, i, UnparseTag(tag))
    ensures |UnparseTag(tag)| == if tag.Some? then 1 else 0
    ensures tag.Some? ==> i < |toks| && toks[i].sym == Sym(STRING, tag.value)
  {
    if tag.Some? {
      OneStands(toks, i, Sym(STRING, tag.value));
    }
  }

  lemma AttributeParts(s: CStmt)
    requires s.CAttribute? && ShapedStmt(s) && LexicalStmt(s)
    ensures Shaped(s.value) && Lexical(s.value)
    ensures UnparseStmt(s) == [Sym(IDENT, s.name), Op(ASSIGN)] + Unparse(s.value)
  {
    hide Unparse, Shaped, Lexical;
  }

  lemma AttributeMarks(s: CStmt, toks: seq<Token>, i: nat)
    requires s.CAttribute? && ShapedStmt(s) && LexicalStmt(s) && Stands(toks, i, UnparseStmt(s))
    ensures var a, last := BuildStmt(s, toks, i), i + |UnparseStmt(s)| - 1;
            && i + 1 < last < |toks| && toks[i] == Token(Sym(IDENT, s.name), a.namePos) && toks[i + 1].sym == Op(ASSIGN)
            && StmtStart(a) == toks[i].pos && StmtEnd(a) == LastChar(toks[last])
            && StartOf(a.value) == toks[i + 2].pos
  {
    hide Unparse, UnparseStmt, Shaped, Lexical, ShapedStmt, LexicalStmt, Stands, LastChar, EndOf, StartOf, Build;
    AttributeParts(s);
    StandsParts(toks, i, [Sym(IDENT, s.name), Op(ASSIGN)], Unparse(s.value));
    TwoStand(toks, i, Sym(IDENT, s.name), Op(ASSIGN));
    Span(s.value, toks, i + 2);
  }

  lemma TwoStand(toks: seq<Token>, i: nat, s: Sym, t: Sym)
    requires Stands(toks, i, [s, t])
    ensures i + 1 < |toks| && toks[i].sym == s && toks[i + 1].sym == t
  {
    assert [s, t][0] == s && [s, t][1] == t;
  }
}
