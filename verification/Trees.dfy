// The tree the parser builds for what it reads: a concrete tree with the
// positions of its tokens, and one step of each parsing function, as the loops
// and branches of the parser take it.
module Trees {
  import opened Tokens
  import opened Syntax
  import opened Grammar
  import opened Soundness
  import opened Steps

  function Syms(toks: seq<Token>): (ts: seq<Sym>)
    ensures |ts| == |toks| && forall i :: 0 <= i < |ts| ==> ts[i] == toks[i].sym
  {
    seq(|toks|, i requires 0 <= i < |toks| => toks[i].sym)
  }

  function PosOf(toks: seq<Token>, i: nat): Pos {
    if i < |toks| then toks[i].pos else NoPos
  }

  // ---- the syntax tree of a concrete tree read at i ----

  function Build(c: Cst, toks: seq<Token>, i: nat): Expr
    decreases c, 0
  {
    match c
    case CLit(sym) => Literal(sym.kind, sym.lit, PosOf(toks, i))
    case CName(name) => Identifier(name, PosOf(toks, i))
    case CArray(elems, comma) =>
      Array(BuildList(elems, toks, i + 1), PosOf(toks, i), PosOf(toks, i + 1 + |UnparseList(elems, comma)|))
    case CObject(fields, comma) =>
      Object(BuildFields(fields, toks, i + 1), PosOf(toks, i), PosOf(toks, i + 1 + |UnparseFields(fields, comma)|))
    case CAccess(value, name) =>
      Access(Build(value, toks, i), name, PosOf(toks, i + |Unparse(value)| + 1))
    case CIndex(value, index) =>
      var j := i + |Unparse(value)|;
      Index(Build(value, toks, i), Build(index, toks, j + 1), PosOf(toks, j), PosOf(toks, j + 1 + |Unparse(index)|))
    case CCall(value, args, comma) =>
      var j := i + |Unparse(value)|;
      Call(Build(value, toks, i), BuildList(args, toks, j + 1),
           PosOf(toks, j), PosOf(toks, j + 1 + |UnparseList(args, comma)|))
    case CUnary(op, operand) => Unary(op, PosOf(toks, i), Build(operand, toks, i + 1))
    case CBinary(op, left, right) =>
      var j := i + |Unparse(left)|;
      Binary(op, PosOf(toks, j), Build(left, toks, i), Build(right, toks, j + 1))
    case CParen(inner) => Paren(Build(inner, toks, i + 1), PosOf(toks, i), PosOf(toks, i + 1 + |Unparse(inner)|))
  }

  function BuildList(cs: seq<Cst>, toks: seq<Token>, i: nat): seq<Expr>
    decreases cs, 1
  {
    if cs == [] then []
    else [Build(cs[0], toks, i)] + BuildList(cs[1..], toks, i + |Unparse(cs[0])| + 1)
  }

  // The name of a field: the text of an identifier, or what is between the
  // quotes of a string; an empty string keeps its quotes.
  function FieldName(key: Sym): string {
    if FieldQuoted(key) then key.lit[1..|key.lit| - 1] else key.lit
  }

  predicate FieldQuoted(key: Sym) {
    key.kind.STRING? && |key.lit| > 2
  }

  function BuildField(f: CField, toks: seq<Token>, i: nat): Field
    decreases f, 0
  {
    Field(FieldName(f.key), PosOf(toks, i), FieldQuoted(f.key), Build(f.value, toks, i + 2))
  }

  function BuildFields(fs: seq<CField>, toks: seq<Token>, i: nat): seq<Field>
    decreases fs, 1
  {
    if fs == [] then []
    else [BuildField(fs[0], toks, i)] + BuildFields(fs[1..], toks, i + |UnparseField(fs[0])| + 1)
  }

  // The label between the quotes; an empty one is no label.
  function LabelName(tag: Option<string>): string {
    match tag
    case None => ""
    case Some(text) => if |text| > 2 then text[1..|text| - 1] else ""
  }

  function BuildStmt(s: CStmt, toks: seq<Token>, i: nat): Stmt
    decreases s, 0
  {
    match s
    case CAttribute(name, value) => Attribute(name, PosOf(toks, i), Build(value, toks, i + 2))
    case CBlock(names, tag, body, term) =>
      var n := i + |UnparseNames(names)|;
      var j := n + |UnparseTag(tag)|;
      Block(names, PosOf(toks, i), LabelName(tag), if tag.Some? then PosOf(toks, n) else NoPos,
            BuildBody(body, toks, j + 1), PosOf(toks, j), PosOf(toks, j + 1 + |UnparseBody(body, term)|))
  }

  function BuildBody(ss: seq<CStmt>, toks: seq<Token>, i: nat): seq<Stmt>
    decreases ss, 1
  {
    if ss == [] then []
    else [BuildStmt(ss[0], toks, i)] + BuildBody(ss[1..], toks, i + |UnparseStmt(ss[0])| + 1)
  }

  // ---- sizes: what was read spans its own tokens ----

  lemma PowSize(ts: seq<Sym>, i: nat)
    requires Lexed(ts) && i < |ts| && Pow(ts, i).Ok?
    ensures i + |Unparse(Pow(ts, i).val)| == Pow(ts, i).next
  {
    hide Pow;
    PowSound(ts, i, Pow(ts, i));
  }

  lemma BinOpSize(ts: seq<Sym>, i: nat, inPrec: nat)
    requires Lexed(ts) && i < |ts| && 1 <= inPrec <= 6 && BinOp(ts, i, inPrec).Ok?
    ensures i + |Unparse(BinOp(ts, i, inPrec).val)| == BinOp(ts, i, inPrec).next
  {
    hide BinOp;
    BinOpSound(ts, i, inPrec, BinOp(ts, i, inPrec));
  }

  lemma UnarySize(ts: seq<Sym>, i: nat)
    requires Lexed(ts) && i < |ts| && UnaryExpr(ts, i).Ok?
    ensures i + |Unparse(UnaryExpr(ts, i).val)| == UnaryExpr(ts, i).next
  {
    hide UnaryExpr;
    UnarySound(ts, i, UnaryExpr(ts, i));
  }

  lemma PrimarySize(ts: seq<Sym>, i: nat)
    requires Lexed(ts) && i < |ts| && Primary(ts, i).Ok?
    ensures i + |Unparse(Primary(ts, i).val)| == Primary(ts, i).next
  {
    hide Primary;
    PrimarySound(ts, i, Primary(ts, i));
  }

  lemma ExpressionSize(ts: seq<Sym>, i: nat)
    requires Lexed(ts) && i < |ts| && Expression(ts, i).Ok?
    ensures i + |Unparse(Expression(ts, i).val)| == Expression(ts, i).next
  {
    hide Expression;
    ExpressionSound(ts, i, Expression(ts, i));
  }

  lemma ListSize(ts: seq<Sym>, i: nat, until: Kind)
    requires Lexed(ts) && i < |ts| && (until == RPAREN || until == RBRACK) && ExpressionList(ts, i, until).Ok?
    ensures var Ok(l, k) := ExpressionList(ts, i, until); i + |UnparseList(l.members, l.comma)| == k
  {
    hide ExpressionList;
    ListSound(ts, i, until, ExpressionList(ts, i, until));
  }

  lemma FieldSize(ts: seq<Sym>, i: nat)
    requires Lexed(ts) && i < |ts| && FieldAt(ts, i).Ok?
    ensures i + |UnparseField(FieldAt(ts, i).val)| == FieldAt(ts, i).next
  {
    hide FieldAt;
    FieldSound(ts, i, FieldAt(ts, i));
  }

  lemma FieldsSize(ts: seq<Sym>, i: nat)
    requires Lexed(ts) && i < |ts| && FieldList(ts, i, RCURLY).Ok?
    ensures var Ok(l, k) := FieldList(ts, i, RCURLY); i + |UnparseFields(l.members, l.comma)| == k
  {
    hide FieldList;
    FieldsSound(ts, i, FieldList(ts, i, RCURLY));
  }

  lemma StatementSize(ts: seq<Sym>, i: nat)
    requires Lexed(ts) && i < |ts| && Statement(ts, i).Ok?
    ensures i + |UnparseStmt(Statement(ts, i).val)| == Statement(ts, i).next
  {
    hide Statement;
    StatementSound(ts, i, Statement(ts, i));
  }

  lemma BodySize(ts: seq<Sym>, i: nat, until: Kind)
    requires Lexed(ts) && i < |ts| && (until == RCURLY || until == EOF) && Body(ts, i, until).Ok?
    ensures var Ok(b, k) := Body(ts, i, until); i + |UnparseBody(b.members, b.comma)| == k
  {
    hide Body;
    BodySound(ts, i, until, Body(ts, i, until));
  }

  // ---- one step of each parsing function ----

  lemma BinOpRead(ts: seq<Sym>, i: nat, inPrec: nat)
    requires Lexed(ts) && i < |ts| && 1 <= inPrec <= 6
    ensures Pow(ts, i).Fail? ==> BinOp(ts, i, inPrec).Fail?
    ensures Pow(ts, i).Ok? ==>
              BinOp(ts, i, inPrec) == BinLoop(ts, Pow(ts, i).next, Pow(ts, i).val, inPrec)
              && i + |Unparse(Pow(ts, i).val)| == Pow(ts, i).next
  {
    hide Pow, BinLoop;
    if Pow(ts, i).Ok? {
      PowSize(ts, i);
    }
  }

  lemma LoopEnds(ts: seq<Sym>, j: nat, c: Cst, inPrec: nat)
    requires Lexed(ts) && j < |ts| && 1 <= inPrec <= 6 && BinaryPrecedence(ts[j].kind) < inPrec
    ensures BinLoop(ts, j, c, inPrec) == Ok(c, j)
  {
  }

  lemma OperEnds(ts: seq<Sym>, j: nat, c: Cst)
    requires Lexed(ts) && j < |ts| && !IsPostfix(ts[j].kind)
    ensures Oper(ts, j, c) == Ok(c, j)
  {
  }

  lemma OperRejects(ts: seq<Sym>, j: nat, c: Cst)
    requires Lexed(ts) && j < |ts| && (ts[j].kind == STRING || ts[j].kind == LCURLY)
    ensures Oper(ts, j, c) == Fail
  {
  }

  // The tree of an operand with what follows it.
  lemma AccessBuilt(c: Cst, name: string, toks: seq<Token>, i: nat, j: nat)
    requires i + |Unparse(c)| == j
    ensures i + |Unparse(CAccess(c, name))| == j + 2
    ensures Build(CAccess(c, name), toks, i) == Access(Build(c, toks, i), name, PosOf(toks, j + 1))
  {
  }

  lemma IndexBuilt(c: Cst, d: Cst, toks: seq<Token>, i: nat, j: nat, k: nat)
    requires i + |Unparse(c)| == j && j + 1 + |Unparse(d)| == k
    ensures i + |Unparse(CIndex(c, d))| == k + 1
    ensures Build(CIndex(c, d), toks, i)
            == Index(Build(c, toks, i), Build(d, toks, j + 1), PosOf(toks, j), PosOf(toks, k))
  {
  }

  lemma CallBuilt(c: Cst, l: Exprs, toks: seq<Token>, i: nat, j: nat, k: nat)
    requires i + |Unparse(c)| == j && j + 1 + |UnparseList(l.members, l.comma)| == k
    ensures i + |Unparse(CCall(c, l.members, l.comma))| == k + 1
    ensures Build(CCall(c, l.members, l.comma), toks, i)
            == Call(Build(c, toks, i), BuildList(l.members, toks, j + 1), PosOf(toks, j), PosOf(toks, k))
  {
    hide UnparseList, BuildList;
  }

  lemma BinarySize(op: Kind, c: Cst, d: Cst)
    ensures |Unparse(CBinary(op, c, d))| == |Unparse(c)| + 1 + |Unparse(d)|
  {
  }

  lemma BinaryBuilt(op: Kind, c: Cst, d: Cst, toks: seq<Token>, i: nat, j: nat)
    requires i + |Unparse(c)| == j
    ensures |Unparse(CBinary(op, c, d))| == |Unparse(c)| + 1 + |Unparse(d)|
    ensures Build(CBinary(op, c, d), toks, i) == Binary(op, PosOf(toks, j), Build(c, toks, i), Build(d, toks, j + 1))
  {
    hide Unparse;
    BinarySize(op, c, d);
  }

  lemma OperAccess(ts: seq<Sym>, j: nat, c: Cst)
    requires Lexed(ts) && j < |ts| && ts[j].kind == DOT
    ensures j + 1 < |ts|
    ensures ts[j + 1].kind == IDENT ==> j + 2 < |ts| && Oper(ts, j, c) == Oper(ts, j + 2, CAccess(c, ts[j + 1].lit))
    ensures ts[j + 1].kind != IDENT ==> Oper(ts, j, c) == Fail
  {
  }

  lemma OperIndex(ts: seq<Sym>, j: nat, c: Cst)
    requires Lexed(ts) && j < |ts| && ts[j].kind == LBRACK
    ensures j + 1 < |ts|
    ensures var r := Expression(ts, j + 1);
            if r.Ok? && ts[r.next].kind == RBRACK
            then r.next + 1 < |ts| && Oper(ts, j, c) == Oper(ts, r.next + 1, CIndex(c, r.val))
                 && j + 1 + |Unparse(r.val)| == r.next
            else Oper(ts, j, c) == Fail
  {
    hide Expression, Unparse;
    if Expression(ts, j + 1).Ok? {
      ExpressionSize(ts, j + 1);
    }
  }

  lemma OperCall(ts: seq<Sym>, j: nat, c: Cst)
    requires Lexed(ts) && j < |ts| && ts[j].kind == LPAREN
    ensures j + 1 < |ts|
    ensures var r := ExpressionList(ts, j + 1, RPAREN);
            if r.Ok? && ts[r.next].kind == RPAREN
            then r.next + 1 < |ts| && Oper(ts, j, c) == Oper(ts, r.next + 1, CCall(c, r.val.members, r.val.comma))
                 && j + 1 + |UnparseList(r.val.members, r.val.comma)| == r.next
            else Oper(ts, j, c) == Fail
  {
    hide ExpressionList, UnparseList;
    if ExpressionList(ts, j + 1, RPAREN).Ok? {
      ListSize(ts, j + 1, RPAREN);
    }
  }

  // A primary expression of one token, or none.
  lemma LeafRead(ts: seq<Sym>, i: nat, toks: seq<Token>)
    requires Lexed(ts) && i < |ts| && ts[i].kind != LPAREN && ts[i].kind != LBRACK && ts[i].kind != LCURLY
    ensures ts[i].kind == IDENT ==>
              Primary(ts, i) == Ok(CName(ts[i].lit), i + 1)
              && Build(CName(ts[i].lit), toks, i) == Identifier(ts[i].lit, PosOf(toks, i))
    ensures IsLiteral(ts[i].kind) ==>
              Primary(ts, i) == Ok(CLit(ts[i]), i + 1)
              && Build(CLit(ts[i]), toks, i) == Literal(ts[i].kind, ts[i].lit, PosOf(toks, i))
    ensures ts[i].kind != IDENT && !IsLiteral(ts[i].kind) ==> Primary(ts, i) == Fail
  {
  }

  lemma ParenRead(ts: seq<Sym>, i: nat, toks: seq<Token>)
    requires Lexed(ts) && i < |ts| && ts[i].kind == LPAREN
    ensures i + 1 < |ts|
    ensures var r := Expression(ts, i + 1);
            if r.Ok? && ts[r.next].kind == RPAREN
            then Primary(ts, i) == Ok(CParen(r.val), r.next + 1)
                 && Build(CParen(r.val), toks, i) ==
                     Paren(Build(r.val, toks, i + 1), PosOf(toks, i), PosOf(toks, r.next))
            else Primary(ts, i) == Fail
  {
    hide Expression, Unparse;
    if Expression(ts, i + 1).Ok? {
      ExpressionSize(ts, i + 1);
    }
  }

  lemma ArrayRead(ts: seq<Sym>, i: nat, toks: seq<Token>)
    requires Lexed(ts) && i < |ts| && ts[i].kind == LBRACK
    ensures i + 1 < |ts|
    ensures var r := ExpressionList(ts, i + 1, RBRACK);
            if r.Ok? && ts[r.next].kind == RBRACK
            then var c := CArray(r.val.members, r.val.comma);
                 && Primary(ts, i) == Ok(c, r.next + 1)
                 && Build(c, toks, i) == Array(BuildList(r.val.members, toks, i + 1), PosOf(toks, i),
                     PosOf(toks, r.next))
            else Primary(ts, i) == Fail
  {
    hide ExpressionList, UnparseList, BuildList;
    if ExpressionList(ts, i + 1, RBRACK).Ok? {
      ListSize(ts, i + 1, RBRACK);
    }
  }

  lemma ObjectRead(ts: seq<Sym>, i: nat, toks: seq<Token>)
    requires Lexed(ts) && i < |ts| && ts[i].kind == LCURLY
    ensures i + 1 < |ts|
    ensures ts[i + 1].kind == RBRACK ==> Primary(ts, i) == Fail
    ensures ts[i + 1].kind != RBRACK ==>
              var r := FieldList(ts, i + 1, RCURLY);
              if r.Ok? && ts[r.next].kind == RCURLY
              then var c := CObject(r.val.members, r.val.comma);
                   && Primary(ts, i) == Ok(c, r.next + 1)
                   && Build(c, toks, i) == Object(BuildFields(r.val.members, toks, i + 1), PosOf(toks, i),
                       PosOf(toks, r.next))
              else Primary(ts, i) == Fail
  {
    hide FieldList, UnparseFields, BuildFields;
    if ts[i + 1].kind != RBRACK && FieldList(ts, i + 1, RCURLY).Ok? {
      FieldsSize(ts, i + 1);
    }
  }

  // ---- list loops: what has been read is done, a comma after each member ----

  function Span(cs: seq<Cst>): nat {
    if cs == [] then 0 else |Unparse(cs[0])| + 1 + Span(cs[1..])
  }

  lemma NothingBuilt(toks: seq<Token>, i: nat)
    ensures BuildList([], toks, i) == [] && BuildFields([], toks, i) == [] && BuildBody([], toks, i) == []
    ensures Span([]) == 0
  {
  }

  lemma {:induction false} BuildListSnoc(cs: seq<Cst>, c: Cst, toks: seq<Token>, i: nat)
    ensures Span(cs + [c]) == Span(cs) + |Unparse(c)| + 1
    ensures BuildList(cs + [c], toks, i) == BuildList(cs, toks, i) + [Build(c, toks, i + Span(cs))]
    decreases cs
  {
    hide Build, Unparse;
    var all := cs + [c];
    if cs == [] {
      assert all[1..] == [];
    } else {
      assert all[0] == cs[0] && all[1..] == cs[1..] + [c];
      BuildListSnoc(cs[1..], c, toks, i + |Unparse(cs[0])| + 1);
    }
  }

  ghost predicate ListAt(ts: seq<Sym>, i: nat, until: Kind, done: seq<Cst>, j: nat)
    requires Lexed(ts) && i < |ts| && j < |ts| && (until == RPAREN || until == RBRACK)
  {
    i + Span(done) == j && ExpressionList(ts, i, until) == Extended(done, ExpressionList(ts, j, until))
  }

  lemma ListBegin(ts: seq<Sym>, i: nat, until: Kind)
    requires Lexed(ts) && i < |ts| && (until == RPAREN || until == RBRACK)
    ensures ListAt(ts, i, until, [], i)
  {
    hide ExpressionList;
    ExtendedNone(ExpressionList(ts, i, until));
  }

  // The loop test fails: the list ends here.
  lemma ListEnd(ts: seq<Sym>, i: nat, until: Kind, done: seq<Cst>, j: nat)
    requires Lexed(ts) && i < |ts| && j < |ts| && (until == RPAREN || until == RBRACK)
    requires ListAt(ts, i, until, done, j) && (ts[j].kind == until || ts[j].kind == EOF)
    ensures ExpressionList(ts, i, until) == Ok(Members(done, done != []), j)
  {
    hide ExpressionList;
    ListEmpty(ts, j, until);
    ExtendedEnd(done, j);
  }

  // One turn: the member at j, and what follows it.
  lemma ListMember(ts: seq<Sym>, toks: seq<Token>, i: nat, until: Kind, done: seq<Cst>, j: nat)
    requires Lexed(ts) && i < |ts| && j < |ts| && (until == RPAREN || until == RBRACK)
    requires ListAt(ts, i, until, done, j) && i + Span(done) == j && ts[j].kind != until && ts[j].kind != EOF
    ensures var x := Expression(ts, j);
            && Turned(ts, until, COMMA, done, x, ExpressionList(ts, i, until), ListRest(ts, x, until))
            && (x.Ok? ==>
                  && i + Span(done + [x.val]) == x.next + 1
                  && BuildList(done + [x.val], toks, i) == BuildList(done, toks, i) + [Build(x.val, toks, j)]
                  && (ts[x.next].kind == COMMA ==> ListAt(ts, i, until, done + [x.val], x.next + 1)))
  {
    hide Expression, ExpressionList, Unparse, Build, BuildList, Lexed, Span, Extended;
    var x := Expression(ts, j);
    ListStep(ts, j, until);
    TurnedAfter(ts, until, COMMA, done, x, ExpressionList(ts, j, until), ListRest(ts, x, until));
    if x.Ok? {
      ExpressionSize(ts, j);
      BuildListSnoc(done, x.val, toks, i);
    }
  }

  // One turn of the operator loop.
  lemma LoopTurn(ts: seq<Sym>, j: nat, c: Cst, inPrec: nat)
    requires Lexed(ts) && j + 1 < |ts| && 1 <= inPrec <= BinaryPrecedence(ts[j].kind) <= 5
    ensures var r := BinOp(ts, j + 1, BinaryPrecedence(ts[j].kind) + 1);
            && (r.Fail? ==> BinLoop(ts, j, c, inPrec).Fail?)
            && (r.Ok? ==> BinLoop(ts, j, c, inPrec) == BinLoop(ts, r.next, CBinary(ts[j].kind, c, r.val), inPrec))
  {
    hide BinOp, Lexed;
  }

  lemma LoopRead(ts: seq<Sym>, i: nat, j: nat, c: Cst, inPrec: nat, toks: seq<Token>)
    requires Lexed(ts) && j + 1 < |ts| && 1 <= inPrec <= BinaryPrecedence(ts[j].kind) <= 5
    requires i + |Unparse(c)| == j
    ensures var r := BinOp(ts, j + 1, BinaryPrecedence(ts[j].kind) + 1);
            && (r.Fail? ==> BinLoop(ts, j, c, inPrec).Fail?)
            && (r.Ok? ==> BinLoop(ts, j, c, inPrec) == BinLoop(ts, r.next, CBinary(ts[j].kind, c, r.val), inPrec)
                          && i + |Unparse(CBinary(ts[j].kind, c, r.val))| == r.next
                          && Build(CBinary(ts[j].kind, c, r.val), toks, i)
                             == Binary(ts[j].kind, PosOf(toks, j), Build(c, toks, i), Build(r.val, toks, j + 1)))
  {
    hide BinOp, BinLoop, Build, Unparse, Lexed;
    var p := BinaryPrecedence(ts[j].kind) + 1;
    LoopTurn(ts, j, c, inPrec);
    if BinOp(ts, j + 1, p).Ok? {
      BinOpSize(ts, j + 1, p);
      BinaryBuilt(ts[j].kind, c, BinOp(ts, j + 1, p).val, toks, i, j);
    }
  }

  // A unary expression, and the power of what follows.
  lemma PowRead(ts: seq<Sym>, i: nat, toks: seq<Token>)
    requires Lexed(ts) && i < |ts|
    ensures var l := UnaryExpr(ts, i);
            && (l.Fail? ==> Pow(ts, i) == Fail)
            && (l.Ok? && ts[l.next].kind != POW ==> Pow(ts, i) == l)
            && (l.Ok? && ts[l.next].kind == POW ==>
                  l.next + 1 < |ts| &&
                  var r := Pow(ts, l.next + 1);
                  if r.Ok?
                  then Pow(ts, i) == Ok(CBinary(POW, l.val, r.val), r.next)
                       && Build(CBinary(POW, l.val, r.val), toks, i)
                          == Binary(POW, PosOf(toks, l.next), Build(l.val, toks, i), Build(r.val, toks, l.next + 1))
                  else Pow(ts, i) == Fail)
  {
    hide UnaryExpr, Unparse, Build;
    var l := UnaryExpr(ts, i);
    if l.Ok? && ts[l.next].kind == POW {
      UnarySize(ts, i);
      var r := Pow(ts, l.next + 1);
      if r.Ok? {
        BinaryBuilt(POW, l.val, r.val, toks, i, l.next);
      }
    }
  }

  // ---- the same for fields ----

  function FieldSpan(fs: seq<CField>): nat {
    if fs == [] then 0 else |UnparseField(fs[0])| + 1 + FieldSpan(fs[1..])
  }

  lemma {:induction false} BuildFieldsSnoc(fs: seq<CField>, f: CField, toks: seq<Token>, i: nat)
    ensures FieldSpan(fs + [f]) == FieldSpan(fs) + |UnparseField(f)| + 1
    ensures BuildFields(fs + [f], toks, i) == BuildFields(fs, toks, i) + [BuildField(f, toks, i + FieldSpan(fs))]
    decreases fs
  {
    hide BuildField, UnparseField;
    var all := fs + [f];
    if fs == [] {
      assert all[1..] == [];
    } else {
      assert all[0] == fs[0] && all[1..] == fs[1..] + [f];
      BuildFieldsSnoc(fs[1..], f, toks, i + |UnparseField(fs[0])| + 1);
    }
  }

  ghost predicate FieldsAt(ts: seq<Sym>, i: nat, done: seq<CField>, j: nat)
    requires Lexed(ts) && i < |ts| && j < |ts|
  {
    i + FieldSpan(done) == j && FieldList(ts, i, RCURLY) == Extended(done, FieldList(ts, j, RCURLY))
  }

  lemma FieldsBegin(ts: seq<Sym>, i: nat)
    requires Lexed(ts) && i < |ts|
    ensures FieldsAt(ts, i, [], i) && FieldSpan([]) == 0
  {
    hide FieldList;
    ExtendedNone(FieldList(ts, i, RCURLY));
  }

  lemma FieldsEnd(ts: seq<Sym>, i: nat, done: seq<CField>, j: nat)
    requires Lexed(ts) && i < |ts| && j < |ts|
    requires FieldsAt(ts, i, done, j) && (ts[j].kind == RCURLY || ts[j].kind == EOF)
    ensures FieldList(ts, i, RCURLY) == Ok(Members(done, done != []), j)
  {
    hide FieldList;
    FieldsEmpty(ts, j);
    ExtendedEnd(done, j);
  }

  lemma FieldMember(ts: seq<Sym>, toks: seq<Token>, i: nat, done: seq<CField>, j: nat)
    requires Lexed(ts) && i < |ts| && j < |ts|
    requires FieldsAt(ts, i, done, j) && i + FieldSpan(done) == j && ts[j].kind != RCURLY && ts[j].kind != EOF
    ensures var x := FieldAt(ts, j);
            && Turned(ts, RCURLY, COMMA, done, x, FieldList(ts, i, RCURLY), FieldsRest(ts, x))
            && (x.Ok? ==>
                  && i + FieldSpan(done + [x.val]) == x.next + 1
                  && BuildFields(done + [x.val], toks, i) == BuildFields(done, toks, i) + [BuildField(x.val, toks, j)]
                  && (ts[x.next].kind == COMMA ==> FieldsAt(ts, i, done + [x.val], x.next + 1)))
  {
    hide FieldAt, FieldList, UnparseField, BuildField, BuildFields, Lexed, FieldSpan, Extended;
    var x := FieldAt(ts, j);
    FieldsStep(ts, j);
    TurnedAfter(ts, RCURLY, COMMA, done, x, FieldList(ts, j, RCURLY), FieldsRest(ts, x));
    if x.Ok? {
      FieldSize(ts, j);
      BuildFieldsSnoc(done, x.val, toks, i);
    }
  }

  // ---- and for statements ----

  function StmtSpan(ss: seq<CStmt>): nat {
    if ss == [] then 0 else |UnparseStmt(ss[0])| + 1 + StmtSpan(ss[1..])
  }

  lemma {:induction false} BuildBodySnoc(ss: seq<CStmt>, s: CStmt, toks: seq<Token>, i: nat)
    ensures StmtSpan(ss + [s]) == StmtSpan(ss) + |UnparseStmt(s)| + 1
    ensures BuildBody(ss + [s], toks, i) == BuildBody(ss, toks, i) + [BuildStmt(s, toks, i + StmtSpan(ss))]
    decreases ss
  {
    hide BuildStmt, UnparseStmt;
    var all := ss + [s];
    if ss == [] {
      assert all[1..] == [];
    } else {
      assert all[0] == ss[0] && all[1..] == ss[1..] + [s];
      BuildBodySnoc(ss[1..], s, toks, i + |UnparseStmt(ss[0])| + 1);
    }
  }

  ghost predicate BodyAt(ts: seq<Sym>, i: nat, until: Kind, done: seq<CStmt>, j: nat)
    requires Lexed(ts) && i < |ts| && j < |ts| && (until == RCURLY || until == EOF)
  {
    i + StmtSpan(done) == j && Body(ts, i, until) == Extended(done, Body(ts, j, until))
  }

  lemma BodyBegin(ts: seq<Sym>, i: nat, until: Kind)
    requires Lexed(ts) && i < |ts| && (until == RCURLY || until == EOF)
    ensures BodyAt(ts, i, until, [], i) && StmtSpan([]) == 0
  {
    hide Body;
    ExtendedNone(Body(ts, i, until));
  }

  lemma BodyEnd(ts: seq<Sym>, i: nat, until: Kind, done: seq<CStmt>, j: nat)
    requires Lexed(ts) && i < |ts| && j < |ts| && (until == RCURLY || until == EOF)
    requires BodyAt(ts, i, until, done, j) && (ts[j].kind == until || ts[j].kind == EOF)
    ensures Body(ts, i, until) == Ok(Members(done, done != []), j)
  {
    hide Body;
    BodyEmpty(ts, j, until);
    ExtendedEnd(done, j);
  }

  lemma BodyMember(ts: seq<Sym>, toks: seq<Token>, i: nat, until: Kind, done: seq<CStmt>, j: nat)
    requires Lexed(ts) && i < |ts| && j < |ts| && (until == RCURLY || until == EOF)
    requires BodyAt(ts, i, until, done, j) && i + StmtSpan(done) == j && ts[j].kind != until && ts[j].kind != EOF
    ensures var x := Statement(ts, j);
            && Turned(ts, until, TERMINATOR, done, x, Body(ts, i, until), BodyRest(ts, x, until))
            && (x.Ok? ==>
                  && i + StmtSpan(done + [x.val]) == x.next + 1
                  && BuildBody(done + [x.val], toks, i) == BuildBody(done, toks, i) + [BuildStmt(x.val, toks, j)]
                  && (ts[x.next].kind == TERMINATOR ==> BodyAt(ts, i, until, done + [x.val], x.next + 1)))
  {
    hide Statement, Body, UnparseStmt, BuildStmt, BuildBody, Lexed, StmtSpan, Extended;
    var x := Statement(ts, j);
    BodyStep(ts, j, until);
    TurnedAfter(ts, until, TERMINATOR, done, x, Body(ts, j, until), BodyRest(ts, x, until));
    if x.Ok? {
      StatementSize(ts, j);
      BuildBodySnoc(done, x.val, toks, i);
    }
  }

  // A body that is read ends where it should, or at the end of the file.
  lemma {:induction false} BodyStops(ts: seq<Sym>, i: nat, until: Kind)
    requires Lexed(ts) && i < |ts| && (until == RCURLY || until == EOF) && Body(ts, i, until).Ok?
    ensures ts[Body(ts, i, until).next].kind in {until, EOF}
    decreases |ts| - i
  {
    hide Statement, Lexed, Body;
    if ts[i].kind == until || ts[i].kind == EOF {
      BodyEmpty(ts, i, until);
    } else {
      BodyStep(ts, i, until);
      var x := Statement(ts, i);
      if x.Ok? && ts[x.next].kind == TERMINATOR {
        BodyStops(ts, x.next + 1, until);
      }
    }
  }

  // ---- block names ----

  lemma {:induction false} NamesSize(names: seq<string>)
    requires names != []
    ensures |UnparseNames(names)| == 2 * |names| - 1
  {
    if |names| > 1 {
      NamesSize(names[1..]);
    }
  }

  // The fragments done end at j; more come if a dot stands there.
  ghost predicate FragmentsAt(ts: seq<Sym>, i: nat, done: seq<string>, j: nat)
    requires Lexed(ts) && i < |ts| && j < |ts|
  {
    && done != [] && i + 2 * |done| - 1 == j
    && Fragments(ts, i) ==
       if ts[j].kind != DOT then Ok(done, j)
       else if j + 1 >= |ts| then Fail
       else match Fragments(ts, j + 1)
            case Fail => Fail
            case Ok(rest, k) => Ok(done + rest, k)
  }

  lemma FragmentsBegin(ts: seq<Sym>, i: nat)
    requires Lexed(ts) && i < |ts| && ts[i].kind == IDENT
    ensures i + 1 < |ts| && FragmentsAt(ts, i, [ts[i].lit], i + 1)
  {
  }

  lemma FragmentsTurn(ts: seq<Sym>, i: nat, done: seq<string>, j: nat)
    requires Lexed(ts) && i < |ts| && j < |ts| && FragmentsAt(ts, i, done, j) && ts[j].kind == DOT
    ensures j + 1 < |ts|
    ensures if ts[j + 1].kind == IDENT then j + 2 < |ts| && FragmentsAt(ts, i, done + [ts[j + 1].lit], j + 2)
            else Fragments(ts, i) == Fail
  {
    if ts[j + 1].kind == IDENT && ts[j + 2].kind == DOT {
      assert j + 3 < |ts|;
      match Fragments(ts, j + 3)
      case Fail =>
      case Ok(rest, k) => assert done + ([ts[j + 1].lit] + rest) == done + [ts[j + 1].lit] + rest;
    }
  }

  lemma FragmentsEnd(ts: seq<Sym>, i: nat, done: seq<string>, j: nat)
    requires Lexed(ts) && i < |ts| && j < |ts| && FragmentsAt(ts, i, done, j) && ts[j].kind != DOT
    ensures Fragments(ts, i) == Ok(done, j) && i + 2 * |done| - 1 == j
  {
  }

  lemma NoFragments(ts: seq<Sym>, i: nat)
    requires Lexed(ts) && i < |ts| && ts[i].kind != IDENT
    ensures Fragments(ts, i) == Fail
  {
  }

  lemma BlockNameRead(ts: seq<Sym>, i: nat)
    requires Lexed(ts) && i < |ts|
    ensures Fragments(ts, i).Fail? ==> BlockName(ts, i) == Fail
    ensures Fragments(ts, i).Ok? ==>
              var Ok(names, j) := Fragments(ts, i);
              BlockName(ts, i) ==
              if ts[j].kind == ASSIGN || ts[j].kind == LCURLY then Ok(Header(names, None), j)
              else if ts[j].kind == STRING && LabelOk(ts[j].lit) then Ok(Header(names, Some(ts[j].lit)), j + 1)
              else Fail
  {
    hide Fragments, LabelOk;
  }

  lemma StatementRead(ts: seq<Sym>, i: nat)
    requires Lexed(ts) && i < |ts|
    ensures BlockName(ts, i).Fail? ==> Statement(ts, i) == Fail
    ensures BlockName(ts, i).Ok? ==>
              var Ok(h, j) := BlockName(ts, i);
              && (ts[j].kind == ASSIGN ==> Statement(ts, i) == AttributeTail(ts, j, h))
              && (ts[j].kind == LCURLY ==> Statement(ts, i) == BlockTail(ts, j, h))
              && (ts[j].kind != ASSIGN && ts[j].kind != LCURLY ==> Statement(ts, i) == Fail)
  {
    hide BlockName, AttributeTail;
  }
}
