// internal.go: the recursive-descent parser, with its error recovery. Each
// method is proved against the function of Grammar that has its name: starting
// with no diagnostics, it ends with none exactly when the function reads
// something, and then it returns that tree, with the positions of its tokens,
// and stands after it. Every method terminates on every input.
module Parsers {
  import opened Tokens
  import opened Syntax
  import opened Lines
  import opened Grammar
  import opened Steps
  import opened Trees
  import opened Documented

  datatype BlockHeader = BlockHeader(names: seq<string>, start: Pos, tag: string, tagPos: Pos)

  // Every token has its position.
  predicate Placed(toks: seq<Token>) {
    forall i :: 0 <= i < |toks| ==> toks[i].pos.PosAt?
  }

  // What a token of kind k adds to the open brackets of one sort.
  function Delta(k: Kind, open: Kind, close: Kind): int {
    if k == open then 1 else if k == close then -1 else 0
  }

  // Of one sort of bracket, how many more are opened than closed from i to j.
  function Pairs(ts: seq<Sym>, i: nat, j: nat, open: Kind, close: Kind): int
    requires i <= j <= |ts|
    decreases j - i
  {
    if i == j then 0 else Pairs(ts, i, j - 1, open, close) + Delta(ts[j - 1].kind, open, close)
  }

  // No bracket opened since i is still open at j. More may be closed than were
  // opened: a statement can start inside brackets.
  predicate Outside(ts: seq<Sym>, i: nat, j: nat)
    requires i <= j <= |ts|
  {
    && Pairs(ts, i, j, LCURLY, RCURLY) <= 0
    && Pairs(ts, i, j, LBRACK, RBRACK) <= 0
    && Pairs(ts, i, j, LPAREN, RPAREN) <= 0
  }

  // From i to j no statement ends.
  ghost predicate Within(ts: seq<Sym>, i: nat, j: nat)
    requires i <= j <= |ts|
  {
    forall k :: i <= k < j ==> ts[k].kind != EOF && (ts[k].kind == TERMINATOR ==> !Outside(ts, i, k))
  }

  // The brackets open at j are counted, and the statement goes on until there.
  ghost predicate Counted(ts: seq<Sym>, i: nat, j: nat, curly: int, brack: int, paren: int)
    requires i <= j <= |ts|
  {
    && Within(ts, i, j) && curly == Pairs(ts, i, j, LCURLY, RCURLY)
    && brack == Pairs(ts, i, j, LBRACK, RBRACK) && paren == Pairs(ts, i, j, LPAREN, RPAREN)
  }

  lemma CountedNone(ts: seq<Sym>, i: nat)
    requires i <= |ts|
    ensures Counted(ts, i, i, 0, 0, 0)
  {
  }

  lemma CountedEnd(ts: seq<Sym>, i: nat, j: nat, curly: int, brack: int, paren: int)
    requires i <= j <= |ts| && Counted(ts, i, j, curly, brack, paren)
    ensures Within(ts, i, j) && (Outside(ts, i, j) <==> curly <= 0 && brack <= 0 && paren <= 0)
  {
  }

  lemma CountedNext(ts: seq<Sym>, i: nat, j: nat, curly: int, brack: int, paren: int)
    requires i <= j < |ts| && Counted(ts, i, j, curly, brack, paren)
    requires ts[j].kind != EOF && (ts[j].kind == TERMINATOR ==> !Outside(ts, i, j))
    ensures var k := ts[j].kind;
            Counted(ts, i, j + 1, curly + Delta(k, LCURLY, RCURLY), brack + Delta(k, LBRACK, RBRACK),
                    paren + Delta(k, LPAREN, RPAREN))
  {
  }

  lemma NoBracket()
    ensures Delta(TERMINATOR, LCURLY, RCURLY) == 0 && Delta(TERMINATOR, LBRACK, RBRACK) == 0
    ensures Delta(TERMINATOR, LPAREN, RPAREN) == 0
  {
  }

  class Parser {
    const toks: seq<Token>
    const lines: seq<nat>
    var idx: nat
    var diags: nat
    var lastErrorLine: nat

    ghost function Ts(): seq<Sym> {
      Syms(toks)
    }

    ghost predicate Valid()
      reads this
    {
      && Lexed(Ts()) && idx < |toks| && Increasing(lines)
      && Placed(toks) && (lastErrorLine != 0 ==> diags > 0)
    }

    constructor (toks: seq<Token>, lines: seq<nat>)
      requires Lexed(Syms(toks)) && Increasing(lines) && Placed(toks)
      ensures Valid() && this.toks == toks && idx == 0 && diags == 0
    {
      this.toks, this.lines := toks, lines;
      idx, diags, lastErrorLine := 0, 0, 0;
    }

    // The current token.
    function Tok(): Kind
      requires idx < |toks|
      reads this
    {
      toks[idx].sym.kind
    }

    function Lit(): string
      requires idx < |toks|
      reads this
    {
      toks[idx].sym.lit
    }

    function CurPos(): Pos
      requires idx < |toks|
      reads this
    {
      toks[idx].pos
    }

    // next stays at the end of the file once there.
    method Next()
      requires Valid()
      modifies this`idx
      ensures Valid() && idx == if toks[old(idx)].sym.kind == EOF then old(idx) else old(idx) + 1
    {
      if Tok() != EOF {
        assert Ts()[idx].kind != EOF;
        idx := idx + 1;
      }
    }

    // Two errors on one line count once.
    method AddError()
      requires Valid()
      modifies this`diags, this`lastErrorLine
      ensures Valid() && diags > 0 && lastErrorLine == LineOf(lines, CurPos())
      ensures diags == old(diags) + if old(lastErrorLine) == lastErrorLine then 0 else 1
    {
      var line := LineOf(lines, CurPos());
      assert lines[0] <= CurPos().off;
      if lastErrorLine == line {
        return;
      }
      lastErrorLine := line;
      diags := diags + 1;
    }

    // An error reported whatever its line.
    method AddDiag()
      requires Valid()
      modifies this`diags
      ensures Valid() && diags == old(diags) + 1
    {
      diags := diags + 1;
    }

    method Expect(k: Kind) returns (pos: Pos, tok: Kind, lit: string)
      requires Valid() && k != EOF
      modifies this
      ensures Valid() && idx == if old(Tok()) == EOF then old(idx) else old(idx) + 1
      ensures pos == toks[old(idx)].pos && tok == toks[old(idx)].sym.kind && lit == toks[old(idx)].sym.lit
      ensures diags >= old(diags)
      ensures if tok == k then diags == old(diags) else diags > 0
    {
      pos, tok, lit := CurPos(), Tok(), Lit();
      if tok != k {
        AddError();
      }
      Next();
    }

    // Consumes tokens up to one of the given kinds.
    method AdvanceAny(to: set<Kind>)
      requires Valid()
      modifies this`idx
      ensures Valid() && idx >= old(idx) && (Tok() in to || Tok() == EOF)
      ensures forall i :: old(idx) <= i < idx ==> toks[i].sym.kind !in to
    {
      while Tok() != EOF
        invariant Valid() && idx >= old(idx)
        invariant forall i :: old(idx) <= i < idx ==> toks[i].sym.kind !in to
        decreases |toks| - idx
      {
        if Tok() in to {
          return;
        }
        Next();
      }
    }

    method Advance(to: Kind)
      requires Valid()
      modifies this`idx
      ensures Valid() && idx >= old(idx) && (Tok() == to || Tok() == EOF)
      ensures forall i :: old(idx) <= i < idx ==> toks[i].sym.kind != to
    {
      AdvanceAny({to});
    }

    // Counts the current token if it is a bracket.
    method Count(curlyPairs: int, brackPairs: int, parenPairs: int) returns (curly: int, brack: int, paren: int)
      requires Valid()
      ensures curly == curlyPairs + Delta(Tok(), LCURLY, RCURLY)
      ensures brack == brackPairs + Delta(Tok(), LBRACK, RBRACK)
      ensures paren == parenPairs + Delta(Tok(), LPAREN, RPAREN)
    {
      hide Syms, Lexed, Increasing, Placed;
      curly, brack, paren := curlyPairs, brackPairs, parenPairs;
      match Tok() {
        case LCURLY => curly := curly + 1;
        case RCURLY => curly := curly - 1;
        case LBRACK => brack := brack + 1;
        case RBRACK => brack := brack - 1;
        case LPAREN => paren := paren + 1;
        case RPAREN => paren := paren - 1;
        case _ =>
      }
    }

    // Consumes the rest of a statement: up to the first terminator outside the
    // brackets opened on the way.
    method ConsumeStatement()
      requires Valid()
      modifies this`idx
      ensures Valid() && idx >= old(idx) && Within(Ts(), old(idx), idx)
      ensures Tok() == EOF || (Tok() == TERMINATOR && Outside(Ts(), old(idx), idx))
    {
      hide Pairs, Within, Outside, Counted, Delta, Syms, Lexed, Increasing, Placed;
      var curlyPairs, brackPairs, parenPairs := 0, 0, 0;
      ghost var ts, i := Ts(), idx;
      CountedNone(ts, i);
      while Tok() != EOF
        invariant Valid() && idx >= i && Counted(ts, i, idx, curlyPairs, brackPairs, parenPairs)
        decreases |toks| - idx
      {
        assert ts[idx].kind == Tok();
        CountedEnd(ts, i, idx, curlyPairs, brackPairs, parenPairs);
        ghost var curly, brack, paren := curlyPairs, brackPairs, parenPairs;
        curlyPairs, brackPairs, parenPairs := Count(curlyPairs, brackPairs, parenPairs);
        if Tok() == TERMINATOR {
          NoBracket();
          if curlyPairs <= 0 && brackPairs <= 0 && parenPairs <= 0 {
            return;
          }
        }
        CountedNext(ts, i, idx, curly, brack, paren);
        Next();
      }
      CountedEnd(ts, i, idx, curlyPairs, brackPairs, parenPairs);
    }

    // A method that started at i with was diagnostics did what r says.
    ghost predicate Did(i: nat, was: nat, r: Read<Cst>, e: Expr)
      reads this
    {
      was == 0 ==> if r.Ok? then diags == 0 && idx == r.next && e == Build(r.val, toks, i) else diags > 0
    }

    ghost predicate DidList(i: nat, was: nat, r: Read<Exprs>, es: seq<Expr>)
      reads this
    {
      was == 0 ==> if r.Ok? then diags == 0 && idx == r.next && es == BuildList(r.val.members, toks, i) else diags > 0
    }

    ghost predicate DidFields(i: nat, was: nat, r: Read<Fields>, fs: seq<Field>)
      reads this
    {
      was == 0 ==> if r.Ok? then diags == 0 && idx == r.next && fs == BuildFields(r.val.members, toks, i) else diags > 0
    }

    ghost predicate DidBody(i: nat, was: nat, r: Read<Stmts>, ss: seq<Stmt>)
      reads this
    {
      was == 0 ==> if r.Ok? then diags == 0 && idx == r.next && ss == BuildBody(r.val.members, toks, i) else diags > 0
    }

    method ParseExpression() returns (e: Expr)
      requires Valid()
      modifies this
      ensures Valid() && idx >= old(idx) && diags >= old(diags)
      ensures Did(old(idx), old(diags), Expression(Ts(), old(idx)), e)
      decreases |toks| - idx, 8
    {
      e := ParseBinOp(1);
    }

    method ParseBinOp(inPrec: nat) returns (lhs: Expr)
      requires Valid() && 1 <= inPrec <= 6
      modifies this
      ensures Valid() && idx >= old(idx) && diags >= old(diags) && Tok() != POW
      ensures Did(old(idx), old(diags), BinOp(Ts(), old(idx), inPrec), lhs)
      decreases |toks| - idx, 7
    {
      hide Unparse, Pow, Lexed, Build, BinOp, BinLoop, Syms, Placed, Increasing;
      ghost var i, was, r := idx, diags, Pow(Ts(), idx);
      lhs := ParsePowExpr();
      ghost var c := if r.Ok? then r.val else CName("");
      if was == 0 {
        BinOpRead(Ts(), i, inPrec);
      }
      while true
        invariant Valid() && idx >= i && diags >= was && Tok() != POW
        invariant Looped(i, was, inPrec, c, lhs)
        decreases |toks| - idx
      {
        var tok, pos, prec := Tok(), CurPos(), BinaryPrecedence(Tok());
        if prec < inPrec {
          LoopEnds(Ts(), idx, c, inPrec);
          return;
        }
        ghost var j, before := idx, diags;
        Next();
        ghost var s := BinOp(Ts(), idx, prec + 1);
        var rhs := ParseBinOp(prec + 1);
        if was == 0 && before == 0 {
          LoopRead(Ts(), i, j, c, inPrec, toks);
        }
        lhs := Binary(tok, pos, lhs, rhs);
        c := if s.Ok? then CBinary(tok, c, s.val) else c;
      }
    }

    // The left operand collected so far is c.
    ghost predicate Looped(i: nat, was: nat, inPrec: nat, c: Cst, lhs: Expr)
      requires Valid() && i < |toks| && 1 <= inPrec <= 6 && Tok() != POW
      reads this
    {
      was == 0 ==>
        if diags == 0 then lhs == Build(c, toks, i) && i + |Unparse(c)| == idx
                           && BinOp(Ts(), i, inPrec) == BinLoop(Ts(), idx, c, inPrec)
        else BinOp(Ts(), i, inPrec).Fail?
    }

    method ParsePowExpr() returns (e: Expr)
      requires Valid()
      modifies this
      ensures Valid() && idx >= old(idx) && diags >= old(diags) && Tok() != POW
      ensures Did(old(idx), old(diags), Pow(Ts(), old(idx)), e)
      decreases |toks| - idx, 6
    {
      hide UnaryExpr, Pow, Build, Lexed, Syms, Placed, Increasing;
      PowRead(Ts(), idx, toks);
      var lhs := ParseUnaryExpr();
      if Tok() == POW {
        var pos := CurPos();
        Next();
        var rhs := ParsePowExpr();
        return Binary(POW, pos, lhs, rhs);
      }
      return lhs;
    }

    method ParseUnaryExpr() returns (primary: Expr)
      requires Valid()
      modifies this
      ensures Valid() && idx >= old(idx) && diags >= old(diags)
      ensures Did(old(idx), old(diags), UnaryExpr(Ts(), old(idx)), primary)
      decreases |toks| - idx, 5
    {
      hide Unparse, Primary, Oper, Lexed, Syms, Placed, Increasing;
      ghost var i, was, r := idx, diags, Primary(Ts(), idx);
      if IsUnaryOp(Tok()) {
        var op, pos := Tok(), CurPos();
        Next();
        var value := ParseUnaryExpr();
        return Unary(op, pos, value);
      }
      primary := ParsePrimaryExpr();
      ghost var c := if r.Ok? then r.val else CName("");
      if r.Ok? {
        PrimarySize(Ts(), i);
      }
      primary := ParseOpers(primary, i, c);
    }

    // e is the tree of c, which ends here, unless there are diagnostics.
    ghost predicate Holds(i: nat, c: Cst, e: Expr)
      reads this
    {
      diags == 0 ==> e == Build(c, toks, i) && i + |Unparse(c)| == idx
    }

    // The loop over accesses, indexes and calls.
    method ParseOpers(operand: Expr, ghost i: nat, ghost c0: Cst) returns (primary: Expr)
      requires Valid() && Holds(i, c0, operand)
      modifies this
      ensures Valid() && idx >= old(idx) && diags >= old(diags)
      ensures Did(i, old(diags), Oper(Ts(), old(idx), c0), primary)
      decreases |toks| - idx, 2
    {
      hide Oper, Lexed, Syms, Placed, Increasing, LineOf, Unparse, Build;
      ghost var j, was, c := idx, diags, c0;
      primary := operand;
      while true
        invariant Valid() && idx >= j && diags >= was
        invariant Holds(i, c, primary)
        invariant was == 0 ==>
          if diags == 0 then Oper(Ts(), j, c0) == Oper(Ts(), idx, c) else Oper(Ts(), j, c0).Fail?
        decreases |toks| - idx
      {
        var stop;
        primary, c, stop := ParseOper(primary, i, c);
        if stop {
          return;
        }
      }
    }

    // With a diagnostic there is nothing to tell of the tree.
    lemma AfterError(i: nat, c: Cst, e: Expr)
      requires diags > 0
      ensures Holds(i, c, e)
    {
    }

    // One turn of the loop; stop says that it is left.
    method ParseOper(primary: Expr, ghost i: nat, ghost c: Cst) returns (e: Expr, ghost c': Cst, stop: bool)
      requires Valid() && Holds(i, c, primary)
      modifies this
      ensures Valid() && idx >= old(idx) && (!stop ==> idx > old(idx)) && diags >= old(diags) && Holds(i, c', e)
      ensures old(diags) == 0 ==>
        if diags > 0 then Oper(Ts(), old(idx), c).Fail? else
        Oper(Ts(), old(idx), c) == if stop then Ok(c', idx) else Oper(Ts(), idx, c')
      decreases |toks| - idx, 1, 1
    {
      hide Unparse, Oper, Lexed, Build, Syms, Placed, Increasing, LineOf, Parser.Holds;
      e, c', stop := primary, c, false;
      match Tok() {
        case DOT => e, c' := ParseAccess(primary, i, c);
        case LBRACK => e, c' := ParseIndex(primary, i, c);
        case LPAREN => e, c' := ParseCall(primary, i, c);
        case STRING | LCURLY =>
          OperRejects(Ts(), idx, c);
          stop := ParseMisplacedBlock();
          AfterError(i, c, e);
        case _ =>
          OperEnds(Ts(), idx, c);
          stop := true;
      }
    }

    method ParseAccess(primary: Expr, ghost i: nat, ghost c: Cst) returns (e: Expr, ghost c': Cst)
      requires Valid() && Tok() == DOT && Holds(i, c, primary)
      modifies this
      ensures Valid() && idx > old(idx) && diags >= old(diags) && Holds(i, c', e)
      ensures old(diags) == 0 ==>
        if diags == 0 then Oper(Ts(), old(idx), c) == Oper(Ts(), idx, c') else Oper(Ts(), old(idx), c).Fail?
    {
      hide Unparse, Oper, Build, Lexed, Syms, Placed, Increasing;
      ghost var j := idx;
      OperAccess(Ts(), j, c);
      if diags == 0 {
        AccessBuilt(c, Ts()[j + 1].lit, toks, i, j);
      }
      Next();
      var namePos, _, name := Expect(IDENT);
      e, c' := Access(primary, name, namePos), CAccess(c, name);
    }

    method ParseIndex(primary: Expr, ghost i: nat, ghost c: Cst) returns (e: Expr, ghost c': Cst)
      requires Valid() && Tok() == LBRACK && Holds(i, c, primary)
      modifies this
      ensures Valid() && idx > old(idx) && diags >= old(diags) && Holds(i, c', e)
      ensures old(diags) == 0 ==>
        if diags == 0 then Oper(Ts(), old(idx), c) == Oper(Ts(), idx, c') else Oper(Ts(), old(idx), c).Fail?
      decreases |toks| - idx, 1, 0
    {
      hide Unparse, Lexed, Oper, Build, Expression, Syms, Placed, Increasing;
      ghost var j := idx;
      OperIndex(Ts(), j, c);
      var lBrack, _, _ := Expect(LBRACK);
      ghost var r := Expression(Ts(), idx);
      var index := ParseExpression();
      var rBrack, _, _ := Expect(RBRACK);
      e := Index(primary, index, lBrack, rBrack);
      c' := CIndex(c, if r.Ok? then r.val else c);
      if diags == 0 {
        IndexBuilt(c, r.val, toks, i, j, r.next);
      }
    }

    method ParseCall(primary: Expr, ghost i: nat, ghost c: Cst) returns (e: Expr, ghost c': Cst)
      requires Valid() && Tok() == LPAREN && Holds(i, c, primary)
      modifies this
      ensures Valid() && idx > old(idx) && diags >= old(diags) && Holds(i, c', e)
      ensures old(diags) == 0 ==>
        if diags == 0 then Oper(Ts(), old(idx), c) == Oper(Ts(), idx, c') else Oper(Ts(), old(idx), c).Fail?
      decreases |toks| - idx, 1, 0
    {
      hide Unparse, UnparseList, Lexed, Oper, ExpressionList, Build, BuildList, Syms, Placed, Increasing;
      ghost var j := idx;
      OperCall(Ts(), j, c);
      var lParen, _, _ := Expect(LPAREN);
      ghost var r := ExpressionList(Ts(), idx, RPAREN);
      var args := ParseListBefore(RPAREN);
      var rParen, _, _ := Expect(RPAREN);
      e := Call(primary, args, lParen, rParen);
      c' := CCall(c, if r.Ok? then r.val.members else [], r.Ok? && r.val.comma);
      if diags == 0 {
        CallBuilt(c, r.val, toks, i, j, r.next);
      }
    }

    // A block where an expression should end: an error whatever it holds.
    method ParseMisplacedBlock() returns (stop: bool)
      requires Valid() && (Tok() == STRING || Tok() == LCURLY)
      modifies this
      ensures Valid() && idx > old(idx) && diags > 0 && diags >= old(diags)
      decreases |toks| - idx, 1, 0
    {
      hide Lexed, Syms, Placed, Increasing;
      ghost var j := idx;
      if Tok() == STRING {
        Next();
      }
      var _, tok, _ := Expect(LCURLY);
      if tok != LCURLY {
        ConsumeStatement();
        return true;
      }
      var _ := ParseBody(RCURLY);
      var _, tok', _ := Expect(RCURLY);
      if tok' != RCURLY {
        ConsumeStatement();
        return true;
      }
      AddDiag();
      return false;
    }

    method ParsePrimaryExpr() returns (e: Expr)
      requires Valid()
      modifies this
      ensures Valid() && idx >= old(idx) && diags >= old(diags)
      ensures Did(old(idx), old(diags), Primary(Ts(), old(idx)), e)
      decreases |toks| - idx, 4
    {
      hide Lexed, Primary, Build, Syms, Placed, Increasing;
      match Tok() {
        case LPAREN => e := ParseParen();
        case LBRACK => e := ParseArray();
        case LCURLY => e := ParseObject();
        case _ => e := ParseLeaf();
      }
    }

    // An identifier or a literal; anything else is an error.
    method ParseLeaf() returns (e: Expr)
      requires Valid() && Tok() != LPAREN && Tok() != LBRACK && Tok() != LCURLY
      modifies this
      ensures Valid() && idx >= old(idx) && diags >= old(diags)
      ensures Did(old(idx), old(diags), Primary(Ts(), old(idx)), e)
    {
      hide Lexed, Primary, Build, Syms, Placed, Increasing;
      LeafRead(Ts(), idx, toks);
      if Tok() == IDENT {
        e := Identifier(Lit(), CurPos());
        Next();
      } else if IsLiteral(Tok()) {
        e := Literal(Tok(), Lit(), CurPos());
        Next();
      } else {
        AddError();
        e := Literal(NULL, "null", CurPos());
        AdvanceAny({TERMINATOR, RPAREN, RCURLY, RBRACK, COMMA});
      }
    }

    method ParseParen() returns (e: Expr)
      requires Valid() && Tok() == LPAREN
      modifies this
      ensures Valid() && idx > old(idx) && diags >= old(diags)
      ensures Did(old(idx), old(diags), Primary(Ts(), old(idx)), e)
      decreases |toks| - idx, 3
    {
      hide Lexed, Primary, Expression, Build, Syms, Placed, Increasing;
      ParenRead(Ts(), idx, toks);
      var lParen, _, _ := Expect(LPAREN);
      var inner := ParseExpression();
      var rParen, _, _ := Expect(RPAREN);
      e := Paren(inner, lParen, rParen);
    }

    method ParseArray() returns (e: Expr)
      requires Valid() && Tok() == LBRACK
      modifies this
      ensures Valid() && idx > old(idx) && diags >= old(diags)
      ensures Did(old(idx), old(diags), Primary(Ts(), old(idx)), e)
      decreases |toks| - idx, 3
    {
      hide Lexed, Primary, ExpressionList, Build, BuildList, Syms, Placed, Increasing;
      ArrayRead(Ts(), idx, toks);
      var lBrack, _, _ := Expect(LBRACK);
      var elements := ParseListBefore(RBRACK);
      var rBrack, _, _ := Expect(RBRACK);
      e := Array(elements, lBrack, rBrack);
    }

    // The test is for a closing square bracket, as in the source; an object
    // that starts with one is rejected either way.
    method ParseObject() returns (e: Expr)
      requires Valid() && Tok() == LCURLY
      modifies this
      ensures Valid() && idx > old(idx) && diags >= old(diags)
      ensures Did(old(idx), old(diags), Primary(Ts(), old(idx)), e)
      decreases |toks| - idx, 3
    {
      hide Lexed, FieldList, Build, BuildFields, Primary, Syms, Placed, Increasing;
      ObjectRead(Ts(), idx, toks);
      var fields := [];
      var lCurly, _, _ := Expect(LCURLY);
      if Tok() != RBRACK {
        fields := ParseFieldList(RCURLY);
      }
      var rCurly, _, _ := Expect(RCURLY);
      e := Object(fields, lCurly, rCurly);
    }

    // A list, unless the closing bracket is there already.
    method ParseListBefore(until: Kind) returns (exprs: seq<Expr>)
      requires Valid() && (until == RPAREN || until == RBRACK)
      modifies this
      ensures Valid() && idx >= old(idx) && diags >= old(diags)
      ensures DidList(old(idx), old(diags), ExpressionList(Ts(), old(idx), until), exprs)
      decreases |toks| - idx, 11
    {
      hide Lexed, ExpressionList, BuildList, Syms, Placed, Increasing;
      exprs := [];
      if Tok() != until {
        exprs := ParseExpressionList(until);
      } else {
        ListEmpty(Ts(), idx, until);
        NothingBuilt(toks, idx);
      }
    }

    method ParseExpressionList(until: Kind) returns (exprs: seq<Expr>)
      requires Valid() && (until == RPAREN || until == RBRACK)
      modifies this
      ensures Valid() && idx >= old(idx) && diags >= old(diags)
      ensures DidList(old(idx), old(diags), ExpressionList(Ts(), old(idx), until), exprs)
      decreases |toks| - idx, 10
    {
      hide Lexed, Unparse, Expression, ExpressionList, Build, BuildList, ListAt, Syms, Span, Placed, Increasing;
      ghost var i, was, done := idx, diags, [];
      exprs := [];
      ListBegin(Ts(), i, until);
      NothingBuilt(toks, i);
      while Tok() != until && Tok() != EOF
        invariant Valid() && idx >= i && diags >= was
        invariant Listing(i, was, until, done, exprs)
        decreases |toks| - idx
      {
        var e, stop;
        e, done, stop := ParseElement(until, i, was, done, exprs);
        exprs := exprs + [e];
        if stop {
          return;
        }
      }
      if was == 0 && diags == 0 {
        ListEnd(Ts(), i, until, done, idx);
      }
    }

    // The members read so far are done, each with a comma after it.
    ghost predicate Listing(i: nat, was: nat, until: Kind, done: seq<Cst>, exprs: seq<Expr>)
      requires Valid() && i < |toks| && (until == RPAREN || until == RBRACK)
      reads this
    {
      was == 0 ==>
        if diags == 0 then ListAt(Ts(), i, until, done, idx) && i + Span(done) == idx
            && exprs == BuildList(done, toks, i)
        else ExpressionList(Ts(), i, until).Fail?
    }

    // One turn of the loop; stop says that the list ends with this member.
    method ParseElement(until: Kind, ghost i: nat, ghost was: nat, ghost done: seq<Cst>, ghost exprs: seq<Expr>)
      returns (e: Expr, ghost done': seq<Cst>, stop: bool)
      requires Valid() && (until == RPAREN || until == RBRACK) && Tok() != until && Tok() != EOF
      requires i <= idx && was <= diags && Listing(i, was, until, done, exprs)
      modifies this
      ensures Valid() && idx >= old(idx) && diags >= old(diags)
      ensures if stop then DidList(i, was, ExpressionList(Ts(), i, until), exprs + [e])
              else idx > old(idx) && Listing(i, was, until, done', exprs + [e])
      decreases |toks| - idx, 9
    {
      hide Lexed, Unparse, Expression, ExpressionList, Build, BuildList, ListAt, Syms, Span, Placed, Increasing,
           Extended, LineOf;
      ghost var j, before, x := idx, diags, Expression(Ts(), idx);
      e := ParseExpression();
      done' := if x.Ok? then done + [x.val] else done;
      if was == 0 && before == 0 {
        ListMember(Ts(), toks, i, until, done, j);
      }
      stop := Tok() == until;
      if !stop {
        if Tok() != COMMA {
          AddError();
        }
        Next();
      }
    }

    method ParseFieldList(until: Kind) returns (fields: seq<Field>)
      requires Valid() && until == RCURLY
      modifies this
      ensures Valid() && idx >= old(idx) && diags >= old(diags)
      ensures DidFields(old(idx), old(diags), FieldList(Ts(), old(idx), RCURLY), fields)
      decreases |toks| - idx, 11
    {
      hide Lexed, UnparseField, FieldAt, FieldList, BuildField, BuildFields, FieldsAt, Syms, FieldSpan, Placed,
           Increasing;
      ghost var i, was, done := idx, diags, [];
      fields := [];
      FieldsBegin(Ts(), i);
      NothingBuilt(toks, i);
      while Tok() != until && Tok() != EOF
        invariant Valid() && idx >= i && diags >= was
        invariant ListingFields(i, was, done, fields)
        decreases |toks| - idx
      {
        var f, stop;
        f, done, stop := ParseMember(until, i, was, done, fields);
        fields := fields + [f];
        if stop {
          return;
        }
      }
      if was == 0 && diags == 0 {
        FieldsEnd(Ts(), i, done, idx);
      }
    }

    ghost predicate ListingFields(i: nat, was: nat, done: seq<CField>, fields: seq<Field>)
      requires Valid() && i < |toks|
      reads this
    {
      was == 0 ==>
        if diags == 0 then FieldsAt(Ts(), i, done, idx) && i + FieldSpan(done) == idx
            && fields == BuildFields(done, toks, i)
        else FieldList(Ts(), i, RCURLY).Fail?
    }

    method ParseMember(until: Kind, ghost i: nat, ghost was: nat, ghost done: seq<CField>, ghost fields: seq<Field>)
      returns (f: Field, ghost done': seq<CField>, stop: bool)
      requires Valid() && until == RCURLY && Tok() != until && Tok() != EOF
      requires i <= idx && was <= diags && ListingFields(i, was, done, fields)
      modifies this
      ensures Valid() && idx >= old(idx) && diags >= old(diags)
      ensures if stop then DidFields(i, was, FieldList(Ts(), i, RCURLY), fields + [f])
              else idx > old(idx) && ListingFields(i, was, done', fields + [f])
      decreases |toks| - idx, 10
    {
      hide Lexed, UnparseField, FieldAt, FieldList, BuildField, BuildFields, FieldsAt, Syms, FieldSpan, Placed,
           Increasing, Extended, LineOf;
      ghost var j, before, x := idx, diags, FieldAt(Ts(), idx);
      f := ParseField();
      done' := if x.Ok? then done + [x.val] else done;
      if was == 0 && before == 0 {
        FieldMember(Ts(), toks, i, done, j);
      }
      stop := Tok() == until;
      if !stop {
        if Tok() != COMMA {
          AddError();
        }
        Next();
      }
    }

    method ParseField() returns (field: Field)
      requires Valid()
      modifies this
      ensures Valid() && idx >= old(idx) && diags >= old(diags)
      ensures old(diags) == 0 ==>
        var r := FieldAt(Ts(), old(idx));
        if r.Ok? then diags == 0 && idx == r.next && field == BuildField(r.val, toks, old(idx)) else diags > 0
      decreases |toks| - idx, 9
    {
      hide Lexed, Build, Expression, FieldAt, Syms, Placed, Increasing;
      FieldRead(Ts(), idx);
      var name, namePos, quoted := "", NoPos, false;
      if Tok() == STRING || Tok() == IDENT {
        name, namePos := Lit(), CurPos();
        if Tok() == STRING && |Lit()| > 2 {
          name := Lit()[1..|Lit()| - 1];
          quoted := true;
        }
        Next();
      } else {
        AddError();
        Advance(ASSIGN);
      }
      var _, _, _ := Expect(ASSIGN);
      var value := ParseExpression();
      field := Field(name, namePos, quoted, value);
    }

    method ParseBody(until: Kind) returns (body: seq<Stmt>)
      requires Valid() && (until == RCURLY || until == EOF)
      modifies this
      ensures Valid() && idx >= old(idx) && diags >= old(diags)
      ensures DidBody(old(idx), old(diags), Body(Ts(), old(idx), until), body)
      decreases |toks| - idx, 15
    {
      hide Lexed, UnparseStmt, Statement, Body, BuildStmt, BuildBody, BodyAt, Syms, StmtSpan, Placed, Increasing;
      ghost var i, was, done := idx, diags, [];
      body := [];
      BodyBegin(Ts(), i, until);
      NothingBuilt(toks, i);
      while Tok() != until && Tok() != EOF
        invariant Valid() && idx >= i && diags >= was
        invariant ListingBody(i, was, until, done, body)
        decreases |toks| - idx
      {
        var stop;
        body, done, stop := ParseNext(until, i, was, done, body);
        if stop {
          return;
        }
      }
      if was == 0 && diags == 0 {
        BodyEnd(Ts(), i, until, done, idx);
      }
    }

    ghost predicate ListingBody(i: nat, was: nat, until: Kind, done: seq<CStmt>, body: seq<Stmt>)
      requires Valid() && i < |toks| && (until == RCURLY || until == EOF)
      reads this
    {
      was == 0 ==>
        if diags == 0 then BodyAt(Ts(), i, until, done, idx) && i + StmtSpan(done) == idx
            && body == BuildBody(done, toks, i)
        else Body(Ts(), i, until).Fail?
    }

    // The statement after those in body, if it is one.
    method ParseNext(until: Kind, ghost i: nat, ghost was: nat, ghost done: seq<CStmt>, body: seq<Stmt>)
      returns (body': seq<Stmt>, ghost done': seq<CStmt>, stop: bool)
      requires Valid() && (until == RCURLY || until == EOF) && Tok() != until && Tok() != EOF
      requires i <= idx && was <= diags && ListingBody(i, was, until, done, body)
      modifies this
      ensures Valid() && idx >= old(idx) && diags >= old(diags)
      ensures if stop then DidBody(i, was, Body(Ts(), i, until), body')
              else idx > old(idx) && ListingBody(i, was, until, done', body')
      decreases |toks| - idx, 14
    {
      hide Lexed, UnparseStmt, Statement, Body, BuildStmt, BuildBody, BodyAt, Syms, StmtSpan, Placed, Increasing,
           Extended, LineOf;
      ghost var j, before, x := idx, diags, Statement(Ts(), idx);
      body' := body;
      var stmt := ParseStatement();
      if stmt.Some? {
        body' := body + [stmt.value];
      }
      done' := if x.Ok? then done + [x.val] else done;
      if was == 0 && before == 0 {
        BodyMember(Ts(), toks, i, until, done, j);
      }
      stop := Tok() == until;
      if !stop {
        if Tok() != TERMINATOR {
          AddError();
          ConsumeStatement();
        }
        Next();
      }
    }

    // No statement comes back where the parser gives up on one.
    method ParseStatement() returns (stmt: Option<Stmt>)
      requires Valid()
      modifies this
      ensures Valid() && idx >= old(idx) && diags >= old(diags)
      ensures old(diags) == 0 ==>
        var r := Statement(Ts(), old(idx));
        if r.Ok? then diags == 0 && idx == r.next && stmt == Some(BuildStmt(r.val, toks, old(idx))) else diags > 0
      decreases |toks| - idx, 13
    {
      hide Lexed, BlockName, Statement, AttributeTail, BlockTail, UnparseNames, UnparseTag, Syms, Placed, Increasing;
      ghost var i, h := idx, BlockName(Ts(), idx);
      StatementRead(Ts(), i);
      var blockName := ParseBlockName();
      if blockName.None? {
        Advance(IDENT);
        return None;
      }
      if Tok() == ASSIGN {
        stmt := ParseAttributeTail(blockName.value, i, if h.Ok? then h.val else Header([], None));
      } else if Tok() == LCURLY {
        stmt := ParseBlockTail(blockName.value, i, if h.Ok? then h.val else Header([], None));
      } else {
        AddError();
        Advance(IDENT);
        return None;
      }
    }

    // blockName is what the concrete header h, read from i up to here, builds.
    ghost predicate Named(blockName: BlockHeader, i: nat, h: Header)
      reads this
    {
      diags == 0 ==> blockName == BuildHeader(h, toks, i) && i + |UnparseNames(h.names)| + |UnparseTag(h.tag)| == idx
    }

    method ParseAttributeTail(blockName: BlockHeader, ghost i: nat, ghost h: Header) returns (stmt: Option<Stmt>)
      requires Valid() && Tok() == ASSIGN && blockName.names != [] && Named(blockName, i, h)
      modifies this
      ensures Valid() && idx > old(idx) && diags >= old(diags)
      ensures old(diags) == 0 ==>
        var r := AttributeTail(Ts(), old(idx), h);
        if r.Ok? then diags == 0 && idx == r.next && stmt == Some(BuildStmt(r.val, toks, i)) else diags > 0
      decreases |toks| - idx, 11
    {
      hide Lexed, Build, Expression;
      Next();
      if |blockName.names| != 1 {
        AddDiag();
      } else if blockName.tagPos != NoPos {
        AddDiag();
      }
      var value := ParseExpression();
      stmt := Some(Attribute(blockName.names[0], blockName.start, value));
    }

    method ParseBlockTail(blockName: BlockHeader, ghost i: nat, ghost h: Header) returns (stmt: Option<Stmt>)
      requires Valid() && Tok() == LCURLY && Named(blockName, i, h)
      modifies this
      ensures Valid() && idx > old(idx) && diags >= old(diags)
      ensures old(diags) == 0 ==>
        var r := BlockTail(Ts(), old(idx), h);
        if r.Ok? then diags == 0 && idx == r.next && stmt == Some(BuildStmt(r.val, toks, i)) else diags > 0
      decreases |toks| - idx, 11
    {
      hide Lexed, UnparseNames, UnparseTag, UnparseBody, BuildBody, Body, LabelName, Syms, Placed, Increasing;
      var lCurly, _, _ := Expect(LCURLY);
      ghost var j, r := idx, Body(Ts(), idx, RCURLY);
      var body := ParseBody(RCURLY);
      if r.Ok? {
        BodySize(Ts(), j, RCURLY);
      }
      var rCurly, _, _ := Expect(RCURLY);
      stmt := Some(Block(blockName.names, blockName.start, blockName.tag, blockName.tagPos, body, lCurly, rCurly));
    }

    // Nothing comes back where no identifier stands.
    method ParseBlockName() returns (blockName: Option<BlockHeader>)
      requires Valid()
      modifies this
      ensures Valid() && idx >= old(idx) && diags >= old(diags)
      ensures blockName.Some? ==> blockName.value.names != []
      ensures old(diags) == 0 ==>
        var r := BlockName(Ts(), old(idx));
        if r.Ok? then diags == 0 && idx == r.next && blockName.Some? && Named(blockName.value, old(idx), r.val)
            else diags > 0
    {
      hide Lexed, Fragments, BlockName, UnparseNames, LabelOk, Syms, Placed, Increasing;
      ghost var i := idx;
      BlockNameRead(Ts(), i);
      if Tok() != IDENT {
        NoFragments(Ts(), i);
        AddError();
        return None;
      }
      var start := CurPos();
      var names := ParseFragments();
      var tag, tagPos := "", NoPos;
      if Tok() != ASSIGN && Tok() != LCURLY {
        tag, tagPos := ParseLabel();
      }
      blockName := Some(BlockHeader(names, start, tag, tagPos));
    }

    // An identifier, and more after dots.
    method ParseFragments() returns (names: seq<string>)
      requires Valid() && Tok() == IDENT
      modifies this
      ensures Valid() && idx > old(idx) && diags >= old(diags) && names != []
      ensures old(diags) == 0 ==>
        var r := Fragments(Ts(), old(idx));
        if r.Ok? then diags == 0 && idx == r.next && names == r.val && old(idx) + |UnparseNames(names)| == idx
            else diags > 0
    {
      hide Lexed, Fragments, FragmentsAt, UnparseNames, Syms, Placed, Increasing, LineOf;
      ghost var i, was := idx, diags;
      FragmentsBegin(Ts(), i);
      names := [Lit()];
      Next();
      while Tok() == DOT
        invariant Valid() && idx > i && diags >= was && names != []
        invariant was == 0 ==>
          if diags == 0 then FragmentsAt(Ts(), i, names, idx) else Fragments(Ts(), i).Fail?
        decreases |toks| - idx
      {
        var name := ParseFragment(i, names);
        names := names + [name];
      }
      if was == 0 && diags == 0 {
        FragmentsEnd(Ts(), i, names, idx);
        NamesSize(names);
      }
    }

    // A dot and an identifier.
    method ParseFragment(ghost i: nat, ghost done: seq<string>) returns (name: string)
      requires Valid() && i < |toks| && Tok() == DOT
      modifies this
      ensures Valid() && idx > old(idx) && diags >= old(diags)
      ensures old(diags) == 0 && FragmentsAt(Ts(), i, done, old(idx)) ==>
        if diags == 0 then FragmentsAt(Ts(), i, done + [name], idx) else Fragments(Ts(), i).Fail?
    {
      hide Lexed, Fragments, FragmentsAt, Syms, Placed, Increasing, LineOf;
      if diags == 0 && FragmentsAt(Ts(), i, done, idx) {
        FragmentsTurn(Ts(), i, done, idx);
      }
      Next();
      if Tok() != IDENT {
        AddError();
      }
      name := Lit();
      Next();
    }

    // The label after a block name, or whatever else stands there.
    method ParseLabel() returns (tag: string, tagPos: Pos)
      requires Valid()
      modifies this
      ensures Valid() && idx == (if old(Tok()) == EOF then old(idx) else old(idx) + 1) && diags >= old(diags)
      ensures if old(Tok()) == STRING && LabelOk(old(Lit()))
              then diags == old(diags) && tag == LabelName(Some(old(Lit()))) && tagPos == old(CurPos())
              else diags > 0
    {
      hide Lexed;
      tag, tagPos := "", NoPos;
      if Tok() == STRING {
        if Lit() == [] || Lit()[0] != '"' {
          AddError();
        }
        if |Lit()| > 2 {
          tag := Lit()[1..|Lit()| - 1];
          if !IsIdentifier(tag) {
            AddError();
          }
        }
        tagPos := CurPos();
      } else {
        AddError();
      }
      Next();
    }

    method ParseFile() returns (body: seq<Stmt>)
      requires Valid() && idx == 0 && diags == 0
      modifies this
      ensures Valid()
      ensures diags == 0 <==> Grammar.File(Ts()).Ok?
      ensures diags == 0 ==> body == BuildBody(Grammar.File(Ts()).val.members, toks, 0) && Tok() == EOF
      ensures diags == 0 <==> exists ss, term :: Derives(ss, term, Ts())
      ensures forall ss, term :: Derives(ss, term, Ts()) ==> body == BuildBody(ss, toks, 0)
    {
      hide Lexed, Body, BuildBody, Syms, Placed, Increasing, Derives;
      body := ParseBody(EOF);
      if Grammar.File(Ts()).Ok? {
        BodyStops(Ts(), 0, EOF);
      }
      FileDocumented(Ts());
    }
  }

  function BuildHeader(h: Header, toks: seq<Token>, i: nat): BlockHeader {
    BlockHeader(h.names, PosOf(toks, i), LabelName(h.tag),
                if h.tag.Some? then PosOf(toks, i + |UnparseNames(h.names)|) else NoPos)
  }
}
