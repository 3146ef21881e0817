// The grammar as the comments of internal.go have it: one predicate for each
// nonterminal, which names its operators. The parser has one function for all
// binary operators and a table of precedences; that comes to the same.
module Documented {
  import opened Tokens
  import opened Syntax
  import opened Grammar
  import opened Soundness
  import opened Completeness
  import opened CompletenessStmts

  predicate IsCmpOp(k: Kind) {
    k.EQ? || k.NEQ? || k.LT? || k.LTE? || k.GT? || k.GTE?
  }

  predicate IsAddOp(k: Kind) {
    k.ADD? || k.SUB?
  }

  predicate IsMulOp(k: Kind) {
    k.MUL? || k.DIV? || k.MOD?
  }

  // OrExpr = AndExpr { "||" AndExpr }
  predicate IsOrExpr(c: Cst)
    decreases c, 8
  {
    IsAndExpr(c) || (c.CBinary? && c.op.OR? && IsOrExpr(c.left) && IsAndExpr(c.right))
  }

  // AndExpr = CmpExpr { "&&" CmpExpr }
  predicate IsAndExpr(c: Cst)
    decreases c, 7
  {
    IsCmpExpr(c) || (c.CBinary? && c.op.AND? && IsAndExpr(c.left) && IsCmpExpr(c.right))
  }

  // CmpExpr = AddExpr { cmp_op AddExpr }
  predicate IsCmpExpr(c: Cst)
    decreases c, 6
  {
    IsAddExpr(c) || (c.CBinary? && IsCmpOp(c.op) && IsCmpExpr(c.left) && IsAddExpr(c.right))
  }

  // AddExpr = MulExpr { add_op MulExpr }
  predicate IsAddExpr(c: Cst)
    decreases c, 5
  {
    IsMulExpr(c) || (c.CBinary? && IsAddOp(c.op) && IsAddExpr(c.left) && IsMulExpr(c.right))
  }

  // MulExpr = PowExpr { mul_op PowExpr }
  predicate IsMulExpr(c: Cst)
    decreases c, 4
  {
    IsPowExpr(c) || (c.CBinary? && IsMulOp(c.op) && IsMulExpr(c.left) && IsPowExpr(c.right))
  }

  // PowExpr = UnaryExpr [ "^" PowExpr ]
  predicate IsPowExpr(c: Cst)
    decreases c, 3
  {
    IsUnaryExpr(c) || (c.CBinary? && c.op.POW? && IsUnaryExpr(c.left) && IsPowExpr(c.right))
  }

  // UnaryExpr = OperExpr | unary_op UnaryExpr
  predicate IsUnaryExpr(c: Cst)
    decreases c, 2
  {
    IsOperExpr(c) || (c.CUnary? && (c.op.NOT? || c.op.SUB?) && IsUnaryExpr(c.operand))
  }

  // OperExpr = PrimaryExpr { AccessExpr | IndexExpr | CallExpr }
  predicate IsOperExpr(c: Cst)
    decreases c, 1
  {
    match c
    case CAccess(value, _) => IsOperExpr(value)
    case CIndex(value, index) => IsOperExpr(value) && IsOrExpr(index)
    case CCall(value, args, _) => IsOperExpr(value) && forall i :: 0 <= i < |args| ==> IsOrExpr(args[i])
    case _ => IsPrimaryExpr(c)
  }

  // PrimaryExpr = LiteralValue | ArrayExpr | ObjectExpr
  predicate IsPrimaryExpr(c: Cst)
    decreases c, 0
  {
    match c
    case CName(_) => true
    case CLit(s) => s.kind.STRING? || s.kind.NUMBER? || s.kind.FLOAT? || s.kind.BOOL? || s.kind.NULL?
    case CParen(inner) => IsOrExpr(inner)
    case CArray(elems, _) => forall i :: 0 <= i < |elems| ==> IsOrExpr(elems[i])
    case CObject(fields, _) =>
      forall i :: 0 <= i < |fields| ==>
        (fields[i].key.kind.STRING? || fields[i].key.kind.IDENT?) && IsOrExpr(fields[i].value)
    case _ => false
  }

  // Statement = Attribute | Block, with the names and the label of the block
  predicate IsStatement(s: CStmt)
    decreases s
  {
    match s
    case CAttribute(_, value) => IsOrExpr(value)
    case CBlock(names, tag, body, term) =>
      && names != [] && (tag.Some? ==> LabelOk(tag.value))
      && (term ==> body != []) && forall i :: 0 <= i < |body| ==> IsStatement(body[i])
  }

  // The trees of each nonterminal are the trees that bind at least so tightly.
  predicate Rungs(c: Cst) {
    && (IsOrExpr(c) <==> Shaped(c))
    && (IsAndExpr(c) <==> Shaped(c) && Level(c) >= 2)
    && (IsCmpExpr(c) <==> Shaped(c) && Level(c) >= 3)
    && (IsAddExpr(c) <==> Shaped(c) && Level(c) >= 4)
    && (IsMulExpr(c) <==> Shaped(c) && Level(c) >= 5)
    && (IsPowExpr(c) <==> Shaped(c) && Level(c) >= 6)
    && (IsUnaryExpr(c) <==> Shaped(c) && Level(c) >= 7)
    && (IsOperExpr(c) <==> Shaped(c) && Level(c) == 8)
  }

  // A tree without a binary operator is on all rungs from the one for unary ones.
  lemma NoBinary(c: Cst)
    requires !c.CBinary? && (IsOperExpr(c) <==> Shaped(c) && Level(c) == 8)
    requires IsUnaryExpr(c) <==> Shaped(c) && Level(c) >= 7
    ensures Rungs(c)
  {
    hide Shaped, IsUnaryExpr, IsOperExpr;
    assert IsPowExpr(c) <==> IsUnaryExpr(c);
    assert IsMulExpr(c) <==> IsPowExpr(c);
    assert IsAddExpr(c) <==> IsMulExpr(c);
    assert IsCmpExpr(c) <==> IsAddExpr(c);
    assert IsAndExpr(c) <==> IsCmpExpr(c);
    assert Level(c) >= 7;
  }

  lemma BinaryRungs(c: Cst)
    requires c.CBinary? && Rungs(c.left) && Rungs(c.right)
    ensures Rungs(c)
  {
    var l, r := c.left, c.right;
    assert Shaped(c) <==>
      && BinaryPrecedence(c.op) > 0 && Shaped(l) && Shaped(r)
      && (if c.op.POW? then Level(l) >= 7 && Level(r) >= 6
          else Level(l) >= BinaryPrecedence(c.op) && Level(r) > BinaryPrecedence(c.op));
    assert !IsOperExpr(c) && !IsUnaryExpr(c);
    hide Shaped, IsUnaryExpr, IsOperExpr;
    assert IsPowExpr(c) <==> c.op.POW? && IsUnaryExpr(l) && IsPowExpr(r);
    assert IsMulExpr(c) <==> IsPowExpr(c) || (IsMulOp(c.op) && IsMulExpr(l) && IsPowExpr(r));
    assert IsAddExpr(c) <==> IsMulExpr(c) || (IsAddOp(c.op) && IsAddExpr(l) && IsMulExpr(r));
    assert IsCmpExpr(c) <==> IsAddExpr(c) || (IsCmpOp(c.op) && IsCmpExpr(l) && IsAddExpr(r));
    assert IsAndExpr(c) <==> IsCmpExpr(c) || (c.op.AND? && IsAndExpr(l) && IsCmpExpr(r));
    assert IsOrExpr(c) <==> IsAndExpr(c) || (c.op.OR? && IsOrExpr(l) && IsAndExpr(r));
    hide IsPowExpr, IsMulExpr, IsAddExpr, IsCmpExpr, IsAndExpr, IsOrExpr;
    assert Level(c) == BinaryPrecedence(c.op);
  }

  lemma {:induction false} Documents(c: Cst)
    ensures Rungs(c)
    decreases c, 1
  {
    hide IsOrExpr, IsAndExpr, IsCmpExpr, IsAddExpr, IsMulExpr, IsPowExpr;
    match c
    case CBinary(_, left, right) =>
      Documents(left);
      Documents(right);
      BinaryRungs(c);
    case CUnary(_, operand) =>
      Documents(operand);
      NoBinary(c);
    case _ =>
      OperDocuments(c);
      NoBinary(c);
  }

  lemma {:induction false} OperDocuments(c: Cst)
    requires !c.CBinary? && !c.CUnary?
    ensures IsOperExpr(c) <==> Shaped(c) && Level(c) == 8
    decreases c, 0
  {
    hide IsOrExpr, IsAndExpr, IsCmpExpr, IsAddExpr, IsMulExpr, IsPowExpr, IsUnaryExpr;
    match c
    case CLit(_) | CName(_) =>
    case CParen(inner) => Documents(inner);
    case CArray(elems, _) =>
      forall i | 0 <= i < |elems|
        ensures IsOrExpr(elems[i]) <==> Shaped(elems[i])
      {
        Documents(elems[i]);
      }
    case CObject(fields, _) =>
      forall i | 0 <= i < |fields|
        ensures IsOrExpr(fields[i].value) <==> Shaped(fields[i].value)
      {
        Documents(fields[i].value);
      }
    case CAccess(value, _) => Documents(value);
    case CIndex(value, index) => Documents(value); Documents(index);
    case CCall(value, args, _) =>
      Documents(value);
      forall i | 0 <= i < |args|
        ensures IsOrExpr(args[i]) <==> Shaped(args[i])
      {
        Documents(args[i]);
      }
  }

  lemma {:induction false} DocumentsStmt(s: CStmt)
    ensures IsStatement(s) <==> ShapedStmt(s)
    decreases s
  {
    match s
    case CAttribute(_, value) => Documents(value);
    case CBlock(_, _, body, _) =>
      forall i | 0 <= i < |body|
        ensures IsStatement(body[i]) <==> ShapedStmt(body[i])
      {
        DocumentsStmt(body[i]);
      }
  }

  // The tokens of a file are those of statements of the documented grammar, with
  // no comma in an empty list.
  predicate Derives(ss: seq<CStmt>, term: bool, ts: seq<Sym>) {
    && (forall i :: 0 <= i < |ss| ==> IsStatement(ss[i])) && (term ==> ss != [])
    && AllStmtCommasOk(ss) && FileTokens(ss, term) == ts
  }

  // The parser accepts exactly what the documented grammar derives, and there is
  // only one way to derive it.
  lemma FileDocumented(ts: seq<Sym>)
    requires Lexed(ts)
    ensures File(ts).Ok? <==> exists ss, term :: Derives(ss, term, ts)
    ensures forall ss, term :: Derives(ss, term, ts) ==> File(ts).Ok? && File(ts).val == Members(ss, term)
  {
    hide File, Lexed, StmtCommasOk, ShapedStmt, IsStatement, UnparseBody;
    forall ss, term | Derives(ss, term, ts)
      ensures File(ts).Ok? && File(ts).val == Members(ss, term)
    {
      forall i | 0 <= i < |ss|
        ensures ShapedStmt(ss[i])
      {
        DocumentsStmt(ss[i]);
      }
      FileComplete(ss, term);
    }
    if File(ts).Ok? {
      FileSound(ts);
      var b := File(ts).val;
      forall i | 0 <= i < |b.members|
        ensures IsStatement(b.members[i])
      {
        DocumentsStmt(b.members[i]);
      }
      assert Derives(b.members, b.comma, ts);
    }
  }

  // op' binds its operands before op does.
  predicate Tighter(op': Kind, op: Kind) {
    || (op.OR? && !op'.OR?)
    || (op.AND? && !op'.OR? && !op'.AND?)
    || (IsCmpOp(op) && (IsAddOp(op') || IsMulOp(op')))
    || (IsAddOp(op) && IsMulOp(op'))
  }

  predicate IsLeftOp(k: Kind) {
    k.OR? || k.AND? || IsCmpOp(k) || IsAddOp(k) || IsMulOp(k)
  }

  lemma BinaryTree(l: Cst, op: Kind, r: Cst)
    requires Shaped(l) && Shaped(r) && CommasOk(l) && CommasOk(r) && BinaryPrecedence(op) > 0
    requires if op.POW? then Level(l) >= 7 && Level(r) >= 6
             else Level(l) >= BinaryPrecedence(op) && Level(r) > BinaryPrecedence(op)
    ensures Shaped(CBinary(op, l, r)) && CommasOk(CBinary(op, l, r)) && Level(CBinary(op, l, r)) == BinaryPrecedence(op)
    ensures Unparse(CBinary(op, l, r)) == Unparse(l) + [Op(op)] + Unparse(r)
  {
  }

  // The tree of two operators side by side.
  function Both(l: Cst, op: Kind, m: Cst, op': Kind, r: Cst): Cst {
    if Tighter(op', op) then CBinary(op, l, CBinary(op', m, r)) else CBinary(op', CBinary(op, l, m), r)
  }

  lemma TighterIs(op: Kind, op': Kind)
    requires IsLeftOp(op) && IsLeftOp(op')
    ensures Tighter(op', op) <==> BinaryPrecedence(op') > BinaryPrecedence(op)
    ensures 1 <= BinaryPrecedence(op) <= 5 && 1 <= BinaryPrecedence(op') <= 5 && !op.POW? && !op'.POW?
  {
    hide BinaryPrecedence, IsCmpOp, IsAddOp, IsMulOp;
    Precedences(op);
    Precedences(op');
  }

  // The table of precedences, read by the operators.
  lemma Precedences(k: Kind)
    requires IsLeftOp(k)
    ensures !k.POW? && 1 <= BinaryPrecedence(k) <= 5
    ensures (k.OR? <==> BinaryPrecedence(k) == 1) && (k.AND? <==> BinaryPrecedence(k) == 2)
    ensures (IsCmpOp(k) <==> BinaryPrecedence(k) == 3) && (IsAddOp(k) <==> BinaryPrecedence(k) == 4)
    ensures IsMulOp(k) <==> BinaryPrecedence(k) == 5
  {
  }

  lemma BothTree(l: Cst, op: Kind, m: Cst, op': Kind, r: Cst)
    requires Shaped(l) && Shaped(m) && Shaped(r) && Level(l) >= 7 && Level(m) >= 7 && Level(r) >= 7
    requires CommasOk(l) && CommasOk(m) && CommasOk(r) && IsLeftOp(op) && IsLeftOp(op')
    ensures Shaped(Both(l, op, m, op', r)) && CommasOk(Both(l, op, m, op', r))
    ensures Unparse(Both(l, op, m, op', r)) == Unparse(l) + [Op(op)] + Unparse(m) + [Op(op')] + Unparse(r)
  {
    hide Shaped, CommasOk, Unparse, Level, Tighter, IsLeftOp, BinaryPrecedence;
    TighterIs(op, op');
    if Tighter(op', op) {
      BinaryTree(m, op', r);
      BinaryTree(l, op, CBinary(op', m, r));
      Regroup(Unparse(l) + [Op(op)], Unparse(m), [Op(op')], Unparse(r));
    } else {
      BinaryTree(l, op, m);
      BinaryTree(CBinary(op, l, m), op', r);
    }
  }

  lemma Regroup(a: seq<Sym>, b: seq<Sym>, c: seq<Sym>, d: seq<Sym>)
    ensures a + (b + c + d) == a + b + c + d
  {
  }

  // The tighter of two operators takes the operand between them, and of two that
  // bind equally the left one.
  lemma TwoOperators(ts: seq<Sym>, l: Cst, op: Kind, m: Cst, op': Kind, r: Cst)
    requires IsUnaryExpr(l) && IsUnaryExpr(m) && IsUnaryExpr(r) && CommasOk(l) && CommasOk(m) && CommasOk(r)
    requires IsLeftOp(op) && IsLeftOp(op')
    requires Lexed(ts) && At(ts, 0, Unparse(l) + [Op(op)] + Unparse(m) + [Op(op')] + Unparse(r))
    requires Ends(ts[|Unparse(l) + [Op(op)] + Unparse(m) + [Op(op')] + Unparse(r)|].kind)
    ensures Expression(ts, 0).Ok?
    ensures Expression(ts, 0).val ==
            if Tighter(op', op) then CBinary(op, l, CBinary(op', m, r)) else CBinary(op', CBinary(op, l, m), r)
  {
    hide Unparse, Shaped, CommasOk, At, Both, Level, IsUnaryExpr, Expression, Lexed, Ends, Tighter, IsLeftOp,
         IsOrExpr, IsAndExpr, IsCmpExpr, IsAddExpr, IsMulExpr, IsPowExpr, IsOperExpr;
    Documents(l);
    Documents(m);
    Documents(r);
    BothTree(l, op, m, op', r);
    ExpressionComplete(ts, 0, Both(l, op, m, op', r));
    BothIs(l, op, m, op', r);
  }

  lemma BothIs(l: Cst, op: Kind, m: Cst, op': Kind, r: Cst)
    ensures Both(l, op, m, op', r) ==
            if Tighter(op', op) then CBinary(op, l, CBinary(op', m, r)) else CBinary(op', CBinary(op, l, m), r)
  {
  }

  // ^ nests to the right.
  lemma TwoPowers(ts: seq<Sym>, l: Cst, m: Cst, r: Cst)
    requires IsUnaryExpr(l) && IsUnaryExpr(m) && IsUnaryExpr(r) && CommasOk(l) && CommasOk(m) && CommasOk(r)
    requires Lexed(ts) && At(ts, 0, Unparse(l) + [Op(POW)] + (Unparse(m) + [Op(POW)] + Unparse(r)))
    requires Ends(ts[|Unparse(l) + [Op(POW)] + (Unparse(m) + [Op(POW)] + Unparse(r))|].kind)
    ensures Expression(ts, 0).Ok? && Expression(ts, 0).val == CBinary(POW, l, CBinary(POW, m, r))
  {
    hide Unparse, Shaped, CommasOk, At, Level, IsUnaryExpr, Expression, Lexed, Ends,
         IsOrExpr, IsAndExpr, IsCmpExpr, IsAddExpr, IsMulExpr, IsPowExpr, IsOperExpr;
    Documents(l);
    Documents(m);
    Documents(r);
    BinaryTree(m, POW, r);
    BinaryTree(l, POW, CBinary(POW, m, r));
    ExpressionComplete(ts, 0, CBinary(POW, l, CBinary(POW, m, r)));
  }
}
