// The converse of Soundness: the tokens of a tree of the grammar are read back
// as that tree, wherever they stand, if what follows does not continue it; and
// if the tree has a comma after an opening bracket they are rejected.
module Completeness {
  import opened Tokens
  import opened Syntax
  import opened Grammar
  import opened Steps

  // s stands in ts at i, with a symbol after it.
  ghost predicate At(ts: seq<Sym>, i: nat, s: seq<Sym>) {
    i + |s| < |ts| && ts[i..i + |s|] == s
  }

  lemma AtIndex(ts: seq<Sym>, i: nat, s: seq<Sym>)
    ensures At(ts, i, s) <==> i + |s| < |ts| && forall k :: 0 <= k < |s| ==> s[k] == ts[i + k]
  {
    if At(ts, i, s) {
      forall k | 0 <= k < |s|
        ensures s[k] == ts[i + k]
      {
        assert ts[i..i + |s|][k] == ts[i + k];
      }
    }
  }

  // A part before a symbol before a part.
  lemma AtOp(ts: seq<Sym>, i: nat, a: seq<Sym>, s: Sym, b: seq<Sym>)
    requires At(ts, i, a + [s] + b)
    ensures At(ts, i, a) && i + |a| + 1 + |b| < |ts| && ts[i + |a|] == s && At(ts, i + |a| + 1, b)
    ensures |a + [s] + b| == |a| + 1 + |b|
  {
    var all := a + [s] + b;
    AtIndex(ts, i, all);
    AtIndex(ts, i, a);
    AtIndex(ts, i + |a| + 1, b);
    assert forall k :: 0 <= k < |a| ==> a[k] == all[k];
    assert forall k :: 0 <= k < |b| ==> b[k] == all[|a| + 1 + k];
    assert all[|a|] == s;
  }

  // A part between two symbols.
  lemma AtBetween(ts: seq<Sym>, i: nat, open: Sym, a: seq<Sym>, close: Sym)
    requires At(ts, i, [open] + a + [close])
    ensures i + |a| + 2 < |ts| && ts[i] == open && At(ts, i + 1, a) && ts[i + 1 + |a|] == close
    ensures |[open] + a + [close]| == |a| + 2
  {
    var all := [open] + a + [close];
    AtIndex(ts, i, all);
    AtIndex(ts, i + 1, a);
    assert forall k :: 0 <= k < |a| ==> a[k] == all[1 + k];
    assert all[0] == open && all[|a| + 1] == close;
  }

  // The two at once: an operand and a bracketed part.
  lemma AtBracket(ts: seq<Sym>, i: nat, v: seq<Sym>, open: Sym, a: seq<Sym>, close: Sym)
    requires At(ts, i, v + [open] + a + [close])
    ensures i + |v| + |a| + 2 < |ts|
    ensures At(ts, i, v) && ts[i + |v|] == open && At(ts, i + |v| + 1, a) && ts[i + |v| + 1 + |a|] == close
    ensures |v + [open] + a + [close]| == |v| + |a| + 2
  {
    assert v + [open] + a + [close] == v + [open] + (a + [close]);
    AtOp(ts, i, v, open, a + [close]);
    assert a + [close] == a + [close] + [];
    AtOp(ts, i + |v| + 1, a, close, []);
  }

  lemma AtFirst(ts: seq<Sym>, i: nat, s: seq<Sym>)
    requires At(ts, i, s) && s != []
    ensures i + |s| < |ts| && ts[i] == s[0]
  {
    AtIndex(ts, i, s);
  }

  // The outcome for c at i: read if its commas are right, else rejected.
  function Outcome(c: Cst, i: nat): Read<Cst> {
    if CommasOk(c) then Ok(c, i + |Unparse(c)|) else Fail
  }

  // k neither continues an operand nor is a binary operator.
  predicate Ends(k: Kind) {
    !IsPostfix(k) && BinaryPrecedence(k) == 0
  }

  predicate StartsOperand(k: Kind) {
    k.IDENT? || IsLiteral(k) || k.LPAREN? || k.LBRACK? || k.LCURLY?
  }

  lemma {:induction false} First(c: Cst)
    requires Shaped(c)
    ensures StartsOperand(Unparse(c)[0].kind) || (Level(c) < 8 && IsUnaryOp(Unparse(c)[0].kind))
    decreases c
  {
    match c
    case CAccess(value, _) => First(value);
    case CIndex(value, _) => First(value);
    case CCall(value, _, _) => First(value);
    case CBinary(_, left, _) => First(left);
    case _ =>
  }

  lemma BinaryParts(c: Cst)
    requires c.CBinary? && Shaped(c)
    ensures Shaped(c.left) && Shaped(c.right) && 1 <= BinaryPrecedence(c.op) <= 6
    ensures if c.op.POW? then Level(c.left) >= 7 && Level(c.right) >= 6
            else Level(c.left) >= BinaryPrecedence(c.op) && Level(c.right) > BinaryPrecedence(c.op)
    ensures CommasOk(c) <==> CommasOk(c.left) && CommasOk(c.right)
    ensures Unparse(c) == Unparse(c.left) + [Op(c.op)] + Unparse(c.right)
  {
  }

  lemma {:induction false} ExpressionComplete(ts: seq<Sym>, i: nat, c: Cst)
    requires Lexed(ts) && Shaped(c) && At(ts, i, Unparse(c))
    requires Ends(ts[i + |Unparse(c)|].kind)
    ensures Expression(ts, i) == Outcome(c, i)
    decreases c, 7
  {
    hide At, Unparse, Shaped, CommasOk, BinOp;
    if c.CBinary? {
      BinaryParts(c);
    }
    BinOpComplete(ts, i, c, 1);
    if CommasOk(c) {
      LoopStops(ts, i + |Unparse(c)|, c, 1);
    }
  }

  lemma {:induction false} BinOpComplete(ts: seq<Sym>, i: nat, c: Cst, inPrec: nat)
    requires Lexed(ts) && Shaped(c) && At(ts, i, Unparse(c))
    requires 1 <= inPrec <= 6 && Level(c) >= inPrec
    requires !IsPostfix(ts[i + |Unparse(c)|].kind) && ts[i + |Unparse(c)|].kind != POW
    requires BinaryPrecedence(ts[i + |Unparse(c)|].kind) <= Level(c)
    ensures BinOp(ts, i, inPrec) == if CommasOk(c) then BinLoop(ts, i + |Unparse(c)|, c, inPrec) else Fail
    decreases c, 6
  {
    hide At, Unparse, Shaped, CommasOk, Pow, BinLoop;
    if Level(c) >= 6 {
      PowComplete(ts, i, c);
    } else {
      BinaryComplete(ts, i, c, inPrec);
    }
  }

  lemma {:induction false} BinaryComplete(ts: seq<Sym>, i: nat, c: Cst, inPrec: nat)
    requires Lexed(ts) && Shaped(c) && At(ts, i, Unparse(c))
    requires c.CBinary? && 1 <= inPrec <= BinaryPrecedence(c.op) <= 5
    requires !IsPostfix(ts[i + |Unparse(c)|].kind) && ts[i + |Unparse(c)|].kind != POW
    requires BinaryPrecedence(ts[i + |Unparse(c)|].kind) <= BinaryPrecedence(c.op)
    ensures BinOp(ts, i, inPrec) == if CommasOk(c) then BinLoop(ts, i + |Unparse(c)|, c, inPrec) else Fail
    decreases c, 5
  {
    hide At, Unparse, Shaped, CommasOk, BinOp, BinLoop;
    BinaryParts(c);
    var prec, j, k := BinaryPrecedence(c.op), i + |Unparse(c.left)|, i + |Unparse(c)|;
    AtOp(ts, i, Unparse(c.left), Op(c.op), Unparse(c.right));
    BinOpComplete(ts, i, c.left, inPrec);
    BinOpComplete(ts, j + 1, c.right, prec + 1);
    if CommasOk(c.left) && CommasOk(c.right) {
      LoopStops(ts, k, c.right, prec + 1);
      LoopTakes(ts, j, c.left, inPrec, c.right, k);
    } else if CommasOk(c.left) {
      LoopFails(ts, j, c.left, inPrec);
    }
  }

  lemma LoopStops(ts: seq<Sym>, k: nat, c: Cst, inPrec: nat)
    requires Lexed(ts) && k < |ts| && 1 <= inPrec <= 6 && ts[k].kind != POW
    requires BinaryPrecedence(ts[k].kind) < inPrec
    ensures BinLoop(ts, k, c, inPrec) == Ok(c, k)
  {
  }

  lemma LoopTakes(ts: seq<Sym>, j: nat, l: Cst, inPrec: nat, r: Cst, k: nat)
    requires Lexed(ts) && j < k < |ts| && 1 <= inPrec <= BinaryPrecedence(ts[j].kind) <= 5
    requires ts[k].kind != POW && BinOp(ts, j + 1, BinaryPrecedence(ts[j].kind) + 1) == Ok(r, k)
    ensures BinLoop(ts, j, l, inPrec) == BinLoop(ts, k, CBinary(ts[j].kind, l, r), inPrec)
  {
    hide BinOp;
  }

  lemma LoopFails(ts: seq<Sym>, j: nat, l: Cst, inPrec: nat)
    requires Lexed(ts) && j + 1 < |ts| && 1 <= inPrec <= BinaryPrecedence(ts[j].kind) <= 5
    requires BinOp(ts, j + 1, BinaryPrecedence(ts[j].kind) + 1) == Fail
    ensures BinLoop(ts, j, l, inPrec) == Fail
  {
    hide BinOp;
  }

  lemma {:induction false} PowComplete(ts: seq<Sym>, i: nat, c: Cst)
    requires Lexed(ts) && Shaped(c) && At(ts, i, Unparse(c)) && Level(c) >= 6
    requires !IsPostfix(ts[i + |Unparse(c)|].kind) && ts[i + |Unparse(c)|].kind != POW
    ensures Pow(ts, i) == Outcome(c, i)
    decreases c, 5
  {
    hide At, Unparse, Shaped, CommasOk, UnaryExpr, Lexed;
    if c.CBinary? {
      BinaryParts(c);
      AtOp(ts, i, Unparse(c.left), Op(POW), Unparse(c.right));
      UnaryComplete(ts, i, c.left);
      PowComplete(ts, i + |Unparse(c.left)| + 1, c.right);
    } else {
      UnaryComplete(ts, i, c);
    }
  }

  lemma UnaryParts(c: Cst)
    requires c.CUnary? && Shaped(c)
    ensures Shaped(c.operand) && Level(c.operand) >= 7 && IsUnaryOp(c.op)
    ensures CommasOk(c) <==> CommasOk(c.operand)
    ensures Unparse(c) == [] + [Op(c.op)] + Unparse(c.operand)
  {
  }

  lemma {:induction false} UnaryComplete(ts: seq<Sym>, i: nat, c: Cst)
    requires Lexed(ts) && Shaped(c) && At(ts, i, Unparse(c)) && Level(c) >= 7
    requires !IsPostfix(ts[i + |Unparse(c)|].kind)
    ensures UnaryExpr(ts, i) == Outcome(c, i)
    decreases c, 4
  {
    hide At, Unparse, Shaped, CommasOk, Primary;
    if c.CUnary? {
      UnaryParts(c);
      AtOp(ts, i, [], Op(c.op), Unparse(c.operand));
      UnaryComplete(ts, i + 1, c.operand);
    } else {
      OperComplete(ts, i, c);
    }
  }

  lemma AccessParts(c: Cst)
    requires c.CAccess? && Shaped(c)
    ensures Shaped(c.value) && Level(c.value) == 8 && (CommasOk(c) <==> CommasOk(c.value))
    ensures Unparse(c) == Unparse(c.value) + [Op(DOT)] + [Sym(IDENT, c.name)]
  {
    assert [Op(DOT), Sym(IDENT, c.name)] == [Op(DOT)] + [Sym(IDENT, c.name)];
  }

  lemma IndexParts(c: Cst)
    requires c.CIndex? && Shaped(c)
    ensures Shaped(c.value) && Level(c.value) == 8 && Shaped(c.index)
    ensures CommasOk(c) <==> CommasOk(c.value) && CommasOk(c.index)
    ensures Unparse(c) == Unparse(c.value) + [Op(LBRACK)] + Unparse(c.index) + [Op(RBRACK)]
  {
  }

  lemma CallParts(c: Cst)
    requires c.CCall? && Shaped(c)
    ensures Shaped(c.value) && Level(c.value) == 8 && AllShaped(c.elems)
    ensures CommasOk(c) <==> CommasOk(c.value) && AllCommasOk(c.elems, c.comma)
    ensures Unparse(c) == Unparse(c.value) + [Op(LPAREN)] + UnparseList(c.elems, c.comma) + [Op(RPAREN)]
  {
  }

  lemma {:induction false} OperComplete(ts: seq<Sym>, i: nat, c: Cst)
    requires Lexed(ts) && Shaped(c) && At(ts, i, Unparse(c)) && Level(c) == 8
    ensures UnaryExpr(ts, i) == if CommasOk(c) then Oper(ts, i + |Unparse(c)|, c) else Fail
    decreases c, 3
  {
    hide At, Unparse, Shaped, CommasOk, UnaryExpr, Lexed;
    match c
    case CAccess(_, _) => AccessComplete(ts, i, c);
    case CIndex(_, _) => IndexComplete(ts, i, c);
    case CCall(_, _, _) => CallComplete(ts, i, c);
    case _ => OperandComplete(ts, i, c);
  }

  lemma {:induction false} OperandComplete(ts: seq<Sym>, i: nat, c: Cst)
    requires Lexed(ts) && Shaped(c) && At(ts, i, Unparse(c))
    requires Level(c) == 8 && !c.CAccess? && !c.CIndex? && !c.CCall?
    ensures UnaryExpr(ts, i) == if CommasOk(c) then Oper(ts, i + |Unparse(c)|, c) else Fail
    decreases c, 2
  {
    hide At, Unparse, Shaped, CommasOk, Primary, Oper;
    First(c);
    AtFirst(ts, i, Unparse(c));
    PrimaryComplete(ts, i, c);
  }

  lemma {:induction false} AccessComplete(ts: seq<Sym>, i: nat, c: Cst)
    requires Lexed(ts) && Shaped(c) && At(ts, i, Unparse(c)) && c.CAccess?
    ensures UnaryExpr(ts, i) == if CommasOk(c) then Oper(ts, i + |Unparse(c)|, c) else Fail
    decreases c, 2
  {
    hide At, Unparse, Shaped, CommasOk, UnaryExpr, Lexed;
    AccessParts(c);
    AtOp(ts, i, Unparse(c.value), Op(DOT), [Sym(IDENT, c.name)]);
    AtFirst(ts, i + |Unparse(c.value)| + 1, [Sym(IDENT, c.name)]);
    OperComplete(ts, i, c.value);
  }

  lemma {:induction false} IndexComplete(ts: seq<Sym>, i: nat, c: Cst)
    requires Lexed(ts) && Shaped(c) && At(ts, i, Unparse(c)) && c.CIndex?
    ensures UnaryExpr(ts, i) == if CommasOk(c) then Oper(ts, i + |Unparse(c)|, c) else Fail
    decreases c, 2
  {
    hide At, Unparse, Shaped, CommasOk, UnaryExpr, Expression, Lexed;
    IndexParts(c);
    AtBracket(ts, i, Unparse(c.value), Op(LBRACK), Unparse(c.index), Op(RBRACK));
    OperComplete(ts, i, c.value);
    ExpressionComplete(ts, i + |Unparse(c.value)| + 1, c.index);
  }

  lemma {:induction false} CallComplete(ts: seq<Sym>, i: nat, c: Cst)
    requires Lexed(ts) && Shaped(c) && At(ts, i, Unparse(c)) && c.CCall?
    ensures UnaryExpr(ts, i) == if CommasOk(c) then Oper(ts, i + |Unparse(c)|, c) else Fail
    decreases c, 2
  {
    hide At, Unparse, UnparseList, Shaped, CommasOk, UnaryExpr, ExpressionList, AllShaped, AllCommasOk, Lexed;
    CallParts(c);
    AtBracket(ts, i, Unparse(c.value), Op(LPAREN), UnparseList(c.elems, c.comma), Op(RPAREN));
    OperComplete(ts, i, c.value);
    ListComplete(ts, i + |Unparse(c.value)| + 1, c.elems, c.comma, RPAREN);
  }

  lemma {:induction false} PrimaryComplete(ts: seq<Sym>, i: nat, c: Cst)
    requires Lexed(ts) && Shaped(c) && At(ts, i, Unparse(c))
    requires Level(c) == 8 && !c.CAccess? && !c.CIndex? && !c.CCall?
    ensures Primary(ts, i) == Outcome(c, i)
    decreases c, 1
  {
    hide At, Unparse, Shaped, CommasOk, Primary;
    match c
    case CArray(_, _) => ArrayComplete(ts, i, c);
    case CObject(_, _) => ObjectComplete(ts, i, c);
    case CParen(_) => ParenComplete(ts, i, c);
    case _ => LeafComplete(ts, i, c);
  }

  lemma LeafComplete(ts: seq<Sym>, i: nat, c: Cst)
    requires Lexed(ts) && Shaped(c) && At(ts, i, Unparse(c)) && (c.CLit? || c.CName?)
    ensures Primary(ts, i) == Outcome(c, i)
  {
    AtFirst(ts, i, Unparse(c));
  }

  lemma {:induction false} ArrayComplete(ts: seq<Sym>, i: nat, c: Cst)
    requires Lexed(ts) && Shaped(c) && At(ts, i, Unparse(c)) && c.CArray?
    ensures Primary(ts, i) == Outcome(c, i)
    decreases c, 0
  {
    hide At, Unparse, UnparseList, Shaped, CommasOk, AllShaped, AllCommasOk, ExpressionList;
    ArrayParts(c);
    AtBetween(ts, i, Op(LBRACK), UnparseList(c.elems, c.comma), Op(RBRACK));
    ListComplete(ts, i + 1, c.elems, c.comma, RBRACK);
  }

  lemma {:induction false} ObjectComplete(ts: seq<Sym>, i: nat, c: Cst)
    requires Lexed(ts) && Shaped(c) && At(ts, i, Unparse(c)) && c.CObject?
    ensures Primary(ts, i) == Outcome(c, i)
    decreases c, 0
  {
    hide At, Unparse, UnparseFields, Shaped, CommasOk, AllFieldsShaped, AllFieldCommasOk, FieldList;
    ObjectParts(c);
    AtBetween(ts, i, Op(LCURLY), UnparseFields(c.fields, c.comma), Op(RCURLY));
    FieldsComplete(ts, i + 1, c.fields, c.comma);
  }

  lemma {:induction false} ParenComplete(ts: seq<Sym>, i: nat, c: Cst)
    requires Lexed(ts) && Shaped(c) && At(ts, i, Unparse(c)) && c.CParen?
    ensures Primary(ts, i) == Outcome(c, i)
    decreases c, 0
  {
    hide At, Unparse, Shaped, CommasOk, Expression;
    ParenParts(c);
    AtBetween(ts, i, Op(LPAREN), Unparse(c.inner), Op(RPAREN));
    ExpressionComplete(ts, i + 1, c.inner);
  }

  lemma ArrayParts(c: Cst)
    requires c.CArray? && Shaped(c)
    ensures AllShaped(c.elems) && (CommasOk(c) <==> AllCommasOk(c.elems, c.comma))
    ensures Unparse(c) == [Op(LBRACK)] + UnparseList(c.elems, c.comma) + [Op(RBRACK)]
  {
  }

  lemma ObjectParts(c: Cst)
    requires c.CObject? && Shaped(c)
    ensures AllFieldsShaped(c.fields) && (CommasOk(c) <==> AllFieldCommasOk(c.fields, c.comma))
    ensures Unparse(c) == [Op(LCURLY)] + UnparseFields(c.fields, c.comma) + [Op(RCURLY)]
  {
  }

  lemma ParenParts(c: Cst)
    requires c.CParen? && Shaped(c)
    ensures Shaped(c.inner) && (CommasOk(c) <==> CommasOk(c.inner))
    ensures Unparse(c) == [Op(LPAREN)] + Unparse(c.inner) + [Op(RPAREN)]
  {
  }

  predicate AllShaped(cs: seq<Cst>) {
    forall k :: 0 <= k < |cs| ==> Shaped(cs[k])
  }

  predicate AllCommasOk(cs: seq<Cst>, comma: bool) {
    (comma ==> cs != []) && forall k :: 0 <= k < |cs| ==> CommasOk(cs[k])
  }

  lemma ListParts(cs: seq<Cst>, comma: bool)
    requires cs != [] && AllShaped(cs)
    ensures Shaped(cs[0]) && AllShaped(cs[1..]) && [cs[0]] + cs[1..] == cs
    ensures AllCommasOk(cs, comma) <==> CommasOk(cs[0]) && (|cs| > 1 ==> AllCommasOk(cs[1..], comma))
    ensures |cs| > 1 ==> UnparseList(cs, comma) == Unparse(cs[0]) + [Op(COMMA)] + UnparseList(cs[1..], comma)
    ensures |cs| == 1 ==> UnparseList(cs, comma) == Unparse(cs[0]) + (if comma then [Op(COMMA)] else [])
    ensures UnparseList(cs, comma) != [] && UnparseList(cs, comma)[0] == Unparse(cs[0])[0]
  {
    if |cs| > 1 && AllCommasOk(cs[1..], comma) && CommasOk(cs[0]) {
      forall k | 0 <= k < |cs|
        ensures CommasOk(cs[k])
      {
        assert k > 0 ==> cs[k] == cs[1..][k - 1];
      }
    }
  }

  // A comma where a member should be.
  lemma NoMember(ts: seq<Sym>, i: nat)
    requires Lexed(ts) && i < |ts| && (ts[i].kind == COMMA || ts[i].kind == TERMINATOR)
    ensures Expression(ts, i) == Fail
  {
    assert Primary(ts, i) == Fail;
    assert UnaryExpr(ts, i) == Fail;
    assert Pow(ts, i) == Fail;
    assert BinOp(ts, i, 1) == Fail;
  }

  lemma {:induction false} ListComplete(ts: seq<Sym>, i: nat, cs: seq<Cst>, comma: bool, until: Kind)
    requires Lexed(ts) && At(ts, i, UnparseList(cs, comma)) && (until == RPAREN || until == RBRACK)
    requires AllShaped(cs)
    requires ts[i + |UnparseList(cs, comma)|].kind == until
    ensures ExpressionList(ts, i, until) ==
            if AllCommasOk(cs, comma) then Ok(Members(cs, comma), i + |UnparseList(cs, comma)|) else Fail
    decreases cs, 8
  {
    hide At, Shaped, CommasOk, AllShaped, AllCommasOk, Unparse, UnparseList, Expression, ExpressionList, Lexed;
    if cs == [] {
      ListNoneComplete(ts, i, cs, comma, until);
    } else if |cs| == 1 {
      ListOneComplete(ts, i, cs, comma, until);
    } else {
      ListConsComplete(ts, i, cs, comma, until);
    }
  }

  lemma ListNoneComplete(ts: seq<Sym>, i: nat, cs: seq<Cst>, comma: bool, until: Kind)
    requires Lexed(ts) && At(ts, i, UnparseList(cs, comma)) && (until == RPAREN || until == RBRACK)
    requires cs == [] && ts[i + |UnparseList(cs, comma)|].kind == until
    ensures ExpressionList(ts, i, until) ==
            if AllCommasOk(cs, comma) then Ok(Members(cs, comma), i + |UnparseList(cs, comma)|) else Fail
  {
    if comma {
      AtFirst(ts, i, UnparseList(cs, comma));
      NoMember(ts, i);
    }
  }

  lemma {:induction false} ListOneComplete(ts: seq<Sym>, i: nat, cs: seq<Cst>, comma: bool, until: Kind)
    requires Lexed(ts) && At(ts, i, UnparseList(cs, comma)) && (until == RPAREN || until == RBRACK)
    requires AllShaped(cs) && |cs| == 1
    requires ts[i + |UnparseList(cs, comma)|].kind == until
    ensures ExpressionList(ts, i, until) ==
            if AllCommasOk(cs, comma) then Ok(Members(cs, comma), i + |UnparseList(cs, comma)|) else Fail
    decreases cs, 7
  {
    hide At, Unparse, UnparseList, Shaped, CommasOk, AllShaped, AllCommasOk, Expression, ExpressionList, Lexed;
    var c := cs[0];
    ListParts(cs, comma);
    First(c);
    AtFirst(ts, i, UnparseList(cs, comma));
    if comma {
      assert Unparse(c) + [Op(COMMA)] == Unparse(c) + [Op(COMMA)] + [];
      AtOp(ts, i, Unparse(c), Op(COMMA), []);
      ListEmpty(ts, i + |Unparse(c)| + 1, until);
    } else {
      assert Unparse(c) + [] == Unparse(c);
    }
    ExpressionComplete(ts, i, c);
    ListStep(ts, i, until);
    assert cs == [c] && [c] + [] == [c];
  }

  lemma {:induction false} ListConsComplete(ts: seq<Sym>, i: nat, cs: seq<Cst>, comma: bool, until: Kind)
    requires Lexed(ts) && At(ts, i, UnparseList(cs, comma)) && (until == RPAREN || until == RBRACK)
    requires AllShaped(cs) && |cs| > 1
    requires ts[i + |UnparseList(cs, comma)|].kind == until
    ensures ExpressionList(ts, i, until) ==
            if AllCommasOk(cs, comma) then Ok(Members(cs, comma), i + |UnparseList(cs, comma)|) else Fail
    decreases cs, 7
  {
    hide At, Unparse, UnparseList, Shaped, CommasOk, AllShaped, AllCommasOk, Expression, ExpressionList, Lexed;
    var c := cs[0];
    ListParts(cs, comma);
    First(c);
    AtFirst(ts, i, UnparseList(cs, comma));
    AtOp(ts, i, Unparse(c), Op(COMMA), UnparseList(cs[1..], comma));
    ExpressionComplete(ts, i, c);
    ListComplete(ts, i + |Unparse(c)| + 1, cs[1..], comma, until);
    ListStep(ts, i, until);
  }

  predicate AllFieldsShaped(fs: seq<CField>) {
    forall k :: 0 <= k < |fs| ==> ShapedField(fs[k])
  }

  predicate AllFieldCommasOk(fs: seq<CField>, comma: bool) {
    (comma ==> fs != []) && forall k :: 0 <= k < |fs| ==> CommasOk(fs[k].value)
  }

  lemma FieldParts(f: CField)
    requires ShapedField(f)
    ensures Shaped(f.value) && (f.key.kind == STRING || f.key.kind == IDENT)
    ensures UnparseField(f) == [f.key] + [Op(ASSIGN)] + Unparse(f.value)
  {
    hide Unparse, Shaped;
  }

  lemma {:induction false} FieldComplete(ts: seq<Sym>, i: nat, f: CField)
    requires Lexed(ts) && ShapedField(f) && At(ts, i, UnparseField(f))
    requires Ends(ts[i + |UnparseField(f)|].kind)
    ensures FieldAt(ts, i) == if CommasOk(f.value) then Ok(f, i + |UnparseField(f)|) else Fail
    decreases f, 6
  {
    hide At, Unparse, UnparseField, ShapedField, Shaped, CommasOk, Expression, FieldAt, Lexed;
    FieldParts(f);
    AtOp(ts, i, [f.key], Op(ASSIGN), Unparse(f.value));
    AtFirst(ts, i, [f.key]);
    ExpressionComplete(ts, i + 2, f.value);
    FieldRead(ts, i);
  }

  lemma FieldsParts(fs: seq<CField>, comma: bool)
    requires fs != [] && AllFieldsShaped(fs)
    ensures ShapedField(fs[0]) && AllFieldsShaped(fs[1..]) && [fs[0]] + fs[1..] == fs
    ensures AllFieldCommasOk(fs, comma) <==> CommasOk(fs[0].value) && (|fs| > 1 ==> AllFieldCommasOk(fs[1..], comma))
    ensures |fs| > 1 ==> UnparseFields(fs, comma) == UnparseField(fs[0]) + [Op(COMMA)] + UnparseFields(fs[1..], comma)
    ensures |fs| == 1 ==> UnparseFields(fs, comma) == UnparseField(fs[0]) + (if comma then [Op(COMMA)] else [])
    ensures UnparseFields(fs, comma) != [] && UnparseFields(fs, comma)[0] == fs[0].key
  {
    if |fs| > 1 && AllFieldCommasOk(fs[1..], comma) && CommasOk(fs[0].value) {
      forall k | 0 <= k < |fs|
        ensures CommasOk(fs[k].value)
      {
        assert k > 0 ==> fs[k] == fs[1..][k - 1];
      }
    }
  }

  lemma {:induction false} FieldsComplete(ts: seq<Sym>, i: nat, fs: seq<CField>, comma: bool)
    requires Lexed(ts) && At(ts, i, UnparseFields(fs, comma)) && AllFieldsShaped(fs)
    requires ts[i + |UnparseFields(fs, comma)|].kind == RCURLY
    ensures FieldList(ts, i, RCURLY) ==
            if AllFieldCommasOk(fs, comma) then Ok(Members(fs, comma), i + |UnparseFields(fs, comma)|) else Fail
    ensures ts[i].kind != RBRACK
    decreases fs, 8
  {
    if fs == [] {
      if comma {
        AtFirst(ts, i, UnparseFields(fs, comma));
      }
    } else if |fs| == 1 {
      FieldsOneComplete(ts, i, fs, comma);
    } else {
      FieldsConsComplete(ts, i, fs, comma);
    }
  }

  lemma {:induction false} FieldsOneComplete(ts: seq<Sym>, i: nat, fs: seq<CField>, comma: bool)
    requires Lexed(ts) && At(ts, i, UnparseFields(fs, comma)) && AllFieldsShaped(fs) && |fs| == 1
    requires ts[i + |UnparseFields(fs, comma)|].kind == RCURLY
    ensures FieldList(ts, i, RCURLY) ==
            if AllFieldCommasOk(fs, comma) then Ok(Members(fs, comma), i + |UnparseFields(fs, comma)|) else Fail
    ensures ts[i].kind != RBRACK
    decreases fs, 7
  {
    hide At, UnparseField, UnparseFields, ShapedField, CommasOk, AllFieldsShaped, AllFieldCommasOk, FieldAt,
         FieldList, Lexed;
    var f := fs[0];
    FieldsParts(fs, comma);
    AtFirst(ts, i, UnparseFields(fs, comma));
    FieldKey(f);
    if comma {
      assert UnparseField(f) + [Op(COMMA)] == UnparseField(f) + [Op(COMMA)] + [];
      AtOp(ts, i, UnparseField(f), Op(COMMA), []);
      FieldsEmpty(ts, i + |UnparseField(f)| + 1);
    } else {
      assert UnparseField(f) + [] == UnparseField(f);
    }
    FieldComplete(ts, i, f);
    FieldsStep(ts, i);
    assert fs == [f] && [f] + [] == [f];
  }

  lemma {:induction false} FieldsConsComplete(ts: seq<Sym>, i: nat, fs: seq<CField>, comma: bool)
    requires Lexed(ts) && At(ts, i, UnparseFields(fs, comma)) && AllFieldsShaped(fs) && |fs| > 1
    requires ts[i + |UnparseFields(fs, comma)|].kind == RCURLY
    ensures FieldList(ts, i, RCURLY) ==
            if AllFieldCommasOk(fs, comma) then Ok(Members(fs, comma), i + |UnparseFields(fs, comma)|) else Fail
    ensures ts[i].kind != RBRACK
    decreases fs, 7
  {
    hide At, UnparseField, UnparseFields, ShapedField, CommasOk, AllFieldsShaped, AllFieldCommasOk, FieldAt,
         FieldList, Lexed;
    var f := fs[0];
    FieldsParts(fs, comma);
    AtFirst(ts, i, UnparseFields(fs, comma));
    FieldKey(f);
    AtOp(ts, i, UnparseField(f), Op(COMMA), UnparseFields(fs[1..], comma));
    FieldComplete(ts, i, f);
    FieldsComplete(ts, i + |UnparseField(f)| + 1, fs[1..], comma);
    FieldsStep(ts, i);
  }

  lemma FieldKey(f: CField)
    requires ShapedField(f)
    ensures f.key.kind == STRING || f.key.kind == IDENT
  {
  }

}
