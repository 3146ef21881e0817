// The grammar functions read exactly what they say: the tokens consumed are the
// tokens of the tree returned, and the tree is one of the documented grammar.
module Soundness {
  import opened Tokens
  import opened Syntax
  import opened Grammar
  import opened Steps

  lemma CutAt<T>(ts: seq<T>, i: nat, j: nat, k: nat)
    requires i <= j < k <= |ts|
    ensures ts[i..k] == ts[i..j] + [ts[j]] + ts[j + 1..k]
  {
  }

  lemma CutFirst<T>(ts: seq<T>, i: nat, j: nat)
    requires i < j <= |ts|
    ensures ts[i..j] == [ts[i]] + ts[i + 1..j]
  {
  }

  lemma CutLast<T>(ts: seq<T>, i: nat, j: nat)
    requires i <= j < |ts|
    ensures ts[i..j + 1] == ts[i..j] + [ts[j]]
  {
  }

  lemma CutBoth<T>(ts: seq<T>, i: nat, j: nat, k: nat)
    requires i <= j < k < |ts|
    ensures ts[i..k + 1] == ts[i..j] + [ts[j]] + ts[j + 1..k] + [ts[k]]
    ensures i == j ==> ts[i..k + 1] == [ts[j]] + ts[j + 1..k] + [ts[k]]
  {
  }

  lemma CutTwo<T>(ts: seq<T>, i: nat, j: nat)
    requires i <= j < |ts| - 1
    ensures ts[i..j + 2] == ts[i..j] + [ts[j], ts[j + 1]]
  {
  }

  lemma CutFirstTwo<T>(ts: seq<T>, i: nat, j: nat)
    requires i + 2 <= j <= |ts|
    ensures ts[i..j] == [ts[i], ts[i + 1]] + ts[i + 2..j]
  {
  }

  // c is a tree of the grammar, at least as tight as level, for the symbols from i to j.
  ghost predicate Reads(ts: seq<Sym>, i: nat, c: Cst, j: nat, level: nat) {
    i <= j <= |ts| && Unparse(c) == ts[i..j] && Shaped(c) && CommasOk(c) && Level(c) >= level
  }

  ghost predicate ReadsList(ts: seq<Sym>, i: nat, l: Exprs, j: nat) {
    && i <= j <= |ts| && UnparseList(l.members, l.comma) == ts[i..j]
    && (l.comma ==> l.members != [])
    && forall k :: 0 <= k < |l.members| ==> Shaped(l.members[k]) && CommasOk(l.members[k])
  }

  ghost predicate ReadsField(ts: seq<Sym>, i: nat, f: CField, j: nat) {
    i <= j <= |ts| && UnparseField(f) == ts[i..j] && ShapedField(f) && CommasOk(f.value)
  }

  ghost predicate ReadsFields(ts: seq<Sym>, i: nat, l: Fields, j: nat) {
    && i <= j <= |ts| && UnparseFields(l.members, l.comma) == ts[i..j]
    && (l.comma ==> l.members != [])
    && forall k :: 0 <= k < |l.members| ==> ShapedField(l.members[k]) && CommasOk(l.members[k].value)
  }

  ghost predicate ReadsHeader(ts: seq<Sym>, i: nat, h: Header, j: nat) {
    && i <= j <= |ts| && h.names != [] && (h.tag.Some? ==> LabelOk(h.tag.value))
    && UnparseNames(h.names) + UnparseTag(h.tag) == ts[i..j]
  }

  ghost predicate ReadsStmt(ts: seq<Sym>, i: nat, s: CStmt, j: nat) {
    i <= j <= |ts| && UnparseStmt(s) == ts[i..j] && ShapedStmt(s) && StmtCommasOk(s)
  }

  ghost predicate ReadsBody(ts: seq<Sym>, i: nat, b: Stmts, j: nat) {
    && i <= j <= |ts| && UnparseBody(b.members, b.comma) == ts[i..j]
    && (b.comma ==> b.members != [])
    && forall k :: 0 <= k < |b.members| ==> ShapedStmt(b.members[k]) && StmtCommasOk(b.members[k])
  }

  // The shortest cases.
  lemma ReadsLoosely(ts: seq<Sym>, i: nat, c: Cst, j: nat, level: nat, level': nat)
    requires Reads(ts, i, c, j, level) && level' <= level
    ensures Reads(ts, i, c, j, level') && Level(c) >= level
  {
  }

  lemma ReadsLeaf(ts: seq<Sym>, i: nat)
    requires Lexed(ts) && i < |ts| && (ts[i].kind == IDENT || IsLiteral(ts[i].kind))
    ensures Reads(ts, i, if ts[i].kind == IDENT then CName(ts[i].lit) else CLit(ts[i]), i + 1, 8)
  {
  }

  lemma ReadsNone(ts: seq<Sym>, i: nat)
    requires i < |ts|
    ensures ReadsList(ts, i, Members([], false), i) && ReadsFields(ts, i, Members([], false), i)
    ensures ReadsBody(ts, i, Members([], false), i)
  {
  }

  lemma ReadsOne(ts: seq<Sym>, i: nat, c: Cst, j: nat)
    requires Reads(ts, i, c, j, 1)
    ensures ReadsList(ts, i, Members([c], false), j)
  {
  }

  lemma ReadsOneField(ts: seq<Sym>, i: nat, f: CField, j: nat)
    requires ReadsField(ts, i, f, j)
    ensures ReadsFields(ts, i, Members([f], false), j)
  {
  }

  lemma ReadsOneStmt(ts: seq<Sym>, i: nat, s: CStmt, j: nat)
    requires ReadsStmt(ts, i, s, j)
    ensures ReadsBody(ts, i, Members([s], false), j)
  {
  }

  // A symbol whose kind fixes its text.
  lemma FixedText(ts: seq<Sym>, j: nat)
    requires Lexed(ts) && j < |ts|
    ensures !HasText(ts[j].kind) ==> ts[j] == Op(ts[j].kind)
  {
  }

  lemma ReadsBinary(ts: seq<Sym>, i: nat, l: Cst, j: nat, r: Cst, k: nat, level: nat)
    requires Lexed(ts) && j < k <= |ts| && Reads(ts, i, l, j, level) && 1 <= level <= BinaryPrecedence(ts[j].kind)
    requires ts[j].kind != POW && Level(l) >= BinaryPrecedence(ts[j].kind)
    requires Reads(ts, j + 1, r, k, BinaryPrecedence(ts[j].kind) + 1)
    ensures Reads(ts, i, CBinary(ts[j].kind, l, r), k, level)
  {
    hide Lexed;
    FixedText(ts, j);
    CutAt(ts, i, j, k);
  }

  lemma ReadsAccess(ts: seq<Sym>, i: nat, c: Cst, j: nat)
    requires Lexed(ts) && j + 2 <= |ts| && Reads(ts, i, c, j, 8)
    requires ts[j].kind == DOT && ts[j + 1].kind == IDENT
    ensures Reads(ts, i, CAccess(c, ts[j + 1].lit), j + 2, 8)
  {
    CutTwo(ts, i, j);
  }

  lemma ReadsIndex(ts: seq<Sym>, i: nat, c: Cst, j: nat, index: Cst, k: nat)
    requires Lexed(ts) && j < k < |ts| && Reads(ts, i, c, j, 8) && Reads(ts, j + 1, index, k, 1)
    requires ts[j].kind == LBRACK && ts[k].kind == RBRACK
    ensures Reads(ts, i, CIndex(c, index), k + 1, 8)
  {
    CutBoth(ts, i, j, k);
  }

  lemma ReadsCall(ts: seq<Sym>, i: nat, c: Cst, j: nat, l: Exprs, k: nat)
    requires Lexed(ts) && j < k < |ts| && Reads(ts, i, c, j, 8) && ReadsList(ts, j + 1, l, k)
    requires ts[j].kind == LPAREN && ts[k].kind == RPAREN
    ensures Reads(ts, i, CCall(c, l.members, l.comma), k + 1, 8)
  {
    CutBoth(ts, i, j, k);
  }

  lemma ReadsArray(ts: seq<Sym>, i: nat, l: Exprs, k: nat)
    requires Lexed(ts) && i < k < |ts| && ReadsList(ts, i + 1, l, k)
    requires ts[i].kind == LBRACK && ts[k].kind == RBRACK
    ensures Reads(ts, i, CArray(l.members, l.comma), k + 1, 8)
  {
    CutBoth(ts, i, i, k);
  }

  lemma ReadsObject(ts: seq<Sym>, i: nat, l: Fields, k: nat)
    requires Lexed(ts) && i < k < |ts| && ReadsFields(ts, i + 1, l, k)
    requires ts[i].kind == LCURLY && ts[k].kind == RCURLY
    ensures Reads(ts, i, CObject(l.members, l.comma), k + 1, 8)
  {
    CutBoth(ts, i, i, k);
  }

  lemma ReadsParen(ts: seq<Sym>, i: nat, c: Cst, k: nat)
    requires Lexed(ts) && i < k < |ts| && Reads(ts, i + 1, c, k, 1)
    requires ts[i].kind == LPAREN && ts[k].kind == RPAREN
    ensures Reads(ts, i, CParen(c), k + 1, 8)
  {
    CutBoth(ts, i, i, k);
  }

  lemma ReadsPow(ts: seq<Sym>, i: nat, l: Cst, j: nat, r: Cst, k: nat)
    requires Lexed(ts) && j < k <= |ts| && Reads(ts, i, l, j, 7) && Reads(ts, j + 1, r, k, 6)
    requires ts[j].kind == POW
    ensures Reads(ts, i, CBinary(POW, l, r), k, 6)
  {
    hide Lexed;
    FixedText(ts, j);
    CutAt(ts, i, j, k);
  }

  lemma ReadsUnary(ts: seq<Sym>, i: nat, c: Cst, k: nat)
    requires Lexed(ts) && i < k <= |ts| && Reads(ts, i + 1, c, k, 7) && IsUnaryOp(ts[i].kind)
    ensures Reads(ts, i, CUnary(ts[i].kind, c), k, 7)
  {
    CutFirst(ts, i, k);
  }

  lemma ReadsFieldsCons(ts: seq<Sym>, i: nat, f: CField, j: nat, l: Fields, k: nat)
    requires Lexed(ts) && j < k <= |ts| && ReadsField(ts, i, f, j) && ReadsFields(ts, j + 1, l, k)
    requires ts[j].kind == COMMA
    ensures ReadsFields(ts, i, Members([f] + l.members, l.members == [] || l.comma), k)
  {
    CutAt(ts, i, j, k);
    var all := [f] + l.members;
    assert all[1..] == l.members;
  }

  // One more member in front of a list read after a comma.
  lemma ReadsCons(ts: seq<Sym>, i: nat, c: Cst, j: nat, l: Exprs, k: nat)
    requires Lexed(ts) && j < k <= |ts| && Reads(ts, i, c, j, 1) && ReadsList(ts, j + 1, l, k)
    requires ts[j].kind == COMMA
    ensures ReadsList(ts, i, Members([c] + l.members, l.members == [] || l.comma), k)
  {
    CutAt(ts, i, j, k);
    var all := [c] + l.members;
    assert all[1..] == l.members;
  }

  lemma ReadsBlock(ts: seq<Sym>, i: nat, h: Header, j: nat, b: Stmts, k: nat)
    requires Lexed(ts) && i <= j < k < |ts| && ReadsBody(ts, j + 1, b, k)
    requires ReadsHeader(ts, i, h, j)
    requires ts[j].kind == LCURLY && ts[k].kind == RCURLY
    ensures ReadsStmt(ts, i, CBlock(h.names, h.tag, b.members, b.comma), k + 1)
  {
    CutBoth(ts, i, j, k);
  }

  lemma ReadsAttribute(ts: seq<Sym>, i: nat, h: Header, j: nat, c: Cst, k: nat)
    requires Lexed(ts) && i <= j < k <= |ts| && ReadsHeader(ts, i, h, j) && Reads(ts, j + 1, c, k, 1)
    requires |h.names| == 1 && h.tag.None? && ts[j].kind == ASSIGN
    ensures ReadsStmt(ts, i, CAttribute(h.names[0], c), k)
  {
    CutAt(ts, i, j, k);
  }

  lemma ReadsStmtCons(ts: seq<Sym>, i: nat, s: CStmt, j: nat, b: Stmts, k: nat)
    requires Lexed(ts) && j < k <= |ts| && ReadsStmt(ts, i, s, j) && ReadsBody(ts, j + 1, b, k)
    requires ts[j].kind == TERMINATOR
    ensures ReadsBody(ts, i, Members([s] + b.members, b.members == [] || b.comma), k)
  {
    CutAt(ts, i, j, k);
    var all := [s] + b.members;
    assert all[1..] == b.members;
  }

  lemma {:induction false} ExpressionSound(ts: seq<Sym>, i: nat, r: Read<Cst>)
    requires Lexed(ts) && i < |ts| && r == Expression(ts, i) && r.Ok?
    ensures Reads(ts, i, r.val, r.next, 1)
    decreases |ts| - i, 5
  {
    BinOpSound(ts, i, 1, r);
  }

  lemma {:induction false} BinOpSound(ts: seq<Sym>, i: nat, inPrec: nat, r: Read<Cst>)
    requires Lexed(ts) && i < |ts| && 1 <= inPrec <= 6 && r == BinOp(ts, i, inPrec) && r.Ok?
    ensures Reads(ts, i, r.val, r.next, inPrec)
    decreases |ts| - i, 4
  {
    hide Reads, Pow, BinLoop;
    var l := Pow(ts, i);
    PowSound(ts, i, l);
    ReadsLoosely(ts, i, l.val, l.next, 6, inPrec);
    BinLoopSound(ts, i, l.next, l.val, inPrec, r);
  }

  lemma {:induction false} BinLoopSound(ts: seq<Sym>, i: nat, j: nat, lhs: Cst, inPrec: nat, r: Read<Cst>)
    requires Lexed(ts) && j < |ts| && 1 <= inPrec <= 6 && ts[j].kind != POW
    requires Reads(ts, i, lhs, j, inPrec) && Level(lhs) >= BinaryPrecedence(ts[j].kind)
    requires r == BinLoop(ts, j, lhs, inPrec) && r.Ok?
    ensures Reads(ts, i, r.val, r.next, inPrec)
    decreases |ts| - j, 4
  {
    hide Reads, BinOp, Lexed;
    NotLast(ts, j);
    var op := ts[j].kind;
    var prec := BinaryPrecedence(op);
    if prec >= inPrec {
      var rhs := BinOp(ts, j + 1, prec + 1);
      BinOpSound(ts, j + 1, prec + 1, rhs);
      ReadsBinary(ts, i, lhs, j, rhs.val, rhs.next, inPrec);
      BinLoopSound(ts, i, rhs.next, CBinary(op, lhs, rhs.val), inPrec, r);
    }
  }

  lemma {:induction false} PowSound(ts: seq<Sym>, i: nat, r: Read<Cst>)
    requires Lexed(ts) && i < |ts| && r == Pow(ts, i) && r.Ok?
    ensures Reads(ts, i, r.val, r.next, 6)
    decreases |ts| - i, 3
  {
    hide Reads, UnaryExpr;
    var l := UnaryExpr(ts, i);
    UnarySound(ts, i, l);
    if ts[l.next].kind == POW {
      var rhs := Pow(ts, l.next + 1);
      PowSound(ts, l.next + 1, rhs);
      ReadsPow(ts, i, l.val, l.next, rhs.val, rhs.next);
    } else {
      ReadsLoosely(ts, i, l.val, l.next, 7, 6);
    }
  }

  lemma {:induction false} UnarySound(ts: seq<Sym>, i: nat, r: Read<Cst>)
    requires Lexed(ts) && i < |ts| && r == UnaryExpr(ts, i) && r.Ok?
    ensures Reads(ts, i, r.val, r.next, 7)
    decreases |ts| - i, 2
  {
    hide Reads, Primary, Oper;
    if IsUnaryOp(ts[i].kind) {
      var c := UnaryExpr(ts, i + 1);
      UnarySound(ts, i + 1, c);
      ReadsUnary(ts, i, c.val, c.next);
    } else {
      var c := Primary(ts, i);
      PrimarySound(ts, i, c);
      OperSound(ts, i, c.next, c.val, r);
      ReadsLoosely(ts, i, r.val, r.next, 8, 7);
    }
  }

  lemma {:induction false} OperSound(ts: seq<Sym>, i: nat, j: nat, c: Cst, r: Read<Cst>)
    requires Lexed(ts) && j < |ts| && Reads(ts, i, c, j, 8) && r == Oper(ts, j, c) && r.Ok?
    ensures Reads(ts, i, r.val, r.next, 8)
    decreases |ts| - j, 2
  {
    hide Reads, Expression, ExpressionList;
    match ts[j].kind
    case DOT =>
      ReadsAccess(ts, i, c, j);
      OperSound(ts, i, j + 2, CAccess(c, ts[j + 1].lit), r);
    case LBRACK =>
      IndexSound(ts, i, j, c, r);
    case LPAREN =>
      CallSound(ts, i, j, c, r);
    case _ =>
  }

  lemma {:induction false} IndexSound(ts: seq<Sym>, i: nat, j: nat, c: Cst, r: Read<Cst>)
    requires Lexed(ts) && j < |ts| && Reads(ts, i, c, j, 8) && r == Oper(ts, j, c) && r.Ok? && ts[j].kind == LBRACK
    ensures Reads(ts, i, r.val, r.next, 8)
    decreases |ts| - j, 1
  {
    hide Reads, Expression;
    NotLast(ts, j);
    var index := Expression(ts, j + 1);
    ExpressionSound(ts, j + 1, index);
    ReadsIndex(ts, i, c, j, index.val, index.next);
    OperSound(ts, i, index.next + 1, CIndex(c, index.val), r);
  }

  lemma {:induction false} CallSound(ts: seq<Sym>, i: nat, j: nat, c: Cst, r: Read<Cst>)
    requires Lexed(ts) && j < |ts| && Reads(ts, i, c, j, 8) && r == Oper(ts, j, c) && r.Ok? && ts[j].kind == LPAREN
    ensures Reads(ts, i, r.val, r.next, 8)
    decreases |ts| - j, 1
  {
    hide Reads, ReadsList, ExpressionList;
    var l := ExpressionList(ts, j + 1, RPAREN);
    ListSound(ts, j + 1, RPAREN, l);
    ReadsCall(ts, i, c, j, l.val, l.next);
    OperSound(ts, i, l.next + 1, CCall(c, l.val.members, l.val.comma), r);
  }

  lemma {:induction false} PrimarySound(ts: seq<Sym>, i: nat, r: Read<Cst>)
    requires Lexed(ts) && i < |ts| && r == Primary(ts, i) && r.Ok?
    ensures Reads(ts, i, r.val, r.next, 8)
    decreases |ts| - i, 1
  {
    hide Reads;
    match ts[i].kind
    case LPAREN => ParenSound(ts, i, r);
    case LBRACK => ArraySound(ts, i, r);
    case LCURLY => ObjectSound(ts, i, r);
    case _ => ReadsLeaf(ts, i);
  }

  lemma {:induction false} ParenSound(ts: seq<Sym>, i: nat, r: Read<Cst>)
    requires Lexed(ts) && i < |ts| && r == Primary(ts, i) && r.Ok? && ts[i].kind == LPAREN
    ensures Reads(ts, i, r.val, r.next, 8)
    decreases |ts| - i, 0
  {
    hide Reads, Expression;
    var c := Expression(ts, i + 1);
    ExpressionSound(ts, i + 1, c);
    ReadsParen(ts, i, c.val, c.next);
  }

  lemma {:induction false} ArraySound(ts: seq<Sym>, i: nat, r: Read<Cst>)
    requires Lexed(ts) && i < |ts| && r == Primary(ts, i) && r.Ok? && ts[i].kind == LBRACK
    ensures Reads(ts, i, r.val, r.next, 8)
    decreases |ts| - i, 0
  {
    hide Reads, ReadsList, ExpressionList;
    var l := ExpressionList(ts, i + 1, RBRACK);
    ListSound(ts, i + 1, RBRACK, l);
    ReadsArray(ts, i, l.val, l.next);
  }

  lemma {:induction false} ObjectSound(ts: seq<Sym>, i: nat, r: Read<Cst>)
    requires Lexed(ts) && i < |ts| && r == Primary(ts, i) && r.Ok? && ts[i].kind == LCURLY
    ensures Reads(ts, i, r.val, r.next, 8)
    decreases |ts| - i, 0
  {
    hide Reads, ReadsFields, FieldList;
    var l := FieldList(ts, i + 1, RCURLY);
    FieldsSound(ts, i + 1, l);
    ReadsObject(ts, i, l.val, l.next);
  }

  lemma {:induction false} ListSound(ts: seq<Sym>, i: nat, until: Kind, r: Read<Exprs>)
    requires Lexed(ts) && i < |ts| && (until == RPAREN || until == RBRACK)
    requires r == ExpressionList(ts, i, until) && r.Ok?
    ensures ReadsList(ts, i, r.val, r.next)
    decreases |ts| - i, 6
  {
    hide Reads, ReadsList, Expression, ExpressionList, Lexed;
    if ts[i].kind != until && ts[i].kind != EOF {
      ListStep(ts, i, until);
      var c := Expression(ts, i);
      ExpressionSound(ts, i, c);
      if ts[c.next].kind != until {
        var l := ExpressionList(ts, c.next + 1, until);
        ListSound(ts, c.next + 1, until, l);
        ReadsCons(ts, i, c.val, c.next, l.val, l.next);
      } else {
        ReadsOne(ts, i, c.val, c.next);
      }
    } else {
      ListEmpty(ts, i, until);
      ReadsNone(ts, i);
    }
  }

  lemma {:induction false} FieldSound(ts: seq<Sym>, i: nat, r: Read<CField>)
    requires Lexed(ts) && i < |ts| && r == FieldAt(ts, i) && r.Ok?
    ensures ReadsField(ts, i, r.val, r.next)
    decreases |ts| - i, 6
  {
    var c := Expression(ts, i + 2);
    ExpressionSound(ts, i + 2, c);
    CutFirstTwo(ts, i, c.next);
  }

  lemma {:induction false} FieldsSound(ts: seq<Sym>, i: nat, r: Read<Fields>)
    requires Lexed(ts) && i < |ts| && r == FieldList(ts, i, RCURLY) && r.Ok?
    ensures ReadsFields(ts, i, r.val, r.next)
    decreases |ts| - i, 7
  {
    hide ReadsField, ReadsFields, FieldAt, FieldList, Lexed;
    if ts[i].kind != RCURLY && ts[i].kind != EOF {
      FieldsStep(ts, i);
      var f := FieldAt(ts, i);
      FieldSound(ts, i, f);
      if ts[f.next].kind != RCURLY {
        var l := FieldList(ts, f.next + 1, RCURLY);
        FieldsSound(ts, f.next + 1, l);
        ReadsFieldsCons(ts, i, f.val, f.next, l.val, l.next);
      } else {
        ReadsOneField(ts, i, f.val, f.next);
      }
    } else {
      FieldsEmpty(ts, i);
      ReadsNone(ts, i);
    }
  }

  lemma {:induction false} FragmentsSound(ts: seq<Sym>, i: nat, r: Read<seq<string>>)
    requires Lexed(ts) && i < |ts| && r == Fragments(ts, i) && r.Ok?
    ensures UnparseNames(r.val) == ts[i..r.next]
    decreases |ts| - i
  {
    if ts[i + 1].kind == DOT {
      var names := Fragments(ts, i + 2);
      FragmentsSound(ts, i + 2, names);
      CutFirstTwo(ts, i, names.next);
      var all := [ts[i].lit] + names.val;
      assert all[1..] == names.val;
    }
  }

  lemma BlockNameSound(ts: seq<Sym>, i: nat, r: Read<Header>)
    requires Lexed(ts) && i < |ts| && r == BlockName(ts, i) && r.Ok?
    ensures ReadsHeader(ts, i, r.val, r.next)
  {
    var names := Fragments(ts, i);
    FragmentsSound(ts, i, names);
    CutLast(ts, i, names.next);
  }

  lemma {:induction false} StatementSound(ts: seq<Sym>, i: nat, r: Read<CStmt>)
    requires Lexed(ts) && i < |ts| && r == Statement(ts, i) && r.Ok?
    ensures ReadsStmt(ts, i, r.val, r.next)
    decreases |ts| - i, 8
  {
    hide ReadsStmt, ReadsHeader, BlockName, AttributeTail, BlockTail;
    var h := BlockName(ts, i);
    BlockNameSound(ts, i, h);
    if ts[h.next].kind == ASSIGN {
      AttributeSound(ts, i, h.next, h.val, r);
    } else {
      BlockSound(ts, i, h.next, h.val, r);
    }
  }

  lemma AttributeSound(ts: seq<Sym>, i: nat, j: nat, h: Header, r: Read<CStmt>)
    requires Lexed(ts) && i <= j < |ts| && ts[j].kind == ASSIGN && ReadsHeader(ts, i, h, j)
    requires r == AttributeTail(ts, j, h) && r.Ok?
    ensures ReadsStmt(ts, i, r.val, r.next)
  {
    hide Reads, ReadsStmt, ReadsHeader, Expression;
    var c := Expression(ts, j + 1);
    ExpressionSound(ts, j + 1, c);
    ReadsAttribute(ts, i, h, j, c.val, c.next);
  }

  lemma {:induction false} BlockSound(ts: seq<Sym>, i: nat, j: nat, h: Header, r: Read<CStmt>)
    requires Lexed(ts) && i <= j < |ts| && ReadsHeader(ts, i, h, j)
    requires r == BlockTail(ts, j, h) && r.Ok?
    ensures ReadsStmt(ts, i, r.val, r.next)
    decreases |ts| - j, 7
  {
    hide ReadsStmt, ReadsHeader, ReadsBody, Body;
    var b := Body(ts, j + 1, RCURLY);
    BodySound(ts, j + 1, RCURLY, b);
    ReadsBlock(ts, i, h, j, b.val, b.next);
  }

  lemma {:induction false} BodySound(ts: seq<Sym>, i: nat, until: Kind, r: Read<Stmts>)
    requires Lexed(ts) && i < |ts| && (until == RCURLY || until == EOF) && r == Body(ts, i, until) && r.Ok?
    ensures ReadsBody(ts, i, r.val, r.next)
    decreases |ts| - i, 9
  {
    hide ReadsStmt, ReadsBody, Statement, Body, Lexed;
    if ts[i].kind != until && ts[i].kind != EOF {
      BodyStep(ts, i, until);
      var s := Statement(ts, i);
      StatementSound(ts, i, s);
      if ts[s.next].kind != until {
        var b := Body(ts, s.next + 1, until);
        BodySound(ts, s.next + 1, until, b);
        ReadsStmtCons(ts, i, s.val, s.next, b.val, b.next);
      } else {
        ReadsOneStmt(ts, i, s.val, s.next);
      }
    } else {
      BodyEmpty(ts, i, until);
      ReadsNone(ts, i);
    }
  }

  lemma {:induction false} FileEnds(ts: seq<Sym>, i: nat)
    requires Lexed(ts) && i < |ts| && Body(ts, i, EOF).Ok?
    ensures Body(ts, i, EOF).next == |ts| - 1
    decreases |ts| - i
  {
    hide Statement;
    if ts[i].kind != EOF && ts[Statement(ts, i).next].kind != EOF {
      FileEnds(ts, Statement(ts, i).next + 1);
    }
  }

  // What an accepted file reads as derives all its tokens from the grammar.
  lemma FileSound(ts: seq<Sym>)
    requires Lexed(ts) && File(ts).Ok?
    ensures var b := File(ts).val;
            ReadsBody(ts, 0, b, |ts| - 1) && UnparseBody(b.members, b.comma) + [Op(EOF)] == ts
  {
    hide Body, ReadsBody;
    FixedText(ts, |ts| - 1);
    BodySound(ts, 0, EOF, Body(ts, 0, EOF));
    FileEnds(ts, 0);
    CutLast(ts, 0, |ts| - 1);
    BodyReads(ts, File(ts).val, |ts| - 1);
    assert ts[0..|ts|] == ts;
  }

  lemma BodyReads(ts: seq<Sym>, b: Stmts, j: nat)
    requires ReadsBody(ts, 0, b, j)
    ensures j <= |ts| && UnparseBody(b.members, b.comma) == ts[0..j]
  {
  }
}
