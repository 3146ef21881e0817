// The documented grammar as functions on symbols: the error-free course of the
// parser in internal.go. Each function tells the concrete tree it reads at i
// and the index after it, or that there is none.
module Grammar {
  import opened Tokens
  import opened Syntax

  datatype Read<+T> = Fail | Ok(val: T, next: nat)

  // What the scanner delivers: the end of file last, and no text on symbols
  // whose kind fixes it.
  ghost predicate Lexed(ts: seq<Sym>) {
    && |ts| > 0 && ts[|ts| - 1].kind == EOF
    && (forall i :: 0 <= i < |ts| - 1 ==> ts[i].kind != EOF)
    && (forall i :: 0 <= i < |ts| && !HasText(ts[i].kind) ==> ts[i] == Op(ts[i].kind))
  }

  lemma NotLast(ts: seq<Sym>, i: nat)
    requires Lexed(ts) && i < |ts|
    ensures ts[i].kind != EOF ==> i + 1 < |ts|
  {
  }

  // A kind that continues an operand or cannot follow one.
  predicate IsPostfix(k: Kind) {
    k.DOT? || k.LBRACK? || k.LPAREN? || k.STRING? || k.LCURLY?
  }

  // Expression = BinOpExpr
  function Expression(ts: seq<Sym>, i: nat): (r: Read<Cst>)
    requires Lexed(ts) && i < |ts|
    ensures r.Ok? ==> i < r.next < |ts|
    decreases |ts| - i, 5
  {
    BinOp(ts, i, 1)
  }

  // The operators of precedence inPrec and up.
  function BinOp(ts: seq<Sym>, i: nat, inPrec: nat): (r: Read<Cst>)
    requires Lexed(ts) && i < |ts| && 1 <= inPrec <= 6
    ensures r.Ok? ==> i < r.next < |ts| && BinaryPrecedence(ts[r.next].kind) < inPrec && ts[r.next].kind != POW
    decreases |ts| - i, 4
  {
    match Pow(ts, i)
    case Fail => Fail
    case Ok(lhs, j) => BinLoop(ts, j, lhs, inPrec)
  }

  // { cur_prec_ops NextPrecExpr } after the left operand lhs.
  function BinLoop(ts: seq<Sym>, j: nat, lhs: Cst, inPrec: nat): (r: Read<Cst>)
    requires Lexed(ts) && j < |ts| && 1 <= inPrec <= 6 && ts[j].kind != POW
    ensures r.Ok? ==> j <= r.next < |ts| && BinaryPrecedence(ts[r.next].kind) < inPrec && ts[r.next].kind != POW
    decreases |ts| - j, 4
  {
    var op := ts[j].kind;
    var prec := BinaryPrecedence(op);
    if prec < inPrec then Ok(lhs, j)
    else
      match BinOp(ts, j + 1, prec + 1)
      case Fail => Fail
      case Ok(rhs, k) => BinLoop(ts, k, CBinary(op, lhs, rhs), inPrec)
  }

  // PowExpr = UnaryExpr [ "^" PowExpr ]
  function Pow(ts: seq<Sym>, i: nat): (r: Read<Cst>)
    requires Lexed(ts) && i < |ts|
    ensures r.Ok? ==> i < r.next < |ts| && ts[r.next].kind != POW
    decreases |ts| - i, 3
  {
    hide UnaryExpr;
    match UnaryExpr(ts, i)
    case Fail => Fail
    case Ok(lhs, j) =>
      if ts[j].kind == POW then
        match Pow(ts, j + 1)
        case Fail => Fail
        case Ok(rhs, k) =>
          Ok(CBinary(POW, lhs, rhs), k)
      else Ok(lhs, j)
  }

  // UnaryExpr = OperExpr | unary_op UnaryExpr
  function UnaryExpr(ts: seq<Sym>, i: nat): (r: Read<Cst>)
    requires Lexed(ts) && i < |ts|
    ensures r.Ok? ==> i < r.next < |ts|
    decreases |ts| - i, 2
  {
    if IsUnaryOp(ts[i].kind) then
      match UnaryExpr(ts, i + 1)
      case Fail => Fail
      case Ok(c, j) =>
        Ok(CUnary(ts[i].kind, c), j)
    else
      match Primary(ts, i)
      case Fail => Fail
      case Ok(c, j) => Oper(ts, j, c)
  }

  // { AccessExpr | IndexExpr | CallExpr } after the operand c.
  function Oper(ts: seq<Sym>, j: nat, c: Cst): (r: Read<Cst>)
    requires Lexed(ts) && j < |ts|
    ensures r.Ok? ==> j <= r.next < |ts|
    decreases |ts| - j, 2
  {
    hide Expression, ExpressionList, Lexed;
    NotLast(ts, j);
    match ts[j].kind
    case DOT =>
      NotLast(ts, j + 1);
      if ts[j + 1].kind != IDENT then Fail else
      Oper(ts, j + 2, CAccess(c, ts[j + 1].lit))
    case LBRACK =>
      (match Expression(ts, j + 1)
       case Fail => Fail
       case Ok(index, k) =>
         NotLast(ts, k);
         if ts[k].kind != RBRACK then Fail else
         Oper(ts, k + 1, CIndex(c, index)))
    case LPAREN =>
      (match ExpressionList(ts, j + 1, RPAREN)
       case Fail => Fail
       case Ok(l, k) =>
         NotLast(ts, k);
         if ts[k].kind != RPAREN then Fail else
         Oper(ts, k + 1, CCall(c, l.members, l.comma)))
    case STRING | LCURLY => Fail
    case _ => Ok(c, j)
  }

  // PrimaryExpr = LiteralValue | ArrayExpr | ObjectExpr
  function Primary(ts: seq<Sym>, i: nat): (r: Read<Cst>)
    requires Lexed(ts) && i < |ts|
    ensures r.Ok? ==> i < r.next < |ts|
    decreases |ts| - i, 1
  {
    hide Expression, ExpressionList, FieldList, Lexed;
    NotLast(ts, i);
    match ts[i].kind
    case IDENT => Ok(CName(ts[i].lit), i + 1)
    case STRING | NUMBER | FLOAT | BOOL | NULL => Ok(CLit(ts[i]), i + 1)
    case LPAREN =>
      (match Expression(ts, i + 1)
       case Fail => Fail
       case Ok(c, k) =>
         NotLast(ts, k);
         if ts[k].kind != RPAREN then Fail else
         Ok(CParen(c), k + 1))
    case LBRACK =>
      (match ExpressionList(ts, i + 1, RBRACK)
       case Fail => Fail
       case Ok(l, k) =>
         NotLast(ts, k);
         if ts[k].kind != RBRACK then Fail else Ok(CArray(l.members, l.comma), k + 1))
    case LCURLY =>
      if ts[i + 1].kind == RBRACK then Fail else
      (match FieldList(ts, i + 1, RCURLY)
       case Fail => Fail
       case Ok(l, k) =>
         NotLast(ts, k);
         if ts[k].kind != RCURLY then Fail else Ok(CObject(l.members, l.comma), k + 1))
    case _ => Fail
  }

  // Members of a list, and whether a comma (for statements, a terminator)
  // follows the last.
  datatype Members<+T> = Members(members: seq<T>, comma: bool)

  type Exprs = Members<Cst>

  type Fields = Members<CField>

  type Stmts = Members<CStmt>

  // ExpressionList = Expression { "," Expression } [ "," ], or nothing.
  function ExpressionList(ts: seq<Sym>, i: nat, until: Kind): (r: Read<Exprs>)
    requires Lexed(ts) && i < |ts| && (until == RPAREN || until == RBRACK)
    ensures r.Ok? ==> i <= r.next < |ts|
    decreases |ts| - i, 6
  {
    hide Expression, Lexed;
    if ts[i].kind == until || ts[i].kind == EOF then Ok(Members([], false), i)
    else
      match Expression(ts, i)
      case Fail => Fail
      case Ok(c, j) =>
        if ts[j].kind == until then Ok(Members([c], false), j)
        else if ts[j].kind != COMMA then Fail
        else
          NotLast(ts, j);
          match ExpressionList(ts, j + 1, until)
          case Fail => Fail
          case Ok(l, k) =>
            Ok(Members([c] + l.members, l.members == [] || l.comma), k)
  }

  // Field = ( string | identifier ) "=" Expression
  function FieldAt(ts: seq<Sym>, i: nat): (r: Read<CField>)
    requires Lexed(ts) && i < |ts|
    ensures r.Ok? ==> i < r.next < |ts|
    decreases |ts| - i, 6
  {
    if ts[i].kind != STRING && ts[i].kind != IDENT then Fail
    else if ts[i + 1].kind != ASSIGN then Fail
    else
      match Expression(ts, i + 2)
      case Fail => Fail
      case Ok(c, j) =>
        Ok(CField(ts[i], c), j)
  }

  // FieldList = Field { "," Field } [ "," ], or nothing.
  function FieldList(ts: seq<Sym>, i: nat, until: Kind): (r: Read<Fields>)
    requires Lexed(ts) && i < |ts| && until == RCURLY
    ensures r.Ok? ==> i <= r.next < |ts|
    decreases |ts| - i, 7
  {
    hide FieldAt, Lexed;
    if ts[i].kind == until || ts[i].kind == EOF then Ok(Members([], false), i)
    else
      match FieldAt(ts, i)
      case Fail => Fail
      case Ok(c, j) =>
        if ts[j].kind == until then Ok(Members([c], false), j)
        else if ts[j].kind != COMMA then Fail
        else
          NotLast(ts, j);
          match FieldList(ts, j + 1, until)
          case Fail => Fail
          case Ok(l, k) =>
            Ok(Members([c] + l.members, l.members == [] || l.comma), k)
  }

  // { "." identifier } after the fragments names.
  function Fragments(ts: seq<Sym>, i: nat): (r: Read<seq<string>>)
    requires Lexed(ts) && i < |ts|
    ensures r.Ok? ==> i < r.next < |ts| && r.val != []
    decreases |ts| - i
  {
    if ts[i].kind != IDENT then Fail
    else if ts[i + 1].kind != DOT then Ok([ts[i].lit], i + 1)
    else
      match Fragments(ts, i + 2)
      case Fail => Fail
      case Ok(names, j) =>
        Ok([ts[i].lit] + names, j)
  }

  datatype Header = Header(names: seq<string>, tag: Option<string>)

  // BlockName = identifier { "." identifier } [ string ]
  function BlockName(ts: seq<Sym>, i: nat): (r: Read<Header>)
    requires Lexed(ts) && i < |ts|
    ensures r.Ok? ==> i < r.next < |ts| && r.val.names != []
  {
    hide Fragments, LabelOk, Lexed;
    match Fragments(ts, i)
    case Fail => Fail
    case Ok(names, j) =>
      NotLast(ts, j);
      if ts[j].kind == ASSIGN || ts[j].kind == LCURLY then Ok(Header(names, None), j)
      else if ts[j].kind == STRING && LabelOk(ts[j].lit) then
        Ok(Header(names, Some(ts[j].lit)), j + 1)
      else Fail
  }

  // Statement = Attribute | Block
  function Statement(ts: seq<Sym>, i: nat): (r: Read<CStmt>)
    requires Lexed(ts) && i < |ts|
    ensures r.Ok? ==> i < r.next < |ts|
    decreases |ts| - i, 8
  {
    match BlockName(ts, i)
    case Fail => Fail
    case Ok(h, j) => if ts[j].kind == ASSIGN then AttributeTail(ts, j, h) else BlockTail(ts, j, h)
  }

  // Attribute = identifier "=" Expression, from the sign.
  function AttributeTail(ts: seq<Sym>, j: nat, h: Header): (r: Read<CStmt>)
    requires Lexed(ts) && j < |ts| && ts[j].kind == ASSIGN
    ensures r.Ok? ==> j < r.next < |ts|
  {
    if |h.names| != 1 || h.tag.Some? then Fail
    else
      match Expression(ts, j + 1)
      case Fail => Fail
      case Ok(c, k) => Ok(CAttribute(h.names[0], c), k)
  }

  // Block = BlockName "{" Body "}", from the bracket.
  function BlockTail(ts: seq<Sym>, j: nat, h: Header): (r: Read<CStmt>)
    requires Lexed(ts) && j < |ts|
    ensures r.Ok? ==> j < r.next < |ts|
    decreases |ts| - j, 7
  {
    hide Body, Lexed;
    NotLast(ts, j);
    if ts[j].kind != LCURLY then Fail
    else
      match Body(ts, j + 1, RCURLY)
      case Fail => Fail
      case Ok(b, k) =>
        NotLast(ts, k);
        if ts[k].kind != RCURLY then Fail else
        Ok(CBlock(h.names, h.tag, b.members, b.comma), k + 1)
  }

  // Body = [ Statement { terminator Statement } ], with a last terminator allowed.
  function Body(ts: seq<Sym>, i: nat, until: Kind): (r: Read<Stmts>)
    requires Lexed(ts) && i < |ts| && (until == RCURLY || until == EOF)
    ensures r.Ok? ==> i <= r.next < |ts|
    decreases |ts| - i, 9
  {
    hide Statement, Lexed;
    if ts[i].kind == until || ts[i].kind == EOF then Ok(Members([], false), i)
    else
      match Statement(ts, i)
      case Fail => Fail
      case Ok(s, j) =>
        if ts[j].kind == until then Ok(Members([s], false), j)
        else if ts[j].kind != TERMINATOR then Fail
        else
          NotLast(ts, j);
          match Body(ts, j + 1, until)
          case Fail => Fail
          case Ok(l, k) =>
            Ok(Members([s] + l.members, l.members == [] || l.comma), k)
  }

  // File = Body
  function File(ts: seq<Sym>): (r: Read<Stmts>)
    requires Lexed(ts)
  {
    Body(ts, 0, EOF)
  }
}
