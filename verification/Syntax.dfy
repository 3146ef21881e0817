// The syntax trees of package ast, and the concrete syntax behind them.
module Syntax {
  import opened Tokens

  datatype Pos = NoPos | PosAt(off: nat)

  datatype Token = Token(sym: Sym, pos: Pos)

  datatype Option<+T> = None | Some(value: T)

  // ---- ast.go ----

  datatype Expr =
    | Literal(kind: Kind, text: string, valuePos: Pos)
    | Identifier(name: string, namePos: Pos)
    | Array(elements: seq<Expr>, lbrackPos: Pos, rbrackPos: Pos)
    | Object(fields: seq<Field>, lcurlyPos: Pos, rcurlyPos: Pos)
    | Access(value: Expr, name: string, namePos: Pos)
    | Index(value: Expr, index: Expr, lbrackPos: Pos, rbrackPos: Pos)
    | Call(value: Expr, args: seq<Expr>, lparenPos: Pos, rparenPos: Pos)
    | Unary(op: Kind, opPos: Pos, operand: Expr)
    | Binary(op: Kind, opPos: Pos, left: Expr, right: Expr)
    | Paren(inner: Expr, lparenPos: Pos, rparenPos: Pos)

  datatype Field = Field(name: string, namePos: Pos, quoted: bool, value: Expr)

  datatype Stmt =
    | Attribute(name: string, namePos: Pos, value: Expr)
    | Block(names: seq<string>, namePos: Pos, tag: string, tagPos: Pos, body: seq<Stmt>,
            lcurlyPos: Pos, rcurlyPos: Pos)

  // ---- concrete syntax: one tree for every accepted token sequence ----

  // comma says whether a comma follows the last member of the list.
  datatype Cst =
    | CLit(sym: Sym)
    | CName(name: string)
    | CArray(elems: seq<Cst>, comma: bool)
    | CObject(fields: seq<CField>, comma: bool)
    | CAccess(value: Cst, name: string)
    | CIndex(value: Cst, index: Cst)
    | CCall(value: Cst, elems: seq<Cst>, comma: bool)
    | CUnary(op: Kind, operand: Cst)
    | CBinary(op: Kind, left: Cst, right: Cst)
    | CParen(inner: Cst)

  datatype CField = CField(key: Sym, value: Cst)

  // tag is the text of a label; term says whether a terminator follows the
  // last statement.
  datatype CStmt =
    | CAttribute(name: string, value: Cst)
    | CBlock(names: seq<string>, tag: Option<string>, body: seq<CStmt>, term: bool)

  // ---- the tokens of a concrete tree ----

  function Unparse(c: Cst): (ts: seq<Sym>)
    ensures |ts| > 0
    decreases c, 0
  {
    match c
    case CLit(sym) => [sym]
    case CName(name) => [Sym(IDENT, name)]
    case CArray(elems, comma) => [Op(LBRACK)] + UnparseList(elems, comma) + [Op(RBRACK)]
    case CObject(fields, comma) => [Op(LCURLY)] + UnparseFields(fields, comma) + [Op(RCURLY)]
    case CAccess(value, name) => Unparse(value) + [Op(DOT), Sym(IDENT, name)]
    case CIndex(value, index) => Unparse(value) + [Op(LBRACK)] + Unparse(index) + [Op(RBRACK)]
    case CCall(value, args, comma) => Unparse(value) + [Op(LPAREN)] + UnparseList(args, comma) + [Op(RPAREN)]
    case CUnary(op, operand) => [Op(op)] + Unparse(operand)
    case CBinary(op, left, right) => Unparse(left) + [Op(op)] + Unparse(right)
    case CParen(inner) => [Op(LPAREN)] + Unparse(inner) + [Op(RPAREN)]
  }

  // The members of a list with commas between them, and after the last if comma.
  function UnparseList(cs: seq<Cst>, comma: bool): seq<Sym>
    decreases cs, 1
  {
    if cs == [] then (if comma then [Op(COMMA)] else [])
    else if |cs| == 1 then Unparse(cs[0]) + (if comma then [Op(COMMA)] else [])
    else Unparse(cs[0]) + [Op(COMMA)] + UnparseList(cs[1..], comma)
  }

  function UnparseField(f: CField): seq<Sym>
    decreases f, 0
  {
    [f.key, Op(ASSIGN)] + Unparse(f.value)
  }

  function UnparseFields(fs: seq<CField>, comma: bool): seq<Sym>
    decreases fs, 1
  {
    if fs == [] then (if comma then [Op(COMMA)] else [])
    else if |fs| == 1 then UnparseField(fs[0]) + (if comma then [Op(COMMA)] else [])
    else UnparseField(fs[0]) + [Op(COMMA)] + UnparseFields(fs[1..], comma)
  }

  function UnparseNames(names: seq<string>): seq<Sym> {
    if names == [] then []
    else if |names| == 1 then [Sym(IDENT, names[0])]
    else [Sym(IDENT, names[0]), Op(DOT)] + UnparseNames(names[1..])
  }

  function UnparseTag(tag: Option<string>): seq<Sym> {
    match tag
    case None => []
    case Some(text) => [Sym(STRING, text)]
  }

  function UnparseStmt(s: CStmt): (ts: seq<Sym>)
    decreases s, 0
  {
    match s
    case CAttribute(name, value) => [Sym(IDENT, name), Op(ASSIGN)] + Unparse(value)
    case CBlock(names, tag, body, term) =>
      UnparseNames(names) + UnparseTag(tag) + [Op(LCURLY)] + UnparseBody(body, term) + [Op(RCURLY)]
  }

  function UnparseBody(ss: seq<CStmt>, term: bool): seq<Sym>
    decreases ss, 1
  {
    if ss == [] then (if term then [Op(TERMINATOR)] else [])
    else if |ss| == 1 then UnparseStmt(ss[0]) + (if term then [Op(TERMINATOR)] else [])
    else UnparseStmt(ss[0]) + [Op(TERMINATOR)] + UnparseBody(ss[1..], term)
  }

  // ---- which concrete trees the documented grammar has ----

  // How tightly a tree binds: the precedence of its operator, 7 for a unary
  // operator, 8 for anything else.
  function Level(c: Cst): nat {
    match c
    case CBinary(op, _, _) => BinaryPrecedence(op)
    case CUnary(_, _) => 7
    case _ => 8
  }

  // Operators nest as the grammar has them: binary operators to the left,
  // except ^, which takes a unary operand on its left and nests to the right.
  predicate Shaped(c: Cst)
    decreases c, 0
  {
    match c
    case CLit(sym) => IsLiteral(sym.kind)
    case CName(_) => true
    case CArray(elems, _) => forall i :: 0 <= i < |elems| ==> Shaped(elems[i])
    case CObject(fields, _) => forall i :: 0 <= i < |fields| ==> ShapedField(fields[i])
    case CAccess(value, _) => Level(value) == 8 && Shaped(value)
    case CIndex(value, index) => Level(value) == 8 && Shaped(value) && Shaped(index)
    case CCall(value, args, _) =>
      Level(value) == 8 && Shaped(value) && forall i :: 0 <= i < |args| ==> Shaped(args[i])
    case CUnary(op, operand) => IsUnaryOp(op) && Level(operand) >= 7 && Shaped(operand)
    case CBinary(op, left, right) =>
      && BinaryPrecedence(op) > 0 && Shaped(left) && Shaped(right)
      && (if op.POW? then Level(left) >= 7 && Level(right) >= 6
          else Level(left) >= BinaryPrecedence(op) && Level(right) > BinaryPrecedence(op))
    case CParen(inner) => Shaped(inner)
  }

  predicate ShapedField(f: CField)
    decreases f, 0
  {
    (f.key.kind.STRING? || f.key.kind.IDENT?) && Shaped(f.value)
  }

  // A comma follows a member, never an opening bracket.
  predicate CommasOk(c: Cst)
    decreases c, 0
  {
    match c
    case CLit(_) | CName(_) => true
    case CArray(elems, comma) =>
      (comma ==> elems != []) && forall i :: 0 <= i < |elems| ==> CommasOk(elems[i])
    case CObject(fields, comma) =>
      (comma ==> fields != []) && forall i :: 0 <= i < |fields| ==> CommasOk(fields[i].value)
    case CAccess(value, _) => CommasOk(value)
    case CIndex(value, index) => CommasOk(value) && CommasOk(index)
    case CCall(value, args, comma) =>
      CommasOk(value) && (comma ==> args != []) && forall i :: 0 <= i < |args| ==> CommasOk(args[i])
    case CUnary(_, operand) => CommasOk(operand)
    case CBinary(_, left, right) => CommasOk(left) && CommasOk(right)
    case CParen(inner) => CommasOk(inner)
  }

  // A label is an identifier in double quotes, or at most two bytes long.
  predicate LabelOk(text: string) {
    |text| >= 1 && text[0] == '"' && (|text| > 2 ==> IsIdentifier(text[1..|text| - 1]))
  }

  predicate ShapedStmt(s: CStmt)
    decreases s, 0
  {
    match s
    case CAttribute(_, value) => Shaped(value)
    case CBlock(names, tag, body, term) =>
      && names != [] && (tag.Some? ==> LabelOk(tag.value))
      && (term ==> body != []) && forall i :: 0 <= i < |body| ==> ShapedStmt(body[i])
  }

  predicate StmtCommasOk(s: CStmt)
    decreases s, 0
  {
    match s
    case CAttribute(_, value) => CommasOk(value)
    case CBlock(_, _, body, _) => forall i :: 0 <= i < |body| ==> StmtCommasOk(body[i])
  }
}
