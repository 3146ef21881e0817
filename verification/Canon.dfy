// What the walker of walker.go makes of a syntax tree: the concrete tree whose
// tokens it writes, with a trailing comma where a list ends on another line.
module Canonical {
  import opened Tokens
  import opened Syntax
  import opened Lines
  import opened Quoting
  import opened Lexemes

  // ---- ast.go: the first and the last character of a node ----

  function StartOf(e: Expr): Pos {
    match e
    case Literal(_, _, valuePos) => valuePos
    case Identifier(_, namePos) => namePos
    case Array(_, lbrackPos, _) => lbrackPos
    case Object(_, lcurlyPos, _) => lcurlyPos
    case Access(value, _, _) => StartOf(value)
    case Index(value, _, _, _) => StartOf(value)
    case Call(value, _, _, _) => StartOf(value)
    case Unary(_, opPos, _) => opPos
    case Binary(_, _, left, _) => StartOf(left)
    case Paren(_, lparenPos, _) => lparenPos
  }

  function TextEnd(p: Pos, text: string): Pos {
    if p.NoPos? || text == "" then p else PosAt(p.off + |text| - 1)
  }

  function EndOf(e: Expr): Pos {
    match e
    case Literal(_, text, valuePos) => TextEnd(valuePos, text)
    case Identifier(name, namePos) => TextEnd(namePos, name)
    case Array(_, _, rbrackPos) => rbrackPos
    case Object(_, _, rcurlyPos) => rcurlyPos
    case Access(_, name, namePos) => TextEnd(namePos, name)
    case Index(_, _, _, rbrackPos) => rbrackPos
    case Call(_, _, _, rparenPos) => rparenPos
    case Unary(_, _, operand) => EndOf(operand)
    case Binary(_, _, _, right) => EndOf(right)
    case Paren(_, _, rparenPos) => rparenPos
  }

  function StmtStart(s: Stmt): Pos {
    s.namePos
  }

  function StmtEnd(s: Stmt): Pos {
    match s
    case Attribute(_, _, value) => EndOf(value)
    case Block(_, _, _, _, _, _, rcurlyPos) => rcurlyPos
  }

  predicate DifferentLines(lines: seq<nat>, a: Pos, b: Pos) {
    LineOf(lines, a) != LineOf(lines, b)
  }

  // ---- trees the walker is given ----

  // Trees the parser can return: names are identifiers, operators operators.
  // The name of an unquoted field is an identifier or an empty string literal.
  predicate Walkable(e: Expr) {
    match e
    case Literal(kind, text, _) => IsLiteral(kind) && Lexeme(Sym(kind, text))
    case Identifier(name, _) => IsIdentifier(name)
    case Array(elements, _, _) => forall i :: 0 <= i < |elements| ==> Walkable(elements[i])
    case Object(fields, _, _) =>
      forall i :: 0 <= i < |fields| ==> Walkable(fields[i].value) && ProperField(fields[i])
    case Access(value, name, _) => Walkable(value) && IsIdentifier(name)
    case Index(value, index, _, _) => Walkable(value) && Walkable(index)
    case Call(value, args, _, _) => Walkable(value) && forall i :: 0 <= i < |args| ==> Walkable(args[i])
    case Unary(op, _, operand) => IsUnaryOp(op) && Walkable(operand)
    case Binary(op, _, left, right) => BinaryPrecedence(op) > 0 && Walkable(left) && Walkable(right)
    case Paren(inner, _, _) => Walkable(inner)
  }

  predicate ProperField(f: Field) {
    if f.quoted then f.name != "" else IsIdentifier(f.name) || EmptyLiteral(f.name)
  }

  predicate EmptyLiteral(text: string) {
    text == "\"\"" || text == "``"
  }

  predicate WalkableStmt(s: Stmt) {
    match s
    case Attribute(name, _, value) => IsIdentifier(name) && Walkable(value)
    case Block(names, _, tag, _, body, _, _) =>
      && names != [] && (forall i :: 0 <= i < |names| ==> IsIdentifier(names[i]))
      && (tag != "" ==> IsIdentifier(tag))
      && forall i :: 0 <= i < |body| ==> WalkableStmt(body[i])
  }

  // ---- the concrete tree written ----

  // The token a field name is printed as.
  function FieldKey(f: Field): Sym {
    if f.quoted then Sym(STRING, Quote(f.name))
    else Sym(if EmptyLiteral(f.name) then STRING else IDENT, f.name)
  }

  // A call has no test for missing arguments.
  function Canon(e: Expr, lines: seq<nat>): Cst
    decreases e, 0
  {
    match e
    case Literal(kind, text, _) => CLit(Sym(kind, text))
    case Identifier(name, _) => CName(name)
    case Array(elements, lbrackPos, rbrackPos) =>
      CArray(CanonList(elements, lines),
             elements != [] && DifferentLines(lines, ListEnd(elements, lbrackPos), rbrackPos))
    case Object(fields, lcurlyPos, rcurlyPos) =>
      CObject(CanonFields(fields, lines), fields != [] && DifferentLines(lines, NamesEnd(fields, lcurlyPos), rcurlyPos))
    case Access(value, name, _) => CAccess(Canon(value, lines), name)
    case Index(value, index, _, _) => CIndex(Canon(value, lines), Canon(index, lines))
    case Call(value, args, lparenPos, rparenPos) =>
      CCall(Canon(value, lines), CanonList(args, lines), DifferentLines(lines, ListEnd(args, lparenPos), rparenPos))
    case Unary(op, _, operand) => CUnary(op, Canon(operand, lines))
    case Binary(op, _, left, right) => CBinary(op, Canon(left, lines), Canon(right, lines))
    case Paren(inner, _, _) => CParen(Canon(inner, lines))
  }

  function CanonList(es: seq<Expr>, lines: seq<nat>): (cs: seq<Cst>)
    ensures |cs| == |es| && forall i :: 0 <= i < |es| ==> cs[i] == Canon(es[i], lines)
    decreases es, 1
  {
    if es == [] then [] else [Canon(es[0], lines)] + CanonList(es[1..], lines)
  }

  function CanonFields(fs: seq<Field>, lines: seq<nat>): (cs: seq<CField>)
    ensures |cs| == |fs|
    ensures forall i :: 0 <= i < |fs| ==> cs[i] == CField(FieldKey(fs[i]), Canon(fs[i].value, lines))
    decreases fs, 1
  {
    if fs == [] then [] else [CField(FieldKey(fs[0]), Canon(fs[0].value, lines))] + CanonFields(fs[1..], lines)
  }

  // Where the last member of a list ends, or the opening bracket.
  function ListEnd(es: seq<Expr>, open: Pos): Pos {
    if es == [] then open else EndOf(es[|es| - 1])
  }

  // Where the name of the last field ends: of the name, not of the value.
  function NamesEnd(fs: seq<Field>, open: Pos): Pos {
    if fs == [] then open else TextEnd(fs[|fs| - 1].namePos, fs[|fs| - 1].name)
  }

  // An empty label is not printed.
  function CanonStmt(s: Stmt, lines: seq<nat>): CStmt
    decreases s, 0
  {
    match s
    case Attribute(name, _, value) => CAttribute(name, Canon(value, lines))
    case Block(names, _, tag, _, body, _, _) =>
      CBlock(names, if tag == "" then None else Some(Quote(tag)), CanonBody(body, lines), body != [])
  }

  function CanonBody(ss: seq<Stmt>, lines: seq<nat>): (cs: seq<CStmt>)
    ensures |cs| == |ss| && forall i :: 0 <= i < |ss| ==> cs[i] == CanonStmt(ss[i], lines)
    decreases ss, 1
  {
    if ss == [] then [] else [CanonStmt(ss[0], lines)] + CanonBody(ss[1..], lines)
  }
}
