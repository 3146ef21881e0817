// token.go: the lexical elements, and what a character can be.
module Tokens {

  datatype Kind =
    | ILLEGAL | LITERAL | EOF | COMMENT
    | IDENT | NUMBER | FLOAT | STRING | BOOL | NULL
    | OR | AND | NOT | ASSIGN
    | EQ | NEQ | LT | LTE | GT | GTE
    | ADD | SUB | MUL | DIV | MOD | POW
    | LCURLY | RCURLY | LPAREN | RPAREN | LBRACK | RBRACK | COMMA | DOT
    | TERMINATOR

  const LOWEST_PRECEDENCE := 0

  function BinaryPrecedence(k: Kind): nat {
    match k
    case OR => 1
    case AND => 2
    case EQ | NEQ | LT | LTE | GT | GTE => 3
    case ADD | SUB => 4
    case MUL | DIV | MOD => 5
    case POW => 6
    case _ => LOWEST_PRECEDENCE
  }

  predicate IsUnaryOp(k: Kind) {
    k.NOT? || k.SUB?
  }

  // The kinds of a literal expression.
  predicate IsLiteral(k: Kind) {
    k.STRING? || k.NUMBER? || k.FLOAT? || k.BOOL? || k.NULL?
  }

  // Kinds whose text is not fixed by the kind.
  predicate HasText(k: Kind) {
    k.IDENT? || IsLiteral(k) || k.ILLEGAL? || k.LITERAL? || k.COMMENT?
  }

  // A token without its position: the kind, and the literal the scanner reports.
  datatype Sym = Sym(kind: Kind, lit: string)

  // The symbol of a kind with fixed text.
  function Op(k: Kind): Sym {
    Sym(k, if k.TERMINATOR? then "\n" else "")
  }

  // What Lookup answers for the text of an identifier.
  function Lookup(ident: string): Kind {
    if ident == "true" || ident == "false" then BOOL
    else if ident == "null" then NULL
    else IDENT
  }

  // The text of a kind that has fixed text.
  function Text(k: Kind): string {
    match k
    case OR => "||"
    case AND => "&&"
    case NOT => "!"
    case ASSIGN => "="
    case EQ => "=="
    case NEQ => "!="
    case LT => "<"
    case LTE => "<="
    case GT => ">"
    case GTE => ">="
    case ADD => "+"
    case SUB => "-"
    case MUL => "*"
    case DIV => "/"
    case MOD => "%"
    case POW => "^"
    case LCURLY => "{"
    case RCURLY => "}"
    case LPAREN => "("
    case RPAREN => ")"
    case LBRACK => "["
    case RBRACK => "]"
    case COMMA => ","
    case DOT => "."
    case _ => ""
  }

  // unicode.IsLetter and unicode.IsDigit above ASCII: any two tables.
  const UNICODE_LETTER: char -> bool
  const UNICODE_DIGIT: char -> bool

  predicate IsDecimal(c: char) {
    '0' <= c <= '9'
  }

  // The byte order mark, a format character.
  const BOM := '\U{FEFF}'

  predicate IsLetter(c: char) {
    'a' <= c <= 'z' || 'A' <= c <= 'Z' || c == '_' || (c >= 128 as char && c != BOM && UNICODE_LETTER(c))
  }

  predicate IsDigit(c: char) {
    IsDecimal(c) || (c >= 128 as char && c != BOM && UNICODE_DIGIT(c))
  }

  // The text of an IDENT token.
  predicate IsIdentifier(s: string) {
    && s != [] && IsLetter(s[0]) && Lookup(s) == IDENT
    && forall i :: 0 <= i < |s| ==> IsLetter(s[i]) || IsDigit(s[i])
  }
}
