// printer.go without comments: what is written is buffered whitespace and text,
// and how the text written so far reads when it is scanned again.
module Printers {
  import opened Tokens
  import opened Syntax

  datatype Whitespace = Blank | VTab | Newline | Formfeed | Indent | Unindent

  // A piece of the output: a whitespace character, the tabs of an indentation,
  // or text, known by the symbols it is meant as.
  datatype Piece = Gap(ws: Whitespace) | Tabs(n: nat) | Word(syms: seq<Sym>)

  const MAX_WHITESPACE := 16

  function SymText(sym: Sym): string {
    if HasText(sym.kind) then sym.lit else Text(sym.kind)
  }

  function WordText(syms: seq<Sym>): string {
    if syms == [] then "" else WordText(syms[..|syms| - 1]) + SymText(syms[|syms| - 1])
  }

  // Kinds after which the scanner turns the end of a line into a terminator.
  predicate EndsStatement(k: Kind) {
    k.IDENT? || IsLiteral(k) || k.RCURLY? || k.RPAREN? || k.RBRACK?
  }

  // Scanning a token of kind k stops where the character c follows.
  predicate Stops(k: Kind, c: char) {
    match k
    case IDENT | BOOL | NULL => !IsLetter(c) && !IsDigit(c)
    case NUMBER => !IsDecimal(c) && c != '.' && c != 'e' && c != 'E'
    case FLOAT => !IsDecimal(c) && c != 'e' && c != 'E'
    case NOT | ASSIGN | LT | GT => c != '='
    case DIV => c != '/' && c != '*'
    case DOT => !IsDecimal(c)
    case _ => true
  }

  // sym has text that can stand right after a token of kind last, or after a gap.
  predicate MayFollow(last: Option<Kind>, sym: Sym) {
    |SymText(sym)| > 0 && (last.Some? ==> Stops(last.value, SymText(sym)[0]))
  }

  // How the output reads: the tokens, terminators included; whether the end of
  // a line would be a terminator; the token that ends right here, if any; and
  // whether no two tokens run together.
  datatype Reading = Reading(toks: seq<Sym>, ends: bool, last: Option<Kind>, clean: bool)

  const NOTHING := Reading([], false, None, true)

  function ReadSym(r: Reading, sym: Sym): Reading {
    Reading(r.toks + [sym], EndsStatement(sym.kind), Some(sym.kind), r.clean && MayFollow(r.last, sym))
  }

  function ReadSyms(r: Reading, syms: seq<Sym>): Reading {
    if syms == [] then r else ReadSym(ReadSyms(r, syms[..|syms| - 1]), syms[|syms| - 1])
  }

  function ReadSpace(r: Reading, ws: Whitespace): Reading {
    match ws
    case Blank | VTab => r.(last := None)
    case Newline | Formfeed => Reading(if r.ends then r.toks + [Op(TERMINATOR)] else r.toks, false, None, r.clean)
    case Indent | Unindent => r
  }

  function ReadSpaces(r: Reading, wss: seq<Whitespace>): Reading {
    if wss == [] then r else ReadSpace(ReadSpaces(r, wss[..|wss| - 1]), wss[|wss| - 1])
  }

  function ReadPiece(r: Reading, p: Piece): Reading {
    match p
    case Gap(ws) => ReadSpace(r, ws)
    case Tabs(n) => if n > 0 then r.(last := None) else r
    case Word(syms) => ReadSyms(r, syms)
  }

  function Read(ps: seq<Piece>): Reading {
    if ps == [] then NOTHING else ReadPiece(Read(ps[..|ps| - 1]), ps[|ps| - 1])
  }

  lemma ReadSnoc(ps: seq<Piece>, p: Piece)
    ensures Read(ps + [p]) == ReadPiece(Read(ps), p)
  {
    assert (ps + [p])[..|ps|] == ps;
  }

  // The indentation after wss, and that it never falls below 0.
  function Shift(ws: Whitespace): int {
    if ws.Indent? then 1 else if ws.Unindent? then -1 else 0
  }

  function Depth(indent: int, wss: seq<Whitespace>): int {
    if wss == [] then indent else Depth(indent, wss[..|wss| - 1]) + Shift(wss[|wss| - 1])
  }

  predicate Indented(indent: int, wss: seq<Whitespace>) {
    Depth(indent, wss) >= 0 && (wss != [] ==> Indented(indent, wss[..|wss| - 1]))
  }

  lemma {:induction false} FirstSpace(r: Reading, indent: int, wss: seq<Whitespace>)
    requires wss != [] && Indented(indent, wss)
    ensures ReadSpaces(r, wss) == ReadSpaces(ReadSpace(r, wss[0]), wss[1..])
    ensures indent >= 0 && indent + Shift(wss[0]) >= 0 && Indented(indent + Shift(wss[0]), wss[1..])
    ensures Depth(indent, wss) == Depth(indent + Shift(wss[0]), wss[1..])
    decreases |wss|
  {
    var front := wss[..|wss| - 1];
    if |wss| > 1 {
      assert wss[1..][..|wss[1..]| - 1] == front[1..];
      FirstSpace(r, indent, front);
    } else {
      assert wss[1..] == [] && front == [];
    }
  }

  predicate MayCombine(prev: Kind, next: char) {
    match prev
    case NUMBER => next == '.'
    case DIV => next == '*'
    case _ => false
  }

  // Text that does not leave the printer at the start of a line.
  predicate Solid(text: string) {
    |text| > 0 && text[|text| - 1] !in {'\n', '\U{000C}'}
  }

  // The column after text written at column.
  function ColumnAfter(column: nat, text: string): (c: nat)
    requires column >= 1
    ensures c >= 1 && (Solid(text) ==> c > 1)
  {
    if text == [] then column
    else if text[|text| - 1] in {'\n', '\U{000C}'} then 1
    else ColumnAfter(column, text[..|text| - 1]) + 1
  }

  class Printer {
    var output: seq<Piece>
    var indent: int
    var whitespace: seq<Whitespace>
    var lastTok: Kind
    var column: nat

    // Whitespace is pending only right after whitespace was written, so no
    // write meets a full buffer or finds whitespace where tokens may combine.
    ghost predicate Valid()
      reads this
    {
      && |whitespace| <= MAX_WHITESPACE && Indented(indent, whitespace)
      && (whitespace != [] ==> lastTok == LITERAL)
      && column >= 1 && (column == 1 ==> Read(output).last.None?)
    }

    // How everything written reads, pending whitespace included.
    ghost function Said(): Reading
      reads this
    {
      ReadSpaces(Read(output), whitespace)
    }

    ghost function Level(): int
      reads this
    {
      Depth(indent, whitespace)
    }

    constructor ()
      ensures Valid() && Said() == NOTHING && Level() == 0 && whitespace == [] && lastTok == ILLEGAL
    {
      output, indent, whitespace, lastTok, column := [], 0, [], ILLEGAL, 1;
    }

    method WriteIndent()
      requires Valid() && column == 1 && indent >= 0
      modifies this`output, this`column
      ensures Read(output) == Read(old(output)) && column >= 1 && (column == 1 ==> Read(output).last.None?)
    {
      hide Read, ReadSpaces, Indented, Depth;
      ReadSnoc(output, Tabs(indent));
      output := output + [Tabs(indent)];
      column := column + indent;
    }

    method WriteByte(ws: Whitespace)
      requires Valid() && indent >= 0 && !ws.Indent? && !ws.Unindent?
      modifies this`output, this`column
      ensures Read(output) == ReadSpace(Read(old(output)), ws)
      ensures column >= 1 && (column == 1 ==> Read(output).last.None?)
    {
      hide Read, ReadSpaces, Indented, Depth;
      if column == 1 {
        WriteIndent();
      }
      ReadSnoc(output, Gap(ws));
      output := output + [Gap(ws)];
      column := if ws.Newline? || ws.Formfeed? then 1 else column + 1;
    }

    // The pending whitespace moves to the output.
    method WriteWhitespace()
      requires Valid()
      modifies this`output, this`indent, this`whitespace, this`column
      ensures Valid() && whitespace == [] && Said() == old(Said()) && Level() == old(Level())
    {
      hide Read, ReadSpaces, Depth, Indented;
      while whitespace != []
        invariant Valid() && lastTok == old(lastTok) && Said() == old(Said()) && Level() == old(Level())
        decreases |whitespace|
      {
        var ws := whitespace[0];
        FirstSpace(Read(output), indent, whitespace);
        IndentedStart(indent, whitespace);
        match ws {
          case Indent => indent := indent + 1;
          case Unindent => indent := indent - 1;
          case _ => WriteByte(ws);
        }
        whitespace := whitespace[1..];
      }
    }

    // Whitespace is kept until text follows, or the buffer is full.
    method WriteSpace(ws: Whitespace)
      requires Valid() && (ws.Unindent? ==> Level() > 0)
      modifies this
      ensures Valid() && Said() == ReadSpace(old(Said()), ws) && Level() == old(Level()) + Shift(ws)
    {
      hide Read, ReadSpaces, ReadSpace, Depth, Indented, Shift;
      if |whitespace| == MAX_WHITESPACE {
        WriteWhitespace();
      }
      OneMore(Read(output), indent, whitespace, ws);
      whitespace := whitespace + [ws];
      lastTok := LITERAL;
    }

    method WriteString(syms: seq<Sym>)
      requires Valid() && whitespace == [] && Solid(WordText(syms))
      modifies this`output, this`column
      ensures Valid() && Said() == ReadSyms(old(Said()), syms) && Level() == old(Level())
    {
      hide Read, ReadSyms, Indented, Depth, WordText, Solid;
      IndentedStart(indent, whitespace);
      if column == 1 {
        WriteIndent();
      }
      ReadSnoc(output, Word(syms));
      output := output + [Word(syms)];
      column := ColumnAfter(column, WordText(syms));
    }

    // An identifier or a literal.
    method WriteWord(syms: seq<Sym>, tok: Kind)
      requires Valid() && Solid(WordText(syms))
      modifies this
      ensures Valid() && Said() == ReadSyms(old(Said()), syms) && Level() == old(Level())
      ensures whitespace == [] && lastTok == tok
    {
      WriteWhitespace();
      lastTok := tok;
      WriteString(syms);
    }

    // A token with fixed text; a space goes before it where it would become one
    // token with the last.
    method WriteToken(tok: Kind)
      requires Valid() && !HasText(tok) && Text(tok) != ""
      modifies this
      ensures Valid() && whitespace == [] && lastTok == tok && Level() == old(Level())
      ensures var r := if MayCombine(old(lastTok), Text(tok)[0]) then ReadSpace(old(Said()), Blank) else old(Said());
              Said() == ReadSym(r, Op(tok))
    {
      hide Text, HasText, EndsStatement, MayFollow, Read, ReadSpaces, Indented, Depth;
      if whitespace == [] {
        OneMore(Read(output), indent, [], Blank);
        NoSpace(Read(output), indent);
      }
      OneWord(tok);
      if MayCombine(lastTok, Text(tok)[0]) {
        assert whitespace == [];
        whitespace := [Blank];
        lastTok := LITERAL;
      }
      WriteWhitespace();
      lastTok := tok;
      WriteString([Op(tok)]);
    }
  }

  lemma OneMore(r: Reading, indent: int, wss: seq<Whitespace>, ws: Whitespace)
    requires Indented(indent, wss) && (ws.Unindent? ==> Depth(indent, wss) > 0)
    ensures Indented(indent, wss + [ws]) && Depth(indent, wss + [ws]) == Depth(indent, wss) + Shift(ws)
    ensures ReadSpaces(r, wss + [ws]) == ReadSpace(ReadSpaces(r, wss), ws)
  {
    assert (wss + [ws])[..|wss|] == wss;
  }

  lemma NoSpace(r: Reading, indent: int)
    ensures ReadSpaces(r, []) == r && Depth(indent, []) == indent && (Indented(indent, []) <==> indent >= 0)
  {
  }

  lemma OneWord(tok: Kind)
    requires !HasText(tok) && Text(tok) != ""
    ensures WordText([Op(tok)]) == Text(tok) && Solid(Text(tok))
    ensures forall r :: ReadSyms(r, [Op(tok)]) == ReadSym(r, Op(tok))
  {
    assert [Op(tok)][..0] == [];
  }

  lemma {:induction false} IndentedStart(indent: int, wss: seq<Whitespace>)
    requires Indented(indent, wss)
    ensures indent >= 0
    decreases |wss|
  {
    if wss != [] {
      IndentedStart(indent, wss[..|wss| - 1]);
    }
  }
}
