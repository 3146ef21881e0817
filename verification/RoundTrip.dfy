// Parser and printer undo each other, up to what the printer normalises.
module RoundTrips {
  import opened Tokens
  import opened Syntax
  import opened Lines
  import opened Grammar
  import opened Trees
  import opened Quoting
  import opened Lexemes
  import opened Canonical

  // ---- what the scanner promises of a token's text ----

  predicate ProperSym(sym: Sym) {
    sym.kind == IDENT || IsLiteral(sym.kind) ==> Lexeme(sym)
  }

  predicate AllProper(ts: seq<Sym>) {
    forall s :: s in ts ==> ProperSym(s)
  }

  lemma ProperParts(a: seq<Sym>, b: seq<Sym>)
    ensures AllProper(a + b) <==> AllProper(a) && AllProper(b)
  {
    assert forall s :: s in a + b <==> s in a || s in b;
  }

  // ---- trees without positions, and as they are printed ----

  function Plain(e: Expr): Expr
    decreases e, 0
  {
    match e
    case Literal(kind, text, _) => Literal(kind, text, NoPos)
    case Identifier(name, _) => Identifier(name, NoPos)
    case Array(elements, _, _) => Array(PlainList(elements), NoPos, NoPos)
    case Object(fields, _, _) => Object(PlainFields(fields), NoPos, NoPos)
    case Access(value, name, _) => Access(Plain(value), name, NoPos)
    case Index(value, index, _, _) => Index(Plain(value), Plain(index), NoPos, NoPos)
    case Call(value, args, _, _) => Call(Plain(value), PlainList(args), NoPos, NoPos)
    case Unary(op, _, operand) => Unary(op, NoPos, Plain(operand))
    case Binary(op, _, left, right) => Binary(op, NoPos, Plain(left), Plain(right))
    case Paren(inner, _, _) => Paren(Plain(inner), NoPos, NoPos)
  }

  function PlainList(es: seq<Expr>): (r: seq<Expr>)
    decreases es, 1
  {
    if es == [] then [] else [Plain(es[0])] + PlainList(es[1..])
  }

  function PlainFields(fs: seq<Field>): seq<Field>
    decreases fs, 1
  {
    if fs == [] then []
    else [Field(fs[0].name, NoPos, fs[0].quoted, Plain(fs[0].value))] + PlainFields(fs[1..])
  }

  function PlainStmt(s: Stmt): Stmt
    decreases s, 0
  {
    match s
    case Attribute(name, _, value) => Attribute(name, NoPos, Plain(value))
    case Block(names, _, tag, _, body, _, _) => Block(names, NoPos, tag, NoPos, PlainBody(body), NoPos, NoPos)
  }

  function PlainBody(ss: seq<Stmt>): seq<Stmt>
    decreases ss, 1
  {
    if ss == [] then [] else [PlainStmt(ss[0])] + PlainBody(ss[1..])
  }

  // The names of quoted fields are quoted once more, over the raw text between
  // their quotes.
  function Requote(e: Expr): Expr
    decreases e, 0
  {
    match e
    case Literal(_, _, _) | Identifier(_, _) => e
    case Array(elements, l, r) => Array(RequoteList(elements), l, r)
    case Object(fields, l, r) => Object(RequoteFields(fields), l, r)
    case Access(value, name, p) => Access(Requote(value), name, p)
    case Index(value, index, l, r) => Index(Requote(value), Requote(index), l, r)
    case Call(value, args, l, r) => Call(Requote(value), RequoteList(args), l, r)
    case Unary(op, p, operand) => Unary(op, p, Requote(operand))
    case Binary(op, p, left, right) => Binary(op, p, Requote(left), Requote(right))
    case Paren(inner, l, r) => Paren(Requote(inner), l, r)
  }

  function RequoteList(es: seq<Expr>): seq<Expr>
    decreases es, 1
  {
    if es == [] then [] else [Requote(es[0])] + RequoteList(es[1..])
  }

  function RequoteName(f: Field): string {
    if f.quoted then Escapes(f.name) else f.name
  }

  function RequoteFields(fs: seq<Field>): seq<Field>
    decreases fs, 1
  {
    if fs == [] then []
    else [Field(RequoteName(fs[0]), fs[0].namePos, fs[0].quoted, Requote(fs[0].value))] + RequoteFields(fs[1..])
  }

  function RequoteStmt(s: Stmt): Stmt
    decreases s, 0
  {
    match s
    case Attribute(name, p, value) => Attribute(name, p, Requote(value))
    case Block(names, np, tag, tp, body, l, r) => Block(names, np, tag, tp, RequoteBody(body), l, r)
  }

  function RequoteBody(ss: seq<Stmt>): seq<Stmt>
    decreases ss, 1
  {
    if ss == [] then [] else [RequoteStmt(ss[0])] + RequoteBody(ss[1..])
  }

  // ---- the two shapes that do not come back ----

  // Every quoted field name stands for itself between quotes.
  predicate NamesVerbatim(e: Expr) {
    match e
    case Literal(_, _, _) | Identifier(_, _) => true
    case Array(elements, _, _) => forall i :: 0 <= i < |elements| ==> NamesVerbatim(elements[i])
    case Object(fields, _, _) =>
      forall i :: 0 <= i < |fields| ==> FieldVerbatim(fields[i]) && NamesVerbatim(fields[i].value)
    case Access(value, _, _) => NamesVerbatim(value)
    case Index(value, index, _, _) => NamesVerbatim(value) && NamesVerbatim(index)
    case Call(value, args, _, _) => NamesVerbatim(value) && forall i :: 0 <= i < |args| ==> NamesVerbatim(args[i])
    case Unary(_, _, operand) => NamesVerbatim(operand)
    case Binary(_, _, left, right) => NamesVerbatim(left) && NamesVerbatim(right)
    case Paren(inner, _, _) => NamesVerbatim(inner)
  }

  predicate FieldVerbatim(f: Field) {
    f.quoted ==> forall i :: 0 <= i < |f.name| ==> Verbatim(f.name[i])
  }

  predicate StmtVerbatim(s: Stmt) {
    match s
    case Attribute(_, _, value) => NamesVerbatim(value)
    case Block(_, _, _, _, body, _, _) => forall i :: 0 <= i < |body| ==> StmtVerbatim(body[i])
  }

  // No call without arguments has its parentheses on different lines.
  predicate CallsClosed(e: Expr, lines: seq<nat>) {
    match e
    case Literal(_, _, _) | Identifier(_, _) => true
    case Array(elements, _, _) => forall i :: 0 <= i < |elements| ==> CallsClosed(elements[i], lines)
    case Object(fields, _, _) => forall i :: 0 <= i < |fields| ==> CallsClosed(fields[i].value, lines)
    case Access(value, _, _) => CallsClosed(value, lines)
    case Index(value, index, _, _) => CallsClosed(value, lines) && CallsClosed(index, lines)
    case Call(value, args, l, r) =>
      && CallsClosed(value, lines) && (args == [] ==> !DifferentLines(lines, l, r))
      && forall i :: 0 <= i < |args| ==> CallsClosed(args[i], lines)
    case Unary(_, _, operand) => CallsClosed(operand, lines)
    case Binary(_, _, left, right) => CallsClosed(left, lines) && CallsClosed(right, lines)
    case Paren(inner, _, _) => CallsClosed(inner, lines)
  }

  predicate StmtCallsClosed(s: Stmt, lines: seq<nat>) {
    match s
    case Attribute(_, _, value) => CallsClosed(value, lines)
    case Block(_, _, _, _, body, _, _) => forall i :: 0 <= i < |body| ==> StmtCallsClosed(body[i], lines)
  }

  // ---- quoting ----

  lemma {:induction false} RequoteSame(e: Expr)
    ensures Plain(Requote(e)) == Plain(e) <==> NamesVerbatim(e)
    decreases e, 0
  {
    match e
    case Literal(_, _, _) =>
    case Identifier(_, _) =>
    case Array(elements, _, _) => RequoteListSame(elements);
    case Object(fields, _, _) => RequoteFieldsSame(fields);
    case Access(value, _, _) => RequoteSame(value);
    case Index(value, index, _, _) => RequoteSame(value); RequoteSame(index);
    case Call(value, args, _, _) => RequoteSame(value); RequoteListSame(args);
    case Unary(_, _, operand) => RequoteSame(operand);
    case Binary(_, _, left, right) => RequoteSame(left); RequoteSame(right);
    case Paren(inner, _, _) => RequoteSame(inner);
  }

  lemma {:induction false} RequoteListSame(es: seq<Expr>)
    ensures PlainList(RequoteList(es)) == PlainList(es) <==> forall i :: 0 <= i < |es| ==> NamesVerbatim(es[i])
    decreases es, 1
  {
    hide Requote, NamesVerbatim, Plain;
    if es != [] {
      RequoteSame(es[0]);
      RequoteListSame(es[1..]);
      var all := [Requote(es[0])] + RequoteList(es[1..]);
      assert all[1..] == RequoteList(es[1..]);
      Same(Plain(Requote(es[0])), PlainList(RequoteList(es[1..])), Plain(es[0]), PlainList(es[1..]));
      assert forall i :: 1 <= i < |es| ==> es[i] == es[1..][i - 1];
      assert forall i :: 0 <= i < |es[1..]| ==> es[1..][i] == es[i + 1];
    }
  }

  lemma Same<T>(x: T, s: seq<T>, y: T, t: seq<T>)
    ensures [x] + s == [y] + t <==> x == y && s == t
  {
    if [x] + s == [y] + t {
      assert ([x] + s)[0] == x && ([x] + s)[1..] == s && ([y] + t)[1..] == t;
    }
  }

  lemma {:induction false} RequoteFieldsSame(fs: seq<Field>)
    ensures PlainFields(RequoteFields(fs)) == PlainFields(fs) <==>
            forall i :: 0 <= i < |fs| ==> FieldVerbatim(fs[i]) && NamesVerbatim(fs[i].value)
    decreases fs, 1
  {
    hide Requote, NamesVerbatim, Escapes, Verbatim, Plain;
    if fs != [] {
      RequoteSame(fs[0].value);
      QuoteKeeps(fs[0].name);
      RequoteFieldsSame(fs[1..]);
      var f := Field(RequoteName(fs[0]), fs[0].namePos, fs[0].quoted, Requote(fs[0].value));
      var all := [f] + RequoteFields(fs[1..]);
      assert all[1..] == RequoteFields(fs[1..]);
      Same(Field(f.name, NoPos, f.quoted, Plain(f.value)), PlainFields(RequoteFields(fs[1..])),
           Field(fs[0].name, NoPos, fs[0].quoted, Plain(fs[0].value)), PlainFields(fs[1..]));
      assert forall i :: 1 <= i < |fs| ==> fs[i] == fs[1..][i - 1];
      assert forall i :: 0 <= i < |fs[1..]| ==> fs[1..][i] == fs[i + 1];
    }
  }

  lemma {:induction false} RequoteStmtSame(s: Stmt)
    ensures PlainStmt(RequoteStmt(s)) == PlainStmt(s) <==> StmtVerbatim(s)
    decreases s, 0
  {
    match s
    case Attribute(_, _, value) => RequoteSame(value);
    case Block(_, _, _, _, body, _, _) => RequoteBodySame(body);
  }

  // Printing keeps the field names of a file exactly if no quoted field name needs an escape.
  lemma {:induction false} RequoteBodySame(ss: seq<Stmt>)
    ensures PlainBody(RequoteBody(ss)) == PlainBody(ss) <==> forall i :: 0 <= i < |ss| ==> StmtVerbatim(ss[i])
    decreases ss, 1
  {
    hide RequoteStmt, StmtVerbatim, PlainStmt;
    if ss != [] {
      RequoteStmtSame(ss[0]);
      RequoteBodySame(ss[1..]);
      var all := [RequoteStmt(ss[0])] + RequoteBody(ss[1..]);
      assert all[1..] == RequoteBody(ss[1..]);
      Same(PlainStmt(RequoteStmt(ss[0])), PlainBody(RequoteBody(ss[1..])), PlainStmt(ss[0]), PlainBody(ss[1..]));
      assert forall i :: 1 <= i < |ss| ==> ss[i] == ss[1..][i - 1];
      assert forall i :: 0 <= i < |ss[1..]| ==> ss[1..][i] == ss[i + 1];
    }
  }

  // ---- trailing commas: the printer adds one after no member only there ----

  lemma {:induction false} CanonCommas(e: Expr, lines: seq<nat>)
    ensures CommasOk(Canon(e, lines)) <==> CallsClosed(e, lines)
    decreases e, 1
  {
    hide DifferentLines, FieldKey, LineOf, CanonList, CanonFields, EndOf;
    match e
    case Literal(_, _, _) =>
    case Identifier(_, _) =>
    case Array(elements, _, _) => CanonListCommas(elements, lines);
    case Object(fields, _, _) => CanonFieldsCommas(fields, lines);
    case Access(value, _, _) => CanonCommas(value, lines);
    case Index(value, index, _, _) => CanonCommas(value, lines); CanonCommas(index, lines);
    case Call(_, _, _, _) => CanonCallCommas(e, lines);
    case Unary(_, _, operand) => CanonCommas(operand, lines);
    case Binary(_, _, left, right) => CanonCommas(left, lines); CanonCommas(right, lines);
    case Paren(inner, _, _) => CanonCommas(inner, lines);
  }

  lemma {:induction false} CanonCallCommas(e: Expr, lines: seq<nat>)
    requires e.Call?
    ensures CommasOk(Canon(e, lines)) <==> CallsClosed(e, lines)
    decreases e, 0
  {
    hide DifferentLines, LineOf, CanonList, EndOf;
    CanonCommas(e.value, lines);
    CanonListCommas(e.args, lines);
  }

  lemma {:induction false} CanonListCommas(es: seq<Expr>, lines: seq<nat>)
    ensures forall i :: 0 <= i < |es| ==> (CommasOk(CanonList(es, lines)[i]) <==> CallsClosed(es[i], lines))
    decreases es, 1
  {
    hide CommasOk, CallsClosed, CanonList;
    forall i | 0 <= i < |es|
      ensures CommasOk(CanonList(es, lines)[i]) <==> CallsClosed(es[i], lines)
    {
      CanonCommas(es[i], lines);
    }
  }

  lemma {:induction false} CanonFieldsCommas(fs: seq<Field>, lines: seq<nat>)
    ensures forall i :: 0 <= i < |fs| ==>
            (CommasOk(CanonFields(fs, lines)[i].value) <==> CallsClosed(fs[i].value, lines))
    decreases fs, 1
  {
    hide CommasOk, CallsClosed, CanonFields;
    forall i | 0 <= i < |fs|
      ensures CommasOk(CanonFields(fs, lines)[i].value) <==> CallsClosed(fs[i].value, lines)
    {
      CanonCommas(fs[i].value, lines);
    }
  }

  lemma {:induction false} CanonStmtCommas(s: Stmt, lines: seq<nat>)
    ensures StmtCommasOk(CanonStmt(s, lines)) <==> StmtCallsClosed(s, lines)
    decreases s, 0
  {
    match s
    case Attribute(_, _, value) => CanonCommas(value, lines);
    case Block(_, _, _, _, body, _, _) => CanonBodyCommas(body, lines);
  }

  lemma {:induction false} CanonBodyCommas(ss: seq<Stmt>, lines: seq<nat>)
    ensures forall i :: 0 <= i < |ss| ==> (StmtCommasOk(CanonBody(ss, lines)[i]) <==> StmtCallsClosed(ss[i], lines))
    decreases ss, 1
  {
    hide StmtCommasOk, StmtCallsClosed, CanonBody;
    forall i | 0 <= i < |ss|
      ensures StmtCommasOk(CanonBody(ss, lines)[i]) <==> StmtCallsClosed(ss[i], lines)
    {
      CanonStmtCommas(ss[i], lines);
    }
  }

  // ---- what is read back from the canonical tree ----

  lemma {:induction false} BuildCanon(e: Expr, lines: seq<nat>, toks: seq<Token>, i: nat)
    requires Walkable(e)
    ensures Plain(Build(Canon(e, lines), toks, i)) == Plain(Requote(e))
    decreases e, 1
  {
    hide DifferentLines, LineOf, Unparse, UnparseList, UnparseFields, IsIdentifier, Lexeme, EndOf, FieldKey,
         ProperField, CanonList, CanonFields, BuildList, BuildFields, PlainList, PlainFields, RequoteList,
         RequoteFields;
    match e
    case Literal(_, _, _) =>
    case Identifier(_, _) =>
    case Array(elements, _, _) => BuildCanonList(elements, lines, toks, i + 1);
    case Object(fields, _, _) => BuildCanonFields(fields, lines, toks, i + 1);
    case Access(value, _, _) => BuildCanon(value, lines, toks, i);
    case Index(_, _, _, _) => BuildCanonIndex(e, lines, toks, i);
    case Call(_, _, _, _) => BuildCanonCall(e, lines, toks, i);
    case Unary(op, _, operand) => BuildCanon(operand, lines, toks, i + 1);
    case Binary(_, _, _, _) => BuildCanonBinary(e, lines, toks, i);
    case Paren(inner, _, _) => BuildCanon(inner, lines, toks, i + 1);
  }

  lemma WalkableParts(e: Expr)
    requires Walkable(e)
    ensures e.Index? ==> Walkable(e.value) && Walkable(e.index)
    ensures e.Binary? ==> Walkable(e.left) && Walkable(e.right)
  {
  }

  lemma {:induction false} BuildCanonIndex(e: Expr, lines: seq<nat>, toks: seq<Token>, i: nat)
    requires e.Index? && Walkable(e)
    ensures Plain(Build(Canon(e, lines), toks, i)) == Plain(Requote(e))
    decreases e, 0
  {
    hide Unparse, PlainList, PlainFields, RequoteList, RequoteFields, BuildList, BuildFields, CanonList,
         CanonFields, Walkable;
    WalkableParts(e);
    BuildCanon(e.value, lines, toks, i);
    BuildCanon(e.index, lines, toks, i + |Unparse(Canon(e.value, lines))| + 1);
  }

  lemma {:induction false} BuildCanonCall(e: Expr, lines: seq<nat>, toks: seq<Token>, i: nat)
    requires e.Call? && Walkable(e)
    ensures Plain(Build(Canon(e, lines), toks, i)) == Plain(Requote(e))
    decreases e, 0
  {
    hide DifferentLines, Unparse, UnparseList, CanonList, BuildList, PlainList, RequoteList, EndOf;
    BuildCanon(e.value, lines, toks, i);
    BuildCanonList(e.args, lines, toks, i + |Unparse(Canon(e.value, lines))| + 1);
  }

  lemma {:induction false} BuildCanonBinary(e: Expr, lines: seq<nat>, toks: seq<Token>, i: nat)
    requires e.Binary? && Walkable(e)
    ensures Plain(Build(Canon(e, lines), toks, i)) == Plain(Requote(e))
    decreases e, 0
  {
    hide Unparse, PlainList, PlainFields, RequoteList, RequoteFields, BuildList, BuildFields, CanonList,
         CanonFields, Walkable;
    WalkableParts(e);
    BuildCanon(e.left, lines, toks, i);
    BuildCanon(e.right, lines, toks, i + |Unparse(Canon(e.left, lines))| + 1);
  }

  lemma {:induction false} BuildCanonList(es: seq<Expr>, lines: seq<nat>, toks: seq<Token>, i: nat)
    requires forall k :: 0 <= k < |es| ==> Walkable(es[k])
    ensures PlainList(BuildList(CanonList(es, lines), toks, i)) == PlainList(RequoteList(es))
    decreases es, 1
  {
    hide Build, Canon, Unparse, Walkable, Requote, Plain;
    if es != [] {
      var c, cs := Canon(es[0], lines), CanonList(es[1..], lines);
      assert CanonList(es, lines)[1..] == cs;
      var j := i + |Unparse(c)| + 1;
      BuildCanon(es[0], lines, toks, i);
      BuildCanonList(es[1..], lines, toks, j);
      PlainCons(Build(c, toks, i), BuildList(cs, toks, j));
      PlainCons(Requote(es[0]), RequoteList(es[1..]));
    }
  }

  lemma PlainCons(e: Expr, es: seq<Expr>)
    ensures PlainList([e] + es) == [Plain(e)] + PlainList(es)
  {
    assert ([e] + es)[1..] == es;
  }

  lemma PlainFieldsCons(f: Field, fs: seq<Field>)
    ensures PlainFields([f] + fs) == [Field(f.name, NoPos, f.quoted, Plain(f.value))] + PlainFields(fs)
  {
    assert ([f] + fs)[1..] == fs;
  }

  lemma PlainBodyCons(s: Stmt, ss: seq<Stmt>)
    ensures PlainBody([s] + ss) == [PlainStmt(s)] + PlainBody(ss)
  {
    assert ([s] + ss)[1..] == ss;
  }

  // The name of a field comes back quoted once more.
  lemma FieldComesBack(f: Field)
    requires ProperField(f)
    ensures FieldName(FieldKey(f)) == RequoteName(f) && (FieldQuoted(FieldKey(f)) <==> f.quoted)
  {
    if f.quoted {
      assert Quote(f.name)[1..|Quote(f.name)| - 1] == Escapes(f.name);
    }
  }

  lemma {:induction false} BuildCanonFields(fs: seq<Field>, lines: seq<nat>, toks: seq<Token>, i: nat)
    requires forall k :: 0 <= k < |fs| ==> Walkable(fs[k].value) && ProperField(fs[k])
    ensures PlainFields(BuildFields(CanonFields(fs, lines), toks, i)) == PlainFields(RequoteFields(fs))
    decreases fs, 1
  {
    hide Build, Canon, UnparseField, Walkable, Requote, Plain, ProperField, FieldKey, FieldName, FieldQuoted,
         RequoteName;
    if fs != [] {
      var c := CField(FieldKey(fs[0]), Canon(fs[0].value, lines));
      var cs := CanonFields(fs[1..], lines);
      assert CanonFields(fs, lines)[1..] == cs;
      var j := i + |UnparseField(c)| + 1;
      FieldComesBack(fs[0]);
      BuildCanon(fs[0].value, lines, toks, i + 2);
      BuildCanonFields(fs[1..], lines, toks, j);
      PlainFieldsCons(BuildField(c, toks, i), BuildFields(cs, toks, j));
      PlainFieldsCons(Field(RequoteName(fs[0]), fs[0].namePos, fs[0].quoted, Requote(fs[0].value)),
          RequoteFields(fs[1..]));
    }
  }

  // A label that is an identifier needs no escape.
  lemma LabelComesBack(tag: string)
    requires IsIdentifier(tag)
    ensures Quote(tag) == "\"" + tag + "\"" && LabelName(Some(Quote(tag))) == tag && LabelOk(Quote(tag))
  {
    QuoteKeeps(tag);
    assert Escapes(tag) == tag;
    assert Quote(tag)[1..|Quote(tag)| - 1] == tag;
  }

  lemma {:induction false} BuildCanonStmt(s: Stmt, lines: seq<nat>, toks: seq<Token>, i: nat)
    requires WalkableStmt(s)
    ensures PlainStmt(BuildStmt(CanonStmt(s, lines), toks, i)) == PlainStmt(RequoteStmt(s))
    decreases s, 0
  {
    hide Canon, CanonBody, Build, BuildBody, Plain, PlainBody, Requote, RequoteBody, UnparseNames, UnparseBody,
         UnparseTag, Quote, LabelName, IsIdentifier;
    match s
    case Attribute(_, _, value) => BuildCanon(value, lines, toks, i + 2);
    case Block(names, _, tag, _, body, _, _) =>
      var t := if tag == "" then None else Some(Quote(tag));
      BuildCanonBody(body, lines, toks, i + |UnparseNames(names)| + |UnparseTag(t)| + 1);
      if tag == "" {
        NoLabel();
      } else {
        LabelComesBack(tag);
      }
  }

  lemma NoLabel()
    ensures LabelName(None) == ""
  {
  }

  lemma {:induction false} BuildCanonBody(ss: seq<Stmt>, lines: seq<nat>, toks: seq<Token>, i: nat)
    requires forall k :: 0 <= k < |ss| ==> WalkableStmt(ss[k])
    ensures PlainBody(BuildBody(CanonBody(ss, lines), toks, i)) == PlainBody(RequoteBody(ss))
    decreases ss, 1
  {
    hide BuildStmt, CanonStmt, UnparseStmt, WalkableStmt, RequoteStmt, PlainStmt;
    if ss != [] {
      var c, cs := CanonStmt(ss[0], lines), CanonBody(ss[1..], lines);
      assert CanonBody(ss, lines)[1..] == cs;
      var j := i + |UnparseStmt(c)| + 1;
      BuildCanonStmt(ss[0], lines, toks, i);
      BuildCanonBody(ss[1..], lines, toks, j);
      PlainBodyCons(BuildStmt(c, toks, i), BuildBody(cs, toks, j));
      PlainBodyCons(RequoteStmt(ss[0]), RequoteBody(ss[1..]));
    }
  }
}
