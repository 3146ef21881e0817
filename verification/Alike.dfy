// Printing what was parsed: the tokens written are those of the tree read, up
// to trailing commas and terminators, empty labels, and the quotes of names.
module Likeness {
  import opened Tokens
  import opened Syntax
  import opened Lines
  import opened Grammar
  import opened Trees
  import opened Quoting
  import opened Lexemes
  import opened Canonical
  import opened RoundTrips

  // ---- trees whose tokens have the text the scanner gives them ----

  predicate Lexical(c: Cst) {
    match c
    case CLit(sym) => ProperSym(sym)
    case CName(name) => IsIdentifier(name)
    case CArray(elems, _) => forall i :: 0 <= i < |elems| ==> Lexical(elems[i])
    case CObject(fields, _) => forall i :: 0 <= i < |fields| ==> ProperSym(fields[i].key) && Lexical(fields[i].value)
    case CAccess(value, name) => Lexical(value) && IsIdentifier(name)
    case CIndex(value, index) => Lexical(value) && Lexical(index)
    case CCall(value, args, _) => Lexical(value) && forall i :: 0 <= i < |args| ==> Lexical(args[i])
    case CUnary(_, operand) => Lexical(operand)
    case CBinary(_, left, right) => Lexical(left) && Lexical(right)
    case CParen(inner) => Lexical(inner)
  }

  predicate LexicalStmt(s: CStmt) {
    match s
    case CAttribute(name, value) => IsIdentifier(name) && Lexical(value)
    case CBlock(names, tag, body, _) =>
      && (forall i :: 0 <= i < |names| ==> IsIdentifier(names[i]))
      && (tag.Some? ==> Lexeme(Sym(STRING, tag.value)))
      && forall i :: 0 <= i < |body| ==> LexicalStmt(body[i])
  }

  lemma {:induction false} ProperLexical(c: Cst)
    requires AllProper(Unparse(c))
    ensures Lexical(c)
    decreases c, 0
  {
    hide ProperSym, AllProper;
    match c
    case CLit(sym) => ProperOne(sym);
    case CName(name) => ProperOne(Sym(IDENT, name)); ProperIdentifier(name);
    case CArray(elems, comma) =>
      ProperThree([Op(LBRACK)], UnparseList(elems, comma), [Op(RBRACK)]);
      ProperLexicalList(elems, comma);
    case CObject(fields, comma) =>
      ProperThree([Op(LCURLY)], UnparseFields(fields, comma), [Op(RCURLY)]);
      ProperLexicalFields(fields, comma);
    case CAccess(value, name) =>
      ProperParts(Unparse(value), [Op(DOT), Sym(IDENT, name)]);
      ProperPair(Op(DOT), Sym(IDENT, name));
      ProperIdentifier(name);
      ProperLexical(value);
    case CIndex(value, index) =>
      ProperThree(Unparse(value) + [Op(LBRACK)], Unparse(index), [Op(RBRACK)]);
      ProperParts(Unparse(value), [Op(LBRACK)]);
      ProperLexical(value);
      ProperLexical(index);
    case CCall(value, args, comma) =>
      ProperThree(Unparse(value) + [Op(LPAREN)], UnparseList(args, comma), [Op(RPAREN)]);
      ProperParts(Unparse(value), [Op(LPAREN)]);
      ProperLexical(value);
      ProperLexicalList(args, comma);
    case CUnary(op, operand) => ProperParts([Op(op)], Unparse(operand)); ProperLexical(operand);
    case CBinary(op, left, right) =>
      ProperThree(Unparse(left), [Op(op)], Unparse(right));
      ProperLexical(left);
      ProperLexical(right);
    case CParen(inner) => ProperThree([Op(LPAREN)], Unparse(inner), [Op(RPAREN)]); ProperLexical(inner);
  }

  lemma ProperOne(s: Sym)
    ensures AllProper([s]) <==> ProperSym(s)
  {
    if AllProper([s]) {
      assert s in [s];
    }
  }

  lemma ProperPair(s: Sym, t: Sym)
    ensures AllProper([s, t]) <==> ProperSym(s) && ProperSym(t)
  {
    if AllProper([s, t]) {
      assert s in [s, t] && t in [s, t];
    }
  }

  lemma ProperThree(a: seq<Sym>, b: seq<Sym>, c: seq<Sym>)
    ensures AllProper(a + b + c) <==> AllProper(a) && AllProper(b) && AllProper(c)
  {
    ProperParts(a + b, c);
    ProperParts(a, b);
  }

  lemma ProperIdentifier(name: string)
    ensures ProperSym(Sym(IDENT, name)) <==> IsIdentifier(name)
  {
    hide Lexeme, IsIdentifier;
    if ProperSym(Sym(IDENT, name)) {
      LexemeProper(Sym(IDENT, name));
    } else if IsIdentifier(name) {
      IdentifierLexeme(name);
    }
  }

  lemma {:induction false} ProperLexicalList(cs: seq<Cst>, comma: bool)
    requires AllProper(UnparseList(cs, comma))
    ensures forall i :: 0 <= i < |cs| ==> Lexical(cs[i])
    decreases cs, 1
  {
    hide AllProper, Unparse, Lexical;
    if |cs| == 1 {
      ProperParts(Unparse(cs[0]), if comma then [Op(COMMA)] else []);
      ProperLexical(cs[0]);
    } else if cs != [] {
      ProperThree(Unparse(cs[0]), [Op(COMMA)], UnparseList(cs[1..], comma));
      ProperLexical(cs[0]);
      ProperLexicalList(cs[1..], comma);
      assert forall i :: 1 <= i < |cs| ==> cs[i] == cs[1..][i - 1];
    }
  }

  lemma {:induction false} ProperLexicalField(f: CField)
    requires AllProper(UnparseField(f))
    ensures ProperSym(f.key) && Lexical(f.value)
    decreases f, 0
  {
    hide AllProper, Unparse, ProperSym, Lexical;
    ProperParts([f.key, Op(ASSIGN)], Unparse(f.value));
    ProperPair(f.key, Op(ASSIGN));
    ProperLexical(f.value);
  }

  lemma {:induction false} ProperLexicalFields(fs: seq<CField>, comma: bool)
    requires AllProper(UnparseFields(fs, comma))
    ensures forall i :: 0 <= i < |fs| ==> ProperSym(fs[i].key) && Lexical(fs[i].value)
    decreases fs, 1
  {
    hide AllProper, UnparseField, Lexical, ProperSym;
    if |fs| == 1 {
      ProperParts(UnparseField(fs[0]), if comma then [Op(COMMA)] else []);
      ProperLexicalField(fs[0]);
    } else if fs != [] {
      ProperThree(UnparseField(fs[0]), [Op(COMMA)], UnparseFields(fs[1..], comma));
      ProperLexicalField(fs[0]);
      ProperLexicalFields(fs[1..], comma);
      assert forall i :: 1 <= i < |fs| ==> fs[i] == fs[1..][i - 1];
    }
  }

  lemma {:induction false} ProperNames(names: seq<string>)
    requires AllProper(UnparseNames(names))
    ensures forall i :: 0 <= i < |names| ==> IsIdentifier(names[i])
  {
    hide AllProper, ProperSym, IsIdentifier;
    if |names| == 1 {
      ProperOne(Sym(IDENT, names[0]));
      ProperIdentifier(names[0]);
    } else if names != [] {
      ProperParts([Sym(IDENT, names[0]), Op(DOT)], UnparseNames(names[1..]));
      ProperPair(Sym(IDENT, names[0]), Op(DOT));
      ProperIdentifier(names[0]);
      ProperNames(names[1..]);
      assert forall i :: 1 <= i < |names| ==> names[i] == names[1..][i - 1];
    }
  }

  lemma ProperTag(tag: Option<string>)
    requires AllProper(UnparseTag(tag))
    ensures tag.Some? ==> Lexeme(Sym(STRING, tag.value))
  {
    hide Lexeme, AllProper;
    if tag.Some? {
      ProperOne(Sym(STRING, tag.value));
    }
  }

  lemma {:induction false} ProperLexicalStmt(s: CStmt)
    requires AllProper(UnparseStmt(s))
    ensures LexicalStmt(s)
    decreases s, 0
  {
    hide AllProper, ProperSym, IsIdentifier, Lexeme, Unparse, UnparseBody, UnparseNames, UnparseTag;
    match s
    case CAttribute(name, value) =>
      ProperParts([Sym(IDENT, name), Op(ASSIGN)], Unparse(value));
      ProperPair(Sym(IDENT, name), Op(ASSIGN));
      ProperIdentifier(name);
      ProperLexical(value);
    case CBlock(names, tag, body, term) =>
      ProperThree(UnparseNames(names) + UnparseTag(tag) + [Op(LCURLY)], UnparseBody(body, term), [Op(RCURLY)]);
      ProperThree(UnparseNames(names), UnparseTag(tag), [Op(LCURLY)]);
      ProperNames(names);
      ProperTag(tag);
      ProperLexicalBody(body, term);
  }

  lemma {:induction false} ProperLexicalBody(ss: seq<CStmt>, term: bool)
    requires AllProper(UnparseBody(ss, term))
    ensures forall i :: 0 <= i < |ss| ==> LexicalStmt(ss[i])
    decreases ss, 1
  {
    hide AllProper, UnparseStmt, LexicalStmt;
    if |ss| == 1 {
      ProperParts(UnparseStmt(ss[0]), if term then [Op(TERMINATOR)] else []);
      ProperLexicalStmt(ss[0]);
    } else if ss != [] {
      ProperThree(UnparseStmt(ss[0]), [Op(TERMINATOR)], UnparseBody(ss[1..], term));
      ProperLexicalStmt(ss[0]);
      ProperLexicalBody(ss[1..], term);
      assert forall i :: 1 <= i < |ss| ==> ss[i] == ss[1..][i - 1];
    }
  }

  // ---- equal up to commas, terminators, empty labels and quotes ----

  predicate Alike(c: Cst, d: Cst)
    decreases c, 0
  {
    match c
    case CLit(_) | CName(_) => d == c
    case CArray(elems, _) => d.CArray? && AlikeList(elems, d.elems)
    case CObject(fields, _) => d.CObject? && AlikeFields(fields, d.fields)
    case CAccess(value, name) => d.CAccess? && Alike(value, d.value) && d.name == name
    case CIndex(value, index) => d.CIndex? && Alike(value, d.value) && Alike(index, d.index)
    case CCall(value, args, _) => d.CCall? && Alike(value, d.value) && AlikeList(args, d.elems)
    case CUnary(op, operand) => d.CUnary? && d.op == op && Alike(operand, d.operand)
    case CBinary(op, left, right) => d.CBinary? && d.op == op && Alike(left, d.left) && Alike(right, d.right)
    case CParen(inner) => d.CParen? && Alike(inner, d.inner)
  }

  predicate AlikeList(cs: seq<Cst>, ds: seq<Cst>)
    decreases cs, 1
  {
    if cs == [] then ds == []
    else ds != [] && Alike(cs[0], ds[0]) && AlikeList(cs[1..], ds[1..])
  }

  // A string for a name is printed with its text quoted.
  predicate AlikeKey(k: Sym, l: Sym) {
    l == if FieldQuoted(k) then Sym(STRING, Quote(FieldName(k))) else k
  }

  predicate AlikeField(c: CField, d: CField)
    decreases c, 0
  {
    AlikeKey(c.key, d.key) && Alike(c.value, d.value)
  }

  predicate AlikeFields(cs: seq<CField>, ds: seq<CField>)
    decreases cs, 1
  {
    if cs == [] then ds == []
    else ds != [] && AlikeField(cs[0], ds[0]) && AlikeFields(cs[1..], ds[1..])
  }

  predicate AlikeStmt(c: CStmt, d: CStmt)
    decreases c, 0
  {
    match c
    case CAttribute(name, value) => d.CAttribute? && d.name == name && Alike(value, d.value)
    case CBlock(names, tag, body, _) =>
      && d.CBlock? && d.names == names && AlikeBody(body, d.body)
      && LabelName(d.tag) == LabelName(tag) && (d.tag.Some? <==> LabelName(tag) != "")
  }

  predicate AlikeBody(cs: seq<CStmt>, ds: seq<CStmt>)
    decreases cs, 1
  {
    if cs == [] then ds == []
    else ds != [] && AlikeStmt(cs[0], ds[0]) && AlikeBody(cs[1..], ds[1..])
  }

  lemma {:induction false} CanonAlike(c: Cst, toks: seq<Token>, i: nat, lines: seq<nat>)
    requires Shaped(c) && Lexical(c)
    ensures Alike(c, Canon(Build(c, toks, i), lines)) && Walkable(Build(c, toks, i))
    decreases c, 1
  {
    hide DifferentLines, EndOf, Unparse, UnparseList, UnparseFields, BuildList, BuildFields, CanonList,
         CanonFields, ProperSym, IsIdentifier, Lexeme, FieldKey, ProperField;
    match c
    case CLit(sym) => LiteralLexeme(sym);
    case CName(_) =>
    case CArray(elems, _) => CanonAlikeList(elems, toks, i + 1, lines);
    case CObject(fields, _) => CanonAlikeFields(fields, toks, i + 1, lines);
    case CAccess(value, _) => CanonAlike(value, toks, i, lines);
    case CIndex(_, _) => CanonAlikeIndex(c, toks, i, lines);
    case CCall(_, _, _) => CanonAlikeCall(c, toks, i, lines);
    case CUnary(_, operand) => CanonAlike(operand, toks, i + 1, lines);
    case CBinary(_, _, _) => CanonAlikeBinary(c, toks, i, lines);
    case CParen(inner) => CanonAlike(inner, toks, i + 1, lines);
  }

  lemma {:induction false} CanonAlikeIndex(c: Cst, toks: seq<Token>, i: nat, lines: seq<nat>)
    requires c.CIndex? && Shaped(c) && Lexical(c)
    ensures Alike(c, Canon(Build(c, toks, i), lines)) && Walkable(Build(c, toks, i))
    decreases c, 0
  {
    hide Unparse;
    CanonAlike(c.value, toks, i, lines);
    CanonAlike(c.index, toks, i + |Unparse(c.value)| + 1, lines);
  }

  lemma {:induction false} CanonAlikeCall(c: Cst, toks: seq<Token>, i: nat, lines: seq<nat>)
    requires c.CCall? && Shaped(c) && Lexical(c)
    ensures Alike(c, Canon(Build(c, toks, i), lines)) && Walkable(Build(c, toks, i))
    decreases c, 0
  {
    hide DifferentLines, EndOf, Unparse, UnparseList, BuildList, CanonList;
    CanonAlike(c.value, toks, i, lines);
    CanonAlikeList(c.elems, toks, i + |Unparse(c.value)| + 1, lines);
  }

  lemma {:induction false} CanonAlikeBinary(c: Cst, toks: seq<Token>, i: nat, lines: seq<nat>)
    requires c.CBinary? && Shaped(c) && Lexical(c)
    ensures Alike(c, Canon(Build(c, toks, i), lines)) && Walkable(Build(c, toks, i))
    decreases c, 0
  {
    hide Unparse;
    CanonAlike(c.left, toks, i, lines);
    CanonAlike(c.right, toks, i + |Unparse(c.left)| + 1, lines);
  }

  lemma LiteralLexeme(sym: Sym)
    requires IsLiteral(sym.kind) && ProperSym(sym)
    ensures Lexeme(sym)
  {
  }

  lemma {:induction false} CanonAlikeList(cs: seq<Cst>, toks: seq<Token>, i: nat, lines: seq<nat>)
    requires forall k :: 0 <= k < |cs| ==> Shaped(cs[k]) && Lexical(cs[k])
    ensures AlikeList(cs, CanonList(BuildList(cs, toks, i), lines))
    ensures forall k :: 0 <= k < |BuildList(cs, toks, i)| ==> Walkable(BuildList(cs, toks, i)[k])
    decreases cs, 2
  {
    hide Shaped, Lexical, Build, Canon, Unparse, Alike, Walkable;
    if cs != [] {
      var e, es := Build(cs[0], toks, i), BuildList(cs[1..], toks, i + |Unparse(cs[0])| + 1);
      CanonAlike(cs[0], toks, i, lines);
      CanonAlikeList(cs[1..], toks, i + |Unparse(cs[0])| + 1, lines);
      CanonListCons(e, es, lines);
    }
  }

  lemma CanonListCons(e: Expr, es: seq<Expr>, lines: seq<nat>)
    ensures CanonList([e] + es, lines) == [Canon(e, lines)] + CanonList(es, lines)
    ensures CanonList([e] + es, lines)[1..] == CanonList(es, lines)
  {
    assert ([e] + es)[1..] == es;
  }

  lemma CanonFieldsCons(f: Field, fs: seq<Field>, lines: seq<nat>)
    ensures CanonFields([f] + fs, lines) == [CField(FieldKey(f), Canon(f.value, lines))] + CanonFields(fs, lines)
    ensures CanonFields([f] + fs, lines)[1..] == CanonFields(fs, lines)
  {
    assert ([f] + fs)[1..] == fs;
  }

  lemma CanonBodyCons(s: Stmt, ss: seq<Stmt>, lines: seq<nat>)
    ensures CanonBody([s] + ss, lines) == [CanonStmt(s, lines)] + CanonBody(ss, lines)
    ensures CanonBody([s] + ss, lines)[1..] == CanonBody(ss, lines)
  {
    assert ([s] + ss)[1..] == ss;
  }

  lemma KeyAlike(f: CField, toks: seq<Token>, i: nat)
    requires (f.key.kind.STRING? || f.key.kind.IDENT?) && ProperSym(f.key)
    ensures AlikeKey(f.key, FieldKey(BuildField(f, toks, i))) && ProperField(BuildField(f, toks, i))
  {
    hide Lexeme;
    LexemeProper(f.key);
  }

  lemma {:induction false} CanonAlikeField(c: CField, toks: seq<Token>, i: nat, lines: seq<nat>)
    requires ShapedField(c) && ProperSym(c.key) && Lexical(c.value)
    ensures var f := BuildField(c, toks, i);
            AlikeField(c, CField(FieldKey(f), Canon(f.value, lines))) && Walkable(f.value) && ProperField(f)
    decreases c, 1
  {
    hide ProperSym, ProperField, FieldKey, AlikeKey, FieldName, FieldQuoted, Walkable, Lexical, Build, Canon, Alike;
    KeyAlike(c, toks, i);
    CanonAlike(c.value, toks, i + 2, lines);
  }

  lemma {:induction false} CanonAlikeFields(cs: seq<CField>, toks: seq<Token>, i: nat, lines: seq<nat>)
    requires forall k :: 0 <= k < |cs| ==> ShapedField(cs[k]) && ProperSym(cs[k].key) && Lexical(cs[k].value)
    ensures AlikeFields(cs, CanonFields(BuildFields(cs, toks, i), lines))
    ensures forall k :: 0 <= k < |BuildFields(cs, toks, i)| ==>
              Walkable(BuildFields(cs, toks, i)[k].value) && ProperField(BuildFields(cs, toks, i)[k])
    decreases cs, 2
  {
    hide Shaped, Lexical, BuildField, Canon, UnparseField, AlikeField, Walkable, ProperSym, ProperField, FieldKey;
    if cs != [] {
      var f, fs := BuildField(cs[0], toks, i), BuildFields(cs[1..], toks, i + |UnparseField(cs[0])| + 1);
      CanonAlikeField(cs[0], toks, i, lines);
      CanonAlikeFields(cs[1..], toks, i + |UnparseField(cs[0])| + 1, lines);
      CanonFieldsCons(f, fs, lines);
    }
  }

  lemma {:induction false} CanonAlikeStmt(c: CStmt, toks: seq<Token>, i: nat, lines: seq<nat>)
    requires ShapedStmt(c) && LexicalStmt(c)
    ensures AlikeStmt(c, CanonStmt(BuildStmt(c, toks, i), lines)) && WalkableStmt(BuildStmt(c, toks, i))
    decreases c, 1
  {
    hide Canon, CanonBody, Build, BuildBody, UnparseNames, UnparseBody, UnparseTag, Alike, AlikeBody, Walkable,
         IsIdentifier, LabelName, LabelOk, Quote, Lexical, Shaped;
    match c
    case CAttribute(_, value) => CanonAlike(value, toks, i + 2, lines);
    case CBlock(names, tag, body, _) =>
      LabelAlike(tag);
      CanonAlikeBody(body, toks, i + |UnparseNames(names)| + |UnparseTag(tag)| + 1, lines);
  }

  // A label is empty or an identifier; an empty one is dropped.
  lemma LabelAlike(tag: Option<string>)
    requires tag.Some? ==> LabelOk(tag.value)
    ensures LabelName(None) == ""
    ensures LabelName(tag) != "" ==>
              IsIdentifier(LabelName(tag)) && LabelName(Some(Quote(LabelName(tag)))) == LabelName(tag)
  {
    hide IsIdentifier, Quote;
    if LabelName(tag) != "" {
      LabelComesBack(LabelName(tag));
    }
  }

  lemma {:induction false} CanonAlikeBody(cs: seq<CStmt>, toks: seq<Token>, i: nat, lines: seq<nat>)
    requires forall k :: 0 <= k < |cs| ==> ShapedStmt(cs[k]) && LexicalStmt(cs[k])
    ensures AlikeBody(cs, CanonBody(BuildBody(cs, toks, i), lines))
    ensures forall k :: 0 <= k < |BuildBody(cs, toks, i)| ==> WalkableStmt(BuildBody(cs, toks, i)[k])
    decreases cs, 2
  {
    hide ShapedStmt, LexicalStmt, BuildStmt, CanonStmt, UnparseStmt, AlikeStmt, WalkableStmt;
    if cs != [] {
      var s, ss := BuildStmt(cs[0], toks, i), BuildBody(cs[1..], toks, i + |UnparseStmt(cs[0])| + 1);
      CanonAlikeStmt(cs[0], toks, i, lines);
      CanonAlikeBody(cs[1..], toks, i + |UnparseStmt(cs[0])| + 1, lines);
      CanonBodyCons(s, ss, lines);
    }
  }
}
