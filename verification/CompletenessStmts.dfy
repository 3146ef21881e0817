// Completeness for statements, bodies and files.
module CompletenessStmts {
  import opened Tokens
  import opened Syntax
  import opened Grammar
  import opened Steps
  import opened Completeness

  lemma {:induction false} FragmentsComplete(ts: seq<Sym>, i: nat, names: seq<string>)
    requires Lexed(ts) && names != [] && At(ts, i, UnparseNames(names))
    requires ts[i + |UnparseNames(names)|].kind != DOT
    ensures Fragments(ts, i) == Ok(names, i + |UnparseNames(names)|)
    decreases names
  {
    hide At, Fragments, Lexed;
    AtFirst(ts, i, UnparseNames(names));
    if |names| == 1 {
      assert names == [names[0]];
      LastFragment(ts, i);
    } else {
      var rest := names[1..];
      assert UnparseNames(names) == [Sym(IDENT, names[0])] + [Op(DOT)] + UnparseNames(rest);
      AtOp(ts, i, [Sym(IDENT, names[0])], Op(DOT), UnparseNames(rest));
      FragmentsComplete(ts, i + 2, rest);
      MoreFragments(ts, i, rest, i + 2 + |UnparseNames(rest)|);
      assert names == [names[0]] + rest;
    }
  }

  lemma LastFragment(ts: seq<Sym>, i: nat)
    requires Lexed(ts) && i + 1 < |ts| && ts[i].kind == IDENT && ts[i + 1].kind != DOT
    ensures Fragments(ts, i) == Ok([ts[i].lit], i + 1)
  {
  }

  lemma MoreFragments(ts: seq<Sym>, i: nat, rest: seq<string>, j: nat)
    requires Lexed(ts) && i + 2 < |ts| && ts[i].kind == IDENT && ts[i + 1].kind == DOT
            && Fragments(ts, i + 2) == Ok(rest, j)
    ensures Fragments(ts, i) == Ok([ts[i].lit] + rest, j)
  {
  }

  lemma NamesFirst(names: seq<string>)
    requires names != []
    ensures UnparseNames(names) != [] && UnparseNames(names)[0].kind == IDENT
  {
  }

  // The header of a block, up to its opening bracket.
  lemma HeaderComplete(ts: seq<Sym>, i: nat, names: seq<string>, tag: Option<string>, rest: seq<Sym>)
    requires Lexed(ts) && names != [] && (tag.Some? ==> LabelOk(tag.value))
    requires At(ts, i, UnparseNames(names) + UnparseTag(tag) + [Op(LCURLY)] + rest)
    ensures BlockName(ts, i) == Ok(Header(names, tag), i + |UnparseNames(names)| + |UnparseTag(tag)|)
    ensures var j := i + |UnparseNames(names)| + |UnparseTag(tag)|;
            j + 1 + |rest| < |ts| && ts[j] == Op(LCURLY) && At(ts, j + 1, rest)
  {
    hide At, UnparseNames, Fragments, Lexed;
    var a := UnparseNames(names);
    match tag
    case None =>
      assert a + UnparseTag(tag) + [Op(LCURLY)] + rest == a + [Op(LCURLY)] + rest;
      AtOp(ts, i, a, Op(LCURLY), rest);
      FragmentsComplete(ts, i, names);
    case Some(text) =>
      assert a + UnparseTag(tag) + [Op(LCURLY)] + rest == a + [Sym(STRING, text)] + ([Op(LCURLY)] + rest);
      AtOp(ts, i, a, Sym(STRING, text), [Op(LCURLY)] + rest);
      assert [Op(LCURLY)] + rest == [] + [Op(LCURLY)] + rest;
      AtOp(ts, i + |a| + 1, [], Op(LCURLY), rest);
      FragmentsComplete(ts, i, names);
  }

  lemma StmtFirst(s: CStmt)
    requires ShapedStmt(s)
    ensures UnparseStmt(s) != [] && UnparseStmt(s)[0].kind == IDENT
  {
    if s.CBlock? {
      NamesFirst(s.names);
    }
  }

  lemma {:induction false} StatementComplete(ts: seq<Sym>, i: nat, s: CStmt)
    requires Lexed(ts) && ShapedStmt(s) && At(ts, i, UnparseStmt(s))
    requires Ends(ts[i + |UnparseStmt(s)|].kind)
    ensures Statement(ts, i) == if StmtCommasOk(s) then Ok(s, i + |UnparseStmt(s)|) else Fail
    decreases s, 1
  {
    if s.CAttribute? {
      AttributeComplete(ts, i, s);
    } else {
      BlockComplete(ts, i, s);
    }
  }

  lemma AttributeComplete(ts: seq<Sym>, i: nat, s: CStmt)
    requires Lexed(ts) && ShapedStmt(s) && At(ts, i, UnparseStmt(s)) && s.CAttribute?
    requires Ends(ts[i + |UnparseStmt(s)|].kind)
    ensures Statement(ts, i) == if StmtCommasOk(s) then Ok(s, i + |UnparseStmt(s)|) else Fail
  {
    hide At, Unparse, Shaped, CommasOk, Expression, Fragments;
    var name := [Sym(IDENT, s.name)];
    assert UnparseStmt(s) == name + [Op(ASSIGN)] + Unparse(s.value);
    AtOp(ts, i, name, Op(ASSIGN), Unparse(s.value));
    assert UnparseNames([s.name]) == name;
    FragmentsComplete(ts, i, [s.name]);
    ExpressionComplete(ts, i + 2, s.value);
  }

  predicate AllStmtsShaped(ss: seq<CStmt>) {
    forall k :: 0 <= k < |ss| ==> ShapedStmt(ss[k])
  }

  predicate AllStmtCommasOk(ss: seq<CStmt>) {
    forall k :: 0 <= k < |ss| ==> StmtCommasOk(ss[k])
  }

  lemma BlockParts(s: CStmt)
    requires s.CBlock? && ShapedStmt(s)
    ensures s.names != [] && (s.tag.Some? ==> LabelOk(s.tag.value)) && (s.term ==> s.body != [])
    ensures AllStmtsShaped(s.body) && (StmtCommasOk(s) <==> AllStmtCommasOk(s.body))
    ensures UnparseStmt(s) ==
            UnparseNames(s.names) + UnparseTag(s.tag) + [Op(LCURLY)] + (UnparseBody(s.body, s.term) + [Op(RCURLY)])
  {
  }

  lemma {:induction false} BlockComplete(ts: seq<Sym>, i: nat, s: CStmt)
    requires Lexed(ts) && ShapedStmt(s) && At(ts, i, UnparseStmt(s)) && s.CBlock?
    ensures Statement(ts, i) == if StmtCommasOk(s) then Ok(s, i + |UnparseStmt(s)|) else Fail
    decreases s, 0
  {
    hide At, UnparseStmt, UnparseBody, UnparseNames, UnparseTag, ShapedStmt, StmtCommasOk, AllStmtsShaped,
         AllStmtCommasOk, BlockName, Body, Lexed, LabelOk;
    BlockParts(s);
    var body := UnparseBody(s.body, s.term);
    HeaderComplete(ts, i, s.names, s.tag, body + [Op(RCURLY)]);
    var j := i + |UnparseNames(s.names)| + |UnparseTag(s.tag)|;
    assert body + [Op(RCURLY)] == body + [Op(RCURLY)] + [];
    AtOp(ts, j + 1, body, Op(RCURLY), []);
    BodyComplete(ts, j + 1, s.body, s.term, RCURLY);
  }

  lemma BodyParts(ss: seq<CStmt>, term: bool)
    requires ss != [] && AllStmtsShaped(ss)
    ensures ShapedStmt(ss[0]) && AllStmtsShaped(ss[1..]) && [ss[0]] + ss[1..] == ss
    ensures AllStmtCommasOk(ss) <==> StmtCommasOk(ss[0]) && AllStmtCommasOk(ss[1..])
    ensures |ss| > 1 ==> UnparseBody(ss, term) == UnparseStmt(ss[0]) + [Op(TERMINATOR)] + UnparseBody(ss[1..], term)
    ensures |ss| == 1 ==> UnparseBody(ss, term) == UnparseStmt(ss[0]) + (if term then [Op(TERMINATOR)] else [])
    ensures UnparseBody(ss, term) != [] && UnparseBody(ss, term)[0].kind == IDENT
  {
    StmtFirst(ss[0]);
    if AllStmtCommasOk(ss[1..]) && StmtCommasOk(ss[0]) {
      forall k | 0 <= k < |ss|
        ensures StmtCommasOk(ss[k])
      {
        assert k > 0 ==> ss[k] == ss[1..][k - 1];
      }
    }
  }

  lemma {:induction false} BodyComplete(ts: seq<Sym>, i: nat, ss: seq<CStmt>, term: bool, until: Kind)
    requires Lexed(ts) && At(ts, i, UnparseBody(ss, term)) && (until == RCURLY || until == EOF)
    requires AllStmtsShaped(ss) && (term ==> ss != [])
    requires ts[i + |UnparseBody(ss, term)|].kind == until
    ensures Body(ts, i, until) ==
            if AllStmtCommasOk(ss) then Ok(Members(ss, term), i + |UnparseBody(ss, term)|) else Fail
    decreases ss, 3
  {
    if ss == [] {
    } else if |ss| == 1 {
      BodyOneComplete(ts, i, ss, term, until);
    } else {
      BodyConsComplete(ts, i, ss, term, until);
    }
  }

  lemma {:induction false} BodyOneComplete(ts: seq<Sym>, i: nat, ss: seq<CStmt>, term: bool, until: Kind)
    requires Lexed(ts) && At(ts, i, UnparseBody(ss, term)) && (until == RCURLY || until == EOF)
    requires AllStmtsShaped(ss) && |ss| == 1
    requires ts[i + |UnparseBody(ss, term)|].kind == until
    ensures Body(ts, i, until) ==
            if AllStmtCommasOk(ss) then Ok(Members(ss, term), i + |UnparseBody(ss, term)|) else Fail
    decreases ss, 2
  {
    hide At, UnparseStmt, UnparseBody, ShapedStmt, StmtCommasOk, AllStmtsShaped, AllStmtCommasOk, Statement, Body,
         Lexed;
    var s := ss[0];
    BodyParts(ss, term);
    AtFirst(ts, i, UnparseBody(ss, term));
    if term {
      assert UnparseStmt(s) + [Op(TERMINATOR)] == UnparseStmt(s) + [Op(TERMINATOR)] + [];
      AtOp(ts, i, UnparseStmt(s), Op(TERMINATOR), []);
      BodyEmpty(ts, i + |UnparseStmt(s)| + 1, until);
    } else {
      assert UnparseStmt(s) + [] == UnparseStmt(s);
    }
    StatementComplete(ts, i, s);
    BodyStep(ts, i, until);
    AllNoneOk();
    assert ss == [s] && [s] + [] == [s] && ss[1..] == [];
  }

  lemma AllNoneOk()
    ensures AllStmtCommasOk([])
  {
  }

  lemma {:induction false} BodyConsComplete(ts: seq<Sym>, i: nat, ss: seq<CStmt>, term: bool, until: Kind)
    requires Lexed(ts) && At(ts, i, UnparseBody(ss, term)) && (until == RCURLY || until == EOF)
    requires AllStmtsShaped(ss) && |ss| > 1
    requires ts[i + |UnparseBody(ss, term)|].kind == until
    ensures Body(ts, i, until) ==
            if AllStmtCommasOk(ss) then Ok(Members(ss, term), i + |UnparseBody(ss, term)|) else Fail
    decreases ss, 2
  {
    hide At, UnparseStmt, UnparseBody, ShapedStmt, StmtCommasOk, AllStmtsShaped, AllStmtCommasOk, Statement, Body,
         Lexed;
    var s := ss[0];
    BodyParts(ss, term);
    AtFirst(ts, i, UnparseBody(ss, term));
    AtOp(ts, i, UnparseStmt(s), Op(TERMINATOR), UnparseBody(ss[1..], term));
    StatementComplete(ts, i, s);
    BodyComplete(ts, i + |UnparseStmt(s)| + 1, ss[1..], term, until);
    BodyStep(ts, i, until);
  }

  // The tokens of a file.
  function FileTokens(ss: seq<CStmt>, term: bool): seq<Sym> {
    UnparseBody(ss, term) + [Op(EOF)]
  }

  // The parser reads the tokens of any tree of the grammar as that tree, and
  // rejects them if a comma stands after an opening bracket.
  lemma FileComplete(ss: seq<CStmt>, term: bool)
    requires Lexed(FileTokens(ss, term)) && AllStmtsShaped(ss) && (term ==> ss != [])
    ensures File(FileTokens(ss, term)) ==
            if AllStmtCommasOk(ss) then Ok(Members(ss, term), |UnparseBody(ss, term)|) else Fail
  {
    var ts := FileTokens(ss, term);
    assert ts[0..|UnparseBody(ss, term)|] == UnparseBody(ss, term);
    hide Body;
    BodyComplete(ts, 0, ss, term, EOF);
  }
}
