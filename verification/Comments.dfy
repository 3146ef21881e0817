// What comments are to the statements around them: the tokens of a file told
// from left to right, without looking ahead. A line comment is nothing, a
// block comment is a newline if it holds one and a blank if it does not.
module Comments {
  import opened Tokens
  import opened Syntax
  import opened Lexis
  import opened Printers

  // ---- where comments end ----

  // A line comment ends before the first newline, or at the end of the file.
  lemma {:induction false} LineEndFirst(s: string, i: nat)
    requires i <= |s|
    ensures var j := LineEnd(s, i);
            i <= j <= |s| && (forall k :: i <= k < j ==> s[k] != '\n') && (j == |s| || s[j] == '\n')
    decreases |s| - i
  {
    if i < |s| && s[i] != '\n' {
      LineEndFirst(s, i + 1);
    }
  }

  // The characters that end a block comment.
  predicate Closes(s: string, k: nat) {
    k + 1 < |s| && s[k] == '*' && s[k + 1] == '/'
  }

  // A block comment ends after the first "*/", and is an error exactly if
  // there is none.
  lemma {:induction false} BlockEndFirst(s: string, i: nat)
    requires i <= |s|
    ensures var r := BlockEnd(s, i);
            && (r.ok ==> r.end >= i + 2 && Closes(s, r.end - 2) && forall k :: i <= k < r.end - 2 ==> !Closes(s, k))
            && (!r.ok ==> r.end == |s| && forall k :: i <= k ==> !Closes(s, k))
    decreases |s| - i
  {
    if i < |s| && !Closes(s, i) {
      BlockEndFirst(s, i + 1);
    }
  }

  // A newline from i on, before j.
  predicate HoldsNewline(s: string, i: nat, j: nat)
    requires j <= |s|
  {
    exists k :: i <= k < j && s[k] == '\n'
  }

  lemma {:induction false} NewlineInBlock(s: string, i: nat)
    requires i <= |s|
    ensures NewlineIn(s, i) <==> HoldsNewline(s, i, BlockEnd(s, i).end)
    decreases |s| - i
  {
    if i < |s| && s[i] != '\n' && !Closes(s, i) {
      NewlineInBlock(s, i + 1);
    }
  }

  // What the scanner can return.
  lemma OnlyEof(s: string, i: nat, ends: bool)
    requires i <= |s|
    ensures var t := TokenAt(s, i, ends);
            && (t.sym.kind == EOF ==> i == |s| && t.sym == Op(EOF) && t.ok)
            && (HasText(t.sym.kind) || t.sym == Op(t.sym.kind))
  {
    hide IdentifierEnd, NumberEnd, StringEnd, CommentEnd, EndsLine;
    if i < |s| {
      OperatorKind(s, i);
    }
  }

  lemma OperatorKind(s: string, i: nat)
    requires i < |s|
    ensures OperatorEnd(s, i).kind != EOF && (OperatorEnd(s, i).kind == ILLEGAL || !HasText(OperatorEnd(s, i).kind))
  {
  }

  // ---- the tokens of a text without its comments ----

  // What a newline is after a token that can end a statement, or another.
  function Newline(ends: bool): seq<Sym> {
    if ends then [Op(TERMINATOR)] else []
  }

  function Uncommented(s: string, i: nat, ends: bool): (ts: seq<Sym>)
    requires i <= |s|
    decreases |s| - i
  {
    if i == |s| then Newline(ends) + [Op(EOF)]
    else if s[i] == '\n' then Newline(ends) + Uncommented(s, i + 1, false)
    else if s[i] == ' ' || s[i] == '\t' || s[i] == '\r' then Uncommented(s, i + 1, ends)
    else if StartsComment(s, i) then
      var j := CommentEnd(s, i + 1).end;
      if s[i + 1] == '*' && HoldsNewline(s, i, j) then Newline(ends) + Uncommented(s, j, false)
      else Uncommented(s, j, ends)
    else
      var t := TokenAt(s, i, false);
      TokenMoves(s, i);
      [t.sym] + Uncommented(s, t.next, EndsStatement(t.sym.kind))
  }

  lemma TokenMoves(s: string, i: nat)
    requires i < |s| && !IsBlank(s[i], false)
    ensures TokenAt(s, i, false).next > i
  {
    OnlyEof(s, i, false);
  }

  lemma {:induction false} UncommentedSkips(s: string, i: nat, ends: bool)
    requires i <= |s|
    ensures Uncommented(s, i, ends) == Uncommented(s, SkipBlanks(s, i, ends), ends)
    decreases |s| - i
  {
    hide TokenAt, CommentEnd, HoldsNewline;
    if i < |s| && IsBlank(s[i], ends) {
      UncommentedSkips(s, i + 1, ends);
      assert [] + Uncommented(s, i + 1, false) == Uncommented(s, i + 1, false);
    }
  }

  // Blanks other than newlines leave what was before them.
  lemma {:induction false} UncommentedOver(s: string, i: nat, ends: bool)
    requires i <= |s|
    ensures Uncommented(s, i, ends) == Uncommented(s, SkipBlanks(s, i, true), ends)
    decreases |s| - i
  {
    hide TokenAt, CommentEnd, HoldsNewline;
    if i < |s| && IsBlank(s[i], true) {
      UncommentedOver(s, i + 1, ends);
    }
  }

  lemma UncommentedComment(s: string, i: nat, ends: bool)
    requires StartsComment(s, i)
    ensures var j := CommentEnd(s, i + 1).end;
            Uncommented(s, i, ends)
            == if s[i + 1] == '*' && HoldsNewline(s, i, j) then Newline(ends) + Uncommented(s, j, false)
               else Uncommented(s, j, ends)
  {
    hide TokenAt, CommentEnd, HoldsNewline;
  }

  // From a newline or the end of the file on.
  lemma UncommentedLineEnd(s: string, i: nat)
    requires i <= |s| && (i < |s| ==> s[i] == '\n')
    ensures Uncommented(s, i, true) == [Op(TERMINATOR)] + Uncommented(s, i, false)
  {
    hide TokenAt, CommentEnd, HoldsNewline;
    if i < |s| {
      assert [] + Uncommented(s, i + 1, false) == Uncommented(s, i + 1, false);
    } else {
      assert [] + [Op(EOF)] == [Op(EOF)];
    }
  }

  lemma HoldsFrom(s: string, i: nat, j: nat)
    requires j <= |s| && i < |s| && s[i] != '\n'
    ensures HoldsNewline(s, i, j) <==> HoldsNewline(s, i + 1, j)
  {
  }

  // A block comment holds a newline exactly if the scanner finds one in it.
  lemma BlockNewline(s: string, i: nat)
    requires StartsComment(s, i) && s[i + 1] == '*'
    ensures CommentEnd(s, i + 1) == BlockEnd(s, i + 2)
    ensures NewlineIn(s, i + 2) <==> HoldsNewline(s, i, CommentEnd(s, i + 1).end)
  {
    hide NewlineIn, BlockEnd, HoldsNewline;
    var j := BlockEnd(s, i + 2).end;
    NewlineInBlock(s, i + 2);
    HoldsFrom(s, i, j);
    HoldsFrom(s, i + 1, j);
  }

  // The scanner sees the end of the line ahead exactly if the comments are a
  // newline, and then only the terminator is lost by reading on without them.
  lemma {:induction false} CommentsEndLine(s: string, i: nat)
    requires StartsComment(s, i)
    ensures EndsLine(s, i + 1) ==> Uncommented(s, i, true) == [Op(TERMINATOR)] + Uncommented(s, i, false)
    ensures !EndsLine(s, i + 1) ==> Uncommented(s, i, true) == Uncommented(s, CommentEnd(s, i + 1).end, false)
    ensures !EndsLine(s, i + 1) ==> s[i + 1] == '*'
    decreases |s| - i
  {
    hide TokenAt, Uncommented, HoldsNewline, NewlineIn, BlockEnd, CommentEnd;
    UncommentedComment(s, i, true);
    UncommentedComment(s, i, false);
    var j := CommentEnd(s, i + 1).end;
    if s[i + 1] == '/' {
      LineStops(s, i);
      UncommentedLineEnd(s, j);
    } else {
      BlockNewline(s, i);
      NoneBefore(Uncommented(s, j, false));
      if !NewlineIn(s, i + 2) {
        AfterBlock(s, i, j);
      }
    }
  }

  lemma LineStops(s: string, i: nat)
    requires StartsComment(s, i) && s[i + 1] == '/'
    ensures var j := CommentEnd(s, i + 1).end; j <= |s| && (j < |s| ==> s[j] == '\n')
  {
    LineEndFirst(s, i + 2);
  }

  lemma NoneBefore(ts: seq<Sym>)
    ensures Newline(false) + ts == ts && Newline(true) == [Op(TERMINATOR)]
  {
  }

  // After a block comment without a newline.
  lemma AfterBlock(s: string, i: nat, j: nat)
    requires StartsComment(s, i) && s[i + 1] == '*' && j == CommentEnd(s, i + 1).end
    requires !NewlineIn(s, i + 2) && CommentEnd(s, i + 1) == BlockEnd(s, i + 2)
    ensures EndsLine(s, i + 1) ==> Uncommented(s, j, true) == [Op(TERMINATOR)] + Uncommented(s, j, false)
    ensures !EndsLine(s, i + 1) ==> Uncommented(s, j, true) == Uncommented(s, j, false)
    decreases |s| - i, 0
  {
    hide TokenAt, Uncommented, HoldsNewline, NewlineIn, BlockEnd, CommentEnd;
    var k := SkipBlanks(s, j, true);
    UncommentedOver(s, j, true);
    UncommentedOver(s, j, false);
    if k == |s| || s[k] == '\n' {
      UncommentedLineEnd(s, k);
    } else if StartsComment(s, k) {
      CommentsEndLine(s, k);
      if !EndsLine(s, k + 1) {
        UncommentedComment(s, k, false);
        NoneBefore(Uncommented(s, CommentEnd(s, k + 1).end, false));
      }
    } else {
      UncommentedToken(s, k);
      assert s[k] == '/' ==> !EndsLine(s, k + 1);
    }
  }

  // A token that is no comment is the same whatever was before it.
  lemma UncommentedToken(s: string, i: nat)
    requires i < |s| && !IsBlank(s[i], false) && !StartsComment(s, i)
    ensures Uncommented(s, i, true) == Uncommented(s, i, false)
    ensures var t := TokenAt(s, i, false);
            Uncommented(s, i, false) == [t.sym] + Uncommented(s, t.next, EndsStatement(t.sym.kind))
  {
    hide TokenAt, CommentEnd, HoldsNewline;
  }

  // A token without error, other than a comment, ends a statement exactly if
  // it is of one of the kinds that can.
  lemma TokenEnds(s: string, i: nat, ends: bool)
    requires i < |s| && !IsBlank(s[i], false) && !StartsComment(s, i)
    ensures var t, u := TokenAt(s, i, ends), TokenAt(s, i, false);
            t.sym == u.sym && t.next == u.next && t.sym.kind != EOF && t.sym.kind != COMMENT
            && (t.ok ==> t.ends == EndsStatement(t.sym.kind))
  {
    hide IdentifierEnd, NumberEnd, StringEnd, OperatorEnd;
    OperatorKind(s, i);
    if IsLetter(s[i]) || StartsNumber(s, i) {
    } else if s[i] != '\'' && s[i] != '"' && s[i] != '`' {
      OperatorEnds(s, i);
    }
  }

  lemma OperatorEnds(s: string, i: nat)
    requires i < |s|
    ensures var k := OperatorEnd(s, i).kind;
            k != COMMENT && (EndsStatement(k) <==> k == RCURLY || k == RPAREN || k == RBRACK)
  {
    OperatorKind(s, i);
    hide OperatorEnd;
  }

  lemma CommentToken(s: string, i: nat, ends: bool)
    requires StartsComment(s, i)
    ensures var t, c := TokenAt(s, i, ends), CommentEnd(s, i + 1);
            if ends && EndsLine(s, i + 1) then t == Scanned(Op(TERMINATOR), i, i, false, true)
            else t.sym.kind == COMMENT && t.next == c.end && !t.ends
  {
    hide CommentEnd, EndsLine, IdentifierEnd, NumberEnd, StringEnd, OperatorEnd;
  }

  lemma EndToken(s: string, ends: bool)
    ensures TokenAt(s, |s|, ends) == Scanned(Op(if ends then TERMINATOR else EOF), |s|, |s|, false, true)
    ensures Uncommented(s, |s|, ends) == Newline(ends) + [Op(EOF)]
  {
  }

  lemma LineToken(s: string, i: nat)
    requires i < |s| && s[i] == '\n'
    ensures TokenAt(s, i, true) == Scanned(Op(TERMINATOR), i, i + 1, false, true)
    ensures Uncommented(s, i, true) == [Op(TERMINATOR)] + Uncommented(s, i + 1, false)
  {
    hide IdentifierEnd, NumberEnd, StringEnd, OperatorEnd;
  }

  lemma AtEnd(s: string, i: nat, ends: bool)
    requires i <= |s| && TokenAt(s, i, ends).sym.kind == EOF
    ensures Uncommented(s, i, ends) == [Op(EOF)]
  {
    hide TokenAt;
    OnlyEof(s, i, ends);
    EndToken(s, ends);
  }

  // One step of the reading without comments, as the scanner takes it.
  lemma UncommentedStep(s: string, i: nat, ends: bool)
    requires i <= |s| && (i < |s| ==> !IsBlank(s[i], ends)) && TokenAt(s, i, ends).ok
    requires TokenAt(s, i, ends).sym.kind != EOF
    ensures var t := TokenAt(s, i, ends);
            Uncommented(s, i, ends) == (if t.sym.kind == COMMENT then [] else [t.sym]) + Uncommented(s, t.next, t.ends)
  {
    hide TokenAt, Uncommented, EndsLine, CommentEnd, HoldsNewline;
    if i == |s| {
      EndToken(s, ends);
      EndToken(s, false);
      NoneBefore([Op(EOF)]);
    } else if s[i] == '\n' {
      LineToken(s, i);
    } else if StartsComment(s, i) {
      CommentToken(s, i, ends);
      UncommentedComment(s, i, false);
      var rest := Uncommented(s, CommentEnd(s, i + 1).end, false);
      NoneBefore(rest);
      assert [] + rest == rest;
      if ends {
        CommentsEndLine(s, i);
      }
    } else {
      TokenEnds(s, i, ends);
      UncommentedToken(s, i);
    }
  }

  // After an operand, a comment ends the statement exactly if the text without
  // comments has a terminator there.
  lemma TerminatorBeforeComment(s: string, i: nat)
    requires StartsComment(s, i)
    ensures TokenAt(s, i, true).sym == Op(TERMINATOR) <==>
            Uncommented(s, i, true) == [Op(TERMINATOR)] + Uncommented(s, i, false)
  {
    hide TokenAt, EndsLine, CommentEnd, Uncommented, HoldsNewline;
    CommentToken(s, i, true);
    CommentsEndLine(s, i);
    UncommentedComment(s, i, false);
    NoneBefore(Uncommented(s, CommentEnd(s, i + 1).end, false));
  }

  // ---- what the scanner looks ahead for ----

  // From i to j stand blanks, and block comments without a newline.
  predicate Passes(s: string, i: nat, j: nat)
    decreases |s| - i
  {
    || i == j
    || (i < |s| && (s[i] == ' ' || s[i] == '\t' || s[i] == '\r') && Passes(s, i + 1, j))
    || (StartsComment(s, i) && s[i + 1] == '*' && var e := CommentEnd(s, i + 1).end;
        !HoldsNewline(s, i, e) && Passes(s, e, j))
  }

  // The line ends at j, or with the comment there.
  predicate LineEndsAt(s: string, j: nat) {
    || j == |s|
    || (j < |s| && s[j] == '\n')
    || (StartsComment(s, j) && (s[j + 1] == '/' || HoldsNewline(s, j, CommentEnd(s, j + 1).end)))
  }

  // From i on nothing but blanks and comments stands on the line.
  ghost predicate RunsToLineEnd(s: string, i: nat) {
    exists j: nat :: Passes(s, i, j) && LineEndsAt(s, j)
  }

  lemma RunsOverBlank(s: string, i: nat)
    requires i < |s| && (s[i] == ' ' || s[i] == '\t' || s[i] == '\r')
    ensures RunsToLineEnd(s, i) <==> RunsToLineEnd(s, i + 1)
  {
    hide CommentEnd, HoldsNewline;
    if j: nat :| Passes(s, i + 1, j) && LineEndsAt(s, j) {
      assert Passes(s, i, j);
    }
  }

  lemma RunsOverComment(s: string, i: nat)
    requires StartsComment(s, i) && s[i + 1] == '*' && !HoldsNewline(s, i, CommentEnd(s, i + 1).end)
    ensures RunsToLineEnd(s, i) <==> RunsToLineEnd(s, CommentEnd(s, i + 1).end)
  {
    hide CommentEnd, HoldsNewline;
    if j: nat :| Passes(s, CommentEnd(s, i + 1).end, j) && LineEndsAt(s, j) {
      assert Passes(s, i, j);
    }
  }

  lemma {:induction false} RunsOverBlanks(s: string, i: nat)
    requires i <= |s|
    ensures RunsToLineEnd(s, i) <==> RunsToLineEnd(s, SkipBlanks(s, i, true))
    decreases |s| - i
  {
    hide RunsToLineEnd;
    if i < |s| && IsBlank(s[i], true) {
      RunsOverBlank(s, i);
      RunsOverBlanks(s, i + 1);
    }
  }

  lemma RunsHere(s: string, i: nat)
    requires i <= |s| && (i < |s| ==> !IsBlank(s[i], true))
    requires StartsComment(s, i) ==> s[i + 1] == '/' || HoldsNewline(s, i, CommentEnd(s, i + 1).end)
    ensures RunsToLineEnd(s, i) <==> LineEndsAt(s, i)
  {
    hide CommentEnd, HoldsNewline;
    assert Passes(s, i, i);
    assert forall j :: Passes(s, i, j) ==> j == i;
  }

  // That is what the scanner answers at a comment.
  lemma {:induction false} RunsIs(s: string, i: nat)
    requires StartsComment(s, i)
    ensures EndsLine(s, i + 1) <==> RunsToLineEnd(s, i)
    decreases |s| - i
  {
    hide CommentEnd, HoldsNewline, RunsToLineEnd, BlockEnd, NewlineIn;
    if s[i + 1] == '/' {
      RunsHere(s, i);
    } else {
      BlockNewline(s, i);
      var e := CommentEnd(s, i + 1).end;
      if HoldsNewline(s, i, e) {
        RunsHere(s, i);
      } else {
        RunsOverComment(s, i);
        RunsOverBlanks(s, e);
        var k := SkipBlanks(s, e, true);
        if StartsComment(s, k) {
          RunsIs(s, k);
        } else {
          RunsHere(s, k);
          assert k < |s| && s[k] == '/' ==> !EndsLine(s, k + 1);
        }
      }
    }
  }
}
