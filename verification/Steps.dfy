// One turn of each list loop of the grammar.
module Steps {
  import opened Tokens
  import opened Syntax
  import opened Grammar

  // done and what r reads after it, which follows a separator.
  function Extended<T>(done: seq<T>, r: Read<Members<T>>): Read<Members<T>> {
    match r
    case Fail => Fail
    case Ok(l, k) => Ok(Members(done + l.members, if done == [] then l.comma else l.members == [] || l.comma), k)
  }

  // How a list is read whose members up to one just read are more, if next is the
  // index after them and rest is read after a separator there.
  ghost predicate Goes<T>(ts: seq<Sym>, until: Kind, sep: Kind, more: seq<T>, next: nat,
                          whole: Read<Members<T>>, rest: Read<Members<T>>) {
    && next < |ts|
    && if ts[next].kind == until then whole == Ok(Members(more, false), next)
       else if ts[next].kind == sep then next + 1 < |ts| && whole == Extended(more, rest)
       else whole == Fail
  }

  // The first member of a list is x.
  ghost predicate Begun<T>(ts: seq<Sym>, until: Kind, sep: Kind, x: Read<T>,
                           whole: Read<Members<T>>, rest: Read<Members<T>>) {
    if x.Fail? then whole == Fail else Goes(ts, until, sep, [x.val], x.next, whole, rest)
  }

  // The next member of a list, after those in done, is x.
  ghost predicate Turned<T>(ts: seq<Sym>, until: Kind, sep: Kind, done: seq<T>, x: Read<T>,
                            whole: Read<Members<T>>, rest: Read<Members<T>>) {
    if x.Fail? then whole == Fail else Goes(ts, until, sep, done + [x.val], x.next, whole, rest)
  }

  lemma ExtendedNone<T>(r: Read<Members<T>>)
    ensures Extended([], r) == r
  {
    if r.Ok? {
      assert [] + r.val.members == r.val.members;
    }
  }

  lemma ExtendedEnd<T>(done: seq<T>, k: nat)
    ensures Extended(done, Ok(Members([], false), k)) == Ok(Members(done, done != []), k)
  {
    assert done + [] == done;
  }

  lemma ExtendedFail<T>(done: seq<T>)
    ensures Extended(done, Fail) == Fail
  {
  }

  // One member more.
  lemma ExtendedSnoc<T>(done: seq<T>, x: T, rest: Read<Members<T>>, k: nat)
    ensures Extended(done, Ok(Members([x], false), k)) == Ok(Members(done + [x], false), k)
    ensures Extended(done, Extended([x], rest)) == Extended(done + [x], rest)
  {
    if rest.Ok? {
      assert done + ([x] + rest.val.members) == done + [x] + rest.val.members;
    }
  }

  lemma GoesAfter<T>(ts: seq<Sym>, until: Kind, sep: Kind, done: seq<T>, x: T, next: nat,
                     here: Read<Members<T>>, rest: Read<Members<T>>)
    requires Goes(ts, until, sep, [x], next, here, rest)
    ensures Goes(ts, until, sep, done + [x], next, Extended(done, here), rest)
  {
    hide Extended;
    ExtendedFail(done);
    ExtendedSnoc(done, x, rest, next);
  }

  // A list after done takes its turns as it does alone.
  lemma TurnedAfter<T>(ts: seq<Sym>, until: Kind, sep: Kind, done: seq<T>, x: Read<T>,
                       here: Read<Members<T>>, rest: Read<Members<T>>)
    requires Begun(ts, until, sep, x, here, rest)
    ensures Turned(ts, until, sep, done, x, Extended(done, here), rest)
  {
    hide Goes, Extended;
    ExtendedFail(done);
    if x.Ok? {
      GoesAfter(ts, until, sep, done, x.val, x.next, here, rest);
    }
  }

  lemma ListEmpty(ts: seq<Sym>, i: nat, until: Kind)
    requires Lexed(ts) && i < |ts| && (until == RPAREN || until == RBRACK)
    requires ts[i].kind == until || ts[i].kind == EOF
    ensures ExpressionList(ts, i, until) == Ok(Members([], false), i)
  {
    hide Expression;
  }

  function ListRest(ts: seq<Sym>, x: Read<Cst>, until: Kind): Read<Exprs>
    requires Lexed(ts) && (until == RPAREN || until == RBRACK)
  {
    if x.Ok? && x.next + 1 < |ts| then ExpressionList(ts, x.next + 1, until) else Fail
  }

  lemma ListStep(ts: seq<Sym>, i: nat, until: Kind)
    requires Lexed(ts) && i < |ts| && (until == RPAREN || until == RBRACK)
    requires ts[i].kind != until && ts[i].kind != EOF
    ensures var x := Expression(ts, i);
            Begun(ts, until, COMMA, x, ExpressionList(ts, i, until), ListRest(ts, x, until))
  {
    hide Expression;
  }

  lemma FieldsEmpty(ts: seq<Sym>, i: nat)
    requires Lexed(ts) && i < |ts| && (ts[i].kind == RCURLY || ts[i].kind == EOF)
    ensures FieldList(ts, i, RCURLY) == Ok(Members([], false), i)
  {
    hide FieldAt;
  }

  lemma FieldRead(ts: seq<Sym>, i: nat)
    requires Lexed(ts) && i < |ts|
    ensures ts[i].kind != STRING && ts[i].kind != IDENT ==> FieldAt(ts, i) == Fail
    ensures ts[i].kind == STRING || ts[i].kind == IDENT ==>
              i + 1 < |ts| &&
              (ts[i + 1].kind != ASSIGN ==> FieldAt(ts, i) == Fail) &&
              (ts[i + 1].kind == ASSIGN ==>
                 i + 2 < |ts| && FieldAt(ts, i) ==
                 match Expression(ts, i + 2)
                 case Fail => Fail
                 case Ok(c, k) => Ok(CField(ts[i], c), k))
  {
    hide Expression;
  }

  function FieldsRest(ts: seq<Sym>, x: Read<CField>): Read<Fields>
    requires Lexed(ts)
  {
    if x.Ok? && x.next + 1 < |ts| then FieldList(ts, x.next + 1, RCURLY) else Fail
  }

  lemma FieldsStep(ts: seq<Sym>, i: nat)
    requires Lexed(ts) && i < |ts| && ts[i].kind != RCURLY && ts[i].kind != EOF
    ensures var x := FieldAt(ts, i); Begun(ts, RCURLY, COMMA, x, FieldList(ts, i, RCURLY), FieldsRest(ts, x))
  {
    hide FieldAt;
  }

  lemma BodyEmpty(ts: seq<Sym>, i: nat, until: Kind)
    requires Lexed(ts) && i < |ts| && (until == RCURLY || until == EOF)
    requires ts[i].kind == until || ts[i].kind == EOF
    ensures Body(ts, i, until) == Ok(Members([], false), i)
  {
    hide Statement;
  }

  function BodyRest(ts: seq<Sym>, x: Read<CStmt>, until: Kind): Read<Stmts>
    requires Lexed(ts) && (until == RCURLY || until == EOF)
  {
    if x.Ok? && x.next + 1 < |ts| then Body(ts, x.next + 1, until) else Fail
  }

  lemma BodyStep(ts: seq<Sym>, i: nat, until: Kind)
    requires Lexed(ts) && i < |ts| && (until == RCURLY || until == EOF)
    requires ts[i].kind != until && ts[i].kind != EOF
    ensures var x := Statement(ts, i);
            Begun(ts, until, TERMINATOR, x, Body(ts, i, until), BodyRest(ts, x, until))
  {
    hide Statement;
  }
}
