// lexer.go: the scan for reserved keywords in a query, with exemptions that
// depend on the tokens before.
module ReservedKeywords {

  // The SQL lexer's tokens; other kinds are passed over.
  datatype Kind = ERROR | EOF | COMMAND | KEYWORD | IDENT | OTHER

  datatype Token = Token(kind: Kind, value: string)

  // strings.ToUpper, and case folding: texts are EqualFold if they fold alike.
  const UPPER: string -> string
  const FOLD: string -> string

  predicate EqualFold(a: string, b: string) {
    FOLD(a) == FOLD(b)
  }

  const BUF_SIZE := 32

  // A reserved word with its exemption prefixes, none for a missing list.
  type Words = map<string, seq<string>>

  predicate IsCommandKeywordOrIdentifier(t: Token): (r: bool)
    ensures r <==> t.kind != ERROR && t.kind != EOF && t.kind != OTHER
  {
    t.kind.COMMAND? || t.kind.KEYWORD? || t.kind.IDENT?
  }

  predicate Stops(t: Token) {
    t.kind.ERROR? || t.kind.EOF?
  }

  // The values of the commands, keywords and identifiers among the first n tokens.
  function Relevant(tokens: seq<Token>, n: nat): (r: seq<string>)
    requires n <= |tokens|
    ensures forall v :: v in r <==>
              exists i :: 0 <= i < n && tokens[i].kind in {COMMAND, KEYWORD, IDENT} && tokens[i].value == v
  {
    if n == 0 then []
    else Relevant(tokens, n - 1) + (if IsCommandKeywordOrIdentifier(tokens[n - 1]) then [tokens[n - 1].value] else [])
  }

  // The last values that are remembered, the newest first.
  function Newest(values: seq<string>): (r: seq<string>)
    ensures |r| == (if |values| < 32 then |values| else 32)
    ensures forall i :: 0 <= i < |r| ==> r[i] == values[|values| - 1 - i]
  {
    var n := if |values| < BUF_SIZE then |values| else BUF_SIZE;
    seq(n, i requires 0 <= i < n => values[|values| - 1 - i])
  }

  // The prefixes are found in the values in their order, perhaps with others between.
  ghost predicate Embeds(prefixes: seq<string>, values: seq<string>) {
    exists at: seq<nat> :: IsEmbedding(prefixes, values, at)
  }

  predicate IsEmbedding(prefixes: seq<string>, values: seq<string>, at: seq<nat>) {
    && |at| == |prefixes| && (forall k :: 0 <= k < |at| ==> at[k] < |values| && EqualFold(values[at[k]], prefixes[k]))
    && forall k, l :: 0 <= k < l < |at| ==> at[k] < at[l]
  }

  // The number of prefixes that are found taking each value that fits.
  function Greedy(prefixes: seq<string>, values: seq<string>, n: nat): (matched: nat)
    requires n <= |values|
    ensures matched <= |prefixes| && matched <= n
  {
    if n == 0 then 0
    else
      var m := Greedy(prefixes, values, n - 1);
      if m < |prefixes| && EqualFold(values[n - 1], prefixes[m]) then m + 1 else m
  }

  // What greedy matching finds is an embedding.
  lemma {:induction false} GreedyEmbeds(prefixes: seq<string>, values: seq<string>, n: nat) returns (at: seq<nat>)
    requires n <= |values|
    ensures IsEmbedding(prefixes[..Greedy(prefixes, values, n)], values, at) && forall k :: 0 <= k < |at| ==> at[k] < n
    decreases n
  {
    if n == 0 {
      at := [];
    } else {
      var m := Greedy(prefixes, values, n - 1);
      at := GreedyEmbeds(prefixes, values, n - 1);
      if m < |prefixes| && EqualFold(values[n - 1], prefixes[m]) {
        at := at + [n - 1];
      }
    }
  }

  // And it finds all that any embedding does: it is never behind.
  lemma {:induction false} GreedyLeads(prefixes: seq<string>, values: seq<string>, at: seq<nat>, n: nat, k: nat)
    requires IsEmbedding(prefixes, values, at) && n <= |values| && k <= |at| && (k > 0 ==> at[k - 1] < n)
    ensures Greedy(prefixes, values, n) >= k
    decreases n, k
  {
    if k > 0 {
      if at[k - 1] < n - 1 {
        GreedyLeads(prefixes, values, at, n - 1, k);
      } else {
        GreedyLeads(prefixes, values, at, n - 1, k - 1);
      }
    }
  }

  lemma GreedyFinds(prefixes: seq<string>, values: seq<string>)
    ensures Greedy(prefixes, values, |values|) == |prefixes| <==> Embeds(prefixes, values)
  {
    if Greedy(prefixes, values, |values|) == |prefixes| {
      var at := GreedyEmbeds(prefixes, values, |values|);
      assert prefixes[..|prefixes|] == prefixes;
    }
    if Embeds(prefixes, values) {
      var at :| IsEmbedding(prefixes, values, at);
      GreedyLeads(prefixes, values, at, |values|, |prefixes|);
    }
  }

  // Token i is a reserved word whose exemption, if it has one, is not met by
  // the tokens before it.
  ghost predicate Offends(tokens: seq<Token>, words: Words, i: nat)
    requires i < |tokens|
  {
    && IsCommandKeywordOrIdentifier(tokens[i]) && UPPER(tokens[i].value) in words
    && var prefixes := words[UPPER(tokens[i].value)];
       prefixes == [] || !Embeds(prefixes, Newest(Relevant(tokens, i)))
  }

  // The ring holds the last values, the next at head.
  ghost predicate Ring(buf: seq<string>, head: nat, len: nat, values: seq<string>) {
    && |buf| == BUF_SIZE && head == |values| % BUF_SIZE && len == |Newest(values)|
    && forall j :: 0 <= |values| - len <= j < |values| ==> buf[j % BUF_SIZE] == values[j]
  }

  lemma RingAt(buf: seq<string>, head: nat, len: nat, values: seq<string>, i: nat)
    requires Ring(buf, head, len, values) && i < len
    ensures var idx := (head - 1 - i + BUF_SIZE) % BUF_SIZE; 0 <= idx < |buf| && buf[idx] == Newest(values)[i]
  {
    var j := |values| - 1 - i;
    assert (head - 1 - i + BUF_SIZE) % BUF_SIZE == j % BUF_SIZE;
  }

  lemma RingPush(buf: seq<string>, head: nat, len: nat, values: seq<string>, value: string)
    requires Ring(buf, head, len, values)
    ensures Ring(buf[head := value], (head + 1) % BUF_SIZE, if len < BUF_SIZE then len + 1 else len, values + [value])
  {
    var len' := if len < BUF_SIZE then len + 1 else len;
    forall j | 0 <= |values| + 1 - len' <= j < |values|
      ensures j % BUF_SIZE != head
    {
    }
  }

  lemma RingEmpty(buf: seq<string>, tokens: seq<Token>)
    requires |buf| == BUF_SIZE
    ensures Ring(buf, 0, 0, Relevant(tokens, 0))
  {
  }

  lemma RingHead(buf: seq<string>, head: nat, len: nat, values: seq<string>)
    requires Ring(buf, head, len, values)
    ensures |buf| == BUF_SIZE && head < |buf| && len <= BUF_SIZE
  {
  }

  lemma RelevantNext(tokens: seq<Token>, n: nat)
    requires n < |tokens|
    ensures Relevant(tokens, n + 1)
            == Relevant(tokens, n) + (if IsCommandKeywordOrIdentifier(tokens[n]) then [tokens[n].value] else [])
  {
  }

  // The lexer's tokens up to an error or the end of the query; tokens holds
  // one of the two.
  method ContainsReservedKeywords(tokens: seq<Token>, words: Words) returns (found: bool, err: bool)
    requires exists n :: 0 <= n < |tokens| && Stops(tokens[n])
    ensures var n := FirstStop(tokens, 0);
            && (found <==> exists i :: 0 <= i < n && Offends(tokens, words, i))
            && (err <==> !found && tokens[n].kind.ERROR?)
  {
    var buf := new string[BUF_SIZE](_ => "");
    hide Ring, Embeds, Newest, Relevant;
    var bufHead: nat, bufLen: nat := 0, 0;
    var pos: nat := 0;
    RingEmpty(buf[..], tokens);
    while true
      invariant pos <= FirstStop(tokens, 0) && FirstStop(tokens, 0) == FirstStop(tokens, pos)
      invariant Ring(buf[..], bufHead, bufLen, Relevant(tokens, pos))
      invariant forall i :: 0 <= i < pos ==> !Offends(tokens, words, i)
      decreases |tokens| - pos
    {
      var token := tokens[pos];
      if token.kind.ERROR? {
        return false, true;
      }
      if token.kind.EOF? {
        return false, false;
      }
      RelevantNext(tokens, pos);
      if !IsCommandKeywordOrIdentifier(token) {
        pos := pos + 1;
        continue;
      }
      if UPPER(token.value) in words {
        var prefixes := words[UPPER(token.value)];
        if |prefixes| == 0 {
          assert Offends(tokens, words, pos);
          return true, false;
        }
        var matched := Lookback(buf, bufHead, bufLen, prefixes, Relevant(tokens, pos));
        if matched < |prefixes| {
          assert Offends(tokens, words, pos);
          return true, false;
        }
      }
      assert !Offends(tokens, words, pos);
      RingPush(buf[..], bufHead, bufLen, Relevant(tokens, pos), token.value);
      RingHead(buf[..], bufHead, bufLen, Relevant(tokens, pos));
      ghost var was := buf[..];
      buf[bufHead] := token.value;
      assert buf[..] == was[bufHead := token.value];
      bufHead := (bufHead + 1) % BUF_SIZE;
      if bufLen < BUF_SIZE {
        bufLen := bufLen + 1;
      }
      pos := pos + 1;
    }
  }

  function FirstStop(tokens: seq<Token>, i: nat): (n: nat)
    requires i <= |tokens| && exists k :: i <= k < |tokens| && Stops(tokens[k])
    ensures i <= n < |tokens| && Stops(tokens[n]) && forall k :: i <= k < n ==> !Stops(tokens[k])
    decreases |tokens| - i
  {
    if Stops(tokens[i]) then i else FirstStop(tokens, i + 1)
  }

  // The walk over the ring, newest to oldest.
  method Lookback(buf: array<string>, bufHead: nat, bufLen: nat, prefixes: seq<string>, ghost values: seq<string>)
    returns (matched: nat)
    requires Ring(buf[..], bufHead, bufLen, values) && prefixes != []
    ensures matched <= |prefixes| && (matched == |prefixes| <==> Embeds(prefixes, Newest(values)))
  {
    var current := prefixes[0];
    matched := 0;
    GreedyFinds(prefixes, Newest(values));
    for i := 0 to bufLen
      invariant matched == Greedy(prefixes, Newest(values), i) < |prefixes| && current == prefixes[matched]
    {
      RingAt(buf[..], bufHead, bufLen, values, i);
      var idx := (bufHead - 1 - i + BUF_SIZE) % BUF_SIZE;
      if !EqualFold(buf[idx], current) {
        continue;
      }
      matched := matched + 1;
      if matched >= |prefixes| {
        GreedyStays(prefixes, Newest(values), i + 1);
        break;
      }
      current := prefixes[matched];
    }
  }

  lemma {:induction false} GreedyStays(prefixes: seq<string>, values: seq<string>, n: nat)
    requires n <= |values| && Greedy(prefixes, values, n) == |prefixes|
    ensures Greedy(prefixes, values, |values|) == |prefixes|
    decreases |values| - n
  {
    if n < |values| {
      GreedyStays(prefixes, values, n + 1);
    }
  }
}
