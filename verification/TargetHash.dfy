// target.go: what a target feeds to its hash. The hash is one of the bytes fed,
// whether they are written at once or in parts.
module TargetHashes {
  import opened Targets

  // ---- the order of names ----

  predicate Less(a: Text, b: Text) {
    if b == [] then false
    else if a == [] then true
    else a[0] < b[0] || (a[0] == b[0] && Less(a[1..], b[1..]))
  }

  lemma {:induction false} LessTotal(a: Text, b: Text)
    ensures a == b || Less(a, b) || Less(b, a)
    ensures !(Less(a, b) && Less(b, a)) && !Less(a, a)
  {
    if a != [] && b != [] {
      LessTotal(a[1..], b[1..]);
      LessTotal(a[1..], a[1..]);
      assert a == [a[0]] + a[1..] && b == [b[0]] + b[1..];
    } else if a != [] {
      LessTotal(a[1..], []);
    }
  }

  lemma {:induction false} LessTrans(a: Text, b: Text, c: Text)
    requires Less(a, b) && Less(b, c)
    ensures Less(a, c)
  {
    if a != [] && a[0] == b[0] && b[0] == c[0] {
      LessTrans(a[1..], b[1..], c[1..]);
    }
  }

  // b goes on where a ends, or has the greater byte where they first differ.
  predicate Splits(a: Text, b: Text, k: nat) {
    k <= |a| && k < |b| && a[..k] == b[..k] && (k < |a| ==> a[k] < b[k])
  }

  // Names are in the order of their bytes.
  lemma {:induction false} LessIs(a: Text, b: Text)
    ensures Less(a, b) <==> exists k: nat :: Splits(a, b, k)
    decreases |a|
  {
    if b != [] && a == [] {
      assert Splits(a, b, 0);
    } else if b != [] && a[0] == b[0] {
      LessIs(a[1..], b[1..]);
      if k: nat :| Splits(a[1..], b[1..], k) {
        assert a[..k + 1] == [a[0]] + a[1..][..k] && b[..k + 1] == [b[0]] + b[1..][..k];
        assert Splits(a, b, k + 1);
      }
      if k: nat :| Splits(a, b, k) {
        assert k > 0;
        assert a[1..][..k - 1] == a[..k][1..] && b[1..][..k - 1] == b[..k][1..];
        assert Splits(a[1..], b[1..], k - 1);
      }
    } else if b != [] {
      if a[0] < b[0] {
        assert Splits(a, b, 0);
      }
      if k: nat :| Splits(a, b, k) {
        assert k == 0;
      }
    }
  }

  predicate Ascending(s: seq<Text>) {
    forall i, j :: 0 <= i < j < |s| ==> Less(s[i], s[j])
  }

  // x put where it belongs.
  function Insert(x: Text, s: seq<Text>): (r: seq<Text>)
    ensures forall k :: k in r <==> k == x || k in s
  {
    if s == [] then [x]
    else if Less(s[0], x) then [s[0]] + Insert(x, s[1..])
    else [x] + s
  }

  lemma {:induction false} InsertAscending(x: Text, s: seq<Text>)
    requires Ascending(s) && x !in s
    ensures Ascending(Insert(x, s))
  {
    hide Less;
    if s != [] {
      var r := Insert(x, s[1..]);
      if Less(s[0], x) {
        InsertAscending(x, s[1..]);
        forall k | k in r
          ensures Less(s[0], k)
        {
        }
        AscendingCons(s[0], r);
      } else {
        LessTotal(x, s[0]);
        forall k | k in s
          ensures Less(x, k)
        {
          if k != s[0] {
            LessTrans(x, s[0], k);
          }
        }
        AscendingCons(x, s);
      }
    }
  }

  lemma AscendingCons(x: Text, s: seq<Text>)
    requires Ascending(s) && forall k :: k in s ==> Less(x, k)
    ensures Ascending([x] + s)
  {
    hide Less;
  }

  function Sort(s: seq<Text>): (r: seq<Text>)
    ensures forall k :: k in r <==> k in s
  {
    if s == [] then [] else Insert(s[0], Sort(s[1..]))
  }

  lemma {:induction false} SortAscending(s: seq<Text>)
    requires Distinct(s)
    ensures Ascending(Sort(s))
  {
    if s != [] {
      SortAscending(s[1..]);
      InsertAscending(s[0], Sort(s[1..]));
    }
  }

  lemma InTail(s: seq<Text>, k: Text)
    requires s != [] && Ascending(s)
    ensures k in s[1..] <==> k in s && k != s[0]
  {
    LessTotal(s[0], s[0]);
  }

  lemma FirstLeast(s: seq<Text>, k: Text)
    requires Ascending(s) && k in s
    ensures k == s[0] || Less(s[0], k)
  {
  }

  lemma NoneIn(s: seq<Text>)
    ensures (forall k :: k !in s) ==> s == []
  {
    if s != [] {
      assert s[0] in s;
    }
  }

  // Names have one order.
  lemma {:induction false} OneOrder(a: seq<Text>, b: seq<Text>)
    requires Ascending(a) && Ascending(b) && forall k :: k in a <==> k in b
    ensures a == b
    decreases |a|
  {
    hide Less;
    NoneIn(a);
    NoneIn(b);
    if a != [] {
      assert b != [] by {
        assert a[0] in b;
      }
      FirstLeast(a, b[0]);
      FirstLeast(b, a[0]);
      LessTotal(a[0], b[0]);
      forall k: Text
        ensures k in a[1..] <==> k in b[1..]
      {
        InTail(a, k);
        InTail(b, k);
      }
      OneOrder(a[1..], b[1..]);
      assert a == [a[0]] + a[1..] && b == [b[0]] + b[1..];
    }
  }

  // ---- what is fed ----

  const SEPARATOR: Byte := 255

  const CAPACITY := 1024

  function Pair(key: Text, value: Text): seq<Byte> {
    key + [SEPARATOR] + value + [SEPARATOR]
  }

  // A name that is missing has the empty value.
  function ValueOf(t: Target, key: Text): Text {
    match Get(t, key)
    case None => []
    case Some(value) => value
  }

  function Encode(t: Target, order: seq<Text>): seq<Byte> {
    if order == [] then []
    else Encode(t, order[..|order| - 1]) + Pair(order[|order| - 1], ValueOf(t, order[|order| - 1]))
  }

  lemma EncodeSnoc(t: Target, order: seq<Text>, i: nat)
    requires i < |order|
    ensures Encode(t, order[..i + 1]) == Encode(t, order[..i]) + Pair(order[i], ValueOf(t, order[i]))
  {
    assert order[..i + 1][..i] == order[..i];
  }

  // A digest that is written in parts hashes all that was written.
  class Digest {
    var written: seq<Byte>

    constructor ()
      ensures written == []
    {
      written := [];
    }

    method Write(b: seq<Byte>)
      modifies this
      ensures written == old(written) + b
    {
      written := written + b;
    }
  }

  // Labels are collected in a buffer; once they do not fit, what was collected
  // and the rest is streamed. Either way the same bytes are hashed.
  method HashLabelsInOrder(t: Target, order: seq<Text>) returns (fed: seq<Byte>)
    ensures fed == Encode(t, order)
  {
    var b: seq<Byte> := [];
    for i := 0 to |order|
      invariant b == Encode(t, order[..i])
    {
      var key, value := order[i], ValueOf(t, order[i]);
      if |b| + |key| + |value| + 2 >= CAPACITY {
        var h := new Digest();
        h.Write(b);
        for j := i to |order|
          invariant fresh(h) && h.written == Encode(t, order[..j])
        {
          EncodeSnoc(t, order, j);
          h.Write(order[j]);
          h.Write([SEPARATOR]);
          h.Write(ValueOf(t, order[j]));
          h.Write([SEPARATOR]);
          Parts(Encode(t, order[..j]), order[j], ValueOf(t, order[j]));
        }
        assert order[..|order|] == order;
        return h.written;
      }
      EncodeSnoc(t, order, i);
      Parts(b, key, value);
      b := b + key + [SEPARATOR] + value + [SEPARATOR];
    }
    assert order[..|order|] == order;
    return b;
  }

  lemma Parts(b: seq<Byte>, key: Text, value: Text)
    ensures b + key + [SEPARATOR] + value + [SEPARATOR] == b + Pair(key, value)
  {
  }

  // ---- which labels are fed ----

  // The labels whose names the predicate selects.
  function Selected(m: LabelSet, pred: Text -> bool): LabelSet {
    map k | k in m && pred(k) :: m[k]
  }

  // The labels m in the order of their names.
  function Bytes(m: LabelSet, order: seq<Text>): seq<Byte>
    requires forall k :: k in order ==> k in m
  {
    if order == [] then []
    else Pair(order[0], m[order[0]]) + Bytes(m, order[1..])
  }

  predicate Lists(order: seq<Text>, m: LabelSet) {
    Ascending(order) && (forall k :: k in order ==> k in m) && forall k :: k in m ==> k in order
  }

  // fed are the bytes of the labels m, each name and value ended by a separator.
  ghost predicate Feeds(m: LabelSet, fed: seq<Byte>) {
    exists order :: Lists(order, m) && fed == Bytes(m, order)
  }

  lemma {:induction false} BytesSnoc(m: LabelSet, order: seq<Text>, k: Text)
    requires k in m && forall x :: x in order ==> x in m
    ensures Bytes(m, order + [k]) == Bytes(m, order) + Pair(k, m[k])
  {
    hide Pair;
    if order == [] {
      assert (order + [k])[1..] == [];
    } else {
      assert (order + [k])[1..] == order[1..] + [k];
      BytesSnoc(m, order[1..], k);
    }
  }

  lemma {:induction false} EncodeBytes(t: Target, m: LabelSet, order: seq<Text>)
    requires forall k :: k in order ==> k in m && Get(t, k) == Some(m[k])
    ensures Encode(t, order) == Bytes(m, order)
    decreases |order|
  {
    hide Pair;
    if order != [] {
      var front, k := order[..|order| - 1], order[|order| - 1];
      EncodeBytes(t, m, front);
      BytesSnoc(m, front, k);
      assert front + [k] == order;
    }
  }

  // The names a predicate selects, in the order they are visited.
  function Filter(keys: seq<Text>, pred: Text -> bool): (r: seq<Text>)
    ensures forall k :: k in r <==> k in keys && pred(k)
  {
    if keys == [] then [] else (if pred(keys[0]) then [keys[0]] else []) + Filter(keys[1..], pred)
  }

  lemma {:induction false} FilterDistinct(keys: seq<Text>, pred: Text -> bool)
    requires Distinct(keys)
    ensures Distinct(Filter(keys, pred))
  {
    if keys != [] {
      FilterDistinct(keys[1..], pred);
      var r := Filter(keys[1..], pred);
      forall j | 0 <= j < |r|
        ensures r[j] != keys[0]
      {
        assert r[j] in r;
      }
    }
  }

  // The hash of the labels that pred selects.
  method HashLabelsWithPredicate(t: Target, pred: Text -> bool) returns (fed: seq<Byte>)
    ensures Feeds(Selected(Merged(t), pred), fed)
  {
    hide Distinct, Ascending, Bytes, Encode, Merged, Filter, Sort;
    var _, keys := ForEachLabel(t, (k, v) => true);
    var labelsInOrder := SelectNames(keys, pred);
    FilterDistinct(keys, pred);
    SortAscending(labelsInOrder);
    var order := Sort(labelsInOrder);
    fed := HashLabelsInOrder(t, order);
    EncodeBytes(t, Selected(Merged(t), pred), order);
    assert Lists(order, Selected(Merged(t), pred));
  }

  method SelectNames(keys: seq<Text>, pred: Text -> bool) returns (labelsInOrder: seq<Text>)
    ensures labelsInOrder == Filter(keys, pred)
  {
    labelsInOrder := [];
    for i := 0 to |keys|
      invariant labelsInOrder == Filter(keys[..i], pred)
    {
      assert keys[..i + 1] == keys[..i] + [keys[i]];
      FilterSnoc(keys[..i], keys[i], pred);
      if pred(keys[i]) {
        labelsInOrder := labelsInOrder + [keys[i]];
      }
    }
    assert keys[..|keys|] == keys;
  }

  lemma {:induction false} FilterSnoc(keys: seq<Text>, k: Text, pred: Text -> bool)
    ensures Filter(keys + [k], pred) == Filter(keys, pred) + (if pred(k) then [k] else [])
  {
    if keys != [] {
      assert (keys + [k])[1..] == keys[1..] + [k];
      FilterSnoc(keys[1..], k, pred);
    } else {
      assert (keys + [k])[1..] == [];
    }
  }

  // ---- equal labels, equal bytes, and the converse ----

  // Names and values in UTF-8 have no byte 255.
  predicate Plain(m: LabelSet) {
    forall k :: k in m ==> SEPARATOR !in k && SEPARATOR !in m[k]
  }

  lemma HeadOf(a: Text, x: seq<Byte>)
    requires SEPARATOR !in a
    ensures var s := a + [SEPARATOR] + x;
            if a == [] then s[0] == SEPARATOR && s[1..] == x
            else s[0] == a[0] && s[0] != SEPARATOR && s[1..] == a[1..] + [SEPARATOR] + x
  {
    if a != [] {
      assert a[0] in a;
    }
  }

  // Text up to the first separator can be told.
  lemma {:induction false} SplitFirst(a: Text, x: seq<Byte>, b: Text, y: seq<Byte>)
    requires SEPARATOR !in a && SEPARATOR !in b && a + [SEPARATOR] + x == b + [SEPARATOR] + y
    ensures a == b && x == y
  {
    HeadOf(a, x);
    HeadOf(b, y);
    if a != [] {
      assert forall c :: c in a[1..] ==> c in a;
      assert forall c :: c in b[1..] ==> c in b;
      SplitFirst(a[1..], x, b[1..], y);
      assert a == [a[0]] + a[1..] && b == [b[0]] + b[1..];
    }
  }

  lemma PairHead(k: Text, v: Text, rest: seq<Byte>)
    ensures Pair(k, v) + rest == k + [SEPARATOR] + (v + [SEPARATOR] + rest)
  {
  }

  // The bytes tell names and values.
  lemma {:induction false} BytesTell(m: LabelSet, o: seq<Text>, n: LabelSet, p: seq<Text>)
    requires Plain(m) && Plain(n) && (forall k :: k in o ==> k in m) && forall k :: k in p ==> k in n
    requires Bytes(m, o) == Bytes(n, p)
    ensures o == p && forall k :: k in o ==> m[k] == n[k]
    decreases |o|
  {
    NoBytes(m, o);
    NoBytes(n, p);
    if o != [] {
      var k, l, x, y := o[0], p[0], Bytes(m, o[1..]), Bytes(n, p[1..]);
      PairHead(k, m[k], x);
      PairHead(l, n[l], y);
      hide Pair, Bytes;
      SplitFirst(k, m[k] + [SEPARATOR] + x, l, n[l] + [SEPARATOR] + y);
      SplitFirst(m[k], x, n[l], y);
      BytesTell(m, o[1..], n, p[1..]);
      assert o == [k] + o[1..] && p == [l] + p[1..];
    }
  }

  lemma NoBytes(m: LabelSet, o: seq<Text>)
    requires forall k :: k in o ==> k in m
    ensures Bytes(m, o) == [] <==> o == []
  {
  }

  // Labels have one byte sequence, whatever the target they are part of; and if
  // no label holds a separator, other labels have another.
  lemma FeedsDecide(m: LabelSet, n: LabelSet, fed: seq<Byte>, fed': seq<Byte>)
    requires Feeds(m, fed) && Feeds(n, fed')
    ensures m == n ==> fed == fed'
    ensures Plain(m) && Plain(n) ==> (fed == fed' <==> m == n)
  {
    hide Bytes, Ascending;
    var o :| Lists(o, m) && fed == Bytes(m, o);
    var p :| Lists(p, n) && fed' == Bytes(n, p);
    if m == n {
      OneOrder(o, p);
    }
    if Plain(m) && Plain(n) && fed == fed' {
      BytesTell(m, o, n, p);
      assert m.Keys == n.Keys;
    }
  }
}
