// target.go: a target's labels in two layers, its own over those of its group.
module Targets {

  newtype Byte = x: int | 0 <= x < 256

  type Text = seq<Byte>

  type LabelSet = map<Text, Text>

  datatype Option<+T> = None | Some(value: T)

  // size is the number of labels of the two layers together.
  datatype Target = Target(group: LabelSet, own: LabelSet, size: nat)

  // The labels of a target as one map.
  function Merged(t: Target): LabelSet {
    t.group + t.own
  }

  predicate Valid(t: Target) {
    t.size == |Merged(t)|
  }

  // What lookup is in one map.
  function Find(m: LabelSet, key: Text): Option<Text> {
    if key in m then Some(m[key]) else None
  }

  function Get(t: Target, key: Text): (r: Option<Text>)
    ensures r == Find(Merged(t), key)
  {
    if key in t.own then Some(t.own[key])
    else if key in t.group then Some(t.group[key])
    else None
  }

  predicate Distinct(keys: seq<Text>) {
    forall i, j :: 0 <= i < j < |keys| ==> keys[i] != keys[j]
  }

  // Keys visited so far: each once, and f held of all but perhaps the last.
  ghost predicate Visited(t: Target, f: (Text, Text) -> bool, keys: seq<Text>, done: set<Text>) {
    && Distinct(keys) && (forall k :: k in done <==> k in keys) && done <= Merged(t).Keys
    && forall k :: k in done ==> f(k, Merged(t)[k])
  }

  lemma VisitOne(t: Target, f: (Text, Text) -> bool, keys: seq<Text>, done: set<Text>, k: Text)
    requires Visited(t, f, keys, done) && k in Merged(t) && k !in done && f(k, Merged(t)[k])
    ensures Visited(t, f, keys + [k], done + {k})
  {
  }

  lemma MergedAt(t: Target, k: Text)
    ensures k in t.own ==> k in Merged(t) && Merged(t)[k] == t.own[k]
    ensures k in t.group && k !in t.own ==> k in Merged(t) && Merged(t)[k] == t.group[k]
  {
  }

  lemma MergedKeys(t: Target)
    ensures Merged(t).Keys == t.own.Keys + t.group.Keys
  {
  }

  // Calls f on the labels of t, own labels first, until it returns false.
  // finished says that it never did; then keys are all labels, each once.
  method ForEachLabel(t: Target, f: (Text, Text) -> bool) returns (finished: bool, keys: seq<Text>)
    ensures finished <==> forall k :: k in Merged(t) ==> f(k, Merged(t)[k])
    ensures finished ==> Distinct(keys) && |keys| == |Merged(t)| && forall k :: k in keys <==> k in Merged(t)
  {
    hide Distinct, Visited, Merged;
    MergedKeys(t);
    finished, keys := ForEachOwn(t, f);
    if finished {
      finished, keys := ForEachGroup(t, f, keys);
    }
    if finished {
      AllVisited(t, f, keys, t.own.Keys + t.group.Keys);
    }
  }

  method ForEachOwn(t: Target, f: (Text, Text) -> bool) returns (finished: bool, keys: seq<Text>)
    ensures finished ==> Visited(t, f, keys, t.own.Keys)
    ensures !finished ==> exists k :: k in Merged(t) && !f(k, Merged(t)[k])
  {
    hide Distinct, Visited, Merged;
    keys := [];
    NoneVisited(t, f);
    var rest := t.own.Keys;
    assert t.own.Keys - rest == {};
    while rest != {}
      invariant rest <= t.own.Keys && Visited(t, f, keys, t.own.Keys - rest)
    {
      var k :| k in rest;
      ghost var done := t.own.Keys - rest;
      rest := rest - {k};
      MergedAt(t, k);
      if !f(k, t.own[k]) {
        return false, keys;
      }
      VisitOne(t, f, keys, done, k);
      assert done + {k} == t.own.Keys - rest;
      keys := keys + [k];
    }
    assert t.own.Keys - rest == t.own.Keys;
    finished := true;
  }

  // The labels of the group, unless the target has its own.
  method ForEachGroup(t: Target, f: (Text, Text) -> bool, own: seq<Text>) returns (finished: bool, keys: seq<Text>)
    requires Visited(t, f, own, t.own.Keys)
    ensures finished ==> Visited(t, f, keys, t.own.Keys + t.group.Keys)
    ensures !finished ==> exists k :: k in Merged(t) && !f(k, Merged(t)[k])
  {
    hide Distinct, Visited, Merged;
    keys := own;
    var rest := t.group.Keys;
    assert t.own.Keys + (t.group.Keys - rest) == t.own.Keys;
    while rest != {}
      invariant rest <= t.group.Keys && Visited(t, f, keys, t.own.Keys + (t.group.Keys - rest))
    {
      var k :| k in rest;
      ghost var done := t.own.Keys + (t.group.Keys - rest);
      rest := rest - {k};
      MergedAt(t, k);
      assert done + {k} == t.own.Keys + (t.group.Keys - rest);
      if k in t.own {
        assert done + {k} == done;
        continue;
      }
      if !f(k, t.group[k]) {
        return false, keys;
      }
      VisitOne(t, f, keys, done, k);
      keys := keys + [k];
    }
    assert t.group.Keys - rest == t.group.Keys;
    finished := true;
  }

  lemma NoneVisited(t: Target, f: (Text, Text) -> bool)
    ensures Visited(t, f, [], {})
  {
  }

  lemma AllVisited(t: Target, f: (Text, Text) -> bool, keys: seq<Text>, done: set<Text>)
    requires Visited(t, f, keys, done) && done == Merged(t).Keys
    ensures Distinct(keys) && |keys| == |Merged(t)| && forall k :: k in keys <==> k in Merged(t)
    ensures forall k :: k in Merged(t) ==> f(k, Merged(t)[k])
  {
    DistinctSize(keys, done);
  }

  lemma {:induction false} DistinctSize(keys: seq<Text>, s: set<Text>)
    requires Distinct(keys) && forall k :: k in s <==> k in keys
    ensures |keys| == |s|
    decreases |keys|
  {
    if keys != [] {
      var n := |keys| - 1;
      assert keys == keys[..n] + [keys[n]];
      assert forall k :: k in s - {keys[n]} <==> k in keys[..n];
      DistinctSize(keys[..n], s - {keys[n]});
    } else {
      assert s == {};
    }
  }

  method NewTarget(own: LabelSet, group: LabelSet) returns (t: Target)
    ensures Valid(t) && t.own == own && t.group == group
  {
    t := Target(group, own, 0);
    var _, keys := ForEachLabel(t, (k, v) => true);
    t := t.(size := |keys|);
  }

  // The merged labels, copied layer by layer.
  method LabelSetOf(t: Target) returns (merged: LabelSet)
    ensures merged == Merged(t)
  {
    merged := map[];
    var rest := t.group.Keys;
    while rest != {}
      invariant rest <= t.group.Keys && merged == (map k | k in t.group.Keys - rest :: t.group[k])
    {
      var k :| k in rest;
      merged := merged[k := t.group[k]];
      rest := rest - {k};
    }
    assert merged == t.group;
    rest := t.own.Keys;
    while rest != {}
      invariant rest <= t.own.Keys && merged == t.group + (map k | k in t.own.Keys - rest :: t.own[k])
    {
      var k :| k in rest;
      merged := merged[k := t.own[k]];
      rest := rest - {k};
    }
    assert (map k | k in t.own.Keys - rest :: t.own[k]) == t.own;
  }

  // Maps of one size are equal if one is part of the other.
  lemma PartOf(a: LabelSet, b: LabelSet)
    requires |a| == |b| && forall k :: k in a ==> k in b && b[k] == a[k]
    ensures a == b
  {
    assert a.Keys <= b.Keys;
    SameSize(a.Keys, b.Keys);
  }

  lemma SameSize(a: set<Text>, b: set<Text>)
    requires a <= b && |a| == |b|
    ensures a == b
  {
    assert |b - a| == 0;
  }

  // Targets are equal exactly if their labels are, however they are layered.
  method EqualsTarget(t: Target, other: Target) returns (equal: bool)
    requires Valid(t) && Valid(other)
    ensures equal <==> Merged(t) == Merged(other)
  {
    if t.size != other.size {
      return false;
    }
    var finished, _ := ForEachLabel(t, (k, v) => Get(other, k) == Some(v));
    equal := finished;
    if equal {
      PartOf(Merged(t), Merged(other));
    }
  }
}
