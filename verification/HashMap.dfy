// hash_map.go: a set of tasks, up to equality, in buckets by hash.
module HashMaps {

  // A task: two with one hash are equal if their keys are. What sets equal
  // tasks apart is the payload.
  datatype Task = Task(hash: nat, key: nat, payload: nat)

  // What the map tells apart. Equal hashes do not make tasks equal.
  datatype Class = Class(hash: nat, key: nat)

  function ClassOf(t: Task): Class {
    Class(t.hash, t.key)
  }

  // Task.Equals, which is asked only for tasks of one hash.
  predicate Equals(a: Task, b: Task)
    requires a.hash == b.hash
  {
    a.key == b.key
  }

  datatype Option<+T> = None | Some(value: T)

  type Buckets = map<nat, seq<Task>>

  predicate Hashed(h: nat, b: seq<Task>) {
    forall t :: t in b ==> t.hash == h
  }

  predicate Distinct(b: seq<Task>) {
    forall i, j :: 0 <= i < j < |b| ==> b[i].key != b[j].key
  }

  // Buckets hold their own hash, no equal tasks, and are not empty.
  predicate Proper(m: Buckets) {
    forall h :: h in m ==> m[h] != [] && Hashed(h, m[h]) && Distinct(m[h])
  }

  // The task of a bucket with that key.
  function Find(b: seq<Task>, key: nat): (r: Option<Task>)
    ensures r.Some? ==> r.value in b && r.value.key == key
    ensures r.None? ==> forall t :: t in b ==> t.key != key
  {
    if b == [] then None else if b[0].key == key then Some(b[0]) else Find(b[1..], key)
  }

  function BucketOf(m: Buckets, h: nat): seq<Task> {
    if h in m then m[h] else []
  }

  function Lookup(m: Buckets, c: Class): Option<Task> {
    Find(BucketOf(m, c.hash), c.key)
  }

  function Classes(m: Buckets): set<Class> {
    set h, t | h in m && t in m[h] :: ClassOf(t)
  }

  lemma ClassIn(m: Buckets, c: Class)
    requires Proper(m)
    ensures c in Classes(m) <==> Lookup(m, c).Some?
    ensures Lookup(m, c).Some? ==> ClassOf(Lookup(m, c).value) == c
  {
    hide Distinct;
    if c in Classes(m) {
      var h, t :| h in m && t in m[h] && ClassOf(t) == c;
      assert Hashed(h, m[h]);
    }
    if Lookup(m, c).Some? {
      var t := Lookup(m, c).value;
      assert Hashed(c.hash, m[c.hash]) && ClassOf(t) == c;
    }
  }

  // The map as a map: one task for every class.
  function Contents(m: Buckets): (r: map<Class, Task>)
    requires Proper(m)
    ensures r.Keys == Classes(m)
  {
    assert forall c :: c in Classes(m) ==> Lookup(m, c).Some? by {
      forall c | c in Classes(m)
        ensures Lookup(m, c).Some?
      {
        ClassIn(m, c);
      }
    }
    map c | c in Classes(m) :: Lookup(m, c).value
  }

  lemma ContentsAt(m: Buckets, c: Class)
    requires Proper(m)
    ensures c in Contents(m) <==> Lookup(m, c).Some?
    ensures c in Contents(m) ==> Contents(m)[c] == Lookup(m, c).value && ClassOf(Contents(m)[c]) == c
  {
    ClassIn(m, c);
  }

  // A bucket given the tasks b, or removed if there are none.
  function WithBucket(m: Buckets, h: nat, b: seq<Task>): Buckets {
    if b == [] then m - {h} else m[h := b]
  }

  lemma {:induction false} FindAppend(b: seq<Task>, t: Task, key: nat)
    ensures Find(b + [t], key) == if Find(b, key).Some? then Find(b, key) else if t.key == key then Some(t) else None
  {
    if b != [] {
      assert (b + [t])[1..] == b[1..] + [t];
      FindAppend(b[1..], t, key);
    } else {
      assert (b + [t])[1..] == [];
    }
  }

  // What each class has in n decides its contents.
  lemma SameContents(n: Buckets, r: map<Class, Task>)
    requires Proper(n)
    requires forall c :: Lookup(n, c) == if c in r then Some(r[c]) else None
    ensures Contents(n) == r
  {
    hide Proper, Lookup, Classes, Contents;
    forall c: Class
      ensures c in Contents(n) <==> c in r
      ensures c in Contents(n) ==> Contents(n)[c] == r[c]
    {
      ContentsAt(n, c);
    }
  }

  lemma AddKeeps(m: Buckets, t: Task)
    requires Proper(m) && ClassOf(t) !in Contents(m)
    ensures var n := m[t.hash := BucketOf(m, t.hash) + [t]]; Proper(n) && Contents(n) == Contents(m)[ClassOf(t) := t]
  {
    hide Contents, Classes;
    var b := BucketOf(m, t.hash);
    var n := m[t.hash := b + [t]];
    ContentsAt(m, ClassOf(t));
    assert Proper(n);
    hide Proper;
    forall c: Class
      ensures Lookup(n, c) == if c in Contents(m)[ClassOf(t) := t] then Some(Contents(m)[ClassOf(t) := t][c]) else None
    {
      ContentsAt(m, c);
      FindAppend(b, t, c.key);
    }
    SameContents(n, Contents(m)[ClassOf(t) := t]);
  }

  // The tasks of a bucket that are not equal to a task with key.
  function Others(b: seq<Task>, key: nat): (r: seq<Task>)
    ensures forall x :: x in r <==> x in b && x.key != key
  {
    if b == [] then [] else (if b[0].key == key then [] else [b[0]]) + Others(b[1..], key)
  }

  lemma {:induction false} OthersSnoc(b: seq<Task>, t: Task, key: nat)
    ensures Others(b + [t], key) == Others(b, key) + (if t.key == key then [] else [t])
  {
    if b != [] {
      assert (b + [t])[1..] == b[1..] + [t];
      OthersSnoc(b[1..], t, key);
    } else {
      assert (b + [t])[1..] == [];
    }
  }

  lemma {:induction false} OthersDistinct(b: seq<Task>, key: nat)
    requires Distinct(b)
    ensures Distinct(Others(b, key))
  {
    if b != [] {
      OthersDistinct(b[1..], key);
      var r := Others(b[1..], key);
      forall j | 0 <= j < |r|
        ensures r[j].key != b[0].key
      {
        assert r[j] in r;
      }
    }
  }

  lemma {:induction false} FindOthers(b: seq<Task>, key: nat, k: nat)
    ensures Find(Others(b, key), k) == if k == key then None else Find(b, k)
  {
    if b != [] {
      FindOthers(b[1..], key, k);
      if b[0].key != key {
        assert Others(b, key)[1..] == Others(b[1..], key);
      } else {
        assert Others(b, key) == Others(b[1..], key);
      }
    }
  }

  lemma DeleteKeeps(m: Buckets, t: Task)
    requires Proper(m)
    ensures var n := WithBucket(m, t.hash, Others(BucketOf(m, t.hash), t.key));
            Proper(n) && Contents(n) == Contents(m) - {ClassOf(t)}
  {
    hide Contents, Classes;
    var b := BucketOf(m, t.hash);
    var n := WithBucket(m, t.hash, Others(b, t.key));
    OthersDistinct(b, t.key);
    assert Proper(n);
    hide Proper;
    forall c: Class
      ensures Lookup(n, c) == if c in Contents(m) - {ClassOf(t)} then Some((Contents(m) - {ClassOf(t)})[c]) else None
    {
      ContentsAt(m, c);
      FindOthers(b, t.key, c.key);
    }
    SameContents(n, Contents(m) - {ClassOf(t)});
  }

  lemma {:induction false} FindIn(b: seq<Task>, t: Task)
    requires Distinct(b) && t in b
    ensures Find(b, t.key) == Some(t)
  {
    if b[0] != t {
      assert t in b[1..];
      FindIn(b[1..], t);
    }
  }

  lemma NoOthers(key: nat)
    ensures Others([], key) == []
  {
  }

  lemma BucketHashed(m: Buckets, h: nat)
    requires Proper(m)
    ensures Hashed(h, BucketOf(m, h))
  {
  }

  lemma FoundBy(b: seq<Task>, key: nat)
    ensures Find(b, key).Some? <==> exists j :: 0 <= j < |b| && b[j].key == key
  {
  }

  class HashMap {
    var lookup: Buckets

    ghost predicate Valid()
      reads this
    {
      Proper(lookup)
    }

    constructor ()
      ensures Valid() && Contents(lookup) == map[]
    {
      lookup := map[];
    }

    // false if an equal task is there already, which then stays.
    method Add(t: Task) returns (added: bool)
      requires Valid()
      modifies this
      ensures Valid() && added == (ClassOf(t) !in old(Contents(lookup)))
      ensures Contents(lookup) == if added then old(Contents(lookup))[ClassOf(t) := t] else old(Contents(lookup))
    {
      hide Contents, Classes;
      var bucket := BucketOf(lookup, t.hash);
      ContentsAt(lookup, ClassOf(t));
      for i := 0 to |bucket|
        invariant forall j :: 0 <= j < i ==> bucket[j].key != t.key
      {
        if Equals(bucket[i], t) {
          return false;
        }
      }
      AddKeeps(lookup, t);
      lookup := lookup[t.hash := bucket + [t]];
      added := true;
    }

    method Has(t: Task) returns (found: bool)
      requires Valid()
      ensures found == (ClassOf(t) in Contents(lookup))
    {
      hide Contents, Classes;
      var bucket := BucketOf(lookup, t.hash);
      ContentsAt(lookup, ClassOf(t));
      for i := 0 to |bucket|
        invariant forall j :: 0 <= j < i ==> bucket[j].key != t.key
      {
        if Equals(bucket[i], t) {
          return true;
        }
      }
      return false;
    }

    method Delete(t: Task) returns (deleted: bool)
      requires Valid()
      modifies this
      ensures Valid() && deleted == (ClassOf(t) in old(Contents(lookup)))
      ensures Contents(lookup) == old(Contents(lookup)) - {ClassOf(t)}
    {
      hide Contents, Classes, Proper, Others, Find;
      var bucket := BucketOf(lookup, t.hash);
      ContentsAt(lookup, ClassOf(t));
      DeleteKeeps(lookup, t);
      NoOthers(t.key);
      BucketHashed(lookup, t.hash);
      var remaining := [];
      deleted := false;
      for i := 0 to |bucket|
        invariant lookup == old(lookup) && remaining == Others(bucket[..i], t.key)
        invariant deleted <==> exists j :: 0 <= j < i && bucket[j].key == t.key
      {
        assert bucket[..i + 1] == bucket[..i] + [bucket[i]];
        OthersSnoc(bucket[..i], bucket[i], t.key);
        if Equals(bucket[i], t) {
          deleted := true;
        } else {
          remaining := remaining + [bucket[i]];
        }
      }
      assert bucket[..|bucket|] == bucket;
      FoundBy(bucket, t.key);
      if |remaining| == 0 {
        lookup := lookup - {t.hash};
      } else {
        lookup := lookup[t.hash := remaining];
      }
    }

    // Every task once, bucket after bucket, the buckets in any order.
    method Iterate() returns (tasks: seq<Task>)
      requires Valid()
      ensures forall i, j :: 0 <= i < j < |tasks| ==> ClassOf(tasks[i]) != ClassOf(tasks[j])
      ensures forall t :: t in tasks <==> ClassOf(t) in Contents(lookup) && Contents(lookup)[ClassOf(t)] == t
    {
      hide Contents, Classes;
      tasks := [];
      var rest := lookup.Keys;
      while rest != {}
        invariant rest <= lookup.Keys
        invariant forall i, j :: 0 <= i < j < |tasks| ==> ClassOf(tasks[i]) != ClassOf(tasks[j])
        invariant forall t :: t in tasks <==> t.hash in lookup.Keys - rest && t in lookup[t.hash]
      {
        var h :| h in rest;
        assert Hashed(h, lookup[h]) && Distinct(lookup[h]);
        tasks := tasks + lookup[h];
        rest := rest - {h};
      }
      forall t: Task
        ensures t in tasks <==> ClassOf(t) in Contents(lookup) && Contents(lookup)[ClassOf(t)] == t
      {
        ContentsAt(lookup, ClassOf(t));
        if t in tasks {
          FindIn(lookup[t.hash], t);
        }
      }
    }
  }
}
