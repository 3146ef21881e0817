// target.go and discovery.go: targets put into groups with common labels, and
// taken out of them again. The fingerprint of a target's group can be any
// function: targets that collide come out whole, in a group of their own.
module TargetGroups {
  import opened Targets

  datatype Group = Group(source: string, labels: LabelSet, targets: seq<LabelSet>)

  // ---- names of groups ----

  function Digit(d: nat): char
    requires d < 10
  {
    "0123456789"[d]
  }

  function Decimal(n: nat): (s: string)
    ensures s != "" && forall i :: 0 <= i < |s| ==> '0' <= s[i] <= '9'
  {
    if n < 10 then [Digit(n)] else Decimal(n / 10) + [Digit(n % 10)]
  }

  lemma {:induction false} DecimalTells(a: nat, b: nat)
    requires Decimal(a) == Decimal(b)
    ensures a == b
    decreases a
  {
    var s := Decimal(a);
    LastDigit(a);
    LastDigit(b);
    if |s| > 1 {
      DecimalTells(a / 10, b / 10);
    }
  }

  lemma LastDigit(n: nat)
    ensures var s := Decimal(n);
            && s[|s| - 1] == Digit(n % 10) && (|s| == 1 <==> n < 10) && (n >= 10 ==> s[..|s| - 1] == Decimal(n / 10))
    ensures forall d :: 0 <= d < 10 && Digit(d) == Digit(n % 10) ==> d == n % 10
  {
  }

  function PartSource(jobName: string, hash: nat): string {
    jobName + "_part_" + Decimal(hash)
  }

  function RestSource(jobName: string): string {
    jobName + "_rest"
  }

  lemma SourcesTell(jobName: string, a: nat, b: nat)
    ensures PartSource(jobName, a) == PartSource(jobName, b) ==> a == b
    ensures PartSource(jobName, a) != RestSource(jobName)
  {
    var s, n := PartSource(jobName, a), |jobName|;
    assert s[n + 1] == 'p' && RestSource(jobName)[n + 1] == 'r';
    if s == PartSource(jobName, b) {
      assert s[n + 6..] == Decimal(a);
      assert PartSource(jobName, b)[n + 6..] == Decimal(b);
      DecimalTells(a, b);
    }
  }

  // ---- the labels of targets and groups, counted ----

  function All(tgs: seq<Target>): multiset<LabelSet> {
    if tgs == [] then multiset{} else All(tgs[..|tgs| - 1]) + multiset{Merged(tgs[|tgs| - 1])}
  }

  function Over(labels: LabelSet, targets: seq<LabelSet>): multiset<LabelSet> {
    if targets == [] then multiset{}
    else Over(labels, targets[..|targets| - 1]) + multiset{labels + targets[|targets| - 1]}
  }

  function Total(groups: seq<Group>): multiset<LabelSet> {
    if groups == [] then multiset{}
    else Total(groups[..|groups| - 1]) + Over(groups[|groups| - 1].labels, groups[|groups| - 1].targets)
  }

  // The targets with a fingerprint.
  function WithHash(tgs: seq<Target>, fp: Target -> nat, hash: nat): seq<Target> {
    if tgs == [] then []
    else
      WithHash(tgs[..|tgs| - 1], fp, hash) +
      (if fp(tgs[|tgs| - 1]) == hash then [tgs[|tgs| - 1]] else [])
  }

  lemma {:induction false} WithHashHolds(tgs: seq<Target>, fp: Target -> nat, hash: nat)
    ensures forall t :: t in WithHash(tgs, fp, hash) <==> t in tgs && fp(t) == hash
    decreases |tgs|
  {
    if tgs != [] {
      WithHashHolds(tgs[..|tgs| - 1], fp, hash);
      assert tgs == tgs[..|tgs| - 1] + [tgs[|tgs| - 1]];
    }
  }

  function ByHash(tgs: seq<Target>, fp: Target -> nat, hashes: seq<nat>): multiset<LabelSet> {
    if hashes == [] then multiset{}
    else ByHash(tgs, fp, hashes[..|hashes| - 1]) + All(WithHash(tgs, fp, hashes[|hashes| - 1]))
  }

  predicate NoTwice<T(==)>(s: seq<T>) {
    forall i, j :: 0 <= i < j < |s| ==> s[i] != s[j]
  }

  lemma {:induction false} AllSnoc(tgs: seq<Target>, t: Target)
    ensures All(tgs + [t]) == All(tgs) + multiset{Merged(t)}
  {
    assert (tgs + [t])[..|tgs|] == tgs;
  }

  lemma OverSnoc(labels: LabelSet, targets: seq<LabelSet>, own: LabelSet)
    ensures Over(labels, targets + [own]) == Over(labels, targets) + multiset{labels + own}
  {
    assert (targets + [own])[..|targets|] == targets;
  }

  lemma TotalSnoc(groups: seq<Group>, g: Group)
    ensures Total(groups + [g]) == Total(groups) + Over(g.labels, g.targets)
  {
    assert (groups + [g])[..|groups|] == groups;
  }

  lemma WithHashSnoc(tgs: seq<Target>, t: Target, fp: Target -> nat, h: nat)
    ensures WithHash(tgs + [t], fp, h) == WithHash(tgs, fp, h) + (if fp(t) == h then [t] else [])
    ensures All(WithHash(tgs + [t], fp, h)) ==
            All(WithHash(tgs, fp, h)) + (if fp(t) == h then multiset{Merged(t)} else multiset{})
  {
    hide All, Merged;
    assert (tgs + [t])[..|tgs|] == tgs;
    if fp(t) == h {
      AllSnoc(WithHash(tgs, fp, h), t);
    } else {
      assert WithHash(tgs, fp, h) + [] == WithHash(tgs, fp, h);
    }
  }

  // A target more counts for its own fingerprint.
  lemma {:induction false} ByHashSnoc(tgs: seq<Target>, t: Target, fp: Target -> nat, hashes: seq<nat>)
    requires NoTwice(hashes)
    ensures ByHash(tgs + [t], fp, hashes)
            == ByHash(tgs, fp, hashes) + (if fp(t) in hashes then multiset{Merged(t)} else multiset{})
    decreases |hashes|
  {
    hide All, Merged, WithHash;
    if hashes != [] {
      var front, h := hashes[..|hashes| - 1], hashes[|hashes| - 1];
      ByHashSnoc(tgs, t, fp, front);
      WithHashSnoc(tgs, t, fp, h);
      assert hashes == front + [h] && h !in front;
    }
  }

  lemma {:induction false} NoneByHash(fp: Target -> nat, hashes: seq<nat>)
    ensures ByHash([], fp, hashes) == multiset{}
    decreases |hashes|
  {
    if hashes != [] {
      NoneByHash(fp, hashes[..|hashes| - 1]);
    }
  }

  // Counted by fingerprints, every target counts once.
  lemma {:induction false} ByHashAll(tgs: seq<Target>, fp: Target -> nat, hashes: seq<nat>)
    requires NoTwice(hashes) && forall t :: t in tgs ==> fp(t) in hashes
    ensures ByHash(tgs, fp, hashes) == All(tgs)
    decreases |tgs|
  {
    if tgs == [] {
      NoneByHash(fp, hashes);
    } else {
      var front, t := tgs[..|tgs| - 1], tgs[|tgs| - 1];
      assert tgs == front + [t];
      ByHashAll(front, fp, hashes);
      ByHashSnoc(front, t, fp, hashes);
    }
  }

  // ---- grouping ----

  lemma SortedSnoc(sorted: seq<nat>, x: nat)
    requires (forall i, j :: 0 <= i < j < |sorted| ==> sorted[i] < sorted[j]) && forall k :: k in sorted ==> k < x
    ensures var r := sorted + [x]; forall i, j :: 0 <= i < j < |r| ==> r[i] < r[j]
  {
    assert forall i :: 0 <= i < |sorted| ==> sorted[i] in sorted;
  }

  lemma NothingTwice()
    ensures NoTwice<string>([])
  {
  }

  lemma NoTwiceSnoc(order: seq<string>, s: string)
    requires NoTwice(order) && s !in order
    ensures NoTwice(order + [s])
  {
    assert forall i :: 0 <= i < |order| ==> order[i] in order;
  }

  // maps.Keys and slices.Sort.
  method SortedKeys(keys: set<nat>) returns (sorted: seq<nat>)
    ensures NoTwice(sorted) && forall k :: k in sorted <==> k in keys
    ensures forall i, j :: 0 <= i < j < |sorted| ==> sorted[i] < sorted[j]
  {
    sorted := [];
    var rest := keys;
    while rest != {}
      invariant rest <= keys && (forall k :: k in sorted <==> k in keys - rest)
      invariant forall i, j :: 0 <= i < j < |sorted| ==> sorted[i] < sorted[j]
      invariant forall x, k :: x in sorted && k in rest ==> x < k
    {
      var least := Least(rest);
      SortedSnoc(sorted, least);
      sorted := sorted + [least];
      rest := rest - {least};
    }
  }

  method Least(s: set<nat>) returns (least: nat)
    requires s != {}
    ensures least in s && forall k :: k in s ==> least <= k
  {
    least :| least in s;
    var seen := {least};
    while seen != s
      invariant seen <= s && least in s && forall k :: k in seen ==> least <= k
      decreases s - seen
    {
      assert s == seen + (s - seen);
      var k :| k in s - seen;
      if k < least {
        least := k;
      }
      seen := seen + {k};
    }
  }

  // Targets by fingerprint, in their order.
  method Bucketed(tgs: seq<Target>, fp: Target -> nat) returns (buckets: map<nat, seq<Target>>)
    ensures forall t :: t in tgs ==> fp(t) in buckets
    ensures forall h :: h in buckets ==> buckets[h] == WithHash(tgs, fp, h) && buckets[h] != []
  {
    buckets := map[];
    for i := 0 to |tgs|
      invariant forall t :: t in tgs[..i] ==> fp(t) in buckets
      invariant forall h :: h in buckets ==> buckets[h] != []
      invariant forall h :: WithHash(tgs[..i], fp, h) == if h in buckets then buckets[h] else []
    {
      var h := fp(tgs[i]);
      assert tgs[..i + 1] == tgs[..i] + [tgs[i]] && tgs[..i + 1][..i] == tgs[..i];
      buckets := buckets[h := (if h in buckets then buckets[h] else []) + [tgs[i]]];
    }
    assert tgs[..|tgs|] == tgs;
  }

  lemma AddOwn(t: Target, shared: LabelSet, individual: seq<LabelSet>, conflicts: seq<LabelSet>, done: seq<Target>)
    requires shared == t.group && Over(shared, individual) + Over(map[], conflicts) == All(done)
    ensures Over(shared, individual + [t.own]) + Over(map[], conflicts) == All(done + [t])
  {
    hide Over, All;
    AllSnoc(done, t);
    OverSnoc(shared, individual, t.own);
  }

  lemma AddMerged(t: Target, shared: LabelSet, individual: seq<LabelSet>, conflicts: seq<LabelSet>, done: seq<Target>)
    requires Over(shared, individual) + Over(map[], conflicts) == All(done)
    ensures Over(shared, individual) + Over(map[], conflicts + [Merged(t)]) == All(done + [t])
  {
    hide Over, All, Merged;
    AllSnoc(done, t);
    OverSnoc(map[], conflicts, Merged(t));
    NoGroup(Merged(t));
  }

  lemma NoGroup(m: LabelSet)
    ensures map[] + m == m
  {
  }

  // The own labels of the targets whose group labels are labels, in their order.
  function Sharing(bucket: seq<Target>, labels: LabelSet): (r: seq<LabelSet>)
    ensures forall o :: o in r <==> exists t :: t in bucket && t.group == labels && t.own == o
  {
    if bucket == [] then []
    else
      var front, t := bucket[..|bucket| - 1], bucket[|bucket| - 1];
      Sharing(front, labels) + (if t.group == labels then [t.own] else [])
  }

  // All labels of the others, in their order.
  function Colliding(bucket: seq<Target>, labels: LabelSet): (r: seq<LabelSet>)
    ensures forall m :: m in r <==> exists t :: t in bucket && t.group != labels && Merged(t) == m
  {
    if bucket == [] then []
    else
      var front, t := bucket[..|bucket| - 1], bucket[|bucket| - 1];
      Colliding(front, labels) + (if t.group != labels then [Merged(t)] else [])
  }

  function Owns(tgs: seq<Target>): seq<LabelSet> {
    seq(|tgs|, i requires 0 <= i < |tgs| => tgs[i].own)
  }

  // Without a collision all own labels are shared with, and nothing is left over.
  lemma {:induction false} AllSharing(bucket: seq<Target>, labels: LabelSet)
    requires forall t :: t in bucket ==> t.group == labels
    ensures Sharing(bucket, labels) == Owns(bucket) && Colliding(bucket, labels) == []
    decreases |bucket|
  {
    if bucket != [] {
      AllSharing(bucket[..|bucket| - 1], labels);
    }
  }

  // The targets of one fingerprint: those with the labels of the first share
  // them; what is left collides and is consolidated.
  method GroupOf(bucket: seq<Target>) returns (shared: LabelSet, individual: seq<LabelSet>, conflicts: seq<LabelSet>)
    requires bucket != []
    ensures Over(shared, individual) + Over(map[], conflicts) == All(bucket) && individual != []
    ensures shared == bucket[0].group
    ensures individual == Sharing(bucket, bucket[0].group) && conflicts == Colliding(bucket, bucket[0].group)
  {
    hide Over, All, Merged;
    shared := bucket[0].group;
    individual, conflicts := [], [];
    NoLabels();
    for i := 0 to |bucket|
      invariant Over(shared, individual) + Over(map[], conflicts) == All(bucket[..i]) && (i > 0 ==> individual != [])
      invariant individual == Sharing(bucket[..i], shared) && conflicts == Colliding(bucket[..i], shared)
    {
      var target := bucket[i];
      assert bucket[..i + 1] == bucket[..i] + [target] && bucket[..i + 1][..i] == bucket[..i];
      if shared != target.group {
        AddMerged(target, shared, individual, conflicts, bucket[..i]);
        var merged := LabelSetOf(target);
        conflicts := conflicts + [merged];
      } else {
        AddOwn(target, shared, individual, conflicts, bucket[..i]);
        individual := individual + [target.own];
      }
    }
    assert bucket[..|bucket|] == bucket;
  }

  lemma {:induction false} OverCat(labels: LabelSet, a: seq<LabelSet>, b: seq<LabelSet>)
    ensures Over(labels, a + b) == Over(labels, a) + Over(labels, b)
    decreases |b|
  {
    if b == [] {
      assert a + b == a;
    } else {
      var front, x := b[..|b| - 1], b[|b| - 1];
      assert a + b == a + front + [x];
      OverSnoc(labels, a + front, x);
      OverCat(labels, a, front);
    }
  }

  predicate DistinctSources(groups: seq<Group>) {
    forall i, j :: 0 <= i < j < |groups| ==> groups[i].source != groups[j].source
  }

  // The sources given so far are those of fingerprints that were done.
  predicate Named(groups: seq<Group>, jobName: string, hashes: seq<nat>) {
    |groups| == |hashes| && forall i :: 0 <= i < |groups| ==> groups[i].source == PartSource(jobName, hashes[i])
  }

  lemma NamedDistinct(groups: seq<Group>, jobName: string, hashes: seq<nat>)
    requires Named(groups, jobName, hashes) && NoTwice(hashes)
    ensures DistinctSources(groups) && forall i :: 0 <= i < |groups| ==> groups[i].source != RestSource(jobName)
  {
    hide PartSource, RestSource;
    forall i, j | 0 <= i < j < |groups|
      ensures groups[i].source != groups[j].source
    {
      SourcesTell(jobName, hashes[i], hashes[j]);
    }
    forall i | 0 <= i < |groups|
      ensures groups[i].source != RestSource(jobName)
    {
      SourcesTell(jobName, hashes[i], 0);
    }
  }

  // What one fingerprint adds.
  lemma AddBucket(groups: seq<Group>, conflicts: seq<LabelSet>, g: Group, rest: seq<LabelSet>, tgs: seq<Target>,
                  fp: Target -> nat, hashes: seq<nat>, i: nat)
    requires i < |hashes| && Total(groups) + Over(map[], conflicts) == ByHash(tgs, fp, hashes[..i])
    requires Over(g.labels, g.targets) + Over(map[], rest) == All(WithHash(tgs, fp, hashes[i]))
    ensures Total(groups + [g]) + Over(map[], conflicts + rest) == ByHash(tgs, fp, hashes[..i + 1])
  {
    hide Over, All, WithHash;
    assert hashes[..i + 1] == hashes[..i] + [hashes[i]] && hashes[..i + 1][..i] == hashes[..i];
    OverCat(map[], conflicts, rest);
    TotalSnoc(groups, g);
  }

  // The group labels of the first of some targets.
  function FirstGroup(bucket: seq<Target>): LabelSet {
    if bucket == [] then map[] else bucket[0].group
  }

  // What collides in the buckets of some fingerprints.
  function Leftovers(tgs: seq<Target>, fp: Target -> nat, hashes: seq<nat>): seq<LabelSet> {
    if hashes == [] then []
    else
      var bucket := WithHash(tgs, fp, hashes[|hashes| - 1]);
      Leftovers(tgs, fp, hashes[..|hashes| - 1]) + Colliding(bucket, FirstGroup(bucket))
  }

  // Two targets have one fingerprint and different group labels.
  ghost predicate Collides(tgs: seq<Target>, fp: Target -> nat) {
    exists t, u :: t in tgs && u in tgs && fp(t) == fp(u) && t.group != u.group
  }

  ghost predicate CollidesAt(tgs: seq<Target>, fp: Target -> nat, hash: nat) {
    exists t :: t in tgs && fp(t) == hash && t.group != FirstGroup(WithHash(tgs, fp, hash))
  }

  lemma {:induction false} LeftoversTell(tgs: seq<Target>, fp: Target -> nat, hashes: seq<nat>)
    ensures Leftovers(tgs, fp, hashes) != [] <==> exists h :: h in hashes && CollidesAt(tgs, fp, h)
    decreases |hashes|
  {
    hide WithHash;
    if hashes != [] {
      var front, h := hashes[..|hashes| - 1], hashes[|hashes| - 1];
      assert hashes == front + [h];
      LeftoversTell(tgs, fp, front);
      var bucket := WithHash(tgs, fp, h);
      var c := Colliding(bucket, FirstGroup(bucket));
      WithHashHolds(tgs, fp, h);
      if CollidesAt(tgs, fp, h) {
        var t :| t in tgs && fp(t) == h && t.group != FirstGroup(bucket);
        assert t in bucket && Merged(t) in c;
      }
      if c != [] {
        assert c[0] in c;
      }
    }
  }

  // Something is left over exactly if targets collide.
  lemma LeftoversCollide(tgs: seq<Target>, fp: Target -> nat, hashes: seq<nat>)
    requires Fingerprints(tgs, fp, hashes)
    ensures Leftovers(tgs, fp, hashes) != [] <==> Collides(tgs, fp)
  {
    hide WithHash;
    LeftoversTell(tgs, fp, hashes);
    if t, u :| t in tgs && u in tgs && fp(t) == fp(u) && t.group != u.group {
      assert CollidesAt(tgs, fp, fp(t));
    }
    if h :| h in hashes && CollidesAt(tgs, fp, h) {
      var t :| t in tgs && fp(t) == h && t.group != FirstGroup(WithHash(tgs, fp, h));
      WithHashHolds(tgs, fp, h);
      assert t in WithHash(tgs, fp, h) && WithHash(tgs, fp, h)[0] in WithHash(tgs, fp, h);
    }
  }

  // hashes are the fingerprints of the targets, ascending.
  ghost predicate Fingerprints(tgs: seq<Target>, fp: Target -> nat, hashes: seq<nat>) {
    && (forall i, j :: 0 <= i < j < |hashes| ==> hashes[i] < hashes[j])
    && (forall t :: t in tgs ==> fp(t) in hashes)
    && forall h :: h in hashes ==> exists t :: t in tgs && fp(t) == h
  }

  // The group of a fingerprint.
  function PartOfHash(jobName: string, tgs: seq<Target>, fp: Target -> nat, hash: nat): Group {
    var bucket := WithHash(tgs, fp, hash);
    Group(PartSource(jobName, hash), FirstGroup(bucket), Sharing(bucket, FirstGroup(bucket)))
  }

  function Parts(jobName: string, tgs: seq<Target>, fp: Target -> nat, hashes: seq<nat>): seq<Group> {
    seq(|hashes|, i requires 0 <= i < |hashes| => PartOfHash(jobName, tgs, fp, hashes[i]))
  }

  // Without a collision the group of a fingerprint has the group labels of each of
  // its targets, and their own labels in their order.
  lemma PartWithoutCollision(jobName: string, tgs: seq<Target>, fp: Target -> nat, hash: nat)
    requires !Collides(tgs, fp)
    ensures var g := PartOfHash(jobName, tgs, fp, hash);
            && (forall t :: t in tgs && fp(t) == hash ==> t.group == g.labels)
            && g.targets == Owns(WithHash(tgs, fp, hash))
  {
    hide WithHash, Sharing, Colliding;
    var bucket := WithHash(tgs, fp, hash);
    WithHashHolds(tgs, fp, hash);
    assert bucket != [] ==> bucket[0] in bucket;
    AllSharing(bucket, FirstGroup(bucket));
  }

  // Every target is in one group, with all its labels; no two groups have one
  // source. There is a group for each fingerprint, in ascending order, and one
  // more without common labels exactly if targets collide.
  method ToTargetGroups(jobName: string, tgs: seq<Target>, fp: Target -> nat)
    returns (groups: seq<Group>, ghost hashes: seq<nat>)
    ensures Total(groups) == All(tgs) && DistinctSources(groups)
    ensures forall i :: 0 <= i < |groups| ==> groups[i].targets != []
    ensures Fingerprints(tgs, fp, hashes)
    ensures groups == Parts(jobName, tgs, fp, hashes) +
                      if Collides(tgs, fp) then [Group(RestSource(jobName), map[], Leftovers(tgs, fp, hashes))] else []
  {
    hide All, Over, WithHash, PartSource, RestSource, ByHash, Total, Sharing, Colliding, Leftovers, Collides, Merged,
         Fingerprints, PartOfHash, Parts;
    var buckets := Bucketed(tgs, fp);
    var sortedKeys := SortedKeys(buckets.Keys);
    hashes := sortedKeys;
    KeysFingerprints(tgs, fp, buckets, hashes);
    groups := [];
    var conflicts: seq<LabelSet> := [];
    NoLabels();
    NoHashes(jobName, tgs, fp);
    for i := 0 to |sortedKeys|
      invariant groups == Parts(jobName, tgs, fp, hashes[..i])
      invariant Total(groups) + Over(map[], conflicts) == ByHash(tgs, fp, hashes[..i])
      invariant forall i :: 0 <= i < |groups| ==> groups[i].targets != []
      invariant conflicts == Leftovers(tgs, fp, hashes[..i])
    {
      var shared, individual, rest := GroupOf(buckets[sortedKeys[i]]);
      var g := Group(PartSource(jobName, sortedKeys[i]), shared, individual);
      AddBucket(groups, conflicts, g, rest, tgs, fp, hashes, i);
      AddPart(jobName, tgs, fp, hashes, i, g, rest);
      conflicts := conflicts + rest;
      if |individual| != 0 {
        groups := groups + [g];
      }
    }
    assert hashes[..|hashes|] == hashes;
    ByHashAll(tgs, fp, hashes);
    PartsNamed(jobName, tgs, fp, hashes);
    NamedDistinct(groups, jobName, hashes);
    LeftoversCollide(tgs, fp, hashes);
    if |conflicts| > 0 {
      var g := Group(RestSource(jobName), map[], conflicts);
      TotalSnoc(groups, g);
      groups := groups + [g];
    }
  }

  lemma KeysFingerprints(tgs: seq<Target>, fp: Target -> nat, buckets: map<nat, seq<Target>>, hashes: seq<nat>)
    requires forall i, j :: 0 <= i < j < |hashes| ==> hashes[i] < hashes[j]
    requires forall k :: k in hashes <==> k in buckets
    requires forall t :: t in tgs ==> fp(t) in buckets
    requires forall h :: h in buckets ==> buckets[h] == WithHash(tgs, fp, h) && buckets[h] != []
    ensures Fingerprints(tgs, fp, hashes)
  {
    hide WithHash;
    forall h | h in hashes
      ensures exists t :: t in tgs && fp(t) == h
    {
      WithHashHolds(tgs, fp, h);
      assert WithHash(tgs, fp, h)[0] in WithHash(tgs, fp, h);
    }
  }

  lemma AddPart(jobName: string, tgs: seq<Target>, fp: Target -> nat, hashes: seq<nat>, i: nat, g: Group,
                rest: seq<LabelSet>)
    requires i < |hashes| && WithHash(tgs, fp, hashes[i]) != []
    requires var bucket := WithHash(tgs, fp, hashes[i]);
             && g == Group(PartSource(jobName, hashes[i]), bucket[0].group, Sharing(bucket, bucket[0].group))
             && rest == Colliding(bucket, bucket[0].group)
    ensures Parts(jobName, tgs, fp, hashes[..i + 1]) == Parts(jobName, tgs, fp, hashes[..i]) + [g]
    ensures Leftovers(tgs, fp, hashes[..i + 1]) == Leftovers(tgs, fp, hashes[..i]) + rest
  {
    hide WithHash, Sharing, Colliding, PartSource;
    assert hashes[..i + 1][..i] == hashes[..i] && hashes[..i + 1][i] == hashes[i];
  }

  lemma PartsNamed(jobName: string, tgs: seq<Target>, fp: Target -> nat, hashes: seq<nat>)
    requires Fingerprints(tgs, fp, hashes)
    ensures Named(Parts(jobName, tgs, fp, hashes), jobName, hashes) && NoTwice(hashes)
  {
    hide PartSource;
  }

  lemma NoHashes(jobName: string, tgs: seq<Target>, fp: Target -> nat)
    ensures ByHash(tgs, fp, []) == multiset{} && Parts(jobName, tgs, fp, []) == [] && Leftovers(tgs, fp, []) == []
  {
  }

  lemma NoLabels()
    ensures Over(map[], []) == multiset{} && Total([]) == multiset{} && All([]) == multiset{}
    ensures forall labels :: Over(labels, []) == multiset{}
  {
  }

  // ---- and back ----

  // The groups of a cache in the order of some sources.
  function Picked(cache: map<string, Group>, order: seq<string>): seq<Group>
    requires forall s :: s in order ==> s in cache
  {
    if order == [] then [] else Picked(cache, order[..|order| - 1]) + [cache[order[|order| - 1]]]
  }

  predicate Orders(order: seq<string>, cache: map<string, Group>) {
    NoTwice(order) && (forall s :: s in order ==> s in cache) && forall s :: s in cache ==> s in order
  }

  lemma {:induction false} AllCat(a: seq<Target>, b: seq<Target>)
    ensures All(a + b) == All(a) + All(b)
    decreases |b|
  {
    if b == [] {
      assert a + b == a;
    } else {
      var front, x := b[..|b| - 1], b[|b| - 1];
      assert a + b == a + front + [x];
      AllSnoc(a + front, x);
      AllCat(a, front);
    }
  }

  // The targets of a group, each with its labels in both layers.
  method TargetsOf(g: Group) returns (targets: seq<Target>)
    ensures All(targets) == Over(g.labels, g.targets)
    ensures |targets| == |g.targets|
    ensures forall i :: 0 <= i < |targets| ==>
              targets[i].own == g.targets[i] && targets[i].group == g.labels && Targets.Valid(targets[i])
  {
    hide All, Over, Targets.Valid;
    NoLabels();
    targets := [];
    for i := 0 to |g.targets|
      invariant All(targets) == Over(g.labels, g.targets[..i]) && |targets| == i
      invariant forall j :: 0 <= j < i ==>
                  targets[j].own == g.targets[j] && targets[j].group == g.labels && Targets.Valid(targets[j])
    {
      var t := NewTarget(g.targets[i], g.labels);
      assert g.targets[..i + 1] == g.targets[..i] + [g.targets[i]];
      AllSnoc(targets, t);
      OverSnoc(g.labels, g.targets[..i], g.targets[i]);
      targets := targets + [t];
    }
    assert g.targets[..|g.targets|] == g.targets;
  }

  // A target with the labels of a group of the cache and one of its own label sets.
  ghost predicate OfCache(t: Target, cache: map<string, Group>) {
    Targets.Valid(t) && exists s :: s in cache && t.group == cache[s].labels && t.own in cache[s].targets
  }

  lemma MoreOfCache(targets: seq<Target>, more: seq<Target>, cache: map<string, Group>, s: string)
    requires s in cache && |more| == |cache[s].targets| && forall t :: t in targets ==> OfCache(t, cache)
    requires forall i :: 0 <= i < |more| ==>
               more[i].own == cache[s].targets[i] && more[i].group == cache[s].labels && Targets.Valid(more[i])
    ensures forall t :: t in targets + more ==> OfCache(t, cache)
  {
    hide Targets.Valid;
  }

  // The targets of all groups in the cache, the groups in any order.
  method ToAlloyTargets(cache: map<string, Group>) returns (targets: seq<Target>)
    ensures forall order :: Orders(order, cache) ==> All(targets) == Total(Picked(cache, order))
    ensures forall t :: t in targets ==> OfCache(t, cache)
  {
    hide All, Over, NoTwice, Total, OfCache, Targets.Valid;
    targets := [];
    ghost var order: seq<string> := [];
    NoLabels();
    NothingTwice();
    var rest := cache.Keys;
    while rest != {}
      invariant rest <= cache.Keys && NoTwice(order) && forall s :: s in order <==> s in cache.Keys - rest
      invariant All(targets) == Total(Picked(cache, order))
      invariant forall t :: t in targets ==> OfCache(t, cache)
    {
      var s :| s in rest;
      rest := rest - {s};
      var more := TargetsOf(cache[s]);
      MoreOfCache(targets, more, cache, s);
      AllCat(targets, more);
      assert (order + [s])[..|order|] == order;
      NoTwiceSnoc(order, s);
      TotalSnoc(Picked(cache, order), cache[s]);
      targets, order := targets + more, order + [s];
    }
    InAnyOrder(targets, cache, order);
  }

  lemma InAnyOrder(targets: seq<Target>, cache: map<string, Group>, order: seq<string>)
    requires Orders(order, cache) && All(targets) == Total(Picked(cache, order))
    ensures forall other :: Orders(other, cache) ==> All(targets) == Total(Picked(cache, other))
  {
    hide All, Total, NoTwice;
    forall other | Orders(other, cache)
      ensures All(targets) == Total(Picked(cache, other))
    {
      TotalSame(cache, order, other);
    }
  }

  // The order of groups does not matter.
  lemma {:induction false} TotalSame(cache: map<string, Group>, a: seq<string>, b: seq<string>)
    requires NoTwice(a) && NoTwice(b) && (forall s :: s in a <==> s in b) && forall s :: s in a ==> s in cache
    ensures Total(Picked(cache, a)) == Total(Picked(cache, b))
    decreases |a|
  {
    hide Total, Over;
    if a == [] {
      assert b == [] by {
        NothingIn(b);
      }
    } else {
      var front, x := a[..|a| - 1], a[|a| - 1];
      assert a == front + [x] && x in a;
      var j :| 0 <= j < |b| && b[j] == x;
      var others := b[..j] + b[j + 1..];
      forall s: string
        ensures s in front <==> s in others
      {
        assert s in a <==> s in front || s == x;
        assert s in b <==> s in others || s == x;
      }
      TotalSame(cache, front, others);
      TotalSnoc(Picked(cache, front), cache[x]);
      TotalWithout(cache, b, j);
    }
  }

  lemma NothingIn(s: seq<string>)
    ensures (forall x :: x !in s) ==> s == []
  {
    if s != [] {
      assert s[0] in s;
    }
  }

  lemma {:induction false} TotalWithout(cache: map<string, Group>, b: seq<string>, j: nat)
    requires j < |b| && forall s :: s in b ==> s in cache
    ensures var g := cache[b[j]];
            Total(Picked(cache, b)) == Total(Picked(cache, b[..j] + b[j + 1..])) + Over(g.labels, g.targets)
    decreases |b|
  {
    hide Total, Over;
    var front, y := b[..|b| - 1], b[|b| - 1];
    TotalSnoc(Picked(cache, front), cache[y]);
    if j == |b| - 1 {
      assert b[..j] + b[j + 1..] == front;
    } else {
      TotalWithout(cache, front, j);
      var others := front[..j] + front[j + 1..];
      assert b[..j] + b[j + 1..] == others + [y] && (others + [y])[..|others|] == others;
      TotalSnoc(Picked(cache, others), cache[y]);
    }
  }

  // The cache that holds the groups by their sources.
  predicate Caches(cache: map<string, Group>, groups: seq<Group>) {
    && (forall i :: 0 <= i < |groups| ==> groups[i].source in cache && cache[groups[i].source] == groups[i])
    && forall s :: s in cache ==> exists i :: 0 <= i < |groups| && groups[i].source == s
  }

  function Sources(groups: seq<Group>): (r: seq<string>)
    ensures |r| == |groups| && forall i :: 0 <= i < |groups| ==> r[i] == groups[i].source
  {
    seq(|groups|, i requires 0 <= i < |groups| => groups[i].source)
  }

  lemma {:induction false} PickedAll(cache: map<string, Group>, groups: seq<Group>)
    requires forall i :: 0 <= i < |groups| ==> groups[i].source in cache && cache[groups[i].source] == groups[i]
    ensures (forall s :: s in Sources(groups) ==> s in cache) && Picked(cache, Sources(groups)) == groups
    decreases |groups|
  {
    if groups != [] {
      var front := groups[..|groups| - 1];
      PickedAll(cache, front);
      assert Sources(groups)[..|groups| - 1] == Sources(front);
    }
  }

  // Taking targets out of the groups they were put in gives them all back,
  // with all their labels: for any fingerprints, and the groups in any order.
  lemma GroupsGiveBack(tgs: seq<Target>, groups: seq<Group>, cache: map<string, Group>, order: seq<string>,
        back: seq<Target>)
    requires Total(groups) == All(tgs) && DistinctSources(groups) && Caches(cache, groups)
    requires Orders(order, cache) && All(back) == Total(Picked(cache, order))
    ensures All(back) == All(tgs)
  {
    hide Total, All, Picked;
    PickedAll(cache, groups);
    var sources := Sources(groups);
    forall s: string
      ensures s in sources <==> s in order
    {
      if s in order {
        var i :| 0 <= i < |groups| && groups[i].source == s;
        assert sources[i] == s;
      }
    }
    TotalSame(cache, sources, order);
  }
}
