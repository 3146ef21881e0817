// distributed_targets.go: the targets of a cluster, each scraped by one peer.
module DistributedTargets {
  import opened Targets

  // What the cluster tells one of its nodes. A lookup can fail; otherwise it
  // gives the peers that own a key, the first of them first.
  datatype Peer = Peer(name: nat, self: bool)

  datatype Lookup = Failed | Owners(peers: seq<Peer>)

  datatype Cluster = Cluster(ready: bool, lookup: nat -> Lookup)

  // The cluster of a node that takes part in none.
  const DISABLED := Cluster(true, _ => Owners([]))

  // Whether a node takes a key: never before the cluster is ready, always if
  // nobody can be told.
  predicate Local(c: Cluster, key: nat) {
    c.ready && (c.lookup(key).Failed? || c.lookup(key).peers == [] || c.lookup(key).peers[0].self)
  }

  // Targets with keys not seen before, in their order.
  function Unique(tgs: seq<Target>, key: Target -> nat): (r: seq<Target>)
    ensures forall t :: t in r ==> t in tgs
  {
    if tgs == [] then []
    else
      var front, t := Unique(tgs[..|tgs| - 1], key), tgs[|tgs| - 1];
      if key(t) in Keys(front, key) then front else front + [t]
  }

  function Keys(tgs: seq<Target>, key: Target -> nat): (r: seq<nat>)
    ensures |r| == |tgs| && forall i :: 0 <= i < |r| ==> r[i] == key(tgs[i])
  {
    seq(|tgs|, i requires 0 <= i < |tgs| => key(tgs[i]))
  }

  function Chosen(tgs: seq<Target>, pick: Target -> bool): (r: seq<Target>)
    ensures forall t :: t in r <==> t in tgs && pick(t)
  {
    if tgs == [] then []
    else Chosen(tgs[..|tgs| - 1], pick) + (if pick(tgs[|tgs| - 1]) then [tgs[|tgs| - 1]] else [])
  }

  function Locals(tgs: seq<Target>, key: Target -> nat, c: Cluster): seq<Target> {
    Chosen(Unique(tgs, key), t => Local(c, key(t)))
  }

  function KeySet(tgs: seq<Target>, key: Target -> nat): set<nat> {
    set t | t in tgs :: key(t)
  }

  function RemoteKeys(tgs: seq<Target>, key: Target -> nat, c: Cluster): set<nat> {
    set t | t in tgs && !Local(c, key(t)) :: key(t)
  }

  predicate DistinctKeys(keys: seq<nat>) {
    forall i, j :: 0 <= i < j < |keys| ==> keys[i] != keys[j]
  }

  // One target for each key.
  lemma {:induction false} UniqueKeys(tgs: seq<Target>, key: Target -> nat)
    ensures DistinctKeys(Keys(Unique(tgs, key), key)) && KeySet(Unique(tgs, key), key) == KeySet(tgs, key)
    decreases |tgs|
  {
    if tgs != [] {
      var front, t := tgs[..|tgs| - 1], tgs[|tgs| - 1];
      UniqueKeys(front, key);
      assert tgs == front + [t];
      var u := Unique(front, key);
      assert KeySet(tgs, key) == KeySet(front, key) + {key(t)};
      KeyIn(u, key, key(t));
      if key(t) !in Keys(u, key) {
        assert KeySet(u + [t], key) == KeySet(u, key) + {key(t)};
      }
    }
  }

  // t stands at i, and no target before has its key.
  predicate FirstAt(tgs: seq<Target>, key: Target -> nat, t: Target, i: nat)
    requires i < |tgs|
  {
    tgs[i] == t && forall j :: 0 <= j < i ==> key(tgs[j]) != key(t)
  }

  // Of several targets with one key the first is kept.
  lemma {:induction false} UniqueFirst(tgs: seq<Target>, key: Target -> nat, t: Target)
    ensures t in Unique(tgs, key) <==> exists i :: 0 <= i < |tgs| && FirstAt(tgs, key, t, i)
    decreases |tgs|
  {
    if tgs != [] {
      var n := |tgs| - 1;
      var front, x := tgs[..n], tgs[n];
      UniqueFirst(front, key, t);
      UniqueKeys(front, key);
      KeyIn(Unique(front, key), key, key(x));
      forall i | 0 <= i < n
        ensures FirstAt(front, key, t, i) <==> FirstAt(tgs, key, t, i)
      {
      }
      assert FirstAt(tgs, key, t, n) <==> t == x && key(x) !in Keys(Unique(front, key), key) by {
        hide Unique;
        LastFirst(front, x, key);
        assert forall j :: 0 <= j < n ==> tgs[j] == front[j];
      }
    }
  }

  lemma LastFirst(front: seq<Target>, x: Target, key: Target -> nat)
    ensures key(x) !in KeySet(front, key) <==> forall j :: 0 <= j < |front| ==> key(front[j]) != key(x)
  {
    if key(x) in KeySet(front, key) {
      var t :| t in front && key(t) == key(x);
    }
  }

  lemma KeyIn(tgs: seq<Target>, key: Target -> nat, k: nat)
    ensures k in Keys(tgs, key) <==> k in KeySet(tgs, key)
  {
    if k in KeySet(tgs, key) {
      var t :| t in tgs && key(t) == k;
      var i :| 0 <= i < |tgs| && tgs[i] == t;
      assert Keys(tgs, key)[i] == k;
    }
  }

  // One target more.
  lemma OneMore(tgs: seq<Target>, t: Target, key: Target -> nat, c: Cluster)
    ensures KeySet(tgs + [t], key) == KeySet(tgs, key) + {key(t)}
    ensures Locals(tgs + [t], key, c)
            == Locals(tgs, key, c) + (if key(t) !in KeySet(tgs, key) && Local(c, key(t)) then [t] else [])
    ensures RemoteKeys(tgs + [t], key, c)
            == RemoteKeys(tgs, key, c) + (if key(t) !in KeySet(tgs, key) && !Local(c, key(t)) then {key(t)} else {})
  {
    hide Local;
    var all, u := tgs + [t], Unique(tgs, key);
    assert all[..|tgs|] == tgs;
    UniqueKeys(tgs, key);
    KeyIn(u, key, key(t));
    var pick := (x: Target) => Local(c, key(x));
    if key(t) !in KeySet(tgs, key) {
      assert (u + [t])[..|u|] == u;
      assert Chosen(u + [t], pick) == Chosen(u, pick) + (if pick(t) then [t] else []);
    } else {
      var x :| x in tgs && key(x) == key(t);
      assert Locals(all, key, c) == Locals(tgs, key, c);
    }
  }

  lemma KeysSnoc(tgs: seq<Target>, t: Target, key: Target -> nat)
    ensures Keys(tgs + [t], key) == Keys(tgs, key) + [key(t)]
  {
  }

  lemma {:induction false} ChosenKeys(tgs: seq<Target>, pick: Target -> bool, key: Target -> nat)
    requires DistinctKeys(Keys(tgs, key))
    ensures DistinctKeys(Keys(Chosen(tgs, pick), key))
    decreases |tgs|
  {
    if tgs != [] {
      var front, t := tgs[..|tgs| - 1], tgs[|tgs| - 1];
      assert tgs == front + [t];
      KeysSnoc(front, t, key);
      assert forall i :: 0 <= i < |front| ==> Keys(tgs, key)[i] == Keys(front, key)[i];
      ChosenKeys(front, pick, key);
      KeysSnoc(Chosen(front, pick), t, key);
      forall x | x in Chosen(front, pick)
        ensures key(x) != key(t)
      {
        var i :| 0 <= i < |front| && front[i] == x;
        assert Keys(tgs, key)[i] != Keys(tgs, key)[|tgs| - 1];
      }
    }
  }

  lemma {:induction false} DistinctCount(keys: seq<nat>, s: set<nat>)
    requires DistinctKeys(keys) && forall k :: k in s <==> k in keys
    ensures |keys| == |s|
    decreases |keys|
  {
    if keys == [] {
      assert s == {};
    } else {
      var front, k := keys[..|keys| - 1], keys[|keys| - 1];
      assert keys == front + [k];
      DistinctCount(front, s - {k});
    }
  }

  // Local and remote keys are the keys of the targets, each once.
  lemma Partition(tgs: seq<Target>, key: Target -> nat, c: Cluster)
    ensures var locals := KeySet(Locals(tgs, key, c), key);
            && locals + RemoteKeys(tgs, key, c) == KeySet(tgs, key) && locals * RemoteKeys(tgs, key, c) == {}
    ensures DistinctKeys(Keys(Locals(tgs, key, c), key))
  {
    hide Local, Unique;
    UniqueKeys(tgs, key);
    ChosenKeys(Unique(tgs, key), t => Local(c, key(t)), key);
    var locals := KeySet(Locals(tgs, key, c), key);
    forall k | k in KeySet(tgs, key)
      ensures k in locals <==> Local(c, k)
      ensures k in RemoteKeys(tgs, key, c) <==> !Local(c, k)
    {
      assert k in KeySet(Unique(tgs, key), key);
      var t :| t in Unique(tgs, key) && key(t) == k;
      assert Local(c, k) ==> t in Locals(tgs, key, c);
      var x :| x in tgs && key(x) == k;
    }
  }

  // A key is local exactly if the cluster is ready and the lookup fails, names no
  // owner, or names this node first; otherwise it is remote.
  lemma TakenExactly(tgs: seq<Target>, key: Target -> nat, c: Cluster, k: nat)
    requires k in KeySet(tgs, key)
    ensures k in Keys(Locals(tgs, key, c), key) <==>
            c.ready && match c.lookup(k)
                       case Failed => true
                       case Owners(peers) => peers == [] || peers[0].self
    ensures k in RemoteKeys(tgs, key, c) <==> k !in Keys(Locals(tgs, key, c), key)
  {
    Partition(tgs, key, c);
    var locals := KeySet(Locals(tgs, key, c), key);
    KeyIn(Locals(tgs, key, c), key, k);
    assert k in locals || k in RemoteKeys(tgs, key, c);
    assert k in locals * RemoteKeys(tgs, key, c) <==> k in locals && k in RemoteKeys(tgs, key, c);
    assert k in RemoteKeys(tgs, key, c) ==> !Local(c, k);
    assert k in locals ==> Local(c, k);
  }

  // A node of no cluster takes every target.
  lemma DisabledTakesAll(tgs: seq<Target>, key: Target -> nat)
    ensures KeySet(Locals(tgs, key, DISABLED), key) == KeySet(tgs, key)
    ensures RemoteKeys(tgs, key, DISABLED) == {}
  {
    forall k | k in KeySet(tgs, key)
      ensures k in KeySet(Locals(tgs, key, DISABLED), key)
    {
      TakenExactly(tgs, key, DISABLED, k);
      KeyIn(Locals(tgs, key, DISABLED), key, k);
    }
    Partition(tgs, key, DISABLED);
  }

  lemma FieldsTell(tgs: seq<Target>, key: Target -> nat, c: Cluster)
    ensures forall t :: t in Locals(tgs, key, c) ==> t in tgs
    ensures c == DISABLED ==> KeySet(Locals(tgs, key, c), key) == KeySet(tgs, key) && RemoteKeys(tgs, key, c) == {}
    ensures forall t :: t in tgs ==>
              && (key(t) in Keys(Locals(tgs, key, c), key) <==>
                  c.ready && match c.lookup(key(t))
                             case Failed => true
                             case Owners(peers) => peers == [] || peers[0].self)
              && (key(t) in RemoteKeys(tgs, key, c) <==> key(t) !in Keys(Locals(tgs, key, c), key))
  {
    if c == DISABLED {
      DisabledTakesAll(tgs, key);
    }
    forall t | t in tgs
      ensures key(t) in Keys(Locals(tgs, key, c), key) <==>
              c.ready && match c.lookup(key(t))
                         case Failed => true
                         case Owners(peers) => peers == [] || peers[0].self
      ensures key(t) in RemoteKeys(tgs, key, c) <==> key(t) !in Keys(Locals(tgs, key, c), key)
    {
      assert key(t) in KeySet(tgs, key);
      TakenExactly(tgs, key, c, key(t));
    }
  }

  class Distributed {
    var localTargets: seq<Target>
    var localTargetKeys: seq<nat>
    var remoteTargetKeys: set<nat>

    ghost predicate Valid()
      reads this
    {
      && |localTargetKeys| == |localTargets| && DistinctKeys(localTargetKeys)
      && forall k :: k in localTargetKeys ==> k !in remoteTargetKeys
    }

    constructor (enabled: bool, cluster: Cluster, allTargets: seq<Target>, key: Target -> nat)
      ensures Valid()
      ensures var c := if enabled then cluster else DISABLED;
              && localTargets == Locals(allTargets, key, c)
              && localTargetKeys == Keys(localTargets, key)
              && remoteTargetKeys == RemoteKeys(allTargets, key, c)
      ensures DistinctKeys(localTargetKeys) && forall t :: t in localTargets ==> t in allTargets
      ensures !enabled ==> KeySet(localTargets, key) == KeySet(allTargets, key) && remoteTargetKeys == {}
      ensures enabled ==>
        forall t :: t in allTargets ==>
          && (key(t) in localTargetKeys <==>
              cluster.ready && match cluster.lookup(key(t))
                               case Failed => true
                               case Owners(peers) => peers == [] || peers[0].self)
          && (key(t) in remoteTargetKeys <==> key(t) !in localTargetKeys)
    {
      hide Local, Unique, Locals, RemoteKeys, KeySet;
      var c := if enabled then cluster else DISABLED;
      localTargets, localTargetKeys, remoteTargetKeys := [], [], {};
      new;
      NoTargets(key, c);
      var unique: set<nat> := {};
      for i := 0 to |allTargets|
        invariant unique == KeySet(allTargets[..i], key)
        invariant localTargets == Locals(allTargets[..i], key, c) && localTargetKeys == Keys(localTargets, key)
        invariant remoteTargetKeys == RemoteKeys(allTargets[..i], key, c)
      {
        var tgt := allTargets[i];
        var targetKey := key(tgt);
        assert allTargets[..i + 1] == allTargets[..i] + [tgt];
        OneMore(allTargets[..i], tgt, key, c);
        if targetKey in unique {
          Included(unique, targetKey);
          continue;
        }
        unique := unique + {targetKey};
        var belongsToLocal := Belongs(c, targetKey);
        if belongsToLocal {
          KeysSnoc(localTargets, tgt, key);
          localTargets := localTargets + [tgt];
          localTargetKeys := localTargetKeys + [targetKey];
        } else {
          remoteTargetKeys := remoteTargetKeys + {targetKey};
        }
      }
      assert allTargets[..|allTargets|] == allTargets;
      Partition(allTargets, key, c);
      LocalNotRemote(localTargets, key, remoteTargetKeys);
      FieldsTell(allTargets, key, c);
    }

    static method Belongs(c: Cluster, targetKey: nat) returns (belongsToLocal: bool)
      ensures belongsToLocal == Local(c, targetKey)
    {
      belongsToLocal := false;
      if c.ready {
        match c.lookup(targetKey)
        case Failed => belongsToLocal := true;
        case Owners(peers) => belongsToLocal := |peers| == 0 || peers[0].self;
      }
    }

    // The number of different keys.
    method TargetCount() returns (n: nat)
      requires Valid()
      ensures n == |(set k | k in localTargetKeys) + remoteTargetKeys|
    {
      var locals := set k | k in localTargetKeys;
      DistinctCount(localTargetKeys, locals);
      assert locals * remoteTargetKeys == {};
      n := |localTargetKeys| + |remoteTargetKeys|;
    }

    // The targets that were local and whose keys are now remote.
    method MovedToRemoteInstance(prev: Distributed?) returns (moved: seq<Target>)
      requires prev != null ==> prev.Valid()
      ensures moved == if prev == null then [] else Moved(prev.localTargets, prev.localTargetKeys, remoteTargetKeys)
    {
      moved := [];
      if prev == null {
        return;
      }
      for i := 0 to |prev.localTargets|
        invariant moved == Moved(prev.localTargets[..i], prev.localTargetKeys[..i], remoteTargetKeys)
      {
        assert prev.localTargets[..i + 1][..i] == prev.localTargets[..i];
        assert prev.localTargetKeys[..i + 1][..i] == prev.localTargetKeys[..i];
        if prev.localTargetKeys[i] in remoteTargetKeys {
          moved := moved + [prev.localTargets[i]];
        }
      }
      assert prev.localTargets[..|prev.localTargets|] == prev.localTargets;
      assert prev.localTargetKeys[..|prev.localTargets|] == prev.localTargetKeys;
    }
  }

  lemma NoTargets(key: Target -> nat, c: Cluster)
    ensures KeySet([], key) == {} && Locals([], key, c) == [] && RemoteKeys([], key, c) == {} && Keys([], key) == []
  {
  }

  lemma Included(s: set<nat>, k: nat)
    requires k in s
    ensures s + {k} == s
  {
  }

  lemma LocalNotRemote(locals: seq<Target>, key: Target -> nat, remote: set<nat>)
    requires KeySet(locals, key) * remote == {}
    ensures forall k :: k in Keys(locals, key) ==> k !in remote
  {
    forall k | k in Keys(locals, key)
      ensures k !in remote
    {
      KeyIn(locals, key, k);
      assert k !in KeySet(locals, key) * remote;
    }
  }

  function Moved(targets: seq<Target>, keys: seq<nat>, remote: set<nat>): seq<Target>
    requires |keys| == |targets|
  {
    if targets == [] then []
    else
      var n := |targets| - 1;
      Moved(targets[..n], keys[..n], remote) + (if keys[n] in remote then [targets[n]] else [])
  }

  // What moved are exactly the local targets whose key is remote, once each.
  lemma {:induction false} MovedExactly(targets: seq<Target>, key: Target -> nat, remote: set<nat>)
    requires DistinctKeys(Keys(targets, key))
    ensures var moved := Moved(targets, Keys(targets, key), remote);
            && DistinctKeys(Keys(moved, key)) && forall t :: t in moved <==> t in targets && key(t) in remote
    decreases |targets|
  {
    if targets != [] {
      var n := |targets| - 1;
      var front, t := targets[..n], targets[n];
      assert targets == front + [t];
      KeysSnoc(front, t, key);
      var keys := Keys(targets, key);
      assert keys[..n] == Keys(front, key) && keys[n] == key(t);
      MovedExactly(front, key, remote);
      var moved := Moved(front, Keys(front, key), remote);
      KeysSnoc(moved, t, key);
      forall x | x in moved
        ensures key(x) != key(t)
      {
        var i :| 0 <= i < |front| && front[i] == x;
        assert keys[i] != keys[n];
      }
    }
  }

  // ---- the peers of one cluster ----

  // What the node p sees of a cluster whose nodes agree on who owns a key.
  function Seen(owners: nat -> seq<nat>, p: nat): Cluster {
    Cluster(true, (k: nat) =>
      Owners(seq(|owners(k)|, i requires 0 <= i < |owners(k)| => Peer(owners(k)[i], owners(k)[i] == p))))
  }

  // If all peers are ready and agree on owners, every target key is local on
  // exactly one of them, its first owner, and remote on the others.
  lemma OnePeer(tgs: seq<Target>, key: Target -> nat, owners: nat -> seq<nat>, p: nat, k: nat)
    requires owners(k) != [] && k in KeySet(tgs, key)
    ensures k in KeySet(Locals(tgs, key, Seen(owners, p)), key) <==> p == owners(k)[0]
    ensures k in RemoteKeys(tgs, key, Seen(owners, p)) <==> p != owners(k)[0]
  {
    var c := Seen(owners, p);
    assert Local(c, k) <==> p == owners(k)[0];
    Partition(tgs, key, c);
    var locals := KeySet(Locals(tgs, key, c), key);
    assert k in locals || k in RemoteKeys(tgs, key, c);
    assert k in RemoteKeys(tgs, key, c) ==> !Local(c, k);
    assert k in locals ==> Local(c, k);
  }

  // A peer that is not ready scrapes nothing.
  lemma NotReady(tgs: seq<Target>, key: Target -> nat, c: Cluster)
    requires !c.ready
    ensures Locals(tgs, key, c) == [] && RemoteKeys(tgs, key, c) == KeySet(tgs, key)
  {
    assert forall t :: t !in Locals(tgs, key, c);
    NoneIn(Locals(tgs, key, c));
  }

  lemma NoneIn(tgs: seq<Target>)
    ensures (forall t :: t !in tgs) ==> tgs == []
  {
    if tgs != [] {
      assert tgs[0] in tgs;
    }
  }
}
