// target_builder.go: an overlay over the two layers of a target. Whatever was
// set, deleted and merged, the builder stands for one map of labels without
// empty values, and everything that can be read of it agrees with that map.
module TargetBuilders {
  import opened Targets

  // Labels without those whose value is empty.
  function NonEmpty(m: LabelSet): LabelSet {
    map k | k in m && m[k] != [] :: m[k]
  }

  // The map with a label set; an empty value deletes it.
  function WithLabel(m: LabelSet, key: Text, value: Text): LabelSet {
    if value == [] then m - {key} else m[key := value]
  }

  // The labels of m named in keys.
  function Restricted(m: LabelSet, keys: seq<Text>): LabelSet {
    map k | k in m && k in keys :: m[k]
  }

  function Without(m: LabelSet, names: seq<Text>): LabelSet {
    map k | k in m && k !in names :: m[k]
  }

  lemma WithoutNone(m: LabelSet)
    ensures Without(m, []) == m
  {
  }

  lemma WithoutOnly(m: LabelSet, name: Text)
    ensures Without(m, [name]) == m - {name}
  {
  }

  lemma WithoutOne(m: LabelSet, names: seq<Text>, i: nat)
    requires i < |names|
    ensures Without(m, names[..i]) - {names[i]} == Without(m, names[..i + 1])
  {
    assert names[..i + 1] == names[..i] + [names[i]];
  }

  lemma RestrictedNone(m: LabelSet, t: LabelSet)
    requires m == NonEmpty(m)
    ensures m == NonEmpty(m + Restricted(t, []))
  {
    assert Restricted(t, []) == map[];
    assert m + map[] == m;
  }

  lemma RestrictedAll(t: LabelSet, keys: seq<Text>)
    requires forall k :: k in t ==> k in keys
    ensures Restricted(t, keys) == t
  {
  }

  // One label more.
  lemma RestrictedOne(m: LabelSet, t: LabelSet, keys: seq<Text>, i: nat)
    requires i < |keys| && keys[i] in t
    ensures WithLabel(NonEmpty(m + Restricted(t, keys[..i])), keys[i], t[keys[i]])
            == NonEmpty(m + Restricted(t, keys[..i + 1]))
  {
    assert keys[..i + 1] == keys[..i] + [keys[i]];
  }

  lemma MergedLayers(t: Target)
    ensures Merged(t) == t.group + t.own
  {
  }

  lemma NothingDeleted(m: LabelSet, names: set<Text>)
    requires forall k :: k in names ==> k !in m
    ensures m - names == m
  {
  }

  lemma NothingChanged(own: LabelSet, group: LabelSet)
    ensures own - {} + map[] == own && group - {} == group && own + map[] == own
  {
  }

  // Deleting from each layer and adding to the upper one is deleting from and
  // adding to both together.
  lemma Layers(group: LabelSet, own: LabelSet, toDel: set<Text>, toAdd: LabelSet)
    ensures (group - toDel) + (own - toDel + toAdd) == (group + own) - toDel + toAdd
  {
  }

  class TargetBuilder {
    const group: LabelSet
    const own: LabelSet
    var toAdd: map<Text, Text>
    var toDel: set<Text>

    // The labels the builder stands for.
    ghost function Labels(): LabelSet
      reads this
    {
      (group + own) - toDel + toAdd
    }

    // What is added has a value, and what has none is deleted or overridden.
    ghost predicate Valid()
      reads this
    {
      && (forall k :: k in toAdd ==> toAdd[k] != [])
      && forall k :: k in group + own && (group + own)[k] == [] ==> k in toDel
    }

    // Labels that are given without a value count as deleted.
    constructor FromLabelSets(group: LabelSet, own: LabelSet)
      ensures Valid() && Labels() == NonEmpty(group + own) && this.group == group && this.own == own
    {
      this.group, this.own, toAdd := group, own, map[];
      var inGroup := EmptyInGroup(group, own);
      var inOwn := EmptyInOwn(own);
      toDel := inGroup + inOwn;
    }

    // Labels of the group without a value, unless own ones override them.
    static method EmptyInGroup(group: LabelSet, own: LabelSet) returns (names: set<Text>)
      ensures names == set k | k in group && group[k] == [] && (k in own ==> own[k] == [])
    {
      names := {};
      var rest := group.Keys;
      while rest != {}
        invariant rest <= group.Keys
        invariant names == set k | k in group.Keys - rest && group[k] == [] && (k in own ==> own[k] == [])
      {
        var name :| name in rest;
        rest := rest - {name};
        if group[name] == [] {
          if name !in own || own[name] == [] {
            names := names + {name};
          }
        }
      }
    }

    static method EmptyInOwn(own: LabelSet) returns (names: set<Text>)
      ensures names == set k | k in own && own[k] == []
    {
      names := {};
      var rest := own.Keys;
      while rest != {}
        invariant rest <= own.Keys && names == set k | k in own.Keys - rest && own[k] == []
      {
        var name :| name in rest;
        rest := rest - {name};
        if own[name] == [] {
          names := names + {name};
        }
      }
    }

    // The empty value for a label that is not there.
    method Get(name: Text) returns (value: Text)
      requires Valid()
      ensures value == if name in Labels() then Labels()[name] else []
    {
      if name in toAdd {
        return toAdd[name];
      }
      if name in toDel {
        return [];
      }
      if name in own {
        return own[name];
      }
      return if name in group then group[name] else [];
    }

    method Set(name: Text, val: Text)
      requires Valid()
      modifies this
      ensures Valid() && Labels() == WithLabel(old(Labels()), name, val)
    {
      if val == [] {
        Del([name]);
        WithoutOnly(old(Labels()), name);
        return;
      }
      toAdd := toAdd[name := val];
    }

    method Del(labels: seq<Text>)
      requires Valid()
      modifies this
      ensures Valid() && Labels() == Without(old(Labels()), labels)
    {
      WithoutNone(Labels());
      for i := 0 to |labels|
        invariant Valid() && Labels() == Without(old(Labels()), labels[..i])
      {
        DelOne(labels[i]);
        WithoutOne(old(Labels()), labels, i);
      }
      assert labels[..|labels|] == labels;
    }

    method DelOne(name: Text)
      requires Valid()
      modifies this
      ensures Valid() && Labels() == old(Labels()) - {name}
    {
      toDel := toDel + {name};
      toAdd := toAdd - {name};
    }

    // The labels visited, each once, with their values: those added, then own
    // ones, then those of the group.
    method Range() returns (visited: seq<(Text, Text)>)
      requires Valid()
      ensures forall i, j :: 0 <= i < j < |visited| ==> visited[i].0 != visited[j].0
      ensures forall k, v :: (k, v) in visited <==> k in Labels() && Labels()[k] == v
    {
      ghost var done: set<Text> := {};
      visited := [];
      var rest := toAdd.Keys;
      while rest != {}
        invariant rest <= toAdd.Keys && done == toAdd.Keys - rest && Visited(visited, done)
      {
        var k :| k in rest;
        rest := rest - {k};
        visited, done := VisitOne(visited, done, k, toAdd[k]);
      }
      rest := own.Keys;
      while rest != {}
        invariant rest <= own.Keys && Visited(visited, done)
        invariant done == toAdd.Keys + (own.Keys - rest - toDel)
      {
        var k :| k in rest;
        rest := rest - {k};
        if k in toDel || k in toAdd {
          continue;
        }
        visited, done := VisitOne(visited, done, k, own[k]);
      }
      rest := group.Keys;
      while rest != {}
        invariant rest <= group.Keys && Visited(visited, done)
        invariant done == toAdd.Keys + (own.Keys - toDel) + (group.Keys - rest - toDel)
      {
        var k :| k in rest;
        rest := rest - {k};
        if k in toDel || k in toAdd || k in own {
          continue;
        }
        visited, done := VisitOne(visited, done, k, group[k]);
      }
      assert done == Labels().Keys;
    }

    // What was visited are the labels done, each once.
    ghost predicate Visited(visited: seq<(Text, Text)>, done: set<Text>)
      reads this
    {
      && done <= Labels().Keys
      && (forall i, j :: 0 <= i < j < |visited| ==> visited[i].0 != visited[j].0)
      && forall k, v :: (k, v) in visited <==> k in done && Labels()[k] == v
    }

    method VisitOne(visited: seq<(Text, Text)>, ghost done: set<Text>, k: Text, v: Text)
      returns (visited': seq<(Text, Text)>, ghost done': set<Text>)
      requires Visited(visited, done) && k !in done && k in Labels() && Labels()[k] == v
      ensures Visited(visited', done') && done' == done + {k}
    {
      visited', done' := visited + [(k, v)], done + {k};
      forall i | 0 <= i < |visited|
        ensures visited[i].0 != k
      {
        assert (visited[i].0, visited[i].1) in visited;
      }
    }

    // The labels of a target are set over those of the builder.
    method MergeWith(target: Target)
      requires Valid()
      modifies this
      ensures Valid() && Labels() == NonEmpty(old(Labels()) + Merged(target))
    {
      hide Merged;
      var finished, keys := ForEachLabel(target, (k, v) => true);
      NothingEmpty();
      RestrictedNone(Labels(), Merged(target));
      for i := 0 to |keys|
        invariant Valid() && Labels() == NonEmpty(old(Labels()) + Restricted(Merged(target), keys[..i]))
      {
        Set(keys[i], Targets.Get(target, keys[i]).value);
        RestrictedOne(old(Labels()), Merged(target), keys, i);
      }
      assert keys[..|keys|] == keys;
      RestrictedAll(Merged(target), keys);
    }

    lemma NothingEmpty()
      requires Valid()
      ensures Labels() == NonEmpty(Labels())
    {
    }

    // The labels in two layers again; a layer that needs no change is kept.
    method Target() returns (t: Target)
      requires Valid()
      ensures Targets.Valid(t) && Merged(t) == Labels() && NonEmpty(Merged(t)) == Merged(t)
    {
      hide Merged, Targets.Valid;
      NothingEmpty();
      if toAdd == map[] && toDel == {} {
        t := NewTarget(own, group);
        NothingChanged(own, group);
      } else {
        var newOwn := NewOwn();
        var newGroup := NewGroup();
        t := NewTarget(newOwn, newGroup);
      }
      MergedLayers(t);
      Layers(group, own, toDel, toAdd);
    }

    method NewOwn() returns (newOwn: LabelSet)
      ensures newOwn == own - toDel + toAdd
    {
      var modifyOwn := toAdd != map[] || exists k :: k in toDel && k in own;
      if !modifyOwn {
        NothingDeleted(own, toDel);
        NothingChanged(own, map[]);
        return own;
      }
      newOwn := Kept(own, toDel);
      ghost var kept := newOwn;
      var rest := toAdd.Keys;
      while rest != {}
        invariant rest <= toAdd.Keys && newOwn == kept + (map k | k in toAdd.Keys - rest :: toAdd[k])
      {
        var k :| k in rest;
        rest := rest - {k};
        newOwn := newOwn[k := toAdd[k]];
      }
      assert (map k | k in toAdd.Keys - rest :: toAdd[k]) == toAdd;
    }

    method NewGroup() returns (newGroup: LabelSet)
      ensures newGroup == group - toDel
    {
      var modifyGroup := exists k :: k in toDel && k in group;
      if !modifyGroup {
        NothingDeleted(group, toDel);
        return group;
      }
      newGroup := Kept(group, toDel);
    }

    // A layer without the labels that are deleted.
    static method Kept(m: LabelSet, toDel: set<Text>) returns (kept: LabelSet)
      ensures kept == m - toDel
    {
      kept := map[];
      var rest := m.Keys;
      while rest != {}
        invariant rest <= m.Keys && kept == (map k | k in m.Keys - rest :: m[k]) - toDel
      {
        var k :| k in rest;
        rest := rest - {k};
        if k in toDel {
          continue;
        }
        kept := kept[k := m[k]];
      }
      assert (map k | k in m.Keys - rest :: m[k]) == m;
    }
  }
}
