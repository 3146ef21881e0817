// walk.go: depth-first and topological walks. A callback is a function of the
// calls made so far and the node it is now given, so it may keep state; it
// answers whether it returns an error.
module Walks {
  import opened Digraphs
  import opened Graphs
  import opened Tarjans

  type WalkFunc = (seq<Node>, Node) -> bool

  // fn was called on these nodes in this order, and failed, if at all, on the last.
  ghost predicate Called(fn: WalkFunc, calls: seq<Node>, failed: bool) {
    && NoDups(calls) && (failed ==> calls != [])
    && forall i :: 0 <= i < |calls| ==> Outcome(fn, calls, i) == (failed && i == |calls| - 1)
  }

  predicate Outcome(fn: WalkFunc, calls: seq<Node>, i: nat)
    requires i < |calls|
  {
    fn(calls[..i], calls[i])
  }

  lemma CallNext(fn: WalkFunc, calls: seq<Node>, n: Node)
    requires Called(fn, calls, false) && n !in calls
    ensures Called(fn, calls + [n], fn(calls, n))
  {
    var calls' := calls + [n];
    forall i | 0 <= i < |calls'|
      ensures Outcome(fn, calls', i) == (fn(calls, n) && i == |calls|)
    {
      if i < |calls| {
        assert calls'[..i] == calls[..i] && !Outcome(fn, calls, i);
      } else {
        assert calls'[..i] == calls;
      }
    }
  }

  // n is a start node or an out-neighbour of a node already called.
  ghost predicate Pending(g: Digraph, start: seq<Node>, calls: seq<Node>, n: Node) {
    n in start || exists m :: m in calls && g.Edge(m, n)
  }

  // Every call was pending when it was made.
  ghost predicate Led(g: Digraph, start: seq<Node>, calls: seq<Node>) {
    calls == [] ||
    (var k := |calls| - 1; Led(g, start, calls[..k]) && Pending(g, start, calls[..k], calls[k]))
  }

  lemma LedNext(g: Digraph, start: seq<Node>, calls: seq<Node>, n: Node)
    requires Led(g, start, calls) && Pending(g, start, calls, n)
    ensures Led(g, start, calls + [n])
  {
    assert (calls + [n])[..|calls|] == calls;
  }

  ghost predicate AllPending(g: Digraph, start: seq<Node>, calls: seq<Node>, unchecked: seq<Node>) {
    forall n {:trigger Pending(g, start, calls, n)} :: n in unchecked ==> Pending(g, start, calls, n)
  }

  lemma PendingNext(g: Digraph, start: seq<Node>, calls: seq<Node>, n: Node, unchecked: seq<Node>, more: seq<Node>)
    requires AllPending(g, start, calls, unchecked)
    requires forall m :: m in more ==> g.Edge(n, m)
    ensures AllPending(g, start, calls + [n], unchecked + more)
  {
    forall m {:trigger Pending(g, start, calls + [n], m)} | m in unchecked + more
      ensures Pending(g, start, calls + [n], m)
    {
      if m in more {
        assert n in calls + [n] && g.Edge(n, m);
      } else {
        assert Pending(g, start, calls, m);
        if m !in start {
          var k :| k in calls && g.Edge(k, m);
          assert k in calls + [n];
        }
      }
    }
  }

  // Edges out of s end in t.
  ghost predicate Surrounded(g: Digraph, s: set<Node>, t: set<Node>) {
    forall a, b {:trigger g.Edge(a, b)} :: a in s && g.Edge(a, b) ==> b in t
  }

  lemma {:induction false} LedReached(g: Digraph, start: seq<Node>, calls: seq<Node>, n: Node)
    requires Led(g, start, calls) && n in calls
    ensures ReachedFrom(g, Elems(start), n)
  {
    var k := |calls| - 1;
    if n != calls[k] {
      assert n in calls[..k];
      LedReached(g, start, calls[..k], n);
    } else if n in start {
      ReachRefl(g, n);
    } else {
      var m :| m in calls[..k] && g.Edge(m, n);
      LedReached(g, start, calls[..k], m);
      var s :| s in Elems(start) && Reach(g, s, m);
      ReachStep(g, s, m, n);
    }
  }

  // Walk calls fn at most once on a node, never on one that start does not
  // reach, and, unless fn fails, on every one that it does.
  method Walk(g: Graph, start: seq<Node>, fn: WalkFunc) returns (calls: seq<Node>, failed: bool)
    requires g.Valid() && Elems(start) <= g.Value().Whole().nodes
    ensures Called(fn, calls, failed)
    ensures Led(g.Value().Whole(), start, calls)
    ensures Elems(calls) <= ReachSet(g.Value().Whole(), Elems(start))
    ensures !failed ==> Elems(calls) == ReachSet(g.Value().Whole(), Elems(start))
  {
    hide Graph.Valid, State.Whole;
    ghost var G := g.Value().Whole();
    WholeClosed(g.Value());
    calls, failed := [], false;
    var visited: set<Node> := {};
    var unchecked := start;
    while unchecked != []
      invariant visited == Elems(calls) <= g.Value().Whole().nodes && Elems(unchecked) <= g.Value().Whole().nodes
      invariant Called(fn, calls, false)
      invariant Led(G, start, calls)
      invariant AllPending(G, start, calls, unchecked)
      invariant Elems(start) <= visited + Elems(unchecked)
      invariant Surrounded(G, visited, visited + Elems(unchecked))
      decreases g.Value().Whole().nodes - visited, |unchecked|
    {
      var check := unchecked[|unchecked| - 1];
      assert Pending(G, start, calls, check);
      assert Elems(unchecked) == Elems(unchecked[..|unchecked| - 1]) + {check};
      unchecked := unchecked[..|unchecked| - 1];
      if check in visited {
        continue;
      }
      visited := visited + {check};
      CallNext(fn, calls, check);
      LedNext(G, start, calls, check);
      failed := fn(calls, check);
      calls := calls + [check];
      if failed {
        break;
      }
      var more := ListOf(g.Succs(check));
      PendingNext(G, start, calls[..|calls| - 1], check, unchecked, more);
      assert Elems(unchecked + more) == Elems(unchecked) + G.Succ(check);
      unchecked := unchecked + more;
    }
    forall n {:trigger ReachedFrom(G, Elems(start), n)} | n in calls
      ensures ReachedFrom(G, Elems(start), n)
    {
      LedReached(G, start, calls, n);
    }
    if !failed {
      StableIsReachSet(G, Elems(start), visited);
    }
  }

  // n is not a leaf and all its out-neighbours are in s.
  ghost predicate Freed(g: Digraph, n: Node, s: set<Node>) {
    g.Succ(n) != {} && g.Succ(n) <= s
  }

  // Every call is on a start node, or comes after calls on all out-neighbours.
  ghost predicate DepsFirst(g: Digraph, start: seq<Node>, calls: seq<Node>) {
    calls == [] ||
    (var k := |calls| - 1;
     DepsFirst(g, start, calls[..k]) && (calls[k] in start || Freed(g, calls[k], Elems(calls[..k]))))
  }

  lemma DepsNext(g: Digraph, start: seq<Node>, calls: seq<Node>, n: Node)
    requires DepsFirst(g, start, calls) && (n in start || Freed(g, n, Elems(calls)))
    ensures DepsFirst(g, start, calls + [n])
  {
    assert (calls + [n])[..|calls|] == calls;
  }

  // deps[m] is the number of out-neighbours of m outside seen, kept once there
  // is one inside.
  ghost predicate CountedFor(g: Digraph, seen: set<Node>, m: Node, deps: map<Node, int>) {
    && (m in deps <==> g.Succ(m) * seen != {})
    && (m in deps ==> deps[m] == |g.Succ(m) - seen|)
  }

  // The count of m is up to date with seen or, if m is late, with was.
  ghost predicate Current(g: Digraph, was: set<Node>, seen: set<Node>, late: set<Node>, m: Node, deps: map<Node, int>) {
    CountedFor(g, if m in late then was else seen, m, deps)
  }

  ghost predicate Counted(g: Digraph, was: set<Node>, seen: set<Node>, late: set<Node>, deps: map<Node, int>) {
    forall m :: Current(g, was, seen, late, m, deps)
  }

  // One more visited node concerns only the nodes that point to it.
  lemma CountLate(g: Digraph, was: set<Node>, check: Node, late: set<Node>, deps: map<Node, int>)
    requires Counted(g, was, was, {}, deps)
    requires forall m :: m in late <==> g.Edge(m, check)
    ensures Counted(g, was, was + {check}, late, deps)
  {
    forall m
      ensures Current(g, was, was + {check}, late, m, deps)
    {
      assert Current(g, was, was, {}, m, deps);
      if m !in late {
        assert !g.Edge(m, check);
        assert g.Succ(m) - was == g.Succ(m) - (was + {check});
        assert g.Succ(m) * was == g.Succ(m) * (was + {check});
      }
    }
  }

  // remainingDeps[n]-- brings n's count up to date, and to 0 when n is freed.
  lemma CountStep(g: Digraph, was: set<Node>, check: Node, late: set<Node>, n: Node, deps: map<Node, int>)
    requires Counted(g, was, was + {check}, late, deps)
    requires n in late && check !in was && g.Edge(n, check)
    ensures var d := if n in deps then deps[n] else |g.Succ(n)|;
            Counted(g, was, was + {check}, late - {n}, deps[n := d - 1])
            && (d - 1 == 0 <==> Freed(g, n, was + {check}))
  {
    var d := if n in deps then deps[n] else |g.Succ(n)|;
    CountDown(g, was, check, n, d);
    assert Current(g, was, was + {check}, late, n, deps);
    assert n !in deps ==> g.Succ(n) - was == g.Succ(n);
    var seen, late', deps' := was + {check}, late - {n}, deps[n := d - 1];
    forall m
      ensures Current(g, was, seen, late', m, deps')
    {
      assert Current(g, was, seen, late, m, deps);
      if m != n { assert m in late <==> m in late'; }
    }
  }

  lemma CountDown(g: Digraph, was: set<Node>, check: Node, n: Node, d: int)
    requires check !in was && g.Edge(n, check)
    ensures |g.Succ(n) - was| - 1 == |g.Succ(n) - (was + {check})|
    ensures g.Succ(n) * (was + {check}) != {}
    ensures |g.Succ(n) - was| == 1 <==> Freed(g, n, was + {check})
  {
    var rest := g.Succ(n) - (was + {check});
    assert g.Succ(n) - was == rest + {check};
    assert check in g.Succ(n) * (was + {check});
    assert rest == {} <==> g.Succ(n) <= was + {check};
  }

  // The worklist: start nodes and freed nodes, all of them unless visited or late.
  ghost predicate Queued(g: Digraph, start: seq<Node>, visited: set<Node>, unchecked: set<Node>, late: set<Node>) {
    && unchecked <= g.nodes
    && (forall n :: n in unchecked ==> n in start || Freed(g, n, visited))
    && Elems(start) <= visited + unchecked
    && (forall n {:trigger Freed(g, n, visited)} ::
          Freed(g, n, visited) ==> n in visited || n in unchecked || n in late)
  }

  lemma QueueLate(g: Digraph, start: seq<Node>, was: set<Node>, check: Node, unchecked: set<Node>, late: set<Node>)
    requires Queued(g, start, was, unchecked + {check}, {})
    requires forall m :: m in late <==> g.Edge(m, check)
    ensures Queued(g, start, was + {check}, unchecked, late)
  {
    forall n {:trigger Freed(g, n, was + {check})} | Freed(g, n, was + {check}) && n !in late
      ensures Freed(g, n, was)
    {
      assert !g.Edge(n, check);
    }
  }

  lemma Pointing(s: State, check: Node)
    requires s.Transposed() && s.Sourced()
    ensures s.In(check) <= s.nodes && forall m :: m in s.In(check) <==> s.Digraph().Edge(m, check)
  {
    forall m
      ensures m in s.In(check) <==> s.Digraph().Edge(m, check)
      ensures m in s.In(check) ==> m in s.nodes
    {
      assert check in s.Out(m) <==> m in s.In(check);
    }
  }

  // The loop over g.inEdges[check], just visited.
  method Release(g: Graph, check: Node, remainingDeps: map<Node, int>, unchecked: seq<Node>,
                 ghost start: seq<Node>, ghost was: set<Node>)
    returns (deps: map<Node, int>, queue: seq<Node>)
    requires g.Valid() && g.Value().Transposed() && g.Value().Sourced() && check !in was
    requires Counted(g.Value().Digraph(), was, was, {}, remainingDeps)
    requires Queued(g.Value().Digraph(), start, was, Elems(unchecked) + {check}, {})
    ensures Counted(g.Value().Digraph(), was, was + {check}, {}, deps)
    ensures Queued(g.Value().Digraph(), start, was + {check}, Elems(queue), {})
  {
    hide Graph.Valid, State.Transposed, State.Sourced;
    ghost var G := g.Value().Digraph();
    deps, queue := remainingDeps, unchecked;
    var todo := g.Preds(check);
    Pointing(g.Value(), check);
    CountLate(G, was, check, todo, deps);
    QueueLate(G, start, was, check, Elems(unchecked), todo);
    while todo != {}
      invariant todo <= g.Value().nodes && forall m :: m in todo ==> G.Edge(m, check)
      invariant Counted(G, was, was + {check}, todo, deps)
      invariant Queued(G, start, was + {check}, Elems(queue), todo)
      decreases todo
    {
      var n :| n in todo;
      assert G.Edge(n, check);
      CountStep(G, was, check, todo, n, deps);
      ghost var before := deps;
      if n !in deps {
        deps := deps[n := |g.Succs(n)|];
      }
      deps := deps[n := deps[n] - 1];
      assert deps == before[n := deps[n]];
      if deps[n] == 0 {
        assert Elems(queue + [n]) == Elems(queue) + {n};
        queue := queue + [n];
      }
      todo := todo - {n};
    }
  }

  // WalkTopological calls fn on a node only if it is a start node or all its
  // out-neighbours, at least one, were called before; and, unless fn fails, on
  // every such node. So the calls made are the least set closed under that rule.
  method WalkTopological(g: Graph, start: seq<Node>, fn: WalkFunc) returns (calls: seq<Node>, failed: bool)
    requires g.Valid() && g.Value().Transposed() && g.Value().Sourced() && Elems(start) <= g.Value().nodes
    ensures Called(fn, calls, failed)
    ensures DepsFirst(g.Value().Digraph(), start, calls) && Elems(calls) <= g.Value().nodes
    ensures !failed ==> Elems(start) <= Elems(calls)
    ensures !failed ==> forall n :: Freed(g.Value().Digraph(), n, Elems(calls)) ==> n in calls
  {
    hide Graph.Valid, State.Transposed, State.Sourced;
    ghost var G := g.Value().Digraph();
    calls, failed := [], false;
    var visited: set<Node> := {};
    var unchecked := start;
    var remainingDeps: map<Node, int> := map[];
    while unchecked != []
      invariant visited == Elems(calls) <= g.Value().nodes
      invariant Called(fn, calls, false) && DepsFirst(G, start, calls)
      invariant Queued(G, start, visited, Elems(unchecked), {})
      invariant Counted(G, visited, visited, {}, remainingDeps)
      decreases g.Value().nodes - visited, |unchecked|
    {
      var check := unchecked[|unchecked| - 1];
      assert Elems(unchecked) == Elems(unchecked[..|unchecked| - 1]) + {check};
      unchecked := unchecked[..|unchecked| - 1];
      if check in visited {
        continue;
      }
      CallNext(fn, calls, check);
      DepsNext(G, start, calls, check);
      ghost var was := visited;
      visited := visited + {check};
      failed := fn(calls, check);
      calls := calls + [check];
      if failed {
        break;
      }
      remainingDeps, unchecked := Release(g, check, remainingDeps, unchecked, start, was);
      CountedAll(G, was, visited, remainingDeps);
    }
  }

  lemma CountedAll(g: Digraph, was: set<Node>, visited: set<Node>, deps: map<Node, int>)
    requires Counted(g, was, visited, {}, deps)
    ensures Counted(g, visited, visited, {}, deps)
  {
    forall m
      ensures Current(g, visited, visited, {}, m, deps)
    {
      assert Current(g, was, visited, {}, m, deps);
    }
  }

  ghost predicate ReachesCycle(g: Digraph, n: Node) {
    exists m :: Reach(g, n, m) && OnCycle(g, m)
  }

  // Every node comes after all its out-neighbours.
  ghost predicate Topological(g: Digraph, calls: seq<Node>) {
    NoDups(calls) && forall i :: 0 <= i < |calls| ==> g.Succ(calls[i]) <= Elems(calls[..i])
  }

  lemma {:induction false} LeavesFirst(g: Digraph, start: seq<Node>, calls: seq<Node>)
    requires DepsFirst(g, start, calls) && NoDups(calls)
    requires forall n :: n in start ==> g.Succ(n) == {}
    ensures Topological(g, calls)
  {
    if calls != [] {
      var k := |calls| - 1;
      LeavesFirst(g, start, calls[..k]);
      forall i | 0 <= i < |calls|
        ensures g.Succ(calls[i]) <= Elems(calls[..i])
      {
        if i < k {
          assert calls[..k][i] == calls[i] && calls[..k][..i] == calls[..i];
        }
      }
    }
  }

  // What a node of a topological sequence reaches in one step or more comes
  // strictly before it.
  lemma NoCycleBelow(g: Digraph, calls: seq<Node>, i: nat, n: Node)
    requires Topological(g, calls) && i < |calls| && Reach(g, calls[i], n)
    ensures n in calls[..i + 1] && !OnCycle(g, n)
  {
    TopologicalPrefix(g, calls, i + 1);
    StableReach(g, Elems(calls[..i + 1]), calls[i], n);
    var j :| 0 <= j <= i && calls[j] == n;
    forall m | g.Edge(n, m)
      ensures !Reach(g, m, n)
    {
      assert m in Elems(calls[..j]);
      TopologicalPrefix(g, calls, j);
      if Reach(g, m, n) {
        StableReach(g, Elems(calls[..j]), m, n);
      }
    }
  }

  lemma TopologicalPrefix(g: Digraph, calls: seq<Node>, k: nat)
    requires Topological(g, calls) && k <= |calls|
    ensures Stable(g, Elems(calls[..k]))
  {
    forall a, b | a in Elems(calls[..k]) && g.Edge(a, b)
      ensures b in Elems(calls[..k])
    {
      var i :| 0 <= i < k && calls[i] == a;
      assert b in Elems(calls[..i]);
    }
  }

  // A path of uncalled nodes extends until it closes a cycle.
  lemma {:induction false} UncalledReachesCycle(g: Digraph, called: set<Node>, p: seq<Node>)
    requires g.Closed() && IsPath(g, p) && NoDups(p)
    requires Elems(p) <= g.nodes && Elems(p) !! called
    requires forall n :: n in g.nodes && g.Succ(n) <= called ==> n in called
    ensures ReachesCycle(g, p[0])
    decreases |g.nodes - Elems(p)|
  {
    var m := UncalledSuccessor(g, called, p[|p| - 1]);
    if m in p {
      CloseCycle(g, p, m);
    } else {
      ExtendPath(g, p, m);
      assert g.nodes - Elems(p + [m]) == (g.nodes - Elems(p)) - {m};
      UncalledReachesCycle(g, called, p + [m]);
    }
  }

  lemma UncalledSuccessor(g: Digraph, called: set<Node>, last: Node) returns (m: Node)
    requires g.Closed() && last in g.nodes && last !in called
    requires forall n :: n in g.nodes && g.Succ(n) <= called ==> n in called
    ensures g.Edge(last, m) && m in g.nodes && m !in called
  {
    m :| m in g.Succ(last) && m !in called;
    assert g.Edge(last, m);
  }

  lemma CloseCycle(g: Digraph, p: seq<Node>, m: Node)
    requires IsPath(g, p) && m in p && g.Edge(p[|p| - 1], m)
    ensures ReachesCycle(g, p[0])
  {
    var last := p[|p| - 1];
    var i :| 0 <= i < |p| && p[i] == m;
    SubPath(g, p, i);
    assert PathFromTo(g, p[..i + 1], p[0], m) && PathFromTo(g, p[i..], m, last);
    OnCycleBack(g, m, last);
  }

  lemma ExtendPath(g: Digraph, p: seq<Node>, m: Node)
    requires IsPath(g, p) && NoDups(p) && m !in p && g.Edge(p[|p| - 1], m)
    ensures IsPath(g, p + [m]) && NoDups(p + [m]) && Elems(p + [m]) == Elems(p) + {m}
  {
    var q := p + [m];
    forall i | 0 <= i < |q| - 1
      ensures Link(g, q, i)
    {
      assert i < |p| - 1 ==> Link(g, p, i);
    }
  }

  lemma SubPath(g: Digraph, p: seq<Node>, i: nat)
    requires IsPath(g, p) && i < |p|
    ensures IsPath(g, p[..i + 1]) && IsPath(g, p[i..])
  {
    var a, b := p[..i + 1], p[i..];
    forall k | 0 <= k < i
      ensures Link(g, a, k)
    {
      assert Link(g, p, k);
    }
    forall k | 0 <= k < |p| - i - 1
      ensures Link(g, b, k)
    {
      assert Link(g, p, i + k);
    }
  }

  lemma OnCycleBack(g: Digraph, m: Node, last: Node)
    requires Reach(g, m, last) && g.Edge(last, m)
    ensures OnCycle(g, m)
  {
    if m == last {
      ReachRefl(g, m);
    } else {
      var k := FirstEdge(g, m, last);
      ReachStep(g, k, last, m);
    }
  }

  // Started from the leaves with a callback that does not fail, the walk calls
  // exactly the nodes from which no cycle is reachable, dependencies first.
  lemma WalkFromLeaves(g: Digraph, start: seq<Node>, calls: seq<Node>)
    requires g.Closed() && Lists(start, set n | n in g.nodes && g.Succ(n) == {})
    requires DepsFirst(g, start, calls) && NoDups(calls) && Elems(calls) <= g.nodes
    requires Elems(start) <= Elems(calls) && forall n :: Freed(g, n, Elems(calls)) ==> n in calls
    ensures Topological(g, calls)
    ensures forall n :: n in g.nodes ==> (n in calls <==> !ReachesCycle(g, n))
    ensures Acyclic(g) ==> Elems(calls) == g.nodes
  {
    LeavesFirst(g, start, calls);
    forall n | n in g.nodes
      ensures n in calls <==> !ReachesCycle(g, n)
    {
      if n in calls {
        var i :| 0 <= i < |calls| && calls[i] == n;
        forall m | Reach(g, n, m)
          ensures !OnCycle(g, m)
        {
          NoCycleBelow(g, calls, i, m);
        }
      } else {
        assert IsPath(g, [n]);
        forall m | m in g.nodes && g.Succ(m) <= Elems(calls)
          ensures m in Elems(calls)
        {
          assert g.Succ(m) == {} ==> m in start;
          assert g.Succ(m) != {} ==> Freed(g, m, Elems(calls));
        }
        UncalledReachesCycle(g, Elems(calls), [n]);
      }
    }
  }

  // The walk the loader makes: all the leaves, and a callback that never fails.
  method WalkLeaves(g: Graph, fn: WalkFunc) returns (calls: seq<Node>)
    requires g.Valid() && g.Value().WellFormed()
    requires forall s, n :: !fn(s, n)
    ensures Topological(g.Value().Digraph(), calls)
    ensures forall n :: n in g.Value().nodes ==> (n in calls <==> !ReachesCycle(g.Value().Digraph(), n))
    ensures Acyclic(g.Value().Digraph()) ==> Lists(calls, g.Value().nodes)
  {
    WholeClosed(g.Value());
    var start := g.Leaves();
    var failed;
    calls, failed := WalkTopological(g, start, fn);
    assert failed ==> Outcome(fn, calls, |calls| - 1);
    WalkFromLeaves(g.Value().Digraph(), start, calls);
  }
}
