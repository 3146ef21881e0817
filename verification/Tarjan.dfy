// tarjan.go: strongly connected components.
module Tarjans {
  import opened Digraphs
  import opened Graphs

  function Elems(s: seq<Node>): set<Node> {
    set n | n in s
  }

  // The nodes of the components emitted so far.
  function Popped(result: seq<seq<Node>>): set<Node> {
    if result == [] then {} else Popped(result[..|result| - 1]) + Elems(result[|result| - 1])
  }

  lemma {:induction false} InPopped(result: seq<seq<Node>>, n: Node)
    ensures n in Popped(result) <==> exists i :: 0 <= i < |result| && n in result[i]
  {
    if result != [] {
      var k := |result| - 1;
      InPopped(result[..k], n);
      if i :| 0 <= i < |result| && n in result[i] && i < k {
        assert result[..k][i] == result[i];
      }
    }
  }

  lemma PoppedAppend(result: seq<seq<Node>>, c: seq<Node>)
    ensures Popped(result + [c]) == Popped(result) + Elems(c)
  {
    assert (result + [c])[..|result|] == result;
  }

  // Every node of c reaches every other.
  ghost predicate Strong(g: Digraph, c: seq<Node>) {
    forall a, b :: a in c && b in c ==> Reach(g, a, b)
  }

  // What has been emitted: disjoint strong components, and no edge leaves what
  // had been emitted at any point.
  ghost predicate Emitted(g: Digraph, result: seq<seq<Node>>) {
    result == [] || (
      var k := |result| - 1;
      && Emitted(g, result[..k])
      && result[k] != [] && NoDups(result[k]) && Strong(g, result[k])
      && Elems(result[k]) !! Popped(result[..k])
      && Stable(g, Popped(result)))
  }

  // y reaches an active node numbered no higher than itself.
  ghost predicate Anchored(g: Digraph, active: set<Node>, num: map<Node, nat>, y: Node)
    requires active <= num.Keys && y in num
  {
    exists x :: x in active && num[x] <= num[y] && Reach(g, y, x)
  }

  // Between two steps of the algorithm: num has numbered the visited nodes,
  // which are on the stack or done; active nodes are those whose call has not
  // returned.
  ghost predicate Inv(g: Digraph, active: set<Node>, num: map<Node, nat>, onStack: set<Node>, done: set<Node>) {
    && num.Keys <= g.nodes && active <= onStack
    && onStack !! done && onStack + done == num.Keys && Stable(g, done)
    // An active node reaches everything above it on the stack.
    && (forall x, y {:trigger Reach(g, x, y)} :: x in active && y in onStack && num[x] <= num[y] ==> Reach(g, x, y))
    && (forall y {:trigger Anchored(g, active, num, y)} :: y in onStack ==> Anchored(g, active, num, y))
    // A finished node has no unvisited successor.
    && (forall a, b :: a in num && a !in active && g.Edge(a, b) ==> b in num)
  }

  // The partition of s into classes of mutual reachability, dependencies first.
  ghost predicate Components(g: Digraph, s: set<Node>, result: seq<seq<Node>>) {
    && (forall i :: 0 <= i < |result| ==> result[i] != [] && NoDups(result[i]))
    && (forall n :: n in s <==> exists i :: 0 <= i < |result| && n in result[i])
    && (forall i, a, b :: 0 <= i < |result| && a in result[i] ==> (b in result[i] <==> Mutual(g, a, b)))
    && (forall i, j, a, b :: 0 <= i < j < |result| && a in result[i] && b in result[j] ==> !Reach(g, a, b))
  }

  lemma {:induction false} EmittedComponents(g: Digraph, result: seq<seq<Node>>)
    requires Emitted(g, result)
    ensures Components(g, Popped(result), result)
  {
    forall n
      ensures n in Popped(result) <==> exists i :: 0 <= i < |result| && n in result[i]
    {
      InPopped(result, n);
    }
    if result == [] { return; }
    var k := |result| - 1;
    var before := result[..k];
    EmittedComponents(g, before);
    assert forall i :: 0 <= i < k ==> before[i] == result[i];
    var done := Popped(before);
    assert Stable(g, done);
    forall a, b | a in done && b in result[k]
      ensures !Reach(g, a, b)
    {
      if Reach(g, a, b) { StableReach(g, done, a, b); }
    }
    forall a, b | a in result[k] && Mutual(g, a, b)
      ensures b in result[k]
    {
      StableReach(g, Popped(result), a, b);
    }
    forall i, a | 0 <= i < k && a in result[i]
      ensures a in done
    {
      assert a in before[i];
    }
  }

  // A node just visited joins the stack as an active node.
  lemma VisitKeeps(g: Digraph, active: set<Node>, num: map<Node, nat>, onStack: set<Node>, done: set<Node>,
                   n: Node, index: nat)
    requires Inv(g, active, num, onStack, done)
    requires n in g.nodes && n !in num
    requires forall x :: x in num ==> num[x] < index
    requires forall x :: x in active ==> Reach(g, x, n)
    ensures Inv(g, active + {n}, num[n := index], onStack + {n}, done)
  {
    ReachRefl(g, n);
    var num' := num[n := index];
    forall y {:trigger Anchored(g, active + {n}, num', y)} | y in onStack + {n}
      ensures Anchored(g, active + {n}, num', y)
    {
      if y != n {
        assert Anchored(g, active, num, y);
        var x :| x in active && num[x] <= num[y] && Reach(g, y, x);
        assert x in active + {n} && num'[x] <= num'[y];
      }
    }
  }

  // n turned out to be a root: what lies on the stack from n up, c, is a component.
  lemma EmitKeeps(g: Digraph, active: set<Node>, num: map<Node, nat>, below: set<Node>, c: set<Node>,
                  done: set<Node>, n: Node)
    requires Inv(g, active + {n}, num, below + c, done)
    requires n in c && below !! c && active <= below
    requires forall x :: x in below ==> num[x] < num[n]
    requires forall x :: x in c ==> num[n] <= num[x]
    requires g.Succ(n) <= num.Keys
    requires forall a, b :: a in c && b in below ==> !g.Edge(a, b)
    ensures Inv(g, active, num, below, done + c)
    ensures forall x :: x in c ==> Reach(g, n, x) && Reach(g, x, n)
  {
    forall a, b | a in done + c && g.Edge(a, b)
      ensures b in done + c
    {
      if a in c {
        assert b in num;
      }
    }
    forall x | x in c
      ensures Reach(g, x, n)
    {
      // The active node that x reaches cannot lie below n.
      assert Anchored(g, active + {n}, num, x);
      var y :| y in active + {n} && num[y] <= num[x] && Reach(g, x, y);
      StableReach(g, done + c, x, y);
    }
    forall y {:trigger Anchored(g, active, num, y)} | y in below
      ensures Anchored(g, active, num, y)
    {
      assert Anchored(g, active + {n}, num, y);
    }
  }

  // n is no root: it stays on the stack, finished, because it reaches a node w
  // below it, and so an active one.
  lemma FinishKeeps(g: Digraph, active: set<Node>, num: map<Node, nat>, onStack: set<Node>, done: set<Node>,
                    n: Node, w: Node)
    requires Inv(g, active + {n}, num, onStack, done)
    requires g.Succ(n) <= num.Keys
    requires active <= onStack && w in onStack && num[w] < num[n] && Reach(g, n, w)
    ensures Inv(g, active, num, onStack, done)
  {
    assert Anchored(g, active + {n}, num, w);
    var z :| z in active + {n} && num[z] <= num[w] && Reach(g, w, z);
    ReachTrans(g, n, w, z);
    forall y {:trigger Anchored(g, active, num, y)} | y in onStack
      ensures Anchored(g, active, num, y)
    {
      assert Anchored(g, active + {n}, num, y);
      var x :| x in active + {n} && num[x] <= num[y] && Reach(g, y, x);
      if x == n {
        ReachTrans(g, y, n, z);
        assert z in active && num[z] <= num[y];
      }
    }
  }

  // The fields of the algorithm.
  datatype Progress = Progress(index: nat, num: map<Node, nat>, low: map<Node, nat>,
                               stack: seq<Node>, result: seq<seq<Node>>) {
    ghost predicate Ready(g: Digraph, active: set<Node>) {
      && Inv(g, active, num, Elems(stack), Popped(result))
      && Emitted(g, result) && NoDups(stack)
      && low.Keys == num.Keys
      && (forall n :: n in num ==> 1 <= num[n] <= index)
    }

    // What a call leaves alone; new numbers exceed the old index.
    ghost predicate Extends(s: Progress) {
      && s.index <= index && s.stack <= stack && s.num.Keys <= num.Keys && s.low.Keys <= low.Keys
      && Popped(s.result) <= Popped(result)
      && (forall x :: x in s.num ==> num[x] == s.num[x])
      && (forall x :: x in s.low ==> low[x] == s.low[x])
      && (forall x :: x in num && x !in s.num ==> s.index < num[x])
    }

    // The call on n, made in s, is over: either n is done, or it stays on the
    // stack and its low link is the number of a node of the old stack that it
    // reaches. No node left above the old stack has an edge into it below that.
    ghost predicate Connected(g: Digraph, s: Progress, n: Node) {
      && n in num && n in low
      && (if n in stack then Target(g, num, Elems(s.stack), n, low[n]) else low[n] == num[n])
      && NoneBelow(g, num, Elems(stack) - Elems(s.stack), Elems(s.stack), low[n])
      && AllFrom(g, n, num.Keys - s.num.Keys)
    }

    // During the call on n made in s, the successors in seen have been examined.
    ghost predicate During(g: Digraph, active: set<Node>, s: Progress, seen: set<Node>, n: Node) {
      && Ready(g, active + {n}) && Grown(g, active, s, n)
      && seen <= num.Keys && n in num && n in low
      && LowOk(g, num, Elems(s.stack), Elems(stack), seen, n, low[n])
    }

    ghost predicate Grown(g: Digraph, active: set<Node>, s: Progress, n: Node) {
      && active <= Elems(s.stack) && n !in s.num && n !in s.low && s.stack + [n] <= stack
      && s.index < index && Extends(s) && AllFrom(g, n, num.Keys - s.num.Keys)
    }

    function Visited(n: Node): Progress {
      Progress(index + 1, num[n := index + 1], low[n := index + 1], stack + [n], result)
    }

    function Lowered(n: Node, l: nat): Progress
      requires n in low
    {
      this.(low := low[n := Min(low[n], l)])
    }
  }

  function Min(a: nat, b: nat): nat {
    if a < b then a else b
  }

  // n reaches every node of s.
  ghost predicate AllFrom(g: Digraph, n: Node, s: set<Node>) {
    forall x {:trigger Reach(g, n, x)} :: x in s ==> Reach(g, n, x)
  }

  lemma AllFromTrans(g: Digraph, n: Node, s: set<Node>, succ: Node, t: set<Node>)
    requires AllFrom(g, n, s) && g.Edge(n, succ) && AllFrom(g, succ, t)
    ensures AllFrom(g, n, s + t)
  {
    ReachEdge(g, n, succ);
    forall x {:trigger Reach(g, n, x)} | x in t
      ensures Reach(g, n, x)
    {
      ReachTrans(g, n, succ, x);
    }
  }

  // No edge from s into t reaches a number below low.
  ghost predicate NoneBelow(g: Digraph, num: map<Node, nat>, s: set<Node>, t: set<Node>, low: nat) {
    forall a, b {:trigger g.Edge(a, b)} :: a in s && b in t && g.Edge(a, b) ==> b in num && low <= num[b]
  }

  // n reaches the node of s numbered low.
  ghost predicate Target(g: Digraph, num: map<Node, nat>, s: set<Node>, n: Node, low: nat) {
    exists w :: w in s && w in num && num[w] == low && Reach(g, n, w)
  }

  // While the successors of n are examined, low is n's low link: the least
  // number found so far of a node in below that an edge from n or from the
  // nodes above it leads to.
  ghost predicate LowOk(g: Digraph, num: map<Node, nat>, below: set<Node>, stack: set<Node>,
                        seen: set<Node>, n: Node, low: nat) {
    && n in stack && below <= stack && stack <= num.Keys
    && (forall w :: w in stack ==> (w in below <==> num[w] < num[n]))
    && low <= num[n]
    && (low == num[n] || Target(g, num, below, n, low))
    && NoneBelow(g, num, stack - below - {n}, below, low)
    && (forall b {:trigger b in seen} :: b in seen && b in below ==> low <= num[b])
  }

  lemma VisitedReady(g: Digraph, active: set<Node>, s: Progress, n: Node)
    requires s.Ready(g, active) && n in g.nodes && n !in s.num
    requires forall x :: x in active ==> Reach(g, x, n)
    ensures s.Visited(n).Ready(g, active + {n})
  {
    VisitKeeps(g, active, s.num, Elems(s.stack), Popped(s.result), n, s.index + 1);
    assert Elems(s.stack + [n]) == Elems(s.stack) + {n};
  }

  lemma Enter(g: Digraph, active: set<Node>, s: Progress, n: Node)
    requires s.Ready(g, active) && n in g.nodes && n !in s.num
    requires forall x :: x in active ==> Reach(g, x, n)
    ensures s.Visited(n).During(g, active, s, {}, n)
  {
    VisitedReady(g, active, s, n);
    assert Elems(s.stack + [n]) == Elems(s.stack) + {n};
    ReachRefl(g, n);
  }

  // lowLink[n] = min(lowLink[n], lowLink[succ]) after the call on succ.
  lemma AfterCall(g: Digraph, active: set<Node>, s: Progress, seen: set<Node>, n: Node, succ: Node,
                  t: Progress, u: Progress)
    requires t.During(g, active, s, seen, n)
    requires g.Edge(n, succ) && succ !in t.num
    requires u.Ready(g, active + {n}) && u.Extends(t) && u.Connected(g, t, succ)
    ensures u.Lowered(n, u.low[succ]).During(g, active, s, seen + {succ}, n)
  {
    CallLow(g, t.num, Elems(t.stack), t.low[n], u.num, Elems(u.stack), u.low[succ],
            Elems(s.stack), seen, n, succ);
    LoweredReady(g, active + {n}, u, n, u.low[succ]);
    GrownMore(g, active, s, n, succ, t, u);
  }

  lemma GrownMore(g: Digraph, active: set<Node>, s: Progress, n: Node, succ: Node, t: Progress, u: Progress)
    requires t.Grown(g, active, s, n) && g.Edge(n, succ) && n in u.low
    requires u.Extends(t) && AllFrom(g, succ, u.num.Keys - t.num.Keys)
    ensures forall l :: u.Lowered(n, l).Grown(g, active, s, n)
  {
    AllFromTrans(g, n, t.num.Keys - s.num.Keys, succ, u.num.Keys - t.num.Keys);
    assert u.num.Keys - s.num.Keys == (t.num.Keys - s.num.Keys) + (u.num.Keys - t.num.Keys);
  }

  // Lowering n's low link concerns nothing but LowOk.
  lemma LoweredReady(g: Digraph, active: set<Node>, u: Progress, n: Node, l: nat)
    requires u.Ready(g, active) && n in u.low
    ensures u.Lowered(n, l).Ready(g, active)
  {
  }

  lemma CallLow(g: Digraph, num: map<Node, nat>, stack: set<Node>, low: nat,
                num': map<Node, nat>, stack': set<Node>, low': nat,
                below: set<Node>, seen: set<Node>, n: Node, succ: Node)
    requires LowOk(g, num, below, stack, seen, n, low)
    requires num.Keys <= num'.Keys && forall x :: x in num ==> num'[x] == num[x]
    requires stack <= stack' <= num'.Keys
    requires forall w :: w in stack' && w !in stack ==> num'[n] < num'[w]
    requires if succ in stack' then Target(g, num', stack, succ, low') else succ in num' && low' == num'[succ]
    requires NoneBelow(g, num', stack' - stack, stack, low')
    requires g.Edge(n, succ) && succ !in num && succ in num' && num[n] < num'[succ]
    ensures LowOk(g, num', below, stack', seen + {succ}, n, Min(low, low'))
  {
    var m := Min(low, low');
    if low' < low {
      var w :| w in stack && w in num' && num'[w] == low' && Reach(g, succ, w);
      ReachEdge(g, n, succ);
      ReachTrans(g, n, succ, w);
      assert Target(g, num', below, n, m);
    } else if low != num[n] {
      var w :| w in below && w in num && num[w] == low && Reach(g, n, w);
      assert Target(g, num', below, n, m);
    }
  }

  // A lower low link that is right for more successors.
  lemma LoweredDuring(g: Digraph, active: set<Node>, s: Progress, seen: set<Node>, n: Node, succ: Node, t: Progress,
        l: nat)
    requires t.During(g, active, s, seen, n) && succ in t.num
    requires LowOk(g, t.num, Elems(s.stack), Elems(t.stack), seen + {succ}, n, Min(t.low[n], l))
    ensures t.Lowered(n, l).During(g, active, s, seen + {succ}, n)
  {
    hide LowOk, Inv, Emitted, Elems, Popped, AllFrom;
  }

  // lowLink[n] = min(lowLink[n], nodes[succ]) for a successor on the stack.
  lemma AfterBackEdge(g: Digraph, active: set<Node>, s: Progress, seen: set<Node>, n: Node, succ: Node, t: Progress)
    requires t.During(g, active, s, seen, n)
    requires g.Edge(n, succ) && succ in t.stack
    ensures t.Lowered(n, t.num[succ]).During(g, active, s, seen + {succ}, n)
  {
    if t.num[succ] < t.low[n] {
      ReachEdge(g, n, succ);
      assert Target(g, t.num, Elems(s.stack), n, t.num[succ]);
    }
    LoweredDuring(g, active, s, seen, n, succ, t, t.num[succ]);
  }

  // A successor in a finished component changes nothing.
  lemma AfterDone(g: Digraph, active: set<Node>, s: Progress, seen: set<Node>, n: Node, succ: Node, t: Progress)
    requires t.During(g, active, s, seen, n)
    requires succ in t.num && succ !in t.stack
    ensures t.During(g, active, s, seen + {succ}, n)
  {
  }

  // All successors examined and n is no root.
  lemma LeaveOnStack(g: Digraph, active: set<Node>, s: Progress, n: Node, t: Progress)
    requires t.During(g, active, s, g.Succ(n), n)
    requires t.low[n] != t.num[n]
    ensures t.Ready(g, active) && t.Connected(g, s, n)
  {
    assert Target(g, t.num, Elems(s.stack), n, t.low[n]);
    var w :| w in Elems(s.stack) && w in t.num && t.num[w] == t.low[n] && Reach(g, n, w);
    FinishKeeps(g, active, t.num, Elems(t.stack), Popped(t.result), n, w);
    forall a, b {:trigger g.Edge(a, b)} | a in Elems(t.stack) - Elems(s.stack) && b in Elems(s.stack) && g.Edge(a, b)
      ensures t.low[n] <= t.num[b]
    {
      if a == n { assert b in g.Succ(n); }
    }
  }

  // All successors examined and n is a root: what is above s on the stack, scc
  // in some order, is emitted.
  lemma LeaveEmitted(g: Digraph, active: set<Node>, s: Progress, n: Node, t: Progress, scc: seq<Node>)
    requires t.During(g, active, s, g.Succ(n), n)
    requires t.low[n] == t.num[n]
    requires NoDups(scc) && Elems(scc) == Elems(t.stack) - Elems(s.stack)
    ensures t.(stack := s.stack, result := t.result + [scc]).Ready(g, active)
    ensures t.(stack := s.stack, result := t.result + [scc]).Connected(g, s, n)
    ensures t.(stack := s.stack, result := t.result + [scc]).Extends(s)
  {
    var c, below, done := Elems(scc), Elems(s.stack), Popped(t.result);
    assert below + c == Elems(t.stack);
    EmitKeeps(g, active, t.num, below, c, done, n);
    PoppedAppend(t.result, scc);
    forall a, b | a in scc && b in scc
      ensures Reach(g, a, b)
    {
      ReachTrans(g, a, n, b);
    }
    assert (t.result + [scc])[..|t.result|] == t.result;
    assert n in scc;
  }

  class Tarjan {
    var index: nat
    var nodes: map<Node, nat>
    var lowLink: map<Node, nat>
    var stack: seq<Node>
    var result: seq<seq<Node>>

    constructor ()
      ensures Value() == Progress(0, map[], map[], [], [])
    {
      index, nodes, lowLink, stack, result := 0, map[], map[], [], [];
    }

    ghost function Value(): Progress
      reads this
    {
      Progress(index, nodes, lowLink, stack, result)
    }

    // visit marks n and pushes it.
    method Visit(n: Node)
      modifies this
      ensures Value() == old(Value()).Visited(n)
    {
      index := index + 1;
      nodes := nodes[n := index];
      lowLink := lowLink[n := index];
      stack := stack + [n];
    }

    method Pop() returns (n: Node)
      requires stack != []
      modifies this`stack
      ensures old(stack) == stack + [n]
    {
      n := stack[|stack| - 1];
      stack := stack[..|stack| - 1];
    }

    method OnStack(n: Node) returns (b: bool)
      ensures b == (n in stack)
    {
      b := n in stack;
    }

    // Pops down to n.
    method PopComponent(n: Node, ghost below: seq<Node>) returns (scc: seq<Node>)
      requires below + [n] <= stack && NoDups(stack)
      modifies this`stack
      ensures stack == below
      ensures NoDups(scc) && Elems(scc) == Elems(old(stack)) - Elems(below)
    {
      ghost var all := stack;
      assert all[|below|] == n;
      scc := [];
      while true
        invariant below + [n] <= stack <= all && |scc| == |all| - |stack|
        invariant forall i :: 0 <= i < |scc| ==> scc[i] == all[|all| - 1 - i]
        decreases |stack|
      {
        var succ := Pop();
        scc := scc + [succ];
        if succ == n {
          assert all[|stack|] == n;
          assert stack == all[..|below|] && below == all[..|below|];
          break;
        }
      }
      assert all == all[..|below|] + all[|below|..];
      forall x | x in all && x !in below
        ensures x in scc
      {
        var i :| 0 <= i < |all[|below|..]| && all[|below|..][i] == x;
        assert scc[|all| - 1 - (|below| + i)] == x;
      }
    }

    // The recursive step tarjan(g, n), in three parts: visit n, examine its
    // successors, and emit a component if n is a root. g never changes.
    method Connect(g: Graph, n: Node, ghost active: set<Node>)
      requires g.Valid() && n in g.Value().Whole().nodes && n !in nodes
      requires Value().Ready(g.Value().Whole(), active)
      requires forall x :: x in active ==> Reach(g.Value().Whole(), x, n)
      modifies this
      ensures Value().Ready(g.Value().Whole(), active)
      ensures Value().Extends(old(Value()))
      ensures Value().Connected(g.Value().Whole(), old(Value()), n)
      decreases g.Value().Whole().nodes - nodes.Keys, 0
    {
      ghost var G, s := g.Value().Whole(), Value();
      Enter(G, active, s, n);
      Visit(n);
      Successors(g, n, active, s);
      Finish(G, n, active, s);
    }

    method Successors(g: Graph, n: Node, ghost active: set<Node>, ghost s: Progress)
      requires g.Valid() && n in g.Value().Whole().nodes
      requires Value().During(g.Value().Whole(), active, s, {}, n)
      modifies this
      ensures Value().During(g.Value().Whole(), active, s, g.Value().Whole().Succ(n), n)
      decreases g.Value().Whole().nodes - nodes.Keys, 2
    {
      hide Graph.Valid, State.Whole, Progress.During;
      WholeClosed(g.Value());
      ghost var G := g.Value().Whole();
      var succs := g.Succs(n);
      var todo := succs;
      assert succs - todo == {};
      while todo != {}
        invariant todo <= succs && old(nodes.Keys) <= nodes.Keys
        invariant Value().During(G, active, s, succs - todo, n)
        decreases todo
      {
        var succ :| succ in todo;
        SeenStep(succs, todo, succ);
        Examine(g, n, succ, active, s, succs - todo);
        todo := todo - {succ};
      }
      assert succs - todo == G.Succ(n);
    }

    method Examine(g: Graph, n: Node, succ: Node, ghost active: set<Node>, ghost s: Progress, ghost seen: set<Node>)
      requires g.Valid() && n in g.Value().Whole().nodes && g.Value().Whole().Edge(n, succ)
      requires Value().During(g.Value().Whole(), active, s, seen, n)
      modifies this
      ensures Value().During(g.Value().Whole(), active, s, seen + {succ}, n)
      ensures old(nodes.Keys) <= nodes.Keys
      decreases g.Value().Whole().nodes - nodes.Keys, 1
    {
      hide Graph.Valid, State.Whole;
      WholeClosed(g.Value());
      ghost var G, t := g.Value().Whole(), Value();
      if succ !in nodes || nodes[succ] == 0 {
        ReachedFromActive(G, active, s, seen, n, succ, t);
        Connect(g, succ, active + {n});
        ghost var u := Value();
        AfterCall(G, active, s, seen, n, succ, t, u);
        lowLink := lowLink[n := Min(lowLink[n], lowLink[succ])];
        assert Value() == u.Lowered(n, u.low[succ]);
      } else {
        var onStack := OnStack(succ);
        if onStack {
          AfterBackEdge(G, active, s, seen, n, succ, t);
          lowLink := lowLink[n := Min(lowLink[n], nodes[succ])];
          assert Value() == t.Lowered(n, t.num[succ]);
        } else {
          AfterDone(G, active, s, seen, n, succ, t);
        }
      }
    }

    method Finish(ghost G: Digraph, n: Node, ghost active: set<Node>, ghost s: Progress)
      requires Value().During(G, active, s, G.Succ(n), n)
      modifies this
      ensures Value().Ready(G, active) && Value().Extends(s) && Value().Connected(G, s, n)
    {
      ghost var t := Value();
      if lowLink[n] == nodes[n] {
        var scc := PopComponent(n, s.stack);
        result := result + [scc];
        LeaveEmitted(G, active, s, n, t, scc);
      } else {
        LeaveOnStack(G, active, s, n, t);
      }
    }
  }

  lemma SeenStep(succs: set<Node>, todo: set<Node>, succ: Node)
    requires succ in todo && todo <= succs
    ensures succs - (todo - {succ}) == succs - todo + {succ}
  {
  }

  lemma ElemsStep(ns: seq<Node>, i: nat)
    requires i < |ns|
    ensures Elems(ns[..i + 1]) == Elems(ns[..i]) + {ns[i]}
    ensures ns[i] in Elems(ns) && Elems(ns[..i]) <= Elems(ns)
  {
  }

  // Every visited node is in its final component once no call is active.
  lemma AllDone(g: Digraph, t: Progress)
    requires t.Ready(g, {})
    ensures t.num.Keys <= g.nodes && Stable(g, t.num.Keys) && Components(g, t.num.Keys, t.result)
  {
    assert forall y :: y in t.num ==> !Anchored(g, {}, t.num, y);
    assert Elems(t.stack) == {};
    assert Popped(t.result) == t.num.Keys;
    EmittedComponents(g, t.result);
  }

  // What can be reached from the nodes of from.
  ghost function ReachSet(g: Digraph, from: set<Node>): set<Node> {
    set m | m in g.nodes && ReachedFrom(g, from, m)
  }

  ghost predicate ReachedFrom(g: Digraph, from: set<Node>, m: Node) {
    exists n :: n in from && Reach(g, n, m)
  }

  // A stable set that holds from, and only what from reaches, is ReachSet.
  lemma StableIsReachSet(g: Digraph, from: set<Node>, s: set<Node>)
    requires Stable(g, s) && from <= s <= g.nodes
    requires forall m {:trigger ReachedFrom(g, from, m)} :: m in s ==> ReachedFrom(g, from, m)
    ensures s == ReachSet(g, from)
  {
    forall m | ReachedFrom(g, from, m)
      ensures m in s
    {
      var n :| n in from && Reach(g, n, m);
      StableReach(g, s, n, m);
    }
  }

  // What one more search adds.
  lemma SearchAdds(g: Digraph, from: set<Node>, n: Node, s: set<Node>, t: set<Node>)
    requires s == ReachSet(g, from) && from <= g.nodes && n in g.nodes
    requires Stable(g, t) && s <= t <= g.nodes
    requires n in t && AllFrom(g, n, t - s)
    ensures t == ReachSet(g, from + {n})
  {
    forall m {:trigger ReachedFrom(g, from + {n}, m)} | m in t
      ensures ReachedFrom(g, from + {n}, m)
    {
      if m in s {
        assert ReachedFrom(g, from, m);
        var k :| k in from && Reach(g, k, m);
        assert k in from + {n};
      } else {
        assert Reach(g, n, m) && n in from + {n};
      }
    }
    forall k | k in from
      ensures k in s
    {
      ReachRefl(g, k);
      assert ReachedFrom(g, from, k);
    }
    StableIsReachSet(g, from + {n}, t);
  }

  // The loop shared by both entry points: one search from every node of ns
  // that has no number yet.
  method SearchFrom(g: Graph, ns: seq<Node>) returns (t: Tarjan)
    requires g.Valid() && Elems(ns) <= g.Value().Whole().nodes
    ensures Components(g.Value().Whole(), ReachSet(g.Value().Whole(), Elems(ns)), t.result)
  {
    ghost var G := g.Value().Whole();
    t := new Tarjan();
    for i := 0 to |ns|
      invariant fresh(t)
      invariant t.Value().Ready(G, {})
      invariant t.nodes.Keys == ReachSet(G, Elems(ns[..i]))
    {
      ElemsStep(ns, i);
      Search(g, t, ns[i], Elems(ns[..i]));
    }
    AllDone(G, t.Value());
    assert ns[..|ns|] == ns;
  }

  method Search(g: Graph, t: Tarjan, n: Node, ghost from: set<Node>)
    requires g.Valid() && n in g.Value().Whole().nodes && from <= g.Value().Whole().nodes
    requires t.Value().Ready(g.Value().Whole(), {})
    requires t.nodes.Keys == ReachSet(g.Value().Whole(), from)
    modifies t
    ensures t.Value().Ready(g.Value().Whole(), {})
    ensures t.nodes.Keys == ReachSet(g.Value().Whole(), from + {n})
  {
    ghost var G, s := g.Value().Whole(), t.nodes.Keys;
    if n !in t.nodes || t.nodes[n] == 0 {
      t.Connect(g, n, {});
    }
    AllDone(G, t.Value());
    SearchAdds(G, from, n, s, t.nodes.Keys);
  }

  // StronglyConnectedComponents: the nodes of the graph, with those removed ones
  // that edges still lead to, partitioned into the classes of mutual
  // reachability, dependencies first.
  method StronglyConnectedComponents(g: Graph) returns (result: seq<seq<Node>>)
    requires g.Valid() && g.Value().Sourced()
    ensures Components(g.Value().Whole(), g.Value().Whole().nodes, result)
    ensures g.Value().Digraph().Closed() ==> Components(g.Value().Digraph(), g.Value().nodes, result)
  {
    ghost var G := g.Value().Whole();
    WholeClosed(g.Value());
    var ns := g.Nodes();
    assert Elems(ns) == g.Value().nodes;
    AllReached(g.Value());
    var t := SearchFrom(g, ns);
    result := t.result;
  }

  // A node that edges still lead to is reached from where they start.
  lemma AllReached(s: State)
    requires s.Sourced()
    ensures ReachSet(s.Whole(), s.nodes) == s.Whole().nodes
  {
    var G := s.Whole();
    WholeClosed(s);
    forall m | m in G.nodes
      ensures ReachedFrom(G, s.nodes, m)
    {
      if m in s.out && s.out[m] != {} {
        var b :| b in s.out[m];
        assert b in s.Out(m);
      }
      if m in s.nodes {
        ReachRefl(G, m);
      } else {
        var a :| a in s.out && m in s.out[a];
        assert m in s.Out(a);
        ReachEdge(G, a, m);
      }
    }
  }

  // StronglyConnectedComponentsOrdered searches from the named nodes in the
  // given order. What it covers is not those nodes alone but all they reach.
  method StronglyConnectedComponentsOrdered(g: Graph, order: seq<string>) returns (result: seq<seq<Node>>)
    requires g.Valid() && g.Value().Named()
    requires forall id :: id in order ==> id in g.nodeByID
    ensures Components(g.Value().Whole(),
                       ReachSet(g.Value().Whole(), set id | id in order :: g.nodeByID[id]), result)
  {
    var ns := [];
    for i := 0 to |order|
      invariant forall id :: id in order[..i] ==> g.nodeByID[id] in ns
      invariant forall n :: n in ns ==> n in g.Value().nodes && n.id in order && g.nodeByID[n.id] == n
    {
      ns := ns + [g.nodeByID[order[i]]];
    }
    assert Elems(ns) == set id | id in order :: g.nodeByID[id];
    var t := SearchFrom(g, ns);
    result := t.result;
  }

  lemma ReachedFromActive(g: Digraph, active: set<Node>, s: Progress, seen: set<Node>, n: Node, succ: Node, t: Progress)
    requires t.During(g, active, s, seen, n) && g.Edge(n, succ)
    ensures forall x :: x in active + {n} ==> Reach(g, x, succ)
  {
    ReachRefl(g, n);
    forall x | x in active + {n}
      ensures Reach(g, x, succ)
    {
      assert t.num[x] <= t.num[n];
      ReachStep(g, x, n, succ);
    }
  }
}
