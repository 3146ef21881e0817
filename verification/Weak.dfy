// weak.go: weakly connected components.
module WeakComponents {
  import opened Digraphs
  import opened Graphs
  import opened Tarjans

  type FilterFunc = (State, Node) -> bool

  function FilterAll(s: State, n: Node): bool { true }

  function FilterLeaves(s: State, n: Node): bool { s.Out(n) == {} }

  function FilterRoots(s: State, n: Node): bool { s.In(n) == {} }

  // The graph with the direction of its edges ignored, and with all their ends.
  ghost function Undirected(s: State): Digraph {
    Digraphs.Digraph(s.Whole().nodes, map n | n in s.Whole().nodes :: s.Out(n) + s.In(n))
  }

  // What holds of every graph that operations can make.
  ghost predicate Made(s: State) {
    s.Transposed() && s.Sourced()
  }

  lemma UndirectedClosed(s: State)
    requires Made(s)
    ensures Undirected(s).Closed()
    ensures forall a, b :: Undirected(s).Edge(a, b) ==> Undirected(s).Edge(b, a)
  {
    var u, g := Undirected(s), s.Whole();
    WholeClosed(s);
    forall a, b | u.Edge(a, b)
      ensures a in g.nodes && b in g.nodes && u.Edge(b, a)
    {
      assert b in s.Out(a) <==> a in s.In(b);
      assert a in s.Out(b) <==> b in s.In(a);
      assert g.Edge(a, b) || g.Edge(b, a);
    }
  }

  ghost predicate Symmetric(u: Digraph) {
    forall a, b :: u.Edge(a, b) ==> u.Edge(b, a)
  }

  lemma ReachBack(u: Digraph, a: Node, b: Node)
    requires Symmetric(u) && Reach(u, a, b)
    ensures Reach(u, b, a)
  {
    var p :| PathFromTo(u, p, a, b);
    var q := seq(|p|, i requires 0 <= i < |p| => p[|p| - 1 - i]);
    forall i | 0 <= i < |q| - 1
      ensures Link(u, q, i)
    {
      assert Link(u, p, |p| - 2 - i);
    }
    assert PathFromTo(u, q, b, a);
  }

  // c holds, each once, the nodes that f keeps of the connectivity class of n.
  ghost predicate Kept(u: Digraph, s: State, f: FilterFunc, n: Node, c: seq<Node>) {
    NoDups(c) && forall m :: m in c <==> Reach(u, n, m) && f(s, m)
  }

  // The connectivity classes of s, cut down to what f keeps, empty ones dropped.
  ghost predicate WeakClasses(s: State, f: FilterFunc, result: seq<seq<Node>>) {
    var u := Undirected(s);
    && (forall i :: 0 <= i < |result| ==> result[i] != [] && NoDups(result[i]))
    && (forall i, a :: 0 <= i < |result| && a in result[i] ==> a in s.Whole().nodes && f(s, a))
    && (forall i, a, b :: 0 <= i < |result| && a in result[i] ==> (b in result[i] <==> Reach(u, a, b) && f(s, b)))
    && (forall i, j, a :: 0 <= i < j < |result| && a in result[i] ==> a !in result[j])
    && (forall n :: n in s.Whole().nodes && f(s, n) ==> exists i :: 0 <= i < |result| && n in result[i])
  }

  // neighbors lists the adjacent nodes; one joined both ways is listed twice.
  method Neighbors(g: Graph, n: Node) returns (out: seq<Node>)
    requires g.Valid()
    ensures Elems(out) == g.Value().Out(n) + g.Value().In(n)
  {
    var outs := ListOf(g.Succs(n));
    var ins := ListOf(g.Preds(n));
    out := outs + ins;
  }

  // Queue the neighbours not visited yet.
  method Expand(near: seq<Node>, visited: set<Node>, queue: seq<Node>)
    returns (visited': set<Node>, queue': seq<Node>)
    requires NoDups(queue) && Elems(queue) <= visited
    ensures visited' == visited + Elems(near)
    ensures NoDups(queue') && Elems(queue') == Elems(queue) + (Elems(near) - visited)
  {
    visited', queue' := visited, queue;
    for i := 0 to |near|
      invariant visited' == visited + Elems(near[..i])
      invariant NoDups(queue') && Elems(queue') == Elems(queue) + (Elems(near[..i]) - visited)
    {
      ElemsStep(near, i);
      if near[i] !in visited' {
        assert Elems(queue' + [near[i]]) == Elems(queue') + {near[i]};
        visited' := visited' + {near[i]};
        queue' := queue' + [near[i]];
      }
    }
    assert near[..|near|] == near;
  }

  // The search from n is under way: it found all but visited of all, and has
  // processed that except for queue.
  ghost predicate Searching(u: Digraph, s: State, f: FilterFunc, n: Node, visited: set<Node>, all: set<Node>,
                            queue: set<Node>, component: seq<Node>) {
    && visited <= all <= u.nodes && queue <= all - visited && n in all - visited
    && (forall m {:trigger Reach(u, n, m)} :: m in all - visited ==> Reach(u, n, m))
    && (forall a, b {:trigger u.Edge(a, b)} :: a in all - visited - queue && u.Edge(a, b) ==> b in all - visited)
    && NoDups(component)
    && (forall m :: m in component <==> m in all - visited - queue && f(s, m))
  }

  lemma SearchStep(u: Digraph, s: State, f: FilterFunc, n: Node, visited: set<Node>, all: set<Node>,
                   queue: set<Node>, component: seq<Node>, curr: Node)
    requires u.Closed() && Symmetric(u) && Stable(u, visited)
    requires curr !in queue && Searching(u, s, f, n, visited, all, queue + {curr}, component)
    ensures Searching(u, s, f, n, visited, all + u.Succ(curr), queue + (u.Succ(curr) - all),
                      if f(s, curr) then component + [curr] else component)
  {
    assert Reach(u, n, curr);
    forall m | m in u.Succ(curr)
      ensures Reach(u, n, m) && m !in visited && m in u.nodes
    {
      assert u.Edge(curr, m) && u.Edge(m, curr);
      ReachStep(u, n, curr, m);
    }
    forall b | u.Edge(curr, b)
      ensures b in u.Succ(curr)
    {
    }
  }

  lemma SearchEnd(u: Digraph, s: State, f: FilterFunc, n: Node, visited: set<Node>, all: set<Node>,
        component: seq<Node>)
    requires Stable(u, visited) && Searching(u, s, f, n, visited, all, {}, component)
    ensures Kept(u, s, f, n, component) && Stable(u, all)
    ensures forall m :: m in all <==> m in visited || Reach(u, n, m)
  {
    assert Stable(u, all - visited);
    forall m | Reach(u, n, m)
      ensures m in all - visited
    {
      StableReach(u, all - visited, n, m);
    }
  }

  // The breadth-first search from n, which adds n's class to visited.
  method Search(g: Graph, f: FilterFunc, n: Node, visited: set<Node>)
    returns (component: seq<Node>, visited': set<Node>)
    requires g.Valid() && Made(g.Value()) && n in g.Value().Whole().nodes && n !in visited
    requires visited <= g.Value().Whole().nodes && Stable(Undirected(g.Value()), visited)
    ensures Kept(Undirected(g.Value()), g.Value(), f, n, component)
    ensures visited' <= g.Value().Whole().nodes && Stable(Undirected(g.Value()), visited')
    ensures forall m :: m in visited' <==> m in visited || Reach(Undirected(g.Value()), n, m)
  {
    ghost var s, u := g.Value(), Undirected(g.Value());
    UndirectedClosed(s);
    ReachRefl(u, n);
    component := [];
    var queue := [n];
    visited' := visited + {n};
    while queue != []
      invariant NoDups(queue)
      invariant Searching(u, s, f, n, visited, visited', Elems(queue), component)
      decreases g.Value().Whole().nodes - visited', Elems(queue)
    {
      var curr := queue[0];
      assert Elems(queue) == Elems(queue[1..]) + {curr};
      queue := queue[1..];
      SearchStep(u, s, f, n, visited, visited', Elems(queue), component, curr);
      if f(g.Snapshot(), curr) {
        component := component + [curr];
      }
      var near := Neighbors(g, curr);
      assert Elems(near) == u.Succ(curr);
      visited', queue := Expand(near, visited', queue);
    }
    SearchEnd(u, s, f, n, visited, visited', component);
  }

  // Components listed so far are classes, and cover what has been visited.
  ghost predicate Listed(s: State, f: FilterFunc, visited: set<Node>, result: seq<seq<Node>>) {
    && (forall i :: 0 <= i < |result| ==> result[i] != [] && Elems(result[i]) <= visited)
    && (forall i :: 0 <= i < |result| ==> IsClass(s, f, result[i]))
    && (forall i, j, a :: 0 <= i < j < |result| && a in result[i] ==> a !in result[j])
    && (forall n :: n in visited && f(s, n) ==> exists i :: 0 <= i < |result| && n in result[i])
  }

  ghost predicate IsClass(s: State, f: FilterFunc, c: seq<Node>) {
    exists n :: n in s.Whole().nodes && Kept(Undirected(s), s, f, n, c)
  }

  lemma ListNext(s: State, f: FilterFunc, visited: set<Node>, result: seq<seq<Node>>,
                 n: Node, c: seq<Node>, visited': set<Node>)
    requires Listed(s, f, visited, result) && n in s.Whole().nodes
    requires Symmetric(Undirected(s)) && Stable(Undirected(s), visited) && n !in visited
    requires Kept(Undirected(s), s, f, n, c)
    requires forall m :: m in visited' <==> m in visited || Reach(Undirected(s), n, m)
    ensures Listed(s, f, visited', if c == [] then result else result + [c])
  {
    var u := Undirected(s);
    forall m | m in c
      ensures m !in visited && m in visited'
    {
      ReachBack(u, n, m);
      if m in visited { StableReach(u, visited, m, n); }
    }
    var result' := if c == [] then result else result + [c];
    forall m | m in visited' && f(s, m)
      ensures exists i :: 0 <= i < |result'| && m in result'[i]
    {
      if m in visited {
        var i :| 0 <= i < |result| && m in result[i];
        assert m in result'[i];
      } else {
        assert m in c && c == result'[|result|];
      }
    }
    assert c != [] ==> IsClass(s, f, c);
  }

  // A node that edges still lead to is joined to one that is there.
  lemma AllVisited(s: State, visited: set<Node>)
    requires Made(s) && Stable(Undirected(s), visited) && s.nodes <= visited <= s.Whole().nodes
    ensures visited == s.Whole().nodes
  {
    var G := s.Whole();
    forall m | m in G.nodes
      ensures m in visited
    {
      if m in s.out && s.out[m] != {} {
        var b :| b in s.out[m];
        assert b in s.Out(m);
      }
      if m !in s.nodes {
        var a :| a in s.out && m in s.out[a];
        assert m in s.Out(a);
        assert Undirected(s).Edge(a, m);
      }
    }
  }

  lemma ListEnd(s: State, f: FilterFunc, result: seq<seq<Node>>)
    requires Made(s) && Listed(s, f, s.Whole().nodes, result)
    ensures WeakClasses(s, f, result)
  {
    var u := Undirected(s);
    UndirectedClosed(s);
    forall i, a, b | 0 <= i < |result| && a in result[i]
      ensures b in result[i] <==> Reach(u, a, b) && f(s, b)
    {
      assert IsClass(s, f, result[i]);
      var n :| n in s.Whole().nodes && Kept(u, s, f, n, result[i]);
      ReachBack(u, n, a);
      if Reach(u, a, b) { ReachTrans(u, n, a, b); }
      if Reach(u, n, b) { ReachTrans(u, a, n, b); }
    }
  }

  // WeaklyConnectedComponents: the classes of connectivity ignoring direction,
  // cut down to what the filter keeps, empty ones dropped. A removed node that
  // edges still lead to counts as there.
  method WeaklyConnectedComponents(g: Graph, f: FilterFunc) returns (components: seq<seq<Node>>)
    requires g.Valid() && Made(g.Value())
    ensures WeakClasses(g.Value(), f, components)
  {
    ghost var s, u := g.Value(), Undirected(g.Value());
    UndirectedClosed(s);
    components := [];
    var visited := {};
    var nodes := g.Nodes();
    for i := 0 to |nodes|
      invariant visited <= g.Value().Whole().nodes && Stable(u, visited)
      invariant Elems(nodes[..i]) <= visited
      invariant Listed(s, f, visited, components)
    {
      ElemsStep(nodes, i);
      if nodes[i] !in visited {
        ReachRefl(u, nodes[i]);
        var component, visited' := Search(g, f, nodes[i], visited);
        ListNext(s, f, visited, components, nodes[i], component, visited');
        visited := visited';
        if component != [] {
          components := components + [component];
        }
      }
    }
    assert nodes[..|nodes|] == nodes;
    AllVisited(s, visited);
    ListEnd(s, f, components);
  }

  // With the filter that keeps everything the components partition the nodes.
  lemma AllFilterPartitions(s: State, result: seq<seq<Node>>)
    requires Made(s) && WeakClasses(s, FilterAll, result)
    ensures forall n :: n in s.Whole().nodes <==> exists i :: 0 <= i < |result| && n in result[i]
    ensures forall i, a, b :: 0 <= i < |result| && a in result[i] ==> (b in result[i] <==> Reach(Undirected(s), a, b))
  {
    forall n
      ensures n in s.Whole().nodes <==> exists i :: 0 <= i < |result| && n in result[i]
    {
      assert FilterAll(s, n);
    }
    forall i, a, b | 0 <= i < |result| && a in result[i]
      ensures b in result[i] <==> Reach(Undirected(s), a, b)
    {
      assert FilterAll(s, b);
    }
  }

  // c is what f keeps of whole.
  ghost predicate CutOf(s: State, f: FilterFunc, whole: seq<Node>, c: seq<Node>) {
    forall m :: m in c <==> m in whole && f(s, m)
  }

  // The class of a node that f keeps.
  lemma FilterCut(s: State, f: FilterFunc, result: seq<seq<Node>>, all: seq<seq<Node>>, i: nat,
        n: Node) returns (j: nat)
    requires WeakClasses(s, f, result) && WeakClasses(s, FilterAll, all)
    requires i < |all| && n in all[i] && f(s, n)
    ensures j < |result| && CutOf(s, f, all[i], result[j])
  {
    hide Undirected, Reach, State.Whole;
    assert n in s.Whole().nodes;
    j :| 0 <= j < |result| && n in result[j];
    forall m
      ensures m in result[j] <==> m in all[i] && f(s, m)
    {
      assert m in all[i] <==> Reach(Undirected(s), n, m) && FilterAll(s, m);
    }
  }

  // Any other filter gives those same classes with the other nodes left out.
  lemma FilterCuts(s: State, f: FilterFunc, result: seq<seq<Node>>, all: seq<seq<Node>>, i: nat)
    requires WeakClasses(s, f, result) && WeakClasses(s, FilterAll, all)
    requires i < |all|
    ensures (exists n :: n in all[i] && f(s, n)) <==>
            exists j :: 0 <= j < |result| && CutOf(s, f, all[i], result[j])
  {
    if j :| 0 <= j < |result| && CutOf(s, f, all[i], result[j]) {
      assert result[j][0] in result[j];
    }
    if n :| n in all[i] && f(s, n) {
      hide WeakClasses, CutOf;
      var j := FilterCut(s, f, result, all, i, n);
    }
  }
}
