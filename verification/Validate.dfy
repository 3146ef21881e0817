// ops.go: Validate reports every cycle.
module Validation {
  import opened Digraphs
  import opened Graphs
  import opened Tarjans

  // One error of the accumulated list.
  datatype Problem = Cycle(cycle: seq<Node>) | SelfReference(self: Node) {
    function Names(): set<Node> {
      match this
      case Cycle(ns) => Elems(ns)
      case SelfReference(n) => {n}
    }
  }

  // errs blames n.
  ghost predicate Blamed(errs: seq<Problem>, n: Node) {
    exists e :: e in errs && n in e.Names()
  }

  // The loop over the components of a partition reports exactly those with
  // more than one node; the loop over the edges, exactly the self-loops.
  ghost predicate Reported(g: Digraph, result: seq<seq<Node>>, errs: seq<Problem>) {
    forall e :: e in errs <==>
      match e
      case Cycle(c) => c in result && |c| > 1
      case SelfReference(n) => g.Edge(n, n)
  }

  // A node is on a cycle exactly when its component has another node or it has
  // a self-loop.
  lemma CyclicComponents(g: Digraph, result: seq<seq<Node>>, i: nat, n: Node)
    requires Components(g, g.nodes, result) && i < |result| && n in result[i]
    ensures OnCycle(g, n) <==> |result[i]| > 1 || g.Edge(n, n)
  {
    var c := result[i];
    assert |c| <= 1 ==> c == [n];
    if OnCycle(g, n) {
      var m :| g.Edge(n, m) && Reach(g, m, n);
      ReachEdge(g, n, m);
      assert Mutual(g, n, m);
    }
    if g.Edge(n, n) {
      ReachRefl(g, n);
    }
    if |c| > 1 {
      var m := if c[0] == n then c[1] else c[0];
      assert m in c && m != n && Mutual(g, n, m);
      var k := FirstEdge(g, n, m);
      ReachTrans(g, k, m, n);
    }
  }

  lemma ReportedBlames(g: Digraph, result: seq<seq<Node>>, errs: seq<Problem>)
    requires g.Closed() && Components(g, g.nodes, result) && Reported(g, result, errs)
    ensures forall n :: OnCycle(g, n) <==> Blamed(errs, n)
  {
    forall n
      ensures OnCycle(g, n) <==> Blamed(errs, n)
    {
      if Blamed(errs, n) {
        var e :| e in errs && n in e.Names();
        match e
        case Cycle(c) =>
          var i :| 0 <= i < |result| && result[i] == c;
          CyclicComponents(g, result, i, n);
        case SelfReference(m) =>
          ReachRefl(g, n);
      }
      if OnCycle(g, n) {
        assert n in g.nodes;
        var i :| 0 <= i < |result| && n in result[i];
        CyclicComponents(g, result, i, n);
        if g.Edge(n, n) {
          assert SelfReference(n) in errs && n in SelfReference(n).Names();
        } else {
          assert Cycle(result[i]) in errs && n in Cycle(result[i]).Names();
        }
      }
    }
  }

  // Paths and cycles are a matter of edges alone.
  lemma SameReach(g: Digraph, h: Digraph, a: Node, b: Node)
    requires g.out == h.out
    ensures Reach(g, a, b) <==> Reach(h, a, b)
  {
    if Reach(g, a, b) {
      var p :| PathFromTo(g, p, a, b);
      forall i | 0 <= i < |p| - 1
        ensures Link(h, p, i)
      {
        assert Link(g, p, i);
      }
      assert PathFromTo(h, p, a, b);
    }
    if Reach(h, a, b) {
      var p :| PathFromTo(h, p, a, b);
      forall i | 0 <= i < |p| - 1
        ensures Link(g, p, i)
      {
        assert Link(h, p, i);
      }
      assert PathFromTo(g, p, a, b);
    }
  }

  lemma SameCycles(g: Digraph, h: Digraph)
    requires g.out == h.out
    ensures forall a, b :: Reach(g, a, b) <==> Reach(h, a, b)
    ensures forall n :: OnCycle(g, n) <==> OnCycle(h, n)
  {
    forall a, b
      ensures Reach(g, a, b) <==> Reach(h, a, b)
    {
      SameReach(g, h, a, b);
    }
    forall n
      ensures OnCycle(g, n) <==> OnCycle(h, n)
    {
      if OnCycle(g, n) {
        var m :| g.Edge(n, m) && Reach(g, m, n);
        assert h.Edge(n, m) && Reach(h, m, n);
      }
      if OnCycle(h, n) {
        var m :| h.Edge(n, m) && Reach(h, m, n);
        assert g.Edge(n, m) && Reach(g, m, n);
      }
    }
  }

  ghost predicate BlamesCycles(g: Digraph, errs: seq<Problem>) {
    && (forall n :: OnCycle(g, n) <==> Blamed(errs, n))
    && (errs == [] <==> Acyclic(g))
    && (forall c :: Cycle(c) in errs ==>
          |c| > 1 && NoDups(c) && forall a, b :: a in c ==> (b in c <==> Mutual(g, a, b)))
    && (forall n :: SelfReference(n) in errs <==> g.Edge(n, n))
  }

  lemma ReportedMeans(g: Digraph, h: Digraph, result: seq<seq<Node>>, errs: seq<Problem>)
    requires g.out == h.out && h.Closed() && Components(h, h.nodes, result) && Reported(h, result, errs)
    ensures BlamesCycles(g, errs)
  {
    ReportedBlames(h, result, errs);
    SameCycles(g, h);
    if errs != [] {
      assert errs[0] in errs;
      SomeBlamed(errs);
    }
    forall c | Cycle(c) in errs
      ensures |c| > 1 && NoDups(c) && forall a, b :: a in c ==> (b in c <==> Mutual(g, a, b))
    {
      var i :| 0 <= i < |result| && result[i] == c;
      assert forall a, b :: Mutual(g, a, b) <==> Mutual(h, a, b);
    }
    assert forall n :: SelfReference(n) in errs <==> g.Edge(n, n);
  }

  // Validate blames exactly the nodes that lie on a directed cycle, self-loops
  // included, so it reports nothing exactly when the graph is acyclic. That
  // holds of every graph that operations can make, also where Remove left edges
  // to a node that is gone.
  method Validate(g: Graph) returns (errs: seq<Problem>)
    requires g.Valid() && g.Value().Sourced()
    ensures BlamesCycles(g.Value().Digraph(), errs)
  {
    hide Graph.Valid, State.Whole, State.Sourced, Components, Blamed, BlamesCycles, Digraph.Closed;
    ghost var G := g.Value().Whole();
    WholeClosed(g.Value());
    errs := [];
    var result := StronglyConnectedComponents(g);
    for i := 0 to |result|
      invariant forall e :: e in errs <==> e.Cycle? && |e.cycle| > 1 && e.cycle in result[..i]
    {
      if |result[i]| > 1 {
        errs := errs + [Cycle(result[i])];
      }
    }
    var edges := g.Edges();
    for i := 0 to |edges|
      invariant forall e :: e in errs <==>
        if e.Cycle? then |e.cycle| > 1 && e.cycle in result
        else Edge(e.self, e.self) in edges[..i]
    {
      if edges[i].from == edges[i].to {
        errs := errs + [SelfReference(edges[i].from)];
      }
    }
    assert Reported(G, result, errs);
    ReportedMeans(g.Value().Digraph(), G, result, errs);
  }

  lemma SomeBlamed(errs: seq<Problem>)
    requires errs != [] && (errs[0].Cycle? ==> |errs[0].cycle| > 1)
    ensures exists n :: Blamed(errs, n)
  {
    var e := errs[0];
    var n := if e.Cycle? then e.cycle[0] else e.self;
    assert n in e.Names();
    assert Blamed(errs, n);
  }
}
