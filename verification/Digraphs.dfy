// Directed graphs as values: the vocabulary in which the results about
// package dag are stated. A node's identity is its key; its display name is
// its id, so two different nodes may carry the same id.
module Digraphs {

  datatype Node = Node(key: nat, id: string)

  datatype Digraph = Digraph(nodes: set<Node>, out: map<Node, set<Node>>) {
    function Succ(n: Node): set<Node> {
      if n in out then out[n] else {}
    }

    predicate Edge(a: Node, b: Node) {
      b in Succ(a)
    }

    // Every edge joins two nodes of the graph.
    ghost predicate Closed() {
      forall a, b :: Edge(a, b) ==> a in nodes && b in nodes
    }
  }

  // The i-th step of p follows an edge.
  ghost predicate Link(g: Digraph, p: seq<Node>, i: nat)
    requires i < |p| - 1
  {
    g.Edge(p[i], p[i + 1])
  }

  ghost predicate IsPath(g: Digraph, p: seq<Node>) {
    |p| > 0 && forall i :: 0 <= i < |p| - 1 ==> Link(g, p, i)
  }

  ghost predicate PathFromTo(g: Digraph, p: seq<Node>, a: Node, b: Node) {
    IsPath(g, p) && p[0] == a && p[|p| - 1] == b
  }

  // b can be reached from a along zero or more edges.
  ghost predicate Reach(g: Digraph, a: Node, b: Node) {
    exists p :: PathFromTo(g, p, a, b)
  }

  ghost predicate Mutual(g: Digraph, a: Node, b: Node) {
    Reach(g, a, b) && Reach(g, b, a)
  }

  // n lies on a directed cycle, a self-loop included.
  ghost predicate OnCycle(g: Digraph, n: Node) {
    exists m :: g.Edge(n, m) && Reach(g, m, n)
  }

  ghost predicate Acyclic(g: Digraph) {
    forall n :: !OnCycle(g, n)
  }

  // No edge leaves s.
  ghost predicate Stable(g: Digraph, s: set<Node>) {
    forall a, b :: a in s && g.Edge(a, b) ==> b in s
  }

  lemma ReachRefl(g: Digraph, a: Node)
    ensures Reach(g, a, a)
  {
    assert PathFromTo(g, [a], a, a);
  }

  lemma ReachTrans(g: Digraph, a: Node, b: Node, c: Node)
    requires Reach(g, a, b) && Reach(g, b, c)
    ensures Reach(g, a, c)
  {
    var p :| PathFromTo(g, p, a, b);
    var q :| PathFromTo(g, q, b, c);
    var r := p + q[1..];
    forall i | 0 <= i < |r| - 1
      ensures Link(g, r, i)
    {
      if i < |p| - 1 {
        assert Link(g, p, i);
      } else {
        assert Link(g, q, i - (|p| - 1));
      }
    }
    assert PathFromTo(g, r, a, c);
  }

  lemma ReachEdge(g: Digraph, a: Node, b: Node)
    requires g.Edge(a, b)
    ensures Reach(g, a, b)
  {
    assert Link(g, [a, b], 0);
    assert PathFromTo(g, [a, b], a, b);
  }

  lemma ReachStep(g: Digraph, a: Node, b: Node, c: Node)
    requires Reach(g, a, b) && g.Edge(b, c)
    ensures Reach(g, a, c)
  {
    ReachEdge(g, b, c);
    ReachTrans(g, a, b, c);
  }

  lemma TailPath(g: Digraph, p: seq<Node>)
    requires IsPath(g, p) && |p| > 1
    ensures IsPath(g, p[1..])
  {
    forall i | 0 <= i < |p[1..]| - 1
      ensures Link(g, p[1..], i)
    {
      assert Link(g, p, i + 1);
    }
  }

  // A path cannot leave a stable set.
  lemma {:induction false} StablePath(g: Digraph, s: set<Node>, p: seq<Node>)
    requires Stable(g, s) && IsPath(g, p) && p[0] in s
    ensures p[|p| - 1] in s
    decreases |p|
  {
    if |p| > 1 {
      assert Link(g, p, 0);
      TailPath(g, p);
      StablePath(g, s, p[1..]);
    }
  }

  lemma StableReach(g: Digraph, s: set<Node>, a: Node, b: Node)
    requires Stable(g, s) && a in s && Reach(g, a, b)
    ensures b in s
  {
    var p :| PathFromTo(g, p, a, b);
    StablePath(g, s, p);
  }

  // A nonempty reach takes a first edge.
  lemma FirstEdge(g: Digraph, a: Node, b: Node) returns (m: Node)
    requires Reach(g, a, b) && a != b
    ensures g.Edge(a, m) && Reach(g, m, b)
  {
    var p :| PathFromTo(g, p, a, b);
    assert Link(g, p, 0);
    m := p[1];
    TailPath(g, p);
    assert PathFromTo(g, p[1..], m, b);
  }
}
