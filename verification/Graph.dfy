// dag.go: the mutable graph.
module Graphs {
  import opened Digraphs

  datatype Edge = Edge(from: Node, to: Node)

  // The contents of a graph: its four maps.
  datatype State = State(nodeByID: map<string, Node>, nodes: set<Node>,
                         out: map<Node, set<Node>>, inc: map<Node, set<Node>>) {
    function Out(n: Node): set<Node> {
      if n in out then out[n] else {}
    }

    function In(n: Node): set<Node> {
      if n in inc then inc[n] else {}
    }

    function Digraph(): Digraph {
      Digraphs.Digraph(nodes, out)
    }

    // The nodes with all ends of edges. A node that is removed while another
    // points to it stays one of these.
    ghost function Whole(): Digraph {
      Digraphs.Digraph(nodes + (set a | a in out && out[a] != {}) + (set a, b | a in out && b in out[a] :: b), out)
    }

    // Every edge starts at a node.
    ghost predicate Sourced() {
      forall a, b :: b in Out(a) ==> a in nodes
    }

    // The incoming edges are exactly the outgoing edges read backwards.
    ghost predicate Transposed() {
      forall a, b :: b in Out(a) <==> a in In(b)
    }

    // nodeByID and nodes are in bijection through NodeID.
    ghost predicate Named() {
      && (forall n :: n in nodes ==> n.id in nodeByID && nodeByID[n.id] == n)
      && (forall id :: id in nodeByID ==> nodeByID[id] in nodes && nodeByID[id].id == id)
    }

    ghost predicate WellFormed() {
      Transposed() && Named() && Digraph().Closed()
    }
  }

  const EMPTY := State(map[], {}, map[], map[])

  // One update of the graph. None stands for a panic, which changes nothing.
  datatype Op = Add(n: Node) | Remove(n: Node) | AddEdge(e: Edge) | RemoveEdge(e: Edge)

  predicate Panics(s: State, op: Op) {
    match op
    case Add(n) => n.id in s.nodeByID && s.nodeByID[n.id] != n
    case AddEdge(e) => e.from !in s.nodes || e.to !in s.nodes
    case _ => false
  }

  function Step(s: State, op: Op): State {
    if Panics(s, op) then s else
    match op
    case Add(n) => s.(nodes := s.nodes + {n}, nodeByID := s.nodeByID[n.id := n])
    case Remove(n) =>
      if n !in s.nodes then s else
      State(s.nodeByID - {n.id}, s.nodes - {n}, s.out - {n},
            map k | k in s.inc :: s.inc[k] - {n})
    case AddEdge(e) =>
      s.(out := s.out[e.from := s.Out(e.from) + {e.to}],
         inc := s.inc[e.to := s.In(e.to) + {e.from}])
    case RemoveEdge(e) =>
      s.(out := if e.from in s.out then s.out[e.from := s.out[e.from] - {e.to}] else s.out,
         inc := if e.to in s.inc then s.inc[e.to := s.inc[e.to] - {e.from}] else s.inc)
  }

  function Run(s: State, ops: seq<Op>): State
    decreases |ops|
  {
    if ops == [] then s else Run(Step(s, ops[0]), ops[1..])
  }

  // Remove forgets only the edges into n that start at n itself.
  ghost predicate SafeRemove(s: State, op: Op) {
    op.Remove? && op.n in s.nodes ==> s.In(op.n) <= {op.n}
  }

  ghost predicate SafeRun(s: State, ops: seq<Op>)
    decreases |ops|
  {
    ops == [] || (SafeRemove(s, ops[0]) && SafeRun(Step(s, ops[0]), ops[1..]))
  }

  // What every operation keeps, whatever was done before.
  ghost predicate Kept(s: State) {
    s.Transposed() && s.Named() && s.Sourced()
  }

  lemma WholeClosed(s: State)
    ensures s.Whole().Closed() && s.Whole().out == s.out && forall n :: s.Whole().Succ(n) == s.Out(n)
    ensures s.Digraph().Closed() ==> s.Whole() == s.Digraph() && s.Sourced()
  {
    if s.Digraph().Closed() {
      forall a | a in s.out && s.out[a] != {}
        ensures a in s.nodes
      {
        var b :| b in s.out[a];
        assert s.Digraph().Edge(a, b);
      }
      forall a, b | b in s.Out(a)
        ensures a in s.nodes && b in s.nodes
      {
        assert s.Digraph().Edge(a, b);
      }
    }
  }

  lemma StepKeepsTransposed(s: State, op: Op)
    requires s.Transposed()
    ensures Step(s, op).Transposed()
  {
    var t := Step(s, op);
    forall a, b
      ensures b in t.Out(a) <==> a in t.In(b)
    {
      assert b in s.Out(a) <==> a in s.In(b);
    }
  }

  lemma StepKeepsSourced(s: State, op: Op)
    requires s.Sourced()
    ensures Step(s, op).Sourced()
  {
    var t := Step(s, op);
    forall a, b | b in t.Out(a)
      ensures a in t.nodes
    {
      if b in s.Out(a) {
        assert a in s.nodes;
      }
    }
  }

  lemma StepKeepsMaps(s: State, op: Op)
    requires Kept(s)
    ensures Kept(Step(s, op))
  {
    StepKeepsTransposed(s, op);
    StepKeepsSourced(s, op);
  }

  // All edges keep joining nodes, with one exact exception: removing a node
  // that another node still points to.
  lemma StepKeepsWellFormed(s: State, op: Op)
    requires s.WellFormed()
    ensures Step(s, op).WellFormed() <==> SafeRemove(s, op)
  {
    WholeClosed(s);
    StepKeepsMaps(s, op);
    var t := Step(s, op);
    if op.Remove? && op.n in s.nodes && !(s.In(op.n) <= {op.n}) {
      var m :| m in s.In(op.n) && m != op.n;
      assert op.n in s.Out(m);
      assert t.Digraph().Edge(m, op.n);
    } else {
      var g, h := s.Digraph(), t.Digraph();
      forall a, b | h.Edge(a, b)
        ensures a in h.nodes && b in h.nodes
      {
        if b in s.Out(a) {
          assert g.Closed() && g.Edge(a, b);
          assert a in g.nodes && b in g.nodes;
          assert a in s.In(b);
          match op
          case Add(n) =>
          case Remove(n) => assert n in s.nodes ==> a != n && b != n;
          case AddEdge(e) =>
          case RemoveEdge(e) =>
        } else {
          assert op.AddEdge? && a == op.e.from && b == op.e.to;
        }
      }
      assert h.Closed();
    }
  }

  // The edges after each operation, seen from either end. Remove leaves no edge
  // from n and every other edge as it was, so edges into n from other nodes survive.
  lemma StepEdges(s: State, op: Op, a: Node, b: Node)
    requires s.WellFormed()
    ensures b in Step(s, op).Out(a) <==>
            match op
            case Add(_) => b in s.Out(a)
            case Remove(n) => b in s.Out(a) && a != n
            case AddEdge(e) => b in s.Out(a) || (e == Edge(a, b) && a in s.nodes && b in s.nodes)
            case RemoveEdge(e) => b in s.Out(a) && e != Edge(a, b)
    ensures a in Step(s, op).In(b) <==> b in Step(s, op).Out(a)
  {
    WholeClosed(s);
    StepKeepsMaps(s, op);
    if op.Remove? && op.n !in s.nodes && b in s.Out(a) {
      assert s.Digraph().Closed() && s.Digraph().Edge(a, b);
    }
  }

  // Removing an edge just added gives back the edges there were.
  lemma EdgeUndone(s: State, e: Edge, a: Node, b: Node)
    requires s.WellFormed() && e.to !in s.Out(e.from)
    ensures b in Step(Step(s, Op.AddEdge(e)), Op.RemoveEdge(e)).Out(a) <==> b in s.Out(a)
    ensures a in Step(Step(s, Op.AddEdge(e)), Op.RemoveEdge(e)).In(b) <==> a in s.In(b)
  {
    StepKeepsWellFormed(s, Op.AddEdge(e));
    StepEdges(s, Op.AddEdge(e), a, b);
    StepEdges(Step(s, Op.AddEdge(e)), Op.RemoveEdge(e), a, b);
  }

  // A run from a well-formed graph in which every Remove is safe ends well
  // formed; any run at all keeps the maps transposed, the names in bijection and
  // edges starting at nodes.
  lemma {:induction false} RunKeeps(s: State, ops: seq<Op>)
    requires Kept(s)
    ensures Kept(Run(s, ops))
    ensures s.WellFormed() && SafeRun(s, ops) ==> Run(s, ops).WellFormed()
    decreases |ops|
  {
    if ops != [] {
      StepKeepsMaps(s, ops[0]);
      if s.WellFormed() {
        StepKeepsWellFormed(s, ops[0]);
      }
      RunKeeps(Step(s, ops[0]), ops[1..]);
    }
  }

  // The comment on Remove promises that every edge to n goes too. With an edge
  // from another node to n it does not.
  lemma RemoveLeavesDanglingEdge() returns (ops: seq<Op>, a: Node, b: Node)
    ensures b in Run(EMPTY, ops).Out(a) && b !in Run(EMPTY, ops).nodes
  {
    a, b := Node(0, "a"), Node(1, "b");
    var e := Edge(a, b);
    ops := [Op.Add(a), Op.Add(b), Op.AddEdge(e), Op.Remove(b)];
    var s1 := Step(EMPTY, Op.Add(a));
    var s2 := Step(s1, Op.Add(b));
    var s3 := Step(s2, Op.AddEdge(e));
    var s4 := Step(s3, Op.Remove(b));
    calc {
      Run(EMPTY, ops);
      { assert ops[1..] == [Op.Add(b), Op.AddEdge(e), Op.Remove(b)]; }
      Run(s1, [Op.Add(b), Op.AddEdge(e), Op.Remove(b)]);
      { assert [Op.Add(b), Op.AddEdge(e), Op.Remove(b)][1..] == [Op.AddEdge(e), Op.Remove(b)]; }
      Run(s2, [Op.AddEdge(e), Op.Remove(b)]);
      { assert [Op.AddEdge(e), Op.Remove(b)][1..] == [Op.Remove(b)]; }
      Run(s3, [Op.Remove(b)]);
      { assert [Op.Remove(b)][1..] == []; }
      Run(s4, []);
      s4;
    }
    assert "a"[0] != "b"[0];
    assert s2.nodeByID["a"] == a;
    assert b in s3.Out(a) && b in s3.nodes;
  }

  // nodeSet: a set updated in place, so that who holds one sees its updates.
  class NodeSet {
    var elems: set<Node>

    constructor ()
      ensures elems == {}
    {
      elems := {};
    }

    method Add(n: Node)
      modifies this
      ensures elems == old(elems) + {n}
    {
      elems := elems + {n};
    }

    method Remove(n: Node)
      modifies this
      ensures elems == old(elems) - {n}
    {
      elems := elems - {n};
    }

    method Clone() returns (newSet: NodeSet)
      ensures fresh(newSet) && newSet.elems == elems
    {
      newSet := new NodeSet();
      var todo := elems;
      while todo != {}
        invariant todo <= elems && fresh(newSet) && newSet.elems == elems - todo
        decreases todo
      {
        var node :| node in todo;
        newSet.Add(node);
        todo := todo - {node};
      }
    }
  }

  // No two keys share a set.
  ghost predicate Unshared(m: map<Node, NodeSet>) {
    forall a, b :: a in m && b in m && a != b ==> m[a] != m[b]
  }

  ghost predicate Within(m: map<Node, NodeSet>, repr: set<NodeSet>) {
    forall n :: n in m ==> m[n] in repr
  }

  // m holds what v says.
  ghost predicate Holds(m: map<Node, NodeSet>, v: map<Node, set<Node>>, repr: set<NodeSet>)
    requires Within(m, repr)
    reads repr
  {
    m.Keys == v.Keys && forall n :: n in m ==> m[n].elems == v[n]
  }

  // A copy of every set.
  method CloneSets(m: map<Node, NodeSet>, ghost v: map<Node, set<Node>>, ghost repr: set<NodeSet>)
    returns (r: map<Node, NodeSet>, ghost made: set<NodeSet>)
    requires Within(m, repr) && Holds(m, v, repr)
    ensures fresh(made) && Within(r, made) && Unshared(r) && Holds(r, v, made)
  {
    r, made := map[], {};
    var todo := m.Keys;
    while todo != {}
      invariant todo <= m.Keys && r.Keys == m.Keys - todo && Unshared(r)
      invariant fresh(made) && Within(r, made) && forall n :: n in r ==> r[n].elems == v[n]
      decreases todo
    {
      var node :| node in todo;
      var newSet := m[node].Clone();
      r, made := r[node := newSet], made + {newSet};
      todo := todo - {node};
    }
  }

  lemma SetTwice(m: map<Node, set<Node>>, k: Node, v: set<Node>, w: set<Node>)
    ensures m[k := v][k := w] == m[k := w]
  {
  }

  // Repr holds the sets that belong to the graph; what they and the maps hold is
  // contents.
  class Graph {
    var nodeByID: map<string, Node>
    var nodes: NodeSet
    var outEdges: map<Node, NodeSet>
    var inEdges: map<Node, NodeSet>
    ghost var contents: State
    ghost var Repr: set<NodeSet>

    ghost predicate Valid()
      reads this, Repr
    {
      && nodes in Repr && Within(outEdges, Repr) && Within(inEdges, Repr) && Apart()
      && contents.nodeByID == nodeByID && contents.nodes == nodes.elems
      && Holds(outEdges, contents.out, Repr) && Holds(inEdges, contents.inc, Repr)
    }

    // No set serves two purposes.
    ghost predicate Apart()
      reads this
    {
      && Unshared(outEdges) && Unshared(inEdges)
      && (forall n :: n in outEdges ==> outEdges[n] != nodes)
      && (forall n :: n in inEdges ==> inEdges[n] != nodes)
      && (forall m, n :: m in outEdges && n in inEdges ==> outEdges[m] != inEdges[n])
    }

    ghost function Value(): State
      reads this
    {
      contents
    }

    // What is in the maps and sets now.
    function Snapshot(): (s: State)
      requires Valid()
      reads this, Repr
      ensures s == Value()
    {
      State(nodeByID, nodes.elems, map n | n in outEdges :: outEdges[n].elems, map n | n in inEdges :: inEdges[n].elems)
    }

    constructor ()
      ensures Valid() && fresh(Repr) && Value() == EMPTY
    {
      nodeByID, outEdges, inEdges, contents := map[], map[], map[], EMPTY;
      var ns := new NodeSet();
      nodes, Repr := ns, {ns};
    }

    // A graph of sets that nothing else uses.
    constructor Of(nodeByID: map<string, Node>, nodes: NodeSet, outs: map<Node, NodeSet>, ins: map<Node, NodeSet>,
                   ghost v: State, ghost outRepr: set<NodeSet>, ghost inRepr: set<NodeSet>)
      requires v.nodeByID == nodeByID && v.nodes == nodes.elems
      requires Within(outs, outRepr) && Unshared(outs) && Holds(outs, v.out, outRepr)
      requires Within(ins, inRepr) && Unshared(ins) && Holds(ins, v.inc, inRepr)
      requires nodes !in outRepr && nodes !in inRepr && outRepr !! inRepr
      ensures Valid() && Value() == v && Repr == {nodes} + outRepr + inRepr
    {
      this.nodeByID, this.nodes, outEdges, inEdges := nodeByID, nodes, outs, ins;
      contents, Repr := v, {nodes} + outRepr + inRepr;
    }

    method Add(n: Node) returns (panic: bool)
      requires Valid()
      modifies this, Repr
      ensures Valid() && fresh(Repr - old(Repr))
      ensures panic == Panics(old(Value()), Op.Add(n))
      ensures Value() == Step(old(Value()), Op.Add(n))
    {
      if n.id in nodeByID && nodeByID[n.id] != n {
        return true;
      }
      nodes.Add(n);
      nodeByID := nodeByID[n.id := n];
      contents := Step(contents, Op.Add(n));
      return false;
    }

    method Remove(n: Node)
      requires Valid()
      modifies this, Repr
      ensures Valid() && fresh(Repr - old(Repr))
      ensures Value() == Step(old(Value()), Op.Remove(n))
    {
      if n !in nodes.elems {
        return;
      }
      nodeByID := nodeByID - {n.id};
      nodes.Remove(n);
      outEdges := outEdges - {n};
      contents := contents.(nodeByID := nodeByID, nodes := nodes.elems, out := contents.out - {n});
      RemoveTarget(n);
    }

    // Takes n out of the sets of incoming edges.
    method RemoveTarget(n: Node)
      requires Valid()
      modifies this`contents, Repr
      ensures Valid()
      ensures Value() == old(Value()).(inc := map k | k in old(Value()).inc :: old(Value()).inc[k] - {n})
    {
      var todo := inEdges.Keys;
      while todo != {}
        invariant todo <= inEdges.Keys && Valid()
        invariant contents == old(contents).(inc := contents.inc) && contents.inc.Keys == inEdges.Keys
        invariant forall k :: k in inEdges ==>
          contents.inc[k] == if k in todo then old(contents.inc)[k] else old(contents.inc)[k] - {n}
        decreases todo
      {
        var k :| k in todo;
        DropIn(k, n);
        todo := todo - {k};
      }
    }

    method AddEdge(e: Edge) returns (panic: bool)
      requires Valid()
      modifies this, Repr
      ensures Valid() && fresh(Repr - old(Repr))
      ensures panic == Panics(old(Value()), Op.AddEdge(e))
      ensures Value() == Step(old(Value()), Op.AddEdge(e))
    {
      if e.from !in nodes.elems || e.to !in nodes.elems {
        return true;
      }
      AddIn(e.to, e.from);
      AddOut(e.from, e.to);
      return false;
    }

    method AddIn(k: Node, n: Node)
      requires Valid()
      modifies this`inEdges, this`contents, this`Repr, Repr
      ensures Valid() && fresh(Repr - old(Repr))
      ensures Value() == old(Value()).(inc := old(Value()).inc[k := old(Value()).In(k) + {n}])
    {
      hide Graph.Valid;
      MakeIn(k);
      GrowIn(k, n);
      SetTwice(old(contents.inc), k, old(Value()).In(k), old(Value()).In(k) + {n});
    }

    // Makes the set of nodes that depend on n, if it is not there.
    method MakeIn(n: Node)
      requires Valid()
      modifies this`inEdges, this`contents, this`Repr
      ensures Valid() && fresh(Repr - old(Repr)) && n in inEdges && inEdges[n] in Repr
      ensures Value() == old(Value()).(inc := old(Value()).inc[n := old(Value()).In(n)])
    {
      if n !in inEdges {
        var made := new NodeSet();
        Repr := Repr + {made};
        inEdges := inEdges[n := made];
        contents := contents.(inc := contents.inc[n := {}]);
      }
    }

    method GrowIn(k: Node, n: Node)
      requires Valid() && k in inEdges
      modifies this`contents, inEdges[k]
      ensures Valid() && Value() == old(Value()).(inc := old(Value()).inc[k := old(Value()).inc[k] + {n}])
    {
      inEdges[k].Add(n);
      contents := contents.(inc := contents.inc[k := contents.inc[k] + {n}]);
    }

    method AddOut(k: Node, n: Node)
      requires Valid()
      modifies this`outEdges, this`contents, this`Repr, Repr
      ensures Valid() && fresh(Repr - old(Repr))
      ensures Value() == old(Value()).(out := old(Value()).out[k := old(Value()).Out(k) + {n}])
    {
      hide Graph.Valid;
      MakeOut(k);
      GrowOut(k, n);
      SetTwice(old(contents.out), k, old(Value()).Out(k), old(Value()).Out(k) + {n});
    }

    // Makes the set of nodes that n depends on, if it is not there.
    method MakeOut(n: Node)
      requires Valid()
      modifies this`outEdges, this`contents, this`Repr
      ensures Valid() && fresh(Repr - old(Repr)) && n in outEdges && outEdges[n] in Repr
      ensures Value() == old(Value()).(out := old(Value()).out[n := old(Value()).Out(n)])
    {
      if n !in outEdges {
        var made := new NodeSet();
        Repr := Repr + {made};
        outEdges := outEdges[n := made];
        contents := contents.(out := contents.out[n := {}]);
      }
    }

    method GrowOut(k: Node, n: Node)
      requires Valid() && k in outEdges
      modifies this`contents, outEdges[k]
      ensures Valid() && Value() == old(Value()).(out := old(Value()).out[k := old(Value()).out[k] + {n}])
    {
      outEdges[k].Add(n);
      contents := contents.(out := contents.out[k := contents.out[k] + {n}]);
    }

    method RemoveEdge(e: Edge)
      requires Valid()
      modifies this, Repr
      ensures Valid() && fresh(Repr - old(Repr))
      ensures Value() == Step(old(Value()), Op.RemoveEdge(e))
    {
      if e.to in inEdges {
        DropIn(e.to, e.from);
      }
      if e.from in outEdges {
        DropOut(e.from, e.to);
      }
    }

    method DropIn(k: Node, n: Node)
      requires Valid() && k in inEdges
      modifies this`contents, inEdges[k]
      ensures Valid() && Value() == old(Value()).(inc := old(Value()).inc[k := old(Value()).inc[k] - {n}])
    {
      inEdges[k].Remove(n);
      contents := contents.(inc := contents.inc[k := contents.inc[k] - {n}]);
    }

    method DropOut(k: Node, n: Node)
      requires Valid() && k in outEdges
      modifies this`contents, outEdges[k]
      ensures Valid() && Value() == old(Value()).(out := old(Value()).out[k := old(Value()).out[k] - {n}])
    {
      outEdges[k].Remove(n);
      contents := contents.(out := contents.out[k := contents.out[k] - {n}]);
    }

    method Nodes() returns (res: seq<Node>)
      requires Valid()
      ensures Lists(res, Value().nodes)
    {
      res := ListOf(nodes.elems);
    }

    // The nodes that n depends on: g.outEdges[n], which is empty where there is none.
    function Succs(n: Node): (s: set<Node>)
      requires Valid()
      reads this, Repr
      ensures s == Value().Out(n)
    {
      if n in outEdges then outEdges[n].elems else {}
    }

    // The nodes that depend on n.
    function Preds(n: Node): (s: set<Node>)
      requires Valid()
      reads this, Repr
      ensures s == Value().In(n)
    {
      if n in inEdges then inEdges[n].elems else {}
    }

    method Edges() returns (res: seq<Edge>)
      requires Valid()
      ensures forall e :: e in res <==> e.to in Value().Out(e.from)
    {
      res := [];
      var froms := outEdges.Keys;
      while froms != {}
        invariant froms <= outEdges.Keys
        invariant forall e :: e in res <==> e.from !in froms && e.to in Value().Out(e.from)
        decreases froms
      {
        var from :| from in froms;
        var tos := Succs(from);
        while tos != {}
          invariant tos <= Value().Out(from)
          invariant forall e :: e in res <==>
            e.to in Value().Out(e.from) && (e.from !in froms || (e.from == from && e.to !in tos))
          decreases tos
        {
          var to :| to in tos;
          res := res + [Edge(from, to)];
          tos := tos - {to};
        }
        froms := froms - {from};
      }
    }

    method Dependants(n: Node) returns (res: seq<Node>)
      requires Valid()
      ensures Lists(res, Value().In(n))
    {
      res := ListOf(Preds(n));
    }

    method Dependencies(n: Node) returns (res: seq<Node>)
      requires Valid()
      ensures Lists(res, Value().Out(n))
    {
      res := ListOf(Succs(n));
    }

    // The nodes without dependants.
    method Roots() returns (res: seq<Node>)
      requires Valid()
      ensures Lists(res, set n | n in Value().nodes && Value().In(n) == {})
    {
      res := [];
      var todo := nodes.elems;
      while todo != {}
        invariant todo <= Value().nodes
        invariant forall n :: n in res <==> n in Value().nodes && n !in todo && Value().In(n) == {}
        invariant NoDups(res)
        decreases todo
      {
        var n :| n in todo;
        if Preds(n) == {} { res := res + [n]; }
        todo := todo - {n};
      }
    }

    // The nodes without dependencies.
    method Leaves() returns (res: seq<Node>)
      requires Valid()
      ensures Lists(res, set n | n in Value().nodes && Value().Out(n) == {})
    {
      res := [];
      var todo := nodes.elems;
      while todo != {}
        invariant todo <= Value().nodes
        invariant forall n :: n in res <==> n in Value().nodes && n !in todo && Value().Out(n) == {}
        invariant NoDups(res)
        decreases todo
      {
        var n :| n in todo;
        if Succs(n) == {} { res := res + [n]; }
        todo := todo - {n};
      }
    }

    // The copy holds the same and shares no set with the original.
    method Clone() returns (newGraph: Graph)
      requires Valid()
      ensures fresh(newGraph) && fresh(newGraph.Repr) && newGraph.Valid() && newGraph.Value() == Value()
    {
      var ns := nodes.Clone();
      var outs, outRepr := CloneSets(outEdges, contents.out, Repr);
      var ins, inRepr := CloneSets(inEdges, contents.inc, Repr);
      newGraph := new Graph.Of(nodeByID, ns, outs, ins, contents, outRepr, inRepr);
    }
  }

  ghost predicate NoDups(ns: seq<Node>) {
    forall i, j :: 0 <= i < j < |ns| ==> ns[i] != ns[j]
  }

  // res holds the elements of s, each once, in some order.
  ghost predicate Lists(res: seq<Node>, s: set<Node>) {
    (forall n :: n in res <==> n in s) && NoDups(res)
  }

  // Ranging over a Go map visits its keys in an order the language leaves open.
  method ListOf(s: set<Node>) returns (res: seq<Node>)
    ensures Lists(res, s)
  {
    res := [];
    var todo := s;
    while todo != {}
      invariant todo <= s && Lists(res, s - todo)
      decreases todo
    {
      var n :| n in todo;
      res := res + [n];
      todo := todo - {n};
    }
  }

  // Apply makes a list of calls; the graph then holds what Run computes.
  method Apply(g: Graph, ops: seq<Op>)
    requires g.Valid()
    modifies g, g.Repr
    ensures g.Valid() && fresh(g.Repr - old(g.Repr))
    ensures g.Value() == Run(old(g.Value()), ops)
    decreases |ops|
  {
    if ops == [] { return; }
    match ops[0] {
      case Add(n) => var _ := g.Add(n);
      case Remove(n) => g.Remove(n);
      case AddEdge(e) => var _ := g.AddEdge(e);
      case RemoveEdge(e) => g.RemoveEdge(e);
    }
    Apply(g, ops[1..]);
  }

  // Whatever is done to a clone in place, no set of the original changes; and
  // the other way round.
  method ApplyToClone(g: Graph, ops: seq<Op>) returns (c: Graph)
    requires g.Valid()
    ensures fresh(c) && fresh(c.Repr) && c.Valid() && c.Value() == Run(g.Value(), ops)
    ensures g.Valid() && g.Value() == old(g.Value()) && g.Snapshot() == old(g.Snapshot())
  {
    c := g.Clone();
    Apply(c, ops);
  }

  method ApplyAfterClone(g: Graph, ops: seq<Op>) returns (c: Graph)
    requires g.Valid()
    modifies g, g.Repr
    ensures fresh(c) && fresh(c.Repr) && c.Valid() && c.Snapshot() == old(g.Snapshot())
    ensures g.Valid() && g.Value() == Run(old(g.Value()), ops)
  {
    c := g.Clone();
    Apply(g, ops);
  }
}
