/**
 * A workflow's declared topology as data: the nodes passed to `add_node` and
 * the pairs passed to `add_edge`, with the START and END sentinels.
 */
module Graphs {
  datatype Endpoint = Start | End | Node(name: string)

  datatype Edge = Edge(src: Endpoint, dst: Endpoint)

  /** The registered node ids (unique by construction) and the declared edges. */
  datatype Graph = Graph(nodes: set<string>, edges: set<Edge>)

  /** Every edge joins declared nodes; START is never a target and END never a source. */
  predicate EdgesDeclared(g: Graph) {
    forall e :: e in g.edges ==>
      && !e.src.End? && !e.dst.Start?
      && (e.src.Node? ==> e.src.name in g.nodes)
      && (e.dst.Node? ==> e.dst.name in g.nodes)
  }

  /** The endpoints with an edge into `n`. */
  function Preds(g: Graph, n: Endpoint): set<Endpoint> {
    set e | e in g.edges && e.dst == n :: e.src
  }

  /** The endpoints `n` has an edge to: more than one is a fan-out. */
  function Succs(g: Graph, n: Endpoint): set<Endpoint> {
    set e | e in g.edges && e.src == n :: e.dst
  }

  /** Consecutive endpoints of `p` are joined by declared edges. */
  predicate IsPath(g: Graph, p: seq<Endpoint>) {
    |p| >= 1 && forall i :: 0 <= i < |p| - 1 ==> Edge(p[i], p[i + 1]) in g.edges
  }

  ghost predicate Reaches(g: Graph, a: Endpoint, b: Endpoint) {
    exists p :: IsPath(g, p) && p[0] == a && p[|p| - 1] == b
  }

  /**
   * What compiling a graph demands: edges join declared nodes, and every node
   * is reachable from START and has a path to END.
   */
  ghost predicate WellFormed(g: Graph) {
    && EdgesDeclared(g)
    && (forall n :: n in g.nodes ==> Reaches(g, Start, Node(n)) && Reaches(g, Node(n), End))
  }

  /** A declared path is a witness of reachability. */
  lemma PathReaches(g: Graph, p: seq<Endpoint>)
    requires IsPath(g, p)
    ensures Reaches(g, p[0], p[|p| - 1])
  {
  }

  /** Every endpoint on a START-to-END path is reachable from START and reaches END. */
  lemma OnStartEndPath(g: Graph, p: seq<Endpoint>, x: Endpoint)
    requires IsPath(g, p) && p[0] == Start && p[|p| - 1] == End
    requires x in p
    ensures Reaches(g, Start, x) && Reaches(g, x, End)
  {
    var i :| 0 <= i < |p| && p[i] == x;
    assert IsPath(g, p[..i + 1]);
    assert IsPath(g, p[i..]);
    PathReaches(g, p[..i + 1]);
    PathReaches(g, p[i..]);
  }

  /** A graph whose edges join declared nodes and whose nodes all lie on two START-to-END paths compiles. */
  lemma CoveredByPaths(g: Graph, p: seq<Endpoint>, q: seq<Endpoint>)
    requires EdgesDeclared(g)
    requires IsPath(g, p) && p[0] == Start && p[|p| - 1] == End
    requires IsPath(g, q) && q[0] == Start && q[|q| - 1] == End
    requires forall n :: n in g.nodes ==> Node(n) in p || Node(n) in q
    ensures WellFormed(g)
  {
    forall n | n in g.nodes
      ensures Reaches(g, Start, Node(n)) && Reaches(g, Node(n), End)
    {
      if Node(n) in p {
        OnStartEndPath(g, p, Node(n));
      } else {
        OnStartEndPath(g, q, Node(n));
      }
    }
  }

  /** START fans out to every node and every node fans in to END. */
  function FanGraph(nodes: set<string>): Graph {
    Graph(nodes, (set n | n in nodes :: Edge(Start, Node(n))) + (set n | n in nodes :: Edge(Node(n), End)))
  }

  /** A fan graph compiles, and its START successors, END predecessors and node predecessors are as drawn. */
  lemma FanGraphShape(nodes: set<string>)
    ensures WellFormed(FanGraph(nodes))
    ensures Succs(FanGraph(nodes), Start) == set n | n in nodes :: Node(n)
    ensures Preds(FanGraph(nodes), End) == set n | n in nodes :: Node(n)
    ensures forall n :: n in nodes ==> Preds(FanGraph(nodes), Node(n)) == {Start}
  {
    var g := FanGraph(nodes);
    forall n | n in nodes
      ensures Reaches(g, Start, Node(n)) && Reaches(g, Node(n), End)
    {
      assert Edge(Start, Node(n)) in g.edges;
      assert Edge(Node(n), End) in g.edges;
      PathReaches(g, [Start, Node(n)]);
      PathReaches(g, [Node(n), End]);
    }
    forall x | x in set n | n in nodes :: Node(n)
      ensures x in Succs(g, Start) && x in Preds(g, End)
    {
      assert Edge(Start, x) in g.edges && Edge(x, End) in g.edges;
    }
    forall n | n in nodes
      ensures Preds(g, Node(n)) == {Start}
    {
      assert Edge(Start, Node(n)) in g.edges;
    }
  }
}
