/**
 * The part of a directed graph (networkx's DiGraph) that the projection uses:
 * a node set, an attribute dictionary per node, and one label per directed
 * (source, target) pair.
 */
module Graphs {

  /** A node's attribute dictionary (`shape`, `style`, `fillcolor`, ...). */
  type Attrs = map<string, string>

  /** A directed edge, as the (source, target) pair of node labels. */
  type Edge = (string, string)

  /** The state of a DiGraph as a value. */
  datatype Graph = Graph(nodes: set<string>, attrs: map<string, Attrs>, edges: map<Edge, string>)
  {
    /** Every node has an attribute dictionary and every edge joins two nodes. */
    predicate Valid()
    {
      && attrs.Keys == nodes
      && forall e | e in edges :: e.0 in nodes && e.1 in nodes
    }

    /** `other` keeps every node, edge and attribute of this graph. */
    predicate GrowsTo(other: Graph)
    {
      && nodes <= other.nodes
      && edges.Keys <= other.edges.Keys
      && forall n | n in attrs :: n in other.attrs && attrs[n].Keys <= other.attrs[n].Keys
    }

    /** The attributes of n, or none if n is not a node. */
    function AttrsOf(n: string): Attrs
    {
      if n in attrs then attrs[n] else map[]
    }
  }

  /** A fresh `nx.DiGraph()`: no nodes, no edges. */
  const Empty: Graph := Graph({}, map[], map[])

  /**
   * `G.add_node(n, **attr)`: adds n with the attributes `attr` if it is new;
   * otherwise merges `attr` into the attributes n already has.
   */
  function WithNode(g: Graph, n: string, attr: Attrs): (r: Graph)
    requires g.Valid()
    ensures r.Valid() && g.GrowsTo(r)
    ensures r.nodes == g.nodes + {n} && r.edges == g.edges
    ensures attr.Items <= r.attrs[n].Items
    ensures n in g.attrs ==> forall k | k in g.attrs[n] && k !in attr :: r.attrs[n][k] == g.attrs[n][k]
    ensures n !in g.attrs ==> r.attrs[n] == attr
    ensures forall m | m in g.nodes && m != n :: r.attrs[m] == g.attrs[m]
  {
    Graph(g.nodes + {n}, g.attrs[n := g.AttrsOf(n) + attr], g.edges)
  }

  /** Merging nothing into a dictionary leaves it as it was. */
  lemma MergeNothing(a: Attrs)
    ensures a + map[] == a
  {
  }

  /** After add_node, only n's attributes change, by merging in `attr`. */
  lemma WithNodeAttrsOf(g: Graph, n: string, attr: Attrs, m: string)
    requires g.Valid()
    ensures WithNode(g, n, attr).AttrsOf(m) == if m == n then g.AttrsOf(m) + attr else g.AttrsOf(m)
  {
  }

  /** Makes n a node with no attributes, unless it already is one. */
  function Touch(g: Graph, n: string): (r: Graph)
    requires g.Valid()
    ensures r.Valid() && r.nodes == g.nodes + {n} && r.edges == g.edges
    ensures forall m :: r.AttrsOf(m) == g.AttrsOf(m)
  {
    if n in g.nodes then g else Graph(g.nodes + {n}, g.attrs[n := map[]], g.edges)
  }

  /**
   * `G.add_edge(u, v, label=l)`: adds u and v as nodes if they are new (with
   * no attributes), then sets the label of u->v, replacing any earlier one.
   */
  function WithEdge(g: Graph, u: string, v: string, l: string): (r: Graph)
    requires g.Valid()
    ensures r.Valid()
    ensures r.nodes == g.nodes + {u, v}
    ensures r.edges.Keys == g.edges.Keys + {(u, v)} && r.edges[(u, v)] == l
    ensures forall e | e in g.edges && e != (u, v) :: r.edges[e] == g.edges[e]
    ensures forall m :: r.AttrsOf(m) == g.AttrsOf(m)
  {
    var withEnds := Touch(Touch(g, u), v);
    Graph(withEnds.nodes, withEnds.attrs, g.edges[(u, v) := l])
  }

  /** Re-adding a node with no attributes changes nothing once it exists. */
  lemma AddExistingNodeIsNoOp(g: Graph, n: string)
    requires g.Valid() && n in g.nodes
    ensures WithNode(g, n, map[]) == g
  {
    var r := WithNode(g, n, map[]);
    assert r.attrs[n] == g.attrs[n];
    assert r.attrs == g.attrs;
  }

  /** Adding the same edge twice keeps only the second label. */
  lemma AddEdgeLastLabelWins(g: Graph, u: string, v: string, l1: string, l2: string)
    requires g.Valid()
    ensures WithEdge(WithEdge(g, u, v, l1), u, v, l2) == WithEdge(g, u, v, l2)
  {
    var once := WithEdge(g, u, v, l2);
    var twice := WithEdge(WithEdge(g, u, v, l1), u, v, l2);
    assert twice.nodes == once.nodes;
    assert twice.attrs == once.attrs;
    assert twice.edges == once.edges;
  }

  /** A networkx DiGraph, updated in place by add_node and add_edge. */
  class DiGraph {
    var nodes: set<string>
    var attrs: map<string, Attrs>
    var edges: map<Edge, string>

    /** The graph's current state as a value. */
    function Model(): Graph
      reads this
    {
      Graph(nodes, attrs, edges)
    }

    ghost predicate Valid()
      reads this
    {
      Model().Valid()
    }

    /** `nx.DiGraph()` */
    constructor ()
      ensures Valid() && Model() == Empty
    {
      nodes, attrs, edges := {}, map[], map[];
    }

    /** `G.add_node(n, **attr)` */
    method AddNode(n: string, attr: Attrs)
      requires Valid()
      modifies this
      ensures Valid() && Model() == WithNode(old(Model()), n, attr)
    {
      var existing := if n in attrs then attrs[n] else map[];
      nodes := nodes + {n};
      attrs := attrs[n := existing + attr];
    }

    /** `G.add_edge(u, v, label=l)` */
    method AddEdge(u: string, v: string, l: string)
      requires Valid()
      modifies this
      ensures Valid() && Model() == WithEdge(old(Model()), u, v, l)
    {
      if u !in nodes {
        AddNode(u, map[]);
      }
      if v !in nodes {
        AddNode(v, map[]);
      }
      edges := edges[(u, v) := l];
    }
  }
}
