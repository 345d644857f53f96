/**
 * rdf_to_networkx: the projection of a set of RDF triples onto a directed
 * graph whose nodes are display labels and whose edges carry the label of
 * the predicate.
 */
module Projection {
  import opened IriLabel
  import opened Graphs

  /** The object of a triple: an IRI, or a literal kept as its lexical form `str(o)`. */
  datatype Term = Iri(iri: string) | Lit(lexical: string)

  /** An RDF statement; subject and predicate are IRIs. */
  datatype Triple = Triple(subj: string, pred: string, obj: Term)

  /** The predicate label that makes the loop skip a triple. */
  const TypeLabel: string := "type"

  /** The attributes a node reached as a literal object is added with. */
  const LiteralStyle: Attrs := map["shape" := "box", "style" := "filled", "fillcolor" := "yellow"]

  function SubjectLabel(t: Triple): string
  {
    Label(t.subj)
  }

  function PredicateLabel(t: Triple): string
  {
    Label(t.pred)
  }

  /** An IRI object is shortened like the subject; a literal keeps its value. */
  function ObjectLabel(t: Triple): string
  {
    match t.obj
    case Iri(iri) => Label(iri)
    case Lit(value) => value
  }

  /** The edge a triple contributes. */
  function EdgeOf(t: Triple): Edge
  {
    (SubjectLabel(t), ObjectLabel(t))
  }

  /** The loop's `continue`: the predicate's last '/'-segment is exactly "type". */
  predicate Skipped(t: Triple)
  {
    PredicateLabel(t) == TypeLabel
  }

  /** The attributes the object node is added with. */
  function ObjectAttrs(t: Triple): Attrs
  {
    if t.obj.Iri? then map[] else LiteralStyle
  }

  /** One turn of the loop: add the subject, the object and the edge between them. */
  function Step(g: Graph, t: Triple): (r: Graph)
    requires g.Valid()
    ensures r.Valid()
  {
    if Skipped(t) then g
    else
      var withSubject := WithNode(g, SubjectLabel(t), map[]);
      var withObject := WithNode(withSubject, ObjectLabel(t), ObjectAttrs(t));
      WithEdge(withObject, SubjectLabel(t), ObjectLabel(t), PredicateLabel(t))
  }

  /** The graph after the loop has visited the triples in the order `ts`. */
  function Project(ts: seq<Triple>): (r: Graph)
    ensures r.Valid()
  {
    if ts == [] then Empty
    else Step(Project(ts[..|ts| - 1]), ts[|ts| - 1])
  }

  /** Visiting one more triple is one more turn of the loop. */
  lemma ProjectSnoc(ts: seq<Triple>, t: Triple)
    ensures Project(ts + [t]) == Step(Project(ts), t)
  {
    assert (ts + [t])[..|ts|] == ts;
  }

  // ---- What the projection produces, stated on the set of triples ----

  function Elements(ts: seq<Triple>): set<Triple>
  {
    set t | t in ts
  }

  /** The triples the loop does not skip. */
  function Kept(store: set<Triple>): set<Triple>
  {
    set t | t in store && !Skipped(t)
  }

  /** Subject and object labels of the kept triples. */
  function NodesOf(store: set<Triple>): set<string>
  {
    (set t | t in Kept(store) :: SubjectLabel(t)) + (set t | t in Kept(store) :: ObjectLabel(t))
  }

  /** (subject, object) label pairs of the kept triples. */
  function EdgesOf(store: set<Triple>): set<Edge>
  {
    set t | t in Kept(store) :: EdgeOf(t)
  }

  /** Labels of the literal objects of the kept triples. */
  function LiteralNodesOf(store: set<Triple>): set<string>
  {
    set t | t in Kept(store) && t.obj.Lit? :: ObjectLabel(t)
  }

  /** Each kept triple's edge paired with the label it writes. */
  function LabelledEdgesOf(store: set<Triple>): set<(Edge, string)>
  {
    set t | t in Kept(store) :: (EdgeOf(t), PredicateLabel(t))
  }

  /** The attributes a node of the projection of `store` carries. */
  function ExpectedAttrs(store: set<Triple>, n: string): Attrs
  {
    if n in LiteralNodesOf(store) then LiteralStyle else map[]
  }

  /** g has the nodes, edges and attributes the projection of `store` must have. */
  predicate SameShape(g: Graph, store: set<Triple>)
  {
    && g.nodes == NodesOf(store)
    && g.edges.Keys == EdgesOf(store)
    && forall n | n in g.attrs :: g.attrs[n] == ExpectedAttrs(store, n)
  }

  /** The elements of a non-empty sequence: those of its prefix and its last one. */
  lemma ElementsSnoc(ts: seq<Triple>)
    requires ts != []
    ensures Elements(ts) == Elements(ts[..|ts| - 1]) + {ts[|ts| - 1]}
  {
    assert ts == ts[..|ts| - 1] + [ts[|ts| - 1]];
  }

  /** Appending a triple adds it to the elements. */
  lemma ElementsAppend(ts: seq<Triple>, t: Triple)
    ensures Elements(ts + [t]) == Elements(ts) + {t}
  {
    assert (ts + [t])[..|ts|] == ts;
    ElementsSnoc(ts + [t]);
  }

  /** One more triple is kept unless it is skipped. */
  lemma KeptAddOne(store: set<Triple>, t: Triple)
    ensures Kept(store + {t}) == if Skipped(t) then Kept(store) else Kept(store) + {t}
  {
  }

  /** One more kept triple adds its subject and object labels to the nodes. */
  lemma NodesAddOne(store: set<Triple>, t: Triple)
    requires !Skipped(t)
    ensures NodesOf(store + {t}) == NodesOf(store) + {SubjectLabel(t), ObjectLabel(t)}
  {
    KeptAddOne(store, t);
    var k, k' := Kept(store), Kept(store + {t});
    assert (set u | u in k' :: SubjectLabel(u)) == (set u | u in k :: SubjectLabel(u)) + {SubjectLabel(t)};
    assert (set u | u in k' :: ObjectLabel(u)) == (set u | u in k :: ObjectLabel(u)) + {ObjectLabel(t)};
  }

  /** One more kept triple adds its edge. */
  lemma EdgesAddOne(store: set<Triple>, t: Triple)
    requires !Skipped(t)
    ensures EdgesOf(store + {t}) == EdgesOf(store) + {EdgeOf(t)}
  {
    KeptAddOne(store, t);
  }

  /** One more kept triple adds its object to the literal nodes if it is a literal. */
  lemma LiteralsAddOne(store: set<Triple>, t: Triple)
    requires !Skipped(t)
    ensures LiteralNodesOf(store + {t}) == LiteralNodesOf(store) + (if t.obj.Lit? then {ObjectLabel(t)} else {})
  {
    KeptAddOne(store, t);
  }

  /** The nodes after one turn of the loop. */
  lemma StepNodes(g: Graph, t: Triple)
    requires g.Valid() && !Skipped(t)
    ensures Step(g, t).nodes == g.nodes + {SubjectLabel(t), ObjectLabel(t)}
  {
  }

  /** The edges after one turn of the loop: the triple's pair gets its label. */
  lemma StepEdges(g: Graph, t: Triple)
    requires g.Valid() && !Skipped(t)
    ensures Step(g, t).edges == g.edges[EdgeOf(t) := PredicateLabel(t)]
  {
    var r := Step(g, t);
    assert r.edges.Keys == g.edges.Keys + {EdgeOf(t)};
  }

  /** The attributes after one turn: only the object node merges in new ones. */
  lemma StepAttrs(g: Graph, t: Triple, n: string)
    requires g.Valid() && !Skipped(t)
    ensures Step(g, t).AttrsOf(n) == if n == ObjectLabel(t) then g.AttrsOf(n) + ObjectAttrs(t) else g.AttrsOf(n)
  {
    var s, o := SubjectLabel(t), ObjectLabel(t);
    var withSubject := WithNode(g, s, map[]);
    var withObject := WithNode(withSubject, o, ObjectAttrs(t));
    WithNodeAttrsOf(g, s, map[], n);
    MergeNothing(g.AttrsOf(n));
    WithNodeAttrsOf(withSubject, o, ObjectAttrs(t), n);
  }

  /** A turn of the loop never removes a node, an edge or an attribute. */
  lemma StepGrows(g: Graph, t: Triple)
    requires g.Valid()
    ensures g.GrowsTo(Step(g, t))
  {
    if !Skipped(t) {
      var s, o := SubjectLabel(t), ObjectLabel(t);
      var withSubject := WithNode(g, s, map[]);
      var withObject := WithNode(withSubject, o, ObjectAttrs(t));
      forall n | n in g.attrs
        ensures n in Step(g, t).attrs && g.attrs[n].Keys <= Step(g, t).attrs[n].Keys
      {
        StepAttrs(g, t, n);
      }
    }
  }

  /** Attributes only ever merge: a merged literal style stays the literal style. */
  lemma LiteralStyleMerge(a: Attrs, b: Attrs)
    requires a == map[] || a == LiteralStyle
    requires b == map[] || b == LiteralStyle
    ensures a + b == (if a == LiteralStyle || b == LiteralStyle then LiteralStyle else map[])
  {
  }

  /** The nodes are the subject and object labels of the kept triples. */
  lemma {:induction false} ProjectNodes(ts: seq<Triple>)
    ensures Project(ts).nodes == NodesOf(Elements(ts))
  {
    if ts != [] {
      var init := ts[..|ts| - 1];
      var t := ts[|ts| - 1];
      ProjectNodes(init);
      ElementsSnoc(ts);
      KeptAddOne(Elements(init), t);
      if !Skipped(t) {
        NodesAddOne(Elements(init), t);
        StepNodes(Project(init), t);
      }
    }
  }

  /** The edges are the (subject, object) label pairs of the kept triples. */
  lemma {:induction false} ProjectEdges(ts: seq<Triple>)
    ensures Project(ts).edges.Keys == EdgesOf(Elements(ts))
  {
    if ts != [] {
      var init := ts[..|ts| - 1];
      var t := ts[|ts| - 1];
      ProjectEdges(init);
      ElementsSnoc(ts);
      KeptAddOne(Elements(init), t);
      if !Skipped(t) {
        EdgesAddOne(Elements(init), t);
        StepEdges(Project(init), t);
      }
    }
  }

  /**
   * A label carries the literal style exactly when some kept triple reaches
   * it as a literal object (and keeps it once it has it); otherwise none.
   */
  lemma {:induction false} ProjectAttrs(ts: seq<Triple>, n: string)
    ensures Project(ts).AttrsOf(n) == ExpectedAttrs(Elements(ts), n)
  {
    if ts != [] {
      var init := ts[..|ts| - 1];
      var t := ts[|ts| - 1];
      ProjectAttrs(init, n);
      ElementsSnoc(ts);
      var before := Elements(init);
      KeptAddOne(before, t);
      if !Skipped(t) {
        LiteralsAddOne(before, t);
        StepAttrs(Project(init), t, n);
        var a := Project(init).AttrsOf(n);
        var b := if n == ObjectLabel(t) then ObjectAttrs(t) else map[];
        MergeNothing(a);
        LiteralStyleMerge(a, b);
      } else {
        assert LiteralNodesOf(Elements(ts)) == LiteralNodesOf(before);
      }
    }
  }

  /**
   * Whatever the iteration order, the nodes are exactly the subject and
   * object labels of the kept triples, the edges exactly their label pairs,
   * and a node carries the literal style exactly when it was reached as a
   * literal object, and no attributes otherwise.
   */
  lemma ProjectShape(ts: seq<Triple>)
    ensures SameShape(Project(ts), Elements(ts))
  {
    ProjectNodes(ts);
    ProjectEdges(ts);
    forall n | n in Project(ts).attrs
      ensures Project(ts).attrs[n] == ExpectedAttrs(Elements(ts), n)
    {
      ProjectAttrs(ts, n);
    }
  }

  /** The projections of two orders of the same set agree on nodes, edges and attributes. */
  lemma OrderIndependent(ts1: seq<Triple>, ts2: seq<Triple>)
    requires Elements(ts1) == Elements(ts2)
    ensures Project(ts1).nodes == Project(ts2).nodes
    ensures Project(ts1).edges.Keys == Project(ts2).edges.Keys
    ensures Project(ts1).attrs == Project(ts2).attrs
  {
    ProjectShape(ts1);
    ProjectShape(ts2);
  }

  /** A kept triple's subject, object and edge all appear in the projection. */
  lemma KeptTripleProjected(ts: seq<Triple>, t: Triple)
    requires t in ts && !Skipped(t)
    ensures SubjectLabel(t) in Project(ts).nodes && ObjectLabel(t) in Project(ts).nodes
    ensures EdgeOf(t) in Project(ts).edges
    ensures t.obj.Lit? ==> Project(ts).attrs[ObjectLabel(t)] == LiteralStyle
  {
    ProjectShape(ts);
    assert t in Kept(Elements(ts));
  }

  /** The projection is empty exactly when every triple is skipped. */
  lemma EmptyIffAllSkipped(ts: seq<Triple>)
    ensures Project(ts).nodes == {} <==> forall t | t in ts :: Skipped(t)
    ensures Project(ts).nodes == {} ==> Project(ts) == Empty
  {
    ProjectShape(ts);
    if exists t | t in ts :: !Skipped(t) {
      var t :| t in ts && !Skipped(t);
      assert t in Kept(Elements(ts));
      assert SubjectLabel(t) in Project(ts).nodes;
    }
  }

  /** Leaving out the skipped triples does not change the projection. */
  function KeptInOrder(ts: seq<Triple>): (r: seq<Triple>)
    ensures Elements(r) == Kept(Elements(ts))
  {
    if ts == [] then []
    else
      var init := KeptInOrder(ts[..|ts| - 1]);
      var t := ts[|ts| - 1];
      ElementsSnoc(ts);
      ElementsAppend(init, t);
      KeptAddOne(Elements(ts[..|ts| - 1]), t);
      if Skipped(t) then init else init + [t]
  }

  lemma {:induction false} SkippedTriplesInvisible(ts: seq<Triple>)
    ensures Project(ts) == Project(KeptInOrder(ts))
  {
    if ts != [] {
      var init := ts[..|ts| - 1];
      var t := ts[|ts| - 1];
      SkippedTriplesInvisible(init);
      if !Skipped(t) {
        var k := KeptInOrder(init) + [t];
        assert k[..|k| - 1] == KeptInOrder(init);
      }
    }
  }

  // ---- Edge labels: the last kept triple with the same pair wins ----

  /** The edge labels alone: each kept triple in turn sets its pair's label. */
  function EdgeLabels(ts: seq<Triple>): map<Edge, string>
  {
    if ts == [] then map[]
    else
      var t := ts[|ts| - 1];
      var before := EdgeLabels(ts[..|ts| - 1]);
      if Skipped(t) then before else before[EdgeOf(t) := PredicateLabel(t)]
  }

  /** The projection's edges are exactly those labels. */
  lemma {:induction false} ProjectEdgeLabels(ts: seq<Triple>)
    ensures Project(ts).edges == EdgeLabels(ts)
  {
    if ts != [] {
      var init := ts[..|ts| - 1];
      ProjectEdgeLabels(init);
      if !Skipped(ts[|ts| - 1]) {
        StepEdges(Project(init), ts[|ts| - 1]);
      }
    }
  }

  /** Triple i is the last kept triple of `ts` whose edge is `e`. */
  predicate LastWriter(ts: seq<Triple>, e: Edge, i: int)
  {
    && 0 <= i < |ts|
    && !Skipped(ts[i]) && EdgeOf(ts[i]) == e
    && forall j | i < j < |ts| :: Skipped(ts[j]) || EdgeOf(ts[j]) != e
  }

  /** The last kept triple for a pair determines that edge's label. */
  lemma {:induction false} LastWriterLabels(ts: seq<Triple>, e: Edge, i: int)
    requires LastWriter(ts, e, i)
    ensures e in Project(ts).edges && Project(ts).edges[e] == PredicateLabel(ts[i])
  {
    ProjectEdgeLabels(ts);
    LastWriterSets(ts, e, i);
  }

  /** LastWriterLabels, on the edge labels alone. */
  lemma {:induction false} LastWriterSets(ts: seq<Triple>, e: Edge, i: int)
    requires LastWriter(ts, e, i)
    ensures e in EdgeLabels(ts) && EdgeLabels(ts)[e] == PredicateLabel(ts[i])
  {
    var init := ts[..|ts| - 1];
    if i < |ts| - 1 {
      assert LastWriter(init, e, i);
      LastWriterSets(init, e, i);
    }
  }

  /** Every edge has a last writer among the kept triples, which gave it its label. */
  lemma EveryEdgeHasWriter(ts: seq<Triple>, e: Edge)
    requires e in Project(ts).edges
    ensures exists i :: LastWriter(ts, e, i) && Project(ts).edges[e] == PredicateLabel(ts[i])
  {
    ProjectEdgeLabels(ts);
    EveryLabelHasWriter(ts, e);
  }

  /** EveryEdgeHasWriter, on the edge labels alone. */
  lemma {:induction false} EveryLabelHasWriter(ts: seq<Triple>, e: Edge)
    requires e in EdgeLabels(ts)
    ensures exists i :: LastWriter(ts, e, i) && EdgeLabels(ts)[e] == PredicateLabel(ts[i])
  {
    var init := ts[..|ts| - 1];
    var t := ts[|ts| - 1];
    if !Skipped(t) && EdgeOf(t) == e {
      assert LastWriter(ts, e, |ts| - 1);
    } else {
      EveryLabelHasWriter(init, e);
      var i :| LastWriter(init, e, i) && EdgeLabels(init)[e] == PredicateLabel(init[i]);
      assert ts[i] == init[i];
      forall j | i < j < |ts|
        ensures Skipped(ts[j]) || EdgeOf(ts[j]) != e
      {
        if j < |ts| - 1 {
          assert ts[j] == init[j];
        }
      }
      assert LastWriter(ts, e, i);
    }
  }

  /** No edge is ever labelled "type": such triples are exactly the skipped ones. */
  lemma NoEdgeLabelledType(ts: seq<Triple>)
    ensures forall e | e in Project(ts).edges :: Project(ts).edges[e] != TypeLabel
  {
    forall e | e in Project(ts).edges
      ensures Project(ts).edges[e] != TypeLabel
    {
      EveryEdgeHasWriter(ts, e);
    }
  }

  // ---- The loop itself ----

  /** No triple occurs twice in `ts`. */
  predicate Distinct(ts: seq<Triple>)
  {
    forall i, j | 0 <= i < j < |ts| :: ts[i] != ts[j]
  }

  /**
   * `rdf_to_networkx(graph)`: visits every triple of the store once, in an
   * order the store chooses (returned as `order`), and updates a fresh
   * DiGraph in place.
   */
  method RdfToNetworkx(graph: set<Triple>) returns (G: DiGraph, ghost order: seq<Triple>)
    ensures fresh(G) && G.Valid()
    ensures Elements(order) == graph && Distinct(order)
    ensures G.Model() == Project(order)
  {
    G := new DiGraph();
    order := [];
    var rest := graph;
    while rest != {}
      invariant G.Valid() && G.Model() == Project(order)
      invariant Elements(order) + rest == graph
      invariant Elements(order) !! rest
      invariant Distinct(order)
      decreases rest
    {
      var t :| t in rest;
      rest := rest - {t};
      ghost var visited := order;
      order := order + [t];
      ProjectSnoc(visited, t);
      ElementsAppend(visited, t);
      var sLabel := Label(t.subj);
      var pLabel := Label(t.pred);
      if pLabel == TypeLabel {
        continue;
      }
      var oLabel := if t.obj.Iri? then Label(t.obj.iri) else t.obj.lexical;
      G.AddNode(sLabel, map[]);
      if t.obj.Iri? {
        G.AddNode(oLabel, map[]);
        G.AddEdge(sLabel, oLabel, pLabel);
      } else {
        G.AddNode(oLabel, LiteralStyle);
        G.AddEdge(sLabel, oLabel, pLabel);
      }
    }
  }

  /**
   * What the caller of rdf_to_networkx can rely on, whatever order the store
   * iterates in: the shape of the result is fixed by the set alone, and each
   * edge label comes from the last kept triple with that pair.
   */
  method ProjectStore(graph: set<Triple>) returns (G: DiGraph)
    ensures fresh(G) && G.Valid()
    ensures SameShape(G.Model(), graph)
    ensures forall e | e in G.edges :: (e, G.edges[e]) in LabelledEdgesOf(graph)
  {
    ghost var order;
    G, order := RdfToNetworkx(graph);
    ProjectShape(order);
    forall e | e in G.edges
      ensures (e, G.edges[e]) in LabelledEdgesOf(graph)
    {
      EveryEdgeHasWriter(order, e);
      var i :| LastWriter(order, e, i) && Project(order).edges[e] == PredicateLabel(order[i]);
      assert order[i] in Kept(graph);
    }
  }
}
