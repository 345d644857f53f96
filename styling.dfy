/**
 * The pure lookups of visualize_graph: the per-node style tables with their
 * defaults, and the filter that drops edge labels equal to "type".
 */
module Styling {
  import opened Graphs
  import opened Projection

  const NodeColorMap: map<string, string> := map[
    "ImranKhan" := "gold",
    "Student1" := "lightblue",
    "Student2" := "lightblue",
    "Student3" := "lightblue",
    "Professor" := "lightcoral",
    "Course1" := "lightgreen",
    "Course2" := "lightgreen",
    "Course3" := "lightgreen"
  ]

  const NodeShapeMap: map<string, string> := map[
    "ImranKhan" := "o",
    "Student1" := "o",
    "Student2" := "o",
    "Student3" := "o",
    "Professor" := "o",
    "Course1" := "s",
    "Course2" := "s",
    "Course3" := "s"
  ]

  const NodeSizes: map<string, nat> := map[
    "ImranKhan" := 3000,
    "Student1" := 2000,
    "Student2" := 2000,
    "Student3" := 2000,
    "Professor" := 2000,
    "Course1" := 2000,
    "Course2" := 2000,
    "Course3" := 2000
  ]

  const DefaultColor: string := "lightgrey"
  const DefaultShape: string := "o"
  const DefaultSize: nat := 1000

  /** How one node is drawn. */
  datatype NodeStyle = NodeStyle(size: nat, color: string, shape: string)

  /** `m.get(k, default)` */
  function GetOr<V>(m: map<string, V>, k: string, default: V): (v: V)
    ensures k in m ==> v == m[k]
    ensures k !in m ==> v == default
  {
    if k in m then m[k] else default
  }

  /** The size, colour and shape a node label is drawn with; total on all labels. */
  function StyleOf(n: string): (st: NodeStyle)
    ensures n in NodeSizes ==> st.size == NodeSizes[n]
    ensures n in NodeColorMap ==> st.color == NodeColorMap[n]
    ensures n in NodeShapeMap ==> st.shape == NodeShapeMap[n]
    ensures n !in NodeColorMap ==> st == NodeStyle(DefaultSize, DefaultColor, DefaultShape)
  {
    StylesCoverSameLabels();
    NodeStyle(GetOr(NodeSizes, n, DefaultSize), GetOr(NodeColorMap, n, DefaultColor), GetOr(NodeShapeMap, n, DefaultShape))
  }

  /** The three tables style the same eight labels. */
  lemma StylesCoverSameLabels()
    ensures NodeColorMap.Keys == NodeShapeMap.Keys == NodeSizes.Keys
    ensures NodeColorMap.Keys == {"ImranKhan", "Student1", "Student2", "Student3", "Professor", "Course1", "Course2", "Course3"}
  {
  }

  /**
   * A label is drawn in the default colour, or at the default size, exactly
   * when the tables do not know it: no table entry uses those defaults.
   */
  lemma DefaultStyleIffUnknown(n: string)
    ensures StyleOf(n).color == DefaultColor <==> n !in NodeColorMap
    ensures StyleOf(n).size == DefaultSize <==> n !in NodeSizes
  {
    StylesCoverSameLabels();
    if n in NodeColorMap {
      assert NodeColorMap[n] in {"gold", "lightblue", "lightcoral", "lightgreen"};
      assert NodeSizes[n] in {2000, 3000};
    }
  }

  /** Only the course labels are drawn as squares. */
  lemma SquareIffCourse(n: string)
    ensures StyleOf(n).shape == "s" <==> n in {"Course1", "Course2", "Course3"}
  {
    StylesCoverSameLabels();
  }

  /** `{key: value for key, value in edge_labels.items() if value != 'type'}` */
  function CleanEdgeLabels(labels: map<Edge, string>): (r: map<Edge, string>)
    ensures forall e :: e in r <==> e in labels && labels[e] != TypeLabel
    ensures forall e | e in r :: r[e] == labels[e]
  {
    map e | e in labels && labels[e] != TypeLabel :: labels[e]
  }

  /** Cleaning twice is cleaning once, and never adds or changes an entry. */
  lemma CleanIdempotent(labels: map<Edge, string>)
    ensures CleanEdgeLabels(CleanEdgeLabels(labels)) == CleanEdgeLabels(labels)
    ensures CleanEdgeLabels(labels).Items <= labels.Items
  {
    var once := CleanEdgeLabels(labels);
    assert CleanEdgeLabels(once).Keys == once.Keys;
  }

  /**
   * On the edge labels of any projection the filter removes nothing: triples
   * whose predicate label is "type" were already skipped by the projection.
   */
  lemma CleanProjectionIsIdentity(ts: seq<Triple>)
    ensures CleanEdgeLabels(Project(ts).edges) == Project(ts).edges
  {
    NoEdgeLabelledType(ts);
    var g := Project(ts);
    assert CleanEdgeLabels(g.edges).Keys == g.edges.Keys;
  }
}
