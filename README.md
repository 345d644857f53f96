# University RDF graph: projection onto a directed graph

The program builds a small RDF knowledge graph about a political leader, three
students, three courses and a professor. It projects the triples onto a
networkx `DiGraph` and draws it. This project models the part of the program
that computes something:

- **Labels** (`iri.dfy`, module `IriLabel`): `x.split('/')[-1]`, the display
  label of an IRI.
- **The directed graph** (`graphs.dfy`, module `Graphs`): networkx's `DiGraph`.
  - It has a node set, an attribute dictionary per node, and one `label` per
    (source, target) pair.
  - It is modelled as a class updated in place by `add_node` and `add_edge`.
  - Each method is proved against a value-level function, `WithNode` or
    `WithEdge`.
- **The projection** (`projection.dfy`, module `Projection`): `rdf_to_networkx`.
  - It is a loop over the triple set. It skips a triple whose predicate label is
    `"type"`, adds the subject node and the object node (a literal object gets
    the box/filled/yellow attributes), then adds the labelled edge.
  - The loop is the method `RdfToNetworkx`. It visits the set in an order of the
    set's own choosing, returned as a ghost sequence. It is proved equal to
    `Project(order)`, a fold of one loop turn (`Step`) over that sequence.
  - What the loop produces is stated on the set alone (`NodesOf`, `EdgesOf`,
    `LiteralNodesOf`, `LabelledEdgesOf`) and connected to `Project` for every
    order.
- **Styling** (`styling.dfy`, module `Styling`): the node style tables with their
  `dict.get` defaults, and the comprehension that drops edge labels equal to
  `"type"`.
- **The dataset** (`university.dfy`, module `University`): the 26 `g.add` calls
  that build the store, and what the projection makes of them.

The rdf:type triples survive. The skip test compares the text after the last
`/` with `"type"`. The rdf:type IRI is
`http://www.w3.org/1999/02/22-rdf-syntax-ns#type`, so its label is
`22-rdf-syntax-ns#type`. The comment at code.py:85 says these triples are
skipped, but the code keeps them. The model follows the code:

- `University.NothingSkipped` proves that no triple of the dataset is skipped.
- The class labels `Leader`, `Student`, `Course` and `Professor` become nodes.
- The professor gets a self-loop, because `EX['Professor']` and `UNI.Professor`
  share the label `Professor`.
- `Projection.NoEdgeLabelledType` and `Styling.CleanProjectionIsIdentity` prove
  that, for any input, the filter at code.py:163 removes nothing from a
  projection's edge labels.

## Model

| member | source | states |
|---|---|---|
| IriLabel.Split | code.py:82 | `s.split('/')` yields at least one piece and no piece contains `/` |
| IriLabel.SplitNoSep | code.py:82 | a string without `/` splits into itself alone |
| IriLabel.SplitAppend | code.py:82 | `a + '/' + b`, with b free of `/`, splits into the pieces of a followed by b |
| IriLabel.JoinSplit | code.py:82 | re-joining the pieces with `/` gives back the original string: splitting loses nothing |
| IriLabel.SplitJoin | code.py:82 | splitting a `/`-join of `/`-free pieces gives back exactly those pieces |
| IriLabel.Label | code.py:82-83 | the label (`split('/')[-1]`) never contains `/` |
| IriLabel.LabelIsLastSegment | code.py:82-86 | the label is a suffix of the IRI that is either the whole IRI or preceded by `/`: the text after the last `/` |
| IriLabel.LabelNoSep | code.py:82 | an IRI without `/` is its own label |
| IriLabel.LabelAfterSep | code.py:82 | the label of `a/b` with b free of `/` is b |
| IriLabel.LabelShorterWithSep | code.py:82 | an IRI containing `/` has a strictly shorter label |
| IriLabel.LabelInNamespace | code.py:22-29 | `NS[local]` with NS ending in `/` and local free of `/` is labelled `local` |
| Graphs.WithNode | code.py:88-93 | `add_node(n, **attr)`: n becomes a node, edges unchanged, the given attributes win, earlier attributes of n not overridden are kept, a new node gets exactly `attr`, other nodes untouched |
| Graphs.WithNodeAttrsOf | code.py:88-93 | after `add_node`, only n's attribute dictionary changes, by merging `attr` into it |
| Graphs.Touch | code.py:91 | `add_edge` adds a missing endpoint as a node with no attributes and changes nothing else |
| Graphs.WithEdge | code.py:91-94 | `add_edge(u, v, label=l)`: both ends become nodes, (u, v) is labelled l, every other edge keeps its label, no node's attributes change |
| Graphs.AddExistingNodeIsNoOp | code.py:88 | re-adding an existing node without attributes changes nothing |
| Graphs.AddEdgeLastLabelWins | code.py:91-94 | adding the same pair twice leaves the graph as if only the second label had been added |
| Graphs.DiGraph.constructor | code.py:79 | `nx.DiGraph()` is the empty graph |
| Graphs.DiGraph.AddNode | code.py:88-93 | the in-place `add_node` leaves the graph state equal to `WithNode` of the old state |
| Graphs.DiGraph.AddEdge | code.py:91-94 | the in-place `add_edge` leaves the graph state equal to `WithEdge` of the old state |
| Projection.Step | code.py:82-94 | one loop turn keeps the graph well formed: every edge joins two nodes and every node has attributes |
| Projection.Project | code.py:81-94 | the graph after visiting a sequence of triples is well formed |
| Projection.ProjectSnoc | code.py:81 | visiting one more triple is one more loop turn |
| Projection.StepNodes | code.py:88-91 | a kept triple adds exactly its subject label and object label as nodes |
| Projection.StepEdges | code.py:91-94 | a kept triple sets the label of its (subject, object) pair to its predicate label, other edges unchanged |
| Projection.StepAttrs | code.py:88-93 | in a loop turn only the object node gains attributes: the literal style for a literal object, nothing for an IRI |
| Projection.StepGrows | code.py:88-94 | a loop turn never removes a node, an edge or an attribute |
| Projection.LiteralStyleMerge | code.py:93 | merging the literal style with itself or with nothing gives the literal style exactly when either side has it |
| Projection.ProjectNodes | code.py:78-96 | in any visiting order, the nodes are exactly the subject and object labels of the non-skipped triples |
| Projection.ProjectEdges | code.py:78-96 | in any visiting order, the edges are exactly the (subject, object) label pairs of the non-skipped triples |
| Projection.ProjectAttrs | code.py:88-93 | a label carries `shape=box, style=filled, fillcolor=yellow` exactly when some non-skipped triple reaches it as a literal object, and keeps it even if it is added later as an IRI node; otherwise it has no attributes |
| Projection.ProjectShape | code.py:78-96 | nodes, edges and attributes are determined by the triple set alone |
| Projection.OrderIndependent | code.py:81 | two visiting orders of the same set give the same nodes, edge pairs and attributes |
| Projection.KeptTripleProjected | code.py:88-94 | for a non-skipped triple, both labels are nodes, the edge exists, and a literal object carries the literal style |
| Projection.EmptyIffAllSkipped | code.py:84-85 | the graph has no nodes exactly when every triple is skipped, and is then the empty graph |
| Projection.KeptInOrder | code.py:84-85 | the non-skipped triples of a sequence, in order |
| Projection.SkippedTriplesInvisible | code.py:84-85 | removing the skipped triples from the sequence does not change the projection |
| Projection.ProjectEdgeLabels | code.py:91-94 | the edge labels are those the non-skipped triples write in turn, each overwriting the last |
| Projection.LastWriterSets | code.py:91-94 | the last non-skipped triple with a given pair sets that pair's label |
| Projection.LastWriterLabels | code.py:91-94 | in the projection, a pair's label is the predicate label of the last non-skipped triple with that pair |
| Projection.EveryLabelHasWriter | code.py:91-94 | every written label has a last writer among the non-skipped triples |
| Projection.EveryEdgeHasWriter | code.py:91-94 | every edge of the projection has a last writer, and its label is that triple's predicate label |
| Projection.NoEdgeLabelledType | code.py:84-85 | no edge of any projection is labelled `"type"` |
| Projection.RdfToNetworkx | code.py:78-96 | the loop visits every triple of the set exactly once, in some order, and returns a fresh DiGraph equal to `Project` of that order |
| Projection.ProjectStore | code.py:78-96 | whatever the order, the result has the set-determined nodes, edges and attributes, and each edge label is the predicate label of a non-skipped triple with that pair |
| Styling.GetOr | code.py:151-152 | `m.get(k, default)` is `m[k]` when k is a key, `default` otherwise |
| Styling.StyleOf | code.py:116-152 | a label in the tables gets its table size, colour and shape; any other label gets 1000, `lightgrey` and `o` |
| Styling.StylesCoverSameLabels | code.py:116-147 | the colour, shape and size tables cover the same eight labels |
| Styling.DefaultStyleIffUnknown | code.py:116-152 | a label is drawn in `lightgrey`, or at size 1000, exactly when the tables do not know it |
| Styling.SquareIffCourse | code.py:127-152 | only the three course labels are drawn as squares |
| Styling.CleanEdgeLabels | code.py:163 | the cleaned map holds exactly the entries whose label is not `"type"`, with keys and labels unchanged |
| Styling.CleanIdempotent | code.py:163 | cleaning twice is cleaning once, and cleaning never adds or changes an entry |
| Styling.CleanProjectionIsIdentity | code.py:110-163 | on the edge labels of any projection the filter removes nothing |
| University.TripleStore.constructor | code.py:13 | `Graph()` is the empty store |
| University.TripleStore.Add | code.py:41-74 | `g.add(t)` adds t to the set; adding a triple already present changes nothing |
| University.AddsStudent | code.py:44-54 | a student's three adds give that student's group of triples |
| University.AddsCourse | code.py:56-63 | a course's two adds give that course's group of triples |
| University.AddsProfessor | code.py:65-67 | the professor's three adds give the professor's group of triples |
| University.AddsRelations | code.py:69-74 | the six enrolment and teaching adds give the relation group |
| University.BuildUniversityGraph | code.py:41-74 | after the 26 adds the store holds exactly the dataset's triples |
| University.EntityLabels | code.py:22-29 | each entity IRI is labelled with its local name |
| University.ClassLabels | code.py:41-66 | each class IRI is labelled with its local name; the Professor class and the Professor entity share a label |
| University.PredicateLabelsUsed | code.py:41-74 | each predicate is labelled with its local name, except rdf:type, labelled `22-rdf-syntax-ns#type`, which is not `"type"` |
| University.LeaderKept | code.py:41-42 | no triple about the leader is skipped |
| University.StudentKept | code.py:44-54 | no triple of a student group is skipped |
| University.CourseKept | code.py:56-63 | no triple of a course group is skipped |
| University.ProfessorKept | code.py:65-67 | no triple about the professor is skipped |
| University.RelationKept | code.py:69-74 | no enrolment or teaching triple is skipped |
| University.NothingSkipped | code.py:84-85 | none of the 26 triples is skipped, including the 8 rdf:type ones |
| University.ClassNodesProjected | code.py:84-91 | in any visiting order of the dataset, `Leader`, `Student`, `Course` and `Professor` are nodes |
| University.TypeEdgesProjected | code.py:84-91 | in any visiting order, there is an edge ImranKhan→Leader and a self-loop Professor→Professor |
| University.LeaderNameStyled | code.py:92-93 | the literal `Imran Khan` is a node carrying the literal style |
| University.ProjectUniversity | code.py:184 | `rdf_to_networkx(g)` on the dataset yields the class nodes and the two type edges, and the edge-label filter leaves its labels unchanged |

## Left out

- rdflib namespace setup and prefix binding (code.py:9-19) are library configuration. IRIs are plain strings.
- The IRIs behind `FOAF.name`, `DCTERMS.title` and `RDF.type` come from rdflib, which is not part of this model. They are written out as constants, matching the W3C, FOAF and Dublin Core vocabularies.
- Literal datatypes (`XSD.string`, code.py:32-39) only reach the projection through `str(o)`. A literal is modelled as its lexical form.
- Subjects are always IRIs. Blank nodes do not occur in the dataset and are not modelled.
- Image loading and overlay (code.py:99-105, 168) are file I/O and foreign plotting calls.
- `nx.spring_layout` (code.py:109) is a seeded floating-point layout.
- The draw calls, legend, title, axis and `plt.show` (code.py:112-181) are side effects with no result. The style lookups feeding them (code.py:149-152) and the label filter (code.py:163) are modelled.
- The iteration order of the rdflib store is unspecified. `RdfToNetworkx` picks any remaining triple each turn.
  - Nodes, edges and attributes are proved independent of that order.
  - When two kept triples share a (subject, object) pair, the edge label is proved to come from the last one visited. Which one that is depends on the order.
- Only the `label` edge attribute and string-valued node attributes are modelled, since those are all the program sets.
- University.TypeEdgesProjected: states that the two rdf:type edges exist, not which label they carry. `Projection.EveryEdgeHasWriter` gives the label in general; pinning it down on the dataset needs string comparisons too costly to prove.
- The exact node count (19) and edge count (26) of the dataset's projection are not proved. Only the memberships above are.
