/**
 * The hard-coded university knowledge graph: the IRIs and literals it uses,
 * the store it is added to, and what the projection makes of it.
 */
module University {
  import opened IriLabel
  import opened Graphs
  import opened Projection
  import opened Styling

  // Namespaces. EX and UNI are the program's own; FOAF, DCTERMS and RDF are
  // the vocabulary IRIs rdflib binds those names to.
  const Ex: string := "http://example.org/university/"
  const Uni: string := "http://example.org/university/ontology/"
  const Foaf: string := "http://xmlns.com/foaf/0.1/"
  const DcTerms: string := "http://purl.org/dc/terms/"
  const RdfNs: string := W3Rdf + "22-rdf-syntax-ns#"
  /** The part of the RDF namespace up to its last '/'. */
  const W3Rdf: string := "http://www.w3.org/1999/02/"

  // Entities
  const ImranKhan: string := Ex + "ImranKhan"
  const Student1: string := Ex + "Student1"
  const Student2: string := Ex + "Student2"
  const Student3: string := Ex + "Student3"
  const Course1: string := Ex + "Course1"
  const Course2: string := Ex + "Course2"
  const Course3: string := Ex + "Course3"
  const Professor: string := Ex + "Professor"

  // Classes
  const LeaderClass: string := Uni + "Leader"
  const StudentClass: string := Uni + "Student"
  const CourseClass: string := Uni + "Course"
  const ProfessorClass: string := Uni + "Professor"

  // Predicates
  const RdfType: string := RdfNs + "type"
  const FoafName: string := Foaf + "name"
  const DcTitle: string := DcTerms + "title"
  const Follows: string := Uni + "follows"
  const EnrolledIn: string := Uni + "enrolledIn"
  const Teaches: string := Uni + "teaches"

  /** The label the projection gives rdf:type: its last '/'-segment, not "type". */
  const RdfTypeLabel: string := "22-rdf-syntax-ns#type"

  /** An RDF graph (rdflib's Graph) as a set of triples that `add` grows. */
  class TripleStore {
    var triples: set<Triple>

    /** `Graph()` */
    constructor ()
      ensures triples == {}
    {
      triples := {};
    }

    /** `g.add((s, p, o))`: adding a triple already present changes nothing. */
    method Add(s: string, p: string, o: Term)
      modifies this
      ensures triples == old(triples) + {Triple(s, p, o)}
    {
      triples := triples + {Triple(s, p, o)};
    }
  }

  /** The leader: its class and its name. */
  const LeaderTriples: set<Triple> := {
    Triple(ImranKhan, RdfType, Iri(LeaderClass)),
    Triple(ImranKhan, FoafName, Lit("Imran Khan"))
  }

  /** A student: its class, its name, and following the leader. */
  function StudentTriples(student: string, name: string): set<Triple>
  {
    {
      Triple(student, RdfType, Iri(StudentClass)),
      Triple(student, FoafName, Lit(name)),
      Triple(student, Follows, Iri(ImranKhan))
    }
  }

  /** A course: its class and its title. */
  function CourseTriples(course: string, title: string): set<Triple>
  {
    {
      Triple(course, RdfType, Iri(CourseClass)),
      Triple(course, DcTitle, Lit(title))
    }
  }

  /** The professor: its class, its name, and following the leader. */
  const ProfessorTriples: set<Triple> := {
    Triple(Professor, RdfType, Iri(ProfessorClass)),
    Triple(Professor, FoafName, Lit("ppp")),
    Triple(Professor, Follows, Iri(ImranKhan))
  }

  /** One course per student, and the professor teaching all three. */
  const RelationTriples: set<Triple> := {
    Triple(Student1, EnrolledIn, Iri(Course1)),
    Triple(Student2, EnrolledIn, Iri(Course2)),
    Triple(Student3, EnrolledIn, Iri(Course3)),
    Triple(Professor, Teaches, Iri(Course1)),
    Triple(Professor, Teaches, Iri(Course2)),
    Triple(Professor, Teaches, Iri(Course3))
  }

  /** The 26 statements the program adds, grouped as it adds them. */
  const UniversityTriples: set<Triple> :=
    LeaderTriples
    + StudentTriples(Student1, "xxx")
    + StudentTriples(Student2, "yyy")
    + StudentTriples(Student3, "zzz")
    + CourseTriples(Course1, "Knowledge Reasoning and Representation")
    + CourseTriples(Course2, "Machine Learning")
    + CourseTriples(Course3, "Knowledgebase Management System")
    + ProfessorTriples
    + RelationTriples

  // Each group of adds yields its group of triples.

  lemma AddsStudent(before: set<Triple>, student: string, name: string)
    ensures before + {Triple(student, RdfType, Iri(StudentClass))} + {Triple(student, FoafName, Lit(name))}
      + {Triple(student, Follows, Iri(ImranKhan))} == before + StudentTriples(student, name)
  {
  }

  lemma AddsCourse(before: set<Triple>, course: string, title: string)
    ensures before + {Triple(course, RdfType, Iri(CourseClass))} + {Triple(course, DcTitle, Lit(title))}
      == before + CourseTriples(course, title)
  {
  }

  lemma AddsProfessor(before: set<Triple>)
    ensures before + {Triple(Professor, RdfType, Iri(ProfessorClass))} + {Triple(Professor, FoafName, Lit("ppp"))}
      + {Triple(Professor, Follows, Iri(ImranKhan))} == before + ProfessorTriples
  {
  }

  lemma AddsRelations(before: set<Triple>)
    ensures before + {Triple(Student1, EnrolledIn, Iri(Course1))} + {Triple(Student2, EnrolledIn, Iri(Course2))}
      + {Triple(Student3, EnrolledIn, Iri(Course3))} + {Triple(Professor, Teaches, Iri(Course1))}
      + {Triple(Professor, Teaches, Iri(Course2))} + {Triple(Professor, Teaches, Iri(Course3))}
      == before + RelationTriples
  {
  }

  /** The module-level construction of `g`: one `add` per statement. */
  method BuildUniversityGraph() returns (g: TripleStore)
    ensures fresh(g)
    ensures g.triples == UniversityTriples
  {
    g := new TripleStore();
    g.Add(ImranKhan, RdfType, Iri(LeaderClass));
    g.Add(ImranKhan, FoafName, Lit("Imran Khan"));
    ghost var added := LeaderTriples;
    assert g.triples == added;

    AddsStudent(g.triples, Student1, "xxx");
    g.Add(Student1, RdfType, Iri(StudentClass));
    g.Add(Student1, FoafName, Lit("xxx"));
    g.Add(Student1, Follows, Iri(ImranKhan));
    added := added + StudentTriples(Student1, "xxx");
    assert g.triples == added;

    AddsStudent(g.triples, Student2, "yyy");
    g.Add(Student2, RdfType, Iri(StudentClass));
    g.Add(Student2, FoafName, Lit("yyy"));
    g.Add(Student2, Follows, Iri(ImranKhan));
    added := added + StudentTriples(Student2, "yyy");
    assert g.triples == added;

    AddsStudent(g.triples, Student3, "zzz");
    g.Add(Student3, RdfType, Iri(StudentClass));
    g.Add(Student3, FoafName, Lit("zzz"));
    g.Add(Student3, Follows, Iri(ImranKhan));
    added := added + StudentTriples(Student3, "zzz");
    assert g.triples == added;

    AddsCourse(g.triples, Course1, "Knowledge Reasoning and Representation");
    g.Add(Course1, RdfType, Iri(CourseClass));
    g.Add(Course1, DcTitle, Lit("Knowledge Reasoning and Representation"));
    added := added + CourseTriples(Course1, "Knowledge Reasoning and Representation");
    assert g.triples == added;

    AddsCourse(g.triples, Course2, "Machine Learning");
    g.Add(Course2, RdfType, Iri(CourseClass));
    g.Add(Course2, DcTitle, Lit("Machine Learning"));
    added := added + CourseTriples(Course2, "Machine Learning");
    assert g.triples == added;

    AddsCourse(g.triples, Course3, "Knowledgebase Management System");
    g.Add(Course3, RdfType, Iri(CourseClass));
    g.Add(Course3, DcTitle, Lit("Knowledgebase Management System"));
    added := added + CourseTriples(Course3, "Knowledgebase Management System");
    assert g.triples == added;

    AddsProfessor(g.triples);
    g.Add(Professor, RdfType, Iri(ProfessorClass));
    g.Add(Professor, FoafName, Lit("ppp"));
    g.Add(Professor, Follows, Iri(ImranKhan));
    added := added + ProfessorTriples;
    assert g.triples == added;

    AddsRelations(g.triples);
    g.Add(Student1, EnrolledIn, Iri(Course1));
    g.Add(Student2, EnrolledIn, Iri(Course2));
    g.Add(Student3, EnrolledIn, Iri(Course3));
    g.Add(Professor, Teaches, Iri(Course1));
    g.Add(Professor, Teaches, Iri(Course2));
    g.Add(Professor, Teaches, Iri(Course3));
    added := added + RelationTriples;
    assert g.triples == added;
  }

  /** The entities are labelled by their local names. */
  lemma EntityLabels()
    ensures Label(ImranKhan) == "ImranKhan"
    ensures Label(Student1) == "Student1" && Label(Student2) == "Student2" && Label(Student3) == "Student3"
    ensures Label(Course1) == "Course1" && Label(Course2) == "Course2" && Label(Course3) == "Course3"
    ensures Label(Professor) == "Professor"
  {
    LabelInNamespace(Ex, "ImranKhan");
    LabelInNamespace(Ex, "Student1");
    LabelInNamespace(Ex, "Student2");
    LabelInNamespace(Ex, "Student3");
    LabelInNamespace(Ex, "Course1");
    LabelInNamespace(Ex, "Course2");
    LabelInNamespace(Ex, "Course3");
    LabelInNamespace(Ex, "Professor");
  }

  /**
   * The classes are labelled by their local names, so the Professor class
   * and the Professor entity share the label "Professor".
   */
  lemma ClassLabels()
    ensures Label(LeaderClass) == "Leader" && Label(StudentClass) == "Student" && Label(CourseClass) == "Course"
    ensures Label(ProfessorClass) == "Professor" == Label(Professor)
  {
    LabelInNamespace(Uni, "Leader");
    LabelInNamespace(Uni, "Student");
    LabelInNamespace(Uni, "Course");
    LabelInNamespace(Uni, "Professor");
    LabelInNamespace(Ex, "Professor");
  }

  /**
   * The predicates are labelled by their local names except rdf:type: its
   * namespace ends in '#', so its label keeps the namespace's last segment.
   */
  lemma PredicateLabelsUsed()
    ensures Label(FoafName) == "name" && Label(DcTitle) == "title"
    ensures Label(Follows) == "follows" && Label(EnrolledIn) == "enrolledIn" && Label(Teaches) == "teaches"
    ensures Label(RdfType) == RdfTypeLabel != TypeLabel
  {
    LabelInNamespace(Foaf, "name");
    LabelInNamespace(DcTerms, "title");
    LabelInNamespace(Uni, "follows");
    LabelInNamespace(Uni, "enrolledIn");
    LabelInNamespace(Uni, "teaches");
    assert RdfType == W3Rdf + RdfTypeLabel;
    LabelInNamespace(W3Rdf, RdfTypeLabel);
  }

  // ---- What the projection makes of the dataset ----

  /** A group none of whose triples the loop skips. */
  predicate NoneSkipped(store: set<Triple>)
  {
    forall t | t in store :: !Skipped(t)
  }

  lemma LeaderKept()
    ensures NoneSkipped(LeaderTriples)
  {
    PredicateLabelsUsed();
  }

  lemma StudentKept(student: string, name: string)
    ensures NoneSkipped(StudentTriples(student, name))
  {
    PredicateLabelsUsed();
  }

  lemma CourseKept(course: string, title: string)
    ensures NoneSkipped(CourseTriples(course, title))
  {
    PredicateLabelsUsed();
  }

  lemma ProfessorKept()
    ensures NoneSkipped(ProfessorTriples)
  {
    PredicateLabelsUsed();
  }

  lemma RelationKept()
    ensures NoneSkipped(RelationTriples)
  {
    PredicateLabelsUsed();
  }

  /**
   * The loop skips none of the 26 triples: no predicate's last '/'-segment is
   * "type", not even rdf:type's.
   */
  lemma NothingSkipped()
    ensures NoneSkipped(UniversityTriples)
    ensures Kept(UniversityTriples) == UniversityTriples
  {
    LeaderKept();
    StudentKept(Student1, "xxx");
    StudentKept(Student2, "yyy");
    StudentKept(Student3, "zzz");
    CourseKept(Course1, "Knowledge Reasoning and Representation");
    CourseKept(Course2, "Machine Learning");
    CourseKept(Course3, "Knowledgebase Management System");
    ProfessorKept();
    RelationKept();
  }

  /**
   * Whatever order the store is visited in, the rdf:type triples show up in
   * the projection: the class labels become nodes.
   */
  lemma ClassNodesProjected(ts: seq<Triple>)
    requires Elements(ts) == UniversityTriples
    ensures "Leader" in Project(ts).nodes && "Student" in Project(ts).nodes
    ensures "Course" in Project(ts).nodes && "Professor" in Project(ts).nodes
  {
    NothingSkipped();
    ClassLabels();
    KeptTripleProjected(ts, Triple(ImranKhan, RdfType, Iri(LeaderClass)));
    KeptTripleProjected(ts, Triple(Student1, RdfType, Iri(StudentClass)));
    KeptTripleProjected(ts, Triple(Course1, RdfType, Iri(CourseClass)));
    KeptTripleProjected(ts, Triple(Professor, RdfType, Iri(ProfessorClass)));
  }

  /**
   * The leader gets an edge to "Leader", and the professor a self-loop:
   * the entity and its class share the label "Professor".
   */
  lemma TypeEdgesProjected(ts: seq<Triple>)
    requires Elements(ts) == UniversityTriples
    ensures ("ImranKhan", "Leader") in Project(ts).edges
    ensures ("Professor", "Professor") in Project(ts).edges
  {
    NothingSkipped();
    EntityLabels();
    ClassLabels();
    KeptTripleProjected(ts, Triple(ImranKhan, RdfType, Iri(LeaderClass)));
    KeptTripleProjected(ts, Triple(Professor, RdfType, Iri(ProfessorClass)));
  }

  /** The leader's name is a literal node drawn as a yellow box. */
  lemma LeaderNameStyled(ts: seq<Triple>)
    requires Elements(ts) == UniversityTriples
    ensures "Imran Khan" in Project(ts).nodes && Project(ts).AttrsOf("Imran Khan") == LiteralStyle
  {
    NothingSkipped();
    KeptTripleProjected(ts, Triple(ImranKhan, FoafName, Lit("Imran Khan")));
  }

  /**
   * The script's main flow up to drawing: build `g`, then
   * `nx_graph = rdf_to_networkx(g)`; every edge label survives the filter.
   */
  method ProjectUniversity() returns (G: DiGraph, ghost order: seq<Triple>)
    ensures fresh(G) && G.Valid()
    ensures Elements(order) == UniversityTriples && G.Model() == Project(order)
    ensures "Leader" in G.nodes && "Student" in G.nodes && "Course" in G.nodes && "Professor" in G.nodes
    ensures ("ImranKhan", "Leader") in G.edges && ("Professor", "Professor") in G.edges
    ensures CleanEdgeLabels(G.edges) == G.edges
  {
    var g := BuildUniversityGraph();
    G, order := RdfToNetworkx(g.triples);
    ghost var projected := Project(order);
    assert G.nodes == projected.nodes && G.edges == projected.edges;
    ClassNodesProjected(order);
    TypeEdgesProjected(order);
    CleanProjectionIsIdentity(order);
  }
}
