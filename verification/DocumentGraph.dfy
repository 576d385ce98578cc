/** The graph that a set of document contributions stands for, and how it is recomputed. */
module DocumentGraph {
  import opened Core

  // ---- Contributions ----

  /** An entity's kind and key; digests being injective, it stands for the node identifier too. */
  datatype Key = Key(kind: Id, name: Id)
  const DOCUMENT: Id := 0

  datatype Edge = Edge(relation: Id, source: Key, target: Key)
  datatype Owner = NodeOwner(key: Key) | EdgeOwner(edge: Edge)

  datatype Span = Span(first: nat, end: nat)
  datatype Location = Location(structural: Id, span: Option<Span>, caption: Option<Id>)
  datatype Excerpt = Excerpt(text: Option<string>, truncated: bool)

  datatype EntityFact = EntityFact(key: Key, name: Id, aliases: seq<Id>, rule: Id, locations: seq<Location>)
  datatype RelationFact = RelationFact(edge: Edge, rule: Id, locations: seq<Location>)

  /** What one document contributes, as persisted. */
  datatype Row = Row(document: Id, sourceRevision: Id, inputDigest: Id, extractionDigest: Id, locator: Option<Id>,
                     entities: seq<EntityFact>, relations: seq<RelationFact>, excerpts: map<Location, Excerpt>,
                     warnings: set<Id>)

  type Rows = map<Id, Row>

  datatype EvidenceId = EvidenceId(document: Id, sourceRevision: Id, inputDigest: Id, owner: Owner,
                                   structural: Id, span: Option<Span>, rule: Id)
  datatype Evidence = Evidence(id: EvidenceId, locator: Option<Id>, excerpt: Excerpt)

  datatype Info = Info(sourceRevision: Id, inputDigest: Id, extractionDigest: Id, locator: Option<Id>)
  datatype NodeView = NodeView(shown: Id, names: set<Id>, available: bool)
  datatype Graph = Graph(nodes: map<Key, NodeView>, edges: set<Edge>, evidence: set<Evidence>, documents: map<Id, Info>)

  function InfoOf(row: Row): Info {
    Info(row.sourceRevision, row.inputDigest, row.extractionDigest, row.locator)
  }

  function EvidenceAt(row: Row, owner: Owner, rule: Id, l: Location): Evidence {
    Evidence(EvidenceId(row.document, row.sourceRevision, row.inputDigest, owner, l.structural, l.span, rule), row.locator,
             if l in row.excerpts then row.excerpts[l] else Excerpt(None, false))
  }

  // ---- What one row contributes ----

  function FactNames(f: EntityFact): set<Id> {
    {f.name} + set a | a in f.aliases
  }

  function RowNodes(row: Row): set<Key> {
    (set f | f in row.entities :: f.key) + (set f | f in row.relations :: f.edge.source)
    + set f | f in row.relations :: f.edge.target
  }

  /** The names the row's entity facts give a node; empty for a node that is only an endpoint. */
  function RowNames(row: Row, n: Key): set<Id> {
    set f, a | f in row.entities && f.key == n && a in FactNames(f) :: a
  }

  function RowEdges(row: Row): set<Edge> {
    set f | f in row.relations :: f.edge
  }

  function RowEvidence(row: Row): set<Evidence> {
    (set f, l | f in row.entities && l in f.locations :: EvidenceAt(row, NodeOwner(f.key), f.rule, l))
    + set f, l | f in row.relations && l in f.locations :: EvidenceAt(row, EdgeOwner(f.edge), f.rule, l)
  }

  // ---- What all rows stand for ----

  function Nodes(rows: Rows): set<Key> {
    set d, n | d in rows && n in RowNodes(rows[d]) :: n
  }

  function Names(rows: Rows, n: Key): set<Id> {
    set d, a | d in rows && a in RowNames(rows[d], n) :: a
  }

  /** A node without a name is shown under its key. */
  function OrKey(names: set<Id>, n: Key): set<Id> {
    if names == {} then {n.name} else names
  }

  function Labels(rows: Rows): map<Key, set<Id>> {
    map n | n in Nodes(rows) :: OrKey(Names(rows, n), n)
  }

  function Edges(rows: Rows): set<Edge> {
    set d, e | d in rows && e in RowEdges(rows[d]) :: e
  }

  function AllEvidence(rows: Rows): set<Evidence> {
    set d, e | d in rows && e in RowEvidence(rows[d]) :: e
  }

  function Documents(rows: Rows): map<Id, Info> {
    map d | d in rows :: InfoOf(rows[d])
  }

  function Least(s: set<Id>): Id
    requires s != {}
  {
    LeastExists(s);
    var m :| m in s && forall x :: x in s ==> m <= x; m
  }

  lemma {:induction false} LeastExists(s: set<Id>)
    requires s != {}
    ensures exists m :: m in s && forall x :: x in s ==> m <= x
    decreases s
  {
    var y :| y in s;
    if s - {y} != {} {
      LeastExists(s - {y});
      var m :| m in s - {y} && forall x :: x in s - {y} ==> m <= x;
      var best := if m <= y then m else y;
      assert best in s && forall x :: x in s ==> best <= x by {
        forall x | x in s ensures best <= x {
          assert x == y || x in s - {y};
        }
      }
    } else {
      assert s == {y};
    }
  }

  function ShownNodes(labels: map<Key, set<Id>>, documents: set<Id>): map<Key, NodeView>
    requires forall n :: n in labels ==> labels[n] != {}
  {
    map n | n in labels :: NodeView(Least(labels[n]), labels[n], n.kind != DOCUMENT || n.name in documents)
  }

  /** The graph of a set of contributions. */
  function Recomputed(rows: Rows): Graph {
    Graph(ShownNodes(Labels(rows), rows.Keys), Edges(rows), AllEvidence(rows), Documents(rows))
  }

  // ---- What that graph says of the facts ----

  ghost predicate EntityOf(rows: Rows, d: Id, f: EntityFact) {
    d in rows && f in rows[d].entities
  }

  ghost predicate RelationOf(rows: Rows, d: Id, f: RelationFact) {
    d in rows && f in rows[d].relations
  }

  /** Some entity fact of the node carries the name. */
  ghost predicate Named(rows: Rows, n: Key, a: Id) {
    exists d, f :: EntityOf(rows, d, f) && f.key == n && (a == f.name || a in f.aliases)
  }

  /** Nodes are the keys of entity facts and the ends of relations, edges the relations. */
  lemma NodesAreFacts(rows: Rows)
    ensures forall n :: n in Recomputed(rows).nodes <==>
      || (exists d, f :: EntityOf(rows, d, f) && f.key == n)
      || (exists d, f :: RelationOf(rows, d, f) && (f.edge.source == n || f.edge.target == n))
    ensures forall e :: e in Recomputed(rows).edges <==> exists d, f :: RelationOf(rows, d, f) && f.edge == e
  {
    NodesOfFacts(rows);
    EdgesOfFacts(rows);
  }

  lemma NodesOfFacts(rows: Rows)
    ensures forall n :: n in Nodes(rows) <==>
      || (exists d, f :: EntityOf(rows, d, f) && f.key == n)
      || (exists d, f :: RelationOf(rows, d, f) && (f.edge.source == n || f.edge.target == n))
  {
    forall n | n in Nodes(rows)
      ensures (exists d, f :: EntityOf(rows, d, f) && f.key == n)
        || (exists d, f :: RelationOf(rows, d, f) && (f.edge.source == n || f.edge.target == n))
    {
      var d :| d in rows && n in RowNodes(rows[d]);
      if f :| f in rows[d].entities && f.key == n {
        assert EntityOf(rows, d, f);
      } else {
        var f :| f in rows[d].relations && (f.edge.source == n || f.edge.target == n);
        assert RelationOf(rows, d, f);
      }
    }
    forall d, f | EntityOf(rows, d, f) ensures f.key in Nodes(rows) {
      assert f.key in RowNodes(rows[d]);
    }
    forall d, f | RelationOf(rows, d, f) ensures f.edge.source in Nodes(rows) && f.edge.target in Nodes(rows) {
      assert f.edge.source in RowNodes(rows[d]) && f.edge.target in RowNodes(rows[d]);
    }
  }

  lemma EdgesOfFacts(rows: Rows)
    ensures forall e :: e in Edges(rows) <==> exists d, f :: RelationOf(rows, d, f) && f.edge == e
  {
    forall d, f | RelationOf(rows, d, f) ensures f.edge in Edges(rows) {
      assert f.edge in RowEdges(rows[d]);
    }
    forall e | e in Edges(rows) ensures exists d, f :: RelationOf(rows, d, f) && f.edge == e {
      var d :| d in rows && e in RowEdges(rows[d]);
      var f :| f in rows[d].relations && f.edge == e;
      assert RelationOf(rows, d, f);
    }
  }

  /** A node has every name its entity facts give it, or else its key; it is shown under the least of them. */
  lemma LabelsAreNames(rows: Rows, n: Key)
    requires n in Recomputed(rows).nodes
    ensures var v := Recomputed(rows).nodes[n];
      && (forall a :: a in v.names <==> Named(rows, n, a) || (a == n.name && forall b :: !Named(rows, n, b)))
      && v.shown in v.names && (forall a :: a in v.names ==> v.shown <= a)
      && (v.available <==> n.kind != DOCUMENT || n.name in rows)
  {
    forall a ensures a in Names(rows, n) <==> Named(rows, n, a) {
      NameIsNamed(rows, n, a);
    }
    NoNames(rows, n);
  }

  lemma NameIsNamed(rows: Rows, n: Key, a: Id)
    ensures a in Names(rows, n) <==> Named(rows, n, a)
  {
    if a in Names(rows, n) {
      var d :| d in rows && a in RowNames(rows[d], n);
      var f :| f in rows[d].entities && f.key == n && a in FactNames(f);
      assert EntityOf(rows, d, f);
    }
    if d, f :| EntityOf(rows, d, f) && f.key == n && (a == f.name || a in f.aliases) {
      assert a in FactNames(f) && a in RowNames(rows[d], n);
    }
  }

  lemma NoNames(rows: Rows, n: Key)
    ensures Names(rows, n) == {} <==> forall b :: !Named(rows, n, b)
  {
    forall b ensures b in Names(rows, n) <==> Named(rows, n, b) {
      NameIsNamed(rows, n, b);
    }
    if Names(rows, n) != {} {
      var b :| b in Names(rows, n);
    }
  }

  /** The evidence of one place of a fact: its document, revision, input and rule, and the excerpt stored for the place. */
  ghost predicate Witnesses(e: Evidence, row: Row, owner: Owner, rule: Id, l: Location) {
    && e.id.document == row.document && e.id.sourceRevision == row.sourceRevision && e.id.inputDigest == row.inputDigest
    && e.id.owner == owner && e.id.structural == l.structural && e.id.span == l.span && e.id.rule == rule
    && e.locator == row.locator && e.excerpt == if l in row.excerpts then row.excerpts[l] else Excerpt(None, false)
  }

  ghost predicate EntityWitness(rows: Rows, e: Evidence, d: Id, f: EntityFact, l: Location) {
    EntityOf(rows, d, f) && l in f.locations && Witnesses(e, rows[d], NodeOwner(f.key), f.rule, l)
  }

  ghost predicate RelationWitness(rows: Rows, e: Evidence, d: Id, f: RelationFact, l: Location) {
    RelationOf(rows, d, f) && l in f.locations && Witnesses(e, rows[d], EdgeOwner(f.edge), f.rule, l)
  }

  /** Evidence is one row for each place of each fact. */
  lemma EvidenceIsPlaces(rows: Rows, e: Evidence)
    ensures e in Recomputed(rows).evidence <==>
      (exists d, f, l :: EntityWitness(rows, e, d, f, l)) || (exists d, f, l :: RelationWitness(rows, e, d, f, l))
  {
    if e in AllEvidence(rows) {
      var d :| d in rows && e in RowEvidence(rows[d]);
      if f, l :| f in rows[d].entities && l in f.locations && e == EvidenceAt(rows[d], NodeOwner(f.key), f.rule, l) {
        assert EntityWitness(rows, e, d, f, l);
      } else {
        var f, l :| f in rows[d].relations && l in f.locations && e == EvidenceAt(rows[d], EdgeOwner(f.edge), f.rule, l);
        assert RelationWitness(rows, e, d, f, l);
      }
    }
    if d, f, l :| EntityWitness(rows, e, d, f, l) {
      assert e == EvidenceAt(rows[d], NodeOwner(f.key), f.rule, l) && e in RowEvidence(rows[d]);
    }
    if d, f, l :| RelationWitness(rows, e, d, f, l) {
      assert e == EvidenceAt(rows[d], EdgeOwner(f.edge), f.rule, l) && e in RowEvidence(rows[d]);
    }
  }

  /** No two evidence rows share an identifier and differ. */
  ghost predicate Functional(evidence: set<Evidence>) {
    forall a, b :: a in evidence && b in evidence && a.id == b.id ==> a == b
  }

  function Ids(evidence: set<Evidence>): set<EvidenceId> {
    set e | e in evidence :: e.id
  }

  lemma {:induction false} FunctionalSize(evidence: set<Evidence>)
    requires Functional(evidence)
    ensures |Ids(evidence)| == |evidence|
    decreases evidence
  {
    if evidence != {} {
      var e :| e in evidence;
      FunctionalSize(evidence - {e});
      assert Ids(evidence) == Ids(evidence - {e}) + {e.id};
    }
  }

  // ---- What validation guarantees of a row ----

  /** Endpoints have an entity in the row, the document has its own, and excerpts follow the place they quote. */
  ghost predicate ValidRow(row: Row) {
    && (forall f :: f in row.relations ==> HasFact(row, f.edge.source) && HasFact(row, f.edge.target))
    && HasFact(row, Key(DOCUMENT, row.document))
    && (forall k, l :: k in row.excerpts && l in row.excerpts && k.structural == l.structural && k.span == l.span
          ==> row.excerpts[k] == row.excerpts[l])
    && (forall f, l :: f in row.entities && l in f.locations ==> l in row.excerpts)
    && (forall f, l :: f in row.relations && l in f.locations ==> l in row.excerpts)
  }

  ghost predicate HasFact(row: Row, n: Key) {
    exists f :: f in row.entities && f.key == n
  }

  ghost predicate ValidRows(rows: Rows) {
    forall d :: d in rows ==> rows[d].document == d && ValidRow(rows[d])
  }

  lemma RowIsFunctional(row: Row)
    requires ValidRow(row)
    ensures Functional(RowEvidence(row))
  {
  }

  lemma ValidIsFunctional(rows: Rows)
    requires ValidRows(rows)
    ensures Functional(AllEvidence(rows))
  {
    forall a, b | a in AllEvidence(rows) && b in AllEvidence(rows) && a.id == b.id ensures a == b {
      var d :| d in rows && a in RowEvidence(rows[d]);
      var e :| e in rows && b in RowEvidence(rows[e]);
      assert a.id.document == d && b.id.document == e;
      RowIsFunctional(rows[d]);
    }
  }

  // ---- Merging what single documents show ----

  function RowLabels(row: Row): map<Key, set<Id>> {
    map n | n in RowNodes(row) :: OrKey(RowNames(row, n), n)
  }

  function MergedNames(rows: Rows, n: Key): set<Id> {
    set d, a | d in rows && n in RowNodes(rows[d]) && a in RowLabels(rows[d])[n] :: a
  }

  /** Some document names the node, and some other only has it as an endpoint. */
  ghost predicate NamedAndBare(rows: Rows, n: Key) {
    && (exists d :: d in rows && RowNames(rows[d], n) != {})
    && (exists d :: d in rows && n in RowNodes(rows[d]) && RowNames(rows[d], n) == {})
  }

  /**
   * Merging per-document label sets gives the labels of all the documents together exactly when a node that is named
   * by one document and bare in another is named by its own key as well.
   */
  lemma MergeExactly(rows: Rows, n: Key)
    requires n in Nodes(rows)
    ensures MergedNames(rows, n) == Labels(rows)[n] <==> (NamedAndBare(rows, n) ==> n.name in Names(rows, n))
  {
    if Names(rows, n) == {} {
      UnnamedMerge(rows, n);
    } else {
      NamedMerge(rows, n);
    }
  }

  /** A named node gets its names, and its own key where some document has it bare. */
  lemma NamedMerge(rows: Rows, n: Key)
    requires Names(rows, n) != {}
    ensures MergedNames(rows, n) == Names(rows, n) + if NamedAndBare(rows, n) then {n.name} else {}
    ensures Labels(rows)[n] == Names(rows, n)
  {
    MergedHas(rows, n);
    var a :| a in Names(rows, n);
    NamedBy(rows, n, a);
  }

  lemma UnnamedMerge(rows: Rows, n: Key)
    requires n in Nodes(rows) && Names(rows, n) == {}
    ensures MergedNames(rows, n) == {n.name} && !NamedAndBare(rows, n)
  {
    MergedHas(rows, n);
    forall d | d in rows ensures RowNames(rows[d], n) == {} {
      NamesInclude(rows, n, d);
    }
    var d :| d in rows && n in RowNodes(rows[d]);
    assert n.name in MergedNames(rows, n);
  }

  lemma NamesInclude(rows: Rows, n: Key, d: Id)
    requires d in rows
    ensures RowNames(rows[d], n) <= Names(rows, n)
  {
  }

  lemma NamedBy(rows: Rows, n: Key, a: Id)
    requires a in Names(rows, n)
    ensures exists d :: d in rows && RowNames(rows[d], n) != {}
  {
    var d :| d in rows && a in RowNames(rows[d], n);
  }

  lemma MergedHas(rows: Rows, n: Key)
    ensures forall a :: a in MergedNames(rows, n) <==>
      a in Names(rows, n)
      || (a == n.name && exists d :: d in rows && n in RowNodes(rows[d]) && RowNames(rows[d], n) == {})
  {
    forall a ensures a in MergedNames(rows, n) <==>
      a in Names(rows, n)
      || (a == n.name && exists d :: d in rows && n in RowNodes(rows[d]) && RowNames(rows[d], n) == {})
    {
      if a in Names(rows, n) {
        var d :| d in rows && a in RowNames(rows[d], n);
        NamedIsNode(rows[d], n, a);
        assert a in RowLabels(rows[d])[n];
      }
      if a == n.name && exists d :: d in rows && n in RowNodes(rows[d]) && RowNames(rows[d], n) == {} {
        var d :| d in rows && n in RowNodes(rows[d]) && RowNames(rows[d], n) == {};
        assert a in RowLabels(rows[d])[n];
      }
    }
  }

  lemma NamedIsNode(row: Row, n: Key, a: Id)
    requires a in RowNames(row, n)
    ensures n in RowNodes(row)
  {
  }

  /** Validation keeps every node named where it appears, so merging is exact. */
  lemma ValidRowsMerge(rows: Rows, n: Key)
    requires ValidRows(rows) && n in Nodes(rows)
    ensures MergedNames(rows, n) == Labels(rows)[n]
  {
    MergeExactly(rows, n);
    forall d | d in rows && n in RowNodes(rows[d]) ensures RowNames(rows[d], n) != {} {
      EndpointIsNamed(rows[d], n);
    }
  }

  lemma EndpointHasFact(row: Row, n: Key)
    requires ValidRow(row) && n in RowNodes(row)
    ensures HasFact(row, n)
  {
    if f :| f in row.entities && f.key == n {
    } else {
      var f :| f in row.relations && (f.edge.source == n || f.edge.target == n);
    }
  }

  lemma EndpointIsNamed(row: Row, n: Key)
    requires ValidRow(row) && n in RowNodes(row)
    ensures RowNames(row, n) != {}
  {
    EndpointHasFact(row, n);
    var f :| f in row.entities && f.key == n;
    assert f.name in FactNames(f);
    assert f.name in RowNames(row, n);
  }

  /** Two documents, one naming a node and one with the node as a bare endpoint, for which merging is wrong. */
  lemma MergeCanFail() returns (rows: Rows, n: Key)
    ensures n in Nodes(rows) && MergedNames(rows, n) != Labels(rows)[n]
  {
    n := Key(1, 5);
    var named := Row(0, 0, 0, 0, None, [EntityFact(n, 6, [], 0, [])], [], map[], {});
    var bare := Row(1, 0, 0, 0, None, [], [RelationFact(Edge(7, n, n), 0, [])], map[], {});
    BareRow(bare, RelationFact(Edge(7, n, n), 0, []), n);
    NamedRow(named, EntityFact(n, 6, [], 0, []), n);
    rows := map[0 := named, 1 := bare];
    TwoRows(rows, n, 6);
  }

  lemma TwoRows(rows: Rows, n: Key, a: Id)
    requires rows.Keys == {0, 1} && RowNames(rows[0], n) == {a} && a != n.name
    requires n in RowNodes(rows[1]) && RowNames(rows[1], n) == {}
    ensures n in Nodes(rows) && MergedNames(rows, n) != Labels(rows)[n]
  {
    assert Names(rows, n) == {a};
    assert n in Nodes(rows);
    MergeExactly(rows, n);
  }

  lemma BareRow(row: Row, f: RelationFact, n: Key)
    requires row.entities == [] && row.relations == [f] && f.edge.source == n
    ensures n in RowNodes(row) && RowNames(row, n) == {}
  {
    assert f in row.relations;
  }

  lemma NamedRow(row: Row, f: EntityFact, n: Key)
    requires row.entities == [f] && f.key == n && f.aliases == []
    ensures RowNames(row, n) == {f.name}
  {
    assert f in row.entities;
    assert FactNames(f) == {f.name};
  }
}
