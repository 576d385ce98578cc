/** The tables of one collection, how they are written, and how a graph is read back from them. */
module DocumentTables {
  import opened Core
  import opened DocumentGraph
  import opened DocumentSnapshots

  /** One collection's rows in every table; the tables keyed by document are grouped by it. */
  datatype Collection = Collection(
    revision: nat, profile: Id, documents: map<Id, Info>, contributions: Rows,
    nodeParts: map<Id, map<Key, set<Id>>>, edgeParts: map<Id, set<Edge>>, evidence: map<Id, set<Evidence>>,
    nodes: map<Key, set<Id>>, edges: set<Edge>)

  function NodeParts(rows: Rows): map<Id, map<Key, set<Id>>> {
    map d | d in rows :: RowLabels(rows[d])
  }

  function EdgeParts(rows: Rows): map<Id, set<Edge>> {
    map d | d in rows :: RowEdges(rows[d])
  }

  function EvidenceParts(rows: Rows): map<Id, set<Evidence>> {
    map d | d in rows :: RowEvidence(rows[d])
  }

  /** The tables as a recomputation from the contributions fills them. */
  function Materialized(revision: nat, profile: Id, rows: Rows): Collection {
    Collection(revision, profile, Documents(rows), rows, NodeParts(rows), EdgeParts(rows), EvidenceParts(rows),
               Labels(rows), Edges(rows))
  }

  ghost predicate Consistent(c: Collection) {
    ValidRows(c.contributions) && c == Materialized(c.revision, c.profile, c.contributions)
  }

  // ---- Reading ----

  datatype Selection = All | Only(ids: seq<Id>)

  predicate Selects(s: Selection, d: Id) {
    s.All? || d in s.ids
  }

  function Chosen(rows: Rows, s: Selection): Rows {
    map d | d in rows && Selects(s, d) :: rows[d]
  }

  type Parts = map<Id, map<Key, set<Id>>>

  function PartNodes(parts: Parts, ids: seq<Id>): set<Key> {
    set d, n | d in ids && d in parts && n in parts[d] :: n
  }

  function PartNames(parts: Parts, ids: seq<Id>, n: Key): set<Id> {
    set d, a | d in ids && d in parts && n in parts[d] && a in parts[d][n] :: a
  }

  function MergedParts(parts: Parts, ids: seq<Id>): map<Key, set<Id>> {
    map n | n in PartNodes(parts, ids) :: PartNames(parts, ids, n)
  }

  function UnionOf<T>(parts: map<Id, set<T>>, ids: seq<Id>): set<T> {
    set d, e | d in ids && d in parts && e in parts[d] :: e
  }

  function OrKeys(labels: map<Key, set<Id>>): (r: map<Key, set<Id>>)
    ensures forall n :: n in r ==> r[n] != {}
  {
    map n | n in labels :: OrKey(labels[n], n)
  }

  function TableLabels(c: Collection, s: Selection, ids: seq<Id>): (r: map<Key, set<Id>>)
    ensures forall n :: n in r ==> r[n] != {}
  {
    OrKeys(if s.All? then c.nodes else MergedParts(c.nodeParts, ids))
  }

  function TableEdges(c: Collection, s: Selection, ids: seq<Id>): set<Edge> {
    if s.All? then c.edges else UnionOf(c.edgeParts, ids)
  }

  function TableDocuments(c: Collection, s: Selection): map<Id, Info> {
    map d | d in c.documents && Selects(s, d) :: c.documents[d]
  }

  /** What the tables show for a selection; `ids` are the selected documents. */
  function FromTables(c: Collection, s: Selection, ids: seq<Id>): Graph {
    var documents := TableDocuments(c, s);
    Graph(ShownNodes(TableLabels(c, s, ids), documents.Keys), TableEdges(c, s, ids), UnionOf(c.evidence, ids), documents)
  }

  /** The integrity checks of a read. */
  ghost predicate Sound(g: Graph) {
    && (forall e :: e in g.edges ==> e.source in g.nodes && e.target in g.nodes)
    && (forall e :: e in g.evidence ==> EvidenceMatches(g, e))
    && Functional(g.evidence)
  }

  /** The evidence is of its document's current revision, input and place, and its owner is in the graph. */
  ghost predicate EvidenceMatches(g: Graph, e: Evidence) {
    && e.id.document in g.documents
    && g.documents[e.id.document].sourceRevision == e.id.sourceRevision
    && g.documents[e.id.document].inputDigest == e.id.inputDigest
    && g.documents[e.id.document].locator == e.locator
    && match e.id.owner { case NodeOwner(n) => n in g.nodes case EdgeOwner(edge) => edge in g.edges }
  }

  /** `rows` are the contributions of the documents `ids`. */
  ghost predicate RowsAt(all: Rows, ids: seq<Id>, rows: Rows) {
    (forall d :: d in rows <==> d in ids) && forall d :: d in rows ==> d in all && rows[d] == all[d]
  }

  /** Reading any selection of a consistent collection gives the graph of the selected contributions. */
  lemma ReadsBack(c: Collection, s: Selection, ids: seq<Id>)
    requires Consistent(c)
    requires forall d :: d in ids <==> d in c.contributions && Selects(s, d)
    ensures FromTables(c, s, ids) == Recomputed(Chosen(c.contributions, s))
  {
    LabelsRead(c, s, ids);
    EdgesRead(c, s, ids);
    EvidenceBack(c.contributions, c.evidence, ids, Chosen(c.contributions, s));
    DocumentsBack(c, s);
  }

  lemma LabelsRead(c: Collection, s: Selection, ids: seq<Id>)
    requires Consistent(c) && forall d :: d in ids <==> d in c.contributions && Selects(s, d)
    ensures TableLabels(c, s, ids) == Labels(Chosen(c.contributions, s))
  {
    AllBack(c.contributions, s);
    NodesBack(c.contributions, c.nodeParts, ids, Chosen(c.contributions, s));
  }

  lemma EdgesRead(c: Collection, s: Selection, ids: seq<Id>)
    requires Consistent(c) && forall d :: d in ids <==> d in c.contributions && Selects(s, d)
    ensures TableEdges(c, s, ids) == Edges(Chosen(c.contributions, s))
  {
    AllBack(c.contributions, s);
    EdgesBack(c.contributions, c.edgeParts, ids, Chosen(c.contributions, s));
  }

  /** And the integrity checks of the read pass. */
  lemma ReadIsSound(c: Collection, s: Selection)
    requires Consistent(c)
    ensures Sound(Recomputed(Chosen(c.contributions, s)))
  {
    AllBack(c.contributions, s);
    RecomputedIsSound(Chosen(c.contributions, s));
  }

  lemma AllBack(all: Rows, s: Selection)
    requires ValidRows(all)
    ensures s.All? ==> Chosen(all, s) == all && OrKeys(Labels(all)) == Labels(all)
    ensures ValidRows(Chosen(all, s))
  {
    LabelsNonempty(all);
  }

  lemma LabelsNonempty(rows: Rows)
    ensures OrKeys(Labels(rows)) == Labels(rows)
  {
  }

  lemma DocumentsBack(c: Collection, s: Selection)
    requires c.documents == Documents(c.contributions)
    ensures TableDocuments(c, s) == Documents(Chosen(c.contributions, s))
    ensures Documents(Chosen(c.contributions, s)).Keys == Chosen(c.contributions, s).Keys
  {
  }

  lemma NodesBack(all: Rows, parts: Parts, ids: seq<Id>, rows: Rows)
    requires ValidRows(all) && RowsAt(all, ids, rows)
    requires parts.Keys == all.Keys && forall d :: d in all ==> parts[d] == RowLabels(all[d])
    ensures OrKeys(MergedParts(parts, ids)) == Labels(rows)
  {
    PartNodesBack(all, parts, ids, rows);
    var merged := MergedParts(parts, ids);
    forall n | n in Nodes(rows) ensures merged[n] == Labels(rows)[n] {
      NodeBack(all, parts, ids, rows, n);
    }
    SameLabels(merged, Labels(rows));
    LabelsNonempty(rows);
  }

  lemma SameLabels(a: map<Key, set<Id>>, b: map<Key, set<Id>>)
    requires a.Keys == b.Keys && forall n :: n in a ==> a[n] == b[n]
    ensures a == b
  {
  }

  lemma NodeBack(all: Rows, parts: Parts, ids: seq<Id>, rows: Rows, n: Key)
    requires ValidRows(all) && RowsAt(all, ids, rows) && n in Nodes(rows) && n in PartNodes(parts, ids)
    requires parts.Keys == all.Keys && forall d :: d in all ==> parts[d] == RowLabels(all[d])
    ensures MergedParts(parts, ids)[n] == Labels(rows)[n]
  {
    PartNamesBack(all, parts, ids, rows, n);
    ValidRowsMerge(rows, n);
  }

  lemma PartNodesBack(all: Rows, parts: Parts, ids: seq<Id>, rows: Rows)
    requires RowsAt(all, ids, rows)
    requires parts.Keys == all.Keys && forall d :: d in all ==> parts[d].Keys == RowNodes(all[d])
    ensures PartNodes(parts, ids) == Nodes(rows)
  {
    forall n | n in PartNodes(parts, ids) ensures n in Nodes(rows) {
      var d :| d in ids && d in parts && n in parts[d];
      assert d in rows && n in RowNodes(rows[d]);
    }
    forall n | n in Nodes(rows) ensures n in PartNodes(parts, ids) {
      var d :| d in rows && n in RowNodes(rows[d]);
      assert d in ids && d in parts && n in parts[d];
    }
  }

  lemma PartNamesBack(all: Rows, parts: Parts, ids: seq<Id>, rows: Rows, n: Key)
    requires RowsAt(all, ids, rows)
    requires parts.Keys == all.Keys && forall d :: d in all ==> parts[d] == RowLabels(all[d])
    ensures PartNames(parts, ids, n) == MergedNames(rows, n)
  {
    forall a | a in PartNames(parts, ids, n) ensures a in MergedNames(rows, n) {
      var d :| d in ids && d in parts && n in parts[d] && a in parts[d][n];
      assert d in rows && n in RowNodes(rows[d]) && a in RowLabels(rows[d])[n];
    }
    forall a | a in MergedNames(rows, n) ensures a in PartNames(parts, ids, n) {
      var d :| d in rows && n in RowNodes(rows[d]) && a in RowLabels(rows[d])[n];
      assert d in ids && d in parts && n in parts[d] && a in parts[d][n];
    }
  }

  lemma EdgesBack(all: Rows, parts: map<Id, set<Edge>>, ids: seq<Id>, rows: Rows)
    requires RowsAt(all, ids, rows)
    requires parts.Keys == all.Keys && forall d :: d in all ==> parts[d] == RowEdges(all[d])
    ensures UnionOf(parts, ids) == Edges(rows)
  {
    forall e | e in UnionOf(parts, ids) ensures e in Edges(rows) {
      var d :| d in ids && d in parts && e in parts[d];
      assert d in rows && e in RowEdges(rows[d]);
    }
    forall e | e in Edges(rows) ensures e in UnionOf(parts, ids) {
      var d :| d in rows && e in RowEdges(rows[d]);
      assert d in ids && d in parts && e in parts[d];
    }
  }

  lemma EvidenceBack(all: Rows, parts: map<Id, set<Evidence>>, ids: seq<Id>, rows: Rows)
    requires RowsAt(all, ids, rows)
    requires parts.Keys == all.Keys && forall d :: d in all ==> parts[d] == RowEvidence(all[d])
    ensures UnionOf(parts, ids) == AllEvidence(rows)
  {
    forall e | e in UnionOf(parts, ids) ensures e in AllEvidence(rows) {
      var d :| d in ids && d in parts && e in parts[d];
      assert d in rows && e in RowEvidence(rows[d]);
    }
    forall e | e in AllEvidence(rows) ensures e in UnionOf(parts, ids) {
      var d :| d in rows && e in RowEvidence(rows[d]);
      assert d in ids && d in parts && e in parts[d];
    }
  }

  lemma RecomputedIsSound(rows: Rows)
    requires ValidRows(rows)
    ensures Sound(Recomputed(rows))
  {
    var g := Recomputed(rows);
    ValidIsFunctional(rows);
    forall e | e in g.edges ensures e.source in g.nodes && e.target in g.nodes {
      EndpointsAreNodes(rows, e);
    }
    forall e | e in g.evidence ensures EvidenceMatches(g, e) {
      EvidenceIsSound(rows, e);
    }
  }

  lemma EvidenceIsSound(rows: Rows, e: Evidence)
    requires ValidRows(rows) && e in AllEvidence(rows)
    ensures EvidenceMatches(Recomputed(rows), e)
  {
    var d :| d in rows && e in RowEvidence(rows[d]);
    RowEvidenceMatches(rows, d, e);
    assert Recomputed(rows).nodes.Keys == Nodes(rows);
  }

  lemma EndpointsAreNodes(rows: Rows, e: Edge)
    requires e in Edges(rows)
    ensures e.source in Recomputed(rows).nodes && e.target in Recomputed(rows).nodes
  {
    assert Recomputed(rows).nodes.Keys == Nodes(rows);
    var d :| d in rows && e in RowEdges(rows[d]);
    assert e.source in RowNodes(rows[d]) && e.target in RowNodes(rows[d]);
  }

  lemma RowEvidenceMatches(rows: Rows, d: Id, e: Evidence)
    requires ValidRows(rows) && d in rows && e in RowEvidence(rows[d])
    ensures e.id.document == d && e.id.sourceRevision == rows[d].sourceRevision
    ensures e.id.inputDigest == rows[d].inputDigest && e.locator == rows[d].locator
    ensures e.id.owner.NodeOwner? ==> e.id.owner.key in Nodes(rows)
    ensures e.id.owner.EdgeOwner? ==> e.id.owner.edge in Edges(rows)
  {
    if e.id.owner.NodeOwner? {
      assert e.id.owner.key in RowNodes(rows[d]);
    } else {
      assert e.id.owner.edge in RowEdges(rows[d]);
    }
  }
}
