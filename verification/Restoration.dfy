/** The entity graph restored from recorded occurrences: the document backend shows what the graph store shows. */
module Restoration {
  import opened Core
  import opened LinkResolution
  import opened Extraction
  import opened GraphIndex
  import opened GraphStores

  /** What the manifest records of one document. */
  datatype Recorded = Recorded(entities: seq<Occurrence>, relations: seq<Occurrence>)

  datatype RestoredEdge = RestoredEdge(confidence: nat, evidence: set<RefId>)

  /** Nodes with their names, relationships with confidence and evidence identifiers, and the evidence. */
  datatype Restored = Restored(nodes: map<Owner, string>, edges: map<Owner, RestoredEdge>, refs: map<RefId, Ref>)

  ghost predicate Holds(documents: seq<Recorded>, o: Occurrence) {
    exists d :: d in documents && o in (if o.Entity? then d.entities else d.relations)
  }

  ghost predicate Known(documents: seq<Recorded>, key: EntityKey) {
    exists e :: Holds(documents, e) && e.Entity? && e.key == key
  }

  /** What is restored: a relationship only when both its ends are restored. */
  ghost function Kept(documents: seq<Recorded>): Occurrence -> bool {
    o => Holds(documents, o) && (o.Relation? ==> Known(documents, o.source) && Known(documents, o.target))
  }

  /** Entities are recorded as entities, relationships as relationships. */
  ghost predicate Sorted(d: Recorded) {
    (forall o :: o in d.entities ==> o.Entity?) && forall o :: o in d.relations ==> o.Relation?
  }

  /** One node, edge and evidence row for each group of occurrences, as the group's record says. */
  ghost predicate Restores(occurs: Occurrence -> bool, r: Restored) {
    NodesOf(occurs, r.nodes) && EdgesOf(occurs, r.refs, r.edges) && EvidenceOf(occurs, r.refs)
  }

  ghost predicate NodesOf(occurs: Occurrence -> bool, nodes: map<Owner, string>) {
    && (forall w :: w in nodes <==> w.EntityOwner? && HasOwner(occurs, w))
    && forall w :: w in nodes ==> NodeShows(occurs, w, nodes[w])
  }

  ghost predicate NodeShows(occurs: Occurrence -> bool, w: Owner, name: string) {
    exists record :: Describes(occurs, w, record) && name == record.name
  }

  ghost predicate EdgesOf(occurs: Occurrence -> bool, refs: map<RefId, Ref>, edges: map<Owner, RestoredEdge>) {
    && (forall w :: w in edges <==> w.RelationOwner? && HasOwner(occurs, w))
    && forall w :: w in edges ==> EdgeShows(occurs, refs, w, edges[w])
  }

  ghost predicate EdgeShows(occurs: Occurrence -> bool, refs: map<RefId, Ref>, w: Owner, e: RestoredEdge) {
    e.evidence == RowsOf(refs, w) && exists record :: Describes(occurs, w, record) && e.confidence == record.confidence
  }

  /** What a graph store with these records and rows shows. */
  function Shown(records: map<Owner, Record>, evidence: map<RefId, Ref>): Restored {
    Restored(map w | w in records && w.EntityOwner? :: records[w].name,
             map w | w in records && w.RelationOwner? :: RestoredEdge(records[w].confidence, RowsOf(evidence, w)),
             evidence)
  }

  method AllEntities(documents: seq<Recorded>) returns (entities: seq<Occurrence>)
    requires forall d :: d in documents ==> Sorted(d)
    ensures forall o :: o in entities <==> Holds(documents, o) && o.Entity?
  {
    entities := [];
    for i := 0 to |documents|
      invariant forall o :: o in entities <==> Holds(documents[..i], o) && o.Entity?
    {
      MoreDocuments(documents, i);
      assert Sorted(documents[i]);
      entities := entities + documents[i].entities;
    }
    assert documents[..|documents|] == documents;
  }

  lemma MoreDocuments(documents: seq<Recorded>, i: nat)
    requires i < |documents|
    ensures forall o :: Holds(documents[..i + 1], o) <==>
      Holds(documents[..i], o) || o in (if o.Entity? then documents[i].entities else documents[i].relations)
  {
    assert documents[..i + 1] == documents[..i] + [documents[i]];
    assert documents[i] in documents[..i + 1];
  }

  /** The relationships both of whose ends are among the entities. */
  method AllRelations(documents: seq<Recorded>, keys: set<EntityKey>) returns (relations: seq<Occurrence>)
    requires forall d :: d in documents ==> Sorted(d)
    ensures forall o :: o in relations <==> Holds(documents, o) && o.Relation? && o.source in keys && o.target in keys
  {
    relations := [];
    for i := 0 to |documents|
      invariant forall o :: o in relations <==>
        Holds(documents[..i], o) && o.Relation? && o.source in keys && o.target in keys
    {
      MoreDocuments(documents, i);
      assert Sorted(documents[i]);
      var kept := Joined(documents[i].relations, keys);
      relations := relations + kept;
    }
    assert documents[..|documents|] == documents;
  }

  method Joined(relations: seq<Occurrence>, keys: set<EntityKey>) returns (kept: seq<Occurrence>)
    requires forall o :: o in relations ==> o.Relation?
    ensures forall o :: o in kept <==> o in relations && o.Relation? && o.source in keys && o.target in keys
  {
    kept := [];
    for i := 0 to |relations|
      invariant forall o :: o in kept <==> o in relations[..i] && o.Relation? && o.source in keys && o.target in keys
    {
      var o := relations[i];
      assert relations[..i + 1] == relations[..i] + [o];
      if o.source in keys && o.target in keys {
        kept := kept + [o];
      }
    }
    assert relations[..|relations|] == relations;
  }

  method Restore(documents: seq<Recorded>) returns (r: Restored)
    requires (forall d :: d in documents ==> Sorted(d)) && ConsistentRefs(Kept(documents))
    ensures Restores(Kept(documents), r)
  {
    var entities := AllEntities(documents);
    var keys := set e | e in entities && e.Entity? :: e.key;
    var relations := AllRelations(documents, keys);
    KeptAre(documents, entities, keys, relations);
    assert ConsistentRefs(Listed(entities + relations));
    var records, refs := BuildRecords(entities + relations);
    RecordsTransfer(Listed(entities + relations), Kept(documents), records);
    EvidenceTransfer(Listed(entities + relations), Kept(documents), refs);
    r := Shown(records, refs);
    ShownRestores(Kept(documents), records, refs);
  }

  lemma KeptAre(documents: seq<Recorded>, entities: seq<Occurrence>, keys: set<EntityKey>, relations: seq<Occurrence>)
    requires forall o :: o in entities <==> Holds(documents, o) && o.Entity?
    requires keys == set e | e in entities && e.Entity? :: e.key
    requires forall o :: o in relations <==> Holds(documents, o) && o.Relation? && o.source in keys && o.target in keys
    ensures forall o :: Listed(entities + relations)(o) == Kept(documents)(o)
  {
    forall key ensures key in keys <==> Known(documents, key) {
    }
  }

  lemma ShownRestores(occurs: Occurrence -> bool, records: map<Owner, Record>, refs: map<RefId, Ref>)
    requires RecordsOf(occurs, records) && EvidenceOf(occurs, refs)
    ensures Restores(occurs, Shown(records, refs))
  {
    var r := Shown(records, refs);
    forall w | w in r.nodes ensures NodeShows(occurs, w, r.nodes[w]) {
      assert Describes(occurs, w, records[w]);
    }
    forall w | w in r.edges ensures EdgeShows(occurs, r.refs, w, r.edges[w]) {
      assert Describes(occurs, w, records[w]);
    }
  }

  /** The occurrences determine what is restored. */
  lemma RestoredUnique(occurs: Occurrence -> bool, r: Restored, s: Restored)
    requires Restores(occurs, r) && Restores(occurs, s)
    ensures r == s
  {
    EvidenceUnique(occurs, r.refs, s.refs);
    SameNodes(occurs, r.nodes, s.nodes);
    SameEdges(occurs, r.refs, r.edges, s.edges);
  }

  lemma SameNodes(occurs: Occurrence -> bool, r: map<Owner, string>, s: map<Owner, string>)
    requires NodesOf(occurs, r) && NodesOf(occurs, s)
    ensures r == s
  {
    forall w | w in r && w in s ensures r[w] == s[w] {
      SameName(occurs, w, r[w], s[w]);
    }
    assert r.Keys == s.Keys;
  }

  lemma SameName(occurs: Occurrence -> bool, w: Owner, m: string, n: string)
    requires NodeShows(occurs, w, m) && NodeShows(occurs, w, n)
    ensures m == n
  {
    var a :| Describes(occurs, w, a) && m == a.name;
    var b :| Describes(occurs, w, b) && n == b.name;
    DescribesUnique(occurs, w, a, b);
  }

  lemma SameEdges(occurs: Occurrence -> bool, refs: map<RefId, Ref>, r: map<Owner, RestoredEdge>, s: map<Owner, RestoredEdge>)
    requires EdgesOf(occurs, refs, r) && EdgesOf(occurs, refs, s)
    ensures r == s
  {
    forall w | w in r && w in s ensures r[w] == s[w] {
      SameEdge(occurs, refs, w, r[w], s[w]);
    }
    assert r.Keys == s.Keys;
  }

  lemma SameEdge(occurs: Occurrence -> bool, refs: map<RefId, Ref>, w: Owner, d: RestoredEdge, e: RestoredEdge)
    requires EdgeShows(occurs, refs, w, d) && EdgeShows(occurs, refs, w, e)
    ensures d == e
  {
    var a :| Describes(occurs, w, a) && d.confidence == a.confidence;
    var b :| Describes(occurs, w, b) && e.confidence == b.confidence;
    DescribesUnique(occurs, w, a, b);
  }

  // ---- Restoring what was extracted ----

  /** The record of the document at `p`. */
  ghost predicate RecordedAt(x: Extractor, lib: Library, p: Path, d: Recorded) {
    && (forall o :: o in d.entities <==> Occurs(x, lib, o) && o.at.path == p && o.Entity?)
    && (forall o :: o in d.relations <==> Occurs(x, lib, o) && o.at.path == p && o.Relation?)
  }

  /** The records of the selected documents, in some order. */
  ghost predicate RecordedFor(x: Extractor, lib: Library, paths: seq<Path>, documents: seq<Recorded>) {
    |paths| == |documents| && forall i :: 0 <= i < |paths| ==> RecordedAt(x, lib, paths[i], documents[i])
  }

  ghost function Within(x: Extractor, lib: Library, paths: seq<Path>): Occurrence -> bool {
    o => Occurs(x, lib, o) && o.at.path in paths
  }

  lemma HeldIsWithin(x: Extractor, lib: Library, paths: seq<Path>, documents: seq<Recorded>, o: Occurrence)
    requires RecordedFor(x, lib, paths, documents)
    ensures Holds(documents, o) <==> Within(x, lib, paths)(o)
  {
    if Holds(documents, o) {
      var d :| d in documents && o in (if o.Entity? then d.entities else d.relations);
      var i :| 0 <= i < |documents| && documents[i] == d;
      assert RecordedAt(x, lib, paths[i], d);
    }
    if Within(x, lib, paths)(o) {
      var i :| 0 <= i < |paths| && paths[i] == o.at.path;
      assert RecordedAt(x, lib, paths[i], documents[i]) && documents[i] in documents;
    }
  }

  /** Restoring a selection leaves nothing out: the ends of a relationship are entities of the same document. */
  lemma NothingSkipped(x: Extractor, lib: Library, paths: seq<Path>, documents: seq<Recorded>, o: Occurrence)
    requires Lawful(x) && WellFormed(lib) && RecordedFor(x, lib, paths, documents)
    ensures Kept(documents)(o) <==> Within(x, lib, paths)(o)
  {
    HeldIsWithin(x, lib, paths, documents, o);
    if Within(x, lib, paths)(o) && o.Relation? {
      EndIsKnown(x, lib, paths, documents, o, o.source);
      EndIsKnown(x, lib, paths, documents, o, o.target);
    }
  }

  lemma EndIsKnown(x: Extractor, lib: Library, paths: seq<Path>, documents: seq<Recorded>, o: Occurrence, end: EntityKey)
    requires Lawful(x) && WellFormed(lib) && RecordedFor(x, lib, paths, documents)
    requires Within(x, lib, paths)(o) && o.Relation? && (end == o.source || end == o.target)
    ensures Known(documents, end)
  {
    var c := ChunkOf(x, lib, o);
    var found := x(c, lib[c.path].document, Docs(lib));
    assert WellPlaced(found, c);
    var e :| e in found && e.Entity? && e.key == end;
    OccursFromChunk(x, lib, c, e);
    HeldIsWithin(x, lib, paths, documents, e);
  }

  /** A restore of any selection shows the records and the evidence that the selected documents' occurrences have. */
  lemma RestoredSelection(x: Extractor, lib: Library, paths: seq<Path>, documents: seq<Recorded>, r: Restored)
    requires Lawful(x) && WellFormed(lib) && RecordedFor(x, lib, paths, documents) && Restores(Kept(documents), r)
    ensures Restores(Within(x, lib, paths), r)
  {
    forall o ensures Kept(documents)(o) == Within(x, lib, paths)(o) {
      NothingSkipped(x, lib, paths, documents, o);
    }
    RestoresTransfer(Kept(documents), Within(x, lib, paths), r);
  }

  lemma RestoresTransfer(a: Occurrence -> bool, b: Occurrence -> bool, r: Restored)
    requires Restores(a, r) && forall o :: a(o) == b(o)
    ensures Restores(b, r)
  {
    EvidenceTransfer(a, b, r.refs);
    forall w ensures HasOwner(a, w) == HasOwner(b, w) {
      SameGroupOwner(a, b, w);
    }
    forall w | w in r.nodes ensures NodeShows(b, w, r.nodes[w]) {
      var record :| Describes(a, w, record) && r.nodes[w] == record.name;
      SameGroupSameRecord(a, b, w, record);
    }
    forall w | w in r.edges ensures EdgeShows(b, r.refs, w, r.edges[w]) {
      assert EdgeShows(a, r.refs, w, r.edges[w]);
      var record :| Describes(a, w, record) && r.edges[w].confidence == record.confidence;
      SameGroupSameRecord(a, b, w, record);
    }
  }

  /** Recorded occurrences never disagree about an evidence identifier, so a restore always goes through. */
  lemma RecordedIsConsistent(x: Extractor, lib: Library, paths: seq<Path>, documents: seq<Recorded>)
    requires Lawful(x) && WellFormed(lib) && RecordedFor(x, lib, paths, documents)
    ensures (forall d :: d in documents ==> Sorted(d)) && ConsistentRefs(Kept(documents))
  {
    forall d | d in documents ensures Sorted(d) {
      var i :| 0 <= i < |documents| && documents[i] == d;
      assert RecordedAt(x, lib, paths[i], d);
    }
    forall a, b | Kept(documents)(a) && Kept(documents)(b) && RefIdOf(a) == RefIdOf(b) ensures RefOf(a) == RefOf(b) {
      HeldIsWithin(x, lib, paths, documents, a);
      HeldIsWithin(x, lib, paths, documents, b);
      LibraryRefsConsistent(x, lib, a, b);
    }
  }

  /** Both backends show the same graph: restoring every document gives what a store that mirrors the metadata shows. */
  lemma BackendsAgree(x: Extractor, lib: Library, paths: seq<Path>, documents: seq<Recorded>, r: Restored,
                      stored: map<Owner, Stored>, evidence: map<RefId, Ref>)
    requires Lawful(x) && WellFormed(lib) && RecordedFor(x, lib, paths, documents) && Restores(Kept(documents), r)
    requires Elements(paths) == lib.Keys && Mirrors(Extracted(x, lib), stored, evidence)
    ensures r == Shown(Live(stored), evidence)
  {
    RestoredSelection(x, lib, paths, documents, r);
    forall o ensures Within(x, lib, paths)(o) == Extracted(x, lib)(o) {
      assert o.at.path in lib <==> o.at.path in Elements(paths);
    }
    RestoresTransfer(Within(x, lib, paths), Extracted(x, lib), r);
    ShownRestores(Extracted(x, lib), Live(stored), evidence);
    RestoredUnique(Extracted(x, lib), r, Shown(Live(stored), evidence));
  }
}
