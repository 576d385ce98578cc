/** How Vault occurrences are written as document contributions, and the check that a read graph still maps back. */
module LegacyMapping {
  import opened Core
  import opened DocumentGraph
  import opened DocumentExtraction

  // ---- What one Vault document says ----

  const LEGACY: Id := 1
  const DOCUMENT_RULE: Id := 0

  datatype EntityOccurrence = EntityOccurrence(name: Id, shown: Id, aliases: seq<Id>, how: Id)
  datatype RelationOccurrence = RelationOccurrence(relation: Id, source: Id, target: Id, how: Id)

  /** A document by its input digest, and its occurrences; what an occurrence says of its chunk follows from the input. */
  datatype Item = Item(input: Id, entities: seq<EntityOccurrence>, relations: seq<RelationOccurrence>)
  type Inventory = map<Id, Item>

  function NodeKey(name: Id): Key {
    Key(LEGACY, name)
  }

  function EntityPlace(i: nat): Location {
    Location(2 * i + 1, None, None)
  }

  function RelationPlace(i: nat): Location {
    Location(2 * i + 2, None, None)
  }

  function EdgeOf(r: RelationOccurrence): Edge {
    Edge(r.relation, NodeKey(r.source), NodeKey(r.target))
  }

  function EntityFactAt(o: EntityOccurrence, i: nat): EntityFact {
    EntityFact(NodeKey(o.name), o.shown, o.aliases, o.how, [EntityPlace(i)])
  }

  function RelationFactAt(r: RelationOccurrence, i: nat): RelationFact {
    RelationFact(EdgeOf(r), r.how, [RelationPlace(i)])
  }

  function EntityFacts(entities: seq<EntityOccurrence>): seq<EntityFact> {
    seq(|entities|, i requires 0 <= i < |entities| => EntityFactAt(entities[i], i))
  }

  function RelationFacts(relations: seq<RelationOccurrence>): seq<RelationFact> {
    seq(|relations|, i requires 0 <= i < |relations| => RelationFactAt(relations[i], i))
  }

  function DocumentFact(d: Id, item: Item): EntityFact {
    EntityFact(Key(DOCUMENT, d), item.input, [], DOCUMENT_RULE, [WHOLE_DOCUMENT])
  }

  function Places(item: Item): set<Location> {
    {WHOLE_DOCUMENT} + (set i | 0 <= i < |item.entities| :: EntityPlace(i))
    + set i | 0 <= i < |item.relations| :: RelationPlace(i)
  }

  /** A relationship is kept when both its ends are entities of the same document; extraction always gives such ones. */
  ghost predicate WellFormedItem(item: Item) {
    forall r :: r in item.relations ==> HasEntity(item, r.source) && HasEntity(item, r.target)
  }

  ghost predicate HasEntity(item: Item, name: Id) {
    exists o :: o in item.entities && o.name == name
  }

  /** Source revision and title follow from the input. */
  function RowOf(d: Id, item: Item, digest: Item -> Id): Row {
    Row(d, item.input, item.input, digest(item), Some(item.input), [DocumentFact(d, item)] + EntityFacts(item.entities),
        RelationFacts(item.relations), map l | l in Places(item) :: Excerpt(None, false), {})
  }

  function RowsFor(inventory: Inventory, digest: Item -> Id): Rows {
    map d | d in inventory :: RowOf(d, inventory[d], digest)
  }

  ghost predicate WellFormedInventory(inventory: Inventory) {
    forall d :: d in inventory ==> WellFormedItem(inventory[d])
  }

  lemma EntityFactsHave(entities: seq<EntityOccurrence>, f: EntityFact)
    ensures f in EntityFacts(entities) <==> exists i :: 0 <= i < |entities| && f == EntityFactAt(entities[i], i)
  {
    var facts := EntityFacts(entities);
    if f in facts {
      var i :| 0 <= i < |facts| && facts[i] == f;
      assert f == EntityFactAt(entities[i], i);
    }
    if i :| 0 <= i < |entities| && f == EntityFactAt(entities[i], i) {
      assert facts[i] == f;
    }
  }

  lemma RelationFactsHave(relations: seq<RelationOccurrence>, f: RelationFact)
    ensures f in RelationFacts(relations) <==> exists i :: 0 <= i < |relations| && f == RelationFactAt(relations[i], i)
  {
    var facts := RelationFacts(relations);
    if f in facts {
      var i :| 0 <= i < |facts| && facts[i] == f;
      assert f == RelationFactAt(relations[i], i);
    }
    if i :| 0 <= i < |relations| && f == RelationFactAt(relations[i], i) {
      assert facts[i] == f;
    }
  }

  /** A fact of the row is the document's own or stands for one entity occurrence. */
  lemma RowFactsHave(d: Id, item: Item, digest: Item -> Id, f: EntityFact)
    ensures f in RowOf(d, item, digest).entities <==>
      f == DocumentFact(d, item) || exists i :: 0 <= i < |item.entities| && f == EntityFactAt(item.entities[i], i)
  {
    EntityFactsHave(item.entities, f);
  }

  lemma RowHasFact(d: Id, item: Item, digest: Item -> Id, name: Id)
    requires HasEntity(item, name)
    ensures HasFact(RowOf(d, item, digest), NodeKey(name))
  {
    var o :| o in item.entities && o.name == name;
    var i :| 0 <= i < |item.entities| && item.entities[i] == o;
    RowFactsHave(d, item, digest, EntityFactAt(o, i));
  }

  /** The contribution passes the store's validation. */
  lemma RowIsValid(d: Id, item: Item, digest: Item -> Id)
    requires WellFormedItem(item)
    ensures ValidRow(RowOf(d, item, digest)) && RowOf(d, item, digest).document == d
  {
    var row := RowOf(d, item, digest);
    RowFactsHave(d, item, digest, DocumentFact(d, item));
    forall f | f in row.relations
      ensures HasFact(row, f.edge.source) && HasFact(row, f.edge.target) && forall l :: l in f.locations ==> l in row.excerpts
    {
      RelationFactsHave(item.relations, f);
      var i :| 0 <= i < |item.relations| && f == RelationFactAt(item.relations[i], i);
      assert item.relations[i] in item.relations;
      RowHasFact(d, item, digest, item.relations[i].source);
      RowHasFact(d, item, digest, item.relations[i].target);
    }
    forall f | f in row.entities ensures forall l :: l in f.locations ==> l in row.excerpts {
      RowFactsHave(d, item, digest, f);
    }
  }

  // ---- The mapping check ----

  function ItemKeys(d: Id, item: Item): set<Key> {
    {Key(DOCUMENT, d)} + set i | 0 <= i < |item.entities| :: NodeKey(item.entities[i].name)
  }

  function KnownKeys(inventory: Inventory): set<Key> {
    set d, n | d in inventory && n in ItemKeys(d, inventory[d]) :: n
  }

  function ExpectedEdges(inventory: Inventory): set<Edge> {
    set d, i | d in inventory && 0 <= i < |inventory[d].relations| :: EdgeOf(inventory[d].relations[i])
  }

  /** The document, place, rule and owner of every occurrence, as the manifest has them. */
  datatype Located = Located(document: Id, structural: Id, rule: Id, owner: Owner)

  function LocatedOf(d: Id, item: Item): set<Located> {
    {Located(d, WHOLE_DOCUMENT.structural, DOCUMENT_RULE, NodeOwner(Key(DOCUMENT, d)))}
    + (set i | 0 <= i < |item.entities| :: Located(d, EntityPlace(i).structural, item.entities[i].how,
                                                   NodeOwner(NodeKey(item.entities[i].name))))
    + (set i | 0 <= i < |item.relations| :: Located(d, RelationPlace(i).structural, item.relations[i].how,
                                                    EdgeOwner(EdgeOf(item.relations[i]))))
  }

  function KnownLocations(inventory: Inventory): set<Located> {
    set d, l | d in inventory && l in LocatedOf(d, inventory[d]) :: l
  }

  function ObservedLocations(evidence: set<Evidence>): set<Located> {
    set e | e in evidence :: Located(e.id.document, e.id.structural, e.id.rule, e.id.owner)
  }

  /** The nodes, edges and evidence of a read are exactly those of the recorded occurrences. */
  predicate Mapped(g: Graph, records: Inventory) {
    && g.nodes.Keys == KnownKeys(records)
    && g.edges == ExpectedEdges(records)
    && ObservedLocations(g.evidence) == KnownLocations(records)
  }

  /** A contribution has an excerpt for exactly the places of its facts. */
  lemma ExcerptsExactly(d: Id, item: Item, digest: Item -> Id, l: Location)
    ensures var row := RowOf(d, item, digest);
      l in row.excerpts <==>
        || (exists f :: f in row.entities && l in f.locations) || (exists f :: f in row.relations && l in f.locations)
  {
    var row := RowOf(d, item, digest);
    if f :| f in row.entities && l in f.locations {
      RowFactsHave(d, item, digest, f);
    }
    if f :| f in row.relations && l in f.locations {
      RelationFactsHave(item.relations, f);
    }
    if l == WHOLE_DOCUMENT {
      RowFactsHave(d, item, digest, DocumentFact(d, item));
      assert l in DocumentFact(d, item).locations;
    }
    forall i: nat | i < |item.entities| && l == EntityPlace(i) ensures exists f :: f in row.entities && l in f.locations {
      RowFactsHave(d, item, digest, EntityFactAt(item.entities[i], i));
      assert l in EntityFactAt(item.entities[i], i).locations;
    }
    forall i: nat | i < |item.relations| && l == RelationPlace(i) ensures exists f :: f in row.relations && l in f.locations {
      RelationFactsHave(item.relations, RelationFactAt(item.relations[i], i));
      assert l in RelationFactAt(item.relations[i], i).locations;
    }
  }

  // ---- What the check accepts, on the recorded fields ----

  /** No two occurrences of a document have the same place, and none has that of the document. */
  lemma PlacesApart(i: nat, j: nat)
    ensures EntityPlace(i) != RelationPlace(j) && WHOLE_DOCUMENT.structural !in {EntityPlace(i).structural, RelationPlace(j).structural}
    ensures EntityPlace(i).structural != RelationPlace(j).structural
    ensures EntityPlace(i).structural == EntityPlace(j).structural ==> i == j
    ensures RelationPlace(i).structural == RelationPlace(j).structural ==> i == j
  {
  }

  ghost predicate IsNode(records: Inventory, n: Key) {
    (n.kind == DOCUMENT && n.name in records) || (n.kind == LEGACY && exists d: Id, i: nat :: IsEntityAt(records, d, i, n.name))
  }

  ghost predicate IsEntityAt(records: Inventory, d: Id, i: nat, name: Id) {
    d in records && i < |records[d].entities| && records[d].entities[i].name == name
  }

  ghost predicate IsRelationAt(records: Inventory, d: Id, i: nat, e: Edge) {
    && d in records && i < |records[d].relations|
    && e.relation == records[d].relations[i].relation
    && e.source == Key(LEGACY, records[d].relations[i].source) && e.target == Key(LEGACY, records[d].relations[i].target)
  }

  /** Evidence of a document lies at the document, or at one of its occurrences with its method. */
  ghost predicate IsLocated(records: Inventory, l: Located) {
    && l.document in records
    && (l == Located(l.document, WHOLE_DOCUMENT.structural, DOCUMENT_RULE, NodeOwner(Key(DOCUMENT, l.document)))
        || (exists i: nat :: EntityLies(records[l.document], l, i)) || exists i: nat :: RelationLies(records[l.document], l, i))
  }

  ghost predicate EntityLies(item: Item, l: Located, i: nat) {
    && i < |item.entities| && l.structural == EntityPlace(i).structural && l.rule == item.entities[i].how
    && l.owner == NodeOwner(Key(LEGACY, item.entities[i].name))
  }

  ghost predicate RelationLies(item: Item, l: Located, i: nat) {
    && i < |item.relations| && l.structural == RelationPlace(i).structural && l.rule == item.relations[i].how
    && l.owner == EdgeOwner(EdgeOf(item.relations[i]))
  }

  ghost predicate LiesAt(e: Evidence, l: Located) {
    e.id.document == l.document && e.id.structural == l.structural && e.id.rule == l.rule && e.id.owner == l.owner
  }

  /** The check accepts a graph exactly when nodes, edges and the places of evidence are those of the recorded occurrences. */
  lemma MappedMeans(g: Graph, records: Inventory)
    ensures Mapped(g, records) <==>
      && (forall n :: n in g.nodes <==> IsNode(records, n))
      && (forall e :: e in g.edges <==> exists d: Id, i: nat :: IsRelationAt(records, d, i, e))
      && (forall l :: IsLocated(records, l) <==> exists e :: e in g.evidence && LiesAt(e, l))
  {
    KeysMean(records);
    EdgesMean(records);
    LocationsMean(records);
    ObservedMean(g.evidence);
  }

  lemma KeysMean(records: Inventory)
    ensures forall n :: n in KnownKeys(records) <==> IsNode(records, n)
  {
    forall n | IsNode(records, n) ensures n in KnownKeys(records) {
      if n.kind == DOCUMENT && n.name in records {
        assert n in ItemKeys(n.name, records[n.name]);
      } else {
        var d: Id, i: nat :| IsEntityAt(records, d, i, n.name);
        assert n == NodeKey(records[d].entities[i].name) && n in ItemKeys(d, records[d]);
      }
    }
    forall n | n in KnownKeys(records) ensures IsNode(records, n) {
      var d :| d in records && n in ItemKeys(d, records[d]);
      if n != Key(DOCUMENT, d) {
        var i: nat :| 0 <= i < |records[d].entities| && n == NodeKey(records[d].entities[i].name);
        assert IsEntityAt(records, d, i, n.name);
      }
    }
  }

  lemma EdgesMean(records: Inventory)
    ensures forall e :: e in ExpectedEdges(records) <==> exists d: Id, i: nat :: IsRelationAt(records, d, i, e)
  {
    forall e, d: Id, i: nat | IsRelationAt(records, d, i, e) ensures e in ExpectedEdges(records) {
      assert e == EdgeOf(records[d].relations[i]);
    }
    forall e | e in ExpectedEdges(records) ensures exists d: Id, i: nat :: IsRelationAt(records, d, i, e) {
      var d: Id, i: nat :| d in records && 0 <= i < |records[d].relations| && e == EdgeOf(records[d].relations[i]);
      assert IsRelationAt(records, d, i, e);
    }
  }

  lemma LocationsMean(records: Inventory)
    ensures forall l :: l in KnownLocations(records) <==> IsLocated(records, l)
  {
    forall l ensures l in KnownLocations(records) <==> IsLocated(records, l) {
      if l.document in records {
        LocatedMeans(l.document, records[l.document], l);
      }
      if l in KnownLocations(records) {
        var d :| d in records && l in LocatedOf(d, records[d]);
        LocatedMeans(d, records[d], l);
      }
    }
  }

  lemma LocatedMeans(d: Id, item: Item, l: Located)
    ensures l in LocatedOf(d, item) <==>
      && l.document == d
      && (l == Located(d, WHOLE_DOCUMENT.structural, DOCUMENT_RULE, NodeOwner(Key(DOCUMENT, d)))
          || (exists i: nat :: EntityLies(item, l, i)) || exists i: nat :: RelationLies(item, l, i))
  {
    if l.document == d {
      if i: nat :| EntityLies(item, l, i) {
        assert l == Located(d, EntityPlace(i).structural, item.entities[i].how, NodeOwner(NodeKey(item.entities[i].name)));
      }
      if i: nat :| RelationLies(item, l, i) {
        assert l == Located(d, RelationPlace(i).structural, item.relations[i].how, EdgeOwner(EdgeOf(item.relations[i])));
      }
    }
    if l in LocatedOf(d, item) && l != Located(d, WHOLE_DOCUMENT.structural, DOCUMENT_RULE, NodeOwner(Key(DOCUMENT, d))) {
      if i: nat :| 0 <= i < |item.entities| && l == Located(d, EntityPlace(i).structural, item.entities[i].how,
                                                       NodeOwner(NodeKey(item.entities[i].name))) {
        assert EntityLies(item, l, i);
      } else {
        var i: nat :| 0 <= i < |item.relations| && l == Located(d, RelationPlace(i).structural, item.relations[i].how,
                                                           EdgeOwner(EdgeOf(item.relations[i])));
        assert RelationLies(item, l, i);
      }
    }
  }

  lemma ObservedMean(evidence: set<Evidence>)
    ensures forall l :: l in ObservedLocations(evidence) <==> exists e :: e in evidence && LiesAt(e, l)
  {
    forall l | l in ObservedLocations(evidence) ensures exists e :: e in evidence && LiesAt(e, l) {
      var e :| e in evidence && l == Located(e.id.document, e.id.structural, e.id.rule, e.id.owner);
      assert LiesAt(e, l);
    }
    forall l, e | e in evidence && LiesAt(e, l) ensures l in ObservedLocations(evidence) {
      assert l == Located(e.id.document, e.id.structural, e.id.rule, e.id.owner);
    }
  }

  lemma RowNodesAre(d: Id, item: Item, digest: Item -> Id)
    requires WellFormedItem(item)
    ensures RowNodes(RowOf(d, item, digest)) == ItemKeys(d, item)
  {
    var row := RowOf(d, item, digest);
    var expected := ItemKeys(d, item);
    RowIsValid(d, item, digest);
    forall n | n in RowNodes(row) ensures n in expected {
      EndpointHasFact(row, n);
      var f :| f in row.entities && f.key == n;
      RowFactsHave(d, item, digest, f);
    }
    forall n | n in expected ensures n in RowNodes(row) {
      if n == Key(DOCUMENT, d) {
        RowFactsHave(d, item, digest, DocumentFact(d, item));
      } else {
        var i :| 0 <= i < |item.entities| && n == NodeKey(item.entities[i].name);
        RowFactsHave(d, item, digest, EntityFactAt(item.entities[i], i));
      }
    }
  }

  lemma RowEdgesAre(d: Id, item: Item, digest: Item -> Id)
    ensures RowEdges(RowOf(d, item, digest)) == set i | 0 <= i < |item.relations| :: EdgeOf(item.relations[i])
  {
    var row := RowOf(d, item, digest);
    forall e | e in RowEdges(row) ensures exists i :: 0 <= i < |item.relations| && e == EdgeOf(item.relations[i]) {
      var f :| f in row.relations && f.edge == e;
      RelationFactsHave(item.relations, f);
    }
    forall i | 0 <= i < |item.relations| ensures EdgeOf(item.relations[i]) in RowEdges(row) {
      RelationFactsHave(item.relations, RelationFactAt(item.relations[i], i));
    }
  }

  lemma RowLocationsAre(d: Id, item: Item, digest: Item -> Id)
    ensures ObservedLocations(RowEvidence(RowOf(d, item, digest))) == LocatedOf(d, item)
  {
    var row := RowOf(d, item, digest);
    forall l | l in ObservedLocations(RowEvidence(row)) ensures l in LocatedOf(d, item) {
      var e :| e in RowEvidence(row) && l == Located(e.id.document, e.id.structural, e.id.rule, e.id.owner);
      EvidenceIsLocated(d, item, digest, e);
    }
    forall l | l in LocatedOf(d, item) ensures l in ObservedLocations(RowEvidence(row)) {
      LocatedHasEvidence(d, item, digest, l);
    }
  }

  lemma EvidenceIsLocated(d: Id, item: Item, digest: Item -> Id, e: Evidence)
    requires e in RowEvidence(RowOf(d, item, digest))
    ensures Located(e.id.document, e.id.structural, e.id.rule, e.id.owner) in LocatedOf(d, item)
  {
    var row := RowOf(d, item, digest);
    if f, l :| f in row.entities && l in f.locations && e == EvidenceAt(row, NodeOwner(f.key), f.rule, l) {
      RowFactsHave(d, item, digest, f);
    } else {
      var f, l :| f in row.relations && l in f.locations && e == EvidenceAt(row, EdgeOwner(f.edge), f.rule, l);
      RelationFactsHave(item.relations, f);
    }
  }

  lemma LocatedHasEvidence(d: Id, item: Item, digest: Item -> Id, l: Located)
    requires l in LocatedOf(d, item)
    ensures l in ObservedLocations(RowEvidence(RowOf(d, item, digest)))
  {
    var row := RowOf(d, item, digest);
    if i :| 0 <= i < |item.relations| && l == Located(d, RelationPlace(i).structural, item.relations[i].how,
                                                      EdgeOwner(EdgeOf(item.relations[i]))) {
      var f := RelationFactAt(item.relations[i], i);
      RelationFactsHave(item.relations, f);
      assert RelationPlace(i) in f.locations;
      assert EvidenceAt(row, EdgeOwner(f.edge), f.rule, RelationPlace(i)) in RowEvidence(row);
    } else if i :| 0 <= i < |item.entities| && l == Located(d, EntityPlace(i).structural, item.entities[i].how,
                                                            NodeOwner(NodeKey(item.entities[i].name))) {
      var f := EntityFactAt(item.entities[i], i);
      RowFactsHave(d, item, digest, f);
      assert EntityPlace(i) in f.locations;
      assert EvidenceAt(row, NodeOwner(f.key), f.rule, EntityPlace(i)) in RowEvidence(row);
    } else {
      var f := DocumentFact(d, item);
      RowFactsHave(d, item, digest, f);
      assert WHOLE_DOCUMENT in f.locations;
      assert EvidenceAt(row, NodeOwner(f.key), f.rule, WHOLE_DOCUMENT) in RowEvidence(row);
    }
  }

  /** The graph recomputed from an inventory maps back to that inventory. */
  lemma RecomputedIsMapped(inventory: Inventory, digest: Item -> Id)
    requires WellFormedInventory(inventory)
    ensures Mapped(Recomputed(RowsFor(inventory, digest)), inventory)
  {
    var rows := RowsFor(inventory, digest);
    NodesAreKnown(inventory, digest);
    EdgesAreExpected(inventory, digest);
    EvidenceIsKnown(inventory, digest);
    assert Recomputed(rows).nodes.Keys == Nodes(rows);
  }

  lemma NodesAreKnown(inventory: Inventory, digest: Item -> Id)
    requires WellFormedInventory(inventory)
    ensures Nodes(RowsFor(inventory, digest)) == KnownKeys(inventory)
  {
    var rows := RowsFor(inventory, digest);
    forall d | d in inventory ensures RowNodes(rows[d]) == ItemKeys(d, inventory[d]) {
      RowNodesAre(d, inventory[d], digest);
    }
    forall n | n in KnownKeys(inventory) ensures n in Nodes(rows) {
      var d :| d in inventory && n in ItemKeys(d, inventory[d]);
      assert n in RowNodes(rows[d]);
    }
    forall n | n in Nodes(rows) ensures n in KnownKeys(inventory) {
      var d :| d in rows && n in RowNodes(rows[d]);
      assert n in ItemKeys(d, inventory[d]);
    }
  }

  lemma EdgesAreExpected(inventory: Inventory, digest: Item -> Id)
    ensures Edges(RowsFor(inventory, digest)) == ExpectedEdges(inventory)
  {
    var rows := RowsFor(inventory, digest);
    forall d | d in inventory
      ensures RowEdges(rows[d]) == set i | 0 <= i < |inventory[d].relations| :: EdgeOf(inventory[d].relations[i])
    {
      RowEdgesAre(d, inventory[d], digest);
    }
    forall e | e in ExpectedEdges(inventory) ensures e in Edges(rows) {
      var d, i :| d in inventory && 0 <= i < |inventory[d].relations| && e == EdgeOf(inventory[d].relations[i]);
      assert e in RowEdges(rows[d]);
    }
  }

  lemma EvidenceIsKnown(inventory: Inventory, digest: Item -> Id)
    ensures ObservedLocations(AllEvidence(RowsFor(inventory, digest))) == KnownLocations(inventory)
  {
    var rows := RowsFor(inventory, digest);
    forall d | d in inventory ensures ObservedLocations(RowEvidence(rows[d])) == LocatedOf(d, inventory[d]) {
      RowLocationsAre(d, inventory[d], digest);
    }
    forall l | l in ObservedLocations(AllEvidence(rows)) ensures l in KnownLocations(inventory) {
      var e :| e in AllEvidence(rows) && l == Located(e.id.document, e.id.structural, e.id.rule, e.id.owner);
      var d :| d in rows && e in RowEvidence(rows[d]);
      assert l in ObservedLocations(RowEvidence(rows[d]));
    }
    forall l | l in KnownLocations(inventory) ensures l in ObservedLocations(AllEvidence(rows)) {
      var d :| d in inventory && l in LocatedOf(d, inventory[d]);
      assert l in ObservedLocations(RowEvidence(rows[d]));
      var e :| e in RowEvidence(rows[d]) && l == Located(e.id.document, e.id.structural, e.id.rule, e.id.owner);
      assert e in AllEvidence(rows);
    }
  }
}
