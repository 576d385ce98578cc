/** Histories of metadata runs and graph runs: when a graph run ends, the graph shows the metadata. */
module GraphRuns {
  import opened Core
  import opened Text
  import opened SourcePaths
  import opened LinkResolution
  import opened Extraction
  import opened GraphIndex
  import opened GraphStores

  // ---- Metadata revisions ----

  /** The pages, the revision of the metadata run that last wrote each, and the revision the next run takes. */
  datatype Metadata = Metadata(lib: Library, stamps: map<Path, Id>, next: Id)
  {
    ghost predicate Valid() {
      WellFormed(lib) && stamps.Keys == lib.Keys && forall p :: p in stamps ==> stamps[p] < next
    }
  }

  /** What one metadata run wrote or removed, and its revision. */
  datatype Changes = Changes(revision: Id, paths: set<Path>)

  function Written(m: Metadata, changed: Library, deleted: set<Path>): Metadata {
    Metadata((m.lib - deleted) + changed, (m.stamps - deleted) + (map p | p in changed :: m.next), m.next + 1)
  }

  /** `m` came about from `shown` by metadata runs: a page stamped before `shown` ended is still as it was. */
  ghost predicate Since(shown: Metadata, m: Metadata) {
    && shown.next <= m.next
    && forall p :: p in m.lib && p in m.stamps && m.stamps[p] < shown.next ==> p in shown.lib && shown.lib[p] == m.lib[p]
  }

  /** `changes` names every page that its run wrote and that no later run wrote again. */
  ghost predicate RunOf(changes: Changes, m: Metadata) {
    && changes.revision < m.next
    && forall p :: p in m.stamps && m.stamps[p] == changes.revision ==> p in changes.paths
  }

  lemma SinceItself(m: Metadata)
    ensures Since(m, m)
  {
  }

  lemma WrittenAt(m: Metadata, changed: Library, deleted: set<Path>, p: Path)
    requires m.stamps.Keys == m.lib.Keys
    ensures var after := Written(m, changed, deleted);
      && (p in after.lib <==> p in changed || (p in m.lib && p !in deleted))
      && (p in after.stamps <==> p in after.lib)
      && (p in after.lib ==> after.lib[p] == if p in changed then changed[p] else m.lib[p])
      && (p in after.stamps ==> after.stamps[p] == if p in changed then m.next else m.stamps[p])
  {
  }

  /** A further metadata run keeps every relation the guard rests on. */
  lemma WriteKeeps(shown: Metadata, m: Metadata, changed: Library, deleted: set<Path>, earlier: Changes)
    requires m.Valid() && Since(shown, m) && WellFormed(Written(m, changed, deleted).lib)
    ensures Written(m, changed, deleted).Valid()
    ensures Since(shown, Written(m, changed, deleted))
    ensures RunOf(Changes(m.next, changed.Keys + deleted), Written(m, changed, deleted))
    ensures RunOf(earlier, m) ==> RunOf(earlier, Written(m, changed, deleted))
  {
    StampsFollow(m, changed, deleted);
    StillSince(shown, m, changed, deleted);
    RunsFollow(m, changed, deleted, earlier);
  }

  lemma RunsFollow(m: Metadata, changed: Library, deleted: set<Path>, earlier: Changes)
    requires m.stamps.Keys == m.lib.Keys && forall p :: p in m.stamps ==> m.stamps[p] < m.next
    ensures RunOf(Changes(m.next, changed.Keys + deleted), Written(m, changed, deleted))
    ensures RunOf(earlier, m) ==> RunOf(earlier, Written(m, changed, deleted))
  {
    StampsFollow(m, changed, deleted);
  }

  lemma StillSince(shown: Metadata, m: Metadata, changed: Library, deleted: set<Path>)
    requires m.stamps.Keys == m.lib.Keys && Since(shown, m)
    ensures Since(shown, Written(m, changed, deleted))
  {
    var after := Written(m, changed, deleted);
    forall p | p in after.lib && p in after.stamps && after.stamps[p] < shown.next
      ensures p in shown.lib && shown.lib[p] == after.lib[p]
    {
      WrittenAt(m, changed, deleted, p);
    }
  }

  lemma StampsFollow(m: Metadata, changed: Library, deleted: set<Path>)
    requires m.stamps.Keys == m.lib.Keys
    ensures var after := Written(m, changed, deleted);
      && after.stamps.Keys == after.lib.Keys
      && forall p :: p in after.stamps ==> after.stamps[p] == if p in changed then m.next else m.stamps[p]
  {
    var after := Written(m, changed, deleted);
    forall p ensures (p in after.stamps <==> p in after.lib)
      && (p in after.stamps ==> after.stamps[p] == if p in changed then m.next else m.stamps[p])
    {
      WrittenAt(m, changed, deleted, p);
    }
  }

  /** The check before a document-level run. */
  predicate FollowsMetadata(last: Lineage, schema: Id, spec: Id, graphPaths: set<Path>, stamps: map<Path, Id>,
                            changes: Changes)
  {
    && last.schema == schema && last.spec == spec
    && stamps.Values - {changes.revision} <= last.metadata
    && (graphPaths - stamps.Keys) + (stamps.Keys - graphPaths) <= changes.paths
  }

  /** The check is sound: the graph shows the metadata as it was, except at this run's paths. */
  lemma GuardIsSound(shown: Metadata, m: Metadata, last: Lineage, changes: Changes)
    requires shown.Valid() && m.Valid() && Since(shown, m) && RunOf(changes, m)
    requires last.metadata == shown.stamps.Values
    requires FollowsMetadata(last, last.schema, last.spec, shown.lib.Keys, m.stamps, changes)
    ensures SameOutside(shown.lib, m.lib, changes.paths)
  {
    forall p | p !in changes.paths ensures (p in shown.lib <==> p in m.lib) && (p in m.lib ==> shown.lib[p] == m.lib[p]) {
      if p in m.lib {
        assert m.stamps[p] in m.stamps.Values && m.stamps[p] != changes.revision;
        assert m.stamps[p] in shown.stamps.Values;
        var q :| q in shown.stamps && shown.stamps[q] == m.stamps[p];
      } else {
        assert p !in shown.lib - m.lib.Keys;
      }
    }
  }

  /** With the same revisions on record, metadata can only have lost pages; if it lost none it is the same. */
  lemma SameRevisions(shown: Metadata, m: Metadata)
    requires shown.Valid() && m.Valid() && Since(shown, m) && m.stamps.Values == shown.stamps.Values
    ensures forall p :: p in m.lib ==> p in shown.lib && shown.lib[p] == m.lib[p]
    ensures shown.lib.Keys <= m.lib.Keys ==> shown.lib == m.lib
  {
    forall p | p in m.lib ensures p in shown.lib && shown.lib[p] == m.lib[p] {
      assert m.stamps[p] in m.stamps.Values;
      var q :| q in shown.stamps && shown.stamps[q] == m.stamps[p];
    }
  }

  // ---- The paths both kinds of run handle ----

  /** Documents have paths the cleanup accepts, so no row is ever left lying about. */
  lemma TrackedIsTidy(x: Extractor, lib: Library, stored: map<Owner, Stored>, evidence: map<RefId, Ref>)
    requires Tracks(Extracted(x, lib), stored, evidence) && WellFormed(lib)
    ensures Tidy(stored, evidence)
  {
    forall id | id in evidence ensures id.owner in stored && Cleanable(evidence[id].path) {
      var o := RowOccurs(Extracted(x, lib), evidence, id);
      assert Occurs(x, lib, o) && IsSourcePath(o.at.path);
      assert HasOwner(Extracted(x, lib), id.owner);
      assert id.owner in LiveOwners(stored);
      SourcePathIsCleanable(o.at.path);
    }
  }

  lemma SourcePathIsCleanable(p: Path)
    requires IsSourcePath(p)
    ensures Cleanable(p)
  {
    forall i | 0 <= i < |p| ensures '\\' !in p[i] && p[i] != ".." {
      assert p[i] in p;
    }
  }

  /** So it stays, whatever a document-level run was given. */
  lemma ReconciledIsTidy(v: View, stored: map<Owner, Stored>, rb: Rebuild, run: Lineage)
    requires WellFormed(v.lib) && Tidy(stored, v.evidence) && RebuildOf(v.Used(), v.Rebuilt(), stored, v.evidence, rb)
    ensures Tidy(RecordsAfter(stored, rb, run), EvidenceAfter(v.evidence, rb))
  {
    forall id | id in rb.upserts ensures id.owner in rb.records && Cleanable(rb.upserts[id].path) {
      KeptIsTidy(v, rb.records, rb.kept, id);
    }
    StaysTidy(stored, v.evidence, rb, run);
  }

  lemma KeptIsTidy(v: View, records: map<Owner, Record>, kept: map<RefId, Ref>, id: RefId)
    requires WellFormed(v.lib) && RecordsOf(v.Used(), records) && EvidenceOf(v.Used(), kept) && id in kept
    ensures id.owner in records && Cleanable(kept[id].path)
  {
    var o := RowOccurs(v.Used(), kept, id);
    assert HasOwner(v.Used(), id.owner);
    SourcePathIsCleanable(o.at.path);
  }

  lemma StaysTidy(stored: map<Owner, Stored>, evidence: map<RefId, Ref>, rb: Rebuild, run: Lineage)
    requires Tidy(stored, evidence)
    requires forall id :: id in rb.upserts ==> id.owner in rb.records && Cleanable(rb.upserts[id].path)
    ensures Tidy(RecordsAfter(stored, rb, run), EvidenceAfter(evidence, rb))
  {
  }

  function PathsOf(evidence: map<RefId, Ref>): set<Path> {
    set id | id in evidence :: evidence[id].path
  }

  /** The evidence of a full extraction lies at exactly the documents of the metadata. */
  lemma EvidencePaths(x: Extractor, lib: Library, evidence: map<RefId, Ref>)
    requires Lawful(x) && WellFormed(lib) && EvidenceOf(Extracted(x, lib), evidence)
    ensures PathsOf(evidence) == lib.Keys
  {
    forall p | p in lib ensures exists id :: id in evidence && evidence[id].path == p {
      var o := PageOccurs(x, lib, p);
      assert Extracted(x, lib)(o);
      assert RefIdOf(o) in evidence && evidence[RefIdOf(o)].path == p;
    }
    forall id | id in evidence ensures evidence[id].path in lib {
      var o := RowOccurs(Extracted(x, lib), evidence, id);
      assert Occurs(x, lib, o);
    }
  }

  // ---- One graph run ----

  /**
   * Rebuild what the changes touch and apply it. From a graph that follows the metadata before, it leaves one that follows
   * the metadata now; what was behind and is not rebuilt stays behind.
   */
  method ReconcileDocuments(store: GraphStore, x: Extractor, source: ScopeSource, touched: set<Path>, run: Lineage,
                            ghost before: Library, ghost lib: Library)
    requires Lawful(x) && WellFormed(before) && Shows(source, lib) && Tidy(store.records, store.evidence)
    modifies store
    ensures Tidy(store.records, store.evidence) && store.revision.Some? && store.revision.value.lineage == run
    ensures var v := View(x, old(store.records.Keys), old(store.evidence), lib, touched);
      old(store.State().Follows(x, before)) && SameOutside(before, lib, touched) && NamesFindable(v) ==>
        && store.State().Follows(x, lib)
        && store.State().Behind(x, lib) == set w | w in old(store.State().Behind(x, before)) && !v.Rebuilds(w)
  {
    ghost var v := View(x, store.records.Keys, store.evidence, lib, touched);
    ghost var was := store.State();
    var rb := RebuildScope(x, store.records, store.evidence, source, touched, v);
    ReconciledIsTidy(v, store.records, rb, run);
    TombstonesStored(v.Used(), v.Rebuilt(), store.records, store.evidence, rb);
    store.ApplyOwnerReconcilePlan(rb, run);
    if was.Follows(x, before) && SameOutside(before, lib, touched) && NamesFindable(v) {
      ReconciledFollows(v, before, was, rb, run);
    }
  }

  lemma ReconciledFollows(v: View, before: Library, was: Graph, rb: Rebuild, run: Lineage)
    requires Lawful(v.x) && WellFormed(before) && WellFormed(v.lib) && SameOutside(before, v.lib, v.touched) && NamesFindable(v)
    requires was.Follows(v.x, before) && v.known == was.records.Keys && v.evidence == was.evidence
    requires RebuildOf(v.Used(), v.Rebuilt(), was.records, was.evidence, rb)
    ensures var now := Graph(RecordsAfter(was.records, rb, run), EvidenceAfter(was.evidence, rb),
                             Some(Revision(run, rb.entityCount, rb.relationCount)));
      now.Follows(v.x, v.lib) && now.Behind(v.x, v.lib) == set w | w in was.Behind(v.x, before) && !v.Rebuilds(w)
  {
    RunSuffices(v, before, was.records);
    RebuiltTracks(Extracted(v.x, before), Extracted(v.x, v.lib), v.Used(), v.Rebuilt(), was.records, was.evidence, rb, run);
    NotRebuilt(v, was.Behind(v.x, before));
  }

  lemma NotRebuilt(v: View, owners: set<Owner>)
    ensures (set w | w in owners && !v.Rebuilt()(w)) == set w | w in owners && !v.Rebuilds(w)
  {
  }

  lemma RunSuffices(v: View, before: Library, stored: map<Owner, Stored>)
    requires Lawful(v.x) && WellFormed(before) && WellFormed(v.lib) && SameOutside(before, v.lib, v.touched) && NamesFindable(v)
    requires Tracks(Extracted(v.x, before), stored, v.evidence) && v.known == stored.Keys
    ensures Replaces(Extracted(v.x, before), Extracted(v.x, v.lib), v.Used(), v.Rebuilt())
  {
    ShownFollows(v, before, stored);
    SelectionSuffices(v, before);
  }

  /** The totals of the plan are those of the records it leaves. */
  lemma RebuiltTracks(was: Occurrence -> bool, now: Occurrence -> bool, used: Occurrence -> bool, rebuilt: Owner -> bool,
                      stored: map<Owner, Stored>, evidence: map<RefId, Ref>, rb: Rebuild, run: Lineage)
    requires Replaces(was, now, used, rebuilt) && RebuildOf(used, rebuilt, stored, evidence, rb)
    requires Tracks(was, stored, evidence)
    ensures Tracks(now, RecordsAfter(stored, rb, run), EvidenceAfter(evidence, rb))
    ensures Outdated(now, RecordsAfter(stored, rb, run)) == set w | w in Outdated(was, stored) && !rebuilt(w)
    ensures Counts(Revision(run, rb.entityCount, rb.relationCount), RecordsAfter(stored, rb, run))
  {
    IncrementalTracks(was, now, used, rebuilt, stored, evidence, rb, run);
  }

  lemma ShownFollows(v: View, before: Library, stored: map<Owner, Stored>)
    requires Lawful(v.x) && WellFormed(before) && WellFormed(v.lib) && SameOutside(before, v.lib, v.touched)
    requires Tracks(Extracted(v.x, before), stored, v.evidence) && v.known == stored.Keys
    ensures Follows(v, before)
  {
    forall w | HasOwner(Extracted(v.x, before), w) ensures w in v.known {
      assert w in LiveOwners(stored);
    }
  }

  lemma TombstonesStored(used: Occurrence -> bool, rebuilt: Owner -> bool, stored: map<Owner, Stored>,
                         evidence: map<RefId, Ref>, rb: Rebuild)
    requires RebuildOf(used, rebuilt, stored, evidence, rb)
    ensures rb.tombstones <= stored.Keys - rb.records.Keys
  {
  }

  /** Extract every chunk and write every record that does not look unchanged. What is left behind is skipped. */
  method ReconcileWholeScope(store: GraphStore, x: Extractor, source: ScopeSource, run: Lineage, full: bool,
                             ghost lib: Library)
    requires Lawful(x) && Shows(source, lib) && Tidy(store.records, store.evidence)
    modifies store
    ensures store.State().Follows(x, lib) && store.revision.value.lineage == run
    ensures forall w :: w in store.State().Behind(x, lib) ==>
      !full && !StaleScope(old(store.revision), run) && w in old(store.records) && store.records[w] == old(store.records)[w]
    ensures full ==> store.State().Shows(x, lib)
  {
    var records, refs := BuildScope(x, source, lib);
    WholeRunExactly(Extracted(x, lib), store.records, store.evidence, store.revision, records, refs, run, full);
    store.ApplyScopePlan(records, refs, run, full);
    store.State().ShowsExactly(x, lib);
  }

  /** The records and evidence of a full extraction. */
  method BuildScope(x: Extractor, source: ScopeSource, ghost lib: Library)
    returns (records: map<Owner, Record>, refs: map<RefId, Ref>)
    requires Lawful(x) && Shows(source, lib)
    ensures RecordsOf(Extracted(x, lib), records) && EvidenceOf(Extracted(x, lib), refs)
  {
    var occurrences := Extract(x, source, source.chunks, lib);
    WholeScope(x, lib, source.chunks, occurrences);
    records, refs := BuildRecords(occurrences);
    RecordsTransfer(Listed(occurrences), Extracted(x, lib), records);
    EvidenceTransfer(Listed(occurrences), Extracted(x, lib), refs);
  }

  lemma WholeScope(x: Extractor, lib: Library, chunks: seq<Chunk>, occurrences: seq<Occurrence>)
    requires Lawful(x) && WellFormed(lib) && forall c :: c in chunks <==> IsChunk(lib, c)
    requires forall o :: o in occurrences <==> FromChunks(x, lib, chunks, o)
    ensures forall o :: Listed(occurrences)(o) == Extracted(x, lib)(o)
    ensures ConsistentRefs(Listed(occurrences))
  {
    forall o ensures o in occurrences <==> Occurs(x, lib, o) {
      if Occurs(x, lib, o) {
        var c := ChunkOf(x, lib, o);
      }
      if FromChunks(x, lib, chunks, o) {
        var c :| c in chunks && c.path in lib && o in x(c, lib[c.path].document, Docs(lib));
        OccursFromChunk(x, lib, c, o);
      }
    }
    forall a, b | Listed(occurrences)(a) && Listed(occurrences)(b) && RefIdOf(a) == RefIdOf(b)
      ensures RefOf(a) == RefOf(b)
    {
      LibraryRefsConsistent(x, lib, a, b);
    }
  }

  // ---- Whole histories ----

  /** Until the first run the graph is empty; from then on its last run read some earlier metadata. */
  ghost predicate Sound(m: Metadata, x: Extractor, spec: Id, shown: Metadata, shownBy: Extractor, g: Graph) {
    && m.Valid() && Lawful(x) && Lawful(shownBy)
    && if g.revision.None? then g.records == map[] && g.evidence == map[]
       else shown.Valid() && Since(shown, m) && Tidy(g.records, g.evidence) && LastRead(g, shown) && SameRules(g, x, spec, shownBy)
  }

  ghost predicate LastRead(g: Graph, shown: Metadata) {
    g.revision.Some? && g.revision.value.lineage.metadata == shown.stamps.Values
  }

  ghost predicate SameRules(g: Graph, x: Extractor, spec: Id, shownBy: Extractor)
    requires g.revision.Some?
  {
    g.revision.value.lineage.spec == spec ==> shownBy == x
  }

  /** A file came or went that frontmatter may ask for without showing its name. */
  ghost predicate MovesHidden(before: Library, now: Library, paths: set<Path>) {
    exists p :: p in paths && (p in before) != (p in now) && !Findable(FileName(p))
  }

  /** Its owners and evidence are those of the metadata it read. */
  ghost predicate IsIntact(shown: Metadata, shownBy: Extractor, g: Graph) {
    g.revision.Some? ==> g.Follows(shownBy, shown.lib)
  }

  ghost function LeftBehind(shown: Metadata, shownBy: Extractor, g: Graph): set<Owner> {
    if g.revision.None? then {} else g.Behind(shownBy, shown.lib)
  }

  lemma WriteKeepsSound(m: Metadata, x: Extractor, spec: Id, shown: Metadata, shownBy: Extractor, g: Graph, changed: Library,
                        deleted: set<Path>)
    requires Sound(m, x, spec, shown, shownBy, g) && WellFormed((m.lib - deleted) + changed)
    ensures Sound(Written(m, changed, deleted), x, spec, shown, shownBy, g)
    ensures RunOf(Changes(m.next, changed.Keys + deleted), Written(m, changed, deleted))
  {
    var run := Changes(m.next, changed.Keys + deleted);
    if g.revision.None? {
      SinceItself(m);
      WriteKeeps(m, m, changed, deleted, run);
    } else {
      WriteKeeps(shown, m, changed, deleted, run);
    }
  }

  lemma NowSound(m: Metadata, x: Extractor, spec: Id, shown: Metadata, shownBy: Extractor, before: Graph, g: Graph)
    requires Sound(m, x, spec, shown, shownBy, before) && LastRead(g, m) && Tidy(g.records, g.evidence)
    ensures Sound(m, x, spec, m, x, g) && LeftBehind(m, x, g) == g.Behind(x, m.lib)
    ensures IsIntact(m, x, g) <==> g.Follows(x, m.lib)
  {
    SinceItself(m);
  }

  /** The metadata and the graph of one scope, with the metadata the last graph run read. */
  class GraphIndexer {
    var metadata: Metadata
    const store: GraphStore
    var extractor: Extractor
    var spec: Id
    const schema: Id
    /** Whether the store can reconcile single documents; the document backend cannot. */
    const reconciles: bool
    ghost var shown: Metadata
    ghost var shownBy: Extractor

    ghost predicate Valid()
      reads this, store
    {
      Sound(metadata, extractor, spec, shown, shownBy, store.State())
    }

    /** Owners, evidence and totals are those of the metadata the last graph run read. */
    ghost predicate Intact()
      reads this, store
    {
      IsIntact(shown, shownBy, store.State())
    }

    /** The records that do not say what that metadata says. */
    ghost function Behind(): set<Owner>
      reads this, store
    {
      LeftBehind(shown, shownBy, store.State())
    }

    constructor (extractor: Extractor, spec: Id, schema: Id, reconciles: bool)
      requires Lawful(extractor)
      ensures Valid() && Intact() && metadata.lib == map[] && Behind() == {} && fresh(store)
      ensures this.extractor == extractor && this.spec == spec && this.schema == schema && this.reconciles == reconciles
    {
      this.metadata, this.extractor, this.spec, this.schema := Metadata(map[], map[], 0), extractor, spec, schema;
      this.reconciles := reconciles;
      this.shown, this.shownBy := Metadata(map[], map[], 0), extractor;
      store := new GraphStore();
    }

    /** A metadata run, which may or may not be followed by a graph run. */
    method Write(changed: Library, deleted: set<Path>) returns (changes: Changes)
      requires Valid() && WellFormed((metadata.lib - deleted) + changed)
      modifies this`metadata
      ensures Valid() && metadata == Written(old(metadata), changed, deleted)
      ensures Intact() == old(Intact()) && Behind() == old(Behind())
      ensures RunOf(changes, metadata) && changes.paths == changed.Keys + deleted
    {
      ghost var g, was := store.State(), metadata;
      changes := Changes(metadata.next, changed.Keys + deleted);
      metadata := Written(metadata, changed, deleted);
      WriteKeepsSound(was, extractor, spec, shown, shownBy, g, changed, deleted);
    }

    /** Another version of the extraction rules; a digest names one version. */
    method Upgrade(extractor: Extractor, spec: Id)
      requires Valid() && Lawful(extractor)
      requires store.revision.Some? && store.revision.value.lineage.spec == spec ==> extractor == shownBy
      modifies this`extractor, this`spec
      ensures Valid() && this.extractor == extractor && this.spec == spec
      ensures Intact() == old(Intact()) && Behind() == old(Behind())
    {
      this.extractor, this.spec := extractor, spec;
    }

    /** The graph is the full extraction of the metadata its last run read, when it is intact with nothing left behind. */
    lemma NothingBehind()
      requires Valid() && store.revision.Some?
      ensures Intact() && Behind() == {} <==> store.State().Shows(shownBy, shown.lib)
    {
      store.State().ShowsExactly(shownBy, shown.lib);
    }

    /** What a run reads under now. */
    function Reads(versions: Id): Lineage
      reads this
    {
      Lineage(schema, spec, metadata.stamps.Values, versions)
    }

    /** The run reconciles single documents. */
    predicate ByDocument(changes: Option<Changes>, full: bool)
      reads this, store
    {
      && !full && reconciles && changes.Some? && store.revision.Some?
      && FollowsMetadata(store.revision.value.lineage, schema, spec, PathsOf(store.evidence), metadata.stamps, changes.value)
    }

    /** What the last run has on record: schema, rules, every revision of a page of the metadata, and versions. */
    ghost predicate ReadUnder(versions: Id)
      reads this, store
    {
      && store.revision.Some? && store.revision.value.lineage.schema == schema && store.revision.value.lineage.spec == spec
      && store.revision.value.lineage.versions == versions
      && forall v :: v in store.revision.value.lineage.metadata <==> exists p :: p in metadata.stamps && metadata.stamps[p] == v
    }

    /** A graph with evidence at pages that are not in the metadata, or without evidence of one that is. */
    ghost predicate Differs(p: Path)
      reads this, store
    {
      (exists id :: id in store.evidence && store.evidence[id].path == p) != (p in metadata.stamps)
    }

    /**
     * Single documents are reconciled exactly when the run is not forced, the backend can, the last run had the same schema
     * and rules and recorded the revision of every page but those of this run, and pages came and went by this run only.
     */
    lemma ByDocumentExactly(changes: Option<Changes>, full: bool)
      ensures ByDocument(changes, full) <==>
        && !full && reconciles && changes.Some? && store.revision.Some?
        && store.revision.value.lineage.schema == schema && store.revision.value.lineage.spec == spec
        && (forall p :: p in metadata.stamps && metadata.stamps[p] != changes.value.revision ==>
              metadata.stamps[p] in store.revision.value.lineage.metadata)
        && forall p :: Differs(p) ==> p in changes.value.paths
    {
      if changes.Some? && store.revision.Some? {
        FollowsExactly(store.revision.value.lineage, schema, spec, store.evidence, metadata.stamps, changes.value);
        assert forall p :: Differs(p) <==> (p in PathsOf(store.evidence)) != (p in metadata.stamps);
      }
    }

    /** A file came or went whose name frontmatter may hide. */
    ghost predicate Hidden(changes: Changes)
      reads this
    {
      MovesHidden(shown.lib, metadata.lib, changes.paths)
    }

    /** When the check passes on an intact graph, a document-level run has all it needs, hidden names apart. */
    lemma FollowedIsSound(changes: Changes)
      requires Valid() && Intact() && RunOf(changes, metadata) && ByDocument(Some(changes), false)
      ensures shownBy == extractor && SameOutside(shown.lib, metadata.lib, changes.paths)
      ensures NamesFindable(View(extractor, store.records.Keys, store.evidence, metadata.lib, changes.paths)) <==>
        !Hidden(changes)
    {
      EvidencePaths(shownBy, shown.lib, store.evidence);
      GuardIsSound(shown, metadata, store.revision.value.lineage, changes);
      FindableMoves(View(extractor, store.records.Keys, store.evidence, metadata.lib, changes.paths), shown.lib);
    }

    /** A document-level run for a file of hidden name: it can leave out notes that ask for the file. */
    ghost predicate MayMissLinks(changes: Option<Changes>, full: bool)
      reads this, store
    {
      ByDocument(changes, full) && Hidden(changes.value)
    }

    /** An unforced run over the whole scope under the same revisions, although a page is gone. */
    ghost predicate MayLeaveBehind(changes: Option<Changes>, full: bool, versions: Id)
      reads this, store
    {
      !ByDocument(changes, full) && !full && MissesPage(versions)
    }

    /** The last run read under the same revisions, and a page it saw is gone. */
    ghost predicate MissesPage(versions: Id)
      reads this, store
    {
      && store.revision.Some? && store.revision.value.lineage == Reads(versions)
      && exists p :: p in shown.lib && p !in metadata.lib
    }

    /**
     * A graph run for the changes of one metadata run. A run over the whole scope leaves owners and evidence of the
     * metadata after it, whatever happened before, and a forced one the full extraction. A document-level run carries
     * over what was right, unless a file of hidden name came or went. From a graph that was the full extraction, the only
     * other exception is an unforced run over the whole scope that reads under the same revisions although a page is gone.
     */
    method Apply(source: ScopeSource, changes: Option<Changes>, full: bool, versions: Id)
      requires Valid() && Shows(source, metadata.lib) && (changes.Some? ==> RunOf(changes.value, metadata))
      modifies this`shown, this`shownBy, store
      ensures Valid() && shown == metadata && shownBy == extractor
      ensures ReadUnder(versions)
      ensures full ==> Intact() && Behind() == {}
      ensures !old(ByDocument(changes, full)) ==> Intact()
      ensures old(ByDocument(changes, full) && Intact() && !Hidden(changes.value)) ==> Intact() && Behind() <= old(Behind())
      ensures old(Intact() && Behind() == {} && !MayMissLinks(changes, full) && !MayLeaveBehind(changes, full, versions)) ==>
        Intact() && Behind() == {}
    {
      ghost var was := store.State();
      Reconcile(source, changes, full, versions);
      NowSound(metadata, extractor, spec, shown, shownBy, was, store.State());
      shown, shownBy := metadata, extractor;
    }

    /** The graph follows the metadata of now. */
    ghost predicate FollowsNow()
      reads this, store
    {
      store.State().Follows(extractor, metadata.lib)
    }

    ghost function BehindNow(): set<Owner>
      reads this, store
    {
      store.State().Behind(extractor, metadata.lib)
    }

    /** By document when the check allows it, else over the whole scope. */
    method Reconcile(source: ScopeSource, changes: Option<Changes>, full: bool, versions: Id)
      requires Valid() && Shows(source, metadata.lib) && (changes.Some? ==> RunOf(changes.value, metadata))
      modifies store
      ensures LastRead(store.State(), metadata) && Tidy(store.records, store.evidence) && ReadUnder(versions)
      ensures full ==> FollowsNow() && BehindNow() == {}
      ensures !old(ByDocument(changes, full)) ==> FollowsNow()
      ensures old(ByDocument(changes, full) && Intact() && !Hidden(changes.value)) ==>
        FollowsNow() && BehindNow() <= old(Behind())
      ensures old(Intact() && Behind() == {} && !MayMissLinks(changes, full) && !MayLeaveBehind(changes, full, versions)) ==>
        FollowsNow() && BehindNow() == {}
    {
      if ByDocument(changes, full) {
        ReconcileListed(source, changes.value, versions);
      } else {
        ReconcileAll(source, full, versions);
      }
    }

    method ReconcileListed(source: ScopeSource, changes: Changes, versions: Id)
      requires Valid() && Shows(source, metadata.lib) && RunOf(changes, metadata) && ByDocument(Some(changes), false)
      modifies store
      ensures LastRead(store.State(), metadata) && Tidy(store.records, store.evidence) && ReadUnder(versions)
      ensures old(Intact() && !Hidden(changes)) ==> FollowsNow() && BehindNow() <= old(Behind())
    {
      if Intact() {
        FollowedIsSound(changes);
      }
      ReconcileDocuments(store, extractor, source, changes.paths, Reads(versions), shown.lib, metadata.lib);
    }

    method ReconcileAll(source: ScopeSource, full: bool, versions: Id)
      requires Valid() && Shows(source, metadata.lib)
      modifies store
      ensures LastRead(store.State(), metadata) && Tidy(store.records, store.evidence) && FollowsNow() && ReadUnder(versions)
      ensures full ==> BehindNow() == {}
      ensures old(Intact() && Behind() == {}) && (full || !old(MissesPage(versions))) ==> BehindNow() == {}
    {
      ghost var was, calm := store.records, Intact() && Behind() == {} && !MissesPage(versions);
      if calm && store.revision.Some? && !StaleScope(store.revision, Reads(versions)) {
        SameMetadataSameRecords(shown, metadata, extractor, was);
      }
      ReconcileWholeScope(store, extractor, source, Reads(versions), full, metadata.lib);
      TrackedIsTidy(extractor, metadata.lib, store.records, store.evidence);
      StillRight(Extracted(extractor, metadata.lib), was, store.records);
      store.State().ShowsExactly(extractor, metadata.lib);
    }
  }

  lemma FollowsExactly(last: Lineage, schema: Id, spec: Id, evidence: map<RefId, Ref>, stamps: map<Path, Id>,
                       changes: Changes)
    ensures FollowsMetadata(last, schema, spec, PathsOf(evidence), stamps, changes) <==>
      && last.schema == schema && last.spec == spec
      && (forall p :: p in stamps && stamps[p] != changes.revision ==> stamps[p] in last.metadata)
      && forall p :: (p in PathsOf(evidence)) != (p in stamps) ==> p in changes.paths
  {
    if forall p :: p in stamps && stamps[p] != changes.revision ==> stamps[p] in last.metadata {
      forall v | v in stamps.Values - {changes.revision} ensures v in last.metadata {
        var p :| p in stamps && stamps[p] == v;
      }
    }
    if stamps.Values - {changes.revision} <= last.metadata {
      forall p | p in stamps && stamps[p] != changes.revision ensures stamps[p] in last.metadata {
        assert stamps[p] in stamps.Values - {changes.revision};
      }
    }
    var graphPaths := PathsOf(evidence);
    var moved := (graphPaths - stamps.Keys) + (stamps.Keys - graphPaths);
    assert forall p :: p in moved <==> (p in graphPaths) != (p in stamps);
  }

  /** Evidence tells which paths came or went. */
  lemma FindableMoves(v: View, before: Library)
    requires PathsOf(v.evidence) == before.Keys
    ensures NamesFindable(v) <==> !MovesHidden(before, v.lib, v.touched)
  {
    forall p ensures v.Moved(p) <==> p in v.touched && (p in before) != (p in v.lib) {
      MovedAt(v, before, p);
    }
  }

  lemma MovedAt(v: View, before: Library, p: Path)
    requires PathsOf(v.evidence) == before.Keys
    ensures v.HadEvidence(p) <==> p in before
  {
    assert v.HadEvidence(p) <==> p in PathsOf(v.evidence);
  }

  lemma SameMetadataSameRecords(shown: Metadata, m: Metadata, x: Extractor, records: map<Owner, Stored>)
    requires shown.Valid() && m.Valid() && Since(shown, m) && m.stamps.Values == shown.stamps.Values
    requires shown.lib.Keys <= m.lib.Keys
    ensures Outdated(Extracted(x, m.lib), records) == Outdated(Extracted(x, shown.lib), records)
  {
    SameRevisions(shown, m);
  }

  /** A record that is as it was and was right is right. */
  lemma StillRight(occurs: Occurrence -> bool, was: map<Owner, Stored>, now: map<Owner, Stored>)
    requires forall w :: w in Outdated(occurs, now) ==> w in was && now[w] == was[w]
    ensures Outdated(occurs, now) <= Outdated(occurs, was)
  {
  }
}
