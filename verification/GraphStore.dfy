/** The graph store, and the runs that keep it equal to a full extraction of the metadata. */
module GraphStores {
  import opened Core
  import opened Text
  import opened LinkResolution
  import opened Extraction
  import opened GraphIndex

  /** What a graph run reads under: graph schema, extraction rules, metadata revisions, parser and chunker versions. */
  datatype Lineage = Lineage(schema: Id, spec: Id, metadata: set<Id>, versions: Id)

  /** What one graph run recorded about what it read and the records it left live. */
  datatype Revision = Revision(lineage: Lineage, entityCount: int, relationCount: int)

  function Live(records: map<Owner, Stored>): map<Owner, Record> {
    map w | w in records && records[w].live :: records[w].record
  }

  ghost predicate Counts(revision: Revision, records: map<Owner, Stored>) {
    && revision.entityCount == |EntitiesIn(LiveOwners(records))|
    && revision.relationCount == |RelationsIn(LiveOwners(records))|
  }

  /** The live records and the evidence are exactly those of the occurrences. */
  ghost predicate Mirrors(occurs: Occurrence -> bool, records: map<Owner, Stored>, evidence: map<RefId, Ref>) {
    RecordsOf(occurs, Live(records)) && EvidenceOf(occurs, evidence)
  }

  /** Live owners and evidence are exactly those of the occurrences; what the records say may be out of date. */
  ghost predicate Tracks(occurs: Occurrence -> bool, records: map<Owner, Stored>, evidence: map<RefId, Ref>) {
    OwnersOf(occurs, records) && EvidenceOf(occurs, evidence)
  }

  ghost predicate OwnersOf(occurs: Occurrence -> bool, records: map<Owner, Stored>) {
    forall w :: w in LiveOwners(records) <==> HasOwner(occurs, w)
  }

  /** The live records that are not what their occurrences yield. */
  ghost function Outdated(occurs: Occurrence -> bool, records: map<Owner, Stored>): set<Owner> {
    set w | w in records && records[w].live && !Describes(occurs, w, records[w].record)
  }

  lemma MirrorsExactly(occurs: Occurrence -> bool, records: map<Owner, Stored>, evidence: map<RefId, Ref>)
    ensures Mirrors(occurs, records, evidence) <==> Tracks(occurs, records, evidence) && Outdated(occurs, records) == {}
  {
    forall w ensures (w in Live(records) <==> w in LiveOwners(records))
      && (w in Live(records) ==> (w in Outdated(occurs, records) <==> !Describes(occurs, w, Live(records)[w])))
    {
    }
    if Mirrors(occurs, records, evidence) {
      forall w ensures w !in Outdated(occurs, records) {
        assert w in Live(records) ==> Describes(occurs, w, Live(records)[w]);
      }
    }
    if Outdated(occurs, records) == {} {
      forall w | w in Live(records) ensures Describes(occurs, w, Live(records)[w]) {
        assert w !in Outdated(occurs, records);
      }
    }
  }

  /** Two graphs that mirror the same occurrences agree on everything but retired records. */
  lemma MirrorsUnique(occurs: Occurrence -> bool, r: map<Owner, Stored>, e: map<RefId, Ref>,
                      s: map<Owner, Stored>, f: map<RefId, Ref>)
    requires Mirrors(occurs, r, e) && Mirrors(occurs, s, f)
    ensures Live(r) == Live(s) && e == f
  {
    RecordsUnique(occurs, Live(r), Live(s));
    EvidenceUnique(occurs, e, f);
  }

  lemma RecordsUnique(occurs: Occurrence -> bool, r: map<Owner, Record>, s: map<Owner, Record>)
    requires RecordsOf(occurs, r) && RecordsOf(occurs, s)
    ensures r == s
  {
    forall w | w in r && w in s ensures r[w] == s[w] {
      DescribesUnique(occurs, w, r[w], s[w]);
    }
    assert r.Keys == s.Keys;
  }

  lemma EvidenceUnique(occurs: Occurrence -> bool, e: map<RefId, Ref>, f: map<RefId, Ref>)
    requires EvidenceOf(occurs, e) && EvidenceOf(occurs, f)
    ensures e == f
  {
    forall id | id in e ensures id in f && e[id] == f[id] {
      var o :| occurs(o) && RefIdOf(o) == id;
    }
    forall id | id in f ensures id in e {
      var o :| occurs(o) && RefIdOf(o) == id;
    }
  }

  // ---- Applying the plan of a document-level run ----

  function RecordsAfter(records: map<Owner, Stored>, rb: Rebuild, run: Lineage): map<Owner, Stored> {
    map w | w in records.Keys + rb.records.Keys ::
      if w in rb.records then Stored(rb.records[w], true, run.spec, run.metadata)
      else if w in rb.tombstones then records[w].(live := false)
      else records[w]
  }

  /** Rows of rebuilt records that are not kept go, rows that are new or different are written. */
  function EvidenceAfter(evidence: map<RefId, Ref>, rb: Rebuild): map<RefId, Ref> {
    (map id | id in evidence && (id.owner in rb.owners ==> id in rb.kept) :: evidence[id]) + rb.upserts
  }

  lemma SameGroupOwner(a: Occurrence -> bool, b: Occurrence -> bool, w: Owner)
    requires SameGroup(a, b, w)
    ensures HasOwner(a, w) <==> HasOwner(b, w)
  {
    if HasOwner(a, w) {
      var o :| a(o) && OwnerOf(o) == w;
      assert b(o);
    }
    if HasOwner(b, w) {
      var o :| b(o) && OwnerOf(o) == w;
      assert a(o);
    }
  }

  lemma UsedOwner(used: Occurrence -> bool, rebuilt: Owner -> bool, w: Owner)
    requires forall o :: used(o) ==> rebuilt(OwnerOf(o))
    ensures HasOwner(used, w) ==> rebuilt(w)
  {
    if HasOwner(used, w) {
      var o :| used(o) && OwnerOf(o) == w;
    }
  }

  /** Live records after applying: the rebuilt ones and the untouched ones. */
  lemma LiveAfter(stored: map<Owner, Stored>, rb: Rebuild, run: Lineage, w: Owner)
    requires rb.tombstones == (set w | w in rb.owners && w !in rb.records && w in LiveOwners(stored))
    requires w in rb.records ==> w in rb.owners
    ensures w in LiveOwners(RecordsAfter(stored, rb, run)) <==>
      if w in rb.owners then w in rb.records else w in LiveOwners(stored)
    ensures w in LiveOwners(RecordsAfter(stored, rb, run)) ==>
      RecordsAfter(stored, rb, run)[w].record == if w in rb.owners then rb.records[w] else stored[w].record
  {
  }

  lemma SameGroupDescribes(a: Occurrence -> bool, b: Occurrence -> bool, w: Owner, record: Record)
    requires SameGroup(a, b, w)
    ensures Describes(a, w, record) <==> Describes(b, w, record)
  {
    if Describes(a, w, record) {
      SameGroupSameRecord(a, b, w, record);
    }
    if Describes(b, w, record) {
      SameGroupSameRecord(b, a, w, record);
    }
  }

  /** One record after the run: live if it occurs, and out of date only if it was and is not rebuilt. */
  lemma RecordAfter(was: Occurrence -> bool, now: Occurrence -> bool, used: Occurrence -> bool,
                    rebuilt: Owner -> bool, stored: map<Owner, Stored>, rb: Rebuild, run: Lineage, w: Owner)
    requires SameGroup(if rebuilt(w) then used else was, now, w)
    requires OwnersOf(was, stored) && RecordsOf(used, rb.records) && (w in rb.owners <==> rebuilt(w))
    requires rb.tombstones == (set w | w in rb.owners && w !in rb.records && w in LiveOwners(stored))
    requires w in rb.records ==> w in rb.owners
    ensures var after := RecordsAfter(stored, rb, run);
      && (w in LiveOwners(after) <==> HasOwner(now, w))
      && (w in Outdated(now, after) <==> w in Outdated(was, stored) && !rebuilt(w))
  {
    var from := if rebuilt(w) then used else was;
    SameGroupOwner(from, now, w);
    LiveAfter(stored, rb, run, w);
    if w in LiveOwners(RecordsAfter(stored, rb, run)) {
      SameGroupDescribes(from, now, w, RecordsAfter(stored, rb, run)[w].record);
    }
  }

  lemma RecordsTrack(was: Occurrence -> bool, now: Occurrence -> bool, used: Occurrence -> bool,
                     rebuilt: Owner -> bool, stored: map<Owner, Stored>, evidence: map<RefId, Ref>, rb: Rebuild, run: Lineage)
    requires Replaces(was, now, used, rebuilt) && RebuildOf(used, rebuilt, stored, evidence, rb)
    requires OwnersOf(was, stored)
    ensures OwnersOf(now, RecordsAfter(stored, rb, run))
    ensures Outdated(now, RecordsAfter(stored, rb, run)) == set w | w in Outdated(was, stored) && !rebuilt(w)
  {
    var after := RecordsAfter(stored, rb, run);
    forall w ensures (w in LiveOwners(after) <==> HasOwner(now, w))
      && (w in Outdated(now, after) <==> w in Outdated(was, stored) && !rebuilt(w))
    {
      assert SameGroup(if rebuilt(w) then used else was, now, w);
      UsedOwner(used, rebuilt, w);
      RecordAfter(was, now, used, rebuilt, stored, rb, run, w);
    }
  }

  /** An evidence row after the run. */
  lemma RowAfter(evidence: map<RefId, Ref>, rb: Rebuild, id: RefId)
    requires rb.upserts == (map id | id in rb.kept && (id !in evidence || evidence[id] != rb.kept[id]) :: rb.kept[id])
    requires id in rb.kept ==> id.owner in rb.owners
    ensures var after, source := EvidenceAfter(evidence, rb), if id.owner in rb.owners then rb.kept else evidence;
      (id in after <==> id in source) && (id in after ==> after[id] == source[id])
  {
  }

  lemma KeptRow(used: Occurrence -> bool, rebuilt: Owner -> bool, kept: map<RefId, Ref>, id: RefId)
    requires EvidenceOf(used, kept) && forall o :: used(o) ==> rebuilt(OwnerOf(o))
    ensures id in kept ==> rebuilt(id.owner)
  {
    if id in kept {
      var o :| used(o) && RefIdOf(o) == id;
    }
  }

  lemma RowOccurs(occurs: Occurrence -> bool, evidence: map<RefId, Ref>, id: RefId) returns (o: Occurrence)
    requires EvidenceOf(occurs, evidence) && id in evidence
    ensures occurs(o) && RefIdOf(o) == id
  {
    o :| occurs(o) && RefIdOf(o) == id;
  }

  /** Every occurrence has its row, when every row comes from the side its record was taken from. */
  lemma EvidenceMirror(was: Occurrence -> bool, now: Occurrence -> bool, used: Occurrence -> bool,
                       rebuilt: Owner -> bool, evidence: map<RefId, Ref>, kept: map<RefId, Ref>,
                       after: map<RefId, Ref>)
    requires Replaces(was, now, used, rebuilt) && EvidenceOf(was, evidence) && EvidenceOf(used, kept)
    requires forall id: RefId :: var source := if rebuilt(id.owner) then kept else evidence;
      (id in after <==> id in source) && (id in after ==> after[id] == source[id])
    ensures EvidenceOf(now, after)
  {
    forall o | now(o) ensures RefIdOf(o) in after && after[RefIdOf(o)] == RefOf(o) {
      var w := OwnerOf(o);
      assert SameGroup(if rebuilt(w) then used else was, now, w);
    }
    forall id | id in after ensures exists o :: now(o) && RefIdOf(o) == id {
      assert SameGroup(if rebuilt(id.owner) then used else was, now, id.owner);
      if rebuilt(id.owner) {
        var o := RowOccurs(used, kept, id);
        assert now(o);
      } else {
        var o := RowOccurs(was, evidence, id);
        assert now(o);
      }
    }
  }

  /**
   * A document-level run keeps owners and evidence exact, and puts right every record it rebuilds; a record that was out
   * of date and is not rebuilt stays so.
   */
  lemma IncrementalTracks(was: Occurrence -> bool, now: Occurrence -> bool, used: Occurrence -> bool,
                          rebuilt: Owner -> bool, stored: map<Owner, Stored>, evidence: map<RefId, Ref>, rb: Rebuild,
                          run: Lineage)
    requires Replaces(was, now, used, rebuilt) && RebuildOf(used, rebuilt, stored, evidence, rb)
    requires Tracks(was, stored, evidence)
    ensures Tracks(now, RecordsAfter(stored, rb, run), EvidenceAfter(evidence, rb))
    ensures Outdated(now, RecordsAfter(stored, rb, run)) == set w | w in Outdated(was, stored) && !rebuilt(w)
    ensures rb.tombstones == LiveOwners(stored) - LiveOwners(RecordsAfter(stored, rb, run))
    ensures rb.entityCount == |EntitiesIn(LiveOwners(RecordsAfter(stored, rb, run)))|
    ensures rb.relationCount == |RelationsIn(LiveOwners(RecordsAfter(stored, rb, run)))|
  {
    RecordsTrack(was, now, used, rebuilt, stored, evidence, rb, run);
    var after := EvidenceAfter(evidence, rb);
    forall id: RefId ensures var source := if rebuilt(id.owner) then rb.kept else evidence;
        (id in after <==> id in source) && (id in after ==> after[id] == source[id])
    {
      KeptRow(used, rebuilt, rb.kept, id);
      RowAfter(evidence, rb, id);
    }
    EvidenceMirror(was, now, used, rebuilt, evidence, rb.kept, after);
    forall w | w in rb.records ensures w in rb.owners {
      UsedOwner(used, rebuilt, w);
    }
    CountsAfter(stored, rb, run);
  }

  /** Replacing only the rebuilt records leaves exactly what the new occurrences give. */
  lemma IncrementalEqualsFull(was: Occurrence -> bool, now: Occurrence -> bool, used: Occurrence -> bool,
                              rebuilt: Owner -> bool, stored: map<Owner, Stored>, evidence: map<RefId, Ref>, rb: Rebuild,
                              run: Lineage)
    requires Replaces(was, now, used, rebuilt) && RebuildOf(used, rebuilt, stored, evidence, rb)
    requires Mirrors(was, stored, evidence)
    ensures Mirrors(now, RecordsAfter(stored, rb, run), EvidenceAfter(evidence, rb))
    ensures rb.tombstones == LiveOwners(stored) - LiveOwners(RecordsAfter(stored, rb, run))
    ensures rb.entityCount == |EntitiesIn(LiveOwners(RecordsAfter(stored, rb, run)))|
    ensures rb.relationCount == |RelationsIn(LiveOwners(RecordsAfter(stored, rb, run)))|
  {
    MirrorsExactly(was, stored, evidence);
    IncrementalTracks(was, now, used, rebuilt, stored, evidence, rb, run);
    MirrorsExactly(now, RecordsAfter(stored, rb, run), EvidenceAfter(evidence, rb));
  }

  /** Live totals change by what the rebuilt records lose and gain. */
  lemma CountsAfter(stored: map<Owner, Stored>, rb: Rebuild, run: Lineage)
    requires forall w :: w in rb.records ==> w in rb.owners
    requires rb.tombstones == (set w | w in rb.owners && w !in rb.records && w in LiveOwners(stored))
    ensures var was, now := LiveOwners(stored), LiveOwners(RecordsAfter(stored, rb, run));
      && rb.tombstones == was - now
      && |EntitiesIn(now)| == |EntitiesIn(was)| - |EntitiesIn(rb.owners * was)| + |EntitiesIn(rb.records.Keys)|
      && |RelationsIn(now)| == |RelationsIn(was)| - |RelationsIn(rb.owners * was)| + |RelationsIn(rb.records.Keys)|
  {
    var was, now := LiveOwners(stored), LiveOwners(RecordsAfter(stored, rb, run));
    forall w ensures w in now <==> if w in rb.owners then w in rb.records else w in was {
      LiveAfter(stored, rb, run, w);
    }
    assert now == (was - rb.owners) + rb.records.Keys;
    TotalsAfter(was, rb.owners, rb.records.Keys, now);
  }

  lemma TotalsAfter(was: set<Owner>, owners: set<Owner>, added: set<Owner>, now: set<Owner>)
    requires added <= owners && now == (was - owners) + added
    ensures |EntitiesIn(now)| == |EntitiesIn(was)| - |EntitiesIn(owners * was)| + |EntitiesIn(added)|
    ensures |RelationsIn(now)| == |RelationsIn(was)| - |RelationsIn(owners * was)| + |RelationsIn(added)|
  {
    assert EntitiesIn(now) == (EntitiesIn(was) - EntitiesIn(owners * was)) + EntitiesIn(added);
    assert RelationsIn(now) == (RelationsIn(was) - RelationsIn(owners * was)) + RelationsIn(added);
    Replaced(EntitiesIn(was), EntitiesIn(owners * was), EntitiesIn(added));
    Replaced(RelationsIn(was), RelationsIn(owners * was), RelationsIn(added));
  }

  lemma Replaced<T>(whole: set<T>, gone: set<T>, added: set<T>)
    requires gone <= whole && (whole - gone) !! added
    ensures |(whole - gone) + added| == |whole| - |gone| + |added|
  {
  }

  // ---- A whole-scope run ----

  /** The path check of the whole-scope cleanup: rows at other paths are never removed. */
  predicate Cleanable(path: Path) {
    forall i :: 0 <= i < |path| ==> '\\' !in path[i] && path[i] != ".."
  }

  /** The scope's last run read under something else. */
  predicate StaleScope(revision: Option<Revision>, run: Lineage) {
    revision.Some? && revision.value.lineage != run
  }

  function RowsOf(evidence: map<RefId, Ref>, w: Owner): set<RefId> {
    set id | id in evidence && id.owner == w
  }

  function HashesOf(evidence: map<RefId, Ref>, w: Owner): set<Id> {
    set id | id in evidence && id.owner == w :: evidence[id].hash
  }

  /** Nothing the plan compares has changed: the record's lineage, its evidence identifiers and their content hashes. */
  predicate LooksUnchanged(stored: map<Owner, Stored>, evidence: map<RefId, Ref>, refs: map<RefId, Ref>, run: Lineage,
                           w: Owner)
  {
    && w in stored && stored[w].live && stored[w].spec == run.spec && stored[w].metadata == run.metadata
    && RowsOf(evidence, w) == RowsOf(refs, w) && HashesOf(evidence, w) == HashesOf(refs, w)
  }

  /** The desired records an unforced run does not write. */
  function Skipped(stored: map<Owner, Stored>, evidence: map<RefId, Ref>, revision: Option<Revision>,
                   desired: map<Owner, Record>, refs: map<RefId, Ref>, run: Lineage, full: bool): set<Owner>
  {
    if full || StaleScope(revision, run) then {}
    else set w | w in desired && LooksUnchanged(stored, evidence, refs, run, w)
  }

  function ScopeRecords(stored: map<Owner, Stored>, desired: map<Owner, Record>, skipped: set<Owner>, run: Lineage)
    : map<Owner, Stored>
  {
    map w | w in stored.Keys + desired.Keys ::
      if w in stored && w in skipped then stored[w]
      else if w in desired then Stored(desired[w], true, run.spec, run.metadata)
      else stored[w].(live := false)
  }

  /** Rows of written, retired or newly retired records that are not desired go. */
  function ScopeEvidence(stored: map<Owner, Stored>, evidence: map<RefId, Ref>, desired: map<Owner, Record>,
                         refs: map<RefId, Ref>, skipped: set<Owner>): map<RefId, Ref>
  {
    (map id | id in evidence
       && ((id.owner in stored || id.owner in desired) && id.owner !in skipped ==> !Cleanable(evidence[id].path))
       :: evidence[id]) + refs
  }

  /** Every row belongs to a stored record and can be cleaned up. */
  ghost predicate Tidy(stored: map<Owner, Stored>, evidence: map<RefId, Ref>) {
    forall id :: id in evidence ==> id.owner in stored && Cleanable(evidence[id].path)
  }

  /**
   * A whole-scope run keeps owners and evidence exact. The records it leaves out of date are exactly the skipped ones
   * that are not as stored, so it mirrors the extraction if and only if every skipped record is as stored.
   */
  lemma WholeRunExactly(occurs: Occurrence -> bool, stored: map<Owner, Stored>, evidence: map<RefId, Ref>,
                        revision: Option<Revision>, desired: map<Owner, Record>, refs: map<RefId, Ref>, run: Lineage,
                        full: bool)
    requires RecordsOf(occurs, desired) && EvidenceOf(occurs, refs) && Tidy(stored, evidence)
    ensures var skipped := Skipped(stored, evidence, revision, desired, refs, run, full);
      var after, rows := ScopeRecords(stored, desired, skipped, run), ScopeEvidence(stored, evidence, desired, refs, skipped);
      && Tracks(occurs, after, rows) && LiveOwners(after) == desired.Keys
      && Outdated(occurs, after) == (set w | w in skipped && stored[w].record != desired[w])
      && (Mirrors(occurs, after, rows) <==> forall w :: w in skipped ==> stored[w].record == desired[w])
  {
    var skipped := Skipped(stored, evidence, revision, desired, refs, run, full);
    var after := ScopeRecords(stored, desired, skipped, run);
    RowsAreDesired(stored, evidence, desired, refs, skipped);
    ScopeOwners(stored, desired, skipped, run);
    OutdatedAre(occurs, stored, desired, skipped, run);
    MirrorsExactly(occurs, after, ScopeEvidence(stored, evidence, desired, refs, skipped));
    OutdatedIsSkipped(occurs, after, skipped, stored, desired);
  }

  lemma ScopeOwners(stored: map<Owner, Stored>, desired: map<Owner, Record>, skipped: set<Owner>, run: Lineage)
    requires forall v :: v in skipped ==> v in desired && v in stored && stored[v].live
    ensures LiveOwners(ScopeRecords(stored, desired, skipped, run)) == desired.Keys
  {
    forall w ensures w in LiveOwners(ScopeRecords(stored, desired, skipped, run)) <==> w in desired {
      ScopeRecordAt(stored, desired, skipped, run, w);
    }
  }

  lemma OutdatedAre(occurs: Occurrence -> bool, stored: map<Owner, Stored>, desired: map<Owner, Record>,
                    skipped: set<Owner>, run: Lineage)
    requires forall v :: v in skipped ==> v in desired && v in stored && stored[v].live
    requires forall w :: w in desired ==> Describes(occurs, w, desired[w])
    ensures Outdated(occurs, ScopeRecords(stored, desired, skipped, run))
      == set w | w in skipped && stored[w].record != desired[w]
  {
    var after := ScopeRecords(stored, desired, skipped, run);
    forall w ensures w in Outdated(occurs, after) <==> w in skipped && stored[w].record != desired[w] {
      ScopeRecordAt(stored, desired, skipped, run, w);
      if w in desired && w in skipped {
        OnlyDesired(occurs, w, stored[w].record, desired[w]);
      }
    }
  }

  lemma OutdatedIsSkipped(occurs: Occurrence -> bool, after: map<Owner, Stored>, skipped: set<Owner>,
                          stored: map<Owner, Stored>, desired: map<Owner, Record>)
    requires forall w :: w in skipped ==> w in stored && w in desired
    requires Outdated(occurs, after) == (set w | w in skipped && stored[w].record != desired[w])
    ensures Outdated(occurs, after) == {} <==> forall w :: w in skipped ==> stored[w].record == desired[w]
  {
    forall w | w in skipped ensures w in Outdated(occurs, after) <==> stored[w].record != desired[w] {
    }
  }

  lemma OnlyDesired(occurs: Occurrence -> bool, w: Owner, record: Record, desired: Record)
    requires Describes(occurs, w, desired)
    ensures Describes(occurs, w, record) <==> record == desired
  {
    if Describes(occurs, w, record) {
      DescribesUnique(occurs, w, record, desired);
    }
  }

  lemma ScopeRecordAt(stored: map<Owner, Stored>, desired: map<Owner, Record>, skipped: set<Owner>, run: Lineage, w: Owner)
    requires forall v :: v in skipped ==> v in desired && v in stored && stored[v].live
    ensures var after := ScopeRecords(stored, desired, skipped, run);
      && (w in LiveOwners(after) <==> w in desired)
      && (w in desired ==> after[w].record == if w in skipped then stored[w].record else desired[w])
  {
  }

  /** No row of a skipped record is in the way, for it has the same rows. */
  lemma RowsAreDesired(stored: map<Owner, Stored>, evidence: map<RefId, Ref>, desired: map<Owner, Record>,
                       refs: map<RefId, Ref>, skipped: set<Owner>)
    requires Tidy(stored, evidence) && forall w :: w in skipped ==> RowsOf(evidence, w) == RowsOf(refs, w)
    ensures ScopeEvidence(stored, evidence, desired, refs, skipped) == refs
  {
    forall id | id in evidence && id.owner in skipped ensures id in refs {
      assert id in RowsOf(evidence, id.owner);
    }
  }

  /** The rows the run removes, and the statuses it writes, add up to the functions above. */
  lemma ScopeSteps(stored: map<Owner, Stored>, evidence: map<RefId, Ref>, desired: map<Owner, Record>,
                   refs: map<RefId, Ref>, skipped: set<Owner>, tombstones: set<Owner>, obsolete: set<RefId>)
    requires forall w :: w in skipped ==> w in desired && w in stored && stored[w].live
    requires tombstones == set w | w in stored && stored[w].live && w !in desired
    requires obsolete == set id | id in evidence && id !in refs && Cleanable(evidence[id].path)
      && ((id.owner in desired && id.owner !in skipped) || id.owner in tombstones
          || (id.owner in stored && !stored[id.owner].live))
    ensures (evidence - obsolete) + refs == ScopeEvidence(stored, evidence, desired, refs, skipped)
  {
  }

  // ---- The store ----

  /** What is stored. */
  datatype Graph = Graph(records: map<Owner, Stored>, evidence: map<RefId, Ref>, revision: Option<Revision>)
  {
    /** The graph is the full extraction of `lib`, and the recorded totals are the live ones. */
    ghost predicate Shows(x: Extractor, lib: Library) {
      Mirrors(Extracted(x, lib), records, evidence) && revision.Some? && Counts(revision.value, records)
    }

    /** Owners, evidence and totals are those of the full extraction of `lib`. */
    ghost predicate Follows(x: Extractor, lib: Library) {
      Tracks(Extracted(x, lib), records, evidence) && revision.Some? && Counts(revision.value, records)
    }

    /** The live records that are not as in the full extraction of `lib`. */
    ghost function Behind(x: Extractor, lib: Library): set<Owner> {
      Outdated(Extracted(x, lib), records)
    }

    lemma ShowsExactly(x: Extractor, lib: Library)
      ensures Shows(x, lib) <==> Follows(x, lib) && Behind(x, lib) == {}
    {
      MirrorsExactly(Extracted(x, lib), records, evidence);
    }
  }

  class GraphStore {
    var records: map<Owner, Stored>
    var evidence: map<RefId, Ref>
    var revision: Option<Revision>

    constructor ()
      ensures records == map[] && evidence == map[] && revision == None
    {
      records, evidence, revision := map[], map[], None;
    }

    function State(): Graph
      reads this
    {
      Graph(records, evidence, revision)
    }

    method RemoveEvidence(obsolete: set<RefId>)
      modifies this`evidence
      ensures evidence == old(evidence) - obsolete
    {
      evidence := evidence - obsolete;
    }

    /** Upserted records are live, tombstoned ones are not, the others keep their status. */
    method WritePlan(upserts: map<Owner, Record>, refs: map<RefId, Ref>, tombstones: set<Owner>, next: Revision)
      requires tombstones <= records.Keys - upserts.Keys
      modifies this
      ensures records == map w | w in old(records).Keys + upserts.Keys ::
        if w in upserts then Stored(upserts[w], true, next.lineage.spec, next.lineage.metadata)
        else if w in tombstones then old(records)[w].(live := false)
        else old(records)[w]
      ensures evidence == old(evidence) + refs && revision == Some(next)
    {
      records := records + map w | w in upserts :: Stored(upserts[w], true, next.lineage.spec, next.lineage.metadata);
      evidence := evidence + refs;
      records := records + map w | w in tombstones :: records[w].(live := false);
      revision := Some(next);
    }

    method ApplyOwnerReconcilePlan(rb: Rebuild, run: Lineage)
      requires rb.tombstones <= records.Keys - rb.records.Keys
      modifies this
      ensures records == RecordsAfter(old(records), rb, run) && evidence == EvidenceAfter(old(evidence), rb)
      ensures revision == Some(Revision(run, rb.entityCount, rb.relationCount))
    {
      RemoveEvidence(set id | id in evidence && id.owner in rb.owners && id !in rb.kept);
      WritePlan(rb.records, rb.upserts, rb.tombstones, Revision(run, rb.entityCount, rb.relationCount));
    }

    /** Write the desired records that are not skipped, all their evidence, and retire the rest. */
    method ApplyScopePlan(desired: map<Owner, Record>, refs: map<RefId, Ref>, run: Lineage, full: bool)
      modifies this
      ensures var skipped := Skipped(old(records), old(evidence), old(revision), desired, refs, run, full);
        && records == ScopeRecords(old(records), desired, skipped, run)
        && evidence == ScopeEvidence(old(records), old(evidence), desired, refs, skipped)
      ensures revision == Some(Revision(run, |EntitiesIn(desired.Keys)|, |RelationsIn(desired.Keys)|))
    {
      var skipped := Skipped(records, evidence, revision, desired, refs, run, full);
      var tombstones := set w | w in records && records[w].live && w !in desired;
      var obsolete := set id | id in evidence && id !in refs && Cleanable(evidence[id].path)
        && ((id.owner in desired && id.owner !in skipped) || id.owner in tombstones
            || (id.owner in records && !records[id.owner].live));
      ScopeSteps(records, evidence, desired, refs, skipped, tombstones, obsolete);
      RemoveEvidence(obsolete);
      WritePlan(desired - skipped, refs, tombstones, Revision(run, |EntitiesIn(desired.Keys)|, |RelationsIn(desired.Keys)|));
    }
  }
}
