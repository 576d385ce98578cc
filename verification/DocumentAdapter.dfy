/** The adapter's methods: sync, recover and verified reads over a store and a directory of manifests. */
module DocumentAdapters {
  import opened Core
  import opened DocumentGraph
  import opened DocumentSnapshots
  import opened DocumentTables
  import opened DocumentReads
  import opened DocumentStores
  import opened DocumentHistories
  import opened LegacyMapping
  import opened ShadowProtocol

  /** Where the process dies, if it does. */
  datatype Crash = Never | BeforeUpdate | AfterTheUpdate | AfterTheRemoval | BeforePublishing

  datatype Ending = Ready(revision: nat) | Crashed | Refused(why: Refusal)

  /** The removal succeeds, and what it leaves can be read back. */
  predicate CanFinish(c: Option<Collection>, x: Setting, batch: Inventory) {
    RemovalSucceeds(c, x, batch) && ReadAll(AfterRemoval(c, x, batch), x).Ok?
  }

  /** Both commits succeed under the expected revision, and what they leave can be read back. */
  predicate CanCarry(c: Option<Collection>, x: Setting, records: Inventory, batch: Inventory, expected: nat) {
    && RevisionOf(c) == expected && UpdateSucceeds(c, x, records, batch)
    && CanFinish(AfterUpdate(c, x, records, batch), x, batch)
  }

  /** The run may start, and both its commits and the reading back go well. */
  predicate CanSync(w: World, x: Setting, batch: Inventory, expected: nat) {
    SyncStart(w, x, batch, expected).Ok? && CanCarry(w.c, x, StartFrom(w.manifests, expected), batch, expected)
  }

  /** The published mapping a run starts from. */
  function StartFrom(manifests: Manifests, expected: nat): Inventory {
    if expected != 0 && expected in manifests then manifests[expected].documents else map[]
  }

  /** The collection before a run, between its commits, and after both. */
  function Stages(c: Option<Collection>, x: Setting, records: Inventory, batch: Inventory): seq<Option<Collection>> {
    [c, AfterUpdate(c, x, records, batch), AfterRemoval(AfterUpdate(c, x, records, batch), x, batch)]
  }

  class VaultGraphDocumentAdapter {
    const store: GraphDocument
    const id: Id
    const x: Setting
    var manifests: Manifests
    ghost var offered: set<Inventory>

    constructor (store: GraphDocument, id: Id, x: Setting)
      requires store.db.Valid() && FindIn(store.db.collections, id) == None
      requires store.profile.digest == x.profile && store.limits == x.limits && !store.closed && DigestTells(x.digest)
      ensures Valid() && this.store == store && this.id == id && this.x == x
    {
      this.store, this.id, this.x, this.manifests, this.offered := store, id, x, map[], {};
    }

    function Stored(): Option<Collection>
      reads this, store.db
    {
      FindIn(store.db.collections, id)
    }

    ghost function State(): World
      reads this, store.db
    {
      World(Stored(), manifests, map[], offered)
    }

    ghost predicate Valid()
      reads this, store, store.db
    {
      && store.db.Valid() && !store.closed && store.profile.digest == x.profile && store.limits == x.limits
      && DigestTells(x.digest) && Invariant(State(), x)
    }

    function Recorded(expected: nat): Inventory
      reads this
    {
      StartFrom(manifests, expected)
    }

    method Begin(batch: Inventory, expected: nat) returns (r: Result<Session, Refusal>)
      requires Valid()
      ensures r == SyncStart(State(), x, batch, expected)
    {
      if expected == 0 {
        return Ok(Session(batch, 0, map[], false));
      }
      if expected !in manifests {
        return Err(Mapping);
      }
      var m := manifests[expected];
      if !SameExtractions(m.documents, batch, x.digest) {
        return Err(Mapping);
      }
      var read := store.Read(id, All, x.readLimits, x.size);
      if read.Err? {
        return Err(Store(read.error));
      }
      ReadsWhole(Stored(), x);
      if RevisionOf(Stored()) != expected || expected != m.revision || !MapsAll(read.value, m, x.digest) {
        return Err(Mapping);
      }
      return Ok(Session(batch, expected, RowsFor(m.documents, x.digest), false));
    }

    /** One commit of the store under the revision the session believes in. */
    method CommitCall(call: Call) returns (r: Result<Update, Error>)
      requires Valid() && AdapterCall(call, x) && call.limits == x.limits
      modifies store.db
      ensures Valid()
      ensures Stored() == Step(old(Stored()), call)
      ensures r.Ok? <==> Answer(old(Stored()), call).Ok?
      ensures r.Ok? ==> r.value.revision == RevisionOf(Stored())
    {
      ghost var was := State();
      r := store.Apply(id, call.expected, call.prepared, call.removals);
      StepStored(old(store.db.collections), id, call);
      CommitKeepsWorld(was, call, x);
      SummaryRevision(was.c, call);
    }

    /** Read back and publish the manifest of the current revision, unless the process dies before. */
    method Publish(batch: Inventory, crash: Crash) returns (r: Ending)
      requires Valid() && RowsOf(Stored()) == RowsFor(batch, x.digest) && WellFormedInventory(batch)
      modifies this`manifests, this`offered
      ensures Valid()
      ensures r.Ready? <==> ReadAll(Stored(), x).Ok? && crash != BeforePublishing
      ensures r.Refused? <==> ReadAll(Stored(), x).Err?
      ensures r.Crashed? ==> crash == BeforePublishing
      ensures r.Ready? ==> r.revision == RevisionOf(Stored()) > 0 && ShowsAt(r.revision, batch)
      ensures !r.Ready? ==> manifests == old(manifests)
    {
      var read := store.Read(id, All, x.readLimits, x.size);
      if read.Err? {
        return Refused(Store(read.error));
      }
      ReadsWhole(Stored(), x);
      var m := Manifest(RevisionOf(Stored()), read.value, batch);
      BatchMaps(RowsOf(Stored()), batch, m, x.digest);
      if !MapsAll(read.value, m, x.digest) {
        return Refused(Mapping);
      }
      if crash == BeforePublishing {
        return Crashed;
      }
      PublishKeepsWorld(State(), m, x);
      manifests := manifests[m.revision := m];
      offered := offered + {batch};
      return Ready(m.revision);
    }

    /** The manifest of the revision is there, describes the stored contributions, and lists the batch. */
    ghost predicate ShowsAt(revision: nat, batch: Inventory)
      reads this, store.db
    {
      && revision in manifests && manifests[revision].documents == batch
      && revision == RevisionOf(Stored()) && RowsOf(Stored()) == RowsFor(batch, x.digest)
    }

    /** Apply changed contributions, drop removed ones, then publish. `current` is what the metadata shows now. */
    method Sync(batch: Inventory, current: Inventory, expected: nat, crash: Crash) returns (r: Ending)
      requires Valid() && WellFormedInventory(batch)
      modifies this`manifests, this`offered, store.db
      ensures Valid()
      ensures r.Ready? && r.revision > 0 ==> ShowsAt(r.revision, batch)
      ensures r.Ready? && r.revision > 0 ==>
        Stored() == AfterRemoval(AfterUpdate(old(Stored()), x, old(Recorded(expected)), batch), x, batch)
      ensures r.Ready? && r.revision == 0 ==>
        batch == map[] && Stored() == old(Stored()) == None && manifests == old(manifests)[0 := EmptyManifest()]
      ensures r.Ready? <==>
        batch == current
        && if expected == 0 && batch == map[] then old(Stored()) == None
           else crash == Never && CanSync(old(State()), x, batch, expected)
      ensures r.Ready? <==>
        batch == current
        && if expected == 0 && batch == map[] then id !in old(store.db.collections)
           else crash == Never && StartsAndFits(old(State()), x, batch, expected)
      ensures r.Ready? && r.revision > 0 ==> r.revision == RevisionAfter(old(manifests), batch, expected)
      ensures r.Refused? ==> Stored() in Stages(old(Stored()), x, old(Recorded(expected)), batch)
      ensures batch == current && (expected > 0 || batch != map[]) && CanSync(old(State()), x, batch, expected) ==> !r.Refused?
      ensures !r.Ready? ==> manifests == old(manifests)
      ensures r == Crashed && crash == AfterTheUpdate ==>
        Stored() == AfterUpdate(old(Stored()), x, old(Recorded(expected)), batch)
      ensures r == Crashed && (crash == AfterTheRemoval || crash == BeforePublishing) ==>
        Stored() == AfterRemoval(AfterUpdate(old(Stored()), x, old(Recorded(expected)), batch), x, batch)
      ensures r == Crashed && crash == BeforeUpdate ==> Stored() == old(Stored())
    {
      if batch != current {
        return Refused(Mapping);
      }
      CanSyncExactly(State(), x, batch, expected);
      RunRevision(State(), x, batch, expected);
      if expected == 0 && batch == map[] {
        r := SyncEmpty();
        return;
      }
      var start := Begin(batch, expected);
      if start.Err? {
        return Refused(start.error);
      }
      if crash == BeforeUpdate {
        return Crashed;
      }
      r := Carry(batch, Recorded(expected), expected, crash);
    }

    /** The empty inventory of an absent collection is published at revision zero. */
    method SyncEmpty() returns (r: Ending)
      requires Valid()
      modifies this`manifests, this`offered
      ensures Valid()
      ensures r == Ready(0) || (r.Refused? && manifests == old(manifests))
      ensures r == Ready(0) <==> Stored() == None
      ensures r == Ready(0) ==> manifests == old(manifests)[0 := EmptyManifest()]
    {
      var read := store.Read(id, All, x.readLimits, x.size);
      if read != Err(UnknownCollection) {
        return Refused(Mapping);
      }
      UnknownIsAbsent(Stored(), x);
      EmptyKeepsWorld(State(), x);
      manifests := manifests[0 := EmptyManifest()];
      offered := offered + {map[]};
      return Ready(0);
    }

    /** The two commits of a run, and the publication. */
    method Carry(batch: Inventory, records: Inventory, expected: nat, crash: Crash) returns (r: Ending)
      requires Valid() && WellFormedInventory(batch) && SameExtractions(records, batch, x.digest)
      requires RevisionOf(Stored()) == expected ==> RowsOf(Stored()) == RowsFor(records, x.digest)
      requires expected != 0 ==> RevisionOf(Stored()) == expected
      requires expected == 0 ==> records == map[] && batch != map[]
      requires crash != BeforeUpdate
      modifies this`manifests, this`offered, store.db
      ensures Valid()
      ensures r.Ready? <==> crash == Never && CanCarry(old(Stored()), x, records, batch, expected)
      ensures r.Refused? ==> Stored() in Stages(old(Stored()), x, records, batch)
      ensures r.Refused? ==> !CanCarry(old(Stored()), x, records, batch, expected)
      ensures r.Crashed? ==> crash != Never
      ensures r.Ready? ==> r.revision > 0 && ShowsAt(r.revision, batch)
      ensures r.Ready? || (r == Crashed && crash != AfterTheUpdate) ==>
        Stored() == AfterRemoval(AfterUpdate(old(Stored()), x, records, batch), x, batch)
      ensures !r.Ready? ==> manifests == old(manifests)
      ensures r == Crashed && crash == AfterTheUpdate ==> Stored() == AfterUpdate(old(Stored()), x, records, batch)
    {
      ghost var c := Stored();
      var failure := WriteChanged(batch, records, expected);
      if failure.Some? {
        return Refused(Store(failure.value));
      }
      if crash == AfterTheUpdate {
        return Crashed;
      }
      CarriesOn(c, x, records, batch);
      r := Finish(batch, crash);
    }

    /** The removal and the publication. */
    method Finish(batch: Inventory, crash: Crash) returns (r: Ending)
      requires Valid() && WellFormedInventory(batch) && crash in {Never, AfterTheRemoval, BeforePublishing}
      requires RemovalSucceeds(Stored(), x, batch) ==> RowsOf(AfterRemoval(Stored(), x, batch)) == RowsFor(batch, x.digest)
      modifies this`manifests, this`offered, store.db
      ensures Valid()
      ensures r.Ready? <==> crash == Never && CanFinish(old(Stored()), x, batch)
      ensures r.Refused? ==> !CanFinish(old(Stored()), x, batch)
      ensures r.Crashed? ==> crash != Never
      ensures r.Refused? ==> Stored() == old(Stored()) || Stored() == AfterRemoval(old(Stored()), x, batch)
      ensures !r.Refused? ==> Stored() == AfterRemoval(old(Stored()), x, batch)
      ensures r.Ready? ==> r.revision > 0 && ShowsAt(r.revision, batch)
      ensures !r.Ready? ==> manifests == old(manifests)
    {
      var failure := DropRemoved(batch);
      if failure.Some? {
        return Refused(Store(failure.value));
      }
      if crash == AfterTheRemoval {
        return Crashed;
      }
      r := Publish(batch, crash);
    }

    method WriteChanged(batch: Inventory, records: Inventory, expected: nat) returns (failure: Option<Error>)
      requires Valid() && WellFormedInventory(batch)
      requires expected != 0 ==> RevisionOf(Stored()) == expected
      requires expected == 0 ==> records == map[] && batch != map[]
      modifies store.db
      ensures Valid()
      ensures failure.None? <==> RevisionOf(old(Stored())) == expected && UpdateSucceeds(old(Stored()), x, records, batch)
      ensures Stored() == if failure.None? then AfterUpdate(old(Stored()), x, records, batch) else old(Stored())
    {
      ghost var c := Stored();
      var changed := ChangedIn(records, batch);
      if expected == 0 {
        FirstRunChanges(records, batch);
      }
      if changed == {} {
        return None;
      }
      UpdateIsAdapterCall(x, expected, batch, changed);
      var update := CommitCall(UpdateCall(x, expected, batch, changed));
      AnswerIsRequested(c, UpdateCall(x, expected, batch, changed));
      return if update.Err? then Some(update.error) else None;
    }

    method DropRemoved(batch: Inventory) returns (failure: Option<Error>)
      requires Valid()
      modifies store.db
      ensures Valid()
      ensures failure.None? <==> RemovalSucceeds(old(Stored()), x, batch)
      ensures Stored() == if failure.None? then AfterRemoval(old(Stored()), x, batch) else old(Stored())
    {
      var removed := RowsOf(Stored()).Keys - batch.Keys;
      if removed == {} {
        return None;
      }
      RemoveIsAdapterCall(x, RevisionOf(Stored()), removed);
      var removal := CommitCall(RemoveCall(x, RevisionOf(Stored()), removed));
      return if removal.Err? then Some(removal.error) else None;
    }

    method BeginRecovery(batch: Inventory, expected: nat) returns (r: Result<Session, Refusal>)
      requires Valid()
      ensures r == RecoverStart(State(), x, batch, expected)
    {
      if expected < 1 {
        return Err(Mapping);
      }
      var read := store.Read(id, All, x.readLimits, x.size);
      if read.Err? {
        return Err(Store(read.error));
      }
      var rows := RowsOf(Stored());
      if RevisionOf(Stored()) != expected || !StoredAs(rows, batch, x.digest) {
        return Err(Mapping);
      }
      return Ok(Session(batch, expected, rows, false));
    }

    /** What a recovery still removes fits the limits, and the batch can be read back. */
    ghost predicate RecoveryFits(batch: Inventory)
      reads this, store.db
    {
      && ((exists d :: d in RowsOf(Stored()) && d !in batch) ==> Fits(x.limits, RowsFor(batch, x.digest))) && ReadFits(x, batch)
    }

    /** Republish a missing manifest after an interrupted run, finishing its removals. */
    method Recover(batch: Inventory, expected: nat) returns (r: Ending)
      requires Valid() && WellFormedInventory(batch)
      modifies this`manifests, this`offered, store.db
      ensures Valid()
      ensures r.Ready? <==>
        RecoverStart(old(State()), x, batch, expected).Ok? && CanFinish(old(Stored()), x, batch)
      ensures r.Ready? <==> MayRecover(old(Stored()), x, batch, expected) && old(RecoveryFits(batch))
      ensures r.Ready? ==> Stored() == AfterRemoval(old(Stored()), x, batch) && ShowsAt(r.revision, batch)
      ensures !r.Ready? ==> r.Refused? && manifests == old(manifests)
      ensures r.Refused? ==> Stored() == old(Stored()) || Stored() == AfterRemoval(old(Stored()), x, batch)
      ensures RecoverStart(old(State()), x, batch, expected).Err? ==> r.Refused? && Stored() == old(Stored())
    {
      RecoverStartsExactly(State(), x, batch, expected);
      var start := BeginRecovery(batch, expected);
      if start.Err? {
        return Refused(start.error);
      }
      RecoveryFitsExactly(Stored(), x, batch);
      RecoveryCarriesOn(Stored(), x, batch);
      r := Finish(batch, Never);
    }

    /** Read a selection with its mapping, or refuse. */
    method ReadVerified(s: Selection) returns (r: Result<Inventory, Refusal>)
      requires Valid()
      ensures r == Restore(Stored(), manifests, s, x)
      ensures r.Ok? <==>
        if id !in store.db.collections then 0 in manifests && (s.All? || s.ids == [])
        else store.db.collections[id].revision in manifests
             && CanRead(store.db.collections[id], x.profile, s, x.readLimits, x.size)
      ensures r.Ok? ==> exists inventory ::
        inventory in offered
        && RowsOf(Stored()) == RowsFor(inventory, x.digest) && r.value == Restricted(inventory, s)
    {
      RestoreExactly(State(), s, x);
      var read := store.Read(id, s, x.readLimits, x.size);
      if read == Err(UnknownCollection) {
        r := if 0 in manifests && manifests[0] == EmptyManifest() && (s.All? || s.ids == []) then Ok(map[]) else Err(Mapping);
      } else if read.Err? {
        r := Err(Store(read.error));
      } else if RevisionOf(Stored()) !in manifests || !Maps(read.value, manifests[RevisionOf(Stored())], s, x.digest) {
        r := Err(Mapping);
      } else {
        r := Ok(Restricted(manifests[RevisionOf(Stored())].documents, s));
      }
      if r.Ok? {
        RestoredWasSynced(State(), s, x);
      }
    }
  }

  // ---- When a run succeeds, told by what is stored and what fits ----

  ghost function RecordedAt(manifests: Manifests, expected: nat): Inventory {
    if expected != 0 && expected in manifests then manifests[expected].documents else map[]
  }

  /** The run may start on what is stored, and its commits and the reading back fit. */
  ghost predicate StartsAndFits(w: World, x: Setting, batch: Inventory, expected: nat) {
    && MayStart(w, x, batch, expected) && (expected == 0 ==> w.c.None?)
    && BatchFits(x, RecordedAt(w.manifests, expected), batch)
  }

  /** One revision more for each commit that has something to do. */
  ghost function RevisionAfter(manifests: Manifests, batch: Inventory, expected: nat): nat {
    var records := RecordedAt(manifests, expected);
    expected + (if HasChange(records, batch) then 1 else 0) + if HasRemoval(records, batch) then 1 else 0
  }

  lemma CanSyncExactly(w: World, x: Setting, batch: Inventory, expected: nat)
    requires Invariant(w, x) && DigestTells(x.digest) && WellFormedInventory(batch)
    ensures expected > 0 || batch != map[] ==> (CanSync(w, x, batch, expected) <==> StartsAndFits(w, x, batch, expected))
  {
    if expected == 0 && batch == map[] {
      return;
    }
    SyncStartsExactly(w, x, batch, expected);
    if MayStart(w, x, batch, expected) && RevisionOf(w.c) == expected {
      var records := RecordedAt(w.manifests, expected);
      StartRows(w, x, batch, expected);
      CanCarryExactly(w.c, x, records, batch, expected);
    }
  }

  lemma RunRevision(w: World, x: Setting, batch: Inventory, expected: nat)
    requires Invariant(w, x) && DigestTells(x.digest)
    ensures (expected > 0 || batch != map[]) && CanSync(w, x, batch, expected) ==>
      RevisionOf(AfterRemoval(AfterUpdate(w.c, x, StartFrom(w.manifests, expected), batch), x, batch))
        == RevisionAfter(w.manifests, batch, expected)
  {
    if (expected > 0 || batch != map[]) && CanSync(w, x, batch, expected) {
      SyncStartsExactly(w, x, batch, expected);
      StartRows(w, x, batch, expected);
      RevisionAfterRun(w.c, x, RecordedAt(w.manifests, expected), batch);
    }
  }

  lemma StartRows(w: World, x: Setting, batch: Inventory, expected: nat)
    requires Invariant(w, x) && MayStart(w, x, batch, expected) && RevisionOf(w.c) == expected
    ensures RowsOf(w.c) == RowsFor(RecordedAt(w.manifests, expected), x.digest)
    ensures SameExtractions(RecordedAt(w.manifests, expected), batch, x.digest)
    ensures w.c.Some? ==> w.c.value.profile == x.profile
    ensures w.c.None? <==> expected == 0
  {
    if expected != 0 {
      CurrentManifest(w, x);
      SameExtractionsMeans(w.manifests[expected].documents, batch, x.digest);
    }
  }

  lemma CanCarryExactly(c: Option<Collection>, x: Setting, records: Inventory, batch: Inventory, expected: nat)
    requires RowsOf(c) == RowsFor(records, x.digest) && SameExtractions(records, batch, x.digest) && DigestTells(x.digest)
    requires RevisionOf(c) == expected && (c.Some? ==> c.value.profile == x.profile) && (c.None? ==> batch != map[])
    ensures CanCarry(c, x, records, batch, expected) <==> BatchFits(x, records, batch)
  {
    UpdateSucceedsExactly(c, x, records, batch);
    if UpdateSucceeds(c, x, records, batch) {
      var updated := AfterUpdate(c, x, records, batch);
      UpdatedOverlay(c, x, records, batch);
      RemovalSucceedsExactly(updated, x, records, batch);
      if RemovalSucceeds(updated, x, batch) {
        var final := AfterRemoval(updated, x, batch);
        BothReached(c, x, records, batch);
        RemovalKeeps(updated, x, batch);
        ReadableExactly(final, x);
        ReadFitsExactly(final.value, x, batch);
      }
    }
  }

  /** A call never removes the collection or changes its profile; one that changes something leaves a collection. */
  lemma StepKeeps(c: Option<Collection>, call: Call)
    requires c.Some? ==> c.value.profile == call.profile
    ensures c.Some? || Wins(c, call) ==> Step(c, call).Some?
    ensures Step(c, call).Some? ==> Step(c, call).value.profile == call.profile
  {
  }

  lemma UpdatedOverlay(c: Option<Collection>, x: Setting, records: Inventory, batch: Inventory)
    requires RowsOf(c) == RowsFor(records, x.digest) && SameExtractions(records, batch, x.digest) && DigestTells(x.digest)
    requires UpdateSucceeds(c, x, records, batch) && (c.Some? ==> c.value.profile == x.profile) && (c.None? ==> batch != map[])
    ensures var updated := AfterUpdate(c, x, records, batch);
      && RowsOf(updated) == Overlay(records, batch, x.digest) && updated.Some? && updated.value.profile == x.profile
  {
    var changed := ChangedIn(records, batch);
    var call := UpdateCall(x, RevisionOf(c), batch, changed);
    UpdatedRows(c, x, records, batch);
    UpdateIsOverlay(records, batch, x.digest);
    StepKeeps(c, call);
    if c.None? {
      assert RowsOf(c) == map[] && RowsFor(records, x.digest).Keys == records.Keys;
      assert records == map[];
      FirstRunChanges(records, batch);
      var d :| d in batch;
      assert d in Overlay(records, batch, x.digest);
    }
  }

  lemma RemovalKeeps(c: Option<Collection>, x: Setting, batch: Inventory)
    requires c.Some? && c.value.profile == x.profile
    ensures AfterRemoval(c, x, batch).Some? && AfterRemoval(c, x, batch).value.profile == x.profile
  {
    StepKeeps(c, RemoveCall(x, RevisionOf(c), RowsOf(c).Keys - batch.Keys));
  }

  lemma ReadFitsExactly(c: Collection, x: Setting, batch: Inventory)
    requires c.contributions == RowsFor(batch, x.digest) && c.profile == x.profile
    ensures CanRead(c, x.profile, All, x.readLimits, x.size) <==> ReadFits(x, batch)
  {
    PickedAll(c.contributions);
  }

  lemma RecoveryFitsExactly(c: Option<Collection>, x: Setting, batch: Inventory)
    requires DigestTells(x.digest) && FromItems(RowsOf(c), x.digest) && StoredAs(RowsOf(c), batch, x.digest)
    requires c.Some? && c.value.profile == x.profile
    ensures CanFinish(c, x, batch) <==>
      ((exists d :: d in RowsOf(c) && d !in batch) ==> Fits(x.limits, RowsFor(batch, x.digest))) && ReadFits(x, batch)
  {
    RecoveryRemoval(c, x, batch);
    if RemovalSucceeds(c, x, batch) {
      RecoveryReaches(c, x, batch);
      RemovalKeeps(c, x, batch);
      ReadableExactly(AfterRemoval(c, x, batch), x);
      ReadFitsExactly(AfterRemoval(c, x, batch).value, x, batch);
    }
  }

  lemma RecoveryRemoval(c: Option<Collection>, x: Setting, batch: Inventory)
    requires DigestTells(x.digest) && FromItems(RowsOf(c), x.digest) && StoredAs(RowsOf(c), batch, x.digest)
    requires c.Some? && c.value.profile == x.profile
    ensures RemovalSucceeds(c, x, batch) <==>
      ((exists d :: d in RowsOf(c) && d !in batch) ==> Fits(x.limits, RowsFor(batch, x.digest)))
  {
    var removed := RowsOf(c).Keys - batch.Keys;
    if removed != {} {
      var d :| d in removed;
      assert d in RowsOf(c) && d !in batch;
      StoredRows(RowsOf(c), batch, x.digest);
      Meet(RowsOf(c), RowsOf(c), RowsFor(batch, x.digest), {}, Ascending(removed));
      NothingDropped(RowsOf(c));
      FitsExactly(x.limits, RowsFor(batch, x.digest));
      CallFits(c, RemoveCall(x, RevisionOf(c), removed));
    } else {
      forall d | d in RowsOf(c) ensures d in batch {
        assert d !in removed;
      }
    }
  }

  /** A successful run moves the revision by one for each commit that had something to do. */
  lemma RevisionAfterRun(c: Option<Collection>, x: Setting, records: Inventory, batch: Inventory)
    requires RowsOf(c) == RowsFor(records, x.digest) && SameExtractions(records, batch, x.digest) && DigestTells(x.digest)
    requires UpdateSucceeds(c, x, records, batch) && RemovalSucceeds(AfterUpdate(c, x, records, batch), x, batch)
    requires (c.Some? ==> c.value.profile == x.profile) && (c.None? ==> batch != map[])
    ensures RevisionOf(AfterRemoval(AfterUpdate(c, x, records, batch), x, batch))
      == RevisionOf(c) + (if HasChange(records, batch) then 1 else 0) + if HasRemoval(records, batch) then 1 else 0
  {
    UpdatedOverlay(c, x, records, batch);
    UpdateRevision(c, x, records, batch);
    OverlayRemovals(records, batch, x.digest);
    RemovalRevision(AfterUpdate(c, x, records, batch), x, batch);
    ChangesMean(records, batch);
  }

  lemma OverlayRemovals(records: Inventory, batch: Inventory, digest: Item -> Id)
    ensures Overlay(records, batch, digest).Keys - batch.Keys == RemovedIn(records, batch)
  {
  }

  lemma UpdateRevision(c: Option<Collection>, x: Setting, records: Inventory, batch: Inventory)
    requires RowsOf(c) == RowsFor(records, x.digest) && UpdateSucceeds(c, x, records, batch)
    requires RowsOf(AfterUpdate(c, x, records, batch)) == Overlay(records, batch, x.digest)
    ensures RevisionOf(AfterUpdate(c, x, records, batch)) == RevisionOf(c) + if HasChange(records, batch) then 1 else 0
  {
    ChangesMean(records, batch);
    if HasChange(records, batch) {
      var call := UpdateCall(x, RevisionOf(c), batch, ChangedIn(records, batch));
      AnswerIsRequested(c, call);
      OneCall(c, call);
      ChangeShows(records, batch, x.digest);
    }
  }

  lemma RemovalRevision(c: Option<Collection>, x: Setting, batch: Inventory)
    requires RemovalSucceeds(c, x, batch)
    ensures RevisionOf(AfterRemoval(c, x, batch)) == RevisionOf(c) + if RowsOf(c).Keys - batch.Keys != {} then 1 else 0
  {
    var removed := RowsOf(c).Keys - batch.Keys;
    if removed != {} {
      var call := RemoveCall(x, RevisionOf(c), removed);
      AnswerIsRequested(c, call);
      OneCall(c, call);
      NothingDropped(RowsOf(c));
      var d :| d in removed;
      assert d in RowsOf(c) && d !in Kept(RowsOf(c), Ascending(removed));
    }
  }

  lemma ChangeShows(records: Inventory, batch: Inventory, digest: Item -> Id)
    requires HasChange(records, batch)
    ensures Overlay(records, batch, digest) != RowsFor(records, digest)
  {
    var d :| d in batch && (d !in records || records[d].input != batch[d].input);
    if d in records {
      assert Overlay(records, batch, digest)[d].inputDigest != RowsFor(records, digest)[d].inputDigest;
    } else {
      assert d in Overlay(records, batch, digest) && d !in RowsFor(records, digest);
    }
  }

  lemma CommitKeepsWorld(w: World, call: Call, x: Setting)
    requires Invariant(w, x) && w.sessions == map[] && AdapterCall(call, x)
    ensures Invariant(w.(c := Step(w.c, call)), x)
  {
    CommitKeepsSound(w.c, call, x);
    CommitMovesOn(w.c, call);
  }

  lemma PublishKeepsWorld(w: World, m: Manifest, x: Setting)
    requires Invariant(w, x) && w.sessions == map[] && WellFormedInventory(m.documents)
    requires m.revision == RevisionOf(w.c) && Describes(m, w.c, x)
    ensures Invariant(w.(manifests := w.manifests[m.revision := m], offered := w.offered + {m.documents}), x)
  {
  }

  lemma EmptyKeepsWorld(w: World, x: Setting)
    requires Invariant(w, x) && w.sessions == map[]
    ensures Invariant(w.(manifests := w.manifests[0 := EmptyManifest()], offered := w.offered + {map[]}), x)
  {
    EmptyKeeps(w, w.(manifests := w.manifests[0 := EmptyManifest()], offered := w.offered + {map[]}), x);
  }

  lemma UnknownIsAbsent(c: Option<Collection>, x: Setting)
    ensures ReadAll(c, x) == Err(UnknownCollection) <==> c == None
  {
  }

  /** What a run leaves always passes its own mapping check. */
  lemma BatchMaps(rows: Rows, batch: Inventory, m: Manifest, digest: Item -> Id)
    requires WellFormedInventory(batch) && rows == RowsFor(batch, digest)
    ensures m.read == Recomputed(rows) && m.documents == batch ==> MapsAll(Recomputed(rows), m, digest)
  {
    RecomputedIsMapped(batch, digest);
  }

  lemma UpdateIsAdapterCall(x: Setting, revision: nat, batch: Inventory, changed: set<Id>)
    requires WellFormedInventory(batch) && changed <= batch.Keys
    ensures AdapterCall(UpdateCall(x, revision, batch, changed), x)
  {
    var ids := Ascending(changed);
    ListedIsValid(batch, ids, x.digest);
    forall i | 0 <= i < |ids| ensures FromItem(RowOf(ids[i], batch[ids[i]], x.digest), x.digest) {
      assert ids[i] in batch && WellFormedItem(batch[ids[i]]);
    }
  }

  lemma RemoveIsAdapterCall(x: Setting, revision: nat, removed: set<Id>)
    ensures AdapterCall(RemoveCall(x, revision, removed), x)
  {
  }

  lemma FirstRunChanges(records: Inventory, batch: Inventory)
    requires records == map[] && batch != map[]
    ensures ChangedIn(records, batch) != {}
  {
    var d :| d in batch;
    assert d in ChangedIn(records, batch);
  }

  lemma CarriesOn(c: Option<Collection>, x: Setting, records: Inventory, batch: Inventory)
    requires RowsOf(c) == RowsFor(records, x.digest) && SameExtractions(records, batch, x.digest)
    requires DigestTells(x.digest) && UpdateSucceeds(c, x, records, batch)
    ensures var after := AfterUpdate(c, x, records, batch);
      RemovalSucceeds(after, x, batch) ==> RowsOf(AfterRemoval(after, x, batch)) == RowsFor(batch, x.digest)
  {
    if RemovalSucceeds(AfterUpdate(c, x, records, batch), x, batch) {
      BothReached(c, x, records, batch);
    }
  }

  lemma RecoveryCarriesOn(c: Option<Collection>, x: Setting, batch: Inventory)
    requires DigestTells(x.digest) && FromItems(RowsOf(c), x.digest) && StoredAs(RowsOf(c), batch, x.digest)
    ensures RemovalSucceeds(c, x, batch) ==> RowsOf(AfterRemoval(c, x, batch)) == RowsFor(batch, x.digest)
  {
    if RemovalSucceeds(c, x, batch) {
      RecoveryReaches(c, x, batch);
    }
  }

  lemma BothReached(c: Option<Collection>, x: Setting, records: Inventory, batch: Inventory)
    requires RowsOf(c) == RowsFor(records, x.digest) && SameExtractions(records, batch, x.digest)
    requires DigestTells(x.digest) && UpdateSucceeds(c, x, records, batch)
    requires RemovalSucceeds(AfterUpdate(c, x, records, batch), x, batch)
    ensures RowsOf(AfterRemoval(AfterUpdate(c, x, records, batch), x, batch)) == RowsFor(batch, x.digest)
  {
    UpdateStores(c, x, records, batch);
    RemovalReaches(c, AfterUpdate(c, x, records, batch), x, records, batch);
  }

  /** What recovery leaves is the supplied inventory. */
  lemma RecoveryReaches(c: Option<Collection>, x: Setting, batch: Inventory)
    requires DigestTells(x.digest) && FromItems(RowsOf(c), x.digest) && StoredAs(RowsOf(c), batch, x.digest)
    requires RemovalSucceeds(c, x, batch)
    ensures RowsOf(AfterRemoval(c, x, batch)) == RowsFor(batch, x.digest)
  {
    var removed := RowsOf(c).Keys - batch.Keys;
    StoredRows(RowsOf(c), batch, x.digest);
    RemovalRows(c, x, batch, removed);
    Meet(RowsOf(c), RowsOf(c), RowsFor(batch, x.digest), {}, Ascending(removed));
  }

  lemma StoredRows(rows: Rows, batch: Inventory, digest: Item -> Id)
    requires DigestTells(digest) && FromItems(rows, digest) && StoredAs(rows, batch, digest)
    ensures forall d :: d in RowsFor(batch, digest) ==> d in rows && rows[d] == RowsFor(batch, digest)[d]
  {
    forall d | d in batch ensures d in rows && rows[d] == RowOf(d, batch[d], digest) {
      SameInfoSameRow(rows[d], batch[d], digest);
    }
  }

  /** A whole read is the graph of all stored contributions. */
  lemma ReadsWhole(c: Option<Collection>, x: Setting)
    ensures ReadAll(c, x).Ok? ==> ReadAll(c, x).value == Recomputed(RowsOf(c))
  {
    if c.Some? {
      assert Chosen(c.value.contributions, All) == c.value.contributions;
    }
  }

  lemma StepStored(collections: map<Id, Collection>, id: Id, call: Call)
    ensures var c := FindIn(collections, id);
      FindIn(After(collections, id, call.profile, Answer(c, call)), id) == Step(c, call)
  {
  }

  lemma SummaryRevision(c: Option<Collection>, call: Call)
    ensures Answer(c, call).Ok? ==>
      ResultOf(c, Answer(c, call), call.prepared).value.revision == RevisionOf(Step(c, call))
  {
  }
}
