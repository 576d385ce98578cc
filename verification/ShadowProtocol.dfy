/** Commit, then publish: how a synced inventory becomes readable, and why a crash in between cannot mislead a reader. */
module ShadowProtocol {
  import opened Core
  import opened DocumentGraph
  import opened DocumentSnapshots
  import opened DocumentTables
  import opened DocumentReads
  import opened DocumentStores
  import opened DocumentHistories
  import opened LegacyMapping

  // ---- Fixed surroundings ----

  /** The profile and limits of the adapter and the digest of an extraction. */
  datatype Setting = Setting(profile: Id, limits: Limits, readLimits: ReadLimits, size: Graph -> nat, digest: Item -> Id)

  /** Different occurrences have different extraction digests. */
  ghost predicate DigestTells(digest: Item -> Id) {
    forall a: Item, b: Item :: digest(a) == digest(b) ==> a.entities == b.entities && a.relations == b.relations
  }

  /** The published mapping of one revision; `read` stands for the digest of the graph that was read back. */
  datatype Manifest = Manifest(revision: nat, read: Graph, documents: Inventory)
  type Manifests = map<nat, Manifest>

  function EmptyManifest(): Manifest {
    Manifest(0, Recomputed(map[]), map[])
  }

  datatype Refusal = Mapping | Store(error: Error)

  // ---- Batches of documents ----

  function Ascending(ids: set<Id>): (s: seq<Id>)
    ensures forall d :: d in s <==> d in ids
    ensures Distinct(s)
    decreases ids
  {
    if ids == {} then [] else [Least(ids)] + Ascending(ids - {Least(ids)})
  }

  function RowsListed(inventory: Inventory, ids: seq<Id>, digest: Item -> Id): seq<Row>
    requires forall d :: d in ids ==> d in inventory
  {
    seq(|ids|, i requires 0 <= i < |ids| => RowOf(ids[i], inventory[ids[i]], digest))
  }

  lemma ListedIsValid(inventory: Inventory, ids: seq<Id>, digest: Item -> Id)
    requires WellFormedInventory(inventory) && Distinct(ids) && forall d :: d in ids ==> d in inventory
    ensures ValidBatch(RowsListed(inventory, ids, digest))
  {
    forall i | 0 <= i < |ids| ensures ValidRow(RowOf(ids[i], inventory[ids[i]], digest)) {
      assert ids[i] in inventory;
      RowIsValid(ids[i], inventory[ids[i]], digest);
    }
  }

  lemma PutLast(was: Rows, prepared: seq<Row>, row: Row)
    ensures Put(was, prepared + [row]) == Put(was, prepared)[row.document := row]
  {
    assert (prepared + [row])[..|prepared|] == prepared;
  }

  lemma {:induction false} PutListed(was: Rows, inventory: Inventory, ids: seq<Id>, digest: Item -> Id)
    requires forall d :: d in ids ==> d in inventory
    ensures forall d :: d in Put(was, RowsListed(inventory, ids, digest)) <==> d in was || d in ids
    ensures forall d :: d in Put(was, RowsListed(inventory, ids, digest)) ==>
      Put(was, RowsListed(inventory, ids, digest))[d] == if d in ids then RowOf(d, inventory[d], digest) else was[d]
  {
    if ids != [] {
      var front, last := ids[..|ids| - 1], ids[|ids| - 1];
      assert ids == front + [last];
      PutListed(was, inventory, front, digest);
      assert RowsListed(inventory, ids, digest) == RowsListed(inventory, front, digest) + [RowOf(last, inventory[last], digest)];
      PutLast(was, RowsListed(inventory, front, digest), RowOf(last, inventory[last], digest));
    }
  }

  // ---- What a batch changes ----

  function ChangedIn(records: Inventory, batch: Inventory): set<Id> {
    set d | d in batch && (d !in records || records[d].input != batch[d].input)
  }

  function RemovedIn(records: Inventory, batch: Inventory): set<Id> {
    records.Keys - batch.Keys
  }

  /** Unchanged inputs must give unchanged extractions. */
  predicate SameExtractions(records: Inventory, batch: Inventory, digest: Item -> Id) {
    forall d | d in batch && d in records && records[d].input == batch[d].input :: digest(records[d]) == digest(batch[d])
  }

  function UpdateCall(x: Setting, revision: nat, batch: Inventory, changed: set<Id>): Call
    requires changed <= batch.Keys
  {
    Call(x.profile, x.limits, revision, RowsListed(batch, Ascending(changed), x.digest), [])
  }

  function RemoveCall(x: Setting, revision: nat, removed: set<Id>): Call {
    Call(x.profile, x.limits, revision, [], Ascending(removed))
  }

  /** Writing the changed documents and dropping the removed ones turns the recorded inventory into the batch. */
  lemma BatchReached(records: Inventory, batch: Inventory, digest: Item -> Id)
    requires SameExtractions(records, batch, digest) && DigestTells(digest)
    ensures var updated := Requested(RowsFor(records, digest), RowsListed(batch, Ascending(ChangedIn(records, batch)), digest), []);
      Requested(updated, [], Ascending(RemovedIn(records, batch))) == RowsFor(batch, digest)
  {
    var was, wanted, changed := RowsFor(records, digest), RowsFor(batch, digest), ChangedIn(records, batch);
    var updated := Put(was, RowsListed(batch, Ascending(changed), digest));
    PutListed(was, batch, Ascending(changed), digest);
    UnchangedAgree(records, batch, digest);
    NothingDropped(updated);
    Meet(was, updated, wanted, changed, Ascending(RemovedIn(records, batch)));
  }

  lemma NothingDropped(rows: Rows)
    ensures Kept(rows, []) == rows && Put(rows, []) == rows
  {
  }

  lemma Meet(was: Rows, updated: Rows, wanted: Rows, changed: set<Id>, removed: seq<Id>)
    requires forall d :: d in updated <==> d in was || d in changed
    requires forall d :: d in updated ==> if d in changed then d in wanted && updated[d] == wanted[d] else updated[d] == was[d]
    requires changed <= wanted.Keys && forall d :: d in wanted && d !in changed ==> d in was && was[d] == wanted[d]
    requires forall d :: d in removed <==> d in was && d !in wanted
    ensures Kept(updated, removed) == wanted
  {
  }

  lemma UnchangedAgree(records: Inventory, batch: Inventory, digest: Item -> Id)
    requires SameExtractions(records, batch, digest) && DigestTells(digest)
    ensures forall d :: d in batch && d !in ChangedIn(records, batch) ==> d in records && records[d] == batch[d]
  {
    forall d | d in batch && d !in ChangedIn(records, batch) ensures d in records && records[d] == batch[d] {
      assert digest(records[d]) == digest(batch[d]);
    }
  }

  // ---- Sessions ----

  /**
   * One client's run of `sync` or `recover`: the inventory it was given, the contributions it believes are stored, and
   * the revision it believes they are stored at. A ready session has seen that they are those of its batch.
   */
  datatype Session = Session(batch: Inventory, revision: nat, content: Rows, ready: bool)

  datatype World = World(c: Option<Collection>, manifests: Manifests, sessions: map<Id, Session>, offered: set<Inventory>)

  /** What a session believes is true as long as nobody has committed since. */
  ghost predicate Informed(s: Session, c: Option<Collection>, x: Setting) {
    && s.revision <= RevisionOf(c)
    && (RevisionOf(c) == s.revision ==> RowsOf(c) == s.content)
    && (s.ready ==> s.content == RowsFor(s.batch, x.digest))
    && WellFormedInventory(s.batch)
  }

  /** A manifest of the current revision describes what is stored. */
  ghost predicate Describes(m: Manifest, c: Option<Collection>, x: Setting) {
    RowsOf(c) == RowsFor(m.documents, x.digest) && m.read == Recomputed(RowsOf(c))
  }

  /** The row was made from the occurrences of some document. */
  ghost predicate FromItem(row: Row, digest: Item -> Id) {
    exists item :: WellFormedItem(item) && row == RowOf(row.document, item, digest)
  }

  ghost predicate FromItems(rows: Rows, digest: Item -> Id) {
    forall d :: d in rows ==> rows[d].document == d && FromItem(rows[d], digest)
  }

  ghost predicate Sound(c: Option<Collection>, x: Setting) {
    && FromItems(RowsOf(c), x.digest)
    && (c.Some? ==> Consistent(c.value) && c.value.revision > 0 && c.value.profile == x.profile)
  }

  /** The calls an adapter makes. */
  ghost predicate AdapterCall(call: Call, x: Setting) {
    && ValidCall(call) && call.profile == x.profile
    && forall i :: 0 <= i < |call.prepared| ==> FromItem(call.prepared[i], x.digest)
  }

  ghost predicate Invariant(w: World, x: Setting) {
    && Sound(w.c, x)
    && (forall k :: k in w.manifests ==>
          k <= RevisionOf(w.c) && w.manifests[k].revision == k
          && w.manifests[k].documents in w.offered && WellFormedInventory(w.manifests[k].documents))
    && (RevisionOf(w.c) in w.manifests ==> DescribesAt(w, x))
    && (forall id :: id in w.sessions ==> Informed(w.sessions[id], w.c, x) && w.sessions[id].batch in w.offered)
  }

  ghost predicate DescribesAt(w: World, x: Setting)
    requires RevisionOf(w.c) in w.manifests
  {
    Describes(w.manifests[RevisionOf(w.c)], w.c, x)
  }

  // ---- The atomic steps ----

  /** What a reader finds: the revision and the verified graph. */
  function ReadAll(c: Option<Collection>, x: Setting): Result<Graph, Error> {
    ReadOutcome(c, x.profile, All, x.readLimits, x.size)
  }

  /** `sync` up to its first commit: from an empty start or from a published, still valid manifest. */
  function SyncStart(w: World, x: Setting, batch: Inventory, expected: nat): Result<Session, Refusal> {
    if expected == 0 then Ok(Session(batch, 0, map[], false))
    else if expected !in w.manifests then Err(Mapping)
    else
      var m := w.manifests[expected];
      if !SameExtractions(m.documents, batch, x.digest) then Err(Mapping)
      else if ReadAll(w.c, x).Err? then Err(Store(ReadAll(w.c, x).error))
      else if RevisionOf(w.c) != expected || !Validated(w.c, m, x) then Err(Mapping)
      else Ok(Session(batch, expected, RowsFor(m.documents, x.digest), false))
  }

  /** `_validate_mapping` of a full read against a manifest. */
  predicate Validated(c: Option<Collection>, m: Manifest, x: Setting) {
    RevisionOf(c) == m.revision && MapsAll(Recomputed(RowsOf(c)), m, x.digest)
  }

  predicate MapsAll(g: Graph, m: Manifest, digest: Item -> Id) {
    g == m.read && g.documents == Documents(RowsFor(m.documents, digest)) && Mapped(g, m.documents)
  }

  /** `recover` up to its commit: every supplied document is stored exactly as supplied. */
  function RecoverStart(w: World, x: Setting, batch: Inventory, expected: nat): Result<Session, Refusal> {
    if expected < 1 then Err(Mapping)
    else if ReadAll(w.c, x).Err? then Err(Store(ReadAll(w.c, x).error))
    else if RevisionOf(w.c) != expected || !StoredAs(RowsOf(w.c), batch, x.digest) then Err(Mapping)
    else Ok(Session(batch, expected, RowsOf(w.c), false))
  }

  predicate StoredAs(rows: Rows, batch: Inventory, digest: Item -> Id) {
    forall d | d in batch :: d in rows && InfoOf(rows[d]) == InfoOf(RowOf(d, batch[d], digest))
  }

  /** A commit of a session: under the revision it believes is current. */
  function Committing(s: Session, c: Option<Collection>, call: Call): Option<Session> {
    if Answer(c, call).Err? then None
    else Some(Session(s.batch, RevisionOf(Step(c, call)), Requested(s.content, call.prepared, call.removals), false))
  }

  /** Reading back after the commits: the graph must be at the session's revision and map to its batch. */
  function ReadBack(s: Session, c: Option<Collection>, x: Setting): Result<Session, Refusal> {
    if ReadAll(c, x).Err? then Err(Store(ReadAll(c, x).error))
    else if !Validated(c, Manifest(s.revision, Recomputed(RowsOf(c)), s.batch), x) then Err(Mapping)
    else Ok(s.(content := RowsOf(c), ready := true))
  }

  function Published(s: Session): Manifest {
    Manifest(s.revision, Recomputed(s.content), s.batch)
  }

  // ---- Why the steps keep the invariant ----

  /** A commit either changes nothing or moves to a later revision. */
  lemma CommitMovesOn(c: Option<Collection>, call: Call)
    ensures RevisionOf(Step(c, call)) >= RevisionOf(c)
    ensures RevisionOf(Step(c, call)) == RevisionOf(c) ==> Step(c, call) == c
  {
    OneCall(c, call);
  }

  lemma OthersStayInformed(s: Session, c: Option<Collection>, call: Call, x: Setting)
    requires Informed(s, c, x)
    ensures Informed(s, Step(c, call), x)
  {
    CommitMovesOn(c, call);
  }

  lemma CommitterIsInformed(s: Session, c: Option<Collection>, call: Call, x: Setting)
    requires Informed(s, c, x) && call.expected == s.revision && Committing(s, c, call).Some?
    ensures Informed(Committing(s, c, call).value, Step(c, call), x)
  {
    AnswerIsRequested(c, call);
    OneCall(c, call);
  }

  lemma CommitKeepsSound(c: Option<Collection>, call: Call, x: Setting)
    requires Sound(c, x) && AdapterCall(call, x)
    ensures Sound(Step(c, call), x)
  {
    StepKeepsConsistent(c, call);
    CommitMovesOn(c, call);
    OneCall(c, call);
    RequestedFromItems(RowsOf(c), call.prepared, call.removals, x.digest);
  }

  lemma {:induction false} PutFromItems(was: Rows, prepared: seq<Row>, digest: Item -> Id)
    requires FromItems(was, digest)
    requires forall i :: 0 <= i < |prepared| ==> FromItem(prepared[i], digest)
    ensures FromItems(Put(was, prepared), digest)
  {
    if prepared != [] {
      var front := prepared[..|prepared| - 1];
      assert forall i :: 0 <= i < |front| ==> front[i] == prepared[i];
      PutFromItems(was, front, digest);
    }
  }

  lemma RequestedFromItems(was: Rows, prepared: seq<Row>, removals: seq<Id>, digest: Item -> Id)
    requires FromItems(was, digest)
    requires forall i :: 0 <= i < |prepared| ==> FromItem(prepared[i], digest)
    ensures FromItems(Requested(was, prepared, removals), digest)
  {
    PutFromItems(was, prepared, digest);
  }

  /** Documents that agree in their digests are the same documents. */
  lemma SameInfoSameItem(d: Id, a: Item, b: Item, digest: Item -> Id)
    requires DigestTells(digest) && InfoOf(RowOf(d, a, digest)) == InfoOf(RowOf(d, b, digest))
    ensures a == b
  {
    assert digest(a) == digest(b);
  }

  /** Stored rows with the digests of a batch are the rows of that batch. */
  lemma SameDocumentsSameRows(rows: Rows, batch: Inventory, digest: Item -> Id)
    requires DigestTells(digest) && FromItems(rows, digest) && Documents(rows) == Documents(RowsFor(batch, digest))
    ensures rows == RowsFor(batch, digest)
  {
    assert rows.Keys == Documents(rows).Keys == RowsFor(batch, digest).Keys;
    forall d | d in rows ensures rows[d] == RowOf(d, batch[d], digest) {
      assert Documents(rows)[d] == Documents(RowsFor(batch, digest))[d];
      SameInfoSameRow(rows[d], batch[d], digest);
    }
  }

  lemma SameInfoSameRow(row: Row, item: Item, digest: Item -> Id)
    requires DigestTells(digest) && FromItem(row, digest) && InfoOf(row) == InfoOf(RowOf(row.document, item, digest))
    ensures row == RowOf(row.document, item, digest)
  {
    var source :| WellFormedItem(source) && row == RowOf(row.document, source, digest);
    SameInfoSameItem(row.document, source, item, digest);
  }

  lemma ReaderIsInformed(s: Session, c: Option<Collection>, x: Setting)
    requires Informed(s, c, x) && Sound(c, x) && DigestTells(x.digest) && ReadBack(s, c, x).Ok?
    ensures Informed(ReadBack(s, c, x).value, c, x) && RevisionOf(c) == s.revision
  {
    SameDocumentsSameRows(RowsOf(c), s.batch, x.digest);
  }

  lemma StartIsInformed(w: World, x: Setting, batch: Inventory, expected: nat)
    requires Invariant(w, x) && WellFormedInventory(batch)
    ensures SyncStart(w, x, batch, expected).Ok? ==> Informed(SyncStart(w, x, batch, expected).value, w.c, x)
    ensures RecoverStart(w, x, batch, expected).Ok? ==> Informed(RecoverStart(w, x, batch, expected).value, w.c, x)
  {
    if SyncStart(w, x, batch, expected).Ok? {
      SyncStartIsInformed(w, x, batch, expected);
    }
  }

  lemma SyncStartIsInformed(w: World, x: Setting, batch: Inventory, expected: nat)
    requires Invariant(w, x) && WellFormedInventory(batch) && SyncStart(w, x, batch, expected).Ok?
    ensures Informed(SyncStart(w, x, batch, expected).value, w.c, x)
  {
    if expected != 0 {
      CurrentManifest(w, x);
    }
  }

  // ---- Every run of every number of clients ----

  ghost predicate Opens(w: World, v: World, x: Setting, id: Id, batch: Inventory, expected: nat, s: Session) {
    && WellFormedInventory(batch)
    && (SyncStart(w, x, batch, expected) == Ok(s) || RecoverStart(w, x, batch, expected) == Ok(s))
    && v == w.(sessions := w.sessions[id := s], offered := w.offered + {batch})
  }

  ghost predicate Commits(w: World, v: World, x: Setting, id: Id, call: Call) {
    && id in w.sessions && AdapterCall(call, x) && call.expected == w.sessions[id].revision
    && Committing(w.sessions[id], w.c, call).Some?
    && v == w.(c := Step(w.c, call), sessions := w.sessions[id := Committing(w.sessions[id], w.c, call).value])
  }

  ghost predicate Reads(w: World, v: World, x: Setting, id: Id) {
    && id in w.sessions && ReadBack(w.sessions[id], w.c, x).Ok?
    && v == w.(sessions := w.sessions[id := ReadBack(w.sessions[id], w.c, x).value])
  }

  ghost predicate Publishes(w: World, v: World, id: Id) {
    && id in w.sessions && w.sessions[id].ready
    && v == w.(manifests := w.manifests[w.sessions[id].revision := Published(w.sessions[id])])
  }

  /** The empty inventory at revision zero is published without a commit. */
  ghost predicate PublishesEmpty(w: World, v: World) {
    v == w.(manifests := w.manifests[0 := EmptyManifest()], offered := w.offered + {map[]})
  }

  ghost predicate Crashes(w: World, v: World, id: Id) {
    v == w.(sessions := w.sessions - {id})
  }

  ghost predicate Next(w: World, v: World, x: Setting) {
    || (exists id, batch, expected, s :: Opens(w, v, x, id, batch, expected, s))
    || (exists id, call :: Commits(w, v, x, id, call))
    || (exists id :: Reads(w, v, x, id))
    || (exists id :: Publishes(w, v, id))
    || PublishesEmpty(w, v)
    || (exists id :: Crashes(w, v, id))
  }

  lemma CommitKeeps(w: World, v: World, x: Setting, id: Id, call: Call)
    requires Invariant(w, x) && Commits(w, v, x, id, call)
    ensures Invariant(v, x)
  {
    CommitKeepsSound(w.c, call, x);
    CommitMovesOn(w.c, call);
    forall k | k in v.sessions ensures Informed(v.sessions[k], v.c, x) && v.sessions[k].batch in v.offered {
      if k == id {
        CommitterIsInformed(w.sessions[id], w.c, call, x);
      } else {
        OthersStayInformed(w.sessions[k], w.c, call, x);
      }
    }
  }

  lemma OpenKeeps(w: World, v: World, x: Setting, id: Id, batch: Inventory, expected: nat, s: Session)
    requires Invariant(w, x) && Opens(w, v, x, id, batch, expected, s)
    ensures Invariant(v, x)
  {
    StartIsInformed(w, x, batch, expected);
  }

  lemma ReadKeeps(w: World, v: World, x: Setting, id: Id)
    requires Invariant(w, x) && DigestTells(x.digest) && Reads(w, v, x, id)
    ensures Invariant(v, x)
  {
    ReaderIsInformed(w.sessions[id], w.c, x);
  }

  lemma CrashKeeps(w: World, v: World, x: Setting, id: Id)
    requires Invariant(w, x) && Crashes(w, v, id)
    ensures Invariant(v, x)
  {
  }

  lemma PublishKeeps(w: World, v: World, x: Setting, id: Id)
    requires Invariant(w, x) && Publishes(w, v, id)
    ensures Invariant(v, x)
  {
    assert Informed(w.sessions[id], w.c, x);
  }

  lemma EmptyKeeps(w: World, v: World, x: Setting)
    requires Invariant(w, x) && PublishesEmpty(w, v)
    ensures Invariant(v, x)
  {
    if RevisionOf(v.c) == 0 {
      assert RowsOf(v.c) == map[] == RowsFor(map[], x.digest);
    }
  }

  /** No step of any client, crash or no crash, breaks the invariant. */
  lemma NextKeeps(w: World, v: World, x: Setting)
    requires Invariant(w, x) && DigestTells(x.digest) && Next(w, v, x)
    ensures Invariant(v, x)
  {
    if id, batch, expected, s :| Opens(w, v, x, id, batch, expected, s) {
      OpenKeeps(w, v, x, id, batch, expected, s);
    } else if id, call :| Commits(w, v, x, id, call) {
      CommitKeeps(w, v, x, id, call);
    } else if id :| Reads(w, v, x, id) {
      ReadKeeps(w, v, x, id);
    } else if id :| Publishes(w, v, id) {
      PublishKeeps(w, v, x, id);
    } else if PublishesEmpty(w, v) {
      EmptyKeeps(w, v, x);
    } else {
      var id :| Crashes(w, v, id);
      CrashKeeps(w, v, x, id);
    }
  }

  ghost predicate History(ws: seq<World>, x: Setting) {
    && ws != [] && ws[0] == World(None, map[], map[], {})
    && forall i :: NextAt(ws, x, i)
  }

  ghost predicate NextAt(ws: seq<World>, x: Setting, i: int) {
    0 <= i < |ws| - 1 ==> Next(ws[i], ws[i + 1], x)
  }

  lemma HistoryPrefix(ws: seq<World>, x: Setting)
    requires History(ws, x) && |ws| > 1
    ensures History(ws[..|ws| - 1], x) && Next(ws[|ws| - 2], ws[|ws| - 1], x)
  {
    var front := ws[..|ws| - 1];
    forall i ensures NextAt(front, x, i) {
      assert NextAt(ws, x, i);
    }
    assert NextAt(ws, x, |ws| - 2);
  }

  lemma StartInvariant(w: World, x: Setting)
    requires w == World(None, map[], map[], {})
    ensures Invariant(w, x)
  {
  }

  lemma {:induction false} AlwaysInvariant(ws: seq<World>, x: Setting)
    requires History(ws, x) && DigestTells(x.digest)
    ensures Invariant(ws[|ws| - 1], x)
    decreases |ws|
  {
    if |ws| > 1 {
      HistoryPrefix(ws, x);
      AlwaysInvariant(ws[..|ws| - 1], x);
      NextKeeps(ws[|ws| - 2], ws[|ws| - 1], x);
    } else {
      StartInvariant(ws[0], x);
    }
  }

  // ---- Restoring ----

  function Restricted(inventory: Inventory, s: Selection): Inventory {
    map d | d in inventory && Selects(s, d) :: inventory[d]
  }

  /** `_validate_mapping` of any read against the manifest of its revision. */
  predicate Maps(g: Graph, m: Manifest, s: Selection, digest: Item -> Id) {
    && (s.All? ==> g == m.read)
    && g.documents == Documents(RowsFor(Restricted(m.documents, s), digest))
    && Mapped(g, Restricted(m.documents, s))
  }

  /** Restore the selected documents' occurrences, or refuse. */
  function Restore(c: Option<Collection>, manifests: Manifests, s: Selection, x: Setting): Result<Inventory, Refusal> {
    var outcome := ReadOutcome(c, x.profile, s, x.readLimits, x.size);
    if outcome == Err(UnknownCollection) then
      if 0 in manifests && manifests[0] == EmptyManifest() && (s.All? || s.ids == []) then Ok(map[]) else Err(Mapping)
    else if outcome.Err? then Err(Store(outcome.error))
    else if RevisionOf(c) !in manifests || !Maps(outcome.value, manifests[RevisionOf(c)], s, x.digest) then Err(Mapping)
    else Ok(Restricted(manifests[RevisionOf(c)].documents, s))
  }

  /** What is restored is the selection of one inventory that was synced whole, and that inventory is what is stored. */
  lemma RestoredWasSynced(w: World, s: Selection, x: Setting)
    requires Invariant(w, x) && Restore(w.c, w.manifests, s, x).Ok?
    ensures exists inventory ::
      inventory in w.offered && RowsOf(w.c) == RowsFor(inventory, x.digest)
      && Restore(w.c, w.manifests, s, x).value == Restricted(inventory, s)
  {
    RestoreReads(w.c, w.manifests, s, x);
    CurrentManifest(w, x);
    var inventory := w.manifests[RevisionOf(w.c)].documents;
    assert inventory in w.offered && RowsOf(w.c) == RowsFor(inventory, x.digest);
  }

  /** A restore that succeeds shows the selection of the current revision's manifest. */
  lemma RestoreReads(c: Option<Collection>, manifests: Manifests, s: Selection, x: Setting)
    requires Restore(c, manifests, s, x).Ok?
    ensures RevisionOf(c) in manifests
    ensures Restore(c, manifests, s, x).value == Restricted(manifests[RevisionOf(c)].documents, s)
  {
    assert Restricted(map[], s) == map[];
  }

  lemma CurrentManifest(w: World, x: Setting)
    requires Invariant(w, x) && RevisionOf(w.c) in w.manifests
    ensures var m := w.manifests[RevisionOf(w.c)];
      && m.documents in w.offered && WellFormedInventory(m.documents) && RowsOf(w.c) == RowsFor(m.documents, x.digest)
      && m.read == Recomputed(RowsOf(w.c))
  {
    assert DescribesAt(w, x);
  }

  lemma ChosenFromInventory(inventory: Inventory, s: Selection, digest: Item -> Id)
    ensures Chosen(RowsFor(inventory, digest), s) == RowsFor(Restricted(inventory, s), digest)
  {
  }

  /** A published revision is always restored: a readable selection is never refused by the mapping check. */
  lemma PublishedIsRestored(w: World, s: Selection, x: Setting)
    requires Invariant(w, x) && w.c.Some? && RevisionOf(w.c) in w.manifests
    requires ReadOutcome(w.c, x.profile, s, x.readLimits, x.size).Ok?
    ensures Restore(w.c, w.manifests, s, x).Ok?
  {
    CurrentManifest(w, x);
    PublishedMaps(w.c.value.contributions, w.manifests[RevisionOf(w.c)], s, x.digest);
  }

  lemma PublishedMaps(rows: Rows, m: Manifest, s: Selection, digest: Item -> Id)
    requires WellFormedInventory(m.documents) && rows == RowsFor(m.documents, digest) && m.read == Recomputed(rows)
    ensures Maps(Recomputed(Chosen(rows, s)), m, s, digest)
  {
    var chosen := RowsFor(Restricted(m.documents, s), digest);
    ChosenFromInventory(m.documents, s, digest);
    RestrictedIsWellFormed(m.documents, s);
    RecomputedIsMapped(Restricted(m.documents, s), digest);
    assert Chosen(rows, s) == chosen && Recomputed(chosen).documents == Documents(chosen);
    AllChosen(rows, s);
  }

  lemma RestrictedIsWellFormed(inventory: Inventory, s: Selection)
    requires WellFormedInventory(inventory)
    ensures WellFormedInventory(Restricted(inventory, s))
  {
  }

  lemma AllChosen(rows: Rows, s: Selection)
    ensures s.All? ==> Chosen(rows, s) == rows
  {
  }

  // ---- Recovery ends where the uninterrupted run would have ----

  /** The collection after the update of a run from the recorded inventory. */
  function AfterUpdate(c: Option<Collection>, x: Setting, records: Inventory, batch: Inventory): Option<Collection> {
    if ChangedIn(records, batch) == {} then c
    else Step(c, UpdateCall(x, RevisionOf(c), batch, ChangedIn(records, batch)))
  }

  /** The collection after dropping every document that is not in the batch. */
  function AfterRemoval(c: Option<Collection>, x: Setting, batch: Inventory): Option<Collection> {
    var removed := RowsOf(c).Keys - batch.Keys;
    if removed == {} then c else Step(c, RemoveCall(x, RevisionOf(c), removed))
  }

  predicate UpdateSucceeds(c: Option<Collection>, x: Setting, records: Inventory, batch: Inventory) {
    ChangedIn(records, batch) == {} || Answer(c, UpdateCall(x, RevisionOf(c), batch, ChangedIn(records, batch))).Ok?
  }

  predicate RemovalSucceeds(c: Option<Collection>, x: Setting, batch: Inventory) {
    var removed := RowsOf(c).Keys - batch.Keys;
    removed == {} || Answer(c, RemoveCall(x, RevisionOf(c), removed)).Ok?
  }

  /** After the update the batch is stored as supplied, and what a run would remove is what is not in the batch. */
  lemma UpdateStores(c: Option<Collection>, x: Setting, records: Inventory, batch: Inventory)
    requires RowsOf(c) == RowsFor(records, x.digest) && SameExtractions(records, batch, x.digest)
    requires DigestTells(x.digest) && UpdateSucceeds(c, x, records, batch)
    ensures var after := AfterUpdate(c, x, records, batch);
      StoredAs(RowsOf(after), batch, x.digest) && RowsOf(after).Keys == records.Keys + batch.Keys
  {
    UpdatedRows(c, x, records, batch);
    OverlayStores(RowsOf(c), records, batch, x.digest);
  }

  lemma OverlayStores(was: Rows, records: Inventory, batch: Inventory, digest: Item -> Id)
    requires was == RowsFor(records, digest) && SameExtractions(records, batch, digest) && DigestTells(digest)
    ensures var updated := Put(was, RowsListed(batch, Ascending(ChangedIn(records, batch)), digest));
      StoredAs(updated, batch, digest) && updated.Keys == records.Keys + batch.Keys
  {
    var changed := ChangedIn(records, batch);
    var updated := Put(was, RowsListed(batch, Ascending(changed), digest));
    ListedOverlay(was, batch, changed, digest);
    UnchangedRows(records, batch, digest);
    Overlaid(was, updated, RowsFor(batch, digest), changed);
    AllStored(updated, batch, digest);
  }

  lemma ListedOverlay(was: Rows, batch: Inventory, changed: set<Id>, digest: Item -> Id)
    requires changed <= batch.Keys
    ensures var updated, wanted := Put(was, RowsListed(batch, Ascending(changed), digest)), RowsFor(batch, digest);
      && (forall d :: d in updated <==> d in was || d in changed)
      && (forall d :: d in updated ==>
            if d in changed then d in wanted && updated[d] == wanted[d] else updated[d] == was[d])
  {
    PutListed(was, batch, Ascending(changed), digest);
  }

  lemma UnchangedRows(records: Inventory, batch: Inventory, digest: Item -> Id)
    requires SameExtractions(records, batch, digest) && DigestTells(digest)
    ensures var was, wanted := RowsFor(records, digest), RowsFor(batch, digest);
      && ChangedIn(records, batch) <= wanted.Keys && was.Keys + wanted.Keys == records.Keys + batch.Keys
      && forall d :: d in wanted && d !in ChangedIn(records, batch) ==> d in was && was[d] == wanted[d]
  {
    UnchangedAgree(records, batch, digest);
  }

  lemma Overlaid(was: Rows, updated: Rows, wanted: Rows, changed: set<Id>)
    requires forall d :: d in updated <==> d in was || d in changed
    requires forall d :: d in updated ==> if d in changed then d in wanted && updated[d] == wanted[d] else updated[d] == was[d]
    requires changed <= wanted.Keys && forall d :: d in wanted && d !in changed ==> d in was && was[d] == wanted[d]
    ensures updated.Keys == was.Keys + wanted.Keys
    ensures forall d :: d in wanted ==> d in updated && updated[d] == wanted[d]
  {
  }

  lemma AllStored(rows: Rows, batch: Inventory, digest: Item -> Id)
    requires forall d :: d in RowsFor(batch, digest) ==> d in rows && rows[d] == RowsFor(batch, digest)[d]
    ensures StoredAs(rows, batch, digest)
  {
  }

  lemma UpdatedRows(c: Option<Collection>, x: Setting, records: Inventory, batch: Inventory)
    requires UpdateSucceeds(c, x, records, batch)
    ensures RowsOf(AfterUpdate(c, x, records, batch))
         == Put(RowsOf(c), RowsListed(batch, Ascending(ChangedIn(records, batch)), x.digest))
  {
    var changed := ChangedIn(records, batch);
    NothingDropped(Put(RowsOf(c), RowsListed(batch, Ascending(changed), x.digest)));
    if changed != {} {
      var call := UpdateCall(x, RevisionOf(c), batch, changed);
      AnswerIsRequested(c, call);
      OneCall(c, call);
    } else {
      assert RowsListed(batch, Ascending(changed), x.digest) == [];
    }
  }

  /** A crash before the update: recovery accepts what is stored exactly when there was nothing to write. */
  lemma RecoverBeforeUpdate(c: Option<Collection>, x: Setting, records: Inventory, batch: Inventory)
    requires RowsOf(c) == RowsFor(records, x.digest) && SameExtractions(records, batch, x.digest)
    ensures StoredAs(RowsOf(c), batch, x.digest) <==> ChangedIn(records, batch) == {}
  {
    var changed := ChangedIn(records, batch);
    if changed == {} {
      forall d | d in batch ensures d in records && records[d].input == batch[d].input {
        assert d !in changed;
      }
    } else {
      var d :| d in changed;
      assert d in batch;
    }
  }

  /** A crash after the update: recovering with the same batch commits exactly the removal that was still to come. */
  lemma RecoverAfterUpdate(c: Option<Collection>, x: Setting, records: Inventory, batch: Inventory)
    requires RowsOf(c) == RowsFor(records, x.digest) && SameExtractions(records, batch, x.digest)
    requires DigestTells(x.digest) && UpdateSucceeds(c, x, records, batch)
    ensures var crashed := AfterUpdate(c, x, records, batch);
      && StoredAs(RowsOf(crashed), batch, x.digest)
      && RowsOf(crashed).Keys - batch.Keys == RemovedIn(records, batch)
      && AfterRemoval(crashed, x, batch)
         == if RemovedIn(records, batch) == {} then crashed
            else Step(crashed, RemoveCall(x, RevisionOf(crashed), RemovedIn(records, batch)))
  {
    UpdateStores(c, x, records, batch);
  }

  /** A crash after the removal: recovery has nothing left to commit and stays at the same revision and documents. */
  lemma RecoverAfterRemoval(c: Option<Collection>, x: Setting, records: Inventory, batch: Inventory)
    requires RowsOf(c) == RowsFor(records, x.digest) && SameExtractions(records, batch, x.digest)
    requires DigestTells(x.digest) && UpdateSucceeds(c, x, records, batch)
    requires RemovalSucceeds(AfterUpdate(c, x, records, batch), x, batch)
    ensures var crashed := AfterRemoval(AfterUpdate(c, x, records, batch), x, batch);
      RowsOf(crashed) == RowsFor(batch, x.digest) && StoredAs(RowsOf(crashed), batch, x.digest)
      && AfterRemoval(crashed, x, batch) == crashed
  {
    var updated := AfterUpdate(c, x, records, batch);
    UpdateStores(c, x, records, batch);
    RemovalReaches(c, updated, x, records, batch);
    NothingToRemove(AfterRemoval(updated, x, batch), x, batch);
  }

  lemma NothingToRemove(c: Option<Collection>, x: Setting, batch: Inventory)
    requires RowsOf(c) == RowsFor(batch, x.digest)
    ensures StoredAs(RowsOf(c), batch, x.digest) && AfterRemoval(c, x, batch) == c
  {
  }

  lemma RemovalReaches(c: Option<Collection>, updated: Option<Collection>, x: Setting, records: Inventory, batch: Inventory)
    requires updated == AfterUpdate(c, x, records, batch) && UpdateSucceeds(c, x, records, batch)
    requires RowsOf(c) == RowsFor(records, x.digest) && SameExtractions(records, batch, x.digest) && DigestTells(x.digest)
    requires RowsOf(updated).Keys == records.Keys + batch.Keys && RemovalSucceeds(updated, x, batch)
    ensures RowsOf(AfterRemoval(updated, x, batch)) == RowsFor(batch, x.digest)
  {
    var removed := RowsOf(updated).Keys - batch.Keys;
    assert removed == RemovedIn(records, batch);
    UpdatedRows(c, x, records, batch);
    BatchReached(records, batch, x.digest);
    NothingDropped(RowsOf(updated));
    RemovalRows(updated, x, batch, removed);
  }

  lemma RemovalRows(c: Option<Collection>, x: Setting, batch: Inventory, removed: set<Id>)
    requires removed == RowsOf(c).Keys - batch.Keys && RemovalSucceeds(c, x, batch)
    ensures RowsOf(AfterRemoval(c, x, batch)) == Kept(RowsOf(c), Ascending(removed))
  {
    NothingDropped(RowsOf(c));
    if removed != {} {
      var call := RemoveCall(x, RevisionOf(c), removed);
      AnswerIsRequested(c, call);
      OneCall(c, call);
    }
  }

  // ---- When a run starts and succeeds, told by what is stored ----

  /** The whole collection can be read within the limits. */
  ghost predicate Readable(c: Option<Collection>, x: Setting) {
    c.Some? && CanRead(c.value, x.profile, All, x.readLimits, x.size)
  }

  /**
   * A run may start on an absent collection, or at the stored revision when that has a manifest, the documents recorded
   * there with the same input have the same extraction, and the collection can be read.
   */
  ghost predicate MayStart(w: World, x: Setting, batch: Inventory, expected: nat) {
    || expected == 0
    || (w.c.Some? && expected == w.c.value.revision && expected in w.manifests && Readable(w.c, x)
        && forall d :: d in batch && d in w.manifests[expected].documents && w.manifests[expected].documents[d].input == batch[d].input
             ==> x.digest(w.manifests[expected].documents[d]) == x.digest(batch[d]))
  }

  lemma SyncStartsExactly(w: World, x: Setting, batch: Inventory, expected: nat)
    requires Invariant(w, x)
    ensures SyncStart(w, x, batch, expected).Ok? <==> MayStart(w, x, batch, expected)
  {
    if expected != 0 && expected in w.manifests {
      ReadableExactly(w.c, x);
      SameExtractionsMeans(w.manifests[expected].documents, batch, x.digest);
      if RevisionOf(w.c) == expected {
        CurrentIsValidated(w, x);
      }
    }
  }

  lemma SameExtractionsMeans(records: Inventory, batch: Inventory, digest: Item -> Id)
    ensures SameExtractions(records, batch, digest) <==>
      forall d :: d in batch && d in records && records[d].input == batch[d].input ==> digest(records[d]) == digest(batch[d])
  {
  }

  /** The manifest of the current revision passes the mapping check of a full read. */
  lemma CurrentIsValidated(w: World, x: Setting)
    requires Invariant(w, x) && RevisionOf(w.c) in w.manifests
    ensures Validated(w.c, w.manifests[RevisionOf(w.c)], x)
  {
    CurrentManifest(w, x);
    RecomputedIsMapped(w.manifests[RevisionOf(w.c)].documents, x.digest);
  }

  /**
   * A selection is restored exactly when the current revision has a manifest and the selection can be read; of an absent
   * collection only the whole or the empty selection, once the empty inventory was published.
   */
  lemma RestoreExactly(w: World, s: Selection, x: Setting)
    requires Invariant(w, x)
    ensures Restore(w.c, w.manifests, s, x).Ok? <==>
      if w.c.None? then 0 in w.manifests && (s.All? || s.ids == [])
      else w.c.value.revision in w.manifests && CanRead(w.c.value, x.profile, s, x.readLimits, x.size)
  {
    OutcomeReads(w.c, x.profile, s, x.readLimits, x.size);
    if w.c.None? {
      if 0 in w.manifests { EmptyIsPublished(w, x); }
    } else if w.c.value.revision in w.manifests && CanRead(w.c.value, x.profile, s, x.readLimits, x.size) {
      PublishedIsRestored(w, s, x);
    }
  }

  lemma EmptyIsPublished(w: World, x: Setting)
    requires Invariant(w, x) && w.c.None? && 0 in w.manifests
    ensures w.manifests[0] == EmptyManifest()
  {
    CurrentManifest(w, x);
    var m := w.manifests[0];
    assert RowsFor(m.documents, x.digest).Keys == m.documents.Keys;
  }

  lemma ReadableExactly(c: Option<Collection>, x: Setting)
    ensures ReadAll(c, x).Ok? <==> Readable(c, x)
  {
    OutcomeReads(c, x.profile, All, x.readLimits, x.size);
  }

  /** A recovery starts at the stored revision when every document of the batch is stored with its input and extraction. */
  ghost predicate MayRecover(c: Option<Collection>, x: Setting, batch: Inventory, expected: nat) {
    && c.Some? && 0 < expected == c.value.revision && Readable(c, x)
    && forall d :: d in batch ==>
         && d in c.value.contributions && c.value.contributions[d].inputDigest == batch[d].input
         && c.value.contributions[d].extractionDigest == x.digest(batch[d])
  }

  lemma RecoverStartsExactly(w: World, x: Setting, batch: Inventory, expected: nat)
    requires Invariant(w, x)
    ensures RecoverStart(w, x, batch, expected).Ok? <==> MayRecover(w.c, x, batch, expected)
  {
    ReadableExactly(w.c, x);
    StoredAsMeans(RowsOf(w.c), batch, x.digest);
  }

  lemma StoredAsMeans(rows: Rows, batch: Inventory, digest: Item -> Id)
    requires FromItems(rows, digest)
    ensures StoredAs(rows, batch, digest) <==>
      forall d :: d in batch ==> d in rows && rows[d].inputDigest == batch[d].input && rows[d].extractionDigest == digest(batch[d])
  {
    forall d | d in batch && d in rows
      ensures InfoOf(rows[d]) == InfoOf(RowOf(d, batch[d], digest)) <==>
        rows[d].inputDigest == batch[d].input && rows[d].extractionDigest == digest(batch[d])
    {
      InfoMeans(rows[d], d, batch[d], digest);
    }
  }

  lemma InfoMeans(row: Row, d: Id, item: Item, digest: Item -> Id)
    requires FromItem(row, digest)
    ensures InfoOf(row) == InfoOf(RowOf(d, item, digest)) <==>
      row.inputDigest == item.input && row.extractionDigest == digest(item)
  {
    var source :| WellFormedItem(source) && row == RowOf(row.document, source, digest);
  }

  /** The documents of a read are those of the inventory, with their inputs and extractions. */
  ghost predicate AreListed(documents: map<Id, Info>, inventory: Inventory, digest: Item -> Id) {
    && (forall d :: d in documents <==> d in inventory)
    && forall d :: d in documents ==>
      documents[d] == Info(inventory[d].input, inventory[d].input, digest(inventory[d]), Some(inventory[d].input))
  }

  /** What the mapping check accepts of a whole read, and of any. */
  lemma MapsExactly(g: Graph, m: Manifest, s: Selection, digest: Item -> Id)
    ensures MapsAll(g, m, digest) <==> g == m.read && AreListed(g.documents, m.documents, digest) && Mapped(g, m.documents)
    ensures Maps(g, m, s, digest) <==>
      && (s == All ==> g == m.read) && AreListed(g.documents, Restricted(m.documents, s), digest)
      && Mapped(g, Restricted(m.documents, s))
  {
    ListedExactly(g.documents, m.documents, digest);
    ListedExactly(g.documents, Restricted(m.documents, s), digest);
  }

  lemma ListedExactly(documents: map<Id, Info>, inventory: Inventory, digest: Item -> Id)
    ensures AreListed(documents, inventory, digest) <==> documents == Documents(RowsFor(inventory, digest))
  {
    var expected := Documents(RowsFor(inventory, digest));
    assert forall d :: d in expected <==> d in inventory;
  }

  /** Reading back succeeds when the read fits and shows the batch at the session's revision. */
  lemma ReadBackExactly(s: Session, c: Option<Collection>, x: Setting)
    ensures ReadBack(s, c, x).Ok? <==>
      Readable(c, x) && c.value.revision == s.revision
      && AreListed(Documents(c.value.contributions), s.batch, x.digest) && Mapped(Recomputed(c.value.contributions), s.batch)
  {
    ReadableExactly(c, x);
    if c.Some? {
      var g := Recomputed(c.value.contributions);
      MapsExactly(g, Manifest(s.revision, g, s.batch), All, x.digest);
    }
  }

  /** After a crash between the commits, or after both, a recovery with the same batch starts as soon as the read fits. */
  lemma CrashedRunsCanRecover(w: World, v: World, x: Setting, records: Inventory, batch: Inventory)
    requires Invariant(w, x) && Invariant(v, x) && DigestTells(x.digest)
    requires RowsOf(w.c) == RowsFor(records, x.digest) && SameExtractions(records, batch, x.digest) && UpdateSucceeds(w.c, x, records, batch)
    requires
      || v.c == AfterUpdate(w.c, x, records, batch)
      || (RemovalSucceeds(AfterUpdate(w.c, x, records, batch), x, batch) && v.c == AfterRemoval(AfterUpdate(w.c, x, records, batch), x, batch))
    requires v.c.Some?
    ensures RecoverStart(v, x, batch, v.c.value.revision).Ok? <==> Readable(v.c, x)
  {
    if v.c == AfterUpdate(w.c, x, records, batch) {
      UpdateRecovers(w.c, v.c, x, records, batch);
    } else {
      RemovalRecovers(w.c, v.c, x, records, batch);
    }
    StoredRecovers(v, x, batch);
  }

  lemma UpdateRecovers(c: Option<Collection>, after: Option<Collection>, x: Setting, records: Inventory, batch: Inventory)
    requires RowsOf(c) == RowsFor(records, x.digest) && SameExtractions(records, batch, x.digest)
    requires DigestTells(x.digest) && UpdateSucceeds(c, x, records, batch) && after == AfterUpdate(c, x, records, batch)
    ensures StoredAs(RowsOf(after), batch, x.digest)
  {
    RecoverAfterUpdate(c, x, records, batch);
  }

  lemma RemovalRecovers(c: Option<Collection>, after: Option<Collection>, x: Setting, records: Inventory, batch: Inventory)
    requires RowsOf(c) == RowsFor(records, x.digest) && SameExtractions(records, batch, x.digest)
    requires DigestTells(x.digest) && UpdateSucceeds(c, x, records, batch)
    requires RemovalSucceeds(AfterUpdate(c, x, records, batch), x, batch)
    requires after == AfterRemoval(AfterUpdate(c, x, records, batch), x, batch)
    ensures StoredAs(RowsOf(after), batch, x.digest)
  {
    RecoverAfterRemoval(c, x, records, batch);
  }

  lemma StoredRecovers(v: World, x: Setting, batch: Inventory)
    requires Invariant(v, x) && v.c.Some? && StoredAs(RowsOf(v.c), batch, x.digest)
    ensures RecoverStart(v, x, batch, v.c.value.revision).Ok? <==> Readable(v.c, x)
  {
    ReadableExactly(v.c, x);
  }

  /** The recorded documents with those of the batch put over them. */
  ghost function Overlay(records: Inventory, batch: Inventory, digest: Item -> Id): Rows {
    map d | d in records.Keys + batch.Keys :: if d in batch then RowOf(d, batch[d], digest) else RowOf(d, records[d], digest)
  }

  ghost predicate Fits(limits: Limits, rows: Rows) {
    |Nodes(rows)| <= limits.nodes && |Edges(rows)| <= limits.edges && |AllEvidence(rows)| <= limits.evidence
  }

  /** The documents of the batch can be read as a whole. */
  ghost predicate ReadFits(x: Setting, batch: Inventory) {
    var rows := RowsFor(batch, x.digest);
    |rows| <= x.readLimits.documents && Fits(x.readLimits.graph, rows) && x.size(Recomputed(rows)) <= x.readLimits.bytes
  }

  /** Each commit that has something to do fits the store's limits, and the batch can be read back. */
  ghost predicate BatchFits(x: Setting, records: Inventory, batch: Inventory) {
    && (HasChange(records, batch) ==> Fits(x.limits, Overlay(records, batch, x.digest)))
    && (HasRemoval(records, batch) ==> Fits(x.limits, RowsFor(batch, x.digest)))
    && ReadFits(x, batch)
  }

  lemma UpdateIsOverlay(records: Inventory, batch: Inventory, digest: Item -> Id)
    requires SameExtractions(records, batch, digest) && DigestTells(digest)
    ensures Put(RowsFor(records, digest), RowsListed(batch, Ascending(ChangedIn(records, batch)), digest))
      == Overlay(records, batch, digest)
  {
    var changed := ChangedIn(records, batch);
    var was, wanted := RowsFor(records, digest), RowsFor(batch, digest);
    ListedOverlay(was, batch, changed, digest);
    UnchangedRows(records, batch, digest);
    OverlayIs(was, Put(was, RowsListed(batch, Ascending(changed), digest)), wanted, changed, Overlay(records, batch, digest));
  }

  lemma OverlayIs(was: Rows, updated: Rows, wanted: Rows, changed: set<Id>, over: Rows)
    requires forall d :: d in updated <==> d in was || d in changed
    requires forall d :: d in updated ==> if d in changed then d in wanted && updated[d] == wanted[d] else updated[d] == was[d]
    requires changed <= wanted.Keys && forall d :: d in wanted && d !in changed ==> d in was && was[d] == wanted[d]
    requires over.Keys == was.Keys + wanted.Keys && forall d :: d in over ==> over[d] == if d in wanted then wanted[d] else was[d]
    ensures updated == over
  {
  }

  /** Changed documents have another input than the stored ones, so none of them clashes. */
  lemma ChangedDoNotClash(records: Inventory, batch: Inventory, digest: Item -> Id)
    ensures FirstConflict(RowsFor(records, digest), RowsListed(batch, Ascending(ChangedIn(records, batch)), digest)).None?
  {
    var changed := ChangedIn(records, batch);
    var prepared := RowsListed(batch, Ascending(changed), digest);
    forall row | row in prepared ensures !Clashes(RowsFor(records, digest), row) {
      var i :| 0 <= i < |prepared| && prepared[i] == row;
      assert Ascending(changed)[i] in changed;
    }
    NoConflict(RowsFor(records, digest), prepared);
  }

  lemma FitsExactly(limits: Limits, rows: Rows)
    ensures Fits(limits, rows) <==> !GraphOver(limits, Recomputed(rows))
  {
    NodeCount(rows);
  }

  /** Something of the batch is new or has another input. */
  ghost predicate HasChange(records: Inventory, batch: Inventory) {
    exists d :: d in batch && (d !in records || records[d].input != batch[d].input)
  }

  ghost predicate HasRemoval(records: Inventory, batch: Inventory) {
    exists d :: d in records && d !in batch
  }

  lemma ChangesMean(records: Inventory, batch: Inventory)
    ensures ChangedIn(records, batch) != {} <==> HasChange(records, batch)
    ensures RemovedIn(records, batch) != {} <==> HasRemoval(records, batch)
  {
    if ChangedIn(records, batch) != {} { var d :| d in ChangedIn(records, batch); }
    if d :| d in batch && (d !in records || records[d].input != batch[d].input) { assert d in ChangedIn(records, batch); }
    if RemovedIn(records, batch) != {} { var d :| d in RemovedIn(records, batch); }
    if d :| d in records && d !in batch { assert d in RemovedIn(records, batch); }
  }

  lemma UpdateSucceedsExactly(c: Option<Collection>, x: Setting, records: Inventory, batch: Inventory)
    requires RowsOf(c) == RowsFor(records, x.digest) && SameExtractions(records, batch, x.digest) && DigestTells(x.digest)
    requires c.Some? ==> c.value.profile == x.profile
    ensures UpdateSucceeds(c, x, records, batch) <==>
      (HasChange(records, batch) ==> Fits(x.limits, Overlay(records, batch, x.digest)))
  {
    ChangesMean(records, batch);
    ChangedDoNotClash(records, batch, x.digest);
    UpdateIsOverlay(records, batch, x.digest);
    NothingDropped(Overlay(records, batch, x.digest));
    FitsExactly(x.limits, Overlay(records, batch, x.digest));
    CallFits(c, UpdateCall(x, RevisionOf(c), batch, ChangedIn(records, batch)));
  }

  /** A call at the stored revision without a clash succeeds exactly when the graph it asks for fits. */
  lemma CallFits(c: Option<Collection>, call: Call)
    requires call.expected == RevisionOf(c) && (c.Some? ==> c.value.profile == call.profile)
    requires c.Some? || call.removals == []
    requires FirstConflict(RowsOf(c), call.prepared).None?
    ensures Answer(c, call).Ok? <==> !GraphOver(call.limits, Recomputed(Requested(RowsOf(c), call.prepared, call.removals)))
  {
  }

  lemma RemovalSucceedsExactly(c: Option<Collection>, x: Setting, records: Inventory, batch: Inventory)
    requires RowsOf(c) == Overlay(records, batch, x.digest) && (c.Some? ==> c.value.profile == x.profile)
    ensures RemovalSucceeds(c, x, batch) <==> (HasRemoval(records, batch) ==> Fits(x.limits, RowsFor(batch, x.digest)))
  {
    var removed := RemovedIn(records, batch);
    assert RowsOf(c).Keys - batch.Keys == removed;
    ChangesMean(records, batch);
    NothingDropped(RowsOf(c));
    OverlayDropped(records, batch, x.digest, Ascending(removed));
    FitsExactly(x.limits, RowsFor(batch, x.digest));
    if removed != {} {
      CallFits(c, RemoveCall(x, RevisionOf(c), removed));
    }
  }

  lemma OverlayDropped(records: Inventory, batch: Inventory, digest: Item -> Id, removed: seq<Id>)
    requires forall d :: d in removed <==> d in records && d !in batch
    ensures Kept(Overlay(records, batch, digest), removed) == RowsFor(batch, digest)
  {
  }
}
