/** The document-graph store: optimistic commits that keep the derived tables equal to a recomputation. */
module DocumentStores {
  import opened Core
  import opened DocumentGraph
  import opened DocumentSnapshots
  import opened DocumentTables
  import opened DocumentReads
  import opened DocumentExtraction

  // ---- What a commit does ----

  function RowsOf(c: Option<Collection>): Rows {
    if c.None? then map[] else c.value.contributions
  }

  function RevisionOf(c: Option<Collection>): nat {
    if c.None? then 0 else c.value.revision
  }

  /** Why a prepared row cannot replace the stored one. */
  function RowConflict(was: Rows, row: Row): Option<Error> {
    if row.document !in was then None
    else
      var prior := was[row.document];
      if prior.sourceRevision == row.sourceRevision && prior.inputDigest != row.inputDigest then
        Some(SourceRevisionConflict)
      else if prior.inputDigest == row.inputDigest && prior.extractionDigest != row.extractionDigest then
        Some(ExtractionResultConflict)
      else None
  }

  function FirstConflict(was: Rows, prepared: seq<Row>): Option<Error> {
    if prepared == [] then None
    else if RowConflict(was, prepared[0]).Some? then RowConflict(was, prepared[0])
    else FirstConflict(was, prepared[1..])
  }

  function Put(was: Rows, prepared: seq<Row>): Rows {
    if prepared == [] then was
    else
      var row := prepared[|prepared| - 1];
      Put(was, prepared[..|prepared| - 1])[row.document := row]
  }

  /** The contributions a batch asks for. */
  function Requested(was: Rows, prepared: seq<Row>, removals: seq<Id>): Rows {
    Kept(Put(was, prepared), removals)
  }

  function Kept(rows: Rows, removals: seq<Id>): Rows {
    map d | d in rows && d !in removals :: rows[d]
  }

  /** The contributions a call asks for, or why it is refused before the graph is looked at. */
  function Planned(c: Option<Collection>, profile: Id, expected: nat, prepared: seq<Row>, removals: seq<Id>)
    : Result<Rows, Error>
  {
    if c.None? && removals != [] then Err(UnknownCollection)
    else if RevisionOf(c) != expected then Err(RevisionConflict(RevisionOf(c)))
    else if c.Some? && c.value.profile != profile then Err(ProfileMismatch)
    else if FirstConflict(RowsOf(c), prepared).Some? then Err(FirstConflict(RowsOf(c), prepared).value)
    else Ok(Requested(RowsOf(c), prepared, removals))
  }

  /** The contributions after a commit, or why there is none. */
  function Outcome(c: Option<Collection>, profile: Id, limits: Limits, expected: nat, prepared: seq<Row>,
                   removals: seq<Id>): Result<Rows, Error>
  {
    var planned := Planned(c, profile, expected, prepared, removals);
    if planned.Ok? && GraphOver(limits, Recomputed(planned.value)) then Err(Capacity) else planned
  }

  /** A commit that changes contributions takes the next revision and recomputes every table. */
  function Committed(c: Option<Collection>, profile: Id, rows: Rows): Option<Collection> {
    if rows == RowsOf(c) then c else Some(Materialized(RevisionOf(c) + 1, profile, rows))
  }

  function Changed(was: Rows, rows: Rows): set<Id> {
    set d | d in rows && (d !in was || was[d] != rows[d])
  }

  ghost predicate DistinctRows(prepared: seq<Row>) {
    forall i, j :: 0 <= i < j < |prepared| ==> prepared[i].document != prepared[j].document
  }

  ghost predicate ValidBatch(prepared: seq<Row>) {
    DistinctRows(prepared) && forall i :: 0 <= i < |prepared| ==> ValidRow(prepared[i])
  }

  lemma {:induction false} PutKeepsValid(was: Rows, prepared: seq<Row>)
    requires ValidRows(was) && forall i :: 0 <= i < |prepared| ==> ValidRow(prepared[i])
    ensures ValidRows(Put(was, prepared))
  {
    if prepared != [] {
      PutKeepsValid(was, prepared[..|prepared| - 1]);
    }
  }

  lemma {:induction false} PutElsewhere(was: Rows, prepared: seq<Row>, d: Id)
    requires forall i :: 0 <= i < |prepared| ==> prepared[i].document != d
    ensures d in Put(was, prepared) <==> d in was
    ensures d in was ==> Put(was, prepared)[d] == was[d]
  {
    if prepared != [] {
      PutElsewhere(was, prepared[..|prepared| - 1], d);
    }
  }

  // ---- Carrying it out ----

  method Compare(was: Rows, prepared: seq<Row>) returns (r: Result<(Rows, set<Id>), Error>)
    requires DistinctRows(prepared)
    ensures r == if FirstConflict(was, prepared).Some? then Err(FirstConflict(was, prepared).value)
                 else Ok((Put(was, prepared), Changed(was, Put(was, prepared))))
  {
    var rows := was;
    var changed: set<Id> := {};
    for i := 0 to |prepared|
      invariant rows == Put(was, prepared[..i]) && changed == Changed(was, rows)
      invariant FirstConflict(was, prepared[i..]) == FirstConflict(was, prepared)
    {
      var row := prepared[i];
      assert prepared[i..][0] == row && prepared[i..][1..] == prepared[i + 1..];
      assert prepared[..i + 1][..i] == prepared[..i];
      if RowConflict(was, row).Some? {
        return Err(RowConflict(was, row).value);
      }
      PutElsewhere(was, prepared[..i], row.document);
      if row.document !in was || was[row.document] != row {
        changed := changed + {row.document};
      }
      rows := rows[row.document := row];
    }
    assert prepared[..|prepared|] == prepared;
    return Ok((rows, changed));
  }

  lemma OneRow(row: Row)
    ensures var rows: Rows := map[row.document := row];
      && Nodes(rows) == RowNodes(row) && Edges(rows) == RowEdges(row) && AllEvidence(rows) == RowEvidence(row)
      && forall n :: Names(rows, n) == RowNames(row, n)
  {
    var rows: Rows := map[row.document := row];
    assert row.document in rows;
    assert Nodes(rows) == RowNodes(row);
    assert Edges(rows) == RowEdges(row);
    assert AllEvidence(rows) == RowEvidence(row);
    forall n ensures Names(rows, n) == RowNames(row, n) {
      assert Names(rows, n) == RowNames(row, n);
    }
  }

  lemma OneRowLabels(row: Row)
    ensures Labels(map[row.document := row]) == RowLabels(row)
  {
    OneRow(row);
  }

  /** The label sets of a graph, as the node rows of a document keep them. */
  function NamesShown(g: Graph): map<Key, set<Id>> {
    map n | n in g.nodes :: g.nodes[n].names
  }

  lemma NamesShownAre(rows: Rows)
    ensures NamesShown(Recomputed(rows)) == Labels(rows)
  {
  }

  lemma DocumentTablesPut(rows: Rows, row: Row)
    ensures Documents(rows[row.document := row]) == Documents(rows)[row.document := InfoOf(row)]
    ensures NodeParts(rows[row.document := row]) == NodeParts(rows)[row.document := RowLabels(row)]
  {
  }

  lemma PartTablesPut(rows: Rows, row: Row)
    ensures EdgeParts(rows[row.document := row]) == EdgeParts(rows)[row.document := RowEdges(row)]
    ensures EvidenceParts(rows[row.document := row]) == EvidenceParts(rows)[row.document := RowEvidence(row)]
  {
  }

  lemma TablesWithout(rows: Rows, gone: set<Id>)
    ensures Documents(rows) - gone == Documents(rows - gone) && NodeParts(rows) - gone == NodeParts(rows - gone)
    ensures EdgeParts(rows) - gone == EdgeParts(rows - gone)
    ensures EvidenceParts(rows) - gone == EvidenceParts(rows - gone)
  {
  }

  /** The document-keyed tables are those of the contributions. */
  ghost predicate PartsFollow(c: Collection) {
    && c.documents == Documents(c.contributions) && c.nodeParts == NodeParts(c.contributions)
    && c.edgeParts == EdgeParts(c.contributions) && c.evidence == EvidenceParts(c.contributions)
  }

  /** Remove the rows of changed and removed documents from every document-keyed table. */
  method DeleteDocuments(c: Collection, gone: set<Id>) returns (r: Collection)
    requires PartsFollow(c)
    ensures PartsFollow(r) && r.contributions == c.contributions - gone
    ensures r.revision == c.revision && r.profile == c.profile
  {
    TablesWithout(c.contributions, gone);
    r := c.(documents := c.documents - gone, contributions := c.contributions - gone, nodeParts := c.nodeParts - gone,
            edgeParts := c.edgeParts - gone, evidence := c.evidence - gone);
  }

  /** Insert one document with the projection of its own contribution. */
  method WriteDocumentProjection(c: Collection, row: Row) returns (r: Result<Collection, Error>)
    requires PartsFollow(c)
    ensures r.Ok? ==> PartsFollow(r.value) && r.value.contributions == c.contributions[row.document := row]
    ensures r.Ok? ==> r.value.revision == c.revision && r.value.profile == c.profile
    ensures r.Err? ==> r.error == Conflicting && !Functional(RowEvidence(row))
  {
    var rows: Rows := map[row.document := row];
    var projection := Snapshot(rows, None);
    OneRow(row);
    if projection.Err? {
      return Err(Conflicting);
    }
    var g := projection.value;
    NamesShownAre(rows);
    OneRowLabels(row);
    DocumentTablesPut(c.contributions, row);
    PartTablesPut(c.contributions, row);
    var d := row.document;
    return Ok(c.(documents := c.documents[d := InfoOf(row)], contributions := c.contributions[d := row],
                 nodeParts := c.nodeParts[d := NamesShown(g)], edgeParts := c.edgeParts[d := g.edges],
                 evidence := c.evidence[d := g.evidence]));
  }

  lemma ClashIsInvalid(rows: Rows, d: Id)
    requires d in rows && !Functional(RowEvidence(rows[d]))
    ensures !ValidRows(rows)
  {
    if ValidRow(rows[d]) {
      RowIsFunctional(rows[d]);
    }
  }

  lemma OneWritten(rows: Rows, pending: set<Id>, d: Id)
    requires d in rows && d in pending
    ensures (rows - pending)[d := rows[d]] == rows - (pending - {d})
  {
  }

  lemma UnchangedLeft(was: Rows, rows: Rows)
    ensures was - (Changed(was, rows) + (was.Keys - rows.Keys)) == rows - Changed(was, rows)
  {
  }

  method WriteChanged(c: Collection, rows: Rows, changed: set<Id>) returns (r: Result<Collection, Error>)
    requires PartsFollow(c) && c.contributions == rows - changed && changed <= rows.Keys && Keyed(rows)
    ensures r.Ok? ==> PartsFollow(r.value) && r.value.contributions == rows
    ensures r.Ok? ==> r.value.revision == c.revision && r.value.profile == c.profile
    ensures r.Err? ==> r.error == Conflicting && !ValidRows(rows)
  {
    var tables := c;
    var pending := changed;
    while pending != {}
      invariant pending <= rows.Keys && PartsFollow(tables) && tables.contributions == rows - pending
      invariant tables.profile == c.profile && tables.revision == c.revision
      decreases pending
    {
      var d :| d in pending;
      var written := WriteDocumentProjection(tables, rows[d]);
      if written.Err? {
        ClashIsInvalid(rows, d);
        return written;
      }
      OneWritten(rows, pending, d);
      pending := pending - {d};
      tables := written.value;
    }
    assert rows - {} == rows;
    return Ok(tables);
  }

  /** Rewrite the changed documents, then the tables of the whole collection. */
  method WriteTables(c: Option<Collection>, profile: Id, rows: Rows, changed: set<Id>, snapshot: Graph)
    returns (r: Result<Collection, Error>)
    requires c.Some? ==> PartsFollow(c.value) && c.value.profile == profile
    requires changed == Changed(RowsOf(c), rows) && snapshot == Recomputed(rows) && Keyed(rows)
    ensures r.Ok? ==> r.value == Materialized(RevisionOf(c) + 1, profile, rows)
    ensures r.Err? ==> r.error == Conflicting && !ValidRows(rows)
  {
    var was := RowsOf(c);
    var start := if c.Some? then c.value else Materialized(0, profile, map[]);
    var kept := DeleteDocuments(start, changed + (was.Keys - rows.Keys));
    UnchangedLeft(was, rows);
    var written := WriteChanged(kept, rows, changed);
    if written.Err? {
      return written;
    }
    NamesShownAre(rows);
    return Ok(written.value.(revision := RevisionOf(c) + 1, nodes := NamesShown(snapshot), edges := snapshot.edges));
  }

  // ---- The shared database and its clients ----

  datatype Update = Update(previous: nat, revision: nat, changed: set<Id>, removed: set<Id>,
                           nodes: nat, edges: nat, evidence: nat, warnings: set<Id>)

  function Summary(c: Option<Collection>, rows: Rows, g: Graph, prepared: seq<Row>): Update {
    Update(RevisionOf(c), RevisionOf(c) + (if rows == RowsOf(c) then 0 else 1), Changed(RowsOf(c), rows),
           RowsOf(c).Keys - rows.Keys, |g.nodes|, |g.edges|, |g.evidence|,
           set row, w | row in prepared && w in row.warnings :: w)
  }

  function ResultOf(c: Option<Collection>, outcome: Result<Rows, Error>, prepared: seq<Row>): Result<Update, Error> {
    if outcome.Err? then Err(outcome.error) else Ok(Summary(c, outcome.value, Recomputed(outcome.value), prepared))
  }

  function FindIn(collections: map<Id, Collection>, id: Id): Option<Collection> {
    if id in collections then Some(collections[id]) else None
  }

  /** The collection after a call that succeeds; a failed call writes nothing. */
  function NextOf(c: Option<Collection>, profile: Id, outcome: Result<Rows, Error>): Option<Collection> {
    if outcome.Err? then None else Committed(c, profile, outcome.value)
  }

  /** The database after a call: changed in one collection only, and only by a successful call. */
  function After(collections: map<Id, Collection>, id: Id, profile: Id, outcome: Result<Rows, Error>)
    : map<Id, Collection>
  {
    match NextOf(FindIn(collections, id), profile, outcome)
    case None => collections
    case Some(c) => collections[id := c]
  }

  ghost predicate AllConsistent(collections: map<Id, Collection>) {
    forall k :: k in collections ==> Consistent(collections[k])
  }

  lemma PlannedIsValid(c: Option<Collection>, profile: Id, expected: nat, prepared: seq<Row>, removals: seq<Id>)
    requires ValidBatch(prepared) && ValidRows(RowsOf(c))
    ensures Planned(c, profile, expected, prepared, removals).Ok?
      ==> ValidRows(Planned(c, profile, expected, prepared, removals).value)
  {
    PutKeepsValid(RowsOf(c), prepared);
  }

  lemma CommittedIsConsistent(c: Option<Collection>, profile: Id, rows: Rows)
    requires ValidRows(rows) && (c.Some? ==> Consistent(c.value))
    ensures Committed(c, profile, rows).Some? ==> Consistent(Committed(c, profile, rows).value)
  {
  }

  lemma AfterIsConsistent(collections: map<Id, Collection>, id: Id, profile: Id, outcome: Result<Rows, Error>)
    requires AllConsistent(collections) && (outcome.Ok? ==> ValidRows(outcome.value))
    ensures AllConsistent(After(collections, id, profile, outcome))
  {
    if outcome.Ok? {
      CommittedIsConsistent(FindIn(collections, id), profile, outcome.value);
    }
  }

  /** Remove the listed documents, noting those that were there. */
  method Drop(rows: Rows, removals: seq<Id>) returns (kept: Rows, removed: set<Id>)
    ensures kept == Kept(rows, removals) && removed == rows.Keys - kept.Keys
  {
    kept, removed := rows, {};
    for i := 0 to |removals|
      invariant kept == Kept(rows, removals[..i]) && removed == rows.Keys - kept.Keys
    {
      assert removals[..i + 1] == removals[..i] + [removals[i]];
      if removals[i] in kept {
        removed := removed + {removals[i]};
        kept := kept - {removals[i]};
      }
    }
    assert removals[..|removals|] == removals;
  }

  /** The checks of a call and the contributions it asks for. */
  method Decide(c: Option<Collection>, profile: Id, expected: nat, prepared: seq<Row>, removals: seq<Id>)
    returns (r: Result<(Rows, set<Id>, set<Id>), Error>)
    requires DistinctRows(prepared) && (prepared == [] || removals == [])
    ensures Planned(c, profile, expected, prepared, removals).Err? ==>
      r.Err? && r.error == Planned(c, profile, expected, prepared, removals).error
    ensures Planned(c, profile, expected, prepared, removals).Ok? ==>
      var rows := Planned(c, profile, expected, prepared, removals).value;
      r == Ok((rows, Changed(RowsOf(c), rows), RowsOf(c).Keys - rows.Keys))
  {
    if c.None? && removals != [] {
      return Err(UnknownCollection);
    }
    if RevisionOf(c) != expected {
      return Err(RevisionConflict(RevisionOf(c)));
    }
    if c.Some? && c.value.profile != profile {
      return Err(ProfileMismatch);
    }
    var compared := Compare(RowsOf(c), prepared);
    if compared.Err? {
      return Err(compared.error);
    }
    var (put, changed) := compared.value;
    var rows, removed := Drop(put, removals);
    OneKind(RowsOf(c), prepared, removals);
    return Ok((rows, changed, removed));
  }

  /** A call either writes or removes, so what one part notes the other does not disturb. */
  lemma OneKind(was: Rows, prepared: seq<Row>, removals: seq<Id>)
    requires DistinctRows(prepared) && (prepared == [] || removals == [])
    ensures var put, rows := Put(was, prepared), Requested(was, prepared, removals);
      Changed(was, put) == Changed(was, rows) && put.Keys - rows.Keys == was.Keys - rows.Keys
  {
    var put, rows := Put(was, prepared), Requested(was, prepared, removals);
    PutKeepsKeys(was, prepared);
    if removals == [] {
      assert rows == put;
    } else {
      assert put == was;
      assert Changed(was, put) == {} && Changed(was, rows) == {};
    }
  }

  lemma {:induction false} PutKeepsKeys(was: Rows, prepared: seq<Row>)
    ensures was.Keys <= Put(was, prepared).Keys
  {
    if prepared != [] {
      PutKeepsKeys(was, prepared[..|prepared| - 1]);
    }
  }

  /** Write the requested contributions; the tables come out as a recomputation fills them. */
  method CommitRows(c: Option<Collection>, profile: Id, rows: Rows, changed: set<Id>, removed: set<Id>, snapshot: Graph)
    returns (next: Option<Collection>)
    requires ValidRows(rows) && (c.Some? ==> PartsFollow(c.value) && c.value.profile == profile)
    requires changed == Changed(RowsOf(c), rows) && removed == RowsOf(c).Keys - rows.Keys
    requires snapshot == Recomputed(rows)
    ensures next == Committed(c, profile, rows)
  {
    NothingChanged(RowsOf(c), rows, changed, removed);
    if changed == {} && removed == {} {
      return c;
    }
    var written := Rewrite(c, profile, rows, changed, snapshot);
    CommittedIs(c, profile, rows, written);
    return Some(written);
  }

  lemma CommittedIs(c: Option<Collection>, profile: Id, rows: Rows, written: Collection)
    requires rows != RowsOf(c) && written == Materialized(RevisionOf(c) + 1, profile, rows)
    ensures Committed(c, profile, rows) == Some(written)
  {
  }

  method Rewrite(c: Option<Collection>, profile: Id, rows: Rows, changed: set<Id>, snapshot: Graph)
    returns (r: Collection)
    requires ValidRows(rows) && (c.Some? ==> PartsFollow(c.value) && c.value.profile == profile)
    requires changed == Changed(RowsOf(c), rows) && snapshot == Recomputed(rows)
    ensures r == Materialized(RevisionOf(c) + 1, profile, rows)
  {
    var written := WriteTables(c, profile, rows, changed, snapshot);
    if written.Err? {
      assert false;
    }
    r := written.value;
  }

  /** The graph of valid contributions always exists. */
  method ValidSnapshot(rows: Rows) returns (g: Graph)
    requires ValidRows(rows)
    ensures g == Recomputed(rows)
  {
    var snapshot := Snapshot(rows, None);
    ValidIsFunctional(rows);
    if snapshot.Err? {
      assert false;
    }
    g := snapshot.value;
  }

  lemma ConsistentFollows(c: Collection)
    requires Consistent(c)
    ensures PartsFollow(c) && ValidRows(c.contributions)
  {
  }

  lemma OutcomeIsValid(c: Option<Collection>, profile: Id, limits: Limits, expected: nat, prepared: seq<Row>,
                       removals: seq<Id>)
    requires ValidBatch(prepared) && (c.Some? ==> Consistent(c.value))
    ensures Outcome(c, profile, limits, expected, prepared, removals).Ok?
      ==> ValidRows(Outcome(c, profile, limits, expected, prepared, removals).value)
  {
    PlannedIsValid(c, profile, expected, prepared, removals);
  }

  /** The body of a transaction: what it answers and the tables it leaves. */
  method Transact(c: Option<Collection>, profile: Id, limits: Limits, expected: nat, prepared: seq<Row>,
                  removals: seq<Id>)
    returns (r: Result<Update, Error>, next: Option<Collection>)
    requires (c.Some? ==> Consistent(c.value)) && ValidBatch(prepared) && (prepared == [] || removals == [])
    ensures var outcome := Outcome(c, profile, limits, expected, prepared, removals);
      r == ResultOf(c, outcome, prepared) && next == NextOf(c, profile, outcome)
  {
    if c.Some? {
      ConsistentFollows(c.value);
    }
    var decided := Decide(c, profile, expected, prepared, removals);
    if decided.Err? {
      return Err(decided.error), None;
    }
    PlannedIsValid(c, profile, expected, prepared, removals);
    var (rows, changed, removed) := decided.value;
    var snapshot := ValidSnapshot(rows);
    if GraphOver(limits, snapshot) {
      return Err(Capacity), None;
    }
    next := CommitRows(c, profile, rows, changed, removed, snapshot);
    r := Ok(Summary(c, rows, snapshot, prepared));
  }

  // ---- What a call means, on the stored fields ----

  /** A stored document of the same source revision had another input. */
  ghost predicate OtherInput(stored: Rows, row: Row) {
    && row.document in stored && stored[row.document].sourceRevision == row.sourceRevision
    && stored[row.document].inputDigest != row.inputDigest
  }

  /** A stored document of the same input had another extraction. */
  ghost predicate OtherExtraction(stored: Rows, row: Row) {
    && row.document in stored && stored[row.document].inputDigest == row.inputDigest
    && stored[row.document].extractionDigest != row.extractionDigest
  }

  ghost predicate Clashes(stored: Rows, row: Row) {
    OtherInput(stored, row) || OtherExtraction(stored, row)
  }

  ghost predicate FirstClash(stored: Rows, prepared: seq<Row>, i: int) {
    0 <= i < |prepared| && Clashes(stored, prepared[i]) && forall j :: 0 <= j < i ==> !Clashes(stored, prepared[j])
  }

  ghost function ClashError(stored: Rows, row: Row): Error {
    if OtherInput(stored, row) then SourceRevisionConflict else ExtractionResultConflict
  }

  lemma {:induction false} NoConflict(stored: Rows, prepared: seq<Row>)
    ensures FirstConflict(stored, prepared).None? <==> forall row :: row in prepared ==> !Clashes(stored, row)
  {
    if prepared != [] {
      var first, rest := prepared[0], prepared[1..];
      NoConflict(stored, rest);
      assert prepared == [first] + rest;
      assert RowConflict(stored, first).Some? <==> Clashes(stored, first);
      assert (forall row :: row in prepared ==> !Clashes(stored, row))
        <==> !Clashes(stored, first) && forall row :: row in rest ==> !Clashes(stored, row);
    }
  }

  lemma {:induction false} FirstConflictIs(stored: Rows, prepared: seq<Row>, i: int)
    requires FirstClash(stored, prepared, i)
    ensures FirstConflict(stored, prepared) == Some(ClashError(stored, prepared[i]))
  {
    if i > 0 {
      var rest := prepared[1..];
      assert !Clashes(stored, prepared[0]);
      assert forall j :: 0 <= j < i - 1 ==> rest[j] == prepared[j + 1];
      FirstConflictIs(stored, rest, i - 1);
    }
  }

  /** The stored contributions with the prepared ones put in and the listed ones taken out. */
  ghost predicate Holds(rows: Rows, stored: Rows, prepared: seq<Row>, removals: seq<Id>) {
    && (forall d :: d in rows <==> (d in stored || Prepares(prepared, d)) && d !in removals)
    && (forall row :: row in prepared && row.document !in removals ==> rows[row.document] == row)
    && (forall d :: d in rows && !Prepares(prepared, d) ==> rows[d] == stored[d])
  }

  ghost predicate Prepares(prepared: seq<Row>, d: Id) {
    exists row :: row in prepared && row.document == d
  }

  lemma {:induction false} PutShows(stored: Rows, prepared: seq<Row>, i: nat)
    requires DistinctRows(prepared) && i < |prepared|
    ensures prepared[i].document in Put(stored, prepared) && Put(stored, prepared)[prepared[i].document] == prepared[i]
  {
    var last := |prepared| - 1;
    if i < last {
      assert prepared[..last][i] == prepared[i];
      PutShows(stored, prepared[..last], i);
    }
  }

  lemma PutHolds(stored: Rows, prepared: seq<Row>)
    requires DistinctRows(prepared)
    ensures Holds(Put(stored, prepared), stored, prepared, [])
  {
    var rows := Put(stored, prepared);
    forall row | row in prepared ensures row.document in rows && rows[row.document] == row {
      var i :| 0 <= i < |prepared| && prepared[i] == row;
      PutShows(stored, prepared, i);
    }
    forall d | !Prepares(prepared, d) ensures (d in rows <==> d in stored) && (d in stored ==> rows[d] == stored[d]) {
      assert forall i :: 0 <= i < |prepared| ==> prepared[i] in prepared;
      PutElsewhere(stored, prepared, d);
    }
  }

  lemma RequestedHolds(stored: Rows, prepared: seq<Row>, removals: seq<Id>)
    requires DistinctRows(prepared)
    ensures Holds(Requested(stored, prepared, removals), stored, prepared, removals)
  {
    PutHolds(stored, prepared);
  }

  /** Only the named collection changed, and it holds these contributions at the next revision. */
  ghost predicate Stores(was: map<Id, Collection>, now: map<Id, Collection>, id: Id, profile: Id, revision: nat, rows: Rows) {
    && now.Keys == was.Keys + {id} && (forall k :: k in was && k != id ==> now[k] == was[k])
    && now[id].contributions == rows && now[id].revision == revision + 1 && now[id].profile == profile
  }

  /** The answer counts what changed, what is gone and the graph that is there now. */
  ghost predicate Tells(u: Update, revision: nat, stored: Rows, rows: Rows, prepared: seq<Row>) {
    && u.previous == revision && u.revision == (if rows == stored then revision else revision + 1)
    && (forall d :: d in u.changed <==> d in rows && (d !in stored || stored[d] != rows[d]))
    && (forall d :: d in u.removed <==> d in stored && d !in rows)
    && u.nodes == |Nodes(rows)| && u.edges == |Edges(rows)| && u.evidence == |AllEvidence(rows)|
    && (forall w :: w in u.warnings <==> exists row :: row in prepared && w in row.warnings)
  }

  /**
   * The checks of a transaction in their order, each with its error and without effect; a call that passes them all
   * stores the contributions it asks for and answers with what changed.
   */
  ghost predicate CallMeans(was: map<Id, Collection>, now: map<Id, Collection>, id: Id, profile: Id, limits: Limits,
                            expected: nat, prepared: seq<Row>, removals: seq<Id>, r: Result<Update, Error>)
  {
    var stored: Rows, revision := if id in was then was[id].contributions else map[], if id in was then was[id].revision else 0;
    && (r.Err? ==> now == was)
    && (id !in was && removals != [] ==> r == Err(UnknownCollection))
    && ((id in was || removals == []) && revision != expected ==> r == Err(RevisionConflict(revision)))
    && (id in was && revision == expected && was[id].profile != profile ==> r == Err(ProfileMismatch))
    && ((if id in was then was[id].profile == profile else removals == []) && revision == expected ==>
          && (forall i :: FirstClash(stored, prepared, i) ==> r == Err(ClashError(stored, prepared[i])))
          && ((forall row :: row in prepared ==> !Clashes(stored, row)) ==> AcceptedMeans(was, now, id, profile, limits, prepared, removals, r)))
  }

  ghost predicate AcceptedMeans(was: map<Id, Collection>, now: map<Id, Collection>, id: Id, profile: Id, limits: Limits,
                                prepared: seq<Row>, removals: seq<Id>, r: Result<Update, Error>)
  {
    var stored: Rows, revision := if id in was then was[id].contributions else map[], if id in was then was[id].revision else 0;
    exists rows :: Holds(rows, stored, prepared, removals)
      && if |Nodes(rows)| > limits.nodes || |Edges(rows)| > limits.edges || |AllEvidence(rows)| > limits.evidence
         then r == Err(Capacity)
         else r.Ok? && Tells(r.value, revision, stored, rows, prepared)
              && if rows == stored then now == was else Stores(was, now, id, profile, revision, rows)
  }

  lemma AcceptedIs(was: map<Id, Collection>, id: Id, profile: Id, limits: Limits, prepared: seq<Row>, removals: seq<Id>,
                   outcome: Result<Rows, Error>)
    requires DistinctRows(prepared) && (id in was ==> was[id].profile == profile) && (id in was || removals == [])
    requires var rows := Requested(RowsOf(FindIn(was, id)), prepared, removals);
      outcome == if GraphOver(limits, Recomputed(rows)) then Err(Capacity) else Ok(rows)
    ensures AcceptedMeans(was, After(was, id, profile, outcome), id, profile, limits, prepared, removals,
                          ResultOf(FindIn(was, id), outcome, prepared))
  {
    var c := FindIn(was, id);
    var rows := Requested(RowsOf(c), prepared, removals);
    RequestedHolds(RowsOf(c), prepared, removals);
    NodeCount(rows);
    SummaryTells(c, rows, prepared);
    AfterStores(was, id, profile, rows);
    assert Holds(rows, RowsOf(c), prepared, removals);
  }

  lemma AfterStores(was: map<Id, Collection>, id: Id, profile: Id, rows: Rows)
    requires id in was ==> was[id].profile == profile
    ensures var stored, now := RowsOf(FindIn(was, id)), After(was, id, profile, Ok(rows));
      if rows == stored then now == was else Stores(was, now, id, profile, RevisionOf(FindIn(was, id)), rows)
  {
  }

  lemma SummaryTells(c: Option<Collection>, rows: Rows, prepared: seq<Row>)
    ensures Tells(Summary(c, rows, Recomputed(rows), prepared), RevisionOf(c), RowsOf(c), rows, prepared)
  {
    NodeCount(rows);
  }

  /** The outcome of a transaction is what its contract says on the stored fields. */
  lemma OutcomeMeans(was: map<Id, Collection>, id: Id, profile: Id, limits: Limits, expected: nat, prepared: seq<Row>,
                     removals: seq<Id>)
    requires DistinctRows(prepared)
    ensures var outcome := Outcome(FindIn(was, id), profile, limits, expected, prepared, removals);
      CallMeans(was, After(was, id, profile, outcome), id, profile, limits, expected, prepared, removals,
                ResultOf(FindIn(was, id), outcome, prepared))
  {
    var c := FindIn(was, id);
    NoConflict(RowsOf(c), prepared);
    forall i | FirstClash(RowsOf(c), prepared, i)
      ensures FirstConflict(RowsOf(c), prepared) == Some(ClashError(RowsOf(c), prepared[i]))
    {
      FirstConflictIs(RowsOf(c), prepared, i);
    }
    if Planned(c, profile, expected, prepared, removals).Ok? {
      AcceptedIs(was, id, profile, limits, prepared, removals, Outcome(c, profile, limits, expected, prepared, removals));
    }
  }

  class Database {
    var collections: map<Id, Collection>

    ghost predicate Valid()
      reads this
    {
      AllConsistent(collections)
    }

    constructor ()
      ensures Valid() && collections == map[]
    {
      collections := map[];
    }
  }

  /** The selection is known and without repetition, and it and its graph are within the limits. */
  ghost predicate CanRead(c: Collection, profile: Id, s: Selection, limits: ReadLimits, size: Graph -> nat) {
    var chosen := Picked(c.contributions, s);
    && c.profile == profile && |chosen| <= limits.documents
    && (s.Only? ==> Distinct(s.ids) && forall d :: d in s.ids ==> d in c.contributions)
    && |Nodes(chosen)| <= limits.graph.nodes && |Edges(chosen)| <= limits.graph.edges
    && |AllEvidence(chosen)| <= limits.graph.evidence && size(Recomputed(chosen)) <= limits.bytes
  }

  /** All documents, or the listed ones. */
  ghost function Picked(rows: Rows, s: Selection): Rows {
    map d | d in rows && (s.All? || d in s.ids) :: rows[d]
  }

  lemma PickedAll(rows: Rows)
    ensures Picked(rows, All) == rows
  {
  }

  lemma OutcomeReads(c: Option<Collection>, profile: Id, s: Selection, limits: ReadLimits, size: Graph -> nat)
    ensures var r := ReadOutcome(c, profile, s, limits, size);
      && (r.Ok? <==> c.Some? && CanRead(c.value, profile, s, limits, size))
      && (r.Ok? ==> r.value == Recomputed(Picked(c.value.contributions, s)))
  {
    if c.Some? {
      var rows := c.value.contributions;
      var chosen := Picked(rows, s);
      assert chosen == Chosen(rows, s);
      NodeCount(chosen);
      if s.All? {
        PickedAll(rows);
      } else if Distinct(s.ids) && forall d :: d in s.ids ==> d in rows {
        assert chosen.Keys == Elements(s.ids);
        DistinctSize(s.ids);
      }
    }
  }

  type Extractor = Document -> Option<Extracted>

  /** Extract and check every document of a batch; the first failure stops it. */
  ghost function Preparation(documents: seq<Document>, extract: Extractor, digest: Extracted -> Id, profile: Profile)
    : Result<seq<Row>, Error>
  {
    if documents == [] then Ok([])
    else
      var d, front := documents[0], Prepared(documents[0], extract, digest, profile);
      if front.Err? then Err(front.error)
      else Joined([front.value], Preparation(documents[1..], extract, digest, profile))
  }

  ghost function Prepared(d: Document, extract: Extractor, digest: Extracted -> Id, profile: Profile): Result<Row, Error> {
    match extract(d)
    case None => Err(ExtractionFailed)
    case Some(x) =>
      if ValidExtraction(d, x, profile) then Ok(PreparedRow(d, x, digest, profile)) else Err(InvalidExtraction)
  }

  /** Distinct documents that pass the checks make a batch the commit accepts. */
  lemma {:induction false} PreparationIsValid(documents: seq<Document>, extract: Extractor, digest: Extracted -> Id,
                                              profile: Profile)
    requires forall i, j :: 0 <= i < j < |documents| ==> documents[i].id != documents[j].id
    ensures var p := Preparation(documents, extract, digest, profile);
      p.Ok? ==> ValidBatch(p.value) && |p.value| == |documents|
                && forall i :: 0 <= i < |documents| ==> p.value[i].document == documents[i].id
  {
    if documents != [] {
      PreparationIsValid(documents[1..], extract, digest, profile);
      match extract(documents[0])
      case None =>
      case Some(x) =>
        if ValidExtraction(documents[0], x, profile) {
          PreparedIsValid(documents[0], x, digest, profile);
        }
    }
  }

  /** The document is extracted and passes the checks. */
  ghost predicate CanPrepare(d: Document, extract: Extractor, profile: Profile) {
    extract(d).Some? && ValidExtraction(d, extract(d).value, profile)
  }

  /** The row keeps the document's own revision and input, the extraction's digest and its facts. */
  ghost predicate ShowsDocument(row: Row, d: Document, x: Extracted, digest: Extracted -> Id) {
    && row.document == d.id && row.sourceRevision == d.sourceRevision && row.inputDigest == d.inputDigest
    && row.extractionDigest == digest(x) && row.locator == d.locator
    && row.entities == x.entities && row.relations == x.relations && forall w :: w in row.warnings <==> w in x.warnings
  }

  /** The whole batch is prepared when each document can be, and else the first that cannot be gives the error. */
  lemma {:induction false} PreparationMeans(documents: seq<Document>, extract: Extractor, digest: Extracted -> Id,
                                            profile: Profile)
    ensures var p := Preparation(documents, extract, digest, profile);
      && (p.Ok? <==> forall i :: 0 <= i < |documents| ==> CanPrepare(documents[i], extract, profile))
      && (p.Ok? ==> |p.value| == |documents| && forall i :: 0 <= i < |documents| ==>
            extract(documents[i]).Some? && ShowsDocument(p.value[i], documents[i], extract(documents[i]).value, digest))
      && (p.Err? ==> exists i :: FailsWith(documents, extract, profile, i, p.error))
  {
    if documents != [] {
      var rest := documents[1..];
      PreparationMeans(rest, extract, digest, profile);
      var p, q := Preparation(documents, extract, digest, profile), Preparation(rest, extract, digest, profile);
      if !CanPrepare(documents[0], extract, profile) {
        assert FailsWith(documents, extract, profile, 0, p.error);
      } else if q.Err? {
        var i :| FailsWith(rest, extract, profile, i, q.error);
        FailsLater(documents, extract, profile, i, q.error);
      }
    }
  }

  /** Document `i` is the first that cannot be prepared, and the error says why. */
  ghost predicate FailsWith(documents: seq<Document>, extract: Extractor, profile: Profile, i: int, error: Error) {
    && 0 <= i < |documents| && !CanPrepare(documents[i], extract, profile)
    && error == (if extract(documents[i]).None? then ExtractionFailed else InvalidExtraction)
    && forall j :: 0 <= j < i ==> CanPrepare(documents[j], extract, profile)
  }

  lemma FailsLater(documents: seq<Document>, extract: Extractor, profile: Profile, i: int, error: Error)
    requires documents != [] && CanPrepare(documents[0], extract, profile)
    requires FailsWith(documents[1..], extract, profile, i, error)
    ensures FailsWith(documents, extract, profile, i + 1, error)
  {
    forall j | 0 <= j < i + 1 ensures CanPrepare(documents[j], extract, profile) {
      if j > 0 { assert documents[1..][j - 1] == documents[j]; }
    }
  }

  /** Two documents of the batch have one identifier. */
  ghost predicate TwoOfOne(documents: seq<Document>) {
    exists i, j :: 0 <= i < j < |documents| && documents[i].id == documents[j].id
  }

  predicate RepeatsDocument(documents: seq<Document>) {
    exists i, j | 0 <= i < j < |documents| :: documents[i].id == documents[j].id
  }

  method Prepare(d: Document, extract: Extractor, digest: Extracted -> Id, profile: Profile) returns (r: Result<Row, Error>)
    ensures r == Prepared(d, extract, digest, profile)
  {
    var x := extract(d);
    if x.None? {
      return Err(ExtractionFailed);
    }
    var ok := ValidateExtraction(d, x.value, profile);
    return if ok then Ok(PreparedRow(d, x.value, digest, profile)) else Err(InvalidExtraction);
  }

  function Joined(rows: seq<Row>, rest: Result<seq<Row>, Error>): Result<seq<Row>, Error> {
    if rest.Err? then Err(rest.error) else Ok(rows + rest.value)
  }

  lemma JoinNothing(rest: Result<seq<Row>, Error>)
    ensures Joined([], rest) == rest
  {
    if rest.Ok? {
      assert [] + rest.value == rest.value;
    }
  }

  lemma JoinOne(rows: seq<Row>, row: Row, rest: Result<seq<Row>, Error>)
    ensures Joined(rows + [row], rest) == Joined(rows, Joined([row], rest))
  {
    if rest.Ok? {
      assert (rows + [row]) + rest.value == rows + ([row] + rest.value);
    }
  }

  method PrepareAll(documents: seq<Document>, extract: Extractor, digest: Extracted -> Id, profile: Profile)
    returns (r: Result<seq<Row>, Error>)
    ensures r == Preparation(documents, extract, digest, profile)
  {
    var rows: seq<Row> := [];
    assert documents[0..] == documents;
    JoinNothing(Preparation(documents, extract, digest, profile));
    for i := 0 to |documents|
      invariant Preparation(documents, extract, digest, profile)
             == Joined(rows, Preparation(documents[i..], extract, digest, profile))
    {
      assert documents[i..][0] == documents[i] && documents[i..][1..] == documents[i + 1..];
      var row := Prepare(documents[i], extract, digest, profile);
      if row.Err? {
        return Err(row.error);
      }
      JoinOne(rows, row.value, Preparation(documents[i + 1..], extract, digest, profile));
      rows := rows + [row.value];
    }
    assert documents[|documents|..] == [] && rows + [] == rows;
    return Ok(rows);
  }

  class GraphDocument {
    const db: Database
    const profile: Profile
    const limits: Limits
    const batchLimit: nat
    const readOnly: bool
    const extract: Extractor
    const digest: Extracted -> Id
    var closed: bool

    constructor (db: Database, profile: Profile, limits: Limits, batchLimit: nat, readOnly: bool, extract: Extractor,
                 digest: Extracted -> Id)
      ensures this.db == db && this.profile == profile && this.limits == limits && this.batchLimit == batchLimit
      ensures this.readOnly == readOnly && this.extract == extract && this.digest == digest && !closed
    {
      this.db, this.profile, this.limits, this.batchLimit := db, profile, limits, batchLimit;
      this.readOnly, this.extract, this.digest, this.closed := readOnly, extract, digest, false;
    }

    method Close()
      modifies this`closed
      ensures closed
    {
      closed := true;
    }

    /** What a write must satisfy before it reaches the database. */
    function WriteRefusal(): Option<Error>
      reads this
    {
      if closed then Some(Closed) else if readOnly then Some(ReadOnly) else None
    }

    method UpdateDocuments(documents: seq<Document>, id: Id, expected: nat) returns (r: Result<Update, Error>)
      requires db.Valid()
      modifies db
      ensures db.Valid()
      ensures r.Err? ==> db.collections == old(db.collections)
      ensures closed || readOnly ==> r == Err(if closed then Closed else ReadOnly)
      ensures !closed && !readOnly && (documents == [] || |documents| > batchLimit) ==> r == Err(Capacity)
      ensures !closed && !readOnly && 0 < |documents| <= batchLimit && TwoOfOne(documents) ==> r == Err(Invalid)
      ensures var p := Preparation(documents, extract, digest, profile);
        !closed && !readOnly && 0 < |documents| <= batchLimit && !TwoOfOne(documents) ==>
        if p.Err? then r == Err(p.error)
        else
          && CallMeans(old(db.collections), db.collections, id, profile.digest, limits, expected, p.value, [], r)
          && var c := FindIn(old(db.collections), id);
          var outcome := Outcome(c, profile.digest, limits, expected, p.value, []);
          && db.collections == After(old(db.collections), id, profile.digest, outcome)
          && r == ResultOf(c, outcome, p.value)
    {
      if WriteRefusal().Some? {
        return Err(WriteRefusal().value);
      }
      if documents == [] || |documents| > batchLimit {
        return Err(Capacity);
      }
      if RepeatsDocument(documents) {
        return Err(Invalid);
      }
      var prepared := PrepareAll(documents, extract, digest, profile);
      PreparationIsValid(documents, extract, digest, profile);
      if prepared.Err? {
        return Err(prepared.error);
      }
      r := Apply(id, expected, prepared.value, []);
    }

    method RemoveDocuments(removals: seq<Id>, id: Id, expected: nat) returns (r: Result<Update, Error>)
      requires db.Valid()
      modifies db
      ensures db.Valid()
      ensures r.Err? ==> db.collections == old(db.collections)
      ensures closed || readOnly ==> r == Err(if closed then Closed else ReadOnly)
      ensures !closed && !readOnly && (removals == [] || !Distinct(removals)) ==> r == Err(Invalid)
      ensures !closed && !readOnly && removals != [] && Distinct(removals) ==>
        && CallMeans(old(db.collections), db.collections, id, profile.digest, limits, expected, [], removals, r)
        && var c := FindIn(old(db.collections), id);
        var outcome := Outcome(c, profile.digest, limits, expected, [], removals);
        && db.collections == After(old(db.collections), id, profile.digest, outcome)
        && r == ResultOf(c, outcome, [])
    {
      if WriteRefusal().Some? {
        return Err(WriteRefusal().value);
      }
      if removals == [] || Repeats(removals) {
        return Err(Invalid);
      }
      r := Apply(id, expected, [], removals);
    }

    /** One transaction: everything or nothing, under the revision the caller expects. */
    method Apply(id: Id, expected: nat, prepared: seq<Row>, removals: seq<Id>) returns (r: Result<Update, Error>)
      requires db.Valid() && ValidBatch(prepared) && (prepared == [] || removals == [])
      modifies db
      ensures db.Valid()
      ensures CallMeans(old(db.collections), db.collections, id, profile.digest, limits, expected, prepared, removals, r)
      ensures var c := FindIn(old(db.collections), id);
        var outcome := Outcome(c, profile.digest, limits, expected, prepared, removals);
        && db.collections == After(old(db.collections), id, profile.digest, outcome)
        && r == ResultOf(c, outcome, prepared)
    {
      var c := FindIn(db.collections, id);
      var next;
      r, next := Transact(c, profile.digest, limits, expected, prepared, removals);
      ghost var outcome := Outcome(c, profile.digest, limits, expected, prepared, removals);
      OutcomeIsValid(c, profile.digest, limits, expected, prepared, removals);
      OutcomeMeans(db.collections, id, profile.digest, limits, expected, prepared, removals);
      AfterIsConsistent(db.collections, id, profile.digest, outcome);
      if next.Some? {
        db.collections := db.collections[id := next.value];
      }
    }

    /** A read of a consistent database never reports a difference between tables and contributions. */
    method Read(id: Id, s: Selection, limits: ReadLimits, size: Graph -> nat) returns (r: Result<Graph, Error>)
      requires db.Valid()
      ensures r == if closed then Err(Closed) else ReadOutcome(FindIn(db.collections, id), profile.digest, s, limits, size)
      ensures r.Err? ==> r.error != Corrupt && r.error != Conflicting
      ensures r.Ok? <==> !closed && id in db.collections && CanRead(db.collections[id], profile.digest, s, limits, size)
      ensures r.Ok? ==> r.value == Recomputed(Picked(db.collections[id].contributions, s))
    {
      OutcomeReads(FindIn(db.collections, id), profile.digest, s, limits, size);
      if closed {
        return Err(Closed);
      }
      if s.Only? && Repeats(s.ids) {
        return Err(Invalid);
      }
      if s.Only? && |s.ids| > limits.documents {
        return Err(Capacity);
      }
      var c := FindIn(db.collections, id);
      if c.None? {
        return Err(UnknownCollection);
      }
      if c.value.profile != profile.digest {
        return Err(ProfileMismatch);
      }
      if s.All? && |c.value.contributions| > limits.documents {
        return Err(Capacity);
      }
      if s.Only? && exists d :: d in s.ids && d !in c.value.contributions {
        return Err(UnknownDocument);
      }
      ChosenCount(c.value.contributions, s, limits.documents);
      r := ReadVerified(c.value, s, limits, size);
    }
  }

  lemma NothingChanged(was: Rows, rows: Rows, changed: set<Id>, removed: set<Id>)
    requires changed == Changed(was, rows) && removed == was.Keys - rows.Keys
    ensures changed == {} && removed == {} <==> rows == was
  {
    if changed == {} && removed == {} {
      forall d | d in rows ensures d in was && was[d] == rows[d] {
        assert d !in Changed(was, rows);
      }
      forall d | d in was ensures d in rows {
        assert d !in was.Keys - rows.Keys;
      }
    }
  }

  lemma ChosenCount(rows: Rows, s: Selection, limit: nat)
    requires s.All? ==> |rows| <= limit
    requires s.Only? ==> |s.ids| <= limit
    ensures |Chosen(rows, s)| <= limit
  {
    var chosen := Chosen(rows, s);
    assert |chosen| == |chosen.Keys| && |rows| == |rows.Keys|;
    if s.All? {
      assert chosen == rows;
    } else {
      ElementsSize(s.ids);
      SubsetSize(chosen.Keys, Elements(s.ids));
    }
  }

  lemma {:induction false} ElementsSize(s: seq<Id>)
    ensures |Elements(s)| <= |s|
  {
    if s != [] {
      ElementsSize(s[1..]);
      assert Elements(s) == {s[0]} + Elements(s[1..]);
    }
  }
}
