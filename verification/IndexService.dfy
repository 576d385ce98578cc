/** Runs over staged metadata, vectors and graph: what is published, and whether its vectors point at chunks. */
module IndexServices {
  import opened Core
  import opened VectorPlans

  /** A chunk of a Vault. */
  datatype ChunkKey = ChunkKey(vault: Id, chunk: Id)

  /** What a vector is made from and stored beside; template chunks have no vector. */
  datatype ChunkInfo = ChunkInfo(text: string, fingerprint: Id, metadata: Option<Id>, path: Id, template: bool)
  type Chunks = map<ChunkKey, ChunkInfo>

  /** One published generation; the space of a row stands for its embedding model. */
  datatype Generation = Generation(chunks: Chunks, vectors: Store)

  function ChunkOf(row: Row): ChunkKey {
    ChunkKey(row.collection, row.item)
  }

  /** The vector identifier is injective in Vault, chunk and model, so a record is named by its chunk. */
  function ItemOf(k: ChunkKey, c: ChunkInfo): Item {
    Item(k.vault, k.chunk, k.chunk, c.text, c.fingerprint, c.metadata)
  }

  ghost predicate WellKeyed(store: Store) {
    ValidStore(store) && forall k :: k in store ==> store[k].record == store[k].item
  }

  /** Every vector, of whatever model, points at a chunk of the metadata. */
  ghost predicate Clean(g: Generation) {
    forall k :: k in g.vectors ==> ChunkOf(g.vectors[k]) in g.chunks
  }

  /** The audit before publication looks at the Vaults of the run. */
  predicate Audit(g: Generation, scope: set<Id>) {
    forall k | k in g.vectors && k.collection in scope :: ChunkOf(g.vectors[k]) in g.chunks
  }

  ghost predicate ValidGeneration(g: Generation, vaults: set<Id>) {
    && WellKeyed(g.vectors) && Clean(g)
    && (forall k :: k in g.vectors ==> k.collection in vaults) && (forall c :: c in g.chunks ==> c.vault in vaults)
  }

  /** A metadata run leaves the chunks of other Vaults alone. */
  ghost predicate SameElsewhere(before: Chunks, after: Chunks, scope: set<Id>) {
    forall c: ChunkKey :: c.vault !in scope ==> (c in before <==> c in after)
  }

  // ---- Dropping vectors of removed chunks ----

  /** After a skipped or failed plan: by the computed identifiers of the model in use. */
  function Drop(store: Store, removed: set<ChunkKey>, model: Id): Store {
    map k | k in store && !(ChunkKey(k.collection, k.record) in removed && k.space == model) :: store[k]
  }

  /** After a run over listed files: whatever the model. */
  function DropEvery(store: Store, removed: set<ChunkKey>): Store {
    map k | k in store && ChunkOf(store[k]) !in removed :: store[k]
  }

  function Removed(before: Chunks, after: Chunks): set<ChunkKey> {
    before.Keys - after.Keys
  }

  /** The chunks that listed files no longer have. */
  function RemovedFrom(before: Chunks, after: Chunks, listed: set<(Id, Id)>): set<ChunkKey> {
    set c | c in before && c !in after && (c.vault, before[c].path) in listed
  }

  lemma DropAt(store: Store, removed: set<ChunkKey>, model: Id, k: RowKey)
    requires k in store
    ensures k in Drop(store, removed, model) <==> !(ChunkKey(k.collection, k.record) in removed && k.space == model)
    ensures k in Drop(store, removed, model) ==> Drop(store, removed, model)[k] == store[k]
  {
  }

  lemma DropEveryAt(store: Store, removed: set<ChunkKey>, k: RowKey)
    requires k in store
    ensures k in DropEvery(store, removed) <==> ChunkOf(store[k]) !in removed
    ensures k in DropEvery(store, removed) ==> DropEvery(store, removed)[k] == store[k]
  {
  }

  lemma DropKeepsKeys(store: Store, removed: set<ChunkKey>, model: Id)
    requires WellKeyed(store)
    ensures WellKeyed(Drop(store, removed, model)) && WellKeyed(DropEvery(store, removed))
  {
  }

  // ---- A successful vector run ----

  ghost predicate Indexed(chunks: Chunks, scope: set<Id>, k: ChunkKey) {
    k in chunks && k.vault in scope && !chunks[k].template
  }

  /** The chunks of the Vaults as items to index, each once, templates left out. */
  ghost predicate ItemsOf(items: seq<Item>, chunks: Chunks, scope: set<Id>) {
    && DistinctItems(items)
    && forall x :: x in items <==>
         Indexed(chunks, scope, ChunkKey(x.collection, x.item))
         && x == ItemOf(ChunkKey(x.collection, x.item), chunks[ChunkKey(x.collection, x.item)])
  }

  method List(chunks: Chunks, scope: set<Id>) returns (items: seq<Item>)
    ensures ItemsOf(items, chunks, scope)
  {
    items := [];
    var wanted := set k | k in chunks && k.vault in scope && !chunks[k].template;
    var pending := wanted;
    while pending != {}
      invariant pending <= wanted && DistinctItems(items)
      invariant forall x :: x in items <==>
        ChunkKey(x.collection, x.item) in wanted - pending
        && x == ItemOf(ChunkKey(x.collection, x.item), chunks[ChunkKey(x.collection, x.item)])
      decreases pending
    {
      var k :| k in pending;
      var x := ItemOf(k, chunks[k]);
      assert ChunkKey(x.collection, x.item) == k;
      OneMoreItem(items, x, chunks, k);
      items := items + [x];
      pending := pending - {k};
    }
  }

  lemma OneMoreItem(items: seq<Item>, x: Item, chunks: Chunks, k: ChunkKey)
    requires DistinctItems(items) && k in chunks && x == ItemOf(k, chunks[k])
    requires forall y :: y in items ==>
      ChunkKey(y.collection, y.item) in chunks && ChunkKey(y.collection, y.item) != k
      && y == ItemOf(ChunkKey(y.collection, y.item), chunks[ChunkKey(y.collection, y.item)])
    ensures DistinctItems(items + [x])
  {
    forall i | 0 <= i < |items| ensures items[i].collection != x.collection
      || (items[i].item != x.item && items[i].record != x.record)
    {
      assert items[i] in items;
    }
  }

  /** Items made from chunks are never refused: identifiers are injective, so none takes over another's record. */
  lemma ItemsArePlannable(items: seq<Item>, store: Store, chunks: Chunks, scope: set<Id>, model: Id)
    requires WellKeyed(store) && ItemsOf(items, chunks, scope) && scope != {}
    ensures Plannable(items, store, scope, model)
  {
  }

  /** Vectors of the model for exactly the indexed chunks of the scope, no other row in the scope, no change outside. */
  ghost predicate Shows(before: Store, after: Store, chunks: Chunks, scope: set<Id>, model: Id) {
    && WellKeyed(after)
    && (forall k :: k in after && k.collection in scope ==>
          k.space == model && Indexed(chunks, scope, ChunkOf(after[k])))
    && (forall c :: Indexed(chunks, scope, c) ==> VectorFor(after, c, chunks, model))
    && forall k: RowKey :: k.collection !in scope ==> (k in after <==> k in before) && (k in before ==> after[k] == before[k])
  }

  /** The chunk has its vector, made from its text. */
  ghost predicate VectorFor(store: Store, c: ChunkKey, chunks: Chunks, model: Id)
    requires c in chunks
  {
    var k := RowKey(c.vault, c.chunk, model);
    && k in store && store[k].collection == c.vault && store[k].item == c.chunk && store[k].space == model
    && store[k].fingerprint == chunks[c].fingerprint
    && (store[k].metadata.Some? && chunks[c].metadata.Some? ==> store[k].metadata == chunks[c].metadata)
  }

  lemma SuccessShows(p: Plan, items: seq<Item>, store: Store, chunks: Chunks, scope: set<Id>, model: Id, full: bool)
    requires Planned(p, items, store, scope, Snapshot, model, full) && ItemsOf(items, chunks, scope) && WellKeyed(store)
    ensures Shows(store, After(store, p, model), chunks, scope, model)
  {
    var after := After(store, p, model);
    WriteKeepsValid(store - p.deletions.Keys, p.upserts + p.updates, model);
    forall k | k in after && k.collection in scope
      ensures k.space == model && Indexed(chunks, scope, ChunkOf(after[k])) && after[k].record == after[k].item
    {
      RowIsIndexed(p, items, store, chunks, scope, model, full, k);
    }
    forall k: RowKey | k.collection !in scope
      ensures (k in after <==> k in store) && (k in store ==> after[k] == store[k])
    {
      OutsideUntouched(p, items, store, scope, Snapshot, model, full, k);
    }
    forall c | Indexed(chunks, scope, c) ensures VectorFor(after, c, chunks, model) {
      var x := ItemOf(c, chunks[c]);
      assert ChunkKey(x.collection, x.item) == c && x in items;
      ItemArrives(p, items, store, scope, Snapshot, model, full, x);
    }
  }

  lemma RowIsIndexed(p: Plan, items: seq<Item>, store: Store, chunks: Chunks, scope: set<Id>, model: Id, full: bool, k: RowKey)
    requires Planned(p, items, store, scope, Snapshot, model, full) && ItemsOf(items, chunks, scope) && WellKeyed(store)
    requires k in After(store, p, model) && k.collection in scope
    ensures var row := After(store, p, model)[k];
      k.space == model && Indexed(chunks, scope, ChunkOf(row)) && row.record == row.item
  {
    SnapshotConverges(p, items, store, scope, model, full, k);
    var x :| x in items && ShowsItem(After(store, p, model)[k], x, model);
    assert Indexed(chunks, scope, ChunkKey(x.collection, x.item));
  }

  // ---- What a run stages, and when it is refused ----

  /** Vectors, or none because the caller waits or has no model, or only the listed files. */
  datatype Mode = Vectors(full: bool) | SkipVectors | NoVectors | Listed(files: set<(Id, Id)>)

  /** What a run meets: the vector plan, a vector write or the graph may fail. */
  datatype Weather = Weather(planFails: bool, writeFails: bool, graphFails: bool)

  datatype Stage = NoFailure | PlanFailure | ApplyFailure
  datatype Report = Report(vector: Stage, graphFailed: bool)
  {
    /** A vector plan failure wrote nothing, so it does not stop the publication; any other failure does. */
    predicate Publishable() {
      !graphFailed && vector != ApplyFailure
    }
  }

  /** The chunks whose vectors a run without new vectors drops; when there are none it leaves the store alone. */
  function Dropped(g: Generation, chunks: Chunks, mode: Mode): set<ChunkKey> {
    match mode
    case Listed(files) => RemovedFrom(g.chunks, chunks, files)
    case NoVectors => {}
    case _ => Removed(g.chunks, chunks)
  }

  /**
   * The report of a run. A listed run drops vectors last, and only when the graph did not fail; when the drop fails it
   * ends with an error and is not published either.
   */
  function ReportOf(g: Generation, chunks: Chunks, mode: Mode, weather: Weather): Report {
    var dropFails := weather.writeFails && Dropped(g, chunks, mode) != {};
    var stage := match mode
      case Vectors(_) =>
        if weather.planFails then if dropFails then ApplyFailure else PlanFailure
        else if weather.writeFails then ApplyFailure else NoFailure
      case SkipVectors => if dropFails then ApplyFailure else NoFailure
      case NoVectors => NoFailure
      case Listed(_) => if dropFails && !weather.graphFails then ApplyFailure else NoFailure;
    Report(stage, weather.graphFails)
  }

  /** The staged vectors of a run that may be published. */
  ghost predicate Staged(g: Generation, after: Store, chunks: Chunks, scope: set<Id>, mode: Mode, model: Id, stage: Stage) {
    var removed := Removed(g.chunks, chunks);
    match mode
    case Vectors(_) =>
      if stage == PlanFailure then after == Drop(g.vectors, removed, model) else Shows(g.vectors, after, chunks, scope, model)
    case SkipVectors => after == Drop(g.vectors, removed, model)
    case NoVectors => after == g.vectors
    case Listed(files) => after == DropEvery(g.vectors, RemovedFrom(g.chunks, chunks, files))
  }

  /** A removed chunk has a vector that the run does not drop. */
  ghost predicate LeavesStale(g: Generation, chunks: Chunks, mode: Mode, model: Id, stage: Stage) {
    exists k :: k in g.vectors && ChunkOf(g.vectors[k]) in Removed(g.chunks, chunks)
      && Keeps(mode, stage, model, k, (k.collection, g.chunks[ChunkOf(g.vectors[k])].path))
  }

  /** The run keeps the vector at `k` of a removed chunk of the given file. */
  predicate Keeps(mode: Mode, stage: Stage, model: Id, k: RowKey, file: (Id, Id)) {
    match mode
    case Vectors(_) => stage == PlanFailure && k.space != model
    case SkipVectors => k.space != model
    case NoVectors => true
    case Listed(files) => file !in files
  }

  /** Dropping for one model leaves clean vectors exactly when no removed chunk has a vector of another model. */
  lemma DropExactly(g: Generation, chunks: Chunks, vaults: set<Id>, scope: set<Id>, model: Id)
    requires ValidGeneration(g, vaults) && SameElsewhere(g.chunks, chunks, scope)
    ensures Audit(Generation(chunks, Drop(g.vectors, Removed(g.chunks, chunks), model)), scope) <==>
      !LeavesStale(g, chunks, SkipVectors, model, NoFailure)
  {
    var removed := Removed(g.chunks, chunks);
    forall k | k in g.vectors
      ensures k in Drop(g.vectors, removed, model) && k.collection in scope && ChunkOf(g.vectors[k]) !in chunks
        <==> ChunkOf(g.vectors[k]) in removed && k.space != model
    {
      DropAt(g.vectors, removed, model, k);
    }
  }

  /** Dropping for listed files leaves clean vectors exactly when no other file lost a chunk with a vector. */
  lemma DropEveryExactly(g: Generation, chunks: Chunks, vaults: set<Id>, scope: set<Id>, files: set<(Id, Id)>)
    requires ValidGeneration(g, vaults) && SameElsewhere(g.chunks, chunks, scope)
    ensures Audit(Generation(chunks, DropEvery(g.vectors, RemovedFrom(g.chunks, chunks, files))), scope) <==>
      !LeavesStale(g, chunks, Listed(files), 0, NoFailure)
  {
    var removed := RemovedFrom(g.chunks, chunks, files);
    forall k | k in g.vectors
      ensures k in DropEvery(g.vectors, removed) && k.collection in scope && ChunkOf(g.vectors[k]) !in chunks
        <==> ChunkOf(g.vectors[k]) in Removed(g.chunks, chunks)
             && (k.collection, g.chunks[ChunkOf(g.vectors[k])].path) !in files
    {
      DropEveryAt(g.vectors, removed, k);
    }
  }

  /** The audit before publication refuses a run exactly when it leaves a vector of a removed chunk. */
  lemma RefusedExactly(g: Generation, after: Store, chunks: Chunks, vaults: set<Id>, scope: set<Id>, mode: Mode, model: Id,
                       stage: Stage)
    requires ValidGeneration(g, vaults) && SameElsewhere(g.chunks, chunks, scope)
    requires Staged(g, after, chunks, scope, mode, model, stage)
    ensures Audit(Generation(chunks, after), scope) <==> !LeavesStale(g, chunks, mode, model, stage)
  {
    match mode
    case Vectors(_) =>
      if stage == PlanFailure {
        DropExactly(g, chunks, vaults, scope, model);
        SameStale(g, chunks, mode, SkipVectors, model, stage);
      }
    case SkipVectors =>
      DropExactly(g, chunks, vaults, scope, model);
      SameStale(g, chunks, mode, SkipVectors, model, stage);
    case NoVectors =>
      forall k | k in g.vectors
        ensures k.collection in scope && ChunkOf(g.vectors[k]) !in chunks
          <==> ChunkOf(g.vectors[k]) in Removed(g.chunks, chunks)
      {
      }
    case Listed(files) =>
      DropEveryExactly(g, chunks, vaults, scope, files);
      SameStale(g, chunks, mode, mode, model, stage);
  }

  lemma SameStale(g: Generation, chunks: Chunks, mode: Mode, like: Mode, model: Id, stage: Stage)
    requires like == (if mode.Vectors? then SkipVectors else mode) && (mode.Vectors? ==> stage == PlanFailure)
    ensures LeavesStale(g, chunks, mode, model, stage) <==> LeavesStale(g, chunks, like, if mode.Listed? then 0 else model, NoFailure)
  {
  }

  /** The audit looks at the Vaults of the run only; what it lets through is clean everywhere. */
  lemma PublishedIsValid(g: Generation, after: Store, chunks: Chunks, vaults: set<Id>, scope: set<Id>, mode: Mode, model: Id,
                         stage: Stage)
    requires ValidGeneration(g, vaults) && SameElsewhere(g.chunks, chunks, scope) && scope <= vaults
    requires Staged(g, after, chunks, scope, mode, model, stage) && Audit(Generation(chunks, after), scope)
    ensures ValidGeneration(Generation(chunks, after), vaults)
  {
    DropKeepsKeys(g.vectors, Removed(g.chunks, chunks), model);
    if mode.Listed? {
      DropKeepsKeys(g.vectors, RemovedFrom(g.chunks, chunks, mode.files), model);
    }
    forall k | k in after && k.collection !in scope ensures k in g.vectors && after[k] == g.vectors[k] {
    }
    forall k | k in after ensures ChunkOf(after[k]) in chunks && k.collection in vaults {
      assert KeyOf(after[k]) == k;
    }
    forall c | c in chunks ensures c.vault in vaults {
    }
  }

  // ---- What is published, told by mode and weather ----

  ghost predicate IsRemoved(g: Generation, chunks: Chunks, c: ChunkKey) {
    c in g.chunks && c !in chunks
  }

  /** A removed chunk of which the run should drop vectors: any, or one of the listed files. */
  ghost predicate MustDrop(g: Generation, chunks: Chunks, mode: Mode, c: ChunkKey) {
    IsRemoved(g, chunks, c) && (mode.Listed? ==> (c.vault, g.chunks[c].path) in mode.files)
  }

  /** The run drops vectors, there are some chunks to drop them of, and it cannot. */
  ghost predicate DropFails(g: Generation, chunks: Chunks, mode: Mode, weather: Weather) {
    && weather.writeFails && (mode.SkipVectors? || mode.Listed? || (mode.Vectors? && weather.planFails))
    && exists c :: MustDrop(g, chunks, mode, c)
  }

  /** A vector of a removed chunk that this run cannot see to: of another model, or of a file that is not listed. */
  ghost predicate OutOfReach(g: Generation, chunks: Chunks, mode: Mode, weather: Weather, model: Id, k: RowKey) {
    && k in g.vectors && IsRemoved(g, chunks, ChunkKey(g.vectors[k].collection, g.vectors[k].item))
    && match mode
       case Vectors(_) => weather.planFails && k.space != model
       case SkipVectors => k.space != model
       case NoVectors => true
       case Listed(files) => (k.collection, g.chunks[ChunkKey(g.vectors[k].collection, g.vectors[k].item)].path) !in files
  }

  /** The graph did not fail, no vector write or drop did, and no vector of a removed chunk is out of reach. */
  ghost predicate CanPublish(g: Generation, chunks: Chunks, mode: Mode, weather: Weather, model: Id) {
    && !weather.graphFails && !(mode.Vectors? && !weather.planFails && weather.writeFails)
    && !DropFails(g, chunks, mode, weather) && forall k :: !OutOfReach(g, chunks, mode, weather, model, k)
  }

  lemma DroppedMeans(g: Generation, chunks: Chunks, mode: Mode)
    ensures mode != NoVectors ==> (Dropped(g, chunks, mode) != {} <==> exists c :: MustDrop(g, chunks, mode, c))
  {
    if c :| MustDrop(g, chunks, mode, c) {
      assert mode != NoVectors ==> c in Dropped(g, chunks, mode);
    }
    if Dropped(g, chunks, mode) != {} {
      var c :| c in Dropped(g, chunks, mode);
      assert MustDrop(g, chunks, mode, c);
    }
  }

  /** The report is publishable exactly when neither the graph nor a vector write nor a drop failed. */
  lemma ReportMeans(g: Generation, chunks: Chunks, mode: Mode, weather: Weather)
    ensures var report := ReportOf(g, chunks, mode, weather);
      && report.graphFailed == weather.graphFails
      && (report.Publishable() <==>
            !weather.graphFails && !(mode.Vectors? && !weather.planFails && weather.writeFails) && !DropFails(g, chunks, mode, weather))
      && (report.vector == PlanFailure <==> mode.Vectors? && weather.planFails && !DropFails(g, chunks, mode, weather))
      && (report.vector == ApplyFailure <==>
            || (mode.Vectors? && !weather.planFails && weather.writeFails)
            || (DropFails(g, chunks, mode, weather) && !(mode.Listed? && weather.graphFails)))
  {
    DroppedMeans(g, chunks, mode);
  }

  lemma PublishedExactly(g: Generation, chunks: Chunks, mode: Mode, weather: Weather, model: Id)
    ensures var report := ReportOf(g, chunks, mode, weather);
      report.Publishable() && !LeavesStale(g, chunks, mode, model, report.vector) <==> CanPublish(g, chunks, mode, weather, model)
  {
    ReportMeans(g, chunks, mode, weather);
    var report := ReportOf(g, chunks, mode, weather);
    if report.Publishable() {
      forall k ensures OutOfReach(g, chunks, mode, weather, model, k) <==>
        k in g.vectors && ChunkOf(g.vectors[k]) in Removed(g.chunks, chunks)
        && Keeps(mode, report.vector, model, k, (k.collection, g.chunks[ChunkOf(g.vectors[k])].path))
      {
      }
    }
  }

  /** What the store holds after the run: new vectors of the scope, or what was there without the dropped ones. */
  ghost predicate HoldsVectors(g: Generation, after: Store, chunks: Chunks, scope: set<Id>, mode: Mode, model: Id, weather: Weather) {
    if mode.Vectors? && !weather.planFails then Shows(g.vectors, after, chunks, scope, model)
    else
      && (forall k :: k in after <==> k in g.vectors && !LosesVector(g, chunks, mode, model, k))
      && forall k :: k in after ==> after[k] == g.vectors[k]
  }

  /** The vector at `k` is of a removed chunk that the run drops vectors of, and of the model in use or, by files, of any. */
  ghost predicate LosesVector(g: Generation, chunks: Chunks, mode: Mode, model: Id, k: RowKey)
    requires k in g.vectors
  {
    && !mode.NoVectors?
    && (if mode.Listed? then MustDrop(g, chunks, mode, ChunkKey(g.vectors[k].collection, g.vectors[k].item))
        else MustDrop(g, chunks, mode, ChunkKey(k.collection, k.record)) && k.space == model)
  }

  lemma StagedHolds(g: Generation, after: Store, chunks: Chunks, scope: set<Id>, mode: Mode, model: Id, weather: Weather)
    requires var report := ReportOf(g, chunks, mode, weather);
      report.Publishable() && Staged(g, after, chunks, scope, mode, model, report.vector)
    ensures HoldsVectors(g, after, chunks, scope, mode, model, weather)
  {
    ReportMeans(g, chunks, mode, weather);
    if !(mode.Vectors? && !weather.planFails) {
      forall k | k in g.vectors ensures k in after <==> !LosesVector(g, chunks, mode, model, k) {
      }
    }
  }

  // ---- The service ----

  class IndexService {
    const vaults: set<Id>
    var model: Id
    var published: Generation

    ghost predicate Valid()
      reads this
    {
      ValidGeneration(published, vaults)
    }

    constructor (vaults: set<Id>, model: Id)
      ensures Valid() && this.vaults == vaults && this.model == model && published == Generation(map[], map[])
    {
      this.vaults, this.model, published := vaults, model, Generation(map[], map[]);
    }

    /** Plan and write the vectors of the staged chunks. */
    method ApplyVectors(chunks: Chunks, scope: set<Id>, full: bool) returns (after: Store)
      requires Valid() && scope != {}
      ensures Shows(published.vectors, after, chunks, scope, model)
    {
      var items := List(chunks, scope);
      ItemsArePlannable(items, published.vectors, chunks, scope, model);
      var plan := PlanIndex(items, Manifest(published.vectors, scope), scope, Snapshot, model, full);
      after := After(published.vectors, plan.value, model);
      SuccessShows(plan.value, items, published.vectors, chunks, scope, model, full);
    }

    /** The vectors of the staged copy after the run's vector stage. */
    method Stage(chunks: Chunks, scope: set<Id>, mode: Mode, stage: Stage) returns (after: Store)
      requires Valid() && scope != {}
      ensures Staged(published, after, chunks, scope, mode, model, stage)
    {
      var removed := Removed(published.chunks, chunks);
      match mode
      case Vectors(full) =>
        if stage == PlanFailure {
          after := Drop(published.vectors, removed, model);
        } else {
          after := ApplyVectors(chunks, scope, full);
        }
      case SkipVectors =>
        after := Drop(published.vectors, removed, model);
      case NoVectors =>
        after := published.vectors;
      case Listed(files) =>
        after := DropEvery(published.vectors, RemovedFrom(published.chunks, chunks, files));
    }

    /**
     * Metadata, then vectors, then the graph, on a staged copy. It is published when nothing failed but at most the
     * vector plan, and the audit finds no vector without its chunk; else it is discarded.
     */
    method RunApply(chunks: Chunks, scope: set<Id>, mode: Mode, weather: Weather) returns (report: Report, committed: bool)
      requires Valid() && scope != {} && scope <= vaults && SameElsewhere(published.chunks, chunks, scope)
      modifies this`published
      ensures Valid()
      ensures report == ReportOf(old(published), chunks, mode, weather)
      ensures committed <==>
        report.Publishable() && !LeavesStale(old(published), chunks, mode, model, report.vector)
      ensures committed <==> CanPublish(old(published), chunks, mode, weather, model)
      ensures report.graphFailed == weather.graphFails
      ensures report.vector == PlanFailure <==> mode.Vectors? && weather.planFails && !DropFails(old(published), chunks, mode, weather)
      ensures report.vector == ApplyFailure <==>
        || (mode.Vectors? && !weather.planFails && weather.writeFails)
        || (DropFails(old(published), chunks, mode, weather) && !(mode.Listed? && weather.graphFails))
      ensures committed ==> HoldsVectors(old(published), published.vectors, chunks, scope, mode, model, weather)
      ensures committed ==>
        published.chunks == chunks && Staged(old(published), published.vectors, chunks, scope, mode, model, report.vector)
      ensures !committed ==> published == old(published)
    {
      report := ReportOf(published, chunks, mode, weather);
      committed := false;
      ReportMeans(published, chunks, mode, weather);
      PublishedExactly(published, chunks, mode, weather, model);
      if report.Publishable() {
        var after := Stage(chunks, scope, mode, report.vector);
        RefusedExactly(published, after, chunks, vaults, scope, mode, model, report.vector);
        if Audit(Generation(chunks, after), scope) {
          PublishedIsValid(published, after, chunks, vaults, scope, mode, model, report.vector);
          StagedHolds(published, after, chunks, scope, mode, model, weather);
          published := Generation(chunks, after);
          committed := true;
        }
      }
    }

    /** Another embedding model may be taken into use at any time. */
    method SwitchModel(model: Id)
      requires Valid()
      modifies this`model
      ensures Valid() && this.model == model && published == old(published)
    {
      this.model := model;
    }
  }

  // ---- Whole histories ----

  datatype Run = Run(chunks: Chunks, scope: set<Id>, mode: Mode, model: Id, weather: Weather)

  /** What a run publishes, or the same generation again. */
  ghost predicate Step(g: Generation, h: Generation, run: Run, vaults: set<Id>) {
    var report := ReportOf(g, run.chunks, run.mode, run.weather);
    || h == g
    || (report.Publishable() && run.scope <= vaults && SameElsewhere(g.chunks, run.chunks, run.scope)
        && h.chunks == run.chunks && Audit(h, run.scope)
        && Staged(g, h.vectors, run.chunks, run.scope, run.mode, run.model, report.vector))
  }

  ghost predicate History(gs: seq<Generation>, runs: seq<Run>, vaults: set<Id>) {
    && gs != [] && |runs| == |gs| - 1 && gs[0] == Generation(map[], map[])
    && forall i :: 0 <= i < |runs| ==> Step(gs[i], gs[i + 1], runs[i], vaults)
  }

  lemma StepKeeps(g: Generation, h: Generation, run: Run, vaults: set<Id>)
    requires Step(g, h, run, vaults) && ValidGeneration(g, vaults)
    ensures ValidGeneration(h, vaults)
  {
    if h != g {
      PublishedIsValid(g, h.vectors, run.chunks, vaults, run.scope, run.mode, run.model,
                       ReportOf(g, run.chunks, run.mode, run.weather).vector);
    }
  }

  /** Over any sequence of runs, of any models, every published vector of every model points at a chunk. */
  lemma {:induction false} AlwaysClean(gs: seq<Generation>, runs: seq<Run>, vaults: set<Id>)
    requires History(gs, runs, vaults)
    ensures ValidGeneration(gs[|gs| - 1], vaults)
    decreases |gs|
  {
    if |gs| > 1 {
      var n := |gs| - 2;
      assert Step(gs[n], gs[n + 1], runs[n], vaults);
      AlwaysClean(gs[..|gs| - 1], runs[..n], vaults);
      StepKeeps(gs[n], gs[n + 1], runs[n], vaults);
    }
  }

  const Chunk := ChunkKey(0, 7)
  const Indexed7 := Generation(map[Chunk := ChunkInfo("", 3, None, 4, false)], map[RowKey(0, 7, 1) := Row(0, 7, 7, 1, 3, None)])

  /** The chunk is removed in a run that skips vectors while model 2 is in use: its vector of model 1 stops the run. */
  lemma OtherModelStops()
    ensures ValidGeneration(Indexed7, {0})
    ensures LeavesStale(Indexed7, map[], SkipVectors, 2, NoFailure) && !LeavesStale(Indexed7, map[], SkipVectors, 1, NoFailure)
  {
    StoredVector();
  }

  /** A run over file 5 under which file 4 loses its chunk: the chunk's vector stops the run. */
  lemma UnlistedFileStops()
    ensures LeavesStale(Indexed7, map[], Listed({(0, 5)}), 1, NoFailure)
    ensures !LeavesStale(Indexed7, map[], Listed({(0, 4)}), 1, NoFailure)
  {
    StoredVector();
  }

  lemma StoredVector()
    ensures RowKey(0, 7, 1) in Indexed7.vectors && ChunkOf(Indexed7.vectors[RowKey(0, 7, 1)]) == Chunk
    ensures KeyOf(Indexed7.vectors[RowKey(0, 7, 1)]) == RowKey(0, 7, 1) && Chunk in Removed(Indexed7.chunks, map[])
  {
    assert Chunk in Indexed7.chunks;
  }
}
