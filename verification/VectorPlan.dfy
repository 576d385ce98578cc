/** Diff planning of a vector index: what to delete, write and update so that the store shows the desired items. */
module VectorPlans {
  import opened Core

  /** An item to be indexed: `record` is where it is stored, `fingerprint` what its vector is made from. */
  datatype Item = Item(collection: Id, item: Id, record: Id, text: string, fingerprint: Id, metadata: Option<Id>)

  /** A stored row; its vector is the one its fingerprint stands for in its space. */
  datatype Row = Row(collection: Id, item: Id, record: Id, space: Id, fingerprint: Id, metadata: Option<Id>)

  datatype RowKey = RowKey(collection: Id, record: Id, space: Id)
  type Store = map<RowKey, Row>

  datatype Kind = Snapshot | Changes

  datatype Plan = Plan(upserts: seq<Item>, deletions: map<RowKey, Row>, updates: seq<Item>, unchangedCount: nat)

  function KeyOf(row: Row): RowKey {
    RowKey(row.collection, row.record, row.space)
  }

  function RowFor(x: Item, space: Id): Row {
    Row(x.collection, x.item, x.record, space, x.fingerprint, x.metadata)
  }

  function KeyFor(x: Item, space: Id): RowKey {
    RowKey(x.collection, x.record, space)
  }

  predicate SameItem(row: Row, x: Item) {
    row.collection == x.collection && row.item == x.item
  }

  // ---- What the inputs must be ----

  ghost predicate DistinctItems(items: seq<Item>) {
    forall i, j :: 0 <= i < j < |items| ==>
      !(items[i].collection == items[j].collection && (items[i].item == items[j].item || items[i].record == items[j].record))
  }

  ghost predicate Inside(items: seq<Item>, collections: set<Id>) {
    forall x :: x in items ==> x.collection in collections
  }

  /** The rows of the declared collections, by key. */
  function Manifest(store: Store, collections: set<Id>): Store {
    map k | k in store && k.collection in collections :: store[k]
  }

  ghost predicate ValidStore(store: Store) {
    forall k :: k in store ==> KeyOf(store[k]) == k
  }

  /** No item would take over a record that holds another item. */
  ghost predicate RecordsFree(items: seq<Item>, current: Store, space: Id) {
    forall x :: x in items && KeyFor(x, space) in current ==> current[KeyFor(x, space)].item == x.item
  }

  // ---- What a plan does with each item and row ----

  predicate NeedsWrite(x: Item, current: Store, space: Id, full: bool) {
    full || KeyFor(x, space) !in current || current[KeyFor(x, space)].fingerprint != x.fingerprint
  }

  predicate NeedsUpdate(x: Item, current: Store, space: Id, full: bool) {
    && !NeedsWrite(x, current, space, full)
    && var row := current[KeyFor(x, space)];
       x.metadata.Some? && row.metadata.Some? && row.metadata != x.metadata
  }

  /** The row is another version of the item, or the one about to be replaced. */
  predicate Superseded(row: Row, x: Item, current: Store, space: Id, full: bool) {
    SameItem(row, x) && (row.space != space || row.record != x.record || NeedsWrite(x, current, space, full))
  }

  ghost predicate Deletes(row: Row, items: seq<Item>, current: Store, kind: Kind, space: Id, full: bool) {
    || (exists x :: x in items && Superseded(row, x, current, space, full))
    || (kind == Snapshot && forall x :: x in items ==> !SameItem(row, x))
  }

  /** The items to write in full, in the order they are listed. */
  function Writes(items: seq<Item>, current: Store, space: Id, full: bool): (r: seq<Item>)
    ensures forall x :: x in r <==> x in items && NeedsWrite(x, current, space, full)
  {
    if items == [] then []
    else
      var front, last := items[..|items| - 1], items[|items| - 1];
      assert items == front + [last];
      Writes(front, current, space, full) + if NeedsWrite(last, current, space, full) then [last] else []
  }

  /** The items whose metadata alone is written. */
  function Updates(items: seq<Item>, current: Store, space: Id, full: bool): (r: seq<Item>)
    ensures forall x :: x in r <==> x in items && NeedsUpdate(x, current, space, full)
  {
    if items == [] then []
    else
      var front, last := items[..|items| - 1], items[|items| - 1];
      assert items == front + [last];
      Updates(front, current, space, full) + if NeedsUpdate(last, current, space, full) then [last] else []
  }

  /** Exactly the rows to delete, as they are stored. */
  ghost predicate DeletionsAre(deletions: Store, items: seq<Item>, current: Store, kind: Kind, space: Id, full: bool) {
    && (forall k :: k in deletions <==> k in current && Deletes(current[k], items, current, kind, space, full))
    && (forall k :: k in deletions ==> deletions[k] == current[k])
  }

  ghost predicate PlanOf(p: Plan, items: seq<Item>, current: Store, kind: Kind, space: Id, full: bool) {
    && p.upserts == Writes(items, current, space, full) && p.updates == Updates(items, current, space, full)
    && DeletionsAre(p.deletions, items, current, kind, space, full)
    && |p.upserts| + |p.updates| + p.unchangedCount == |items|
  }

  // ---- The same on the fields of items and rows ----

  /** Everything is asked for, or nothing is stored at the item's place, or a vector of something else. */
  ghost predicate WantsWrite(x: Item, current: Store, space: Id, full: bool) {
    var k := RowKey(x.collection, x.record, space);
    full || k !in current || current[k].fingerprint != x.fingerprint
  }

  /** The vector is right and the metadata is known to differ. */
  ghost predicate WantsUpdate(x: Item, current: Store, space: Id, full: bool) {
    var k := RowKey(x.collection, x.record, space);
    && !WantsWrite(x, current, space, full)
    && x.metadata.Some? && current[k].metadata.Some? && x.metadata.value != current[k].metadata.value
  }

  /** The row is of a listed item, in another space, at another record, or to be written anew. */
  ghost predicate IsReplaced(row: Row, x: Item, current: Store, space: Id, full: bool) {
    && row.collection == x.collection && row.item == x.item
    && (row.space != space || row.record != x.record || WantsWrite(x, current, space, full))
  }

  ghost predicate IsUnlisted(row: Row, items: seq<Item>) {
    forall x :: x in items ==> !(row.collection == x.collection && row.item == x.item)
  }

  ghost predicate WantsDeletion(row: Row, items: seq<Item>, current: Store, kind: Kind, space: Id, full: bool) {
    (exists x :: x in items && IsReplaced(row, x, current, space, full)) || (kind == Snapshot && IsUnlisted(row, items))
  }

  /** What the plan writes, updates and deletes, and how many items it leaves alone. */
  ghost predicate Lists(p: Plan, items: seq<Item>, current: Store, kind: Kind, space: Id, full: bool) {
    && (forall x :: x in p.upserts <==> x in items && WantsWrite(x, current, space, full))
    && (forall x :: x in p.updates <==> x in items && WantsUpdate(x, current, space, full))
    && (forall k :: k in p.deletions <==> k in current && WantsDeletion(current[k], items, current, kind, space, full))
    && (forall k :: k in p.deletions ==> p.deletions[k] == current[k])
    && |p.upserts| + |p.updates| + p.unchangedCount == |items|
  }

  lemma PlanLists(p: Plan, items: seq<Item>, current: Store, kind: Kind, space: Id, full: bool)
    requires PlanOf(p, items, current, kind, space, full)
    ensures Lists(p, items, current, kind, space, full)
  {
    forall x ensures NeedsWrite(x, current, space, full) == WantsWrite(x, current, space, full)
      && NeedsUpdate(x, current, space, full) == WantsUpdate(x, current, space, full)
    {
      NeedsAreWants(x, current, space, full);
    }
    forall k | k in current
      ensures Deletes(current[k], items, current, kind, space, full) <==> WantsDeletion(current[k], items, current, kind, space, full)
    {
      DeletesMeans(current[k], items, current, kind, space, full);
    }
  }

  lemma NeedsAreWants(x: Item, current: Store, space: Id, full: bool)
    ensures NeedsWrite(x, current, space, full) == WantsWrite(x, current, space, full)
    ensures NeedsUpdate(x, current, space, full) == WantsUpdate(x, current, space, full)
  {
  }

  lemma DeletesMeans(row: Row, items: seq<Item>, current: Store, kind: Kind, space: Id, full: bool)
    ensures Deletes(row, items, current, kind, space, full) <==> WantsDeletion(row, items, current, kind, space, full)
  {
    forall x ensures Superseded(row, x, current, space, full) == IsReplaced(row, x, current, space, full) {
      NeedsAreWants(x, current, space, full);
    }
    if x :| x in items && IsReplaced(row, x, current, space, full) {
      assert Superseded(row, x, current, space, full);
    }
  }

  /** The inputs determine the plan. */
  lemma PlanUnique(p: Plan, q: Plan, items: seq<Item>, current: Store, kind: Kind, space: Id, full: bool)
    requires PlanOf(p, items, current, kind, space, full) && PlanOf(q, items, current, kind, space, full)
    ensures p == q
  {
    assert p.deletions.Keys == q.deletions.Keys;
  }

  predicate AnyDuplicate(items: seq<Item>) {
    exists i, j | 0 <= i < j < |items| ::
      items[i].collection == items[j].collection && (items[i].item == items[j].item || items[i].record == items[j].record)
  }

  /** The older versions of an item. */
  function OtherVersions(x: Item, current: Store, space: Id): Store {
    map k | k in current && SameItem(current[k], x) && (current[k].space != space || current[k].record != x.record)
      :: current[k]
  }

  /** None when an item lies outside the collections, is listed twice or would take over a record. */
  method PlanIndex(items: seq<Item>, current: Store, collections: set<Id>, kind: Kind, space: Id, full: bool)
    returns (r: Option<Plan>)
    requires ValidStore(current) && forall k :: k in current ==> k.collection in collections
    ensures r.Some? <==>
      collections != {} && Inside(items, collections) && DistinctItems(items) && RecordsFree(items, current, space)
    ensures r.Some? ==> PlanOf(r.value, items, current, kind, space, full)
    ensures r.Some? ==> Lists(r.value, items, current, kind, space, full)
  {
    if collections == {} || (exists x :: x in items && x.collection !in collections) || AnyDuplicate(items) {
      return None;
    }
    r := Compare(items, current, space, full);
    if r.Some? && kind == Snapshot {
      AbsentToo(r.value.deletions, items, current, space, full);
      r := Some(r.value.(deletions := r.value.deletions + Absent(items, current)));
    }
    if r.Some? {
      PlanLists(r.value, items, current, kind, space, full);
    }
  }

  /** A snapshot also deletes the rows of items that are no longer wanted. */
  lemma AbsentToo(deletions: Store, items: seq<Item>, current: Store, space: Id, full: bool)
    requires DeletionsAre(deletions, items, current, Changes, space, full)
    ensures DeletionsAre(deletions + Absent(items, current), items, current, Snapshot, space, full)
  {
    var all := deletions + Absent(items, current);
    forall k ensures k in all <==> k in current && Deletes(current[k], items, current, Snapshot, space, full) {
      AbsentAt(items, current, k);
    }
  }

  lemma AbsentAt(items: seq<Item>, current: Store, k: RowKey)
    ensures k in Absent(items, current) <==> k in current && forall x :: x in items ==> !SameItem(current[k], x)
  {
  }

  /** Compare each item with the stored rows; None when one would take over a record. */
  method Compare(items: seq<Item>, current: Store, space: Id, full: bool) returns (r: Option<Plan>)
    requires ValidStore(current)
    ensures r.Some? <==> RecordsFree(items, current, space)
    ensures r.Some? ==> PlanOf(r.value, items, current, Changes, space, full)
  {
    var plan := Plan([], map[], [], 0);
    for i := 0 to |items|
      invariant RecordsFree(items[..i], current, space) && PlanOf(plan, items[..i], current, Changes, space, full)
    {
      MoreItems(items, i);
      if KeyFor(items[i], space) in current && current[KeyFor(items[i], space)].item != items[i].item {
        return None;
      }
      PlanGrows(plan, items, i, current, space, full);
      plan := WithItem(plan, items[i], current, space, full);
    }
    assert items[..|items|] == items;
    return Some(plan);
  }

  /** One more item is compared with its rows. */
  function WithItem(p: Plan, x: Item, current: Store, space: Id, full: bool): Plan {
    var deletions := MoreDeletions(p.deletions, x, current, space, full);
    if NeedsWrite(x, current, space, full) then Plan(p.upserts + [x], deletions, p.updates, p.unchangedCount)
    else if NeedsUpdate(x, current, space, full) then Plan(p.upserts, deletions, p.updates + [x], p.unchangedCount)
    else Plan(p.upserts, deletions, p.updates, p.unchangedCount + 1)
  }

  /** Its other versions go, and its own row if that is about to be replaced. */
  function MoreDeletions(deletions: Store, x: Item, current: Store, space: Id, full: bool): Store {
    var k, others := KeyFor(x, space), deletions + OtherVersions(x, current, space);
    if NeedsWrite(x, current, space, full) && k in current then others[k := current[k]] else others
  }

  lemma PlanGrows(p: Plan, items: seq<Item>, i: nat, current: Store, space: Id, full: bool)
    requires i < |items| && ValidStore(current) && PlanOf(p, items[..i], current, Changes, space, full)
    requires KeyFor(items[i], space) in current ==> current[KeyFor(items[i], space)].item == items[i].item
    ensures PlanOf(WithItem(p, items[i], current, space, full), items[..i + 1], current, Changes, space, full)
  {
    OneMoreListed(items, i, current, space, full);
    var more := MoreDeletions(p.deletions, items[i], current, space, full);
    assert DeletionsAre(more, items[..i + 1], current, Changes, space, full) by {
      DeletionStep(items, i, current, space, full, p.deletions);
    }
    assert WithItem(p, items[i], current, space, full).deletions == more;
  }

  lemma OneMoreListed(items: seq<Item>, i: nat, current: Store, space: Id, full: bool)
    requires i < |items|
    ensures Writes(items[..i + 1], current, space, full)
      == Writes(items[..i], current, space, full) + if NeedsWrite(items[i], current, space, full) then [items[i]] else []
    ensures Updates(items[..i + 1], current, space, full)
      == Updates(items[..i], current, space, full) + if NeedsUpdate(items[i], current, space, full) then [items[i]] else []
  {
    assert items[..i + 1][..i] == items[..i];
  }

  lemma MoreItems(items: seq<Item>, i: nat)
    requires i < |items|
    ensures forall x :: x in items[..i + 1] <==> x in items[..i] || x == items[i]
    ensures items[i] in items
  {
    assert items[..i + 1] == items[..i] + [items[i]];
  }

  lemma DeletionStep(items: seq<Item>, i: nat, current: Store, space: Id, full: bool, was: Store)
    requires i < |items| && ValidStore(current)
    requires DeletionsAre(was, items[..i], current, Changes, space, full)
    requires KeyFor(items[i], space) in current ==> current[KeyFor(items[i], space)].item == items[i].item
    ensures DeletionsAre(MoreDeletions(was, items[i], current, space, full), items[..i + 1], current, Changes, space, full)
  {
    var now := MoreDeletions(was, items[i], current, space, full);
    forall k ensures k in now <==>
      k in current && Deletes(current[k], items[..i + 1], current, Changes, space, full)
    {
      MoreItems(items, i);
      SupersededBy(items, i, current, space, full, k);
    }
  }

  lemma SupersededBy(items: seq<Item>, i: nat, current: Store, space: Id, full: bool, k: RowKey)
    requires i < |items| && forall x :: x in items[..i + 1] <==> x in items[..i] || x == items[i]
    ensures k in current ==>
      ((exists x :: x in items[..i + 1] && Superseded(current[k], x, current, space, full))
       <==> Superseded(current[k], items[i], current, space, full)
            || exists x :: x in items[..i] && Superseded(current[k], x, current, space, full))
  {
    if k in current && Superseded(current[k], items[i], current, space, full) {
      assert items[i] in items[..i + 1];
    }
  }

  /** The rows of items that are no longer wanted. */
  function Absent(items: seq<Item>, current: Store): Store {
    map k | k in current && (forall x :: x in items ==> !SameItem(current[k], x)) :: current[k]
  }

  // ---- Applying a plan ----

  /** Delete, then write full records of the given items. */
  function Applied(store: Store, deletions: set<RowKey>, writes: seq<Item>, space: Id): Store {
    Write(store - deletions, writes, space)
  }

  function Write(store: Store, writes: seq<Item>, space: Id): Store {
    if writes == [] then store
    else
      var x := writes[|writes| - 1];
      Write(store, writes[..|writes| - 1], space)[KeyFor(x, space) := RowFor(x, space)]
  }

  lemma {:induction false} WriteElsewhere(store: Store, writes: seq<Item>, space: Id, k: RowKey)
    requires forall x :: x in writes ==> KeyFor(x, space) != k
    ensures k in Write(store, writes, space) <==> k in store
    ensures k in store ==> Write(store, writes, space)[k] == store[k]
  {
    if writes != [] {
      WriteElsewhere(store, writes[..|writes| - 1], space, k);
      assert writes[|writes| - 1] in writes;
    }
  }

  ghost predicate KeysApart(writes: seq<Item>, space: Id) {
    forall x, y :: x in writes && y in writes && KeyFor(x, space) == KeyFor(y, space) ==> x == y
  }

  lemma {:induction false} WriteHas(store: Store, writes: seq<Item>, space: Id, x: Item)
    requires x in writes && KeysApart(writes, space)
    ensures KeyFor(x, space) in Write(store, writes, space)
    ensures Write(store, writes, space)[KeyFor(x, space)] == RowFor(x, space)
  {
    var front, last := writes[..|writes| - 1], writes[|writes| - 1];
    assert writes == front + [last];
    if KeyFor(last, space) != KeyFor(x, space) {
      WriteHas(store, front, space, x);
    } else {
      assert last in writes;
    }
  }

  /** The store after a plan, with metadata updates written as records. */
  function After(store: Store, p: Plan, space: Id): Store {
    Applied(store, p.deletions.Keys, p.upserts + p.updates, space)
  }

  lemma ItemsApart(items: seq<Item>, writes: seq<Item>, space: Id)
    requires DistinctItems(items) && forall x :: x in writes ==> x in items
    ensures KeysApart(writes, space)
  {
    forall x, y | x in writes && y in writes && KeyFor(x, space) == KeyFor(y, space) ensures x == y {
      var i :| 0 <= i < |items| && items[i] == x;
      var j :| 0 <= j < |items| && items[j] == y;
    }
  }

  lemma SameItemSame(items: seq<Item>, x: Item, y: Item)
    requires DistinctItems(items) && x in items && y in items && x.collection == y.collection && x.item == y.item
    ensures x == y
  {
    var i :| 0 <= i < |items| && items[i] == x;
    var j :| 0 <= j < |items| && items[j] == y;
  }

  /** A planning situation: what the method accepts. */
  ghost predicate Planned(p: Plan, items: seq<Item>, store: Store, collections: set<Id>, kind: Kind, space: Id, full: bool) {
    && ValidStore(store) && Inside(items, collections) && DistinctItems(items)
    && RecordsFree(items, Manifest(store, collections), space)
    && PlanOf(p, items, Manifest(store, collections), kind, space, full)
  }

  /** The items lie inside the collections, are listed once and take over no record. */
  ghost predicate Plannable(items: seq<Item>, store: Store, collections: set<Id>, space: Id) {
    && collections != {} && Inside(items, collections) && DistinctItems(items)
    && RecordsFree(items, Manifest(store, collections), space)
  }

  /** The row at the item's place shows the item: same vector, and metadata that needs no update. */
  ghost predicate ShowsItem(row: Row, x: Item, space: Id) {
    && SameItem(row, x) && row.record == x.record && row.space == space && row.fingerprint == x.fingerprint
    && (x.metadata.Some? && row.metadata.Some? ==> row.metadata == x.metadata)
  }

  /** The row written for an item: its identifiers, the vector of its fingerprint and its metadata. */
  ghost predicate WrittenFor(row: Row, x: Item, space: Id) {
    && row.collection == x.collection && row.item == x.item && row.record == x.record && row.space == space
    && row.fingerprint == x.fingerprint && row.metadata == x.metadata
  }

  /** Every desired item ends up at its place: written with its metadata, or left because nothing known differs. */
  lemma ItemArrives(p: Plan, items: seq<Item>, store: Store, collections: set<Id>, kind: Kind, space: Id, full: bool, x: Item)
    requires Planned(p, items, store, collections, kind, space, full) && x in items
    ensures KeyFor(x, space) in After(store, p, space)
    ensures ShowsItem(After(store, p, space)[KeyFor(x, space)], x, space)
    ensures var k, current := RowKey(x.collection, x.record, space), Manifest(store, collections);
      && k in After(store, p, space)
      && if WantsWrite(x, current, space, full) || WantsUpdate(x, current, space, full)
         then WrittenFor(After(store, p, space)[k], x, space)
         else k in store && After(store, p, space)[k] == store[k]
  {
    NeedsAreWants(x, Manifest(store, collections), space, full);
    var current, k := Manifest(store, collections), KeyFor(x, space);
    var writes := p.upserts + p.updates;
    ItemsApart(items, writes, space);
    if NeedsWrite(x, current, space, full) || NeedsUpdate(x, current, space, full) {
      assert x in writes;
      WriteHas(store - p.deletions.Keys, writes, space, x);
    } else {
      NotDeleted(p, items, store, collections, kind, space, full, x);
      ItemsApart(items, items, space);
      forall y | y in writes ensures KeyFor(y, space) != k {
        assert y in items;
        assert KeyFor(y, space) == k ==> y == x;
      }
      WriteElsewhere(store - p.deletions.Keys, writes, space, k);
    }
  }

  lemma NotDeleted(p: Plan, items: seq<Item>, store: Store, collections: set<Id>, kind: Kind, space: Id, full: bool, x: Item)
    requires Planned(p, items, store, collections, kind, space, full) && x in items
    requires !NeedsWrite(x, Manifest(store, collections), space, full)
    ensures KeyFor(x, space) !in p.deletions
  {
    var current, k := Manifest(store, collections), KeyFor(x, space);
    if Deletes(current[k], items, current, kind, space, full) {
      assert SameItem(current[k], x);
      var y :| y in items && Superseded(current[k], y, current, space, full);
      SameItemSame(items, x, y);
    }
  }

  /** A row left over in the declared collections is the place of a desired item, or of an item the plan does not list. */
  lemma RowsLeft(p: Plan, items: seq<Item>, store: Store, collections: set<Id>, kind: Kind, space: Id, full: bool, k: RowKey)
    requires Planned(p, items, store, collections, kind, space, full)
    requires k in After(store, p, space) && k.collection in collections
    ensures (exists x :: x in items && k == KeyFor(x, space))
      || (kind == Changes && k in store && After(store, p, space)[k] == store[k]
          && forall x :: x in items ==> !SameItem(store[k], x))
  {
    var current, writes := Manifest(store, collections), p.upserts + p.updates;
    if forall x :: x in writes ==> KeyFor(x, space) != k {
      WriteElsewhere(store - p.deletions.Keys, writes, space, k);
      assert k in current && k !in p.deletions;
      if x :| x in items && SameItem(current[k], x) {
        assert !Superseded(current[k], x, current, space, full);
        assert k == KeyFor(x, space);
      }
    } else {
      var x :| x in writes && KeyFor(x, space) == k;
      assert x in items;
    }
  }

  /** A complete snapshot leaves one row per desired item, at its place, and no other row of the declared collections. */
  lemma SnapshotConverges(p: Plan, items: seq<Item>, store: Store, collections: set<Id>, space: Id, full: bool, k: RowKey)
    requires Planned(p, items, store, collections, Snapshot, space, full) && k.collection in collections
    ensures k in After(store, p, space) <==> exists x :: x in items && k == KeyFor(x, space)
    ensures k in After(store, p, space) ==> exists x :: x in items && ShowsItem(After(store, p, space)[k], x, space)
  {
    if k in After(store, p, space) {
      RowsLeft(p, items, store, collections, Snapshot, space, full, k);
    }
    if x :| x in items && k == KeyFor(x, space) {
      ItemArrives(p, items, store, collections, Snapshot, space, full, x);
    }
  }

  /** Rows outside the declared collections are never touched. */
  lemma OutsideUntouched(p: Plan, items: seq<Item>, store: Store, collections: set<Id>, kind: Kind, space: Id, full: bool,
                         k: RowKey)
    requires Planned(p, items, store, collections, kind, space, full) && k.collection !in collections
    ensures k in After(store, p, space) <==> k in store
    ensures k in store ==> After(store, p, space)[k] == store[k]
  {
    var writes := p.upserts + p.updates;
    forall x | x in writes ensures KeyFor(x, space) != k {
      assert x in items;
    }
    WriteElsewhere(store - p.deletions.Keys, writes, space, k);
  }

  /** A plan of changes leaves the rows of items it does not list as they are. */
  lemma ChangesKeepOthers(p: Plan, items: seq<Item>, store: Store, collections: set<Id>, space: Id, full: bool, k: RowKey)
    requires Planned(p, items, store, collections, Changes, space, full)
    requires k in store && forall x :: x in items ==> !SameItem(store[k], x)
    ensures k in After(store, p, space) && After(store, p, space)[k] == store[k]
  {
    if k.collection !in collections {
      OutsideUntouched(p, items, store, collections, Changes, space, full, k);
    } else {
      var current, writes := Manifest(store, collections), p.upserts + p.updates;
      var row := current[k];
      forall x | x in writes ensures KeyFor(x, space) != k {
        assert x in items;
        assert KeyFor(x, space) == k ==> row.item == x.item;
      }
      WriteElsewhere(store - p.deletions.Keys, writes, space, k);
      assert k !in p.deletions;
    }
  }

  lemma {:induction false} WriteKeepsValid(store: Store, writes: seq<Item>, space: Id)
    requires ValidStore(store)
    ensures ValidStore(Write(store, writes, space))
  {
    if writes != [] {
      WriteKeepsValid(store, writes[..|writes| - 1], space);
    }
  }

  /** Planning again, without asking for everything, finds nothing to do. */
  lemma ReplanIsEmpty(p: Plan, q: Plan, items: seq<Item>, store: Store, collections: set<Id>, space: Id, full: bool)
    requires Planned(p, items, store, collections, Snapshot, space, full)
    requires PlanOf(q, items, Manifest(After(store, p, space), collections), Snapshot, space, false)
    ensures RecordsFree(items, Manifest(After(store, p, space), collections), space)
    ensures q.upserts == [] && q.updates == [] && q.deletions == map[] && q.unchangedCount == |items|
  {
    var after := After(store, p, space);
    var current := Manifest(after, collections);
    forall x | x in items
      ensures KeyFor(x, space) in current && ShowsItem(current[KeyFor(x, space)], x, space)
           && !NeedsWrite(x, current, space, false) && !NeedsUpdate(x, current, space, false)
    {
      ItemArrives(p, items, store, collections, Snapshot, space, full, x);
    }
    if q.upserts != [] {
      FirstIsIn(q.upserts);
    }
    if q.updates != [] {
      FirstIsIn(q.updates);
    }
    forall k ensures k !in q.deletions {
      if k in current {
        SnapshotConverges(p, items, store, collections, space, full, k);
        var x :| x in items && k == KeyFor(x, space);
        KeptByReplan(items, current, space, x);
      }
    }
  }

  lemma FirstIsIn(s: seq<Item>)
    requires s != []
    ensures s[0] in s
  {
  }

  lemma KeptByReplan(items: seq<Item>, current: Store, space: Id, x: Item)
    requires DistinctItems(items) && x in items && KeyFor(x, space) in current
    requires ShowsItem(current[KeyFor(x, space)], x, space) && !NeedsWrite(x, current, space, false)
    ensures !Deletes(current[KeyFor(x, space)], items, current, Snapshot, space, false)
  {
    var row := current[KeyFor(x, space)];
    if y :| y in items && Superseded(row, y, current, space, false) {
      SameItemSame(items, x, y);
    }
  }

  // ---- The index ----

  /** An index over a shared store of rows. */
  class VectorIndex {
    var store: Store

    constructor ()
      ensures store == map[]
    {
      store := map[];
    }

    /** A plan is made unless the items are refused. */
    method MakePlan(items: seq<Item>, collections: set<Id>, kind: Kind, space: Id, full: bool) returns (r: Option<Plan>)
      requires ValidStore(store)
      ensures r.Some? <==> Plannable(items, store, collections, space)
      ensures r.Some? ==> Planned(r.value, items, store, collections, kind, space, full)
      ensures r.Some? ==> Lists(r.value, items, Manifest(store, collections), kind, space, full)
    {
      r := PlanIndex(items, Manifest(store, collections), collections, kind, space, full);
    }

    /** Apply a plan unless planning again gives another one. */
    method Apply(p: Plan, items: seq<Item>, collections: set<Id>, kind: Kind, space: Id, full: bool) returns (ok: bool)
      requires ValidStore(store)
      modifies this
      ensures ValidStore(store)
      ensures ok <==> collections != {} && Planned(p, items, old(store), collections, kind, space, full)
      ensures store == if ok then After(old(store), p, space) else old(store)
    {
      var expected := MakePlan(items, collections, kind, space, full);
      if expected.Some? && Planned(p, items, store, collections, kind, space, full) {
        PlanUnique(p, expected.value, items, Manifest(store, collections), kind, space, full);
      }
      if expected != Some(p) {
        return false;
      }
      WriteKeepsValid(store - p.deletions.Keys, p.upserts + p.updates, space);
      var rows := store - p.deletions.Keys;
      var writes := p.upserts + p.updates;
      for i := 0 to |writes|
        invariant rows == Write(store - p.deletions.Keys, writes[..i], space) && store == old(store)
      {
        assert writes[..i + 1][..i] == writes[..i];
        rows := rows[KeyFor(writes[i], space) := RowFor(writes[i], space)];
      }
      assert writes[..|writes|] == writes;
      store := rows;
      ok := true;
    }
  }
}
