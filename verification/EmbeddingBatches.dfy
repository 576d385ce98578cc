/** Batches under a product bound: the greedy split of the sorted items, and writing it batch by batch. */
module EmbeddingBatches {
  import opened Core
  import opened Sorting
  import opened VectorPlans

  /** A token estimate, its position in the input and the item. */
  datatype Entry = Entry(tokens: nat, index: nat, item: Item)

  predicate SmallerFirst(a: Entry, b: Entry) {
    a.tokens < b.tokens || (a.tokens == b.tokens && a.index <= b.index)
  }

  lemma SmallerFirstIsOrder()
    ensures TotalPreorder(SmallerFirst)
  {
  }

  function Flatten<T>(batches: seq<seq<T>>): seq<T> {
    if batches == [] then [] else Flatten(batches[..|batches| - 1]) + batches[|batches| - 1]
  }

  /** Sorted ascending, the last estimate is the largest. */
  ghost predicate Ascending(s: seq<Entry>) {
    forall i, j :: 0 <= i < j < |s| ==> s[i].tokens <= s[j].tokens
  }

  /** The count times the largest estimate is within budget, or it is one item. */
  ghost predicate ValidBatch(b: seq<Entry>, budget: int, maxItems: int) {
    && b != [] && |b| <= maxItems
    && (|b| == 1 || forall e :: e in b ==> |b| * e.tokens <= budget)
  }

  ghost predicate AllValid(batches: seq<seq<Entry>>, budget: int, maxItems: int) {
    forall k :: 0 <= k < |batches| ==> ValidBatch(batches[k], budget, maxItems)
  }

  /** No batch could have taken the first item of the next one as well. */
  ghost predicate Full(batches: seq<seq<Entry>>, budget: int, maxItems: int) {
    forall k :: FullAt(batches, k, budget, maxItems)
  }

  ghost predicate FullAt(batches: seq<seq<Entry>>, k: int, budget: int, maxItems: int) {
    0 <= k < |batches| - 1 ==> NoRoom(batches[k], batches[k + 1], budget, maxItems)
  }

  ghost predicate NoRoom(b: seq<Entry>, next: seq<Entry>, budget: int, maxItems: int) {
    next != [] ==> Overflows(|b|, next[0], budget, maxItems)
  }

  /** One more item, the largest yet, breaks a bound. */
  predicate Overflows(count: nat, e: Entry, budget: int, maxItems: int) {
    count + 1 > maxItems || (count + 1) * e.tokens > budget
  }

  lemma PushBatch(batches: seq<seq<Entry>>, batch: seq<Entry>, budget: int, maxItems: int)
    requires AllValid(batches, budget, maxItems) && Full(batches, budget, maxItems) && ValidBatch(batch, budget, maxItems)
    requires batches != [] ==> NoRoom(batches[|batches| - 1], batch, budget, maxItems)
    ensures AllValid(batches + [batch], budget, maxItems) && Full(batches + [batch], budget, maxItems)
    ensures Flatten(batches + [batch]) == Flatten(batches) + batch
  {
    FlattenPush(batches, batch);
    FullPush(batches, batch, budget, maxItems);
    ValidPush(batches, batch, budget, maxItems);
  }

  lemma ValidPush(batches: seq<seq<Entry>>, batch: seq<Entry>, budget: int, maxItems: int)
    requires AllValid(batches, budget, maxItems) && ValidBatch(batch, budget, maxItems)
    ensures AllValid(batches + [batch], budget, maxItems)
  {
    var more := batches + [batch];
    forall k | 0 <= k < |more| ensures ValidBatch(more[k], budget, maxItems) {
      assert more[k] == if k < |batches| then batches[k] else batch;
    }
  }

  lemma FullPush(batches: seq<seq<Entry>>, batch: seq<Entry>, budget: int, maxItems: int)
    requires Full(batches, budget, maxItems)
    requires batches != [] ==> NoRoom(batches[|batches| - 1], batch, budget, maxItems)
    ensures Full(batches + [batch], budget, maxItems)
  {
    forall k ensures FullAt(batches + [batch], k, budget, maxItems) {
      assert FullAt(batches, k, budget, maxItems);
    }
  }

  lemma {:induction false} FlattenPush<T>(batches: seq<seq<T>>, last: seq<T>)
    ensures Flatten(batches + [last]) == Flatten(batches) + last
  {
    assert (batches + [last])[..|batches|] == batches;
  }

  /** The estimate of an item's text, at least one. */
  function TokensOf(x: Item, estimate: string -> nat): nat {
    if estimate(x.text) >= 1 then estimate(x.text) else 1
  }

  /** The items with their estimates and positions. */
  function Measured(items: seq<Item>, estimate: string -> nat): seq<Entry> {
    seq(|items|, i requires 0 <= i < |items| => Entry(TokensOf(items[i], estimate), i, items[i]))
  }

  /** By estimate, equal ones in the order they were given. */
  method Order(items: seq<Item>, estimate: string -> nat) returns (ordered: seq<Entry>)
    ensures multiset(ordered) == multiset(Measured(items, estimate)) && Ordered(ordered, SmallerFirst)
    ensures Ascending(ordered) && multiset(Items(ordered)) == multiset(items)
  {
    var entries: seq<Entry> := [];
    for i := 0 to |items|
      invariant entries == Measured(items, estimate)[..i]
    {
      var tokens := estimate(items[i].text);
      entries := entries + [Entry(if tokens >= 1 then tokens else 1, i, items[i])];
    }
    assert entries == Measured(items, estimate);
    ordered := SortBy(entries, SmallerFirst);
    SmallerFirstIsOrder();
    SortByCorrect(entries, SmallerFirst);
    assert forall i, j :: 0 <= i < j < |ordered| ==> SmallerFirst(ordered[i], ordered[j]);
    ItemsPermute(entries, ordered);
    assert Items(entries) == items;
  }

  function Items(entries: seq<Entry>): seq<Item> {
    seq(|entries|, i requires 0 <= i < |entries| => entries[i].item)
  }

  lemma ItemsJoin(a: seq<Entry>, b: seq<Entry>)
    ensures Items(a + b) == Items(a) + Items(b)
  {
  }

  lemma {:induction false} ItemsPermute(a: seq<Entry>, b: seq<Entry>)
    requires multiset(a) == multiset(b)
    ensures multiset(Items(a)) == multiset(Items(b))
  {
    assert |a| == |multiset(a)| && |b| == |multiset(b)|;
    if a != [] {
      assert a[0] in multiset(b);
      var i :| 0 <= i < |b| && b[i] == a[0];
      TakeOut(a, b, i);
      ItemsPermute(a[1..], b[..i] + b[i + 1..]);
      Rejoin(a[0], a[1..], b[..i], b[i + 1..]);
    }
  }

  lemma Rejoin(e: Entry, a: seq<Entry>, b: seq<Entry>, c: seq<Entry>)
    requires multiset(Items(a)) == multiset(Items(b + c))
    ensures multiset(Items([e] + a)) == multiset(Items(b + [e] + c))
  {
    assert Items([e]) == [e.item];
    ItemsJoin([e], a);
    ItemsJoin(b, [e]);
    ItemsJoin(b + [e], c);
    ItemsJoin(b, c);
    assert Items([e] + a) == [e.item] + Items(a);
    assert Items(b + [e] + c) == (Items(b) + [e.item]) + Items(c);
    assert multiset(Items(b + c)) == multiset(Items(b)) + multiset(Items(c));
  }

  lemma TakeOut(a: seq<Entry>, b: seq<Entry>, i: nat)
    requires a != [] && multiset(a) == multiset(b) && i < |b| && b[i] == a[0]
    ensures multiset(a[1..]) == multiset(b[..i] + b[i + 1..])
    ensures a == [a[0]] + a[1..] && b == b[..i] + [a[0]] + b[i + 1..]
  {
    assert a == [a[0]] + a[1..];
    assert b == b[..i] + [a[0]] + b[i + 1..];
    Cancel(a[0], a[1..], b[..i], b[i + 1..]);
  }

  lemma Cancel(e: Entry, a: seq<Entry>, b: seq<Entry>, c: seq<Entry>)
    requires multiset([e] + a) == multiset(b + [e] + c)
    ensures multiset(a) == multiset(b + c)
  {
    assert multiset([e] + a) == multiset{e} + multiset(a);
    assert multiset(b + [e] + c) == multiset(b) + multiset{e} + multiset(c);
    assert multiset(a) == multiset([e] + a) - multiset{e};
    assert multiset(b + c) == multiset(b + [e] + c) - multiset{e};
  }

  /** Fill a batch until the next item would break a bound. */
  method Split(ordered: seq<Entry>, budget: int, maxItems: int) returns (batches: seq<seq<Entry>>)
    requires Ascending(ordered) && budget > 0 && maxItems > 0
    ensures Flatten(batches) == ordered && AllValid(batches, budget, maxItems) && Full(batches, budget, maxItems)
  {
    batches := [];
    var batch: seq<Entry> := [];
    for i := 0 to |ordered|
      invariant Flatten(batches) + batch == ordered[..i] && (batch == [] ==> i == 0 && batches == [])
      invariant AllValid(batches, budget, maxItems) && Full(batches, budget, maxItems)
      invariant batch != [] ==> ValidBatch(batch, budget, maxItems) && (forall e :: e in batch ==> e in ordered[..i])
      invariant batch != [] && batches != [] ==> NoRoom(batches[|batches| - 1], batch, budget, maxItems)
    {
      var e := ordered[i];
      assert ordered[..i + 1] == ordered[..i] + [e];
      if batch != [] && Overflows(|batch|, e, budget, maxItems) {
        PushBatch(batches, batch, budget, maxItems);
        batches := batches + [batch];
        batch := [e];
      } else {
        BatchGrows(ordered, i, batch, budget, maxItems);
        batch := batch + [e];
      }
    }
    assert ordered[..|ordered|] == ordered;
    if batch != [] {
      PushBatch(batches, batch, budget, maxItems);
      batches := batches + [batch];
    }
  }

  lemma BatchGrows(ordered: seq<Entry>, i: nat, batch: seq<Entry>, budget: int, maxItems: int)
    requires Ascending(ordered) && i < |ordered| && maxItems > 0
    requires forall e :: e in batch ==> e in ordered[..i]
    requires batch != [] ==> !Overflows(|batch|, ordered[i], budget, maxItems)
    ensures ValidBatch(batch + [ordered[i]], budget, maxItems)
  {
    var grown := batch + [ordered[i]];
    if batch != [] {
      forall e | e in grown ensures |grown| * e.tokens <= budget {
        if e in batch {
          var j :| 0 <= j < i && ordered[j] == e;
          assert e.tokens <= ordered[i].tokens;
          Smaller(|grown|, e.tokens, ordered[i].tokens);
        }
      }
    }
  }

  lemma Smaller(n: nat, a: nat, b: nat)
    requires a <= b
    ensures n * a <= n * b
  {
  }

  // ---- No split uses fewer batches ----

  function Size(batches: seq<seq<Entry>>): nat {
    |Flatten(batches)|
  }

  lemma {:induction false} Consecutive(batches: seq<seq<Entry>>, k: nat)
    requires k < |batches|
    ensures Size(batches[..k + 1]) == Size(batches[..k]) + |batches[k]| <= Size(batches)
    ensures Flatten(batches)[Size(batches[..k])..Size(batches[..k + 1])] == batches[k]
    decreases |batches|
  {
    assert batches[..k + 1][..k] == batches[..k];
    if k == |batches| - 1 {
      assert batches[..k + 1] == batches;
    } else {
      var front := batches[..|batches| - 1];
      assert front[..k] == batches[..k] && front[..k + 1] == batches[..k + 1] && front[k] == batches[k];
      Consecutive(front, k);
    }
  }

  lemma {:induction false} StaysAhead(batches: seq<seq<Entry>>, other: seq<seq<Entry>>, budget: int, maxItems: int, k: nat)
    requires Flatten(batches) == Flatten(other) && Ascending(Flatten(batches))
    requires AllValid(batches, budget, maxItems) && Full(batches, budget, maxItems) && AllValid(other, budget, maxItems)
    requires k <= |other| && k < |batches|
    ensures Size(other[..k]) <= Size(batches[..k])
  {
    if k > 0 {
      StaysAhead(batches, other, budget, maxItems, k - 1);
      Consecutive(other, k - 1);
      Consecutive(batches, k - 1);
      Consecutive(batches, k);
      if Size(other[..k]) > Size(batches[..k]) {
        assert ValidBatch(other[k - 1], budget, maxItems) && ValidBatch(batches[k], budget, maxItems);
        assert FullAt(batches, k - 1, budget, maxItems);
        RoomAfterAll(Flatten(batches), Size(other[..k - 1]), Size(batches[..k - 1]), Size(batches[..k]),
                     Size(other[..k]), budget, maxItems, batches[k - 1], batches[k]);
      }
    }
  }

  /** A batch inside a longer valid one has room for the next item. */
  lemma RoomAfterAll(all: seq<Entry>, a: nat, b: nat, c: nat, d: nat, budget: int, maxItems: int,
                     batch: seq<Entry>, next: seq<Entry>)
    requires a <= b < c < d <= |all| && ValidBatch(all[a..d], budget, maxItems)
    requires batch == all[b..c] && next != [] && next[0] == all[c]
    ensures !NoRoom(batch, next, budget, maxItems)
  {
    var long := all[a..d];
    assert long[c - a] == all[c];
    assert |long| * all[c].tokens <= budget;
    Smaller(all[c].tokens, |batch| + 1, |long|);
  }

  /** The greedy split has as few batches as any split of the order into consecutive valid batches. */
  lemma FewestBatches(batches: seq<seq<Entry>>, other: seq<seq<Entry>>, budget: int, maxItems: int)
    requires Flatten(batches) == Flatten(other) && Ascending(Flatten(batches))
    requires AllValid(batches, budget, maxItems) && Full(batches, budget, maxItems) && AllValid(other, budget, maxItems)
    ensures |batches| <= |other|
  {
    if |other| < |batches| {
      var k := |other|;
      assert other[..k] == other && ValidBatch(batches[k], budget, maxItems);
      Consecutive(batches, k);
      StaysAhead(batches, other, budget, maxItems, k);
    }
  }

  // ---- Writing batch by batch ----

  /** The input rejected, or the batches in the order they are embedded. */
  method IterEmbeddingBatches(items: seq<Item>, estimate: string -> nat, budget: int, maxItems: int)
    returns (r: Option<seq<seq<Entry>>>)
    ensures r.Some? <==> budget > 0 && maxItems > 0 && NoneTwice(items)
    ensures r.Some? ==> |Flatten(r.value)| == |items| && forall e :: e in Flatten(r.value) ==> MeasuredAs(e, items, estimate)
    ensures r.Some? ==> InOrder(Flatten(r.value))
    ensures r.Some? ==> multiset(Flatten(r.value)) == multiset(Measured(items, estimate))
    ensures r.Some? ==> multiset(Items(Flatten(r.value))) == multiset(items) && Ordered(Flatten(r.value), SmallerFirst)
    ensures r.Some? ==> AllValid(r.value, budget, maxItems) && Ascending(Flatten(r.value))
    ensures r.Some? ==> forall other ::
      Flatten(other) == Flatten(r.value) && AllValid(other, budget, maxItems) ==> |r.value| <= |other|
  {
    if budget <= 0 || maxItems <= 0 || Repeated(items) {
      return None;
    }
    var ordered := Order(items, estimate);
    var batches := Split(ordered, budget, maxItems);
    forall other | Flatten(other) == Flatten(batches) && AllValid(other, budget, maxItems) ensures |batches| <= |other| {
      FewestBatches(batches, other, budget, maxItems);
    }
    MeasuredEach(ordered, items, estimate);
    return Some(batches);
  }

  ghost predicate NoneTwice(items: seq<Item>) {
    forall i, j :: 0 <= i < j < |items| ==> items[i].collection != items[j].collection || items[i].item != items[j].item
  }

  /** The entry is an item of the input with its position and the estimate of its text, one at least. */
  ghost predicate MeasuredAs(e: Entry, items: seq<Item>, estimate: string -> nat) {
    && e.index < |items| && e.item == items[e.index]
    && (estimate(e.item.text) >= 1 ==> e.tokens == estimate(e.item.text)) && (estimate(e.item.text) == 0 ==> e.tokens == 1)
  }

  /** By estimate, and equal ones by position. */
  ghost predicate InOrder(entries: seq<Entry>) {
    forall i, j :: 0 <= i < j < |entries| ==>
      entries[i].tokens < entries[j].tokens || (entries[i].tokens == entries[j].tokens && entries[i].index <= entries[j].index)
  }

  lemma MeasuredEach(ordered: seq<Entry>, items: seq<Item>, estimate: string -> nat)
    requires multiset(ordered) == multiset(Measured(items, estimate)) && Ordered(ordered, SmallerFirst)
    ensures |ordered| == |items| && InOrder(ordered) && forall e :: e in ordered ==> MeasuredAs(e, items, estimate)
  {
    var measured := Measured(items, estimate);
    assert |ordered| == |multiset(ordered)| == |multiset(measured)| == |measured|;
    forall e | e in ordered ensures MeasuredAs(e, items, estimate) {
      assert e in multiset(ordered) && e in multiset(measured);
      var i :| 0 <= i < |measured| && measured[i] == e;
    }
    forall i, j | 0 <= i < j < |ordered|
      ensures ordered[i].tokens < ordered[j].tokens || (ordered[i].tokens == ordered[j].tokens && ordered[i].index <= ordered[j].index)
    {
      assert SmallerFirst(ordered[i], ordered[j]);
    }
  }

  predicate Repeated(items: seq<Item>) {
    exists i, j | 0 <= i < j < |items| :: items[i].collection == items[j].collection && items[i].item == items[j].item
  }

  /** A store write: delete, then upsert. */
  function Written(store: Store, tombstones: set<RowKey>, batch: seq<Entry>, space: Id): Store {
    Applied(store, tombstones, Items(batch), space)
  }

  lemma {:induction false} WriteAgain(store: Store, a: seq<Item>, b: seq<Item>, space: Id)
    ensures Write(Write(store, a, space), b, space) == Write(store, a + b, space)
  {
    if b == [] {
      assert a + b == a;
    } else {
      assert (a + b)[..|a + b| - 1] == a + b[..|b| - 1];
      WriteAgain(store, a, b[..|b| - 1], space);
    }
  }

  lemma NoTombstones(store: Store)
    ensures store - {} == store
  {
  }

  /** One write per batch, tombstones with the first only; a single write of tombstones when there is no batch. */
  method WriteBatches(store: Store, batches: seq<seq<Entry>>, tombstones: set<RowKey>, space: Id) returns (r: Store)
    ensures r == Applied(store, tombstones, Items(Flatten(batches)), space)
  {
    r := store;
    var left, wrote := tombstones, false;
    assert Items(Flatten(batches[..0])) == [];
    for i := 0 to |batches|
      invariant wrote <==> i > 0
      invariant left == if wrote then {} else tombstones
      invariant wrote ==> r == Applied(store, tombstones, Items(Flatten(batches[..i])), space)
      invariant !wrote ==> r == store
    {
      assert batches[..i + 1][..i] == batches[..i];
      ItemsJoin(Flatten(batches[..i]), batches[i]);
      WriteAgain(store - tombstones, Items(Flatten(batches[..i])), Items(batches[i]), space);
      NoTombstones(r);
      assert i == 0 ==> Items(Flatten(batches[..i])) + Items(batches[i]) == Items(batches[i]);
      r := Written(r, left, batches[i], space);
      left, wrote := {}, true;
    }
    assert batches[..|batches|] == batches;
    if !wrote {
      r := Applied(r, left, [], space);
    }
  }

  /** The order in which the records of distinct places are written does not show. */
  lemma WriteOrderFree(store: Store, a: seq<Item>, b: seq<Item>, space: Id)
    requires multiset(a) == multiset(b) && KeysApart(a, space)
    ensures Write(store, a, space) == Write(store, b, space)
  {
    forall x ensures x in a <==> x in b {
      assert x in a <==> x in multiset(a);
      assert x in b <==> x in multiset(b);
    }
    forall k ensures (k in Write(store, a, space) <==> k in Write(store, b, space))
      && (k in Write(store, a, space) ==> Write(store, a, space)[k] == Write(store, b, space)[k])
    {
      if x :| x in a && KeyFor(x, space) == k {
        WriteHas(store, a, space, x);
        WriteHas(store, b, space, x);
      } else {
        WriteElsewhere(store, a, space, k);
        WriteElsewhere(store, b, space, k);
      }
    }
  }

  /** Writing the upserts batch by batch leaves the store of one delete-then-upsert in any order. */
  lemma BatchedWriteIsOne(store: Store, tombstones: set<RowKey>, items: seq<Item>, batches: seq<seq<Entry>>, space: Id)
    requires multiset(Items(Flatten(batches))) == multiset(items) && KeysApart(items, space)
    ensures Applied(store, tombstones, Items(Flatten(batches)), space) == Applied(store, tombstones, items, space)
  {
    WriteOrderFree(store - tombstones, items, Items(Flatten(batches)), space);
  }
}
