/** Rules that need every file of one session: which copy of an exchange is kept, and which v1 exchanges are left out. */
module SessionGroups {
  import opened Core
  import opened Sorting

  datatype Schema = SchemaV1 | SchemaV2 | Other

  /** A chunk; `exchange` tells whether the v2 session chunker made it, `parent` names its exchange. */
  datatype Chunk = Chunk(id: Id, exchange: bool, parent: Option<Id>, continued: bool)

  /** A normalized file of a Vault; `group` is its session, `part` its part number or 1000000. */
  datatype File = File(vault: Id, path: Id, part: int, group: Option<Id>, schema: Schema, chunks: seq<Chunk>)

  predicate PartOrder(a: File, b: File) {
    a.part < b.part || (a.part == b.part && a.path <= b.path)
  }

  lemma PartOrderIsOrder()
    ensures TotalPreorder(PartOrder)
  {
  }

  // ---- Copies of an exchange ----

  predicate Of(c: Chunk, k: Id) {
    c.exchange && c.parent == Some(k)
  }

  /** The file holds a copy of the exchange. */
  ghost predicate Holds(f: File, k: Id) {
    exists c :: c in f.chunks && Of(c, k)
  }

  /** It holds a copy, and none of its chunks is of a continued one. */
  ghost predicate Whole(f: File, k: Id) {
    Holds(f, k) && forall c :: c in f.chunks && Of(c, k) ==> !c.continued
  }

  /** The first whole copy in part order, or else the first copy. */
  ghost predicate Owns(ordered: seq<File>, k: Id, i: nat) {
    && i < |ordered|
    && if exists f :: f in ordered && Whole(f, k)
       then Whole(ordered[i], k) && forall j :: 0 <= j < i ==> !Whole(ordered[j], k)
       else Holds(ordered[i], k) && forall j :: 0 <= j < i ==> !Holds(ordered[j], k)
  }

  lemma OwnerUnique(ordered: seq<File>, k: Id, i: nat, j: nat)
    requires Owns(ordered, k, i) && Owns(ordered, k, j)
    ensures i == j
  {
  }

  /** What the first pass has found: the owner's path and whether its copy is whole. */
  type Owners = map<Id, (Id, bool)>

  ghost predicate OwnersOf(ordered: seq<File>, owners: Owners) {
    && (forall k :: k in owners <==> exists f :: f in ordered && Holds(f, k))
    && (forall k :: k in owners ==> OwnedAs(ordered, k, owners[k]))
  }

  ghost predicate OwnedAs(ordered: seq<File>, k: Id, owner: (Id, bool)) {
    exists i: nat :: Owns(ordered, k, i) && owner == (ordered[i].path, Whole(ordered[i], k))
  }

  /** For each exchange of the file, whether its copy is whole. */
  method Copies(f: File) returns (whole: map<Id, bool>)
    ensures forall k :: k in whole <==> Holds(f, k)
    ensures forall k :: k in whole ==> whole[k] == Whole(f, k)
  {
    whole := map[];
    for i := 0 to |f.chunks|
      invariant forall k :: k in whole <==> Holds(f.(chunks := f.chunks[..i]), k)
      invariant forall k :: k in whole ==> whole[k] == Whole(f.(chunks := f.chunks[..i]), k)
    {
      var c := f.chunks[i];
      MoreChunks(f, i);
      if c.exchange && c.parent.Some? {
        var k := c.parent.value;
        whole := whole[k := (if k in whole then whole[k] else true) && !c.continued];
      }
    }
    assert f.(chunks := f.chunks[..|f.chunks|]) == f;
  }

  lemma MoreChunks(f: File, i: nat)
    requires i < |f.chunks|
    ensures forall k :: var was, now, c := f.(chunks := f.chunks[..i]), f.(chunks := f.chunks[..i + 1]), f.chunks[i];
      && (Holds(now, k) <==> Holds(was, k) || Of(c, k))
      && (Whole(now, k) <==> if Of(c, k) then !c.continued && (Holds(was, k) ==> Whole(was, k)) else Whole(was, k))
  {
    var was, now, c := f.(chunks := f.chunks[..i]), f.(chunks := f.chunks[..i + 1]), f.chunks[i];
    assert now.chunks == was.chunks + [c];
    assert forall d :: d in now.chunks <==> d in was.chunks || d == c;
    forall k ensures Holds(now, k) <==> Holds(was, k) || Of(c, k) {
      if Holds(was, k) {
        var d :| d in was.chunks && Of(d, k);
        assert d in now.chunks;
      }
    }
  }

  lemma OwnerStays(ordered: seq<File>, f: File, k: Id, owner: (Id, bool))
    requires OwnedAs(ordered, k, owner) && (owner.1 || !Whole(f, k))
    ensures OwnedAs(ordered + [f], k, owner)
  {
    var i: nat :| Owns(ordered, k, i) && owner == (ordered[i].path, Whole(ordered[i], k));
    var more := ordered + [f];
    assert more[i] == ordered[i];
    assert ordered[i] in more;
    assert Owns(more, k, i);
  }

  lemma OwnerTaken(ordered: seq<File>, f: File, k: Id)
    requires Holds(f, k)
    requires (forall g :: g in ordered ==> !Holds(g, k)) || (Whole(f, k) && forall g :: g in ordered ==> !Whole(g, k))
    ensures OwnedAs(ordered + [f], k, (f.path, Whole(f, k)))
  {
    var more := ordered + [f];
    assert more[|ordered|] == f;
    forall j | 0 <= j < |ordered| ensures more[j] in ordered {}
    assert Owns(more, k, |ordered|);
  }

  lemma OwnerWhole(ordered: seq<File>, k: Id, owner: (Id, bool))
    requires OwnedAs(ordered, k, owner)
    ensures owner.1 <==> exists g :: g in ordered && Whole(g, k)
  {
    var i: nat :| Owns(ordered, k, i) && owner == (ordered[i].path, Whole(ordered[i], k));
    assert ordered[i] in ordered;
  }

  /** Take the file's copies into account. */
  method Claim(ordered: seq<File>, f: File, owners: Owners) returns (r: Owners)
    requires OwnersOf(ordered, owners)
    ensures OwnersOf(ordered + [f], r)
  {
    var whole := Copies(f);
    r := map k | k in owners.Keys + whole.Keys ::
      if k in whole && (k !in owners || (whole[k] && !owners[k].1)) then (f.path, whole[k]) else owners[k];
    forall k ensures k in r <==> exists g :: g in ordered + [f] && Holds(g, k) {
      assert f in ordered + [f];
      if k in owners {
        var g :| g in ordered && Holds(g, k);
        assert g in ordered + [f];
      }
    }
    forall k | k in r ensures OwnedAs(ordered + [f], k, r[k]) {
      ClaimOne(ordered, f, owners, k, r[k]);
    }
  }

  lemma ClaimOne(ordered: seq<File>, f: File, owners: Owners, k: Id, owner: (Id, bool))
    requires OwnersOf(ordered, owners) && (k in owners || Holds(f, k))
    requires owner == if Holds(f, k) && (k !in owners || (Whole(f, k) && !owners[k].1)) then (f.path, Whole(f, k))
                      else if k in owners then owners[k] else owner
    ensures OwnedAs(ordered + [f], k, owner)
  {
    if k in owners {
      OwnerWhole(ordered, k, owners[k]);
    }
    if Holds(f, k) && (k !in owners || (Whole(f, k) && !owners[k].1)) {
      OwnerTaken(ordered, f, k);
    } else {
      OwnerStays(ordered, f, k, owners[k]);
    }
  }

  method FindOwners(ordered: seq<File>) returns (owners: Owners)
    ensures OwnersOf(ordered, owners)
  {
    owners := map[];
    for i := 0 to |ordered|
      invariant OwnersOf(ordered[..i], owners)
    {
      owners := Claim(ordered[..i], ordered[i], owners);
      assert ordered[..i + 1] == ordered[..i] + [ordered[i]];
    }
    assert ordered[..|ordered|] == ordered;
  }

  // ---- Dropping the other copies ----

  ghost predicate OwnedAt(ordered: seq<File>, k: Id, path: Id) {
    exists i: nat :: Owns(ordered, k, i) && ordered[i].path == path
  }

  /** A chunk stays unless it belongs to an exchange another file owns. */
  ghost predicate Stays(ordered: seq<File>, path: Id, c: Chunk) {
    c.exchange && c.parent.Some? ==> OwnedAt(ordered, c.parent.value, path)
  }

  ghost function KeptChunks(ordered: seq<File>, path: Id, chunks: seq<Chunk>): seq<Chunk> {
    if chunks == [] then []
    else
      var last := chunks[|chunks| - 1];
      KeptChunks(ordered, path, chunks[..|chunks| - 1]) + if Stays(ordered, path, last) then [last] else []
  }

  ghost function Stripped(ordered: seq<File>, f: File): File {
    f.(chunks := KeptChunks(ordered, f.path, f.chunks))
  }

  ghost function StripAll(ordered: seq<File>): seq<File> {
    seq(|ordered|, i requires 0 <= i < |ordered| => Stripped(ordered, ordered[i]))
  }

  /** The files in part order, each exchange in one of them. */
  ghost function Deduplicated(files: seq<File>): seq<File> {
    StripAll(SortBy(files, PartOrder))
  }

  lemma OwnersAgree(ordered: seq<File>, owners: Owners, k: Id, path: Id)
    requires OwnersOf(ordered, owners) && k in owners
    ensures owners[k].0 == path <==> OwnedAt(ordered, k, path)
  {
    var i: nat :| Owns(ordered, k, i) && owners[k] == (ordered[i].path, Whole(ordered[i], k));
    if OwnedAt(ordered, k, path) {
      var j: nat :| Owns(ordered, k, j) && ordered[j].path == path;
      OwnerUnique(ordered, k, i, j);
    }
  }

  method StripFile(f: File, owners: Owners, ghost ordered: seq<File>) returns (r: File)
    requires OwnersOf(ordered, owners) && f in ordered
    ensures r == Stripped(ordered, f)
  {
    var chunks: seq<Chunk> := [];
    for i := 0 to |f.chunks|
      invariant chunks == KeptChunks(ordered, f.path, f.chunks[..i])
    {
      var c := f.chunks[i];
      assert f.chunks[..i + 1][..i] == f.chunks[..i];
      if c.exchange && c.parent.Some? {
        assert Of(c, c.parent.value) && c in f.chunks;
        assert Holds(f, c.parent.value);
        OwnersAgree(ordered, owners, c.parent.value, f.path);
      }
      if !c.exchange || c.parent.None? || owners[c.parent.value].0 == f.path {
        chunks := chunks + [c];
      }
    }
    assert f.chunks[..|f.chunks|] == f.chunks;
    r := f.(chunks := chunks);
  }

  method DropDuplicateExchanges(files: seq<File>) returns (kept: seq<File>)
    ensures kept == Deduplicated(files)
  {
    var ordered := SortBy(files, PartOrder);
    var owners := FindOwners(ordered);
    kept := [];
    for i := 0 to |ordered|
      invariant kept == StripAll(ordered)[..i]
    {
      var f := StripFile(ordered[i], owners, ordered);
      kept := kept + [f];
    }
  }

  // ---- What dropping guarantees ----

  lemma {:induction false} KeptAre(ordered: seq<File>, path: Id, chunks: seq<Chunk>)
    ensures forall c :: c in KeptChunks(ordered, path, chunks) <==> c in chunks && Stays(ordered, path, c)
  {
    if chunks != [] {
      var front, last := chunks[..|chunks| - 1], chunks[|chunks| - 1];
      assert chunks == front + [last];
      KeptAre(ordered, path, front);
    }
  }

  lemma {:induction false} AllKept(ordered: seq<File>, path: Id, chunks: seq<Chunk>)
    requires forall c :: c in chunks ==> Stays(ordered, path, c)
    ensures KeptChunks(ordered, path, chunks) == chunks
  {
    if chunks != [] {
      var front, last := chunks[..|chunks| - 1], chunks[|chunks| - 1];
      assert chunks == front + [last];
      AllKept(ordered, path, front);
    }
  }

  /** A stripped file holds exactly the exchanges it owns, with every chunk it had of them. */
  lemma StrippedHolds(ordered: seq<File>, f: File, k: Id)
    ensures Holds(Stripped(ordered, f), k) <==> Holds(f, k) && OwnedAt(ordered, k, f.path)
    ensures OwnedAt(ordered, k, f.path) ==> forall c :: c in f.chunks && Of(c, k) ==> c in Stripped(ordered, f).chunks
  {
    KeptAre(ordered, f.path, f.chunks);
    if Holds(f, k) && OwnedAt(ordered, k, f.path) {
      var c :| c in f.chunks && Of(c, k);
      assert c in Stripped(ordered, f).chunks;
    }
  }

  lemma {:induction false} FirstIndex(ordered: seq<File>, good: File -> bool) returns (i: nat)
    requires exists f :: f in ordered && good(f)
    ensures i < |ordered| && good(ordered[i]) && forall j :: 0 <= j < i ==> !good(ordered[j])
    decreases |ordered|
  {
    if good(ordered[0]) {
      i := 0;
    } else {
      var f :| f in ordered && good(f);
      assert f in ordered[1..];
      var j := FirstIndex(ordered[1..], good);
      i := j + 1;
    }
  }

  lemma OwnerExists(ordered: seq<File>, k: Id) returns (i: nat)
    requires exists f :: f in ordered && Holds(f, k)
    ensures Owns(ordered, k, i) && Holds(ordered[i], k)
  {
    if exists f :: f in ordered && Whole(f, k) {
      i := FirstIndex(ordered, f => Whole(f, k));
    } else {
      i := FirstIndex(ordered, f => Holds(f, k));
    }
  }

  ghost predicate UniquePaths(files: seq<File>) {
    forall i, j :: 0 <= i < j < |files| ==> files[i].path != files[j].path
  }

  /**
   * Every exchange that some file held survives in exactly one file, the owner, with all the chunks the owner had of
   * it; nothing else is left out.
   */
  lemma EachExchangeOnce(ordered: seq<File>, k: Id, i: nat)
    requires UniquePaths(ordered) && i < |ordered|
    ensures Holds(StripAll(ordered)[i], k) <==> Owns(ordered, k, i)
    ensures (exists f :: f in ordered && Holds(f, k)) <==> exists j: nat :: Owns(ordered, k, j)
  {
    StrippedHolds(ordered, ordered[i], k);
    if exists f :: f in ordered && Holds(f, k) {
      var j := OwnerExists(ordered, k);
      assert Owns(ordered, k, j);
    }
    if j: nat :| Owns(ordered, k, j) {
      assert ordered[j] in ordered && Holds(ordered[j], k);
    }
  }

  lemma OtherChunksStay(ordered: seq<File>, i: nat, c: Chunk)
    requires i < |ordered| && c in ordered[i].chunks && !(c.exchange && c.parent.Some?)
    ensures c in StripAll(ordered)[i].chunks
  {
    KeptAre(ordered, ordered[i].path, ordered[i].chunks);
  }

  /** No exchange is in two files. */
  ghost predicate Single(files: seq<File>) {
    forall i, j, k :: 0 <= i < |files| && 0 <= j < |files| && Holds(files[i], k) && Holds(files[j], k) ==> i == j
  }

  lemma StrippedIsSingle(ordered: seq<File>)
    requires UniquePaths(ordered)
    ensures Single(StripAll(ordered)) && UniquePaths(StripAll(ordered))
  {
    var out := StripAll(ordered);
    forall i, j, k | 0 <= i < |out| && 0 <= j < |out| && Holds(out[i], k) && Holds(out[j], k) ensures i == j {
      EachExchangeOnce(ordered, k, i);
      EachExchangeOnce(ordered, k, j);
      OwnerUnique(ordered, k, i, j);
    }
  }

  /** Files that share no exchange lose nothing. */
  lemma SingleStays(files: seq<File>)
    requires Single(files)
    ensures StripAll(files) == files
  {
    forall i | 0 <= i < |files| ensures Stripped(files, files[i]) == files[i] {
      forall c | c in files[i].chunks ensures Stays(files, files[i].path, c) {
        if c.exchange && c.parent.Some? {
          var k := c.parent.value;
          assert Of(c, k) && Holds(files[i], k) && files[i] in files;
          var j := OwnerExists(files, k);
          assert OwnedAt(files, k, files[i].path);
        }
      }
      AllKept(files, files[i].path, files[i].chunks);
    }
  }

  lemma SortedPaths(files: seq<File>)
    requires UniquePaths(files)
    ensures UniquePaths(SortBy(files, PartOrder)) && Ordered(SortBy(files, PartOrder), PartOrder)
    ensures forall f :: f in SortBy(files, PartOrder) <==> f in files
  {
    PartOrderIsOrder();
    SortByCorrect(files, PartOrder);
    var sorted := SortBy(files, PartOrder);
    forall i, j | 0 <= i < j < |sorted| ensures sorted[i].path != sorted[j].path {
      if sorted[i].path == sorted[j].path {
        SamePathSameFile(files, sorted[i], sorted[j]);
        RepeatCounts(sorted, i, j);
        UniqueCounts(files);
      }
    }
  }

  lemma SamePathSameFile(files: seq<File>, f: File, g: File)
    requires UniquePaths(files) && f in files && g in files && f.path == g.path
    ensures f == g
  {
    var i :| 0 <= i < |files| && files[i] == f;
    var j :| 0 <= j < |files| && files[j] == g;
  }

  lemma UniqueCounts(files: seq<File>)
    requires UniquePaths(files)
    ensures forall f :: multiset(files)[f] <= 1
  {
    forall i, j | 0 <= i < j < |files| ensures files[i] != files[j] {
      assert files[i].path != files[j].path;
    }
    assert Distinct(files);
    DistinctCounts(files);
    forall f ensures multiset(files)[f] <= 1 {
      if f in multiset(files) {
        assert f in files;
      }
    }
  }

  /** Which copies are dropped does not depend on the order of the files. */
  lemma DropIsOrderFree(a: seq<File>, b: seq<File>)
    requires multiset(a) == multiset(b) && UniquePaths(a)
    ensures Deduplicated(a) == Deduplicated(b)
  {
    PartOrderIsOrder();
    forall f, g | f in a && g in a && PartOrder(f, g) && PartOrder(g, f) ensures f == g {
      SamePathSameFile(a, f, g);
    }
    SortUnique(a, b, PartOrder);
  }

  lemma StripKeepsOrder(ordered: seq<File>)
    requires Ordered(ordered, PartOrder)
    ensures Ordered(StripAll(ordered), PartOrder)
  {
    var out := StripAll(ordered);
    forall i, j | 0 <= i < j < |out| ensures PartOrder(out[i], out[j]) {
      assert PartOrder(ordered[i], ordered[j]);
    }
  }

  /** Dropping again drops nothing. */
  lemma DropIsIdempotent(files: seq<File>)
    requires UniquePaths(files)
    ensures Deduplicated(Deduplicated(files)) == Deduplicated(files)
  {
    SortedPaths(files);
    var ordered := SortBy(files, PartOrder);
    StrippedIsSingle(ordered);
    StripKeepsOrder(ordered);
    SortedStays(StripAll(ordered), PartOrder);
    SingleStays(StripAll(ordered));
  }

  // ---- The same on part numbers and paths ----

  /** An earlier part, or the same part number and not a later path. */
  ghost predicate NotLater(f: File, h: File) {
    f.part < h.part || (f.part == h.part && f.path <= h.path)
  }

  /** Of the files with a whole copy of the exchange the earliest, or of those with any copy when no copy is whole. */
  ghost predicate Keeps(files: seq<File>, f: File, k: Id) {
    if exists h :: h in files && Whole(h, k)
    then Whole(f, k) && forall h :: h in files && Whole(h, k) ==> NotLater(f, h)
    else Holds(f, k) && forall h :: h in files && Holds(h, k) ==> NotLater(f, h)
  }

  lemma OwnerIsEarliest(files: seq<File>, ordered: seq<File>, i: nat, k: Id)
    requires UniquePaths(files) && ordered == SortBy(files, PartOrder) && i < |ordered|
    ensures Owns(ordered, k, i) <==> Keeps(files, ordered[i], k)
  {
    SortedPaths(files);
    FirstIsEarliest(files, ordered, i, f => Whole(f, k));
    FirstIsEarliest(files, ordered, i, f => Holds(f, k));
  }

  /** The first file of a kind in part order is the one that comes no later than any other of the kind. */
  lemma FirstIsEarliest(files: seq<File>, ordered: seq<File>, i: nat, has: File -> bool)
    requires i < |ordered| && UniquePaths(ordered) && Ordered(ordered, PartOrder)
    requires forall f :: f in ordered <==> f in files
    ensures (forall j :: 0 <= j < i ==> !has(ordered[j])) <==> (forall h :: h in files && has(h) ==> NotLater(ordered[i], h))
  {
    if forall j :: 0 <= j < i ==> !has(ordered[j]) {
      forall h | h in files && has(h) ensures NotLater(ordered[i], h) {
        var j :| 0 <= j < |ordered| && ordered[j] == h;
        assert i < j ==> PartOrder(ordered[i], h);
      }
    }
    if j: nat :| j < i && has(ordered[j]) {
      assert PartOrder(ordered[j], ordered[i]) && ordered[j].path != ordered[i].path;
      assert ordered[j] in files && !NotLater(ordered[i], ordered[j]);
    }
  }

  /** A file keeps the chunks that belong to no exchange and those of the exchanges it is the one to keep. */
  ghost predicate KeepsChunk(files: seq<File>, f: File, c: Chunk) {
    c in f.chunks && (!c.exchange || c.parent.None? || Keeps(files, f, c.parent.value))
  }

  /** The files come in part order, each with what it keeps and nothing else changed. */
  lemma DeduplicatedMeans(files: seq<File>, i: nat)
    requires UniquePaths(files) && i < |Deduplicated(files)|
    ensures var g := Deduplicated(files)[i];
      exists f :: f in files && g == f.(chunks := g.chunks) && forall c :: c in g.chunks <==> KeepsChunk(files, f, c)
    ensures |Deduplicated(files)| == |files|
    ensures forall j :: i < j < |files| ==> NotLater(Deduplicated(files)[i], Deduplicated(files)[j])
  {
    var ordered := SortBy(files, PartOrder);
    SortedPaths(files);
    SortByCorrect(files, PartOrder);
    var f := ordered[i];
    KeptAre(ordered, f.path, f.chunks);
    forall c | c in f.chunks ensures Stays(ordered, f.path, c) <==> KeepsChunk(files, f, c) {
      StaysMeans(files, ordered, i, c);
    }
    assert f in files;
    forall j | i < j < |files| ensures NotLater(Deduplicated(files)[i], Deduplicated(files)[j]) {
      assert PartOrder(ordered[i], ordered[j]);
    }
  }

  lemma StaysMeans(files: seq<File>, ordered: seq<File>, i: nat, c: Chunk)
    requires UniquePaths(files) && ordered == SortBy(files, PartOrder) && i < |ordered| && c in ordered[i].chunks
    ensures Stays(ordered, ordered[i].path, c) <==> KeepsChunk(files, ordered[i], c)
  {
    SortedPaths(files);
    if c.exchange && c.parent.Some? {
      OwnerIsEarliest(files, ordered, i, c.parent.value);
      if OwnedAt(ordered, c.parent.value, ordered[i].path) {
        var j: nat :| Owns(ordered, c.parent.value, j) && ordered[j].path == ordered[i].path;
        assert i == j;
      }
    }
  }

  // ---- v1 exchanges that a v2 exchange covers ----

  /** Two instants as written; a range read backwards is turned round. */
  datatype Span = Span(one: int, other: int)
  {
    function First(): int {
      if one <= other then one else other
    }

    function Last(): int {
      if one <= other then other else one
    }
  }

  /** The exchange times of one file; None where a time is missing or broken. */
  type Times = map<Id, Option<Span>>

  /** The ranges share time, or start together; merely touching does not count. */
  predicate Overlap(a: Span, b: Span) {
    (a.First() < b.Last() && b.First() < a.Last()) || a.First() == b.First()
  }

  /** The instant lies in the range, which holds its start and not its end; a range of no length holds its one instant. */
  ghost predicate Lies(s: Span, t: int) {
    || (s.one <= t < s.other) || (s.other <= t < s.one)
    || (t == s.one <= s.other) || (t == s.other <= s.one)
  }

  /** Ranges overlap exactly when they share an instant. */
  lemma OverlapMeans(a: Span, b: Span)
    ensures Overlap(a, b) <==> exists t :: Lies(a, t) && Lies(b, t)
  {
    if Overlap(a, b) {
      var t := if a.First() <= b.First() then b.First() else a.First();
      assert Lies(a, t) && Lies(b, t);
    }
  }

  ghost predicate SomeOverlap(a: Span, others: seq<Span>) {
    exists b :: b in others && Overlap(a, b)
  }

  method Overlaps(a: Span, others: seq<Span>) returns (r: bool)
    ensures r <==> SomeOverlap(a, others)
    ensures r <==> exists b, t :: b in others && Lies(a, t) && Lies(b, t)
  {
    forall b ensures Overlap(a, b) <==> exists t :: Lies(a, t) && Lies(b, t) {
      OverlapMeans(a, b);
    }
    for i := 0 to |others|
      invariant forall j :: 0 <= j < i ==> !Overlap(a, others[j])
    {
      if Overlap(a, others[i]) {
        return true;
      }
    }
    return false;
  }

  /** The times of every file of a group, by path. */
  type Ranges = map<Id, Times>

  ghost predicate CoveringV2(files: seq<File>, ranges: Ranges, s: Span) {
    exists f, k :: f in files && f.schema == SchemaV2 && f.path in ranges && k in ranges[f.path]
      && ranges[f.path][k] == Some(s)
  }

  ghost predicate UnknownV2(files: seq<File>, ranges: Ranges) {
    exists f, k :: f in files && f.schema == SchemaV2 && f.path in ranges && k in ranges[f.path]
      && ranges[f.path][k] == None
  }

  /** The v1 exchange overlaps some v2 exchange of the group. */
  ghost predicate Covered(files: seq<File>, ranges: Ranges, path: Id, k: Id) {
    && path in ranges && k in ranges[path] && ranges[path][k].Some?
    && exists s :: CoveringV2(files, ranges, s) && Overlap(ranges[path][k].value, s)
  }

  ghost predicate LeftIn(files: seq<File>, ranges: Ranges, path: Id, c: Chunk) {
    c.parent.None? || !Covered(files, ranges, path, c.parent.value)
  }

  ghost function Uncovered(files: seq<File>, ranges: Ranges, path: Id, chunks: seq<Chunk>): seq<Chunk> {
    if chunks == [] then []
    else
      var last := chunks[|chunks| - 1];
      Uncovered(files, ranges, path, chunks[..|chunks| - 1]) + if LeftIn(files, ranges, path, last) then [last] else []
  }

  ghost function WithoutCovered(files: seq<File>, ranges: Ranges, f: File): File {
    if f.schema == SchemaV1 then f.(chunks := Uncovered(files, ranges, f.path, f.chunks)) else f
  }

  ghost predicate HasSchema(files: seq<File>, schema: Schema) {
    exists f :: f in files && f.schema == schema
  }

  /** Only a readable group with both kinds and known v2 times leaves anything out. */
  ghost predicate RuleApplies(files: seq<File>, ranges: Ranges, unreadable: bool) {
    HasSchema(files, SchemaV1) && HasSchema(files, SchemaV2) && !unreadable && !UnknownV2(files, ranges)
  }

  ghost function AfterOverlaps(files: seq<File>, ranges: Ranges, unreadable: bool): seq<File> {
    if RuleApplies(files, ranges, unreadable)
    then seq(|files|, i requires 0 <= i < |files| => WithoutCovered(files, ranges, files[i])) else files
  }

  /** Both group rules. */
  ghost function Regrouped(files: seq<File>, ranges: Ranges, unreadable: bool): seq<File> {
    AfterOverlaps(Deduplicated(files), ranges, unreadable)
  }

  method TimesOf(times: Times) returns (spans: Option<seq<Span>>)
    ensures spans.None? <==> exists k :: k in times && times[k] == None
    ensures spans.Some? ==> forall s :: s in spans.value <==> exists k :: k in times && times[k] == Some(s)
  {
    var found: seq<Span> := [];
    var pending := times.Keys;
    while pending != {}
      invariant pending <= times.Keys
      invariant forall k :: k in times && k !in pending ==> times[k].Some? && times[k].value in found
      invariant forall s :: s in found ==> exists k :: k in times && times[k] == Some(s)
      decreases pending
    {
      var k :| k in pending;
      if times[k].None? {
        return None;
      }
      found := found + [times[k].value];
      pending := pending - {k};
    }
    return Some(found);
  }

  /** The v2 times of the group, or None when one is unknown. */
  method CoveringTimes(files: seq<File>, ranges: Ranges) returns (spans: Option<seq<Span>>)
    requires forall f :: f in files && f.schema == SchemaV2 ==> f.path in ranges
    ensures spans.None? <==> UnknownV2(files, ranges)
    ensures spans.Some? ==> forall s :: s in spans.value <==> CoveringV2(files, ranges, s)
  {
    var found: seq<Span> := [];
    for i := 0 to |files|
      invariant !UnknownV2(files[..i], ranges)
      invariant forall s :: s in found <==> CoveringV2(files[..i], ranges, s)
    {
      MoreCovering(files, ranges, i);
      if files[i].schema == SchemaV2 {
        var times := TimesOf(ranges[files[i].path]);
        if times.None? {
          assert UnknownV2(files, ranges) by {
            var k :| k in ranges[files[i].path] && ranges[files[i].path][k] == None;
            assert files[i] in files;
          }
          return None;
        }
        found := found + times.value;
      }
    }
    assert files[..|files|] == files;
    return Some(found);
  }

  lemma MoreCovering(files: seq<File>, ranges: Ranges, i: nat)
    requires i < |files|
    ensures var here := files[i].schema == SchemaV2 && files[i].path in ranges;
      && (UnknownV2(files[..i + 1], ranges) <==>
            UnknownV2(files[..i], ranges)
            || (here && exists k :: k in ranges[files[i].path] && ranges[files[i].path][k] == None))
      && forall s :: CoveringV2(files[..i + 1], ranges, s) <==>
            CoveringV2(files[..i], ranges, s)
            || (here && exists k :: k in ranges[files[i].path] && ranges[files[i].path][k] == Some(s))
  {
    assert forall f :: f in files[..i + 1] <==> f in files[..i] || f == files[i] by {
      assert files[..i + 1] == files[..i] + [files[i]];
    }
  }

  method RemoveCovered(f: File, times: Times, spans: seq<Span>, ghost files: seq<File>, ghost ranges: Ranges)
    returns (r: File)
    requires f.schema == SchemaV1 && f.path in ranges && ranges[f.path] == times
    requires forall s :: s in spans <==> CoveringV2(files, ranges, s)
    ensures r == WithoutCovered(files, ranges, f)
  {
    var chunks: seq<Chunk> := [];
    for i := 0 to |f.chunks|
      invariant chunks == Uncovered(files, ranges, f.path, f.chunks[..i])
    {
      var c := f.chunks[i];
      assert f.chunks[..i + 1][..i] == f.chunks[..i];
      var out := false;
      if c.parent.Some? && c.parent.value in times && times[c.parent.value].Some? {
        out := Overlaps(times[c.parent.value].value, spans);
      }
      if !out {
        chunks := chunks + [c];
      }
    }
    assert f.chunks[..|f.chunks|] == f.chunks;
    r := f.(chunks := chunks);
  }

  method ReprocessGroup(members: seq<File>, ranges: Ranges, unreadable: bool) returns (r: seq<File>)
    requires unreadable || forall f :: f in members ==> f.path in ranges
    ensures r == Regrouped(members, ranges, unreadable)
  {
    var files := DropDuplicateExchanges(members);
    SamePaths(members);
    var v1 := exists f | f in files :: f.schema == SchemaV1;
    var v2 := exists f | f in files :: f.schema == SchemaV2;
    if !v1 || !v2 || unreadable {
      return files;
    }
    var spans := CoveringTimes(files, ranges);
    if spans.None? {
      return files;
    }
    assert RuleApplies(files, ranges, unreadable);
    r := LeaveOut(files, ranges, spans.value);
  }

  method LeaveOut(files: seq<File>, ranges: Ranges, spans: seq<Span>) returns (r: seq<File>)
    requires forall f :: f in files ==> f.path in ranges
    requires forall s :: s in spans <==> CoveringV2(files, ranges, s)
    ensures |r| == |files| && forall i :: 0 <= i < |files| ==> r[i] == WithoutCovered(files, ranges, files[i])
  {
    r := [];
    for i := 0 to |files|
      invariant |r| == i && forall j :: 0 <= j < i ==> r[j] == WithoutCovered(files, ranges, files[j])
    {
      assert files[i] in files;
      if files[i].schema != SchemaV1 {
        r := r + [files[i]];
      } else {
        var f := RemoveCovered(files[i], ranges[files[i].path], spans, files, ranges);
        r := r + [f];
      }
    }
  }

  lemma SamePaths(members: seq<File>)
    ensures forall g :: g in Deduplicated(members) ==> exists f :: f in members && f.path == g.path && f.schema == g.schema
  {
    SortByCorrect(members, PartOrder);
    forall g | g in Deduplicated(members) ensures exists f :: f in members && f.path == g.path && f.schema == g.schema {
      var i :| 0 <= i < |Deduplicated(members)| && Deduplicated(members)[i] == g;
      assert SortBy(members, PartOrder)[i] in members;
    }
  }

  // ---- What both rules guarantee ----

  lemma {:induction false} UncoveredAre(files: seq<File>, ranges: Ranges, path: Id, chunks: seq<Chunk>)
    ensures forall c :: c in Uncovered(files, ranges, path, chunks) <==> c in chunks && LeftIn(files, ranges, path, c)
  {
    if chunks != [] {
      var front, last := chunks[..|chunks| - 1], chunks[|chunks| - 1];
      assert chunks == front + [last];
      UncoveredAre(files, ranges, path, front);
    }
  }

  lemma {:induction false} UncoveredStay(files: seq<File>, ranges: Ranges, path: Id, chunks: seq<Chunk>)
    requires forall c :: c in chunks ==> LeftIn(files, ranges, path, c)
    ensures Uncovered(files, ranges, path, chunks) == chunks
  {
    if chunks != [] {
      var front, last := chunks[..|chunks| - 1], chunks[|chunks| - 1];
      assert chunks == front + [last];
      UncoveredStay(files, ranges, path, front);
    }
  }

  /** The two lists have the same files but for their chunks. */
  ghost predicate SameHeads(a: seq<File>, b: seq<File>) {
    |a| == |b| && forall i :: 0 <= i < |a| ==> a[i].(chunks := []) == b[i].(chunks := [])
  }

  lemma HeadsDecide(a: seq<File>, b: seq<File>, ranges: Ranges, unreadable: bool)
    requires SameHeads(a, b)
    ensures RuleApplies(a, ranges, unreadable) ==> RuleApplies(b, ranges, unreadable)
    ensures forall path, k :: Covered(a, ranges, path, k) ==> Covered(b, ranges, path, k)
    ensures SameHeads(b, a)
  {
    HeadsSchema(a, b, SchemaV1);
    HeadsSchema(a, b, SchemaV2);
    if UnknownV2(b, ranges) {
      var f, k :| f in b && f.schema == SchemaV2 && f.path in ranges && k in ranges[f.path] && ranges[f.path][k] == None;
      var i :| 0 <= i < |b| && b[i] == f;
      assert a[i] in a && a[i].(chunks := []) == b[i].(chunks := []);
    }
    forall s | CoveringV2(a, ranges, s) ensures CoveringV2(b, ranges, s) {
      HeadsCover(a, b, ranges, s);
    }
  }

  lemma HeadsSchema(a: seq<File>, b: seq<File>, schema: Schema)
    requires SameHeads(a, b)
    ensures HasSchema(a, schema) ==> HasSchema(b, schema)
  {
    if f :| f in a && f.schema == schema {
      var i :| 0 <= i < |a| && a[i] == f;
      assert b[i] in b && a[i].(chunks := []) == b[i].(chunks := []);
    }
  }

  lemma HeadsCover(a: seq<File>, b: seq<File>, ranges: Ranges, s: Span)
    requires SameHeads(a, b) && CoveringV2(a, ranges, s)
    ensures CoveringV2(b, ranges, s)
  {
    var f, k :| f in a && f.schema == SchemaV2 && f.path in ranges && k in ranges[f.path] && ranges[f.path][k] == Some(s);
    var i :| 0 <= i < |a| && a[i] == f;
    assert b[i] in b && a[i].(chunks := []) == b[i].(chunks := []);
  }

  lemma OverlapsKeepHeads(files: seq<File>, ranges: Ranges, unreadable: bool)
    ensures SameHeads(files, AfterOverlaps(files, ranges, unreadable))
  {
  }

  /** Leaving out what overlaps twice is leaving it out once. */
  lemma OverlapsIdempotent(files: seq<File>, ranges: Ranges, unreadable: bool)
    ensures AfterOverlaps(AfterOverlaps(files, ranges, unreadable), ranges, unreadable)
         == AfterOverlaps(files, ranges, unreadable)
  {
    var once := AfterOverlaps(files, ranges, unreadable);
    OverlapsKeepHeads(files, ranges, unreadable);
    HeadsDecide(files, once, ranges, unreadable);
    HeadsDecide(once, files, ranges, unreadable);
    if RuleApplies(files, ranges, unreadable) {
      forall i | 0 <= i < |once| ensures WithoutCovered(once, ranges, once[i]) == once[i] {
        CoveredOnce(files, once, ranges, files[i]);
      }
    }
  }

  lemma CoveredOnce(files: seq<File>, once: seq<File>, ranges: Ranges, f: File)
    requires forall path, k :: Covered(once, ranges, path, k) ==> Covered(files, ranges, path, k)
    ensures WithoutCovered(once, ranges, WithoutCovered(files, ranges, f)) == WithoutCovered(files, ranges, f)
  {
    if f.schema == SchemaV1 {
      UncoveredAre(files, ranges, f.path, f.chunks);
      UncoveredStay(once, ranges, f.path, Uncovered(files, ranges, f.path, f.chunks));
    }
  }

  lemma UncoveredHolds(files: seq<File>, ranges: Ranges, f: File, k: Id)
    ensures Holds(WithoutCovered(files, ranges, f), k) ==> Holds(f, k)
  {
    UncoveredAre(files, ranges, f.path, f.chunks);
  }

  lemma OverlapsKeepSingle(files: seq<File>, ranges: Ranges, unreadable: bool)
    requires Single(files) && Ordered(files, PartOrder)
    ensures Single(AfterOverlaps(files, ranges, unreadable)) && Ordered(AfterOverlaps(files, ranges, unreadable), PartOrder)
  {
    var after := AfterOverlaps(files, ranges, unreadable);
    forall i, k | 0 <= i < |after| && Holds(after[i], k) ensures Holds(files[i], k) {
      UncoveredHolds(files, ranges, files[i], k);
    }
    OverlapsKeepHeads(files, ranges, unreadable);
    forall i, j | 0 <= i < j < |after| ensures PartOrder(after[i], after[j]) {
      assert PartOrder(files[i], files[j]);
      assert files[i].(chunks := []) == after[i].(chunks := []) && files[j].(chunks := []) == after[j].(chunks := []);
    }
  }

  /** Running the group rules on their own result changes nothing. */
  lemma RegroupIsIdempotent(files: seq<File>, ranges: Ranges, unreadable: bool)
    requires UniquePaths(files)
    ensures Regrouped(Regrouped(files, ranges, unreadable), ranges, unreadable) == Regrouped(files, ranges, unreadable)
  {
    SortedPaths(files);
    StrippedIsSingle(SortBy(files, PartOrder));
    StripKeepsOrder(SortBy(files, PartOrder));
    OverlapsKeepSingle(Deduplicated(files), ranges, unreadable);
    var after := Regrouped(files, ranges, unreadable);
    SortedStays(after, PartOrder);
    SingleStays(after);
    OverlapsIdempotent(Deduplicated(files), ranges, unreadable);
  }

  /** The result does not depend on the order of the files. */
  lemma RegroupIsOrderFree(a: seq<File>, b: seq<File>, ranges: Ranges, unreadable: bool)
    requires multiset(a) == multiset(b) && UniquePaths(a)
    ensures Regrouped(a, ranges, unreadable) == Regrouped(b, ranges, unreadable)
  {
    DropIsOrderFree(a, b);
  }

  // ---- All the groups of a run ----

  /** Exchange times by Vault and path. */
  type AllRanges = map<(Id, Id), Times>
  type GroupId = (Id, Id)

  function GroupOf(f: File): Option<GroupId> {
    if f.group.None? then None else Some((f.vault, f.group.value))
  }

  /** The files of one session, in the order they come. */
  function Members(documents: seq<File>, g: GroupId): seq<File> {
    if documents == [] then []
    else
      var last := documents[|documents| - 1];
      Members(documents[..|documents| - 1], g) + if GroupOf(last) == Some(g) then [last] else []
  }

  function RangesOf(all: AllRanges, vault: Id): Ranges {
    map key | key in all && key.0 == vault :: key.1 := all[key]
  }

  /** A member could not be read, or its times are not known. */
  ghost predicate Incomplete(documents: seq<File>, all: AllRanges, unread: set<GroupId>, g: GroupId) {
    g in unread || exists f :: f in documents && GroupOf(f) == Some(g) && (f.vault, f.path) !in all
  }

  ghost function GroupResult(documents: seq<File>, all: AllRanges, unread: set<GroupId>, g: GroupId): seq<File> {
    Regrouped(Members(documents, g), RangesOf(all, g.0), Incomplete(documents, all, unread, g))
  }

  /** `r` is what becomes of the file `f`. */
  ghost predicate Becomes(documents: seq<File>, all: AllRanges, unread: set<GroupId>, f: File, r: File) {
    match GroupOf(f)
    case None => r == f
    case Some(g) => r in GroupResult(documents, all, unread, g) && r.path == f.path
  }

  lemma {:induction false} MembersAre(documents: seq<File>, g: GroupId)
    ensures forall f :: f in Members(documents, g) <==> f in documents && GroupOf(f) == Some(g)
  {
    if documents != [] {
      var front, last := documents[..|documents| - 1], documents[|documents| - 1];
      assert documents == front + [last];
      MembersAre(front, g);
    }
  }

  method GroupMembers(documents: seq<File>) returns (groups: map<GroupId, seq<File>>)
    ensures forall g :: g in groups <==> exists f :: f in documents && GroupOf(f) == Some(g)
    ensures forall g :: g in groups ==> groups[g] == Members(documents, g)
  {
    groups := map[];
    for i := 0 to |documents|
      invariant forall g :: g in groups <==> Members(documents[..i], g) != []
      invariant forall g :: g in groups ==> groups[g] == Members(documents[..i], g)
    {
      var g := GroupOf(documents[i]);
      assert documents[..i + 1][..i] == documents[..i];
      if g.Some? {
        groups := groups[g.value := (if g.value in groups then groups[g.value] else []) + [documents[i]]];
      }
    }
    assert documents[..|documents|] == documents;
    forall g ensures Members(documents, g) != [] <==> exists f :: f in documents && GroupOf(f) == Some(g) {
      MembersAre(documents, g);
      if Members(documents, g) != [] {
        assert Members(documents, g)[0] in documents;
      }
    }
  }

  method FindIncomplete(documents: seq<File>, all: AllRanges, unread: set<GroupId>) returns (incomplete: set<GroupId>)
    ensures forall g :: g in incomplete <==> Incomplete(documents, all, unread, g)
  {
    incomplete := unread + set f | f in documents && f.group.Some? && (f.vault, f.path) !in all :: (f.vault, f.group.value);
    forall g ensures g in incomplete <==> Incomplete(documents, all, unread, g) {
      if f :| f in documents && GroupOf(f) == Some(g) && (f.vault, f.path) !in all {
        assert g == (f.vault, f.group.value);
      }
    }
  }

  /** The processed files of every group, by group and path. */
  method ReprocessGroups(documents: seq<File>, groups: map<GroupId, seq<File>>, all: AllRanges, unread: set<GroupId>)
    returns (replaced: map<GroupId, seq<File>>)
    requires forall g :: g in groups ==> groups[g] == Members(documents, g)
    ensures replaced.Keys == groups.Keys
    ensures forall g :: g in replaced ==> replaced[g] == GroupResult(documents, all, unread, g)
  {
    var incomplete := FindIncomplete(documents, all, unread);
    replaced := map[];
    var pending := groups.Keys;
    while pending != {}
      invariant pending <= groups.Keys && replaced.Keys == groups.Keys - pending
      invariant forall g :: g in replaced ==> replaced[g] == GroupResult(documents, all, unread, g)
      decreases pending
    {
      var g: GroupId :| g in pending;
      MembersAre(documents, g);
      MembersKnown(documents, all, unread, g);
      var files := ReprocessGroup(groups[g], RangesOf(all, g.0), g in incomplete);
      replaced := replaced[g := files];
      pending := pending - {g};
    }
  }

  lemma MembersKnown(documents: seq<File>, all: AllRanges, unread: set<GroupId>, g: GroupId)
    ensures Incomplete(documents, all, unread, g)
      || forall f :: f in Members(documents, g) ==> f.path in RangesOf(all, g.0)
  {
    MembersAre(documents, g);
    if !Incomplete(documents, all, unread, g) {
      forall f | f in Members(documents, g) ensures f.path in RangesOf(all, g.0) {
        assert (f.vault, f.path) in all;
      }
    }
  }

  method FileAt(files: seq<File>, path: Id) returns (r: File)
    requires exists f :: f in files && f.path == path
    ensures r in files && r.path == path
  {
    var i := 0;
    while files[i].path != path
      invariant 0 <= i < |files| && forall j :: 0 <= j < i ==> files[j].path != path
      decreases |files| - i
    {
      i := i + 1;
    }
    return files[i];
  }

  /** Every file of a group has its counterpart in the group's result. */
  lemma CounterpartExists(files: seq<File>, ranges: Ranges, unreadable: bool, f: File)
    requires f in files
    ensures exists r :: r in Regrouped(files, ranges, unreadable) && r.path == f.path
  {
    SortByCorrect(files, PartOrder);
    var i :| 0 <= i < |SortBy(files, PartOrder)| && SortBy(files, PartOrder)[i] == f;
    var after := Regrouped(files, ranges, unreadable);
    OverlapsKeepHeads(Deduplicated(files), ranges, unreadable);
    assert Deduplicated(files)[i].(chunks := []) == after[i].(chunks := []);
    assert after[i] in after && after[i].path == f.path;
  }

  /** Apply the group rules to the documents of a run, in place. */
  method ReprocessSessionGroups(documents: seq<File>, all: AllRanges, unread: set<GroupId>) returns (r: seq<File>)
    ensures |r| == |documents|
    ensures forall i :: 0 <= i < |documents| ==> Becomes(documents, all, unread, documents[i], r[i])
  {
    var groups := GroupMembers(documents);
    var replaced := ReprocessGroups(documents, groups, all, unread);
    r := [];
    for i := 0 to |documents|
      invariant |r| == i && forall j :: 0 <= j < i ==> Becomes(documents, all, unread, documents[j], r[j])
    {
      var f := Reprocessed(documents, documents[i], replaced, all, unread);
      r := r + [f];
    }
  }

  /** What becomes of one document: itself, or its counterpart in its group's result. */
  method Reprocessed(documents: seq<File>, f: File, replaced: map<GroupId, seq<File>>, ghost all: AllRanges,
                     ghost unread: set<GroupId>) returns (r: File)
    requires f in documents && (GroupOf(f).Some? ==> GroupOf(f).value in replaced)
    requires forall g :: g in replaced ==> replaced[g] == GroupResult(documents, all, unread, g)
    ensures Becomes(documents, all, unread, f, r)
  {
    if f.group.None? {
      return f;
    }
    var g := (f.vault, f.group.value);
    MembersAre(documents, g);
    CounterpartExists(Members(documents, g), RangesOf(all, g.0), Incomplete(documents, all, unread, g), f);
    r := FileAt(replaced[g], f.path);
  }

  lemma RegroupedPaths(files: seq<File>, ranges: Ranges, unreadable: bool)
    requires UniquePaths(files)
    ensures UniquePaths(Regrouped(files, ranges, unreadable))
  {
    SortedPaths(files);
    var once, after := Deduplicated(files), Regrouped(files, ranges, unreadable);
    OverlapsKeepHeads(once, ranges, unreadable);
    forall i, j | 0 <= i < j < |after| ensures after[i].path != after[j].path {
      assert once[i].(chunks := []) == after[i].(chunks := []) && once[j].(chunks := []) == after[j].(chunks := []);
    }
  }

  /** The times of the group's files agree. */
  ghost predicate SameTimes(files: seq<File>, a: Ranges, b: Ranges) {
    forall f :: f in files ==> (f.path in a <==> f.path in b) && (f.path in a ==> a[f.path] == b[f.path])
  }

  lemma TimesDecide(files: seq<File>, a: Ranges, b: Ranges, unreadable: bool)
    requires SameTimes(files, a, b)
    ensures AfterOverlaps(files, a, unreadable) == AfterOverlaps(files, b, unreadable)
  {
    forall s ensures CoveringV2(files, a, s) <==> CoveringV2(files, b, s) {}
    assert UnknownV2(files, a) <==> UnknownV2(files, b);
    forall i | 0 <= i < |files| ensures WithoutCovered(files, a, files[i]) == WithoutCovered(files, b, files[i]) {
      assert files[i] in files;
      SameUncovered(files, a, b, files[i].path, files[i].chunks);
    }
  }

  lemma {:induction false} SameUncovered(files: seq<File>, a: Ranges, b: Ranges, path: Id, chunks: seq<Chunk>)
    requires forall s :: CoveringV2(files, a, s) <==> CoveringV2(files, b, s)
    requires (path in a <==> path in b) && (path in a ==> a[path] == b[path])
    ensures Uncovered(files, a, path, chunks) == Uncovered(files, b, path, chunks)
  {
    if chunks != [] {
      SameUncovered(files, a, b, path, chunks[..|chunks| - 1]);
      assert forall k :: Covered(files, a, path, k) <==> Covered(files, b, path, k);
    }
  }

  lemma DedupedTimes(files: seq<File>, a: Ranges, b: Ranges)
    requires SameTimes(files, a, b)
    ensures SameTimes(Deduplicated(files), a, b)
  {
    SamePaths(files);
  }

  /**
   * What becomes of a file depends on the files of its own session and their times, whatever else the run loaded and
   * in whatever order.
   */
  lemma GroupsAreLocal(documents: seq<File>, others: seq<File>, all: AllRanges, more: AllRanges, unread: set<GroupId>,
                       f: File, r: File, s: File)
    requires Becomes(documents, all, unread, f, r) && Becomes(others, more, unread, f, s)
    requires GroupOf(f).Some? ==>
      var g := GroupOf(f).value;
      && multiset(Members(documents, g)) == multiset(Members(others, g)) && UniquePaths(Members(documents, g))
      && SameTimes(Members(documents, g), RangesOf(all, g.0), RangesOf(more, g.0))
      && (Incomplete(documents, all, unread, g) <==> Incomplete(others, more, unread, g))
    ensures r == s
  {
    if GroupOf(f).Some? {
      var g := GroupOf(f).value;
      var members, flag := Members(documents, g), Incomplete(documents, all, unread, g);
      RegroupIsOrderFree(members, Members(others, g), RangesOf(more, g.0), flag);
      DedupedTimes(members, RangesOf(all, g.0), RangesOf(more, g.0));
      TimesDecide(Deduplicated(members), RangesOf(all, g.0), RangesOf(more, g.0), flag);
      RegroupedPaths(members, RangesOf(all, g.0), flag);
      SamePathSameFile(Regrouped(members, RangesOf(all, g.0), flag), r, s);
    }
  }
}
