/** An incremental metadata run against a full one: which files it loads, and that sessions come out the same. */
module MetadataRuns {
  import opened Core
  import opened Provenance
  import opened MetadataClosure
  import SG = SessionGroups

  // ---- The state before, the change, the closure ----

  ghost function LinksIn(disk: Disk): Links {
    set k, l | k in disk && l in disk[k].links :: (k, Key(k.vault, l))
  }

  /** The index shows what a full run on `before` gives. */
  ghost predicate Indexed(before: Disk, index: Index) {
    && (forall k :: k in before <==> k in index && index[k].live)
    && (forall k :: k in before ==> index[k].group == before[k].group && HasFamily(before, index, k))
  }

  ghost predicate HasFamily(before: Disk, index: Index, k: Key)
    requires k in index
  {
    && index[k].family.Some? && index[k].family.value.vault == k.vault
    && IsSeed(LinksIn(before), k, index[k].family.value.seed)
  }

  /** Files outside `keys` are as they were. */
  ghost predicate Touched(before: Disk, now: Disk, keys: set<Key>) {
    forall k :: k !in keys ==> (k in before <==> k in now) && (k in now ==> now[k] == before[k])
  }

  /** A run over a readable disk whose keys hold every added, edited and removed file. */
  ghost predicate Run(before: Disk, now: Disk, index: Index, inScope: Key -> bool, keys: set<Key>, seen: set<Key>) {
    && Indexed(before, index) && Touched(before, now, keys) && Closure(now, index, inScope, keys, seen)
    && (forall k :: k in now ==> now[k].readable)
    && (forall k :: k in now || k in before ==> inScope(k))
  }

  lemma Unseen(before: Disk, now: Disk, index: Index, inScope: Key -> bool, keys: set<Key>, seen: set<Key>, k: Key)
    requires Run(before, now, index, inScope, keys, seen) && k !in seen
    ensures (k in before <==> k in now) && (k in now ==> now[k] == before[k])
  {
    assert k !in keys;
  }

  lemma Pulled(before: Disk, now: Disk, index: Index, inScope: Key -> bool, keys: set<Key>, seen: set<Key>, k: Key, m: Key)
    requires Run(before, now, index, inScope, keys, seen) && k in seen && m in Opens(now, index, k) && inScope(m)
    ensures m in seen
  {
  }

  // ---- Sessions ----

  ghost predicate InGroup(disk: Disk, k: Key, g: GroupId) {
    k in disk && k.vault == g.0 && disk[k].group == Some(g.1)
  }

  /** Once one file of a session is loaded, before or after its edit, the whole session is. */
  lemma SessionsAreWhole(before: Disk, now: Disk, index: Index, inScope: Key -> bool, keys: set<Key>, seen: set<Key>,
                         k: Key, g: GroupId, m: Key)
    requires Run(before, now, index, inScope, keys, seen)
    requires k in seen && (InGroup(now, k, g) || InGroup(before, k, g)) && InGroup(now, m, g)
    ensures m in seen
  {
    if m !in seen {
      Unseen(before, now, index, inScope, keys, seen, m);
      assert index[m].live && index[m].group == Some(g.1);
      assert m in MembersOfGroup(index, g);
      assert g in GroupIds(now, index, k);
      assert m in GroupMembers(index, GroupIds(now, index, k));
      Pulled(before, now, index, inScope, keys, seen, k, m);
    }
  }

  /** A session none of whose files was loaded is as it was. */
  lemma UntouchedSession(before: Disk, now: Disk, index: Index, inScope: Key -> bool, keys: set<Key>, seen: set<Key>,
                         f: Key, g: GroupId, m: Key)
    requires Run(before, now, index, inScope, keys, seen) && f !in seen && InGroup(now, f, g)
    ensures InGroup(before, m, g) <==> InGroup(now, m, g)
    ensures InGroup(now, m, g) ==> now[m] == before[m] && m !in seen
  {
    if m in seen {
      if InGroup(now, m, g) || InGroup(before, m, g) {
        SessionsAreWhole(before, now, index, inScope, keys, seen, m, g, f);
      }
    } else {
      Unseen(before, now, index, inScope, keys, seen, m);
    }
  }

  // ---- The chunks of loaded session files ----

  function FileKey(f: SG.File): Key {
    Key(f.vault, f.path)
  }

  /** The normalized files of a disk, each once. */
  ghost predicate FilesOf(files: seq<SG.File>, disk: Disk) {
    && Distinct(files) && (forall f :: f in files ==> FileKey(f) in disk && disk[FileKey(f)].group == f.group)
    && (forall f, h :: f in files && h in files && FileKey(f) == FileKey(h) ==> f == h)
  }

  lemma {:induction false} MembersCounts(files: seq<SG.File>, g: SG.GroupId)
    ensures forall f :: multiset(SG.Members(files, g))[f] == if SG.GroupOf(f) == Some(g) then multiset(files)[f] else 0
  {
    if files != [] {
      var front, last := files[..|files| - 1], files[|files| - 1];
      assert files == front + [last];
      MembersCounts(front, g);
    }
  }

  /** The loaded files of a loaded file's session are the session's files, so its chunks are those of a full run. */
  lemma LoadedChunksAreFull(before: Disk, now: Disk, index: Index, inScope: Key -> bool, keys: set<Key>, seen: set<Key>,
                            full: seq<SG.File>, loaded: seq<SG.File>, all: SG.AllRanges, some: SG.AllRanges,
                            f: SG.File, r: SG.File, s: SG.File)
    requires Run(before, now, index, inScope, keys, seen) && FilesOf(full, now) && FilesOf(loaded, now)
    requires forall h :: h in loaded <==> h in full && FileKey(h) in seen
    requires forall h :: h in loaded ==>
      ((h.vault, h.path) in some <==> (h.vault, h.path) in all)
      && ((h.vault, h.path) in all ==> some[(h.vault, h.path)] == all[(h.vault, h.path)])
    requires f in loaded && SG.Becomes(full, all, {}, f, r) && SG.Becomes(loaded, some, {}, f, s)
    ensures r == s
  {
    if SG.GroupOf(f).Some? {
      var g := SG.GroupOf(f).value;
      WholeSessionLoaded(before, now, index, inScope, keys, seen, full, loaded, f, g);
      SameMembers(full, loaded, g);
      MembersUnique(full, now, g);
      TimesLoaded(full, loaded, all, some, g);
    }
    SG.GroupsAreLocal(full, loaded, all, some, {}, f, r, s);
  }

  lemma WholeSessionLoaded(before: Disk, now: Disk, index: Index, inScope: Key -> bool, keys: set<Key>, seen: set<Key>,
                           full: seq<SG.File>, loaded: seq<SG.File>, f: SG.File, g: SG.GroupId)
    requires Run(before, now, index, inScope, keys, seen) && FilesOf(full, now)
    requires (forall h :: h in loaded <==> h in full && FileKey(h) in seen) && f in loaded && SG.GroupOf(f) == Some(g)
    ensures forall h :: SG.GroupOf(h) == Some(g) ==> (h in full <==> h in loaded)
  {
    forall h | h in full && SG.GroupOf(h) == Some(g) ensures h in loaded {
      SessionsAreWhole(before, now, index, inScope, keys, seen, FileKey(f), g, FileKey(h));
    }
  }

  /** A file that did not change is read as it was, with the same times. */
  ghost predicate SameReading(before: Disk, now: Disk, was: seq<SG.File>, full: seq<SG.File>, prior: SG.AllRanges,
                              all: SG.AllRanges)
  {
    forall h :: FileKey(h) in before && FileKey(h) in now && before[FileKey(h)] == now[FileKey(h)] ==>
      && (h in was <==> h in full) && ((h.vault, h.path) in prior <==> (h.vault, h.path) in all)
      && ((h.vault, h.path) in all ==> prior[(h.vault, h.path)] == all[(h.vault, h.path)])
  }

  /** The chunks stored for a file that is not loaded, those of the full run before, are those of a full run now. */
  lemma UntouchedChunksAreFull(before: Disk, now: Disk, index: Index, inScope: Key -> bool, keys: set<Key>, seen: set<Key>,
                               was: seq<SG.File>, full: seq<SG.File>, prior: SG.AllRanges, all: SG.AllRanges,
                               f: SG.File, r: SG.File, s: SG.File)
    requires Run(before, now, index, inScope, keys, seen) && FilesOf(was, before) && FilesOf(full, now)
    requires SameReading(before, now, was, full, prior, all) && f in full && FileKey(f) !in seen
    requires SG.Becomes(was, prior, {}, f, r) && SG.Becomes(full, all, {}, f, s)
    ensures r == s
  {
    if SG.GroupOf(f).Some? {
      var g := SG.GroupOf(f).value;
      forall h | SG.GroupOf(h) == Some(g) && (h in was || h in full)
        ensures FileKey(h) in before && FileKey(h) in now && before[FileKey(h)] == now[FileKey(h)]
      {
        UntouchedSession(before, now, index, inScope, keys, seen, FileKey(f), g, FileKey(h));
      }
      SameMembers(full, was, g);
      MembersUnique(full, now, g);
      TimesLoaded(full, was, all, prior, g);
    }
    SG.GroupsAreLocal(full, was, all, prior, {}, f, s, r);
  }

  /** The session's times are known to the loaded files as they are to all files. */
  lemma TimesLoaded(full: seq<SG.File>, loaded: seq<SG.File>, all: SG.AllRanges, some: SG.AllRanges, g: SG.GroupId)
    requires forall h :: SG.GroupOf(h) == Some(g) ==> (h in full <==> h in loaded)
    requires forall h :: h in loaded && SG.GroupOf(h) == Some(g) ==>
      ((h.vault, h.path) in some <==> (h.vault, h.path) in all)
      && ((h.vault, h.path) in all ==> some[(h.vault, h.path)] == all[(h.vault, h.path)])
    ensures SG.SameTimes(SG.Members(full, g), SG.RangesOf(all, g.0), SG.RangesOf(some, g.0))
    ensures SG.Incomplete(full, all, {}, g) <==> SG.Incomplete(loaded, some, {}, g)
  {
    SG.MembersAre(full, g);
    forall f | f in SG.Members(full, g)
      ensures (f.path in SG.RangesOf(all, g.0) <==> f.path in SG.RangesOf(some, g.0))
           && (f.path in SG.RangesOf(all, g.0) ==> SG.RangesOf(all, g.0)[f.path] == SG.RangesOf(some, g.0)[f.path])
    {
      RangeAt(all, g.0, f.path);
      RangeAt(some, g.0, f.path);
      assert f in loaded && f.vault == g.0;
    }
  }

  lemma RangeAt(all: SG.AllRanges, vault: Id, path: Id)
    ensures path in SG.RangesOf(all, vault) <==> (vault, path) in all
    ensures path in SG.RangesOf(all, vault) ==> SG.RangesOf(all, vault)[path] == all[(vault, path)]
  {
  }

  lemma SameMembers(full: seq<SG.File>, loaded: seq<SG.File>, g: SG.GroupId)
    requires Distinct(full) && Distinct(loaded)
    requires forall h :: SG.GroupOf(h) == Some(g) ==> (h in full <==> h in loaded)
    ensures multiset(SG.Members(full, g)) == multiset(SG.Members(loaded, g))
  {
    MembersCounts(full, g);
    MembersCounts(loaded, g);
    DistinctCounts(full);
    DistinctCounts(loaded);
    forall h ensures multiset(SG.Members(full, g))[h] == multiset(SG.Members(loaded, g))[h] {
      assert h in full <==> multiset(full)[h] > 0;
      assert h in loaded <==> multiset(loaded)[h] > 0;
    }
  }

  lemma MembersUnique(files: seq<SG.File>, disk: Disk, g: SG.GroupId)
    requires FilesOf(files, disk)
    ensures SG.UniquePaths(SG.Members(files, g))
  {
    var members := SG.Members(files, g);
    SG.MembersAre(files, g);
    MembersCounts(files, g);
    DistinctCounts(files);
    forall i, j | 0 <= i < j < |members| ensures members[i].path != members[j].path {
      if members[i].path == members[j].path {
        assert members[i] in files && members[j] in files && FileKey(members[i]) == FileKey(members[j]);
        assert multiset(members)[members[i]] == multiset(files)[members[i]] == 1;
        RepeatCounts(members, i, j);
      }
    }
  }

  // ---- The plan of a run ----

  /** The keys a run starts from: files that are not known to be unchanged, and indexed files that are gone. */
  function StartKeys(onDisk: set<Key>, skipped: set<Key>, live: set<Key>): set<Key> {
    (onDisk - skipped) + (live - onDisk)
  }

  /** Skipping files that did not change leaves every change among the keys. */
  lemma KeysHoldChanges(before: Disk, now: Disk, index: Index, skipped: set<Key>, live: set<Key>)
    requires Indexed(before, index) && live == set k | k in index && index[k].live
    requires forall k :: k in skipped ==> k in before && k in now && now[k] == before[k]
    ensures Touched(before, now, StartKeys(now.Keys, skipped, live))
  {
  }

  /** Sort the loaded and the skipped files into changed and unchanged ones, and find the deleted ones. */
  method BuildPlan(loaded: set<Key>, skipped: set<Key>, known: map<Key, bool>, differs: Key -> bool, full: bool)
    returns (changed: set<Key>, same: set<Key>, deleted: set<Key>)
    ensures changed == set k | k in loaded && (full || k !in known || differs(k))
    ensures same == (skipped - loaded) + (loaded - changed)
    ensures deleted == set k | k in known && known[k] && k !in loaded && k !in skipped
  {
    changed, same := {}, skipped - loaded;
    var pending := loaded;
    while pending != {}
      invariant pending <= loaded
      invariant changed == set k | k in loaded - pending && (full || k !in known || differs(k))
      invariant same == (skipped - loaded) + ((loaded - pending) - changed)
      decreases pending
    {
      var k :| k in pending;
      if full || k !in known || differs(k) {
        changed := changed + {k};
      } else {
        same := same + {k};
      }
      pending := pending - {k};
    }
    deleted := set k | k in known && known[k] && k !in loaded && k !in skipped;
  }

  /** Every file on disk is changed or unchanged, every indexed file without one is deleted, and nothing is two of these. */
  lemma PlanIsPartition(onDisk: set<Key>, skipped: set<Key>, live: set<Key>, seen: set<Key>, loaded: set<Key>,
                        changed: set<Key>, same: set<Key>, deleted: set<Key>)
    requires skipped <= onDisk && StartKeys(onDisk, skipped, live) <= seen && loaded == seen * onDisk
    requires changed <= loaded && same == (skipped - loaded) + (loaded - changed)
    requires deleted == live - loaded - skipped
    ensures changed + same == onDisk && changed !! same
    ensures deleted == live - onDisk
  {
    assert onDisk - skipped <= loaded;
  }
}
