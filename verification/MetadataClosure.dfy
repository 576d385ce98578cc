/** Which unchanged files an incremental metadata run reads again, and why that is enough. */
module MetadataClosure {
  import opened Core
  import opened Provenance

  /** A file as read: its provenance targets and its session, unless it cannot be read. */
  datatype Content = Content(links: seq<Id>, group: Option<Id>, readable: bool, rest: Id)
  type Disk = map<Key, Content>

  /** What the metadata store keeps of a file. */
  datatype State = State(live: bool, family: Option<Family>, group: Option<Id>)
  type Index = map<Key, State>
  type GroupId = (Id, Id)

  // ---- What reading one file makes the run read ----

  function LinkedFrom(disk: Disk, k: Key): set<Key> {
    if k in disk then set l | l in disk[k].links :: Key(k.vault, l) else {}
  }

  function FamilyMembers(index: Index, k: Key): set<Key> {
    if k in index && index[k].family.Some? then set m | m in index && index[m].live && index[m].family == index[k].family
    else {}
  }

  function GroupIds(disk: Disk, index: Index, k: Key): set<GroupId> {
    (if k in disk && disk[k].group.Some? then {(k.vault, disk[k].group.value)} else {})
    + (if k in index && index[k].live && index[k].group.Some? then {(k.vault, index[k].group.value)} else {})
  }

  function MembersOfGroup(index: Index, g: GroupId): set<Key> {
    set m | m in index && index[m].live && m.vault == g.0 && index[m].group == Some(g.1)
  }

  function GroupMembers(index: Index, groups: set<GroupId>): set<Key> {
    set g, m | g in groups && m in MembersOfGroup(index, g) :: m
  }

  predicate Unreadable(disk: Disk, k: Key) {
    k in disk && !disk[k].readable
  }

  function Opens(disk: Disk, index: Index, k: Key): set<Key> {
    if Unreadable(disk, k) then {}
    else LinkedFrom(disk, k) + FamilyMembers(index, k) + GroupMembers(index, GroupIds(disk, index, k))
  }

  /** The file names the page as a provenance target. */
  ghost predicate LinksTo(disk: Disk, k: Key, m: Key) {
    k in disk && m.vault == k.vault && m.path in disk[k].links
  }

  /** Both had the same family when last indexed, and the page is live. */
  ghost predicate SameFamily(index: Index, k: Key, m: Key) {
    k in index && index[k].family.Some? && m in index && index[m].live && index[m].family == index[k].family
  }

  /** The live file was in a session the other is in, as read or as indexed. */
  ghost predicate SameSession(disk: Disk, index: Index, k: Key, m: Key) {
    && m in index && index[m].live && index[m].group.Some? && m.vault == k.vault
    && ((k in disk && disk[k].group == index[m].group) || (k in index && index[k].live && index[k].group == index[m].group))
  }

  /** A file that can be read, or is gone, opens its provenance targets, its family and the files of its sessions. */
  lemma OpensExactly(disk: Disk, index: Index, k: Key, m: Key)
    ensures m in Opens(disk, index, k) <==>
      (k in disk ==> disk[k].readable) && (LinksTo(disk, k, m) || SameFamily(index, k, m) || SameSession(disk, index, k, m))
  {
    if m in GroupMembers(index, GroupIds(disk, index, k)) {
      var g :| g in GroupIds(disk, index, k) && m in MembersOfGroup(index, g);
    }
    if SameSession(disk, index, k, m) {
      var g := (k.vault, index[m].group.value);
      assert g in GroupIds(disk, index, k) && m in MembersOfGroup(index, g);
    }
    assert LinksTo(disk, k, m) <==> m in LinkedFrom(disk, k) by {
      if LinksTo(disk, k, m) {
        assert m == Key(k.vault, m.path);
      }
    }
  }

  /** Nothing that a member opens in scope is missing. */
  ghost predicate Closed(disk: Disk, index: Index, inScope: Key -> bool, s: set<Key>) {
    forall k, m :: k in s && m in Opens(disk, index, k) && inScope(m) ==> m in s
  }

  /** The least closed set with the given keys. */
  ghost predicate Closure(disk: Disk, index: Index, inScope: Key -> bool, keys: set<Key>, s: set<Key>) {
    && keys <= s && Closed(disk, index, inScope, s)
    && forall t :: keys <= t && Closed(disk, index, inScope, t) ==> s <= t
  }

  // ---- The worklist ----

  datatype Worklist = Worklist(pending: seq<Key>, seen: set<Key>, pulled: map<Key, GroupId>)

  ghost predicate WorklistOk(w: Worklist, disk: Disk, index: Index, inScope: Key -> bool, keys: set<Key>) {
    && keys <= w.seen && Distinct(w.pending) && (forall k :: k in w.pending ==> k in w.seen)
    && (forall k, m :: k in w.seen && k !in w.pending && m in Opens(disk, index, k) && inScope(m) ==> m in w.seen)
    && (forall t :: keys <= t && Closed(disk, index, inScope, t) ==> w.seen <= t)
    && (forall k :: k in w.pulled ==> k in w.seen)
  }

  // ---- Which files can stop the run ----

  /** Reading `j` pulls in `k` as a member of a group of its own. */
  ghost predicate Pulls(disk: Disk, index: Index, g: GroupId, j: Key, k: Key) {
    !Unreadable(disk, j) && g in GroupIds(disk, index, j) && k in MembersOfGroup(index, g)
  }

  /** The key was asked for, or a file that could be read links to it or shares its family. */
  ghost predicate Direct(disk: Disk, index: Index, keys: set<Key>, seen: set<Key>, k: Key) {
    k in keys || exists j :: j in seen && Names(disk, index, j, k)
  }

  ghost predicate Names(disk: Disk, index: Index, j: Key, k: Key) {
    !Unreadable(disk, j) && (k in LinkedFrom(disk, j) || k in FamilyMembers(index, j))
  }

  /** The keys noted as pulled in were not asked for and were found through that group; the others were found directly. */
  ghost predicate PulledOk(w: Worklist, disk: Disk, index: Index, keys: set<Key>) {
    && (forall k :: k in w.pulled ==> k !in keys && PulledBy(w, disk, index, k))
    && (forall k :: k in w.seen && k !in w.pulled ==> Direct(disk, index, keys, w.seen, k))
  }

  ghost predicate PulledBy(w: Worklist, disk: Disk, index: Index, k: Key)
    requires k in w.pulled
  {
    exists j :: j in w.seen && Pulls(disk, index, w.pulled[k], j, k)
  }

  /** Incomplete are groups with an unreadable member, and every unreadable file was pulled in by one of them. */
  ghost predicate IncompleteOk(incomplete: set<GroupId>, disk: Disk, index: Index, keys: set<Key>, done: set<Key>, seen: set<Key>) {
    && (forall g :: g in incomplete ==> exists k :: k in done && Unreadable(disk, k) && k in MembersOfGroup(index, g))
    && (forall k :: k in done && Unreadable(disk, k) ==> k !in keys && PulledIn(incomplete, disk, index, seen, k))
  }

  ghost predicate PulledIn(incomplete: set<GroupId>, disk: Disk, index: Index, seen: set<Key>, k: Key) {
    exists g, j :: g in incomplete && j in seen && Pulls(disk, index, g, j, k)
  }

  lemma PulledGrows(w: Worklist, after: Worklist, disk: Disk, index: Index, keys: set<Key>, key: Key)
    requires PulledOk(w, disk, index, keys) && key in w.seen && !Unreadable(disk, key) && w.seen <= after.seen && keys <= w.seen
    requires forall k :: k in w.seen ==> (k in after.pulled <==> k in w.pulled) && (k in w.pulled ==> after.pulled[k] == w.pulled[k])
    requires forall k :: k in after.pulled ==> k in after.seen
    requires forall k :: k in after.pulled && k !in w.seen ==> after.pulled[k] in GroupIds(disk, index, key) && k in MembersOfGroup(index, after.pulled[k])
    requires forall k :: k in after.seen && k !in w.seen && k !in after.pulled ==> Names(disk, index, key, k)
    ensures PulledOk(after, disk, index, keys)
  {
    forall k | k in after.pulled ensures k !in keys && PulledBy(after, disk, index, k) {
      if k in w.seen {
        var j :| j in w.seen && Pulls(disk, index, w.pulled[k], j, k);
        assert j in after.seen && Pulls(disk, index, after.pulled[k], j, k);
      } else {
        assert Pulls(disk, index, after.pulled[k], key, k);
      }
    }
    forall k | k in after.seen && k !in after.pulled ensures Direct(disk, index, keys, after.seen, k) {
      if k in w.seen && k !in keys {
        var j :| j in w.seen && Names(disk, index, j, k);
        assert j in after.seen;
      }
    }
  }

  lemma IncompleteGrows(incomplete: set<GroupId>, w: Worklist, disk: Disk, index: Index, keys: set<Key>, done: set<Key>, key: Key)
    requires IncompleteOk(incomplete, disk, index, keys, done, w.seen) && PulledOk(w, disk, index, keys)
    requires Unreadable(disk, key) ==> key in w.pulled
    ensures IncompleteOk(if Unreadable(disk, key) then incomplete + {w.pulled[key]} else incomplete, disk, index, keys, done + {key}, w.seen)
  {
    var more := if Unreadable(disk, key) then incomplete + {w.pulled[key]} else incomplete;
    if Unreadable(disk, key) {
      var j :| j in w.seen && Pulls(disk, index, w.pulled[key], j, key);
      assert w.pulled[key] in more && key in done + {key};
    }
    forall g | g in more ensures exists k :: k in done + {key} && Unreadable(disk, k) && k in MembersOfGroup(index, g) {
      if g in incomplete {
        var k :| k in done && Unreadable(disk, k) && k in MembersOfGroup(index, g);
        assert k in done + {key};
      }
    }
    forall k | k in done + {key} && Unreadable(disk, k) ensures k !in keys && PulledIn(more, disk, index, w.seen, k) {
      if k in done {
        var g, j :| g in incomplete && j in w.seen && Pulls(disk, index, g, j, k);
        assert g in more;
      }
    }
  }

  lemma IncompleteStays(incomplete: set<GroupId>, disk: Disk, index: Index, keys: set<Key>, done: set<Key>, seen: set<Key>, more: set<Key>)
    requires IncompleteOk(incomplete, disk, index, keys, done, seen) && seen <= more
    ensures IncompleteOk(incomplete, disk, index, keys, done, more)
  {
    forall k | k in done && Unreadable(disk, k) ensures PulledIn(incomplete, disk, index, more, k) {
      var g, j :| g in incomplete && j in seen && Pulls(disk, index, g, j, k);
      assert j in more;
    }
  }

  /** Append the keys that were not seen. */
  method Push(w: Worklist, found: set<Key>, inScope: Key -> bool, why: Option<GroupId>) returns (r: Worklist)
    ensures r.seen == w.seen + set m | m in found && inScope(m)
    ensures forall k :: k in r.pending <==> k in w.pending || (k in found && inScope(k) && k !in w.seen)
    ensures Distinct(w.pending) && (forall k :: k in w.pending ==> k in w.seen) ==> Distinct(r.pending)
    ensures r.seen == w.seen ==> r.pending == w.pending
    ensures forall k :: k in r.pulled <==> k in w.pulled || (why.Some? && k in found && inScope(k) && k !in w.seen)
    ensures forall k :: k in w.seen && k in w.pulled ==> r.pulled[k] == w.pulled[k]
    ensures forall k :: k in r.pulled && k !in w.seen && k !in w.pulled ==> why.Some? && k in found && r.pulled[k] == why.value
  {
    r := w;
    var rest := found;
    while rest != {}
      invariant rest <= found && r.seen == w.seen + set m | m in found - rest && inScope(m)
      invariant forall k :: k in r.pending <==> k in w.pending || (k in found - rest && inScope(k) && k !in w.seen)
      invariant Distinct(w.pending) && (forall k :: k in w.pending ==> k in w.seen) ==> Distinct(r.pending)
      invariant w.seen <= r.seen && (r.seen == w.seen ==> r.pending == w.pending)
      invariant forall k :: k in r.pulled <==>
        k in w.pulled || (why.Some? && k in found - rest && inScope(k) && k !in w.seen)
      invariant forall k :: k in w.seen && k in w.pulled ==> r.pulled[k] == w.pulled[k]
      invariant forall k :: k in r.pulled && k !in w.seen && k !in w.pulled ==> why.Some? && k in found && r.pulled[k] == why.value
      decreases rest
    {
      var k :| k in rest;
      if k !in r.seen && inScope(k) {
        r := Worklist(r.pending + [k], r.seen + {k}, if why.Some? then r.pulled[k := why.value] else r.pulled);
      }
      rest := rest - {k};
    }
  }

  /** Every key the run could ever look at. */
  function Universe(disk: Disk, index: Index, keys: set<Key>): set<Key> {
    keys + index.Keys + set k, m | k in disk && m in LinkedFrom(disk, k) :: m
  }

  lemma OpensInUniverse(disk: Disk, index: Index, keys: set<Key>, k: Key)
    ensures Opens(disk, index, k) <= Universe(disk, index, keys)
  {
    forall m | m in Opens(disk, index, k) ensures m in Universe(disk, index, keys) {
      if m in GroupMembers(index, GroupIds(disk, index, k)) {
        var g :| g in GroupIds(disk, index, k) && m in MembersOfGroup(index, g);
      }
    }
  }

  /** Take the first pending key out. */
  lemma Popped(w: Worklist, disk: Disk, index: Index, inScope: Key -> bool, keys: set<Key>)
    requires WorklistOk(w, disk, index, inScope, keys) && w.pending != []
    ensures Distinct(w.pending[1..]) && w.pending[0] !in w.pending[1..] && w.pending[0] in w.seen
    ensures forall k :: k in w.pending <==> k == w.pending[0] || k in w.pending[1..]
  {
    assert w.pending == [w.pending[0]] + w.pending[1..];
    forall i | 0 <= i < |w.pending[1..]| ensures w.pending[1..][i] != w.pending[0] {
      assert w.pending[1..][i] == w.pending[i + 1];
    }
  }

  /** Once everything the key opens was pushed, the worklist is fine again. */
  lemma Opened(w: Worklist, after: Worklist, disk: Disk, index: Index, inScope: Key -> bool, keys: set<Key>)
    requires WorklistOk(w, disk, index, inScope, keys) && w.pending != []
    requires after.seen == w.seen + set m | m in Opens(disk, index, w.pending[0]) && inScope(m)
    requires Distinct(after.pending)
    requires forall k :: k in after.pending <==> k in w.pending[1..] || (k in after.seen && k !in w.seen)
    requires forall k :: k in after.pulled ==> k in after.seen
    ensures WorklistOk(after, disk, index, inScope, keys)
  {
    Popped(w, disk, index, inScope, keys);
    var key := w.pending[0];
    forall k, m | k in after.seen && k !in after.pending && m in Opens(disk, index, k) && inScope(m) ensures m in after.seen {
      assert k in w.seen;
      if k != key {
        assert k !in w.pending;
      }
    }
    forall t | keys <= t && Closed(disk, index, inScope, t) ensures after.seen <= t {
      assert key in t;
    }
  }

  /** What a run loaded: the files it read, those that are gone, and the groups with an unreadable member. */
  datatype Loaded = Loaded(seen: set<Key>, files: seq<Key>, gone: seq<Key>, incomplete: set<GroupId>)

  ghost predicate Sorted(loaded: Loaded, disk: Disk, done: set<Key>) {
    && (forall k :: k in loaded.files <==> k in done && k in disk && disk[k].readable)
    && (forall k :: k in loaded.gone <==> k in done && k !in disk)
    && Distinct(loaded.files)
    && ((forall k :: k in disk ==> disk[k].readable) ==> loaded.incomplete == {})
  }

  /** What holds between turns. */
  ghost predicate Running(w: Worklist, l: Loaded, disk: Disk, index: Index, inScope: Key -> bool, keys: set<Key>) {
    && WorklistOk(w, disk, index, inScope, keys) && w.seen <= Universe(disk, index, keys)
    && Sorted(l, disk, w.seen - Elements(w.pending)) && PulledOk(w, disk, index, keys)
    && IncompleteOk(l.incomplete, disk, index, keys, w.seen - Elements(w.pending), w.seen)
  }

  /** One turn of the loop; None when a file cannot be read and was not only pulled in by its group. */
  method Turn(w: Worklist, l: Loaded, disk: Disk, index: Index, inScope: Key -> bool, ghost keys: set<Key>)
    returns (r: Option<(Worklist, Loaded)>)
    requires w.pending != [] && Running(w, l, disk, index, inScope, keys)
    ensures r.None? <==> Unreadable(disk, w.pending[0]) && w.pending[0] !in w.pulled
    ensures r.Some? ==>
      var (after, m) := r.value;
      && Running(after, m, disk, index, inScope, keys)
      && w.seen <= after.seen && (after.seen == w.seen ==> after.pending == w.pending[1..])
  {
    var key := w.pending[0];
    Popped(w, disk, index, inScope, keys);
    if Unreadable(disk, key) {
      if key !in w.pulled {
        return None;
      }
      var m := l.(incomplete := l.incomplete + {w.pulled[key]});
      Skipped(w, l, m, disk, index, inScope, keys);
      return Some((w.(pending := w.pending[1..]), m));
    }
    var m := if key in disk then l.(files := l.files + [key]) else l.(gone := l.gone + [key]);
    var after := Follow(w, disk, index, inScope, key);
    Followed(w, after, l, m, disk, index, inScope, keys);
    return Some((after, m));
  }

  lemma Skipped(w: Worklist, l: Loaded, m: Loaded, disk: Disk, index: Index, inScope: Key -> bool, keys: set<Key>)
    requires w.pending != [] && Running(w, l, disk, index, inScope, keys)
    requires Unreadable(disk, w.pending[0]) && w.pending[0] in w.pulled && m == l.(incomplete := l.incomplete + {w.pulled[w.pending[0]]})
    ensures Running(w.(pending := w.pending[1..]), m, disk, index, inScope, keys)
  {
    var key, after := w.pending[0], w.(pending := w.pending[1..]);
    Popped(w, disk, index, inScope, keys);
    Opened(w, after, disk, index, inScope, keys);
    DoneGrows(w, after, key);
    IncompleteGrows(l.incomplete, w, disk, index, keys, w.seen - Elements(w.pending), key);
  }

  lemma Followed(w: Worklist, after: Worklist, l: Loaded, m: Loaded, disk: Disk, index: Index, inScope: Key -> bool, keys: set<Key>)
    requires w.pending != [] && Running(w, l, disk, index, inScope, keys) && !Unreadable(disk, w.pending[0])
    requires m == if w.pending[0] in disk then l.(files := l.files + [w.pending[0]]) else l.(gone := l.gone + [w.pending[0]])
    requires after.seen == w.seen + (set k | k in Opens(disk, index, w.pending[0]) && inScope(k)) && Distinct(after.pending)
    requires forall k :: k in after.pending <==> k in w.pending[1..] || (k in after.seen && k !in w.seen)
    requires forall k :: k in after.pulled ==> k in after.seen
    requires forall k :: k in w.seen ==> (k in after.pulled <==> k in w.pulled) && (k in w.pulled ==> after.pulled[k] == w.pulled[k])
    requires forall k :: k in after.pulled && k !in w.seen ==>
      after.pulled[k] in GroupIds(disk, index, w.pending[0]) && k in MembersOfGroup(index, after.pulled[k])
    requires forall k :: k in after.seen && k !in w.seen && k !in after.pulled ==> Names(disk, index, w.pending[0], k)
    ensures Running(after, m, disk, index, inScope, keys)
  {
    var key := w.pending[0];
    var done := w.seen - Elements(w.pending);
    Popped(w, disk, index, inScope, keys);
    OpensInUniverse(disk, index, keys, key);
    Opened(w, after, disk, index, inScope, keys);
    DoneGrows(w, after, key);
    SortedGrows(l, m, disk, done, key);
    PulledGrows(w, after, disk, index, keys, key);
    IncompleteGrows(l.incomplete, w, disk, index, keys, done, key);
    IncompleteStays(l.incomplete, disk, index, keys, done + {key}, w.seen, after.seen);
  }

  lemma SortedGrows(l: Loaded, m: Loaded, disk: Disk, done: set<Key>, key: Key)
    requires Sorted(l, disk, done) && !Unreadable(disk, key) && key !in done
    requires m == if key in disk then l.(files := l.files + [key]) else l.(gone := l.gone + [key])
    ensures Sorted(m, disk, done + {key})
  {
  }

  /** Load the keys and everything they open. */
  method LoadWithFamilies(disk: Disk, index: Index, inScope: Key -> bool, keys: set<Key>) returns (r: Option<Loaded>)
    ensures r.Some? ==> Closure(disk, index, inScope, keys, r.value.seen) && Sorted(r.value, disk, r.value.seen)
    ensures r.Some? ==> IncompleteOk(r.value.incomplete, disk, index, keys, r.value.seen, r.value.seen)
    ensures r.None? ==> exists k :: Stops(disk, index, inScope, keys, k)
    ensures (exists k :: k in keys && Unreadable(disk, k)) ==> r.None?
    ensures (forall k :: k in disk ==> disk[k].readable) ==> r.Some?
  {
    var w := Push(Worklist([], {}, map[]), keys, k => true, None);
    var l := Loaded({}, [], [], {});
    StartOk(w, disk, index, inScope, keys);
    while w.pending != []
      invariant Running(w, l, disk, index, inScope, keys)
      decreases Universe(disk, index, keys) - w.seen, |w.pending|
    {
      var turn := Turn(w, l, disk, index, inScope, keys);
      if turn.None? {
        StoppedBy(w, disk, index, inScope, keys);
        return None;
      }
      Measure(Universe(disk, index, keys), w.seen, turn.value.0.seen);
      w, l := turn.value.0, turn.value.1;
    }
    AllDone(w);
    return Some(l.(seen := w.seen));
  }

  /** An unreadable file that every closed set with the keys holds, and that was asked for or found directly. */
  ghost predicate Stops(disk: Disk, index: Index, inScope: Key -> bool, keys: set<Key>, k: Key) {
    && Unreadable(disk, k)
    && (forall t :: keys <= t && Closed(disk, index, inScope, t) ==> k in t && Direct(disk, index, keys, t, k))
  }

  lemma StoppedBy(w: Worklist, disk: Disk, index: Index, inScope: Key -> bool, keys: set<Key>)
    requires WorklistOk(w, disk, index, inScope, keys) && PulledOk(w, disk, index, keys) && w.pending != []
    requires Unreadable(disk, w.pending[0]) && w.pending[0] !in w.pulled
    ensures Stops(disk, index, inScope, keys, w.pending[0])
  {
    var k := w.pending[0];
    forall t | keys <= t && Closed(disk, index, inScope, t) ensures k in t && Direct(disk, index, keys, t, k) {
      if k !in keys {
        var j :| j in w.seen && Names(disk, index, j, k);
        assert j in t;
      }
    }
  }

  lemma AllDone(w: Worklist)
    requires w.pending == []
    ensures w.seen - Elements(w.pending) == w.seen
  {
  }

  lemma Measure(universe: set<Key>, seen: set<Key>, after: set<Key>)
    requires seen <= after <= universe
    ensures universe - after <= universe - seen
    ensures after != seen ==> universe - after < universe - seen
  {
    if after != seen {
      var k :| k in after && k !in seen;
      assert k in universe - seen && k !in universe - after;
    }
  }

  lemma StartOk(w: Worklist, disk: Disk, index: Index, inScope: Key -> bool, keys: set<Key>)
    requires w.seen == keys && Distinct(w.pending) && (forall k :: k in w.pending <==> k in keys) && w.pulled == map[]
    ensures WorklistOk(w, disk, index, inScope, keys) && w.seen - Elements(w.pending) == {}
  {
  }

  lemma DoneGrows(was: Worklist, w: Worklist, key: Key)
    requires was.pending != [] && key == was.pending[0] && key in was.seen && key !in was.pending[1..] && was.seen <= w.seen
    requires forall k :: k in was.pending <==> k == key || k in was.pending[1..]
    requires forall k :: k in was.pending ==> k in was.seen
    requires forall k :: k in w.pending <==> k in was.pending[1..] || (k in w.seen && k !in was.seen)
    ensures w.seen - Elements(w.pending) == (was.seen - Elements(was.pending)) + {key}
    ensures key !in was.seen - Elements(was.pending)
  {
  }

  /** Push what the key links to or shares a family with, then the members of its groups. */
  method Follow(w: Worklist, disk: Disk, index: Index, inScope: Key -> bool, key: Key) returns (r: Worklist)
    requires w.pending != [] && key == w.pending[0] && !Unreadable(disk, key)
    requires Distinct(w.pending[1..]) && (forall k :: k in w.pending[1..] ==> k in w.seen)
    requires forall k :: k in w.pulled ==> k in w.seen
    ensures r.seen == w.seen + set m | m in Opens(disk, index, key) && inScope(m)
    ensures Distinct(r.pending)
    ensures forall k :: k in r.pending <==> k in w.pending[1..] || (k in r.seen && k !in w.seen)
    ensures forall k :: k in r.pulled ==> k in r.seen
    ensures r.seen == w.seen ==> r.pending == w.pending[1..]
    ensures forall k :: k in w.seen ==> (k in r.pulled <==> k in w.pulled) && (k in w.pulled ==> r.pulled[k] == w.pulled[k])
    ensures forall k :: k in r.pulled && k !in w.seen ==> r.pulled[k] in GroupIds(disk, index, key) && k in MembersOfGroup(index, r.pulled[k])
    ensures forall k :: k in r.seen && k !in w.seen && k !in r.pulled ==> Names(disk, index, key, k)
  {
    var linked := LinkedFrom(disk, key) + FamilyMembers(index, key);
    r := Push(w.(pending := w.pending[1..]), linked, inScope, None);
    r := FollowGroups(r, index, inScope, GroupIds(disk, index, key));
  }

  method FollowGroups(w: Worklist, index: Index, inScope: Key -> bool, groups: set<GroupId>) returns (r: Worklist)
    requires Distinct(w.pending) && forall k :: k in w.pending ==> k in w.seen
    requires forall k :: k in w.pulled ==> k in w.seen
    ensures r.seen == w.seen + set m | m in GroupMembers(index, groups) && inScope(m)
    ensures Distinct(r.pending)
    ensures forall k :: k in r.pending <==> k in w.pending || (k in r.seen && k !in w.seen)
    ensures forall k :: k in r.pulled ==> k in r.seen
    ensures r.seen == w.seen ==> r.pending == w.pending
    ensures forall k :: k in w.seen ==> (k in r.pulled <==> k in w.pulled) && (k in w.pulled ==> r.pulled[k] == w.pulled[k])
    ensures forall k :: k in r.pulled && k !in w.seen ==> r.pulled[k] in groups && k in MembersOfGroup(index, r.pulled[k])
    ensures forall k :: k in r.seen && k !in w.seen ==> k in r.pulled
  {
    r := w;
    var pending := groups;
    while pending != {}
      invariant pending <= groups
      invariant r.seen == w.seen + set m | m in GroupMembers(index, groups - pending) && inScope(m)
      invariant AddedOnce(w, r) && PulledByGroups(w, r, index, groups)
      decreases pending
    {
      var g: GroupId :| g in pending;
      ghost var was := r;
      r := Push(r, MembersOfGroup(index, g), inScope, Some(g));
      AddedMore(w, was, r);
      PulledMore(w, was, r, index, groups, g);
      MoreGroups(index, groups - pending, g);
      assert groups - (pending - {g}) == groups - pending + {g};
      pending := pending - {g};
    }
    assert groups - {} == groups;
  }

  /** What was not seen before is pending once. */
  ghost predicate AddedOnce(w: Worklist, r: Worklist) {
    && w.seen <= r.seen && Distinct(r.pending) && (r.seen == w.seen ==> r.pending == w.pending)
    && (forall k :: k in w.pending ==> k in w.seen)
    && forall k :: k in r.pending <==> k in w.pending || (k in r.seen && k !in w.seen)
  }

  lemma AddedMore(w: Worklist, r: Worklist, after: Worklist)
    requires AddedOnce(w, r) && r.seen <= after.seen && (after.seen == r.seen ==> after.pending == r.pending)
    requires forall k :: k in after.pending <==> k in r.pending || (k in after.seen && k !in r.seen)
    requires (forall k :: k in r.pending ==> k in r.seen) ==> Distinct(after.pending)
    ensures AddedOnce(w, after)
  {
    assert forall k :: k in r.pending ==> k in r.seen;
  }

  /** Whatever was not seen before was pulled in by one of the groups. */
  ghost predicate PulledByGroups(w: Worklist, r: Worklist, index: Index, groups: set<GroupId>) {
    && w.seen <= r.seen && (forall k :: k in r.pulled ==> k in r.seen)
    && (forall k :: k in w.seen ==> (k in r.pulled <==> k in w.pulled) && (k in w.pulled ==> r.pulled[k] == w.pulled[k]))
    && (forall k :: k in r.pulled && k !in w.seen ==> r.pulled[k] in groups && k in MembersOfGroup(index, r.pulled[k]))
    && forall k :: k in r.seen && k !in w.seen ==> k in r.pulled
  }

  lemma PulledMore(w: Worklist, r: Worklist, after: Worklist, index: Index, groups: set<GroupId>, g: GroupId)
    requires PulledByGroups(w, r, index, groups) && g in groups && r.seen <= after.seen
    requires forall k :: k in after.seen && k !in r.seen ==> k in MembersOfGroup(index, g)
    requires forall k :: k in after.pulled <==> k in r.pulled || (k in after.seen && k !in r.seen)
    requires forall k :: k in r.pulled ==> after.pulled[k] == r.pulled[k]
    requires forall k :: k in after.pulled && k !in r.pulled ==> after.pulled[k] == g
    ensures PulledByGroups(w, after, index, groups)
  {
  }

  lemma MoreGroups(index: Index, groups: set<GroupId>, g: GroupId)
    ensures GroupMembers(index, groups + {g}) == GroupMembers(index, groups) + MembersOfGroup(index, g)
  {
    assert g in groups + {g};
    forall m | m in GroupMembers(index, groups) ensures m in GroupMembers(index, groups + {g}) {
      var h :| h in groups && m in MembersOfGroup(index, h);
      assert h in groups + {g};
    }
  }
}
