/** An incremental metadata run against a full one: exactly when every page ends up with the same provenance family. */
module FamilyRuns {
  import opened Core
  import opened Provenance
  import opened MetadataClosure
  import opened MetadataRuns

  // ---- Seeds of a union of links ----

  ghost predicate WithinVaults(links: Links) {
    forall a, b :: (a, b) in links ==> a.vault == b.vault
  }

  function Ends(links: Links): set<Key> {
    (set l | l in links :: l.0) + set l | l in links :: l.1
  }

  lemma {:induction false} LeastKey(keys: set<Key>) returns (m: Key)
    requires keys != {}
    ensures m in keys && forall k :: k in keys ==> NotAfter(m, k)
    decreases keys
  {
    var x :| x in keys;
    var rest := keys - {x};
    if rest == {} {
      m := x;
    } else {
      var n := LeastKey(rest);
      m := if NotAfter(n, x) then n else x;
    }
    forall k | k in keys ensures NotAfter(m, k) {
      assert k == x || k in rest;
    }
  }

  lemma ConnectedVault(links: Links, a: Key, b: Key)
    requires WithinVaults(links) && Connected(links, a, b)
    ensures a.vault == b.vault
  {
    var w :| WalkBetween(links, a, b, w);
    WalkKeeps(links, w, (k: Key) => k.vault == a.vault);
  }

  /** Every key has a seed: only finitely many keys are connected to it. */
  lemma SeedExists(links: Links, p: Key) returns (s: Id)
    requires WithinVaults(links)
    ensures IsSeed(links, p, s)
  {
    var reached := set b | b in Ends(links) + {p} && Connected(links, p, b);
    ConnectedSelf(links, p);
    assert p in reached;
    var m := LeastKey(reached);
    ConnectedVault(links, p, m);
    s := m.path;
    forall b | Connected(links, p, b) ensures NotAfter(m, b) {
      var w :| WalkBetween(links, p, b, w);
      WalkKeeps(links, w, (x: Key) => x == p || x in Ends(links));
    }
  }

  /** `s` is the seed of `x` in each part that `x` belongs to. */
  ghost predicate SeedInParts(one: Links, two: Links, in1: set<Key>, in2: set<Key>, x: Key, s: Id) {
    && (x in in1 || x in in2) && (x in in1 ==> IsSeed(one, x, s)) && (x in in2 ==> IsSeed(two, x, s))
  }

  /** Two sets of links with the keys they belong to, in one Vault each. */
  ghost predicate Parts(one: Links, two: Links, in1: set<Key>, in2: set<Key>) {
    && WithinVaults(one) && WithinVaults(two)
    && (forall a, b :: (a, b) in one ==> a in in1 && b in in1) && (forall a, b :: (a, b) in two ==> a in in2 && b in in2)
  }

  /** The parts agree about the seeds of the keys they share. */
  ghost predicate Agree(one: Links, two: Links, in1: set<Key>, in2: set<Key>) {
    forall t, s :: t in in1 && t in in2 ==> (IsSeed(one, t, s) <==> IsSeed(two, t, s))
  }

  lemma StepKeepsSeed(one: Links, two: Links, in1: set<Key>, in2: set<Key>, a: Key, b: Key, s: Id)
    requires Parts(one, two, in1, in2) && Agree(one, two, in1, in2) && Adjacent(one + two, a, b)
    requires SeedInParts(one, two, in1, in2, a, s)
    ensures SeedInParts(one, two, in1, in2, b, s) && a.vault == b.vault
  {
    if Adjacent(one, a, b) {
      ConnectedStep(one, a, b);
      SeedMoves(one, a, b, s);
    } else {
      ConnectedStep(two, a, b);
      SeedMoves(two, a, b, s);
    }
  }

  /** A seed that the parts agree on stays the seed when they are put together. */
  lemma PartSeedIsWhole(one: Links, two: Links, in1: set<Key>, in2: set<Key>, v: Key, s: Id)
    requires Parts(one, two, in1, in2) && Agree(one, two, in1, in2) && SeedInParts(one, two, in1, in2, v, s)
    ensures IsSeed(one + two, v, s)
  {
    var part := if v in in1 then one else two;
    ConnectedMore(part, one + two, v, Key(v.vault, s));
    forall b | Connected(one + two, v, b) ensures NotAfter(Key(v.vault, s), b) {
      var w :| WalkBetween(one + two, v, b, w);
      var holds := (x: Key) => SeedInParts(one, two, in1, in2, x, s) && x.vault == v.vault;
      forall x, y | (x, y) in one + two ensures holds(x) <==> holds(y) {
        if holds(x) { StepKeepsSeed(one, two, in1, in2, x, y, s); }
        if holds(y) { StepKeepsSeed(one, two, in1, in2, y, x, s); }
      }
      WalkKeeps(one + two, w, holds);
      ConnectedSelf(one, b);
      ConnectedSelf(two, b);
    }
  }

  /** Where the parts agree on what they share, the seeds of the whole are those of the parts. */
  lemma Glued(one: Links, two: Links, in1: set<Key>, in2: set<Key>, v: Key, s: Id)
    requires Parts(one, two, in1, in2) && Agree(one, two, in1, in2) && v in in1
    ensures IsSeed(one, v, s) <==> IsSeed(one + two, v, s)
  {
    var seed := SeedExists(one, v);
    PartSeedIsWhole(one, two, in1, in2, v, seed);
    if IsSeed(one, v, s) { SeedUnique(one, v, s, seed); }
    if IsSeed(one + two, v, s) { SeedUnique(one + two, v, s, seed); }
  }

  // ---- Loaded and unloaded pages ----

  function Restrict(disk: Disk, seen: set<Key>): Disk {
    map k | k in disk && k in seen :: disk[k]
  }

  function Unloaded(disk: Disk, seen: set<Key>): Disk {
    map k | k in disk && k !in seen :: disk[k]
  }

  /** Pages and the targets they name. */
  ghost function Known(disk: Disk): set<Key> {
    disk.Keys + Ends(LinksIn(disk))
  }

  ghost predicate Names(disk: Disk, k: Key, t: Key) {
    k in disk && k.vault == t.vault && t.path in disk[k].links
  }

  lemma LinkNames(disk: Disk, k: Key, t: Key)
    ensures (k, t) in LinksIn(disk) <==> Names(disk, k, t)
  {
    if Names(disk, k, t) {
      assert t == Key(k.vault, t.path);
    }
  }

  lemma TwoParts(now: Disk, seen: set<Key>)
    ensures LinksIn(now) == LinksIn(Restrict(now, seen)) + LinksIn(Unloaded(now, seen))
    ensures Parts(LinksIn(Restrict(now, seen)), LinksIn(Unloaded(now, seen)), Known(Restrict(now, seen)), Known(Unloaded(now, seen)))
  {
    forall k, t ensures (k, t) in LinksIn(now) <==> (k, t) in LinksIn(Restrict(now, seen)) + LinksIn(Unloaded(now, seen)) {
      LinkNames(now, k, t);
      LinkNames(Restrict(now, seen), k, t);
      LinkNames(Unloaded(now, seen), k, t);
    }
    KnownEnds(Restrict(now, seen));
    KnownEnds(Unloaded(now, seen));
  }

  lemma KnownEnds(disk: Disk)
    ensures WithinVaults(LinksIn(disk))
    ensures forall a, b :: (a, b) in LinksIn(disk) ==> a in Known(disk) && b in Known(disk)
    ensures forall t :: t in Known(disk) ==> t in disk || exists k :: Names(disk, k, t)
  {
    forall a, b | (a, b) in LinksIn(disk) ensures a in Known(disk) && b in Known(disk) {
      assert (a, b).0 == a && (a, b).1 == b;
    }
    forall t | t in Known(disk) && t !in disk ensures exists k :: Names(disk, k, t) {
      var l :| l in LinksIn(disk) && (l.0 == t || l.1 == t);
      LinkNames(disk, l.0, l.1);
    }
  }

  /** Pages that were connected were indexed under one family, so loading one loads the other. */
  lemma FamilyPulls(before: Disk, now: Disk, index: Index, inScope: Key -> bool, keys: set<Key>, seen: set<Key>, k: Key, m: Key)
    requires Run(before, now, index, inScope, keys, seen) && k in seen && k in before && m in before
    requires Connected(LinksIn(before), k, m)
    ensures m in seen
  {
    KnownEnds(before);
    ConnectedVault(LinksIn(before), k, m);
    SeedMoves(LinksIn(before), k, m, index[k].family.value.seed);
    SeedUnique(LinksIn(before), m, index[k].family.value.seed, index[m].family.value.seed);
    assert m in FamilyMembers(index, k);
    Pulled(before, now, index, inScope, keys, seen, k, m);
  }

  /** Among pages that are not loaded nothing changed: a page was connected to what it is still connected to. */
  lemma StillConnected(before: Disk, now: Disk, index: Index, inScope: Key -> bool, keys: set<Key>, seen: set<Key>, u: Key,
                       b: Key)
    requires Run(before, now, index, inScope, keys, seen) && u in before && u !in seen
    ensures Connected(LinksIn(before), u, b) <==> Connected(LinksIn(Unloaded(now, seen)), u, b)
  {
    var was, part := LinksIn(before), LinksIn(Unloaded(now, seen));
    UnloadedLinks(before, now, index, inScope, keys, seen);
    if Connected(part, u, b) {
      ConnectedMore(part, was, u, b);
    }
    if Connected(was, u, b) {
      var w :| WalkBetween(was, u, b, w);
      ConnectedSelf(part, u);
      forall x, y | (x, y) in was ensures Connected(part, u, x) <==> Connected(part, u, y) {
        if Connected(part, u, x) || Connected(part, u, y) {
          LinkIsUnloaded(before, now, index, inScope, keys, seen, u, x, y);
        }
      }
      WalkKeeps(was, w, (x: Key) => Connected(part, u, x));
    }
  }

  lemma UnloadedLinks(before: Disk, now: Disk, index: Index, inScope: Key -> bool, keys: set<Key>, seen: set<Key>)
    requires Run(before, now, index, inScope, keys, seen)
    ensures LinksIn(Unloaded(now, seen)) <= LinksIn(before)
    ensures forall x, y :: (x, y) in LinksIn(before) && x !in seen ==> (x, y) in LinksIn(Unloaded(now, seen))
  {
    forall x, y ensures (x, y) in LinksIn(Unloaded(now, seen)) <==> (x, y) in LinksIn(before) && x !in seen {
      LinkNames(Unloaded(now, seen), x, y);
      LinkNames(before, x, y);
      if x !in seen {
        Unseen(before, now, index, inScope, keys, seen, x);
      }
    }
  }

  /** A link that touches what an unloaded page is connected to comes from an unloaded page. */
  lemma LinkIsUnloaded(before: Disk, now: Disk, index: Index, inScope: Key -> bool, keys: set<Key>, seen: set<Key>, u: Key,
                       x: Key, y: Key)
    requires Run(before, now, index, inScope, keys, seen) && u in before && u !in seen && (x, y) in LinksIn(before)
    requires Connected(LinksIn(Unloaded(now, seen)), u, x) || Connected(LinksIn(Unloaded(now, seen)), u, y)
    ensures Connected(LinksIn(Unloaded(now, seen)), u, x) && Connected(LinksIn(Unloaded(now, seen)), u, y)
  {
    var was, part := LinksIn(before), LinksIn(Unloaded(now, seen));
    UnloadedLinks(before, now, index, inScope, keys, seen);
    var z := if Connected(part, u, x) then x else y;
    ConnectedMore(part, was, u, z);
    ConnectedStep(was, x, y);
    ConnectedBack(was, x, y);
    ConnectedSelf(was, x);
    ConnectedJoin(was, u, z, x);
    ConnectedBack(was, u, x);
    LinkNames(before, x, y);
    if x in seen {
      FamilyPulls(before, now, index, inScope, keys, seen, x, u);
    }
    ConnectedStep(part, x, y);
    ConnectedStep(part, y, x);
    ConnectedJoin(part, u, z, if z == x then y else x);
  }

  /** The family stored for a page that is not loaded is the one the unloaded pages give it. */
  lemma StoredSeed(before: Disk, now: Disk, index: Index, inScope: Key -> bool, keys: set<Key>, seen: set<Key>, u: Key, s: Id)
    requires Run(before, now, index, inScope, keys, seen) && u in now && u !in seen
    ensures u in index
    ensures IsSeed(LinksIn(Unloaded(now, seen)), u, s) <==> index[u].family == Some(Family(u.vault, s))
  {
    Unseen(before, now, index, inScope, keys, seen, u);
    var was, part := LinksIn(before), LinksIn(Unloaded(now, seen));
    forall b ensures Connected(was, u, b) <==> Connected(part, u, b) {
      StillConnected(before, now, index, inScope, keys, seen, u, b);
    }
    assert IsSeed(part, u, s) <==> IsSeed(was, u, s);
    var stored := index[u].family.value.seed;
    if IsSeed(was, u, s) {
      SeedUnique(was, u, s, stored);
    }
  }

  // ---- Exactly when the families come out ----

  /** `t` is named by the unloaded page `u`, and is a loaded page or named by one. */
  ghost predicate Shared(now: Disk, seen: set<Key>, u: Key, t: Key) {
    && u !in seen && Names(now, u, t)
    && ((t in seen && t in now) || exists k :: k in seen && Names(now, k, t))
  }

  /** Each loaded page gets from the loaded pages, and each unloaded one has stored, the family a full run gives it. */
  ghost predicate FamiliesAreFull(now: Disk, index: Index, seen: set<Key>) {
    && (forall k, s :: k in now && k in seen ==> (IsSeed(LinksIn(Restrict(now, seen)), k, s) <==> IsSeed(LinksIn(now), k, s)))
    && (forall k, s :: k in now && k !in seen ==>
          k in index && (index[k].family == Some(Family(k.vault, s)) <==> IsSeed(LinksIn(now), k, s)))
  }

  /** What the run could check: the loaded pages give a shared target the family stored for the page that names it. */
  ghost predicate SharedAgree(now: Disk, index: Index, seen: set<Key>) {
    forall u, t, s :: Shared(now, seen, u, t) && IsSeed(LinksIn(Restrict(now, seen)), t, s) ==>
      u in index && index[u].family == Some(Family(u.vault, s))
  }

  /** A shared target was no page before: else its family would have been loaded with it. */
  lemma SharedWasMissing(before: Disk, now: Disk, index: Index, inScope: Key -> bool, keys: set<Key>, seen: set<Key>, u: Key,
                         t: Key)
    requires Run(before, now, index, inScope, keys, seen) && Shared(now, seen, u, t)
    ensures t !in before && Names(before, u, t)
  {
    Unseen(before, now, index, inScope, keys, seen, u);
    if t in before {
      LinkNames(before, u, t);
      ConnectedStep(LinksIn(before), t, u);
      if t !in seen {
        Unseen(before, now, index, inScope, keys, seen, t);
        NamedIsLoaded(before, now, index, inScope, keys, seen, t);
      }
      FamilyPulls(before, now, index, inScope, keys, seen, t, u);
    }
  }

  /** A page that a loaded page names is loaded. */
  lemma NamedIsLoaded(before: Disk, now: Disk, index: Index, inScope: Key -> bool, keys: set<Key>, seen: set<Key>, t: Key)
    requires Run(before, now, index, inScope, keys, seen) && t in now && exists k :: k in seen && Names(now, k, t)
    ensures t in seen
  {
    var k :| k in seen && Names(now, k, t);
    assert t == Key(k.vault, t.path) && t in LinkedFrom(now, k);
    Pulled(before, now, index, inScope, keys, seen, k, t);
  }

  /** A key of both parts is shared. */
  lemma BothIsShared(before: Disk, now: Disk, index: Index, inScope: Key -> bool, keys: set<Key>, seen: set<Key>, t: Key)
    requires Run(before, now, index, inScope, keys, seen)
    requires t in Known(Restrict(now, seen)) && t in Known(Unloaded(now, seen))
    ensures exists u :: Shared(now, seen, u, t)
  {
    KnownEnds(Restrict(now, seen));
    KnownEnds(Unloaded(now, seen));
    if t !in Restrict(now, seen) {
      var k :| Names(Restrict(now, seen), k, t);
      assert k in seen && Names(now, k, t);
      if t in now {
        NamedIsLoaded(before, now, index, inScope, keys, seen, t);
      }
    }
    assert t !in Unloaded(now, seen);
    var u :| Names(Unloaded(now, seen), u, t);
    assert Shared(now, seen, u, t);
  }

  lemma SharedAgreeParts(before: Disk, now: Disk, index: Index, inScope: Key -> bool, keys: set<Key>, seen: set<Key>)
    requires Run(before, now, index, inScope, keys, seen) && SharedAgree(now, index, seen)
    ensures Agree(LinksIn(Restrict(now, seen)), LinksIn(Unloaded(now, seen)), Known(Restrict(now, seen)), Known(Unloaded(now, seen)))
  {
    var one, two := LinksIn(Restrict(now, seen)), LinksIn(Unloaded(now, seen));
    TwoParts(now, seen);
    forall t, s | t in Known(Restrict(now, seen)) && t in Known(Unloaded(now, seen))
      ensures IsSeed(one, t, s) <==> IsSeed(two, t, s)
    {
      BothIsShared(before, now, index, inScope, keys, seen, t);
      var u :| Shared(now, seen, u, t);
      var seed := SeedExists(one, t);
      StoredSeed(before, now, index, inScope, keys, seen, u, seed);
      LinkNames(Unloaded(now, seen), u, t);
      ConnectedStep(two, u, t);
      SeedMoves(two, u, t, seed);
      if IsSeed(one, t, s) { SeedUnique(one, t, s, seed); }
      if IsSeed(two, t, s) { SeedUnique(two, t, s, seed); }
    }
  }

  /**
   * All families are those of a full run, if and only if the loaded pages give every shared target the family stored for
   * the unloaded pages that name it.
   */
  lemma FamiliesExactly(before: Disk, now: Disk, index: Index, inScope: Key -> bool, keys: set<Key>, seen: set<Key>)
    requires Run(before, now, index, inScope, keys, seen)
    ensures FamiliesAreFull(now, index, seen) <==> SharedAgree(now, index, seen)
  {
    if SharedAgree(now, index, seen) {
      SharedAgreeParts(before, now, index, inScope, keys, seen);
      AgreeingAreFull(before, now, index, inScope, keys, seen);
    }
    if FamiliesAreFull(now, index, seen) {
      forall u, t, s | Shared(now, seen, u, t) && IsSeed(LinksIn(Restrict(now, seen)), t, s)
        ensures u in index && index[u].family == Some(Family(u.vault, s))
      {
        FullAgree(now, index, seen, u, t, s);
      }
    }
  }

  lemma AgreeingAreFull(before: Disk, now: Disk, index: Index, inScope: Key -> bool, keys: set<Key>, seen: set<Key>)
    requires Run(before, now, index, inScope, keys, seen)
    requires Agree(LinksIn(Restrict(now, seen)), LinksIn(Unloaded(now, seen)), Known(Restrict(now, seen)), Known(Unloaded(now, seen)))
    ensures FamiliesAreFull(now, index, seen)
  {
    var one, two := LinksIn(Restrict(now, seen)), LinksIn(Unloaded(now, seen));
    TwoParts(now, seen);
    assert one + two == LinksIn(now) && two + one == LinksIn(now);
    forall k, s | k in now && k in seen ensures IsSeed(one, k, s) <==> IsSeed(LinksIn(now), k, s) {
      Glued(one, two, Known(Restrict(now, seen)), Known(Unloaded(now, seen)), k, s);
    }
    forall k, s | k in now && k !in seen
      ensures k in index && (index[k].family == Some(Family(k.vault, s)) <==> IsSeed(LinksIn(now), k, s))
    {
      StoredSeed(before, now, index, inScope, keys, seen, k, s);
      Glued(two, one, Known(Unloaded(now, seen)), Known(Restrict(now, seen)), k, s);
    }
  }

  lemma FullAgree(now: Disk, index: Index, seen: set<Key>, u: Key, t: Key, s: Id)
    requires FamiliesAreFull(now, index, seen) && Shared(now, seen, u, t) && IsSeed(LinksIn(Restrict(now, seen)), t, s)
    ensures u in index && index[u].family == Some(Family(u.vault, s))
  {
    var one, all := LinksIn(Restrict(now, seen)), LinksIn(now);
    if !(t in seen && t in now) {
      var k :| k in seen && Names(now, k, t);
      LinkNames(Restrict(now, seen), k, t);
      LinkNames(now, k, t);
      ConnectedStep(one, t, k);
      SeedMoves(one, t, k, s);
      ConnectedStep(all, k, t);
      SeedMoves(all, k, t, s);
    }
    LinkNames(now, u, t);
    ConnectedStep(all, t, u);
    SeedMoves(all, t, u, s);
  }

  /** Every provenance target is a page. */
  ghost predicate NoDangling(disk: Disk) {
    forall k, t :: Names(disk, k, t) ==> t in disk
  }

  /** When every target was a page before the run, nothing is shared and all families come out. */
  lemma NoDanglingIsFull(before: Disk, now: Disk, index: Index, inScope: Key -> bool, keys: set<Key>, seen: set<Key>)
    requires Run(before, now, index, inScope, keys, seen) && NoDangling(before)
    ensures FamiliesAreFull(now, index, seen)
  {
    forall u, t ensures !Shared(now, seen, u, t) {
      if Shared(now, seen, u, t) {
        SharedWasMissing(before, now, index, inScope, keys, seen, u, t);
      }
    }
    FamiliesExactly(before, now, index, inScope, keys, seen);
  }

  // ---- Runs in a row ----

  /** What the run stores: new families for loaded pages, nothing new for the others. */
  ghost predicate Stores(now: Disk, index: Index, seen: set<Key>, after: Index) {
    && (forall k :: k !in seen ==> (k in after <==> k in index) && (k in after ==> after[k] == index[k]))
    && (forall k :: k in seen && k !in now && k in after ==> !after[k].live)
    && forall k :: k in seen && k in now ==>
         k in after && after[k].live && after[k].group == now[k].group && HasFamily(Restrict(now, seen), after, k)
  }

  lemma LoadedFamily(now: Disk, index: Index, seen: set<Key>, after: Index, k: Key)
    requires Stores(now, index, seen, after) && k in now && k in seen
    ensures HasFamily(now, after, k) <==>
      forall s :: IsSeed(LinksIn(Restrict(now, seen)), k, s) <==> IsSeed(LinksIn(now), k, s)
  {
    var seed := after[k].family.value.seed;
    if HasFamily(now, after, k) {
      forall s ensures IsSeed(LinksIn(Restrict(now, seen)), k, s) <==> IsSeed(LinksIn(now), k, s) {
        if IsSeed(LinksIn(Restrict(now, seen)), k, s) { SeedUnique(LinksIn(Restrict(now, seen)), k, s, seed); }
        if IsSeed(LinksIn(now), k, s) { SeedUnique(LinksIn(now), k, s, seed); }
      }
    }
  }

  lemma StoredFamily(now: Disk, index: Index, k: Key)
    requires k in index && index[k].family.Some? && index[k].family.value.vault == k.vault
    ensures HasFamily(now, index, k) <==>
      forall s :: index[k].family == Some(Family(k.vault, s)) <==> IsSeed(LinksIn(now), k, s)
  {
    var seed := index[k].family.value.seed;
    assert index[k].family == Some(Family(k.vault, seed));
    if HasFamily(now, index, k) {
      forall s ensures index[k].family == Some(Family(k.vault, s)) <==> IsSeed(LinksIn(now), k, s) {
        if IsSeed(LinksIn(now), k, s) { SeedUnique(LinksIn(now), k, s, seed); }
      }
    }
  }

  /** The index after a run is that of a full run, if and only if the shared targets agreed. */
  lemma RunStaysIndexed(before: Disk, now: Disk, index: Index, inScope: Key -> bool, keys: set<Key>, seen: set<Key>, after: Index)
    requires Run(before, now, index, inScope, keys, seen) && Stores(now, index, seen, after)
    ensures Indexed(now, after) <==> SharedAgree(now, index, seen)
  {
    FamiliesExactly(before, now, index, inScope, keys, seen);
    forall k ensures (k in now <==> k in after && after[k].live) && (k in now ==> PageIndexed(now, index, seen, after, k)) {
      EntryAfter(before, now, index, inScope, keys, seen, after, k);
    }
    IndexedExactly(now, index, seen, after);
  }

  /** The entry of a page: its session, and the family of a full run exactly when the run gave it that. */
  ghost predicate PageIndexed(now: Disk, index: Index, seen: set<Key>, after: Index, k: Key)
    requires k in now
  {
    k in after && after[k].group == now[k].group && (HasFamily(now, after, k) <==> FamilyIsFull(now, index, seen, k))
  }

  lemma EntryAfter(before: Disk, now: Disk, index: Index, inScope: Key -> bool, keys: set<Key>, seen: set<Key>, after: Index, k: Key)
    requires Run(before, now, index, inScope, keys, seen) && Stores(now, index, seen, after)
    ensures (k in now <==> k in after && after[k].live) && (k in now ==> PageIndexed(now, index, seen, after, k))
  {
    if k !in seen {
      Unseen(before, now, index, inScope, keys, seen, k);
      if k in now { StoredFamily(now, index, k); }
    } else if k in now {
      LoadedFamily(now, index, seen, after, k);
    }
  }

  lemma IndexedExactly(now: Disk, index: Index, seen: set<Key>, after: Index)
    requires forall k :: k in now <==> k in after && after[k].live
    requires forall k :: k in now ==> PageIndexed(now, index, seen, after, k)
    ensures Indexed(now, after) <==> FamiliesAreFull(now, index, seen)
  {
    EachIsFull(now, index, seen);
    forall k | k in now ensures HasFamily(now, after, k) <==> FamilyIsFull(now, index, seen, k) {
      assert PageIndexed(now, index, seen, after, k);
    }
  }

  lemma OneIsFull(now: Disk, index: Index, seen: set<Key>, k: Key)
    requires FamiliesAreFull(now, index, seen) && k in now
    ensures FamilyIsFull(now, index, seen, k)
  {
    assert IsSeed(LinksIn(now), k, 0) || !IsSeed(LinksIn(now), k, 0);
  }

  lemma EachIsFull(now: Disk, index: Index, seen: set<Key>)
    ensures FamiliesAreFull(now, index, seen) <==> forall k :: k in now ==> FamilyIsFull(now, index, seen, k)
  {
    if FamiliesAreFull(now, index, seen) {
      forall k | k in now ensures FamilyIsFull(now, index, seen, k) {
        OneIsFull(now, index, seen, k);
      }
    }
    if forall k :: k in now ==> FamilyIsFull(now, index, seen, k) {
      forall k, s | k in now && k in seen ensures IsSeed(LinksIn(Restrict(now, seen)), k, s) <==> IsSeed(LinksIn(now), k, s) {
        assert FamilyIsFull(now, index, seen, k);
      }
      forall k, s | k in now && k !in seen
        ensures k in index && (index[k].family == Some(Family(k.vault, s)) <==> IsSeed(LinksIn(now), k, s))
      {
        assert FamilyIsFull(now, index, seen, k);
      }
    }
  }

  /** One page has the family of a full run. */
  ghost predicate FamilyIsFull(now: Disk, index: Index, seen: set<Key>, k: Key) {
    if k in seen then forall s :: IsSeed(LinksIn(Restrict(now, seen)), k, s) <==> IsSeed(LinksIn(now), k, s)
    else k in index && forall s :: index[k].family == Some(Family(k.vault, s)) <==> IsSeed(LinksIn(now), k, s)
  }

  /** A disk, the run that read it, and the index that run stored. */
  datatype Turn = Turn(now: Disk, inScope: Key -> bool, keys: set<Key>, seen: set<Key>, after: Index)

  /** Runs in a row over readable disks, whatever their indexes came to hold. */
  ghost predicate History(turns: seq<Turn>) {
    forall i :: FollowsAt(turns, i)
  }

  ghost predicate FollowsAt(turns: seq<Turn>, i: int) {
    0 <= i < |turns| ==> Follows(DiskAt(turns, i), IndexAt(turns, i), turns[i])
  }

  ghost predicate Follows(before: Disk, index: Index, t: Turn) {
    && Touched(before, t.now, t.keys) && Closure(t.now, index, t.inScope, t.keys, t.seen) && Stores(t.now, index, t.seen, t.after)
    && (forall k :: k in t.now ==> t.now[k].readable) && (forall k :: k in t.now || k in before ==> t.inScope(k))
  }

  /** The disk and the index before run `i`; at first there is neither page nor entry. */
  function DiskAt(turns: seq<Turn>, i: nat): Disk
    requires i <= |turns|
  {
    if i == 0 then map[] else turns[i - 1].now
  }

  function IndexAt(turns: seq<Turn>, i: nat): Index
    requires i <= |turns|
  {
    if i == 0 then map[] else turns[i - 1].after
  }

  ghost predicate Agrees(turns: seq<Turn>, i: int) {
    0 <= i < |turns| ==> SharedAgree(turns[i].now, IndexAt(turns, i), turns[i].seen)
  }

  ghost predicate IndexedAt(turns: seq<Turn>, i: int) {
    0 <= i <= |turns| ==> Indexed(DiskAt(turns, i), IndexAt(turns, i))
  }

  lemma TurnIsExact(turns: seq<Turn>, i: nat)
    requires History(turns) && i < |turns| && IndexedAt(turns, i)
    ensures IndexedAt(turns, i + 1) <==> Agrees(turns, i)
  {
    var t := turns[i];
    assert FollowsAt(turns, i);
    RunStaysIndexed(DiskAt(turns, i), t.now, IndexAt(turns, i), t.inScope, t.keys, t.seen, t.after);
  }

  lemma {:induction false} IndexedUpTo(turns: seq<Turn>, n: nat)
    requires History(turns) && n <= |turns| && forall i :: Agrees(turns, i)
    ensures IndexedAt(turns, n)
  {
    if n == 0 {
      StartIsIndexed(turns);
    } else {
      var i := n - 1;
      IndexedUpTo(turns, i);
      assert Agrees(turns, i);
      TurnIsExact(turns, i);
      assert i + 1 == n;
    }
  }

  lemma StartIsIndexed(turns: seq<Turn>)
    ensures IndexedAt(turns, 0)
  {
  }

  /** After every run of a history the families are those of a full run, if and only if the shared targets of each run agreed. */
  lemma AlwaysIndexed(turns: seq<Turn>)
    requires History(turns)
    ensures (forall i :: IndexedAt(turns, i)) <==> forall i :: Agrees(turns, i)
  {
    if forall i :: Agrees(turns, i) {
      forall i ensures IndexedAt(turns, i) {
        if 0 <= i <= |turns| { IndexedUpTo(turns, i); }
      }
    }
    if forall i :: IndexedAt(turns, i) {
      forall i ensures Agrees(turns, i) {
        if 0 <= i < |turns| {
          assert IndexedAt(turns, i) && IndexedAt(turns, i + 1);
          TurnIsExact(turns, i);
        }
      }
    }
  }

  ghost predicate LinkedAt(turns: seq<Turn>, i: int) {
    0 <= i < |turns| ==> NoDangling(turns[i].now)
  }

  /** Vaults in which every provenance link leads to a page keep the families of a full run for ever. */
  lemma {:induction false} LinkedVaultsStayFull(turns: seq<Turn>, n: nat)
    requires History(turns) && n <= |turns| && forall i :: LinkedAt(turns, i)
    ensures Indexed(DiskAt(turns, n), IndexAt(turns, n))
  {
    if n > 0 {
      LinkedVaultsStayFull(turns, n - 1);
      assert FollowsAt(turns, n - 1);
      var before, index, t := DiskAt(turns, n - 1), IndexAt(turns, n - 1), turns[n - 1];
      assert LinkedAt(turns, n - 2);
      NoDanglingIsFull(before, t.now, index, t.inScope, t.keys, t.seen);
      FamiliesExactly(before, t.now, index, t.inScope, t.keys, t.seen);
      RunStaysIndexed(before, t.now, index, t.inScope, t.keys, t.seen, t.after);
    }
  }

  // ---- Two inputs on which they do not ----

  const PageA := Key(0, 1)
  const Target := Key(0, 2)
  const PageB := Key(0, 3)
  const Naming := Content([2], None, true, 0)
  const OldPages: Disk := map[PageA := Naming]
  const OldIndex: Index := map[PageA := State(true, Some(Family(0, 1)), None)]

  lemma LinksFrom(disk: Disk, t: Key)
    requires forall k :: k in disk ==> k.vault == t.vault && (disk[k].links == [t.path] || disk[k].links == [])
    ensures LinksIn(disk) == set k | k in disk && disk[k].links == [t.path] :: (k, t)
  {
    forall a, b ensures (a, b) in LinksIn(disk) <==> a in disk && disk[a].links == [t.path] && b == t {
      LinkNames(disk, a, b);
    }
  }

  /** The seed of a key when all links meet in one target. */
  lemma StarSeed(links: Links, t: Key, p: Key, s: Id)
    requires WithinVaults(links) && (forall l :: l in links ==> l.1 == t) && p.vault == t.vault
    requires Key(p.vault, s) == p || ((p == t || (p, t) in links) && (Key(p.vault, s), t) in links)
             || (Key(p.vault, s) == t && (p, t) in links)
    requires forall k :: k in Ends(links) + {p} ==> NotAfter(Key(p.vault, s), k)
    ensures IsSeed(links, p, s)
  {
    var m := Key(p.vault, s);
    ConnectedSelf(links, p);
    if m != p {
      if (p, t) in links { ConnectedStep(links, p, t); }
      if (m, t) in links { ConnectedStep(links, t, m); }
      ConnectedSelf(links, t);
      ConnectedJoin(links, p, t, m);
    }
    forall b | Connected(links, p, b) ensures NotAfter(m, b) {
      var w :| WalkBetween(links, p, b, w);
      WalkKeeps(links, w, (x: Key) => x == p || x in Ends(links));
    }
  }

  lemma OldIsIndexed()
    ensures Indexed(OldPages, OldIndex)
  {
    LinksFrom(OldPages, Target);
    assert LinksIn(OldPages) == {(PageA, Target)};
    StarSeed(LinksIn(OldPages), Target, PageA, 1);
  }

  /** Page 3 is added and names the missing page 2, as page 1 does: it gets seed 2 where a full run gives 1. */
  lemma DanglingSplitsFamily()
    ensures var now, seen := OldPages[PageB := Naming], {PageB, Target};
      && Run(OldPages, now, OldIndex, k => true, {PageB}, seen)
      && IsSeed(LinksIn(Restrict(now, seen)), PageB, 2) && IsSeed(LinksIn(now), PageB, 1)
  {
    var now, seen := OldPages[PageB := Naming], {PageB, Target};
    AddedRun(now);
    LinksFrom(now, Target);
    assert LinksIn(now) == {(PageA, Target), (PageB, Target)};
    StarSeed(LinksIn(now), Target, PageB, 1);
    LinksFrom(Restrict(now, seen), Target);
    assert LinksIn(Restrict(now, seen)) == {(PageB, Target)};
    StarSeed(LinksIn(Restrict(now, seen)), Target, PageB, 2);
  }

  lemma AddedRun(now: Disk)
    requires now == OldPages[PageB := Naming]
    ensures Run(OldPages, now, OldIndex, k => true, {PageB}, {PageB, Target})
  {
    OldIsIndexed();
    assert LinkedFrom(now, PageB) == {Target};
    assert Opens(now, OldIndex, PageB) == {Target} && Opens(now, OldIndex, Target) == {};
  }

  lemma CreatedRun(now: Disk)
    requires now == OldPages[Target := Content([], None, true, 0)]
    ensures Run(OldPages, now, OldIndex, k => true, {Target}, {Target}) && NoDangling(now)
  {
    OldIsIndexed();
    assert Opens(now, OldIndex, Target) == {};
  }

  /** Page 2 is created without links of its own, so that no link leads nowhere any more: it gets seed 2 as well. */
  lemma CreatedTargetSplits()
    ensures var now := OldPages[Target := Content([], None, true, 0)];
      && Run(OldPages, now, OldIndex, k => true, {Target}, {Target}) && NoDangling(now)
      && IsSeed(LinksIn(Restrict(now, {Target})), Target, 2) && IsSeed(LinksIn(now), Target, 1)
  {
    var now := OldPages[Target := Content([], None, true, 0)];
    CreatedRun(now);
    LinksFrom(now, Target);
    assert LinksIn(now) == {(PageA, Target)};
    StarSeed(LinksIn(now), Target, Target, 1);
    LinksFrom(Restrict(now, {Target}), Target);
    assert LinksIn(Restrict(now, {Target})) == {};
    StarSeed({}, Target, Target, 2);
  }
}
