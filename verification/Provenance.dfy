/** Provenance families: connected components by union-find with path compression. */
module Provenance {
  import opened Core

  /** A page or link target: its Vault and its path, ordered as a pair. */
  datatype Key = Key(vault: Id, path: Id)

  /** A page with the paths its provenance fields name, all in its own Vault. */
  datatype Page = Page(vault: Id, path: Id, links: seq<Id>)

  /** The family identifier is injective in the Vault and the seed path. */
  datatype Family = Family(vault: Id, seed: Id)

  /** By Vault, then by path. */
  ghost predicate NotAfter(a: Key, b: Key) {
    a.vault < b.vault || (a.vault == b.vault && a.path <= b.path)
  }

  function KeyOf(p: Page): Key {
    Key(p.vault, p.path)
  }

  // ---- Connected pages ----

  type Links = set<(Key, Key)>

  ghost predicate Adjacent(links: Links, a: Key, b: Key) {
    (a, b) in links || (b, a) in links
  }

  ghost predicate Walk(links: Links, w: seq<Key>) {
    w != [] && forall i :: StepAt(links, w, i)
  }

  ghost predicate StepAt(links: Links, w: seq<Key>, i: int) {
    0 <= i < |w| - 1 ==> Adjacent(links, w[i], w[i + 1])
  }

  ghost predicate WalkBetween(links: Links, a: Key, b: Key, w: seq<Key>) {
    Walk(links, w) && w[0] == a && w[|w| - 1] == b
  }

  /** There is a walk along links, in either direction. */
  ghost predicate Connected(links: Links, a: Key, b: Key) {
    exists w :: WalkBetween(links, a, b, w)
  }

  lemma ConnectedSelf(links: Links, a: Key)
    ensures Connected(links, a, a)
  {
    assert WalkBetween(links, a, a, [a]);
  }

  lemma ConnectedStep(links: Links, a: Key, b: Key)
    requires Adjacent(links, a, b)
    ensures Connected(links, a, b)
  {
    assert WalkBetween(links, a, b, [a, b]);
  }

  lemma ConnectedJoin(links: Links, a: Key, b: Key, c: Key)
    requires Connected(links, a, b) && Connected(links, b, c)
    ensures Connected(links, a, c)
  {
    var v :| WalkBetween(links, a, b, v);
    var w :| WalkBetween(links, b, c, w);
    var j := v + w[1..];
    forall i ensures StepAt(links, j, i) {
      assert StepAt(links, v, i) && StepAt(links, w, i - |v| + 1);
      if 0 <= i < |v| - 1 {
        assert j[i] == v[i] && j[i + 1] == v[i + 1];
      } else if |v| - 1 <= i < |j| - 1 {
        assert j[i] == w[i - |v| + 1] && j[i + 1] == w[i - |v| + 2];
      }
    }
    assert WalkBetween(links, a, c, j);
  }

  lemma ConnectedBack(links: Links, a: Key, b: Key)
    requires Connected(links, a, b)
    ensures Connected(links, b, a)
  {
    var w :| WalkBetween(links, a, b, w);
    var r := seq(|w|, i requires 0 <= i < |w| => w[|w| - 1 - i]);
    forall i ensures StepAt(links, r, i) {
      assert StepAt(links, w, |w| - 2 - i);
    }
    assert WalkBetween(links, b, a, r);
  }

  lemma ConnectedMore(links: Links, more: Links, a: Key, b: Key)
    requires links <= more && Connected(links, a, b)
    ensures Connected(more, a, b)
  {
    var w :| WalkBetween(links, a, b, w);
    forall i ensures StepAt(more, w, i) {
      assert StepAt(links, w, i);
    }
    assert WalkBetween(more, a, b, w);
  }

  /** A property that links preserve holds along a walk. */
  lemma {:induction false} WalkKeeps(links: Links, w: seq<Key>, holds: Key -> bool)
    requires Walk(links, w) && holds(w[0])
    requires forall a, b :: (a, b) in links ==> (holds(a) <==> holds(b))
    ensures holds(w[|w| - 1])
  {
    if |w| > 1 {
      WalkPrefix(links, w);
      WalkKeeps(links, w[..|w| - 1], holds);
    }
  }

  lemma WalkPrefix(links: Links, w: seq<Key>)
    requires Walk(links, w) && |w| > 1
    ensures Walk(links, w[..|w| - 1]) && Adjacent(links, w[|w| - 2], w[|w| - 1])
  {
    var front := w[..|w| - 1];
    forall i ensures StepAt(links, front, i) {
      assert StepAt(links, w, i);
    }
    assert StepAt(links, w, |w| - 2);
  }

  // ---- The parent forest ----

  type Parents = map<Key, Key>

  ghost predicate Hangs(parent: Parents, k: Key) {
    k in parent ==> parent[k] in parent && NotAfter(parent[k], k)
  }

  /** Parents never come after their children. */
  ghost predicate Forest(parent: Parents) {
    forall k :: Hangs(parent, k)
  }

  ghost function Root(parent: Parents, k: Key): Key
    requires Forest(parent) && k in parent
    decreases k.vault, k.path
  {
    assert Hangs(parent, k);
    if parent[k] == k then k else Root(parent, parent[k])
  }

  lemma {:induction false} RootIsRoot(parent: Parents, k: Key)
    requires Forest(parent) && k in parent
    ensures Root(parent, k) in parent && parent[Root(parent, k)] == Root(parent, k) && NotAfter(Root(parent, k), k)
    decreases k.vault, k.path
  {
    assert Hangs(parent, k);
    if parent[k] != k {
      RootIsRoot(parent, parent[k]);
    }
  }

  ghost predicate SameRoots(parent: Parents, after: Parents)
    requires Forest(parent) && Forest(after)
  {
    after.Keys == parent.Keys && forall k :: k in parent ==> Root(after, k) == Root(parent, k)
  }

  /** Pointing a key at its root changes no root. */
  lemma {:induction false} CompressKeeps(parent: Parents, k: Key, j: Key)
    requires Forest(parent) && k in parent && j in parent && Forest(parent[k := Root(parent, k)])
    ensures Root(parent[k := Root(parent, k)], j) == Root(parent, j)
    decreases j.vault, j.path
  {
    var after := parent[k := Root(parent, k)];
    RootIsRoot(parent, k);
    assert Hangs(parent, j);
    if j == k {
      if after[j] != j {
        assert after[Root(parent, k)] == Root(parent, k);
        assert Root(after, Root(parent, k)) == Root(parent, k);
      }
    } else if parent[j] != j {
      CompressKeeps(parent, k, parent[j]);
    }
  }

  lemma Compress(parent: Parents, k: Key)
    requires Forest(parent) && k in parent
    ensures Forest(parent[k := Root(parent, k)]) && SameRoots(parent, parent[k := Root(parent, k)])
  {
    RootIsRoot(parent, k);
    var after := parent[k := Root(parent, k)];
    forall j ensures Hangs(after, j) {
      assert Hangs(parent, j);
    }
    forall j | j in parent ensures Root(after, j) == Root(parent, j) {
      CompressKeeps(parent, k, j);
    }
  }

  /** Hanging one root under another moves exactly its tree. */
  lemma {:induction false} LinkMoves(parent: Parents, earlier: Key, later: Key, j: Key)
    requires Forest(parent) && earlier in parent && later in parent && j in parent
    requires parent[earlier] == earlier && parent[later] == later && earlier != later && Forest(parent[later := earlier])
    ensures Root(parent[later := earlier], j) == if Root(parent, j) == later then earlier else Root(parent, j)
    decreases j.vault, j.path
  {
    var after := parent[later := earlier];
    assert Hangs(parent, j);
    if j == later {
      assert Root(after, earlier) == earlier;
    } else if parent[j] != j {
      LinkMoves(parent, earlier, later, parent[j]);
    }
  }

  lemma LinkIsForest(parent: Parents, earlier: Key, later: Key)
    requires Forest(parent) && earlier in parent && NotAfter(earlier, later)
    ensures Forest(parent[later := earlier])
  {
    var after := parent[later := earlier];
    forall j ensures Hangs(after, j) {
      assert Hangs(parent, j);
    }
  }

  // ---- What the forest means ----

  /** Linked keys share a root, and every parent is reached along links. */
  ghost predicate Represents(parent: Parents, links: Links) {
    && Forest(parent)
    && (forall a, b :: (a, b) in links ==> a in parent && b in parent && Root(parent, a) == Root(parent, b))
    && (forall k :: Reaches(parent, links, k))
  }

  ghost predicate Reaches(parent: Parents, links: Links, k: Key) {
    k in parent ==> Connected(links, k, parent[k])
  }

  lemma {:induction false} RootConnected(parent: Parents, links: Links, k: Key)
    requires Represents(parent, links) && k in parent
    ensures Connected(links, k, Root(parent, k))
    decreases k.vault, k.path
  {
    assert Hangs(parent, k) && Reaches(parent, links, k);
    if parent[k] != k {
      RootConnected(parent, links, parent[k]);
      ConnectedJoin(links, k, parent[k], Root(parent, k));
    }
  }

  lemma ConnectedSameRoot(parent: Parents, links: Links, a: Key, b: Key)
    requires Represents(parent, links) && a in parent && Connected(links, a, b)
    ensures b in parent && Root(parent, a) == Root(parent, b)
  {
    var w :| WalkBetween(links, a, b, w);
    WalkKeeps(links, w, (k: Key) => k in parent && Root(parent, k) == Root(parent, a));
  }

  /** Two keys have the same root exactly when they are connected. */
  lemma SameRootIffConnected(parent: Parents, links: Links, a: Key, b: Key)
    requires Represents(parent, links) && a in parent && b in parent
    ensures Root(parent, a) == Root(parent, b) <==> Connected(links, a, b)
  {
    if Root(parent, a) == Root(parent, b) {
      RootConnected(parent, links, a);
      RootConnected(parent, links, b);
      ConnectedBack(links, b, Root(parent, b));
      ConnectedJoin(links, a, Root(parent, a), b);
    } else if Connected(links, a, b) {
      ConnectedSameRoot(parent, links, a, b);
    }
  }

  /** The root is the least key of the component. */
  lemma RootIsLeast(parent: Parents, links: Links, a: Key, b: Key)
    requires Represents(parent, links) && a in parent && Connected(links, a, b)
    ensures NotAfter(Root(parent, a), b)
  {
    ConnectedSameRoot(parent, links, a, b);
    RootIsRoot(parent, b);
  }

  // ---- The data structure ----

  class ProvenanceForest {
    var parent: Parents
    ghost var links: Links

    ghost predicate Valid()
      reads this
    {
      Represents(parent, links)
    }

    constructor ()
      ensures Valid() && parent == map[] && links == {}
    {
      parent, links := map[], {};
    }

    method Add(key: Key)
      requires Valid()
      modifies this
      ensures Valid() && parent.Keys == old(parent).Keys + {key} && links == old(links)
    {
      if key !in parent {
        AddKeeps(parent, links, key);
        parent := parent[key := key];
      }
    }

    /** The root of the key, pointing every key on the way at it. */
    method Find(key: Key) returns (root: Key)
      requires Valid() && key in parent
      modifies this`parent
      ensures Valid() && parent.Keys == old(parent).Keys
      ensures root == Root(old(parent), key) && parent[key] == root
      ensures Forest(old(parent)) && SameRoots(old(parent), parent)
      decreases key.vault, key.path
    {
      root := parent[key];
      assert Hangs(parent, key);
      if root != key {
        ghost var was := parent;
        root := Find(root);
        ghost var mid := parent;
        assert Root(was, key) == Root(mid, key) == root;
        FindKeeps(mid, links, key);
        parent := parent[key := root];
      }
    }

    method Union(first: Key, second: Key)
      requires Valid() && first in parent && second in parent && first.vault == second.vault
      modifies this
      ensures Valid() && parent.Keys == old(parent).Keys && links == old(links) + {(first, second)}
    {
      var firstRoot := Find(first);
      var secondRoot := Find(second);
      RootIsRoot(parent, first);
      RootIsRoot(parent, second);
      if firstRoot == secondRoot {
        UnionNothing(parent, links, first, second);
      } else {
        var earlier, later := firstRoot, secondRoot;
        if later.vault < earlier.vault || (later.vault == earlier.vault && later.path < earlier.path) {
          earlier, later := later, earlier;
        }
        UnionKeeps(parent, links, first, second, earlier, later);
        parent := parent[later := earlier];
      }
      links := links + {(first, second)};
    }
  }

  lemma AddKeeps(parent: Parents, links: Links, key: Key)
    requires Represents(parent, links) && key !in parent
    ensures Represents(parent[key := key], links)
  {
    var after := parent[key := key];
    forall j ensures Hangs(after, j) && (j != key ==> Reaches(after, links, j)) {
      assert Hangs(parent, j) && Reaches(parent, links, j);
    }
    forall j | j in parent ensures Root(after, j) == Root(parent, j) {
      AddedElsewhere(parent, key, j);
    }
    ConnectedSelf(links, key);
  }

  lemma {:induction false} AddedElsewhere(parent: Parents, key: Key, j: Key)
    requires Forest(parent) && key !in parent && j in parent && Forest(parent[key := key])
    ensures Root(parent[key := key], j) == Root(parent, j)
    decreases j.vault, j.path
  {
    assert Hangs(parent, j);
    if parent[j] != j {
      AddedElsewhere(parent, key, parent[j]);
    }
  }

  lemma FindKeeps(parent: Parents, links: Links, key: Key)
    requires Represents(parent, links) && key in parent
    ensures Represents(parent[key := Root(parent, key)], links)
    ensures SameRoots(parent, parent[key := Root(parent, key)])
  {
    Compress(parent, key);
    RootConnected(parent, links, key);
    var after := parent[key := Root(parent, key)];
    forall k ensures Reaches(after, links, k) {
      assert Reaches(parent, links, k);
    }
  }

  lemma UnionNothing(parent: Parents, links: Links, first: Key, second: Key)
    requires Represents(parent, links) && first in parent && second in parent
    requires Root(parent, first) == Root(parent, second)
    ensures Represents(parent, links + {(first, second)})
  {
    forall k ensures Reaches(parent, links + {(first, second)}, k) {
      assert Reaches(parent, links, k);
      if k in parent {
        ConnectedMore(links, links + {(first, second)}, k, parent[k]);
      }
    }
  }

  lemma UnionKeeps(parent: Parents, links: Links, first: Key, second: Key, earlier: Key, later: Key)
    requires Represents(parent, links) && first in parent && second in parent
    requires {earlier, later} == {Root(parent, first), Root(parent, second)} && earlier != later && NotAfter(earlier, later)
    ensures Represents(parent[later := earlier], links + {(first, second)})
  {
    var after, more := parent[later := earlier], links + {(first, second)};
    RootIsRoot(parent, first);
    RootIsRoot(parent, second);
    LinkIsForest(parent, earlier, later);
    forall j | j in parent ensures Root(after, j) == if Root(parent, j) == later then earlier else Root(parent, j) {
      LinkMoves(parent, earlier, later, j);
    }
    forall k ensures Reaches(after, more, k) {
      assert Reaches(parent, links, k);
      if k == later {
        RootsJoined(parent, links, first, second, earlier, later);
      } else if k in parent {
        ConnectedMore(links, more, k, parent[k]);
      }
    }
  }

  lemma RootsJoined(parent: Parents, links: Links, first: Key, second: Key, earlier: Key, later: Key)
    requires Represents(parent, links) && first in parent && second in parent && earlier != later
    requires {earlier, later} == {Root(parent, first), Root(parent, second)}
    ensures Connected(links + {(first, second)}, later, earlier)
  {
    var more := links + {(first, second)};
    RootConnected(parent, links, first);
    RootConnected(parent, links, second);
    ConnectedMore(links, more, first, Root(parent, first));
    ConnectedMore(links, more, second, Root(parent, second));
    ConnectedStep(more, first, second);
    ConnectedBack(more, first, Root(parent, first));
    ConnectedJoin(more, Root(parent, first), first, second);
    ConnectedJoin(more, Root(parent, first), second, Root(parent, second));
    ConnectedBack(more, Root(parent, first), Root(parent, second));
    assert earlier in {Root(parent, first), Root(parent, second)};
  }

  // ---- Families of pages ----

  ghost function LinksOf(pages: seq<Page>): Links {
    set p, l | p in pages && l in p.links :: (KeyOf(p), Key(p.vault, l))
  }

  ghost function Nodes(pages: seq<Page>): set<Key> {
    (set p | p in pages :: KeyOf(p)) + set p, l | p in pages && l in p.links :: Key(p.vault, l)
  }

  /** The least path connected to the page, targets that were not loaded included. */
  ghost predicate IsSeed(links: Links, p: Key, seed: Id) {
    Connected(links, p, Key(p.vault, seed)) && forall b :: Connected(links, p, b) ==> NotAfter(Key(p.vault, seed), b)
  }

  lemma {:induction false} SameVault(pages: seq<Page>, a: Key, b: Key)
    requires Connected(LinksOf(pages), a, b)
    ensures a.vault == b.vault
  {
    var w :| WalkBetween(LinksOf(pages), a, b, w);
    WalkKeeps(LinksOf(pages), w, (k: Key) => k.vault == a.vault);
  }

  /** The seed is a function of the links, so the order of the pages does not matter. */
  lemma SeedUnique(links: Links, p: Key, s: Id, t: Id)
    requires IsSeed(links, p, s) && IsSeed(links, p, t)
    ensures s == t
  {
    assert NotAfter(Key(p.vault, s), Key(p.vault, t)) && NotAfter(Key(p.vault, t), Key(p.vault, s));
  }

  /** Two pages get the same family exactly when they are connected in one Vault. */
  lemma SameFamilyIffConnected(pages: seq<Page>, p: Key, q: Key, s: Id, t: Id)
    requires IsSeed(LinksOf(pages), p, s) && IsSeed(LinksOf(pages), q, t)
    ensures Family(p.vault, s) == Family(q.vault, t) <==> Connected(LinksOf(pages), p, q)
  {
    var links := LinksOf(pages);
    if Family(p.vault, s) == Family(q.vault, t) {
      ConnectedBack(links, q, Key(q.vault, t));
      ConnectedJoin(links, p, Key(p.vault, s), q);
    }
    if Connected(links, p, q) {
      SameVault(pages, p, q);
      SeedMoves(links, p, q, s);
      SeedUnique(links, q, s, t);
    }
  }

  /** Connected keys of one Vault have the same seed. */
  lemma SeedMoves(links: Links, p: Key, q: Key, s: Id)
    requires IsSeed(links, p, s) && Connected(links, p, q) && p.vault == q.vault
    ensures IsSeed(links, q, s)
  {
    ConnectedBack(links, p, q);
    ConnectedJoin(links, q, p, Key(p.vault, s));
    forall b | Connected(links, q, b) ensures NotAfter(Key(q.vault, s), b) {
      ConnectedJoin(links, p, q, b);
    }
  }

  lemma SameLinks(a: seq<Page>, b: seq<Page>)
    requires Elements(a) == Elements(b)
    ensures LinksOf(a) == LinksOf(b)
  {
    assert forall p :: p in a <==> p in Elements(a);
    assert forall p :: p in b <==> p in Elements(b);
  }

  /** The order of the pages does not matter. */
  lemma FamiliesAreOrderFree(a: seq<Page>, b: seq<Page>, p: Page, f: Family, g: Family)
    requires Elements(a) == Elements(b) && IsFamilyOf(f, a, p) && IsFamilyOf(g, b, p)
    ensures f == g
  {
    SameLinks(a, b);
    SeedUnique(LinksOf(a), KeyOf(p), f.seed, g.seed);
  }

  method Join(pages: seq<Page>) returns (forest: ProvenanceForest)
    ensures fresh(forest) && forest.Valid() && forest.links == LinksOf(pages)
    ensures forest.parent.Keys == Nodes(pages)
  {
    forest := new ProvenanceForest();
    for i := 0 to |pages|
      invariant fresh(forest) && forest.Valid() && forest.links == LinksOf(pages[..i])
      invariant forest.parent.Keys == Nodes(pages[..i])
    {
      var p := pages[i];
      assert pages[..i + 1] == pages[..i] + [p];
      forest.Add(KeyOf(p));
      JoinPage(forest, p);
      assert forest.links == LinksOf(pages[..i + 1]);
      assert forest.parent.Keys == Nodes(pages[..i + 1]);
    }
    assert pages[..|pages|] == pages;
  }

  method JoinPage(forest: ProvenanceForest, p: Page)
    requires forest.Valid() && KeyOf(p) in forest.parent
    modifies forest
    ensures forest.Valid()
    ensures forest.links == old(forest.links) + set l | l in p.links :: (KeyOf(p), Key(p.vault, l))
    ensures forest.parent.Keys == old(forest.parent).Keys + set l | l in p.links :: Key(p.vault, l)
  {
    for i := 0 to |p.links|
      invariant forest.Valid() && KeyOf(p) in forest.parent
      invariant forest.links == old(forest.links) + set l | l in p.links[..i] :: (KeyOf(p), Key(p.vault, l))
      invariant forest.parent.Keys == old(forest.parent).Keys + set l | l in p.links[..i] :: Key(p.vault, l)
    {
      var target := Key(p.vault, p.links[i]);
      assert p.links[..i + 1] == p.links[..i] + [p.links[i]];
      forest.Add(target);
      forest.Union(KeyOf(p), target);
    }
    assert p.links[..|p.links|] == p.links;
  }

  ghost function Roots(parent: Parents): map<Key, Key>
    requires Forest(parent)
  {
    map k | k in parent :: Root(parent, k)
  }

  lemma SameRootsSame(parent: Parents, after: Parents)
    requires Forest(parent) && Forest(after) && SameRoots(parent, after)
    ensures Roots(after) == Roots(parent)
  {
  }

  /** Among the keys seen, `seeds` has the least path under each root. */
  ghost predicate SeedsOf(roots: map<Key, Key>, seen: set<Key>, seeds: map<Key, Id>) {
    (forall k :: LeastAt(roots, seen, seeds, k)) && forall r :: AttainedAt(roots, seeds, r)
  }

  ghost predicate LeastAt(roots: map<Key, Key>, seen: set<Key>, seeds: map<Key, Id>, k: Key) {
    k in seen && k in roots ==> roots[k] in seeds && seeds[roots[k]] <= k.path
  }

  ghost predicate AttainedAt(roots: map<Key, Key>, seeds: map<Key, Id>, r: Key) {
    r in seeds ==> exists k :: k in roots && roots[k] == r && k.path == seeds[r]
  }

  lemma OneMoreSeen(roots: map<Key, Key>, seen: set<Key>, seeds: map<Key, Id>, key: Key, after: map<Key, Id>)
    requires SeedsOf(roots, seen, seeds) && key in roots
    requires after == if roots[key] !in seeds || key.path < seeds[roots[key]] then seeds[roots[key] := key.path] else seeds
    ensures SeedsOf(roots, seen + {key}, after)
  {
    forall k ensures LeastAt(roots, seen + {key}, after, k) {
      assert LeastAt(roots, seen, seeds, k);
    }
    forall r ensures AttainedAt(roots, after, r) {
      assert AttainedAt(roots, seeds, r);
    }
  }

  method SeedStep(forest: ProvenanceForest, seeds: map<Key, Id>, key: Key, ghost seen: set<Key>, ghost roots: map<Key, Key>)
    returns (after: map<Key, Id>)
    requires forest.Valid() && key in forest.parent && Roots(forest.parent) == roots && SeedsOf(roots, seen, seeds)
    modifies forest
    ensures forest.Valid() && forest.parent.Keys == old(forest.parent).Keys && forest.links == old(forest.links)
    ensures Roots(forest.parent) == roots && SeedsOf(roots, seen + {key}, after)
  {
    ghost var was := forest.parent;
    var root := forest.Find(key);
    SameRootsSame(was, forest.parent);
    assert roots[key] == root;
    after := if root !in seeds || key.path < seeds[root] then seeds[root := key.path] else seeds;
    OneMoreSeen(roots, seen, seeds, key, after);
  }

  /** The least path under each root. */
  method Seeds(forest: ProvenanceForest) returns (seeds: map<Key, Id>)
    requires forest.Valid()
    modifies forest
    ensures forest.Valid() && forest.parent.Keys == old(forest.parent).Keys && forest.links == old(forest.links)
    ensures SeedsOf(Roots(forest.parent), forest.parent.Keys, seeds)
  {
    seeds := map[];
    var pending := forest.parent.Keys;
    ghost var keys, roots := forest.parent.Keys, Roots(forest.parent);
    while pending != {}
      invariant forest.Valid() && forest.parent.Keys == keys && forest.links == old(forest.links)
      invariant pending <= keys && Roots(forest.parent) == roots
      invariant SeedsOf(roots, keys - pending, seeds)
      decreases pending
    {
      var key :| key in pending;
      seeds := SeedStep(forest, seeds, key, keys - pending, roots);
      assert keys - pending + {key} == keys - (pending - {key});
      pending := pending - {key};
    }
    assert keys - {} == keys;
  }

  /** The least path under a key's root is the seed of its component. */
  lemma SeedIsLeast(parent: Parents, links: Links, seeds: map<Key, Id>, k: Key)
    requires Represents(parent, links) && k in parent && SeedsOf(Roots(parent), parent.Keys, seeds)
    requires OneVault(links)
    ensures Root(parent, k) in seeds && IsSeed(links, k, seeds[Root(parent, k)])
  {
    var r := Root(parent, k);
    assert Roots(parent)[k] == r;
    assert LeastAt(Roots(parent), parent.Keys, seeds, k) && AttainedAt(Roots(parent), seeds, r);
    var m :| m in Roots(parent) && Roots(parent)[m] == r && m.path == seeds[r];
    SameRootIffConnected(parent, links, k, m);
    forall b | Connected(links, k, b) ensures NotAfter(m, b) {
      ConnectedSameRoot(parent, links, k, b);
      assert Roots(parent)[b] == r && LeastAt(Roots(parent), parent.Keys, seeds, b);
    }
  }

  /** The family of every page. */
  method AssignProvenanceFamilies(pages: seq<Page>) returns (families: seq<Family>)
    ensures |families| == |pages| && AllFamilies(families, pages)
  {
    var forest := Join(pages);
    var seeds := Seeds(forest);
    ghost var links := LinksOf(pages);
    LinksStayInVault(pages);
    families := Assign(forest, seeds, pages, links);
  }

  /** Links join keys of one Vault. */
  ghost predicate OneVault(links: Links) {
    forall a, b :: Connected(links, a, b) ==> a.vault == b.vault
  }

  lemma LinksStayInVault(pages: seq<Page>)
    ensures OneVault(LinksOf(pages)) && forall p :: p in pages ==> KeyOf(p) in Nodes(pages)
  {
    forall a, b | Connected(LinksOf(pages), a, b) ensures a.vault == b.vault {
      SameVault(pages, a, b);
    }
  }

  method Assign(forest: ProvenanceForest, seeds: map<Key, Id>, pages: seq<Page>, ghost links: Links)
    returns (families: seq<Family>)
    requires forest.Valid() && forest.links == links && OneVault(links) && Seeded(forest.parent, seeds)
    requires forall p :: p in pages ==> KeyOf(p) in forest.parent
    modifies forest
    ensures |families| == |pages| && forall i :: 0 <= i < |pages| ==> IsFamilyIn(links, families[i], pages[i])
  {
    families := [];
    for i := 0 to |pages|
      invariant forest.Valid() && forest.parent.Keys == old(forest.parent).Keys && forest.links == links
      invariant Seeded(forest.parent, seeds)
      invariant |families| == i && forall j :: 0 <= j < i ==> IsFamilyIn(links, families[j], pages[j])
    {
      var family := FamilyOf(forest, seeds, pages[i], links);
      families := families + [family];
    }
  }

  ghost predicate AllFamilies(families: seq<Family>, pages: seq<Page>) {
    |families| <= |pages| && forall i :: 0 <= i < |families| ==> IsFamilyOf(families[i], pages, pages[i])
  }

  ghost predicate IsFamilyIn(links: Links, f: Family, p: Page) {
    f.vault == p.vault && IsSeed(links, KeyOf(p), f.seed)
  }

  ghost predicate IsFamilyOf(f: Family, pages: seq<Page>, p: Page) {
    IsFamilyIn(LinksOf(pages), f, p)
  }

  ghost predicate Seeded(parent: Parents, seeds: map<Key, Id>) {
    Forest(parent) && SeedsOf(Roots(parent), parent.Keys, seeds)
  }

  method FamilyOf(forest: ProvenanceForest, seeds: map<Key, Id>, p: Page, ghost links: Links) returns (f: Family)
    requires forest.Valid() && forest.links == links && OneVault(links) && KeyOf(p) in forest.parent
    requires Seeded(forest.parent, seeds)
    modifies forest
    ensures forest.Valid() && forest.parent.Keys == old(forest.parent).Keys && forest.links == links
    ensures Seeded(forest.parent, seeds)
    ensures IsFamilyIn(links, f, p)
  {
    ghost var was := forest.parent;
    var root := forest.Find(KeyOf(p));
    SameRootsSame(was, forest.parent);
    SeedIsLeast(was, links, seeds, KeyOf(p));
    f := Family(p.vault, seeds[root]);
  }
}
