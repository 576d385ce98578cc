/** What the records and evidence of a graph are, on the fields of occurrences. */
module GraphRecords {
  import opened Core
  import opened Text
  import opened LinkResolution
  import opened Extraction
  import opened GraphIndex
  import opened GraphStores

  // ---- Which occurrence names a record ----

  ghost function MethodName(how: Method): string {
    match how
    case Identity => "document-identity-v1"
    case FrontTarget(Related) => "frontmatter-" + "related-target-v1"
    case FrontTarget(DependsOn) => "frontmatter-" + "depends-on-target-v1"
    case FrontTarget(Blocks) => "frontmatter-" + "blocks-target-v1"
    case FrontTarget(Implements) => "frontmatter-" + "implements-target-v1"
    case FrontTarget(Supersedes) => "frontmatter-" + "supersedes-target-v1"
    case RevisitWhen => "frontmatter-" + "revisit-when-concept-v1"
    case Tag => "frontmatter-" + "tag-concept-v1"
    case Heading => "heading-concept-v1"
    case LinkTarget => "local-link-target-document-v1"
    case UnresolvedLink => "unresolved-local-link-concept-v1"
  }

  /** `a` comes before `b` as text: it differs first by a smaller character, or `b` goes on where it ends. */
  ghost predicate Before(a: string, b: string) {
    a < b || exists k :: DiffersAt(a, b, k)
  }

  ghost predicate DiffersAt(a: string, b: string, k: nat) {
    k < |a| && k < |b| && a[..k] == b[..k] && a[k] < b[k]
  }

  lemma FirstAgrees(a: string, b: string, k: nat)
    requires DiffersAt(a, b, k)
    ensures a[0] == b[0] || k == 0
  {
    assert k > 0 ==> a[..k][0] == b[..k][0];
  }

  lemma {:induction false} AtMostMeans(a: string, b: string)
    ensures AtMost(a, b) <==> a == b || Before(a, b)
  {
    if a != [] && b != [] && a[0] == b[0] {
      AtMostMeans(a[1..], b[1..]);
      assert a == [a[0]] + a[1..] && b == [b[0]] + b[1..];
      if k: nat :| DiffersAt(a[1..], b[1..], k) {
        assert a[..k + 1] == [a[0]] + a[1..][..k] && b[..k + 1] == [b[0]] + b[1..][..k];
        assert DiffersAt(a, b, k + 1);
      }
      if k: nat :| DiffersAt(a, b, k) {
        assert k > 0;
        assert a[1..][..k - 1] == a[..k][1..] && b[1..][..k - 1] == b[..k][1..];
        assert DiffersAt(a[1..], b[1..], k - 1);
      }
    } else if a != [] && b != [] {
      assert a[0] < b[0] ==> DiffersAt(a, b, 0);
      if k: nat :| DiffersAt(a, b, k) {
        FirstAgrees(a, b, k);
      }
    }
  }

  /** The methods in the text order of their names. */
  ghost const METHODS: seq<Method> := [
    Identity, FrontTarget(Blocks), FrontTarget(DependsOn), FrontTarget(Implements), FrontTarget(Related), RevisitWhen,
    FrontTarget(Supersedes), Tag, Heading, LinkTarget, UnresolvedLink]

  lemma RankIsPlace(how: Method)
    ensures MethodRank(how) < |METHODS| && METHODS[MethodRank(how)] == how
  {
  }

  ghost predicate Less(a: string, b: string) {
    AtMost(a, b) && a != b
  }

  lemma LessTransitive(a: string, b: string, c: string)
    requires Less(a, b) && Less(b, c)
    ensures Less(a, c)
  {
    AtMostTransitive(a, b, c);
    AtMostTotal(a, b);
  }

  ghost function NameAt(i: nat): string
    requires i < |METHODS|
  {
    MethodName(METHODS[i])
  }

  lemma NextName(i: nat)
    requires i + 1 < |METHODS|
    ensures Less(NameAt(i), NameAt(i + 1))
  {
    if i in {0, 7, 8, 9} {
      DiffersLess(NameAt(i), NameAt(i + 1), 0);
    } else {
      NextFieldName(i);
    }
  }

  lemma DiffersLess(a: string, b: string, k: nat)
    requires DiffersAt(a, b, k)
    ensures Less(a, b)
  {
    AtMostMeans(a, b);
  }

  /** The methods of frontmatter fields share the first part of their names. */
  ghost function FieldName(i: nat): string
    requires 1 <= i <= 7
  {
    ["blocks-target-v1", "depends-on-target-v1", "implements-target-v1", "related-target-v1", "revisit-when-concept-v1",
     "supersedes-target-v1", "tag-concept-v1"][i - 1]
  }

  lemma NextFieldName(i: nat)
    requires 1 <= i < 7
    ensures Less(NameAt(i), NameAt(i + 1))
  {
    var a, b := FieldName(i), FieldName(i + 1);
    assert NameAt(i) == "frontmatter-" + a && NameAt(i + 1) == "frontmatter-" + b;
    var k := if i == 4 then 2 else 0;
    assert DiffersAt(a, b, k);
    DiffersBehind("frontmatter-", a, b, k);
  }

  lemma DiffersBehind(front: string, a: string, b: string, k: nat)
    requires DiffersAt(a, b, k)
    ensures Less(front + a, front + b)
  {
    assert (front + a)[..|front| + k] == front + a[..k] && (front + b)[..|front| + k] == front + b[..k];
    DiffersLess(front + a, front + b, |front| + k);
  }

  lemma {:induction false} NamesAscend(i: nat, j: nat)
    requires i < j < |METHODS|
    ensures Less(NameAt(i), NameAt(j))
    decreases j - i
  {
    NextName(i);
    if i + 1 < j {
      NamesAscend(i + 1, j);
      LessTransitive(NameAt(i), NameAt(i + 1), NameAt(j));
    }
  }

  /** Methods are compared by their names. */
  lemma RankIsNameOrder(a: Method, b: Method)
    ensures MethodRank(a) < MethodRank(b) <==> Before(MethodName(a), MethodName(b))
  {
    RankIsPlace(a);
    RankIsPlace(b);
    AtMostMeans(MethodName(a), MethodName(b));
    AtMostMeans(MethodName(b), MethodName(a));
    AtMostTotal(MethodName(a), MethodName(b));
    if MethodRank(a) < MethodRank(b) {
      NamesAscend(MethodRank(a), MethodRank(b));
    } else if MethodRank(b) < MethodRank(a) {
      NamesAscend(MethodRank(b), MethodRank(a));
      NotBefore(MethodName(a), MethodName(b));
    } else {
      NotBefore(MethodName(a), MethodName(b));
    }
  }

  lemma NotBefore(a: string, b: string)
    requires AtMost(b, a)
    ensures !Before(a, b)
  {
    AtMostMeans(a, b);
    AtMostTotal(a, b);
    if k: nat :| DiffersAt(a, a, k) {
      assert false;
    }
  }

  /** The place of an occurrence in the sort order: path, chunk, method, and the name of an entity. */
  ghost predicate Earlier(a: Occurrence, b: Occurrence) {
    var p, q := Join(a.at.path, "/"), Join(b.at.path, "/");
    || Before(p, q)
    || (p == q && a.at.chunk < b.at.chunk)
    || (p == q && a.at.chunk == b.at.chunk && Before(MethodName(a.how), MethodName(b.how)))
    || (p == q && a.at.chunk == b.at.chunk && a.how == b.how && a.Entity? && b.Entity? && Before(a.name, b.name))
  }

  /** Of two occurrences of one owner, one is as good, if and only if it has the higher confidence, or comes no later. */
  lemma AsGoodMeans(a: Occurrence, b: Occurrence)
    requires OwnerOf(a) == OwnerOf(b)
    ensures AsGood(a, b) <==> a.confidence > b.confidence || (a.confidence == b.confidence && !Earlier(b, a))
  {
    var p, q := Join(a.at.path, "/"), Join(b.at.path, "/");
    OrderedOneWay(p, q);
    OrderedOneWay(ShownName(a), ShownName(b));
    RankIsNameOrder(a.how, b.how);
    RankIsNameOrder(b.how, a.how);
    RankIsPlace(a.how);
    RankIsPlace(b.how);
  }

  lemma OrderedOneWay(a: string, b: string)
    ensures AtMost(a, b) <==> !Before(b, a)
    ensures Before(a, b) ==> a != b
  {
    AtMostMeans(a, b);
    AtMostMeans(b, a);
    AtMostTotal(a, b);
    if AtMost(a, b) {
      NotBefore(b, a);
    }
    NotBefore(a, a);
  }

  // ---- Records and evidence ----

  /** The owner is the entity the occurrence names, or the relationship it states. */
  ghost predicate Belongs(o: Occurrence, w: Owner) {
    match w
    case EntityOwner(key) => o.Entity? && o.key == key
    case RelationOwner(kind, source, target) => o.Relation? && o.kind == kind && o.source == source && o.target == target
  }

  /** The occurrence a record takes its name from: none of the owner is more confident, or as confident and earlier. */
  ghost predicate Represents(occurs: Occurrence -> bool, w: Owner, r: Occurrence) {
    && occurs(r) && Belongs(r, w)
    && forall o :: occurs(o) && Belongs(o, w) ==>
      o.confidence < r.confidence || (o.confidence == r.confidence && !Earlier(o, r))
  }

  ghost predicate RecordShows(occurs: Occurrence -> bool, w: Owner, record: Record) {
    && (exists r :: Represents(occurs, w, r) && record.confidence == r.confidence && record.how == r.how
          && record.name == if r.Entity? then r.name else "")
    && forall a :: a in record.aliases <==> exists o :: occurs(o) && Belongs(o, w) && o.Entity? && a in o.aliases
  }

  lemma BelongsMeans(o: Occurrence, w: Owner)
    ensures Belongs(o, w) <==> OwnerOf(o) == w
  {
  }

  lemma RecordMeans(occurs: Occurrence -> bool, w: Owner, record: Record)
    requires Describes(occurs, w, record)
    ensures RecordShows(occurs, w, record)
  {
    var r :| IsBest(occurs, w, r) && record.name == ShownName(r) && record.confidence == r.confidence && record.how == r.how;
    forall o | occurs(o) && Belongs(o, w)
      ensures o.confidence < r.confidence || (o.confidence == r.confidence && !Earlier(o, r))
    {
      AsGoodMeans(r, o);
    }
    assert Represents(occurs, w, r);
    forall a ensures a in record.aliases <==> exists o :: occurs(o) && Belongs(o, w) && o.Entity? && a in o.aliases {
      if a in record.aliases {
        var o :| occurs(o) && OwnerOf(o) == w && a in Aliases(o);
        assert Belongs(o, w) && o.Entity?;
      }
      if o :| occurs(o) && Belongs(o, w) && o.Entity? && a in o.aliases {
        assert OwnerOf(o) == w && a in Aliases(o);
      }
    }
  }

  /** The row is the evidence of the occurrence for its owner. */
  ghost predicate RowShows(id: RefId, row: Ref, o: Occurrence) {
    && Belongs(o, id.owner) && id.document == o.at.document && id.chunk == o.at.chunk
    && id.anchor == (if o.at.anchor.Some? then o.at.anchor.value else "")
    && row.path == o.at.path && row.hash == o.at.hash && row.section == o.at.section && row.anchor == o.at.anchor
  }

  ghost predicate HasRow(evidence: map<RefId, Ref>, o: Occurrence) {
    exists id :: id in evidence && RowShows(id, evidence[id], o)
  }

  ghost predicate HasOccurrence(occurs: Occurrence -> bool, id: RefId, row: Ref) {
    exists o :: occurs(o) && RowShows(id, row, o)
  }

  /** Every occurrence has its row, and every row an occurrence. */
  lemma EvidenceMeans(occurs: Occurrence -> bool, evidence: map<RefId, Ref>, o: Occurrence, id: RefId)
    requires EvidenceOf(occurs, evidence)
    ensures occurs(o) ==> HasRow(evidence, o)
    ensures id in evidence ==> HasOccurrence(occurs, id, evidence[id])
  {
    if occurs(o) {
      RowIsShown(o);
    }
    if id in evidence {
      RowHasOccurrence(occurs, evidence, id);
    }
  }

  lemma RowHasOccurrence(occurs: Occurrence -> bool, evidence: map<RefId, Ref>, id: RefId)
    requires forall o :: occurs(o) ==> RefIdOf(o) in evidence && evidence[RefIdOf(o)] == RefOf(o)
    requires exists o :: occurs(o) && RefIdOf(o) == id
    ensures id in evidence && HasOccurrence(occurs, id, evidence[id])
  {
    var o :| occurs(o) && RefIdOf(o) == id;
    RowIsShown(o);
  }

  lemma RowIsShown(o: Occurrence)
    ensures RowShows(RefIdOf(o), RefOf(o), o)
  {
    BelongsMeans(o, OwnerOf(o));
  }

  // ---- The whole graph ----

  ghost predicate IsLive(records: map<Owner, Stored>, w: Owner) {
    w in records && records[w].live
  }

  /** Live records are those of the owners that occur, and say what their occurrences yield. */
  lemma MirrorMeans(occurs: Occurrence -> bool, records: map<Owner, Stored>, evidence: map<RefId, Ref>)
    requires Mirrors(occurs, records, evidence)
    ensures forall w :: IsLive(records, w) <==> exists o :: occurs(o) && Belongs(o, w)
    ensures forall w :: IsLive(records, w) ==> RecordShows(occurs, w, records[w].record)
  {
    forall w ensures IsLive(records, w) <==> exists o :: occurs(o) && Belongs(o, w) {
      assert IsLive(records, w) <==> w in Live(records);
      if HasOwner(occurs, w) {
        var o :| occurs(o) && OwnerOf(o) == w;
        BelongsMeans(o, w);
      }
      if o :| occurs(o) && Belongs(o, w) {
        BelongsMeans(o, w);
      }
    }
    forall w | IsLive(records, w) ensures RecordShows(occurs, w, records[w].record) {
      RecordMeans(occurs, w, Live(records)[w]);
    }
  }

  /** The owners that occur are live, whatever their records say, and no others. */
  lemma OwnersMean(occurs: Occurrence -> bool, records: map<Owner, Stored>)
    requires OwnersOf(occurs, records)
    ensures forall w :: IsLive(records, w) <==> exists o :: occurs(o) && Belongs(o, w)
  {
    forall w ensures IsLive(records, w) <==> exists o :: occurs(o) && Belongs(o, w) {
      assert IsLive(records, w) <==> w in LiveOwners(records);
      if HasOwner(occurs, w) {
        var o :| occurs(o) && OwnerOf(o) == w;
        BelongsMeans(o, w);
      }
      if o :| occurs(o) && Belongs(o, w) {
        BelongsMeans(o, w);
      }
    }
  }

  lemma CountsMean(revision: Revision, records: map<Owner, Stored>)
    requires Counts(revision, records)
    ensures revision.entityCount == |set w | w in records && records[w].live && w.EntityOwner?|
    ensures revision.relationCount == |set w | w in records && records[w].live && w.RelationOwner?|
  {
    assert EntitiesIn(LiveOwners(records)) == set w | w in records && records[w].live && w.EntityOwner?;
    assert RelationsIn(LiveOwners(records)) == set w | w in records && records[w].live && w.RelationOwner?;
  }

  // ---- Which records an unforced run leaves as they are ----

  /** The evidence rows of the record have the same identifiers, and the same contents taken together. */
  ghost predicate SameRows(evidence: map<RefId, Ref>, refs: map<RefId, Ref>, w: Owner) {
    && (forall id: RefId :: id.owner == w ==> (id in evidence <==> id in refs))
    && (forall id :: id in evidence && id.owner == w ==> HasHash(refs, w, evidence[id].hash))
    && (forall id :: id in refs && id.owner == w ==> HasHash(evidence, w, refs[id].hash))
  }

  ghost predicate HasHash(evidence: map<RefId, Ref>, w: Owner, hash: Id) {
    exists id :: id in evidence && id.owner == w && evidence[id].hash == hash
  }

  /** A run skips a record exactly when nothing it compares has changed, and it is neither forced nor under a new lineage. */
  lemma SkippedExactly(stored: map<Owner, Stored>, evidence: map<RefId, Ref>, revision: Option<Revision>,
                       desired: map<Owner, Record>, refs: map<RefId, Ref>, run: Lineage, full: bool, w: Owner)
    ensures w in Skipped(stored, evidence, revision, desired, refs, run, full) <==>
      && !full && (revision.Some? ==> revision.value.lineage == run)
      && w in desired && IsLive(stored, w) && stored[w].spec == run.spec && stored[w].metadata == run.metadata
      && SameRows(evidence, refs, w)
  {
    SameRowsMeans(evidence, refs, w);
  }

  lemma SameRowsMeans(evidence: map<RefId, Ref>, refs: map<RefId, Ref>, w: Owner)
    ensures SameRows(evidence, refs, w) <==> RowsOf(evidence, w) == RowsOf(refs, w) && HashesOf(evidence, w) == HashesOf(refs, w)
  {
    HashesMean(evidence, w);
    HashesMean(refs, w);
    if SameRows(evidence, refs, w) {
      forall h ensures h in HashesOf(evidence, w) <==> h in HashesOf(refs, w) {
      }
    }
    if RowsOf(evidence, w) == RowsOf(refs, w) && HashesOf(evidence, w) == HashesOf(refs, w) {
      forall id: RefId | id.owner == w ensures id in evidence <==> id in refs {
        assert id in RowsOf(evidence, w) <==> id in RowsOf(refs, w);
      }
      forall id | id in evidence && id.owner == w ensures HasHash(refs, w, evidence[id].hash) {
        assert evidence[id].hash in HashesOf(evidence, w);
      }
      forall id | id in refs && id.owner == w ensures HasHash(evidence, w, refs[id].hash) {
        assert refs[id].hash in HashesOf(refs, w);
      }
    }
  }

  lemma HashesMean(evidence: map<RefId, Ref>, w: Owner)
    ensures forall h :: h in HashesOf(evidence, w) <==> HasHash(evidence, w, h)
  {
  }

  // ---- What a run may clean up ----

  /** Every path but one with a backslash, or that leaves its folder, can be cleaned up. */
  lemma CleanableExactly(path: Path)
    ensures !Cleanable(path) <==> exists part :: part in path && (part == ".." || '\\' in part)
  {
    if !Cleanable(path) {
      var i :| 0 <= i < |path| && ('\\' in path[i] || path[i] == "..");
      assert path[i] in path;
    }
  }
}
