/** Where an unforced run over the whole scope leaves a record behind: a page is gone and no revision tells. */
module StaleRecords {
  import opened Core
  import opened Text
  import opened SourcePaths
  import opened LinkResolution
  import opened Extraction
  import opened GraphIndex
  import opened GraphStores
  import opened GraphRuns
  import opened MissedLinks

  // ---- A page with two links of one caption, the first to a page that goes away ----

  const A: Path := ["docs", "a.md"]
  const B: Path := ["docs", "b.md"]
  const Plain := Frontmatter("", None, [], [], [], [], "{}")
  const DocA := Document(0, A, Plain)
  const DocB := Document(1, B, Plain)
  const ChunkA := Chunk(0, 0, A, "b c", [Link("b", "Foo"), Link("c", "foo")], None, None, 0)
  const ChunkB := Chunk(1, 1, B, "y", [], None, None, 0)
  const Old: Library := map[A := Page(DocA, [ChunkA]), B := Page(DocB, [ChunkB])]
  const New: Library := map[A := Page(DocA, [ChunkA])]

  const Lower := ConceptEntity(ChunkA, "foo", 70, UnresolvedLink)
  const Upper := ConceptEntity(ChunkA, "Foo", 70, UnresolvedLink)
  const Foo := EntityOwner(EntityKey(Concept, "foo", None))

  lemma Names()
    ensures OwnerOf(Lower) == Foo && OwnerOf(Upper) == Foo && Lower.name == "foo" && Upper.name == "Foo"
    ensures Lower.at == PlaceOf(ChunkA) && Upper.at == PlaceOf(ChunkA)
  {
    NothingToTrim("foo");
    NothingToTrim("Foo");
    assert Text.Lower("Foo") == "foo" && Text.Lower("foo") == "foo" by {
      assert "Foo"[1..] == "oo" && "foo"[1..] == "oo";
    }
    OneWord("foo");
    assert Join(["foo"], " ") == "foo";
  }

  lemma Pages()
    ensures Old.Keys == {A, B} && Old[A] == Page(DocA, [ChunkA]) && Old[B] == Page(DocB, [ChunkB])
    ensures New.Keys == {A} && New[A] == Page(DocA, [ChunkA]) && A != B
    ensures Docs(Old).Keys == {A, B} && Docs(Old)[B] == DocB && Docs(New).Keys == {A}
  {
  }

  /** A one-letter link looks for the one document of that name. */
  lemma LetterLink(documents: set<Path>, name: string)
    requires name == "b" || name == "c"
    requires documents == {A, B} || documents == {A}
    ensures Resolve(documents, A, name) == UniqueNamed(documents, name + ".md") && !External(Trim(name))
  {
    var file := name + ".md";
    assert name + "" == name;
    NothingToTrim(name);
    BeforeStops(name, '|', "");
    BeforeStops(name, '#', "");
    assert LinkBody(name) == name && EnsureMd(name) == file;
    BareTarget(A, file);
    assert [file] !in documents;
  }

  /** A file name alone is looked up by name. */
  lemma BareTarget(source: Path, file: string)
    requires EndsWith(file, ".md") && '/' !in file
    ensures TargetPath(source, file) == Some([file])
  {
    assert file[|file| - 3..][1] == 'm' && file[|file| - 3..][2] == 'd';
    assert file[0] in file && file[|file| - 1] == 'd';
    BareName(file);
    assert [file][1..] == [];
    assert Kept([file]) == [file];
    assert file[|file| - 3] == '.' && file !in CONTENT_ROOTS;
  }

  lemma OnlyNamed(p: Path, q: Path, name: string)
    requires FileName(p) != name && FileName(q) == name
    ensures UniqueNamed({p, q}, name) == Some(q)
    ensures UniqueNamed({p}, name) == None
  {
    assert Named({p, q}, name) == {q};
    assert Named({p}, name) == {};
  }

  lemma Resolved()
    ensures TargetOf(Docs(Old), A, "b") == Some(DocB) && TargetOf(Docs(Old), A, "c") == None
    ensures TargetOf(Docs(New), A, "b") == None && TargetOf(Docs(New), A, "c") == None
  {
    Pages();
    Finds();
    LetterLink({A, B}, "b");
    LetterLink({A, B}, "c");
    LetterLink({A}, "b");
    LetterLink({A}, "c");
  }

  lemma Finds()
    ensures UniqueNamed({A, B}, "b" + ".md") == Some(B) && UniqueNamed({A}, "b" + ".md") == None
    ensures UniqueNamed({A, B}, "c" + ".md") == None && UniqueNamed({A}, "c" + ".md") == None
  {
    assert "b" + ".md" == "b.md" && "c" + ".md" == "c.md";
    OnlyNamed(A, B, "b.md");
    assert Named({A, B}, "c.md") == {} && Named({A}, "c.md") == {};
  }

  const IdA := DocumentEntity(ChunkA, DocA, Identity, None)
  const LinkB := DocumentEntity(ChunkA, DocB, LinkTarget, None)

  lemma Links(docs: Documents, first: Occurrence)
    requires first == (match TargetOf(docs, A, "b") case Some(d) => DocumentEntity(ChunkA, d, LinkTarget, None) case None => Upper)
    requires TargetOf(docs, A, "c") == None
    ensures LinkEntities(ChunkA, docs, ChunkA.links) == [first, Lower]
  {
    LetterLink({A}, "b");
    LetterLink({A}, "c");
    var one, two := Link("b", "Foo"), Link("c", "foo");
    assert LinkEntity(ChunkA, docs, one) == [first];
    assert LinkEntity(ChunkA, docs, two) == [Lower];
    TwoLinks(docs, one, two);
  }

  lemma TwoLinks(docs: Documents, one: Link, two: Link)
    ensures LinkEntities(ChunkA, docs, [one, two]) == LinkEntity(ChunkA, docs, one) + LinkEntity(ChunkA, docs, two)
  {
    assert [two][1..] == [] && [one, two][1..] == [two];
    assert LinkEntities(ChunkA, docs, [two]) == LinkEntity(ChunkA, docs, two);
  }

  lemma PlainRaw(c: Chunk, d: Document, docs: Documents)
    requires d.frontmatter.tags == d.frontmatter.revisitWhen == [] && d.frontmatter.targets == [] && c.section == None
    ensures RawEntities(c, d, docs) == [DocumentEntity(c, d, Identity, None)] + LinkEntities(c, docs, c.links)
  {
    Nothing(c, d, docs);
    OnlyLast(TagEntities(c, Clean(d.frontmatter.tags)), TargetEntities(c, d.path, docs, CleanTargets(d.frontmatter.targets)),
             RevisitEntities(c, Clean(d.frontmatter.revisitWhen)), HeadingEntities(c), LinkEntities(c, docs, c.links));
  }

  lemma Nothing(c: Chunk, d: Document, docs: Documents)
    requires d.frontmatter.tags == d.frontmatter.revisitWhen == [] && d.frontmatter.targets == [] && c.section == None
    ensures TagEntities(c, Clean(d.frontmatter.tags)) == [] && HeadingEntities(c) == []
    ensures TargetEntities(c, d.path, docs, CleanTargets(d.frontmatter.targets)) == []
    ensures RevisitEntities(c, Clean(d.frontmatter.revisitWhen)) == []
  {
  }

  lemma OnlyLast<T>(a: seq<T>, b: seq<T>, c: seq<T>, d: seq<T>, e: seq<T>)
    requires a == [] && b == [] && c == [] && d == []
    ensures a + b + c + d + e == e
  {
  }

  lemma RawWith(docs: Documents, first: Occurrence)
    requires first == (match TargetOf(docs, A, "b") case Some(d) => DocumentEntity(ChunkA, d, LinkTarget, None) case None => Upper)
    requires TargetOf(docs, A, "c") == None
    ensures RawEntities(ChunkA, DocA, docs) == [IdA, first, Lower]
  {
    Links(docs, first);
    PlainRaw(ChunkA, DocA, docs);
  }

  lemma OldRaw()
    ensures RawEntities(ChunkA, DocA, Docs(Old)) == [IdA, LinkB, Lower]
  {
    Pages();
    Resolved();
    RawWith(Docs(Old), LinkB);
  }

  lemma NewRaw()
    ensures RawEntities(ChunkA, DocA, Docs(New)) == [IdA, Upper, Lower]
  {
    Pages();
    Resolved();
    RawWith(Docs(New), Upper);
  }

  /** Of two occurrences of one entity the first is kept. */
  lemma FirstIsKept(a: Occurrence, b: Occurrence, c: Occurrence)
    requires SameEntity(b, c) && !SameEntity(a, b)
    ensures Dedupe([a, b, c]) == [a, b]
  {
    assert [a, b, c][..2] == [a, b] && [a, b][..1] == [a] && [a][..0] == [];
    assert Dedupe([a]) == [a];
    assert Dedupe([a, b]) == [a, b];
    assert b in [a, b];
  }

  /** The concept has one occurrence in either case, named by the link that is kept. */
  lemma OldConcept(o: Occurrence)
    ensures Extracted(Deterministic, Old)(o) && OwnerOf(o) == Foo <==> o == Lower
  {
    Names();
    Pages();
    if o.at.path == A {
      OnePage(Old, A, ChunkA, o);
      EntityPart(ChunkA, DocA, Docs(Old), o);
      OldOnA(o);
    } else if o.at.path == B {
      OnePage(Old, B, ChunkB, o);
      OldOnB();
    }
  }

  lemma OldOnA(o: Occurrence)
    ensures o in Dedupe(RawEntities(ChunkA, DocA, Docs(Old))) && OwnerOf(o) == Foo <==> o == Lower
  {
    Names();
    OldRaw();
    OtherOwners();
    ThirdOnly(IdA, LinkB, Lower, o);
  }

  lemma ThirdOnly(a: Occurrence, b: Occurrence, c: Occurrence, o: Occurrence)
    requires OwnerOf(a) != Foo && OwnerOf(b) != Foo && OwnerOf(c) == Foo
    ensures o in Dedupe([a, b, c]) && OwnerOf(o) == Foo <==> o == c
  {
    ConceptIn([a, b, c], c, o);
  }

  lemma SecondOnly(a: Occurrence, b: Occurrence, c: Occurrence, o: Occurrence)
    requires OwnerOf(a) != Foo && OwnerOf(b) == Foo && SameEntity(b, c)
    ensures o in Dedupe([a, b, c]) && OwnerOf(o) == Foo <==> o == b
  {
    FirstIsKept(a, b, c);
  }

  lemma OtherOwners()
    ensures OwnerOf(IdA) != Foo && OwnerOf(LinkB) != Foo
  {
  }

  lemma OldOnB()
    ensures forall o :: o in ChunkOccurrences(ChunkB, DocB, Docs(Old)) ==> OwnerOf(o) != Foo
  {
    OnlyIdentity(ChunkB, DocB, Docs(Old));
  }

  /** If one raw entity alone stands for the concept, it is kept and no other is. */
  lemma ConceptIn(raw: seq<Occurrence>, one: Occurrence, o: Occurrence)
    requires forall e :: e in raw && OwnerOf(e) == Foo <==> e == one
    ensures o in Dedupe(raw) && OwnerOf(o) == Foo <==> o == one
  {
    DedupeKeeps(raw);
    assert one in raw;
    var k :| k in Dedupe(raw) && SameEntity(k, one);
    assert k == one;
  }

  lemma EntityPart(c: Chunk, d: Document, docs: Documents, o: Occurrence)
    ensures o in ChunkOccurrences(c, d, docs) && o.Entity? <==> o in Dedupe(RawEntities(c, d, docs))
  {
    var entities := Entities(c, d, docs);
    var key := IdentityKey(d, entities);
    if key.Some? {
      RelationsAt(key.value, entities, c);
    }
  }

  lemma NewConcept(o: Occurrence)
    ensures Extracted(Deterministic, New)(o) && OwnerOf(o) == Foo <==> o == Upper
  {
    Names();
    Pages();
    if o.at.path == A {
      OnePage(New, A, ChunkA, o);
      EntityPart(ChunkA, DocA, Docs(New), o);
      NewOnA(o);
    }
  }

  lemma NewOnA(o: Occurrence)
    ensures o in Dedupe(RawEntities(ChunkA, DocA, Docs(New))) && OwnerOf(o) == Foo <==> o == Upper
  {
    Names();
    NewRaw();
    OtherOwners();
    SecondOnly(IdA, Upper, Lower, o);
  }

  // ---- The run that leaves the record ----

  /** The metadata before and after the page goes away; both carry the same revisions. */
  const Before := Metadata(Old, map[A := 1, B := 1], 2)
  const Now := Written(Before, map[], {B})

  lemma SameStamps()
    ensures Now.lib == New && Now.stamps.Values == Before.stamps.Values == {1}
  {
    assert Now.stamps == map[A := 1];
    assert Now.stamps[A] == 1 && Before.stamps[A] == 1 && Before.stamps[B] == 1;
  }

  /** The rows of a group of one occurrence. */
  lemma RowsOfOne(occurs: Occurrence -> bool, evidence: map<RefId, Ref>, one: Occurrence)
    requires EvidenceOf(occurs, evidence) && forall o :: occurs(o) && OwnerOf(o) == OwnerOf(one) <==> o == one
    ensures GraphStores.RowsOf(evidence, OwnerOf(one)) == {RefIdOf(one)}
    ensures HashesOf(evidence, OwnerOf(one)) == {one.at.hash}
  {
    assert occurs(one) && RefIdOf(one) in evidence;
    forall id | id in GraphStores.RowsOf(evidence, OwnerOf(one)) ensures id == RefIdOf(one) {
      var o := RowOccurs(occurs, evidence, id);
      assert o == one;
    }
    assert evidence[RefIdOf(one)].hash == one.at.hash;
  }

  lemma RecordOfOne(occurs: Occurrence -> bool, one: Occurrence, record: Record)
    requires (forall o :: occurs(o) && OwnerOf(o) == OwnerOf(one) <==> o == one)
    requires Describes(occurs, OwnerOf(one), record)
    ensures record.name == ShownName(one)
  {
  }

  /**
   * The graph mirrors the metadata before, the page with the resolved link is gone, and the revisions are the same: an
   * unforced run over the whole scope skips the concept's record, whose name is now another.
   */
  lemma RecordIsLeftBehind(stored: map<Owner, Stored>, evidence: map<RefId, Ref>, revision: Option<Revision>,
                           desired: map<Owner, Record>, refs: map<RefId, Ref>, run: Lineage)
    requires Mirrors(Extracted(Deterministic, Before.lib), stored, evidence)
    requires revision.Some? ==> revision.value.lineage == run
    requires forall w :: w in stored ==> stored[w].spec == run.spec && stored[w].metadata == run.metadata
    requires RecordsOf(Extracted(Deterministic, Now.lib), desired) && EvidenceOf(Extracted(Deterministic, Now.lib), refs)
    ensures Foo in Skipped(stored, evidence, revision, desired, refs, run, false)
    ensures Foo in stored && Foo in desired && stored[Foo].record != desired[Foo]
  {
    SameStamps();
    Names();
    var was, now := Extracted(Deterministic, Old), Extracted(Deterministic, New);
    forall o ensures was(o) && OwnerOf(o) == Foo <==> o == Lower {
      OldConcept(o);
    }
    forall o ensures now(o) && OwnerOf(o) == Foo <==> o == Upper {
      NewConcept(o);
    }
    ConceptIsSkipped(was, now, stored, evidence, revision, desired, refs, run);
  }

  lemma ConceptIsSkipped(was: Occurrence -> bool, now: Occurrence -> bool, stored: map<Owner, Stored>,
                         evidence: map<RefId, Ref>, revision: Option<Revision>, desired: map<Owner, Record>,
                         refs: map<RefId, Ref>, run: Lineage)
    requires (forall o :: was(o) && OwnerOf(o) == Foo <==> o == Lower) && (forall o :: now(o) && OwnerOf(o) == Foo <==> o == Upper)
    requires Mirrors(was, stored, evidence) && RecordsOf(now, desired) && EvidenceOf(now, refs)
    requires revision.Some? ==> revision.value.lineage == run
    requires forall w :: w in stored ==> stored[w].spec == run.spec && stored[w].metadata == run.metadata
    ensures Foo in Skipped(stored, evidence, revision, desired, refs, run, false)
    ensures Foo in stored && Foo in desired && stored[Foo].record != desired[Foo]
  {
    Names();
    RowsOfOne(was, evidence, Lower);
    RowsOfOne(now, refs, Upper);
    assert HasOwner(was, Foo) && HasOwner(now, Foo) && Foo in Live(stored);
    RecordOfOne(was, Lower, Live(stored)[Foo]);
    RecordOfOne(now, Upper, desired[Foo]);
  }

  /** So the run does not leave the full extraction; a forced one would. */
  lemma UnforcedRunIsNotExact(stored: map<Owner, Stored>, evidence: map<RefId, Ref>, revision: Option<Revision>,
                              desired: map<Owner, Record>, refs: map<RefId, Ref>, run: Lineage, full: bool)
    requires Mirrors(Extracted(Deterministic, Before.lib), stored, evidence) && Tidy(stored, evidence)
    requires revision.Some? ==> revision.value.lineage == run
    requires forall w :: w in stored ==> stored[w].spec == run.spec && stored[w].metadata == run.metadata
    requires RecordsOf(Extracted(Deterministic, Now.lib), desired) && EvidenceOf(Extracted(Deterministic, Now.lib), refs)
    ensures var skipped := Skipped(stored, evidence, revision, desired, refs, run, full);
      var after, rows := ScopeRecords(stored, desired, skipped, run), ScopeEvidence(stored, evidence, desired, refs, skipped);
      Mirrors(Extracted(Deterministic, Now.lib), after, rows) <==> full
  {
    RecordIsLeftBehind(stored, evidence, revision, desired, refs, run);
    WholeRunExactly(Extracted(Deterministic, Now.lib), stored, evidence, revision, desired, refs, run, full);
  }
}
