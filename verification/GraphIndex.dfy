/** Incremental maintenance of the entity graph: rebuild what a change touches, get what a full run gives. */
module GraphIndex {
  import opened Core
  import opened Sorting
  import opened Text
  import opened SourcePaths
  import opened LinkResolution
  import opened Extraction

  // ---- The metadata one scope shows ----

  datatype Page = Page(document: Document, chunks: seq<Chunk>)
  type Library = map<Path, Page>

  function Docs(lib: Library): Documents {
    map p | p in lib :: lib[p].document
  }

  ghost predicate IsChunk(lib: Library, c: Chunk) {
    c.path in lib && c in lib[c.path].chunks
  }

  /** Every page has its own chunks, and a chunk identifier names one chunk. */
  ghost predicate WellFormed(lib: Library) {
    && (forall p :: p in lib ==> IsSourcePath(p) && lib[p].document.path == p && lib[p].chunks != [])
    && (forall p :: p in lib ==> ShowsTargets(lib[p].document.frontmatter))
    && (forall p, c :: p in lib && c in lib[p].chunks ==>
          c.path == p && c.document == lib[p].document.id && LinksFromText(c))
    && (forall c, d :: IsChunk(lib, c) && IsChunk(lib, d) && c.id == d.id ==> c == d)
  }

  /** The full extraction of a library. */
  ghost predicate Occurs(x: Extractor, lib: Library, o: Occurrence) {
    && o.at.path in lib
    && exists c :: c in lib[o.at.path].chunks && o in x(c, lib[o.at.path].document, Docs(lib))
  }

  // ---- Records and evidence ----

  datatype RefId = RefId(owner: Owner, document: Id, chunk: Id, anchor: string)
  datatype Ref = Ref(path: Path, hash: Id, section: Option<string>, anchor: Option<string>)
  datatype Record = Record(name: string, aliases: set<string>, confidence: nat, how: Method)

  function RefIdOf(o: Occurrence): RefId {
    RefId(OwnerOf(o), o.at.document, o.at.chunk, if o.at.anchor.Some? then o.at.anchor.value else "")
  }

  function RefOf(o: Occurrence): Ref {
    Ref(o.at.path, o.at.hash, o.at.section, o.at.anchor)
  }

  function ShownName(o: Occurrence): string {
    if o.Entity? then o.name else ""
  }

  function Aliases(o: Occurrence): set<string> {
    if o.Entity? then set a | a in o.aliases else {}
  }

  /** The position of an extraction method in the text order of the method names. */
  function MethodRank(how: Method): nat {
    match how
    case Identity => 0
    case FrontTarget(Blocks) => 1
    case FrontTarget(DependsOn) => 2
    case FrontTarget(Implements) => 3
    case FrontTarget(Related) => 4
    case RevisitWhen => 5
    case FrontTarget(Supersedes) => 6
    case Tag => 7
    case Heading => 8
    case LinkTarget => 9
    case UnresolvedLink => 10
  }

  /** The sort key of an occurrence: path, chunk, method, name. */
  predicate SortsFirst(a: Occurrence, b: Occurrence) {
    var p, q := Join(a.at.path, "/"), Join(b.at.path, "/");
    if p != q then AtMost(p, q)
    else if a.at.chunk != b.at.chunk then a.at.chunk < b.at.chunk
    else if a.how != b.how then MethodRank(a.how) < MethodRank(b.how)
    else AtMost(ShownName(a), ShownName(b))
  }

  lemma SortsFirstIsOrder()
    ensures TotalPreorder(SortsFirst)
  {
    forall a, b ensures SortsFirst(a, b) || SortsFirst(b, a) {
      AtMostTotal(Join(a.at.path, "/"), Join(b.at.path, "/"));
      AtMostTotal(ShownName(a), ShownName(b));
      RankInjective(a.how, b.how);
    }
    forall a, b, c | SortsFirst(a, b) && SortsFirst(b, c) ensures SortsFirst(a, c) {
      SortsFirstTransitive(a, b, c);
    }
  }

  lemma RankInjective(a: Method, b: Method)
    ensures MethodRank(a) == MethodRank(b) ==> a == b
  {
  }

  lemma SortsFirstTransitive(a: Occurrence, b: Occurrence, c: Occurrence)
    requires SortsFirst(a, b) && SortsFirst(b, c)
    ensures SortsFirst(a, c)
  {
    var p, q, r := Join(a.at.path, "/"), Join(b.at.path, "/"), Join(c.at.path, "/");
    if p != q && q != r {
      AtMostTransitive(p, q, r);
      if p == r {
        AtMostTotal(p, q);
      }
    }
    if p == q == r && a.at.chunk == b.at.chunk == c.at.chunk && a.how == b.how == c.how {
      AtMostTransitive(ShownName(a), ShownName(b), ShownName(c));
    }
  }

  /** `a` represents a group at least as well as `b`: more confident, or as confident and earlier. */
  predicate AsGood(a: Occurrence, b: Occurrence) {
    a.confidence > b.confidence || (a.confidence == b.confidence && SortsFirst(a, b))
  }

  /** A set of occurrences as a predicate, so that a library and a list can be compared. */
  ghost predicate IsBest(occurs: Occurrence -> bool, w: Owner, r: Occurrence) {
    && occurs(r) && OwnerOf(r) == w
    && forall o :: occurs(o) && OwnerOf(o) == w ==> AsGood(r, o)
  }

  ghost predicate AliasesOf(occurs: Occurrence -> bool, w: Owner, aliases: set<string>) {
    forall a :: a in aliases <==> exists o :: occurs(o) && OwnerOf(o) == w && a in Aliases(o)
  }

  /** The record a group of occurrences yields. */
  ghost predicate Describes(occurs: Occurrence -> bool, w: Owner, record: Record) {
    && AliasesOf(occurs, w, record.aliases)
    && exists r :: IsBest(occurs, w, r)
         && record.name == ShownName(r) && record.confidence == r.confidence && record.how == r.how
  }

  ghost predicate HasOwner(occurs: Occurrence -> bool, w: Owner) {
    exists o :: occurs(o) && OwnerOf(o) == w
  }

  /** A group determines its record. */
  lemma DescribesUnique(occurs: Occurrence -> bool, w: Owner, a: Record, b: Record)
    requires Describes(occurs, w, a) && Describes(occurs, w, b)
    ensures a == b
  {
    var r :| IsBest(occurs, w, r) && a.name == ShownName(r) && a.confidence == r.confidence && a.how == r.how;
    var s :| IsBest(occurs, w, s) && b.name == ShownName(s) && b.confidence == s.confidence && b.how == s.how;
    assert AsGood(r, s) && AsGood(s, r);
    AtMostTotal(Join(r.at.path, "/"), Join(s.at.path, "/"));
    AtMostTotal(ShownName(r), ShownName(s));
    assert a.aliases == b.aliases;
  }

  /** Two sources of occurrences agree on one group. */
  ghost predicate SameGroup(a: Occurrence -> bool, b: Occurrence -> bool, w: Owner) {
    forall o :: OwnerOf(o) == w ==> a(o) == b(o)
  }

  lemma SameGroupSameRecord(a: Occurrence -> bool, b: Occurrence -> bool, w: Owner, record: Record)
    requires SameGroup(a, b, w) && Describes(a, w, record)
    ensures Describes(b, w, record)
  {
    var r :| IsBest(a, w, r) && record.name == ShownName(r) && record.confidence == r.confidence && record.how == r.how;
    assert IsBest(b, w, r);
    forall x ensures x in record.aliases <==> exists o :: b(o) && OwnerOf(o) == w && x in Aliases(o) {
      if x in record.aliases {
        var o :| a(o) && OwnerOf(o) == w && x in Aliases(o);
        assert b(o);
      }
      if o :| b(o) && OwnerOf(o) == w && x in Aliases(o) {
        assert a(o);
      }
    }
  }

  /** Exactly the evidence rows of the occurrences. */
  ghost predicate EvidenceOf(occurs: Occurrence -> bool, evidence: map<RefId, Ref>) {
    && (forall o :: occurs(o) ==> RefIdOf(o) in evidence && evidence[RefIdOf(o)] == RefOf(o))
    && (forall id :: id in evidence ==> exists o :: occurs(o) && RefIdOf(o) == id)
  }

  ghost predicate RecordsOf(occurs: Occurrence -> bool, records: map<Owner, Record>) {
    && (forall w :: w in records <==> HasOwner(occurs, w))
    && (forall w :: w in records ==> Describes(occurs, w, records[w]))
  }

  // ---- Building records from a list of occurrences ----

  ghost function Listed(s: seq<Occurrence>): Occurrence -> bool {
    o => o in s
  }

  ghost function Extracted(x: Extractor, lib: Library): Occurrence -> bool {
    o => Occurs(x, lib, o)
  }

  /** The most confident occurrence, the earliest in sort order among equals. */
  method PickRepresentative(values: seq<Occurrence>) returns (r: Occurrence)
    requires values != []
    ensures r in values && forall o :: o in values ==> AsGood(r, o)
  {
    var sorted := SortBy(values, SortsFirst);
    SortsFirstIsOrder();
    SortByCorrect(values, SortsFirst);
    assert forall o :: o in sorted <==> o in values;
    r := sorted[0];
    for i := 1 to |sorted|
      invariant r in sorted && Leads(sorted, i, r, SortsFirst)
    {
      LeadsOn(sorted, i, r, SortsFirst);
      if sorted[i].confidence > r.confidence {
        r := sorted[i];
      }
    }
    forall o | o in values ensures AsGood(r, o) {
      assert o in sorted;
    }
  }

  /** `r` is as good as the first `i` occurrences and sorts before the others. */
  ghost predicate Leads(s: seq<Occurrence>, i: nat, r: Occurrence, le: (Occurrence, Occurrence) -> bool)
    requires i <= |s|
  {
    && (forall j :: 0 <= j < i ==> r.confidence > s[j].confidence || (r.confidence == s[j].confidence && le(r, s[j])))
    && forall j :: i <= j < |s| ==> le(r, s[j])
  }

  lemma LeadsOn(s: seq<Occurrence>, i: nat, r: Occurrence, le: (Occurrence, Occurrence) -> bool)
    requires i < |s| && Ordered(s, le) && le(s[i], s[i]) && Leads(s, i, r, le)
    ensures Leads(s, i + 1, if s[i].confidence > r.confidence then s[i] else r, le)
  {
  }

  method RecordOf(w: Owner, values: seq<Occurrence>) returns (record: Record)
    requires values != [] && forall o :: o in values ==> OwnerOf(o) == w
    ensures Describes(Listed(values), w, record)
  {
    var r := PickRepresentative(values);
    var aliases := set o, a | o in values && a in Aliases(o) :: a;
    record := Record(ShownName(r), aliases, r.confidence, r.how);
    assert IsBest(Listed(values), w, r);
    forall a ensures a in aliases <==> exists o :: Listed(values)(o) && OwnerOf(o) == w && a in Aliases(o) {
      if a in aliases {
        var o :| o in values && a in Aliases(o);
        assert Listed(values)(o);
      }
    }
  }

  /** Occurrences by owner, in the order they are met. */
  method Group(occurrences: seq<Occurrence>) returns (grouped: map<Owner, seq<Occurrence>>)
    ensures forall w :: w in grouped <==> HasOwner(Listed(occurrences), w)
    ensures forall w, o :: w in grouped ==> (o in grouped[w] <==> o in occurrences && OwnerOf(o) == w)
    ensures forall w :: w in grouped ==> grouped[w] != []
  {
    grouped := map[];
    for i := 0 to |occurrences|
      invariant forall w :: w in grouped <==> HasOwner(Listed(occurrences[..i]), w)
      invariant forall w, o :: w in grouped ==> (o in grouped[w] <==> o in occurrences[..i] && OwnerOf(o) == w)
      invariant forall w :: w in grouped ==> grouped[w] != []
    {
      var o := occurrences[i];
      var w := OwnerOf(o);
      assert occurrences[..i + 1] == occurrences[..i] + [o];
      forall v ensures HasOwner(Listed(occurrences[..i + 1]), v) <==> v == w || HasOwner(Listed(occurrences[..i]), v) {
        OwnersGrow(occurrences, i, v);
      }
      grouped := grouped[w := (if w in grouped then grouped[w] else []) + [o]];
    }
    assert occurrences[..|occurrences|] == occurrences;
  }

  lemma OwnersGrow(occurrences: seq<Occurrence>, i: nat, v: Owner)
    requires i < |occurrences|
    ensures HasOwner(Listed(occurrences[..i + 1]), v)
       <==> v == OwnerOf(occurrences[i]) || HasOwner(Listed(occurrences[..i]), v)
  {
    var a, b := Listed(occurrences[..i]), Listed(occurrences[..i + 1]);
    assert occurrences[..i + 1] == occurrences[..i] + [occurrences[i]];
    assert forall o :: b(o) <==> a(o) || o == occurrences[i];
    assert b(occurrences[i]);
  }

  /** Rows with the same identifier say the same. */
  ghost predicate ConsistentRefs(occurs: Occurrence -> bool) {
    forall a, b :: occurs(a) && occurs(b) && RefIdOf(a) == RefIdOf(b) ==> RefOf(a) == RefOf(b)
  }

  method EvidenceRefs(occurrences: seq<Occurrence>) returns (refs: map<RefId, Ref>)
    requires ConsistentRefs(Listed(occurrences))
    ensures EvidenceOf(Listed(occurrences), refs)
  {
    refs := map[];
    for i := 0 to |occurrences|
      invariant forall k :: 0 <= k < i ==>
        RefIdOf(occurrences[k]) in refs && refs[RefIdOf(occurrences[k])] == RefOf(occurrences[k])
      invariant forall id :: id in refs ==> exists k :: 0 <= k < i && RefIdOf(occurrences[k]) == id
    {
      var o := occurrences[i];
      forall k | 0 <= k < i && RefIdOf(occurrences[k]) == RefIdOf(o) ensures RefOf(occurrences[k]) == RefOf(o) {
        assert Listed(occurrences)(o) && Listed(occurrences)(occurrences[k]);
      }
      refs := refs[RefIdOf(o) := RefOf(o)];
    }
    forall id | id in refs ensures exists o :: Listed(occurrences)(o) && RefIdOf(o) == id {
      var k :| 0 <= k < |occurrences| && RefIdOf(occurrences[k]) == id;
      assert Listed(occurrences)(occurrences[k]);
    }
  }

  method RecordGroups(occurrences: seq<Occurrence>, grouped: map<Owner, seq<Occurrence>>)
    returns (records: map<Owner, Record>)
    requires forall w, o :: w in grouped ==> (o in grouped[w] <==> o in occurrences && OwnerOf(o) == w)
    requires forall w :: w in grouped ==> grouped[w] != []
    ensures records.Keys == grouped.Keys
    ensures forall w :: w in records ==> Describes(Listed(occurrences), w, records[w])
  {
    records := map[];
    var pending := grouped.Keys;
    while pending != {}
      invariant pending <= grouped.Keys && records.Keys == grouped.Keys - pending
      invariant forall w :: w in records ==> Describes(Listed(occurrences), w, records[w])
      decreases pending
    {
      var w :| w in pending;
      var record := RecordOf(w, grouped[w]);
      SameGroupSameRecord(Listed(grouped[w]), Listed(occurrences), w, record);
      records := records[w := record];
      pending := pending - {w};
    }
  }

  /** One record and its evidence per owner, from all occurrences of that owner. */
  method BuildRecords(occurrences: seq<Occurrence>) returns (records: map<Owner, Record>, refs: map<RefId, Ref>)
    requires ConsistentRefs(Listed(occurrences))
    ensures RecordsOf(Listed(occurrences), records)
    ensures EvidenceOf(Listed(occurrences), refs)
  {
    refs := EvidenceRefs(occurrences);
    var grouped := Group(occurrences);
    records := RecordGroups(occurrences, grouped);
  }

  // ---- The source of one scope ----

  datatype ScopeSource = ScopeSource(documents: Documents, chunks: seq<Chunk>)

  ghost predicate Shows(source: ScopeSource, lib: Library) {
    && WellFormed(lib) && source.documents == Docs(lib)
    && forall c :: c in source.chunks <==> IsChunk(lib, c)
  }

  ghost predicate FromChunks(x: Extractor, lib: Library, chunks: seq<Chunk>, o: Occurrence) {
    exists c :: c in chunks && c.path in lib && o in x(c, lib[c.path].document, Docs(lib))
  }

  method Extract(x: Extractor, source: ScopeSource, chunks: seq<Chunk>, ghost lib: Library)
    returns (occurrences: seq<Occurrence>)
    requires Shows(source, lib) && forall c :: c in chunks ==> IsChunk(lib, c)
    ensures forall o :: o in occurrences <==> FromChunks(x, lib, chunks, o)
  {
    occurrences := [];
    for i := 0 to |chunks|
      invariant forall o :: o in occurrences <==> FromChunks(x, lib, chunks[..i], o)
    {
      var c := chunks[i];
      assert IsChunk(lib, c);
      var found := x(c, source.documents[c.path], source.documents);
      forall o ensures FromChunks(x, lib, chunks[..i + 1], o) <==> FromChunks(x, lib, chunks[..i], o) || o in found {
        FromMoreChunks(x, lib, chunks, i, o);
      }
      occurrences := occurrences + found;
    }
    assert chunks[..|chunks|] == chunks;
  }

  lemma FromMoreChunks(x: Extractor, lib: Library, chunks: seq<Chunk>, i: nat, o: Occurrence)
    requires i < |chunks| && chunks[i].path in lib
    ensures FromChunks(x, lib, chunks[..i + 1], o) <==>
      FromChunks(x, lib, chunks[..i], o) || o in x(chunks[i], lib[chunks[i].path].document, Docs(lib))
  {
    assert chunks[..i + 1] == chunks[..i] + [chunks[i]];
    if FromChunks(x, lib, chunks[..i], o) {
      var c :| c in chunks[..i] && c.path in lib && o in x(c, lib[c.path].document, Docs(lib));
      assert c in chunks[..i + 1];
    }
    if o in x(chunks[i], lib[chunks[i].path].document, Docs(lib)) {
      assert chunks[i] in chunks[..i + 1];
    }
  }

  lemma ChunkOf(x: Extractor, lib: Library, o: Occurrence) returns (c: Chunk)
    requires Lawful(x) && WellFormed(lib) && Occurs(x, lib, o)
    ensures IsChunk(lib, c) && o in x(c, lib[c.path].document, Docs(lib))
    ensures o.at == PlaceOf(c) && c.path == o.at.path
  {
    c :| c in lib[o.at.path].chunks && o in x(c, lib[o.at.path].document, Docs(lib));
    assert WellPlaced(x(c, lib[c.path].document, Docs(lib)), c);
  }

  lemma OccursFromChunk(x: Extractor, lib: Library, c: Chunk, o: Occurrence)
    requires Lawful(x) && WellFormed(lib) && IsChunk(lib, c) && o in x(c, lib[c.path].document, Docs(lib))
    ensures Occurs(x, lib, o) && o.at == PlaceOf(c)
  {
    assert WellPlaced(x(c, lib[c.path].document, Docs(lib)), c);
  }

  /** Evidence of one library is consistent: an evidence row is fixed by its chunk. */
  lemma LibraryRefsConsistent(x: Extractor, lib: Library, a: Occurrence, b: Occurrence)
    requires Lawful(x) && WellFormed(lib) && Occurs(x, lib, a) && Occurs(x, lib, b) && a.at.chunk == b.at.chunk
    ensures a.at == b.at
  {
    var c := ChunkOf(x, lib, a);
    var d := ChunkOf(x, lib, b);
    assert IsChunk(lib, c) && IsChunk(lib, d) && c.id == d.id;
  }

  // ---- What one run rebuilds ----

  ghost predicate HasAnyOf(text: string, names: set<string>) {
    exists n :: n in names && Contains(text, n)
  }

  /** What a document-level run looks at: the stored owners and evidence, the new metadata, the touched paths. */
  datatype View = View(x: Extractor, known: set<Owner>, evidence: map<RefId, Ref>, lib: Library, touched: set<Path>)
  {
    ghost predicate HadEvidence(p: Path) {
      exists id :: id in evidence && evidence[id].path == p
    }

    /** A touched path that appeared or disappeared. */
    ghost predicate Moved(p: Path) {
      p in touched && (HadEvidence(p) != (p in lib))
    }

    ghost predicate StandsForTouched(w: Owner) {
      w.EntityOwner? && w.key.canonical.Some? && w.key.canonical.value in touched
    }

    /** Evidence at `p` names the entity of a touched document. */
    ghost predicate LinksToTouched(p: Path) {
      exists id :: id in evidence && evidence[id].path == p && id.owner in known && StandsForTouched(id.owner)
    }

    /** The file names, without suffix, of the paths that appeared or disappeared. */
    ghost function MovedStems(): set<string> {
      set q | q in touched && Moved(q) :: Stem(FileName(q))
    }

    /** The text or frontmatter of `p` contains the file name of a moved path. */
    ghost predicate NamesMoved(p: Path) {
      p in lib && (HasAnyOf(lib[p].document.frontmatter.text, MovedStems())
                   || exists c :: c in lib[p].chunks && HasAnyOf(c.text, MovedStems()))
    }

    /** The documents whose chunks are extracted again. */
    ghost predicate Selected(p: Path) {
      touched != {} && (p in touched || LinksToTouched(p) || NamesMoved(p))
    }

    /** The records that are rebuilt: those the selected documents had or now have evidence for. */
    ghost predicate Rebuilds(w: Owner) {
      || (exists id :: id in evidence && id.owner == w && Selected(evidence[id].path))
      || (exists o :: Occurs(x, lib, o) && OwnerOf(o) == w && Selected(o.at.path))
    }

    /** A chunk elsewhere that holds stored evidence of a rebuilt record. */
    ghost predicate OtherChunk(chunk: Id) {
      exists id :: id in evidence && id.chunk == chunk && Rebuilds(id.owner) && !Selected(evidence[id].path)
    }

    /** The occurrences the rebuilt records are made of. */
    ghost predicate Uses(o: Occurrence) {
      Occurs(x, lib, o) && Rebuilds(OwnerOf(o)) && (Selected(o.at.path) || OtherChunk(o.at.chunk))
    }

    ghost function Rebuilt(): Owner -> bool {
      w => Rebuilds(w)
    }

    ghost function Used(): Occurrence -> bool {
      o => Uses(o)
    }
  }

  /** Old and new metadata differ at touched paths only. */
  ghost predicate SameOutside(before: Library, lib: Library, touched: set<Path>) {
    forall p :: p !in touched ==> (p in before <==> p in lib) && (p in lib ==> before[p] == lib[p])
  }

  /** The stored evidence is that of the metadata before the run, and its owners are stored. */
  ghost predicate Follows(v: View, before: Library) {
    && Lawful(v.x) && WellFormed(before) && WellFormed(v.lib) && SameOutside(before, v.lib, v.touched)
    && EvidenceOf(Extracted(v.x, before), v.evidence)
    && forall w :: HasOwner(Extracted(v.x, before), w) ==> w in v.known
  }

  /** Frontmatter shows the name of every file that came or went. */
  ghost predicate NamesFindable(v: View) {
    forall p :: v.Moved(p) ==> Findable(FileName(p))
  }

  lemma PageOccurs(x: Extractor, lib: Library, p: Path) returns (o: Occurrence)
    requires Lawful(x) && WellFormed(lib) && p in lib
    ensures Occurs(x, lib, o) && o.at.path == p
  {
    var c := lib[p].chunks[0];
    assert c in lib[p].chunks;
    assert WellPlaced(x(c, lib[p].document, Docs(lib)), c);
    o := x(c, lib[p].document, Docs(lib))[0];
    OccursFromChunk(x, lib, c, o);
  }

  lemma OldEvidence(v: View, before: Library, o: Occurrence)
    requires Follows(v, before) && Occurs(v.x, before, o)
    ensures RefIdOf(o) in v.evidence && v.evidence[RefIdOf(o)] == RefOf(o) && OwnerOf(o) in v.known
  {
    assert Extracted(v.x, before)(o);
    assert HasOwner(Extracted(v.x, before), OwnerOf(o));
  }

  lemma EvidenceIsOld(v: View, before: Library, id: RefId) returns (o: Occurrence)
    requires Follows(v, before) && id in v.evidence
    ensures Occurs(v.x, before, o) && RefIdOf(o) == id && v.evidence[id] == RefOf(o)
  {
    o :| Extracted(v.x, before)(o) && RefIdOf(o) == id;
  }

  lemma HadEvidenceIffOld(v: View, before: Library, p: Path)
    requires Follows(v, before)
    ensures v.HadEvidence(p) <==> p in before
  {
    if p in before {
      var o := PageOccurs(v.x, before, p);
      OldEvidence(v, before, o);
    }
    if v.HadEvidence(p) {
      var id :| id in v.evidence && v.evidence[id].path == p;
      var o := EvidenceIsOld(v, before, id);
    }
  }

  /** A document outside the selection names no document that came or went. */
  lemma UnselectedNames(v: View, before: Library, p: Path, c: Chunk)
    requires Follows(v, before) && NamesFindable(v) && v.touched != {} && !v.Selected(p)
    requires p in v.lib && c in v.lib[p].chunks
    ensures NoNamedMoved(c, v.lib[p].document, Docs(before), Docs(v.lib))
  {
    forall q | (q in before) != (q in v.lib)
      ensures !TextNames(c, q) && !FrontmatterNames(v.lib[p].document, q) && Findable(FileName(q))
    {
      HadEvidenceIffOld(v, before, q);
      assert v.Moved(q);
      assert Stem(FileName(q)) in v.MovedStems();
    }
  }

  /** A document outside the selection links to no touched document. */
  lemma UnselectedLinks(v: View, before: Library, p: Path, c: Chunk)
    requires Follows(v, before) && v.touched != {} && !v.Selected(p) && p in before && c in before[p].chunks
    ensures EntitiesUnchanged(v.x(c, before[p].document, Docs(before)), Docs(before), Docs(v.lib))
  {
    var found := v.x(c, before[p].document, Docs(before));
    forall o, q | o in found && o.Entity? && o.key.canonical == Some(q) && q in before && q in v.lib
      ensures Docs(before)[q] == Docs(v.lib)[q]
    {
      LinkUnselected(v, before, p, c, o, q);
    }
  }

  lemma LinkUnselected(v: View, before: Library, p: Path, c: Chunk, o: Occurrence, q: Path)
    requires Follows(v, before) && v.touched != {} && !v.Selected(p) && p in before && c in before[p].chunks
    requires o in v.x(c, before[p].document, Docs(before)) && o.Entity? && o.key.canonical == Some(q)
    requires q in before && q in v.lib
    ensures before[q] == v.lib[q]
  {
    OccursFromChunk(v.x, before, c, o);
    LinkedUntouched(v, before, p, o, q);
  }

  /** A document that an unselected one has evidence for is not touched. */
  lemma LinkedUntouched(v: View, before: Library, p: Path, o: Occurrence, q: Path)
    requires Follows(v, before) && v.touched != {} && !v.Selected(p)
    requires Occurs(v.x, before, o) && o.at.path == p && o.Entity? && o.key.canonical == Some(q)
    ensures q !in v.touched
  {
    OldEvidence(v, before, o);
    assert q in v.touched ==> v.StandsForTouched(RefIdOf(o).owner);
    assert q in v.touched ==> v.LinksToTouched(p);
  }

  /** A chunk of an unselected document extracts the same before and after. */
  lemma UnselectedChunk(v: View, before: Library, p: Path, c: Chunk)
    requires Follows(v, before) && NamesFindable(v) && v.touched != {} && !v.Selected(p)
    requires p in before && p in v.lib && c in before[p].chunks
    ensures v.x(c, before[p].document, Docs(before)) == v.x(c, v.lib[p].document, Docs(v.lib))
  {
    assert v.lib[p] == before[p];
    UnselectedNames(v, before, p, c);
    UnselectedLinks(v, before, p, c);
    assert Dependent(v.x, c, before[p].document, Docs(before), Docs(v.lib));
  }

  /** The heart of incremental maintenance: outside the selection the extraction did not change. */
  lemma UnselectedOccurs(v: View, before: Library, o: Occurrence)
    requires Follows(v, before) && NamesFindable(v) && !v.Selected(o.at.path)
    ensures Occurs(v.x, before, o) <==> Occurs(v.x, v.lib, o)
  {
    var p := o.at.path;
    if v.touched == {} {
      assert before == v.lib;
    } else {
      assert p !in v.touched;
      if Occurs(v.x, before, o) {
        var c := ChunkOf(v.x, before, o);
        UnselectedChunk(v, before, p, c);
      }
      if Occurs(v.x, v.lib, o) {
        var c := ChunkOf(v.x, v.lib, o);
        UnselectedChunk(v, before, p, c);
      }
    }
  }

  /** A record that is not rebuilt has the same occurrences before and after. */
  lemma KeptGroup(v: View, before: Library, w: Owner)
    requires Follows(v, before) && NamesFindable(v) && !v.Rebuilds(w)
    ensures SameGroup(Extracted(v.x, before), Extracted(v.x, v.lib), w)
  {
    forall o | OwnerOf(o) == w ensures Occurs(v.x, before, o) == Occurs(v.x, v.lib, o) {
      if Occurs(v.x, v.lib, o) || Occurs(v.x, before, o) {
        if Occurs(v.x, before, o) {
          OldEvidence(v, before, o);
        }
        assert !v.Selected(o.at.path);
        UnselectedOccurs(v, before, o);
      }
    }
  }

  /** A rebuilt record is made of all its occurrences in the new metadata. */
  lemma RebuiltGroup(v: View, before: Library, o: Occurrence)
    requires Follows(v, before) && NamesFindable(v) && v.Rebuilds(OwnerOf(o))
    ensures v.Uses(o) <==> Occurs(v.x, v.lib, o)
  {
    if Occurs(v.x, v.lib, o) && !v.Selected(o.at.path) {
      UnselectedOccurs(v, before, o);
      OldEvidence(v, before, o);
      assert v.OtherChunk(o.at.chunk);
    }
  }

  /** The records marked rebuilt have all their new occurrences in `used`; the others did not change. */
  ghost predicate Replaces(was: Occurrence -> bool, now: Occurrence -> bool, used: Occurrence -> bool,
                           rebuilt: Owner -> bool)
  {
    && (forall w :: SameGroup(if rebuilt(w) then used else was, now, w))
    && (forall o :: used(o) ==> rebuilt(OwnerOf(o)))
  }

  /** What a run rebuilds is enough. */
  lemma SelectionSuffices(v: View, before: Library)
    requires Follows(v, before) && NamesFindable(v)
    ensures Replaces(Extracted(v.x, before), Extracted(v.x, v.lib), v.Used(), v.Rebuilt())
  {
    forall w ensures SameGroup(if v.Rebuilds(w) then v.Used() else Extracted(v.x, before), Extracted(v.x, v.lib), w) {
      if v.Rebuilds(w) {
        forall o | OwnerOf(o) == w ensures v.Uses(o) == Occurs(v.x, v.lib, o) {
          RebuiltGroup(v, before, o);
        }
      } else {
        KeptGroup(v, before, w);
      }
    }
  }

  // ---- Selecting the documents ----

  method AnyNameIn(names: set<string>, text: string) returns (found: bool)
    ensures found <==> HasAnyOf(text, names)
  {
    var pending := names;
    while pending != {}
      invariant pending <= names && forall n :: n in names && n !in pending ==> !Contains(text, n)
      decreases pending
    {
      var n :| n in pending;
      var hit := Find(text, n);
      if hit {
        return true;
      }
      pending := pending - {n};
    }
    return false;
  }

  method MentioningChunks(chunks: seq<Chunk>, names: set<string>) returns (paths: set<Path>)
    ensures forall p :: p in paths <==> exists c :: c in chunks && c.path == p && HasAnyOf(c.text, names)
  {
    paths := {};
    for i := 0 to |chunks|
      invariant forall p :: p in paths ==> exists c :: c in chunks && c.path == p && HasAnyOf(c.text, names)
      invariant forall j :: 0 <= j < i && HasAnyOf(chunks[j].text, names) ==> chunks[j].path in paths
    {
      var hit := AnyNameIn(names, chunks[i].text);
      if hit {
        paths := paths + {chunks[i].path};
      }
    }
  }

  method MentioningDocuments(documents: Documents, names: set<string>) returns (paths: set<Path>)
    ensures forall p :: p in paths <==>
      p in documents && HasAnyOf(documents[p].frontmatter.text, names)
  {
    paths := {};
    var pending := documents.Keys;
    while pending != {}
      invariant pending <= documents.Keys && paths <= documents.Keys - pending
      invariant forall p :: p in documents && p !in pending ==>
        (p in paths <==> HasAnyOf(documents[p].frontmatter.text, names))
      decreases pending
    {
      var p :| p in pending;
      var hit := AnyNameIn(names, documents[p].frontmatter.text);
      if hit {
        paths := paths + {p};
      }
      pending := pending - {p};
    }
  }

  method ReextractedPaths(known: set<Owner>, evidence: map<RefId, Ref>, source: ScopeSource, touched: set<Path>,
                          ghost v: View)
    returns (paths: set<Path>)
    requires Shows(source, v.lib) && v.known == known && v.evidence == evidence && v.touched == touched
    ensures forall p :: p in paths <==> v.Selected(p)
  {
    if touched == {} {
      return {};
    }
    var targets := set w | w in known && w.EntityOwner? && w.key.canonical.Some? && w.key.canonical.value in touched;
    var linking := set id | id in evidence && id.owner in targets :: evidence[id].path;
    var had := set id | id in evidence && evidence[id].path in touched :: evidence[id].path;
    var names := set q | q in touched && ((q in had) != (q in source.documents)) :: Stem(FileName(q));
    var mentioning := MentioningChunks(source.chunks, names);
    var mentioned := MentioningDocuments(source.documents, names);
    paths := touched + linking + mentioning + mentioned;
    assert names == v.MovedStems() by {
      forall q | q in touched ensures v.Moved(q) <==> ((q in had) != (q in source.documents)) {}
    }
    assert forall p :: p in linking <==> v.LinksToTouched(p) by {
      forall p ensures p in linking <==> v.LinksToTouched(p) {}
    }
    forall p ensures p in mentioning + mentioned <==> v.NamesMoved(p) {
      Mentioned(v, source, mentioning, p);
    }
  }

  lemma Mentioned(v: View, source: ScopeSource, mentioning: set<Path>, p: Path)
    requires Shows(source, v.lib)
    requires p in mentioning <==> exists c :: c in source.chunks && c.path == p && HasAnyOf(c.text, v.MovedStems())
    ensures p in mentioning <==> p in v.lib && exists c :: c in v.lib[p].chunks && HasAnyOf(c.text, v.MovedStems())
  {
    MentionedBy(v.lib, source.chunks, p, (c: Chunk) => HasAnyOf(c.text, v.MovedStems()));
  }

  lemma MentionedBy(lib: Library, chunks: seq<Chunk>, p: Path, hit: Chunk -> bool)
    requires WellFormed(lib) && forall c :: c in chunks <==> IsChunk(lib, c)
    ensures (exists c :: c in chunks && c.path == p && hit(c)) <==> p in lib && exists c :: c in lib[p].chunks && hit(c)
  {
    if c :| c in chunks && c.path == p && hit(c) {
      assert IsChunk(lib, c);
    }
    if p in lib && exists c :: c in lib[p].chunks && hit(c) {
      var c :| c in lib[p].chunks && hit(c);
      assert IsChunk(lib, c) && c.path == p;
    }
  }

  // ---- Rebuilding the records they touch ----

  /** A stored record, and the extraction rules and metadata revisions of the run that last wrote it. */
  datatype Stored = Stored(record: Record, live: bool, spec: Id, metadata: set<Id>)

  datatype Rebuild = Rebuild(
    owners: set<Owner>, records: map<Owner, Record>, kept: map<RefId, Ref>, upserts: map<RefId, Ref>,
    tombstones: set<Owner>, entityCount: int, relationCount: int)

  function LiveOwners(records: map<Owner, Stored>): set<Owner> {
    set w | w in records && records[w].live
  }

  function EntitiesIn(owners: set<Owner>): set<Owner> {
    set w | w in owners && w.EntityOwner?
  }

  function RelationsIn(owners: set<Owner>): set<Owner> {
    set w | w in owners && w.RelationOwner?
  }

  /** The plan of one scope: which records it rebuilds, from which occurrences, over what is stored. */
  ghost predicate RebuildOf(used: Occurrence -> bool, rebuilt: Owner -> bool, stored: map<Owner, Stored>,
                            evidence: map<RefId, Ref>, rb: Rebuild)
  {
    && (forall w :: w in rb.owners <==> rebuilt(w))
    && RecordsOf(used, rb.records) && EvidenceOf(used, rb.kept)
    && rb.upserts == (map id | id in rb.kept && (id !in evidence || evidence[id] != rb.kept[id]) :: rb.kept[id])
    && rb.tombstones == (set w | w in rb.owners && w !in rb.records && w in LiveOwners(stored))
    && rb.entityCount == |EntitiesIn(LiveOwners(stored))| - |EntitiesIn(rb.owners * LiveOwners(stored))|
                         + |EntitiesIn(rb.records.Keys)|
    && rb.relationCount == |RelationsIn(LiveOwners(stored))| - |RelationsIn(rb.owners * LiveOwners(stored))|
                           + |RelationsIn(rb.records.Keys)|
  }

  function KeysOf(occurrences: seq<Occurrence>): set<EntityKey> {
    set o | o in occurrences && o.Entity? :: o.key
  }

  /** A relationship whose endpoints have no entity is dropped. */
  predicate Resolvable(o: Occurrence, keys: set<EntityKey>) {
    o.Relation? ==> o.source in keys && o.target in keys
  }

  lemma EndpointsKnown(x: Extractor, lib: Library, chunks: seq<Chunk>, occurrences: seq<Occurrence>)
    requires Lawful(x) && forall o :: o in occurrences <==> FromChunks(x, lib, chunks, o)
    ensures forall o :: o in occurrences ==> Resolvable(o, KeysOf(occurrences))
  {
    forall o | o in occurrences ensures Resolvable(o, KeysOf(occurrences)) {
      var c :| c in chunks && c.path in lib && o in x(c, lib[c.path].document, Docs(lib));
      var found := x(c, lib[c.path].document, Docs(lib));
      assert WellPlaced(found, c);
      forall e | e in found ensures e in occurrences {
        assert FromChunks(x, lib, chunks, e);
      }
      if o.Relation? {
        assert HasEntity(found, o.source) && HasEntity(found, o.target);
      }
    }
  }

  function ChunksAt(chunks: seq<Chunk>, paths: set<Path>): (r: seq<Chunk>)
    ensures forall c :: c in r <==> c in chunks && c.path in paths
  {
    if chunks == [] then []
    else (if chunks[0].path in paths then [chunks[0]] else []) + ChunksAt(chunks[1..], paths)
  }

  function ChunksElsewhere(chunks: seq<Chunk>, ids: set<Id>, paths: set<Path>): (r: seq<Chunk>)
    ensures forall c :: c in r <==> c in chunks && c.id in ids && c.path !in paths
  {
    if chunks == [] then []
    else (if chunks[0].id in ids && chunks[0].path !in paths then [chunks[0]] else [])
         + ChunksElsewhere(chunks[1..], ids, paths)
  }

  function OwnedBy(occurrences: seq<Occurrence>, owners: set<Owner>, keys: set<EntityKey>): (r: seq<Occurrence>)
    ensures forall o :: o in r <==> o in occurrences && OwnerOf(o) in owners && Resolvable(o, keys)
  {
    if occurrences == [] then []
    else (if OwnerOf(occurrences[0]) in owners && Resolvable(occurrences[0], keys) then [occurrences[0]] else [])
         + OwnedBy(occurrences[1..], owners, keys)
  }

  lemma SelectedOccurrences(v: View, source: ScopeSource, paths: set<Path>, chunks: seq<Chunk>, o: Occurrence)
    requires Lawful(v.x) && Shows(source, v.lib) && forall c :: c in chunks <==> c in source.chunks && c.path in paths
    ensures FromChunks(v.x, v.lib, chunks, o) <==> Occurs(v.x, v.lib, o) && o.at.path in paths
  {
    if FromChunks(v.x, v.lib, chunks, o) {
      var c :| c in chunks && c.path in v.lib && o in v.x(c, v.lib[c.path].document, Docs(v.lib));
      OccursFromChunk(v.x, v.lib, c, o);
    }
    if Occurs(v.x, v.lib, o) && o.at.path in paths {
      var c := ChunkOf(v.x, v.lib, o);
      assert c in chunks;
    }
  }

  lemma OtherOccurrences(v: View, source: ScopeSource, ids: set<Id>, paths: set<Path>, chunks: seq<Chunk>, o: Occurrence)
    requires Lawful(v.x) && Shows(source, v.lib)
    requires forall c :: c in chunks <==> c in source.chunks && c.id in ids && c.path !in paths
    ensures FromChunks(v.x, v.lib, chunks, o) <==>
      Occurs(v.x, v.lib, o) && o.at.chunk in ids && o.at.path !in paths
  {
    if FromChunks(v.x, v.lib, chunks, o) {
      var c :| c in chunks && c.path in v.lib && o in v.x(c, v.lib[c.path].document, Docs(v.lib));
      OccursFromChunk(v.x, v.lib, c, o);
    }
    if Occurs(v.x, v.lib, o) && o.at.chunk in ids && o.at.path !in paths {
      var c := ChunkOf(v.x, v.lib, o);
      assert c in chunks;
    }
  }

  /** What the selected documents say, and the records they had or now have evidence for. */
  method SelectedRecords(x: Extractor, evidence: map<RefId, Ref>, source: ScopeSource, paths: set<Path>, ghost v: View)
    returns (owners: set<Owner>, first: seq<Occurrence>)
    requires Lawful(x) && Shows(source, v.lib) && v.x == x && v.evidence == evidence
    requires forall p :: p in paths <==> v.Selected(p)
    ensures forall w :: w in owners <==> v.Rebuilds(w)
    ensures forall o :: o in first <==> Occurs(x, v.lib, o) && v.Selected(o.at.path)
  {
    var here := ChunksAt(source.chunks, paths);
    first := Extract(x, source, here, v.lib);
    EndpointsKnown(x, v.lib, here, first);
    forall o ensures o in first <==> Occurs(x, v.lib, o) && v.Selected(o.at.path) {
      SelectedOccurrences(v, source, paths, here, o);
    }
    var keys := KeysOf(first);
    var oldOwners := set id | id in evidence && evidence[id].path in paths :: id.owner;
    owners := oldOwners + set o | o in first && Resolvable(o, keys) :: OwnerOf(o);
  }

  /** The occurrences to rebuild from: all of the selected documents, and elsewhere those of touched records. */
  method TouchedOccurrences(x: Extractor, evidence: map<RefId, Ref>, source: ScopeSource, paths: set<Path>,
                            ghost v: View)
    returns (owners: set<Owner>, occurrences: seq<Occurrence>)
    requires Lawful(x) && Shows(source, v.lib) && v.x == x && v.evidence == evidence
    requires forall p :: p in paths <==> v.Selected(p)
    ensures forall w :: w in owners <==> v.Rebuilds(w)
    ensures forall o :: o in occurrences <==> v.Uses(o)
  {
    var first;
    owners, first := SelectedRecords(x, evidence, source, paths, v);
    var keys := KeysOf(first);
    var otherChunks := set id | id in evidence && id.owner in owners && evidence[id].path !in paths :: id.chunk;
    var elsewhere := ChunksElsewhere(source.chunks, otherChunks, paths);
    var others := Extract(x, source, elsewhere, v.lib);
    EndpointsKnown(x, v.lib, elsewhere, others);
    assert forall chunk :: chunk in otherChunks <==> v.OtherChunk(chunk);
    forall o ensures o in others <==> Occurs(x, v.lib, o) && v.OtherChunk(o.at.chunk) && !v.Selected(o.at.path) {
      OtherOccurrences(v, source, otherChunks, paths, elsewhere, o);
    }
    var owned := OwnedBy(others, owners, keys + KeysOf(others));
    occurrences := first + owned;
    forall o ensures o in occurrences <==> v.Uses(o) {
      UsedParts(v, first, others, o);
    }
  }

  lemma UsedParts(v: View, first: seq<Occurrence>, others: seq<Occurrence>, o: Occurrence)
    requires o in first <==> Occurs(v.x, v.lib, o) && v.Selected(o.at.path)
    requires o in others <==> Occurs(v.x, v.lib, o) && v.OtherChunk(o.at.chunk) && !v.Selected(o.at.path)
    ensures v.Uses(o) <==> o in first || (o in others && v.Rebuilds(OwnerOf(o)))
  {
  }

  method RebuildScope(x: Extractor, stored: map<Owner, Stored>, evidence: map<RefId, Ref>, source: ScopeSource,
                      touched: set<Path>, ghost v: View)
    returns (rb: Rebuild)
    requires Lawful(x) && Shows(source, v.lib)
    requires v == View(x, stored.Keys, evidence, v.lib, touched)
    ensures RebuildOf(v.Used(), v.Rebuilt(), stored, evidence, rb)
  {
    var paths := ReextractedPaths(stored.Keys, evidence, source, touched, v);
    var owners, occurrences := TouchedOccurrences(x, evidence, source, paths, v);
    UsedRefsConsistent(v, occurrences);
    var records, kept := BuildRecords(occurrences);
    ListedIsUsed(v, occurrences, records, kept);
    var upserts := map id | id in kept && (id !in evidence || evidence[id] != kept[id]) :: kept[id];
    var live := LiveOwners(stored);
    var tombstones := set w | w in owners && w !in records && w in live;
    rb := Rebuild(owners, records, kept, upserts, tombstones,
                  |EntitiesIn(live)| - |EntitiesIn(owners * live)| + |EntitiesIn(records.Keys)|,
                  |RelationsIn(live)| - |RelationsIn(owners * live)| + |RelationsIn(records.Keys)|);
  }

  lemma UsedRefsConsistent(v: View, occurrences: seq<Occurrence>)
    requires Lawful(v.x) && WellFormed(v.lib) && forall o :: o in occurrences <==> v.Uses(o)
    ensures ConsistentRefs(Listed(occurrences))
  {
    forall a, b | Listed(occurrences)(a) && Listed(occurrences)(b) && RefIdOf(a) == RefIdOf(b)
      ensures RefOf(a) == RefOf(b)
    {
      LibraryRefsConsistent(v.x, v.lib, a, b);
    }
  }

  lemma ListedIsUsed(v: View, occurrences: seq<Occurrence>, records: map<Owner, Record>, kept: map<RefId, Ref>)
    requires forall o :: o in occurrences <==> v.Uses(o)
    requires RecordsOf(Listed(occurrences), records) && EvidenceOf(Listed(occurrences), kept)
    ensures RecordsOf(v.Used(), records) && EvidenceOf(v.Used(), kept)
  {
    RecordsTransfer(Listed(occurrences), v.Used(), records);
    EvidenceTransfer(Listed(occurrences), v.Used(), kept);
  }

  lemma RecordsTransfer(a: Occurrence -> bool, b: Occurrence -> bool, records: map<Owner, Record>)
    requires RecordsOf(a, records) && forall o :: a(o) == b(o)
    ensures RecordsOf(b, records)
  {
    forall w ensures HasOwner(a, w) <==> HasOwner(b, w) {
      if HasOwner(a, w) {
        var o :| a(o) && OwnerOf(o) == w;
        assert b(o);
      }
      if HasOwner(b, w) {
        var o :| b(o) && OwnerOf(o) == w;
        assert a(o);
      }
    }
    forall w | w in records ensures Describes(b, w, records[w]) {
      SameGroupSameRecord(a, b, w, records[w]);
    }
  }

  lemma EvidenceTransfer(a: Occurrence -> bool, b: Occurrence -> bool, evidence: map<RefId, Ref>)
    requires EvidenceOf(a, evidence) && forall o :: a(o) == b(o)
    ensures EvidenceOf(b, evidence)
  {
    forall id | id in evidence ensures exists o :: b(o) && RefIdOf(o) == id {
      var o :| a(o) && RefIdOf(o) == id;
      assert b(o);
    }
  }
}
