/** What the extractor finds in a chunk, on the fields of chunks and documents. */
module ExtractionMeaning {
  import opened Core
  import opened Text
  import opened LinkResolution
  import opened Extraction

  // ---- Texts ----

  /** Trimming takes off the white space at both ends and nothing else. */
  lemma TrimMeans(s: string) returns (a: nat, b: nat)
    ensures a <= b <= |s| && Trim(s) == s[a..b] && AllSpace(s[..a]) && AllSpace(s[b..])
    ensures a < b ==> !IsSpace(s[a]) && !IsSpace(s[b - 1])
  {
    a := TrimLeftMeans(s);
    var k := TrimRightMeans(s[a..]);
    b := a + k;
    assert s[a..][..k] == s[a..b] && s[a..][k..] == s[b..];
    if a < b {
      assert s[a..][0] == s[a];
    }
  }

  lemma {:induction false} TrimLeftMeans(s: string) returns (a: nat)
    ensures a <= |s| && TrimLeft(s) == s[a..] && AllSpace(s[..a]) && (a < |s| ==> !IsSpace(s[a]))
  {
    a := 0;
    if s != [] && IsSpace(s[0]) {
      a := TrimLeftMeans(s[1..]);
      assert s[..a + 1] == [s[0]] + s[1..][..a];
      a := a + 1;
    }
  }

  lemma {:induction false} TrimRightMeans(s: string) returns (b: nat)
    ensures b <= |s| && TrimRight(s) == s[..b] && AllSpace(s[b..]) && (b > 0 ==> !IsSpace(s[b - 1]))
  {
    b := |s|;
    if s != [] && IsSpace(s[|s| - 1]) {
      b := TrimRightMeans(s[..|s| - 1]);
      assert s[b..] == s[..|s| - 1][b..] + [s[|s| - 1]];
    }
  }

  /** Lower case changes the capital letters and nothing else. */
  lemma {:induction false} LowerMeans(s: string)
    ensures |Lower(s)| == |s|
    ensures forall i :: 0 <= i < |s| ==> if 'A' <= s[i] <= 'Z' then Lower(s)[i] as int == s[i] as int + 32 else Lower(s)[i] == s[i]
  {
    if s != [] {
      LowerMeans(s[1..]);
      forall i | 0 < i < |s| ensures Lower(s)[i] == Lower(s[1..])[i - 1] && s[i] == s[1..][i - 1] {
      }
    }
  }

  /** The only white space is single spaces between words. */
  ghost predicate SingleSpaced(s: string) {
    forall i :: 0 <= i < |s| && IsSpace(s[i]) ==> s[i] == ' ' && 0 < i < |s| - 1 && !IsSpace(s[i - 1]) && !IsSpace(s[i + 1])
  }

  /** A name is normalized to its words in lower case, with single spaces between them. */
  lemma NormalizeMeans(name: string)
    ensures Words(NormalizeName(name)) == Words(Lower(name)) && SingleSpaced(NormalizeName(name))
  {
    WordsAreWords(Lower(name));
    JoinedWordsAre(Words(Lower(name)));
  }

  ghost predicate AreWords(parts: seq<string>) {
    forall w :: w in parts ==> w != [] && NoSpace(w)
  }

  lemma {:induction false} WordsAreWords(s: string)
    ensures AreWords(Words(s))
  {
    if s != [] {
      var rest := Words(s[1..]);
      WordsAreWords(s[1..]);
      if !IsSpace(s[0]) && |s| > 1 && !IsSpace(s[1]) && rest != [] {
        assert rest[0] in rest && NoSpace([s[0]] + rest[0]);
        assert forall w :: w in rest[1..] ==> w in rest;
      }
    }
  }

  lemma {:induction false} JoinedWordsAre(parts: seq<string>)
    requires AreWords(parts)
    ensures Words(Join(parts, " ")) == parts && SingleSpaced(Join(parts, " "))
    ensures parts != [] ==> Join(parts, " ") != [] && !IsSpace(Join(parts, " ")[0])
  {
    if |parts| == 1 {
      OneWord(parts[0]);
      assert parts == [parts[0]] && parts[0][0] in parts[0];
    } else if |parts| > 1 {
      var rest := Join(parts[1..], " ");
      JoinedWordsAre(parts[1..]);
      OneWord(parts[0]);
      SeparatedWords(parts[0], " ", rest);
      assert parts == [parts[0]] + parts[1..];
      SpacedOnce(parts[0], rest);
    }
  }

  lemma SpacedOnce(w: string, rest: string)
    requires w != [] && NoSpace(w) && rest != [] && !IsSpace(rest[0]) && SingleSpaced(rest)
    ensures SingleSpaced(w + " " + rest) && !IsSpace((w + " " + rest)[0])
  {
    var s := w + " " + rest;
    forall i | 0 <= i < |w| ensures !IsSpace(s[i]) {
      assert s[i] == w[i] && w[i] in w;
    }
    forall i | |w| < i < |s| ensures s[i] == rest[i - |w| - 1] {
    }
  }

  /** The name of a concept: trimmed, one hash sign taken off, and trimmed again. */
  ghost predicate IsStripped(name: string, text: string) {
    if Trim(text) != "" && Trim(text)[0] == '#' then name == Trim(Trim(text)[1..]) else name == Trim(Trim(text))
  }

  lemma StrippedExactly(name: string, text: string)
    ensures IsStripped(name, text) <==> name == StripHash(text)
  {
  }

  // ---- Entities of documents and concepts ----

  ghost predicate IsAt(o: Occurrence, c: Chunk) {
    && o.at.document == c.document && o.at.chunk == c.id && o.at.hash == c.hash && o.at.path == c.path
    && o.at.section == c.section && o.at.anchor == c.anchor
  }

  /** Some folder of the path but the first one is named "decisions". */
  ghost predicate BelowDecisions(path: Path) {
    exists i :: 0 < i < |path| - 1 && path[i] == "decisions"
  }

  ghost predicate KindIs(kind: EntityType, d: Document) {
    if Lower(d.frontmatter.kind) == "decision" || BelowDecisions(d.path) then kind == Decision
    else if |d.path| > 1 && d.path[0] == "wiki" then kind == WikiPage
    else if |d.path| > 1 && d.path[0] == "raw" then kind == Source
    else kind == PlainDocument
  }

  /** A document's name: its title, else the given heading, else its file name without ".md", else its path. */
  ghost predicate IsNameOf(name: string, d: Document, heading: Option<string>) {
    if d.frontmatter.title.Some? && Trim(d.frontmatter.title.value) != "" then name == Trim(d.frontmatter.title.value)
    else if heading.Some? && heading.value != "" then name == heading.value
    else if d.path != [] && EndsWith(d.path[|d.path| - 1], ".md") then name + ".md" == d.path[|d.path| - 1]
    else name == Join(d.path, "/")
  }

  ghost predicate ShowsDocument(o: Occurrence, c: Chunk, d: Document, heading: Option<string>) {
    && o.Entity? && IsAt(o, c) && o.confidence == 100 && o.key.canonical == Some(d.path)
    && KindIs(o.key.kind, d) && IsNameOf(o.name, d, heading) && o.key.name == NormalizeName(o.name)
    && forall a :: a in o.aliases <==> a != "" && exists v :: v in d.frontmatter.aliases && Trim(v) == a
  }

  ghost predicate ShowsConcept(o: Occurrence, c: Chunk, text: string, confidence: nat) {
    && o.Entity? && IsAt(o, c) && o.confidence == confidence && o.key.kind == Concept && o.key.canonical.None?
    && o.aliases == [] && IsStripped(o.name, text) && o.key.name == NormalizeName(o.name)
  }

  lemma KindExactly(d: Document)
    ensures KindIs(KindOf(d), d)
  {
    if BelowDecisions(d.path) {
      var i :| 0 < i < |d.path| - 1 && d.path[i] == "decisions";
      assert d.path[1..|d.path| - 1][i - 1] == "decisions";
    }
    if |d.path| > 2 && "decisions" in d.path[1..|d.path| - 1] {
      var i :| 0 <= i < |d.path| - 2 && d.path[1..|d.path| - 1][i] == "decisions";
      assert d.path[i + 1] == "decisions";
    }
  }

  lemma {:induction false} CleanMeans(values: seq<string>)
    ensures forall a :: a in Clean(values) <==> a != "" && exists v :: v in values && Trim(v) == a
  {
    if values != [] {
      CleanMeans(values[1..]);
      assert values == [values[0]] + values[1..];
    }
  }

  lemma DocumentIsShown(c: Chunk, d: Document, how: Method, heading: Option<string>)
    ensures var o := DocumentEntity(c, d, how, heading); ShowsDocument(o, c, d, heading) && o.how == how
  {
    KindExactly(d);
    CleanMeans(d.frontmatter.aliases);
    NameExactly(d, heading);
  }

  lemma NameExactly(d: Document, heading: Option<string>)
    ensures IsNameOf(NameOf(d, heading), d, heading)
  {
  }

  lemma DocumentKeyOnce(o: Occurrence, c: Chunk, d: Document, how: Method, heading: Option<string>)
    requires ShowsDocument(o, c, d, heading)
    ensures o.key == DocumentEntity(c, d, how, heading).key
  {
    KindExactly(d);
    NameExactly(d, heading);
    assert o.name == NameOf(d, heading) by {
      var n := NameOf(d, heading);
      assert o.name + ".md" == n + ".md" ==> o.name == (o.name + ".md")[..|o.name|] == n;
    }
  }

  lemma ConceptIsShown(c: Chunk, text: string, confidence: nat, how: Method)
    ensures var o := ConceptEntity(c, text, confidence, how); ShowsConcept(o, c, text, confidence) && o.how == how
  {
  }

  // ---- Why an entity is found ----

  /** The tag, trimmed and without its hash sign, if anything is left. */
  ghost predicate IsTag(tag: string, value: string) {
    Trim(value) != "" && IsStripped(tag, Trim(value)) && tag != ""
  }

  ghost predicate FromTag(o: Occurrence, c: Chunk, d: Document) {
    exists v, tag :: v in d.frontmatter.tags && IsTag(tag, v) && ShowsConcept(o, c, tag, 80)
  }

  ghost predicate FromRevisit(o: Occurrence, c: Chunk, d: Document) {
    exists v :: v in d.frontmatter.revisitWhen && Trim(v) != "" && ShowsConcept(o, c, Trim(v), 80)
  }

  ghost predicate FromHeading(o: Occurrence, c: Chunk) {
    && c.section.Some? && c.section.value != "" && o.Entity? && IsAt(o, c) && o.confidence == 85 && o.aliases == []
    && o.name == c.section.value && o.key == EntityKey(Concept, NormalizeName(o.name), None)
    && o.key.name !in ["overview", "summary", "notes", "todo", "appendix", "references"]
  }

  ghost predicate LeadsTo(docs: Documents, source: Path, raw: string, p: Path) {
    Resolve(docs.Keys, source, raw) == Some(p) && p in docs
  }

  ghost predicate FromLink(o: Occurrence, c: Chunk, docs: Documents) {
    exists l, p :: l in c.links && LeadsTo(docs, c.path, l.target, p) && ShowsDocument(o, c, docs[p], None)
  }

  ghost predicate FromDeadLink(o: Occurrence, c: Chunk, docs: Documents) {
    exists l :: l in c.links && Resolve(docs.Keys, c.path, l.target) == None && !External(Trim(l.target))
      && ShowsConcept(o, c, if l.caption != "" then l.caption else l.target, 70)
  }

  ghost predicate FromField(o: Occurrence, c: Chunk, d: Document, docs: Documents, field: Field) {
    exists v, p :: (field, v) in d.frontmatter.targets && Trim(v) != "" && LeadsTo(docs, d.path, Trim(v), p)
      && ShowsDocument(o, c, docs[p], None)
  }

  /** What an entity occurrence says is what the chunk, its document or a document it links to says. */
  ghost predicate Found(o: Occurrence, c: Chunk, d: Document, docs: Documents) {
    && o.Entity?
    && match o.how
       case Identity => ShowsDocument(o, c, d, c.section)
       case Tag => FromTag(o, c, d)
       case RevisitWhen => FromRevisit(o, c, d)
       case Heading => FromHeading(o, c)
       case LinkTarget => FromLink(o, c, docs)
       case UnresolvedLink => FromDeadLink(o, c, docs)
       case FrontTarget(field) => FromField(o, c, d, docs, field)
  }

  lemma {:induction false} TagsAre(c: Chunk, tags: seq<string>, o: Occurrence)
    ensures o in TagEntities(c, tags) <==>
      exists t :: t in tags && StripHash(t) != "" && o == ConceptEntity(c, StripHash(t), 80, Tag)
  {
    if tags != [] {
      TagsAre(c, tags[1..], o);
      assert tags == [tags[0]] + tags[1..];
    }
  }

  lemma {:induction false} RevisitsAre(c: Chunk, values: seq<string>, o: Occurrence)
    ensures o in RevisitEntities(c, values) <==> exists v :: v in values && o == ConceptEntity(c, v, 80, RevisitWhen)
  {
    if values != [] {
      RevisitsAre(c, values[1..], o);
      assert values == [values[0]] + values[1..];
    }
  }

  lemma {:induction false} LinksAre(c: Chunk, docs: Documents, links: seq<Link>, o: Occurrence)
    ensures o in LinkEntities(c, docs, links) <==> exists l :: l in links && OfLink(o, c, docs, l)
  {
    if links != [] {
      LinksAre(c, docs, links[1..], o);
      assert links == [links[0]] + links[1..];
      OneLink(c, docs, links[0], o);
    }
  }

  lemma OneLink(c: Chunk, docs: Documents, l: Link, o: Occurrence)
    ensures o in LinkEntity(c, docs, l) <==> OfLink(o, c, docs, l)
  {
    ResolvedHasName(docs.Keys, c.path, l.target);
  }

  ghost predicate OfLink(o: Occurrence, c: Chunk, docs: Documents, l: Link) {
    match Resolve(docs.Keys, c.path, l.target)
    case Some(p) => p in docs && o == DocumentEntity(c, docs[p], LinkTarget, None)
    case None =>
      !External(Trim(l.target)) && o == ConceptEntity(c, if l.caption != "" then l.caption else l.target, 70, UnresolvedLink)
  }

  lemma {:induction false} TargetsAre(c: Chunk, source: Path, docs: Documents, targets: seq<(Field, string)>, o: Occurrence)
    ensures o in TargetEntities(c, source, docs, targets) <==> exists t :: t in targets && OfTarget(o, c, source, docs, t)
  {
    if targets != [] {
      TargetsAre(c, source, docs, targets[1..], o);
      assert targets == [targets[0]] + targets[1..];
      OneTarget(c, source, docs, targets[0], o);
    }
  }

  lemma OneTarget(c: Chunk, source: Path, docs: Documents, t: (Field, string), o: Occurrence)
    ensures o in TargetEntity(c, source, docs, t) <==> OfTarget(o, c, source, docs, t)
  {
    ResolvedHasName(docs.Keys, source, t.1);
  }

  ghost predicate OfTarget(o: Occurrence, c: Chunk, source: Path, docs: Documents, t: (Field, string)) {
    match Resolve(docs.Keys, source, t.1)
    case Some(p) => p in docs && o == DocumentEntity(c, docs[p], FrontTarget(t.0), None)
    case None => false
  }

  lemma {:induction false} CleanTargetsMean(targets: seq<(Field, string)>)
    ensures forall t :: t in CleanTargets(targets) <==> t.1 != "" && exists v :: (t.0, v) in targets && Trim(v) == t.1
  {
    if targets != [] {
      CleanTargetsMean(targets[1..]);
      assert targets == [targets[0]] + targets[1..];
    }
  }

  /** Every entity of a chunk is found for its reason. */
  lemma EntitiesAreFound(c: Chunk, d: Document, docs: Documents)
    ensures forall o :: o in ChunkOccurrences(c, d, docs) && o.Entity? ==> Found(o, c, d, docs)
  {
    forall o | o in ChunkOccurrences(c, d, docs) && o.Entity? ensures Found(o, c, d, docs) {
      EntityIsRaw(c, d, docs, o);
      RawIsFound(c, d, docs, o);
    }
  }

  lemma EntityIsRaw(c: Chunk, d: Document, docs: Documents, o: Occurrence)
    requires o in ChunkOccurrences(c, d, docs) && o.Entity?
    ensures o in RawEntities(c, d, docs)
  {
    DedupeKeeps(RawEntities(c, d, docs));
    var entities := Entities(c, d, docs);
    var key := IdentityKey(d, entities);
    if key.Some? {
      RelationsAt(key.value, entities, c);
    }
  }

  lemma RawIsFound(c: Chunk, d: Document, docs: Documents, o: Occurrence)
    requires o in RawEntities(c, d, docs)
    ensures Found(o, c, d, docs)
  {
    if o == DocumentEntity(c, d, Identity, c.section) {
      DocumentIsShown(c, d, Identity, c.section);
    } else if o in TagEntities(c, Clean(d.frontmatter.tags)) {
      TagIsFound(c, d, o);
    } else if o in TargetEntities(c, d.path, docs, CleanTargets(d.frontmatter.targets)) {
      TargetIsFound(c, d, docs, o);
    } else if o in RevisitEntities(c, Clean(d.frontmatter.revisitWhen)) {
      RevisitIsFound(c, d, o);
    } else if o in LinkEntities(c, docs, c.links) {
      LinkIsFound(c, docs, o);
    } else {
      assert o in HeadingEntities(c);
    }
  }

  lemma TagIsFound(c: Chunk, d: Document, o: Occurrence)
    requires o in TagEntities(c, Clean(d.frontmatter.tags))
    ensures o.Entity? && o.how == Tag && FromTag(o, c, d)
  {
    TagsAre(c, Clean(d.frontmatter.tags), o);
    CleanMeans(d.frontmatter.tags);
    var t :| t in Clean(d.frontmatter.tags) && StripHash(t) != "" && o == ConceptEntity(c, StripHash(t), 80, Tag);
    var v :| v in d.frontmatter.tags && Trim(v) == t;
    ConceptIsShown(c, StripHash(t), 80, Tag);
    assert IsTag(StripHash(t), v);
  }

  lemma RevisitIsFound(c: Chunk, d: Document, o: Occurrence)
    requires o in RevisitEntities(c, Clean(d.frontmatter.revisitWhen))
    ensures o.Entity? && o.how == RevisitWhen && FromRevisit(o, c, d)
  {
    RevisitsAre(c, Clean(d.frontmatter.revisitWhen), o);
    CleanMeans(d.frontmatter.revisitWhen);
    var t :| t in Clean(d.frontmatter.revisitWhen) && o == ConceptEntity(c, t, 80, RevisitWhen);
    ConceptIsShown(c, t, 80, RevisitWhen);
  }

  lemma LinkIsFound(c: Chunk, docs: Documents, o: Occurrence)
    requires o in LinkEntities(c, docs, c.links)
    ensures o.Entity?
    ensures (o.how == LinkTarget && FromLink(o, c, docs)) || (o.how == UnresolvedLink && FromDeadLink(o, c, docs))
  {
    LinksAre(c, docs, c.links, o);
    var l :| l in c.links && OfLink(o, c, docs, l);
    match Resolve(docs.Keys, c.path, l.target)
    case Some(p) =>
      DocumentIsShown(c, docs[p], LinkTarget, None);
      assert LeadsTo(docs, c.path, l.target, p);
    case None =>
      ConceptIsShown(c, if l.caption != "" then l.caption else l.target, 70, UnresolvedLink);
  }

  lemma TargetIsFound(c: Chunk, d: Document, docs: Documents, o: Occurrence)
    requires o in TargetEntities(c, d.path, docs, CleanTargets(d.frontmatter.targets))
    ensures o.Entity? && o.how.FrontTarget? && FromField(o, c, d, docs, o.how.field)
  {
    TargetsAre(c, d.path, docs, CleanTargets(d.frontmatter.targets), o);
    CleanTargetsMean(d.frontmatter.targets);
    var t :| t in CleanTargets(d.frontmatter.targets) && OfTarget(o, c, d.path, docs, t);
    var v :| (t.0, v) in d.frontmatter.targets && Trim(v) == t.1;
    var p := Resolve(docs.Keys, d.path, t.1).value;
    DocumentIsShown(c, docs[p], FrontTarget(t.0), None);
    assert LeadsTo(docs, d.path, Trim(v), p);
  }

  /** Whatever there is a reason for is found, once for each entity and reason. */
  lemma FoundIsThere(c: Chunk, d: Document, docs: Documents, o: Occurrence) returns (k: Occurrence)
    requires Found(o, c, d, docs)
    ensures k in ChunkOccurrences(c, d, docs) && k.Entity? && k.key == o.key && k.how == o.how && Found(k, c, d, docs)
  {
    var r: Occurrence;
    match o.how {
      case Identity => r := IdentityThere(c, d, docs, o);
      case Tag => r := TagThere(c, d, docs, o);
      case RevisitWhen => r := RevisitThere(c, d, docs, o);
      case Heading => r := HeadingThere(c, d, docs, o);
      case LinkTarget => r := LinkThere(c, d, docs, o);
      case UnresolvedLink => r := DeadLinkThere(c, d, docs, o);
      case FrontTarget(field) => r := TargetThere(c, d, docs, o, field);
    }
    k := RawEntityOccurs(c, d, docs, r);
    EntitiesAreFound(c, d, docs);
  }

  lemma IdentityThere(c: Chunk, d: Document, docs: Documents, o: Occurrence) returns (r: Occurrence)
    requires ShowsDocument(o, c, d, c.section) && o.how == Identity
    ensures r in RawEntities(c, d, docs) && r.Entity? && r.key == o.key && r.how == o.how
  {
    r := DocumentEntity(c, d, Identity, c.section);
    DocumentKeyOnce(o, c, d, Identity, c.section);
  }

  lemma ConceptKeyOnce(o: Occurrence, c: Chunk, text: string, confidence: nat, how: Method)
    requires ShowsConcept(o, c, text, confidence)
    ensures o.key == ConceptEntity(c, text, confidence, how).key
  {
    StrippedExactly(o.name, text);
  }

  lemma TagThere(c: Chunk, d: Document, docs: Documents, o: Occurrence) returns (r: Occurrence)
    requires FromTag(o, c, d) && o.how == Tag
    ensures r in RawEntities(c, d, docs) && r.Entity? && r.key == o.key && r.how == o.how
  {
    var v, tag :| v in d.frontmatter.tags && IsTag(tag, v) && ShowsConcept(o, c, tag, 80);
    CleanMeans(d.frontmatter.tags);
    StrippedExactly(tag, Trim(v));
    r := ConceptEntity(c, StripHash(Trim(v)), 80, Tag);
    TagsAre(c, Clean(d.frontmatter.tags), r);
    ConceptKeyOnce(o, c, tag, 80, Tag);
  }

  lemma RevisitThere(c: Chunk, d: Document, docs: Documents, o: Occurrence) returns (r: Occurrence)
    requires FromRevisit(o, c, d) && o.how == RevisitWhen
    ensures r in RawEntities(c, d, docs) && r.Entity? && r.key == o.key && r.how == o.how
  {
    var v :| v in d.frontmatter.revisitWhen && Trim(v) != "" && ShowsConcept(o, c, Trim(v), 80);
    CleanMeans(d.frontmatter.revisitWhen);
    r := ConceptEntity(c, Trim(v), 80, RevisitWhen);
    RevisitsAre(c, Clean(d.frontmatter.revisitWhen), r);
    ConceptKeyOnce(o, c, Trim(v), 80, RevisitWhen);
  }

  lemma HeadingThere(c: Chunk, d: Document, docs: Documents, o: Occurrence) returns (r: Occurrence)
    requires FromHeading(o, c) && o.how == Heading
    ensures r in RawEntities(c, d, docs) && r.Entity? && r.key == o.key && r.how == o.how
  {
    assert NormalizeName(c.section.value) !in GENERIC_HEADINGS;
    r := HeadingEntities(c)[0];
    assert r in HeadingEntities(c);
  }

  lemma LinkThere(c: Chunk, d: Document, docs: Documents, o: Occurrence) returns (r: Occurrence)
    requires FromLink(o, c, docs) && o.how == LinkTarget
    ensures r in RawEntities(c, d, docs) && r.Entity? && r.key == o.key && r.how == o.how
  {
    var l, p :| l in c.links && LeadsTo(docs, c.path, l.target, p) && ShowsDocument(o, c, docs[p], None);
    r := DocumentEntity(c, docs[p], LinkTarget, None);
    LinksAre(c, docs, c.links, r);
    DocumentKeyOnce(o, c, docs[p], LinkTarget, None);
  }

  lemma DeadLinkThere(c: Chunk, d: Document, docs: Documents, o: Occurrence) returns (r: Occurrence)
    requires FromDeadLink(o, c, docs) && o.how == UnresolvedLink
    ensures r in RawEntities(c, d, docs) && r.Entity? && r.key == o.key && r.how == o.how
  {
    var l :| l in c.links && Resolve(docs.Keys, c.path, l.target) == None && !External(Trim(l.target))
      && ShowsConcept(o, c, if l.caption != "" then l.caption else l.target, 70);
    var text := if l.caption != "" then l.caption else l.target;
    r := ConceptEntity(c, text, 70, UnresolvedLink);
    LinksAre(c, docs, c.links, r);
    ConceptKeyOnce(o, c, text, 70, UnresolvedLink);
  }

  lemma TargetThere(c: Chunk, d: Document, docs: Documents, o: Occurrence, field: Field) returns (r: Occurrence)
    requires FromField(o, c, d, docs, field) && o.how == FrontTarget(field)
    ensures r in RawEntities(c, d, docs) && r.Entity? && r.key == o.key && r.how == o.how
  {
    var v, p :| (field, v) in d.frontmatter.targets && Trim(v) != "" && LeadsTo(docs, d.path, Trim(v), p)
      && ShowsDocument(o, c, docs[p], None);
    CleanTargetsMean(d.frontmatter.targets);
    r := DocumentEntity(c, docs[p], FrontTarget(field), None);
    assert (field, Trim(v)) in CleanTargets(d.frontmatter.targets) && OfTarget(r, c, d.path, docs, (field, Trim(v)));
    TargetsAre(c, d.path, docs, CleanTargets(d.frontmatter.targets), r);
    DocumentKeyOnce(o, c, docs[p], FrontTarget(field), None);
  }

  // ---- One relationship of each kind ----

  /** The order in which a chunk's entities are listed. */
  ghost function Turn(how: Method): nat {
    match how
    case Identity => 0
    case Tag => 1
    case FrontTarget(_) => 2
    case RevisitWhen => 3
    case Heading => 4
    case LinkTarget => 5
    case UnresolvedLink => 5
  }

  ghost predicate InTurn(entities: seq<Occurrence>) {
    forall i, j :: 0 <= i < j < |entities| ==> Turn(entities[i].how) <= Turn(entities[j].how)
  }

  ghost predicate Between(entities: seq<Occurrence>, low: nat, high: nat) {
    forall e :: e in entities ==> low <= Turn(e.how) <= high
  }

  lemma TurnsJoin(a: seq<Occurrence>, b: seq<Occurrence>, low: nat, middle: nat, high: nat)
    requires InTurn(a) && InTurn(b) && Between(a, low, middle) && Between(b, middle, high) && low <= middle <= high
    ensures InTurn(a + b) && Between(a + b, low, high)
  {
    forall i, j | 0 <= i < j < |a + b| ensures Turn((a + b)[i].how) <= Turn((a + b)[j].how) {
      if i < |a| <= j {
        assert a[i] in a && b[j - |a|] in b;
      }
    }
  }

  lemma SameTurn(entities: seq<Occurrence>, turn: nat)
    requires Between(entities, turn, turn)
    ensures InTurn(entities)
  {
    forall i, j | 0 <= i < j < |entities| ensures Turn(entities[i].how) <= Turn(entities[j].how) {
      assert entities[i] in entities && entities[j] in entities;
    }
  }

  lemma TargetsInTurn(c: Chunk, d: Document, docs: Documents)
    ensures Between(TargetEntities(c, d.path, docs, CleanTargets(d.frontmatter.targets)), 2, 2)
  {
    forall o | o in TargetEntities(c, d.path, docs, CleanTargets(d.frontmatter.targets)) ensures Turn(o.how) == 2 {
      TargetIsFound(c, d, docs, o);
    }
  }

  lemma LinksInTurn(c: Chunk, docs: Documents)
    ensures Between(LinkEntities(c, docs, c.links), 5, 5)
  {
    forall o | o in LinkEntities(c, docs, c.links) ensures Turn(o.how) == 5 {
      LinkTurn(c, docs, o);
    }
  }

  lemma LinkTurn(c: Chunk, docs: Documents, o: Occurrence)
    requires o in LinkEntities(c, docs, c.links)
    ensures Turn(o.how) == 5
  {
    LinksAre(c, docs, c.links, o);
    var l :| l in c.links && OfLink(o, c, docs, l);
    OneTurn(o, c, docs, l);
  }

  lemma OneTurn(o: Occurrence, c: Chunk, docs: Documents, l: Link)
    requires OfLink(o, c, docs, l)
    ensures Turn(o.how) == 5
  {
  }

  lemma HeadingInTurn(c: Chunk)
    ensures Between(HeadingEntities(c), 4, 4)
  {
  }

  lemma TagsInTurn(c: Chunk, tags: seq<string>)
    ensures Between(TagEntities(c, tags), 1, 1)
  {
    forall o | o in TagEntities(c, tags) ensures Turn(o.how) == 1 {
      TagsAre(c, tags, o);
    }
  }

  lemma RevisitsInTurn(c: Chunk, values: seq<string>)
    ensures Between(RevisitEntities(c, values), 3, 3)
  {
    forall o | o in RevisitEntities(c, values) ensures Turn(o.how) == 3 {
      RevisitsAre(c, values, o);
    }
  }

  lemma RawInTurn(c: Chunk, d: Document, docs: Documents)
    ensures InTurn(RawEntities(c, d, docs))
  {
    TagsInTurn(c, Clean(d.frontmatter.tags));
    RevisitsInTurn(c, Clean(d.frontmatter.revisitWhen));
    TargetsInTurn(c, d, docs);
    LinksInTurn(c, docs);
    HeadingInTurn(c);
    AllInTurn([DocumentEntity(c, d, Identity, c.section)], TagEntities(c, Clean(d.frontmatter.tags)),
              TargetEntities(c, d.path, docs, CleanTargets(d.frontmatter.targets)),
              RevisitEntities(c, Clean(d.frontmatter.revisitWhen)), HeadingEntities(c), LinkEntities(c, docs, c.links));
  }

  lemma AllInTurn(a: seq<Occurrence>, b: seq<Occurrence>, c: seq<Occurrence>, d: seq<Occurrence>, e: seq<Occurrence>,
                  f: seq<Occurrence>)
    requires Between(a, 0, 0) && Between(b, 1, 1) && Between(c, 2, 2) && Between(d, 3, 3) && Between(e, 4, 4) && Between(f, 5, 5)
    ensures InTurn(a + (b + c + d + e + f))
  {
    SameTurn(a, 0);
    SameTurn(b, 1);
    SameTurn(c, 2);
    SameTurn(d, 3);
    SameTurn(e, 4);
    SameTurn(f, 5);
    assert Between(b, 0, 2) && Between(b + c, 0, 3) && Between(b + c + d, 0, 4) && Between(b + c + d + e, 0, 5);
    TurnsJoin(b, c, 0, 2, 2);
    TurnsJoin(b + c, d, 0, 3, 3);
    TurnsJoin(b + c + d, e, 0, 4, 4);
    TurnsJoin(b + c + d + e, f, 0, 5, 5);
    TurnsJoin(a, b + c + d + e + f, 0, 0, 5);
  }

  lemma {:induction false} DedupeInTurn(occurrences: seq<Occurrence>)
    requires InTurn(occurrences)
    ensures InTurn(Dedupe(occurrences))
  {
    if occurrences != [] {
      var front, last := occurrences[..|occurrences| - 1], occurrences[|occurrences| - 1];
      assert InTurn(front);
      DedupeInTurn(front);
      DedupeKeeps(front);
      forall o | o in Dedupe(front) ensures Turn(o.how) <= Turn(last.how) {
        var i :| 0 <= i < |front| && front[i] == o;
        assert occurrences[i] == o;
      }
      LastInTurn(Dedupe(front), last);
    }
  }

  lemma LastInTurn(kept: seq<Occurrence>, last: Occurrence)
    requires InTurn(kept) && forall o :: o in kept ==> Turn(o.how) <= Turn(last.how)
    ensures InTurn(kept + [last])
  {
    forall i, j | 0 <= i < j < |kept| + 1 ensures Turn((kept + [last])[i].how) <= Turn((kept + [last])[j].how) {
      assert kept[i] in kept;
    }
  }

  /** No two relationships have the same kind and ends. */
  ghost predicate Apart(relations: seq<Occurrence>) {
    forall i, j :: 0 <= i < j < |relations| && relations[i].Relation? && relations[j].Relation? ==>
      relations[i].kind != relations[j].kind || relations[i].source != relations[j].source
      || relations[i].target != relations[j].target
  }

  lemma {:induction false} RelationsOnce(source: EntityKey, entities: seq<Occurrence>)
    requires forall o :: o in entities ==> o.Entity?
    ensures Apart(RelationsFrom(source, entities))
  {
    if entities != [] {
      var front, last := entities[..|entities| - 1], entities[|entities| - 1];
      RelationsOnce(source, front);
      if RelationRule(last).Some? {
        var rule, kept := RelationRule(last).value, RelationsFrom(source, front);
        var relation := Relation(rule.0, source, last.key, last.at, rule.1, last.how);
        if !exists r :: r in kept && OwnerOf(r) == OwnerOf(relation) {
          OneMoreApart(kept, relation);
        }
      }
    }
  }

  lemma OneMoreApart(kept: seq<Occurrence>, r: Occurrence)
    requires Apart(kept) && r.Relation? && !(exists k :: k in kept && OwnerOf(k) == OwnerOf(r))
    ensures Apart(kept + [r])
  {
    forall i, j | 0 <= i < j < |kept| + 1 && (kept + [r])[i].Relation? && (kept + [r])[j].Relation?
      ensures (kept + [r])[i].kind != (kept + [r])[j].kind || (kept + [r])[i].source != (kept + [r])[j].source
        || (kept + [r])[i].target != (kept + [r])[j].target
    {
      assert kept[i] in kept;
    }
  }

  /** The relationship is that of the first entity that gives it. */
  lemma {:induction false} RelationIsFirst(source: EntityKey, entities: seq<Occurrence>, r: Occurrence, e: Occurrence)
    requires (forall o :: o in entities ==> o.Entity?) && InTurn(entities) && r in RelationsFrom(source, entities) && r.Relation?
    requires e in entities && e.how != Identity && e.key == r.target && KindGiven(e.how) == r.kind
    ensures Turn(r.how) <= Turn(e.how)
  {
    var n := |entities| - 1;
    var front, last := entities[..n], entities[n];
    assert entities == front + [last];
    if r in RelationsFrom(source, front) {
      if e in front {
        RelationIsFirst(source, front, r, e);
      } else {
        ComesEarlier(source, entities, r);
      }
    } else if e in front {
      NotAgain(source, entities, r, e);
    }
  }

  lemma ComesEarlier(source: EntityKey, entities: seq<Occurrence>, r: Occurrence)
    requires (forall o :: o in entities ==> o.Entity?) && InTurn(entities) && entities != []
    requires r in RelationsFrom(source, entities[..|entities| - 1])
    ensures Turn(r.how) <= Turn(entities[|entities| - 1].how)
  {
    var n := |entities| - 1;
    assert forall o :: o in entities[..n] ==> o in entities;
    RelationsComeFrom(source, entities[..n]);
    assert ComesFrom(r, source, entities[..n]);
    var o :| o in entities[..n] && o.Entity? && o.key == r.target && o.how == r.how && Gives(o.how, r.kind, r.confidence);
    var i :| 0 <= i < n && entities[..n][i] == o;
    assert entities[i] == o && Turn(entities[i].how) <= Turn(entities[n].how);
  }

  /** A relationship that an earlier entity gives is not made again. */
  lemma NotAgain(source: EntityKey, entities: seq<Occurrence>, r: Occurrence, e: Occurrence)
    requires (forall o :: o in entities ==> o.Entity?) && entities != [] && r in RelationsFrom(source, entities) && r.Relation?
    requires e in entities[..|entities| - 1] && e.how != Identity && e.key == r.target && KindGiven(e.how) == r.kind
    ensures r in RelationsFrom(source, entities[..|entities| - 1])
  {
    assert forall o :: o in entities[..|entities| - 1] ==> o in entities;
    var other := EntityRelates(source, entities[..|entities| - 1], e);
    var confidence :| Gives(e.how, other.kind, confidence);
    RelationsComeFrom(source, entities);
    assert ComesFrom(r, source, entities) && OwnerOf(other) == OwnerOf(r);
  }

  /** Of a tag, a heading and a dead link that mention the same concept, the first makes the mention. */
  ghost predicate MentionsBefore(a: Method, b: Method) {
    a == b || (a == Tag && b in {Heading, UnresolvedLink}) || (a == Heading && b == UnresolvedLink)
  }

  ghost predicate MentionedFirst(all: seq<Occurrence>, r: Occurrence) {
    r.Relation? && r.kind == Mentions ==>
      forall e :: e in all && e.Entity? && e.key == r.target && e.how in {Tag, Heading, UnresolvedLink} ==>
        MentionsBefore(r.how, e.how)
  }

  lemma RelationsAreFirst(c: Chunk, d: Document, docs: Documents)
    ensures Apart(ChunkOccurrences(c, d, docs))
    ensures forall r :: r in ChunkOccurrences(c, d, docs) ==> MentionedFirst(ChunkOccurrences(c, d, docs), r)
  {
    var entities := Entities(c, d, docs);
    RawInTurn(c, d, docs);
    DedupeInTurn(RawEntities(c, d, docs));
    var key := IdentityKey(d, entities);
    if key.Some? {
      FirstRelations(key.value, entities);
    } else {
      assert entities + [] == entities;
    }
  }

  lemma FirstRelations(source: EntityKey, entities: seq<Occurrence>)
    requires (forall o :: o in entities ==> o.Entity?) && InTurn(entities)
    ensures Apart(entities + RelationsFrom(source, entities))
    ensures forall r :: r in entities + RelationsFrom(source, entities) ==> MentionedFirst(entities + RelationsFrom(source, entities), r)
  {
    RelationsOnce(source, entities);
    RelationsComeFrom(source, entities);
    var relations := RelationsFrom(source, entities);
    ApartBehind(entities, relations);
    forall r | r in entities + relations ensures MentionedFirst(entities + relations, r) {
      forall e | e in entities + relations && e.Entity? && r.Relation? && r.kind == Mentions && e.key == r.target
        && e.how in {Tag, Heading, UnresolvedLink}
        ensures MentionsBefore(r.how, e.how)
      {
        assert ComesFrom(r, source, entities);
        RelationIsFirst(source, entities, r, e);
      }
    }
  }

  lemma ApartBehind(entities: seq<Occurrence>, relations: seq<Occurrence>)
    requires (forall o :: o in entities ==> o.Entity?) && Apart(relations)
    ensures Apart(entities + relations)
  {
    var all := entities + relations;
    forall i | 0 <= i < |entities| ensures all[i].Entity? {
      assert entities[i] in entities;
    }
    forall i, j | 0 <= i < j < |all| && all[i].Relation? && all[j].Relation?
      ensures all[i].kind != all[j].kind || all[i].source != all[j].source || all[i].target != all[j].target
    {
      assert all[i] == relations[i - |entities|] && all[j] == relations[j - |entities|];
    }
  }
}
