/** The deterministic extractors: what one chunk says about entities and relationships. */
module Extraction {
  import opened Core
  import opened Text
  import opened LinkResolution

  datatype Field = Related | DependsOn | Blocks | Implements | Supersedes

  /** The frontmatter values the extractors read, as written, and the text of the whole dictionary, `str(frontmatter)`. */
  datatype Frontmatter = Frontmatter(
    kind: string, title: Option<string>, aliases: seq<string>, tags: seq<string>,
    targets: seq<(Field, string)>, revisitWhen: seq<string>, text: string)

  /** Where a value stands in the dictionary, its text holds it: a string in quotes, any other value as `str` writes it. */
  ghost predicate ShowsTargets(f: Frontmatter) {
    forall v :: v in TargetValues(f.targets) ==> Contains(f.text, Repr(v)) || Contains(f.text, v)
  }

  datatype Document = Document(id: Id, path: Path, frontmatter: Frontmatter)

  datatype Link = Link(target: string, caption: string)

  /** A chunk with the local links its text holds; every target is a piece of the text. */
  datatype Chunk = Chunk(id: Id, document: Id, path: Path, text: string, links: seq<Link>,
                         section: Option<string>, anchor: Option<string>, hash: Id)

  ghost predicate LinksFromText(chunk: Chunk) {
    forall l :: l in chunk.links ==> Contains(chunk.text, l.target)
  }

  datatype EntityType = Decision | WikiPage | Source | PlainDocument | Concept
  datatype EntityKey = EntityKey(kind: EntityType, name: string, canonical: Option<Path>)
  datatype Method = Identity | FrontTarget(field: Field) | RevisitWhen | Tag | Heading | LinkTarget | UnresolvedLink
  datatype RelationType = Mentions | LinksTo | Typed(field: Field) | Revisit

  datatype Place = Place(document: Id, chunk: Id, hash: Id, section: Option<string>, anchor: Option<string>, path: Path)

  datatype Occurrence =
    | Entity(key: EntityKey, name: string, aliases: seq<string>, at: Place, confidence: nat, how: Method)
    | Relation(kind: RelationType, source: EntityKey, target: EntityKey, at: Place, confidence: nat, how: Method)

  /** The identity an occurrence is grouped under; the stable ids of the source are injective in it. */
  datatype Owner = EntityOwner(key: EntityKey) | RelationOwner(kind: RelationType, source: EntityKey, target: EntityKey)

  function OwnerOf(o: Occurrence): Owner {
    match o
    case Entity(key, _, _, _, _, _) => EntityOwner(key)
    case Relation(kind, source, target, _, _, _) => RelationOwner(kind, source, target)
  }

  type Documents = map<Path, Document>

  // ---- Names ----

  function NormalizeName(name: string): string {
    Join(Words(Lower(name)), " ")
  }

  const GENERIC_HEADINGS: set<string> := {"overview", "summary", "notes", "todo", "appendix", "references"}

  function Clean(values: seq<string>): seq<string> {
    if values == [] then []
    else (if Trim(values[0]) == "" then [] else [Trim(values[0])]) + Clean(values[1..])
  }

  function CleanTargets(targets: seq<(Field, string)>): seq<(Field, string)> {
    if targets == [] then []
    else (if Trim(targets[0].1) == "" then [] else [(targets[0].0, Trim(targets[0].1))]) + CleanTargets(targets[1..])
  }

  function KindOf(d: Document): EntityType {
    if Lower(d.frontmatter.kind) == "decision" || (|d.path| > 2 && "decisions" in d.path[1..|d.path| - 1]) then Decision
    else if |d.path| > 1 && d.path[0] == "wiki" then WikiPage
    else if |d.path| > 1 && d.path[0] == "raw" then Source
    else PlainDocument
  }

  function TitleOf(d: Document): string {
    if d.frontmatter.title.Some? then Trim(d.frontmatter.title.value) else ""
  }

  function NameOf(d: Document, section: Option<string>): string {
    if TitleOf(d) != "" then TitleOf(d)
    else if section.Some? && section.value != "" then section.value
    else if EndsWith(FileName(d.path), ".md") then Stem(FileName(d.path))
    else Join(d.path, "/")
  }

  // ---- Entities ----

  function PlaceOf(c: Chunk): Place {
    Place(c.document, c.id, c.hash, c.section, c.anchor, c.path)
  }

  function DocumentEntity(c: Chunk, d: Document, how: Method, section: Option<string>): Occurrence {
    var name := NameOf(d, section);
    Entity(EntityKey(KindOf(d), NormalizeName(name), Some(d.path)), name, Clean(d.frontmatter.aliases), PlaceOf(c), 100, how)
  }

  function StripHash(name: string): string {
    var s := Trim(name);
    Trim(if s != "" && s[0] == '#' then s[1..] else s)
  }

  function ConceptEntity(c: Chunk, name: string, confidence: nat, how: Method): Occurrence {
    var stripped := StripHash(name);
    Entity(EntityKey(Concept, NormalizeName(stripped), None), stripped, [], PlaceOf(c), confidence, how)
  }

  /** The hash sign of a tag is taken off when tags are listed, and that of the name when the concept is made. */
  function TagEntities(c: Chunk, tags: seq<string>): seq<Occurrence> {
    if tags == [] then []
    else
      (if StripHash(tags[0]) == "" then [] else [ConceptEntity(c, StripHash(tags[0]), 80, Tag)]) + TagEntities(c, tags[1..])
  }

  function RevisitEntities(c: Chunk, values: seq<string>): seq<Occurrence> {
    if values == [] then [] else [ConceptEntity(c, values[0], 80, RevisitWhen)] + RevisitEntities(c, values[1..])
  }

  /** What a resolved link stands for, or None. */
  function TargetOf(docs: Documents, source: Path, raw: string): Option<Document> {
    ResolvedHasName(docs.Keys, source, raw);
    match Resolve(docs.Keys, source, raw)
    case None => None
    case Some(p) => Some(docs[p])
  }

  function TargetEntities(c: Chunk, source: Path, docs: Documents, targets: seq<(Field, string)>): seq<Occurrence> {
    if targets == [] then [] else TargetEntity(c, source, docs, targets[0]) + TargetEntities(c, source, docs, targets[1..])
  }

  function TargetEntity(c: Chunk, source: Path, docs: Documents, target: (Field, string)): seq<Occurrence> {
    match TargetOf(docs, source, target.1)
    case None => []
    case Some(d) => [DocumentEntity(c, d, FrontTarget(target.0), None)]
  }

  function LinkEntities(c: Chunk, docs: Documents, links: seq<Link>): seq<Occurrence> {
    if links == [] then [] else LinkEntity(c, docs, links[0]) + LinkEntities(c, docs, links[1..])
  }

  function LinkEntity(c: Chunk, docs: Documents, link: Link): seq<Occurrence> {
    match TargetOf(docs, c.path, link.target)
    case Some(d) => [DocumentEntity(c, d, LinkTarget, None)]
    case None =>
      if External(Trim(link.target)) then []
      else [ConceptEntity(c, if link.caption != "" then link.caption else link.target, 70, UnresolvedLink)]
  }

  function HeadingEntities(c: Chunk): seq<Occurrence> {
    if c.section.Some? && c.section.value != "" && NormalizeName(c.section.value) !in GENERIC_HEADINGS then
      [Entity(EntityKey(Concept, NormalizeName(c.section.value), None), c.section.value, [], PlaceOf(c), 85, Heading)]
    else []
  }

  predicate SameEntity(a: Occurrence, b: Occurrence) {
    OwnerOf(a) == OwnerOf(b) && a.how == b.how
  }

  /** Keep the first occurrence of each entity and method, as the extractor's dictionary does. */
  function Dedupe(occurrences: seq<Occurrence>): seq<Occurrence> {
    if occurrences == [] then []
    else
      var last := occurrences[|occurrences| - 1];
      var kept := Dedupe(occurrences[..|occurrences| - 1]);
      if exists o :: o in kept && SameEntity(o, last) then kept else kept + [last]
  }

  function RawEntities(c: Chunk, d: Document, docs: Documents): seq<Occurrence> {
    [DocumentEntity(c, d, Identity, c.section)]
    + (TagEntities(c, Clean(d.frontmatter.tags))
       + TargetEntities(c, d.path, docs, CleanTargets(d.frontmatter.targets))
       + RevisitEntities(c, Clean(d.frontmatter.revisitWhen))
       + HeadingEntities(c)
       + LinkEntities(c, docs, c.links))
  }

  function Entities(c: Chunk, d: Document, docs: Documents): (r: seq<Occurrence>)
    ensures EntitiesAt(r, c)
  {
    RawEntitiesAt(c, d, docs);
    DedupeKeeps(RawEntities(c, d, docs));
    Dedupe(RawEntities(c, d, docs))
  }

  // ---- Relationships ----

  /** The relationship an entity occurrence gives its document, if any: its type and confidence. */
  function RelationRule(o: Occurrence): Option<(RelationType, nat)>
    requires o.Entity?
  {
    match o.how
    case Identity => None
    case FrontTarget(field) => Some((Typed(field), 90))
    case RevisitWhen => Some((Revisit, 80))
    case Tag => Some((Mentions, 80))
    case Heading => Some((Mentions, 85))
    case LinkTarget => Some((LinksTo, 95))
    case UnresolvedLink => Some((Mentions, 70))
  }

  predicate IsIdentityOf(o: Occurrence, d: Document) {
    o.Entity? && o.how == Identity && o.key.canonical == Some(d.path)
  }

  /** Later mentions of the same relationship in the chunk are dropped. */
  function RelationsFrom(source: EntityKey, entities: seq<Occurrence>): seq<Occurrence>
    requires forall o :: o in entities ==> o.Entity?
  {
    if entities == [] then []
    else
      var o := entities[|entities| - 1];
      var kept := RelationsFrom(source, entities[..|entities| - 1]);
      match RelationRule(o)
      case None => kept
      case Some(rule) =>
        var relation := Relation(rule.0, source, o.key, o.at, rule.1, o.how);
        if exists r :: r in kept && OwnerOf(r) == OwnerOf(relation) then kept else kept + [relation]
  }

  /** The entity that stands for the chunk's own document. */
  function IdentityKey(d: Document, entities: seq<Occurrence>): Option<EntityKey> {
    if entities == [] then None
    else if IsIdentityOf(entities[0], d) then Some(entities[0].key)
    else IdentityKey(d, entities[1..])
  }

  function Relations(c: Chunk, d: Document, entities: seq<Occurrence>): seq<Occurrence>
    requires forall o :: o in entities ==> o.Entity?
  {
    match IdentityKey(d, entities)
    case None => []
    case Some(key) => RelationsFrom(key, entities)
  }

  lemma {:induction false} IdentityKeyIsEntity(d: Document, entities: seq<Occurrence>)
    ensures IdentityKey(d, entities).Some? ==>
      exists o :: o in entities && IsIdentityOf(o, d) && o.key == IdentityKey(d, entities).value
  {
    if entities != [] {
      if IsIdentityOf(entities[0], d) {
        assert entities[0] in entities;
      } else {
        IdentityKeyIsEntity(d, entities[1..]);
      }
    }
  }

  function ChunkOccurrences(c: Chunk, d: Document, docs: Documents): seq<Occurrence> {
    var entities := Entities(c, d, docs);
    entities + Relations(c, d, entities)
  }

  // ---- Shape ----

  /** Raw occurrences all describe entities at the chunk. */
  ghost predicate EntitiesAt(occurrences: seq<Occurrence>, c: Chunk) {
    forall o :: o in occurrences ==> o.Entity? && o.at == PlaceOf(c)
  }

  lemma {:induction false} TargetEntitiesAt(c: Chunk, source: Path, docs: Documents, targets: seq<(Field, string)>)
    ensures EntitiesAt(TargetEntities(c, source, docs, targets), c)
  {
    if targets != [] {
      TargetEntitiesAt(c, source, docs, targets[1..]);
    }
  }

  lemma {:induction false} LinkEntitiesAt(c: Chunk, docs: Documents, links: seq<Link>)
    ensures EntitiesAt(LinkEntities(c, docs, links), c)
  {
    if links != [] {
      LinkEntitiesAt(c, docs, links[1..]);
    }
  }

  lemma {:induction false} ConceptsAt(c: Chunk, values: seq<string>)
    ensures EntitiesAt(TagEntities(c, values), c) && EntitiesAt(RevisitEntities(c, values), c)
  {
    if values != [] {
      ConceptsAt(c, values[1..]);
    }
  }

  lemma RawEntitiesAt(c: Chunk, d: Document, docs: Documents)
    ensures EntitiesAt(RawEntities(c, d, docs), c)
  {
    TargetEntitiesAt(c, d.path, docs, CleanTargets(d.frontmatter.targets));
    LinkEntitiesAt(c, docs, c.links);
    ConceptsAt(c, Clean(d.frontmatter.tags));
    ConceptsAt(c, Clean(d.frontmatter.revisitWhen));
  }

  /** Deduplication keeps a representative of every entity and method, and adds nothing. */
  lemma {:induction false} DedupeKeeps(occurrences: seq<Occurrence>)
    ensures forall o :: o in Dedupe(occurrences) ==> o in occurrences
    ensures forall o :: o in occurrences ==> exists k :: k in Dedupe(occurrences) && SameEntity(k, o)
  {
    if occurrences != [] {
      var front, last := occurrences[..|occurrences| - 1], occurrences[|occurrences| - 1];
      DedupeKeeps(front);
      assert occurrences == front + [last];
      var kept, all := Dedupe(front), Dedupe(occurrences);
      assert kept <= all;
      forall o | o in occurrences ensures exists k :: k in all && SameEntity(k, o) {
        if o in front {
          var k :| k in kept && SameEntity(k, o);
          assert k in all;
        } else if all != kept {
          assert last in all && SameEntity(last, o);
        }
      }
    }
  }

  lemma {:induction false} DedupeOnce(occurrences: seq<Occurrence>)
    ensures forall i, j :: 0 <= i < j < |Dedupe(occurrences)| ==>
      !SameEntity(Dedupe(occurrences)[i], Dedupe(occurrences)[j])
  {
    if occurrences != [] {
      DedupeOnce(occurrences[..|occurrences| - 1]);
    }
  }

  lemma {:induction false} RelationsAt(source: EntityKey, entities: seq<Occurrence>, c: Chunk)
    requires EntitiesAt(entities, c)
    ensures forall r :: r in RelationsFrom(source, entities) ==>
      r.Relation? && r.at == PlaceOf(c) && r.source == source && exists o :: o in entities && o.key == r.target
  {
    if entities != [] {
      var front, last := entities[..|entities| - 1], entities[|entities| - 1];
      assert entities == front + [last];
      RelationsAt(source, front, c);
      forall r | r in RelationsFrom(source, entities)
        ensures r.Relation? && r.at == PlaceOf(c) && r.source == source && exists o :: o in entities && o.key == r.target
      {
        if r in RelationsFrom(source, front) {
          var o :| o in front && o.key == r.target;
          assert o in entities;
        } else {
          assert last in entities;
        }
      }
    }
  }

  /** Every occurrence sits at its chunk, and a relationship joins two entities of the same chunk. */
  lemma OccurrencesAt(c: Chunk, d: Document, docs: Documents)
    ensures forall o :: o in ChunkOccurrences(c, d, docs) ==> o.at == PlaceOf(c)
    ensures forall o :: o in ChunkOccurrences(c, d, docs) && o.Relation? ==>
      && (exists e :: e in Entities(c, d, docs) && e.key == o.source)
      && (exists e :: e in Entities(c, d, docs) && e.key == o.target)
  {
    var entities := Entities(c, d, docs);
    IdentityKeyIsEntity(d, entities);
    var key := IdentityKey(d, entities);
    if key.Some? {
      RelationsAt(key.value, entities, c);
    }
  }

  lemma RawEntityOccurs(c: Chunk, d: Document, docs: Documents, o: Occurrence) returns (k: Occurrence)
    requires o in RawEntities(c, d, docs)
    ensures k in ChunkOccurrences(c, d, docs) && k.Entity? && o.Entity? && k.key == o.key && k.at == PlaceOf(c) && k.how == o.how
    ensures k in Entities(c, d, docs)
  {
    var raw := RawEntities(c, d, docs);
    RawEntitiesAt(c, d, docs);
    DedupeKeeps(raw);
    k :| k in Dedupe(raw) && SameEntity(k, o);
    assert k in Entities(c, d, docs);
  }

  /** A document is always named by the chunks it has. */
  lemma IdentityOccurs(c: Chunk, d: Document, docs: Documents) returns (k: Occurrence)
    ensures k in ChunkOccurrences(c, d, docs) && k.Entity? && k.key.canonical == Some(d.path) && k.at == PlaceOf(c)
    ensures k in Entities(c, d, docs) && k.how == Identity
  {
    var first := DocumentEntity(c, d, Identity, c.section);
    assert RawEntities(c, d, docs)[0] == first;
    k := RawEntityOccurs(c, d, docs, first);
  }

  // ---- Which relationships an extraction holds ----

  /** The relationship that an entity found this way gives its document. */
  ghost predicate Gives(how: Method, kind: RelationType, confidence: nat) {
    match how
    case Identity => false
    case FrontTarget(field) => kind == Typed(field) && confidence == 90
    case RevisitWhen => kind == Revisit && confidence == 80
    case Tag => kind == Mentions && confidence == 80
    case Heading => kind == Mentions && confidence == 85
    case LinkTarget => kind == LinksTo && confidence == 95
    case UnresolvedLink => kind == Mentions && confidence == 70
  }

  /** The relationship comes from one of the entities. */
  ghost predicate ComesFrom(r: Occurrence, source: EntityKey, entities: seq<Occurrence>) {
    r.Relation? && r.source == source
    && exists e :: e in entities && e.Entity? && e.key == r.target && e.how == r.how && Gives(e.how, r.kind, r.confidence)
  }

  lemma {:induction false} RelationsComeFrom(source: EntityKey, entities: seq<Occurrence>)
    requires forall o :: o in entities ==> o.Entity?
    ensures forall r :: r in RelationsFrom(source, entities) ==> ComesFrom(r, source, entities)
  {
    if entities != [] {
      var front, last := entities[..|entities| - 1], entities[|entities| - 1];
      assert entities == front + [last];
      RelationsComeFrom(source, front);
      forall r | r in RelationsFrom(source, entities) ensures ComesFrom(r, source, entities) {
        if r in RelationsFrom(source, front) {
          var e :| e in front && e.Entity? && e.key == r.target && e.how == r.how && Gives(e.how, r.kind, r.confidence);
          assert e in entities;
        } else {
          assert last in entities && Gives(last.how, r.kind, r.confidence);
        }
      }
    }
  }

  lemma {:induction false} EntityRelates(source: EntityKey, entities: seq<Occurrence>, e: Occurrence) returns (r: Occurrence)
    requires (forall o :: o in entities ==> o.Entity?) && e in entities && e.how != Identity
    ensures r in RelationsFrom(source, entities) && r.Relation? && r.source == source && r.target == e.key
    ensures exists confidence :: Gives(e.how, r.kind, confidence)
  {
    var front, last := entities[..|entities| - 1], entities[|entities| - 1];
    assert entities == front + [last];
    var kept := RelationsFrom(source, front);
    if e in front {
      r := EntityRelates(source, front, e);
    } else {
      var rule := RelationRule(e).value;
      var relation := Relation(rule.0, source, e.key, e.at, rule.1, e.how);
      assert Gives(e.how, rule.0, rule.1);
      r := if x :| x in kept && OwnerOf(x) == OwnerOf(relation) then x else relation;
      RelationsComeFrom(source, front);
    }
  }

  lemma {:induction false} FirstIdentity(d: Document, entities: seq<Occurrence>, o: Occurrence)
    requires o in entities && IsIdentityOf(o, d)
    ensures IdentityKey(d, entities).Some? && IdentityKey(d, entities).value.canonical == Some(d.path)
  {
    if !IsIdentityOf(entities[0], d) {
      FirstIdentity(d, entities[1..], o);
    }
  }

  /**
   * Every entity but the document's own is related to the document in the way its method says, and every relationship
   * comes from such an entity.
   */
  lemma RelatedAsFound(c: Chunk, d: Document, docs: Documents)
    ensures forall e :: e in ChunkOccurrences(c, d, docs) && e.Entity? && e.how != Identity ==> RelatedTo(c, d, docs, e)
    ensures forall r :: r in ChunkOccurrences(c, d, docs) && r.Relation? ==>
      r.source.canonical == Some(d.path) && ComesFrom(r, r.source, ChunkOccurrences(c, d, docs))
  {
    var entities := Entities(c, d, docs);
    var own := IdentityOccurs(c, d, docs);
    FirstIdentity(d, entities, own);
    var key := IdentityKey(d, entities).value;
    RelationsComeFrom(key, entities);
    forall e | e in ChunkOccurrences(c, d, docs) && e.Entity? && e.how != Identity ensures RelatedTo(c, d, docs, e) {
      RelationsAt(key, entities, c);
      var r := EntityRelates(key, entities, e);
      assert r in ChunkOccurrences(c, d, docs);
    }
    forall r | r in ChunkOccurrences(c, d, docs) && r.Relation?
      ensures r.source.canonical == Some(d.path) && ComesFrom(r, r.source, ChunkOccurrences(c, d, docs))
    {
      var e :| e in entities && e.Entity? && e.key == r.target && e.how == r.how && Gives(e.how, r.kind, r.confidence);
      assert e in ChunkOccurrences(c, d, docs);
    }
  }

  ghost predicate RelatedTo(c: Chunk, d: Document, docs: Documents, e: Occurrence) {
    e.Entity? && exists r :: r in ChunkOccurrences(c, d, docs) && Relates(r, d, e)
  }

  ghost predicate Relates(r: Occurrence, d: Document, e: Occurrence) {
    r.Relation? && e.Entity? && r.source.canonical == Some(d.path) && r.target == e.key && exists confidence :: Gives(e.how, r.kind, confidence)
  }

  ghost function KindGiven(how: Method): RelationType
    requires how != Identity
  {
    match how
    case FrontTarget(field) => Typed(field)
    case RevisitWhen => Revisit
    case LinkTarget => LinksTo
    case _ => Mentions
  }

  lemma OneRelated(c: Chunk, d: Document, docs: Documents, e: Occurrence) returns (r: Occurrence)
    requires e in ChunkOccurrences(c, d, docs) && e.Entity? && e.how != Identity
    ensures r in ChunkOccurrences(c, d, docs) && r.Relation? && r.source.canonical == Some(d.path) && r.target == e.key
    ensures r.kind == KindGiven(e.how)
  {
    RelatedAsFound(c, d, docs);
    assert RelatedTo(c, d, docs, e);
    r :| r in ChunkOccurrences(c, d, docs) && Relates(r, d, e);
  }

  lemma ConceptRelated(c: Chunk, d: Document, docs: Documents, e: Occurrence) returns (r: Occurrence)
    requires e in ChunkOccurrences(c, d, docs) && e.Entity? && e.how == UnresolvedLink
    ensures r in ChunkOccurrences(c, d, docs) && r.Relation? && r.kind == Mentions
    ensures r.source.canonical == Some(d.path) && r.target == e.key
  {
    r := OneRelated(c, d, docs, e);
  }

  lemma TargetRelated(c: Chunk, d: Document, docs: Documents, e: Occurrence) returns (r: Occurrence)
    requires e in ChunkOccurrences(c, d, docs) && e.Entity? && e.how == LinkTarget
    ensures r in ChunkOccurrences(c, d, docs) && r.Relation? && r.kind == LinksTo
    ensures r.source.canonical == Some(d.path) && r.target == e.key
  {
    r := OneRelated(c, d, docs, e);
  }

  // ---- Which documents an extraction depends on ----

  lemma {:induction false} LinkEntityNamed(c: Chunk, docs: Documents, links: seq<Link>, l: Link, p: Path)
    requires l in links && Resolve(docs.Keys, c.path, l.target) == Some(p) && p in docs && docs[p].path == p
    ensures exists o :: o in LinkEntities(c, docs, links) && o.Entity? && o.key.canonical == Some(p) && o.how == LinkTarget
  {
    if links[0] == l {
      var o := DocumentEntity(c, docs[p], LinkTarget, None);
      assert LinkEntities(c, docs, links)[0] == o;
      assert o in LinkEntities(c, docs, links) && o.key.canonical == Some(p);
    } else {
      LinkEntityNamed(c, docs, links[1..], l, p);
      var o :| o in LinkEntities(c, docs, links[1..]) && o.Entity? && o.key.canonical == Some(p) && o.how == LinkTarget;
      assert o in LinkEntities(c, docs, links);
    }
  }

  lemma {:induction false} TargetEntityNamed(c: Chunk, source: Path, docs: Documents, targets: seq<(Field, string)>,
                                             t: (Field, string), p: Path)
    requires t in targets && Resolve(docs.Keys, source, t.1) == Some(p) && p in docs && docs[p].path == p
    ensures exists o :: o in TargetEntities(c, source, docs, targets) && o.Entity? && o.key.canonical == Some(p) && o.how == FrontTarget(t.0)
  {
    if targets[0] == t {
      var o := DocumentEntity(c, docs[p], FrontTarget(t.0), None);
      assert TargetEntities(c, source, docs, targets)[0] == o;
      assert o in TargetEntities(c, source, docs, targets) && o.key.canonical == Some(p);
    } else {
      TargetEntityNamed(c, source, docs, targets[1..], t, p);
      var o :| o in TargetEntities(c, source, docs, targets[1..]) && o.Entity? && o.key.canonical == Some(p) && o.how == FrontTarget(t.0);
      assert o in TargetEntities(c, source, docs, targets);
    }
  }

  /** A chunk whose text links to a document holds an occurrence of that document's entity. */
  lemma LinkedByText(c: Chunk, d: Document, docs: Documents, l: Link, p: Path) returns (k: Occurrence)
    requires l in c.links && Resolve(docs.Keys, c.path, l.target) == Some(p) && p in docs && docs[p].path == p
    ensures k in ChunkOccurrences(c, d, docs) && k.Entity? && k.key.canonical == Some(p) && k.at == PlaceOf(c) && k.how == LinkTarget
  {
    LinkEntityNamed(c, docs, c.links, l, p);
    var found :| found in LinkEntities(c, docs, c.links) && found.Entity? && found.key.canonical == Some(p) && found.how == LinkTarget;
    k := RawEntityOccurs(c, d, docs, found);
  }

  /** So does a chunk of a document whose frontmatter links to it. */
  lemma LinkedByFrontmatter(c: Chunk, d: Document, docs: Documents, t: (Field, string), p: Path) returns (k: Occurrence)
    requires t in CleanTargets(d.frontmatter.targets) && Resolve(docs.Keys, d.path, t.1) == Some(p)
    requires p in docs && docs[p].path == p
    ensures k in ChunkOccurrences(c, d, docs) && k.Entity? && k.key.canonical == Some(p) && k.at == PlaceOf(c) && k.how == FrontTarget(t.0)
  {
    var targets := CleanTargets(d.frontmatter.targets);
    TargetEntityNamed(c, d.path, docs, targets, t, p);
    var found :| found in TargetEntities(c, d.path, docs, targets) && found.Entity? && found.key.canonical == Some(p) && found.how == FrontTarget(t.0);
    k := RawEntityOccurs(c, d, docs, found);
  }

  /** A text link that resolves gives the page a `links_to` relationship with its target. */
  lemma TextLinkRelates(c: Chunk, d: Document, docs: Documents, l: Link, p: Path) returns (r: Occurrence)
    requires l in c.links && Resolve(docs.Keys, c.path, l.target) == Some(p) && p in docs && docs[p].path == p
    ensures r in ChunkOccurrences(c, d, docs) && r.Relation? && r.kind == LinksTo
    ensures r.source.canonical == Some(d.path) && r.target.canonical == Some(p)
  {
    var e := LinkedByText(c, d, docs, l, p);
    r := TargetRelated(c, d, docs, e);
  }

  /** A frontmatter link that resolves gives the relationship its field names. */
  lemma FrontmatterLinkRelates(c: Chunk, d: Document, docs: Documents, t: (Field, string), p: Path) returns (r: Occurrence)
    requires t in CleanTargets(d.frontmatter.targets) && Resolve(docs.Keys, d.path, t.1) == Some(p)
    requires p in docs && docs[p].path == p
    ensures r in ChunkOccurrences(c, d, docs) && r.Relation? && r.kind == Typed(t.0)
    ensures r.source.canonical == Some(d.path) && r.target.canonical == Some(p)
  {
    var e := LinkedByFrontmatter(c, d, docs, t, p);
    r := OneRelated(c, d, docs, e);
  }

  /** A link that leads nowhere, and is no address or fragment, mentions a concept named after its caption or target. */
  lemma {:induction false} DeadLinkOccurs(c: Chunk, docs: Documents, links: seq<Link>, l: Link) returns (o: Occurrence)
    requires l in links && TargetOf(docs, c.path, l.target).None? && !External(Trim(l.target))
    ensures o in LinkEntities(c, docs, links) && o.Entity? && o.how == UnresolvedLink && o.key.kind == Concept
    ensures o.key.canonical.None? && o.name == StripHash(if l.caption != "" then l.caption else l.target)
  {
    if links[0] == l {
      o := LinkEntities(c, docs, links)[0];
    } else {
      o := DeadLinkOccurs(c, docs, links[1..], l);
    }
  }

  lemma DeadLinkMentions(c: Chunk, d: Document, docs: Documents, l: Link) returns (e: Occurrence, r: Occurrence)
    requires l in c.links && TargetOf(docs, c.path, l.target).None? && !External(Trim(l.target))
    ensures e in ChunkOccurrences(c, d, docs) && e.Entity? && e.how == UnresolvedLink && e.key.kind == Concept
    ensures e.key.name == NormalizeName(StripHash(if l.caption != "" then l.caption else l.target))
    ensures r in ChunkOccurrences(c, d, docs) && r.Relation? && r.kind == Mentions
    ensures r.source.canonical == Some(d.path) && r.target == e.key
  {
    var o := DeadLinkOccurs(c, docs, c.links, l);
    e := RawEntityOccurs(c, d, docs, o);
    LinkConcepts(c, docs, c.links, o);
    r := ConceptRelated(c, d, docs, e);
  }

  lemma {:induction false} LinkConcepts(c: Chunk, docs: Documents, links: seq<Link>, o: Occurrence)
    requires o in LinkEntities(c, docs, links) && o.Entity? && o.how == UnresolvedLink
    ensures o.key == EntityKey(Concept, NormalizeName(o.name), None)
  {
    if o !in LinkEntities(c, docs, links[1..]) {
      assert o == LinkEntities(c, docs, links)[0];
    } else {
      LinkConcepts(c, docs, links[1..], o);
    }
  }

  ghost predicate SameTargets(c: Chunk, d: Document, a: Documents, b: Documents) {
    && (forall l :: l in c.links ==> TargetOf(a, c.path, l.target) == TargetOf(b, c.path, l.target))
    && (forall t :: t in CleanTargets(d.frontmatter.targets) ==> TargetOf(a, d.path, t.1) == TargetOf(b, d.path, t.1))
  }

  lemma {:induction false} LinkEntitiesSame(c: Chunk, a: Documents, b: Documents, links: seq<Link>)
    requires forall l :: l in links ==> TargetOf(a, c.path, l.target) == TargetOf(b, c.path, l.target)
    ensures LinkEntities(c, a, links) == LinkEntities(c, b, links)
  {
    if links != [] {
      LinkEntitiesSame(c, a, b, links[1..]);
    }
  }

  lemma {:induction false} TargetEntitiesSame(c: Chunk, source: Path, a: Documents, b: Documents,
                                              targets: seq<(Field, string)>)
    requires forall t :: t in targets ==> TargetOf(a, source, t.1) == TargetOf(b, source, t.1)
    ensures TargetEntities(c, source, a, targets) == TargetEntities(c, source, b, targets)
  {
    if targets != [] {
      TargetEntitiesSame(c, source, a, b, targets[1..]);
    }
  }

  /** An extraction depends on the other documents only through the targets its links resolve to. */
  lemma ExtractionIsLocal(c: Chunk, d: Document, a: Documents, b: Documents)
    requires SameTargets(c, d, a, b)
    ensures ChunkOccurrences(c, d, a) == ChunkOccurrences(c, d, b)
  {
    LinkEntitiesSame(c, a, b, c.links);
    TargetEntitiesSame(c, d.path, a, b, CleanTargets(d.frontmatter.targets));
  }

  // ---- The text the selection of documents searches ----

  function TargetValues(targets: seq<(Field, string)>): seq<string> {
    if targets == [] then [] else [targets[0].1] + TargetValues(targets[1..])
  }

  lemma {:induction false} CleanTargetComesFrom(targets: seq<(Field, string)>, t: (Field, string))
    requires t in CleanTargets(targets)
    ensures exists v :: v in TargetValues(targets) && Trim(v) == t.1
  {
    if Trim(targets[0].1) == t.1 && t.1 != "" {
      assert targets[0].1 in TargetValues(targets);
    } else {
      CleanTargetComesFrom(targets[1..], t);
      var v :| v in TargetValues(targets[1..]) && Trim(v) == t.1;
      assert v in TargetValues(targets);
    }
  }

  /** The file name a frontmatter link asks for shows up in the frontmatter text when it survives quoting. */
  lemma FrontmatterShowsTarget(f: Frontmatter, t: (Field, string))
    requires ShowsTargets(f) && t in CleanTargets(f.targets) && SurvivesRepr(Stem(TargetName(t.1)))
    ensures Contains(f.text, Stem(TargetName(t.1)))
  {
    var name := Stem(TargetName(t.1));
    CleanTargetComesFrom(f.targets, t);
    var v :| v in TargetValues(f.targets) && Trim(v) == t.1;
    RawContainsStem(t.1);
    TrimPart(v);
    ContainsTransitive(v, t.1, name);
    if Contains(f.text, v) {
      ContainsTransitive(f.text, v, name);
    } else {
      SurvivesInside(name, v);
      ContainsPart([Quote(v)], Escaped(v, Quote(v)), [Quote(v)]);
      ContainsTransitive(f.text, Repr(v), Escaped(v, Quote(v)));
      ContainsTransitive(f.text, Escaped(v, Quote(v)), name);
    }
  }

  /** The file name a text link asks for shows up in the chunk's text. */
  lemma TextShowsTarget(c: Chunk, l: Link)
    requires LinksFromText(c) && l in c.links
    ensures Contains(c.text, Stem(TargetName(l.target)))
  {
    RawContainsStem(l.target);
    ContainsTransitive(c.text, l.target, Stem(TargetName(l.target)));
  }

  // ---- What an extractor must guarantee for incremental maintenance ----

  /** What the indexer is given: the occurrences of one chunk of one document, in the context of the others. */
  type Extractor = (Chunk, Document, Documents) -> seq<Occurrence>

  /** The chunk's text contains the stem of the file name of `q`. */
  ghost predicate TextNames(c: Chunk, q: Path) {
    Contains(c.text, Stem(FileName(q)))
  }

  ghost predicate FrontmatterNames(d: Document, q: Path) {
    Contains(d.frontmatter.text, Stem(FileName(q)))
  }

  /** Frontmatter that asks for the file shows its name: the name survives quoting, or no link can ask for the file. */
  ghost predicate Findable(file: string) {
    SurvivesRepr(Stem(file)) || !CanBeAsked(file)
  }

  /** No document that came or went between `a` and `b` is named by the chunk or by its document. */
  ghost predicate NoNamedMoved(c: Chunk, d: Document, a: Documents, b: Documents) {
    forall q :: (q in a) != (q in b) ==> !TextNames(c, q) && !FrontmatterNames(d, q) && Findable(FileName(q))
  }

  /** Every document the extraction has an entity of is unchanged. */
  ghost predicate EntitiesUnchanged(occurrences: seq<Occurrence>, a: Documents, b: Documents) {
    forall o, q :: o in occurrences && o.Entity? && o.key.canonical == Some(q) && q in a && q in b ==> a[q] == b[q]
  }

  ghost predicate Paths(docs: Documents) {
    forall p :: p in docs ==> docs[p].path == p
  }

  /** Occurrences sit at their chunk, relationships join entities of the chunk, and there is always one. */
  ghost predicate WellPlaced(found: seq<Occurrence>, c: Chunk) {
    && found != []
    && (forall o :: o in found ==> o.at == PlaceOf(c))
    && (forall o :: o in found && o.Relation? ==> HasEntity(found, o.source) && HasEntity(found, o.target))
  }

  ghost predicate HasEntity(found: seq<Occurrence>, key: EntityKey) {
    exists e :: e in found && e.Entity? && e.key == key
  }

  /** Changing documents that are neither named nor linked changes nothing. */
  ghost predicate Dependent(x: Extractor, c: Chunk, d: Document, a: Documents, b: Documents) {
    (LinksFromText(c) && ShowsTargets(d.frontmatter) && c.path == d.path && Paths(a) && Paths(b)
     && NoNamedMoved(c, d, a, b) && EntitiesUnchanged(x(c, d, a), a, b))
    ==> x(c, d, a) == x(c, d, b)
  }

  ghost predicate Lawful(x: Extractor) {
    && (forall c: Chunk, d: Document, docs: Documents :: WellPlaced(x(c, d, docs), c))
    && (forall c: Chunk, d: Document, a: Documents, b: Documents :: Dependent(x, c, d, a, b))
  }

  const Deterministic: Extractor := (c, d, docs) => ChunkOccurrences(c, d, docs)

  lemma LinkStays(c: Chunk, d: Document, a: Documents, b: Documents, l: Link)
    requires LinksFromText(c) && l in c.links && NoNamedMoved(c, d, a, b) && Paths(a) && Paths(b)
    requires EntitiesUnchanged(ChunkOccurrences(c, d, a), a, b)
    ensures TargetOf(a, c.path, l.target) == TargetOf(b, c.path, l.target)
  {
    TextShowsTarget(c, l);
    assert SameNamed(a.Keys, b.Keys, TargetName(l.target));
    ResolveDependsOnName(a.Keys, b.Keys, c.path, l.target);
    ResolvedHasName(a.Keys, c.path, l.target);
    ResolvedHasName(b.Keys, c.path, l.target);
    var target := Resolve(a.Keys, c.path, l.target);
    if target.Some? {
      var o := LinkedByText(c, d, a, l, target.value);
    }
  }

  lemma FrontmatterLinkStays(c: Chunk, d: Document, a: Documents, b: Documents, t: (Field, string))
    requires ShowsTargets(d.frontmatter) && t in CleanTargets(d.frontmatter.targets)
    requires NoNamedMoved(c, d, a, b) && Paths(a) && Paths(b)
    requires EntitiesUnchanged(ChunkOccurrences(c, d, a), a, b)
    ensures TargetOf(a, d.path, t.1) == TargetOf(b, d.path, t.1)
  {
    if SurvivesRepr(Stem(TargetName(t.1))) {
      FrontmatterShowsTarget(d.frontmatter, t);
    }
    assert CanBeAsked(TargetName(t.1));
    assert SameNamed(a.Keys, b.Keys, TargetName(t.1));
    ResolveDependsOnName(a.Keys, b.Keys, d.path, t.1);
    ResolvedHasName(a.Keys, d.path, t.1);
    ResolvedHasName(b.Keys, d.path, t.1);
    var target := Resolve(a.Keys, d.path, t.1);
    if target.Some? {
      var o := LinkedByFrontmatter(c, d, a, t, target.value);
    }
  }

  lemma DependsOnNamedAndLinked(c: Chunk, d: Document, a: Documents, b: Documents)
    requires LinksFromText(c) && ShowsTargets(d.frontmatter) && c.path == d.path
    requires NoNamedMoved(c, d, a, b) && Paths(a) && Paths(b)
    requires EntitiesUnchanged(ChunkOccurrences(c, d, a), a, b)
    ensures ChunkOccurrences(c, d, a) == ChunkOccurrences(c, d, b)
  {
    forall l | l in c.links ensures TargetOf(a, c.path, l.target) == TargetOf(b, c.path, l.target) {
      LinkStays(c, d, a, b, l);
    }
    forall t | t in CleanTargets(d.frontmatter.targets) ensures TargetOf(a, d.path, t.1) == TargetOf(b, d.path, t.1) {
      FrontmatterLinkStays(c, d, a, b, t);
    }
    ExtractionIsLocal(c, d, a, b);
  }

  lemma ChunkWellPlaced(c: Chunk, d: Document, docs: Documents)
    ensures WellPlaced(ChunkOccurrences(c, d, docs), c)
  {
    var found, entities := ChunkOccurrences(c, d, docs), Entities(c, d, docs);
    OccurrencesAt(c, d, docs);
    var k := IdentityOccurs(c, d, docs);
    forall o | o in found && o.Relation? ensures HasEntity(found, o.source) && HasEntity(found, o.target) {
      var e :| e in entities && e.key == o.source;
      var f :| f in entities && f.key == o.target;
      assert e in found && f in found;
    }
  }

  /** The extractors the repository ships meet the guarantees. */
  lemma DeterministicIsLawful()
    ensures Lawful(Deterministic)
  {
    forall c: Chunk, d: Document, docs: Documents ensures WellPlaced(Deterministic(c, d, docs), c) {
      ChunkWellPlaced(c, d, docs);
    }
    forall c: Chunk, d: Document, a: Documents, b: Documents ensures Dependent(Deterministic, c, d, a, b) {
      DeterministicDepends(c, d, a, b);
    }
  }

  lemma DeterministicDepends(c: Chunk, d: Document, a: Documents, b: Documents)
    ensures Dependent(Deterministic, c, d, a, b)
  {
    if LinksFromText(c) && ShowsTargets(d.frontmatter) && c.path == d.path && Paths(a) && Paths(b)
       && NoNamedMoved(c, d, a, b) && EntitiesUnchanged(ChunkOccurrences(c, d, a), a, b) {
      DependsOnNamedAndLinked(c, d, a, b);
    }
  }
}
