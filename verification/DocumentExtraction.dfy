/** Checking what an extractor returns for a document, and the contribution made from it. */
module DocumentExtraction {
  import opened Core
  import opened DocumentGraph

  /** A document as the caller gives it; `features` are the places its tags, headings and references stand at. */
  datatype Document = Document(id: Id, sourceRevision: Id, inputDigest: Id, text: string, locator: Option<Id>,
                               features: seq<Location>)

  datatype Extracted = Extracted(document: Id, inputDigest: Id, profileDigest: Id, entities: seq<EntityFact>,
                                 relations: seq<RelationFact>, evidence: seq<Location>, warnings: seq<Id>)

  datatype Profile = Profile(digest: Id, kinds: set<Id>, relations: set<Id>, excerptLimit: nat)

  const WHOLE_DOCUMENT := Location(DOCUMENT, None, None)

  ghost predicate KnownPlace(d: Document, l: Location) {
    l == WHOLE_DOCUMENT || l in d.features
  }

  ghost predicate PlacesGiven(locations: seq<Location>, evidence: seq<Location>) {
    locations != [] && forall l :: l in locations ==> l in evidence
  }

  function EntityKeys(entities: seq<EntityFact>): set<Key> {
    set f | f in entities :: f.key
  }

  function UsedPlaces(x: Extracted): set<Location> {
    (set f, l | f in x.entities && l in f.locations :: l) + set f, l | f in x.relations && l in f.locations :: l
  }

  ghost predicate ValidExtraction(d: Document, x: Extracted, profile: Profile) {
    && x.document == d.id && x.inputDigest == d.inputDigest && x.profileDigest == profile.digest
    && (forall l :: l in x.evidence ==> KnownPlace(d, l)) && Distinct(x.evidence)
    && (forall f :: f in x.entities ==> f.key.kind in profile.kinds && PlacesGiven(f.locations, x.evidence))
    && NamesItself(d, x.entities)
    && (forall f :: f in x.relations ==> ValidRelation(f, x, profile))
    && UsedPlaces(x) == Elements(x.evidence)
  }

  ghost predicate NamesItself(d: Document, entities: seq<EntityFact>) {
    exists f :: f in entities && f.key == Key(DOCUMENT, d.id) && WHOLE_DOCUMENT in f.locations
  }

  ghost predicate ValidRelation(f: RelationFact, x: Extracted, profile: Profile) {
    && f.edge.relation in profile.relations && PlacesGiven(f.locations, x.evidence)
    && f.edge.source in EntityKeys(x.entities) && f.edge.target in EntityKeys(x.entities)
  }

  predicate AllIn(locations: seq<Location>, evidence: seq<Location>) {
    forall l | l in locations :: l in evidence
  }

  /** The entity loop: every fact is allowed and placed, one of them names the document itself. */
  method CheckEntities(d: Document, x: Extracted, profile: Profile)
    returns (ok: bool, keys: set<Key>, used: set<Location>)
    ensures ok <==>
      NamesItself(d, x.entities)
      && forall f :: f in x.entities ==> f.key.kind in profile.kinds && PlacesGiven(f.locations, x.evidence)
    ensures ok ==> keys == EntityKeys(x.entities)
    ensures ok ==> used == set f, l | f in x.entities && l in f.locations :: l
  {
    keys, used := {}, {};
    var identity := false;
    for i := 0 to |x.entities|
      invariant forall f :: f in x.entities[..i] ==> f.key.kind in profile.kinds && PlacesGiven(f.locations, x.evidence)
      invariant identity <==> NamesItself(d, x.entities[..i])
      invariant keys == EntityKeys(x.entities[..i])
      invariant used == set f, l | f in x.entities[..i] && l in f.locations :: l
    {
      var f := x.entities[i];
      assert x.entities[..i + 1] == x.entities[..i] + [f];
      if f.key.kind !in profile.kinds || f.locations == [] || !AllIn(f.locations, x.evidence) {
        assert f in x.entities;
        return false, keys, used;
      }
      keys := keys + {f.key};
      used := used + set l | l in f.locations;
      if f.key == Key(DOCUMENT, d.id) && WHOLE_DOCUMENT in f.locations {
        identity := true;
      }
    }
    assert x.entities[..|x.entities|] == x.entities;
    ok := identity;
  }

  method CheckRelations(x: Extracted, profile: Profile, keys: set<Key>) returns (ok: bool, used: set<Location>)
    requires keys == EntityKeys(x.entities)
    ensures ok <==> forall f :: f in x.relations ==> ValidRelation(f, x, profile)
    ensures ok ==> used == set f, l | f in x.relations && l in f.locations :: l
  {
    used := {};
    for i := 0 to |x.relations|
      invariant forall f :: f in x.relations[..i] ==> ValidRelation(f, x, profile)
      invariant used == set f, l | f in x.relations[..i] && l in f.locations :: l
    {
      var f := x.relations[i];
      assert x.relations[..i + 1] == x.relations[..i] + [f];
      if f.edge.relation !in profile.relations || f.edge.source !in keys || f.edge.target !in keys
         || f.locations == [] || !AllIn(f.locations, x.evidence) {
        assert f in x.relations;
        return false, used;
      }
      used := used + set l | l in f.locations;
    }
    assert x.relations[..|x.relations|] == x.relations;
    ok := true;
  }

  predicate Unrepeated(s: seq<Location>) {
    forall i, j | 0 <= i < j < |s| :: s[i] != s[j]
  }

  method ValidateExtraction(d: Document, x: Extracted, profile: Profile) returns (ok: bool)
    ensures ok <==> ValidExtraction(d, x, profile)
  {
    if x.document != d.id || x.inputDigest != d.inputDigest || x.profileDigest != profile.digest {
      return false;
    }
    var known := {WHOLE_DOCUMENT} + set l | l in d.features;
    if (exists l :: l in x.evidence && l !in known) || !Unrepeated(x.evidence) {
      return false;
    }
    var entitiesOk, keys, used := CheckEntities(d, x, profile);
    if !entitiesOk {
      return false;
    }
    var relationsOk, usedToo := CheckRelations(x, profile, keys);
    if !relationsOk {
      return false;
    }
    ok := used + usedToo == set l | l in x.evidence;
  }

  // ---- The contribution ----

  /** `text[first:end]`, cut off at the end of the text. */
  function Slice(text: string, first: nat, end: nat): string {
    var stop := if end <= |text| then end else |text|;
    if first <= stop then text[first..stop] else []
  }

  /** The quoted text of a place, cut to the profile's limit; no text at all when the limit is zero. */
  function ExcerptOf(text: string, span: Option<Span>, limit: nat): Excerpt {
    if span.None? then Excerpt(None, false)
    else
      var quoted := Slice(text, span.value.first, span.value.end);
      if limit == 0 then Excerpt(None, false)
      else Excerpt(Some(if |quoted| > limit then quoted[..limit] else quoted), |quoted| > limit)
  }

  function PreparedRow(d: Document, x: Extracted, digest: Extracted -> Id, profile: Profile): Row {
    Row(d.id, d.sourceRevision, d.inputDigest, digest(x), d.locator, x.entities, x.relations,
        map l | l in x.evidence :: ExcerptOf(d.text, l.span, profile.excerptLimit), set w | w in x.warnings)
  }

  /**
   * An excerpt is the beginning of the quoted text, whole when it fits the limit, and says whether it was cut. There is
   * none without a place or under a limit of zero.
   */
  lemma ExcerptShows(text: string, span: Span, limit: nat)
    requires span.first <= span.end
    ensures ExcerptOf(text, None, limit) == ExcerptOf(text, Some(span), 0) == Excerpt(None, false)
    ensures var e := ExcerptOf(text, Some(span), limit); limit > 0 ==>
      && e.text.Some?
      && |e.text.value| <= limit && (span.first < |text| ==> e.text.value <= text[span.first..])
      && (!e.truncated ==> |e.text.value| == (if span.end <= |text| then span.end - span.first
                                              else if span.first <= |text| then |text| - span.first else 0))
      && (e.truncated ==> |e.text.value| == limit && span.first + limit < span.end && span.first + limit < |text|)
  {
  }

  /** What the checks accept gives a contribution the store's subset reads can rest on. */
  lemma PreparedIsValid(d: Document, x: Extracted, digest: Extracted -> Id, profile: Profile)
    requires ValidExtraction(d, x, profile)
    ensures ValidRow(PreparedRow(d, x, digest, profile))
  {
    var row := PreparedRow(d, x, digest, profile);
    forall f | f in row.relations ensures HasFact(row, f.edge.source) && HasFact(row, f.edge.target) {
      assert ValidRelation(f, x, profile);
      var e :| e in x.entities && e.key == f.edge.source;
      var g :| g in x.entities && g.key == f.edge.target;
      assert e in row.entities && g in row.entities;
    }
    var f :| f in x.entities && f.key == Key(DOCUMENT, d.id) && WHOLE_DOCUMENT in f.locations;
    assert HasFact(row, f.key);
    forall f | f in row.relations ensures PlacesGiven(f.locations, x.evidence) {
      assert ValidRelation(f, x, profile);
    }
  }
}
