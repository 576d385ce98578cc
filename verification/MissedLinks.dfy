/** Where the incremental run does miss a link: file names that change when frontmatter text is quoted. */
module MissedLinks {
  import opened Core
  import opened Text
  import opened SourcePaths
  import opened LinkResolution
  import opened Extraction
  import opened GraphIndex
  import opened GraphStores

  // ---- The names of files ----

  /** A document can have this file name. */
  predicate IsFileName(file: string) {
    IsSourcePath(["docs", file])
  }

  /** A document can have the file name `name`.md, and a link can ask for it. */
  predicate Askable(name: string) {
    IsFileName(name + ".md") && '|' !in name && '#' !in name
  }

  /** A single quote after the first character, which quoting puts a backslash before. */
  ghost predicate InnerQuote(name: string, j: int) {
    1 <= j < |name| && name[j] == '\''
  }

  /** What to look at: a file name survives when it is printable and has no single quote but perhaps at its start. */
  lemma FileNameSurvives(name: string)
    requires '\\' !in name
    ensures SurvivesRepr(name) <==> (forall c :: c in name ==> Printable(c)) && forall j :: !InnerQuote(name, j)
  {
    if c :| c in name && !Printable(c) {
      UnprintableHides(name, c);
    } else if j :| InnerQuote(name, j) {
      InnerQuoteHides(name, j);
    } else {
      PrintableSurvives(name);
    }
  }

  lemma UnprintableHides(name: string, c: char)
    requires c in name && !Printable(c)
    ensures !SurvivesRepr(name)
  {
    EscapedIsPrintable(name, '\'');
    if Contains(Escaped(name, '\''), name) {
      PartChars(Escaped(name, '\''), name);
    }
  }

  lemma {:induction false} EscapedIsPrintable(s: string, q: char)
    requires Printable(q)
    ensures forall c :: c in Escaped(s, q) ==> Printable(c)
  {
    if s != [] {
      EscapedIsPrintable(s[1..], q);
      EscapedHead(s, q);
      DigitsArePrintable(s[0] as int);
      assert forall c :: c in EscapedChar(s[0], q) ==> Printable(c);
    }
  }

  lemma EscapedHead(s: string, q: char)
    requires s != []
    ensures Escaped(s, q) == EscapedChar(s[0], q) + Escaped(s[1..], q)
  {
  }

  lemma {:induction false} DigitsArePrintable(n: nat)
    ensures forall c :: c in Digits(n) ==> '0' <= c <= '9'
  {
    if n >= 10 {
      DigitsArePrintable(n / 10);
    }
  }

  /** Every single quote in `s` comes after a character of `before`; `first` is what comes before `s`. */
  ghost predicate QuotesAfter(s: string, first: char, before: set<char>) {
    forall k :: QuoteAfter(s, first, before, k)
  }

  ghost predicate QuoteAfter(s: string, first: char, before: set<char>, k: int) {
    0 <= k < |s| && s[k] == '\'' ==> (if k == 0 then first else s[k - 1]) in before
  }

  lemma QuotesJoin(a: string, b: string, first: char, before: set<char>)
    requires QuotesAfter(a, first, before) && QuotesAfter(b, if a == [] then first else a[|a| - 1], before)
    ensures QuotesAfter(a + b, first, before)
  {
    forall k ensures QuoteAfter(a + b, first, before, k) {
      assert QuoteAfter(a, first, before, k);
      assert QuoteAfter(b, if a == [] then first else a[|a| - 1], before, k - |a|);
    }
  }

  lemma {:induction false} EscapedQuotes(s: string, first: char, before: set<char>)
    requires '\\' in before
    ensures QuotesAfter(Escaped(s, '\''), first, before)
  {
    if s != [] {
      var head := EscapedChar(s[0], '\'');
      EscapedHead(s, '\'');
      DigitsArePrintable(s[0] as int);
      forall k | 0 <= k < |head| && head[k] == '\'' ensures k == 1 && head[0] == '\\' {
        assert head[k] in head;
      }
      EscapedQuotes(s[1..], head[|head| - 1], before);
      QuotesJoin(head, Escaped(s[1..], '\''), first, before);
    }
  }

  lemma QuoteAt(s: string, first: char, before: set<char>, part: string, j: int)
    requires QuotesAfter(s, first, before) && Contains(s, part) && InnerQuote(part, j)
    ensures part[j - 1] in before
  {
    var i: nat :| HasAt(s, part, i);
    assert s[i..i + |part|][j] == s[i + j] && s[i..i + |part|][j - 1] == s[i + j - 1];
    assert QuoteAfter(s, first, before, i + j);
  }

  lemma InnerQuoteHides(name: string, j: int)
    requires '\\' !in name && InnerQuote(name, j)
    ensures !SurvivesRepr(name)
  {
    EscapedQuotes(name, ' ', {'\\'});
    if Contains(Escaped(name, '\''), name) {
      QuoteAt(Escaped(name, '\''), ' ', {'\\'}, name, j);
    }
  }

  lemma PrintableSurvives(name: string)
    requires '\\' !in name && (forall c :: c in name ==> Printable(c)) && forall j :: !InnerQuote(name, j)
    ensures SurvivesRepr(name)
  {
    if '\'' !in name {
      PlainSurvives(name);
    } else {
      var k :| 0 <= k < |name| && name[k] == '\'';
      assert !InnerQuote(name, k);
      var rest := name[1..];
      forall c | c in rest ensures Printable(c) && c != '\\' && c != '\'' {
        var i :| 0 <= i < |rest| && rest[i] == c;
        assert name[i + 1] == c && !InnerQuote(name, i + 1);
      }
      assert name == "\'" + rest;
      QuoteFirstSurvives(rest);
    }
  }

  /** A quote at the start of a name stays next to it, with the backslash before both. */
  lemma QuoteFirstSurvives(rest: string)
    requires forall c :: c in rest ==> Printable(c) && c != '\\' && c != '\''
    ensures SurvivesRepr("\'" + rest)
  {
    var name := "\'" + rest;
    EscapedHead(name, '\'');
    PlainIsUnescaped(rest, '\'');
    ContainsPart("\\", name, "");
    assert Escaped(name, '\'') == "\\" + name + "";
    if '\"' !in name {
      PlainIsUnescaped(name, '\"');
      PrefixPart(name, name);
    }
  }

  // ---- Exactly which files frontmatter values show ----

  /** A frontmatter value that asks for the file `name`.md. */
  ghost predicate AsksFor(value: string, name: string) {
    TargetName(Trim(value)) == name + ".md"
  }

  /** A path to the file, with or without a caption. */
  function PathTo(name: string, caption: string): string {
    "docs/" + (name + ".md") + caption
  }

  lemma AskableName(name: string)
    requires Askable(name)
    ensures '\\' !in name && '/' !in name && EndsWith(name + ".md", ".md") && Stem(name + ".md") == name
    ensures var file := name + ".md"; CanBeAsked(file) && '/' !in file && '|' !in file && '#' !in file
  {
    var file := name + ".md";
    assert file in ["docs", file];
    assert forall c :: c in name ==> c in file;
    assert file[|file| - 3..] == ".md" && file[..|file| - 3] == name;
    assert forall c :: c in file ==> c in name || c in ".md";
    AskedExactly(file);
  }

  lemma PathAsksFor(name: string, caption: string)
    requires Askable(name) && IsCaption(caption)
    ensures AsksFor(PathTo(name, caption), name) && Trim(PathTo(name, caption)) == PathTo(name, caption)
    ensures LinkBody(PathTo(name, caption)) == "docs/" + (name + ".md")
  {
    AskableName(name);
    PathAsks(name + ".md", caption);
  }

  /**
   * Every frontmatter value that asks for a file shows the file's name when the frontmatter is turned into text,
   * if and only if the name survives quoting.
   */
  lemma ShownExactly(name: string)
    requires Askable(name)
    ensures SurvivesRepr(name) <==> forall v :: AsksFor(v, name) ==> Contains(Escaped(v, Quote(v)), name)
  {
    if SurvivesRepr(name) {
      forall v | AsksFor(v, name) ensures Contains(Escaped(v, Quote(v)), name) {
        AskingContains(v, name);
        SurvivesInside(name, v);
      }
    } else {
      var v := HiddenValue(name);
    }
  }

  lemma AskingContains(v: string, name: string)
    requires Askable(name) && AsksFor(v, name)
    ensures Contains(v, name)
  {
    AskableName(name);
    RawContainsStem(Trim(v));
    TrimPart(v);
    ContainsTransitive(v, Trim(v), name);
  }

  /** A value that asks for a name that does not survive, and does not show it: a path to it with a caption. */
  lemma HiddenValue(name: string) returns (v: string)
    requires Askable(name) && !SurvivesRepr(name)
    ensures AsksFor(v, name) && !Contains(Escaped(v, Quote(v)), name)
  {
    v := PathTo(name, "|\"");
    AskableName(name);
    CaptionsFit();
    PathAsksFor(name, "|\"");
    QuotedPath(name, "|\"");
    FileNameSurvives(name);
    EscapedIsPrintable(v, '\'');
    EscapedQuotes(v, 'x', {'\\'});
    if Contains(Escaped(v, '\''), name) {
      PartChars(Escaped(v, '\''), name);
      var j :| InnerQuote(name, j);
      QuoteAt(Escaped(v, '\''), 'x', {'\\'}, name, j);
    }
  }

  /** A caption with a double quote puts the value in single quotes. */
  lemma QuotedPath(name: string, caption: string)
    requires caption in ["|\"", "|\"x"]
    ensures Quote(PathTo(name, caption)) == '\''
    ensures var e := Escaped(PathTo(name, caption), '\''); e != "" && e[|e| - 1] == caption[|caption| - 1]
  {
    var v := PathTo(name, caption);
    var front := "docs/" + (name + ".md");
    assert caption[1] in caption && v == front + caption;
    EscapedJoin(front, caption, '\'');
    PlainIsUnescaped(caption, '\'');
  }

  // ---- A note whose frontmatter does not show the name it asks for ----

  /** Frontmatter that holds a value: alone, in a list, or after another field. */
  datatype Shape = Alone | InList | AfterOther
  {
    function Start(): string {
      if AfterOther? then "{\"I\'m\": 1, \'" else "{\'"
    }

    function Open(): string {
      if InList? then "\': [" else "\': "
    }

    function Close(): string {
      if InList? then "]}" else "}"
    }

    /** What the quotes around the key and the value come after, apart from the key and the value. */
    function Around(): set<char> {
      match this
      case Alone => {'{', ' '}
      case InList => {'{', '['}
      case AfterOther => {'I', ' '}
    }
  }

  /** The text of a dictionary with the value under the key. */
  function DictText(shape: Shape, key: string, v: string): string {
    shape.Start() + key + shape.Open() + Repr(v) + shape.Close()
  }

  /** A note that links to a file by a frontmatter field. */
  datatype Case = Case(name: string, shape: Shape, field: Field, key: string, caption: string)
  {
    function Value(): string {
      PathTo(name, caption)
    }

    function File(): string {
      name + ".md"
    }

    function Added(): Path {
      ["docs", File()]
    }

    function NoteDoc(): Document {
      Document(0, Note, Frontmatter("", None, [], [], [(field, Value())], [], DictText(shape, key, Value())))
    }

    function AddedDoc(): Document {
      Document(1, Added(), Frontmatter("", None, [], [], [], [], "{}"))
    }

    function AddedChunk(): Chunk {
      Chunk(1, 1, Added(), "y", [], None, None, 0)
    }

    function Before(): Library {
      map[Note := Page(NoteDoc(), [NoteChunk])]
    }

    function After(): Library {
      Before()[Added() := Page(AddedDoc(), [AddedChunk()])]
    }

    /** The occurrences of the two documents' own entities. */
    function OfNote(): Occurrence {
      DocumentEntity(NoteChunk, NoteDoc(), Identity, None)
    }

    function OfAdded(): Occurrence {
      DocumentEntity(AddedChunk(), AddedDoc(), Identity, None)
    }
  }

  const Note: Path := ["docs", "p.md"]
  const NoteChunk := Chunk(0, 0, Note, "", [], None, None, 0)

  /** The note asks for the file and does not show its name. */
  ghost predicate Hides(k: Case) {
    && Askable(k.name) && k.name != "p" && IsCaption(k.caption)
    && !Contains(DictText(k.shape, k.key, k.Value()), k.name)
  }

  /** For every name that does not survive there is such a note. */
  lemma HidingNote(name: string) returns (k: Case)
    requires Askable(name) && !SurvivesRepr(name)
    ensures k.name == name && Hides(k)
  {
    NotP(name);
    CaptionsFit();
    AskableName(name);
    FileNameSurvives(name);
    if c :| c in name && !Printable(c) {
      k := Case(name, Alone, Related, "related", "|\"");
      UnprintableNote(k, c);
    } else {
      k := QuotedHides(name);
    }
  }

  lemma NotP(name: string)
    requires !SurvivesRepr(name)
    ensures name != "p"
  {
    PlainSurvives("p");
  }

  lemma CaptionsFit()
    ensures IsCaption("|\"") && IsCaption("|\"x")
  {
  }

  lemma QuotedHides(name: string) returns (k: Case)
    requires '\\' !in name && exists j :: InnerQuote(name, j)
    ensures k.name == name && k.caption in ["|\"", "|\"x"] && !Contains(DictText(k.shape, k.key, k.Value()), name)
  {
    var j :| InnerQuote(name, j);
    k := QuotedCase(name, name[j - 1]);
    QuotedNote(k, j);
  }

  /** A shape in which no quote comes after the character before the quote of the name. */
  function QuotedCase(name: string, before: char): Case {
    Case(name, if before == ' ' then InList else if before == '{' then AfterOther else Alone,
         if before == 'd' then Blocks else Related, if before == 'd' then "blocks" else "related",
         if before == '\"' then "|\"x" else "|\"")
  }

  lemma UnprintableNote(k: Case, c: char)
    requires c in k.name && !Printable(c) && k.shape.Alone? && k.key == "related" && k.caption == "|\""
    ensures !Contains(DictText(k.shape, k.key, k.Value()), k.name)
  {
    var q := Quote(k.Value());
    EscapedIsPrintable(k.Value(), q);
    FrameIsPrintable();
    assert forall x :: x in [q] + Escaped(k.Value(), q) + [q] ==> Printable(x);
    if Contains(DictText(k.shape, k.key, k.Value()), k.name) {
      PartChars(DictText(k.shape, k.key, k.Value()), k.name);
    }
  }

  lemma FrameIsPrintable()
    ensures forall x :: x in Alone.Start() || x in "related" || x in Alone.Open() || x in Alone.Close() ==> Printable(x)
  {
  }

  lemma QuotedNote(k: Case, j: int)
    requires InnerQuote(k.name, j) && '\\' !in k.name && k == QuotedCase(k.name, k.name[j - 1])
    ensures !Contains(DictText(k.shape, k.key, k.Value()), k.name)
  {
    var before := k.shape.Around() + {k.key[|k.key| - 1], '\\', k.caption[|k.caption| - 1]};
    DictQuotes(k.shape, k.key, k.name, k.caption, before);
    if Contains(DictText(k.shape, k.key, k.Value()), k.name) {
      QuoteAt(DictText(k.shape, k.key, k.Value()), 'x', before, k.name, j);
    }
  }

  lemma HeadQuotes(shape: Shape, key: string, before: set<char>)
    requires key != "" && '\'' !in key && shape.Around() + {key[|key| - 1]} <= before
    ensures QuotesAfter(shape.Start() + key + shape.Open(), 'x', before)
    ensures shape.Open()[|shape.Open()| - 1] in before
  {
    assert QuotesAfter(shape.Start(), 'x', before);
    assert QuotesAfter(key, shape.Start()[|shape.Start()| - 1], before);
    assert QuotesAfter(shape.Open(), key[|key| - 1], before);
    QuotesJoin(shape.Start(), key, 'x', before);
    QuotesJoin(shape.Start() + key, shape.Open(), 'x', before);
  }

  /** Quotes around a value, when the value's own come after a backslash. */
  lemma ValueQuotes(head: string, e: string, close: string, before: set<char>)
    requires head != "" && head[|head| - 1] in before && QuotesAfter(head, 'x', before)
    requires e != "" && e[|e| - 1] in before && QuotesAfter(e, '\'', before) && '\'' !in close
    ensures QuotesAfter(head + ("\'" + e + "\'") + close, 'x', before)
  {
    QuotesJoin(head, "\'", 'x', before);
    QuotesJoin(head + "\'", e, 'x', before);
    QuotesJoin(head + "\'" + e, "\'", 'x', before);
    QuotesJoin(head + "\'" + e + "\'", close, 'x', before);
    assert head + ("\'" + e + "\'") + close == head + "\'" + e + "\'" + close;
  }

  lemma DictQuotes(shape: Shape, key: string, name: string, caption: string, before: set<char>)
    requires key != "" && '\'' !in key && caption in ["|\"", "|\"x"]
    requires before == shape.Around() + {key[|key| - 1], '\\', caption[|caption| - 1]}
    ensures QuotesAfter(DictText(shape, key, PathTo(name, caption)), 'x', before)
  {
    var v := PathTo(name, caption);
    QuotedPath(name, caption);
    var e := Escaped(v, '\'');
    EscapedQuotes(v, '\'', before);
    HeadQuotes(shape, key, before);
    ValueQuotes(shape.Start() + key + shape.Open(), e, shape.Close(), before);
  }

  // ---- What the note's run extracts ----

  /** A document without links, tags or section yields its own entity and nothing else. */
  lemma OnlyIdentity(c: Chunk, d: Document, docs: Documents)
    requires d.frontmatter.tags == [] && d.frontmatter.revisitWhen == [] && c.links == [] && c.section == None
    requires TargetEntities(c, d.path, docs, CleanTargets(d.frontmatter.targets)) == []
    ensures ChunkOccurrences(c, d, docs) == [DocumentEntity(c, d, Identity, None)]
  {
    var o := DocumentEntity(c, d, Identity, None);
    assert RawEntities(c, d, docs) == [o];
    assert Dedupe([o]) == [o] by {
      assert [o][..0] == [];
    }
    assert RelationsFrom(o.key, [o]) == [] by {
      assert [o][..0] == [];
    }
  }

  lemma NoteTargets(k: Case)
    requires Hides(k)
    ensures CleanTargets(k.NoteDoc().frontmatter.targets) == [(k.field, k.Value())]
  {
    PathAsksFor(k.name, k.caption);
  }

  /** No two slashes follow each other in the path, and it starts with a folder. */
  lemma NotExternal(name: string, caption: string)
    requires '/' !in name && IsCaption(caption)
    ensures !External(PathTo(name, caption))
  {
    var v, rest := PathTo(name, caption), name + ".md" + caption;
    assert v == "docs/" + rest && '/' !in rest;
    forall i | 0 <= i < |v| ensures !HasAt(v, "://", i) {
      if i + 3 <= |v| {
        assert v[i..i + 3][1] == v[i + 1] && v[i..i + 3][2] == v[i + 2];
        assert i + 2 >= 5 ==> v[i + 2] == rest[i + 2 - 5] && rest[i + 2 - 5] in rest;
      }
    }
    assert |v| >= 7 ==> v[..7][0] == 'd';
  }

  lemma NoteAsks(k: Case)
    requires Hides(k)
    ensures NormalizeLinkTarget(Note, k.Value()) == Some(k.Added())
  {
    AskableName(k.name);
    PathAsksFor(k.name, k.caption);
    NotExternal(k.name, k.caption);
    FileInDocs(k.File());
    BodyResolves(Note, k.Value(), k.Added());
  }

  lemma BodyResolves(source: Path, raw: string, target: Path)
    requires !External(Trim(raw)) && LinkBody(raw) != []
    requires TargetPath(source, EnsureMd(LinkBody(raw))) == Some(target)
    ensures NormalizeLinkTarget(source, raw) == Some(target)
  {
  }

  lemma FileInDocs(file: string)
    requires EndsWith(file, ".md") && '/' !in file
    ensures EnsureMd("docs/" + file) == "docs/" + file && TargetPath(Note, "docs/" + file) == Some(["docs", file])
  {
    var body, parts := "docs/" + file, ["docs", file];
    assert body[|body| - 3..] == file[|file| - 3..];
    SplitJoin(parts);
    assert Join(parts, "/") == "docs" + "/" + file == body;
    assert file[|file| - 3..][1] == 'm';
    KeptTwo("docs", file);
    assert Parts(body) == [] + parts;
    FoldedTwo("docs", file);
    assert "docs" in CONTENT_ROOTS && Parts(body) == parts && parts != [];
    assert Normalized(parts) == Some(parts);
  }

  lemma FoldedTwo(a: string, b: string)
    requires a != ".." && b != ".."
    ensures Folded([], [a, b]) == Some([a, b])
  {
    assert [a, b][1..] == [b] && [b][1..] == [];
    assert Folded([a], [b]) == Folded([a] + [b], []);
    assert [] + [a] == [a] && [a] + [b] == [a, b];
  }

  lemma KeptTwo(a: string, b: string)
    requires a != "" && a != "." && b != "" && b != "."
    ensures Kept([a, b]) == [a, b]
  {
    assert [a, b][1..] == [b] && [b][1..] == [];
    assert Kept([b]) == [b];
  }

  /** The note's link finds the file once it is there. */
  lemma LinkFinds(k: Case, docs: Documents)
    requires Hides(k)
    ensures docs.Keys == {Note, k.Added()} ==> Resolve(docs.Keys, Note, k.Value()) == Some(k.Added())
    ensures docs.Keys == {Note} ==> Resolve(docs.Keys, Note, k.Value()) == None
  {
    NoteAsks(k);
    NamesDiffer(k);
  }

  lemma NamesDiffer(k: Case)
    requires k.name != "p"
    ensures FileName(Note) != k.File() && Note != k.Added() && FileName(k.Added()) == k.File()
  {
    assert k.File()[..|k.File()| - 3] == k.name;
    assert "p.md"[..1] == "p";
  }

  lemma OldNoteExtraction(k: Case)
    requires Hides(k)
    ensures ChunkOccurrences(NoteChunk, k.NoteDoc(), Docs(k.Before())) == [k.OfNote()]
  {
    NoteTargets(k);
    assert Docs(k.Before()).Keys == {Note};
    LinkFinds(k, Docs(k.Before()));
    OnlyIdentity(NoteChunk, k.NoteDoc(), Docs(k.Before()));
  }

  lemma NewNoteExtraction(k: Case) returns (o: Occurrence)
    requires Hides(k)
    ensures o in ChunkOccurrences(NoteChunk, k.NoteDoc(), Docs(k.After())) && o.Entity?
    ensures o.key.canonical == Some(k.Added()) && o.at == PlaceOf(NoteChunk)
  {
    NoteTargets(k);
    NamesDiffer(k);
    var docs := Docs(k.After());
    assert docs.Keys == {Note, k.Added()} && docs[k.Added()] == k.AddedDoc();
    LinkFinds(k, docs);
    o := LinkedByFrontmatter(NoteChunk, k.NoteDoc(), docs, (k.field, k.Value()), k.Added());
  }

  lemma Pages(k: Case)
    requires k.name != "p"
    ensures k.Before().Keys == {Note} && k.Before()[Note] == Page(k.NoteDoc(), [NoteChunk])
    ensures k.After().Keys == {Note, k.Added()} && k.After()[Note] == Page(k.NoteDoc(), [NoteChunk])
    ensures k.After()[k.Added()] == Page(k.AddedDoc(), [k.AddedChunk()]) && Note != k.Added()
    ensures NoteChunk.path == Note && k.AddedChunk().path == k.Added()
  {
    NamesDiffer(k);
  }

  /** Before, the note says only that it is there. */
  lemma OldOccurs(k: Case, o: Occurrence)
    requires Hides(k)
    ensures Extracted(Deterministic, k.Before())(o) <==> o == k.OfNote()
  {
    OldNoteExtraction(k);
    Pages(k);
    OwnersDiffer(k);
    OnlyPage(k.Before(), Note, NoteChunk, k.OfNote(), o);
  }

  lemma OnlyPage(lib: Library, p: Path, c: Chunk, one: Occurrence, o: Occurrence)
    requires lib.Keys == {p} && lib[p].chunks == [c] && one.at.path == p
    requires ChunkOccurrences(c, lib[p].document, Docs(lib)) == [one]
    ensures Extracted(Deterministic, lib)(o) <==> o == one
  {
    if o.at.path == p {
      OnePage(lib, p, c, o);
    }
  }

  /** Afterwards the file says only that it is there; whatever else there is sits in the note. */
  lemma NewOccurs(k: Case, o: Occurrence)
    requires k.name != "p"
    ensures o.at.path == k.Added() ==> (Extracted(Deterministic, k.After())(o) <==> o == k.OfAdded())
    ensures Extracted(Deterministic, k.After())(o) ==> o == k.OfAdded() || o.at == PlaceOf(NoteChunk)
  {
    Pages(k);
    if o.at.path == k.Added() {
      AddedOccurs(k, o);
    } else if o.at.path == Note {
      NoteOccurs(k, o);
    }
  }

  lemma NoteOccurs(k: Case, o: Occurrence)
    requires k.name != "p" && o.at.path == Note
    ensures Extracted(Deterministic, k.After())(o) ==> o.at == PlaceOf(NoteChunk)
  {
    Pages(k);
    OccurrencesAt(NoteChunk, k.NoteDoc(), Docs(k.After()));
    OnePage(k.After(), Note, NoteChunk, o);
  }

  lemma AddedOccurs(k: Case, o: Occurrence)
    requires k.name != "p" && o.at.path == k.Added()
    ensures Extracted(Deterministic, k.After())(o) <==> o == k.OfAdded()
  {
    Pages(k);
    OnlyIdentity(k.AddedChunk(), k.AddedDoc(), Docs(k.After()));
    OnePage(k.After(), k.Added(), k.AddedChunk(), o);
  }

  /** What a page of one chunk yields. */
  lemma OnePage(lib: Library, p: Path, c: Chunk, o: Occurrence)
    requires p in lib && lib[p].chunks == [c] && o.at.path == p
    ensures Extracted(Deterministic, lib)(o) <==> o in ChunkOccurrences(c, lib[p].document, Docs(lib))
  {
    assert c in lib[p].chunks;
  }

  lemma OwnersDiffer(k: Case)
    requires k.name != "p"
    ensures OwnerOf(k.OfAdded()) != OwnerOf(k.OfNote()) && k.OfAdded().at.path == k.Added() && k.OfNote().at.path == Note
  {
    Pages(k);
  }

  lemma CaseIsWellFormed(k: Case)
    requires Hides(k)
    ensures WellFormed(k.Before()) && WellFormed(k.After()) && SameOutside(k.Before(), k.After(), {k.Added()})
  {
    Pages(k);
    NoteShowsTarget(k);
    NotePath();
    PagesAreWellFormed(k.Before(), k.After(), Note, k.Added(), NoteChunk, k.AddedChunk());
  }

  lemma NotePath()
    ensures IsSourcePath(Note)
  {
    assert Note[0] == "docs" && Note[1] == "p.md";
  }

  lemma NoteShowsTarget(k: Case)
    ensures ShowsTargets(k.NoteDoc().frontmatter) && ShowsTargets(k.AddedDoc().frontmatter)
  {
    var f := k.NoteDoc().frontmatter;
    assert f.targets == [(k.field, k.Value())] && f.targets[1..] == [];
    assert TargetValues(f.targets) == [k.Value()];
    ContainsPart(k.shape.Start() + k.key + k.shape.Open(), Repr(k.Value()), k.shape.Close());
  }

  lemma PagesAreWellFormed(before: Library, after: Library, p: Path, q: Path, c: Chunk, d: Chunk)
    requires p != q && IsSourcePath(p) && IsSourcePath(q) && before.Keys == {p} && after.Keys == {p, q}
    requires after[p] == before[p] && before[p].chunks == [c] && after[q].chunks == [d]
    requires ShowsTargets(before[p].document.frontmatter) && ShowsTargets(after[q].document.frontmatter)
    requires before[p].document.path == p && after[q].document.path == q && c.path == p && d.path == q && c.id != d.id
    requires c.document == before[p].document.id && d.document == after[q].document.id && c.links == [] && d.links == []
    ensures WellFormed(before) && WellFormed(after) && SameOutside(before, after, {q})
  {
    OnePageWellFormed(before, p, c);
    OnePageWellFormed(after, p, c);
    OnePageWellFormed(after, q, d);
    PagesMakeWellFormed(before);
    PagesMakeWellFormed(after);
  }

  /** What a library of pages of one chunk each has to meet. */
  ghost predicate GoodPage(lib: Library, p: Path) {
    p in lib ==>
      && IsSourcePath(p) && lib[p].document.path == p && ShowsTargets(lib[p].document.frontmatter)
      && |lib[p].chunks| == 1 && var c := lib[p].chunks[0];
         c.path == p && c.document == lib[p].document.id && LinksFromText(c)
  }

  lemma PagesMakeWellFormed(lib: Library)
    requires forall p :: GoodPage(lib, p)
    requires forall p, q :: p in lib && q in lib && p != q ==> FirstId(lib, p) != FirstId(lib, q)
    ensures WellFormed(lib)
  {
    forall p, c | p in lib && c in lib[p].chunks
      ensures c == lib[p].chunks[0] && c.path == p && c.document == lib[p].document.id && LinksFromText(c)
    {
      assert GoodPage(lib, p);
    }
    forall c, d | IsChunk(lib, c) && IsChunk(lib, d) && c.id == d.id ensures c == d {
      assert GoodPage(lib, c.path) && GoodPage(lib, d.path);
      assert FirstId(lib, c.path) == c.id && FirstId(lib, d.path) == d.id;
    }
    forall p | p in lib
      ensures IsSourcePath(p) && lib[p].document.path == p && lib[p].chunks != [] && ShowsTargets(lib[p].document.frontmatter)
    {
      assert GoodPage(lib, p);
    }
  }

  function FirstId(lib: Library, p: Path): Id
    requires p in lib
  {
    if lib[p].chunks == [] then 0 else lib[p].chunks[0].id
  }

  lemma OnePageWellFormed(lib: Library, p: Path, c: Chunk)
    requires p in lib && lib[p].chunks == [c] && c.links == []
    ensures lib[p].chunks != [] && (forall e :: e in lib[p].chunks <==> e == c) && LinksFromText(c)
  {
  }

  // ---- The run that misses the note ----

  /** The record of a group of one. */
  function RecordFor(o: Occurrence): Record {
    Record(ShownName(o), Aliases(o), o.confidence, o.how)
  }

  lemma OnlyOne(occurs: Occurrence -> bool, o: Occurrence)
    requires forall q :: occurs(q) <==> q == o
    ensures RecordsOf(occurs, map[OwnerOf(o) := RecordFor(o)]) && EvidenceOf(occurs, map[RefIdOf(o) := RefOf(o)])
  {
    SortsFirstIsOrder();
    assert occurs(o) && SortsFirst(o, o);
    assert IsBest(occurs, OwnerOf(o), o);
    assert HasOwner(occurs, OwnerOf(o));
  }

  /** The run for the added file, over a graph of the metadata before. */
  function NoteView(k: Case): View {
    View(Deterministic, {OwnerOf(k.OfNote())}, map[RefIdOf(k.OfNote()) := RefOf(k.OfNote())], k.After(), {k.Added()})
  }

  lemma MovedNames(k: Case)
    requires Hides(k)
    ensures forall n :: n in NoteView(k).MovedStems() ==> n == k.name
  {
    assert k.File()[|k.File()| - 3..] == ".md" && k.File()[..|k.File()| - 3] == k.name;
    forall n | n in NoteView(k).MovedStems() ensures n == k.name {
    }
  }

  lemma HiddenIsNotEmpty(text: string, name: string)
    requires !Contains(text, name)
    ensures name != ""
  {
    PrefixPart(text, "");
  }

  lemma NoteUnnamed(k: Case, names: set<string>)
    requires Hides(k) && forall n :: n in names ==> n == k.name
    ensures !HasAnyOf(k.NoteDoc().frontmatter.text, names) && !HasAnyOf(NoteChunk.text, names)
  {
    HiddenIsNotEmpty(DictText(k.shape, k.key, k.Value()), k.name);
    assert !Contains("", k.name);
  }

  /** A run for one page over evidence of another that neither links to it nor names it selects that page alone. */
  lemma OnlyTouchedSelected(v: View, p: Path, q: Path, x: Path)
    requires v.touched == {q} && v.lib.Keys == {p, q} && p != q
    requires forall id :: id in v.evidence ==> !v.StandsForTouched(id.owner)
    requires !HasAnyOf(v.lib[p].document.frontmatter.text, v.MovedStems())
    requires forall c :: c in v.lib[p].chunks ==> !HasAnyOf(c.text, v.MovedStems())
    ensures v.Selected(x) <==> x == q
  {
  }

  lemma NoteNotSelected(k: Case, p: Path)
    requires Hides(k)
    ensures NoteView(k).Selected(p) <==> p == k.Added()
  {
    Pages(k);
    OwnersDiffer(k);
    MovedNames(k);
    NoteUnnamed(k, NoteView(k).MovedStems());
    OnlyTouchedSelected(NoteView(k), Note, k.Added(), p);
  }

  /** With one page selected, the records rebuilt are those it is evidence for. */
  lemma OnlyOneRebuilt(v: View, p: Path, one: Occurrence, w: Owner)
    requires (forall x :: v.Selected(x) <==> x == p) && one.at.path == p
    requires forall id :: id in v.evidence ==> v.evidence[id].path != p
    requires forall o: Occurrence :: o.at.path == p ==> (Extracted(v.x, v.lib)(o) <==> o == one)
    ensures v.Rebuilds(w) <==> w == OwnerOf(one)
  {
    assert Extracted(v.x, v.lib)(one);
    forall o | Occurs(v.x, v.lib, o) && v.Selected(o.at.path) ensures o == one {
      assert Extracted(v.x, v.lib)(o);
    }
  }

  lemma OnlyAddedRebuilt(k: Case, w: Owner)
    requires Hides(k)
    ensures NoteView(k).Rebuilds(w) <==> w == OwnerOf(k.OfAdded())
  {
    OwnersDiffer(k);
    Pages(k);
    forall x ensures NoteView(k).Selected(x) <==> x == k.Added() {
      NoteNotSelected(k, x);
    }
    forall o: Occurrence | o.at.path == k.Added() ensures Extracted(Deterministic, k.After())(o) <==> o == k.OfAdded() {
      NewOccurs(k, o);
    }
    OnlyOneRebuilt(NoteView(k), k.Added(), k.OfAdded(), w);
  }

  lemma OnlyAddedUsed(k: Case, o: Occurrence)
    requires Hides(k)
    ensures NoteView(k).Uses(o) <==> o == k.OfAdded()
  {
    var v := NoteView(k);
    OwnersDiffer(k);
    NoteNotSelected(k, o.at.path);
    OnlyAddedRebuilt(k, OwnerOf(o));
    OnlyAddedRebuilt(k, OwnerOf(k.OfNote()));
    NewOccurs(k, o);
    if v.Uses(o) {
      assert Extracted(Deterministic, k.After())(o);
      assert !v.OtherChunk(o.at.chunk);
    }
    NewOccurs(k, k.OfAdded());
    NoteNotSelected(k, k.Added());
  }

  /** A document-level run over a graph that mirrors the metadata before it. */
  ghost predicate IsRun(v: View, before: Library, stored: map<Owner, Stored>, rb: Rebuild) {
    && Follows(v, before) && v.known == stored.Keys && Mirrors(Extracted(v.x, before), stored, v.evidence)
    && RebuildOf(v.Used(), v.Rebuilt(), stored, v.evidence, rb)
  }

  /** Only files of this name come or go. */
  ghost predicate MovesOnly(v: View, file: string) {
    forall p :: v.Moved(p) ==> FileName(p) == file
  }

  /** It leaves the full extraction. */
  ghost predicate IsExact(v: View, stored: map<Owner, Stored>, rb: Rebuild, run: Lineage) {
    Mirrors(Extracted(v.x, v.lib), RecordsAfter(stored, rb, run), EvidenceAfter(v.evidence, rb))
  }

  function NoteStored(k: Case): map<Owner, Stored> {
    map[OwnerOf(k.OfNote()) := Stored(RecordFor(k.OfNote()), true, 0, {})]
  }

  /** A run that rebuilds a group of one. */
  function RebuildFor(o: Occurrence, stored: map<Owner, Stored>, evidence: map<RefId, Ref>): Rebuild {
    var w, kept := OwnerOf(o), map[RefIdOf(o) := RefOf(o)];
    var records := map[w := RecordFor(o)];
    Rebuild({w}, records, kept, map id | id in kept && (id !in evidence || evidence[id] != kept[id]) :: kept[id],
            set x | x in {w} && x !in records && x in LiveOwners(stored),
            |EntitiesIn(LiveOwners(stored))| - |EntitiesIn({w} * LiveOwners(stored))| + |EntitiesIn(records.Keys)|,
            |RelationsIn(LiveOwners(stored))| - |RelationsIn({w} * LiveOwners(stored))| + |RelationsIn(records.Keys)|)
  }

  lemma RebuildsOne(used: Occurrence -> bool, rebuilt: Owner -> bool, stored: map<Owner, Stored>,
                    evidence: map<RefId, Ref>, o: Occurrence)
    requires (forall q :: used(q) <==> q == o) && forall w :: rebuilt(w) <==> w == OwnerOf(o)
    ensures RebuildOf(used, rebuilt, stored, evidence, RebuildFor(o, stored, evidence))
  {
    OnlyOne(used, o);
  }

  /** What the run for the added file rebuilds: the added document's record alone. */
  function NoteRebuild(k: Case): Rebuild {
    RebuildFor(k.OfAdded(), NoteStored(k), NoteView(k).evidence)
  }

  lemma MirrorsOne(occurs: Occurrence -> bool, o: Occurrence, stored: map<Owner, Stored>, evidence: map<RefId, Ref>)
    requires forall q :: occurs(q) <==> q == o
    requires stored == map[OwnerOf(o) := Stored(RecordFor(o), true, 0, {})] && evidence == map[RefIdOf(o) := RefOf(o)]
    ensures Mirrors(occurs, stored, evidence)
  {
    OnlyOne(occurs, o);
    assert Live(stored) == map[OwnerOf(o) := RecordFor(o)];
  }

  lemma NoteMirrors(k: Case)
    requires Hides(k)
    ensures Mirrors(Extracted(Deterministic, k.Before()), NoteStored(k), NoteView(k).evidence)
  {
    var was, o := Extracted(Deterministic, k.Before()), k.OfNote();
    forall q ensures was(q) <==> q == o {
      OldOccurs(k, q);
    }
    MirrorsOne(was, o, NoteStored(k), NoteView(k).evidence);
  }

  lemma NoteFollows(k: Case)
    requires Hides(k)
    ensures Follows(NoteView(k), k.Before())
  {
    var v := NoteView(k);
    CaseIsWellFormed(k);
    DeterministicIsLawful();
    NoteMirrors(k);
    forall w | HasOwner(Extracted(v.x, k.Before()), w) ensures w in v.known {
      var o :| Extracted(v.x, k.Before())(o) && OwnerOf(o) == w;
      OldOccurs(k, o);
    }
  }

  lemma NoteRebuilds(k: Case)
    requires Hides(k)
    ensures RebuildOf(NoteView(k).Used(), NoteView(k).Rebuilt(), NoteStored(k), NoteView(k).evidence, NoteRebuild(k))
  {
    var used, rebuilt, o := NoteView(k).Used(), NoteView(k).Rebuilt(), k.OfAdded();
    forall q ensures used(q) <==> q == o {
      OnlyAddedUsed(k, q);
    }
    forall w ensures rebuilt(w) <==> w == OwnerOf(o) {
      OnlyAddedRebuilt(k, w);
    }
    RebuildsOne(used, rebuilt, NoteStored(k), NoteView(k).evidence, o);
  }

  lemma NoteMoves(k: Case)
    requires Hides(k)
    ensures MovesOnly(NoteView(k), k.File()) && NoteView(k).known == NoteStored(k).Keys
  {
  }

  lemma NoteRunIsRun(k: Case)
    requires Hides(k)
    ensures IsRun(NoteView(k), k.Before(), NoteStored(k), NoteRebuild(k)) && MovesOnly(NoteView(k), k.File())
  {
    NoteMirrors(k);
    NoteFollows(k);
    NoteRebuilds(k);
    NoteMoves(k);
  }

  lemma TwoRows(evidence: map<RefId, Ref>, stored: map<Owner, Stored>, was: Occurrence, o: Occurrence, q: Occurrence)
    requires evidence == map[RefIdOf(was) := RefOf(was)] && RefIdOf(q) != RefIdOf(was) && RefIdOf(q) != RefIdOf(o)
    ensures RefIdOf(q) !in EvidenceAfter(evidence, RebuildFor(o, stored, evidence))
  {
  }

  lemma MissedRow(now: Occurrence -> bool, stored: map<Owner, Stored>, evidence: map<RefId, Ref>, q: Occurrence)
    requires now(q) && RefIdOf(q) !in evidence
    ensures !Mirrors(now, stored, evidence)
  {
  }

  /** Adding the file makes the note's link resolve, and the run for that file leaves the note's evidence out. */
  lemma LinkIsMissed(k: Case, run: Lineage)
    requires Hides(k)
    ensures !IsExact(NoteView(k), NoteStored(k), NoteRebuild(k), run)
  {
    var o := NewNoteExtraction(k);
    var v := NoteView(k);
    Pages(k);
    OnePage(k.After(), Note, NoteChunk, o);
    RowsDiffer(k, o);
    TwoRows(v.evidence, NoteStored(k), k.OfNote(), k.OfAdded(), o);
    MissedRow(Extracted(v.x, v.lib), RecordsAfter(NoteStored(k), NoteRebuild(k), run), EvidenceAfter(v.evidence, NoteRebuild(k)), o);
  }

  lemma RowsDiffer(k: Case, o: Occurrence)
    requires k.name != "p" && o.Entity? && o.key.canonical == Some(k.Added()) && o.at == PlaceOf(NoteChunk)
    ensures RefIdOf(o) != RefIdOf(k.OfNote()) && RefIdOf(o) != RefIdOf(k.OfAdded())
  {
    Pages(k);
  }

  /**
   * Every document-level run in which only files of one name come or go leaves the full extraction, if and only if the
   * name survives quoting or no link can ask for it.
   */
  lemma RunsAreExactly(file: string)
    requires IsFileName(file)
    ensures Findable(file) <==>
      forall v, before, stored, rb, run :: IsRun(v, before, stored, rb) && MovesOnly(v, file) ==> IsExact(v, stored, rb, run)
  {
    if Findable(file) {
      forall v, before, stored, rb, run | IsRun(v, before, stored, rb) && MovesOnly(v, file)
        ensures IsExact(v, stored, rb, run)
      {
        FindableRun(v, before, stored, rb, run, file);
      }
    } else {
      AskedExactly(file);
      assert file == Stem(file) + ".md";
      var k := HidingNote(Stem(file));
      NoteRunIsRun(k);
      LinkIsMissed(k, Lineage(0, 0, {}, 0));
    }
  }

  lemma FindableRun(v: View, before: Library, stored: map<Owner, Stored>, rb: Rebuild, run: Lineage, file: string)
    requires IsRun(v, before, stored, rb) && MovesOnly(v, file) && Findable(file)
    ensures IsExact(v, stored, rb, run)
  {
    SelectionSuffices(v, before);
    IncrementalEqualsFull(Extracted(v.x, before), Extracted(v.x, v.lib), v.Used(), v.Rebuilt(), stored, v.evidence, rb, run);
  }

  /** Which files those are, by the characters of the name. */
  lemma FindableExactly(file: string)
    requires IsFileName(file)
    ensures Findable(file) <==>
      || !EndsWith(file, ".md") || '|' in file || '#' in file
      || ((forall c :: c in file ==> Printable(c)) && forall j :: !InnerQuote(file, j))
  {
    AskedExactly(file);
    assert file in ["docs", file];
    if EndsWith(file, ".md") {
      FileNameSurvives(Stem(file));
      StemChars(Stem(file), file);
    }
  }

  lemma StemChars(name: string, file: string)
    requires file == name + ".md"
    ensures (forall c :: c in file ==> Printable(c)) <==> forall c :: c in name ==> Printable(c)
    ensures (forall j :: !InnerQuote(file, j)) <==> forall j :: !InnerQuote(name, j)
  {
    assert forall c :: c in file <==> c in name || c in ".md";
    forall j ensures InnerQuote(file, j) <==> InnerQuote(name, j) {
      QuoteInStem(name, file, j);
    }
  }

  lemma QuoteInStem(name: string, file: string, j: int)
    requires file == name + ".md"
    ensures InnerQuote(file, j) <==> InnerQuote(name, j)
  {
    if |name| <= j < |file| {
      assert file[j] == ".md"[j - |name|];
    }
  }
}
