/** Resolving a local link to a document by exact path or by unique file name. */
module LinkResolution {
  import opened Core
  import opened Text
  import opened SourcePaths

  /** A vault-relative path as its components. */
  type Path = seq<string>

  const CONTENT_ROOTS: set<string> := {"raw", "wiki", "docs", "scratch"}

  function EnsureMd(path: string): string {
    if EndsWith(path, ".md") then path else path + ".md"
  }

  /** `name.removesuffix(".md")`. */
  function Stem(name: string): string {
    if EndsWith(name, ".md") then name[..|name| - 3] else name
  }

  function FileName(path: Path): string {
    if path == [] then "" else path[|path| - 1]
  }

  function Kept(parts: seq<string>): seq<string> {
    if parts == [] then []
    else (if parts[0] == "" || parts[0] == "." then [] else [parts[0]]) + Kept(parts[1..])
  }

  /** The components pathlib sees: empty and `.` ones dropped, an absolute path marked by a leading `/`. */
  function Parts(path: string): seq<string> {
    (if path != [] && path[0] == '/' then ["/"] else []) + Kept(Split(path, '/'))
  }

  // ---- Lexical normalization ----

  /** Fold `parts` onto `stack`, `..` popping; None when it would leave the vault. */
  function Folded(stack: Path, parts: seq<string>): Option<Path>
    decreases |parts|
  {
    if parts == [] then Some(stack)
    else if parts[0] == ".." then
      if stack == [] then None else Folded(stack[..|stack| - 1], parts[1..])
    else Folded(stack + [parts[0]], parts[1..])
  }

  function InVault(path: Path): Option<Path> {
    if path == [] || path[0] !in CONTENT_ROOTS then None else Some(path)
  }

  function Normalized(parts: seq<string>): Option<Path> {
    match Folded([], parts)
    case None => None
    case Some(path) => InVault(path)
  }

  /** The stack loop of the source computes the fold, skipping empty and `.` components as it goes. */
  method NormalizeVaultRelativePath(parts: seq<string>) returns (r: Option<Path>)
    ensures r == Normalized(Kept(parts))
  {
    var stack: Path := [];
    for i := 0 to |parts|
      invariant Folded(stack, Kept(parts[i..])) == Folded([], Kept(parts))
    {
      assert parts[i..][0] == parts[i] && parts[i..][1..] == parts[i + 1..];
      if parts[i] == "" || parts[i] == "." {
        assert Kept(parts[i..]) == Kept(parts[i + 1..]);
        continue;
      }
      assert Kept(parts[i..]) == [parts[i]] + Kept(parts[i + 1..]);
      assert Kept(parts[i..])[1..] == Kept(parts[i + 1..]);
      if parts[i] == ".." {
        if stack == [] {
          return None;
        }
        stack := stack[..|stack| - 1];
        continue;
      }
      stack := stack + [parts[i]];
    }
    assert parts[|parts|..] == [];
    if stack == [] || stack[0] !in CONTENT_ROOTS {
      return None;
    }
    return Some(stack);
  }

  // ---- Link targets ----

  predicate External(target: string) {
    target == [] || target[0] == '#' || HasScheme(target) || (|target| >= 7 && target[..7] == "mailto:")
  }

  predicate HasScheme(target: string) {
    exists i | 0 <= i < |target| :: HasAt(target, "://", i)
  }

  /** The part of a raw target that names a document: no alias, no fragment, no leading slash. */
  function LinkBody(raw: string): string {
    var target := Trim(Before(Before(Trim(raw), '|'), '#'));
    if target != [] && target[0] == '/' then target[1..] else target
  }

  function NormalizeLinkTarget(source: Path, raw: string): Option<Path> {
    if External(Trim(raw)) || Trim(Before(Before(Trim(raw), '|'), '#')) == [] then None
    else TargetPath(source, EnsureMd(LinkBody(raw)))
  }

  /** A Markdown target as a path from the vault, beside the source, or as a bare name. */
  function TargetPath(source: Path, target: string): Option<Path> {
    var parts := Parts(target);
    if parts == [] then None
    else if parts[0] in CONTENT_ROOTS then Normalized(parts)
    else if '/' !in target then Some([target])
    else if parts[0] == "/" then Normalized(parts)
    else Normalized(Beside(source, parts))
  }

  function Beside(source: Path, parts: seq<string>): seq<string> {
    (if source == [] then [] else source[..|source| - 1]) + parts
  }

  // ---- Resolution ----

  function Named(documents: set<Path>, name: string): set<Path> {
    set p | p in documents && FileName(p) == name
  }

  /** The only document with this file name, if there is exactly one. */
  function UniqueNamed(documents: set<Path>, name: string): Option<Path> {
    var matches := Named(documents, name);
    if |matches| == 1 then
      OneElement(matches);
      var p :| p in matches; Some(p)
    else None
  }

  lemma OneElement(s: set<Path>)
    requires |s| == 1
    ensures forall p, q :: p in s && q in s ==> p == q
  {
    forall p, q | p in s && q in s ensures p == q {
      SubsetSize({p, q}, s);
    }
  }

  function Resolve(documents: set<Path>, source: Path, raw: string): Option<Path> {
    match NormalizeLinkTarget(source, raw)
    case None => None
    case Some(target) => Locate(documents, target)
  }

  /** By exact path, or for a bare name by unique file name. */
  function Locate(documents: set<Path>, target: Path): Option<Path> {
    if target in documents then Some(target)
    else if |target| == 1 then UniqueNamed(documents, EnsureMd(target[0]))
    else None
  }

  /** The file name a raw target asks for. */
  function TargetName(raw: string): string {
    var parts := Split(EnsureMd(LinkBody(raw)), '/');
    parts[|parts| - 1]
  }

  /** Some link asks for a file of this name. */
  ghost predicate CanBeAsked(file: string) {
    exists raw :: TargetName(raw) == file
  }

  lemma {:induction false} KeptLast(parts: seq<string>)
    requires parts != [] && parts[|parts| - 1] != "" && parts[|parts| - 1] != "."
    ensures Kept(parts) != [] && Kept(parts)[|Kept(parts)| - 1] == parts[|parts| - 1]
  {
    if |parts| > 1 {
      assert parts[1..][|parts| - 2] == parts[|parts| - 1];
      KeptLast(parts[1..]);
    }
  }

  lemma {:induction false} FoldedLast(stack: Path, parts: seq<string>)
    requires parts != [] && parts[|parts| - 1] != ".."
    ensures Folded(stack, parts).Some? ==> FileName(Folded(stack, parts).value) == parts[|parts| - 1]
    decreases |parts|
  {
    if |parts| == 1 {
      assert Folded(stack + [parts[0]], []) == Some(stack + [parts[0]]);
    } else {
      assert parts[1..][|parts| - 2] == parts[|parts| - 1];
      if parts[0] == ".." {
        if stack != [] { FoldedLast(stack[..|stack| - 1], parts[1..]); }
      } else {
        FoldedLast(stack + [parts[0]], parts[1..]);
      }
    }
  }

  lemma MdEnding(s: string, k: nat)
    requires EndsWith(s, ".md") && k <= |s| && (k == 0 || s[k - 1] == '/')
    ensures EndsWith(s[k..], ".md") && |s| - k >= 3
  {
    var tail := s[|s| - 3..];
    assert tail[0] == s[|s| - 3] && tail[1] == s[|s| - 2] && tail[2] == s[|s| - 1];
    assert k <= |s| - 3;
    assert s[k..][|s| - k - 3..] == tail;
  }

  lemma TargetNameIsFile(raw: string)
    ensures var name := TargetName(raw);
      EndsWith(name, ".md") && name != "" && name != "." && name != ".." && name != "/"
    ensures EnsureMd(TargetName(raw)) == TargetName(raw)
  {
    var target := EnsureMd(LinkBody(raw));
    var k := SplitLast(target, '/');
    MdEnding(target, k);
  }

  lemma PartsLast(raw: string)
    ensures var parts := Parts(EnsureMd(LinkBody(raw)));
      parts != [] && parts[|parts| - 1] == TargetName(raw)
  {
    TargetNameIsFile(raw);
    KeptLast(Split(EnsureMd(LinkBody(raw)), '/'));
  }

  lemma BareName(target: string)
    requires '/' !in target
    ensures Split(target, '/') == [target]
  {
    var k := SplitLast(target, '/');
  }

  lemma NormalizedLast(parts: seq<string>)
    requires parts != [] && parts[|parts| - 1] != ".."
    ensures Normalized(parts).Some? ==> FileName(Normalized(parts).value) == parts[|parts| - 1]
  {
    FoldedLast([], parts);
  }

  /** Whatever a link resolves to has the file name the link asks for. */
  lemma TargetKeepsName(source: Path, raw: string)
    ensures NormalizeLinkTarget(source, raw).Some? ==>
      FileName(NormalizeLinkTarget(source, raw).value) == TargetName(raw)
  {
    var target := EnsureMd(LinkBody(raw));
    PartsLast(raw);
    TargetNameIsFile(raw);
    if '/' !in target {
      BareName(target);
    }
    TargetPathName(source, target, TargetName(raw));
  }

  lemma TargetPathName(source: Path, target: string, name: string)
    requires var parts := Parts(target); parts != [] && parts[|parts| - 1] == name && name != ".."
    requires '/' !in target ==> target == name
    ensures TargetPath(source, target).Some? ==> FileName(TargetPath(source, target).value) == name
  {
    var parts := Parts(target);
    NormalizedLast(parts);
    NormalizedLast(Beside(source, parts));
  }

  ghost predicate SameNamed(a: set<Path>, b: set<Path>, name: string) {
    forall p :: FileName(p) == name ==> (p in a <==> p in b)
  }

  /** A link can only resolve differently when a document with the name it asks for came or went. */
  lemma ResolveDependsOnName(a: set<Path>, b: set<Path>, source: Path, raw: string)
    requires SameNamed(a, b, TargetName(raw))
    ensures Resolve(a, source, raw) == Resolve(b, source, raw)
  {
    TargetKeepsName(source, raw);
    TargetNameIsFile(raw);
    var target := NormalizeLinkTarget(source, raw);
    if target.Some? {
      assert target.value in a <==> target.value in b;
      var name := EnsureMd(FileName(target.value));
      assert Named(a, name) == Named(b, name);
    }
  }

  lemma UniqueNamedIs(documents: set<Path>, name: string)
    ensures UniqueNamed(documents, name).Some? ==>
      UniqueNamed(documents, name).value in documents && FileName(UniqueNamed(documents, name).value) == name
  {
    var p := UniqueNamed(documents, name);
    assert p.Some? ==> p.value in Named(documents, name);
  }

  lemma LocatedHasName(documents: set<Path>, target: Path)
    requires EnsureMd(FileName(target)) == FileName(target)
    ensures Locate(documents, target).Some? ==>
      Locate(documents, target).value in documents && FileName(Locate(documents, target).value) == FileName(target)
  {
    UniqueNamedIs(documents, FileName(target));
  }

  lemma ResolvedHasName(documents: set<Path>, source: Path, raw: string)
    ensures Resolve(documents, source, raw).Some? ==>
      Resolve(documents, source, raw).value in documents
      && FileName(Resolve(documents, source, raw).value) == TargetName(raw)
  {
    TargetKeepsName(source, raw);
    TargetNameIsFile(raw);
    var target := NormalizeLinkTarget(source, raw);
    if target.Some? {
      LocatedHasName(documents, target.value);
    }
  }

  lemma SuffixPart(s: string, k: nat)
    requires k <= |s|
    ensures Contains(s, s[k..])
  {
    assert s[k..k + |s[k..]|] == s[k..];
    assert HasAt(s, s[k..], k);
  }

  lemma LinkBodyPart(raw: string)
    ensures Contains(raw, LinkBody(raw))
  {
    var a := Trim(raw);
    var b := Before(a, '|');
    var c := Before(b, '#');
    TrimPart(raw);
    BeforePrefix(a, '|');
    PrefixPart(a, b);
    ContainsTransitive(raw, a, b);
    BeforePrefix(b, '#');
    PrefixPart(b, c);
    ContainsTransitive(raw, b, c);
    TrimPart(c);
    ContainsTransitive(raw, c, Trim(c));
    if Trim(c) != [] && Trim(c)[0] == '/' {
      SuffixPart(Trim(c), 1);
      ContainsTransitive(raw, Trim(c), Trim(c)[1..]);
    }
  }

  /** The last component of a Markdown file path, without its suffix, lies inside the path without its suffix. */
  lemma ComponentStem(target: string, k: nat)
    requires EndsWith(target, ".md") && k <= |target| && (k == 0 || target[k - 1] == '/')
    ensures Contains(target[..|target| - 3], Stem(target[k..]))
  {
    MdEnding(target, k);
    var front := target[..|target| - 3];
    assert Stem(target[k..]) == front[k..];
    SuffixPart(front, k);
  }

  /** The raw target contains the stem of the file name it asks for. */
  lemma RawContainsStem(raw: string)
    ensures Contains(raw, Stem(TargetName(raw)))
  {
    var body := LinkBody(raw);
    var target := EnsureMd(body);
    var front := target[..|target| - 3];
    var k := SplitLast(target, '/');
    ComponentStem(target, k);
    LinkBodyPart(raw);
    assert front <= body;
    PrefixPart(body, front);
    ContainsTransitive(raw, body, front);
    ContainsTransitive(raw, front, Stem(TargetName(raw)));
  }

  lemma {:induction false} BeforeLacks(s: string, c: char)
    ensures c !in Before(s, c)
    ensures forall x :: x in Before(s, c) ==> x in s
  {
    if s != [] {
      BeforeLacks(s[1..], c);
      assert s == [s[0]] + s[1..];
    }
  }

  lemma PartChars(s: string, part: string)
    requires Contains(s, part)
    ensures forall c :: c in part ==> c in s
  {
    var i: nat :| HasAt(s, part, i);
    forall c | c in part ensures c in s {
      var k :| 0 <= k < |part| && part[k] == c;
      assert s[i..i + |part|][k] == s[i + k];
    }
  }

  lemma LinkBodyChars(raw: string)
    ensures '|' !in LinkBody(raw) && '#' !in LinkBody(raw)
  {
    var a := Before(Trim(raw), '|');
    var b := Before(a, '#');
    BeforeLacks(Trim(raw), '|');
    BeforeLacks(a, '#');
    TrimPart(b);
    PartChars(b, Trim(b));
    forall c | c in LinkBody(raw) ensures c in Trim(b) {
    }
  }

  lemma TargetNameChars(raw: string)
    ensures '/' !in TargetName(raw) && '|' !in TargetName(raw) && '#' !in TargetName(raw)
  {
    var target := EnsureMd(LinkBody(raw));
    var parts := Split(target, '/');
    LinkBodyChars(raw);
    assert forall c :: c in ".md" ==> c != '|' && c != '#';
    SplitPieces(target, '/');
    assert parts[|parts| - 1] in parts;
  }

  lemma {:induction false} BeforeStops(s: string, c: char, rest: string)
    requires c !in s && (rest == [] || rest[0] == c)
    ensures Before(s + rest, c) == s
  {
    if s != [] {
      BeforeStops(s[1..], c, rest);
      assert (s + rest)[1..] == s[1..] + rest;
    } else {
      assert s + rest == rest;
    }
  }

  lemma NothingToTrim(s: string)
    requires s != "" && !IsSpace(s[0]) && !IsSpace(s[|s| - 1])
    ensures Trim(s) == s
  {
  }

  /** A path in a folder asks for its file, with or without a caption after a bar. */
  lemma PathAsks(file: string, caption: string)
    requires EndsWith(file, ".md") && '/' !in file && '|' !in file && '#' !in file && IsCaption(caption)
    ensures var raw := "docs/" + file + caption;
      Trim(raw) == raw && LinkBody(raw) == "docs/" + file && TargetName(raw) == file
  {
    var body := "docs/" + file;
    assert body[|body| - 3..] == file[|file| - 3..] && body[|body| - 1] == file[|file| - 3..][2];
    BodyOfPath(body, caption);
    SplitJoin(["docs", file]);
    assert Join(["docs", file], "/") == "docs" + "/" + file == body;
  }

  lemma BodyOfPath(body: string, caption: string)
    requires body != "" && body[0] == 'd' && body[|body| - 1] == 'd' && '|' !in body && '#' !in body && IsCaption(caption)
    ensures Trim(body + caption) == body + caption && LinkBody(body + caption) == body
  {
    NothingToTrim(body + caption);
    NothingToTrim(body);
    BeforeStops(body, '|', caption);
    BeforeStops(body, '#', "");
    assert body + "" == body;
  }

  /** An optional caption after a name. */
  predicate IsCaption(caption: string) {
    caption == "" || (caption[0] == '|' && !IsSpace(caption[|caption| - 1]) && '/' !in caption)
  }

  /** Links can ask for exactly the Markdown files without separator, bar and number sign in their names. */
  lemma AskedExactly(file: string)
    ensures CanBeAsked(file) <==> EndsWith(file, ".md") && '/' !in file && '|' !in file && '#' !in file
  {
    if raw :| TargetName(raw) == file {
      TargetNameIsFile(raw);
      TargetNameChars(raw);
    }
    if EndsWith(file, ".md") && '/' !in file && '|' !in file && '#' !in file {
      PathAsks(file, "");
      assert TargetName("docs/" + file + "") == file;
    }
  }

  // ---- The lookup tables of the context ----

  /** Documents by file name, as the context indexes them. */
  method BasenameIndex(documents: seq<Path>) returns (index: map<string, seq<Path>>)
    requires Distinct(documents)
    ensures forall name :: name in index <==> exists p :: p in documents && FileName(p) == name
    ensures forall name :: name in index ==>
      Distinct(index[name]) && forall p :: p in index[name] <==> p in documents && FileName(p) == name
  {
    index := map[];
    for i := 0 to |documents|
      invariant forall name :: name in index <==> exists p :: p in documents[..i] && FileName(p) == name
      invariant forall name :: name in index ==>
        Distinct(index[name]) && forall p :: p in index[name] <==> p in documents[..i] && FileName(p) == name
    {
      var p, name := documents[i], FileName(documents[i]);
      assert documents[..i + 1] == documents[..i] + [p];
      assert p !in documents[..i];
      index := index[name := (if name in index then index[name] else []) + [p]];
    }
    assert documents[..|documents|] == documents;
  }

  lemma OnlyMatch(documents: set<Path>, name: string, matches: seq<Path>)
    requires Distinct(matches) && forall p :: p in matches <==> p in documents && FileName(p) == name
    ensures UniqueNamed(documents, name) == if |matches| == 1 then Some(matches[0]) else None
  {
    var found := Named(documents, name);
    assert found == Elements(matches);
    DistinctSize(matches);
    if |matches| == 1 {
      assert found == {matches[0]};
    }
  }

  method ResolveLocalDocumentLink(documents: seq<Path>, index: map<string, seq<Path>>, source: Path, raw: string)
    returns (r: Option<Path>)
    requires Distinct(documents)
    requires forall name :: name in index <==> exists p :: p in documents && FileName(p) == name
    requires forall name :: name in index ==>
      Distinct(index[name]) && forall p :: p in index[name] <==> p in documents && FileName(p) == name
    ensures r == Resolve(Elements(documents), source, raw)
  {
    var target := NormalizeLinkTarget(source, raw);
    if target.None? {
      return None;
    }
    if target.value in documents {
      return target;
    }
    if |target.value| == 1 {
      var name := EnsureMd(target.value[0]);
      var matches := if name in index then index[name] else [];
      OnlyMatch(Elements(documents), name, matches);
      if |matches| == 1 {
        return Some(matches[0]);
      }
    }
    return None;
  }
}
