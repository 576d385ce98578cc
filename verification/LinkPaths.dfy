/** Where a local link leads, told by the components of its target and the folder of its page. */
module LinkPaths {
  import opened Core
  import opened Text
  import opened SourcePaths
  import opened LinkResolution

  /** A component of a Markdown path: plain, and without the signs that end a target. */
  ghost predicate Named(part: string) {
    IsPlain(part) && '|' !in part && '#' !in part
  }

  ghost predicate AllNamed(q: Path) {
    forall part :: part in q ==> Named(part)
  }

  /** Steps up and steps that stay. */
  ghost predicate OnlyDots(dots: Path) {
    forall part :: part in dots ==> part == "." || part == ".."
  }

  ghost function Ups(dots: Path): nat {
    if dots == [] then 0 else (if dots[0] == ".." then 1 else 0) + Ups(dots[1..])
  }

  /** A target as written: no white space around it, and a Markdown file at its end. */
  ghost predicate Written(dots: Path, q: Path) {
    && OnlyDots(dots) && q != [] && AllNamed(q) && EndsWith(q[|q| - 1], ".md")
    && (dots + q)[0] != "" && !IsSpace((dots + q)[0][0]) && !StartsMailto(TextOf(dots, q))
  }

  ghost predicate StartsMailto(s: string) {
    |s| >= 7 && s[..7] == "mailto:"
  }

  ghost function TextOf(dots: Path, q: Path): string {
    Join(dots + q, "/")
  }

  lemma {:induction false} KeptDots(dots: Path, q: Path)
    requires OnlyDots(dots) && AllNamed(q)
    ensures Kept(dots + q) == Repeat("..", Ups(dots)) + q
  {
    if dots == [] {
      assert dots + q == q;
      KeptNamed(q);
    } else {
      assert dots[0] in dots && (dots + q)[1..] == dots[1..] + q;
      assert forall part :: part in dots[1..] ==> part in dots;
      KeptDots(dots[1..], q);
    }
  }

  ghost function Repeat(part: string, n: nat): (s: Path)
    ensures |s| == n && forall i :: 0 <= i < n ==> s[i] == part
  {
    if n == 0 then [] else [part] + Repeat(part, n - 1)
  }

  lemma {:induction false} KeptNamed(q: Path)
    requires AllNamed(q)
    ensures Kept(q) == q
  {
    if q != [] {
      assert q[0] in q;
      KeptNamed(q[1..]);
    }
  }

  lemma {:induction false} FoldedNamed(stack: Path, p: Path, rest: Path)
    requires forall part :: part in p ==> part != ".."
    ensures Folded(stack, p + rest) == Folded(stack + p, rest)
    decreases |p|
  {
    if p == [] {
      assert p + rest == rest && stack + p == stack;
    } else {
      assert forall part :: part in p[1..] ==> part in p;
      assert p[0] in p && (p + rest)[0] == p[0] && (p + rest)[1..] == p[1..] + rest;
      FoldedNamed(stack + [p[0]], p[1..], rest);
      assert stack + [p[0]] + p[1..] == stack + p;
    }
  }

  lemma {:induction false} FoldedUps(stack: Path, n: nat, rest: Path)
    ensures Folded(stack, Repeat("..", n) + rest) == if n <= |stack| then Folded(stack[..|stack| - n], rest) else None
    decreases n
  {
    var ups := Repeat("..", n);
    if n == 0 {
      assert ups + rest == rest && stack[..|stack|] == stack;
    } else {
      assert (ups + rest)[0] == ".." && (ups + rest)[1..] == Repeat("..", n - 1) + rest;
      if stack != [] {
        FoldedUps(stack[..|stack| - 1], n - 1, rest);
        assert n <= |stack| ==> stack[..|stack| - 1][..|stack| - n] == stack[..|stack| - n];
      }
    }
  }

  lemma NamedAreNotUps(q: Path)
    requires AllNamed(q)
    ensures forall part :: part in q ==> part != ".."
  {
  }

  /** From a folder, up, and down again. */
  lemma FoldedFrom(folder: Path, n: nat, q: Path)
    requires (forall part :: part in folder ==> part != "..") && AllNamed(q)
    ensures Folded([], folder + (Repeat("..", n) + q)) == if n <= |folder| then Some(folder[..|folder| - n] + q) else None
  {
    FoldedNamed([], folder, Repeat("..", n) + q);
    assert [] + folder == folder;
    FoldedUps(folder, n, q);
    if n <= |folder| {
      NamedAreNotUps(q);
      FoldedNamed(folder[..|folder| - n], q, []);
      assert q + [] == q;
    }
  }

  // ---- The target of a link as it is written ----

  lemma TextEnds(dots: Path, q: Path)
    requires Written(dots, q)
    ensures var s := TextOf(dots, q); s != "" && s[0] == (dots + q)[0][0] && s[|s| - 1] == 'd' && EndsWith(s, ".md")
  {
    var p := dots + q;
    var last := p[|p| - 1];
    assert last == q[|q| - 1] && last[|last| - 3..][2] == 'd';
    JoinChars(p);
    JoinEnd(p);
    EndOfEnd(TextOf(dots, q), last, ".md");
  }

  /** The text ends in its last component. */
  lemma {:induction false} JoinEnd(p: Path)
    requires p != []
    ensures EndsWith(Join(p, "/"), p[|p| - 1])
  {
    if |p| > 1 {
      JoinEnd(p[1..]);
      EndOfSum(p[0] + "/", Join(p[1..], "/"), p[|p| - 1]);
    }
  }

  lemma EndOfSum(a: string, b: string, last: string)
    requires EndsWith(b, last)
    ensures EndsWith(a + b, last)
  {
    assert (a + b)[|a + b| - |last|..] == b[|b| - |last|..];
  }

  lemma EndOfEnd(s: string, last: string, end: string)
    requires EndsWith(s, last) && EndsWith(last, end)
    ensures EndsWith(s, end)
  {
    assert s[|s| - |end|..] == s[|s| - |last|..][|last| - |end|..];
  }

  lemma TextIsPlain(dots: Path, q: Path)
    requires Written(dots, q)
    ensures '|' !in TextOf(dots, q) && '#' !in TextOf(dots, q)
  {
    JoinChars(dots + q);
    forall part | part in dots + q ensures '|' !in part && '#' !in part {
      if part in dots { assert part == "." || part == ".."; }
    }
  }

  lemma TextSplits(dots: Path, q: Path)
    requires Written(dots, q)
    ensures Split(TextOf(dots, q), '/') == dots + q
  {
    forall part | part in dots + q ensures '/' !in part {
      if part in dots { assert part == "." || part == ".."; }
    }
    SplitJoin(dots + q);
  }

  lemma {:induction false} DoubleSlash(s: string, i: nat)
    requires i + 1 < |s| && s[i] == '/' && s[i + 1] == '/'
    ensures "" in Split(s, '/')[1..]
  {
    var rest := Split(s[1..], '/');
    if i == 0 {
      assert Split(s, '/')[1..] == rest && rest[0] == "";
    } else {
      DoubleSlash(s[1..], i - 1);
      assert forall part :: part in rest[1..] ==> part in rest;
    }
  }

  /** Such a text has no empty component, so it is no address with a scheme. */
  lemma TextHasNoScheme(dots: Path, q: Path)
    requires Written(dots, q)
    ensures !HasScheme(TextOf(dots, q))
  {
    var s := TextOf(dots, q);
    TextSplits(dots, q);
    assert forall part :: part in Split(s, '/')[1..] ==> part in dots || part in q;
    if HasScheme(s) {
      var i :| 0 <= i < |s| && HasAt(s, "://", i);
      assert s[i..i + 3][1] == s[i + 1] && s[i..i + 3][2] == s[i + 2];
      DoubleSlash(s, i + 1);
    }
  }

  lemma TextIsLocal(dots: Path, q: Path)
    requires Written(dots, q)
    ensures var s := TextOf(dots, q); Trim(s) == s && !External(s) && LinkBody(s) == s && EnsureMd(s) == s
    ensures var s := TextOf(dots, q); Trim(Before(Before(Trim(s), '|'), '#')) == s && s[0] != '/'
  {
    var s := TextOf(dots, q);
    TextEnds(dots, q);
    TextIsPlain(dots, q);
    TextHasNoScheme(dots, q);
    NothingToTrim(s);
    BeforeStops(s, '|', "");
    BeforeStops(s, '#', "");
    assert s + "" == s;
    FirstIsNoSlash(dots, q);
  }

  lemma FirstIsNoSlash(dots: Path, q: Path)
    requires Written(dots, q)
    ensures (dots + q)[0][0] != '/'
  {
    if dots != [] {
      assert dots[0] in dots;
    } else {
      assert q[0] in q && q[0][0] in q[0];
    }
  }

  lemma TextParts(dots: Path, q: Path)
    requires Written(dots, q)
    ensures Parts(TextOf(dots, q)) == Repeat("..", Ups(dots)) + q
    ensures '/' in TextOf(dots, q) <==> dots != [] || |q| > 1
  {
    var s := TextOf(dots, q);
    TextIsLocal(dots, q);
    TextSplits(dots, q);
    KeptDots(dots, q);
    assert dots == [] && |q| == 1 ==> dots + q == q && s == q[0] && q[0] in q;
    if '/' !in s {
      BareName(s);
    }
  }

  // ---- Where it leads ----

  ghost predicate IsContentRoot(name: string) {
    name == "raw" || name == "wiki" || name == "docs" || name == "scratch"
  }

  /** A folder of a Vault: below a content root. */
  ghost predicate IsFolder(folder: Path) {
    folder != [] && IsContentRoot(folder[0]) && NoUps(folder)
  }

  ghost predicate NoUps(folder: Path) {
    forall part :: part in folder ==> part != ".."
  }

  lemma TargetIs(source: Path, dots: Path, q: Path)
    requires Written(dots, q)
    ensures NormalizeLinkTarget(source, TextOf(dots, q)) == TargetPath(source, TextOf(dots, q))
  {
    TextIsLocal(dots, q);
  }

  /**
   * A relative link starts at the folder of its page: each `..` drops one folder, too many leave the Vault. A path with a
   * folder or with dots is relative when it does not begin with a content root.
   */
  lemma RelativeLink(folder: Path, name: string, dots: Path, q: Path)
    requires IsFolder(folder) && Written(dots, q) && (dots != [] || |q| > 1) && (Ups(dots) > 0 || !IsContentRoot(q[0]))
    ensures NormalizeLinkTarget(folder + [name], TextOf(dots, q)) ==
      if Ups(dots) < |folder| then Some(folder[..|folder| - Ups(dots)] + q)
      else if Ups(dots) == |folder| && IsContentRoot(q[0]) then Some(q) else None
  {
    var source, n := folder + [name], Ups(dots);
    var parts := Repeat("..", n) + q;
    TargetIs(source, dots, q);
    TextParts(dots, q);
    assert source[..|source| - 1] == folder;
    FoldedFrom(folder, n, q);
    if n == |folder| {
      assert folder[..0] + q == q;
    }
    assert parts[0] == if n > 0 then ".." else q[0];
    assert ".." !in CONTENT_ROOTS && "/" !in CONTENT_ROOTS;
    assert n == 0 ==> parts[0] in q && parts[0] != "/";
  }

  /** A path that begins with a content root leads to the same place from every page, with or without a leading slash. */
  lemma RootedLink(source: Path, dots: Path, q: Path)
    requires Written(dots, q) && Ups(dots) == 0 && IsContentRoot(q[0]) && |q| > 1
    ensures NormalizeLinkTarget(source, TextOf(dots, q)) == Some(q)
  {
    TargetIs(source, dots, q);
    TextParts(dots, q);
    assert Repeat("..", 0) + q == q;
    NamedAreNotUps(q);
    FoldedNamed([], q, []);
    assert q + [] == q && [] + q == q;
  }

  /** A file name alone is looked up by name. */
  lemma BareLink(source: Path, file: string)
    requires Written([], [file]) && !IsContentRoot(file)
    ensures NormalizeLinkTarget(source, file) == Some([file])
  {
    assert [] + [file] == [file] && TextOf([], [file]) == file;
    TargetIs(source, [], [file]);
    TextParts([], [file]);
    assert Repeat("..", 0) + [file] == [file];
  }

  /** What a caption or a fragment says does not matter, nor whether the suffix is written. */
  lemma EndDoesNotMatter(source: Path, raw: string, rest: string)
    requires Trim(raw) == raw && raw != "" && '|' !in raw && '#' !in raw
    requires rest != "" && (rest[0] == '|' || rest[0] == '#') && !External(Trim(raw + rest)) && !External(raw)
    requires !IsSpace(rest[|rest| - 1])
    ensures NormalizeLinkTarget(source, raw + rest) == NormalizeLinkTarget(source, raw)
  {
    TrimEnds(raw);
    var all := raw + rest;
    NothingToTrim(all);
    BeforeStops(raw, '|', "");
    BeforeStops(raw, '#', "");
    assert raw + "" == raw;
    if rest[0] == '|' {
      BeforeStops(raw, '|', rest);
    } else {
      BeforeTwice(raw, rest);
    }
  }

  /** One slash in front of a target does not change where it leads. */
  lemma SlashIsDropped(source: Path, raw: string)
    requires Trim(raw) == raw && raw != "" && raw[0] != '/' && '|' !in raw && '#' !in raw
    requires !External(raw) && !External("/" + raw)
    ensures NormalizeLinkTarget(source, "/" + raw) == NormalizeLinkTarget(source, raw)
  {
    var slashed := "/" + raw;
    TrimEnds(raw);
    NothingToTrim(slashed);
    BeforeStops(raw, '|', "");
    BeforeStops(raw, '#', "");
    BeforeStops(slashed, '|', "");
    BeforeStops(slashed, '#', "");
    assert raw + "" == raw && slashed + "" == slashed && slashed[1..] == raw;
  }

  lemma {:induction false} BeforeTwice(raw: string, rest: string)
    requires '|' !in raw && '#' !in raw && rest != "" && rest[0] == '#'
    ensures Before(Before(raw + rest, '|'), '#') == raw
  {
    if raw == "" {
      assert raw + rest == rest;
    } else {
      BeforeTwice(raw[1..], rest);
      assert (raw + rest)[1..] == raw[1..] + rest;
      var tail := Before(raw[1..] + rest, '|');
      assert ([raw[0]] + tail)[1..] == tail;
    }
  }

  lemma SuffixIsAdded(source: Path, raw: string)
    requires Trim(raw) == raw && raw != "" && '|' !in raw && '#' !in raw && !EndsWith(raw, ".md") && !External(raw)
    requires !External(raw + ".md") && raw != "/"
    ensures NormalizeLinkTarget(source, raw) == NormalizeLinkTarget(source, raw + ".md")
  {
    TrimEnds(raw);
    var file := raw + ".md";
    assert file[|file| - 3..] == ".md" && file[|file| - 1] == 'd';
    assert '|' !in file && '#' !in file by { assert forall c :: c in file ==> c in raw || c in ".md"; }
    NothingToTrim(file);
    BeforeStops(raw, '|', "");
    BeforeStops(raw, '#', "");
    BeforeStops(file, '|', "");
    BeforeStops(file, '#', "");
    assert raw + "" == raw && file + "" == file;
    BodyOfFile(raw);
  }

  lemma BodyOfFile(raw: string)
    requires raw != "" && raw != "/" && !EndsWith(raw, ".md")
    ensures var a := if raw[0] == '/' then raw[1..] else raw;
      var b := if raw[0] == '/' then (raw + ".md")[1..] else raw + ".md"; EnsureMd(a) == EnsureMd(b)
  {
    var a := if raw[0] == '/' then raw[1..] else raw;
    assert (raw + ".md")[1..] == raw[1..] + ".md";
    assert (a + ".md")[|a + ".md"| - 3..] == ".md";
    assert |a| >= 3 ==> a[|a| - 3..] == raw[|raw| - 3..];
  }

  /** Fragments, addresses with a scheme and mail addresses lead nowhere, nor does a target that is all caption. */
  lemma ExternalLeadsNowhere(source: Path, raw: string)
    ensures var s := Trim(raw);
      s == "" || s[0] == '#' || s[0] == '|' || Contains(s, "://") || (|s| >= 7 && s[..7] == "mailto:") ==>
      NormalizeLinkTarget(source, raw) == None
  {
    var s := Trim(raw);
    if Contains(s, "://") {
      var i: nat :| HasAt(s, "://", i);
      assert HasScheme(s);
    }
    if s != "" && s[0] == '|' {
      assert Before(s, '|') == [];
    }
  }

  // ---- What it resolves to ----

  /** A document at the target is what the link resolves to; else only a bare name is looked up, and must be unique. */
  lemma ResolvesTo(documents: set<Path>, source: Path, raw: string, target: Path)
    requires NormalizeLinkTarget(source, raw) == Some(target) && target != []
    ensures target in documents ==> Resolve(documents, source, raw) == Some(target)
    ensures target !in documents && |target| > 1 ==> Resolve(documents, source, raw) == None
    ensures target !in documents && |target| == 1 && EndsWith(target[0], ".md") ==>
      forall p :: Resolve(documents, source, raw) == Some(p) <==>
        p in documents && FileName(p) == target[0] && forall r :: r in documents && FileName(r) == target[0] ==> r == p
  {
    if target !in documents && |target| == 1 && EndsWith(target[0], ".md") {
      UniqueExactly(documents, target[0]);
    }
  }

  lemma UniqueExactly(documents: set<Path>, name: string)
    ensures forall p :: UniqueNamed(documents, name) == Some(p) <==>
      p in documents && FileName(p) == name && forall r :: r in documents && FileName(r) == name ==> r == p
  {
    var matches := LinkResolution.Named(documents, name);
    UniqueNamedIs(documents, name);
    if |matches| == 1 {
      OneElement(matches);
      forall r | r in documents && FileName(r) == name ensures r in matches {
      }
    }
    forall p | p in documents && FileName(p) == name && forall r :: r in documents && FileName(r) == name ==> r == p
      ensures UniqueNamed(documents, name) == Some(p)
    {
      assert matches == {p};
    }
  }
}
