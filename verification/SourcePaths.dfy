/** The paths documents are indexed under: `/` separators, no empty, `.` or `..` component. */
module SourcePaths {
  import opened Core
  import opened Text

  type Components = seq<string>

  function Slashed(s: string): string {
    if s == [] then [] else [if s[0] == '\\' then '/' else s[0]] + Slashed(s[1..])
  }

  predicate IsComponent(part: string) {
    part != "" && part != "." && part != ".."
  }

  /** None when the source refuses the path. */
  function NormalizeSourcePath(value: string): Option<Components> {
    var text := Slashed(Trim(value));
    if text == "" || text[0] == '/' || '\0' in text then None
    else
      var parts := Split(text, '/');
      if exists part :: part in parts && !IsComponent(part) then None else Some(parts)
  }

  predicate IsPlain(part: string) {
    IsComponent(part) && '/' !in part && '\\' !in part && '\0' !in part
  }

  predicate StartsWithSpace(s: string) {
    s != "" && IsSpace(s[0])
  }

  predicate EndsWithSpace(s: string) {
    s != "" && IsSpace(s[|s| - 1])
  }

  /** The paths of documents. */
  predicate IsSourcePath(p: Components) {
    && p != [] && (forall part :: part in p ==> IsPlain(part))
    && !StartsWithSpace(p[0]) && !EndsWithSpace(p[|p| - 1])
  }

  lemma {:induction false} SlashedKeeps(s: string)
    ensures |Slashed(s)| == |s| && '\\' !in Slashed(s)
    ensures forall i :: 0 <= i < |s| ==> Slashed(s)[i] == if s[i] == '\\' then '/' else s[i]
    ensures '\\' !in s ==> Slashed(s) == s
  {
    if s != [] {
      SlashedKeeps(s[1..]);
      assert s == [s[0]] + s[1..];
    }
  }

  /** The pieces hold the characters of the text but no separator. */
  lemma {:induction false} SplitPieces(s: string, c: char)
    ensures forall part, x :: part in Split(s, c) && x in part ==> x in s && x != c
    ensures s != [] && s[0] != c ==> Split(s, c)[0] != [] && Split(s, c)[0][0] == s[0]
  {
    if s != [] {
      SplitPieces(s[1..], c);
      assert s == [s[0]] + s[1..];
      var rest := Split(s[1..], c);
      forall part, x | part in Split(s, c) && x in part ensures x in s && x != c {
        if s[0] != c && part == [s[0]] + rest[0] {
          assert rest[0] in rest;
        } else {
          assert part == [] || part in rest;
        }
      }
    }
  }

  lemma {:induction false} SplitJoin(p: Components)
    requires p != [] && forall part :: part in p ==> '/' !in part
    ensures Split(Join(p, "/"), '/') == p
  {
    if |p| == 1 {
      SplitOne(p[0], "");
      assert p[0] + "" == p[0];
    } else {
      SplitJoin(p[1..]);
      SplitOne(p[0], "/" + Join(p[1..], "/"));
      assert Join(p, "/") == p[0] + ("/" + Join(p[1..], "/"));
      assert ("/" + Join(p[1..], "/"))[1..] == Join(p[1..], "/");
    }
  }

  /** Up to the first separator. */
  lemma {:induction false} SplitOne(part: string, rest: string)
    requires '/' !in part && (rest == "" || rest[0] == '/')
    ensures Split(part + rest, '/') == [part] + if rest == "" then [] else Split(rest[1..], '/')
  {
    if part == "" {
      assert part + rest == rest;
    } else {
      SplitOne(part[1..], rest);
      assert (part + rest)[1..] == part[1..] + rest;
      assert [part[0]] + part[1..] == part;
    }
  }

  lemma {:induction false} JoinChars(p: Components)
    requires p != []
    ensures forall x :: x in Join(p, "/") ==> x == '/' || exists part :: part in p && x in part
    ensures p[0] != "" ==> Join(p, "/") != "" && Join(p, "/")[0] == p[0][0]
    ensures var last := p[|p| - 1]; last != "" ==>
      Join(p, "/") != "" && Join(p, "/")[|Join(p, "/")| - 1] == last[|last| - 1]
  {
    if |p| > 1 {
      JoinChars(p[1..]);
    }
  }

  lemma {:induction false} TrimEnds(s: string)
    ensures Trim(s) != [] ==> !IsSpace(Trim(s)[0]) && !IsSpace(Trim(s)[|Trim(s)| - 1])
  {
    TrimLeftEnd(s);
    TrimRightEnd(TrimLeft(s));
  }

  lemma {:induction false} TrimLeftEnd(s: string)
    ensures TrimLeft(s) != [] ==> !IsSpace(TrimLeft(s)[0])
  {
    if s != [] && IsSpace(s[0]) {
      TrimLeftEnd(s[1..]);
    }
  }

  lemma {:induction false} TrimRightEnd(s: string)
    ensures TrimRight(s) != [] ==> !IsSpace(TrimRight(s)[|TrimRight(s)| - 1]) && TrimRight(s)[0] == s[0]
  {
    if s != [] && IsSpace(s[|s| - 1]) {
      TrimRightEnd(s[..|s| - 1]);
    }
  }

  /** Normalization yields exactly these paths. */
  lemma SourcePathsExactly(p: Components)
    ensures IsSourcePath(p) <==> exists value :: NormalizeSourcePath(value) == Some(p)
  {
    if IsSourcePath(p) {
      JoinIsNormal(p);
    }
    if value :| NormalizeSourcePath(value) == Some(p) {
      NormalIsSourcePath(value, p);
    }
  }

  lemma JoinIsNormal(p: Components)
    requires IsSourcePath(p)
    ensures NormalizeSourcePath(Join(p, "/")) == Some(p)
  {
    var text := Join(p, "/");
    assert p[0] in p && p[|p| - 1] in p;
    JoinChars(p);
    assert Trim(text) == text;
    SlashedKeeps(text);
    SplitJoin(p);
  }

  lemma NormalIsSourcePath(value: string, p: Components)
    requires NormalizeSourcePath(value) == Some(p)
    ensures IsSourcePath(p)
  {
    var trimmed := Trim(value);
    TrimEnds(value);
    SlashedKeeps(trimmed);
    SplitPieces(Slashed(trimmed), '/');
    var text := Slashed(trimmed);
    var k := SplitLast(text, '/');
    var last := p[|p| - 1];
    assert last in p && last == text[k..];
    assert last[|last| - 1] in last;
    assert last[|last| - 1] == text[|text| - 1] != '/';
    assert p[0][0] == text[0];
  }
}
