/** Strings as the source uses them: order, substrings, trimming, splitting and Python's `repr`. */
module Text {

  predicate HasAt(s: string, part: string, i: nat) {
    i + |part| <= |s| && s[i..i + |part|] == part
  }

  ghost predicate Contains(s: string, part: string) {
    exists i: nat :: HasAt(s, part, i)
  }

  lemma ContainsPart(before: string, part: string, after: string)
    ensures Contains(before + part + after, part)
  {
    assert HasAt(before + part + after, part, |before|);
  }

  lemma ContainsParts(s: string, part: string) returns (before: string, after: string)
    requires Contains(s, part)
    ensures s == before + part + after
  {
    var i: nat :| HasAt(s, part, i);
    before, after := s[..i], s[i + |part|..];
  }

  lemma ContainsTransitive(a: string, b: string, c: string)
    requires Contains(a, b) && Contains(b, c)
    ensures Contains(a, c)
  {
    var x, y := ContainsParts(a, b);
    var u, v := ContainsParts(b, c);
    assert a == (x + u) + c + (v + y);
    ContainsPart(x + u, c, v + y);
  }

  /** `part in s`. */
  method Find(s: string, part: string) returns (found: bool)
    ensures found <==> Contains(s, part)
  {
    var i := 0;
    while i + |part| <= |s|
      invariant forall j: nat :: j < i ==> !HasAt(s, part, j)
      decreases |s| - i
    {
      if HasAt(s, part, i) {
        return true;
      }
      i := i + 1;
    }
    return false;
  }

  // ---- Order ----

  predicate AtMost(a: string, b: string) {
    a == [] || (b != [] && (a[0] < b[0] || (a[0] == b[0] && AtMost(a[1..], b[1..]))))
  }

  lemma {:induction false} AtMostTotal(a: string, b: string)
    ensures AtMost(a, b) || AtMost(b, a)
    ensures AtMost(a, b) && AtMost(b, a) ==> a == b
  {
    if a != [] && b != [] && a[0] == b[0] {
      AtMostTotal(a[1..], b[1..]);
      assert a == [a[0]] + a[1..] && b == [b[0]] + b[1..];
    }
  }

  lemma {:induction false} AtMostTransitive(a: string, b: string, c: string)
    requires AtMost(a, b) && AtMost(b, c)
    ensures AtMost(a, c)
  {
    if a != [] && b != [] && c != [] && a[0] == b[0] == c[0] {
      AtMostTransitive(a[1..], b[1..], c[1..]);
    }
  }

  // ---- Trimming and cutting ----

  predicate IsSpace(c: char) {
    c == ' ' || ('\t' <= c <= '\r') || c == '\U{85}' || c == '\U{A0}' || c == '\U{3000}'
  }

  function TrimLeft(s: string): string {
    if s != [] && IsSpace(s[0]) then TrimLeft(s[1..]) else s
  }

  function TrimRight(s: string): string {
    if s != [] && IsSpace(s[|s| - 1]) then TrimRight(s[..|s| - 1]) else s
  }

  function Trim(s: string): string {
    TrimRight(TrimLeft(s))
  }

  /** The text before the first `c`. */
  function Before(s: string, c: char): string {
    if s == [] || s[0] == c then [] else [s[0]] + Before(s[1..], c)
  }

  lemma {:induction false} TrimLeftPart(s: string)
    ensures Contains(s, TrimLeft(s))
  {
    if s != [] && IsSpace(s[0]) {
      TrimLeftPart(s[1..]);
      ContainsPart([s[0]], s[1..], []);
      assert s == [s[0]] + s[1..] + [];
      ContainsTransitive(s, s[1..], TrimLeft(s));
    } else {
      ContainsPart([], s, []);
      assert [] + s + [] == s;
    }
  }

  lemma {:induction false} TrimRightPart(s: string)
    ensures Contains(s, TrimRight(s))
  {
    if s != [] && IsSpace(s[|s| - 1]) {
      TrimRightPart(s[..|s| - 1]);
      ContainsPart([], s[..|s| - 1], [s[|s| - 1]]);
      assert s == [] + s[..|s| - 1] + [s[|s| - 1]];
      ContainsTransitive(s, s[..|s| - 1], TrimRight(s));
    } else {
      ContainsPart([], s, []);
      assert [] + s + [] == s;
    }
  }

  lemma TrimPart(s: string)
    ensures Contains(s, Trim(s))
  {
    TrimLeftPart(s);
    TrimRightPart(TrimLeft(s));
    ContainsTransitive(s, TrimLeft(s), Trim(s));
  }

  lemma {:induction false} BeforePrefix(s: string, c: char)
    ensures Before(s, c) <= s && c !in Before(s, c)
  {
    if s != [] && s[0] != c {
      BeforePrefix(s[1..], c);
      assert s == [s[0]] + s[1..];
    }
  }

  lemma PrefixPart(s: string, p: string)
    requires p <= s
    ensures Contains(s, p)
  {
    assert HasAt(s, p, 0);
  }

  predicate EndsWith(s: string, suffix: string) {
    |suffix| <= |s| && s[|s| - |suffix|..] == suffix
  }

  // ---- Path components ----

  /** `s.split(c)`. */
  function Split(s: string, c: char): (parts: seq<string>)
    ensures parts != []
  {
    if s == [] then [[]]
    else
      var rest := Split(s[1..], c);
      if s[0] == c then [[]] + rest else [[s[0]] + rest[0]] + rest[1..]
  }

  /** The last component is what follows the last separator. */
  lemma {:induction false} SplitLast(s: string, c: char) returns (k: nat)
    ensures k <= |s| && s[k..] == Split(s, c)[|Split(s, c)| - 1]
    ensures k == 0 || s[k - 1] == c
    ensures k == 0 <==> |Split(s, c)| == 1
  {
    if s == [] {
      k := 0;
    } else {
      var j := SplitLast(s[1..], c);
      var rest := Split(s[1..], c);
      if s[0] == c || |rest| > 1 {
        k := j + 1;
        assert s[k..] == s[1..][j..];
      } else {
        k := 0;
        assert s == [s[0]] + s[1..];
      }
    }
  }

  // ---- Words ----

  /** `s.split()`: the maximal runs of non-space characters. */
  function Words(s: string): seq<string> {
    if s == [] then []
    else if IsSpace(s[0]) then Words(s[1..])
    else
      var rest := Words(s[1..]);
      if |s| > 1 && !IsSpace(s[1]) && rest != [] then [[s[0]] + rest[0]] + rest[1..]
      else [[s[0]]] + rest
  }

  ghost predicate AllSpace(s: string) {
    forall c :: c in s ==> IsSpace(c)
  }

  ghost predicate NoSpace(s: string) {
    forall c :: c in s ==> !IsSpace(c)
  }

  /** Texts whose words do not grow together when joined. */
  ghost predicate Apart(a: string, b: string) {
    a == [] || b == [] || IsSpace(a[|a| - 1]) || IsSpace(b[0])
  }

  lemma HeadGrows(c: char, r: seq<string>, w: seq<string>)
    requires r != []
    ensures [[c] + (r + w)[0]] + (r + w)[1..] == ([[c] + r[0]] + r[1..]) + w
  {
  }

  lemma HeadAlone(c: char, r: seq<string>, w: seq<string>)
    ensures [[c]] + (r + w) == ([[c]] + r) + w
  {
  }

  lemma {:induction false} WordsJoin(a: string, b: string)
    requires Apart(a, b)
    ensures Words(a + b) == Words(a) + Words(b)
  {
    if a == [] {
      assert a + b == b;
    } else {
      assert (a + b)[1..] == a[1..] + b;
      WordsJoin(a[1..], b);
      if !IsSpace(a[0]) {
        NonSpaceJoin(a, b);
      }
    }
  }

  lemma NonSpaceJoin(a: string, b: string)
    requires a != [] && !IsSpace(a[0]) && Apart(a, b) && (a + b)[1..] == a[1..] + b
    requires Words(a[1..] + b) == Words(a[1..]) + Words(b)
    ensures Words(a + b) == Words(a) + Words(b)
  {
    var rest := Words(a[1..]);
    HeadAlone(a[0], rest, Words(b));
    if |a| > 1 && !IsSpace(a[1]) {
      NonSpaceHasWord(a[1..]);
      HeadGrows(a[0], rest, Words(b));
    } else if |a| == 1 {
      assert rest == [];
    }
  }

  lemma NonSpaceHasWord(s: string)
    requires s != [] && !IsSpace(s[0])
    ensures Words(s) != []
  {
  }

  lemma {:induction false} SpaceHasNoWords(s: string)
    requires AllSpace(s)
    ensures Words(s) == []
  {
    if s != [] {
      SpaceHasNoWords(s[1..]);
    }
  }

  lemma {:induction false} OneWord(s: string)
    requires NoSpace(s) && s != []
    ensures Words(s) == [s]
  {
    if |s| > 1 {
      OneWord(s[1..]);
      assert s == [s[0]] + s[1..];
      assert s[1] in s;
    } else {
      assert s == [s[0]];
    }
  }

  lemma SeparatedWords(a: string, sep: string, b: string)
    requires AllSpace(sep) && sep != []
    ensures Words(a + sep + b) == Words(a) + Words(b)
  {
    SpaceHasNoWords(sep);
    assert sep[0] in sep && sep[|sep| - 1] in sep;
    WordsJoin(a, sep);
    WordsJoin(a + sep, b);
  }

  function Join(parts: seq<string>, separator: string): string {
    if parts == [] then []
    else if |parts| == 1 then parts[0]
    else parts[0] + separator + Join(parts[1..], separator)
  }

  function Lower(s: string): string {
    if s == [] then []
    else [if 'A' <= s[0] <= 'Z' then ((s[0] as int) + 32) as char else s[0]] + Lower(s[1..])
  }

  // ---- Python's repr of a string ----

  predicate Printable(c: char) {
    || ' ' <= c <= '~'
    || ('\U{A1}' <= c && c != '\U{AD}' && !('\U{2000}' <= c <= '\U{200F}') && !('\U{2028}' <= c <= '\U{202F}')
        && !('\U{205F}' <= c <= '\U{206F}') && c != '\U{3000}' && c != '\U{FEFF}')
  }

  /** One character as `repr` writes it between quotes `q`; unprintable ones become a code. */
  function EscapedChar(c: char, q: char): string {
    if c == '\\' || c == q then ['\\', c]
    else if Printable(c) then [c]
    else ['\\', 'u'] + Digits(c as int)
  }

  function Digits(n: nat): string {
    if n < 10 then [((n + 48) as char)] else Digits(n / 10) + [((n % 10 + 48) as char)]
  }

  function Each(s: string, f: char -> string): string {
    if s == [] then [] else f(s[0]) + Each(s[1..], f)
  }

  function Escaped(s: string, q: char): string {
    Each(s, c => EscapedChar(c, q))
  }

  /** `repr` prefers single quotes and switches only when the text has a single and no double quote. */
  function Quote(s: string): char {
    if '\'' in s && '\"' !in s then '\"' else '\''
  }

  function Repr(s: string): string {
    [Quote(s)] + Escaped(s, Quote(s)) + [Quote(s)]
  }

  lemma {:induction false} EachJoin(a: string, b: string, f: char -> string)
    ensures Each(a + b, f) == Each(a, f) + Each(b, f)
  {
    if a == [] {
      assert a + b == b;
    } else {
      EachJoin(a[1..], b, f);
      assert (a + b)[0] == a[0] && (a + b)[1..] == a[1..] + b;
      assert Each(a + b, f) == f(a[0]) + (Each(a[1..], f) + Each(b, f));
    }
  }

  lemma {:induction false} EachSame(s: string, f: char -> string, g: char -> string)
    requires forall c :: c in s ==> f(c) == g(c)
    ensures Each(s, f) == Each(s, g)
  {
    if s != [] {
      EachSame(s[1..], f, g);
    }
  }

  lemma {:induction false} EachUnit(s: string)
    ensures Each(s, c => [c]) == s
  {
    if s != [] {
      EachUnit(s[1..]);
      assert s == [s[0]] + s[1..];
    }
  }

  lemma EscapedJoin(a: string, b: string, q: char)
    ensures Escaped(a + b, q) == Escaped(a, q) + Escaped(b, q)
  {
    EachJoin(a, b, c => EscapedChar(c, q));
  }

  /** A name survives quoting when its own escaped form still shows it, in the quotes it can end up in. */
  ghost predicate SurvivesRepr(name: string) {
    && Contains(Escaped(name, '\''), name)
    && ('\'' in name && '\"' !in name ==> Contains(Escaped(name, '\"'), name))
  }

  lemma NoQuoteSameEscape(s: string)
    requires '\'' !in s && '\"' !in s
    ensures Escaped(s, '\'') == Escaped(s, '\"')
  {
    EachSame(s, c => EscapedChar(c, '\''), c => EscapedChar(c, '\"'));
  }

  lemma PlainIsUnescaped(s: string, q: char)
    requires forall c :: c in s ==> Printable(c) && c != '\\' && c != q
    ensures Escaped(s, q) == s
  {
    EachSame(s, c => EscapedChar(c, q), c => [c]);
    EachUnit(s);
  }

  /** Every name without quotes, backslashes and unprintable characters survives. */
  lemma PlainSurvives(name: string)
    requires forall c :: c in name ==> Printable(c) && c != '\\' && c != '\''
    ensures SurvivesRepr(name)
  {
    PlainIsUnescaped(name, '\'');
    PrefixPart(name, name);
  }

  /** Exactly the surviving names show up in the quoted form of every value that contains them. */
  lemma SurvivesExactly(name: string)
    ensures SurvivesRepr(name) <==> forall v :: Contains(v, name) ==> Contains(Escaped(v, Quote(v)), name)
  {
    if SurvivesRepr(name) {
      forall v | Contains(v, name) ensures Contains(Escaped(v, Quote(v)), name) {
        SurvivesInside(name, v);
      }
    } else {
      var v := if '\"' in name || ('\'' in name && Contains(Escaped(name, '\''), name)) then name else name + ['\"'];
      PrefixPart(v, name);
      EscapedJoin(name, ['\"'], '\'');
      assert Escaped(['\"'], '\'') == ['\"'] + Escaped([], '\'');
      if v == name {
        assert !Contains(Escaped(v, Quote(v)), name);
      } else {
        var e := Escaped(name, '\'');
        assert Quote(v) == '\'' && Escaped(v, '\'') == e + ['\"'];
        if Contains(e + ['\"'], name) {
          LastCharUnused(e, '\"', name);
        }
      }
    }
  }

  lemma LastCharUnused(s: string, c: char, part: string)
    requires c !in part && Contains(s + [c], part)
    ensures Contains(s, part)
  {
    var i: nat :| HasAt(s + [c], part, i);
    if |part| == 0 {
      assert HasAt(s, part, 0);
    } else {
      var last := |part| - 1;
      assert part[last] == (s + [c])[i + last];
      assert i + |part| <= |s|;
      assert s[i..i + |part|] == (s + [c])[i..i + |part|];
      assert HasAt(s, part, i);
    }
  }

  lemma SurvivesInside(name: string, v: string)
    requires SurvivesRepr(name) && Contains(v, name)
    ensures Contains(Escaped(v, Quote(v)), name)
  {
    var q := Quote(v);
    var x, y := ContainsParts(v, name);
    EscapedJoin(x + name, y, q);
    EscapedJoin(x, name, q);
    assert Escaped(v, q) == Escaped(x, q) + Escaped(name, q) + Escaped(y, q);
    ContainsPart(Escaped(x, q), Escaped(name, q), Escaped(y, q));
    if q == '\"' {
      assert '\"' !in name;
      if '\'' !in name {
        NoQuoteSameEscape(name);
      }
    }
    ContainsTransitive(Escaped(v, q), Escaped(name, q), name);
  }
}
