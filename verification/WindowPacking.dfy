/** Packing the lines of an exchange into windows of a bounded number of words. */
module WindowPacking {
  import opened Core
  import opened Text

  // ---- Words and where they are ----

  datatype Span = Span(start: nat, end: nat)

  /** The words of `s` in order, as positions counted from `o`. */
  function Spans(s: string, o: nat): seq<Span> {
    if s == [] then []
    else if IsSpace(s[0]) then Spans(s[1..], o + 1)
    else
      var rest := Spans(s[1..], o + 1);
      if |s| > 1 && !IsSpace(s[1]) && rest != [] then [Span(o, rest[0].end)] + rest[1..]
      else [Span(o, o + 1)] + rest
  }

  /** Each span is a word of `s`, and between two of them there is only space, and some. */
  ghost predicate SpansAre(s: string, o: nat, spans: seq<Span>) {
    && (forall i :: 0 <= i < |spans| ==> SpanOk(s, o, spans[i]))
    && (forall i :: GapAt(s, o, spans, i))
  }

  ghost predicate GapAt(s: string, o: nat, spans: seq<Span>, i: int) {
    0 <= i < |spans| - 1 ==> GapOk(s, o, spans[i], spans[i + 1])
  }

  ghost predicate SpanOk(s: string, o: nat, w: Span) {
    o <= w.start < w.end <= o + |s| && NoSpace(s[w.start - o..w.end - o])
  }

  ghost predicate GapOk(s: string, o: nat, v: Span, w: Span) {
    o <= v.end < w.start <= o + |s| && AllSpace(s[v.end - o..w.start - o])
  }

  /** After the last word there is only space. */
  ghost predicate EndsInSpace(s: string, o: nat, spans: seq<Span>)
    requires spans != []
  {
    var last := spans[|spans| - 1];
    o <= last.end <= o + |s| && AllSpace(s[last.end - o..])
  }

  lemma {:induction false} SpansFromWords(s: string, o: nat)
    ensures SpansAre(s, o, Spans(s, o))
    ensures |Spans(s, o)| == |Words(s)|
    ensures Spans(s, o) != [] ==> AllSpace(s[..Spans(s, o)[0].start - o])
    ensures if Spans(s, o) == [] then AllSpace(s) else EndsInSpace(s, o, Spans(s, o))
    ensures s != [] && !IsSpace(s[0]) ==> Spans(s, o) != [] && Spans(s, o)[0].start == o
  {
    if s != [] {
      var rest := Spans(s[1..], o + 1);
      SpansFromWords(s[1..], o + 1);
      ShiftedAll(s, o, rest);
      if rest != [] {
        ShiftedEnds(s, o, rest);
      }
      if IsSpace(s[0]) {
        SpaceFirst(s, o, rest);
      } else {
        WordFirst(s, o, rest);
      }
    }
  }

  lemma SpaceFirst(s: string, o: nat, rest: seq<Span>)
    requires s != [] && IsSpace(s[0]) && rest == Spans(s[1..], o + 1) && |rest| == |Words(s[1..])| && SpansAre(s, o, rest)
    requires if rest == [] then AllSpace(s[1..]) else EndsInSpace(s, o, rest)
    ensures Spans(s, o) == rest && SpansAre(s, o, rest) && |rest| == |Words(s)|
    ensures if rest == [] then AllSpace(s) else EndsInSpace(s, o, rest)
  {
    assert s == [s[0]] + s[1..];
  }

  lemma WordFirst(s: string, o: nat, rest: seq<Span>)
    requires s != [] && !IsSpace(s[0]) && rest == Spans(s[1..], o + 1) && |rest| == |Words(s[1..])| && SpansAre(s, o, rest)
    requires rest != [] ==> o + 1 <= rest[0].start <= o + |s| && AllSpace(s[1..rest[0].start - o])
    requires if rest == [] then AllSpace(s[1..]) else EndsInSpace(s, o, rest)
    requires |s| > 1 && !IsSpace(s[1]) ==> rest != [] && rest[0].start == o + 1
    ensures SpansAre(s, o, Spans(s, o)) && |Spans(s, o)| == |Words(s)|
    ensures Spans(s, o) != [] && Spans(s, o)[0].start == o && EndsInSpace(s, o, Spans(s, o))
  {
    FirstWord(s, o, rest);
  }

  lemma FirstWord(s: string, o: nat, rest: seq<Span>)
    requires s != [] && !IsSpace(s[0]) && SpansAre(s, o, rest)
    requires rest != [] ==> o + 1 <= rest[0].start <= o + |s| && AllSpace(s[1..rest[0].start - o])
    requires |s| > 1 && !IsSpace(s[1]) ==> rest != [] && rest[0].start == o + 1
    ensures SpansAre(s, o, if |s| > 1 && !IsSpace(s[1]) then [Span(o, rest[0].end)] + rest[1..] else [Span(o, o + 1)] + rest)
  {
    if |s| > 1 && !IsSpace(s[1]) {
      FirstWordGrows(s, o, rest);
    } else {
      if rest != [] {
        StartsWithWord(s, o, rest[0]);
      }
      FirstWordAlone(s, o, rest);
    }
  }

  lemma ShiftedAll(s: string, o: nat, rest: seq<Span>)
    requires s != [] && SpansAre(s[1..], o + 1, rest)
    ensures SpansAre(s, o, rest)
  {
    forall i | 0 <= i < |rest| ensures SpanOk(s, o, rest[i]) {
      Shifted(s, o, rest[i]);
    }
    forall i ensures GapAt(s, o, rest, i) {
      assert GapAt(s[1..], o + 1, rest, i);
      if 0 <= i < |rest| - 1 {
        ShiftedGap(s, o, rest[i], rest[i + 1]);
      }
    }
  }

  lemma ShiftedEnds(s: string, o: nat, rest: seq<Span>)
    requires s != [] && rest != [] && o + 1 <= rest[0].start <= o + |s| && AllSpace(s[1..][..rest[0].start - (o + 1)])
    requires EndsInSpace(s[1..], o + 1, rest)
    ensures AllSpace(s[1..rest[0].start - o]) && EndsInSpace(s, o, rest)
    ensures IsSpace(s[0]) ==> AllSpace(s[..rest[0].start - o])
  {
    var last := rest[|rest| - 1];
    TailSlices(s, rest[0].start - (o + 1), last.end - (o + 1));
  }

  lemma TailSlices(s: string, a: nat, b: nat)
    requires s != [] && a < |s| && b < |s|
    ensures s[1..a + 1] == s[1..][..a] && s[..a + 1] == [s[0]] + s[1..][..a] && s[b + 1..] == s[1..][b..]
  {
  }

  lemma StartsWithWord(s: string, o: nat, w: Span)
    requires SpanOk(s, o, w)
    ensures !IsSpace(s[w.start - o])
  {
    assert s[w.start - o..w.end - o][0] == s[w.start - o];
  }

  lemma Shifted(s: string, o: nat, w: Span)
    requires s != [] && SpanOk(s[1..], o + 1, w)
    ensures SpanOk(s, o, w)
  {
    SliceOfTail(s, w.start - o - 1, w.end - o - 1);
  }

  lemma SliceOfTail(s: string, a: nat, b: nat)
    requires s != [] && a <= b < |s|
    ensures s[1..][a..b] == s[a + 1..b + 1]
  {
  }

  lemma ShiftedGap(s: string, o: nat, v: Span, w: Span)
    requires s != [] && GapOk(s[1..], o + 1, v, w)
    ensures GapOk(s, o, v, w)
  {
    SliceOfTail(s, v.end - o - 1, w.start - o - 1);
  }

  lemma Prepend(s: string, o: nat, w: Span, rest: seq<Span>)
    requires SpansAre(s, o, rest) && SpanOk(s, o, w) && (rest != [] ==> GapOk(s, o, w, rest[0]))
    ensures SpansAre(s, o, [w] + rest)
  {
    var all := [w] + rest;
    forall i ensures GapAt(s, o, all, i) {
      assert GapAt(s, o, rest, i - 1);
      if 0 < i < |all| - 1 {
        assert all[i] == rest[i - 1] && all[i + 1] == rest[i];
      }
    }
    forall i | 0 <= i < |all| ensures SpanOk(s, o, all[i]) {
      if i > 0 {
        assert all[i] == rest[i - 1];
      }
    }
  }

  lemma TailSpans(s: string, o: nat, rest: seq<Span>)
    requires SpansAre(s, o, rest) && rest != []
    ensures SpansAre(s, o, rest[1..])
  {
    forall i ensures GapAt(s, o, rest[1..], i) {
      assert GapAt(s, o, rest, i + 1);
    }
  }

  /** The first character starts a word that goes on: it joins the first word of the rest. */
  lemma FirstWordGrows(s: string, o: nat, rest: seq<Span>)
    requires |s| > 1 && !IsSpace(s[0]) && SpansAre(s, o, rest) && rest != [] && rest[0].start == o + 1
    ensures SpansAre(s, o, [Span(o, rest[0].end)] + rest[1..])
  {
    var w := Span(o, rest[0].end);
    assert SpanOk(s, o, rest[0]) && GapAt(s, o, rest, 0);
    assert s[0..w.end - o] == [s[0]] + s[1..w.end - o];
    TailSpans(s, o, rest);
    Prepend(s, o, w, rest[1..]);
  }

  /** The first character is a word of its own. */
  lemma FirstWordAlone(s: string, o: nat, rest: seq<Span>)
    requires s != [] && !IsSpace(s[0]) && SpansAre(s, o, rest)
    requires rest != [] ==> o + 1 < rest[0].start <= o + |s| && AllSpace(s[1..rest[0].start - o])
    ensures SpansAre(s, o, [Span(o, o + 1)] + rest)
  {
    LoneSpan(s, o);
    if rest != [] {
      GapAfterFirst(s, o, rest[0]);
    }
    Prepend(s, o, Span(o, o + 1), rest);
  }

  lemma LoneSpan(s: string, o: nat)
    requires s != [] && !IsSpace(s[0])
    ensures SpanOk(s, o, Span(o, o + 1))
  {
    assert s[0..1] == [s[0]];
  }

  lemma GapAfterFirst(s: string, o: nat, w: Span)
    requires o + 1 < w.start <= o + |s| && AllSpace(s[1..w.start - o])
    ensures GapOk(s, o, Span(o, o + 1), w)
  {
  }

  /** The words at the given positions. */
  function Slices(s: string, spans: seq<Span>): seq<string>
    requires forall i :: 0 <= i < |spans| ==> spans[i].start <= spans[i].end <= |s|
  {
    seq(|spans|, i requires 0 <= i < |spans| => s[spans[i].start..spans[i].end])
  }

  lemma Slices4(s: string, a: nat, b: nat, c: nat, d: nat)
    requires a <= b <= c <= d <= |s|
    ensures s[a..d] == s[a..b] + s[b..c] + s[c..d]
  {
  }

  /** The text from one word through another holds exactly the words from the one through the other. */
  lemma {:induction false} WordsBetween(s: string, spans: seq<Span>, i: nat, j: nat)
    requires SpansAre(s, 0, spans) && i < j <= |spans|
    ensures spans[i].start <= spans[j - 1].end
    ensures Words(s[spans[i].start..spans[j - 1].end]) == Slices(s, spans[i..j])
    decreases j
  {
    assert SpanOk(s, 0, spans[j - 1]);
    var last := s[spans[j - 1].start..spans[j - 1].end];
    OneWord(last);
    if j == i + 1 {
      assert Slices(s, spans[i..j]) == [last];
    } else {
      WordsBetween(s, spans, i, j - 1);
      LastWordJoins(s, spans, i, j);
    }
  }

  lemma LastWordJoins(s: string, spans: seq<Span>, i: nat, j: nat)
    requires SpansAre(s, 0, spans) && i + 1 < j <= |spans| && spans[i].start <= spans[j - 2].end
    requires Words(s[spans[i].start..spans[j - 2].end]) == Slices(s, spans[i..j - 1])
    ensures spans[i].start <= spans[j - 1].end
    ensures Words(s[spans[i].start..spans[j - 1].end]) == Slices(s, spans[i..j])
  {
    assert SpanOk(s, 0, spans[j - 1]) && GapAt(s, 0, spans, j - 2);
    var front := s[spans[i].start..spans[j - 2].end];
    var gap := s[spans[j - 2].end..spans[j - 1].start];
    var last := s[spans[j - 1].start..spans[j - 1].end];
    GapJoins(front, gap, last);
    Slices4(s, spans[i].start, spans[j - 2].end, spans[j - 1].start, spans[j - 1].end);
    assert Slices(s, spans[i..j]) == Slices(s, spans[i..j - 1]) + [last];
  }

  lemma GapJoins(front: string, gap: string, last: string)
    requires AllSpace(gap) && gap != [] && NoSpace(last) && last != []
    ensures Words(front + gap + last) == Words(front) + [last]
  {
    SpaceHasNoWords(gap);
    OneWord(last);
    assert gap[0] in gap && gap[|gap| - 1] in gap;
    WordsJoin(front, gap);
    WordsJoin(front + gap, last);
  }


  /** All the words of a text, by their positions. */
  lemma WordsByPosition(s: string)
    ensures SpansAre(s, 0, Spans(s, 0)) && |Spans(s, 0)| == |Words(s)|
    ensures Words(s) == SlicesOf(s)
  {
    SpansFromWords(s, 0);
    var spans := Spans(s, 0);
    if spans == [] {
      SpaceHasNoWords(s);
    } else {
      AllWords(s, spans);
    }
  }

  lemma AllWords(s: string, spans: seq<Span>)
    requires SpansAre(s, 0, spans) && spans != [] && EndsInSpace(s, 0, spans) && AllSpace(s[..spans[0].start])
    ensures Words(s) == Slices(s, spans)
  {
    var a, b := spans[0].start, spans[|spans| - 1].end;
    assert SpanOk(s, 0, spans[|spans| - 1]);
    WordsBetween(s, spans, 0, |spans|);
    assert spans[0..|spans|] == spans;
    Surrounded(s, a, b);
  }

  function SlicesOf(s: string): seq<string> {
    SpansFromWords(s, 0);
    assert forall i :: 0 <= i < |Spans(s, 0)| ==> SpanOk(s, 0, Spans(s, 0)[i]);
    Slices(s, Spans(s, 0))
  }

  lemma Surrounded(s: string, a: nat, b: nat)
    requires a <= b <= |s| && AllSpace(s[..a]) && AllSpace(s[b..])
    ensures Words(s) == Words(s[a..b])
  {
    SpaceHasNoWords(s[..a]);
    SpaceHasNoWords(s[b..]);
    Slices4(s, 0, a, b, |s|);
    assert s[0..|s|] == s && s[0..a] == s[..a] && s[b..|s|] == s[b..];
    if a > 0 {
      assert s[..a][a - 1] in s[..a];
    }
    if b < |s| {
      assert s[b..][0] in s[b..];
    }
    WordsJoin(s[..a], s[a..b]);
    WordsJoin(s[..a] + s[a..b], s[b..]);
  }

  // ---- Lines, fragments and windows ----

  datatype Line = Line(text: string, number: nat, start: nat, end: nat, group: nat)
  datatype Fragment = Fragment(text: string, tokens: nat, line: nat, start: nat, end: nat, group: nat)
  datatype Window = Window(text: string, tokens: nat, firstLine: nat, lastLine: nat, start: nat, end: nat)

  function Whole(line: Line): Fragment {
    Fragment(line.text, |Words(line.text)|, line.number, line.start, line.end, line.group)
  }

  function Tokens(fragments: seq<Fragment>): nat {
    if fragments == [] then 0 else Tokens(fragments[..|fragments| - 1]) + fragments[|fragments| - 1].tokens
  }

  function WordsOf(fragments: seq<Fragment>): seq<string> {
    if fragments == [] then [] else WordsOf(fragments[..|fragments| - 1]) + Words(fragments[|fragments| - 1].text)
  }

  function Separator(a: Fragment, b: Fragment): string {
    if a.group == b.group then "\n" else "\n\n"
  }

  /** Fragments joined by a newline, or two where the paragraph or turn changes. */
  function TextOf(fragments: seq<Fragment>): string
    requires fragments != []
  {
    var n := |fragments|;
    if n == 1 then fragments[0].text
    else TextOf(fragments[..n - 1]) + Separator(fragments[n - 2], fragments[n - 1]) + fragments[n - 1].text
  }

  function WindowOf(fragments: seq<Fragment>): Window
    requires fragments != []
  {
    var last := fragments[|fragments| - 1];
    Window(TextOf(fragments), Tokens(fragments), fragments[0].line, last.line, fragments[0].start, last.end)
  }

  /** Where each text stands in a window: one newline after it, or two where the group changes, and nothing else. */
  ghost predicate LaidOut(text: string, fragments: seq<Fragment>, at: seq<nat>) {
    && |at| == |fragments| > 0 && at[0] == 0
    && (forall j :: 0 <= j < |at| ==> at[j] + |fragments[j].text| <= |text|)
    && (forall j :: 0 <= j < |at| ==> text[at[j]..at[j] + |fragments[j].text|] == fragments[j].text)
    && (forall j :: 0 < j < |at| ==> Follows(text, fragments[j - 1], at[j - 1], fragments[j].group, at[j]))
    && |text| == at[|at| - 1] + |fragments[|at| - 1].text|
  }

  ghost predicate Follows(text: string, f: Fragment, start: nat, group: nat, next: nat) {
    var end := start + |f.text|;
    && end <= next <= |text|
    && text[end..next] == if f.group == group then "\n" else "\n\n"
  }

  lemma {:induction false} LaysOut(fragments: seq<Fragment>) returns (at: seq<nat>)
    requires fragments != []
    ensures LaidOut(TextOf(fragments), fragments, at)
  {
    var n := |fragments|;
    if n == 1 {
      at := [0];
    } else {
      var front, last := fragments[..n - 1], fragments[n - 1];
      at := LaysOut(front);
      at := at + [|TextOf(front)| + |Separator(front[n - 2], last)|];
      OneMoreLaid(TextOf(front), TextOf(fragments), fragments, at);
    }
  }

  lemma OneMoreLaid(was: string, now: string, fragments: seq<Fragment>, at: seq<nat>)
    requires |fragments| == |at| > 1 && LaidOut(was, fragments[..|at| - 1], at[..|at| - 1])
    requires var n := |at|;
      && at[n - 1] == |was| + |Separator(fragments[n - 2], fragments[n - 1])|
      && now == was + Separator(fragments[n - 2], fragments[n - 1]) + fragments[n - 1].text
    ensures LaidOut(now, fragments, at)
  {
    assert at[0] == at[..|at| - 1][0];
    TextsStay(was, now, fragments, at);
    OneMoreFollows(was, now, fragments, at);
  }

  lemma TextsStay(was: string, now: string, fragments: seq<Fragment>, at: seq<nat>)
    requires |fragments| == |at| > 1 && LaidOut(was, fragments[..|at| - 1], at[..|at| - 1]) && was <= now
    ensures forall j :: 0 <= j < |at| - 1 ==> at[j] + |fragments[j].text| <= |now|
    ensures forall j :: 0 <= j < |at| - 1 ==> now[at[j]..at[j] + |fragments[j].text|] == fragments[j].text
  {
    var n := |at|;
    var front, before := fragments[..n - 1], at[..n - 1];
    forall j | 0 <= j < n - 1
      ensures at[j] + |fragments[j].text| <= |now| && now[at[j]..at[j] + |fragments[j].text|] == fragments[j].text
    {
      assert before[j] == at[j] && front[j] == fragments[j];
      assert now[at[j]..at[j] + |fragments[j].text|] == was[at[j]..at[j] + |fragments[j].text|];
    }
  }

  lemma OneMoreFollows(was: string, now: string, fragments: seq<Fragment>, at: seq<nat>)
    requires |fragments| == |at| > 1 && LaidOut(was, fragments[..|at| - 1], at[..|at| - 1])
    requires var n := |at|;
      && at[n - 1] == |was| + |Separator(fragments[n - 2], fragments[n - 1])|
      && now == was + Separator(fragments[n - 2], fragments[n - 1]) + fragments[n - 1].text
    ensures forall j :: 0 < j < |at| ==> Follows(now, fragments[j - 1], at[j - 1], fragments[j].group, at[j])
  {
    var n := |at|;
    var front, before := fragments[..n - 1], at[..n - 1];
    forall j | 0 < j < n ensures Follows(now, fragments[j - 1], at[j - 1], fragments[j].group, at[j]) {
      assert before[j - 1] == at[j - 1] && front[j - 1] == fragments[j - 1];
      if j < n - 1 {
        assert before[j] == at[j] && front[j] == fragments[j];
        StillFollows(was, now, fragments[j - 1], at[j - 1], fragments[j].group, at[j]);
      } else {
        assert now[|was|..at[j]] == Separator(fragments[j - 1], fragments[j]);
      }
    }
  }

  lemma StillFollows(was: string, now: string, f: Fragment, start: nat, group: nat, next: nat)
    requires was <= now && Follows(was, f, start, group, next)
    ensures Follows(now, f, start, group, next)
  {
    assert now[start + |f.text|..next] == was[start + |f.text|..next];
  }

  // ---- What a window is made of ----

  /** A line that fits a window is taken whole; of a longer one, a part that begins and ends with a word. */
  ghost predicate TakenFrom(f: Fragment, line: Line, max: nat) {
    if |Words(line.text)| <= max then
      && f.text == line.text && f.tokens == |Words(line.text)|
      && f.line == line.number && f.group == line.group && f.start == line.start && f.end == line.end
    else
      exists a, b :: PartOf(f, line, a, b)
  }

  ghost predicate PartOf(f: Fragment, line: Line, a: nat, b: nat) {
    && a < b <= |line.text| && !IsSpace(line.text[a]) && !IsSpace(line.text[b - 1])
    && f.text == line.text[a..b] && f.tokens == |Words(f.text)|
    && f.line == line.number && f.group == line.group && f.start == line.start + a && f.end == line.start + b
  }

  /** `origin` lists the lines the fragments come from: later lines later, and no line twice. */
  ghost predicate Drawn(fragments: seq<Fragment>, origin: seq<nat>, lines: seq<Line>, max: nat) {
    var n := |fragments|;
    && |origin| == n
    && (n > 0 ==> Drawn(fragments[..n - 1], origin[..n - 1], lines, max))
    && (n > 0 ==> origin[n - 1] < |lines| && TakenFrom(fragments[n - 1], lines[origin[n - 1]], max))
    && (n > 1 ==> origin[n - 2] < origin[n - 1])
  }

  ghost predicate FromLines(fragments: seq<Fragment>, lines: seq<Line>, max: nat) {
    fragments != [] && exists origin :: Drawn(fragments, origin, lines, max)
  }

  /** A window is closed only when full, or when the next line does not fit beside what it holds. */
  ghost predicate ClosedFor(window: seq<Fragment>, f: Fragment, lines: seq<Line>, max: nat) {
    || Tokens(window) == max
    || (exists line :: line in lines && |Words(line.text)| <= max < Tokens(window) + |Words(line.text)| && TakenFrom(f, line, max))
  }

  ghost predicate ClosedInTime(packed: seq<seq<Fragment>>, lines: seq<Line>, max: nat) {
    var n := |packed|;
    && (n > 0 ==> ClosedInTime(packed[..n - 1], lines, max) && FromLines(packed[n - 1], lines, max))
    && (n > 1 ==> ClosedFor(packed[n - 2], packed[n - 1][0], lines, max))
  }

  lemma {:induction false} DrawnGrows(fragments: seq<Fragment>, origin: seq<nat>, lines: seq<Line>, line: Line, max: nat)
    requires Drawn(fragments, origin, lines, max)
    ensures Drawn(fragments, origin, lines + [line], max)
  {
    if fragments != [] {
      DrawnGrows(fragments[..|fragments| - 1], origin[..|fragments| - 1], lines, line, max);
    }
  }

  lemma OneMoreDrawn(fragments: seq<Fragment>, origin: seq<nat>, f: Fragment, lines: seq<Line>, max: nat)
    requires Drawn(fragments, origin, lines, max) && lines != [] && TakenFrom(f, lines[|lines| - 1], max)
    requires origin != [] ==> origin[|origin| - 1] < |lines| - 1
    requires Counted(fragments) && f.tokens == |Words(f.text)| > 0
    ensures Drawn(fragments + [f], origin + [|lines| - 1], lines, max)
    ensures Tokens(fragments + [f]) == Tokens(fragments) + f.tokens && Counted(fragments + [f])
  {
    assert (fragments + [f])[..|fragments|] == fragments;
    assert (origin + [|lines| - 1])[..|fragments|] == origin;
  }

  lemma {:induction false} ClosedGrows(packed: seq<seq<Fragment>>, lines: seq<Line>, line: Line, max: nat)
    requires ClosedInTime(packed, lines, max)
    ensures ClosedInTime(packed, lines + [line], max)
  {
    var n := |packed|;
    if n > 0 {
      ClosedGrows(packed[..n - 1], lines, line, max);
      var origin :| Drawn(packed[n - 1], origin, lines, max);
      DrawnGrows(packed[n - 1], origin, lines, line, max);
    }
    if n > 1 {
      MoreLines(packed[n - 2], packed[n - 1][0], lines, line, max);
    }
  }

  lemma MoreLines(window: seq<Fragment>, f: Fragment, lines: seq<Line>, line: Line, max: nat)
    requires ClosedFor(window, f, lines, max)
    ensures ClosedFor(window, f, lines + [line], max)
  {
    assert forall l :: l in lines ==> l in lines + [line];
  }

  ghost predicate Counted(fragments: seq<Fragment>) {
    forall f :: f in fragments ==> f.tokens == |Words(f.text)| > 0
  }

  lemma {:induction false} JoinedWords(fragments: seq<Fragment>)
    requires fragments != []
    ensures Words(TextOf(fragments)) == WordsOf(fragments)
  {
    var n := |fragments|;
    if n == 1 {
      assert fragments[..0] == [];
    } else {
      var front, last := fragments[..n - 1], fragments[n - 1];
      JoinedWords(front);
      SeparatedWords(TextOf(front), Separator(front[n - 2], last), last.text);
    }
  }

  lemma {:induction false} CountedTokens(fragments: seq<Fragment>)
    requires Counted(fragments)
    ensures Tokens(fragments) == |WordsOf(fragments)|
    ensures fragments != [] ==> Tokens(fragments) > 0
  {
    if fragments != [] {
      CountedTokens(fragments[..|fragments| - 1]);
      assert fragments[|fragments| - 1] in fragments;
    }
  }

  /** The fragments of the flushed windows, then the pending ones. */
  function AllOf(packed: seq<seq<Fragment>>, pending: seq<Fragment>): seq<Fragment> {
    if packed == [] then pending else AllOf(packed[..|packed| - 1], packed[|packed| - 1] + pending)
  }

  lemma {:induction false} AllAppend(packed: seq<seq<Fragment>>, pending: seq<Fragment>, more: seq<Fragment>)
    ensures AllOf(packed, pending + more) == AllOf(packed, pending) + more
  {
    if packed != [] {
      var last := packed[|packed| - 1];
      assert last + (pending + more) == (last + pending) + more;
      AllAppend(packed[..|packed| - 1], last + pending, more);
    }
  }

  lemma {:induction false} WordsAppend(a: seq<Fragment>, b: seq<Fragment>)
    ensures WordsOf(a + b) == WordsOf(a) + WordsOf(b)
  {
    if b == [] {
      assert a + b == a;
    } else {
      var front, last := b[..|b| - 1], b[|b| - 1];
      assert (a + b)[..|a + b| - 1] == a + front && (a + b)[|a + b| - 1] == last;
      WordsAppend(a, front);
      assert (WordsOf(a) + WordsOf(front)) + Words(last.text) == WordsOf(a) + (WordsOf(front) + Words(last.text));
    }
  }

  /** The words of a run of whole words of a line. */
  function Piece(line: Line, spans: seq<Span>): (f: Fragment)
    requires spans != [] && spans[0].start <= spans[|spans| - 1].end <= |line.text|
  {
    var a, b := spans[0].start, spans[|spans| - 1].end;
    Fragment(line.text[a..b], |spans|, line.number, line.start + a, line.start + b, line.group)
  }

  lemma PieceWords(line: Line, i: nat, j: nat)
    requires i < j <= |Spans(line.text, 0)| == |Words(line.text)|
    ensures var taken := Spans(line.text, 0)[i..j];
      && taken[0].start <= taken[|taken| - 1].end <= |line.text|
      && Words(Piece(line, taken).text) == Words(line.text)[i..j]
      && PartOf(Piece(line, taken), line, taken[0].start, taken[|taken| - 1].end)
  {
    var spans := Spans(line.text, 0);
    WordsByPosition(line.text);
    WordsBetween(line.text, spans, i, j);
    assert SpanOk(line.text, 0, spans[j - 1]) && SpanOk(line.text, 0, spans[i]);
    TakenSpans(line.text, spans, i, j);
    StartsWithWord(line.text, 0, spans[i]);
    EndsWithWord(line.text, spans[j - 1]);
  }

  /** A piece of a line too long for a window is what a window takes from it. */
  lemma PieceIsTaken(line: Line, i: nat, j: nat, max: nat)
    requires i < j <= |Spans(line.text, 0)| == |Words(line.text)| && max < |Words(line.text)|
    ensures var taken := Spans(line.text, 0)[i..j];
      && taken[0].start <= taken[|taken| - 1].end <= |line.text|
      && Words(Piece(line, taken).text) == Words(line.text)[i..j]
      && TakenFrom(Piece(line, taken), line, max)
  {
    PieceWords(line, i, j);
  }

  lemma OneMorePiece(was: seq<Fragment>, f: Fragment, words: seq<string>, index: nat, next: nat)
    requires index <= next <= |words| && Words(f.text) == words[index..next]
    ensures WordsOf(was + [f]) + words[next..] == WordsOf(was) + words[index..]
  {
    assert (was + [f])[..|was|] == was;
    assert words[index..] == words[index..next] + words[next..];
  }

  lemma EndsWithWord(s: string, w: Span)
    requires SpanOk(s, 0, w)
    ensures !IsSpace(s[w.end - 1])
  {
    assert s[w.start..w.end][w.end - 1 - w.start] == s[w.end - 1];
  }

  lemma TakenSpans(s: string, spans: seq<Span>, i: nat, j: nat)
    requires i < j <= |spans| && forall k :: 0 <= k < |spans| ==> spans[k].start <= spans[k].end <= |s|
    ensures spans[i..j][0] == spans[i] && spans[i..j][|spans[i..j]| - 1] == spans[j - 1]
    ensures Slices(s, spans[i..j]) == Slices(s, spans)[i..j]
  {
  }

  /** The open window holds counted pieces of the lines. */
  ghost predicate IsOpen(pending: seq<Fragment>, tokens: nat, origin: seq<nat>, lines: seq<Line>, max: nat) {
    tokens == Tokens(pending) <= max && Counted(pending) && Drawn(pending, origin, lines, max)
  }

  ghost predicate AreClosed(packed: seq<seq<Fragment>>, windows: seq<Window>, lines: seq<Line>, max: nat) {
    AllFinished(packed, windows, max) && ClosedInTime(packed, lines, max)
  }

  /** The open window begins with what closed the last one. */
  ghost predicate GoesOn(packed: seq<seq<Fragment>>, pending: seq<Fragment>, lines: seq<Line>, max: nat) {
    packed != [] && pending != [] ==> ClosedFor(packed[|packed| - 1], pending[0], lines, max)
  }

  lemma OneMoreGoesOn(packed: seq<seq<Fragment>>, pending: seq<Fragment>, f: Fragment, lines: seq<Line>, max: nat)
    requires GoesOn(packed, if pending == [] then [f] else pending, lines, max)
    ensures GoesOn(packed, pending + [f], lines, max)
  {
  }

  lemma OneMoreOpen(pending: seq<Fragment>, tokens: nat, origin: seq<nat>, f: Fragment, lines: seq<Line>, max: nat)
    requires IsOpen(pending, tokens, origin, lines, max) && lines != [] && TakenFrom(f, lines[|lines| - 1], max)
    requires origin != [] ==> origin[|origin| - 1] < |lines| - 1
    requires f.tokens == |Words(f.text)| > 0 && tokens + f.tokens <= max
    ensures IsOpen(pending + [f], tokens + f.tokens, origin + [|lines| - 1], lines, max)
  {
    OneMoreDrawn(pending, origin, f, lines, max);
  }

  /** What the packer keeps: finished windows, an open one, and where it goes on. */
  ghost predicate Sound(packed: seq<seq<Fragment>>, windows: seq<Window>, pending: seq<Fragment>, tokens: nat,
                        origin: seq<nat>, lines: seq<Line>, max: nat)
  {
    && max > 0 && IsOpen(pending, tokens, origin, lines, max)
    && AreClosed(packed, windows, lines, max) && GoesOn(packed, pending, lines, max)
  }

  lemma OneMorePacked(packed: seq<seq<Fragment>>, windows: seq<Window>, pending: seq<Fragment>, tokens: nat,
                      origin: seq<nat>, f: Fragment, line: Line, lines: seq<Line>, max: nat)
    requires Sound(packed, windows, pending, tokens, origin, lines, max)
    requires lines != [] && lines[|lines| - 1] == line && TakenFrom(f, line, max)
    requires origin != [] && origin[|origin| - 1] >= |lines| - 1 ==> tokens == max
    requires f.tokens == |Words(f.text)| > 0 && tokens + f.tokens <= max
    requires pending == [] ==> GoesOn(packed, [f], lines, max)
    ensures Sound(packed, windows, pending + [f], tokens + f.tokens, origin + [|lines| - 1], lines, max)
    ensures AllOf(packed, pending + [f]) == AllOf(packed, pending) + [f]
  {
    AllAppend(packed, pending, [f]);
    OneMoreOpen(pending, tokens, origin, f, lines, max);
    OneMoreGoesOn(packed, pending, f, lines, max);
  }

  // ---- The packer ----

  /** The open window and the finished ones. */
  class Packer {
    const max: nat
    var windows: seq<Window>
    var pending: seq<Fragment>
    var tokens: nat
    ghost var packed: seq<seq<Fragment>>
    ghost var lines: seq<Line>
    ghost var origin: seq<nat>

    ghost predicate Valid()
      reads this
    {
      Sound(packed, windows, pending, tokens, origin, lines, max)
    }

    ghost predicate MayFollow(f: Fragment)
      reads this
    {
      GoesOn(packed, [f], lines, max)
    }

    /** The line that is read, nothing of which is in the open window unless that is full. */
    ghost predicate Reading(line: Line)
      reads this
    {
      && lines != [] && lines[|lines| - 1] == line
      && (origin != [] && origin[|origin| - 1] >= |lines| - 1 ==> tokens == max)
    }

    /** Between lines, a window is open as soon as there are windows. */
    ghost predicate Between()
      reads this
    {
      pending == [] ==> packed == []
    }

    /** After reading these lines. */
    ghost predicate Holds(done: seq<Line>)
      reads this
    {
      Valid() && Between() && lines == done && Packed(done, All(), max)
    }

    ghost function All(): seq<Fragment>
      reads this
    {
      AllOf(packed, pending)
    }

    constructor (max: nat)
      requires max > 0
      ensures Valid() && this.max == max && All() == [] && windows == [] && pending == []
      ensures Between() && lines == []
    {
      this.max, windows, pending, tokens, packed := max, [], [], 0, [];
      lines, origin := [], [];
    }

    /** The next line is read, and nothing of it is packed yet. */
    ghost method Take(line: Line)
      requires Valid()
      modifies this`lines
      ensures Valid() && lines == old(lines) + [line] && Reading(line)
      ensures All() == old(All()) && Between() == old(Between())
    {
      ClosedGrows(packed, lines, line, max);
      DrawnGrows(pending, origin, lines, line, max);
      if pending != [] && packed != [] {
        MoreLines(packed[|packed| - 1], pending[0], lines, line, max);
      }
      lines := lines + [line];
    }

    method Flush()
      requires Valid()
      modifies this
      ensures Valid() && All() == old(All()) && pending == [] && tokens == 0 && lines == old(lines) && origin == []
      ensures packed == if old(pending) == [] then old(packed) else old(packed) + [old(pending)]
    {
      if pending == [] {
        return;
      }
      CountedTokens(pending);
      assert (packed + [pending])[..|packed|] == packed && pending + [] == pending;
      assert FromLines(pending, lines, max);
      windows := windows + [WindowOf(pending)];
      packed := packed + [pending];
      pending, tokens, origin := [], 0, [];
    }

    method Add(f: Fragment, ghost line: Line)
      requires Valid() && f.tokens == |Words(f.text)| > 0 && tokens + f.tokens <= max
      requires Reading(line) && TakenFrom(f, line, max) && (pending == [] ==> MayFollow(f))
      modifies this
      ensures Valid() && All() == old(All()) + [f] && tokens == old(tokens) + f.tokens
      ensures pending == old(pending) + [f] && lines == old(lines) && packed == old(packed)
    {
      OneMorePacked(packed, windows, pending, tokens, origin, f, line, lines, max);
      pending, tokens, origin := pending + [f], tokens + f.tokens, origin + [|lines| - 1];
    }

    /** A line that fits in an empty window goes in whole; a longer one is cut at word boundaries. */
    method Pack(line: Line)
      requires Valid() && Between()
      modifies this
      ensures Valid() && Between() && lines == old(lines) + [line]
      ensures WordsOf(All()) == old(WordsOf(All())) + Words(line.text)
      ensures old(All()) <= All()
      ensures 0 < |Words(line.text)| <= max ==> All() == old(All()) + [Whole(line)]
    {
      var words := Spans(line.text, 0);
      WordsByPosition(line.text);
      Take(line);
      if words == [] {
        return;
      }
      PackWords(line, words);
    }

    method PackWords(line: Line, words: seq<Span>)
      requires Valid() && Between() && Reading(line) && words == Spans(line.text, 0) && |words| == |Words(line.text)| > 0
      modifies this
      ensures Valid() && Between() && lines == old(lines)
      ensures WordsOf(All()) == old(WordsOf(All())) + Words(line.text)
      ensures old(All()) <= All()
      ensures |words| <= max ==> All() == old(All()) + [Whole(line)]
    {
      if tokens + |words| > max && |words| <= max {
        Flush();
      }
      if tokens + |words| <= max {
        AddWhole(line);
        return;
      }
      Split(line, words);
    }

    method AddWhole(line: Line)
      requires Valid() && Reading(line) && 0 < |Words(line.text)| && tokens + |Words(line.text)| <= max
      requires pending == [] && packed != [] ==> Tokens(packed[|packed| - 1]) + |Words(line.text)| > max
      modifies this
      ensures Valid() && pending != [] && lines == old(lines)
      ensures All() == old(All()) + [Whole(line)]
      ensures WordsOf(All()) == old(WordsOf(All())) + Words(line.text)
    {
      ghost var was := All();
      assert (was + [Whole(line)])[..|was|] == was;
      Add(Whole(line), line);
    }

    /** The words of the line before `index` are packed, and a window is closed only when full. */
    ghost predicate Midway(start: seq<Fragment>, line: Line, index: nat)
      reads this
    {
      var words := Words(line.text);
      && Valid() && index <= |words| && start <= All() && WordsOf(All()) + words[index..] == WordsOf(start) + words
      && (index < |words| ==> Reading(line)) && (pending == [] ==> index < |words|)
      && (pending == [] && packed != [] ==> Tokens(packed[|packed| - 1]) == max)
    }

    method AddPart(line: Line, words: seq<Span>, index: nat, next: nat)
      requires Valid() && words == Spans(line.text, 0) && |words| == |Words(line.text)|
      requires index < next <= |words| && tokens + (next - index) <= max < |words| && Reading(line)
      requires pending == [] && packed != [] ==> Tokens(packed[|packed| - 1]) == max
      modifies this
      ensures Valid() && tokens == old(tokens) + (next - index) && old(All()) <= All()
      ensures pending != [] && lines == old(lines) && packed == old(packed)
      ensures WordsOf(All()) + Words(line.text)[next..] == old(WordsOf(All())) + Words(line.text)[index..]
    {
      var taken := words[index..next];
      PieceIsTaken(line, index, next, max);
      var piece := Piece(line, taken);
      ghost var was, all := All(), Words(line.text);
      OneMorePiece(was, piece, all, index, next);
      Add(piece, line);
    }

    method AddPiece(line: Line, words: seq<Span>, index: nat, next: nat, ghost start: seq<Fragment>)
      requires Midway(start, line, index) && words == Spans(line.text, 0) && |words| == |Words(line.text)|
      requires index < next <= |words| && tokens + (next - index) <= max < |words|
      requires next == |words| || tokens + (next - index) == max
      modifies this
      ensures Midway(start, line, next) && lines == old(lines)
    {
      AddPart(line, words, index, next);
    }

    method FlushFull(ghost start: seq<Fragment>, ghost line: Line, ghost index: nat)
      requires Midway(start, line, index) && index < |Words(line.text)| && tokens == max
      modifies this
      ensures Midway(start, line, index) && lines == old(lines) && tokens == 0
    {
      Flush();
    }

    method Split(line: Line, words: seq<Span>)
      requires Valid() && words == Spans(line.text, 0) && |words| == |Words(line.text)| > max
      requires Reading(line) && Between()
      modifies this
      ensures Valid() && Between() && lines == old(lines)
      ensures WordsOf(All()) == old(WordsOf(All())) + Words(line.text)
      ensures old(All()) <= All()
    {
      var index := 0;
      ghost var start := All();
      assert Words(line.text)[0..] == Words(line.text);
      while index < |words|
        invariant index <= |words| && Midway(start, line, index) && lines == old(lines)
        decreases |words| - index, tokens
      {
        var capacity := max - tokens;
        if capacity == 0 {
          FlushFull(start, line, index);
          continue;
        }
        var next := if index + capacity <= |words| then index + capacity else |words|;
        AddPiece(line, words, index, next, start);
        index := next;
      }
      assert Words(line.text)[|words|..] == [];
    }
  }

  ghost predicate Finished(fragments: seq<Fragment>, w: Window, max: nat) {
    fragments != [] && Counted(fragments) && w == WindowOf(fragments) && 0 < Tokens(fragments) <= max
  }

  ghost predicate AllFinished(packed: seq<seq<Fragment>>, windows: seq<Window>, max: nat) {
    var n := |packed|;
    && |windows| == n
    && (n > 0 ==> AllFinished(packed[..n - 1], windows[..n - 1], max) && Finished(packed[n - 1], windows[n - 1], max))
  }

  lemma {:induction false} EachFinished(packed: seq<seq<Fragment>>, windows: seq<Window>, max: nat)
    requires AllFinished(packed, windows, max)
    ensures |packed| == |windows|
    ensures forall k :: 0 <= k < |packed| ==> Finished(packed[k], windows[k], max)
  {
    var n := |packed|;
    if n > 0 {
      EachFinished(packed[..n - 1], windows[..n - 1], max);
      forall k | 0 <= k < n ensures Finished(packed[k], windows[k], max) {
        if k < n - 1 {
          assert packed[k] == packed[..n - 1][k] && windows[k] == windows[..n - 1][k];
        }
      }
    }
  }

  /** Where a window begins and ends, how many words it has and how its text is put together. */
  ghost predicate Shows(fragments: seq<Fragment>, w: Window) {
    && fragments != [] && w.tokens == |WordsOf(fragments)|
    && w.firstLine == fragments[0].line && w.start == fragments[0].start
    && w.lastLine == fragments[|fragments| - 1].line && w.end == fragments[|fragments| - 1].end
    && exists at :: LaidOut(w.text, fragments, at)
  }

  function LineWords(lines: seq<Line>): seq<string> {
    if lines == [] then [] else LineWords(lines[..|lines| - 1]) + Words(lines[|lines| - 1].text)
  }

  function WindowWords(windows: seq<Window>): seq<string> {
    if windows == [] then [] else WindowWords(windows[..|windows| - 1]) + Words(windows[|windows| - 1].text)
  }

  lemma {:induction false} WindowsShow(packed: seq<seq<Fragment>>, windows: seq<Window>, pending: seq<Fragment>, max: nat)
    requires AllFinished(packed, windows, max)
    ensures WordsOf(AllOf(packed, pending)) == WindowWords(windows) + WordsOf(pending)
  {
    if packed != [] {
      var last := packed[|packed| - 1];
      assert Finished(last, windows[|windows| - 1], max);
      WindowsShow(packed[..|packed| - 1], windows[..|windows| - 1], last + pending, max);
      WordsAppend(last, pending);
      JoinedWords(last);
    }
  }

  lemma WindowCounts(fragments: seq<Fragment>, w: Window, max: nat)
    requires Finished(fragments, w, max)
    ensures w.tokens == |Words(w.text)| && 0 < w.tokens <= max
  {
    JoinedWords(fragments);
    CountedTokens(fragments);
  }

  lemma {:induction false} AllHas(packed: seq<seq<Fragment>>, pending: seq<Fragment>, f: Fragment)
    requires f in AllOf(packed, pending)
    ensures f in pending || exists k :: 0 <= k < |packed| && f in packed[k]
  {
    if packed != [] {
      var front, last := packed[..|packed| - 1], packed[|packed| - 1];
      AllHas(front, last + pending, f);
      if f in last {
        assert f in packed[|packed| - 1];
      } else if f !in pending {
        var k :| 0 <= k < |front| && f in front[k];
        assert f in packed[k];
      }
    }
  }

  /** A fitting line lies whole in some window. */
  ghost predicate Kept(line: Line, packed: seq<seq<Fragment>>, max: int) {
    0 < |Words(line.text)| <= max ==> exists k :: 0 <= k < |packed| && Whole(line) in packed[k]
  }

  /** Every line that fits a window is among the fragments, whole. */
  ghost predicate HasWhole(lines: seq<Line>, fragments: seq<Fragment>, max: int) {
    forall line :: line in lines && 0 < |Words(line.text)| <= max ==> Whole(line) in fragments
  }

  lemma OneMoreWhole(lines: seq<Line>, line: Line, was: seq<Fragment>, now: seq<Fragment>, max: int)
    requires Packed(lines, was, max) && was <= now && WordsOf(now) == WordsOf(was) + Words(line.text)
    requires 0 < |Words(line.text)| <= max ==> now == was + [Whole(line)]
    ensures Packed(lines + [line], now, max)
  {
    assert (lines + [line])[..|lines|] == lines;
  }

  /** The fragments hold the words of the lines in order, and each fitting line whole. */
  ghost predicate Packed(lines: seq<Line>, fragments: seq<Fragment>, max: int) {
    WordsOf(fragments) == LineWords(lines) && HasWhole(lines, fragments, max)
  }

  method PackLines(lines: seq<Line>, max: nat) returns (packer: Packer)
    requires max > 0
    ensures fresh(packer) && packer.Valid() && packer.max == max && packer.pending == []
    ensures Packed(lines, packer.All(), max) && packer.lines == lines
  {
    packer := PackAll(lines, max);
    packer.Flush();
  }

  method PackAll(lines: seq<Line>, max: nat) returns (packer: Packer)
    requires max > 0
    ensures fresh(packer) && packer.max == max && packer.Holds(lines)
  {
    packer := new Packer(max);
    PackEach(packer, lines);
  }

  method PackEach(packer: Packer, lines: seq<Line>)
    requires packer.Holds([])
    modifies packer
    ensures packer.Holds(lines)
  {
    for i := 0 to |lines|
      invariant packer.Holds(lines[..i])
    {
      PackNext(packer, lines, i);
    }
    assert lines[..|lines|] == lines;
  }

  method PackNext(packer: Packer, lines: seq<Line>, i: nat)
    requires i < |lines| && packer.Holds(lines[..i])
    modifies packer
    ensures packer.Holds(lines[..i + 1])
  {
    assert lines[..i + 1] == lines[..i] + [lines[i]];
    PackOne(packer, lines[..i], lines[i]);
  }

  method PackOne(packer: Packer, ghost done: seq<Line>, line: Line)
    requires packer.Holds(done)
    modifies packer
    ensures packer.Holds(done + [line])
  {
    ghost var was := packer.All();
    packer.Pack(line);
    OneMoreWhole(done, line, was, packer.All(), packer.max);
  }

  lemma FittingLineKept(line: Line, packed: seq<seq<Fragment>>, max: int)
    requires 0 < |Words(line.text)| <= max ==> Whole(line) in AllOf(packed, [])
    ensures Kept(line, packed, max)
  {
    if 0 < |Words(line.text)| <= max {
      AllHas(packed, [], Whole(line));
    }
  }

  /** None when the bound is not positive. The ghost result lists the fragments each window was made of. */
  method PackExchangeWindows(lines: seq<Line>, max: int) returns (r: Option<seq<Window>>, ghost packed: seq<seq<Fragment>>)
    ensures r.None? <==> max <= 0
    ensures r.Some? ==> WindowWords(r.value) == LineWords(lines)
    ensures r.Some? ==> forall w :: w in r.value ==> w.tokens == |Words(w.text)| && 0 < w.tokens <= max
    ensures r.Some? ==> |packed| == |r.value| && forall k :: 0 <= k < |packed| ==> Finished(packed[k], r.value[k], max)
    ensures r.Some? ==> forall i :: 0 <= i < |lines| ==> Kept(lines[i], packed, max)
    ensures r.Some? ==> forall k :: 0 <= k < |packed| ==> Shows(packed[k], r.value[k])
    ensures r.Some? ==> ClosedInTime(packed, lines, max)
  {
    packed := [];
    if max <= 0 {
      return None, [];
    }
    var packer := PackLines(lines, max);
    packed := packer.packed;
    r := Some(packer.windows);
    WindowsShow(packed, packer.windows, [], max);
    AllCounted(packed, packer.windows, max);
    AllShow(packed, packer.windows, max);
    FittingLinesKept(lines, packed, max);
  }

  lemma FittingLinesKept(lines: seq<Line>, packed: seq<seq<Fragment>>, max: int)
    requires HasWhole(lines, AllOf(packed, []), max)
    ensures forall i :: 0 <= i < |lines| ==> Kept(lines[i], packed, max)
  {
    forall i | 0 <= i < |lines| ensures Kept(lines[i], packed, max) {
      assert lines[i] in lines;
      FittingLineKept(lines[i], packed, max);
    }
  }

  lemma AllShow(packed: seq<seq<Fragment>>, windows: seq<Window>, max: int)
    requires max > 0 && AllFinished(packed, windows, max)
    ensures |packed| == |windows| && forall k :: 0 <= k < |packed| ==> Shows(packed[k], windows[k])
  {
    EachFinished(packed, windows, max);
    forall k | 0 <= k < |packed| ensures Shows(packed[k], windows[k]) {
      WindowShows(packed[k], windows[k], max);
    }
  }

  lemma WindowShows(fragments: seq<Fragment>, w: Window, max: nat)
    requires Finished(fragments, w, max)
    ensures Shows(fragments, w)
  {
    CountedTokens(fragments);
    var at := LaysOut(fragments);
  }

  lemma AllCounted(packed: seq<seq<Fragment>>, windows: seq<Window>, max: int)
    requires max > 0 && AllFinished(packed, windows, max)
    ensures |packed| == |windows| && forall k :: 0 <= k < |packed| ==> Finished(packed[k], windows[k], max)
    ensures forall w :: w in windows ==> w.tokens == |Words(w.text)| && 0 < w.tokens <= max
  {
    EachFinished(packed, windows, max);
    forall w | w in windows ensures w.tokens == |Words(w.text)| && 0 < w.tokens <= max {
      var k :| 0 <= k < |windows| && windows[k] == w;
      WindowCounts(packed[k], w, max);
    }
  }
}
