/** Bounded breadth-first search and the representative paths of its result. */
module BreadthFirst {
  import opened Core
  import opened GraphSnapshots

  datatype Options = Options(direction: Direction, maxDepth: int, maxNodes: int, maxExaminations: int) {
    predicate Valid() {
      maxDepth >= 0 && maxNodes >= 1 && maxExaminations >= 0
    }
  }

  datatype Link = Link(parent: Id, edge: Id, reversed: bool)
  datatype Visit = Visit(node: Id, depth: nat, link: Option<Link>)
  /** The visit of a node reached from `v` along candidate `c`. */
  function Child(v: Visit, c: Candidate): Visit {
    Visit(c.next, v.depth + 1, Some(Link(v.node, c.edge, c.reversed)))
  }

  datatype StopReason = Completed | NodeLimit | EdgeLimit
  datatype SearchError = InvalidSearch | UnknownNode
  datatype SearchResult = SearchResult(
    source: Id, direction: Direction, maxDepth: int, visits: seq<Visit>,
    stop: StopReason, examined: nat, discovered: nat)

  // ---- Reachability, the reference notion ----

  ghost function Row(g: Snapshot, d: Direction, n: Id): seq<Candidate> {
    if n in g.Table(d) then g.Table(d)[n] else []
  }

  ghost predicate Adjacent(g: Snapshot, d: Direction, a: Id, b: Id) {
    exists c :: c in Row(g, d, a) && c.next == b
  }

  /** A walk in the chosen direction, as its sequence of nodes. */
  ghost predicate Walk(g: Snapshot, d: Direction, path: seq<Id>) {
    && path != []
    && forall i :: StepAt(g, d, path, i)
  }

  ghost predicate StepAt(g: Snapshot, d: Direction, path: seq<Id>, i: int) {
    0 <= i < |path| - 1 ==> Adjacent(g, d, path[i], path[i + 1])
  }

  /** `b` can be reached from `a` in exactly `k` steps. */
  ghost predicate Steps(g: Snapshot, d: Direction, a: Id, b: Id, k: nat)
    decreases k
  {
    if k == 0 then a == b
    else exists m :: Steps(g, d, a, m, k - 1) && Adjacent(g, d, m, b)
  }

  /** `k` is the length of a shortest walk from `a` to `b`. */
  ghost predicate Distance(g: Snapshot, d: Direction, a: Id, b: Id, k: nat) {
    Steps(g, d, a, b, k) && forall j: nat :: j < k ==> !Steps(g, d, a, b, j)
  }

  lemma StepsAreWalks(g: Snapshot, d: Direction, a: Id, b: Id, k: nat)
    ensures Steps(g, d, a, b, k) <==>
      exists p :: Walk(g, d, p) && |p| == k + 1 && p[0] == a && p[k] == b
  {
    if Steps(g, d, a, b, k) {
      var p := WalkOfSteps(g, d, a, b, k);
    }
    if p :| Walk(g, d, p) && |p| == k + 1 && p[0] == a && p[k] == b {
      WalkIsSteps(g, d, p);
    }
  }

  lemma {:induction false} WalkOfSteps(g: Snapshot, d: Direction, a: Id, b: Id, k: nat) returns (p: seq<Id>)
    requires Steps(g, d, a, b, k)
    ensures Walk(g, d, p) && |p| == k + 1 && p[0] == a && p[k] == b
    decreases k
  {
    if k == 0 {
      p := [a];
    } else {
      var m :| Steps(g, d, a, m, k - 1) && Adjacent(g, d, m, b);
      var front := WalkOfSteps(g, d, a, m, k - 1);
      WalkExtends(g, d, front, b);
      p := front + [b];
    }
  }

  lemma {:induction false} WalkIsSteps(g: Snapshot, d: Direction, p: seq<Id>)
    requires Walk(g, d, p)
    ensures Steps(g, d, p[0], p[|p| - 1], |p| - 1)
    decreases |p|
  {
    if |p| > 1 {
      WalkFront(g, d, p);
      WalkIsSteps(g, d, p[..|p| - 1]);
    }
  }

  lemma WalkExtends(g: Snapshot, d: Direction, p: seq<Id>, b: Id)
    requires Walk(g, d, p) && Adjacent(g, d, p[|p| - 1], b)
    ensures Walk(g, d, p + [b])
  {
    var more := p + [b];
    forall i ensures StepAt(g, d, more, i) {
      assert StepAt(g, d, p, i);
    }
  }

  lemma WalkFront(g: Snapshot, d: Direction, p: seq<Id>)
    requires Walk(g, d, p) && |p| > 1
    ensures Walk(g, d, p[..|p| - 1]) && Adjacent(g, d, p[|p| - 2], p[|p| - 1])
  {
    var front := p[..|p| - 1];
    forall i ensures StepAt(g, d, front, i) {
      assert StepAt(g, d, p, i);
    }
    assert StepAt(g, d, p, |p| - 2);
  }

  // ---- The search as a machine: the pending queue is always the unexpanded tail of the visits ----

  datatype State = State(visits: seq<Visit>, head: nat, cursor: nat, examined: nat)
  datatype Final = Final(visits: seq<Visit>, stop: StopReason, examined: nat)
  datatype Outcome = Stop(reason: StopReason, examined: nat) | Continue(next: State)

  ghost function Seen(visits: seq<Visit>): set<Id> {
    set v | v in visits :: v.node
  }

  lemma SeenGrows(visits: seq<Visit>, v: Visit)
    ensures Seen(visits + [v]) == Seen(visits) + {v.node}
  {
  }

  ghost function Start(source: Id): State {
    State([Visit(source, 0, None)], 0, 0, 0)
  }

  ghost function Step(g: Snapshot, o: Options, st: State): Outcome {
    if st.head >= |st.visits| then Stop(Completed, st.examined)
    else
      var v := st.visits[st.head];
      var row := Row(g, o.direction, v.node);
      if v.depth == o.maxDepth || st.cursor >= |row| then
        Continue(st.(head := st.head + 1, cursor := 0))
      else if st.examined == o.maxExaminations then Stop(EdgeLimit, st.examined)
      else
        var c := row[st.cursor];
        if c.next in Seen(st.visits) then
          Continue(st.(cursor := st.cursor + 1, examined := st.examined + 1))
        else if |st.visits| == o.maxNodes then Stop(NodeLimit, st.examined + 1)
        else Continue(State(st.visits + [Child(v, c)],
                            st.head, st.cursor + 1, st.examined + 1))
  }

  ghost function Next(g: Snapshot, o: Options, st: State): State {
    match Step(g, o, st)
    case Stop(_, _) => st
    case Continue(next) => next
  }

  /** The state after at most `n` steps. */
  ghost function After(g: Snapshot, o: Options, source: Id, n: nat): State {
    if n == 0 then Start(source) else Next(g, o, After(g, o, source, n - 1))
  }

  /** The run from `source` ends with these visits, for this reason. */
  ghost predicate Ends(g: Snapshot, o: Options, source: Id, end: Final) {
    exists n: nat :: EndsAt(g, o, After(g, o, source, n), end)
  }

  ghost predicate EndsAt(g: Snapshot, o: Options, st: State, end: Final) {
    Step(g, o, st) == Stop(end.stop, end.examined) && end.visits == st.visits
  }

  ghost predicate DistinctVisits(visits: seq<Visit>) {
    forall i, j :: 0 <= i < j < |visits| ==> visits[i].node != visits[j].node
  }

  /** Facts that make the search terminate. */
  ghost predicate Bounded(g: Snapshot, st: State) {
    && st.head <= |st.visits| && DistinctVisits(st.visits)
    && (forall v :: v in st.visits ==> v.node in g.nodes)
  }

  lemma {:induction false} SeenSize(visits: seq<Visit>)
    requires DistinctVisits(visits)
    ensures |Seen(visits)| == |visits|
  {
    if visits != [] {
      var front, last := visits[..|visits| - 1], visits[|visits| - 1];
      SeenSize(front);
      assert visits == front + [last];
      assert Seen(visits) == Seen(front) + {last.node};
      assert last.node !in Seen(front);
    }
  }

  lemma VisitsFit(g: Snapshot, st: State)
    requires Bounded(g, st)
    ensures |st.visits| <= |g.nodes|
  {
    SeenSize(st.visits);
    SubsetSize(Seen(st.visits), g.nodes);
  }

  lemma NextBounded(g: Snapshot, o: Options, st: State)
    requires g.Valid() && Bounded(g, st)
    ensures Bounded(g, Next(g, o, st)) && |Next(g, o, st).visits| <= |g.nodes|
  {
    var next := Next(g, o, st);
    if next.visits != st.visits {
      var v := st.visits[st.head];
      var c := Row(g, o.direction, v.node)[st.cursor];
      assert ValidTable(g.Table(o.direction), g.nodes);
      assert c in g.Table(o.direction)[v.node];
      assert c.next in g.nodes;
      forall i | 0 <= i < |st.visits| ensures st.visits[i].node != c.next {
        assert st.visits[i] in st.visits;
      }
    }
    VisitsFit(g, next);
  }

  // ---- The search as written ----

  /** The queue of the source holds the visits not yet expanded, with their depths. */
  ghost predicate Queue(pending: seq<(Id, nat)>, visits: seq<Visit>) {
    && |pending| <= |visits|
    && forall i :: 0 <= i < |pending| ==>
         var v := visits[|visits| - |pending| + i]; pending[i] == (v.node, v.depth)
  }

  /** The variables of the source and the machine agree after `n` steps. */
  ghost predicate InStep(g: Snapshot, o: Options, source: Id, n: nat, st: State, seen: set<Id>) {
    && st == After(g, o, source, n) && |st.visits| <= |g.nodes|
    && seen == Seen(st.visits) && |st.visits| <= o.maxNodes && st.examined <= o.maxExaminations
  }

  lemma {:induction false} AfterBounded(g: Snapshot, o: Options, source: Id, n: nat)
    requires g.Valid() && source in g.nodes
    ensures Bounded(g, After(g, o, source, n))
  {
    if n > 0 {
      AfterBounded(g, o, source, n - 1);
      NextBounded(g, o, After(g, o, source, n - 1));
    }
  }

  lemma HeadIsNode(g: Snapshot, o: Options, source: Id, n: nat, st: State, seen: set<Id>)
    requires g.Valid() && source in g.nodes && InStep(g, o, source, n, st, seen) && st.head < |st.visits|
    ensures st.visits[st.head].node in g.nodes
  {
    AfterBounded(g, o, source, n);
  }

  /** Reading one candidate of the node at the head of the queue. */
  lemma ReadTogether(g: Snapshot, o: Options, source: Id, n: nat, st: State, seen: set<Id>, v: Visit, c: Candidate)
    requires g.Valid() && source in g.nodes && InStep(g, o, source, n, st, seen)
    requires st.head < |st.visits| && st.visits[st.head] == v
    requires v.depth != o.maxDepth && st.cursor < |Row(g, o.direction, v.node)|
    requires c == Row(g, o.direction, v.node)[st.cursor]
    ensures st.examined == o.maxExaminations ==> EndsAt(g, o, st, Final(st.visits, EdgeLimit, st.examined))
    ensures st.examined != o.maxExaminations && c.next in seen ==>
      InStep(g, o, source, n + 1, State(st.visits, st.head, st.cursor + 1, st.examined + 1), seen)
    ensures st.examined != o.maxExaminations && c.next !in seen && |st.visits| == o.maxNodes ==>
      EndsAt(g, o, st, Final(st.visits, NodeLimit, st.examined + 1))
    ensures st.examined != o.maxExaminations && c.next !in seen && |st.visits| != o.maxNodes ==>
      InStep(g, o, source, n + 1, State(st.visits + [Child(v, c)], st.head, st.cursor + 1, st.examined + 1),
             seen + {c.next})
  {
    AfterBounded(g, o, source, n);
    NextBounded(g, o, st);
    SeenGrows(st.visits, Child(v, c));
  }

  /** Done with the node at the head of the queue. */
  lemma LeaveTogether(g: Snapshot, o: Options, source: Id, n: nat, st: State, seen: set<Id>)
    requires g.Valid() && InStep(g, o, source, n, st, seen) && st.head < |st.visits|
    requires st.visits[st.head].depth == o.maxDepth || st.cursor == |Row(g, o.direction, st.visits[st.head].node)|
    ensures InStep(g, o, source, n + 1, State(st.visits, st.head + 1, 0, st.examined), seen)
  {
  }

  /** The inner loop: examine the candidates of the node taken from the queue. */
  method Expand(g: Snapshot, o: Options, ghost source: Id, ghost n0: nat, node: Id, depth: nat,
                visits0: seq<Visit>, pending0: seq<(Id, nat)>, seen0: set<Id>, examined0: nat)
    returns (stop: Option<StopReason>, visits: seq<Visit>, pending: seq<(Id, nat)>, seen: set<Id>, examined: nat,
             ghost n: nat)
    requires g.Valid() && source in g.nodes && node in g.nodes && |pending0| < |visits0|
    requires InStep(g, o, source, n0, State(visits0, |visits0| - |pending0| - 1, 0, examined0), seen0)
    requires var v := visits0[|visits0| - |pending0| - 1]; v.node == node && v.depth == depth != o.maxDepth
    requires Queue(pending0, visits0)
    ensures stop.Some? ==> Ends(g, o, source, Final(visits, stop.value, examined))
    ensures stop.None? ==>
      && |pending| <= |visits| && InStep(g, o, source, n, State(visits, |visits| - |pending|, 0, examined), seen)
      && Queue(pending, visits) && |visits| >= |visits0| && |pending| - |pending0| == |visits| - |visits0|
  {
    visits, pending, seen, examined, n := visits0, pending0, seen0, examined0, n0;
    ghost var head := |visits0| - |pending0| - 1;
    assert Row(g, o.direction, node) == g.Candidates(node, o.direction);
    var row := g.Candidates(node, o.direction);
    for i := 0 to |row|
      invariant head < |visits| && visits[head].node == node && visits[head].depth == depth && |visits0| <= |visits|
      invariant InStep(g, o, source, n, State(visits, head, i, examined), seen)
      invariant Queue(pending, visits) && |pending| - |pending0| == |visits| - |visits0|
    {
      stop, visits, pending, seen, examined :=
        Examine(g, o, source, n, head, i, node, depth, row[i], visits, pending, seen, examined);
      if stop.Some? {
        return;
      }
      n := n + 1;
    }
    LeaveTogether(g, o, source, n, State(visits, head, |row|, examined), seen);
    n := n + 1;
    stop := None;
  }

  /** Examine one candidate: stop at a limit, pass over a node already seen, or queue a new one. */
  method Examine(g: Snapshot, o: Options, ghost source: Id, ghost n: nat, ghost head: nat, ghost i: nat, node: Id, depth: nat,
                 candidate: Candidate, visits0: seq<Visit>, pending0: seq<(Id, nat)>, seen0: set<Id>, examined0: nat)
    returns (stop: Option<StopReason>, visits: seq<Visit>, pending: seq<(Id, nat)>, seen: set<Id>, examined: nat)
    requires g.Valid() && source in g.nodes && head < |visits0| && Queue(pending0, visits0)
    requires visits0[head].node == node && visits0[head].depth == depth != o.maxDepth
    requires InStep(g, o, source, n, State(visits0, head, i, examined0), seen0)
    requires i < |Row(g, o.direction, node)| && candidate == Row(g, o.direction, node)[i]
    ensures stop.Some? ==> Ends(g, o, source, Final(visits, stop.value, examined))
    ensures stop.None? ==>
      && InStep(g, o, source, n + 1, State(visits, head, i + 1, examined), seen) && visits0 <= visits
      && Queue(pending, visits) && |pending| - |pending0| == |visits| - |visits0|
  {
    stop, visits, pending, seen, examined := None, visits0, pending0, seen0, examined0;
    ReadTogether(g, o, source, n, State(visits, head, i, examined), seen, visits[head], candidate);
    if examined == o.maxExaminations {
      stop := Some(EdgeLimit);
      return;
    }
    examined := examined + 1;
    if candidate.next in seen {
      return;
    }
    if |visits| == o.maxNodes {
      stop := Some(NodeLimit);
      return;
    }
    seen := seen + {candidate.next};
    QueueGrows(pending, visits, Child(visits[head], candidate));
    pending := pending + [(candidate.next, depth + 1)];
    visits := visits + [Visit(candidate.next, depth + 1, Some(Link(node, candidate.edge, candidate.reversed)))];
  }

  lemma QueueGrows(pending: seq<(Id, nat)>, visits: seq<Visit>, v: Visit)
    requires Queue(pending, visits)
    ensures Queue(pending + [(v.node, v.depth)], visits + [v])
  {
  }

  /** What one call promises its caller; the lemmas below say what the end of a run means. */
  method GraphSearch(g: Snapshot, source: Id, o: Options) returns (r: Result<SearchResult, SearchError>)
    requires g.Valid()
    ensures o.maxDepth < 0 || o.maxNodes < 1 || o.maxExaminations < 0 ==> r == Err(InvalidSearch)
    ensures o.Valid() && source !in g.nodes ==> r == Err(UnknownNode)
    ensures o.maxDepth >= 0 && o.maxNodes >= 1 && o.maxExaminations >= 0 && source in g.nodes ==>
      && r.Ok? && r.value.source == source && r.value.direction == o.direction && r.value.maxDepth == o.maxDepth
      && Ends(g, o, source, Final(r.value.visits, r.value.stop, r.value.examined))
      && r.value.discovered == |r.value.visits|
  {
    if !o.Valid() {
      return Err(InvalidSearch);
    }
    if source !in g.nodes {
      return Err(UnknownNode);
    }
    var visits: seq<Visit>, seen: set<Id>, pending: seq<(Id, nat)> := [Visit(source, 0, None)], {source}, [(source, 0)];
    var examined: nat := 0;
    ghost var n := 0;
    assert seen == Seen(visits);
    VisitsFit(g, Start(source));
    while pending != []
      invariant |pending| <= |visits| && Queue(pending, visits)
      invariant InStep(g, o, source, n, State(visits, |visits| - |pending|, 0, examined), seen)
      decreases |g.nodes| - |visits|, |pending|
    {
      HeadIsNode(g, o, source, n, State(visits, |visits| - |pending|, 0, examined), seen);
      var (node, depth) := pending[0];
      pending := pending[1..];
      if depth == o.maxDepth {
        LeaveTogether(g, o, source, n, State(visits, |visits| - |pending| - 1, 0, examined), seen);
        n := n + 1;
        continue;
      }
      var stop: Option<StopReason>;
      stop, visits, pending, seen, examined, n :=
        Expand(g, o, source, n, node, depth, visits, pending, seen, examined);
      if stop.Some? {
        return Ok(SearchResult(source, o.direction, o.maxDepth, visits, stop.value, examined, |visits|));
      }
    }
    assert EndsAt(g, o, After(g, o, source, n), Final(visits, Completed, examined));
    return Ok(SearchResult(source, o.direction, o.maxDepth, visits, Completed, examined, |visits|));
  }

  // ---- What the run means ----

  /** A visit other than the source came from an earlier one, one level up, along a listed candidate. */
  ghost predicate Linked(g: Snapshot, d: Direction, visits: seq<Visit>, i: nat)
    requires i < |visits|
  {
    var v := visits[i];
    && v.link.Some?
    && exists j :: 0 <= j < i && visits[j].node == v.link.value.parent && visits[j].depth + 1 == v.depth
         && Candidate(v.node, v.link.value.edge, v.link.value.reversed) in Row(g, d, visits[j].node)
  }

  ghost predicate InOrder(visits: seq<Visit>) {
    && DistinctVisits(visits)
    && (forall i, j :: 0 <= i < j < |visits| ==> visits[i].depth <= visits[j].depth)
  }

  ghost predicate AllShortest(g: Snapshot, d: Direction, source: Id, visits: seq<Visit>) {
    forall i :: 0 <= i < |visits| ==> Distance(g, d, source, visits[i].node, visits[i].depth)
  }

  ghost predicate AllLinked(g: Snapshot, d: Direction, visits: seq<Visit>) {
    forall i :: 0 < i < |visits| ==> Linked(g, d, visits, i)
  }

  /** The visits form a shortest-path tree in order of distance, whatever stopped the run. */
  ghost predicate ShortestTree(g: Snapshot, d: Direction, source: Id, visits: seq<Visit>) {
    && visits != [] && visits[0] == Visit(source, 0, None)
    && InOrder(visits) && AllShortest(g, d, source, visits) && AllLinked(g, d, visits)
  }

  ghost predicate AllSeen(row: seq<Candidate>, visits: seq<Visit>) {
    forall c :: c in row ==> c.next in Seen(visits)
  }

  /** Everything within `depth` steps of the source has been visited. */
  ghost predicate Covers(g: Snapshot, d: Direction, source: Id, visits: seq<Visit>, depth: nat) {
    forall b, k: nat :: Visited(g, d, source, visits, depth, b, k)
  }

  ghost predicate Visited(g: Snapshot, d: Direction, source: Id, visits: seq<Visit>, depth: nat, b: Id, k: nat) {
    k <= depth && Steps(g, d, source, b, k) ==> b in Seen(visits)
  }

  /** The first `head` visits had their rows read, unless they sit at the depth limit. */
  ghost predicate Expanded(g: Snapshot, o: Options, visits: seq<Visit>, head: nat)
    requires head <= |visits|
  {
    forall i :: 0 <= i < head && visits[i].depth < o.maxDepth ==> AllSeen(Row(g, o.direction, visits[i].node), visits)
  }

  ghost predicate Reading(g: Snapshot, o: Options, source: Id, st: State) {
    if st.head < |st.visits| then
      var v := st.visits[st.head];
      && st.visits[|st.visits| - 1].depth <= v.depth + 1
      && st.cursor <= |Row(g, o.direction, v.node)|
      && AllSeen(Row(g, o.direction, v.node)[..st.cursor], st.visits)
      && Covers(g, o.direction, source, st.visits, v.depth)
    else st.cursor == 0
  }

  ghost predicate Levels(g: Snapshot, o: Options, source: Id, st: State) {
    && Bounded(g, st)
    && ShortestTree(g, o.direction, source, st.visits) && |st.visits| <= o.maxNodes
    && st.visits[|st.visits| - 1].depth <= o.maxDepth
    && Expanded(g, o, st.visits, st.head)
    && Reading(g, o, source, st)
  }

  lemma VisitOf(visits: seq<Visit>, n: Id) returns (i: nat)
    requires n in Seen(visits)
    ensures i < |visits| && visits[i].node == n
  {
    var v :| v in visits && v.node == n;
    i :| 0 <= i < |visits| && visits[i] == v;
  }

  lemma StartLevels(g: Snapshot, o: Options, source: Id)
    requires o.Valid() && source in g.nodes
    ensures Levels(g, o, source, Start(source))
  {
    var visits := Start(source).visits;
    assert Steps(g, o.direction, source, source, 0);
    forall b, k: nat ensures Visited(g, o.direction, source, visits, 0, b, k) {
      assert visits[0].node == source;
    }
  }

  /** When every row up to one level is read, coverage reaches the next level. */
  lemma CoverNext(g: Snapshot, o: Options, source: Id, visits: seq<Visit>, depth: nat, expanded: nat)
    requires AllShortest(g, o.direction, source, visits) && Covers(g, o.direction, source, visits, depth)
    requires expanded <= |visits| && depth < o.maxDepth
    requires Expanded(g, o, visits, expanded)
    requires forall i :: expanded <= i < |visits| ==> visits[i].depth > depth
    ensures Covers(g, o.direction, source, visits, depth + 1)
  {
    var next := depth + 1;
    forall b, k: nat ensures Visited(g, o.direction, source, visits, next, b, k) {
      assert Visited(g, o.direction, source, visits, depth, b, k);
      if k == next && Steps(g, o.direction, source, b, k) {
        var m :| Steps(g, o.direction, source, m, depth) && Adjacent(g, o.direction, m, b);
        assert Visited(g, o.direction, source, visits, depth, m, depth);
        var i := VisitOf(visits, m);
        assert visits[i].depth <= depth;
        assert AllSeen(Row(g, o.direction, visits[i].node), visits);
      }
    }
  }

  lemma AdvanceExpands(g: Snapshot, o: Options, source: Id, st: State)
    requires st.head < |st.visits| && Expanded(g, o, st.visits, st.head) && Reading(g, o, source, st)
    requires st.visits[st.head].depth >= o.maxDepth || st.cursor == |Row(g, o.direction, st.visits[st.head].node)|
    ensures Expanded(g, o, st.visits, st.head + 1)
  {
    var row := Row(g, o.direction, st.visits[st.head].node);
    if st.visits[st.head].depth < o.maxDepth {
      assert row[..st.cursor] == row;
    }
  }

  lemma NextLevelCovered(g: Snapshot, o: Options, source: Id, visits: seq<Visit>, head: nat)
    requires head + 1 < |visits| && InOrder(visits) && AllShortest(g, o.direction, source, visits)
    requires visits[|visits| - 1].depth <= o.maxDepth && visits[|visits| - 1].depth <= visits[head].depth + 1
    requires Expanded(g, o, visits, head + 1) && Covers(g, o.direction, source, visits, visits[head].depth)
    ensures Covers(g, o.direction, source, visits, visits[head + 1].depth)
  {
    var depth := visits[head].depth;
    DepthBound(visits, head + 1);
    if visits[head + 1].depth != depth {
      assert visits[head + 1].depth == depth + 1;
      CoverNext(g, o, source, visits, depth, head + 1);
    }
  }

  lemma NextReads(g: Snapshot, o: Options, source: Id, visits: seq<Visit>, head: nat)
    requires head + 1 < |visits| && InOrder(visits) && AllShortest(g, o.direction, source, visits)
    requires visits[|visits| - 1].depth <= o.maxDepth && visits[|visits| - 1].depth <= visits[head].depth + 1
    requires Expanded(g, o, visits, head + 1) && Covers(g, o.direction, source, visits, visits[head].depth)
    ensures Covers(g, o.direction, source, visits, visits[head + 1].depth)
    ensures visits[|visits| - 1].depth <= visits[head + 1].depth + 1
  {
    NextLevelCovered(g, o, source, visits, head);
    NextIsLater(visits, head);
  }

  lemma ReadingStarts(g: Snapshot, o: Options, source: Id, visits: seq<Visit>, head: nat, examined: nat)
    requires head < |visits| && visits[|visits| - 1].depth <= visits[head].depth + 1
    requires Covers(g, o.direction, source, visits, visits[head].depth)
    ensures Reading(g, o, source, State(visits, head, 0, examined))
  {
    assert Row(g, o.direction, visits[head].node)[..0] == [];
  }

  lemma NextIsLater(visits: seq<Visit>, i: nat)
    requires InOrder(visits) && i + 1 < |visits|
    ensures visits[i].depth <= visits[i + 1].depth
  {
  }

  lemma AdvanceReads(g: Snapshot, o: Options, source: Id, st: State)
    requires st.head < |st.visits| && InOrder(st.visits) && AllShortest(g, o.direction, source, st.visits)
    requires st.visits[|st.visits| - 1].depth <= o.maxDepth
    requires Expanded(g, o, st.visits, st.head + 1) && Reading(g, o, source, st)
    ensures Reading(g, o, source, st.(head := st.head + 1, cursor := 0))
  {
    if st.head + 1 < |st.visits| {
      NextReads(g, o, source, st.visits, st.head);
      ReadingStarts(g, o, source, st.visits, st.head + 1, st.examined);
    }
  }

  lemma SkipReads(g: Snapshot, o: Options, source: Id, st: State)
    requires st.head < |st.visits| && Reading(g, o, source, st)
    requires st.cursor < |Row(g, o.direction, st.visits[st.head].node)|
    requires Row(g, o.direction, st.visits[st.head].node)[st.cursor].next in Seen(st.visits)
    ensures Reading(g, o, source, st.(cursor := st.cursor + 1, examined := st.examined + 1))
  {
    var row := Row(g, o.direction, st.visits[st.head].node);
    assert row[..st.cursor + 1] == row[..st.cursor] + [row[st.cursor]];
  }

  lemma DiscoveredDistance(g: Snapshot, d: Direction, source: Id, visits: seq<Visit>, v: Visit, c: Candidate)
    requires v in visits && Distance(g, d, source, v.node, v.depth) && Covers(g, d, source, visits, v.depth)
    requires c in Row(g, d, v.node) && c.next !in Seen(visits)
    ensures Distance(g, d, source, c.next, v.depth + 1)
  {
    assert Adjacent(g, d, v.node, c.next);
    assert Steps(g, d, source, c.next, v.depth + 1);
    forall j: nat | j < v.depth + 1 ensures !Steps(g, d, source, c.next, j) {
      assert Visited(g, d, source, visits, v.depth, c.next, j);
    }
  }

  lemma LinkedStays(g: Snapshot, d: Direction, visits: seq<Visit>, more: seq<Visit>, i: nat)
    requires i < |visits| <= |more| && visits == more[..|visits|] && Linked(g, d, visits, i)
    ensures Linked(g, d, more, i)
  {
    var v := visits[i];
    var j :| 0 <= j < i && visits[j].node == v.link.value.parent && visits[j].depth + 1 == v.depth
      && Candidate(v.node, v.link.value.edge, v.link.value.reversed) in Row(g, d, visits[j].node);
    assert more[j] == visits[j] && more[i] == v;
  }

  lemma LinksGrow(g: Snapshot, d: Direction, visits: seq<Visit>, head: nat, c: Candidate)
    requires AllLinked(g, d, visits) && head < |visits| && c in Row(g, d, visits[head].node)
    ensures var v := visits[head];
      AllLinked(g, d, visits + [Child(v, c)])
  {
    var v := visits[head];
    var more := visits + [Child(v, c)];
    forall i | 0 < i < |more| ensures Linked(g, d, more, i) {
      if i < |visits| {
        LinkedStays(g, d, visits, more, i);
      } else {
        assert more[head] == v && Candidate(c.next, c.edge, c.reversed) == c;
      }
    }
  }

  lemma OrderGrows(visits: seq<Visit>, last: Visit)
    requires InOrder(visits) && last.node !in Seen(visits)
    requires visits != [] && visits[|visits| - 1].depth <= last.depth
    ensures InOrder(visits + [last])
  {
    forall i | 0 <= i < |visits| ensures visits[i].node != last.node && visits[i].depth <= last.depth {
      assert visits[i] in visits;
    }
  }

  lemma DiscoverExtendsTree(g: Snapshot, d: Direction, source: Id, visits: seq<Visit>, head: nat, c: Candidate)
    requires ShortestTree(g, d, source, visits) && head < |visits|
    requires visits[|visits| - 1].depth <= visits[head].depth + 1
    requires Covers(g, d, source, visits, visits[head].depth)
    requires c in Row(g, d, visits[head].node) && c.next !in Seen(visits)
    ensures var v := visits[head];
      ShortestTree(g, d, source, visits + [Child(v, c)])
  {
    var v := visits[head];
    DiscoveredDistance(g, d, source, visits, v, c);
    LinksGrow(g, d, visits, head, c);
    OrderGrows(visits, Child(v, c));
  }

  lemma DiscoverReads(g: Snapshot, o: Options, source: Id, st: State, last: Visit)
    requires st.head < |st.visits| && Expanded(g, o, st.visits, st.head) && Reading(g, o, source, st)
    requires st.cursor < |Row(g, o.direction, st.visits[st.head].node)|
    requires last.node == Row(g, o.direction, st.visits[st.head].node)[st.cursor].next
    requires last.depth == st.visits[st.head].depth + 1
    ensures Expanded(g, o, st.visits + [last], st.head)
    ensures Reading(g, o, source, State(st.visits + [last], st.head, st.cursor + 1, st.examined + 1))
  {
    var row := Row(g, o.direction, st.visits[st.head].node);
    SeenGrows(st.visits, last);
    assert row[..st.cursor + 1] == row[..st.cursor] + [row[st.cursor]];
    CoversMore(g, o.direction, source, st.visits, st.visits + [last], st.visits[st.head].depth);
  }

  lemma CoversMore(g: Snapshot, d: Direction, source: Id, visits: seq<Visit>, more: seq<Visit>, depth: nat)
    requires Covers(g, d, source, visits, depth) && Seen(visits) <= Seen(more)
    ensures Covers(g, d, source, more, depth)
  {
    forall b, k: nat ensures Visited(g, d, source, more, depth, b, k) {
      assert Visited(g, d, source, visits, depth, b, k);
    }
  }

  lemma AdvanceKeepsLevels(g: Snapshot, o: Options, source: Id, st: State)
    requires Levels(g, o, source, st) && st.head < |st.visits|
    requires st.visits[st.head].depth == o.maxDepth || st.cursor == |Row(g, o.direction, st.visits[st.head].node)|
    ensures Levels(g, o, source, st.(head := st.head + 1, cursor := 0))
  {
    AdvanceExpands(g, o, source, st);
    AdvanceReads(g, o, source, st);
  }

  lemma DiscoverKeepsLevels(g: Snapshot, o: Options, source: Id, st: State, c: Candidate, next: State)
    requires Levels(g, o, source, st) && st.head < |st.visits| < o.maxNodes
    requires st.visits[st.head].depth < o.maxDepth
    requires st.cursor < |Row(g, o.direction, st.visits[st.head].node)|
    requires Row(g, o.direction, st.visits[st.head].node)[st.cursor] == c && c.next !in Seen(st.visits)
    requires next == State(st.visits + [Child(st.visits[st.head], c)], st.head, st.cursor + 1, st.examined + 1)
    requires Bounded(g, next)
    ensures Levels(g, o, source, next)
  {
    assert c in Row(g, o.direction, st.visits[st.head].node);
    DiscoverExtendsTree(g, o.direction, source, st.visits, st.head, c);
    DiscoverReads(g, o, source, st, Child(st.visits[st.head], c));
  }

  lemma StepKeepsLevels(g: Snapshot, o: Options, source: Id, st: State)
    requires g.Valid() && Levels(g, o, source, st)
    ensures Levels(g, o, source, Next(g, o, st))
  {
    if Step(g, o, st).Continue? {
      var v := st.visits[st.head];
      var row := Row(g, o.direction, v.node);
      if v.depth == o.maxDepth || st.cursor >= |row| {
        StepAdvances(g, o, source, st);
      } else if row[st.cursor].next in Seen(st.visits) {
        SkipReads(g, o, source, st);
      } else {
        StepDiscovers(g, o, source, st, row[st.cursor]);
      }
    }
  }

  lemma StepAdvances(g: Snapshot, o: Options, source: Id, st: State)
    requires g.Valid() && Levels(g, o, source, st) && st.head < |st.visits|
    requires var v := st.visits[st.head]; v.depth == o.maxDepth || st.cursor >= |Row(g, o.direction, v.node)|
    ensures Levels(g, o, source, Next(g, o, st))
  {
    AdvanceKeepsLevels(g, o, source, st);
  }

  lemma StepDiscovers(g: Snapshot, o: Options, source: Id, st: State, c: Candidate)
    requires g.Valid() && Levels(g, o, source, st) && Step(g, o, st).Continue?
    requires st.head < |st.visits| && st.visits[st.head].depth != o.maxDepth
    requires st.cursor < |Row(g, o.direction, st.visits[st.head].node)|
    requires c == Row(g, o.direction, st.visits[st.head].node)[st.cursor] && c.next !in Seen(st.visits)
    ensures Levels(g, o, source, Next(g, o, st))
  {
    NextBounded(g, o, st);
    DepthBound(st.visits, st.head);
    DiscoverKeepsLevels(g, o, source, st, c, Next(g, o, st));
  }

  lemma DepthBound(visits: seq<Visit>, i: nat)
    requires InOrder(visits) && i < |visits|
    ensures visits[i].depth <= visits[|visits| - 1].depth
  {
  }

  ghost predicate Within(g: Snapshot, d: Direction, source: Id, b: Id, depth: int) {
    exists k: nat :: k <= depth && Steps(g, d, source, b, k)
  }

  /** What each stop reason says about the visits. */
  ghost predicate StopMeans(g: Snapshot, o: Options, source: Id, visits: seq<Visit>, stop: StopReason, examined: nat) {
    match stop
    case Completed => forall b :: b in Seen(visits) <==> Within(g, o.direction, source, b, o.maxDepth)
    case NodeLimit => |visits| == o.maxNodes
                   && exists b :: b !in Seen(visits) && Within(g, o.direction, source, b, o.maxDepth)
    case EdgeLimit => examined == o.maxExaminations
  }

  lemma CompletedCovers(g: Snapshot, o: Options, source: Id, st: State, depth: nat)
    requires Levels(g, o, source, st) && st.head == |st.visits| && depth <= o.maxDepth
    ensures Covers(g, o.direction, source, st.visits, depth)
    decreases depth
  {
    if depth == 0 {
      forall b, k: nat | k <= 0 && Steps(g, o.direction, source, b, k) ensures b in Seen(st.visits) {
        assert st.visits[0].node == b;
      }
    } else {
      CompletedCovers(g, o, source, st, depth - 1);
      CoverNext(g, o, source, st.visits, depth - 1, |st.visits|);
    }
  }

  lemma StopHasMeaning(g: Snapshot, o: Options, source: Id, st: State)
    requires o.Valid() && Levels(g, o, source, st) && Step(g, o, st).Stop?
    ensures StopMeans(g, o, source, st.visits, Step(g, o, st).reason, Step(g, o, st).examined)
  {
    var d := o.direction;
    match Step(g, o, st).reason
    case Completed =>
      CompletedCovers(g, o, source, st, o.maxDepth);
      forall b | b in Seen(st.visits) ensures Within(g, d, source, b, o.maxDepth) {
        var i := VisitOf(st.visits, b);
        assert Distance(g, d, source, b, st.visits[i].depth);
      }
      forall b | Within(g, d, source, b, o.maxDepth) ensures b in Seen(st.visits) {
        var k: nat :| k <= o.maxDepth && Steps(g, d, source, b, k);
        assert Visited(g, d, source, st.visits, o.maxDepth, b, k);
      }
    case NodeLimit =>
      var v := st.visits[st.head];
      var c := Row(g, d, v.node)[st.cursor];
      assert Adjacent(g, d, v.node, c.next);
      assert Steps(g, d, source, c.next, v.depth + 1);
      assert Within(g, d, source, c.next, o.maxDepth);
    case EdgeLimit =>
  }

  ghost predicate RunMeans(g: Snapshot, o: Options, source: Id, end: Final) {
    && ShortestTree(g, o.direction, source, end.visits) && |end.visits| <= o.maxNodes
    && StopMeans(g, o, source, end.visits, end.stop, end.examined)
  }

  lemma {:induction false} AfterKeepsLevels(g: Snapshot, o: Options, source: Id, n: nat)
    requires g.Valid() && o.Valid() && source in g.nodes
    ensures Levels(g, o, source, After(g, o, source, n))
  {
    if n == 0 {
      StartLevels(g, o, source);
    } else {
      AfterKeepsLevels(g, o, source, n - 1);
      StepKeepsLevels(g, o, source, After(g, o, source, n - 1));
    }
  }

  /**
   * Every visit carries its true distance, even when a limit stopped the run; a completed run visits
   * exactly the nodes within the depth limit; a node limit means one of those was left out.
   */
  lemma EveryVisitIsShortest(g: Snapshot, o: Options, source: Id, end: Final)
    requires g.Valid() && o.Valid() && source in g.nodes && Ends(g, o, source, end)
    ensures RunMeans(g, o, source, end)
  {
    var n: nat :| EndsAt(g, o, After(g, o, source, n), end);
    AfterKeepsLevels(g, o, source, n);
    StopHasMeaning(g, o, source, After(g, o, source, n));
  }

  // ---- What was read, and what it found ----

  /** Candidate `c` read at the visit `from`. */
  datatype RowRead = RowRead(from: Visit, c: Candidate)

  /** The rows of the visits above the depth limit, one after the other. */
  ghost function ReadsOf(g: Snapshot, o: Options, visits: seq<Visit>): seq<RowRead> {
    if visits == [] then []
    else
      var last := visits[|visits| - 1];
      ReadsOf(g, o, visits[..|visits| - 1]) + if last.depth == o.maxDepth then [] else RowReads(last, Row(g, o.direction, last.node))
  }

  ghost function RowReads(v: Visit, row: seq<Candidate>): (list: seq<RowRead>)
    ensures |list| == |row|
  {
    seq(|row|, i requires 0 <= i < |row| => RowRead(v, row[i]))
  }

  /** The visits these reads find: each node at its first read. */
  ghost function Found(source: Id, list: seq<RowRead>): seq<Visit> {
    if list == [] then [Visit(source, 0, None)]
    else
      var before, r := Found(source, list[..|list| - 1]), list[|list| - 1];
      if r.c.next in Seen(before) then before else before + [Child(r.from, r.c)]
  }

  /** What has been read is the beginning of what the visits have to read, and has found exactly the visits. */
  ghost predicate Counted(g: Snapshot, o: Options, source: Id, st: State) {
    AtRead(g, o, st) && FoundBy(g, o, source, st.visits, st.examined)
  }

  ghost predicate AtRead(g: Snapshot, o: Options, st: State) {
    && st.head <= |st.visits| && st.examined == |ReadsOf(g, o, st.visits[..st.head])| + st.cursor
    && if st.head == |st.visits| || st.visits[st.head].depth == o.maxDepth then st.cursor == 0
       else st.cursor <= |Row(g, o.direction, st.visits[st.head].node)|
  }

  ghost predicate FoundBy(g: Snapshot, o: Options, source: Id, visits: seq<Visit>, examined: nat) {
    FoundIn(source, ReadsOf(g, o, visits), examined, visits)
  }

  ghost predicate FoundIn(source: Id, list: seq<RowRead>, n: nat, visits: seq<Visit>) {
    n <= |list| && visits == Found(source, list[..n])
  }

  lemma ReadsMore(g: Snapshot, o: Options, visits: seq<Visit>, v: Visit)
    ensures ReadsOf(g, o, visits + [v])
      == ReadsOf(g, o, visits) + if v.depth == o.maxDepth then [] else RowReads(v, Row(g, o.direction, v.node))
  {
    assert (visits + [v])[..|visits|] == visits;
  }

  lemma {:induction false} ReadsPrefix(g: Snapshot, o: Options, visits: seq<Visit>, n: nat)
    requires n <= |visits|
    ensures ReadsOf(g, o, visits[..n]) <= ReadsOf(g, o, visits)
  {
    if n < |visits| {
      var front := visits[..|visits| - 1];
      ReadsPrefix(g, o, front, n);
      assert front[..n] == visits[..n];
    } else {
      assert visits[..n] == visits;
    }
  }

  /** The read at the cursor is the next one. */
  lemma NextReading(g: Snapshot, o: Options, source: Id, st: State)
    requires Counted(g, o, source, st) && st.head < |st.visits| && st.visits[st.head].depth != o.maxDepth
    requires st.cursor < |Row(g, o.direction, st.visits[st.head].node)|
    ensures var list, v := ReadsOf(g, o, st.visits), st.visits[st.head];
      st.examined < |list| && list[st.examined] == RowRead(v, Row(g, o.direction, v.node)[st.cursor])
  {
    ReadAt(g, o, st.visits, st.head, st.cursor);
  }

  /** Where a candidate of a row stands among all reads. */
  lemma ReadAt(g: Snapshot, o: Options, visits: seq<Visit>, head: nat, k: nat)
    requires head < |visits| && visits[head].depth != o.maxDepth && k < |Row(g, o.direction, visits[head].node)|
    ensures var list, n, v := ReadsOf(g, o, visits), |ReadsOf(g, o, visits[..head])| + k, visits[head];
      n < |list| && list[n] == RowRead(v, Row(g, o.direction, v.node)[k])
  {
    var v := visits[head];
    var before, own := ReadsOf(g, o, visits[..head]), RowReads(v, Row(g, o.direction, v.node));
    ReadsMore(g, o, visits[..head], v);
    assert visits[..head] + [v] == visits[..head + 1];
    ReadsPrefix(g, o, visits, head + 1);
    assert (before + own)[|before| + k] == own[k];
  }

  lemma FoundMore(source: Id, list: seq<RowRead>, n: nat)
    requires n < |list|
    ensures Found(source, list[..n + 1]) == (var before := Found(source, list[..n]);
      if list[n].c.next in Seen(before) then before else before + [Child(list[n].from, list[n].c)])
  {
    assert list[..n + 1][..n] == list[..n];
  }

  lemma LeaveCounted(g: Snapshot, o: Options, source: Id, st: State)
    requires Counted(g, o, source, st) && st.head < |st.visits|
    requires st.visits[st.head].depth == o.maxDepth || st.cursor == |Row(g, o.direction, st.visits[st.head].node)|
    ensures Counted(g, o, source, st.(head := st.head + 1, cursor := 0))
  {
    ReadsMore(g, o, st.visits[..st.head], st.visits[st.head]);
    assert st.visits[..st.head] + [st.visits[st.head]] == st.visits[..st.head + 1];
  }

  /** A longer list of reads starts the same and finds one more. */
  lemma FoundLonger(source: Id, list: seq<RowRead>, longer: seq<RowRead>, n: nat, was: seq<Visit>, v: Visit, c: Candidate)
    requires FoundIn(source, list, n, was) && n < |list| && list <= longer && list[n] == RowRead(v, c)
    ensures FoundIn(source, longer, n + 1, AfterRead(was, v, c))
  {
    assert longer[..n] == list[..n] && longer[n] == list[n];
    FoundMore(source, longer, n);
  }

  /** A read either meets a node seen before or finds the next visit. */
  ghost function AfterRead(visits: seq<Visit>, v: Visit, c: Candidate): seq<Visit> {
    if c.next in Seen(visits) then visits else visits + [Child(v, c)]
  }

  lemma ReadCounted(g: Snapshot, o: Options, source: Id, st: State, v: Visit, c: Candidate, visits: seq<Visit>)
    requires Counted(g, o, source, st) && st.head < |st.visits| && st.visits[st.head] == v && v.depth != o.maxDepth
    requires st.cursor < |Row(g, o.direction, v.node)| && Row(g, o.direction, v.node)[st.cursor] == c
    requires visits == AfterRead(st.visits, v, c)
    ensures Counted(g, o, source, State(visits, st.head, st.cursor + 1, st.examined + 1))
  {
    ReadIsNext(g, o, source, st, v, c);
    ReadFinds(g, o, source, st.visits, st.examined, v, c);
    ReadKeepsPlace(g, o, st, visits);
  }

  lemma ReadIsNext(g: Snapshot, o: Options, source: Id, st: State, v: Visit, c: Candidate)
    requires Counted(g, o, source, st) && st.head < |st.visits| && st.visits[st.head] == v && v.depth != o.maxDepth
    requires st.cursor < |Row(g, o.direction, v.node)| && Row(g, o.direction, v.node)[st.cursor] == c
    ensures st.examined < |ReadsOf(g, o, st.visits)| && ReadsOf(g, o, st.visits)[st.examined] == RowRead(v, c)
  {
    NextReading(g, o, source, st);
  }

  lemma ReadKeepsPlace(g: Snapshot, o: Options, st: State, visits: seq<Visit>)
    requires AtRead(g, o, st) && st.head < |st.visits| && st.visits[st.head].depth != o.maxDepth
    requires st.cursor < |Row(g, o.direction, st.visits[st.head].node)| && st.visits <= visits
    ensures AtRead(g, o, State(visits, st.head, st.cursor + 1, st.examined + 1))
  {
    ReadsGrow(g, o, st.visits, visits, st.head);
  }

  lemma ReadFinds(g: Snapshot, o: Options, source: Id, was: seq<Visit>, examined: nat, v: Visit, c: Candidate)
    requires FoundBy(g, o, source, was, examined)
    requires examined < |ReadsOf(g, o, was)| && ReadsOf(g, o, was)[examined] == RowRead(v, c)
    ensures FoundBy(g, o, source, AfterRead(was, v, c), examined + 1) && was <= AfterRead(was, v, c)
  {
    var visits := AfterRead(was, v, c);
    ReadsPrefix(g, o, visits, |was|);
    assert visits[..|was|] == was;
    FoundLonger(source, ReadsOf(g, o, was), ReadsOf(g, o, visits), examined, was, v, c);
  }

  lemma ReadsGrow(g: Snapshot, o: Options, visits: seq<Visit>, more: seq<Visit>, head: nat)
    requires visits <= more && head < |visits|
    ensures ReadsOf(g, o, visits) <= ReadsOf(g, o, more)
    ensures ReadsOf(g, o, visits[..head]) == ReadsOf(g, o, more[..head]) && more[head] == visits[head]
  {
    ReadsPrefix(g, o, more, |visits|);
    assert more[..|visits|] == visits && more[..head] == visits[..head];
  }

  lemma StepCounted(g: Snapshot, o: Options, source: Id, st: State)
    requires Counted(g, o, source, st)
    ensures Counted(g, o, source, Next(g, o, st))
  {
    if st.head < |st.visits| {
      var v := st.visits[st.head];
      if v.depth == o.maxDepth || st.cursor >= |Row(g, o.direction, v.node)| {
        LeaveCounted(g, o, source, st);
      } else if Step(g, o, st).Continue? {
        NextRead(g, o, st);
        ReadCounted(g, o, source, st, v, Row(g, o.direction, v.node)[st.cursor], Next(g, o, st).visits);
      }
    }
  }

  lemma NextRead(g: Snapshot, o: Options, st: State)
    requires st.head < |st.visits| && Step(g, o, st).Continue?
    requires var v := st.visits[st.head]; v.depth != o.maxDepth && st.cursor < |Row(g, o.direction, v.node)|
    ensures var v := st.visits[st.head];
      var c := Row(g, o.direction, v.node)[st.cursor];
      Next(g, o, st) == State(AfterRead(st.visits, v, c), st.head, st.cursor + 1, st.examined + 1)
  {
  }

  lemma {:induction false} AfterCounted(g: Snapshot, o: Options, source: Id, n: nat)
    ensures Counted(g, o, source, After(g, o, source, n))
  {
    if n == 0 {
      assert Start(source).visits[..0] == [];
      assert ReadsOf(g, o, Start(source).visits)[..0] == [];
    } else {
      AfterCounted(g, o, source, n - 1);
      StepCounted(g, o, source, After(g, o, source, n - 1));
    }
  }

  /**
   * What each stop reason says of the reads. They are the rows of the visits in order, `examined` counts them, and the
   * visits are what they found, but for the last one when the node limit was met.
   */
  ghost predicate ReadsExplain(g: Snapshot, o: Options, source: Id, end: Final) {
    var list := ReadsOf(g, o, end.visits);
    && end.examined <= |list| && end.examined <= o.maxExaminations
    && match end.stop
       case Completed => end.examined == |list| && end.visits == Found(source, list)
       case EdgeLimit => end.examined == o.maxExaminations < |list| && end.visits == Found(source, list[..end.examined])
       case NodeLimit => 0 < end.examined && |end.visits| == o.maxNodes && end.visits == Found(source, list[..end.examined - 1])
                         && list[end.examined - 1].c.next !in Seen(end.visits)
  }

  lemma ReadsAreCounted(g: Snapshot, o: Options, source: Id, end: Final)
    requires o.Valid() && Ends(g, o, source, end)
    ensures ReadsExplain(g, o, source, end)
  {
    var n: nat :| EndsAt(g, o, After(g, o, source, n), end);
    AfterCounted(g, o, source, n);
    ExaminedBound(g, o, source, n);
    EndCounted(g, o, source, After(g, o, source, n), end);
  }

  lemma EndCounted(g: Snapshot, o: Options, source: Id, st: State, end: Final)
    requires Counted(g, o, source, st) && st.examined <= o.maxExaminations && EndsAt(g, o, st, end)
    ensures ReadsExplain(g, o, source, end)
  {
    var list := ReadsOf(g, o, st.visits);
    if st.head == |st.visits| {
      assert st.visits[..st.head] == st.visits && list[..|list|] == list;
    } else {
      NextReading(g, o, source, st);
    }
  }

  /** A search has one ending. */
  lemma EndingUnique(g: Snapshot, o: Options, source: Id, a: Final, b: Final)
    requires Ends(g, o, source, a) && Ends(g, o, source, b)
    ensures a == b
  {
    var m: nat :| EndsAt(g, o, After(g, o, source, m), a);
    var n: nat :| EndsAt(g, o, After(g, o, source, n), b);
    var k := if m < n then n else m;
    EndIsFinal(g, o, source, a, m, k);
    EndIsFinal(g, o, source, b, n, k);
  }

  // ---- Raising a limit only extends the visit list ----

  ghost predicate NoTighter(o: Options, p: Options) {
    && p.direction == o.direction && o.maxDepth <= p.maxDepth
    && o.maxNodes <= p.maxNodes && o.maxExaminations <= p.maxExaminations
  }

  lemma {:induction false} EndIsFinal(g: Snapshot, o: Options, source: Id, end: Final, m: nat, n: nat)
    requires m <= n && EndsAt(g, o, After(g, o, source, m), end)
    ensures After(g, o, source, n) == After(g, o, source, m)
  {
    if m < n {
      EndIsFinal(g, o, source, end, m, n - 1);
    }
  }

  /** The tighter run is over: it has stopped, or everything left in its queue sits at its depth limit. */
  ghost predicate Settled(g: Snapshot, o: Options, st: State) {
    || Step(g, o, st).Stop?
    || (st.head < |st.visits| && forall i :: st.head <= i < |st.visits| ==> st.visits[i].depth == o.maxDepth)
  }

  lemma SettledStays(g: Snapshot, o: Options, st: State)
    requires Settled(g, o, st)
    ensures Settled(g, o, Next(g, o, st)) && Next(g, o, st).visits == st.visits
  {
  }

  lemma LevelsSettle(g: Snapshot, o: Options, source: Id, st: State)
    requires Levels(g, o, source, st) && st.head < |st.visits| && st.visits[st.head].depth == o.maxDepth
    ensures Settled(g, o, st)
  {
    forall i | st.head <= i < |st.visits| ensures st.visits[i].depth == o.maxDepth {
      DepthBound(st.visits, i);
      if st.head < i { assert st.visits[st.head].depth <= st.visits[i].depth; }
    }
  }

  /** The tighter run takes the step the wider one takes, or it is settled. */
  lemma SameStepOrSettled(g: Snapshot, o: Options, p: Options, source: Id, st: State)
    requires NoTighter(o, p) && Levels(g, o, source, st) && st.examined <= o.maxExaminations
    ensures Settled(g, o, st) || Next(g, o, st) == Next(g, p, st)
  {
    if st.head < |st.visits| {
      DepthBound(st.visits, st.head);
      if st.visits[st.head].depth == o.maxDepth {
        LevelsSettle(g, o, source, st);
      }
    }
  }

  lemma {:induction false} ExaminedBound(g: Snapshot, o: Options, source: Id, n: nat)
    requires o.Valid()
    ensures After(g, o, source, n).examined <= o.maxExaminations
  {
    if n > 0 {
      ExaminedBound(g, o, source, n - 1);
    }
  }

  /** Either both runs are in the same state, or the tighter one is settled with a prefix of the other's visits. */
  ghost predicate Ahead(g: Snapshot, o: Options, a: State, b: State) {
    a == b || (Settled(g, o, a) && a.visits <= b.visits)
  }

  lemma {:induction false} StaysAhead(g: Snapshot, o: Options, p: Options, source: Id, n: nat)
    requires g.Valid() && o.Valid() && NoTighter(o, p) && source in g.nodes
    ensures Ahead(g, o, After(g, o, source, n), After(g, p, source, n))
  {
    if n > 0 {
      StaysAhead(g, o, p, source, n - 1);
      AfterKeepsLevels(g, o, source, n - 1);
      ExaminedBound(g, o, source, n - 1);
      AheadStep(g, o, p, source, After(g, o, source, n - 1), After(g, p, source, n - 1));
    }
  }

  lemma AheadStep(g: Snapshot, o: Options, p: Options, source: Id, a: State, b: State)
    requires NoTighter(o, p) && Levels(g, o, source, a) && a.examined <= o.maxExaminations && Ahead(g, o, a, b)
    ensures Ahead(g, o, Next(g, o, a), Next(g, p, b))
  {
    assert b.visits <= Next(g, p, b).visits;
    if a == b {
      SameStepOrSettled(g, o, p, source, a);
    }
    if Settled(g, o, a) {
      SettledStays(g, o, a);
    }
  }

  /** Raising any of the three limits only extends the list of visits. */
  lemma LimitsOnlyExtend(g: Snapshot, o: Options, p: Options, source: Id, low: Final, high: Final)
    requires g.Valid() && o.Valid() && NoTighter(o, p) && source in g.nodes
    requires Ends(g, o, source, low) && Ends(g, p, source, high)
    ensures low.visits <= high.visits
  {
    var m: nat :| EndsAt(g, o, After(g, o, source, m), low);
    var n: nat :| EndsAt(g, p, After(g, p, source, n), high);
    var k := if m < n then n else m;
    EndIsFinal(g, o, source, low, m, k);
    EndIsFinal(g, p, source, high, n, k);
    StaysAhead(g, o, p, source, k);
  }

  // ---- Representative paths ----

  datatype TraversalStep = TraversalStep(edge: Id, from: Id, to: Id, reversed: bool)
  datatype Path = Path(nodes: seq<Id>, steps: seq<TraversalStep>)

  /** Each step is a listed candidate of the node it leaves. */
  ghost predicate RealPath(g: Snapshot, d: Direction, path: Path) {
    && |path.nodes| == |path.steps| + 1
    && forall i :: 0 <= i < |path.steps| ==> RealStep(g, d, path, i)
  }

  ghost predicate RealStep(g: Snapshot, d: Direction, path: Path, i: nat)
    requires i < |path.steps| < |path.nodes|
  {
    var s := path.steps[i];
    s.from == path.nodes[i] && s.to == path.nodes[i + 1] && Candidate(s.to, s.edge, s.reversed) in Row(g, d, s.from)
  }

  function Reversed<T>(s: seq<T>): (r: seq<T>)
    ensures |r| == |s| && forall i :: 0 <= i < |s| ==> r[i] == s[|s| - 1 - i]
  {
    if s == [] then [] else Reversed(s[1..]) + [s[0]]
  }

  /** The steps collected so far, latest first, lead from the current node to the target. */
  ghost predicate Trail(g: Snapshot, d: Direction, nodes: seq<Id>, steps: seq<TraversalStep>, current: Id) {
    && |nodes| == |steps|
    && (forall i :: 0 <= i < |steps| ==>
          var s := steps[i];
          && s.to == nodes[i] && s.from == (nodes + [current])[i + 1]
          && Candidate(s.to, s.edge, s.reversed) in Row(g, d, s.from))
  }

  lemma TrailGrows(g: Snapshot, d: Direction, nodes: seq<Id>, steps: seq<TraversalStep>, current: Id, link: Link)
    requires Trail(g, d, nodes, steps, current)
    requires Candidate(current, link.edge, link.reversed) in Row(g, d, link.parent)
    ensures Trail(g, d, nodes + [current],
                  steps + [TraversalStep(link.edge, link.parent, current, link.reversed)], link.parent)
  {
    var more := steps + [TraversalStep(link.edge, link.parent, current, link.reversed)];
    forall i | 0 <= i < |more|
      ensures more[i].to == (nodes + [current])[i] && more[i].from == (nodes + [current] + [link.parent])[i + 1]
      ensures Candidate(more[i].to, more[i].edge, more[i].reversed) in Row(g, d, more[i].from)
    {
      if i < |steps| { assert more[i] == steps[i]; }
    }
  }

  lemma TrailReversed(g: Snapshot, d: Direction, nodes: seq<Id>, steps: seq<TraversalStep>, current: Id)
    requires Trail(g, d, nodes, steps, current)
    ensures RealPath(g, d, Path(Reversed(nodes + [current]), Reversed(steps)))
  {
    var path := Path(Reversed(nodes + [current]), Reversed(steps));
    forall i | 0 <= i < |path.steps| ensures RealStep(g, d, path, i) {
      var j := |steps| - 1 - i;
      assert path.steps[i] == steps[j] && steps[j].from == (nodes + [current])[j + 1];
      assert path.nodes[i] == (nodes + [current])[j + 1] && path.nodes[i + 1] == (nodes + [current])[j];
    }
  }

  lemma RootHasNoLink(g: Snapshot, d: Direction, source: Id, visits: seq<Visit>, i: nat)
    requires ShortestTree(g, d, source, visits) && i < |visits|
    ensures visits[i].link.None? <==> i == 0
  {
    assert i > 0 ==> Linked(g, d, visits, i);
  }

  lemma ParentOf(g: Snapshot, d: Direction, visits: seq<Visit>, i: nat) returns (j: nat)
    requires i < |visits| && Linked(g, d, visits, i)
    ensures j < i && visits[j].node == visits[i].link.value.parent && visits[j].depth + 1 == visits[i].depth
  {
    var v := visits[i];
    j :| 0 <= j < i && visits[j].node == v.link.value.parent && visits[j].depth + 1 == v.depth
      && Candidate(v.node, v.link.value.edge, v.link.value.reversed) in Row(g, d, visits[j].node);
  }

  /** The index a result builds from its visits; a later visit of the same node would win. */
  method VisitsById(visits: seq<Visit>) returns (byId: map<Id, Visit>)
    ensures byId.Keys == Seen(visits)
    ensures DistinctVisits(visits) ==>
      forall i :: 0 <= i < |visits| ==> visits[i].node in byId && byId[visits[i].node] == visits[i]
  {
    byId := map[];
    for i := 0 to |visits|
      invariant byId.Keys == Seen(visits[..i])
      invariant DistinctVisits(visits) ==>
        forall k :: 0 <= k < i ==> visits[k].node in byId && byId[visits[k].node] == visits[k]
    {
      SeenGrows(visits[..i], visits[i]);
      assert visits[..i + 1] == visits[..i] + [visits[i]];
      byId := byId[visits[i].node := visits[i]];
    }
    assert visits[..|visits|] == visits;
  }

  /** A visited node gets a real path as long as its distance; any other node is not observed. */
  method PathTo(ghost g: Snapshot, ghost d: Direction, source: Id, visits: seq<Visit>, target: Id)
    returns (r: Option<Path>)
    requires ShortestTree(g, d, source, visits)
    ensures r.Some? <==> target in Seen(visits)
    ensures r.Some? ==>
      && RealPath(g, d, r.value) && r.value.nodes[0] == source && r.value.nodes[|r.value.steps|] == target
      && Distance(g, d, source, target, |r.value.steps|)
  {
    var visitById := VisitsById(visits);
    if target !in visitById {
      return None;
    }
    ghost var at := VisitOf(visits, target);
    ghost var depth := visits[at].depth;
    var nodes: seq<Id>, steps: seq<TraversalStep> := [], [];
    var current := target;
    assert visits[at] in visits;
    var visit := visitById[current];
    while visit.link.Some?
      invariant at < |visits| && visits[at] == visit && visit.node == current && visit.depth + |steps| == depth
      invariant Trail(g, d, nodes, steps, current)
      invariant (nodes + [current])[0] == target
      decreases at
    {
      assert Linked(g, d, visits, at);
      var link := visit.link.value;
      TrailGrows(g, d, nodes, steps, current, link);
      nodes := nodes + [current];
      steps := steps + [TraversalStep(link.edge, link.parent, current, link.reversed)];
      current := link.parent;
      at := ParentOf(g, d, visits, at);
      assert visits[at] in visits;
      visit := visitById[current];
    }
    RootHasNoLink(g, d, source, visits, at);
    TrailReversed(g, d, nodes, steps, current);
    return Some(Path(Reversed(nodes + [current]), Reversed(steps)));
  }
}
