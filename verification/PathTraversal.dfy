/** The resumable depth-first iterator over node-simple paths, and the recursive list it refines. */
module PathTraversals {
  import opened Core
  import opened GraphSnapshots
  import opened BreadthFirst

  // ---- The reference: every bounded simple path in preorder ----

  function StepOf(from: Id, c: Candidate): TraversalStep {
    TraversalStep(c.edge, from, c.next, c.reversed)
  }

  function Extend(path: Path, c: Candidate): Path
    requires path.nodes != []
  {
    Path(path.nodes + [c.next], path.steps + [StepOf(path.nodes[|path.nodes| - 1], c)])
  }

  /** The path `p` and then everything below it, when the depth allows going on. */
  ghost function Below(g: Snapshot, d: Direction, max: nat, p: Path): seq<Path>
    requires p.nodes != []
    decreases max - |p.steps|, 1, 0
  {
    [p] + if |p.steps| < max then PathsFrom(g, d, max, p, Row(g, d, p.nodes[|p.nodes| - 1]), 0) else []
  }

  /** The paths that extend `path` by one of the candidates from `i` on. */
  ghost function PathsFrom(g: Snapshot, d: Direction, max: nat, path: Path, row: seq<Candidate>, i: nat): seq<Path>
    requires path.nodes != [] && |path.steps| < max
    decreases max - |path.steps|, 0, |row| - i
  {
    if i >= |row| then []
    else
      (if row[i].next in path.nodes then [] else Below(g, d, max, Extend(path, row[i])))
      + PathsFrom(g, d, max, path, row, i + 1)
  }

  ghost function AllPaths(g: Snapshot, d: Direction, source: Id, max: nat): seq<Path> {
    if max == 0 then [] else PathsFrom(g, d, max, Path([source], []), Row(g, d, source), 0)
  }

  // ---- The reference: every candidate that is read on the way ----

  /** Candidate `c` read at the end of `path`. */
  datatype Read = Read(path: Path, c: Candidate)

  /** The candidates read below the path `p`, when the depth allows going on. */
  ghost function ReadsBelow(g: Snapshot, d: Direction, max: nat, p: Path): seq<Read>
    requires p.nodes != []
    decreases max - |p.steps|, 1, 0
  {
    if |p.steps| < max then ReadsFrom(g, d, max, p, Row(g, d, p.nodes[|p.nodes| - 1]), 0) else []
  }

  /** Each candidate from `i` on, followed by what is read below it when its node is new. */
  ghost function ReadsFrom(g: Snapshot, d: Direction, max: nat, path: Path, row: seq<Candidate>, i: nat): seq<Read>
    requires path.nodes != [] && |path.steps| < max
    decreases max - |path.steps|, 0, |row| - i
  {
    if i >= |row| then []
    else
      [Read(path, row[i])] + (if row[i].next in path.nodes then [] else ReadsBelow(g, d, max, Extend(path, row[i])))
      + ReadsFrom(g, d, max, path, row, i + 1)
  }

  ghost function AllReads(g: Snapshot, d: Direction, source: Id, max: nat): seq<Read> {
    ReadsBelow(g, d, max, Path([source], []))
  }

  /** The candidate leads to a node that is not on the path yet. */
  predicate Fresh(r: Read) {
    r.path.nodes != [] && r.c.next !in r.path.nodes
  }

  /** The paths that reading these candidates finds. */
  ghost function PathsOf(list: seq<Read>): seq<Path> {
    if list == [] then []
    else (if Fresh(list[0]) then [Extend(list[0].path, list[0].c)] else []) + PathsOf(list[1..])
  }

  lemma {:induction false} PathsJoin(a: seq<Read>, b: seq<Read>)
    ensures PathsOf(a + b) == PathsOf(a) + PathsOf(b)
  {
    if a == [] {
      assert a + b == b;
    } else {
      PathsJoin(a[1..], b);
      assert (a + b)[1..] == a[1..] + b;
    }
  }

  lemma PathsOfOne(r: Read)
    ensures PathsOf([r]) == if Fresh(r) then [Extend(r.path, r.c)] else []
  {
    assert [r][1..] == [];
  }

  lemma OneMoreRead(list: seq<Read>, n: nat)
    requires n < |list|
    ensures PathsOf(list[..n + 1]) == PathsOf(list[..n]) + if Fresh(list[n]) then [Extend(list[n].path, list[n].c)] else []
  {
    assert list[..n + 1] == list[..n] + [list[n]];
    PathsJoin(list[..n], [list[n]]);
    PathsOfOne(list[n]);
  }

  lemma PathsPrefix(list: seq<Read>, n: nat)
    requires n <= |list|
    ensures PathsOf(list[..n]) <= PathsOf(list)
    ensures n < |list| && Fresh(list[n]) ==> PathsOf(list[..n]) < PathsOf(list)
  {
    assert list == list[..n] + list[n..];
    PathsJoin(list[..n], list[n..]);
  }

  /** Reading everything finds every path of the reference list, in its order. */
  lemma {:induction false} ReadsFindPaths(g: Snapshot, d: Direction, max: nat, path: Path, row: seq<Candidate>, i: nat)
    requires path.nodes != [] && |path.steps| < max
    ensures PathsOf(ReadsFrom(g, d, max, path, row, i)) == PathsFrom(g, d, max, path, row, i)
    decreases max - |path.steps|, 0, |row| - i
  {
    if i < |row| {
      var r, rest := Read(path, row[i]), ReadsFrom(g, d, max, path, row, i + 1);
      var below := if row[i].next in path.nodes then [] else ReadsBelow(g, d, max, Extend(path, row[i]));
      ReadsFindPaths(g, d, max, path, row, i + 1);
      if row[i].next !in path.nodes {
        ReadsFindBelow(g, d, max, Extend(path, row[i]));
      }
      PathsOfOne(r);
      PathsJoin([r], below);
      PathsJoin([r] + below, rest);
    }
  }

  lemma {:induction false} ReadsFindBelow(g: Snapshot, d: Direction, max: nat, p: Path)
    requires p.nodes != []
    ensures [p] + PathsOf(ReadsBelow(g, d, max, p)) == Below(g, d, max, p)
    decreases max - |p.steps|, 1, 0
  {
    if |p.steps| < max {
      ReadsFindPaths(g, d, max, p, Row(g, d, p.nodes[|p.nodes| - 1]), 0);
    }
  }

  lemma AllReadsFindAll(g: Snapshot, d: Direction, source: Id, max: nat)
    ensures PathsOf(AllReads(g, d, source, max)) == AllPaths(g, d, source, max)
  {
    var root := Path([source], []);
    ReadsFindBelow(g, d, max, root);
    assert PathsOf(AllReads(g, d, source, max)) == ([root] + PathsOf(AllReads(g, d, source, max)))[1..];
    assert AllPaths(g, d, source, max) == Below(g, d, max, root)[1..];
  }

  // ---- The iterator ----

  datatype PathOptions = PathOptions(direction: Direction, maxDepth: int, maxPaths: int, maxExaminations: int) {
    predicate Valid() {
      maxDepth >= 0 && maxPaths >= 1 && maxExaminations >= 0
    }
  }

  datatype PathStop = PathsCompleted | PathLimit | PathEdgeLimit | Cancelled
  datatype PathSummary = PathSummary(reason: PathStop, emitted: nat, examined: nat)
  datatype Frame = Frame(row: seq<Candidate>, cursor: nat)

  /** Frame `k` reads the row of node `k`. */
  ghost predicate Reads(g: Snapshot, d: Direction, frames: seq<Frame>, nodes: seq<Id>) {
    && |frames| <= |nodes|
    && forall k :: 0 <= k < |frames| ==> frames[k].row == Row(g, d, nodes[k]) && frames[k].cursor <= |frames[k].row|
  }

  /** What the open frames still have to read, innermost first. */
  ghost function Owed(g: Snapshot, d: Direction, max: nat, frames: seq<Frame>, path: Path): seq<Read>
    requires |frames| == 0 || (|path.nodes| == |path.steps| + 1 == |frames| <= max)
    decreases |frames|
  {
    if frames == [] then []
    else
      var top := frames[|frames| - 1];
      ReadsFrom(g, d, max, path, top.row, top.cursor)
      + if |frames| == 1 then []
        else Owed(g, d, max, frames[..|frames| - 1], Path(path.nodes[..|path.nodes| - 1], path.steps[..|path.steps| - 1]))
  }

  /** Frames, nodes, steps and the seen set stay in lockstep while the traversal is open. */
  ghost predicate Lockstep(g: Snapshot, o: PathOptions, source: Id, frames: seq<Frame>, path: Path, seen: set<Id>) {
    && 0 < |frames| == |path.nodes| == |path.steps| + 1 <= o.maxDepth
    && path.nodes[0] == source && seen == Elements(path.nodes) && Distinct(path.nodes)
    && seen <= g.nodes && Reads(g, o.direction, frames, path.nodes)
  }

  /** After `examined` reads what is left to read is `next` and then what the open frames owe. */
  ghost predicate Owes(g: Snapshot, o: PathOptions, source: Id, frames: seq<Frame>, path: Path, examined: nat, next: seq<Read>)
    requires o.Valid() && 0 < |frames| == |path.nodes| == |path.steps| + 1 <= o.maxDepth
  {
    var list := AllReads(g, o.direction, source, o.maxDepth);
    examined <= |list| && list[examined..] == next + Owed(g, o.direction, o.maxDepth, frames, path)
  }

  lemma OwedAdvance(g: Snapshot, d: Direction, max: nat, frames: seq<Frame>, path: Path)
    requires frames != [] && |path.nodes| == |path.steps| + 1 == |frames| <= max
    requires frames[|frames| - 1].cursor < |frames[|frames| - 1].row|
    ensures var top := frames[|frames| - 1];
      var advanced := frames[|frames| - 1 := Frame(top.row, top.cursor + 1)];
      var c := top.row[top.cursor];
      Owed(g, d, max, frames, path)
        == [Read(path, c)] + (if c.next in path.nodes then [] else ReadsBelow(g, d, max, Extend(path, c)))
           + Owed(g, d, max, advanced, path)
  {
    var top := frames[|frames| - 1];
    var advanced := frames[|frames| - 1 := Frame(top.row, top.cursor + 1)];
    assert advanced[..|frames| - 1] == frames[..|frames| - 1];
  }

  lemma OwedTop(g: Snapshot, d: Direction, max: nat, frames: seq<Frame>, path: Path, top: Frame, p: Path)
    requires frames != [] && |path.nodes| == |path.steps| + 1 == |frames| < max
    requires |p.nodes| == |p.steps| + 1 == |frames| + 1
    requires p.nodes[..|frames|] == path.nodes && p.steps[..|frames| - 1] == path.steps
    ensures Owed(g, d, max, frames + [top], p) == ReadsFrom(g, d, max, p, top.row, top.cursor) + Owed(g, d, max, frames, path)
  {
    var pushed := frames + [top];
    assert pushed[..|pushed| - 1] == frames && pushed[|pushed| - 1] == top;
    assert Path(p.nodes[..|p.nodes| - 1], p.steps[..|p.steps| - 1]) == path;
  }

  lemma OwedPush(g: Snapshot, d: Direction, max: nat, frames: seq<Frame>, path: Path, c: Candidate)
    requires frames != [] && |path.nodes| == |path.steps| + 1 == |frames| < max
    ensures ReadsBelow(g, d, max, Extend(path, c)) + Owed(g, d, max, frames, path)
      == Owed(g, d, max, frames + [Frame(Row(g, d, c.next), 0)], Extend(path, c))
  {
    OwedTop(g, d, max, frames, path, Frame(Row(g, d, c.next), 0), Extend(path, c));
  }

  lemma DropLast<T>(s: seq<T>)
    requires s != [] && Distinct(s)
    ensures Distinct(s[..|s| - 1]) && Elements(s[..|s| - 1]) == Elements(s) - {s[|s| - 1]}
  {
    assert s == s[..|s| - 1] + [s[|s| - 1]];
  }

  function Parent(path: Path): Path
    requires |path.nodes| == |path.steps| + 1 > 1
  {
    Path(path.nodes[..|path.nodes| - 1], path.steps[..|path.steps| - 1])
  }

  lemma LeaveKeeps(g: Snapshot, o: PathOptions, source: Id, frames: seq<Frame>, path: Path, seen: set<Id>)
    requires Lockstep(g, o, source, frames, path, seen) && |frames| > 1
    ensures Lockstep(g, o, source, frames[..|frames| - 1], Parent(path), seen - {path.nodes[|path.nodes| - 1]})
  {
    DropLast(path.nodes);
  }

  /** Dropping an exhausted frame drops nothing that is owed; after the last one everything was read. */
  lemma PopOwes(g: Snapshot, o: PathOptions, source: Id, frames: seq<Frame>, path: Path, examined: nat)
    requires o.Valid() && 0 < |frames| == |path.nodes| == |path.steps| + 1 <= o.maxDepth
    requires Owes(g, o, source, frames, path, examined, [])
    requires frames[|frames| - 1].cursor == |frames[|frames| - 1].row|
    ensures |frames| == 1 ==> examined == |AllReads(g, o.direction, source, o.maxDepth)|
    ensures |frames| > 1 ==> Owes(g, o, source, frames[..|frames| - 1], Parent(path), examined, [])
  {
    OwedExhausted(g, o.direction, o.maxDepth, frames, path);
  }

  lemma OwedExhausted(g: Snapshot, d: Direction, max: nat, frames: seq<Frame>, path: Path)
    requires 0 < |frames| == |path.nodes| == |path.steps| + 1 <= max
    requires frames[|frames| - 1].cursor == |frames[|frames| - 1].row|
    ensures Owed(g, d, max, frames, path)
         == if |frames| == 1 then [] else Owed(g, d, max, frames[..|frames| - 1], Parent(path))
  {
    var top := frames[|frames| - 1];
    assert ReadsFrom(g, d, max, path, top.row, top.cursor) == [];
  }

  /** What is left of the innermost row. */
  ghost function UnreadIn(frames: seq<Frame>): nat {
    if frames == [] then 0
    else var top := frames[|frames| - 1]; if top.cursor < |top.row| then |top.row| - top.cursor else 0
  }

  lemma AdvancedUnread(frames: seq<Frame>)
    requires frames != [] && frames[|frames| - 1].cursor < |frames[|frames| - 1].row|
    ensures |Advanced(frames)| == |frames| && UnreadIn(Advanced(frames)) < UnreadIn(frames)
  {
  }

  function Advanced(frames: seq<Frame>): seq<Frame>
    requires frames != []
  {
    var top := frames[|frames| - 1];
    frames[|frames| - 1 := Frame(top.row, top.cursor + 1)]
  }

  /** Taking a candidate keeps the lockstep, is the next read, and owes the subtree below it when its node is new. */
  lemma TakeKeeps(g: Snapshot, o: PathOptions, source: Id, frames: seq<Frame>, path: Path, seen: set<Id>,
                  examined: nat, c: Candidate)
    requires g.Valid() && o.Valid() && Lockstep(g, o, source, frames, path, seen)
    requires Owes(g, o, source, frames, path, examined, [])
    requires var top := frames[|frames| - 1]; top.cursor < |top.row| && c == top.row[top.cursor]
    ensures c.next in g.nodes && Lockstep(g, o, source, Advanced(frames), path, seen)
    ensures var list := AllReads(g, o.direction, source, o.maxDepth); examined < |list| && list[examined] == Read(path, c)
    ensures c.next in seen ==> Owes(g, o, source, Advanced(frames), path, examined + 1, [])
    ensures c.next !in seen ==>
      Owes(g, o, source, Advanced(frames), path, examined + 1, ReadsBelow(g, o.direction, o.maxDepth, Extend(path, c)))
  {
    CandidateIsNode(g, o.direction, path.nodes[|path.nodes| - 1], c);
    TakeOwes(g, o, source, frames, path, examined, c);
    assert c.next in seen <==> c.next in path.nodes;
  }

  lemma TakeOwes(g: Snapshot, o: PathOptions, source: Id, frames: seq<Frame>, path: Path, examined: nat, c: Candidate)
    requires o.Valid() && 0 < |frames| == |path.nodes| == |path.steps| + 1 <= o.maxDepth
    requires Owes(g, o, source, frames, path, examined, [])
    requires var top := frames[|frames| - 1]; top.cursor < |top.row| && c == top.row[top.cursor]
    ensures var list := AllReads(g, o.direction, source, o.maxDepth); examined < |list| && list[examined] == Read(path, c)
    ensures Owes(g, o, source, Advanced(frames), path, examined + 1,
                 if c.next in path.nodes then [] else ReadsBelow(g, o.direction, o.maxDepth, Extend(path, c)))
  {
    var list := AllReads(g, o.direction, source, o.maxDepth);
    OwedAdvance(g, o.direction, o.maxDepth, frames, path);
    NextRead(list, examined, Read(path, c), if c.next in path.nodes then [] else ReadsBelow(g, o.direction, o.maxDepth, Extend(path, c)),
             Owed(g, o.direction, o.maxDepth, Advanced(frames), path));
  }

  lemma NextRead(list: seq<Read>, n: nat, r: Read, below: seq<Read>, rest: seq<Read>)
    requires n <= |list| && list[n..] == [r] + below + rest
    ensures n < |list| && list[n] == r && list[n + 1..] == below + rest
  {
    var owed := list[n..];
    assert owed[0] == r && owed[1..] == below + rest;
    assert list[n + 1..] == owed[1..];
  }

  ghost predicate IsOpen(g: Snapshot, o: PathOptions, source: Id, frames: seq<Frame>, path: Path, seen: set<Id>,
                         examined: nat, yielded: seq<Path>)
    requires o.Valid()
  {
    && Lockstep(g, o, source, frames, path, seen) && Owes(g, o, source, frames, path, examined, [])
    && yielded == PathsOf(AllReads(g, o.direction, source, o.maxDepth)[..examined])
  }

  /** The candidate of a new node was read last; its path is not handed out yet, and what lies below it is owed. */
  ghost predicate IsTaken(g: Snapshot, o: PathOptions, source: Id, frames: seq<Frame>, path: Path, seen: set<Id>,
                          examined: nat, yielded: seq<Path>, c: Candidate)
    requires o.Valid()
  {
    var list := AllReads(g, o.direction, source, o.maxDepth);
    && Lockstep(g, o, source, frames, path, seen) && c.next !in path.nodes
    && Owes(g, o, source, frames, path, examined, ReadsBelow(g, o.direction, o.maxDepth, Extend(path, c)))
    && 0 < examined && list[examined - 1] == Read(path, c) && yielded == PathsOf(list[..examined - 1])
  }

  lemma TakeOpens(g: Snapshot, o: PathOptions, source: Id, frames: seq<Frame>, path: Path, seen: set<Id>,
                  examined: nat, yielded: seq<Path>, c: Candidate)
    requires g.Valid() && o.Valid() && IsOpen(g, o, source, frames, path, seen, examined, yielded)
    requires var top := frames[|frames| - 1]; top.cursor < |top.row| && c == top.row[top.cursor]
    ensures c.next in g.nodes && Lockstep(g, o, source, Advanced(frames), path, seen)
    ensures c.next in seen ==> IsOpen(g, o, source, Advanced(frames), path, seen, examined + 1, yielded)
    ensures c.next !in seen ==> IsTaken(g, o, source, Advanced(frames), path, seen, examined + 1, yielded, c)
  {
    TakeKeeps(g, o, source, frames, path, seen, examined, c);
    OneMoreRead(AllReads(g, o.direction, source, o.maxDepth), examined);
    assert c.next in seen <==> c.next in path.nodes;
  }

  lemma CandidateIsNode(g: Snapshot, d: Direction, n: Id, c: Candidate)
    requires g.Valid() && c in Row(g, d, n)
    ensures c.next in g.nodes
  {
    assert ValidTable(g.Table(d), g.nodes);
  }

  lemma EnterInnerOwes(g: Snapshot, o: PathOptions, source: Id, frames: seq<Frame>, path: Path, examined: nat, c: Candidate)
    requires o.Valid() && 0 < |frames| == |path.nodes| == |path.steps| + 1 < o.maxDepth
    requires Owes(g, o, source, frames, path, examined, ReadsBelow(g, o.direction, o.maxDepth, Extend(path, c)))
    ensures Owes(g, o, source, frames + [Frame(Row(g, o.direction, c.next), 0)], Extend(path, c), examined, [])
  {
    OwedPush(g, o.direction, o.maxDepth, frames, path, c);
  }

  lemma EnterInnerLockstep(g: Snapshot, o: PathOptions, source: Id, frames: seq<Frame>, path: Path, seen: set<Id>,
                           c: Candidate)
    requires Lockstep(g, o, source, frames, path, seen) && |frames| < o.maxDepth
    requires c.next in g.nodes && c.next !in seen
    ensures Lockstep(g, o, source, frames + [Frame(Row(g, o.direction, c.next), 0)], Extend(path, c), seen + {c.next})
  {
    assert Elements(Extend(path, c).nodes) == seen + {c.next};
  }

  lemma EnterLeaf(g: Snapshot, o: PathOptions, source: Id, frames: seq<Frame>, path: Path, examined: nat, c: Candidate)
    requires o.Valid() && 0 < |frames| == |path.nodes| == |path.steps| + 1 == o.maxDepth
    requires Owes(g, o, source, frames, path, examined, ReadsBelow(g, o.direction, o.maxDepth, Extend(path, c)))
    ensures Owes(g, o, source, frames, path, examined, [])
  {
    assert ReadsBelow(g, o.direction, o.maxDepth, Extend(path, c)) == [];
  }

  /**
   * What a stop reason says. `examined` counts the reads of the reference in order, and what was yielded is what they
   * find, but for the last one when the path limit was met.
   */
  ghost predicate Explained(o: PathOptions, list: seq<Read>, reason: PathStop, yielded: seq<Path>, examined: nat) {
    && examined <= |list|
    && match reason
       case PathsCompleted => examined == |list| && yielded == PathsOf(list)
       case PathLimit => |yielded| == o.maxPaths && 0 < examined && yielded == PathsOf(list[..examined - 1]) && Fresh(list[examined - 1])
       case PathEdgeLimit => examined == o.maxExaminations < |list| && yielded == PathsOf(list[..examined])
       case Cancelled => yielded == PathsOf(list[..examined])
  }

  lemma ExplainedIsPrefix(o: PathOptions, list: seq<Read>, reason: PathStop, yielded: seq<Path>, examined: nat)
    requires Explained(o, list, reason, yielded, examined)
    ensures yielded <= PathsOf(list) && (reason == PathLimit ==> yielded < PathsOf(list))
    ensures reason == PathLimit ==> PathsOf(list[..examined]) == yielded + [Extend(list[examined - 1].path, list[examined - 1].c)]
  {
    PathsPrefix(list, examined);
    if reason == PathLimit {
      PathsPrefix(list, examined - 1);
      OneMoreRead(list, examined - 1);
    }
  }

  class PathTraversal {
    const graph: Snapshot
    const source: Id
    const options: PathOptions
    var frames: seq<Frame>
    var nodes: seq<Id>
    var steps: seq<TraversalStep>
    var seen: set<Id>
    var emitted: nat
    var examined: nat
    var summary: Option<PathSummary>
    ghost var yielded: seq<Path>

    ghost function All(): seq<Path>
      requires options.maxDepth >= 0
    {
      AllPaths(graph, options.direction, source, options.maxDepth)
    }

    /** Every candidate the reference reads, in order. */
    ghost function ToRead(): seq<Read>
      requires options.maxDepth >= 0
    {
      AllReads(graph, options.direction, source, options.maxDepth)
    }

    ghost predicate Open()
      requires options.Valid()
      reads this
    {
      IsOpen(graph, options, source, frames, Path(nodes, steps), seen, examined, yielded)
    }

    ghost predicate Unstarted()
      reads this
    {
      nodes == [source] && steps == [] && seen == {source} && yielded == [] && examined == 0
    }

    /** Limits are respected and only reference paths were yielded, open or not. */
    ghost predicate Bounds()
      reads this
    {
      && graph.Valid() && options.Valid() && source in graph.nodes
      && emitted == |yielded| <= options.maxPaths && examined <= options.maxExaminations
    }

    ghost predicate Explains(reason: PathStop)
      requires options.Valid()
      reads this
    {
      Explained(options, ToRead(), reason, yielded, examined)
    }

    ghost predicate Closed()
      requires options.Valid()
      reads this
    {
      && summary.Some? && summary.value.emitted == |yielded| && summary.value.examined == examined
      && Explains(summary.value.reason)
      && frames == [] && nodes == [] && steps == [] && seen == {}
    }

    ghost predicate Valid()
      reads this
    {
      && Bounds()
      && if summary.Some? then Closed() else if frames == [] then Unstarted() else Open()
    }

    lemma ValidYieldsPrefix()
      requires Valid()
      ensures yielded <= All()
    {
      AllReadsFindAll(graph, options.direction, source, options.maxDepth);
      if summary.Some? {
        ExplainedIsPrefix(options, ToRead(), summary.value.reason, yielded, examined);
      } else if frames != [] {
        PathsPrefix(ToRead(), examined);
      }
    }

    constructor (graph: Snapshot, source: Id, options: PathOptions)
      requires graph.Valid() && options.Valid() && source in graph.nodes
      ensures Valid() && summary.None? && yielded == []
      ensures this.graph == graph && this.source == source && this.options == options
    {
      this.graph, this.source, this.options := graph, source, options;
      frames, nodes, steps, seen := [], [source], [], {source};
      emitted, examined, summary := 0, 0, None;
      yielded := [];
    }

    method Finish(reason: PathStop)
      requires Bounds() && Explains(reason)
      modifies this`summary, this`frames, this`nodes, this`steps, this`seen
      ensures Valid() && summary == Some(PathSummary(reason, emitted, examined))
    {
      summary := Some(PathSummary(reason, emitted, examined));
      frames, nodes, steps, seen := [], [], [], {};
    }

    method Close()
      requires Valid()
      modifies this
      ensures Valid() && yielded == old(yielded) && examined == old(examined)
      ensures summary == old(if summary.Some? then summary else Some(PathSummary(Cancelled, emitted, examined)))
    {
      if summary.None? {
        Finish(Cancelled);
      }
    }

    /** The innermost frame is exhausted: drop it, and its node unless that is the source. */
    method PopFrame()
      requires options.Valid() && frames != [] && Open()
      requires frames[|frames| - 1].cursor == |frames[|frames| - 1].row|
      modifies this`frames, this`nodes, this`steps, this`seen
      ensures frames == old(frames[..|frames| - 1])
      ensures frames != [] ==> Open()
      ensures frames == [] ==> examined == |ToRead()| && yielded == PathsOf(ToRead())
    {
      PopOwes(graph, options, source, frames, Path(nodes, steps), examined);
      assert ToRead()[..|ToRead()|] == ToRead();
      if |frames| > 1 {
        LeaveKeeps(graph, options, source, frames, Path(nodes, steps), seen);
      }
      frames := frames[..|frames| - 1];
      if frames != [] {
        LeaveNode();
      }
    }

    /** Leave the innermost node: its frame is exhausted, or it sits at the depth limit. */
    method LeaveNode()
      requires |nodes| == |steps| + 1 > 1
      modifies this`nodes, this`steps, this`seen
      ensures nodes == old(nodes[..|nodes| - 1]) && steps == old(steps[..|steps| - 1])
      ensures seen == old(seen - {nodes[|nodes| - 1]})
    {
      seen := seen - {nodes[|nodes| - 1]};
      nodes := nodes[..|nodes| - 1];
      steps := steps[..|steps| - 1];
    }

    /** Enter the candidate's node, hand out the path to it, and either open its row or leave it again. */
    method Enter(candidate: Candidate) returns (path: Path)
      requires graph.Valid() && options.Valid() && candidate.next in graph.nodes && candidate.next !in seen
      requires Lockstep(graph, options, source, frames, Path(nodes, steps), seen)
      requires Taken(candidate)
      modifies this`frames, this`nodes, this`steps, this`seen, this`emitted, this`yielded
      ensures Open()
      ensures path == old(Extend(Path(nodes, steps), candidate))
      ensures yielded == old(yielded) + [path] && emitted == old(emitted) + 1
    {
      ghost var parent, seen0 := Path(nodes, steps), seen;
      OneMoreRead(ToRead(), examined - 1);
      var from := nodes[|nodes| - 1];
      nodes := nodes + [candidate.next];
      steps := steps + [TraversalStep(candidate.edge, from, candidate.next, candidate.reversed)];
      seen := seen + {candidate.next};
      path := Path(nodes, steps);
      assert path == Extend(parent, candidate);
      emitted := emitted + 1;
      yielded := yielded + [path];
      if |steps| < options.maxDepth {
        EnterInnerLockstep(graph, options, source, frames, parent, seen0, candidate);
        EnterInnerOwes(graph, options, source, frames, parent, examined, candidate);
        frames := frames + [Frame(graph.Candidates(candidate.next, options.direction), 0)];
      } else {
        EnterLeaf(graph, options, source, frames, parent, examined, candidate);
        LeaveNode();
        assert Path(nodes, steps) == parent && seen == seen0;
      }
    }

    ghost function Unread(): nat
      reads this
    {
      UnreadIn(frames)
    }

    /** Move the innermost cursor past one candidate and count the examination. */
    method TakeCandidate() returns (candidate: Candidate)
      requires graph.Valid() && options.Valid() && frames != [] && Open()
      requires frames[|frames| - 1].cursor < |frames[|frames| - 1].row|
      modifies this`frames, this`examined
      ensures examined == old(examined) + 1 && |frames| == old(|frames|) && Unread() < old(Unread())
      ensures frames == old(Advanced(frames)) && candidate.next in graph.nodes
      ensures Lockstep(graph, options, source, frames, Path(nodes, steps), seen)
      ensures candidate.next in seen ==> Open()
      ensures candidate.next !in seen ==> Taken(candidate)
    {
      var top := frames[|frames| - 1];
      candidate := top.row[top.cursor];
      ghost var was, path := frames, Path(nodes, steps);
      TakeOpens(graph, options, source, was, path, seen, examined, yielded, candidate);
      AdvancedUnread(was);
      frames := Advanced(frames);
      examined := examined + 1;
    }

    /** The candidate of a new node was read last; its path is not handed out yet, and what lies below it is owed. */
    ghost predicate Taken(candidate: Candidate)
      requires options.Valid()
      reads this
    {
      IsTaken(graph, options, source, frames, Path(nodes, steps), seen, examined, yielded, candidate)
    }

    /** Open the row of the source. */
    method Begin()
      requires Valid() && summary.None? && frames == [] && options.maxDepth > 0
      modifies this`frames
      ensures frames != [] && Open()
    {
      frames := [Frame(graph.Candidates(source, options.direction), 0)];
      assert ToRead()[0..] == [] + ToRead();
    }

    lemma MoreToRead()
      requires graph.Valid() && options.Valid() && frames != [] && Open()
      requires frames[|frames| - 1].cursor < |frames[|frames| - 1].row|
      ensures examined < |ToRead()|
    {
      var top := frames[|frames| - 1];
      TakeKeeps(graph, options, source, frames, Path(nodes, steps), seen, examined, top.row[top.cursor]);
    }

    /** One turn of the loop: back up, skip a visited node, stop at a limit, or hand out a path. */
    method Turn() returns (done: bool, r: Option<Path>)
      requires Bounds() && summary.None? && frames != [] && Open()
      modifies this
      ensures done ==> Valid() && (r.None? ==> summary.Some? && summary.value.reason != Cancelled)
      ensures r.Some? ==> done && yielded == old(yielded) + [r.value] && summary.None?
      ensures r.None? ==> yielded == old(yielded)
      ensures !done ==> Bounds() && summary.None? && if frames == [] then Explains(PathsCompleted) else Open()
      ensures !done ==> |frames| < old(|frames|) || (|frames| == old(|frames|) && Unread() < old(Unread()))
    {
      if frames[|frames| - 1].cursor == |frames[|frames| - 1].row| {
        PopFrame();
        return false, None;
      }
      if examined == options.maxExaminations {
        MoreToRead();
        Finish(PathEdgeLimit);
        return true, None;
      }
      var candidate := TakeCandidate();
      if candidate.next in seen {
        return false, None;
      }
      r := Offer(candidate);
      return true, r;
    }

    /** Hand out the path to a new node, or stop because there are enough paths. */
    method Offer(candidate: Candidate) returns (r: Option<Path>)
      requires Bounds() && summary.None? && candidate.next in graph.nodes && candidate.next !in seen && Taken(candidate)
      modifies this
      ensures Valid()
      ensures r.Some? ==> yielded == old(yielded) + [r.value] && summary.None?
      ensures r.None? ==> yielded == old(yielded) && summary.Some? && summary.value.reason == PathLimit
    {
      if emitted == options.maxPaths {
        Finish(PathLimit);
        return None;
      }
      var path := Enter(candidate);
      return Some(path);
    }

    method Search() returns (r: Option<Path>)
      requires Valid() && summary.None? && frames != []
      modifies this
      ensures Valid()
      ensures r.Some? ==> yielded == old(yielded) + [r.value] && summary.None?
      ensures r.None? ==> yielded == old(yielded) && summary.Some? && summary.value.reason != Cancelled
    {
      while frames != []
        invariant yielded == old(yielded) && Bounds()
        invariant summary.None? && if frames == [] then Explains(PathsCompleted) else Open()
        decreases |frames|, Unread()
      {
        var done;
        done, r := Turn();
        if done {
          return;
        }
      }
      Finish(PathsCompleted);
      return None;
    }

    /** The next path, or None once there is a summary. */
    method Next() returns (r: Option<Path>)
      requires Valid()
      modifies this
      ensures Valid()
      ensures r.Some? ==> yielded == old(yielded) + [r.value] && summary.None?
      ensures r.None? ==> yielded == old(yielded) && summary.Some?
      ensures r.None? && old(summary).None? ==> summary.value.reason != Cancelled
      ensures old(summary).Some? ==> r.None? && summary == old(summary)
    {
      if summary.Some? {
        return None;
      }
      if frames == [] {
        if options.maxDepth == 0 {
          Finish(PathsCompleted);
          return None;
        }
        Begin();
      }
      r := Search();
    }
  }

  /** The entry point: invalid options and unknown sources are refused before an iterator exists. */
  method SearchPaths(graph: Snapshot, source: Id, options: PathOptions) returns (r: Result<PathTraversal, SearchError>)
    requires graph.Valid()
    ensures options.maxDepth < 0 || options.maxPaths < 1 || options.maxExaminations < 0 ==> r == Err(InvalidSearch)
    ensures options.Valid() && source !in graph.nodes ==> r == Err(UnknownNode)
    ensures options.maxDepth >= 0 && options.maxPaths >= 1 && options.maxExaminations >= 0 && source in graph.nodes ==>
      && r.Ok? && fresh(r.value) && r.value.Valid() && r.value.summary.None? && r.value.yielded == []
      && r.value.graph == graph && r.value.source == source && r.value.options == options
  {
    if !options.Valid() {
      return Err(InvalidSearch);
    }
    if source !in graph.nodes {
      return Err(UnknownNode);
    }
    var t := new PathTraversal(graph, source, options);
    return Ok(t);
  }

  // ---- What the reference list contains ----

  ghost predicate SimplePath(g: Snapshot, d: Direction, source: Id, max: nat, p: Path) {
    RealPath(g, d, p) && p.nodes[0] == source && Distinct(p.nodes) && 1 <= |p.steps| <= max
  }

  /** `p` goes on from `path`, next along candidate `c`. */
  ghost predicate Continues(p: Path, path: Path, c: Candidate)
    requires path.nodes != []
  {
    path.nodes <= p.nodes && path.steps + [StepOf(path.nodes[|path.nodes| - 1], c)] <= p.steps
  }

  ghost predicate ContinuesFrom(p: Path, path: Path, row: seq<Candidate>, i: nat)
    requires path.nodes != []
  {
    exists k :: i <= k < |row| && Continues(p, path, row[k])
  }

  lemma ExtendSimple(g: Snapshot, d: Direction, path: Path, c: Candidate)
    requires RealPath(g, d, path) && Distinct(path.nodes) && c.next !in path.nodes
    requires c in Row(g, d, path.nodes[|path.nodes| - 1])
    ensures RealPath(g, d, Extend(path, c)) && Distinct(Extend(path, c).nodes)
  {
    var p := Extend(path, c);
    forall i | 0 <= i < |p.steps| ensures RealStep(g, d, p, i) {
      if i < |path.steps| {
        assert RealStep(g, d, path, i) && p.steps[i] == path.steps[i];
      } else {
        assert p.steps[i] == StepOf(path.nodes[i], c) && Candidate(c.next, c.edge, c.reversed) == c;
      }
    }
  }

  /** Every listed path is simple, real, within the depth, and goes on from where the list started. */
  lemma {:induction false} ListedAreSimple(g: Snapshot, d: Direction, max: nat, path: Path, row: seq<Candidate>, i: nat,
                                           p: Path)
    requires RealPath(g, d, path) && Distinct(path.nodes) && |path.steps| < max
    requires row == Row(g, d, path.nodes[|path.nodes| - 1]) && p in PathsFrom(g, d, max, path, row, i)
    ensures SimplePath(g, d, path.nodes[0], max, p) && ContinuesFrom(p, path, row, i)
    decreases max - |path.steps|, |row| - i
  {
    if i < |row| {
      if row[i].next !in path.nodes && p in Below(g, d, max, Extend(path, row[i])) {
        var q := Extend(path, row[i]);
        ExtendSimple(g, d, path, row[i]);
        if p != q {
          ListedAreSimple(g, d, max, q, Row(g, d, row[i].next), 0, p);
        }
        assert Continues(p, path, row[i]);
      } else {
        ListedAreSimple(g, d, max, path, row, i + 1, p);
      }
    }
  }

  /** Every simple path that goes on from `path` along a remaining candidate is listed. */
  lemma {:induction false} SimpleAreListed(g: Snapshot, d: Direction, max: nat, path: Path, row: seq<Candidate>, i: nat,
                                           k: nat, p: Path)
    requires |path.nodes| == |path.steps| + 1 <= max && SimplePath(g, d, path.nodes[0], max, p)
    requires i <= k < |row| && Continues(p, path, row[k])
    ensures p in PathsFrom(g, d, max, path, row, i)
    decreases max - |path.steps|, |row| - i
  {
    if i < k {
      SimpleAreListed(g, d, max, path, row, i + 1, k, p);
    } else {
      var n := |path.steps|;
      var q := Extend(path, row[i]);
      assert p.steps[n] == StepOf(path.nodes[n], row[i]) by { assert q.steps[n] == p.steps[n]; }
      assert RealStep(g, d, p, n) && p.nodes[n + 1] == row[i].next;
      assert forall j :: 0 <= j <= n ==> p.nodes[j] == path.nodes[j];
      assert q.nodes <= p.nodes;
      assert row[i].next !in path.nodes;
      if |p.steps| == n + 1 {
        assert |p.nodes| == |q.nodes| && |p.steps| == |q.steps|;
        assert p.nodes == p.nodes[..|q.nodes|] == q.nodes && p.steps == p.steps[..|q.steps|] == q.steps;
      } else {
        var s := p.steps[n + 1];
        var c := Candidate(s.to, s.edge, s.reversed);
        var below := Row(g, d, s.from);
        assert RealStep(g, d, p, n + 1);
        var j :| 0 <= j < |below| && below[j] == c;
        assert Continues(p, q, c) by { assert StepOf(s.from, c) == s; }
        SimpleAreListed(g, d, max, q, below, 0, j, p);
      }
    }
  }

  lemma DistinctJoin<T>(a: seq<T>, b: seq<T>)
    requires Distinct(a) && Distinct(b) && forall x :: x in a ==> x !in b
    ensures Distinct(a + b)
  {
    forall i, j | 0 <= i < j < |a + b| ensures (a + b)[i] != (a + b)[j] {
      if i < |a| <= j { assert (a + b)[i] in a && (a + b)[j] in b; }
    }
  }

  lemma {:induction false} ListedOnce(g: Snapshot, d: Direction, max: nat, path: Path, row: seq<Candidate>, i: nat)
    requires RealPath(g, d, path) && Distinct(path.nodes) && |path.steps| < max
    requires row == Row(g, d, path.nodes[|path.nodes| - 1])
    requires forall n :: Distinct(Row(g, d, n))
    ensures Distinct(PathsFrom(g, d, max, path, row, i))
    decreases max - |path.steps|, |row| - i
  {
    if i < |row| {
      ListedOnce(g, d, max, path, row, i + 1);
      if row[i].next !in path.nodes {
        var q := Extend(path, row[i]);
        ExtendSimple(g, d, path, row[i]);
        BelowOnce(g, d, max, path, row, i);
        var here, later := Below(g, d, max, q), PathsFrom(g, d, max, path, row, i + 1);
        forall p | p in here ensures p !in later {
          assert q.steps <= p.steps by { BelowContinues(g, d, max, q, p); }
          if p in later {
            ListedAreSimple(g, d, max, path, row, i + 1, p);
            var k :| i + 1 <= k < |row| && Continues(p, path, row[k]);
            SameStep(p, path, row[i], row[k]);
          }
        }
        DistinctJoin(here, later);
      }
    }
  }

  lemma BelowContinues(g: Snapshot, d: Direction, max: nat, q: Path, p: Path)
    requires RealPath(g, d, q) && Distinct(q.nodes) && p in Below(g, d, max, q)
    ensures q.steps <= p.steps && q.nodes <= p.nodes && (p != q ==> |p.steps| > |q.steps|)
  {
    if p != q {
      var row := Row(g, d, q.nodes[|q.nodes| - 1]);
      ListedAreSimple(g, d, max, q, row, 0, p);
    }
  }

  lemma BelowOnce(g: Snapshot, d: Direction, max: nat, path: Path, row: seq<Candidate>, i: nat)
    requires RealPath(g, d, path) && Distinct(path.nodes) && |path.steps| < max && i < |row|
    requires row == Row(g, d, path.nodes[|path.nodes| - 1]) && row[i].next !in path.nodes
    requires forall n :: Distinct(Row(g, d, n))
    ensures Distinct(Below(g, d, max, Extend(path, row[i])))
    decreases max - |path.steps|, |row| - i, 0
  {
    var q := Extend(path, row[i]);
    ExtendSimple(g, d, path, row[i]);
    if |q.steps| < max {
      var rest := PathsFrom(g, d, max, q, Row(g, d, row[i].next), 0);
      ListedOnce(g, d, max, q, Row(g, d, row[i].next), 0);
      if q in rest {
        ListedAreSimple(g, d, max, q, Row(g, d, row[i].next), 0, q);
        assert false;
      }
      DistinctJoin([q], rest);
    }
  }

  lemma SameStep(p: Path, path: Path, a: Candidate, b: Candidate)
    requires path.nodes != [] && Continues(p, path, b)
    requires path.steps + [StepOf(path.nodes[|path.nodes| - 1], a)] <= p.steps
    ensures a == b
  {
    var n := |path.steps|;
    assert (path.steps + [StepOf(path.nodes[|path.nodes| - 1], a)])[n] == p.steps[n];
    assert (path.steps + [StepOf(path.nodes[|path.nodes| - 1], b)])[n] == p.steps[n];
  }

  /** The reference list is exactly the simple paths of length one to the depth limit, each once. */
  lemma AllPathsExact(g: Snapshot, d: Direction, source: Id, max: nat)
    requires forall n :: Distinct(Row(g, d, n))
    ensures Distinct(AllPaths(g, d, source, max))
    ensures forall p :: p in AllPaths(g, d, source, max) <==> SimplePath(g, d, source, max, p)
  {
    if max > 0 {
      var root, row := Path([source], []), Row(g, d, source);
      ListedOnce(g, d, max, root, row, 0);
      forall p ensures p in AllPaths(g, d, source, max) <==> SimplePath(g, d, source, max, p) {
        if p in AllPaths(g, d, source, max) {
          ListedAreSimple(g, d, max, root, row, 0, p);
        }
        if SimplePath(g, d, source, max, p) {
          var s := p.steps[0];
          var c := Candidate(s.to, s.edge, s.reversed);
          assert RealStep(g, d, p, 0);
          var k :| 0 <= k < |row| && row[k] == c;
          assert StepOf(source, c) == s && Continues(p, root, c);
          SimpleAreListed(g, d, max, root, row, 0, k, p);
        }
      }
    }
  }

  /** The rows of a built snapshot hold no candidate twice, so its path lists are exact. */
  lemma BuiltRowsAreDistinct(g: Snapshot, nodes: set<Id>, edges: set<Edge>, d: Direction, n: Id)
    requires Represents(g, nodes, edges)
    ensures Distinct(Row(g, d, n))
  {
    assert Rows(g.Table(d), nodes, edges, d);
  }

  // ---- Which ending a traversal comes to ----

  lemma {:induction false} PathsGrow(list: seq<Read>, m: nat, n: nat)
    requires m <= n <= |list|
    ensures PathsOf(list[..m]) <= PathsOf(list[..n])
  {
    assert list[..n][..m] == list[..m];
    PathsPrefix(list[..n], m);
  }

  /** Reads and limits alone decide the ending. */
  lemma EndingExactly(o: PathOptions, list: seq<Read>, reason: PathStop, yielded: seq<Path>, examined: nat)
    requires o.Valid() && Explained(o, list, reason, yielded, examined) && reason != Cancelled
    requires |yielded| <= o.maxPaths && examined <= o.maxExaminations
    ensures var seen := if |list| < o.maxExaminations then |list| else o.maxExaminations;
      && (reason == PathLimit <==> |PathsOf(list[..seen])| > o.maxPaths)
      && (reason == PathEdgeLimit <==> |PathsOf(list[..seen])| <= o.maxPaths && |list| > o.maxExaminations)
      && (reason == PathsCompleted <==> |PathsOf(list[..seen])| <= o.maxPaths && |list| <= o.maxExaminations)
      && yielded == if reason == PathLimit then PathsOf(list[..seen])[..o.maxPaths] else PathsOf(list[..seen])
  {
    var seen := if |list| < o.maxExaminations then |list| else o.maxExaminations;
    assert list[..|list|] == list;
    if reason == PathLimit {
      ExplainedIsPrefix(o, list, reason, yielded, examined);
      PathsGrow(list, examined, seen);
      PathsPrefix(list, examined);
    }
  }

  /** At the path limit the last read is the one that would have gone over it. */
  lemma LimitIsMetOnce(o: PathOptions, list: seq<Read>, yielded: seq<Path>, m: nat, n: nat)
    requires Explained(o, list, PathLimit, yielded, m) && Explained(o, list, PathLimit, yielded, n)
    ensures m == n
  {
    if m < n {
      ExplainedIsPrefix(o, list, PathLimit, yielded, m);
      PathsGrow(list, m, n - 1);
    } else if n < m {
      ExplainedIsPrefix(o, list, PathLimit, yielded, n);
      PathsGrow(list, n, m - 1);
    }
  }

  /** Two traversals of the same snapshot that were not cancelled end alike: same paths, same reason, same counts. */
  lemma EndingsAgree(s: PathTraversal, t: PathTraversal)
    requires s.Valid() && t.Valid() && s.graph == t.graph && s.source == t.source && s.options == t.options
    requires s.summary.Some? && t.summary.Some? && s.summary.value.reason != Cancelled && t.summary.value.reason != Cancelled
    ensures s.yielded == t.yielded && s.summary == t.summary
  {
    EndingExactly(s.options, s.ToRead(), s.summary.value.reason, s.yielded, s.examined);
    EndingExactly(t.options, t.ToRead(), t.summary.value.reason, t.yielded, t.examined);
    if s.summary.value.reason == PathLimit {
      LimitIsMetOnce(s.options, s.ToRead(), s.yielded, s.examined, t.examined);
    }
  }

  /** Within the limits a traversal that runs to its end yields every path and counts every read. */
  lemma WithinLimitsCompletes(t: PathTraversal)
    requires t.Valid() && t.summary.Some? && t.summary.value.reason != Cancelled
    requires |t.ToRead()| <= t.options.maxExaminations && |t.All()| <= t.options.maxPaths
    ensures t.yielded == t.All() && t.summary.value == PathSummary(PathsCompleted, |t.All()|, |t.ToRead()|)
  {
    AllReadsFindAll(t.graph, t.options.direction, t.source, t.options.maxDepth);
    EndingExactly(t.options, t.ToRead(), t.summary.value.reason, t.yielded, t.examined);
    assert t.ToRead()[..|t.ToRead()|] == t.ToRead();
  }

  // ---- What the reads are ----

  /** A candidate of the row at the end of the path, short of the depth limit. */
  ghost predicate Readable(g: Snapshot, d: Direction, max: nat, r: Read) {
    r.path.nodes != [] && |r.path.steps| < max && r.c in Row(g, d, r.path.nodes[|r.path.nodes| - 1])
  }

  lemma {:induction false} ReadsBelowAre(g: Snapshot, d: Direction, max: nat, p: Path, r: Read)
    requires p.nodes != []
    ensures r in ReadsBelow(g, d, max, p) <==> r.path in Below(g, d, max, p) && Readable(g, d, max, r)
    decreases max - |p.steps|, 1, 0
  {
    if |p.steps| < max {
      var row := Row(g, d, p.nodes[|p.nodes| - 1]);
      ReadsFromAre(g, d, max, p, row, 0, r);
      assert row[0..] == row;
      if r.path == p {
        OwnIsNotBelow(g, d, max, p, row, 0);
      }
    }
  }

  lemma {:induction false} ReadsFromAre(g: Snapshot, d: Direction, max: nat, path: Path, row: seq<Candidate>, i: nat, r: Read)
    requires path.nodes != [] && |path.steps| < max && i <= |row|
    ensures r in ReadsFrom(g, d, max, path, row, i) <==>
      (r.path == path && r.c in row[i..]) || (r.path in PathsFrom(g, d, max, path, row, i) && Readable(g, d, max, r))
    decreases max - |path.steps|, 0, |row| - i
  {
    if i < |row| {
      assert row[i..] == [row[i]] + row[i + 1..];
      ReadsFromAre(g, d, max, path, row, i + 1, r);
      if row[i].next !in path.nodes {
        ReadsBelowAre(g, d, max, Extend(path, row[i]), r);
      }
    }
  }

  /** Paths below are longer. */
  lemma {:induction false} OwnIsNotBelow(g: Snapshot, d: Direction, max: nat, path: Path, row: seq<Candidate>, i: nat)
    requires path.nodes != [] && |path.steps| < max
    ensures forall p :: p in PathsFrom(g, d, max, path, row, i) ==> |p.steps| > |path.steps|
    decreases max - |path.steps|, 0, |row| - i
  {
    if i < |row| {
      OwnIsNotBelow(g, d, max, path, row, i + 1);
      var q := Extend(path, row[i]);
      if row[i].next !in path.nodes && |q.steps| < max {
        OwnIsNotBelow(g, d, max, q, Row(g, d, row[i].next), 0);
      }
    }
  }

  /** Read are exactly the candidates at the source and at the end of each simple path short of the depth limit. */
  lemma ReadsExactly(g: Snapshot, d: Direction, source: Id, max: nat, r: Read)
    requires forall n :: Distinct(Row(g, d, n))
    ensures r in AllReads(g, d, source, max) <==>
      && (r.path == Path([source], []) || SimplePath(g, d, source, max, r.path))
      && |r.path.steps| < max && r.c in Row(g, d, r.path.nodes[|r.path.nodes| - 1])
  {
    AllPathsExact(g, d, source, max);
    ReadsBelowAre(g, d, max, Path([source], []), r);
  }

  // ---- Built snapshots ----

  /** After a path limit there really is a further path, and after completion there is none. */
  lemma SummaryIsHonest(t: PathTraversal, nodes: set<Id>, edges: set<Edge>)
    requires t.Valid() && t.summary.Some? && Represents(t.graph, nodes, edges)
    ensures Distinct(t.yielded)
    ensures forall p :: p in t.yielded ==> SimplePath(t.graph, t.options.direction, t.source, t.options.maxDepth, p)
    ensures t.summary.value.reason == PathLimit ==>
      exists p :: p !in t.yielded && SimplePath(t.graph, t.options.direction, t.source, t.options.maxDepth, p)
    ensures t.summary.value.reason == PathsCompleted ==>
      forall p :: SimplePath(t.graph, t.options.direction, t.source, t.options.maxDepth, p) ==> p in t.yielded
  {
    var g, d, max, all := t.graph, t.options.direction, t.options.maxDepth, t.All();
    t.ValidYieldsPrefix();
    AllReadsFindAll(g, d, t.source, max);
    ExplainedIsPrefix(t.options, t.ToRead(), t.summary.value.reason, t.yielded, t.examined);
    forall n { BuiltRowsAreDistinct(g, nodes, edges, d, n); }
    AllPathsExact(g, d, t.source, max);
    assert t.yielded == all[..|t.yielded|];
    if t.summary.value.reason == PathLimit {
      var p := all[|t.yielded|];
      assert p in all && p !in t.yielded;
    }
  }
}
