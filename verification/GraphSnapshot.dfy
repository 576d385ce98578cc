/** The validated, immutable adjacency that every traversal reads. */
module GraphSnapshots {
  import opened Core
  import opened Sorting

  datatype Edge = Edge(id: Id, source: Id, target: Id)

  datatype Limits = Limits(maxNodes: int, maxEdges: int, maxIdBytes: int, maxTotalIdBytes: int) {
    predicate Positive() {
      maxNodes >= 1 && maxEdges >= 1 && maxIdBytes >= 1 && maxTotalIdBytes >= 1
    }
  }

  datatype Direction = Outbound | Inbound | Both

  datatype Candidate = Candidate(next: Id, edge: Id, reversed: bool)

  datatype BuildError = InvalidGraph | GraphCapacity

  datatype Snapshot = Snapshot(
    nodes: set<Id>,
    outbound: map<Id, seq<Candidate>>,
    inbound: map<Id, seq<Candidate>>,
    both: map<Id, seq<Candidate>>)
  {
    function Table(direction: Direction): map<Id, seq<Candidate>> {
      match direction
      case Outbound => outbound
      case Inbound => inbound
      case Both => both
    }

    /** What a traversal relies on: every node has a row, and rows only name nodes. */
    ghost predicate Valid() {
      forall d: Direction :: ValidTable(Table(d), nodes)
    }

    function Candidates(node: Id, direction: Direction): seq<Candidate>
      requires Valid() && node in nodes
    {
      assert ValidTable(Table(direction), nodes);
      Table(direction)[node]
    }
  }

  ghost predicate ValidTable(table: map<Id, seq<Candidate>>, nodes: set<Id>) {
    && table.Keys == nodes
    && forall n, c :: n in table && c in table[n] ==> c.next in nodes
  }

  // ---- The meaning of the three tables ----

  /** The candidate `c` of node `n` stands for one of the edges. `Both` counts a self loop once, forwards. */
  ghost predicate Incident(edges: set<Edge>, n: Id, d: Direction, c: Candidate) {
    var forwards := !c.reversed && Edge(c.edge, n, c.next) in edges;
    var backwards := c.reversed && Edge(c.edge, c.next, n) in edges;
    match d
    case Outbound => forwards
    case Inbound => backwards
    case Both => forwards || (backwards && c.next != n)
  }

  ghost predicate RowOf(row: seq<Candidate>, edges: set<Edge>, n: Id, d: Direction) {
    forall c :: c in row <==> Incident(edges, n, d, c)
  }

  predicate NotAfter(a: Candidate, b: Candidate) {
    a.next < b.next || (a.next == b.next && (a.edge < b.edge || (a.edge == b.edge && (!a.reversed || b.reversed))))
  }

  /** By the next node, then by the edge, and of a reversed and an unreversed step the unreversed one first. */
  ghost predicate IsBefore(a: Candidate, b: Candidate) {
    || a.next < b.next
    || (a.next == b.next && a.edge < b.edge)
    || (a.next == b.next && a.edge == b.edge && !a.reversed && b.reversed)
  }

  ghost predicate Ascending(s: seq<Candidate>) {
    forall i, j :: 0 <= i < j < |s| ==> IsBefore(s[i], s[j])
  }

  ghost predicate Represents(g: Snapshot, nodes: set<Id>, edges: set<Edge>) {
    g.nodes == nodes && forall d: Direction :: Rows(g.Table(d), nodes, edges, d)
  }

  // ---- Validation ----

  ghost function EdgeIds(edges: seq<Edge>): seq<Id> {
    if edges == [] then [] else [edges[0].id, edges[0].source, edges[0].target] + EdgeIds(edges[1..])
  }

  /** `bytes` is the UTF-8 length of an identifier; a blank or unencodable one is absent. */
  ghost function TotalBytes(ids: seq<Id>, bytes: map<Id, nat>): nat {
    if ids == [] then 0 else (if ids[0] in bytes then bytes[ids[0]] else 0) + TotalBytes(ids[1..], bytes)
  }

  ghost predicate IdsFit(ids: seq<Id>, bytes: map<Id, nat>, limits: Limits) {
    forall id :: id in ids ==> id in bytes && bytes[id] <= limits.maxIdBytes
  }

  ghost predicate Acceptable(nodeIds: seq<Id>, edges: seq<Edge>, limits: Limits, bytes: map<Id, nat>) {
    && limits.maxNodes >= 1 && limits.maxEdges >= 1 && limits.maxIdBytes >= 1 && limits.maxTotalIdBytes >= 1
    && |nodeIds| <= limits.maxNodes && |edges| <= limits.maxEdges
    && IdsFit(nodeIds + EdgeIds(edges), bytes, limits)
    && TotalBytes(nodeIds + EdgeIds(edges), bytes) <= limits.maxTotalIdBytes
    && Distinct(nodeIds)
    && (forall i, j :: 0 <= i < j < |edges| ==> edges[i].id != edges[j].id)
    && (forall e :: e in edges ==> e.source in nodeIds && e.target in nodeIds)
  }

  lemma {:induction false} TotalBytesAppend(a: seq<Id>, b: seq<Id>, bytes: map<Id, nat>)
    ensures TotalBytes(a + b, bytes) == TotalBytes(a, bytes) + TotalBytes(b, bytes)
  {
    if a == [] {
      assert a + b == b;
    } else {
      TotalBytesAppend(a[1..], b, bytes);
      assert (a + b)[1..] == a[1..] + b;
    }
  }

  lemma {:induction false} EdgeIdsAppend(a: seq<Edge>, b: seq<Edge>)
    ensures EdgeIds(a + b) == EdgeIds(a) + EdgeIds(b)
  {
    if a == [] {
      assert a + b == b;
    } else {
      EdgeIdsAppend(a[1..], b);
      assert (a + b)[0] == a[0] && (a + b)[1..] == a[1..] + b;
      var ids := [a[0].id, a[0].source, a[0].target];
      assert ids + (EdgeIds(a[1..]) + EdgeIds(b)) == (ids + EdgeIds(a[1..])) + EdgeIds(b);
    }
  }

  /** The identifier at `i` is the first that is blank, too long or too much; the error says which. */
  ghost predicate StopsAt(ids: seq<Id>, start: nat, limits: Limits, bytes: map<Id, nat>, i: nat, e: BuildError) {
    && i < |ids| && IdsFit(ids[..i], bytes, limits) && start + TotalBytes(ids[..i], bytes) <= limits.maxTotalIdBytes
    && if ids[i] !in bytes then e == InvalidGraph
       else
         && e == GraphCapacity
         && (bytes[ids[i]] > limits.maxIdBytes || start + TotalBytes(ids[..i], bytes) + bytes[ids[i]] > limits.maxTotalIdBytes)
  }

  ghost predicate IdStops(ids: seq<Id>, start: nat, limits: Limits, bytes: map<Id, nat>, e: BuildError) {
    exists i: nat :: StopsAt(ids, start, limits, bytes, i, e)
  }

  method CountIds(ids: seq<Id>, start: nat, limits: Limits, bytes: map<Id, nat>) returns (r: Result<nat, BuildError>)
    requires start <= limits.maxTotalIdBytes
    ensures r.Ok? <==> IdsFit(ids, bytes, limits) && start + TotalBytes(ids, bytes) <= limits.maxTotalIdBytes
    ensures r.Ok? ==> r.value == start + TotalBytes(ids, bytes)
    ensures r.Err? ==> IdStops(ids, start, limits, bytes, r.error)
  {
    var total := start;
    for i := 0 to |ids|
      invariant IdsFit(ids[..i], bytes, limits)
      invariant total == start + TotalBytes(ids[..i], bytes) <= limits.maxTotalIdBytes
    {
      assert ids == ids[..i] + ids[i..] && ids[i..][0] == ids[i];
      TotalBytesAppend(ids[..i], ids[i..], bytes);
      assert ids[..i + 1] == ids[..i] + [ids[i]];
      TotalBytesAppend(ids[..i], [ids[i]], bytes);
      if ids[i] !in bytes {
        assert StopsAt(ids, start, limits, bytes, i, InvalidGraph);
        return Err(InvalidGraph);
      }
      assert bytes[ids[i]] > limits.maxIdBytes || total + bytes[ids[i]] > limits.maxTotalIdBytes ==>
        StopsAt(ids, start, limits, bytes, i, GraphCapacity);
      if bytes[ids[i]] > limits.maxIdBytes {
        return Err(GraphCapacity);
      }
      total := total + bytes[ids[i]];
      if total > limits.maxTotalIdBytes {
        return Err(GraphCapacity);
      }
    }
    assert ids[..|ids|] == ids;
    return Ok(total);
  }

  lemma NextEdgeIds(edges: seq<Edge>, i: nat, limits: Limits, bytes: map<Id, nat>)
    requires i < |edges|
    ensures var ids := [edges[i].id, edges[i].source, edges[i].target];
      && EdgeIds(edges[..i + 1]) == EdgeIds(edges[..i]) + ids
      && TotalBytes(EdgeIds(edges[..i + 1]), bytes) == TotalBytes(EdgeIds(edges[..i]), bytes) + TotalBytes(ids, bytes)
      && TotalBytes(EdgeIds(edges), bytes) >= TotalBytes(EdgeIds(edges[..i + 1]), bytes)
      && (IdsFit(EdgeIds(edges), bytes, limits) ==> IdsFit(ids, bytes, limits))
  {
    var e := edges[i];
    var ids := [e.id, e.source, e.target];
    assert edges[..i + 1] == edges[..i] + [e] && EdgeIds([e]) == ids + EdgeIds([]);
    EdgeIdsAppend(edges[..i], [e]);
    TotalBytesAppend(EdgeIds(edges[..i]), ids, bytes);
    assert edges == edges[..i + 1] + edges[i + 1..];
    EdgeIdsAppend(edges[..i + 1], edges[i + 1..]);
    TotalBytesAppend(EdgeIds(edges[..i + 1]), EdgeIds(edges[i + 1..]), bytes);
    forall id | id in ids ensures id in EdgeIds(edges) {
      assert id in EdgeIds(edges[..i + 1]);
    }
  }

  ghost predicate EdgesAcceptable(nodes: set<Id>, edges: seq<Edge>) {
    && (forall i, j :: 0 <= i < j < |edges| ==> edges[i].id != edges[j].id)
    && (forall e :: e in edges ==> e.source in nodes && e.target in nodes)
  }

  lemma EdgesAcceptableStep(nodes: set<Id>, edges: seq<Edge>, i: nat)
    requires i < |edges|
    ensures EdgesAcceptable(nodes, edges[..i + 1]) <==>
      && EdgesAcceptable(nodes, edges[..i])
      && (forall f :: f in edges[..i] ==> f.id != edges[i].id)
      && edges[i].source in nodes && edges[i].target in nodes
    ensures EdgesAcceptable(nodes, edges) ==> EdgesAcceptable(nodes, edges[..i + 1])
  {
    assert edges[..i + 1] == edges[..i] + [edges[i]];
    forall f | f in edges[..i + 1] ensures f in edges {}
    if EdgesAcceptable(nodes, edges[..i + 1]) {
      forall f | f in edges[..i] ensures f.id != edges[i].id {
        var k :| 0 <= k < i && edges[..i][k] == f;
        assert edges[..i + 1][k] == f && edges[..i + 1][i] == edges[i];
      }
      forall j, k | 0 <= j < k < i ensures edges[..i][j].id != edges[..i][k].id {
        assert edges[..i + 1][j].id != edges[..i + 1][k].id;
      }
    }
  }

  /** An identifier of the edge does not fit, or they do but its own is not new or an end is no node. */
  ghost predicate EdgeStops(nodes: set<Id>, e: Edge, total: nat, edgeIds: set<Id>, limits: Limits, bytes: map<Id, nat>,
                            error: BuildError)
  {
    var ids := [e.id, e.source, e.target];
    || IdStops(ids, total, limits, bytes, error)
    || (error == InvalidGraph && IdsFit(ids, bytes, limits) && total + TotalBytes(ids, bytes) <= limits.maxTotalIdBytes
        && (e.id in edgeIds || e.source !in nodes || e.target !in nodes))
  }

  /** The edge at `i` is the first that stops the validation. */
  ghost predicate EdgeStopsAt(nodes: set<Id>, edges: seq<Edge>, start: nat, limits: Limits, bytes: map<Id, nat>, i: nat,
                              error: BuildError)
  {
    && i < |edges| && IdsFit(EdgeIds(edges[..i]), bytes, limits) && EdgesAcceptable(nodes, edges[..i])
    && var total := start + TotalBytes(EdgeIds(edges[..i]), bytes);
       total <= limits.maxTotalIdBytes
       && EdgeStops(nodes, edges[i], total, (set e | e in edges[..i] :: e.id), limits, bytes, error)
  }

  ghost predicate SomeEdgeStops(nodes: set<Id>, edges: seq<Edge>, start: nat, limits: Limits, bytes: map<Id, nat>,
                                error: BuildError)
  {
    exists i: nat :: EdgeStopsAt(nodes, edges, start, limits, bytes, i, error)
  }

  /** What refuses the inputs: limits, sizes, node identifiers, a node listed twice, or an edge, in this order. */
  ghost predicate RefusedFor(nodeIds: seq<Id>, edges: seq<Edge>, limits: Limits, bytes: map<Id, nat>, error: BuildError) {
    if limits.maxNodes < 1 || limits.maxEdges < 1 || limits.maxIdBytes < 1 || limits.maxTotalIdBytes < 1 then
      error == InvalidGraph
    else if |nodeIds| > limits.maxNodes || |edges| > limits.maxEdges then error == GraphCapacity
    else if !IdsFit(nodeIds, bytes, limits) || TotalBytes(nodeIds, bytes) > limits.maxTotalIdBytes then
      IdStops(nodeIds, 0, limits, bytes, error)
    else if !Distinct(nodeIds) then error == InvalidGraph
    else SomeEdgeStops(Elements(nodeIds), edges, TotalBytes(nodeIds, bytes), limits, bytes, error)
  }

  /** One edge: its identifiers fit, its own is new, and both its ends are nodes. */
  method CheckEdge(nodes: set<Id>, e: Edge, total: nat, edgeIds: set<Id>, limits: Limits, bytes: map<Id, nat>)
    returns (r: Result<nat, BuildError>)
    requires total <= limits.maxTotalIdBytes
    ensures var ids := [e.id, e.source, e.target];
      && (r.Ok? <==> IdsFit(ids, bytes, limits) && total + TotalBytes(ids, bytes) <= limits.maxTotalIdBytes
                     && e.id !in edgeIds && e.source in nodes && e.target in nodes)
      && (r.Ok? ==> r.value == total + TotalBytes(ids, bytes))
    ensures r.Err? ==> EdgeStops(nodes, e, total, edgeIds, limits, bytes, r.error)
  {
    var counted := CountIds([e.id, e.source, e.target], total, limits, bytes);
    if counted.Err? {
      return counted;
    }
    if e.id in edgeIds {
      return Err(InvalidGraph);
    }
    if e.source !in nodes || e.target !in nodes {
      return Err(InvalidGraph);
    }
    return counted;
  }

  /** The per-edge half of the validation, after `start` bytes of node identifiers. */
  method ValidateEdges(nodes: set<Id>, edges: seq<Edge>, start: nat, limits: Limits, bytes: map<Id, nat>)
    returns (r: Result<(), BuildError>)
    requires start <= limits.maxTotalIdBytes
    ensures r.Ok? <==>
      && IdsFit(EdgeIds(edges), bytes, limits)
      && start + TotalBytes(EdgeIds(edges), bytes) <= limits.maxTotalIdBytes
      && EdgesAcceptable(nodes, edges)
    ensures r.Err? ==> SomeEdgeStops(nodes, edges, start, limits, bytes, r.error)
  {
    var total := start;
    var edgeIds: set<Id> := {};
    for i := 0 to |edges|
      invariant Checked(nodes, edges, i, start, limits, bytes, total, edgeIds)
    {
      var checked := NextEdge(nodes, edges, i, start, limits, bytes, total, edgeIds);
      if checked.Err? {
        return Err(checked.error);
      }
      total := checked.value;
      edgeIds := edgeIds + {edges[i].id};
    }
    assert edges[..|edges|] == edges;
    return Ok(());
  }

  /** The first `i` edges are in order; `total` and `edgeIds` are the running counts. */
  ghost predicate Checked(nodes: set<Id>, edges: seq<Edge>, i: nat, start: nat, limits: Limits, bytes: map<Id, nat>,
                          total: nat, edgeIds: set<Id>)
    requires i <= |edges|
  {
    && total == start + TotalBytes(EdgeIds(edges[..i]), bytes) <= limits.maxTotalIdBytes
    && IdsFit(EdgeIds(edges[..i]), bytes, limits) && EdgesAcceptable(nodes, edges[..i])
    && edgeIds == set e | e in edges[..i] :: e.id
  }

  method NextEdge(nodes: set<Id>, edges: seq<Edge>, i: nat, start: nat, limits: Limits, bytes: map<Id, nat>, total: nat,
                  edgeIds: set<Id>)
    returns (r: Result<nat, BuildError>)
    requires i < |edges| && Checked(nodes, edges, i, start, limits, bytes, total, edgeIds)
    ensures r.Ok? ==> Checked(nodes, edges, i + 1, start, limits, bytes, r.value, edgeIds + {edges[i].id})
    ensures r.Err? ==>
      !(IdsFit(EdgeIds(edges), bytes, limits) && start + TotalBytes(EdgeIds(edges), bytes) <= limits.maxTotalIdBytes
        && EdgesAcceptable(nodes, edges))
    ensures r.Err? ==> EdgeStopsAt(nodes, edges, start, limits, bytes, i, r.error)
  {
    NextEdgeIds(edges, i, limits, bytes);
    EdgesAcceptableStep(nodes, edges, i);
    r := CheckEdge(nodes, edges[i], total, edgeIds, limits, bytes);
    assert edges[..i + 1] == edges[..i] + [edges[i]];
    if r.Err? {
      StopsHere(nodes, edges, i, start, limits, bytes, total, edgeIds, r.error);
    }
  }

  lemma StopsHere(nodes: set<Id>, edges: seq<Edge>, i: nat, start: nat, limits: Limits, bytes: map<Id, nat>, total: nat,
                  edgeIds: set<Id>, error: BuildError)
    requires i < |edges| && Checked(nodes, edges, i, start, limits, bytes, total, edgeIds)
    requires EdgeStops(nodes, edges[i], total, edgeIds, limits, bytes, error)
    ensures EdgeStopsAt(nodes, edges, start, limits, bytes, i, error)
  {
  }

  /** The inputs are acceptable when the node identifiers are and then the edges. */
  lemma InTwoParts(nodeIds: seq<Id>, edges: seq<Edge>, limits: Limits, bytes: map<Id, nat>)
    requires limits.maxNodes >= 1 && limits.maxEdges >= 1 && limits.maxIdBytes >= 1 && limits.maxTotalIdBytes >= 1
    requires |nodeIds| <= limits.maxNodes && |edges| <= limits.maxEdges
    ensures Acceptable(nodeIds, edges, limits, bytes) <==>
      && IdsFit(nodeIds, bytes, limits) && TotalBytes(nodeIds, bytes) <= limits.maxTotalIdBytes && Distinct(nodeIds)
      && IdsFit(EdgeIds(edges), bytes, limits) && EdgesAcceptable(Elements(nodeIds), edges)
      && TotalBytes(nodeIds, bytes) + TotalBytes(EdgeIds(edges), bytes) <= limits.maxTotalIdBytes
  {
    TotalBytesAppend(nodeIds, EdgeIds(edges), bytes);
    assert IdsFit(nodeIds + EdgeIds(edges), bytes, limits) <==>
      IdsFit(nodeIds, bytes, limits) && IdsFit(EdgeIds(edges), bytes, limits);
  }

  method Validate(nodeIds: seq<Id>, edges: seq<Edge>, limits: Limits, bytes: map<Id, nat>)
    returns (r: Result<set<Id>, BuildError>)
    ensures r.Ok? <==> Acceptable(nodeIds, edges, limits, bytes)
    ensures r.Ok? ==> r.value == Elements(nodeIds)
    ensures r.Err? ==> RefusedFor(nodeIds, edges, limits, bytes, r.error)
  {
    if !limits.Positive() {
      return Err(InvalidGraph);
    }
    if |nodeIds| > limits.maxNodes || |edges| > limits.maxEdges {
      return Err(GraphCapacity);
    }
    r := ValidateAll(nodeIds, edges, limits, bytes);
  }

  /** The identifiers of the nodes, then the edges. */
  method ValidateAll(nodeIds: seq<Id>, edges: seq<Edge>, limits: Limits, bytes: map<Id, nat>)
    returns (r: Result<set<Id>, BuildError>)
    requires limits.maxNodes >= 1 && limits.maxEdges >= 1 && limits.maxIdBytes >= 1 && limits.maxTotalIdBytes >= 1
    requires |nodeIds| <= limits.maxNodes && |edges| <= limits.maxEdges
    ensures r.Ok? <==> Acceptable(nodeIds, edges, limits, bytes)
    ensures r.Ok? ==> r.value == Elements(nodeIds)
    ensures r.Err? ==> RefusedFor(nodeIds, edges, limits, bytes, r.error)
  {
    InTwoParts(nodeIds, edges, limits, bytes);
    var counted := CountIds(nodeIds, 0, limits, bytes);
    if counted.Err? {
      return Err(counted.error);
    }
    var nodes := set n | n in nodeIds;
    if exists i, j :: 0 <= i < j < |nodeIds| && nodeIds[i] == nodeIds[j] {
      return Err(InvalidGraph);
    }
    var checked := ValidateEdges(nodes, edges, counted.value, limits, bytes);
    if checked.Err? {
      return Err(checked.error);
    }
    return Ok(nodes);
  }

  // ---- Construction ----

  ghost predicate Lists(table: map<Id, seq<Candidate>>, nodes: set<Id>, edges: set<Edge>, d: Direction) {
    && table.Keys == nodes
    && forall n :: n in nodes ==> Distinct(table[n]) && RowOf(table[n], edges, n, d)
  }

  ghost predicate Rows(table: map<Id, seq<Candidate>>, nodes: set<Id>, edges: set<Edge>, d: Direction) {
    && table.Keys == nodes
    && forall n :: n in nodes ==> Ascending(table[n]) && RowOf(table[n], edges, n, d)
  }

  method SortRows(table: map<Id, seq<Candidate>>, ghost nodes: set<Id>, ghost edges: set<Edge>, ghost d: Direction)
    returns (sorted: map<Id, seq<Candidate>>)
    requires Lists(table, nodes, edges, d)
    ensures Rows(sorted, nodes, edges, d)
  {
    sorted := map n | n in table :: SortBy(table[n], NotAfter);
    forall n | n in nodes
      ensures Ascending(sorted[n]) && RowOf(sorted[n], edges, n, d)
    {
      SortByCorrect(table[n], NotAfter);
      SortedStaysDistinct(table[n], sorted[n]);
    }
  }

  lemma SortedStaysDistinct(a: seq<Candidate>, b: seq<Candidate>)
    requires Distinct(a) && multiset(a) == multiset(b)
    ensures Distinct(b)
  {
    DistinctCounts(a);
    DistinctCounts(b);
    forall x | x in b ensures multiset(b)[x] == 1 {
      assert x in multiset(a);
    }
  }

  /** The append loop of the constructor: each edge reaches every row it belongs to, once. */
  method Adjacency(nodes: set<Id>, edges: seq<Edge>) returns (rows: Snapshot)
    requires EdgesAcceptable(nodes, edges)
    ensures rows.nodes == nodes
    ensures Lists(rows.outbound, nodes, Elements(edges), Outbound)
    ensures Lists(rows.inbound, nodes, Elements(edges), Inbound)
    ensures Lists(rows.both, nodes, Elements(edges), Both)
  {
    var outbound: map<Id, seq<Candidate>> := map n | n in nodes :: [];
    var inbound: map<Id, seq<Candidate>> := map n | n in nodes :: [];
    var both: map<Id, seq<Candidate>> := map n | n in nodes :: [];
    for i := 0 to |edges|
      invariant Lists(outbound, nodes, Elements(edges[..i]), Outbound)
      invariant Lists(inbound, nodes, Elements(edges[..i]), Inbound)
      invariant Lists(both, nodes, Elements(edges[..i]), Both)
    {
      ghost var before := Elements(edges[..i]);
      PrefixGrows(edges, i);
      outbound, inbound, both := AddEdge(nodes, before, edges[i], outbound, inbound, both);
    }
    assert edges[..|edges|] == edges;
    return Snapshot(nodes, outbound, inbound, both);
  }

  lemma PrefixGrows(edges: seq<Edge>, i: nat)
    requires i < |edges|
    ensures Elements(edges[..i + 1]) == Elements(edges[..i]) + {edges[i]}
  {
    assert edges[..i + 1] == edges[..i] + [edges[i]];
  }

  method AddEdge(nodes: set<Id>, ghost before: set<Edge>, e: Edge, outbound: map<Id, seq<Candidate>>,
                 inbound: map<Id, seq<Candidate>>, both: map<Id, seq<Candidate>>)
    returns (outbound': map<Id, seq<Candidate>>, inbound': map<Id, seq<Candidate>>, both': map<Id, seq<Candidate>>)
    requires e.source in nodes && e.target in nodes && forall f :: f in before ==> f.id != e.id
    requires Lists(outbound, nodes, before, Outbound)
    requires Lists(inbound, nodes, before, Inbound)
    requires Lists(both, nodes, before, Both)
    ensures Lists(outbound', nodes, before + {e}, Outbound)
    ensures Lists(inbound', nodes, before + {e}, Inbound)
    ensures Lists(both', nodes, before + {e}, Both)
  {
    var forward := Candidate(e.target, e.id, false);
    var reverse := Candidate(e.source, e.id, true);
    AddForward(outbound, nodes, before, e, Outbound);
    AddForward(both, nodes, before, e, Both);
    AddReverse(inbound, nodes, before, e);
    outbound' := outbound[e.source := outbound[e.source] + [forward]];
    both' := both[e.source := both[e.source] + [forward]];
    inbound' := inbound[e.target := inbound[e.target] + [reverse]];
    if e.source != e.target {
      both' := both'[e.target := both'[e.target] + [reverse]];
    }
  }

  /** One more edge adds its forward candidate at its source and, unless it is a loop, its reverse at its target. */
  lemma AddForward(table: map<Id, seq<Candidate>>, nodes: set<Id>, before: set<Edge>, e: Edge, d: Direction)
    requires Lists(table, nodes, before, d) && d != Inbound
    requires e.source in nodes && e.target in nodes && forall f :: f in before ==> f.id != e.id
    ensures var forward, reverse := Candidate(e.target, e.id, false), Candidate(e.source, e.id, true);
      var table1 := table[e.source := table[e.source] + [forward]];
      && forward !in table[e.source] && reverse !in table1[e.target]
      && (d == Outbound || e.source == e.target ==> Lists(table1, nodes, before + {e}, d))
      && (d == Both && e.source != e.target ==>
            Lists(table1[e.target := table1[e.target] + [reverse]], nodes, before + {e}, d))
  {
  }

  lemma AddReverse(table: map<Id, seq<Candidate>>, nodes: set<Id>, before: set<Edge>, e: Edge)
    requires Lists(table, nodes, before, Inbound)
    requires e.source in nodes && e.target in nodes && forall f :: f in before ==> f.id != e.id
    ensures var reverse := Candidate(e.source, e.id, true);
      && reverse !in table[e.target]
      && Lists(table[e.target := table[e.target] + [reverse]], nodes, before + {e}, Inbound)
  {
  }

  method Build(nodeIds: seq<Id>, edges: seq<Edge>, limits: Limits, bytes: map<Id, nat>)
    returns (r: Result<Snapshot, BuildError>)
    ensures r.Ok? <==> Acceptable(nodeIds, edges, limits, bytes)
    ensures r.Err? ==> RefusedFor(nodeIds, edges, limits, bytes, r.error)
    ensures r.Ok? ==> Represents(r.value, Elements(nodeIds), Elements(edges)) && r.value.Valid()
  {
    var checked := Validate(nodeIds, edges, limits, bytes);
    if checked.Err? {
      return Err(checked.error);
    }
    var nodes := checked.value;
    var rows := Adjacency(nodes, edges);
    ghost var all := Elements(edges);
    var outbound := SortRows(rows.outbound, nodes, all, Outbound);
    var inbound := SortRows(rows.inbound, nodes, all, Inbound);
    var both := SortRows(rows.both, nodes, all, Both);
    var g := Snapshot(nodes, outbound, inbound, both);
    forall d: Direction ensures Rows(g.Table(d), nodes, all, d) {
      match d { case Outbound => case Inbound => case Both => }
    }
    RepresentsIsValid(g, nodes, all);
    return Ok(g);
  }

  lemma RepresentsIsValid(g: Snapshot, nodes: set<Id>, edges: set<Edge>)
    requires Represents(g, nodes, edges)
    requires forall e :: e in edges ==> e.source in nodes && e.target in nodes
    ensures g.Valid()
  {
    forall d: Direction ensures ValidTable(g.Table(d), nodes) {
      assert Rows(g.Table(d), nodes, edges, d);
      forall n, c | n in nodes && c in g.Table(d)[n] ensures c.next in nodes {
        assert Incident(edges, n, d, c);
      }
    }
  }

  // ---- Properties ----

  lemma {:induction false} AscendingUnique(a: seq<Candidate>, b: seq<Candidate>)
    requires Ascending(a) && Ascending(b) && forall c :: c in a <==> c in b
    ensures a == b
  {
    assert |a| > 0 ==> a[0] in b;
    assert |b| > 0 ==> b[0] in a;
    if a != [] {
      assert a[0] in b && b[0] in a;
      assert a[0] == b[0];
      forall c ensures c in a[1..] <==> c in b[1..] {
        assert c in a[1..] <==> c in a && c != a[0];
        assert c in b[1..] <==> c in b && c != b[0];
      }
      AscendingUnique(a[1..], b[1..]);
      assert a == [a[0]] + a[1..] && b == [b[0]] + b[1..];
    }
  }

  /** The snapshot depends on the sets of nodes and edges only, not on the order they are given in. */
  lemma SnapshotIsOrderFree(g: Snapshot, h: Snapshot, nodes: set<Id>, edges: set<Edge>)
    requires Represents(g, nodes, edges) && Represents(h, nodes, edges)
    ensures g == h
  {
    forall d: Direction ensures g.Table(d) == h.Table(d) {
      assert Rows(g.Table(d), nodes, edges, d) && Rows(h.Table(d), nodes, edges, d);
      forall n | n in nodes ensures g.Table(d)[n] == h.Table(d)[n] {
        AscendingUnique(g.Table(d)[n], h.Table(d)[n]);
      }
    }
    assert g.Table(Outbound) == h.Table(Outbound) && g.Table(Inbound) == h.Table(Inbound);
    assert g.Table(Both) == h.Table(Both);
  }

  /** Following an edge outbound and inbound are converse, and following it both ways is symmetric. */
  lemma DirectionsAreConverse(g: Snapshot, nodes: set<Id>, edges: set<Edge>, a: Id, b: Id, edge: Id)
    requires Represents(g, nodes, edges) && g.Valid() && a in nodes && b in nodes
    ensures Candidate(b, edge, false) in g.Candidates(a, Outbound)
       <==> Candidate(a, edge, true) in g.Candidates(b, Inbound)
    ensures (exists r :: Candidate(b, edge, r) in g.Candidates(a, Both))
       <==> (exists r :: Candidate(a, edge, r) in g.Candidates(b, Both))
  {
    forall d: Direction, n, c | n in nodes
      ensures c in g.Candidates(n, d) <==> Incident(edges, n, d, c)
    {
      assert Rows(g.Table(d), nodes, edges, d);
    }
    var there, back := Edge(edge, a, b), Edge(edge, b, a);
    assert Candidate(b, edge, false) in g.Candidates(a, Both) <==> there in edges;
    assert Candidate(a, edge, false) in g.Candidates(b, Both) <==> back in edges;
    assert Candidate(b, edge, true) in g.Candidates(a, Both) <==> back in edges && a != b;
    assert Candidate(a, edge, true) in g.Candidates(b, Both) <==> there in edges && a != b;
  }
}
