/** Verified reads: the materialized tables against a recomputation from the contributions. */
module DocumentReads {
  import opened Core
  import opened DocumentGraph
  import opened DocumentSnapshots
  import opened DocumentTables

  datatype Error =
    | Closed | ReadOnly | Invalid | Capacity | UnknownCollection | UnknownDocument | RevisionConflict(current: nat)
    | ExtractionFailed | InvalidExtraction | ProfileMismatch | SourceRevisionConflict | ExtractionResultConflict
    | Corrupt | Conflicting

  // ---- Reading the tables ----

  function MergeTwo(a: map<Key, set<Id>>, b: map<Key, set<Id>>): map<Key, set<Id>> {
    map n | n in a.Keys + b.Keys :: (if n in a then a[n] else {}) + (if n in b then b[n] else {})
  }

  lemma MergedMore(parts: Parts, ids: seq<Id>, d: Id)
    ensures MergedParts(parts, ids + [d])
         == if d in parts then MergeTwo(MergedParts(parts, ids), parts[d]) else MergedParts(parts, ids)
  {
    var was, now := MergedParts(parts, ids), MergedParts(parts, ids + [d]);
    assert forall e :: e in ids + [d] <==> e in ids || e == d;
    if d in parts {
      PartNodesMore(parts, ids, d);
      forall n ensures PartNames(parts, ids + [d], n) == PartNames(parts, ids, n) + if n in parts[d] then parts[d][n] else {} {
        PartNamesMore(parts, ids, d, n);
      }
      forall n | n !in was ensures PartNames(parts, ids, n) == {} {
        UnlistedHasNoNames(parts, ids, n);
      }
      assert now.Keys == MergeTwo(was, parts[d]).Keys;
    } else {
      assert PartNodes(parts, ids + [d]) == PartNodes(parts, ids);
      assert forall n :: PartNames(parts, ids + [d], n) == PartNames(parts, ids, n);
    }
  }

  lemma UnlistedHasNoNames(parts: Parts, ids: seq<Id>, n: Key)
    ensures PartNames(parts, ids, n) != {} ==> n in PartNodes(parts, ids)
  {
    if a :| a in PartNames(parts, ids, n) {
      var d :| d in ids && d in parts && n in parts[d] && a in parts[d][n];
      assert n in PartNodes(parts, ids);
    }
  }

  lemma PartNodesMore(parts: Parts, ids: seq<Id>, d: Id)
    requires d in parts
    ensures PartNodes(parts, ids + [d]) == PartNodes(parts, ids) + parts[d].Keys
  {
    forall n | n in PartNodes(parts, ids) + parts[d].Keys ensures n in PartNodes(parts, ids + [d]) {
      if n in parts[d] {
        assert d in ids + [d];
      } else {
        var e :| e in ids && e in parts && n in parts[e];
        assert e in ids + [d];
      }
    }
  }

  lemma PartNamesMore(parts: Parts, ids: seq<Id>, d: Id, n: Key)
    requires d in parts
    ensures PartNames(parts, ids + [d], n) == PartNames(parts, ids, n) + if n in parts[d] then parts[d][n] else {}
  {
    var more := if n in parts[d] then parts[d][n] else {};
    forall a | a in PartNames(parts, ids, n) + more ensures a in PartNames(parts, ids + [d], n) {
      if a in more {
        assert d in ids + [d] && a in parts[d][n];
      } else {
        var e :| e in ids && e in parts && n in parts[e] && a in parts[e][n];
        assert e in ids + [d];
      }
    }
  }

  lemma UnionMore<T>(parts: map<Id, set<T>>, ids: seq<Id>, d: Id)
    ensures UnionOf(parts, ids + [d]) == UnionOf(parts, ids) + if d in parts then parts[d] else {}
  {
    var more := if d in parts then parts[d] else {};
    forall e | e in UnionOf(parts, ids) + more ensures e in UnionOf(parts, ids + [d]) {
      if e in more {
        assert d in ids + [d] && e in parts[d];
      } else {
        var o :| o in ids && o in parts && e in parts[o];
        assert o in ids + [d];
      }
    }
  }

  lemma UnionPrefix<T>(parts: map<Id, set<T>>, ids: seq<Id>, i: nat)
    requires i <= |ids|
    ensures UnionOf(parts, ids[..i]) <= UnionOf(parts, ids)
  {
    assert forall d :: d in ids[..i] ==> d in ids;
  }

  lemma PartNodesPrefix(parts: Parts, ids: seq<Id>, i: nat)
    requires i <= |ids|
    ensures PartNodes(parts, ids[..i]) <= PartNodes(parts, ids)
  {
    assert forall d :: d in ids[..i] ==> d in ids;
  }

  /** Merge the label sets of the selected documents; None when there are too many nodes. */
  method MergeNodes(parts: Parts, ids: seq<Id>, limit: nat) returns (r: Option<map<Key, set<Id>>>)
    ensures r == if |PartNodes(parts, ids)| > limit then None else Some(MergedParts(parts, ids))
  {
    var labels: map<Key, set<Id>> := map[];
    for i := 0 to |ids|
      invariant labels == MergedParts(parts, ids[..i]) && |labels| <= limit
    {
      assert ids[..i + 1] == ids[..i] + [ids[i]];
      MergedMore(parts, ids[..i], ids[i]);
      if ids[i] in parts {
        labels := MergeTwo(labels, parts[ids[i]]);
      }
      if |labels| > limit {
        PartNodesPrefix(parts, ids, i + 1);
        SubsetSize(labels.Keys, PartNodes(parts, ids));
        return None;
      }
    }
    assert ids[..|ids|] == ids;
    assert labels.Keys == PartNodes(parts, ids);
    return Some(labels);
  }

  method UnionRows<T(!new, ==)>(parts: map<Id, set<T>>, ids: seq<Id>, limit: nat) returns (r: Option<set<T>>)
    ensures r == if |UnionOf(parts, ids)| > limit then None else Some(UnionOf(parts, ids))
  {
    var rows: set<T> := {};
    for i := 0 to |ids|
      invariant rows == UnionOf(parts, ids[..i]) && |rows| <= limit
    {
      assert ids[..i + 1] == ids[..i] + [ids[i]];
      UnionMore(parts, ids[..i], ids[i]);
      if ids[i] in parts {
        rows := rows + parts[ids[i]];
      }
      if |rows| > limit {
        UnionPrefix(parts, ids, i + 1);
        SubsetSize(rows, UnionOf(parts, ids));
        return None;
      }
    }
    assert ids[..|ids|] == ids;
    return Some(rows);
  }

  method EndpointsPresent(edges: set<Edge>, nodes: set<Key>) returns (ok: bool)
    ensures ok <==> forall e :: e in edges ==> e.source in nodes && e.target in nodes
  {
    ok := forall e | e in edges :: e.source in nodes && e.target in nodes;
  }

  /** The checks on one row: first against its document, then for its owner. */
  method RowValid(g: Graph, e: Evidence) returns (ok: bool)
    ensures ok <==> EvidenceMatches(g, e)
  {
    if e.id.document !in g.documents {
      return false;
    }
    var document := g.documents[e.id.document];
    if (e.id.sourceRevision, e.id.inputDigest, e.locator)
      != (document.sourceRevision, document.inputDigest, document.locator) {
      return false;
    }
    match e.id.owner
    case NodeOwner(n) => ok := n in g.nodes;
    case EdgeOwner(edge) => ok := edge in g.edges;
  }

  /** Every stored evidence row belongs to its document's current revision and to a stored node or edge. */
  method EvidenceValid(g: Graph) returns (ok: bool)
    ensures ok <==> (forall e :: e in g.evidence ==> EvidenceMatches(g, e)) && Functional(g.evidence)
  {
    var pending := g.evidence;
    var table: map<EvidenceId, Evidence> := map[];
    while pending != {}
      invariant pending <= g.evidence && Table(table, g.evidence - pending)
      invariant forall e :: e in g.evidence && e !in pending ==> EvidenceMatches(g, e)
      decreases pending
    {
      var e :| e in pending;
      var valid := RowValid(g, e);
      if !valid || (e.id in table && table[e.id] != e) {
        return false;
      }
      table := table[e.id := e];
      pending := pending - {e};
    }
    assert g.evidence - pending == g.evidence;
    TableSize(table, g.evidence);
    return true;
  }

  datatype ReadLimits = ReadLimits(graph: Limits, documents: nat, bytes: nat)

  lemma TableNodeCount(c: Collection, s: Selection, ids: seq<Id>)
    ensures |FromTables(c, s, ids).nodes| == if s.All? then |c.nodes| else |PartNodes(c.nodeParts, ids)|
  {
    var g := FromTables(c, s, ids);
    if s.All? {
      assert g.nodes.Keys == c.nodes.Keys;
    } else {
      assert g.nodes.Keys == PartNodes(c.nodeParts, ids);
    }
  }

  /** The label rows of the selection, merged; None over the limit. */
  method ReadNodes(c: Collection, s: Selection, ids: seq<Id>, limit: nat) returns (r: Option<map<Key, set<Id>>>)
    ensures r == if |FromTables(c, s, ids).nodes| > limit then None else Some(TableLabels(c, s, ids))
  {
    TableNodeCount(c, s, ids);
    if s.All? {
      return if |c.nodes| > limit then None else Some(OrKeys(c.nodes));
    }
    var merged := MergeNodes(c.nodeParts, ids, limit);
    return if merged.None? then None else Some(OrKeys(merged.value));
  }

  method ReadEdges(c: Collection, s: Selection, ids: seq<Id>, limit: nat) returns (r: Option<set<Edge>>)
    ensures r == if |TableEdges(c, s, ids)| > limit then None else Some(TableEdges(c, s, ids))
  {
    if s.All? {
      return if |c.edges| > limit then None else Some(c.edges);
    }
    r := UnionRows(c.edgeParts, ids, limit);
  }

  /** The materialized graph of a selection, checked as it is read. */
  method ReadMaterialized(c: Collection, s: Selection, ids: seq<Id>, limits: ReadLimits) returns (r: Result<Graph, Error>)
    ensures r.Ok? ==>
      && r.value == FromTables(c, s, ids) && Sound(r.value)
      && |TableDocuments(c, s)| <= limits.documents && !GraphOver(limits.graph, r.value)
    ensures r == Err(Capacity) ==>
      |TableDocuments(c, s)| > limits.documents || GraphOver(limits.graph, FromTables(c, s, ids))
    ensures r.Err? && r.error != Capacity ==> r.error == Corrupt && !Sound(FromTables(c, s, ids))
  {
    var documents := TableDocuments(c, s);
    if |documents| > limits.documents {
      return Err(Capacity);
    }
    var g := ReadTables(c, s, ids, limits.graph, documents);
    if g.None? {
      return Err(Capacity);
    }
    var present := EndpointsPresent(g.value.edges, g.value.nodes.Keys);
    var valid := EvidenceValid(g.value);
    return if present && valid then Ok(g.value) else Err(Corrupt);
  }

  /** Nodes, edges and evidence of the selection, as far as they are within the limits. */
  method ReadTables(c: Collection, s: Selection, ids: seq<Id>, limits: Limits, documents: map<Id, Info>)
    returns (r: Option<Graph>)
    requires documents == TableDocuments(c, s)
    ensures r.None? <==> GraphOver(limits, FromTables(c, s, ids))
    ensures r.Some? ==> r.value == FromTables(c, s, ids)
  {
    var labels := ReadNodes(c, s, ids, limits.nodes);
    if labels.None? {
      return None;
    }
    var edges := ReadEdges(c, s, ids, limits.edges);
    if edges.None? {
      return None;
    }
    var evidence := UnionRows(c.evidence, ids, limits.evidence);
    if evidence.None? {
      return None;
    }
    return Some(Graph(ShownNodes(labels.value, documents.Keys), edges.value, evidence.value, documents));
  }

  // ---- What a read returns ----

  predicate Repeats(ids: seq<Id>) {
    exists i, j | 0 <= i < j < |ids| :: ids[i] == ids[j]
  }

  function ReadOutcome(c: Option<Collection>, profile: Id, s: Selection, limits: ReadLimits, size: Graph -> nat)
    : Result<Graph, Error>
  {
    if s.Only? && Repeats(s.ids) then Err(Invalid)
    else if s.Only? && |s.ids| > limits.documents then Err(Capacity)
    else if c.None? then Err(UnknownCollection)
    else if c.value.profile != profile then Err(ProfileMismatch)
    else if s.All? && |c.value.contributions| > limits.documents then Err(Capacity)
    else if s.Only? && exists d :: d in s.ids && d !in c.value.contributions then Err(UnknownDocument)
    else
      var g := Recomputed(Chosen(c.value.contributions, s));
      if GraphOver(limits.graph, g) || size(g) > limits.bytes then Err(Capacity) else Ok(g)
  }

  method Listed(s: set<Id>) returns (ids: seq<Id>)
    ensures forall d :: d in ids <==> d in s
  {
    ids := [];
    var pending := s;
    while pending != {}
      invariant pending <= s && forall d :: d in ids <==> d in s && d !in pending
      decreases pending
    {
      var d :| d in pending;
      ids := ids + [d];
      pending := pending - {d};
    }
  }

  /** The materialized read of a known selection, compared with the contributions. */
  method ReadVerified(c: Collection, s: Selection, limits: ReadLimits, size: Graph -> nat) returns (r: Result<Graph, Error>)
    requires s.Only? ==> forall d :: d in s.ids ==> d in c.contributions
    requires Keyed(c.contributions)
    requires |Chosen(c.contributions, s)| <= limits.documents
    ensures Consistent(c) ==> r == var g := Recomputed(Chosen(c.contributions, s));
      if GraphOver(limits.graph, g) || size(g) > limits.bytes then Err(Capacity) else Ok(g)
  {
    var ids;
    if s.All? {
      ids := Listed(c.evidence.Keys);
    } else {
      ids := s.ids;
    }
    ghost var rows := Chosen(c.contributions, s);
    ReadFacts(c, s, ids);
    var materialized := ReadMaterialized(c, s, ids, limits);
    if materialized.Err? {
      return materialized;
    }
    if materialized.value.documents != Documents(Chosen(c.contributions, s)) {
      return Err(Corrupt);
    }
    var expected := Snapshot(Chosen(c.contributions, s), Some(limits.graph));
    if expected.Err? {
      return Err(if expected.error.CapacityExceeded? then Capacity else Conflicting);
    }
    if materialized.value != expected.value {
      return Err(Corrupt);
    }
    return if size(expected.value) > limits.bytes then Err(Capacity) else Ok(materialized.value);
  }

  lemma ReadFacts(c: Collection, s: Selection, ids: seq<Id>)
    requires s.Only? ==> (forall d :: d in s.ids ==> d in c.contributions) && ids == s.ids
    requires s.All? ==> forall d :: d in ids <==> d in c.evidence
    ensures Keyed(c.contributions) ==> Keyed(Chosen(c.contributions, s))
    ensures Consistent(c) ==> FromTables(c, s, ids) == Recomputed(Chosen(c.contributions, s))
    ensures Consistent(c) ==> Sound(Recomputed(Chosen(c.contributions, s)))
    ensures Consistent(c) ==> |TableDocuments(c, s)| == |Chosen(c.contributions, s)|
    ensures Consistent(c) ==> Functional(AllEvidence(Chosen(c.contributions, s)))
  {
    if Consistent(c) {
      assert s.All? ==> c.evidence.Keys == c.contributions.Keys;
      ReadsBack(c, s, ids);
      ReadIsSound(c, s);
      DocumentsBack(c, s);
      SameCount(TableDocuments(c, s), Chosen(c.contributions, s));
      AllBack(c.contributions, s);
      ValidIsFunctional(Chosen(c.contributions, s));
    }
  }

  lemma SameCount<A, B>(a: map<Id, A>, b: map<Id, B>)
    requires a.Keys == b.Keys
    ensures |a| == |b|
  {
    assert |a| == |a.Keys| && |b| == |b.Keys|;
  }
}
