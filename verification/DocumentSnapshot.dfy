/** Recomputing a graph by walking over the facts of every contribution. */
module DocumentSnapshots {
  import opened Core
  import opened DocumentGraph

  datatype Limits = Limits(nodes: nat, edges: nat, evidence: nat)

  datatype Partial = Partial(nodes: set<Key>, names: map<Key, set<Id>>, edges: set<Edge>,
                             evidence: map<EvidenceId, Evidence>)

  datatype Failure = CapacityExceeded | IdentityConflict

  predicate Over(limits: Limits, nodes: nat, edges: nat, evidence: nat) {
    nodes > limits.nodes || edges > limits.edges || evidence > limits.evidence
  }

  predicate GraphOver(limits: Limits, g: Graph) {
    Over(limits, |g.nodes|, |g.edges|, |g.evidence|)
  }

  // ---- Evidence tables ----

  /** The table holds exactly the given evidence, by identifier. */
  ghost predicate Table(m: map<EvidenceId, Evidence>, evidence: set<Evidence>) {
    && (forall id :: id in m ==> m[id] in evidence && m[id].id == id)
    && (forall e :: e in evidence ==> e.id in m && m[e.id] == e)
  }

  lemma TableSize(m: map<EvidenceId, Evidence>, evidence: set<Evidence>)
    requires Table(m, evidence)
    ensures Functional(evidence) && |m| == |evidence| && m.Values == evidence
  {
    FunctionalSize(evidence);
    assert m.Keys == Ids(evidence);
  }

  function EvidenceOfFact(row: Row, owner: Owner, rule: Id, locations: seq<Location>): set<Evidence> {
    set l | l in locations :: EvidenceAt(row, owner, rule, l)
  }

  method AddEvidence(m: map<EvidenceId, Evidence>, row: Row, owner: Owner, rule: Id, locations: seq<Location>,
                     ghost before: set<Evidence>)
    returns (r: Option<map<EvidenceId, Evidence>>)
    requires Table(m, before)
    ensures r.Some? ==> Table(r.value, before + EvidenceOfFact(row, owner, rule, locations))
    ensures r.None? ==> !Functional(before + EvidenceOfFact(row, owner, rule, locations))
  {
    var table := m;
    ghost var all := before + EvidenceOfFact(row, owner, rule, locations);
    for i := 0 to |locations|
      invariant Table(table, before + EvidenceOfFact(row, owner, rule, locations[..i]))
    {
      var e := EvidenceAt(row, owner, rule, locations[i]);
      assert locations[..i + 1] == locations[..i] + [locations[i]];
      assert e in all;
      assert EvidenceOfFact(row, owner, rule, locations[..i + 1])
          == EvidenceOfFact(row, owner, rule, locations[..i]) + {e};
      if e.id in table && table[e.id] != e {
        assert table[e.id] in all;
        return None;
      }
      table := table[e.id := e];
    }
    assert locations[..|locations|] == locations;
    return Some(table);
  }

  // ---- Facts added one by one ----

  /** The partial result shows the given rows. */
  ghost predicate Shows(p: Partial, rows: Rows) {
    && p.nodes == Nodes(rows)
    && NamesShown(p.names, rows)
    && p.edges == Edges(rows)
    && Table(p.evidence, AllEvidence(rows))
  }

  /** `after` has the facts of `before` and one more entity fact. */
  ghost predicate MoreEntities(before: Row, after: Row, f: EntityFact) {
    && RowNodes(after) == RowNodes(before) + {f.key}
    && (forall n :: RowNames(after, n) == RowNames(before, n) + if n == f.key then FactNames(f) else {})
    && RowEdges(after) == RowEdges(before)
    && RowEvidence(after) == RowEvidence(before) + EvidenceOfFact(after, NodeOwner(f.key), f.rule, f.locations)
  }

  ghost predicate MoreRelations(before: Row, after: Row, f: RelationFact) {
    && RowNodes(after) == RowNodes(before) + {f.edge.source, f.edge.target}
    && (forall n :: RowNames(after, n) == RowNames(before, n))
    && RowEdges(after) == RowEdges(before) + {f.edge}
    && RowEvidence(after) == RowEvidence(before) + EvidenceOfFact(after, EdgeOwner(f.edge), f.rule, f.locations)
  }

  function EntityPrefix(row: Row, i: nat): Row
    requires i <= |row.entities|
  {
    row.(entities := row.entities[..i], relations := [])
  }

  function RelationPrefix(row: Row, i: nat): Row
    requires i <= |row.relations|
  {
    row.(relations := row.relations[..i])
  }

  lemma OneMoreEntity(row: Row, i: nat)
    requires i < |row.entities|
    ensures MoreEntities(EntityPrefix(row, i), EntityPrefix(row, i + 1), row.entities[i])
  {
    var a, b, f := EntityPrefix(row, i), EntityPrefix(row, i + 1), row.entities[i];
    assert b.entities == a.entities + [f];
    assert forall g :: g in b.entities <==> g in a.entities || g == f;
    assert RowNodes(b) == RowNodes(a) + {f.key};
    forall n ensures RowNames(b, n) == RowNames(a, n) + if n == f.key then FactNames(f) else {} {
      OneMoreName(a, b, f, n);
    }
    OneMoreEvidence(a, b, f);
  }

  lemma OneMoreName(a: Row, b: Row, f: EntityFact, n: Key)
    requires forall g :: g in b.entities <==> g in a.entities || g == f
    ensures RowNames(b, n) == RowNames(a, n) + if n == f.key then FactNames(f) else {}
  {
  }

  lemma SameEvidenceAt(a: Row, b: Row)
    requires a.(entities := [], relations := []) == b.(entities := [], relations := [])
    ensures forall owner, rule, l :: EvidenceAt(a, owner, rule, l) == EvidenceAt(b, owner, rule, l)
  {
    forall owner, rule, l ensures EvidenceAt(a, owner, rule, l) == EvidenceAt(b, owner, rule, l) {
      var c := a.(entities := [], relations := []);
      assert EvidenceAt(a, owner, rule, l) == EvidenceAt(c, owner, rule, l);
    }
  }

  lemma OneMoreEvidence(a: Row, b: Row, f: EntityFact)
    requires forall g :: g in b.entities <==> g in a.entities || g == f
    requires a.relations == b.relations && a.(entities := [], relations := []) == b.(entities := [], relations := [])
    ensures RowEvidence(b) == RowEvidence(a) + EvidenceOfFact(b, NodeOwner(f.key), f.rule, f.locations)
  {
    SameEvidenceAt(a, b);
  }

  lemma OneMoreRelationEvidence(a: Row, b: Row, f: RelationFact)
    requires forall g :: g in b.relations <==> g in a.relations || g == f
    requires a.entities == b.entities && a.(entities := [], relations := []) == b.(entities := [], relations := [])
    ensures RowEvidence(b) == RowEvidence(a) + EvidenceOfFact(b, EdgeOwner(f.edge), f.rule, f.locations)
  {
    SameEvidenceAt(a, b);
  }

  lemma OneMoreRelation(row: Row, i: nat)
    requires i < |row.relations|
    ensures MoreRelations(RelationPrefix(row, i), RelationPrefix(row, i + 1), row.relations[i])
  {
    var a, b, f := RelationPrefix(row, i), RelationPrefix(row, i + 1), row.relations[i];
    assert b.relations == a.relations + [f];
    assert forall g :: g in b.relations <==> g in a.relations || g == f;
    assert RowNodes(b) == RowNodes(a) + {f.edge.source, f.edge.target};
    assert RowEdges(b) == RowEdges(a) + {f.edge};
    assert forall n :: RowNames(b, n) == RowNames(a, n);
    OneMoreRelationEvidence(a, b, f);
  }

  /** The row at `d`, or an empty one. */
  function At(rows: Rows, d: Id): Row {
    if d in rows then rows[d] else Row(d, 0, 0, 0, None, [], [], map[], {})
  }

  /** One row replaced by a larger one. */
  lemma Grown(rows: Rows, d: Id, after: Row, nodes: set<Key>, edges: set<Edge>, evidence: set<Evidence>)
    requires RowNodes(after) == RowNodes(At(rows, d)) + nodes && RowEdges(after) == RowEdges(At(rows, d)) + edges
    requires RowEvidence(after) == RowEvidence(At(rows, d)) + evidence
    ensures Nodes(rows[d := after]) == Nodes(rows) + nodes
    ensures Edges(rows[d := after]) == Edges(rows) + edges
    ensures AllEvidence(rows[d := after]) == AllEvidence(rows) + evidence
  {
    GrownNodes(rows, d, after, nodes);
    GrownEdges(rows, d, after, edges);
    GrownEvidence(rows, d, after, evidence);
  }

  lemma GrownNodes(rows: Rows, d: Id, after: Row, nodes: set<Key>)
    requires RowNodes(after) == RowNodes(At(rows, d)) + nodes
    ensures Nodes(rows[d := after]) == Nodes(rows) + nodes
  {
    var grown := rows[d := after];
    forall n | n in Nodes(rows) + nodes ensures n in Nodes(grown) {
      if n in Nodes(rows) {
        var e :| e in rows && n in RowNodes(rows[e]);
        assert e in grown && n in RowNodes(grown[e]);
      } else {
        assert d in grown && n in RowNodes(grown[d]);
      }
    }
  }

  lemma GrownEdges(rows: Rows, d: Id, after: Row, edges: set<Edge>)
    requires RowEdges(after) == RowEdges(At(rows, d)) + edges
    ensures Edges(rows[d := after]) == Edges(rows) + edges
  {
    var grown := rows[d := after];
    forall n | n in Edges(rows) + edges ensures n in Edges(grown) {
      if n in Edges(rows) {
        var e :| e in rows && n in RowEdges(rows[e]);
        assert e in grown && n in RowEdges(grown[e]);
      } else {
        assert d in grown && n in RowEdges(grown[d]);
      }
    }
  }

  lemma GrownEvidence(rows: Rows, d: Id, after: Row, evidence: set<Evidence>)
    requires RowEvidence(after) == RowEvidence(At(rows, d)) + evidence
    ensures AllEvidence(rows[d := after]) == AllEvidence(rows) + evidence
  {
    var grown := rows[d := after];
    forall n | n in AllEvidence(rows) + evidence ensures n in AllEvidence(grown) {
      if n in AllEvidence(rows) {
        var e :| e in rows && n in RowEvidence(rows[e]);
        assert e in grown && n in RowEvidence(grown[e]);
      } else {
        assert d in grown && n in RowEvidence(grown[d]);
      }
    }
  }

  lemma GrownNames(rows: Rows, d: Id, after: Row, n: Key, names: set<Id>)
    requires RowNames(after, n) == RowNames(At(rows, d), n) + names
    ensures Names(rows[d := after], n) == Names(rows, n) + names
  {
    var grown := rows[d := after];
    forall a | a in Names(rows, n) + names ensures a in Names(grown, n) {
      if a in Names(rows, n) {
        var e :| e in rows && a in RowNames(rows[e], n);
        assert e in grown && a in RowNames(grown[e], n);
      } else {
        assert d in grown && a in RowNames(grown[d], n);
      }
    }
  }

  lemma NamesAfter(was: map<Key, set<Id>>, names: map<Key, set<Id>>, rows: Rows, d: Id, after: Row, f: EntityFact)
    requires d in rows
    requires forall n :: RowNames(after, n) == RowNames(rows[d], n) + if n == f.key then FactNames(f) else {}
    requires (forall n :: n in was <==> Names(rows, n) != {}) && forall n :: n in was ==> was[n] == Names(rows, n)
    requires names == was[f.key := (if f.key in was then was[f.key] else {}) + FactNames(f)]
    ensures forall n :: n in names <==> Names(rows[d := after], n) != {}
    ensures forall n :: n in names ==> names[n] == Names(rows[d := after], n)
  {
    forall n ensures Names(rows[d := after], n) == Names(rows, n) + if n == f.key then FactNames(f) else {} {
      GrownNames(rows, d, after, n, if n == f.key then FactNames(f) else {});
    }
    assert f.name in FactNames(f);
  }

  method AddEntity(p: Partial, row: Row, f: EntityFact, ghost rows: Rows, ghost after: Row) returns (r: Option<Partial>)
    requires Shows(p, rows) && row.document in rows && MoreEntities(rows[row.document], after, f)
    requires row.(entities := [], relations := []) == after.(entities := [], relations := [])
    ensures r.Some? ==> Shows(r.value, rows[row.document := after])
    ensures r.None? ==> !Functional(AllEvidence(rows[row.document := after]))
  {
    var table := AddEvidence(p.evidence, row, NodeOwner(f.key), f.rule, f.locations, AllEvidence(rows));
    EntityGrows(rows, row, f, after);
    if table.None? {
      return None;
    }
    var names := p.names[f.key := (if f.key in p.names then p.names[f.key] else {}) + FactNames(f)];
    EntityNames(p, names, rows, row, f, after);
    r := Some(Partial(p.nodes + {f.key}, names, p.edges, table.value));
  }

  lemma EntityNames(p: Partial, names: map<Key, set<Id>>, rows: Rows, row: Row, f: EntityFact, after: Row)
    requires Shows(p, rows) && row.document in rows && MoreEntities(rows[row.document], after, f)
    requires names == p.names[f.key := (if f.key in p.names then p.names[f.key] else {}) + FactNames(f)]
    ensures NamesShown(names, rows[row.document := after])
  {
    NamesAfter(p.names, names, rows, row.document, after, f);
  }

  ghost predicate NamesShown(names: map<Key, set<Id>>, rows: Rows) {
    && (forall n :: n in names <==> Names(rows, n) != {})
    && (forall n :: n in names ==> names[n] == Names(rows, n))
  }

  lemma EntityGrows(rows: Rows, row: Row, f: EntityFact, after: Row)
    requires row.document in rows && MoreEntities(rows[row.document], after, f)
    requires row.(entities := [], relations := []) == after.(entities := [], relations := [])
    ensures var grown := rows[row.document := after];
      && Nodes(grown) == Nodes(rows) + {f.key} && Edges(grown) == Edges(rows)
      && AllEvidence(grown) == AllEvidence(rows) + EvidenceOfFact(row, NodeOwner(f.key), f.rule, f.locations)
  {
    SameFactEvidence(row, after, NodeOwner(f.key), f.rule, f.locations);
    Grown(rows, row.document, after, {f.key}, {}, EvidenceOfFact(after, NodeOwner(f.key), f.rule, f.locations));
  }

  lemma SameFactEvidence(a: Row, b: Row, owner: Owner, rule: Id, locations: seq<Location>)
    requires a.(entities := [], relations := []) == b.(entities := [], relations := [])
    ensures EvidenceOfFact(a, owner, rule, locations) == EvidenceOfFact(b, owner, rule, locations)
  {
    SameEvidenceAt(a, b);
  }

  lemma RelationGrows(rows: Rows, row: Row, f: RelationFact, after: Row)
    requires row.document in rows && MoreRelations(rows[row.document], after, f)
    requires row.(entities := [], relations := []) == after.(entities := [], relations := [])
    ensures var grown := rows[row.document := after];
      && Nodes(grown) == Nodes(rows) + {f.edge.source, f.edge.target} && Edges(grown) == Edges(rows) + {f.edge}
      && AllEvidence(grown) == AllEvidence(rows) + EvidenceOfFact(row, EdgeOwner(f.edge), f.rule, f.locations)
  {
    SameFactEvidence(row, after, EdgeOwner(f.edge), f.rule, f.locations);
    Grown(rows, row.document, after, {f.edge.source, f.edge.target}, {f.edge},
          EvidenceOfFact(after, EdgeOwner(f.edge), f.rule, f.locations));
  }

  method AddRelation(p: Partial, row: Row, f: RelationFact, ghost rows: Rows, ghost after: Row)
    returns (r: Option<Partial>)
    requires Shows(p, rows) && row.document in rows && MoreRelations(rows[row.document], after, f)
    requires row.(entities := [], relations := []) == after.(entities := [], relations := [])
    ensures r.Some? ==> Shows(r.value, rows[row.document := after])
    ensures r.None? ==> !Functional(AllEvidence(rows[row.document := after]))
  {
    var table := AddEvidence(p.evidence, row, EdgeOwner(f.edge), f.rule, f.locations, AllEvidence(rows));
    RelationGrows(rows, row, f, after);
    if table.None? {
      return None;
    }
    NamesStay(p.names, rows, row.document, after);
    r := Some(Partial(p.nodes + {f.edge.source, f.edge.target}, p.names, p.edges + {f.edge}, table.value));
  }

  lemma NamesStay(names: map<Key, set<Id>>, rows: Rows, d: Id, after: Row)
    requires d in rows && NamesShown(names, rows) && forall n :: RowNames(after, n) == RowNames(rows[d], n)
    ensures NamesShown(names, rows[d := after])
  {
    SameNames(rows, d, after);
  }

  // ---- The whole walk ----

  /** Everything the partial rows show is part of what all rows show. */
  ghost predicate Part(rows: Rows, all: Rows) {
    Nodes(rows) <= Nodes(all) && Edges(rows) <= Edges(all) && AllEvidence(rows) <= AllEvidence(all)
  }

  /** Facts of `small` are facts of `large`. */
  ghost predicate Within(small: Row, large: Row) {
    && small.(entities := [], relations := []) == large.(entities := [], relations := [])
    && (forall f :: f in small.entities ==> f in large.entities)
    && (forall f :: f in small.relations ==> f in large.relations)
  }

  lemma WithinShowsLess(small: Row, large: Row)
    requires Within(small, large)
    ensures RowNodes(small) <= RowNodes(large) && RowEdges(small) <= RowEdges(large)
    ensures RowEvidence(small) <= RowEvidence(large)
  {
    SameEvidenceAt(small, large);
  }

  ghost predicate SubRows(done: Rows, all: Rows) {
    forall e :: e in done ==> e in all && all[e] == done[e]
  }

  lemma PartialIsPart(all: Rows, done: Rows, d: Id, row: Row)
    requires d in all && Within(row, all[d]) && SubRows(done, all)
    ensures Part(done[d := row], all)
  {
    WithinShowsLess(row, all[d]);
  }

  lemma PartIsSmaller(limits: Limits, p: Partial, rows: Rows, all: Rows)
    requires Shows(p, rows) && Part(rows, all)
    ensures Over(limits, |p.nodes|, |p.edges|, |p.evidence|) ==> GraphOver(limits, Recomputed(all))
    ensures !Functional(AllEvidence(rows)) ==> !Functional(AllEvidence(all))
    ensures rows == all ==> (Over(limits, |p.nodes|, |p.edges|, |p.evidence|) <==> GraphOver(limits, Recomputed(all)))
  {
    TableSize(p.evidence, AllEvidence(rows));
    SubsetSize(Nodes(rows), Nodes(all));
    SubsetSize(Edges(rows), Edges(all));
    SubsetSize(AllEvidence(rows), AllEvidence(all));
    NodeCount(all);
  }

  lemma NodeCount(rows: Rows)
    ensures |Recomputed(rows).nodes| == |Nodes(rows)|
  {
    assert Recomputed(rows).nodes.Keys == Nodes(rows);
  }

  lemma EmptyRow(row: Row)
    requires row.entities == [] && row.relations == []
    ensures RowNodes(row) == {} && RowEdges(row) == {} && RowEvidence(row) == {}
    ensures forall n :: RowNames(row, n) == {}
  {
  }

  lemma SameNames(rows: Rows, d: Id, row: Row)
    requires forall n :: RowNames(row, n) == RowNames(At(rows, d), n)
    ensures forall n :: Names(rows[d := row], n) == Names(rows, n)
  {
    forall n ensures Names(rows[d := row], n) == Names(rows, n) {
      GrownNames(rows, d, row, n, {});
    }
  }

  lemma EmptyRowAdds(p: Partial, rows: Rows, d: Id, row: Row)
    requires Shows(p, rows) && d !in rows && row.entities == [] && row.relations == []
    ensures Shows(p, rows[d := row])
  {
    EmptyRow(row);
    EmptyRow(At(rows, d));
    Grown(rows, d, row, {}, {}, {});
    SameNames(rows, d, row);
  }

  predicate Exceeds(limits: Option<Limits>, p: Partial) {
    limits.Some? && Over(limits.value, |p.nodes|, |p.edges|, |p.evidence|)
  }

  /** Why a walk may stop: two evidence rows clash, or the whole graph is over the limits. */
  ghost predicate StopsFor(failure: Failure, limits: Option<Limits>, all: Rows) {
    match failure
    case IdentityConflict => !Functional(AllEvidence(all))
    case CapacityExceeded => limits.Some? && GraphOver(limits.value, Recomputed(all))
  }

  lemma PartStops(limits: Option<Limits>, p: Partial, rows: Rows, all: Rows)
    requires Shows(p, rows) && Part(rows, all)
    ensures Exceeds(limits, p) ==> StopsFor(CapacityExceeded, limits, all)
  {
    if limits.Some? {
      PartIsSmaller(limits.value, p, rows, all);
    }
  }

  lemma PartClashes(limits: Option<Limits>, rows: Rows, all: Rows)
    requires Part(rows, all) && !Functional(AllEvidence(rows))
    ensures StopsFor(IdentityConflict, limits, all)
  {
  }

  method AddEntities(p: Partial, row: Row, limits: Option<Limits>, ghost done: Rows, ghost all: Rows)
    returns (r: Result<Partial, Failure>)
    requires row.document in all && all[row.document] == row && row.document !in done && Shows(p, done)
    requires SubRows(done, all)
    ensures r.Ok? ==> Shows(r.value, done[row.document := row.(relations := [])])
    ensures r.Ok? ==> p == r.value || !Exceeds(limits, r.value)
    ensures r.Err? ==> StopsFor(r.error, limits, all)
  {
    var q := p;
    EmptyRowAdds(p, done, row.document, EntityPrefix(row, 0));
    for i := 0 to |row.entities|
      invariant Shows(q, done[row.document := EntityPrefix(row, i)])
      invariant q == p || !Exceeds(limits, q)
    {
      ghost var was, now := done[row.document := EntityPrefix(row, i)], done[row.document := EntityPrefix(row, i + 1)];
      OneMoreEntity(row, i);
      assert was[row.document := EntityPrefix(row, i + 1)] == now;
      PartialIsPart(all, done, row.document, EntityPrefix(row, i + 1));
      var next := AddEntity(q, row, row.entities[i], was, EntityPrefix(row, i + 1));
      if next.None? {
        PartClashes(limits, now, all);
        return Err(IdentityConflict);
      }
      q := next.value;
      PartStops(limits, q, now, all);
      if Exceeds(limits, q) {
        return Err(CapacityExceeded);
      }
    }
    assert EntityPrefix(row, |row.entities|) == row.(relations := []);
    return Ok(q);
  }

  method NextRelation(p: Partial, row: Row, i: nat, limits: Option<Limits>, ghost done: Rows, ghost all: Rows)
    returns (r: Result<Partial, Failure>)
    requires row.document in all && all[row.document] == row && i < |row.relations|
    requires Shows(p, done[row.document := RelationPrefix(row, i)])
    requires SubRows(done, all)
    ensures r.Ok? ==> Shows(r.value, done[row.document := RelationPrefix(row, i + 1)]) && !Exceeds(limits, r.value)
    ensures r.Err? ==> StopsFor(r.error, limits, all)
  {
    ghost var was, now := done[row.document := RelationPrefix(row, i)], done[row.document := RelationPrefix(row, i + 1)];
    OneMoreRelation(row, i);
    assert was[row.document := RelationPrefix(row, i + 1)] == now;
    PartialIsPart(all, done, row.document, RelationPrefix(row, i + 1));
    var next := AddRelation(p, row, row.relations[i], was, RelationPrefix(row, i + 1));
    if next.None? {
      PartClashes(limits, now, all);
      return Err(IdentityConflict);
    }
    PartStops(limits, next.value, now, all);
    return if Exceeds(limits, next.value) then Err(CapacityExceeded) else Ok(next.value);
  }

  method AddRelations(p: Partial, row: Row, limits: Option<Limits>, ghost done: Rows, ghost all: Rows)
    returns (r: Result<Partial, Failure>)
    requires row.document in all && all[row.document] == row && row.document !in done
    requires Shows(p, done[row.document := row.(relations := [])])
    requires SubRows(done, all)
    ensures r.Ok? ==> Shows(r.value, done[row.document := row])
    ensures r.Ok? ==> p == r.value || !Exceeds(limits, r.value)
    ensures r.Err? ==> StopsFor(r.error, limits, all)
  {
    var q := p;
    assert RelationPrefix(row, 0) == row.(relations := []);
    for i := 0 to |row.relations|
      invariant Shows(q, done[row.document := RelationPrefix(row, i)])
      invariant q == p || !Exceeds(limits, q)
    {
      var next := NextRelation(q, row, i, limits, done, all);
      if next.Err? {
        return next;
      }
      q := next.value;
    }
    assert RelationPrefix(row, |row.relations|) == row;
    return Ok(q);
  }

  ghost predicate Keyed(rows: Rows) {
    forall d :: d in rows ==> rows[d].document == d
  }

  method AddRow(p: Partial, row: Row, limits: Option<Limits>, ghost done: Rows, ghost all: Rows)
    returns (r: Result<Partial, Failure>)
    requires row.document in all && all[row.document] == row && row.document !in done && Shows(p, done)
    requires SubRows(done, all)
    requires !Exceeds(limits, p)
    ensures r.Ok? ==> Shows(r.value, done[row.document := row]) && !Exceeds(limits, r.value)
    ensures r.Err? ==> StopsFor(r.error, limits, all)
  {
    var entities := AddEntities(p, row, limits, done, all);
    if entities.Err? {
      return entities;
    }
    r := AddRelations(entities.value, row, limits, done, all);
  }

  lemma NothingShown(p: Partial)
    requires p == Partial({}, map[], {}, map[])
    ensures Shows(p, map[])
  {
  }

  method Walk(rows: Rows, limits: Option<Limits>) returns (r: Result<Partial, Failure>)
    requires Keyed(rows)
    ensures r.Ok? ==> Shows(r.value, rows) && !Exceeds(limits, r.value)
    ensures r.Err? ==> StopsFor(r.error, limits, rows)
  {
    var p := Partial({}, map[], {}, map[]);
    NothingShown(p);
    ghost var done: Rows := map[];
    var pending := rows.Keys;
    while pending != {}
      invariant pending <= rows.Keys && done.Keys == rows.Keys - pending
      invariant SubRows(done, rows)
      invariant Shows(p, done) && !Exceeds(limits, p)
      decreases pending
    {
      var d :| d in pending;
      var next := AddRow(p, rows[d], limits, done, rows);
      if next.Err? {
        return next;
      }
      p := next.value;
      done := done[d := rows[d]];
      pending := pending - {d};
    }
    assert done == rows;
    return Ok(p);
  }

  /** The graph of all the contributions, or the reason there is none. */
  method Snapshot(rows: Rows, limits: Option<Limits>) returns (r: Result<Graph, Failure>)
    requires Keyed(rows)
    ensures r.Ok? ==> r.value == Recomputed(rows) && Functional(AllEvidence(rows))
    ensures r.Ok? ==> limits.None? || !GraphOver(limits.value, r.value)
    ensures r.Err? ==> StopsFor(r.error, limits, rows)
  {
    var walk := Walk(rows, limits);
    if walk.Err? {
      return Err(walk.error);
    }
    var g := Finish(walk.value, rows, limits);
    return Ok(g);
  }

  method Finish(p: Partial, rows: Rows, ghost limits: Option<Limits>) returns (g: Graph)
    requires Shows(p, rows) && !Exceeds(limits, p)
    ensures g == Recomputed(rows) && Functional(AllEvidence(rows)) && (limits.None? || !GraphOver(limits.value, g))
  {
    Finished(p, rows, limits);
    var labels := map n | n in p.nodes :: if n in p.names then p.names[n] else {n.name};
    LabelsShown(p, rows, labels);
    g := Graph(ShownNodes(labels, rows.Keys), p.edges, p.evidence.Values, Documents(rows));
  }

  lemma LabelsShown(p: Partial, rows: Rows, labels: map<Key, set<Id>>)
    requires Shows(p, rows) && labels == map n | n in p.nodes :: if n in p.names then p.names[n] else {n.name}
    ensures labels == Labels(rows) && forall n :: n in labels ==> labels[n] != {}
  {
  }

  lemma Finished(p: Partial, rows: Rows, limits: Option<Limits>)
    requires Shows(p, rows) && !Exceeds(limits, p)
    ensures Functional(AllEvidence(rows)) && p.evidence.Values == AllEvidence(rows)
    ensures limits.Some? ==> !GraphOver(limits.value, Recomputed(rows))
  {
    TableSize(p.evidence, AllEvidence(rows));
    if limits.Some? {
      PartIsSmaller(limits.value, p, rows, rows);
    }
  }
}
