/** Cursor paging over a snapshot: following the cursors gives every matching node once, in order. */
module ItemPages {
  import opened Core

  /** A node of the snapshot; `names` are its normalized aliases. */
  datatype Node = Node(id: Id, kind: Id, key: Id, names: seq<Id>)

  /** The snapshot as read: nodes ascending by identifier, and a digest that stands for all of it. */
  datatype Snapshot = Snapshot(digest: Id, nodes: seq<Node>)

  /** `name` as written and normalized; no kinds means any kind. */
  datatype Query = Query(name: Id, normalized: Id, kinds: set<Id>, limit: nat)

  /** A cursor names the snapshot and the query it continues. */
  datatype Cursor = Cursor(digest: Id, name: Id, kinds: set<Id>, limit: nat, last: Id)

  datatype Page = Page(items: seq<Node>, next: Option<Cursor>)
  datatype Error = InvalidCursor

  ghost predicate Ascending(nodes: seq<Node>) {
    forall i, j :: 0 <= i < j < |nodes| ==> nodes[i].id < nodes[j].id
  }

  ghost predicate ValidSnapshot(s: Snapshot) {
    Ascending(s.nodes) && forall n :: n in s.nodes ==> n.id > 0
  }

  predicate Matches(q: Query, n: Node) {
    (q.kinds == {} || n.kind in q.kinds) && (n.key == q.name || q.normalized in n.names)
  }

  /** The matching nodes after an identifier, in order. */
  function MatchesAfter(nodes: seq<Node>, q: Query, after: Id): seq<Node> {
    if nodes == [] then []
    else (if nodes[0].id > after && Matches(q, nodes[0]) then [nodes[0]] else []) + MatchesAfter(nodes[1..], q, after)
  }

  function CursorFor(s: Snapshot, q: Query, last: Id): Cursor {
    Cursor(s.digest, q.name, q.kinds, q.limit, last)
  }

  /** One page; a cursor of another snapshot or query is refused. */
  function FindItems(s: Snapshot, q: Query, cursor: Option<Cursor>): Result<Page, Error>
    requires q.limit > 0
  {
    if cursor.Some? && cursor.value != CursorFor(s, q, cursor.value.last) then Err(InvalidCursor)
    else
      var items := MatchesAfter(s.nodes, q, if cursor.Some? then cursor.value.last else 0);
      if |items| > q.limit then
        Ok(Page(items[..q.limit], Some(CursorFor(s, q, items[q.limit - 1].id))))
      else Ok(Page(items, None))
  }

  lemma {:induction false} MatchesAre(nodes: seq<Node>, q: Query, after: Id)
    requires Ascending(nodes)
    ensures Ascending(MatchesAfter(nodes, q, after))
    ensures forall n :: n in MatchesAfter(nodes, q, after) <==>
      n in nodes && n.id > after && (q.kinds == {} || n.kind in q.kinds) && (n.key == q.name || q.normalized in n.names)
  {
    if nodes != [] {
      MatchesAre(nodes[1..], q, after);
      forall n | n in MatchesAfter(nodes[1..], q, after) ensures nodes[0].id < n.id {
        assert n in nodes[1..];
        var i :| 0 <= i < |nodes[1..]| && nodes[1..][i] == n;
        assert nodes[0].id < nodes[i + 1].id;
      }
    }
  }

  lemma HeadIsPassed(nodes: seq<Node>, q: Query, last: Id)
    requires nodes != [] && nodes[0].id <= last
    ensures MatchesAfter(nodes, q, last) == MatchesAfter(nodes[1..], q, last)
  {
  }

  lemma TailAscends(nodes: seq<Node>)
    requires Ascending(nodes) && nodes != []
    ensures Ascending(nodes[1..])
    ensures forall i :: 0 <= i < |nodes[1..]| ==> nodes[0].id < nodes[1..][i].id
  {
  }

  lemma MatchIsLater(nodes: seq<Node>, q: Query, after: Id, k: nat)
    requires Ascending(nodes) && nodes != [] && k < |MatchesAfter(nodes[1..], q, after)|
    ensures nodes[0].id < MatchesAfter(nodes[1..], q, after)[k].id
  {
    TailAscends(nodes);
    MatchesAre(nodes[1..], q, after);
    LaterThanFirst(nodes, MatchesAfter(nodes[1..], q, after)[k]);
  }

  /** Continuing after the last item of a page gives the rest of the matches. */
  lemma {:induction false} RestAfter(nodes: seq<Node>, q: Query, after: Id, k: nat)
    requires Ascending(nodes) && 0 < k <= |MatchesAfter(nodes, q, after)|
    ensures MatchesAfter(nodes, q, MatchesAfter(nodes, q, after)[k - 1].id) == MatchesAfter(nodes, q, after)[k..]
  {
    var tail := MatchesAfter(nodes[1..], q, after);
    TailAscends(nodes);
    if nodes[0].id > after && Matches(q, nodes[0]) {
      if k == 1 {
        HeadIsPassed(nodes, q, nodes[0].id);
        AllLater(nodes[1..], q, after, nodes[0].id, nodes[0].id);
      } else {
        MatchIsLater(nodes, q, after, k - 2);
        HeadIsPassed(nodes, q, tail[k - 2].id);
        RestAfter(nodes[1..], q, after, k - 1);
      }
    } else {
      assert MatchesAfter(nodes, q, after) == tail;
      MatchIsLater(nodes, q, after, k - 1);
      HeadIsPassed(nodes, q, tail[k - 1].id);
      RestAfter(nodes[1..], q, after, k);
    }
  }

  lemma LaterThanFirst(nodes: seq<Node>, n: Node)
    requires Ascending(nodes) && nodes != [] && n in nodes[1..]
    ensures nodes[0].id < n.id
  {
    var i :| 0 <= i < |nodes[1..]| && nodes[1..][i] == n;
    assert nodes[0].id < nodes[i + 1].id;
  }

  lemma {:induction false} AllLater(nodes: seq<Node>, q: Query, after: Id, last: Id, first: Id)
    requires after <= last == first && forall i :: 0 <= i < |nodes| ==> first < nodes[i].id
    ensures MatchesAfter(nodes, q, last) == MatchesAfter(nodes, q, after)
  {
    if nodes != [] {
      AllLater(nodes[1..], q, after, last, first);
    }
  }

  /** `pages` pages were read: the first `done` matches, and the cursor to the rest if there is one. */
  ghost predicate Progress(s: Snapshot, q: Query, done: seq<Node>, pages: nat, next: Option<Cursor>) {
    var all := MatchesAfter(s.nodes, q, 0);
    && pages > 0 && done <= all && (pages == 1 || (pages - 1) * q.limit < |all|)
    && if next.None? then done == all
       else 0 < |done| == pages * q.limit < |all| && next == Some(CursorFor(s, q, all[|done| - 1].id))
  }

  lemma FirstPage(s: Snapshot, q: Query)
    requires q.limit > 0
    ensures FindItems(s, q, None).Ok?
    ensures Progress(s, q, FindItems(s, q, None).value.items, 1, FindItems(s, q, None).value.next)
  {
    var all := MatchesAfter(s.nodes, q, 0);
    assert all[..|all|] == all;
  }

  lemma FollowingPage(s: Snapshot, q: Query, done: seq<Node>, pages: nat, next: Option<Cursor>)
    requires ValidSnapshot(s) && q.limit > 0 && Progress(s, q, done, pages, next) && next.Some?
    ensures FindItems(s, q, next).Ok?
    ensures var page := FindItems(s, q, next).value;
      page.items != [] && Progress(s, q, done + page.items, pages + 1, page.next)
  {
    var all := MatchesAfter(s.nodes, q, 0);
    RestAfter(s.nodes, q, 0, |done|);
    var page := FindItems(s, q, next).value;
    NextPage(all, |done|, pages, q.limit, page.items);
    assert done == all[..|done|];
  }

  /** A client that follows the cursors until there is none collects every matching node once, in identifier order. */
  method FollowAll(s: Snapshot, q: Query) returns (collected: seq<Node>, pages: nat)
    requires ValidSnapshot(s) && q.limit > 0
    ensures collected == MatchesAfter(s.nodes, q, 0) && Ascending(collected)
    ensures forall n :: n in collected <==>
      n in s.nodes && (q.kinds == {} || n.kind in q.kinds) && (n.key == q.name || q.normalized in n.names)
    ensures pages == 1 || (pages - 1) * q.limit < |collected|
  {
    FirstPage(s, q);
    var page := FindItems(s, q, None).value;
    collected, pages := page.items, 1;
    while page.next.Some?
      invariant Progress(s, q, collected, pages, page.next)
      decreases |MatchesAfter(s.nodes, q, 0)| - |collected|
    {
      FollowingPage(s, q, collected, pages, page.next);
      page := FindItems(s, q, page.next).value;
      collected := collected + page.items;
      pages := pages + 1;
    }
    MatchesAre(s.nodes, q, 0);
  }

  lemma NextPage(all: seq<Node>, done: nat, pages: nat, limit: nat, items: seq<Node>)
    requires done == pages * limit < |all| && limit > 0
    requires items == if |all| - done > limit then all[done..][..limit] else all[done..]
    ensures all[..done] + items == all[..done + |items|]
    ensures |items| == limit ==> done + |items| == (pages + 1) * limit
    ensures |items| > 0
  {
  }

  /** A cursor is accepted only by the snapshot and the query it was made for. */
  lemma CursorsDoNotMix(s: Snapshot, q: Query, t: Snapshot, p: Query, last: Id)
    requires q.limit > 0 && p.limit > 0
    ensures FindItems(t, p, Some(CursorFor(s, q, last))).Ok? <==>
      s.digest == t.digest && q.name == p.name && q.kinds == p.kinds && q.limit == p.limit
  {
  }
}
