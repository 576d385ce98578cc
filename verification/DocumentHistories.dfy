/** Whole histories of one collection: any interleaving of clients under optimistic concurrency. */
module DocumentHistories {
  import opened Core
  import opened DocumentGraph
  import opened DocumentSnapshots
  import opened DocumentTables
  import opened DocumentReads
  import opened DocumentStores

  /** One transaction of some client: a batch of updates or a batch of removals. */
  datatype Call = Call(profile: Id, limits: Limits, expected: nat, prepared: seq<Row>, removals: seq<Id>)

  ghost predicate ValidCall(call: Call) {
    ValidBatch(call.prepared) && (call.prepared == [] || call.removals == [])
  }

  function Answer(c: Option<Collection>, call: Call): Result<Rows, Error> {
    Outcome(c, call.profile, call.limits, call.expected, call.prepared, call.removals)
  }

  function Step(c: Option<Collection>, call: Call): Option<Collection> {
    if Answer(c, call).Err? then c else Committed(c, call.profile, Answer(c, call).value)
  }

  /** The collection after the calls in the order their transactions ran. */
  function Run(calls: seq<Call>): Option<Collection> {
    if calls == [] then None else Step(Run(calls[..|calls| - 1]), calls[|calls| - 1])
  }

  /** The call commits and changes some contribution. */
  predicate Wins(c: Option<Collection>, call: Call) {
    Answer(c, call).Ok? && Answer(c, call).value != RowsOf(c)
  }

  /** The calls that changed something, in the order they did. */
  function Winners(calls: seq<Call>): seq<Call> {
    if calls == [] then []
    else
      var front, last := calls[..|calls| - 1], calls[|calls| - 1];
      Winners(front) + if Wins(Run(front), last) then [last] else []
  }

  /** Applying batches one after the other to nothing, with no checks at all. */
  function Serial(calls: seq<Call>): Rows {
    if calls == [] then map[]
    else
      var last := calls[|calls| - 1];
      Requested(Serial(calls[..|calls| - 1]), last.prepared, last.removals)
  }

  /** A change takes the expected revision to the next one; any other call leaves the collection as it is. */
  lemma OneCall(c: Option<Collection>, call: Call)
    ensures Wins(c, call) ==> RevisionOf(c) == call.expected && RevisionOf(Step(c, call)) == call.expected + 1
    ensures Wins(c, call) ==> RowsOf(Step(c, call)) == Requested(RowsOf(c), call.prepared, call.removals)
    ensures !Wins(c, call) ==> Step(c, call) == c
  {
    AnswerIsRequested(c, call);
    if Wins(c, call) {
      CommittedRows(c, call.profile, Answer(c, call).value);
    }
  }

  lemma AnswerIsRequested(c: Option<Collection>, call: Call)
    ensures Answer(c, call).Ok? ==>
      RevisionOf(c) == call.expected && Answer(c, call).value == Requested(RowsOf(c), call.prepared, call.removals)
  {
  }

  lemma CommittedRows(c: Option<Collection>, profile: Id, rows: Rows)
    requires rows != RowsOf(c)
    ensures RowsOf(Committed(c, profile, rows)) == rows && RevisionOf(Committed(c, profile, rows)) == RevisionOf(c) + 1
  {
  }

  /**
   * Whatever the interleaving: the revision counts the changes, the i-th change was made by a caller that expected
   * revision i, and the contributions are those of applying exactly these changes one after the other.
   */
  lemma {:induction false} SerialEquivalence(calls: seq<Call>)
    ensures RevisionOf(Run(calls)) == |Winners(calls)|
    ensures forall i :: 0 <= i < |Winners(calls)| ==> Winners(calls)[i].expected == i
    ensures RowsOf(Run(calls)) == Serial(Winners(calls))
  {
    if calls != [] {
      var front, last := calls[..|calls| - 1], calls[|calls| - 1];
      SerialEquivalence(front);
      OneCall(Run(front), last);
      if Wins(Run(front), last) {
        assert Winners(calls) == Winners(front) + [last];
        SerialPush(Winners(front), last);
      } else {
        assert Winners(calls) == Winners(front);
      }
    }
  }

  lemma SerialPush(calls: seq<Call>, last: Call)
    ensures Serial(calls + [last]) == Requested(Serial(calls), last.prepared, last.removals)
  {
    assert (calls + [last])[..|calls|] == calls;
  }

  lemma StepKeepsConsistent(c: Option<Collection>, call: Call)
    requires ValidCall(call) && (c.Some? ==> Consistent(c.value))
    ensures Step(c, call).Some? ==> Consistent(Step(c, call).value)
  {
    OutcomeIsValid(c, call.profile, call.limits, call.expected, call.prepared, call.removals);
    if Answer(c, call).Ok? {
      CommittedIsConsistent(c, call.profile, Answer(c, call).value);
    }
  }

  /** After any history the tables are those of a recomputation. */
  lemma {:induction false} AlwaysConsistent(calls: seq<Call>)
    requires forall i :: 0 <= i < |calls| ==> ValidCall(calls[i])
    ensures Run(calls).Some? ==> Consistent(Run(calls).value)
  {
    if calls != [] {
      AlwaysConsistent(calls[..|calls| - 1]);
      StepKeepsConsistent(Run(calls[..|calls| - 1]), calls[|calls| - 1]);
    }
  }

  /** Two histories that end in the same documents show the same graph, whatever happened on the way. */
  lemma SameDocumentsSameGraph(a: seq<Call>, b: seq<Call>)
    requires forall i :: 0 <= i < |a| ==> ValidCall(a[i])
    requires forall i :: 0 <= i < |b| ==> ValidCall(b[i])
    requires Run(a).Some? && Run(b).Some? && RowsOf(Run(a)) == RowsOf(Run(b))
    ensures Run(a).value == Run(b).value.(revision := Run(a).value.revision, profile := Run(a).value.profile)
  {
    AlwaysConsistent(a);
    AlwaysConsistent(b);
    SameRowsSameTables(Run(a).value, Run(b).value);
  }

  lemma SameRowsSameTables(c: Collection, d: Collection)
    requires Consistent(c) && Consistent(d) && c.contributions == d.contributions
    ensures c == d.(revision := c.revision, profile := c.profile)
  {
  }

  /** After any history a read gives the graph of the selected documents, unless it is refused for another reason. */
  lemma ReadsAreCurrent(calls: seq<Call>, s: Selection, ids: seq<Id>)
    requires (forall i :: 0 <= i < |calls| ==> ValidCall(calls[i])) && Run(calls).Some?
    requires forall d :: d in ids <==> d in Run(calls).value.contributions && Selects(s, d)
    ensures FromTables(Run(calls).value, s, ids) == Recomputed(Chosen(Serial(Winners(calls)), s))
  {
    AlwaysConsistent(calls);
    SerialEquivalence(calls);
    ReadsBack(Run(calls).value, s, ids);
  }
}
