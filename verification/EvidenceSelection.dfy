/** Selecting whole items under a budget of evidence and tokens, shared evidence counted once. */
module EvidenceSelection {
  import opened Core

  /** Evidence by reference, with the tokens of its excerpt. */
  type Evidence = map<Id, nat>

  datatype Budget = Budget(maxItems: nat, maxTokens: nat)
  datatype Action = Reused | Resolve | Omitted
  datatype Status = Kept | MissingEvidence | OverBudget

  /** What resolving a reference gives: nothing, a path outside the scope, or an excerpt of some tokens. */
  datatype Resolved = Missing | OutOfScope | Found(tokens: nat)

  ghost function Sum(m: Evidence): nat
    decreases |m|
  {
    if m == map[] then 0
    else
      var k :| k in m;
      m[k] + Sum(m - {k})
  }

  lemma {:induction false} SumWithout(m: Evidence, k: Id)
    requires k in m
    ensures Sum(m) == m[k] + Sum(m - {k})
    decreases |m|
  {
    var c :| c in m && Sum(m) == m[c] + Sum(m - {c});
    if c != k {
      SumWithout(m - {c}, k);
      SumWithout(m - {k}, c);
      assert (m - {c}) - {k} == (m - {k}) - {c};
    }
  }

  lemma SumWith(m: Evidence, k: Id, v: nat)
    requires k !in m
    ensures Sum(m[k := v]) == Sum(m) + v
  {
    SumWithout(m[k := v], k);
    assert m[k := v] - {k} == m;
  }

  lemma UnionPut(a: Evidence, b: Evidence, k: Id)
    requires k in b && a.Keys !! b.Keys
    ensures k !in a + (b - {k}) && (a + (b - {k}))[k := b[k]] == a + b
  {
  }

  lemma {:induction false} SumUnion(a: Evidence, b: Evidence)
    requires a.Keys !! b.Keys
    ensures Sum(a + b) == Sum(a) + Sum(b)
    decreases |b|
  {
    if b == map[] {
      assert a + b == a;
    } else {
      var k :| k in b;
      SumWithout(b, k);
      SumUnion(a, b - {k});
      UnionPut(a, b, k);
      SumWith(a + (b - {k}), k, b[k]);
    }
  }

  lemma UnionSize(a: Evidence, b: Evidence)
    requires a.Keys !! b.Keys
    ensures |(a + b).Keys| == |a.Keys| + |b.Keys|
  {
    assert (a + b).Keys == a.Keys + b.Keys;
  }

  // ---- The selection ----

  /** Tokens and evidence are counted, what is pending included, and stay within the budget. */
  ghost predicate Accounted(budget: Budget, evidence: Evidence, used: nat, pending: Evidence, pendingTokens: nat) {
    && used == Sum(evidence) && pendingTokens == Sum(pending) && used + pendingTokens <= budget.maxTokens
    && evidence.Keys !! pending.Keys && |evidence.Keys| + |pending.Keys| <= budget.maxItems
  }

  lemma AddAccounted(budget: Budget, evidence: Evidence, used: nat, pending: Evidence, pendingTokens: nat, r: Id, tokens: nat)
    requires Accounted(budget, evidence, used, pending, pendingTokens) && r !in evidence && r !in pending
    requires |evidence.Keys| + |pending.Keys| < budget.maxItems && used + pendingTokens + tokens <= budget.maxTokens
    ensures Accounted(budget, evidence, used, pending[r := tokens], pendingTokens + tokens)
  {
    SumWith(pending, r, tokens);
    assert pending[r := tokens].Keys == pending.Keys + {r};
  }

  lemma KeepAccounted(budget: Budget, evidence: Evidence, used: nat, pending: Evidence, pendingTokens: nat)
    requires Accounted(budget, evidence, used, pending, pendingTokens)
    ensures Accounted(budget, evidence + pending, used + pendingTokens, map[], 0)
  {
    SumUnion(evidence, pending);
    UnionSize(evidence, pending);
  }

  class ContextEvidenceSelection {
    const budget: Budget
    var evidence: Evidence
    var used: nat
    var omittedForEvidence: nat
    var omittedForTokens: nat
    var omittedMissing: nat
    var pending: Evidence
    var keptRefs: seq<Id>
    var pendingTokens: nat
    var omittedByBudget: bool

    /** Between items. What an item left pending stays where it is until the next one begins. */
    ghost predicate Valid()
      reads this
    {
      used == Sum(evidence) <= budget.maxTokens && |evidence.Keys| <= budget.maxItems
    }

    /** Inside an item. */
    ghost predicate Open()
      reads this
    {
      Accounted(budget, evidence, used, pending, pendingTokens)
    }

    constructor (budget: Budget)
      ensures Valid() && Open() && this.budget == budget && evidence == map[] && OmittedItems() == 0
    {
      this.budget, evidence, used := budget, map[], 0;
      omittedForEvidence, omittedForTokens, omittedMissing := 0, 0, 0;
      pending, keptRefs, pendingTokens, omittedByBudget := map[], [], 0, false;
    }

    function OmittedItems(): nat
      reads this
    {
      omittedForEvidence + omittedForTokens + omittedMissing
    }

    method BeginItem()
      requires Valid()
      modifies this`pending, this`keptRefs, this`pendingTokens, this`omittedByBudget
      ensures Open() && pending == map[] && keptRefs == [] && pendingTokens == 0 && !omittedByBudget
    {
      pending, keptRefs, pendingTokens, omittedByBudget := map[], [], 0, false;
    }

    method CheckRef(r: Id) returns (action: Action)
      requires Open()
      modifies this`keptRefs, this`omittedForEvidence, this`omittedByBudget
      ensures Open()
      ensures action == Reused <==> r in evidence || r in pending
      ensures action == Omitted <==> r !in evidence && r !in pending && |evidence.Keys| + |pending.Keys| == budget.maxItems
      ensures keptRefs == if action == Reused then old(keptRefs) + [r] else old(keptRefs)
      ensures omittedByBudget == (old(omittedByBudget) || action == Omitted)
      ensures omittedForEvidence == old(omittedForEvidence) + if action == Omitted then 1 else 0
      ensures OmittedItems() == old(OmittedItems()) + if action == Omitted then 1 else 0
    {
      if r in evidence || r in pending {
        keptRefs := keptRefs + [r];
        return Reused;
      }
      if |evidence.Keys| + |pending.Keys| >= budget.maxItems {
        omittedForEvidence := omittedForEvidence + 1;
        omittedByBudget := true;
        return Omitted;
      }
      return Resolve;
    }

    /** Called for a reference that was just found to need resolving. */
    method AddEvidence(r: Id, tokens: nat) returns (added: bool)
      requires Open() && r !in evidence && r !in pending && |evidence.Keys| + |pending.Keys| < budget.maxItems
      modifies this`pending, this`keptRefs, this`pendingTokens, this`omittedForTokens, this`omittedByBudget
      ensures Open()
      ensures added <==> old(used + pendingTokens) + tokens <= budget.maxTokens
      ensures pending == if added then old(pending)[r := tokens] else old(pending)
      ensures keptRefs == if added then old(keptRefs) + [r] else old(keptRefs)
      ensures omittedByBudget == (old(omittedByBudget) || !added)
      ensures omittedForTokens == old(omittedForTokens) + if added then 0 else 1
      ensures OmittedItems() == old(OmittedItems()) + if added then 0 else 1
    {
      if used + pendingTokens + tokens > budget.maxTokens {
        omittedForTokens := omittedForTokens + 1;
        omittedByBudget := true;
        return false;
      }
      AddAccounted(budget, evidence, used, pending, pendingTokens, r, tokens);
      pending := pending[r := tokens];
      keptRefs := keptRefs + [r];
      pendingTokens := pendingTokens + tokens;
      return true;
    }

    /** Keep the item with all its pending evidence, or leave no trace of it. */
    method FinishItem() returns (status: Status, refs: seq<Id>)
      requires Open()
      modifies this`used, this`evidence, this`omittedMissing
      ensures Valid()
      ensures status == if omittedByBudget then OverBudget else if keptRefs == [] then MissingEvidence else Kept
      ensures refs == if status == Kept then keptRefs else []
      ensures evidence == if status == Kept then old(evidence) + pending else old(evidence)
      ensures omittedMissing == old(omittedMissing) + if status == MissingEvidence then 1 else 0
      ensures OmittedItems() == old(OmittedItems()) + if status == MissingEvidence then 1 else 0
    {
      if omittedByBudget {
        return OverBudget, [];
      }
      if keptRefs == [] {
        omittedMissing := omittedMissing + 1;
        return MissingEvidence, [];
      }
      KeepAccounted(budget, evidence, used, pending, pendingTokens);
      used := used + pendingTokens;
      evidence := evidence + pending;
      return Kept, keptRefs;
    }
  }

  // ---- The selection loop ----

  /** The references of an item that have evidence, in order. */
  function Resolvable(refs: seq<Id>, resolve: Id -> Resolved): seq<Id> {
    if refs == [] then []
    else
      var last := refs[|refs| - 1];
      Resolvable(refs[..|refs| - 1], resolve) + if resolve(last).Found? then [last] else []
  }

  lemma {:induction false} ResolvableAre(refs: seq<Id>, resolve: Id -> Resolved)
    ensures forall r :: r in Resolvable(refs, resolve) <==> r in refs && resolve(r).Found?
  {
    if refs != [] {
      var front, last := refs[..|refs| - 1], refs[|refs| - 1];
      assert refs == front + [last];
      ResolvableAre(front, resolve);
    }
  }

  /** The evidence an item adds to what is there. */
  function Wanted(evidence: Evidence, refs: seq<Id>, resolve: Id -> Resolved): Evidence {
    evidence + map r | r in refs && r !in evidence && resolve(r).Found? :: resolve(r).tokens
  }

  /** Evidence comes from resolvable references. */
  ghost predicate FromRefs(evidence: Evidence, resolve: Id -> Resolved) {
    forall r {:trigger evidence[r]} :: r in evidence ==> resolve(r) == Found(evidence[r])
  }

  /**
   * The selection stops at reference `i`: it is new, and there is no room for one more, or it resolves to more tokens
   * than are left.
   */
  ghost predicate StopsAt(evidence: Evidence, refs: seq<Id>, i: nat, resolve: Id -> Resolved, budget: Budget)
    requires i < |refs|
  {
    var there := Wanted(evidence, refs[..i], resolve);
    && refs[i] !in there
    && (|there.Keys| >= budget.maxItems
        || (resolve(refs[i]).Found? && Sum(there) + resolve(refs[i]).tokens > budget.maxTokens))
  }

  /** The item does not fit: the selection stops at one of its references. */
  ghost predicate TooMuch(evidence: Evidence, refs: seq<Id>, resolve: Id -> Resolved, budget: Budget) {
    !Passes(evidence, refs, |refs|, resolve, budget)
  }

  /** The first `i` references fit. */
  ghost predicate Passes(evidence: Evidence, refs: seq<Id>, i: nat, resolve: Id -> Resolved, budget: Budget)
    requires i <= |refs|
  {
    forall j :: 0 <= j < i ==> !StopsAt(evidence, refs, j, resolve, budget)
  }

  ghost function StatusOf(evidence: Evidence, refs: seq<Id>, resolve: Id -> Resolved, budget: Budget): Status {
    if TooMuch(evidence, refs, resolve, budget) then OverBudget
    else if Resolvable(refs, resolve) == [] then MissingEvidence
    else Kept
  }

  /** What one item does to the selection. */
  ghost predicate ItemDone(was: Evidence, now: Evidence, refs: seq<Id>, resolve: Id -> Resolved, budget: Budget,
                           status: Status, cited: seq<Id>)
  {
    && status == StatusOf(was, refs, resolve, budget)
    && cited == (if status == Kept then Resolvable(refs, resolve) else [])
    && now == if status == Kept then Wanted(was, refs, resolve) else was
  }

  /** Resolve a reference once; later items find it in the cache. */
  method ResolveOnce(resolve: Id -> Resolved, cache: map<Id, Resolved>, r: Id) returns (found: Resolved, after: map<Id, Resolved>)
    requires forall k :: k in cache ==> cache[k] == resolve(k)
    ensures found == resolve(r) && forall k :: k in after ==> after[k] == resolve(k)
  {
    if r in cache {
      return cache[r], cache;
    }
    found := resolve(r);
    after := cache[r := found];
  }

  /** The state inside an item: its first `i` references were looked at and all fitted. */
  ghost predicate Partial(s: ContextEvidenceSelection, was: Evidence, refs: seq<Id>, i: nat, resolve: Id -> Resolved)
    requires i <= |refs|
    reads s
  {
    && s.evidence == was && Looked(was, s.pending, s.keptRefs, refs, i, resolve)
    && Passes(was, refs, i, resolve, s.budget)
  }

  lemma WantedMore(evidence: Evidence, refs: seq<Id>, i: nat, resolve: Id -> Resolved)
    requires i < |refs|
    ensures Wanted(evidence, refs[..i + 1], resolve)
      == if refs[i] in evidence || !resolve(refs[i]).Found? then Wanted(evidence, refs[..i], resolve)
         else Wanted(evidence, refs[..i], resolve)[refs[i] := resolve(refs[i]).tokens]
  {
    assert refs[..i + 1] == refs[..i] + [refs[i]];
  }

  /** No room for one more. */
  lemma TooManyRefs(evidence: Evidence, pending: Evidence, refs: seq<Id>, i: nat, resolve: Id -> Resolved, budget: Budget)
    requires i < |refs| && evidence + pending == Wanted(evidence, refs[..i], resolve) && evidence.Keys !! pending.Keys
    requires refs[i] !in evidence && refs[i] !in pending
    ensures |evidence.Keys| + |pending.Keys| >= budget.maxItems ==> StopsAt(evidence, refs, i, resolve, budget)
    ensures |evidence.Keys| + |pending.Keys| < budget.maxItems && !resolve(refs[i]).Found?
      ==> !StopsAt(evidence, refs, i, resolve, budget)
  {
    UnionSize(evidence, pending);
  }

  lemma TooManyTokens(evidence: Evidence, pending: Evidence, refs: seq<Id>, i: nat, resolve: Id -> Resolved, budget: Budget)
    requires i < |refs| && evidence + pending == Wanted(evidence, refs[..i], resolve) && evidence.Keys !! pending.Keys
    requires refs[i] !in evidence && refs[i] !in pending && resolve(refs[i]).Found?
    requires |evidence.Keys| + |pending.Keys| < budget.maxItems
    ensures Sum(evidence) + Sum(pending) + resolve(refs[i]).tokens > budget.maxTokens
      <==> StopsAt(evidence, refs, i, resolve, budget)
  {
    UnionSize(evidence, pending);
    SumUnion(evidence, pending);
  }

  /** Look at the references of one item until one does not fit. */
  method TakeRefs(s: ContextEvidenceSelection, refs: seq<Id>, resolve: Id -> Resolved, cache: map<Id, Resolved>)
    returns (after: map<Id, Resolved>)
    requires s.Open() && s.pending == map[] && s.keptRefs == [] && !s.omittedByBudget
    requires FromRefs(s.evidence, resolve) && forall k :: k in cache ==> cache[k] == resolve(k)
    modifies s
    ensures s.Open() && s.evidence == old(s.evidence) && s.omittedMissing == old(s.omittedMissing)
    ensures forall k :: k in after ==> after[k] == resolve(k)
    ensures s.omittedByBudget == TooMuch(s.evidence, refs, resolve, s.budget)
    ensures s.OmittedItems() == old(s.OmittedItems()) + if s.omittedByBudget then 1 else 0
    ensures !s.omittedByBudget ==> Partial(s, s.evidence, refs, |refs|, resolve)
  {
    after := cache;
    ghost var was := s.evidence;
    StartLooked(was, refs, resolve);
    for i := 0 to |refs|
      invariant s.Open() && !s.omittedByBudget && s.OmittedItems() == old(s.OmittedItems())
      invariant s.omittedMissing == old(s.omittedMissing)
      invariant Partial(s, was, refs, i, resolve) && FromRefs(was, resolve)
      invariant forall k :: k in after ==> after[k] == resolve(k)
    {
      var stop;
      stop, after := TakeRef(s, refs, i, resolve, after, was);
      if stop {
        return;
      }
    }
  }

  method TakeRef(s: ContextEvidenceSelection, refs: seq<Id>, i: nat, resolve: Id -> Resolved, cache: map<Id, Resolved>,
                 ghost was: Evidence)
    returns (stop: bool, after: map<Id, Resolved>)
    requires s.Open() && !s.omittedByBudget && i < |refs| && Partial(s, was, refs, i, resolve) && FromRefs(was, resolve)
    requires forall k :: k in cache ==> cache[k] == resolve(k)
    modifies s
    ensures s.Open() && s.evidence == was && s.omittedMissing == old(s.omittedMissing)
    ensures forall k :: k in after ==> after[k] == resolve(k)
    ensures stop == s.omittedByBudget && (stop ==> StopsAt(was, refs, i, resolve, s.budget))
    ensures s.OmittedItems() == old(s.OmittedItems()) + if stop then 1 else 0
    ensures !stop ==> Partial(s, was, refs, i + 1, resolve)
  {
    var action := LookAt(s, refs, i, resolve, was);
    if action == Resolve {
      stop, after := TakeNew(s, refs, i, resolve, cache, was);
    } else {
      stop, after := action == Omitted, cache;
    }
  }

  /** A reference that is there already is cited again; one for which there is no room ends the item. */
  method LookAt(s: ContextEvidenceSelection, refs: seq<Id>, i: nat, ghost resolve: Id -> Resolved, ghost was: Evidence)
    returns (action: Action)
    requires s.Open() && !s.omittedByBudget && i < |refs| && Partial(s, was, refs, i, resolve) && FromRefs(was, resolve)
    modifies s
    ensures s.Open() && s.evidence == was && s.omittedMissing == old(s.omittedMissing)
    ensures s.omittedByBudget == (action == Omitted) && (action == Omitted ==> StopsAt(was, refs, i, resolve, s.budget))
    ensures s.OmittedItems() == old(s.OmittedItems()) + if action == Omitted then 1 else 0
    ensures action == Reused ==> Partial(s, was, refs, i + 1, resolve)
    ensures action == Resolve ==> Partial(s, was, refs, i, resolve)
    ensures action == Resolve ==> refs[i] !in s.evidence && refs[i] !in s.pending
    ensures action == Resolve ==> |s.evidence.Keys| + |s.pending.Keys| < s.budget.maxItems
  {
    LookStep(was, s.pending, s.keptRefs, refs, i, resolve, s.budget);
    action := s.CheckRef(refs[i]);
  }

  lemma LookStep(was: Evidence, pending: Evidence, kept: seq<Id>, refs: seq<Id>, i: nat, resolve: Id -> Resolved,
                 budget: Budget)
    requires i < |refs| && Looked(was, pending, kept, refs, i, resolve) && Passes(was, refs, i, resolve, budget)
    requires FromRefs(was, resolve) && was.Keys !! pending.Keys
    ensures refs[i] in was || refs[i] in pending ==>
      Looked(was, pending, kept + [refs[i]], refs, i + 1, resolve) && Passes(was, refs, i + 1, resolve, budget)
    ensures refs[i] !in was && refs[i] !in pending && |was.Keys| + |pending.Keys| >= budget.maxItems
      ==> StopsAt(was, refs, i, resolve, budget)
  {
    if refs[i] in was || refs[i] in pending {
      ReusedStep(was, pending, kept, refs, i, resolve);
      assert refs[i] in Wanted(was, refs[..i], resolve);
      PassesOne(was, refs, i, resolve, budget);
    } else {
      TooManyRefs(was, pending, refs, i, resolve, budget);
    }
  }

  /** A reference that is not there yet and for which there is room. */
  method TakeNew(s: ContextEvidenceSelection, refs: seq<Id>, i: nat, resolve: Id -> Resolved, cache: map<Id, Resolved>,
                 ghost was: Evidence)
    returns (stop: bool, after: map<Id, Resolved>)
    requires s.Open() && !s.omittedByBudget && i < |refs| && Partial(s, was, refs, i, resolve)
    requires refs[i] !in s.evidence && refs[i] !in s.pending && |s.evidence.Keys| + |s.pending.Keys| < s.budget.maxItems
    requires forall k :: k in cache ==> cache[k] == resolve(k)
    modifies s
    ensures s.Open() && s.evidence == was && s.omittedMissing == old(s.omittedMissing)
    ensures forall k :: k in after ==> after[k] == resolve(k)
    ensures stop == s.omittedByBudget && (stop ==> StopsAt(was, refs, i, resolve, s.budget))
    ensures s.OmittedItems() == old(s.OmittedItems()) + if stop then 1 else 0
    ensures !stop ==> Partial(s, was, refs, i + 1, resolve)
  {
    ghost var pending, kept := s.pending, s.keptRefs;
    var found;
    found, after := ResolveOnce(resolve, cache, refs[i]);
    if !found.Found? {
      UnresolvedStep(was, pending, kept, refs, i, resolve);
      TooManyRefs(was, pending, refs, i, resolve, s.budget);
      PassesOne(was, refs, i, resolve, s.budget);
      return false, after;
    }
    stop := TakeFound(s, refs, i, resolve, found.tokens, was);
  }

  method TakeFound(s: ContextEvidenceSelection, refs: seq<Id>, i: nat, ghost resolve: Id -> Resolved, tokens: nat,
                   ghost was: Evidence)
    returns (stop: bool)
    requires s.Open() && !s.omittedByBudget && i < |refs| && Partial(s, was, refs, i, resolve)
    requires refs[i] !in s.evidence && refs[i] !in s.pending && |s.evidence.Keys| + |s.pending.Keys| < s.budget.maxItems
    requires resolve(refs[i]) == Found(tokens)
    modifies s
    ensures s.Open() && s.evidence == was && s.omittedMissing == old(s.omittedMissing)
    ensures stop == s.omittedByBudget && (stop ==> StopsAt(was, refs, i, resolve, s.budget))
    ensures s.OmittedItems() == old(s.OmittedItems()) + if stop then 1 else 0
    ensures !stop ==> Partial(s, was, refs, i + 1, resolve)
  {
    FoundStep(was, s.pending, s.keptRefs, refs, i, resolve, tokens, s.budget);
    var added := s.AddEvidence(refs[i], tokens);
    stop := !added;
  }

  lemma FoundStep(was: Evidence, pending: Evidence, kept: seq<Id>, refs: seq<Id>, i: nat, resolve: Id -> Resolved, tokens: nat,
                  budget: Budget)
    requires i < |refs| && Looked(was, pending, kept, refs, i, resolve) && Passes(was, refs, i, resolve, budget)
    requires resolve(refs[i]) == Found(tokens) && refs[i] !in was && refs[i] !in pending && was.Keys !! pending.Keys
    requires |was.Keys| + |pending.Keys| < budget.maxItems
    ensures Looked(was, pending[refs[i] := tokens], kept + [refs[i]], refs, i + 1, resolve)
    ensures if Sum(was) + Sum(pending) + tokens > budget.maxTokens then StopsAt(was, refs, i, resolve, budget)
            else Passes(was, refs, i + 1, resolve, budget)
  {
    AddedStep(was, pending, kept, refs, i, resolve, tokens);
    TooManyTokens(was, pending, refs, i, resolve, budget);
  }

  lemma PassesOne(was: Evidence, refs: seq<Id>, i: nat, resolve: Id -> Resolved, budget: Budget)
    requires i < |refs| && Passes(was, refs, i, resolve, budget) && !StopsAt(was, refs, i, resolve, budget)
    ensures Passes(was, refs, i + 1, resolve, budget)
  {
  }

  /** The first `i` references are looked at. */
  ghost predicate Looked(was: Evidence, pending: Evidence, kept: seq<Id>, refs: seq<Id>, i: nat, resolve: Id -> Resolved)
    requires i <= |refs|
  {
    was + pending == Wanted(was, refs[..i], resolve) && kept == Resolvable(refs[..i], resolve)
  }

  lemma StartLooked(was: Evidence, refs: seq<Id>, resolve: Id -> Resolved)
    ensures Looked(was, map[], [], refs, 0, resolve)
  {
    assert refs[..0] == [];
    assert Wanted(was, [], resolve) == was + map[];
  }

  lemma ReusedStep(was: Evidence, pending: Evidence, kept: seq<Id>, refs: seq<Id>, i: nat, resolve: Id -> Resolved)
    requires i < |refs| && FromRefs(was, resolve) && Looked(was, pending, kept, refs, i, resolve)
    requires refs[i] in was || refs[i] in pending
    ensures Looked(was, pending, kept + [refs[i]], refs, i + 1, resolve)
  {
    WantedMore(was, refs, i, resolve);
    assert refs[..i + 1][..i] == refs[..i];
    assert refs[i] in Wanted(was, refs[..i], resolve);
  }

  lemma UnresolvedStep(was: Evidence, pending: Evidence, kept: seq<Id>, refs: seq<Id>, i: nat, resolve: Id -> Resolved)
    requires i < |refs| && Looked(was, pending, kept, refs, i, resolve) && !resolve(refs[i]).Found?
    ensures Looked(was, pending, kept, refs, i + 1, resolve)
  {
    WantedMore(was, refs, i, resolve);
    assert refs[..i + 1][..i] == refs[..i];
    assert kept + [] == kept;
  }

  lemma AddedStep(was: Evidence, pending: Evidence, kept: seq<Id>, refs: seq<Id>, i: nat, resolve: Id -> Resolved, tokens: nat)
    requires i < |refs| && Looked(was, pending, kept, refs, i, resolve)
    requires resolve(refs[i]) == Found(tokens) && refs[i] !in was && refs[i] !in pending
    ensures Looked(was, pending[refs[i] := tokens], kept + [refs[i]], refs, i + 1, resolve)
  {
    WantedMore(was, refs, i, resolve);
    assert refs[..i + 1][..i] == refs[..i];
    assert was + pending[refs[i] := tokens] == (was + pending)[refs[i] := tokens];
  }

  lemma WantedFrom(was: Evidence, refs: seq<Id>, resolve: Id -> Resolved)
    requires FromRefs(was, resolve)
    ensures FromRefs(Wanted(was, refs, resolve), resolve)
  {
  }

  method TakeItem(s: ContextEvidenceSelection, refs: seq<Id>, resolve: Id -> Resolved, cache: map<Id, Resolved>)
    returns (status: Status, cited: seq<Id>, after: map<Id, Resolved>)
    requires s.Valid() && FromRefs(s.evidence, resolve) && forall k :: k in cache ==> cache[k] == resolve(k)
    modifies s
    ensures s.Valid() && FromRefs(s.evidence, resolve) && forall k :: k in after ==> after[k] == resolve(k)
    ensures ItemDone(old(s.evidence), s.evidence, refs, resolve, s.budget, status, cited)
    ensures s.OmittedItems() == old(s.OmittedItems()) + if status == Kept then 0 else 1
  {
    s.BeginItem();
    after := TakeRefs(s, refs, resolve, cache);
    status, cited := Finish(s, refs, resolve);
  }

  /** The end of an item all of whose references were looked at, or one of which did not fit. */
  method Finish(s: ContextEvidenceSelection, ghost refs: seq<Id>, ghost resolve: Id -> Resolved)
    returns (status: Status, cited: seq<Id>)
    requires s.Open() && FromRefs(s.evidence, resolve)
    requires s.omittedByBudget == TooMuch(s.evidence, refs, resolve, s.budget)
    requires !s.omittedByBudget ==> Partial(s, s.evidence, refs, |refs|, resolve)
    modifies s
    ensures s.Valid() && FromRefs(s.evidence, resolve)
    ensures ItemDone(old(s.evidence), s.evidence, refs, resolve, s.budget, status, cited)
    ensures s.OmittedItems() == old(s.OmittedItems()) + if status == MissingEvidence then 1 else 0
    ensures status == OverBudget <==> old(s.omittedByBudget)
  {
    ghost var was, pending, kept, over := s.evidence, s.pending, s.keptRefs, s.omittedByBudget;
    assert !over ==> Looked(was, pending, kept, refs, |refs|, resolve);
    status, cited := s.FinishItem();
    FinishedItem(was, pending, kept, over, s.evidence, refs, resolve, s.budget, status, cited);
  }

  lemma FinishedItem(was: Evidence, pending: Evidence, kept: seq<Id>, over: bool, now: Evidence, refs: seq<Id>,
                     resolve: Id -> Resolved, budget: Budget, status: Status, cited: seq<Id>)
    requires FromRefs(was, resolve)
    requires over == TooMuch(was, refs, resolve, budget)
    requires !over ==> Looked(was, pending, kept, refs, |refs|, resolve)
    requires status == if over then OverBudget else if kept == [] then MissingEvidence else Kept
    requires cited == if status == Kept then kept else []
    requires now == if status == Kept then was + pending else was
    ensures ItemDone(was, now, refs, resolve, budget, status, cited)
    ensures FromRefs(now, resolve)
  {
    WantedFrom(was, refs, resolve);
    assert refs[..|refs|] == refs;
  }

  /** Every reference the kept items cite. */
  function Cited(kept: seq<seq<Id>>): seq<Id> {
    if kept == [] then [] else Cited(kept[..|kept| - 1]) + kept[|kept| - 1]
  }

  /** The evidence kept, what became of each item, and the kept items with their citations, in planned order. */
  datatype Selection = Selection(evidence: Evidence, statuses: seq<Status>, kept: seq<seq<Id>>)

  /** One item after the others, each given the evidence the items before it left. */
  ghost function Selected(planned: seq<seq<Id>>, resolve: Id -> Resolved, budget: Budget): Selection {
    if planned == [] then Selection(map[], [], [])
    else
      var was, refs := Selected(planned[..|planned| - 1], resolve, budget), planned[|planned| - 1];
      var status := StatusOf(was.evidence, refs, resolve, budget);
      if status != Kept then was.(statuses := was.statuses + [status])
      else
        Selection(Wanted(was.evidence, refs, resolve), was.statuses + [status], was.kept + [Resolvable(refs, resolve)])
  }

  lemma SelectedMore(planned: seq<seq<Id>>, resolve: Id -> Resolved, budget: Budget, refs: seq<Id>)
    ensures var was := Selected(planned, resolve, budget); var status := StatusOf(was.evidence, refs, resolve, budget);
      Selected(planned + [refs], resolve, budget)
      == if status != Kept then was.(statuses := was.statuses + [status])
         else Selection(Wanted(was.evidence, refs, resolve), was.statuses + [status], was.kept + [Resolvable(refs, resolve)])
  {
    assert (planned + [refs])[..|planned|] == planned;
  }

  /** The selection so far: kept evidence is exactly what kept items cite, and every item is kept or omitted. */
  ghost predicate Tally(planned: seq<seq<Id>>, resolve: Id -> Resolved, budget: Budget, s: Selection, omitted: nat) {
    && s == Selected(planned, resolve, budget) && FromRefs(s.evidence, resolve)
    && s.evidence.Keys == Elements(Cited(s.kept)) && |s.kept| + omitted == |planned|
  }

  lemma TallyItem(planned: seq<seq<Id>>, resolve: Id -> Resolved, budget: Budget, s: Selection, omitted: nat, refs: seq<Id>,
                  status: Status, cited: seq<Id>, now: Evidence)
    requires Tally(planned, resolve, budget, s, omitted)
    requires ItemDone(s.evidence, now, refs, resolve, budget, status, cited) && FromRefs(now, resolve)
    ensures Tally(planned + [refs], resolve, budget,
                  Selection(now, s.statuses + [status], if status == Kept then s.kept + [cited] else s.kept),
                  omitted + if status == Kept then 0 else 1)
  {
    CitedMore(s.kept, cited);
    KeysWanted(s.evidence, refs, resolve);
    SelectedMore(planned, resolve, budget, refs);
  }

  lemma KeysWanted(evidence: Evidence, refs: seq<Id>, resolve: Id -> Resolved)
    requires FromRefs(evidence, resolve)
    ensures Wanted(evidence, refs, resolve).Keys == evidence.Keys + Elements(Resolvable(refs, resolve))
  {
    ResolvableAre(refs, resolve);
  }

  /**
   * The whole loop: each item is kept or not as the evidence kept before it decides, kept evidence is exactly what the
   * kept items cite, its tokens add up to what is counted as used, and every planned item is kept or counted as omitted.
   */
  method SelectItems(planned: seq<seq<Id>>, resolve: Id -> Resolved, budget: Budget)
    returns (s: ContextEvidenceSelection, kept: seq<seq<Id>>, statuses: seq<Status>)
    ensures fresh(s) && s.budget == budget
    ensures s.used == Sum(s.evidence) <= budget.maxTokens && |s.evidence.Keys| <= budget.maxItems
    ensures Tally(planned, resolve, budget, Selection(s.evidence, statuses, kept), s.OmittedItems())
  {
    s := new ContextEvidenceSelection(budget);
    kept, statuses := SelectInto(s, planned, resolve);
  }

  method SelectInto(s: ContextEvidenceSelection, planned: seq<seq<Id>>, resolve: Id -> Resolved)
    returns (kept: seq<seq<Id>>, statuses: seq<Status>)
    requires s.Valid() && s.evidence == map[] && s.OmittedItems() == 0
    modifies s
    ensures s.Valid() && Tally(planned, resolve, s.budget, Selection(s.evidence, statuses, kept), s.OmittedItems())
  {
    var cache: map<Id, Resolved> := map[];
    kept, statuses := [], [];
    NothingTallied(resolve, s.budget);
    for i := 0 to |planned|
      invariant s.Valid() && forall k :: k in cache ==> cache[k] == resolve(k)
      invariant Tally(planned[..i], resolve, s.budget, Selection(s.evidence, statuses, kept), s.OmittedItems())
    {
      kept, statuses, cache := NextItem(s, planned, i, resolve, cache, kept, statuses);
    }
    assert planned[..|planned|] == planned;
  }

  method NextItem(s: ContextEvidenceSelection, planned: seq<seq<Id>>, i: nat, resolve: Id -> Resolved,
                  cache: map<Id, Resolved>, kept: seq<seq<Id>>, statuses: seq<Status>)
    returns (k: seq<seq<Id>>, st: seq<Status>, after: map<Id, Resolved>)
    requires s.Valid() && i < |planned| && forall k :: k in cache ==> cache[k] == resolve(k)
    requires Tally(planned[..i], resolve, s.budget, Selection(s.evidence, statuses, kept), s.OmittedItems())
    modifies s
    ensures s.Valid() && forall k :: k in after ==> after[k] == resolve(k)
    ensures Tally(planned[..i + 1], resolve, s.budget, Selection(s.evidence, st, k), s.OmittedItems())
  {
    ghost var was, omitted := Selection(s.evidence, statuses, kept), s.OmittedItems();
    var status, cited;
    status, cited, after := TakeItem(s, planned[i], resolve, cache);
    TallyNext(planned, i, resolve, s.budget, was, omitted, status, cited, s.evidence);
    st := statuses + [status];
    k := if status == Kept then kept + [cited] else kept;
  }

  lemma TallyNext(planned: seq<seq<Id>>, i: nat, resolve: Id -> Resolved, budget: Budget, s: Selection, omitted: nat,
                  status: Status, cited: seq<Id>, now: Evidence)
    requires i < |planned| && Tally(planned[..i], resolve, budget, s, omitted)
    requires ItemDone(s.evidence, now, planned[i], resolve, budget, status, cited) && FromRefs(now, resolve)
    ensures Tally(planned[..i + 1], resolve, budget,
                  Selection(now, s.statuses + [status], if status == Kept then s.kept + [cited] else s.kept),
                  omitted + if status == Kept then 0 else 1)
  {
    assert planned[..i] + [planned[i]] == planned[..i + 1];
    TallyItem(planned[..i], resolve, budget, s, omitted, planned[i], status, cited, now);
  }

  lemma NothingTallied(resolve: Id -> Resolved, budget: Budget)
    ensures Tally([], resolve, budget, Selection(map[], [], []), 0)
  {
  }

  lemma CitedMore(kept: seq<seq<Id>>, refs: seq<Id>)
    ensures Elements(Cited(kept + [refs])) == Elements(Cited(kept)) + Elements(refs)
  {
    assert (kept + [refs])[..|kept|] == kept;
  }
}
