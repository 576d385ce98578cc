/** Small vocabulary shared by every part of the model. */
module Core {

  datatype Option<+T> = None | Some(value: T)

  datatype Result<+T, +E> = Ok(value: T) | Err(error: E)

  /** An identifier of which the source only ever uses equality and the order of its text. */
  type Id = nat

  ghost function Elements<T>(s: seq<T>): set<T> {
    set x | x in s
  }

  ghost predicate Distinct<T>(s: seq<T>) {
    forall i, j :: 0 <= i < j < |s| ==> s[i] != s[j]
  }

  lemma {:induction false} DistinctSize<T>(s: seq<T>)
    requires Distinct(s)
    ensures |Elements(s)| == |s|
  {
    if s != [] {
      var last := |s| - 1;
      var front := s[..last];
      DistinctSize(front);
      assert s == front + [s[last]];
      assert Elements(s) == Elements(front) + {s[last]};
      assert s[last] !in front;
    }
  }

  lemma RepeatCounts<T>(s: seq<T>, i: nat, j: nat)
    requires i < j < |s| && s[i] == s[j]
    ensures multiset(s)[s[i]] >= 2
  {
    assert s == s[..j] + [s[j]] + s[j + 1..];
    assert s[i] in s[..j];
    assert multiset(s[..j])[s[i]] >= 1;
  }

  lemma {:induction false} DistinctCounts<T>(s: seq<T>)
    ensures Distinct(s) <==> forall x :: x in s ==> multiset(s)[x] == 1
  {
    forall i, j | 0 <= i < j < |s| && s[i] == s[j] ensures multiset(s)[s[i]] >= 2 {
      RepeatCounts(s, i, j);
    }
    if s != [] {
      var front := s[..|s| - 1];
      DistinctCounts(front);
      assert s == front + [s[|s| - 1]];
      if Distinct(s) {
        assert s[|s| - 1] !in front;
        assert s[|s| - 1] !in multiset(front);
      }
    }
  }

  lemma SubsetSize<T>(a: set<T>, b: set<T>)
    requires a <= b
    ensures |a| <= |b|
    ensures |a| == |b| ==> a == b
  {
    assert |b| == |a| + |b - a| by { assert b == a + (b - a); }
    if |a| == |b| {
      assert b - a == {};
    }
  }
}

/** Python's stable `sorted`, as an insertion sort over a comparison. */
module Sorting {

  function InsertBy<T>(x: T, s: seq<T>, le: (T, T) -> bool): (r: seq<T>) {
    if s == [] then [x]
    else if le(x, s[0]) then [x] + s
    else [s[0]] + InsertBy(x, s[1..], le)
  }

  function SortBy<T>(s: seq<T>, le: (T, T) -> bool): (r: seq<T>) {
    if s == [] then [] else InsertBy(s[0], SortBy(s[1..], le), le)
  }

  ghost predicate TotalPreorder<T(!new)>(le: (T, T) -> bool) {
    && (forall x, y :: le(x, y) || le(y, x))
    && (forall x, y, z :: le(x, y) && le(y, z) ==> le(x, z))
  }

  ghost predicate Ordered<T>(s: seq<T>, le: (T, T) -> bool) {
    forall i, j :: 0 <= i < j < |s| ==> le(s[i], s[j])
  }

  lemma {:induction false} InsertPermutes<T>(x: T, s: seq<T>, le: (T, T) -> bool)
    ensures multiset(InsertBy(x, s, le)) == multiset(s) + multiset{x}
  {
    if s != [] {
      assert s == [s[0]] + s[1..];
      if !le(x, s[0]) {
        InsertPermutes(x, s[1..], le);
      }
    }
  }

  lemma {:induction false} InsertOrders<T(!new)>(x: T, s: seq<T>, le: (T, T) -> bool)
    requires TotalPreorder(le) && Ordered(s, le)
    ensures Ordered(InsertBy(x, s, le), le)
  {
    if s != [] && !le(x, s[0]) {
      InsertOrders(x, s[1..], le);
      InsertPermutes(x, s[1..], le);
      var rest := InsertBy(x, s[1..], le);
      forall y | y in rest ensures le(s[0], y) {
        assert y in multiset(rest);
        assert y == x || y in s[1..];
      }
    } else if s != [] {
      forall y | y in s ensures le(x, y) {
        assert le(s[0], y) by { var k :| 0 <= k < |s| && s[k] == y; }
      }
    }
  }

  /** Sorting permutes its input and orders it. */
  lemma {:induction false} SortByCorrect<T(!new)>(s: seq<T>, le: (T, T) -> bool)
    ensures multiset(SortBy(s, le)) == multiset(s)
    ensures |SortBy(s, le)| == |s|
    ensures forall x :: x in SortBy(s, le) <==> x in s
    ensures TotalPreorder(le) ==> Ordered(SortBy(s, le), le)
  {
    if s != [] {
      assert s == [s[0]] + s[1..];
      SortByCorrect(s[1..], le);
      InsertPermutes(s[0], SortBy(s[1..], le), le);
      if TotalPreorder(le) { InsertOrders(s[0], SortBy(s[1..], le), le); }
    }
    var r := SortBy(s, le);
    assert |multiset(r)| == |r| && |multiset(s)| == |s|;
    forall x ensures x in r <==> x in s {
      assert x in r <==> x in multiset(r);
      assert x in s <==> x in multiset(s);
    }
  }

  /** In order by `le`, ties in order by `ties`. */
  function ThenBy<T(!new)>(le: (T, T) -> bool, ties: (T, T) -> bool): (T, T) -> bool {
    (a, b) => le(a, b) && (le(b, a) ==> ties(a, b))
  }

  lemma {:induction false} InsertIsStable<T(!new)>(x: T, s: seq<T>, le: (T, T) -> bool, ties: (T, T) -> bool)
    requires TotalPreorder(le) && Ordered(s, ThenBy(le, ties)) && forall y :: y in s ==> ties(x, y)
    ensures Ordered(InsertBy(x, s, le), ThenBy(le, ties))
  {
    if s != [] && !le(x, s[0]) {
      InsertIsStable(x, s[1..], le, ties);
      InsertPermutes(x, s[1..], le);
      var rest := InsertBy(x, s[1..], le);
      forall y | y in rest ensures ThenBy(le, ties)(s[0], y) {
        assert y in multiset(rest);
        assert y == x || y in s[1..];
      }
    } else if s != [] {
      forall y | y in s ensures ThenBy(le, ties)(x, y) {
        var k :| 0 <= k < |s| && s[k] == y;
        assert k > 0 ==> ThenBy(le, ties)(s[0], y);
      }
    }
  }

  /** Sorting again by another key keeps the earlier order among equal keys. */
  lemma {:induction false} SortIsStable<T(!new)>(s: seq<T>, le: (T, T) -> bool, ties: (T, T) -> bool)
    requires TotalPreorder(le) && Ordered(s, ties)
    ensures Ordered(SortBy(s, le), ThenBy(le, ties))
  {
    if s != [] {
      SortIsStable(s[1..], le, ties);
      SortByCorrect(s[1..], le);
      InsertIsStable(s[0], SortBy(s[1..], le), le, ties);
    }
  }

  /** Sorting a list that is in order leaves it as it is. */
  lemma {:induction false} SortedStays<T(!new)>(s: seq<T>, le: (T, T) -> bool)
    requires Ordered(s, le)
    ensures SortBy(s, le) == s
  {
    if s != [] {
      assert Ordered(s[1..], le);
      SortedStays(s[1..], le);
      assert s == [s[0]] + s[1..];
      if |s| > 1 {
        assert s[1..][0] == s[1];
      }
    }
  }

  ghost predicate Strict<T(!new)>(s: seq<T>, le: (T, T) -> bool) {
    forall x, y :: x in s && y in s && le(x, y) && le(y, x) ==> x == y
  }

  /** When no two different elements tie, the sorted list depends only on the elements. */
  lemma {:induction false} OrderedUnique<T(!new)>(a: seq<T>, b: seq<T>, le: (T, T) -> bool)
    requires multiset(a) == multiset(b) && Ordered(a, le) && Ordered(b, le) && Strict(a, le)
    requires forall x :: le(x, x)
    ensures a == b
  {
    assert |a| == |multiset(a)| && |b| == |multiset(b)|;
    if a != [] {
      HeadsMeet(a, b, le);
      TailsMeet(a, b);
      forall u, v | u in a[1..] && v in a[1..] && le(u, v) && le(v, u) ensures u == v {
        assert u in a && v in a;
      }
      OrderedUnique(a[1..], b[1..], le);
      assert a == [a[0]] + a[1..] && b == [b[0]] + b[1..];
    }
  }

  lemma HeadsMeet<T(!new)>(a: seq<T>, b: seq<T>, le: (T, T) -> bool)
    requires multiset(a) == multiset(b) && Ordered(a, le) && Ordered(b, le) && Strict(a, le) && a != [] && b != []
    requires forall x :: le(x, x)
    ensures a[0] == b[0]
  {
    assert a[0] in multiset(b) && b[0] in multiset(a);
    var i :| 0 <= i < |b| && b[i] == a[0];
    var j :| 0 <= j < |a| && a[j] == b[0];
    assert le(b[0], b[i]) && le(a[0], a[j]);
  }

  lemma TailsMeet<T>(a: seq<T>, b: seq<T>)
    requires multiset(a) == multiset(b) && a != [] && b != [] && a[0] == b[0]
    ensures multiset(a[1..]) == multiset(b[1..])
  {
    assert a == [a[0]] + a[1..] && b == [b[0]] + b[1..];
    assert multiset(a[1..]) == multiset(a) - multiset{a[0]};
    assert multiset(b[1..]) == multiset(b) - multiset{b[0]};
  }

  lemma SortUnique<T(!new)>(a: seq<T>, b: seq<T>, le: (T, T) -> bool)
    requires multiset(a) == multiset(b) && TotalPreorder(le) && Strict(a, le)
    ensures SortBy(a, le) == SortBy(b, le)
  {
    SortByCorrect(a, le);
    SortByCorrect(b, le);
    OrderedUnique(SortBy(a, le), SortBy(b, le), le);
  }
}
