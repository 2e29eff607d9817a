/** Stable sorting by a comparison, as the runtime's `sort` does it. */
module Sorting {

  /** Before the first element it precedes, hence behind its equals. */
  function Insert<T>(x: T, sorted: seq<T>, precedes: (T, T) -> bool): seq<T> {
    if sorted == [] || precedes(x, sorted[0]) then [x] + sorted
    else [sorted[0]] + Insert(x, sorted[1..], precedes)
  }

  function Sort<T>(s: seq<T>, precedes: (T, T) -> bool): seq<T> {
    if s == [] then [] else Insert(s[|s| - 1], Sort(s[..|s| - 1], precedes), precedes)
  }

  ghost predicate Transitive<T(!new)>(precedes: (T, T) -> bool) {
    forall a, b, c :: precedes(a, b) && precedes(b, c) ==> precedes(a, c)
  }

  ghost predicate InOrder<T>(s: seq<T>, precedes: (T, T) -> bool) {
    forall i, k :: 0 <= i < k < |s| ==> !precedes(s[k], s[i])
  }

  lemma {:induction false} InsertAdds<T>(x: T, sorted: seq<T>, precedes: (T, T) -> bool)
    ensures multiset(Insert(x, sorted, precedes)) == multiset(sorted) + multiset{x}
  {
    if sorted != [] && !precedes(x, sorted[0]) {
      InsertAdds(x, sorted[1..], precedes);
      assert sorted == [sorted[0]] + sorted[1..];
    }
  }

  lemma {:induction false} InsertOrders<T(!new)>(x: T, sorted: seq<T>, precedes: (T, T) -> bool)
    requires Transitive(precedes) && InOrder(sorted, precedes)
    requires forall a, b :: precedes(a, b) ==> !precedes(b, a)
    ensures InOrder(Insert(x, sorted, precedes), precedes)
  {
    if sorted != [] && !precedes(x, sorted[0]) {
      InsertOrders(x, sorted[1..], precedes);
      InsertAdds(x, sorted[1..], precedes);
      var tail := Insert(x, sorted[1..], precedes);
      forall k | 0 <= k < |tail|
        ensures !precedes(tail[k], sorted[0])
      {
        assert tail[k] in multiset(tail);
        assert tail[k] == x || tail[k] in sorted[1..];
      }
    }
  }

  lemma {:induction false} SortPermutes<T>(s: seq<T>, precedes: (T, T) -> bool)
    ensures multiset(Sort(s, precedes)) == multiset(s)
    ensures forall x :: x in Sort(s, precedes) <==> x in s
  {
    if s != [] {
      var last, init := s[|s| - 1], s[..|s| - 1];
      assert s == init + [last];
      SortPermutes(init, precedes);
      InsertAdds(last, Sort(init, precedes), precedes);
    }
    assert forall x :: x in Sort(s, precedes) <==> x in multiset(Sort(s, precedes));
  }

  lemma {:induction false} SortOrders<T(!new)>(s: seq<T>, precedes: (T, T) -> bool)
    requires Transitive(precedes)
    requires forall a, b :: precedes(a, b) ==> !precedes(b, a)
    ensures InOrder(Sort(s, precedes), precedes)
  {
    if s != [] {
      SortOrders(s[..|s| - 1], precedes);
      InsertOrders(s[|s| - 1], Sort(s[..|s| - 1], precedes), precedes);
    }
  }

  // ---------------------------------------------------------------- pairwise facts survive

  ghost predicate Pairwise<T>(s: seq<T>, apart: (T, T) -> bool) {
    forall i, k :: 0 <= i < k < |s| ==> apart(s[i], s[k]) && apart(s[k], s[i])
  }

  /** `x` is apart from every element, both ways. */
  ghost predicate ApartFromAll<T>(x: T, s: seq<T>, apart: (T, T) -> bool) {
    forall i :: 0 <= i < |s| ==> apart(x, s[i]) && apart(s[i], x)
  }

  lemma PairwiseCons<T>(x: T, s: seq<T>, apart: (T, T) -> bool)
    requires ApartFromAll(x, s, apart) && Pairwise(s, apart)
    ensures Pairwise([x] + s, apart)
  {
    var t := [x] + s;
    assert forall i :: 0 < i < |t| ==> t[i] == s[i - 1];
  }

  lemma {:induction false} InsertKeepsApart<T>(x: T, y: T, sorted: seq<T>, precedes: (T, T) -> bool,
                                               apart: (T, T) -> bool)
    requires ApartFromAll(y, sorted, apart) && apart(x, y) && apart(y, x)
    ensures ApartFromAll(y, Insert(x, sorted, precedes), apart)
  {
    if sorted != [] && !precedes(x, sorted[0]) {
      assert ApartFromAll(y, sorted[1..], apart);
      InsertKeepsApart(x, y, sorted[1..], precedes, apart);
    }
  }

  lemma {:induction false} InsertKeepsPairwise<T>(x: T, sorted: seq<T>, precedes: (T, T) -> bool, apart: (T, T) -> bool)
    requires Pairwise(sorted, apart) && ApartFromAll(x, sorted, apart)
    ensures Pairwise(Insert(x, sorted, precedes), apart)
  {
    if sorted == [] || precedes(x, sorted[0]) {
      PairwiseCons(x, sorted, apart);
    } else {
      var first, rest := sorted[0], sorted[1..];
      assert ApartFromAll(x, rest, apart) && ApartFromAll(first, rest, apart) && apart(x, first) && apart(first, x);
      InsertKeepsPairwise(x, rest, precedes, apart);
      InsertKeepsApart(x, first, rest, precedes, apart);
      PairwiseCons(first, Insert(x, rest, precedes), apart);
    }
  }

  lemma {:induction false} SortKeepsApart<T>(x: T, s: seq<T>, precedes: (T, T) -> bool, apart: (T, T) -> bool)
    requires ApartFromAll(x, s, apart)
    ensures ApartFromAll(x, Sort(s, precedes), apart)
  {
    if s != [] {
      var last, init := s[|s| - 1], s[..|s| - 1];
      SortKeepsApart(x, init, precedes, apart);
      InsertKeepsApart(last, x, Sort(init, precedes), precedes, apart);
    }
  }

  lemma {:induction false} SortKeepsPairwise<T>(s: seq<T>, precedes: (T, T) -> bool, apart: (T, T) -> bool)
    requires Pairwise(s, apart)
    ensures Pairwise(Sort(s, precedes), apart)
  {
    if s != [] {
      var last, init := s[|s| - 1], s[..|s| - 1];
      SortKeepsPairwise(init, precedes, apart);
      assert ApartFromAll(last, init, apart);
      SortKeepsApart(last, init, precedes, apart);
      InsertKeepsPairwise(last, Sort(init, precedes), precedes, apart);
    }
  }
}
