/**
 * `Array.prototype.sort` with a comparator, which since ECMAScript 2019 is
 * stable: a stable insertion sort on sequences. The result is ordered by
 * the comparator and is a permutation of the input.
 */
module Sorting {

  /** `le` relates every pair one way or the other. */
  ghost predicate Total<T(!new)>(le: (T, T) -> bool) {
    forall a, b :: le(a, b) || le(b, a)
  }

  ghost predicate Transitive<T(!new)>(le: (T, T) -> bool) {
    forall a, b, c :: le(a, b) && le(b, c) ==> le(a, c)
  }

  /** Every element comes before or ties with every later one. */
  ghost predicate SortedBy<T>(s: seq<T>, le: (T, T) -> bool) {
    forall i, j :: 0 <= i < j < |s| ==> le(s[i], s[j])
  }

  /** Places `x` after the last element of `s` that is not above it. */
  function Insert<T>(x: T, s: seq<T>, le: (T, T) -> bool): (r: seq<T>)
    ensures |r| == |s| + 1
    ensures multiset(r) == multiset(s) + multiset{x}
    decreases |s|
  {
    if |s| == 0 then [x]
    else if le(s[|s| - 1], x) then
      assert s[..|s| - 1] + [s[|s| - 1]] == s;
      s + [x]
    else
      assert s[..|s| - 1] + [s[|s| - 1]] == s;
      Insert(x, s[..|s| - 1], le) + [s[|s| - 1]]
  }

  /** The sorted copy: each element in turn inserted into the sorted prefix before it. */
  function SortBy<T>(s: seq<T>, le: (T, T) -> bool): (r: seq<T>)
    ensures |r| == |s|
    ensures multiset(r) == multiset(s)
    decreases |s|
  {
    if |s| == 0 then []
    else
      assert s[..|s| - 1] + [s[|s| - 1]] == s;
      Insert(s[|s| - 1], SortBy(s[..|s| - 1], le), le)
  }

  lemma {:induction false} InsertSorted<T(!new)>(x: T, s: seq<T>, le: (T, T) -> bool)
    requires Total(le) && Transitive(le)
    requires SortedBy(s, le)
    ensures SortedBy(Insert(x, s, le), le)
    decreases |s|
  {
    if |s| > 0 {
      var last := s[|s| - 1];
      var init := s[..|s| - 1];
      if le(last, x) {
        assert forall i :: 0 <= i < |s| ==> le(s[i], last);
      } else {
        assert le(x, last);
        InsertSorted(x, init, le);
        var r0 := Insert(x, init, le);
        assert forall i :: 0 <= i < |r0| ==> r0[i] in multiset(init) + multiset{x};
        assert forall y :: y in init ==> le(y, last);
      }
    }
  }

  /** The sorted copy is ordered by the comparator. */
  lemma {:induction false} SortBySorted<T(!new)>(s: seq<T>, le: (T, T) -> bool)
    requires Total(le) && Transitive(le)
    ensures SortedBy(SortBy(s, le), le)
    decreases |s|
  {
    if |s| > 0 {
      SortBySorted(s[..|s| - 1], le);
      InsertSorted(s[|s| - 1], SortBy(s[..|s| - 1], le), le);
    }
  }

  /** An input already in order comes back unchanged, ties included. */
  lemma {:induction false} SortBySortedInput<T(!new)>(s: seq<T>, le: (T, T) -> bool)
    requires SortedBy(s, le)
    ensures SortBy(s, le) == s
    decreases |s|
  {
    if |s| > 0 {
      var init := s[..|s| - 1];
      SortBySortedInput(init, le);
      if |init| > 0 {
        assert le(init[|init| - 1], s[|s| - 1]);
      }
      assert init + [s[|s| - 1]] == s;
    }
  }
}
