/**
 * `Array.prototype.filter` and `map` over sequences, with what the listing
 * pages rely on: a filter keeps exactly the matching elements, in their
 * order.
 */
module Lists {

  /** `s.filter(p)`. */
  function Filter<T(!new)>(s: seq<T>, p: T -> bool): (r: seq<T>)
    ensures |r| <= |s|
    ensures forall i :: 0 <= i < |r| ==> p(r[i])
    ensures forall x :: x in r <==> x in s && p(x)
    decreases |s|
  {
    if |s| == 0 then []
    else
      var init := Filter(s[..|s| - 1], p);
      assert forall x :: x in s[..|s| - 1] ==> x in s;
      assert forall x :: x in s ==> x in s[..|s| - 1] || x == s[|s| - 1];
      if p(s[|s| - 1]) then init + [s[|s| - 1]] else init
  }

  /**
   * A filter keeps the order of what it keeps: filtering a concatenation
   * filters each part and concatenates the results.
   */
  lemma {:induction false} FilterConcat<T(!new)>(s: seq<T>, t: seq<T>, p: T -> bool)
    ensures Filter(s + t, p) == Filter(s, p) + Filter(t, p)
    decreases |t|
  {
    if |t| == 0 {
      assert s + t == s;
    } else {
      var u := t[..|t| - 1];
      assert (s + t)[..|s + t| - 1] == s + u;
      FilterConcat(s, u, p);
    }
  }

  /** Filtering twice by the same predicate is filtering once. */
  lemma {:induction false} FilterIdempotent<T(!new)>(s: seq<T>, p: T -> bool)
    ensures Filter(Filter(s, p), p) == Filter(s, p)
  {
    FilterAll(Filter(s, p), p);
  }

  /** A filter that keeps everything returns its input. */
  lemma {:induction false} FilterAll<T(!new)>(s: seq<T>, p: T -> bool)
    requires forall i :: 0 <= i < |s| ==> p(s[i])
    ensures Filter(s, p) == s
    decreases |s|
  {
    if |s| > 0 {
      FilterAll(s[..|s| - 1], p);
      assert s[..|s| - 1] + [s[|s| - 1]] == s;
    }
  }

  /** Two filters with the same verdict on every element agree. */
  lemma {:induction false} FilterSameVerdict<T(!new)>(s: seq<T>, p: T -> bool, q: T -> bool)
    requires forall i :: 0 <= i < |s| ==> p(s[i]) == q(s[i])
    ensures Filter(s, p) == Filter(s, q)
    decreases |s|
  {
    if |s| > 0 {
      FilterSameVerdict(s[..|s| - 1], p, q);
    }
  }

  /** `s.some(p)`. */
  predicate AnyOf<T>(s: seq<T>, p: T -> bool)
    decreases |s|
  {
    |s| > 0 && (AnyOf(s[..|s| - 1], p) || p(s[|s| - 1]))
  }

  /** `some` holds exactly when an element satisfies the predicate. */
  lemma {:induction false} AnyOfIff<T>(s: seq<T>, p: T -> bool)
    ensures AnyOf(s, p) <==> exists i :: 0 <= i < |s| && p(s[i])
    decreases |s|
  {
    if |s| > 0 {
      var init := s[..|s| - 1];
      AnyOfIff(init, p);
      assert forall i :: 0 <= i < |init| ==> init[i] == s[i];
    }
  }

  /**
   * What a `forEach` that pushes `f(n, x)` for the element `x` at 1-based
   * position `n` collects, in element order.
   */
  function Gather<T, U>(s: seq<T>, f: (nat, T) -> seq<U>): seq<U>
    decreases |s|
  {
    if |s| == 0 then [] else Gather(s[..|s| - 1], f) + f(|s|, s[|s| - 1])
  }

  lemma GatherStep<T, U>(s: seq<T>, i: nat, f: (nat, T) -> seq<U>)
    requires i < |s|
    ensures Gather(s[..i + 1], f) == Gather(s[..i], f) + f(i + 1, s[i])
  {
    assert s[..i + 1][..i] == s[..i];
  }

  /** Everything pushed for one element is in the collection. */
  lemma {:induction false} GatherIncludes<T, U>(s: seq<T>, i: nat, f: (nat, T) -> seq<U>)
    requires i < |s|
    ensures forall x :: x in f(i + 1, s[i]) ==> x in Gather(s, f)
    decreases |s|
  {
    var n := |s|;
    if i < n - 1 {
      GatherIncludes(s[..n - 1], i, f);
      assert s[..n - 1][i] == s[i];
    }
  }

  /** How many elements satisfy `p`. */
  function CountWhere<T>(s: seq<T>, p: T -> bool): (n: nat)
    ensures n <= |s|
    decreases |s|
  {
    if |s| == 0 then 0 else CountWhere(s[..|s| - 1], p) + (if p(s[|s| - 1]) then 1 else 0)
  }

  /** A filter keeps as many elements as satisfy its predicate. */
  lemma {:induction false} FilterLength<T(!new)>(s: seq<T>, p: T -> bool)
    ensures |Filter(s, p)| == CountWhere(s, p)
    decreases |s|
  {
    if |s| > 0 {
      FilterLength(s[..|s| - 1], p);
    }
  }

  /** The distinct elements of `s` in order of first appearance, as `[...new Set(s)]`. */
  function Distinct<T(==,!new)>(s: seq<T>): (r: seq<T>)
    ensures forall x :: x in r <==> x in s
    ensures NoDuplicates(r)
    decreases |s|
  {
    if |s| == 0 then []
    else
      var d := Distinct(s[..|s| - 1]);
      assert forall x :: x in s ==> x in s[..|s| - 1] || x == s[|s| - 1];
      if s[|s| - 1] in d then d else d + [s[|s| - 1]]
  }

  /** No element occurs twice. */
  predicate NoDuplicates<T(==)>(s: seq<T>) {
    forall i, j :: 0 <= i < j < |s| ==> s[i] != s[j]
  }

  lemma {:induction false} NoDuplicatesMultiplicity<T>(s: seq<T>, x: T)
    requires NoDuplicates(s)
    ensures multiset(s)[x] <= 1
    decreases |s|
  {
    if |s| > 0 {
      var init := s[..|s| - 1];
      assert s == init + [s[|s| - 1]];
      NoDuplicatesMultiplicity(init, x);
      if x == s[|s| - 1] {
        assert x !in init;
      }
    }
  }

  /** Reordering a sequence without duplicates gives one without duplicates. */
  lemma PermutationKeepsNoDuplicates<T>(s: seq<T>, r: seq<T>)
    requires multiset(r) == multiset(s) && NoDuplicates(s)
    ensures NoDuplicates(r)
  {
    forall i, j | 0 <= i < j < |r|
      ensures r[i] != r[j]
    {
      if r[i] == r[j] {
        var x := r[i];
        assert r == r[..j] + [r[j]] + r[j + 1..];
        assert x in r[..j];
        assert multiset(r)[x] >= 2;
        NoDuplicatesMultiplicity(s, x);
      }
    }
  }
}
