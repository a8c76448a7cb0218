/**
 * Counting by key, as the pages' `reduce` folds do:
 * `acc[k] = (acc[k] || 0) + 1` for every key in turn, starting from `{}`.
 */
module Counting {
  import opened Lists

  /** The value the fold reads for `k`: `acc[k] || 0`. */
  function Get(m: map<string, nat>, k: string): nat {
    if k in m then m[k] else 0
  }

  /**
   * The accumulator after folding over `keys`: the keys seen, each with the
   * number of times it occurs.
   */
  function Tally(keys: seq<string>): (m: map<string, nat>)
    ensures forall k :: k in m <==> k in keys
    ensures forall k :: Get(m, k) == multiset(keys)[k]
    decreases |keys|
  {
    if |keys| == 0 then map[]
    else
      var init := keys[..|keys| - 1];
      var k := keys[|keys| - 1];
      assert keys == init + [k];
      var m := Tally(init);
      m[k := Get(m, k) + 1]
  }

  /** The `reduce` loop: one increment per key, into a dictionary that starts empty. */
  method CountByKey(keys: seq<string>) returns (acc: map<string, nat>)
    ensures acc == Tally(keys)
  {
    acc := map[];
    var i := 0;
    while i < |keys|
      invariant 0 <= i <= |keys|
      invariant acc == Tally(keys[..i])
    {
      assert keys[..i + 1][..i] == keys[..i];
      acc := acc[keys[i] := Get(acc, keys[i]) + 1];
      i := i + 1;
    }
    assert keys[..i] == keys;
  }

  /** The sum of the counts of the keys in `ks`. */
  function SumOver(ks: seq<string>, m: map<string, nat>): nat
    decreases |ks|
  {
    if |ks| == 0 then 0 else SumOver(ks[..|ks| - 1], m) + Get(m, ks[|ks| - 1])
  }

  /** Adding one to a key that occurs once in `ks` adds one to the sum. */
  lemma {:induction false} SumOverIncrement(ks: seq<string>, m: map<string, nat>, k: string)
    requires NoDuplicates(ks)
    ensures SumOver(ks, m[k := Get(m, k) + 1]) == SumOver(ks, m) + (if k in ks then 1 else 0)
    decreases |ks|
  {
    if |ks| > 0 {
      var init := ks[..|ks| - 1];
      assert forall x :: x in init ==> x in ks;
      assert ks[|ks| - 1] in init ==> false;
      SumOverIncrement(init, m, k);
      assert k in ks <==> k in init || k == ks[|ks| - 1];
    }
  }

  /** The counts over all distinct keys add up to the number of keys. */
  lemma {:induction false} TallySum(keys: seq<string>)
    ensures SumOver(Distinct(keys), Tally(keys)) == |keys|
    decreases |keys|
  {
    if |keys| > 0 {
      var init := keys[..|keys| - 1];
      var k := keys[|keys| - 1];
      var m := Tally(init);
      var m' := m[k := Get(m, k) + 1];
      assert Tally(keys) == m';
      TallySum(init);
      var d := Distinct(init);
      SumOverIncrement(d, m, k);
      if k in d {
        assert Distinct(keys) == d;
      } else {
        assert Distinct(keys) == d + [k];
        assert (d + [k])[..|d|] == d;
        assert SumOver(d + [k], m') == SumOver(d, m') + 1;
      }
    }
  }
}
