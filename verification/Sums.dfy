/** Sums of quantities. */
module Sums {
  function Sum(s: seq<real>): real {
    if s == [] then 0.0 else Sum(s[..|s| - 1]) + s[|s| - 1]
  }

  lemma {:induction false} SumPrefix(s: seq<real>, k: nat)
    requires k < |s|
    ensures Sum(s[..k + 1]) == Sum(s[..k]) + s[k]
  {
    assert s[..k + 1][..k] == s[..k];
  }

  ghost predicate NonNegative(s: seq<real>) {
    forall i :: 0 <= i < |s| ==> s[i] >= 0.0
  }

  /** A prefix of non-negative terms sums to at most the whole, and to at least any one of its terms. */
  lemma {:induction false} PrefixSumBounded(s: seq<real>, k: nat)
    requires NonNegative(s) && k <= |s|
    ensures 0.0 <= Sum(s[..k]) <= Sum(s)
    ensures forall i :: 0 <= i < k ==> s[i] <= Sum(s)
    decreases |s|
  {
    if s != [] {
      var n := |s| - 1;
      if k == |s| {
        PrefixSumBounded(s[..n], n);
        assert s[..n][..n] == s[..n] && s[..k] == s;
        forall i | 0 <= i < k
          ensures s[i] <= Sum(s)
        {
          assert i < n ==> s[..n][i] <= Sum(s[..n]);
        }
      } else {
        PrefixSumBounded(s[..n], k);
        assert s[..n][..k] == s[..k];
        forall i | 0 <= i < k
          ensures s[i] <= Sum(s)
        {
          assert s[..n][i] <= Sum(s[..n]);
        }
      }
    }
  }

  lemma {:induction false} SumConcat(a: seq<real>, b: seq<real>)
    ensures Sum(a + b) == Sum(a) + Sum(b)
    decreases |b|
  {
    if b == [] {
      assert a + b == a;
    } else {
      var n := |b| - 1;
      assert (a + b)[..|a + b| - 1] == a + b[..n];
      SumConcat(a, b[..n]);
    }
  }

  lemma SumOne(x: real)
    ensures Sum([x]) == x
  {
    assert [x][..0] == [];
  }

  lemma SumCons(s: seq<real>)
    requires s != []
    ensures Sum(s) == s[0] + Sum(s[1..])
  {
    assert s == [s[0]] + s[1..];
    SumConcat([s[0]], s[1..]);
    SumOne(s[0]);
  }
}
