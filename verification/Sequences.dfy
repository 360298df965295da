/** Sequences without repetitions. */
module Sequences {

  predicate Distinct<T(==)>(s: seq<T>) {
    forall i, j | 0 <= i < j < |s| :: s[i] != s[j]
  }

  lemma {:induction false} OnceIsDistinct<T>(s: seq<T>)
    requires forall x | x in s :: multiset(s)[x] <= 1
    ensures Distinct(s)
  {
    if s != [] {
      var n := |s| - 1;
      assert s == s[..n] + [s[n]];
      forall x | x in s[..n]
        ensures multiset(s[..n])[x] <= 1
      {
        assert multiset(s)[x] == multiset(s[..n])[x] + multiset([s[n]])[x];
      }
      OnceIsDistinct(s[..n]);
      forall i | 0 <= i < n
        ensures s[i] != s[n]
      {
        assert s[i] in s[..n];
        assert multiset(s)[s[i]] == multiset(s[..n])[s[i]] + multiset([s[n]])[s[i]];
      }
    }
  }

  lemma DistinctAppend<T>(a: seq<T>, b: seq<T>)
    requires Distinct(a) && Distinct(b) && forall x | x in a :: x !in b
    ensures Distinct(a + b)
  {
    forall i, j | 0 <= i < j < |a + b|
      ensures (a + b)[i] != (a + b)[j]
    {
      if i < |a| <= j {
        assert a[i] in a && b[j - |a|] in b;
      }
    }
  }
}
