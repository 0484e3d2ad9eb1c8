/** The pigeonhole principle. */
module Pigeonhole {
  /** Different numbers below `n` are at most `n`. */
  lemma {:induction false} DistinctFits(s: seq<nat>, n: nat)
    requires forall a :: 0 <= a < |s| ==> s[a] < n
    requires forall a, b :: 0 <= a < b < |s| ==> s[a] != s[b]
    ensures |s| <= n
    decreases n
  {
    if s != [] {
      assert s[0] < n;
      if a :| 0 <= a < |s| && s[a] == n - 1 {
        DistinctFits(s[..a] + s[a + 1..], n - 1);
      } else {
        DistinctFits(s, n - 1);
      }
    }
  }

  /** Different members of a set are at most as many as it has. */
  lemma {:induction false} DistinctWithin<T>(s: seq<T>, all: set<T>)
    requires forall a :: 0 <= a < |s| ==> s[a] in all
    requires forall a, b :: 0 <= a < b < |s| ==> s[a] != s[b]
    ensures |s| <= |all|
    decreases |s|
  {
    if s != [] {
      assert s[0] in all;
      DistinctWithin(s[1..], all - {s[0]});
    }
  }
}
