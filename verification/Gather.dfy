/** Sums of multisets over a sequence: what the entries of a queue or a table stand for, taken together. */
module Gathering {

  function Gather<T, U(==)>(s: seq<T>, f: T -> multiset<U>): multiset<U> {
    if s == [] then multiset{} else f(s[0]) + Gather(s[1..], f)
  }

  lemma {:induction false} GatherConcat<T, U>(a: seq<T>, b: seq<T>, f: T -> multiset<U>)
    ensures Gather(a + b, f) == Gather(a, f) + Gather(b, f)
  {
    if a == [] {
      assert a + b == b;
    } else {
      assert (a + b)[1..] == a[1..] + b;
      GatherConcat(a[1..], b, f);
    }
  }

  lemma GatherOne<T, U>(x: T, f: T -> multiset<U>)
    ensures Gather([x], f) == f(x)
  {
    assert [x][1..] == [];
  }

  lemma GatherAppend<T, U>(s: seq<T>, x: T, f: T -> multiset<U>)
    ensures Gather(s + [x], f) == Gather(s, f) + f(x)
  {
    GatherConcat(s, [x], f);
    GatherOne(x, f);
  }

  lemma GatherRemove<T, U>(s: seq<T>, i: nat, f: T -> multiset<U>)
    requires i < |s|
    ensures Gather(s, f) == Gather(s[..i] + s[i + 1..], f) + f(s[i])
  {
    assert s == s[..i] + ([s[i]] + s[i + 1..]);
    GatherConcat(s[..i], [s[i]] + s[i + 1..], f);
    GatherConcat([s[i]], s[i + 1..], f);
    GatherOne(s[i], f);
    GatherConcat(s[..i], s[i + 1..], f);
  }

  lemma GatherUpdate<T, U>(s: seq<T>, i: nat, x: T, f: T -> multiset<U>)
    requires i < |s|
    ensures Gather(s[i := x], f) + f(s[i]) == Gather(s, f) + f(x)
  {
    GatherRemove(s, i, f);
    GatherRemove(s[i := x], i, f);
    assert s[i := x][..i] + s[i := x][i + 1..] == s[..i] + s[i + 1..];
  }

  lemma CancelSum<U>(a: multiset<U>, b: multiset<U>, x: multiset<U>)
    requires a + x == b + x
    ensures a == b
  {
    assert a == (a + x) - x == (b + x) - x == b;
  }

  lemma Regroup<U>(a: multiset<U>, b: multiset<U>, c: multiset<U>, a': multiset<U>, c': multiset<U>,
                   x: multiset<U>, y: multiset<U>)
    requires a' == a + x && c' + y == c
    ensures a' + b + c' + y == a + b + c + x
  {
  }

  /** A trade inside a part is a trade inside the whole. */
  lemma Balance<U(!new)>(a: multiset<U>, a': multiset<U>, c: multiset<U>, c': multiset<U>, x: multiset<U>, y: multiset<U>)
    requires a' + c == a + c' && c' + x == c + y
    ensures a' + x == a + y
  {
    forall e ensures (a' + x)[e] == (a + y)[e] {
      assert (a' + c)[e] == (a + c')[e] && (c' + x)[e] == (c + y)[e];
    }
  }

  /** An entry's share is part of the whole. */
  lemma GatherHas<T, U>(s: seq<T>, i: nat, f: T -> multiset<U>)
    requires i < |s|
    ensures f(s[i]) <= Gather(s, f)
  {
    GatherRemove(s, i, f);
  }

  lemma {:induction false} GatherFrom<T, U>(s: seq<T>, u: U, f: T -> multiset<U>) returns (i: nat)
    requires u in Gather(s, f)
    ensures i < |s| && u in f(s[i])
  {
    if u in f(s[0]) {
      i := 0;
    } else {
      var j := GatherFrom(s[1..], u, f);
      i := j + 1;
    }
  }
}
