/** How many of a sequence something holds of. */
module Counting {
  function Tally<T>(s: seq<T>, p: T -> bool): nat {
    if s == [] then 0 else (if p(s[0]) then 1 else 0) + Tally(s[1..], p)
  }

  lemma {:induction false} TallyParts<T>(a: seq<T>, b: seq<T>, p: T -> bool)
    ensures Tally(a + b, p) == Tally(a, p) + Tally(b, p)
  {
    if a == [] {
      assert a + b == b;
    } else {
      assert (a + b)[1..] == a[1..] + b;
      TallyParts(a[1..], b, p);
    }
  }

  lemma TallyOne<T>(x: T, p: T -> bool)
    ensures Tally([x], p) == if p(x) then 1 else 0
  {
    assert [x][1..] == [];
  }

  lemma TallyAppend<T>(s: seq<T>, x: T, p: T -> bool)
    ensures Tally(s + [x], p) == Tally(s, p) + if p(x) then 1 else 0
  {
    hide Tally;
    TallyParts(s, [x], p);
    TallyOne(x, p);
  }

  lemma TallyRemove<T>(s: seq<T>, k: nat, p: T -> bool)
    requires k < |s|
    ensures Tally(s, p) == Tally(s[..k] + s[k + 1..], p) + if p(s[k]) then 1 else 0
  {
    hide Tally;
    assert s == s[..k] + ([s[k]] + s[k + 1..]);
    TallyParts(s[..k], [s[k]] + s[k + 1..], p);
    TallyParts([s[k]], s[k + 1..], p);
    TallyOne(s[k], p);
    TallyParts(s[..k], s[k + 1..], p);
  }

  lemma TallyUpdate<T>(s: seq<T>, k: nat, x: T, p: T -> bool)
    requires k < |s|
    ensures Tally(s[k := x], p) + (if p(s[k]) then 1 else 0) == Tally(s, p) + if p(x) then 1 else 0
  {
    hide Tally;
    TallyRemove(s, k, p);
    TallyRemove(s[k := x], k, p);
    assert s[k := x][..k] + s[k := x][k + 1..] == s[..k] + s[k + 1..];
  }

  lemma {:induction false} TallyMost<T>(s: seq<T>, p: T -> bool)
    ensures Tally(s, p) <= |s|
  {
    if s != [] { TallyMost(s[1..], p); }
  }

  /** Fewer are counted by what holds of fewer. */
  lemma {:induction false} TallyLess<T>(s: seq<T>, p: T -> bool, q: T -> bool)
    requires forall i :: 0 <= i < |s| ==> (p(s[i]) ==> q(s[i]))
    ensures Tally(s, p) <= Tally(s, q)
  {
    if s != [] {
      assert forall i :: 0 <= i < |s| - 1 ==> s[1..][i] == s[i + 1];
      TallyLess(s[1..], p, q);
    }
  }

  lemma {:induction false} TallySplit<T>(s: seq<T>, p: T -> bool, q: T -> bool, r: T -> bool)
    requires forall i :: 0 <= i < |s| ==> (r(s[i]) <==> p(s[i]) || q(s[i])) && !(p(s[i]) && q(s[i]))
    ensures Tally(s, r) == Tally(s, p) + Tally(s, q)
  {
    if s != [] {
      assert forall i :: 0 <= i < |s| - 1 ==> s[1..][i] == s[i + 1];
      TallySplit(s[1..], p, q, r);
    }
  }

  lemma {:induction false} TallyHas<T>(s: seq<T>, i: nat, p: T -> bool)
    requires i < |s| && p(s[i])
    ensures Tally(s, p) > 0
  {
    if i > 0 { TallyHas(s[1..], i - 1, p); }
  }
}
