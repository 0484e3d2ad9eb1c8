/** Reducing a failing case: candidates asked about in batches, verdicts cached by key. Whatever the batch, it takes the
    steps a search that asks about one candidate at a time and remembers nothing takes. */
module Reduce {
  datatype Option<T> = None | Some(value: T)

  type Size = (nat, nat)

  predicate Smaller(a: Size, b: Size) { a.0 < b.0 || (a.0 == b.0 && a.1 < b.1) }

  /** That is the order of the numbers the pairs are the digits of, in any base above the second digits. */
  lemma SmallerIs(a: Size, b: Size, base: nat)
    requires a.1 < base && b.1 < base
    ensures Smaller(a, b) <==> a.0 * base + a.1 < b.0 * base + b.1
  {
    if a.0 < b.0 {
      Whole(b.0 - a.0 - 1, base);
      assert b.0 * base == a.0 * base + base + (b.0 - a.0 - 1) * base;
    } else if b.0 < a.0 {
      Whole(a.0 - b.0 - 1, base);
      assert a.0 * base == b.0 * base + base + (a.0 - b.0 - 1) * base;
    }
  }

  lemma Whole(k: nat, base: nat)
    ensures k * base >= 0
  {
  }

  /** What a search goes by. `fails` is the verdict on a candidate, whatever it is asked about together with. */
  datatype Search<!C, !K> = Search(key: C -> K, size: C -> Size, typed: C -> bool, fails: C -> bool, candidates: C -> seq<C>)

  /** A candidate the search asks about. */
  predicate Asks<C, K>(s: Search<C, K>, from: C, c: C) { Smaller(s.size(c), s.size(from)) && s.typed(c) }

  /** The first candidate, of those from `from`, that is asked about and fails. */
  function First<C, K>(s: Search<C, K>, from: C, cs: seq<C>): Option<C>
    decreases |cs|
  {
    if cs == [] then None
    else if Asks(s, from, cs[0]) && s.fails(cs[0]) then Some(cs[0])
    else First(s, from, cs[1..])
  }

  /** The plain search: at most `steps` steps, each to the first candidate that fails. */
  function Plain<C, K>(s: Search<C, K>, start: C, steps: nat): C
    decreases steps
  {
    var next := First(s, start, s.candidates(start));
    if steps == 0 || next.None? then start else Plain(s, next.value, steps - 1)
  }

  function PlainTaken<C, K>(s: Search<C, K>, start: C, steps: nat): nat
    decreases steps
  {
    var next := First(s, start, s.candidates(start));
    if steps == 0 || next.None? then 0 else 1 + PlainTaken(s, next.value, steps - 1)
  }

  // ---- What the plain search reaches

  lemma {:induction false} FirstIs<C, K>(s: Search<C, K>, from: C, cs: seq<C>)
    ensures var r := First(s, from, cs);
      && (r.Some? ==> r.value in cs && Asks(s, from, r.value) && s.fails(r.value))
      && (r.None? ==> forall i :: 0 <= i < |cs| ==> !(Asks(s, from, cs[i]) && s.fails(cs[i])))
    decreases |cs|
  {
    if cs != [] {
      assert cs == [cs[0]] + cs[1..];
      FirstIs(s, from, cs[1..]);
      assert forall i :: 0 < i < |cs| ==> cs[i] == cs[1..][i - 1];
    }
  }

  lemma FirstNone<C, K>(s: Search<C, K>, from: C)
    ensures First(s, from, []) == None
  {
  }

  lemma {:induction false} FirstParts<C, K>(s: Search<C, K>, from: C, a: seq<C>, b: seq<C>)
    ensures First(s, from, a + b) == if First(s, from, a).Some? then First(s, from, a) else First(s, from, b)
    decreases |a|
  {
    if a == [] {
      assert a + b == b;
    } else {
      assert (a + b)[1..] == a[1..] + b;
      FirstParts(s, from, a[1..], b);
    }
  }

  /** Nothing smaller and well typed of the case fails. */
  ghost predicate Minimal<C, K>(s: Search<C, K>, c: C) {
    forall i :: 0 <= i < |s.candidates(c)| ==> !(Asks(s, c, s.candidates(c)[i]) && s.fails(s.candidates(c)[i]))
  }

  /** What is reached still fails, and is minimal when the search stopped short of its steps. */
  lemma {:induction false} Reaches<C, K>(s: Search<C, K>, c: C, steps: nat)
    ensures s.fails(c) ==> s.fails(Plain(s, c, steps))
    ensures PlainTaken(s, c, steps) <= steps
    ensures PlainTaken(s, c, steps) < steps ==> Minimal(s, Plain(s, c, steps))
    ensures PlainTaken(s, c, steps) == 0 ==> Plain(s, c, steps) == c
    ensures PlainTaken(s, c, steps) > 0 ==> Smaller(s.size(Plain(s, c, steps)), s.size(c))
    decreases steps
  {
    var next := First(s, c, s.candidates(c));
    FirstIs(s, c, s.candidates(c));
    if steps > 0 && next.Some? { Reaches(s, next.value, steps - 1); }
  }

  /** One step more goes on from where the steps before ended, strictly down. */
  lemma {:induction false} StepDown<C, K>(s: Search<C, K>, c: C, steps: nat)
    ensures var before, after := Plain(s, c, steps), Plain(s, c, steps + 1);
      (after == before && PlainTaken(s, c, steps + 1) == PlainTaken(s, c, steps)) ||
      (Smaller(s.size(after), s.size(before)) && PlainTaken(s, c, steps + 1) == PlainTaken(s, c, steps) + 1 == steps + 1 &&
       First(s, before, s.candidates(before)) == Some(after))
    decreases steps
  {
    var next := First(s, c, s.candidates(c));
    FirstIs(s, c, s.candidates(c));
    if steps > 0 && next.Some? { StepDown(s, next.value, steps - 1); }
    if next.Some? { assert Plain(s, next.value, 0) == next.value && PlainTaken(s, next.value, 0) == 0; }
  }

  // ---- The search in batches

  /** The verdict depends on nothing but the key. */
  ghost predicate KeyDecides<C(!new), K>(s: Search<C, K>) {
    forall c, d :: s.key(c) == s.key(d) ==> s.fails(c) == s.fails(d)
  }

  /** What is remembered is true. */
  ghost predicate Remembers<C(!new), K>(s: Search<C, K>, seen: map<K, bool>) {
    forall c :: s.key(c) in seen ==> seen[s.key(c)] == s.fails(c)
  }

  /** How many of a group nothing is remembered of. */
  function Unseen<C, K>(s: Search<C, K>, seen: map<K, bool>, group: seq<C>): nat
    decreases |group|
  {
    if group == [] then 0
    else Unseen(s, seen, group[..|group| - 1]) + if s.key(group[|group| - 1]) in seen then 0 else 1
  }

  class Reducer<C(!new), K(==)> {
    const s: Search<C, K>
    var seen: map<K, bool>
    var asked: nat

    constructor (s: Search<C, K>)
      ensures this.s == s && seen == map[] && asked == 0
    {
      this.s, seen, asked := s, map[], 0;
    }

    /** Those of the group not seen are asked about together. */
    method Ask(group: seq<C>)
      requires KeyDecides(s) && Remembers(s, seen)
      modifies this
      ensures Remembers(s, seen) && asked == old(asked) + Unseen(s, old(seen), group)
      ensures forall i :: 0 <= i < |group| ==> s.key(group[i]) in seen
      ensures forall k :: k in old(seen) ==> k in seen
    {
      var i := 0;
      var unasked: seq<C> := [];
      while i < |group|
        invariant i <= |group| && seen == old(seen) && |unasked| == Unseen(s, seen, group[..i])
        invariant forall k :: 0 <= k < i ==> s.key(group[k]) in seen || group[k] in unasked
      {
        assert group[..i + 1][..i] == group[..i];
        if s.key(group[i]) !in seen { unasked := unasked + [group[i]]; }
        i := i + 1;
      }
      assert group[..i] == group;
      asked := asked + |unasked|;
      i := 0;
      while i < |unasked|
        invariant i <= |unasked| && Remembers(s, seen) && asked == old(asked) + |unasked|
        invariant forall k :: k in old(seen) ==> k in seen
        invariant forall k :: 0 <= k < i ==> s.key(unasked[k]) in seen
      {
        seen := seen[s.key(unasked[i]) := s.fails(unasked[i])];
        i := i + 1;
      }
    }

    /** The first of the group that fails, all of it answered from what is then seen. */
    method Judge(group: seq<C>, ghost from: C) returns (found: Option<C>)
      requires KeyDecides(s) && Remembers(s, seen) && forall i :: 0 <= i < |group| ==> Asks(s, from, group[i])
      modifies this
      ensures Remembers(s, seen) && found == First(s, from, group)
      ensures asked == old(asked) + Unseen(s, old(seen), group) && forall k :: k in old(seen) ==> k in seen
    {
      Ask(group);
      var i := 0;
      assert group[0..] == group;
      while i < |group|
        invariant i <= |group| && First(s, from, group) == First(s, from, group[i..])
      {
        assert group[i..][1..] == group[i + 1..];
        if seen[s.key(group[i])] { return Some(group[i]); }
        i := i + 1;
      }
      found := None;
    }

    /** One step: the candidates in order, asked about `batch` at a time. */
    method Step(from: C, batch: int) returns (found: Option<C>)
      requires KeyDecides(s) && Remembers(s, seen)
      modifies this
      ensures Remembers(s, seen) && found == First(s, from, s.candidates(from))
    {
      hide First, Asks;
      var cs := s.candidates(from);
      var pending: seq<C>, i := [], 0;
      assert pending + cs[0..] == cs;
      while i < |cs|
        invariant i <= |cs| && Remembers(s, seen) && (forall k :: 0 <= k < |pending| ==> Asks(s, from, pending[k]))
        invariant First(s, from, cs) == First(s, from, pending + cs[i..])
      {
        var c := cs[i];
        var was := pending;
        assert cs[i..] == [c] + cs[i + 1..];
        if Asks(s, from, c) {
          pending := pending + [c];
          assert was + cs[i..] == pending + cs[i + 1..];
          if |pending| == batch {
            FirstParts(s, from, pending, cs[i + 1..]);
            found := Judge(pending, from);
            if found.Some? { return; }
            pending := [];
            assert pending + cs[i + 1..] == cs[i + 1..];
          }
        } else {
          Skips(s, from, pending, c, cs[i + 1..]);
          assert was + cs[i..] == pending + ([c] + cs[i + 1..]);
        }
        i := i + 1;
      }
      assert pending + cs[i..] == pending;
      if pending == [] {
        FirstNone(s, from);
        return None;
      }
      found := Judge(pending, from);
    }

    /** The case the search reaches, and how many steps it took: those of the plain search, for every batch. */
    method Run(start: C, batch: int, steps: nat) returns (result: C, taken: nat)
      requires KeyDecides(s) && Remembers(s, seen)
      modifies this
      ensures result == Plain(s, start, steps) && taken == PlainTaken(s, start, steps)
    {
      result, taken := start, 0;
      while taken < steps
        invariant taken <= steps && Remembers(s, seen)
        invariant Plain(s, start, steps) == Plain(s, result, steps - taken)
        invariant PlainTaken(s, start, steps) == taken + PlainTaken(s, result, steps - taken)
      {
        var found := Step(result, batch);
        if found.None? { return; }
        result, taken := found.value, taken + 1;
      }
    }
  }

  /** What is not asked about is nothing to the search. */
  lemma Skips<C, K>(s: Search<C, K>, from: C, a: seq<C>, c: C, b: seq<C>)
    requires !Asks(s, from, c)
    ensures First(s, from, a + ([c] + b)) == First(s, from, a + b)
  {
    FirstParts(s, from, a, [c] + b);
    FirstParts(s, from, a, b);
    assert ([c] + b)[1..] == b;
  }
}
