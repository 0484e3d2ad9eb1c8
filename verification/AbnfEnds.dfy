/** Whether a derivation past the depth limit ends: not on every grammar, and on which. */
module AbnfEnds {
  import opened Abnf
  import opened AbnfShortest
  import opened AbnfLanguage
  import opened AbnfDerive
  import Pigeonhole

  /** Nothing of the term can fail but for want of an end: every range holds octets only, every rule is there. */
  predicate Whole(rules: Rules, t: Term)
    decreases t
  {
    match t
    case Range(lo, hi) => lo <= hi < 256
    case Ref(name) => name == CRLF || IsCore(name) || name in rules
    case Seq(items) => forall i :: 0 <= i < |items| ==> Whole(rules, items[i])
    case Alt(items) => items != [] && forall i :: 0 <= i < |items| ==> Whole(rules, items[i])
    case Rep(_, _, item) => Whole(rules, item)
    case Prose(_) => false
    case _ => true
  }

  ghost predicate WholeRules(rules: Rules) { forall n {:trigger rules[n]} :: n in rules ==> Whole(rules, rules[n]) }

  /** The rules a derivation of the term goes into past the depth. */
  function DeepRefs(t: Term, best: Lengths): seq<string>
    decreases t
  {
    match t
    case Ref(name) => if name == CRLF || IsCore(name) then [] else [name]
    case Seq(items) => AllDeepRefs(items, best)
    case Alt(items) =>
      var choice := Cheapest(items, best);
      if choice.Some? then DeepRefs(items[choice.value], best) else []
    case Rep(least, _, item) => if least == 0 then [] else DeepRefs(item, best)
    case _ => []
  }

  function AllDeepRefs(items: seq<Term>, best: Lengths): seq<string>
    decreases items
  {
    if items == [] then [] else DeepRefs(items[0], best) + AllDeepRefs(items[1..], best)
  }

  /** Those rules, and the ones they go into, nest at most `n` deep. */
  ghost predicate AllEnd(rules: Rules, best: Lengths, refs: seq<string>, n: nat)
    decreases n
  {
    forall i :: 0 <= i < |refs| ==>
      refs[i] in rules && n > 0 && AllEnd(rules, best, DeepRefs(rules[refs[i]], best), n - 1)
  }

  ghost predicate Ends(rules: Rules, best: Lengths, t: Term, n: nat) { AllEnd(rules, best, DeepRefs(t, best), n) }

  // ---- Costs are there

  lemma {:induction false} CostThere(rules: Rules, best: Lengths, t: Term)
    requires Whole(rules, t) && best.Keys == rules.Keys
    ensures Cost(t, best).Some?
    decreases t
  {
    match t {
      case Seq(items) => CostsThere(rules, best, items);
      case Alt(items) => CostsThere(rules, best, items);
      case Rep(_, _, item) => CostThere(rules, best, item);
      case _ =>
    }
  }

  lemma {:induction false} CostsThere(rules: Rules, best: Lengths, items: seq<Term>)
    requires (forall i :: 0 <= i < |items| ==> Whole(rules, items[i])) && best.Keys == rules.Keys
    ensures CostOfAll(items, best).Some? && (items != [] ==> LeastCost(items, best).Some?)
    decreases items
  {
    if items != [] {
      CostThere(rules, best, items[0]);
      CostsThere(rules, best, items[1..]);
    }
  }

  lemma {:induction false} CheapestThere(rules: Rules, best: Lengths, items: seq<Term>)
    requires items != [] && (forall i :: 0 <= i < |items| ==> Whole(rules, items[i])) && best.Keys == rules.Keys
    ensures Cheapest(items, best).Some?
    decreases items
  {
    CostThere(rules, best, items[0]);
    CostsThere(rules, best, items);
    if Cost(items[0], best) != LeastCost(items, best) { CheapestThere(rules, best, items[1..]); }
  }

  // ---- A derivation past the depth is there exactly when it ends

  lemma CoreOctets(name: string, i: nat)
    requires i < |Core(name)|
    ensures Core(name)[i].0 <= Core(name)[i].1 < 256
  {
  }

  lemma EndOne(rules: Rules, best: Lengths, name: string, n: nat)
    requires name in rules
    ensures AllEnd(rules, best, [name], n) <==> n > 0 && AllEnd(rules, best, DeepRefs(rules[name], best), n - 1)
  {
    assert [name][0] == name;
  }

  lemma EndParts(rules: Rules, best: Lengths, a: seq<string>, b: seq<string>, n: nat)
    ensures AllEnd(rules, best, a + b, n) <==> AllEnd(rules, best, a, n) && AllEnd(rules, best, b, n)
  {
    var c := a + b;
    assert forall i :: 0 <= i < |a| ==> c[i] == a[i];
    assert forall i :: 0 <= i < |b| ==> c[|a| + i] == b[i];
  }

  /** Past the depth a derivation that is there ends, on every grammar. */
  lemma {:induction false} DeriveEnds(rules: Rules, best: Lengths, rng: nat -> nat, t: Term, path: seq<nat>, depth: nat,
                                      at: nat, fuel: nat)
    requires depth > DEPTH && Derive(rules, best, rng, t, path, depth, map[], at, fuel).Some?
    ensures Ends(rules, best, t, fuel)
    decreases fuel, t, 1
  {
    match t {
      case Ref(name) =>
        if !IsCore(name) && name != CRLF {
          assert DeepRefs(t, best) == [name];
          EndOne(rules, best, name, fuel);
          DeriveEnds(rules, best, rng, rules[name], [], depth + 1, at, fuel - 1);
        }
      case Seq(items) => AllDerivedEnd(rules, best, rng, items, 0, path, depth, at, fuel);
      case Alt(items) =>
        var c := Cheapest(items, best).value;
        DeriveEnds(rules, best, rng, items[c], path + [c], depth, at, fuel);
      case Rep(least, most, item) =>
        if least > 0 {
          assert rng(at) % 1 == 0;
          DeriveEnds(rules, best, rng, item, path + [0], depth, at + 1, fuel);
        }
      case _ =>
    }
  }

  lemma {:induction false} AllDerivedEnd(rules: Rules, best: Lengths, rng: nat -> nat, items: seq<Term>, i: nat,
                                         path: seq<nat>, depth: nat, at: nat, fuel: nat)
    requires depth > DEPTH && DeriveAll(rules, best, rng, items, i, path, depth, map[], at, fuel).Some?
    ensures AllEnd(rules, best, AllDeepRefs(items, best), fuel)
    decreases fuel, items, 0
  {
    if items != [] {
      DeriveEnds(rules, best, rng, items[0], path + [i], depth, at, fuel);
      var first := Derive(rules, best, rng, items[0], path + [i], depth, map[], at, fuel);
      AllDerivedEnd(rules, best, rng, items[1..], i + 1, path, depth, first.value.1, fuel);
      EndParts(rules, best, DeepRefs(items[0], best), AllDeepRefs(items[1..], best), fuel);
    }
  }

  /** One that ends is there, whatever is drawn. */
  lemma {:induction false} EndsDerive(rules: Rules, best: Lengths, rng: nat -> nat, t: Term, path: seq<nat>, depth: nat,
                                      at: nat, fuel: nat)
    requires WholeRules(rules) && Whole(rules, t) && best.Keys == rules.Keys && depth > DEPTH
    requires Ends(rules, best, t, fuel)
    ensures Derive(rules, best, rng, t, path, depth, map[], at, fuel).Some?
    decreases fuel, t, 1
  {
    match t {
      case Ref(name) =>
        if IsCore(name) && name != CRLF {
          CoreOctets(name, rng(at) % |Core(name)|);
        } else if name != CRLF {
          assert DeepRefs(t, best) == [name];
          EndOne(rules, best, name, fuel);
          EndsDerive(rules, best, rng, rules[name], [], depth + 1, at, fuel - 1);
        }
      case Seq(items) => AllEndDerive(rules, best, rng, items, 0, path, depth, at, fuel);
      case Alt(items) =>
        CheapestThere(rules, best, items);
        var c := Cheapest(items, best).value;
        EndsDerive(rules, best, rng, items[c], path + [c], depth, at, fuel);
      case Rep(least, most, item) =>
        assert rng(at) % 1 == 0;
        EndsRepeat(rules, best, rng, item, least, path + [0], depth, at + 1, fuel);
      case _ =>
    }
  }

  lemma {:induction false} AllEndDerive(rules: Rules, best: Lengths, rng: nat -> nat, items: seq<Term>, i: nat,
                                        path: seq<nat>, depth: nat, at: nat, fuel: nat)
    requires WholeRules(rules) && (forall k :: 0 <= k < |items| ==> Whole(rules, items[k])) && best.Keys == rules.Keys
    requires depth > DEPTH && AllEnd(rules, best, AllDeepRefs(items, best), fuel)
    ensures DeriveAll(rules, best, rng, items, i, path, depth, map[], at, fuel).Some?
    decreases fuel, items, 0
  {
    if items != [] {
      EndParts(rules, best, DeepRefs(items[0], best), AllDeepRefs(items[1..], best), fuel);
      EndsDerive(rules, best, rng, items[0], path + [i], depth, at, fuel);
      var first := Derive(rules, best, rng, items[0], path + [i], depth, map[], at, fuel);
      AllEndDerive(rules, best, rng, items[1..], i + 1, path, depth, first.value.1, fuel);
    }
  }

  lemma {:induction false} EndsRepeat(rules: Rules, best: Lengths, rng: nat -> nat, item: Term, k: nat, path: seq<nat>,
                                      depth: nat, at: nat, fuel: nat)
    requires WholeRules(rules) && Whole(rules, item) && best.Keys == rules.Keys && depth > DEPTH
    requires k == 0 || Ends(rules, best, item, fuel)
    ensures DeriveTimes(rules, best, rng, item, k, path, depth, map[], at, fuel).Some?
    decreases fuel, item, 2, k
  {
    if k > 0 {
      EndsDerive(rules, best, rng, item, path, depth, at, fuel);
      var first := Derive(rules, best, rng, item, path, depth, map[], at, fuel);
      EndsRepeat(rules, best, rng, item, k - 1, path, depth, first.value.1, fuel);
    }
  }

  /** Past the depth a derivation is there exactly when it ends. */
  lemma DeepDerive(rules: Rules, best: Lengths, rng: nat -> nat, t: Term, path: seq<nat>, depth: nat, at: nat, fuel: nat)
    requires WholeRules(rules) && Whole(rules, t) && best.Keys == rules.Keys && depth > DEPTH
    ensures Derive(rules, best, rng, t, path, depth, map[], at, fuel).Some? <==> Ends(rules, best, t, fuel)
  {
    hide *;
    if Derive(rules, best, rng, t, path, depth, map[], at, fuel).Some? {
      DeriveEnds(rules, best, rng, t, path, depth, at, fuel);
    }
    if Ends(rules, best, t, fuel) { EndsDerive(rules, best, rng, t, path, depth, at, fuel); }
  }

  // ---- When every rule's does

  /** The rules can be ranked so that each goes only into lower ones. */
  ghost predicate Ranked(rules: Rules, best: Lengths, rank: map<string, nat>) {
    rank.Keys == rules.Keys &&
    forall n, i {:trigger DeepRefs(rules[n], best)[i]} :: n in rules && 0 <= i < |DeepRefs(rules[n], best)| ==>
      DeepRefs(rules[n], best)[i] in rules && rank[DeepRefs(rules[n], best)[i]] < rank[n]
  }

  ghost predicate RuleEnds(rules: Rules, best: Lengths, name: string)
    requires name in rules
  {
    exists n :: Ends(rules, best, rules[name], n)
  }

  lemma {:induction false} EndsMore(rules: Rules, best: Lengths, refs: seq<string>, n: nat, m: nat)
    requires AllEnd(rules, best, refs, n) && n <= m
    ensures AllEnd(rules, best, refs, m)
    decreases n
  {
    forall i | 0 <= i < |refs|
      ensures refs[i] in rules && m > 0 && AllEnd(rules, best, DeepRefs(rules[refs[i]], best), m - 1)
    {
      EndsMore(rules, best, DeepRefs(rules[refs[i]], best), n - 1, m - 1);
    }
  }

  /** The least depth that does, no more than `n`. */
  ghost function Needs(rules: Rules, best: Lengths, t: Term, n: nat): (k: nat)
    requires Ends(rules, best, t, n)
    ensures k <= n && Ends(rules, best, t, k) && (k > 0 ==> !Ends(rules, best, t, k - 1))
  {
    if n > 0 && Ends(rules, best, t, n - 1) then Needs(rules, best, t, n - 1) else n
  }

  ghost function Need(rules: Rules, best: Lengths, name: string): (k: nat)
    requires name in rules && RuleEnds(rules, best, name)
    ensures Ends(rules, best, rules[name], k) && (k > 0 ==> !Ends(rules, best, rules[name], k - 1))
  {
    var n :| Ends(rules, best, rules[name], n);
    Needs(rules, best, rules[name], n)
  }

  lemma RankEnds(rules: Rules, best: Lengths, rank: map<string, nat>, name: string)
    requires Ranked(rules, best, rank) && name in rules
    ensures Ends(rules, best, rules[name], rank[name])
    decreases rank[name]
  {
    hide DeepRefs;
    var refs := DeepRefs(rules[name], best);
    forall i | 0 <= i < |refs|
      ensures refs[i] in rules && rank[name] > 0 && AllEnd(rules, best, DeepRefs(rules[refs[i]], best), rank[name] - 1)
    {
      assert DeepRefs(rules[name], best)[i] in rules;
      RankEnds(rules, best, rank, refs[i]);
      EndsMore(rules, best, DeepRefs(rules[refs[i]], best), rank[refs[i]], rank[name] - 1);
    }
    assert AllEnd(rules, best, refs, rank[name]);
  }

  /** Past the depth limit every rule's derivation ends exactly when the rules can be ranked. */
  lemma EndIffRanked(rules: Rules, best: Lengths)
    ensures (forall name :: name in rules ==> RuleEnds(rules, best, name)) <==> exists rank :: Ranked(rules, best, rank)
  {
    if forall name :: name in rules ==> RuleEnds(rules, best, name) {
      var rank := map name | name in rules :: Need(rules, best, name);
      forall n, i | n in rules && 0 <= i < |DeepRefs(rules[n], best)|
        ensures DeepRefs(rules[n], best)[i] in rules && rank[DeepRefs(rules[n], best)[i]] < rank[n]
      {
        NeedLess(rules, best, n, i);
      }
      assert Ranked(rules, best, rank);
    }
    if rank :| Ranked(rules, best, rank) {
      forall name | name in rules ensures RuleEnds(rules, best, name) {
        RankEnds(rules, best, rank, name);
      }
    }
  }

  lemma NeedLess(rules: Rules, best: Lengths, n: string, i: nat)
    requires (forall name :: name in rules ==> RuleEnds(rules, best, name)) && n in rules
    requires i < |DeepRefs(rules[n], best)|
    ensures DeepRefs(rules[n], best)[i] in rules
    ensures Need(rules, best, DeepRefs(rules[n], best)[i]) < Need(rules, best, n)
  {
    var q, k := DeepRefs(rules[n], best)[i], Need(rules, best, n);
    assert Ends(rules, best, rules[n], k);
    assert Ends(rules, best, rules[q], k - 1);
    var m := Need(rules, best, q);
    if m >= k { EndsMore(rules, best, DeepRefs(rules[q], best), k - 1, m - 1); }
  }

  // ---- No rule leads back to itself

  /** Every rule the cheapest choices go into is there. */
  ghost predicate Known(rules: Rules, best: Lengths) {
    forall n, i {:trigger DeepRefs(rules[n], best)[i]} :: n in rules && 0 <= i < |DeepRefs(rules[n], best)| ==>
      DeepRefs(rules[n], best)[i] in rules
  }

  /** From rule to rule by cheapest choices. */
  ghost predicate Trail(rules: Rules, best: Lengths, p: seq<string>) {
    && (forall i :: 0 <= i < |p| ==> p[i] in rules)
    && (forall i :: 0 < i < |p| ==> p[i] in DeepRefs(rules[p[i - 1]], best))
  }

  /** A trail that comes back to the rule it started from. */
  ghost predicate Loop(rules: Rules, best: Lengths, p: seq<string>) {
    |p| > 1 && Trail(rules, best, p) && p[0] == p[|p| - 1]
  }

  lemma {:induction false} RankFalls(rules: Rules, best: Lengths, rank: map<string, nat>, p: seq<string>, i: nat)
    requires Ranked(rules, best, rank) && Trail(rules, best, p) && 0 < i < |p|
    ensures rank[p[i]] < rank[p[0]]
  {
    hide DeepRefs;
    var refs := DeepRefs(rules[p[i - 1]], best);
    assert p[i] in refs;
    var k :| 0 <= k < |refs| && refs[k] == p[i];
    assert DeepRefs(rules[p[i - 1]], best)[k] == p[i];
    if i > 1 { RankFalls(rules, best, rank, p, i - 1); }
  }

  /** A rule that does not end within `n` has a trail longer than that. */
  lemma {:induction false} LongTrail(rules: Rules, best: Lengths, name: string, n: nat) returns (p: seq<string>)
    requires Known(rules, best) && name in rules && !Ends(rules, best, rules[name], n)
    ensures Trail(rules, best, p) && |p| == n + 2 && p[0] == name
    decreases n
  {
    hide DeepRefs;
    var refs := DeepRefs(rules[name], best);
    var i :| 0 <= i < |refs| && !(refs[i] in rules && n > 0 && AllEnd(rules, best, DeepRefs(rules[refs[i]], best), n - 1));
    assert DeepRefs(rules[name], best)[i] in rules;
    var rest := [refs[i]];
    if n > 0 { rest := LongTrail(rules, best, refs[i], n - 1); }
    p := [name] + rest;
    forall k | 0 < k < |p| ensures p[k] in DeepRefs(rules[p[k - 1]], best) {
      assert p[k] == rest[k - 1];
      if k > 1 { assert p[k - 1] == rest[k - 2]; }
    }
  }

  /** A trail longer than there are rules has a loop in it. */
  lemma LoopInside(rules: Rules, best: Lengths, p: seq<string>)
    requires Trail(rules, best, p) && |p| > |rules|
    ensures exists q :: Loop(rules, best, q)
  {
    hide DeepRefs;
    if forall a, b :: 0 <= a < b < |p| ==> p[a] != p[b] {
      Pigeonhole.DistinctWithin(p, rules.Keys);
      assert false;
    }
    var a, b :| 0 <= a < b < |p| && p[a] == p[b];
    var q := p[a..b + 1];
    forall i | 0 < i < |q| ensures q[i] in DeepRefs(rules[q[i - 1]], best) {
      assert q[i] == p[a + i] && q[i - 1] == p[a + i - 1];
    }
    assert Loop(rules, best, q);
  }

  /** Past the depth limit every rule ends exactly when the cheapest choices of every rule go into rules that are there
      and those of no rule lead back to it. */
  lemma EndIffNoLoop(rules: Rules, best: Lengths)
    ensures (forall name :: name in rules ==> RuleEnds(rules, best, name)) <==>
            Known(rules, best) && !exists p :: Loop(rules, best, p)
  {
    hide DeepRefs, AllEnd;
    if forall name :: name in rules ==> RuleEnds(rules, best, name) {
      EndIffRanked(rules, best);
      var rank :| Ranked(rules, best, rank);
      if p :| Loop(rules, best, p) { RankFalls(rules, best, rank, p, |p| - 1); }
    }
    if Known(rules, best) && !exists p :: Loop(rules, best, p) {
      forall name | name in rules ensures RuleEnds(rules, best, name) {
        if !Ends(rules, best, rules[name], |rules|) {
          var p := LongTrail(rules, best, name, |rules|);
          LoopInside(rules, best, p);
        }
      }
    }
  }

  // ---- What that says of derivations

  /** With `fuel` nested rules, a derivation past the depth is there whatever is drawn. */
  ghost predicate Always(rules: Rules, best: Lengths, t: Term, fuel: nat) {
    forall rng: nat -> nat, path: seq<nat>, depth: nat, at: nat :: depth > DEPTH ==>
      Derive(rules, best, rng, t, path, depth, map[], at, fuel).Some?
  }

  /** However many rules may nest, none is there whatever is drawn. */
  ghost predicate Never(rules: Rules, best: Lengths, t: Term) {
    forall rng: nat -> nat, path: seq<nat>, depth: nat, at: nat, fuel: nat :: depth > DEPTH ==>
      Derive(rules, best, rng, t, path, depth, map[], at, fuel).None?
  }

  /** A rule past the depth always derives something or never does. */
  lemma EndsAlways(rules: Rules, best: Lengths, name: string)
    requires WholeRules(rules) && best.Keys == rules.Keys && name in rules
    ensures RuleEnds(rules, best, name) ==> exists fuel :: Always(rules, best, rules[name], fuel)
    ensures !RuleEnds(rules, best, name) ==> Never(rules, best, rules[name])
  {
    hide Derive, Ends, Whole;
    var t := rules[name];
    if n: nat :| Ends(rules, best, t, n) {
      forall rng: nat -> nat, path: seq<nat>, depth: nat, at: nat | depth > DEPTH
        ensures Derive(rules, best, rng, t, path, depth, map[], at, n).Some?
      {
        DeepDerive(rules, best, rng, t, path, depth, at, n);
      }
      assert Always(rules, best, t, n);
    } else {
      forall rng: nat -> nat, path: seq<nat>, depth: nat, at: nat, fuel: nat | depth > DEPTH
        ensures Derive(rules, best, rng, t, path, depth, map[], at, fuel).None?
      {
        DeepDerive(rules, best, rng, t, path, depth, at, fuel);
      }
    }
  }

  /** On a grammar nothing of which can fail: past the depth every rule derives something, whatever is drawn, exactly
      when the cheapest choices of no rule lead back to it; otherwise some rule never does. */
  lemma DerivesIffNoLoop(rules: Rules, best: Lengths)
    requires WholeRules(rules) && best.Keys == rules.Keys
    ensures (forall name :: name in rules ==> exists fuel :: Always(rules, best, rules[name], fuel)) <==>
            !exists p :: Loop(rules, best, p)
    ensures (exists p :: Loop(rules, best, p)) <==> exists name :: name in rules && Never(rules, best, rules[name])
  {
    hide Derive, Ends, Whole, Loop, DeepRefs;
    EndIffNoLoop(rules, best);
    WholeKnown(rules, best);
    forall name | name in rules
      ensures RuleEnds(rules, best, name) <==> exists fuel :: Always(rules, best, rules[name], fuel)
      ensures RuleEnds(rules, best, name) <==> !Never(rules, best, rules[name])
    {
      EndsAlways(rules, best, name);
      if fuel :| Always(rules, best, rules[name], fuel) {
        assert Derive(rules, best, x => 0, rules[name], [], DEPTH + 1, map[], 0, fuel).Some?;
      }
    }
  }

  lemma WholeKnown(rules: Rules, best: Lengths)
    requires WholeRules(rules)
    ensures Known(rules, best)
  {
    hide DeepRefs;
    forall n, i | n in rules && 0 <= i < |DeepRefs(rules[n], best)| ensures DeepRefs(rules[n], best)[i] in rules {
      RefsThere(rules, best, rules[n], i);
    }
  }

  lemma {:induction false} RefsThere(rules: Rules, best: Lengths, t: Term, i: nat)
    requires Whole(rules, t) && i < |DeepRefs(t, best)|
    ensures DeepRefs(t, best)[i] in rules
    decreases t
  {
    match t {
      case Seq(items) => AllRefsThere(rules, best, items, i);
      case Alt(items) => RefsThere(rules, best, items[Cheapest(items, best).value], i);
      case Rep(_, _, item) => RefsThere(rules, best, item, i);
      case _ =>
    }
  }

  lemma {:induction false} AllRefsThere(rules: Rules, best: Lengths, items: seq<Term>, i: nat)
    requires (forall k :: 0 <= k < |items| ==> Whole(rules, items[k])) && i < |AllDeepRefs(items, best)|
    ensures AllDeepRefs(items, best)[i] in rules
    decreases items
  {
    var n := |DeepRefs(items[0], best)|;
    if i < n { RefsThere(rules, best, items[0], i); } else { AllRefsThere(rules, best, items[1..], i - n); }
  }

  /** `a = a / %x07` */
  const ITSELF: Rules := map["a" := Alt([Ref("a"), Range(7, 7)])]

  function Zeros(i: nat): nat { 0 }

  /** Past the depth it never ends: both choices cost one, by what `shortest` gives for it, and the first is taken. So it
      does not, however deep rules may nest, started as the program starts with the first choice forced and drawn. */
  lemma NeverEnds(fuel: nat)
    ensures var best := map["a" := 1];
      && Normal(ITSELF["a"]) && Settled(ITSELF, best, 1) && Never(ITSELF, best, ITSELF["a"])
      && Derive(ITSELF, best, Zeros, ITSELF["a"], [], 0, map[[] := 0], 0, fuel).None?
  {
    hide Never;
    var items, best := [Ref("a"), Range(7, 7)], map["a" := 1];
    assert items[1..] == [Range(7, 7)] && ITSELF["a"] == Alt(items);
    assert After(ITSELF, 0) == Unknown(ITSELF);
    assert LeastOf(items, After(ITSELF, 0)) == 1 && LeastOf(items, best) == 1;
    assert After(ITSELF, 1) == best;
    ItselfNever(best);
    if fuel > 0 { ItselfDown(best, 1, 0, fuel - 1); }
    assert Derive(ITSELF, best, Zeros, Alt(items), [], 0, map[[] := 0], 0, fuel)
        == Derive(ITSELF, best, Zeros, Ref("a"), [0], 0, map[[] := 0], 0, fuel);
  }

  lemma ItselfNever(best: Lengths)
    requires best == map["a" := 1]
    ensures Never(ITSELF, best, ITSELF["a"])
  {
    hide Never;
    var items := [Ref("a"), Range(7, 7)];
    assert items[1..] == [Range(7, 7)] && ITSELF["a"] == Alt(items);
    assert LeastCost(items, best) == Some(1);
    assert Cheapest(items, best) == Some(0);
    assert DeepRefs(ITSELF["a"], best) == ["a"];
    assert WholeRules(ITSELF);
    SelfNever(ITSELF, best, "a");
  }

  lemma {:induction false} ItselfDown(best: Lengths, depth: nat, at: nat, fuel: nat)
    requires best == map["a" := 1]
    ensures Derive(ITSELF, best, Zeros, ITSELF["a"], [], depth, map[], at, fuel).None?
    decreases fuel
  {
    if depth > DEPTH {
      ItselfNever(best);
    } else {
      var items := [Ref("a"), Range(7, 7)];
      assert ITSELF["a"] == Alt(items);
      if fuel > 0 { ItselfDown(best, depth + 1, at + 1, fuel - 1); }
      assert Derive(ITSELF, best, Zeros, Alt(items), [], depth, map[], at, fuel)
          == Derive(ITSELF, best, Zeros, Ref("a"), [0], depth, map[], at + 1, fuel);
    }
  }

  /** A rule whose cheapest choice is itself never ends. */
  lemma SelfNever(rules: Rules, best: Lengths, name: string)
    requires WholeRules(rules) && best.Keys == rules.Keys && name in rules && DeepRefs(rules[name], best) == [name]
    ensures Never(rules, best, rules[name])
  {
    hide Derive, DeepRefs, Whole;
    forall n: nat ensures !Ends(rules, best, rules[name], n) { SelfEnds(rules, best, name, n); }
    EndsAlways(rules, best, name);
  }

  lemma {:induction false} SelfEnds(rules: Rules, best: Lengths, name: string, n: nat)
    requires name in rules && DeepRefs(rules[name], best) == [name]
    ensures !Ends(rules, best, rules[name], n)
  {
    hide DeepRefs;
    EndOne(rules, best, name, n);
    if n > 0 { SelfEnds(rules, best, name, n - 1); }
  }
}
