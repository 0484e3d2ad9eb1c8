/** Whether what is derived is in the language: not on every grammar, and on which. */
module AbnfInside {
  import opened Abnf
  import opened AbnfShortest
  import opened AbnfLanguage
  import opened AbnfDerive
  import opened AbnfEnds

  /** A repetition of more than its most whose item ends past the depth: there it is repeated all the same. */
  ghost predicate Overruns(rules: Rules, best: Lengths, t: Term) {
    TooMany(t) && exists n :: Ends(rules, best, t.item, n)
  }

  ghost predicate NoneOverruns(rules: Rules, best: Lengths, t: Term) {
    forall s :: Occurs(s, t) ==> !Overruns(rules, best, s)
  }

  ghost predicate NoRuleOverruns(rules: Rules, best: Lengths) {
    forall n {:trigger rules[n]} :: n in rules ==> NoneOverruns(rules, best, rules[n])
  }

  /** No repetition asks for more than its most. */
  ghost predicate Repeatable(t: Term) { forall s :: Occurs(s, t) ==> !TooMany(s) }

  /** Past the depth nothing is forced, as in the program, which forces a choice only in the term it starts from. */
  ghost predicate Starts(t: Term, depth: nat, forced: map<seq<nat>, nat>) {
    depth <= DEPTH || forced == map[] || Repeatable(t)
  }

  lemma PartsInside(rules: Rules, best: Lengths, t: Term, depth: nat, forced: map<seq<nat>, nat>)
    requires NoneOverruns(rules, best, t) && Starts(t, depth, forced)
    ensures !Overruns(rules, best, t) && (depth <= DEPTH || forced == map[] || !TooMany(t))
    ensures t.Seq? || t.Alt? ==> forall i :: 0 <= i < |t.items| ==>
      NoneOverruns(rules, best, t.items[i]) && Starts(t.items[i], depth, forced)
    ensures t.Rep? ==> NoneOverruns(rules, best, t.item) && Starts(t.item, depth, forced)
  {
    hide Overruns, TooMany;
    assert Occurs(t, t);
    if t.Seq? || t.Alt? {
      forall i, s | 0 <= i < |t.items| && Occurs(s, t.items[i]) ensures Occurs(s, t) { }
    } else if t.Rep? {
      forall s | Occurs(s, t.item) ensures Occurs(s, t) { }
    }
  }

  lemma RuleInside(rules: Rules, best: Lengths, name: string)
    requires NoRuleOverruns(rules, best) && name in rules
    ensures NoneOverruns(rules, best, rules[name])
  {
  }

  lemma {:induction false} TextIn(v: string, rng: nat -> nat, at: nat)
    ensures Matches(v, DeriveText(v, rng, at).0)
  {
    if v != [] {
      TextIn(v[1..], rng, if IsAlpha(v[0] as nat) then at + 1 else at);
      var w := DeriveText(v, rng, at).0;
      assert forall i :: 0 < i < |v| ==> v[i] == v[1..][i - 1] && w[i] == w[1..][i - 1];
    }
  }

  // ---- Inside where nothing overruns

  /** Whatever is drawn and forced, what is derived is in the language of the term, on every grammar in which no
      repetition overruns. */
  lemma {:induction false} DeriveInside(rules: Rules, best: Lengths, rng: nat -> nat, t: Term, path: seq<nat>,
                                        depth: nat, forced: map<seq<nat>, nat>, at: nat, fuel: nat)
    requires NoRuleOverruns(rules, best) && NoneOverruns(rules, best, t) && Starts(t, depth, forced)
    requires Derive(rules, best, rng, t, path, depth, forced, at, fuel).Some?
    ensures In(rules, t, Derive(rules, best, rng, t, path, depth, forced, at, fuel).value.0, fuel)
    decreases fuel, t, 1
  {
    hide NoRuleOverruns, NoneOverruns, Starts, Overruns;
    PartsInside(rules, best, t, depth, forced);
    match t {
      case Text(v) => TextIn(v, rng, at);
      case Ref(name) =>
        if name != CRLF && !IsCore(name) {
          RuleInside(rules, best, name);
          StartsFree(rules[name], depth + 1);
          DeriveInside(rules, best, rng, rules[name], [], depth + 1, map[], at, fuel - 1);
        }
      case Seq(items) => AllInside(rules, best, rng, items, 0, path, depth, forced, at, fuel);
      case Alt(items) =>
        var choice := if path in forced then Some(forced[path])
                      else if depth > DEPTH then Cheapest(items, best)
                      else Some(rng(at) % |items|);
        var drew := if path !in forced && depth <= DEPTH then at + 1 else at;
        DeriveInside(rules, best, rng, items[choice.value], path + [choice.value], depth, forced, drew, fuel);
      case Rep(least, most, item) =>
        var top := if depth > DEPTH then least else if most.None? then least + 3 else Min(most.value, least + 3);
        RepeatEnds(rules, best, rng, t, path, depth, forced, at, fuel);
        TimesInside(rules, best, rng, item, least + rng(at) % (top - least + 1), path + [0], depth, forced, at + 1, fuel);
      case _ =>
    }
  }

  lemma StartsFree(t: Term, depth: nat)
    ensures Starts(t, depth, map[])
  {
  }

  /** A repetition of more than its most is derived only past the depth, where it overruns. */
  lemma RepeatEnds(rules: Rules, best: Lengths, rng: nat -> nat, t: Term, path: seq<nat>, depth: nat,
                   forced: map<seq<nat>, nat>, at: nat, fuel: nat)
    requires t.Rep? && Derive(rules, best, rng, t, path, depth, forced, at, fuel).Some?
    requires depth <= DEPTH || forced == map[] || !TooMany(t)
    ensures TooMany(t) ==> Overruns(rules, best, t)
  {
    hide Ends;
    if TooMany(t) {
      assert rng(at) % 1 == 0;
      var first := Derive(rules, best, rng, t.item, path + [0], depth, map[], at + 1, fuel);
      assert first.Some?;
      DeriveEnds(rules, best, rng, t.item, path + [0], depth, at + 1, fuel);
    }
  }

  lemma {:induction false} AllInside(rules: Rules, best: Lengths, rng: nat -> nat, items: seq<Term>, i: nat,
                                     path: seq<nat>, depth: nat, forced: map<seq<nat>, nat>, at: nat, fuel: nat)
    requires NoRuleOverruns(rules, best)
    requires forall k :: 0 <= k < |items| ==> NoneOverruns(rules, best, items[k]) && Starts(items[k], depth, forced)
    requires DeriveAll(rules, best, rng, items, i, path, depth, forced, at, fuel).Some?
    ensures InAll(rules, items, DeriveAll(rules, best, rng, items, i, path, depth, forced, at, fuel).value.0, fuel)
    decreases fuel, items, 0
  {
    hide NoRuleOverruns, NoneOverruns, Starts;
    if items != [] {
      var first := Derive(rules, best, rng, items[0], path + [i], depth, forced, at, fuel);
      DeriveInside(rules, best, rng, items[0], path + [i], depth, forced, at, fuel);
      AllInside(rules, best, rng, items[1..], i + 1, path, depth, forced, first.value.1, fuel);
      var rest := DeriveAll(rules, best, rng, items[1..], i + 1, path, depth, forced, first.value.1, fuel);
      var w := first.value.0 + rest.value.0;
      assert w[..|first.value.0|] == first.value.0 && w[|first.value.0|..] == rest.value.0;
    }
  }

  lemma {:induction false} TimesInside(rules: Rules, best: Lengths, rng: nat -> nat, item: Term, k: nat, path: seq<nat>,
                                       depth: nat, forced: map<seq<nat>, nat>, at: nat, fuel: nat)
    requires NoRuleOverruns(rules, best) && NoneOverruns(rules, best, item) && Starts(item, depth, forced)
    requires DeriveTimes(rules, best, rng, item, k, path, depth, forced, at, fuel).Some?
    ensures Repeats(rules, item, DeriveTimes(rules, best, rng, item, k, path, depth, forced, at, fuel).value.0, fuel, k)
    decreases fuel, item, 2, k
  {
    hide NoRuleOverruns, NoneOverruns, Starts;
    if k > 0 {
      var first := Derive(rules, best, rng, item, path, depth, forced, at, fuel);
      DeriveInside(rules, best, rng, item, path, depth, forced, at, fuel);
      TimesInside(rules, best, rng, item, k - 1, path, depth, forced, first.value.1, fuel);
      var rest := DeriveTimes(rules, best, rng, item, k - 1, path, depth, forced, first.value.1, fuel);
      var w := first.value.0 + rest.value.0;
      assert w[..|first.value.0|] == first.value.0 && w[|first.value.0|..] == rest.value.0;
    }
  }

  /** On a grammar that asks for no repetition of more than its most, whatever is forced at whatever depth. */
  lemma DeriveIn(rules: Rules, best: Lengths, rng: nat -> nat, t: Term, path: seq<nat>, depth: nat,
                 forced: map<seq<nat>, nat>, at: nat, fuel: nat)
    requires Repeatable(t) && forall n {:trigger rules[n]} :: n in rules ==> Repeatable(rules[n])
    requires Derive(rules, best, rng, t, path, depth, forced, at, fuel).Some?
    ensures In(rules, t, Derive(rules, best, rng, t, path, depth, forced, at, fuel).value.0, fuel)
  {
    hide Derive, In, Occurs, Ends, TooMany;
    DeriveInside(rules, best, rng, t, path, depth, forced, at, fuel);
  }

  // ---- Exactly where

  /** Where nothing else overruns, a repetition derived is in the language exactly when it asks for no more than its
      most. */
  lemma RepeatInIff(rules: Rules, best: Lengths, rng: nat -> nat, t: Term, path: seq<nat>, depth: nat,
                    forced: map<seq<nat>, nat>, at: nat, fuel: nat)
    requires t.Rep? && NoRuleOverruns(rules, best) && NoneOverruns(rules, best, t.item) && Starts(t.item, depth, forced)
    requires Derive(rules, best, rng, t, path, depth, forced, at, fuel).Some?
    ensures Derives(rules, t, Derive(rules, best, rng, t, path, depth, forced, at, fuel).value.0) <==> !TooMany(t)
  {
    hide NoRuleOverruns, NoneOverruns, Starts;
    var w := Derive(rules, best, rng, t, path, depth, forced, at, fuel).value.0;
    if TooMany(t) {
      DerivesNothing(rules, t, w);
    } else {
      var top := if depth > DEPTH then t.least else if t.most.None? then t.least + 3 else Min(t.most.value, t.least + 3);
      var k := t.least + rng(at) % (top - t.least + 1);
      TimesInside(rules, best, rng, t.item, k, path + [0], depth, forced, at + 1, fuel);
      assert In(rules, t, w, fuel);
    }
  }

  /** Started at any depth, whatever is drawn and, short of the limit, forced, what is derived of `t` is in its
      language. */
  ghost predicate Inside(rules: Rules, best: Lengths, t: Term) {
    forall rng: nat -> nat, path: seq<nat>, depth: nat, forced: map<seq<nat>, nat>, at: nat, fuel: nat ::
      (depth <= DEPTH || forced == map[]) && Derive(rules, best, rng, t, path, depth, forced, at, fuel).Some? ==>
        Derives(rules, t, Derive(rules, best, rng, t, path, depth, forced, at, fuel).value.0)
  }

  /** On every grammar nothing of which can fail: every string derived of every term written in it is in the language of
      that term exactly when no repetition written in it overruns. */
  lemma InsideIff(rules: Rules, best: Lengths)
    requires WholeRules(rules) && best.Keys == rules.Keys
    ensures (forall t :: Written(rules, t) ==> Inside(rules, best, t)) <==>
            (forall t :: Written(rules, t) ==> !Overruns(rules, best, t))
  {
    hide Inside, Overruns, Occurs, Whole;
    if forall t :: Written(rules, t) ==> Inside(rules, best, t) {
      forall t | Written(rules, t) ensures !Overruns(rules, best, t) {
        var n :| n in rules && Occurs(t, rules[n]);
        WholeParts(rules, t, rules[n]);
        if Overruns(rules, best, t) { OverrunOutside(rules, best, t); }
      }
    }
    if forall t :: Written(rules, t) ==> !Overruns(rules, best, t) {
      forall t | Written(rules, t) ensures Inside(rules, best, t) { WrittenInside(rules, best, t); }
    }
  }

  lemma {:induction false} WholeParts(rules: Rules, s: Term, t: Term)
    requires Whole(rules, t) && Occurs(s, t)
    ensures Whole(rules, s)
    decreases t
  {
    if s != t {
      if t.Seq? || t.Alt? {
        var i :| 0 <= i < |t.items| && Occurs(s, t.items[i]);
        WholeParts(rules, s, t.items[i]);
      } else {
        WholeParts(rules, s, t.item);
      }
    }
  }

  lemma OverrunOutside(rules: Rules, best: Lengths, t: Term)
    requires WholeRules(rules) && Whole(rules, t) && best.Keys == rules.Keys && Overruns(rules, best, t)
    ensures !Inside(rules, best, t)
  {
    hide Derive, In;
    var n: nat :| Ends(rules, best, t.item, n);
    assert Ends(rules, best, t, n);
    EndsDerive(rules, best, x => 0, t, [], DEPTH + 1, 0, n);
    var w := Derive(rules, best, x => 0, t, [], DEPTH + 1, map[], 0, n).value.0;
    DerivesNothing(rules, t, w);
  }

  lemma WrittenInside(rules: Rules, best: Lengths, t: Term)
    requires Written(rules, t) && forall s :: Written(rules, s) ==> !Overruns(rules, best, s)
    ensures NoRuleOverruns(rules, best) && NoneOverruns(rules, best, t) && Inside(rules, best, t)
  {
    hide Derive, In, Overruns, Occurs;
    forall n, s | n in rules && Occurs(s, rules[n]) ensures !Overruns(rules, best, s) { assert Written(rules, s); }
    var n :| n in rules && Occurs(t, rules[n]);
    forall s | Occurs(s, t) ensures !Overruns(rules, best, s) {
      OccursIn(s, t, rules[n]);
      assert Written(rules, s);
    }
    forall rng: nat -> nat, path: seq<nat>, depth: nat, forced: map<seq<nat>, nat>, at: nat, fuel: nat |
      (depth <= DEPTH || forced == map[]) && Derive(rules, best, rng, t, path, depth, forced, at, fuel).Some?
      ensures Derives(rules, t, Derive(rules, best, rng, t, path, depth, forced, at, fuel).value.0)
    {
      DeriveInside(rules, best, rng, t, path, depth, forced, at, fuel);
    }
  }

  // ---- A grammar where one is outside

  const SEVEN := Rep(1, Some(0), Range(7, 7))

  /** `a = 1*0%x07 / a` */
  const AGAIN: Rules := map["a" := Alt([SEVEN, Ref("a")])]

  function Ones(i: nat): nat { 1 }

  /** Started as the program starts, its choice forced to the second and ones drawn, it gives a string of one octet,
      though it derives nothing. */
  lemma Outside()
    ensures var best := map["a" := 1];
      && Normal(AGAIN["a"]) && Settled(AGAIN, best, 1)
      && var r := Derive(AGAIN, best, Ones, AGAIN["a"], [], 0, map[[] := 1], 0, DEPTH + 1);
      r.Some? && r.value.0 == [7] && forall w :: !Derives(AGAIN, AGAIN["a"], w)
  {
    var items, best := [SEVEN, Ref("a")], map["a" := 1];
    assert AGAIN["a"] == Alt(items);
    AgainLength();
    AgainDown(best, 1, 0, DEPTH);
    assert Derive(AGAIN, best, Ones, Alt(items), [], 0, map[[] := 1], 0, DEPTH + 1)
        == Derive(AGAIN, best, Ones, Ref("a"), [1], 0, map[[] := 1], 0, DEPTH + 1);
    forall w, n: nat ensures !In(AGAIN, AGAIN["a"], w, n) { AgainNothing(w, n); }
  }

  lemma AgainLength()
    ensures Settled(AGAIN, map["a" := 1], 1)
  {
    var items, best := [SEVEN, Ref("a")], map["a" := 1];
    assert items[1..] == [Ref("a")];
    assert After(AGAIN, 0) == Unknown(AGAIN);
    assert Length(SEVEN, best) == 1 && Length(SEVEN, After(AGAIN, 0)) == 1;
    assert LeastOf([Ref("a")], best) == 1 && LeastOf([Ref("a")], After(AGAIN, 0)) == INF;
    assert LeastOf(items, After(AGAIN, 0)) == 1;
    assert LeastOf(items, best) == 1;
    assert After(AGAIN, 1) == best;
  }

  /** Down to the depth the second is drawn; past it the first is the cheapest. */
  lemma {:induction false} AgainDown(best: Lengths, depth: nat, at: nat, fuel: nat)
    requires best == map["a" := 1] && depth <= DEPTH + 1 && depth + fuel == DEPTH + 1
    ensures var r := Derive(AGAIN, best, Ones, AGAIN["a"], [], depth, map[], at, fuel); r.Some? && r.value.0 == [7]
    decreases fuel
  {
    var items := [SEVEN, Ref("a")];
    assert AGAIN["a"] == Alt(items);
    if depth <= DEPTH {
      AgainDown(best, depth + 1, at + 1, fuel - 1);
      assert Derive(AGAIN, best, Ones, Ref("a"), [1], depth, map[], at + 1, fuel)
          == Derive(AGAIN, best, Ones, AGAIN["a"], [], depth + 1, map[], at + 1, fuel - 1);
    } else {
      assert items[1..] == [Ref("a")];
      assert Cost(SEVEN, best) == Some(1) && LeastCost([Ref("a")], best) == Some(1);
      assert Cheapest(items, best) == Some(0);
      SevenOnce(best, depth, at);
    }
  }

  lemma SevenOnce(best: Lengths, depth: nat, at: nat)
    requires depth > DEPTH
    ensures var r := Derive(AGAIN, best, Ones, SEVEN, [0], depth, map[], at, 0); r.Some? && r.value.0 == [7]
  {
    var first := Derive(AGAIN, best, Ones, Range(7, 7), [0] + [0], depth, map[], at + 1, 0);
    assert first.Some? && first.value.0 == [7];
    var rest := DeriveTimes(AGAIN, best, Ones, Range(7, 7), 0, [0] + [0], depth, map[], first.value.1, 0);
    assert rest.Some? && rest.value.0 == [] && [7] + rest.value.0 == [7];
    var once := DeriveTimes(AGAIN, best, Ones, Range(7, 7), 1, [0] + [0], depth, map[], at + 1, 0);
    assert once.Some? && once.value.0 == [7];
  }

  lemma {:induction false} AgainNothing(w: word, n: nat)
    ensures !In(AGAIN, AGAIN["a"], w, n)
  {
    var items := [SEVEN, Ref("a")];
    assert AGAIN["a"] == Alt(items);
    if n > 0 { AgainNothing(w, n - 1); }
    assert !In(AGAIN, Ref("a"), w, n);
    assert !In(AGAIN, SEVEN, w, n);
    assert forall i :: 0 <= i < |items| ==> items[i] == SEVEN || items[i] == Ref("a");
  }
}
