/** The language of a grammar, and exactly when the lengths `AbnfShortest` finds are the least of what is derived. */
module AbnfLanguage {
  import opened Abnf
  import opened AbnfShortest

  type word = seq<nat>

  function Codes(s: string): word { seq(|s|, i requires 0 <= i < |s| => s[i] as nat) }

  predicate IsAlpha(c: nat) { 65 <= c <= 90 || 97 <= c <= 122 }

  /** The other case of a letter. */
  function Flipped(c: nat): nat
    requires IsAlpha(c)
  {
    if c <= 90 then c + 32 else c - 32
  }

  /** A quoted string matches in either case of each letter. */
  predicate Matches(v: string, w: word) {
    |w| == |v| && forall i :: 0 <= i < |v| ==>
      w[i] == v[i] as nat || (IsAlpha(v[i] as nat) && w[i] == Flipped(v[i] as nat))
  }

  predicate InCore(name: string, c: nat) { exists i ::
    0 <= i < |Core(name)| && Core(name)[i].0 <= c <= Core(name)[i].1 }

  /** Whether `t` derives `w` with rules nested at most `n` deep. */
  ghost predicate In(rules: Rules, t: Term, w: word, n: nat)
    decreases n, t, 1
  {
    match t
    case Range(lo, hi) => |w| == 1 && lo <= w[0] <= hi
    case Text(v) => Matches(v, w)
    case Exact(v) => w == v
    case Ref(name) =>
      if name == CRLF then w == [13, 10]
      else if IsCore(name) then |w| == 1 && InCore(name, w[0])
      else name in rules && n > 0 && In(rules, rules[name], w, n - 1)
    case Seq(items) => InAll(rules, items, w, n)
    case Alt(items) => exists i :: 0 <= i < |items| && In(rules, items[i], w, n)
    case Rep(least, most, item) =>
      exists k: nat :: least <= k && (most.Some? ==> k <= most.value) && Repeats(rules, item, w, n, k)
    case Prose(_) => false
  }

  ghost predicate InAll(rules: Rules, items: seq<Term>, w: word, n: nat)
    decreases n, items, 0
  {
    if items == [] then w == []
    else exists c :: 0 <= c <= |w| && In(rules, items[0], w[..c], n) && InAll(rules, items[1..], w[c..], n)
  }

  /** `k` of them one after another. */
  ghost predicate Repeats(rules: Rules, item: Term, w: word, n: nat, k: nat)
    decreases n, item, 2, k
  {
    if k == 0 then w == []
    else exists c :: 0 <= c <= |w| && In(rules, item, w[..c], n) && Repeats(rules, item, w[c..], n, k - 1)
  }

  ghost predicate Derives(rules: Rules, t: Term, w: word) { exists n :: In(rules, t, w, n) }

  // ---- No derivation is shorter

  lemma {:induction false} NoShorter(rules: Rules, best: Lengths, t: Term, w: word, n: nat)
    requires Round(rules, best) == best && In(rules, t, w, n)
    ensures Min(INF, Length(t, best)) <= |w|
    decreases n, t, 1
  {
    match t {
      case Ref(name) =>
        if name != CRLF && !IsCore(name) {
          assert best[name] == Round(rules, best)[name] == Length(rules[name], best);
          NoShorter(rules, best, rules[name], w, n - 1);
        }
      case Seq(items) => SumNoLonger(rules, best, items, w, n);
      case Alt(items) =>
        var i :| 0 <= i < |items| && In(rules, items[i], w, n);
        NoShorter(rules, best, items[i], w, n);
        LeastIs(items, best, i);
      case Rep(least, most, item) =>
        var k: nat :| least <= k && (most.Some? ==> k <= most.value) && Repeats(rules, item, w, n, k);
        if least > 0 {
          RepeatsNoShorter(rules, best, item, w, n, k, least);
        }
      case _ =>
    }
  }

  lemma {:induction false} LeastIs(items: seq<Term>, best: Lengths, i: nat)
    requires i < |items|
    ensures LeastOf(items, best) <= Length(items[i], best)
  {
    if i > 0 {
      assert items[1..][i - 1] == items[i];
      LeastIs(items[1..], best, i - 1);
    }
  }

  lemma {:induction false} SumNoLonger(rules: Rules, best: Lengths, items: seq<Term>, w: word, n: nat)
    requires Round(rules, best) == best && InAll(rules, items, w, n)
    ensures Min(INF, SumOf(items, best)) <= |w|
    decreases n, items, 0
  {
    if items != [] {
      var c :| 0 <= c <= |w| && In(rules, items[0], w[..c], n) && InAll(rules, items[1..], w[c..], n);
      NoShorter(rules, best, items[0], w[..c], n);
      SumNoLonger(rules, best, items[1..], w[c..], n);
    }
  }

  lemma {:induction false} RepeatsNoShorter(rules: Rules, best: Lengths, item: Term, w: word, n: nat, k: nat,
                                            least: nat)
    requires Round(rules, best) == best && Repeats(rules, item, w, n, k) && least <= k
    ensures Min(INF, least * Length(item, best)) <= |w|
    decreases n, item, 2, k
  {
    hide Length, In;
    if least > 0 {
      var c :| 0 <= c <= |w| && In(rules, item, w[..c], n) && Repeats(rules, item, w[c..], n, k - 1);
      NoShorter(rules, best, item, w[..c], n);
      RepeatsNoShorter(rules, best, item, w[c..], n, k - 1, least - 1);
      TimesLess(least, Length(item, best));
    }
  }

  // ---- Whether one is as short

  /** `s` is `t` or is written in it. */
  ghost predicate Occurs(s: Term, t: Term)
    decreases t
  {
    s == t ||
    match t
    case Seq(items) => exists i :: 0 <= i < |items| && Occurs(s, items[i])
    case Alt(items) => exists i :: 0 <= i < |items| && Occurs(s, items[i])
    case Rep(_, _, item) => Occurs(s, item)
    case _ => false
  }

  ghost predicate Written(rules: Rules, s: Term) { exists n :: n in rules && Occurs(s, rules[n]) }

  predicate TooMany(t: Term) { t.Rep? && t.most.Some? && t.least > t.most.value }

  /** A range holds something, and a repetition of more than its most is not taken for one that derives anything. */
  predicate Fits(t: Term, best: Lengths) {
    (t.Range? ==> t.lo <= t.hi) && (TooMany(t) ==> Length(t, best) >= INF)
  }

  ghost predicate AllFit(t: Term, best: Lengths) { forall s :: Occurs(s, t) ==> Fits(s, best) }

  ghost predicate RulesFit(rules: Rules, best: Lengths) {
    forall n {:trigger rules[n]} :: n in rules ==> AllFit(rules[n], best)
  }

  /** `best` is where the rounds end. */
  ghost predicate Settled(rules: Rules, best: Lengths, k: nat) { best == After(rules, k) && Round(rules, best) == best }

  lemma PartsFit(t: Term, best: Lengths)
    requires AllFit(t, best)
    ensures Fits(t, best)
    ensures t.Seq? || t.Alt? ==> forall i :: 0 <= i < |t.items| ==> AllFit(t.items[i], best)
    ensures t.Rep? ==> AllFit(t.item, best)
  {
    assert Occurs(t, t);
    if t.Seq? || t.Alt? {
      forall i, s | 0 <= i < |t.items| && Occurs(s, t.items[i]) ensures Fits(s, best) { assert Occurs(s, t); }
    } else if t.Rep? {
      forall s | Occurs(s, t.item) ensures Fits(s, best) { assert Occurs(s, t); }
    }
  }

  lemma RuleFits(rules: Rules, best: Lengths)
    requires RulesFit(rules, best)
    ensures forall n :: n in rules ==> AllFit(rules[n], best)
  {
  }

  /** Later rounds only bring values down. */
  lemma {:induction false} AfterCloser(rules: Rules, j: nat)
    ensures AllCloser(After(rules, j), After(rules, j + 1))
  {
    if j == 0 { FirstCloser(rules); } else {
      AfterCloser(rules, j - 1);
      RoundCloser(rules, After(rules, j - 1), After(rules, j));
    }
  }

  lemma {:induction false} LengthComesDown(rules: Rules, t: Term, j: nat, k: nat)
    requires j <= k
    ensures Min(INF, Length(t, After(rules, k))) <= Min(INF, Length(t, After(rules, j)))
    decreases k - j
  {
    hide Length, After, AllCloser;
    if j < k {
      AfterCloser(rules, j);
      LengthCloser(t, After(rules, j), After(rules, j + 1));
      LengthComesDown(rules, t, j + 1, k);
    }
  }

  /** What `j` rounds find below the cap, a derivation `j` deep has. */
  lemma {:induction false} Achieved(rules: Rules, best: Lengths, k: nat, t: Term, j: nat) returns (w: word)
    requires Settled(rules, best, k) && j <= k && RulesFit(rules, best) && AllFit(t, best)
    requires Length(t, After(rules, j)) < INF
    ensures In(rules, t, w, j + 1) && |w| == Length(t, After(rules, j))
    decreases j, t, 1
  {
    hide Occurs, AllFit, RulesFit, Settled, After, In, Length;
    PartsFit(t, best);
    match t {
      case Ref(name) =>
        if name == CRLF || IsCore(name) {
          w := LeafAchieved(rules, t, After(rules, j), j);
        } else {
          RefParts(rules, name, j);
          RuleFits(rules, best);
          w := Achieved(rules, best, k, rules[name], j - 1);
          RefIn(rules, name, w, j);
        }
      case Seq(items) =>
        SeqParts(items, After(rules, j));
        w := AllAchieved(rules, best, k, items, j);
        SeqIn(rules, items, w, j);
      case Alt(items) =>
        AltParts(items, After(rules, j));
        var i := LeastAt(items, After(rules, j));
        w := Achieved(rules, best, k, items[i], j);
        AltIn(rules, items, i, w, j);
      case Rep(least, most, item) =>
        RepParts(t, After(rules, j));
        NotTooMany(rules, best, k, t, j);
        w := RepeatsAchieved(rules, best, k, item, j, least);
        RepIn(rules, t, w, j);
      case _ => w := LeafAchieved(rules, t, After(rules, j), j);
    }
  }

  lemma LeafAchieved(rules: Rules, t: Term, best: Lengths, j: nat) returns (w: word)
    requires !t.Seq? && !t.Alt? && !t.Rep? && (t.Ref? ==> t.name == CRLF || IsCore(t.name))
    requires (t.Range? ==> t.lo <= t.hi) && Length(t, best) < INF
    ensures In(rules, t, w, j + 1) && |w| == Length(t, best)
  {
    match t {
      case Range(lo, hi) => w := [lo];
      case Text(v) => w := Codes(v);
      case Exact(v) => w := v;
      case Ref(name) =>
        if name == CRLF {
          w := [13, 10];
        } else {
          assert Core(name)[0].0 <= Core(name)[0].0 <= Core(name)[0].1;
          w := [Core(name)[0].0];
        }
    }
  }

  lemma RefParts(rules: Rules, name: string, j: nat)
    requires name != CRLF && !IsCore(name) && Length(Ref(name), After(rules, j)) < INF
    ensures j > 0 && name in rules && Length(Ref(name), After(rules, j)) == Length(rules[name], After(rules, j - 1))
  {
    if j > 0 && name in rules { assert After(rules, j)[name] == Length(rules[name], After(rules, j - 1)); }
  }

  lemma RefIn(rules: Rules, name: string, w: word, j: nat)
    requires name != CRLF && !IsCore(name) && name in rules && In(rules, rules[name], w, j)
    ensures In(rules, Ref(name), w, j + 1)
  {
  }

  lemma SeqParts(items: seq<Term>, best: Lengths)
    requires Length(Seq(items), best) < INF
    ensures SumOf(items, best) == Length(Seq(items), best)
  {
  }

  lemma SeqIn(rules: Rules, items: seq<Term>, w: word, j: nat)
    requires InAll(rules, items, w, j + 1)
    ensures In(rules, Seq(items), w, j + 1)
  {
  }

  lemma AltParts(items: seq<Term>, best: Lengths)
    ensures LeastOf(items, best) == Length(Alt(items), best)
  {
  }

  lemma AltIn(rules: Rules, items: seq<Term>, i: nat, w: word, j: nat)
    requires i < |items| && In(rules, items[i], w, j + 1)
    ensures In(rules, Alt(items), w, j + 1)
  {
  }

  lemma RepParts(t: Term, best: Lengths)
    requires t.Rep? && Length(t, best) < INF
    ensures t.least * Length(t.item, best) == Length(t, best) || t.least == 0 == Length(t, best)
  {
  }

  lemma RepIn(rules: Rules, t: Term, w: word, j: nat)
    requires t.Rep? && !TooMany(t) && Repeats(rules, t.item, w, j + 1, t.least)
    ensures In(rules, t, w, j + 1)
  {
  }

  /** A repetition below the cap after some rounds is so in the end, and so asks for no more than its most. */
  lemma NotTooMany(rules: Rules, best: Lengths, k: nat, t: Term, j: nat)
    requires Settled(rules, best, k) && j <= k && Fits(t, best) && Length(t, After(rules, j)) < INF
    ensures !TooMany(t)
  {
    hide Length, After;
    LengthComesDown(rules, t, j, k);
  }

  lemma {:induction false} LeastAt(items: seq<Term>, best: Lengths) returns (i: nat)
    requires LeastOf(items, best) < INF
    ensures i < |items| && Length(items[i], best) == LeastOf(items, best)
    decreases items
  {
    i := 0;
    if Length(items[0], best) != LeastOf(items, best) {
      i := LeastAt(items[1..], best);
      assert items[1..][i] == items[i + 1];
      i := i + 1;
    }
  }

  lemma {:induction false} AllAchieved(rules: Rules, best: Lengths, k: nat, items: seq<Term>, j: nat) returns (w: word)
    requires Settled(rules, best, k) && j <= k && RulesFit(rules, best)
    requires (forall i :: 0 <= i < |items| ==> AllFit(items[i], best)) && SumOf(items, After(rules, j)) < INF
    ensures InAll(rules, items, w, j + 1) && |w| == SumOf(items, After(rules, j))
    decreases j, items, 0
  {
    hide AllFit, RulesFit, Settled, After, Length, In;
    w := [];
    if items != [] {
      var u := Achieved(rules, best, k, items[0], j);
      var v := AllAchieved(rules, best, k, items[1..], j);
      w := u + v;
      assert w[..|u|] == u && w[|u|..] == v;
    }
  }

  lemma {:induction false} RepeatsAchieved(rules: Rules, best: Lengths, k: nat, item: Term, j: nat, times: nat)
    returns (w: word)
    requires Settled(rules, best, k) && j <= k && RulesFit(rules, best) && AllFit(item, best)
    requires times > 0 ==> times * Length(item, After(rules, j)) < INF
    ensures Repeats(rules, item, w, j + 1, times) && |w| == times * Length(item, After(rules, j))
    decreases j, item, 2, times
  {
    hide AllFit, RulesFit, Settled, After, Length, In;
    w := [];
    if times > 0 {
      var l := Length(item, After(rules, j));
      TimesLess(times, l);
      var u := Achieved(rules, best, k, item, j);
      var v := RepeatsAchieved(rules, best, k, item, j, times - 1);
      w := u + v;
      assert w[..|u|] == u && w[|u|..] == v;
    }
  }

  lemma TimesLess(times: nat, l: nat)
    requires times > 0
    ensures times * l == l + (times - 1) * l && l <= times * l && (times - 1) * l <= times * l
  {
    assert times * l == l + (times - 1) * l;
  }

  // ---- Exactly when the values are the least lengths

  ghost predicate HasLength(rules: Rules, t: Term, l: nat) { exists w :: Derives(rules, t, w) && |w| == l }

  /** Below the cap the value of `t` is the least length of anything it derives; past it nothing shorter is derived. */
  ghost predicate IsExact(rules: Rules, best: Lengths, t: Term) {
    && (forall w :: Derives(rules, t, w) ==> Min(INF, Length(t, best)) <= |w|)
    && (Length(t, best) < INF ==> HasLength(rules, t, Length(t, best)))
  }

  lemma FitsExact(rules: Rules, best: Lengths, k: nat, t: Term)
    requires Settled(rules, best, k) && RulesFit(rules, best) && AllFit(t, best)
    ensures IsExact(rules, best, t)
  {
    hide AllFit, RulesFit, Length, After, In;
    forall w | Derives(rules, t, w) ensures Min(INF, Length(t, best)) <= |w| {
      var n :| In(rules, t, w, n);
      NoShorter(rules, best, t, w, n);
    }
    if Length(t, best) < INF {
      var w := Achieved(rules, best, k, t, k);
      assert Derives(rules, t, w);
    }
  }

  /** A range of nothing and a repetition of more than its most derive nothing, so no value below the cap is theirs. */
  lemma ExactFits(rules: Rules, best: Lengths, t: Term)
    requires IsExact(rules, best, t)
    ensures Fits(t, best)
  {
    if !Fits(t, best) {
      forall w ensures !Derives(rules, t, w) { DerivesNothing(rules, t, w); }
    }
  }

  lemma DerivesNothing(rules: Rules, t: Term, w: word)
    requires (t.Range? && t.lo > t.hi) || TooMany(t)
    ensures !Derives(rules, t, w)
  {
  }

  lemma OccursIn(s: Term, u: Term, t: Term)
    requires Occurs(s, u) && Occurs(u, t)
    ensures Occurs(s, t)
    decreases t
  {
    if u != t {
      if t.Seq? || t.Alt? {
        var i :| 0 <= i < |t.items| && Occurs(u, t.items[i]);
        OccursIn(s, u, t.items[i]);
      } else {
        OccursIn(s, u, t.item);
      }
    }
  }

  /** On every grammar: what the rounds end at is exact of every term written in it exactly when every range written
      holds something and every repetition of more than its most is past the cap. */
  lemma ExactIff(rules: Rules, best: Lengths, k: nat)
    requires Settled(rules, best, k)
    ensures (forall t :: Written(rules, t) ==> IsExact(rules, best, t)) <==>
            (forall t :: Written(rules, t) ==> Fits(t, best))
  {
    hide Occurs, IsExact, Fits;
    if forall t :: Written(rules, t) ==> IsExact(rules, best, t) {
      forall t | Written(rules, t) ensures Fits(t, best) { ExactFits(rules, best, t); }
    }
    if forall t :: Written(rules, t) ==> Fits(t, best) {
      forall n | n in rules ensures AllFit(rules[n], best) {
        forall s | Occurs(s, rules[n]) ensures Fits(s, best) { assert Written(rules, s); }
      }
      forall t | Written(rules, t) ensures IsExact(rules, best, t) {
        var n :| n in rules && Occurs(t, rules[n]);
        forall s | Occurs(s, t) ensures Fits(s, best) {
          OccursIn(s, t, rules[n]);
          assert Written(rules, s);
        }
        FitsExact(rules, best, k, t);
      }
    }
  }

  /** A term with no empty range and no repetition of more than its most. */
  ghost predicate Sound(t: Term) { forall s :: Occurs(s, t) ==> (s.Range? ==> s.lo <= s.hi) && !TooMany(s) }

  /** Of a grammar with neither, and of any term with neither, the values are exact. */
  lemma ShortestExact(rules: Rules, best: Lengths, k: nat, t: Term)
    requires Settled(rules, best, k) && Sound(t) && forall n {:trigger rules[n]} :: n in rules ==> Sound(rules[n])
    ensures IsExact(rules, best, t)
  {
    hide Occurs, IsExact;
    FitsExact(rules, best, k, t);
  }

  /** `a = %x05-03` derives nothing, and the rounds end with the length one for it. */
  lemma EmptyRange()
    ensures var rules := map["a" := Range(5, 3)];
      Normal(rules["a"]) && Settled(rules, map["a" := 1], 1) && forall w :: !Derives(rules, Ref("a"), w)
  {
    var rules := map["a" := Range(5, 3)];
    assert After(rules, 0) == Unknown(rules);
    assert After(rules, 1) == map["a" := 1];
    forall w, n: nat ensures !In(rules, Ref("a"), w, n) {
      if n > 0 { assert !In(rules, Range(5, 3), w, n - 1); }
    }
  }
}
