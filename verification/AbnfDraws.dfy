/** What is forced and what is drawn: a forced choice is made wherever its alternation is met, and every string of a term
    that nests and repeats no more than a derivation may is what some draws give. */
module AbnfDraws {
  import opened Abnf
  import opened AbnfShortest
  import opened AbnfLanguage
  import opened AbnfDerive
  import opened AbnfEnds
  import opened AbnfInside

  // ---- Forced

  /** A term with the forced choices made: each alternation at a forced place is the one item chosen. */
  function Narrow(t: Term, path: seq<nat>, forced: map<seq<nat>, nat>): Term
    decreases t, 1
  {
    match t
    case Seq(items) => Seq(NarrowAll(items, 0, path, forced))
    case Alt(items) =>
      if path in forced && forced[path] < |items| then Narrow(items[forced[path]], path + [forced[path]], forced)
      else Alt(NarrowAll(items, 0, path, forced))
    case Rep(least, most, item) => Rep(least, most, Narrow(item, path + [0], forced))
    case _ => t
  }

  function NarrowAll(items: seq<Term>, i: nat, path: seq<nat>, forced: map<seq<nat>, nat>): (r: seq<Term>)
    ensures |r| == |items|
    ensures forall k :: 0 <= k < |items| ==> r[k] == Narrow(items[k], path + [i + k], forced)
    decreases items, 0
  {
    if items == [] then []
    else [Narrow(items[0], path + [i], forced)] + NarrowAll(items[1..], i + 1, path, forced)
  }

  /** The choices made leave a part of the language. */
  lemma {:induction false} NarrowIn(rules: Rules, t: Term, path: seq<nat>, forced: map<seq<nat>, nat>, w: word, n: nat)
    requires In(rules, Narrow(t, path, forced), w, n)
    ensures In(rules, t, w, n)
    decreases t, 1
  {
    match t {
      case Seq(items) => NarrowInAll(rules, items, 0, path, forced, w, n);
      case Alt(items) =>
        if path in forced && forced[path] < |items| {
          NarrowIn(rules, items[forced[path]], path + [forced[path]], forced, w, n);
        } else {
          var all := NarrowAll(items, 0, path, forced);
          var i :| 0 <= i < |all| && In(rules, all[i], w, n);
          NarrowIn(rules, items[i], path + [0 + i], forced, w, n);
        }
      case Rep(least, most, item) =>
        var k: nat :| least <= k && (most.Some? ==> k <= most.value)
          && Repeats(rules, Narrow(item, path + [0], forced), w, n, k);
        NarrowRepeats(rules, item, path + [0], forced, w, n, k);
      case _ =>
    }
  }

  lemma {:induction false} NarrowInAll(rules: Rules, items: seq<Term>, i: nat, path: seq<nat>,
                                       forced: map<seq<nat>, nat>, w: word, n: nat)
    requires InAll(rules, NarrowAll(items, i, path, forced), w, n)
    ensures InAll(rules, items, w, n)
    decreases items, 0
  {
    if items != [] {
      var all := NarrowAll(items, i, path, forced);
      var c :| 0 <= c <= |w| && In(rules, all[0], w[..c], n) && InAll(rules, all[1..], w[c..], n);
      NarrowIn(rules, items[0], path + [i], forced, w[..c], n);
      NarrowInAll(rules, items[1..], i + 1, path, forced, w[c..], n);
    }
  }

  lemma {:induction false} NarrowRepeats(rules: Rules, item: Term, path: seq<nat>, forced: map<seq<nat>, nat>, w: word,
                                         n: nat, k: nat)
    requires Repeats(rules, Narrow(item, path, forced), w, n, k)
    ensures Repeats(rules, item, w, n, k)
    decreases item, 2, k
  {
    hide In, Narrow;
    if k > 0 {
      var c :| 0 <= c <= |w| && In(rules, Narrow(item, path, forced), w[..c], n)
        && Repeats(rules, Narrow(item, path, forced), w[c..], n, k - 1);
      NarrowIn(rules, item, path, forced, w[..c], n);
      NarrowRepeats(rules, item, path, forced, w[c..], n, k - 1);
    }
  }

  /** What is derived is derived of the term with its forced choices made. */
  lemma {:induction false} Forced(rules: Rules, best: Lengths, rng: nat -> nat, t: Term, path: seq<nat>, depth: nat,
                                  forced: map<seq<nat>, nat>, at: nat, fuel: nat)
    requires NoRuleOverruns(rules, best) && NoneOverruns(rules, best, t) && Starts(t, depth, forced)
    requires Derive(rules, best, rng, t, path, depth, forced, at, fuel).Some?
    ensures In(rules, Narrow(t, path, forced), Derive(rules, best, rng, t, path, depth, forced, at, fuel).value.0, fuel)
    decreases t, 1
  {
    hide *;
    PartsInside(rules, best, t, depth, forced);
    match t {
      case Seq(items) =>
        SeqDerived(rules, best, rng, items, path, depth, forced, at, fuel);
        ForcedAll(rules, best, rng, items, 0, path, depth, forced, at, fuel);
      case Alt(items) => ForcedOne(rules, best, rng, t, path, depth, forced, at, fuel);
      case Rep(least, most, item) => ForcedRep(rules, best, rng, t, path, depth, forced, at, fuel);
      case _ =>
        NarrowLeaf(t, path, forced);
        DeriveInside(rules, best, rng, t, path, depth, forced, at, fuel);
    }
  }

  lemma NarrowLeaf(t: Term, path: seq<nat>, forced: map<seq<nat>, nat>)
    requires !t.Seq? && !t.Alt? && !t.Rep?
    ensures Narrow(t, path, forced) == t
  {
  }

  lemma SeqDerived(rules: Rules, best: Lengths, rng: nat -> nat, items: seq<Term>, path: seq<nat>, depth: nat,
                   forced: map<seq<nat>, nat>, at: nat, fuel: nat)
    ensures Derive(rules, best, rng, Seq(items), path, depth, forced, at, fuel)
         == DeriveAll(rules, best, rng, items, 0, path, depth, forced, at, fuel)
    ensures forall w :: In(rules, Narrow(Seq(items), path, forced), w, fuel)
                    <==> InAll(rules, NarrowAll(items, 0, path, forced), w, fuel)
  {
    hide DeriveAll, InAll, NarrowAll;
  }

  lemma ForcedRep(rules: Rules, best: Lengths, rng: nat -> nat, t: Term, path: seq<nat>, depth: nat,
                  forced: map<seq<nat>, nat>, at: nat, fuel: nat)
    requires NoRuleOverruns(rules, best) && t.Rep? && !Overruns(rules, best, t)
    requires NoneOverruns(rules, best, t.item) && Starts(t.item, depth, forced)
    requires depth <= DEPTH || forced == map[] || !TooMany(t)
    requires Derive(rules, best, rng, t, path, depth, forced, at, fuel).Some?
    ensures In(rules, Narrow(t, path, forced), Derive(rules, best, rng, t, path, depth, forced, at, fuel).value.0, fuel)
    decreases t, 0
  {
    hide NoRuleOverruns, NoneOverruns, Starts, Overruns, DeriveTimes, Repeats;
    var top := if depth > DEPTH then t.least else if t.most.None? then t.least + 3 else Min(t.most.value, t.least + 3);
    RepeatEnds(rules, best, rng, t, path, depth, forced, at, fuel);
    ForcedTimes(rules, best, rng, t.item, t.least + rng(at) % (top - t.least + 1), path + [0], depth, forced, at + 1,
                fuel);
  }

  lemma ForcedOne(rules: Rules, best: Lengths, rng: nat -> nat, t: Term, path: seq<nat>, depth: nat,
                  forced: map<seq<nat>, nat>, at: nat, fuel: nat)
    requires NoRuleOverruns(rules, best) && t.Alt?
    requires forall k :: 0 <= k < |t.items| ==> NoneOverruns(rules, best, t.items[k]) && Starts(t.items[k], depth, forced)
    requires Derive(rules, best, rng, t, path, depth, forced, at, fuel).Some?
    ensures In(rules, Narrow(t, path, forced), Derive(rules, best, rng, t, path, depth, forced, at, fuel).value.0, fuel)
    decreases t, 0
  {
    hide NoRuleOverruns, NoneOverruns, Starts, Cheapest;
    var items := t.items;
    var choice := if path in forced then Some(forced[path])
                  else if depth > DEPTH then Cheapest(items, best)
                  else Some(rng(at) % |items|);
    var drew := if path !in forced && depth <= DEPTH then at + 1 else at;
    Forced(rules, best, rng, items[choice.value], path + [choice.value], depth, forced, drew, fuel);
    if path !in forced {
      var all := NarrowAll(items, 0, path, forced);
      assert all[choice.value] == Narrow(items[choice.value], path + [0 + choice.value], forced);
    }
  }

  lemma {:induction false} ForcedAll(rules: Rules, best: Lengths, rng: nat -> nat, items: seq<Term>, i: nat,
                                     path: seq<nat>, depth: nat, forced: map<seq<nat>, nat>, at: nat, fuel: nat)
    requires NoRuleOverruns(rules, best)
    requires forall k :: 0 <= k < |items| ==> NoneOverruns(rules, best, items[k]) && Starts(items[k], depth, forced)
    requires DeriveAll(rules, best, rng, items, i, path, depth, forced, at, fuel).Some?
    ensures InAll(rules, NarrowAll(items, i, path, forced),
                  DeriveAll(rules, best, rng, items, i, path, depth, forced, at, fuel).value.0, fuel)
    decreases items, 0
  {
    hide NoRuleOverruns, NoneOverruns, Starts;
    if items != [] {
      var first := Derive(rules, best, rng, items[0], path + [i], depth, forced, at, fuel);
      Forced(rules, best, rng, items[0], path + [i], depth, forced, at, fuel);
      ForcedAll(rules, best, rng, items[1..], i + 1, path, depth, forced, first.value.1, fuel);
      var rest := DeriveAll(rules, best, rng, items[1..], i + 1, path, depth, forced, first.value.1, fuel);
      var w := first.value.0 + rest.value.0;
      assert w[..|first.value.0|] == first.value.0 && w[|first.value.0|..] == rest.value.0;
      assert NarrowAll(items, i, path, forced)[1..] == NarrowAll(items[1..], i + 1, path, forced);
    }
  }

  lemma {:induction false} ForcedTimes(rules: Rules, best: Lengths, rng: nat -> nat, item: Term, k: nat, path: seq<nat>,
                                       depth: nat, forced: map<seq<nat>, nat>, at: nat, fuel: nat)
    requires NoRuleOverruns(rules, best) && NoneOverruns(rules, best, item) && Starts(item, depth, forced)
    requires DeriveTimes(rules, best, rng, item, k, path, depth, forced, at, fuel).Some?
    ensures Repeats(rules, Narrow(item, path, forced),
                    DeriveTimes(rules, best, rng, item, k, path, depth, forced, at, fuel).value.0, fuel, k)
    decreases item, 2, k
  {
    hide NoRuleOverruns, NoneOverruns, Starts, Narrow;
    if k > 0 {
      var first := Derive(rules, best, rng, item, path, depth, forced, at, fuel);
      Forced(rules, best, rng, item, path, depth, forced, at, fuel);
      ForcedTimes(rules, best, rng, item, k - 1, path, depth, forced, first.value.1, fuel);
      var rest := DeriveTimes(rules, best, rng, item, k - 1, path, depth, forced, first.value.1, fuel);
      var w := first.value.0 + rest.value.0;
      assert w[..|first.value.0|] == first.value.0 && w[|first.value.0|..] == rest.value.0;
    }
  }

  // ---- Drawn

  /** Whether `t` derives `w` with rules nested at most `n` deep, nothing repeated more than three times past its least,
      and every octet one. */
  ghost predicate Small(rules: Rules, t: Term, w: word, n: nat)
    decreases n, t, 1
  {
    match t
    case Ref(name) =>
      if name == CRLF || IsCore(name) then In(rules, t, w, n)
      else name in rules && n > 0 && Small(rules, rules[name], w, n - 1)
    case Range(lo, hi) => |w| == 1 && lo <= w[0] <= hi && w[0] < 256
    case Seq(items) => SmallAll(rules, items, w, n)
    case Alt(items) => exists i :: 0 <= i < |items| && Small(rules, items[i], w, n)
    case Rep(least, most, item) =>
      exists k: nat :: least <= k <= least + 3 && (most.Some? ==> k <= most.value) && SmallTimes(rules, item, w, n, k)
    case _ => In(rules, t, w, n)
  }

  ghost predicate SmallAll(rules: Rules, items: seq<Term>, w: word, n: nat)
    decreases n, items, 0
  {
    if items == [] then w == []
    else exists c :: 0 <= c <= |w| && Small(rules, items[0], w[..c], n) && SmallAll(rules, items[1..], w[c..], n)
  }

  ghost predicate SmallTimes(rules: Rules, item: Term, w: word, n: nat, k: nat)
    decreases n, item, 2, k
  {
    if k == 0 then w == []
    else exists c :: 0 <= c <= |w| && Small(rules, item, w[..c], n) && SmallTimes(rules, item, w[c..], n, k - 1)
  }

  /** From `at` on the draws are these. */
  ghost predicate Draws(rng: nat -> nat, at: nat, ds: seq<nat>)
    decreases |ds|
  {
    ds == [] || (rng(at) == ds[0] && Draws(rng, at + 1, ds[1..]))
  }

  lemma {:induction false} DrawsParts(rng: nat -> nat, at: nat, a: seq<nat>, b: seq<nat>)
    requires Draws(rng, at, a + b)
    ensures Draws(rng, at, a) && Draws(rng, at + |a|, b)
    decreases |a|
  {
    if a == [] {
      assert a + b == b;
    } else {
      assert (a + b)[1..] == a[1..] + b;
      DrawsParts(rng, at + 1, a[1..], b);
    }
  }

  lemma DrawsFirst(rng: nat -> nat, at: nat, d: nat, rest: seq<nat>)
    requires Draws(rng, at, [d] + rest)
    ensures rng(at) == d && Draws(rng, at + 1, rest)
  {
    assert ([d] + rest)[1..] == rest;
  }

  lemma Remainder(x: nat, m: nat)
    requires x < m
    ensures x % m == x
  {
  }

  lemma {:induction false} TextDraws(v: string, w: word, at: nat) returns (ds: seq<nat>)
    requires Matches(v, w)
    ensures forall rng: nat -> nat :: Draws(rng, at, ds) ==> DeriveText(v, rng, at) == (w, at + |ds|)
  {
    if v == [] {
      ds := [];
    } else {
      var c := v[0] as nat;
      assert Matches(v[1..], w[1..]);
      assert w == [w[0]] + w[1..];
      if IsAlpha(c) {
        var bit := if w[0] == c then 1 else 0;
        var rest := TextDraws(v[1..], w[1..], at + 1);
        ds := [bit] + rest;
        forall rng: nat -> nat | Draws(rng, at, ds) ensures DeriveText(v, rng, at) == (w, at + |ds|) {
          DrawsFirst(rng, at, bit, rest);
        }
      } else {
        ds := TextDraws(v[1..], w[1..], at);
      }
    }
  }

  lemma InDraws(lo: nat, hi: nat, x: nat, at: nat)
    requires lo <= x <= hi && x < 256
    ensures forall rng: nat -> nat :: Draws(rng, at, [x - lo]) ==> DrawIn(lo, hi, rng, at) == Some(([x], at + 1))
  {
    forall rng: nat -> nat | Draws(rng, at, [x - lo]) ensures DrawIn(lo, hi, rng, at) == Some(([x], at + 1)) {
      assert [x - lo] == [x - lo] + [];
      DrawsFirst(rng, at, x - lo, []);
      Remainder(x - lo, hi - lo + 1);
    }
  }

  lemma CoreDraws(name: string, x: nat, at: nat) returns (ds: seq<nat>)
    requires IsCore(name) && InCore(name, x)
    ensures |ds| == 2 && forall rng: nat -> nat :: Draws(rng, at, ds) ==>
      var pair := Core(name)[rng(at) % |Core(name)|]; DrawIn(pair.0, pair.1, rng, at + 1) == Some(([x], at + 2))
  {
    hide DrawIn;
    var j :| 0 <= j < |Core(name)| && Core(name)[j].0 <= x <= Core(name)[j].1;
    var lo, hi := Core(name)[j].0, Core(name)[j].1;
    CoreOctets(name, j);
    ds := [j, x - lo];
    assert ds == [j] + [x - lo];
    InDraws(lo, hi, x, at + 1);
    Remainder(j, |Core(name)|);
    forall rng: nat -> nat | Draws(rng, at, ds) ensures rng(at) == j && Draws(rng, at + 1, [x - lo]) {
      DrawsFirst(rng, at, j, [x - lo]);
    }
  }

  /** Short of the depth, some draws give any such string. */
  lemma {:induction false} Drawn(rules: Rules, best: Lengths, t: Term, path: seq<nat>, depth: nat, at: nat, w: word,
                                 n: nat) returns (ds: seq<nat>)
    requires depth + n <= DEPTH && Small(rules, t, w, n)
    ensures forall rng: nat -> nat :: Draws(rng, at, ds) ==>
      Derive(rules, best, rng, t, path, depth, map[], at, n) == Some((w, at + |ds|))
    decreases n, t, 1
  {
    match t {
      case Range(lo, hi) =>
        ds := [w[0] - lo];
        assert w == [w[0]];
        InDraws(lo, hi, w[0], at);
      case Text(v) => ds := TextDraws(v, w, at);
      case Exact(v) => ds := [];
      case Ref(name) =>
        if name == CRLF {
          ds := [];
        } else if IsCore(name) {
          assert w == [w[0]];
          ds := CoreDraws(name, w[0], at);
        } else {
          ds := Drawn(rules, best, rules[name], [], depth + 1, at, w, n - 1);
        }
      case Seq(items) => ds := DrawnAll(rules, best, items, 0, path, depth, at, w, n);
      case Alt(items) => ds := DrawnOne(rules, best, t, path, depth, at, w, n);
      case Rep(least, most, item) => ds := DrawnTimes(rules, best, t, path, depth, at, w, n);
    }
  }

  lemma DrawnOne(rules: Rules, best: Lengths, t: Term, path: seq<nat>, depth: nat, at: nat, w: word,
                                 n: nat) returns (ds: seq<nat>)
    requires depth + n <= DEPTH && Small(rules, t, w, n) && t.Alt?
    ensures forall rng: nat -> nat :: Draws(rng, at, ds) ==>
      Derive(rules, best, rng, t, path, depth, map[], at, n) == Some((w, at + |ds|))
    decreases n, t, 0
  {
    var i :| 0 <= i < |t.items| && Small(rules, t.items[i], w, n);
    var rest := Drawn(rules, best, t.items[i], path + [i], depth, at + 1, w, n);
    ds := [i] + rest;
    forall rng: nat -> nat | Draws(rng, at, ds)
      ensures Derive(rules, best, rng, t, path, depth, map[], at, n) == Some((w, at + |ds|))
    {
      DrawsFirst(rng, at, i, rest);
      Remainder(i, |t.items|);
    }
  }

  lemma DrawnTimes(rules: Rules, best: Lengths, t: Term, path: seq<nat>, depth: nat, at: nat, w: word,
                                 n: nat) returns (ds: seq<nat>)
    requires depth + n <= DEPTH && Small(rules, t, w, n) && t.Rep?
    ensures forall rng: nat -> nat :: Draws(rng, at, ds) ==>
      Derive(rules, best, rng, t, path, depth, map[], at, n) == Some((w, at + |ds|))
    decreases n, t, 0
  {
    hide SmallTimes;
    var least, most := t.least, t.most;
    var k: nat :| least <= k <= least + 3 && (most.Some? ==> k <= most.value) && SmallTimes(rules, t.item, w, n, k);
    var rest := DrawnRepeats(rules, best, t.item, k, path + [0], depth, at + 1, w, n);
    ds := [k - least] + rest;
    var top := if most.None? then least + 3 else Min(most.value, least + 3);
    forall rng: nat -> nat | Draws(rng, at, ds)
      ensures Derive(rules, best, rng, t, path, depth, map[], at, n) == Some((w, at + |ds|))
    {
      DrawsFirst(rng, at, k - least, rest);
      Remainder(k - least, top - least + 1);
    }
  }

  lemma {:induction false} DrawnAll(rules: Rules, best: Lengths, items: seq<Term>, i: nat, path: seq<nat>, depth: nat,
                                    at: nat, w: word, n: nat) returns (ds: seq<nat>)
    requires depth + n <= DEPTH && SmallAll(rules, items, w, n)
    ensures forall rng: nat -> nat :: Draws(rng, at, ds) ==>
      DeriveAll(rules, best, rng, items, i, path, depth, map[], at, n) == Some((w, at + |ds|))
    decreases n, items, 0
  {
    hide Small, Derive, Draws;
    if items == [] {
      ds := [];
    } else {
      var c :| 0 <= c <= |w| && Small(rules, items[0], w[..c], n) && SmallAll(rules, items[1..], w[c..], n);
      var first := Drawn(rules, best, items[0], path + [i], depth, at, w[..c], n);
      var rest := DrawnAll(rules, best, items[1..], i + 1, path, depth, at + |first|, w[c..], n);
      ds := first + rest;
      assert w[..c] + w[c..] == w;
      forall rng: nat -> nat | Draws(rng, at, ds)
        ensures DeriveAll(rules, best, rng, items, i, path, depth, map[], at, n) == Some((w, at + |ds|))
      {
        DrawsParts(rng, at, first, rest);
      }
    }
  }

  lemma {:induction false} DrawnRepeats(rules: Rules, best: Lengths, item: Term, k: nat, path: seq<nat>, depth: nat,
                                        at: nat, w: word, n: nat) returns (ds: seq<nat>)
    requires depth + n <= DEPTH && SmallTimes(rules, item, w, n, k)
    ensures forall rng: nat -> nat :: Draws(rng, at, ds) ==>
      DeriveTimes(rules, best, rng, item, k, path, depth, map[], at, n) == Some((w, at + |ds|))
    decreases n, item, 2, k
  {
    hide Small, Derive, Draws;
    if k == 0 {
      ds := [];
    } else {
      var c :| 0 <= c <= |w| && Small(rules, item, w[..c], n) && SmallTimes(rules, item, w[c..], n, k - 1);
      var first := Drawn(rules, best, item, path, depth, at, w[..c], n);
      var rest := DrawnRepeats(rules, best, item, k - 1, path, depth, at + |first|, w[c..], n);
      ds := first + rest;
      assert w[..c] + w[c..] == w;
      forall rng: nat -> nat | Draws(rng, at, ds)
        ensures DeriveTimes(rules, best, rng, item, k, path, depth, map[], at, n) == Some((w, at + |ds|))
      {
        DrawsParts(rng, at, first, rest);
      }
    }
  }

  // ---- The rules every grammar has

  /** The characters of each, as appendix B.1 of RFC 5234 has them. */
  lemma CoreRules(c: nat)
    ensures InCore("alpha", c) <==> IsAlpha(c)
    ensures InCore("digit", c) <==> c < 128 && IsDigit(c as char)
    ensures InCore("hexdig", c) <==> c < 128 && IsHex(c as char)
    ensures InCore("bit", c) <==> c == '0' as nat || c == '1' as nat
    ensures InCore("vchar", c) <==> ' ' as nat < c < 127
    ensures InCore("char", c) <==> 0 < c < 128
    ensures InCore("octet", c) <==> c < 256
  {
    hide InCore;
    CoreParts("alpha", c);
    CoreParts("digit", c);
    CoreParts("hexdig", c);
    CoreParts("bit", c);
    CoreParts("vchar", c);
    CoreParts("char", c);
    CoreParts("octet", c);
  }

  lemma CoreMarks(c: nat)
    ensures InCore("sp", c) <==> c == ' ' as nat
    ensures InCore("htab", c) <==> c == '\t' as nat
    ensures InCore("wsp", c) <==> InCore("sp", c) || InCore("htab", c)
    ensures InCore("cr", c) <==> c == '\r' as nat
    ensures InCore("lf", c) <==> c == '\n' as nat
    ensures InCore("dquote", c) <==> c == '"' as nat
    ensures InCore("ctl", c) <==> c < ' ' as nat || c == 127
  {
    hide InCore;
    CoreParts("sp", c);
    CoreParts("htab", c);
    CoreParts("wsp", c);
    CoreParts("cr", c);
    CoreParts("lf", c);
    CoreParts("dquote", c);
    CoreParts("ctl", c);
  }

  lemma CoreParts(name: string, c: nat)
    requires 1 <= |Core(name)| <= 3
    ensures var s := Core(name);
      InCore(name, c) <==> (s[0].0 <= c <= s[0].1 || (|s| > 1 && s[1].0 <= c <= s[1].1) ||
                            (|s| > 2 && s[2].0 <= c <= s[2].1))
  {
  }

  // ---- Past the depth

  /** What the choice goes by is the least length, as far as the cap. */
  lemma {:induction false} CostIsLength(rules: Rules, best: Lengths, t: Term)
    requires Whole(rules, t) && best.Keys == rules.Keys
    ensures Cost(t, best).Some? && Min(INF, Cost(t, best).value) == Min(INF, Length(t, best))
    decreases t
  {
    CostThere(rules, best, t);
    match t {
      case Seq(items) => CostsAreLengths(rules, best, items);
      case Alt(items) => CostsAreLengths(rules, best, items);
      case Rep(least, _, item) =>
        CostThere(rules, best, item);
        CostIsLength(rules, best, item);
        CappedTimes(least, Cost(item, best).value, Length(item, best));
      case _ =>
    }
  }

  lemma CappedTimes(k: nat, a: nat, b: nat)
    requires Min(INF, a) == Min(INF, b)
    ensures Min(INF, k * a) == if k > 0 then Min(INF, k * b) else 0
  {
    if k > 0 && a != b {
      assert k * a >= a && k * b >= b;
    } else if k == 0 {
      assert k * a == 0;
    }
  }

  lemma {:induction false} CostsAreLengths(rules: Rules, best: Lengths, items: seq<Term>)
    requires (forall i :: 0 <= i < |items| ==> Whole(rules, items[i])) && best.Keys == rules.Keys
    ensures CostOfAll(items, best).Some? && Min(INF, CostOfAll(items, best).value) == Min(INF, SumOf(items, best))
    ensures items != [] ==>
      LeastCost(items, best).Some? && Min(INF, LeastCost(items, best).value) == Min(INF, LeastOf(items, best))
    decreases items
  {
    CostsThere(rules, best, items);
    if items != [] {
      CostIsLength(rules, best, items[0]);
      CostsAreLengths(rules, best, items[1..]);
    }
  }

  lemma {:induction false} LeastCostIs(items: seq<Term>, best: Lengths, k: nat)
    requires k < |items| && LeastCost(items, best).Some?
    ensures Cost(items[k], best).Some? && LeastCost(items, best).value <= Cost(items[k], best).value
    decreases items
  {
    if |items| > 1 && k > 0 {
      assert items[1..][k - 1] == items[k];
      LeastCostIs(items[1..], best, k - 1);
    }
  }

  /** The choice is the first of those that cost least. */
  lemma {:induction false} CheapestIs(items: seq<Term>, best: Lengths)
    requires Cheapest(items, best).Some?
    ensures var c := Cheapest(items, best).value;
      && (forall k :: 0 <= k < |items| ==> Cost(items[k], best).Some?)
      && (forall k :: 0 <= k < |items| ==> Cost(items[c], best).value <= Cost(items[k], best).value)
      && (forall k :: 0 <= k < c ==> Cost(items[c], best).value < Cost(items[k], best).value)
    decreases items
  {
    forall k | 0 <= k < |items|
      ensures Cost(items[k], best).Some? && LeastCost(items, best).value <= Cost(items[k], best).value
    {
      LeastCostIs(items, best, k);
    }
    if Cost(items[0], best) != LeastCost(items, best) {
      CheapestIs(items[1..], best);
      var c := Cheapest(items, best).value;
      assert items[c] == items[1..][c - 1];
      forall k | 0 <= k < |items|
        ensures Cost(items[c], best).value <= Cost(items[k], best).value
        ensures k < c ==> Cost(items[c], best).value < Cost(items[k], best).value
      {
        if k > 0 { assert items[k] == items[1..][k - 1]; } else { LeastAfter(items, best, c); }
      }
    }
  }

  /** The first costing more than the least, the least of the rest is the least. */
  lemma LeastAfter(items: seq<Term>, best: Lengths, c: nat)
    requires |items| > 1 && LeastCost(items, best).Some? && Cost(items[0], best) != LeastCost(items, best)
    requires Cheapest(items[1..], best).Some? && c == Cheapest(items[1..], best).value + 1
    requires forall k :: 0 <= k < |items| - 1 ==> Cost(items[1..][k], best).Some?
    requires forall k :: 0 <= k < |items| - 1 ==>
      Cost(items[1..][c - 1], best).value <= Cost(items[1..][k], best).value
    ensures Cost(items[0], best).Some? && Cost(items[c], best).value < Cost(items[0], best).value
  {
    LeastCostIs(items, best, 0);
    var j := LeastMet(items[1..], best);
  }

  lemma {:induction false} LeastMet(items: seq<Term>, best: Lengths) returns (j: nat)
    requires LeastCost(items, best).Some?
    ensures j < |items| && Cost(items[j], best) == LeastCost(items, best)
    decreases items
  {
    if |items| == 1 || Cost(items[0], best) == LeastCost(items, best) {
      j := 0;
    } else {
      var i := LeastMet(items[1..], best);
      j := i + 1;
    }
  }
}
