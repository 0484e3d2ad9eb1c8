/** The length of each rule's shortest derivation: an iteration to a fixpoint that ends on every grammar. On which
    grammars its values below the cap are exactly the least lengths of what is derived, `AbnfLanguage` says. */
module AbnfShortest {
  import opened Abnf

  const INF: nat := 0x4000_0000

  type Rules = map<string, Term>
  type Lengths = map<string, nat>

  const CRLF: string := "crlf"

  /** The rules every grammar has, each a set of characters. */
  function Core(name: string): seq<(nat, nat)> {
    if name == "alpha" then [(65, 90), (97, 122)]
    else if name == "digit" then [(48, 57)]
    else if name == "hexdig" then [(48, 57), (65, 70), (97, 102)]
    else if name == "sp" then [(32, 32)]
    else if name == "htab" then [(9, 9)]
    else if name == "wsp" then [(32, 32), (9, 9)]
    else if name == "vchar" then [(33, 126)]
    else if name == "dquote" then [(34, 34)]
    else if name == "cr" then [(13, 13)]
    else if name == "lf" then [(10, 10)]
    else if name == "ctl" then [(0, 31), (127, 127)]
    else if name == "char" then [(1, 127)]
    else if name == "octet" then [(0, 255)]
    else if name == "bit" then [(48, 49)]
    else []
  }

  predicate IsCore(name: string) { Core(name) != [] }

  function Min(a: nat, b: nat): nat { if a < b then a else b }

  /** The shortest a term derives, by what is known of the rules. */
  function Length(t: Term, best: Lengths): nat
    decreases t
  {
    match t
    case Range(_, _) => 1
    case Text(v) => |v|
    case Exact(v) => |v|
    case Ref(name) =>
      if name == CRLF then 2 else if IsCore(name) then 1 else if name in best then best[name] else INF
    case Seq(items) => Min(INF, SumOf(items, best))
    case Alt(items) => LeastOf(items, best)
    case Rep(least, _, item) => if least > 0 then Min(INF, least * Length(item, best)) else 0
    case Prose(_) => INF
  }

  function SumOf(items: seq<Term>, best: Lengths): nat
    decreases items
  {
    if items == [] then 0 else Length(items[0], best) + SumOf(items[1..], best)
  }

  function LeastOf(items: seq<Term>, best: Lengths): nat
    decreases items
  {
    if items == [] then INF
    else if |items| == 1 then Length(items[0], best)
    else Min(Length(items[0], best), LeastOf(items[1..], best))
  }

  /** One round over the rules. */
  function Round(rules: Rules, best: Lengths): Lengths { map n | n in rules :: Length(rules[n], best) }

  function Unknown(rules: Rules): Lengths { map n | n in rules :: INF }

  // ---- What a round does

  /** `y` is no greater than `x` where it matters, and where it does not, no smaller. */
  predicate Closer(x: nat, y: nat) { Min(y, INF) <= Min(x, INF) && (y >= INF ==> y >= x) }

  ghost predicate AllCloser(x: Lengths, y: Lengths) {
    x.Keys == y.Keys && forall n {:trigger y[n]} :: n in x ==> Closer(x[n], y[n])
  }

  lemma {:induction false} LengthCloser(t: Term, x: Lengths, y: Lengths)
    requires AllCloser(x, y)
    ensures Closer(Length(t, x), Length(t, y))
    decreases t
  {
    match t {
      case Seq(items) => SumCloser(items, x, y);
      case Alt(items) => LeastCloser(items, x, y);
      case Rep(least, _, item) =>
        LengthCloser(item, x, y);
        if least > 0 { TimesCloser(least, Length(item, x), Length(item, y)); }
      case _ =>
    }
  }

  lemma TimesCloser(k: nat, a: nat, b: nat)
    requires k > 0 && Min(b, INF) <= Min(a, INF)
    ensures Min(INF, k * b) <= Min(INF, k * a)
  {
    if b <= a {
      assert k * b <= k * a;
    } else {
      assert a >= INF && k * a >= a;
    }
  }

  lemma {:induction false} SumCloser(items: seq<Term>, x: Lengths, y: Lengths)
    requires AllCloser(x, y)
    ensures Min(INF, SumOf(items, y)) <= Min(INF, SumOf(items, x))
    decreases items
  {
    if items != [] {
      LengthCloser(items[0], x, y);
      SumCloser(items[1..], x, y);
    }
  }

  lemma {:induction false} LeastCloser(items: seq<Term>, x: Lengths, y: Lengths)
    requires AllCloser(x, y)
    ensures Closer(LeastOf(items, x), LeastOf(items, y))
    decreases items
  {
    if items != [] {
      LengthCloser(items[0], x, y);
      LeastCloser(items[1..], x, y);
    }
  }

  lemma RoundCloser(rules: Rules, x: Lengths, y: Lengths)
    requires AllCloser(x, y)
    ensures AllCloser(Round(rules, x), Round(rules, y))
  {
    hide Closer;
    forall n | n in rules ensures Closer(Round(rules, x)[n], Round(rules, y)[n]) {
      LengthCloser(rules[n], x, y);
    }
  }

  lemma FirstCloser(rules: Rules)
    ensures AllCloser(Unknown(rules), Round(rules, Unknown(rules)))
  {
  }

  // ---- Termination

  /** No leaf of the term is longer than `u`. */
  predicate Within(t: Term, u: nat)
    decreases t
  {
    match t
    case Text(v) => |v| <= u
    case Exact(v) => |v| <= u
    case Seq(items) => forall i :: 0 <= i < |items| ==> Within(items[i], u)
    case Alt(items) => forall i :: 0 <= i < |items| ==> Within(items[i], u)
    case Rep(_, _, item) => Within(item, u)
    case _ => true
  }

  ghost predicate Bounded(best: Lengths, u: nat) { forall n {:trigger best[n]} :: n in best ==> best[n] <= u }

  lemma {:induction false} LengthWithin(t: Term, best: Lengths, u: nat)
    requires Within(t, u) && Bounded(best, u) && u >= INF
    ensures Length(t, best) <= u
    decreases t
  {
    match t {
      case Alt(items) => LeastWithin(items, best, u);
      case _ =>
    }
  }

  lemma {:induction false} LeastWithin(items: seq<Term>, best: Lengths, u: nat)
    requires (forall i :: 0 <= i < |items| ==> Within(items[i], u)) && Bounded(best, u) && u >= INF
    ensures LeastOf(items, best) <= u
    decreases items
  {
    if items != [] { LengthWithin(items[0], best, u); }
  }

  lemma {:induction false} WithinMore(t: Term, u: nat, v: nat)
    requires Within(t, u) && u <= v
    ensures Within(t, v)
    decreases t
  {
    match t {
      case Seq(items) => forall i | 0 <= i < |items| ensures Within(items[i], v) { WithinMore(items[i], u, v); }
      case Alt(items) => forall i | 0 <= i < |items| ensures Within(items[i], v) { WithinMore(items[i], u, v); }
      case Rep(_, _, item) => WithinMore(item, u, v);
      case _ =>
    }
  }

  /** The lengths of the leaves together. */
  function Leaves(t: Term): nat
    decreases t
  {
    match t
    case Text(v) => |v|
    case Exact(v) => |v|
    case Seq(items) => AllLeaves(items)
    case Alt(items) => AllLeaves(items)
    case Rep(_, _, item) => Leaves(item)
    case _ => 0
  }

  function AllLeaves(items: seq<Term>): nat
    decreases items
  {
    if items == [] then 0 else Leaves(items[0]) + AllLeaves(items[1..])
  }

  lemma {:induction false} LeavesWithin(t: Term)
    ensures Within(t, Leaves(t))
    decreases t
  {
    match t {
      case Seq(items) => AllLeavesWithin(items);
      case Alt(items) => AllLeavesWithin(items);
      case Rep(_, _, item) => LeavesWithin(item);
      case _ =>
    }
  }

  lemma {:induction false} AllLeavesWithin(items: seq<Term>)
    ensures forall i :: 0 <= i < |items| ==> Within(items[i], AllLeaves(items))
    decreases items
  {
    if items != [] {
      LeavesWithin(items[0]);
      WithinMore(items[0], Leaves(items[0]), AllLeaves(items));
      AllLeavesWithin(items[1..]);
      forall i | 0 < i < |items| ensures Within(items[i], AllLeaves(items)) {
        assert items[i] == items[1..][i - 1];
        WithinMore(items[i], AllLeaves(items[1..]), AllLeaves(items));
      }
    }
  }

  /** How far the values below the cap are from nothing, over the rules in order. */
  function Below(names: seq<string>, best: Lengths): nat {
    if names == [] then 0
    else (if names[0] in best then Min(best[names[0]], INF) else 0) + Below(names[1..], best)
  }

  /** How far those past the cap are from `u`. */
  function Above(names: seq<string>, best: Lengths, u: nat): nat {
    if names == [] then 0
    else (if names[0] in best && INF <= best[names[0]] <= u then u - best[names[0]] else 0) + Above(names[1..], best, u)
  }

  lemma {:induction false} BelowCloser(names: seq<string>, x: Lengths, y: Lengths)
    requires AllCloser(x, y)
    ensures Below(names, y) <= Below(names, x)
    ensures Below(names, y) == Below(names, x) ==>
      forall i :: 0 <= i < |names| && names[i] in x ==> Min(y[names[i]], INF) == Min(x[names[i]], INF)
  {
    if names != [] {
      BelowCloser(names[1..], x, y);
      assert forall i :: 0 < i < |names| ==> names[i] == names[1..][i - 1];
    }
  }

  lemma {:induction false} AboveCloser(names: seq<string>, x: Lengths, y: Lengths, u: nat)
    requires AllCloser(x, y) && Bounded(y, u)
    requires forall i :: 0 <= i < |names| && names[i] in x ==> Min(y[names[i]], INF) == Min(x[names[i]], INF)
    ensures Above(names, y, u) <= Above(names, x, u)
    ensures Above(names, y, u) == Above(names, x, u) ==> forall i :: 0 <= i < |names| && names[i] in x ==>
      y[names[i]] == x[names[i]]
  {
    if names != [] {
      assert names[0] in x ==> Closer(x[names[0]], y[names[0]]);
      AboveCloser(names[1..], x, y, u);
      assert forall i :: 0 < i < |names| ==> names[i] == names[1..][i - 1];
    }
  }

  /** A round that changes something brings the values below the cap down, or leaves those and others up. */
  lemma RoundProgress(names: seq<string>, x: Lengths, y: Lengths, u: nat)
    requires AllCloser(x, y) && Bounded(y, u) && (forall n :: n in x ==> n in names) && x != y
    ensures Below(names, y) < Below(names, x) ||
            (Below(names, y) == Below(names, x) && Above(names, y, u) < Above(names, x, u))
  {
    BelowCloser(names, x, y);
    if Below(names, y) == Below(names, x) { AboveCloser(names, x, y, u); }
  }

  function AllRules(names: seq<string>, rules: Rules): nat
    requires forall i :: 0 <= i < |names| ==> names[i] in rules
  {
    if names == [] then INF else Leaves(rules[names[0]]) + AllRules(names[1..], rules)
  }

  lemma {:induction false} RulesWithin(names: seq<string>, rules: Rules, n: string)
    requires (forall i :: 0 <= i < |names| ==> names[i] in rules) && n in names
    ensures Within(rules[n], AllRules(names, rules)) && AllRules(names, rules) >= INF
  {
    AtLeastInf(names, rules);
    if names[0] == n {
      LeavesWithin(rules[n]);
      WithinMore(rules[n], Leaves(rules[n]), AllRules(names, rules));
    } else {
      assert n in names[1..];
      RulesWithin(names[1..], rules, n);
      WithinMore(rules[n], AllRules(names[1..], rules), AllRules(names, rules));
    }
  }

  lemma {:induction false} AtLeastInf(names: seq<string>, rules: Rules)
    requires forall i :: 0 <= i < |names| ==> names[i] in rules
    ensures AllRules(names, rules) >= INF
  {
    if names != [] { AtLeastInf(names[1..], rules); }
  }

  lemma RoundBounded(names: seq<string>, rules: Rules, x: Lengths)
    requires (forall i :: 0 <= i < |names| ==> names[i] in rules) && (forall n :: n in rules ==> n in names)
    requires Bounded(x, AllRules(names, rules))
    ensures Bounded(Round(rules, x), AllRules(names, rules))
  {
    forall n | n in rules ensures Round(rules, x)[n] <= AllRules(names, rules) {
      RulesWithin(names, rules, n);
      LengthWithin(rules[n], x, AllRules(names, rules));
    }
  }

  /** What the first `k` rounds reach. */
  function After(rules: Rules, k: nat): Lengths { if k == 0 then Unknown(rules) else Round(rules, After(rules, k - 1)) }

  /** The iteration: on every grammar it ends, at a fixpoint some number of rounds from nothing known. */
  method Shortest(names: seq<string>, rules: Rules) returns (best: Lengths, ghost k: nat)
    requires forall n :: n in names <==> n in rules
    ensures best == After(rules, k) && Round(rules, best) == best
  {
    hide Round, AllRules, Below, Above, AllCloser, Bounded;
    best, k := map n | n in rules :: INF, 0;
    ghost var u := AllRules(names, rules);
    FirstCloser(rules);
    StartBounded(names, rules);
    var next := Round(rules, best);
    RoundBounded(names, rules, best);
    while next != best
      invariant next == Round(rules, best) && best == After(rules, k) && best.Keys == rules.Keys
      invariant AllCloser(best, next) && Bounded(next, u)
      decreases Below(names, best), Above(names, best, u)
    {
      RoundProgress(names, best, next, u);
      RoundCloser(rules, best, next);
      RoundBounded(names, rules, next);
      RoundKeys(rules, best);
      best, k := next, k + 1;
      next := Round(rules, best);
    }
  }

  lemma RoundKeys(rules: Rules, best: Lengths)
    ensures Round(rules, best).Keys == rules.Keys
  {
  }

  lemma StartBounded(names: seq<string>, rules: Rules)
    requires forall i :: 0 <= i < |names| ==> names[i] in rules
    ensures Bounded(Unknown(rules), AllRules(names, rules))
  {
    AtLeastInf(names, rules);
  }
}
