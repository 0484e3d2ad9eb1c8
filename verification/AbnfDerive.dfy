/** Derivations at random, one alternation's choice forced, past a depth the choices that end soonest. */
module AbnfDerive {
  import opened Abnf
  import opened AbnfShortest
  import opened AbnfLanguage

  const DEPTH: nat := 12

  /** What is derived, and how many draws that took. */
  type Derived = Option<(word, nat)>

  /** The cost the choice past the depth goes by, none when a rule is not there. */
  function Cost(t: Term, best: Lengths): Option<nat>
    decreases t
  {
    match t
    case Ref(name) =>
      if name == CRLF then Some(2) else if IsCore(name) then Some(1)
      else if name in best then Some(best[name]) else None
    case Seq(items) => CostOfAll(items, best)
    case Alt(items) => LeastCost(items, best)
    case Rep(least, _, item) => if Cost(item, best).Some? then Some(least * Cost(item, best).value) else None
    case Text(v) => Some(|v|)
    case Exact(v) => Some(|v|)
    case _ => Some(1)
  }

  function CostOfAll(items: seq<Term>, best: Lengths): Option<nat>
    decreases items
  {
    if items == [] then Some(0)
    else
      var c, rest := Cost(items[0], best), CostOfAll(items[1..], best);
      if c.Some? && rest.Some? then Some(c.value + rest.value) else None
  }

  function LeastCost(items: seq<Term>, best: Lengths): Option<nat>
    decreases items
  {
    if items == [] then None
    else if |items| == 1 then Cost(items[0], best)
    else
      var c, rest := Cost(items[0], best), LeastCost(items[1..], best);
      if c.Some? && rest.Some? then Some(Min(c.value, rest.value)) else None
  }

  /** The first of those that cost least. */
  function Cheapest(items: seq<Term>, best: Lengths): (r: Option<nat>)
    ensures r.Some? ==> r.value < |items|
    decreases items
  {
    if items == [] || LeastCost(items, best).None? then None
    else if Cost(items[0], best) == LeastCost(items, best) then Some(0)
    else
      var r := Cheapest(items[1..], best);
      if r.Some? then Some(r.value + 1) else None
  }

  /** A letter in either case, as drawn. */
  function DeriveText(v: string, rng: nat -> nat, at: nat): (word, nat) {
    if v == [] then ([], at)
    else
      var c := v[0] as nat;
      if IsAlpha(c) then
        var rest := DeriveText(v[1..], rng, at + 1);
        ([if rng(at) % 2 == 0 then Flipped(c) else c] + rest.0, rest.1)
      else
        var rest := DeriveText(v[1..], rng, at);
        ([c] + rest.0, rest.1)
  }

  /** A number of a range drawn; a range of nothing, or of what is no octet, fails. */
  function DrawIn(lo: nat, hi: nat, rng: nat -> nat, at: nat): Derived {
    if lo > hi then None
    else
      var x := lo + rng(at) % (hi - lo + 1);
      if x < 256 then Some(([x], at + 1)) else None
  }

  /** A derivation of `t`, which stands at `path` in its rule's term; `forced` gives the alternations whose choice is not
      drawn. It fails as the program does, and when rules nest more than `fuel` deep. */
  function Derive(rules: Rules, best: Lengths, rng: nat -> nat, t: Term, path: seq<nat>, depth: nat,
                  forced: map<seq<nat>, nat>, at: nat, fuel: nat): Derived
    decreases fuel, t, 1
  {
    match t
    case Range(lo, hi) => DrawIn(lo, hi, rng, at)
    case Text(v) => Some(DeriveText(v, rng, at))
    case Exact(v) => Some((v, at))
    case Ref(name) =>
      if name == CRLF then Some(([13, 10], at))
      else if IsCore(name) then
        var pair := Core(name)[rng(at) % |Core(name)|];
        DrawIn(pair.0, pair.1, rng, at + 1)
      else if name !in rules || fuel == 0 then None
      else Derive(rules, best, rng, rules[name], [], depth + 1, map[], at, fuel - 1)
    case Seq(items) => DeriveAll(rules, best, rng, items, 0, path, depth, forced, at, fuel)
    case Alt(items) =>
      if items == [] then None
      else
        var choice := if path in forced then Some(forced[path])
                      else if depth > DEPTH then Cheapest(items, best)
                      else Some(rng(at) % |items|);
        var drew := if path !in forced && depth <= DEPTH then at + 1 else at;
        if choice.None? || choice.value >= |items| then None
        else Derive(rules, best, rng, items[choice.value], path + [choice.value], depth, forced, drew, fuel)
    case Rep(least, most, item) =>
      var top := if depth > DEPTH then least else if most.None? then least + 3 else Min(most.value, least + 3);
      if top < least then None
      else
        DeriveTimes(rules, best, rng, item, least + rng(at) % (top - least + 1), path + [0], depth, forced, at + 1, fuel)
    case Prose(_) => None
  }

  /** The items from `items`, the first of which is the `i`-th. */
  function DeriveAll(rules: Rules, best: Lengths, rng: nat -> nat, items: seq<Term>, i: nat, path: seq<nat>, depth: nat,
                     forced: map<seq<nat>, nat>, at: nat, fuel: nat): Derived
    decreases fuel, items, 0
  {
    if items == [] then Some(([], at))
    else
      var first := Derive(rules, best, rng, items[0], path + [i], depth, forced, at, fuel);
      if first.None? then None
      else
        var rest := DeriveAll(rules, best, rng, items[1..], i + 1, path, depth, forced, first.value.1, fuel);
        if rest.None? then None else Some((first.value.0 + rest.value.0, rest.value.1))
  }

  function DeriveTimes(rules: Rules, best: Lengths, rng: nat -> nat, item: Term, k: nat, path: seq<nat>, depth: nat,
                       forced: map<seq<nat>, nat>, at: nat, fuel: nat): Derived
    decreases fuel, item, 2, k
  {
    if k == 0 then Some(([], at))
    else
      var first := Derive(rules, best, rng, item, path, depth, forced, at, fuel);
      if first.None? then None
      else
        var rest := DeriveTimes(rules, best, rng, item, k - 1, path, depth, forced, first.value.1, fuel);
        if rest.None? then None else Some((first.value.0 + rest.value.0, rest.value.1))
  }
}
