/** Parsing what is printed gives the term back. */
module AbnfRoundTrip {
  import opened Abnf
  import opened AbnfParser

  // ---- Text at a place

  predicate At(s: string, i: nat, u: string) { i + |u| <= |s| && s[i..i + |u|] == u }

  lemma AtParts(s: string, i: nat, u: string, v: string)
    requires At(s, i, u + v)
    ensures At(s, i, u) && At(s, i + |u|, v)
  {
    var w := s[i..i + |u| + |v|];
    assert s[i..i + |u|] == w[..|u|] == u;
    assert s[i + |u|..i + |u| + |v|] == w[|u|..] == v;
  }

  lemma AtFits(s: string, i: nat, u: string)
    requires At(s, i, u)
    ensures i + |u| <= |s|
  {
  }

  lemma AtThree(s: string, i: nat, u: string, v: string, w: string)
    requires At(s, i, u + v + w)
    ensures At(s, i, u) && At(s, i + |u|, v) && At(s, i + |u| + |v|, w)
  {
    AtParts(s, i, u + v, w);
    AtParts(s, i, u, v);
  }

  lemma AtFirst(s: string, i: nat, u: string)
    requires At(s, i, u) && u != []
    ensures i < |s| && s[i] == u[0]
  {
    assert s[i..i + |u|][0] == s[i];
  }

  lemma SpanIs(s: string, i: nat, u: string, p: char -> bool)
    requires At(s, i, u) && (forall k :: 0 <= k < |u| ==> p(u[k])) && (i + |u| < |s| ==> !p(s[i + |u|]))
    ensures Span(s, i, p) == i + |u|
  {
    hide Span;
    assert forall k :: 0 <= k < |u| ==> u[k] == s[i + k];
    var j := Span(s, i, p);
    assert j >= i + |u|;
  }

  // ---- What may follow

  /** After a whole alternation: the end, or the bracket that closes it. */
  predicate Stop(s: string, j: nat) { j >= |s| || s[j] == ')' || s[j] == ']' }

  /** After a concatenation: that, or another alternative. */
  predicate StopItem(s: string, j: nat) { Stop(s, j) || (s[j] == ' ' && Next(s, j + 1, '/')) }

  predicate Sep(s: string, j: nat) { j >= |s| || s[j] == ' ' || s[j] == ')' || s[j] == ']' }

  predicate Starts(c: char) {
    c == '%' || c == '"' || c == '<' || c == '(' || c == '[' || c == '*' || IsLetter(c) || IsDigit(c)
  }

  lemma {:induction false} ShowStarts(t: Term)
    requires Normal(t)
    ensures Show(t) != [] && Starts(Show(t)[0])
    ensures ShowIn(t) != [] && Starts(ShowIn(t)[0])
    ensures Operand(t) != [] && Starts(Operand(t)[0])
    decreases t
  {
    match t {
      case Seq(items) => ShowStarts(items[0]);
      case Alt(items) => ShowStarts(items[0]);
      case Rep(least, most, item) => ShowStarts(item);
      case _ =>
    }
  }

  // ---- Leaves

  lemma NumberAt(s: string, i: nat, n: nat)
    requires At(s, i, Hex(n)) && (i + |Hex(n)| < |s| ==> !IsHex(s[i + |Hex(n)|]))
    ensures Span(s, i, IsHex) == i + |Hex(n)| && HexAt(s, i) && Number(s[i..i + |Hex(n)|], 16) == Some(n)
  {
    SpanIs(s, i, Hex(n), IsHex);
    AtFirst(s, i, Hex(n));
    NumberHex(n);
  }

  lemma DottedMore(v: seq<nat>)
    requires |v| >= 2
    ensures Dotted(v) == Hex(v[0]) + ("." + Dotted(v[1..]))
  {
    hide Hex;
  }

  lemma DottedOne(v: seq<nat>)
    requires |v| == 1
    ensures Dotted(v) == Hex(v[0])
  {
    hide Hex;
  }

  /** A dot and the figures after it. */
  lemma DotAt(s: string, i: nat, n: nat, more: string)
    requires At(s, i, "." + (Hex(n) + more))
    requires if more == [] then Sep(s, i + 1 + |Hex(n)|) else more[0] == '.'
    ensures Next(s, i, '.') && HexAt(s, i + 1) && Span(s, i + 1, IsHex) == i + 1 + |Hex(n)|
    ensures Number(s[i + 1..i + 1 + |Hex(n)|], 16) == Some(n) && At(s, i + 1 + |Hex(n)|, more)
  {
    hide Hex, Number, Span;
    AtParts(s, i, ".", Hex(n) + more);
    AtFirst(s, i, ".");
    AtParts(s, i + 1, Hex(n), more);
    if more != [] { AtFirst(s, i + 1 + |Hex(n)|, more); }
    hide At;
    NumberAt(s, i + 1, n);
  }

  lemma {:induction false} DotsIs(s: string, i: nat, v: seq<nat>)
    requires v != [] && At(s, i, "." + Dotted(v)) && Sep(s, i + 1 + |Dotted(v)|)
    ensures DotsAt(s, i, 16) == (Some(v), i + 1 + |Dotted(v)|)
    decreases |v|
  {
    hide Hex, Number, Span, At, Dotted;
    var j := i + 1 + |Hex(v[0])|;
    if |v| == 1 {
      DottedOne(v);
      assert Dotted(v) == Hex(v[0]) + [];
      DotAt(s, i, v[0], []);
      assert !Next(s, j, '.');
      assert [v[0]] + [] == v;
    } else {
      DottedMore(v);
      DotAt(s, i, v[0], "." + Dotted(v[1..]));
      DotsIs(s, j, v[1..]);
      assert [v[0]] + v[1..] == v;
    }
  }

  lemma PercentX(s: string, i: nat, u: string)
    requires At(s, i, "%x" + u) && u != []
    ensures i + 2 < |s| && Next(s, i, '%') && BaseOf(s[i + 1]) == Some(16) && s[i + 2] == u[0] && At(s, i + 2, u)
  {
    AtParts(s, i, "%x", u);
    AtFirst(s, i + 2, u);
    assert s[i..i + 2][0] == s[i] && s[i..i + 2][1] == s[i + 1];
  }

  lemma ExactIs(s: string, i: nat, v: seq<nat>)
    requires |v| >= 2 && AreOctets(v) && At(s, i, "%x" + Dotted(v)) && Sep(s, i + 2 + |Dotted(v)|)
    ensures NumVal(s, i) == Reads(Exact(v), i + 2 + |Dotted(v)|)
  {
    hide Hex, Number, Span, DotsAt, Dotted, At;
    var h, more := Hex(v[0]), "." + Dotted(v[1..]);
    DottedMore(v);
    PercentX(s, i, h + more);
    AtParts(s, i + 2, h, more);
    AtFirst(s, i + 2 + |h|, more);
    AtParts(s, i + 2 + |h|, ".", Dotted(v[1..]));
    DottedFirst(v[1..]);
    AtFirst(s, i + 3 + |h|, Dotted(v[1..]));
    NumberAt(s, i + 2, v[0]);
    DotsIs(s, i + 2 + |h|, v[1..]);
    assert [v[0]] + v[1..] == v;
  }

  lemma DottedFirst(v: seq<nat>)
    requires v != []
    ensures Dotted(v) != [] && IsHex(Dotted(v)[0])
  {
  }

  lemma RangeOne(s: string, i: nat, n: nat)
    requires At(s, i, "%x" + Hex(n)) && Sep(s, i + 2 + |Hex(n)|)
    ensures NumVal(s, i) == Reads(Range(n, n), i + 2 + |Hex(n)|)
  {
    hide Hex, Number, Span, DotsAt, At;
    PercentX(s, i, Hex(n));
    NumberAt(s, i + 2, n);
  }

  lemma RangeTwo(s: string, i: nat, lo: nat, hi: nat)
    requires At(s, i, "%x" + (Hex(lo) + ("-" + Hex(hi)))) && Sep(s, i + 3 + |Hex(lo)| + |Hex(hi)|)
    ensures NumVal(s, i) == Reads(Range(lo, hi), i + 3 + |Hex(lo)| + |Hex(hi)|)
  {
    hide Hex, Number, Span, DotsAt, At;
    var h, e := Hex(lo), Hex(hi);
    PercentX(s, i, h + ("-" + e));
    AtParts(s, i + 2, h, "-" + e);
    AtFirst(s, i + 2 + |h|, "-" + e);
    AtParts(s, i + 2 + |h|, "-", e);
    NumberAt(s, i + 2, lo);
    NumberAt(s, i + 3 + |h|, hi);
  }

  lemma RangeIs(s: string, i: nat, lo: nat, hi: nat)
    requires At(s, i, Show(Range(lo, hi))) && Sep(s, i + |Show(Range(lo, hi))|)
    ensures NumVal(s, i) == Reads(Range(lo, hi), i + |Show(Range(lo, hi))|)
  {
    hide Hex, NumVal, At;
    if lo == hi {
      RangeOne(s, i, lo);
    } else {
      assert Show(Range(lo, hi)) == "%x" + (Hex(lo) + ("-" + Hex(hi)));
      RangeTwo(s, i, lo, hi);
    }
  }

  lemma NameIs(s: string, i: nat, name: string)
    requires IsName(name) && At(s, i, name) && Sep(s, i + |name|)
    ensures RuleName(s, i) == Reads(name, i + |name|)
  {
    SpanIs(s, i, name, IsNameChar);
    AtFirst(s, i, name);
    assert LowerAll(name) == name;
  }

  lemma QuotedIs(s: string, i: nat, v: string, close: char, p: char -> bool)
    requires At(s, i, v + [close]) && (forall k :: 0 <= k < |v| ==> p(v[k])) && !p(close)
    ensures i + |v| < |s| && Span(s, i, p) == i + |v| && s[i..i + |v|] == v
  {
    AtParts(s, i, v, [close]);
    AtFirst(s, i + |v|, [close]);
    SpanIs(s, i, v, p);
  }

  predicate Leaf(t: Term) { t.Range? || t.Text? || t.Exact? || t.Ref? || t.Prose? }

  lemma StartsNow(s: string, i: nat, u: string)
    requires At(s, i, u) && u != [] && Starts(u[0])
    ensures i < |s| && s[i] == u[0] && Ws(s, i) == i && !EndsItems(s, i)
  {
    AtFirst(s, i, u);
  }

  lemma NumberElement(s: string, i: nat)
    requires i < |s| && s[i] == '%' && Ws(s, i) == i
    ensures Element(s, i) == NumVal(s, i)
  {
    hide Alternation, NumVal, RuleName, Span, Ws;
  }

  lemma NameElement(s: string, i: nat, name: string, e: nat)
    requires i < |s| && IsLetter(s[i]) && Ws(s, i) == i && RuleName(s, i) == Reads(name, e)
    ensures Element(s, i) == Reads(Ref(name), e)
  {
    hide Alternation, NumVal, RuleName, Span, Ws;
  }

  lemma LeafIs(s: string, i: nat, t: Term)
    requires Normal(t) && Leaf(t) && At(s, i, Show(t)) && Sep(s, i + |Show(t)|)
    ensures Element(s, i) == Reads(t, i + |Show(t)|) && CountAt(s, i) == Fails
  {
    hide *;
    ShowStarts(t);
    StartsNow(s, i, Show(t));
    LeafStarts(t);
    LeafShown(t);
    NoCount(s, i);
    match t {
      case Range(lo, hi) =>
        RangeIs(s, i, lo, hi);
        NumberElement(s, i);
      case Exact(v) =>
        ExactIs(s, i, v);
        NumberElement(s, i);
      case Ref(name) =>
        NameIs(s, i, name);
        NameElement(s, i, name, i + |name|);
      case Text(v) => TextIs(s, i, v);
      case Prose(v) => ProseIs(s, i, v);
    }
  }

  /** How each leaf is printed. */
  lemma LeafShown(t: Term)
    requires Normal(t) && Leaf(t)
    ensures Show(t) != []
    ensures t.Range? ==> Show(t)[0] == '%'
    ensures t.Exact? ==> Show(t) == "%x" + Dotted(t.octets) && Show(t)[0] == '%'
    ensures t.Ref? ==> Show(t) == t.name && IsLetter(Show(t)[0])
    ensures t.Text? ==> Show(t) == "\"" + t.value + "\""
    ensures t.Prose? ==> Show(t) == "<" + t.text + ">"
    ensures t.Range? || t.Exact? || t.Ref? || t.Text? || t.Prose?
  {
  }

  lemma LeafStarts(t: Term)
    requires Normal(t) && Leaf(t)
    ensures Show(t) != [] && Show(t)[0] != '*' && !IsDigit(Show(t)[0])
    ensures t.Exact? ==> |t.octets| >= 2 && AreOctets(t.octets)
    ensures t.Ref? ==> IsName(t.name)
    ensures t.Text? ==> IsText(t.value)
    ensures t.Prose? ==> IsProse(t.text)
  {
  }

  lemma NoCount(s: string, i: nat)
    requires i < |s| && s[i] != '*' && !IsDigit(s[i])
    ensures CountAt(s, i) == Fails
  {
  }

  lemma TextIs(s: string, i: nat, v: string)
    requires IsText(v) && At(s, i, "\"" + v + "\"") && Ws(s, i) == i
    ensures Element(s, i) == Reads(Text(v), i + |v| + 2)
  {
    assert "\"" + v + "\"" == "\"" + (v + ['"']);
    AtParts(s, i, "\"", v + ['"']);
    AtFirst(s, i, "\"");
    QuotedIs(s, i + 1, v, '"', NoQuote);
  }

  lemma ProseIs(s: string, i: nat, v: string)
    requires IsProse(v) && At(s, i, "<" + v + ">") && Ws(s, i) == i
    ensures Element(s, i) == Reads(Prose(v), i + |v| + 2)
  {
    assert "<" + v + ">" == ("<" + v) + ['>'];
    QuotedIs(s, i, "<" + v, '>', NoGreater);
    AtParts(s, i, "<" + v, ['>']);
    AtParts(s, i, "<", v);
    AtFirst(s, i, "<");
  }

  // ---- Counts

  lemma DigitsAt(s: string, i: nat, n: nat)
    requires At(s, i, Decimal(n)) && (i + |Decimal(n)| < |s| ==> !IsDigit(s[i + |Decimal(n)|]))
    ensures Span(s, i, IsDigit) == i + |Decimal(n)| && Number(s[i..i + |Decimal(n)|], 10) == Some(n)
  {
    SpanIs(s, i, Decimal(n), IsDigit);
    NumberDigits(n, 10);
  }

  lemma NoDigits(s: string, i: nat)
    requires i <= |s| && (i < |s| ==> !IsDigit(s[i]))
    ensures Span(s, i, IsDigit) == i && Number(s[i..i], 10) == Some(0)
  {
    assert s[i..i] == [];
  }

  /** A count is read as it is printed, what follows being no digit and no star. */
  lemma CountIs(s: string, i: nat, least: nat, most: Option<nat>)
    requires At(s, i, Count(least, most))
    requires var j := i + |Count(least, most)|; j < |s| && !IsDigit(s[j]) && s[j] != '*'
    ensures CountAt(s, i) == Reads(Times(least, most), i + |Count(least, most)|)
  {
    hide Decimal, Number, Span, At;
    if most == Some(least) {
      DigitsAt(s, i, least);
    } else {
      var a, b := if least == 0 then [] else Decimal(least), if most.None? then [] else Decimal(most.value);
      StarIs(s, i, a, b, least, most);
    }
  }

  lemma LeastAt(s: string, i: nat, least: nat, a: string)
    requires At(s, i, a) && Next(s, i + |a|, '*') && a == if least == 0 then [] else Decimal(least)
    ensures Span(s, i, IsDigit) == i + |a| && Number(s[i..i + |a|], 10) == Some(least)
  {
    hide Decimal, Number, Span;
    if least == 0 { NoDigits(s, i); } else { DigitsAt(s, i, least); }
  }

  lemma MostAt(s: string, i: nat, most: Option<nat>, b: string)
    requires At(s, i, b) && i + |b| < |s| && !IsDigit(s[i + |b|]) && b == if most.None? then [] else Decimal(most.value)
    ensures Span(s, i, IsDigit) == i + |b| && most == if |b| > 0 then Number(s[i..i + |b|], 10) else None
  {
    hide Decimal, Number, Span;
    if most.None? { NoDigits(s, i); } else { DigitsAt(s, i, most.value); }
  }

  lemma StarIs(s: string, i: nat, a: string, b: string, least: nat, most: Option<nat>)
    requires At(s, i, a + "*" + b)
    requires a == if least == 0 then [] else Decimal(least)
    requires b == if most.None? then [] else Decimal(most.value)
    requires var j := i + |a| + 1 + |b|; j < |s| && !IsDigit(s[j])
    ensures CountAt(s, i) == Reads(Times(least, most), i + |a| + 1 + |b|)
  {
    hide Decimal, Number, Span, At;
    AtThree(s, i, a, "*", b);
    AtFirst(s, i + |a|, "*");
    LeastAt(s, i, least, a);
    MostAt(s, i + |a| + 1, most, b);
  }

  lemma CountStarts(least: nat, most: Option<nat>)
    ensures var c := Count(least, most); c != [] && (IsDigit(c[0]) || c[0] == '*')
  {
  }

  lemma OperandStarts(t: Term)
    requires Normal(t)
    ensures Operand(t) != [] && Starts(Operand(t)[0]) && !IsDigit(Operand(t)[0]) && Operand(t)[0] != '*'
  {
    ShowStarts(t);
    if Leaf(t) { LeafStarts(t); }
  }

  // ---- Terms

  lemma Unblank(s: string, i: nat)
    requires i < |s| && !IsBlank(s[i])
    ensures Ws(s, i) == i
  {
  }

  lemma ElementBracket(s: string, i: nat, t: Term, open: string, close: string)
    requires (open == "(" && close == ")") || (open == "[" && close == "]")
    requires At(s, i, open + Show(t) + close)
    requires Alternation(s, i + 1) == Reads(t, i + 1 + |Show(t)|)
    ensures Element(s, i) == Reads(if open == "(" then t else Rep(0, Some(1), t), i + |Show(t)| + 2)
    ensures CountAt(s, i) == Fails && i < |s| && Ws(s, i) == i
  {
    hide Alternation, Show, At, Ws;
    AtThree(s, i, open, Show(t), close);
    AtFirst(s, i, open);
    AtFirst(s, i + 1 + |Show(t)|, close);
    Unblank(s, i);
    Unblank(s, i + 1 + |Show(t)|);
    NoCount(s, i);
  }

  /** No count, and an element. */
  lemma OnlyElement(s: string, i: nat)
    requires i <= |s| && Ws(s, i) == i && CountAt(s, i) == Fails
    ensures Repetition(s, i) == Element(s, i)
  {
    hide Element, Ws, CountAt;
  }

  /** A count, and an element. */
  lemma CountedElement(s: string, i: nat, count: Times, j: nat, item: Term, e: nat)
    requires i <= |s| && Ws(s, i) == i && CountAt(s, i) == Reads(count, j) && Element(s, j) == Reads(item, e)
    ensures Repetition(s, i) == Reads(Rep(count.least, count.most, item), e)
  {
    hide Element, Ws, CountAt;
  }

  lemma RepeatIs(s: string, i: nat, t: Term)
    requires t.Rep? && Normal(t) && !(t.least == 0 && t.most == Some(1)) && At(s, i, Show(t))
    requires var j := i + |Count(t.least, t.most)|; Element(s, j) == Reads(t.item, j + |Operand(t.item)|)
    ensures Repetition(s, i) == Reads(t, i + |Show(t)|)
  {
    hide *;
    var c, u := Count(t.least, t.most), Operand(t.item);
    var j := i + |c|;
    Brackets(t);
    NormalParts(t);
    CountBefore(s, i, t);
    CountIs(s, i, t.least, t.most);
    CountedElement(s, i, Times(t.least, t.most), j, t.item, j + |u|);
  }

  /** A printed count stands at a mark, and before an element. */
  lemma CountBefore(s: string, i: nat, t: Term)
    requires t.Rep? && Normal(t.item) && At(s, i, Count(t.least, t.most) + Operand(t.item))
    ensures var c := Count(t.least, t.most);
      && i <= |s| && At(s, i, c) && Ws(s, i) == i
      && i + |c| < |s| && !IsDigit(s[i + |c|]) && s[i + |c|] != '*'
  {
    hide Count, Operand, Normal, At, Ws;
    OperandStarts(t.item);
    CountStarts(t.least, t.most);
    var c, u := Count(t.least, t.most), Operand(t.item);
    AtParts(s, i, c, u);
    AtFirst(s, i, c);
    AtFirst(s, i + |c|, u);
    Unblank(s, i);
  }

  // What may follow, from what does.

  lemma Follows(s: string, j: nat)
    ensures Stop(s, j) ==> StopItem(s, j)
    ensures StopItem(s, j) ==> Sep(s, j)
    ensures j < |s| && s[j] == ' ' ==> Sep(s, j)
    ensures j < |s| && (s[j] == ')' || s[j] == ']') ==> Stop(s, j) && Sep(s, j)
    ensures j + 1 < |s| && s[j] == ' ' && s[j + 1] == '/' ==> StopItem(s, j)
  {
  }

  lemma Brackets(t: Term)
    ensures t.Seq? || t.Alt? ==> ShowIn(t) == "(" + Show(t) + ")"
    ensures !t.Seq? && !t.Alt? ==> ShowIn(t) == Show(t)
    ensures t.Seq? || t.Alt? || t.Rep? ==> Operand(t) == "(" + Show(t) + ")"
    ensures Leaf(t) ==> Operand(t) == Show(t)
    ensures Leaf(t) <==> !(t.Seq? || t.Alt? || t.Rep?)
    ensures t.Rep? ==> Show(t) == if t.least == 0 && t.most == Some(1) then "[" + Show(t.item) + "]"
                                  else Count(t.least, t.most) + Operand(t.item)
    ensures t.Seq? ==> Show(t) == ShowSeq(t.items)
    ensures t.Alt? ==> Show(t) == ShowAlt(t.items)
  {
  }

  lemma NormalParts(t: Term)
    requires Normal(t)
    ensures t.Rep? ==> Normal(t.item)
    ensures t.Seq? || t.Alt? ==> |t.items| >= 2 && forall k :: 0 <= k < |t.items| ==> Normal(t.items[k])
  {
  }

  lemma Bracketed(s: string, i: nat, t: Term)
    requires Normal(t) && At(s, i, "(" + Show(t) + ")")
    ensures Element(s, i) == Reads(t, i + |Show(t)| + 2) && Repetition(s, i) == Element(s, i)
    decreases t, 3
  {
    hide *;
    AtThree(s, i, "(", Show(t), ")");
    AtFirst(s, i + 1 + |Show(t)|, ")");
    Follows(s, i + 1 + |Show(t)|);
    AltOf(s, i + 1, t);
    ElementBracket(s, i, t, "(", ")");
    OnlyElement(s, i);
  }

  lemma RepPlain(s: string, i: nat, t: Term)
    requires Normal(t) && !t.Seq? && !t.Alt? && At(s, i, Show(t)) && Sep(s, i + |Show(t)|)
    ensures Repetition(s, i) == Reads(t, i + |Show(t)|)
    decreases t, 0
  {
    hide *;
    Brackets(t);
    NormalParts(t);
    if t.Rep? {
      if t.least == 0 && t.most == Some(1) {
        AtThree(s, i, "[", Show(t.item), "]");
        AtFirst(s, i + 1 + |Show(t.item)|, "]");
        Follows(s, i + 1 + |Show(t.item)|);
        AltOf(s, i + 1, t.item);
        ElementBracket(s, i, t.item, "[", "]");
        OnlyElement(s, i);
      } else {
        var j := i + |Count(t.least, t.most)|;
        AtParts(s, i, Count(t.least, t.most), Operand(t.item));
        ElementOf(s, j, t.item);
        RepeatIs(s, i, t);
      }
    } else {
      LeafIs(s, i, t);
      LeafNow(s, i, t);
      OnlyElement(s, i);
    }
  }

  lemma LeafNow(s: string, i: nat, t: Term)
    requires Normal(t) && At(s, i, Show(t))
    ensures i < |s| && Ws(s, i) == i
  {
    hide At, Ws, Normal, Show;
    ShowStarts(t);
    StartsNow(s, i, Show(t));
  }

  lemma ConcatOf(s: string, i: nat, t: Term)
    requires Normal(t) && !t.Alt? && At(s, i, Show(t)) && StopItem(s, i + |Show(t)|)
    ensures i + |Show(t)| <= |s| && Concatenation(s, i) == Reads(t, Ws(s, i + |Show(t)|))
    decreases t, 1
  {
    hide *;
    AtFits(s, i, Show(t));
    Brackets(t);
    NormalParts(t);
    if t.Seq? {
      SeqItems(s, i, t.items, []);
      assert [] + t.items == t.items;
    } else {
      Follows(s, i + |Show(t)|);
      RepPlain(s, i, t);
      LeafNow(s, i, t);
      LastItem(s, i, t, []);
      assert [] + [t] == [t];
    }
    ConcatenationIs(s, i);
  }

  lemma ConcatenationIs(s: string, i: nat)
    requires i <= |s| && ConcatLoop(s, i, []).Reads?
    ensures var r := ConcatLoop(s, i, []);
      Concatenation(s, i) == Reads(if |r.value| == 1 then r.value[0] else Seq(r.value), r.at)
  {
    hide ConcatLoop;
  }

  lemma LastItem(s: string, i: nat, t: Term, items: seq<Term>)
    requires i < |s| && Repetition(s, i).Reads? && Repetition(s, i).value == t && StopItem(s, Repetition(s, i).at)
    ensures ConcatLoop(s, i, items) == Reads(items + [t], Ws(s, Repetition(s, i).at))
  {
    hide Repetition;
    var j := Repetition(s, i).at;
    ConcatStep(s, i, items);
    assert EndsItems(s, Ws(s, j));
  }

  lemma ShowSeqParts(items: seq<Term>)
    requires items != []
    ensures |items| == 1 ==> ShowSeq(items) == ShowIn(items[0])
    ensures |items| > 1 ==> ShowSeq(items) == ShowIn(items[0]) + " " + ShowSeq(items[1..])
  {
    hide ShowIn;
  }

  lemma SeqItems(s: string, i: nat, items: seq<Term>, before: seq<Term>)
    requires items != [] && (forall k :: 0 <= k < |items| ==> Normal(items[k]))
    requires At(s, i, ShowSeq(items)) && StopItem(s, i + |ShowSeq(items)|)
    ensures i + |ShowSeq(items)| <= |s|
    ensures ConcatLoop(s, i, before) == Reads(before + items, Ws(s, i + |ShowSeq(items)|))
    decreases items, 0
  {
    hide *;
    AtFits(s, i, ShowSeq(items));
    var t := items[0];
    var j := i + |ShowIn(t)|;
    ShowSeqParts(items);
    if |items| == 1 {
      Follows(s, j);
      RepOf(s, i, t);
      LastItem(s, i, t, before);
      assert before + [t] == before + items;
    } else {
      var rest := items[1..];
      AtThree(s, i, ShowIn(t), " ", ShowSeq(rest));
      AtFirst(s, j, " ");
      Follows(s, j);
      RepOf(s, i, t);
      SeqStarts(rest);
      StartsNow(s, j + 1, ShowSeq(rest));
      MoreItems(s, i, t, before, j);
      SeqItems(s, j + 1, rest, before + [t]);
      Regroup(before, t, items);
    }
  }

  lemma Regroup(before: seq<Term>, t: Term, items: seq<Term>)
    requires items != [] && items[0] == t
    ensures before + [t] + items[1..] == before + items
  {
  }

  /** A blank and an item after it. */
  lemma MoreItems(s: string, i: nat, t: Term, before: seq<Term>, j: nat)
    requires i <= |s| && Repetition(s, i) == Reads(t, j) && j + 1 < |s| && s[j] == ' '
    requires Ws(s, j + 1) == j + 1 && !EndsItems(s, j + 1)
    ensures ConcatLoop(s, i, before) == ConcatLoop(s, j + 1, before + [t])
  {
    hide Repetition;
    assert Ws(s, j) == j + 1;
    ConcatStep(s, i, before);
  }

  lemma MoreAlternatives(s: string, i: nat, t: Term, before: seq<Term>, j: nat)
    requires i <= |s| && j + 2 < |s| && s[j + 2] == ' ' && Next(s, j + 1, '/')
    requires Concatenation(s, i) == Reads(t, j + 1) && Ws(s, j + 1) == j + 1
    ensures AltLoop(s, i, before) == AltLoop(s, j + 3, before + [t])
  {
    hide Concatenation;
    AltStep(s, i, before);
    AltBlank(s, j + 2, before + [t]);
  }

  lemma SeqStarts(items: seq<Term>)
    requires items != [] && Normal(items[0])
    ensures ShowSeq(items) != [] && Starts(ShowSeq(items)[0])
    ensures ShowAlt(items) != [] && Starts(ShowAlt(items)[0])
  {
    ShowStarts(items[0]);
  }

  lemma AltOf(s: string, i: nat, t: Term)
    requires Normal(t) && At(s, i, Show(t)) && Stop(s, i + |Show(t)|)
    ensures Alternation(s, i) == Reads(t, i + |Show(t)|)
    decreases t, 2
  {
    hide *;
    AtFits(s, i, Show(t));
    Brackets(t);
    NormalParts(t);
    if t.Alt? {
      AltItems(s, i, t.items, []);
      assert [] + t.items == t.items;
    } else {
      Follows(s, i + |Show(t)|);
      ConcatOf(s, i, t);
      LastAlternative(s, i, t, [], i + |Show(t)|);
      assert [] + [t] == [t];
    }
    AlternationIs(s, i);
  }

  lemma AlternationIs(s: string, i: nat)
    requires i <= |s| && AltLoop(s, i, []).Reads?
    ensures var r := AltLoop(s, i, []);
      Alternation(s, i) == Reads(if |r.value| == 1 then r.value[0] else Alt(r.value), r.at)
  {
    hide AltLoop;
  }

  lemma LastAlternative(s: string, i: nat, t: Term, items: seq<Term>, end: nat)
    requires i <= |s| && end <= |s| && Stop(s, end) && Concatenation(s, i) == Reads(t, Ws(s, end))
    ensures AltLoop(s, i, items) == Reads(items + [t], end)
  {
    hide Concatenation;
    AltStep(s, i, items);
  }

  function Alternative(t: Term): string { if t.Alt? then ShowIn(t) else Show(t) }

  lemma ShowAltParts(items: seq<Term>)
    requires items != []
    ensures |items| == 1 ==> ShowAlt(items) == Alternative(items[0])
    ensures |items| > 1 ==> ShowAlt(items) == Alternative(items[0]) + " / " + ShowAlt(items[1..])
  {
    hide ShowIn, Show;
  }

  lemma AltItems(s: string, i: nat, items: seq<Term>, before: seq<Term>)
    requires items != [] && (forall k :: 0 <= k < |items| ==> Normal(items[k]))
    requires At(s, i, ShowAlt(items)) && Stop(s, i + |ShowAlt(items)|)
    ensures AltLoop(s, i, before) == Reads(before + items, i + |ShowAlt(items)|)
    decreases items, 1
  {
    hide *;
    AtFits(s, i, ShowAlt(items));
    var t := items[0];
    var u := Alternative(t);
    var j := i + |u|;
    ShowAltParts(items);
    if |items| == 1 {
      Follows(s, j);
      AlternativeOf(s, i, t);
      LastAlternative(s, i, t, before, j);
      assert before + [t] == before + items;
    } else {
      var rest := items[1..];
      AtThree(s, i, u, " / ", ShowAlt(rest));
      Slashed(s, j);
      AlternativeOf(s, i, t);
      SeqStarts(rest);
      MoreAlternatives(s, i, t, before, j);
      AltItems(s, j + 3, rest, before + [t]);
      Regroup(before, t, items);
    }
  }

  lemma Slashed(s: string, j: nat)
    requires At(s, j, " / ")
    ensures j + 2 < |s| && s[j + 2] == ' ' && StopItem(s, j) && Ws(s, j) == j + 1 && Ws(s, j + 1) == j + 1
    ensures Next(s, j + 1, '/')
  {
    assert s[j..j + 3][0] == s[j] && s[j..j + 3][1] == s[j + 1] && s[j..j + 3][2] == s[j + 2];
  }

  /** One alternative, bracketed when it is itself an alternation. */
  lemma AlternativeOf(s: string, i: nat, t: Term)
    requires Normal(t) && At(s, i, Alternative(t)) && StopItem(s, i + |Alternative(t)|)
    ensures i + |Alternative(t)| <= |s| && Concatenation(s, i) == Reads(t, Ws(s, i + |Alternative(t)|))
    decreases t, 5
  {
    hide At, Normal, Show, ShowIn, Ws, Concatenation, ConcatLoop, Repetition, StopItem, Stop, Sep;
    AtFits(s, i, Alternative(t));
    if t.Alt? {
      Follows(s, i + |Alternative(t)|);
      RepOf(s, i, t);
      LastItem(s, i, t, []);
      assert [] + [t] == [t];
      ConcatenationIs(s, i);
    } else {
      ConcatOf(s, i, t);
    }
  }

  lemma RepetitionBlank(s: string, i: nat)
    requires i < |s| && s[i] == ' '
    ensures Repetition(s, i) == Repetition(s, i + 1)
  {
    hide CountAt, Element;
    assert Ws(s, i) == Ws(s, i + 1);
  }

  lemma ConcatBlank(s: string, i: nat)
    requires i < |s| && s[i] == ' '
    ensures Concatenation(s, i) == Concatenation(s, i + 1)
  {
    hide Repetition, ConcatLoop, Ws;
    RepetitionBlank(s, i);
    ConcatStep(s, i, []);
    ConcatStep(s, i + 1, []);
  }

  /** A blank before an alternative is nothing. */
  lemma AltBlank(s: string, i: nat, items: seq<Term>)
    requires i < |s| && s[i] == ' '
    ensures AltLoop(s, i, items) == AltLoop(s, i + 1, items)
  {
    hide *;
    ConcatBlank(s, i);
    AltStep(s, i, items);
    AltStep(s, i + 1, items);
  }

  lemma ElementOf(s: string, i: nat, t: Term)
    requires Normal(t) && At(s, i, Operand(t)) && Sep(s, i + |Operand(t)|)
    ensures Element(s, i) == Reads(t, i + |Operand(t)|)
    decreases t, 4
  {
    hide *;
    Brackets(t);
    if Leaf(t) { LeafIs(s, i, t); } else { Bracketed(s, i, t); }
  }

  lemma RepOf(s: string, i: nat, t: Term)
    requires Normal(t) && At(s, i, ShowIn(t)) && Sep(s, i + |ShowIn(t)|)
    ensures i < |s| && Repetition(s, i) == Reads(t, i + |ShowIn(t)|)
    decreases t, 4
  {
    hide *;
    Brackets(t);
    if t.Seq? || t.Alt? {
      AtThree(s, i, "(", Show(t), ")");
      AtFirst(s, i, "(");
      Bracketed(s, i, t);
    } else {
      RepPlain(s, i, t);
      LeafNow(s, i, t);
    }
  }
}
