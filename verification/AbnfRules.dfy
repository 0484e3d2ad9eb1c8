/** Rules printed and read: through comments stripped, and back to what was printed. */
module AbnfRules {
  import opened Abnf
  import opened AbnfParser
  import opened AbnfRoundTrip

  function Printed(r: Rule): string { r.name + (if r.incremental then " =/ " else " = ") + Show(r.term) }

  // ---- Comments

  /** Nothing of the text is taken for a comment, and what follows it is read as if alone. */
  ghost predicate Through(u: string) {
    forall rest {:trigger u + rest} :: Uncommented(u + rest, false, false) == u + Uncommented(rest, false, false)
  }

  lemma ThroughParts(u: string, v: string)
    requires Through(u) && Through(v)
    ensures Through(u + v)
  {
    hide Uncommented;
    forall rest ensures Uncommented((u + v) + rest, false, false) == (u + v) + Uncommented(rest, false, false) {
      assert (u + v) + rest == u + (v + rest);
      assert u + (v + Uncommented(rest, false, false)) == (u + v) + Uncommented(rest, false, false);
    }
  }

  lemma ThroughThree(u: string, v: string, w: string)
    requires Through(u) && Through(v) && Through(w)
    ensures Through(u + v + w)
  {
    hide Through;
    ThroughParts(u, v);
    ThroughParts(u + v, w);
  }

  predicate Bare(c: char) { c != '"' && c != '<' && c != ';' }

  lemma {:induction false} BareOn(u: string, rest: string)
    requires forall k :: 0 <= k < |u| ==> Bare(u[k])
    ensures Uncommented(u + rest, false, false) == u + Uncommented(rest, false, false)
  {
    if u == [] {
      assert u + rest == rest;
    } else {
      UncommentedStep(u + rest, false, false);
      hide Uncommented;
      assert (u + rest)[1..] == u[1..] + rest;
      BareOn(u[1..], rest);
    }
  }

  lemma ThroughBare(u: string)
    requires forall k :: 0 <= k < |u| ==> Bare(u[k])
    ensures Through(u)
  {
    forall rest ensures Uncommented(u + rest, false, false) == u + Uncommented(rest, false, false) {
      BareOn(u, rest);
    }
  }

  lemma {:induction false} QuotedOn(v: string, rest: string)
    requires IsText(v)
    ensures Uncommented(v + "\"" + rest, true, false) == v + "\"" + Uncommented(rest, false, false)
  {
    var line := v + "\"" + rest;
    UncommentedStep(line, true, false);
    hide Uncommented;
    if v == [] {
      assert line[1..] == rest;
    } else {
      assert line[1..] == v[1..] + "\"" + rest;
      QuotedOn(v[1..], rest);
    }
  }

  lemma {:induction false} ProseOn(v: string, rest: string)
    requires IsProse(v)
    ensures Uncommented(v + ">" + rest, false, true) == v + ">" + Uncommented(rest, false, false)
  {
    var line := v + ">" + rest;
    UncommentedStep(line, false, true);
    hide Uncommented;
    if v == [] {
      assert line[1..] == rest;
    } else {
      assert line[1..] == v[1..] + ">" + rest;
      ProseOn(v[1..], rest);
    }
  }

  lemma ThroughText(v: string)
    requires IsText(v)
    ensures Through("\"" + v + "\"")
  {
    hide Uncommented;
    var u := "\"" + v + "\"";
    forall rest ensures Uncommented(u + rest, false, false) == u + Uncommented(rest, false, false) {
      UncommentedStep(u + rest, false, false);
      assert (u + rest)[1..] == v + "\"" + rest;
      QuotedOn(v, rest);
      assert ['"'] + (v + "\"" + Uncommented(rest, false, false)) == u + Uncommented(rest, false, false);
    }
  }

  lemma ThroughProse(v: string)
    requires IsProse(v)
    ensures Through("<" + v + ">")
  {
    hide Uncommented;
    var u := "<" + v + ">";
    forall rest ensures Uncommented(u + rest, false, false) == u + Uncommented(rest, false, false) {
      UncommentedStep(u + rest, false, false);
      assert (u + rest)[1..] == v + ">" + rest;
      ProseOn(v, rest);
      assert ['<'] + (v + ">" + Uncommented(rest, false, false)) == u + Uncommented(rest, false, false);
    }
  }

  predicate OneLine(u: string) { '\n' !in u }

  /** Printed text is one line, none of it a comment. */
  ghost predicate Kept(u: string) { Through(u) && OneLine(u) }

  lemma KeptBare(u: string)
    requires forall k :: 0 <= k < |u| ==> Bare(u[k]) && u[k] != '\n'
    ensures Kept(u)
  {
    ThroughBare(u);
  }

  lemma KeptThree(u: string, v: string, w: string)
    requires Kept(u) && Kept(v) && Kept(w)
    ensures Kept(u + v + w)
  {
    ThroughThree(u, v, w);
  }

  lemma {:induction false} DottedBare(v: seq<nat>)
    ensures forall k :: 0 <= k < |Dotted(v)| ==> Bare(Dotted(v)[k]) && Dotted(v)[k] != '\n'
  {
    if |v| > 1 { DottedBare(v[1..]); }
  }

  lemma KeptText(v: string)
    ensures IsText(v) ==> Kept("\"" + v + "\"")
    ensures IsProse(v) ==> Kept("<" + v + ">")
  {
    hide Through;
    if IsText(v) { ThroughText(v); }
    if IsProse(v) { ThroughProse(v); }
  }

  lemma KeptRange(lo: nat, hi: nat)
    ensures Kept(Show(Range(lo, hi)))
  {
    hide Through, Hex, Kept;
    KeptBare(Show(Range(lo, hi)));
  }

  lemma KeptExact(v: seq<nat>)
    ensures Kept("%x" + Dotted(v))
  {
    hide Through, Kept, Dotted;
    DottedBare(v);
    KeptBare("%x" + Dotted(v));
  }

  lemma KeptName(name: string)
    requires IsName(name)
    ensures Kept(name)
  {
    hide Kept;
    KeptBare(name);
  }

  lemma KeptLeaf(t: Term)
    requires Normal(t) && Leaf(t)
    ensures Kept(Show(t))
  {
    LeafStarts(t);
    hide Kept, Normal, Hex, Dotted, IsText, IsProse, IsName;
    match t {
      case Text(v) => KeptText(v);
      case Prose(v) => KeptText(v);
      case Exact(v) => KeptExact(v);
      case Range(lo, hi) => KeptRange(lo, hi);
      case Ref(name) => KeptName(name);
    }
  }

  lemma KeptCount(least: nat, most: Option<nat>)
    ensures Kept(Count(least, most))
  {
    KeptBare(Count(least, most));
  }

  lemma KeptMarks()
    ensures Kept("(") && Kept(")") && Kept("[") && Kept("]") && Kept(" ") && Kept(" / ") && Kept("")
  {
    KeptBare("(");
    KeptBare(")");
    KeptBare("[");
    KeptBare("]");
    KeptBare(" ");
    KeptBare(" / ");
    KeptBare("");
  }

  lemma KeptShow(t: Term)
    requires Normal(t)
    ensures Kept(Show(t)) && Kept(ShowIn(t)) && Kept(Operand(t))
    decreases t, 1
  {
    hide *;
    KeptMarks();
    Brackets(t);
    NormalParts(t);
    if Leaf(t) {
      KeptLeaf(t);
    } else if t.Rep? {
      KeptShow(t.item);
      KeptCount(t.least, t.most);
      KeptThree("[", Show(t.item), "]");
      KeptThree(Count(t.least, t.most), Operand(t.item), "");
      assert Count(t.least, t.most) + Operand(t.item) + "" == Count(t.least, t.most) + Operand(t.item);
    } else if t.Seq? {
      KeptSeq(t.items);
    } else {
      KeptAlt(t.items);
    }
    KeptThree("(", Show(t), ")");
  }

  lemma KeptSeq(items: seq<Term>)
    requires items != [] && (forall k :: 0 <= k < |items| ==> Normal(items[k]))
    ensures Kept(ShowSeq(items))
    decreases items, 0
  {
    hide *;
    KeptMarks();
    ShowSeqParts(items);
    KeptShow(items[0]);
    if |items| > 1 {
      KeptSeq(items[1..]);
      KeptThree(ShowIn(items[0]), " ", ShowSeq(items[1..]));
    }
  }

  lemma KeptAlt(items: seq<Term>)
    requires items != [] && (forall k :: 0 <= k < |items| ==> Normal(items[k]))
    ensures Kept(ShowAlt(items))
    decreases items, 0
  {
    hide Kept, Show, ShowIn, ShowAlt, Normal;
    KeptMarks();
    ShowAltParts(items);
    KeptShow(items[0]);
    if |items| > 1 {
      KeptAlt(items[1..]);
      KeptThree(Alternative(items[0]), " / ", ShowAlt(items[1..]));
    }
  }

  /** A kept line is stripped of nothing. */
  lemma StripKept(u: string)
    requires Kept(u)
    ensures StripComments(u) == u
  {
    assert Span(u, 0, (c: char) => c != '\n') == |u|;
    assert u + [] == u;
    UncommentedNone(false, false);
    assert Uncommented(u + [], false, false) == u + Uncommented([], false, false);
    var lines := UncommentedAll(LinesOf(u));
    assert |lines| == 1 && lines[0] == u;
  }

  predicate NormalRule(r: Rule) { IsName(r.name) && Normal(r.term) }

  lemma PrintedKept(r: Rule)
    requires NormalRule(r)
    ensures Kept(Printed(r))
  {
    var eq := if r.incremental then " =/ " else " = ";
    KeptBare(r.name);
    KeptBare(eq);
    KeptShow(r.term);
    KeptThree(r.name, eq, Show(r.term));
  }

  // ---- Reading a printed rule

  /** The name and the sign before the term. */
  lemma HeadIs(r: Rule, s: string)
    requires IsName(r.name) && s == Printed(r)
    ensures var n := |r.name|;
      && Ws(s, 0) == 0 && RuleName(s, 0) == Reads(r.name, n) && Ws(s, n) == n + 1 && Next(s, n + 1, '=')
      && (Next(s, n + 2, '/') <==> r.incremental)
      && var j := if r.incremental then n + 3 else n + 2;
      Next(s, j, ' ') && At(s, j + 1, Show(r.term)) && j + 1 + |Show(r.term)| == |s|
  {
    hide Show;
    var n, eq := |r.name|, if r.incremental then " =/ " else " = ";
    assert s == r.name + eq + Show(r.term);
    assert s[..n] == r.name && s[n..n + |eq|] == eq && s[n + |eq|..] == Show(r.term);
    assert s[n] == eq[0] && s[n + 1] == eq[1] && s[n + 2] == eq[2];
    assert r.incremental ==> s[n + 3] == eq[3];
    NameIs(s, 0, r.name);
  }

  lemma AlternationBlank(s: string, i: nat)
    requires i < |s| && s[i] == ' '
    ensures Alternation(s, i) == Alternation(s, i + 1)
  {
    hide AltLoop;
    AltBlank(s, i, []);
  }

  lemma TextRead(r: Rule)
    requires NormalRule(r)
    ensures ParseText(Printed(r)) == Some(r)
  {
    hide Alternation, RuleName, Show, At, Printed, Ws;
    var s, n := Printed(r), |r.name|;
    HeadIs(r, s);
    var j := if r.incremental then n + 3 else n + 2;
    AlternationBlank(s, j);
    EndStops(s, |s|);
    AltOf(s, j + 1, r.term);
  }

  lemma EndStops(s: string, j: nat)
    requires j == |s|
    ensures Stop(s, j) && Ws(s, j) == j
  {
  }

  /** Parsing a printed rule gives the rule back, for every rule of a normal term. */
  lemma ParsePrinted(r: Rule)
    requires NormalRule(r)
    ensures Parse(Printed(r)) == Some(r)
  {
    hide *;
    PrintedKept(r);
    StripKept(Printed(r));
    TextRead(r);
    ParseIs(Printed(r));
  }

  lemma ParseIs(u: string)
    ensures Parse(u) == ParseText(StripComments(u))
  {
  }

  // ---- What a parser returns is normal

  lemma NameNormal(s: string, i: nat)
    requires i <= |s| && RuleName(s, i).Reads?
    ensures IsName(RuleName(s, i).value)
  {
  }

  lemma NumNormal(s: string, i: nat)
    requires i <= |s| && NumVal(s, i).Reads?
    ensures Normal(NumVal(s, i).value)
  {
    hide Span, Number;
  }

  lemma TextNormal(s: string, i: nat, j: nat)
    requires OneLine(s) && i <= j <= |s| && IsAscii(s[i..j]) && forall k :: i <= k < j ==> NoQuote(s[k])
    ensures IsText(s[i..j])
  {
    forall k | i <= k < j ensures s[k] != '\n' {
      assert s[k] in s;
    }
  }

  lemma ProseNormal(s: string, i: nat, j: nat)
    requires OneLine(s) && i <= j <= |s| && forall k :: i <= k < j ==> NoGreater(s[k])
    ensures IsProse(s[i..j])
  {
    forall k | i <= k < j ensures s[k] != '\n' {
      assert s[k] in s;
    }
  }

  ghost predicate AllNormal(items: seq<Term>) { forall k :: 0 <= k < |items| ==> Normal(items[k]) }

  lemma AltNormal(s: string, i: nat)
    requires OneLine(s) && i <= |s| && Alternation(s, i).Reads?
    ensures Normal(Alternation(s, i).value)
    decreases |s| - i, 5
  {
    hide AltLoop;
    AltLoopNormal(s, i, []);
  }

  lemma AltLoopNormal(s: string, i: nat, items: seq<Term>)
    requires OneLine(s) && i <= |s| && AltLoop(s, i, items).Reads? && AllNormal(items)
    ensures AllNormal(AltLoop(s, i, items).value)
    decreases |s| - i, 4
  {
    AltStep(s, i, items);
    hide AltLoop, Concatenation, Normal;
    ConcatNormal(s, i);
    var c := Concatenation(s, i);
    if Next(s, Ws(s, c.at), '/') { AltLoopNormal(s, Ws(s, c.at) + 1, items + [c.value]); }
  }

  lemma ConcatNormal(s: string, i: nat)
    requires OneLine(s) && i <= |s| && Concatenation(s, i).Reads?
    ensures Normal(Concatenation(s, i).value)
    decreases |s| - i, 3
  {
    hide ConcatLoop;
    ConcatLoopNormal(s, i, []);
  }

  lemma ConcatLoopNormal(s: string, i: nat, items: seq<Term>)
    requires OneLine(s) && i <= |s| && ConcatLoop(s, i, items).Reads? && AllNormal(items)
    ensures AllNormal(ConcatLoop(s, i, items).value)
    decreases |s| - i, 2
  {
    ConcatStep(s, i, items);
    hide ConcatLoop, Repetition, Normal;
    RepNormal(s, i);
    var c := Repetition(s, i);
    if !EndsItems(s, Ws(s, c.at)) { ConcatLoopNormal(s, Ws(s, c.at), items + [c.value]); }
  }

  lemma RepNormal(s: string, i: nat)
    requires OneLine(s) && i <= |s| && Repetition(s, i).Reads?
    ensures Normal(Repetition(s, i).value)
    decreases |s| - i, 1
  {
    hide Element, CountAt, Ws;
    var j := Ws(s, i);
    var count := CountAt(s, j);
    ElementNormal(s, if count.Reads? then count.at else j);
  }

  lemma ElementNormal(s: string, from: nat)
    requires OneLine(s) && from <= |s| && Element(s, from).Reads?
    ensures Normal(Element(s, from).value)
    decreases |s| - from, 0
  {
    hide Alternation, NumVal, RuleName, Span, Ws, IsText, IsProse, IsName;
    var i := Ws(s, from);
    if Next(s, i, '(') || Next(s, i, '[') {
      AltNormal(s, i + 1);
    } else if Next(s, i, '"') {
      TextNormal(s, i + 1, Span(s, i + 1, NoQuote));
    } else if Next(s, i, '%') {
      NumNormal(s, i);
    } else if Next(s, i, '<') {
      ProseNormal(s, i + 1, Span(s, i, NoGreater));
    } else {
      NameNormal(s, i);
    }
  }

  lemma {:induction false} UncommentedOneLine(line: string, quote: bool, prose: bool)
    requires OneLine(line)
    ensures OneLine(Uncommented(line, quote, prose))
    decreases |line|
  {
    if line != [] {
      UncommentedStep(line, quote, prose);
      hide Uncommented;
      var c := line[0];
      assert line == [c] + line[1..];
      UncommentedOneLine(line[1..], if c == '"' && !prose then !quote else quote,
                         if c == '<' && !quote then true else if c == '>' && prose then false else prose);
    }
  }

  lemma {:induction false} LinesOneLine(text: string)
    ensures forall k :: 0 <= k < |LinesOf(text)| ==> OneLine(LinesOf(text)[k])
    decreases |text|
  {
    var end := Span(text, 0, (c: char) => c != '\n');
    assert OneLine(text[..end]);
    if end < |text| { LinesOneLine(text[end + 1..]); } else { assert text[..end] == text; }
  }

  lemma {:induction false} SpacedOneLine(lines: seq<string>)
    requires forall k :: 0 <= k < |lines| ==> OneLine(lines[k])
    ensures OneLine(Spaced(lines))
  {
    if |lines| > 1 { SpacedOneLine(lines[1..]); }
  }

  lemma StripOneLine(definition: string)
    ensures OneLine(StripComments(definition))
  {
    hide Uncommented, OneLine, Spaced, LinesOf;
    LinesOneLine(definition);
    var lines := LinesOf(definition);
    forall k | 0 <= k < |lines| ensures OneLine(UncommentedAll(lines)[k]) {
      UncommentedOneLine(lines[k], false, false);
    }
    SpacedOneLine(UncommentedAll(lines));
  }

  /** Whatever is read is normal. */
  lemma ParseNormal(definition: string)
    requires Parse(definition).Some?
    ensures NormalRule(Parse(definition).value)
  {
    StripOneLine(definition);
    hide StripComments, Alternation, RuleName, Ws, IsName, Normal;
    var s := StripComments(definition);
    NameNormal(s, Ws(s, 0));
    var i := Ws(s, RuleName(s, Ws(s, 0)).at);
    AltNormal(s, if Next(s, i, '=') && Next(s, i + 1, '/') then i + 2 else i + 1);
  }

  /** So printing and reading again changes nothing. */
  lemma PrintStable(definition: string)
    requires Parse(definition).Some?
    ensures Parse(Printed(Parse(definition).value)) == Parse(definition)
  {
    hide *;
    ParseNormal(definition);
    ParsePrinted(Parse(definition).value);
  }

  /** The rules that come back are exactly those of normal terms. */
  lemma RoundTripIff(r: Rule)
    ensures Parse(Printed(r)) == Some(r) <==> NormalRule(r)
  {
    hide *;
    if NormalRule(r) { ParsePrinted(r); }
    if Parse(Printed(r)) == Some(r) { ParseNormal(Printed(r)); }
  }

  /** What is not normal need not come back: one octet alone is read as a range. */
  lemma OneOctet()
    ensures Parse(Printed(Rule("a", false, Exact([13])))) == Some(Rule("a", false, Range(13, 13)))
  {
    ParsePrinted(Rule("a", false, Range(13, 13)));
    assert Show(Exact([13])) == "%x" + Hex(13) == Show(Range(13, 13));
  }
}
