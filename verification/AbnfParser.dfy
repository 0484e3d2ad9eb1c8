/** Reading ABNF: a definition stripped of its comments, and its terms by recursive descent. */
module AbnfParser {
  import opened Abnf

  datatype Reading<T> = Fails | Reads(value: T, at: nat)

  // ---- Scanning

  /** Where the characters from `i` on that `p` holds of end. */
  function Span(s: string, i: nat, p: char -> bool): (j: nat)
    requires i <= |s|
    ensures i <= j <= |s| && (forall k :: i <= k < j ==> p(s[k])) && (j < |s| ==> !p(s[j]))
    decreases |s| - i
  {
    if i < |s| && p(s[i]) then Span(s, i + 1, p) else i
  }

  predicate IsBlank(c: char) { c == ' ' || c == '\t' }

  predicate NoQuote(c: char) { c != '"' }

  predicate NoGreater(c: char) { c != '>' }

  function Ws(s: string, i: nat): (j: nat)
    requires i <= |s|
    ensures i <= j <= |s|
  {
    Span(s, i, IsBlank)
  }

  predicate Next(s: string, i: nat, c: char) { i < |s| && s[i] == c }

  function LowerAll(s: string): string { seq(|s|, i requires 0 <= i < |s| => Lower(s[i])) }

  function RuleName(s: string, i: nat): (r: Reading<string>)
    requires i <= |s|
    ensures r.Reads? ==> i < r.at <= |s|
  {
    if i < |s| && IsLetter(s[i]) then
      var j := Span(s, i, IsNameChar);
      Reads(LowerAll(s[i..j]), j)
    else Fails
  }

  // ---- Counts and numbers

  datatype Times = Times(least: nat, most: Option<nat>)

  function OrElse(n: Option<nat>): nat { if n.Some? then n.value else 0 }

  /** How often, when a count is there. */
  function CountAt(s: string, i: nat): (r: Reading<Times>)
    requires i <= |s|
    ensures r.Reads? ==> i < r.at <= |s|
  {
    var d := Span(s, i, IsDigit);
    if Next(s, d, '*') then
      var e := Span(s, d + 1, IsDigit);
      Reads(Times(OrElse(Number(s[i..d], 10)), if e > d + 1 then Number(s[d + 1..e], 10) else None), e)
    else if d > i then Reads(Times(OrElse(Number(s[i..d], 10)), Some(OrElse(Number(s[i..d], 10)))), d)
    else Fails
  }

  predicate HexAt(s: string, i: nat) { i < |s| && IsHex(s[i]) }

  function BaseOf(c: char): Option<nat> {
    if c == 'b' then Some(2) else if c == 'd' then Some(10) else if c == 'x' then Some(16) else None
  }

  /** The numbers after dots, as far as they go. */
  function DotsAt(s: string, i: nat, base: nat): (r: (Option<seq<nat>>, nat))
    requires i <= |s|
    ensures i <= r.1 <= |s|
    decreases |s| - i
  {
    if Next(s, i, '.') && HexAt(s, i + 1) then
      var j := Span(s, i + 1, IsHex);
      var n := Number(s[i + 1..j], base);
      var rest := DotsAt(s, j, base);
      (if n.Some? && rest.0.Some? then Some([n.value] + rest.0.value) else None, rest.1)
    else (Some([]), i)
  }

  function NumVal(s: string, i: nat): (r: Reading<Term>)
    requires i <= |s|
    ensures r.Reads? ==> i < r.at <= |s|
  {
    if !(Next(s, i, '%') && i + 1 < |s| && BaseOf(s[i + 1]).Some? && HexAt(s, i + 2)) then Fails
    else
      var base := BaseOf(s[i + 1]).value;
      var h := Span(s, i + 2, IsHex);
      var first := Number(s[i + 2..h], base);
      if first.None? then Fails
      else if Next(s, h, '.') && HexAt(s, h + 1) then
        var rest := DotsAt(s, h, base);
        if rest.0.Some? && AreOctets([first.value] + rest.0.value) then Reads(Exact([first.value] + rest.0.value), rest.1)
        else Fails
      else if Next(s, h, '-') && HexAt(s, h + 1) then
        var e := Span(s, h + 1, IsHex);
        var last := Number(s[h + 1..e], base);
        if last.Some? then Reads(Range(first.value, last.value), e) else Fails
      else Reads(Range(first.value, first.value), h)
  }

  predicate IsAscii(s: string) { forall i :: 0 <= i < |s| ==> s[i] < 128 as char }

  // ---- Terms

  function OneOf(items: seq<Term>, all: Term): Term { if |items| == 1 then items[0] else all }

  function Alternation(s: string, i: nat): (r: Reading<Term>)
    requires i <= |s|
    ensures r.Reads? ==> i < r.at <= |s|
    decreases |s| - i, 5
  {
    var r := AltLoop(s, i, []);
    if r.Reads? then Reads(OneOf(r.value, Alt(r.value)), r.at) else Fails
  }

  function AltLoop(s: string, i: nat, items: seq<Term>): (r: Reading<seq<Term>>)
    requires i <= |s|
    ensures r.Reads? ==> i < r.at <= |s| && |r.value| > |items|
    decreases |s| - i, 4
  {
    var c := Concatenation(s, i);
    if c.Fails? then Fails
    else
      var j := Ws(s, c.at);
      if Next(s, j, '/') then AltLoop(s, j + 1, items + [c.value]) else Reads(items + [c.value], j)
  }

  function Concatenation(s: string, i: nat): (r: Reading<Term>)
    requires i <= |s|
    ensures r.Reads? ==> i < r.at <= |s|
    decreases |s| - i, 3
  {
    var r := ConcatLoop(s, i, []);
    if r.Reads? then Reads(OneOf(r.value, Seq(r.value)), r.at) else Fails
  }

  /** Whether no more items of a concatenation follow. */
  predicate EndsItems(s: string, i: nat) { i >= |s| || s[i] == '/' || s[i] == ')' || s[i] == ']' }

  function ConcatLoop(s: string, i: nat, items: seq<Term>): (r: Reading<seq<Term>>)
    requires i <= |s|
    ensures r.Reads? ==> i < r.at <= |s| && |r.value| > |items|
    decreases |s| - i, 2
  {
    var c := Repetition(s, i);
    if c.Fails? then Fails
    else
      var j := Ws(s, c.at);
      if EndsItems(s, j) then Reads(items + [c.value], j) else ConcatLoop(s, j, items + [c.value])
  }

  function Repetition(s: string, i: nat): (r: Reading<Term>)
    requires i <= |s|
    ensures r.Reads? ==> i < r.at <= |s|
    decreases |s| - i, 1
  {
    var j := Ws(s, i);
    var count := CountAt(s, j);
    if count.Reads? then
      var e := Element(s, count.at);
      if e.Reads? then Reads(Rep(count.value.least, count.value.most, e.value), e.at) else Fails
    else Element(s, j)
  }

  function Element(s: string, from: nat): (r: Reading<Term>)
    requires from <= |s|
    ensures r.Reads? ==> from < r.at <= |s|
    decreases |s| - from, 0
  {
    var i := Ws(s, from);
    if Next(s, i, '(') then
      var inner := Alternation(s, i + 1);
      if inner.Fails? then Fails
      else
        var j := Ws(s, inner.at);
        if Next(s, j, ')') then Reads(inner.value, j + 1) else Fails
    else if Next(s, i, '[') then
      var inner := Alternation(s, i + 1);
      if inner.Fails? then Fails
      else
        var j := Ws(s, inner.at);
        if Next(s, j, ']') then Reads(Rep(0, Some(1), inner.value), j + 1) else Fails
    else if Next(s, i, '"') then
      var end := Span(s, i + 1, NoQuote);
      if end < |s| && IsAscii(s[i + 1..end]) then Reads(Text(s[i + 1..end]), end + 1) else Fails
    else if Next(s, i, '%') then NumVal(s, i)
    else if Next(s, i, '<') then
      var end := Span(s, i, NoGreater);
      if end < |s| then Reads(Prose(s[i + 1..end]), end + 1) else Fails
    else
      var name := RuleName(s, i);
      if name.Reads? then Reads(Ref(name.value), name.at) else Fails
  }

  // ---- Definitions

  /** A line up to its comment, outside quoted strings and prose. */
  function Uncommented(line: string, quote: bool, prose: bool): string
    decreases |line|
  {
    if line == [] then []
    else
      var c := line[0];
      if c == '"' && !prose then [c] + Uncommented(line[1..], !quote, prose)
      else if c == '<' && !quote then [c] + Uncommented(line[1..], quote, true)
      else if c == '>' && prose then [c] + Uncommented(line[1..], quote, false)
      else if c == ';' && !quote && !prose then []
      else [c] + Uncommented(line[1..], quote, prose)
  }

  function LinesOf(text: string): (lines: seq<string>)
    ensures |lines| > 0
  {
    var end := Span(text, 0, (c: char) => c != '\n');
    if end == |text| then [text] else [text[..end]] + LinesOf(text[end + 1..])
  }

  function Spaced(lines: seq<string>): string {
    if lines == [] then [] else if |lines| == 1 then lines[0] else lines[0] + " " + Spaced(lines[1..])
  }

  function UncommentedAll(lines: seq<string>): seq<string> {
    seq(|lines|, i requires 0 <= i < |lines| => Uncommented(lines[i], false, false))
  }

  function StripComments(definition: string): string { Spaced(UncommentedAll(LinesOf(definition))) }

  datatype Rule = Rule(name: string, incremental: bool, term: Term)

  /** A definition's rule name, whether it adds alternatives, and its terms. */
  function Parse(definition: string): Option<Rule> { ParseText(StripComments(definition)) }

  function ParseText(s: string): Option<Rule> {
    var name := RuleName(s, Ws(s, 0));
    if name.Fails? then None
    else
      var i := Ws(s, name.at);
      var incremental := Next(s, i, '=') && Next(s, i + 1, '/');
      if !Next(s, i, '=') then None
      else
        var t := Alternation(s, if incremental then i + 2 else i + 1);
        if t.Fails? then None
        else if Ws(s, t.at) != |s| then None
        else Some(Rule(name.value, incremental, t.value))
  }

  // ---- The parser as an object

  class Parser {
    const s: string
    var i: nat

    ghost predicate Valid()
      reads this
    {
      i <= |s|
    }

    constructor (text: string)
      ensures Valid() && s == text && i == 0
    {
      s, i := text, 0;
    }

    method SkipBlanks()
      requires Valid()
      modifies this
      ensures Valid() && i == Ws(s, old(i))
    {
      while i < |s| && (s[i] == ' ' || s[i] == '\t')
        invariant Valid() && Ws(s, old(i)) == Ws(s, i)
      {
        i := i + 1;
      }
    }

    /** Takes `c`, after blanks; false when something else is there. */
    method Expect(c: char) returns (ok: bool)
      requires Valid()
      modifies this
      ensures Valid() && (ok <==> Next(s, Ws(s, old(i)), c)) && (ok ==> i == Ws(s, old(i)) + 1)
    {
      SkipBlanks();
      ok := i < |s| && s[i] == c;
      if ok { i := i + 1; }
    }

    method ReadAlternation() returns (r: Option<Term>)
      requires Valid()
      modifies this
      ensures Valid()
      ensures Alternation(s, old(i)) == if r.Some? then Reads(r.value, i) else Fails
      decreases |s| - i, 3
    {
      hide AltLoop, Concatenation, Ws;
      ghost var from := i;
      AltStep(s, i, []);
      var first := ReadConcatenation();
      if first.None? { return None; }
      var items := [first.value];
      assert [] + [first.value] == items;
      while true
        invariant Valid() && from < i && items != []
        invariant AltLoop(s, from, []) ==
          if Next(s, Ws(s, i), '/') then AltLoop(s, Ws(s, i) + 1, items) else Reads(items, Ws(s, i))
        decreases |s| - i
      {
        SkipBlanks();
        BlanksDone(s, i);
        if !(i < |s| && s[i] == '/') { break; }
        i := i + 1;
        AltStep(s, i, items);
        var next := ReadConcatenation();
        if next.None? { return None; }
        items := items + [next.value];
      }
      return Some(if |items| == 1 then items[0] else Alt(items));
    }

    method ReadConcatenation() returns (r: Option<Term>)
      requires Valid()
      modifies this
      ensures Valid()
      ensures Concatenation(s, old(i)) == if r.Some? then Reads(r.value, i) else Fails
      decreases |s| - i, 2
    {
      hide ConcatLoop, Repetition, Ws;
      ghost var from := i;
      ConcatStep(s, i, []);
      var first := ReadRepetition();
      if first.None? { return None; }
      var items := [first.value];
      assert [] + [first.value] == items;
      while true
        invariant Valid() && from < i && items != []
        invariant ConcatLoop(s, from, []) ==
          if EndsItems(s, Ws(s, i)) then Reads(items, Ws(s, i)) else ConcatLoop(s, Ws(s, i), items)
        decreases |s| - i
      {
        SkipBlanks();
        BlanksDone(s, i);
        if i == |s| || s[i] == '/' || s[i] == ')' || s[i] == ']' { break; }
        ConcatStep(s, i, items);
        var next := ReadRepetition();
        if next.None? { return None; }
        items := items + [next.value];
      }
      return Some(if |items| == 1 then items[0] else Seq(items));
    }

    method ReadRepetition() returns (r: Option<Term>)
      requires Valid()
      modifies this
      ensures Valid()
      ensures Repetition(s, old(i)) == if r.Some? then Reads(r.value, i) else Fails
      decreases |s| - i, 1
    {
      SkipBlanks();
      var count := CountAt(s, i);
      if count.Reads? {
        i := count.at;
        var item := ReadElement();
        if item.None? { return None; }
        return Some(Rep(count.value.least, count.value.most, item.value));
      }
      r := ReadElement();
      ElementBlanks(s, old(i));
    }

    method ReadElement() returns (r: Option<Term>)
      requires Valid()
      modifies this
      ensures Valid()
      ensures Element(s, old(i)) == if r.Some? then Reads(r.value, i) else Fails
      decreases |s| - i, 0
    {
      hide Alternation, NumVal, RuleName;
      SkipBlanks();
      if i == |s| { return None; }
      var c := s[i];
      if c == '(' {
        i := i + 1;
        var inner := ReadAlternation();
        if inner.None? { return None; }
        var ok := Expect(')');
        return if ok then inner else None;
      }
      if c == '[' {
        i := i + 1;
        var inner := ReadAlternation();
        if inner.None? { return None; }
        var ok := Expect(']');
        return if ok then Some(Rep(0, Some(1), inner.value)) else None;
      }
      if c == '"' {
        var end := Span(s, i + 1, NoQuote);
        if end == |s| || !IsAscii(s[i + 1..end]) { return None; }
        r := Some(Text(s[i + 1..end]));
        i := end + 1;
        return;
      }
      if c == '%' {
        var n := NumVal(s, i);
        if n.Fails? { return None; }
        i := n.at;
        return Some(n.value);
      }
      if c == '<' {
        var end := Span(s, i, NoGreater);
        if end == |s| { return None; }
        r := Some(Prose(s[i + 1..end]));
        i := end + 1;
        return;
      }
      var name := RuleName(s, i);
      if name.Fails? { return None; }
      i := name.at;
      r := Some(Ref(name.value));
    }
  }

  /** One more alternative. */
  lemma AltStep(s: string, i: nat, items: seq<Term>)
    requires i <= |s|
    ensures var c := Concatenation(s, i);
      AltLoop(s, i, items) ==
        if c.Fails? then Fails
        else if Next(s, Ws(s, c.at), '/') then AltLoop(s, Ws(s, c.at) + 1, items + [c.value])
        else Reads(items + [c.value], Ws(s, c.at))
  {
  }

  /** One more item. */
  lemma ConcatStep(s: string, i: nat, items: seq<Term>)
    requires i <= |s|
    ensures var c := Repetition(s, i);
      ConcatLoop(s, i, items) ==
        if c.Fails? then Fails
        else if EndsItems(s, Ws(s, c.at)) then Reads(items + [c.value], Ws(s, c.at))
        else ConcatLoop(s, Ws(s, c.at), items + [c.value])
  {
  }

  lemma BlanksDone(s: string, i: nat)
    requires i <= |s|
    ensures Ws(s, Ws(s, i)) == Ws(s, i)
  {
  }

  lemma ElementBlanks(s: string, i: nat)
    requires i <= |s|
    ensures var r, q := Element(s, Ws(s, i)), Element(s, i); r == q || (r.Fails? && q.Fails?)
  {
    BlanksDone(s, i);
  }

  /** A line up to its comment, character by character. */
  method StripLine(line: string) returns (kept: string)
    ensures kept == Uncommented(line, false, false)
  {
    hide Uncommented;
    var quote, prose, n := false, false, 0;
    kept := [];
    assert line[0..] == line;
    while n < |line|
      invariant n <= |line|
      invariant Uncommented(line, false, false) == kept + Uncommented(line[n..], quote, prose)
    {
      var c := line[n];
      assert line[n..][1..] == line[n + 1..];
      UncommentedStep(line[n..], quote, prose);
      if c == '"' && !prose {
        quote := !quote;
      } else if c == '<' && !quote {
        prose := true;
      } else if c == '>' && prose {
        prose := false;
      } else if c == ';' && !quote && !prose {
        break;
      }
      kept := kept + [c];
      n := n + 1;
    }
    if n == |line| { UncommentedNone(quote, prose); }
  }

  lemma UncommentedNone(quote: bool, prose: bool)
    ensures Uncommented([], quote, prose) == []
  {
  }

  /** What one character does. */
  lemma UncommentedStep(line: string, quote: bool, prose: bool)
    requires line != []
    ensures var c := line[0];
      Uncommented(line, quote, prose) ==
        if c == ';' && !quote && !prose then []
        else [c] + Uncommented(line[1..], if c == '"' && !prose then !quote else quote,
                               if c == '<' && !quote then true else if c == '>' && prose then false else prose)
  {
  }

  method Strip(definition: string) returns (text: string)
    ensures text == StripComments(definition)
  {
    hide Uncommented, Spaced;
    var lines := LinesOf(definition);
    var out: seq<string>, k := [], 0;
    while k < |lines|
      invariant k <= |lines| && out == UncommentedAll(lines)[..k]
    {
      var kept := StripLine(lines[k]);
      out := out + [kept];
      assert out[k] == UncommentedAll(lines)[k];
      k := k + 1;
    }
    assert out == UncommentedAll(lines);
    text := Spaced(out);
  }

  /** A definition read. */
  method ReadRule(definition: string) returns (r: Option<Rule>)
    ensures r == Parse(definition)
  {
    hide Alternation, RuleName, StripComments, Ws;
    var text := Strip(definition);
    var p := new Parser(text);
    p.SkipBlanks();
    var name := RuleName(p.s, p.i);
    if name.Fails? { return None; }
    p.i := name.at;
    p.SkipBlanks();
    var incremental := p.i + 1 < |p.s| && p.s[p.i] == '=' && p.s[p.i + 1] == '/';
    if !(p.i < |p.s| && p.s[p.i] == '=') { return None; }
    p.i := p.i + if incremental then 2 else 1;
    var term := p.ReadAlternation();
    if term.None? { return None; }
    p.SkipBlanks();
    if p.i != |p.s| { return None; }
    r := Some(Rule(name.value, incremental, term.value));
  }
}
