/** Numbers as an RFC writes them: binary, decimal or hexadecimal, with leading zeros, in capitals or small letters;
    names in any case; definitions over several lines, with comments. */
module AbnfSpelling {
  import opened Abnf
  import opened AbnfParser
  import opened AbnfRoundTrip
  import opened AbnfRules

  // ---- Digits

  /** The same text, some of its capitals made small. */
  predicate Folds(a: string, b: string) {
    |a| == |b| && forall k :: 0 <= k < |a| ==> FoldsTo(a[k], b[k])
  }

  predicate FoldsTo(a: char, b: char) { a == b || ('A' <= a <= 'Z' && b as int == a as int + 32) }

  predicate AllZero(s: string) { forall k :: 0 <= k < |s| ==> s[k] == '0' }

  /** Digits of a number: zeros, and then the number in the base, its letters in either case. */
  ghost predicate Figures(d: string, n: nat, base: nat)
    requires 2 <= base <= 16
  {
    exists z: nat :: z < |d| && AllZero(d[..z]) && Folds(Digits(n, base), d[z..])
  }

  /** The figures, in order. */
  lemma FigureIs(v: nat)
    requires v < 16
    ensures Figure(v) == "0123456789ABCDEF"[v] && HexValue("0123456789abcdef"[v]) == v
  {
  }

  lemma FigureFolds(c: char, v: nat, base: nat)
    requires v < base <= 16
    ensures FoldsTo(Figure(v), c) <==> IsHex(c) && HexValue(c) == v
  {
  }

  lemma Last(s: string)
    requires s != []
    ensures s == s[..|s| - 1] + [s[|s| - 1]]
  {
  }

  lemma NumberStep(s: string, c: char, base: nat)
    ensures var rest := Number(s, base);
      Number(s + [c], base) ==
        if rest.Some? && IsHex(c) && HexValue(c) < base then Some(Scaled(rest.value, base, HexValue(c))) else None
  {
    assert (s + [c])[..|s|] == s;
  }

  lemma Above(a: nat, b: nat, base: nat)
    requires a > b
    ensures Scaled(a, base, 0) >= Scaled(b, base, base)
  {
    var k := a - b - 1;
    assert k * base >= 0;
    assert a * base == (b + 1 + k) * base == b * base + base + k * base;
  }

  lemma ScaledOnly(a: nat, b: nat, base: nat, r: nat, v: nat)
    requires r < base && v < base && Scaled(a, base, r) == Scaled(b, base, v)
    ensures a == b && r == v
  {
    if a > b {
      Above(a, b, base);
    } else if b > a {
      Above(b, a, base);
    }
  }

  lemma ScaledParts(q: nat, base: nat, v: nat)
    requires 2 <= base && v < base
    ensures Over(Scaled(q, base, v), base) == q && Left(Scaled(q, base, v), base) == v
    ensures q > 0 <==> Scaled(q, base, v) >= base
  {
    var n := Scaled(q, base, v);
    Parts(n, base);
    ScaledOnly(Over(n, base), q, base, Left(n, base), v);
    hide Over, Left;
    if q > 0 { Above(q, 0, base); }
  }

  lemma {:induction false} ZerosNone(s: string, base: nat)
    requires 2 <= base <= 16
    ensures AllZero(s) <==> Number(s, base) == Some(0)
  {
    hide Scaled, Over, Left, HexValue;
    if s != [] {
      var p, c := s[..|s| - 1], s[|s| - 1];
      Last(s);
      ZerosNone(p, base);
      ZeroFigure(c);
      NumberStep(p, c, base);
      assert AllZero(s) <==> AllZero(p) && c == '0';
      hide Number, AllZero;
      if Number(p, base).Some? && IsHex(c) && HexValue(c) < base {
        ScaledParts(Number(p, base).value, base, HexValue(c));
        Alone(base, HexValue(c));
      }
    }
  }

  lemma ZeroFigure(c: char)
    ensures c == '0' <==> IsHex(c) && HexValue(c) == 0
  {
  }

  lemma DigitsStep(n: nat, base: nat)
    requires 2 <= base <= 16
    ensures Digits(n, base) == if n < base then [Figure(n)] else Digits(Over(n, base), base) + [Figure(Left(n, base))]
  {
  }

  lemma FoldsOne(a: string, x: char, b: string, y: char)
    ensures Folds(a + [x], b + [y]) <==> Folds(a, b) && FoldsTo(x, y)
  {
    assert (a + [x])[|a|] == x && (b + [y])[|b|] == y;
    assert Folds(a + [x], b + [y]) ==> forall k :: 0 <= k < |a| ==> (a + [x])[k] == a[k] && (b + [y])[k] == b[k];
  }

  /** Such digits make the number. */
  lemma {:induction false} FiguresMake(d: string, z: nat, n: nat, base: nat)
    requires 2 <= base <= 16 && z < |d| && AllZero(d[..z]) && Folds(Digits(n, base), d[z..])
    ensures Number(d, base) == Some(n)
    decreases n
  {
    hide Over, Left, Scaled, Figure, Number, Digits, Folds, AllZero, HexValue, FoldsTo, IsHex;
    var p, c := d[..|d| - 1], d[|d| - 1];
    Last(d);
    NumberStep(p, c, base);
    DigitsStep(n, base);
    assert d[z..] == d[z..|d| - 1] + [c];
    if n < base {
      FoldsLength(Digits(n, base), d[z..]);
      assert [Figure(n)] == [] + [Figure(n)] && d[z..] == [] + [c] && d[..z] == p;
      FoldsOne([], Figure(n), [], c);
      FigureFolds(c, n, base);
      ZerosNone(p, base);
      Alone(base, n);
    } else {
      var q, v := Over(n, base), Left(n, base);
      FoldsLength(Digits(n, base), d[z..]);
      FoldsOne(Digits(q, base), Figure(v), d[z..|d| - 1], c);
      FigureFolds(c, v, base);
      assert p[..z] == d[..z] && p[z..] == d[z..|d| - 1];
      FiguresMake(p, z, q, base);
      Parts(n, base);
    }
  }

  lemma FoldsLength(a: string, b: string)
    requires Folds(a, b)
    ensures |a| == |b|
  {
  }

  /** Digits that make a number are such digits. */
  lemma {:induction false} MadeFigures(d: string, n: nat, base: nat) returns (z: nat)
    requires 2 <= base <= 16 && d != [] && Number(d, base) == Some(n)
    ensures z < |d| && AllZero(d[..z]) && Folds(Digits(n, base), d[z..])
  {
    hide Over, Left, Scaled, Figure, Number, Digits, Folds, AllZero, HexValue, FoldsTo, IsHex;
    var p, c := d[..|d| - 1], d[|d| - 1];
    Last(d);
    NumberStep(p, c, base);
    var q, v := Number(p, base).value, HexValue(c);
    ScaledParts(q, base, v);
    DigitsStep(n, base);
    FigureFolds(c, v, base);
    if q == 0 {
      ZerosNone(p, base);
      z := |p|;
      Alone(base, v);
      assert d[..z] == p && d[z..] == [] + [c] && [Figure(v)] == [] + [Figure(v)];
      FoldsNone();
      FoldsOne([], Figure(v), [], c);
    } else {
      NoneMake(base);
      z := MadeFigures(p, q, base);
      assert d[..z] == p[..z] && d[z..] == p[z..] + [c];
      FoldsOne(Digits(q, base), Figure(v), p[z..], c);
    }
  }

  lemma FoldsNone()
    ensures Folds([], [])
  {
  }

  lemma NoneMake(base: nat)
    ensures Number([], base) == Some(0)
  {
  }

  /** A text of digits makes a number exactly when it is the number's digits, zeros before them, in either case. */
  lemma NumberIff(d: string, n: nat, base: nat)
    requires 2 <= base <= 16 && d != []
    ensures Number(d, base) == Some(n) <==> Figures(d, n, base)
  {
    hide Number, Digits, Folds, AllZero;
    if Number(d, base) == Some(n) {
      var z := MadeFigures(d, n, base);
    }
    if Figures(d, n, base) {
      var z: nat :| z < |d| && AllZero(d[..z]) && Folds(Digits(n, base), d[z..]);
      FiguresMake(d, z, n, base);
    }
  }

  lemma {:induction false} MadeHex(d: string, base: nat)
    requires 2 <= base <= 16 && Number(d, base).Some?
    ensures forall k :: 0 <= k < |d| ==> IsHex(d[k])
  {
    if d != [] { MadeHex(d[..|d| - 1], base); }
  }

  // ---- Numeric values

  /** The letter of a base. */
  predicate LetterOf(letter: char, base: nat) {
    (letter == 'b' && base == 2) || (letter == 'd' && base == 10) || (letter == 'x' && base == 16)
  }

  ghost predicate AllFigures(ds: seq<string>, v: seq<nat>, base: nat)
    requires 2 <= base <= 16
  {
    |ds| == |v| && forall k :: 0 <= k < |v| ==> Figures(ds[k], v[k], base)
  }

  function Joined(ds: seq<string>): string {
    if ds == [] then [] else if |ds| == 1 then ds[0] else ds[0] + ("." + Joined(ds[1..]))
  }

  /** How a numeric value is written: one number, two with a hyphen, or more with dots. */
  ghost predicate Writes(u: string, letter: char, base: nat, ds: seq<string>, v: seq<nat>, t: Term) {
    && LetterOf(letter, base) && AllFigures(ds, v, base)
    && ((|v| == 1 && u == ds[0] && t == Range(v[0], v[0]))
        || (|v| == 2 && u == ds[0] + ("-" + ds[1]) && t == Range(v[0], v[1]))
        || (|v| >= 2 && AreOctets(v) && u == Joined(ds) && t == Exact(v)))
  }

  ghost predicate Numeric(w: string, t: Term) {
    exists u, letter, base, ds, v :: Writes(u, letter, base, ds, v, t) && w == ['%', letter] + u
  }

  /** Nothing of a number goes on here. */
  predicate After(s: string, j: nat) { j >= |s| || (!IsHex(s[j]) && s[j] != '.' && s[j] != '-') }

  lemma FiguresAt(s: string, i: nat, d: string, n: nat, base: nat)
    requires 2 <= base <= 16 && Figures(d, n, base) && At(s, i, d) && (i + |d| < |s| ==> !IsHex(s[i + |d|]))
    ensures d != [] && HexAt(s, i) && Span(s, i, IsHex) == i + |d| && Number(s[i..i + |d|], base) == Some(n)
  {
    hide Digits, Number, Span;
    NumberIff(d, n, base);
    MadeHex(d, base);
    SpanIs(s, i, d, IsHex);
    AtFirst(s, i, d);
  }

  lemma PercentAt(s: string, i: nat, letter: char, base: nat, u: string)
    requires LetterOf(letter, base) && At(s, i, ['%', letter] + u)
    ensures i + 2 <= |s| && Next(s, i, '%') && BaseOf(s[i + 1]) == Some(base) && At(s, i + 2, u)
  {
    AtParts(s, i, ['%', letter], u);
    assert s[i..i + 2][0] == s[i] && s[i..i + 2][1] == s[i + 1];
  }

  lemma OneNumber(s: string, i: nat, letter: char, base: nat, d: string, n: nat)
    requires LetterOf(letter, base) && Figures(d, n, base)
    requires At(s, i, ['%', letter] + d) && After(s, i + 2 + |d|)
    ensures NumVal(s, i) == Reads(Range(n, n), i + 2 + |d|)
  {
    hide Figures, Number, Span, At, BaseOf;
    PercentAt(s, i, letter, base, d);
    FiguresAt(s, i + 2, d, n, base);
  }

  lemma TwoNumbers(s: string, i: nat, letter: char, base: nat, d: string, e: string, n: nat, m: nat)
    requires LetterOf(letter, base) && Figures(d, n, base) && Figures(e, m, base)
    requires At(s, i, ['%', letter] + (d + ("-" + e))) && After(s, i + 3 + |d| + |e|)
    ensures NumVal(s, i) == Reads(Range(n, m), i + 3 + |d| + |e|)
  {
    hide Figures, Number, Span, At, BaseOf, DotsAt;
    PercentAt(s, i, letter, base, d + ("-" + e));
    AtParts(s, i + 2, d, "-" + e);
    AtFirst(s, i + 2 + |d|, "-" + e);
    AtParts(s, i + 2 + |d|, "-", e);
    FiguresAt(s, i + 2, d, n, base);
    FiguresAt(s, i + 3 + |d|, e, m, base);
  }

  /** The numbers after the first, each behind a dot. */
  lemma {:induction false} DotsRead(s: string, i: nat, base: nat, ds: seq<string>, v: seq<nat>)
    requires 2 <= base <= 16 && AllFigures(ds, v, base) && v != []
    requires At(s, i, "." + Joined(ds)) && After(s, i + 1 + |Joined(ds)|)
    ensures DotsAt(s, i, base) == (Some(v), i + 1 + |Joined(ds)|) && Next(s, i, '.') && HexAt(s, i + 1)
    decreases |v|
  {
    hide Figures, Number, Span, At;
    AtParts(s, i, ".", Joined(ds));
    AtFirst(s, i, ".");
    var j := i + 1 + |ds[0]|;
    if |v| == 1 {
      FiguresAt(s, i + 1, ds[0], v[0], base);
      assert [v[0]] + [] == v;
    } else {
      var more := "." + Joined(ds[1..]);
      AtParts(s, i + 1, ds[0], more);
      AtFirst(s, j, more);
      FiguresAt(s, i + 1, ds[0], v[0], base);
      DotsRead(s, j, base, ds[1..], v[1..]);
      assert [v[0]] + v[1..] == v;
    }
  }

  /** Numbers with dots: octets, or nothing when one is above 255. */
  lemma DottedNumbers(s: string, i: nat, letter: char, base: nat, ds: seq<string>, v: seq<nat>)
    requires LetterOf(letter, base) && AllFigures(ds, v, base) && |v| >= 2
    requires At(s, i, ['%', letter] + Joined(ds)) && After(s, i + 2 + |Joined(ds)|)
    ensures NumVal(s, i) == if AreOctets(v) then Reads(Exact(v), i + 2 + |Joined(ds)|) else Fails
  {
    hide Figures, Number, Span, At, BaseOf, DotsAt;
    PercentAt(s, i, letter, base, Joined(ds));
    var more := "." + Joined(ds[1..]);
    AtParts(s, i + 2, ds[0], more);
    AtFirst(s, i + 2 + |ds[0]|, more);
    FiguresAt(s, i + 2, ds[0], v[0], base);
    DotsRead(s, i + 2 + |ds[0]|, base, ds[1..], v[1..]);
    assert [v[0]] + v[1..] == v;
  }

  /** A numeric value is read for what it is. */
  lemma NumericRead(s: string, i: nat, w: string, t: Term)
    requires Numeric(w, t) && At(s, i, w) && After(s, i + |w|)
    ensures NumVal(s, i) == Reads(t, i + |w|)
  {
    hide NumVal, At, Figures, After;
    var u, letter, base, ds, v :| Writes(u, letter, base, ds, v, t) && w == ['%', letter] + u;
    if |v| == 1 {
      OneNumber(s, i, letter, base, ds[0], v[0]);
    } else if u == ds[0] + ("-" + ds[1]) && t == Range(v[0], v[1]) {
      TwoNumbers(s, i, letter, base, ds[0], ds[1], v[0], v[1]);
    } else {
      DottedNumbers(s, i, letter, base, ds, v);
    }
  }

  lemma FoldsSelf(a: string)
    ensures Folds(a, a)
  {
  }

  lemma DigitsFigure(n: nat, base: nat)
    requires 2 <= base <= 16
    ensures Figures(Digits(n, base), n, base)
  {
    hide Digits, Folds;
    var d := Digits(n, base);
    FoldsSelf(d);
    assert d[..0] == [] && d[0..] == d;
  }

  function AllDigits(v: seq<nat>, base: nat): seq<string>
    requires 2 <= base <= 16
  {
    seq(|v|, k requires 0 <= k < |v| => Digits(v[k], base))
  }

  /** Plain digits write a number, two numbers, and octets. */
  lemma DigitsWrite(letter: char, base: nat, n: nat, m: nat, v: seq<nat>)
    requires LetterOf(letter, base)
    ensures Numeric(['%', letter] + Digits(n, base), Range(n, n))
    ensures Numeric(['%', letter] + (Digits(n, base) + ("-" + Digits(m, base))), Range(n, m))
    ensures |v| >= 2 && AreOctets(v) ==> Numeric(['%', letter] + Joined(AllDigits(v, base)), Exact(v))
  {
    hide Digits, Figures, Joined;
    var a, b := Digits(n, base), Digits(m, base);
    DigitsFigure(n, base);
    DigitsFigure(m, base);
    assert Writes(a, letter, base, [a], [n], Range(n, n));
    assert Writes(a + ("-" + b), letter, base, [a, b], [n, m], Range(n, m));
    if |v| >= 2 && AreOctets(v) {
      var ds := AllDigits(v, base);
      forall k | 0 <= k < |v| ensures Figures(ds[k], v[k], base) {
        DigitsFigure(v[k], base);
      }
      assert Writes(Joined(ds), letter, base, ds, v, Exact(v));
    }
  }

  // ---- Names

  /** A name is read in any case, as small letters. */
  lemma NameAnyCase(s: string, i: nat, word: string, name: string)
    requires IsName(name) && Folds(word, name) && At(s, i, word) && Sep(s, i + |word|)
    ensures RuleName(s, i) == Reads(name, i + |word|)
  {
    NameLetters(word, name);
    SpanIs(s, i, word, IsNameChar);
    AtFirst(s, i, word);
  }

  lemma NameLetters(word: string, name: string)
    requires IsName(name) && Folds(word, name)
    ensures word != [] && IsLetter(word[0]) && LowerAll(word) == name
    ensures forall k :: 0 <= k < |word| ==> IsNameChar(word[k])
  {
    forall k | 0 <= k < |word| ensures IsNameChar(word[k]) && Lower(word[k]) == name[k] {
      assert FoldsTo(word[k], name[k]);
    }
  }

  // ---- Comments and lines

  lemma LinesAre(u: string, rest: string)
    requires OneLine(u)
    ensures LinesOf(u) == [u] && LinesOf(u + "\n" + rest) == [u] + LinesOf(rest)
  {
    var s := u + "\n" + rest;
    assert forall k :: 0 <= k < |u| ==> u[k] in u;
    assert At(s, 0, u) by { assert s[0..|u|] == u; }
    SpanIs(s, 0, u, (c: char) => c != '\n');
    assert s[..|u|] == u && s[|u| + 1..] == rest;
    assert Span(u, 0, (c: char) => c != '\n') == |u|;
  }

  lemma CommentGone(u: string, c: string)
    requires Through(u)
    ensures Uncommented(u + ";" + c, false, false) == u && Uncommented(u, false, false) == u
  {
    hide Uncommented;
    assert u + ";" + c == u + (";" + c);
    UncommentedStep(";" + c, false, false);
    UncommentedNone(false, false);
    assert u + [] == u;
  }

  /** A comment goes, to the end of its line; what is before it stays. */
  lemma StripTail(u: string, c: string)
    requires Kept(u) && OneLine(c)
    ensures StripComments(u + ";" + c) == u
  {
    hide Uncommented, Through, LinesOf;
    CommentGone(u, c);
    LinesAre(u + ";" + c, []);
    assert UncommentedAll([u + ";" + c]) == [u];
  }

  /** Lines are joined by a blank, the comment of the first gone. */
  lemma StripLines(u: string, c: string, v: string)
    requires Kept(u) && OneLine(c)
    ensures StripComments(u + "\n" + v) == u + " " + StripComments(v)
    ensures StripComments((u + ";" + c) + "\n" + v) == u + " " + StripComments(v)
  {
    hide Uncommented, Through, LinesOf;
    CommentGone(u, c);
    LinesAre(u, v);
    LinesAre(u + ";" + c, v);
    OneMoreLine(u, LinesOf(v));
    OneMoreLine(u + ";" + c, LinesOf(v));
  }

  lemma OneMoreLine(line: string, lines: seq<string>)
    requires lines != []
    ensures Spaced(UncommentedAll([line] + lines)) ==
      Uncommented(line, false, false) + " " + Spaced(UncommentedAll(lines))
  {
    hide Uncommented;
    assert UncommentedAll([line] + lines) == [Uncommented(line, false, false)] + UncommentedAll(lines);
  }

  /** A printed rule is read with a comment after it, and broken after any of its blanks with a comment there. */
  lemma ParseLaidOut(r: Rule, x: string, y: string, c: string, e: string)
    requires NormalRule(r) && OneLine(c) && OneLine(e) && Kept(x) && Kept(y) && Printed(r) == x + " " + y
    ensures Parse(Printed(r) + ";" + c) == Some(r)
    ensures Parse((x + ";" + c) + "\n" + (y + ";" + e)) == Some(r)
  {
    hide *;
    ParsePrinted(r);
    PrintedKept(r);
    ParseIs(Printed(r));
    StripKept(Printed(r));
    ParseIs(Printed(r) + ";" + c);
    StripTail(Printed(r), c);
    ParseIs((x + ";" + c) + "\n" + (y + ";" + e));
    StripTail(y, e);
    StripLines(x, c, y + ";" + e);
  }

  // ---- A rule of a numeric value

  /** An element and nothing after it is a whole alternation. */
  lemma WholeElement(s: string, i: nat, t: Term)
    requires i < |s| && Ws(s, i) == i && CountAt(s, i) == Fails && Element(s, i) == Reads(t, |s|)
    ensures Alternation(s, i) == Reads(t, |s|)
  {
    hide *;
    OnlyElement(s, i);
    EndStops(s, |s|);
    Follows(s, |s|);
    LastItem(s, i, t, []);
    assert [] + [t] == [t];
    ConcatenationIs(s, i);
    LastAlternative(s, i, t, [], |s|);
    AlternationIs(s, i);
  }

  lemma NumericMark(s: string, i: nat, w: string, t: Term)
    requires Numeric(w, t) && At(s, i, w)
    ensures i < |s| && s[i] == '%' && Ws(s, i) == i && CountAt(s, i) == Fails
  {
    hide Writes, At, Ws, CountAt;
    AtFirst(s, i, w);
    Unblank(s, i);
    NoCount(s, i);
  }

  lemma {:induction false} JoinedBare(ds: seq<string>, v: seq<nat>, base: nat)
    requires 2 <= base <= 16 && AllFigures(ds, v, base)
    ensures forall k :: 0 <= k < |Joined(ds)| ==> IsHex(Joined(ds)[k]) || Joined(ds)[k] == '.'
    decreases |ds|
  {
    hide Figures, Number;
    if ds != [] {
      FiguresBare(ds[0], v[0], base);
      if |ds| > 1 { JoinedBare(ds[1..], v[1..], base); }
    }
  }

  lemma FiguresBare(d: string, n: nat, base: nat)
    requires 2 <= base <= 16 && Figures(d, n, base)
    ensures d != [] && forall k :: 0 <= k < |d| ==> IsHex(d[k])
  {
    hide Number, Digits;
    NumberIff(d, n, base);
    MadeHex(d, base);
  }

  lemma NumericBare(w: string, t: Term)
    requires Numeric(w, t)
    ensures forall k :: 0 <= k < |w| ==> Bare(w[k]) && w[k] != '\n'
  {
    hide Figures, Joined;
    var u, letter, base, ds, v :| Writes(u, letter, base, ds, v, t) && w == ['%', letter] + u;
    FiguresBare(ds[0], v[0], base);
    if |v| >= 2 { FiguresBare(ds[1], v[1], base); }
    JoinedBare(ds, v, base);
  }

  function Sign(incremental: bool): string { if incremental then " =/ " else " = " }

  lemma WrittenHead(word: string, name: string, incremental: bool, w: string, s: string)
    requires IsName(name) && Folds(word, name) && s == word + Sign(incremental) + w
    ensures var n := |word|;
      && Ws(s, 0) == 0 && RuleName(s, 0) == Reads(name, n) && Ws(s, n) == n + 1 && Next(s, n + 1, '=')
      && (Next(s, n + 2, '/') <==> incremental)
      && var j := if incremental then n + 3 else n + 2;
      Next(s, j, ' ') && At(s, j + 1, w) && j + 1 + |w| == |s|
  {
    var n, eq := |word|, Sign(incremental);
    NameLetters(word, name);
    assert s[..n] == word && s[n..n + |eq|] == eq && s[n + |eq|..] == w;
    assert s[n] == eq[0] && s[n + 1] == eq[1] && s[n + 2] == eq[2];
    assert incremental ==> s[n + 3] == eq[3];
    NameAnyCase(s, 0, word, name);
  }

  lemma WrittenKept(word: string, name: string, incremental: bool, w: string, t: Term)
    requires IsName(name) && Folds(word, name) && Numeric(w, t)
    ensures Kept(word + Sign(incremental) + w)
  {
    hide Numeric, Kept, Folds;
    NameLetters(word, name);
    NumericBare(w, t);
    KeptBare(word);
    KeptBare(Sign(incremental));
    KeptBare(w);
    KeptThree(word, Sign(incremental), w);
  }

  /** A rule whose name is in any case and whose term is a number in any base reads as what it says, commented or
      not. */
  lemma ParseNumeric(word: string, name: string, incremental: bool, w: string, t: Term, c: string)
    requires IsName(name) && Folds(word, name) && Numeric(w, t) && OneLine(c)
    ensures Parse(word + Sign(incremental) + w) == Some(Rule(name, incremental, t))
    ensures Parse((word + Sign(incremental) + w) + ";" + c) == Some(Rule(name, incremental, t))
  {
    hide *;
    var s := word + Sign(incremental) + w;
    WrittenKept(word, name, incremental, w, t);
    StripKept(s);
    ParseIs(s);
    StripTail(s, c);
    ParseIs(s + ";" + c);
    WrittenRead(word, name, incremental, w, t);
  }

  lemma WrittenRead(word: string, name: string, incremental: bool, w: string, t: Term)
    requires IsName(name) && Folds(word, name) && Numeric(w, t)
    ensures ParseText(word + Sign(incremental) + w) == Some(Rule(name, incremental, t))
  {
    hide Alternation, RuleName, At, Ws, NumVal, CountAt, Numeric, IsName, Folds, Element;
    var s, n := word + Sign(incremental) + w, |word|;
    WrittenHead(word, name, incremental, w, s);
    var j := if incremental then n + 3 else n + 2;
    AlternationBlank(s, j);
    NumericMark(s, j + 1, w, t);
    NumericRead(s, j + 1, w, t);
    NumberElement(s, j + 1);
    WholeElement(s, j + 1, t);
    EndStops(s, |s|);
  }
}
