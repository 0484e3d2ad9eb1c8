/** ABNF terms (RFC 5234) and their text: what `show` prints, and the reading of it as functions of a text and a place
    in it. */
module Abnf {
  datatype Option<T> = None | Some(value: T)

  datatype Term =
    | Range(lo: nat, hi: nat)
    | Text(value: string)
    | Exact(octets: seq<nat>)
    | Ref(name: string)
    | Seq(items: seq<Term>)
    | Alt(items: seq<Term>)
    | Rep(least: nat, most: Option<nat>, item: Term)
    | Prose(text: string)

  // ---- Characters

  predicate IsDigit(c: char) { '0' <= c <= '9' }

  predicate IsHex(c: char) { IsDigit(c) || 'A' <= c <= 'F' || 'a' <= c <= 'f' }

  predicate IsLower(c: char) { 'a' <= c <= 'z' }

  predicate IsLetter(c: char) { IsLower(c) || 'A' <= c <= 'Z' }

  predicate IsNameChar(c: char) { IsLetter(c) || IsDigit(c) || c == '-' }

  function Lower(c: char): char { if 'A' <= c <= 'Z' then (c as int + 32) as char else c }

  function HexValue(c: char): (v: nat)
    requires IsHex(c)
    ensures v < 16
  {
    if IsDigit(c) then c as int - '0' as int
    else if 'A' <= c <= 'F' then c as int - 'A' as int + 10
    else c as int - 'a' as int + 10
  }

  function Figure(v: nat): (c: char)
    requires v < 16
    ensures IsHex(c) && HexValue(c) == v && (v < 10 ==> IsDigit(c))
  {
    if v < 10 then ('0' as int + v) as char else ('A' as int + v - 10) as char
  }

  // ---- Numbers

  function Over(n: nat, base: nat): (q: nat)
    requires base >= 2
    ensures n >= base ==> q < n
  {
    n / base
  }

  function Left(n: nat, base: nat): (r: nat)
    requires base >= 2
    ensures r < base
  {
    n % base
  }

  function Scaled(q: nat, base: nat, r: nat): nat { q * base + r }

  lemma Parts(n: nat, base: nat)
    requires base >= 2
    ensures Scaled(Over(n, base), base, Left(n, base)) == n
  {
  }

  lemma Alone(base: nat, r: nat)
    ensures Scaled(0, base, r) == r
  {
  }

  /** The digits of a number, the most significant first. */
  function Digits(n: nat, base: nat): (s: string)
    requires 2 <= base <= 16
    ensures s != [] && forall i :: 0 <= i < |s| ==> IsHex(s[i]) && (base <= 10 ==> IsDigit(s[i]))
  {
    if n < base then [Figure(n)] else Digits(Over(n, base), base) + [Figure(Left(n, base))]
  }

  function Decimal(n: nat): (s: string)
    ensures s != [] && forall i :: 0 <= i < |s| ==> IsDigit(s[i])
  {
    Digits(n, 10)
  }

  /** Two hexadecimal digits or more. */
  function Hex(n: nat): (s: string)
    ensures s != [] && forall i :: 0 <= i < |s| ==> IsHex(s[i])
  {
    if n < 16 then ['0'] + Digits(n, 16) else Digits(n, 16)
  }

  /** The number digits make, none when one is not a digit of the base. */
  function Number(s: string, base: nat): Option<nat> {
    if s == [] then Some(0)
    else
      var rest := Number(s[..|s| - 1], base);
      var c := s[|s| - 1];
      if rest.Some? && IsHex(c) && HexValue(c) < base then Some(Scaled(rest.value, base, HexValue(c))) else None
  }

  lemma {:induction false} NumberDigits(n: nat, base: nat)
    requires 2 <= base <= 16
    ensures Number(Digits(n, base), base) == Some(n)
  {
    hide Over, Left, Scaled, Figure;
    if n < base {
      assert [Figure(n)][..0] == [];
      Alone(base, n);
    } else {
      var s := Digits(Over(n, base), base) + [Figure(Left(n, base))];
      assert s[..|s| - 1] == Digits(Over(n, base), base);
      NumberDigits(Over(n, base), base);
      Parts(n, base);
    }
  }

  lemma NumberHex(n: nat)
    ensures Number(Hex(n), 16) == Some(n)
  {
    NumberDigits(n, 16);
    if n < 16 {
      var s := Hex(n);
      assert s == ['0', Figure(n)];
      assert s[..1] == ['0'] && ['0'][..0] == [];
      assert Number(['0'], 16) == Some(0);
    }
  }

  // ---- Printing

  function Dotted(octets: seq<nat>): string {
    if octets == [] then []
    else if |octets| == 1 then Hex(octets[0])
    else Hex(octets[0]) + "." + Dotted(octets[1..])
  }

  /** How often, as a count before its element. */
  function Count(least: nat, most: Option<nat>): string {
    if most == Some(least) then Decimal(least)
    else (if least == 0 then [] else Decimal(least)) + "*" + if most.None? then [] else Decimal(most.value)
  }

  /** The term as ABNF, bracketed where precedence could be in doubt. */
  function Show(t: Term): string
    decreases t, 1
  {
    match t
    case Range(lo, hi) => if lo == hi then "%x" + Hex(lo) else "%x" + Hex(lo) + "-" + Hex(hi)
    case Text(v) => "\"" + v + "\""
    case Exact(v) => "%x" + Dotted(v)
    case Ref(name) => name
    case Seq(items) => ShowSeq(items)
    case Alt(items) => ShowAlt(items)
    case Rep(least, most, item) =>
      if least == 0 && most == Some(1) then "[" + Show(item) + "]" else Count(least, most) + Operand(item)
    case Prose(text) => "<" + text + ">"
  }

  /** In brackets unless it is one element or a repetition. */
  function ShowIn(t: Term): string
    decreases t, 2
  {
    if t.Seq? || t.Alt? then "(" + Show(t) + ")" else Show(t)
  }

  /** What is repeated: a repetition of a repetition keeps its brackets. */
  function Operand(t: Term): string
    decreases t, 2
  {
    if t.Seq? || t.Alt? || t.Rep? then "(" + Show(t) + ")" else Show(t)
  }

  function ShowSeq(items: seq<Term>): string
    decreases items, 0
  {
    if items == [] then []
    else if |items| == 1 then ShowIn(items[0])
    else ShowIn(items[0]) + " " + ShowSeq(items[1..])
  }

  function ShowAlt(items: seq<Term>): string
    decreases items, 0
  {
    if items == [] then []
    else
      var first := if items[0].Alt? then ShowIn(items[0]) else Show(items[0]);
      if |items| == 1 then first else first + " / " + ShowAlt(items[1..])
  }

  // ---- Normal terms

  predicate IsName(s: string) {
    s != [] && IsLower(s[0]) && forall i :: 0 <= i < |s| ==> IsLower(s[i]) || IsDigit(s[i]) || s[i] == '-'
  }

  predicate IsText(s: string) { forall i :: 0 <= i < |s| ==> s[i] < 128 as char && s[i] != '"' && s[i] != '\n' }

  predicate IsProse(s: string) { forall i :: 0 <= i < |s| ==> s[i] != '>' && s[i] != '\n' }

  predicate AreOctets(v: seq<nat>) { forall i :: 0 <= i < |v| ==> v[i] < 256 }

  /** What a parser can return: nothing of one item where one item would do. */
  predicate Normal(t: Term) {
    match t
    case Range(_, _) => true
    case Text(v) => IsText(v)
    case Exact(v) => |v| >= 2 && AreOctets(v)
    case Ref(name) => IsName(name)
    case Seq(items) => |items| >= 2 && forall i :: 0 <= i < |items| ==> Normal(items[i])
    case Alt(items) => |items| >= 2 && forall i :: 0 <= i < |items| ==> Normal(items[i])
    case Rep(_, _, item) => Normal(item)
    case Prose(text) => IsProse(text)
  }
}
