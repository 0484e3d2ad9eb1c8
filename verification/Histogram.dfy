/** The load generator's log-linear histogram: values below 128 each in a cell of its own, then 64 cells a power of two,
    over all of 64 bits. */
module Histogram {
  import opened Counting

  const EXACT: nat := 128
  const CELLS: nat := EXACT + 57 * 64
  const WORD: nat := 0x1_0000_0000_0000_0000

  function Pow2(n: nat): (p: nat)
    ensures p > 0
  {
    if n == 0 then 1 else 2 * Pow2(n - 1)
  }

  /** How far right a value is shifted to fall below 128: its highest bit less six. */
  function Shift(v: nat): nat { if v < EXACT then 0 else 1 + Shift(v / 2) }

  function Shifted(v: nat, s: nat): nat { if s == 0 then v else Shifted(v / 2, s - 1) }

  function CellOf(v: nat): nat {
    if v < EXACT then v else EXACT + (Shift(v) - 1) * 64 + (Shifted(v, Shift(v)) - 64)
  }

  /** The largest value a cell holds, in unsigned arithmetic of 64 bits. */
  function CellTop(cell: nat): nat {
    if cell < EXACT then cell
    else
      var shift, m := (cell - EXACT) / 64 + 1, (cell - EXACT) % 64 + 64;
      ((m + 1) * Pow2(shift) % WORD + WORD - 1) % WORD
  }

  // ---- A value and its shift

  lemma {:induction false} ShiftParts(v: nat)
    requires v >= EXACT
    ensures Shift(v) >= 1 && 64 <= Shifted(v, Shift(v)) < 128
    ensures Shifted(v, Shift(v)) * Pow2(Shift(v)) <= v < (Shifted(v, Shift(v)) + 1) * Pow2(Shift(v))
    decreases v
  {
    var h := v / 2;
    if h < EXACT {
      assert Shift(h) == 0 && Shift(v) == 1 && Shifted(v, 1) == Shifted(h, 0) == h;
      assert Pow2(1) == 2 * Pow2(0) == 2;
    } else {
      ShiftParts(h);
      var m, p := Shifted(h, Shift(h)), Pow2(Shift(h));
      assert Shifted(v, Shift(v)) == m && Pow2(Shift(v)) == 2 * p;
      Doubled(v, m, p);
    }
  }

  lemma Doubled(v: nat, m: nat, p: nat)
    requires m * p <= v / 2 < (m + 1) * p
    ensures m * (2 * p) <= v < (m + 1) * (2 * p)
  {
    assert m * (2 * p) == 2 * (m * p);
    assert (m + 1) * (2 * p) == 2 * ((m + 1) * p);
  }

  /** A shift and what it leaves are those of the value alone. */
  lemma {:induction false} ShiftIs(v: nat, s: nat, m: nat)
    requires s >= 1 && 64 <= m < 128 && m * Pow2(s) <= v < (m + 1) * Pow2(s)
    ensures v >= EXACT && Shift(v) == s && Shifted(v, s) == m
  {
    var p := Pow2(s - 1);
    Halved(v, m, p);
    if s == 1 {
      assert Pow2(0) == 1 && v / 2 == m;
      assert Shift(v / 2) == 0;
    } else {
      ShiftIs(v / 2, s - 1, m);
    }
  }

  lemma Halved(v: nat, m: nat, p: nat)
    requires m >= 64 && p >= 1 && m * (2 * p) <= v < (m + 1) * (2 * p)
    ensures m * p <= v / 2 < (m + 1) * p && v >= 128
  {
    assert m * (2 * p) == 2 * (m * p);
    assert (m + 1) * (2 * p) == 2 * ((m + 1) * p);
    assert m * p >= 64 * p;
  }

  lemma {:induction false} Pow2Grows(a: nat, b: nat)
    requires a <= b
    ensures Pow2(a) <= Pow2(b)
  {
    if a < b { Pow2Grows(a, b - 1); }
  }

  lemma Pow58()
    ensures Pow2(57) * 128 == WORD
  {
    assert Pow2(8) == 256;
    assert Pow2(16) == 65536;
    assert Pow2(24) == 0x100_0000;
    assert Pow2(32) == 0x1_0000_0000;
    assert Pow2(40) == 0x100_0000_0000;
    assert Pow2(48) == 0x1_0000_0000_0000;
    assert Pow2(57) == 512 * Pow2(48);
  }

  /** Every value of 64 bits has a cell. */
  lemma CellThere(v: nat)
    requires v < WORD
    ensures CellOf(v) < CELLS
  {
    if v >= EXACT {
      ShiftParts(v);
      if Shift(v) > 57 {
        Pow58();
        Pow2Grows(58, Shift(v));
        TooGreat(Shifted(v, Shift(v)), Pow2(Shift(v)), v);
        assert false;
      }
    }
  }

  lemma TooGreat(m: nat, p: nat, v: nat)
    requires m >= 64 && p >= 2 * Pow2(57) && Pow2(57) * 128 == WORD && m * p <= v
    ensures v >= WORD
  {
    assert m * p >= 64 * p;
  }

  /** What a cell of more than one value holds. */
  lemma TopIs(cell: nat)
    requires EXACT <= cell < CELLS
    ensures var s, m := (cell - EXACT) / 64 + 1, (cell - EXACT) % 64 + 64;
      CellTop(cell) == (m + 1) * Pow2(s) - 1 && 1 <= s <= 57 && 64 <= m < 128
  {
    var s, m := (cell - EXACT) / 64 + 1, (cell - EXACT) % 64 + 64;
    Pow58();
    Pow2Grows(s, 57);
    var top := (m + 1) * Pow2(s);
    NotPast(m, Pow2(s));
    Wraps(top);
  }

  lemma NotPast(m: nat, p: nat)
    requires m < 128 && 0 < p <= Pow2(57) && Pow2(57) * 128 == WORD
    ensures 0 < (m + 1) * p <= WORD
  {
    hide Pow2;
    assert (m + 1) * p <= 128 * p;
    assert (m + 1) * p >= p;
  }

  lemma Wraps(top: nat)
    requires 0 < top <= WORD
    ensures (top % WORD + WORD - 1) % WORD == top - 1
  {
  }

  /** A cell's top falls in the cell. */
  lemma TopInverts(cell: nat)
    requires cell < CELLS
    ensures CellTop(cell) < WORD && CellOf(CellTop(cell)) == cell
  {
    if cell >= EXACT {
      hide Shift, Shifted, Pow2;
      TopIs(cell);
      var s, m := (cell - EXACT) / 64 + 1, (cell - EXACT) % 64 + 64;
      var v := CellTop(cell);
      Just(m, Pow2(s));
      ShiftIs(v, s, m);
      assert cell == EXACT + (s - 1) * 64 + (m - 64);
    }
  }

  lemma Just(m: nat, p: nat)
    requires p > 0
    ensures m * p <= (m + 1) * p - 1 < (m + 1) * p
  {
    assert (m + 1) * p == m * p + p;
  }

  /** A value is at most its cell's top, and that exceeds it by less than a 64th. */
  lemma TopNear(v: nat)
    requires v < WORD
    ensures v <= CellTop(CellOf(v)) && (CellTop(CellOf(v)) == v || (CellTop(CellOf(v)) - v) * 64 < v)
  {
    if v >= EXACT {
      CellThere(v);
      ShiftParts(v);
      var s, m := Shift(v), Shifted(v, Shift(v));
      var cell := CellOf(v);
      assert (cell - EXACT) / 64 + 1 == s && (cell - EXACT) % 64 + 64 == m;
      TopIs(cell);
      hide CellOf, CellTop, Shift, Shifted;
      Near(v, m, Pow2(s));
    }
  }

  lemma Near(v: nat, m: nat, p: nat)
    requires m >= 64 && p > 0 && m * p <= v < (m + 1) * p
    ensures v <= (m + 1) * p - 1 && ((m + 1) * p - 1 - v) * 64 < v
  {
    assert (m + 1) * p == m * p + p;
    assert m * p >= 64 * p;
  }

  /** A greater value is in no lesser cell. */
  lemma {:induction false} CellMonotone(v: nat, w: nat)
    requires v <= w
    ensures CellOf(v) <= CellOf(w)
    decreases w
  {
    if v < EXACT {
      if w >= EXACT { ShiftParts(w); }
    } else {
      ShiftParts(v);
      ShiftParts(w);
      if v / 2 >= EXACT {
        CellMonotone(v / 2, w / 2);
        HalfCell(v);
        HalfCell(w);
      } else if w / 2 >= EXACT {
        HalfCell(w);
        ShiftParts(w / 2);
      } else {
        assert Shift(v) == Shift(w) == 1 && Shifted(v, 1) == v / 2 && Shifted(w, 1) == w / 2;
      }
    }
  }

  lemma HalfCell(v: nat)
    requires v / 2 >= EXACT
    ensures CellOf(v) == CellOf(v / 2) + 64
  {
  }

  // ---- What is recorded

  function Repeated(v: nat, n: nat): seq<nat> { seq(n, _ => v) }

  lemma {:induction false} TallyRepeat(v: nat, n: nat, p: nat -> bool)
    ensures Tally(Repeated(v, n), p) == if p(v) then n else 0
  {
    if n > 0 {
      assert Repeated(v, n)[1..] == Repeated(v, n - 1);
      TallyRepeat(v, n - 1, p);
    }
  }

  function InCell(cell: nat): nat -> bool { (v: nat) => CellOf(v) == cell }

  function UpToCell(cell: int): nat -> bool { (v: nat) => CellOf(v) <= cell }

  function LessThan(x: nat): nat -> bool { (v: nat) => v < x }

  function AtMost(x: nat): nat -> bool { (v: nat) => v <= x }

  ghost predicate IsMax(vs: seq<nat>, max: nat) {
    (forall i {:trigger vs[i]} :: 0 <= i < |vs| ==> vs[i] <= max) && (vs == [] ==> max == 0) && (vs != [] ==> max in vs)
  }

  /** The value of rank `rank`, from the least. */
  ghost predicate OfRank(vs: seq<nat>, x: nat, rank: nat) {
    x in vs && Tally(vs, LessThan(x)) < rank <= Tally(vs, AtMost(x))
  }

  class Latencies {
    const count: array<nat>
    var total: nat
    var max: nat
    ghost var values: seq<nat>

    ghost predicate Valid()
      reads this, count
    {
      && count.Length == CELLS && total == |values|
      && (forall i {:trigger values[i]} :: 0 <= i < |values| ==> values[i] < WORD)
      && (forall i {:trigger count[i]} :: 0 <= i < CELLS ==> count[i] == Tally(values, InCell(i)))
      && IsMax(values, max)
    }

    constructor ()
      ensures Valid() && values == [] && fresh(count)
    {
      count := new nat[CELLS](_ => 0);
      total, max, values := 0, 0, [];
    }

    /** A value recorded `n` times. */
    method Record(v: nat, n: nat)
      requires Valid() && v < WORD
      modifies this, count
      ensures Valid() && values == old(values) + Repeated(v, n)
    {
      CellThere(v);
      ghost var was, more := values, Repeated(v, n);
      count[CellOf(v)] := count[CellOf(v)] + n;
      total := total + n;
      if n > 0 && v > max { max := v; }
      values := values + more;
      forall i | 0 <= i < CELLS ensures count[i] == Tally(values, InCell(i)) {
        TallyParts<nat>(was, more, InCell(i));
        TallyRepeat(v, n, InCell(i));
      }
      if n > 0 { assert more[0] == v && values[|was|] == v; }
    }

    /** What another recorded added to this. */
    method Merge(h: Latencies)
      requires Valid() && h.Valid() && h != this && h.count != count
      modifies this, count
      ensures Valid() && values == old(values) + h.values
    {
      ghost var was := values;
      var i := 0;
      while i < CELLS
        modifies count
        invariant i <= CELLS
        invariant forall k {:trigger count[k]} :: 0 <= k < CELLS ==>
          count[k] == Tally(was, InCell(k)) + if k < i then Tally(h.values, InCell(k)) else 0
      {
        count[i] := count[i] + h.count[i];
        i := i + 1;
      }
      total := total + h.total;
      if h.max > max { max := h.max; }
      values := values + h.values;
      forall k | 0 <= k < CELLS ensures count[k] == Tally(values, InCell(k)) {
        TallyParts<nat>(was, h.values, InCell(k));
      }
    }

    /** The value at a rank, to the cell: at least the true one, and over it by less than a 64th. */
    method AtRank(rank: nat) returns (q: nat)
      requires Valid() && rank >= 1
      ensures forall x: nat {:trigger OfRank(values, x, rank)} :: OfRank(values, x, rank) ==>
        x <= q && (q == x || (q - x) * 64 < x)
      ensures rank > total ==> q == max
    {
      var seen, i := 0, 0;
      TallyNone(values);
      while i < CELLS
        invariant i <= CELLS && seen == Tally(values, UpToCell(i - 1)) && seen < rank
      {
        NextCell(values, i);
        seen := seen + count[i];
        if seen >= rank {
          q := if CellTop(i) < max then CellTop(i) else max;
          forall x: nat | OfRank(values, x, rank) ensures x <= q && (q == x || (q - x) * 64 < x) {
            RankCell(values, x, rank, i, max);
          }
          TallyMost(values, UpToCell(i));
          return;
        }
        i := i + 1;
      }
      q := max;
      TallyEvery(values);
      forall x: nat ensures !OfRank(values, x, rank) {
        TallyMost(values, AtMost(x));
      }
    }
  }

  lemma {:induction false} TallyNone(vs: seq<nat>)
    ensures Tally(vs, UpToCell(-1)) == 0
  {
    if vs != [] { TallyNone(vs[1..]); }
  }

  /** The greatest value below `x`, there being one. */
  lemma {:induction false} GreatestBelow(vs: seq<nat>, x: nat) returns (y: nat)
    requires Tally(vs, LessThan(x)) > 0
    ensures y in vs && y < x && forall i :: 0 <= i < |vs| ==> vs[i] < x ==> vs[i] <= y
  {
    var rest := vs[1..];
    assert vs == [vs[0]] + rest;
    if Tally(rest, LessThan(x)) > 0 {
      y := GreatestBelow(rest, x);
      if y < vs[0] < x { y := vs[0]; }
      assert forall i :: 0 < i < |vs| ==> vs[i] == rest[i - 1];
    } else {
      y := vs[0];
      forall i | 0 < i < |vs| ensures vs[i] >= x {
        assert vs[i] == rest[i - 1];
        NoneBelow(rest, x, i - 1);
      }
    }
  }

  lemma {:induction false} NoneBelow(vs: seq<nat>, x: nat, i: nat)
    requires i < |vs| && Tally(vs, LessThan(x)) == 0
    ensures vs[i] >= x
  {
    if i > 0 { NoneBelow(vs[1..], x, i - 1); }
  }

  lemma {:induction false} RankFrom(vs: seq<nat>, x: nat, rank: nat)
    requires x in vs && 1 <= rank <= Tally(vs, AtMost(x))
    ensures exists y :: OfRank(vs, y, rank)
    decreases x
  {
    if Tally(vs, LessThan(x)) >= rank {
      var y := GreatestBelow(vs, x);
      TallyLess(vs, LessThan(x), AtMost(y));
      RankFrom(vs, y, rank);
    } else {
      assert OfRank(vs, x, rank);
    }
  }

  /** Every rank up to how many there are has its value. */
  lemma RankThere(vs: seq<nat>, max: nat, rank: nat)
    requires IsMax(vs, max) && 1 <= rank <= |vs|
    ensures exists x :: OfRank(vs, x, rank)
  {
    TallyWhole(vs, max);
    RankFrom(vs, max, rank);
  }

  lemma {:induction false} TallyWhole(vs: seq<nat>, x: nat)
    requires forall i {:trigger vs[i]} :: 0 <= i < |vs| ==> vs[i] <= x
    ensures Tally(vs, AtMost(x)) == |vs|
  {
    if vs != [] { TallyWhole(vs[1..], x); }
  }

  /** Every value is in some cell. */
  lemma {:induction false} TallyEvery(vs: seq<nat>)
    requires forall i {:trigger vs[i]} :: 0 <= i < |vs| ==> vs[i] < WORD
    ensures Tally(vs, UpToCell(CELLS - 1)) == |vs|
  {
    if vs != [] {
      CellThere(vs[0]);
      TallyEvery(vs[1..]);
    }
  }

  lemma NextCell(vs: seq<nat>, i: nat)
    ensures Tally(vs, UpToCell(i)) == Tally(vs, UpToCell(i - 1)) + Tally(vs, InCell(i))
  {
    TallySplit(vs, UpToCell(i - 1), InCell(i), UpToCell(i));
  }

  /** The first cell the ranks up to `rank` fill is that of the value of the rank. */
  lemma RankCell(vs: seq<nat>, x: nat, rank: nat, i: nat, max: nat)
    requires OfRank(vs, x, rank) && IsMax(vs, max) && forall k {:trigger vs[k]} :: 0 <= k < |vs| ==> vs[k] < WORD
    requires Tally(vs, UpToCell(i - 1)) < rank <= Tally(vs, UpToCell(i))
    ensures var q := if CellTop(i) < max then CellTop(i) else max; x <= q && (q == x || (q - x) * 64 < x)
  {
    var k :| 0 <= k < |vs| && vs[k] == x;
    SameCell(vs, x, rank, i);
    TopNear(x);
  }

  lemma SameCell(vs: seq<nat>, x: nat, rank: nat, i: nat)
    requires OfRank(vs, x, rank) && Tally(vs, UpToCell(i - 1)) < rank <= Tally(vs, UpToCell(i))
    ensures CellOf(x) == i
  {
    hide CellOf;
    var c := CellOf(x);
    if c < i {
      forall j | 0 <= j < |vs| ensures AtMost(x)(vs[j]) ==> UpToCell(i - 1)(vs[j]) {
        if vs[j] <= x { CellMonotone(vs[j], x); }
      }
      TallyLess(vs, AtMost(x), UpToCell(i - 1));
      assert false;
    } else if i < c {
      forall j | 0 <= j < |vs| ensures UpToCell(i)(vs[j]) ==> LessThan(x)(vs[j]) {
        if x <= vs[j] { CellMonotone(x, vs[j]); }
      }
      TallyLess(vs, UpToCell(i), LessThan(x));
      assert false;
    }
  }
}
