/** The framer that reads a byte at a time, and that over any stream it finds exactly what the whole stream defines. */
module Framer {
  import opened Framing

  // ---- Lines

  const FRESH_LINE := LineState(0, false, false, [])

  /** The verdict at an LF. */
  function LineEnded(lim: nat, s: LineState): Line {
    if lim <= s.len then Line(Overlong, s.buf)
    else if s.cr && !s.bad then Line(Command, Butlast(s.buf))
    else Line(Malformed, s.buf)
  }

  /** One byte that does not end the line. */
  function LineStep(lim: nat, s: LineState, x: byte): LineState {
    LineState(if s.len < lim then s.len + 1 else s.len, x == CR, s.bad || s.cr || x == NUL,
              if s.len < lim then s.buf + [x] else s.buf)
  }

  /** The bytes of a chunk, the lines that end among them collected. */
  function FeedLines(lim: nat, s: LineState, chunk: bytes): (seq<Line>, LineState)
    decreases |chunk|
  {
    if chunk == [] then ([], s)
    else if chunk[0] == LF then
      var r := FeedLines(lim, FRESH_LINE, chunk[1..]);
      ([LineEnded(lim, s)] + r.0, r.1)
    else FeedLines(lim, LineStep(lim, s, chunk[0]), chunk[1..])
  }

  /** A byte more on the line, from the bytes alone. */
  lemma OpenLineMore(lim: nat, tail: bytes, x: byte)
    ensures LineStep(lim, OpenLine(lim, tail), x) == OpenLine(lim, tail + [x])
  {
    hide Take, Butlast, EndsCr;
    LastCr(tail, x);
    TakeMore(lim, tail, x);
  }

  lemma LastCr(tail: bytes, x: byte)
    ensures Butlast(tail + [x]) == tail && (EndsCr(tail + [x]) <==> x == CR)
    ensures CR in tail <==> CR in Butlast(tail) || EndsCr(tail)
  {
    if tail != [] { assert tail == Butlast(tail) + [tail[|tail| - 1]]; }
  }

  lemma TakeMore(lim: nat, tail: bytes, x: byte)
    ensures Take(tail + [x], lim) == if |tail| < lim then Take(tail, lim) + [x] else Take(tail, lim)
  {
  }

  lemma OpenLineNone(lim: nat)
    ensures OpenLine(lim, []) == FRESH_LINE
  {
  }

  lemma LineEndedIs(lim: nat, body: bytes)
    ensures LineEnded(lim, OpenLine(lim, body)) == Classify(lim, body)
  {
  }

  /** The machine, with `p` read, over `t` finds what the definition does of `p + t`. */
  lemma {:induction false} FeedLinesIs(lim: nat, p: bytes, t: bytes)
    ensures var (lines, open) := FeedLines(lim, OpenLine(lim, Tail(p, [LF])), t);
      (ClassifyAll(lim, Bodies(p, [LF])) + lines, open) == LinesOf(lim, p + t)
    decreases |t|
  {
    hide Tail, Bodies, OpenLine, LineStep, LineEnded, Classify;
    if t == [] {
      assert p + t == p;
      assert ClassifyAll(lim, Bodies(p, [LF])) + [] == ClassifyAll(lim, Bodies(p, [LF]));
    } else {
      var x, q := t[0], p + [t[0]];
      assert q + t[1..] == p + t;
      LineMore(p, x);
      FeedLinesIs(lim, q, t[1..]);
      if x == LF {
        var was, line := ClassifyAll(lim, Bodies(p, [LF])), Classify(lim, Tail(p, [LF]));
        LineEndedIs(lim, Tail(p, [LF]));
        assert ClassifyAll(lim, Bodies(q, [LF])) == was + [line];
        OpenLineNone(lim);
        var r := FeedLines(lim, FRESH_LINE, t[1..]);
        assert was + ([line] + r.0) == was + [line] + r.0;
      } else {
        OpenLineMore(lim, Tail(p, [LF]), x);
      }
    }
  }

  /** The lines found a byte at a time are those of the whole stream. */
  lemma LinesExact(lim: nat, stream: bytes)
    ensures FeedLines(lim, FRESH_LINE, stream) == LinesOf(lim, stream)
  {
    FeedLinesIs(lim, [], stream);
    SplitEmpty([LF]);
    OpenLineNone(lim);
    hide Tail, Bodies;
    assert [] + stream == stream;
    assert ClassifyAll(lim, []) + FeedLines(lim, FRESH_LINE, stream).0 == FeedLines(lim, FRESH_LINE, stream).0;
  }

  // ---- Blocks

  const FRESH_BLOCK := BlockState(Bol, false, 0, [])

  /** Holds a byte: kept while there is room, only counted past it. */
  function Put(cap: nat, s: BlockState, x: byte): BlockState {
    if s.size < cap then s.(size := s.size + 1, buf := s.buf + [x])
    else s.(size := if s.size == cap then s.size + 1 else s.size)
  }

  predicate Spoils(x: byte) { x == LF || x == NUL }

  /** Whether a byte ends the block. */
  predicate EndsBlock(s: BlockState, x: byte) { s.phase.DotCr? && x == LF }

  function BlockEnded(cap: nat, s: BlockState): Verdict {
    if s.bad then Refused else if cap < s.size then TooLarge else Accepted(s.buf)
  }

  /** One byte that does not end the block. The dot before a line, and a CR until the next byte, are not held. */
  function BlockStep(cap: nat, s: BlockState, x: byte): BlockState
    requires !EndsBlock(s, x)
  {
    var inside := Put(cap, s, x).(phase := Data, bad := s.bad || Spoils(x));
    var withCr := Put(cap, s, CR);
    match s.phase
    case Bol => if x == DOT then s.(phase := Dot) else if x == CR then s.(phase := Cr) else inside
    case Data => if x == CR then s.(phase := Cr) else inside
    case Dot => if x == CR then s.(phase := DotCr) else inside
    case Cr =>
      if x == LF then Put(cap, withCr, LF).(phase := Bol)
      else if x == CR then withCr.(phase := Cr, bad := true)
      else Put(cap, withCr, x).(phase := Data, bad := true)
    case DotCr =>
      if x == CR then withCr.(phase := Cr, bad := true)
      else Put(cap, withCr, x).(phase := Data, bad := true)
  }

  /** The bytes of a chunk, `read` of the block read before it: the blocks that end, and the one that has not. */
  function FeedBlocks(cap: nat, s: BlockState, read: nat, chunk: bytes): (seq<End>, BlockState, nat)
    decreases |chunk|
  {
    if chunk == [] then ([], s, read)
    else if EndsBlock(s, chunk[0]) then
      var r := FeedBlocks(cap, FRESH_BLOCK, 0, chunk[1..]);
      ([End(BlockEnded(cap, s), read + 1)] + r.0, r.1, r.2)
    else FeedBlocks(cap, BlockStep(cap, s, chunk[0]), read + 1, chunk[1..])
  }

  lemma PutStored(cap: nat, phase: Phase, bad: bool, content: bytes, x: byte)
    ensures Put(cap, Stored(cap, phase, bad, content), x) == Stored(cap, phase, bad, content + [x])
  {
    if |content| < cap { assert Take(content + [x], cap) == Take(content, cap) + [x]; }
  }

  lemma UnstuffMore(h: bytes, x: byte)
    ensures h != [] ==> Unstuff(h + [x]) == Unstuff(h) + [x]
    ensures h == [] ==> Unstuff(h + [x]) == if x == DOT then [] else [x]
  {
  }

  lemma CleanMore(h: bytes, x: byte)
    ensures Clean(h + [x]) <==> Clean(h) && x != CR && x != LF && x != NUL
  {
  }

  /** A byte inside the line: what `OpenOf` makes of it. */
  lemma OpenData(cap: nat, lines: seq<bytes>, rest: bytes, x: byte)
    requires !EndsCr(rest) && x != CR && !(rest == [] && x == DOT)
    ensures OpenOf(cap, lines, rest + [x]) ==
      Put(cap, OpenOf(cap, lines, rest), x).(phase := Data, bad := OpenOf(cap, lines, rest).bad || Spoils(x))
  {
    hide Content, AllClean;
    var content := Content(lines) + Unstuff(rest);
    UnstuffMore(rest, x);
    CleanMore(rest, x);
    assert !EndsCr(rest + [x]) && PhaseOf(rest + [x]) == Data;
    hide Unstuff, Clean, Stored, Put, EndsCr, PhaseOf, Take;
    assert Content(lines) + Unstuff(rest + [x]) == content + [x];
    PutStored(cap, PhaseOf(rest), !AllClean(lines) || !Clean(rest), content, x);
  }

  /** A CR is held back. */
  lemma OpenCr(cap: nat, lines: seq<bytes>, rest: bytes)
    requires !EndsCr(rest)
    ensures OpenOf(cap, lines, rest + [CR]) == OpenOf(cap, lines, rest).(phase := if rest == [DOT] then DotCr else Cr)
  {
    hide Content, AllClean, Clean, Unstuff, Stored;
    var r := rest + [CR];
    assert EndsCr(r) && Butlast(r) == rest;
    assert r == [DOT, CR] <==> rest == [DOT] by {
      if r == [DOT, CR] { assert rest == r[..1]; }
    }
    StoredPhase(cap, PhaseOf(rest), PhaseOf(r), !AllClean(lines) || !Clean(rest), Content(lines) + Unstuff(rest));
  }

  lemma StoredPhase(cap: nat, phase: Phase, phase': Phase, bad: bool, content: bytes)
    ensures Stored(cap, phase, bad, content).(phase := phase') == Stored(cap, phase', bad, content)
  {
  }

  /** The CR held back turns out to be inside the line, and `x` comes after it. */
  lemma OpenAfterCr(cap: nat, lines: seq<bytes>, h: bytes, x: byte)
    requires x != LF
    ensures var s := OpenOf(cap, lines, h + [CR]);
      OpenOf(cap, lines, h + [CR, x]) ==
        if x == CR then Put(cap, s, CR).(phase := Cr, bad := true)
        else Put(cap, Put(cap, s, CR), x).(phase := Data, bad := true)
  {
    hide Content, AllClean, Stored, Put, Unstuff, Clean, PhaseOf, Held;
    var r := h + [CR];
    var content := Content(lines) + Unstuff(h);
    assert h + [CR, x] == r + [x];
    AfterCr(h, x);
    UnstuffMore(h, CR);
    UnstuffMore(r, x);
    UnstuffNone();
    assert Content(lines) + Unstuff(r) == content + [CR];
    assert Content(lines) + Unstuff(r + [x]) == content + [CR] + [x];
    var phase, bad := PhaseOf(r), !AllClean(lines) || !Clean(h);
    PutStored(cap, phase, bad, content, CR);
    PutStored(cap, phase, bad, content + [CR], x);
    StoredAs(cap, phase, bad, content + [CR], Cr, true);
    StoredAs(cap, phase, bad, content + [CR] + [x], Data, true);
  }

  lemma UnstuffNone()
    ensures Unstuff([]) == []
  {
  }

  lemma StoredAs(cap: nat, phase: Phase, bad: bool, content: bytes, phase': Phase, bad': bool)
    ensures Stored(cap, phase, bad, content).(phase := phase', bad := bad') == Stored(cap, phase', bad', content)
  {
  }

  /** What is held, and the phase, of a line with a CR not last. */
  lemma AfterCr(h: bytes, x: byte)
    requires x != LF
    ensures var r := h + [CR];
      && Held(r) == h && Held(r + [x]) == (if x == CR then r else r + [x])
      && PhaseOf(r + [x]) == (if x == CR then Cr else Data)
      && !Clean(r) && !Clean(r + [x])
  {
    var r := h + [CR];
    assert r[|h|] == CR && (r + [x])[|h|] == CR;
    assert Butlast(r) == h && Butlast(r + [x]) == r;
  }

  /** The CR held back ends the line. */
  lemma OpenLf(cap: nat, lines: seq<bytes>, h: bytes)
    requires h != [DOT]
    ensures var s := OpenOf(cap, lines, h + [CR]);
      OpenOf(cap, lines + [h], []) == Put(cap, Put(cap, s, CR), LF).(phase := Bol)
  {
    var s, content := OpenOf(cap, lines, h + [CR]), Content(lines) + Unstuff(h);
    assert Butlast(h + [CR]) == h;
    PutStored(cap, s.phase, s.bad, content, CR);
    PutStored(cap, s.phase, s.bad, content + [CR], LF);
    assert (lines + [h])[..|lines|] == lines;
    assert Content(lines + [h]) + Unstuff([]) == content + [CR] + [LF];
    AllCleanMore(lines, h);
  }

  lemma AllCleanMore(lines: seq<bytes>, h: bytes)
    ensures AllClean(lines + [h]) <==> AllClean(lines) && Clean(h)
  {
    assert (lines + [h])[|lines|] == h;
    assert forall i :: 0 <= i < |lines| ==> (lines + [h])[i] == lines[i];
  }

  /** A byte that does not end the block takes the state of what was read to that of one byte more. */
  lemma StepIs(cap: nat, p: bytes, x: byte)
    requires !EndsBlock(Unfinished(cap, p), x)
    ensures BlockStep(cap, Unfinished(cap, p), x) == Unfinished(cap, p + [x])
  {
    hide Bodies, Tail, Put, Content, AllClean;
    CrlfMore(p, x);
    var lines, r := Bodies(p, CRLF), Tail(p, CRLF);
    if !EndsCr(r) {
      if x == CR {
        OpenCr(cap, lines, r);
      } else if r == [] && x == DOT {
        assert [] + [x] == [DOT];
        assert Content(lines) + Unstuff([DOT]) == Content(lines) + Unstuff([]);
        CleanMore([], DOT);
      } else {
        OpenData(cap, lines, r, x);
      }
    } else {
      var h := Butlast(r);
      assert r == h + [CR];
      if x == LF {
        assert h == [DOT] ==> r == [DOT, CR];
        OpenLf(cap, lines, h);
      } else {
        OpenAfterCr(cap, lines, h, x);
        assert r + [x] == h + [CR, x];
      }
    }
  }

  // ---- Where a block ends

  lemma TailCr(q: bytes)
    ensures EndsCr(Tail(q, CRLF)) <==> EndsCr(q)
  {
    if q == [] {
      SplitEmpty(CRLF);
    } else {
      assert Butlast(q) + [q[|q| - 1]] == q;
      CrlfMore(Butlast(q), q[|q| - 1]);
    }
  }

  /** At the beginning of a line: nothing read, or a CRLF last. */
  predicate AtBol(q: bytes) { q == [] || (|q| >= 2 && q[|q| - 2..] == CRLF) }

  lemma TailEmpty(q: bytes)
    ensures Tail(q, CRLF) == [] <==> AtBol(q)
  {
    hide Tail, Bodies, AtBol, EndsCr;
    BolMore(q);
    if q == [] {
      SplitEmpty(CRLF);
      NoTail();
    } else {
      var r, x := q[..|q| - 1], q[|q| - 1];
      assert r + [x] == q;
      CrlfMore(r, x);
      TailCr(r);
    }
  }

  lemma NoTail()
    ensures Tail([], CRLF) == []
  {
    SplitEmpty(CRLF);
  }

  /** The last two octets, read one after the other. */
  lemma BolMore(q: bytes)
    ensures AtBol(q) <==> q == [] || (q[|q| - 1] == LF && EndsCr(q[..|q| - 1]))
  {
    if |q| >= 2 {
      assert q[|q| - 2..] == [q[|q| - 2], q[|q| - 1]];
      assert q[..|q| - 1][|q| - 2] == q[|q| - 2];
    }
  }

  /** The line read is a dot and a CR exactly when they are at the beginning of a line. */
  lemma TailDotCr(p: bytes)
    ensures Tail(p, CRLF) == [DOT, CR] <==> |p| >= 2 && p[|p| - 2..] == [DOT, CR] && AtBol(p[..|p| - 2])
  {
    if |p| < 2 {
      SplitEmpty(CRLF);
      if |p| == 1 {
        CrlfMore([], p[0]);
        assert [] + [p[0]] == p;
      }
    } else {
      var r, y, x := p[..|p| - 2], p[|p| - 2], p[|p| - 1];
      assert p == r + [y] + [x] && p[|p| - 2..] == [y, x];
      CrlfMore(r + [y], x);
      CrlfMore(r, y);
      TailEmpty(r);
      hide Tail, Bodies;
      if Tail(p, CRLF) == [DOT, CR] {
        assert Tail(r + [y], CRLF) + [x] == [DOT, CR];
        assert Tail(r + [y], CRLF) == (Tail(r + [y], CRLF) + [x])[..1] == [DOT];
        assert (Tail(r + [y], CRLF) + [x])[1] == x;
        assert Tail(r, CRLF) + [y] == [DOT];
        assert Tail(r, CRLF) == (Tail(r, CRLF) + [y])[..0];
      }
    }
  }

  /** The machine ends the block at an LF exactly where the terminator ends. */
  lemma EndsWhere(cap: nat, p: bytes, x: byte)
    ensures EndsBlock(Unfinished(cap, p), x) <==> |p| >= 2 && Has(CRLF + p + [x], TERMINATOR, |p| - 2)
  {
    TailDotCr(p);
    hide Tail, Bodies;
    if |p| >= 2 {
      var s, n := CRLF + p + [x], |p|;
      HasTerminator(s, n - 2);
      assert s[n] == p[n - 2] && s[n + 1] == p[n - 1] && s[n + 2] == x;
      assert p[n - 2..] == [p[n - 2], p[n - 1]];
      if n == 2 {
        assert s[0] == CR && s[1] == LF;
      } else if n == 3 {
        assert s[1] == LF;
      } else {
        assert s[n - 2] == p[n - 4] && s[n - 1] == p[n - 3];
        assert p[..n - 2][n - 4..] == [p[n - 4], p[n - 3]];
      }
    }
  }

  lemma HasTerminator(s: bytes, at: nat)
    requires at + 5 <= |s|
    ensures Has(s, TERMINATOR, at) <==>
      s[at] == CR && s[at + 1] == LF && s[at + 2] == DOT && s[at + 3] == CR && s[at + 4] == LF
  {
    var t := s[at..at + 5];
    assert t == [s[at], s[at + 1], s[at + 2], s[at + 3], s[at + 4]];
  }

  ghost predicate NoEnd(p: bytes) { Find(CRLF + p, TERMINATOR, 0) == -1 }

  /** A byte that ends no block leaves the terminator unseen. */
  lemma NoEndMore(cap: nat, p: bytes, x: byte)
    requires NoEnd(p) && !EndsBlock(Unfinished(cap, p), x)
    ensures NoEnd(p + [x])
  {
    EndsWhere(cap, p, x);
    assert CRLF + (p + [x]) == CRLF + p + [x];
    FirstFound(CRLF + p, x, TERMINATOR);
  }

  /** One that does is where the terminator is first seen, whatever follows. */
  lemma EndFirst(cap: nat, p: bytes, x: byte, t: bytes)
    requires NoEnd(p) && EndsBlock(Unfinished(cap, p), x)
    ensures |p| >= 2 && Find(CRLF + (p + [x] + t), TERMINATOR, 0) == |p| - 2
  {
    EndsWhere(cap, p, x);
    hide Find, Has, Unfinished, EndsBlock;
    FirstFound(CRLF + p, x, TERMINATOR);
    FindAhead(CRLF + p + [x], t, TERMINATOR, |p| - 2);
    assert CRLF + (p + [x] + t) == CRLF + p + [x] + t;
  }

  /** What comes after does not change where the first is found. */
  lemma {:induction false} FindAhead(s: bytes, t: bytes, pat: bytes, at: nat)
    requires Find(s, pat, 0) == at
    ensures Find(s + t, pat, 0) == at
    decreases |t|
  {
    hide Find;
    if t == [] {
      assert s + t == s;
    } else {
      FindMore(s, t[0], pat, at);
      FindAhead(s + [t[0]], t[1..], pat, at);
      assert s + [t[0]] + t[1..] == s + t;
    }
  }

  /** The verdict is that of the lines before the terminator. */
  lemma EndedIs(cap: nat, p: bytes)
    requires |p| >= 2 && Tail(p, CRLF) == [DOT, CR]
    ensures BlockEnded(cap, Unfinished(cap, p)) == Ended(cap, RegionLines(p[..|p| - 2]))
  {
    TailDotCr(p);
    hide Bodies, Tail, RegionLines, OpenOf, BlockEnded, Ended;
    var r := p[..|p| - 2];
    RegionIs(r);
    assert p == r + [DOT] + [CR];
    CrlfMore(r, DOT);
    CrlfMore(r + [DOT], CR);
    EndedLines(cap, Bodies(r, CRLF));
  }

  lemma EndedLines(cap: nat, lines: seq<bytes>)
    ensures BlockEnded(cap, OpenOf(cap, lines, [DOT, CR])) == Ended(cap, lines)
  {
    hide Content, AllClean;
    assert Butlast([DOT, CR]) == [DOT];
    assert Content(lines) + Unstuff([DOT]) == Content(lines);
  }

  lemma RegionIs(r: bytes)
    requires AtBol(r)
    ensures RegionLines(r) == Bodies(r, CRLF)
  {
    SplitEmpty(CRLF);
  }

  /** The machine, with `p` of a block read, over `t` finds what the definition does of `p + t`. */
  lemma {:induction false} FeedBlocksIs(cap: nat, p: bytes, t: bytes)
    requires NoEnd(p)
    ensures var r := FeedBlocks(cap, Unfinished(cap, p), |p|, t); (r.0, r.1) == BlocksOf(cap, p + t)
    decreases |t|
  {
    hide Unfinished, BlockStep, BlockEnded, EndsBlock, Ended, RegionLines;
    if t == [] {
      assert p + t == p;
    } else {
      var x := t[0];
      assert p + [x] + t[1..] == p + t;
      if EndsBlock(Unfinished(cap, p), x) {
        EndFirst(cap, p, x, t[1..]);
        EndsTail(cap, p, x);
        EndedIs(cap, p);
        var read := |p| + 1;
        assert (p + t)[..read - 3] == p[..|p| - 2] && (p + t)[read..] == t[1..];
        FreshIs(cap);
        FeedBlocksIs(cap, [], t[1..]);
        assert [] + t[1..] == t[1..];
      } else {
        StepIs(cap, p, x);
        NoEndMore(cap, p, x);
        FeedBlocksIs(cap, p + [x], t[1..]);
      }
    }
  }

  lemma EndsTail(cap: nat, p: bytes, x: byte)
    requires EndsBlock(Unfinished(cap, p), x)
    ensures Tail(p, CRLF) == [DOT, CR]
  {
  }

  lemma FreshIs(cap: nat)
    ensures Unfinished(cap, []) == FRESH_BLOCK && NoEnd([])
  {
    SplitEmpty(CRLF);
    assert CRLF + [] == CRLF;
    assert Content([]) + Unstuff([]) == [];
  }

  /** The blocks found a byte at a time are those of the whole stream: ends, verdicts, octets read and open state. */
  lemma BlocksExact(cap: nat, stream: bytes)
    ensures var r := FeedBlocks(cap, FRESH_BLOCK, 0, stream); (r.0, r.1) == BlocksOf(cap, stream)
  {
    FreshIs(cap);
    FeedBlocksIs(cap, [], stream);
    assert [] + stream == stream;
  }
}
