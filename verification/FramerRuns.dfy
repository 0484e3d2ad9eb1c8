/** The framers as programs over chunks, state kept in place between calls, and dot-stuffing undone. */
module FramerRuns {
  import opened Framing
  import opened Framer

  function Join(chunks: seq<bytes>): bytes {
    if chunks == [] then [] else Join(chunks[..|chunks| - 1]) + chunks[|chunks| - 1]
  }

  // ---- Reading goes on where it stopped

  lemma {:induction false} FeedLinesOn(lim: nat, s: LineState, a: bytes, b: bytes)
    ensures var r := FeedLines(lim, s, a);
      var t := FeedLines(lim, r.1, b);
      FeedLines(lim, s, a + b) == (r.0 + t.0, t.1)
    decreases |a|
  {
    hide LineStep, LineEnded;
    if a == [] {
      assert a + b == b;
      assert [] + FeedLines(lim, s, b).0 == FeedLines(lim, s, b).0;
    } else {
      assert (a + b)[1..] == a[1..] + b;
      FeedLinesOn(lim, if a[0] == LF then FRESH_LINE else LineStep(lim, s, a[0]), a[1..], b);
      if a[0] == LF {
        var r := FeedLines(lim, FRESH_LINE, a[1..]);
        assert [LineEnded(lim, s)] + (r.0 + FeedLines(lim, r.1, b).0) == [LineEnded(lim, s)] + r.0 + FeedLines(lim, r.1, b).0;
      }
    }
  }

  lemma {:induction false} FeedBlocksOn(cap: nat, s: BlockState, n: nat, a: bytes, b: bytes)
    ensures var r := FeedBlocks(cap, s, n, a);
      var t := FeedBlocks(cap, r.1, r.2, b);
      FeedBlocks(cap, s, n, a + b) == (r.0 + t.0, t.1, t.2)
    decreases |a|
  {
    hide BlockStep, BlockEnded, EndsBlock;
    if a == [] {
      assert a + b == b;
      assert [] + FeedBlocks(cap, s, n, b).0 == FeedBlocks(cap, s, n, b).0;
    } else {
      assert (a + b)[1..] == a[1..] + b;
      if EndsBlock(s, a[0]) {
        FeedBlocksOn(cap, FRESH_BLOCK, 0, a[1..], b);
        var r, e := FeedBlocks(cap, FRESH_BLOCK, 0, a[1..]), End(BlockEnded(cap, s), n + 1);
        assert [e] + (r.0 + FeedBlocks(cap, r.1, r.2, b).0) == [e] + r.0 + FeedBlocks(cap, r.1, r.2, b).0;
      } else {
        FeedBlocksOn(cap, BlockStep(cap, s, a[0]), n + 1, a[1..], b);
      }
    }
  }

  datatype Found<T> = Nothing | Found(value: T) | OutOfRange

  // ---- The line framer

  class LineFramer {
    const lim: nat
    const buf: array<byte>
    var len: nat
    var cr: bool
    var bad: bool

    ghost predicate Valid()
      reads this
    {
      buf.Length == lim && len <= lim
    }

    ghost function State(): LineState
      requires Valid()
      reads this, buf
    {
      LineState(len, cr, bad, buf[..len])
    }

    constructor (lim: nat)
      ensures Valid() && fresh(buf) && this.lim == lim && State() == FRESH_LINE
    {
      this.lim, len, cr, bad := lim, 0, false, false;
      buf := new byte[lim](_ => 0);
    }

    /** One byte that does not end the line. */
    method Hold(b: byte)
      requires Valid() && b != LF
      modifies this`len, this`cr, this`bad, buf
      ensures Valid() && State() == LineStep(lim, old(State()), b)
    {
      if cr { bad := true; }
      if b == 0 { bad := true; }
      cr := b == 13;
      if len < lim {
        buf[len] := b;
        len := len + 1;
        assert buf[..len] == old(buf[..len]) + [b];
      }
    }

    /** The verdict at an LF, and the state afresh. */
    method Close() returns (line: Line)
      requires Valid()
      modifies this`len, this`cr, this`bad
      ensures Valid() && line == LineEnded(lim, old(State())) && State() == FRESH_LINE
    {
      var kept := len;
      var kind := Malformed;
      if lim <= len {
        kind := Overlong;
      } else if cr && !bad {
        kind, kept := Command, if len > 0 then len - 1 else 0;
      }
      line := Line(kind, buf[..kept]);
      len, cr, bad := 0, false, false;
    }

    /** Reads the chunk from `i`, stopping after the first line that ends. */
    method Frame(p: bytes, i: nat) returns (next: nat, line: Found<Line>)
      requires Valid()
      modifies this`len, this`cr, this`bad, buf
      ensures Valid()
      ensures line.OutOfRange? <==> i > |p|
      ensures line.OutOfRange? ==> State() == old(State())
      ensures !line.OutOfRange? ==> i <= next <= |p| && (i < |p| ==> i < next)
      ensures line.Nothing? ==> next == |p| && FeedLines(lim, old(State()), p[i..]) == ([], State())
      ensures line.Found? ==>
        var r := FeedLines(lim, State(), p[next..]);
        FeedLines(lim, old(State()), p[i..]) == ([line.value] + r.0, r.1)
    {
      hide LineStep, LineEnded;
      if i > |p| { return 0, OutOfRange; }
      next := i;
      while next < |p|
        invariant i <= next <= |p| && Valid()
        invariant FeedLines(lim, old(State()), p[i..]) == FeedLines(lim, State(), p[next..])
      {
        var b := p[next];
        assert p[next..][1..] == p[next + 1..];
        next := next + 1;
        if b == LF {
          var l := Close();
          return next, Found(l);
        }
        Hold(b);
      }
      line := Nothing;
    }
  }

  /** A chunk, a call at a time. */
  method DriveLineChunk(f: LineFramer, p: bytes) returns (lines: seq<Line>)
    requires f.Valid()
    modifies f`len, f`cr, f`bad, f.buf
    ensures f.Valid() && FeedLines(f.lim, old(f.State()), p) == (lines, f.State())
  {
    ghost var was := f.State();
    lines := [];
    var i := 0;
    assert p[0..] == p && [] + FeedLines(f.lim, was, p).0 == FeedLines(f.lim, was, p).0;
    while i < |p|
      invariant i <= |p| && f.Valid()
      invariant var r := FeedLines(f.lim, f.State(), p[i..]); FeedLines(f.lim, was, p) == (lines + r.0, r.1)
    {
      ghost var before := lines;
      var next, line := f.Frame(p, i);
      if line.Found? {
        lines := lines + [line.value];
        ghost var r := FeedLines(f.lim, f.State(), p[next..]);
        assert before + ([line.value] + r.0) == lines + r.0;
      }
      i := next;
    }
    assert p[i..] == [];
    assert lines + [] == lines;
  }

  lemma JoinMore(chunks: seq<bytes>, c: nat)
    requires c < |chunks|
    ensures Join(chunks[..c + 1]) == Join(chunks[..c]) + chunks[c]
  {
    assert chunks[..c + 1][..c] == chunks[..c];
  }

  /** The lines of a case, a chunk at a time: exactly those of the chunks joined. */
  method DriveLines(lim: nat, chunks: seq<bytes>) returns (lines: seq<Line>, open: LineState)
    ensures (lines, open) == LinesOf(lim, Join(chunks))
  {
    hide FeedLines, Join, LinesOf;
    var f := new LineFramer(lim);
    lines := [];
    var c := 0;
    DriveNothing(lim, 0);
    assert chunks[..0] == [];
    while c < |chunks|
      invariant c <= |chunks| && f.Valid() && f.lim == lim && fresh(f) && fresh(f.buf)
      invariant FeedLines(lim, FRESH_LINE, Join(chunks[..c])) == (lines, f.State())
    {
      FeedLinesOn(lim, FRESH_LINE, Join(chunks[..c]), chunks[c]);
      JoinMore(chunks, c);
      var more := DriveLineChunk(f, chunks[c]);
      lines := lines + more;
      c := c + 1;
    }
    assert chunks[..c] == chunks;
    LinesExact(lim, Join(chunks));
    open := LineState(f.len, f.cr, f.bad, f.buf[..f.len]);
  }

  lemma DriveNothing(lim: nat, cap: nat)
    ensures FeedLines(lim, FRESH_LINE, Join([])) == ([], FRESH_LINE)
    ensures FeedBlocks(cap, FRESH_BLOCK, 0, Join([])) == ([], FRESH_BLOCK, 0)
  {
  }

  // ---- The block framer

  class BlockFramer {
    const cap: nat
    const buf: array<byte>
    var phase: Phase
    var bad: bool
    var size: nat

    ghost predicate Valid()
      reads this
    {
      buf.Length == cap && size <= cap + 1
    }

    ghost function State(): BlockState
      requires Valid()
      reads this, buf
    {
      BlockState(phase, bad, size, buf[..Min(size, cap)])
    }

    constructor (cap: nat)
      ensures Valid() && fresh(buf) && this.cap == cap && State() == FRESH_BLOCK
    {
      this.cap, phase, bad, size := cap, Bol, false, 0;
      buf := new byte[cap](_ => 0);
    }

    method PutByte(b: byte)
      requires Valid()
      modifies this`size, buf
      ensures Valid() && State() == Put(cap, old(State()), b)
    {
      if size < cap {
        buf[size] := b;
        size := size + 1;
        assert buf[..size] == old(buf[..size]) + [b];
      } else if size == cap {
        size := size + 1;
      }
    }

    /** One byte that does not end the block: what it does is decided from the phase, then the bytes are held. */
    method Hold(b: byte)
      requires Valid() && !EndsBlock(State(), b)
      modifies this`phase, this`bad, this`size, buf
      ensures Valid() && State() == BlockStep(cap, old(State()), b)
    {
      hide Put;
      var pre, post := false, false;
      match phase {
        case Bol =>
          if b == 46 { phase := Dot; } else if b == 13 { phase := Cr; } else { post := true; }
        case Data =>
          if b == 13 { phase := Cr; } else { post := true; }
        case Dot =>
          if b == 13 { phase := DotCr; } else { post := true; }
        case Cr =>
          if b == 10 {
            pre, post := true, true;
            phase := Bol;
          } else if b == 13 {
            pre, bad, phase := true, true, Cr;
          } else {
            pre, post, bad, phase := true, true, true, Data;
          }
        case DotCr =>
          if b == 13 {
            pre, bad, phase := true, true, Cr;
          } else {
            pre, post, bad, phase := true, true, true, Data;
          }
      }
      if post && !pre {
        if b == 10 { bad := true; }
        if b == 0 { bad := true; }
        phase := Data;
      }
      ghost var s := old(State());
      PutApart(cap, s, phase, bad, CR);
      PutApart(cap, s, phase, bad, b);
      PutApart(cap, Put(cap, s, CR), phase, bad, b);
      assert State() == s.(phase := phase, bad := bad);
      if pre { PutByte(13); }
      assert State() == (if pre then Put(cap, s, CR) else s).(phase := phase, bad := bad);
      if post { PutByte(b); }
    }

    method Close() returns (verdict: Verdict)
      requires Valid()
      modifies this`phase, this`bad, this`size
      ensures Valid() && verdict == BlockEnded(cap, old(State())) && State() == FRESH_BLOCK
    {
      if bad {
        verdict := Refused;
      } else if cap < size {
        verdict := TooLarge;
      } else {
        verdict := Accepted(buf[..size]);
      }
      phase, bad, size := Bol, false, 0;
    }

    /** Reads the chunk from `i`, stopping after the block's end. */
    method Frame(p: bytes, i: nat, ghost read: nat) returns (next: nat, verdict: Found<Verdict>)
      requires Valid()
      modifies this`phase, this`bad, this`size, buf
      ensures Valid()
      ensures verdict.OutOfRange? <==> i > |p|
      ensures verdict.OutOfRange? ==> State() == old(State())
      ensures !verdict.OutOfRange? ==> i <= next <= |p| && (i < |p| ==> i < next)
      ensures verdict.Nothing? ==>
        next == |p| && FeedBlocks(cap, old(State()), read, p[i..]) == ([], State(), read + next - i)
      ensures verdict.Found? ==>
        var r := FeedBlocks(cap, State(), 0, p[next..]);
        FeedBlocks(cap, old(State()), read, p[i..]) == ([End(verdict.value, read + next - i)] + r.0, r.1, r.2)
    {
      hide BlockStep, BlockEnded;
      if i > |p| { return 0, OutOfRange; }
      next := i;
      while next < |p|
        invariant i <= next <= |p| && Valid()
        invariant FeedBlocks(cap, old(State()), read, p[i..]) == FeedBlocks(cap, State(), read + next - i, p[next..])
      {
        var b := p[next];
        assert p[next..][1..] == p[next + 1..];
        next := next + 1;
        if phase.DotCr? && b == LF {
          var v := Close();
          return next, Found(v);
        }
        Hold(b);
      }
      verdict := Nothing;
    }
  }

  lemma PutApart(cap: nat, s: BlockState, phase: Phase, bad: bool, x: byte)
    ensures Put(cap, s.(phase := phase, bad := bad), x) == Put(cap, s, x).(phase := phase, bad := bad)
    ensures Put(cap, s, x).bad == s.bad
  {
  }

  method DriveBlockChunk(f: BlockFramer, p: bytes, had: nat) returns (ends: seq<End>, read: nat)
    requires f.Valid()
    modifies f`phase, f`bad, f`size, f.buf
    ensures f.Valid() && FeedBlocks(f.cap, old(f.State()), had, p) == (ends, f.State(), read)
  {
    ghost var was := f.State();
    ends, read := [], had;
    var i := 0;
    assert p[0..] == p && [] + FeedBlocks(f.cap, was, had, p).0 == FeedBlocks(f.cap, was, had, p).0;
    while i < |p|
      invariant i <= |p| && f.Valid()
      invariant var r := FeedBlocks(f.cap, f.State(), read, p[i..]);
        FeedBlocks(f.cap, was, had, p) == (ends + r.0, r.1, r.2)
    {
      ghost var before := ends;
      var next, verdict := f.Frame(p, i, read);
      read := read + next - i;
      if verdict.Found? {
        ends := ends + [End(verdict.value, read)];
        ghost var r := FeedBlocks(f.cap, f.State(), 0, p[next..]);
        assert before + ([End(verdict.value, read)] + r.0) == ends + r.0;
        read := 0;
      }
      i := next;
    }
    assert p[i..] == [];
    assert ends + [] == ends;
  }

  /** The blocks of a case, exactly those of the chunks joined, with the octets each read. */
  method DriveBlocks(cap: nat, chunks: seq<bytes>) returns (ends: seq<End>, open: BlockState)
    ensures (ends, open) == BlocksOf(cap, Join(chunks))
  {
    hide FeedBlocks, Join, BlocksOf;
    var f := new BlockFramer(cap);
    ends := [];
    var c, read := 0, 0;
    DriveNothing(0, cap);
    assert chunks[..0] == [];
    while c < |chunks|
      invariant c <= |chunks| && 0 <= read && f.Valid() && f.cap == cap && fresh(f) && fresh(f.buf)
      invariant FeedBlocks(cap, FRESH_BLOCK, 0, Join(chunks[..c])) == (ends, f.State(), read)
    {
      FeedBlocksOn(cap, FRESH_BLOCK, 0, Join(chunks[..c]), chunks[c]);
      JoinMore(chunks, c);
      var more, n := DriveBlockChunk(f, chunks[c], read);
      ends, read := ends + more, n;
      c := c + 1;
    }
    assert chunks[..c] == chunks;
    BlocksExact(cap, Join(chunks));
    open := BlockState(f.phase, f.bad, f.size, f.buf[..Min(f.size, f.cap)]);
  }

  // ---- Dot-stuffing undone, section 3.1.1 of RFC 3977

  function Stuff(line: bytes): bytes { if line != [] && line[0] == DOT then [DOT] + line else line }

  function Stuffed(lines: seq<bytes>): bytes {
    if lines == [] then [] else Stuffed(lines[..|lines| - 1]) + Stuff(lines[|lines| - 1]) + CRLF
  }

  function Sent(lines: seq<bytes>): bytes { Stuffed(lines) + [DOT] + CRLF }

  /** The lines as they are, each ended. */
  function Plain(lines: seq<bytes>): bytes {
    if lines == [] then [] else Plain(lines[..|lines| - 1]) + lines[|lines| - 1] + CRLF
  }

  function StuffAll(lines: seq<bytes>): seq<bytes> {
    seq(|lines|, i requires 0 <= i < |lines| => Stuff(lines[i]))
  }

  /** Bytes that end no line go on the line being read and end no block. */
  lemma {:induction false} AddBytes(p: bytes, u: bytes)
    requires NoEnd(p) && LF !in u
    ensures NoEnd(p + u) && Bodies(p + u, CRLF) == Bodies(p, CRLF) && Tail(p + u, CRLF) == Tail(p, CRLF) + u
    decreases |u|
  {
    if u == [] {
      assert p + u == p;
      assert Tail(p, CRLF) + u == Tail(p, CRLF);
    } else {
      var x := u[0];
      assert p + [x] + u[1..] == p + u;
      NoEndMore(0, p, x);
      CrlfMore(p, x);
      AddBytes(p + [x], u[1..]);
      hide Tail, Bodies;
      assert Tail(p, CRLF) + [x] + u[1..] == Tail(p, CRLF) + u;
    }
  }

  lemma AddLine(p: bytes, u: bytes)
    requires NoEnd(p) && Tail(p, CRLF) == [] && LF !in u && u != [DOT]
    ensures NoEnd(p + u + CRLF) && Tail(p + u + CRLF, CRLF) == [] && Bodies(p + u + CRLF, CRLF) == Bodies(p, CRLF) + [u]
  {
    AddBytes(p, u + [CR]);
    var q := p + (u + [CR]);
    assert p + u + CRLF == q + [LF];
    CrlfMore(q, LF);
    hide Tail, Bodies;
    var t := Tail(q, CRLF);
    assert t == u + [CR] && EndsCr(t) && Butlast(t) == u;
    assert u == t[..|u|];
    assert !EndsBlock(Unfinished(0, q), LF);
    NoEndMore(0, q, LF);
  }

  lemma StuffClean(line: bytes)
    requires Clean(line)
    ensures Clean(Stuff(line)) && Stuff(line) != [DOT] && Unstuff(Stuff(line)) == line
  {
  }

  lemma {:induction false} StuffedLines(lines: seq<bytes>)
    requires AllClean(lines)
    ensures NoEnd(Stuffed(lines)) && Tail(Stuffed(lines), CRLF) == [] && Bodies(Stuffed(lines), CRLF) == StuffAll(lines)
    ensures AllClean(StuffAll(lines)) && Content(StuffAll(lines)) == Plain(lines)
  {
    if lines == [] {
      FreshIs(0);
      SplitEmpty(CRLF);
    } else {
      var n := |lines| - 1;
      assert AllClean(lines[..n]);
      StuffedLines(lines[..n]);
      assert Clean(lines[n]);
      StuffClean(lines[n]);
      AddLine(Stuffed(lines[..n]), Stuff(lines[n]));
      hide Tail, Bodies, NoEnd, Stuff, Unstuff, Clean;
      assert StuffAll(lines) == StuffAll(lines[..n]) + [Stuff(lines[n])];
      AllCleanMore(StuffAll(lines[..n]), Stuff(lines[n]));
      assert StuffAll(lines)[..n] == StuffAll(lines[..n]);
    }
  }

  /** Any lines free of CR, LF and NUL, sent and read back: accepted as they were when they fit, exactly their own octets
      read, and what follows framed as if alone. */
  lemma RoundTrip(cap: nat, lines: seq<bytes>, rest: bytes)
    requires AllClean(lines)
    ensures var verdict := if |Plain(lines)| > cap then TooLarge else Accepted(Plain(lines));
      var after := BlocksOf(cap, rest);
      BlocksOf(cap, Sent(lines) + rest) == ([End(verdict, |Sent(lines)|)] + after.0, after.1)
  {
    hide *;
    var p, stream := Stuffed(lines), Sent(lines) + rest;
    SentParts(lines, rest);
    SentVerdict(cap, lines);
    SentEnds(cap, lines, rest);
    EndThere(cap, stream, |p|);
  }

  lemma SentParts(lines: seq<bytes>, rest: bytes)
    ensures var n := |Stuffed(lines)|;
      var stream := Sent(lines) + rest;
      && |Sent(lines)| == n + 3 <= |stream|
      && stream[..n] == Stuffed(lines) && stream[n + 3..] == rest
  {
  }

  lemma SentVerdict(cap: nat, lines: seq<bytes>)
    requires AllClean(lines)
    ensures Ended(cap, RegionLines(Stuffed(lines))) == if |Plain(lines)| > cap then TooLarge else Accepted(Plain(lines))
  {
    StuffedLines(lines);
    TailEmpty(Stuffed(lines));
    RegionIs(Stuffed(lines));
  }

  lemma EndThere(cap: nat, stream: bytes, n: nat)
    requires Find(CRLF + stream, TERMINATOR, 0) == n && n + 3 <= |stream|
    ensures var after := BlocksOf(cap, stream[n + 3..]);
      BlocksOf(cap, stream) == ([End(Ended(cap, RegionLines(stream[..n])), n + 3)] + after.0, after.1)
  {
    hide Ended, RegionLines, Unfinished;
  }

  /** The terminator sent is the first there is. */
  lemma SentEnds(cap: nat, lines: seq<bytes>, rest: bytes)
    requires AllClean(lines)
    ensures Find(CRLF + (Sent(lines) + rest), TERMINATOR, 0) == |Stuffed(lines)|
  {
    assert LF !in [DOT, CR];
    hide *;
    StuffedLines(lines);
    var p := Stuffed(lines);
    var q := p + [DOT, CR];
    AddBytes(p, [DOT, CR]);
    assert [] + [DOT, CR] == [DOT, CR];
    DotCrEnds(cap, q);
    EndFirst(cap, q, LF, rest);
    SentAs(lines, rest);
  }

  lemma SentAs(lines: seq<bytes>, rest: bytes)
    ensures Sent(lines) + rest == Stuffed(lines) + [DOT, CR] + [LF] + rest
  {
    assert [DOT] + CRLF == [DOT, CR] + [LF];
    assert Sent(lines) == Stuffed(lines) + ([DOT] + CRLF);
  }

  lemma DotCrEnds(cap: nat, q: bytes)
    requires Tail(q, CRLF) == [DOT, CR]
    ensures EndsBlock(Unfinished(cap, q), LF)
  {
  }
}
