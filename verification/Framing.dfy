/** The framing of NNTP input, sections 3.1 and 3.1.1 of RFC 3977, as it is defined over a whole stream: lines are the
    pieces between LFs, and a block ends at the first CRLF "." CRLF of the stream with a CRLF put before it. */
module Framing {
  type byte = n: int | 0 <= n < 256
  type bytes = seq<byte>

  const NUL: byte := 0
  const LF: byte := 10
  const CR: byte := 13
  const DOT: byte := 46
  const CRLF: bytes := [CR, LF]
  const TERMINATOR: bytes := [CR, LF, DOT, CR, LF]

  // ---- Searching and splitting

  predicate Has(s: bytes, pat: bytes, at: nat) { at + |pat| <= |s| && s[at..at + |pat|] == pat }

  /** Where `pat` first is in `s` from `from` on, -1 for nowhere. */
  function Find(s: bytes, pat: bytes, from: nat): (at: int)
    requires from <= |s|
    ensures at == -1 || (from <= at && Has(s, pat, at))
    ensures forall k {:trigger Has(s, pat, k)} :: from <= k && (at == -1 || k < at) ==> !Has(s, pat, k)
    decreases |s| - from
  {
    if Has(s, pat, from) then from else if from == |s| then -1 else Find(s, pat, from + 1)
  }

  /** The pieces of `s` between the places `sep` is at, from the left. */
  function Split(s: bytes, sep: bytes): (pieces: seq<bytes>)
    requires sep != []
    ensures |pieces| > 0
  {
    var at := Find(s, sep, 0);
    if at < 0 then [s] else [s[..at]] + Split(s[at + |sep|..], sep)
  }

  /** The pieces that ended, and the one that has not. */
  function Bodies(s: bytes, sep: bytes): seq<bytes>
    requires sep != []
  {
    Split(s, sep)[..|Split(s, sep)| - 1]
  }

  function Tail(s: bytes, sep: bytes): bytes
    requires sep != []
  {
    Split(s, sep)[|Split(s, sep)| - 1]
  }

  function Take(s: bytes, n: nat): bytes { if n < |s| then s[..n] else s }

  function Min(a: nat, b: nat): nat { if a < b then a else b }

  predicate EndsCr(s: bytes) { s != [] && s[|s| - 1] == CR }

  function Butlast(s: bytes): bytes { if s == [] then [] else s[..|s| - 1] }

  // ---- Lines

  datatype LineKind = Command | Malformed | Overlong

  datatype Line = Line(kind: LineKind, kept: bytes)

  /** What is kept of a line that has not ended: its length up to the limit, whether its last byte is a CR, whether it is
      spoiled, and its first bytes. */
  datatype LineState = LineState(len: nat, cr: bool, bad: bool, buf: bytes)

  /** A line, from its bytes before the LF. */
  function Classify(lim: nat, body: bytes): Line {
    if |body| + 1 > lim then Line(Overlong, Take(body, lim))
    else if EndsCr(body) && CR !in Butlast(body) && NUL !in body then Line(Command, Butlast(body))
    else Line(Malformed, body)
  }

  function ClassifyAll(lim: nat, bodies: seq<bytes>): seq<Line> {
    seq(|bodies|, i requires 0 <= i < |bodies| => Classify(lim, bodies[i]))
  }

  function OpenLine(lim: nat, tail: bytes): LineState {
    LineState(Min(|tail|, lim), EndsCr(tail), NUL in tail || CR in Butlast(tail), Take(tail, lim))
  }

  /** The lines of a stream and the state of the one that has not ended. */
  function LinesOf(lim: nat, stream: bytes): (seq<Line>, LineState) {
    (ClassifyAll(lim, Bodies(stream, [LF])), OpenLine(lim, Tail(stream, [LF])))
  }

  // ---- Blocks

  predicate Clean(line: bytes) { CR !in line && LF !in line && NUL !in line }

  predicate AllClean(lines: seq<bytes>) { forall i :: 0 <= i < |lines| ==> Clean(lines[i]) }

  function Unstuff(line: bytes): bytes { if line != [] && line[0] == DOT then line[1..] else line }

  function Content(lines: seq<bytes>): bytes {
    if lines == [] then [] else Content(lines[..|lines| - 1]) + Unstuff(lines[|lines| - 1]) + CRLF
  }

  datatype Verdict = Refused | TooLarge | Accepted(content: bytes)

  /** The verdict on a block of these lines. */
  function Ended(cap: nat, lines: seq<bytes>): Verdict {
    if !AllClean(lines) then Refused
    else if |Content(lines)| > cap then TooLarge
    else Accepted(Content(lines))
  }

  datatype Phase = Bol | Data | Cr | Dot | DotCr

  /** A block that has not ended: its phase, whether it is spoiled, its size up to one past the buffer, what it holds. */
  datatype BlockState = BlockState(phase: Phase, bad: bool, size: nat, buf: bytes)

  function PhaseOf(rest: bytes): Phase {
    if rest == [] then Bol
    else if rest == [DOT] then Dot
    else if rest == [DOT, CR] then DotCr
    else if EndsCr(rest) then Cr
    else Data
  }

  /** The line being read without a CR at its end, which the next byte may yet make its end. */
  function Held(rest: bytes): bytes { if EndsCr(rest) then Butlast(rest) else rest }

  function Stored(cap: nat, phase: Phase, bad: bool, content: bytes): BlockState {
    BlockState(phase, bad, Min(|content|, cap + 1), Take(content, cap))
  }

  function OpenOf(cap: nat, lines: seq<bytes>, rest: bytes): BlockState {
    Stored(cap, PhaseOf(rest), !AllClean(lines) || !Clean(Held(rest)), Content(lines) + Unstuff(Held(rest)))
  }

  function Unfinished(cap: nat, stream: bytes): BlockState {
    OpenOf(cap, Bodies(stream, CRLF), Tail(stream, CRLF))
  }

  /** A block that ended: the verdict on it and the octets read up to its end. */
  datatype End = End(verdict: Verdict, read: nat)

  /** The lines of a block whose bytes before its last line are `region`. */
  function RegionLines(region: bytes): seq<bytes> { if region == [] then [] else Bodies(region, CRLF) }

  function BlocksOf(cap: nat, stream: bytes): (seq<End>, BlockState)
    decreases |stream|
  {
    var at := Find(CRLF + stream, TERMINATOR, 0);
    if at < 0 then ([], Unfinished(cap, stream))
    else
      var read := at + 3;
      var (ends, open) := BlocksOf(cap, stream[read..]);
      ([End(Ended(cap, RegionLines(stream[..at])), read)] + ends, open)
  }

  /** What the first block's end, or its lack, says of the stream. */
  ghost predicate BlockStepped(cap: nat, stream: bytes) {
    var at := Find(CRLF + stream, TERMINATOR, 0);
    if at < 0 then BlocksOf(cap, stream) == ([], Unfinished(cap, stream))
    else
      && at + 3 <= |stream|
      && var rest := BlocksOf(cap, stream[at + 3..]);
      BlocksOf(cap, stream) == ([End(Ended(cap, RegionLines(stream[..at])), at + 3)] + rest.0, rest.1)
  }

  lemma BlocksStep(cap: nat, stream: bytes)
    ensures BlockStepped(cap, stream)
  {
  }

  /** The loop over what is left of the stream. */
  method Blocks(cap: nat, stream: bytes) returns (ends: seq<End>, open: BlockState)
    ensures (ends, open) == BlocksOf(cap, stream)
  {
    hide Find, Unfinished, Ended, BlocksOf;
    ends := [];
    var rest := stream;
    BlocksStep(cap, rest);
    var at := Find(CRLF + rest, TERMINATOR, 0);
    while at >= 0
      invariant at == Find(CRLF + rest, TERMINATOR, 0) && BlockStepped(cap, rest)
      invariant BlocksOf(cap, stream).0 == ends + BlocksOf(cap, rest).0
      invariant BlocksOf(cap, stream).1 == BlocksOf(cap, rest).1
      decreases |rest|
    {
      var region, read := rest[..at], at + 3;
      ends := ends + [End(Ended(cap, if region == [] then [] else Bodies(region, CRLF)), read)];
      rest := rest[read..];
      at := Find(CRLF + rest, TERMINATOR, 0);
      BlocksStep(cap, rest);
    }
    open := Unfinished(cap, rest);
    assert ends + [] == ends;
  }

  // ---- Splitting, a byte more

  lemma FoundFits(s: bytes, pat: bytes)
    ensures Find(s, pat, 0) == -1 || 0 <= Find(s, pat, 0) <= |s| - |pat|
  {
  }

  lemma SplitNone(s: bytes, sep: bytes)
    requires sep != [] && Find(s, sep, 0) == -1
    ensures Bodies(s, sep) == [] && Tail(s, sep) == s
  {
  }

  lemma SplitAt(s: bytes, sep: bytes, at: nat)
    requires sep != [] && Find(s, sep, 0) == at && at + |sep| <= |s|
    ensures Bodies(s, sep) == [s[..at]] + Bodies(s[at + |sep|..], sep) && Tail(s, sep) == Tail(s[at + |sep|..], sep)
  {
    hide Find;
    var p := Split(s[at + |sep|..], sep);
    assert Split(s, sep) == [s[..at]] + p;
    hide Split;
    assert ([s[..at]] + p)[..|p|] == [s[..at]] + p[..|p| - 1];
  }

  predicate Closes(tail: bytes, x: byte, sep: bytes) {
    |sep| <= |tail| + 1 && Has(tail + [x], sep, |tail| + 1 - |sep|)
  }

  /** A byte more ends the last piece, or goes on it. */
  ghost predicate Grown(s: bytes, x: byte, sep: bytes)
    requires sep != []
  {
    var t := Tail(s, sep);
    if Closes(t, x, sep)
    then |sep| <= |t| + 1 && Bodies(s + [x], sep) == Bodies(s, sep) + [t[..|t| + 1 - |sep|]] && Tail(s + [x], sep) == []
    else Bodies(s + [x], sep) == Bodies(s, sep) && Tail(s + [x], sep) == t + [x]
  }

  lemma {:induction false} SplitMore(s: bytes, x: byte, sep: bytes)
    requires sep == [LF] || sep == CRLF
    ensures Grown(s, x, sep)
    decreases |s|
  {
    hide Bodies, Tail, Find, Has, Closes;
    var at := Find(s, sep, 0);
    FoundFits(s, sep);
    if at < 0 {
      SplitFirst(s, x, sep);
    } else {
      var t := s[at + |sep|..];
      FindMore(s, x, sep, at);
      assert (s + [x])[at + |sep|..] == t + [x];
      assert (s + [x])[..at] == s[..at];
      SplitMore(t, x, sep);
      SplitAt(s, sep, at);
      SplitAt(s + [x], sep, at);
    }
  }

  lemma FindMore(s: bytes, x: byte, sep: bytes, at: nat)
    requires at == Find(s, sep, 0)
    ensures Find(s + [x], sep, 0) == at
  {
    hide Find;
    HasMore(s, x, sep, at);
    var first := Find(s + [x], sep, 0);
    if first < at { HasMore(s, x, sep, first); }
  }

  lemma HasMore(s: bytes, x: byte, sep: bytes, k: nat)
    requires k + |sep| <= |s|
    ensures Has(s + [x], sep, k) == Has(s, sep, k)
  {
    assert (s + [x])[k..k + |sep|] == s[k..k + |sep|];
  }

  /** Where the first separator is found with a byte more, if it is. */
  lemma FirstFound(s: bytes, x: byte, sep: bytes)
    requires sep != [] && Find(s, sep, 0) == -1
    ensures Find(s + [x], sep, 0) == if Closes(s, x, sep) then |s| + 1 - |sep| else -1
  {
    var t, at := s + [x], Find(s + [x], sep, 0);
    if at >= 0 && at + |sep| <= |s| {
      HasMore(s, x, sep, at);
    }
  }

  /** What the first separator to be found ends. */
  lemma SplitFirst(s: bytes, x: byte, sep: bytes)
    requires (sep == [LF] || sep == CRLF) && Find(s, sep, 0) == -1
    ensures Grown(s, x, sep)
  {
    hide Bodies, Tail, Find, Has;
    var t, at := s + [x], |s| + 1 - |sep|;
    FirstFound(s, x, sep);
    SplitNone(s, sep);
    if Closes(s, x, sep) {
      SplitAt(t, sep, at);
      assert t[at + |sep|..] == [];
      assert t[..at] == s[..at];
      SplitEmpty(sep);
    } else {
      SplitNone(t, sep);
    }
  }

  lemma SplitEmpty(sep: bytes)
    requires sep != []
    ensures Bodies([], sep) == [] && Tail([], sep) == []
  {
    assert Find([], sep, 0) == -1;
  }

  /** A byte that is no end of the line goes on it; one that is, starts another. */
  lemma LineMore(s: bytes, x: byte)
    ensures x == LF ==> Bodies(s + [x], [LF]) == Bodies(s, [LF]) + [Tail(s, [LF])] && Tail(s + [x], [LF]) == []
    ensures x != LF ==> Bodies(s + [x], [LF]) == Bodies(s, [LF]) && Tail(s + [x], [LF]) == Tail(s, [LF]) + [x]
  {
    SplitMore(s, x, [LF]);
    var t := Tail(s, [LF]);
    assert (t + [x])[|t|..|t| + 1] == [x];
    assert t[..|t|] == t;
  }

  lemma CrlfMore(s: bytes, x: byte)
    ensures var t := Tail(s, CRLF);
      if x == LF && EndsCr(t)
      then Bodies(s + [x], CRLF) == Bodies(s, CRLF) + [Butlast(t)] && Tail(s + [x], CRLF) == []
      else Bodies(s + [x], CRLF) == Bodies(s, CRLF) && Tail(s + [x], CRLF) == t + [x]
  {
    SplitMore(s, x, CRLF);
    var t := Tail(s, CRLF);
    if t != [] { assert (t + [x])[|t| - 1..|t| + 1] == [t[|t| - 1], x]; }
  }
}
