/** What the framing of a stream says of its octets: which lines are commands, and what a block that ended held. */
module FramerMeans {
  import opened Framing
  import opened Framer

  // ---- Lines

  /** Octets that may stand in a line: neither NUL, LF nor CR. */
  predicate Fit(s: bytes) { forall i {:trigger s[i]} :: 0 <= i < |s| ==> s[i] != 0 && s[i] != 10 && s[i] != 13 }

  /** A line of `body` and its LF: too long with more than `lim` octets, a command when it is fit octets and a CR. */
  predicate Judged(lim: nat, body: bytes, line: Line) {
    if |body| + 1 > lim then line.kind == Overlong && |line.kept| == lim && line.kept <= body
    else if |body| > 0 && body[|body| - 1] == 13 && Fit(body[..|body| - 1]) then
      line.kind == Command && line.kept + [13] == body
    else line.kind == Malformed && line.kept == body
  }

  lemma JudgedIs(lim: nat, body: bytes)
    requires LF !in body
    ensures Judged(lim, body, Classify(lim, body))
  {
    if |body| > 0 && body[|body| - 1] == 13 {
      var text := body[..|body| - 1];
      assert body == text + [13] && Butlast(body) == text;
      assert Fit(text) <==> CR !in text && NUL !in text && LF !in text;
      assert NUL in body <==> NUL in text;
      assert LF in body <==> LF in text;
    }
  }

  lemma FoundFirst(body: bytes, rest: bytes)
    requires LF !in body
    ensures Find(body + [LF] + rest, [LF], 0) == |body|
  {
    var s := body + [LF] + rest;
    assert s[|body|..|body| + 1] == [LF];
    assert Has(s, [LF], |body|);
    forall k | 0 <= k < |body| ensures !Has(s, [LF], k) {
      assert s[k] == body[k];
      assert s[k..k + 1] == [s[k]];
    }
  }

  /** The first line of a stream is its octets up to the first LF, judged alone; what follows is framed as if alone. */
  lemma FirstLine(lim: nat, body: bytes, rest: bytes)
    requires LF !in body
    ensures var r, after := LinesOf(lim, body + [LF] + rest), LinesOf(lim, rest);
      |r.0| > 0 && Judged(lim, body, r.0[0]) && r.0[1..] == after.0 && r.1 == after.1
  {
    hide Find, Classify;
    var s := body + [LF] + rest;
    FoundFirst(body, rest);
    SplitAt(s, [LF], |body|);
    assert s[..|body|] == body && s[|body| + 1..] == rest;
    JudgedIs(lim, body);
    hide Bodies, Tail;
    var r := LinesOf(lim, s);
    assert Bodies(s, [LF]) == [body] + Bodies(rest, [LF]);
    assert r.0 == [Classify(lim, body)] + ClassifyAll(lim, Bodies(rest, [LF]));
  }

  // ---- Blocks

  /** Lines as they came, each with its CRLF. */
  function Raw(lines: seq<bytes>): bytes {
    if lines == [] then [] else lines[0] + [13, 10] + Raw(lines[1..])
  }

  /** Lines each without the one dot it starts with, if it does, and with its CRLF. */
  function Undotted(lines: seq<bytes>): bytes {
    if lines == [] then []
    else (if |lines[0]| > 0 && lines[0][0] == 46 then lines[0][1..] else lines[0]) + [13, 10] + Undotted(lines[1..])
  }

  lemma {:induction false} UndottedMore(lines: seq<bytes>, line: bytes)
    ensures Undotted(lines + [line]) == Undotted(lines) + Unstuff(line) + CRLF
  {
    hide Unstuff;
    if lines == [] {
      assert [line][1..] == [];
      UnstuffIs(line);
      assert lines + [line] == [line];
      assert Undotted([line]) == Unstuff(line) + CRLF + Undotted([]);
    } else {
      UnstuffIs(lines[0]);
      assert (lines + [line])[1..] == lines[1..] + [line];
      UndottedMore(lines[1..], line);
      var first := Unstuff(lines[0]) + CRLF;
      assert Undotted(lines + [line]) == first + Undotted(lines[1..] + [line]);
      assert first + (Undotted(lines[1..]) + Unstuff(line) + CRLF) == first + Undotted(lines[1..]) + Unstuff(line) + CRLF;
    }
  }

  lemma UnstuffIs(line: bytes)
    ensures Unstuff(line) == if |line| > 0 && line[0] == 46 then line[1..] else line
  {
  }

  lemma {:induction false} ContentIs(lines: seq<bytes>)
    ensures Content(lines) == Undotted(lines)
  {
    hide Unstuff;
    if lines != [] {
      var n := |lines| - 1;
      ContentIs(lines[..n]);
      UndottedMore(lines[..n], lines[n]);
      assert lines[..n] + [lines[n]] == lines;
    }
  }

  /** The pieces of a split, joined again, are the whole. */
  lemma {:induction false} Joined(s: bytes)
    ensures s == Raw(Bodies(s, CRLF)) + Tail(s, CRLF)
    decreases |s|
  {
    hide Find;
    var at := Find(s, CRLF, 0);
    FoundFits(s, CRLF);
    if at < 0 {
      SplitNone(s, CRLF);
    } else {
      assert Has(s, CRLF, at);
      SplitAt(s, CRLF, at);
      Joined(s[at + 2..]);
      hide Bodies, Tail;
      var rest := Bodies(s[at + 2..], CRLF);
      assert ([s[..at]] + rest)[1..] == rest;
      assert Raw([s[..at]] + rest) == s[..at] + [13, 10] + Raw(rest);
      assert s == s[..at] + s[at..at + 2] + s[at + 2..];
      assert s == s[..at] + [13, 10] + (Raw(rest) + Tail(s[at + 2..], CRLF));
    }
  }

  predicate AllFit(lines: seq<bytes>) { forall i {:trigger lines[i]} :: 0 <= i < |lines| ==> Fit(lines[i]) }

  /** The verdict on a block of these lines: refused for an octet that may not stand in a line, else its octets without
      their stuffing, if they are no more than fit. */
  predicate JudgedBlock(cap: nat, lines: seq<bytes>, v: Verdict) {
    if !AllFit(lines) then v == Refused
    else if |Undotted(lines)| > cap then v == TooLarge
    else v == Accepted(Undotted(lines))
  }

  lemma FitIs(line: bytes)
    ensures Fit(line) <==> Clean(line)
  {
  }

  lemma BlockJudged(cap: nat, lines: seq<bytes>)
    ensures JudgedBlock(cap, lines, Ended(cap, lines))
  {
    hide Fit, Clean, Content;
    ContentIs(lines);
    assert AllFit(lines) <==> AllClean(lines) by {
      forall i | 0 <= i < |lines| ensures Fit(lines[i]) <==> Clean(lines[i]) { FitIs(lines[i]); }
    }
  }

  /** The first block of a stream: up to its end the octets are lines, a dot and a CRLF, with no terminator before; it is
      judged by those lines, and what follows is framed as if alone. */
  lemma FirstBlock(cap: nat, stream: bytes) returns (lines: seq<bytes>)
    requires BlocksOf(cap, stream).0 != []
    ensures var r := BlocksOf(cap, stream);
      && r.0[0].read <= |stream| && stream[..r.0[0].read] == Raw(lines) + [46, 13, 10]
      && JudgedBlock(cap, lines, r.0[0].verdict)
      && (forall k {:trigger Has(CRLF + stream, TERMINATOR, k)} :: 0 <= k < |Raw(lines)| ==>
            !Has(CRLF + stream, TERMINATOR, k))
      && var after := BlocksOf(cap, stream[r.0[0].read..]);
      r.0[1..] == after.0 && r.1 == after.1
  {
    hide Find, Unfinished, Ended, RegionLines, Raw, JudgedBlock, Has;
    BlocksStep(cap, stream);
    var at := Find(CRLF + stream, TERMINATOR, 0);
    var region := stream[..at];
    RegionWhole(stream, at);
    lines := RegionLines(region);
    BlockJudged(cap, lines);
  }

  lemma RegionWhole(stream: bytes, at: nat)
    requires at == Find(CRLF + stream, TERMINATOR, 0) && at + 3 <= |stream|
    ensures Raw(RegionLines(stream[..at])) == stream[..at] && stream[..at + 3] == stream[..at] + [46, 13, 10]
  {
    hide Find, Bodies, Tail, Raw, RegionLines, AtBol;
    var region := stream[..at];
    TerminatorAt(stream, at);
    TailEmpty(region);
    RegionIs(region);
    Joined(region);
    assert Raw(Bodies(region, CRLF)) + [] == Raw(Bodies(region, CRLF));
  }

  lemma TerminatorAt(stream: bytes, at: nat)
    requires at == Find(CRLF + stream, TERMINATOR, 0) && at + 3 <= |stream|
    ensures AtBol(stream[..at]) && stream[..at + 3] == stream[..at] + [46, 13, 10]
  {
    hide Find, Has, AtBol;
    HasTerminator(CRLF + stream, at);
    Put2(stream, at + 2);
    Put2(stream, at + 3);
    Put2(stream, at + 4);
    Put2(stream, at);
    Put2(stream, at + 1);
    BolAt(stream, at);
    assert stream[..at + 3] == stream[..at] + [stream[at], stream[at + 1], stream[at + 2]];
  }

  /** The stream with a CRLF put before it. */
  lemma Put2(stream: bytes, k: nat)
    requires k < |stream| + 2
    ensures (CRLF + stream)[k] == if k == 0 then CR else if k == 1 then LF else stream[k - 2]
  {
  }

  lemma BolAt(stream: bytes, at: nat)
    requires at <= |stream| && at != 1 && (at >= 2 ==> stream[at - 2] == CR && stream[at - 1] == LF)
    ensures AtBol(stream[..at])
  {
    if at >= 2 { assert stream[..at][at - 2..] == [stream[at - 2], stream[at - 1]]; }
  }
}
