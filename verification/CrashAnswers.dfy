/** What the operations answer and do as the program sees them: over every history, what a name holds and what a file
    contains before an operation tells its answer, and what they are after it. */
module CrashAnswers {
  import opened CrashModel
  import opened CrashHistory

  /** The operation's answer at that point of a history. */
  function AnswerAt(events: seq<Event>, i: nat, op: Op): Answer
    requires History(events) && i <= |events|
  {
    Do(RunTo(events, i), op).1
  }

  predicate FileThere(events: seq<Event>, i: nat, f: nat)
    requires History(events) && i <= |events|
  {
    f < |At(events, i).files|
  }

  lemma Seen(events: seq<Event>, i: nat)
    requires History(events) && i <= |events|
    ensures |At(events, i).files| == |RunTo(events, i).files|
    ensures forall f {:trigger At(events, i).Content(f)} :: 0 <= f < |At(events, i).files| ==>
      At(events, i).Content(f) == RunTo(events, i).files[f].seen
    ensures forall n {:trigger At(events, i).Holding(n)} :: At(events, i).Holding(n) == RunTo(events, i).Holding(n)
  {
    hide RunTo, At, View;
    RunOk(events, i);
    ViewIs(RunTo(events, i));
  }

  // ---- Answers

  /** A read gives the octets from its offset on, as many as asked for or as there are; a size is the length of what is
      there; both are missing exactly when the file is. */
  lemma ReadsRight(events: seq<Event>, i: nat, f: nat, at: nat, n: nat)
    requires History(events) && i <= |events|
    ensures var c, a := At(events, i).Content(f), AnswerAt(events, i, Read(f, at, n));
      if !FileThere(events, i, f) then a == Missing
      else
        && a.Octets?
        && |a.octets| == (if at >= |c| then 0 else if |c| - at < n then |c| - at else n)
        && forall k :: 0 <= k < |a.octets| ==> a.octets[k] == c[at + k]
    ensures AnswerAt(events, i, Size(f)) ==
      if FileThere(events, i, f) then SizeIs(|At(events, i).Content(f)|) else Missing
  {
    hide RunTo, At;
    Seen(events, i);
  }

  /** A name is opened as the file it holds, and is missing exactly when it holds none; it is made exactly when it holds
      none, and exists otherwise. */
  lemma OpensRight(events: seq<Event>, i: nat, n: bytes)
    requires History(events) && i <= |events|
    ensures forall f: nat {:trigger FileIs(f)} ::
      AnswerAt(events, i, Open(n)) == FileIs(f) <==> At(events, i).Holding(n) == Holds(f)
    ensures AnswerAt(events, i, Open(n)) == Missing <==> At(events, i).Holding(n) == Nothing
    ensures AnswerAt(events, i, Create(n)) == Exists <==> At(events, i).Holding(n).Holds?
    ensures At(events, i).Holding(n) == Nothing ==> AnswerAt(events, i, Create(n)) == FileIs(|At(events, i).files|)
  {
    hide RunTo, At;
    Seen(events, i);
  }

  /** A rename or removal is missing exactly when its name holds nothing, and done otherwise; a write, a truncation and a
      sync exactly when their file is not there; a sync of the directory is always done. */
  lemma DoneRight(events: seq<Event>, i: nat, op: Op)
    requires History(events) && i <= |events|
    ensures op.Rename? ==>
      AnswerAt(events, i, op) == if At(events, i).Holding(op.src) == Nothing then Missing else Done
    ensures op.Remove? ==>
      AnswerAt(events, i, op) == if At(events, i).Holding(op.name) == Nothing then Missing else Done
    ensures op.Append? || op.Truncate? || op.Sync? ==>
      AnswerAt(events, i, op) == if FileThere(events, i, op.file) then Done else Missing
    ensures op.SyncDir? ==> AnswerAt(events, i, op) == Done
  {
    hide RunTo, At;
    Seen(events, i);
  }

  /** A listing has exactly the names that hold a file. */
  lemma ListsRight(events: seq<Event>, i: nat, n: bytes)
    requires History(events) && i <= |events|
    ensures AnswerAt(events, i, List).Names?
    ensures n in AnswerAt(events, i, List).held <==> At(events, i).Holding(n).Holds?
  {
    hide RunTo, At;
    Seen(events, i);
  }

  // ---- Effects

  /** Whether the event has the operation's effect: it succeeded, or failed having done it. */
  predicate Took(e: Event) { e.Did? || (!e.op.Append? && !e.op.Sync? && !e.op.SyncDir? && e.k == 1) }

  /** What each name holds after an event, by what the names held before it. */
  lemma NamesAfter(events: seq<Event>, i: nat, n: bytes)
    requires History(events) && i < |events|
    ensures var e, was, now := events[i], At(events, i), At(events, i + 1).Holding(n);
      && (Took(e) && e.op.Create? && e.op.name == n && was.Holding(n) == Nothing ==> now == Holds(|was.files|))
      && (Took(e) && e.op.Remove? && e.op.name == n ==> now == Nothing)
      && (Took(e) && e.op.Rename? && was.Holding(e.op.src).Holds? && n == e.op.dst ==> now == was.Holding(e.op.src))
      && (Took(e) && e.op.Rename? && was.Holding(e.op.src).Holds? && n == e.op.src &&
          was.Holding(e.op.dst) != was.Holding(n)
          ==> now == Nothing)
      && (now != was.Holding(n) ==>
            && Took(e)
            && (|| (e.op.Create? && e.op.name == n && was.Holding(n) == Nothing)
                || (e.op.Remove? && e.op.name == n)
                || (e.op.Rename? && was.Holding(e.op.src).Holds? && was.Holding(e.op.dst) != was.Holding(e.op.src) &&
                    (n == e.op.src || n == e.op.dst))))
  {
    hide RunTo, At;
    Seen(events, i);
    Seen(events, i + 1);
    NextDisk(events, i);
  }

  lemma NextDisk(events: seq<Event>, i: nat)
    requires History(events) && i < |events|
    ensures Possible(events[i]) && RunTo(events, i + 1) == Step(RunTo(events, i), events[i])
  {
  }

  /** How many octets of an append an event made. */
  function Written(e: Event): bytes
    requires e.op.Append? && Possible(e)
  {
    if e.Did? then e.op.octets else e.op.octets[..e.k]
  }

  /** What each file contains after an event: an append's octets at its end, whole or the part written before it failed;
      cut or filled with zeros by a truncation; and nothing else ever changes. */
  lemma ContentAfter(events: seq<Event>, i: nat, f: nat)
    requires History(events) && i < |events| && FileThere(events, i, f)
    ensures FileThere(events, i + 1, f)
    ensures var e, was, now := events[i], At(events, i).Content(f), At(events, i + 1).Content(f);
      && (e.op.Append? && e.op.file == f ==> now == was + Written(e))
      && (Took(e) && e.op.Truncate? && e.op.file == f ==>
            && |now| == e.op.n
            && forall k :: 0 <= k < |now| ==> now[k] == if k < |was| then was[k] else 0)
      && (now != was ==> (e.op.Append? || (e.op.Truncate? && Took(e))) && e.op.file == f)
  {
    hide RunTo, At;
    Seen(events, i);
    Seen(events, i + 1);
    NextDisk(events, i);
    StepContent(RunTo(events, i), events[i], f);
  }

  lemma StepContent(d: Disk, e: Event, f: nat)
    requires Possible(e) && f < |d.files|
    ensures f < |Step(d, e).files|
    ensures var was, now := d.files[f].seen, Step(d, e).files[f].seen;
      && (e.op.Append? && e.op.file == f ==> now == was + Written(e))
      && (Took(e) && e.op.Truncate? && e.op.file == f ==>
            && |now| == e.op.n
            && forall k :: 0 <= k < |now| ==> now[k] == if k < |was| then was[k] else 0)
      && (now != was ==> (e.op.Append? || (e.op.Truncate? && Took(e))) && e.op.file == f)
  {
    hide Do;
    if e.Did? || !e.op.Append? {
      FileAfter(d, e.op, f);
    } else {
      FileAfter(d, Append(e.op.file, e.op.octets[..e.k]), f);
    }
  }

  /** A file made by an event is empty, and there is at most one. */
  lemma NewFiles(events: seq<Event>, i: nat)
    requires History(events) && i < |events|
    ensures var e, n, n' := events[i], |At(events, i).files|, |At(events, i + 1).files|;
      && n' == (if Took(e) && e.op.Create? && At(events, i).Holding(e.op.name) == Nothing then n + 1 else n)
      && (n' > n ==> At(events, i + 1).Content(n) == [])
  {
    hide RunTo, At;
    Seen(events, i);
    Seen(events, i + 1);
    NextDisk(events, i);
  }

  // ---- The appends and the last octets written, since the last sync that counts

  /** The appends made to a file from `s` to `i`: where each began and what it wrote. */
  function AppendsOf(events: seq<Event>, f: nat, s: nat, i: nat): seq<(nat, bytes)>
    requires History(events) && s <= i <= |events|
    decreases i
  {
    if i == s then []
    else
      var before, e := AppendsOf(events, f, s, i - 1), events[i - 1];
      if e.op.Append? && e.op.file == f && FileThere(events, i - 1, f)
      then before + [(|At(events, i - 1).Content(f)|, Written(e))] else before
  }

  /** The octet last written at a place of a file from `s` to `i`, else what was there at `s`, else zero: a cut takes
      none back. */
  function LastAt(events: seq<Event>, f: nat, s: nat, i: nat, p: nat): byte
    requires History(events) && s <= i <= |events|
    decreases i
  {
    if i == s then if p < |At(events, s).Content(f)| then At(events, s).Content(f)[p] else 0
    else
      var e, at := events[i - 1], |At(events, i - 1).Content(f)|;
      if e.op.Append? && e.op.file == f && FileThere(events, i - 1, f) && at <= p < at + |Written(e)|
      then Written(e)[p - at] else LastAt(events, f, s, i - 1, p)
  }

  /** An octet, zero past the end. */
  function Octet(s: bytes, p: nat): byte { if p < |s| then s[p] else 0 }

  ghost predicate WritesOk(events: seq<Event>, f: nat, i: nat, file: File)
    requires History(events) && i <= |events|
  {
    var s := FileSynced(events, f, i);
    && file.appends == AppendsOf(events, f, s, i) && |file.latest| == file.most
    && forall p: nat {:trigger Octet(file.latest, p)} :: Octet(file.latest, p) == LastAt(events, f, s, i, p)
  }

  /** What an append, and a truncation, make of a file's appends and last octets. */
  lemma AppendWrites(was: File, octets: bytes)
    requires FileOk(was) && |was.latest| == was.most
    ensures var now := Appended(was, octets);
      && |now.latest| == now.most && now.appends == was.appends + [(|was.seen|, octets)]
      && forall p: nat {:trigger Octet(now.latest, p)} ::
           Octet(now.latest, p) == if |was.seen| <= p < |was.seen| + |octets| then octets[p - |was.seen|]
                                   else Octet(was.latest, p)
  {
  }

  lemma TruncateWrites(was: File, n: nat)
    requires FileOk(was) && |was.latest| == was.most
    ensures var now := Truncated(was, n);
      && |now.latest| == now.most && now.appends == was.appends
      && forall p: nat {:trigger Octet(now.latest, p)} :: Octet(now.latest, p) == Octet(was.latest, p)
  {
  }

  /** What an event makes of a file's appends and last octets. */
  ghost predicate StepsTo(was: File, e: Event, f: nat, now: File)
    requires Possible(e)
  {
    && |now.latest| == now.most
    && (e.op.Append? && e.op.file == f ==>
          && now.appends == was.appends + [(|was.seen|, Written(e))]
          && forall p: nat {:trigger Octet(now.latest, p)} ::
               Octet(now.latest, p) == if |was.seen| <= p < |was.seen| + |Written(e)| then Written(e)[p - |was.seen|]
                                       else Octet(was.latest, p))
    && (e == Did(Sync(f)) && was.trusted ==> now.appends == [] && now.latest == was.seen == now.seen)
    && (!(e.op.Append? && e.op.file == f) && !(e == Did(Sync(f)) && was.trusted) ==>
          now.appends == was.appends && forall p: nat {:trigger Octet(now.latest, p)} ::
            Octet(now.latest, p) == Octet(was.latest, p))
  }

  lemma StepWrites(d: Disk, e: Event, f: nat)
    requires Possible(e) && f < |d.files| && FileOk(d.files[f]) && |d.files[f].latest| == d.files[f].most
    ensures f < |Step(d, e).files| && StepsTo(d.files[f], e, f, Step(d, e).files[f])
  {
    hide Do, Appended, Truncated, Octet, FileOk;
    if e.Did? || !e.op.Append? {
      FileAfter(d, e.op, f);
      match e.op {
        case Append(g, octets) => AppendWrites(d.files[f], octets);
        case Truncate(g, n) => TruncateWrites(d.files[f], n);
        case _ =>
      }
    } else {
      FileAfter(d, Append(e.op.file, e.op.octets[..e.k]), f);
      AppendWrites(d.files[f], e.op.octets[..e.k]);
    }
  }

  lemma {:induction false} UnbornWrites(events: seq<Event>, f: nat, i: nat)
    requires History(events) && i <= |events| && !FileThere(events, i, f)
    ensures FileSynced(events, f, i) == 0 && AppendsOf(events, f, 0, i) == []
    ensures forall p: nat {:trigger LastAt(events, f, 0, i, p)} :: LastAt(events, f, 0, i, p) == 0
  {
    hide PlainStep;
    Unborn(events, f, i);
    if i > 0 {
      PlainGrows(At(events, i - 1), events[i - 1]);
      UnbornWrites(events, f, i - 1);
      forall p: nat ensures LastAt(events, f, 0, i, p) == 0 { assert LastAt(events, f, 0, i - 1, p) == 0; }
    }
  }

  lemma BornWrites(events: seq<Event>, i: nat, f: nat)
    requires History(events) && 0 < i <= |events| && !FileThere(events, i - 1, f)
    requires f < |RunTo(events, i).files|
    ensures WritesOk(events, f, i, RunTo(events, i).files[f])
  {
    hide At, Step, RunTo;
    Seen(events, i - 1);
    NextDisk(events, i - 1);
    NewFile(RunTo(events, i - 1), events[i - 1], f);
    UnbornWrites(events, f, i - 1);
    assert !SyncCounts(events, f, i - 1);
    forall p: nat ensures Octet([], p) == LastAt(events, f, 0, i, p) { assert LastAt(events, f, 0, i - 1, p) == 0; }
  }

  lemma OldWrites(events: seq<Event>, i: nat, f: nat)
    requires History(events) && 0 < i <= |events| && FileThere(events, i - 1, f)
    requires f < |RunTo(events, i - 1).files| && WritesOk(events, f, i - 1, RunTo(events, i - 1).files[f])
    ensures f < |RunTo(events, i).files| && WritesOk(events, f, i, RunTo(events, i).files[f])
  {
    hide At, Step, RunTo, FileOk, Octet;
    var d, e := RunTo(events, i - 1), events[i - 1];
    Seen(events, i - 1);
    Seen(events, i);
    NextDisk(events, i - 1);
    RunOk(events, i - 1);
    FileIsOk(d, f);
    FilesTold(events, i - 1, f);
    StepWrites(d, e, f);
    var file, s := RunTo(events, i).files[f], FileSynced(events, f, i - 1);
    if SyncCounts(events, f, i - 1) {
      forall p: nat ensures Octet(file.latest, p) == LastAt(events, f, i, i, p) { OctetIs(file.latest, p); }
    } else {
      assert FileSynced(events, f, i) == s;
      forall p: nat ensures Octet(file.latest, p) == LastAt(events, f, s, i, p) {
        assert Octet(d.files[f].latest, p) == LastAt(events, f, s, i - 1, p);
      }
    }
  }

  lemma OctetIs(s: bytes, p: nat)
    ensures Octet(s, p) == if p < |s| then s[p] else 0
  {
  }

  lemma FileIsOk(d: Disk, f: nat)
    requires Inv(d) && f < |d.files|
    ensures FileOk(d.files[f])
  {
  }

  /** In every history the bookkeeping of a file has exactly those: its appends in order, and the last octet written at
      each place, up to the greatest length since. */
  lemma {:induction false} WritesTold(events: seq<Event>, i: nat, f: nat)
    requires History(events) && i <= |events| && f < |RunTo(events, i).files|
    ensures WritesOk(events, f, i, RunTo(events, i).files[f])
  {
    hide At, Step, WritesOk;
    if i > 0 {
      Seen(events, i - 1);
      if FileThere(events, i - 1, f) {
        WritesTold(events, i - 1, f);
        OldWrites(events, i, f);
      } else {
        BornWrites(events, i, f);
      }
    }
  }
}
