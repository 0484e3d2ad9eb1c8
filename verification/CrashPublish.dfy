/** Publishing a file: a temporary created, its octets appended, the file synced, renamed over the final name and the
    directory synced, stopping at the first failure, while others work on other names and files. Whenever a crash comes,
    the final name holds something it could hold before or all of the octets, never a part. */
module CrashPublish {
  import opened CrashModel
  import opened CrashHistory

  datatype Phase = Begun | Created | Written | Durable | Renamed | Finished | Stopped

  /** `file` is the file made for the temporary name, once there is one; `settled` whether the last step's sync counted. */
  datatype Publishing = Publishing(d: Disk, phase: Phase, file: Held, settled: bool)

  datatype Job = Job(temp: bytes, final: bytes, octets: bytes)

  datatype Move = Succeeds | FailsAs(k: nat) | Other(e: Event)

  function NextOp(j: Job, p: Publishing): Op
    requires !p.phase.Finished? && !p.phase.Stopped? && (!p.phase.Begun? ==> p.file.Holds?)
  {
    match p.phase
    case Begun => Create(j.temp)
    case Created => Append(p.file.file, j.octets)
    case Written => Sync(p.file.file)
    case Durable => Rename(j.temp, j.final)
    case Renamed => SyncDir
  }

  predicate Names(op: Op, n: bytes) {
    match op
    case Create(m) => m == n
    case Open(m) => m == n
    case Remove(m) => m == n
    case Rename(a, b) => a == n || b == n
    case _ => false
  }

  predicate OnFile(op: Op, f: Held) {
    (op.Append? || op.Truncate? || op.Sync? || op.Read? || op.Size?) && Holds(op.file) == f
  }

  /** An event of somebody else, on other names and files; a sync of the directory is everybody's. */
  predicate Elsewhere(j: Job, p: Publishing, e: Event) {
    Possible(e) && !Names(e.op, j.temp) && !Names(e.op, j.final) && !OnFile(e.op, p.file)
  }

  predicate May(j: Job, p: Publishing, m: Move) {
    match m
    case Other(e) => Elsewhere(j, p, e)
    case Succeeds => !p.phase.Finished? && !p.phase.Stopped? && (!p.phase.Begun? ==> p.file.Holds?)
    case FailsAs(k) =>
      !p.phase.Finished? && !p.phase.Stopped? && (!p.phase.Begun? ==> p.file.Holds?) && Fails(NextOp(j, p), k)
  }

  function Makes(j: Job, p: Publishing, m: Move): Publishing
    requires May(j, p, m)
  {
    match m
    case Other(e) => p.(d := Step(p.d, e))
    case FailsAs(k) => p.(d := Fail(p.d, NextOp(j, p), k), phase := Stopped)
    case Succeeds =>
      var (d, a) := Do(p.d, NextOp(j, p));
      match p.phase
      case Begun => if a.FileIs? then Publishing(d, Created, Holds(a.file), false) else p.(d := d, phase := Stopped)
      case Created => p.(d := d, phase := if a.Done? then Written else Stopped)
      case Written => p.(d := d, phase := if a.Done? then Durable else Stopped)
      case Durable => p.(d := d, phase := if a.Done? then Renamed else Stopped)
      case _ => Publishing(d, Finished, p.file, p.d.dirTrusted)
  }

  /** `after` is reached from `before` by some moves. */
  ghost predicate Reaches(j: Job, before: Publishing, moves: seq<Move>, after: Publishing)
    decreases |moves|
  {
    if moves == [] then before == after
    else May(j, before, moves[0]) && Reaches(j, Makes(j, before, moves[0]), moves[1..], after)
  }

  // ---- What every move keeps

  /** The file has exactly the octets, whatever a crash does. */
  predicate Exactly(f: File, octets: bytes) { f.kept == f.seen == octets && f.most == |octets| }

  predicate HasFile(d: Disk, h: Held) { h.Holds? && h.file < |d.files| }

  ghost predicate PhaseOk(j: Job, p: Publishing) {
    match p.phase
    case Begun => p.file == Nothing
    case Created => HasFile(p.d, p.file) && p.d.Holding(j.temp) == p.file && p.d.files[p.file.file] == EMPTY_FILE
    case Written =>
      HasFile(p.d, p.file) && p.d.Holding(j.temp) == p.file &&
      p.d.files[p.file.file].seen == j.octets && p.d.files[p.file.file].trusted
    case Durable => HasFile(p.d, p.file) && p.d.Holding(j.temp) == p.file && Exactly(p.d.files[p.file.file], j.octets)
    case Renamed => HasFile(p.d, p.file) && p.d.Holding(j.final) == p.file && Exactly(p.d.files[p.file.file], j.octets)
    case Finished => HasFile(p.d, p.file) && p.d.Holding(j.final) == p.file && Exactly(p.d.files[p.file.file], j.octets)
    case Stopped => true
  }

  /** What the final name may be left holding: something from before, or the new file, by then exactly the octets. */
  ghost predicate FinalOk(d0: Disk, j: Job, p: Publishing) {
    && (forall h {:trigger h in p.d.Held(j.final)} :: h in p.d.Held(j.final) ==>
          h in d0.Held(j.final) || (h == p.file && HasFile(p.d, h) && Exactly(p.d.files[h.file], j.octets)))
    && (p.phase.Created? || p.phase.Written? || p.phase.Durable? ==> p.file !in p.d.Held(j.final))
    && (p.phase.Finished? && p.settled ==> forall h :: h in p.d.Held(j.final) ==> h == p.file)
  }

  ghost predicate Keeping(d0: Disk, j: Job, p: Publishing) {
    && j.temp != j.final && Inv(p.d) && |d0.files| <= |p.d.files|
    && (p.file.Holds? ==> |d0.files| <= p.file.file < |p.d.files|)
    && PhaseOk(j, p) && FinalOk(d0, j, p)
  }

  /** An event that does not name a name leaves it holding what it did. */
  lemma HoldingStays(d: Disk, e: Event, n: bytes)
    requires Inv(d) && Possible(e) && !Names(e.op, n)
    ensures Step(d, e).Holding(n) == d.Holding(n)
    ensures forall h :: h in Step(d, e).Held(n) ==> h in d.Held(n)
  {
    HoldingOnly(d, e, n);
    HoldingOk(d, n);
    if e == Did(SyncDir) && d.dirTrusted {
      SettledStep(d, n);
    } else {
      forall h | h in Step(d, e).Held(n) ensures h in d.Held(n) {
        StepHeld(d, e, n, h);
      }
    }
  }

  lemma HoldingOnly(d: Disk, e: Event, n: bytes)
    requires Possible(e) && !Names(e.op, n)
    ensures Step(d, e).Holding(n) == d.Holding(n)
  {
    ViewStep(d, e);
    ViewHolding(Step(d, e), n);
    ViewHolding(d, n);
  }

  lemma FileStays(d: Disk, e: Event, f: nat)
    requires Possible(e) && f < |d.files| && !OnFile(e.op, Holds(f))
    ensures f < |Step(d, e).files| && Step(d, e).files[f] == d.files[f]
  {
    hide Do;
    if e.Did? || !e.op.Append? { FileAfter(d, e.op, f); } else { FileAfter(d, Append(e.op.file, e.op.octets[..e.k]), f); }
  }

  lemma OtherKeeps(d0: Disk, j: Job, p: Publishing, e: Event)
    requires Keeping(d0, j, p) && Elsewhere(j, p, e)
    ensures Keeping(d0, j, p.(d := Step(p.d, e)))
  {
    hide Step;
    StepInv(p.d, e);
    StepMore(p.d, e);
    HoldingStays(p.d, e, j.temp);
    HoldingStays(p.d, e, j.final);
    if p.file.Holds? { FileStays(p.d, e, p.file.file); }
    var p' := p.(d := Step(p.d, e));
    assert FinalOk(d0, j, p');
  }

  /** An event that names neither the final name nor the new file leaves the final name as it may be. */
  lemma AwayKeeps(d0: Disk, j: Job, p: Publishing, e: Event, p': Publishing)
    requires Keeping(d0, j, p) && Possible(e) && !Names(e.op, j.final)
    requires p.file.Holds? ==> p.file !in p.d.Held(j.final)
    requires p'.d == Step(p.d, e) && (p'.file == p.file || (p.file == Nothing && p'.file == Holds(|p.d.files|)))
    requires p'.file.Holds? ==> p'.file.file < |p'.d.files|
    requires PhaseOk(j, p') && !p'.phase.Finished?
    ensures Keeping(d0, j, p')
  {
    hide Step;
    StepInv(p.d, e);
    StepMore(p.d, e);
    HoldingStays(p.d, e, j.final);
    HoldingOk(p.d, j.final);
  }

  lemma CreateKeeps(d0: Disk, j: Job, p: Publishing, m: Move)
    requires Keeping(d0, j, p) && May(j, p, m) && p.phase.Begun? && !m.Other?
    ensures Keeping(d0, j, Makes(j, p, m))
  {
    var p' := Makes(j, p, m);
    if m.Succeeds? && p'.phase.Created? {
      BindWider(p.d.(files := p.d.files + [EMPTY_FILE]), j.temp, Holds(|p.d.files|));
    }
    var e := if m.Succeeds? then Did(NextOp(j, p)) else Failed(NextOp(j, p), m.k);
    StepMore(p.d, e);
    AwayKeeps(d0, j, p, e, p');
  }

  lemma WriteKeeps(d0: Disk, j: Job, p: Publishing, m: Move)
    requires Keeping(d0, j, p) && May(j, p, m) && (p.phase.Created? || p.phase.Written?) && !m.Other?
    ensures Keeping(d0, j, Makes(j, p, m))
  {
    var p' := Makes(j, p, m);
    var e := if m.Succeeds? then Did(NextOp(j, p)) else Failed(NextOp(j, p), m.k);
    assert p'.d == Step(p.d, e);
    HoldingOnly(p.d, e, j.temp);
    StepMore(p.d, e);
    AwayKeeps(d0, j, p, e, p');
  }

  lemma RenameKeeps(d0: Disk, j: Job, p: Publishing, m: Move)
    requires Keeping(d0, j, p) && May(j, p, m) && p.phase.Durable? && !m.Other?
    ensures Keeping(d0, j, Makes(j, p, m))
  {
    var p' := Makes(j, p, m);
    if m.FailsAs? && m.k == 0 {
      assert p'.d == p.d;
    } else {
      var d1 := p.d.Bind(j.final, p.file);
      HoldingOk(p.d, j.final);
      DoInv(p.d, Rename(j.temp, j.final));
      assert p'.d == d1.Bind(j.temp, Nothing);
      BindWider(p.d, j.final, p.file);
      BindWider(d1, j.temp, Nothing);
      assert p'.d.Holding(j.final) == p.file;
      forall h | h in p'.d.Held(j.final) ensures h in p.d.Held(j.final) || h == p.file {
        assert h in d1.Held(j.final);
      }
    }
  }

  lemma SyncKeeps(d0: Disk, j: Job, p: Publishing, m: Move)
    requires Keeping(d0, j, p) && May(j, p, m) && p.phase.Renamed? && !m.Other?
    ensures Keeping(d0, j, Makes(j, p, m))
  {
    var p' := Makes(j, p, m);
    var e := if m.Succeeds? then Did(SyncDir) else Failed(SyncDir, 0);
    assert p'.d == Step(p.d, e);
    HoldingStays(p.d, e, j.final);
    StepInv(p.d, e);
    if m.Succeeds? && p.d.dirTrusted { SettledStep(p.d, j.final); }
  }

  lemma MoveKeeps(d0: Disk, j: Job, p: Publishing, m: Move)
    requires Keeping(d0, j, p) && May(j, p, m)
    ensures Keeping(d0, j, Makes(j, p, m))
  {
    hide Keeping;
    match m {
      case Other(e) => OtherKeeps(d0, j, p, e);
      case _ =>
        match p.phase {
          case Begun => CreateKeeps(d0, j, p, m);
          case Created => WriteKeeps(d0, j, p, m);
          case Written => WriteKeeps(d0, j, p, m);
          case Durable => RenameKeeps(d0, j, p, m);
          case Renamed => SyncKeeps(d0, j, p, m);
        }
    }
  }

  lemma {:induction false} RunKeeps(d0: Disk, j: Job, p: Publishing, moves: seq<Move>, p': Publishing)
    requires Keeping(d0, j, p) && Reaches(j, p, moves, p')
    ensures Keeping(d0, j, p')
    decreases |moves|
  {
    hide Keeping, Makes, May;
    if moves != [] {
      MoveKeeps(d0, j, p, moves[0]);
      RunKeeps(d0, j, Makes(j, p, moves[0]), moves[1..], p');
    }
  }

  // ---- The theorem

  /** The octets are what a file the name could hold before may be left with. */
  ghost predicate FromBefore(d0: Disk, d: Disk, n: bytes, octets: bytes) {
    exists f :: 0 <= f < |d.files| && Holds(f) in d0.Held(n) && Allowed(d.files[f], octets)
  }

  /** At every point of every run, whatever a crash then leaves. */
  lemma PublishedWhole(d0: Disk, j: Job, moves: seq<Move>, p: Publishing, img: Image)
    requires Inv(d0) && j.temp != j.final && Reaches(j, Publishing(d0, Begun, Nothing, false), moves, p)
    requires Leaves(p.d, img)
    ensures j.final !in img ==> Nothing in d0.Held(j.final)
    ensures j.final in img ==> FromBefore(d0, p.d, j.final, img[j.final]) || img[j.final] == j.octets
    ensures p.phase.Finished? && p.settled ==> j.final in img && img[j.final] == j.octets
  {
    hide Keeping, Reaches, Leaves, FromBefore;
    var start := Publishing(d0, Begun, Nothing, false);
    StartKeeping(d0, j);
    RunKeeps(d0, j, start, moves, p);
    KeepingLeft(d0, j, p, img);
  }

  lemma KeepingLeft(d0: Disk, j: Job, p: Publishing, img: Image)
    requires Keeping(d0, j, p) && Leaves(p.d, img)
    ensures j.final !in img ==> Nothing in d0.Held(j.final)
    ensures j.final in img ==> FromBefore(d0, p.d, j.final, img[j.final]) || img[j.final] == j.octets
    ensures p.phase.Finished? && p.settled ==> j.final in img && img[j.final] == j.octets
  {
    hide Inv, PhaseOk, Exactly, Allowed;
    if p.phase.Finished? { FinishedHas(d0, j, p); }
    var pick :| Explains(p.d, img, pick);
    if j.final in img {
      var f := pick[j.final];
      assert Holds(f) in p.d.Held(j.final) && Allowed(p.d.files[f], img[j.final]);
      if Exactly(p.d.files[f], j.octets) { ExactlyAllows(p.d.files[f], j.octets, img[j.final]); }
    } else {
      assert Nothing in p.d.Held(j.final);
    }
  }

  lemma ExactlyAllows(f: File, octets: bytes, left: bytes)
    requires Exactly(f, octets) && Allowed(f, left)
    ensures left == octets
  {
  }

  lemma FinishedHas(d0: Disk, j: Job, p: Publishing)
    requires Keeping(d0, j, p) && p.phase.Finished?
    ensures HasFile(p.d, p.file) && Exactly(p.d.files[p.file.file], j.octets)
  {
    hide Inv, FinalOk;
  }

  // ---- What could be left before

  /** What each name but `n` holds. */
  function PickOthers(d: Disk, n: bytes): map<bytes, nat> {
    map m | m in d.names && m != n && d.Holding(m).Holds? && d.Holding(m).file < |d.files| :: d.Holding(m).file
  }

  /** What each other name holds, and `f` for `n`. */
  function PickWith(d: Disk, n: bytes, f: nat): map<bytes, nat> {
    PickOthers(d, n)[n := f]
  }

  function ImageWith(d: Disk, pick: map<bytes, nat>, f: nat, octets: bytes): Image {
    map m | m in pick :: if pick[m] != f && pick[m] < |d.files| then d.files[pick[m]].seen else octets
  }

  lemma WithBare(d: Disk, n: bytes, f: nat, octets: bytes)
    requires Inv(d)
    ensures Bare(d, ImageWith(d, PickWith(d, n, f), f, octets))
  {
    var img := ImageWith(d, PickWith(d, n, f), f, octets);
    forall m | m !in img ensures Nothing in d.Held(m) {
      HoldingOk(d, m);
    }
  }

  lemma WithThere(d: Disk, n: bytes, f: nat, octets: bytes)
    ensures var pick := PickWith(d, n, f);
      var img := ImageWith(d, pick, f, octets);
      && n in img && img[n] == octets && pick.Keys == img.Keys
      && forall k, m :: k in img && m in img && pick[k] == pick[m] ==> img[k] == img[m]
  {
  }

  lemma WithAllowed(d: Disk, n: bytes, f: nat, octets: bytes, m: bytes)
    requires Inv(d) && f < |d.files| && Holds(f) in d.Held(n) && Allowed(d.files[f], octets) && m in PickWith(d, n, f)
    ensures var pick := PickWith(d, n, f);
      Holds(pick[m]) in d.Held(m) && pick[m] < |d.files| && Allowed(d.files[pick[m]], ImageWith(d, pick, f, octets)[m])
  {
    HoldingOk(d, m);
    var g := PickWith(d, n, f)[m];
    if g != f { assert FileOk(d.files[g]); }
  }

  /** What a name held, with octets its file may have, some crash leaves. */
  lemma CouldHold(d: Disk, n: bytes, f: nat, octets: bytes)
    requires Inv(d) && f < |d.files| && Holds(f) in d.Held(n) && Allowed(d.files[f], octets)
    ensures exists img :: Leaves(d, img) && n in img && img[n] == octets
  {
    hide Inv, Bare, Allowed, PickWith, ImageWith;
    var pick := PickWith(d, n, f);
    var img := ImageWith(d, pick, f, octets);
    WithThere(d, n, f, octets);
    WithBare(d, n, f, octets);
    forall m | m in img
      ensures Holds(pick[m]) in d.Held(m) && pick[m] < |d.files| && Allowed(d.files[pick[m]], img[m])
    {
      WithAllowed(d, n, f, octets, m);
    }
    assert Explains(d, img, pick);
  }

  /** A name that could hold nothing some crash leaves out. */
  lemma CouldLack(d: Disk, n: bytes)
    requires Inv(d) && Nothing in d.Held(n)
    ensures exists img :: Leaves(d, img) && n !in img
  {
    var pick := PickOthers(d, n);
    var img: Image := map m | m in pick && pick[m] < |d.files| :: d.files[pick[m]].seen;
    forall m | m !in img ensures Nothing in d.Held(m) { HoldingOk(d, m); }
    forall m | m in img
      ensures Holds(pick[m]) in d.Held(m) && pick[m] < |d.files| && Allowed(d.files[pick[m]], img[m])
    {
      HoldingOk(d, m);
      assert FileOk(d.files[pick[m]]);
    }
    assert Explains(d, img, pick);
    assert Leaves(d, img) && n !in img;
  }

  // ---- With the files the final name could hold left alone

  /** An append to the file or a truncation of it, whether it succeeds or fails. */
  predicate Alters(e: Event, f: nat) { (e.op.Append? || e.op.Truncate?) && e.op.file == f }

  /** Nobody else's move alters a file the name could hold. */
  ghost predicate Spares(d0: Disk, n: bytes, m: Move) {
    m.Other? ==> forall f :: Holds(f) in d0.Held(n) ==> !Alters(m.e, f)
  }

  /** Whatever the file may be left with now it could be left with before. */
  predicate Narrower(was: File, now: File) { was.kept <= now.kept && now.most <= was.most }

  lemma StepNarrows(d: Disk, e: Event, f: nat)
    requires f < |d.files| && FileOk(d.files[f]) && Possible(e) && !Alters(e, f)
    ensures f < |Step(d, e).files| && Narrower(d.files[f], Step(d, e).files[f])
  {
    hide Do;
    if e.Did? || !e.op.Append? { FileAfter(d, e.op, f); } else { FileAfter(d, Append(e.op.file, e.op.octets[..e.k]), f); }
  }

  lemma MoveNarrows(d0: Disk, j: Job, p: Publishing, m: Move, f: nat)
    requires Keeping(d0, j, p) && May(j, p, m) && f < |d0.files| && (m.Other? ==> !Alters(m.e, f))
    ensures f < |p.d.files| && f < |Makes(j, p, m).d.files|
    ensures Narrower(p.d.files[f], Makes(j, p, m).d.files[f])
  {
    hide Step, PhaseOk, FinalOk, NameOk, Do, Fail;
    assert FileOk(p.d.files[f]);
    var e := match m
             case Other(e) => e
             case Succeeds => Did(NextOp(j, p))
             case FailsAs(k) => Failed(NextOp(j, p), k);
    StepNarrows(p.d, e, f);
    MadeIs(j, p, m, e);
  }

  lemma MadeIs(j: Job, p: Publishing, m: Move, e: Event)
    requires May(j, p, m) && Possible(e)
    requires match m
             case Other(o) => e == o
             case Succeeds => e == Did(NextOp(j, p))
             case FailsAs(k) => e == Failed(NextOp(j, p), k)
    ensures Makes(j, p, m).d == Step(p.d, e)
  {
    hide Do, Fail;
  }

  lemma {:induction false} RunNarrows(d0: Disk, j: Job, p: Publishing, moves: seq<Move>, p': Publishing, f: nat)
    requires Keeping(d0, j, p) && Reaches(j, p, moves, p') && f < |d0.files|
    requires forall i :: 0 <= i < |moves| && moves[i].Other? ==> !Alters(moves[i].e, f)
    ensures f < |p.d.files| && f < |p'.d.files| && Narrower(p.d.files[f], p'.d.files[f])
    decreases |moves|
  {
    hide Keeping, Makes, May, Alters;
    Grown(d0, j, p);
    if moves != [] {
      MoveNarrows(d0, j, p, moves[0], f);
      MoveKeeps(d0, j, p, moves[0]);
      RunNarrows(d0, j, Makes(j, p, moves[0]), moves[1..], p', f);
    }
  }

  lemma Grown(d0: Disk, j: Job, p: Publishing)
    requires Keeping(d0, j, p)
    ensures |d0.files| <= |p.d.files|
  {
  }

  lemma StartKeeping(d0: Disk, j: Job)
    requires Inv(d0) && j.temp != j.final
    ensures Keeping(d0, j, Publishing(d0, Begun, Nothing, false))
  {
  }

  /** At every point of every run in which nobody else appends to or truncates a file the final name could hold:
      whatever a crash then leaves, the final name is as some crash could have left it before, or holds the octets. */
  lemma BeforeOrWhole(d0: Disk, j: Job, moves: seq<Move>, p: Publishing, img: Image)
    requires Inv(d0) && j.temp != j.final && Reaches(j, Publishing(d0, Begun, Nothing, false), moves, p)
    requires Leaves(p.d, img) && forall i :: 0 <= i < |moves| ==> Spares(d0, j.final, moves[i])
    ensures || (j.final in img && img[j.final] == j.octets)
            || exists before ::
                 && Leaves(d0, before) && (j.final in before <==> j.final in img)
                 && (j.final in img ==> before[j.final] == img[j.final])
  {
    hide Reaches, Leaves, Alters, Allowed;
    PublishedWhole(d0, j, moves, p, img);
    if j.final !in img {
      CouldLack(d0, j.final);
    } else if img[j.final] != j.octets {
      var f :| 0 <= f < |p.d.files| && Holds(f) in d0.Held(j.final) && Allowed(p.d.files[f], img[j.final]);
      HeldThere(d0, j.final, f);
      StartKeeping(d0, j);
      RunNarrows(d0, j, Publishing(d0, Begun, Nothing, false), moves, p, f);
      NarrowerAllows(d0.files[f], p.d.files[f], img[j.final]);
      CouldHold(d0, j.final, f, img[j.final]);
    }
  }

  lemma HeldThere(d: Disk, n: bytes, f: nat)
    requires Inv(d) && Holds(f) in d.Held(n)
    ensures f < |d.files|
  {
  }

  lemma NarrowerAllows(was: File, now: File, octets: bytes)
    requires Narrower(was, now) && Allowed(now, octets)
    ensures Allowed(was, octets)
  {
  }
}
