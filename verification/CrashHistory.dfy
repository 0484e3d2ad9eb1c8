/** The crash rule over a run's history, told from the states a program sees alone, and that the bookkeeping of
    `CrashModel` computes exactly it. */
module CrashHistory {
  import opened CrashModel

  /** The file system as a program sees it. */
  datatype Plain = Plain(names: map<bytes, nat>, files: seq<bytes>) {
    function Holding(n: bytes): Held { if n in names then Holds(names[n]) else Nothing }

    function Content(f: nat): bytes { if f < |files| then files[f] else [] }
  }

  function PlainDo(p: Plain, op: Op): Plain {
    match op
    case Create(n) => if n in p.names then p else Plain(p.names[n := |p.files|], p.files + [[]])
    case Rename(src, dst) =>
      if src !in p.names || p.Holding(dst) == p.Holding(src) then p
      else p.(names := p.names[dst := p.names[src]] - {src})
    case Remove(n) => p.(names := p.names - {n})
    case Append(f, octets) => if f < |p.files| then p.(files := p.files[f := p.files[f] + octets]) else p
    case Truncate(f, n) => if f < |p.files| then p.(files := p.files[f := Just(Cut(p.files[f], n), n)]) else p
    case _ => p
  }

  function PlainStep(p: Plain, e: Event): Plain
    requires Possible(e)
  {
    match e
    case Did(op) => PlainDo(p, op)
    case Failed(op, k) =>
      if op.Append? then PlainDo(p, Append(op.file, op.octets[..k])) else if k == 1 then PlainDo(p, op) else p
  }

  function View(d: Disk): Plain {
    Plain(map n | n in d.names && d.names[n].Now().Holds? :: d.names[n].Now().file,
          seq(|d.files|, i requires 0 <= i < |d.files| => d.files[i].seen))
  }

  lemma ViewBind(d: Disk, n: bytes, h: Held)
    ensures View(d.Bind(n, h)) ==
      View(d).(names := if h.Holds? then View(d).names[n := h.file] else View(d).names - {n})
  {
  }

  lemma ViewFile(d: Disk, f: nat, file: File)
    requires f < |d.files|
    ensures View(d.(files := d.files[f := file])) == View(d).(files := View(d).files[f := file.seen])
  {
  }

  lemma ViewIs(d: Disk)
    ensures forall n :: View(d).Holding(n) == d.Holding(n)
    ensures |View(d).files| == |d.files| && forall f :: 0 <= f < |d.files| ==> View(d).files[f] == d.files[f].seen
  {
  }

  /** One file more, and the directory synced. */
  lemma ViewMore(d: Disk)
    ensures View(d.(files := d.files + [EMPTY_FILE])) == View(d).(files := View(d).files + [[]])
    ensures View(d.(names := Settled(d.names))) == View(d)
  {
  }

  lemma ViewDo(d: Disk, op: Op)
    ensures View(Do(d, op).0) == PlainDo(View(d), op)
  {
    hide View, Disk.Bind, Disk.Holding, Appended, Truncated, Synced;
    ViewIs(d);
    match op {
      case Create(n) =>
        ViewMore(d);
        ViewBind(d.(files := d.files + [EMPTY_FILE]), n, Holds(|d.files|));
      case Rename(src, dst) =>
        ViewBind(d, dst, d.Holding(src));
        ViewBind(d.Bind(dst, d.Holding(src)), src, Nothing);
      case Remove(n) => ViewBind(d, n, Nothing);
      case SyncDir => ViewMore(d);
      case Append(f, octets) =>
        if f < |d.files| {
          ViewFile(d, f, Appended(d.files[f], octets));
          SeenAfter(d.files[f], op);
        }
      case Truncate(f, n) =>
        if f < |d.files| {
          ViewFile(d, f, Truncated(d.files[f], n));
          SeenAfter(d.files[f], op);
        }
      case Sync(f) =>
        if f < |d.files| {
          ViewFile(d, f, Synced(d.files[f]));
          SeenAfter(d.files[f], op);
        }
      case Read(f, _, _) => if f < |d.files| { ViewFile(d, f, d.files[f]); }
      case Size(f) => if f < |d.files| { ViewFile(d, f, d.files[f]); }
      case _ =>
    }
  }

  lemma SeenAfter(f: File, op: Op)
    ensures op.Append? ==> Appended(f, op.octets).seen == f.seen + op.octets
    ensures op.Truncate? ==> Truncated(f, op.n).seen == Just(Cut(f.seen, op.n), op.n)
    ensures op.Sync? ==> Synced(f).seen == f.seen
  {
  }

  /** The bookkeeping changes nothing a program sees. */
  lemma ViewStep(d: Disk, e: Event)
    requires Possible(e)
    ensures View(Step(d, e)) == PlainStep(View(d), e)
  {
    hide Do, PlainDo;
    match e {
      case Did(op) => ViewDo(d, op);
      case Failed(op, k) =>
        match op {
          case Append(f, octets) => ViewDo(d, Append(f, octets[..k]));
          case Sync(f) => if f < |d.files| { ViewFile(d, f, d.files[f].(trusted := false)); }
          case SyncDir =>
          case _ => ViewDo(d, op);
        }
    }
  }

  lemma ViewHolding(d: Disk, n: bytes)
    ensures View(d).Holding(n) == d.Holding(n)
  {
  }

  // ---- The history

  ghost predicate History(events: seq<Event>) { forall i {:trigger events[i]} :: 0 <= i < |events| ==>
    Possible(events[i]) }

  /** What the program sees after the first `i` events. */
  function At(events: seq<Event>, i: nat): Plain
    requires History(events) && i <= |events|
  {
    if i == 0 then Plain(map[], []) else PlainStep(At(events, i - 1), events[i - 1])
  }

  function RunTo(events: seq<Event>, i: nat): Disk
    requires History(events) && i <= |events|
  {
    if i == 0 then EMPTY_DISK else Step(RunTo(events, i - 1), events[i - 1])
  }

  lemma {:induction false} RunOk(events: seq<Event>, i: nat)
    requires History(events) && i <= |events|
    ensures Inv(RunTo(events, i)) && View(RunTo(events, i)) == At(events, i)
  {
    if i > 0 {
      RunOk(events, i - 1);
      StepInv(RunTo(events, i - 1), events[i - 1]);
      ViewStep(RunTo(events, i - 1), events[i - 1]);
    }
  }

  /** A sync of the directory that counts: it succeeds and none before it failed. */
  ghost predicate DirSyncCounts(events: seq<Event>, i: nat)
    requires i < |events|
  {
    events[i] == Did(SyncDir) && forall j :: 0 <= j < i ==> events[j] != Failed(SyncDir, 0)
  }

  /** Where the last one before `i` ended, or the start. */
  ghost function DirSynced(events: seq<Event>, i: nat): (s: nat)
    requires i <= |events|
    ensures s <= i
  {
    if i == 0 then 0 else if DirSyncCounts(events, i - 1) then i else DirSynced(events, i - 1)
  }

  /** The name held `h` at that sync or since. */
  ghost predicate HeldSince(events: seq<Event>, i: nat, n: bytes, h: Held)
    requires History(events) && i <= |events|
  {
    exists j :: DirSynced(events, i) <= j <= i && At(events, j).Holding(n) == h
  }

  ghost predicate SyncCounts(events: seq<Event>, f: nat, i: nat)
    requires History(events) && i < |events|
  {
    && events[i] == Did(Sync(f)) && f < |At(events, i).files|
    && forall j :: 0 <= j < i && f < |At(events, j).files| ==> events[j] != Failed(Sync(f), 0)
  }

  ghost function FileSynced(events: seq<Event>, f: nat, i: nat): (s: nat)
    requires History(events) && i <= |events|
    ensures s <= i
  {
    if i == 0 then 0 else if SyncCounts(events, f, i - 1) then i else FileSynced(events, f, i - 1)
  }

  predicate Truncates(e: Event, f: nat) { e.op.Truncate? && e.op.file == f && (e.Did? || e.k == 1) }

  /** The least of `n` and the lengths the file was truncated to from `s` to `i`. */
  function Shortest(events: seq<Event>, f: nat, s: nat, i: nat, n: nat): nat
    requires s <= i <= |events|
    decreases i
  {
    if i == s then n
    else
      var m := Shortest(events, f, s, i - 1, n);
      if Truncates(events[i - 1], f) then Min(m, events[i - 1].op.n) else m
  }

  /** The greatest length the file had from `s` to `i`. */
  function Greatest(events: seq<Event>, f: nat, s: nat, i: nat): nat
    requires History(events) && s <= i <= |events|
    decreases i
  {
    var now := |At(events, i).Content(f)|;
    if i == s then now else Max(Greatest(events, f, s, i - 1), now)
  }

  /** What the last sync that counts saw, cut to the shortest truncation since. */
  ghost function KeptOf(events: seq<Event>, f: nat, i: nat): bytes
    requires History(events) && i <= |events|
  {
    var s := FileSynced(events, f, i);
    var octets := At(events, s).Content(f);
    Cut(octets, Shortest(events, f, s, i, |octets|))
  }

  ghost function MostOf(events: seq<Event>, f: nat, i: nat): nat
    requires History(events) && i <= |events|
  {
    Greatest(events, f, FileSynced(events, f, i), i)
  }

  ghost predicate MayHave(events: seq<Event>, f: nat, octets: bytes)
    requires History(events)
  {
    KeptOf(events, f, |events|) <= octets && |octets| <= MostOf(events, f, |events|)
  }

  ghost predicate Told(events: seq<Event>, img: Image, pick: map<bytes, nat>)
    requires History(events)
  {
    && pick.Keys == img.Keys
    && (forall n {:trigger pick[n]} :: n in img ==>
          HeldSince(events, |events|, n, Holds(pick[n])) && MayHave(events, pick[n], img[n]))
    && (forall n, m {:trigger pick[n], pick[m]} :: n in img && m in img && pick[n] == pick[m] ==> img[n] == img[m])
  }

  ghost predicate BareTold(events: seq<Event>, img: Image)
    requires History(events)
  {
    forall n {:trigger HeldSince(events, |events|, n, Nothing)} :: n !in img ==> HeldSince(events, |events|, n, Nothing)
  }

  /** The images the rule allows: each name holds what it held at or since the last directory sync that counts, each file
      has one content, no shorter than what it keeps and no longer than the most it had. */
  ghost predicate HistoryAllows(events: seq<Event>, img: Image)
    requires History(events)
  {
    && BareTold(events, img)
    && exists pick :: Told(events, img, pick)
  }

  lemma PlainGrows(p: Plain, e: Event)
    requires Possible(e)
    ensures |p.files| <= |PlainStep(p, e).files|
  {
  }

  // ---- Names

  /** Away from a directory sync that counts, a step adds to a name what it then holds. */
  lemma StepHeld(d: Disk, e: Event, n: bytes, h: Held)
    requires Inv(d) && Possible(e) && !(e == Did(SyncDir) && d.dirTrusted)
    ensures h in Step(d, e).Held(n) <==> h in d.Held(n) || h == Step(d, e).Holding(n)
  {
    hide Do;
    match e {
      case Did(op) => DoHeld(d, op, n, h);
      case Failed(op, k) =>
        HoldingOk(d, n);
        match op {
          case Append(f, octets) => DoHeld(d, Append(f, octets[..k]), n, h);
          case Sync(f) =>
          case SyncDir =>
          case _ => if k == 1 { DoHeld(d, op, n, h); }
        }
    }
  }

  lemma DoHeld(d: Disk, op: Op, n: bytes, h: Held)
    requires Inv(d) && !(op.SyncDir? && d.dirTrusted)
    ensures h in Do(d, op).0.Held(n) <==> h in d.Held(n) || h == Do(d, op).0.Holding(n)
  {
    HoldingOk(d, n);
    match op {
      case Create(m) =>
        var d1 := d.(files := d.files + [EMPTY_FILE]);
        assert d1.Held(n) == d.Held(n) && d1.Holding(n) == d.Holding(n);
        BindWider(d1, m, Holds(|d.files|));
      case Rename(src, dst) =>
        var f := d.Holding(src);
        if f != Nothing && d.Holding(dst) != f {
          BindWider(d, dst, f);
          BindWider(d.Bind(dst, f), src, Nothing);
          var d1 := d.Bind(dst, f);
          assert h in d1.Held(n) <==> h in d.Held(n) || (n == dst && h == f);
          assert h in d1.Bind(src, Nothing).Held(n) <==> h in d1.Held(n) || (n == src && h == Nothing);
          assert d1.Bind(src, Nothing).Holding(n) == if n == src then Nothing else if n == dst then f else d.Holding(n);
        }
      case Remove(m) => BindWider(d, m, Nothing);
      case _ =>
    }
  }

  lemma {:induction false} DirTrusted(events: seq<Event>, i: nat)
    requires History(events) && i <= |events|
    ensures RunTo(events, i).dirTrusted <==> forall j :: 0 <= j < i ==> events[j] != Failed(SyncDir, 0)
  {
    hide Step, Fails;
    if i > 0 {
      DirTrusted(events, i - 1);
      var d, e := RunTo(events, i - 1), events[i - 1];
      StepTrust(d, e);
    }
  }

  lemma StepTrust(d: Disk, e: Event)
    requires Possible(e)
    ensures Step(d, e).dirTrusted == (d.dirTrusted && e != Failed(SyncDir, 0))
  {
  }

  /** The names' bookkeeping is the history's. */
  lemma {:induction false} NamesTold(events: seq<Event>, i: nat, n: bytes, h: Held)
    requires History(events) && i <= |events|
    ensures h in RunTo(events, i).Held(n) <==> HeldSince(events, i, n, h)
  {
    hide Step, PlainStep;
    RunOk(events, i);
    ViewHolding(RunTo(events, i), n);
    if i == 0 {
      assert At(events, 0).Holding(n) == Nothing;
    } else {
      RunOk(events, i - 1);
      DirTrusted(events, i - 1);
      var d, e := RunTo(events, i - 1), events[i - 1];
      if DirSyncCounts(events, i - 1) {
        SettledStep(d, n);
        assert HeldSince(events, i, n, h) <==> At(events, i).Holding(n) == h;
      } else {
        NamesTold(events, i - 1, n, h);
        StepHeld(d, e, n, h);
        Later(events, i, n, h);
      }
    }
  }

  lemma SettledStep(d: Disk, n: bytes)
    requires Inv(d) && d.dirTrusted
    ensures var d' := Step(d, Did(SyncDir)); d'.Held(n) == [d'.Holding(n)]
  {
    SettledHeld(d);
    var d' := Step(d, Did(SyncDir));
    assert d'.Held(n) == [d.Holding(n)];
  }

  lemma Later(events: seq<Event>, i: nat, n: bytes, h: Held)
    requires History(events) && 0 < i <= |events| && DirSynced(events, i) == DirSynced(events, i - 1)
    ensures HeldSince(events, i, n, h) <==> HeldSince(events, i - 1, n, h) || At(events, i).Holding(n) == h
  {
    if HeldSince(events, i - 1, n, h) {
      var j :| DirSynced(events, i - 1) <= j <= i - 1 && At(events, j).Holding(n) == h;
    }
  }

  // ---- Files

  predicate Trusts(events: seq<Event>, f: nat, i: nat)
    requires History(events) && i <= |events|
  {
    forall j :: 0 <= j < i && f < |At(events, j).files| ==> events[j] != Failed(Sync(f), 0)
  }

  /** What a step does to the bookkeeping of a file that was there. */
  predicate Moves(was: File, now: File, e: Event, f: nat) {
    && now.trusted == (was.trusted && e != Failed(Sync(f), 0))
    && if e == Did(Sync(f)) && was.trusted
       then now.kept == was.seen == now.seen && now.most == |was.seen|
       else
         && now.kept == (if Truncates(e, f) then Cut(was.kept, e.op.n) else was.kept)
         && now.most == Max(was.most, |now.seen|)
  }

  lemma StepFile(d: Disk, e: Event, f: nat)
    requires Possible(e) && f < |d.files| && FileOk(d.files[f])
    ensures f < |Step(d, e).files| && Moves(d.files[f], Step(d, e).files[f], e, f)
  {
    hide DoFile;
    match e {
      case Did(op) => DoMoves(d, op, f, e);
      case Failed(op, k) =>
        match op {
          case Append(g, octets) => DoMoves(d, Append(g, octets[..k]), f, e);
          case Sync(g) =>
          case SyncDir =>
          case _ => if k == 1 { DoMoves(d, op, f, e); }
        }
    }
  }

  lemma DoMoves(d: Disk, op: Op, f: nat, e: Event)
    requires f < |d.files| && FileOk(d.files[f]) && !(e.Failed? && e.op.Sync?)
    requires e == Did(op) || (e.Failed? && ((op == e.op && e.k == 1 && !op.Sync?) || (op.Append? && e.op.Append?)))
    ensures f < |Do(d, op).0.files| && Moves(d.files[f], Do(d, op).0.files[f], e, f)
  {
    hide Do;
    FileAfter(d, op, f);
  }

  lemma StepMore(d: Disk, e: Event)
    requires Possible(e)
    ensures |d.files| <= |Step(d, e).files|
  {
  }

  lemma NewFile(d: Disk, e: Event, f: nat)
    requires Possible(e) && f >= |d.files|
    ensures f < |Step(d, e).files| ==> Step(d, e).files[f] == EMPTY_FILE
  {
  }

  lemma {:induction false} FilesTold(events: seq<Event>, i: nat, f: nat)
    requires History(events) && i <= |events| && f < |RunTo(events, i).files|
    ensures var file := RunTo(events, i).files[f];
      && file.kept == KeptOf(events, f, i) && file.most == MostOf(events, f, i)
      && file.trusted == Trusts(events, f, i)
  {
    hide Step, PlainStep;
    if i > 0 {
      RunOk(events, i - 1);
      RunOk(events, i);
      var d, e := RunTo(events, i - 1), events[i - 1];
      if f >= |d.files| {
        NewFile(d, e, f);
        Unborn(events, f, i - 1);
        assert At(events, i).Content(f) == [];
      } else {
        FilesTold(events, i - 1, f);
        StepMore(d, e);
        FileStep(events, f, i);
      }
    }
  }

  /** Nothing is kept of a file, and nothing counts, before it is made. */
  lemma {:induction false} Unborn(events: seq<Event>, f: nat, i: nat)
    requires History(events) && i <= |events| && f >= |At(events, i).files|
    ensures FileSynced(events, f, i) == 0 && Greatest(events, f, 0, i) == 0 && Trusts(events, f, i)
  {
    hide PlainStep;
    if i > 0 {
      PlainGrows(At(events, i - 1), events[i - 1]);
      Unborn(events, f, i - 1);
    }
  }

  /** The rule's own account of one more event. */
  lemma ToldStep(events: seq<Event>, f: nat, i: nat)
    requires History(events) && 0 < i <= |events|
    ensures var now := At(events, i).Content(f);
      if SyncCounts(events, f, i - 1) then KeptOf(events, f, i) == now && MostOf(events, f, i) == |now|
      else
        && KeptOf(events, f, i) == (if Truncates(events[i - 1], f) then Cut(KeptOf(events, f, i - 1), events[i - 1].op.n)
                                    else KeptOf(events, f, i - 1))
        && MostOf(events, f, i) == Max(MostOf(events, f, i - 1), |now|)
  {
    hide At;
  }

  lemma TrustStep(events: seq<Event>, f: nat, i: nat)
    requires History(events) && 0 < i <= |events| && f < |At(events, i - 1).files|
    ensures Trusts(events, f, i) <==> Trusts(events, f, i - 1) && events[i - 1] != Failed(Sync(f), 0)
    ensures SyncCounts(events, f, i - 1) <==> Trusts(events, f, i - 1) && events[i - 1] == Did(Sync(f))
  {
    hide At;
  }

  lemma SeenAt(events: seq<Event>, f: nat, i: nat)
    requires History(events) && i <= |events| && f < |RunTo(events, i).files|
    ensures f < |At(events, i).files| && At(events, i).Content(f) == RunTo(events, i).files[f].seen
    ensures FileOk(RunTo(events, i).files[f])
  {
    RunOk(events, i);
  }

  lemma FileStep(events: seq<Event>, f: nat, i: nat)
    requires History(events) && 0 < i <= |events|
    requires f < |RunTo(events, i - 1).files| && f < |RunTo(events, i).files|
    requires var file := RunTo(events, i - 1).files[f];
      file.kept == KeptOf(events, f, i - 1) && file.most == MostOf(events, f, i - 1) && file.trusted == Trusts(events, f, i - 1)
    ensures var file := RunTo(events, i).files[f];
      file.kept == KeptOf(events, f, i) && file.most == MostOf(events, f, i) && file.trusted == Trusts(events, f, i)
  {
    hide Step, At, KeptOf, MostOf, Trusts, SyncCounts, FileOk;
    SeenAt(events, f, i - 1);
    SeenAt(events, f, i);
    ToldStep(events, f, i);
    TrustStep(events, f, i);
    StepFile(RunTo(events, i - 1), events[i - 1], f);
  }

  // ---- The rule

  /** What the search answers of a run is what the rule allows over its history. */
  lemma LeavesTold(events: seq<Event>, img: Image)
    requires History(events)
    ensures Leaves(RunTo(events, |events|), img) <==> HistoryAllows(events, img)
  {
    hide RunTo, Agrees, Bare, BareTold, Explains, Told, Inv;
    var d := RunTo(events, |events|);
    RunOk(events, |events|);
    RunAgrees(events);
    if Leaves(d, img) {
      var pick :| Explains(d, img, pick);
      LeftTold(events, d, img, pick);
    }
    if HistoryAllows(events, img) {
      var pick :| Told(events, img, pick);
      ToldLeft(events, d, img, pick);
    }
  }

  ghost predicate Agrees(events: seq<Event>, d: Disk)
    requires History(events)
  {
    && (forall n, h {:trigger HeldSince(events, |events|, n, h)} {:trigger h in d.Held(n)} ::
          h in d.Held(n) <==> HeldSince(events, |events|, n, h))
    && (forall f {:trigger d.files[f]} :: 0 <= f < |d.files| ==>
          d.files[f].kept == KeptOf(events, f, |events|) && d.files[f].most == MostOf(events, f, |events|))
  }

  lemma RunAgrees(events: seq<Event>)
    requires History(events)
    ensures Agrees(events, RunTo(events, |events|))
  {
    hide RunTo, HeldSince, KeptOf, MostOf, Inv;
    var i := |events|;
    var d := RunTo(events, i);
    RunOk(events, i);
    forall n, h ensures h in d.Held(n) <==> HeldSince(events, i, n, h) {
      NamesTold(events, i, n, h);
    }
    forall f | 0 <= f < |d.files|
      ensures d.files[f].kept == KeptOf(events, f, i) && d.files[f].most == MostOf(events, f, i)
    {
      FilesTold(events, i, f);
    }
  }

  lemma LeftTold(events: seq<Event>, d: Disk, img: Image, pick: map<bytes, nat>)
    requires History(events) && Agrees(events, d) && Bare(d, img) && Explains(d, img, pick)
    ensures HistoryAllows(events, img)
  {
    hide *;
    LeftBare(events, d, img);
    LeftPick(events, d, img, pick);
    Allows(events, img, pick);
  }

  lemma Allows(events: seq<Event>, img: Image, pick: map<bytes, nat>)
    requires History(events) && BareTold(events, img) && Told(events, img, pick)
    ensures HistoryAllows(events, img)
  {
    hide BareTold, Told;
  }

  lemma LeftBare(events: seq<Event>, d: Disk, img: Image)
    requires History(events) && Agrees(events, d)
    ensures Bare(d, img) <==> BareTold(events, img)
  {
    hide HeldSince, KeptOf, MostOf, Disk.Held;
    if Bare(d, img) {
      forall n | n !in img ensures HeldSince(events, |events|, n, Nothing) {
        assert Nothing in d.Held(n);
      }
    }
    if BareTold(events, img) {
      forall n | n !in img ensures Nothing in d.Held(n) {
        assert HeldSince(events, |events|, n, Nothing);
      }
    }
  }

  lemma LeftPick(events: seq<Event>, d: Disk, img: Image, pick: map<bytes, nat>)
    requires History(events) && Agrees(events, d) && Explains(d, img, pick)
    ensures Told(events, img, pick)
  {
    hide HeldSince, KeptOf, MostOf, Disk.Held;
    forall n | n in img ensures HeldSince(events, |events|, n, Holds(pick[n])) && MayHave(events, pick[n], img[n]) {
      assert Holds(pick[n]) in d.Held(n);
    }
  }

  lemma ToldLeft(events: seq<Event>, d: Disk, img: Image, pick: map<bytes, nat>)
    requires History(events) && Inv(d) && Agrees(events, d) && BareTold(events, img) && Told(events, img, pick)
    ensures Leaves(d, img)
  {
    hide *;
    LeftBare(events, d, img);
    ToldPick(events, d, img, pick);
    LeavesBy(d, img, pick);
  }

  lemma LeavesBy(d: Disk, img: Image, pick: map<bytes, nat>)
    requires Bare(d, img) && Explains(d, img, pick)
    ensures Leaves(d, img)
  {
    hide Bare, Explains;
  }

  lemma ToldPick(events: seq<Event>, d: Disk, img: Image, pick: map<bytes, nat>)
    requires History(events) && Inv(d) && Agrees(events, d) && Told(events, img, pick)
    ensures Explains(d, img, pick)
  {
    hide HeldSince, KeptOf, MostOf, Inv, Disk.Held;
    forall n | n in img
      ensures Holds(pick[n]) in d.Held(n) && pick[n] < |d.files| && Allowed(d.files[pick[n]], img[n])
    {
      HoldingOk(d, n);
      assert HeldSince(events, |events|, n, Holds(pick[n])) && MayHave(events, pick[n], img[n]);
    }
  }
}
