/** What holds of the job engine in every run from the start, in every interleaving of the program's turns, the workers
    and the loop. */
module JobRuns {
  import opened Jobs
  import opened JobSafety
  import Pigeonhole

  ghost predicate Reached(t: Table) { exists steps :: Run(Start(), steps, t) }

  lemma ReachedInv(t: Table)
    requires Reached(t)
    ensures Inv(t)
  {
    hide Inv;
    var steps :| Run(Start(), steps, t);
    StartInv();
    RunInv(Start(), steps, t);
  }

  /** A place is named, opened or reserved by at most one unfinished job. */
  lemma PlacesExclusive(t: Table, k: nat, k': nat, p: nat)
    requires Reached(t) && k < |t.jobs| && k' < |t.jobs|
    requires Touches(t.jobs[k], p) && Touches(t.jobs[k'], p)
    ensures k == k'
  {
    ReachedInv(t);
    if k != k' { Exclusive(t, k, k', p); }
  }

  /** An operation runs on a place open at the generation the program named, of the kind it needs, no other job's, and
      on a descriptor that is open. */
  lemma RunsOnOpen(t: Table, w: nat)
    requires Reached(t) && Runs(t, w) && OnFile(Current(t, w).2.code)
    ensures var (k, j, op) := Current(t, w);
      && op.place < |t.files|
      && var f := t.files[op.place];
      && f.open && f.gen == op.gen && f.busy == k + 1
      && ((op.code == LIST) == f.listing || op.code == CLOSE)
      && (op.code == LIST ==> op.offset <= f.count)
      && (!f.listing ==> f.fd in t.live)
  {
    ReachedInv(t);
    NamedNow(t, w);
  }

  /** A worker with operations left always has its operation's place within the tables. */
  lemma NeverAstray(t: Table, w: nat)
    requires Reached(t) && w < |t.workers| && t.workers[w].At? && t.workers[w].job < |t.jobs|
    requires var j := t.jobs[t.workers[w].job]; j.failure == 0 && j.next != |j.ops|
    ensures Runs(t, w)
  {
    ReachedInv(t);
    var k := t.workers[w].job;
    assert t.jobs[k].state.Running? && JobOk(t.files, k, t.jobs[k]);
    OpOk(t.files, k, t.jobs[k], t.jobs[k].next);
  }

  /** An open reports a handle no open ever reported before. */
  lemma HandlesFresh(t: Table, w: nat, a: Answer)
    requires Reached(t) && Runs(t, w) && Answers(t, w, a) && Opens(Current(t, w).2.code) && !a.Fails?
    ensures var (k, j, op) := Current(t, w);
      var t' := RunOp(t, w, a);
      && j.next < |t'.jobs[k].results|
      && var h := t'.jobs[k].results[j.next];
      h !in t.handed && t'.handed == t.handed + [h]
  {
    ReachedInv(t);
    RunsJob(t, w);
    ReservedNow(t, w);
    var (k, j, op) := Current(t, w);
    var p := j.place[j.next];
    OpenHanded(t.files, t.handed, p, RunOp(t, w, a).files[p]);
  }

  lemma EmitStays(t: Table, k: nat, gen: nat, ops: seq<Op>, p: nat)
    requires Inv(t) && Enabled(t, Emits(k, gen, ops)) && Do(t, Emits(k, gen, ops)).Next? && p < |t.files|
    ensures var t' := Do(t, Emits(k, gen, ops)).table; |t'.files| == |t.files| && SameFile(t.files[p], t'.files[p])
  {
    hide Took, TakePrefix, SameFile, JobsOk, OneOwner, FilesOk, LiveOk, HandedOk, QueueOk, WorkersOk, DirOk, MarkOk;
    NotNamed(t, k);
    TakeTook(t.files, ops, k, |ops|);
    TookSame(t.files, TakePrefix(t.files, ops, k, |ops|), ops, k);
  }

  lemma OperateStays(t: Table, w: nat, a: Answer, p: nat)
    requires Inv(t) && Enabled(t, Operates(w, a)) && p < |t.files| && t.files[p].open
    ensures var t', op := RunOp(t, w, a), Current(t, w).2;
      && |t'.files| == |t.files|
      && (SameFile(t.files[p], t'.files[p]) || (op.code == CLOSE && op.place == p && op.gen == t.files[p].gen))
  {
    hide Inv;
    if Opens(Current(t, w).2.code) {
      ReservedNow(t, w);
    } else if OnFile(Current(t, w).2.code) {
      NamedNow(t, w);
    }
  }

  /** A handle stays open until an operation that closes that very handle runs. */
  lemma HandleStays(t: Table, s: Step, p: nat)
    requires Reached(t) && Enabled(t, s) && Do(t, s).Next? && p < |t.files| && t.files[p].open
    ensures var t' := Do(t, s).table;
      && |t'.files| == |t.files|
      && (SameFile(t.files[p], t'.files[p]) ||
          (s.Operates? && var op := Current(t, s.w).2; op.code == CLOSE && op.place == p && op.gen == t.files[p].gen))
  {
    hide Inv, RunOp, Emit, Give;
    ReachedInv(t);
    match s {
      case Emits(k, gen, ops) => EmitStays(t, k, gen, ops, p);
      case Operates(w, a) => OperateStays(t, w, a, p);
      case Gives => GiveSame(t, |t.jobs|, p);
      case _ =>
    }
  }

  lemma {:induction false} GiveSame(t: Table, n: nat, p: nat)
    requires n <= |t.jobs| && p < |t.files|
    ensures |Give(t, n).files| == |t.files| && SameFile(t.files[p], Give(t, n).files[p])
  {
    if n > 0 { GiveSame(t, n - 1, p); }
  }

  /** No completion is lost: a loop about to block with a job done will be woken. */
  lemma NoLostCompletion(t: Table, k: nat)
    requires Reached(t) && k < |t.jobs| && t.jobs[k].state.Done? && t.loop.Waiting?
    ensures t.wake > 0 || exists w :: 0 <= w < |t.workers| && t.workers[w].Writing?
  {
    ReachedInv(t);
  }

  /** The directory is synced by one job at a time. */
  lemma OneDirectorySync(t: Table, w: nat, w': nat)
    requires Reached(t) && Runs(t, w) && Runs(t, w')
    requires Current(t, w).2.code == SYNC_DIR && Current(t, w').2.code == SYNC_DIR
    ensures w == w'
  {
    ReachedInv(t);
    RunsJob(t, w);
    RunsJob(t, w');
    var k, k' := Current(t, w).0, Current(t, w').0;
    assert SyncsNow(t.jobs[k]) && SyncsNow(t.jobs[k']);
    assert k == k';
    assert t.workers[w].job == t.workers[w'].job;
  }

  /** A sync, or a close of a file written, that failed has left its mark before the program learns of it. */
  lemma MarkedFirst(t: Table, k: nat)
    requires Reached(t) && k < |t.jobs| && t.jobs[k].state.Done? && LostSync(t.jobs[k])
    ensures t.marked
  {
    ReachedInv(t);
  }

  /** With no job unfinished nothing is reserved or named, so every place that holds no file is free again. */
  lemma AllReleased(t: Table)
    requires Reached(t) && forall k :: 0 <= k < |t.jobs| ==> t.jobs[k].state.Free?
    ensures t.dirSyncs == 0
    ensures forall p {:trigger t.files[p]} :: 0 <= p < |t.files| ==> (Taken(t.files[p]) <==> t.files[p].open)
  {
    ReachedInv(t);
    assert forall k :: 0 <= k < |t.jobs| ==> !Unfinished(t.jobs[k]);
    forall p | 0 <= p < |t.files| ensures Taken(t.files[p]) <==> t.files[p].open {
      assert FileOk(t.jobs, p, t.files[p]);
    }
  }

  // ---- The queue's array

  /** The queue's array has room for every job taken. */
  lemma QueueFits(t: Table, k: nat)
    requires Reached(t) && k < |t.jobs| && t.jobs[k].state.Free?
    ensures |t.queue| < JOBS
  {
    ReachedInv(t);
    hide JobsOk, OneOwner, FilesOk, LiveOk, HandedOk, WorkersOk, DirOk, MarkOk, WakeOk;
    assert forall a :: 0 <= a < |t.queue| ==> t.queue[a] != k;
    Pigeonhole.DistinctFits(t.queue + [k], JOBS);
  }

  // ---- What is accepted

  function ClosedBefore(ops: seq<Op>, i: nat): set<nat>
    requires i <= |ops|
  {
    set a | 0 <= a < i && ops[a].code == CLOSE :: ops[a].place
  }

  function OpensIn(ops: seq<Op>, i: nat): nat
    requires i <= |ops|
  {
    if i == 0 then 0 else OpensIn(ops, i - 1) + if Opens(ops[i - 1].code) then 1 else 0
  }

  function FreePlaces(files: seq<File>): nat {
    if files == [] then 0 else FreePlaces(files[..|files| - 1]) + if Taken(files[|files| - 1]) then 0 else 1
  }

  /** An operation the program may ask for, whatever the other operations of its job but those that close. */
  predicate Legal(files: seq<File>, ops: seq<Op>, k: nat, i: nat)
    requires i < |ops|
  {
    WellFormed(ops[i]) && (OnFile(ops[i].code) ==> MayName(files, ClosedBefore(ops, i), ops[i], k))
  }

  lemma {:induction false} FreeUpdate(files: seq<File>, q: nat, f: File)
    requires q < |files|
    ensures FreePlaces(files[q := f]) ==
      FreePlaces(files) - (if Taken(files[q]) then 0 else 1) + if Taken(f) then 0 else 1
    decreases |files|
  {
    var n := |files| - 1;
    if q == n {
      assert files[q := f][..n] == files[..n];
    } else {
      assert files[q := f][..n] == files[..n][q := f];
      FreeUpdate(files[..n], q, f);
    }
  }

  lemma {:induction false} NoneFree(files: seq<File>)
    ensures FreePlaces(files) == 0 <==> forall q {:trigger files[q]} :: 0 <= q < |files| ==> Taken(files[q])
    decreases |files|
  {
    if files != [] {
      var n := |files| - 1;
      NoneFree(files[..n]);
      assert forall q {:trigger files[..n][q]} :: 0 <= q < n ==> files[..n][q] == files[q];
      assert forall q {:trigger files[q]} :: 0 <= q < n ==> files[..n][q] == files[q];
    }
  }

  /** A job is accepted exactly when each operation is one the program may ask for, judged on the places as they are,
      and there are free places enough for its opens. */
  lemma {:induction false} TakeIff(files: seq<File>, ops: seq<Op>, k: nat, i: nat)
    requires i <= |ops| && forall q {:trigger files[q]} :: 0 <= q < |files| ==> files[q].busy != k + 1
    ensures TakePrefix(files, ops, k, i).Going? <==>
      (forall a {:trigger Legal(files, ops, k, a)} :: 0 <= a < i ==> Legal(files, ops, k, a)) &&
      OpensIn(ops, i) <= FreePlaces(files)
    ensures var p := TakePrefix(files, ops, k, i);
      p.Going? ==> p.closed == ClosedBefore(ops, i) && FreePlaces(p.files) == FreePlaces(files) - OpensIn(ops, i)
  {
    hide Took, Legal, WellFormed, MayName, FreePlaces;
    if i > 0 {
      TakeIff(files, ops, k, i - 1);
      var p, op := TakePrefix(files, ops, k, i - 1), ops[i - 1];
      if p.Going? {
        TakeTook(files, ops, k, i - 1);
        TakeIffOne(files, p, ops, k, i);
      }
    }
  }

  lemma TakeIffOne(files: seq<File>, p: Progress, ops: seq<Op>, k: nat, i: nat)
    requires 0 < i <= |ops| && p.Going? && Took(files, p, ops, k, i - 1) && p.closed == ClosedBefore(ops, i - 1)
    ensures var p' := TakeOne(p, ops[i - 1], k);
      && (p'.Going? <==> Legal(files, ops, k, i - 1) && (Opens(ops[i - 1].code) ==> FreePlaces(p.files) > 0))
      && (p'.Going? ==>
            && p'.closed == ClosedBefore(ops, i)
            && FreePlaces(p'.files) == FreePlaces(p.files) - if Opens(ops[i - 1].code) then 1 else 0)
  {
    hide WellFormed, FreePlaces;
    var op, p' := ops[i - 1], TakeOne(p, ops[i - 1], k);
    if Opens(op.code) {
      NoneFree(p.files);
      var q := LowestFree(p.files, 0);
      if q < |p.files| { FreeUpdate(p.files, q, p.files[q].(reserved := true)); }
    } else if OnFile(op.code) && op.place < |files| {
      assert FileTook(files[op.place], p.files[op.place], k);
      FreeUpdate(p.files, op.place, p.files[op.place].(busy := k + 1));
    }
    assert ClosedBefore(ops, i) == ClosedBefore(ops, i - 1) + if op.code == CLOSE then {op.place} else {};
  }

  /** Which slots of `dn_emit` are violations. */
  lemma AcceptedIff(t: Table, k: nat, gen: nat, ops: seq<Op>)
    requires Reached(t) && k < |t.jobs|
    ensures Emit(t, k, gen, ops).Next? <==>
      && t.jobs[k].state.Free? && 1 <= |ops| <= OPS
      && (forall a {:trigger Legal(t.files, ops, k, a)} :: 0 <= a < |ops| ==> Legal(t.files, ops, k, a))
      && OpensIn(ops, |ops|) <= FreePlaces(t.files)
      && (SyncsDir(ops) ==> forall j :: 0 <= j < |t.jobs| ==> !SyncsNow(t.jobs[j]))
  {
    hide JobsOk, OneOwner, FilesOk, LiveOk, HandedOk, QueueOk, WorkersOk, MarkOk, TakePrefix, Legal, Accepted;
    ReachedInv(t);
    if t.jobs[k].state.Free? {
      NotNamed(t, k);
      TakeIff(t.files, ops, k, |ops|);
    }
  }
}
