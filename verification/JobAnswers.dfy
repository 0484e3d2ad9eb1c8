/** What the program is told of a job, and when the store is marked as failed: both read off the answers the file system
    gave in the run, without the engine's own counting. */
module JobAnswers {
  import opened Jobs
  import opened JobSafety
  import opened JobRuns
  import opened JobTable

  const EIO: nat := 5
  const ENOSPC: nat := 28
  const EDQUOT: nat := 122
  const EEXIST: nat := 17
  const ENOENT: nat := 2

  /** The five classes of errors. */
  lemma Classes(error: nat)
    ensures ClassOf(error) == 1 <==> error == EIO
    ensures ClassOf(error) == 2 <==> error == ENOSPC || error == EDQUOT
    ensures ClassOf(error) == 3 <==> error == EEXIST
    ensures ClassOf(error) == 4 <==> error == ENOENT
    ensures ClassOf(error) == 5 <==> error !in {EIO, ENOSPC, EDQUOT, EEXIST, ENOENT}
  {
  }

  // ---- The answers of a job

  /** The answers job `k` has had since a worker took it, after one more step. */
  function Logged(t: Table, s: Step, k: nat, log: seq<Answer>): seq<Answer>
    requires Enabled(t, s)
  {
    if s.Begins? && t.queue[0] == k then []
    else if s.Operates? && t.workers[s.w].job == k then log + [s.answer]
    else log
  }

  /** Those it has had at the end of a run. */
  function Log(t: Table, steps: seq<Step>, k: nat, log: seq<Answer>): seq<Answer>
    decreases |steps|
  {
    if steps == [] || !Enabled(t, steps[0]) || !Do(t, steps[0]).Next? then log
    else Log(Do(t, steps[0]).table, steps[1..], k, Logged(t, steps[0], k, log))
  }

  predicate Failed(log: seq<Answer>) { log != [] && log[|log| - 1].Fails? }

  /** How many operations worked. */
  function Worked(log: seq<Answer>): nat { if Failed(log) then |log| - 1 else |log| }

  /** An operation's words of its result are those of its answer: octets read, the size, a page's names and octets. */
  predicate Says(op: Op, a: Answer, r: (nat, nat)) {
    && (op.code == READ || op.code == SIZE ==> a.Worked? && r == (a.result, 0))
    && (op.code == LIST ==> a.Worked? && r == (a.result, a.used))
    && (!Opens(op.code) && op.code != READ && op.code != SIZE && op.code != LIST ==> r == (0, 0))
  }

  ghost predicate LogOk(j: Job, log: seq<Answer>) {
    j.state.Running? || j.state.Done? ==>
      && |log| <= |j.ops| <= |j.results| && j.next == Worked(log)
      && (forall i {:trigger log[i]} :: 0 <= i < Worked(log) ==> !log[i].Fails? && Says(j.ops[i], log[i], j.results[i]))
      && (forall i {:trigger j.results[i]} :: Worked(log) <= i < |j.results| ==> j.results[i] == (0, 0))
      && (j.failure == 0 <==> !Failed(log))
      && (Failed(log) ==> j.done == Worked(log) && j.failure == ClassOf(log[Worked(log)].error))
      && (!Failed(log) ==> j.done == |j.ops|)
  }

  /** An operation run, whatever it is: the job moves on by its answer. */
  lemma RunMoves(t: Table, w: nat, a: Answer)
    requires Runs(t, w) && Answers(t, w, a)
    ensures var (k, j, op) := Current(t, w);
      var t' := RunOp(t, w, a);
      && |t'.jobs| == |t.jobs|
      && (forall i {:trigger t'.jobs[i]} :: 0 <= i < |t.jobs| && i != k ==> t'.jobs[i] == t.jobs[i])
      && var j' := t'.jobs[k];
      && j'.state == j.state && j'.ops == j.ops && |j'.results| == |j.results|
      && if a.Fails? then
           j'.next == j.next && j'.done == j.next && j'.failure == ClassOf(a.error) && j'.results == j.results
         else
           && j'.next == j.next + 1 && j'.done == j.done && j'.failure == j.failure
           && Says(op, a, j'.results[j.next])
           && forall i {:trigger j'.results[i]} :: 0 <= i < |j.results| && i != j.next ==> j'.results[i] == j.results[i]
  {
  }

  lemma OperateLog(t: Table, w: nat, a: Answer, k: nat, log: seq<Answer>)
    requires Runs(t, w) && Answers(t, w, a) && k < |t.jobs| && LogOk(t.jobs[k], log)
    requires t.jobs[t.workers[w].job].state.Running?
    ensures LogOk(RunOp(t, w, a).jobs[k], if t.workers[w].job == k then log + [a] else log)
  {
    hide RunOp, Says, ClassOf;
    RunMoves(t, w, a);
    if t.workers[w].job == k {
      var log' := log + [a];
      assert forall i :: 0 <= i < |log| ==> log'[i] == log[i];
    }
  }

  lemma StepLog(t: Table, s: Step, k: nat, log: seq<Answer>)
    requires Inv(t) && Enabled(t, s) && Do(t, s).Next? && k < |t.jobs| && LogOk(t.jobs[k], log)
    ensures k < |Do(t, s).table.jobs| && LogOk(Do(t, s).table.jobs[k], Logged(t, s, k, log))
  {
    hide Inv, RunOp, Says, ClassOf, TakePrefix;
    match s {
      case Operates(w, a) =>
        RunsJob(t, w);
        RunMoves(t, w, a);
        OperateLog(t, w, a, k, log);
      case Begins(w) => JobShape(t, t.queue[0]);
      case Marks(w) => RunningNow(t, w);
      case Gives => GivesJob(t, |t.jobs|, k);
      case _ =>
    }
  }

  lemma JobShape(t: Table, k: nat)
    requires Inv(t) && k < |t.jobs|
    ensures t.jobs[k].state.Queued? ==> |t.jobs[k].ops| <= OPS
    ensures k in t.queue ==> t.jobs[k].state.Queued?
  {
    assert JobOk(t.files, k, t.jobs[k]);
  }

  /** A job handed over is free again, and no other changes. */
  lemma {:induction false} GivesJob(t: Table, n: nat, k: nat)
    requires n <= |t.jobs| && k < |t.jobs|
    ensures var j := Give(t, n).jobs[k]; j == t.jobs[k] || j.state.Free?
    ensures t.jobs[k].state.Free? ==> Give(t, n).jobs[k].state.Free?
  {
    if n > 0 { GivesJob(t, n - 1, k); }
  }

  lemma {:induction false} RunLog(t: Table, steps: seq<Step>, after: Table, k: nat, log: seq<Answer>)
    requires Inv(t) && Run(t, steps, after) && k < |t.jobs| && LogOk(t.jobs[k], log)
    ensures k < |after.jobs| && LogOk(after.jobs[k], Log(t, steps, k, log))
    decreases |steps|
  {
    hide Inv, LogOk, Do, Enabled, Logged;
    if steps != [] {
      StepKeeps(t, steps[0]);
      StepLog(t, steps[0], k, log);
      RunLog(Do(t, steps[0]).table, steps[1..], after, k, Logged(t, steps[0], k, log));
    }
  }

  /** In every run, what the program is told of a job that is done: no failure exactly when no answer was one, and then
      every operation done; else the operations before the one that failed, and the class of its error; and of each
      operation that worked the result its answer had. */
  lemma ToldRight(steps: seq<Step>, t: Table, k: nat)
    requires Run(Start(), steps, t) && k < |t.jobs| && t.jobs[k].state.Done?
    ensures var log, j, c := Log(Start(), steps, k, []), t.jobs[k], Said(t.jobs[k]);
      && c.Completion? && c.gen == j.gen && |log| <= |j.ops| <= |c.results|
      && (forall i {:trigger log[i]} :: 0 <= i < Worked(log) ==> !log[i].Fails? && Says(j.ops[i], log[i], c.results[i]))
      && (forall i {:trigger c.results[i]} :: Worked(log) <= i < |c.results| ==> c.results[i] == (0, 0))
      && (c.failure == 0 <==> forall a :: a in log ==> !a.Fails?)
      && (c.failure == 0 ==> c.done == |log| == |j.ops|)
      && (c.failure != 0 ==>
            c.done + 1 == |log| && log[c.done].Fails? && c.failure == ClassOf(log[c.done].error))
  {
    hide Inv, Says, ClassOf;
    StartInv();
    RunInv(Start(), steps, t);
    AllJobs(t);
    RunLog(Start(), steps, t, k, []);
    DoneShape(t, k);
    var log := Log(Start(), steps, k, []);
    if Failed(log) { assert log[|log| - 1] in log; }
  }

  lemma AllJobs(t: Table)
    requires Inv(t)
    ensures |t.jobs| == JOBS && |t.files| == PLACES
  {
  }

  lemma DoneShape(t: Table, k: nat)
    requires Inv(t) && k < |t.jobs| && t.jobs[k].state.Done?
    ensures t.jobs[k].next == |t.jobs[k].ops| || t.jobs[k].failure != 0
  {
    assert JobOk(t.files, k, t.jobs[k]);
  }

  // ---- What an open and a close leave

  /** An open that works reports a place and generation at which the file answered is then open, a directory as a listing
      of all its names; a close leaves nothing open at what it named, at that generation or a later one, whatever it was
      answered. */
  lemma OpensAndShuts(t: Table, w: nat, a: Answer)
    requires Reached(t) && Enabled(t, Operates(w, a))
    ensures var (k, j, op) := Current(t, w);
      var t' := RunOp(t, w, a);
      && (Opens(op.code) && !a.Fails? ==>
            && j.next < |t'.jobs[k].results|
            && var h := t'.jobs[k].results[j.next];
            && h.0 < |t'.files|
            && var f := t'.files[h.0];
            && f.open && f.gen == h.1 && (f.listing <==> op.code == OPEN_DIR)
            && (NamesFile(op.code) ==> a == Opened(f.fd) && t'.live == t.live + {f.fd})
            && (op.code == OPEN_DIR ==> a == Listing(f.count) && t'.live == t.live))
      && (op.code == CLOSE ==>
            && op.place < |t'.files| && !t'.files[op.place].open && t'.files[op.place].gen > op.gen
            && t'.live == (if t.files[op.place].listing then t.live else t.live - {t.files[op.place].fd}))
  {
    hide Inv;
    ReachedInv(t);
    RunsJob(t, w);
    if Current(t, w).2.code == CLOSE { NamedNow(t, w); }
  }

  // ---- Jobs begin in the order they were taken

  /** A step keeps the jobs queued in their order: one is added last, or the first begins. */
  lemma FirstIn(t: Table, s: Step)
    requires Inv(t) && Enabled(t, s) && Do(t, s).Next?
    ensures var t' := Do(t, s).table;
      || (t'.queue == t.queue && |t'.jobs| == |t.jobs| &&
          (forall k {:trigger t'.jobs[k]} :: 0 <= k < |t.jobs| ==>
             (t'.jobs[k].state.Queued? <==> t.jobs[k].state.Queued?)))
      || (s.Emits? && t'.queue == t.queue + [s.k] && t'.jobs[s.k].ops == s.ops && t'.jobs[s.k].gen == s.gen)
      || (s.Begins? && t.queue == [t.queue[0]] + t'.queue && t'.workers[s.w] == At(t.queue[0]) &&
          t'.jobs[t.queue[0]].state.Running?)
  {
    hide Inv, TakePrefix;
    match s {
      case Operates(w, a) => RunMoves(t, w, a);
      case Marks(w) => RunningNow(t, w);
      case Gives =>
        forall k | 0 <= k < |t.jobs| ensures Give(t, |t.jobs|).jobs[k].state.Queued? <==> t.jobs[k].state.Queued? {
          GivesQueued(t, |t.jobs|, k);
        }
        GivesQueue(t, |t.jobs|);
      case _ =>
    }
  }

  lemma RunningNow(t: Table, w: nat)
    requires Inv(t) && w < |t.workers| && t.workers[w].At?
    ensures t.workers[w].job < |t.jobs| && t.jobs[t.workers[w].job].state.Running?
  {
  }

  lemma {:induction false} GivesQueued(t: Table, n: nat, k: nat)
    requires n <= |t.jobs| && k < |t.jobs|
    ensures Give(t, n).jobs[k].state.Queued? <==> t.jobs[k].state.Queued?
  {
    if n > 0 { GivesQueued(t, n - 1, k); }
  }

  lemma {:induction false} GivesQueue(t: Table, n: nat)
    requires n <= |t.jobs|
    ensures Give(t, n).queue == t.queue
  {
    if n > 0 { GivesQueue(t, n - 1); }
  }

  // ---- When the store is marked

  /** The handle an operation writes through, its file shortened included. */
  function WroteNow(t: Table, s: Step): set<(nat, nat)>
    requires Enabled(t, s)
  {
    if s.Operates? && (Current(t, s.w).2.code == WRITE || Current(t, s.w).2.code == TRUNCATE)
    then {(Current(t, s.w).2.place, Current(t, s.w).2.gen)} else {}
  }

  /** A sync that fails, of a file's data, of a file or of the directory, or the close of a handle written through. */
  predicate Ruins(t: Table, s: Step, wrote: set<(nat, nat)>)
    requires Enabled(t, s)
  {
    s.Operates? && s.answer.Fails? &&
    var op := Current(t, s.w).2;
    op.code == DATA_SYNC || op.code == SYNC || op.code == SYNC_DIR || (op.code == CLOSE && (op.place, op.gen) in wrote)
  }

  /** Whether one comes about in a run, `wrote` having been written through before it. */
  predicate Ruined(t: Table, steps: seq<Step>, wrote: set<(nat, nat)>)
    decreases |steps|
  {
    steps != [] && Enabled(t, steps[0]) && Do(t, steps[0]).Next? &&
    (Ruins(t, steps[0], wrote) || Ruined(Do(t, steps[0]).table, steps[1..], wrote + WroteNow(t, steps[0])))
  }

  ghost predicate WrittenOk(files: seq<File>, wrote: set<(nat, nat)>) {
    && (forall h {:trigger h in wrote} :: h in wrote ==> HandleOk(files, h))
    && (forall p {:trigger files[p]} :: 0 <= p < |files| && files[p].open ==>
          (files[p].written <==> (p, files[p].gen) in wrote))
  }

  predicate SameUse(f: File, g: File) { f.open == g.open && f.gen == g.gen && f.written == g.written }

  lemma SameWritten(files: seq<File>, files': seq<File>, wrote: set<(nat, nat)>)
    requires WrittenOk(files, wrote) && |files'| == |files|
    requires forall p {:trigger files'[p]} :: 0 <= p < |files| ==> SameUse(files[p], files'[p])
    ensures WrittenOk(files', wrote)
  {
    forall h | h in wrote ensures HandleOk(files', h) { assert HandleOk(files, h); }
  }

  /** A step that runs no operation leaves every place as it was used. */
  lemma OthersUse(t: Table, s: Step)
    requires Inv(t) && Enabled(t, s) && Do(t, s).Next? && !s.Operates?
    ensures var t' := Do(t, s).table;
      && t'.marked == t.marked && |t'.files| == |t.files|
      && forall p {:trigger t'.files[p]} :: 0 <= p < |t.files| ==> SameUse(t.files[p], t'.files[p])
  {
    hide Inv, TakePrefix;
    if s.Emits? {
      NotNamed(t, s.k);
      TakeTook(t.files, s.ops, s.k, |s.ops|);
      TookUse(t.files, TakePrefix(t.files, s.ops, s.k, |s.ops|), s.ops, s.k);
    } else if s.Gives? {
      forall p | 0 <= p < |t.files|
        ensures |Give(t, |t.jobs|).files| == |t.files| && SameUse(t.files[p], Give(t, |t.jobs|).files[p])
      {
        GivesUse(t, |t.jobs|, p);
      }
      GivesPlain(t, |t.jobs|);
    }
  }

  lemma TookUse(files: seq<File>, p: Progress, ops: seq<Op>, k: nat)
    requires p.Going? && Took(files, p, ops, k, |ops|)
    ensures |p.files| == |files|
    ensures forall q {:trigger p.files[q]} :: 0 <= q < |files| ==> SameUse(files[q], p.files[q])
  {
    assert forall q {:trigger p.files[q]} :: 0 <= q < |files| ==> FileTook(files[q], p.files[q], k);
  }

  lemma {:induction false} GivesUse(t: Table, n: nat, p: nat)
    requires n <= |t.jobs| && p < |t.files|
    ensures |Give(t, n).files| == |t.files| && SameUse(t.files[p], Give(t, n).files[p])
  {
    if n > 0 { GivesUse(t, n - 1, p); }
  }

  lemma {:induction false} GivesPlain(t: Table, n: nat)
    requires n <= |t.jobs|
    ensures Give(t, n).marked == t.marked && |Give(t, n).files| == |t.files|
  {
    if n > 0 { GivesPlain(t, n - 1); }
  }

  lemma OperateMarks(t: Table, w: nat, a: Answer, wrote: set<(nat, nat)>)
    requires Inv(t) && Enabled(t, Operates(w, a)) && WrittenOk(t.files, wrote)
    ensures WrittenOk(RunOp(t, w, a).files, wrote + WroteNow(t, Operates(w, a)))
    ensures RunOp(t, w, a).marked <==> t.marked || Ruins(t, Operates(w, a), wrote)
  {
    hide Inv;
    var (k, j, op) := Current(t, w);
    var files, wrote' := RunOp(t, w, a).files, wrote + WroteNow(t, Operates(w, a));
    if OnFile(op.code) { NamedNow(t, w); } else if Opens(op.code) { ReservedNow(t, w); }
    forall h | h in wrote' ensures HandleOk(files, h) {
      if h in wrote { assert HandleOk(t.files, h); }
    }
    forall p | 0 <= p < |files| && files[p].open ensures files[p].written <==> (p, files[p].gen) in wrote' {
      if (p, files[p].gen) in wrote { assert HandleOk(t.files, (p, files[p].gen)); }
    }
  }

  lemma {:induction false} RunMarks(t: Table, steps: seq<Step>, after: Table, wrote: set<(nat, nat)>)
    requires Inv(t) && Run(t, steps, after) && WrittenOk(t.files, wrote)
    ensures after.marked <==> t.marked || Ruined(t, steps, wrote)
    decreases |steps|
  {
    hide Inv, WrittenOk, RunOp, Enabled;
    if steps != [] {
      var s, next := steps[0], Do(t, steps[0]).table;
      StepKeeps(t, s);
      StepMarks(t, s, wrote);
      RunMarks(next, steps[1..], after, wrote + WroteNow(t, s));
    }
  }

  lemma StepMarks(t: Table, s: Step, wrote: set<(nat, nat)>)
    requires Inv(t) && Enabled(t, s) && Do(t, s).Next? && WrittenOk(t.files, wrote)
    ensures WrittenOk(Do(t, s).table.files, wrote + WroteNow(t, s))
    ensures Do(t, s).table.marked <==> t.marked || Ruins(t, s, wrote)
  {
    hide Inv, WrittenOk, RunOp, TakePrefix;
    if s.Operates? {
      OperateMarks(t, s.w, s.answer, wrote);
    } else {
      OthersUse(t, s);
      SameWritten(t.files, Do(t, s).table.files, wrote);
      assert wrote + WroteNow(t, s) == wrote;
    }
  }

  /** The store is marked as failed exactly when, in the run, a sync failed or the close of a handle that had been written
      through: no other failure marks it, and none of these is forgotten. */
  lemma MarkedIff(steps: seq<Step>, t: Table)
    requires Run(Start(), steps, t)
    ensures t.marked <==> Ruined(Start(), steps, {})
  {
    hide Inv;
    StartInv();
    RunMarks(Start(), steps, t, {});
  }

  // ---- What a job may ask for

  /** An operation within its bounds: of the fourteen; its data in the 16384 octets of its job and its place in the file
      below two to the 63; its names of the five kinds, the journal by its one name alone and neither removed, renamed nor
      renamed over. */
  predicate Within(op: Op) {
    && 1 <= op.code <= 14
    && (op.code in {3, 4, 13} ==> op.at + op.length <= 16384 && op.offset + op.length < 0x8000_0000_0000_0000)
    && (op.code == 13 ==> op.length >= 1)
    && (op.code == 10 ==> op.length < 0x8000_0000_0000_0000)
    && (op.code in {1, 2} ==> 1 <= op.name <= 5 && (op.name == 1 ==> op.number == 0))
    && (op.code in {8, 9} ==> 2 <= op.name <= 5)
    && (op.code == 8 ==> 2 <= op.toName <= 5)
  }

  /** That is what is checked of each operation of a job. */
  lemma FormIs(op: Op)
    ensures WellFormed(op) <==> Within(op)
  {
  }

  lemma {:induction false} TakenWithin(files: seq<File>, ops: seq<Op>, k: nat, i: nat)
    requires i <= |ops| && TakePrefix(files, ops, k, i).Going?
    ensures forall a {:trigger ops[a]} :: 0 <= a < i ==> Within(ops[a])
  {
    hide WellFormed, Within, MayName, LowestFree;
    if i > 0 {
      TakenWithin(files, ops, k, i - 1);
      FormIs(ops[i - 1]);
    }
  }

  ghost predicate AllWithin(t: Table) {
    forall k, i {:trigger t.jobs[k].ops[i]} :: 0 <= k < |t.jobs| && !t.jobs[k].state.Free? && 0 <= i < |t.jobs[k].ops| ==>
      Within(t.jobs[k].ops[i])
  }

  lemma StepWithin(t: Table, s: Step)
    requires Inv(t) && AllWithin(t) && Enabled(t, s) && Do(t, s).Next?
    ensures AllWithin(Do(t, s).table)
  {
    hide Inv, RunOp, TakePrefix, Within;
    match s {
      case Emits(k, gen, ops) => TakenWithin(t.files, ops, k, |ops|);
      case Operates(w, a) =>
        RunsJob(t, w);
        RunMoves(t, w, a);
        SameOps(t, Do(t, s).table);
      case Begins(w) =>
        JobShape(t, t.queue[0]);
        SameOps(t, Do(t, s).table);
      case Marks(w) =>
        RunningNow(t, w);
        SameOps(t, Do(t, s).table);
      case Gives =>
        forall k | 0 <= k < |t.jobs| ensures var j := Give(t, |t.jobs|).jobs[k]; j == t.jobs[k] || j.state.Free? {
          GivesJob(t, |t.jobs|, k);
        }
        SameOps(t, Do(t, s).table);
      case _ =>
    }
  }

  lemma SameOps(t: Table, t': Table)
    requires AllWithin(t) && |t'.jobs| == |t.jobs|
    requires forall k {:trigger t'.jobs[k]} :: 0 <= k < |t.jobs| ==>
      (t'.jobs[k].state.Free? || (t'.jobs[k].ops == t.jobs[k].ops && !t.jobs[k].state.Free?))
    ensures AllWithin(t')
  {
    hide Within;
    forall k, i | 0 <= k < |t'.jobs| && !t'.jobs[k].state.Free? && 0 <= i < |t'.jobs[k].ops| ensures Within(t'.jobs[k].ops[i]) {
      assert Within(t.jobs[k].ops[i]);
    }
  }

  lemma {:induction false} RunWithin(t: Table, steps: seq<Step>, after: Table)
    requires Inv(t) && AllWithin(t) && Run(t, steps, after)
    ensures AllWithin(after)
    decreases |steps|
  {
    hide Inv, AllWithin, Do, Enabled;
    if steps != [] {
      StepKeeps(t, steps[0]);
      StepWithin(t, steps[0]);
      RunWithin(Do(t, steps[0]).table, steps[1..], after);
    }
  }

  /** In every run an operation that runs is within its bounds. */
  lemma RunsWithin(t: Table, w: nat)
    requires Reached(t) && Runs(t, w)
    ensures Within(Current(t, w).2)
  {
    hide Inv, Within;
    var steps :| Run(Start(), steps, t);
    StartInv();
    assert AllWithin(Start());
    RunWithin(Start(), steps, t);
    ReachedInv(t);
    RunningNow(t, w);
  }
}
