/** What every step of the job engine keeps, and what follows for every run. */
module JobSafety {
  import opened Jobs

  // ---- What a job holds

  predicate Unfinished(j: Job) { !j.state.Free? }

  /** An operation still to run. */
  predicate Pending(j: Job, i: int) {
    0 <= i < |j.ops| && (j.state.Queued? || (j.state.Running? && j.failure == 0 && i >= j.next))
  }

  /** An open that succeeded. */
  predicate HasOpened(j: Job, i: int) {
    (j.state.Running? || j.state.Done?) && 0 <= i < j.next && i < |j.ops| && Opens(j.ops[i].code)
  }

  predicate Shape(j: Job) {
    && |j.results| == |j.wrote| == OPS
    && (Unfinished(j) ==> 1 <= |j.ops| <= OPS && |j.place| == |j.ops| && j.dirSync == SyncsDir(j.ops))
    && (j.state.Running? || j.state.Done? ==> j.next <= |j.ops| && (j.failure != 0 ==> j.next < |j.ops|))
    && (j.state.Done? ==> j.next == |j.ops| || j.failure != 0)
  }

  /** A place an operation names is its job's, and for one still to run open at the generation named. */
  predicate NamedOk(files: seq<File>, k: nat, j: Job, i: nat)
    requires i < |j.ops|
  {
    var op := j.ops[i];
    OnFile(op.code) ==>
      && op.place < |files|
      && var f := files[op.place];
      && f.busy == k + 1
      && (Pending(j, i) ==>
            && f.open && f.gen == op.gen
            && ((op.code == LIST) == f.listing || op.code == CLOSE)
            && (op.code == LIST ==> op.offset <= f.count))
  }

  /** A place is reserved for each open still to run. */
  predicate ReservedOk(files: seq<File>, j: Job, i: nat)
    requires i < |j.ops| == |j.place|
  {
    && -1 <= j.place[i] < |files|
    && (j.place[i] >= 0 ==> Opens(j.ops[i].code) && files[j.place[i]].reserved)
    && (Pending(j, i) && Opens(j.ops[i].code) ==> j.place[i] >= 0)
  }

  /** The handle an open gave is open, and its job's. */
  predicate OpenedOk(files: seq<File>, k: nat, j: Job, i: nat)
    requires i < |j.ops| <= |j.results|
  {
    HasOpened(j, i) ==>
      var (p, g) := j.results[i];
      p < |files| && files[p].open && files[p].gen == g && files[p].busy == k + 1
  }

  /** Nothing of a job follows a close of the place it names, and none names a place the job opens. */
  predicate Apart(j: Job)
    requires |j.ops| <= |j.results|
  {
    && (forall a, b {:trigger j.ops[a], j.ops[b]} :: 0 <= a < b < |j.ops| && Pending(j, a) && j.ops[a].code == CLOSE ==>
          !(OnFile(j.ops[b].code) && j.ops[b].place == j.ops[a].place))
    && (forall a, b {:trigger j.ops[a], j.results[b]} :: 0 <= a < |j.ops| && 0 <= b < |j.ops| && HasOpened(j, b) ==>
          !(OnFile(j.ops[a].code) && j.ops[a].place == j.results[b].0))
  }

  predicate JobOk(files: seq<File>, k: nat, j: Job) {
    && Shape(j)
    && (Unfinished(j) ==>
          && (forall i {:trigger j.ops[i]} :: 0 <= i < |j.ops| ==>
                NamedOk(files, k, j, i) && ReservedOk(files, j, i) && OpenedOk(files, k, j, i))
          && Apart(j))
  }

  // ---- The invariant

  ghost predicate JobsOk(files: seq<File>, jobs: seq<Job>) {
    forall k {:trigger jobs[k]} :: 0 <= k < |jobs| ==> JobOk(files, k, jobs[k])
  }

  /** Operation `i` of job `k` has the reservation of place `p`. */
  predicate Owns(jobs: seq<Job>, k: int, i: int, p: int) {
    0 <= k < |jobs| && Unfinished(jobs[k]) && 0 <= i < |jobs[k].place| && jobs[k].place[i] == p
  }

  ghost predicate OneOwner(jobs: seq<Job>) {
    forall k, i, k', i', p :: p >= 0 && Owns(jobs, k, i, p) && Owns(jobs, k', i', p) ==> k == k' && i == i'
  }

  ghost predicate FileOk(jobs: seq<Job>, p: int, f: File) {
    && (f.reserved ==> !f.open && f.busy == 0 && exists k, i :: Owns(jobs, k, i, p))
    && (f.busy > 0 ==> f.busy <= |jobs| && Unfinished(jobs[f.busy - 1]))
  }

  ghost predicate FilesOk(files: seq<File>, jobs: seq<Job>) {
    forall p {:trigger files[p]} :: 0 <= p < |files| ==> FileOk(jobs, p, files[p])
  }

  predicate Holds(f: File) { f.open && !f.listing }

  /** The descriptors open are those of the open files, each of one. */
  ghost predicate LiveOk(files: seq<File>, live: set<int>) {
    && (forall p {:trigger files[p]} :: 0 <= p < |files| && Holds(files[p]) ==> files[p].fd in live)
    && (forall p, q {:trigger files[p], files[q]} :: 0 <= p < q < |files| && Holds(files[p]) && Holds(files[q]) ==>
          files[p].fd != files[q].fd)
    && (forall d :: d in live ==> exists p :: 0 <= p < |files| && Holds(files[p]) && files[p].fd == d)
  }

  /** A handle given out is open at its generation, or its place has a later one. */
  predicate HandleOk(files: seq<File>, h: (nat, nat)) {
    h.0 < |files| && (h.1 < files[h.0].gen || (h.1 == files[h.0].gen && files[h.0].open))
  }

  ghost predicate HandedOk(files: seq<File>, handed: seq<(nat, nat)>) {
    && (forall a {:trigger handed[a]} :: 0 <= a < |handed| ==> HandleOk(files, handed[a]))
    && (forall a, b {:trigger handed[a], handed[b]} :: 0 <= a < b < |handed| ==> handed[a] != handed[b])
  }

  ghost predicate QueueOk(queue: seq<nat>, jobs: seq<Job>) {
    && (forall a {:trigger queue[a]} :: 0 <= a < |queue| ==> queue[a] < |jobs| && jobs[queue[a]].state.Queued?)
    && (forall a, b {:trigger queue[a], queue[b]} :: 0 <= a < b < |queue| ==> queue[a] != queue[b])
    && (forall k {:trigger jobs[k]} :: 0 <= k < |jobs| && jobs[k].state.Queued? ==> k in queue)
  }

  ghost predicate WorkersOk(workers: seq<Worker>, jobs: seq<Job>) {
    && (forall w {:trigger workers[w]} :: 0 <= w < |workers| && workers[w].At? ==>
          workers[w].job < |jobs| && jobs[workers[w].job].state.Running?)
    && (forall v, w {:trigger workers[v], workers[w]} :: 0 <= v < w < |workers| && workers[v].At? && workers[w].At? ==>
          workers[v].job != workers[w].job)
    && (forall k {:trigger jobs[k]} :: 0 <= k < |jobs| && jobs[k].state.Running? ==> At(k) in workers)
  }

  predicate SyncsNow(j: Job) { Unfinished(j) && j.dirSync }

  ghost predicate DirOk(jobs: seq<Job>, dirSyncs: nat) {
    && dirSyncs <= 1
    && (forall k {:trigger jobs[k]} :: 0 <= k < |jobs| && SyncsNow(jobs[k]) ==> dirSyncs == 1)
    && (forall k, k' {:trigger jobs[k], jobs[k']} :: 0 <= k < k' < |jobs| && SyncsNow(jobs[k]) ==> !SyncsNow(jobs[k']))
    && (dirSyncs == 1 ==> exists k :: 0 <= k < |jobs| && SyncsNow(jobs[k]))
  }

  /** The job failed where the store's durability may have failed. */
  predicate LostSync(j: Job) {
    && (j.state.Running? || j.state.Done?) && j.failure != 0 && j.next < |j.ops| && j.next < |j.wrote|
    && Syncs(j.ops[j.next].code) && (j.ops[j.next].code == CLOSE ==> j.wrote[j.next])
  }

  ghost predicate MarkOk(jobs: seq<Job>, marked: bool) {
    forall k {:trigger jobs[k]} :: 0 <= k < |jobs| && LostSync(jobs[k]) ==> marked
  }

  predicate WakeOk(t: Table) { SomeDone(t) ==>
    t.wake > 0 || Writing in t.workers || t.loop.Drained? || t.loop == Checked(true) }

  ghost predicate Inv(t: Table) {
    && |t.files| == PLACES && |t.jobs| == JOBS && |t.workers| == WORKERS
    && JobsOk(t.files, t.jobs) && OneOwner(t.jobs) && FilesOk(t.files, t.jobs)
    && LiveOk(t.files, t.live) && HandedOk(t.files, t.handed)
    && QueueOk(t.queue, t.jobs) && WorkersOk(t.workers, t.jobs)
    && DirOk(t.jobs, t.dirSyncs) && MarkOk(t.jobs, t.marked) && WakeOk(t)
  }

  // ---- Frames

  /** The same but for whether it was written. */
  predicate Alike(f: File, g: File) { g == f.(written := g.written) }

  predicate Keeps(files: seq<File>, files': seq<File>, k: nat, j: Job) {
    && |files'| == |files|
    && forall p {:trigger files'[p]} ::
      0 <= p < |files| && (files[p].busy == k + 1 || (files[p].reserved && p in j.place)) ==>
         Alike(files[p], files'[p])
  }

  /** A job is not touched by what happens to places that are not its. */
  lemma JobFrame(files: seq<File>, files': seq<File>, k: nat, j: Job)
    requires JobOk(files, k, j) && Keeps(files, files', k, j)
    ensures JobOk(files', k, j)
  {
    if Unfinished(j) {
      forall i | 0 <= i < |j.ops|
        ensures NamedOk(files', k, j, i) && ReservedOk(files', j, i) && OpenedOk(files', k, j, i)
      {
        assert NamedOk(files, k, j, i) && ReservedOk(files, j, i) && OpenedOk(files, k, j, i);
        if j.place[i] >= 0 { assert j.place[i] in j.place && Alike(files[j.place[i]], files'[j.place[i]]); }
        if OnFile(j.ops[i].code) { assert Alike(files[j.ops[i].place], files'[j.ops[i].place]); }
        if HasOpened(j, i) { assert Alike(files[j.results[i].0], files'[j.results[i].0]); }
      }
    }
  }

  // ---- Taking a job

  /** What taking does to a place: a free one may become reserved, an open one the job's. */
  predicate FileTook(f: File, f': File, k: nat) {
    && f' == f.(busy := f'.busy, reserved := f'.reserved)
    && (f'.busy == f.busy || (f'.busy == k + 1 && f.open && f.busy == 0))
    && (f'.reserved == f.reserved || (f'.reserved && !Taken(f)))
  }

  /** What taking makes of one operation. */
  predicate OpTook(files: seq<File>, files': seq<File>, k: nat, op: Op, p: int)
    requires |files| == |files'|
  {
    && -1 <= p < |files|
    && (p >= 0 <==> Opens(op.code))
    && (p >= 0 ==> !Taken(files[p]) && files'[p].reserved)
    && (OnFile(op.code) ==>
          && op.place < |files|
          && var f := files'[op.place];
          && f.busy == k + 1 && f.open && f.gen == op.gen
          && ((op.code == LIST) == f.listing || op.code == CLOSE)
          && (op.code == LIST ==> op.offset <= f.count))
  }

  ghost predicate Took(files: seq<File>, p: Progress, ops: seq<Op>, k: nat, i: nat)
    requires p.Going? && i <= |ops|
  {
    && |p.files| == |files| && |p.place| == i
    && (forall q {:trigger p.files[q]} :: 0 <= q < |files| ==> FileTook(files[q], p.files[q], k))
    && (forall q {:trigger p.files[q]} :: 0 <= q < |files| && p.files[q].reserved && !files[q].reserved ==>
      q in p.place)
    && (forall a {:trigger ops[a]} :: 0 <= a < i ==> OpTook(files, p.files, k, ops[a], p.place[a]))
    && (forall a, b {:trigger p.place[a], p.place[b]} :: 0 <= a < b < i && p.place[a] >= 0 ==> p.place[a] != p.place[b])
    && (forall a {:trigger ops[a]} :: 0 <= a < i && ops[a].code == CLOSE ==> ops[a].place in p.closed)
    && (forall a, b {:trigger ops[a], ops[b]} :: 0 <= a < b < i && ops[a].code == CLOSE ==>
          !(OnFile(ops[b].code) && ops[b].place == ops[a].place))
  }

  lemma {:induction false} TakeTook(files: seq<File>, ops: seq<Op>, k: nat, i: nat)
    requires i <= |ops| && TakePrefix(files, ops, k, i).Going?
    requires forall q {:trigger files[q]} :: 0 <= q < |files| ==> files[q].busy != k + 1
    ensures Took(files, TakePrefix(files, ops, k, i), ops, k, i)
  {
    if i > 0 {
      TakeTook(files, ops, k, i - 1);
      TookOne(files, TakePrefix(files, ops, k, i - 1), ops, k, i);
    }
  }

  lemma TookOne(files: seq<File>, p: Progress, ops: seq<Op>, k: nat, i: nat)
    requires 0 < i <= |ops| && p.Going? && Took(files, p, ops, k, i - 1) && TakeOne(p, ops[i - 1], k).Going?
    ensures Took(files, TakeOne(p, ops[i - 1], k), ops, k, i)
  {
    hide WellFormed, Took;
    var op, p' := ops[i - 1], TakeOne(p, ops[i - 1], k);
    if Opens(op.code) {
      TookOpen(files, p, ops, k, i, LowestFree(p.files, 0));
    } else if OnFile(op.code) {
      TookName(files, p, ops, k, i);
    } else {
      TookOther(files, p, ops, k, i);
    }
  }

  lemma TookOpen(files: seq<File>, p: Progress, ops: seq<Op>, k: nat, i: nat, r: nat)
    requires 0 < i <= |ops| && p.Going? && Took(files, p, ops, k, i - 1) && Opens(ops[i - 1].code)
    requires r < |p.files| && !Taken(p.files[r])
    ensures Took(files, p.(files := p.files[r := p.files[r].(reserved := true)], place := p.place + [r]), ops, k, i)
  {
    var p' := p.(files := p.files[r := p.files[r].(reserved := true)], place := p.place + [r]);
    assert FileTook(files[r], p.files[r], k);
    forall a | 0 <= a < i ensures OpTook(files, p'.files, k, ops[a], p'.place[a]) {
      if a < i - 1 { assert OpTook(files, p.files, k, ops[a], p.place[a]); }
    }
    forall q | 0 <= q < |files| && p'.files[q].reserved && !files[q].reserved ensures q in p'.place {
      if p.files[q].reserved { assert q in p.place; } else { assert p'.place[i - 1] == q; }
    }
  }

  // The parts of `Took`, each on its own when a job names a place.

  ghost predicate FilesTook(files: seq<File>, files': seq<File>, place: seq<int>, k: nat) {
    && |files'| == |files|
    && (forall q {:trigger files'[q]} :: 0 <= q < |files| ==> FileTook(files[q], files'[q], k))
    && (forall q {:trigger files'[q]} :: 0 <= q < |files| && files'[q].reserved && !files[q].reserved ==> q in place)
  }

  ghost predicate ClosedTook(ops: seq<Op>, closed: set<nat>, i: nat)
    requires i <= |ops|
  {
    && (forall a {:trigger ops[a]} :: 0 <= a < i && ops[a].code == CLOSE ==> ops[a].place in closed)
    && (forall a, b {:trigger ops[a], ops[b]} :: 0 <= a < b < i && ops[a].code == CLOSE ==>
          !(OnFile(ops[b].code) && ops[b].place == ops[a].place))
  }

  lemma AllTook(files: seq<File>, p: Progress, p': Progress, ops: seq<Op>, k: nat, i: nat)
    requires 0 < i <= |ops| && p.Going? && p'.Going? && Took(files, p, ops, k, i - 1) && p'.place == p.place + [-1]
    requires FilesTook(files, p'.files, p'.place, k) && ClosedTook(ops, p'.closed, i)
    requires forall a {:trigger ops[a]} :: 0 <= a < i ==> OpTook(files, p'.files, k, ops[a], p'.place[a])
    ensures Took(files, p', ops, k, i)
  {
    hide FileTook, OpTook;
  }

  lemma NamedFiles(files: seq<File>, p: Progress, ops: seq<Op>, k: nat, i: nat)
    requires 0 < i <= |ops| && p.Going? && Took(files, p, ops, k, i - 1) && MayName(p.files, p.closed, ops[i - 1], k)
    ensures ops[i - 1].place < |p.files|
    ensures FilesTook(files, p.files[ops[i - 1].place := p.files[ops[i - 1].place].(busy := k + 1)], p.place + [-1], k)
  {
    hide OpTook;
    var r := ops[i - 1].place;
    assert FileTook(files[r], p.files[r], k);
    forall q | 0 <= q < |files| && p.files[q].reserved && !files[q].reserved ensures q in p.place + [-1] {
      assert q in p.place;
    }
  }

  lemma NamedOps(files: seq<File>, p: Progress, ops: seq<Op>, k: nat, i: nat)
    requires 0 < i <= |ops| && p.Going? && Took(files, p, ops, k, i - 1) && OnFile(ops[i - 1].code)
    requires MayName(p.files, p.closed, ops[i - 1], k)
    ensures ops[i - 1].place < |p.files| && |p.files| == |files| && |p.place| == i - 1
    ensures var files' := p.files[ops[i - 1].place := p.files[ops[i - 1].place].(busy := k + 1)];
      forall a {:trigger ops[a]} :: 0 <= a < i ==> OpTook(files, files', k, ops[a], (p.place + [-1])[a])
  {
    hide FileTook;
    var files' := p.files[ops[i - 1].place := p.files[ops[i - 1].place].(busy := k + 1)];
    forall a | 0 <= a < i ensures OpTook(files, files', k, ops[a], (p.place + [-1])[a]) {
      if a < i - 1 { assert OpTook(files, p.files, k, ops[a], p.place[a]); }
    }
  }

  lemma NamedClosed(files: seq<File>, p: Progress, ops: seq<Op>, k: nat, i: nat)
    requires 0 < i <= |ops| && p.Going? && Took(files, p, ops, k, i - 1) && MayName(p.files, p.closed, ops[i - 1], k)
    ensures ClosedTook(ops, if ops[i - 1].code == CLOSE then p.closed + {ops[i - 1].place} else p.closed, i)
  {
    hide FileTook, OpTook;
  }

  lemma TookName(files: seq<File>, p: Progress, ops: seq<Op>, k: nat, i: nat)
    requires 0 < i <= |ops| && p.Going? && Took(files, p, ops, k, i - 1) && OnFile(ops[i - 1].code)
    requires MayName(p.files, p.closed, ops[i - 1], k)
    ensures var op := ops[i - 1];
      Took(files, p.(files := p.files[op.place := p.files[op.place].(busy := k + 1)],
                     closed := if op.code == CLOSE then p.closed + {op.place} else p.closed,
                     place := p.place + [-1]), ops, k, i)
  {
    hide Took, OpTook, FileTook, MayName;
    var op := ops[i - 1];
    NamedFiles(files, p, ops, k, i);
    NamedOps(files, p, ops, k, i);
    NamedClosed(files, p, ops, k, i);
    AllTook(files, p, p.(files := p.files[op.place := p.files[op.place].(busy := k + 1)],
                         closed := if op.code == CLOSE then p.closed + {op.place} else p.closed,
                         place := p.place + [-1]), ops, k, i);
  }

  lemma TookOther(files: seq<File>, p: Progress, ops: seq<Op>, k: nat, i: nat)
    requires 0 < i <= |ops| && p.Going? && Took(files, p, ops, k, i - 1)
    requires !Opens(ops[i - 1].code) && !OnFile(ops[i - 1].code)
    ensures Took(files, p.(place := p.place + [-1]), ops, k, i)
  {
    var p' := p.(place := p.place + [-1]);
    forall a | 0 <= a < i ensures OpTook(files, p'.files, k, ops[a], p'.place[a]) {
      if a < i - 1 { assert OpTook(files, p.files, k, ops[a], p.place[a]); }
    }
  }

  /** The same file is open there. */
  predicate SameFile(f: File, g: File) { f.open == g.open && f.gen == g.gen && f.fd == g.fd && f.listing == g.listing }

  lemma SameHandles(files: seq<File>, files': seq<File>, live: set<int>, handed: seq<(nat, nat)>)
    requires |files| == |files'| && LiveOk(files, live) && HandedOk(files, handed)
    requires forall p {:trigger files'[p]} :: 0 <= p < |files| ==> SameFile(files[p], files'[p])
    ensures LiveOk(files', live) && HandedOk(files', handed)
  {
    forall d | d in live ensures exists p :: 0 <= p < |files'| && Holds(files'[p]) && files'[p].fd == d {
      var p :| 0 <= p < |files| && Holds(files[p]) && files[p].fd == d;
      assert SameFile(files[p], files'[p]);
    }
  }

  lemma EmitJobs(t: Table, k: nat, gen: nat, ops: seq<Op>, p: Progress)
    requires Inv(t) && k < |t.jobs| && t.jobs[k].state.Free? && 1 <= |ops| <= OPS
    requires p.Going? && Took(t.files, p, ops, k, |ops|)
    ensures JobsOk(p.files, t.jobs[k := Accepted(t.jobs[k], gen, ops, p.place)])
  {
    hide SyncsDir;
    var j := Accepted(t.jobs[k], gen, ops, p.place);
    var jobs := t.jobs[k := j];
    forall k' | 0 <= k' < |jobs| ensures JobOk(p.files, k', jobs[k']) {
      if k' == k {
        forall i | 0 <= i < |ops|
          ensures NamedOk(p.files, k, j, i) && ReservedOk(p.files, j, i) && OpenedOk(p.files, k, j, i)
        {
          assert OpTook(t.files, p.files, k, ops[i], p.place[i]);
        }
        assert JobOk(t.files, k, t.jobs[k]);
      } else {
        assert JobOk(t.files, k', jobs[k']);
        forall q | 0 <= q < |t.files| && (t.files[q].busy == k' + 1 || (t.files[q].reserved && q in jobs[k'].place))
          ensures Alike(t.files[q], p.files[q])
        {
          assert FileTook(t.files[q], p.files[q], k) && FileOk(t.jobs, q, t.files[q]);
        }
        JobFrame(t.files, p.files, k', jobs[k']);
      }
    }
  }

  lemma EmitOwners(t: Table, k: nat, gen: nat, ops: seq<Op>, p: Progress)
    requires Inv(t) && k < |t.jobs| && t.jobs[k].state.Free?
    requires p.Going? && Took(t.files, p, ops, k, |ops|)
    ensures OneOwner(t.jobs[k := Accepted(t.jobs[k], gen, ops, p.place)])
  {
    var jobs := t.jobs[k := Accepted(t.jobs[k], gen, ops, p.place)];
    forall a, i, b, i', q | q >= 0 && Owns(jobs, a, i, q) && Owns(jobs, b, i', q) ensures a == b && i == i' {
      if a == k && b != k {
        NotOwned(t, ops, p, k, i, b, i');
      } else if a != k && b == k {
        NotOwned(t, ops, p, k, i', a, i);
      } else if a != k {
        assert Owns(t.jobs, a, i, q) && Owns(t.jobs, b, i', q);
      }
    }
  }

  /** A place reserved for the job was no other's. */
  lemma NotOwned(t: Table, ops: seq<Op>, p: Progress, k: nat, i: nat, b: nat, i': nat)
    requires Inv(t) && p.Going? && Took(t.files, p, ops, k, |ops|) && i < |p.place| && p.place[i] >= 0
    requires b < |t.jobs| && Unfinished(t.jobs[b]) && i' < |t.jobs[b].place|
    ensures t.jobs[b].place[i'] != p.place[i]
  {
    assert OpTook(t.files, p.files, k, ops[i], p.place[i]);
    assert JobOk(t.files, b, t.jobs[b]);
    OpOk(t.files, b, t.jobs[b], i');
  }

  lemma EmitFiles(t: Table, k: nat, gen: nat, ops: seq<Op>, p: Progress)
    requires Inv(t) && k < |t.jobs| && t.jobs[k].state.Free?
    requires p.Going? && Took(t.files, p, ops, k, |ops|)
    ensures FilesOk(p.files, t.jobs[k := Accepted(t.jobs[k], gen, ops, p.place)])
  {
    var jobs := t.jobs[k := Accepted(t.jobs[k], gen, ops, p.place)];
    forall q | 0 <= q < |p.files| ensures FileOk(jobs, q, p.files[q]) {
      assert FileTook(t.files[q], p.files[q], k) && FileOk(t.jobs, q, t.files[q]);
      if p.files[q].reserved {
        if t.files[q].reserved {
          var a, i :| Owns(t.jobs, a, i, q);
          assert Owns(jobs, a, i, q);
        } else {
          var i :| 0 <= i < |p.place| && p.place[i] == q;
          assert Owns(jobs, k, i, q);
        }
      }
    }
  }

  /** The tables with one job changed, each on its own. */
  lemma EmitQueue(queue: seq<nat>, jobs: seq<Job>, k: nat, j: Job)
    requires QueueOk(queue, jobs) && k < |jobs| && jobs[k].state.Free? && j.state.Queued?
    ensures QueueOk(queue + [k], jobs[k := j])
  {
    var queue', jobs' := queue + [k], jobs[k := j];
    forall a | 0 <= a < |jobs'| && jobs'[a].state.Queued? ensures a in queue' {
      if a == k { assert queue'[|queue|] == k; } else { assert a in queue; }
    }
  }

  lemma FreeWorkers(workers: seq<Worker>, jobs: seq<Job>, k: nat, j: Job)
    requires WorkersOk(workers, jobs) && k < |jobs| && !jobs[k].state.Running? && !j.state.Running?
    ensures WorkersOk(workers, jobs[k := j])
  {
  }

  lemma EmitDir(jobs: seq<Job>, dirSyncs: nat, k: nat, j: Job)
    requires DirOk(jobs, dirSyncs) && k < |jobs| && jobs[k].state.Free? && j.state.Queued?
    requires !(j.dirSync && dirSyncs > 0)
    ensures DirOk(jobs[k := j], dirSyncs + if j.dirSync then 1 else 0)
  {
    if j.dirSync {
      assert SyncsNow(jobs[k := j][k]);
    } else {
      SameSyncs(jobs, k, j, dirSyncs);
    }
  }

  lemma FreshMark(jobs: seq<Job>, marked: bool, k: nat, j: Job)
    requires MarkOk(jobs, marked) && k < |jobs| && !LostSync(j)
    ensures MarkOk(jobs[k := j], marked)
  {
  }

  lemma EmitTables(t: Table, k: nat, j: Job)
    requires Inv(t) && k < |t.jobs| && t.jobs[k].state.Free? && j.state.Queued? && !(j.dirSync && t.dirSyncs > 0)
    ensures QueueOk(t.queue + [k], t.jobs[k := j]) && WorkersOk(t.workers, t.jobs[k := j])
    ensures DirOk(t.jobs[k := j], t.dirSyncs + if j.dirSync then 1 else 0) && MarkOk(t.jobs[k := j], t.marked)
  {
    hide JobsOk, OneOwner, FilesOk, LiveOk, HandedOk, QueueOk, WorkersOk, DirOk, MarkOk;
    EmitQueue(t.queue, t.jobs, k, j);
    FreeWorkers(t.workers, t.jobs, k, j);
    EmitDir(t.jobs, t.dirSyncs, k, j);
    FreshMark(t.jobs, t.marked, k, j);
  }

  lemma EmitKeeps(t: Table, k: nat, gen: nat, ops: seq<Op>)
    requires Inv(t) && k < |t.jobs| && Emit(t, k, gen, ops).Next?
    ensures Inv(Emit(t, k, gen, ops).table)
  {
    hide JobsOk, OneOwner, FilesOk, LiveOk, HandedOk, QueueOk, WorkersOk, DirOk, MarkOk, TakePrefix, SyncsDir, Took;
    var p := TakePrefix(t.files, ops, k, |ops|);
    NotNamed(t, k);
    TakeTook(t.files, ops, k, |ops|);
    EmitJobs(t, k, gen, ops, p);
    EmitOwners(t, k, gen, ops, p);
    EmitFiles(t, k, gen, ops, p);
    EmitTables(t, k, Accepted(t.jobs[k], gen, ops, p.place));
    TookSame(t.files, p, ops, k);
    SameHandles(t.files, p.files, t.live, t.handed);
    var t' := Emit(t, k, gen, ops).table;
    assert t'.jobs == t.jobs[k := Accepted(t.jobs[k], gen, ops, p.place)];
    assert SomeDone(t') ==> SomeDone(t);
  }

  lemma NotNamed(t: Table, k: nat)
    requires Inv(t) && k < |t.jobs| && t.jobs[k].state.Free?
    ensures forall q {:trigger t.files[q]} :: 0 <= q < |t.files| ==> t.files[q].busy != k + 1
  {
    assert forall q {:trigger t.files[q]} :: 0 <= q < |t.files| ==> FileOk(t.jobs, q, t.files[q]);
  }

  lemma TookSame(files: seq<File>, p: Progress, ops: seq<Op>, k: nat)
    requires p.Going? && Took(files, p, ops, k, |ops|)
    ensures |p.files| == |files|
    ensures forall q {:trigger p.files[q]} :: 0 <= q < |files| ==> SameFile(files[q], p.files[q])
  {
    assert forall q {:trigger p.files[q]} :: 0 <= q < |files| ==> FileTook(files[q], p.files[q], k);
  }

  // ---- The workers

  /** Whose reservations are whose is kept when a job keeps its own. */
  lemma SameOwners(files: seq<File>, jobs: seq<Job>, k: nat, j: Job)
    requires k < |jobs| && Unfinished(jobs[k]) && Unfinished(j) && j.place == jobs[k].place
    requires OneOwner(jobs) && FilesOk(files, jobs)
    ensures OneOwner(jobs[k := j]) && FilesOk(files, jobs[k := j])
  {
    var jobs' := jobs[k := j];
    assert forall a, i, q {:trigger Owns(jobs', a, i, q)} {:trigger Owns(jobs, a, i, q)} ::
      Owns(jobs', a, i, q) == Owns(jobs, a, i, q);
    forall q | 0 <= q < |files| ensures FileOk(jobs', q, files[q]) {
      assert FileOk(jobs, q, files[q]);
    }
  }

  lemma OneJob(files: seq<File>, jobs: seq<Job>, k: nat, j: Job)
    requires k < |jobs| && JobsOk(files, jobs) && JobOk(files, k, j)
    ensures JobsOk(files, jobs[k := j])
  {
    var jobs' := jobs[k := j];
    forall a | 0 <= a < |jobs'| ensures JobOk(files, a, jobs'[a]) {
      if a != k { assert JobOk(files, a, jobs[a]); }
    }
  }

  /** A job that has as much or less left to run, and has opened nothing more, stays apart. */
  lemma StaysApart(j: Job, j': Job)
    requires |j.ops| <= |j.results| && |j'.ops| <= |j'.results| && Apart(j) && j'.ops == j.ops
    requires forall a {:trigger Pending(j', a)} :: Pending(j', a) ==> Pending(j, a)
    requires forall b {:trigger HasOpened(j', b)} :: HasOpened(j', b) ==>
      HasOpened(j, b) && j'.results[b] == j.results[b]
    ensures Apart(j')
  {
  }

  lemma BeginJob(files: seq<File>, k: nat, j: Job, j': Job)
    requires JobOk(files, k, j) && j.state.Queued?
    requires j' == j.(state := Running, results := Zeros((0, 0)), done := |j.ops|, failure := 0, next := 0)
    ensures JobOk(files, k, j')
  {
    forall i | 0 <= i < |j'.ops|
      ensures NamedOk(files, k, j', i) && ReservedOk(files, j', i) && OpenedOk(files, k, j', i)
    {
      assert NamedOk(files, k, j, i) && ReservedOk(files, j, i);
    }
    StaysApart(j, j');
  }

  lemma BeginQueue(queue: seq<nat>, jobs: seq<Job>, j: Job)
    requires QueueOk(queue, jobs) && queue != [] && queue[0] < |jobs| && j.state.Running?
    ensures QueueOk(queue[1..], jobs[queue[0] := j]) && jobs[queue[0]].state.Queued?
  {
    var k, queue', jobs' := queue[0], queue[1..], jobs[queue[0] := j];
    forall a | 0 <= a < |jobs'| && jobs'[a].state.Queued? ensures a in queue' {
      var b :| 0 <= b < |queue| && queue[b] == a;
      assert queue'[b - 1] == a;
    }
  }

  lemma BeginWorkers(workers: seq<Worker>, jobs: seq<Job>, w: nat, k: nat, j: Job)
    requires WorkersOk(workers, jobs) && w < |workers| && workers[w].Idle? && k < |jobs|
    requires jobs[k].state.Queued? && j.state.Running?
    ensures WorkersOk(workers[w := At(k)], jobs[k := j])
  {
    var workers', jobs' := workers[w := At(k)], jobs[k := j];
    forall a | 0 <= a < |jobs'| && jobs'[a].state.Running? ensures At(a) in workers' {
      if a == k {
        assert workers'[w] == At(k);
      } else {
        var v :| 0 <= v < |workers| && workers[v] == At(a);
        assert workers'[v] == At(a);
      }
    }
  }

  lemma BeginTables(t: Table, w: nat, j: Job)
    requires Inv(t) && w < |t.workers| && t.workers[w].Idle? && t.queue != []
    requires var k := t.queue[0]; k < |t.jobs| && j.state.Running? && j.dirSync == t.jobs[k].dirSync && j.failure == 0
    ensures var k := t.queue[0];
      && QueueOk(t.queue[1..], t.jobs[k := j]) && WorkersOk(t.workers[w := At(k)], t.jobs[k := j])
      && DirOk(t.jobs[k := j], t.dirSyncs) && MarkOk(t.jobs[k := j], t.marked)
  {
    hide JobsOk, OneOwner, FilesOk, LiveOk, HandedOk, QueueOk, WorkersOk, DirOk, MarkOk;
    var k := t.queue[0];
    BeginQueue(t.queue, t.jobs, j);
    BeginWorkers(t.workers, t.jobs, w, k, j);
    SameSyncs(t.jobs, k, j, t.dirSyncs);
    FreshMark(t.jobs, t.marked, k, j);
  }

  lemma SameSyncs(jobs: seq<Job>, k: nat, j: Job, dirSyncs: nat)
    requires DirOk(jobs, dirSyncs) && k < |jobs| && SyncsNow(j) == SyncsNow(jobs[k])
    ensures DirOk(jobs[k := j], dirSyncs)
  {
    if dirSyncs == 1 {
      var a :| 0 <= a < |jobs| && SyncsNow(jobs[a]);
      assert SyncsNow(jobs[k := j][a]);
    }
  }

  lemma BeginKeeps(t: Table, w: nat)
    requires Inv(t) && Enabled(t, Begins(w))
    ensures Inv(Begin(t, w))
  {
    var k, t' := t.queue[0], Begin(t, w);
    assert t.jobs[k].state.Queued? && JobOk(t.files, k, t.jobs[k]);
    hide JobsOk, OneOwner, FilesOk, LiveOk, HandedOk, QueueOk, WorkersOk, DirOk, MarkOk, JobOk;
    var j := t'.jobs[k];
    BeginJob(t.files, k, t.jobs[k], j);
    OneJob(t.files, t.jobs, k, j);
    SameOwners(t.files, t.jobs, k, j);
    BeginTables(t, w, j);
    SameDone(t, k, j);
    if Writing in t.workers {
      var v :| 0 <= v < |t.workers| && t.workers[v] == Writing;
      assert t'.workers[v] == Writing;
    }
  }

  lemma SameDone(t: Table, k: nat, j: Job)
    requires k < |t.jobs| && !j.state.Done?
    ensures SomeDone(t.(jobs := t.jobs[k := j])) ==> SomeDone(t)
  {
    var t' := t.(jobs := t.jobs[k := j]);
    if a :| 0 <= a < |t'.jobs| && t'.jobs[a].state == Done {
      assert a != k && t.jobs[a].state == Done;
    }
  }

  // ---- One operation

  /** The worker's job. */
  lemma RunsJob(t: Table, w: nat)
    requires Inv(t) && Runs(t, w)
    ensures var (k, j, op) := Current(t, w); j.state.Running? && JobOk(t.files, k, j) && Pending(j, j.next)
  {
    var k := t.workers[w].job;
    assert JobOk(t.files, k, t.jobs[k]);
  }

  lemma MovedQueue(queue: seq<nat>, jobs: seq<Job>, k: nat, j: Job)
    requires QueueOk(queue, jobs) && k < |jobs| && !jobs[k].state.Queued? && !j.state.Queued?
    ensures QueueOk(queue, jobs[k := j])
  {
  }

  lemma MovedWorkers(workers: seq<Worker>, jobs: seq<Job>, k: nat, j: Job)
    requires WorkersOk(workers, jobs) && k < |jobs| && jobs[k].state.Running? && j.state.Running?
    ensures WorkersOk(workers, jobs[k := j])
  {
  }

  lemma MovedMark(jobs: seq<Job>, marked: bool, marked': bool, k: nat, j: Job)
    requires MarkOk(jobs, marked) && k < |jobs| && (marked || LostSync(j) ==> marked')
    ensures MarkOk(jobs[k := j], marked')
  {
  }

  lemma MovedSame(t: Table, k: nat, j: Job, marked: bool)
    requires Inv(t) && k < |t.jobs| && t.jobs[k].state.Running? && j.state.Running?
    requires j.dirSync == t.jobs[k].dirSync && (t.marked || LostSync(j) ==> marked)
    ensures QueueOk(t.queue, t.jobs[k := j]) && WorkersOk(t.workers, t.jobs[k := j])
    ensures DirOk(t.jobs[k := j], t.dirSyncs) && MarkOk(t.jobs[k := j], marked)
  {
    hide JobsOk, OneOwner, FilesOk, LiveOk, HandedOk, QueueOk, WorkersOk, DirOk, MarkOk;
    MovedQueue(t.queue, t.jobs, k, j);
    MovedWorkers(t.workers, t.jobs, k, j);
    SameSyncs(t.jobs, k, j, t.dirSyncs);
    MovedMark(t.jobs, t.marked, marked, k, j);
  }

  /** An operation that opens and closes nothing, or an open that fails. */
  lemma PlainJob(files: seq<File>, k: nat, j: Job, a: Answer, r: (nat, nat))
    requires JobOk(files, k, j) && j.state.Running? && j.failure == 0 && j.next < |j.ops|
    requires a.Fails? || !Opens(j.ops[j.next].code)
    ensures JobOk(files, k, Moved(j, a, r))
  {
    var j' := Moved(j, a, r);
    forall i | 0 <= i < |j'.ops|
      ensures NamedOk(files, k, j', i) && ReservedOk(files, j', i) && OpenedOk(files, k, j', i)
    {
      assert NamedOk(files, k, j, i) && ReservedOk(files, j, i) && OpenedOk(files, k, j, i);
      assert HasOpened(j', i) ==> HasOpened(j, i) && j'.results[i] == j.results[i];
    }
    StaysApart(j, j');
  }

  lemma WrittenJobs(files: seq<File>, files': seq<File>, jobs: seq<Job>)
    requires JobsOk(files, jobs) && |files| == |files'| && FilesOk(files, jobs)
    requires forall p {:trigger files'[p]} :: 0 <= p < |files| ==> Alike(files[p], files'[p])
    ensures JobsOk(files', jobs) && FilesOk(files', jobs)
  {
    forall k | 0 <= k < |jobs| ensures JobOk(files', k, jobs[k]) {
      JobFrame(files, files', k, jobs[k]);
    }
    forall p | 0 <= p < |files'| ensures FileOk(jobs, p, files'[p]) {
      assert FileOk(jobs, p, files[p]) && Alike(files[p], files'[p]);
    }
  }

  lemma PlainKeeps(t: Table, w: nat, a: Answer)
    requires Inv(t) && Runs(t, w) && Answers(t, w, a)
    requires var op := Current(t, w).2; op.code != CLOSE && (a.Fails? || !Opens(op.code))
    ensures Inv(RunOp(t, w, a))
  {
    hide JobsOk, OneOwner, FilesOk, LiveOk, HandedOk, QueueOk, WorkersOk, DirOk, MarkOk, JobOk;
    RunsJob(t, w);
    var (k, j, op) := Current(t, w);
    var t' := RunOp(t, w, a);
    var j' := t'.jobs[k];
    PlainJob(t.files, k, j, a, Reported(op, a));
    PlainJob(t.files, k, j, a, (0, 0));
    OneJob(t.files, t.jobs, k, j');
    SameOwners(t.files, t.jobs, k, j');
    assert forall p {:trigger t'.files[p]} :: 0 <= p < |t.files| ==> Alike(t.files[p], t'.files[p]);
    WrittenJobs(t.files, t'.files, t'.jobs);
    SameHandles(t.files, t'.files, t.live, t.handed);
    MovedSame(t, k, j', t'.marked);
    SameDone(t, k, j');
  }

  /** Changing one place leaves the jobs it is not of. */
  lemma OtherJobs(t: Table, k: nat, p: nat, f: File)
    requires Inv(t) && k < |t.jobs| && p < |t.files|
    requires t.files[p].busy == 0 || t.files[p].busy == k + 1
    requires t.files[p].reserved ==> exists i :: Owns(t.jobs, k, i, p)
    ensures forall k' {:trigger t.jobs[k']} :: 0 <= k' < |t.jobs| && k' != k ==> JobOk(t.files[p := f], k', t.jobs[k'])
  {
    forall k' | 0 <= k' < |t.jobs| && k' != k ensures JobOk(t.files[p := f], k', t.jobs[k']) {
      var j := t.jobs[k'];
      assert JobOk(t.files, k', j);
      if Unfinished(j) && t.files[p].reserved && p in j.place {
        var i :| 0 <= i < |j.place| && j.place[i] == p;
        assert Owns(t.jobs, k', i, p);
      }
      if !Unfinished(j) {
        assert JobOk(t.files[p := f], k', j);
      } else {
        JobFrame(t.files, t.files[p := f], k', j);
      }
    }
  }

  /** The job that opened place `p`. */
  lemma OpenJob(files: seq<File>, k: nat, j: Job, f: File, j': Job)
    requires JobOk(files, k, j) && j.state.Running? && j.failure == 0 && j.next < |j.ops| && Opens(j.ops[j.next].code)
    requires 0 <= j.place[j.next] < |files|
    requires var p := j.place[j.next];
      && files[p].busy == 0 && f.open && f.busy == k + 1
      && j' == j.(next := j.next + 1, results := j.results[j.next := (p, f.gen)], place := j.place[j.next := -1])
    requires forall i :: 0 <= i < |j.place| && i != j.next ==> j.place[i] != j.place[j.next]
    ensures JobOk(files[j.place[j.next] := f], k, j')
  {
    var p := j.place[j.next];
    var files' := files[p := f];
    forall i | 0 <= i < |j'.ops|
      ensures NamedOk(files', k, j', i) && ReservedOk(files', j', i) && OpenedOk(files', k, j', i)
    {
      OpOk(files, k, j, i);
      assert HasOpened(j', i) ==> i == j.next || (HasOpened(j, i) && j'.results[i] == j.results[i]);
      assert Pending(j', i) ==> Pending(j, i);
    }
    OpenApart(files, k, j, j', p, f.gen);
  }

  lemma OpOk(files: seq<File>, k: nat, j: Job, i: nat)
    requires JobOk(files, k, j) && Unfinished(j) && i < |j.ops|
    ensures NamedOk(files, k, j, i) && ReservedOk(files, j, i) && OpenedOk(files, k, j, i)
  {
  }

  lemma OpenApart(files: seq<File>, k: nat, j: Job, j': Job, p: nat, g: nat)
    requires JobOk(files, k, j) && j.state.Running? && j.failure == 0 && j.next < |j.ops|
    requires p < |files| && files[p].busy == 0
    requires j' == j.(next := j.next + 1, results := j.results[j.next := (p, g)], place := j'.place)
    ensures Apart(j')
  {
    assert Apart(j);
    forall a, b | 0 <= a < |j'.ops| && 0 <= b < |j'.ops| && HasOpened(j', b)
      ensures !(OnFile(j'.ops[a].code) && j'.ops[a].place == j'.results[b].0)
    {
      OpOk(files, k, j, a);
      if b != j.next { assert HasOpened(j, b) && j'.results[b] == j.results[b]; }
    }
    assert forall a {:trigger Pending(j', a)} :: Pending(j', a) ==> Pending(j, a);
  }

  lemma OpenOwners(t: Table, k: nat, j': Job)
    requires Inv(t) && k < |t.jobs| && t.jobs[k].state.Running? && j'.state.Running?
    requires t.jobs[k].next < |t.jobs[k].place| && j'.place == t.jobs[k].place[t.jobs[k].next := -1]
    ensures OneOwner(t.jobs[k := j'])
    ensures forall q {:trigger t.files[q]} :: 0 <= q < |t.files| && q != t.jobs[k].place[t.jobs[k].next] ==>
      FileOk(t.jobs[k := j'], q, t.files[q])
  {
    var jobs := t.jobs[k := j'];
    assert forall a, i, q {:trigger Owns(jobs, a, i, q)} :: q >= 0 && Owns(jobs, a, i, q) ==> Owns(t.jobs, a, i, q);
    forall q | 0 <= q < |t.files| && q != t.jobs[k].place[t.jobs[k].next] ensures FileOk(jobs, q, t.files[q]) {
      assert FileOk(t.jobs, q, t.files[q]);
      if t.files[q].reserved {
        var a, i :| Owns(t.jobs, a, i, q);
        assert Owns(jobs, a, i, q);
      }
    }
  }

  lemma OpenLive(files: seq<File>, live: set<int>, p: nat, f: File)
    requires LiveOk(files, live) && p < |files| && !files[p].open && f.open && (!f.listing ==> f.fd !in live)
    ensures LiveOk(files[p := f], if f.listing then live else live + {f.fd})
  {
    var files' := files[p := f];
    var live' := if f.listing then live else live + {f.fd};
    forall d | d in live' ensures exists q :: 0 <= q < |files'| && Holds(files'[q]) && files'[q].fd == d {
      if d in live {
        var q :| 0 <= q < |files| && Holds(files[q]) && files[q].fd == d;
        assert files'[q] == files[q];
      } else {
        assert files'[p].fd == d;
      }
    }
  }

  lemma OpenHanded(files: seq<File>, handed: seq<(nat, nat)>, p: nat, f: File)
    requires HandedOk(files, handed) && p < |files| && !files[p].open && f.open && f.gen == files[p].gen
    ensures (p, f.gen) !in handed
    ensures HandedOk(files[p := f], handed + [(p, f.gen)])
  {
    var handed' := handed + [(p, f.gen)];
    forall a | 0 <= a < |handed'| ensures HandleOk(files[p := f], handed'[a]) {
      if a < |handed| { assert HandleOk(files, handed[a]); }
    }
    forall a | 0 <= a < |handed| ensures handed[a] != (p, f.gen) {
      assert HandleOk(files, handed[a]);
    }
  }

  /** The place reserved for the open a worker is at. */
  lemma ReservedNow(t: Table, w: nat)
    requires Inv(t) && Runs(t, w) && Opens(Current(t, w).2.code)
    ensures var (k, j, op) := Current(t, w);
      && 0 <= j.place[j.next] < |t.files|
      && var f := t.files[j.place[j.next]];
      && f.reserved && !f.open && f.busy == 0 && Owns(t.jobs, k, j.next, j.place[j.next])
      && forall i :: 0 <= i < |j.place| && i != j.next ==> j.place[i] != j.place[j.next]
  {
    RunsJob(t, w);
    var (k, j, op) := Current(t, w);
    var p := j.place[j.next];
    assert ReservedOk(t.files, j, j.next) && FileOk(t.jobs, p, t.files[p]);
    assert Owns(t.jobs, k, j.next, p);
    forall i | 0 <= i < |j.place| && i != j.next ensures j.place[i] != p {
      assert Owns(t.jobs, k, i, j.place[i]);
    }
  }

  lemma OpenKeeps(t: Table, w: nat, a: Answer)
    requires Inv(t) && Runs(t, w) && Answers(t, w, a) && Opens(Current(t, w).2.code) && !a.Fails?
    ensures Inv(RunOp(t, w, a))
  {
    RunsJob(t, w);
    ReservedNow(t, w);
    hide JobsOk, OneOwner, FilesOk, LiveOk, HandedOk, QueueOk, WorkersOk, DirOk, MarkOk, JobOk;
    var (k, j, op) := Current(t, w);
    var t', p := RunOp(t, w, a), j.place[j.next];
    var j', f := t'.jobs[k], t'.files[p];
    assert t'.files == t.files[p := f] && t'.jobs == t.jobs[k := j'];
    OpenJob(t.files, k, j, f, j');
    OtherJobs(t, k, p, f);
    OpenOwners(t, k, j');
    OneFile(t.files, p, f, t'.jobs, k);
    PutJobs(t'.files, t.jobs, k, j');
    OpenLive(t.files, t.live, p, f);
    OpenHanded(t.files, t.handed, p, f);
    MovedSame(t, k, j', t'.marked);
    SameDone(t, k, j');
  }

  lemma OneFile(files: seq<File>, p: nat, f: File, jobs: seq<Job>, k: nat)
    requires p < |files| && k < |jobs| && Unfinished(jobs[k]) && f.busy == k + 1 && !f.reserved
    requires forall q {:trigger files[q]} :: 0 <= q < |files| && q != p ==> FileOk(jobs, q, files[q])
    ensures FilesOk(files[p := f], jobs)
  {
    var files' := files[p := f];
    forall q | 0 <= q < |files'| ensures FileOk(jobs, q, files'[q]) {
      if q != p { assert FileOk(jobs, q, files[q]); }
    }
  }

  lemma PutJobs(files: seq<File>, jobs: seq<Job>, k: nat, j: Job)
    requires k < |jobs| && JobOk(files, k, j)
    requires forall a {:trigger jobs[a]} :: 0 <= a < |jobs| && a != k ==> JobOk(files, a, jobs[a])
    ensures JobsOk(files, jobs[k := j])
  {
  }

  // ---- Closing

  lemma CloseJob(files: seq<File>, k: nat, j: Job, a: Answer, f: File, wrote: seq<bool>)
    requires JobOk(files, k, j) && j.state.Running? && j.failure == 0 && j.next < |j.ops|
    requires j.ops[j.next].code == CLOSE && j.ops[j.next].place < |files| && f.busy == k + 1 && |wrote| == OPS
    requires !files[j.ops[j.next].place].reserved
    ensures JobOk(files[j.ops[j.next].place := f], k, Moved(j, a, (0, 0)).(wrote := wrote))
  {
    var p := j.ops[j.next].place;
    var j', files' := Moved(j, a, (0, 0)).(wrote := wrote), files[p := f];
    assert Apart(j);
    forall i | 0 <= i < |j'.ops|
      ensures NamedOk(files', k, j', i) && ReservedOk(files', j', i) && OpenedOk(files', k, j', i)
    {
      assert NamedOk(files, k, j, i) && ReservedOk(files, j, i) && OpenedOk(files, k, j, i);
      assert HasOpened(j', i) ==> HasOpened(j, i) && j'.results[i] == j.results[i];
      assert Pending(j', i) ==> Pending(j, i) && i > j.next;
      assert Pending(j, j.next) && OnFile(j.ops[j.next].code);
    }
    StaysApart(j, j');
  }

  lemma CloseLive(files: seq<File>, live: set<int>, p: nat, f: File)
    requires LiveOk(files, live) && p < |files| && files[p].open && !f.open
    ensures LiveOk(files[p := f], if files[p].listing then live else live - {files[p].fd})
  {
    var files' := files[p := f];
    var live' := if files[p].listing then live else live - {files[p].fd};
    forall d | d in live' ensures exists q :: 0 <= q < |files'| && Holds(files'[q]) && files'[q].fd == d {
      var q :| 0 <= q < |files| && Holds(files[q]) && files[q].fd == d;
      assert files'[q] == files[q];
    }
  }

  lemma CloseHanded(files: seq<File>, handed: seq<(nat, nat)>, p: nat, f: File)
    requires HandedOk(files, handed) && p < |files| && f.gen == files[p].gen + 1
    ensures HandedOk(files[p := f], handed)
  {
    forall a | 0 <= a < |handed| ensures HandleOk(files[p := f], handed[a]) {
      assert HandleOk(files, handed[a]);
    }
  }

  /** The place a worker's operation is on. */
  lemma NamedNow(t: Table, w: nat)
    requires Inv(t) && Runs(t, w) && OnFile(Current(t, w).2.code)
    ensures var (k, j, op) := Current(t, w);
      && op.place < |t.files|
      && var f := t.files[op.place];
      && f.open && f.gen == op.gen && f.busy == k + 1 && !f.reserved
      && ((op.code == LIST) == f.listing || op.code == CLOSE)
      && (op.code == LIST ==> op.offset <= f.count)
      && (!f.listing ==> f.fd in t.live)
  {
    RunsJob(t, w);
    var (k, j, op) := Current(t, w);
    assert NamedOk(t.files, k, j, j.next) && FileOk(t.jobs, op.place, t.files[op.place]);
  }

  lemma CloseKeeps(t: Table, w: nat, a: Answer)
    requires Inv(t) && Runs(t, w) && Answers(t, w, a) && Current(t, w).2.code == CLOSE
    ensures Inv(RunOp(t, w, a))
  {
    RunsJob(t, w);
    NamedNow(t, w);
    hide JobsOk, OneOwner, LiveOk, HandedOk, QueueOk, WorkersOk, DirOk, MarkOk, JobOk;
    var (k, j, op) := Current(t, w);
    var t', p := RunOp(t, w, a), op.place;
    var j', f := t'.jobs[k], t'.files[p];
    assert t'.files == t.files[p := f] && t'.jobs == t.jobs[k := j'];
    CloseJob(t.files, k, j, a, f, j'.wrote);
    OtherJobs(t, k, p, f);
    SameOwners(t.files, t.jobs, k, j');
    OneFile(t.files, p, f, t'.jobs, k);
    PutJobs(t'.files, t.jobs, k, j');
    CloseLive(t.files, t.live, p, f);
    CloseHanded(t.files, t.handed, p, f);
    MovedSame(t, k, j', t'.marked);
    SameDone(t, k, j');
  }

  // ---- Marking, waking and giving

  lemma MarkJob(files: seq<File>, k: nat, j: Job)
    requires JobOk(files, k, j) && j.state.Running? && (j.next == |j.ops| || j.failure != 0)
    ensures JobOk(files, k, j.(state := Done))
  {
    var j' := j.(state := Done);
    forall i | 0 <= i < |j'.ops|
      ensures NamedOk(files, k, j', i) && ReservedOk(files, j', i) && OpenedOk(files, k, j', i)
    {
      OpOk(files, k, j, i);
    }
    StaysApart(j, j');
  }

  lemma MarkWorkers(workers: seq<Worker>, jobs: seq<Job>, w: nat, j: Job)
    requires WorkersOk(workers, jobs) && w < |workers| && workers[w].At? && j.state.Done?
    ensures workers[w].job < |jobs| && jobs[workers[w].job].state.Running?
    ensures WorkersOk(workers[w := Writing], jobs[workers[w].job := j])
  {
    var workers', jobs' := workers[w := Writing], jobs[workers[w].job := j];
    forall a | 0 <= a < |jobs'| && jobs'[a].state.Running? ensures At(a) in workers' {
      var v :| 0 <= v < |workers| && workers[v] == At(a);
      assert workers'[v] == At(a);
    }
  }

  /** A job that has lost a sync has left the mark, still running or done. */
  lemma SameLost(jobs: seq<Job>, marked: bool, k: nat)
    requires MarkOk(jobs, marked) && k < |jobs| && jobs[k].state.Running?
    ensures LostSync(jobs[k].(state := Done)) ==> marked
  {
  }

  lemma MarkTables(t: Table, w: nat)
    requires Inv(t) && Enabled(t, Marks(w))
    ensures var t' := Mark(t, w);
      && QueueOk(t'.queue, t'.jobs) && WorkersOk(t'.workers, t'.jobs) && DirOk(t'.jobs, t'.dirSyncs)
      && MarkOk(t'.jobs, t'.marked) && WakeOk(t')
  {
    hide JobsOk, OneOwner, FilesOk, LiveOk, HandedOk, QueueOk, WorkersOk, DirOk, MarkOk;
    var k := t.workers[w].job;
    var j := t.jobs[k].(state := Done);
    MarkWorkers(t.workers, t.jobs, w, j);
    MovedQueue(t.queue, t.jobs, k, j);
    SameSyncs(t.jobs, k, j, t.dirSyncs);
    MovedMark(t.jobs, t.marked, t.marked || LostSync(j), k, j);
    SameLost(t.jobs, t.marked, k);
    assert Mark(t, w).workers[w] == Writing;
  }

  lemma MarkKeeps(t: Table, w: nat)
    requires Inv(t) && Enabled(t, Marks(w))
    ensures Inv(Mark(t, w))
  {
    var k := t.workers[w].job;
    assert t.jobs[k].state.Running? && JobOk(t.files, k, t.jobs[k]);
    hide JobsOk, OneOwner, FilesOk, LiveOk, HandedOk, QueueOk, WorkersOk, DirOk, MarkOk, JobOk, WakeOk;
    MarkTables(t, w);
    MarkJob(t.files, k, t.jobs[k]);
    OneJob(t.files, t.jobs, k, t.jobs[k].(state := Done));
    SameOwners(t.files, t.jobs, k, t.jobs[k].(state := Done));
  }

  lemma WakeKeeps(t: Table, w: nat)
    requires Inv(t) && Enabled(t, Wakes(w))
    ensures Inv(Wake(t, w))
  {
    hide JobsOk, OneOwner, FilesOk, LiveOk, HandedOk, QueueOk, DirOk, MarkOk;
    var t' := Wake(t, w);
    forall a | 0 <= a < |t'.jobs| && t'.jobs[a].state.Running? ensures At(a) in t'.workers {
      var v :| 0 <= v < |t.workers| && t.workers[v] == At(a);
      assert t'.workers[v] == At(a);
    }
  }

  lemma GiveJobs(t: Table, k: nat)
    requires Inv(t) && k < |t.jobs| && t.jobs[k].state.Done?
    ensures JobsOk(GiveOne(t, k).files, GiveOne(t, k).jobs)
  {
    var t', j := GiveOne(t, k), t.jobs[k];
    forall a | 0 <= a < |t'.jobs| ensures JobOk(t'.files, a, t'.jobs[a]) {
      assert JobOk(t.files, a, t.jobs[a]);
      if a != k && Unfinished(t.jobs[a]) {
        forall p | 0 <= p < |t.files| && (t.files[p].busy == a + 1 || (t.files[p].reserved && p in t.jobs[a].place))
          ensures Alike(t.files[p], t'.files[p])
        {
          OthersKeep(t, k, a, p);
        }
        JobFrame(t.files, t'.files, a, t.jobs[a]);
      }
    }
  }

  lemma OthersKeep(t: Table, k: nat, a: nat, p: nat)
    requires Inv(t) && k < |t.jobs| && t.jobs[k].state.Done? && a < |t.jobs| && a != k && Unfinished(t.jobs[a])
    requires p < |t.files| && (t.files[p].busy == a + 1 || (t.files[p].reserved && p in t.jobs[a].place))
    ensures Released(t.files[p], p, t.jobs[k], k) == t.files[p]
  {
    assert FileOk(t.jobs, p, t.files[p]);
    if t.files[p].reserved && p in t.jobs[k].place {
      var i :| 0 <= i < |t.jobs[k].place| && t.jobs[k].place[i] == p;
      var i' :| 0 <= i' < |t.jobs[a].place| && t.jobs[a].place[i'] == p;
      assert Owns(t.jobs, k, i, p) && Owns(t.jobs, a, i', p);
      assert false;
    }
  }

  lemma GiveOwners(t: Table, k: nat)
    requires Inv(t) && k < |t.jobs| && t.jobs[k].state.Done?
    ensures OneOwner(GiveOne(t, k).jobs) && FilesOk(GiveOne(t, k).files, GiveOne(t, k).jobs)
  {
    var t' := GiveOne(t, k);
    assert forall a, i, q {:trigger Owns(t'.jobs, a, i, q)} :: Owns(t'.jobs, a, i, q) ==> Owns(t.jobs, a, i, q);
    forall q | 0 <= q < |t'.files| ensures FileOk(t'.jobs, q, t'.files[q]) {
      assert FileOk(t.jobs, q, t.files[q]) && t'.files[q] == Released(t.files[q], q, t.jobs[k], k);
      if t'.files[q].reserved {
        var a, i :| Owns(t.jobs, a, i, q);
        assert Owns(t'.jobs, a, i, q);
      }
    }
  }

  lemma GiveDir(jobs: seq<Job>, dirSyncs: nat, k: nat, j: Job)
    requires DirOk(jobs, dirSyncs) && k < |jobs| && jobs[k].state.Done? && j == jobs[k].(state := Free)
    ensures DirOk(jobs[k := j], if j.dirSync && dirSyncs > 0 then dirSyncs - 1 else dirSyncs)
  {
    if j.dirSync {
      assert SyncsNow(jobs[k]);
    } else {
      SameSyncs(jobs, k, j, dirSyncs);
    }
  }

  lemma GiveTables(t: Table, k: nat)
    requires Inv(t) && k < |t.jobs| && t.jobs[k].state.Done?
    ensures var t' := GiveOne(t, k);
      && QueueOk(t'.queue, t'.jobs) && WorkersOk(t'.workers, t'.jobs) && DirOk(t'.jobs, t'.dirSyncs)
      && MarkOk(t'.jobs, t'.marked) && WakeOk(t')
  {
    hide JobsOk, OneOwner, FilesOk, LiveOk, HandedOk, QueueOk, WorkersOk, DirOk, MarkOk;
    var j := t.jobs[k].(state := Free);
    MovedQueue(t.queue, t.jobs, k, j);
    FreeWorkers(t.workers, t.jobs, k, j);
    GiveDir(t.jobs, t.dirSyncs, k, j);
    FreshMark(t.jobs, t.marked, k, j);
    assert SomeDone(t);
  }

  lemma GiveOneKeeps(t: Table, k: nat)
    requires Inv(t) && k < |t.jobs|
    ensures Inv(GiveOne(t, k))
  {
    if t.jobs[k].state.Done? {
      GiveJobs(t, k);
      GiveOwners(t, k);
      GiveTables(t, k);
      hide JobsOk, OneOwner, FilesOk, LiveOk, HandedOk, QueueOk, WorkersOk, DirOk, MarkOk, WakeOk;
      var t' := GiveOne(t, k);
      assert forall p {:trigger t'.files[p]} :: 0 <= p < |t.files| ==> SameFile(t.files[p], t'.files[p]);
      SameHandles(t.files, t'.files, t.live, t.handed);
    }
  }

  lemma {:induction false} GiveKeeps(t: Table, n: nat)
    requires Inv(t) && n <= |t.jobs|
    ensures Inv(Give(t, n))
    ensures forall k {:trigger Give(t, n).jobs[k]} :: 0 <= k < n ==> !Give(t, n).jobs[k].state.Done?
  {
    hide JobsOk, OneOwner, FilesOk, LiveOk, HandedOk, QueueOk, WorkersOk, DirOk, MarkOk, WakeOk;
    if n > 0 {
      GiveKeeps(t, n - 1);
      GiveOneKeeps(Give(t, n - 1), n - 1);
    }
  }

  // ---- Every run

  lemma StartInv()
    ensures Inv(Start())
  {
  }

  lemma LoopKeeps(t: Table, s: Step)
    requires Inv(t) && Enabled(t, s) && (s.Waits? || s.Drains? || s.Checks? || s.Retries? || s.Gives?)
    ensures Inv(Do(t, s).table)
  {
    hide JobsOk, OneOwner, FilesOk, LiveOk, HandedOk, QueueOk, WorkersOk, DirOk, MarkOk;
    if s.Gives? { GiveKeeps(t, |t.jobs|); }
  }

  lemma StepKeeps(t: Table, s: Step)
    requires Inv(t) && Enabled(t, s) && Do(t, s).Next?
    ensures Inv(Do(t, s).table)
  {
    match s {
      case Emits(k, gen, ops) => EmitKeeps(t, k, gen, ops);
      case Begins(w) => BeginKeeps(t, w);
      case Operates(w, a) =>
        if Current(t, w).2.code == CLOSE {
          CloseKeeps(t, w, a);
        } else if Opens(Current(t, w).2.code) && !a.Fails? {
          OpenKeeps(t, w, a);
        } else {
          PlainKeeps(t, w, a);
        }
      case Marks(w) => MarkKeeps(t, w);
      case Wakes(w) => WakeKeeps(t, w);
      case _ => LoopKeeps(t, s);
    }
  }

  lemma {:induction false} RunInv(before: Table, steps: seq<Step>, after: Table)
    requires Inv(before) && Run(before, steps, after)
    ensures Inv(after)
    decreases |steps|
  {
    hide Inv;
    if steps != [] {
      StepKeeps(before, steps[0]);
      RunInv(Do(before, steps[0]).table, steps[1..], after);
    }
  }

  // ---- Theorems over a state

  /** What a job names, has opened or has reserved. */
  predicate Touches(j: Job, p: nat) {
    Unfinished(j) &&
    ((exists i :: 0 <= i < |j.ops| && OnFile(j.ops[i].code) && j.ops[i].place == p) ||
     p as int in j.place ||
     (exists i :: 0 <= i < |j.results| && HasOpened(j, i) && j.results[i].0 == p))
  }

  /** A place is named, opened or reserved by at most one unfinished job. */
  lemma Exclusive(t: Table, k: nat, k': nat, p: nat)
    requires Inv(t) && k < |t.jobs| && k' < |t.jobs| && k != k'
    ensures !(Touches(t.jobs[k], p) && Touches(t.jobs[k'], p))
  {
    if Touches(t.jobs[k], p) && Touches(t.jobs[k'], p) {
      Touched(t, k, p);
      Touched(t, k', p);
      assert false;
    }
  }

  lemma Touched(t: Table, k: nat, p: nat)
    requires Inv(t) && k < |t.jobs| && Touches(t.jobs[k], p)
    ensures p < |t.files|
    ensures t.files[p].busy == k + 1 || (t.files[p].reserved && exists i :: Owns(t.jobs, k, i, p))
  {
    var j := t.jobs[k];
    assert JobOk(t.files, k, j);
    if p as int in j.place {
      var i :| 0 <= i < |j.place| && j.place[i] == p;
      OpOk(t.files, k, j, i);
      assert Owns(t.jobs, k, i, p);
    } else if i :| 0 <= i < |j.ops| && OnFile(j.ops[i].code) && j.ops[i].place == p {
      OpOk(t.files, k, j, i);
    } else {
      var i :| 0 <= i < |j.results| && HasOpened(j, i) && j.results[i].0 == p;
      OpOk(t.files, k, j, i);
    }
  }
}
