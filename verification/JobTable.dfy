/** The job engine's tables as the host has them, arrays changed in place, each method proved to do a step of `Jobs`. */
module JobTable {
  import opened Jobs
  import opened JobSafety

  /** What a completion slot of `dn_next` says of a job. */
  datatype Completion = Nothing | Completion(gen: nat, done: nat, failure: nat, results: seq<(nat, nat)>)

  function Said(j: Job): Completion {
    if j.state.Done? then Completion(j.gen, j.done, j.failure, j.results) else Nothing
  }

  class JobHost {
    const files: array<File>
    const jobs: array<Job>
    const queue: array<nat>
    var queued: nat
    var dirSyncs: nat
    var workers: seq<Worker>
    var wake: nat
    var loop: Loop
    var marked: bool
    ghost var live: set<int>
    ghost var handed: seq<(nat, nat)>

    ghost predicate Valid()
      reads this
    {
      files.Length == PLACES && jobs.Length == JOBS && queue.Length == JOBS && queued <= JOBS
    }

    ghost function Snapshot(): Table
      requires Valid()
      reads this, files, jobs, queue
    {
      Table(files[..], jobs[..], queue[..queued], dirSyncs, workers, wake, loop, marked, live, handed)
    }

    /** The tables as the engine starts, where the invariant of every run holds. */
    constructor ()
      ensures Valid() && Snapshot() == Start() && Inv(Snapshot()) && fresh(files) && fresh(jobs) && fresh(queue)
    {
      hide Inv;
      files := new File[PLACES](_ => File(-1, false, 0, false, false, false, 0, 0));
      jobs := new Job[JOBS](_ => Job(Free, 0, [], [], false, 0, 0, 0, Zeros((0, 0)), Zeros(false)));
      queue := new nat[JOBS](_ => 0);
      queued, dirSyncs, workers, wake, loop, marked := 0, 0, seq(WORKERS, _ => Idle), 0, Turn, false;
      live, handed := {}, [];
      new;
      assert files[..] == Start().files && jobs[..] == Start().jobs && workers == Start().workers;
      StartInv();
    }

    /** The lowest place nothing has. */
    method FindFree() returns (p: nat)
      requires Valid()
      ensures p == LowestFree(files[..], 0)
    {
      p := 0;
      while p < PLACES && (files[p].open || files[p].reserved || files[p].busy > 0)
        invariant p <= PLACES && LowestFree(files[..], 0) == LowestFree(files[..], p)
      {
        p := p + 1;
      }
    }

    /** A job slot of `dn_emit` taken; false is a violation, which ends the process part way. */
    method Take(k: nat, gen: nat, ops: seq<Op>) returns (ok: bool)
      requires Valid() && k < JOBS && (jobs[k].state.Free? ==> queued < JOBS)
      modifies this`queued, this`dirSyncs, files, jobs, queue
      ensures Valid()
      ensures ok <==> Emit(old(Snapshot()), k, gen, ops).Next?
      ensures ok ==> Snapshot() == Emit(old(Snapshot()), k, gen, ops).table
    {
      hide WellFormed, LowestFree, TakePrefix, Accepted, MayName;
      ghost var was, t := files[..], Snapshot();
      if jobs[k].state != Free || |ops| < 1 || |ops| > OPS { return false; }
      var closed := new bool[PLACES](_ => false);
      ghost var shut: set<nat> := {};
      var place: seq<int>, dirSync, i := [], false, 0;
      TakeNothing(was, ops, k);
      while i < |ops|
        invariant i <= |ops| && Valid()
        invariant jobs[..] == old(jobs[..]) && queue[..] == old(queue[..]) && queued == old(queued)
        invariant dirSyncs == old(dirSyncs)
        invariant TakePrefix(was, ops, k, i) == Going(files[..], shut, place)
        invariant fresh(closed) && forall q {:trigger closed[q]} :: 0 <= q < PLACES ==> (closed[q] <==> q in shut)
        invariant dirSync <==> exists a :: 0 <= a < i && ops[a].code == SYNC_DIR
      {
        var op := ops[i];
        TakeNext(was, ops, k, i);
        ghost var p := Going(files[..], shut, place);
        if !WellFormed(op) {
          Stays(was, ops, k, i + 1);
          return false;
        }
        if op.code == SYNC_DIR { dirSync := true; }
        if Opens(op.code) {
          var q := FindFree();
          if q == PLACES {
            Stays(was, ops, k, i + 1);
            return false;
          }
          files[q] := files[q].(reserved := true);
          assert files[..] == p.files[q := p.files[q].(reserved := true)];
          place := place + [q];
        } else if OnFile(op.code) {
          var ok := MayTake(op, k, closed, shut);
          if !ok {
            Stays(was, ops, k, i + 1);
            return false;
          }
          files[op.place] := files[op.place].(busy := k + 1);
          assert files[..] == p.files[op.place := p.files[op.place].(busy := k + 1)];
          if op.code == CLOSE {
            closed[op.place] := true;
            shut := shut + {op.place};
          }
          place := place + [-1];
        } else {
          place := place + [-1];
        }
        i := i + 1;
      }
      if dirSync && dirSyncs > 0 { return false; }
      Enqueue(k, Accepted(jobs[k], gen, ops, place));
      if dirSync { dirSyncs := dirSyncs + 1; }
      ok := true;
    }

    /** Whether an operation may name its place, none of the job's closes before it having. */
    method MayTake(op: Op, k: nat, closed: array<bool>, ghost shut: set<nat>) returns (ok: bool)
      requires Valid() && closed.Length == PLACES
      requires forall q {:trigger closed[q]} :: 0 <= q < PLACES ==> (closed[q] <==> q in shut)
      ensures (ok <==> MayName(files[..], shut, op, k)) && (ok ==> op.place < PLACES)
    {
      if op.place >= PLACES { return false; }
      var f := files[op.place];
      ok := f.open && f.gen == op.gen && !closed[op.place] && (f.busy == 0 || f.busy == k + 1) &&
        ((op.code == LIST) == f.listing || op.code == CLOSE) && (op.code == LIST ==> op.offset <= f.count);
    }

    method Enqueue(k: nat, j: Job)
      requires Valid() && k < JOBS && queued < JOBS
      modifies this`queued, jobs, queue
      ensures Valid()
      ensures Snapshot() == old(Snapshot()).(jobs := old(jobs[..])[k := j], queue := old(queue[..queued]) + [k])
    {
      ghost var t := Snapshot();
      jobs[k] := j;
      queue[queued] := k;
      queued := queued + 1;
      assert jobs[..] == t.jobs[k := j];
      assert queue[..queued] == t.queue + [k];
    }

    /** A worker takes the oldest job queued, the others moving up. */
    method Dequeue(w: nat)
      requires Valid() && w < |workers| && 0 < queued && queue[0] < JOBS
      modifies this`queued, this`workers, jobs, queue
      ensures Valid() && Snapshot() == Begin(old(Snapshot()), w)
    {
      ghost var t := Snapshot();
      var k := Shift();
      jobs[k] := jobs[k].(state := Running, results := Zeros((0, 0)), done := |jobs[k].ops|, failure := 0, next := 0);
      workers := workers[w := At(k)];
      assert jobs[..] == Begin(t, w).jobs;
    }

    method Shift() returns (k: nat)
      requires Valid() && 0 < queued
      modifies this`queued, queue
      ensures Valid() && queued == old(queued) - 1 && k == old(queue[0]) && queue[..queued] == old(queue[..queued])[1..]
    {
      k := queue[0];
      queued := queued - 1;
      forall i | 0 <= i < queued { queue[i] := queue[i + 1]; }
    }

    /** Empties the eventfd, then says whether a completion waits. */
    method Ready() returns (ready: bool)
      requires Valid()
      modifies this`wake, this`loop
      ensures Valid() && Snapshot() == old(Snapshot()).(wake := 0, loop := Drained)
      ensures ready == SomeDone(Snapshot())
    {
      wake, loop := 0, Drained;
      ready := false;
      var k := 0;
      while k < JOBS
        invariant k <= JOBS && (ready <==> exists a :: 0 <= a < k && jobs[a].state == Done)
      {
        ready := ready || jobs[k].state == Done;
        k := k + 1;
      }
    }

    /** Gives up what job `k` holds. */
    method Release(k: nat)
      requires Valid() && k < JOBS && jobs[k].state.Done? && (jobs[k].dirSync ==> dirSyncs > 0)
      requires forall i :: 0 <= i < |jobs[k].place| ==> -1 <= jobs[k].place[i] < PLACES
      modifies this`dirSyncs, files, jobs
      ensures Valid() && Snapshot() == GiveOne(old(Snapshot()), k)
    {
      ghost var was, t := files[..], Snapshot();
      var j := jobs[k];
      var i := 0;
      while i < |j.place|
        invariant i <= |j.place| && jobs[..] == old(jobs[..]) && dirSyncs == old(dirSyncs)
        invariant forall p {:trigger files[p]} :: 0 <= p < PLACES ==>
          files[p] == was[p].(reserved := was[p].reserved && p !in j.place[..i])
      {
        if j.place[i] >= 0 { files[j.place[i]] := files[j.place[i]].(reserved := false); }
        assert j.place[..i + 1] == j.place[..i] + [j.place[i]];
        i := i + 1;
      }
      assert j.place[..i] == j.place;
      var p := 0;
      while p < PLACES
        invariant p <= PLACES && jobs[..] == old(jobs[..]) && dirSyncs == old(dirSyncs)
        invariant forall q {:trigger files[q]} :: 0 <= q < PLACES ==>
          files[q] == if q < p then Released(was[q], q, j, k) else was[q].(reserved := was[q].reserved && q !in j.place)
      {
        if files[p].busy == k + 1 { files[p] := files[p].(busy := 0); }
        p := p + 1;
      }
      if j.dirSync { dirSyncs := dirSyncs - 1; }
      jobs[k] := j.(state := Free);
      assert jobs[..] == t.jobs[k := j.(state := Free)];
      assert files[..] == GiveOne(t, k).files;
    }

    /** Hands every completion, each with what its job came to. */
    method GiveAll() returns (said: seq<Completion>)
      requires Valid() && Inv(Snapshot())
      modifies this`dirSyncs, files, jobs
      ensures Valid() && Snapshot() == Give(old(Snapshot()), JOBS)
      ensures |said| == JOBS && forall k :: 0 <= k < JOBS ==> said[k] == Said(old(jobs[k]))
    {
      hide Inv, GiveOne;
      ghost var t := Snapshot();
      said := [];
      var k := 0;
      while k < JOBS
        invariant k <= JOBS && Valid() && Inv(Snapshot())
        invariant Snapshot() == Give(t, k) && |said| == k
        invariant forall a :: 0 <= a < k ==> said[a] == Said(t.jobs[a])
        invariant forall a {:trigger jobs[a]} :: k <= a < JOBS ==> jobs[a] == t.jobs[a]
      {
        said := said + [Said(jobs[k])];
        GiveOneKeeps(Snapshot(), k);
        GivesOne(Snapshot(), k);
        if jobs[k].state.Done? { Release(k); }
        k := k + 1;
      }
    }
  }

  lemma TakeNothing(files: seq<File>, ops: seq<Op>, k: nat)
    ensures TakePrefix(files, ops, k, 0) == Going(files, {}, [])
  {
  }

  lemma TakeNext(files: seq<File>, ops: seq<Op>, k: nat, i: nat)
    requires i < |ops|
    ensures TakePrefix(files, ops, k, i + 1) == TakeOne(TakePrefix(files, ops, k, i), ops[i], k)
  {
  }

  /** Once refused, a job stays refused. */
  lemma {:induction false} Stays(files: seq<File>, ops: seq<Op>, k: nat, i: nat)
    requires i <= |ops| && TakePrefix(files, ops, k, i).Refused?
    ensures TakePrefix(files, ops, k, |ops|).Refused?
    decreases |ops| - i
  {
    if i < |ops| { Stays(files, ops, k, i + 1); }
  }

  lemma GivesOne(t: Table, k: nat)
    requires Inv(t) && k < |t.jobs|
    ensures |GiveOne(t, k).jobs| == |t.jobs|
    ensures forall a {:trigger GiveOne(t, k).jobs[a]} :: 0 <= a < |t.jobs| && a != k ==>
      GiveOne(t, k).jobs[a] == t.jobs[a]
    ensures !t.jobs[k].state.Done? ==> GiveOne(t, k) == t
    ensures t.jobs[k].state.Done? ==>
      && (t.jobs[k].dirSync ==> t.dirSyncs > 0)
      && forall i :: 0 <= i < |t.jobs[k].place| ==> -1 <= t.jobs[k].place[i] < PLACES
  {
    var j := t.jobs[k];
    if j.state.Done? {
      assert JobOk(t.files, k, j);
      forall i | 0 <= i < |j.place| ensures -1 <= j.place[i] < PLACES {
        OpOk(t.files, k, j, i);
      }
      if j.dirSync { assert SyncsNow(j); }
    }
  }
}
