/** The file-job engine: a table of jobs, a queue two workers take from, a table of places that hold open files under a
    generation, and the eventfd that wakes the loop. A step is what happens under the lock at once, or one operation. */
module Jobs {
  const JOBS: nat := 12
  const OPS: nat := 8
  const DATA: nat := 16384
  const PLACES: nat := 16
  const WORKERS: nat := 2
  const INT64_MAX: nat := 0x7FFF_FFFF_FFFF_FFFF

  const CREATE: nat := 1
  const OPEN: nat := 2
  const WRITE: nat := 3
  const READ: nat := 4
  const SIZE: nat := 5
  const DATA_SYNC: nat := 6
  const SYNC: nat := 7
  const RENAME: nat := 8
  const REMOVE: nat := 9
  const TRUNCATE: nat := 10
  const SYNC_DIR: nat := 11
  const OPEN_DIR: nat := 12
  const LIST: nat := 13
  const CLOSE: nat := 14

  const JOURNAL: nat := 1
  const TAIL: nat := 5

  datatype Op = Op(code: nat, place: nat, gen: nat, name: nat, number: nat, toName: nat, toNumber: nat,
                   offset: nat, length: nat, at: nat)

  datatype State = Free | Queued | Running | Done

  /** `place[i]` is the place reserved for operation `i`, -1 for none; `next` is the worker's place in the operations;
      `failure` is the class of the error that stopped it, 0 for none. */
  datatype Job = Job(state: State, gen: nat, ops: seq<Op>, place: seq<int>, dirSync: bool,
                     next: nat, done: nat, failure: nat, results: seq<(nat, nat)>, wrote: seq<bool>)

  /** `busy` is one more than the job that names the place, 0 for none. */
  datatype File = File(fd: int, open: bool, busy: nat, reserved: bool, listing: bool, written: bool, count: nat, gen: nat)

  datatype Worker = Idle | At(job: nat) | Writing

  /** Where the loop is: in the program's turn, about to block, having emptied the eventfd, having looked at the jobs. */
  datatype Loop = Turn | Waiting | Drained | Checked(news: bool)

  /** The tables, with the descriptors open and every handle given out. */
  datatype Table = Table(files: seq<File>, jobs: seq<Job>, queue: seq<nat>, dirSyncs: nat, workers: seq<Worker>,
                         wake: nat, loop: Loop, marked: bool, live: set<int>, handed: seq<(nat, nat)>)

  predicate NamesFile(code: nat) { code == CREATE || code == OPEN }

  predicate Opens(code: nat) { NamesFile(code) || code == OPEN_DIR }

  predicate OnFile(code: nat) {
    code == WRITE || code == READ || code == SIZE || code == DATA_SYNC || code == SYNC || code == TRUNCATE ||
    code == LIST || code == CLOSE
  }

  predicate Syncs(code: nat) { code == DATA_SYNC || code == SYNC || code == SYNC_DIR || code == CLOSE }

  /** The class of an error number: EIO, ENOSPC and EDQUOT, EEXIST, ENOENT, and any other. */
  function ClassOf(error: nat): (c: nat)
    ensures 1 <= c <= 5
  {
    if error == 5 then 1
    else if error == 28 || error == 122 then 2
    else if error == 17 then 3
    else if error == 2 then 4
    else 5
  }

  // ---- Taking a job from dn_emit

  predicate NameOk(kind: nat, number: nat) { JOURNAL <= kind <= TAIL && !(kind == JOURNAL && number != 0) }

  /** What an operation must be whatever the places hold. */
  predicate WellFormed(op: Op) {
    && CREATE <= op.code <= CLOSE
    && (NamesFile(op.code) || op.code == REMOVE || op.code == RENAME ==> NameOk(op.name, op.number))
    && (op.code == RENAME ==> NameOk(op.toName, op.toNumber))
    && (op.code == REMOVE || op.code == RENAME ==> op.name != JOURNAL)
    && (op.code == RENAME ==> op.toName != JOURNAL)
    && (op.code == WRITE || op.code == READ || op.code == LIST ==>
          op.at <= DATA && op.length <= DATA - op.at && op.offset <= INT64_MAX - op.length)
    && (op.code == LIST ==> op.length > 0)
    && (op.code == TRUNCATE ==> op.length <= INT64_MAX)
  }

  predicate Taken(f: File) { f.open || f.reserved || f.busy > 0 }

  /** The lowest place from `p` on that nothing has, their number when there is none. */
  function LowestFree(files: seq<File>, p: nat): (q: nat)
    requires p <= |files|
    ensures p <= q <= |files|
    ensures forall r :: p <= r < q ==> Taken(files[r])
    ensures q < |files| ==> !Taken(files[q])
    decreases |files| - p
  {
    if p < |files| && Taken(files[p]) then LowestFree(files, p + 1) else p
  }

  /** Whether job `k` may name a place: open at the generation named, not closed by an earlier operation of the job, no
      other job's, and of the operation's kind. */
  predicate MayName(files: seq<File>, closed: set<nat>, op: Op, k: nat) {
    && op.place < |files|
    && var f := files[op.place];
    && f.open && f.gen == op.gen && op.place !in closed
    && (f.busy == 0 || f.busy == k + 1)
    && ((op.code == LIST) == f.listing || op.code == CLOSE)
    && (op.code == LIST ==> op.offset <= f.count)
  }

  datatype Progress = Refused | Going(files: seq<File>, closed: set<nat>, place: seq<int>)

  function TakeOne(p: Progress, op: Op, k: nat): Progress {
    if p.Refused? || !WellFormed(op) then Refused
    else if Opens(op.code) then
      var q := LowestFree(p.files, 0);
      if q == |p.files| then Refused
      else p.(files := p.files[q := p.files[q].(reserved := true)], place := p.place + [q])
    else if OnFile(op.code) then
      if !MayName(p.files, p.closed, op, k) then Refused
      else p.(files := p.files[op.place := p.files[op.place].(busy := k + 1)],
              closed := if op.code == CLOSE then p.closed + {op.place} else p.closed, place := p.place + [-1])
    else p.(place := p.place + [-1])
  }

  /** The first `i` operations of a job taken. */
  function TakePrefix(files: seq<File>, ops: seq<Op>, k: nat, i: nat): Progress
    requires i <= |ops|
  {
    if i == 0 then Going(files, {}, []) else TakeOne(TakePrefix(files, ops, k, i - 1), ops[i - 1], k)
  }

  predicate SyncsDir(ops: seq<Op>) { exists i :: 0 <= i < |ops| && ops[i].code == SYNC_DIR }

  datatype Outcome = Violation | Next(table: Table)

  /** The job an accepted slot becomes. */
  function Accepted(j: Job, gen: nat, ops: seq<Op>, place: seq<int>): Job {
    j.(state := Queued, gen := gen, ops := ops, place := place, dirSync := SyncsDir(ops))
  }

  /** A job slot of `dn_emit`, checked and queued. */
  function Emit(t: Table, k: nat, gen: nat, ops: seq<Op>): Outcome
    requires k < |t.jobs|
  {
    var j := t.jobs[k];
    if j.state != Free || |ops| < 1 || |ops| > OPS then Violation
    else
      var p := TakePrefix(t.files, ops, k, |ops|);
      if p.Refused? || (SyncsDir(ops) && t.dirSyncs > 0) then Violation
      else Next(t.(files := p.files,
                   jobs := t.jobs[k := Accepted(j, gen, ops, p.place)],
                   queue := t.queue + [k],
                   dirSyncs := t.dirSyncs + if SyncsDir(ops) then 1 else 0))
  }

  // ---- The workers

  function Zeros<T>(x: T): (s: seq<T>)
    ensures |s| == OPS && forall i :: 0 <= i < OPS ==> s[i] == x
  {
    seq(OPS, i => x)
  }

  function Begin(t: Table, w: nat): Table
    requires w < |t.workers| && t.queue != [] && t.queue[0] < |t.jobs|
  {
    var k := t.queue[0];
    var j := t.jobs[k];
    t.(queue := t.queue[1..], workers := t.workers[w := At(k)],
       jobs := t.jobs[k := j.(state := Running, results := Zeros((0, 0)), done := |j.ops|, failure := 0, next := 0)])
  }

  /** What the file system answers an operation: an operation that worked says how many octets or names, and of names
      how many octets they take. */
  datatype Answer = Fails(error: nat) | Opened(fd: int) | Listing(count: nat) | Worked(result: nat, used: nat)

  predicate Runs(t: Table, w: nat) {
    && w < |t.workers| && t.workers[w].At? && t.workers[w].job < |t.jobs|
    && var j := t.jobs[t.workers[w].job];
    && j.failure == 0 && j.next < |j.ops| == |j.place| <= |j.results| == |j.wrote|
    && (Opens(j.ops[j.next].code) ==> 0 <= j.place[j.next] < |t.files|)
    && (OnFile(j.ops[j.next].code) ==> j.ops[j.next].place < |t.files|)
  }

  function Current(t: Table, w: nat): (r: (nat, Job, Op))
    requires Runs(t, w)
    ensures r.0 < |t.jobs| && r.1 == t.jobs[r.0] && r.1.next < |r.1.ops| && r.2 == r.1.ops[r.1.next]
  {
    var k := t.workers[w].job;
    (k, t.jobs[k], t.jobs[k].ops[t.jobs[k].next])
  }

  /** The answers an operation can have: an open gives a descriptor nothing else has, and closing a listing, which holds
      none, does not fail. */
  predicate Answers(t: Table, w: nat, a: Answer)
    requires Runs(t, w)
  {
    var (k, j, op) := Current(t, w);
    match a
    case Fails(_) => !(op.code == CLOSE && t.files[op.place].listing)
    case Opened(fd) => NamesFile(op.code) && fd >= 0 && fd !in t.live
    case Listing(_) => op.code == OPEN_DIR
    case Worked(_, _) => !Opens(op.code)
  }

  /** What an operation that opens nothing reports: how much was read, the size, or the names of a page. */
  function Reported(op: Op, a: Answer): (nat, nat) {
    if !a.Worked? then (0, 0)
    else if op.code == READ || op.code == SIZE then (a.result, 0)
    else if op.code == LIST then (a.result, a.used)
    else (0, 0)
  }

  /** The job with its operation done, or failed. */
  function Moved(j: Job, a: Answer, result: (nat, nat)): Job
    requires j.next < |j.results|
  {
    if a.Fails? then j.(done := j.next, failure := ClassOf(a.error))
    else j.(next := j.next + 1, results := j.results[j.next := result])
  }

  /** Operation `next` of the job worker `w` runs. */
  function RunOp(t: Table, w: nat, a: Answer): Table
    requires Runs(t, w) && Answers(t, w, a)
  {
    var (k, j, op) := Current(t, w);
    if Opens(op.code) then
      if a.Fails? then t.(jobs := t.jobs[k := Moved(j, a, (0, 0))])
      else
        var p := j.place[j.next];
        var g := t.files[p].gen;
        var f := if a.Opened? then File(a.fd, true, k + 1, false, false, false, 0, g)
                 else File(-1, true, k + 1, false, true, false, if a.Listing? then a.count else 0, g);
        t.(files := t.files[p := f],
           jobs := t.jobs[k := Moved(j, a, (p, g)).(place := j.place[j.next := -1])],
           live := if a.Opened? then t.live + {a.fd} else t.live,
           handed := t.handed + [(p, g)])
    else if op.code == CLOSE then
      var f := t.files[op.place];
      var j' := Moved(j, a, (0, 0)).(wrote := j.wrote[j.next := f.written]);
      t.(files := t.files[op.place := File(-1, false, f.busy, false, false, false, 0, f.gen + 1)],
         jobs := t.jobs[k := j'],
         live := if f.listing then t.live else t.live - {f.fd},
         marked := t.marked || (a.Fails? && f.written))
    else
      t.(files := if op.code == WRITE || op.code == TRUNCATE
                  then t.files[op.place := t.files[op.place].(written := true)] else t.files,
         jobs := t.jobs[k := Moved(j, a, Reported(op, a))],
         marked := t.marked || (a.Fails? && Syncs(op.code)))
  }

  /** The worker marks its job done, before it writes the eventfd. */
  function Mark(t: Table, w: nat): Table
    requires w < |t.workers| && t.workers[w].At? && t.workers[w].job < |t.jobs|
  {
    var k := t.workers[w].job;
    t.(jobs := t.jobs[k := t.jobs[k].(state := Done)], workers := t.workers[w := Writing])
  }

  function Wake(t: Table, w: nat): Table
    requires w < |t.workers|
  {
    t.(wake := t.wake + 1, workers := t.workers[w := Idle])
  }

  // ---- The loop

  predicate SomeDone(t: Table) { exists k :: 0 <= k < |t.jobs| && t.jobs[k].state == Done }

  function Released(f: File, p: int, j: Job, k: nat): File {
    f.(reserved := f.reserved && p !in j.place, busy := if f.busy == k + 1 then 0 else f.busy)
  }

  /** A completion handed to the program: the job keeps its places and its sync of the directory until then. */
  function GiveOne(t: Table, k: nat): Table
    requires k < |t.jobs|
  {
    var j := t.jobs[k];
    if j.state != Done then t
    else t.(files := seq(|t.files|, p requires 0 <= p < |t.files| => Released(t.files[p], p, j, k)),
            jobs := t.jobs[k := j.(state := Free)],
            dirSyncs := if j.dirSync && t.dirSyncs > 0 then t.dirSyncs - 1 else t.dirSyncs)
  }

  /** The completions of the first `n` jobs handed. */
  function Give(t: Table, n: nat): (r: Table)
    requires n <= |t.jobs|
    ensures |r.jobs| == |t.jobs|
  {
    if n == 0 then t else GiveOne(Give(t, n - 1), n - 1)
  }

  // ---- Runs

  datatype Step =
    | Emits(k: nat, gen: nat, ops: seq<Op>)
    | Begins(w: nat)
    | Operates(w: nat, answer: Answer)
    | Marks(w: nat)
    | Wakes(w: nat)
    | Waits
    | Drains
    | Checks
    | Retries
    | Gives

  predicate Enabled(t: Table, s: Step) {
    match s
    case Emits(k, gen, ops) => t.loop.Turn? && k < |t.jobs|
    case Begins(w) => w < |t.workers| && t.workers[w].Idle? && t.queue != [] && t.queue[0] < |t.jobs|
    case Operates(w, a) => Runs(t, w) && Answers(t, w, a)
    case Marks(w) =>
      && w < |t.workers| && t.workers[w].At? && t.workers[w].job < |t.jobs|
      && var j := t.jobs[t.workers[w].job]; (j.next == |j.ops| || j.failure != 0)
    case Wakes(w) => w < |t.workers| && t.workers[w].Writing?
    case Waits => t.loop.Turn?
    case Drains => t.loop.Waiting?
    case Checks => t.loop.Drained?
    case Retries => t.loop == Checked(false)
    case Gives => t.loop.Waiting? || t.loop.Checked?
  }

  /** A wait can end for other reasons than a completion, so the loop may drain, and the program have a turn, at any
      time; found news always ends the wait. A violation stops the process. */
  function Do(t: Table, s: Step): Outcome
    requires Enabled(t, s)
  {
    match s
    case Emits(k, gen, ops) => Emit(t, k, gen, ops)
    case Begins(w) => Next(Begin(t, w))
    case Operates(w, a) => Next(RunOp(t, w, a))
    case Marks(w) => Next(Mark(t, w))
    case Wakes(w) => Next(Wake(t, w))
    case Waits => Next(t.(loop := Waiting))
    case Drains => Next(t.(wake := 0, loop := Drained))
    case Checks => Next(t.(loop := Checked(SomeDone(t))))
    case Retries => Next(t.(loop := Waiting))
    case Gives => Next(Give(t, |t.jobs|).(loop := Turn))
  }

  /** Nothing open, nothing taken. */
  function Start(): Table {
    Table(seq(PLACES, p => File(-1, false, 0, false, false, false, 0, 0)),
          seq(JOBS, k => Job(Free, 0, [], [], false, 0, 0, 0, Zeros((0, 0)), Zeros(false))),
          [], 0, seq(WORKERS, w => Idle), 0, Turn, false, {}, [])
  }

  /** `after` is what a run of `steps` from `before` reaches, no step of it a violation. */
  predicate Run(before: Table, steps: seq<Step>, after: Table)
    decreases |steps|
  {
    if steps == [] then before == after
    else
      && Enabled(before, steps[0])
      && Do(before, steps[0]).Next?
      && Run(Do(before, steps[0]).table, steps[1..], after)
  }
}
