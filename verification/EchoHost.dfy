/** The io_uring echo host as a whole: the main thread, its workers and the kernel, one step at a time. A step of a
    thread is one completion acted on; the kernel takes submissions in order, executes messages as it takes them and
    ends the other operations in any order. */
module EchoHost {
  import opened Gathering
  import opened EchoWorker
  import opened EchoSlots

  const COPIES: nat := 8
  const MARKS: nat := 0x100_0000

  datatype Main = Main(ring: Ring, stopping: bool, accepting: bool, signalArmed: bool, admitted: int,
                       nextThread: nat, left: bool)

  /** `exited` and `failed` are the workers whose threads ended or never served; `open` the connections' descriptors
      and `others` every other descriptor of the process. */
  datatype Host = Host(main: Main, workers: seq<Worker>, exited: set<nat>, failed: set<nat>,
                       open: set<int>, others: set<int>)

  datatype Step =
    | WorkerReap(k: nat)
    | WorkerExpire(k: nat, slot: nat)
    | WorkerExit(k: nat)
    | WorkerSubmit(k: nat, delivered: bool)
    | WorkerComplete(k: nat, j: nat, res: int, data: seq<byte>)
    | MainReap(ends: bool, shaped: bool)
    | MainArmSignal
    | MainArmAccept
    | MainLeave
    | MainSubmit(delivered: bool)
    | MainComplete(j: nat, res: int)

  // ----- the main thread -----

  function TellStop(m: Main, failed: set<nat>, k: nat, threads: nat): Main
    requires k <= threads
    decreases threads - k
  {
    if k == threads then m
    else if k in failed then TellStop(m, failed, k + 1, threads)
    else TellStop(m.(ring := Push(m.ring, Tell(k, 0, WorkerRing(k), StopNow))), failed, k + 1, threads)
  }

  /** The accept and the wait for a signal, cancelled if they are in flight. */
  function Cancelling(m: Main): Ring {
    var r := if m.accepting then Push(m.ring, CancelOp(0)) else m.ring;
    if m.signalArmed then Push(r, CancelOp(1)) else r
  }

  function Stop(m: Main, failed: set<nat>, threads: nat): Main {
    if m.stopping then m
    else TellStop(m.(stopping := true, ring := Cancelling(m)), failed, 0, threads)
  }

  /** A handover; the token has 24 bits for the descriptor, read back when the message could not be delivered. */
  function Hand(m: Main, fd: nat, threads: nat): Main
    requires threads > 0
  {
    m.(admitted := m.admitted + 1, nextThread := (m.nextThread + 1) % threads,
       ring := Push(m.ring, Tell(fd % MARKS, 1, WorkerRing(m.nextThread), Handed(fd))))
  }

  /** What the main thread does with a completion: its new state and the descriptor it closes, if one. `ends` says
      whether an accept's error is fatal or a signal stops the host; `shaped` whether a socket took its options. */
  datatype Handled = Handled(main: Main, closed: set<int>)

  function MainCompleted(m: Main, c: Completion, failed: set<nat>, threads: nat, ends: bool, shaped: bool): Outcome<Handled>
    requires threads > 0
  {
    match c.token.kind
    case KFreed => if m.admitted == 0 then Violation else Next(Handled(m.(admitted := m.admitted - 1), {}))
    case KAccept =>
      var m1 := m.(accepting := false);
      if c.res >= 0 then
        if m1.stopping || !shaped then Next(Handled(m1, {c.res}))
        else Next(Handled(Hand(m1, c.res, threads), {}))
      else Next(Handled(if ends then Stop(m1, failed, threads) else m1, {}))
    case KSignal =>
      var m1 := m.(signalArmed := false);
      Next(Handled(if ends then Stop(m1, failed, threads) else m1, {}))
    case KTold =>
      if c.res >= 0 then Next(Handled(m, {}))
      else if c.token.gen == 1 then Next(Handled(m.(admitted := m.admitted - 1), {c.token.slot}))
      else Harness
    case KCancel => Next(Handled(m, {}))
    case _ => Violation
  }

  function MainPop(m: Main): Outcome<Main>
    requires |m.ring.cq| > 0
  {
    var r := m.ring.(cq := m.ring.cq[1..]);
    if m.ring.cq[0].token.kind == KFreed then Next(m.(ring := r))
    else if m.ring.live == 0 then Violation
    else Next(m.(ring := r.(live := m.ring.live - 1)))
  }

  // ----- steps -----

  predicate Serving(h: Host, k: nat) { k < |h.workers| && k !in h.exited && k !in h.failed }

  predicate Enabled(h: Host, s: Step) {
    match s
    case WorkerReap(k) =>
      && Serving(h, k) && |h.workers[k].ring.cq| > 0 && Shaped(h.workers[k])
      && (h.workers[k].ring.cq[0].token.kind == KRecv ==> h.workers[k].ring.cq[0].res <= CAPACITY)
    case WorkerExpire(k, i) =>
      Serving(h, k) && i < |h.workers[k].slots| && h.workers[k].slots[i].fd >= 0 && !h.workers[k].slots[i].closing
    case WorkerExit(k) =>
      Serving(h, k) && h.workers[k].stopping && h.workers[k].held == 0 && h.workers[k].ring.live == 0
    case WorkerSubmit(k, _) => Serving(h, k) && |h.workers[k].ring.sq| > 0
    case WorkerComplete(k, j, res, data) =>
      && Serving(h, k) && j < |h.workers[k].ring.flight| && Answers(h.workers[k].ring.flight[j], res, data)
      && OnSlots(h.workers[k].ring.flight[j], h.workers[k].slots)
    case MainReap(_, _) => !h.main.left && |h.main.ring.cq| > 0
    case MainArmSignal => !h.main.left && !h.main.stopping && !h.main.signalArmed
    case MainArmAccept => !h.main.left && !h.main.stopping && !h.main.accepting && h.main.admitted < SLOTS
    case MainLeave => !h.main.left && h.main.stopping && h.main.ring.live == 0
    case MainSubmit(delivered) =>
      && !h.main.left && |h.main.ring.sq| > 0
      && (h.main.ring.sq[0].Tell? && h.main.ring.sq[0].to.WorkerRing? && delivered ==>
        Serving(h, h.main.ring.sq[0].to.index))
    case MainComplete(j, res) =>
      && !h.main.left && j < |h.main.ring.flight|
      && (h.main.ring.flight[j].Accept? && res >= 0 ==>
            res !in h.open + h.others && forall n :: 0 <= n < res ==> n in h.open + h.others)
  }

  predicate Uses(op: Op, fd: int) { (op.Recv? || op.Send? || op.CancelFd?) && op.fd == fd }

  predicate InFlight(w: Worker, fd: int) {
    || (exists i :: 0 <= i < |w.ring.sq| && Uses(w.ring.sq[i], fd))
    || (exists i :: 0 <= i < |w.ring.flight| && Uses(w.ring.flight[i], fd))
  }

  /** Descriptors are closed once, and with no operation prepared or in flight on them. */
  predicate ClosesWell(open: set<int>, workers: seq<Worker>, closed: set<int>) {
    closed <= open && forall k, fd :: 0 <= k < |workers| && fd in closed ==> !InFlight(workers[k], fd)
  }

  function Closing(h: Host, closed: set<int>): Outcome<Host> {
    if ClosesWell(h.open, h.workers, closed) then Next(h.(open := h.open - closed)) else Violation
  }

  function WithWorker(h: Host, k: nat, w: Worker): Host
    requires k < |h.workers|
  {
    h.(workers := h.workers[k := w])
  }

  /** A message taken off a queue: it is posted on its ring when it can be. */
  function Post(h: Host, op: Op): Host
    requires op.Tell?
  {
    match op.message
    case Freed(k) => h.(main := h.main.(ring := h.main.ring.(cq := h.main.ring.cq + [Completion(Token(KFreed, k, 0), 0)])))
    case Handed(fd) =>
      if op.to.WorkerRing? && op.to.index < |h.workers| then
        WithWorker(h, op.to.index, Arrive(h.workers[op.to.index], Completion(Token(KHanded, 0, 0), fd)))
      else h
    case StopNow =>
      if op.to.WorkerRing? && op.to.index < |h.workers| then
        WithWorker(h, op.to.index, Arrive(h.workers[op.to.index], Completion(Token(KStop, 0, 0), 0)))
      else h
  }

  function MainTold(m: Main, res: int): Main
    requires |m.ring.sq| > 0
  {
    m.(ring := m.ring.(sq := m.ring.sq[1..], cq := m.ring.cq + [Completion(TokenOf(m.ring.sq[0]), res)]))
  }

  function Do(h: Host, s: Step): Outcome<Host>
    requires Enabled(h, s)
  {
    match s
    case WorkerReap(k) => (
      var w := h.workers[k];
      match Reap(w)
      case Next(w') =>
        if |w.shut| <= |w'.shut| then
          Closing(WithWorker(h, k, w'), set i | |w.shut| <= i < |w'.shut| :: w'.shut[i])
        else Violation
      case Violation => Violation
      case Harness => Harness)
    case WorkerExpire(k, i) => Next(WithWorker(h, k, End(h.workers[k], i)))
    case WorkerExit(k) => Next(h.(exited := h.exited + {k}))
    case WorkerSubmit(k, delivered) =>
      var w := h.workers[k];
      var op := w.ring.sq[0];
      if !op.Tell? then Next(WithWorker(h, k, Submit(w)))
      else if delivered then Next(Post(WithWorker(h, k, Told(w, 0)), op))
      else Next(WithWorker(h, k, Told(w, -1)))
    case WorkerComplete(k, j, res, data) => Next(WithWorker(h, k, Complete(h.workers[k], j, res, data)))
    case MainReap(ends, shaped) => (
      if |h.workers| == 0 then Violation
      else
        match MainPop(h.main)
        case Violation => Violation
        case Harness => Harness
        case Next(m) =>
          match MainCompleted(m, h.main.ring.cq[0], h.failed, |h.workers|, ends, shaped)
          case Next(r) => Closing(h.(main := r.main), r.closed)
          case Violation => Violation
          case Harness => Harness)
    case MainArmSignal =>
      Next(h.(main := h.main.(signalArmed := true, ring := Push(h.main.ring, PollSignal))))
    case MainArmAccept => Next(h.(main := h.main.(accepting := true, ring := Push(h.main.ring, Accept))))
    case MainLeave => Next(h.(main := h.main.(left := true)))
    case MainSubmit(delivered) =>
      var r := h.main.ring;
      var op := r.sq[0];
      if !op.Tell? then
        Next(h.(main := h.main.(ring := r.(sq := r.sq[1..], flight := r.flight + [op]))))
      else if delivered then Next(Post(h.(main := MainTold(h.main, 0)), op))
      else Next(h.(main := MainTold(h.main, -1)))
    case MainComplete(j, res) =>
      Next(h.(main := h.main.(ring := Landed(h.main.ring, j, res)),
              open := if h.main.ring.flight[j].Accept? && res >= 0 then h.open + {res} else h.open))
  }
}
