/** What the main thread does with each completion, told by what it leaves: connections handed to the workers in turn,
    refused ones closed, places taken back, every worker told to stop. */
module EchoHands {
  import opened Gathering
  import opened EchoWorker
  import opened EchoSlots
  import opened EchoHost
  import opened EchoSafety
  import opened EchoRuns
  import opened EchoStops

  /** The completion is off the queue; no worker and no other descriptor is touched. */
  predicate Reads(h: Host, h': Host)
    requires |h.main.ring.cq| > 0
  {
    && h'.workers == h.workers && h'.failed == h.failed && h'.exited == h.exited && h'.others == h.others
    && h'.main.left == h.main.left
    && h'.main.ring.cq == h.main.ring.cq[1..] && h'.main.ring.flight == h.main.ring.flight
  }

  /** Nothing handed over, told or stopped. */
  predicate Quiet(h: Host, h': Host) {
    && h'.main.ring.sq == h.main.ring.sq && h'.main.stopping == h.main.stopping
    && h'.main.nextThread == h.main.nextThread
  }

  /** Connection `fd` stays open and its handover to the next worker in turn is the last submission. */
  predicate HandsOver(h: Host, h': Host, fd: nat)
    requires |h.workers| > 0
  {
    && h'.open == h.open && h'.main.stopping == h.main.stopping
    && h'.main.ring.sq == h.main.ring.sq + [Tell(fd, 1, WorkerRing(h.main.nextThread), Handed(fd))]
    && h'.main.nextThread == (h.main.nextThread + 1) % |h.workers|
    && h'.main.admitted == h.main.admitted + 1
  }

  /** Descriptor `fd` is closed. */
  predicate ClosesOne(h: Host, h': Host, fd: int) { fd in h.open && h'.open == h.open - {fd} }

  /** Every worker whose thread ran is sent the order to stop, and what the main thread waits for is cancelled. */
  predicate StopsAll(h: Host, h': Host, accepting: bool, armed: bool) {
    && h'.main.stopping && h'.open == h.open && h'.main.admitted == h.main.admitted
    && (forall k: nat {:trigger Queued(h'.main.ring.sq, k)} :: k < |h.workers| ==>
          Queued(h'.main.ring.sq, k) == Queued(h.main.ring.sq, k) + if k in h.failed then [] else [StopNow])
    && (accepting ==> CancelOp(0) in h'.main.ring.sq) && (armed ==> CancelOp(1) in h'.main.ring.sq)
  }

  lemma AcceptActs(h: Host, ends: bool, shaped: bool, h': Host)
    requires |h.main.ring.cq| > 0 && h.main.ring.cq[0].token.kind == KAccept && h.main.ring.cq[0].res >= 0
    requires Enabled(h, MainReap(ends, shaped)) && Do(h, MainReap(ends, shaped)) == Next(h') && HostInv(h)
    ensures Reads(h, h') && |h.workers| > 0
    ensures var fd := h.main.ring.cq[0].res;
      if !h.main.stopping && shaped then HandsOver(h, h', fd)
      else ClosesOne(h, h', fd) && Quiet(h, h') && h'.main.admitted == h.main.admitted
  {
    hide WorkersOk, MainOk, Books, MailOk, Stop, Queued, Gather;
    HandMark(h);
    assert h.open - {} == h.open;
  }

  lemma HandMark(h: Host)
    requires HostInv(h) && |h.main.ring.cq| > 0 && h.main.ring.cq[0].token.kind == KAccept && h.main.ring.cq[0].res >= 0
    ensures |h.workers| > 0 && h.main.ring.cq[0].res % MARKS == h.main.ring.cq[0].res
  {
    hide MailOk, Queued, Gather, Claims, MainOk, Books;
    HandBooks(h, h.(main := Hand(Reduced(h.main), h.main.ring.cq[0].res, |h.workers|)));
  }

  /** An accept that failed, or the signal: the host stops when it is to and is not stopping already. */
  lemma StopActs(h: Host, ends: bool, shaped: bool, h': Host)
    requires |h.main.ring.cq| > 0
    requires Enabled(h, MainReap(ends, shaped)) && Do(h, MainReap(ends, shaped)) == Next(h') && HostInv(h)
    requires var c := h.main.ring.cq[0]; (c.token.kind == KAccept && c.res < 0) || c.token.kind == KSignal
    ensures Reads(h, h')
    ensures var kind := h.main.ring.cq[0].token.kind;
      if ends && !h.main.stopping then
        StopsAll(h, h', h.main.accepting && kind != KAccept, h.main.signalArmed && kind != KSignal)
      else Quiet(h, h') && h'.open == h.open && h'.main.admitted == h.main.admitted
  {
    hide WorkersOk, MainOk, Books, MailOk, Queued, Gather, TellStop, Hand, Cancelling;
    var c := h.main.ring.cq[0];
    var m := Shortened(h.main, c);
    assert h.open - {} == h.open;
    if ends && !h.main.stopping {
      Ordered(m.(stopping := true, ring := Cancelling(m)), h.failed, |h.workers|);
      CancelledBoth(m, |h.workers|);
    }
  }

  /** Orders sent: the queue goes on with one for each worker that runs. */
  lemma Ordered(m: Main, failed: set<nat>, threads: nat)
    ensures var m' := TellStop(m, failed, 0, threads);
      && m'.stopping == m.stopping && m'.left == m.left && m'.admitted == m.admitted
      && m'.ring.cq == m.ring.cq && m'.ring.flight == m.ring.flight && m.ring.sq <= m'.ring.sq
      && (forall k: nat {:trigger Queued(m'.ring.sq, k)} :: k < threads ==>
            Queued(m'.ring.sq, k) == Queued(m.ring.sq, k) + if k in failed then [] else [StopNow])
  {
    hide Queued, TellStop;
    TellGrows(m, failed, 0, threads);
    forall k: nat | k < threads
      ensures Queued(TellStop(m, failed, 0, threads).ring.sq, k)
           == Queued(m.ring.sq, k) + if k in failed then [] else [StopNow]
    {
      TellStopMail(m, failed, 0, threads, k);
    }
  }

  lemma {:induction false} TellGrows(m: Main, failed: set<nat>, k: nat, threads: nat)
    requires k <= threads
    ensures var m' := TellStop(m, failed, k, threads);
      && m' == m.(ring := m'.ring) && m'.ring.cq == m.ring.cq && m'.ring.flight == m.ring.flight
      && m.ring.sq <= m'.ring.sq
    decreases threads - k
  {
    if k < threads {
      TellGrows(if k in failed then m else m.(ring := Push(m.ring, Tell(k, 0, WorkerRing(k), StopNow))), failed, k + 1,
                threads);
    }
  }

  lemma CancelledBoth(m: Main, threads: nat)
    ensures var r := Cancelling(m);
      && r.cq == m.ring.cq && r.flight == m.ring.flight && m.ring.sq <= r.sq
      && (m.accepting ==> CancelOp(0) in r.sq) && (m.signalArmed ==> CancelOp(1) in r.sq)
      && forall k: nat {:trigger Queued(r.sq, k)} :: Queued(r.sq, k) == Queued(m.ring.sq, k)
  {
    hide Queued;
    var r := if m.accepting then Push(m.ring, CancelOp(0)) else m.ring;
    forall k: nat ensures Queued(Cancelling(m).sq, k) == Queued(m.ring.sq, k) {
      QueuedAppend(m.ring.sq, CancelOp(0), k);
      QueuedAppend(r.sq, CancelOp(1), k);
      NotQueued(CancelOp(0), k);
      NotQueued(CancelOp(1), k);
    }
  }

  /** A place given back, a message's answer: one place fewer admitted, or nothing; a handover that could not be
      delivered is closed and its place taken back. */
  lemma ToldActs(h: Host, ends: bool, shaped: bool, h': Host)
    requires |h.main.ring.cq| > 0
    requires Enabled(h, MainReap(ends, shaped)) && Do(h, MainReap(ends, shaped)) == Next(h') && HostInv(h)
    requires var kind := h.main.ring.cq[0].token.kind; kind == KFreed || kind == KTold || kind == KCancel
    ensures Reads(h, h') && Quiet(h, h')
    ensures var c := h.main.ring.cq[0];
      if c.token.kind == KFreed then h'.open == h.open && h'.main.admitted == h.main.admitted - 1
      else if c.token.kind == KTold && c.res < 0 then
        c.token.gen == 1 && ClosesOne(h, h', c.token.slot) && h'.main.admitted == h.main.admitted - 1
      else h'.open == h.open && h'.main.admitted == h.main.admitted
  {
    hide WorkersOk, MainOk, Books, MailOk, Stop, Queued, Gather, Hand;
    assert h.open - {} == h.open;
  }

  // ----- in turn -----

  /** Whether step `i` hands a connection over. */
  predicate Handover(h: Host, s: Step) {
    && s.MainReap? && s.shaped && !h.main.stopping
    && |h.main.ring.cq| > 0 && h.main.ring.cq[0].token.kind == KAccept && h.main.ring.cq[0].res >= 0
  }

  ghost function Handovers(hs: seq<Host>, steps: seq<Step>, n: nat): nat
    requires n <= |steps| < |hs|
  {
    if n == 0 then 0 else Handovers(hs, steps, n - 1) + if Handover(hs[n - 1], steps[n - 1]) then 1 else 0
  }

  lemma StepTurn(h: Host, s: Step, h': Host)
    requires HostInv(h) && Enabled(h, s) && Do(h, s) == Next(h')
    ensures |h'.workers| == |h.workers| > 0
    ensures h'.main.nextThread == if Handover(h, s) then (h.main.nextThread + 1) % |h.workers| else h.main.nextThread
  {
    hide HostInv, Queued;
    SomeWorker(h);
    if s.MainReap? {
      ReadTurn(h, s.ends, s.shaped, h');
    } else {
      hide Reap, End, Complete, ClosesWell, Gather;
    }
  }

  lemma SomeWorker(h: Host)
    requires HostInv(h)
    ensures |h.workers| > 0
  {
    hide MainOk, Books, MailOk;
  }

  lemma ReadTurn(h: Host, ends: bool, shaped: bool, h': Host)
    requires |h.workers| > 0 && Enabled(h, MainReap(ends, shaped)) && Do(h, MainReap(ends, shaped)) == Next(h')
    ensures |h'.workers| == |h.workers|
    ensures h'.main.nextThread ==
      if Handover(h, MainReap(ends, shaped)) then (h.main.nextThread + 1) % |h.workers| else h.main.nextThread
  {
    hide TellStop, Cancelling, ClosesWell;
    var m := Shortened(h.main, h.main.ring.cq[0]);
    TellGrows(m.(stopping := true, ring := Cancelling(m)), h.failed, 0, |h.workers|);
  }

  lemma Around(n: nat, threads: nat)
    requires threads > 0
    ensures (n % threads + 1) % threads == (n + 1) % threads
  {
    var q, r := n / threads, n % threads;
    assert n == q * threads + r;
    if r + 1 == threads {
      assert n + 1 == (q + 1) * threads;
      Multiple(q + 1, threads);
    } else {
      Remaining(q, threads, r + 1);
    }
  }

  lemma Remaining(q: nat, d: nat, r: nat)
    requires r < d
    ensures (q * d + r) % d == r
  {
    var n := q * d + r;
    var k := n / d - q;
    assert n == (n / d) * d + n % d;
    assert k * d == r - n % d;
    TimesFar(k, d);
  }

  lemma TimesFar(k: int, d: nat)
    ensures (k >= 1 ==> k * d >= d) && (k <= -1 ==> k * d + d <= 0)
  {
    if k >= 1 {
      assert k * d == d + (k - 1) * d;
    } else if k <= -1 {
      assert k * d + d == (k + 1) * d;
    }
  }

  lemma Multiple(q: nat, d: nat)
    requires d > 0
    ensures (q * d) % d == 0
  {
    Remaining(q, d, 0);
  }

  /** In every run the handovers go round the workers: each is to the worker whose number is how many went before it,
      counted round. */
  lemma {:induction false} InTurn(hs: seq<Host>, steps: seq<Step>, n: nat)
    requires Run(hs, steps) && n < |hs|
    ensures n <= |steps| < |hs| && |hs[n].workers| > 0
    ensures hs[n].main.nextThread == Handovers(hs, steps, n) % |hs[n].workers|
    decreases n
  {
    hide HostInv, Do, Enabled;
    if n == 0 {
      StartTurn(hs, steps);
    } else {
      InTurn(hs, steps, n - 1);
      RunInv(hs, steps, n - 1);
      StepTurn(hs[n - 1], steps[n - 1], hs[n]);
      Around(Handovers(hs, steps, n - 1), |hs[n].workers|);
    }
  }

  lemma StartTurn(hs: seq<Host>, steps: seq<Step>)
    requires Run(hs, steps)
    ensures |hs[0].workers| > 0 && hs[0].main.nextThread == 0
  {
    hide Do, Enabled, TellStop;
    var threads, chunk, failed, amiss, others :|
      Starts(threads, chunk, others) && hs[0] == Start(threads, chunk, failed, amiss, others);
    TellGrows(Main(EmptyRing, amiss || failed != {}, false, false, 0, 0, false), failed, 0, threads);
  }
}
