/** The echo host's order to stop is never forgotten: while the host stops it is on its way to every worker that has not
    taken it, or the main thread has the failure of it to read. */
module EchoStops {
  import opened Gathering
  import opened Summing
  import opened EchoWorker
  import opened EchoSlots
  import opened EchoHost
  import opened EchoSafety
  import opened EchoRuns
  import opened EchoWeights

  // ----- the order to stop is never forgotten -----

  /** A message that could not be delivered and is no handover: the main thread ends with a failure once it reads it. */
  predicate LostStop(c: Completion) { c.token.kind == KTold && c.token.gen != 1 && c.res < 0 }

  ghost predicate SomeLost(m: Main) { exists c :: c in m.ring.cq && LostStop(c) }

  predicate IsStop(op: Op) { op.Tell? && op.message.StopNow? }

  ghost predicate StopComing(h: Host, k: nat)
    requires k < |h.workers|
  {
    StopNow in Mail(h, k) || SomeLost(h.main)
  }

  /** While stopping, every worker that serves on has the order on its way; it is sent to none whose thread failed. */
  ghost predicate StopOk(h: Host) {
    && (h.main.stopping ==>
          forall k: nat {:trigger StopComing(h, k)} :: Serving(h, k) && !h.workers[k].stopping ==> StopComing(h, k))
    && (forall op {:trigger op in h.main.ring.sq} :: op in h.main.ring.sq && IsStop(op) ==>
          op.to.WorkerRing? && op.to.index !in h.failed)
    && (h.main.left ==> h.main.stopping && h.main.ring.sq == [])
  }

  /** A step that sends no order and loses none keeps it. */
  lemma StopKept(h: Host, h': Host)
    requires StopOk(h) && |h'.workers| == |h.workers| && h'.failed == h.failed && h.exited <= h'.exited
    requires h'.main.stopping == h.main.stopping && (SomeLost(h.main) ==> SomeLost(h'.main))
    requires forall k {:trigger h'.workers[k]} :: 0 <= k < |h.workers| && !h'.workers[k].stopping ==>
      !h.workers[k].stopping && (StopNow in Mail(h, k) ==> StopComing(h', k))
    requires forall op {:trigger op in h'.main.ring.sq} :: op in h'.main.ring.sq && IsStop(op) ==> op in h.main.ring.sq
    requires h'.main.left ==> h.main.stopping && h'.main.ring.sq == []
    ensures StopOk(h')
  {
    hide Mail, IsStop, SomeLost;
    if h'.main.stopping {
      forall k: nat | Serving(h', k) && !h'.workers[k].stopping ensures StopComing(h', k) {
        assert StopComing(h, k);
      }
    }
  }

  /** Mail in two halves: what has arrived and what is queued. */
  lemma MailHalves(h: Host, h': Host, k: nat)
    requires k < |h.workers| == |h'.workers|
    requires StopNow in Arrived(h.workers[k].ring.cq) ==> StopNow in Arrived(h'.workers[k].ring.cq)
    requires Queued(h'.main.ring.sq, k) == Queued(h.main.ring.sq, k)
    ensures StopNow in Mail(h, k) ==> StopNow in Mail(h', k)
  {
    hide Arrived, Queued;
  }

  /** One worker changed, what has arrived at it losing no order to stop it has not taken. */
  lemma WorkerStops(h: Host, k: nat, w: Worker, h': Host)
    requires StopOk(h) && k < |h.workers| && h'.workers == h.workers[k := w] && h'.failed == h.failed
    requires h'.exited == h.exited && h'.main.ring.sq == h.main.ring.sq && h'.main.stopping == h.main.stopping
    requires h'.main.left == h.main.left && h.main.ring.cq <= h'.main.ring.cq
    requires !w.stopping ==> !h.workers[k].stopping
    requires !w.stopping && StopNow in Arrived(h.workers[k].ring.cq) ==> StopNow in Arrived(w.ring.cq)
    ensures StopOk(h')
  {
    hide Arrived, Queued, Mail, LostStop, IsStop;
    forall j | 0 <= j < |h.workers| && !h'.workers[j].stopping
      ensures !h.workers[j].stopping && (StopNow in Mail(h, j) ==> StopComing(h', j))
    {
      MailHalves(h, h', j);
    }
    StopKept(h, h');
  }

  lemma EndSame(w: Worker, i: nat)
    requires i < |w.slots|
    ensures End(w, i).ring.cq == w.ring.cq && End(w, i).stopping == w.stopping
  {
  }

  lemma OwnArrived(cq: seq<Completion>, c: Completion)
    requires !Foreign(c.token.kind)
    ensures Arrived(cq + [c]) == Arrived(cq)
  {
    hide Arrived;
    ArrivedAppend(cq, c);
    QuietArrived(c);
  }

  lemma RestArrived(cq: seq<Completion>)
    requires cq != [] && cq[0].token.kind != KStop && StopNow in Arrived(cq)
    ensures StopNow in Arrived(cq[1..])
  {
  }

  lemma ReapStops(h: Host, k: nat)
    requires HostInv(h) && StopOk(h) && Enabled(h, WorkerReap(k)) && Do(h, WorkerReap(k)).Next?
    ensures StopOk(Do(h, WorkerReap(k)).value)
  {
    hide Gather, Claims, Inv, Arrived, Queued, MainOk, Books, Reap, Unreaped, StopOk, ClosesWell, MailOk, Traded;
    var w := h.workers[k];
    assert Inv(w);
    if w.ring.cq[0].token.kind == KHanded { RoomLeft(h, k); }
    ReapKeeps(w);
    var w' := Reap(w).value;
    if !w'.stopping && StopNow in Arrived(w.ring.cq) { RestArrived(w.ring.cq); }
    WorkerStops(h, k, w', Do(h, WorkerReap(k)).value);
  }

  lemma SubmitStops(h: Host, k: nat, delivered: bool)
    requires StopOk(h) && Enabled(h, WorkerSubmit(k, delivered)) && OpOk(h.workers[k].ring.sq[0], h.workers[k].slots, k)
    ensures StopOk(Do(h, WorkerSubmit(k, delivered)).value)
  {
    hide Arrived, Queued, StopOk;
    var w, h' := h.workers[k], Do(h, WorkerSubmit(k, delivered)).value;
    var op := w.ring.sq[0];
    if op.Tell? { OwnArrived(w.ring.cq, Completion(TokenOf(op), if delivered then 0 else -1)); }
    WorkerStops(h, k, h'.workers[k], h');
  }

  lemma CompleteStops(h: Host, k: nat, j: nat, res: int, data: seq<byte>)
    requires StopOk(h) && Enabled(h, WorkerComplete(k, j, res, data))
    ensures StopOk(Do(h, WorkerComplete(k, j, res, data)).value)
  {
    hide Arrived, Queued, StopOk, Moved;
    var w, h' := h.workers[k], Do(h, WorkerComplete(k, j, res, data)).value;
    OwnArrived(w.ring.cq, Completion(TokenOf(w.ring.flight[j]), res));
    WorkerStops(h, k, h'.workers[k], h');
  }

  /** The main thread's ring changed, with every worker's messages queued as they were. */
  lemma MainStops(h: Host, h': Host)
    requires StopOk(h) && h'.workers == h.workers && h'.failed == h.failed && h'.exited == h.exited
    requires h'.main.stopping == h.main.stopping && (SomeLost(h.main) ==> SomeLost(h'.main))
    requires forall k: nat {:trigger Queued(h'.main.ring.sq, k)} ::
      Queued(h'.main.ring.sq, k) == Queued(h.main.ring.sq, k)
    requires forall op {:trigger op in h'.main.ring.sq} :: op in h'.main.ring.sq && IsStop(op) ==> op in h.main.ring.sq
    requires h'.main.left ==> h.main.stopping && h'.main.ring.sq == []
    ensures StopOk(h')
  {
    hide Arrived, Queued, Mail, SomeLost, IsStop;
    forall j | 0 <= j < |h.workers| && !h'.workers[j].stopping
      ensures !h.workers[j].stopping && (StopNow in Mail(h, j) ==> StopComing(h', j))
    {
      assert Queued(h'.main.ring.sq, j) == Queued(h.main.ring.sq, j);
      MailHalves(h, h', j);
    }
    StopKept(h, h');
  }

  lemma MoreLost(m: Main, m': Main)
    requires m.ring.cq <= m'.ring.cq
    ensures SomeLost(m) ==> SomeLost(m')
  {
    hide LostStop;
  }

  lemma PushedQueued(sq: seq<Op>, op: Op, k: nat)
    requires !op.Tell?
    ensures Queued(sq + [op], k) == Queued(sq, k)
  {
    hide Queued;
    QueuedAppend(sq, op, k);
    NotQueued(op, k);
  }

  lemma ArmStops(h: Host, s: Step)
    requires StopOk(h) && (s.MainArmSignal? || s.MainArmAccept?) && Enabled(h, s)
    ensures StopOk(Do(h, s).value)
  {
    hide Arrived, Queued, StopOk, LostStop;
    var op, h' := if s.MainArmSignal? then PollSignal else Accept, Do(h, s).value;
    forall k: nat ensures Queued(h'.main.ring.sq, k) == Queued(h.main.ring.sq, k) {
      PushedQueued(h.main.ring.sq, op, k);
    }
    MoreLost(h.main, h'.main);
    MainStops(h, h');
  }

  lemma FirstStays(sq: seq<Op>, op: Op)
    requires sq != [] && op in sq[1..]
    ensures op in sq
  {
  }

  /** An entry of the main thread's taken by the kernel: a message arrives, is lost or is none. */
  lemma MainSubmitStops(h: Host, delivered: bool)
    requires Enabled(h, MainSubmit(delivered)) && MainOp(h.main.ring.sq[0], |h.workers|) && StopOk(h)
    ensures StopOk(Do(h, MainSubmit(delivered)).value)
  {
    hide Arrived, Queued, StopOk, LostStop;
    var sq, h' := h.main.ring.sq, Do(h, MainSubmit(delivered)).value;
    assert h'.main.ring.sq == sq[1..] && h.main.ring.cq <= h'.main.ring.cq;
    MoreLost(h.main, h'.main);
    if !sq[0].Tell? {
      forall k: nat ensures Queued(h'.main.ring.sq, k) == Queued(sq, k) {
        FirstQueued(sq, k);
        NotQueued(sq[0], k);
      }
      MainStops(h, h');
    } else {
      if !delivered && sq[0].message.StopNow? { NowLost(h, h'); }
      forall k | 0 <= k < |h.workers| && !h'.workers[k].stopping
        ensures !h.workers[k].stopping && (StopNow in Mail(h, k) ==> StopComing(h', k))
      {
        ToldMail(h, delivered, k);
      }
      LeftNothing(h);
      StopKept(h, h');
    }
  }

  lemma LeftNothing(h: Host)
    requires StopOk(h) && h.main.ring.sq != []
    ensures !h.main.left
  {
  }

  lemma NowLost(h: Host, h': Host)
    requires |h.main.ring.sq| > 0 && MainOp(h.main.ring.sq[0], |h.workers|) && IsStop(h.main.ring.sq[0])
    requires h'.main == MainTold(h.main, -1)
    ensures SomeLost(h'.main)
  {
    var c := Completion(TokenOf(h.main.ring.sq[0]), -1);
    assert h'.main.ring.cq[|h.main.ring.cq|] == c && LostStop(c);
  }

  lemma ToldMail(h: Host, delivered: bool, k: nat)
    requires Enabled(h, MainSubmit(delivered)) && h.main.ring.sq[0].Tell? && MainOp(h.main.ring.sq[0], |h.workers|)
    requires k < |h.workers|
    ensures var h' := Do(h, MainSubmit(delivered)).value;
      && |h'.workers| == |h.workers| && h'.workers[k].stopping == h.workers[k].stopping
      && (StopNow in Mail(h, k) ==> StopNow in Mail(h', k) || (!delivered && h.main.ring.sq[0].message.StopNow?))
  {
    hide Arrived, Queued;
    var sq, h' := h.main.ring.sq, Do(h, MainSubmit(delivered)).value;
    var op := sq[0];
    FirstQueued(sq, k);
    NotQueued(op, k);
    if delivered {
      var c := if op.message.StopNow? then Completion(Token(KStop, 0, 0), 0)
               else Completion(Token(KHanded, 0, 0), op.message.fd);
      ArrivedAppend(h.workers[k].ring.cq, c);
      QuietArrived(c);
    }
  }

  lemma MainCompleteStops(h: Host, j: nat, res: int)
    requires StopOk(h) && Enabled(h, MainComplete(j, res))
    ensures StopOk(Do(h, MainComplete(j, res)).value)
  {
    hide Arrived, Queued, StopOk, LostStop;
    var h' := Do(h, MainComplete(j, res)).value;
    MoreLost(h.main, h'.main);
    LeftOk(h);
    MainStops(h, h');
  }

  lemma LeftOk(h: Host)
    requires StopOk(h)
    ensures h.main.left ==> h.main.stopping && h.main.ring.sq == []
  {
  }

  lemma LeaveStops(h: Host)
    requires Enabled(h, MainLeave) && h.main.ring.sq == [] && StopOk(h)
    ensures StopOk(Do(h, MainLeave).value)
  {
    hide Arrived, Queued, StopOk, LostStop;
    MainStops(h, Do(h, MainLeave).value);
  }

  lemma ExitStops(h: Host, k: nat)
    requires StopOk(h) && Enabled(h, WorkerExit(k))
    ensures StopOk(Do(h, WorkerExit(k)).value)
  {
    hide Arrived, Queued, StopOk, Mail, SomeLost;
    var h' := Do(h, WorkerExit(k)).value;
    LeftOk(h);
    forall j | 0 <= j < |h.workers| ensures Mail(h', j) == Mail(h, j) { SameMailAt(h, h', j); }
    StopKept(h, h');
  }

  lemma SameMailAt(h: Host, h': Host, k: nat)
    requires k < |h.workers| == |h'.workers| && h'.workers[k].ring.cq == h.workers[k].ring.cq
    requires h'.main.ring.sq == h.main.ring.sq
    ensures Mail(h', k) == Mail(h, k)
  {
    hide Arrived, Queued;
  }

  // ----- the main thread acting on a completion -----

  lemma OthersLost(m: Main, m': Main)
    requires |m.ring.cq| > 0 && m'.ring.cq == m.ring.cq[1..] && !LostStop(m.ring.cq[0])
    ensures SomeLost(m) ==> SomeLost(m')
  {
    if c :| c in m.ring.cq && LostStop(c) { assert c in m.ring.cq[1..]; }
  }

  /** The orders a stop sends, one to each worker whose thread runs. */
  lemma {:induction false} TellsStop(m: Main, failed: set<nat>, k: nat, threads: nat)
    requires k <= threads
    ensures var m' := TellStop(m, failed, k, threads);
      && m'.stopping == m.stopping && m'.left == m.left && m'.ring.cq == m.ring.cq
      && forall op {:trigger op in m'.ring.sq} :: op in m'.ring.sq ==>
           op in m.ring.sq || (IsStop(op) && op.to.WorkerRing? && op.to.index !in failed)
    decreases threads - k
  {
    if k < threads && k !in failed {
      TellsStop(m.(ring := Push(m.ring, Tell(k, 0, WorkerRing(k), StopNow))), failed, k + 1, threads);
    } else if k < threads {
      TellsStop(m, failed, k + 1, threads);
    }
  }

  lemma StopSent(h: Host, m: Main, h': Host)
    requires StopOk(h) && !h.main.stopping && m.stopping && !m.left
    requires forall op {:trigger op in m.ring.sq} :: op in m.ring.sq && IsStop(op) ==> op in h.main.ring.sq
    requires h'.main == TellStop(m, h.failed, 0, |h.workers|) && h'.workers == h.workers && h'.failed == h.failed
    ensures StopOk(h')
  {
    hide Arrived, Queued, TellStop, IsStop;
    TellsStop(m, h.failed, 0, |h.workers|);
    forall k: nat | Serving(h', k) && !h'.workers[k].stopping ensures StopComing(h', k) {
      TellStopMail(m, h.failed, 0, |h.workers|, k);
      var mail := Mail(h', k);
      assert mail[|mail| - 1] == StopNow;
    }
  }

  /** The main thread once a completion is off its queue, its own flags cleared. */
  function Shortened(m: Main, c: Completion): Main
    requires |m.ring.cq| > 0
  {
    var r := m.ring.(cq := m.ring.cq[1..]);
    var r1 := if c.token.kind == KFreed || m.ring.live == 0 then r else r.(live := m.ring.live - 1);
    m.(ring := r1, accepting := m.accepting && c.token.kind != KAccept,
       signalArmed := m.signalArmed && c.token.kind != KSignal)
  }

  /** What acting on a completion makes of the main thread: a handover, a stop, or nothing of either. */
  lemma MainReapIs(h: Host, ends: bool, shaped: bool)
    requires Enabled(h, MainReap(ends, shaped)) && Do(h, MainReap(ends, shaped)).Next?
    ensures var h', c := Do(h, MainReap(ends, shaped)).value, h.main.ring.cq[0];
      var m := Shortened(h.main, c);
      && !LostStop(c) && |h.workers| > 0
      && h'.workers == h.workers && h'.failed == h.failed && h'.exited == h.exited && h'.main.left == h.main.left
      && (|| (h'.main.ring.sq == h.main.ring.sq && h'.main.stopping == h.main.stopping &&
              h'.main.ring.cq == h.main.ring.cq[1..] && h'.main.ring.flight == h.main.ring.flight)
          || (!h.main.stopping && c.res >= 0 && h'.main == Hand(m, c.res, |h.workers|))
          || (!h.main.stopping && h'.main == Stop(m, h.failed, |h.workers|)))
  {
    hide ClosesWell, Stop, Hand, LostStop;
    StopIs(Shortened(h.main, h.main.ring.cq[0]), h.failed, |h.workers|);
    NotLost(h, ends, shaped);
    StopLeft(Shortened(h.main, h.main.ring.cq[0]), h.failed, |h.workers|);
    HandLeft(Shortened(h.main, h.main.ring.cq[0]), h.main.ring.cq[0].res, |h.workers|);
  }

  lemma NotLost(h: Host, ends: bool, shaped: bool)
    requires Enabled(h, MainReap(ends, shaped)) && Do(h, MainReap(ends, shaped)).Next?
    ensures !LostStop(h.main.ring.cq[0])
  {
    hide ClosesWell, Stop, Hand;
  }

  lemma StopIs(m: Main, failed: set<nat>, threads: nat)
    ensures m.stopping ==> Stop(m, failed, threads) == m
  {
  }

  lemma StopLeft(m: Main, failed: set<nat>, threads: nat)
    ensures Stop(m, failed, threads).left == m.left
  {
    hide TellStop, Cancelling;
    TellsStop(m.(stopping := true, ring := Cancelling(m)), failed, 0, threads);
  }

  lemma HandLeft(m: Main, fd: int, threads: nat)
    ensures fd >= 0 && threads > 0 ==> Hand(m, fd, threads).left == m.left
  {
  }

  lemma MainReapStops(h: Host, ends: bool, shaped: bool)
    requires StopOk(h) && Enabled(h, MainReap(ends, shaped)) && Do(h, MainReap(ends, shaped)).Next?
    ensures StopOk(Do(h, MainReap(ends, shaped)).value)
  {
    hide Arrived, Queued, StopOk, LostStop, Do, Stop, Hand, SomeLost;
    var c, h' := h.main.ring.cq[0], Do(h, MainReap(ends, shaped)).value;
    var m := Shortened(h.main, c);
    MainReapIs(h, ends, shaped);
    LeftOk(h);
    if h'.main.ring.sq == h.main.ring.sq && h'.main.stopping == h.main.stopping &&
       h'.main.ring.cq == h.main.ring.cq[1..] {
      OthersLost(h.main, h'.main);
      MainStops(h, h');
    } else if c.res >= 0 && h'.main == Hand(m, c.res, |h.workers|) {
      HandStops(h, m, c.res, h');
    } else {
      StopStops(h, m, h');
    }
  }

  lemma HandStops(h: Host, m: Main, fd: nat, h': Host)
    requires StopOk(h) && |h.workers| > 0 && !h.main.stopping && !h.main.left && m.ring.sq == h.main.ring.sq
    requires m.stopping == h.main.stopping && m.left == h.main.left && h'.main == Hand(m, fd, |h.workers|)
    requires h'.workers == h.workers && h'.failed == h.failed && h'.exited == h.exited
    ensures StopOk(h')
  {
    hide Arrived, Queued;
  }

  lemma StopStops(h: Host, m: Main, h': Host)
    requires StopOk(h) && !h.main.left && m.ring.sq == h.main.ring.sq && m.left == h.main.left
    requires !h.main.stopping && !m.stopping && h'.main == Stop(m, h.failed, |h.workers|)
    requires h'.workers == h.workers && h'.failed == h.failed
    ensures StopOk(h')
  {
    hide StopOk, TellStop;
    StopSent(h, m.(stopping := true, ring := Cancelling(m)), h');
  }

  // ----- every run -----

  lemma StepStops(h: Host, s: Step)
    requires HostInv(h) && StopOk(h) && Enabled(h, s) && Do(h, s).Next?
    ensures StopOk(Do(h, s).value)
  {
    hide HostInv, StopOk, Arrived, Queued;
    match s
    case WorkerReap(k) => ReapStops(h, k);
    case WorkerExpire(k, i) =>
      EndSame(h.workers[k], i);
      WorkerStops(h, k, End(h.workers[k], i), Do(h, s).value);
    case WorkerExit(k) => ExitStops(h, k);
    case WorkerSubmit(k, delivered) =>
      FirstOk(h, k);
      SubmitStops(h, k, delivered);
    case WorkerComplete(k, j, res, data) => CompleteStops(h, k, j, res, data);
    case MainReap(ends, shaped) => MainReapStops(h, ends, shaped);
    case MainArmSignal => ArmStops(h, s);
    case MainArmAccept => ArmStops(h, s);
    case MainLeave =>
      MainCloses(h);
      LeaveStops(h);
    case MainSubmit(delivered) =>
      FirstOfMain(h);
      MainSubmitStops(h, delivered);
    case MainComplete(j, res) => MainCompleteStops(h, j, res);
  }

  lemma FirstOk(h: Host, k: nat)
    requires HostInv(h) && k < |h.workers| && |h.workers[k].ring.sq| > 0
    ensures OpOk(h.workers[k].ring.sq[0], h.workers[k].slots, k)
  {
    hide Gather, MainOk, Books, MailOk, Counted, Current;
    assert Inv(h.workers[k]) && h.workers[k].index == k;
  }

  lemma FirstOfMain(h: Host)
    requires HostInv(h) && |h.main.ring.sq| > 0
    ensures MainOp(h.main.ring.sq[0], |h.workers|)
  {
    hide Gather, WorkersOk, Books, MailOk, MainOk;
    FirstIsMain(h.main, |h.workers|);
  }

  lemma StartStops(threads: nat, chunk: nat, failed: set<nat>, amiss: bool, others: set<int>)
    ensures StopOk(Start(threads, chunk, failed, amiss, others))
  {
    hide Arrived, Queued, TellStop;
    var h := Start(threads, chunk, failed, amiss, others);
    var m := Main(EmptyRing, amiss || failed != {}, false, false, 0, 0, false);
    if m.stopping { StopSent(h.(main := m.(stopping := false)), m, h); }
  }

  lemma {:induction false} RunStops(hs: seq<Host>, steps: seq<Step>, i: nat)
    requires Run(hs, steps) && i < |hs|
    ensures HostInv(hs[i]) && StopOk(hs[i])
  {
    hide HostInv, Do, StopOk;
    RunInv(hs, steps, i);
    if i == 0 {
      var threads, chunk, failed, amiss, others :|
        Starts(threads, chunk, others) && hs[0] == Start(threads, chunk, failed, amiss, others);
      StartStops(threads, chunk, failed, amiss, others);
    } else {
      RunStops(hs, steps, i - 1);
      StepStops(hs[i - 1], steps[i - 1]);
    }
  }
}
