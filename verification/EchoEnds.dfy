/** From every state in which the echo host is stopping and has lost no message, some run ends with every worker and the
    main thread gone: there is always a step that leaves less to do. */
module EchoEnds {
  import opened Gathering
  import opened Summing
  import opened EchoWorker
  import opened EchoSlots
  import opened EchoHost
  import opened EchoSafety
  import opened EchoRuns
  import opened EchoWeights
  import opened EchoStops

  function Inside(h: Host): set<nat> { set k: nat | k < |h.workers| && k !in h.exited }

  /** What is left to do. */
  function HostWeight(h: Host): nat {
    RingWeight(h.main.ring) + Sum(h.workers, Weight) + |Inside(h)| + if h.main.left then 0 else 1
  }

  predicate LostTold(c: Completion) { c.token.kind == KTold && c.res < 0 }

  ghost predicate NoneLost(cq: seq<Completion>) { forall c {:trigger c in cq} :: c in cq ==> !LostTold(c) }

  /** No message was lost that its sender has still to read of: the main thread's orders, the workers' give-backs. */
  ghost predicate NoLost(h: Host) {
    && !SomeLost(h.main)
    && forall k: nat {:trigger h.workers[k]} :: Serving(h, k) ==> NoneLost(h.workers[k].ring.cq)
  }

  predicate Done(h: Host) { h.main.left && forall k {:trigger k in h.exited} :: 0 <= k < |h.workers| ==>
    k in h.exited || k in h.failed }

  /** A step towards the end. */
  ghost predicate Nearer(h: Host, s: Step) {
    && Enabled(h, s) && Do(h, s).Next?
    && NoLost(Do(h, s).value) && Do(h, s).value.main.stopping && HostWeight(Do(h, s).value) < HostWeight(h)
  }

  lemma WorkerLess(h: Host, k: nat, w: Worker, h': Host, more: nat)
    requires k < |h.workers| && h'.workers == h.workers[k := w] && Weight(w) + more < Weight(h.workers[k])
    requires RingWeight(h'.main.ring) == RingWeight(h.main.ring) + more
    requires h'.main.left == h.main.left && h'.exited == h.exited
    ensures HostWeight(h') < HostWeight(h)
  {
    hide Sum, Weight, RingWeight;
    SumUpdate(h.workers, k, w, Weight);
    assert Inside(h') == Inside(h);
  }

  lemma MainLess(h: Host, h': Host)
    requires h'.workers == h.workers && h'.main.left == h.main.left && h'.exited == h.exited
    requires RingWeight(h'.main.ring) < RingWeight(h.main.ring)
    ensures HostWeight(h') < HostWeight(h)
  {
    hide Sum, Weight, RingWeight;
    assert Inside(h') == Inside(h);
  }

  // ----- what is lost -----

  lemma WorkerNoLost(h: Host, k: nat, w: Worker, h': Host)
    requires NoLost(h) && Serving(h, k) && h'.workers == h.workers[k := w] && NoneLost(w.ring.cq)
    requires h'.failed == h.failed && h'.exited == h.exited && !SomeLost(h'.main)
    ensures NoLost(h')
  {
    hide NoneLost, SomeLost;
    forall i: nat | Serving(h', i) ensures NoneLost(h'.workers[i].ring.cq) {
      assert Serving(h, i);
      if i != k { assert NoneLost(h.workers[i].ring.cq); }
    }
  }

  lemma MainNoLost(h: Host, h': Host)
    requires NoLost(h) && h'.workers == h.workers && h'.failed == h.failed && h'.exited == h.exited
    requires !SomeLost(h'.main)
    ensures NoLost(h')
  {
    hide NoneLost, SomeLost;
    forall i: nat | Serving(h', i) ensures NoneLost(h'.workers[i].ring.cq) { assert Serving(h, i); }
  }

  lemma AppendLost(m: Main, m': Main, c: Completion)
    requires !SomeLost(m) && m'.ring.cq == m.ring.cq + [c] && !LostStop(c)
    ensures !SomeLost(m')
  {
  }

  lemma AppendNone(cq: seq<Completion>, c: Completion)
    requires NoneLost(cq) && !LostTold(c)
    ensures NoneLost(cq + [c])
  {
  }

  lemma RestLost(m: Main, m': Main)
    requires !SomeLost(m) && m.ring.cq != [] && m'.ring.cq == m.ring.cq[1..]
    ensures !SomeLost(m') && !LostStop(m.ring.cq[0])
  {
    assert m.ring.cq[0] in m.ring.cq;
  }

  // ----- a worker's steps -----

  lemma ReapNearer(h: Host, k: nat)
    requires HostInv(h) && NoLost(h) && h.main.stopping && Serving(h, k) && |h.workers[k].ring.cq| > 0
    ensures Nearer(h, WorkerReap(k))
  {
    hide Gather, Claims, MainOk, MailOk, Books, Reap, Weight, RingWeight, ClosesWell, SomeLost, Counted, Current;
    hide HostWeight;
    var w, s := h.workers[k], WorkerReap(k);
    NeverStuck(h, k);
    StepSafe(h, s);
    assert Inv(w) && NoneLost(w.ring.cq) && w.ring.cq[0] in w.ring.cq;
    assert CompletionOk(w.ring.cq[0], w.slots);
    if w.ring.cq[0].token.kind == KHanded { RoomLeft(h, k); }
    ReapKeeps(w);
    var h', w' := Do(h, s).value, Reap(w).value;
    ReapWeight(w);
    WorkerLess(h, k, w', h', 0);
    RestNone(w.ring.cq);
    WorkerNoLost(h, k, w', h');
  }

  lemma RestNone(cq: seq<Completion>)
    requires NoneLost(cq) && cq != []
    ensures NoneLost(cq[1..]) && !LostTold(cq[0])
  {
    assert cq[0] in cq;
    assert forall c :: c in cq[1..] ==> c in cq;
  }

  lemma SubmitNearer(h: Host, k: nat)
    requires NoLost(h) && h.main.stopping && Serving(h, k) && |h.workers[k].ring.sq| > 0
    requires OpOk(h.workers[k].ring.sq[0], h.workers[k].slots, k)
    ensures Nearer(h, WorkerSubmit(k, true))
  {
    hide Weight, RingWeight, SomeLost, NoneLost, HostWeight;
    var w, h' := h.workers[k], Do(h, WorkerSubmit(k, true)).value;
    var r, op := w.ring, w.ring.sq[0];
    TakenWeight(r, 0);
    assert NoneLost(r.cq);
    if op.Tell? {
      var c := Completion(Token(KFreed, k, 0), 0);
      OnRing(w, Told(w, 0).ring);
      CompletedMain(h.main.ring, c);
      AppendNone(r.cq, Completion(TokenOf(op), 0));
      AppendLost(h.main, h'.main, c);
      WorkerLess(h, k, Told(w, 0), h', 1);
      WorkerNoLost(h, k, Told(w, 0), h');
    } else {
      OnRing(w, Submit(w).ring);
      WorkerLess(h, k, Submit(w), h', 0);
      WorkerNoLost(h, k, Submit(w), h');
    }
  }

  lemma CompletedMain(r: Ring, c: Completion)
    ensures RingWeight(r.(cq := r.cq + [c])) == RingWeight(r) + DoneWeight(c)
  {
    hide Sum;
    SumAppend(r.cq, c, DoneWeight);
  }

  lemma CompleteNearer(h: Host, k: nat)
    requires NoLost(h) && h.main.stopping && Enabled(h, WorkerComplete(k, 0, 0, []))
    ensures Nearer(h, WorkerComplete(k, 0, 0, []))
  {
    hide Weight, RingWeight, SomeLost, NoneLost, HostWeight;
    var w, h' := h.workers[k], Do(h, WorkerComplete(k, 0, 0, [])).value;
    var w', op := Complete(w, 0, 0, []), w.ring.flight[0];
    assert w'.slots == w.slots && w' == w.(ring := Landed(w.ring, 0, 0));
    LandWeight(w.ring, 0, 0);
    OnRing(w, Landed(w.ring, 0, 0));
    assert NoneLost(w.ring.cq);
    AppendNone(w.ring.cq, Completion(TokenOf(op), 0));
    WorkerLess(h, k, w', h', 0);
    WorkerNoLost(h, k, w', h');
  }

  // ----- the main thread's -----

  lemma MainReapNearer(h: Host)
    requires HostInv(h) && NoLost(h) && h.main.stopping && !h.main.left && |h.main.ring.cq| > 0
    ensures Nearer(h, MainReap(false, true))
  {
    hide HostInv, Weight, RingWeight, SomeLost, NoneLost, HostWeight, Do, LostStop;
    var s := MainReap(false, true);
    StepSafe(h, s);
    RestLost(h.main, Shortened(h.main, h.main.ring.cq[0]));
    MainGoesOn(h);
    MainReapIs(h, false, true);
    var h' := Do(h, s).value;
    RestLost(h.main, h'.main);
    PopWeight(h.main.ring, h'.main.ring.live);
    MainLess(h, h');
    MainNoLost(h, h');
  }

  lemma MainGoesOn(h: Host)
    requires Enabled(h, MainReap(false, true)) && !LostStop(h.main.ring.cq[0])
    ensures !Do(h, MainReap(false, true)).Harness?
  {
    hide ClosesWell, Stop, Hand;
  }

  lemma MainCompleteNearer(h: Host)
    requires NoLost(h) && h.main.stopping && !h.main.left && |h.main.ring.flight| > 0 && !h.main.ring.flight[0].Tell?
    ensures Nearer(h, MainComplete(0, -1))
  {
    hide Weight, RingWeight, SomeLost, NoneLost, HostWeight;
    var h', op := Do(h, MainComplete(0, -1)).value, h.main.ring.flight[0];
    LandWeight(h.main.ring, 0, -1);
    AppendLost(h.main, h'.main, Completion(TokenOf(op), -1));
    MainLess(h, h');
    MainNoLost(h, h');
  }

  lemma MainSubmitNearer(h: Host) returns (s: Step)
    requires HostInv(h) && StopOk(h) && NoLost(h) && h.main.stopping && !h.main.left && |h.main.ring.sq| > 0
    ensures Nearer(h, s)
  {
    hide HostInv, StopOk, Nearer, NoLost;
    FirstOfMain(h);
    var op := h.main.ring.sq[0];
    if !op.Tell? {
      s := MainSubmit(false);
      PlainNearer(h);
    } else if Serving(h, op.to.index) {
      s := MainSubmit(true);
      DeliveredNearer(h);
    } else {
      s := MainSubmit(false);
      StopServed(h);
      UndeliveredNearer(h);
    }
  }

  lemma PlainNearer(h: Host)
    requires NoLost(h) && h.main.stopping && !h.main.left && |h.main.ring.sq| > 0 && !h.main.ring.sq[0].Tell?
    ensures Nearer(h, MainSubmit(false))
  {
    hide Weight, RingWeight, SomeLost, NoneLost, HostWeight, LostStop;
    var h' := Do(h, MainSubmit(false)).value;
    TakenWeight(h.main.ring, 0);
    SameLost(h.main, h'.main);
    MainLess(h, h');
    MainNoLost(h, h');
  }

  lemma SameLost(m: Main, m': Main)
    requires !SomeLost(m) && m'.ring.cq == m.ring.cq
    ensures !SomeLost(m')
  {
  }

  lemma UndeliveredNearer(h: Host)
    requires NoLost(h) && h.main.stopping && !h.main.left && |h.main.ring.sq| > 0 && h.main.ring.sq[0].Tell?
    requires MainOp(h.main.ring.sq[0], |h.workers|) && h.main.ring.sq[0].message.Handed?
    ensures Nearer(h, MainSubmit(false))
  {
    hide Weight, RingWeight, SomeLost, NoneLost, HostWeight;
    var h', op := Do(h, MainSubmit(false)).value, h.main.ring.sq[0];
    TakenWeight(h.main.ring, -1);
    AppendLost(h.main, h'.main, Completion(TokenOf(op), -1));
    MainLess(h, h');
    MainNoLost(h, h');
  }

  lemma DeliveredNearer(h: Host)
    requires NoLost(h) && h.main.stopping && !h.main.left && |h.main.ring.sq| > 0 && h.main.ring.sq[0].Tell?
    requires MainOp(h.main.ring.sq[0], |h.workers|) && Serving(h, h.main.ring.sq[0].to.index)
    ensures Nearer(h, MainSubmit(true))
  {
    hide Weight, RingWeight, SomeLost, NoneLost, Sum;
    var h', op := Do(h, MainSubmit(true)).value, h.main.ring.sq[0];
    var k := op.to.index;
    var w, c := h.workers[k], if op.message.StopNow? then Completion(Token(KStop, 0, 0), 0)
                              else Completion(Token(KHanded, 0, 0), op.message.fd);
    var w' := Arrive(w, c);
    assert h' == WithWorker(h.(main := MainTold(h.main, 0)), k, w');
    TakenWeight(h.main.ring, 0);
    CompletedMain(w.ring, c);
    OnRing(w, w'.ring);
    SumUpdate(h.workers, k, w', Weight);
    assert Inside(h') == Inside(h);
    AppendLost(h.main, h'.main, Completion(TokenOf(op), 0));
    assert NoneLost(w.ring.cq);
    AppendNone(w.ring.cq, c);
    WorkerNoLost(h, k, w', h');
  }

  /** An order to stop is sent to a worker that serves: one that has left has no message to come. */
  lemma StopServed(h: Host)
    requires HostInv(h) && StopOk(h) && |h.main.ring.sq| > 0 && MainOp(h.main.ring.sq[0], |h.workers|)
    requires h.main.ring.sq[0].Tell? && !Serving(h, h.main.ring.sq[0].to.index)
    ensures h.main.ring.sq[0].message.Handed?
  {
    hide Gather, WorkersOk, MainOk, Books, Arrived, Queued;
    var op := h.main.ring.sq[0];
    if op.message.StopNow? {
      var k := op.to.index;
      assert op in h.main.ring.sq;
      assert MailShaped(Mail(h, k), h.main.stopping, h.workers[k].stopping);
      FirstQueued(h.main.ring.sq, k);
      NotQueued(op, k);
    }
  }

  // ----- leaving -----

  lemma LeaveNearer(h: Host)
    requires HostInv(h) && NoLost(h) && h.main.stopping && !h.main.left
    requires h.main.ring.cq == [] && h.main.ring.sq == [] && h.main.ring.flight == []
    ensures Nearer(h, MainLeave)
  {
    hide WorkersOk, Books, MailOk, SomeLost, NoneLost;
    assert MainUnreaped(h.main.ring) == multiset{};
    var h' := Do(h, MainLeave).value;
    assert Inside(h') == Inside(h);
    SameLost(h.main, h'.main);
    MainNoLost(h, h');
  }

  predicate Idle(r: Ring) { r.cq == [] && r.sq == [] && r.flight == [] }

  /** A worker with nothing in its ring and nothing to come has taken its order and holds nothing. */
  lemma ExitReady(h: Host, k: nat)
    requires HostInv(h) && StopOk(h) && NoLost(h) && h.main.left && Serving(h, k) && Idle(h.workers[k].ring)
    ensures Enabled(h, WorkerExit(k))
  {
    hide MainOk, Books, MailOk, SomeLost, NoneLost, Gather;
    var w := h.workers[k];
    assert Inv(w);
    NothingComes(h, k);
    IdleEmpty(w);
  }

  lemma NothingComes(h: Host, k: nat)
    requires StopOk(h) && NoLost(h) && h.main.left && Serving(h, k) && Idle(h.workers[k].ring)
    ensures h.workers[k].stopping
  {
    hide SomeLost, NoneLost;
    assert Mail(h, k) == [];
    assert !StopComing(h, k);
  }

  lemma IdleEmpty(w: Worker)
    requires Inv(w) && Idle(w.ring)
    ensures w.ring.live == 0 && w.held == 0
  {
    assert Unreaped(w.ring) == multiset{};
    forall i | 0 <= i < |w.slots| ensures SlotClaims(w.slots[i]) == multiset{} {
      assert SlotOk(w.slots[i], i, Unreaped(w.ring));
    }
    EmptyClaims(w.slots, SlotClaims);
  }

  lemma ExitNearer(h: Host, k: nat)
    requires NoLost(h) && h.main.stopping && Enabled(h, WorkerExit(k))
    ensures Nearer(h, WorkerExit(k))
  {
    hide SomeLost, NoneLost, RingWeight, Weight, Sum;
    var h' := Do(h, WorkerExit(k)).value;
    assert Inside(h') == Inside(h) - {k} && k in Inside(h);
    forall i: nat | Serving(h', i) ensures NoneLost(h'.workers[i].ring.cq) { assert Serving(h, i); }
  }

  // ----- there is always a step -----

  lemma WorkerNearer(h: Host, k: nat) returns (s: Step)
    requires HostInv(h) && NoLost(h) && h.main.stopping && Serving(h, k) && !Idle(h.workers[k].ring)
    ensures Nearer(h, s)
  {
    hide HostInv, NoLost, Nearer;
    if h.workers[k].ring.cq != [] {
      s := WorkerReap(k);
      ReapNearer(h, k);
    } else if h.workers[k].ring.sq != [] {
      s := WorkerSubmit(k, true);
      FirstOk(h, k);
      SubmitNearer(h, k);
    } else {
      s := WorkerComplete(k, 0, 0, []);
      NeverStuck(h, k);
      assert Answers(h.workers[k].ring.flight[0], 0, []);
      CompleteNearer(h, k);
    }
  }

  lemma MainNearer(h: Host) returns (s: Step)
    requires HostInv(h) && StopOk(h) && NoLost(h) && h.main.stopping && !h.main.left
    ensures Nearer(h, s)
  {
    hide HostInv, StopOk, NoLost, Nearer;
    if h.main.ring.cq != [] {
      s := MainReap(false, true);
      MainReapNearer(h);
    } else if h.main.ring.sq != [] {
      s := MainSubmitNearer(h);
    } else if h.main.ring.flight != [] {
      s := MainComplete(0, -1);
      FlightPlain(h);
      MainCompleteNearer(h);
    } else {
      s := MainLeave;
      LeaveNearer(h);
    }
  }

  lemma FlightPlain(h: Host)
    requires HostInv(h) && |h.main.ring.flight| > 0
    ensures !h.main.ring.flight[0].Tell?
  {
    hide Gather, WorkersOk, Books, MailOk;
  }

  /** While the stop is not at its end some step leaves less to do. */
  lemma AlwaysNearer(h: Host) returns (s: Step)
    requires HostInv(h) && StopOk(h) && NoLost(h) && h.main.stopping && !Done(h)
    ensures Nearer(h, s)
  {
    hide HostInv, StopOk, NoLost, Nearer;
    if !h.main.left {
      s := MainNearer(h);
    } else {
      var k :| 0 <= k < |h.workers| && k !in h.exited && k !in h.failed;
      if Idle(h.workers[k].ring) {
        s := WorkerExit(k);
        ExitReady(h, k);
        ExitNearer(h, k);
      } else {
        s := WorkerNearer(h, k);
      }
    }
  }

  /** From one state by steps to others. */
  ghost predicate Path(h: Host, hs: seq<Host>, steps: seq<Step>)
    decreases |steps|
  {
    |hs| == |steps| &&
    (steps != [] ==>
       Enabled(h, steps[0]) && Do(h, steps[0]) == Next(hs[0]) && Path(hs[0], hs[1..], steps[1..]))
  }

  lemma {:induction false} PathEnds(h: Host) returns (hs: seq<Host>, steps: seq<Step>)
    requires HostInv(h) && StopOk(h) && NoLost(h) && h.main.stopping
    ensures Path(h, hs, steps) && Done(([h] + hs)[|hs|])
    decreases HostWeight(h)
  {
    hide HostInv, StopOk, NoLost, Do, HostWeight, Enabled, Done;
    hs, steps := [], [];
    if !Done(h) {
      var s := AlwaysNearer(h);
      StepSafe(h, s);
      StepStops(h, s);
      NextSafe(h, s);
      var next := Do(h, s).value;
      var hs1, steps1 := PathEnds(next);
      hs, steps := [next] + hs1, [s] + steps1;
      assert hs[1..] == hs1 && steps[1..] == steps1;
      assert ([h] + hs)[|hs|] == ([next] + hs1)[|hs1|];
    }
  }

  lemma NextSafe(h: Host, s: Step)
    requires Enabled(h, s) && Safe(Do(h, s)) && Do(h, s).Next?
    ensures HostInv(Do(h, s).value)
  {
    hide HostInv, Do;
  }

  /** Every run that is stopping and has lost no message goes on, in some run, to its end: the main thread has left and so
      has every worker whose thread ran. */
  lemma StopEnds(hs: seq<Host>, steps: seq<Step>) returns (hs': seq<Host>, steps': seq<Step>)
    requires Run(hs, steps) && hs[|hs| - 1].main.stopping && NoLost(hs[|hs| - 1])
    ensures |hs'| == |steps'| && Run(hs + hs', steps + steps') && Done((hs + hs')[|hs + hs'| - 1])
  {
    hide HostInv, StopOk, NoLost, Path, Run, Done;
    RunLong(hs, steps);
    RunStops(hs, steps, |hs| - 1);
    hs', steps' := PathEnds(hs[|hs| - 1]);
    GoesOn(hs, steps, hs', steps');
    assert (hs + hs')[|hs + hs'| - 1] == ([hs[|hs| - 1]] + hs')[|hs'|];
  }

  lemma RunLong(hs: seq<Host>, steps: seq<Step>)
    requires Run(hs, steps)
    ensures |hs| == |steps| + 1
  {
  }

  /** A run and a path from its end are a run. */
  lemma {:induction false} GoesOn(hs: seq<Host>, steps: seq<Step>, hs': seq<Host>, steps': seq<Step>)
    requires Run(hs, steps) && |hs| > 0 && Path(hs[|hs| - 1], hs', steps')
    ensures |hs'| == |steps'| && Run(hs + hs', steps + steps')
    decreases |steps'|
  {
    hide Do, Enabled, Run;
    if steps' == [] {
      assert hs + hs' == hs && steps + steps' == steps;
    } else {
      OneMore(hs, steps, hs'[0], steps'[0]);
      GoesOn(hs + [hs'[0]], steps + [steps'[0]], hs'[1..], steps'[1..]);
      assert hs + hs' == hs + [hs'[0]] + hs'[1..] && steps + steps' == steps + [steps'[0]] + steps'[1..];
    }
  }

  lemma OneMore(hs: seq<Host>, steps: seq<Step>, next: Host, s: Step)
    requires Run(hs, steps) && Enabled(hs[|hs| - 1], s) && Do(hs[|hs| - 1], s) == Next(next)
    ensures Run(hs + [next], steps + [s])
  {
    hide Do, Enabled, Start;
    var all, alls := hs + [next], steps + [s];
    assert all[0] == hs[0];
    forall i | 0 <= i < |alls| ensures Enabled(all[i], alls[i]) && Do(all[i], alls[i]) == Next(all[i + 1]) {
      assert all[i] == hs[i];
      if i < |steps| { assert alls[i] == steps[i] && all[i + 1] == hs[i + 1]; }
    }
  }
}
