/** The echo is carried out: from every state of a run in which the host is not stopping, a connection that is served goes
    on, in some run, to have been sent back all that was received on it, still served. */
module EchoServes {
  import opened Gathering
  import opened EchoWorker
  import opened EchoSlots
  import opened EchoHost
  import opened EchoSafety
  import opened EchoRuns
  import opened EchoEnds
  import EchoActs

  /** No operation of slot `i` has ended or failed that the worker has still to read of. */
  ghost predicate Unbroken(w: Worker, i: nat) {
    forall c {:trigger c in w.ring.cq} :: c in w.ring.cq && OnSlot(c.token.kind) && c.token.slot == i ==> c.res > 0
  }

  /** Slot `i` of worker `k` serves the connection `was` describes, nothing more received on it, in a host that is not
      stopping. */
  ghost predicate Serves(h: Host, k: nat, i: nat, was: Slot) {
    && HostInv(h) && !h.main.stopping && Serving(h, k) && i < SLOTS && i < |h.workers[k].slots|
    && NoneLost(h.workers[k].ring.cq) && Unbroken(h.workers[k], i)
    && SameConnection(h.workers[k].slots[i], was)
  }

  predicate SameConnection(s: Slot, was: Slot) {
    s.fd == was.fd >= 0 && s.gen == was.gen && !s.closing && s.received == was.received && s.delivered <= s.received
  }

  // ----- reaping -----

  /** Slot `i` as it was, nothing taken off the submissions. */
  predicate Apart(w: Worker, w': Worker, i: nat)
    requires i < |w.slots|
  {
    && |w'.slots| == |w.slots| && w'.slots[i] == w.slots[i]
    && w.ring.sq <= w'.ring.sq && w'.ring.flight == w.ring.flight
  }

  lemma OtherActed(w: Worker, q: nat, c: Completion, i: nat)
    requires Shaped(w) && q < SLOTS && (c.token.kind == KRecv ==> c.res <= CAPACITY)
    requires i < SLOTS && i != q && Acted(w, q, c).Next?
    ensures Apart(w, Acted(w, q, c).value, i)
  {
  }

  lemma OtherTaken(w: Worker, fd: int, i: nat)
    requires i < |w.slots| && w.slots[i].fd >= 0 && Take(w, fd).Next?
    ensures Apart(w, Take(w, fd).value, i)
  {
  }

  /** A completion that is not of slot `i` and no order to stop leaves the slot alone. */
  lemma OtherReap(w: Worker, i: nat)
    requires Inv(w) && |w.ring.cq| > 0 && i < SLOTS && w.slots[i].fd >= 0 && w.ring.cq[0].token.kind != KStop
    requires OnSlot(w.ring.cq[0].token.kind) ==> w.ring.cq[0].token.slot != i
    requires w.ring.cq[0].token.kind == KRecv ==> w.ring.cq[0].res <= CAPACITY
    requires Reap(w).Next?
    ensures Apart(w, Reap(w).value, i)
  {
    hide Gather, Unreaped, Counted, Current, Prefixes, QueuesOk, StopFrom, Acted, Take;
    var c := w.ring.cq[0];
    if OnSlot(c.token.kind) {
      NeverStale(w);
      ReapedIs(w);
      hide Reap;
      OtherActed(Reaped(w), c.token.slot, c, i);
    } else if c.token.kind == KHanded {
      OtherTaken(Popped(w), c.res, i);
    }
  }

  /** No order to stop is on its way while the host is not stopping. */
  lemma NoStop(h: Host, k: nat)
    requires HostInv(h) && !h.main.stopping && k < |h.workers| && |h.workers[k].ring.cq| > 0
    ensures h.workers[k].ring.cq[0].token.kind != KStop
  {
    hide Gather, WorkersOk, MainOk, Books, Queued;
    var mail := Mail(h, k);
    assert MailShaped(mail, h.main.stopping, h.workers[k].stopping);
    if h.workers[k].ring.cq[0].token.kind == KStop { StopFirst(h.workers[k].ring.cq); }
    assert |mail| > 0 && mail[0].StopNow? ==> h.main.stopping;
  }

  lemma StopFirst(cq: seq<Completion>)
    requires |cq| > 0 && cq[0].token.kind == KStop
    ensures |Arrived(cq)| > 0 && Arrived(cq)[0] == StopNow
  {
  }

  lemma RestUnbroken(w: Worker, w': Worker, i: nat)
    requires Unbroken(w, i) && |w.ring.cq| > 0 && w'.ring.cq == w.ring.cq[1..]
    ensures Unbroken(w', i)
  {
    assert forall c :: c in w'.ring.cq ==> c in w.ring.cq;
  }

  /** The worker reaps: the host goes on. */
  lemma ReapNext(h: Host, k: nat)
    requires HostInv(h) && !h.main.stopping && Serving(h, k) && |h.workers[k].ring.cq| > 0
    requires NoneLost(h.workers[k].ring.cq)
    ensures Enabled(h, WorkerReap(k)) && Do(h, WorkerReap(k)).Next? && HostInv(Do(h, WorkerReap(k)).value)
    ensures Reap(h.workers[k]).Next? && Inv(Reap(h.workers[k]).value)
    ensures Reap(h.workers[k]).value.ring.cq == h.workers[k].ring.cq[1..]
    ensures var h' := Do(h, WorkerReap(k)).value;
      h'.workers == h.workers[k := Reap(h.workers[k]).value] && h'.main == h.main && h'.failed == h.failed
      && h'.exited == h.exited
  {
    hide Gather, Claims, MainOk, MailOk, Books, Reap, ClosesWell, Counted, Current;
    var w := h.workers[k];
    NeverStuck(h, k);
    StepSafe(h, WorkerReap(k));
    RestNone(w.ring.cq);
    assert Inv(w) && CompletionOk(w.ring.cq[0], w.slots);
    if w.ring.cq[0].token.kind == KHanded { RoomLeft(h, k); }
    ReapKeeps(w);
  }

  lemma ServesThen(h: Host, h': Host, k: nat, i: nat, was: Slot, w': Worker)
    requires Serves(h, k, i, was) && HostInv(h') && h'.workers == h.workers[k := w']
    requires h'.main.stopping == h.main.stopping && h'.failed == h.failed && h'.exited == h.exited
    requires NoneLost(w'.ring.cq) && Unbroken(w', i) && i < |w'.slots| && SameConnection(w'.slots[i], was)
    ensures Serves(h', k, i, was)
  {
    hide HostInv, NoneLost, Unbroken;
  }

  lemma ServedInv(h: Host, k: nat, i: nat, was: Slot)
    requires Serves(h, k, i, was)
    ensures Inv(h.workers[k]) && h.workers[k].index == k && |h.workers[k].slots| == SLOTS
  {
    hide Gather, MainOk, Books, MailOk, Unreaped, Counted, Current, Prefixes, QueuesOk;
  }

  predicate OfSlot(c: Completion, i: nat) { OnSlot(c.token.kind) && c.token.slot == i }

  /** Someone else's completion reaped. */
  lemma ReapOther(h: Host, k: nat, i: nat, was: Slot) returns (h': Host)
    requires Serves(h, k, i, was) && |h.workers[k].ring.cq| > 0 && !OfSlot(h.workers[k].ring.cq[0], i)
    ensures Enabled(h, WorkerReap(k)) && Do(h, WorkerReap(k)) == Next(h') && Serves(h', k, i, was)
    ensures var w, w' := h.workers[k], h'.workers[k];
      Apart(w, w', i) && w'.ring.cq == w.ring.cq[1..]
  {
    hide HostInv, Do, Inv, Reap, NoneLost, Unbroken, Enabled;
    var w := h.workers[k];
    ServedInv(h, k, i, was);
    NoStop(h, k);
    ReapNext(h, k);
    h' := Do(h, WorkerReap(k)).value;
    ReapBound(h, k);
    OtherReap(w, i);
    RestNone(w.ring.cq);
    RestUnbroken(w, h'.workers[k], i);
    ServesThen(h, h', k, i, was, h'.workers[k]);
  }

  lemma ReapBound(h: Host, k: nat)
    requires Enabled(h, WorkerReap(k))
    ensures h.workers[k].ring.cq[0].token.kind == KRecv ==> h.workers[k].ring.cq[0].res <= CAPACITY
    ensures Shaped(h.workers[k])
  {
  }

  /** How many octets are still to be sent back. */
  function Left(h: Host, k: nat, i: nat): int
    requires k < |h.workers| && i < |h.workers[k].slots|
  {
    |h.workers[k].slots[i].received| - |h.workers[k].slots[i].delivered|
  }

  predicate SendOf(op: Op, i: nat) { op.Send? && op.slot == i }

  /** Its own completion reaped, with octets left: their send is the last submission. */
  lemma ReapOwn(h: Host, k: nat, i: nat, was: Slot) returns (h': Host)
    requires Serves(h, k, i, was) && |h.workers[k].ring.cq| > 0 && OfSlot(h.workers[k].ring.cq[0], i)
    requires Left(h, k, i) > 0
    ensures Enabled(h, WorkerReap(k)) && Do(h, WorkerReap(k)) == Next(h') && Serves(h', k, i, was)
    ensures Left(h', k, i) == Left(h, k, i)
    ensures var w, w' := h.workers[k], h'.workers[k];
      |w'.ring.sq| == |w.ring.sq| + 1 && SendOf(w'.ring.sq[|w.ring.sq|], i)
  {
    hide HostInv, Do, Inv, Reap, NoneLost, Unbroken, Enabled, EchoActs.SendsRest;
    var w := h.workers[k];
    ServedInv(h, k, i, was);
    NoStop(h, k);
    ReapNext(h, k);
    h' := Do(h, WorkerReap(k)).value;
    ReapBound(h, k);
    OwnMoved(w, i);
    var op: Op;
    if w.ring.cq[0].token.kind == KRecv {
      op := EchoActs.ReceiveActs(w, i);
    } else {
      op := EchoActs.SendActs(w, i);
    }
    RestIsSend(w, Reap(w).value, i, op);
    RestNone(w.ring.cq);
    RestUnbroken(w, h'.workers[k], i);
    ServesThen(h, h', k, i, was, h'.workers[k]);
  }

  lemma RestIsSend(w: Worker, w': Worker, i: nat, op: Op)
    requires i < |w.slots| && EchoActs.SendsRest(w, w', i, op)
    ensures SendOf(op, i)
  {
  }

  /** A served slot has no cancel, and its completions moved octets. */
  lemma OwnMoved(w: Worker, i: nat)
    requires Inv(w) && |w.ring.cq| > 0 && i < SLOTS && OfSlot(w.ring.cq[0], i) && Unbroken(w, i)
    requires w.slots[i].fd >= 0 && !w.slots[i].closing
    ensures EchoActs.MovedSome(w, i, w.ring.cq[0].token.kind)
    ensures w.ring.cq[0].token.kind == KRecv || w.ring.cq[0].token.kind == KSend
  {
    hide Gather, Unreaped, Counted, Current, Prefixes;
    assert w.ring.cq[0] in w.ring.cq;
    assert CompletionOk(w.ring.cq[0], w.slots);
  }

  // ----- submitting -----

  /** The first entry taken by the kernel. */
  lemma SubmitOne(h: Host, k: nat, i: nat, was: Slot) returns (h': Host)
    requires Serves(h, k, i, was) && |h.workers[k].ring.sq| > 0
    ensures Enabled(h, WorkerSubmit(k, true)) && Do(h, WorkerSubmit(k, true)) == Next(h') && Serves(h', k, i, was)
    ensures Left(h', k, i) == Left(h, k, i)
    ensures var w, w' := h.workers[k], h'.workers[k];
      && w'.ring.sq == w.ring.sq[1..] && w'.slots == w.slots
      && (!w.ring.sq[0].Tell? ==> w'.ring.flight == w.ring.flight + [w.ring.sq[0]])
  {
    hide HostInv, Inv, NoneLost, Unbroken;
    var w, s := h.workers[k], WorkerSubmit(k, true);
    ServedInv(h, k, i, was);
    FirstOwn(w);
    StepSafe(h, s);
    h' := Do(h, s).value;
    var w' := if w.ring.sq[0].Tell? then Told(w, 0) else Submit(w);
    assert h'.workers == h.workers[k := w'];
    ToldMore(w, w', i);
    hide Do, Enabled;
    ServesThen(h, h', k, i, was, w');
  }

  lemma FirstOwn(w: Worker)
    requires Inv(w) && |w.ring.sq| > 0
    ensures OpOk(w.ring.sq[0], w.slots, w.index)
  {
    hide Gather, Unreaped, Counted, Current, Prefixes;
  }

  lemma ToldMore(w: Worker, w': Worker, i: nat)
    requires |w.ring.sq| > 0 && NoneLost(w.ring.cq) && Unbroken(w, i)
    requires w' == if w.ring.sq[0].Tell? then Told(w, 0) else Submit(w)
    ensures NoneLost(w'.ring.cq) && Unbroken(w', i)
  {
  }

  // ----- sending -----

  /** A send ends having taken all it was given. */
  lemma SendOne(h: Host, k: nat, i: nat, was: Slot, j: nat) returns (h': Host, s: Step)
    requires Serves(h, k, i, was) && j < |h.workers[k].ring.flight| && SendOf(h.workers[k].ring.flight[j], i)
    ensures Enabled(h, s) && Do(h, s) == Next(h') && Serves(h', k, i, was) && Left(h', k, i) < Left(h, k, i)
    ensures var w, w' := h.workers[k], h'.workers[k];
      |w'.ring.cq| == |w.ring.cq| + 1 && OfSlot(w'.ring.cq[|w.ring.cq|], i)
  {
    hide HostInv, Inv, NoneLost, Unbroken, Prefixes;
    var w := h.workers[k];
    var op := w.ring.flight[j];
    s := WorkerComplete(k, j, op.len, []);
    ServedInv(h, k, i, was);
    NeverStuck(h, k);
    FlightOwn(w, j);
    assert Answers(op, op.len, []);
    StepSafe(h, s);
    h' := Do(h, s).value;
    var w' := Complete(w, j, op.len, []);
    assert h'.workers == h.workers[k := w'];
    LandedMore(w, w', i, Completion(TokenOf(op), op.len));
    SentBack(w, i, op);
    hide Do, Enabled;
    ServesThen(h, h', k, i, was, w');
  }

  lemma FlightOwn(w: Worker, j: nat)
    requires Inv(w) && j < |w.ring.flight|
    ensures OpOk(w.ring.flight[j], w.slots, w.index)
  {
    hide Gather, Unreaped, Counted, Current, Prefixes;
  }

  lemma SentBack(w: Worker, i: nat, op: Op)
    requires OpOk(op, w.slots, w.index) && SendOf(op, i)
    ensures op.off + op.len <= |w.slots[i].out| && op.len >= 1
    ensures w.slots[i].delivered + w.slots[i].out[op.off..op.off + op.len] <= w.slots[i].received
  {
  }

  lemma LandedMore(w: Worker, w': Worker, i: nat, c: Completion)
    requires w'.ring.cq == w.ring.cq + [c] && NoneLost(w.ring.cq) && Unbroken(w, i) && c.res > 0
    ensures NoneLost(w'.ring.cq) && Unbroken(w', i)
  {
  }

  // ----- the whole of it -----

  /** A path to where all that was received has been sent back. */
  ghost predicate Echoes(h: Host, k: nat, i: nat, was: Slot, hs: seq<Host>, steps: seq<Step>) {
    && Path(h, hs, steps)
    && var e := ([h] + hs)[|hs|];
    Serves(e, k, i, was) && e.workers[k].slots[i].delivered == was.received
  }

  lemma FirstStep(h: Host, s: Step, next: Host, k: nat, i: nat, was: Slot, hs: seq<Host>, steps: seq<Step>)
    requires Enabled(h, s) && Do(h, s) == Next(next) && Echoes(next, k, i, was, hs, steps)
    ensures Echoes(h, k, i, was, [next] + hs, [s] + steps)
  {
    hide Do, Enabled, Serves;
    var all, alls := [next] + hs, [s] + steps;
    assert all[1..] == hs && alls[1..] == steps;
    assert ([h] + all)[|all|] == all[|all| - 1] == ([next] + hs)[|hs|];
  }

  lemma AllBack(h: Host, k: nat, i: nat, was: Slot)
    requires Serves(h, k, i, was) && Left(h, k, i) == 0
    ensures Echoes(h, k, i, was, [], [])
  {
    hide HostInv, NoneLost, Unbroken;
    var s := h.workers[k].slots[i];
    assert s.delivered == s.received[..|s.delivered|] == s.received;
  }

  lemma {:induction false} FromReaped(h: Host, k: nat, i: nat, was: Slot, p: nat)
    returns (hs: seq<Host>, steps: seq<Step>)
    requires Serves(h, k, i, was) && Left(h, k, i) > 0
    requires p < |h.workers[k].ring.cq| && OfSlot(h.workers[k].ring.cq[p], i)
    ensures Echoes(h, k, i, was, hs, steps)
    decreases Left(h, k, i), 3, p
  {
    hide HostInv, NoneLost, Unbroken, Do, Enabled, Echoes;
    var w := h.workers[k];
    if OfSlot(w.ring.cq[0], i) {
      var h' := ReapOwn(h, k, i, was);
      hs, steps := FromQueued(h', k, i, was, |w.ring.sq|);
      FirstStep(h, WorkerReap(k), h', k, i, was, hs, steps);
      hs, steps := [h'] + hs, [WorkerReap(k)] + steps;
    } else {
      var h' := ReapOther(h, k, i, was);
      assert h'.workers[k].ring.cq[p - 1] == w.ring.cq[p];
      hs, steps := FromReaped(h', k, i, was, p - 1);
      FirstStep(h, WorkerReap(k), h', k, i, was, hs, steps);
      hs, steps := [h'] + hs, [WorkerReap(k)] + steps;
    }
  }

  lemma {:induction false} FromQueued(h: Host, k: nat, i: nat, was: Slot, p: nat)
    returns (hs: seq<Host>, steps: seq<Step>)
    requires Serves(h, k, i, was) && Left(h, k, i) > 0
    requires p < |h.workers[k].ring.sq| && SendOf(h.workers[k].ring.sq[p], i)
    ensures Echoes(h, k, i, was, hs, steps)
    decreases Left(h, k, i), 2, p
  {
    hide HostInv, NoneLost, Unbroken, Do, Enabled, Echoes;
    var w, s := h.workers[k], WorkerSubmit(k, true);
    var h' := SubmitOne(h, k, i, was);
    if p == 0 {
      hs, steps := FromFlight(h', k, i, was, |w.ring.flight|);
    } else {
      assert h'.workers[k].ring.sq[p - 1] == w.ring.sq[p];
      hs, steps := FromQueued(h', k, i, was, p - 1);
    }
    FirstStep(h, s, h', k, i, was, hs, steps);
    hs, steps := [h'] + hs, [s] + steps;
  }

  lemma {:induction false} FromFlight(h: Host, k: nat, i: nat, was: Slot, j: nat)
    returns (hs: seq<Host>, steps: seq<Step>)
    requires Serves(h, k, i, was) && Left(h, k, i) > 0
    requires j < |h.workers[k].ring.flight| && SendOf(h.workers[k].ring.flight[j], i)
    ensures Echoes(h, k, i, was, hs, steps)
    decreases Left(h, k, i), 1, 0
  {
    hide Do, Enabled, Echoes, HostInv, NoneLost, Unbroken;
    var h', s := SendOne(h, k, i, was, j);
    if Left(h', k, i) == 0 {
      hs, steps := [], [];
      AllBack(h', k, i, was);
    } else {
      hs, steps := FromReaped(h', k, i, was, |h.workers[k].ring.cq|);
    }
    FirstStep(h, s, h', k, i, was, hs, steps);
    hs, steps := [h'] + hs, [s] + steps;
  }

  /** Where the one operation of a served slot with octets left is. */
  lemma WhereLeft(w: Worker, i: nat) returns (at: nat, p: nat)
    requires Inv(w) && i < SLOTS && w.slots[i].fd >= 0 && !w.slots[i].closing
    requires |w.slots[i].delivered| < |w.slots[i].received|
    ensures at <= 2
    ensures at == 0 ==> p < |w.ring.cq| && OfSlot(w.ring.cq[p], i)
    ensures at == 1 ==> p < |w.ring.sq| && SendOf(w.ring.sq[p], i)
    ensures at == 2 ==> p < |w.ring.flight| && SendOf(w.ring.flight[p], i)
  {
    hide Gather, Unreaped, Current, Prefixes;
    var s, u := w.slots[i], Unreaped(w.ring);
    assert SlotOk(s, i, u);
    var t := if u[Token(KRecv, i, s.gen)] > 0 then Token(KRecv, i, s.gen) else Token(KSend, i, s.gen);
    assert t in u;
    hide Counted;
    var done, k := WhereIs(w.ring, t);
    if done {
      at, p := 0, k;
    } else if k < |w.ring.sq| {
      at, p := 1, k;
      assert OpOk(w.ring.sq[k], w.slots, w.index);
    } else {
      at, p := 2, k - |w.ring.sq|;
      assert OpOk(w.ring.flight[p], w.slots, w.index);
    }
  }

  lemma EchoPath(h: Host, k: nat, i: nat, was: Slot) returns (hs: seq<Host>, steps: seq<Step>)
    requires Serves(h, k, i, was)
    ensures Echoes(h, k, i, was, hs, steps)
  {
    hide HostInv, NoneLost, Unbroken, Echoes, Inv;
    ServedInv(h, k, i, was);
    if Left(h, k, i) == 0 {
      hs, steps := [], [];
      AllBack(h, k, i, was);
    } else {
      var at, p := WhereLeft(h.workers[k], i);
      if at == 0 {
        hs, steps := FromReaped(h, k, i, was, p);
      } else if at == 1 {
        hs, steps := FromQueued(h, k, i, was, p);
      } else {
        hs, steps := FromFlight(h, k, i, was, p);
      }
    }
  }

  /** Every run that is not stopping, a connection served in it none of whose operations has failed and no answer to its
      worker lost, goes on to a run in which all that was received on the connection has been sent back on it: the same
      descriptor and generation, still served. */
  lemma EchoServed(hs: seq<Host>, steps: seq<Step>, k: nat, i: nat) returns (hs': seq<Host>, steps': seq<Step>)
    requires Run(hs, steps) && |hs| > 0
    requires var h := hs[|hs| - 1];
      && !h.main.stopping && Serving(h, k) && i < |h.workers[k].slots|
      && NoneLost(h.workers[k].ring.cq) && Unbroken(h.workers[k], i)
      && h.workers[k].slots[i].fd >= 0 && !h.workers[k].slots[i].closing
    ensures |hs'| == |steps'| && Run(hs + hs', steps + steps')
    ensures var h, e := hs[|hs| - 1], (hs + hs')[|hs + hs'| - 1];
      && Serving(e, k) && i < |e.workers[k].slots| && !e.main.stopping
      && var s, s' := h.workers[k].slots[i], e.workers[k].slots[i];
      && s'.fd == s.fd && s'.gen == s.gen && !s'.closing && s'.received == s.received && s'.delivered == s.received
  {
    hide HostInv, Run, NoneLost, Unbroken, Path, Inv;
    var h := hs[|hs| - 1];
    RunInv(hs, steps, |hs| - 1);
    RunSlots(h, k, i);
    var was := h.workers[k].slots[i];
    hs', steps' := EchoPath(h, k, i, was);
    GoesOn(hs, steps, hs', steps');
    assert (hs + hs')[|hs + hs'| - 1] == ([h] + hs')[|hs'|];
  }

  lemma RunSlots(h: Host, k: nat, i: nat)
    requires HostInv(h) && k < |h.workers| && i < |h.workers[k].slots|
    ensures i < SLOTS && h.workers[k].slots[i].delivered <= h.workers[k].slots[i].received
  {
    hide Gather, MainOk, Books, MailOk, Unreaped, Counted, Current, QueuesOk;
  }
}
