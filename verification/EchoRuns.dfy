/** Whole runs of the echo host, from any start: no broken invariant is ever reached, and what that means for the places
    admitted, the operations in flight, the octets echoed and the rings closed. */
module EchoRuns {
  import opened Gathering
  import opened EchoWorker
  import opened EchoSlots
  import opened EchoHost
  import opened EchoSafety

  /** The host once its threads have started: those that could not are `failed`, and then, or when something else is
      amiss, the others are told to stop before a connection is taken. */
  function Start(threads: nat, chunk: nat, failed: set<nat>, amiss: bool, others: set<int>): Host {
    var m := Main(EmptyRing, amiss || failed != {}, false, false, 0, 0, false);
    Host(if m.stopping then TellStop(m, failed, 0, threads) else m,
         seq(threads, k requires 0 <= k => FreshWorker(k, chunk)), {}, failed, {}, others)
  }

  predicate Starts(threads: nat, chunk: nat, others: set<int>) {
    1 <= threads <= COPIES && 1 <= chunk <= CAPACITY && |others| + SLOTS + 2 <= MARKS
  }

  ghost predicate Run(hs: seq<Host>, steps: seq<Step>) {
    && |hs| == |steps| + 1
    && (exists threads, chunk, failed, amiss, others ::
          Starts(threads, chunk, others) && hs[0] == Start(threads, chunk, failed, amiss, others))
    && forall i :: 0 <= i < |steps| ==> Enabled(hs[i], steps[i]) && Do(hs[i], steps[i]) == Next(hs[i + 1])
  }

  // ----- the start -----

  lemma StartBooks(h: Host, threads: nat, chunk: nat, failed: set<nat>, amiss: bool, others: set<int>)
    requires Starts(threads, chunk, others) && h == Start(threads, chunk, failed, amiss, others)
    ensures WorkersOk(h) && MainOk(h.main, |h.workers|) && Books(h)
  {
    hide Claims, Inv, Queued, Gather;
    forall k | 0 <= k < |h.workers|
      ensures Inv(h.workers[k]) && h.workers[k].index == k && Claims(h.workers[k]) == multiset{}
    {
      FreshInv(k, chunk);
    }
    EmptyClaims(h.workers, Claims);
    EmptyClaims([], OpClaims);
    EmptyClaims([], MainClaims);
    EmptyClaims([], AcceptClaims);
    var m := Main(EmptyRing, amiss || failed != {}, false, false, 0, 0, false);
    FreshMain(m, threads);
    TellStopOk(m, failed, 0, threads);
    assert Admitted(h) == multiset{} && Accepted(h) == multiset{};
  }

  lemma StartSafe(threads: nat, chunk: nat, failed: set<nat>, amiss: bool, others: set<int>)
    requires Starts(threads, chunk, others)
    ensures HostInv(Start(threads, chunk, failed, amiss, others))
  {
    hide Gather, Claims, Inv, Queued, Books, MainOk;
    var h := Start(threads, chunk, failed, amiss, others);
    StartBooks(h, threads, chunk, failed, amiss, others);
    var m := Main(EmptyRing, amiss || failed != {}, false, false, 0, 0, false);
    assert MainOk(m, threads) by { FreshMain(m, threads); }
    TellStopOk(m, failed, 0, threads);
    forall k | 0 <= k < |h.workers| ensures MailShaped(Mail(h, k), h.main.stopping, h.workers[k].stopping) {
      TellStopMail(m, failed, 0, threads, k);
      assert Queued([], k) == [] by { NoneQueued(k); }
      assert Arrived(h.workers[k].ring.cq) == [];
    }
  }

  lemma FreshMain(m: Main, threads: nat)
    requires m.ring == EmptyRing && !m.accepting && m.nextThread == 0 < threads
    ensures MainOk(m, threads)
  {
  }

  lemma NoneQueued(k: nat)
    ensures Queued([], k) == []
  {
  }

  // ----- every step, every run -----

  /** From any state of a run, no step a thread or the kernel can take breaks an invariant the code checks. */
  lemma StepSafe(h: Host, s: Step)
    requires HostInv(h) && Enabled(h, s)
    ensures Safe(Do(h, s))
  {
    hide HostInv, Safe, Do;
    match s
    case WorkerReap(k) => ReapSafe(h, k);
    case WorkerExpire(k, i) => ExpireSafe(h, k, i);
    case WorkerExit(k) => ExitSafe(h, k);
    case WorkerSubmit(k, delivered) =>
      if !h.workers[k].ring.sq[0].Tell? {
        SubmitSafe(h, k, delivered);
      } else if delivered {
        FreedSafe(h, k);
      } else {
        UndeliveredSafe(h, k);
      }
    case WorkerComplete(k, j, res, data) => CompleteSafe(h, k, j, res, data);
    case MainReap(ends, shaped) => MainReapSafe(h, ends, shaped);
    case MainArmSignal => ArmSafe(h, s);
    case MainArmAccept => ArmSafe(h, s);
    case MainLeave => LeaveSafe(h);
    case MainSubmit(delivered) =>
      if !h.main.ring.sq[0].Tell? {
        MainSubmitSafe(h, delivered);
      } else if delivered {
        MainDelivered(h);
      } else {
        MainUndelivered(h);
      }
    case MainComplete(j, res) => MainCompleteSafe(h, j, res);
  }

  lemma {:induction false} RunInv(hs: seq<Host>, steps: seq<Step>, i: nat)
    requires Run(hs, steps) && i < |hs|
    ensures HostInv(hs[i])
  {
    hide HostInv, Do;
    if i == 0 {
      var threads, chunk, failed, amiss, others :|
        Starts(threads, chunk, others) && hs[0] == Start(threads, chunk, failed, amiss, others);
      StartSafe(threads, chunk, failed, amiss, others);
    } else {
      RunInv(hs, steps, i - 1);
      StepSafe(hs[i - 1], steps[i - 1]);
    }
  }

  /** No run reaches a broken invariant: not a full table, a stale completion, a send of more than was given, a place
      given back with none admitted, a completion with nothing live, or a descriptor closed twice or in use. */
  lemma NoViolation(hs: seq<Host>, steps: seq<Step>, i: nat, s: Step)
    requires Run(hs, steps) && i < |hs| && Enabled(hs[i], s)
    ensures !Do(hs[i], s).Violation?
  {
    hide HostInv, Do;
    RunInv(hs, steps, i);
    StepSafe(hs[i], s);
  }

  /** Nothing that waits for a worker or the kernel is kept from its step. */
  lemma NeverStuck(h: Host, k: nat)
    requires HostInv(h) && Serving(h, k)
    ensures |h.workers[k].ring.cq| > 0 ==> Enabled(h, WorkerReap(k))
    ensures forall j, res, data ::
      0 <= j < |h.workers[k].ring.flight| && Answers(h.workers[k].ring.flight[j], res, data) ==>
              Enabled(h, WorkerComplete(k, j, res, data))
  {
    hide Gather, Claims, MainOk, MailOk, Books;
    var w := h.workers[k];
    assert Inv(w);
    if |w.ring.cq| > 0 { assert CompletionOk(w.ring.cq[0], w.slots); }
    forall j, res, data | 0 <= j < |w.ring.flight| && Answers(w.ring.flight[j], res, data)
      ensures Enabled(h, WorkerComplete(k, j, res, data))
    {
      CompleteKeeps(w, j, res, data);
    }
  }

  // ----- what it comes to -----

  function Held(ws: seq<Worker>): int { if ws == [] then 0 else ws[0].held + Held(ws[1..]) }

  /** Messages the workers hold: connections handed to them and not taken, places given back and not told. */
  function Between(ws: seq<Worker>): nat {
    if ws == [] then 0
    else |Gather(ws[0].ring.sq, OpClaims)| + |Gather(ws[0].ring.cq, CompletionClaims)| + Between(ws[1..])
  }

  lemma {:induction false} ClaimsAdd(ws: seq<Worker>)
    requires forall k :: 0 <= k < |ws| ==> Inv(ws[k])
    ensures |Gather(ws, Claims)| == Held(ws) + Between(ws)
  {
    if ws != [] {
      var w := ws[0];
      assert Inv(w);
      ClaimsAdd(ws[1..]);
    }
  }

  /** `admitted` is the connections held and those on their way, and never more than the slots. */
  lemma Admission(hs: seq<Host>, steps: seq<Step>, i: nat)
    requires Run(hs, steps) && i < |hs|
    ensures var h := hs[i];
            && h.main.admitted == Held(h.workers) + Between(h.workers)
                                  + |Gather(h.main.ring.sq, OpClaims)| + |Gather(h.main.ring.cq, MainClaims)|
            && 0 <= h.main.admitted <= SLOTS
  {
    hide Gather, Claims, MainOk, MailOk, Inv;
    RunInv(hs, steps, i);
    ClaimsAdd(hs[i].workers);
  }

  /** A slot's count is its unreaped operations, every one of its generation; a connection that is served has one
      receive or one send. */
  lemma SlotCounts(hs: seq<Host>, steps: seq<Step>, n: nat, k: nat, i: nat)
    requires Run(hs, steps) && n < |hs| && k < |hs[n].workers| && i < |hs[n].workers[k].slots|
    ensures var w := hs[n].workers[k]; var s, u := w.slots[i], Unreaped(w.ring);
            && s.ops == u[Token(KRecv, i, s.gen)] + u[Token(KSend, i, s.gen)] + u[Token(KCancel, i, s.gen)]
            && (forall t :: t in u && OnSlot(t.kind) && t.slot == i ==> t.gen == s.gen)
            && (s.fd < 0 ==> s.ops == 0)
            && (s.fd >= 0 && !s.closing ==> u[Token(KRecv, i, s.gen)] + u[Token(KSend, i, s.gen)] == 1 == s.ops)
            && w.ring.live == |u|
  {
    hide Gather, Claims, MainOk, MailOk, Books, QueuesOk;
    RunInv(hs, steps, n);
    var w := hs[n].workers[k];
    assert Inv(w);
    assert SlotOk(w.slots[i], i, Unreaped(w.ring));
  }

  /** What is still to send of slot `i`, by the one operation it has: prepared, in flight or completed. */
  ghost predicate Remains(w: Worker, i: nat, rest: seq<byte>)
    requires i < |w.slots|
  {
    var s := w.slots[i];
    || (rest == [] && exists k ::
      0 <= k < |w.ring.sq| + |w.ring.flight| && (w.ring.sq + w.ring.flight)[k] == Recv(i, s.gen, s.fd))
    || (exists k :: 0 <= k < |w.ring.sq| + |w.ring.flight| && var op := (w.ring.sq + w.ring.flight)[k];
          op.Send? && op.slot == i && s.sent <= s.length <= |s.out| && rest == s.out[s.sent..s.length])
    || (exists k :: 0 <= k < |w.ring.cq| && w.ring.cq[k].token == Token(KRecv, i, s.gen) &&
          var n := w.ring.cq[k].res; n <= |s.inb| && rest == if n > 0 then s.inb[..n] else [])
    || (exists k :: 0 <= k < |w.ring.cq| && w.ring.cq[k].token == Token(KSend, i, s.gen) &&
          var n := w.ring.cq[k].res; var from := if n > 0 then s.sent + n else s.sent;
          from <= s.length <= |s.out| && rest == s.out[from..s.length])
  }

  lemma WhereIs(r: Ring, t: Token) returns (done: bool, k: nat)
    requires t in Unreaped(r)
    ensures done ==> k < |r.cq| && r.cq[k].token == t
    ensures !done ==> k < |r.sq + r.flight| && TokenOf((r.sq + r.flight)[k]) == t
  {
    hide Gather;
    if t in Gather(r.cq, CompletionTokens) {
      done := true;
      k := GatherFrom(r.cq, t, CompletionTokens);
    } else if t in Gather(r.sq, OpTokens) {
      done := false;
      k := GatherFrom(r.sq, t, OpTokens);
    } else {
      var j := GatherFrom(r.flight, t, OpTokens);
      done, k := false, |r.sq| + j;
    }
  }

  lemma ServedRemains(w: Worker, i: nat) returns (rest: seq<byte>)
    requires Inv(w) && i < SLOTS && w.slots[i].fd >= 0 && !w.slots[i].closing
    ensures Remains(w, i, rest) && w.slots[i].received == w.slots[i].delivered + rest
  {
    hide Gather, Unreaped;
    var s, u, ops := w.slots[i], Unreaped(w.ring), w.ring.sq + w.ring.flight;
    assert SlotOk(s, i, u) && SlotShaped(s);
    var t := if u[Token(KRecv, i, s.gen)] > 0 then Token(KRecv, i, s.gen) else Token(KSend, i, s.gen);
    assert t in u;
    var done, k := WhereIs(w.ring, t);
    if done {
      assert CompletionOk(w.ring.cq[k], w.slots);
      var n := w.ring.cq[k].res;
      rest := if t.kind == KRecv then if n > 0 then s.inb[..n] else []
              else s.out[s.sent + (if n > 0 then n else 0)..s.length];
    } else {
      assert OpOk(ops[k], w.slots, w.index) by {
        if k < |w.ring.sq| {
          assert OpOk(w.ring.sq[k], w.slots, w.index);
        } else {
          assert OpOk(w.ring.flight[k - |w.ring.sq|], w.slots, w.index);
        }
      }
      rest := if t.kind == KRecv then [] else s.out[s.sent..s.length];
    }
  }

  /** The echo is faithful: what was sent on a connection is the beginning of what was received on it and, while it is
      served, what was received is what was sent followed by what is still to send. */
  lemma Echoed(hs: seq<Host>, steps: seq<Step>, n: nat, k: nat, i: nat)
    requires Run(hs, steps) && n < |hs| && k < |hs[n].workers| && i < |hs[n].workers[k].slots|
    ensures var w := hs[n].workers[k]; var s := w.slots[i];
            && s.delivered <= s.received
            && (s.fd >= 0 && !s.closing ==> exists rest :: Remains(w, i, rest) && s.received == s.delivered + rest)
  {
    hide Gather, Claims, MainOk, MailOk, Books, QueuesOk, Remains;
    RunInv(hs, steps, n);
    var w := hs[n].workers[k];
    assert Inv(w);
    if w.slots[i].fd >= 0 && !w.slots[i].closing {
      var rest := ServedRemains(w, i);
    }
  }

  lemma WorkerCloses(h: Host, k: nat)
    requires HostInv(h) && Enabled(h, WorkerExit(k))
    ensures h.workers[k].ring == EmptyRing && Mail(h, k) == []
    ensures forall s :: s in h.workers[k].slots ==> s.fd < 0
  {
    hide Gather, Claims, MailOk, Books, Mail, MainOk;
    LeavesNothing(h, k);
    var w := h.workers[k];
    assert Inv(w);
    forall s | s in w.slots ensures s.fd < 0 {
      var i :| 0 <= i < |w.slots| && w.slots[i] == s;
      GatherHas(w.slots, i, SlotClaims);
    }
  }

  lemma MainCloses(h: Host)
    requires HostInv(h) && Enabled(h, MainLeave)
    ensures h.main.ring.sq == [] && h.main.ring.flight == []
  {
    hide Gather, Claims, MailOk, Books, Mail, WorkersOk;
    assert MainUnreaped(h.main.ring) == multiset{};
    NoOps(h.main.ring.sq);
    NoOps(h.main.ring.flight);
  }

  /** Every ring is closed with nothing live: a worker's with every connection closed, nothing in it at all and nothing on
      its way to it, the main thread's with nothing of its own. */
  lemma RingsClose(hs: seq<Host>, steps: seq<Step>, n: nat, k: nat)
    requires Run(hs, steps) && n < |hs|
    ensures Enabled(hs[n], WorkerExit(k)) ==>
              && hs[n].workers[k].ring == EmptyRing && Mail(hs[n], k) == []
              && (forall s :: s in hs[n].workers[k].slots ==> s.fd < 0)
    ensures Enabled(hs[n], MainLeave) ==> hs[n].main.ring.sq == [] && hs[n].main.ring.flight == []
  {
    hide HostInv, Mail;
    RunInv(hs, steps, n);
    if Enabled(hs[n], WorkerExit(k)) { WorkerCloses(hs[n], k); }
    if Enabled(hs[n], MainLeave) { MainCloses(hs[n]); }
  }
}
