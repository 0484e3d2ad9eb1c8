/** What the NNTP host does for a client: every step's effect on every connection, when a client is read again, and that
    an open connection can be served from any state. */
module NntpServes {
  import opened Counting
  import opened NntpHost
  import opened NntpSafety
  import opened NntpReads
  import NntpClosing

  // ---- Every step and every connection

  predicate GivenTo(h: Host, s: Step, i: nat) { s.Admits? && LowestUsable(h.conns, 0) == i }

  predicate Answered(s: Step, i: nat) { (s.Writes? || s.EndsSend?) && s.i == i }

  predicate EndedBy(s: Step, i: nat) { (s.Fails? || s.TellsLost? || s.Closes?) && s.i == i }

  /** The receive of connection `i` that is taken. */
  predicate Received(h: Host, s: Step, i: nat) { s.Takes? && s.k < |h.inflight| && RecvOf(i)(h.inflight[s.k]) }

  predicate SameClient(c: Conn, d: Conn) { d.fd == c.fd && d.gen == c.gen && d.tls == c.tls && d.lost == c.lost }

  /** A connection before a step and after it: given to a client, ended, lost by a send that failed, read again after a
      send that was whole or input given out, not read after the end or while its handshake goes on, and otherwise the
      client's as it was, what is received of it kept for it. */
  predicate Becomes(h: Host, s: Step, i: nat, c: Conn, d: Conn) {
    if GivenTo(h, s, i) then
      d.fd == s.fd && d.gen == c.gen + 1 && d.tls == s.tls && !d.reading && !d.lost && !d.input && !d.receiving
    else if EndedBy(s, i) then d.fd < 0 && d.gen == c.gen && !d.reading && !d.lost && !d.input
    else if Answered(s, i) && s.failed then d.fd < 0 && d.gen == c.gen && !d.reading && d.lost && !d.input
    else if Answered(s, i) then SameClient(c, d) && d.reading == s.whole && d.input == c.input && d.receiving == c.receiving
    else if s.Gives? && s.i == i then SameClient(c, d) && d.reading == !s.ended && !d.input
    else if s.Checks? && s.i == i then SameClient(c, d) && !d.reading && d.input == c.input
    else
      && SameClient(c, d) && d.reading == c.reading
      && d.input == (c.input || (Received(h, s, i) && c.closing < 0))
      && d.receiving == ((c.receiving && !Received(h, s, i)) || (s.Reads? && s.i == i))
  }

  /** Nothing but connection `i` is changed, to `d`. */
  predicate OnlyConn(h: Host, r: Host, i: nat, d: Conn)
    requires i < |h.conns|
  {
    r.conns == h.conns[i := d]
  }

  lemma RetireConn(h: Host, i: nat, lingers: bool)
    requires i < |h.conns| && Retire(h, i, lingers).Next?
    ensures var c, r := h.conns[i], Retire(h, i, lingers).host;
      && |r.conns| == |h.conns| && OnlyConn(h, r, i, r.conns[i])
      && var d := r.conns[i];
      d.fd < 0 && d.gen == c.gen && d.tls == c.tls && d.lost == c.lost && !d.input
  {
  }

  lemma FreeConn(h: Host, i: nat)
    requires i < |h.conns| && FreeIndex(h, i).Next? && (h.conns[i].fd < 0 ==> !h.conns[i].input)
    ensures var c, r := h.conns[i], FreeIndex(h, i).host;
      && |r.conns| == |h.conns| && OnlyConn(h, r, i, r.conns[i])
      && var d := r.conns[i];
      d.fd < 0 && d.gen == c.gen && !d.input && !d.reading && !d.lost
  {
    hide Retire;
    if h.conns[i].fd >= 0 { RetireConn(h, i, false); }
  }

  lemma CloseConn(h: Host, i: nat, gracefully: bool)
    requires i < |h.conns| && Close(h, i, gracefully).Next?
    ensures var c, r := h.conns[i], Close(h, i, gracefully).host;
      && |r.conns| == |h.conns| && OnlyConn(h, r, i, r.conns[i])
      && var d := r.conns[i];
      d.fd < 0 && d.gen == c.gen && !d.input && !d.reading && !d.lost
  {
    hide Retire, FreeIndex;
    RetireConn(h, i, gracefully);
    FreeConn(Retire(h, i, gracefully).host, i);
  }

  lemma SentConn(h: Host, i: nat, failed: bool, whole: bool)
    requires i < |h.conns| && Sent(h, i, failed, whole).Next?
    ensures var c, r := h.conns[i], Sent(h, i, failed, whole).host;
      && |r.conns| == |h.conns| && OnlyConn(h, r, i, r.conns[i])
      && var d := r.conns[i];
      if failed then d.fd < 0 && d.gen == c.gen && !d.input && !d.reading && d.lost
      else SameClient(c, d) && d.reading == whole && d.input == c.input && d.receiving == c.receiving
  {
    hide Retire;
    if failed { RetireConn(h, i, false); }
  }

  /** An index without a descriptor has no input. */
  ghost predicate InputsOk(h: Host) {
    forall i {:trigger h.conns[i]} :: 0 <= i < |h.conns| ==> (h.conns[i].fd < 0 ==> !h.conns[i].input)
  }

  predicate ActsOn(s: Step, i: nat) {
    match s
    case Fails(j) => j == i
    case TellsLost(j) => j == i
    case Closes(j, _) => j == i
    case Writes(j, _, _) => j == i
    case EndsSend(j, _, _) => j == i
    case _ => false
  }

  lemma ActBecomes(h: Host, s: Step, j: nat, i: nat)
    requires Enabled(h, s) && Do(h, s).Next? && ActsOn(s, j) && i < |h.conns| && InputsOk(h)
    ensures |Do(h, s).host.conns| == |h.conns| && Becomes(h, s, i, h.conns[i], Do(h, s).host.conns[i])
  {
    hide Held, LowestUsable, Close, Sent, FreeIndex;
    match s {
      case Fails(_) => FreeConn(h, j);
      case TellsLost(_) => FreeConn(h, j);
      case Closes(_, gracefully) => CloseConn(h.(acted := h.acted + {j}), j, gracefully);
      case Writes(_, failed, whole) => SentConn(h.(acted := h.acted + {j}), j, failed, whole);
      case EndsSend(_, failed, whole) => SentConn(h.(batched := h.batched - {j}), j, failed, whole);
    }
  }

  lemma TakenConn(h: Host, t: Token)
    requires t.ConnOp? && ConnCompleted(h, t).Next?
    ensures var r := ConnCompleted(h, t).host;
      && t.slot < |h.conns| == |r.conns| && OnlyConn(h, r, t.slot, r.conns[t.slot])
      && var c, d := h.conns[t.slot], r.conns[t.slot];
      && SameClient(c, d) && d.reading == c.reading && d.input == (c.input || (t.kind == Recv && c.closing < 0))
      && d.receiving == (c.receiving && t.kind != Recv)
  {
    hide LetGo;
    LetGoConns(Put(Uncounted(h, t.kind), t.slot, Counted(h.conns[t.slot], t.kind).(closing := -1)), t.slot,
               h.conns[t.slot].closing);
  }

  lemma LetGoConns(h: Host, i: nat, fd: int)
    requires i < |h.conns|
    ensures LetGo(h, i, fd).Next? ==> LetGo(h, i, fd).host.conns == h.conns
  {
  }

  lemma TakeBecomes(h: Host, k: nat, goesOn: bool, i: nat)
    requires k < |h.inflight| && Completed(h, k, goesOn).Next? && i < |h.conns|
    ensures var r := Completed(h, k, goesOn);
      |r.host.conns| == |h.conns| && Becomes(h, Takes(k, goesOn), i, h.conns[i], r.host.conns[i])
  {
    hide LowestUsable, ConnCompleted;
    var t, g := h.inflight[k], h.(inflight := h.inflight[..k] + h.inflight[k + 1..]);
    if t.ConnOp? { TakenConn(g, t); }
  }

  /** Every step does that to every connection. */
  lemma StepBecomes(h: Host, s: Step, i: nat)
    requires Inv(h) && InputsOk(h) && Enabled(h, s) && i < |h.conns|
    ensures Do(h, s).Next? && |Do(h, s).host.conns| == |h.conns|
    ensures Becomes(h, s, i, h.conns[i], Do(h, s).host.conns[i])
  {
    hide Inv, Held, Close, Sent, FreeIndex, LowestUsable, Completed, TakeUp, Settle, Becomes, InputsOk;
    StepKeeps(h, s);
    match s {
      case Fails(j) => ActBecomes(h, s, j, i);
      case TellsLost(j) => ActBecomes(h, s, j, i);
      case Closes(j, _) => ActBecomes(h, s, j, i);
      case Writes(j, _, _) => ActBecomes(h, s, j, i);
      case EndsSend(j, _, _) => ActBecomes(h, s, j, i);
      case Takes(k, goesOn) => TakeBecomes(h, k, goesOn, i);
      case TakesUp(shut) =>
        TakeUpConns(h, shut);
        Untouched(h, s, i);
      case Settles =>
        SettleConns(h);
        Untouched(h, s, i);
      case _ => PlainBecomes(h, s, i);
    }
  }

  lemma Untouched(h: Host, s: Step, i: nat)
    requires i < |h.conns| && (s.TakesUp? || s.Settles?)
    ensures Becomes(h, s, i, h.conns[i], h.conns[i])
  {
  }

  predicate Plain(s: Step) {
    && !s.Takes? && !s.TakesUp? && !s.Settles?
    && !s.Fails? && !s.TellsLost? && !s.Closes? && !s.Writes? && !s.EndsSend?
  }

  lemma PlainBecomes(h: Host, s: Step, i: nat)
    requires Enabled(h, s) && Do(h, s).Next? && i < |h.conns| && Plain(s)
    ensures |Do(h, s).host.conns| == |h.conns| && Becomes(h, s, i, h.conns[i], Do(h, s).host.conns[i])
  {
    hide Held, LowestUsable;
  }

  lemma TakeUpConns(h: Host, shut: bool)
    requires Enabled(h, TakesUp(shut))
    ensures TakeUp(h, shut).conns == h.conns
  {
  }

  lemma SettleConns(h: Host)
    requires Enabled(h, Settles)
    ensures Settle(h).conns == h.conns
  {
  }

  lemma StepInputs(h: Host, s: Step)
    requires Inv(h) && InputsOk(h) && Enabled(h, s)
    ensures Do(h, s).Next? && InputsOk(Do(h, s).host)
  {
    hide Inv, Held, LowestUsable, Do, InputsOk, Enabled;
    StepKeeps(h, s);
    StepSize(h, s);
    var r := Do(h, s).host;
    forall i | 0 <= i < |r.conns| ensures r.conns[i].fd < 0 ==> !r.conns[i].input {
      StepBecomes(h, s, i);
      if h.conns[i].fd < 0 { NoInput(h, s, i); }
    }
    InputsAre(r);
  }

  lemma StepSize(h: Host, s: Step)
    requires Inv(h) && Enabled(h, s)
    ensures Do(h, s).Next? && |Do(h, s).host.conns| == |h.conns|
  {
    hide Enabled, Do, Tally, ConnsOk, TokensOk, LingersOk;
    StepKeeps(h, s);
  }

  lemma InputsAre(h: Host)
    requires forall i :: 0 <= i < |h.conns| ==> (h.conns[i].fd < 0 ==> !h.conns[i].input)
    ensures InputsOk(h)
  {
  }

  /** An index without a descriptor has no receive to take input from. */
  lemma NoInput(h: Host, s: Step, i: nat)
    requires Inv(h) && InputsOk(h) && Enabled(h, s) && i < |h.conns| && h.conns[i].fd < 0
    ensures !h.conns[i].input && !(Received(h, s, i) && h.conns[i].closing < 0)
  {
    hide Tally, Held, LowestUsable;
    if Received(h, s, i) && h.conns[i].closing < 0 {
      ConnIs(h, i);
      TallyHas(h.inflight, s.k, OfConn(i));
    }
  }

  lemma {:induction false} RunInputs(before: Host, steps: seq<Step>, after: Host)
    requires Inv(before) && InputsOk(before) && Run(before, steps, after)
    ensures Inv(after) && InputsOk(after)
    decreases |steps|
  {
    hide Inv, InputsOk, Do, Enabled;
    if steps != [] {
      StepKeeps(before, steps[0]);
      StepInputs(before, steps[0]);
      RunInputs(Do(before, steps[0]).host, steps[1..], after);
    }
  }

  lemma ReachedInputs(h: Host)
    requires Reached(h)
    ensures Inv(h) && InputsOk(h)
  {
    hide Inv, InputsOk;
    var steps :| Run(Start(), steps, h);
    StartInv();
    InputsAre(Start());
    RunInputs(Start(), steps, h);
  }

  // ---- When a client is read again

  /** Steps that are none of connection `i`'s. */
  predicate Others(steps: seq<Step>, i: nat) {
    forall k {:trigger steps[k]} :: 0 <= k < |steps| ==> !OfSlot(steps[k], i)
  }

  predicate OfSlot(s: Step, i: nat) {
    ActsOn(s, i) || s == Reads(i) || s == Sends(i) || s == Checks(i) || (s.Gives? && s.i == i)
  }

  /** Until another step of its own it is read or not, as it was, its client the same. */
  lemma {:induction false} OthersKeep(before: Host, steps: seq<Step>, after: Host, i: nat)
    requires Inv(before) && InputsOk(before) && Run(before, steps, after) && Others(steps, i)
    requires i < |before.conns| && (before.conns[i].fd >= 0 || before.conns[i].lost)
    ensures i < |after.conns| && SameClient(before.conns[i], after.conns[i])
    ensures after.conns[i].reading == before.conns[i].reading && (before.conns[i].input ==> after.conns[i].input)
    decreases |steps|
  {
    hide Inv, InputsOk, Do, Enabled, LowestUsable;
    if steps != [] {
      var s := steps[0];
      StepKeeps(before, s);
      StepInputs(before, s);
      StepBecomes(before, s, i);
      NotGiven(before, s, i);
      assert !OfSlot(s, i);
      OthersKeep(Do(before, s).host, steps[1..], after, i);
    }
  }

  lemma NotGiven(h: Host, s: Step, i: nat)
    requires Enabled(h, s) && i < |h.conns| && (h.conns[i].fd >= 0 || h.conns[i].lost)
    ensures !GivenTo(h, s, i)
  {
    hide Held;
  }

  /** After a send, once the host is back in its turn: a plain connection with nothing received and nothing being
      received may be read exactly when the send was whole and did not fail. */
  lemma ReadAfterSend(h: Host, s: Step, i: nat, steps: seq<Step>, g: Host)
    requires Reached(h) && Enabled(h, s) && Answered(s, i)
    requires Do(h, s).Next? && Run(Do(h, s).host, steps, g) && Others(steps, i) && g.mode == In(Turn)
    ensures i < |g.conns|
    ensures var c := g.conns[i];
      !c.tls && !c.receiving && !c.input ==> (Enabled(g, Reads(i)) <==> !s.failed && s.whole)
    ensures s.failed ==> Enabled(g, TellsLost(i))
  {
    hide Inv, InputsOk, Do, LowestUsable, Held, Reached;
    ReachedInputs(h);
    SlotOf(h, s, i);
    StepKeeps(h, s);
    StepInputs(h, s);
    StepBecomes(h, s, i);
    hide Enabled;
    OthersKeep(Do(h, s).host, steps, g, i);
    TurnEnables(g, i);
  }

  lemma SlotOf(h: Host, s: Step, i: nat)
    requires Inv(h) && Enabled(h, s) && Answered(s, i)
    ensures i < |h.conns| && h.conns[i].fd >= 0
  {
    hide Tally, ConnsOk, TokensOk, LingersOk, Held, LowestUsable;
  }

  lemma TurnEnables(g: Host, i: nat)
    requires g.mode == In(Turn) && i < |g.conns|
    ensures var c := g.conns[i];
      && (Enabled(g, Reads(i)) <==> c.fd >= 0 && !c.tls && c.reading && !c.receiving && !c.input)
      && (Enabled(g, Gives(i, false)) <==> c.fd >= 0 && c.reading && (c.tls || c.input))
      && (Enabled(g, TellsLost(i)) <==> c.lost)
  {
    hide Held, LowestUsable;
  }

  /** After its receive is taken, once the host is back in its turn: what came in may be given out, when the client is
      still read. */
  lemma GiveAfterReceive(h: Host, s: Step, i: nat, steps: seq<Step>, g: Host)
    requires Reached(h) && Enabled(h, s) && i < |h.conns| && h.conns[i].fd >= 0 && Received(h, s, i)
    requires Do(h, s).Next? && Run(Do(h, s).host, steps, g) && Others(steps, i) && g.mode == In(Turn)
    ensures i < |g.conns| && (Enabled(g, Gives(i, false)) <==> h.conns[i].reading)
  {
    hide Inv, InputsOk, Do, LowestUsable, Held, Reached;
    ReachedInputs(h);
    OpenNotClosing(h, i);
    StepKeeps(h, s);
    StepInputs(h, s);
    StepBecomes(h, s, i);
    hide Enabled;
    OthersKeep(Do(h, s).host, steps, g, i);
    TurnEnables(g, i);
  }

  lemma OpenNotClosing(h: Host, i: nat)
    requires Inv(h) && i < |h.conns| && h.conns[i].fd >= 0
    ensures h.conns[i].closing < 0
  {
    hide Tally;
    ConnIs(h, i);
  }

  // ---- An open connection is served

  /** In the program's turn no send is in flight. */
  predicate Quiet(h: Host) { h.mode.base == Turn ==> h.sendsLive == 0 }

  lemma StepQuiet(h: Host, s: Step)
    requires Quiet(h) && Enabled(h, s) && Do(h, s).Next?
    ensures Quiet(Do(h, s).host)
  {
    hide Held, LowestUsable, PlaceFrom;
  }

  lemma {:induction false} RunQuiet(before: Host, steps: seq<Step>, after: Host)
    requires Quiet(before) && Run(before, steps, after)
    ensures Quiet(after)
    decreases |steps|
  {
    hide Do, Enabled, Quiet;
    if steps != [] {
      StepQuiet(before, steps[0]);
      RunQuiet(Do(before, steps[0]).host, steps[1..], after);
    }
  }

  lemma ReachedTurn(h: Host)
    requires Reached(h) && h.mode == In(Turn)
    ensures h.sendsLive == 0 && h.toLinger == [] && |h.conns| == CONNS
  {
    ReachedInv(h);
    hide Tally, ConnsOk, TokensOk, LingersOk;
    var steps :| Run(Start(), steps, h);
    RunQuiet(Start(), steps, h);
  }

  lemma Then(h: Host, s: Step, rest: seq<Step>, after: Host)
    requires Enabled(h, s) && Do(h, s).Next? && Run(Do(h, s).host, rest, after)
    ensures Run(h, [s] + rest, after)
  {
    hide Do, Enabled;
    assert ([s] + rest)[1..] == rest;
  }

  /** An answer written whole, and back to the turn: the client is read, and nothing else has changed. */
  lemma Answers(h: Host, i: nat, rest: seq<Step>, after: Host) returns (steps: seq<Step>)
    requires h.mode == In(Turn) && h.sendsLive == 0 && h.toLinger == [] && i < |h.conns| && h.conns[i].fd >= 0
    requires Run(h.(conns := h.conns[i := h.conns[i].(reading := true)], acted := {i}, batched := {}), rest, after)
    ensures Run(h, steps, after)
  {
    hide Held, LowestUsable, Run;
    var g := h.(conns := h.conns[i := h.conns[i].(reading := true)], acted := {i}, batched := {});
    var a := h.(mode := In(Emit), acted := {}, batched := {});
    var b := g.(mode := In(Emit));
    var c := g.(mode := Draining(Turn));
    assert {} + {i} == {i};
    assert Do(h, Emits) == Next(a);
    assert Do(a, Writes(i, false, true)) == Next(b);
    assert Do(b, Emitted) == Next(c);
    assert Do(c, Drained) == Next(g);
    hide Do, Enabled;
    steps := [Drained] + rest;
    Then(c, Drained, rest, after);
    Then(b, Emitted, steps, after);
    steps := [Emitted] + steps;
    Then(a, Writes(i, false, true), steps, after);
    steps := [Writes(i, false, true)] + steps;
    Then(h, Emits, steps, after);
    steps := [Emits] + steps;
  }

  /** The receive taken. */
  lemma HeardOne(h: Host, i: nat, k: nat)
    requires Inv(h) && h.mode == Reaping(Turn) && h.toLinger == [] && i < |h.conns| && h.conns[i].fd >= 0
    requires k < |h.inflight| && RecvOf(i)(h.inflight[k])
    ensures var r := Completed(h, k, true);
      && r.Next? && |r.host.conns| == |h.conns|
      && r.host.mode == h.mode && r.host.toLinger == [] && r.host.shut == h.shut
      && SameClient(h.conns[i], r.host.conns[i])
      && r.host.conns[i].reading == h.conns[i].reading && r.host.conns[i].input
  {
    ConnThere(h, k);
    OpenNotClosing(h, i);
    hide Inv, Completed, Without;
    TakenIs(h, k, true);
  }

  /** Its receive in flight, it completes, and back to the turn: what came in is there to give out. */
  lemma Hears(h: Host, i: nat, k: nat) returns (steps: seq<Step>, g: Host)
    requires Inv(h) && h.mode == In(Turn) && h.toLinger == []
    requires i < |h.conns| && h.conns[i].fd >= 0 && h.conns[i].reading
    requires k < |h.inflight| && RecvOf(i)(h.inflight[k])
    ensures Run(h, steps, g) && g.mode == In(Turn) && i < |g.conns| && g.shut == h.shut
    ensures SameClient(h.conns[i], g.conns[i]) && g.conns[i].reading && g.conns[i].input
  {
    hide Held, LowestUsable, Run, Inv, Completed;
    var a := h.(mode := Reaping(Turn));
    StepKeeps(h, Reaps);
    assert Do(h, Reaps) == Next(a);
    HeardOne(a, i, k);
    var b := Completed(a, k, true).host;
    var c := b.(mode := Draining(Turn));
    g := b.(mode := In(Turn));
    assert Do(a, Takes(k, true)) == Next(b);
    assert Do(b, Reaped) == Next(c);
    assert Do(c, Drained) == Next(g);
    hide Do, Enabled;
    Stays(g);
    Then(c, Drained, [], g);
    steps := [Drained] + [];
    Then(b, Reaped, steps, g);
    steps := [Reaped] + steps;
    Then(a, Takes(k, true), steps, g);
    steps := [Takes(k, true)] + steps;
    Then(h, Reaps, steps, g);
    steps := [Reaps] + steps;
  }

  lemma Stays(h: Host)
    ensures Run(h, [], h)
  {
  }

  lemma ReceiveThere(h: Host, i: nat) returns (k: nat)
    requires ReadsOk(h) && i < |h.conns| && h.conns[i].receiving
    ensures k < |h.inflight| && RecvOf(i)(h.inflight[k])
  {
    hide Tally, RecvOf;
    ReadIs(h, i);
    SomeOf(h.inflight, RecvOf(i));
    var j :| 0 <= j < |h.inflight| && RecvOf(i)(h.inflight[j]);
    k := j;
  }

  /** A client that is read is heard. */
  lemma Listens(h: Host, i: nat) returns (steps: seq<Step>, g: Host)
    requires Inv(h) && ReadsOk(h) && h.mode == In(Turn) && h.toLinger == []
    requires i < |h.conns| && h.conns[i].fd >= 0 && h.conns[i].reading && !h.conns[i].tls
    ensures Run(h, steps, g) && g.mode == In(Turn) && i < |g.conns| && g.shut == h.shut
    ensures SameClient(h.conns[i], g.conns[i]) && g.conns[i].reading && g.conns[i].input
  {
    hide Held, LowestUsable, Run, Inv, ReadsOk, RecvOf;
    if h.conns[i].input {
      steps, g := [], h;
      Stays(h);
    } else if h.conns[i].receiving {
      var k := ReceiveThere(h, i);
      steps, g := Hears(h, i, k);
    } else {
      StepKeeps(h, Reads(i));
      StepReads(h, Reads(i));
      var r := Do(h, Reads(i)).host;
      assert r.conns[i] == h.conns[i].(receiving := true, ops := h.conns[i].ops + 1);
      var k := ReceiveThere(r, i);
      var more: seq<Step>;
      more, g := Hears(r, i, k);
      hide Do, Enabled;
      Then(h, Reads(i), more, g);
      steps := [Reads(i)] + more;
    }
  }

  /** From every reached host in its turn, some run answers an open plain connection and comes to its input ready to be
      given out, the connection the same and nothing closed on the way. */
  lemma Served(h: Host, i: nat) returns (steps: seq<Step>, g: Host)
    requires Reached(h) && h.mode == In(Turn) && i < |h.conns| && h.conns[i].fd >= 0 && !h.conns[i].tls
    ensures Run(h, steps, g) && Enabled(g, Gives(i, false))
    ensures i < |g.conns| && SameClient(h.conns[i], g.conns[i]) && g.shut == h.shut
  {
    hide Held, LowestUsable, Run, Inv, ReadsOk, Reached;
    ReachedTurn(h);
    ReachedReads(h);
    var r := h.(conns := h.conns[i := h.conns[i].(reading := true)], acted := {i}, batched := {});
    AnswerKeeps(h, i);
    var more: seq<Step>;
    more, g := Listens(r, i);
    steps := Answers(h, i, more, g);
    TurnEnables(g, i);
  }

  /** So from the start any first client, its connection plain, is heard in some run. */
  lemma FirstHeard(fd: nat) returns (steps: seq<Step>, g: Host)
    ensures Run(Start(), steps, g) && Enabled(g, Gives(0, false)) && |g.conns| > 0 && g.conns[0].fd == fd && g.shut == []
  {
    hide Run, Do, Enabled, Start, Held, LowestUsable;
    StartFree(fd);
    var h := Do(Start(), Admits(fd, false)).host;
    Stays(h);
    Then(Start(), Admits(fd, false), [], h);
    assert Reached(h);
    var more: seq<Step>;
    more, g := Served(h, 0);
    Then(Start(), Admits(fd, false), more, g);
    steps := [Admits(fd, false)] + more;
  }

  lemma StartFree(fd: nat)
    ensures Enabled(Start(), Admits(fd, false)) && Do(Start(), Admits(fd, false)).Next?
    ensures var h := Do(Start(), Admits(fd, false)).host;
      |h.conns| > 0 && h.conns[0].fd == fd && !h.conns[0].tls && h.mode == In(Turn) && h.shut == []
  {
    NntpClosing.StartFds();
  }

  /** So it is reached, and what every reached host keeps holds of it. */
  lemma AnswerKeeps(h: Host, i: nat)
    requires Inv(h) && ReadsOk(h) && h.mode == In(Turn) && h.sendsLive == 0 && h.toLinger == []
    requires i < |h.conns| && h.conns[i].fd >= 0
    ensures var r := h.(conns := h.conns[i := h.conns[i].(reading := true)], acted := {i}, batched := {});
      Inv(r) && ReadsOk(r)
  {
    hide Run, Inv, ReadsOk, Held, LowestUsable, Do, Enabled;
    var r := h.(conns := h.conns[i := h.conns[i].(reading := true)], acted := {i}, batched := {});
    Stays(r);
    var steps := Answers(h, i, [], r);
    RunReads(h, steps, r);
  }

  // ---- Closing

  /** A descriptor queued to linger on if the close is graceful, closed if it is not, once nothing is in flight. */
  predicate LeavesAs(h: Host, r: Host, i: nat, fd: int, now: bool, gracefully: bool) {
    if !now then
      && r.toLinger == h.toLinger && r.shut == h.shut
      && i < |r.conns| && r.conns[i].closing == fd && r.conns[i].lingers == gracefully
    else if gracefully then r.toLinger == h.toLinger + [fd] && r.shut == h.shut
    else r.toLinger == h.toLinger && r.shut == h.shut + [fd]
  }

  lemma CloseLeaves(h: Host, i: nat, gracefully: bool)
    requires i < |h.conns| && h.conns[i].fd >= 0 && Close(h, i, gracefully).Next?
    ensures LeavesAs(h, Close(h, i, gracefully).host, i, h.conns[i].fd, h.conns[i].ops == 0, gracefully)
  {
  }

  lemma SentLeaves(h: Host, i: nat, whole: bool)
    requires i < |h.conns| && h.conns[i].fd >= 0 && Sent(h, i, true, whole).Next?
    ensures LeavesAs(h, Sent(h, i, true, whole).host, i, h.conns[i].fd, h.conns[i].ops == 0, false)
  {
  }

  lemma FreeLeaves(h: Host, i: nat)
    requires i < |h.conns| && h.conns[i].fd >= 0 && FreeIndex(h, i).Next?
    ensures LeavesAs(h, FreeIndex(h, i).host, i, h.conns[i].fd, h.conns[i].ops == 0, false)
  {
  }

  predicate GoesBy(s: Step, i: nat) { s == Fails(i) || (s.Closes? && s.i == i) || (Answered(s, i) && s.failed) }

  /** A connection closed as asked, failed, or lost by a send that failed: only the close that is graceful lingers. */
  lemma LeavesBy(h: Host, s: Step, i: nat)
    requires i < |h.conns| && h.conns[i].fd >= 0 && Reached(h) && Enabled(h, s) && GoesBy(s, i)
    ensures Do(h, s).Next?
    ensures LeavesAs(h, Do(h, s).host, i, h.conns[i].fd, h.conns[i].ops == 0, s.Closes? && s.gracefully)
  {
    hide Inv, Held, LowestUsable, Close, Sent, FreeIndex, Reached;
    ReachedInv(h);
    StepKeeps(h, s);
    match s {
      case Fails(_) => FreeLeaves(h, i);
      case Closes(_, gracefully) => CloseLeaves(h.(acted := h.acted + {i}), i, gracefully);
      case Writes(_, _, whole) => SentLeaves(h.(acted := h.acted + {i}), i, whole);
      case EndsSend(_, _, whole) => SentLeaves(h.(batched := h.batched - {i}), i, whole);
    }
  }

  /** What a completion lets go: the descriptor of a connection being closed whose last operation it is, the way its
      close said. */
  predicate LetsGo(h: Host, r: Host, c: Conn, ops: nat) {
    var last := c.closing >= 0 && ops == 1;
    && r.toLinger == (if last && c.lingers then h.toLinger + [c.closing] else h.toLinger)
    && r.shut == (if last && !c.lingers then h.shut + [c.closing] else h.shut)
  }

  lemma TakenLeaves(h: Host, k: nat, goesOn: bool, slot: nat)
    requires k < |h.inflight| && h.inflight[k].ConnOp? && h.inflight[k].slot == slot < |h.conns|
    requires Completed(h, k, goesOn).Next?
    ensures LetsGo(h, Completed(h, k, goesOn).host, h.conns[slot], h.conns[slot].ops)
  {
  }

  lemma LastTaken(h: Host, k: nat, goesOn: bool, slot: nat)
    requires k < |h.inflight| && h.inflight[k].ConnOp? && h.inflight[k].slot == slot < |h.conns|
    requires Reached(h) && Enabled(h, Takes(k, goesOn))
    ensures Do(h, Takes(k, goesOn)).Next?
    ensures LetsGo(h, Do(h, Takes(k, goesOn)).host, h.conns[slot], Tally(h.inflight, OfConn(slot)))
  {
    hide Held, LowestUsable, Tally, OfConn, Completed, Reached;
    ReachedInv(h);
    StepKeeps(h, Takes(k, goesOn));
    ConnIs(h, slot);
    hide Inv;
    TakenLeaves(h, k, goesOn, slot);
  }
}
