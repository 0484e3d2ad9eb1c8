/** The NNTP host's receives: one at a time for a connection, and none while what the last one took is still to be given
    out, so that the connection's one buffer is never written over. */
module NntpReads {
  import opened Counting
  import opened NntpHost
  import opened NntpSafety

  function RecvOf(i: nat): Token -> bool { (t: Token) => t.ConnOp? && t.kind == Recv && t.slot == i }

  /** The flags say what is in flight and what is in the buffer. */
  predicate ReadOk(c: Conn, n: nat) { n == (if c.receiving then 1 else 0) && !(c.receiving && c.input) }

  ghost predicate ReadsOk(h: Host) {
    forall i {:trigger h.conns[i]} :: 0 <= i < |h.conns| ==> ReadOk(h.conns[i], Tally(h.inflight, RecvOf(i)))
  }

  lemma ReadIs(h: Host, i: nat)
    requires ReadsOk(h) && i < |h.conns|
    ensures ReadOk(h.conns[i], Tally(h.inflight, RecvOf(i)))
  {
  }

  /** Connections the same but for `i`, receives in flight the same but for `i`'s. */
  ghost predicate OnlyOf(h: Host, r: Host, i: nat) {
    && |r.conns| == |h.conns|
    && (forall j {:trigger r.conns[j]} :: 0 <= j < |h.conns| && j != i ==>
          r.conns[j] == h.conns[j] && Tally(r.inflight, RecvOf(j)) == Tally(h.inflight, RecvOf(j)))
  }

  lemma OneChanged(h: Host, r: Host, i: nat)
    requires ReadsOk(h) && OnlyOf(h, r, i)
    requires i < |h.conns| ==> ReadOk(r.conns[i], Tally(r.inflight, RecvOf(i)))
    ensures ReadsOk(r)
  {
    hide Tally;
    forall j | 0 <= j < |r.conns| ensures ReadOk(r.conns[j], Tally(r.inflight, RecvOf(j))) {
      if j != i { ReadIs(h, j); }
    }
  }

  /** An operation more. */
  lemma MoreOf(inflight: seq<Token>, t: Token)
    ensures forall j: nat {:trigger RecvOf(j)} ::
      Tally(inflight + [t], RecvOf(j)) == Tally(inflight, RecvOf(j)) + if RecvOf(j)(t) then 1 else 0
  {
    forall j: nat
      ensures Tally(inflight + [t], RecvOf(j)) == Tally(inflight, RecvOf(j)) + if RecvOf(j)(t) then 1 else 0
    {
      TallyAppend(inflight, t, RecvOf(j));
    }
  }

  lemma LessOf(inflight: seq<Token>, k: nat)
    requires k < |inflight|
    ensures forall j: nat {:trigger RecvOf(j)} ::
      Tally(inflight, RecvOf(j)) == Tally(Without(inflight, k), RecvOf(j)) + if RecvOf(j)(inflight[k]) then 1 else 0
  {
    forall j: nat
      ensures Tally(inflight, RecvOf(j)) == Tally(Without(inflight, k), RecvOf(j)) + if RecvOf(j)(inflight[k]) then 1 else 0
    {
      TallyRemove(inflight, k, RecvOf(j));
    }
  }

  // ---- Steps

  /** No receive changes: the connection's flags of it the same or, its input given up, no longer input. */
  lemma QuietReads(h: Host, r: Host, i: nat)
    requires ReadsOk(h) && i < |h.conns| == |r.conns| && r.conns == h.conns[i := r.conns[i]]
    requires r.conns[i].receiving == h.conns[i].receiving && (r.conns[i].input ==> h.conns[i].input)
    requires forall j: nat {:trigger RecvOf(j)} :: Tally(r.inflight, RecvOf(j)) == Tally(h.inflight, RecvOf(j))
    ensures ReadsOk(r)
  {
    hide Tally;
    ReadIs(h, i);
    OneChanged(h, r, i);
  }

  lemma SameReads(h: Host, r: Host)
    requires ReadsOk(h) && r.conns == h.conns
    requires forall j: nat {:trigger RecvOf(j)} :: Tally(r.inflight, RecvOf(j)) == Tally(h.inflight, RecvOf(j))
    ensures ReadsOk(r)
  {
    hide Tally;
    OneChanged(h, r, |h.conns|);
  }

  lemma RetireReads(h: Host, i: nat, lingers: bool)
    requires ReadsOk(h) && i < |h.conns| && Retire(h, i, lingers).Next?
    ensures ReadsOk(Retire(h, i, lingers).host) && |Retire(h, i, lingers).host.conns| == |h.conns|
  {
    hide Tally, ReadsOk;
    MoreOf(h.inflight, ConnOp(Cancel, i, h.conns[i].gen));
    QuietReads(h, Retire(h, i, lingers).host, i);
  }

  lemma FreeReads(h: Host, i: nat)
    requires ReadsOk(h) && i < |h.conns| && FreeIndex(h, i).Next?
    ensures ReadsOk(FreeIndex(h, i).host)
  {
    hide Tally, ReadsOk, Retire;
    var g := if h.conns[i].fd >= 0 then Retire(h, i, false).host else h;
    if h.conns[i].fd >= 0 { RetireReads(h, i, false); }
    QuietReads(g, FreeIndex(h, i).host, i);
  }

  lemma CloseReads(h: Host, i: nat, gracefully: bool)
    requires ReadsOk(h) && i < |h.conns| && Close(h, i, gracefully).Next?
    ensures ReadsOk(Close(h, i, gracefully).host)
  {
    hide Tally, ReadsOk, Retire, FreeIndex;
    RetireReads(h, i, gracefully);
    FreeReads(Retire(h, i, gracefully).host, i);
  }

  lemma SentReads(h: Host, i: nat, failed: bool, whole: bool)
    requires ReadsOk(h) && i < |h.conns| && Sent(h, i, failed, whole).Next?
    ensures ReadsOk(Sent(h, i, failed, whole).host)
  {
    hide Tally, ReadsOk, Retire;
    var g := if failed then Retire(h, i, false).host else h;
    if failed { RetireReads(h, i, false); }
    QuietReads(g, Sent(h, i, failed, whole).host, i);
  }

  lemma ReceiveReads(h: Host, i: nat)
    requires ReadsOk(h) && Enabled(h, Reads(i))
    ensures ReadsOk(Interest(h, i))
  {
    hide Tally, Held;
    var t := ConnOp(Recv, i, h.conns[i].gen);
    ReadIs(h, i);
    MoreOf(h.inflight, t);
    assert RecvOf(i)(t);
    OneChanged(h, Interest(h, i), i);
  }

  lemma SendReads(h: Host, i: nat)
    requires ReadsOk(h) && i < |h.conns|
    ensures ReadsOk(Prepare(h, Send, i))
  {
    hide Tally, ReadsOk;
    MoreOf(h.inflight, ConnOp(Send, i, h.conns[i].gen));
    QuietReads(h, Prepare(h, Send, i), i);
  }

  /** An index given out has nothing in flight, so its receive is not. */
  lemma AdmitReads(h: Host, fd: int, tls: bool)
    requires Inv(h) && ReadsOk(h) && Enabled(h, Admits(fd, tls))
    ensures ReadsOk(Admit(h, fd, tls))
  {
    hide Tally, Held, Inv;
    var i := LowestUsable(h.conns, 0);
    AdmitKeeps(h, fd, tls);
    NoneReceives(h, i);
    OneChanged(h, Admit(h, fd, tls), i);
  }

  lemma NoneReceives(h: Host, i: nat)
    requires forall k {:trigger h.inflight[k]} :: 0 <= k < |h.inflight| ==> !OfConn(i)(h.inflight[k])
    ensures Tally(h.inflight, RecvOf(i)) == 0
  {
    if Tally(h.inflight, RecvOf(i)) > 0 { SomeOf(h.inflight, RecvOf(i)); }
  }

  lemma TakenReads(h: Host, k: nat, goesOn: bool)
    requires Inv(h) && ReadsOk(h) && k < |h.inflight| && Completed(h, k, goesOn).Next?
    ensures ReadsOk(Completed(h, k, goesOn).host)
  {
    hide Tally, Inv;
    var t, r := h.inflight[k], Completed(h, k, goesOn).host;
    LessOf(h.inflight, k);
    if t.ConnOp? {
      ReadIs(h, t.slot);
      assert RecvOf(t.slot)(t) == (t.kind == Recv);
      OneChanged(h, r, t.slot);
    } else {
      SameReads(h, r);
    }
  }

  /** Every step keeps it. */
  lemma StepReads(h: Host, s: Step)
    requires Inv(h) && ReadsOk(h) && Enabled(h, s) && Do(h, s).Next?
    ensures ReadsOk(Do(h, s).host)
  {
    hide Tally, Inv, ReadsOk, Held, Retire, FreeIndex, Close, Sent, Completed, Interest, Prepare, Admit, TakeUp, Settle;
    var r := Do(h, s).host;
    match s {
      case Admits(fd, tls) => AdmitReads(h, fd, tls);
      case Reads(i) => ReceiveReads(h, i);
      case Gives(i, ended) => QuietReads(h, r, i);
      case Fails(i) => FreeReads(h, i);
      case TellsLost(i) => FreeReads(h, i);
      case LingerReads(at) =>
        MoreOf(h.inflight, LingerOp(at, h.lingering[at].since));
        SameReads(h, r);
      case LingerEnds(at) =>
        MoreOf(h.inflight, OtherOp);
        SameReads(h, r);
      case Polls =>
        MoreOf(h.inflight, OtherOp);
        SameReads(h, r);
      case Takes(k, goesOn) => TakenReads(h, k, goesOn);
      case TakesUp(shut) => TakeUpReads(h, shut);
      case Settles => SettleReads(h);
      case Sends(i) =>
        SendReads(h, i);
        SameReads(Prepare(h, Send, i), r);
      case Writes(i, failed, whole) => ActedReads(h, s, i);
      case Closes(i, gracefully) => ActedReads(h, s, i);
      case EndsSend(i, failed, whole) => ActedReads(h, s, i);
      case Checks(i) => QuietReads(h, r, i);
      case _ => SameReads(h, r);
    }
  }

  lemma TakeUpReads(h: Host, shut: bool)
    requires ReadsOk(h) && Enabled(h, TakesUp(shut))
    ensures ReadsOk(TakeUp(h, shut))
  {
    hide Tally, ReadsOk, Held;
    MoreOf(h.inflight, OtherOp);
    SameReads(h, TakeUp(h, shut));
  }

  lemma SettleReads(h: Host)
    requires ReadsOk(h) && Enabled(h, Settles)
    ensures ReadsOk(Settle(h))
  {
    hide Tally, ReadsOk, Held;
    SameReads(h, Settle(h));
  }

  lemma ActedReads(h: Host, s: Step, i: nat)
    requires ReadsOk(h) && Enabled(h, s) && Do(h, s).Next?
    requires (s.Writes? && s.i == i) || (s.Closes? && s.i == i) || (s.EndsSend? && s.i == i)
    ensures ReadsOk(Do(h, s).host)
  {
    hide Tally, ReadsOk, Held, Sent, Close;
    var g := if s.EndsSend? then h.(batched := h.batched - {i}) else h.(acted := h.acted + {i});
    SameReads(h, g);
    if s.Closes? { CloseReads(g, i, s.gracefully); } else { SentReads(g, i, s.failed, s.whole); }
  }

  // ---- Every run

  lemma {:induction false} RunReads(before: Host, steps: seq<Step>, after: Host)
    requires Inv(before) && ReadsOk(before) && Run(before, steps, after)
    ensures Inv(after) && ReadsOk(after)
    decreases |steps|
  {
    hide Inv, ReadsOk, Do;
    if steps != [] {
      StepKeeps(before, steps[0]);
      StepReads(before, steps[0]);
      RunReads(Do(before, steps[0]).host, steps[1..], after);
    }
  }

  lemma ReachedReads(h: Host)
    requires Reached(h)
    ensures Inv(h) && ReadsOk(h)
  {
    hide Inv;
    var steps :| Run(Start(), steps, h);
    StartInv();
    assert ReadsOk(Start());
    RunReads(Start(), steps, h);
  }

  /** In every run a connection has at most one receive in flight, and none while what the last took is not given out:
      its buffer is not written over. */
  lemma OneReceive(h: Host, i: nat, k: nat)
    requires Reached(h) && i < |h.conns| && k < |h.inflight| && RecvOf(i)(h.inflight[k])
    ensures h.conns[i].receiving && !h.conns[i].input
    ensures forall j {:trigger h.inflight[j]} :: 0 <= j < |h.inflight| && j != k ==> !RecvOf(i)(h.inflight[j])
  {
    hide Inv, Tally, ReadsOk, Reached, RecvOf;
    ReachedReads(h);
    ReadIs(h, i);
    TallyHas(h.inflight, k, RecvOf(i));
    forall j | 0 <= j < |h.inflight| && j != k ensures !RecvOf(i)(h.inflight[j]) {
      if RecvOf(i)(h.inflight[j]) { TwoOf(h.inflight, j, k, RecvOf(i)); }
    }
  }

  lemma TwoOf(s: seq<Token>, j: nat, k: nat, p: Token -> bool)
    requires j < |s| && k < |s| && j != k && p(s[j]) && p(s[k])
    ensures Tally(s, p) >= 2
  {
    hide Tally;
    var rest := Without(s, k);
    TallyRemove(s, k, p);
    var m := if j < k then j else j - 1;
    assert rest[m] == s[j];
    TallyHas(rest, m, p);
  }

  /** In every run, input of a plain connection once given out, the next receive may be armed: nothing keeps a client
      from being read again. */
  lemma ReadAgain(h: Host, i: nat)
    requires Reached(h) && Enabled(h, Gives(i, false)) && !h.conns[i].tls
    ensures Enabled(h, Gives(i, false)) && Enabled(Do(h, Gives(i, false)).host, Reads(i))
  {
    hide Inv, Held;
    ReachedReads(h);
    ReadIs(h, i);
  }
}
