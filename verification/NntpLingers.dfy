/** The NNTP host's sockets that linger and the operations it has in flight: what every step makes of them, and that a
    descriptor queued to linger on comes to do so. */
module NntpLingers {
  import opened Counting
  import opened NntpHost
  import opened NntpSafety
  import opened NntpReads
  import opened NntpServes

  // ---- Operations

  /** The operations a step puts in flight: the receive or the send it is for, a lingering socket's receive, else
      nothing but cancellations and polls. */
  predicate Puts(h: Host, s: Step, more: seq<Token>) {
    if s.Reads? && s.i < |h.conns| then more == [ConnOp(Recv, s.i, h.conns[s.i].gen)]
    else if s.Sends? && s.i < |h.conns| then more == [ConnOp(Send, s.i, h.conns[s.i].gen)]
    else if s.LingerReads? && s.at < |h.lingering| then more == [LingerOp(s.at, h.lingering[s.at].since)]
    else more == [] || more == [OtherOp] || (|more| == 1 && more[0].ConnOp? && more[0].kind == Cancel)
  }

  /** A completion taken is in flight no more; any other step only adds what it puts there. */
  ghost predicate Flies(h: Host, s: Step, r: Host) {
    if s.Takes? && s.k < |h.inflight| then r.inflight == Without(h.inflight, s.k)
    else exists more :: Puts(h, s, more) && r.inflight == h.inflight + more
  }

  lemma RetireFlies(h: Host, i: nat, lingers: bool) returns (more: seq<Token>)
    requires i < |h.conns| && Retire(h, i, lingers).Next?
    ensures Retire(h, i, lingers).host.inflight == h.inflight + more
    ensures more == [] || (|more| == 1 && more[0].ConnOp? && more[0].kind == Cancel)
  {
    more := if h.conns[i].ops == 0 then [] else [ConnOp(Cancel, i, h.conns[i].gen)];
  }

  lemma ActFlies(h: Host, s: Step, i: nat)
    requires Enabled(h, s) && Do(h, s).Next? && ActsOn(s, i)
    ensures Flies(h, s, Do(h, s).host)
  {
    hide Held, LowestUsable, Retire;
    var r := Do(h, s).host;
    var more: seq<Token>;
    match s {
      case TellsLost(_) =>
        if h.conns[i].fd >= 0 {
          more := RetireFlies(h, i, false);
        } else {
          more := [];
        }
      case Fails(_) => more := RetireFlies(h, i, false);
      case Closes(_, gracefully) =>
        more := RetireFlies(h.(acted := h.acted + {i}), i, gracefully);
        RetireConn(h.(acted := h.acted + {i}), i, gracefully);
      case Writes(_, failed, _) =>
        if failed {
          more := RetireFlies(h.(acted := h.acted + {i}), i, false);
        } else {
          more := [];
        }
      case EndsSend(_, failed, _) =>
        if failed {
          more := RetireFlies(h.(batched := h.batched - {i}), i, false);
        } else {
          more := [];
        }
    }
    assert Puts(h, s, more) && r.inflight == h.inflight + more;
  }

  lemma PlainFlies(h: Host, s: Step)
    requires Enabled(h, s) && Do(h, s).Next? && Plain(s)
    ensures Flies(h, s, Do(h, s).host)
  {
    hide Held, LowestUsable;
    var r := Do(h, s).host;
    var more :=
      match s
      case Reads(i) => [ConnOp(Recv, i, h.conns[i].gen)]
      case Sends(i) => [ConnOp(Send, i, h.conns[i].gen)]
      case LingerReads(at) => [LingerOp(at, h.lingering[at].since)]
      case LingerEnds(at) => if h.lingering[at].receiving then [OtherOp] else []
      case Polls => [OtherOp]
      case _ => [];
    assert Puts(h, s, more) && r.inflight == h.inflight + more;
  }

  lemma TakeFlies(h: Host, k: nat, goesOn: bool)
    requires k < |h.inflight| && Completed(h, k, goesOn).Next?
    ensures Completed(h, k, goesOn).host.inflight == Without(h.inflight, k)
  {
  }

  lemma UpFlies(h: Host, s: Step)
    requires Enabled(h, s) && (s.TakesUp? || s.Settles?)
    ensures Flies(h, s, Do(h, s).host)
  {
    hide Held, LowestUsable, PlaceFrom;
    var r := Do(h, s).host;
    var more := r.inflight[|h.inflight|..];
    assert Puts(h, s, more) && r.inflight == h.inflight + more;
  }

  /** Every step does that to the operations in flight. */
  lemma StepFlies(h: Host, s: Step)
    requires Enabled(h, s) && Do(h, s).Next?
    ensures Flies(h, s, Do(h, s).host)
  {
    hide Held, LowestUsable, Close, Sent, FreeIndex, Completed, TakeUp, Settle, Flies, Interest, Prepare;
    match s {
      case Fails(i) => ActFlies(h, s, i);
      case TellsLost(i) => ActFlies(h, s, i);
      case Closes(i, _) => ActFlies(h, s, i);
      case Writes(i, _, _) => ActFlies(h, s, i);
      case EndsSend(i, _, _) => ActFlies(h, s, i);
      case Takes(k, goesOn) =>
        TakeFlies(h, k, goesOn);
        TakenFlies(h, s, Do(h, s).host);
      case TakesUp(_) => UpFlies(h, s);
      case Settles => UpFlies(h, s);
      case _ => PlainFlies(h, s);
    }
  }

  lemma TakenFlies(h: Host, s: Step, r: Host)
    requires s.Takes? && s.k < |h.inflight| && r.inflight == Without(h.inflight, s.k)
    ensures Flies(h, s, r)
  {
  }

  // ---- Sockets that linger

  predicate OwnOp(h: Host, s: Step, at: nat) {
    s.Takes? && s.k < |h.inflight| && h.inflight[s.k].LingerOp? && h.inflight[s.k].at == at
  }

  /** A place a socket may linger in, before a step and after it: taken by the descriptor that waited for it, its socket
      being received from, let go when its time is over or nothing more comes, and otherwise as it was but that it may
      be told to end. */
  predicate Stays(h: Host, s: Step, at: nat, l: Lingering, m: Lingering) {
    if s.Settles? && h.mode.Waiting? && h.mode.at == at then m.fd == h.mode.fd && m.since == h.lingered + 1 && !m.receiving
    else if s == LingerReads(at) then m == l.(receiving := true)
    else if s == LingerEnds(at) then if l.receiving then m == l.(ending := true) else m.fd < 0
    else if OwnOp(h, s, at) then
      if s.goesOn && !l.ending then m == l.(receiving := false) else m.fd < 0 && !m.receiving
    else m == l || (s.TakesUp? && l.receiving && m == l.(ending := true))
  }

  lemma TakeStays(h: Host, k: nat, goesOn: bool, at: nat)
    requires k < |h.inflight| && Completed(h, k, goesOn).Next? && at < |h.lingering|
    ensures var r := Completed(h, k, goesOn).host;
      |r.lingering| == |h.lingering| && Stays(h, Takes(k, goesOn), at, h.lingering[at], r.lingering[at])
  {
    hide LowestUsable;
  }

  lemma ActStays(h: Host, s: Step, i: nat, at: nat)
    requires Enabled(h, s) && Do(h, s).Next? && ActsOn(s, i) && at < |h.lingering|
    ensures Do(h, s).host.lingering == h.lingering && Stays(h, s, at, h.lingering[at], h.lingering[at])
  {
    hide Held, LowestUsable;
  }

  lemma PlainStays(h: Host, s: Step, at: nat)
    requires Enabled(h, s) && Do(h, s).Next? && Plain(s) && at < |h.lingering|
    ensures var r := Do(h, s).host;
      |r.lingering| == |h.lingering| && Stays(h, s, at, h.lingering[at], r.lingering[at])
  {
    hide Held, LowestUsable;
  }

  lemma UpStays(h: Host, s: Step, at: nat)
    requires Enabled(h, s) && (s.TakesUp? || s.Settles?) && at < |h.lingering|
    ensures var r := Do(h, s).host;
      |r.lingering| == |h.lingering| && Stays(h, s, at, h.lingering[at], r.lingering[at])
  {
    hide Held, LowestUsable, PlaceFrom;
  }

  /** Every step does that to every place. */
  lemma StepStays(h: Host, s: Step, at: nat)
    requires Enabled(h, s) && Do(h, s).Next? && at < |h.lingering|
    ensures var r := Do(h, s).host;
      |r.lingering| == |h.lingering| && Stays(h, s, at, h.lingering[at], r.lingering[at])
  {
    hide Held, LowestUsable, Close, Sent, FreeIndex, Completed, TakeUp, Settle, Stays, Interest, Prepare, Drop, Admit;
    match s {
      case Fails(i) => ActStays(h, s, i, at);
      case TellsLost(i) => ActStays(h, s, i, at);
      case Closes(i, _) => ActStays(h, s, i, at);
      case Writes(i, _, _) => ActStays(h, s, i, at);
      case EndsSend(i, _, _) => ActStays(h, s, i, at);
      case Takes(k, goesOn) => TakeStays(h, k, goesOn, at);
      case TakesUp(_) => UpStays(h, s, at);
      case Settles => UpStays(h, s, at);
      case _ => PlainStays(h, s, at);
    }
  }

  // ---- A descriptor queued comes to linger

  lemma ReceiveOf(h: Host, at: nat) returns (k: nat)
    requires Inv(h) && at < |h.lingering| && h.lingering[at].receiving
    ensures k < |h.inflight| && h.inflight[k].LingerOp? && h.inflight[k].at == at
    ensures h.lingering[at].fd >= 0 && h.lingering[at].since == h.inflight[k].since
  {
    LingerIs(h, at);
    SomeOf(h.inflight, OfLinger(at));
    k :| 0 <= k < |h.inflight| && OfLinger(at)(h.inflight[k]);
    assert TokenOk(h.conns, h.lingering, h.inflight[k]);
  }

  /** The place free of its receive, the descriptor that waits is in it. */
  lemma Placed(h: Host, fd: int, at: nat) returns (steps: seq<Step>, g: Host)
    requires Inv(h) && h.mode.Waiting? && h.mode.fd == fd && h.mode.at == at
    ensures Run(h, steps, g) && at < |g.lingering| && g.lingering[at].fd == fd && !g.lingering[at].receiving
    ensures g.mode == Draining(h.mode.base) && g.toLinger == h.toLinger && g.conns == h.conns
  {
    PlaceThere(h);
    var l := h.lingering[at];
    if l.fd >= 0 && l.receiving {
      var k := ReceiveOf(h, at);
      hide Inv, Held, LowestUsable, Run;
      var s := Takes(k, false);
      var a := Do(h, s).host;
      assert a.mode == h.mode && a.toLinger == h.toLinger && a.conns == h.conns;
      assert |a.lingering| == |h.lingering| && a.lingering[at].fd < 0;
      var more: seq<Step>;
      more, g := SettlesNow(a, fd, at);
      hide Do, Enabled;
      Then(h, s, more, g);
      steps := [s] + more;
    } else {
      hide Inv;
      steps, g := SettlesNow(h, fd, at);
    }
  }

  lemma PlaceThere(h: Host)
    requires Inv(h) && h.mode.Waiting?
    ensures h.mode.at < |h.lingering|
  {
    hide Tally, ConnsOk, TokensOk, LingersOk;
  }

  lemma SettlesNow(h: Host, fd: int, at: nat) returns (steps: seq<Step>, g: Host)
    requires h.mode.Waiting? && h.mode.fd == fd && h.mode.at == at < |h.lingering|
    requires !(h.lingering[at].fd >= 0 && h.lingering[at].receiving)
    ensures Run(h, steps, g) && at < |g.lingering| && g.lingering[at].fd == fd && !g.lingering[at].receiving
    ensures g.mode == Draining(h.mode.base) && g.toLinger == h.toLinger && g.conns == h.conns
  {
    hide Held, LowestUsable, Run;
    g := Do(h, Settles).host;
    NntpServes.Stays(g);
    Then(h, Settles, [], g);
    steps := [Settles] + [];
  }

  /** From every reached host that drains its queue, some run has the last descriptor queued lingering, whatever
      lingered before it, the rest of the queue and every connection as they were. */
  lemma Lingered(h: Host) returns (steps: seq<Step>, g: Host, at: nat)
    requires Reached(h) && h.mode.Draining? && h.toLinger != []
    ensures var n := |h.toLinger| - 1;
      && Run(h, steps, g) && g.mode == h.mode && g.toLinger == h.toLinger[..n] && g.conns == h.conns
      && at < |g.lingering| && g.lingering[at].fd == h.toLinger[n] && !g.lingering[at].receiving
  {
    hide Inv, Held, LowestUsable, Run, Reached, Do, Enabled;
    ReachedInv(h);
    SizesOf(h);
    var s, n := TakesUp(true), |h.toLinger| - 1;
    TakenUp(h);
    StepKeeps(h, s);
    var a := Do(h, s).host;
    at := a.mode.at;
    var more: seq<Step>;
    more, g := Placed(a, h.toLinger[n], at);
    Then(h, s, more, g);
    steps := [s] + more;
  }

  lemma SizesOf(h: Host)
    requires Inv(h)
    ensures |h.lingering| > 0
  {
    hide Tally, ConnsOk, TokensOk, LingersOk;
  }

  lemma TakenUp(h: Host)
    requires h.mode.Draining? && h.toLinger != [] && |h.lingering| > 0
    ensures Enabled(h, TakesUp(true)) && Do(h, TakesUp(true)).Next?
    ensures var a, n := Do(h, TakesUp(true)).host, |h.toLinger| - 1;
      && a.mode.Waiting? && a.mode.base == h.mode.base && a.mode.fd == h.toLinger[n]
      && a.toLinger == h.toLinger[..n] && a.conns == h.conns
  {
    hide Held, LowestUsable, PlaceFrom;
  }
}
