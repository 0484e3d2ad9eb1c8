/** The NNTP host's descriptors: each is in one place while it is open, and is closed once, with nothing in flight on
    it. */
module NntpClosing {
  import opened Gathering
  import opened Counting
  import opened NntpHost
  import opened NntpSafety

  /** The descriptor a step takes from the kernel. */
  function Given(s: Step): multiset<int> { if s.Admits? || s.Refuses? then Open(s.fd) else multiset{} }

  function AllGiven(steps: seq<Step>): multiset<int> { Gather(steps, Given) }

  /** The descriptors the host has and has closed are those before and the ones given; what is closed stays closed. */
  ghost predicate Conserves(h: Host, r: Host, given: multiset<int>) {
    h.shut <= r.shut && Held(r) + multiset(r.shut) == Held(h) + multiset(h.shut) + given
  }

  lemma Chained(h: Host, g: Host, r: Host)
    requires Conserves(h, g, multiset{}) && Conserves(g, r, multiset{})
    ensures Conserves(h, r, multiset{})
  {
    hide Held;
  }

  // ---- Changing one place

  lemma PutFds(h: Host, i: nat, c: Conn)
    requires i < |h.conns|
    ensures Held(Put(h, i, c)) + ConnFds(h.conns[i]) == Held(h) + ConnFds(c)
  {
    hide Gather, ConnFds, LingerFds;
    GatherUpdate(h.conns, i, c, ConnFds);
    Balance(Held(h), Held(Put(h, i, c)), Gather(h.conns, ConnFds), Gather(h.conns[i := c], ConnFds),
            ConnFds(h.conns[i]), ConnFds(c));
  }

  lemma PutLFds(h: Host, at: nat, l: Lingering)
    requires at < |h.lingering|
    ensures Held(PutL(h, at, l)) + LingerFds(h.lingering[at]) == Held(h) + LingerFds(l)
  {
    hide Gather, ConnFds, LingerFds;
    GatherUpdate(h.lingering, at, l, LingerFds);
    Balance(Held(h), Held(PutL(h, at, l)), Gather(h.lingering, LingerFds), Gather(h.lingering[at := l], LingerFds),
            LingerFds(h.lingering[at]), LingerFds(l));
  }

  /** A connection changed, its descriptors the same ones. */
  lemma SameFds(h: Host, i: nat, c: Conn)
    requires i < |h.conns| && ConnFds(c) == ConnFds(h.conns[i])
    ensures Conserves(h, Put(h, i, c), multiset{})
  {
    hide Gather, ConnFds, LingerFds, Held;
    PutFds(h, i, c);
    CancelSum(Held(Put(h, i, c)), Held(h), ConnFds(c));
  }

  lemma SameLFds(h: Host, at: nat, l: Lingering)
    requires at < |h.lingering| && l.fd == h.lingering[at].fd
    ensures Conserves(h, PutL(h, at, l), multiset{})
  {
    hide Gather, ConnFds, Held;
    PutLFds(h, at, l);
    CancelSum(Held(PutL(h, at, l)), Held(h), LingerFds(l));
  }

  // ---- Letting go

  lemma ShutHeld(h: Host, fd: int)
    ensures Held(Shut(h, fd)) == Held(h)
  {
    hide Gather;
  }

  /** A descriptor no longer held is closed. */
  lemma Closed(h: Host, g: Host, fd: int)
    requires Held(g) + multiset{fd} == Held(h) && g.shut == h.shut
    ensures Conserves(h, Shut(g, fd), multiset{})
  {
    ShutHeld(g, fd);
    hide Held;
    assert multiset(g.shut + [fd]) == multiset(g.shut) + multiset{fd};
    assert Held(g) + (multiset(g.shut) + multiset{fd}) == (Held(g) + multiset{fd}) + multiset(g.shut);
  }

  /** Or queued. */
  lemma Queued(h: Host, g: Host, fd: int)
    requires Held(g) + multiset{fd} == Held(h) && g.shut == h.shut
    ensures Conserves(h, g.(toLinger := g.toLinger + [fd]), multiset{})
  {
    hide Gather;
    var r := g.(toLinger := g.toLinger + [fd]);
    assert multiset(r.toLinger) == multiset(g.toLinger) + multiset{fd};
    assert Held(r) == Held(g) + multiset{fd};
  }

  /** A connection's one descriptor let go. */
  lemma LetGoFds(h: Host, i: nat, c: Conn, fd: int)
    requires i < |h.conns| && fd >= 0 && ConnFds(h.conns[i]) == multiset{fd} && ConnFds(c) == multiset{}
    ensures LetGo(Put(h, i, c), i, fd).Next? ==> Conserves(h, LetGo(Put(h, i, c), i, fd).host, multiset{})
  {
    hide Gather, ConnFds, LingerFds, Held, Conserves;
    PutFds(h, i, c);
    var g := Put(h, i, c);
    assert Held(h) + multiset{} == Held(h);
    if c.lingers { Queued(h, g, fd); } else { Closed(h, g, fd); }
  }

  lemma RetireFds(h: Host, i: nat, lingers: bool)
    requires i < |h.conns| && h.conns[i].fd >= 0 && h.conns[i].closing < 0
    ensures Retire(h, i, lingers).Next? ==> Conserves(h, Retire(h, i, lingers).host, multiset{})
  {
    hide Gather, Held, Conserves;
    var c := h.conns[i];
    var gone := c.(fd := -1, input := false, lingers := lingers);
    if c.ops == 0 {
      LetGoFds(h, i, gone, c.fd);
    } else {
      SameFds(h, i, gone.(closing := c.fd, ops := c.ops + 1));
      OpsFds(h, Put(h, i, gone.(closing := c.fd, ops := c.ops + 1)), h.inflight + [ConnOp(Cancel, i, c.gen)]);
    }
  }

  /** Descriptors are where they are whatever else is counted. */
  lemma OpsFds(h: Host, r: Host, inflight: seq<Token>)
    requires Conserves(h, r, multiset{})
    ensures Conserves(h, r.(inflight := inflight), multiset{})
  {
    hide Gather;
  }

  lemma FreeFds(h: Host, i: nat)
    requires Core(h) && i < |h.conns|
    ensures FreeIndex(h, i).Next? ==> Conserves(h, FreeIndex(h, i).host, multiset{})
  {
    hide Gather, Core, Held, Conserves, Retire;
    Itself(h);
    var r := if h.conns[i].fd >= 0 then Retire(h, i, false) else Next(h);
    if h.conns[i].fd >= 0 {
      OneFd(h, i);
      RetireFds(h, i, false);
    }
    if r.Next? && i < |r.host.conns| {
      var g := r.host;
      SameFds(g, i, g.conns[i].(reading := false, lost := false));
      Chained(h, g, Put(g, i, g.conns[i].(reading := false, lost := false)));
      BooksFds(h, Put(g, i, g.conns[i].(reading := false, lost := false)), h.ended + 1);
    }
  }

  lemma Itself(h: Host)
    ensures Conserves(h, h, multiset{})
  {
    hide Held;
  }

  lemma BooksFds(h: Host, r: Host, ended: nat)
    requires Conserves(h, r, multiset{})
    ensures Conserves(h, r.(ended := ended), multiset{})
  {
    hide Gather;
  }

  lemma OneFd(h: Host, i: nat)
    requires Core(h) && i < |h.conns|
    ensures h.conns[i].fd >= 0 ==> h.conns[i].closing < 0
  {
    assert ConnOk(h.conns[i], Tally(h.inflight, OfConn(i)));
  }

  lemma CloseFds(h: Host, i: nat, gracefully: bool)
    requires Inv(h) && i < |h.conns| && h.conns[i].fd >= 0 && i !in h.batched && h.mode != In(Turn)
    ensures Close(h, i, gracefully).Next? ==> Conserves(h, Close(h, i, gracefully).host, multiset{})
  {
    hide Gather, Core, Held, Conserves, Retire, FreeIndex;
    OneFd(h, i);
    RetireFds(h, i, gracefully);
    RetireKeeps(h, i, gracefully);
    var r := Retire(h, i, gracefully).host;
    FreeFds(r, i);
    if FreeIndex(r, i).Next? { Chained(h, r, FreeIndex(r, i).host); }
  }

  lemma SentFds(h: Host, i: nat, failed: bool, whole: bool)
    requires Inv(h) && i < |h.conns| && h.conns[i].fd >= 0 && i !in h.batched
    ensures Sent(h, i, failed, whole).Next? ==> Conserves(h, Sent(h, i, failed, whole).host, multiset{})
  {
    hide Gather, Core, Held, Conserves, Retire;
    OneFd(h, i);
    if failed {
      RetireFds(h, i, false);
      RetireKeeps(h, i, false);
      var r := Retire(h, i, false).host;
      SameFds(r, i, r.conns[i].(lost := true, reading := false));
      Chained(h, r, Put(r, i, r.conns[i].(lost := true, reading := false)));
    } else {
      SameFds(h, i, h.conns[i].(reading := whole));
    }
  }

  // ---- Completions and lingering

  lemma ConnTakenFds(h: Host, k: nat, goesOn: bool)
    requires Inv(h) && k < |h.inflight| && h.inflight[k].ConnOp?
    ensures Completed(h, k, goesOn).Next? ==> Conserves(h, Completed(h, k, goesOn).host, multiset{})
  {
    hide Gather, Core, Held, Conserves;
    ConnThere(h, k);
    var t := h.inflight[k];
    var g := Uncounted(h.(inflight := Without(h.inflight, k)), t.kind);
    var i, c := t.slot, h.conns[t.slot];
    var d := Counted(c, t.kind);
    SameHeld(h, g);
    if c.closing >= 0 && d.ops == 0 {
      LetGoFds(g, i, d.(closing := -1), c.closing);
      if Completed(h, k, goesOn).Next? { Chained(h, g, Completed(h, k, goesOn).host); }
    } else {
      var e := if c.closing < 0 && t.kind == Recv then d.(input := true) else d;
      SameFds(g, i, e);
      Chained(h, g, Put(g, i, e));
    }
  }

  lemma SameHeld(h: Host, r: Host)
    requires r.conns == h.conns && r.lingering == h.lingering && r.toLinger == h.toLinger && r.shut == h.shut
    requires ModeFds(r.mode) == ModeFds(h.mode)
    ensures Conserves(h, r, multiset{})
  {
    hide Gather;
  }

  lemma DropFds(h: Host, at: nat, l: Lingering)
    requires at < |h.lingering| && l.fd == h.lingering[at].fd >= 0
    ensures Conserves(h, Drop(h, at, l), multiset{})
  {
    hide Gather, Held, Conserves;
    var g := PutL(h, at, l.(fd := -1, ending := false));
    PutLFds(h, at, l.(fd := -1, ending := false));
    assert Held(h) + multiset{} == Held(h);
    Closed(h, g, l.fd);
  }

  lemma LingerTakenFds(h: Host, k: nat, goesOn: bool)
    requires Inv(h) && k < |h.inflight| && h.inflight[k].LingerOp?
    ensures Completed(h, k, goesOn).Next? ==> Conserves(h, Completed(h, k, goesOn).host, multiset{})
  {
    hide Gather, Core, Held, Conserves, Drop;
    LingerDone(h, k, goesOn);
    var t := h.inflight[k];
    var g := h.(inflight := Without(h.inflight, k));
    var l := h.lingering[t.at].(receiving := false);
    SameHeld(h, g);
    if goesOn && !l.ending {
      SameLFds(g, t.at, l);
      Chained(h, g, PutL(g, t.at, l));
    } else {
      DropFds(g, t.at, l);
      Chained(h, g, Drop(g, t.at, l));
    }
  }

  lemma TakeUpFds(h: Host, shut: bool)
    requires Inv(h) && Enabled(h, TakesUp(shut))
    ensures Conserves(h, TakeUp(h, shut), multiset{})
  {
    hide Gather, Conserves, Held;
    var n, at := |h.toLinger| - 1, PlaceFrom(h.lingering, 0, 0);
    var fd, l := h.toLinger[n], h.lingering[at];
    UnqueueFds(h, n);
    if shut {
      var w := h.(toLinger := h.toLinger[..n], mode := Waiting(h.mode.base, fd, at));
      if l.fd >= 0 && l.receiving && !l.ending {
        SameLFds(w, at, l.(ending := true));
        Chained(h, w, PutL(w, at, l.(ending := true)));
        OpsFds(h, PutL(w, at, l.(ending := true)), h.inflight + [OtherOp]);
      }
    }
  }

  /** The last descriptor queued taken off: closed, or waiting for a place. */
  lemma UnqueueFds(h: Host, n: nat)
    requires Inv(h) && n + 1 == |h.toLinger| && h.mode.Draining?
    ensures Conserves(h, Shut(h.(toLinger := h.toLinger[..n]), h.toLinger[n]), multiset{})
    ensures forall at :: Conserves(h, h.(toLinger := h.toLinger[..n], mode := Waiting(h.mode.base, h.toLinger[n], at)),
                                   multiset{})
  {
    hide Gather, ConnsOk, TokensOk, LingersOk, Tally;
    assert h.toLinger[n] >= 0;
    assert h.toLinger == h.toLinger[..n] + [h.toLinger[n]];
    assert multiset(h.shut + [h.toLinger[n]]) == multiset(h.shut) + multiset{h.toLinger[n]};
  }

  lemma SettleFds(h: Host)
    requires Inv(h) && Enabled(h, Settles)
    ensures Conserves(h, Settle(h), multiset{})
  {
    hide Gather, Held, Conserves, Core;
    SettledFds(h, h.mode.at);
    var at, was := h.mode.at, h.lingering[h.mode.at].fd;
    var g := PutL(h, at, Lingering(h.mode.fd, h.lingered + 1, false, false))
             .(lingered := h.lingered + 1, mode := Draining(h.mode.base));
    if was >= 0 { Closed(h, g, was); } else { Kept(h, g); }
  }

  lemma Kept(h: Host, g: Host)
    requires Held(g) + multiset{} == Held(h) && g.shut == h.shut
    ensures Conserves(h, g, multiset{})
  {
    hide Held;
    assert Held(g) + multiset{} == Held(g);
  }

  /** A descriptor that waited for a place given it, what lingered there taken out. */
  lemma SettledFds(h: Host, at: nat)
    requires h.mode.Waiting? && at < |h.lingering|
    ensures var g := PutL(h, at, Lingering(h.mode.fd, h.lingered + 1, false, false))
                     .(lingered := h.lingered + 1, mode := Draining(h.mode.base));
      Held(g) + LingerFds(h.lingering[at]) == Held(h)
  {
    hide Gather, ConnFds, Open;
    var l := Lingering(h.mode.fd, h.lingered + 1, false, false);
    GatherUpdate(h.lingering, at, l, LingerFds);
    Exchanged(Gather(h.conns, ConnFds), Gather(h.lingering, LingerFds), Gather(h.lingering[at := l], LingerFds),
              multiset(h.toLinger), LingerFds(h.lingering[at]), Open(h.mode.fd));
  }

  lemma Exchanged(c: multiset<int>, l: multiset<int>, l': multiset<int>, q: multiset<int>, x: multiset<int>,
                  m: multiset<int>)
    requires l' + x == l + m
    ensures (c + l' + q + multiset{}) + x == c + l + q + m
  {
    forall e ensures ((c + l' + q + multiset{}) + x)[e] == (c + l + q + m)[e] {
      assert (l' + x)[e] == (l + m)[e];
    }
  }

  lemma AdmitFds(h: Host, fd: int, tls: bool)
    requires Inv(h) && Enabled(h, Admits(fd, tls))
    ensures Conserves(h, Admit(h, fd, tls), multiset{fd})
  {
    hide Gather, Core, Held;
    var i := LowestUsable(h.conns, 0);
    var c := Conn(fd, -1, h.conns[i].gen + 1, 0, false, false, false, false, false, tls);
    var g, r := Put(h, i, c), Admit(h, fd, tls);
    PutFds(h, i, c);
    BooksHeld(g, h.accepted + 1);
    assert ConnFds(h.conns[i]) == multiset{} && ConnFds(c) == multiset{fd};
    assert Held(g) + multiset{} == Held(g);
    assert Held(g) + multiset(g.shut) == Held(h) + multiset(h.shut) + multiset{fd};
  }

  lemma RefuseFds(h: Host, fd: int)
    ensures Conserves(h, Shut(h, fd), multiset{fd})
  {
    ShutHeld(h, fd);
    hide Held;
    assert multiset(h.shut + [fd]) == multiset(h.shut) + multiset{fd};
  }

  lemma BooksHeld(h: Host, accepted: nat)
    ensures Held(h.(accepted := accepted)) == Held(h)
  {
    hide Gather;
  }

  /** Every step conserves the descriptors but for the one it takes from the kernel. */
  lemma StepConserves(h: Host, s: Step)
    requires Inv(h) && Enabled(h, s)
    ensures Do(h, s).Next? && Conserves(h, Do(h, s).host, Given(s))
  {
    hide Gather, Core, Held, Conserves, Sent, Close, FreeIndex, Admit, TakeUp, Settle, Drop;
    StepKeeps(h, s);
    match s {
      case Admits(fd, tls) => AdmitFds(h, fd, tls);
      case Refuses(fd) => RefuseFds(h, fd);
      case Reads(i) => PreparedFds(h, Recv, i);
      case Gives(i, ended) => SameFds(h, i, h.conns[i].(input := false, reading := !ended));
      case Fails(i) => FreeFds(h, i);
      case TellsLost(i) => FreeFds(h, i);
      case LingerReads(at) =>
        SameLFds(h, at, h.lingering[at].(receiving := true));
        OpsFds(h, PutL(h, at, h.lingering[at].(receiving := true)), Do(h, s).host.inflight);
      case LingerEnds(at) =>
        if h.lingering[at].receiving {
          SameLFds(h, at, h.lingering[at].(ending := true));
          OpsFds(h, PutL(h, at, h.lingering[at].(ending := true)), Do(h, s).host.inflight);
        } else {
          DropFds(h, at, h.lingering[at]);
        }
      case Takes(k, goesOn) =>
        match h.inflight[k] {
          case ConnOp(_, _, _) => ConnTakenFds(h, k, goesOn);
          case LingerOp(_, _) => LingerTakenFds(h, k, goesOn);
          case OtherOp => SameHeld(h, Completed(h, k, goesOn).host);
        }
      case TakesUp(shut) => TakeUpFds(h, shut);
      case Settles => SettleFds(h);
      case Sends(i) => PreparedFds(h, Send, i);
      case Writes(i, failed, whole) => ActedFds(h, s, i);
      case Checks(i) =>
        SameFds(h, i, h.conns[i].(reading := false));
        SameHeld(Put(h, i, h.conns[i].(reading := false)), Do(h, s).host);
        Chained(h, Put(h, i, h.conns[i].(reading := false)), Do(h, s).host);
      case Closes(i, gracefully) => ActedFds(h, s, i);
      case EndsSend(i, failed, whole) => ActedFds(h, s, i);
      case _ => SameHeld(h, Do(h, s).host);
    }
  }

  lemma PreparedFds(h: Host, kind: Kind, i: nat)
    requires Inv(h) && i < |h.conns| && kind != Cancel
    requires if kind == Recv then Enabled(h, Reads(i)) else Enabled(h, Sends(i))
    ensures Conserves(h, Do(h, if kind == Recv then Reads(i) else Sends(i)).host, multiset{})
  {
    hide Gather, Core, Held, Conserves;
    var c := h.conns[i].(ops := h.conns[i].ops + 1);
    SameFds(h, i, c);
    if kind == Recv {
      SameFds(Put(h, i, c), i, c.(receiving := true));
      Chained(h, Put(h, i, c), Put(Put(h, i, c), i, c.(receiving := true)));
      var r := Do(h, Reads(i)).host;
      SameHeld(Put(Put(h, i, c), i, c.(receiving := true)), r);
      Chained(h, Put(Put(h, i, c), i, c.(receiving := true)), r);
    } else {
      var r := Do(h, Sends(i)).host;
      SameHeld(Put(h, i, c), r);
      Chained(h, Put(h, i, c), r);
    }
  }

  lemma ActedFds(h: Host, s: Step, i: nat)
    requires Inv(h) && Enabled(h, s)
    requires (s.Writes? && s.i == i) || (s.Closes? && s.i == i) || (s.EndsSend? && s.i == i)
    ensures Do(h, s).Next? ==> Conserves(h, Do(h, s).host, multiset{})
  {
    hide Gather, Core, Held, Conserves, Sent, Close;
    BatchedOpen(h, i);
    var g := if s.EndsSend? then h.(batched := h.batched - {i}) else h.(acted := h.acted + {i});
    if s.EndsSend? { ActedKeeps(h, h.acted, h.batched - {i}); } else { ActedKeeps(h, h.acted + {i}, h.batched); }
    SameHeld(h, g);
    if s.Closes? { CloseFds(g, i, s.gracefully); } else { SentFds(g, i, s.failed, s.whole); }
    if Do(h, s).Next? { Chained(h, g, Do(h, s).host); }
  }

  // ---- Each descriptor in one place

  ghost predicate Once(h: Host) { forall fd :: Held(h)[fd] <= 1 }

  lemma StepOnce(h: Host, s: Step)
    requires Inv(h) && Enabled(h, s) && Once(h)
    ensures Do(h, s).Next? && Once(Do(h, s).host)
  {
    hide Gather, Core, Held, Do;
    StepConserves(h, s);
    var r := Do(h, s).host;
    NewlyShut(h, r);
    var more := r.shut[|h.shut|..];
    forall fd ensures Held(r)[fd] <= 1 {
      assert (Held(r) + multiset(more))[fd] == (Held(h) + Given(s))[fd];
      if Given(s)[fd] > 0 { FreshFd(h, s); }
    }
  }

  lemma FreshFd(h: Host, s: Step)
    requires (s.Admits? || s.Refuses?) && Enabled(h, s)
    ensures Held(h)[s.fd] == 0
  {
    hide Held;
  }

  lemma Apart(a: multiset<int>, m: multiset<int>, b: multiset<int>, g: multiset<int>, s: multiset<int>)
    requires a + (s + m) == b + s + g
    ensures a + m == b + g
  {
    forall e ensures (a + m)[e] == (b + g)[e] {
      assert (a + (s + m))[e] == (b + s + g)[e];
    }
  }

  /** What is held after and newly closed is what was held and given. */
  lemma NewlyShut(h: Host, r: Host)
    requires h.shut <= r.shut
    ensures forall given :: Conserves(h, r, given) ==> Held(r) + multiset(r.shut[|h.shut|..]) == Held(h) + given
  {
    hide Held;
    var more := r.shut[|h.shut|..];
    assert r.shut == h.shut + more;
    assert multiset(r.shut) == multiset(h.shut) + multiset(more);
    forall given | Conserves(h, r, given) ensures Held(r) + multiset(more) == Held(h) + given {
      Apart(Held(r), multiset(more), Held(h), given, multiset(h.shut));
    }
  }

  lemma {:induction false} NoFds<T>(n: nat, x: T, f: T -> multiset<int>)
    requires f(x) == multiset{}
    ensures Gather(seq(n, _ => x), f) == multiset{}
  {
    if n > 0 {
      assert seq(n, _ => x)[1..] == seq(n - 1, _ => x);
      NoFds(n - 1, x, f);
    }
  }

  lemma StartFds()
    ensures Held(Start()) == multiset{} && Start().shut == []
  {
    hide Gather;
    var c, l := Conn(-1, -1, 0, 0, false, false, false, false, false, false), Lingering(-1, 0, false, false);
    assert Start().conns == seq(CONNS, _ => c);
    assert Start().lingering == seq(LINGERING, _ => l);
    NoFds(CONNS, c, ConnFds);
    NoFds(LINGERING, l, LingerFds);
  }

  lemma {:induction false} RunFds(before: Host, steps: seq<Step>, after: Host)
    requires Inv(before) && Once(before) && Run(before, steps, after)
    ensures Inv(after) && Once(after) && Conserves(before, after, AllGiven(steps))
    decreases |steps|
  {
    hide Inv, Once, Held, Do;
    if steps != [] {
      var next := Do(before, steps[0]).host;
      StepKeeps(before, steps[0]);
      StepOnce(before, steps[0]);
      StepConserves(before, steps[0]);
      RunFds(next, steps[1..], after);
      assert (Held(before) + multiset(before.shut) + Given(steps[0])) + AllGiven(steps[1..])
          == Held(before) + multiset(before.shut) + (Given(steps[0]) + AllGiven(steps[1..]));
    }
  }

  lemma ReachedOnce(h: Host)
    requires Reached(h)
    ensures Inv(h) && Once(h)
  {
    hide Inv, Held;
    var steps :| Run(Start(), steps, h);
    StartInv();
    StartFds();
    RunFds(Start(), steps, h);
  }

  /** In every run the descriptors accepted are those the host still has, each in one place, and those it has closed. */
  lemma Descriptors(steps: seq<Step>, h: Host)
    requires Run(Start(), steps, h)
    ensures AllGiven(steps) == Held(h) + multiset(h.shut) && forall fd :: Held(h)[fd] <= 1
  {
    hide Inv, Held, Run;
    StartInv();
    StartFds();
    RunFds(Start(), steps, h);
    assert Held(Start()) + multiset(Start().shut) + AllGiven(steps) == AllGiven(steps);
  }

  // ---- Closed with nothing in flight

  /** The descriptor of a connection, gone to be closed or not. */
  function Desc(c: Conn): int { if c.fd >= 0 then c.fd else c.closing }

  /** The descriptor an operation is on, -1 for one that is on none of these. */
  function On(h: Host, t: Token): int {
    match t
    case ConnOp(_, i, _) => if i < |h.conns| then Desc(h.conns[i]) else -1
    case LingerOp(at, _) => if at < |h.lingering| then h.lingering[at].fd else -1
    case OtherOp => -1
  }

  /** What an operation in flight is on is open. */
  lemma OpOpen(h: Host, k: nat)
    requires Inv(h) && k < |h.inflight| && !h.inflight[k].OtherOp?
    ensures On(h, h.inflight[k]) >= 0 && On(h, h.inflight[k]) in Held(h)
  {
    hide Gather, Tally;
    var t := h.inflight[k];
    assert TokenOk(h.conns, h.lingering, t);
    if t.ConnOp? {
      assert ConnOk(h.conns[t.slot], Tally(h.inflight, OfConn(t.slot)));
      TallyHas(h.inflight, k, OfConn(t.slot));
      GatherHas(h.conns, t.slot, ConnFds);
      assert On(h, t) in ConnFds(h.conns[t.slot]);
    } else {
      GatherHas(h.lingering, t.at, LingerFds);
      assert On(h, t) in LingerFds(h.lingering[t.at]);
    }
  }

  lemma OnNone(h: Host, t: Token)
    requires t.OtherOp?
    ensures On(h, t) == -1
  {
  }

  lemma AdmitShutsNone(h: Host, s: Step)
    requires Enabled(h, s)
    ensures s.Admits? ==> Do(h, s).host.shut == h.shut
    ensures s.Refuses? ==> Do(h, s).host.shut == h.shut + [s.fd] && Given(s) == multiset{s.fd} && s.fd >= 0
    ensures !s.Admits? && !s.Refuses? ==> Given(s) == multiset{}
  {
    hide Held;
  }

  /** Whatever is held is a descriptor. */
  lemma HeldOpen(h: Host, fd: int)
    requires Inv(h) && fd in Held(h)
    ensures fd >= 0
  {
    hide Gather, Tally, ConnsOk, TokensOk, LingersOk;
    if fd in Gather(h.conns, ConnFds) {
      var i := GatherFrom(h.conns, fd, ConnFds);
    } else if fd in Gather(h.lingering, LingerFds) {
      var i := GatherFrom(h.lingering, fd, LingerFds);
    } else if fd in multiset(h.toLinger) {
      var k :| 0 <= k < |h.toLinger| && h.toLinger[k] == fd;
    }
  }

  /** In every run: what a step closes was held, once, or just given, and is held no more, and no operation in flight is
      on it. */
  lemma ClosedIdle(h: Host, s: Step, k: nat)
    requires Reached(h) && Enabled(h, s) && Do(h, s).Next? && |h.shut| <= k < |Do(h, s).host.shut|
    ensures var r := Do(h, s).host;
      && h.shut <= r.shut
      && (Held(h) + Given(s))[r.shut[k]] == 1 && r.shut[k] !in Held(r)
      && forall j {:trigger r.inflight[j]} :: 0 <= j < |r.inflight| ==> On(r, r.inflight[j]) != r.shut[k]
  {
    hide Inv, Held, Do, On;
    ReachedOnce(h);
    StepKeeps(h, s);
    StepConserves(h, s);
    var r := Do(h, s).host;
    NewlyShut(h, r);
    var more, fd := r.shut[|h.shut|..], r.shut[k];
    assert more[k - |h.shut|] == fd;
    assert (Held(r) + multiset(more))[fd] == (Held(h) + Given(s))[fd];
    AdmitShutsNone(h, s);
    if s.Refuses? { FreshFd(h, s); } else { HeldOpen(h, fd); }
    forall j | 0 <= j < |r.inflight| ensures On(r, r.inflight[j]) != fd {
      if r.inflight[j].OtherOp? { OnNone(r, r.inflight[j]); } else { OpOpen(r, j); }
    }
  }
}
