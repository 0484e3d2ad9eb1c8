/** The NNTP host's connections over io_uring: a table of indexes given out under generations, descriptors closed or
    lingered on once their operations are reaped, and sockets lingering outside the table. A step is what the one thread
    does between two looks at the ring, or one completion taken. */
module NntpHost {
  import opened Gathering

  const CONNS: nat := 64
  const LINGERING: nat := 64
  const GEN_LIMIT: nat := 0x4000_0000_0000_0000

  /** A connection: its descriptor or -1, the descriptor of one gone to close once its operations are reaped, and how many
      those are. */
  datatype Conn = Conn(fd: int, closing: int, gen: nat, ops: nat, receiving: bool, input: bool, reading: bool,
                       lost: bool, lingers: bool, tls: bool)

  datatype Kind = Recv | Send | Cancel

  datatype Token = ConnOp(kind: Kind, slot: nat, gen: nat) | LingerOp(at: nat, since: nat) | OtherOp

  datatype Lingering = Lingering(fd: int, since: nat, receiving: bool, ending: bool)

  /** In the program's turn and the wait, or carrying out its actions. */
  datatype Base = Turn | Emit

  /** There, taking completions, taking up descriptors to linger on, or waiting for a place to linger in. */
  datatype Mode = In(base: Base) | Reaping(base: Base) | Draining(base: Base) | Waiting(base: Base, fd: int, at: nat)

  /** The host, with the operations in flight, the sends of the turn and the slots it has acted on. `shut` lists the
      descriptors closed, in order. */
  datatype Host = Host(conns: seq<Conn>, lingering: seq<Lingering>, toLinger: seq<int>, inflight: seq<Token>, mode: Mode,
                       sendsLive: nat, acted: set<nat>, batched: set<nat>, lingered: nat, accepted: nat, ended: nat,
                       shut: seq<int>)

  datatype Outcome = Violation | Next(host: Host)

  // ---- Descriptors

  function Open(fd: int): multiset<int> { if fd >= 0 then multiset{fd} else multiset{} }

  function ConnFds(c: Conn): multiset<int> { Open(c.fd) + Open(c.closing) }

  function LingerFds(l: Lingering): multiset<int> { Open(l.fd) }

  function ModeFds(m: Mode): multiset<int> { if m.Waiting? then Open(m.fd) else multiset{} }

  /** The descriptors the host has, wherever it has them. */
  function Held(h: Host): multiset<int> {
    Gather(h.conns, ConnFds) + Gather(h.lingering, LingerFds) + multiset(h.toLinger) + ModeFds(h.mode)
  }

  function Shut(h: Host, fd: int): Host { h.(shut := h.shut + [fd]) }

  // ---- Indexes

  predicate Usable(c: Conn) { c.fd < 0 && c.closing < 0 && !c.lost && c.gen < GEN_LIMIT }

  /** The lowest index free from `i` on, their number when there is none. */
  function LowestUsable(conns: seq<Conn>, i: nat): (j: nat)
    requires i <= |conns|
    ensures i <= j <= |conns| && (j < |conns| ==> Usable(conns[j])) && forall k :: i <= k < j ==> !Usable(conns[k])
    decreases |conns| - i
  {
    if i < |conns| && !Usable(conns[i]) then LowestUsable(conns, i + 1) else i
  }

  function Put(h: Host, i: nat, c: Conn): Host
    requires i < |h.conns|
  {
    h.(conns := h.conns[i := c])
  }

  // ---- Connections

  /** A connection accepted, given the lowest free index. */
  function Admit(h: Host, fd: int, tls: bool): Host
    requires LowestUsable(h.conns, 0) < |h.conns|
  {
    var i := LowestUsable(h.conns, 0);
    Put(h, i, Conn(fd, -1, h.conns[i].gen + 1, 0, false, false, false, false, false, tls)).(accepted := h.accepted + 1)
  }

  /** The descriptor of a connection gone, closed or queued to linger on. */
  function LetGo(h: Host, i: nat, fd: int): Outcome
    requires i < |h.conns|
  {
    if h.conns[i].lingers then
      if |h.toLinger| == CONNS then Violation else Next(h.(toLinger := h.toLinger + [fd]))
    else Next(Shut(h, fd))
  }

  /** The descriptor leaves the connection: at once if nothing is in flight, once its cancelled operations are reaped
      otherwise. */
  function Retire(h: Host, i: nat, lingers: bool): Outcome
    requires i < |h.conns|
  {
    var c := h.conns[i];
    var gone := c.(fd := -1, input := false, lingers := lingers);
    if c.ops == 0 then LetGo(Put(h, i, gone), i, c.fd)
    else Next(Put(h, i, gone.(closing := c.fd, ops := c.ops + 1)).(inflight := h.inflight + [ConnOp(Cancel, i, c.gen)]))
  }

  /** The index given up: the connection has ended. */
  function FreeIndex(h: Host, i: nat): Outcome
    requires i < |h.conns|
  {
    var r := if h.conns[i].fd >= 0 then Retire(h, i, false) else Next(h);
    if r.Violation? || i >= |r.host.conns| then Violation
    else Next(Put(r.host, i, r.host.conns[i].(reading := false, lost := false)).(ended := h.ended + 1))
  }

  function Prepare(h: Host, kind: Kind, i: nat): Host
    requires i < |h.conns|
  {
    var c := h.conns[i];
    Put(h, i, c.(ops := c.ops + 1)).(inflight := h.inflight + [ConnOp(kind, i, c.gen)])
  }

  /** A receive in flight while the program reads. */
  function Interest(h: Host, i: nat): Host
    requires i < |h.conns|
  {
    var r := Prepare(h, Recv, i);
    Put(r, i, r.conns[i].(receiving := true))
  }

  /** A close the program asks for. */
  function Close(h: Host, i: nat, gracefully: bool): Outcome
    requires i < |h.conns|
  {
    var r := Retire(h, i, gracefully);
    if r.Violation? || i >= |r.host.conns| then Violation else FreeIndex(r.host, i)
  }

  /** What was received is given out, or the client's end of it: nothing more is read after the end. */
  function GiveOut(h: Host, i: nat, ended: bool): Host
    requires i < |h.conns|
  {
    Put(h, i, h.conns[i].(input := false, reading := !ended))
  }

  /** What became of a send: one that failed loses the connection, which is still to be told. */
  function Sent(h: Host, i: nat, failed: bool, whole: bool): Outcome
    requires i < |h.conns|
  {
    if failed then
      var r := Retire(h, i, false);
      if r.Violation? || i >= |r.host.conns| then Violation
      else Next(Put(r.host, i, r.host.conns[i].(lost := true, reading := false)))
    else Next(Put(h, i, h.conns[i].(reading := whole)))
  }

  /** A connection one operation less in flight. */
  function Counted(c: Conn, kind: Kind): Conn
    requires c.ops >= 1
  {
    c.(ops := c.ops - 1, receiving := c.receiving && kind != Recv)
  }

  function Uncounted(h: Host, kind: Kind): Host {
    h.(sendsLive := if kind == Send && h.sendsLive > 0 then h.sendsLive - 1 else h.sendsLive)
  }

  /** A completion of connection `i`'s. */
  function ConnCompleted(h: Host, t: Token): Outcome
    requires t.ConnOp?
  {
    if t.slot >= |h.conns| then Violation
    else
      var c := h.conns[t.slot];
      if c.gen != t.gen || c.ops < 1 then Violation
      else
        var d, g := Counted(c, t.kind), Uncounted(h, t.kind);
        if c.closing >= 0 then
          if d.ops == 0 then LetGo(Put(g, t.slot, d.(closing := -1)), t.slot, c.closing) else Next(Put(g, t.slot, d))
        else Next(Put(g, t.slot, if t.kind == Recv then d.(input := true) else d))
  }

  // ---- Lingering

  function PutL(h: Host, at: nat, l: Lingering): Host
    requires at < |h.lingering|
  {
    h.(lingering := h.lingering[at := l])
  }

  /** A lingering socket closed, its place free. */
  function Drop(h: Host, at: nat, l: Lingering): Host
    requires at < |h.lingering|
  {
    Shut(PutL(h, at, l.(fd := -1, ending := false)), l.fd)
  }

  /** A lingering socket's receive ended: with more to come, or for good. */
  function LingeringCompleted(h: Host, t: Token, goesOn: bool): Outcome
    requires t.LingerOp?
  {
    if t.at >= |h.lingering| || h.lingering[t.at].fd < 0 || h.lingering[t.at].since != t.since then Violation
    else
      var l := h.lingering[t.at].(receiving := false);
      Next(if goesOn && !l.ending then PutL(h, t.at, l) else Drop(h, t.at, l))
  }

  function Completed(h: Host, k: nat, goesOn: bool): Outcome
    requires k < |h.inflight|
  {
    var t, g := h.inflight[k], h.(inflight := h.inflight[..k] + h.inflight[k + 1..]);
    match t
    case ConnOp(_, _, _) => ConnCompleted(g, t)
    case LingerOp(_, _) => LingeringCompleted(g, t, goesOn)
    case OtherOp => Next(g)
  }

  /** Where the next descriptor lingers: the first place free, the one that has lingered longest when none is. */
  function PlaceFrom(ls: seq<Lingering>, i: nat, at: nat): (r: nat)
    requires i <= |ls| && at < |ls|
    ensures r < |ls|
    decreases |ls| - i
  {
    if i == |ls| then at
    else if ls[i].fd < 0 then i
    else PlaceFrom(ls, i + 1, if ls[i].since < ls[at].since then i else at)
  }

  /** A descriptor taken up: closed when its socket cannot be shut, else a place found, whose receive is cancelled. */
  function TakeUp(h: Host, shut: bool): Host
    requires h.toLinger != [] && 0 < |h.lingering|
  {
    var n := |h.toLinger| - 1;
    var g := h.(toLinger := h.toLinger[..n]);
    if !shut then Shut(g, h.toLinger[n])
    else
      var at := PlaceFrom(h.lingering, 0, 0);
      var l := h.lingering[at];
      var w := g.(mode := Waiting(h.mode.base, h.toLinger[n], at));
      if l.fd >= 0 && l.receiving && !l.ending then
        PutL(w, at, l.(ending := true)).(inflight := h.inflight + [OtherOp])
      else w
  }

  /** The place free of its receive, what still lingers there is closed and the descriptor lingers there. */
  function Settle(h: Host): Host
    requires h.mode.Waiting? && h.mode.at < |h.lingering|
  {
    var was := h.lingering[h.mode.at].fd;
    PutL(if was >= 0 then Shut(h, was) else h, h.mode.at, Lingering(h.mode.fd, h.lingered + 1, false, false))
    .(lingered := h.lingered + 1, mode := Draining(h.mode.base))
  }

  // ---- Runs

  datatype Step =
    | Admits(fd: int, tls: bool)
    | Refuses(fd: int)
    | Reads(i: nat)
    | Gives(i: nat, ended: bool)
    | Fails(i: nat)
    | TellsLost(i: nat)
    | LingerReads(at: nat)
    | LingerEnds(at: nat)
    | Polls
    | Reaps
    | Takes(k: nat, goesOn: bool)
    | Reaped
    | TakesUp(shut: bool)
    | Settles
    | Drained
    | Emits
    | Sends(i: nat)
    | Writes(i: nat, failed: bool, whole: bool)
    | Checks(i: nat)
    | Closes(i: nat, gracefully: bool)
    | EndsSend(i: nat, failed: bool, whole: bool)
    | Emitted

  predicate Acts(h: Host, i: nat) { h.mode == In(Emit) && i < |h.conns| && i !in h.acted && h.conns[i].fd >= 0 }

  /** A descriptor the kernel gives is one the host does not have. */
  predicate Accepts(h: Host, fd: int) {
    h.mode == In(Turn) && fd >= 0 && fd !in Held(h) && LowestUsable(h.conns, 0) < |h.conns|
  }

  predicate Enabled(h: Host, s: Step) {
    match s
    case Admits(fd, _) => Accepts(h, fd)
    case Refuses(fd) => Accepts(h, fd)
    case Reads(i) =>
      && h.mode == In(Turn) && i < |h.conns|
      && var c := h.conns[i]; c.fd >= 0 && !c.tls && c.reading && !c.receiving && !c.input
    case Gives(i, _) =>
      && h.mode == In(Turn) && i < |h.conns|
      && var c := h.conns[i]; c.fd >= 0 && c.reading && (c.tls || c.input)
    case Fails(i) => h.mode == In(Turn) && i < |h.conns| && h.conns[i].fd >= 0
    case TellsLost(i) => h.mode == In(Turn) && i < |h.conns| && h.conns[i].lost
    case LingerReads(at) =>
      h.mode == In(Turn) && at < |h.lingering| && h.lingering[at].fd >= 0
      && !h.lingering[at].receiving && !h.lingering[at].ending
    case LingerEnds(at) =>
      h.mode == In(Turn) && at < |h.lingering| && h.lingering[at].fd >= 0
      && !(h.lingering[at].receiving && h.lingering[at].ending)
    case Polls => h.mode == In(Turn)
    case Reaps => h.mode.In?
    case Takes(k, _) => (h.mode.Reaping? || h.mode.Waiting?) && k < |h.inflight|
    case Reaped => h.mode.Reaping?
    case TakesUp(_) => h.mode.Draining? && h.toLinger != [] && 0 < |h.lingering|
    case Settles =>
      h.mode.Waiting? && h.mode.at < |h.lingering| && !(h.lingering[h.mode.at].fd >= 0 && h.lingering[h.mode.at].receiving)
    case Drained => h.mode.Draining? && h.toLinger == []
    case Emits => h.mode == In(Turn)
    case Sends(i) => Acts(h, i) && !h.conns[i].tls
    case Writes(i, _, _) => Acts(h, i)
    case Checks(i) => Acts(h, i) && h.conns[i].tls
    case Closes(i, _) => Acts(h, i)
    case EndsSend(i, _, _) => h.mode == In(Emit) && h.sendsLive == 0 && i in h.batched && i < |h.conns|
    case Emitted => h.mode == In(Emit) && h.sendsLive == 0 && h.batched == {}
  }

  function Do(h: Host, s: Step): Outcome
    requires Enabled(h, s)
  {
    match s
    case Admits(fd, tls) => Next(Admit(h, fd, tls))
    case Refuses(fd) => Next(Shut(h, fd))
    case Reads(i) => Next(Interest(h, i))
    case Gives(i, ended) => Next(GiveOut(h, i, ended))
    case Fails(i) => FreeIndex(h, i)
    case TellsLost(i) => FreeIndex(h, i)
    case LingerReads(at) =>
      Next(PutL(h, at, h.lingering[at].(receiving := true)).(inflight := h.inflight + [LingerOp(at, h.lingering[at].since)]))
    case LingerEnds(at) =>
      var l := h.lingering[at];
      if !l.receiving then Next(Drop(h, at, l))
      else Next(PutL(h, at, l.(ending := true)).(inflight := h.inflight + [OtherOp]))
    case Polls => Next(h.(inflight := h.inflight + [OtherOp]))
    case Reaps => Next(h.(mode := Reaping(h.mode.base)))
    case Takes(k, goesOn) => Completed(h, k, goesOn)
    case Reaped => Next(h.(mode := Draining(h.mode.base)))
    case TakesUp(shut) => Next(TakeUp(h, shut))
    case Settles => Next(Settle(h))
    case Drained => Next(h.(mode := In(h.mode.base)))
    case Emits => Next(h.(mode := In(Emit), acted := {}, batched := {}))
    case Sends(i) =>
      Next(Prepare(h, Send, i).(sendsLive := h.sendsLive + 1, acted := h.acted + {i}, batched := h.batched + {i}))
    case Checks(i) => Next(Put(h, i, h.conns[i].(reading := false)).(acted := h.acted + {i}))
    case Writes(i, failed, whole) => Sent(h.(acted := h.acted + {i}), i, failed, whole)
    case Closes(i, gracefully) => Close(h.(acted := h.acted + {i}), i, gracefully)
    case EndsSend(i, failed, whole) => Sent(h.(batched := h.batched - {i}), i, failed, whole)
    case Emitted => Next(h.(mode := Draining(Turn)))
  }

  function Start(): Host {
    Host(seq(CONNS, i => Conn(-1, -1, 0, 0, false, false, false, false, false, false)),
         seq(LINGERING, i => Lingering(-1, 0, false, false)), [], [], In(Turn), 0, {}, {}, 0, 0, 0, [])
  }

  /** `after` is reached from `before` by `steps`, none of them a violation. */
  predicate Run(before: Host, steps: seq<Step>, after: Host)
    decreases |steps|
  {
    if steps == [] then before == after
    else
      && Enabled(before, steps[0])
      && Do(before, steps[0]).Next?
      && Run(Do(before, steps[0]).host, steps[1..], after)
  }
}
