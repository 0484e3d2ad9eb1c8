/** What every step of the NNTP host keeps: none of its checks can fire, whatever the program and its clients do. */
module NntpSafety {
  import opened Counting
  import opened NntpHost

  // ---- Counting operations

  function OfConn(i: nat): Token -> bool { (t: Token) => t.ConnOp? && t.slot == i }

  function OfLinger(at: nat): Token -> bool { (t: Token) => t.LingerOp? && t.at == at }

  function IsSend(): Token -> bool { (t: Token) => t.ConnOp? && t.kind == Send }

  function Busy(): Conn -> bool { (c: Conn) => c.fd >= 0 || c.closing >= 0 }

  function Listed(): Conn -> bool { (c: Conn) => c.fd >= 0 || c.lost }

  // ---- The invariant

  /** What a connection's fields say together, with `n` operations of its in flight. */
  predicate ConnOk(c: Conn, n: nat) {
    && c.ops == n
    && (c.fd < 0 && c.closing < 0 ==> c.ops == 0)
    && (c.closing >= 0 ==> c.fd < 0 && c.ops > 0)
    && (c.lost ==> c.fd < 0)
    && c.gen <= GEN_LIMIT
  }

  ghost predicate ConnsOk(conns: seq<Conn>, inflight: seq<Token>) {
    forall i {:trigger conns[i]} :: 0 <= i < |conns| ==> ConnOk(conns[i], Tally(inflight, OfConn(i)))
  }

  predicate TokenOk(conns: seq<Conn>, lingering: seq<Lingering>, t: Token) {
    match t
    case ConnOp(_, i, gen) => i < |conns| && conns[i].gen == gen
    case LingerOp(at, since) => at < |lingering| && lingering[at].fd >= 0 && lingering[at].since == since
    case OtherOp => true
  }

  ghost predicate TokensOk(conns: seq<Conn>, lingering: seq<Lingering>, inflight: seq<Token>) {
    forall k {:trigger inflight[k]} :: 0 <= k < |inflight| ==> TokenOk(conns, lingering, inflight[k])
  }

  predicate LingerOk(l: Lingering, n: nat) {
    n == (if l.receiving then 1 else 0) && (l.receiving || l.ending ==> l.fd >= 0)
  }

  ghost predicate LingersOk(lingering: seq<Lingering>, inflight: seq<Token>) {
    forall at {:trigger lingering[at]} :: 0 <= at < |lingering| ==>
      LingerOk(lingering[at], Tally(inflight, OfLinger(at)))
  }

  /** What is queued to linger on and what may still be are no more than the connections. */
  predicate QueueOk(h: Host) {
    |h.toLinger| + Tally(h.conns, Busy()) <= CONNS && (h.mode == In(Turn) ==> h.toLinger == [])
  }

  predicate BooksOk(h: Host) { h.accepted == h.ended + Tally(h.conns, Listed()) }

  ghost predicate SendsOk(h: Host) {
    && h.sendsLive == Tally(h.inflight, IsSend())
    && (forall i :: i in h.batched ==> i < |h.conns| && h.conns[i].fd >= 0)
    && (h.mode.base == Turn ==> h.batched == {})
    && h.batched <= h.acted
  }

  predicate ModeOk(h: Host) { h.mode.Waiting? ==> h.mode.at < |h.lingering| && h.mode.fd >= 0 }

  ghost predicate QueuedOpen(h: Host) { forall k {:trigger h.toLinger[k]} :: 0 <= k < |h.toLinger| ==>
    h.toLinger[k] >= 0 }

  /** All but the books, which a step may leave open half way. */
  ghost predicate Core(h: Host) {
    && |h.conns| == CONNS && |h.lingering| == LINGERING
    && ConnsOk(h.conns, h.inflight) && TokensOk(h.conns, h.lingering, h.inflight) && LingersOk(h.lingering, h.inflight)
    && QueueOk(h) && SendsOk(h) && ModeOk(h) && QueuedOpen(h)
  }

  ghost predicate Inv(h: Host) { Core(h) && BooksOk(h) }

  // ---- Changing one connection

  /** One connection changed, its operations in flight with it. */
  lemma PutConns(h: Host, i: nat, c: Conn, inflight: seq<Token>)
    requires i < |h.conns| && ConnsOk(h.conns, h.inflight) && ConnOk(c, Tally(inflight, OfConn(i)))
    requires forall j :: 0 <= j < |h.conns| && j != i ==> Tally(inflight, OfConn(j)) == Tally(h.inflight, OfConn(j))
    ensures ConnsOk(h.conns[i := c], inflight)
  {
    var conns := h.conns[i := c];
    forall j | 0 <= j < |conns| ensures ConnOk(conns[j], Tally(inflight, OfConn(j))) {
      if j != i { assert ConnOk(h.conns[j], Tally(h.inflight, OfConn(j))); }
    }
  }

  /** A token more. */
  lemma Added(h: Host, t: Token)
    ensures forall j: nat {:trigger OfConn(j)} ::
      Tally(h.inflight + [t], OfConn(j)) == Tally(h.inflight, OfConn(j)) + if OfConn(j)(t) then 1 else 0
    ensures forall j: nat {:trigger OfLinger(j)} ::
      Tally(h.inflight + [t], OfLinger(j)) == Tally(h.inflight, OfLinger(j)) + if OfLinger(j)(t) then 1 else 0
    ensures Tally(h.inflight + [t], IsSend()) == Tally(h.inflight, IsSend()) + if IsSend()(t) then 1 else 0
  {
    forall j: nat
      ensures Tally(h.inflight + [t], OfConn(j)) == Tally(h.inflight, OfConn(j)) + if OfConn(j)(t) then 1 else 0
    {
      TallyAppend(h.inflight, t, OfConn(j));
    }
    forall j: nat
      ensures Tally(h.inflight + [t], OfLinger(j)) == Tally(h.inflight, OfLinger(j)) + if OfLinger(j)(t) then 1 else 0
    {
      TallyAppend(h.inflight, t, OfLinger(j));
    }
    TallyAppend(h.inflight, t, IsSend());
  }

  function Without(s: seq<Token>, k: nat): seq<Token>
    requires k < |s|
  {
    s[..k] + s[k + 1..]
  }

  lemma Removed(h: Host, k: nat)
    requires k < |h.inflight|
    ensures forall j: nat {:trigger OfConn(j)} ::
      Tally(h.inflight, OfConn(j)) == Tally(Without(h.inflight, k), OfConn(j))
          + if OfConn(j)(h.inflight[k]) then 1 else 0
    ensures forall j: nat {:trigger OfLinger(j)} ::
      Tally(h.inflight, OfLinger(j)) == Tally(Without(h.inflight, k), OfLinger(j))
          + if OfLinger(j)(h.inflight[k]) then 1 else 0
    ensures Tally(h.inflight, IsSend()) == Tally(Without(h.inflight, k), IsSend())
          + if IsSend()(h.inflight[k]) then 1 else 0
  {
    forall j: nat
      ensures Tally(h.inflight, OfConn(j)) == Tally(Without(h.inflight, k), OfConn(j))
          + if OfConn(j)(h.inflight[k]) then 1 else 0
    {
      TallyRemove(h.inflight, k, OfConn(j));
    }
    forall j: nat
      ensures Tally(h.inflight, OfLinger(j)) == Tally(Without(h.inflight, k), OfLinger(j))
          + if OfLinger(j)(h.inflight[k]) then 1 else 0
    {
      TallyRemove(h.inflight, k, OfLinger(j));
    }
    TallyRemove(h.inflight, k, IsSend());
  }

  /** What changing one connection does to the counts of the table. */
  lemma PutCounts(h: Host, i: nat, c: Conn)
    requires i < |h.conns|
    ensures Tally(h.conns[i := c], Busy()) == Tally(h.conns, Busy())
          - (if Busy()(h.conns[i]) then 1 else 0) + if Busy()(c) then 1 else 0
    ensures Tally(h.conns[i := c], Listed()) == Tally(h.conns, Listed())
          - (if Listed()(h.conns[i]) then 1 else 0) + if Listed()(c) then 1 else 0
  {
    TallyUpdate(h.conns, i, c, Busy());
    TallyUpdate(h.conns, i, c, Listed());
  }

  /** One connection changed, with at most one operation of its more in flight. */
  lemma ConnStep(h: Host, i: nat, c: Conn, more: seq<Token>)
    requires Core(h) && i < |h.conns| && |more| <= 1
    requires (more != [] ==> more[0].ConnOp? && more[0].slot == i && more[0].gen == c.gen)
    requires c.gen == h.conns[i].gen || h.conns[i].ops == 0
    requires ConnOk(c, h.conns[i].ops + |more|)
    ensures ConnsOk(h.conns[i := c], h.inflight + more) && LingersOk(h.lingering, h.inflight + more)
    ensures TokensOk(h.conns[i := c], h.lingering, h.inflight + more)
  {
    if more == [] { assert h.inflight + more == h.inflight; } else { Added(h, more[0]); assert more == [more[0]]; }
    assert ConnOk(h.conns[i], Tally(h.inflight, OfConn(i)));
    hide Tally, ConnOk;
    PutConns(h, i, c, h.inflight + more);
    var conns, inflight := h.conns[i := c], h.inflight + more;
    forall k | 0 <= k < |inflight| ensures TokenOk(conns, h.lingering, inflight[k]) {
      if k < |h.inflight| {
        assert TokenOk(h.conns, h.lingering, h.inflight[k]);
        if h.inflight[k].ConnOp? && h.inflight[k].slot == i && h.conns[i].ops == 0 { TallyHas(h.inflight, k, OfConn(i)); }
      }
    }
  }

  /** A connection and its operations, a place to linger in and its own. */
  lemma ConnIs(h: Host, i: nat)
    requires ConnsOk(h.conns, h.inflight) && i < |h.conns|
    ensures ConnOk(h.conns[i], Tally(h.inflight, OfConn(i)))
  {
  }

  lemma LingerIs(h: Host, at: nat)
    requires LingersOk(h.lingering, h.inflight) && at < |h.lingering|
    ensures LingerOk(h.lingering[at], Tally(h.inflight, OfLinger(at)))
  {
  }

  lemma NoneInFlight(h: Host, i: nat)
    requires Tally(h.inflight, OfConn(i)) == 0
    ensures forall k {:trigger h.inflight[k]} :: 0 <= k < |h.inflight| ==> !OfConn(i)(h.inflight[k])
  {
    forall k | 0 <= k < |h.inflight| ensures !OfConn(i)(h.inflight[k]) {
      if OfConn(i)(h.inflight[k]) { TallyHas(h.inflight, k, OfConn(i)); }
    }
  }

  // ---- Retiring

  /** What a retired connection leaves of the table. */
  ghost predicate Retired(h: Host, i: nat, r: Host)
    requires i < |h.conns|
  {
    && Core(r) && |r.conns| == |h.conns|
    && r == h.(conns := r.conns, toLinger := r.toLinger, inflight := r.inflight, shut := r.shut)
    && Tally(r.conns, Listed()) == Tally(h.conns, Listed()) - 1
    && r.conns[i].fd == -1 && !r.conns[i].lost
  }

  lemma RetireNow(h: Host, i: nat, lingers: bool)
    requires Core(h) && i < |h.conns| && h.conns[i].fd >= 0 && i !in h.batched && (lingers ==> h.mode != In(Turn))
    requires h.conns[i].ops == 0
    ensures Retire(h, i, lingers).Next? && Retired(h, i, Retire(h, i, lingers).host)
  {
    hide Tally, ConnsOk, TokensOk, LingersOk, Held;
    var c := h.conns[i];
    ConnIs(h, i);
    var gone := c.(fd := -1, input := false, lingers := lingers);
    ConnStep(h, i, gone, []);
    assert h.inflight + [] == h.inflight;
    PutCounts(h, i, gone);
  }

  lemma RetireLater(h: Host, i: nat, lingers: bool)
    requires Core(h) && i < |h.conns| && h.conns[i].fd >= 0 && i !in h.batched
    requires h.conns[i].ops > 0
    ensures Retire(h, i, lingers).Next? && Retired(h, i, Retire(h, i, lingers).host)
  {
    hide Tally, ConnsOk, TokensOk, LingersOk, Held;
    var c := h.conns[i];
    ConnIs(h, i);
    var d, t := c.(fd := -1, input := false, lingers := lingers, closing := c.fd, ops := c.ops + 1), ConnOp(Cancel, i, c.gen);
    ConnStep(h, i, d, [t]);
    PutCounts(h, i, d);
    Added(h, t);
  }

  lemma RetireKeeps(h: Host, i: nat, lingers: bool)
    requires Core(h) && i < |h.conns| && h.conns[i].fd >= 0 && i !in h.batched && (lingers ==> h.mode != In(Turn))
    ensures Retire(h, i, lingers).Next? && Retired(h, i, Retire(h, i, lingers).host)
  {
    hide Core, Retired, Retire;
    if h.conns[i].ops == 0 { RetireNow(h, i, lingers); } else { RetireLater(h, i, lingers); }
  }

  /** A connection changed in nothing that counts. */
  lemma PlainKeeps(h: Host, i: nat, c: Conn)
    requires Core(h) && i < |h.conns|
    requires c.fd == h.conns[i].fd && c.closing == h.conns[i].closing && c.gen == h.conns[i].gen
    requires c.ops == h.conns[i].ops
    requires c.lost ==> c.fd < 0
    ensures Core(Put(h, i, c))
    ensures Tally(h.conns[i := c], Listed()) == Tally(h.conns, Listed())
          - (if Listed()(h.conns[i]) then 1 else 0) + if Listed()(c) then 1 else 0
  {
    hide Tally, ConnsOk, TokensOk, LingersOk, Held;
    ConnIs(h, i);
    ConnStep(h, i, c, []);
    assert h.inflight + [] == h.inflight;
    PutCounts(h, i, c);
  }

  lemma FreeKeeps(h: Host, i: nat)
    requires Core(h) && i < |h.conns| && i !in h.batched
    ensures FreeIndex(h, i).Next?
    ensures var r := FreeIndex(h, i).host;
      && Core(r) && r.accepted == h.accepted && r.ended == h.ended + 1
      && Tally(r.conns, Listed()) == Tally(h.conns, Listed()) - if Listed()(h.conns[i]) then 1 else 0
  {
    hide Tally, Core;
    var g := h;
    if h.conns[i].fd >= 0 {
      RetireKeeps(h, i, false);
      g := Retire(h, i, false).host;
      CoreSizes(g);
    }
    CoreSizes(h);
    var c := g.conns[i].(reading := false, lost := false);
    PlainKeeps(g, i, c);
    CoreBooks(Put(g, i, c), g.accepted, h.ended + 1);
  }

  lemma CoreSizes(h: Host)
    requires Core(h)
    ensures |h.conns| == CONNS && |h.lingering| == LINGERING
    ensures forall i {:trigger h.conns[i]} :: 0 <= i < |h.conns| ==> (h.conns[i].lost ==> h.conns[i].fd < 0)
  {
    forall i | 0 <= i < |h.conns| ensures h.conns[i].lost ==> h.conns[i].fd < 0 {
      assert ConnOk(h.conns[i], Tally(h.inflight, OfConn(i)));
    }
  }

  lemma CoreBooks(h: Host, accepted: nat, ended: nat)
    requires Core(h)
    ensures Core(h.(accepted := accepted, ended := ended))
  {
    hide Tally, ConnsOk, TokensOk, LingersOk;
  }

  /** The index of a connection that fails, or whose loss is told, is given up. */
  lemma FreedKeeps(h: Host, i: nat)
    requires Inv(h) && i < |h.conns| && i !in h.batched && (h.conns[i].fd >= 0 || h.conns[i].lost)
    ensures FreeIndex(h, i).Next? && Inv(FreeIndex(h, i).host)
  {
    hide Tally, Core;
    FreeKeeps(h, i);
  }

  lemma CloseKeeps(h: Host, i: nat, gracefully: bool)
    requires Inv(h) && i < |h.conns| && h.conns[i].fd >= 0 && i !in h.batched && h.mode != In(Turn)
    ensures Close(h, i, gracefully).Next? && Inv(Close(h, i, gracefully).host)
  {
    hide Tally, Core;
    RetireKeeps(h, i, gracefully);
    var r := Retire(h, i, gracefully).host;
    CoreSizes(r);
    FreeKeeps(r, i);
  }

  lemma SentKeeps(h: Host, i: nat, failed: bool, whole: bool)
    requires Inv(h) && i < |h.conns| && h.conns[i].fd >= 0 && i !in h.batched
    ensures Sent(h, i, failed, whole).Next? && Inv(Sent(h, i, failed, whole).host)
  {
    hide Tally, Core;
    CoreSizes(h);
    if failed {
      RetireKeeps(h, i, false);
      var r := Retire(h, i, false).host;
      CoreSizes(r);
      PlainKeeps(r, i, r.conns[i].(lost := true, reading := false));
    } else {
      PlainKeeps(h, i, h.conns[i].(reading := whole));
    }
  }

  // ---- Admitting and preparing

  lemma AdmitKeeps(h: Host, fd: int, tls: bool)
    requires Inv(h) && Enabled(h, Admits(fd, tls))
    ensures Inv(Admit(h, fd, tls))
    ensures forall k {:trigger h.inflight[k]} :: 0 <= k < |h.inflight| ==>
      !OfConn(LowestUsable(h.conns, 0))(h.inflight[k])
  {
    hide Tally, ConnsOk, TokensOk, LingersOk, Held;
    var i := LowestUsable(h.conns, 0);
    var c := Conn(fd, -1, h.conns[i].gen + 1, 0, false, false, false, false, false, tls);
    ConnIs(h, i);
    NoneInFlight(h, i);
    ConnStep(h, i, c, []);
    assert h.inflight + [] == h.inflight;
    PutCounts(h, i, c);
    Spare(h.conns, i);
    assert i !in h.batched;
  }

  /** An index that is free leaves room for one more. */
  lemma Spare(conns: seq<Conn>, i: nat)
    requires i < |conns| && !Busy()(conns[i])
    ensures Tally(conns, Busy()) < |conns|
  {
    TallyRemove(conns, i, Busy());
    TallyMost(conns[..i] + conns[i + 1..], Busy());
  }

  lemma PrepareKeeps(h: Host, kind: Kind, i: nat)
    requires Inv(h) && i < |h.conns| && h.conns[i].fd >= 0
    ensures var r := Prepare(h, kind, i);
      && Core(r.(sendsLive := h.sendsLive + if kind == Send then 1 else 0)) && BooksOk(r)
  {
    hide Tally, ConnsOk, TokensOk, LingersOk, Held;
    var c := h.conns[i];
    ConnIs(h, i);
    var d, t := c.(ops := c.ops + 1), ConnOp(kind, i, c.gen);
    ConnStep(h, i, d, [t]);
    PutCounts(h, i, d);
    Added(h, t);
  }

  lemma ReadKeeps(h: Host, i: nat)
    requires Inv(h) && i < |h.conns| && h.conns[i].fd >= 0
    ensures Inv(Interest(h, i))
  {
    PrepareKeeps(h, Recv, i);
    hide Tally, Core;
    var r := Prepare(h, Recv, i);
    assert r.(sendsLive := h.sendsLive) == r;
    CoreSizes(h);
    CoreSizes(r);
    PlainKeeps(r, i, r.conns[i].(receiving := true));
  }

  lemma SendKeeps(h: Host, i: nat)
    requires Inv(h) && Enabled(h, Sends(i))
    ensures Inv(Do(h, Sends(i)).host)
  {
    hide Tally, ConnsOk, TokensOk, LingersOk, Held;
    PrepareKeeps(h, Send, i);
  }

  // ---- Completions

  /** Taking a token away leaves the others right, when what they speak of is as it was. */
  lemma FewerTokens(h: Host, k: nat, conns: seq<Conn>, lingering: seq<Lingering>)
    requires Core(h) && k < |h.inflight| && |conns| == |h.conns| && |lingering| == |h.lingering|
    requires forall i {:trigger conns[i]} :: 0 <= i < |conns| ==> conns[i].gen == h.conns[i].gen
    requires forall at {:trigger lingering[at]} ::
      0 <= at < |lingering| && Tally(Without(h.inflight, k), OfLinger(at)) > 0 ==>
      lingering[at].fd == h.lingering[at].fd && lingering[at].since == h.lingering[at].since
    ensures TokensOk(conns, lingering, Without(h.inflight, k))
  {
    var rest := Without(h.inflight, k);
    forall j | 0 <= j < |rest| ensures TokenOk(conns, lingering, rest[j]) {
      assert rest[j] == if j < k then h.inflight[j] else h.inflight[j + 1];
      assert TokenOk(h.conns, h.lingering, rest[j]);
      if rest[j].LingerOp? { TallyHas(rest, j, OfLinger(rest[j].at)); }
    }
  }

  /** The connection a completion is for, as the host finds it: at the completion's generation, the operation counted. */
  lemma ConnThere(h: Host, k: nat)
    requires Core(h) && k < |h.inflight| && h.inflight[k].ConnOp?
    ensures var t := h.inflight[k];
      && t.slot < |h.conns| && h.conns[t.slot].gen == t.gen && h.conns[t.slot].ops >= 1
      && ConnOk(h.conns[t.slot], Tally(Without(h.inflight, k), OfConn(t.slot)) + 1)
  {
    var t := h.inflight[k];
    assert TokenOk(h.conns, h.lingering, t);
    assert ConnOk(h.conns[t.slot], Tally(h.inflight, OfConn(t.slot)));
    Removed(h, k);
    assert OfConn(t.slot)(t);
  }

  lemma ConnDone(h: Host, k: nat, c: Conn)
    requires Core(h) && k < |h.inflight| && h.inflight[k].ConnOp?
    requires var i := h.inflight[k].slot;
      i < |h.conns| && h.conns[i].ops >= 1 && c.gen == h.conns[i].gen && ConnOk(c, h.conns[i].ops - 1)
    ensures var i, rest := h.inflight[k].slot, Without(h.inflight, k);
      ConnsOk(h.conns[i := c], rest) && LingersOk(h.lingering, rest) && TokensOk(h.conns[i := c], h.lingering, rest)
  {
    var i, rest := h.inflight[k].slot, Without(h.inflight, k);
    Removed(h, k);
    FewerTokens(h, k, h.conns[i := c], h.lingering);
    assert ConnOk(h.conns[i], Tally(h.inflight, OfConn(i)));
    assert OfConn(i)(h.inflight[k]);
    hide Tally, ConnOk;
    PutConns(h, i, c, rest);
  }

  /** The connection once a completion of its is taken. */
  function AfterTaking(c: Conn, t: Token): Conn
    requires t.ConnOp? && c.ops >= 1
  {
    var d := c.(ops := c.ops - 1, receiving := c.receiving && t.kind != Recv);
    if c.closing >= 0 then (if d.ops == 0 then d.(closing := -1) else d)
    else if t.kind == Recv then d.(input := true) else d
  }

  /** The host once it is taken, the descriptor let go queued or not. */
  lemma TakenKeeps(h: Host, k: nat, toLinger: seq<int>, shut: seq<int>)
    requires Inv(h) && k < |h.inflight| && h.inflight[k].ConnOp? && (h.mode.Reaping? || h.mode.Waiting?)
    requires h.inflight[k].slot < |h.conns| && h.conns[h.inflight[k].slot].ops >= 1
    requires var c := h.conns[h.inflight[k].slot];
      toLinger == h.toLinger || (c.closing >= 0 && c.ops == 1 && toLinger == h.toLinger + [c.closing])
    ensures var t := h.inflight[k];
      Inv(h.(inflight := Without(h.inflight, k), conns := h.conns[t.slot := AfterTaking(h.conns[t.slot], t)],
             toLinger := toLinger, shut := shut,
             sendsLive := if t.kind == Send && h.sendsLive > 0 then h.sendsLive - 1 else h.sendsLive))
  {
    hide Tally, ConnsOk, TokensOk, LingersOk, Without, Held;
    var t := h.inflight[k];
    var c := h.conns[t.slot];
    ConnThere(h, k);
    Removed(h, k);
    ConnDone(h, k, AfterTaking(c, t));
    PutCounts(h, t.slot, AfterTaking(c, t));
    assert IsSend()(t) == (t.kind == Send);
  }

  /** Whether the completion leaves a descriptor to linger on. */
  predicate QueuesIt(c: Conn) { c.closing >= 0 && c.ops == 1 && c.lingers }

  /** Whether it closes one. */
  predicate ShutsIt(c: Conn) { c.closing >= 0 && c.ops == 1 && !c.lingers }

  lemma TakenIs(h: Host, k: nat, goesOn: bool)
    requires k < |h.inflight| && h.inflight[k].ConnOp? && |h.toLinger| < CONNS
    requires var t := h.inflight[k]; t.slot < |h.conns| && h.conns[t.slot].gen == t.gen && h.conns[t.slot].ops >= 1
    ensures var t := h.inflight[k];
      var c := h.conns[t.slot];
      Completed(h, k, goesOn) ==
        Next(h.(inflight := Without(h.inflight, k), conns := h.conns[t.slot := AfterTaking(c, t)],
                toLinger := if QueuesIt(c) then h.toLinger + [c.closing] else h.toLinger,
                shut := if ShutsIt(c) then h.shut + [c.closing] else h.shut,
                sendsLive := if t.kind == Send && h.sendsLive > 0 then h.sendsLive - 1 else h.sendsLive))
  {
  }

  lemma ConnTakeKeeps(h: Host, k: nat, goesOn: bool)
    requires Inv(h) && k < |h.inflight| && h.inflight[k].ConnOp? && (h.mode.Reaping? || h.mode.Waiting?)
    ensures Completed(h, k, goesOn).Next? && Inv(Completed(h, k, goesOn).host)
  {
    var t := h.inflight[k];
    ConnThere(h, k);
    var c := h.conns[t.slot];
    if |h.toLinger| >= CONNS {
      RoomToQueue(h, t.slot);
      TakenKeeps(h, k, h.toLinger, h.shut);
      FullIs(h, k, goesOn);
    } else {
      hide Inv, Completed, Without, AfterTaking;
      TakenIs(h, k, goesOn);
      TakenKeeps(h, k, if QueuesIt(c) then h.toLinger + [c.closing] else h.toLinger,
                 if ShutsIt(c) then h.shut + [c.closing] else h.shut);
    }
  }

  /** With the queue full no connection has a descriptor left to queue. */
  lemma RoomToQueue(h: Host, i: nat)
    requires Inv(h) && i < |h.conns| && |h.toLinger| >= CONNS
    ensures h.conns[i].closing < 0
  {
    if h.conns[i].closing >= 0 { TallyHas(h.conns, i, Busy()); }
  }

  lemma FullIs(h: Host, k: nat, goesOn: bool)
    requires k < |h.inflight| && h.inflight[k].ConnOp?
    requires var t := h.inflight[k];
      t.slot < |h.conns| && h.conns[t.slot].gen == t.gen && h.conns[t.slot].ops >= 1 && h.conns[t.slot].closing < 0
    ensures var t := h.inflight[k];
      Completed(h, k, goesOn) ==
        Next(h.(inflight := Without(h.inflight, k), conns := h.conns[t.slot := AfterTaking(h.conns[t.slot], t)],
                sendsLive := if t.kind == Send && h.sendsLive > 0 then h.sendsLive - 1 else h.sendsLive))
  {
  }

  /** The place once its receive has ended. */
  function AfterReceive(l: Lingering, goesOn: bool): Lingering {
    if goesOn && !l.ending then l.(receiving := false) else l.(receiving := false, fd := -1, ending := false)
  }

  lemma LingerDone(h: Host, k: nat, goesOn: bool)
    requires Core(h) && k < |h.inflight| && h.inflight[k].LingerOp?
    ensures var t, rest := h.inflight[k], Without(h.inflight, k);
      && t.at < |h.lingering| && h.lingering[t.at].fd >= 0 && h.lingering[t.at].since == t.since
      && var lingering := h.lingering[t.at := AfterReceive(h.lingering[t.at], goesOn)];
      && ConnsOk(h.conns, rest) && TokensOk(h.conns, lingering, rest) && LingersOk(lingering, rest)
      && Tally(rest, IsSend()) == Tally(h.inflight, IsSend())
  {
    var t := h.inflight[k];
    assert TokenOk(h.conns, h.lingering, t);
    var at, l, rest := t.at, h.lingering[t.at], Without(h.inflight, k);
    Removed(h, k);
    assert LingerOk(l, Tally(h.inflight, OfLinger(at)));
    assert OfLinger(at)(t);
    var lingering := h.lingering[at := AfterReceive(l, goesOn)];
    hide Tally;
    FewerTokens(h, k, h.conns, lingering);
    forall i | 0 <= i < |h.conns| ensures ConnOk(h.conns[i], Tally(rest, OfConn(i))) {
      assert ConnOk(h.conns[i], Tally(h.inflight, OfConn(i)));
    }
    forall a | 0 <= a < |lingering| ensures LingerOk(lingering[a], Tally(rest, OfLinger(a))) {
      assert LingerOk(h.lingering[a], Tally(h.inflight, OfLinger(a)));
    }
  }

  lemma LingerTakeKeeps(h: Host, k: nat, goesOn: bool)
    requires Inv(h) && k < |h.inflight| && h.inflight[k].LingerOp? && (h.mode.Reaping? || h.mode.Waiting?)
    ensures Completed(h, k, goesOn).Next? && Inv(Completed(h, k, goesOn).host)
  {
    hide Tally, TokensOk, ConnsOk, LingersOk;
    LingerDone(h, k, goesOn);
    assert h.inflight[..k] + h.inflight[k + 1..] == Without(h.inflight, k);
  }

  lemma OtherTakeKeeps(h: Host, k: nat, goesOn: bool)
    requires Inv(h) && k < |h.inflight| && h.inflight[k].OtherOp? && (h.mode.Reaping? || h.mode.Waiting?)
    ensures Inv(Completed(h, k, goesOn).host)
  {
    var rest := Without(h.inflight, k);
    Removed(h, k);
    FewerTokens(h, k, h.conns, h.lingering);
    forall i | 0 <= i < |h.conns| ensures ConnOk(h.conns[i], Tally(rest, OfConn(i))) {
      assert ConnOk(h.conns[i], Tally(h.inflight, OfConn(i)));
    }
    forall a | 0 <= a < |h.lingering| ensures LingerOk(h.lingering[a], Tally(rest, OfLinger(a))) {
      assert LingerOk(h.lingering[a], Tally(h.inflight, OfLinger(a)));
    }
    hide Tally, TokensOk;
    assert h.inflight[..k] + h.inflight[k + 1..] == rest;
  }

  // ---- Lingering

  /** One place changed, with at most one operation more in flight. */
  lemma LingerStep(h: Host, at: nat, l: Lingering, more: seq<Token>)
    requires Core(h) && at < |h.lingering| && |more| <= 1
    requires more != [] ==>
      more[0].OtherOp? || (more[0].LingerOp? && more[0].at == at && l.fd >= 0 && more[0].since == l.since)
    requires var n := Tally(h.inflight, OfLinger(at));
      && LingerOk(l, n + if more != [] && more[0].LingerOp? then 1 else 0)
      && (n > 0 ==> l.fd == h.lingering[at].fd && l.since == h.lingering[at].since)
    ensures ConnsOk(h.conns, h.inflight + more) && TokensOk(h.conns, h.lingering[at := l], h.inflight + more)
    ensures LingersOk(h.lingering[at := l], h.inflight + more)
    ensures Tally(h.inflight + more, IsSend()) == Tally(h.inflight, IsSend())
  {
    var lingering, inflight := h.lingering[at := l], h.inflight + more;
    if more == [] {
      assert inflight == h.inflight;
    } else {
      Added(h, more[0]);
      assert more == [more[0]];
    }
    forall i | 0 <= i < |h.conns| ensures ConnOk(h.conns[i], Tally(inflight, OfConn(i))) {
      assert ConnOk(h.conns[i], Tally(h.inflight, OfConn(i)));
    }
    forall a | 0 <= a < |lingering| ensures LingerOk(lingering[a], Tally(inflight, OfLinger(a))) {
      if a != at { assert LingerOk(h.lingering[a], Tally(h.inflight, OfLinger(a))); }
    }
    forall k | 0 <= k < |inflight| ensures TokenOk(h.conns, lingering, inflight[k]) {
      if k < |h.inflight| {
        assert TokenOk(h.conns, h.lingering, h.inflight[k]);
        if h.inflight[k].LingerOp? { TallyHas(h.inflight, k, OfLinger(h.inflight[k].at)); }
      }
    }
  }

  lemma LingerReadKeeps(h: Host, at: nat)
    requires Inv(h) && Enabled(h, LingerReads(at))
    ensures Inv(Do(h, LingerReads(at)).host)
  {
    hide Tally, ConnsOk, TokensOk, LingersOk, Held;
    var l := h.lingering[at];
    LingerIs(h, at);
    LingerStep(h, at, l.(receiving := true), [LingerOp(at, l.since)]);
  }

  lemma LingerEndKeeps(h: Host, at: nat)
    requires Inv(h) && Enabled(h, LingerEnds(at))
    ensures Inv(Do(h, LingerEnds(at)).host)
  {
    hide Tally, ConnsOk, TokensOk, LingersOk, Held;
    var l := h.lingering[at];
    LingerIs(h, at);
    if !l.receiving {
      LingerStep(h, at, l.(fd := -1, ending := false), []);
      assert h.inflight + [] == h.inflight;
    } else {
      LingerStep(h, at, l.(ending := true), [OtherOp]);
    }
  }

  lemma TakeUpKeeps(h: Host, shut: bool)
    requires Inv(h) && Enabled(h, TakesUp(shut))
    ensures Inv(TakeUp(h, shut))
  {
    hide Tally, ConnsOk, TokensOk, LingersOk, Held;
    var at := PlaceFrom(h.lingering, 0, 0);
    var l := h.lingering[at];
    LingerIs(h, at);
    LingerStep(h, at, l.(ending := l.ending || (l.fd >= 0 && l.receiving)), [OtherOp]);
  }

  lemma SettleKeeps(h: Host)
    requires Inv(h) && Enabled(h, Settles)
    ensures Inv(Settle(h))
  {
    hide Tally, ConnsOk, TokensOk, LingersOk, Held;
    var at := h.mode.at;
    LingerIs(h, at);
    LingerStep(h, at, Lingering(h.mode.fd, h.lingered + 1, false, false), []);
    assert h.inflight + [] == h.inflight;
  }

  // ---- Every run

  lemma ModeKeeps(h: Host, s: Step)
    requires Inv(h) && Enabled(h, s) && (s.Reaps? || s.Reaped? || s.Drained? || s.Emits? || s.Emitted?)
    ensures Inv(Do(h, s).host)
  {
    hide Tally, ConnsOk, TokensOk, LingersOk, Held;
  }

  lemma ActedKeeps(h: Host, acted: set<nat>, batched: set<nat>)
    requires Inv(h) && h.acted <= acted && batched <= h.batched
    ensures Inv(h.(acted := acted, batched := batched))
  {
    hide Tally, ConnsOk, TokensOk, LingersOk;
  }

  /** A connection's flags changed. */
  lemma FlagsKeep(h: Host, i: nat, c: Conn)
    requires Inv(h) && i < |h.conns| && c == h.conns[i].(input := c.input, reading := c.reading)
    ensures Inv(Put(h, i, c))
  {
    hide Tally, Core;
    CoreSizes(h);
    PlainKeeps(h, i, c);
  }

  lemma ShutKeeps(h: Host, fd: int)
    requires Inv(h)
    ensures Inv(Shut(h, fd))
  {
    hide Tally, ConnsOk, TokensOk, LingersOk;
  }

  lemma PollKeeps(h: Host)
    requires Inv(h)
    ensures Inv(h.(inflight := h.inflight + [OtherOp]))
  {
    hide Tally, ConnsOk, TokensOk, LingersOk, Held;
    LingerIs(h, 0);
    LingerStep(h, 0, h.lingering[0], [OtherOp]);
    assert h.lingering[0 := h.lingering[0]] == h.lingering;
  }

  lemma BatchedOpen(h: Host, i: nat)
    requires Inv(h)
    ensures i in h.batched ==> i < |h.conns| && h.conns[i].fd >= 0 && h.mode.base == Emit && i in h.acted
  {
    hide Tally, ConnsOk, TokensOk, LingersOk;
  }

  /** No step is a violation, and each keeps the invariant. */
  lemma StepKeeps(h: Host, s: Step)
    requires Inv(h) && Enabled(h, s)
    ensures Do(h, s).Next? && Inv(Do(h, s).host)
  {
    hide Inv, Held, Sent, Close, FreeIndex, Interest, Admit, TakeUp, Settle;
    match s {
      case Admits(fd, tls) => AdmitKeeps(h, fd, tls);
      case Refuses(fd) => ShutKeeps(h, fd);
      case Reads(i) => ReadKeeps(h, i);
      case Gives(i, ended) => FlagsKeep(h, i, h.conns[i].(input := false, reading := !ended));
      case Fails(i) =>
        BatchedOpen(h, i);
        FreedKeeps(h, i);
      case TellsLost(i) =>
        BatchedOpen(h, i);
        FreedKeeps(h, i);
      case LingerReads(at) => LingerReadKeeps(h, at);
      case LingerEnds(at) => LingerEndKeeps(h, at);
      case Polls => PollKeeps(h);
      case Takes(k, goesOn) =>
        match h.inflight[k] {
          case ConnOp(_, _, _) => ConnTakeKeeps(h, k, goesOn);
          case LingerOp(_, _) => LingerTakeKeeps(h, k, goesOn);
          case OtherOp => OtherTakeKeeps(h, k, goesOn);
        }
      case TakesUp(shut) => TakeUpKeeps(h, shut);
      case Settles => SettleKeeps(h);
      case Sends(i) => SendKeeps(h, i);
      case Writes(i, failed, whole) =>
        BatchedOpen(h, i);
        ActedKeeps(h, h.acted + {i}, h.batched);
        SentKeeps(h.(acted := h.acted + {i}), i, failed, whole);
      case Checks(i) =>
        FlagsKeep(h, i, h.conns[i].(reading := false));
        var g := Put(h, i, h.conns[i].(reading := false));
        ActedKeeps(g, g.acted + {i}, g.batched);
      case Closes(i, gracefully) =>
        BatchedOpen(h, i);
        ActedKeeps(h, h.acted + {i}, h.batched);
        CloseKeeps(h.(acted := h.acted + {i}), i, gracefully);
      case EndsSend(i, failed, whole) =>
        BatchedOpen(h, i);
        ActedKeeps(h, h.acted, h.batched - {i});
        SentKeeps(h.(batched := h.batched - {i}), i, failed, whole);
      case _ => ModeKeeps(h, s);
    }
  }

  lemma {:induction false} NoneOf(n: nat, c: Conn, p: Conn -> bool)
    requires !p(c)
    ensures Tally(seq(n, _ => c), p) == 0
  {
    if n > 0 {
      assert seq(n, _ => c)[1..] == seq(n - 1, _ => c);
      NoneOf(n - 1, c, p);
    }
  }

  lemma NoneBusy(c: Conn)
    requires c.fd < 0 && c.closing < 0 && !c.lost
    ensures !Busy()(c) && !Listed()(c)
  {
  }

  lemma EmptyTally(h: Host)
    requires h.inflight == []
    ensures Tally(h.inflight, IsSend()) == 0
    ensures forall i: nat {:trigger OfConn(i)} :: Tally(h.inflight, OfConn(i)) == 0
    ensures forall i: nat {:trigger OfLinger(i)} :: Tally(h.inflight, OfLinger(i)) == 0
  {
  }

  lemma StartInv()
    ensures Inv(Start())
  {
    hide Tally, Busy, Listed;
    var c := Conn(-1, -1, 0, 0, false, false, false, false, false, false);
    assert Start().conns == seq(CONNS, _ => c);
    NoneBusy(c);
    NoneOf(CONNS, c, Busy());
    NoneOf(CONNS, c, Listed());
    EmptyTally(Start());
  }

  lemma {:induction false} RunInv(before: Host, steps: seq<Step>, after: Host)
    requires Inv(before) && Run(before, steps, after)
    ensures Inv(after)
    decreases |steps|
  {
    hide Inv;
    if steps != [] {
      StepKeeps(before, steps[0]);
      RunInv(Do(before, steps[0]).host, steps[1..], after);
    }
  }

  ghost predicate Reached(h: Host) { exists steps :: Run(Start(), steps, h) }

  lemma ReachedInv(h: Host)
    requires Reached(h)
    ensures Inv(h)
  {
    hide Inv;
    var steps :| Run(Start(), steps, h);
    StartInv();
    RunInv(Start(), steps, h);
  }

  /** In every run no check fires: no stale completion, none for a socket not lingering, no queue over its room. */
  lemma NoViolation(h: Host, s: Step)
    requires Reached(h) && Enabled(h, s)
    ensures Do(h, s).Next?
  {
    hide Inv;
    ReachedInv(h);
    StepKeeps(h, s);
  }

  /** An index is given out again only once every operation of its last connection is reaped. */
  lemma ReusedReaped(h: Host, fd: int, tls: bool, k: nat)
    requires Reached(h) && Enabled(h, Admits(fd, tls)) && k < |h.inflight| && h.inflight[k].ConnOp?
    ensures h.inflight[k].slot != LowestUsable(h.conns, 0)
  {
    ReachedInv(h);
    AdmitKeeps(h, fd, tls);
    assert !OfConn(LowestUsable(h.conns, 0))(h.inflight[k]);
  }

  /** Connections accepted are those ended and those in the table with a descriptor or lost. */
  lemma Accounted(h: Host)
    requires Reached(h)
    ensures h.accepted == h.ended + Tally(h.conns, Listed())
  {
    ReachedInv(h);
  }

  /** What is queued to linger on never outgrows its array, and nothing is left queued when the host waits. */
  lemma QueueFits(h: Host)
    requires Reached(h)
    ensures |h.toLinger| <= CONNS && (h.mode == In(Turn) ==> h.toLinger == [])
  {
    ReachedInv(h);
  }

  /** A descriptor kept for closing still has an operation to reap, so it is let go in the end. */
  lemma ClosingWaits(h: Host, i: nat)
    requires Reached(h) && i < |h.conns| && h.conns[i].closing >= 0
    ensures exists k :: 0 <= k < |h.inflight| && h.inflight[k].ConnOp? && h.inflight[k].slot == i
  {
    ReachedInv(h);
    assert ConnOk(h.conns[i], Tally(h.inflight, OfConn(i)));
    SomeOf(h.inflight, OfConn(i));
  }

  lemma {:induction false} SomeOf(s: seq<Token>, p: Token -> bool)
    requires Tally(s, p) > 0
    ensures exists k :: 0 <= k < |s| && p(s[k])
  {
    if !p(s[0]) {
      SomeOf(s[1..], p);
      var k :| 0 <= k < |s[1..]| && p(s[1..][k]);
      assert p(s[k + 1]);
    }
  }
}
