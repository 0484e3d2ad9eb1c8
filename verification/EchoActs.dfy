/** What a worker does with each completion, told by what it leaves: the connection's descriptor and generation, its
    octets, the one operation it is given next, the descriptors closed. */
module EchoActs {
  import opened Gathering
  import opened EchoWorker
  import opened EchoSlots

  /** The worker with slot `i` and its ring changed, and nothing else. */
  predicate OnlySlot(w: Worker, w': Worker, i: nat)
    requires i < |w.slots|
  {
    && |w'.slots| == |w.slots| && w'.slots == w.slots[i := w'.slots[i]]
    && w'.index == w.index && w'.writeChunk == w.writeChunk && w'.stopping == w.stopping
    && w'.ring.flight == w.ring.flight
  }

  /** Slot `i` still serves the connection it served, what has moved on it unchanged, nothing closed, and one operation
      more to submit. */
  predicate GoesOn(w: Worker, w': Worker, i: nat, op: Op)
    requires i < |w.slots|
  {
    && OnlySlot(w, w', i) && w'.held == w.held && w'.shut == w.shut && w'.ring.sq == w.ring.sq + [op]
    && var s, s' := w.slots[i], w'.slots[i];
    && s'.fd == s.fd && s'.gen == s.gen && !s'.closing && s'.received == s.received && s'.delivered == s.delivered
  }

  function Least(a: nat, b: nat): nat { if a < b then a else b }

  /** The send of what is still to be delivered, as much of it as one send takes. */
  predicate SendsRest(w: Worker, w': Worker, i: nat, op: Op)
    requires i < |w.slots|
  {
    && |w'.slots| == |w.slots|
    && var s, s' := w.slots[i], w'.slots[i];
    && |s.delivered| < |s.received| && s'.sent <= s'.length <= |s'.out|
    && s'.out[s'.sent..s'.length] == s.received[|s.delivered|..]
    && op == Send(i, s.gen, s.fd, s'.sent, Least(|s.received| - |s.delivered|, w.writeChunk))
  }

  /** The first completion is of slot `i`, which is held and not closing, and moved octets. */
  ghost predicate MovedSome(w: Worker, i: nat, kind: Kind) {
    && Inv(w) && |w.ring.cq| > 0 && i < SLOTS && w.ring.cq[0].token.slot == i && w.ring.cq[0].token.kind == kind
    && w.slots[i].fd >= 0 && !w.slots[i].closing && w.ring.cq[0].res > 0
  }

  lemma Rest(a: seq<byte>, b: seq<byte>, c: seq<byte>)
    requires a == b + c
    ensures |a| == |b| + |c| && a[|b|..] == c
  {
  }

  /** After a receive of some octets: they are in the echo from its start, and their sending is next. */
  lemma ReceiveActs(w: Worker, i: nat) returns (op: Op)
    requires MovedSome(w, i, KRecv)
    ensures w.ring.cq[0].res <= CAPACITY && |w.slots| == SLOTS
    ensures Reap(w).Next? && GoesOn(w, Reap(w).value, i, op) && SendsRest(w, Reap(w).value, i, op)
    ensures var s' := Reap(w).value.slots[i]; s'.sent == 0 && s'.length == w.ring.cq[0].res
  {
    hide Gather, Unreaped, Counted, Current, Prefixes;
    NeverStale(w);
    var s, n := w.slots[i], w.ring.cq[0].res;
    assert SlotShaped(s);
    Rest(s.received, s.delivered, s.inb[..n]);
    var s' := Reap(w).value.slots[i];
    assert s'.out[..n] == s.inb[..n] && s'.out[0..n] == s'.out[..n];
    op := Send(i, s.gen, s.fd, 0, Least(n, w.writeChunk));
  }

  /** After a send of some octets: the sending of the rest is next, or a receive when there is none. */
  lemma SendActs(w: Worker, i: nat) returns (op: Op)
    requires MovedSome(w, i, KSend)
    ensures |w.slots| == SLOTS && |w.slots[i].delivered| <= |w.slots[i].received|
    ensures Reap(w).Next? && GoesOn(w, Reap(w).value, i, op)
    ensures var s := w.slots[i];
      if |s.delivered| < |s.received| then SendsRest(w, Reap(w).value, i, op) else op == Recv(i, s.gen, s.fd)
  {
    hide Gather, Unreaped, Counted, Current;
    NeverStale(w);
    var s, n := w.slots[i], w.ring.cq[0].res;
    assert SlotShaped(s);
    Rest(s.received, s.delivered, s.out[s.sent + n..s.length]);
    var s' := Reap(w).value.slots[i];
    op := if s.sent + n < s.length then Send(i, s.gen, s.fd, s.sent + n, Least(s.length - s.sent - n, w.writeChunk))
          else Recv(i, s.gen, s.fd);
  }

  /** The connection's descriptor closed, its slot free again and its place told of. */
  predicate Lets(w: Worker, w': Worker, i: nat)
    requires i < |w.slots|
  {
    && OnlySlot(w, w', i) && w'.held == w.held - 1 && w'.shut == w.shut + [w.slots[i].fd]
    && w'.ring.sq == w.ring.sq + [Tell(i, 0, MainRing, Freed(w.index))]
    && w'.slots[i].fd < 0 && !w'.slots[i].closing && w'.slots[i].gen == w.slots[i].gen
  }

  /** After a receive or a send that ended or failed, the connection is let go: it has no other operation. */
  lemma EndActs(w: Worker, i: nat)
    requires Inv(w) && |w.ring.cq| > 0 && i < SLOTS && w.ring.cq[0].token.slot == i
    requires w.ring.cq[0].token.kind == KRecv || w.ring.cq[0].token.kind == KSend
    requires w.slots[i].fd >= 0 && !w.slots[i].closing && w.ring.cq[0].res <= 0
    ensures |w.slots| == SLOTS && Reap(w).Next? && Lets(w, Reap(w).value, i)
  {
    hide Gather, Unreaped, Current, Prefixes, QueuesOk;
    NeverStale(w);
    assert SlotOk(w.slots[i], i, Unreaped(w.ring));
  }

  /** A slot that is closing: its last completion lets it go, another one only counts. */
  lemma ClosingActs(w: Worker, i: nat)
    requires Inv(w) && |w.ring.cq| > 0 && i < SLOTS && w.ring.cq[0].token.slot == i && OnSlot(w.ring.cq[0].token.kind)
    requires w.slots[i].closing
    ensures w.ring.cq[0].token.kind == KRecv ==> w.ring.cq[0].res <= CAPACITY
    ensures |w.slots| == SLOTS && w.slots[i].ops > 0 && Reap(w).Next?
    ensures var w', s := Reap(w).value, w.slots[i];
      if s.ops == 1 then Lets(w, w', i)
      else OnlySlot(w, w', i) && w'.slots[i] == s.(ops := s.ops - 1) && w'.held == w.held && w'.shut == w.shut
           && w'.ring.sq == w.ring.sq
  {
    hide Gather, Unreaped, Counted, Current, Prefixes;
    NeverStale(w);
  }

  /** A connection handed over, the worker not stopping: a slot that was free serves it under its next generation, nothing
      moved on it yet, a receive its first operation. */
  lemma HandedActs(w: Worker) returns (i: nat, op: Op)
    requires Inv(w) && |w.ring.cq| > 0 && w.ring.cq[0].token.kind == KHanded && w.held < SLOTS && !w.stopping
    ensures i < |w.slots| == SLOTS && w.slots[i].fd < 0 && Reap(w).Next?
    ensures var w', s, fd := Reap(w).value, w.slots[i], w.ring.cq[0].res;
      && OnlySlot(w, w', i) && w'.held == w.held + 1 && w'.shut == w.shut && w'.ring.sq == w.ring.sq + [op]
      && var s' := w'.slots[i];
      && s'.fd == fd && s'.gen == (s.gen + 1) % GENERATIONS && !s'.closing && s'.received == s'.delivered == []
      && s'.length == s'.sent == 0 && op == Recv(i, s'.gen, fd)
  {
    hide Gather, Current, Prefixes, QueuesOk;
    PoppedKeeps(w);
    i := FreeSlot(Popped(w));
    assert SlotOk(w.slots[i], i, Unreaped(w.ring));
    hide Unreaped, Counted;
    var s := w.slots[i];
    op := Recv(i, (s.gen + 1) % GENERATIONS, w.ring.cq[0].res);
  }

  /** A slot told to stop: closing when a connection is held, with one operation more, its cancel. */
  predicate Stopped(s: Slot, s': Slot) {
    s' == if s.fd >= 0 && !s.closing then s.(closing := true, ops := s.ops + 1) else s
  }

  predicate Cancels(s: Slot, i: nat, ops: seq<Op>) {
    s.fd >= 0 && !s.closing ==> CancelFd(i, s.gen, s.fd) in ops
  }

  /** From slot `k` on every connection held is closing, one that was not with its cancel to submit; nothing else has
      changed and nothing is closed. */
  ghost predicate AllStopped(w: Worker, w': Worker, k: nat) {
    && |w'.slots| == |w.slots| && w'.held == w.held && w'.shut == w.shut && w'.stopping == w.stopping
    && w.ring.sq <= w'.ring.sq
    && (forall i {:trigger w'.slots[i]} :: 0 <= i < |w.slots| ==>
          if i < k then w'.slots[i] == w.slots[i] else Stopped(w.slots[i], w'.slots[i]))
    && (forall i {:trigger w.slots[i]} :: k <= i < |w.slots| ==> Cancels(w.slots[i], i, w'.ring.sq))
  }

  lemma {:induction false} StopFromActs(w: Worker, k: nat)
    requires k <= |w.slots| && forall i {:trigger w.slots[i]} :: 0 <= i < |w.slots| ==>
      (w.slots[i].fd >= 0 && !w.slots[i].closing ==> w.slots[i].ops > 0)
    ensures AllStopped(w, StopFrom(w, k), k)
    decreases |w.slots| - k
  {
    if k < |w.slots| {
      var s := w.slots[k];
      var w1 := if s.fd >= 0 then End(w, k) else w;
      assert Stopped(s, w1.slots[k]) && Cancels(s, k, w1.ring.sq) && w.ring.sq <= w1.ring.sq;
      assert w1.slots == w.slots[k := w1.slots[k]];
      hide End;
      StopFromActs(w1, k + 1);
      var w' := StopFrom(w1, k + 1);
      forall i | k <= i < |w.slots| ensures Cancels(w.slots[i], i, w'.ring.sq) {
        if i > k { assert w1.slots[i] == w.slots[i]; }
      }
    }
  }

  /** The order to stop: every connection the worker holds is closing. */
  lemma StopActs(w: Worker)
    requires Inv(w) && |w.ring.cq| > 0 && w.ring.cq[0].token.kind == KStop
    ensures Reap(w).Next? && Reap(w).value.stopping && AllStopped(w.(stopping := true), Reap(w).value, 0)
  {
    hide Gather, Unreaped, Current, Prefixes, QueuesOk, AllStopped;
    forall i | 0 <= i < |w.slots| ensures w.slots[i].fd >= 0 && !w.slots[i].closing ==> w.slots[i].ops > 0 {
      assert SlotOk(w.slots[i], i, Unreaped(w.ring));
    }
    var w1 := Popped(w).(stopping := true);
    StopFromActs(w1, 0);
    RingAside(w, w1, Reap(w).value);
  }

  lemma RingAside(w: Worker, w1: Worker, w': Worker)
    requires AllStopped(w1, w', 0) && w1 == w.(stopping := true, ring := w1.ring) && w1.ring.sq == w.ring.sq
    ensures AllStopped(w.(stopping := true), w', 0)
    ensures w'.stopping == w1.stopping
  {
    forall i | 0 <= i < |w.slots| ensures Cancels(w.slots[i], i, w'.ring.sq) { assert w1.slots[i] == w.slots[i]; }
  }
}
