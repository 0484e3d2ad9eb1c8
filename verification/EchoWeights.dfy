/** How far the echo host is from having nothing left to do: what every queue entry, operation and connection can still
    give rise to once nothing new is accepted. Acting on a completion always lowers it. */
module EchoWeights {
  import opened Summing
  import opened EchoWorker
  import opened EchoSlots
  import opened EchoHost

  /** Ending a connection arms at most a cancel; closing it leaves a message. */
  function SlotWeight(s: Slot): nat { if s.fd < 0 then 0 else if s.closing then 4 else 8 }

  /** A handover may still become a connection with its receive. */
  function OpWeight(op: Op): nat { if op.Tell? && op.message.Handed? then 14 else 3 }

  /** Octets that came or went are followed by one more operation. */
  function DoneWeight(c: Completion): nat {
    if c.token.kind == KHanded then 12
    else if (c.token.kind == KRecv || c.token.kind == KSend) && c.res > 0 then 4
    else 1
  }

  function RingWeight(r: Ring): nat { Sum(r.sq, OpWeight) + 2 * |r.flight| + Sum(r.cq, DoneWeight) }

  function Weight(w: Worker): nat { RingWeight(w.ring) + Sum(w.slots, SlotWeight) }

  lemma PushWeight(r: Ring, op: Op)
    ensures RingWeight(Push(r, op)) == RingWeight(r) + OpWeight(op)
  {
    hide Sum;
    SumAppend(r.sq, op, OpWeight);
  }

  lemma PopWeight(r: Ring, live: nat)
    requires r.cq != []
    ensures RingWeight(r.(cq := r.cq[1..], live := live)) + DoneWeight(r.cq[0]) == RingWeight(r)
  {
    hide Sum;
    SumFirst(r.cq, DoneWeight);
  }

  /** An operation ended: it leaves its completion. */
  lemma LandWeight(r: Ring, j: nat, res: int)
    requires j < |r.flight|
    ensures RingWeight(Landed(r, j, res)) + 2 == RingWeight(r) + DoneWeight(Completion(TokenOf(r.flight[j]), res))
  {
    hide Sum;
    SumAppend(r.cq, Completion(TokenOf(r.flight[j]), res), DoneWeight);
  }

  /** The first entry taken by the kernel, to complete later or at once. */
  lemma TakenWeight(r: Ring, res: int)
    requires r.sq != []
    ensures RingWeight(r.(sq := r.sq[1..], flight := r.flight + [r.sq[0]])) + OpWeight(r.sq[0]) == RingWeight(r) + 2
    ensures RingWeight(r.(sq := r.sq[1..], cq := r.cq + [Completion(TokenOf(r.sq[0]), res)])) + OpWeight(r.sq[0])
         == RingWeight(r) + DoneWeight(Completion(TokenOf(r.sq[0]), res))
  {
    hide Sum;
    SumFirst(r.sq, OpWeight);
    SumAppend(r.cq, Completion(TokenOf(r.sq[0]), res), DoneWeight);
  }

  lemma PutWeight(w: Worker, i: nat, s: Slot)
    requires i < |w.slots|
    ensures Weight(Put(w, i, s)) + SlotWeight(w.slots[i]) == Weight(w) + SlotWeight(s)
  {
    hide Sum;
    SumUpdate(w.slots, i, s, SlotWeight);
  }

  lemma OnRing(w: Worker, r: Ring)
    ensures Weight(w.(ring := r)) + RingWeight(w.ring) == Weight(w) + RingWeight(r)
  {
  }

  lemma FlagWeight(w: Worker, held: int, shut: seq<int>, stopping: bool)
    ensures Weight(w.(held := held, shut := shut, stopping := stopping)) == Weight(w)
  {
  }

  // ----- what a worker does -----

  lemma ArmWeight(w: Worker, i: nat)
    requires i < |w.slots|
    ensures Weight(ArmRecv(w, i)) == Weight(w) + 3
    ensures w.slots[i].sent <= w.slots[i].length ==> Weight(ArmSend(w, i)) == Weight(w) + 3
  {
    hide Weight, RingWeight;
    var s := w.slots[i];
    var w1 := Put(w, i, s.(ops := s.ops + 1));
    PutWeight(w, i, s.(ops := s.ops + 1));
    PushWeight(w.ring, Recv(i, s.gen, s.fd));
    OnRing(w1, Push(w.ring, Recv(i, s.gen, s.fd)));
    if s.sent <= s.length {
      PushWeight(w.ring, Send(i, s.gen, s.fd, s.sent, Chunk(w, s)));
      OnRing(w1, Push(w.ring, Send(i, s.gen, s.fd, s.sent, Chunk(w, s))));
    }
  }

  lemma FinishWeight(w: Worker, i: nat)
    requires i < |w.slots|
    ensures Weight(Finish(w, i)) + SlotWeight(w.slots[i]) == Weight(w) + 3
  {
    hide Weight, RingWeight;
    var s, op := w.slots[i], Tell(i, 0, MainRing, Freed(w.index));
    var w1 := Put(w, i, s.(fd := -1, closing := false, length := 0, sent := 0));
    PutWeight(w, i, s.(fd := -1, closing := false, length := 0, sent := 0));
    var w2 := w1.(held := w.held - 1, shut := w.shut + [s.fd], stopping := w.stopping);
    FlagWeight(w1, w.held - 1, w.shut + [s.fd], w.stopping);
    PushWeight(w.ring, op);
    OnRing(w2, Push(w.ring, op));
    assert Finish(w, i) == w2.(ring := Push(w.ring, op));
  }

  /** Ending a connection adds nothing. */
  lemma EndWeight(w: Worker, i: nat)
    requires i < |w.slots| && w.slots[i].fd >= 0
    ensures Weight(End(w, i)) <= Weight(w)
  {
    hide Weight, RingWeight, Finish;
    var s := w.slots[i];
    if s.closing {
    } else if s.ops == 0 {
      var w1 := Put(w, i, s.(closing := true));
      PutWeight(w, i, s.(closing := true));
      FinishWeight(w1, i);
    } else {
      var c := s.(closing := true, ops := s.ops + 1);
      PutWeight(w, i, c);
      PushWeight(w.ring, CancelFd(i, s.gen, s.fd));
      OnRing(Put(w, i, c), Push(w.ring, CancelFd(i, s.gen, s.fd)));
    }
  }

  lemma {:induction false} StopWeight(w: Worker, k: nat)
    requires k <= |w.slots|
    ensures Weight(StopFrom(w, k)) <= Weight(w)
    decreases |w.slots| - k
  {
    hide Weight;
    if k < |w.slots| {
      if w.slots[k].fd >= 0 { EndWeight(w, k); }
      StopWeight(if w.slots[k].fd >= 0 then End(w, k) else w, k + 1);
    }
  }

  lemma TakeWeight(w: Worker, fd: int)
    requires fd >= 0 && Take(w, fd).Next?
    ensures Weight(Take(w, fd).value) <= Weight(w) + 11
  {
    hide Weight, ArmRecv, End;
    var i := FreeFrom(w.slots, 0);
    var s := w.slots[i];
    var t := s.(fd := fd, gen := (s.gen + 1) % GENERATIONS, length := 0, sent := 0, received := [], delivered := []);
    PutWeight(w, i, t);
    var w1 := Put(w, i, t).(held := w.held + 1, shut := w.shut, stopping := w.stopping);
    FlagWeight(Put(w, i, t), w.held + 1, w.shut, w.stopping);
    if w.stopping { EndWeight(w1, i); } else { ArmWeight(w1, i); }
  }

  lemma MovedWeight(w: Worker, i: nat, n: nat)
    requires Shaped(w) && i < SLOTS && n <= CAPACITY
    ensures Weight(Received(w, i, n)) == Weight(w) + 3
    ensures SentSome(w, i, n).Next? ==> Weight(SentSome(w, i, n).value) == Weight(w) + 3
  {
    hide Weight, ArmRecv, ArmSend;
    assert SlotShaped(w.slots[i]);
    var s := w.slots[i];
    PutWeight(w, i, s.(out := s.inb[..n] + s.out[n..], length := n, sent := 0));
    ArmWeight(Put(w, i, s.(out := s.inb[..n] + s.out[n..], length := n, sent := 0)), i);
    PutWeight(w, i, s.(sent := s.sent + n));
    ArmWeight(Put(w, i, s.(sent := s.sent + n)), i);
    PutWeight(w, i, s.(length := 0, sent := 0));
    ArmWeight(Put(w, i, s.(length := 0, sent := 0)), i);
  }

  /** A completion acted on gives rise to less than it weighs. */
  lemma CompletedWeight(w: Worker, c: Completion)
    requires Shaped(w) && (c.token.kind == KRecv ==> c.res <= CAPACITY) && (c.token.kind == KHanded ==> c.res >= 0)
    requires Completed(w, c).Next?
    ensures Weight(Completed(w, c).value) < Weight(w) + DoneWeight(c)
  {
    hide Weight, Take, StopFrom, Finish, End, Received, SentSome;
    var t := c.token;
    if t.kind == KHanded {
      TakeWeight(w, c.res);
    } else if t.kind == KStop {
      FlagWeight(w, w.held, w.shut, true);
      StopWeight(w.(stopping := true), 0);
    } else if t.kind != KTold {
      SlotDoneWeight(w, c);
    }
  }

  lemma SlotDoneWeight(w: Worker, c: Completion)
    requires Shaped(w) && (c.token.kind == KRecv ==> c.res <= CAPACITY) && OnSlot(c.token.kind)
    requires Completed(w, c).Next?
    ensures Weight(Completed(w, c).value) < Weight(w) + DoneWeight(c)
  {
    hide Weight, Take, StopFrom, Finish, End, Received, SentSome, SlotShaped;
    var i := c.token.slot;
    var s1 := w.slots[i].(ops := w.slots[i].ops - 1);
    var w1 := Put(w, i, s1);
    PutWeight(w, i, s1);
    StillShaped(w, i, s1);
    FinishWeight(w1, i);
    if s1.fd >= 0 { EndWeight(w1, i); }
    if c.res > 0 && (c.token.kind == KRecv || w1.slots[i].sent <= w1.slots[i].length) {
      SomeMoved(w1, i, c);
    }
  }

  lemma StillShaped(w: Worker, i: nat, s: Slot)
    requires Shaped(w) && i < SLOTS && s == w.slots[i].(ops := s.ops)
    ensures Shaped(Put(w, i, s)) && s.sent <= s.length
  {
    assert SlotShaped(w.slots[i]);
  }

  lemma SomeMoved(w: Worker, i: nat, c: Completion)
    requires Shaped(w) && i < SLOTS && c.res > 0 && (c.token.kind == KRecv ==> c.res <= CAPACITY)
    ensures c.token.kind == KRecv ==> |w.slots[i].inb| == |w.slots[i].out| == CAPACITY
    ensures c.token.kind == KRecv ==> Weight(Received(w, i, c.res)) == Weight(w) + 3
    ensures w.slots[i].sent <= w.slots[i].length
    ensures SentSome(w, i, c.res).Next? ==> Weight(SentSome(w, i, c.res).value) == Weight(w) + 3
  {
    hide Weight, Received, SentSome;
    assert SlotShaped(w.slots[i]);
    if c.token.kind == KRecv { MovedWeight(w, i, c.res); } else { SentWeight(w, i, c.res); }
  }

  lemma SentWeight(w: Worker, i: nat, n: nat)
    requires Shaped(w) && i < SLOTS && w.slots[i].sent <= w.slots[i].length
    ensures SentSome(w, i, n).Next? ==> Weight(SentSome(w, i, n).value) == Weight(w) + 3
  {
    hide Weight;
    assert SlotShaped(w.slots[i]);
    if n <= CAPACITY { MovedWeight(w, i, n); }
  }

  lemma ReapWeight(w: Worker)
    requires Shaped(w) && |w.ring.cq| > 0 && (w.ring.cq[0].token.kind == KRecv ==> w.ring.cq[0].res <= CAPACITY)
    requires Reap(w).Next?
    requires w.ring.cq[0].token.kind == KHanded ==> w.ring.cq[0].res >= 0
    ensures Weight(Reap(w).value) < Weight(w)
  {
    hide Weight, RingWeight, Completed, DoneWeight;
    var c, r := w.ring.cq[0], w.ring;
    var live := if Foreign(c.token.kind) then r.live else r.live - 1;
    var r1 := r.(cq := r.cq[1..], live := live);
    PopWeight(r, live);
    OnRing(w, r1);
    assert Reap(w) == Completed(w.(ring := r1), c);
    CompletedWeight(w.(ring := r1), c);
  }
}
