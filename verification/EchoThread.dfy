/** The worker thread as the program runs it: a table of slots, counters and flags updated in place by each completion.
    Every method leaves exactly the state its step in `EchoWorker` gives. */
module EchoThread {
  import opened Gathering
  import opened EchoWorker
  import opened EchoSlots
  import EchoActs

  /** Whether the thread goes on, reports a broken invariant, or cannot because the kernel failed it. */
  datatype Fate = Goes | Broken | Failed

  /** The slots due at `now` ended, from slot `k` on: held, not closing and idle for `idle` or longer. */
  function ExpireFrom(w: Worker, active: seq<nat>, now: nat, idle: nat, k: nat): (w': Worker)
    requires k <= |w.slots| == |active|
    ensures |w'.slots| == |w.slots|
    decreases |w.slots| - k
  {
    if k == |w.slots| then w
    else ExpireFrom(if Due(w.slots[k], active[k], now, idle) then End(w, k) else w, active, now, idle, k + 1)
  }

  predicate Watched(s: Slot) { s.fd >= 0 && !s.closing }

  predicate Due(s: Slot, active: nat, now: nat, idle: nat) { Watched(s) && now - active >= idle }

  predicate Left(s: Slot, active: nat, now: nat, idle: nat, left: int) {
    Watched(s) && !Due(s, active, now, idle) && left == active + idle - now
  }

  /** `next` is the least time left of the connections that are not due, -1 when none is left. */
  ghost predicate NextDeadline(slots: seq<Slot>, active: seq<nat>, now: nat, idle: nat, next: int)
    requires |slots| == |active|
  {
    && (forall i :: 0 <= i < |slots| && Watched(slots[i]) ==>
          Due(slots[i], active[i], now, idle) || 0 < next <= active[i] + idle - now)
    && (next == -1 || exists i :: 0 <= i < |slots| && Left(slots[i], active[i], now, idle, next))
  }

  /** A deadline over some slots is one over the next slot too, once that slot is found due, unwatched or further off. */
  lemma NextMore(slots: seq<Slot>, active: seq<nat>, now: nat, idle: nat, next: int, i: nat)
    requires i < |slots| == |active| && NextDeadline(slots[..i], active[..i], now, idle, next)
    ensures var left := active[i] + idle - now;
            var more := if Left(slots[i], active[i], now, idle, left) && (next < 0 || left < next) then left else next;
            NextDeadline(slots[..i + 1], active[..i + 1], now, idle, more)
  {
    var left := active[i] + idle - now;
    var s, a := slots[..i + 1], active[..i + 1];
    assert s[..i] == slots[..i] && a[..i] == active[..i];
    if Left(slots[i], active[i], now, idle, left) && (next < 0 || left < next) {
      assert Left(s[i], a[i], now, idle, left);
    } else if next != -1 {
      var j :| 0 <= j < i && Left(slots[..i][j], active[..i][j], now, idle, next);
      assert Left(s[j], a[j], now, idle, next);
    }
    forall k | 0 <= k < |s| && Watched(s[k])
      ensures Due(s[k], a[k], now, idle) ||
              0 < (if Left(slots[i], active[i], now, idle, left) && (next < 0 || left < next) then left else next)
                <= a[k] + idle - now
    {
      if k < i { assert Watched(slots[..i][k]); }
    }
  }

  /** From slot `k` on a connection idle for its time or longer is closing, its cancel to submit, and any other slot is as it
      was; nothing is closed. */
  ghost predicate IdleStopped(w: Worker, w': Worker, active: seq<nat>, now: nat, idle: nat, k: nat)
    requires |active| == |w.slots|
  {
    && |w'.slots| == |w.slots| && w'.held == w.held && w'.shut == w.shut && w'.stopping == w.stopping
    && w.ring.sq <= w'.ring.sq
    && (forall i {:trigger w'.slots[i]} :: 0 <= i < |w.slots| ==>
          if i >= k && active[i] + idle <= now then EchoActs.Stopped(w.slots[i], w'.slots[i])
          else w'.slots[i] == w.slots[i])
    && (forall i {:trigger w.slots[i]} :: k <= i < |w.slots| && active[i] + idle <= now ==>
          EchoActs.Cancels(w.slots[i], i, w'.ring.sq))
  }

  lemma {:induction false} ExpireActs(w: Worker, active: seq<nat>, now: nat, idle: nat, k: nat)
    requires k <= |w.slots| == |active| && forall i {:trigger w.slots[i]} :: 0 <= i < |w.slots| ==>
      (w.slots[i].fd >= 0 && !w.slots[i].closing ==> w.slots[i].ops > 0)
    ensures IdleStopped(w, ExpireFrom(w, active, now, idle, k), active, now, idle, k)
    decreases |w.slots| - k
  {
    if k < |w.slots| {
      var s := w.slots[k];
      var w1 := if Due(s, active[k], now, idle) then End(w, k) else w;
      assert if active[k] + idle <= now then EchoActs.Stopped(s, w1.slots[k]) else w1.slots[k] == s;
      assert active[k] + idle <= now ==> EchoActs.Cancels(s, k, w1.ring.sq);
      assert w1.slots == w.slots[k := w1.slots[k]] && w.ring.sq <= w1.ring.sq;
      hide End;
      ExpireActs(w1, active, now, idle, k + 1);
      var w' := ExpireFrom(w1, active, now, idle, k + 1);
      forall i | k <= i < |w.slots| && active[i] + idle <= now ensures EchoActs.Cancels(w.slots[i], i, w'.ring.sq) {
        if i > k { assert w1.slots[i] == w.slots[i]; }
      }
    }
  }

  /** Ending what is due keeps the slots' invariant, and every connection admitted is still accounted for. */
  lemma {:induction false} ExpireKeeps(w: Worker, active: seq<nat>, now: nat, idle: nat, k: nat)
    requires Inv(w) && k <= |w.slots| == |active|
    ensures var w' := ExpireFrom(w, active, now, idle, k); Inv(w') && Claims(w') == Claims(w)
    decreases |w.slots| - k
  {
    hide Inv, Claims, End;
    if k < |w.slots| {
      if Due(w.slots[k], active[k], now, idle) {
        Sized(w);
        EndKeeps(w, k);
        EndClaims(w, k);
        Sized(End(w, k));
        ExpireKeeps(End(w, k), active, now, idle, k + 1);
      } else {
        ExpireKeeps(w, active, now, idle, k + 1);
      }
    }
  }

  lemma NoneWaits(now: nat, idle: nat)
    ensures NextDeadline([], [], now, idle, -1)
  {
  }

  /** Ending a connection touches no other slot. */
  lemma EndsOne(w: Worker, i: nat)
    requires i < |w.slots|
    ensures var w' := End(w, i); |w'.slots| == |w.slots| && w'.slots[i + 1..] == w.slots[i + 1..]
  {
  }

  lemma Sized(w: Worker)
    requires Inv(w)
    ensures |w.slots| == SLOTS
  {
    hide Gather;
  }

  class WorkerThread {
    const index: nat
    const writeChunk: nat
    const idle: nat
    const slots: array<Slot>
    const active: array<nat>
    var ring: Ring
    var held: int
    var stopping: bool
    var shut: seq<int>

    ghost function Snapshot(): Worker
      reads this, slots
    {
      Worker(index, writeChunk, ring, slots[..], held, stopping, shut)
    }

    ghost predicate Valid()
      reads this, slots
    {
      slots.Length == active.Length == SLOTS && Shaped(Snapshot())
    }

    constructor (index: nat, writeChunk: nat, idle: nat)
      requires 1 <= writeChunk <= CAPACITY
      ensures Valid() && Inv(Snapshot()) && Claims(Snapshot()) == multiset{}
      ensures Snapshot() == FreshWorker(index, writeChunk) && this.idle == idle && fresh(slots) && fresh(active)
    {
      hide Inv, Claims;
      this.index, this.writeChunk, this.idle := index, writeChunk, idle;
      slots := new Slot[SLOTS](_ => FreshSlot());
      active := new nat[SLOTS](_ => 0);
      ring, held, stopping, shut := EmptyRing, 0, false, [];
      new;
      assert slots[..] == FreshWorker(index, writeChunk).slots;
      FreshInv(index, writeChunk);
    }

    method ArmRecv(i: nat)
      requires i < slots.Length
      modifies this`ring, slots
      ensures Snapshot() == EchoWorker.ArmRecv(old(Snapshot()), i)
    {
      ring := Push(ring, Recv(i, slots[i].gen, slots[i].fd));
      slots[i] := slots[i].(ops := slots[i].ops + 1);
    }

    method ArmSend(i: nat)
      requires i < slots.Length && slots[i].sent <= slots[i].length
      modifies this`ring, slots
      ensures Snapshot() == EchoWorker.ArmSend(old(Snapshot()), i)
    {
      var remaining := slots[i].length - slots[i].sent;
      var chunk := if remaining < writeChunk then remaining else writeChunk;
      ring := Push(ring, Send(i, slots[i].gen, slots[i].fd, slots[i].sent, chunk));
      slots[i] := slots[i].(ops := slots[i].ops + 1);
    }

    method Finish(i: nat)
      requires i < slots.Length
      modifies this, slots
      ensures Snapshot() == EchoWorker.Finish(old(Snapshot()), i)
    {
      shut := shut + [slots[i].fd];
      slots[i] := slots[i].(fd := -1);
      slots[i] := slots[i].(closing := false);
      slots[i] := slots[i].(length := 0, sent := 0);
      held := held - 1;
      ring := Push(ring, Tell(i, 0, MainRing, Freed(index)));
    }

    method End(i: nat)
      requires i < slots.Length
      modifies this, slots
      ensures Snapshot() == EchoWorker.End(old(Snapshot()), i)
    {
      if slots[i].closing { return; }
      slots[i] := slots[i].(closing := true);
      if slots[i].ops == 0 {
        Finish(i);
        return;
      }
      ring := Push(ring, CancelFd(i, slots[i].gen, slots[i].fd));
      slots[i] := slots[i].(ops := slots[i].ops + 1);
    }

    method Take(fd: int, now: nat) returns (fate: Fate)
      requires slots.Length == active.Length
      modifies this, slots, active
      ensures match EchoWorker.Take(old(Snapshot()), fd)
              case Next(w) => fate == Goes && Snapshot() == w
              case _ => fate == Broken
    {
      hide EchoWorker.End, EchoWorker.ArmRecv;
      var i := 0;
      while i < slots.Length && (slots[i].fd >= 0 || slots[i].ops != 0)
        invariant i <= slots.Length
        invariant FreeFrom(slots[..], 0) == FreeFrom(slots[..], i)
      {
        i := i + 1;
      }
      if i == slots.Length { return Broken; }
      slots[i] := slots[i].(fd := fd);
      slots[i] := slots[i].(gen := (slots[i].gen + 1) % GENERATIONS);
      slots[i] := slots[i].(length := 0, sent := 0, received := [], delivered := []);
      active[i] := now;
      held := held + 1;
      assert i == FreeFrom(old(slots[..]), 0) && Snapshot() == Filled(old(Snapshot()), i, fd);
      if stopping { End(i); } else { ArmRecv(i); }
      fate := Goes;
    }

    method StopAll()
      modifies this, slots
      ensures Snapshot() == StopFrom(old(Snapshot()).(stopping := true), 0)
    {
      stopping := true;
      var k := 0;
      while k < slots.Length
        invariant k <= slots.Length
        invariant StopFrom(Snapshot(), k) == StopFrom(old(Snapshot()).(stopping := true), 0)
      {
        if slots[k].fd >= 0 { End(k); }
        k := k + 1;
      }
    }

    /** A receive or send that moved octets: the slot's time is renewed. */
    method Moved(i: nat, kind: Kind, n: nat, now: nat) returns (fate: Fate)
      requires Valid() && i < SLOTS && (kind == KRecv ==> n <= CAPACITY)
      modifies this`ring, slots, active
      ensures match if kind == KRecv then Next(Received(old(Snapshot()), i, n)) else SentSome(old(Snapshot()), i, n)
              case Next(w) => fate == Goes && Snapshot() == w
              case _ => fate == Broken
    {
      assert SlotShaped(slots[..][i]);
      fate := Goes;
      if kind == KRecv {
        slots[i] := slots[i].(out := slots[i].inb[..n] + slots[i].out[n..]);
        slots[i] := slots[i].(length := n, sent := 0);
        active[i] := now;
        ArmSend(i);
        return;
      }
      if n > slots[i].length - slots[i].sent { return Broken; }
      slots[i] := slots[i].(sent := slots[i].sent + n);
      active[i] := now;
      if slots[i].sent < slots[i].length {
        ArmSend(i);
      } else {
        slots[i] := slots[i].(length := 0, sent := 0);
        ArmRecv(i);
      }
    }

    method Completed(c: Completion, now: nat) returns (fate: Fate)
      requires Valid() && (c.token.kind == KRecv ==> c.res <= CAPACITY)
      modifies this, slots, active
      ensures match EchoWorker.Completed(old(Snapshot()), c)
              case Next(w) => fate == Goes && Snapshot() == w
              case Violation => fate == Broken
              case Harness => fate == Failed
    {
      hide StopFrom, Received, EchoWorker.End, EchoWorker.Finish;
      fate := Goes;
      var kind, i := c.token.kind, c.token.slot;
      if kind == KHanded {
        fate := Take(c.res, now);
        return;
      }
      if kind == KStop {
        StopAll();
        return;
      }
      if kind == KTold { return if c.res < 0 then Failed else Goes; }
      if i >= SLOTS || (kind != KRecv && kind != KSend && kind != KCancel) { return Broken; }
      if slots[i].fd < 0 || c.token.gen != slots[i].gen || slots[i].ops == 0 { return Broken; }
      assert SlotShaped(slots[..][i]);
      slots[i] := slots[i].(ops := slots[i].ops - 1);
      assert Snapshot() == Put(old(Snapshot()), i, slots[i]);
      if slots[i].closing || kind == KCancel {
        if slots[i].closing && slots[i].ops == 0 { Finish(i); }
        return;
      }
      if c.res <= 0 {
        End(i);
        return;
      }
      fate := Moved(i, kind, c.res, now);
    }

    /** The connections idle past their time ended; the least time left of the others, -1 when there are none. */
    method Expire(now: nat) returns (next: int)
      requires slots.Length == active.Length
      modifies this, slots
      ensures Snapshot() == ExpireFrom(old(Snapshot()), active[..], now, idle, 0)
      ensures NextDeadline(old(slots[..]), active[..], now, idle, next)
    {
      hide EchoWorker.End, NextDeadline;
      NoneWaits(now, idle);
      next := -1;
      var i := 0;
      while i < slots.Length
        invariant i <= slots.Length
        invariant ExpireFrom(Snapshot(), active[..], now, idle, i)
               == ExpireFrom(old(Snapshot()), active[..], now, idle, 0)
        invariant slots[..][i..] == old(slots[..])[i..]
        invariant NextDeadline(old(slots[..])[..i], active[..][..i], now, idle, next)
      {
        ghost var before := Snapshot();
        assert slots[i] == slots[..][i..][0] == old(slots[..])[i];
        NextMore(old(slots[..]), active[..], now, idle, next, i);
        if slots[i].fd < 0 || slots[i].closing {
        } else if now - active[i] >= idle {
          End(i);
          EndsOne(before, i);
        } else {
          var left := active[i] + idle - now;
          if next < 0 || left < next { next := left; }
        }
        assert slots[..][i + 1..] == before.slots[i..][1..] == old(slots[..])[i..][1..];
        i := i + 1;
      }
      assert slots.Length == i && active[..][..i] == active[..] && old(slots[..])[..i] == old(slots[..]);
    }

    /** Every completion there is, taken and acted on. With no more admitted than there are slots none is a violation,
        and the invariant of the slots is kept to the end. */
    method Drain(now: nat) returns (fate: Fate)
      requires Valid() && Inv(Snapshot()) && |Claims(Snapshot())| <= SLOTS
      modifies this, slots, active
      ensures fate != Broken
      ensures fate == Goes ==>
        ring.cq == [] && Valid() && Inv(Snapshot()) && |Claims(Snapshot())| == old(|Claims(Snapshot())|)
    {
      fate := Goes;
      while |ring.cq| > 0
        invariant fate == Goes && Valid() && Inv(Snapshot())
        invariant |Claims(Snapshot())| == old(|Claims(Snapshot())|)
        decreases |ring.cq|
      {
        fate := TakeOne(now);
        if fate != Goes { return; }
      }
    }

    /** The next completion, taken off the queue and acted on. */
    method TakeOne(now: nat) returns (fate: Fate)
      requires Valid() && Inv(Snapshot()) && |Claims(Snapshot())| <= SLOTS && |ring.cq| > 0
      modifies this, slots, active
      ensures fate != Broken
      ensures fate == Goes ==> ring.cq == old(ring.cq[1..]) && Valid() && Inv(Snapshot())
      ensures fate == Goes ==> |Claims(Snapshot())| == old(|Claims(Snapshot())|)
    {
      hide Gather, Claims, Inv, EchoWorker.Completed;
      ghost var w := Snapshot();
      RoomHere(w);
      ReapCounts(w);
      var c := ring.cq[0];
      ring := ring.(cq := ring.cq[1..]);
      if !Foreign(c.token.kind) {
        if ring.live == 0 { return Broken; }
        ring := ring.(live := ring.live - 1);
      }
      assert Reap(w) == EchoWorker.Completed(Snapshot(), c);
      fate := Completed(c, now);
    }
  }

  lemma RoomHere(w: Worker)
    requires Inv(w) && |Claims(w)| <= SLOTS
    ensures |w.ring.cq| > 0 && w.ring.cq[0].token.kind == KHanded ==> w.held < SLOTS
  {
    hide Gather;
    if |w.ring.cq| > 0 && w.ring.cq[0].token.kind == KHanded {
      GatherHas(w.ring.cq, 0, CompletionClaims);
      var part := multiset{w.ring.cq[0].res} + Gather(w.slots, SlotClaims);
      assert Claims(w) == part + (Claims(w) - part);
    }
  }

  lemma InvShaped(w: Worker)
    requires Inv(w)
    ensures Shaped(w)
    ensures |w.ring.cq| > 0 && w.ring.cq[0].token.kind == KRecv ==> w.ring.cq[0].res <= CAPACITY
  {
    hide Gather, Claims, Counted, Current;
    if |w.ring.cq| > 0 { assert CompletionOk(w.ring.cq[0], w.slots); }
  }

  lemma ReapCounts(w: Worker)
    requires Inv(w) && |w.ring.cq| > 0 && (w.ring.cq[0].token.kind == KHanded ==> w.held < SLOTS)
    ensures Shaped(w) && (w.ring.cq[0].token.kind == KRecv ==> w.ring.cq[0].res <= CAPACITY)
    ensures !Reap(w).Violation?
    ensures Reap(w).Next? ==> var w' := Reap(w).value;
              |Claims(w')| == |Claims(w)| && Inv(w') && Shaped(w') && w'.ring.cq == w.ring.cq[1..]
  {
    hide Gather, Claims, Inv, Shaped, Reap;
    InvShaped(w);
    ReapKeeps(w);
    if Reap(w).Next? {
      var w' := Reap(w).value;
      InvShaped(w');
      TradedCount(w, w');
    }
  }

  /** A trade of a connection for a place given back leaves as many claims. */
  lemma TradedCount(w: Worker, w': Worker)
    requires Traded(w, w')
    ensures |Claims(w')| == |Claims(w)|
  {
    hide Gather, Claims;
    if w'.shut[|w.shut|..] != [] {
      var fd := w'.shut[|w.shut|..][0];
      assert |Claims(w') + multiset{fd}| == |Claims(w) + multiset{-1}|;
    }
  }
}
