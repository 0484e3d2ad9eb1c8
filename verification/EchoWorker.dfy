/** One worker thread of the io_uring echo host: its slots, what it submits to its ring and what it does with each
    completion. The pure functions are the steps; class `WorkerThread` runs the same steps on fields it updates. */
module EchoWorker {
  import opened Gathering

  const SLOTS: nat := 32
  const CAPACITY: nat := 4096
  const GENERATIONS: nat := 0x1_0000_0000

  type byte = n: int | 0 <= n < 256

  /** The kinds a completion's token carries, for a worker's ring and for the main thread's. */
  datatype Kind = KRecv | KSend | KCancel | KAccept | KSignal | KTold | KHanded | KFreed | KStop

  datatype Token = Token(kind: Kind, slot: nat, gen: nat)

  /** What one ring posts on another: a connection handed over, a place given back, the order to stop. */
  datatype Message = Handed(fd: int) | Freed(worker: nat) | StopNow

  datatype Receiver = MainRing | WorkerRing(index: nat)

  /** A submission: its token and what the kernel is asked to do. `off` and `len` place a send inside `out`. */
  datatype Op =
    | Recv(slot: nat, gen: nat, fd: int)
    | Send(slot: nat, gen: nat, fd: int, off: nat, len: nat)
    | CancelFd(slot: nat, gen: nat, fd: int)
    | Tell(mark: nat, gen: nat, to: Receiver, message: Message)
    | Accept
    | PollSignal
    | CancelOp(which: nat)

  function TokenOf(op: Op): Token {
    match op
    case Recv(i, g, _) => Token(KRecv, i, g)
    case Send(i, g, _, _, _) => Token(KSend, i, g)
    case CancelFd(i, g, _) => Token(KCancel, i, g)
    case Tell(m, g, _, _) => Token(KTold, m, g)
    case Accept => Token(KAccept, 0, 0)
    case PollSignal => Token(KSignal, 0, 0)
    case CancelOp(n) => Token(KCancel, n, 0)
  }

  datatype Completion = Completion(token: Token, res: int)

  /** A ring: entries prepared and not yet taken by the kernel, operations the kernel has, completions not yet
      reaped, and the count of operations the owner believes live. */
  datatype Ring = Ring(sq: seq<Op>, flight: seq<Op>, cq: seq<Completion>, live: nat)

  const EmptyRing := Ring([], [], [], 0)

  function Push(r: Ring, op: Op): Ring {
    r.(sq := r.sq + [op], live := r.live + 1)
  }

  /** `received` and `delivered` are the octets the kernel has moved on the connection the slot holds. */
  datatype Slot = Slot(fd: int, gen: nat, ops: nat, closing: bool, inb: seq<byte>, out: seq<byte>,
                       length: nat, sent: nat, received: seq<byte>, delivered: seq<byte>)

  /** `shut` lists the descriptors the thread has closed, in order. */
  datatype Worker = Worker(index: nat, writeChunk: nat, ring: Ring, slots: seq<Slot>, held: int, stopping: bool,
                           shut: seq<int>)

  /** A handler's outcome: the state it leaves, a broken invariant the code reports, or a failure of the kernel's. */
  datatype Outcome<+T> = Next(value: T) | Violation | Harness

  function Put(w: Worker, i: nat, s: Slot): Worker
    requires i < |w.slots|
  {
    w.(slots := w.slots[i := s])
  }

  function ArmRecv(w: Worker, i: nat): Worker
    requires i < |w.slots|
  {
    var s := w.slots[i];
    Put(w, i, s.(ops := s.ops + 1)).(ring := Push(w.ring, Recv(i, s.gen, s.fd)))
  }

  function Chunk(w: Worker, s: Slot): nat
    requires s.sent <= s.length
  {
    if s.length - s.sent < w.writeChunk then s.length - s.sent else w.writeChunk
  }

  function ArmSend(w: Worker, i: nat): Worker
    requires i < |w.slots| && w.slots[i].sent <= w.slots[i].length
  {
    var s := w.slots[i];
    Put(w, i, s.(ops := s.ops + 1)).(ring := Push(w.ring, Send(i, s.gen, s.fd, s.sent, Chunk(w, s))))
  }

  function Finish(w: Worker, i: nat): Worker
    requires i < |w.slots|
  {
    var s := w.slots[i];
    Put(w, i, s.(fd := -1, closing := false, length := 0, sent := 0))
      .(held := w.held - 1, shut := w.shut + [s.fd],
        ring := Push(w.ring, Tell(i, 0, MainRing, Freed(w.index))))
  }

  function End(w: Worker, i: nat): Worker
    requires i < |w.slots|
  {
    var s := w.slots[i];
    if s.closing then w
    else if s.ops == 0 then Finish(Put(w, i, s.(closing := true)), i)
    else Put(w, i, s.(closing := true, ops := s.ops + 1)).(ring := Push(w.ring, CancelFd(i, s.gen, s.fd)))
  }

  /** The first slot with neither a descriptor nor an operation, SLOTS when there is none. */
  function FreeFrom(slots: seq<Slot>, i: nat): (k: nat)
    requires i <= |slots|
    ensures i <= k <= |slots|
    ensures k < |slots| ==> slots[k].fd < 0 && slots[k].ops == 0
    ensures forall j :: i <= j < k ==> slots[j].fd >= 0 || slots[j].ops != 0
    decreases |slots| - i
  {
    if i == |slots| then i
    else if slots[i].fd >= 0 || slots[i].ops != 0 then FreeFrom(slots, i + 1)
    else i
  }

  function Take(w: Worker, fd: int): Outcome<Worker> {
    var i := FreeFrom(w.slots, 0);
    if i == |w.slots| then Violation
    else
      var s := w.slots[i];
      var w1 := Put(w, i, s.(fd := fd, gen := (s.gen + 1) % GENERATIONS, length := 0, sent := 0,
                             received := [], delivered := [])).(held := w.held + 1);
      Next(if w.stopping then End(w1, i) else ArmRecv(w1, i))
  }

  function StopFrom(w: Worker, k: nat): (w': Worker)
    requires k <= |w.slots|
    ensures |w'.slots| == |w.slots|
    decreases |w.slots| - k
  {
    if k == |w.slots| then w
    else StopFrom(if w.slots[k].fd >= 0 then End(w, k) else w, k + 1)
  }

  /** A receive of `got` octets: the echo program copies them, and their sending begins. */
  function Received(w: Worker, i: nat, got: nat): Worker
    requires i < |w.slots| && got <= |w.slots[i].inb| && got <= |w.slots[i].out|
  {
    var s := w.slots[i];
    ArmSend(Put(w, i, s.(out := s.inb[..got] + s.out[got..], length := got, sent := 0)), i)
  }

  /** A send that took `n` octets: the rest is sent, or the next receive begins. */
  function SentSome(w: Worker, i: nat, n: nat): Outcome<Worker>
    requires i < |w.slots| && w.slots[i].sent <= w.slots[i].length
  {
    var s := w.slots[i];
    if n > s.length - s.sent then Violation
    else if s.sent + n < s.length then Next(ArmSend(Put(w, i, s.(sent := s.sent + n)), i))
    else Next(ArmRecv(Put(w, i, s.(length := 0, sent := 0)), i))
  }

  /** The buffers have their size and no more is sent than they hold. */
  predicate SlotShaped(s: Slot) {
    |s.inb| == |s.out| == CAPACITY && s.sent <= s.length <= CAPACITY
  }

  predicate Shaped(w: Worker) {
    |w.slots| == SLOTS && forall i :: 0 <= i < SLOTS ==> SlotShaped(w.slots[i])
  }

  /** One completion. A receive never takes more than the buffer it was given. */
  function Completed(w: Worker, c: Completion): Outcome<Worker>
    requires Shaped(w) && (c.token.kind == KRecv ==> c.res <= CAPACITY)
  {
    var t := c.token;
    if t.kind == KHanded then Take(w, c.res)
    else if t.kind == KStop then Next(StopFrom(w.(stopping := true), 0))
    else if t.kind == KTold then if c.res < 0 then Harness else Next(w)
    else if t.slot >= SLOTS || (t.kind != KRecv && t.kind != KSend && t.kind != KCancel) then Violation
    else
      var i, s := t.slot, w.slots[t.slot];
      if s.fd < 0 || t.gen != s.gen || s.ops == 0 then Violation
      else
        var s1 := s.(ops := s.ops - 1);
        var w1 := Put(w, i, s1);
        if s.closing || t.kind == KCancel then
          Next(if s.closing && s1.ops == 0 then Finish(w1, i) else w1)
        else if c.res <= 0 then Next(End(w1, i))
        else if t.kind == KRecv then Next(Received(w1, i, c.res))
        else SentSome(w1, i, c.res)
  }

  /** The completions other rings' messages post, which no submission of this ring is behind. */
  predicate Foreign(kind: Kind) { kind == KHanded || kind == KStop }

  /** The next completion taken off the queue and acted on; `Violation` too when nothing was live. */
  function Reap(w: Worker): Outcome<Worker>
    requires Shaped(w) && |w.ring.cq| > 0
    requires w.ring.cq[0].token.kind == KRecv ==> w.ring.cq[0].res <= CAPACITY
  {
    var c, rest := w.ring.cq[0], w.ring.(cq := w.ring.cq[1..]);
    if Foreign(c.token.kind) then Completed(w.(ring := rest), c)
    else if w.ring.live == 0 then Violation
    else Completed(w.(ring := rest.(live := w.ring.live - 1)), c)
  }

  /** The kernel takes the first entry of the queue and keeps it to complete later. */
  function Submit(w: Worker): Worker
    requires |w.ring.sq| > 0
  {
    w.(ring := w.ring.(sq := w.ring.sq[1..], flight := w.ring.flight + [w.ring.sq[0]]))
  }

  /** What the kernel may answer to an operation: no more octets than there is room or were given. */
  predicate Answers(op: Op, res: int, data: seq<byte>) {
    match op
    case Recv(_, _, _) => res <= CAPACITY && (res > 0 ==> |data| == res)
    case Send(_, _, _, _, len) => res <= len
    case _ => true
  }

  /** A slot once the kernel has ended one of its operations: a receive wrote its buffer, a send read it. */
  function Moved(s: Slot, op: Op, res: int, data: seq<byte>): Slot
    requires Answers(op, res, data)
    requires (op.Recv? ==> |s.inb| == CAPACITY) && (op.Send? ==> op.off + op.len <= |s.out|)
  {
    if op.Recv? && res > 0 then s.(inb := data + s.inb[res..], received := s.received + data)
    else if op.Send? && res > 0 then s.(delivered := s.delivered + s.out[op.off..op.off + res])
    else s
  }

  /** Operation `j` ends with `res`, in any order with the others. */
  function Landed(r: Ring, j: nat, res: int): Ring
    requires j < |r.flight|
  {
    r.(flight := r.flight[..j] + r.flight[j + 1..], cq := r.cq + [Completion(TokenOf(r.flight[j]), res)])
  }

  predicate OnSlots(op: Op, slots: seq<Slot>) {
    && (op.Recv? || op.Send? || op.CancelFd?) && op.slot < |slots|
    && (op.Recv? ==> |slots[op.slot].inb| == CAPACITY)
    && (op.Send? ==> op.off + op.len <= |slots[op.slot].out|)
  }

  function Complete(w: Worker, j: nat, res: int, data: seq<byte>): Worker
    requires j < |w.ring.flight| && Answers(w.ring.flight[j], res, data) && OnSlots(w.ring.flight[j], w.slots)
  {
    var op := w.ring.flight[j];
    Put(w, op.slot, Moved(w.slots[op.slot], op, res, data)).(ring := Landed(w.ring, j, res))
  }

  function FreshSlot(): Slot {
    Slot(-1, 0, 0, false, seq(CAPACITY, _ => 0), seq(CAPACITY, _ => 0), 0, 0, [], [])
  }

  /** A worker as its thread starts. */
  function FreshWorker(k: nat, chunk: nat): Worker {
    Worker(k, chunk, EmptyRing, seq(SLOTS, _ => FreshSlot()), 0, false, [])
  }
}
