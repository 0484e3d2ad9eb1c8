/** What every step of a worker keeps: each slot's count is exactly its unreaped operations, all of its own generation,
    and what was received on a connection is what was sent on it and what is still to send. */
module EchoSlots {
  import opened Gathering
  import opened EchoWorker

  predicate OnSlot(k: Kind) { k == KRecv || k == KSend || k == KCancel }

  function OpTokens(op: Op): multiset<Token> { multiset{TokenOf(op)} }

  function CompletionTokens(c: Completion): multiset<Token> {
    if Foreign(c.token.kind) then multiset{} else multiset{c.token}
  }

  /** The ring's own operations that are not reaped: prepared, in flight or completed. */
  function Unreaped(r: Ring): multiset<Token> {
    Gather(r.sq, OpTokens) + Gather(r.flight, OpTokens) + Gather(r.cq, CompletionTokens)
  }

  /** What a slot counts towards those admitted: the descriptor it holds. */
  function SlotClaims(s: Slot): multiset<int> { if s.fd >= 0 then multiset{s.fd} else multiset{} }

  /** What the worker's entries count towards those admitted: handed over, held, given back (-1). */
  function OpClaims(op: Op): multiset<int> {
    if op.Tell? && op.message.Freed? then multiset{-1}
    else if op.Tell? && op.message.Handed? then multiset{op.message.fd}
    else multiset{}
  }

  function CompletionClaims(c: Completion): multiset<int> {
    if c.token.kind == KHanded then multiset{c.res}
    else if c.token.kind == KTold && c.res < 0 then multiset{-1}
    else multiset{}
  }

  function Claims(w: Worker): multiset<int> {
    Gather(w.ring.sq, OpClaims) + Gather(w.ring.cq, CompletionClaims) + Gather(w.slots, SlotClaims)
  }

  predicate SlotOk(s: Slot, i: nat, u: multiset<Token>) {
    var r, d, c := u[Token(KRecv, i, s.gen)], u[Token(KSend, i, s.gen)], u[Token(KCancel, i, s.gen)];
    && s.gen < GENERATIONS
    && s.ops == r + d + c
    && (s.fd < 0 ==> s.ops == 0 && !s.closing)
    && (s.fd >= 0 && !s.closing ==> c == 0 && r + d == 1)
    && (s.closing ==> s.ops >= 1 && c <= 1 && r + d <= 1)
  }

  /** A slot whose operations are all reaped and which is about to be given a new one or let go. */
  predicate QuietSlot(s: Slot, i: nat, u: multiset<Token>) {
    && s.gen < GENERATIONS && s.ops == 0 && s.fd >= 0
    && u[Token(KRecv, i, s.gen)] == u[Token(KSend, i, s.gen)] == u[Token(KCancel, i, s.gen)] == 0
  }

  /** Every unreaped operation on a slot is of the slot's own generation. */
  predicate Current(slots: seq<Slot>, u: multiset<Token>) {
    forall t :: t in u && OnSlot(t.kind) ==> t.slot < |slots| && t.gen == slots[t.slot].gen
  }

  predicate Counted(slots: seq<Slot>, u: multiset<Token>) {
    forall i {:trigger SlotOk(slots[i], i, u)} :: 0 <= i < |slots| ==> SlotOk(slots[i], i, u)
  }

  predicate CountedBut(slots: seq<Slot>, u: multiset<Token>, q: nat) {
    && q < |slots| && QuietSlot(slots[q], q, u)
    && forall i {:trigger SlotOk(slots[i], i, u)} :: 0 <= i < |slots| && i != q ==> SlotOk(slots[i], i, u)
  }

  /** Nothing but what was received is delivered; an operation's place in the echo is the slot's. */
  predicate OpOk(op: Op, slots: seq<Slot>, index: nat) {
    match op
    case Recv(i, _, fd) =>
      i < |slots| && var s := slots[i];
      0 <= fd == s.fd && (!s.closing ==> s.length == s.sent == 0 && s.received == s.delivered)
    case Send(i, _, fd, off, len) =>
      i < |slots| && var s := slots[i];
      && 0 <= fd == s.fd && 1 <= len && off == s.sent && off + len <= s.length <= |s.out|
      && s.delivered + s.out[off..off + len] <= s.received
      && (!s.closing ==> s.received == s.delivered + s.out[s.sent..s.length])
    case CancelFd(i, _, fd) => i < |slots| && 0 <= fd == slots[i].fd && slots[i].closing
    case Tell(_, g, to, m) => g == 0 && to == MainRing && m == Freed(index)
    case _ => false
  }

  predicate CompletionOk(c: Completion, slots: seq<Slot>) {
    match c.token.kind
    case KRecv =>
      c.token.slot < |slots| && c.res <= CAPACITY && var s := slots[c.token.slot];
      !s.closing ==> s.length == s.sent == 0 && |s.inb| == CAPACITY &&
                     s.received == s.delivered + (if c.res > 0 then s.inb[..c.res] else [])
    case KSend =>
      c.token.slot < |slots| && var s := slots[c.token.slot];
      !s.closing ==> c.res <= s.length - s.sent && s.sent < s.length <= |s.out| &&
                     s.received == s.delivered + s.out[s.sent + (if c.res > 0 then c.res else 0)..s.length]
    case KCancel => c.token.slot < |slots| && slots[c.token.slot].closing
    case KTold => true
    case KHanded => c.res >= 0
    case KStop => true
    case _ => false
  }

  predicate OpsOk(ops: seq<Op>, slots: seq<Slot>, index: nat) {
    forall k {:trigger OpOk(ops[k], slots, index)} :: 0 <= k < |ops| ==> OpOk(ops[k], slots, index)
  }

  predicate CompletionsOk(cq: seq<Completion>, slots: seq<Slot>) {
    forall k {:trigger CompletionOk(cq[k], slots)} :: 0 <= k < |cq| ==> CompletionOk(cq[k], slots)
  }

  predicate NoTell(ops: seq<Op>) { forall k :: 0 <= k < |ops| ==> !ops[k].Tell? }

  predicate Prefixes(slots: seq<Slot>) { forall i :: 0 <= i < |slots| ==> slots[i].delivered <= slots[i].received }

  predicate QueuesOk(r: Ring, slots: seq<Slot>, index: nat) {
    && OpsOk(r.sq, slots, index)
    && OpsOk(r.flight, slots, index)
    && NoTell(r.flight)
    && CompletionsOk(r.cq, slots)
  }

  ghost predicate Base(w: Worker) {
    && Shaped(w)
    && 1 <= w.writeChunk <= CAPACITY
    && w.ring.live == |Unreaped(w.ring)|
    && w.held == |Gather(w.slots, SlotClaims)|
    && Prefixes(w.slots)
    && Current(w.slots, Unreaped(w.ring))
    && QueuesOk(w.ring, w.slots, w.index)
  }

  ghost predicate Inv(w: Worker) {
    Base(w) && Counted(w.slots, Unreaped(w.ring))
  }

  ghost predicate Quiet(w: Worker, q: nat) {
    Base(w) && CountedBut(w.slots, Unreaped(w.ring), q)
  }

  // ----- the queues as multisets -----

  lemma PushTokens(r: Ring, op: Op)
    ensures Unreaped(Push(r, op)) == Unreaped(r) + multiset{TokenOf(op)}
  {
    hide Gather;
    GatherAppend(r.sq, op, OpTokens);
  }

  lemma QueuedTokens(r: Ring)
    ensures forall k :: 0 <= k < |r.sq| ==> TokenOf(r.sq[k]) in Unreaped(r)
    ensures forall k :: 0 <= k < |r.flight| ==> TokenOf(r.flight[k]) in Unreaped(r)
    ensures forall k :: 0 <= k < |r.cq| && !Foreign(r.cq[k].token.kind) ==> r.cq[k].token in Unreaped(r)
  {
    hide Gather;
    forall k | 0 <= k < |r.sq| ensures TokenOf(r.sq[k]) in Unreaped(r) { GatherHas(r.sq, k, OpTokens); }
    forall k | 0 <= k < |r.flight| ensures TokenOf(r.flight[k]) in Unreaped(r) { GatherHas(r.flight, k, OpTokens); }
    forall k | 0 <= k < |r.cq| && !Foreign(r.cq[k].token.kind) ensures r.cq[k].token in Unreaped(r) {
      GatherHas(r.cq, k, CompletionTokens);
    }
  }

  predicate Names(op: Op, i: nat) { (op.Recv? || op.Send? || op.CancelFd?) && op.slot == i }

  predicate NoneNames(r: Ring, i: nat) {
    && (forall k :: 0 <= k < |r.sq| ==> !Names(r.sq[k], i))
    && (forall k :: 0 <= k < |r.flight| ==> !Names(r.flight[k], i))
    && (forall k :: 0 <= k < |r.cq| ==> !(OnSlot(r.cq[k].token.kind) && r.cq[k].token.slot == i))
  }

  lemma QuietTokens(slots: seq<Slot>, u: multiset<Token>, q: nat, t: Token)
    requires Current(slots, u) && CountedBut(slots, u, q) && t in u && OnSlot(t.kind)
    ensures t.slot != q
  {
  }

  /** Nothing queued or in flight concerns a quiet slot. */
  lemma QuietNamed(r: Ring, slots: seq<Slot>, q: nat)
    requires Current(slots, Unreaped(r)) && CountedBut(slots, Unreaped(r), q)
    ensures NoneNames(r, q)
  {
    hide Gather;
    QueuedTokens(r);
    var u := Unreaped(r);
    forall k | 0 <= k < |r.sq| ensures !Names(r.sq[k], q) {
      if OnSlot(TokenOf(r.sq[k]).kind) { QuietTokens(slots, u, q, TokenOf(r.sq[k])); }
    }
    forall k | 0 <= k < |r.flight| ensures !Names(r.flight[k], q) {
      if OnSlot(TokenOf(r.flight[k]).kind) { QuietTokens(slots, u, q, TokenOf(r.flight[k])); }
    }
    forall k | 0 <= k < |r.cq| ensures !(OnSlot(r.cq[k].token.kind) && r.cq[k].token.slot == q) {
      if OnSlot(r.cq[k].token.kind) { QuietTokens(slots, u, q, r.cq[k].token); }
    }
  }

  /** A slot nothing names may change without the queues noticing. */
  lemma QueuesCarry(r: Ring, slots: seq<Slot>, q: nat, s: Slot, index: nat)
    requires QueuesOk(r, slots, index) && q < |slots| && NoneNames(r, q)
    ensures QueuesOk(r, slots[q := s], index)
  {
    hide Gather;
    var slots' := slots[q := s];
    forall k | 0 <= k < |r.sq| ensures OpOk(r.sq[k], slots', index) {
      assert OpOk(r.sq[k], slots, index) && !Names(r.sq[k], q);
    }
    forall k | 0 <= k < |r.flight| ensures OpOk(r.flight[k], slots', index) {
      assert OpOk(r.flight[k], slots, index) && !Names(r.flight[k], q);
    }
    forall k | 0 <= k < |r.cq| ensures CompletionOk(r.cq[k], slots') {
      assert CompletionOk(r.cq[k], slots);
    }
  }

  lemma QueuesPush(r: Ring, slots: seq<Slot>, op: Op, index: nat)
    requires QueuesOk(r, slots, index) && OpOk(op, slots, index)
    ensures QueuesOk(Push(r, op), slots, index)
  {
  }

  lemma SameClaims(slots: seq<Slot>, q: nat, s: Slot)
    requires q < |slots| && (s.fd == slots[q].fd || (s.fd < 0 && slots[q].fd < 0))
    ensures Gather(slots[q := s], SlotClaims) == Gather(slots, SlotClaims)
  {
    hide Gather;
    GatherUpdate(slots, q, s, SlotClaims);
    CancelSum(Gather(slots[q := s], SlotClaims), Gather(slots, SlotClaims), SlotClaims(s));
  }

  /** A quiet slot's contents matter to no other. */
  lemma QuietChange(w: Worker, q: nat, s: Slot)
    requires Quiet(w, q)
    requires |s.inb| == |s.out| == CAPACITY && s.sent <= s.length <= CAPACITY && s.delivered <= s.received
    requires s.fd == w.slots[q].fd && s.ops == 0 && s.gen == w.slots[q].gen
    ensures Quiet(Put(w, q, s), q)
    ensures Gather(Put(w, q, s).slots, SlotClaims) == Gather(w.slots, SlotClaims)
  {
    hide Gather;
    QuietNamed(w.ring, w.slots, q);
    QueuesCarry(w.ring, w.slots, q, s, w.index);
    SameClaims(w.slots, q, s);
  }

  /** The parts of the invariant put together for a state with one slot and the ring changed. */
  lemma Assembled(w: Worker, w': Worker, q: nat)
    requires Base(w) && q < SLOTS && w' == w.(ring := w'.ring, slots := w'.slots, held := w'.held, shut := w'.shut)
    requires |w'.slots| == SLOTS && w'.slots == w.slots[q := w'.slots[q]] && SlotShaped(w'.slots[q])
    requires w'.slots[q].delivered <= w'.slots[q].received
    requires w'.ring.live == |Unreaped(w'.ring)| && w'.held == |Gather(w'.slots, SlotClaims)|
    requires Current(w'.slots, Unreaped(w'.ring)) && QueuesOk(w'.ring, w'.slots, w.index)
    ensures Base(w')
  {
    hide Gather, Current, QueuesOk, Unreaped;
  }

  // ----- a quiet slot armed, or let go -----

  lemma ArmCount(slots: seq<Slot>, u: multiset<Token>, q: nat, kind: Kind)
    requires CountedBut(slots, u, q) && Current(slots, u) && !slots[q].closing && (kind == KRecv || kind == KSend)
    ensures var s, u' := slots[q].(ops := 1), u + multiset{Token(kind, q, slots[q].gen)};
            Counted(slots[q := s], u') && Current(slots[q := s], u')
  {
    hide Gather;
    var s, u' := slots[q].(ops := 1), u + multiset{Token(kind, q, slots[q].gen)};
    forall i | 0 <= i < |slots| && i != q ensures SlotOk(slots[i], i, u') { assert SlotOk(slots[i], i, u); }
  }

  lemma ArmKeeps(w: Worker, q: nat, op: Op)
    requires Quiet(w, q) && !w.slots[q].closing
    requires op.Recv? || op.Send?
    requires Names(op, q) && op.gen == w.slots[q].gen
    requires OpOk(op, w.slots[q := w.slots[q].(ops := 1)], w.index)
    ensures var w' := Put(w, q, w.slots[q].(ops := 1)).(ring := Push(w.ring, op));
            Inv(w') && Gather(w'.slots, SlotClaims) == Gather(w.slots, SlotClaims)
  {
    hide Gather;
    QuietNamed(w.ring, w.slots, q);
    PushTokens(w.ring, op);
    ArmCount(w.slots, Unreaped(w.ring), q, TokenOf(op).kind);
    var s := w.slots[q].(ops := 1);
    QueuesCarry(w.ring, w.slots, q, s, w.index);
    QueuesPush(w.ring, w.slots[q := s], op, w.index);
    SameClaims(w.slots, q, s);
    Assembled(w, Put(w, q, s).(ring := Push(w.ring, op)), q);
  }

  lemma ArmRecvKeeps(w: Worker, q: nat)
    requires Quiet(w, q) && !w.slots[q].closing
    requires w.slots[q].length == w.slots[q].sent == 0 && w.slots[q].received == w.slots[q].delivered
    ensures Inv(ArmRecv(w, q))
    ensures Gather(ArmRecv(w, q).slots, SlotClaims) == Gather(w.slots, SlotClaims)
  {
    hide Gather;
    var s := w.slots[q];
    assert ArmRecv(w, q) == Put(w, q, s.(ops := 1)).(ring := Push(w.ring, Recv(q, s.gen, s.fd)));
    ArmKeeps(w, q, Recv(q, s.gen, s.fd));
  }

  lemma ArmSendKeeps(w: Worker, q: nat)
    requires Quiet(w, q) && !w.slots[q].closing && w.slots[q].sent < w.slots[q].length
    requires SlotShaped(w.slots[q]) && var s := w.slots[q]; s.received == s.delivered + s.out[s.sent..s.length]
    ensures Inv(ArmSend(w, q))
    ensures Gather(ArmSend(w, q).slots, SlotClaims) == Gather(w.slots, SlotClaims)
  {
    hide Gather;
    var s := w.slots[q];
    var op := Send(q, s.gen, s.fd, s.sent, Chunk(w, s));
    assert ArmSend(w, q) == Put(w, q, s.(ops := 1)).(ring := Push(w.ring, op));
    SendOk(w.slots, q, Chunk(w, s), w.index);
    ArmKeeps(w, q, op);
  }

  lemma SendOk(slots: seq<Slot>, q: nat, len: nat, index: nat)
    requires q < |slots| && slots[q].fd >= 0 && SlotShaped(slots[q]) && 1 <= len <= slots[q].length - slots[q].sent
    requires var s := slots[q]; s.received == s.delivered + s.out[s.sent..s.length]
    ensures var s := slots[q]; OpOk(Send(q, s.gen, s.fd, s.sent, len), slots[q := s.(ops := 1)], index)
  {
    hide Gather;
    var s := slots[q];
    assert s.out[s.sent..s.length][..len] == s.out[s.sent..s.sent + len];
  }

  lemma FinishCount(slots: seq<Slot>, u: multiset<Token>, q: nat, s: Slot, t: Token)
    requires CountedBut(slots, u, q) && Current(slots, u) && t.kind == KTold
    requires s.fd < 0 && s.ops == 0 && s.gen == slots[q].gen && !s.closing
    ensures Counted(slots[q := s], u + multiset{t}) && Current(slots[q := s], u + multiset{t})
  {
    hide Gather;
    forall i | 0 <= i < |slots| && i != q ensures SlotOk(slots[i], i, u + multiset{t}) {
      assert SlotOk(slots[i], i, u);
    }
  }

  lemma FinishKeeps(w: Worker, q: nat)
    requires Quiet(w, q)
    ensures Inv(Finish(w, q))
    ensures Gather(Finish(w, q).slots, SlotClaims) + multiset{w.slots[q].fd} == Gather(w.slots, SlotClaims)
  {
    hide Gather;
    QuietNamed(w.ring, w.slots, q);
    var op := Tell(q, 0, MainRing, Freed(w.index));
    PushTokens(w.ring, op);
    var s := Finish(w, q).slots[q];
    FinishCount(w.slots, Unreaped(w.ring), q, s, TokenOf(op));
    QueuesCarry(w.ring, w.slots, q, s, w.index);
    QueuesPush(w.ring, w.slots[q := s], op, w.index);
    GatherUpdate(w.slots, q, s, SlotClaims);
    assert |Gather(w.slots, SlotClaims)| == |Gather(w.slots[q := s], SlotClaims) + multiset{w.slots[q].fd}|;
    Assembled(w, Finish(w, q), q);
  }

  // ----- the kernel's steps -----

  /** A step that leaves the slots and what is unreaped alone keeps the invariant if it keeps the queues. */
  lemma RingOnly(w: Worker, r: Ring)
    requires Inv(w) && Unreaped(r) == Unreaped(w.ring) && r.live == w.ring.live && QueuesOk(r, w.slots, w.index)
    ensures Inv(w.(ring := r))
  {
  }

  lemma FirstOut(r: Ring)
    requires |r.sq| > 0
    ensures Unreaped(r) == Unreaped(r.(sq := r.sq[1..])) + multiset{TokenOf(r.sq[0])}
  {
    hide Gather;
    GatherRemove(r.sq, 0, OpTokens);
    assert r.sq[..0] + r.sq[1..] == r.sq[1..];
  }

  lemma SubmitKeeps(w: Worker)
    requires Inv(w) && |w.ring.sq| > 0 && !w.ring.sq[0].Tell?
    ensures Inv(Submit(w))
  {
    hide Gather;
    SubmitRing(w.ring, w.slots, w.index);
    SubmitTokens(w.ring);
    RingOnly(w, Submit(w).ring);
  }

  lemma OpsTail(ops: seq<Op>, slots: seq<Slot>, index: nat)
    requires |ops| > 0 && OpsOk(ops, slots, index)
    ensures OpsOk(ops[1..], slots, index) && OpOk(ops[0], slots, index)
  {
  }

  lemma OpsAppend(ops: seq<Op>, op: Op, slots: seq<Slot>, index: nat)
    requires OpsOk(ops, slots, index) && OpOk(op, slots, index)
    ensures OpsOk(ops + [op], slots, index)
  {
  }

  lemma SubmitTokens(r: Ring)
    requires |r.sq| > 0
    ensures Unreaped(r.(sq := r.sq[1..], flight := r.flight + [r.sq[0]])) == Unreaped(r)
  {
    hide Gather;
    FirstOut(r);
    GatherAppend(r.flight, r.sq[0], OpTokens);
  }

  lemma SubmitRing(r: Ring, slots: seq<Slot>, index: nat)
    requires QueuesOk(r, slots, index) && |r.sq| > 0 && !r.sq[0].Tell?
    ensures QueuesOk(r.(sq := r.sq[1..], flight := r.flight + [r.sq[0]]), slots, index)
  {
    hide Gather;
    OpsTail(r.sq, slots, index);
    OpsAppend(r.flight, r.sq[0], slots, index);
  }

  lemma ToldRing(r: Ring, c: Completion, slots: seq<Slot>, index: nat)
    requires QueuesOk(r, slots, index) && |r.sq| > 0 && CompletionOk(c, slots)
    ensures QueuesOk(r.(sq := r.sq[1..], cq := r.cq + [c]), slots, index)
  {
    hide Gather;
    OpsTail(r.sq, slots, index);
  }

  /** A message of the worker's, executed by the kernel as it is submitted: its own completion is posted. */
  function Told(w: Worker, res: int): Worker
    requires |w.ring.sq| > 0
  {
    w.(ring := w.ring.(sq := w.ring.sq[1..], cq := w.ring.cq + [Completion(TokenOf(w.ring.sq[0]), res)]))
  }

  lemma ToldKeeps(w: Worker, res: int)
    requires Inv(w) && |w.ring.sq| > 0 && w.ring.sq[0].Tell?
    ensures Inv(Told(w, res))
  {
    hide Gather;
    ToldTokens(w.ring, res);
    var r := w.ring.(sq := w.ring.sq[1..], cq := w.ring.cq + [Completion(TokenOf(w.ring.sq[0]), res)]);
    ToldRing(w.ring, Completion(TokenOf(w.ring.sq[0]), res), w.slots, w.index);
    RingOnly(w, r);
  }

  lemma PostedTokens(r: Ring, c: Completion)
    ensures Unreaped(r.(cq := r.cq + [c])) == Unreaped(r) + CompletionTokens(c)
  {
    hide Gather;
    GatherAppend(r.cq, c, CompletionTokens);
  }

  lemma ToldTokens(r: Ring, res: int)
    requires |r.sq| > 0 && r.sq[0].Tell?
    ensures Unreaped(r.(sq := r.sq[1..], cq := r.cq + [Completion(TokenOf(r.sq[0]), res)])) == Unreaped(r)
  {
    hide Gather;
    FirstOut(r);
    PostedTokens(r.(sq := r.sq[1..]), Completion(TokenOf(r.sq[0]), res));
  }

  /** A message of another ring's arrives. */
  function Arrive(w: Worker, c: Completion): Worker {
    w.(ring := w.ring.(cq := w.ring.cq + [c]))
  }

  lemma ArriveKeeps(w: Worker, c: Completion)
    requires Inv(w) && (c.token.kind == KStop || (c.token.kind == KHanded && c.res >= 0))
    ensures Inv(Arrive(w, c))
  {
    hide Gather;
    PostedTokens(w.ring, c);
    RingOnly(w, Arrive(w, c).ring);
  }

  predicate Moves(op: Op, i: nat) { (op.Recv? || op.Send?) && op.slot == i }

  predicate NoneMoves(r: Ring, i: nat) {
    && (forall k :: 0 <= k < |r.sq| ==> !Moves(r.sq[k], i))
    && (forall k :: 0 <= k < |r.flight| ==> !Moves(r.flight[k], i))
    && (forall k :: 0 <= k < |r.cq| ==>
          !((r.cq[k].token.kind == KRecv || r.cq[k].token.kind == KSend) && r.cq[k].token.slot == i))
  }

  lemma UnmovedNamed(r: Ring, slots: seq<Slot>, q: nat)
    requires Current(slots, Unreaped(r)) && q < |slots|
    requires Unreaped(r)[Token(KRecv, q, slots[q].gen)] == Unreaped(r)[Token(KSend, q, slots[q].gen)] == 0
    ensures NoneMoves(r, q)
  {
    hide Gather;
    QueuedTokens(r);
    forall k | 0 <= k < |r.sq| ensures !Moves(r.sq[k], q) { assert TokenOf(r.sq[k]) in Unreaped(r); }
    forall k | 0 <= k < |r.flight| ensures !Moves(r.flight[k], q) { assert TokenOf(r.flight[k]) in Unreaped(r); }
  }

  /** A slot no receive or send names may have its buffers changed. */
  lemma QueuesMoved(r: Ring, slots: seq<Slot>, q: nat, s: Slot, index: nat)
    requires QueuesOk(r, slots, index) && q < |slots| && NoneMoves(r, q)
    requires s.fd == slots[q].fd && s.closing == slots[q].closing
    ensures QueuesOk(r, slots[q := s], index)
  {
    hide Gather;
    var slots' := slots[q := s];
    forall k | 0 <= k < |r.sq| ensures OpOk(r.sq[k], slots', index) {
      assert OpOk(r.sq[k], slots, index) && !Moves(r.sq[k], q);
    }
    forall k | 0 <= k < |r.flight| ensures OpOk(r.flight[k], slots', index) {
      assert OpOk(r.flight[k], slots, index) && !Moves(r.flight[k], q);
    }
    forall k | 0 <= k < |r.cq| ensures CompletionOk(r.cq[k], slots') { assert CompletionOk(r.cq[k], slots); }
  }

  function Without(r: Ring, j: nat): Ring
    requires j < |r.flight|
  {
    r.(flight := r.flight[..j] + r.flight[j + 1..])
  }

  lemma LandedTokens(r: Ring, j: nat, res: int)
    requires j < |r.flight|
    ensures Unreaped(r) == Unreaped(Without(r, j)) + multiset{TokenOf(r.flight[j])}
    ensures !Foreign(TokenOf(r.flight[j]).kind) ==> Unreaped(Landed(r, j, res)) == Unreaped(r)
  {
    hide Gather;
    GatherRemove(r.flight, j, OpTokens);
    PostedTokens(Without(r, j), Completion(TokenOf(r.flight[j]), res));
  }

  lemma WithoutQueues(r: Ring, j: nat, slots: seq<Slot>, index: nat)
    requires QueuesOk(r, slots, index) && j < |r.flight|
    ensures QueuesOk(Without(r, j), slots, index)
  {
    hide Gather;
    var f := r.flight[..j] + r.flight[j + 1..];
    forall k | 0 <= k < |f| ensures OpOk(f[k], slots, index) && !f[k].Tell? {
      assert f[k] == if k < j then r.flight[k] else r.flight[k + 1];
    }
  }

  /** What a receive brought follows what was received; what a send took follows what was sent. */
  lemma MovedOctets(slots: seq<Slot>, i: nat, op: Op, res: int, data: seq<byte>, index: nat)
    requires i < |slots| && SlotShaped(slots[i]) && slots[i].delivered <= slots[i].received
    requires Names(op, i) && OpOk(op, slots, index) && Answers(op, res, data)
    ensures var s := Moved(slots[i], op, res, data);
            && CompletionOk(Completion(TokenOf(op), res), slots[i := s])
            && SlotShaped(s) && s.delivered <= s.received
  {
    hide Gather;
    if op.Send? && res > 0 {
      SentOctets(slots[i], op, res);
    } else if op.Recv? && res > 0 {
      assert Moved(slots[i], op, res, data).inb[..res] == data;
    }
  }

  lemma SentOctets(s: Slot, op: Op, n: nat)
    requires op.Send? && 0 < n <= op.len && op.off + op.len <= |s.out|
    requires s.delivered + s.out[op.off..op.off + op.len] <= s.received
    ensures s.delivered + s.out[op.off..op.off + n] <= s.received
    ensures op.off == s.sent && op.off + op.len <= s.length <= |s.out| &&
            s.received == s.delivered + s.out[s.sent..s.length] ==>
              s.received == s.delivered + s.out[op.off..op.off + n] + s.out[s.sent + n..s.length]
  {
    hide Gather;
    assert s.out[op.off..op.off + op.len] == s.out[op.off..op.off + n] + s.out[op.off + n..op.off + op.len];
    if op.off == s.sent && op.off + op.len <= s.length <= |s.out| {
      assert s.out[s.sent..s.length] == s.out[s.sent..s.sent + n] + s.out[s.sent + n..s.length];
    }
  }

  lemma MovedCount(slots: seq<Slot>, i: nat, s: Slot, u: multiset<Token>)
    requires Counted(slots, u) && Current(slots, u) && i < |slots|
    requires s.gen == slots[i].gen && s.ops == slots[i].ops && s.fd == slots[i].fd && s.closing == slots[i].closing
    ensures Counted(slots[i := s], u) && Current(slots[i := s], u)
  {
    hide Gather;
    var slots' := slots[i := s];
    forall k | 0 <= k < |slots| ensures SlotOk(slots'[k], k, u) { assert SlotOk(slots[k], k, u); }
  }

  /** With operation `j` out of flight its slot has no receive or send left. */
  lemma LastMove(r: Ring, j: nat, slots: seq<Slot>)
    requires Current(slots, Unreaped(r)) && Counted(slots, Unreaped(r)) && j < |r.flight|
    requires (r.flight[j].Recv? || r.flight[j].Send?) && r.flight[j].slot < |slots|
    ensures NoneMoves(Without(r, j), r.flight[j].slot)
  {
    hide Gather;
    var i := r.flight[j].slot;
    QueuedTokens(r);
    LandedTokens(r, j, 0);
    assert TokenOf(r.flight[j]) in Unreaped(r);
    assert SlotOk(slots[i], i, Unreaped(r));
    assert forall t :: t in Unreaped(Without(r, j)) ==> t in Unreaped(r);
    UnmovedNamed(Without(r, j), slots, i);
  }

  lemma CompleteQueues(r: Ring, j: nat, res: int, data: seq<byte>, slots: seq<Slot>, index: nat)
    requires QueuesOk(r, slots, index) && Current(slots, Unreaped(r)) && Counted(slots, Unreaped(r))
    requires j < |r.flight| && Answers(r.flight[j], res, data) && OnSlots(r.flight[j], slots)
    requires var i := r.flight[j].slot; SlotShaped(slots[i]) && slots[i].delivered <= slots[i].received
    ensures var i := r.flight[j].slot; var s := Moved(slots[i], r.flight[j], res, data);
            QueuesOk(Landed(r, j, res), slots[i := s], index) && SlotShaped(s) && s.delivered <= s.received
  {
    hide Gather;
    var op := r.flight[j];
    var i := op.slot;
    var s := Moved(slots[i], op, res, data);
    assert OpOk(op, slots, index);
    WithoutQueues(r, j, slots, index);
    MovedOctets(slots, i, op, res, data, index);
    if op.CancelFd? {
      assert slots[i := s] == slots;
    } else {
      LastMove(r, j, slots);
      QueuesMoved(Without(r, j), slots, i, s, index);
    }
  }

  /** A slot's buffers and the ring changed, nothing else: the invariant is kept if the queues are. */
  lemma Reassembled(w: Worker, i: nat, s: Slot, r: Ring)
    requires Inv(w) && i < SLOTS && SlotShaped(s) && s.delivered <= s.received
    requires var o := w.slots[i]; s.gen == o.gen && s.ops == o.ops && s.fd == o.fd && s.closing == o.closing
    requires Unreaped(r) == Unreaped(w.ring) && r.live == w.ring.live && QueuesOk(r, w.slots[i := s], w.index)
    ensures Inv(Put(w, i, s).(ring := r))
    ensures Gather(Put(w, i, s).slots, SlotClaims) == Gather(w.slots, SlotClaims)
  {
    hide Gather;
    MovedCount(w.slots, i, s, Unreaped(w.ring));
    SameClaims(w.slots, i, s);
  }

  lemma FlightOk(w: Worker, j: nat)
    requires Inv(w) && j < |w.ring.flight|
    ensures OnSlots(w.ring.flight[j], w.slots) && SlotShaped(w.slots[w.ring.flight[j].slot])
    ensures w.slots[w.ring.flight[j].slot].delivered <= w.slots[w.ring.flight[j].slot].received
    ensures !Foreign(TokenOf(w.ring.flight[j]).kind)
  {
    hide Gather;
    var op := w.ring.flight[j];
    assert OpOk(op, w.slots, w.index) && !op.Tell?;
    assert SlotShaped(w.slots[op.slot]);
  }

  lemma CompleteKeeps(w: Worker, j: nat, res: int, data: seq<byte>)
    requires Inv(w) && j < |w.ring.flight| && Answers(w.ring.flight[j], res, data)
    ensures OnSlots(w.ring.flight[j], w.slots)
    ensures Inv(Complete(w, j, res, data))
    ensures Gather(Complete(w, j, res, data).slots, SlotClaims) == Gather(w.slots, SlotClaims)
  {
    hide Gather;
    FlightOk(w, j);
    var op := w.ring.flight[j];
    var s := Moved(w.slots[op.slot], op, res, data);
    var r := Landed(w.ring, j, res);
    LandedTokens(w.ring, j, res);
    CompleteQueues(w.ring, j, res, data, w.slots, w.index);
    Reassembled(w, op.slot, s, r);
    assert Complete(w, j, res, data) == Put(w, op.slot, s).(ring := r);
  }

  // ----- the worker's steps -----

  lemma ClosingQueues(r: Ring, slots: seq<Slot>, q: nat, s: Slot, index: nat)
    requires QueuesOk(r, slots, index) && q < |slots| && s == slots[q].(closing := true, ops := s.ops)
    ensures QueuesOk(r, slots[q := s], index)
  {
    hide Gather;
    var slots' := slots[q := s];
    forall k | 0 <= k < |r.sq| ensures OpOk(r.sq[k], slots', index) { assert OpOk(r.sq[k], slots, index); }
    forall k | 0 <= k < |r.flight| ensures OpOk(r.flight[k], slots', index) { assert OpOk(r.flight[k], slots, index); }
    forall k | 0 <= k < |r.cq| ensures CompletionOk(r.cq[k], slots') { assert CompletionOk(r.cq[k], slots); }
  }

  lemma EndCount(slots: seq<Slot>, u: multiset<Token>, q: nat)
    requires Counted(slots, u) && Current(slots, u) && q < |slots| && slots[q].fd >= 0 && !slots[q].closing
    ensures slots[q].ops == 1
    ensures var s, u' := slots[q].(closing := true, ops := 2), u + multiset{Token(KCancel, q, slots[q].gen)};
            Counted(slots[q := s], u') && Current(slots[q := s], u')
  {
    hide Gather;
    assert SlotOk(slots[q], q, u);
    var s, u' := slots[q].(closing := true, ops := 2), u + multiset{Token(KCancel, q, slots[q].gen)};
    forall i | 0 <= i < |slots| && i != q ensures SlotOk(slots[i], i, u') { assert SlotOk(slots[i], i, u); }
  }

  lemma PushClaims(r: Ring, op: Op)
    ensures Gather(Push(r, op).sq, OpClaims) == Gather(r.sq, OpClaims) + OpClaims(op)
  {
    hide Gather;
    GatherAppend(r.sq, op, OpClaims);
  }

  /** Nothing is closed, nothing reaped and the thread goes on as it did. */
  predicate Settled(w: Worker, w': Worker) {
    && w'.index == w.index && w'.stopping == w.stopping && w'.shut == w.shut && w'.ring.cq == w.ring.cq
    && w'.held == w.held && w'.writeChunk == w.writeChunk && |w'.slots| == |w.slots|
  }

  /** Ending a connection that has its receive or send in flight cancels it and closes nothing yet. */
  lemma EndKeeps(w: Worker, q: nat)
    requires Inv(w) && q < SLOTS && w.slots[q].fd >= 0
    ensures Inv(End(w, q)) && Settled(w, End(w, q))
  {
    hide Gather;
    if !w.slots[q].closing {
      EndCount(w.slots, Unreaped(w.ring), q);
      var s, op := w.slots[q].(closing := true, ops := 2), CancelFd(q, w.slots[q].gen, w.slots[q].fd);
      assert End(w, q) == Put(w, q, s).(ring := Push(w.ring, op));
      CancelKeeps(w, q, s, op);
    }
  }

  lemma EndClaims(w: Worker, q: nat)
    requires Inv(w) && q < SLOTS && w.slots[q].fd >= 0
    ensures Claims(End(w, q)) == Claims(w)
  {
    hide Gather;
    if !w.slots[q].closing {
      EndCount(w.slots, Unreaped(w.ring), q);
      var s, op := w.slots[q].(closing := true, ops := 2), CancelFd(q, w.slots[q].gen, w.slots[q].fd);
      assert End(w, q) == Put(w, q, s).(ring := Push(w.ring, op));
      PushClaims(w.ring, op);
      SameClaims(w.slots, q, s);
    }
  }

  lemma CancelKeeps(w: Worker, q: nat, s: Slot, op: Op)
    requires Inv(w) && q < SLOTS && w.slots[q].fd >= 0 && !w.slots[q].closing
    requires s == w.slots[q].(closing := true, ops := 2) && op == CancelFd(q, w.slots[q].gen, w.slots[q].fd)
    ensures Inv(Put(w, q, s).(ring := Push(w.ring, op)))
  {
    hide Gather;
    EndCount(w.slots, Unreaped(w.ring), q);
    PushTokens(w.ring, op);
    ClosingQueues(w.ring, w.slots, q, s, w.index);
    QueuesPush(w.ring, w.slots[q := s], op, w.index);
    SameClaims(w.slots, q, s);
    assert SlotShaped(w.slots[q]);
    Assembled(w, Put(w, q, s).(ring := Push(w.ring, op)), q);
  }

  lemma FreshCount(slots: seq<Slot>, u: multiset<Token>, i: nat, s: Slot)
    requires Counted(slots, u) && Current(slots, u) && i < |slots| && slots[i].fd < 0
    requires s.fd >= 0 && s.ops == 0 && s.gen == (slots[i].gen + 1) % GENERATIONS
    ensures CountedBut(slots[i := s], u, i) && Current(slots[i := s], u)
    ensures forall t :: t in u && OnSlot(t.kind) ==> t.slot != i
  {
    hide Gather;
    assert SlotOk(slots[i], i, u);
    forall t | t in u && OnSlot(t.kind) ensures t.slot != i {
      if t.slot == i { assert false; }
    }
  }

  lemma FreshNamed(r: Ring, i: nat)
    requires forall t :: t in Unreaped(r) && OnSlot(t.kind) ==> t.slot != i
    ensures NoneNames(r, i)
  {
    hide Gather;
    QueuedTokens(r);
    var u := Unreaped(r);
    forall k | 0 <= k < |r.sq| ensures !Names(r.sq[k], i) { assert TokenOf(r.sq[k]) in u; }
    forall k | 0 <= k < |r.flight| ensures !Names(r.flight[k], i) { assert TokenOf(r.flight[k]) in u; }
  }

  function Filled(w: Worker, i: nat, fd: int): Worker
    requires i < |w.slots|
  {
    var s := w.slots[i];
    Put(w, i, s.(fd := fd, gen := (s.gen + 1) % GENERATIONS, length := 0, sent := 0,
                 received := [], delivered := [])).(held := w.held + 1)
  }

  /** A connection put into a free slot starts a generation no operation is left of. */
  lemma FilledQuiet(w: Worker, i: nat, fd: int)
    requires Inv(w) && i < SLOTS && w.slots[i].fd < 0 && fd >= 0
    ensures Quiet(Filled(w, i, fd), i) && !Filled(w, i, fd).slots[i].closing
    ensures Gather(Filled(w, i, fd).slots, SlotClaims) == Gather(w.slots, SlotClaims) + multiset{fd}
  {
    hide Gather;
    var w' := Filled(w, i, fd);
    var s := w'.slots[i];
    assert SlotOk(w.slots[i], i, Unreaped(w.ring)) && SlotShaped(w.slots[i]);
    assert w'.slots == w.slots[i := s] && w'.ring == w.ring;
    FreshCount(w.slots, Unreaped(w.ring), i, s);
    FreshNamed(w.ring, i);
    QueuesCarry(w.ring, w.slots, i, s, w.index);
    GatherUpdate(w.slots, i, s, SlotClaims);
    assert Gather(w'.slots, SlotClaims) == Gather(w.slots, SlotClaims) + multiset{fd};
    Assembled(w, w', i);
  }

  /** A free slot exists while fewer than SLOTS are held. */
  lemma {:induction false} SomeFree(slots: seq<Slot>)
    requires |Gather(slots, SlotClaims)| < |slots|
    ensures exists i :: 0 <= i < |slots| && slots[i].fd < 0
  {
    if slots[0].fd >= 0 {
      SomeFree(slots[1..]);
      var i :| 0 <= i < |slots[1..]| && slots[1..][i].fd < 0;
      assert slots[i + 1].fd < 0;
    }
  }

  lemma EndQuiet(w: Worker, q: nat)
    requires Quiet(w, q) && !w.slots[q].closing
    ensures Inv(End(w, q)) && End(w, q).shut == w.shut + [w.slots[q].fd]
    ensures End(w, q).ring.cq == w.ring.cq
  {
    hide Gather;
    var s := w.slots[q].(closing := true);
    assert SlotShaped(w.slots[q]);
    QuietChange(w, q, s);
    assert End(w, q) == Finish(Put(w, q, s), q);
    FinishKeeps(Put(w, q, s), q);
  }

  lemma FinishClaims(w: Worker, q: nat)
    requires q < |w.slots| && w.slots[q].fd >= 0
    ensures Claims(Finish(w, q)) + multiset{w.slots[q].fd} == Claims(w) + multiset{-1}
  {
    hide Gather;
    var op, w' := Tell(q, 0, MainRing, Freed(w.index)), Finish(w, q);
    PushClaims(w.ring, op);
    GatherUpdate(w.slots, q, w'.slots[q], SlotClaims);
    Regroup(Gather(w.ring.sq, OpClaims), Gather(w.ring.cq, CompletionClaims), Gather(w.slots, SlotClaims),
            Gather(w'.ring.sq, OpClaims), Gather(w'.slots, SlotClaims), multiset{-1}, multiset{w.slots[q].fd});
  }

  lemma EndQuietClaims(w: Worker, q: nat)
    requires Quiet(w, q) && !w.slots[q].closing
    ensures Claims(End(w, q)) + multiset{w.slots[q].fd} == Claims(w) + multiset{-1}
  {
    hide Gather;
    var s := w.slots[q].(closing := true);
    SameClaims(w.slots, q, s);
    FinishClaims(Put(w, q, s), q);
    assert End(w, q) == Finish(Put(w, q, s), q);
  }

  lemma FreeSlot(w: Worker) returns (i: nat)
    requires Inv(w) && w.held < SLOTS
    ensures i == FreeFrom(w.slots, 0) < SLOTS && w.slots[i].fd < 0
  {
    hide Gather;
    SomeFree(w.slots);
    i := FreeFrom(w.slots, 0);
    var j :| 0 <= j < |w.slots| && w.slots[j].fd < 0;
    assert SlotOk(w.slots[j], j, Unreaped(w.ring));
  }

  /** A connection handed over is always given a slot; with the thread stopping it is closed at once. */
  lemma TakeKeeps(w: Worker, fd: int)
    requires Inv(w) && fd >= 0 && w.held < SLOTS
    ensures Take(w, fd).Next? && Inv(Take(w, fd).value)
    ensures Take(w, fd).value.shut == (if w.stopping then w.shut + [fd] else w.shut)
    ensures Take(w, fd).value.ring.cq == w.ring.cq
    ensures Take(w, fd).value.index == w.index && Take(w, fd).value.stopping == w.stopping
  {
    hide Gather;
    var i := FreeSlot(w);
    var w1 := Filled(w, i, fd);
    FilledQuiet(w, i, fd);
    assert Take(w, fd) == Next(if w.stopping then End(w1, i) else ArmRecv(w1, i));
    if w.stopping { EndQuiet(w1, i); } else { ArmRecvKeeps(w1, i); }
  }

  lemma TakeClaims(w: Worker, fd: int)
    requires Inv(w) && fd >= 0 && w.held < SLOTS
    ensures Take(w, fd).Next?
    ensures Claims(Take(w, fd).value) == Claims(w) + multiset{if w.stopping then -1 else fd}
  {
    hide Gather;
    var i := FreeSlot(w);
    var w1 := Filled(w, i, fd);
    FilledQuiet(w, i, fd);
    FilledClaims(w, i, fd);
    assert Take(w, fd) == Next(if w.stopping then End(w1, i) else ArmRecv(w1, i));
    if w.stopping {
      EndQuietClaims(w1, i);
      CancelSum(Claims(End(w1, i)), Claims(w) + multiset{-1}, multiset{fd});
    } else {
      ArmRecvClaims(w1, i);
    }
  }

  lemma FilledClaims(w: Worker, i: nat, fd: int)
    requires i < |w.slots| && w.slots[i].fd < 0 <= fd
    ensures Claims(Filled(w, i, fd)) == Claims(w) + multiset{fd}
  {
    hide Gather;
    var w' := Filled(w, i, fd);
    GatherUpdate(w.slots, i, w'.slots[i], SlotClaims);
    assert Gather(w'.slots, SlotClaims) == Gather(w.slots, SlotClaims) + multiset{fd};
  }

  lemma ArmRecvClaims(w: Worker, i: nat)
    requires i < |w.slots|
    ensures Claims(ArmRecv(w, i)) == Claims(w)
  {
    hide Gather;
    PushClaims(w.ring, Recv(i, w.slots[i].gen, w.slots[i].fd));
    SameClaims(w.slots, i, w.slots[i].(ops := w.slots[i].ops + 1));
  }

  lemma {:induction false} StopKeeps(w: Worker, k: nat)
    requires Inv(w) && k <= SLOTS
    ensures Inv(StopFrom(w, k)) && Settled(w, StopFrom(w, k))
    decreases SLOTS - k
  {
    hide Gather;
    if k < SLOTS {
      var w1 := w;
      if w.slots[k].fd >= 0 {
        EndKeeps(w, k);
        w1 := End(w, k);
      }
      StopKeeps(w1, k + 1);
      assert StopFrom(w, k) == StopFrom(w1, k + 1);
    }
  }

  lemma {:induction false} StopClaims(w: Worker, k: nat)
    requires Inv(w) && k <= SLOTS
    ensures Claims(StopFrom(w, k)) == Claims(w)
    decreases SLOTS - k
  {
    hide Gather;
    if k < SLOTS {
      var w1 := w;
      if w.slots[k].fd >= 0 {
        EndKeeps(w, k);
        EndClaims(w, k);
        w1 := End(w, k);
      }
      assert StopFrom(w, k) == StopFrom(w1, k + 1);
      StopClaims(w1, k + 1);
    }
  }

  // ----- one completion reaped -----

  function Popped(w: Worker): Worker
    requires |w.ring.cq| > 0
  {
    var rest := w.ring.(cq := w.ring.cq[1..]);
    w.(ring := if Foreign(w.ring.cq[0].token.kind) then rest
               else rest.(live := if w.ring.live > 0 then w.ring.live - 1 else 0))
  }

  lemma PoppedTokens(r: Ring)
    requires |r.cq| > 0
    ensures Unreaped(r) == Unreaped(r.(cq := r.cq[1..])) + CompletionTokens(r.cq[0])
    ensures Gather(r.cq, CompletionClaims) == Gather(r.cq[1..], CompletionClaims) + CompletionClaims(r.cq[0])
  {
    hide Gather;
    assert r.cq[..0] + r.cq[1..] == r.cq[1..];
    GatherRemove(r.cq, 0, CompletionTokens);
    GatherRemove(r.cq, 0, CompletionClaims);
  }

  lemma PoppedQueues(r: Ring, live: nat, slots: seq<Slot>, index: nat)
    requires QueuesOk(r, slots, index) && |r.cq| > 0
    ensures QueuesOk(r.(cq := r.cq[1..], live := live), slots, index) && CompletionOk(r.cq[0], slots)
  {
    hide Gather;
    var cq := r.cq[1..];
    forall k | 0 <= k < |cq| ensures CompletionOk(cq[k], slots) { assert CompletionOk(r.cq[k + 1], slots); }
    assert CompletionOk(r.cq[0], slots);
  }

  lemma PoppedLive(w: Worker)
    requires Inv(w) && |w.ring.cq| > 0 && !Foreign(w.ring.cq[0].token.kind)
    ensures w.ring.live > 0 && w.ring.live - 1 == |Unreaped(Popped(w).ring)|
    ensures Unreaped(w.ring) == Unreaped(Popped(w).ring) + multiset{w.ring.cq[0].token}
  {
    hide Gather;
    PoppedTokens(w.ring);
    assert |Unreaped(w.ring)| == |Unreaped(w.ring.(cq := w.ring.cq[1..])) + multiset{w.ring.cq[0].token}|;
  }

  /** Taking a message or the answer to one off the queue leaves everything else as it was. */
  lemma PoppedKeeps(w: Worker)
    requires Inv(w) && |w.ring.cq| > 0 && !OnSlot(w.ring.cq[0].token.kind)
    ensures Inv(Popped(w))
  {
    hide Gather;
    var r, r' := w.ring, Popped(w).ring;
    PoppedTokens(r);
    PoppedQueues(r, r'.live, w.slots, w.index);
    if !Foreign(r.cq[0].token.kind) { PoppedLive(w); }
    PoppedCount(w.slots, Unreaped(r), Unreaped(r'), r.cq[0].token);
    assert Popped(w) == w.(ring := r') && r' == r.(cq := r.cq[1..], live := r'.live);
  }

  lemma PoppedCount(slots: seq<Slot>, u: multiset<Token>, u': multiset<Token>, t: Token)
    requires Counted(slots, u) && Current(slots, u) && !OnSlot(t.kind) && (u == u' || u == u' + multiset{t})
    ensures Counted(slots, u') && Current(slots, u')
  {
    hide Gather;
    forall i | 0 <= i < |slots| ensures SlotOk(slots[i], i, u') { assert SlotOk(slots[i], i, u); }
  }

  /** The slot's count with one operation reaped. */
  function Reaped(w: Worker): Worker
    requires |w.ring.cq| > 0 && w.ring.cq[0].token.slot < |w.slots|
  {
    var i := w.ring.cq[0].token.slot;
    var s := w.slots[i];
    Put(Popped(w), i, s.(ops := if s.ops > 0 then s.ops - 1 else 0))
  }

  lemma ReapedCount(slots: seq<Slot>, u: multiset<Token>, u': multiset<Token>, t: Token)
    requires Counted(slots, u) && Current(slots, u) && OnSlot(t.kind) && u == u' + multiset{t}
    requires t.kind == KCancel ==> t.slot < |slots| && slots[t.slot].closing
    ensures t.slot < |slots| && var s := slots[t.slot]; s.fd >= 0 && t.gen == s.gen && s.ops > 0
    ensures var slots' := slots[t.slot := slots[t.slot].(ops := slots[t.slot].ops - 1)];
            && Current(slots', u')
            && (!slots[t.slot].closing || slots[t.slot].ops == 1 ==> CountedBut(slots', u', t.slot))
            && (slots[t.slot].closing && slots[t.slot].ops > 1 ==> Counted(slots', u'))
  {
    hide Gather;
    assert t in u;
    var q := t.slot;
    assert SlotOk(slots[q], q, u);
    forall i | 0 <= i < |slots| && i != q ensures SlotOk(slots[i], i, u') { assert SlotOk(slots[i], i, u); }
  }

  lemma CountQueues(r: Ring, slots: seq<Slot>, q: nat, s: Slot, index: nat)
    requires QueuesOk(r, slots, index) && q < |slots| && s == slots[q].(ops := s.ops)
    ensures QueuesOk(r, slots[q := s], index)
  {
    hide Gather;
    var slots' := slots[q := s];
    forall k | 0 <= k < |r.sq| ensures OpOk(r.sq[k], slots', index) { assert OpOk(r.sq[k], slots, index); }
    forall k | 0 <= k < |r.flight| ensures OpOk(r.flight[k], slots', index) { assert OpOk(r.flight[k], slots, index); }
    forall k | 0 <= k < |r.cq| ensures CompletionOk(r.cq[k], slots') { assert CompletionOk(r.cq[k], slots); }
  }

  /** A completion on a slot is of its generation and counted: the stale-completion report never fires. */
  lemma NeverStale(w: Worker)
    requires Inv(w) && |w.ring.cq| > 0 && OnSlot(w.ring.cq[0].token.kind)
    ensures w.ring.live > 0 && w.ring.cq[0].token.slot < SLOTS
    ensures w.slots[w.ring.cq[0].token.slot].fd >= 0 && w.slots[w.ring.cq[0].token.slot].ops > 0
    ensures w.ring.cq[0].token.gen == w.slots[w.ring.cq[0].token.slot].gen
    ensures CompletionOk(w.ring.cq[0], w.slots)
  {
    hide Gather;
    assert CompletionOk(w.ring.cq[0], w.slots);
    PoppedLive(w);
    ReapedCount(w.slots, Unreaped(w.ring), Unreaped(Popped(w).ring), w.ring.cq[0].token);
  }

  lemma PutKeeps(w: Worker, q: nat, s: Slot, r: Ring)
    requires Base(w) && q < SLOTS && SlotShaped(s) && s.delivered <= s.received && s.fd == w.slots[q].fd
    requires r.live == |Unreaped(r)| && Current(w.slots[q := s], Unreaped(r))
    requires QueuesOk(r, w.slots[q := s], w.index)
    ensures Base(Put(w, q, s).(ring := r))
  {
    hide Gather;
    SameClaims(w.slots, q, s);
  }

  lemma ReapedTokens(w: Worker)
    requires Inv(w) && |w.ring.cq| > 0 && OnSlot(w.ring.cq[0].token.kind)
    ensures w.ring.cq[0].token.slot < SLOTS && w.slots[w.ring.cq[0].token.slot].ops > 0
    ensures Popped(w).ring.live == |Unreaped(Popped(w).ring)|
    ensures var q := w.ring.cq[0].token.slot;
            var slots', u' := w.slots[q := w.slots[q].(ops := w.slots[q].ops - 1)], Unreaped(Popped(w).ring);
            && Current(slots', u')
            && (!w.slots[q].closing || w.slots[q].ops == 1 ==> CountedBut(slots', u', q))
            && (w.slots[q].closing && w.slots[q].ops > 1 ==> Counted(slots', u'))
  {
    hide Gather;
    NeverStale(w);
    PoppedLive(w);
    ReapedCount(w.slots, Unreaped(w.ring), Unreaped(Popped(w).ring), w.ring.cq[0].token);
  }

  lemma ReapedQueues(w: Worker)
    requires Inv(w) && |w.ring.cq| > 0 && OnSlot(w.ring.cq[0].token.kind) && w.ring.cq[0].token.slot < SLOTS
    requires w.slots[w.ring.cq[0].token.slot].ops > 0
    ensures var q := w.ring.cq[0].token.slot;
            QueuesOk(Popped(w).ring, w.slots[q := w.slots[q].(ops := w.slots[q].ops - 1)], w.index)
  {
    hide Gather;
    var r, q := w.ring, w.ring.cq[0].token.slot;
    var r' := Popped(w).ring;
    PoppedQueues(r, r'.live, w.slots, w.index);
    assert r' == r.(cq := r.cq[1..], live := r'.live);
    CountQueues(r', w.slots, q, w.slots[q].(ops := w.slots[q].ops - 1), w.index);
  }

  lemma ReapedBase(w: Worker)
    requires Inv(w) && |w.ring.cq| > 0 && OnSlot(w.ring.cq[0].token.kind)
    ensures w.ring.cq[0].token.slot < SLOTS && Base(Reaped(w))
  {
    hide Gather;
    ReapedTokens(w);
    ReapedQueues(w);
    var q := w.ring.cq[0].token.slot;
    var s := w.slots[q].(ops := w.slots[q].ops - 1);
    assert SlotShaped(w.slots[q]) && SlotShaped(s);
    PutKeeps(w, q, s, Popped(w).ring);
    assert Reaped(w) == Put(w, q, s).(ring := Popped(w).ring);
  }

  /** A completion reaped leaves its slot quiet unless the connection is closing with more to reap. */
  lemma ReapedKeeps(w: Worker)
    requires Inv(w) && |w.ring.cq| > 0 && OnSlot(w.ring.cq[0].token.kind)
    ensures w.ring.cq[0].token.slot < SLOTS
    ensures var s := Reaped(w).slots[w.ring.cq[0].token.slot];
            if s.closing && s.ops > 0 then Inv(Reaped(w)) else Quiet(Reaped(w), w.ring.cq[0].token.slot)
  {
    hide Gather;
    ReapedTokens(w);
    ReapedBase(w);
    var q := w.ring.cq[0].token.slot;
    assert Reaped(w).ring == Popped(w).ring;
    assert Reaped(w).slots == w.slots[q := w.slots[q].(ops := w.slots[q].ops - 1)];
  }

  lemma ReapedClaims(w: Worker)
    requires |w.ring.cq| > 0 && OnSlot(w.ring.cq[0].token.kind) && w.ring.cq[0].token.slot < |w.slots|
    ensures Claims(Reaped(w)) == Claims(w)
  {
    hide Gather;
    var q := w.ring.cq[0].token.slot;
    PoppedTokens(w.ring);
    SameClaims(w.slots, q, Reaped(w).slots[q]);
  }

  /** The descriptors closed going from `w` to `w'`, each turned into a place given back. */
  predicate Traded(w: Worker, w': Worker) {
    && |w.shut| <= |w'.shut| && w'.shut[..|w.shut|] == w.shut
    && var closed := w'.shut[|w.shut|..];
       (closed == [] && Claims(w') == Claims(w)) ||
       (|closed| == 1 && closed[0] >= 0 && Claims(w') + multiset{closed[0]} == Claims(w) + multiset{-1})
  }

  lemma ReapedIs(w: Worker)
    requires Shaped(w) && |w.ring.cq| > 0 && OnSlot(w.ring.cq[0].token.kind) && w.ring.live > 0
    requires w.ring.cq[0].token.kind == KRecv ==> w.ring.cq[0].res <= CAPACITY
    requires w.ring.cq[0].token.slot < SLOTS
    requires var s := w.slots[w.ring.cq[0].token.slot]; s.fd >= 0 && s.ops > 0 && w.ring.cq[0].token.gen == s.gen
    ensures Shaped(Reaped(w))
    ensures Reap(w) == Acted(Reaped(w), w.ring.cq[0].token.slot, w.ring.cq[0])
  {
    hide Gather;
    var q := w.ring.cq[0].token.slot;
    assert SlotShaped(w.slots[q]);
    assert Reaped(w) == Put(Popped(w), q, w.slots[q].(ops := w.slots[q].ops - 1));
    assert Reap(w) == Completed(Popped(w), w.ring.cq[0]);
  }

  lemma ReceivedKeeps(w: Worker, q: nat, n: nat)
    requires Quiet(w, q) && !w.slots[q].closing && 0 < n <= CAPACITY && SlotShaped(w.slots[q])
    requires w.slots[q].received == w.slots[q].delivered + w.slots[q].inb[..n]
    ensures Inv(Received(w, q, n)) && Settled(w, Received(w, q, n))
  {
    hide Gather;
    var s := w.slots[q];
    var s' := s.(out := s.inb[..n] + s.out[n..], length := n, sent := 0);
    QuietChange(w, q, s');
    assert s'.out[0..n] == s.inb[..n];
    ArmSendKeeps(Put(w, q, s'), q);
    assert Received(w, q, n) == ArmSend(Put(w, q, s'), q);
  }

  lemma SentKeeps(w: Worker, q: nat, n: nat)
    requires Quiet(w, q) && !w.slots[q].closing && SlotShaped(w.slots[q])
    requires var s := w.slots[q]; 0 < n <= s.length - s.sent && s.received == s.delivered + s.out[s.sent + n..s.length]
    ensures SentSome(w, q, n).Next?
    ensures Inv(SentSome(w, q, n).value) && Settled(w, SentSome(w, q, n).value)
  {
    hide Gather;
    var s := w.slots[q];
    if s.sent + n < s.length {
      var s' := s.(sent := s.sent + n);
      assert SentSome(w, q, n) == Next(ArmSend(Put(w, q, s'), q));
      QuietChange(w, q, s');
      ArmSendKeeps(Put(w, q, s'), q);
    } else {
      var s' := s.(length := 0, sent := 0);
      assert SentSome(w, q, n) == Next(ArmRecv(Put(w, q, s'), q));
      assert s.out[s.sent + n..s.length] == [];
      QuietChange(w, q, s');
      ArmRecvKeeps(Put(w, q, s'), q);
    }
  }

  /** What a worker does with a completion on slot `q` once it has counted it. */
  function Acted(w: Worker, q: nat, c: Completion): Outcome<Worker>
    requires Shaped(w) && q < SLOTS && (c.token.kind == KRecv ==> c.res <= CAPACITY)
  {
    var s := w.slots[q];
    if s.closing || c.token.kind == KCancel then Next(if s.closing && s.ops == 0 then Finish(w, q) else w)
    else if c.res <= 0 then Next(End(w, q))
    else if c.token.kind == KRecv then Next(Received(w, q, c.res))
    else SentSome(w, q, c.res)
  }

  lemma ActedKeeps(w: Worker, q: nat, c: Completion)
    requires q < SLOTS && |w.slots| == SLOTS && OnSlot(c.token.kind) && c.token.slot == q && CompletionOk(c, w.slots)
    requires if w.slots[q].closing && w.slots[q].ops > 0 then Inv(w) else Quiet(w, q)
    ensures Shaped(w)
    ensures Acted(w, q, c).Next? && Inv(Acted(w, q, c).value)
  {
    hide Gather;
    assert SlotShaped(w.slots[q]);
    if w.slots[q].closing {
      if w.slots[q].ops == 0 { FinishKeeps(w, q); }
    } else if c.res <= 0 {
      EndQuiet(w, q);
    } else if c.token.kind == KRecv {
      ReceivedKeeps(w, q, c.res);
    } else {
      SentKeeps(w, q, c.res);
    }
  }

  /** Every completion on a slot is acted on without a violation, and the connection's echo goes on as it should. */
  lemma ReapSlotKeeps(w: Worker)
    requires Inv(w) && |w.ring.cq| > 0 && OnSlot(w.ring.cq[0].token.kind)
    ensures w.ring.cq[0].token.kind == KRecv ==> w.ring.cq[0].res <= CAPACITY
    ensures Reap(w).Next? && Inv(Reap(w).value)
  {
    hide Gather;
    NeverStale(w);
    ReapedIs(w);
    ReapedKeeps(w);
    var c := w.ring.cq[0];
    SameCompletion(c, w.slots, Reaped(w).slots[c.token.slot]);
    ActedKeeps(Reaped(w), c.token.slot, c);
  }

  lemma SameCompletion(c: Completion, slots: seq<Slot>, s: Slot)
    requires CompletionOk(c, slots) && OnSlot(c.token.kind) && s == slots[c.token.slot].(ops := s.ops)
    ensures CompletionOk(c, slots[c.token.slot := s])
  {
  }

  lemma ArmClaims(w: Worker, q: nat, s: Slot, op: Op)
    requires q < |w.slots| && s.fd == w.slots[q].fd && !op.Tell?
    ensures Claims(Put(w, q, s).(ring := Push(w.ring, op))) == Claims(w)
  {
    hide Gather;
    PushClaims(w.ring, op);
    SameClaims(w.slots, q, s);
  }

  lemma ReceivedClaims(w: Worker, q: nat, n: nat)
    requires q < |w.slots| && n <= |w.slots[q].inb| && n <= |w.slots[q].out|
    ensures Claims(Received(w, q, n)) == Claims(w) && Received(w, q, n).shut == w.shut
  {
    hide Gather;
    var s := w.slots[q];
    var s' := s.(out := s.inb[..n] + s.out[n..], length := n, sent := 0);
    var op := Send(q, s.gen, s.fd, 0, Chunk(w, s'));
    assert Received(w, q, n) == Put(w, q, s'.(ops := s.ops + 1)).(ring := Push(w.ring, op));
    ArmClaims(w, q, s'.(ops := s.ops + 1), op);
  }

  lemma SentClaims(w: Worker, q: nat, n: nat)
    requires q < |w.slots| && w.slots[q].sent <= w.slots[q].length && n <= w.slots[q].length - w.slots[q].sent
    ensures SentSome(w, q, n).Next?
    ensures Claims(SentSome(w, q, n).value) == Claims(w) && SentSome(w, q, n).value.shut == w.shut
  {
    hide Gather;
    var s := w.slots[q];
    if s.sent + n < s.length {
      var s' := s.(sent := s.sent + n);
      var op := Send(q, s.gen, s.fd, s'.sent, Chunk(w, s'));
      assert SentSome(w, q, n).value == Put(w, q, s'.(ops := s.ops + 1)).(ring := Push(w.ring, op));
      ArmClaims(w, q, s'.(ops := s.ops + 1), op);
    } else {
      var s' := s.(length := 0, sent := 0, ops := s.ops + 1);
      var op := Recv(q, s.gen, s.fd);
      assert SentSome(w, q, n).value == Put(w, q, s').(ring := Push(w.ring, op));
      ArmClaims(w, q, s', op);
    }
  }

  lemma ClosedTraded(w: Worker, w': Worker, fd: int)
    requires w'.shut == w.shut + [fd] && fd >= 0 && Claims(w') + multiset{fd} == Claims(w) + multiset{-1}
    ensures Traded(w, w')
  {
    hide Gather, Claims;
    assert w'.shut[|w.shut|..] == [fd];
  }

  lemma ActedClaims(w: Worker, q: nat, c: Completion)
    requires Shaped(w) && q < SLOTS && OnSlot(c.token.kind) && c.token.slot == q && CompletionOk(c, w.slots)
    requires w.slots[q].fd >= 0 && (!w.slots[q].closing ==> Quiet(w, q))
    ensures Acted(w, q, c).Next? && Traded(w, Acted(w, q, c).value)
  {
    hide Gather, Claims, Quiet, Inv, Traded;
    assert SlotShaped(w.slots[q]);
    if w.slots[q].closing {
      if w.slots[q].ops == 0 {
        FinishClaims(w, q);
        ClosedTraded(w, Finish(w, q), w.slots[q].fd);
      } else {
        SameTraded(w, w);
      }
    } else if c.res <= 0 {
      EndQuiet(w, q);
      EndQuietClaims(w, q);
      ClosedTraded(w, End(w, q), w.slots[q].fd);
    } else if c.token.kind == KRecv {
      ReceivedClaims(w, q, c.res);
      SameTraded(w, Received(w, q, c.res));
    } else {
      SentClaims(w, q, c.res);
      SameTraded(w, SentSome(w, q, c.res).value);
    }
  }

  lemma SameTraded(w: Worker, w': Worker)
    requires w'.shut == w.shut && Claims(w') == Claims(w)
    ensures Traded(w, w')
  {
    hide Claims;
  }

  lemma ReapSlotClaims(w: Worker)
    requires Inv(w) && |w.ring.cq| > 0 && OnSlot(w.ring.cq[0].token.kind)
    ensures w.ring.cq[0].token.kind == KRecv ==> w.ring.cq[0].res <= CAPACITY
    ensures Reap(w).Next? && Traded(w, Reap(w).value) && Reap(w).value.ring.cq == w.ring.cq[1..]
    ensures Reap(w).value.index == w.index && Reap(w).value.stopping == w.stopping
  {
    hide Gather, Claims, Quiet, Acted, Counted, Current;
    NeverStale(w);
    ReapedIs(w);
    ReapedKeeps(w);
    ReapedClaims(w);
    var c := w.ring.cq[0];
    SameCompletion(c, w.slots, Reaped(w).slots[c.token.slot]);
    ActedClaims(Reaped(w), c.token.slot, c);
    assert Reaped(w).shut == w.shut;
  }

  lemma PoppedClaims(w: Worker)
    requires |w.ring.cq| > 0
    ensures Claims(w) == Claims(Popped(w)) + CompletionClaims(w.ring.cq[0])
  {
    hide Gather;
    PoppedTokens(w.ring);
  }

  /** The outcome of a completion: the invariant is kept, the queue moves on, and each descriptor closed is told of as a
      place given back. */
  ghost predicate Good(w: Worker, w': Worker, stopping: bool)
    requires |w.ring.cq| > 0
  {
    Inv(w') && Traded(w, w') && w'.ring.cq == w.ring.cq[1..] && w'.index == w.index && w'.stopping == stopping
  }

  lemma ReapHanded(w: Worker)
    requires Inv(w) && |w.ring.cq| > 0 && w.ring.cq[0].token.kind == KHanded && w.held < SLOTS
    ensures Reap(w).Next? && Good(w, Reap(w).value, w.stopping)
  {
    hide Gather, Claims;
    var fd := w.ring.cq[0].res;
    assert CompletionOk(w.ring.cq[0], w.slots);
    PoppedKeeps(w);
    PoppedClaims(w);
    TakeKeeps(Popped(w), fd);
    TakeClaims(Popped(w), fd);
    assert Reap(w) == Take(Popped(w), fd);
  }

  lemma ReapStop(w: Worker)
    requires Inv(w) && |w.ring.cq| > 0 && w.ring.cq[0].token.kind == KStop
    ensures Reap(w).Next? && Good(w, Reap(w).value, true)
  {
    hide Gather, Claims;
    PoppedKeeps(w);
    PoppedClaims(w);
    var w1 := Popped(w).(stopping := true);
    StoppingKeeps(Popped(w));
    StopKeeps(w1, 0);
    StopClaims(w1, 0);
    assert Reap(w) == Next(StopFrom(w1, 0));
  }

  lemma StoppingKeeps(w: Worker)
    requires Inv(w)
    ensures Inv(w.(stopping := true)) && Claims(w.(stopping := true)) == Claims(w)
  {
    hide Gather;
  }

  lemma ReapTold(w: Worker)
    requires Inv(w) && |w.ring.cq| > 0 && w.ring.cq[0].token.kind == KTold
    ensures if w.ring.cq[0].res < 0 then Reap(w) == Harness else Reap(w).Next? && Good(w, Reap(w).value, w.stopping)
  {
    hide Gather, Claims, Counted, Current, Unreaped;
    PoppedKeeps(w);
    PoppedClaims(w);
    PoppedLive(w);
    assert Claims(w) == Claims(Popped(w)) + CompletionClaims(w.ring.cq[0]);
  }

  /** Every completion is acted on without a violation, whatever the order they come in. */
  lemma ReapKeeps(w: Worker)
    requires Inv(w) && |w.ring.cq| > 0
    requires w.ring.cq[0].token.kind == KHanded ==> w.held < SLOTS
    ensures w.ring.cq[0].token.kind == KRecv ==> w.ring.cq[0].res <= CAPACITY
    ensures !Reap(w).Violation?
    ensures Reap(w).Harness? <==> w.ring.cq[0].token.kind == KTold && w.ring.cq[0].res < 0
    ensures Reap(w).Next? ==> Good(w, Reap(w).value, w.stopping || w.ring.cq[0].token.kind == KStop)
  {
    hide Gather, Claims, Traded, Unreaped;
    var c := w.ring.cq[0];
    assert CompletionOk(c, w.slots);
    if OnSlot(c.token.kind) {
      ReapSlotKeeps(w);
      ReapSlotClaims(w);
    } else if c.token.kind == KHanded {
      ReapHanded(w);
    } else if c.token.kind == KStop {
      ReapStop(w);
    } else {
      ReapTold(w);
    }
  }

  // ----- the start -----

  lemma {:induction false} EmptyClaims<T>(s: seq<T>, f: T -> multiset<int>)
    requires forall i :: 0 <= i < |s| ==> f(s[i]) == multiset{}
    ensures Gather(s, f) == multiset{}
  {
    if s != [] { EmptyClaims(s[1..], f); }
  }

  lemma FreshInv(k: nat, chunk: nat)
    requires 1 <= chunk <= CAPACITY
    ensures Inv(FreshWorker(k, chunk)) && Claims(FreshWorker(k, chunk)) == multiset{}
  {
    var w := FreshWorker(k, chunk);
    EmptyClaims(w.slots, SlotClaims);
    forall i | 0 <= i < |w.slots| ensures SlotOk(w.slots[i], i, Unreaped(w.ring)) {
      assert w.slots[i] == FreshSlot();
    }
  }
}
