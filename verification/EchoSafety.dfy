/** What every run of the echo host keeps: the places admitted are exactly the connections held, handed over and not yet
    taken, and given back and not yet read; every open descriptor has one owner; a stop is the last a worker is told. */
module EchoSafety {
  import opened Gathering
  import opened EchoWorker
  import opened EchoSlots
  import opened EchoHost

  // ----- what the main thread's queues stand for -----

  function MainTokens(c: Completion): multiset<Token> {
    if c.token.kind == KFreed then multiset{} else multiset{c.token}
  }

  function MainUnreaped(r: Ring): multiset<Token> {
    Gather(r.sq, OpTokens) + Gather(r.flight, OpTokens) + Gather(r.cq, MainTokens)
  }

  /** A place given back and not yet read, or a handover that could not be delivered. */
  function MainClaims(c: Completion): multiset<int> {
    if c.token.kind == KFreed then multiset{-1 as int}
    else if c.token.kind == KTold && c.token.gen == 1 && c.res < 0 then multiset{c.token.slot as int}
    else multiset{}
  }

  /** A connection accepted and not yet handed over. */
  function AcceptClaims(c: Completion): multiset<int> {
    if c.token.kind == KAccept && c.res >= 0 then multiset{c.res} else multiset{}
  }

  /** The handovers not yet taken, the connections held and, as -1, the places given back and not yet read. */
  ghost function Admitted(h: Host): multiset<int> {
    Gather(h.main.ring.sq, OpClaims) + Gather(h.main.ring.cq, MainClaims) + Gather(h.workers, Claims)
  }

  ghost function Accepted(h: Host): multiset<int> { Gather(h.main.ring.cq, AcceptClaims) }

  predicate MainOp(op: Op, threads: nat) {
    match op
    case Tell(mark, g, to, Handed(fd)) => g == 1 && to.WorkerRing? && to.index < threads && 0 <= fd < MARKS && mark == fd
    case Tell(mark, g, to, StopNow) => g == 0 && to.WorkerRing? && to.index < threads
    case Accept => true
    case PollSignal => true
    case CancelOp(_) => true
    case _ => false
  }

  predicate MainCompletion(c: Completion) {
    match c.token.kind
    case KAccept => c.token == Token(KAccept, 0, 0)
    case KFreed => true
    case KSignal => true
    case KTold => true
    case KCancel => true
    case _ => false
  }

  predicate MainQueues(r: Ring, threads: nat) {
    && (forall i :: 0 <= i < |r.sq| ==> MainOp(r.sq[i], threads))
    && (forall i :: 0 <= i < |r.flight| ==> MainOp(r.flight[i], threads) && !r.flight[i].Tell?)
    && (forall i :: 0 <= i < |r.cq| ==> MainCompletion(r.cq[i]))
  }

  ghost predicate MainOk(m: Main, threads: nat) {
    && m.nextThread < threads
    && MainQueues(m.ring, threads)
    && m.ring.live == |MainUnreaped(m.ring)|
    && MainUnreaped(m.ring)[Token(KAccept, 0, 0)] == if m.accepting then 1 else 0
  }

  /** The books: as many admitted as there are claims, never more than the slots, and one owner a descriptor. */
  ghost predicate Books(h: Host) {
    && h.main.admitted == |Admitted(h)| <= SLOTS
    && (h.main.accepting ==> h.main.admitted < SLOTS)
    && (forall fd :: fd >= 0 ==> (Admitted(h) + Accepted(h))[fd] == if fd in h.open then 1 else 0)
    && (forall fd :: fd in h.open ==> 0 <= fd < MARKS)
    && |h.others| + SLOTS + 2 <= MARKS
  }

  // ----- the messages on their way to a worker, in order -----

  function Arrived(cq: seq<Completion>): seq<Message> {
    if cq == [] then []
    else if cq[0].token.kind == KHanded then [Handed(cq[0].res)] + Arrived(cq[1..])
    else if cq[0].token.kind == KStop then [StopNow] + Arrived(cq[1..])
    else Arrived(cq[1..])
  }

  function Queued(sq: seq<Op>, k: nat): seq<Message> {
    if sq == [] then []
    else if sq[0].Tell? && sq[0].to == WorkerRing(k) then [sq[0].message] + Queued(sq[1..], k)
    else Queued(sq[1..], k)
  }

  function Mail(h: Host, k: nat): seq<Message>
    requires k < |h.workers|
  {
    Arrived(h.workers[k].ring.cq) + Queued(h.main.ring.sq, k)
  }

  /** Handovers, then at most the one order to stop; nothing once it is taken. */
  predicate MailShaped(mail: seq<Message>, told: bool, stopping: bool) {
    && (forall i :: 0 <= i < |mail| ==> mail[i].Handed? || (mail[i].StopNow? && told && i == |mail| - 1))
    && (stopping ==> told && mail == [])
  }

  ghost predicate WorkersOk(h: Host) {
    && 1 <= |h.workers| <= COPIES
    && forall k :: 0 <= k < |h.workers| ==> Inv(h.workers[k]) && h.workers[k].index == k
  }

  ghost predicate MailOk(h: Host) {
    forall k :: 0 <= k < |h.workers| ==> MailShaped(Mail(h, k), h.main.stopping, h.workers[k].stopping)
  }

  ghost predicate ExitOk(h: Host) {
    forall k :: k in h.exited ==> k < |h.workers| && h.workers[k].stopping && h.workers[k].ring == EmptyRing
  }

  ghost predicate HostInv(h: Host) {
    WorkersOk(h) && MainOk(h.main, |h.workers|) && Books(h) && MailOk(h) && ExitOk(h)
  }

  /** A step's outcome: never a broken invariant, and the host's invariant kept if it goes on. */
  ghost predicate Safe(o: Outcome<Host>) {
    !o.Violation? && (o.Next? ==> HostInv(o.value))
  }

  // ----- mail -----

  lemma {:induction false} ArrivedAppend(cq: seq<Completion>, c: Completion)
    ensures Arrived(cq + [c]) == Arrived(cq) + Arrived([c])
  {
    if cq == [] {
      assert cq + [c] == [c];
    } else {
      assert (cq + [c])[1..] == cq[1..] + [c];
      ArrivedAppend(cq[1..], c);
    }
  }

  lemma {:induction false} QueuedAppend(sq: seq<Op>, op: Op, k: nat)
    ensures Queued(sq + [op], k) == Queued(sq, k) + Queued([op], k)
  {
    if sq == [] {
      assert sq + [op] == [op];
    } else {
      assert (sq + [op])[1..] == sq[1..] + [op];
      QueuedAppend(sq[1..], op, k);
    }
  }

  lemma QuietArrived(c: Completion)
    ensures !Foreign(c.token.kind) ==> Arrived([c]) == []
    ensures c.token.kind == KHanded ==> Arrived([c]) == [Handed(c.res)]
    ensures c.token.kind == KStop ==> Arrived([c]) == [StopNow]
  {
  }

  // ----- a worker's change, entered in the books -----

  lemma ClaimsUpdate(h: Host, k: nat, w: Worker)
    requires k < |h.workers|
    ensures Admitted(WithWorker(h, k, w)) + Claims(h.workers[k]) == Admitted(h) + Claims(w)
    ensures Accepted(WithWorker(h, k, w)) == Accepted(h)
  {
    hide Gather, Claims;
    GatherUpdate(h.workers, k, w, Claims);
    var rest := Gather(h.main.ring.sq, OpClaims) + Gather(h.main.ring.cq, MainClaims);
    assert Admitted(WithWorker(h, k, w)) == rest + Gather(h.workers[k := w], Claims);
    var x, y := Gather(h.workers[k := w], Claims), Gather(h.workers, Claims);
    assert (rest + x) + Claims(h.workers[k]) == rest + (x + Claims(h.workers[k])) == (rest + y) + Claims(w);
  }

  /** A worker's step that trades no claims leaves the books as they are. */
  lemma SameBooks(h: Host, k: nat, w: Worker)
    requires Books(h) && k < |h.workers| && Claims(w) == Claims(h.workers[k])
    ensures Books(WithWorker(h, k, w))
  {
    hide Gather, Claims;
    ClaimsUpdate(h, k, w);
    CancelSum(Admitted(WithWorker(h, k, w)), Admitted(h), Claims(w));
  }

  /** A worker that closes a descriptor trades it for a place given back. */
  lemma TradedBooks(h: Host, k: nat, w: Worker, fd: int)
    requires Books(h) && k < |h.workers| && fd >= 0
    requires Claims(w) + multiset{fd} == Claims(h.workers[k]) + multiset{-1}
    ensures fd in h.open
    ensures Books(WithWorker(h, k, w).(open := h.open - {fd}))
    ensures Admitted(WithWorker(h, k, w))[fd] == 0
  {
    hide Gather, Claims;
    ClaimsUpdate(h, k, w);
    var a, a', c := Admitted(h), Admitted(WithWorker(h, k, w)), Claims(h.workers[k]);
    Balance(a, a', c, Claims(w), multiset{fd}, multiset{-1});
    assert |a'| + 1 == |a' + multiset{fd}| == |a + multiset{-1}| == |a| + 1;
    assert (a' + multiset{fd})[fd] == (a + multiset{-1})[fd];
    var h' := WithWorker(h, k, w).(open := h.open - {fd});
    assert Admitted(h') == a' && Accepted(h') == Accepted(h);
    assert (a + Accepted(h))[fd] == if fd in h.open then 1 else 0;
    forall x | x >= 0 ensures (a' + Accepted(h))[x] == if x in h'.open then 1 else 0 {
      assert (a + Accepted(h))[x] == if x in h.open then 1 else 0;
      assert (a' + multiset{fd})[x] == (a + multiset{-1})[x];
    }
  }

  /** A worker holds fewer than all its slots while a connection handed to it waits. */
  lemma RoomLeft(h: Host, k: nat)
    requires HostInv(h) && k < |h.workers|
    requires |h.workers[k].ring.cq| > 0 && h.workers[k].ring.cq[0].token.kind == KHanded
    ensures h.workers[k].held < SLOTS
  {
    hide Gather;
    var w := h.workers[k];
    assert Inv(w);
    GatherHas(h.workers, k, Claims);
    GatherHas(w.ring.cq, 0, CompletionClaims);
    assert Claims(w) <= Admitted(h);
    assert multiset{w.ring.cq[0].res} + Gather(w.slots, SlotClaims) <= Claims(w);
    SmallerSum(multiset{w.ring.cq[0].res} + Gather(w.slots, SlotClaims), Admitted(h));
  }

  lemma SmallerSum<T>(a: multiset<T>, b: multiset<T>)
    requires a <= b
    ensures |a| <= |b|
  {
    assert b == a + (b - a);
  }

  /** No operation of any worker uses a descriptor nobody claims. */
  lemma UnclaimedUnused(h: Host, fd: int)
    requires WorkersOk(h) && fd >= 0 && Admitted(h)[fd] == 0
    ensures forall k :: 0 <= k < |h.workers| ==> !InFlight(h.workers[k], fd)
  {
    hide Gather;
    forall k | 0 <= k < |h.workers| ensures !InFlight(h.workers[k], fd) {
      var w := h.workers[k];
      assert Inv(w);
      GatherHas(h.workers, k, Claims);
      forall op | OpOk(op, w.slots, w.index) ensures !Uses(op, fd) {
        if Uses(op, fd) {
          GatherHas(w.slots, op.slot, SlotClaims);
          assert false;
        }
      }
      forall i | 0 <= i < |w.ring.sq| ensures !Uses(w.ring.sq[i], fd) { assert OpOk(w.ring.sq[i], w.slots, w.index); }
      forall i | 0 <= i < |w.ring.flight| ensures !Uses(w.ring.flight[i], fd) {
        assert OpOk(w.ring.flight[i], w.slots, w.index);
      }
    }
  }

  // ----- the workers' steps -----

  lemma WorkerKept(h: Host, k: nat, w: Worker)
    requires HostInv(h) && Serving(h, k)
    requires Inv(w) && w.index == k && w.stopping == h.workers[k].stopping
    requires Claims(w) == Claims(h.workers[k]) && Arrived(w.ring.cq) == Arrived(h.workers[k].ring.cq)
    ensures HostInv(WithWorker(h, k, w))
  {
    hide Gather, Claims, Inv, Arrived, Queued, MainOk;
    SameBooks(h, k, w);
    var h' := WithWorker(h, k, w);
    forall i | 0 <= i < |h'.workers| ensures MailShaped(Mail(h', i), h'.main.stopping, h'.workers[i].stopping) {
      assert MailShaped(Mail(h, i), h.main.stopping, h.workers[i].stopping);
      assert Mail(h', i) == Mail(h, i);
    }
  }

  lemma ExpireSafe(h: Host, k: nat, i: nat)
    requires HostInv(h) && Enabled(h, WorkerExpire(k, i))
    ensures Safe(Do(h, WorkerExpire(k, i)))
  {
    hide Gather, Claims, Arrived;
    var w := h.workers[k];
    assert Inv(w);
    EndKeeps(w, i);
    EndClaims(w, i);
    WorkerKept(h, k, End(w, i));
  }

  lemma {:induction false} OnlyForeign(cq: seq<Completion>)
    requires Gather(cq, CompletionTokens) == multiset{} && Arrived(cq) == []
    ensures cq == []
  {
    if cq != [] { OnlyForeign(cq[1..]); }
  }

  lemma NoOps(ops: seq<Op>)
    requires Gather(ops, OpTokens) == multiset{}
    ensures ops == []
  {
  }

  /** A worker that ends has nothing of its own unreaped and nothing handed to it is left behind. */
  lemma LeavesNothing(h: Host, k: nat)
    requires HostInv(h) && Enabled(h, WorkerExit(k))
    ensures h.workers[k].ring == EmptyRing && Mail(h, k) == []
  {
    hide Gather, Arrived, Queued;
    var w := h.workers[k];
    assert Inv(w) && MailShaped(Mail(h, k), h.main.stopping, w.stopping);
    assert |Unreaped(w.ring)| == 0;
    assert Unreaped(w.ring) == multiset{};
    OnlyForeign(w.ring.cq);
    NoOps(w.ring.sq);
    NoOps(w.ring.flight);
  }

  lemma ExitSafe(h: Host, k: nat)
    requires HostInv(h) && Enabled(h, WorkerExit(k))
    ensures Safe(Do(h, WorkerExit(k)))
  {
    hide Gather, Claims, Inv, Arrived, Queued, MainOk;
    LeavesNothing(h, k);
    var h' := Do(h, WorkerExit(k)).value;
    assert Admitted(h') == Admitted(h) && Accepted(h') == Accepted(h);
    forall i | 0 <= i < |h'.workers| ensures MailShaped(Mail(h', i), h'.main.stopping, h'.workers[i].stopping) {
      assert MailShaped(Mail(h, i), h.main.stopping, h.workers[i].stopping);
      assert Mail(h', i) == Mail(h, i);
    }
  }

  lemma TailClaims(w: Worker)
    requires |w.ring.sq| > 0
    ensures Gather(w.ring.sq, OpClaims) == Gather(w.ring.sq[1..], OpClaims) + OpClaims(w.ring.sq[0])
  {
  }

  lemma SubmitSafe(h: Host, k: nat, delivered: bool)
    requires Enabled(h, WorkerSubmit(k, delivered)) && !h.workers[k].ring.sq[0].Tell? && HostInv(h)
    ensures Safe(Do(h, WorkerSubmit(k, delivered)))
  {
    hide Gather, Arrived;
    var w := h.workers[k];
    assert Inv(w);
    SubmitKeeps(w);
    TailClaims(w);
    assert Claims(Submit(w)) == Claims(w);
    WorkerKept(h, k, Submit(w));
  }

  lemma ToldClaims(w: Worker, res: int)
    requires |w.ring.sq| > 0 && w.ring.sq[0].Tell? && w.ring.sq[0].message.Freed?
    ensures res < 0 ==> Claims(Told(w, res)) == Claims(w)
    ensures res >= 0 ==> Claims(Told(w, res)) + multiset{-1} == Claims(w)
    ensures Arrived(Told(w, res).ring.cq) == Arrived(w.ring.cq)
  {
    hide Gather, Arrived;
    var c := Completion(TokenOf(w.ring.sq[0]), res);
    TailClaims(w);
    GatherAppend(w.ring.cq, c, CompletionClaims);
    ArrivedAppend(w.ring.cq, c);
    QuietArrived(c);
  }

  lemma FreedOp(w: Worker)
    requires Inv(w) && |w.ring.sq| > 0 && w.ring.sq[0].Tell?
    ensures w.ring.sq[0].to == MainRing && w.ring.sq[0].message == Freed(w.index)
  {
    hide Gather;
    assert OpOk(w.ring.sq[0], w.slots, w.index);
  }

  lemma UndeliveredSafe(h: Host, k: nat)
    requires Enabled(h, WorkerSubmit(k, false)) && h.workers[k].ring.sq[0].Tell? && HostInv(h)
    ensures Safe(Do(h, WorkerSubmit(k, false)))
  {
    hide Gather, Claims, Arrived, Queued;
    var w := h.workers[k];
    assert Inv(w);
    FreedOp(w);
    ToldKeeps(w, -1);
    ToldClaims(w, -1);
    WorkerKept(h, k, Told(w, -1));
  }

  lemma CompleteSafe(h: Host, k: nat, j: nat, res: int, data: seq<byte>)
    requires HostInv(h) && Enabled(h, WorkerComplete(k, j, res, data))
    ensures Safe(Do(h, WorkerComplete(k, j, res, data)))
  {
    hide Gather, Arrived, Queued;
    var w := h.workers[k];
    assert Inv(w);
    CompleteKeeps(w, j, res, data);
    var c := Completion(TokenOf(w.ring.flight[j]), res);
    GatherAppend(w.ring.cq, c, CompletionClaims);
    ArrivedAppend(w.ring.cq, c);
    QuietArrived(c);
    var w' := Complete(w, j, res, data);
    assert Claims(w') == Claims(w);
    WorkerKept(h, k, w');
  }

  /** Mail taken by its worker: the next is in front, and after the stop there is none. */
  lemma MailTaken(h: Host, k: nat)
    requires MailOk(h) && k < |h.workers| && |h.workers[k].ring.cq| > 0
    ensures var w := h.workers[k]; var mail := Arrived(w.ring.cq[1..]) + Queued(h.main.ring.sq, k);
            MailShaped(mail, h.main.stopping, w.stopping || w.ring.cq[0].token.kind == KStop)
  {
    hide Queued;
    var w := h.workers[k];
    var mail, rest := Mail(h, k), Arrived(w.ring.cq[1..]) + Queued(h.main.ring.sq, k);
    assert MailShaped(mail, h.main.stopping, w.stopping);
    if Foreign(w.ring.cq[0].token.kind) {
      assert mail == [mail[0]] + rest;
      assert rest == mail[1..];
    }
  }

  lemma MailElsewhere(h: Host, h': Host, k: nat)
    requires MailOk(h) && |h'.workers| == |h.workers| && k < |h.workers|
    requires h'.main.ring.sq == h.main.ring.sq && h'.main.stopping == h.main.stopping
    requires forall i :: 0 <= i < |h.workers| && i != k ==> h'.workers[i] == h.workers[i]
    requires MailShaped(Mail(h', k), h'.main.stopping, h'.workers[k].stopping)
    ensures MailOk(h')
  {
    hide Arrived, Queued;
    forall i | 0 <= i < |h'.workers| ensures MailShaped(Mail(h', i), h'.main.stopping, h'.workers[i].stopping) {
      if i != k {
        assert MailShaped(Mail(h, i), h.main.stopping, h.workers[i].stopping);
        assert Mail(h', i) == Mail(h, i);
      }
    }
  }

  /** What a worker closes is its own, open and unused. */
  lemma ReapBooks(h: Host, k: nat, w: Worker, closed: set<int>)
    requires Books(h) && k < |h.workers| && WorkersOk(WithWorker(h, k, w)) && Traded(h.workers[k], w)
    requires closed == set i | |h.workers[k].shut| <= i < |w.shut| :: w.shut[i]
    ensures Closing(WithWorker(h, k, w), closed) == Next(WithWorker(h, k, w).(open := h.open - closed))
    ensures Books(WithWorker(h, k, w).(open := h.open - closed))
  {
    hide Gather, Claims, Inv;
    var old_ := h.workers[k].shut;
    if w.shut == old_ {
      assert closed == {};
      SameBooks(h, k, w);
    } else {
      var fd := w.shut[|old_|];
      assert w.shut[|old_|..][0] == fd;
      assert closed == {fd};
      TradedBooks(h, k, w, fd);
      UnclaimedUnused(WithWorker(h, k, w), fd);
    }
  }

  /** A worker acts on any completion without a violation; what it closes is its own and unused. */
  lemma ReapSafe(h: Host, k: nat)
    requires HostInv(h) && Enabled(h, WorkerReap(k))
    ensures Safe(Do(h, WorkerReap(k)))
  {
    hide Gather, Claims, Inv, Arrived, Queued, MainOk, Books, Reap, Closing, Unreaped;
    var w := h.workers[k];
    assert Inv(w) && w.index == k;
    if w.ring.cq[0].token.kind == KHanded { RoomLeft(h, k); }
    ReapKeeps(w);
    if Reap(w).Next? {
      var w' := Reap(w).value;
      var h1 := WithWorker(h, k, w');
      var closed := set i | |w.shut| <= i < |w'.shut| :: w'.shut[i];
      var h2 := h1.(open := h.open - closed);
      MailTaken(h, k);
      MailElsewhere(h, h2, k);
      ReapBooks(h, k, w', closed);
      assert Do(h, WorkerReap(k)) == Next(h2);
    }
  }

  lemma FreedClaims(h: Host, k: nat, w: Worker, h': Host)
    requires k < |h.workers| && Claims(w) + multiset{-1} == Claims(h.workers[k])
    requires h' == Post(WithWorker(h, k, w), Tell(0, 0, MainRing, Freed(k)))
    ensures Admitted(h') == Admitted(h) && Accepted(h') == Accepted(h)
  {
    hide Gather, Claims;
    var c := Completion(Token(KFreed, k, 0), 0);
    var h1 := WithWorker(h, k, w);
    GatherAppend(h.main.ring.cq, c, MainClaims);
    GatherAppend(h.main.ring.cq, c, AcceptClaims);
    ClaimsUpdate(h, k, w);
    assert Admitted(h') == Admitted(h1) + multiset{-1};
    Balance(Admitted(h), Admitted(h1), Claims(h.workers[k]), Claims(w), multiset{-1}, multiset{});
  }

  lemma FreedBooks(h: Host, k: nat, w: Worker)
    requires Books(h) && k < |h.workers| && Claims(w) + multiset{-1} == Claims(h.workers[k])
    ensures Books(Post(WithWorker(h, k, w), Tell(0, 0, MainRing, Freed(k))))
  {
    hide Admitted, Accepted, Claims;
    FreedClaims(h, k, w, Post(WithWorker(h, k, w), Tell(0, 0, MainRing, Freed(k))));
  }

  /** A place given back travels from the worker's queue to the main thread's. */
  lemma FreedSafe(h: Host, k: nat)
    requires Enabled(h, WorkerSubmit(k, true)) && h.workers[k].ring.sq[0].Tell? && HostInv(h)
    ensures Safe(Do(h, WorkerSubmit(k, true)))
  {
    hide Gather, Claims, Arrived, Queued, Inv, Books;
    var w := h.workers[k];
    assert Inv(w);
    FreedOp(w);
    ToldKeeps(w, 0);
    ToldClaims(w, 0);
    FreedBooks(h, k, Told(w, 0));
    var h' := Do(h, WorkerSubmit(k, true)).value;
    var c := Completion(Token(KFreed, k, 0), 0);
    assert h' == Post(WithWorker(h, k, Told(w, 0)), Tell(0, 0, MainRing, Freed(k)));
    GatherAppend(h.main.ring.cq, c, MainTokens);
    assert MainUnreaped(h'.main.ring) == MainUnreaped(h.main.ring);
    assert MainOk(h'.main, |h.workers|);
    assert MailShaped(Mail(h, k), h.main.stopping, w.stopping);
    assert Mail(h', k) == Mail(h, k);
    MailElsewhere(h, h', k);
  }

  // ----- the main thread's steps -----

  lemma MainPush(r: Ring, op: Op)
    ensures MainUnreaped(Push(r, op)) == MainUnreaped(r) + multiset{TokenOf(op)}
    ensures Gather(Push(r, op).sq, OpClaims) == Gather(r.sq, OpClaims) + OpClaims(op)
    ensures forall k :: Queued(Push(r, op).sq, k) == Queued(r.sq, k) + Queued([op], k)
  {
    hide Gather, Queued;
    GatherAppend(r.sq, op, OpTokens);
    GatherAppend(r.sq, op, OpClaims);
    forall k: nat ensures Queued(Push(r, op).sq, k) == Queued(r.sq, k) + Queued([op], k) { QueuedAppend(r.sq, op, k); }
  }

  lemma PushOk(m: Main, op: Op, threads: nat, accepting: bool)
    requires MainOk(m, threads) && MainOp(op, threads)
    requires accepting == (m.accepting || op.Accept?) && (op.Accept? ==> !m.accepting)
    ensures MainOk(m.(accepting := accepting, ring := Push(m.ring, op)), threads)
  {
    hide Gather;
    MainPush(m.ring, op);
  }

  lemma NotQueued(op: Op, k: nat)
    ensures !op.Tell? || op.to != WorkerRing(k) ==> Queued([op], k) == []
    ensures op.Tell? && op.to == WorkerRing(k) ==> Queued([op], k) == [op.message]
  {
  }

  /** Mail on its way is as it was when neither the workers nor what is queued for them changes. */
  lemma SameMail(h: Host, h': Host)
    requires MailOk(h) && h'.workers == h.workers && h'.main.stopping == h.main.stopping
    requires forall k :: Queued(h'.main.ring.sq, k) == Queued(h.main.ring.sq, k)
    ensures MailOk(h')
  {
    hide Arrived, Queued;
    forall k | 0 <= k < |h.workers| ensures MailShaped(Mail(h', k), h'.main.stopping, h'.workers[k].stopping) {
      assert MailShaped(Mail(h, k), h.main.stopping, h.workers[k].stopping);
      assert Mail(h', k) == Mail(h, k);
    }
  }

  lemma ArmBooks(h: Host, op: Op, h': Host)
    requires Books(h) && !op.Tell? && (h'.main.accepting ==> h.main.accepting || h.main.admitted < SLOTS)
    requires h' == h.(main := h'.main) && h'.main.admitted == h.main.admitted && h'.main.ring == Push(h.main.ring, op)
    ensures Books(h')
  {
    hide Gather, Claims, Queued, MainUnreaped, OpClaims;
    GatherAppend(h.main.ring.sq, op, OpClaims);
    NoClaim(op);
    assert Admitted(h') == Admitted(h) && Accepted(h') == Accepted(h);
  }

  lemma ArmSafe(h: Host, s: Step)
    requires HostInv(h) && (s.MainArmSignal? || s.MainArmAccept?) && Enabled(h, s)
    ensures Safe(Do(h, s))
  {
    hide Gather, Claims, WorkersOk, Arrived, Queued, MainOk, MailOk, Books;
    var op := if s.MainArmSignal? then PollSignal else Accept;
    var h' := Do(h, s).value;
    MainPush(h.main.ring, op);
    PushOk(h.main, op, |h.workers|, h'.main.accepting);
    FlagsOk(h.main.(accepting := h'.main.accepting, ring := h'.main.ring), h'.main, |h.workers|);
    ArmBooks(h, op, h');
    forall k ensures Queued(h'.main.ring.sq, k) == Queued(h.main.ring.sq, k) { NotQueued(op, k); }
    SameMail(h, h');
    SameWorkers(h, h');
  }

  lemma SameWorkers(h: Host, h': Host)
    requires WorkersOk(h) && h'.workers == h.workers
    ensures WorkersOk(h')
  {
    hide Inv;
  }

  /** The flags the main thread's token count does not depend on. */
  lemma FlagsOk(m: Main, m': Main, threads: nat)
    requires MainOk(m, threads) && m'.ring == m.ring && m'.accepting == m.accepting && m'.nextThread == m.nextThread
    ensures MainOk(m', threads)
  {
    hide Gather;
  }

  lemma LeaveSafe(h: Host)
    requires HostInv(h) && Enabled(h, MainLeave)
    ensures Safe(Do(h, MainLeave))
  {
    hide Gather, Claims, WorkersOk, Arrived, Queued, MainOk, MailOk;
    var h' := Do(h, MainLeave).value;
    assert Admitted(h') == Admitted(h) && Accepted(h') == Accepted(h);
    FlagsOk(h.main, h'.main, |h.workers|);
    SameMail(h, h');
    SameWorkers(h, h');
  }

  lemma MainFirst(r: Ring)
    requires |r.sq| > 0
    ensures MainUnreaped(r) == MainUnreaped(r.(sq := r.sq[1..])) + multiset{TokenOf(r.sq[0])}
    ensures Gather(r.sq, OpClaims) == Gather(r.sq[1..], OpClaims) + OpClaims(r.sq[0])
    ensures forall k :: Queued(r.sq, k) == Queued([r.sq[0]], k) + Queued(r.sq[1..], k)
  {
    assert r.sq[..0] + r.sq[1..] == r.sq[1..];
    GatherRemove(r.sq, 0, OpTokens);
    GatherRemove(r.sq, 0, OpClaims);
    forall k: nat ensures Queued(r.sq, k) == Queued([r.sq[0]], k) + Queued(r.sq[1..], k) {
      NotQueued(r.sq[0], k);
    }
  }

  lemma MainPosted(r: Ring, c: Completion)
    ensures MainUnreaped(r.(cq := r.cq + [c])) == MainUnreaped(r) + MainTokens(c)
    ensures Gather(r.cq + [c], MainClaims) == Gather(r.cq, MainClaims) + MainClaims(c)
    ensures Gather(r.cq + [c], AcceptClaims) == Gather(r.cq, AcceptClaims) + AcceptClaims(c)
  {
    hide Gather;
    GatherAppend(r.cq, c, MainTokens);
    GatherAppend(r.cq, c, MainClaims);
    GatherAppend(r.cq, c, AcceptClaims);
  }

  /** An operation of the main thread's that is not a message goes into flight. */
  lemma MainTaken(m: Main, threads: nat)
    requires MainOk(m, threads) && |m.ring.sq| > 0 && !m.ring.sq[0].Tell?
    ensures MainOk(m.(ring := m.ring.(sq := m.ring.sq[1..], flight := m.ring.flight + [m.ring.sq[0]])), threads)
  {
    hide Gather, Queued;
    MainFirst(m.ring);
    GatherAppend(m.ring.flight, m.ring.sq[0], OpTokens);
  }

  lemma NoClaim(op: Op)
    requires !op.Tell?
    ensures OpClaims(op) == multiset{}
  {
  }

  lemma SubmitBooks(h: Host, h': Host)
    requires Books(h) && |h.main.ring.sq| > 0 && !h.main.ring.sq[0].Tell?
    requires h' == h.(main := h'.main) && h'.main == h.main.(ring := h'.main.ring)
    requires h'.main.ring.sq == h.main.ring.sq[1..] && h'.main.ring.cq == h.main.ring.cq
    ensures Books(h')
  {
    hide Gather, Claims, Queued, MainUnreaped, OpClaims;
    MainFirst(h.main.ring);
    NoClaim(h.main.ring.sq[0]);
    assert Admitted(h') == Admitted(h) && Accepted(h') == Accepted(h);
  }

  lemma MainSubmitSafe(h: Host, delivered: bool)
    requires Enabled(h, MainSubmit(delivered)) && !h.main.ring.sq[0].Tell? && HostInv(h)
    ensures Safe(Do(h, MainSubmit(delivered)))
  {
    hide Gather, Claims, WorkersOk, Arrived, Queued, MainOk, MailOk, Books;
    var r, h' := h.main.ring, Do(h, MainSubmit(delivered)).value;
    MainTaken(h.main, |h.workers|);
    SubmitBooks(h, h');
    forall k: nat ensures Queued(h'.main.ring.sq, k) == Queued(h.main.ring.sq, k) {
      FirstQueued(r.sq, k);
      NotQueued(r.sq[0], k);
    }
    SameMail(h, h');
    SameWorkers(h, h');
  }

  lemma MainToldOk(m: Main, threads: nat, res: int)
    requires MainOk(m, threads) && |m.ring.sq| > 0 && m.ring.sq[0].Tell?
    ensures MainOk(MainTold(m, res), threads)
  {
    hide Gather, Queued;
    MainFirst(m.ring);
    var c := Completion(TokenOf(m.ring.sq[0]), res);
    MainPosted(m.ring.(sq := m.ring.sq[1..]), c);
  }

  /** A message that could not be delivered: a handover is the main thread's again, to close. */
  lemma MainUndelivered(h: Host)
    requires Enabled(h, MainSubmit(false)) && h.main.ring.sq[0].Tell? && HostInv(h)
    ensures Safe(Do(h, MainSubmit(false)))
  {
    hide Gather, Claims, WorkersOk, Arrived, Queued, MailOk, Books, MainUnreaped;
    var r, h' := h.main.ring, Do(h, MainSubmit(false)).value;
    assert MainOp(r.sq[0], |h.workers|);
    MainToldOk(h.main, |h.workers|, -1);
    UndeliveredBooks(h, h');
    DroppedMail(h, h');
    SameWorkers(h, h');
  }

  lemma UndeliveredBooks(h: Host, h': Host)
    requires Books(h) && |h.main.ring.sq| > 0 && MainOp(h.main.ring.sq[0], |h.workers|) && h.main.ring.sq[0].Tell?
    requires h' == h.(main := MainTold(h.main, -1))
    ensures Books(h')
  {
    hide Gather, Claims, Queued;
    var r := h.main.ring;
    MainFirst(r);
    MainPosted(r, Completion(TokenOf(r.sq[0]), -1));
    assert Admitted(h') == Admitted(h) && Accepted(h') == Accepted(h);
  }

  /** A message less is mail still. */
  lemma ShapedLess(a: seq<Message>, x: seq<Message>, b: seq<Message>, told: bool, stopping: bool)
    requires MailShaped(a + (x + b), told, stopping) && |x| <= 1
    ensures MailShaped(a + b, told, stopping)
  {
    var mail, less := a + (x + b), a + b;
    forall i | 0 <= i < |less| ensures less[i].Handed? || (less[i].StopNow? && told && i == |less| - 1) {
      assert less[i] == if i < |a| then mail[i] else mail[i + |x|];
    }
  }

  lemma FirstQueued(sq: seq<Op>, k: nat)
    requires |sq| > 0
    ensures Queued(sq, k) == Queued([sq[0]], k) + Queued(sq[1..], k) && |Queued([sq[0]], k)| <= 1
  {
    NotQueued(sq[0], k);
  }

  lemma DroppedMail(h: Host, h': Host)
    requires MailOk(h) && |h.main.ring.sq| > 0 && h'.workers == h.workers && h'.main.stopping == h.main.stopping
    requires h'.main.ring.sq == h.main.ring.sq[1..]
    ensures MailOk(h')
  {
    hide Arrived, Queued, MailShaped, Gather, MainUnreaped;
    forall k | 0 <= k < |h.workers| ensures MailShaped(Mail(h', k), h'.main.stopping, h'.workers[k].stopping) {
      assert MailShaped(Mail(h, k), h.main.stopping, h.workers[k].stopping);
      FirstQueued(h.main.ring.sq, k);
      var x := Queued([h.main.ring.sq[0]], k);
      ShapedLess(Arrived(h.workers[k].ring.cq), x, Queued(h'.main.ring.sq, k), h.main.stopping, h.workers[k].stopping);
    }
  }

  /** A message delivered: what was queued for its worker has arrived there. */
  lemma DeliveredMail(h: Host, k: nat, c: Completion, h': Host)
    requires MailOk(h) && |h.main.ring.sq| > 0 && k < |h.workers| && h'.main.stopping == h.main.stopping
    requires h.main.ring.sq[0].Tell? && h.main.ring.sq[0].to == WorkerRing(k)
    requires Arrived([c]) == [h.main.ring.sq[0].message]
    requires h'.main.ring.sq == h.main.ring.sq[1..] && h'.workers == h.workers[k := Arrive(h.workers[k], c)]
    ensures MailOk(h')
  {
    hide Arrived, Queued, MailShaped, Gather, MainUnreaped;
    ArrivedAppend(h.workers[k].ring.cq, c);
    forall i | 0 <= i < |h.workers| ensures MailShaped(Mail(h', i), h'.main.stopping, h'.workers[i].stopping) {
      assert MailShaped(Mail(h, i), h.main.stopping, h.workers[i].stopping);
      FirstQueued(h.main.ring.sq, i);
      NotQueued(h.main.ring.sq[0], i);
      assert Mail(h', i) == Mail(h, i);
    }
  }

  lemma ArriveClaims(w: Worker, c: Completion)
    ensures Claims(Arrive(w, c)) == Claims(w) + CompletionClaims(c)
  {
    hide Gather;
    GatherAppend(w.ring.cq, c, CompletionClaims);
  }

  lemma DeliveredClaims(h: Host, k: nat, c: Completion, h': Host)
    requires |h.main.ring.sq| > 0 && k < |h.workers| && h.main.ring.sq[0].Tell?
    requires OpClaims(h.main.ring.sq[0]) == CompletionClaims(c)
    requires h' == WithWorker(h.(main := MainTold(h.main, 0)), k, Arrive(h.workers[k], c))
    ensures Admitted(h') == Admitted(h) && Accepted(h') == Accepted(h)
  {
    hide Gather, Claims, Queued, CompletionClaims, OpClaims, Arrive, MainUnreaped;
    var r := h.main.ring;
    MainFirst(r);
    MainPosted(r, Completion(TokenOf(r.sq[0]), 0));
    ArriveClaims(h.workers[k], c);
    GatherUpdate(h.workers, k, Arrive(h.workers[k], c), Claims);
    MovedClaim(Gather(r.sq, OpClaims), Gather(r.sq[1..], OpClaims), CompletionClaims(c), Gather(r.cq, MainClaims),
               Gather(h.workers, Claims), Gather(h'.workers, Claims), Claims(h.workers[k]));
    assert Gather(r.cq, MainClaims) + multiset{} == Gather(r.cq, MainClaims);
    assert Gather(r.cq, AcceptClaims) + multiset{} == Gather(r.cq, AcceptClaims);
  }

  lemma MovedClaim(sq: multiset<int>, sq': multiset<int>, x: multiset<int>, cq: multiset<int>, ws: multiset<int>,
                   ws': multiset<int>, w: multiset<int>)
    requires sq == sq' + x && ws' + w == ws + (w + x)
    ensures sq' + cq + ws' == sq + cq + ws
  {
    forall e ensures (sq' + cq + ws')[e] == (sq + cq + ws)[e] {
      assert (ws' + w)[e] == (ws + (w + x))[e] && sq[e] == (sq' + x)[e];
    }
  }

  lemma DeliveredBooks(h: Host, k: nat, c: Completion, h': Host)
    requires Books(h) && |h.main.ring.sq| > 0 && k < |h.workers| && h.main.ring.sq[0].Tell?
    requires OpClaims(h.main.ring.sq[0]) == CompletionClaims(c)
    requires h' == WithWorker(h.(main := MainTold(h.main, 0)), k, Arrive(h.workers[k], c))
    ensures Books(h')
  {
    hide Admitted, Accepted, Claims;
    DeliveredClaims(h, k, c, h');
  }

  lemma FirstIsMain(m: Main, threads: nat)
    requires MainOk(m, threads) && |m.ring.sq| > 0
    ensures MainOp(m.ring.sq[0], threads)
  {
    hide Gather;
  }

  lemma ArrivedWorkers(h: Host, k: nat, c: Completion, h': Host)
    requires WorkersOk(h) && k < |h.workers| && h'.workers == h.workers[k := Arrive(h.workers[k], c)]
    requires c.token.kind == KStop || (c.token.kind == KHanded && c.res >= 0)
    ensures WorkersOk(h')
  {
    hide Inv;
    assert Inv(h.workers[k]);
    ArriveKeeps(h.workers[k], c);
  }

  lemma MainDelivered(h: Host)
    requires Enabled(h, MainSubmit(true)) && h.main.ring.sq[0].Tell? && HostInv(h)
    ensures Safe(Do(h, MainSubmit(true)))
  {
    hide Gather, Claims, Inv, Arrived, Queued, MailOk, Books, MainOk, WorkersOk, Arrive;
    var op, h' := h.main.ring.sq[0], Do(h, MainSubmit(true)).value;
    FirstIsMain(h.main, |h.workers|);
    var k := op.to.index;
    var c := if op.message.StopNow? then Completion(Token(KStop, 0, 0), 0)
             else Completion(Token(KHanded, 0, 0), op.message.fd);
    QuietArrived(c);
    assert h' == WithWorker(h.(main := MainTold(h.main, 0)), k, Arrive(h.workers[k], c));
    MainToldOk(h.main, |h.workers|, 0);
    DeliveredBooks(h, k, c, h');
    DeliveredMail(h, k, c, h');
    ArrivedWorkers(h, k, c, h');
  }

  // ----- an accept ends -----

  lemma {:induction false} AcceptedFew(cq: seq<Completion>)
    requires forall i :: 0 <= i < |cq| ==> MainCompletion(cq[i])
    ensures |Gather(cq, AcceptClaims)| <= Gather(cq, MainTokens)[Token(KAccept, 0, 0)]
  {
    if cq != [] {
      assert MainCompletion(cq[0]);
      AcceptedFew(cq[1..]);
    }
  }

  /** The kernel gives the lowest number free, so one past as many as are taken is the most it gives. */
  lemma {:induction false} LowestNumber(taken: set<int>, n: nat)
    requires forall i :: 0 <= i < n ==> i in taken
    ensures n <= |taken|
  {
    if n > 0 {
      LowestNumber(taken - {n - 1}, n - 1);
    }
  }

  lemma OpenFew(h: Host)
    requires Books(h)
    ensures |h.open| <= |Admitted(h) + Accepted(h)|
  {
    hide Gather, Claims;
    var m := Admitted(h) + Accepted(h);
    assert multiset(h.open) <= m by {
      forall x | x in h.open ensures m[x] == 1 { assert 0 <= x; }
    }
    SmallerSum(multiset(h.open), m);
  }

  lemma AcceptInFlight(m: Main, j: nat, threads: nat)
    requires MainOk(m, threads) && j < |m.ring.flight| && m.ring.flight[j].Accept?
    ensures m.accepting && Gather(m.ring.cq, AcceptClaims) == multiset{}
  {
    hide Gather;
    GatherHas(m.ring.flight, j, OpTokens);
    AcceptedFew(m.ring.cq);
    assert |Gather(m.ring.cq, AcceptClaims)| == 0;
  }

  lemma MainLandedTokens(r: Ring, j: nat, res: int)
    requires j < |r.flight| && TokenOf(r.flight[j]).kind != KFreed
    ensures MainUnreaped(Landed(r, j, res)) == MainUnreaped(r)
  {
    hide Gather;
    GatherRemove(r.flight, j, OpTokens);
    MainPosted(r.(flight := r.flight[..j] + r.flight[j + 1..]), Completion(TokenOf(r.flight[j]), res));
  }

  lemma MainLandedQueues(r: Ring, j: nat, res: int, threads: nat)
    requires MainQueues(r, threads) && j < |r.flight|
    ensures MainQueues(Landed(r, j, res), threads)
  {
    assert MainOp(r.flight[j], threads) && !r.flight[j].Tell?;
    var f := r.flight[..j] + r.flight[j + 1..];
    forall i | 0 <= i < |f| ensures MainOp(f[i], threads) && !f[i].Tell? {
      assert f[i] == if i < j then r.flight[i] else r.flight[i + 1];
    }
  }

  lemma MainLanded(m: Main, j: nat, res: int, threads: nat)
    requires MainOk(m, threads) && j < |m.ring.flight|
    ensures MainOk(m.(ring := Landed(m.ring, j, res)), threads)
  {
    hide MainUnreaped;
    MainLandedQueues(m.ring, j, res, threads);
    assert MainOp(m.ring.flight[j], threads);
    MainLandedTokens(m.ring, j, res);
  }

  lemma OpenedBooks(h: Host, h': Host, fd: nat)
    requires Books(h) && h'.main.admitted == h.main.admitted && h'.main.accepting == h.main.accepting
    requires h'.others == h.others && h'.open == h.open + {fd} && Admitted(h') == Admitted(h)
    requires Accepted(h) == multiset{} && Accepted(h') == multiset{fd}
    requires fd !in h.open + h.others && forall n :: 0 <= n < fd ==> n in h.open + h.others
    ensures Books(h')
  {
    hide Gather, Claims, Admitted, Accepted;
    OpenFew(h);
    assert Admitted(h) + Accepted(h) == Admitted(h);
    LowestNumber(h.open + h.others, fd);
    forall x | x >= 0 ensures (Admitted(h') + Accepted(h'))[x] == if x in h'.open then 1 else 0 {
      assert (Admitted(h) + Accepted(h))[x] == if x in h.open then 1 else 0;
    }
  }

  lemma LandedClaim(op: Op, res: int)
    requires !op.Tell?
    ensures MainClaims(Completion(TokenOf(op), res)) == multiset{}
    ensures AcceptClaims(Completion(TokenOf(op), res)) == if op.Accept? && res >= 0 then multiset{res} else multiset{}
  {
  }

  lemma LandedClaims(h: Host, j: nat, res: int, h': Host)
    requires j < |h.main.ring.flight| && !h.main.ring.flight[j].Tell? && h'.workers == h.workers
    requires h'.main.ring == Landed(h.main.ring, j, res)
    ensures Admitted(h') == Admitted(h)
    ensures Accepted(h') == Accepted(h) + (if h.main.ring.flight[j].Accept? && res >= 0 then multiset{res} else multiset{})
  {
    hide Gather, Claims, MainUnreaped, MainClaims, AcceptClaims;
    var op := h.main.ring.flight[j];
    MainPosted(h.main.ring, Completion(TokenOf(op), res));
    LandedClaim(op, res);
    assert Gather(h.main.ring.cq, MainClaims) + multiset{} == Gather(h.main.ring.cq, MainClaims);
  }

  lemma LandedBooks(h: Host, j: nat, res: int, h': Host)
    requires Books(h) && MainOk(h.main, |h.workers|) && j < |h.main.ring.flight|
    requires h.main.ring.flight[j].Accept? && res >= 0 ==>
               res !in h.open + h.others && forall n :: 0 <= n < res ==> n in h.open + h.others
    requires h' == h.(main := h.main.(ring := Landed(h.main.ring, j, res)),
                      open := if h.main.ring.flight[j].Accept? && res >= 0 then h.open + {res} else h.open)
    ensures Books(h')
  {
    hide Gather, Claims, MainUnreaped;
    var op := h.main.ring.flight[j];
    assert MainOp(op, |h.workers|) && !op.Tell?;
    LandedClaims(h, j, res, h');
    hide Admitted;
    if op.Accept? && res >= 0 {
      AcceptInFlight(h.main, j, |h.workers|);
      OpenedBooks(h, h', res);
    }
  }

  lemma MainCompleteSafe(h: Host, j: nat, res: int)
    requires HostInv(h) && Enabled(h, MainComplete(j, res))
    ensures Safe(Do(h, MainComplete(j, res)))
  {
    hide Gather, Claims, WorkersOk, Arrived, Queued, MailOk, Books, MainOk;
    var h' := Do(h, MainComplete(j, res)).value;
    LandedBooks(h, j, res, h');
    MainLanded(h.main, j, res, |h.workers|);
    SameMail(h, h');
    SameWorkers(h, h');
  }

  // ----- the main thread reaps -----

  /** The main thread's state with the first completion off its queue and out of its counts. */
  function Reduced(m: Main): Main
    requires |m.ring.cq| > 0
  {
    var c, r := m.ring.cq[0], m.ring.(cq := m.ring.cq[1..]);
    m.(ring := if c.token.kind == KFreed then r else r.(live := if m.ring.live > 0 then m.ring.live - 1 else 0),
       accepting := m.accepting && c.token.kind != KAccept)
  }

  lemma ReducedTokens(r: Ring)
    requires |r.cq| > 0
    ensures MainUnreaped(r) == MainUnreaped(r.(cq := r.cq[1..])) + MainTokens(r.cq[0])
    ensures Gather(r.cq, MainClaims) == Gather(r.cq[1..], MainClaims) + MainClaims(r.cq[0])
    ensures Gather(r.cq, AcceptClaims) == Gather(r.cq[1..], AcceptClaims) + AcceptClaims(r.cq[0])
  {
    assert r.cq[..0] + r.cq[1..] == r.cq[1..];
    GatherRemove(r.cq, 0, MainTokens);
    GatherRemove(r.cq, 0, MainClaims);
    GatherRemove(r.cq, 0, AcceptClaims);
  }

  /** A completion of the main ring's own is always of something live, and an accept's of the one accept. */
  lemma ReducedOk(m: Main, threads: nat)
    requires MainOk(m, threads) && |m.ring.cq| > 0
    ensures MainOk(Reduced(m), threads)
    ensures m.ring.cq[0].token.kind != KFreed ==> m.ring.live > 0
    ensures m.ring.cq[0].token.kind == KAccept ==> m.accepting
    ensures MainPop(m) == Next(Reduced(m).(accepting := m.accepting)) && MainCompletion(m.ring.cq[0])
  {
    hide Gather;
    var r := m.ring;
    assert MainCompletion(r.cq[0]);
    ReducedTokens(r);
    var u, u' := MainUnreaped(r), MainUnreaped(r.(cq := r.cq[1..]));
    assert |u| == |u'| + |MainTokens(r.cq[0])|;
    assert MainUnreaped(Reduced(m).ring) == u';
  }

  lemma ReducedClaims(h: Host)
    requires |h.main.ring.cq| > 0
    ensures var h1 := h.(main := Reduced(h.main));
            && Admitted(h) == Admitted(h1) + MainClaims(h.main.ring.cq[0])
            && Accepted(h) == Accepted(h1) + AcceptClaims(h.main.ring.cq[0])
  {
    hide Gather, Claims, MainUnreaped;
    ReducedTokens(h.main.ring);
  }

  lemma ReducedMail(h: Host)
    requires MailOk(h) && |h.main.ring.cq| > 0
    ensures MailOk(h.(main := Reduced(h.main)))
  {
    hide Arrived, Queued;
    SameMail(h, h.(main := Reduced(h.main)));
  }

  /** A descriptor with its one claim gone may be closed: nothing uses it, and the rest of the books stand. */
  lemma DroppedBooks(h: Host, h': Host, fd: nat)
    requires Books(h) && WorkersOk(h) && h'.workers == h.workers && h'.others == h.others
    requires Admitted(h) + Accepted(h) == Admitted(h') + Accepted(h') + multiset{fd}
    requires h'.main.admitted == |Admitted(h')| <= SLOTS && (h'.main.accepting ==> h'.main.admitted < SLOTS)
    requires h'.open == h.open - {fd}
    ensures Books(h') && ClosesWell(h.open, h.workers, {fd})
  {
    hide Gather, Claims, Accepted;
    var a, a' := Admitted(h) + Accepted(h), Admitted(h') + Accepted(h');
    assert a[fd] == a'[fd] + 1;
    forall x | x >= 0 ensures a'[x] == if x in h'.open then 1 else 0 {
      assert a[x] == if x in h.open then 1 else 0;
      assert x != fd ==> a[x] == a'[x];
    }
    assert Admitted(h')[fd] == 0;
    UnclaimedUnused(h', fd);
  }

  lemma {:induction false} TellStopOk(m: Main, failed: set<nat>, k: nat, threads: nat)
    requires MainOk(m, threads) && k <= threads
    ensures var m' := TellStop(m, failed, k, threads);
            && MainOk(m', threads) && m' == m.(ring := m'.ring) && m'.ring.cq == m.ring.cq
            && Gather(m'.ring.sq, OpClaims) == Gather(m.ring.sq, OpClaims)
    decreases threads - k
  {
    hide Gather, Queued, MainOk;
    if k < threads {
      var op := Tell(k, 0, WorkerRing(k), StopNow);
      var m1 := if k in failed then m else m.(ring := Push(m.ring, op));
      if k !in failed {
        PushOk(m, op, threads, m.accepting);
        MainPush(m.ring, op);
        assert m1 == m.(accepting := m.accepting, ring := Push(m.ring, op));
      }
      TellStopOk(m1, failed, k + 1, threads);
    }
  }

  lemma {:induction false} TellStopMail(m: Main, failed: set<nat>, k: nat, threads: nat, i: nat)
    requires k <= threads
    ensures Queued(TellStop(m, failed, k, threads).ring.sq, i) ==
            Queued(m.ring.sq, i) + if k <= i < threads && i !in failed then [StopNow] else []
    decreases threads - k
  {
    hide Queued;
    if k < threads {
      var op := Tell(k, 0, WorkerRing(k), StopNow);
      if k in failed {
        TellStopMail(m, failed, k + 1, threads, i);
      } else {
        QueuedAppend(m.ring.sq, op, i);
        NotQueued(op, i);
        TellStopMail(m.(ring := Push(m.ring, op)), failed, k + 1, threads, i);
      }
    }
  }

  lemma CancelsOk(m: Main, threads: nat)
    requires MainOk(m, threads)
    ensures var r := Cancelling(m);
            && MainOk(m.(stopping := true, ring := r), threads) && r.cq == m.ring.cq
            && Gather(r.sq, OpClaims) == Gather(m.ring.sq, OpClaims)
            && (forall k :: Queued(r.sq, k) == Queued(m.ring.sq, k))
  {
    hide Gather, Queued, MainOk;
    var r := if m.accepting then Push(m.ring, CancelOp(0)) else m.ring;
    var m1, m2 := m.(ring := r), m.(ring := Cancelling(m));
    if m.accepting {
      PushOk(m, CancelOp(0), threads, m.accepting);
      MainPush(m.ring, CancelOp(0));
      assert m1 == m.(accepting := m.accepting, ring := r);
    }
    if m.signalArmed {
      PushOk(m1, CancelOp(1), threads, m.accepting);
      MainPush(r, CancelOp(1));
      assert m2 == m1.(accepting := m.accepting, ring := Push(r, CancelOp(1)));
    }
    FlagsOk(m2, m2.(stopping := true), threads);
    forall k: nat ensures Queued(m2.ring.sq, k) == Queued(m.ring.sq, k) {
      NotQueued(CancelOp(0), k);
      NotQueued(CancelOp(1), k);
    }
  }

  lemma StopMail(h: Host, h': Host)
    requires MailOk(h) && MainOk(h.main, |h.workers|) && !h.main.stopping
    requires h' == h.(main := Stop(h.main, h.failed, |h.workers|))
    ensures MailOk(h')
  {
    hide Arrived, Queued, MainOk, Cancelling;
    CancelsOk(h.main, |h.workers|);
    var m1 := h.main.(stopping := true, ring := Cancelling(h.main));
    TellStopOk(m1, h.failed, 0, |h.workers|);
    forall k | 0 <= k < |h.workers| ensures MailShaped(Mail(h', k), h'.main.stopping, h'.workers[k].stopping) {
      assert MailShaped(Mail(h, k), h.main.stopping, h.workers[k].stopping);
      TellStopMail(m1, h.failed, 0, |h.workers|, k);
      assert Mail(h', k) == Mail(h, k) || Mail(h', k) == Mail(h, k) + [StopNow];
    }
  }

  /** The stop, told once: each worker that serves has it last of what it is told. */
  lemma StopSafe(h: Host)
    requires HostInv(h)
    ensures HostInv(h.(main := Stop(h.main, h.failed, |h.workers|)))
  {
    hide Gather, Claims, WorkersOk, Arrived, Queued, MainOk, MailOk, Cancelling;
    var h' := h.(main := Stop(h.main, h.failed, |h.workers|));
    if h.main.stopping {
      assert h' == h;
    } else {
      CancelsOk(h.main, |h.workers|);
      TellStopOk(h.main.(stopping := true, ring := Cancelling(h.main)), h.failed, 0, |h.workers|);
      assert Admitted(h') == Admitted(h) && Accepted(h') == Accepted(h);
      SameWorkers(h, h');
      StopMail(h, h');
    }
  }

  /** The host with the main thread's first completion off its queue. */
  function HeadTaken(h: Host): Host
    requires |h.main.ring.cq| > 0
  {
    h.(main := Reduced(h.main))
  }

  lemma ReducedHost(h: Host)
    requires HostInv(h) && |h.main.ring.cq| > 0
    ensures var h1 := HeadTaken(h); WorkersOk(h1) && MainOk(h1.main, |h1.workers|) && MailOk(h1) && ExitOk(h1)
  {
    hide Gather, Claims, Arrived, Queued, MailShaped, Inv, MainUnreaped;
    ReducedOk(h.main, |h.workers|);
    ReducedMail(h);
  }

  /** A completion that stands for no claim leaves the books as they are. */
  lemma PlainHost(h: Host)
    requires HostInv(h) && |h.main.ring.cq| > 0
    requires MainClaims(h.main.ring.cq[0]) == multiset{} && AcceptClaims(h.main.ring.cq[0]) == multiset{}
    ensures HostInv(HeadTaken(h))
  {
    hide Gather, Claims, WorkersOk, MainOk, MailOk, Admitted, Accepted;
    ReducedHost(h);
    ReducedClaims(h);
  }

  lemma FlaggedHost(h: Host)
    requires HostInv(h)
    ensures HostInv(h.(main := h.main.(signalArmed := false)))
  {
    hide Gather, Claims, WorkersOk, Arrived, Queued, MainOk, MailOk;
    var h' := h.(main := h.main.(signalArmed := false));
    assert Admitted(h') == Admitted(h) && Accepted(h') == Accepted(h);
    FlagsOk(h.main, h'.main, |h.workers|);
    SameMail(h, h');
    SameWorkers(h, h');
  }

  /** A place given back is one admitted: the count never goes below none. */
  lemma FreedRead(h: Host)
    requires HostInv(h) && |h.main.ring.cq| > 0 && h.main.ring.cq[0].token.kind == KFreed
    ensures h.main.admitted > 0
    ensures HostInv(HeadTaken(h).(main := Reduced(h.main).(admitted := h.main.admitted - 1)))
  {
    hide Gather, Claims, WorkersOk, MainOk, MailOk, Accepted;
    ReducedHost(h);
    ReducedClaims(h);
    var h1 := HeadTaken(h);
    var h2 := h1.(main := h1.main.(admitted := h1.main.admitted - 1));
    assert |Admitted(h)| == |Admitted(h1)| + 1;
    assert Admitted(h2) == Admitted(h1) && Accepted(h2) == Accepted(h1) by { SameRing(h1, h2); }
    FlagsOk(h1.main, h2.main, |h.workers|);
    SameMail(h1, h2) by { hide Queued; }
    SameWorkers(h1, h2);
    forall x | x >= 0 ensures (Admitted(h2) + Accepted(h2))[x] == if x in h2.open then 1 else 0 {
      assert (Admitted(h) + Accepted(h))[x] == if x in h.open then 1 else 0;
    }
  }

  lemma SameRing(h: Host, h': Host)
    requires h'.main.ring == h.main.ring && h'.workers == h.workers
    ensures Admitted(h') == Admitted(h) && Accepted(h') == Accepted(h)
  {
  }

  /** A handover that could not be delivered is closed by the main thread and its place taken back. */
  lemma HandFailed(h: Host)
    requires HostInv(h) && |h.main.ring.cq| > 0
    requires MainClaims(h.main.ring.cq[0]) == multiset{h.main.ring.cq[0].token.slot as int}
    requires h.main.ring.cq[0].token.kind == KTold
    ensures var fd, m := h.main.ring.cq[0].token.slot, Reduced(h.main).(admitted := h.main.admitted - 1);
            Safe(Closing(h.(main := m), {fd}))
  {
    hide Gather, Claims, WorkersOk, MainOk, MailOk, Accepted, Admitted;
    var fd, m := h.main.ring.cq[0].token.slot, Reduced(h.main).(admitted := h.main.admitted - 1);
    ReducedHost(h);
    ReducedClaims(h);
    var h1, h2 := HeadTaken(h), h.(main := m, open := h.open - {fd});
    SameRing(h1, h2);
    assert |Admitted(h)| == |Admitted(h1)| + 1;
    DroppedBooks(h, h2, fd);
    FlagsOk(h1.main, m, |h.workers|);
    SameMail(h1, h2);
    SameWorkers(h1, h2);
    assert Closing(h.(main := m), {fd}) == Next(h2);
  }

  /** A connection the main thread will not serve is closed. */
  lemma AcceptClosed(h: Host)
    requires HostInv(h) && |h.main.ring.cq| > 0 && h.main.ring.cq[0].token.kind == KAccept && h.main.ring.cq[0].res >= 0
    ensures Safe(Closing(HeadTaken(h), {h.main.ring.cq[0].res}))
  {
    hide Gather, Claims, WorkersOk, MainOk, MailOk, Accepted, Admitted;
    var fd, h1 := h.main.ring.cq[0].res, HeadTaken(h);
    ReducedHost(h);
    ReducedClaims(h);
    var h2 := h1.(open := h.open - {fd});
    SameRing(h1, h2);
    DroppedBooks(h, h2, fd);
    SameMail(h1, h2);
    SameWorkers(h1, h2);
    assert Closing(h1, {fd}) == Next(h2);
  }

  /** A connection handed over is admitted, and still no more than the slots. */
  lemma HandBooks(h: Host, h2: Host)
    requires HostInv(h) && |h.main.ring.cq| > 0 && h.main.ring.cq[0].token.kind == KAccept && h.main.ring.cq[0].res >= 0
    requires h2 == h.(main := Hand(Reduced(h.main), h.main.ring.cq[0].res, |h.workers|))
    ensures Books(h2) && h.main.ring.cq[0].res < MARKS
  {
    hide Gather, Claims, WorkersOk, MailOk, Queued;
    var fd, h1 := h.main.ring.cq[0].res, HeadTaken(h);
    ReducedOk(h.main, |h.workers|);
    ReducedClaims(h);
    HandClaims(h1, fd, h2);
    hide Admitted, Accepted;
    assert |Admitted(h2)| == |Admitted(h)| + 1;
    forall x | x >= 0 ensures (Admitted(h2) + Accepted(h2))[x] == if x in h2.open then 1 else 0 {
      assert (Admitted(h) + Accepted(h))[x] == if x in h.open then 1 else 0;
    }
    assert (Admitted(h) + Accepted(h))[fd] == if fd in h.open then 1 else 0;
  }

  lemma HandClaims(h: Host, fd: nat, h': Host)
    requires |h.workers| > 0 && h' == h.(main := Hand(h.main, fd, |h.workers|))
    ensures Admitted(h') == Admitted(h) + multiset{fd} && Accepted(h') == Accepted(h)
  {
    hide Gather, Claims, MainUnreaped, Queued;
    MainPush(h.main.ring, Tell(fd % MARKS, 1, WorkerRing(h.main.nextThread), Handed(fd)));
  }

  lemma HandMail(h: Host, fd: nat, h': Host)
    requires MailOk(h) && |h.workers| > 0 && !h.main.stopping && h' == h.(main := Hand(h.main, fd, |h.workers|))
    ensures MailOk(h')
  {
    hide Arrived, Queued, Gather;
    var op := Tell(fd % MARKS, 1, WorkerRing(h.main.nextThread), Handed(fd));
    MainPush(h.main.ring, op);
    forall k | 0 <= k < |h.workers| ensures MailShaped(Mail(h', k), h'.main.stopping, h'.workers[k].stopping) {
      assert MailShaped(Mail(h, k), h.main.stopping, h.workers[k].stopping);
      NotQueued(op, k);
      assert Mail(h', k) == Mail(h, k) || Mail(h', k) == Mail(h, k) + [Handed(fd)];
    }
  }

  lemma HandOk(m: Main, fd: nat, threads: nat)
    requires MainOk(m, threads) && fd < MARKS
    ensures MainOk(Hand(m, fd, threads), threads)
  {
    hide Gather, MainUnreaped;
    var op := Tell(fd % MARKS, 1, WorkerRing(m.nextThread), Handed(fd));
    PushOk(m, op, threads, m.accepting);
    assert Hand(m, fd, threads).ring == Push(m.ring, op);
  }

  lemma HandSafe(h: Host)
    requires HostInv(h) && |h.main.ring.cq| > 0 && h.main.ring.cq[0].token.kind == KAccept && h.main.ring.cq[0].res >= 0
    requires !h.main.stopping
    ensures HostInv(h.(main := Hand(Reduced(h.main), h.main.ring.cq[0].res, |h.workers|)))
  {
    hide Gather, Claims, MailOk, MainOk, Books;
    var fd, h1 := h.main.ring.cq[0].res, HeadTaken(h);
    var h2 := h.(main := Hand(Reduced(h.main), fd, |h.workers|));
    ReducedHost(h);
    HandBooks(h, h2);
    HandOk(h1.main, fd, |h.workers|);
    HandMail(h1, fd, h2);
    SameWorkers(h1, h2);
  }

  lemma ClosingNone(h: Host)
    ensures Closing(h, {}) == Next(h)
  {
    assert h.(open := h.open - {}) == h;
  }

  /** The main thread acts on any completion without a violation. */
  /** A signal's poll ended: the main thread may stop. */
  lemma MainReapSignal(h: Host, ends: bool, shaped: bool)
    requires HostInv(h) && Enabled(h, MainReap(ends, shaped)) && h.main.ring.cq[0].token.kind == KSignal
    ensures Safe(Do(h, MainReap(ends, shaped)))
  {
    hide Gather, Claims, MailOk, MainOk, Books, Closing, Stop, Inv, ExitOk;
    var h1 := HeadTaken(h);
    ReducedOk(h.main, |h.workers|);
    PlainHost(h);
    FlaggedHost(h1);
    var h2 := h1.(main := h1.main.(signalArmed := false));
    StopSafe(h2);
    ClosingNone(h2);
    ClosingNone(h2.(main := Stop(h2.main, h.failed, |h.workers|)));
  }

  /** An accept ended: a connection to hand over or close, or an error, which may be fatal. */
  lemma MainReapAccept(h: Host, ends: bool, shaped: bool)
    requires HostInv(h) && Enabled(h, MainReap(ends, shaped)) && h.main.ring.cq[0].token.kind == KAccept
    ensures Safe(Do(h, MainReap(ends, shaped)))
  {
    hide Gather, Claims, MailOk, MainOk, Books, Closing, Stop, Inv, ExitOk;
    var c, h1 := h.main.ring.cq[0], HeadTaken(h);
    ReducedOk(h.main, |h.workers|);
    if c.res >= 0 {
      if h.main.stopping || !shaped {
        AcceptClosed(h);
      } else {
        HandSafe(h);
        ClosingNone(h.(main := Hand(Reduced(h.main), c.res, |h.workers|)));
      }
    } else {
      PlainHost(h);
      StopSafe(h1);
      ClosingNone(h1);
      ClosingNone(h1.(main := Stop(h1.main, h.failed, |h.workers|)));
    }
  }

  lemma MainReapSafe(h: Host, ends: bool, shaped: bool)
    requires HostInv(h) && Enabled(h, MainReap(ends, shaped))
    ensures Safe(Do(h, MainReap(ends, shaped)))
  {
    hide Gather, Claims, MailOk, MainOk, Books, Closing, Stop, Inv, ExitOk;
    var c, h1 := h.main.ring.cq[0], HeadTaken(h);
    ReducedOk(h.main, |h.workers|);
    match c.token.kind
    case KFreed =>
      FreedRead(h);
      ClosingNone(h1.(main := h1.main.(admitted := h.main.admitted - 1)));
    case KAccept => MainReapAccept(h, ends, shaped);
    case KSignal => MainReapSignal(h, ends, shaped);
    case KTold =>
      if c.res >= 0 {
        PlainHost(h);
        ClosingNone(h1);
      } else if c.token.gen == 1 {
        HandFailed(h);
      }
    case KCancel =>
      PlainHost(h);
      ClosingNone(h1);
  }
}
