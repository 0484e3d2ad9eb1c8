/** The two queues of an io_uring ring as memory shared with the kernel: arrays indexed by counters of 32 bits that
    wrap. Entries come out in the order they went in, none is overwritten before it is taken, and `live` counts what is
    prepared or submitted and not yet reaped. */
module Ring {
  const WORD: nat := 0x1_0000_0000

  type u32 = n: int | 0 <= n < WORD

  /** Unsigned subtraction as the machine does it. */
  function Minus(a: u32, b: u32): (r: u32)
    ensures (b + r) % WORD == a
  {
    (a - b) % WORD
  }

  function Plus(a: u32, n: nat): u32 { (a + n) % WORD }

  /** The sizes a ring may have, powers of two up to 4096 and their doubles: dividing the counters' range is what lets
      a mask pick the same cell for a counter and for what it would be without wrapping. */
  predicate Mask(size: nat) { 0 < size <= 8192 && Divides(size) }

  predicate Divides(size: nat)
    requires size > 0
  {
    WORD % size == 0
  }

  /** Unsigned subtraction is the plain difference, a lap added when the head has not wrapped yet. */
  lemma Laps(a: u32, b: u32)
    ensures Minus(a, b) == if a >= b then a - b else a - b + WORD
  {
  }

  lemma Next(a: u32)
    ensures Plus(a, 1) == if a + 1 == WORD then 0 else a + 1
  {
  }

  /** The distance between two counters follows either of them by one, wrapped or not. */
  lemma Counters(a: u32, b: u32)
    ensures Minus(a, b) == 0 <==> a == b
    ensures Minus(a, b) + 1 < WORD ==> Minus(Plus(a, 1), b) == Minus(a, b) + 1
    ensures Minus(a, b) > 0 ==> Minus(a, Plus(b, 1)) == Minus(a, b) - 1
    ensures (b + Minus(a, b)) % WORD == a
  {
    hide Minus, Plus;
    Next(a);
    Next(b);
    Laps(a, b);
    Laps(Plus(a, 1), b);
    Laps(a, Plus(b, 1));
  }

  /** The cell a counter falls on. */
  function Cell(a: nat, size: nat): (c: nat)
    requires size > 0
    ensures c < size
  {
    a % size
  }

  lemma Multiple(size: int, d: int)
    requires size > 0
    ensures d >= 1 ==> size * d >= size
    ensures d <= -1 ==> size * d <= -size
  {
  }

  lemma CellOf(a: nat, q: int, r: nat, size: nat)
    requires size > 0 && a == size * q + r && r < size
    ensures Cell(a, size) == r
  {
    var q' := a / size;
    assert a == size * q' + a % size;
    assert size * (q - q') == a % size - r;
    Multiple(size, q - q');
  }

  lemma CellParts(a: nat, size: nat)
    requires size > 0
    ensures a == size * (a / size) + Cell(a, size)
  {
  }

  /** Wrapping a counter leaves it on its cell. */
  lemma CellWraps(a: nat, size: nat)
    requires Mask(size)
    ensures Cell(a % WORD, size) == Cell(a, size)
  {
    var q, k, b := WORD / size, a / WORD, a % WORD;
    assert WORD == size * q;
    CellParts(b, size);
    assert a == WORD * k + b == size * (q * k + b / size) + Cell(b, size);
    CellOf(a, q * k + b / size, Cell(b, size), size);
  }

  /** Cells less than the size apart are different cells. */
  lemma CellsApart(a: nat, j: nat, k: nat, size: nat)
    requires j < k < j + size
    ensures Cell(a + j, size) != Cell(a + k, size)
  {
    var x, y := (a + j) / size, (a + k) / size;
    CellParts(a + j, size);
    CellParts(a + k, size);
    assert size * (y - x) == k - j - (Cell(a + k, size) - Cell(a + j, size));
    Multiple(size, y - x);
  }

  /** The entries of a queue: from `head` on, `n` of them. */
  ghost function Entries<T>(cells: seq<T>, head: u32, n: nat): (s: seq<T>)
    requires |cells| > 0
    ensures |s| == n
  {
    seq(n, k requires 0 <= k => cells[Cell(head + k, |cells|)])
  }

  /** Writing the cell past the last entry adds an entry and changes none. */
  lemma EntriesWrite<T>(cells: seq<T>, head: u32, n: nat, x: T)
    requires n < |cells|
    ensures Entries(cells[Cell(head + n, |cells|) := x], head, n + 1) == Entries(cells, head, n) + [x]
  {
    hide Cell;
    var cells' := cells[Cell(head + n, |cells|) := x];
    forall k | 0 <= k < n ensures Entries(cells', head, n + 1)[k] == Entries(cells, head, n)[k] {
      CellsApart(head, k, n, |cells|);
    }
  }

  lemma EntryAt<T>(cells: seq<T>, head: u32, n: nat, k: nat)
    requires |cells| > 0 && k < n
    ensures Cell(head + k, |cells|) < |cells| && Entries(cells, head, n)[k] == cells[Cell(head + k, |cells|)]
  {
  }

  /** A counter moved on by one and a distance one less pick the same cell, wrapped or not. */
  lemma CellNext(head: u32, k: nat, size: nat)
    requires Mask(size)
    ensures Cell(Plus(head, 1) + k, size) == Cell(head + (k + 1), size)
  {
    hide Cell, Mask;
    CellWraps(Plus(head, 1) + k, size);
    CellWraps(head + (k + 1), size);
  }

  /** Moving the head past an entry takes that entry away and no other. */
  lemma EntriesDrop<T>(cells: seq<T>, head: u32, n: nat)
    requires n > 0 && Mask(|cells|)
    ensures Entries(cells, Plus(head, 1), n - 1) == Entries(cells, head, n)[1..]
  {
    hide Cell, Entries;
    var e, e' := Entries(cells, head, n), Entries(cells, Plus(head, 1), n - 1);
    forall k | 0 <= k < n - 1 ensures e'[k] == e[1..][k] {
      EntryAt(cells, head, n, k + 1);
      EntryAt(cells, Plus(head, 1), n - 1, k);
      CellNext(head, k, |cells|);
    }
  }

  lemma EntriesFirst<T>(cells: seq<T>, head: u32, n: nat)
    requires n > 0 && |cells| > 0
    ensures Entries(cells, head, n)[0] == cells[Cell(head, |cells|)]
  {
  }

  /** How many of the completions are of the ring's own operations; the others are messages from other rings. */
  function Own(posted: seq<(nat, int)>, foreign: nat -> bool): nat {
    if posted == [] then 0 else (if foreign(posted[0].0) then 0 else 1) + Own(posted[1..], foreign)
  }

  lemma {:induction false} OwnAppend(posted: seq<(nat, int)>, c: (nat, int), foreign: nat -> bool)
    ensures Own(posted + [c], foreign) == Own(posted, foreign) + if foreign(c.0) then 0 else 1
  {
    if posted != [] {
      assert (posted + [c])[1..] == posted[1..] + [c];
      OwnAppend(posted[1..], c, foreign);
    }
  }

  // ---- What an operation carries

  /** The user data of an operation: its generation cut to 32 bits, its slot to 24 and its kind to 8. */
  function Token(kind: nat, slot: nat, gen: nat): nat {
    (gen % 0x1_0000_0000) * 0x1_0000_0000 + (slot % 0x100_0000) * 0x100 + kind % 0x100
  }

  function TokenKind(t: nat): nat { t % 0x100 }

  function TokenSlot(t: nat): nat { t / 0x100 % 0x100_0000 }

  function TokenGen(t: nat): nat { t / 0x1_0000_0000 }

  /** Kind and slot come back from a token as they went in, and the generation up to its 32 bits. */
  lemma TokenParts(kind: nat, slot: nat, gen: nat)
    requires kind < 0x100 && slot < 0x100_0000
    ensures var t := Token(kind, slot, gen);
      TokenKind(t) == kind && TokenSlot(t) == slot && TokenGen(t) == gen % 0x1_0000_0000 && t < 0x1_0000_0000_0000_0000
  {
    var g := gen % 0x1_0000_0000;
    var t := Token(kind, slot, gen);
    assert t == (g * 0x100_0000 + slot) * 0x100 + kind;
    assert t / 0x100 == g * 0x100_0000 + slot;
  }

  datatype Taken = NothingReady | Ready(token: nat, res: int) | Aborts

  datatype Reply = Took(n: nat) | TimedOut | Interrupted | Busy | Fatal(code: nat)

  class Ring {
    const sqes: array<nat>
    const cqes: array<(nat, int)>
    var sqHead: u32
    var sqTail: u32
    var sqLocal: u32
    var cqHead: u32
    var cqTail: u32
    var live: nat
    const foreign: nat -> bool
    /** The operations the kernel has taken and not completed. */
    ghost var running: nat

    ghost predicate Valid()
      reads this
    {
      && Mask(sqes.Length) && Mask(cqes.Length)
      && Minus(sqLocal, sqHead) <= sqes.Length
      && Minus(cqTail, cqHead) <= cqes.Length
    }

    /** What is prepared and not yet taken by the kernel, oldest first. */
    ghost function Prepared(): seq<nat>
      requires Valid()
      reads this, sqes
    {
      Entries(sqes[..], sqHead, Minus(sqLocal, sqHead))
    }

    /** What the kernel has posted and the owner has not reaped, oldest first. */
    ghost function Posted(): seq<(nat, int)>
      requires Valid()
      reads this, cqes
    {
      Entries(cqes[..], cqHead, Minus(cqTail, cqHead))
    }

    /** `live` counts what is prepared, what the kernel runs, and what it has completed and nobody has reaped. */
    ghost predicate Balanced()
      requires Valid()
      reads this, sqes, cqes
    {
      live == |Prepared()| + running + Own(Posted(), foreign)
    }

    /** A ring as it is opened: nothing in it, the counters wherever the kernel has them. */
    constructor (entries: nat, submitted: u32, completed: u32, foreign: nat -> bool)
      requires Mask(entries) && Mask(2 * entries)
      ensures Valid() && Prepared() == [] && Posted() == [] && live == 0 && Balanced()
      ensures sqes.Length == entries && cqes.Length == 2 * entries && fresh(sqes) && fresh(cqes)
      ensures this.foreign == foreign && sqHead == submitted && cqHead == completed
    {
      sqes := new nat[entries](_ => 0);
      cqes := new (nat, int)[2 * entries](_ => (0, 0));
      sqHead, sqTail, sqLocal := submitted, submitted, submitted;
      cqHead, cqTail := completed, completed;
      live, running, this.foreign := 0, 0, foreign;
    }

    /** An entry prepared with `token`, unless every entry is prepared and unsubmitted. */
    method Get(token: nat) returns (ok: bool)
      requires Valid()
      modifies this`sqLocal, this`live, sqes
      ensures Valid()
      ensures ok <==> old(|Prepared()|) < sqes.Length
      ensures ok ==> Prepared() == old(Prepared()) + [token] && live == old(live) + 1
      ensures !ok ==> Prepared() == old(Prepared()) && live == old(live)
      ensures old(Balanced()) ==> Balanced()
    {
      hide Cell, Minus, Plus, Divides, Entries;
      if Minus(sqLocal, sqHead) >= sqes.Length { return false; }
      ghost var n := Minus(sqLocal, sqHead);
      Counters(sqLocal, sqHead);
      CellWraps(sqHead + n, sqes.Length);
      EntriesWrite(sqes[..], sqHead, n, token);
      ghost var before := sqes[..];
      sqes[Cell(sqLocal, sqes.Length)] := token;
      assert sqes[..] == before[Cell(sqHead + n, sqes.Length) := token];
      sqLocal := Plus(sqLocal, 1);
      assert Minus(sqLocal, sqHead) == n + 1;
      live := live + 1;
      ok := true;
    }

    /** The kernel takes the oldest entry. */
    method KernelTakes()
      requires Valid() && sqTail == sqLocal && |Prepared()| > 0
      modifies this`sqHead, this`running
      ensures Valid() && Prepared() == old(Prepared()[1..]) && running == old(running) + 1
      ensures old(Balanced()) ==> Balanced()
    {
      hide Cell, Minus, Plus, Divides, Entries;
      EntriesDrop(sqes[..], sqHead, Minus(sqLocal, sqHead));
      Counters(sqLocal, sqHead);
      sqHead := Plus(sqHead, 1);
      running := running + 1;
    }

    /** The kernel posts the completion of an operation it runs, or a message of another ring, room being left. */
    method KernelPosts(token: nat, res: int)
      requires Valid() && |Posted()| < cqes.Length
      requires foreign(token) || running > 0
      modifies this`cqTail, this`running, cqes
      ensures Valid() && Posted() == old(Posted()) + [(token, res)]
      ensures running == old(running) - if foreign(token) then 0 else 1
      ensures old(Balanced()) ==> Balanced()
    {
      hide Cell, Minus, Plus, Divides, Entries;
      OwnAppend(Posted(), (token, res), foreign);
      ghost var n := Minus(cqTail, cqHead);
      Counters(cqTail, cqHead);
      CellWraps(cqHead + n, cqes.Length);
      EntriesWrite(cqes[..], cqHead, n, (token, res));
      ghost var before := cqes[..];
      cqes[Cell(cqTail, cqes.Length)] := (token, res);
      assert cqes[..] == before[Cell(cqHead + n, cqes.Length) := (token, res)];
      cqTail := Plus(cqTail, 1);
      running := running - if foreign(token) then 0 else 1;
      assert Minus(cqTail, cqHead) == n + 1;
    }

    /** Submits what is prepared, over as many calls as the kernel's replies ask for: `got` of a reply is how many of the
        entries offered it took. `done` is false when the replies ran out with the loop still going. */
    method Enter(replies: seq<Reply>) returns (done: bool, code: int)
      requires Valid()
      modifies this`sqTail, this`sqHead, this`running
      ensures Valid() && (done ==> sqTail == sqLocal)
      ensures old(Balanced()) ==> Balanced()
      ensures exists n :: 0 <= n <= old(|Prepared()|) && Prepared() == old(Prepared())[n..]
      ensures code <= 0 && (code < 0 ==> exists i :: 0 <= i < |replies| && replies[i] == Fatal(-code))
      ensures (forall i :: 0 <= i < |replies| ==> replies[i].Took? || replies[i].Interrupted?) && done ==>
        Prepared() == []
    {
      hide Cell, Minus, Plus, Divides, Entries;
      done, code := false, 0;
      ghost var was, n := Prepared(), 0;
      var i := 0;
      while i < |replies|
        decreases |replies| - i
        invariant i <= |replies| && Valid() && !done && code == 0
        invariant 0 <= n <= |was| && Prepared() == was[n..]
        invariant old(Balanced()) ==> Balanced()
      {
        sqTail := sqLocal;
        var submit := Minus(sqLocal, sqHead);
        match replies[i] {
        case TimedOut => return true, 0;
        case Busy => return true, 0;
        case Fatal(c) => return true, -(c as int);
        case Interrupted =>
        case Took(k) =>
          var got := if k < submit then k else submit;
          ghost var m := n;
          assert submit == |Prepared()| == |was| - m;
          var t := 0;
          while t < got
            invariant t <= got && Valid() && sqTail == sqLocal && n == m + t <= |was| && Prepared() == was[n..]
            invariant old(Balanced()) ==> Balanced()
          {
            KernelTakes();
            n := n + 1;
            t := t + 1;
          }
          Counters(sqLocal, sqHead);
          if got >= submit || sqHead == sqLocal {
            assert |Prepared()| == 0;
            return true, 0;
          }
        }
        i := i + 1;
      }
    }

    /** The next completion; one of the ring's own is no longer live, and with none live the process stops, which a
        kernel that posts one completion per operation never brings about. */
    method Take() returns (t: Taken)
      requires Valid()
      modifies this`cqHead, this`live
      ensures Valid()
      ensures t.NothingReady? <==> old(Posted()) == []
      ensures t.NothingReady? ==> Posted() == [] && live == old(live)
      ensures t.Ready? ==> old(Posted())[0] == (t.token, t.res) && Posted() == old(Posted())[1..]
      ensures t.Ready? ==> live == old(live) - if foreign(t.token) then 0 else 1
      ensures t.Aborts? <==> old(Posted()) != [] && !foreign(old(Posted())[0].0) && old(live) == 0
      ensures old(Balanced()) ==> Balanced() && !t.Aborts?
    {
      hide Cell, Minus, Plus, Divides, Entries;
      Counters(cqTail, cqHead);
      if cqHead == cqTail { return NothingReady; }
      EntriesDrop(cqes[..], cqHead, Minus(cqTail, cqHead));
      var c := cqes[Cell(cqHead, cqes.Length)];
      EntriesFirst(cqes[..], cqHead, Minus(cqTail, cqHead));
      cqHead := Plus(cqHead, 1);
      if !foreign(c.0) {
        if live == 0 { return Aborts; }
        live := live - 1;
      }
      return Ready(c.0, c.1);
    }

    /** Closing stops the process exactly when some operation of the ring's own is prepared, running or unreaped. */
    method Close() returns (aborts: bool)
      requires Valid()
      ensures Balanced() ==> (aborts <==> Prepared() != [] || running > 0 || Own(Posted(), foreign) > 0)
    {
      aborts := live > 0;
    }
  }
}
