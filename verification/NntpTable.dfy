/** The NNTP host's tables changed in place, each method proved to do what `NntpHost` has it do. */
module NntpTable {
  import opened Counting
  import opened NntpHost
  import opened NntpSafety

  function IsUsable(): Conn -> bool { (c: Conn) => Usable(c) }

  class HostTable {
    const conns: array<Conn>
    const lingering: array<Lingering>
    const toLinger: array<int>
    var queued: nat
    var mode: Mode
    var sendsLive: nat
    var acted: set<nat>
    var batched: set<nat>
    var lingered: nat
    var accepted: nat
    var ended: nat
    var shut: seq<int>
    /** What the kernel has of the host's operations. */
    var inflight: seq<Token>

    ghost predicate Valid()
      reads this
    {
      conns.Length == CONNS && lingering.Length == LINGERING && toLinger.Length == CONNS && queued <= CONNS
    }

    ghost function Snapshot(): Host
      requires Valid()
      reads this, conns, lingering, toLinger
    {
      Host(conns[..], lingering[..], toLinger[..queued], inflight, mode, sendsLive, acted, batched, lingered, accepted,
           ended, shut)
    }

    /** The tables as the host starts, where the invariant of every run holds. */
    constructor ()
      ensures Valid() && Snapshot() == Start() && Inv(Snapshot())
      ensures fresh(conns) && fresh(lingering) && fresh(toLinger)
    {
      hide Inv;
      conns := new Conn[CONNS](_ => Conn(-1, -1, 0, 0, false, false, false, false, false, false));
      lingering := new Lingering[LINGERING](_ => Lingering(-1, 0, false, false));
      toLinger := new int[CONNS](_ => -1);
      queued, mode, sendsLive, acted, batched := 0, In(Turn), 0, {}, {};
      lingered, accepted, ended, shut, inflight := 0, 0, 0, [], [];
      new;
      assert conns[..] == Start().conns && lingering[..] == Start().lingering;
      StartInv();
    }

    /** How many indexes are free. */
    method FreeIndexes() returns (n: nat)
      requires Valid()
      ensures n == Tally(conns[..], IsUsable())
    {
      n := 0;
      var i := 0;
      while i < CONNS
        invariant i <= CONNS && n == Tally(conns[..i], IsUsable())
      {
        TallyAppend(conns[..i], conns[i], IsUsable());
        assert conns[..i + 1] == conns[..i] + [conns[i]];
        if Usable(conns[i]) { n := n + 1; }
        i := i + 1;
      }
      assert conns[..CONNS] == conns[..];
    }

    /** The connection given the lowest free index, there being one. */
    method AdmitConn(fd: int, tls: bool) returns (i: nat)
      requires Valid() && Tally(conns[..], IsUsable()) > 0
      modifies this`accepted, conns
      ensures Valid() && i == LowestUsable(old(conns[..]), 0) < CONNS && Snapshot() == Admit(old(Snapshot()), fd, tls)
    {
      SomeUsable(conns[..]);
      ghost var was := conns[..];
      i := 0;
      while !Usable(conns[i])
        invariant i < CONNS && conns[..] == was && LowestUsable(was, 0) == LowestUsable(was, i) < CONNS
        decreases CONNS - i
      {
        i := i + 1;
      }
      conns[i] := Conn(fd, -1, conns[i].gen + 1, 0, false, false, false, false, false, tls);
      accepted := accepted + 1;
      assert conns[..] == was[i := conns[i]];
    }

    method LetGoOf(i: nat, fd: int) returns (ok: bool)
      requires Valid() && i < CONNS
      modifies this`queued, this`shut, toLinger
      ensures Valid() && LetGo(old(Snapshot()), i, fd) == if ok then Next(Snapshot()) else Violation
    {
      if conns[i].lingers {
        if queued == CONNS { return false; }
        toLinger[queued] := fd;
        queued := queued + 1;
        assert toLinger[..queued] == old(toLinger[..queued]) + [fd];
      } else {
        shut := shut + [fd];
      }
      ok := true;
    }

    method RetireConn(i: nat, lingers: bool) returns (ok: bool)
      requires Valid() && i < CONNS
      modifies this`queued, this`shut, this`inflight, conns, toLinger
      ensures Valid() && Retire(old(Snapshot()), i, lingers) == if ok then Next(Snapshot()) else Violation
    {
      ghost var was := conns[..];
      var c := conns[i];
      conns[i] := c.(fd := -1, input := false, lingers := lingers);
      assert conns[..] == was[i := conns[i]];
      if c.ops == 0 {
        ok := LetGoOf(i, c.fd);
        return;
      }
      conns[i] := conns[i].(closing := c.fd, ops := c.ops + 1);
      inflight := inflight + [ConnOp(Cancel, i, c.gen)];
      assert conns[..] == was[i := conns[i]];
      ok := true;
    }

    method FreeConn(i: nat) returns (ok: bool)
      requires Valid() && i < CONNS
      modifies this`queued, this`shut, this`inflight, this`ended, conns, toLinger
      ensures Valid() && FreeIndex(old(Snapshot()), i) == if ok then Next(Snapshot()) else Violation
    {
      ok := true;
      if conns[i].fd >= 0 {
        ok := RetireConn(i, false);
        if !ok { return; }
      }
      ghost var was := conns[..];
      conns[i] := conns[i].(reading := false, lost := false);
      ended := ended + 1;
      assert conns[..] == was[i := conns[i]];
    }

    /** What a receive took, given out: octets, the end of the client's at 0, an error below; one that is not of the
        moment ends the connection. */
    method GiveConn(i: nat, got: int, passing: bool) returns (ok: bool)
      requires Valid() && i < CONNS && conns[i].fd >= 0 && conns[i].reading
      modifies this`queued, this`shut, this`inflight, this`ended, conns, toLinger
      ensures Valid()
      ensures (if got < 0 && !passing then FreeIndex(old(Snapshot()), i) else Next(GiveOut(old(Snapshot()), i, got == 0)))
        == if ok then Next(Snapshot()) else Violation
    {
      hide FreeIndex;
      ghost var was := conns[..];
      InputGone(Snapshot(), i);
      conns[i] := conns[i].(input := false);
      assert conns[..] == was[i := conns[i]];
      ok := true;
      if got == 0 {
        conns[i] := conns[i].(reading := false);
        assert conns[..] == was[i := conns[i]];
      } else if got < 0 && !passing {
        ok := FreeConn(i);
      }
    }

    /** A completion of a connection's operation, taken off the ring before. */
    method TakeConn(t: Token) returns (ok: bool)
      requires Valid() && t.ConnOp?
      modifies this`queued, this`shut, this`sendsLive, conns, toLinger
      ensures Valid() && ConnCompleted(old(Snapshot()), t) == if ok then Next(Snapshot()) else Violation
    {
      hide LetGo, Put, Counted, Uncounted;
      if t.slot >= CONNS { return false; }
      var i, c := t.slot, conns[t.slot];
      if c.gen != t.gen || c.ops < 1 { return false; }
      Uncount(t.kind);
      var d := Counted(c, t.kind);
      if c.closing >= 0 {
        if c.ops == 1 {
          LastOp(c, t.kind);
          Change(i, d.(closing := -1));
          ok := LetGoOf(i, c.closing);
          return;
        }
        LastOp(c, t.kind);
        Change(i, d);
      } else {
        Change(i, if t.kind == Recv then d.(input := true) else d);
      }
      ok := true;
    }

    method Uncount(kind: Kind)
      requires Valid()
      modifies this`sendsLive
      ensures Snapshot() == Uncounted(old(Snapshot()), kind)
    {
      if kind == Send && sendsLive > 0 { sendsLive := sendsLive - 1; }
    }

    method Change(i: nat, c: Conn)
      requires Valid() && i < CONNS
      modifies conns
      ensures Snapshot() == Put(old(Snapshot()), i, c)
    {
      ghost var was := conns[..];
      conns[i] := c;
      assert conns[..] == was[i := c];
    }

    /** Where the next descriptor lingers. */
    method PlaceToLinger() returns (at: nat)
      requires Valid()
      ensures at == PlaceFrom(lingering[..], 0, 0)
    {
      at := 0;
      var i := 0;
      while i < LINGERING
        invariant i <= LINGERING && at < LINGERING && PlaceFrom(lingering[..], 0, 0) == PlaceFrom(lingering[..], i, at)
      {
        if lingering[i].fd < 0 { return i; }
        if lingering[i].since < lingering[at].since { at := i; }
        i := i + 1;
      }
    }
  }

  /** A connection freed loses its input anyhow. */
  lemma InputGone(h: Host, i: nat)
    requires i < |h.conns| && h.conns[i].fd >= 0
    ensures FreeIndex(Put(h, i, h.conns[i].(input := false)), i) == FreeIndex(h, i)
  {
    var g, c := Put(h, i, h.conns[i].(input := false)), h.conns[i].(fd := -1, input := false, lingers := false);
    var later := c.(closing := h.conns[i].fd, ops := c.ops + 1);
    assert g.conns[i := c] == h.conns[i := c] && g.conns[i := later] == h.conns[i := later];
    assert Retire(g, i, false) == Retire(h, i, false);
  }

  lemma LastOp(c: Conn, kind: Kind)
    requires c.ops >= 1
    ensures Counted(c, kind).ops == c.ops - 1
  {
  }

  lemma SomeUsable(conns: seq<Conn>)
    requires Tally(conns, IsUsable()) > 0
    ensures LowestUsable(conns, 0) < |conns|
  {
    if LowestUsable(conns, 0) == |conns| {
      NoneUsable(conns);
      assert false;
    }
  }

  lemma {:induction false} NoneUsable(conns: seq<Conn>)
    requires forall k :: 0 <= k < |conns| ==> !Usable(conns[k])
    ensures Tally(conns, IsUsable()) == 0
  {
    if conns != [] { NoneUsable(conns[1..]); }
  }

  /** Where the next lingers is free, or has lingered longest of all, none being free. */
  lemma {:induction false} PlaceIs(ls: seq<Lingering>, i: nat, at: nat)
    requires i <= |ls| && at < |ls| && (forall k :: 0 <= k < i ==> ls[k].fd >= 0 && ls[at].since <= ls[k].since)
    requires at < i || (i == 0 && at == 0)
    ensures var r := PlaceFrom(ls, i, at);
      ls[r].fd < 0 || forall k :: 0 <= k < |ls| ==> ls[k].fd >= 0 && ls[r].since <= ls[k].since
    decreases |ls| - i
  {
    if i < |ls| && ls[i].fd >= 0 { PlaceIs(ls, i + 1, if ls[i].since < ls[at].since then i else at); }
  }
}
