/** The file system the store runs on and what a crash may leave of it. A name holds a file or nothing; since the last
    directory sync that counts it may be left holding anything it held. A file keeps the octets nothing touched since its
    last sync that counts, then has any octets, up to the most it has held. */
module CrashModel {
  type byte = n: int | 0 <= n < 256
  type bytes = seq<byte>

  datatype Held = Nothing | Holds(file: nat)

  /** `latest` has the last octets written at each place since the last sync, `appends` each append with its place. */
  datatype File = File(seen: bytes, kept: bytes, most: nat, trusted: bool, latest: bytes, appends: seq<(nat, bytes)>)

  datatype Name = Name(synced: Held, since: seq<Held>) {
    function Now(): Held { if since == [] then synced else since[|since| - 1] }

    /** Everything it has held since the directory's last sync. */
    function All(): seq<Held> { [synced] + since }
  }

  datatype Disk = Disk(names: map<bytes, Name>, files: seq<File>, dirTrusted: bool) {
    function Holding(name: bytes): Held { if name in names then names[name].Now() else Nothing }

    function Held(name: bytes): seq<Held> { if name in names then names[name].All() else [Nothing] }

    function Bind(name: bytes, h: Held): Disk {
      var n := if name in names then names[name] else Name(Nothing, []);
      this.(names := names[name := n.(since := n.since + [h])])
    }
  }

  datatype Op =
    | Create(name: bytes) | Open(name: bytes) | Rename(src: bytes, dst: bytes) | Remove(name: bytes) | SyncDir | List
    | Append(file: nat, octets: bytes) | Truncate(file: nat, n: nat) | Sync(file: nat)
    | Read(file: nat, at: nat, n: nat) | Size(file: nat)

  datatype Answer =
    | Exists | Missing | Done | FileIs(file: nat) | Names(held: set<bytes>) | Octets(octets: bytes) | SizeIs(n: nat)

  const EMPTY_FILE := File([], [], 0, true, [], [])
  const EMPTY_DISK := Disk(map[], [], true)

  function Max(a: nat, b: nat): nat { if a > b then a else b }

  function Min(a: nat, b: nat): nat { if a < b then a else b }

  /** The first `n` octets, or all. */
  function Cut(s: bytes, n: nat): bytes { s[..Min(n, |s|)] }

  function From(s: bytes, n: nat): bytes { s[Min(n, |s|)..] }

  function Zeros(n: nat): bytes { seq(n, i => 0) }

  /** At least `n` octets, zeros added. */
  function Just(s: bytes, n: nat): bytes { if |s| < n then s + Zeros(n - |s|) else s }

  function Appended(f: File, octets: bytes): File {
    var at := |f.seen|;
    f.(seen := f.seen + octets, most := Max(f.most, at + |octets|),
       latest := Just(Cut(f.latest, at), at) + octets + From(f.latest, at + |octets|),
       appends := f.appends + [(at, octets)])
  }

  function Truncated(f: File, n: nat): File {
    f.(seen := Just(Cut(f.seen, n), n), kept := Cut(f.kept, n), most := Max(f.most, n), latest := Just(f.latest, n))
  }

  function Synced(f: File): File {
    if f.trusted then f.(kept := f.seen, most := |f.seen|, latest := f.seen, appends := []) else f
  }

  /** The names as they are, durable. */
  function Settled(names: map<bytes, Name>): map<bytes, Name> {
    map n | n in names && names[n].Now() != Nothing :: Name(names[n].Now(), [])
  }

  function DoFile(f: File, op: Op): (File, Answer) {
    if op.Append? then (Appended(f, op.octets), Done)
    else if op.Truncate? then (Truncated(f, op.n), Done)
    else if op.Sync? then (Synced(f), Done)
    else if op.Read? then (f, Octets(Cut(From(f.seen, op.at), op.n)))
    else (f, SizeIs(|f.seen|))
  }

  /** What an operation does when it succeeds, and what it answers. */
  function Do(d: Disk, op: Op): (Disk, Answer) {
    match op
    case Create(name) =>
      if d.Holding(name) != Nothing then (d, Exists)
      else (d.(files := d.files + [EMPTY_FILE]).Bind(name, Holds(|d.files|)), FileIs(|d.files|))
    case Open(name) => (d, if d.Holding(name) == Nothing then Missing else FileIs(d.Holding(name).file))
    case Rename(src, dst) =>
      var f := d.Holding(src);
      if f == Nothing then (d, Missing)
      else if d.Holding(dst) != f then (d.Bind(dst, f).Bind(src, Nothing), Done)
      else (d, Done)
    case Remove(name) => if d.Holding(name) == Nothing then (d, Missing) else (d.Bind(name, Nothing), Done)
    case SyncDir => (if d.dirTrusted then d.(names := Settled(d.names)) else d, Done)
    case List => (d, Names(set n | n in d.names && d.names[n].Now() != Nothing))
    case _ =>
      if op.file >= |d.files| then (d, Missing)
      else
        var (f, a) := DoFile(d.files[op.file], op);
        (d.(files := d.files[op.file := f]), a)
  }

  /** Whether an operation has a `k`-th way of failing: an append, one for each first part of its octets; a sync, one;
      anything else, all or nothing. */
  predicate Fails(op: Op, k: nat) {
    match op
    case Append(_, octets) => k <= |octets|
    case Sync(_) => k == 0
    case SyncDir => k == 0
    case _ => k <= 1
  }

  /** What the `k`-th way of failing leaves. */
  function Fail(d: Disk, op: Op, k: nat): Disk
    requires Fails(op, k)
  {
    match op
    case Append(f, octets) => Do(d, Append(f, octets[..k])).0
    case Sync(f) => if f < |d.files| then d.(files := d.files[f := d.files[f].(trusted := false)]) else d
    case SyncDir => d.(dirTrusted := false)
    case _ => if k == 1 then Do(d, op).0 else d
  }

  datatype Event = Did(op: Op) | Failed(op: Op, k: nat)

  predicate Possible(e: Event) { e.Failed? ==> Fails(e.op, e.k) }

  function Step(d: Disk, e: Event): Disk
    requires Possible(e)
  {
    match e
    case Did(op) => Do(d, op).0
    case Failed(op, k) => Fail(d, op, k)
  }

  /** Whether the operation is one on an open file. */
  predicate OfFile(op: Op) { op.Append? || op.Truncate? || op.Sync? || op.Read? || op.Size? }

  /** What an operation makes of one file. */
  lemma FileAfter(d: Disk, op: Op, f: nat)
    requires f < |d.files|
    ensures f < |Do(d, op).0.files|
    ensures Do(d, op).0.files[f] == if OfFile(op) && op.file == f then DoFile(d.files[f], op).0 else d.files[f]
  {
    hide DoFile;
  }

  // ---- What every run keeps

  predicate FileOk(f: File) { f.kept <= f.seen && |f.seen| <= f.most }

  predicate NameOk(n: Name, files: nat) {
    forall h {:trigger h in n.All()} :: h in n.All() && h.Holds? ==> h.file < files
  }

  ghost predicate Inv(d: Disk) {
    && (forall f {:trigger d.files[f]} :: 0 <= f < |d.files| ==> FileOk(d.files[f]))
    && (forall n {:trigger d.names[n]} :: n in d.names ==> NameOk(d.names[n], |d.files|))
  }

  lemma BindInv(d: Disk, name: bytes, h: Held)
    requires Inv(d) && (h.Holds? ==> h.file < |d.files|)
    ensures Inv(d.Bind(name, h))
  {
    var d' := d.Bind(name, h);
    forall n | n in d'.names ensures NameOk(d'.names[n], |d'.files|) {
      assert n in d.names ==> NameOk(d.names[n], |d.files|);
      if n == name {
        var was := if n in d.names then d.names[n] else Name(Nothing, []);
        assert d'.names[n].All() == was.All() + [h];
      }
    }
  }

  lemma HoldingOk(d: Disk, name: bytes)
    requires Inv(d)
    ensures d.Holding(name) in d.Held(name)
    ensures forall h :: h in d.Held(name) && h.Holds? ==> h.file < |d.files|
  {
    if name in d.names {
      assert NameOk(d.names[name], |d.files|);
      var n := d.names[name];
      if n.since != [] { assert n.All()[|n.since|] == n.Now(); }
    }
  }

  lemma FileInv(d: Disk, f: nat, file: File)
    requires Inv(d) && f < |d.files| && FileOk(file)
    ensures Inv(d.(files := d.files[f := file]))
  {
  }

  lemma SettledInv(d: Disk)
    requires Inv(d)
    ensures Inv(d.(names := Settled(d.names)))
  {
    var d' := d.(names := Settled(d.names));
    forall n | n in d'.names ensures NameOk(d'.names[n], |d'.files|) {
      HoldingOk(d, n);
      assert d'.names[n].All() == [d.Holding(n)];
    }
  }

  lemma CreateInv(d: Disk, name: bytes)
    requires Inv(d)
    ensures Inv(d.(files := d.files + [EMPTY_FILE]).Bind(name, Holds(|d.files|)))
  {
    var d' := d.(files := d.files + [EMPTY_FILE]);
    forall n | n in d'.names ensures NameOk(d'.names[n], |d'.files|) {
      assert NameOk(d.names[n], |d.files|);
    }
    BindInv(d', name, Holds(|d.files|));
  }

  lemma DoInv(d: Disk, op: Op)
    requires Inv(d)
    ensures Inv(Do(d, op).0)
  {
    match op {
      case Create(name) => CreateInv(d, name);
      case Rename(src, dst) =>
        var f := d.Holding(src);
        if f != Nothing && d.Holding(dst) != f {
          HoldingOk(d, src);
          BindInv(d, dst, f);
          BindInv(d.Bind(dst, f), src, Nothing);
        }
      case Remove(name) => BindInv(d, name, Nothing);
      case SyncDir => SettledInv(d);
      case Append(f, octets) => if f < |d.files| { FileInv(d, f, Appended(d.files[f], octets)); }
      case Truncate(f, n) => if f < |d.files| { FileInv(d, f, Truncated(d.files[f], n)); }
      case Sync(f) => if f < |d.files| { FileInv(d, f, Synced(d.files[f])); }
      case _ =>
    }
  }

  lemma StepInv(d: Disk, e: Event)
    requires Inv(d) && Possible(e)
    ensures Inv(Step(d, e))
  {
    hide Do;
    match e {
      case Did(op) => DoInv(d, op);
      case Failed(op, k) =>
        match op {
          case Append(f, octets) => DoInv(d, Append(f, octets[..k]));
          case Sync(f) => if f < |d.files| { FileInv(d, f, d.files[f].(trusted := false)); }
          case SyncDir =>
          case _ => DoInv(d, op);
        }
    }
  }

  // ---- What a crash may leave

  type Image = map<bytes, bytes>

  predicate Allowed(f: File, octets: bytes) { f.kept <= octets && |octets| <= f.most }

  /** A file for each name the image has: one the name held, with octets the file may be left with, the same under all
      its names. */
  ghost predicate Explains(d: Disk, img: Image, pick: map<bytes, nat>) {
    && pick.Keys == img.Keys
    && (forall n {:trigger pick[n]} :: n in img ==>
          Holds(pick[n]) in d.Held(n) && pick[n] < |d.files| && Allowed(d.files[pick[n]], img[n]))
    && (forall n, m {:trigger pick[n], pick[m]} :: n in img && m in img && pick[n] == pick[m] ==> img[n] == img[m])
  }

  /** Every name the image lacks may have been left holding nothing. */
  ghost predicate Bare(d: Disk, img: Image) { forall n {:trigger d.Held(n)} :: n !in img ==> Nothing in d.Held(n) }

  ghost predicate Leaves(d: Disk, img: Image) { Bare(d, img) && exists pick :: Explains(d, img, pick) }

  /** What the program sees. */
  function Seen(d: Disk): Image {
    map n | n in d.names && d.names[n].Now().Holds? && d.names[n].Now().file < |d.files| ::
      d.files[d.names[n].Now().file].seen
  }

  /** What the program sees may always be left. */
  lemma SeenLeft(d: Disk)
    requires Inv(d)
    ensures Leaves(d, Seen(d))
  {
    var img := Seen(d);
    var pick := map n | n in img :: d.names[n].Now().file;
    forall n | n in img ensures Holds(pick[n]) in d.Held(n) && Allowed(d.files[pick[n]], img[n]) {
      HoldingOk(d, n);
      assert FileOk(d.files[pick[n]]);
    }
    forall n | n !in img ensures Nothing in d.Held(n) {
      HoldingOk(d, n);
    }
    assert Explains(d, img, pick);
  }

  // ---- Each step only adds, but a sync that counts, which only removes

  /** `d'` may leave whatever `d` may. */
  ghost predicate Wider(d: Disk, d': Disk) {
    && |d.files| <= |d'.files|
    && (forall n, h {:trigger h in d'.Held(n)} {:trigger h in d.Held(n)} :: h in d.Held(n) ==> h in d'.Held(n))
    && (forall f {:trigger d'.files[f]} :: 0 <= f < |d.files| ==>
          d'.files[f].kept <= d.files[f].kept && d.files[f].most <= d'.files[f].most)
  }

  lemma WiderLeaves(d: Disk, d': Disk, img: Image)
    requires Wider(d, d') && Leaves(d, img)
    ensures Leaves(d', img)
  {
    var pick :| Explains(d, img, pick);
    forall n | n in img
      ensures Holds(pick[n]) in d'.Held(n) && pick[n] < |d'.files| && Allowed(d'.files[pick[n]], img[n])
    {
      assert Holds(pick[n]) in d.Held(n);
      assert d'.files[pick[n]].kept <= d.files[pick[n]].kept;
    }
    assert Explains(d', img, pick);
  }

  predicate Counts(d: Disk, e: Event) {
    e.Did? && ((e.op.SyncDir? && d.dirTrusted) || (e.op.Sync? && e.op.file < |d.files| && d.files[e.op.file].trusted))
  }

  lemma BindWider(d: Disk, name: bytes, h: Held)
    ensures Wider(d, d.Bind(name, h))
    ensures forall n, h' {:trigger h' in d.Bind(name, h).Held(n)} ::
      h' in d.Bind(name, h).Held(n) <==> h' in d.Held(n) || (n == name && h' == h)
    ensures forall n {:trigger d.Bind(name, h).Holding(n)} ::
      d.Bind(name, h).Holding(n) == if n == name then h else d.Holding(n)
  {
    var d' := d.Bind(name, h);
    var was := if name in d.names then d.names[name] else Name(Nothing, []);
    assert d'.Held(name) == was.All() + [h] == d.Held(name) + [h];
    assert forall n :: n != name ==> d'.Held(n) == d.Held(n);
  }

  lemma WiderTwice(a: Disk, b: Disk, c: Disk)
    requires Wider(a, b) && Wider(b, c)
    ensures Wider(a, c)
  {
    forall f | 0 <= f < |a.files| ensures c.files[f].kept <= a.files[f].kept && a.files[f].most <= c.files[f].most {
      assert b.files[f].kept <= a.files[f].kept && c.files[f].kept <= b.files[f].kept;
    }
    forall n, h | h in a.Held(n) ensures h in c.Held(n) {
      assert h in b.Held(n);
    }
  }

  lemma DoWider(d: Disk, op: Op)
    requires !Counts(d, Did(op))
    ensures Wider(d, Do(d, op).0)
  {
    hide Wider, DoFile;
    match op {
      case Create(name) =>
        var d' := d.(files := d.files + [EMPTY_FILE]);
        NewWider(d);
        BindWider(d', name, Holds(|d.files|));
        WiderTwice(d, d', d'.Bind(name, Holds(|d.files|)));
        ItselfWider(d);
      case Rename(src, dst) =>
        var f := d.Holding(src);
        if f != Nothing && d.Holding(dst) != f {
          BindWider(d, dst, f);
          BindWider(d.Bind(dst, f), src, Nothing);
          WiderTwice(d, d.Bind(dst, f), d.Bind(dst, f).Bind(src, Nothing));
        }
        ItselfWider(d);
      case Remove(name) =>
        BindWider(d, name, Nothing);
        ItselfWider(d);
      case _ => FileWider(d, op);
    }
  }

  lemma ItselfWider(d: Disk)
    ensures Wider(d, d)
  {
  }

  lemma NewWider(d: Disk)
    ensures Wider(d, d.(files := d.files + [EMPTY_FILE]))
  {
    assert forall n :: d.(files := d.files + [EMPTY_FILE]).Held(n) == d.Held(n);
  }

  /** A sync that failed, of a file or of the directory. */
  lemma MistrustWider(d: Disk, f: nat)
    ensures f < |d.files| ==> Wider(d, d.(files := d.files[f := d.files[f].(trusted := false)]))
    ensures Wider(d, d.(dirTrusted := false))
  {
    assert forall n :: d.(dirTrusted := false).Held(n) == d.Held(n);
    if f < |d.files| {
      var d' := d.(files := d.files[f := d.files[f].(trusted := false)]);
      assert forall n :: d'.Held(n) == d.Held(n);
    }
  }

  /** An operation that binds no name. */
  lemma FileWider(d: Disk, op: Op)
    requires !Counts(d, Did(op)) && !op.Create? && !op.Rename? && !op.Remove?
    ensures Wider(d, Do(d, op).0)
  {
    var d' := Do(d, op).0;
    assert d'.names == d.names && forall n :: d'.Held(n) == d.Held(n);
    forall f | 0 <= f < |d.files|
      ensures d'.files[f].kept <= d.files[f].kept && d.files[f].most <= d'.files[f].most
    {
      FileAfter(d, op, f);
    }
  }

  lemma StepAdds(d: Disk, e: Event, img: Image)
    requires Possible(e) && !Counts(d, e) && Leaves(d, img)
    ensures Leaves(Step(d, e), img)
  {
    hide Do, Leaves, Wider;
    ItselfWider(d);
    match e {
      case Did(op) => DoWider(d, op);
      case Failed(op, k) =>
        match op {
          case Append(f, octets) => DoWider(d, Append(f, octets[..k]));
          case Sync(f) => MistrustWider(d, f);
          case SyncDir => MistrustWider(d, |d.files|);
          case _ =>
            if k == 1 { DoWider(d, op); }
        }
    }
    WiderLeaves(d, Step(d, e), img);
  }

  lemma StepRemoves(d: Disk, e: Event, img: Image)
    requires Inv(d) && Possible(e) && Counts(d, e) && Leaves(Step(d, e), img)
    ensures Leaves(d, img)
  {
    var d' := Step(d, e);
    if e.op.SyncDir? {
      SettledHeld(d);
    } else {
      assert FileOk(d.files[e.op.file]);
      assert forall n :: d'.Held(n) == d.Held(n);
    }
    WiderLeaves(d', d, img);
  }

  /** After a directory sync that counts a name may only be left as it is. */
  lemma SettledHeld(d: Disk)
    requires Inv(d)
    ensures var d' := d.(names := Settled(d.names));
      (forall n {:trigger d'.Held(n)} :: d'.Held(n) == [d.Holding(n)]) && Wider(d', d)
  {
    var d' := d.(names := Settled(d.names));
    forall n ensures d'.Held(n) == [d.Holding(n)] && d.Holding(n) in d.Held(n) {
      HoldingOk(d, n);
    }
  }
}
