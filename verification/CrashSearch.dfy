/** The disk changed in place, and the searches over it: whether a crash may leave an image, and images it may leave. */
module CrashSearch {
  import opened CrashModel

  class FileSystem {
    var names: map<bytes, Name>
    var files: seq<File>
    var dirTrusted: bool

    ghost function Snapshot(): Disk
      reads this
    {
      Disk(names, files, dirTrusted)
    }

    constructor ()
      ensures Snapshot() == EMPTY_DISK
    {
      names, files, dirTrusted := map[], [], true;
    }

    method Holding(name: bytes) returns (h: Held)
      ensures h == Snapshot().Holding(name)
    {
      h := if name in names then names[name].Now() else Nothing;
    }

    method Bind(name: bytes, h: Held)
      modifies this`names
      ensures Snapshot() == old(Snapshot()).Bind(name, h)
    {
      if name !in names { names := names[name := Name(Nothing, [])]; }
      var n := names[name];
      names := names[name := n.(since := n.since + [h])];
    }

    /** What an operation does when it succeeds, and what it answers. */
    method Perform(op: Op) returns (a: Answer)
      modifies this
      ensures (Snapshot(), a) == Do(old(Snapshot()), op)
    {
      a := Done;
      match op {
        case Create(name) =>
          var h := Holding(name);
          if h != Nothing { return Exists; }
          files := files + [EMPTY_FILE];
          Bind(name, Holds(|files| - 1));
          a := FileIs(|files| - 1);
        case Open(name) =>
          var h := Holding(name);
          a := if h == Nothing then Missing else FileIs(h.file);
        case Rename(src, dst) =>
          var f := Holding(src);
          if f == Nothing { return Missing; }
          var g := Holding(dst);
          if g != f {
            Bind(dst, f);
            Bind(src, Nothing);
          }
        case Remove(name) =>
          var h := Holding(name);
          if h == Nothing { return Missing; }
          Bind(name, Nothing);
        case SyncDir =>
          if dirTrusted { names := Settled(names); }
        case List =>
          a := Names(set n | n in names && names[n].Now() != Nothing);
        case _ =>
          if op.file >= |files| { return Missing; }
          a := PerformFile(op);
      }
    }

    method PerformFile(op: Op) returns (a: Answer)
      requires op.Append? || op.Truncate? || op.Sync? || op.Read? || op.Size?
      requires op.file < |files|
      modifies this`files
      ensures files == old(files)[op.file := DoFile(old(files[op.file]), op).0]
      ensures a == DoFile(old(files[op.file]), op).1
    {
      var f := files[op.file];
      a := Done;
      match op {
        case Append(_, octets) => files := files[op.file := Appended(f, octets)];
        case Truncate(_, n) => files := files[op.file := Truncated(f, n)];
        case Sync(_) =>
          if f.trusted { files := files[op.file := f.(kept := f.seen, most := |f.seen|, latest := f.seen, appends := [])]; }
        case Read(_, at, n) => a := Octets(Cut(From(f.seen, at), n));
        case Size(_) => a := SizeIs(|f.seen|);
      }
    }

    /** What the `k`-th way of the operation failing leaves; false when it has no such way. */
    method PerformFailing(op: Op, k: nat) returns (ok: bool)
      modifies this
      ensures ok <==> Fails(op, k)
      ensures ok ==> Snapshot() == Fail(old(Snapshot()), op, k)
      ensures !ok ==> Snapshot() == old(Snapshot())
    {
      match op {
        case Append(f, octets) =>
          if k > |octets| { return false; }
          var _ := Perform(Append(f, octets[..k]));
        case Sync(f) =>
          if k != 0 { return false; }
          if f < |files| { files := files[f := files[f].(trusted := false)]; }
        case SyncDir =>
          if k != 0 { return false; }
          dirTrusted := false;
        case _ =>
          if k == 1 {
            var _ := Perform(op);
          } else if k != 0 {
            return false;
          }
      }
      ok := true;
    }
  }

  // ---- Choices

  function Extended<T>(starts: seq<seq<T>>, ends: seq<T>): seq<seq<T>>
    decreases |starts|
  {
    if starts == [] then [] else seq(|ends|, i requires 0 <= i < |ends| => starts[0] + [ends[i]]) + Extended(starts[1..], ends)
  }

  /** Every way of taking one of each, the last changing fastest. */
  function Product<T>(choices: seq<seq<T>>): seq<seq<T>> {
    if choices == [] then [[]] else Extended(Product(choices[..|choices| - 1]), choices[|choices| - 1])
  }

  lemma {:induction false} InExtended<T>(starts: seq<seq<T>>, ends: seq<T>, x: seq<T>)
    ensures x in Extended(starts, ends) <==> |x| > 0 && x[..|x| - 1] in starts && x[|x| - 1] in ends
  {
    if starts != [] {
      InExtended(starts[1..], ends, x);
      var first := seq(|ends|, i requires 0 <= i < |ends| => starts[0] + [ends[i]]);
      if |x| > 0 && x[..|x| - 1] == starts[0] && x[|x| - 1] in ends {
        var i :| 0 <= i < |ends| && ends[i] == x[|x| - 1];
        assert first[i] == x;
      }
      if x in first {
        var i :| 0 <= i < |ends| && first[i] == x;
        assert x[..|x| - 1] == starts[0];
      }
    }
  }

  lemma {:induction false} InProduct<T>(choices: seq<seq<T>>, x: seq<T>)
    ensures x in Product(choices) <==> |x| == |choices| && forall i :: 0 <= i < |x| ==> x[i] in choices[i]
  {
    if choices != [] {
      var n := |choices| - 1;
      InExtended(Product(choices[..n]), choices[n], x);
      if |x| > 0 { InProduct(choices[..n], x[..|x| - 1]); }
    }
  }

  // ---- Whether a crash may leave an image

  /** The names of the disk, each once, in the order they were made. */
  ghost predicate Lists(order: seq<bytes>, d: Disk) {
    && (forall n :: n in order <==> n in d.names)
    && (forall i, j :: 0 <= i < j < |order| ==> order[i] != order[j])
  }

  /** What a name of the image may hold; one not of it, nothing. */
  predicate Suits(d: Disk, img: Image, n: bytes, h: Held) {
    if n in img then h.Holds? && h.file < |d.files| && Allowed(d.files[h.file], img[n]) else h == Nothing
  }

  function Candidates(d: Disk, img: Image, n: bytes, held: seq<Held>): seq<Held> {
    if held == [] then []
    else (if Suits(d, img, n, held[0]) then [held[0]] else []) + Candidates(d, img, n, held[1..])
  }

  lemma {:induction false} InCandidates(d: Disk, img: Image, n: bytes, held: seq<Held>, h: Held)
    ensures h in Candidates(d, img, n, held) <==> h in held && Suits(d, img, n, h)
  {
    if held != [] {
      assert held == [held[0]] + held[1..];
      InCandidates(d, img, n, held[1..], h);
    }
  }

  /** Each file has one content under all the names that hold it. */
  predicate Agree(order: seq<bytes>, picked: seq<Held>, img: Image)
    requires |picked| == |order|
  {
    forall i, j ::
      0 <= i < j < |picked| && picked[i].Holds? && picked[i] == picked[j] && order[i] in img && order[j] in img ==>
      img[order[i]] == img[order[j]]
  }

  method CheckAgree(order: seq<bytes>, picked: seq<Held>, img: Image) returns (ok: bool)
    requires |picked| == |order| && forall i :: 0 <= i < |picked| && picked[i].Holds? ==> order[i] in img
    ensures ok <==> Agree(order, picked, img)
  {
    var content: map<nat, bytes> := map[];
    var i := 0;
    while i < |picked|
      invariant i <= |picked| && Agree(order[..i], picked[..i], img)
      invariant forall a :: 0 <= a < i && picked[a].Holds? ==>
        picked[a].file in content && content[picked[a].file] == img[order[a]]
      invariant forall f :: f in content ==> exists a :: 0 <= a < i && picked[a] == Holds(f)
    {
      if picked[i].Holds? {
        var f := picked[i].file;
        if f !in content { content := content[f := img[order[i]]]; }
        if content[f] != img[order[i]] {
          var a :| 0 <= a < i && picked[a] == Holds(f);
          return false;
        }
      }
      i := i + 1;
    }
    assert order[..i] == order && picked[..i] == picked;
    ok := true;
  }

  /** A choice of what each name holds, as the search makes it. */
  ghost predicate Chosen(d: Disk, order: seq<bytes>, img: Image, picked: seq<Held>) {
    && |picked| == |order|
    && forall i {:trigger picked[i]} :: 0 <= i < |order| ==>
         picked[i] in d.Held(order[i]) && Suits(d, img, order[i], picked[i])
  }

  /** The file of each name, from a choice. */
  ghost function PickOf(order: seq<bytes>, picked: seq<Held>): map<bytes, nat>
    requires |picked| == |order|
  {
    if order == [] then map[]
    else
      var n := |order| - 1;
      var rest := PickOf(order[..n], picked[..n]);
      if picked[n].Holds? then rest[order[n] := picked[n].file] else rest - {order[n]}
  }

  lemma {:induction false} PickOfAt(order: seq<bytes>, picked: seq<Held>)
    requires |picked| == |order| && forall i, j :: 0 <= i < j < |order| ==> order[i] != order[j]
    ensures var pick := PickOf(order, picked);
      && (forall i :: 0 <= i < |order| ==> (order[i] in pick <==> picked[i].Holds?))
      && (forall i :: 0 <= i < |order| && order[i] in pick ==> pick[order[i]] == picked[i].file)
      && (forall n :: n in pick ==> n in order)
  {
    if order != [] {
      var n := |order| - 1;
      PickOfAt(order[..n], picked[..n]);
      assert forall i :: 0 <= i < n ==> order[..n][i] == order[i] && picked[..n][i] == picked[i];
      assert order == order[..n] + [order[n]];
    }
  }

  /** What the choice gives a name, and its file. */
  lemma PickedFile(d: Disk, order: seq<bytes>, img: Image, picked: seq<Held>, n: bytes) returns (i: nat)
    requires Lists(order, d) && Chosen(d, order, img, picked) && n in d.names
    ensures i < |order| && order[i] == n && picked[i] in d.Held(n) && Suits(d, img, n, picked[i])
    ensures n in PickOf(order, picked) <==> picked[i].Holds?
    ensures picked[i].Holds? ==> PickOf(order, picked)[n] == picked[i].file
  {
    PickOfAt(order, picked);
    i :| 0 <= i < |order| && order[i] == n;
  }

  lemma PickedNames(d: Disk, order: seq<bytes>, picked: seq<Held>)
    requires Lists(order, d) && |picked| == |order|
    ensures forall n :: n in PickOf(order, picked) ==> n in d.names
  {
    PickOfAt(order, picked);
  }

  lemma ChosenLeaves(d: Disk, order: seq<bytes>, img: Image, picked: seq<Held>)
    requires Lists(order, d) && (forall n :: n in img ==> n in d.names)
    requires Chosen(d, order, img, picked) && Agree(order, picked, img)
    ensures Leaves(d, img)
  {
    hide Lists, Chosen, Agree, PickOf, Bare, Explains;
    ChosenBare(d, order, img, picked);
    ChosenExplains(d, order, img, picked);
  }

  lemma ChosenBare(d: Disk, order: seq<bytes>, img: Image, picked: seq<Held>)
    requires Lists(order, d) && Chosen(d, order, img, picked)
    ensures Bare(d, img)
  {
    forall n | n !in img ensures Nothing in d.Held(n) {
      if n in d.names { var _ := PickedFile(d, order, img, picked, n); }
    }
  }

  lemma ChosenKeys(d: Disk, order: seq<bytes>, img: Image, picked: seq<Held>)
    requires Lists(order, d) && (forall n :: n in img ==> n in d.names) && Chosen(d, order, img, picked)
    ensures PickOf(order, picked).Keys == img.Keys
  {
    var pick := PickOf(order, picked);
    PickedNames(d, order, picked);
    hide Lists, Chosen, PickOf, Allowed;
    forall n ensures n in pick.Keys <==> n in img.Keys {
      if n in d.names { var _ := PickedFile(d, order, img, picked, n); }
    }
  }

  lemma ChosenExplains(d: Disk, order: seq<bytes>, img: Image, picked: seq<Held>)
    requires Lists(order, d) && (forall n :: n in img ==> n in d.names)
    requires Chosen(d, order, img, picked) && Agree(order, picked, img)
    ensures Explains(d, img, PickOf(order, picked))
  {
    var pick := PickOf(order, picked);
    hide Lists, Chosen, Agree, PickOf, Allowed;
    ChosenKeys(d, order, img, picked);
    forall n | n in img
      ensures Holds(pick[n]) in d.Held(n) && pick[n] < |d.files| && Allowed(d.files[pick[n]], img[n])
    {
      var _ := PickedFile(d, order, img, picked, n);
    }
    forall n, m | n in img && m in img && pick[n] == pick[m] ensures img[n] == img[m] {
      var i := PickedFile(d, order, img, picked, n);
      var j := PickedFile(d, order, img, picked, m);
      AgreeAt(order, picked, img, i, j);
    }
  }

  lemma AgreeAt(order: seq<bytes>, picked: seq<Held>, img: Image, i: nat, j: nat)
    requires |picked| == |order| && Agree(order, picked, img) && i < |order| && j < |order|
    requires picked[i].Holds? && picked[i] == picked[j] && order[i] in img && order[j] in img
    ensures img[order[i]] == img[order[j]]
  {
  }

  function PickedBy(order: seq<bytes>, img: Image, pick: map<bytes, nat>): (picked: seq<Held>)
    ensures |picked| == |order|
    ensures forall i :: 0 <= i < |order| ==>
      picked[i] == if order[i] in img && order[i] in pick then Holds(pick[order[i]]) else Nothing
  {
    seq(|order|, i requires 0 <= i < |order| =>
      if order[i] in img && order[i] in pick then Holds(pick[order[i]]) else Nothing)
  }

  lemma LeavesChosen(d: Disk, order: seq<bytes>, img: Image, pick: map<bytes, nat>)
    requires Bare(d, img) && Explains(d, img, pick)
    ensures Chosen(d, order, img, PickedBy(order, img, pick)) && Agree(order, PickedBy(order, img, pick), img)
  {
    hide Allowed, PickedBy;
    var picked := PickedBy(order, img, pick);
    forall i | 0 <= i < |order| ensures picked[i] in d.Held(order[i]) && Suits(d, img, order[i], picked[i]) {
      if order[i] in img { assert Holds(pick[order[i]]) in d.Held(order[i]); }
    }
    forall i, j | 0 <= i < j < |picked| && picked[i].Holds? && picked[i] == picked[j]
      ensures img[order[i]] == img[order[j]]
    {
      assert pick[order[i]] == pick[order[j]];
    }
  }

  /** What each name may hold in the image. */
  method ListChoices(d: Disk, order: seq<bytes>, img: Image) returns (choices: seq<seq<Held>>)
    requires forall n :: n in order ==> n in d.names
    ensures |choices| == |order|
    ensures forall picked :: picked in Product(choices) <==> Chosen(d, order, img, picked)
  {
    choices := [];
    var i := 0;
    while i < |order|
      invariant i <= |order| && |choices| == i
      invariant forall k :: 0 <= k < i ==> choices[k] == Candidates(d, img, order[k], d.Held(order[k]))
    {
      choices := choices + [Candidates(d, img, order[i], d.names[order[i]].All())];
      i := i + 1;
    }
    forall picked ensures picked in Product(choices) <==> Chosen(d, order, img, picked) {
      InProduct(choices, picked);
      if |picked| == |order| {
        forall k | 0 <= k < |order|
          ensures picked[k] in choices[k] <==> picked[k] in d.Held(order[k]) && Suits(d, img, order[k], picked[k])
        {
          InCandidates(d, img, order[k], d.Held(order[k]), picked[k]);
        }
      }
    }
  }

  /** Whether a crash may leave the names holding what the image says: every choice tried. */
  method MayLeave(d: Disk, order: seq<bytes>, img: Image) returns (yes: bool)
    requires Lists(order, d)
    ensures yes <==> Leaves(d, img)
  {
    hide Leaves, Product, Agree, Suits;
    if exists n :: n in img && n !in d.names {
      if Leaves(d, img) { Unknown(d, img); }
      return false;
    }
    var choices := ListChoices(d, order, img);
    var all, k := Product(choices), 0;
    while k < |all|
      invariant k <= |all| && forall a :: 0 <= a < k ==> |all[a]| == |order| && !Agree(order, all[a], img)
    {
      assert all[k] in all && Chosen(d, order, img, all[k]);
      OnlyNamed(d, order, img, all[k]);
      var ok := CheckAgree(order, all[k], img);
      if ok {
        ChosenLeaves(d, order, img, all[k]);
        return true;
      }
      k := k + 1;
    }
    if Leaves(d, img) { SomeChosen(d, order, img, all); }
    yes := false;
  }

  /** An image that may be left has a choice that agrees. */
  lemma SomeChosen(d: Disk, order: seq<bytes>, img: Image, all: seq<seq<Held>>)
    requires Leaves(d, img) && forall picked :: picked in all <==> Chosen(d, order, img, picked)
    ensures exists a :: 0 <= a < |all| && |all[a]| == |order| && Agree(order, all[a], img)
  {
    var pick :| Explains(d, img, pick);
    LeavesChosen(d, order, img, pick);
    assert PickedBy(order, img, pick) in all;
  }

  lemma Unknown(d: Disk, img: Image)
    requires Leaves(d, img)
    ensures forall n :: n in img ==> n in d.names
  {
    var pick :| Explains(d, img, pick);
    forall n | n in img ensures n in d.names {
      assert Holds(pick[n]) in d.Held(n);
    }
  }

  lemma OnlyNamed(d: Disk, order: seq<bytes>, img: Image, picked: seq<Held>)
    requires Chosen(d, order, img, picked)
    ensures forall i :: 0 <= i < |picked| && picked[i].Holds? ==> order[i] in img
  {
  }
}
