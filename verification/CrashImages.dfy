/** Images a crash may leave, drawn or listed: each is one the crash rule allows. */
module CrashImages {
  import opened CrashModel
  import opened CrashSearch

  /** Each once, where it first comes. */
  function Distinct<T(==,!new)>(s: seq<T>): (r: seq<T>)
    ensures forall x :: x in r <==> x in s
    ensures forall i, j :: 0 <= i < j < |r| ==> r[i] != r[j]
  {
    if s == [] then []
    else
      var n := |s| - 1;
      var rest := Distinct(s[..n]);
      assert s == s[..n] + [s[n]];
      if s[n] in rest then rest else rest + [s[n]]
  }

  function Junk(n: nat): bytes { seq(n, i => 255) }

  /** The octets cut at each length from `lo` to `hi`. */
  function CutsOf(s: bytes, lo: nat, hi: nat): seq<bytes> {
    if lo > hi then [] else seq(hi - lo + 1, i requires 0 <= i => Cut(s, lo + i))
  }

  function Filled(cuts: seq<bytes>, most: nat, junk: bool): seq<bytes> {
    seq(|cuts|, i requires 0 <= i < |cuts| =>
      var n := if |cuts[i]| < most then most - |cuts[i]| else 0;
      cuts[i] + if junk then Junk(n) else Zeros(n))
  }

  /** The appends made past what is kept. */
  function Past(appends: seq<(nat, bytes)>, k: nat): (r: seq<(nat, bytes)>)
    ensures forall a :: a in r <==> a in appends && a.0 >= k
  {
    if appends == [] then []
    else
      assert appends == [appends[0]] + appends[1..];
      (if appends[0].0 >= k then [appends[0]] else []) + Past(appends[1..], k)
  }

  function OnlyAllowed(f: File, found: seq<bytes>): (r: seq<bytes>)
    ensures forall o :: o in r <==> o in found && Allowed(f, o)
  {
    if found == [] then []
    else
      assert found == [found[0]] + found[1..];
      (if Allowed(f, found[0]) then [found[0]] else []) + OnlyAllowed(f, found[1..])
  }

  function Wholes(f: File, past: seq<(nat, bytes)>): seq<bytes>
    requires forall a :: a in past ==> a.0 >= |f.kept|
  {
    seq(|past|, i requires 0 <= i < |past| =>
      assert past[i] in past;
      f.kept + Zeros(past[i].0 - |f.kept|) + past[i].1)
  }

  function Lost(f: File, past: seq<(nat, bytes)>): seq<bytes> {
    seq(|past|, i requires 0 <= i < |past| =>
      Cut(f.seen, past[i].0) + Zeros(|past[i].1|) + From(f.seen, past[i].0 + |past[i].1|))
  }

  /** Octets a crash may leave a file holding, by kind, before those not allowed are left out. */
  function Found(f: File): (kinds: seq<seq<bytes>>)
    requires FileOk(f)
    ensures |kinds| == 7
  {
    var k, most := |f.kept|, f.most;
    var cuts := CutsOf(f.seen, k, Min(|f.seen|, most));
    var past := Past(f.appends, k);
    [[f.kept, f.kept + Zeros(most - k), f.kept + Junk(most - k)], cuts, Filled(cuts, most, false),
     Filled(cuts, most, true), CutsOf(f.latest, k, Min(|f.latest|, most)), Wholes(f, past), Lost(f, past)]
  }

  function ByKind(f: File): (kinds: seq<seq<bytes>>)
    requires FileOk(f)
    ensures |kinds| == 7
    ensures forall k, o :: 0 <= k < 7 && o in kinds[k] ==> Allowed(f, o)
  {
    seq(7, k requires 0 <= k < 7 => Distinct(OnlyAllowed(f, Found(f)[k])))
  }

  /** What is kept and what the program sees are always among them. */
  lemma KindsHave(f: File)
    requires FileOk(f)
    ensures f.kept in ByKind(f)[0] && f.seen in ByKind(f)[1]
  {
    var k := |f.kept|;
    assert Found(f)[0][0] == f.kept && f.kept in Found(f)[0];
    var cuts := CutsOf(f.seen, k, Min(|f.seen|, f.most));
    assert cuts[|f.seen| - k] == Cut(f.seen, |f.seen|) == f.seen;
    assert f.seen in Found(f)[1];
  }

  function Concat(kinds: seq<seq<bytes>>): (r: seq<bytes>)
    ensures forall o :: o in r <==> exists k :: 0 <= k < |kinds| && o in kinds[k]
  {
    if kinds == [] then []
    else
      assert forall k :: 0 <= k < |kinds| - 1 ==> kinds[1..][k] == kinds[k + 1];
      assert forall k :: 1 <= k < |kinds| ==> kinds[k] == kinds[1..][k - 1];
      kinds[0] + Concat(kinds[1..])
  }

  /** Every kind's. */
  function OctetsOf(f: File): (r: seq<bytes>)
    requires FileOk(f)
    ensures forall o :: o in r ==> Allowed(f, o)
    ensures forall o :: o in r <==> exists k :: 0 <= k < 7 && o in ByKind(f)[k]
    ensures r != []
  {
    var all := Concat(ByKind(f));
    KindsHave(f);
    assert f.kept in all;
    Distinct(all)
  }

  /** An image told by what each name holds and what each file is left with. */
  ghost predicate ImageOf(d: Disk, order: seq<bytes>, picked: seq<Held>, given: map<nat, bytes>, img: Image) {
    && |picked| == |order|
    && (forall i {:trigger picked[i]} :: 0 <= i < |order| ==> picked[i] in d.Held(order[i]))
    && (forall i {:trigger picked[i]} :: 0 <= i < |order| && picked[i].Holds? ==>
          && picked[i].file < |d.files| && picked[i].file in given && Allowed(d.files[picked[i].file], given[picked[i].file])
          && order[i] in img && img[order[i]] == given[picked[i].file])
    && (forall i {:trigger picked[i]} :: 0 <= i < |order| && picked[i] == Nothing ==> order[i] !in img)
    && (forall n :: n in img ==> n in order)
  }

  lemma ImageLeft(d: Disk, order: seq<bytes>, picked: seq<Held>, given: map<nat, bytes>, img: Image)
    requires Lists(order, d) && ImageOf(d, order, picked, given, img)
    ensures Leaves(d, img)
  {
    forall i | 0 <= i < |order| ensures picked[i] in d.Held(order[i]) && Suits(d, img, order[i], picked[i]) {
    }
    ChosenLeaves(d, order, img, picked);
  }

  /** The next of a random source, from a list. */
  method Draw<T>(xs: seq<T>, rng: nat -> nat, at: nat) returns (x: T)
    requires xs != []
    ensures x in xs
  {
    x := xs[rng(at) % |xs|];
  }

  function NonEmpty(kinds: seq<seq<bytes>>): (r: seq<seq<bytes>>)
    ensures forall k :: k in r <==> k in kinds && k != []
  {
    if kinds == [] then []
    else
      assert kinds == [kinds[0]] + kinds[1..];
      (if kinds[0] != [] then [kinds[0]] else []) + NonEmpty(kinds[1..])
  }

  /** Octets for a file, the kind drawn first: there is always one to draw. */
  method DrawOctets(f: File, rng: nat -> nat, at: nat) returns (o: bytes)
    requires FileOk(f)
    ensures Allowed(f, o)
  {
    KindsHave(f);
    var kinds := NonEmpty(ByKind(f));
    assert ByKind(f)[0] in kinds;
    var kind := Draw(kinds, rng, at);
    o := Draw(kind, rng, at + 1);
  }

  /** Something the name may be left holding. */
  method DrawHeld(d: Disk, n: bytes, rng: nat -> nat, at: nat) returns (h: Held)
    requires Inv(d) && n in d.names
    ensures h in d.Held(n) && (h.Holds? ==> h.file < |d.files| && FileOk(d.files[h.file]))
  {
    assert d.names[n].synced in d.names[n].All();
    h := Draw(Distinct(d.names[n].All()), rng, at);
    HoldingOk(d, n);
  }

  /** An image drawn from a random source: whatever is drawn, a crash may leave it. */
  method Leaving(d: Disk, order: seq<bytes>, rng: nat -> nat) returns (img: Image)
    requires Inv(d) && Lists(order, d)
    ensures Leaves(d, img)
  {
    hide Inv, Allowed, FileOk, Disk.Held;
    var files: map<nat, bytes> := map[];
    img := map[];
    ghost var picked: seq<Held> := [];
    var i, at := 0, 0;
    while i < |order|
      invariant i <= |order| && |picked| == i
      invariant forall f :: f in files ==> f < |d.files| && Allowed(d.files[f], files[f])
      invariant forall k {:trigger picked[k]} :: 0 <= k < i ==> picked[k] in d.Held(order[k])
      invariant forall k {:trigger picked[k]} :: 0 <= k < i && picked[k].Holds? ==>
        picked[k].file in files && order[k] in img && img[order[k]] == files[picked[k].file]
      invariant forall k {:trigger picked[k]} :: 0 <= k < i && picked[k] == Nothing ==> order[k] !in img
      invariant forall n :: n in img ==> n in order[..i]
    {
      var n := order[i];
      var h := DrawHeld(d, n, rng, at);
      at := at + 1;
      if h.Holds? {
        if h.file !in files {
          var o := DrawOctets(d.files[h.file], rng, at);
          at := at + 2;
          files := files[h.file := o];
        }
        img := img[n := files[h.file]];
      }
      picked := picked + [h];
      assert order[..i + 1] == order[..i] + [n];
      i := i + 1;
    }
    assert order[..i] == order;
    ImageLeft(d, order, picked, files, img);
  }

  // ---- A listing

  lemma {:induction false} ProductSome<T>(choices: seq<seq<T>>)
    requires forall i :: 0 <= i < |choices| ==> choices[i] != []
    ensures Product(choices) != []
  {
    var x := seq(|choices|, i requires 0 <= i < |choices| => choices[i][0]);
    InProduct(choices, x);
  }

  /** The files held, in order. */
  function Used(picked: seq<Held>, n: nat): (r: seq<nat>)
    ensures forall f: nat :: f in r <==> f < n && Holds(f) in picked
    ensures forall i :: 0 <= i < |r| ==> r[i] < n
    ensures forall i, j :: 0 <= i < j < |r| ==> r[i] < r[j]
  {
    if n == 0 then [] else Used(picked, n - 1) + if Holds(n - 1) in picked then [n - 1] else []
  }

  /** Each file with its content. */
  ghost predicate Zipped(files: seq<nat>, contents: seq<bytes>, given: map<nat, bytes>)
    requires |files| == |contents|
  {
    forall i {:trigger files[i]} :: 0 <= i < |files| ==> files[i] in given && given[files[i]] == contents[i]
  }

  method Zip(files: seq<nat>, contents: seq<bytes>) returns (given: map<nat, bytes>)
    requires |files| == |contents| && forall i, j :: 0 <= i < j < |files| ==> files[i] < files[j]
    ensures Zipped(files, contents, given)
  {
    given := map[];
    var i := 0;
    while i < |files|
      invariant i <= |files|
      invariant forall k {:trigger files[k]} :: 0 <= k < i ==> files[k] in given && given[files[k]] == contents[k]
    {
      given := given[files[i] := contents[i]];
      i := i + 1;
    }
  }

  method Told(order: seq<bytes>, picked: seq<Held>, given: map<nat, bytes>, ghost d: Disk) returns (img: Image)
    requires |picked| == |order| && Lists(order, d)
    requires forall i {:trigger picked[i]} :: 0 <= i < |order| ==> picked[i] in d.Held(order[i])
    requires forall i {:trigger picked[i]} :: 0 <= i < |order| && picked[i].Holds? ==>
      && picked[i].file < |d.files| && picked[i].file in given && Allowed(d.files[picked[i].file], given[picked[i].file])
    ensures ImageOf(d, order, picked, given, img)
  {
    img := map[];
    var i := 0;
    while i < |order|
      invariant i <= |order|
      invariant forall k {:trigger picked[k]} :: 0 <= k < i && picked[k].Holds? ==>
        order[k] in img && img[order[k]] == given[picked[k].file]
      invariant forall k {:trigger picked[k]} :: 0 <= k < i && picked[k] == Nothing ==> order[k] !in img
      invariant forall n :: n in img ==> n in order[..i]
    {
      if picked[i].Holds? { img := img[order[i] := given[picked[i].file]]; }
      assert order[..i + 1] == order[..i] + [order[i]];
      i := i + 1;
    }
    assert order[..i] == order;
  }

  // What is listed, told by the choices: what each name holds, and the octets of each file held.

  ghost predicate Picks(d: Disk, order: seq<bytes>, picked: seq<Held>) {
    |picked| == |order| && forall i {:trigger picked[i]} :: 0 <= i < |order| ==> picked[i] in d.Held(order[i])
  }

  ghost predicate Gives(d: Disk, picked: seq<Held>, given: map<nat, bytes>) {
    forall f: nat {:trigger Holds(f)} :: Holds(f) in picked ==>
      f < |d.files| && FileOk(d.files[f]) && f in given && given[f] in OctetsOf(d.files[f])
  }

  /** The image has, under each name that holds a file, the octets given it, and no other name. */
  ghost predicate Pictures(order: seq<bytes>, picked: seq<Held>, given: map<nat, bytes>, img: Image) {
    && |picked| == |order|
    && (forall i {:trigger picked[i]} :: 0 <= i < |order| && picked[i].Holds? ==>
          picked[i].file in given && order[i] in img && img[order[i]] == given[picked[i].file])
    && (forall i {:trigger picked[i]} :: 0 <= i < |order| && picked[i] == Nothing ==> order[i] !in img)
    && (forall n :: n in img ==> n in order)
  }

  /** The octets tried of each file. */
  function Tried(d: Disk, files: seq<nat>): (lists: seq<seq<bytes>>)
    requires forall i :: 0 <= i < |files| ==> files[i] < |d.files| && FileOk(d.files[files[i]])
    ensures |lists| == |files|
    ensures forall i {:trigger lists[i]} :: 0 <= i < |files| ==> lists[i] == OctetsOf(d.files[files[i]])
  {
    seq(|files|, i requires 0 <= i < |files| => OctetsOf(d.files[files[i]]))
  }

  /** No more choices of contents than are listed. */
  predicate Few(d: Disk, picked: seq<Held>) {
    var files := Used(picked, |d.files|);
    (forall i :: 0 <= i < |files| ==> FileOk(d.files[files[i]])) && |Product(Tried(d, files))| <= 64
  }

  ghost predicate Shows(order: seq<bytes>, picked: seq<Held>, files: seq<nat>, contents: seq<bytes>, img: Image) {
    |files| == |contents| && forall given :: Zipped(files, contents, given) ==> Pictures(order, picked, given, img)
  }

  /** The images of one choice of what the names hold, the first 64: all of them when there are no more. */
  method ImagesOf(d: Disk, order: seq<bytes>, picked: seq<Held>) returns (found: seq<Image>)
    requires Inv(d) && Lists(order, d) && Picks(d, order, picked)
    ensures found != [] && forall img :: img in found ==> Leaves(d, img)
    ensures Few(d, picked) ==>
      forall given :: Gives(d, picked, given) ==> exists img :: img in found && Pictures(order, picked, given, img)
  {
    hide Inv, Leaves, FileOk, Allowed, Disk.Held, Product, Gives, Pictures, Shows, Few, Used, Tried, OctetsOf, Picks;
    PicksAll(d, order, picked);
    var files := Used(picked, |d.files|);
    AllFilesOk(d, files);
    var lists := Tried(d, files);
    TriedSome(d, files);
    var all := Product(lists);
    ProductSome(lists);
    found := [];
    var k := 0;
    while k < |all| && k < 64
      invariant k <= |all| && |found| == k && forall img :: img in found ==> Leaves(d, img)
      invariant forall j {:trigger found[j]} :: 0 <= j < k ==> Shows(order, picked, files, all[j], found[j])
    {
      assert all[k] in all;
      InProduct(lists, all[k]);
      var img := ImageWith(d, order, picked, files, all[k]);
      found := found + [img];
      k := k + 1;
    }
    if Few(d, picked) {
      FewIs(d, picked);
      forall given | Gives(d, picked, given) ensures exists img :: img in found && Pictures(order, picked, given, img) {
        var j := ChoiceAt(d, picked, files, given);
        ShownBy(order, picked, files, given, all[j], found[j]);
        assert found[j] in found;
      }
    }
  }

  lemma PicksAll(d: Disk, order: seq<bytes>, picked: seq<Held>)
    requires Picks(d, order, picked)
    ensures |picked| == |order|
    ensures forall i {:trigger picked[i]} :: 0 <= i < |order| ==> picked[i] in d.Held(order[i])
  {
  }

  lemma AllFilesOk(d: Disk, files: seq<nat>)
    requires Inv(d) && forall i :: 0 <= i < |files| ==> files[i] < |d.files|
    ensures forall i :: 0 <= i < |files| ==> FileOk(d.files[files[i]])
  {
  }

  lemma TriedSome(d: Disk, files: seq<nat>)
    requires forall i :: 0 <= i < |files| ==> files[i] < |d.files| && FileOk(d.files[files[i]])
    ensures forall i {:trigger Tried(d, files)[i]} :: 0 <= i < |files| ==>
      Tried(d, files)[i] != [] && forall o :: o in Tried(d, files)[i] ==> Allowed(d.files[files[i]], o)
  {
    hide FileOk, Allowed;
  }

  lemma FewIs(d: Disk, picked: seq<Held>)
    requires Few(d, picked)
    requires forall i :: 0 <= i < |Used(picked, |d.files|)| ==> FileOk(d.files[Used(picked, |d.files|)[i]])
    ensures |Product(Tried(d, Used(picked, |d.files|)))| <= 64
  {
    hide FileOk, Product, Used;
  }

  /** Where the choice is among those tried. */
  lemma ChoiceAt(d: Disk, picked: seq<Held>, files: seq<nat>, given: map<nat, bytes>) returns (j: nat)
    requires files == Used(picked, |d.files|) && Gives(d, picked, given)
    requires forall i :: 0 <= i < |files| ==> FileOk(d.files[files[i]])
    ensures j < |Product(Tried(d, files))| && |Product(Tried(d, files))[j]| == |files|
    ensures Zipped(files, Product(Tried(d, files))[j], given)
  {
    hide FileOk, Product;
    forall i | 0 <= i < |files| ensures files[i] in given && given[files[i]] in OctetsOf(d.files[files[i]]) {
      assert files[i] in files && Holds(files[i]) in picked;
    }
    var contents := seq(|files|, i requires 0 <= i < |files| => given[files[i]]);
    InProduct(Tried(d, files), contents);
    j :| 0 <= j < |Product(Tried(d, files))| && Product(Tried(d, files))[j] == contents;
  }

  lemma ShownBy(order: seq<bytes>, picked: seq<Held>, files: seq<nat>, given: map<nat, bytes>, contents: seq<bytes>,
                img: Image)
    requires Shows(order, picked, files, contents, img) && |files| == |contents| && Zipped(files, contents, given)
    ensures Pictures(order, picked, given, img)
  {
    hide Pictures, Zipped;
  }

  /** The image of one choice of contents. */
  method ImageWith(d: Disk, order: seq<bytes>, picked: seq<Held>, files: seq<nat>, contents: seq<bytes>)
    returns (img: Image)
    requires Inv(d) && Lists(order, d) && |picked| == |order| && files == Used(picked, |d.files|)
    requires forall i {:trigger picked[i]} :: 0 <= i < |order| ==> picked[i] in d.Held(order[i])
    requires |contents| == |files| && forall k :: 0 <= k < |files| ==> Allowed(d.files[files[k]], contents[k])
    ensures Leaves(d, img) && Shows(order, picked, files, contents, img)
  {
    hide Inv, Leaves, Allowed, Disk.Held, Shows, Zipped;
    var given := Zip(files, contents);
    forall i | 0 <= i < |order| && picked[i].Holds?
      ensures picked[i].file < |d.files| && picked[i].file in given
      ensures Allowed(d.files[picked[i].file], given[picked[i].file])
    {
      GivenAllowed(d, order, picked, files, contents, given, i);
    }
    img := Told(order, picked, given, d);
    ImageLeft(d, order, picked, given, img);
    AnyGiven(d, order, picked, files, contents, given, img);
  }

  /** The image is of the contents, whichever map gives them. */
  lemma AnyGiven(d: Disk, order: seq<bytes>, picked: seq<Held>, files: seq<nat>, contents: seq<bytes>,
                 given: map<nat, bytes>, img: Image)
    requires ImageOf(d, order, picked, given, img) && files == Used(picked, |d.files|) && |contents| == |files|
    requires Zipped(files, contents, given)
    ensures Shows(order, picked, files, contents, img)
  {
    hide Allowed, Disk.Held;
    forall other | Zipped(files, contents, other) ensures Pictures(order, picked, other, img) {
      forall i | 0 <= i < |order| && picked[i].Holds?
        ensures picked[i].file in other && other[picked[i].file] == given[picked[i].file]
      {
        assert picked[i] in picked;
        var k :| 0 <= k < |files| && files[k] == picked[i].file;
      }
    }
  }

  lemma GivenAllowed(d: Disk, order: seq<bytes>, picked: seq<Held>, files: seq<nat>, contents: seq<bytes>,
                     given: map<nat, bytes>, i: nat)
    requires Inv(d) && i < |picked| == |order| && picked[i].Holds? && picked[i] in d.Held(order[i])
    requires files == Used(picked, |d.files|) && |contents| == |files| && Zipped(files, contents, given)
    requires forall k :: 0 <= k < |files| ==> Allowed(d.files[files[k]], contents[k])
    ensures var f := picked[i].file; f < |d.files| && f in given && Allowed(d.files[f], given[f])
  {
    HoldingOk(d, order[i]);
    assert picked[i] in picked;
    var k :| 0 <= k < |files| && files[k] == picked[i].file;
  }

  /** What each name may be left holding, each once. */
  function NameChoices(d: Disk, order: seq<bytes>): (r: seq<seq<Held>>)
    requires forall i :: 0 <= i < |order| ==> order[i] in d.names
    ensures |r| == |order| && forall i {:trigger r[i]} :: 0 <= i < |order| ==> r[i] == Distinct(d.names[order[i]].All())
  {
    seq(|order|, i requires 0 <= i < |order| => Distinct(d.names[order[i]].All()))
  }

  lemma ListsAll(order: seq<bytes>, d: Disk)
    requires Lists(order, d)
    ensures forall i :: 0 <= i < |order| ==> order[i] in d.names
  {
    assert forall i :: 0 <= i < |order| ==> order[i] in order;
  }

  /** A choice is in the product exactly when each name may be left holding what it picks. */
  lemma ChoicePicks(d: Disk, order: seq<bytes>, picked: seq<Held>)
    requires forall i :: 0 <= i < |order| ==> order[i] in d.names
    ensures picked in Product(NameChoices(d, order)) <==> Picks(d, order, picked)
  {
    hide Product;
    InProduct(NameChoices(d, order), picked);
  }

  /** Images a crash may leave: for each of the first 64 choices of what the names hold, those of the choice. When there
      are no more choices of either kind, every choice is there. */
  method Leavings(d: Disk, order: seq<bytes>) returns (found: seq<Image>)
    requires Inv(d) && Lists(order, d)
    ensures found != [] && forall img :: img in found ==> Leaves(d, img)
    ensures (forall i :: 0 <= i < |order| ==> order[i] in d.names) && |Product(NameChoices(d, order))| <= 64 ==>
      forall picked, given {:trigger Gives(d, picked, given)} ::
        Picks(d, order, picked) && Few(d, picked) && Gives(d, picked, given) ==>
        exists img :: img in found && Pictures(order, picked, given, img)
  {
    hide Inv, Leaves, Product, Gives, Pictures, Few, Picks, Lists;
    ListsAll(order, d);
    var perName := NameChoices(d, order);
    forall i | 0 <= i < |perName| ensures perName[i] != [] {
      assert d.names[order[i]].synced in d.names[order[i]].All();
    }
    ProductSome(perName);
    var all, k := Product(perName), 0;
    found := [];
    while k < |all| && k < 64
      invariant k <= |all| && k <= 64 && (k > 0 ==> found != []) && forall img :: img in found ==> Leaves(d, img)
      invariant forall j {:trigger all[j]} :: 0 <= j < k ==> AllShown(d, order, all[j], found)
    {
      assert all[k] in all;
      ChoicePicks(d, order, all[k]);
      var images := ImagesOf(d, order, all[k]);
      assert AllShown(d, order, all[k], images);
      MoreShown(d, order, all, k, found, images);
      found := found + images;
      k := k + 1;
    }
    ghost var listed := found;
    found := Distinct(found);
    if |all| <= 64 {
      forall picked, given | Picks(d, order, picked) && Few(d, picked) && Gives(d, picked, given)
        ensures exists img :: img in found && Pictures(order, picked, given, img)
      {
        ChoicePicks(d, order, picked);
        var j :| 0 <= j < |all| && all[j] == picked;
        assert AllShown(d, order, all[j], listed);
        var img :| img in listed && Pictures(order, picked, given, img);
        assert img in found;
      }
    }
  }

  ghost predicate AllShown(d: Disk, order: seq<bytes>, picked: seq<Held>, found: seq<Image>) {
    Few(d, picked) ==>
      forall given :: Gives(d, picked, given) ==> exists img :: img in found && Pictures(order, picked, given, img)
  }

  lemma MoreShown(d: Disk, order: seq<bytes>, all: seq<seq<Held>>, k: nat, found: seq<Image>, more: seq<Image>)
    requires k < |all| && AllShown(d, order, all[k], more)
    requires forall j {:trigger all[j]} :: 0 <= j < k ==> AllShown(d, order, all[j], found)
    ensures forall j {:trigger all[j]} :: 0 <= j <= k ==> AllShown(d, order, all[j], found + more)
  {
    hide Few, Gives, Pictures;
    forall j | 0 <= j <= k ensures AllShown(d, order, all[j], found + more) {
      if Few(d, all[j]) {
        forall given | Gives(d, all[j], given)
          ensures exists img :: img in found + more && Pictures(order, all[j], given, img)
        {
          if j == k {
            var img :| img in more && Pictures(order, all[j], given, img);
            assert img in found + more;
          } else {
            assert AllShown(d, order, all[j], found);
            var img :| img in found && Pictures(order, all[j], given, img);
            assert img in found + more;
          }
        }
      }
    }
  }

  // ---- Which octets each kind has

  lemma KindIs(f: File, k: nat, o: bytes)
    requires FileOk(f) && k < 7
    ensures o in ByKind(f)[k] <==> o in Found(f)[k] && Allowed(f, o)
  {
    hide Found, Allowed, FileOk;
  }

  predicate AllFrom(o: bytes, m: nat, octet: byte) { forall i :: m <= i < |o| ==> o[i] == octet }

  lemma CutAt(s: bytes, lo: nat, hi: nat)
    requires hi <= |s|
    ensures |CutsOf(s, lo, hi)| == if lo > hi then 0 else hi - lo + 1
    ensures forall i {:trigger CutsOf(s, lo, hi)[i]} :: 0 <= i < |CutsOf(s, lo, hi)| ==>
      CutsOf(s, lo, hi)[i] == s[..lo + i]
  {
    var cuts := CutsOf(s, lo, hi);
    forall i | 0 <= i < |cuts| ensures cuts[i] == s[..lo + i] {
      assert cuts[i] == Cut(s, lo + i);
    }
  }

  lemma CutThere(s: bytes, lo: nat, hi: nat, o: bytes)
    requires hi <= |s|
    ensures o in CutsOf(s, lo, hi) <==> o <= s && lo <= |o| <= hi
  {
    hide CutsOf;
    CutAt(s, lo, hi);
    if o <= s && lo <= |o| <= hi {
      assert CutsOf(s, lo, hi)[|o| - lo] == o;
    }
  }

  /** What is kept, alone or followed by zeros or 0xff up to the most the file has held. */
  lemma KeptKind(f: File, o: bytes)
    requires FileOk(f)
    ensures o in ByKind(f)[0] <==>
      Allowed(f, o) && (o == f.kept || (|o| == f.most && (AllFrom(o, |f.kept|, 0) || AllFrom(o, |f.kept|, 255))))
  {
    KindIs(f, 0, o);
    var k := f.most - |f.kept|;
    assert Found(f)[0] == [f.kept, f.kept + Zeros(k), f.kept + Junk(k)];
    if Allowed(f, o) && |o| == f.most {
      assert o == f.kept + o[|f.kept|..];
      if AllFrom(o, |f.kept|, 0) { assert o[|f.kept|..] == Zeros(k); }
      if AllFrom(o, |f.kept|, 255) { assert o[|f.kept|..] == Junk(k); }
    }
  }

  /** What the program sees cut at a length, and the last octets written at each place cut at one. */
  lemma CutKinds(f: File, o: bytes)
    requires FileOk(f)
    ensures o in ByKind(f)[1] <==> Allowed(f, o) && o <= f.seen
    ensures o in ByKind(f)[4] <==> Allowed(f, o) && o <= f.latest
  {
    hide CutsOf, Filled, Wholes, Lost, ByKind, Past;
    KindIs(f, 1, o);
    KindIs(f, 4, o);
    CutThere(f.seen, |f.kept|, Min(|f.seen|, f.most), o);
    CutThere(f.latest, |f.kept|, Min(|f.latest|, f.most), o);
  }

  /** What the program sees cut at `m` and then filled up to the most. */
  predicate FilledFrom(f: File, o: bytes, m: nat, octet: byte) {
    |f.kept| <= m <= |f.seen| && m <= f.most && |o| == f.most && o[..m] == f.seen[..m] && AllFrom(o, m, octet)
  }

  lemma FilledKinds(f: File, o: bytes)
    requires FileOk(f)
    ensures o in ByKind(f)[2] <==> Allowed(f, o) && exists m: nat :: FilledFrom(f, o, m, 0)
    ensures o in ByKind(f)[3] <==> Allowed(f, o) && exists m: nat :: FilledFrom(f, o, m, 255)
  {
    hide ByKind, Past, Wholes, Lost, CutsOf, Filled, FilledFrom;
    KindIs(f, 2, o);
    KindIs(f, 3, o);
    FilledIn(f, o, false, 0);
    FilledIn(f, o, true, 255);
  }

  lemma FilledIn(f: File, o: bytes, junk: bool, octet: byte)
    requires FileOk(f) && octet == if junk then 255 else 0
    ensures o in Filled(CutsOf(f.seen, |f.kept|, Min(|f.seen|, f.most)), f.most, junk) <==>
      exists m: nat :: FilledFrom(f, o, m, octet)
  {
    hide CutsOf, Filled, FilledFrom;
    var k, hi := |f.kept|, Min(|f.seen|, f.most);
    var cuts := CutsOf(f.seen, k, hi);
    var all := Filled(cuts, f.most, junk);
    CutAt(f.seen, k, hi);
    FilledAt(cuts, f.most, junk);
    if o in all {
      var i :| 0 <= i < |all| && all[i] == o;
      OneFilled(f, o, k + i, junk, octet);
    }
    if m: nat :| FilledFrom(f, o, m, octet) {
      OneFilled(f, o, m, junk, octet);
      assert all[m - k] == o;
    }
  }

  lemma FilledAt(cuts: seq<bytes>, most: nat, junk: bool)
    ensures |Filled(cuts, most, junk)| == |cuts|
    ensures forall i {:trigger Filled(cuts, most, junk)[i]} :: 0 <= i < |cuts| && |cuts[i]| <= most ==>
      Filled(cuts, most, junk)[i] == cuts[i] + if junk then Junk(most - |cuts[i]|) else Zeros(most - |cuts[i]|)
  {
  }

  lemma OneFilled(f: File, o: bytes, m: nat, junk: bool, octet: byte)
    requires octet == if junk then 255 else 0
    ensures FilledFrom(f, o, m, octet) <==>
      |f.kept| <= m <= |f.seen| && m <= f.most && o == f.seen[..m] + if junk then Junk(f.most - m) else Zeros(f.most - m)
  {
    if |f.kept| <= m <= |f.seen| && m <= f.most {
      var fill := if junk then Junk(f.most - m) else Zeros(f.most - m);
      if FilledFrom(f, o, m, octet) {
        assert o[m..] == fill;
        assert o == o[..m] + o[m..];
      }
    }
  }

  /** An append made past what is kept, whole, those before it zeros. */
  predicate IsWhole(f: File, o: bytes, a: (nat, bytes)) {
    a.0 >= |f.kept| && o == f.kept + Zeros(a.0 - |f.kept|) + a.1
  }

  /** What the program sees with one such lost. */
  predicate IsLost(f: File, o: bytes, a: (nat, bytes)) {
    a.0 >= |f.kept| && o == Cut(f.seen, a.0) + Zeros(|a.1|) + From(f.seen, a.0 + |a.1|)
  }

  lemma WholeKind(f: File, o: bytes)
    requires FileOk(f)
    ensures o in ByKind(f)[5] <==> Allowed(f, o) && exists a :: a in f.appends && IsWhole(f, o, a)
  {
    hide ByKind, CutsOf, Filled, Allowed, Wholes, Lost, IsWhole;
    KindIs(f, 5, o);
    var past := Past(f.appends, |f.kept|);
    assert Found(f)[5] == Wholes(f, past);
    WholesAt(f, past, o);
    if a :| a in f.appends && IsWhole(f, o, a) { WholePast(f, o, a); }
  }

  lemma WholePast(f: File, o: bytes, a: (nat, bytes))
    requires IsWhole(f, o, a) || IsLost(f, o, a)
    ensures a.0 >= |f.kept|
  {
  }

  lemma WholesAt(f: File, past: seq<(nat, bytes)>, o: bytes)
    requires forall a :: a in past ==> a.0 >= |f.kept|
    ensures o in Wholes(f, past) <==> exists a :: a in past && IsWhole(f, o, a)
  {
    var wholes := Wholes(f, past);
    if o in wholes {
      var i :| 0 <= i < |wholes| && wholes[i] == o;
      assert past[i] in past && IsWhole(f, o, past[i]);
    }
    if a :| a in past && IsWhole(f, o, a) {
      var i :| 0 <= i < |past| && past[i] == a;
      assert wholes[i] == o;
    }
  }

  lemma LostKind(f: File, o: bytes)
    requires FileOk(f)
    ensures o in ByKind(f)[6] <==> Allowed(f, o) && exists a :: a in f.appends && IsLost(f, o, a)
  {
    hide ByKind, CutsOf, Filled, Allowed, Wholes, Lost, IsLost;
    KindIs(f, 6, o);
    var past := Past(f.appends, |f.kept|);
    assert Found(f)[6] == Lost(f, past);
    LostAt(f, past, o);
    if a :| a in f.appends && IsLost(f, o, a) { WholePast(f, o, a); }
  }

  lemma LostAt(f: File, past: seq<(nat, bytes)>, o: bytes)
    requires forall a :: a in past ==> a.0 >= |f.kept|
    ensures o in Lost(f, past) <==> exists a :: a in past && IsLost(f, o, a)
  {
    hide Cut, From, Zeros;
    var lost := Lost(f, past);
    if o in lost {
      var i :| 0 <= i < |lost| && lost[i] == o;
      assert past[i] in past && IsLost(f, o, past[i]);
    }
    if a :| a in past && IsLost(f, o, a) {
      var i :| 0 <= i < |past| && past[i] == a;
      assert lost[i] == o;
    }
  }
}
