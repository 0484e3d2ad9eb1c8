/** The two loops of a file job that move bytes: writing on after a short write, and a page of a directory's names. */
module JobBytes {
  type byte = n: int | 0 <= n < 256

  // ---- Writing

  /** A file's content with `bytes` written at `offset`, a hole before them read as zeros. */
  function Written(content: seq<byte>, offset: nat, bytes: seq<byte>): (r: seq<byte>)
    ensures |bytes| > 0 ==> |r| >= offset + |bytes| && r[offset..offset + |bytes|] == bytes
  {
    var end := if |bytes| > 0 && offset + |bytes| > |content| then offset + |bytes| else |content|;
    seq(end, i requires 0 <= i < end =>
      if offset <= i < offset + |bytes| then bytes[i - offset] else if i < |content| then content[i] else 0)
  }

  /** Writing some, then the rest where that ended, is writing all. */
  lemma WrittenOn(content: seq<byte>, offset: nat, a: seq<byte>, b: seq<byte>)
    ensures Written(Written(content, offset, a), offset + |a|, b) == Written(content, offset, a + b)
  {
    hide Written;
    var once, twice := Written(content, offset, a + b), Written(Written(content, offset, a), offset + |a|, b);
    WrittenAt(content, offset, a);
    WrittenAt(content, offset, a + b);
    WrittenAt(Written(content, offset, a), offset + |a|, b);
    assert |once| == |twice|;
    assert forall i :: 0 <= i < |once| ==> once[i] == twice[i];
  }

  /** Its length, and what is where. */
  lemma WrittenAt(content: seq<byte>, offset: nat, bytes: seq<byte>)
    ensures |Written(content, offset, bytes)| ==
      if |bytes| > 0 && offset + |bytes| > |content| then offset + |bytes| else |content|
    ensures forall i :: 0 <= i < |Written(content, offset, bytes)| ==>
      Written(content, offset, bytes)[i] ==
        if offset <= i < offset + |bytes| then bytes[i - offset] else if i < |content| then content[i] else 0
  {
  }

  lemma WrittenNothing(content: seq<byte>, offset: nat)
    ensures Written(content, offset, []) == content
  {
  }

  /** What the kernel answers a write: how many of the bytes it wrote, an interruption, or an error. */
  datatype Reply = Wrote(n: nat) | Interrupted | Failed

  datatype Ended = All | NoSpace | Error | Unanswered

  class OpenFile {
    var content: seq<byte>

    /** The kernel writes at most what it is asked to. */
    method Pwrite(bytes: seq<byte>, offset: nat, n: nat) returns (w: nat)
      modifies this
      ensures w == (if n < |bytes| then n else |bytes|) && content == Written(old(content), offset, bytes[..w])
    {
      w := if n < |bytes| then n else |bytes|;
      content := Written(content, offset, bytes[..w]);
    }

    /** Writes all of the bytes, over as many writes as the replies ask for: at a failure the file has a proper prefix of
        them, and an interruption is never seen. */
    method WriteAll(bytes: seq<byte>, offset: nat, replies: seq<Reply>) returns (ended: Ended, ghost m: nat)
      modifies this
      ensures m <= |bytes| && content == Written(old(content), offset, bytes[..m])
      ensures ended.All? <==> m == |bytes|
      ensures ended.Error? ==> Failed in replies
      ensures ended.NoSpace? ==> Wrote(0) in replies
      ensures ended.Unanswered? ==> forall r :: r in replies ==> r.Wrote? || r.Interrupted?
    {
      hide Written;
      var done, i := 0, 0;
      WrittenNothing(content, offset);
      assert bytes[..0] == [];
      while done < |bytes| && i < |replies|
        invariant done <= |bytes| && i <= |replies|
        invariant content == Written(old(content), offset, bytes[..done])
        invariant forall a :: 0 <= a < i ==> replies[a].Wrote? || replies[a].Interrupted?
        decreases |replies| - i
      {
        var reply := replies[i];
        i := i + 1;
        match reply {
          case Interrupted =>
          case Failed => return Error, done;
          case Wrote(n) =>
            if n == 0 { return NoSpace, done; }
            var w := Pwrite(bytes[done..], offset + done, n);
            WrittenOn(old(content), offset, bytes[..done], bytes[done..][..w]);
            assert bytes[..done] + bytes[done..][..w] == bytes[..done + w];
            done := done + w;
        }
      }
      return if done == |bytes| then All else Unanswered, done;
    }
  }

  // ---- Listing

  type Name = s: seq<byte> | |s| < 256

  /** The names one after another, each a length octet and its bytes. */
  function Packed(names: seq<Name>): seq<byte> {
    if names == [] then [] else [|names[0]|] + names[0] + Packed(names[1..])
  }

  lemma {:induction false} PackedParts(a: seq<Name>, b: seq<Name>)
    ensures Packed(a + b) == Packed(a) + Packed(b)
  {
    if a == [] {
      assert a + b == b;
    } else {
      assert (a + b)[1..] == a[1..] + b;
      PackedParts(a[1..], b);
    }
  }

  lemma PackedOne(name: Name)
    ensures Packed([name]) == [|name|] + name
  {
    assert [name][1..] == [];
  }

  lemma PackedNothing()
    ensures Packed([]) == []
  {
  }

  /** Where the `i`-th name starts, and what is there. */
  lemma PackedAt(names: seq<Name>, i: nat)
    requires i < |names|
    ensures |Packed(names[..i + 1])| == |Packed(names[..i])| + 1 + |names[i]|
    ensures |Packed(names[..i + 1])| <= |Packed(names)|
    ensures Packed(names)[|Packed(names[..i])|] == |names[i]|
    ensures Packed(names)[|Packed(names[..i])|..|Packed(names[..i + 1])|] == Packed([names[i]])
  {
    assert names[..i + 1] == names[..i] + [names[i]];
    assert names == names[..i + 1] + names[i + 1..];
    PackedParts(names[..i], [names[i]]);
    PackedParts(names[..i + 1], names[i + 1..]);
    PackedOne(names[i]);
  }

  /** Reading a page back gives its names. */
  function Unpacked(page: seq<byte>): seq<Name> {
    if page == [] || page[0] >= |page| then [] else [page[1..1 + page[0]]] + Unpacked(page[1 + page[0]..])
  }

  lemma {:induction false} PackUnpack(names: seq<Name>)
    ensures Unpacked(Packed(names)) == names
  {
    if names != [] {
      var page := Packed(names);
      assert page[1..1 + page[0]] == names[0];
      assert page[1 + page[0]..] == Packed(names[1..]);
      PackUnpack(names[1..]);
    }
  }

  datatype Page = TooLong | Page(count: nat, bytes: seq<byte>)

  /** The most names from the `from`-th on that fit in `room`. */
  function Fits(names: seq<Name>, room: nat): (n: nat)
    ensures n <= |names| && |Packed(names[..n])| <= room
    ensures n < |names| ==> |Packed(names[..n + 1])| > room
  {
    if names == [] || 1 + |names[0]| > room then
      assert names != [] ==> names[..1] == [names[0]] && Packed([names[0]]) == [|names[0]|] + names[0] + Packed([]);
      assert names[..0] == [];
      0
    else
      var n := 1 + Fits(names[1..], room - 1 - |names[0]|);
      assert names[..n][1..] == names[1..][..n - 1];
      assert n < |names| ==> names[..n + 1][1..] == names[1..][..n];
      n
  }

  /** A page of a listing: it fails when there are names left and not even one fits. */
  function Listed(names: seq<Name>, from: nat, room: nat): Page
    requires from <= |names|
  {
    var n := Fits(names[from..], room);
    if n == 0 && from < |names| then TooLong else Page(n, Packed(names[from..from + n]))
  }

  /** As many names as fit and no more. */
  lemma {:induction false} FitsMost(names: seq<Name>, room: nat, n: nat)
    requires n <= |names| && |Packed(names[..n])| <= room
    ensures n <= Fits(names, room)
  {
    if n > 0 {
      assert names[..n][1..] == names[1..][..n - 1];
      FitsMost(names[1..], room - 1 - |names[0]|, n - 1);
    }
  }

  /** A page from the bytes of the listing: past the names before `from`, then name by name while the next fits. */
  method List(packed: seq<byte>, ghost names: seq<Name>, from: nat, room: nat) returns (page: Page)
    requires packed == Packed(names) && from <= |names|
    ensures page == Listed(names, from, room)
  {
    hide Packed;
    PackedNothing();
    var at, k := 0, 0;
    assert names[..0] == [];
    while k < from
      invariant k <= from && at == |Packed(names[..k])|
    {
      PackedAt(names, k);
      at := at + 1 + packed[at];
      k := k + 1;
    }
    var bytes: seq<byte>, count := [], 0;
    assert names[from..from] == [] && names[..|names|] == names;
    AtEnd(names, from);
    while at < |packed| && 1 + packed[at] <= room - |bytes|
      invariant from + count <= |names| && at == |Packed(names[..from + count])| && |bytes| <= room
      invariant bytes == Packed(names[from..from + count])
      invariant at < |packed| <==> from + count < |names|
      decreases |packed| - at
    {
      PackedAt(names, from + count);
      assert names[from..from + count + 1] == names[from..from + count] + [names[from + count]];
      PackedParts(names[from..from + count], [names[from + count]]);
      var n := 1 + packed[at] as int;
      bytes := bytes + packed[at..at + n];
      at := at + n;
      count := count + 1;
      AtEnd(names, from + count);
    }
    FitsHere(names, from, room, count);
    if at < |packed| && count == 0 { return TooLong; }
    return Page(count, bytes);
  }

  lemma AtEnd(names: seq<Name>, i: nat)
    requires i <= |names|
    ensures |Packed(names[..i])| < |Packed(names)| <==> i < |names|
  {
    if i < |names| { PackedAt(names, i); } else { assert names[..i] == names; }
  }

  lemma FitsHere(names: seq<Name>, from: nat, room: nat, count: nat)
    requires from + count <= |names| && |Packed(names[from..from + count])| <= room
    requires from + count < |names| ==>
      var at := |Packed(names[..from + count])|;
      at < |Packed(names)| && 1 + Packed(names)[at] > room - |Packed(names[from..from + count])|
    ensures Fits(names[from..], room) == count
  {
    hide Packed;
    var rest := names[from..];
    assert rest[..count] == names[from..from + count];
    FitsMost(rest, room, count);
    if from + count < |names| {
      PackedAt(names, from + count);
      PackedOne(rest[count]);
      var n := Fits(rest, room);
      if n > count {
        assert rest[..n] == rest[..count] + [rest[count]] + rest[count + 1..n];
        PackedParts(rest[..count] + [rest[count]], rest[count + 1..n]);
        PackedParts(rest[..count], [rest[count]]);
      }
    }
  }

  /** Page after page from `from` on, each asked for where the last one ended. */
  function Paged(names: seq<Name>, from: nat, room: nat): (pages: seq<Page>)
    requires from <= |names|
    decreases |names| - from
  {
    var page := Listed(names, from, room);
    if from == |names| then []
    else if page.TooLong? then [TooLong]
    else [page] + Paged(names, from + page.count, room)
  }

  predicate AllFit(names: seq<Name>, room: nat) { forall i :: 0 <= i < |names| ==> 1 + |names[i]| <= room }

  function Bytes(pages: seq<Page>): seq<byte> {
    if pages == [] then []
    else (if pages[0].Page? then pages[0].bytes else []) + Bytes(pages[1..])
  }

  lemma AllFitParts(a: seq<Name>, b: seq<Name>, room: nat)
    ensures AllFit(a + b, room) <==> AllFit(a, room) && AllFit(b, room)
  {
    assert forall i :: 0 <= i < |a| ==> (a + b)[i] == a[i];
    assert forall i :: 0 <= i < |b| ==> (a + b)[|a| + i] == b[i];
  }

  lemma PageFits(names: seq<Name>, room: nat)
    requires |Packed(names)| <= room
    ensures AllFit(names, room)
  {
    forall i | 0 <= i < |names| ensures 1 + |names[i]| <= room {
      PackedAt(names, i);
    }
  }

  /** The page that fails: the name at its head does not fit alone. */
  lemma PageTooLong(names: seq<Name>, from: nat, room: nat)
    requires from < |names| && Listed(names, from, room).TooLong?
    ensures !AllFit(names[from..], room)
  {
    hide Packed;
    var rest := names[from..];
    assert rest[..1] == [rest[0]];
    PackedOne(rest[0]);
  }

  /** The page that does not: some names, which fit. */
  lemma PageMore(names: seq<Name>, from: nat, room: nat)
    requires from < |names| && Listed(names, from, room).Page?
    ensures var page := Listed(names, from, room);
      && 0 < page.count <= |names| - from && page.bytes == Packed(names[from..from + page.count])
      && Packed(names[from..]) == page.bytes + Packed(names[from + page.count..])
      && (AllFit(names[from..], room) <==> AllFit(names[from + page.count..], room))
  {
    hide Packed, AllFit;
    var page := Listed(names, from, room);
    var next := from + page.count;
    assert names[from..][..page.count] == names[from..next];
    assert names[from..] == names[from..next] + names[next..];
    PackedParts(names[from..next], names[next..]);
    PageFits(names[from..next], room);
    AllFitParts(names[from..next], names[next..], room);
  }

  /** Paging gives every name once, in order, exactly when each fits in a page alone; otherwise it stops, failing. */
  lemma {:induction false} PagingWhole(names: seq<Name>, from: nat, room: nat)
    requires from <= |names|
    ensures AllFit(names[from..], room) ==>
      TooLong !in Paged(names, from, room) && Bytes(Paged(names, from, room)) == Packed(names[from..])
    ensures !AllFit(names[from..], room) ==> TooLong in Paged(names, from, room)
    decreases |names| - from
  {
    hide Packed, AllFit, Listed;
    if from == |names| {
      NothingLeft(names, room);
    } else if Listed(names, from, room).TooLong? {
      PageTooLong(names, from, room);
      assert Paged(names, from, room) == [TooLong];
    } else {
      PageMore(names, from, room);
      var page := Listed(names, from, room);
      var more := Paged(names, from + page.count, room);
      PagingWhole(names, from + page.count, room);
      assert Paged(names, from, room) == [page] + more;
      assert ([page] + more)[1..] == more;
      assert page in [page] + more && forall x :: x in more ==> x in [page] + more;
    }
  }

  lemma NothingLeft(names: seq<Name>, room: nat)
    ensures AllFit(names[|names|..], room) && Packed(names[|names|..]) == []
  {
  }
}
