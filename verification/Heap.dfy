/** The load generator's heap of connections by when each next has something to do: an array of connections in heap order
    and, for each connection, its place in it. */
module Heap {
  import Pigeonhole

  function Parent(i: int): int
    requires i > 0
  {
    (i - 1) / 2
  }

  /** Every connection's place is where it is, and the others have none. */
  ghost predicate Placed(h: seq<nat>, n: nat, at: seq<int>)
    requires n <= |h|
  {
    && (forall i {:trigger h[i]} :: 0 <= i < n ==> h[i] < |at| && at[h[i]] == i)
    && (forall c {:trigger at[c]} :: 0 <= c < |at| ==> at[c] == -1 || (0 <= at[c] < n && h[at[c]] == c))
  }

  /** The first `n` are connections, of which there are `conns`. */
  ghost predicate Known(h: seq<nat>, n: nat, conns: nat) {
    n <= |h| && forall i {:trigger h[i]} :: 0 <= i < n ==> h[i] < conns
  }

  /** No key is less than its parent's. */
  ghost predicate Ordered(h: seq<nat>, n: nat, key: seq<nat>)
    requires Known(h, n, |key|)
  {
    forall j {:trigger h[j]} :: 0 < j < n ==> key[h[Parent(j)]] <= key[h[j]]
  }

  /** So but perhaps for the children of `i`, which are not less than its parent. */
  ghost predicate Down(h: seq<nat>, n: nat, key: seq<nat>, i: nat)
    requires Known(h, n, |key|) && i < n
  {
    && (forall j {:trigger h[j]} :: 0 < j < n && Parent(j) != i ==> key[h[Parent(j)]] <= key[h[j]])
    && (forall j {:trigger h[j]} :: 0 < j < n && Parent(j) == i && i > 0 ==> key[h[Parent(i)]] <= key[h[j]])
  }

  /** So but perhaps for `i`, whose children are not less than its parent. */
  ghost predicate Up(h: seq<nat>, n: nat, key: seq<nat>, i: nat)
    requires Known(h, n, |key|) && i < n
  {
    && (forall j {:trigger h[j]} :: 0 < j < n && j != i ==> key[h[Parent(j)]] <= key[h[j]])
    && (forall j {:trigger h[j]} :: 0 < j < n && Parent(j) == i && i > 0 ==> key[h[Parent(i)]] <= key[h[j]])
  }

  function Swapped(h: seq<nat>, a: nat, b: nat): (r: seq<nat>)
    requires a < |h| && b < |h|
    ensures |r| == |h| && r[a] == h[b] && r[b] == h[a]
  {
    h[a := h[b]][b := h[a]]
  }

  lemma {:induction false} RootLeast(h: seq<nat>, n: nat, key: seq<nat>, j: nat)
    requires j < n && Known(h, n, |key|) && Ordered(h, n, key)
    ensures key[h[0]] <= key[h[j]]
  {
    if j > 0 {
      assert key[h[Parent(j)]] <= key[h[j]];
      RootLeast(h, n, key, Parent(j));
    }
  }

  /** `m` is the least of `i` and its children, `i` itself when it can be. */
  ghost predicate Lesser(h: seq<nat>, n: nat, key: seq<nat>, i: nat, m: nat)
    requires Known(h, n, |key|)
  {
    && i <= m < n && key[h[m]] <= key[h[i]] && (m > i ==> Parent(m) == i && key[h[m]] < key[h[i]])
    && forall j {:trigger h[j]} :: 0 < j < n && Parent(j) == i ==> key[h[m]] <= key[h[j]]
  }

  /** The lesser child comes up. */
  lemma DownStep(h: seq<nat>, n: nat, key: seq<nat>, i: nat, m: nat)
    requires Known(h, n, |key|) && i < m < n && Down(h, n, key, i) && Lesser(h, n, key, i, m)
    ensures Known(Swapped(h, i, m), n, |key|) && Down(Swapped(h, i, m), n, key, m)
  {
    var h' := Swapped(h, i, m);
    forall j | 0 < j < n && Parent(j) != m ensures key[h'[Parent(j)]] <= key[h'[j]] {
      assert Parent(j) != i ==> key[h[Parent(j)]] <= key[h[j]];
      if i > 0 { assert key[h[Parent(i)]] <= key[h[m]]; }
    }
    forall j | 0 < j < n && Parent(j) == m ensures key[h'[Parent(m)]] <= key[h'[j]] {
      assert key[h[m]] <= key[h[j]];
    }
  }

  lemma DownDone(h: seq<nat>, n: nat, key: seq<nat>, i: nat)
    requires Known(h, n, |key|) && i < n && Down(h, n, key, i) && Lesser(h, n, key, i, i)
    ensures Ordered(h, n, key)
  {
  }

  /** One not greater than its parent goes up. */
  lemma UpStep(h: seq<nat>, n: nat, key: seq<nat>, i: nat)
    requires Known(h, n, |key|) && 0 < i < n && Up(h, n, key, i) && key[h[i]] <= key[h[Parent(i)]]
    ensures Known(Swapped(h, i, Parent(i)), n, |key|) && Up(Swapped(h, i, Parent(i)), n, key, Parent(i))
  {
    var p := Parent(i);
    var h' := Swapped(h, i, p);
    if p > 0 { assert key[h[Parent(p)]] <= key[h[p]]; }
    forall j | 0 < j < n && j != p ensures key[h'[Parent(j)]] <= key[h'[j]] {
      assert j != i ==> key[h[Parent(j)]] <= key[h[j]];
      assert Parent(j) == i ==> key[h[p]] <= key[h[j]];
    }
    forall j | 0 < j < n && Parent(j) == p && p > 0 ensures key[h'[Parent(p)]] <= key[h'[j]] {
      assert j != i ==> key[h[p]] <= key[h[j]];
    }
  }

  lemma UpDone(h: seq<nat>, n: nat, key: seq<nat>, i: nat)
    requires Known(h, n, |key|) && i < n && Up(h, n, key, i) && (i > 0 ==> key[h[Parent(i)]] <= key[h[i]])
    ensures Ordered(h, n, key)
  {
  }

  /** With the key at `i` made the least there can be. */
  lemma Lowered(h: seq<nat>, n: nat, key: seq<nat>, i: nat, key': seq<nat>)
    requires Known(h, n, |key|) && i < n && Ordered(h, n, key)
    requires |key'| == |key| && key'[h[i]] == 0 && forall c {:trigger key'[c]} :: 0 <= c < |key| && c != h[i] ==>
      key'[c] == key[c]
    requires forall j {:trigger h[j]} :: 0 <= j < n && j != i ==> h[j] != h[i]
    ensures Up(h, n, key', i)
  {
    forall j | 0 < j < n && Parent(j) == i && i > 0 ensures key'[h[Parent(i)]] <= key'[h[j]] {
      assert key[h[Parent(i)]] <= key[h[i]] <= key[h[j]];
    }
  }

  /** The last one out. */
  lemma TopPlaced(h: seq<nat>, n: nat, at: seq<int>)
    requires 0 < n <= |h| && Known(h, n, |at|) && Placed(h, n, at)
    ensures h[n - 1] < |at| && Known(h, n - 1, |at|) && Placed(h, n - 1, at[h[n - 1] := -1])
  {
    var at' := at[h[n - 1] := -1];
    forall d | 0 <= d < |at'| ensures at'[d] == -1 || (0 <= at'[d] < n - 1 && h[at'[d]] == d) {
      assert at[d] == -1 || (0 <= at[d] < n && h[at[d]] == d);
    }
  }

  /** The last in the first's place. */
  lemma TopDown(h: seq<nat>, n: nat, key: seq<nat>)
    requires 0 < n <= |h| && Known(h, n, |key|) && Ordered(h, n, key)
    ensures var h' := Swapped(h, 0, n - 1); Known(h', n - 1, |key|) && (n > 1 ==> Down(h', n - 1, key, 0))
  {
    var h' := Swapped(h, 0, n - 1);
    forall j | 0 < j < n - 1 && Parent(j) != 0 ensures key[h'[Parent(j)]] <= key[h'[j]] {
      assert key[h[Parent(j)]] <= key[h[j]];
    }
  }

  lemma SwapPlaced(h: seq<nat>, n: nat, at: seq<int>, a: nat, b: nat)
    requires n <= |h| && a < n && b < n && Known(h, n, |at|) && Placed(h, n, at)
    ensures h[a] < |at| && h[b] < |at| && at[h[a]] >= 0 && at[h[b]] >= 0
    ensures Known(Swapped(h, a, b), n, |at|) && Placed(Swapped(h, a, b), n, at[h[b] := a][h[a] := b])
  {
    var h', at' := Swapped(h, a, b), at[h[b] := a][h[a] := b];
    assert at[h[a]] == a && at[h[b]] == b;
    forall d | 0 <= d < |at'| ensures at'[d] == -1 || (0 <= at'[d] < n && h'[at'[d]] == d) {
      assert at[d] == -1 || (0 <= at[d] < n && h[at[d]] == d);
    }
  }

  lemma OrderedNone(h: seq<nat>, key: seq<nat>)
    ensures Known(h, 0, |key|) && Ordered(h, 0, key)
  {
  }

  ghost function InHeap(at: seq<int>): set<int> { set c | 0 <= c < |at| && at[c] >= 0 }

  /** A place given to a connection, or taken from it. */
  lemma InHeapWith(at: seq<int>, c: nat, place: int)
    requires c < |at|
    ensures InHeap(at[c := place]) == if place >= 0 then InHeap(at) + {c as int} else InHeap(at) - {c as int}
    ensures c in InHeap(at) <==> at[c] >= 0
  {
  }

  lemma Back(m: set<int>, c: int)
    ensures m - {c} + {c} == m + {c}
  {
  }

  /** A connection more at the end, placed there. */
  lemma AppendPlaced(h: seq<nat>, n: nat, at: seq<int>, c: nat)
    requires n < |h| && Placed(h, n, at) && c < |at| && at[c] < 0
    ensures Placed(h[n := c], n + 1, at[c := n])
  {
    var h', at' := h[n := c], at[c := n];
    forall d | 0 <= d < |at'| ensures at'[d] == -1 || (0 <= at'[d] < n + 1 && h'[at'[d]] == d) {
      assert at[d] == -1 || (0 <= at[d] < n && h[at[d]] == d);
    }
  }

  lemma AppendUp(h: seq<nat>, n: nat, key: seq<nat>, at: seq<int>, c: nat, k: nat)
    requires n < |h| && Known(h, n, |key|) && Ordered(h, n, key) && c < |key| == |at| && Placed(h, n, at) && at[c] < 0
    ensures Known(h[n := c], n + 1, |key|) && Up(h[n := c], n + 1, key[c := k], n)
  {
    var h', key' := h[n := c], key[c := k];
    forall j | 0 < j < n + 1 && j != n ensures key'[h'[Parent(j)]] <= key'[h'[j]] {
      assert key[h[Parent(j)]] <= key[h[j]];
      assert h[j] != c && h[Parent(j)] != c;
    }
  }

  /** One not in the heap leaves room for itself. */
  lemma RoomFor(h: seq<nat>, n: nat, at: seq<int>, c: nat)
    requires n <= |h| && Placed(h, n, at) && c < |at| && at[c] < 0
    ensures n < |at|
  {
    var s := h[..n] + [c];
    assert forall i :: 0 <= i < n ==> s[i] == h[i];
    Pigeonhole.DistinctFits(s, |at|);
  }

  class ConnHeap {
    const heap: array<nat>
    const at: array<int>
    const key: array<nat>
    var n: nat

    ghost predicate Sized()
      reads this
    {
      heap != key && heap.Length == at.Length == key.Length && n <= heap.Length
    }

    ghost predicate Backed()
      reads this, heap, at
    {
      Sized() && Known(heap[..], n, key.Length) && Placed(heap[..], n, at[..])
    }

    ghost predicate Valid()
      reads this, heap, at, key
    {
      Backed() && Ordered(heap[..], n, key[..])
    }

    /** No connection in it, with room for every one. */
    constructor (conns: nat)
      ensures Valid() && Members() == {} && key.Length == conns && fresh(heap) && fresh(at) && fresh(key)
    {
      heap := new nat[conns](_ => 0);
      at := new int[conns](_ => -1);
      key := new nat[conns](_ => 0);
      n := 0;
    }

    /** The connections in the heap. */
    ghost function Members(): set<int>
      reads this, at
    {
      InHeap(at[..])
    }

    method Swap(a: nat, b: nat)
      requires Backed() && a < n && b < n
      modifies heap, at
      ensures Backed() && heap[..] == Swapped(old(heap[..]), a, b) && Members() == old(Members())
    {
      hide InHeap, Placed, Known;
      ghost var h, was := heap[..], at[..];
      SwapPlaced(h, n, was, a, b);
      InHeapWith(was, h[b], a);
      InHeapWith(was[h[b] := a], h[a], b);
      heap[a], heap[b] := heap[b], heap[a];
      at[heap[a]] := a;
      at[heap[b]] := b;
      assert heap[..] == Swapped(h, a, b) && at[..] == was[h[b] := a][h[a] := b];
    }

    /** The lesser of `i` and its children. */
    method Least(i: nat) returns (m: nat)
      requires Backed() && i < n
      ensures i <= m < n && Lesser(heap[..], n, key[..], i, m)
    {
      var l := 2 * i + 1;
      var r := l + 1;
      m := i;
      if l < n && key[heap[l]] < key[heap[m]] { m := l; }
      if r < n && key[heap[r]] < key[heap[m]] { m := r; }
    }

    /** A connection of the least key, taken out. */
    method Pop() returns (top: nat)
      requires Valid() && n > 0
      modifies this, heap, at
      ensures Valid() && n == old(n) - 1
      ensures top == old(heap[0]) && top in old(Members()) && Members() == old(Members()) - {top as int}
      ensures forall c {:trigger key[c]} :: c in old(Members()) ==> key[top] <= key[c]
    {
      hide Down, Ordered, Placed, Known, Swapped, Lesser, InHeap;
      TopLeast();
      top := heap[0];
      TakeTop();
      var i := 0;
      while i < n
        invariant Backed() && (i < n || n == 0) && n == old(n) - 1 && Members() == old(Members()) - {top as int}
        invariant n > 0 ==> Down(heap[..], n, key[..], i)
        decreases n - i
      {
        var m := Least(i);
        if m == i {
          DownDone(heap[..], n, key[..], i);
          return;
        }
        DownStep(heap[..], n, key[..], i, m);
        Swap(i, m);
        i := m;
      }
      OrderedNone(heap[..], key[..]);
    }

    lemma TopLeast()
      requires Valid() && n > 0
      ensures heap[0] in Members()
      ensures forall c {:trigger key[c]} :: c in Members() ==> key[heap[0]] <= key[c]
    {
      forall c | c in Members() ensures key[heap[0]] <= key[c] {
        assert heap[..][at[c]] == c;
        RootLeast(heap[..], n, key[..], at[c]);
      }
    }

    /** The last in the place of the first, which is out. */
    method TakeTop()
      requires Valid() && n > 0
      modifies this, heap, at
      ensures Backed() && n == old(n) - 1 && Members() == old(Members()) - {old(heap[0]) as int}
      ensures n > 0 ==> Down(heap[..], n, key[..], 0)
    {
      hide InHeap, Placed, Known, Down, Ordered, Swapped;
      var top := heap[0];
      ghost var h, ks := heap[..], key[..];
      TopDown(h, n, ks);
      Swap(0, n - 1);
      ghost var places := at[..];
      assert heap[n - 1] == heap[..][n - 1] == top;
      TopPlaced(heap[..], n, places);
      InHeapWith(places, top, -1);
      n := n - 1;
      at[top] := -1;
      assert at[..] == places[top := -1];
    }

    /** Taken out, wherever it is: lifted to the root, then popped. */
    method Remove(c: nat)
      requires Valid() && c < at.Length
      modifies this, heap, at, key
      ensures Valid() && Members() == old(Members()) - {c as int}
      ensures c in old(Members()) ==> n == old(n) - 1
      ensures c !in old(Members()) ==> n == old(n) && key[c] == old(key[c])
      ensures forall d {:trigger key[d]} :: 0 <= d < key.Length && d != c ==> key[d] == old(key[d])
    {
      hide Up, Ordered, Placed, Known, InHeap;
      InHeapWith(at[..], c, at[c]);
      if at[c] < 0 { return; }
      var i := Lower(c);
      Lift(i, c);
      var _ := Pop();
    }

    /** Its key the least there can be. */
    method Lower(c: nat) returns (i: nat)
      requires Valid() && c < at.Length && at[c] >= 0
      modifies key
      ensures Backed() && i < n && heap[i] == c && key[..] == old(key[..])[c := 0] && Up(heap[..], n, key[..], i)
    {
      ghost var was := key[..];
      i := at[c];
      assert heap[..][i] == c;
      key[c] := 0;
      Lowered(heap[..], n, was, i, key[..]);
    }

    /** The one at `i`, whose key is the least there can be, at the root. */
    method Lift(from: nat, c: nat)
      requires Backed() && from < n && heap[from] == c && key[c] == 0 && Up(heap[..], n, key[..], from)
      modifies heap, at
      ensures Valid() && heap[0] == c && Members() == old(Members())
    {
      hide Up, Ordered, Placed, Swapped, InHeap;
      var i := from;
      while i > 0
        invariant 0 <= i < n && Backed() && heap[i] == c && Up(heap[..], n, key[..], i) && Members() == old(Members())
      {
        assert key[..][heap[..][i]] == 0;
        UpStep(heap[..], n, key[..], i);
        Swap(i, (i - 1) / 2);
        i := (i - 1) / 2;
      }
      UpDone(heap[..], n, key[..], 0);
    }

    /** In the heap with this key, whether it was there or not. */
    method Push(c: nat, k: nat)
      requires Valid() && c < at.Length
      modifies this, heap, at, key
      ensures Valid() && Members() == old(Members()) + {c as int} && key[c] == k
      ensures forall d {:trigger key[d]} :: 0 <= d < key.Length && d != c ==> key[d] == old(key[d])
    {
      hide Up, Ordered, Placed, Known, InHeap;
      ghost var m := Members();
      Remove(c);
      Out(c);
      Back(m, c);
      RoomFor(heap[..], n, at[..], c);
      Append(c, k);
      Rise(at[c]);
    }

    lemma Out(c: nat)
      requires c < at.Length && c !in Members()
      ensures at[c] < 0
    {
    }

    /** The one at `i` up to where its parent is not greater. */
    method Rise(from: nat)
      requires Backed() && from < n && Up(heap[..], n, key[..], from)
      modifies heap, at
      ensures Valid() && Members() == old(Members())
    {
      hide Up, Ordered, Placed, Swapped, InHeap;
      var i := from;
      while i > 0 && key[heap[(i - 1) / 2]] > key[heap[i]]
        invariant 0 <= i < n && Backed() && Up(heap[..], n, key[..], i) && Members() == old(Members())
      {
        UpStep(heap[..], n, key[..], i);
        Swap(i, (i - 1) / 2);
        i := (i - 1) / 2;
      }
      UpDone(heap[..], n, key[..], i);
    }

    method Append(c: nat, k: nat)
      requires Valid() && c < at.Length && at[c] < 0 && n < heap.Length
      modifies this, heap, at, key
      ensures Backed() && n == old(n) + 1 && at[c] == n - 1 && key[..] == old(key[..])[c := k]
      ensures Members() == old(Members()) + {c as int} && Up(heap[..], n, key[..], n - 1)
    {
      hide Placed, Ordered, Up, Known, InHeap;
      ghost var h, a, ks := heap[..], at[..], key[..];
      AppendPlaced(h, n, a, c);
      AppendUp(h, n, ks, a, c, k);
      InHeapWith(a, c, n);
      key[c] := k;
      at[c] := n;
      heap[n] := c;
      n := n + 1;
      assert heap[..] == h[n - 1 := c] && at[..] == a[c := n - 1] && key[..] == ks[c := k];
    }
  }
}
