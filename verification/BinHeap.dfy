/** Binary heap of chunks by chunk id (binheap.c). */
module BinHeap {
  import opened Bytes

  /** A chunk that waits to be written. */
  class HeapElement {
    const cid: int
    const len: nat
    const content: seq<Byte>

    constructor (cid: int, len: nat, content: seq<Byte>)
      ensures this.cid == cid && this.len == len && this.content == content
    {
      this.cid, this.len, this.content := cid, len, content;
    }
  }

  // ---------- heaps as sequences; element 0 is the sentinel ----------

  ghost predicate Filled(v: seq<HeapElement?>) {
    |v| >= 1 && v[0] == null && forall k :: 1 <= k < |v| ==> v[k] != null
  }

  /** Element k is no smaller than its parent. */
  ghost predicate Above(v: seq<HeapElement?>, k: nat)
    requires Filled(v) && 2 <= k < |v|
  {
    v[k / 2].cid <= v[k].cid
  }

  ghost predicate NoLess(v: seq<HeapElement?>, j: nat, k: nat)
    requires Filled(v) && 1 <= j < |v| && 1 <= k < |v|
  {
    v[j].cid <= v[k].cid
  }

  ghost predicate Heap(v: seq<HeapElement?>) {
    Filled(v) && forall k :: 2 <= k < |v| ==> Above(v, k)
  }

  /** A heap but for element i, which may be too small for its place. */
  ghost predicate HeapButUp(v: seq<HeapElement?>, i: nat) {
    && Filled(v) && 1 <= i < |v|
    && (forall k :: 2 <= k < |v| && k != i ==> Above(v, k))
    && (i >= 2 ==> forall k :: 2 <= k < |v| && k / 2 == i ==> NoLess(v, i / 2, k))
  }

  /** A heap but for element i, which may be too large for its place. */
  ghost predicate HeapButDown(v: seq<HeapElement?>, i: nat) {
    && Filled(v) && 1 <= i < |v|
    && (forall k :: 2 <= k < |v| && k / 2 != i ==> Above(v, k))
    && (i >= 2 ==> forall k :: 2 <= k < |v| && k / 2 == i ==> NoLess(v, i / 2, k))
  }

  ghost function Swapped<T>(v: seq<T>, i: nat, j: nat): seq<T>
    requires i < |v| && j < |v|
  {
    v[i := v[j]][j := v[i]]
  }

  /** The same elements, with the same sentinel. */
  ghost predicate Same<T>(v: seq<T>, w: seq<T>) {
    |v| > 0 && |w| > 0 && multiset(v) == multiset(w) && v[0] == w[0]
  }

  lemma SwapKeeps<T>(v: seq<T>, i: nat, j: nat)
    requires i < |v| && j < |v|
    ensures multiset(Swapped(v, i, j)) == multiset(v)
  {
  }

  lemma PercolateUp(v: seq<HeapElement?>, i: nat)
    requires HeapButUp(v, i) && i >= 2 && v[i / 2].cid > v[i].cid
    ensures HeapButUp(Swapped(v, i, i / 2), i / 2)
  {
    var w, j := Swapped(v, i, i / 2), i / 2;
    forall k | 2 <= k < |w| && k != j ensures Above(w, k) {
      if k != i {
        assert Above(v, k);
        if k / 2 == i { assert NoLess(v, j, k); }
      }
    }
    if j >= 2 {
      assert Above(v, j);
      forall k | 2 <= k < |w| && k / 2 == j ensures NoLess(w, j / 2, k) {
        if k != i { assert Above(v, k); }
      }
    }
  }

  lemma UpStep(v: seq<HeapElement?>, i: nat)
    requires HeapButUp(v, i) && v[i / 2] != null && v[i / 2].cid > v[i].cid
    ensures i >= 2 && HeapButUp(Swapped(v, i, i / 2), i / 2) && Same(Swapped(v, i, i / 2), v)
  {
    PercolateUp(v, i);
    SwapKeeps(v, i, i / 2);
  }

  lemma UpIsHeap(v: seq<HeapElement?>, i: nat)
    requires HeapButUp(v, i) && (i >= 2 ==> v[i / 2].cid <= v[i].cid)
    ensures Heap(v)
  {
    if i >= 2 { assert Above(v, i); }
  }

  lemma AppendIsHeapButUp(v: seq<HeapElement?>, x: HeapElement)
    requires Heap(v)
    ensures HeapButUp(v + [x], |v|)
  {
    forall k | 2 <= k < |v| ensures Above(v + [x], k) { assert Above(v, k); }
  }

  /** The smaller child of i. */
  ghost predicate SmallerChild(v: seq<HeapElement?>, i: nat, c: nat)
    requires Filled(v)
  {
    && 1 <= i && 2 <= c < |v| && c / 2 == i
    && forall k :: 2 <= k < |v| && k / 2 == i ==> NoLess(v, c, k)
  }

  lemma PercolateDown(v: seq<HeapElement?>, i: nat, c: nat)
    requires HeapButDown(v, i) && SmallerChild(v, i, c) && v[i].cid > v[c].cid
    ensures HeapButDown(Swapped(v, i, c), c)
  {
    var w := Swapped(v, i, c);
    forall k | 2 <= k < |w| && k / 2 != c ensures Above(w, k) {
      if k / 2 == i {
        assert NoLess(v, c, k);
      } else if k == i {
        assert NoLess(v, i / 2, c);
      } else {
        assert Above(v, k);
      }
    }
    forall k | 2 <= k < |w| && k / 2 == c ensures NoLess(w, c / 2, k) {
      assert Above(v, k);
    }
  }

  lemma DownIsHeap(v: seq<HeapElement?>, i: nat)
    requires HeapButDown(v, i) && forall k :: 2 <= k < |v| && k / 2 == i ==> NoLess(v, i, k)
    ensures Heap(v)
  {
    forall k | 2 <= k < |v| ensures Above(v, k) {
      if k / 2 == i { assert NoLess(v, i, k); }
    }
  }

  /** The first element of a heap is its least. */
  lemma {:induction false} RootIsMin(v: seq<HeapElement?>, k: nat)
    requires Heap(v) && 1 <= k < |v|
    ensures v[1].cid <= v[k].cid
    decreases k
  {
    if k >= 2 {
      RootIsMin(v, k / 2);
      assert Above(v, k);
    }
  }

  // ---------- the queue ----------

  lemma Items<T>(v: seq<T>)
    requires |v| >= 1
    ensures multiset(v) == multiset{v[0]} + multiset(v[1..])
  {
    assert v == [v[0]] + v[1..];
  }

  lemma OneMore<T>(before: seq<T>, v: seq<T>, x: T)
    requires |before| >= 1 && Same(v, before + [x])
    ensures multiset(v[1..]) == multiset(before[1..]) + multiset{x}
  {
    Items(before);
    Items(v);
    assert multiset(v[1..]) == multiset(v) - multiset{v[0]};
  }

  /** The last element takes the place of the first. */
  ghost function LastFirst<T>(v: seq<T>): seq<T>
    requires |v| >= 3
  {
    v[..|v| - 1][1 := v[|v| - 1]]
  }

  lemma LastFirstIsHeapButDown(v: seq<HeapElement?>)
    requires Heap(v) && |v| >= 3
    ensures HeapButDown(LastFirst(v), 1)
  {
    var w := LastFirst(v);
    forall k | 2 <= k < |w| && k / 2 != 1 ensures Above(w, k) { assert Above(v, k); }
  }

  lemma OneLess<T>(before: seq<T>, v: seq<T>)
    requires |before| >= 3 && Same(v, LastFirst(before))
    ensures multiset(v[1..]) == multiset(before[1..]) - multiset{before[1]}
  {
    var n := |before| - 1;
    var w := LastFirst(before);
    assert before[1..] == [before[1]] + before[2..n] + [before[n]];
    assert w == [before[0], before[n]] + before[2..n];
    Items(w);
    Items(v);
    assert w[1..] == [before[n]] + before[2..n];
    assert multiset(v[1..]) == multiset(v) - multiset{v[0]};
  }

  lemma Bottom(v: seq<HeapElement?>, i: nat)
    requires HeapButDown(v, i) && i * 2 >= |v|
    ensures Heap(v)
  {
    DownIsHeap(v, i);
  }

  /** One turn of the loop in DeleteMin. */
  lemma DownStep(v: seq<HeapElement?>, i: nat, c: nat)
    requires HeapButDown(v, i) && SmallerChild(v, i, c) && v[i].cid > v[c].cid
    ensures HeapButDown(Swapped(v, i, c), c) && Same(Swapped(v, i, c), v)
  {
    PercolateDown(v, i, c);
    SwapKeeps(v, i, c);
  }

  lemma DownStops(v: seq<HeapElement?>, i: nat, c: nat)
    requires HeapButDown(v, i) && SmallerChild(v, i, c) && v[i].cid <= v[c].cid
    ensures Heap(v)
  {
    forall k | 2 <= k < |v| && k / 2 == i ensures NoLess(v, i, k) { assert NoLess(v, c, k); }
    DownIsHeap(v, i);
  }

  const MIN_PQ_SIZE := 16

  class PriorityQueue {
    var elements: array<HeapElement?>
    var size: nat
    var capacity: nat

    ghost predicate Valid()
      reads this, elements
    {
      && elements.Length == capacity + 1 && size <= capacity && capacity >= 1
      && Heap(elements[..size + 1])
    }

    /** What is in the queue. */
    ghost function Contents(): multiset<HeapElement?>
      requires elements.Length > size
      reads this, elements
    {
      multiset(elements[1..size + 1])
    }

    constructor (initCapacity: nat)
      requires initCapacity >= MIN_PQ_SIZE
      ensures Valid() && fresh(elements) && Contents() == multiset{} && size == 0
    {
      elements := new HeapElement?[initCapacity + 1](_ => null);
      capacity, size := initCapacity, 0;
    }

    method Grow()
      requires Valid()
      modifies this`elements, this`capacity
      ensures Valid() && capacity == 2 * old(capacity) && fresh(elements)
      ensures elements[..size + 1] == old(elements[..size + 1])
    {
      ghost var v := elements[..size + 1];
      var bigger := new HeapElement?[2 * capacity + 1](_ => null);
      forall i | 0 <= i < elements.Length {
        bigger[i] := elements[i];
      }
      elements, capacity := bigger, 2 * capacity;
      assert elements[..size + 1] == v;
    }

    method Insert(x: HeapElement)
      requires Valid()
      modifies this, elements
      ensures Valid() && Contents() == old(Contents()) + multiset{x}
      ensures elements == old(elements) || fresh(elements)
    {
      ghost var before := elements[..size + 1];
      assert before[1..] == elements[1..size + 1];
      if size == capacity { Grow(); }
      if size == 0 {
        elements[1] := x;
        size := 1;
        assert before[1..] == [] && elements[1..2] == [x];
        return;
      }
      size := size + 1;
      ghost var v := elements[..size + 1][size := x];
      assert v == before + [x];
      AppendIsHeapButUp(before, x);
      v := SiftUp(x, v);
      OneMore(before, v, x);
      assert v[1..] == elements[1..size + 1];
    }

    /** The hole is filled. */
    method Place(i: nat, x: HeapElement, ghost v: seq<HeapElement?>)
      requires size < elements.Length && i <= size && v == elements[..size + 1][i := x]
      modifies elements
      ensures elements[..size + 1] == v
    {
      elements[i] := x;
    }

    /** The hole, where x is to go, moves from i to j. */
    method Shift(i: nat, j: nat, x: HeapElement, ghost v: seq<HeapElement?>) returns (ghost w: seq<HeapElement?>)
      requires size < elements.Length && i <= size && j <= size && i != j && v == elements[..size + 1][i := x]
      modifies elements
      ensures w == Swapped(v, i, j) && w == elements[..size + 1][j := x]
    {
      elements[i] := elements[j];
      w := elements[..size + 1][j := x];
    }

    /** The new element moves up from the end. */
    method SiftUp(x: HeapElement, ghost start: seq<HeapElement?>) returns (ghost v: seq<HeapElement?>)
      requires 2 <= size <= capacity && elements.Length == capacity + 1
      requires start == elements[..size + 1][size := x] && HeapButUp(start, size)
      modifies elements
      ensures elements[..size + 1] == v && Heap(v) && Same(v, start)
    {
      var i := size;
      v := start;
      while elements[i / 2] != null && elements[i / 2].cid > x.cid
        invariant 1 <= i <= size && v == elements[..size + 1][i := x]
        invariant HeapButUp(v, i) && Same(v, start)
        decreases i
      {
        UpStep(v, i);
        v := Shift(i, i / 2, x, v);
        i := i / 2;
      }
      assert i >= 2 ==> v[i / 2] == elements[i / 2];
      UpIsHeap(v, i);
      Place(i, x, v);
    }

    method IsEmpty() returns (r: bool)
      requires Valid()
      ensures r <==> Contents() == multiset{}
    {
      r := size == 0;
      if size > 0 { assert elements[1] in elements[1..size + 1]; }
    }

    /** The first element, one with the least chunk id; null in an empty queue. */
    method FindMin() returns (x: HeapElement?)
      requires Valid()
      ensures x == null <==> Contents() == multiset{}
      ensures x != null ==> x in Contents() && forall y :: y in Contents() ==> y != null && x.cid <= y.cid
    {
      if size == 0 { return null; }
      x := elements[1];
      assert elements[1] in elements[1..size + 1];
      Least();
    }

    lemma Least()
      requires Valid() && size > 0
      ensures elements[1] in Contents()
      ensures forall y :: y in Contents() ==> y != null && elements[1] != null && elements[1].cid <= y.cid
    {
      var v := elements[..size + 1];
      forall y | y in Contents() ensures y != null && v[1] != null && v[1].cid <= y.cid {
        var k :| 0 <= k < |elements[1..size + 1]| && elements[1..size + 1][k] == y;
        assert v[k + 1] == y;
        RootIsMin(v, k + 1);
      }
      assert elements[1] in elements[1..size + 1];
    }

    /** The smaller of the children of i. */
    method Smaller(i: nat, ghost x: HeapElement, ghost v: seq<HeapElement?>) returns (child: nat)
      requires 1 <= i && 2 * i <= size < elements.Length && v == elements[..size + 1][i := x] && Filled(v)
      ensures SmallerChild(v, i, child) && i < child <= size && elements[child] == v[child]
    {
      child := i * 2;
      assert forall k :: i < k <= size ==> elements[k] == v[k];
      if child != size && elements[child + 1].cid < elements[child].cid {
        child := child + 1;
      }
    }

    /** The last element moves down from the front. */
    method SiftDown(last: HeapElement, ghost start: seq<HeapElement?>) returns (ghost v: seq<HeapElement?>)
      requires 1 <= size <= capacity && elements.Length == capacity + 1
      requires start == elements[..size + 1][1 := last] && HeapButDown(start, 1)
      modifies elements
      ensures elements[..size + 1] == v && Heap(v) && Same(v, start)
    {
      var i := 1;
      v := start;
      var stop := false;
      while !stop && i * 2 <= size
        invariant 1 <= i <= size && Hole(i, last, v) && Same(v, start) && (stop ==> Heap(v))
        decreases if stop then 0 else 1 + size - i
      {
        stop, i, v := SiftOne(i, last, v);
      }
      if !stop { Bottom(v, i); }
      Place(i, last, v);
    }

    /** With x in the hole at i the array would be v, a heap but for x, which may be too large for its place. */
    ghost predicate Hole(i: nat, x: HeapElement, v: seq<HeapElement?>)
      requires size < elements.Length
      reads this, elements
    {
      i <= size && v == elements[..size + 1][i := x] && HeapButDown(v, i)
    }

    /** One turn of the loop: the smaller child moves up, unless it is no less than the last element. */
    method SiftOne(i: nat, last: HeapElement, ghost v: seq<HeapElement?>) returns (stop: bool, j: nat, ghost w: seq<HeapElement?>)
      requires 1 <= i && i * 2 <= size <= capacity && elements.Length == capacity + 1 && Hole(i, last, v)
      modifies elements
      ensures j <= size && Hole(j, last, w) && Same(w, v) && if stop then j == i && Heap(w) else i < j
    {
      var child := Smaller(i, last, v);
      stop, j, w := last.cid <= elements[child].cid, i, v;
      if stop {
        DownStops(v, i, child);
      } else {
        DownStep(v, i, child);
        w := Shift(i, child, last, v);
        j := child;
      }
    }

    method DeleteMin() returns (min: HeapElement?)
      requires Valid()
      modifies this`size, elements
      ensures Valid()
      ensures old(Contents()) == multiset{} ==> min == null && Contents() == multiset{}
      ensures old(Contents()) != multiset{} ==>
                && min in old(Contents()) && Contents() == old(Contents()) - multiset{min}
                && min != null && forall y :: y in old(Contents()) ==> y != null && min.cid <= y.cid
    {
      if size == 0 { return null; }
      Least();
      min := elements[1];
      RemoveFirst();
    }

    method RemoveFirst()
      requires Valid() && size > 0
      modifies this`size, elements
      ensures Valid() && Contents() == old(Contents()) - multiset{old(elements[1])}
    {
      ghost var before := elements[..size + 1];
      assert before[1..] == elements[1..size + 1];
      var last := elements[size];
      size := size - 1;
      if size == 0 {
        elements[1] := last;
        assert before[1..] == [last] && elements[1..1] == [];
        return;
      }
      ghost var start := elements[..size + 1][1 := last];
      assert start == LastFirst(before);
      LastFirstIsHeapButDown(before);
      ghost var v := SiftDown(last, start);
      OneLess(before, v);
      assert v[1..] == elements[1..size + 1];
    }
  }
}
