/** The order of blocks (encoder.c, SendBlock): blocks may arrive in any order, and are written by anchor and by chunk
    within the anchor. */
module Reorder {
  import opened Counting
  import opened Bytes
  import opened BinHeap
  import opened SearchTree
  import opened Pending
  import opened Writer
  import FileFormat

  datatype Place = Place(aid: int, cid: int)

  /** What the pipeline hands over for a chunk: its place, the length that goes with a fingerprint, and its digest. */
  datatype Item = Item(place: Place, len: nat, key: Key)

  ghost predicate Before(p: Place, q: Place) {
    p.aid < q.aid || (p.aid == q.aid && p.cid < q.cid)
  }

  /** A place that has a chunk; counts are the numbers of chunks of the anchors. */
  ghost predicate InRange(counts: seq<nat>, p: Place) {
    0 <= p.aid < |counts| && 0 <= p.cid < counts[p.aid]
  }

  ghost predicate Positive(counts: seq<nat>) {
    forall a :: 0 <= a < |counts| ==> counts[a] > 0
  }

  ghost function Next(counts: seq<nat>, p: Place): Place
    requires InRange(counts, p)
  {
    if p.cid + 1 == counts[p.aid] then Place(p.aid + 1, 0) else Place(p.aid, p.cid + 1)
  }

  /** Each place has exactly one item. */
  ghost predicate Complete(items: seq<Item>, counts: seq<nat>) {
    && Positive(counts)
    && (forall i :: 0 <= i < |items| ==> InRange(counts, items[i].place))
    && (forall i, j :: 0 <= i < j < |items| ==> items[i].place != items[j].place)
    && (forall p :: InRange(counts, p) ==> exists i :: 0 <= i < |items| && items[i].place == p)
  }

  ghost function ToWrite(items: seq<Item>): (r: seq<Block>)
    ensures |r| == |items|
    ensures forall i :: 0 <= i < |items| ==> r[i] == Block(items[i].len, items[i].key)
  {
    seq(|items|, i requires 0 <= i < |items| => Block(items[i].len, items[i].key))
  }

  /** The first k items have been looked at and `out` written, the next block being that of place p. */
  ghost predicate InOrder(items: seq<Item>, k: nat, out: seq<Item>, counts: seq<nat>, p: Place)
    requires k <= |items|
  {
    && (forall i :: 0 <= i < |out| ==> out[i] in items[..k] && Before(out[i].place, p))
    && (forall i, j :: 0 <= i < j < |out| ==> Before(out[i].place, out[j].place))
    && (forall i :: 0 <= i < k && Before(items[i].place, p) ==> items[i] in out)
    && (forall q :: InRange(counts, q) && Before(q, p) ==> exists i :: 0 <= i < |out| && out[i].place == q)
    && (InRange(counts, p) || p == Place(|counts|, 0))
  }

  /** A block for this place has come, and is not written. */
  ghost predicate Came(items: seq<Item>, k: nat, p: Place, a: int, c: int)
    requires k <= |items|
  {
    !Before(Place(a, c), p) && exists i :: 0 <= i < k && Is(items[i], a, c)
  }

  /** What waits is what has come but is not written. */
  ghost predicate Waits(items: seq<Item>, k: nat, b: Blocks, p: Place)
    requires k <= |items|
  {
    && (forall i :: 0 <= i < k && !Before(items[i].place, p) ==> Kept(b, items[i]))
    && (forall a, c :: a in b && c in b[a] ==> Came(items, k, p, a, c))
    && (forall a :: a in b ==> NonEmpty(b[a]) && Named(b[a]))
  }

  ghost predicate Is(x: Item, a: int, c: int) {
    x.place == Place(a, c)
  }

  ghost predicate Kept(b: Blocks, x: Item) {
    && x.place.aid in b && x.place.cid in b[x.place.aid]
    && var h := b[x.place.aid][x.place.cid]; h.cid == x.place.cid && h.len == x.len && h.content == x.key
  }

  // ---------- one block ----------

  lemma NextIsNext(counts: seq<nat>, p: Place, q: Place)
    requires Positive(counts) && InRange(counts, p) && InRange(counts, q)
    ensures Before(q, Next(counts, p)) <==> Before(q, p) || q == p
  {
  }

  /** What arrives has not been written yet. */
  lemma NotYet(items: seq<Item>, k: nat, out: seq<Item>, counts: seq<nat>, p: Place)
    requires Complete(items, counts) && k < |items| && InOrder(items, k, out, counts, p)
    ensures !Before(items[k].place, p)
  {
    forall i | 0 <= i < |out| ensures out[i].place != items[k].place {
      assert out[i] in items[..k];
    }
  }

  lemma Arrives(items: seq<Item>, k: nat, out: seq<Item>, counts: seq<nat>, p: Place)
    requires Complete(items, counts) && k < |items| && InOrder(items, k, out, counts, p)
    ensures InOrder(items, k + 1, out, counts, p)
  {
    NotYet(items, k, out, counts, p);
    forall i | 0 <= i < |out| ensures out[i] in items[..k + 1] {
      assert out[i] in items[..k];
      assert items[..k + 1] == items[..k] + [items[k]];
    }
  }

  /** The item of place p is written. */
  lemma Writes(items: seq<Item>, k: nat, out: seq<Item>, counts: seq<nat>, p: Place, i: nat)
    requires Complete(items, counts) && k <= |items| && InOrder(items, k, out, counts, p)
    requires i < k && items[i].place == p
    ensures InOrder(items, k, out + [items[i]], counts, Next(counts, p))
  {
    var all, n := out + [items[i]], Next(counts, p);
    NextIsNext(counts, p, p);
    forall j | 0 <= j < |all| ensures all[j] in items[..k] && Before(all[j].place, n) {
      if j == |out| { assert items[i] in items[..k]; }
    }
    forall j | 0 <= j < k && Before(items[j].place, n) ensures items[j] in all {
      NextIsNext(counts, p, items[j].place);
      if j != i { assert items[j].place != p; assert items[j] in out; } else { assert all[|out|] == items[i]; }
    }
    forall q | InRange(counts, q) && Before(q, n) ensures exists j :: 0 <= j < |all| && all[j].place == q {
      NextIsNext(counts, p, q);
      if q == p {
        assert all[|out|].place == q;
      } else {
        var j :| 0 <= j < |out| && out[j].place == q;
        assert all[j].place == q;
      }
    }
  }

  // ---------- what waits ----------

  lemma PutWaits(items: seq<Item>, k: nat, b: Blocks, p: Place, h: HeapElement)
    requires k < |items| && Waits(items, k, b, p)
    requires var x := items[k]; h.cid == x.place.cid && h.len == x.len && h.content == x.key && !Before(x.place, p)
    requires h.cid !in At(b, items[k].place.aid)
    ensures Waits(items, k + 1, Add(b, items[k].place.aid, h), p)
  {
    var x := items[k];
    var u := Add(b, x.place.aid, h);
    forall i | 0 <= i < k + 1 && !Before(items[i].place, p) ensures Kept(u, items[i]) {
      if i < k { assert Kept(b, items[i]); }
    }
    forall a, c | a in u && c in u[a] ensures Came(items, k + 1, p, a, c) {
      if a == x.place.aid && c == h.cid {
        assert Is(items[k], a, c);
      } else {
        assert a in b && c in b[a];
        assert Came(items, k, p, a, c);
      }
    }
    forall a | a in u ensures NonEmpty(u[a]) && Named(u[a]) {
      if a == x.place.aid { assert h.cid in u[a]; }
    }
  }

  /** The place that is next does not wait, so what has been waiting for it waits for the one after. */
  lemma WaitsNext(items: seq<Item>, k: nat, counts: seq<nat>, b: Blocks, p: Place)
    requires Complete(items, counts) && k < |items| && Waits(items, k, b, p) && InRange(counts, p) && items[k].place == p
    ensures Waits(items, k + 1, b, Next(counts, p))
  {
    var n := Next(counts, p);
    forall i | 0 <= i < k + 1 && !Before(items[i].place, n) ensures Kept(b, items[i]) {
      NextIsNext(counts, p, items[i].place);
    }
    forall a, c | a in b && c in b[a] ensures Came(items, k + 1, n, a, c) {
      assert Came(items, k, p, a, c);
      var i :| 0 <= i < k && Is(items[i], a, c);
      NextIsNext(counts, p, items[i].place);
      assert items[i].place != items[k].place;
    }
  }

  lemma DropWaits(items: seq<Item>, k: nat, counts: seq<nat>, b: Blocks, p: Place)
    requires Complete(items, counts) && k <= |items| && Waits(items, k, b, p) && InRange(counts, p)
    requires p.aid in b && p.cid in b[p.aid]
    ensures Waits(items, k, Drop(b, p.aid, p.cid), Next(counts, p))
  {
    var n, u := Next(counts, p), Drop(b, p.aid, p.cid);
    forall i | 0 <= i < k && !Before(items[i].place, n) ensures Kept(u, items[i]) {
      NextIsNext(counts, p, items[i].place);
      assert Kept(b, items[i]);
      if items[i].place.aid == p.aid { assert items[i].place.cid in b[p.aid] - {p.cid}; }
    }
    forall a, c | a in u && c in u[a] ensures Came(items, k, n, a, c) {
      assert a in b && c in b[a];
      assert Came(items, k, p, a, c);
      var i :| 0 <= i < k && Is(items[i], a, c);
      NextIsNext(counts, p, items[i].place);
    }
  }

  /** The first block that waits, if it is not the next one to write, shows that the next one has not come. */
  lemma NextIsAway(items: seq<Item>, k: nat, b: Blocks, p: Place, aid: int, h: HeapElement)
    requires k <= |items| && Waits(items, k, b, p)
    requires aid in b && (forall a :: a in b ==> aid <= a) && IsFirst(b[aid], h)
    ensures p == Place(aid, h.cid) || !(p.aid in b && p.cid in b[p.aid])
  {
    assert Came(items, k, p, aid, h.cid);
  }

  // ---------- SendBlock ----------

  lemma WriteOne(o: Output, out: seq<Item>, x: Item)
    ensures WriteBlocks(o, ToWrite(out + [x])) == WriteBlock(WriteBlocks(o, ToWrite(out)), Block(x.len, x.key))
  {
    var all := ToWrite(out + [x]);
    assert all[..|all| - 1] == ToWrite(out);
  }

  /** Where the writing of the first k items stands: p is next, and does not wait. */
  ghost predicate Stands(items: seq<Item>, k: nat, out: seq<Item>, counts: seq<nat>, p: Place, b: Blocks)
    requires k <= |items|
  {
    InOrder(items, k, out, counts, p) && Waits(items, k, b, p)
  }

  ghost predicate Absent(b: Blocks, p: Place) {
    !(p.aid in b && p.cid in b[p.aid])
  }

  /** The file after k items: what is next has not come. */
  ghost predicate Sent(items: seq<Item>, k: nat, out: seq<Item>, counts: seq<nat>, p: Place, b: Blocks, o: Output, value: Output) {
    k <= |items| && Stands(items, k, out, counts, p, b) && Absent(b, p) && value == WriteBlocks(o, ToWrite(out))
  }

  /** The item that waits for its place. */
  lemma Waiter(items: seq<Item>, k: nat, counts: seq<nat>, b: Blocks, p: Place) returns (i: nat)
    requires Complete(items, counts) && k <= |items| && Waits(items, k, b, p) && p.aid in b && p.cid in b[p.aid]
    ensures i < k && items[i].place == p && Kept(b, items[i]) && InRange(counts, p)
  {
    assert Came(items, k, p, p.aid, p.cid);
    i :| 0 <= i < k && Is(items[i], p.aid, p.cid);
  }

  /** reassemble_count and anchor_count go on to the next place. */
  method Advance(counts: seq<nat>, aid: nat, cid: nat) returns (anchor_count: nat, reassemble_count: nat)
    requires InRange(counts, Place(aid, cid))
    ensures Place(anchor_count, reassemble_count) == Next(counts, Place(aid, cid))
  {
    anchor_count, reassemble_count := aid, cid + 1;
    if reassemble_count == counts[anchor_count] {
      reassemble_count := 0;
      anchor_count := anchor_count + 1;
    }
  }

  /** The first block that waits, known as First gives it. */
  ghost predicate Known(w: Waiting, e: TreeElement?, h: HeapElement?) {
    && (e == null ==> h == null && forall a :: a !in w.blocks)
    && (e != null ==> e.aid in w.blocks && (forall a :: a in w.blocks ==> e.aid <= a) && e.aid in Elems(w.shape)
                      && e == Elems(w.shape)[e.aid] && h != null && IsFirst(w.blocks[e.aid], h))
  }

  /** Writing does not touch what waits. */
  method WriteBeside(T: TreeNode?, ghost w: Waiting, f: OutputFile, b: Block)
    requires Valid(T, w) && f !in w.foot
    modifies f
    ensures Valid(T, w) && f.Value() == WriteBlock(old(f.Value()), b)
  {
    f.Write(b);
  }

  /** The first block that waits is written and taken out. */
  method WriteFirst(T: TreeNode?, ghost w: Waiting, f: OutputFile, e: TreeElement, h: HeapElement)
    returns (r: TreeNode?, ghost u: Waiting, next: TreeElement?, first: HeapElement?)
    requires Valid(T, w) && Known(w, e, h) && f !in w.foot
    modifies f, w.nodes, w.foot
    ensures Valid(r, u) && u.nodes <= w.nodes && u.foot == w.foot && u.blocks == Drop(w.blocks, e.aid, h.cid)
    ensures f.Value() == WriteBlock(old(f.Value()), Block(h.len, h.content)) && Known(u, next, first)
  {
    WriteBeside(T, w, f, Block(h.len, h.content));
    var empty: bool;
    ghost var g: HeapElement;
    r, u, g, empty := Remove(T, w, e);
    next, first := First(r, u);
  }

  /** The blocks that have become next, one after the other. */
  method Drain(T0: TreeNode?, ghost w0: Waiting, f: OutputFile, counts: seq<nat>, aid: nat, cid: nat,
               ghost items: seq<Item>, ghost k: nat, ghost out0: seq<Item>, ghost o: Output)
    returns (T: TreeNode?, ghost w: Waiting, anchor_count: nat, reassemble_count: nat, ghost out: seq<Item>)
    requires Valid(T0, w0) && Complete(items, counts) && k <= |items|
    requires Stands(items, k, out0, counts, Place(aid, cid), w0.blocks) && f.Value() == WriteBlocks(o, ToWrite(out0))
    requires f !in w0.foot
    modifies f, w0.nodes, w0.foot
    ensures Valid(T, w) && w.nodes <= w0.nodes && w.foot == w0.foot
    ensures Stands(items, k, out, counts, Place(anchor_count, reassemble_count), w.blocks)
    ensures f.Value() == WriteBlocks(o, ToWrite(out)) && Absent(w.blocks, Place(anchor_count, reassemble_count))
  {
    T, w, anchor_count, reassemble_count, out := T0, w0, aid, cid, out0;
    var e, h := First(T, w);
    while h != null && h.cid == reassemble_count && e.aid == anchor_count
      invariant Valid(T, w) && w.nodes <= w0.nodes && w.foot == w0.foot
      invariant Stands(items, k, out, counts, Place(anchor_count, reassemble_count), w.blocks)
      invariant f.Value() == WriteBlocks(o, ToWrite(out))
      invariant Known(w, e, h)
      decreases |items| - |out|
    {
      ghost var p := Place(anchor_count, reassemble_count);
      ghost var i := Waiter(items, k, counts, w.blocks, p);
      WriteOne(o, out, items[i]);
      Writes(items, k, out, counts, p, i);
      DropWaits(items, k, counts, w.blocks, p);
      out := out + [items[i]];
      T, w, e, h := WriteFirst(T, w, f, e, h);
      anchor_count, reassemble_count := Advance(counts, anchor_count, reassemble_count);
      OutFits(items, k, out, counts, Place(anchor_count, reassemble_count));
    }
    if e != null { NextIsAway(items, k, w.blocks, Place(anchor_count, reassemble_count), e.aid, h); }
  }

  lemma OutFits(items: seq<Item>, k: nat, out: seq<Item>, counts: seq<nat>, p: Place)
    requires k <= |items| && InOrder(items, k, out, counts, p)
    ensures |out| <= |items|
  {
    ElementsSize(out);
    ElementsSize(items[..k]);
    assert Elements(out) <= Elements(items[..k]);
    SubsetSize(Elements(out), Elements(items[..k]));
  }

  /** An item that is next is written, and whatever it has kept waiting; any other is put aside. */
  method Receive(T0: TreeNode?, ghost w0: Waiting, f: OutputFile, counts: seq<nat>, aid: nat, cid: nat, x: Item,
                 ghost items: seq<Item>, ghost k: nat, ghost out0: seq<Item>, ghost o: Output)
    returns (T: TreeNode?, ghost w: Waiting, anchor_count: nat, reassemble_count: nat, ghost out: seq<Item>)
    requires Valid(T0, w0) && Complete(items, counts) && k < |items| && x == items[k]
    requires f !in w0.foot && Sent(items, k, out0, counts, Place(aid, cid), w0.blocks, o, f.Value())
    modifies f, w0.nodes, w0.foot
    ensures Valid(T, w) && fresh(w.nodes - w0.nodes) && fresh(w.foot - w0.foot)
    ensures Sent(items, k + 1, out, counts, Place(anchor_count, reassemble_count), w.blocks, o, f.Value())
  {
    ghost var p := Place(aid, cid);
    Arrives(items, k, out0, counts, p);
    NotYet(items, k, out0, counts, p);
    if x.place == Place(aid, cid) {
      T, anchor_count, reassemble_count := WriteNow(T0, w0, f, counts, aid, cid, x, items, k, out0, o);
      T, w, anchor_count, reassemble_count, out :=
        Drain(T, w0, f, counts, anchor_count, reassemble_count, items, k + 1, out0 + [x], o);
    } else {
      NotPresent(items, k, counts, w0.blocks, p);
      ghost var h: HeapElement;
      T, w, h := Put(T0, w0, x.place.aid, x.place.cid, x.len, x.key);
      PutWaits(items, k, w0.blocks, p, h);
      anchor_count, reassemble_count, out := aid, cid, out0;
    }
  }

  lemma WrittenNow(items: seq<Item>, k: nat, out: seq<Item>, counts: seq<nat>, p: Place, b: Blocks, o: Output)
    requires Complete(items, counts) && k < |items| && items[k].place == p
    requires InOrder(items, k + 1, out, counts, p) && Waits(items, k, b, p)
    ensures Stands(items, k + 1, out + [items[k]], counts, Next(counts, p), b)
    ensures WriteBlocks(o, ToWrite(out + [items[k]])) == WriteBlock(WriteBlocks(o, ToWrite(out)), Block(items[k].len, items[k].key))
  {
    WriteOne(o, out, items[k]);
    Writes(items, k + 1, out, counts, p, k);
    WaitsNext(items, k, counts, b, p);
  }

  method WriteNow(T: TreeNode?, ghost w: Waiting, f: OutputFile, counts: seq<nat>, aid: nat, cid: nat, x: Item,
                  ghost items: seq<Item>, ghost k: nat, ghost out: seq<Item>, ghost o: Output)
    returns (r: TreeNode?, anchor_count: nat, reassemble_count: nat)
    requires Valid(T, w) && Complete(items, counts) && k < |items| && x == items[k] && x.place == Place(aid, cid)
    requires InOrder(items, k + 1, out, counts, Place(aid, cid)) && Waits(items, k, w.blocks, Place(aid, cid))
    requires f !in w.foot && f.Value() == WriteBlocks(o, ToWrite(out))
    modifies f
    ensures Valid(r, w) && Stands(items, k + 1, out + [x], counts, Place(anchor_count, reassemble_count), w.blocks)
    ensures f.Value() == WriteBlocks(o, ToWrite(out + [x]))
  {
    r := T;
    WriteBeside(T, w, f, Block(x.len, x.key));
    WrittenNow(items, k, out, counts, x.place, w.blocks, o);
    anchor_count, reassemble_count := Advance(counts, aid, cid);
  }

  lemma NotPresent(items: seq<Item>, k: nat, counts: seq<nat>, b: Blocks, p: Place)
    requires Complete(items, counts) && k < |items| && Waits(items, k, b, p)
    ensures items[k].place.cid !in At(b, items[k].place.aid)
  {
    var q := items[k].place;
    assert forall i :: 0 <= i < k ==> items[i].place != items[k].place;
    assert !Came(items, k, p, q.aid, q.cid);
  }

  /** All blocks, in order. */
  ghost predicate InFileOrder(items: seq<Item>, out: seq<Item>) {
    && |out| == |items| && (forall x :: x in items <==> x in out)
    && forall i, j :: 0 <= i < j < |out| ==> Before(out[i].place, out[j].place)
  }

  method ReceiveAll(items: seq<Item>, counts: seq<nat>, f: OutputFile) returns (T: TreeNode?, ghost out: seq<Item>)
    requires Complete(items, counts)
    modifies f
    ensures T == null && InFileOrder(items, out) && f.Value() == WriteBlocks(old(f.Value()), ToWrite(out))
  {
    ghost var o := f.Value();
    T, out := null, [];
    ghost var w := Waiting(Leaf, {}, map[], {}, map[]);
    var anchor_count, reassemble_count := 0, 0;
    var k := 0;
    Begins(items, counts);
    while k < |items|
      invariant 0 <= k <= |items| && Valid(T, w) && fresh(w.nodes) && fresh(w.foot)
      invariant Sent(items, k, out, counts, Place(anchor_count, reassemble_count), w.blocks, o, f.Value())
    {
      T, w, anchor_count, reassemble_count, out :=
        Receive(T, w, f, counts, anchor_count, reassemble_count, items[k], items, k, out, o);
      k := k + 1;
    }
    Finished(T, w, items, out, counts, Place(anchor_count, reassemble_count));
  }

  lemma Finished(T: TreeNode?, w: Waiting, items: seq<Item>, out: seq<Item>, counts: seq<nat>, p: Place)
    requires Valid(T, w) && Complete(items, counts) && Stands(items, |items|, out, counts, p, w.blocks) && Absent(w.blocks, p)
    ensures T == null && InFileOrder(items, out)
  {
    AllWritten(items, out, counts, p, w.blocks);
    Emptied(T, w);
  }

  /** Whatever the order of arrival, every block is written once, by anchor and by chunk, with numbers 0, 1, 2, and
      so on, and nothing is left waiting. */
  method SendBlock(items: seq<Item>, counts: seq<nat>, f: OutputFile, head: seq<Byte>) returns (T: TreeNode?, ghost out: seq<Item>)
    requires Complete(items, counts)
    modifies f
    ensures T == null && InFileOrder(items, out)
    ensures var o := WriteBlocks(old(f.Value()).(file := old(f.file) + FileFormat.Header(head)), ToWrite(out));
            f.Value() == o.(file := o.file + [TYPE_FINISH])
  {
    f.Put(FileFormat.Header(head));
    T, out := ReceiveAll(items, counts, f);
    f.Put([TYPE_FINISH]);
  }

  lemma AllWritten(items: seq<Item>, out: seq<Item>, counts: seq<nat>, p: Place, b: Blocks)
    requires Complete(items, counts) && Stands(items, |items|, out, counts, p, b) && Absent(b, p)
    ensures InFileOrder(items, out) && forall a :: a !in b
  {
    assert items[..|items|] == items;
    forall i | 0 <= i < |items| ensures items[i].place != p {
      assert Before(items[i].place, p) || Kept(b, items[i]);
    }
    assert p == Place(|counts|, 0);
    forall a, c ensures !Came(items, |items|, p, a, c) {
      assert forall i :: 0 <= i < |items| ==> Before(items[i].place, p);
    }
    forall a ensures a !in b {
      assert a in b ==> NonEmpty(b[a]);
    }
    forall x ensures x in items <==> x in out {
      if x in items {
        var i :| 0 <= i < |items| && items[i] == x;
        assert Before(items[i].place, p);
      }
    }
    ElementsSize(out);
    ElementsSize(items);
    assert Elements(out) == Elements(items);
  }

  lemma Begins(items: seq<Item>, counts: seq<nat>)
    requires Complete(items, counts)
    ensures Stands(items, 0, [], counts, Place(0, 0), map[])
  {
  }

  lemma RootIn(s: Shape)
    requires s.Node?
    ensures s.e.aid in Elems(s)
  {
  }

  /** A tree without blocks is empty. */
  lemma Emptied(T: TreeNode?, w: Waiting)
    requires Valid(T, w) && forall a :: a !in w.blocks
    ensures T == null
  {
    if w.shape.Node? {
      RootIn(w.shape);
      assert false;
    }
  }

  // ---------- one order ----------

  /** There is only one way to put blocks in order, so the file does not depend on the order of arrival. */
  lemma {:induction false} OneOrder(s: seq<Item>, t: seq<Item>)
    requires (forall x :: x in s <==> x in t) && |s| == |t|
    requires forall i, j :: 0 <= i < j < |s| ==> Before(s[i].place, s[j].place)
    requires forall i, j :: 0 <= i < j < |t| ==> Before(t[i].place, t[j].place)
    ensures s == t
    decreases |s|
  {
    if s != [] {
      LastIsGreatest(s);
      LastIsGreatest(t);
      var n := |s| - 1;
      assert s[n] in t && t[n] in s;
      assert s[n] == t[n];
      forall x ensures x in s[..n] <==> x in t[..n] {
        AllButLast(s, n, x);
        AllButLast(t, n, x);
      }
      OneOrder(s[..n], t[..n]);
      assert s == s[..n] + [s[n]] && t == t[..n] + [t[n]];
    }
  }

  lemma AllButLast(s: seq<Item>, n: nat, x: Item)
    requires |s| == n + 1 && forall i, j :: 0 <= i < j < |s| ==> Before(s[i].place, s[j].place)
    ensures x in s[..n] <==> x in s && x != s[n]
  {
    LastNotBefore(s, n);
    assert s == s[..n] + [s[n]];
  }

  lemma LastIsGreatest(s: seq<Item>)
    requires s != [] && forall i, j :: 0 <= i < j < |s| ==> Before(s[i].place, s[j].place)
    ensures forall x :: x in s ==> x == s[|s| - 1] || Before(x.place, s[|s| - 1].place)
  {
  }

  lemma LastNotBefore(s: seq<Item>, n: nat)
    requires |s| == n + 1 && forall i, j :: 0 <= i < j < |s| ==> Before(s[i].place, s[j].place)
    ensures s[n] !in s[..n]
  {
  }

  lemma SameFile(items: seq<Item>, other: seq<Item>, out: seq<Item>, out': seq<Item>)
    requires InFileOrder(items, out) && InFileOrder(other, out')
    requires |items| == |other| && forall x :: x in items <==> x in other
    ensures out == out'
  {
    OneOrder(out, out');
  }
}
