/** The blocks that have arrived before their turn: a search tree by anchor id of heaps by chunk id (encoder.c). */
module Pending {
  import opened Bytes
  import opened BinHeap
  import opened SearchTree

  const INITIAL_SIZE := 4096

  /** The waiting blocks, by anchor id and chunk id. */
  type Blocks = map<int, map<int, HeapElement>>

  ghost predicate NonEmpty(m: map<int, HeapElement>) {
    exists c :: c in m
  }

  ghost function At(b: Blocks, a: int): map<int, HeapElement> {
    if a in b then b[a] else map[]
  }

  ghost function Add(b: Blocks, a: int, h: HeapElement): Blocks {
    b[a := At(b, a)[h.cid := h]]
  }

  ghost function Drop(b: Blocks, a: int, c: int): Blocks
    requires a in b
  {
    if !NonEmpty(b[a] - {c}) then b - {a} else b[a := b[a] - {c}]
  }

  ghost function Values(m: map<int, HeapElement>): multiset<HeapElement?> {
    multiset(set c | c in m :: m[c])
  }

  ghost predicate Named(m: map<int, HeapElement>) {
    forall c :: c in m ==> m[c].cid == c
  }

  lemma ValuesAdd(m: map<int, HeapElement>, h: HeapElement)
    requires Named(m) && h.cid !in m
    ensures Named(m[h.cid := h]) && Values(m[h.cid := h]) == Values(m) + multiset{h}
  {
    var n := m[h.cid := h];
    var s, t := set c | c in m :: m[c], set c | c in n :: n[c];
    forall x ensures x in t <==> x in s || x == h {
      if x in s {
        var c :| c in m && m[c] == x;
        assert c in n && n[c] == x;
      }
      assert n[h.cid] == h;
    }
    assert t == s + {h};
  }

  lemma ValuesDrop(m: map<int, HeapElement>, c: int)
    requires Named(m) && c in m
    ensures Named(m - {c}) && Values(m - {c}) == Values(m) - multiset{m[c]}
  {
    var s := set x | x in m :: m[x];
    var n := m - {c};
    var t := set x | x in n :: n[x];
    forall h ensures h in t <==> h in s && h != m[c] {
      if h in s && h != m[c] {
        var x :| x in m && m[x] == h;
        assert x in n && n[x] == h;
      }
    }
    assert t == s - {m[c]};
  }

  /** The queue holds exactly the blocks m. */
  ghost predicate Holds(q: PriorityQueue, m: map<int, HeapElement>)
    reads q, q.elements
  {
    q.Valid() && Named(m) && q.Contents() == Values(m)
  }

  // ---------- the heaps ----------

  type Queues = map<int, PriorityQueue>

  ghost predicate Apart(queues: Queues, foot: set<object>)
    reads foot
  {
    && (forall a :: a in queues ==> queues[a] in foot && queues[a].elements in foot)
    && (forall a, b :: a in queues && b in queues && a != b ==> queues[a] != queues[b] && queues[a].elements != queues[b].elements)
  }

  /** The queues, which may use the objects in foot, hold the blocks. */
  ghost predicate Stored(queues: Queues, blocks: Blocks, foot: set<object>)
    reads foot
  {
    && Apart(queues, foot) && queues.Keys == blocks.Keys
    && forall a :: a in queues ==> Holds(queues[a], blocks[a]) && NonEmpty(blocks[a])
  }

  /** One more block for a queue that is there. */
  method Deposit(aid: int, p: HeapElement, ghost queues: Queues, ghost blocks: Blocks, ghost foot: set<object>, q: PriorityQueue)
    requires Stored(queues, blocks, foot) && aid in queues && queues[aid] == q && p.cid !in blocks[aid]
    modifies foot
    ensures Stored(queues, Add(blocks, aid, p), foot + {q.elements}) && (q.elements in foot || fresh(q.elements))
  {
    ValuesAdd(blocks[aid], p);
    ghost var arrays := map a | a in queues :: queues[a].elements;
    q.Insert(p);
    forall a | a in queues && a != aid ensures Holds(queues[a], blocks[a]) && queues[a].elements == arrays[a] {
      assert arrays[a] != arrays[aid];
    }
    StoredMore(queues, blocks, foot, aid, p);
  }

  lemma StoredMore(queues: Queues, blocks: Blocks, foot: set<object>, aid: int, p: HeapElement)
    requires aid in queues && queues.Keys == blocks.Keys && queues[aid] in foot
    requires Apart(queues, foot + {queues[aid].elements}) && Holds(queues[aid], blocks[aid][p.cid := p])
    requires forall a :: a in queues && a != aid ==> Holds(queues[a], blocks[a]) && NonEmpty(blocks[a])
    ensures Stored(queues, Add(blocks, aid, p), foot + {queues[aid].elements})
  {
    var after := Add(blocks, aid, p);
    assert after.Keys == blocks.Keys && p.cid in after[aid];
    forall a | a in queues ensures Holds(queues[a], after[a]) && NonEmpty(after[a]) {
      if a != aid { assert after[a] == blocks[a]; }
    }
  }

  lemma ApartAdd(queues: Queues, foot: set<object>, aid: int, q: PriorityQueue)
    requires Apart(queues, foot) && q !in foot && q.elements !in foot && aid !in queues
    ensures Apart(queues[aid := q], foot + {q, q.elements})
  {
    forall a | a in queues ensures queues[a] != q && queues[a].elements != q.elements {
      assert queues[a] in foot && queues[a].elements in foot;
    }
  }

  lemma StoredAdd(queues: Queues, blocks: Blocks, foot: set<object>, aid: int, q: PriorityQueue, p: HeapElement)
    requires Stored(queues, blocks, foot) && q !in foot && q.elements !in foot && aid !in queues
    requires Holds(q, map[p.cid := p])
    ensures Stored(queues[aid := q], Add(blocks, aid, p), foot + {q, q.elements})
  {
    ApartAdd(queues, foot, aid, q);
    var all, after := queues[aid := q], Add(blocks, aid, p);
    assert after[aid] == map[p.cid := p] && p.cid in after[aid];
    assert all.Keys == after.Keys;
    forall a | a in queues ensures Holds(all[a], after[a]) && NonEmpty(after[a]) {
      assert a != aid && after[a] == blocks[a];
    }
  }

  /** A first block for a new queue. */
  method Open(aid: int, p: HeapElement, ghost queues: Queues, ghost blocks: Blocks, ghost foot: set<object>) returns (q: PriorityQueue)
    requires Stored(queues, blocks, foot) && aid !in queues
    ensures fresh(q) && fresh(q.elements)
    ensures Stored(queues[aid := q], Add(blocks, aid, p), foot + {q, q.elements})
  {
    q := new PriorityQueue(INITIAL_SIZE);
    q.Insert(p);
    ValuesAdd(map[], p);
    assert map[][p.cid := p] == map[p.cid := p];
    StoredAdd(queues, blocks, foot, aid, q, p);
  }

  method TakeFirst(q: PriorityQueue, ghost m: map<int, HeapElement>) returns (h: HeapElement)
    requires Holds(q, m) && NonEmpty(m)
    modifies q`size, q.elements
    ensures IsFirst(m, h) && Holds(q, m - {h.cid})
  {
    NotEmpty(m);
    var x := q.DeleteMin();
    h := x;
    FirstIs(m, x);
    ValuesDrop(m, x.cid);
  }

  /** The first block of a queue is taken out; the queue may be left empty. */
  method Withdraw(aid: int, ghost queues: Queues, ghost blocks: Blocks, ghost foot: set<object>, q: PriorityQueue) returns (h: HeapElement)
    requires Stored(queues, blocks, foot) && aid in queues && queues[aid] == q
    modifies foot
    ensures IsFirst(blocks[aid], h)
    ensures Holds(q, blocks[aid] - {h.cid}) && Apart(queues, foot)
    ensures forall a :: a in queues && a != aid ==> Holds(queues[a], blocks[a])
  {
    ghost var arrays := map a | a in queues :: queues[a].elements;
    h := TakeFirst(q, blocks[aid]);
    forall a | a in queues && a != aid ensures Holds(queues[a], blocks[a]) {
      assert queues[a] != q && arrays[a] != arrays[aid] && queues[a].elements == arrays[a];
    }
  }

  ghost predicate IsFirst(m: map<int, HeapElement>, h: HeapElement) {
    h.cid in m && m[h.cid] == h && forall c :: c in m ==> h.cid <= c
  }

  lemma NotEmpty(m: map<int, HeapElement>)
    requires NonEmpty(m)
    ensures Values(m) != multiset{}
  {
    var c :| c in m;
    assert m[c] in Values(m);
  }

  lemma FirstIs(m: map<int, HeapElement>, x: HeapElement)
    requires Named(m) && x in Values(m) && forall y :: y in Values(m) ==> y != null && x.cid <= y.cid
    ensures IsFirst(m, x)
  {
    forall c | c in m ensures x.cid <= c { assert m[c] in Values(m); }
  }

  // ---------- the tree of heaps ----------

  /** The tree leads to the queues. */
  ghost predicate Indexes(shape: Shape, queues: Queues) {
    Elems(shape).Keys == queues.Keys && forall a :: a in queues ==> Elems(shape)[a].queue == queues[a]
  }

  /** What a tree of heaps T stands for, and the objects it uses: tree nodes, and heaps with their arrays. */
  datatype Waiting = Waiting(shape: Shape, nodes: set<TreeNode>, queues: Queues, foot: set<object>, blocks: Blocks)

  ghost predicate Tree(T: TreeNode?, w: Waiting)
    reads w.nodes
  {
    w.nodes == Nodes(w.shape) && Is(T, w.shape) && Ordered(w.shape) && Indexes(w.shape, w.queues)
  }

  ghost predicate Valid(T: TreeNode?, w: Waiting)
    reads w.nodes, w.foot
  {
    Tree(T, w) && Stored(w.queues, w.blocks, w.foot) && w.nodes !! w.foot
  }

  /** A new queue goes into the tree. */
  method Grow(T: TreeNode?, ghost w: Waiting, aid: int, q: PriorityQueue)
    returns (r: TreeNode?, ghost shape: Shape, ghost nodes: set<TreeNode>)
    requires Tree(T, w) && aid !in w.queues
    modifies w.nodes
    ensures Tree(r, w.(shape := shape, nodes := nodes, queues := w.queues[aid := q]))
    ensures fresh(nodes - w.nodes)
  {
    var e := new TreeElement(aid, q);
    ghost var more;
    r, shape, more := TreeInsert(e, T, w.shape, w.nodes);
    assert Elems(shape) == Elems(w.shape)[aid := e];
    nodes := w.nodes + more;
  }

  method PutFirst(T: TreeNode?, ghost w: Waiting, aid: int, ghost h: HeapElement, q: PriorityQueue, ghost foot: set<object>)
    returns (r: TreeNode?, ghost u: Waiting)
    requires Tree(T, w) && aid !in w.queues && Stored(w.queues[aid := q], Add(w.blocks, aid, h), foot) && w.nodes !! foot
    modifies w.nodes
    ensures Valid(r, u) && fresh(u.nodes - w.nodes) && u.foot == foot && u.blocks == Add(w.blocks, aid, h)
  {
    ghost var shape: Shape, nodes: set<TreeNode>;
    ghost var queues, blocks := w.queues[aid := q], Add(w.blocks, aid, h);
    r, shape, nodes := Grow(T, w, aid, q);
    assert Stored(queues, blocks, foot);
    u := Waiting(shape, nodes, queues, foot, blocks);
  }

  method PutNew(T: TreeNode?, ghost w: Waiting, aid: int, h: HeapElement) returns (r: TreeNode?, ghost u: Waiting)
    requires Valid(T, w) && aid !in w.queues
    modifies w.nodes
    ensures Valid(r, u) && fresh(u.nodes - w.nodes) && fresh(u.foot - w.foot) && u.blocks == Add(w.blocks, aid, h)
  {
    var q := Open(aid, h, w.queues, w.blocks, w.foot);
    r, u := PutFirst(T, w, aid, h, q, w.foot + {q, q.elements});
  }

  method PutMore(T: TreeNode?, ghost w: Waiting, aid: int, h: HeapElement, q: PriorityQueue) returns (ghost u: Waiting)
    requires Valid(T, w) && aid in w.queues && q == w.queues[aid] && h.cid !in w.blocks[aid]
    modifies w.foot
    ensures Valid(T, u) && u.nodes == w.nodes && fresh(u.foot - w.foot) && u.blocks == Add(w.blocks, aid, h)
  {
    Deposit(aid, h, w.queues, w.blocks, w.foot, q);
    u := w.(foot := w.foot + {q.elements}, blocks := Add(w.blocks, aid, h));
  }

  /** A block that is not next is put aside. */
  method Put(T: TreeNode?, ghost w: Waiting, aid: int, cid: int, len: nat, content: seq<Byte>)
    returns (r: TreeNode?, ghost u: Waiting, ghost p: HeapElement)
    requires Valid(T, w) && cid !in At(w.blocks, aid)
    modifies w.nodes, w.foot
    ensures Valid(r, u) && fresh(u.nodes - w.nodes) && fresh(u.foot - w.foot)
    ensures p.cid == cid && p.len == len && p.content == content && u.blocks == Add(w.blocks, aid, p)
  {
    var h := new HeapElement(cid, len, content);
    p := h;
    var pos := TreeFind(aid, T, w.shape);
    if pos == null {
      r, u := PutNew(T, w, aid, h);
    } else {
      u := PutMore(T, w, aid, h, pos.element.queue);
      r := T;
    }
  }

  /** The least anchor with blocks put aside, and its first block. */
  method First(T: TreeNode?, ghost w: Waiting) returns (e: TreeElement?, h: HeapElement?)
    requires Valid(T, w)
    ensures e == null ==> h == null && forall a :: a !in w.blocks
    ensures e != null ==>
              && e.aid in w.blocks && (forall a :: a in w.blocks ==> e.aid <= a) && e == Elems(w.shape)[e.aid]
              && h != null && IsFirst(w.blocks[e.aid], h)
  {
    var pos := TreeFindMin(T, w.shape);
    if pos == null {
      assert forall a :: a !in Elems(w.shape);
      return null, null;
    }
    e := pos.element;
    h := FirstOf(e.queue, w.blocks[e.aid]);
  }

  method FirstOf(q: PriorityQueue, ghost m: map<int, HeapElement>) returns (h: HeapElement)
    requires Holds(q, m) && NonEmpty(m)
    ensures IsFirst(m, h)
  {
    NotEmpty(m);
    var x := q.FindMin();
    h := x;
    FirstIs(m, x);
  }

  lemma EmptyValues(m: map<int, HeapElement>)
    ensures Values(m) == multiset{} <==> !NonEmpty(m)
  {
    if NonEmpty(m) { NotEmpty(m); }
  }

  lemma StoredLess(queues: Queues, blocks: Blocks, foot: set<object>, aid: int, c: int)
    requires Apart(queues, foot) && queues.Keys == blocks.Keys && aid in queues && Holds(queues[aid], blocks[aid] - {c})
    requires forall a :: a in queues && a != aid ==> Holds(queues[a], blocks[a]) && NonEmpty(blocks[a])
    ensures NonEmpty(blocks[aid] - {c}) ==> Stored(queues, Drop(blocks, aid, c), foot)
    ensures !NonEmpty(blocks[aid] - {c}) ==> Stored(queues - {aid}, Drop(blocks, aid, c), foot)
  {
    var after := Drop(blocks, aid, c);
    forall a | a in queues && a != aid ensures a in after && after[a] == blocks[a] {}
  }

  /** The first block of the anchor of e is taken out, and with the last one its heap. */
  method Remove(T: TreeNode?, ghost w: Waiting, e: TreeElement) returns (r: TreeNode?, ghost u: Waiting, ghost h: HeapElement, empty: bool)
    requires Valid(T, w) && e.aid in w.blocks && e == Elems(w.shape)[e.aid]
    modifies w.nodes, w.foot
    ensures Valid(r, u) && u.nodes <= w.nodes && u.foot == w.foot
    ensures IsFirst(w.blocks[e.aid], h) && u.blocks == Drop(w.blocks, e.aid, h.cid) && (empty <==> e.aid !in u.blocks)
    ensures !empty ==> r == T && u.shape == w.shape
  {
    var aid := e.aid;
    var x := Withdraw(aid, w.queues, w.blocks, w.foot, e.queue);
    h := x;
    empty := e.queue.IsEmpty();
    EmptyValues(w.blocks[aid] - {h.cid});
    StoredLess(w.queues, w.blocks, w.foot, aid, h.cid);
    r, u := T, w.(blocks := Drop(w.blocks, aid, h.cid));
    if empty {
      ghost var shape: Shape;
      r, shape := TreeDelete(e, T, w.shape, w.nodes);
      u := Waiting(shape, Nodes(shape), w.queues - {aid}, w.foot, Drop(w.blocks, aid, h.cid));
    }
  }
}
