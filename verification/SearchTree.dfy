/** Binary search tree of queues by anchor id (tree.c). */
module SearchTree {
  import opened BinHeap

  class TreeElement {
    const aid: int
    const queue: PriorityQueue

    constructor (aid: int, queue: PriorityQueue)
      ensures this.aid == aid && this.queue == queue
    {
      this.aid, this.queue := aid, queue;
    }
  }

  class TreeNode {
    var element: TreeElement
    var left: TreeNode?
    var right: TreeNode?

    constructor (element: TreeElement)
      ensures this.element == element && left == null && right == null
    {
      this.element := element;
      left, right := null, null;
    }

    method SetLeft(child: TreeNode?, ghost l: Shape, ghost r: Shape)
      requires Is(child, l) && Is(right, r) && this !in Nodes(l) && this !in Nodes(r) && Nodes(l) !! Nodes(r)
      modifies this`left
      ensures Is(this, Node(this, l, element, r))
    {
      left := child;
    }

    method SetRight(child: TreeNode?, ghost l: Shape, ghost r: Shape)
      requires Is(left, l) && Is(child, r) && this !in Nodes(l) && this !in Nodes(r) && Nodes(l) !! Nodes(r)
      modifies this`right
      ensures Is(this, Node(this, l, element, r))
    {
      right := child;
    }
  }

  // ---------- what the pointers mean ----------

  /** A tree with its nodes. */
  datatype Shape = Leaf | Node(node: TreeNode, left: Shape, e: TreeElement, right: Shape)

  ghost function Nodes(s: Shape): set<TreeNode> {
    match s
    case Leaf => {}
    case Node(n, l, _, r) => Nodes(l) + {n} + Nodes(r)
  }

  /** The pointer t is to a tree of shape s. */
  ghost predicate Is(t: TreeNode?, s: Shape)
    reads Nodes(s)
  {
    match s
    case Leaf => t == null
    case Node(n, l, e, r) =>
      && t == n && n.element == e && Is(n.left, l) && Is(n.right, r)
      && n !in Nodes(l) && n !in Nodes(r) && Nodes(l) !! Nodes(r)
  }

  /** The queues, by anchor id. */
  ghost function Elems(s: Shape): map<int, TreeElement> {
    match s
    case Leaf => map[]
    case Node(_, l, e, r) => Elems(l) + Elems(r) + map[e.aid := e]
  }

  ghost predicate Ordered(s: Shape) {
    match s
    case Leaf => true
    case Node(_, l, e, r) =>
      && Ordered(l) && Ordered(r)
      && (forall a :: a in Elems(l) ==> a < e.aid) && (forall a :: a in Elems(r) ==> e.aid < a)
  }

  // ---------- operations ----------

  method TreeFind(value: int, t: TreeNode?, ghost s: Shape) returns (p: TreeNode?)
    requires Is(t, s) && Ordered(s)
    ensures p == null <==> value !in Elems(s)
    ensures p != null ==> p in Nodes(s) && p.element == Elems(s)[value] && p.element.aid == value
    decreases s
  {
    if t == null { return null; }
    if value < t.element.aid {
      p := TreeFind(value, t.left, s.left);
    } else if value > t.element.aid {
      p := TreeFind(value, t.right, s.right);
    } else {
      p := t;
    }
  }

  method TreeFindMin(t: TreeNode?, ghost s: Shape) returns (p: TreeNode?)
    requires Is(t, s) && Ordered(s)
    ensures p == null <==> Elems(s) == map[]
    ensures p != null ==> p in Nodes(s) && p.element.aid in Elems(s) && p.element == Elems(s)[p.element.aid]
    ensures p != null ==> forall a :: a in Elems(s) ==> p.element.aid <= a
    decreases s
  {
    if t == null { return null; }
    assert s.e.aid in Elems(s);
    if t.left == null {
      p := t;
    } else {
      p := TreeFindMin(t.left, s.left);
      assert s.left.Node?;
      assert s.left.e.aid in Elems(s.left);
    }
  }

  /** s with x in addition, unless its id is there already. */
  ghost predicate Inserted(s: Shape, x: TreeElement, q: Shape) {
    Elems(q) == if x.aid in Elems(s) then Elems(s) else Elems(s)[x.aid := x]
  }

  /** The lookup of an id in a tree. */
  lemma Look(s: Shape, a: int)
    requires s.Node? && Ordered(s)
    ensures a in Elems(s) <==> (a < s.e.aid && a in Elems(s.left)) || a == s.e.aid || (a > s.e.aid && a in Elems(s.right))
    ensures a in Elems(s) ==>
              Elems(s)[a] == if a < s.e.aid then Elems(s.left)[a] else if a == s.e.aid then s.e else Elems(s.right)[a]
  {
  }

  lemma InsertedLeft(t: TreeNode, s: Shape, c: Shape, x: TreeElement)
    requires s.Node? && Ordered(s) && Ordered(c) && x.aid < s.e.aid && Inserted(s.left, x, c)
    ensures Inserted(s, x, Node(t, c, s.e, s.right)) && Ordered(Node(t, c, s.e, s.right))
  {
    var q := Node(t, c, s.e, s.right);
    var m := if x.aid in Elems(s) then Elems(s) else Elems(s)[x.aid := x];
    Look(s, x.aid);
    forall a ensures (a in Elems(q) <==> a in m) && (a in m ==> Elems(q)[a] == m[a]) {
      Look(s, a);
      Look(q, a);
    }
    assert Elems(q) == m;
  }

  lemma InsertedRight(t: TreeNode, s: Shape, c: Shape, x: TreeElement)
    requires s.Node? && Ordered(s) && Ordered(c) && x.aid > s.e.aid && Inserted(s.right, x, c)
    ensures Inserted(s, x, Node(t, s.left, s.e, c)) && Ordered(Node(t, s.left, s.e, c))
  {
    var q := Node(t, s.left, s.e, c);
    var m := if x.aid in Elems(s) then Elems(s) else Elems(s)[x.aid := x];
    Look(s, x.aid);
    forall a ensures (a in Elems(q) <==> a in m) && (a in m ==> Elems(q)[a] == m[a]) {
      Look(s, a);
      Look(q, a);
    }
    assert Elems(q) == m;
  }

  method TreeInsert(x: TreeElement, t: TreeNode?, ghost s: Shape, ghost nodes: set<TreeNode>)
    returns (r: TreeNode?, ghost q: Shape, ghost more: set<TreeNode>)
    requires Is(t, s) && Ordered(s) && nodes == Nodes(s)
    modifies nodes
    ensures Is(r, q) && Ordered(q) && Nodes(q) == nodes + more && fresh(more)
    ensures Inserted(s, x, q)
    decreases s
  {
    if t == null {
      r := new TreeNode(x);
      q, more := Node(r, Leaf, x, Leaf), {r};
      return;
    }
    r, q, more := t, s, {};
    var child: TreeNode?;
    ghost var c: Shape;
    if x.aid < t.element.aid {
      child, c, more := TreeInsert(x, t.left, s.left, Nodes(s.left));
      t.SetLeft(child, c, s.right);
      q := Node(t, c, s.e, s.right);
      InsertedLeft(t, s, c, x);
    } else if x.aid > t.element.aid {
      child, c, more := TreeInsert(x, t.right, s.right, Nodes(s.right));
      t.SetRight(child, s.left, c);
      q := Node(t, s.left, s.e, c);
      InsertedRight(t, s, c, x);
    }
  }

  /** s without the id a. */
  ghost predicate Deleted(s: Shape, a: int, q: Shape) {
    Elems(q) == Elems(s) - {a}
  }

  lemma DeletedLeft(t: TreeNode, s: Shape, c: Shape, a: int)
    requires s.Node? && Ordered(s) && Ordered(c) && a < s.e.aid && Deleted(s.left, a, c)
    ensures Deleted(s, a, Node(t, c, s.e, s.right)) && Ordered(Node(t, c, s.e, s.right))
  {
    var q := Node(t, c, s.e, s.right);
    var m := Elems(s) - {a};
    forall b ensures (b in Elems(q) <==> b in m) && (b in m ==> Elems(q)[b] == m[b]) {
      Look(s, b);
      Look(q, b);
    }
    assert Elems(q) == m;
  }

  lemma DeletedRight(t: TreeNode, s: Shape, c: Shape, a: int)
    requires s.Node? && Ordered(s) && Ordered(c) && a > s.e.aid && Deleted(s.right, a, c)
    ensures Deleted(s, a, Node(t, s.left, s.e, c)) && Ordered(Node(t, s.left, s.e, c))
  {
    var q := Node(t, s.left, s.e, c);
    var m := Elems(s) - {a};
    forall b ensures (b in Elems(q) <==> b in m) && (b in m ==> Elems(q)[b] == m[b]) {
      Look(s, b);
      Look(q, b);
    }
    assert Elems(q) == m;
  }

  /** The least element of the right subtree takes the place of the deleted one. */
  lemma DeletedRoot(t: TreeNode, s: Shape, c: Shape, e: TreeElement)
    requires s.Node? && Ordered(s) && Ordered(c) && e.aid in Elems(s.right) && e == Elems(s.right)[e.aid]
    requires (forall a :: a in Elems(s.right) ==> e.aid <= a) && Deleted(s.right, e.aid, c)
    ensures Deleted(s, s.e.aid, Node(t, s.left, e, c)) && Ordered(Node(t, s.left, e, c))
  {
    var q := Node(t, s.left, e, c);
    var m := Elems(s) - {s.e.aid};
    forall b ensures (b in Elems(q) <==> b in m) && (b in m ==> Elems(q)[b] == m[b]) {
      Look(s, b);
      Look(q, b);
    }
    assert Elems(q) == m;
  }

  lemma DeletedSingle(s: Shape, c: Shape)
    requires s.Node? && Ordered(s) && ((c == s.left && s.right == Leaf) || (c == s.right && s.left == Leaf))
    ensures Deleted(s, s.e.aid, c) && Ordered(c)
  {
    var m := Elems(s) - {s.e.aid};
    forall b ensures (b in Elems(c) <==> b in m) && (b in m ==> Elems(c)[b] == m[b]) {
      Look(s, b);
    }
    assert Elems(c) == m;
  }

  method TreeDelete(x: TreeElement, t: TreeNode?, ghost s: Shape, ghost nodes: set<TreeNode>) returns (r: TreeNode?, ghost q: Shape)
    requires Is(t, s) && Ordered(s) && nodes == Nodes(s)
    modifies nodes
    ensures Is(r, q) && Ordered(q) && Nodes(q) <= nodes
    ensures Deleted(s, x.aid, q)
    decreases s, 1
  {
    r, q := t, s;
    if t == null { return; }
    var child: TreeNode?;
    ghost var c: Shape;
    if x.aid < t.element.aid {
      child, c := TreeDelete(x, t.left, s.left, Nodes(s.left));
      t.SetLeft(child, c, s.right);
      q := Node(t, c, s.e, s.right);
      DeletedLeft(t, s, c, x.aid);
    } else if x.aid > t.element.aid {
      child, c := TreeDelete(x, t.right, s.right, Nodes(s.right));
      t.SetRight(child, s.left, c);
      q := Node(t, s.left, s.e, c);
      DeletedRight(t, s, c, x.aid);
    } else if t.left != null && t.right != null {
      r, q := DeleteRoot(t, s, nodes);
    } else if t.left == null {
      r, q := t.right, s.right;
      DeletedSingle(s, q);
    } else {
      r, q := t.left, s.left;
      DeletedSingle(s, q);
    }
  }

  /** The element found has two children. */
  method DeleteRoot(t: TreeNode, ghost s: Shape, ghost nodes: set<TreeNode>) returns (r: TreeNode?, ghost q: Shape)
    requires Is(t, s) && Ordered(s) && nodes == Nodes(s) && s.Node? && t.right != null
    modifies nodes
    ensures Is(r, q) && Ordered(q) && Nodes(q) <= nodes
    ensures Deleted(s, s.e.aid, q)
    decreases s, 0
  {
    assert s.right.Node? && s.right.e.aid in Elems(s.right);
    var least := TreeFindMin(t.right, s.right);
    t.element := least.element;
    var child: TreeNode?;
    ghost var c: Shape;
    child, c := TreeDelete(t.element, t.right, s.right, Nodes(s.right));
    t.SetRight(child, s.left, c);
    r, q := t, Node(t, s.left, t.element, c);
    DeletedRoot(t, s, c, t.element);
  }
}
