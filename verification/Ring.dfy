/** Circular lists threaded through their entries (list.h).  A list's head is any pointer to an entry of it, or null;
    the token is another pointer into the active list. */
module Ring {
  import opened Counting

  datatype Status = Ready | CondWaiting | BarrierWaiting | Joining | Exited

  class Entry {
    const threadindex: int
    var status: Status
    var joinee: int
    var prev: Entry?
    var next: Entry?

    constructor (threadindex: int)
      ensures this.threadindex == threadindex && status == Ready
    {
      this.threadindex := threadindex;
      status, joinee := Ready, 0;
      prev, next := null, null;
    }
  }

  class Head {
    var first: Entry?

    constructor ()
      ensures first == null
    {
      first := null;
    }
  }

  // ---------- what the pointers mean ----------

  ghost function Succ(s: seq<Entry>, i: nat): Entry
    requires i < |s|
  {
    if i + 1 < |s| then s[i + 1] else s[0]
  }

  /** The entries of s, linked in this order both ways round. */
  ghost predicate Linked(s: seq<Entry>)
    reads s
  {
    && Distinct(s)
    && (forall i :: 0 <= i < |s| ==> s[i].next == Succ(s, i))
    && (forall i :: 0 <= i < |s| ==> Succ(s, i).prev == s[i])
  }

  /** The list with this head holds s, in this order. */
  ghost predicate Holds(h: Head, s: seq<Entry>)
    reads h, s
  {
    Linked(s) && if s == [] then h.first == null else h.first == s[0]
  }

  ghost predicate Disjoint(s: seq<Entry>, t: seq<Entry>) {
    forall i, j :: 0 <= i < |s| && 0 <= j < |t| ==> s[i] != t[j]
  }

  /** s without its element number k. */
  ghost function Without<T>(s: seq<T>, k: nat): seq<T>
    requires k < |s|
  {
    s[..k] + s[k + 1..]
  }

  /** s with t inserted behind its element number k. */
  ghost function Spliced<T>(s: seq<T>, k: nat, t: seq<T>): seq<T>
    requires k < |s|
  {
    s[..k + 1] + t + s[k + 1..]
  }

  /** A ring may be read from any of its entries. */
  lemma Rotated(s: seq<Entry>, k: nat)
    requires Linked(s) && k <= |s|
    ensures Linked(s[k..] + s[..k])
  {
    var r := s[k..] + s[..k];
    forall i | 0 <= i < |r|
      ensures r[i] == s[if i + k < |s| then i + k else i + k - |s|]
      ensures Succ(r, i) == Succ(s, if i + k < |s| then i + k else i + k - |s|)
    {
    }
    forall i, j | 0 <= i < j < |r| ensures r[i] != r[j] {
      assert r[i] == s[if i + k < |s| then i + k else i + k - |s|];
      assert r[j] == s[if j + k < |s| then j + k else j + k - |s|];
    }
  }

  /** A ring stays linked while none of its entries changes. */
  twostate lemma Untouched(s: seq<Entry>)
    requires old(Linked(s)) && forall i :: 0 <= i < |s| ==> s[i].next == old(s[i].next) && s[i].prev == old(s[i].prev)
    ensures Linked(s)
  {
    forall i | 0 <= i < |s| ensures Succ(s, i).prev == s[i] {
      assert old(Succ(s, i).prev) == s[i];
      assert Succ(s, i) == s[if i + 1 < |s| then i + 1 else 0];
    }
  }

  /** s with t behind its first element, spelt out. */
  lemma Behind<T>(s: seq<T>, t: seq<T>)
    requires s != []
    ensures Spliced(s, 0, t) == [s[0]] + t + s[1..]
    ensures Spliced(s, 0, t)[1..] == t + s[1..] && Spliced(s, 0, t)[0] == s[0]
    ensures t == [] ==> Spliced(s, 0, t) == s
    ensures |t| == 1 ==> Spliced(s, 0, t) == [s[0], t[0]] + s[1..]
  {
    assert s == [s[0]] + s[1..];
    assert s[..1] == [s[0]];
  }

  lemma StillIn<T>(s: seq<T>, t: seq<T>, x: T)
    requires x in s
    ensures x in Spliced(s, 0, t)
  {
    var i :| 0 <= i < |s| && s[i] == x;
    assert Spliced(s, 0, t)[if i == 0 then 0 else i + |t|] == x;
  }

  // ---------- operations ----------

  method InsertTail(e: Entry, h: Head, ghost s: seq<Entry>)
    requires Holds(h, s) && e !in s
    modifies h, e`prev, e`next, s`prev, s`next
    ensures Holds(h, s + [e])
  {
    if h.first == null {
      h.first := e;
      e.prev, e.next := e, e;
    } else {
      var header := h.first;
      var tail := header.prev;
      assert Succ(s, |s| - 1) == header;
      tail.next := e;
      header.prev := e;
      e.prev := tail;
      e.next := header;
    }
  }

  /** Behind the entry that the pointer h points to, which stays where it is. */
  method InsertHead(e: Entry, h: Head, ghost s: seq<Entry>)
    requires s != [] && Holds(h, s) && e !in s
    modifies e`prev, e`next, s`prev, s`next
    ensures Holds(h, Spliced(s, 0, [e]))
  {
    var header := h.first;
    var next := header.next;
    header.next := e;
    next.prev := e;
    e.prev := header;
    e.next := next;
  }

  method RemoveEntry(e: Entry, h: Head, ghost s: seq<Entry>, ghost k: nat)
    requires Linked(s) && k < |s| && s[k] == e && h.first in s
    modifies h, s`prev, s`next
    ensures Linked(Without(s, k)) && e.next == old(e.next)
    ensures |s| == 1 ==> h.first == null
    ensures |s| > 1 ==> h.first == if old(h.first) == e then Succ(s, k) else old(h.first)
  {
    Rotated(s, k);
    InFrom(s, k, h.first);
    ghost var t := From(s, k);
    Unlink(e, h, t);
    WithoutFrom(s, k);
    Unrotated(Without(s, k), k);
  }

  /** The ring s read from its element number k. */
  ghost function From(s: seq<Entry>, k: nat): (t: seq<Entry>)
    requires k < |s|
    ensures |t| == |s| && t[0] == s[k] && (|s| > 1 ==> t[1] == Succ(s, k))
  {
    s[k..] + s[..k]
  }

  lemma InFrom(s: seq<Entry>, k: nat, x: Entry)
    requires k < |s| && x in s
    ensures x in From(s, k)
  {
    var i :| 0 <= i < |s| && s[i] == x;
    assert From(s, k)[if i < k then i + |s| - k else i - k] == x;
  }

  lemma WithoutFrom(s: seq<Entry>, k: nat)
    requires k < |s|
    ensures Without(s, k)[k..] + Without(s, k)[..k] == From(s, k)[1..]
  {
    assert Without(s, k)[..k] == s[..k] && Without(s, k)[k..] == s[k + 1..];
    assert s[k..][1..] == s[k + 1..];
  }

  lemma SplicedFrom(s: seq<Entry>, k: nat, t: seq<Entry>)
    requires k < |s|
    ensures Spliced(s, k, t)[k..] + Spliced(s, k, t)[..k] == Spliced(From(s, k), 0, t)
  {
    assert Spliced(s, k, t)[..k] == s[..k] && Spliced(s, k, t)[k..] == [s[k]] + t + s[k + 1..];
    assert From(s, k)[..1] == [s[k]] && From(s, k)[1..] == s[k + 1..] + s[..k];
  }

  lemma Unrotated(s: seq<Entry>, k: nat)
    requires k <= |s| && Linked(s[k..] + s[..k])
    ensures Linked(s)
  {
    var r, m := s[k..] + s[..k], |s| - k;
    assert r[m..] == s[..k] && r[..m] == s[k..] && s == s[..k] + s[k..];
    if k > 0 { Rotated(r, m); } else { assert r == s; }
  }

  /** The removal, seen from the entry. */
  method Unlink(e: Entry, h: Head, ghost t: seq<Entry>)
    requires t != [] && Linked(t) && t[0] == e && h.first in t
    modifies h, t`prev, t`next
    ensures Linked(t[1..]) && e.next == old(e.next)
    ensures |t| == 1 ==> h.first == null
    ensures |t| > 1 ==> h.first == if old(h.first) == e then t[1] else old(h.first)
  {
    var prev, next := e.prev, e.next;
    assert Succ(t, |t| - 1) == e && next == Succ(t, 0);
    if prev == e && next == e {
      h.first := null;
    } else {
      prev.next := next;
      next.prev := prev;
      if h.first == e { h.first := next; }
    }
  }

  method RemoveHeadEntry(h: Head, ghost s: seq<Entry>) returns (e: Entry?)
    requires Holds(h, s)
    modifies h, s`prev, s`next
    ensures s == [] ==> e == null && h.first == null
    ensures s != [] ==> e == s[0] && Holds(h, s[1..])
  {
    if h.first == null { return null; }
    e := h.first;
    RemoveEntry(e, h, s, 0);
    assert Without(s, 0) == s[1..];
  }

  /** The whole list src goes behind prev, an entry of the list s. */
  method MoveWholeList(prev: Entry, src: Head, ghost s: seq<Entry>, ghost k: nat, ghost t: seq<Entry>)
    requires Linked(s) && k < |s| && s[k] == prev && Holds(src, t) && Disjoint(s, t)
    modifies src, s`prev, s`next, t`prev, t`next
    ensures Linked(Spliced(s, k, t)) && src.first == null
  {
    Rotated(s, k);
    forall i, j | 0 <= i < |s| && 0 <= j < |t| ensures From(s, k)[i] != t[j] {
      assert From(s, k)[i] == s[if i + k < |s| then i + k else i + k - |s|];
    }
    MoveBehind(prev, src, From(s, k), t);
    SplicedFrom(s, k, t);
    Unrotated(Spliced(s, k, t), k);
  }

  lemma SplicedDistinct(r: seq<Entry>, t: seq<Entry>)
    requires r != [] && Distinct(r) && Distinct(t) && Disjoint(r, t)
    ensures Distinct(Spliced(r, 0, t))
  {
    var q := Spliced(r, 0, t);
    forall i, j | 0 <= i < j < |q| ensures q[i] != q[j] {
      assert q[i] == if i == 0 then r[0] else if i <= |t| then t[i - 1] else r[i - |t|];
      assert q[j] == if j <= |t| then t[j - 1] else r[j - |t|];
    }
  }

  method MoveBehind(prev: Entry, src: Head, ghost r: seq<Entry>, ghost t: seq<Entry>)
    requires r != [] && Linked(r) && r[0] == prev && Holds(src, t)
    requires Disjoint(r, t)
    modifies src, r`prev, r`next, t`prev, t`next
    ensures Linked(Spliced(r, 0, t)) && src.first == null
  {
    if src.first == null {
      assert Spliced(r, 0, t) == r;
      return;
    }
    var next := prev.next;
    var head := src.first;
    var tail := head.prev;
    assert Succ(t, |t| - 1) == head;
    assert Succ(r, 0) == next;
    SplicedDistinct(r, t);
    next.prev := tail;
    head.prev := prev;
    tail.next := next;
    prev.next := head;
    src.first := null;
    ghost var q := Spliced(r, 0, t);
    forall i | 0 <= i < |q| ensures q[i].next == Succ(q, i) && Succ(q, i).prev == q[i] {
      if i == 0 {
        assert Succ(q, i) == head;
      } else if i < |t| {
        assert q[i] == t[i - 1] && Succ(q, i) == Succ(t, i - 1);
      } else if i == |t| {
        assert q[i] == tail && Succ(q, i) == next;
      } else {
        assert q[i] == r[i - |t|] && Succ(q, i) == Succ(r, i - |t|);
      }
    }
  }
}
