/** The token ring, condition and barrier queues on their linked lists (determ.h).  Only the token holder calls
    these operations, under the global lock. */
module Determ {
  import opened Counting
  import opened Ring
  import Q = Conserve
  import F = Fence

  class CondEntry {
    const head: Head
    var waiters: nat
    ghost var list: seq<Entry>

    ghost predicate Valid()
      reads this, head, list
    {
      Holds(head, list) && waiters == |list|
    }

    constructor ()
      ensures Valid() && list == [] && fresh(head)
    {
      head := new Head();
      waiters, list := 0, [];
    }

    /** The first waiter leaves. */
    method Take() returns (e: Entry)
      requires Valid() && waiters > 0
      modifies this, head, list`prev, list`next
      ensures Valid() && e == old(list)[0] && list == old(list)[1..] && e !in list
    {
      e := RemoveHeadEntry(head, list);
      list := list[1..];
      waiters := waiters - 1;
    }

    method Clear()
      requires Holds(head, [])
      modifies this
      ensures Valid() && list == []
    {
      waiters, list := 0, [];
    }
  }

  class BarrierEntry {
    const head: Head
    const maxthreads: nat
    var threads: nat
    ghost var list: seq<Entry>

    ghost predicate Valid()
      reads this, head, list
    {
      Holds(head, list) && threads == |list| < maxthreads
    }

    constructor (count: nat)
      requires count > 0
      ensures Valid() && list == [] && fresh(head) && maxthreads == count
    {
      head := new Head();
      maxthreads, threads, list := count, 0, [];
    }

    method Clear()
      requires Holds(head, []) && maxthreads > 0
      modifies this
      ensures Valid() && list == []
    {
      threads, list := 0, [];
    }
  }

  class Determ {
    const activelist: Head
    const tokenpos: Head
    var maxthreads: int
    var currthreads: int
    var arrival: bool
    var alive: int
    /** The active list, read from the token on. */
    ghost var ring: seq<Entry>

    ghost predicate Valid()
      reads this, activelist, tokenpos, ring
    {
      && activelist != tokenpos && Linked(ring)
      && (ring == [] ==> activelist.first == null)
      && (ring != [] ==> activelist.first in ring && tokenpos.first == ring[0])
    }

    /** registerMaster */
    constructor (master: Entry)
      modifies master
      ensures Valid() && ring == [master] && fresh(activelist) && fresh(tokenpos)
      ensures maxthreads == alive == 1 && currthreads == 0 && arrival
    {
      activelist := new Head();
      tokenpos := new Head();
      maxthreads, currthreads, arrival, alive := 1, 0, true, 1;
      ring := [master];
      new;
      InsertTail(master, activelist, []);
      assert [] + [master] == [master];
      tokenpos.first := master;
    }

    /** The entries of another list, and its head, are not the active list's. */
    ghost predicate Apart(head: Head, list: seq<Entry>)
      reads this
    {
      head != activelist && head != tokenpos && Disjoint(ring, list)
    }

    /** With one thread less the arrival phase ends if all others are inside: in terms of the fence f that the counters
        belong to, and whose member t stays outside. */
    method DecrFence()
      modifies this`maxthreads, this`arrival
      ensures maxthreads == old(maxthreads) - 1
      ensures arrival == (old(arrival) && !(currthreads >= maxthreads && maxthreads != 0))
      ensures forall f: F.Fence, t: int :: F.Inv(f) && t in f.counted && F.At(f, t) == F.Out
                  && f.max == old(maxthreads) && f.curr == currthreads && f.arrival == old(arrival)
                  ==> maxthreads == F.DecrFence(f, t).max && arrival == F.DecrFence(f, t).arrival
    {
      maxthreads := maxthreads - 1;
      if currthreads >= maxthreads {
        if arrival && maxthreads != 0 { arrival := false; }
      }
    }

    method IncrFence(num: int)
      modifies this`maxthreads
      ensures maxthreads == old(maxthreads) + num
    {
      maxthreads := maxthreads + num;
    }

    method PutToken()
      requires Valid() && ring != []
      modifies tokenpos, this`ring
      ensures Valid() && ring == old(ring)[1..] + [old(ring)[0]]
    {
      ghost var s := ring;
      Rotated(s, 1);
      tokenpos.first := tokenpos.first.next;
      ring := s[1..] + s[..1];
      assert forall x :: x in s ==> x == s[0] || x in s[1..];
    }

    /** The holder e leaves the active list, and next is the thread after it. */
    method Leave(e: Entry) returns (next: Entry)
      requires Valid() && ring != [] && tokenpos.first == e
      modifies activelist, tokenpos, this`ring, ring`prev, ring`next
      ensures ring == old(ring)[1..] && Valid() && tokenpos.first == next
    {
      next := e.next;
      ghost var s := ring;
      RemoveEntry(e, activelist, s, 0);
      assert Without(s, 0) == s[1..];
      tokenpos.first := next;
      ring := s[1..];
    }

    method Mark(e: Entry, status: Status, ghost list: seq<Entry>)
      requires Valid() && Linked(list)
      modifies e`status
      ensures Valid() && Linked(list) && e.status == status
    {
      e.status := status;
      Untouched(ring);
      Untouched(list);
    }

    static lemma Elsewhere(s: seq<Entry>, list: seq<Entry>)
      requires s != [] && Distinct(s) && Disjoint(s, list)
      ensures s[0] in s && (forall i :: 0 <= i < |list| ==> list[i] !in s)
      ensures forall i :: 0 <= i < |s[1..]| ==> s[1..][i] !in list && s[1..][i] != s[0] && s[1..][i] in s
    {
      forall i | 0 <= i < |list| ensures list[i] !in s { assert list[i] in list; }
      forall i | 0 <= i < |s[1..]| ensures s[1..][i] !in list && s[1..][i] != s[0] && s[1..][i] in s { assert s[1..][i] == s[i + 1]; }
    }

    /** The entry e, which is in no list, goes to the end of a list besides the active one. */
    method Enqueue(e: Entry, head: Head, ghost list: seq<Entry>)
      requires Valid() && Holds(head, list) && Apart(head, list) && e !in ring && e !in list
      modifies e`prev, e`next, head, list`prev, list`next
      ensures Valid() && Holds(head, list + [e]) && ring == old(ring)
    {
      InsertTail(e, head, list);
      Untouched(ring);
    }

    /** The holder e goes from the active list to the end of the list q. */
    method MoveTo(e: Entry, head: Head, ghost list: seq<Entry>)
      requires Valid() && Holds(head, list) && Apart(head, list) && ring != [] && tokenpos.first == e
      modifies activelist, tokenpos, this`ring, ring`prev, ring`next, head, list`prev, list`next
      ensures Valid() && Holds(head, list + [e]) && ring == old(ring)[1..]
    {
      Elsewhere(ring, list);
      var next := Leave(e);
      Untouched(list);
      Enqueue(e, head, list);
    }

    /** cond_wait up to the wait itself. */
    method CondWait(e: Entry, c: CondEntry)
      requires Valid() && c.Valid() && Apart(c.head, c.list) && ring != [] && tokenpos.first == e
      modifies this`ring, this`maxthreads, this`arrival, activelist, tokenpos, ring, c, c.head, c.list
      ensures Valid() && c.Valid()
      ensures ring == old(ring)[1..] && c.list == old(c.list) + [e] && e.status == CondWaiting
      ensures maxthreads == old(maxthreads) - 1 && arrival == (old(arrival) && !(currthreads >= maxthreads && maxthreads != 0))
      ensures forall f: F.Fence, t: int :: F.Inv(f) && t in f.counted && F.At(f, t) == F.Out
                  && f.max == old(maxthreads) && f.curr == currthreads && f.arrival == old(arrival)
                  ==> maxthreads == F.DecrFence(f, t).max && arrival == F.DecrFence(f, t).arrival
    {
      MoveTo(e, c.head, c.list);
      c.list := c.list + [e];
      c.waiters := c.waiters + 1;
      Mark(e, CondWaiting, c.list);
      DecrFence();
    }

    /** The entry e goes behind the token. */
    method PutBehindToken(e: Entry)
      requires Valid() && ring != [] && e !in ring
      modifies this`ring, ring`prev, ring`next, e`prev, e`next
      ensures Valid() && ring == Spliced(old(ring), 0, [e])
    {
      ghost var s := ring;
      InsertHead(e, tokenpos, s);
      ring := Spliced(s, 0, [e]);
      StillIn(s, [e], activelist.first);
    }

    method Rejoin(e: Entry)
      requires Valid() && ring != [] && e !in ring
      modifies this`ring, ring, e
      ensures Valid() && ring == Spliced(old(ring), 0, [e])
      ensures e.status == Ready
    {
      e.status := Ready;
      Untouched(ring);
      PutBehindToken(e);
    }

    method CondSignal(c: CondEntry)
      requires Valid() && c.Valid() && Apart(c.head, c.list) && ring != []
      modifies this`ring, this`maxthreads, ring, c, c.head, c.list
      ensures Valid() && c.Valid()
      ensures old(c.list) == [] ==> ring == old(ring) && c.list == [] && maxthreads == old(maxthreads)
      ensures old(c.list) != [] ==>
                && ring == Spliced(old(ring), 0, [old(c.list)[0]]) && c.list == old(c.list)[1..]
                && maxthreads == old(maxthreads) + 1 && old(c.list)[0].status == Ready
    {
      if c.waiters == 0 { return; }
      WakeOne(c);
      IncrFence(1);
    }

    method WakeOne(c: CondEntry)
      requires Valid() && c.Valid() && Apart(c.head, c.list) && ring != [] && c.waiters > 0
      modifies this`ring, ring, c, c.head, c.list
      ensures Valid() && c.Valid()
      ensures ring == Spliced(old(ring), 0, [old(c.list)[0]]) && c.list == old(c.list)[1..]
      ensures old(c.list)[0].status == Ready
    {
      ghost var s, list := ring, c.list;
      var e := c.Take();
      Untouched(s);
      label Taken:
      Rejoin(e);
      Untouched@Taken(c.list);
    }

    static ghost predicate AllReady(list: seq<Entry>)
      reads list
    {
      forall i :: 0 <= i < |list| ==> list[i].status == Ready
    }

    /** Everybody on the list becomes ready. */
    method MarkReady(head: Head, ghost list: seq<Entry>, waiters: nat)
      requires Holds(head, list) && waiters == |list| > 0
      modifies list`status
      ensures Linked(list) && AllReady(list)
    {
      var entry, n := head.first, 0;
      while n < waiters
        modifies list`status
        invariant 0 <= n <= waiters && entry == list[if n < waiters then n else 0]
        invariant forall i :: 0 <= i < n ==> list[i].status == Ready
      {
        entry.status := Ready;
        assert Succ(list, n) == list[if n + 1 < waiters then n + 1 else 0];
        entry := entry.next;
        n := n + 1;
      }
      Untouched(list);
    }

    /** The whole list goes behind the token. */
    method JoinAll(head: Head, ghost list: seq<Entry>)
      requires Valid() && Holds(head, list) && Apart(head, list) && ring != []
      modifies this`ring, ring`prev, ring`next, head, list`prev, list`next
      ensures Valid() && Holds(head, []) && ring == Spliced(old(ring), 0, list)
    {
      ghost var s := ring;
      MoveWholeList(tokenpos.first, head, s, 0, list);
      ring := Spliced(s, 0, list);
      StillIn(s, list, activelist.first);
    }

    method CondBroadcast(c: CondEntry)
      requires Valid() && c.Valid() && Apart(c.head, c.list) && ring != []
      modifies this`ring, this`maxthreads, ring, c, c.head, c.list
      ensures Valid() && c.Valid()
      ensures ring == Spliced(old(ring), 0, old(c.list)) && c.list == []
      ensures maxthreads == old(maxthreads) + |old(c.list)|
      ensures AllReady(old(c.list))
    {
      if c.waiters == 0 {
        Behind(ring, c.list);
        return;
      }
      BroadcastAll(c, c.list);
    }

    method BroadcastAll(c: CondEntry, ghost list: seq<Entry>)
      requires Valid() && c.Valid() && list == c.list && Apart(c.head, list) && ring != [] && c.waiters > 0
      modifies this`ring, this`maxthreads, ring, c, c.head, list
      ensures Valid() && c.Valid() && c.list == [] && AllReady(list)
      ensures ring == Spliced(old(ring), 0, list) && maxthreads == old(maxthreads) + |list|
    {
      WakeAll(c.head, list, c.waiters);
      CountAll(c);
    }

    method CountAll(c: CondEntry)
      requires Valid() && Holds(c.head, [])
      modifies this`maxthreads, c
      ensures Valid() && c.Valid() && c.list == [] && maxthreads == old(maxthreads) + old(c.waiters)
    {
      IncrFence(c.waiters);
      c.Clear();
    }

    method WakeAll(head: Head, ghost list: seq<Entry>, waiters: nat)
      requires Valid() && Holds(head, list) && waiters == |list| > 0 && Apart(head, list) && ring != []
      modifies this`ring, ring, head, list
      ensures Valid() && Holds(head, []) && ring == Spliced(old(ring), 0, list)
      ensures AllReady(list)
    {
      MarkReady(head, list, waiters);
      Untouched(ring);
      JoinAll(head, list);
    }

    /** The last thread at a barrier puts all others behind itself, and passes the token to the first of them. */
    method BarrierLast(e: Entry, b: BarrierEntry)
      requires Valid() && b.Valid() && Apart(b.head, b.list) && ring != [] && tokenpos.first == e
      requires b.threads + 1 == b.maxthreads
      modifies this`ring, this`maxthreads, tokenpos, ring, b, b.head, b.list
      ensures Valid() && b.Valid()
      ensures ring == old(b.list) + old(ring)[1..] + [e] && b.list == [] && maxthreads == old(maxthreads) + |old(b.list)|
    {
      GatherAll(b.head, b.list);
      IncrFence(b.maxthreads - 1);
      b.Clear();
    }

    method GatherAll(head: Head, ghost list: seq<Entry>)
      requires Valid() && Holds(head, list) && Apart(head, list) && ring != []
      modifies this`ring, ring, tokenpos, head, list
      ensures Valid() && Holds(head, []) && ring == list + old(ring)[1..] + [old(ring)[0]]
    {
      Behind(ring, list);
      JoinAll(head, list);
      PutToken();
    }

    method BarrierWait(e: Entry, b: BarrierEntry) returns (last: bool)
      requires Valid() && b.Valid() && Apart(b.head, b.list) && ring != [] && tokenpos.first == e
      modifies this`ring, this`maxthreads, this`arrival, activelist, tokenpos, ring, b, b.head, b.list
      ensures Valid() && b.Valid() && (last <==> old(b.threads) + 1 == b.maxthreads)
      ensures last ==> ring == old(b.list) + old(ring)[1..] + [e] && b.list == []
                       && maxthreads == old(maxthreads) + |old(b.list)| && arrival == old(arrival)
      ensures !last ==> ring == old(ring)[1..] && b.list == old(b.list) + [e] && maxthreads == old(maxthreads) - 1
                        && e.status == BarrierWaiting && arrival == (old(arrival) && !(currthreads >= maxthreads && maxthreads != 0))
      ensures forall f: F.Fence, t: int :: !last && F.Inv(f) && t in f.counted && F.At(f, t) == F.Out
                  && f.max == old(maxthreads) && f.curr == currthreads && f.arrival == old(arrival)
                  ==> maxthreads == F.DecrFence(f, t).max && arrival == F.DecrFence(f, t).arrival
    {
      last := b.threads + 1 == b.maxthreads;
      if last {
        BarrierLast(e, b);
      } else {
        BarrierEnter(e, b);
      }
    }

    /** Any other thread leaves the ring for the barrier's list. */
    method BarrierEnter(e: Entry, b: BarrierEntry)
      requires Valid() && b.Valid() && Apart(b.head, b.list) && ring != [] && tokenpos.first == e
      requires b.threads + 1 != b.maxthreads
      modifies this`ring, this`maxthreads, this`arrival, activelist, tokenpos, ring, b, b.head, b.list
      ensures Valid() && b.Valid()
      ensures ring == old(ring)[1..] && b.list == old(b.list) + [e] && maxthreads == old(maxthreads) - 1
      ensures e.status == BarrierWaiting && arrival == (old(arrival) && !(currthreads >= maxthreads && maxthreads != 0))
      ensures forall f: F.Fence, t: int :: F.Inv(f) && t in f.counted && F.At(f, t) == F.Out
                  && f.max == old(maxthreads) && f.curr == currthreads && f.arrival == old(arrival)
                  ==> maxthreads == F.DecrFence(f, t).max && arrival == F.DecrFence(f, t).arrival
    {
      MoveTo(e, b.head, b.list);
      b.list := b.list + [e];
      b.threads := b.threads + 1;
      Mark(e, BarrierWaiting, b.list);
      DecrFence();
    }

    /** registerThread, by the master while the token is still at the head of the list. */
    method RegisterThread(e: Entry)
      requires Valid() && ring != [] && activelist.first == tokenpos.first && e !in ring
      modifies activelist, e, ring, this`ring
      ensures Valid() && ring == old(ring) + [e] && activelist.first == tokenpos.first && e.status == Ready
    {
      e.status := Ready;
      Untouched(ring);
      InsertTail(e, activelist, ring);
      ring := ring + [e];
    }

    /** join up to the wait: the holder me leaves the ring unless the other thread has exited already. */
    method Join(me: Entry, joinee: Entry) returns (waits: bool)
      requires Valid() && ring != [] && tokenpos.first == me
      modifies this`ring, this`maxthreads, this`arrival, activelist, tokenpos, ring
      ensures Valid() && (waits <==> old(joinee.status) != Exited)
      ensures waits ==> ring == old(ring)[1..] && maxthreads == old(maxthreads) - 1
                        && me.status == Joining && me.joinee == joinee.threadindex && arrival == (old(arrival) && !(currthreads >= maxthreads && maxthreads != 0))
      ensures forall f: F.Fence, t: int :: waits && F.Inv(f) && t in f.counted && F.At(f, t) == F.Out
                  && f.max == old(maxthreads) && f.curr == currthreads && f.arrival == old(arrival)
                  ==> maxthreads == F.DecrFence(f, t).max && arrival == F.DecrFence(f, t).arrival
      ensures !waits ==> ring == old(ring) && maxthreads == old(maxthreads) && arrival == old(arrival)
    {
      waits := joinee.status != Exited;
      if waits {
        var next := Leave(me);
        Mark(me, Joining, []);
        MarkJoinee(me, joinee.threadindex);
        DecrFence();
      }
    }

    method MarkJoinee(me: Entry, index: int)
      requires Valid()
      modifies me`joinee
      ensures Valid() && me.joinee == index
    {
      me.joinee := index;
      Untouched(ring);
    }

    /** What these counters become in a fence that a thread quits. */
    static lemma FenceLost(max: int, curr: int, arrival: bool)
      ensures forall f: F.Fence, t: int :: F.Inv(f) && t in f.counted && F.At(f, t) == F.Out && f.max == max && f.curr == curr && f.arrival == arrival
                  ==> F.DecrFence(f, t).max == max - 1 && F.DecrFence(f, t).arrival == (arrival && !(curr >= max - 1 && max - 1 != 0))
    {
    }

    /** deregisterThread: a parent that waits for the holder e comes back, and gets the token next. */
    method Deregister(e: Entry, parent: Entry)
      requires Valid() && ring != [] && tokenpos.first == e && alive > 0
      requires parent.status == Joining && parent.joinee == e.threadindex ==> parent !in ring
      requires !(parent.status == Joining && parent.joinee == e.threadindex) ==> |ring| > 1
      modifies this`ring, this`maxthreads, this`arrival, this`alive, activelist, tokenpos, ring, parent
      ensures Valid() && e.status == Exited && alive == old(alive) - 1 && maxthreads == old(maxthreads) - 1
      ensures arrival == (old(arrival) && !(currthreads >= maxthreads && maxthreads != 0))
      ensures forall f: F.Fence, t: int :: F.Inv(f) && t in f.counted && F.At(f, t) == F.Out
                  && f.max == old(maxthreads) && f.curr == currthreads && f.arrival == old(arrival)
                  ==> maxthreads == F.DecrFence(f, t).max && arrival == F.DecrFence(f, t).arrival
      ensures ring == (if old(parent.status == Joining && parent.joinee == e.threadindex) then [parent] else []) + old(ring)[1..]
    {
      FenceLost(maxthreads, currthreads, arrival);
      ComeBack(e, parent);
      Quit(e);
    }

    /** A parent that waits for e goes behind it. */
    method ComeBack(e: Entry, parent: Entry)
      requires Valid() && ring != [] && ring[0] == e
      requires parent.status == Joining && parent.joinee == e.threadindex ==> parent !in ring
      modifies this`ring, ring`prev, ring`next, parent`prev, parent`next
      ensures Valid() && ring != [] && ring[0] == e
      ensures ring[1..] == (if old(parent.status == Joining && parent.joinee == e.threadindex) then [parent] else []) + old(ring)[1..]
    {
      if parent.status == Joining && parent.joinee == e.threadindex {
        Behind(ring, [parent]);
        PutBehindToken(parent);
      } else {
        assert [] + ring[1..] == ring[1..];
      }
    }

    /** The holder e leaves for good, and somebody else is there to get the token. */
    method Quit(e: Entry)
      requires Valid() && |ring| > 1 && tokenpos.first == e && alive > 0
      modifies this`ring, this`maxthreads, this`arrival, this`alive, activelist, tokenpos, ring
      ensures Valid() && ring == old(ring)[1..] && tokenpos.first == ring[0] && e.status == Exited
      ensures alive == old(alive) - 1 && maxthreads == old(maxthreads) - 1
      ensures arrival == (old(arrival) && !(currthreads >= maxthreads && maxthreads != 0))
    {
      alive := alive - 1;
      DecrFence();
      var next := Leave(e);
      Mark(e, Exited, []);
    }

    /** A parent that has come back wakes up. */
    method Awaken(me: Entry)
      requires Valid()
      modifies this`maxthreads, me`status
      ensures Valid() && maxthreads == old(maxthreads) + 1 && me.status == Ready
    {
      IncrFence(1);
      Mark(me, Ready, []);
    }
  }

  // ---------- the same on sequences of threads ----------

  ghost function Ids(s: seq<Entry>): (r: seq<int>)
    ensures |r| == |s|
    ensures forall i :: 0 <= i < |s| ==> r[i] == s[i].threadindex
  {
    seq(|s|, i requires 0 <= i < |s| => s[i].threadindex)
  }

  lemma IdsOf(s: seq<Entry>, t: seq<Entry>)
    ensures Ids(s + t) == Ids(s) + Ids(t)
    ensures s != [] ==> Ids(s)[1..] == Ids(s[1..]) && Ids(s)[0] == s[0].threadindex && Ids([s[0]]) == [Ids(s)[0]]
  {
  }

  lemma IdsSpliced(ring: seq<Entry>, list: seq<Entry>)
    requires ring != []
    ensures Ids(Spliced(ring, 0, list)) == Spliced(Ids(ring), 0, Ids(list))
  {
    Behind(ring, list);
    Behind(Ids(ring), Ids(list));
    IdsOf(ring, []);
    IdsOf([ring[0]] + list, ring[1..]);
    IdsOf([ring[0]], list);
  }

  /** q shows the active list, and the list of one condition or barrier. */
  ghost predicate Shows(q: Q.State, ring: seq<Entry>, queue: Q.Queue, list: seq<Entry>) {
    ring != [] && q.ring == Ids(ring) && queue.list == Ids(list) && queue.count == |list|
  }

  /** What CondWait, CondSignal and CondBroadcast promise of their lists is the step of Conserve. */
  lemma CondSteps(q: Q.State, c: int, ring: seq<Entry>, list: seq<Entry>)
    requires c in q.conds && Shows(q, ring, q.conds[c], list) && ring[0].threadindex !in q.back
    ensures var r := Q.Step(q, Q.CondWait(c));
            r.ring == Ids(ring[1..]) && r.conds[c].list == Ids(list + [ring[0]]) && r.maxthreads == q.maxthreads - 1
    ensures var r := Q.Step(q, Q.Signal(c));
            if list == [] then r == q
            else r.ring == Ids(Spliced(ring, 0, [list[0]])) && r.conds[c].list == Ids(list[1..]) && r.maxthreads == q.maxthreads + 1
    ensures var r := Q.Step(q, Q.Broadcast(c));
            r.ring == Ids(Spliced(ring, 0, list)) && r.conds[c].list == Ids([]) && r.maxthreads == q.maxthreads + |list|
  {
    IdsOf(ring, []);
    IdsOf(list, [ring[0]]);
    IdsSpliced(ring, list);
    Behind(ring, list);
    if list != [] { IdsSpliced(ring, [list[0]]); }
  }

  /** The same of BarrierWait. */
  lemma BarrierSteps(q: Q.State, b: int, ring: seq<Entry>, list: seq<Entry>)
    requires b in q.barriers && Shows(q, ring, q.barriers[b], list) && ring[0].threadindex !in q.back
    ensures var r := Q.Step(q, Q.BarrierWait(b));
            if |list| + 1 == q.barriers[b].max then
              r.ring == Ids(list + ring[1..] + [ring[0]]) && r.barriers[b].list == Ids([]) && r.maxthreads == q.maxthreads + |list|
            else
              r.ring == Ids(ring[1..]) && r.barriers[b].list == Ids(list + [ring[0]]) && r.maxthreads == q.maxthreads - 1
  {
    IdsOf(ring, []);
    IdsOf(list, [ring[0]]);
    IdsOf(list, ring[1..]);
    IdsOf(list + ring[1..], [ring[0]]);
  }

  /** The same of PutToken, Join and Awaken. */
  lemma OtherSteps(q: Q.State, ring: seq<Entry>, t: int)
    requires ring != [] && q.ring == Ids(ring) && ring[0].threadindex !in q.back
    ensures var r := Q.Step(q, Q.PutToken); r.ring == Ids(ring[1..] + [ring[0]]) && r.maxthreads == q.maxthreads
    ensures Q.Enabled(q, Q.Join(t)) ==> var r := Q.Step(q, Q.Join(t)); r.ring == Ids(ring[1..]) && r.maxthreads == q.maxthreads - 1
    ensures Q.Enabled(q, Q.Awaken(t)) ==> Q.Step(q, Q.Awaken(t)).maxthreads == q.maxthreads + 1
  {
    IdsOf(ring, []);
    IdsOf(ring[1..], [ring[0]]);
  }

  /** The same of Deregister. */
  lemma ExitSteps(q: Q.State, ring: seq<Entry>, parent: Entry)
    requires ring != [] && q.ring == Ids(ring) && Q.Enabled(q, Q.Exit)
    requires Q.Waited(q, q.ring[0]) ==> q.parent[q.ring[0]] == parent.threadindex
    ensures var r := Q.Step(q, Q.Exit);
            && r.ring == Ids((if Q.Waited(q, q.ring[0]) then [parent] else []) + ring[1..])
            && r.maxthreads == q.maxthreads - 1 && r.alive == q.alive - 1
  {
    IdsOf(ring, []);
    IdsOf([parent], ring[1..]);
    assert [] + ring[1..] == ring[1..];
  }
}
