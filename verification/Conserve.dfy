/** Where the threads are (determ.h): no operation loses a thread or puts it in two queues, and the counters say
    how long the queues are.  The operations are those of the class Determ, on whole sequences. */
module Conserve {
  import opened Counting
  import opened Runs
  import R = Ring

  type Tid = int

  datatype Place = InRing | AtCond(c: int) | AtBarrier(b: int) | AtJoin

  /** A condition's waiters, or a barrier's threads; max is the barrier's count. */
  datatype Queue = Queue(list: seq<Tid>, count: int, max: int)

  /** The ring from the token on, the queues, who waits for whom in a join, the joiners put back into the ring that
      have not woken up, and the counters.  Where each live thread is, and whose child, is history. */
  datatype State = State(ring: seq<Tid>, conds: map<int, Queue>, barriers: map<int, Queue>, joins: map<Tid, Tid>,
                         back: set<Tid>, maxthreads: int, alive: int, at: map<Tid, Place>, parent: map<Tid, Tid>)

  datatype Event = PutToken | CondWait(c: int) | Signal(c: int) | Broadcast(c: int) | BarrierWait(b: int) | Join(t: Tid)
                 | Exit | Awaken(t: Tid)

  ghost predicate Is(s: State, t: Tid, p: Place) {
    match p
    case InRing => t in s.ring
    case AtCond(c) => c in s.conds && t in s.conds[c].list
    case AtBarrier(b) => b in s.barriers && t in s.barriers[b].list
    case AtJoin => t in s.joins
  }

  ghost predicate Waited(s: State, t: Tid) {
    t in s.parent && s.parent[t] in s.joins && s.joins[s.parent[t]] == t
  }

  /** All but Awaken are steps of an awake token holder.  Only a parent joins, and only live threads are joined:
      for the others join returns at once. */
  ghost predicate Enabled(s: State, e: Event) {
    if e.Awaken? then e.t in s.back
    else
      && s.ring != [] && s.ring[0] !in s.back
      && match e
         case CondWait(c) => c in s.conds
         case Signal(c) => c in s.conds
         case Broadcast(c) => c in s.conds
         case BarrierWait(b) => b in s.barriers
         case Join(t) => t in s.at && t in s.parent && s.parent[t] == s.ring[0]
         case Exit => |s.ring| > 1 || Waited(s, s.ring[0])
         case _ => true
  }

  ghost function Move(at: map<Tid, Place>, who: seq<Tid>, p: Place): (r: map<Tid, Place>)
    ensures forall t :: t in r <==> t in at || t in who
    ensures forall t :: t in r ==> r[t] == if t in who then p else at[t]
  {
    at + map t | t in who :: p
  }

  ghost function Step(s: State, e: Event): State {
    if !Enabled(s, e) then s
    else if e.Awaken? then s.(back := s.back - {e.t}, maxthreads := s.maxthreads + 1)
    else
      var h, rest := s.ring[0], s.ring[1..];
      match e
      case PutToken => s.(ring := rest + [h])
      case CondWait(c) =>
        var q := s.conds[c];
        s.(ring := rest, conds := s.conds[c := q.(list := q.list + [h], count := q.count + 1)],
           maxthreads := s.maxthreads - 1, at := Move(s.at, [h], AtCond(c)))
      case Signal(c) =>
        var q := s.conds[c];
        if q.count == 0 || q.list == [] then s else
          s.(ring := R.Spliced(s.ring, 0, [q.list[0]]), conds := s.conds[c := q.(list := q.list[1..], count := q.count - 1)],
             maxthreads := s.maxthreads + 1, at := Move(s.at, [q.list[0]], InRing))
      case Broadcast(c) =>
        var q := s.conds[c];
        if q.count == 0 then s else
          s.(ring := R.Spliced(s.ring, 0, q.list), conds := s.conds[c := q.(list := [], count := 0)],
             maxthreads := s.maxthreads + q.count, at := Move(s.at, q.list, InRing))
      case BarrierWait(b) =>
        var q := s.barriers[b];
        if q.count + 1 == q.max then
          s.(ring := q.list + rest + [h], barriers := s.barriers[b := q.(list := [], count := 0)],
             maxthreads := s.maxthreads + (q.max - 1), at := Move(s.at, q.list, InRing))
        else
          s.(ring := rest, barriers := s.barriers[b := q.(list := q.list + [h], count := q.count + 1)],
             maxthreads := s.maxthreads - 1, at := Move(s.at, [h], AtBarrier(b)))
      case Join(t) =>
        s.(ring := rest, joins := s.joins[h := t], maxthreads := s.maxthreads - 1, at := Move(s.at, [h], AtJoin))
      case Exit =>
        var q := s.(alive := s.alive - 1, maxthreads := s.maxthreads - 1);
        if Waited(s, h) then
          var p := s.parent[h];
          q.(ring := [p] + rest, joins := s.joins - {p}, back := s.back + {p}, at := Move(s.at, [p], InRing) - {h})
        else q.(ring := rest, at := s.at - {h})
  }

  // ---------- the invariant ----------

  ghost predicate Conserved(s: State) {
    forall t, p {:trigger Is(s, t, p)} :: Is(s, t, p) <==> t in s.at && s.at[t] == p
  }

  ghost predicate ListsOk(s: State) {
    && Distinct(s.ring)
    && (forall c :: c in s.conds ==> Distinct(s.conds[c].list) && s.conds[c].count == |s.conds[c].list|)
    && (forall b :: b in s.barriers ==> Distinct(s.barriers[b].list) && s.barriers[b].count == |s.barriers[b].list| < s.barriers[b].max)
  }

  ghost predicate CountsOk(s: State) {
    && s.back <= Elements(s.ring) && s.maxthreads == |s.ring| - |s.back| && s.alive == |s.at|
  }

  /** Nobody waits for a thread that has exited, nor for anybody but a child. */
  ghost predicate JoinsOk(s: State) {
    forall j :: j in s.joins ==> s.joins[j] in s.at && s.joins[j] in s.parent && s.parent[s.joins[j]] == j
  }

  ghost predicate Inv(s: State) {
    Conserved(s) && ListsOk(s) && CountsOk(s) && JoinsOk(s)
  }

  /** Every live thread is in exactly one place: the ring, one condition's list, one barrier's list, or a join. */
  lemma ExactlyOne(s: State, t: Tid)
    requires Inv(s)
    ensures t in s.at ==> exists p :: Is(s, t, p) && forall q :: Is(s, t, q) ==> q == p
    ensures t !in s.at ==> forall p :: !Is(s, t, p)
  {
    if t in s.at {
      var p := s.at[t];
      assert Is(s, t, p);
    }
  }

  // ---------- every operation keeps it ----------

  lemma RestElements(ring: seq<Tid>)
    requires Distinct(ring) && ring != []
    ensures Distinct(ring[1..]) && forall t :: t in ring[1..] <==> t in ring && t != ring[0]
    ensures Elements(ring[1..]) == Elements(ring) - {ring[0]}
  {
    Turn(ring);
    assert forall t :: t in ring[1..] <==> t in Elements(ring[1..]);
  }

  lemma SplicedElements(ring: seq<Tid>, list: seq<Tid>)
    requires Distinct(ring) && ring != [] && Distinct(list) && forall t :: t in list ==> t !in ring
    ensures var r := R.Spliced(ring, 0, list);
            && Distinct(r) && |r| == |ring| + |list| && Elements(r) == Elements(ring) + Elements(list)
            && forall t :: t in r <==> t in ring || t in list
  {
    R.Behind(ring, list);
    forall t | t in list ensures t !in ring {}
    Insert(ring, list);
    var r := R.Spliced(ring, 0, list);
    assert forall t :: t in r <==> t in Elements(r);
  }

  lemma Appended(list: seq<Tid>, h: Tid)
    requires Distinct(list) && h !in list
    ensures Distinct(list + [h]) && forall t :: t in list + [h] <==> t in list || t == h
  {
    DistinctConcat(list, [h]);
  }

  /** The holder is in the ring and nowhere else; those on a list are not in the ring. */
  lemma Places(s: State, t: Tid, p: Place)
    requires Conserved(s) && Is(s, t, p)
    ensures t in s.at && s.at[t] == p && forall q :: Is(s, t, q) ==> q == p
  {
  }

  lemma PutTokenKeepsInv(s: State)
    requires Inv(s) && Enabled(s, PutToken)
    ensures Inv(Step(s, PutToken))
  {
    var r := Step(s, PutToken);
    Turn(s.ring);
    forall t ensures t in r.ring <==> t in s.ring {
      assert t in r.ring <==> t in Elements(r.ring);
    }
    forall t, p ensures Is(r, t, p) <==> t in r.at && r.at[t] == p {
      assert Is(r, t, p) <==> Is(s, t, p);
    }
  }

  lemma CondWaitKeepsInv(s: State, c: int)
    requires Inv(s) && Enabled(s, CondWait(c))
    ensures Inv(Step(s, CondWait(c)))
  {
    var r, h := Step(s, CondWait(c)), s.ring[0];
    Places(s, h, InRing);
    RestElements(s.ring);
    assert !Is(s, h, AtCond(c));
    Appended(s.conds[c].list, h);
    forall t, p ensures Is(r, t, p) <==> t in r.at && r.at[t] == p {
      assert Is(s, t, p) <==> t in s.at && s.at[t] == p;
      assert t != h ==> (Is(r, t, p) <==> Is(s, t, p));
      assert Is(r, h, p) <==> p == AtCond(c) || (p != InRing && Is(s, h, p));
    }
    assert r.at.Keys == s.at.Keys;
  }

  lemma FirstOfList(list: seq<Tid>)
    requires Distinct(list) && list != []
    ensures Distinct(list[1..]) && forall t :: t in list[1..] <==> t in list && t != list[0]
  {
    RestElements(list);
  }

  lemma ListOutside(s: State, list: seq<Tid>, p: Place)
    requires Conserved(s) && p != InRing && From(s, list, p)
    ensures forall t :: t in list ==> t !in s.ring
  {
    forall t | t in list ensures t !in s.ring {
      assert Is(s, t, p);
      Places(s, t, p);
      assert !Is(s, t, InRing);
    }
  }

  lemma SignalPlaces(s: State, c: int, w: Tid, r: State, t: Tid, p: Place)
    requires Inv(s) && Enabled(s, Signal(c)) && s.conds[c].count > 0 && w == s.conds[c].list[0] && r == Step(s, Signal(c))
    requires forall u :: u in r.ring <==> u in s.ring || u == w
    ensures Is(r, t, p) <==> t in r.at && r.at[t] == p
  {
    FirstOfList(s.conds[c].list);
    assert Is(s, w, AtCond(c)) && (Is(s, t, p) <==> t in s.at && s.at[t] == p);
    if t != w {
      assert Is(r, t, p) <==> Is(s, t, p);
    } else {
      assert Is(r, w, p) <==> p == InRing || (p != AtCond(c) && Is(s, w, p));
    }
  }

  lemma SignalKeepsInv(s: State, c: int)
    requires Inv(s) && Enabled(s, Signal(c))
    ensures Inv(Step(s, Signal(c)))
  {
    var r, q := Step(s, Signal(c)), s.conds[c];
    if q.count > 0 {
      var w := q.list[0];
      assert Is(s, w, AtCond(c));
      ListOutside(s, [w], AtCond(c));
      SplicedElements(s.ring, [w]);
      FirstOfList(q.list);
      forall t, p ensures Is(r, t, p) <==> t in r.at && r.at[t] == p {
        SignalPlaces(s, c, w, r, t, p);
      }
      assert r.at.Keys == s.at.Keys;
    }
  }

  /** A whole list goes from its queue to the ring. */
  lemma Woken(s: State, r: State, list: seq<Tid>, from: Place, t: Tid, p: Place)
    requires Conserved(s) && r.at == Move(s.at, list, InRing) && from != InRing
    requires t in list ==> Is(s, t, from)
    requires t !in list ==> (Is(r, t, p) <==> Is(s, t, p))
    requires t in list && p != from && p != InRing ==> (Is(r, t, p) <==> Is(s, t, p))
    requires t in list ==> Is(r, t, InRing) && !Is(r, t, from)
    ensures Is(r, t, p) <==> t in r.at && r.at[t] == p
  {
    assert Is(s, t, p) <==> t in s.at && s.at[t] == p;
    if t in list { assert Is(s, t, from) <==> t in s.at && s.at[t] == from; }
  }

  lemma SameKeys(s: State, r: State, list: seq<Tid>, from: Place)
    requires Conserved(s) && r.at == Move(s.at, list, InRing) && From(s, list, from)
    ensures r.at.Keys == s.at.Keys
  {
    forall t | t in list ensures t in s.at { assert Is(s, t, from); }
  }

  ghost predicate From(s: State, list: seq<Tid>, p: Place) {
    forall t :: t in list ==> Is(s, t, p)
  }

  lemma BroadcastPlaces(s: State, c: int, r: State, t: Tid, p: Place)
    requires Inv(s) && Enabled(s, Broadcast(c)) && s.conds[c].count > 0 && r == Step(s, Broadcast(c))
    requires forall u :: u in r.ring <==> u in s.ring || u in s.conds[c].list
    ensures Is(r, t, p) <==> t in r.at && r.at[t] == p
  {
    var list := s.conds[c].list;
    if t in list { assert Is(s, t, AtCond(c)); }
    Woken(s, r, list, AtCond(c), t, p);
  }

  lemma BroadcastKeepsInv(s: State, c: int)
    requires Inv(s) && Enabled(s, Broadcast(c))
    ensures Inv(Step(s, Broadcast(c)))
  {
    var r, q := Step(s, Broadcast(c)), s.conds[c];
    if q.count > 0 {
      assert From(s, q.list, AtCond(c));
      ListOutside(s, q.list, AtCond(c));
      SplicedElements(s.ring, q.list);
      forall t, p ensures Is(r, t, p) <==> t in r.at && r.at[t] == p {
        BroadcastPlaces(s, c, r, t, p);
      }
      SameKeys(s, r, q.list, AtCond(c));
    }
  }

  lemma EnterKeepsInv(s: State, b: int)
    requires Inv(s) && Enabled(s, BarrierWait(b)) && s.barriers[b].count + 1 != s.barriers[b].max
    ensures Inv(Step(s, BarrierWait(b)))
  {
    var r, h := Step(s, BarrierWait(b)), s.ring[0];
    Places(s, h, InRing);
    RestElements(s.ring);
    assert !Is(s, h, AtBarrier(b));
    Appended(s.barriers[b].list, h);
    forall t, p ensures Is(r, t, p) <==> t in r.at && r.at[t] == p {
      assert Is(s, t, p) <==> t in s.at && s.at[t] == p;
      assert t != h ==> (Is(r, t, p) <==> Is(s, t, p));
      assert Is(r, h, p) <==> p == AtBarrier(b) || (p != InRing && Is(s, h, p));
    }
    assert r.at.Keys == s.at.Keys;
  }

  /** The ring with a list behind the holder, and the token passed on. */
  lemma Passed(ring: seq<Tid>, list: seq<Tid>)
    requires Distinct(ring) && ring != [] && Distinct(list) && forall t :: t in list ==> t !in ring
    ensures var r := list + ring[1..] + [ring[0]];
            && Distinct(r) && |r| == |ring| + |list| && Elements(r) == Elements(ring) + Elements(list)
            && forall t :: t in r <==> t in ring || t in list
  {
    var q, r := R.Spliced(ring, 0, list), list + ring[1..] + [ring[0]];
    SplicedElements(ring, list);
    R.Behind(ring, list);
    Turn(q);
    assert q[1..] + [q[0]] == r;
    forall t ensures t in r <==> t in q { assert t in r <==> t in Elements(r); }
  }

  lemma OpenPlaces(s: State, b: int, r: State, t: Tid, p: Place)
    requires Inv(s) && Enabled(s, BarrierWait(b)) && s.barriers[b].count + 1 == s.barriers[b].max && r == Step(s, BarrierWait(b))
    requires forall u :: u in r.ring <==> u in s.ring || u in s.barriers[b].list
    ensures Is(r, t, p) <==> t in r.at && r.at[t] == p
  {
    var list := s.barriers[b].list;
    if t in list { assert Is(s, t, AtBarrier(b)); }
    Woken(s, r, list, AtBarrier(b), t, p);
  }

  lemma OpenKeepsInv(s: State, b: int)
    requires Inv(s) && Enabled(s, BarrierWait(b)) && s.barriers[b].count + 1 == s.barriers[b].max
    ensures Inv(Step(s, BarrierWait(b)))
  {
    var r, q := Step(s, BarrierWait(b)), s.barriers[b];
    assert From(s, q.list, AtBarrier(b));
    ListOutside(s, q.list, AtBarrier(b));
    Passed(s.ring, q.list);
    forall t, p ensures Is(r, t, p) <==> t in r.at && r.at[t] == p {
      OpenPlaces(s, b, r, t, p);
    }
    OpenLists(s, b);
  }

  lemma OpenLists(s: State, b: int)
    requires Inv(s) && Enabled(s, BarrierWait(b)) && s.barriers[b].count + 1 == s.barriers[b].max
    requires From(s, s.barriers[b].list, AtBarrier(b)) && forall t :: t in s.barriers[b].list ==> t !in s.ring
    ensures var r := Step(s, BarrierWait(b)); ListsOk(r) && CountsOk(r) && JoinsOk(r)
  {
    Passed(s.ring, s.barriers[b].list);
    SameKeys(s, Step(s, BarrierWait(b)), s.barriers[b].list, AtBarrier(b));
  }

  lemma JoinKeepsInv(s: State, g: Tid)
    requires Inv(s) && Enabled(s, Join(g))
    ensures Inv(Step(s, Join(g)))
  {
    var r, h := Step(s, Join(g)), s.ring[0];
    Places(s, h, InRing);
    RestElements(s.ring);
    forall t, p ensures Is(r, t, p) <==> t in r.at && r.at[t] == p {
      assert Is(s, t, p) <==> t in s.at && s.at[t] == p;
      assert t != h ==> (Is(r, t, p) <==> Is(s, t, p));
      assert Is(r, h, p) <==> p == AtJoin || (p != InRing && Is(s, h, p));
    }
    assert r.at.Keys == s.at.Keys;
  }

  lemma AwakenKeepsInv(s: State, t: Tid)
    requires Inv(s) && Enabled(s, Awaken(t))
    ensures Inv(Step(s, Awaken(t)))
  {
    var r := Step(s, Awaken(t));
    forall u, p ensures Is(r, u, p) <==> u in r.at && r.at[u] == p {
      assert Is(r, u, p) <==> Is(s, u, p);
    }
  }

  lemma LeaveKeepsInv(s: State)
    requires Inv(s) && Enabled(s, Exit) && !Waited(s, s.ring[0])
    ensures Inv(Step(s, Exit))
  {
    var r, h := Step(s, Exit), s.ring[0];
    Places(s, h, InRing);
    RestElements(s.ring);
    forall t, p ensures Is(r, t, p) <==> t in r.at && r.at[t] == p {
      assert Is(s, t, p) <==> t in s.at && s.at[t] == p;
      assert t != h ==> (Is(r, t, p) <==> Is(s, t, p));
      assert Is(r, h, p) <==> p != InRing && Is(s, h, p);
    }
    assert r.at.Keys == s.at.Keys - {h};
  }

  lemma ReturnKeepsInv(s: State)
    requires Inv(s) && Enabled(s, Exit) && Waited(s, s.ring[0])
    ensures Inv(Step(s, Exit))
  {
    var r, h := Step(s, Exit), s.ring[0];
    var u := s.parent[h];
    Places(s, h, InRing);
    Places(s, u, AtJoin);
    RestElements(s.ring);
    assert !Is(s, u, InRing);
    DistinctConcat([u], s.ring[1..]);
    forall t, p ensures Is(r, t, p) <==> t in r.at && r.at[t] == p { ReturnPlaces(s, t, p); }
    assert r.at.Keys == s.at.Keys - {h};
  }

  lemma ReturnPlaces(s: State, t: Tid, p: Place)
    requires Conserved(s) && Distinct(s.ring) && Enabled(s, Exit) && Waited(s, s.ring[0])
    ensures var r := Step(s, Exit); Is(r, t, p) <==> t in r.at && r.at[t] == p
  {
    var r, h := Step(s, Exit), s.ring[0];
    var u := s.parent[h];
    Places(s, h, InRing);
    Places(s, u, AtJoin);
    RestElements(s.ring);
    assert !Is(s, u, InRing) && (Is(s, t, p) <==> t in s.at && s.at[t] == p);
    assert t != h && t != u ==> (Is(r, t, p) <==> Is(s, t, p));
    assert Is(r, h, p) <==> p != InRing && Is(s, h, p);
    assert Is(r, u, p) <==> p == InRing || (p != AtJoin && Is(s, u, p));
  }

  lemma StepKeepsInv(s: State, e: Event)
    requires Inv(s) && Enabled(s, e)
    ensures Inv(Step(s, e))
  {
    match e
    case PutToken => PutTokenKeepsInv(s);
    case CondWait(c) => CondWaitKeepsInv(s, c);
    case Signal(c) => SignalKeepsInv(s, c);
    case Broadcast(c) => BroadcastKeepsInv(s, c);
    case BarrierWait(b) =>
      if s.barriers[b].count + 1 == s.barriers[b].max { OpenKeepsInv(s, b); } else { EnterKeepsInv(s, b); }
    case Join(t) => JoinKeepsInv(s, t);
    case Awaken(t) => AwakenKeepsInv(s, t);
    case Exit => if Waited(s, s.ring[0]) { ReturnKeepsInv(s); } else { LeaveKeepsInv(s); }
  }

  // ---------- runs ----------

  ghost function System(): Rules<State, Event> {
    Rules((s, e) => Enabled(s, e), (s, e) => Step(s, e))
  }

  /** Threads that all run, with queues that nobody waits in. */
  ghost function Start(ring: seq<Tid>, conds: set<int>, barriers: map<int, int>, parent: map<Tid, Tid>): State {
    State(ring, map c | c in conds :: Queue([], 0, 0), map b | b in barriers :: Queue([], 0, barriers[b]), map[], {}, |ring|, |ring|,
          map t | t in ring :: InRing, parent)
  }

  lemma StartInv(ring: seq<Tid>, conds: set<int>, barriers: map<int, int>, parent: map<Tid, Tid>)
    requires Distinct(ring) && forall b :: b in barriers ==> barriers[b] > 0
    ensures Inv(Start(ring, conds, barriers, parent))
  {
    var s := Start(ring, conds, barriers, parent);
    ElementsSize(ring);
    assert s.at.Keys == Elements(ring);
    forall t, p ensures Is(s, t, p) <==> t in s.at && s.at[t] == p {}
  }

  /** In every reachable state each live thread is in exactly one place, and the counters are right. */
  lemma RunConserves(s: State, run: seq<Event>, t: Tid)
    requires Inv(s) && Valid(System(), s, run)
    ensures var r := Exec(System(), s, run);
            && Inv(r) && r.maxthreads == |r.ring| - |r.back| && r.alive == |r.at|
            && (t in r.at ==> exists p :: Is(r, t, p) && forall q :: Is(r, t, q) ==> q == p)
            && (t !in r.at ==> forall p :: !Is(r, t, p))
  {
    var sys := System();
    forall q, e | Inv(q) && sys.enabled(q, e) ensures Inv(sys.step(q, e)) {
      StepKeepsInv(q, e);
    }
    RunPreserves(sys, q => Inv(q), s, run);
    ExactlyOne(Exec(sys, s, run), t);
  }

  // ---------- the order of waking up ----------

  /** The ring after k signals to a condition on which `list` waits. */
  ghost function Signals<T>(ring: seq<T>, list: seq<T>, k: nat): seq<T>
    requires ring != [] && k <= |list|
    decreases k
  {
    if k == 0 then ring else Signals(R.Spliced(ring, 0, [list[0]]), list[1..], k - 1)
  }

  ghost function Reverse<T>(s: seq<T>): (r: seq<T>)
    ensures |r| == |s|
    ensures forall i :: 0 <= i < |s| ==> r[i] == s[|s| - 1 - i]
  {
    seq(|s|, i requires 0 <= i < |s| => s[|s| - 1 - i])
  }

  /** Successive signals wake the longest waiters, the last one woken to run first. */
  lemma {:induction false} SignalsReverse<T>(ring: seq<T>, list: seq<T>, k: nat)
    requires ring != [] && k <= |list|
    ensures Signals(ring, list, k) == R.Spliced(ring, 0, Reverse(list[..k]))
    decreases k
  {
    if k == 0 {
      R.Behind(ring, Reverse(list[..0]));
    } else {
      var w, rest := list[0], list[1..];
      var next := R.Spliced(ring, 0, [w]);
      SignalsReverse(next, rest, k - 1);
      R.Behind(ring, [w]);
      R.Behind(next, Reverse(rest[..k - 1]));
      R.Behind(ring, Reverse(list[..k]));
      assert Reverse(list[..k]) == Reverse(rest[..k - 1]) + [w];
    }
  }

  /** A broadcast and as many signals wake the same threads, in opposite orders: behind the token, first the longest
      waiter, or first the latest. */
  lemma WakeOrders<T>(ring: seq<T>, list: seq<T>)
    requires ring != []
    ensures R.Spliced(ring, 0, list) == [ring[0]] + list + ring[1..]
    ensures Signals(ring, list, |list|) == [ring[0]] + Reverse(list) + ring[1..]
    ensures Elements(Signals(ring, list, |list|)) == Elements(R.Spliced(ring, 0, list))
  {
    SignalsReverse(ring, list, |list|);
    assert list[..|list|] == list;
    R.Behind(ring, list);
    R.Behind(ring, Reverse(list));
    ReverseElements(list);
    SplicedSet(ring, list);
    SplicedSet(ring, Reverse(list));
  }

  lemma SplicedSet<T>(ring: seq<T>, list: seq<T>)
    requires ring != []
    ensures Elements(R.Spliced(ring, 0, list)) == Elements(ring[..1]) + Elements(list) + Elements(ring[1..])
  {
    ElementsConcat(ring[..1], list);
    ElementsConcat(ring[..1] + list, ring[1..]);
  }

  lemma ReverseElements<T>(s: seq<T>)
    ensures Elements(Reverse(s)) == Elements(s)
  {
    forall x | x in s ensures x in Reverse(s) {
      var i :| 0 <= i < |s| && s[i] == x;
      assert Reverse(s)[|s| - 1 - i] == x;
    }
  }
}
