/** Threads with private pages, taking turns to commit: the runtime as its programs see it.  In a parallel
    phase every thread runs until it synchronises; in the serial phase that follows the threads of the ring
    take the token in order, commit, and go on under the token until they pass it. */
module Machine {
  import opened Counting
  import opened Bytes
  import opened Pages
  import opened Runs
  import opened TwinCommit

  /** What a thread does next; `next` is its own state afterwards, and g what all threads share besides the pages:
      queues and locks.  Access touches g alone; Sync asks for the token (or does nothing if the thread has it);
      Publish commits and keeps the token (a signal without waiters); Wake also puts sleeping threads behind the
      token; Release commits and passes the token; Sleep leaves the ring as well (a condition or barrier wait); Gather
      is the last arrival at a barrier of all working threads.  Stuck is never done. */
  datatype Action<L, G> =
    | Store(p: nat, off: nat, byte: Byte, next: L)
    | Access(next: L, g: G)
    | Sync(next: L)
    | Publish(next: L, g: G)
    | Wake(who: seq<Tid>, next: L, g: G)
    | Release(next: L, g: G)
    | Sleep(next: L, g: G)
    | Gather(who: seq<Tid>, next: L, g: G)
    | Stuck

  /** A thread's code: a function of its own state, of the memory it sees, and of queues and locks. */
  type Program<!L, !G> = (Tid, L, seq<Page>, G) -> Action<L, G>

  datatype Thread<L> = Thread(st: L, dirty: DirtyPages, waiting: bool)

  /** The ring starts at the token.  Its first `pending` threads have their turn in this serial phase still
      to come; none in a parallel phase.  `began` says that the holder has committed its parallel writes. */
  datatype Sys<L, G> = Sys(sh: Shared, th: map<Tid, Thread<L>>, ring: seq<Tid>, pending: nat, began: bool, round: nat, g: G)

  // ---------- one step ----------

  ghost function View(sh: Shared, dirty: DirtyPages): (r: seq<Page>)
    ensures |r| == |sh.share|
    ensures forall p :: 0 <= p < |r| ==> r[p] == if p in dirty then dirty[p].page else sh.share[p]
  {
    seq(|sh.share|, p requires 0 <= p < |sh.share| => if p in dirty then dirty[p].page else sh.share[p])
  }

  ghost function Next<L, G>(prog: Program<L, G>, s: Sys<L, G>, t: Tid): Action<L, G>
    requires t in s.th
  {
    prog(t, s.th[t].st, View(s.sh, s.th[t].dirty), s.g)
  }

  ghost predicate InRange<L, G>(sh: Shared, a: Action<L, G>) {
    !a.Stuck? && (a.Store? ==> a.p < |sh.share| && a.off < PAGE_SIZE)
  }

  /** t may take the next step: in a parallel phase any thread that has not synchronised, in a serial phase
      only the token holder. */
  ghost predicate Enabled<L, G>(prog: Program<L, G>, s: Sys<L, G>, t: Tid) {
    && WellFormed(s.sh) && !s.sh.overrun
    && t in s.ring && t in s.th
    && if s.pending == 0 then !s.th[t].waiting && InRange(s.sh, Next(prog, s, t))
       else t == s.ring[0] && (s.began ==> InRange(s.sh, Next(prog, s, t)))
  }

  /** The commit of the runtime, or the merge that it is meant to be. */
  ghost function CommitBy(simple: bool, sh: Shared, dirty: DirtyPages): (r: Shared)
    requires WellFormed(sh)
    ensures WellFormed(r)
  {
    if simple then sh.(share := Merge(sh.share, dirty)) else Commit(sh, dirty)
  }

  ghost function DoStore<L, G>(s: Sys<L, G>, t: Tid, a: Action<L, G>): Sys<L, G>
    requires WellFormed(s.sh) && t in s.th && a.Store? && a.p < |s.sh.share| && a.off < PAGE_SIZE
  {
    var me := s.th[t];
    if a.p !in me.dirty then
      s.(sh := Fault(s.sh, a.p), th := s.th[t := me.(dirty := Put(me.dirty, a.p, Snapshot(s.sh, a.p)))])
    else
      var d := me.dirty[a.p];
      s.(th := s.th[t := me.(dirty := Put(me.dirty, a.p, d.(page := d.page[a.off := a.byte])), st := a.next)])
  }

  ghost predicate AllWaiting<L, G>(s: Sys<L, G>) {
    forall t :: t in s.ring ==> t in s.th && s.th[t].waiting
  }

  /** What the action leaves of g. */
  ghost function Effect<L, G>(a: Action<L, G>, g: G): G {
    if a.Store? || a.Sync? || a.Stuck? then g else a.g
  }

  ghost function DoAccess<L, G>(s: Sys<L, G>, t: Tid, a: Action<L, G>): Sys<L, G>
    requires t in s.th && a.Access?
  {
    s.(th := s.th[t := s.th[t].(st := a.next)], g := a.g)
  }

  /** Arrival at the fence before the serial phase; the last arrival starts it. */
  ghost function DoArrive<L, G>(s: Sys<L, G>, t: Tid, a: Action<L, G>): Sys<L, G>
    requires t in s.th && !a.Stuck?
  {
    var r := s.(th := s.th[t := s.th[t].(waiting := true, st := a.next)]);
    if AllWaiting(r) then r.(pending := |r.ring|, began := false) else r
  }

  /** Commit, and start afresh with nothing dirty. */
  ghost function DoCommit<L, G>(simple: bool, s: Sys<L, G>, t: Tid, st: L): Sys<L, G>
    requires WellFormed(s.sh) && t in s.th
  {
    s.(sh := CommitBy(simple, s.sh, s.th[t].dirty), th := s.th[t := Thread(st, map[], false)])
  }

  /** The turn of the token holder is over; after the last turn the next parallel phase begins. */
  ghost function EndTurn<L, G>(s: Sys<L, G>, ring: seq<Tid>, pending: nat): Sys<L, G> {
    var r := s.(ring := ring, pending := pending, began := false);
    if pending == 0 then r.(sh := r.sh.(cur := 1), round := r.round + 1) else r
  }

  ghost predicate Sleeping<L, G>(s: Sys<L, G>, who: seq<Tid>) {
    && Distinct(who)
    && forall t :: t in who ==> t in s.th && t !in s.ring
  }

  /** The last arrival at a barrier of all working threads puts the others back before itself. */
  ghost predicate Alone<L, G>(s: Sys<L, G>, who: seq<Tid>) {
    |s.ring| == 1 && Sleeping(s, who)
  }

  ghost function GatherRing<L, G>(s: Sys<L, G>, t: Tid, who: seq<Tid>): seq<Tid>
    requires |s.ring| > 0
  {
    if Alone(s, who) then who + [t] else s.ring[1..] + [t]
  }

  ghost function GatherPending<L, G>(s: Sys<L, G>, who: seq<Tid>): nat
    requires s.pending > 0
  {
    if Alone(s, who) then 0 else s.pending - 1
  }

  ghost function DoSerial<L, G>(simple: bool, s: Sys<L, G>, t: Tid, a: Action<L, G>): Sys<L, G>
    requires WellFormed(s.sh) && t in s.th && s.pending > 0 && |s.ring| > 0 && InRange(s.sh, a)
  {
    var rest := s.ring[1..];
    match a
    case Store(_, _, _, _) => DoStore(s, t, a)
    case Access(next, _) => s.(th := s.th[t := s.th[t].(st := next)])
    case Sync(next) => s.(th := s.th[t := s.th[t].(st := next)])
    case Publish(next, _) => DoCommit(simple, s, t, next)
    case Wake(who, next, _) =>
      var r := DoCommit(simple, s, t, next);
      if Sleeping(s, who) then r.(ring := [t] + who + rest, pending := s.pending + |who|) else r
    case Release(next, _) => EndTurn(DoCommit(simple, s, t, next), rest + [t], s.pending - 1)
    case Sleep(next, _) => EndTurn(DoCommit(simple, s, t, next), rest, s.pending - 1)
    case Gather(who, next, _) =>
      EndTurn(DoCommit(simple, s, t, next), GatherRing(s, t, who), GatherPending(s, who))
  }

  /** What the token holder does, with its effect on queues and locks. */
  ghost function DoTurn<L, G>(simple: bool, s: Sys<L, G>, t: Tid, a: Action<L, G>): Sys<L, G>
    requires WellFormed(s.sh) && t in s.th && s.pending > 0 && |s.ring| > 0 && InRange(s.sh, a)
  {
    DoSerial(simple, s, t, a).(g := Effect(a, s.g))
  }

  ghost function Step<L, G>(prog: Program<L, G>, simple: bool, s: Sys<L, G>, t: Tid): Sys<L, G> {
    if !Enabled(prog, s, t) then s
    else if s.pending == 0 then
      var a := Next(prog, s, t);
      if a.Store? then DoStore(s, t, a) else if a.Access? then DoAccess(s, t, a) else DoArrive(s, t, a)
    else if !s.began then DoCommit(simple, s, t, s.th[t].st).(began := true)
    else DoTurn(simple, s, t, Next(prog, s, t))
  }

  /** Which thread may go, and what its step does. */
  ghost function System<L(!new), G(!new)>(prog: Program<L, G>, simple: bool): Rules<Sys<L, G>, Tid> {
    Rules((s, t) => Enabled(prog, s, t), (s, t) => Step(prog, simple, s, t))
  }

  // ---------- the invariant ----------

  ghost function Dirt<L, G>(s: Sys<L, G>): (D: Dirtiness)
    ensures forall t :: t in D <==> t in s.th
    ensures forall t :: t in D ==> D[t] == s.th[t].dirty
  {
    map t | t in s.th :: s.th[t].dirty
  }

  lemma DirtUpdate<L, G>(s: Sys<L, G>, t: Tid, x: Thread<L>, sh: Shared)
    ensures Dirt(s.(sh := sh, th := s.th[t := x])) == Dirt(s)[t := x.dirty]
  {
  }

  const NOBODY: int := -1

  ghost function Holder<L, G>(s: Sys<L, G>): int {
    if s.pending > 0 && |s.ring| > 0 then s.ring[0] else NOBODY
  }

  /** Outside their turn in a serial phase threads have nothing uncommitted. */
  ghost predicate Clean<L, G>(s: Sys<L, G>, t: Tid)
    requires s.pending <= |s.ring|
  {
    t in s.th && (t in s.ring ==> s.pending > 0 && t in s.ring[s.pending..]) ==> s.th[t].dirty == map[]
  }

  ghost predicate Inv<L, G>(s: Sys<L, G>) {
    && Distinct(s.ring) && s.pending <= |s.ring|
    && (forall t :: t in s.ring ==> t in s.th)
    && (forall t :: t in s.th ==> t >= 0)
    && (!s.sh.overrun ==>
          && TwinInv(s.sh, Dirt(s), Holder(s))
          && (forall t :: Clean(s, t))
          && (s.pending == 0 ==> s.sh.cur == 1 && forall p :: 0 <= p < |s.sh.slot| ==> s.sh.slot[p] == 0))
  }

  ghost predicate Initial<L, G>(s: Sys<L, G>) {
    && Distinct(s.ring) && s.pending == 0 && !s.sh.overrun
    && (forall t :: t in s.ring ==> t in s.th)
    && (forall t :: t in s.th ==> t >= 0 && s.th[t].dirty == map[] && !s.th[t].waiting)
    && WellFormed(s.sh) && s.sh.cur == 1
    && (forall p :: 0 <= p < |s.sh.slot| ==> s.sh.slot[p] == 0 && s.sh.users[p] == 0)
  }

  lemma InitialInv<L, G>(s: Sys<L, G>)
    requires Initial(s)
    ensures Inv(s)
  {
    forall p: nat | p < |s.sh.share| ensures PageInv(s.sh, Dirt(s), NOBODY, p) {
      forall t ensures t !in Dirtiers(Dirt(s), p) {
        if t in s.th { assert s.th[t].dirty == map[]; }
      }
      assert Dirtiers(Dirt(s), p) == {};
    }
  }

  lemma StoreKeepsInv<L, G>(s: Sys<L, G>, t: Tid, a: Action<L, G>)
    requires Inv(s) && !s.sh.overrun && t in s.th && t in s.ring && a.Store? && InRange(s.sh, a)
    requires s.pending > 0 ==> t == s.ring[0]
    ensures Inv(DoStore(s, t, a))
  {
    var r, me := DoStore(s, t, a), s.th[t];
    if a.p !in me.dirty {
      FaultCorrect(s.sh, Dirt(s), Holder(s), t, a.p);
      DirtUpdate(s, t, me.(dirty := Put(me.dirty, a.p, Snapshot(s.sh, a.p))), Fault(s.sh, a.p));
    } else {
      var d := me.dirty[a.p];
      StoreCorrect(s.sh, Dirt(s), Holder(s), t, a.p, d.page[a.off := a.byte]);
      DirtUpdate(s, t, me.(dirty := Put(me.dirty, a.p, d.(page := d.page[a.off := a.byte])), st := a.next), s.sh);
    }
    forall u ensures Clean(r, u) {
      assert Clean(s, u);
    }
  }

  /** The token holder's commit: the share gains the bytes it changed, and the twin invariant stays. */
  lemma HolderCommits<L, G>(s: Sys<L, G>, t: Tid, st: L)
    requires Inv(s) && !s.sh.overrun && s.pending > 0 && t == s.ring[0]
    requires Room(s.sh, s.th[t].dirty.Keys)
    ensures var r := DoCommit(false, s, t, st);
            && !r.sh.overrun && r.sh.share == Merge(s.sh.share, s.th[t].dirty)
            && Dirt(r) == Dirt(s)[t := map[]]
            && TwinInv(r.sh, Dirt(r), t)
  {
    CommitCorrect(s.sh, Dirt(s), t);
    DirtUpdate(s, t, Thread(st, map[], false), Commit(s.sh, s.th[t].dirty));
  }

  lemma CommitKeepsInv<L, G>(s: Sys<L, G>, t: Tid, st: L)
    requires Inv(s) && !s.sh.overrun && s.pending > 0 && t == s.ring[0]
    ensures Inv(DoCommit(false, s, t, st))
  {
    var r := DoCommit(false, s, t, st);
    OverrunIff(s.sh, s.th[t].dirty);
    if !r.sh.overrun {
      HolderCommits(s, t, st);
      forall u ensures Clean(r, u) {
        assert Clean(s, u);
      }
    }
  }

  /** Passing the token, leaving the ring or adding sleepers behind the holder, by a holder with nothing dirty. */
  lemma NewRingKeepsInv<L, G>(s: Sys<L, G>, ring: seq<Tid>, pending: nat)
    requires Inv(s) && !s.sh.overrun && s.pending > 0 && s.th[s.ring[0]].dirty == map[]
    requires Distinct(ring) && pending <= |ring| && (forall t :: t in ring ==> t in s.th)
    requires forall t :: t in s.th && s.th[t].dirty != map[] ==> t in ring[..pending]
    ensures pending > 0 ==> Inv(s.(ring := ring, pending := pending))
    ensures Inv(EndTurn(s, ring, pending))
  {
    var h, q := s.ring[0], s.(ring := ring, pending := pending);
    assert Dirt(q) == Dirt(s) && Dirt(EndTurn(s, ring, pending)) == Dirt(s);
    forall u ensures Clean(q, u) {
      if u in s.th && u in ring && pending > 0 && u in ring[pending..] && s.th[u].dirty != map[] {
        NotInBoth(ring, pending, u);
      }
    }
    PassToken(s.sh, Dirt(s), h, Holder(q));
    if pending == 0 {
      AllCommitted(s.sh, Dirt(s), h, NOBODY);
    }
  }

  lemma NotInBoth(s: seq<Tid>, k: nat, t: Tid)
    requires Distinct(s) && k <= |s| && t in s[..k]
    ensures t !in s[k..]
  {
  }

  lemma ArriveKeepsInv<L, G>(s: Sys<L, G>, t: Tid, a: Action<L, G>)
    requires Inv(s) && !s.sh.overrun && s.pending == 0 && t in s.th && t in s.ring && !a.Stuck?
    ensures Inv(DoArrive(s, t, a))
  {
    var r := DoArrive(s, t, a);
    assert Dirt(r) == Dirt(s);
    PassToken(s.sh, Dirt(s), NOBODY, Holder(r));
    forall u ensures Clean(r, u) {
      assert Clean(s, u);
    }
  }

  lemma RotateRing(ring: seq<Tid>)
    requires Distinct(ring) && ring != []
    ensures Distinct(ring[1..]) && Distinct(ring[1..] + [ring[0]])
    ensures forall u :: u in ring[1..] + [ring[0]] <==> u in ring
  {
    Turn(ring);
    assert forall u :: u in ring <==> u in Elements(ring);
  }

  lemma InsertBehindHolder<L, G>(s: Sys<L, G>, who: seq<Tid>)
    requires Distinct(s.ring) && s.ring != [] && Sleeping(s, who)
    ensures Distinct([s.ring[0]] + who + s.ring[1..]) && Distinct(who + [s.ring[0]])
  {
    forall u | u in who ensures u !in s.ring {}
    Insert(s.ring, who);
  }

  /** A thread with a turn to come keeps it when the holder's turn ends or sleepers come in between. */
  lemma StillPending(ring: seq<Tid>, k: nat, who: seq<Tid>, u: Tid)
    requires 0 < k <= |ring| && u in ring[..k] && u != ring[0]
    ensures u in ring[1..][..k - 1] && u in (ring[1..] + [ring[0]])[..k - 1]
    ensures u in ([ring[0]] + who + ring[1..])[..k + |who|]
  {
    var i :| 0 <= i < k && ring[i] == u;
    assert ring[1..][..k - 1][i - 1] == u && (ring[1..] + [ring[0]])[..k - 1][i - 1] == u;
    assert ([ring[0]] + who + ring[1..])[..k + |who|][i + |who|] == u;
  }

  lemma PendingIfDirty<L, G>(s: Sys<L, G>, u: Tid)
    requires Inv(s) && !s.sh.overrun && u in s.th && s.th[u].dirty != map[] && s.pending > 0
    ensures u in s.ring[..s.pending]
  {
    assert Clean(s, u);
    assert s.ring == s.ring[..s.pending] + s.ring[s.pending..];
  }

  /** After its commit the holder may change the ring, as long as nobody with a turn to come loses it. */
  lemma TurnKeepsInv<L, G>(s: Sys<L, G>, t: Tid, st: L, ring: seq<Tid>, pending: nat)
    requires Inv(s) && s.pending > 0 && !s.sh.overrun && t == s.ring[0]
    requires Distinct(ring) && pending <= |ring| && (forall u :: u in ring ==> u in s.th)
    requires forall u :: u in s.ring[..s.pending] && u != t ==> u in ring[..pending]
    ensures pending > 0 ==> Inv(DoCommit(false, s, t, st).(ring := ring, pending := pending))
    ensures Inv(EndTurn(DoCommit(false, s, t, st), ring, pending))
  {
    var c := DoCommit(false, s, t, st);
    CommitKeepsInv(s, t, st);
    if !c.sh.overrun {
      forall u | u in c.th && c.th[u].dirty != map[] ensures u in ring[..pending] {
        PendingIfDirty(c, u);
      }
      NewRingKeepsInv(c, ring, pending);
    }
  }

  lemma SerialGather<L, G>(simple: bool, s: Sys<L, G>, t: Tid, a: Action<L, G>)
    requires WellFormed(s.sh) && t in s.th && s.pending > 0 && |s.ring| > 0 && a.Gather?
    ensures DoSerial(simple, s, t, a) == EndTurn(DoCommit(simple, s, t, a.next), GatherRing(s, t, a.who), GatherPending(s, a.who))
  {
  }

  lemma SerialTurn<L, G>(simple: bool, s: Sys<L, G>, t: Tid, a: Action<L, G>)
    requires WellFormed(s.sh) && t in s.th && s.pending > 0 && |s.ring| > 0 && (a.Release? || a.Sleep?)
    ensures DoSerial(simple, s, t, a) ==
              EndTurn(DoCommit(simple, s, t, a.next), if a.Sleep? then s.ring[1..] else s.ring[1..] + [t], s.pending - 1)
  {
  }

  lemma SerialKeepsInv<L, G>(s: Sys<L, G>, t: Tid, a: Action<L, G>)
    requires Inv(s) && !s.sh.overrun && s.pending > 0 && t == s.ring[0] && InRange(s.sh, a)
    ensures Inv(DoSerial(false, s, t, a))
  {
    match a
    case Store(_, _, _, _) => StoreKeepsInv(s, t, a);
    case Access(next, _) => SyncKeepsInv(s, t, next);
    case Sync(next) => SyncKeepsInv(s, t, next);
    case Publish(next, _) => CommitKeepsInv(s, t, next);
    case Wake(who, next, _) =>
      CommitKeepsInv(s, t, next);
      if Sleeping(s, who) { WakeKeepsInv(s, t, who, next); }
    case Release(next, _) => ReleaseKeepsInv(s, t, next);
    case Sleep(next, _) => SleepKeepsInv(s, t, next);
    case Gather(_, _, _) => GatherKeepsInv(s, t, a);
  }

  lemma WakeKeepsInv<L, G>(s: Sys<L, G>, t: Tid, who: seq<Tid>, st: L)
    requires Inv(s) && s.pending > 0 && !s.sh.overrun && t == s.ring[0] && Sleeping(s, who)
    ensures Inv(DoCommit(false, s, t, st).(ring := [t] + who + s.ring[1..], pending := s.pending + |who|))
  {
    InsertBehindHolder(s, who);
    forall u | u in s.ring[..s.pending] && u != t ensures u in ([t] + who + s.ring[1..])[..s.pending + |who|] {
      StillPending(s.ring, s.pending, who, u);
    }
    TurnKeepsInv(s, t, st, [t] + who + s.ring[1..], s.pending + |who|);
  }

  lemma GatherKeepsInv<L, G>(s: Sys<L, G>, t: Tid, a: Action<L, G>)
    requires Inv(s) && s.pending > 0 && !s.sh.overrun && t == s.ring[0] && a.Gather?
    ensures Inv(DoSerial(false, s, t, a))
  {
    SerialGather(false, s, t, a);
    if Alone(s, a.who) {
      InsertBehindHolder(s, a.who);
      TurnKeepsInv(s, t, a.next, a.who + [t], 0);
    } else {
      ReleaseKeepsInv(s, t, a.next);
    }
  }

  lemma SyncKeepsInv<L, G>(s: Sys<L, G>, t: Tid, st: L)
    requires Inv(s) && t in s.th
    ensures Inv(s.(th := s.th[t := s.th[t].(st := st)]))
  {
    var r := s.(th := s.th[t := s.th[t].(st := st)]);
    assert Dirt(r) == Dirt(s);
    if !s.sh.overrun {
      forall u ensures Clean(r, u) { assert Clean(s, u); }
    }
  }

  lemma ReleaseKeepsInv<L, G>(s: Sys<L, G>, t: Tid, st: L)
    requires Inv(s) && s.pending > 0 && !s.sh.overrun && t == s.ring[0]
    ensures Inv(EndTurn(DoCommit(false, s, t, st), s.ring[1..] + [t], s.pending - 1))
  {
    RotateRing(s.ring);
    forall u | u in s.ring[..s.pending] && u != t ensures u in (s.ring[1..] + [t])[..s.pending - 1] {
      StillPending(s.ring, s.pending, [], u);
    }
    TurnKeepsInv(s, t, st, s.ring[1..] + [t], s.pending - 1);
  }

  lemma SleepKeepsInv<L, G>(s: Sys<L, G>, t: Tid, st: L)
    requires Inv(s) && s.pending > 0 && !s.sh.overrun && t == s.ring[0]
    ensures Inv(EndTurn(DoCommit(false, s, t, st), s.ring[1..], s.pending - 1))
  {
    RotateRing(s.ring);
    forall u | u in s.ring[..s.pending] && u != t ensures u in s.ring[1..][..s.pending - 1] {
      StillPending(s.ring, s.pending, [], u);
    }
    TurnKeepsInv(s, t, st, s.ring[1..], s.pending - 1);
  }

  lemma StepKeepsInv<L, G>(prog: Program<L, G>, s: Sys<L, G>, t: Tid)
    requires Inv(s) && Enabled(prog, s, t)
    ensures Inv(Step(prog, false, s, t))
  {
    if s.pending == 0 {
      var a := Next(prog, s, t);
      if a.Store? {
        StoreKeepsInv(s, t, a);
      } else if a.Access? {
        SyncKeepsInv(s, t, a.next);
        EffectKeepsInv(s.(th := s.th[t := s.th[t].(st := a.next)]), a.g);
      } else {
        ArriveKeepsInv(s, t, a);
      }
    } else if !s.began {
      CommitKeepsInv(s, t, s.th[t].st);
      var c := DoCommit(false, s, t, s.th[t].st);
      BeganKeepsInv(c);
    } else {
      var a := Next(prog, s, t);
      SerialKeepsInv(s, t, a);
      EffectKeepsInv(DoSerial(false, s, t, a), Effect(a, s.g));
    }
  }

  /** The twins have nothing to do with queues and locks. */
  lemma EffectKeepsInv<L, G>(s: Sys<L, G>, g: G)
    requires Inv(s)
    ensures Inv(s.(g := g))
  {
    var r := s.(g := g);
    assert Dirt(r) == Dirt(s);
    if !s.sh.overrun {
      forall u ensures Clean(r, u) { assert Clean(s, u); }
    }
  }

  lemma BeganKeepsInv<L, G>(s: Sys<L, G>)
    requires Inv(s)
    ensures Inv(s.(began := true))
  {
    var r := s.(began := true);
    assert Dirt(r) == Dirt(s);
    if !s.sh.overrun {
      forall u ensures Clean(r, u) { assert Clean(s, u); }
    }
  }

  /** The twin invariant holds in every reachable state. */
  lemma RunKeepsInv<L(!new), G(!new)>(prog: Program<L, G>, s: Sys<L, G>, sched: seq<Tid>)
    requires Inv(s) && Valid(System(prog, false), s, sched)
    ensures Inv(Exec(System(prog, false), s, sched))
  {
    var r := System(prog, false);
    forall q, t | Inv(q) && r.enabled(q, t) ensures Inv(r.step(q, t)) {
      StepKeepsInv(prog, q, t);
    }
    RunPreserves(r, q => Inv(q), s, sched);
  }

  // ---------- when the twin slots last ----------

  ghost predicate TakesCommit<L, G>(a: Action<L, G>) {
    !a.Store? && !a.Access? && !a.Sync? && !a.Stuck?
  }

  /** The next step of t does not commit, or there are slots for the twins it needs. */
  ghost predicate HasRoom<L, G>(prog: Program<L, G>, s: Sys<L, G>, t: Tid)
    requires WellFormed(s.sh) && t in s.th
  {
    s.pending > 0 && (!s.began || TakesCommit(Next(prog, s, t))) ==> Room(s.sh, s.th[t].dirty.Keys)
  }

  /** Slots run out at a step exactly when there is no room before. */
  lemma OverrunsIff<L, G>(prog: Program<L, G>, s: Sys<L, G>, t: Tid)
    requires Enabled(prog, s, t)
    ensures Step(prog, false, s, t).sh.overrun <==> !HasRoom(prog, s, t)
  {
    StepOverruns(prog, s, t);
    OverrunIff(s.sh, s.th[t].dirty);
  }

  lemma StepOverruns<L, G>(prog: Program<L, G>, s: Sys<L, G>, t: Tid)
    requires Enabled(prog, s, t)
    ensures Step(prog, false, s, t).sh.overrun <==>
              s.pending > 0 && (!s.began || TakesCommit(Next(prog, s, t))) && Commit(s.sh, s.th[t].dirty).overrun
  {
    if s.pending == 0 {
      ArrivalFits(prog, s, t);
    } else if s.began {
      TurnOverruns(s, t, Next(prog, s, t));
    } else {
      assert Step(prog, false, s, t).sh == DoCommit(false, s, t, s.th[t].st).sh;
    }
  }

  lemma ArrivalFits<L, G>(prog: Program<L, G>, s: Sys<L, G>, t: Tid)
    requires Enabled(prog, s, t) && s.pending == 0
    ensures !Step(prog, false, s, t).sh.overrun
  {
  }

  lemma TurnOverruns<L, G>(s: Sys<L, G>, t: Tid, a: Action<L, G>)
    requires WellFormed(s.sh) && t in s.th && s.pending > 0 && |s.ring| > 0 && InRange(s.sh, a) && !s.sh.overrun
    ensures DoTurn(false, s, t, a).sh.overrun <==> TakesCommit(a) && Commit(s.sh, s.th[t].dirty).overrun
  {
    if a.Gather? { SerialGather(false, s, t, a); }
  }

  ghost predicate RunHasRoom<L(!new), G(!new)>(prog: Program<L, G>, s: Sys<L, G>, sched: seq<Tid>)
    requires Valid(System(prog, false), s, sched)
    decreases |sched|
  {
    sched == [] || (HasRoom(prog, s, sched[0]) && RunHasRoom(prog, Step(prog, false, s, sched[0]), sched[1..]))
  }

  // ---------- refinement: versions and twins are invisible ----------

  ghost predicate SamePages(d: DirtyPages, e: DirtyPages) {
    && (forall p :: p in d <==> p in e)
    && (forall p :: p in d ==> d[p].page == e[p].page && d[p].base == e[p].base)
  }

  /** Two states that programs cannot tell apart: equal up to versions, users and twins. */
  ghost predicate Sim<L, G>(s: Sys<L, G>, a: Sys<L, G>) {
    && s.ring == a.ring && s.pending == a.pending && s.began == a.began && s.round == a.round && s.g == a.g
    && WellFormed(s.sh) && WellFormed(a.sh) && s.sh.share == a.sh.share && !a.sh.overrun
    && (forall t :: t in s.th <==> t in a.th)
    && (forall t :: t in s.th ==> s.th[t].st == a.th[t].st && s.th[t].waiting == a.th[t].waiting
                                  && SamePages(s.th[t].dirty, a.th[t].dirty))
  }

  lemma SimNext<L, G>(prog: Program<L, G>, s: Sys<L, G>, a: Sys<L, G>, t: Tid)
    requires Sim(s, a) && t in s.th
    ensures Next(prog, s, t) == Next(prog, a, t)
  {
    assert View(s.sh, s.th[t].dirty) == View(a.sh, a.th[t].dirty);
  }

  lemma SimUpdate<L, G>(s: Sys<L, G>, a: Sys<L, G>, t: Tid, x: Thread<L>, y: Thread<L>, sh: Shared, ah: Shared)
    requires Sim(s, a) && t in s.th
    requires x.st == y.st && x.waiting == y.waiting && SamePages(x.dirty, y.dirty)
    requires WellFormed(sh) && WellFormed(ah) && sh.share == ah.share && !ah.overrun
    ensures Sim(s.(sh := sh, th := s.th[t := x]), a.(sh := ah, th := a.th[t := y]))
  {
  }

  lemma SamePut(d: DirtyPages, e: DirtyPages, p: int, x: Dirty, y: Dirty)
    requires SamePages(d, e) && x.page == y.page && x.base == y.base
    ensures SamePages(Put(d, p, x), Put(e, p, y))
  {
  }

  lemma SimStore<L, G>(s: Sys<L, G>, a: Sys<L, G>, t: Tid, act: Action<L, G>)
    requires Sim(s, a) && t in s.th && act.Store? && InRange(s.sh, act)
    ensures Sim(DoStore(s, t, act), DoStore(a, t, act))
  {
    var me, you, p := s.th[t], a.th[t], act.p;
    if p !in me.dirty {
      var x, y := Snapshot(s.sh, p), Snapshot(a.sh, p);
      SamePut(me.dirty, you.dirty, p, x, y);
      SimUpdate(s, a, t, me.(dirty := Put(me.dirty, p, x)), you.(dirty := Put(you.dirty, p, y)), Fault(s.sh, p), Fault(a.sh, p));
    } else {
      var page: Page := me.dirty[p].page[act.off := act.byte];
      var x, y := me.dirty[p].(page := page), you.dirty[p].(page := page);
      SamePut(me.dirty, you.dirty, p, x, y);
      SimUpdate(s, a, t, me.(dirty := Put(me.dirty, p, x), st := act.next), you.(dirty := Put(you.dirty, p, y), st := act.next), s.sh, a.sh);
    }
  }

  lemma SimCommit<L, G>(s: Sys<L, G>, a: Sys<L, G>, t: Tid, st: L)
    requires Sim(s, a) && Inv(s) && s.pending > 0 && t == s.ring[0] && !s.sh.overrun
    requires Room(s.sh, s.th[t].dirty.Keys)
    ensures Sim(DoCommit(false, s, t, st), DoCommit(true, a, t, st))
  {
    HolderCommits(s, t, st);
    assert Merge(s.sh.share, s.th[t].dirty) == Merge(a.sh.share, a.th[t].dirty);
    var x := Thread(st, map[], false);
    SimUpdate(s, a, t, x, x, CommitBy(false, s.sh, s.th[t].dirty), CommitBy(true, a.sh, a.th[t].dirty));
  }

  lemma SimEndTurn<L, G>(s: Sys<L, G>, a: Sys<L, G>, ring: seq<Tid>, pending: nat)
    requires Sim(s, a)
    ensures Sim(EndTurn(s, ring, pending), EndTurn(a, ring, pending))
    ensures Sim(s.(ring := ring, pending := pending), a.(ring := ring, pending := pending))
  {
  }

  lemma SimSleeping<L, G>(s: Sys<L, G>, a: Sys<L, G>, who: seq<Tid>)
    requires Sim(s, a)
    ensures Sleeping(s, who) <==> Sleeping(a, who)
  {
  }

  lemma SimWake<L, G>(s: Sys<L, G>, a: Sys<L, G>, t: Tid, act: Action<L, G>)
    requires Sim(s, a) && Inv(s) && s.pending > 0 && t == s.ring[0] && !s.sh.overrun
    requires act.Wake? && Room(s.sh, s.th[t].dirty.Keys)
    ensures Sim(DoSerial(false, s, t, act), DoSerial(true, a, t, act))
  {
    var c, d := DoCommit(false, s, t, act.next), DoCommit(true, a, t, act.next);
    SimCommit(s, a, t, act.next);
    SimSleeping(s, a, act.who);
    SimEndTurn(c, d, [t] + act.who + s.ring[1..], s.pending + |act.who|);
  }

  lemma SimGatherRing<L, G>(s: Sys<L, G>, a: Sys<L, G>, t: Tid, who: seq<Tid>)
    requires Sim(s, a) && |s.ring| > 0 && s.pending > 0
    ensures GatherRing(s, t, who) == GatherRing(a, t, who) && GatherPending(s, who) == GatherPending(a, who)
  {
    SimSleeping(s, a, who);
  }

  lemma SimGather<L, G>(s: Sys<L, G>, a: Sys<L, G>, t: Tid, act: Action<L, G>)
    requires Sim(s, a) && Inv(s) && s.pending > 0 && t == s.ring[0] && !s.sh.overrun
    requires act.Gather? && Room(s.sh, s.th[t].dirty.Keys)
    ensures Sim(DoSerial(false, s, t, act), DoSerial(true, a, t, act))
  {
    SimGatherRing(s, a, t, act.who);
    SerialGather(false, s, t, act);
    SerialGather(true, a, t, act);
    SimTurnTo(s, a, t, act.next, GatherRing(s, t, act.who), GatherPending(s, act.who));
  }

  /** Passing the token, or leaving the ring. */
  lemma SimTurn<L, G>(s: Sys<L, G>, a: Sys<L, G>, t: Tid, act: Action<L, G>)
    requires Sim(s, a) && Inv(s) && s.pending > 0 && t == s.ring[0] && !s.sh.overrun
    requires (act.Release? || act.Sleep?) && Room(s.sh, s.th[t].dirty.Keys)
    ensures Sim(DoSerial(false, s, t, act), DoSerial(true, a, t, act))
  {
    var ring := if act.Sleep? then s.ring[1..] else s.ring[1..] + [t];
    SerialTurn(false, s, t, act);
    SerialTurn(true, a, t, act);
    SimTurnTo(s, a, t, act.next, ring, s.pending - 1);
  }

  lemma SimTurnTo<L, G>(s: Sys<L, G>, a: Sys<L, G>, t: Tid, st: L, ring: seq<Tid>, pending: nat)
    requires Sim(s, a) && Inv(s) && s.pending > 0 && t == s.ring[0] && !s.sh.overrun && Room(s.sh, s.th[t].dirty.Keys)
    ensures Sim(EndTurn(DoCommit(false, s, t, st), ring, pending), EndTurn(DoCommit(true, a, t, st), ring, pending))
  {
    SimCommit(s, a, t, st);
    SimEndTurn(DoCommit(false, s, t, st), DoCommit(true, a, t, st), ring, pending);
  }

  lemma SimSerial<L, G>(s: Sys<L, G>, a: Sys<L, G>, t: Tid, act: Action<L, G>)
    requires Sim(s, a) && Inv(s) && s.pending > 0 && t == s.ring[0] && !s.sh.overrun && InRange(s.sh, act)
    requires TakesCommit(act) ==> Room(s.sh, s.th[t].dirty.Keys)
    ensures Sim(DoSerial(false, s, t, act), DoSerial(true, a, t, act))
  {
    if act.Store? {
      SimStore(s, a, t, act);
    } else if act.Sync? || act.Access? {
      SimUpdate(s, a, t, s.th[t].(st := act.next), a.th[t].(st := act.next), s.sh, a.sh);
    } else if act.Wake? {
      SimWake(s, a, t, act);
    } else if act.Gather? {
      SimGather(s, a, t, act);
    } else if act.Publish? {
      SimCommit(s, a, t, act.next);
    } else {
      SimTurn(s, a, t, act);
    }
  }

  lemma SimArrive<L, G>(s: Sys<L, G>, a: Sys<L, G>, t: Tid, act: Action<L, G>)
    requires Sim(s, a) && t in s.th && !act.Stuck?
    ensures Sim(DoArrive(s, t, act), DoArrive(a, t, act))
  {
    SimUpdate(s, a, t, s.th[t].(waiting := true, st := act.next), a.th[t].(waiting := true, st := act.next), s.sh, a.sh);
  }

  lemma SimAccess<L, G>(s: Sys<L, G>, a: Sys<L, G>, t: Tid, act: Action<L, G>)
    requires Sim(s, a) && t in s.th && act.Access?
    ensures Sim(DoAccess(s, t, act), DoAccess(a, t, act))
  {
    SimUpdate(s, a, t, s.th[t].(st := act.next), a.th[t].(st := act.next), s.sh, a.sh);
  }

  lemma SimEnabled<L, G>(prog: Program<L, G>, s: Sys<L, G>, a: Sys<L, G>, t: Tid)
    requires Sim(s, a) && Enabled(prog, s, t)
    ensures Enabled(prog, a, t) && Next(prog, a, t) == Next(prog, s, t)
  {
    SimNext(prog, s, a, t);
  }

  /** A step of the runtime looks like the same step of the machine that merely merges changed bytes. */
  lemma SimStep<L, G>(prog: Program<L, G>, s: Sys<L, G>, a: Sys<L, G>, t: Tid)
    requires Sim(s, a) && Inv(s) && Enabled(prog, s, t)
    requires HasRoom(prog, s, t)
    ensures Enabled(prog, a, t)
    ensures Sim(Step(prog, false, s, t), Step(prog, true, a, t))
  {
    SimEnabled(prog, s, a, t);
    var act := Next(prog, s, t);
    if s.pending == 0 {
      if act.Store? { SimStore(s, a, t, act); } else if act.Access? { SimAccess(s, a, t, act); } else { SimArrive(s, a, t, act); }
    } else if !s.began {
      SimCommit(s, a, t, s.th[t].st);
    } else {
      SimSerial(s, a, t, act);
      SimEffect(DoSerial(false, s, t, act), DoSerial(true, a, t, act), Effect(act, s.g));
    }
  }

  lemma SimEffect<L, G>(s: Sys<L, G>, a: Sys<L, G>, g: G)
    requires Sim(s, a)
    ensures Sim(s.(g := g), a.(g := g))
  {
  }

  /** Refinement: as long as the twin slots last, any run is a run of the merging machine with the same
      memory, the same views and the same thread states. */
  lemma {:induction false} RunRefines<L(!new), G(!new)>(prog: Program<L, G>, s: Sys<L, G>, a: Sys<L, G>, sched: seq<Tid>)
    requires Sim(s, a) && Inv(s) && Valid(System(prog, false), s, sched) && RunHasRoom(prog, s, sched)
    ensures Valid(System(prog, true), a, sched)
    ensures Sim(Exec(System(prog, false), s, sched), Exec(System(prog, true), a, sched))
    decreases |sched|
  {
    if sched != [] {
      var t := sched[0];
      SimStep(prog, s, a, t);
      StepKeepsInv(prog, s, t);
      RunRefines(prog, Step(prog, false, s, t), Step(prog, true, a, t), sched[1..]);
    }
  }
}
