/** Runs of programs: the ring is the active list and nobody is lost between ring and queues, each call finds what it
    needs, and memory is deterministic unless in one parallel phase the owner of a lock and another thread both call
    mutex_lock for it. */
module KernelRuns {
  import opened Counting
  import opened Pages
  import opened Runs
  import TwinCommit
  import opened Machine
  import opened Determinism
  import opened M = Mutex
  import opened Kernel
  import Q = Conserve
  import R = Ring
  import P = Phases
  import Runtime

  // ---------- the invariant ----------

  /** The ring of the machine is that of the queues, and every thread is in the ring, or waits for one condition or
      barrier. */
  ghost predicate Queued<L>(s: Sys<Ctx<L>, Os>) {
    && Q.Inv(s.g.q) && s.g.q.ring == s.ring && s.g.q.back == {} && s.g.q.joins == map[]
    && forall t :: t in s.g.q.at <==> t in s.th
  }

  ghost predicate HolderOk(e: Lock, t: Tid) {
    e.users >= 1 && (e.users == 1 ==> e.last == t)
  }

  /** The number of users says none, one or more, as history has it. */
  ghost predicate UsersOk(e: Lock, who: set<Tid>) {
    && e.users >= 0 && (e.users == 0 <==> who == {}) && (e.users >= 1 ==> e.last in who)
    && (e.users == 1 ==> who == {e.last}) && (e.users >= 2 ==> who != {e.last})
  }

  ghost predicate LocksOk(g: Os) {
    && (forall m :: m in g.locks ==> UsersOk(g.locks[m], UsersOf(g, m)))
    && (forall m :: m in g.holder ==> m in g.locks && HolderOk(g.locks[m], g.holder[m]))
  }

  ghost predicate PcOk(g: Os, t: Tid, pc: Pc) {
    && !pc.Idle? && pc.m in g.locks
    && (pc.Looks? || pc.Bumps? || pc.Writes? ==> g.locks[pc.m].users >= 1)
    && (pc.Bumps? || pc.Writes? ==> g.locks[pc.m].last != t) && (pc.Writes? ==> pc.v >= 1)
  }

  ghost predicate CtlOk<L>(g: Os, t: Tid, c: Ctx<L>) {
    (c.ctl.Turn? ==> !c.token) && (c.ctl.Entering? ==> c.ctl.m in g.locks) && (c.ctl.Locking? ==> PcOk(g, t, c.ctl.pc))
  }

  /** Without the token a thread is in lock_acquire only on the way of owners and single threads. */
  ghost predicate QuietPc(pc: Pc) {
    match pc
    case Tests(_, fast) => fast
    case Sets(_, fast) => fast
    case Counts(_, fast) => fast
    case Idle => false
    case Denied(_) => false
    case _ => true
  }

  ghost predicate Free<L>(c: Ctx<L>) {
    c.ctl.User? && !c.token
  }

  /** Without the token: in user code or in mutex_lock, and between phases about to ask for the token. */
  ghost predicate RestOk<L>(parallel: bool, c: Ctx<L>) {
    !c.token && (c.ctl.User? || (parallel && c.ctl.Entering?) || (c.ctl.Locking? && (c.ctl.pc.Wants? || (parallel && QuietPc(c.ctl.pc)))))
  }

  /** At the fence before the serial phase. */
  ghost predicate Comes<L>(c: Ctx<L>) {
    c.ctl.Turn? || (c.ctl.Locking? && c.ctl.pc.Wants?)
  }

  /** In the ring, running in a parallel phase or with its turn in a serial one over. */
  ghost predicate Rested<L>(s: Sys<Ctx<L>, Os>, t: Tid) {
    && s.pending <= |s.ring| && t in s.th && t in s.ring && !s.th[t].waiting
    && (s.pending == 0 || t in s.ring[s.pending..])
  }

  /** Has the token, and has committed what it did before. */
  ghost predicate Leads<L>(s: Sys<Ctx<L>, Os>, t: Tid) {
    s.began && s.pending > 0 && s.ring != [] && s.ring[0] == t
  }

  /** In the ring, with its turn to come. */
  ghost predicate Expected<L>(s: Sys<Ctx<L>, Os>, t: Tid) {
    t in s.ring && !Leads(s, t) && s.pending <= |s.ring| && (s.pending > 0 ==> t !in s.ring[s.pending..])
  }

  ghost predicate AtBarrier(q: Q.State, t: Tid) {
    t in q.at && q.at[t].AtBarrier?
  }

  ghost predicate ThreadOk<L>(s: Sys<Ctx<L>, Os>, t: Tid) {
    t in s.th ==>
      var c := s.th[t].st;
      && CtlOk(s.g, t, c)
      && (AtBarrier(s.g.q, t) ==> Free(c))
      && (s.th[t].waiting ==> Comes(c) && Expected(s, t))
      && (Rested(s, t) ==> RestOk(s.pending == 0, c))
  }

  ghost predicate Inv<L>(s: Sys<Ctx<L>, Os>) {
    Machine.Inv(s) && TwinCommit.WellFormed(s.sh) && Queued(s) && LocksOk(s.g) && forall t :: ThreadOk(s, t)
  }

  // ---------- locks ----------

  /** Nobody un-uses a lock, and its first user stays so. */
  ghost predicate Grows(g: Os, h: Os) {
    && (forall m :: m in g.locks <==> m in h.locks)
    && forall m :: m in g.locks && g.locks[m].users >= 1 ==> h.locks[m].users >= 1 && h.locks[m].last == g.locks[m].last
  }

  lemma OneLock(g: Os, t: Tid, m: LockId, e: Lock, got: bool, who: set<Tid>)
    requires LocksOk(g) && m in g.locks && UsersOk(e, who) && (g.locks[m].users >= 1 ==> e.users >= 1 && e.last == g.locks[m].last)
    requires m in g.holder && !got ==> HolderOk(e, g.holder[m])
    requires got ==> HolderOk(e, t)
    ensures LocksOk(WithLock(g, t, m, e, got, who)) && Grows(g, WithLock(g, t, m, e, got, who))
  {
    var h := WithLock(g, t, m, e, got, who);
    forall n | n in h.locks ensures UsersOk(h.locks[n], UsersOf(h, n)) {
      if n != m { assert UsersOf(h, n) == UsersOf(g, n); }
    }
  }

  lemma TryOk<L>(t: Tid, c: Ctx<L>, pc: Pc, next: L, g: Os)
    requires LocksOk(g) && PcOk(g, t, pc) && !pc.Denied? && (pc.Wants? ==> c.token)
    ensures var a := TryLock(t, c, pc, next, g); a.Access? && LocksOk(a.g) && Grows(g, a.g) && CtlOk(a.g, t, a.next)
    ensures var a := TryLock(t, c, pc, next, g); a.g.q == g.q && a.next.token == c.token
  {
    var e, who := g.locks[pc.m], UsersOf(g, pc.m);
    var r := M.Access(e, t, Single(g), pc);
    TryUsers(e, who, t, Single(g), pc);
    OneLock(g, t, pc.m, r.lock, r.got, AfterAccess(e, who, t, pc));
  }

  /** What an access does to the number of users and to history. */
  lemma TryUsers(e: Lock, who: set<Tid>, t: Tid, single: bool, pc: Pc)
    requires UsersOk(e, who) && !pc.Idle? && !pc.Denied?
    requires pc.Writes? ==> pc.v >= 1 && e.users >= 1 && e.last != t
    ensures var r := M.Access(e, t, single, pc);
            && UsersOk(r.lock, AfterAccess(e, who, t, pc)) && (e.users >= 1 ==> r.lock.users >= 1 && r.lock.last == e.last)
            && (r.got ==> HolderOk(r.lock, t)) && (e.users >= 2 ==> r.lock.users >= 2)
  {
  }

  lemma FreedOk(g: Os, m: LockId)
    requires LocksOk(g) && m in g.locks
    ensures LocksOk(Freed(g, m)) && Grows(g, Freed(g, m)) && Freed(g, m).q == g.q
  {
    var h := Freed(g, m);
    forall n | n in h.locks ensures UsersOk(h.locks[n], UsersOf(h, n)) { assert UsersOf(h, n) == UsersOf(g, n); }
  }

  lemma QueueOk(g: Os, e: Q.Event)
    requires LocksOk(g)
    ensures LocksOk(Queue(g, e)) && Grows(g, Queue(g, e))
  {
    var h := Queue(g, e);
    forall n | n in h.locks ensures UsersOk(h.locks[n], UsersOf(h, n)) { assert UsersOf(h, n) == UsersOf(g, n); }
  }

  lemma WakenOk<L>(t: Tid, c: Ctx<L>, cond: int, all: bool, g: Os)
    requires LocksOk(g) && CtlOk(g, t, c)
    ensures var a := Waken(c, cond, all, g); !a.Stuck? ==> var h := Effect(a, g); LocksOk(h) && Grows(g, h) && CtlOk(h, t, a.next) && !a.Access?
  {
    QueueOk(g, Q.Broadcast(cond));
    QueueOk(g, Q.Signal(cond));
  }

  lemma BeginOk<L>(t: Tid, c: Ctx<L>, call: Call<L>, g: Os)
    requires LocksOk(g) && !Begin(t, c, call, g).Stuck? && c.ctl.User?
    ensures var a := Begin(t, c, call, g); var h := Effect(a, g);
            LocksOk(h) && Grows(g, h) && CtlOk(h, t, a.next) && (a.Access? ==> h.q == g.q)
  {
    match call
    case MutexUnlock(m, _) => FreedOk(g, m);
    case CondWait(cond, m, _) => FreedOk(g, m); QueueOk(Freed(g, m), Q.CondWait(cond));
    case CondSignal(cond, next) => if c.token { WakenOk(t, c.(st := next), cond, false, g); }
    case CondBroadcast(cond, next) => if c.token { WakenOk(t, c.(st := next), cond, true, g); }
    case _ =>
  }

  lemma TurnOk<L>(t: Tid, c: Ctx<L>, call: Call<L>, g: Os)
    requires LocksOk(g) && !TakeTurn(t, c, call, g).Stuck?
    ensures var a := TakeTurn(t, c, call, g); var h := Effect(a, g);
            LocksOk(h) && Grows(g, h) && CtlOk(h, t, a.next) && !a.Access?
  {
    match call
    case CondSignal(cond, next) => WakenOk(t, c.(ctl := Handing(next)), cond, false, g);
    case CondBroadcast(cond, next) => WakenOk(t, c.(ctl := Handing(next)), cond, true, g);
    case BarrierWait(b, _) => QueueOk(g, Q.BarrierWait(b));
    case _ =>
  }

  lemma EnterOk<L>(t: Tid, c: Ctx<L>, m: LockId, next: L, g: Os)
    requires LocksOk(g) && m in g.locks
    ensures var a := EnterLock(t, c, m, next, g); LocksOk(a.g) && Grows(g, a.g) && CtlOk(a.g, t, a.next) && a.g.q == g.q
  {
    var e, who := g.locks[m], UsersOf(g, m);
    var h := EnterLock(t, c, m, next, g).g;
    assert UsersOk(e, AfterEnter(e, who, t));
    forall n | n in h.locks ensures UsersOk(h.locks[n], UsersOf(h, n)) {
      if n != m { assert UsersOf(h, n) == UsersOf(g, n); }
    }
  }

  lemma RetakeOk<L>(t: Tid, c: Ctx<L>, m: LockId, next: L, g: Os)
    requires LocksOk(g) && m in g.locks
    ensures var a := Retake(t, c, m, next, g); LocksOk(a.g) && Grows(g, a.g) && CtlOk(a.g, t, a.next) && a.g.q == g.q
  {
    var e, who := g.locks[m], UsersOf(g, m);
    var r := Acquire(e, t, Single(g));
    if !e.acquired { TryUsers(e.(acquired := true), who, t, Single(g), Counts(m, false)); }
    OneLock(g, t, m, r.lock, r.ok, if e.acquired then who else AfterCount(e, who, t));
  }

  /** Whatever a thread does, locks and its own place stay in order. */
  lemma ActionOk<L>(code: Code<L>, t: Tid, c: Ctx<L>, v: seq<Page>, g: Os)
    requires LocksOk(g) && CtlOk(g, t, c) && !Do(code, t, c, v, g).Stuck?
    ensures var a := Do(code, t, c, v, g); var h := Effect(a, g);
            LocksOk(h) && Grows(g, h) && CtlOk(h, t, a.next) && (a.Access? ==> h.q == g.q)
  {
    match c.ctl
    case User => BeginOk(t, c, code(t, c.st, v), g);
    case Entering(m, next) => EnterOk(t, c, m, next, g);
    case Locking(pc, next) => if pc.Denied? { QueueOk(g, Q.PutToken); } else if !(pc.Wants? && !c.token) { TryOk(t, c, pc, next, g); }
    case Turn(call) => TurnOk(t, c, call, g);
    case Waking(m, next) => RetakeOk(t, c, m, next, g);
    case Handing(_) => QueueOk(g, Q.PutToken);
  }

  // ---------- other threads ----------

  /** A thread that takes no step. */
  lemma OtherOk<L>(s: Sys<Ctx<L>, Os>, r: Sys<Ctx<L>, Os>, u: Tid)
    requires ThreadOk(s, u) && u in s.th && u in r.th && r.th[u] == s.th[u] && Grows(s.g, r.g)
    requires AtBarrier(r.g.q, u) ==> AtBarrier(s.g.q, u)
    requires Rested(r, u) ==> AtBarrier(s.g.q, u) || (Rested(s, u) && (s.pending == 0 ==> r.pending == 0))
    requires r.th[u].waiting && Expected(s, u) ==> Expected(r, u)
    ensures ThreadOk(r, u)
  {
  }

  lemma HeadPending(ring: seq<Tid>, pending: nat)
    requires Distinct(ring) && 0 < pending <= |ring|
    ensures ring[0] !in ring[pending..]
  {
  }

  // ---------- parallel phases ----------

  /** What a thread does without the token. */
  lemma QuietAction<L>(code: Code<L>, t: Tid, c: Ctx<L>, v: seq<Page>, g: Os)
    requires LocksOk(g) && CtlOk(g, t, c) && RestOk(true, c) && !Do(code, t, c, v, g).Stuck?
    ensures var a := Do(code, t, c, v, g);
            && (a.Store? || a.Access? || a.Sync?) && (a.Store? ==> Free(a.next)) && (a.Sync? ==> Comes(a.next))
            && (a.Access? ==> RestOk(true, a.next) && a.g.q == g.q)
  {
  }

  /** A step of a parallel phase, for the thread that takes it. */
  lemma LocalQuiet<L>(code: Code<L>, s: Sys<Ctx<L>, Os>, t: Tid) returns (w: Solo<Ctx<L>, Os>)
    requires Inv(s) && s.pending == 0 && Enabled(Compiled(code), s, t)
    ensures w == LocalStep(Compiled(code), s.sh, t, Of(s, t)) && Grows(s.g, w.g) && LocksOk(w.g) && CtlOk(w.g, t, w.x.st)
    ensures (if w.x.waiting then Comes(w.x.st) else RestOk(true, w.x.st)) && w.g.q == s.g.q
  {
    var c, v := s.th[t].st, View(s.sh, s.th[t].dirty);
    assert ThreadOk(s, t) && Rested(s, t);
    QuietAction(code, t, c, v, s.g);
    ActionOk(code, t, c, v, s.g);
    w := LocalStep(Compiled(code), s.sh, t, Of(s, t));
  }

  lemma NotAtBarrier<L>(s: Sys<Ctx<L>, Os>, u: Tid)
    requires Queued(s) && u in s.ring
    ensures !AtBarrier(s.g.q, u)
  {
    assert Q.Is(s.g.q, u, Q.InRing);
  }

  lemma ParallelKeeps<L>(code: Code<L>, s: Sys<Ctx<L>, Os>, t: Tid)
    requires Inv(s) && s.pending == 0 && Enabled(Compiled(code), s, t)
    ensures var r := Step(Compiled(code), false, s, t); Kept(r) && r.g.q == s.g.q
  {
    var r := Step(Compiled(code), false, s, t);
    StepIsLocal(Compiled(code), s, t);
    var w := LocalQuiet(code, s, t);
    NotAtBarrier(s, t);
    forall u ensures ThreadOk(r, u) { ParallelThread(s, r, t, w, u); }
  }

  lemma ParallelThread<L>(s: Sys<Ctx<L>, Os>, r: Sys<Ctx<L>, Os>, t: Tid, w: Solo<Ctx<L>, Os>, u: Tid)
    requires Inv(s) && s.pending == 0 && t in s.ring && r.ring == s.ring && r.th == s.th[t := w.x] && r.g == w.g
    requires r.pending != 0 ==> r.pending == |r.ring| && AllWaiting(r) && !r.began
    requires Grows(s.g, w.g) && CtlOk(w.g, t, w.x.st) && if w.x.waiting then Comes(w.x.st) else RestOk(true, w.x.st)
    requires w.g.q == s.g.q && !AtBarrier(s.g.q, t)
    ensures ThreadOk(r, u)
  {
    assert ThreadOk(s, u);
    if u in s.th && u != t { OtherOk(s, r, u); }
  }

  // ---------- serial phases ----------

  /** What an action of the token holder does to the queues, as an operation on them. */
  ghost predicate Queues<L>(t: Tid, a: Action<Ctx<L>, Os>, g: Os, e: Q.Event) {
    match a
    case Wake(who, _, h) =>
      && (e.Signal? || e.Broadcast?) && e.c in g.q.conds && g.q.conds[e.c].list != [] && h.q == Q.Step(g.q, e)
      && who == if e.Signal? then [g.q.conds[e.c].list[0]] else g.q.conds[e.c].list
    case Release(next, h) => e == Q.PutToken && h.q == Q.Step(g.q, e) && RestOk(false, next)
    case Sleep(next, h) =>
      && h.q == Q.Step(g.q, e)
      && ((e.CondWait? && e.c in g.q.conds)
          || (e.BarrierWait? && e.b in g.q.barriers && g.q.barriers[e.b].count + 1 != g.q.barriers[e.b].max && Free(next)))
    case Gather(who, next, h) =>
      && e.BarrierWait? && e.b in g.q.barriers && g.q.barriers[e.b].count + 1 == g.q.barriers[e.b].max && g.q.ring == [t]
      && who == g.q.barriers[e.b].list && h.q == Q.Step(g.q, e) && Free(next)
    case _ => Effect(a, g).q == g.q
  }

  lemma ActionQueues<L>(code: Code<L>, t: Tid, c: Ctx<L>, v: seq<Page>, g: Os) returns (e: Q.Event)
    requires LocksOk(g) && CtlOk(g, t, c) && !Do(code, t, c, v, g).Stuck?
    ensures Queues(t, Do(code, t, c, v, g), g, e)
  {
    e := Q.PutToken;
    match c.ctl
    case User =>
      match code(t, c.st, v) {
        case CondSignal(cond, _) => e := Q.Signal(cond);
        case CondBroadcast(cond, _) => e := Q.Broadcast(cond);
        case CondWait(cond, _, _) => e := Q.CondWait(cond);
        case _ =>
      }
    case Turn(call) =>
      match call {
        case CondSignal(cond, _) => e := Q.Signal(cond);
        case CondBroadcast(cond, _) => e := Q.Broadcast(cond);
        case BarrierWait(b, _) => e := Q.BarrierWait(b);
        case _ =>
      }
    case _ =>
  }

  /** Those on a list sleep, and each is there once. */
  lemma ListSleeps<L>(s: Sys<Ctx<L>, Os>, list: seq<Tid>, p: Q.Place)
    requires Queued(s) && p != Q.InRing && Distinct(list) && forall u :: u in list ==> Q.Is(s.g.q, u, p)
    ensures Sleeping(s, list) && forall u :: u in list ==> u in s.g.q.at && s.g.q.at[u] == p
  {
    forall u | u in list ensures u in s.th && u !in s.ring && u in s.g.q.at && s.g.q.at[u] == p {
      assert Q.Is(s.g.q, u, p);
      assert Q.Is(s.g.q, u, Q.InRing) <==> u in s.ring;
    }
  }

  lemma CondSleeps<L>(s: Sys<Ctx<L>, Os>, cond: int)
    requires Queued(s) && cond in s.g.q.conds && s.g.q.conds[cond].list != []
    ensures var list := s.g.q.conds[cond].list;
            Sleeping(s, list) && Sleeping(s, [list[0]]) && (forall u :: u in list ==> !AtBarrier(s.g.q, u)) && s.g.q.conds[cond].count == |list|
  {
    var list := s.g.q.conds[cond].list;
    forall u | u in list ensures Q.Is(s.g.q, u, Q.AtCond(cond)) {}
    ListSleeps(s, list, Q.AtCond(cond));
    assert list[0] in list;
  }

  lemma BarrierSleeps<L>(s: Sys<Ctx<L>, Os>, b: int)
    requires Queued(s) && b in s.g.q.barriers
    ensures var list := s.g.q.barriers[b].list; Sleeping(s, list) && forall u :: u in list ==> AtBarrier(s.g.q, u)
  {
    var list := s.g.q.barriers[b].list;
    forall u | u in list ensures Q.Is(s.g.q, u, Q.AtBarrier(b)) {}
    ListSleeps(s, list, Q.AtBarrier(b));
  }

  /** What the token holder's step leaves: the ring, the turns to come, its own context, queues and locks. */
  ghost predicate Leaves<L>(s: Sys<Ctx<L>, Os>, r: Sys<Ctx<L>, Os>, t: Tid, ring: seq<Tid>, pending: nat, c: Ctx<L>, g: Os) {
    && r.ring == ring && r.pending == pending && r.g == g && t in s.th && t in r.th && r.th[t].st == c && !r.th[t].waiting
    && (forall u :: u in r.th <==> u in s.th)
    && (forall u :: u in s.th && u != t ==> r.th[u] == s.th[u])
  }

  /** A step that lets the token be. */
  lemma StaysThreads<L>(s: Sys<Ctx<L>, Os>, r: Sys<Ctx<L>, Os>, t: Tid, c: Ctx<L>, g: Os)
    requires Inv(s) && s.pending > 0 && t == s.ring[0] && Leaves(s, r, t, s.ring, s.pending, c, g)
    requires g.q == s.g.q && Grows(s.g, g) && CtlOk(g, t, c)
    ensures forall u :: ThreadOk(r, u)
  {
    HeadPending(s.ring, s.pending);
    NotAtBarrier(s, t);
    forall u ensures ThreadOk(r, u) {
      assert ThreadOk(s, u);
      if u in s.th && u != t { OtherOk(s, r, u); }
    }
  }

  /** Threads with a turn to come, or past it, when the first turn is over. */
  lemma StillRested(ring: seq<Tid>, pending: nat, u: Tid)
    requires Distinct(ring) && 0 < pending <= |ring| && u != ring[0]
    ensures u in ring[1..][pending - 1..] <==> u in ring[pending..]
    ensures u in (ring[1..] + [ring[0]])[pending - 1..] <==> u in ring[pending..]
    ensures pending == 1 ==> (u in ring ==> u in ring[pending..])
  {
    assert ring[1..][pending - 1..] == ring[pending..];
    assert (ring[1..] + [ring[0]])[pending - 1..] == ring[pending..] + [ring[0]];
  }

  /** The turn of t is over. */
  lemma OverThreads<L>(s: Sys<Ctx<L>, Os>, r: Sys<Ctx<L>, Os>, t: Tid, sleeps: bool, c: Ctx<L>, g: Os)
    requires Inv(s) && s.pending > 0 && t == s.ring[0]
    requires Leaves(s, r, t, if sleeps then s.ring[1..] else s.ring[1..] + [t], s.pending - 1, c, g) && !r.began
    requires Grows(s.g, g) && CtlOk(g, t, c) && forall u :: u != t && AtBarrier(g.q, u) ==> AtBarrier(s.g.q, u)
    requires if sleeps then (AtBarrier(g.q, t) ==> Free(c)) else RestOk(false, c) && !AtBarrier(g.q, t)
    ensures forall u :: ThreadOk(r, u)
  {
    forall u ensures ThreadOk(r, u) {
      assert ThreadOk(s, u);
      if u in s.th && u != t {
        StillRested(s.ring, s.pending, u);
        OtherOk(s, r, u);
      }
    }
  }

  /** Sleepers come in behind t. */
  lemma WokenThreads<L>(s: Sys<Ctx<L>, Os>, r: Sys<Ctx<L>, Os>, t: Tid, who: seq<Tid>, c: Ctx<L>, g: Os)
    requires Inv(s) && s.pending > 0 && t == s.ring[0] && Sleeping(s, who)
    requires Leaves(s, r, t, [t] + who + s.ring[1..], s.pending + |who|, c, g)
    requires Grows(s.g, g) && CtlOk(g, t, c) && !AtBarrier(g.q, t) && forall u :: AtBarrier(g.q, u) ==> AtBarrier(s.g.q, u)
    ensures forall u :: ThreadOk(r, u)
  {
    assert r.ring[r.pending..] == s.ring[s.pending..];
    HeadPending(s.ring, s.pending);
    forall u ensures ThreadOk(r, u) {
      assert ThreadOk(s, u);
      if u in s.th && u != t {
        assert u in s.ring[s.pending..] ==> u in s.ring;
        OtherOk(s, r, u);
      }
    }
  }

  /** All those at a barrier run on. */
  lemma GatheredThreads<L>(s: Sys<Ctx<L>, Os>, r: Sys<Ctx<L>, Os>, t: Tid, who: seq<Tid>, c: Ctx<L>, g: Os)
    requires Inv(s) && s.pending > 0 && s.ring == [t] && (forall u :: u in who ==> AtBarrier(s.g.q, u))
    requires Leaves(s, r, t, who + [t], 0, c, g)
    requires Grows(s.g, g) && CtlOk(g, t, c) && Free(c) && forall u :: AtBarrier(g.q, u) ==> AtBarrier(s.g.q, u)
    ensures forall u :: ThreadOk(r, u)
  {
    forall u ensures ThreadOk(r, u) {
      assert ThreadOk(s, u);
      if u in s.th && u != t { OtherOk(s, r, u); }
    }
  }

  // ---------- queues under the token ----------

  /** Everything but joins and exits. */
  ghost predicate Plain(e: Q.Event) {
    e.PutToken? || e.CondWait? || e.Signal? || e.Broadcast? || e.BarrierWait?
  }

  /** Those whom an operation moves, and where to. */
  ghost function Moved(q: Q.State, e: Q.Event): seq<Tid>
    requires Q.Enabled(q, e) && Plain(e)
  {
    match e
    case PutToken => []
    case CondWait(_) => [q.ring[0]]
    case Signal(c) => if q.conds[c].count == 0 || q.conds[c].list == [] then [] else [q.conds[c].list[0]]
    case Broadcast(c) => if q.conds[c].count == 0 then [] else q.conds[c].list
    case BarrierWait(b) => if q.barriers[b].count + 1 == q.barriers[b].max then q.barriers[b].list else [q.ring[0]]
    case _ => []
  }

  ghost function MovedTo(q: Q.State, e: Q.Event): Q.Place
    requires Q.Enabled(q, e) && Plain(e)
  {
    match e
    case CondWait(c) => Q.AtCond(c)
    case BarrierWait(b) => if q.barriers[b].count + 1 == q.barriers[b].max then Q.InRing else Q.AtBarrier(b)
    case _ => Q.InRing
  }

  ghost predicate Moves(q: Q.State, e: Q.Event)
    requires Q.Enabled(q, e) && Plain(e)
  {
    var r := Q.Step(q, e);
    r.back == q.back && r.joins == q.joins && r.at == Q.Move(q.at, Moved(q, e), MovedTo(q, e))
  }

  lemma BarrierMoves(q: Q.State, b: int)
    requires Q.Enabled(q, Q.BarrierWait(b))
    ensures Moves(q, Q.BarrierWait(b))
  {
  }

  lemma CondWaitMoves(q: Q.State, c: int)
    requires Q.Enabled(q, Q.CondWait(c))
    ensures Moves(q, Q.CondWait(c))
  {
  }

  lemma SignalMoves(q: Q.State, c: int)
    requires Q.Enabled(q, Q.Signal(c))
    ensures Moves(q, Q.Signal(c))
  {
    NoneMoved(q.at);
  }

  lemma BroadcastMoves(q: Q.State, c: int)
    requires Q.Enabled(q, Q.Broadcast(c))
    ensures Moves(q, Q.Broadcast(c))
  {
    NoneMoved(q.at);
  }

  lemma PlainEffect(q: Q.State, e: Q.Event)
    requires Q.Enabled(q, e) && Plain(e)
    ensures Moves(q, e)
  {
    if e.BarrierWait? { BarrierMoves(q, e.b); }
    else if e.CondWait? { CondWaitMoves(q, e.c); }
    else if e.Signal? { SignalMoves(q, e.c); }
    else if e.Broadcast? { BroadcastMoves(q, e.c); }
    else { NoneMoved(q.at); }
  }

  lemma NoneMoved(at: map<Tid, Q.Place>)
    ensures Q.Move(at, [], Q.InRing) == at
  {
  }

  lemma MovedAt(q: Q.State, e: Q.Event)
    requires Q.Inv(q) && Q.Enabled(q, e) && Plain(e)
    ensures forall u :: u in Moved(q, e) ==> u in q.at
  {
    forall u | u in Moved(q, e) ensures u in q.at {
      assert Q.Is(q, u, Q.InRing) ==> u in q.at;
      match e
      case Signal(c) => assert Q.Is(q, u, Q.AtCond(c));
      case Broadcast(c) => assert Q.Is(q, u, Q.AtCond(c));
      case BarrierWait(b) => assert u != q.ring[0] ==> Q.Is(q, u, Q.AtBarrier(b));
      case _ =>
    }
  }

  lemma QueueKeeps(q: Q.State, e: Q.Event)
    requires Q.Inv(q) && Q.Enabled(q, e) && Plain(e)
    ensures var r := Q.Step(q, e); Q.Inv(r) && r.back == q.back && r.joins == q.joins
    ensures forall u :: u in Q.Step(q, e).at <==> u in q.at
    ensures forall u :: AtBarrier(Q.Step(q, e), u) ==> AtBarrier(q, u) || u == q.ring[0]
    ensures e.PutToken? || e.Signal? || e.Broadcast? ==> forall u :: AtBarrier(Q.Step(q, e), u) ==> AtBarrier(q, u)
  {
    Q.StepKeepsInv(q, e);
    PlainEffect(q, e);
    MovedAt(q, e);
  }

  /** The queues after a step, and the machine's ring. */
  lemma QueuedStep<L>(s: Sys<Ctx<L>, Os>, r: Sys<Ctx<L>, Os>, e: Q.Event)
    requires Queued(s) && Q.Enabled(s.g.q, e) && Plain(e) && r.g.q == Q.Step(s.g.q, e) && r.ring == r.g.q.ring
    requires forall u :: u in r.th <==> u in s.th
    ensures Queued(r)
    ensures forall u :: AtBarrier(r.g.q, u) ==> AtBarrier(s.g.q, u) || u == s.ring[0]
    ensures e.PutToken? || e.Signal? || e.Broadcast? ==> forall u :: AtBarrier(r.g.q, u) ==> AtBarrier(s.g.q, u)
  {
    QueueKeeps(s.g.q, e);
  }

  ghost predicate Kept<L>(r: Sys<Ctx<L>, Os>) {
    Queued(r) && LocksOk(r.g) && forall u :: ThreadOk(r, u)
  }

  /** The token holder's step, given what its action is to locks and queues. */
  ghost predicate Acts<L>(s: Sys<Ctx<L>, Os>, t: Tid, a: Action<Ctx<L>, Os>, e: Q.Event) {
    && Inv(s) && s.pending > 0 && s.began && s.ring != [] && t == s.ring[0] && t in s.th && InRange(s.sh, a) && Queues(t, a, s.g, e)
    && var h := Effect(a, s.g); LocksOk(h) && Grows(s.g, h) && CtlOk(h, t, a.next)
  }

  lemma TurnStays<L>(s: Sys<Ctx<L>, Os>, t: Tid, a: Action<Ctx<L>, Os>, e: Q.Event)
    requires Acts(s, t, a, e) && (a.Store? || a.Access? || a.Sync? || a.Publish?)
    ensures Kept(DoTurn(false, s, t, a))
  {
    var r := DoTurn(false, s, t, a);
    assert ThreadOk(s, t) && Leads(s, t);
    StaysThreads(s, r, t, r.th[t].st, r.g);
  }

  lemma TurnWakes<L>(s: Sys<Ctx<L>, Os>, t: Tid, a: Action<Ctx<L>, Os>, e: Q.Event)
    requires Acts(s, t, a, e) && a.Wake?
    ensures Kept(DoTurn(false, s, t, a)) && Sleeping(s, a.who)
  {
    var r := DoTurn(false, s, t, a);
    CondSleeps(s, e.c);
    R.Behind(s.ring, a.who);
    QueuedStep(s, r, e);
    NotAtBarrier(s, t);
    WokenThreads(s, r, t, a.who, a.next, a.g);
  }

  lemma TurnPasses<L>(s: Sys<Ctx<L>, Os>, t: Tid, a: Action<Ctx<L>, Os>, e: Q.Event)
    requires Acts(s, t, a, e) && a.Release?
    ensures Kept(DoTurn(false, s, t, a))
  {
    var r := DoTurn(false, s, t, a);
    SerialTurn(false, s, t, a);
    QueuedStep(s, r, e);
    NotAtBarrier(s, t);
    OverThreads(s, r, t, false, a.next, a.g);
  }

  lemma TurnSleeps<L>(s: Sys<Ctx<L>, Os>, t: Tid, a: Action<Ctx<L>, Os>, e: Q.Event)
    requires Acts(s, t, a, e) && a.Sleep?
    ensures Kept(DoTurn(false, s, t, a))
  {
    var r := DoTurn(false, s, t, a);
    SerialTurn(false, s, t, a);
    QueuedStep(s, r, e);
    OverThreads(s, r, t, true, a.next, a.g);
  }

  lemma TurnGathers<L>(s: Sys<Ctx<L>, Os>, t: Tid, a: Action<Ctx<L>, Os>, e: Q.Event)
    requires Acts(s, t, a, e) && a.Gather?
    ensures Kept(DoTurn(false, s, t, a)) && Alone(s, a.who)
  {
    var r := DoTurn(false, s, t, a);
    BarrierSleeps(s, e.b);
    SerialGather(false, s, t, a);
    assert a.who + s.ring[1..] + [t] == a.who + [t];
    QueuedStep(s, r, e);
    NotAtBarrier(s, t);
    GatheredThreads(s, r, t, a.who, a.next, a.g);
  }

  lemma SerialKeeps<L>(code: Code<L>, s: Sys<Ctx<L>, Os>, t: Tid)
    requires Inv(s) && s.pending > 0 && Enabled(Compiled(code), s, t)
    ensures Kept(Step(Compiled(code), false, s, t))
  {
    if !s.began {
      assert ThreadOk(s, t);
      StaysThreads(s, Step(Compiled(code), false, s, t), t, s.th[t].st, s.g);
    } else {
      TurnKeeps(code, s, t);
    }
  }

  lemma TurnKeeps<L>(code: Code<L>, s: Sys<Ctx<L>, Os>, t: Tid)
    requires Inv(s) && s.pending > 0 && s.began && Enabled(Compiled(code), s, t)
    ensures Kept(DoTurn(false, s, t, Next(Compiled(code), s, t)))
  {
    var c, v, a := s.th[t].st, View(s.sh, s.th[t].dirty), Next(Compiled(code), s, t);
    assert ThreadOk(s, t);
    ActionOk(code, t, c, v, s.g);
    var e := ActionQueues(code, t, c, v, s.g);
    match a
    case Wake(_, _, _) => TurnWakes(s, t, a, e);
    case Release(_, _) => TurnPasses(s, t, a, e);
    case Sleep(_, _) => TurnSleeps(s, t, a, e);
    case Gather(_, _, _) => TurnGathers(s, t, a, e);
    case _ => TurnStays(s, t, a, e);
  }

  /** Every step of every program keeps all of it. */
  lemma StepKeepsInv<L>(code: Code<L>, s: Sys<Ctx<L>, Os>, t: Tid)
    requires Inv(s) && Enabled(Compiled(code), s, t)
    ensures Inv(Step(Compiled(code), false, s, t))
  {
    Machine.StepKeepsInv(Compiled(code), s, t);
    StepCounts(Compiled(code), s, t);
    if s.pending == 0 { ParallelKeeps(code, s, t); } else { SerialKeeps(code, s, t); }
  }

  // ---------- how locks are shared in a parallel phase ----------

  /** For each phase and lock, whether newcomers may count themselves in, or the owner may call. */
  type Claims = (nat, LockId) -> bool

  /** mutex_lock of m may look at the number of users: of a lock that is open any thread but its owner, and of any other
      with one user only that one. */
  ghost predicate MayEnter(open: LockId -> bool, g: Os, t: Tid, m: LockId) {
    m in g.locks && g.locks[m].users > 0 ==> if open(m) then g.locks[m].last != t else g.locks[m].users == 1 ==> g.locks[m].last == t
  }

  ghost function OpenIn<L>(k: Claims, s: Sys<Ctx<L>, Os>): LockId -> bool {
    m => |s.ring| != 1 && k(s.round, m)
  }

  /** The claims are kept: in a parallel phase the owner of a lock does not call mutex_lock for it if another thread does. */
  ghost predicate KeepsClaims<L>(k: Claims, s: Sys<Ctx<L>, Os>, t: Tid) {
    s.pending == 0 && |s.ring| != 1 && t in s.th && s.th[t].st.ctl.Entering? ==> MayEnter(OpenIn(k, s), s.g, t, s.th[t].st.ctl.m)
  }

  ghost function Good<L>(k: Claims): (Sys<Ctx<L>, Os>, Tid) -> bool {
    (s, t) => KeepsClaims(k, s, t)
  }

  /** To each lock one thread of the ring: its owner, or who holds it. */
  ghost function OwnerOf(g: Os, ring: seq<Tid>, m: LockId): Tid {
    if m in g.locks && g.locks[m].users == 1 && g.locks[m].last in ring then g.locks[m].last
    else if m in g.holder && g.holder[m] in ring then g.holder[m]
    else if ring != [] then ring[0] else 0
  }

  ghost function OwnersOf(g: Os, ring: seq<Tid>): LockId -> Tid {
    m => OwnerOf(g, ring, m)
  }

  /** How locks are shared in the phase that begins in s. */
  ghost function SharesOf<L>(k: Claims, s: Sys<Ctx<L>, Os>): Shares {
    Shares(OwnersOf(s.g, s.ring), OpenIn(k, s), s.ring)
  }

  /** The shares suit the state. */
  ghost predicate Suits<L>(d: Shares, s: Sys<Ctx<L>, Os>) {
    && Owning(d) && d.ring == s.ring && (|d.ring| == 1 ==> forall m :: !d.open(m))
    && (forall m :: m in s.g.locks && s.g.locks[m].users == 1 && s.g.locks[m].last in s.ring ==> d.own(m) == s.g.locks[m].last)
    && (forall m :: m in s.g.holder && s.g.holder[m] in s.ring ==> d.own(m) == s.g.holder[m])
  }

  /** Where a thread may be in mutex_lock: newcomers at open locks, owners at the others. */
  ghost predicate PlaceOk(d: Shares, g: Os, t: Tid, pc: Pc) {
    pc.Idle? || (pc.m in g.locks && var e := g.locks[pc.m];
      match pc
      case Looks(m) => if d.open(m) then e.last != t else e.users == 1 && e.last == t
      case Bumps(m) => d.open(m)
      case Writes(m, _) => d.open(m)
      case Tests(m, _) => !d.open(m) && e.users == 1 && e.last == t
      case Sets(m, _) => !d.open(m) && e.users == 1 && e.last == t
      case Counts(m, _) => !d.open(m) && e.users == 1 && e.last == t
      case _ => true)
  }

  ghost predicate InPlace<L>(d: Shares, g: Os, t: Tid, x: Thread<Ctx<L>>) {
    |d.ring| != 1 && !x.waiting && x.st.ctl.Locking? ==> PlaceOk(d, g, t, x.st.ctl.pc)
  }

  /** What holds throughout a phase with these shares and pages. */
  ghost predicate Fits<L>(d: Shares, sh: TwinCommit.Shared, s: Sys<Ctx<L>, Os>) {
    && Inv(s) && SameButUsers(s.sh, sh) && Suits(d, s)
    && forall t :: t in s.ring && t in s.th ==> InPlace(d, s.g, t, s.th[t])
  }

  /** In the phase that begins in base. */
  ghost function Fit<L>(d: Shares, base: Sys<Ctx<L>, Os>): Sys<Ctx<L>, Os> -> bool {
    s => Fits(d, base.sh, s) && s.round == base.round
  }

  /** A newcomer has counted itself in, if somebody has used the lock. */
  ghost function CountIn(g: Os, t: Tid, m: LockId): Os
    requires m in g.locks
  {
    if g.locks[m].users > 0 then g.(locks := g.locks[m := g.locks[m].(users := 2)], who := g.who[m := UsersOf(g, m) + {t}]) else g
  }

  /** A newcomer at an open lock, all at once. */
  ghost function Newcomer<L>(t: Tid, w: Solo<Ctx<L>, Os>, m: LockId, next: L): Solo<Ctx<L>, Os>
    requires m in w.g.locks
  {
    Solo(w.x.(st := w.x.st.(ctl := Locking(Wants(m), next))), CountIn(w.g, t, m))
  }

  /** A newcomer at an open lock: it counts itself in, whatever the number is that it reads. */
  ghost predicate ComesNew<L>(open: LockId -> bool, w: Solo<Ctx<L>, Os>) {
    var ctl := Canon(open, w.x.st.ctl);
    !w.x.waiting && ctl.Entering? && open(ctl.m) && ctl.m in w.g.locks
  }

  ghost function NextOf<L>(code: Code<L>, d: Shares, sh: TwinCommit.Shared, t: Tid, w: Solo<Ctx<L>, Os>): Solo<Ctx<L>, Os>
    requires TwinCommit.WellFormed(sh)
  {
    if ComesNew(d.open, w) then var ctl := Canon(d.open, w.x.st.ctl); Newcomer(t, w, ctl.m, ctl.next)
    else LocalStep(Compiled(code), sh, t, w)
  }

  ghost predicate OkFor<L>(d: Shares, t: Tid, w: Solo<Ctx<L>, Os>) {
    var ctl := Canon(d.open, w.x.st.ctl);
    |d.ring| != 1 && !w.x.waiting && ctl.Entering? ==> MayEnter(d.open, w.g, t, ctl.m)
  }

  ghost function LensOf<L>(code: Code<L>, d: Shares, sh: TwinCommit.Shared): Lens<Ctx<L>, Os>
    requires TwinCommit.WellFormed(sh)
  {
    Lens((t, v, w) => SameSolo(d, t, v, w), (t, w) => NextOf(code, d, sh, t, w), (t, w) => OkFor(d, t, w))
  }

  lemma LensIsEquivalence<L(!new)>(code: Code<L>, d: Shares, sh: TwinCommit.Shared)
    requires TwinCommit.WellFormed(sh)
    ensures Equivalence(LensOf(code, d, sh)) && Settles(LensOf(code, d, sh))
  {
    var z := LensOf(code, d, sh);
    SameOsFacts(d);
    forall t: Tid, v: Solo<Ctx<L>, Os>, w: Solo<Ctx<L>, Os>, x: Solo<Ctx<L>, Os> | z.same(t, v, w) && z.same(t, w, x)
      ensures Linked(z, t, v, w, x)
    {
      SameOsTrans(d, t, v.g, w.g, x.g);
    }
  }

  // ---------- what a step of a parallel phase is to the thread that takes it ----------

  /** Steps that are the same give threads that are the same. */
  lemma SameLocal<L>(code: Code<L>, d: Shares, sh: TwinCommit.Shared, t: Tid, v: Solo<Ctx<L>, Os>, w: Solo<Ctx<L>, Os>)
    requires TwinCommit.WellFormed(sh) && SameSolo(d, t, v, w) && !v.x.waiting
    requires SameAction(d, t, Do(code, t, v.x.st, View(sh, v.x.dirty), v.g), Do(code, t, w.x.st, View(sh, w.x.dirty), w.g))
    ensures SameSolo(d, t, LocalStep(Compiled(code), sh, t, v), LocalStep(Compiled(code), sh, t, w))
  {
  }

  /** A step under no lock, or at a lock that is not open. */
  lemma ActionMatches<L>(code: Code<L>, d: Shares, t: Tid, c: Ctx<L>, e: Ctx<L>, view: seq<Page>, g: Os, h: Os)
    requires SameOs(d, t, g, h) && SameCtx(d.open, c, e) && LocksOk(g) && CtlOk(g, t, c) && !Do(code, t, c, view, g).Stuck?
    requires c.ctl.Entering? ==> !d.open(c.ctl.m)
    requires c.ctl.Locking? ==> !Newly(d.open, c.ctl.pc) && (Acquiring(c.ctl.pc) ==> !d.open(c.ctl.pc.m) && d.own(c.ctl.pc.m) == t)
    requires c.ctl.User? ==> var call := code(t, c.st, view); call.MutexUnlock? || call.CondWait? ==> d.own(call.m) == t
    requires c.ctl.Waking? ==> !d.open(c.ctl.m) && d.own(c.ctl.m) == t
    ensures SameAction(d, t, Do(code, t, c, view, g), Do(code, t, e, view, h))
  {
    match c.ctl
    case User => CallMatches(d, t, c, code(t, c.st, view), g, h);
    case Entering(m, next) => assert SameLock(d, t, g, h, m); EnterMatches(d, t, c, m, next, g, h);
    case Locking(pc, next) => assert SameLock(d, t, g, h, pc.m); LockMatches(d, t, c, e, pc, e.ctl.pc, next, g, h);
    case Turn(call) => TurnMatches(d, t, c, call, g, h);
    case Waking(m, next) => assert SameLock(d, t, g, h, m); RetakeMatches(d, t, c, m, next, g, h);
    case Handing(_) => SameQueue(d, t, g, h, Q.PutToken);
  }

  /** A newcomer's way to counting itself in, at an open lock. */
  ghost predicate Newly(open: LockId -> bool, pc: Pc) {
    (pc.Looks? || pc.Bumps? || pc.Writes?) && open(pc.m)
  }

  /** What a newcomer does at an open lock is nothing yet, or all of it. */
  lemma NewcomerSeen<L>(code: Code<L>, d: Shares, sh: TwinCommit.Shared, t: Tid, v: Solo<Ctx<L>, Os>, w: Solo<Ctx<L>, Os>, m: LockId, next: L)
    requires TwinCommit.WellFormed(sh) && SameSolo(d, t, v, w) && !v.x.waiting && LocksOk(v.g) && CtlOk(v.g, t, v.x.st) && !Single(v.g)
    requires Canon(d.open, v.x.st.ctl) == Entering(m, next) && d.open(m) && m in v.g.locks && MayEnter(d.open, v.g, t, m)
    ensures m in w.g.locks
    ensures var n := LocalStep(Compiled(code), sh, t, v); SameSolo(d, t, n, w) || SameSolo(d, t, n, Newcomer(t, w, m, next))
  {
    var c, n := v.x.st, LocalStep(Compiled(code), sh, t, v);
    assert SameLock(d, t, v.g, w.g, m);
    if c.ctl.Entering? {
      NewcomerEnters(d, t, c, m, next, v.g, w.g);
    } else if !c.ctl.pc.Writes? {
      assert n.g.locks == v.g.locks[m := v.g.locks[m]] == v.g.locks;
      SameHistory(d, t, v.g, n.g, w.g, m);
    } else {
      NewcomerWrites(d, t, c, c.ctl.pc, m, next, v.g, w.g);
    }
  }

  /** History may be written again. */
  lemma SameHistory(d: Shares, t: Tid, g: Os, h: Os, i: Os, m: LockId)
    requires SameOs(d, t, g, i) && h == g.(who := g.who[m := UsersOf(g, m)])
    ensures SameOs(d, t, h, i)
  {
    forall n ensures SameLock(d, t, h, i, n) { assert SameLock(d, t, g, i, n) && UsersOf(h, n) == UsersOf(g, n); }
  }

  lemma NewcomerEnters<L>(d: Shares, t: Tid, c: Ctx<L>, m: LockId, next: L, g: Os, h: Os)
    requires SameOs(d, t, g, h) && LocksOk(g) && !Single(g) && d.open(m) && m in g.locks && MayEnter(d.open, g, t, m)
    ensures m in h.locks
    ensures var a := EnterLock(t, c, m, next, g);
            && a.Access? && a.next == c.(ctl := a.next.ctl)
            && ((a.next.ctl == Locking(Looks(m), next) && SameOs(d, t, a.g, h))
                || (a.next.ctl == Locking(Wants(m), next) && SameOs(d, t, a.g, CountIn(h, t, m))))
  {
    var a := EnterLock(t, c, m, next, g);
    assert SameLock(d, t, g, h, m);
    if g.locks[m].users <= 1 {
      SameHistory(d, t, g, a.g, h, m);
    } else {
      var k := CountIn(h, t, m);
      assert SameLock(d, t, a.g, k, m);
      assert a.g.locks == g.locks[m := a.g.locks[m]] && k.locks == h.locks[m := k.locks[m]];
      SameAfter(d, t, g, h, m, a.g, k);
    }
  }

  lemma NewcomerWrites<L>(d: Shares, t: Tid, c: Ctx<L>, pc: Pc, m: LockId, next: L, g: Os, h: Os)
    requires SameOs(d, t, g, h) && LocksOk(g) && PcOk(g, t, pc) && pc.Writes? && pc.m == m && !Single(g) && d.open(m)
    ensures m in h.locks
    ensures var a := TryLock(t, c, pc, next, g);
            a.Access? && a.next == c.(ctl := Locking(Wants(m), next)) && SameOs(d, t, a.g, CountIn(h, t, m))
  {
    var a, k := TryLock(t, c, pc, next, g), CountIn(h, t, m);
    assert SameLock(d, t, g, h, m);
    assert SameLock(d, t, a.g, k, m);
    SameAfter(d, t, g, h, m, a.g, k);
  }

  /** A step of t as t sees it. */
  lemma OwnSeen<L>(code: Code<L>, d: Shares, sh: TwinCommit.Shared, s: Sys<Ctx<L>, Os>, t: Tid, w: Solo<Ctx<L>, Os>)
    requires TwinCommit.WellFormed(sh) && Fits(d, sh, s) && s.pending == 0 && Enabled(Compiled(code), s, t)
    requires SameSolo(d, t, Of(s, t), w) && OkFor(d, t, w)
    ensures var n := LocalStep(Compiled(code), sh, t, Of(s, t)); SameSolo(d, t, n, w) || SameSolo(d, t, n, NextOf(code, d, sh, t, w))
  {
    var v, c := Of(s, t), s.th[t].st;
    var view := View(sh, s.th[t].dirty);
    assert ThreadOk(s, t) && Rested(s, t) && InPlace(d, s.g, t, s.th[t]);
    assert View(s.sh, s.th[t].dirty) == view;
    SingleIsAlone(s, t);
    var ctl := Canon(d.open, c.ctl);
    if ctl.Entering? && d.open(ctl.m) {
      MayEnterToo(d, s, t, w, ctl.m);
      NewcomerSeen(code, d, sh, t, v, w, ctl.m, ctl.next);
    } else {
      OwnLocks(code, d, s, t, view);
      ActionMatches(code, d, t, c, w.x.st, view, s.g, w.g);
      SameLocal(code, d, sh, t, v, w);
    }
  }

  lemma SingleIsAlone<L>(s: Sys<Ctx<L>, Os>, t: Tid)
    requires Queued(s) && t in s.ring
    ensures Single(s.g) <==> s.ring == [t]
    ensures |s.ring| == 1 <==> s.ring == [t]
  {
    assert s.g.q.maxthreads == |s.ring|;
  }

  /** What w may do, s may do: t looks at the number of users. */
  lemma MayEnterToo<L>(d: Shares, s: Sys<Ctx<L>, Os>, t: Tid, w: Solo<Ctx<L>, Os>, m: LockId)
    requires Suits(d, s) && LocksOk(s.g) && t in s.th && CtlOk(s.g, t, s.th[t].st) && InPlace(d, s.g, t, s.th[t]) && !s.th[t].waiting
    requires SameSolo(d, t, Of(s, t), w) && OkFor(d, t, w) && |d.ring| != 1
    requires var ctl := Canon(d.open, s.th[t].st.ctl); ctl.Entering? && ctl.m == m
    ensures m in s.g.locks && MayEnter(d.open, s.g, t, m)
  {
    assert SameLock(d, t, s.g, w.g, m);
  }

  /** Without a newcomer's business a thread deals with its own locks. */
  lemma OwnLocks<L>(code: Code<L>, d: Shares, s: Sys<Ctx<L>, Os>, t: Tid, view: seq<Page>)
    requires Inv(s) && Suits(d, s) && t in s.ring && t in s.th && RestOk(true, s.th[t].st) && InPlace(d, s.g, t, s.th[t]) && !s.th[t].waiting
    requires var ctl := Canon(d.open, s.th[t].st.ctl); ctl.Entering? ==> !d.open(ctl.m)
    requires !Do(code, t, s.th[t].st, view, s.g).Stuck?
    ensures var c := s.th[t].st;
            && (c.ctl.Entering? ==> !d.open(c.ctl.m))
            && (c.ctl.Locking? ==> !Newly(d.open, c.ctl.pc) && (Acquiring(c.ctl.pc) ==> !d.open(c.ctl.pc.m) && d.own(c.ctl.pc.m) == t))
            && (c.ctl.User? ==> var call := code(t, c.st, view); call.MutexUnlock? || call.CondWait? ==> d.own(call.m) == t)
            && !c.ctl.Waking?
  {
    var c := s.th[t].st;
    if |d.ring| == 1 {
      if c.ctl.Locking? { assert ThreadOk(s, t); SoloOwns(d, t, c.ctl.pc.m); }
      if c.ctl.User? && (code(t, c.st, view).MutexUnlock? || code(t, c.st, view).CondWait?) { SoloOwns(d, t, code(t, c.st, view).m); }
    }
  }

  // ---------- what it is to the others ----------

  /** A lock changed within t's part of it is no change to another thread. */
  lemma SameToOther(d: Shares, t: Tid, u: Tid, g: Os, h: Os, m: LockId)
    requires u != t && t in d.ring && m in g.locks && h.q == g.q && m in h.locks && h.locks == g.locks[m := h.locks[m]]
    requires forall n :: n != m ==> UsersOf(h, n) == UsersOf(g, n)
    requires forall x :: x != t ==> (x in UsersOf(h, m) <==> x in UsersOf(g, m))
    requires h.locks[m].last == g.locks[m].last && (h.locks[m].users == g.locks[m].users || (d.open(m) && g.locks[m].users >= 1 && h.locks[m].users >= 1))
    requires d.own(m) == t || (h.locks[m].acquired == g.locks[m].acquired && h.locks[m].budget == g.locks[m].budget && h.holder == g.holder)
    requires h.holder == g.holder || h.holder == g.holder - {m} || h.holder == g.holder[m := t]
    ensures SameOs(d, u, h, g)
  {
    forall n ensures SameLock(d, u, h, g, n) {}
  }

  lemma OthersSeen<L>(code: Code<L>, d: Shares, sh: TwinCommit.Shared, s: Sys<Ctx<L>, Os>, t: Tid, u: Tid)
    requires TwinCommit.WellFormed(sh) && Fits(d, sh, s) && s.pending == 0 && Enabled(Compiled(code), s, t) && u in s.ring && u != t
    ensures SameOs(d, u, LocalStep(Compiled(code), sh, t, Of(s, t)).g, s.g)
  {
    var c, view := s.th[t].st, View(sh, s.th[t].dirty);
    assert ThreadOk(s, t) && Rested(s, t) && InPlace(d, s.g, t, s.th[t]);
    assert View(s.sh, s.th[t].dirty) == view;
    SingleIsAlone(s, t);
    AcquiresOwn(d, s, t);
    SameOsFacts(d);
    ActionToOther(code, d, t, u, c, view, s.g);
  }

  /** Without the token a thread does nothing that another one sees. */
  lemma ActionToOther<L>(code: Code<L>, d: Shares, t: Tid, u: Tid, c: Ctx<L>, view: seq<Page>, g: Os)
    requires u != t && t in d.ring && LocksOk(g) && CtlOk(g, t, c) && RestOk(true, c)
    requires c.ctl.Locking? ==> PlaceOk(d, g, t, c.ctl.pc) && (Acquiring(c.ctl.pc) ==> d.own(c.ctl.pc.m) == t)
    requires forall m :: m in g.holder && g.holder[m] == t ==> d.own(m) == t
    ensures var a := Do(code, t, c, view, g); a.Access? ==> SameOs(d, u, a.g, g)
  {
    var a := Do(code, t, c, view, g);
    if a.Access? {
      match c.ctl
      case User => SameToOther(d, t, u, g, a.g, code(t, c.st, view).m);
      case Entering(m, _) =>
        assert a.g.locks == g.locks[m := a.g.locks[m]];
        SameToOther(d, t, u, g, a.g, m);
      case Locking(pc, next) => LockToOther(d, t, u, c, pc, next, g);
    }
  }

  lemma LockToOther<L>(d: Shares, t: Tid, u: Tid, c: Ctx<L>, pc: Pc, next: L, g: Os)
    requires u != t && t in d.ring && LocksOk(g) && PcOk(g, t, pc) && PlaceOk(d, g, t, pc) && !pc.Denied? && !pc.Wants?
    requires Acquiring(pc) ==> d.own(pc.m) == t
    ensures SameOs(d, u, TryLock(t, c, pc, next, g).g, g)
  {
    var a := TryLock(t, c, pc, next, g);
    assert a.g.locks == g.locks[pc.m := a.g.locks[pc.m]];
    SameToOther(d, t, u, g, a.g, pc.m);
  }

  // ---------- throughout the phase ----------

  /** What a step of t does to the locks: newcomers count themselves in at open locks, and owners take and release. */
  ghost predicate Evolves(d: Shares, t: Tid, g: Os, h: Os) {
    && (forall m :: m in h.locks <==> m in g.locks)
    && (forall m :: m in g.locks ==>
          (h.locks[m].last == g.locks[m].last
           && (h.locks[m].users == g.locks[m].users || (d.open(m) && g.locks[m].users >= 1 && h.locks[m].users >= 2))))
    && (forall m :: m in h.holder ==> (m in g.holder && h.holder[m] == g.holder[m]) || (h.holder[m] == t && d.own(m) == t))
  }

  lemma TryEvolves<L>(d: Shares, t: Tid, c: Ctx<L>, pc: Pc, next: L, g: Os)
    requires LocksOk(g) && PcOk(g, t, pc) && PlaceOk(d, g, t, pc) && !pc.Denied? && !pc.Wants? && !Single(g)
    requires Acquiring(pc) ==> d.own(pc.m) == t
    ensures var a := TryLock(t, c, pc, next, g);
            Evolves(d, t, g, a.g) && (a.next.ctl.Locking? ==> PlaceOk(d, a.g, t, a.next.ctl.pc))
  {
  }

  lemma ActionEvolves<L>(code: Code<L>, d: Shares, t: Tid, c: Ctx<L>, view: seq<Page>, g: Os)
    requires LocksOk(g) && CtlOk(g, t, c) && RestOk(true, c) && !Single(g) && !Do(code, t, c, view, g).Stuck?
    requires c.ctl.Locking? ==> PlaceOk(d, g, t, c.ctl.pc) && (Acquiring(c.ctl.pc) ==> d.own(c.ctl.pc.m) == t)
    requires c.ctl.Entering? ==> MayEnter(d.open, g, t, c.ctl.m)
    ensures var a := Do(code, t, c, view, g);
            && (a.Access? ==> Evolves(d, t, g, a.g) && (a.next.ctl.Locking? ==> PlaceOk(d, a.g, t, a.next.ctl.pc)))
            && (a.Store? ==> a.next.ctl.User?)
  {
    match c.ctl
    case Locking(pc, next) => if !pc.Wants? { TryEvolves(d, t, c, pc, next, g); }
    case _ =>
  }

  /** Owners are entitled to where they are. */
  lemma AcquiresOwn<L>(d: Shares, s: Sys<Ctx<L>, Os>, t: Tid)
    requires Suits(d, s) && t in s.ring && t in s.th && InPlace(d, s.g, t, s.th[t]) && !s.th[t].waiting && |d.ring| != 1
    ensures var c := s.th[t].st; c.ctl.Locking? && Acquiring(c.ctl.pc) ==> d.own(c.ctl.pc.m) == t
  {
  }

  lemma StepEvolves<L>(code: Code<L>, d: Shares, sh: TwinCommit.Shared, s: Sys<Ctx<L>, Os>, t: Tid, w: Solo<Ctx<L>, Os>)
    requires TwinCommit.WellFormed(sh) && Fits(d, sh, s) && s.pending == 0 && Enabled(Compiled(code), s, t) && |d.ring| != 1
    requires SameSolo(d, t, Of(s, t), w) && OkFor(d, t, w)
    ensures var n := LocalStep(Compiled(code), s.sh, t, Of(s, t)); Evolves(d, t, s.g, n.g) && InPlace(d, n.g, t, n.x)
  {
    var c, view := s.th[t].st, View(s.sh, s.th[t].dirty);
    assert ThreadOk(s, t) && Rested(s, t) && InPlace(d, s.g, t, s.th[t]);
    SingleIsAlone(s, t);
    AcquiresOwn(d, s, t);
    if c.ctl.Entering? { assert SameLock(d, t, s.g, w.g, c.ctl.m); }
    ActionEvolves(code, d, t, c, view, s.g);
  }

  lemma PlaceStays<L>(d: Shares, g: Os, h: Os, t: Tid, u: Tid, x: Thread<Ctx<L>>)
    requires Evolves(d, t, g, h) && InPlace(d, g, u, x) && LocksOk(g) && CtlOk(g, u, x.st)
    ensures InPlace(d, h, u, x)
  {
  }

  lemma SuitsStill<L>(d: Shares, t: Tid, s: Sys<Ctx<L>, Os>, r: Sys<Ctx<L>, Os>)
    requires Suits(d, s) && r.ring == s.ring && (|d.ring| != 1 ==> Evolves(d, t, s.g, r.g))
    ensures Suits(d, r)
  {
    if |d.ring| == 1 {
      forall m | true ensures d.own(m) == d.ring[0] { assert d.own(m) in d.ring; }
    }
  }

  lemma FitsNext<L>(code: Code<L>, d: Shares, sh: TwinCommit.Shared, s: Sys<Ctx<L>, Os>, t: Tid, w: Solo<Ctx<L>, Os>)
    requires TwinCommit.WellFormed(sh) && Fits(d, sh, s) && s.pending == 0 && Enabled(Compiled(code), s, t)
    requires SameSolo(d, t, Of(s, t), w) && OkFor(d, t, w)
    ensures Fits(d, sh, Step(Compiled(code), false, s, t))
  {
    var r := Step(Compiled(code), false, s, t);
    StepKeepsInv(code, s, t);
    StepIsLocal(Compiled(code), s, t);
    if |d.ring| != 1 { StepEvolves(code, d, sh, s, t, w); }
    SuitsStill(d, t, s, r);
    forall u | u in r.ring && u in r.th ensures InPlace(d, r.g, u, r.th[u]) {
      assert ThreadOk(s, u);
      if u != t && |d.ring| != 1 { PlaceStays(d, s.g, r.g, t, u, s.th[u]); }
    }
  }

  /** A step as everybody sees it. */
  lemma StepSeen<L>(code: Code<L>, d: Shares, base: Sys<Ctx<L>, Os>, s: Sys<Ctx<L>, Os>, t: Tid, w: Solo<Ctx<L>, Os>)
    requires TwinCommit.WellFormed(base.sh) && Fits(d, base.sh, s) && s.round == base.round && s.pending == 0 && Enabled(Compiled(code), s, t)
    requires SameSolo(d, t, Of(s, t), w) && OkFor(d, t, w)
    ensures Seen(Compiled(code), LensOf(code, d, base.sh), Fit(d, base), s, t, w)
  {
    var sh := base.sh;
    var q := Step(Compiled(code), false, s, t);
    StepIsLocal(Compiled(code), s, t);
    LocalStepSame(Compiled(code), s.sh, sh, t, Of(s, t));
    FitsNext(code, d, sh, s, t, w);
    OwnSeen(code, d, sh, s, t, w);
    forall u | u in s.ring && u != t && u in s.th ensures u in q.th && SameSolo(d, u, Of(q, u), Of(s, u)) {
      OthersSeen(code, d, sh, s, t, u);
    }
  }

  lemma GoodIsOk<L>(k: Claims, d: Shares, sh: TwinCommit.Shared, s: Sys<Ctx<L>, Os>, t: Tid, w: Solo<Ctx<L>, Os>, base: Sys<Ctx<L>, Os>)
    requires Fits(d, sh, s) && s.pending == 0 && t in s.ring && t in s.th && d == SharesOf(k, base) && base.round == s.round
    requires KeepsClaims(k, s, t) && SameSolo(d, t, Of(s, t), w)
    ensures OkFor(d, t, w)
  {
    var ctl := Canon(d.open, w.x.st.ctl);
    if |d.ring| != 1 && !w.x.waiting && ctl.Entering? {
      var c := s.th[t].st;
      assert ThreadOk(s, t) && InPlace(d, s.g, t, s.th[t]) && SameLock(d, t, s.g, w.g, ctl.m);
      assert d.open(ctl.m) <==> OpenIn(k, s)(ctl.m);
    }
  }

  lemma LensIsClear<L(!new)>(k: Claims, code: Code<L>, base: Sys<Ctx<L>, Os>)
    requires TwinCommit.WellFormed(base.sh)
    ensures Clear(Compiled(code), Good(k), LensOf(code, SharesOf(k, base), base.sh), Fit(SharesOf(k, base), base))
  {
    var d, sh := SharesOf(k, base), base.sh;
    var z, fit, prog, good := LensOf(code, d, sh), Fit(d, base), Compiled(code), Good<L>(k);
    LensIsEquivalence(code, d, sh);
    forall s: Sys<Ctx<L>, Os>, t: Tid, w: Solo<Ctx<L>, Os> | fit(s) && s.pending == 0 && Enabled(prog, s, t) && z.same(t, Of(s, t), w) && z.ok(t, w)
      ensures Seen(prog, z, fit, s, t, w)
    {
      StepSeen(code, d, base, s, t, w);
    }
    forall s: Sys<Ctx<L>, Os>, t: Tid, w: Solo<Ctx<L>, Os> | fit(s) && s.pending == 0 && Enabled(prog, s, t) && good(s, t) && z.same(t, Of(s, t), w)
      ensures z.ok(t, w)
    {
      GoodIsOk(k, d, sh, s, t, w, base);
    }
  }

  // ---------- alike states ----------

  /** No matter what the number of users of a lock is beyond one. */
  ghost predicate AlikeLocks(g: Os, h: Os) {
    && g.q == h.q && g.holder == h.holder && (forall m :: m in g.locks <==> m in h.locks)
    && forall m :: m in g.locks ==> g.locks[m] == h.locks[m].(users := g.locks[m].users) && Cat(g.locks[m].users) == Cat(h.locks[m].users)
  }

  ghost predicate AlikeUsers(g: Os, h: Os) {
    forall m :: UsersOf(g, m) == UsersOf(h, m)
  }

  ghost function Closed(): LockId -> bool {
    _ => false
  }

  ghost predicate Alikes<L>(s: Sys<Ctx<L>, Os>, q: Sys<Ctx<L>, Os>) {
    && Frames(s, q) && s.began == q.began && AlikeLocks(s.g, q.g) && AlikeUsers(s.g, q.g)
    && (forall t :: t in s.th <==> t in q.th)
    && forall t :: t in s.th ==> SameThread(Closed(), s.th[t], q.th[t])
  }

  lemma AlikeItself<L>(s: Sys<Ctx<L>, Os>)
    ensures Alikes(s, s)
  {
  }

  /** To all threads of a phase alike states are the same. */
  lemma AlikeIsSame<L>(d: Shares, s: Sys<Ctx<L>, Os>, q: Sys<Ctx<L>, Os>, u: Tid)
    requires Alikes(s, q) && u in s.th && LocksOk(s.g) && LocksOk(q.g)
    ensures u in q.th && SameSolo(d, u, Of(q, u), Of(s, u))
  {
    assert SameThread(Closed(), s.th[u], q.th[u]);
    forall m ensures SameLock(d, u, q.g, s.g, m) { assert UsersOf(s.g, m) == UsersOf(q.g, m); }
  }

  /** All threads of the ring are in user code, or about to ask for the token. */
  ghost predicate Starts<L>(s: Sys<Ctx<L>, Os>) {
    forall t :: t in s.ring ==> t in s.th && !s.th[t].waiting && RestOk(false, s.th[t].st)
  }

  lemma FitsAtStart<L>(k: Claims, s: Sys<Ctx<L>, Os>, q: Sys<Ctx<L>, Os>)
    requires Inv(s) && Inv(q) && Alikes(s, q) && Starts(q) && s.ring != []
    ensures Fits(SharesOf(k, s), s.sh, q)
  {
    var d := SharesOf(k, s);
    SuitsAtStart(k, s, q);
    forall t | t in q.ring && t in q.th ensures InPlace(d, q.g, t, q.th[t]) { assert ThreadOk(q, t); }
  }

  lemma SuitsAtStart<L>(k: Claims, s: Sys<Ctx<L>, Os>, q: Sys<Ctx<L>, Os>)
    requires LocksOk(s.g) && LocksOk(q.g) && AlikeLocks(s.g, q.g) && q.ring == s.ring != []
    ensures Suits(SharesOf(k, s), q)
  {
    var d := SharesOf(k, s);
    forall m | true ensures d.own(m) in d.ring { assert d.own(m) == OwnerOf(s.g, s.ring, m); }
    forall m | m in q.g.locks && q.g.locks[m].users == 1 && q.g.locks[m].last in q.ring ensures d.own(m) == q.g.locks[m].last {
      assert d.own(m) == OwnerOf(s.g, s.ring, m);
    }
    forall m | m in q.g.holder && q.g.holder[m] in q.ring ensures d.own(m) == q.g.holder[m] {
      assert d.own(m) == OwnerOf(s.g, s.ring, m);
    }
  }

  // ---------- the end of a phase ----------

  /** Locks that are the same to every thread of the ring are alike. */
  lemma SameToAll(d: Shares, g: Os, h: Os)
    requires Owning(d) && LocksOk(g) && LocksOk(h) && forall u :: u in d.ring ==> SameOs(d, u, g, h)
    ensures AlikeLocks(g, h) && AlikeUsers(g, h)
  {
    var first := d.ring[0];
    assert first in d.ring && SameOs(d, first, g, h);
    forall m ensures UsersOf(g, m) == UsersOf(h, m) { UsersToAll(d, g, h, m); }
    forall m ensures (m in g.locks <==> m in h.locks) && (m in g.holder <==> m in h.holder)
             ensures m in g.holder ==> g.holder[m] == h.holder[m]
             ensures m in g.locks ==> g.locks[m] == h.locks[m].(users := g.locks[m].users) && Cat(g.locks[m].users) == Cat(h.locks[m].users)
    {
      var u := d.own(m);
      assert u in d.ring && SameOs(d, u, g, h);
      assert SameLock(d, u, g, h, m) && UsersOf(g, m) == UsersOf(h, m);
    }
    assert g.holder.Keys == h.holder.Keys;
  }

  lemma UsersToAll(d: Shares, g: Os, h: Os, m: LockId)
    requires d.ring != [] && forall u :: u in d.ring ==> SameOs(d, u, g, h)
    ensures UsersOf(g, m) == UsersOf(h, m)
  {
    forall u ensures u in UsersOf(g, m) <==> u in UsersOf(h, m) {
      var t := if u in d.ring then u else d.ring[0];
      assert t in d.ring && SameOs(d, t, g, h);
      assert SameLock(d, t, g, h, m);
    }
  }

  lemma SameDirt<L>(x: Sys<Ctx<L>, Os>, y: Sys<Ctx<L>, Os>)
    requires (forall t :: t in x.th <==> t in y.th) && forall t :: t in x.th ==> x.th[t].dirty == y.th[t].dirty
    ensures Dirt(x) == Dirt(y)
  {
    forall t ensures t in Dirt(x) <==> t in Dirt(y) {}
    forall t | t in Dirt(x) ensures Dirt(x)[t] == Dirt(y)[t] { assert t in x.th && t in y.th; }
    assert Dirt(x).Keys == Dirt(y).Keys;
  }

  /** At the fence a thread is exactly where it seems to be. */
  lemma WaitingExact<L>(open: LockId -> bool, x: Thread<Ctx<L>>, y: Thread<Ctx<L>>)
    requires SameThread(open, x, y) && Comes(x.st) && Comes(y.st)
    ensures x == y
  {
  }

  /** The ends of two complete interleavings of a phase. */
  lemma EndsAlike<L(!new)>(k: Claims, code: Code<L>, s: Sys<Ctx<L>, Os>, q: Sys<Ctx<L>, Os>, a: seq<Tid>, b: seq<Tid>)
    requires Inv(s) && Inv(q) && Alikes(s, q) && s.pending == 0 && Starts(s) && Starts(q)
    requires InPhase(Calm(Compiled(code), Good(k)), s, a) && InPhase(Calm(Compiled(code), AnyStep()), q, b)
    requires Exec(Calm(Compiled(code), Good(k)), s, a).pending != 0 && Exec(Calm(Compiled(code), AnyStep()), q, b).pending != 0
    ensures Alikes(Exec(Calm(Compiled(code), Good(k)), s, a), Exec(Calm(Compiled(code), AnyStep()), q, b))
  {
    var prog, good, d := Compiled(code), Good<L>(k), SharesOf(k, s);
    var x, y := Exec(Calm(prog, good), s, a), Exec(Calm(prog, AnyStep()), q, b);
    var first := a[0];
    assert Enabled(prog, s, first) && first in s.ring;
    AlikeItself(s);
    FitsAtStart(k, s, s);
    FitsAtStart(k, s, q);
    forall u | u in s.ring ensures u in s.th && u in q.th && SameSolo(d, u, Of(q, u), Of(s, u)) { AlikeIsSame(d, s, q, u); }
    LensIsClear(k, code, s);
    PhaseDeterminism(prog, good, LensOf(code, d, s.sh), Fit(d, s), s, q, a, b);
    PhaseEndsAlike(k, code, s, q, a, b, d);
  }

  lemma PhaseEndsAlike<L(!new)>(k: Claims, code: Code<L>, s: Sys<Ctx<L>, Os>, q: Sys<Ctx<L>, Os>, a: seq<Tid>, b: seq<Tid>, d: Shares)
    requires Inv(s) && Inv(q) && Alikes(s, q) && s.pending == 0 && d.ring == s.ring
    requires InPhase(Calm(Compiled(code), Good(k)), s, a) && InPhase(Calm(Compiled(code), AnyStep()), q, b)
    requires var x, y := Exec(Calm(Compiled(code), Good(k)), s, a), Exec(Calm(Compiled(code), AnyStep()), q, b);
             && x.pending != 0 && y.pending != 0 && Inv(x) && Inv(y) && Suits(d, x)
             && forall u :: u in s.ring ==> u in x.th && u in y.th && SameSolo(d, u, Of(x, u), Of(y, u))
    ensures Alikes(Exec(Calm(Compiled(code), Good(k)), s, a), Exec(Calm(Compiled(code), AnyStep()), q, b))
  {
    var prog, good := Compiled(code), Good<L>(k);
    var x, y := Exec(Calm(prog, good), s, a), Exec(Calm(prog, AnyStep()), q, b);
    SystemStepsLocally(prog, good);
    SystemStepsLocally(prog, AnyStep());
    PhaseShares(Calm(prog, good), prog, s, a);
    PhaseShares(Calm(prog, AnyStep()), prog, q, b);
    forall t | t in x.th ensures SameThread(Closed(), x.th[t], y.th[t]) {
      if t in s.ring {
        assert ThreadOk(x, t) && ThreadOk(y, t) && SameSolo(d, t, Of(x, t), Of(y, t));
        WaitingExact(d.open, x.th[t], y.th[t]);
      } else {
        PhaseOutside(Calm(prog, good), prog, s, a, t);
        PhaseOutside(Calm(prog, AnyStep()), prog, q, b, t);
      }
    }
    SameToAll(d, x.g, y.g);
    SameShared(s, q, x, y);
  }

  lemma SameShared<L>(s: Sys<Ctx<L>, Os>, q: Sys<Ctx<L>, Os>, x: Sys<Ctx<L>, Os>, y: Sys<Ctx<L>, Os>)
    requires Inv(x) && Inv(y) && s.sh == q.sh && SameButUsers(x.sh, s.sh) && SameButUsers(y.sh, q.sh) && !x.sh.overrun && !y.sh.overrun
    requires (forall t :: t in x.th <==> t in y.th) && forall t :: t in x.th ==> SameThread(Closed(), x.th[t], y.th[t])
    ensures x.sh == y.sh
  {
    SameDirt(x, y);
    SameUsers(x, y);
  }

  // ---------- serial phases, in alike states ----------

  /** Under the token everything is seen. */
  ghost function Everything(t: Tid): Shares {
    Shares(_ => t, Closed(), [t])
  }

  lemma AllSeen(t: Tid, g: Os, h: Os)
    requires LocksOk(g) && LocksOk(h)
    ensures AlikeLocks(g, h) && AlikeUsers(g, h) <==> SameOs(Everything(t), t, g, h)
  {
    var d := Everything(t);
    if AlikeLocks(g, h) && AlikeUsers(g, h) {
      forall m ensures SameLock(d, t, g, h, m) { assert UsersOf(g, m) == UsersOf(h, m); }
    }
    if SameOs(d, t, g, h) { SameToAll(d, g, h); }
  }

  lemma ActionsAlike<L>(code: Code<L>, s: Sys<Ctx<L>, Os>, q: Sys<Ctx<L>, Os>, t: Tid)
    requires Inv(s) && Inv(q) && Alikes(s, q) && t in s.th && t in q.th && !Next(Compiled(code), s, t).Stuck?
    ensures SameAction(Everything(t), t, Next(Compiled(code), s, t), Next(Compiled(code), q, t))
  {
    assert ThreadOk(s, t) && SameThread(Closed(), s.th[t], q.th[t]);
    AllSeen(t, s.g, q.g);
    var view := View(s.sh, s.th[t].dirty);
    assert View(q.sh, q.th[t].dirty) == view;
    ActionMatches(code, Everything(t), t, s.th[t].st, q.th[t].st, view, s.g, q.g);
  }

  lemma EffectsAlike<L>(t: Tid, a: Action<Ctx<L>, Os>, b: Action<Ctx<L>, Os>, g: Os, h: Os)
    requires SameAction(Everything(t), t, a, b) && AlikeLocks(g, h) && AlikeUsers(g, h)
    requires LocksOk(Effect(a, g)) && LocksOk(Effect(b, h))
    ensures AlikeLocks(Effect(a, g), Effect(b, h)) && AlikeUsers(Effect(a, g), Effect(b, h))
  {
    AllSeen(t, Effect(a, g), Effect(b, h));
  }

  lemma AlikeUpdate<L>(s: Sys<Ctx<L>, Os>, q: Sys<Ctx<L>, Os>, t: Tid, x: Thread<Ctx<L>>, y: Thread<Ctx<L>>, sh: TwinCommit.Shared)
    requires Alikes(s, q) && t in s.th && SameThread(Closed(), x, y)
    ensures Alikes(s.(sh := sh, th := s.th[t := x]), q.(sh := sh, th := q.th[t := y]))
  {
  }

  lemma AlikeCommit<L>(s: Sys<Ctx<L>, Os>, q: Sys<Ctx<L>, Os>, t: Tid, c: Ctx<L>, e: Ctx<L>)
    requires Alikes(s, q) && t in s.th && t in q.th && TwinCommit.WellFormed(s.sh) && SameCtx(Closed(), c, e)
    ensures Alikes(DoCommit(false, s, t, c), DoCommit(false, q, t, e))
  {
    assert SameThread(Closed(), s.th[t], q.th[t]);
    AlikeUpdate(s, q, t, Thread(c, map[], false), Thread(e, map[], false), CommitBy(false, s.sh, s.th[t].dirty));
  }

  lemma AlikeTurn<L>(s: Sys<Ctx<L>, Os>, q: Sys<Ctx<L>, Os>, ring: seq<Tid>, pending: nat)
    requires Alikes(s, q)
    ensures Alikes(s.(ring := ring, pending := pending), q.(ring := ring, pending := pending))
    ensures Alikes(EndTurn(s, ring, pending), EndTurn(q, ring, pending))
  {
  }

  lemma AlikeStore<L>(s: Sys<Ctx<L>, Os>, q: Sys<Ctx<L>, Os>, t: Tid, a: Action<Ctx<L>, Os>, b: Action<Ctx<L>, Os>)
    requires Alikes(s, q) && t in s.th && t in q.th && TwinCommit.WellFormed(s.sh) && a.Store? && InRange(s.sh, a)
    requires b.Store? && b.p == a.p && b.off == a.off && b.byte == a.byte && SameCtx(Closed(), a.next, b.next)
    ensures Alikes(DoStore(s, t, a), DoStore(q, t, b))
  {
    var x, y := DoStore(s, t, a), DoStore(q, t, b);
    assert SameThread(Closed(), s.th[t], q.th[t]);
    AlikeUpdate(s, q, t, x.th[t], y.th[t], x.sh);
  }

  lemma AlikeWake<L>(s: Sys<Ctx<L>, Os>, q: Sys<Ctx<L>, Os>, t: Tid, a: Action<Ctx<L>, Os>, b: Action<Ctx<L>, Os>)
    requires Alikes(s, q) && t in s.th && t in q.th && TwinCommit.WellFormed(s.sh) && s.pending > 0 && |s.ring| > 0
    requires a.Wake? && b.Wake? && b.who == a.who && SameCtx(Closed(), a.next, b.next)
    ensures Alikes(DoSerial(false, s, t, a), DoSerial(false, q, t, b))
  {
    AlikeCommit(s, q, t, a.next, b.next);
    assert Sleeping(s, a.who) <==> Sleeping(q, a.who);
    AlikeTurn(DoCommit(false, s, t, a.next), DoCommit(false, q, t, b.next), [t] + a.who + s.ring[1..], s.pending + |a.who|);
  }

  lemma AlikeOver<L>(s: Sys<Ctx<L>, Os>, q: Sys<Ctx<L>, Os>, t: Tid, a: Action<Ctx<L>, Os>, b: Action<Ctx<L>, Os>)
    requires Alikes(s, q) && t in s.th && t in q.th && TwinCommit.WellFormed(s.sh) && s.pending > 0 && |s.ring| > 0
    requires ((a.Release? && b.Release?) || (a.Sleep? && b.Sleep?)) && SameCtx(Closed(), a.next, b.next)
    ensures Alikes(DoSerial(false, s, t, a), DoSerial(false, q, t, b))
  {
    AlikeCommit(s, q, t, a.next, b.next);
    SerialTurn(false, s, t, a);
    SerialTurn(false, q, t, b);
    AlikeTurn(DoCommit(false, s, t, a.next), DoCommit(false, q, t, b.next), if a.Sleep? then s.ring[1..] else s.ring[1..] + [t], s.pending - 1);
  }

  lemma AlikeGather<L>(s: Sys<Ctx<L>, Os>, q: Sys<Ctx<L>, Os>, t: Tid, a: Action<Ctx<L>, Os>, b: Action<Ctx<L>, Os>)
    requires Alikes(s, q) && t in s.th && t in q.th && TwinCommit.WellFormed(s.sh) && s.pending > 0 && |s.ring| > 0
    requires a.Gather? && b.Gather? && b.who == a.who && SameCtx(Closed(), a.next, b.next)
    ensures Alikes(DoSerial(false, s, t, a), DoSerial(false, q, t, b))
  {
    AlikeCommit(s, q, t, a.next, b.next);
    assert Sleeping(s, a.who) <==> Sleeping(q, a.who);
    SerialGather(false, s, t, a);
    SerialGather(false, q, t, b);
    AlikeTurn(DoCommit(false, s, t, a.next), DoCommit(false, q, t, b.next), GatherRing(s, t, a.who), GatherPending(s, a.who));
  }

  lemma SerialAlike<L>(s: Sys<Ctx<L>, Os>, q: Sys<Ctx<L>, Os>, t: Tid, a: Action<Ctx<L>, Os>, b: Action<Ctx<L>, Os>)
    requires Alikes(s, q) && t in s.th && t in q.th && TwinCommit.WellFormed(s.sh) && s.pending > 0 && |s.ring| > 0 && InRange(s.sh, a)
    requires SameAction(Everything(t), t, a, b)
    ensures Alikes(DoSerial(false, s, t, a), DoSerial(false, q, t, b))
  {
    match a
    case Store(_, _, _, _) => AlikeStore(s, q, t, a, b);
    case Access(next, _) => AlikeUpdate(s, q, t, s.th[t].(st := next), q.th[t].(st := b.next), s.sh);
    case Sync(next) => AlikeUpdate(s, q, t, s.th[t].(st := next), q.th[t].(st := b.next), s.sh);
    case Publish(next, _) => AlikeCommit(s, q, t, next, b.next);
    case Wake(_, _, _) => AlikeWake(s, q, t, a, b);
    case Release(_, _) => AlikeOver(s, q, t, a, b);
    case Sleep(_, _) => AlikeOver(s, q, t, a, b);
    case Gather(_, _, _) => AlikeGather(s, q, t, a, b);
  }

  lemma TurnAlike<L>(code: Code<L>, s: Sys<Ctx<L>, Os>, q: Sys<Ctx<L>, Os>, t: Tid)
    requires Inv(s) && Inv(q) && Alikes(s, q) && s.pending > 0 && s.began && Enabled(Compiled(code), s, t)
    ensures StepsAlike(Compiled(code), (x, y) => Alikes(x, y), s, q, t)
  {
    var a, b := Next(Compiled(code), s, t), Next(Compiled(code), q, t);
    ActionsAlike(code, s, q, t);
    SerialAlike(s, q, t, a, b);
    assert ThreadOk(s, t) && ThreadOk(q, t);
    ActionOk(code, t, s.th[t].st, View(s.sh, s.th[t].dirty), s.g);
    ActionOk(code, t, q.th[t].st, View(q.sh, q.th[t].dirty), q.g);
    EffectsAlike(t, a, b, s.g, q.g);
    WithEffects(DoSerial(false, s, t, a), DoSerial(false, q, t, b), Effect(a, s.g), Effect(b, q.g));
  }

  lemma WithEffects<L>(s: Sys<Ctx<L>, Os>, q: Sys<Ctx<L>, Os>, g: Os, h: Os)
    requires Alikes(s, q) && AlikeLocks(g, h) && AlikeUsers(g, h)
    ensures Alikes(s.(g := g), q.(g := h))
  {
  }

  lemma StepAlike<L>(code: Code<L>, s: Sys<Ctx<L>, Os>, q: Sys<Ctx<L>, Os>, t: Tid)
    requires Inv(s) && Inv(q) && Alikes(s, q) && s.pending > 0 && Enabled(Compiled(code), s, t)
    ensures StepsAlike(Compiled(code), (x, y) => Alikes(x, y), s, q, t)
  {
    if s.began {
      TurnAlike(code, s, q, t);
    } else {
      assert SameThread(Closed(), s.th[t], q.th[t]);
      AlikeCommit(s, q, t, s.th[t].st, q.th[t].st);
    }
  }

  // ---------- the start of a phase ----------

  /** Whoever has had its turn is at rest. */
  lemma RestedRests<L>(s: Sys<Ctx<L>, Os>, u: Tid)
    requires Inv(s) && s.pending > 0 && u in s.ring[s.pending..]
    ensures u in s.th && !s.th[u].waiting && RestOk(false, s.th[u].st)
  {
    assert u in s.ring && ThreadOk(s, u);
  }

  lemma StartsAfter<L>(code: Code<L>, s: Sys<Ctx<L>, Os>, t: Tid)
    requires Inv(s) && s.pending > 0 && Enabled(Compiled(code), s, t) && Step(Compiled(code), false, s, t).pending == 0
    ensures Starts(Step(Compiled(code), false, s, t))
  {
    var a := Next(Compiled(code), s, t);
    var c, view := s.th[t].st, View(s.sh, s.th[t].dirty);
    assert ThreadOk(s, t) && s.began;
    var e := ActionQueues(code, t, c, view, s.g);
    if a.Gather? { StartsGathered(s, t, a, e); } else { StartsOver(s, t, a, e); }
  }

  lemma StartsOver<L>(s: Sys<Ctx<L>, Os>, t: Tid, a: Action<Ctx<L>, Os>, e: Q.Event)
    requires Inv(s) && s.pending > 0 && s.ring != [] && t == s.ring[0] && t in s.th && InRange(s.sh, a) && Queues(t, a, s.g, e)
    requires !a.Gather? && DoTurn(false, s, t, a).pending == 0
    ensures Starts(DoTurn(false, s, t, a))
  {
    var r := DoTurn(false, s, t, a);
    assert a.Release? || a.Sleep?;
    SerialTurn(false, s, t, a);
    assert s.ring[1..] == s.ring[s.pending..];
    forall u | u in r.ring ensures u in r.th && !r.th[u].waiting && RestOk(false, r.th[u].st) {
      if u in s.ring[1..] {
        assert u != t by { HeadPending(s.ring, 1); }
        RestedRests(s, u);
      }
    }
  }

  lemma StartsGathered<L>(s: Sys<Ctx<L>, Os>, t: Tid, a: Action<Ctx<L>, Os>, e: Q.Event)
    requires Inv(s) && s.pending > 0 && s.ring != [] && t == s.ring[0] && t in s.th && InRange(s.sh, a) && Queues(t, a, s.g, e) && a.Gather?
    ensures Starts(DoTurn(false, s, t, a))
  {
    var r := DoTurn(false, s, t, a);
    BarrierSleeps(s, e.b);
    SerialGather(false, s, t, a);
    forall u | u in r.ring ensures u in r.th && !r.th[u].waiting && RestOk(false, r.th[u].st) {
      if u != t { assert ThreadOk(s, u) && AtBarrier(s.g.q, u); }
    }
  }

  // ---------- determinism ----------

  ghost function TermsOf<L>(): Terms<Ctx<L>, Os> {
    Terms(s => Inv(s), s => Starts(s), (s, q) => Alikes(s, q))
  }

  /** Alike states stay alike, if one of two runs keeps the claims. */
  lemma ClaimsGovern<L(!new)>(k: Claims, code: Code<L>)
    ensures Governs(Compiled(code), Good(k), TermsOf())
  {
    var prog, good, w := Compiled(code), Good<L>(k), TermsOf<L>();
    var any := Calm(prog, AnyStep());
    forall s: Sys<Ctx<L>, Os>, t: Tid | w.inv(s) && any.enabled(s, t) ensures w.inv(any.step(s, t)) {
      StepKeepsInv(code, s, t);
    }
    forall s: Sys<Ctx<L>, Os>, t: Tid | w.inv(s) && s.pending != 0 && Enabled(prog, s, t) && Step(prog, false, s, t).pending == 0
      ensures w.starts(Step(prog, false, s, t))
    {
      StartsAfter(code, s, t);
    }
    forall s: Sys<Ctx<L>, Os>, q: Sys<Ctx<L>, Os>, t: Tid | w.inv(s) && w.inv(q) && w.alike(s, q) && s.pending != 0 && Enabled(prog, s, t)
      ensures StepsAlike(prog, w.alike, s, q, t)
    {
      StepAlike(code, s, q, t);
    }
    forall s: Sys<Ctx<L>, Os>, q: Sys<Ctx<L>, Os>, a: seq<Tid>, b: seq<Tid>
      | w.inv(s) && w.inv(q) && w.alike(s, q) && s.pending == 0 && w.starts(s) && w.starts(q)
      ensures PhasesAlike(prog, good, w.alike, s, q, a, b)
    {
      if InPhase(Calm(prog, good), s, a) && InPhase(any, q, b) && Exec(Calm(prog, good), s, a).pending != 0 && Exec(any, q, b).pending != 0 {
        EndsAlike(k, code, s, q, a, b);
      }
    }
  }

  // ---------- the whole runtime ----------

  lemma CompiledSteady<L(!new)>(code: Code<L>)
    ensures Runtime.Steady(Compiled(code))
  {
  }

  /** After startFence: everybody is in user code, and nobody in a queue. */
  ghost predicate Start<L(!new)>(s: Runtime.Rt<Ctx<L>, Os>) {
    && Runtime.Initial(s) && Queued(s.mem) && LocksOk(s.mem.g)
    && forall t :: t in s.mem.th ==> Free(s.mem.th[t].st)
  }

  lemma StartInv<L(!new)>(s: Runtime.Rt<Ctx<L>, Os>)
    requires Start(s)
    ensures Inv(s.mem) && Starts(s.mem) && Alikes(s.mem, s.mem)
  {
    Machine.InitialInv(s.mem);
    AlikeItself(s.mem);
  }

  /** Locks that nobody has used; lock_init leaves the budget as it is. */
  ghost function NewLocks(budgets: map<LockId, int>): (r: map<LockId, Lock>)
    ensures forall m :: m in r ==> r[m].users == 0
  {
    map m | m in budgets :: Lock(0, 0, false, budgets[m])
  }

  lemma QueuedAtStart<L>(s: Sys<Ctx<L>, Os>, conds: set<int>, barriers: map<int, int>)
    requires s.g.q == Q.Start(s.ring, conds, barriers, map[]) && Q.Inv(s.g.q) && forall t :: t in s.th <==> t in s.ring
    ensures Queued(s)
  {
  }

  lemma BeginsWell<L(!new)>(s: Runtime.Rt<Ctx<L>, Os>, locks: map<LockId, int>, conds: set<int>, barriers: map<int, int>, local: Tid -> L)
    requires Runtime.Initial(s) && Q.Inv(s.mem.g.q) && s.mem.g == Os(NewLocks(locks), map[], map[], Q.Start(s.ph.ring, conds, barriers, map[]))
    requires forall t :: t in s.ph.ring ==> t in s.mem.th && s.mem.th[t].st == Ctx(local(t), User, 0, false)
    ensures Start(s) && s.mem.ring == s.ph.ring
  {
    forall t ensures t in s.mem.th <==> t in s.mem.ring { assert t in s.ph.stage <==> t in s.ph.ring; }
    QueuedAtStart(s.mem, conds, barriers);
  }

  /** There are such states, for any number of threads, any pages, locks, conditions and barriers. */
  lemma Begins<L(!new)>(ring: seq<Tid>, pages: seq<Page>, local: Tid -> L, locks: map<LockId, int>, conds: set<int>, barriers: map<int, int>)
    returns (s: Runtime.Rt<Ctx<L>, Os>)
    requires Distinct(ring) && ring != [] && (forall t :: t in ring ==> t >= 0) && forall b :: b in barriers ==> barriers[b] > 0
    ensures Start(s) && s.mem.ring == ring && s.mem.sh.share == pages && s.mem.g.locks == NewLocks(locks)
    ensures forall t :: t in s.mem.th ==> s.mem.th[t].st == Ctx(local(t), User, 0, false)
    ensures (forall t :: t in ring ==> t in s.mem.th) && s.mem.g.q == Q.Start(ring, conds, barriers, map[])
  {
    var q := Q.Start(ring, conds, barriers, map[]);
    Q.StartInv(ring, conds, barriers, map[]);
    s := Runtime.Begins(ring, pages, t => Ctx(local(t), User, 0, false), Os(NewLocks(locks), map[], map[], q));
    BeginsWell(s, locks, conds, barriers, local);
  }

  /** A parallel phase leaves the queues alone. */
  lemma {:induction false} PhaseQueues<L(!new)>(code: Code<L>, good: (Sys<Ctx<L>, Os>, Tid) -> bool, s: Sys<Ctx<L>, Os>, sched: seq<Tid>)
    requires Inv(s) && InPhase(Calm(Compiled(code), good), s, sched)
    ensures Exec(Calm(Compiled(code), good), s, sched).g.q == s.g.q
    decreases |sched|
  {
    if sched != [] {
      var t := sched[0];
      ParallelKeeps(code, s, t);
      StepKeepsInv(code, s, t);
      PhaseQueues(code, good, Step(Compiled(code), false, s, t), sched[1..]);
    }
  }

  // ---------- who locks what in a phase ----------

  /** The owner of m calls mutex_lock for it in parallel phase r. */
  ghost predicate OwnerCalls<L>(r: nat, m: LockId, s: Sys<Ctx<L>, Os>, t: Tid) {
    && s.pending == 0 && |s.ring| != 1 && s.round == r && t in s.th && s.th[t].st.ctl.Entering? && s.th[t].st.ctl.m == m
    && m in s.g.locks && s.g.locks[m].users > 0 && s.g.locks[m].last == t
  }

  /** While m has one user, another thread calls mutex_lock for it in parallel phase r. */
  ghost predicate NewcomerCalls<L>(r: nat, m: LockId, s: Sys<Ctx<L>, Os>, t: Tid) {
    && s.pending == 0 && |s.ring| != 1 && s.round == r && t in s.th && s.th[t].st.ctl.Entering? && s.th[t].st.ctl.m == m
    && m in s.g.locks && s.g.locks[m].users == 1 && s.g.locks[m].last != t
  }

  ghost predicate OwnerComes<L(!new)>(code: Code<L>, cores: int, r: nat, m: LockId, s: Runtime.Rt<Ctx<L>, Os>, run: seq<Runtime.Event>) {
    !Runtime.CalmRun(Compiled(code), cores, (q, t) => !OwnerCalls(r, m, q, t), s, run)
  }

  ghost predicate NewcomerComes<L(!new)>(code: Code<L>, cores: int, r: nat, m: LockId, s: Runtime.Rt<Ctx<L>, Os>, run: seq<Runtime.Event>) {
    !Runtime.CalmRun(Compiled(code), cores, (q, t) => !NewcomerCalls(r, m, q, t), s, run)
  }

  /** In no parallel phase the owner of a lock and another thread both call mutex_lock for it. */
  ghost predicate Uncontended<L(!new)>(code: Code<L>, cores: int, s: Runtime.Rt<Ctx<L>, Os>, run: seq<Runtime.Event>) {
    forall r: nat, m: LockId :: OwnerComes(code, cores, r, m, s, run) ==> !NewcomerComes(code, cores, r, m, s, run)
  }

  ghost predicate Claiming<L(!new)>(k: Claims, code: Code<L>, cores: int, s: Runtime.Rt<Ctx<L>, Os>, run: seq<Runtime.Event>) {
    Runtime.CalmRun(Compiled(code), cores, Good(k), s, run)
  }

  /** Who comes decides what a lock has to be. */
  lemma {:induction false} ClaimsTell<L(!new)>(k: Claims, code: Code<L>, cores: int, r: nat, m: LockId, s: Runtime.Rt<Ctx<L>, Os>, run: seq<Runtime.Event>)
    requires Claiming(k, code, cores, s, run)
    ensures OwnerComes(code, cores, r, m, s, run) ==> !k(r, m)
    ensures NewcomerComes(code, cores, r, m, s, run) ==> k(r, m)
    decreases |run|
  {
    if run != [] {
      ClaimsTell(k, code, cores, r, m, Runtime.Step(Compiled(code), cores, s, run[0]), run[1..]);
    }
  }

  lemma {:induction false} ClaimsKept<L(!new)>(k: Claims, code: Code<L>, cores: int, s: Runtime.Rt<Ctx<L>, Os>, run: seq<Runtime.Event>)
    requires forall r: nat, m: LockId :: OwnerComes(code, cores, r, m, s, run) ==> !k(r, m)
    requires forall r: nat, m: LockId :: NewcomerComes(code, cores, r, m, s, run) ==> k(r, m)
    ensures Claiming(k, code, cores, s, run)
    decreases |run|
  {
    if run != [] {
      var q := Runtime.Step(Compiled(code), cores, s, run[0]);
      forall r: nat, m: LockId ensures OwnerComes(code, cores, r, m, q, run[1..]) ==> !k(r, m)
                               ensures NewcomerComes(code, cores, r, m, q, run[1..]) ==> k(r, m)
      {
        assert OwnerComes(code, cores, r, m, q, run[1..]) ==> OwnerComes(code, cores, r, m, s, run);
        assert NewcomerComes(code, cores, r, m, q, run[1..]) ==> NewcomerComes(code, cores, r, m, s, run);
      }
      ClaimsKept(k, code, cores, q, run[1..]);
      var t := run[0].t;
      if t in s.mem.th && s.mem.th[t].st.ctl.Entering? {
        var m := s.mem.th[t].st.ctl.m;
        assert OwnerComes(code, cores, s.mem.round, m, s, run) ==> !k(s.mem.round, m);
        assert NewcomerComes(code, cores, s.mem.round, m, s, run) ==> k(s.mem.round, m);
      }
    }
  }

  /** A run can keep claims exactly when in none of its parallel phases a lock is called for both by the thread that
      alone has used it and by another. */
  lemma ClaimsIff<L(!new)>(code: Code<L>, cores: int, s: Runtime.Rt<Ctx<L>, Os>, run: seq<Runtime.Event>)
    ensures (exists k: Claims :: Claiming(k, code, cores, s, run)) <==> Uncontended(code, cores, s, run)
  {
    if k: Claims :| Claiming(k, code, cores, s, run) {
      forall r: nat, m: LockId | OwnerComes(code, cores, r, m, s, run) ensures !NewcomerComes(code, cores, r, m, s, run) {
        ClaimsTell(k, code, cores, r, m, s, run);
      }
    }
    if Uncontended(code, cores, s, run) {
      var k: Claims := (r: nat, m: LockId) => NewcomerComes(code, cores, r, m, s, run);
      ClaimsKept(k, code, cores, s, run);
    }
  }

  lemma ClaimedRunsAgree<L(!new)>(k: Claims, code: Code<L>, cores: int, s: Runtime.Rt<Ctx<L>, Os>, a: seq<Runtime.Event>, b: seq<Runtime.Event>)
    requires Start(s) && Claiming(k, code, cores, s, a)
    requires Valid(Runtime.System(Compiled(code), cores), s, a) && Valid(Runtime.System(Compiled(code), cores), s, b)
    requires SamePhase(Exec(Runtime.System(Compiled(code), cores), s, a).mem, Exec(Runtime.System(Compiled(code), cores), s, b).mem)
    ensures Agree(Exec(Runtime.System(Compiled(code), cores), s, a).mem, Exec(Runtime.System(Compiled(code), cores), s, b).mem)
  {
    CompiledSteady(code);
    StartInv(s);
    ClaimsGovern(k, code);
    var m, n, i, j := Runtime.MemoryIsDeterministic(Compiled(code), cores, Good(k), TermsOf(), s, a, b);
    PhaseQueues(code, Good(k), m, i);
    PhaseQueues(code, AnyStep(), n, j);
  }

  /** Between two serial phases, after the same number of them. */
  ghost predicate SamePhase<L>(x: Sys<Ctx<L>, Os>, y: Sys<Ctx<L>, Os>) {
    x.pending == 0 && y.pending == 0 && x.round == y.round
  }

  /** The same shared pages, versions, ring and queues. */
  ghost predicate Agree<L>(x: Sys<Ctx<L>, Os>, y: Sys<Ctx<L>, Os>) {
    SameButUsers(x.sh, y.sh) && x.ring == y.ring && x.g.q == y.g.q
  }

  /** Determinism of programs with locks, conditions and barriers: however threads, spins and lock accesses interleave,
      between two serial phases the shared pages, their versions, the ring and all queues depend only on the program, on
      the initial state and on the number of serial phases so far, if in some run so far no lock has been called for in
      one parallel phase both by the thread that alone had used it and by another. */
  lemma ProgramsAreDeterministic<L(!new)>(code: Code<L>, cores: int, s: Runtime.Rt<Ctx<L>, Os>, a: seq<Runtime.Event>, b: seq<Runtime.Event>)
    requires Start(s) && Uncontended(code, cores, s, a)
    requires Valid(Runtime.System(Compiled(code), cores), s, a) && Valid(Runtime.System(Compiled(code), cores), s, b)
    requires SamePhase(Exec(Runtime.System(Compiled(code), cores), s, a).mem, Exec(Runtime.System(Compiled(code), cores), s, b).mem)
    ensures Agree(Exec(Runtime.System(Compiled(code), cores), s, a).mem, Exec(Runtime.System(Compiled(code), cores), s, b).mem)
  {
    ClaimsIff(code, cores, s, a);
    var k: Claims :| Claiming(k, code, cores, s, a);
    ClaimedRunsAgree(k, code, cores, s, a, b);
  }

  /** In every reachable state: the active list is the ring, the fence counts its threads, and each thread is in
      exactly one place. */
  lemma RunConserves<L(!new)>(code: Code<L>, cores: int, s: Runtime.Rt<Ctx<L>, Os>, run: seq<Runtime.Event>, t: Tid)
    requires Start(s) && Valid(Runtime.System(Compiled(code), cores), s, run)
    ensures var r := Exec(Runtime.System(Compiled(code), cores), s, run);
            && Inv(r.mem) && r.ph.ring == r.mem.g.q.ring && r.ph.f.max == r.mem.g.q.maxthreads
            && (t in r.mem.th ==> exists p :: Q.Is(r.mem.g.q, t, p) && forall o :: Q.Is(r.mem.g.q, t, o) ==> o == p)
  {
    var r := Exec(Runtime.System(Compiled(code), cores), s, run);
    CompiledSteady(code);
    StartInv(s);
    Runtime.InitialInv(Compiled(code), s);
    Runtime.RunKeepsInv(Compiled(code), cores, s, run);
    Runtime.AnySchedule(Compiled(code), cores, s, run);
    AllKeepInv(code);
    RunPreserves(Calm(Compiled(code), AnyStep()), (q: Sys<Ctx<L>, Os>) => Inv(q), s.mem, Runtime.Schedule(Compiled(code), cores, s, run));
    Q.ExactlyOne(r.mem.g.q, t);
    CountersAgree(r.ph, r.mem.g.q);
  }

  lemma AllKeepInv<L(!new)>(code: Code<L>)
    ensures Preserves(Calm(Compiled(code), AnyStep()), (q: Sys<Ctx<L>, Os>) => Inv(q))
  {
    forall s: Sys<Ctx<L>, Os>, t: Tid | Inv(s) && Enabled(Compiled(code), s, t) ensures Inv(Step(Compiled(code), false, s, t)) {
      StepKeepsInv(code, s, t);
    }
  }

  lemma CountersAgree(ph: P.State, q: Q.State)
    requires P.Inv(ph) && Q.Inv(q) && ph.ring == q.ring && q.back == {}
    ensures ph.f.max == q.maxthreads
  {
    ElementsSize(ph.ring);
  }
}
