/** The calls that programs make (xrun.h), over queues and locks: what each does with fence and token, whom it wakes,
    and what becomes of it.  Locks are taken under the token, or by their owners without it. */
module Kernel {
  import opened Counting
  import opened Bytes
  import opened Pages
  import opened Runs
  import TwinCommit
  import opened Machine
  import opened Determinism
  import opened M = Mutex
  import Q = Conserve
  import R = Ring

  type Tid = int

  datatype Call<L> =
    | Write(p: nat, off: nat, byte: Byte, next: L)
    | MutexLock(m: LockId, next: L)
    | MutexUnlock(m: LockId, next: L)
    | CondWait(c: int, m: LockId, next: L)
    | CondSignal(c: int, next: L)
    | CondBroadcast(c: int, next: L)
    | BarrierWait(b: int, next: L)

  /** A program: a function of a thread's own state and of the memory it sees. */
  type Code<!L> = (Tid, L, seq<Page>) -> Call<L>

  /** Where a thread is: in user code; about to look how many have used the lock that it is to take; further on in
      mutex_lock; waiting for the token to make a call; in cond_wait, about to take the lock again; about to pass the
      token. */
  datatype Ctl<L> = User | Entering(m: LockId, next: L) | Locking(pc: Pc, next: L) | Turn(call: Call<L>) | Waking(m: LockId, next: L) | Handing(next: L)

  /** A thread's own state, with _lock_count and _token_holding. */
  datatype Ctx<L> = Ctx(st: L, ctl: Ctl<L>, count: int, token: bool)

  /** Locks and queues.  Who has taken a lock last, if it has not been released since, is history, and so is who has used
      it, or has found that several others have. */
  datatype Os = Os(locks: map<LockId, Lock>, holder: map<LockId, Tid>, who: map<LockId, set<Tid>>, q: Q.State)

  ghost function UsersOf(g: Os, m: LockId): set<Tid> {
    if m in g.who then g.who[m] else {}
  }

  /** isSingleWorkingThread */
  ghost predicate Single(g: Os) {
    g.q.maxthreads == 1
  }

  ghost function Queue(g: Os, e: Q.Event): Os {
    g.(q := Q.Step(g.q, e))
  }

  ghost function Freed(g: Os, m: LockId): Os
    requires m in g.locks
  {
    g.(locks := g.locks[m := M.Release(g.locks[m])], holder := g.holder - {m})
  }

  ghost function WithLock(g: Os, t: Tid, m: LockId, e: Lock, got: bool, who: set<Tid>): Os {
    g.(locks := g.locks[m := e], holder := if got then g.holder[m := t] else g.holder, who := g.who[m := who])
  }

  /** Who has used the lock once t has acquired it. */
  ghost function AfterCount(e: Lock, who: set<Tid>, t: Tid): set<Tid> {
    if e.users == 0 then {t} else if e.users == 1 && e.last != t then who + {t} else who
  }

  ghost function AfterAccess(e: Lock, who: set<Tid>, t: Tid, pc: Pc): set<Tid> {
    if pc.Writes? then who + {t} else if pc.Counts? then AfterCount(e, who, t) else who
  }

  ghost function AfterEnter(e: Lock, who: set<Tid>, t: Tid): set<Tid> {
    if e.users >= 2 && e.last != t then who + {t} else who
  }

  // ---------- the calls ----------

  ghost function Waken<L>(c: Ctx<L>, cond: int, all: bool, g: Os): Action<Ctx<L>, Os> {
    if cond !in g.q.conds then Action.Stuck
    else if g.q.conds[cond].list == [] then Action.Publish(c, g)
    else if all then Action.Wake(g.q.conds[cond].list, c, Queue(g, Q.Broadcast(cond)))
    else Action.Wake([g.q.conds[cond].list[0]], c, Queue(g, Q.Signal(cond)))
  }

  /** From user code.  With the token a condition or barrier needs no further one; barrier_wait would wait for ever.
      Without the token only held locks are released; cond_wait needs it. */
  ghost function Begin<L>(t: Tid, c: Ctx<L>, call: Call<L>, g: Os): Action<Ctx<L>, Os> {
    match call
    case Write(p, off, byte, next) => Action.Store(p, off, byte, c.(st := next))
    case MutexLock(m, next) =>
      if m !in g.locks then Action.Stuck
      else Action.Access(c.(count := c.count + 1, ctl := Entering(m, next)), g)
    case MutexUnlock(m, next) =>
      if m !in g.locks || (!c.token && !(m in g.holder && g.holder[m] == t)) then Action.Stuck
      else if c.count == 1 && c.token then Action.Access(c.(count := 0, ctl := Handing(next)), Freed(g, m))
      else Action.Access(c.(count := c.count - 1, st := next), Freed(g, m))
    case CondWait(cond, m, next) =>
      if !c.token || cond !in g.q.conds || m !in g.locks then Action.Stuck
      else Action.Sleep(c.(ctl := Waking(m, next)), Queue(Freed(g, m), Q.CondWait(cond)))
    case CondSignal(cond, next) => if c.token then Waken(c.(st := next), cond, false, g) else Action.Sync(c.(ctl := Turn(call)))
    case CondBroadcast(cond, next) => if c.token then Waken(c.(st := next), cond, true, g) else Action.Sync(c.(ctl := Turn(call)))
    case BarrierWait(_, _) => if c.token then Action.Stuck else Action.Sync(c.(ctl := Turn(call)))
  }

  /** In mutex_lock: for the token the thread goes to the fence; refused under the token it passes it and starts
      again. */
  ghost function TryLock<L>(t: Tid, c: Ctx<L>, pc: Pc, next: L, g: Os): Action<Ctx<L>, Os> {
    if pc.Idle? then Action.Stuck
    else if pc.Wants? && !c.token then Action.Sync(c.(token := true))
    else if pc.m !in g.locks then Action.Stuck
    else if pc.Denied? then Action.Release(c.(token := false, ctl := Locking(Wants(pc.m), next)), Queue(g, Q.PutToken))
    else
      var r := M.Access(g.locks[pc.m], t, Single(g), pc);
      Action.Access(if r.got then c.(st := next, ctl := User) else c.(ctl := Locking(r.pc, next)),
                    WithLock(g, t, pc.m, r.lock, r.got, AfterAccess(g.locks[pc.m], UsersOf(g, pc.m), t, pc)))
  }

  /** lock_isowner begins. */
  ghost function EnterLock<L>(t: Tid, c: Ctx<L>, m: LockId, next: L, g: Os): Action<Ctx<L>, Os> {
    if m !in g.locks then Action.Stuck
    else Action.Access(c.(ctl := Locking(Enter(g.locks[m], Single(g), m), next)),
                       g.(who := g.who[m := AfterEnter(g.locks[m], UsersOf(g, m), t)]))
  }

  /** A call that has waited for the token.  The last thread at a barrier that does not count all working threads is
      not modelled. */
  ghost function TakeTurn<L>(t: Tid, c: Ctx<L>, call: Call<L>, g: Os): Action<Ctx<L>, Os> {
    match call
    case CondSignal(cond, next) => Waken(c.(ctl := Handing(next)), cond, false, g)
    case CondBroadcast(cond, next) => Waken(c.(ctl := Handing(next)), cond, true, g)
    case BarrierWait(b, next) =>
      if b !in g.q.barriers then Action.Stuck
      else if g.q.barriers[b].count + 1 != g.q.barriers[b].max then Action.Sleep(c.(st := next, ctl := User), Queue(g, Q.BarrierWait(b)))
      else if g.q.ring == [t] then Action.Gather(g.q.barriers[b].list, c.(st := next, ctl := User), Queue(g, Q.BarrierWait(b)))
      else Action.Stuck
    case _ => Action.Stuck
  }

  /** cond_wait, woken up and with the token, does not look whether it gets the lock. */
  ghost function Retake<L>(t: Tid, c: Ctx<L>, m: LockId, next: L, g: Os): Action<Ctx<L>, Os> {
    if m !in g.locks then Action.Stuck else
      var r := Acquire(g.locks[m], t, Single(g));
      Action.Access(c.(st := next, ctl := User),
                    WithLock(g, t, m, r.lock, r.ok, if g.locks[m].acquired then UsersOf(g, m) else AfterCount(g.locks[m], UsersOf(g, m), t)))
  }

  ghost function Do<L>(code: Code<L>, t: Tid, c: Ctx<L>, v: seq<Page>, g: Os): Action<Ctx<L>, Os> {
    match c.ctl
    case User => Begin(t, c, code(t, c.st, v), g)
    case Entering(m, next) => EnterLock(t, c, m, next, g)
    case Locking(pc, next) => TryLock(t, c, pc, next, g)
    case Turn(call) => TakeTurn(t, c, call, g)
    case Waking(m, next) => Retake(t, c, m, next, g)
    case Handing(next) => Action.Release(c.(st := next, ctl := User, token := false), Queue(g, Q.PutToken))
  }

  ghost function Compiled<L>(code: Code<L>): Program<Ctx<L>, Os> {
    (t, c, v, g) => Do(code, t, c, v, g)
  }

  // ---------- what of the locks a thread sees in a parallel phase ----------

  /** For one parallel phase: to whom each lock belongs, and for which locks newcomers may count themselves in.  Of such
      an open lock nobody sees how many users it has, but that it has some. */
  datatype Shares = Shares(own: LockId -> Tid, open: LockId -> bool, ring: seq<Tid>)

  /** What is ever asked of the number of users: none, one, or more. */
  ghost function Cat(users: int): int {
    if users <= 0 then 0 else if users == 1 then 1 else 2
  }

  /** Of the users of a lock a thread sees itself, and those that do not run. */
  ghost predicate SameWho(d: Shares, t: Tid, v: set<Tid>, w: set<Tid>) {
    forall u :: u == t || u !in d.ring ==> (u in v <==> u in w)
  }

  /** Its own locks a thread sees as they are. */
  ghost predicate SameLock(d: Shares, t: Tid, g: Os, h: Os, m: LockId) {
    && (m in g.locks <==> m in h.locks)
    && (m in g.locks ==>
          && g.locks[m].last == h.locks[m].last
          && (g.locks[m].users >= 0 <==> h.locks[m].users >= 0) && (Cat(g.locks[m].users) == 0 <==> Cat(h.locks[m].users) == 0)
          && (!d.open(m) ==> Cat(g.locks[m].users) == Cat(h.locks[m].users))
          && (d.own(m) == t ==> g.locks[m].acquired == h.locks[m].acquired && g.locks[m].budget == h.locks[m].budget))
    && SameWho(d, t, UsersOf(g, m), UsersOf(h, m))
    && (d.own(m) == t ==> (m in g.holder <==> m in h.holder) && (m in g.holder ==> g.holder[m] == h.holder[m]))
  }

  ghost predicate SameOs(d: Shares, t: Tid, g: Os, h: Os) {
    g.q == h.q && forall m :: SameLock(d, t, g, h, m)
  }

  /** A newcomer at an open lock is about to count itself in until it has; what number it has read is nobody's business. */
  ghost function Canon<L>(open: LockId -> bool, ctl: Ctl<L>): Ctl<L> {
    if !ctl.Locking? then ctl
    else if (ctl.pc.Looks? || ctl.pc.Bumps? || ctl.pc.Writes?) && open(ctl.pc.m) then Entering(ctl.pc.m, ctl.next)
    else if ctl.pc.Writes? then Locking(Writes(ctl.pc.m, if ctl.pc.v >= 1 then 1 else 0), ctl.next)
    else ctl
  }

  ghost predicate SameCtx<L>(open: LockId -> bool, c: Ctx<L>, e: Ctx<L>) {
    c == e.(ctl := c.ctl) && Canon(open, c.ctl) == Canon(open, e.ctl)
  }

  ghost predicate SameThread<L>(open: LockId -> bool, x: Thread<Ctx<L>>, y: Thread<Ctx<L>>) {
    x == y.(st := x.st) && SameCtx(open, x.st, y.st)
  }

  ghost predicate SameSolo<L>(d: Shares, t: Tid, v: Solo<Ctx<L>, Os>, w: Solo<Ctx<L>, Os>) {
    SameThread(d.open, v.x, w.x) && SameOs(d, t, v.g, w.g)
  }

  ghost predicate SameAction<L>(d: Shares, t: Tid, a: Action<Ctx<L>, Os>, b: Action<Ctx<L>, Os>) {
    match a
    case Store(p, off, byte, next) => b.Store? && b.p == p && b.off == off && b.byte == byte && SameCtx(d.open, next, b.next)
    case Access(next, g) => b.Access? && SameCtx(d.open, next, b.next) && SameOs(d, t, g, b.g)
    case Sync(next) => b.Sync? && SameCtx(d.open, next, b.next)
    case Publish(next, g) => b.Publish? && SameCtx(d.open, next, b.next) && SameOs(d, t, g, b.g)
    case Wake(who, next, g) => b.Wake? && b.who == who && SameCtx(d.open, next, b.next) && SameOs(d, t, g, b.g)
    case Release(next, g) => b.Release? && SameCtx(d.open, next, b.next) && SameOs(d, t, g, b.g)
    case Sleep(next, g) => b.Sleep? && SameCtx(d.open, next, b.next) && SameOs(d, t, g, b.g)
    case Gather(who, next, g) => b.Gather? && b.who == who && SameCtx(d.open, next, b.next) && SameOs(d, t, g, b.g)
    case Stuck => b.Stuck?
  }

  lemma SameOsFacts(d: Shares)
    ensures forall t, g :: SameOs(d, t, g, g)
    ensures forall t, g, h :: SameOs(d, t, g, h) ==> SameOs(d, t, h, g)
  {
    forall t, g ensures SameOs(d, t, g, g) {
      forall m ensures SameLock(d, t, g, g, m) {}
    }
    forall t, g, h | SameOs(d, t, g, h) ensures SameOs(d, t, h, g) {
      forall m ensures SameLock(d, t, h, g, m) { assert SameLock(d, t, g, h, m); }
    }
  }

  lemma SameOsTrans(d: Shares, t: Tid, g: Os, h: Os, i: Os)
    requires SameOs(d, t, g, h) && SameOs(d, t, h, i)
    ensures SameOs(d, t, g, i)
  {
    forall m ensures SameLock(d, t, g, i, m) { assert SameLock(d, t, g, h, m) && SameLock(d, t, h, i, m); }
  }

  /** Changing one lock, and the queues alike. */
  lemma SameAfter(d: Shares, t: Tid, g: Os, h: Os, m: LockId, g': Os, h': Os)
    requires SameOs(d, t, g, h) && g'.q == h'.q && m in g.locks && m in g'.locks && m in h'.locks
    requires g'.locks == g.locks[m := g'.locks[m]] && h'.locks == h.locks[m := h'.locks[m]]
    requires forall n :: n != m ==> UsersOf(g', n) == UsersOf(g, n) && UsersOf(h', n) == UsersOf(h, n)
    requires (g'.holder == g.holder && h'.holder == h.holder)
             || (g'.holder == g.holder - {m} && h'.holder == h.holder - {m})
             || (g'.holder == g.holder[m := t] && h'.holder == h.holder[m := t])
    requires SameLock(d, t, g', h', m)
    ensures SameOs(d, t, g', h')
  {
    forall n ensures SameLock(d, t, g', h', n) { assert SameLock(d, t, g, h, n); }
  }

  lemma SameQueue(d: Shares, t: Tid, g: Os, h: Os, e: Q.Event)
    requires SameOs(d, t, g, h)
    ensures SameOs(d, t, Queue(g, e), Queue(h, e))
  {
    forall m ensures SameLock(d, t, Queue(g, e), Queue(h, e), m) {
      assert SameLock(d, t, g, h, m) && UsersOf(Queue(g, e), m) == UsersOf(g, m) && UsersOf(Queue(h, e), m) == UsersOf(h, m);
    }
  }

  lemma SameFreed(d: Shares, t: Tid, g: Os, h: Os, m: LockId)
    requires SameOs(d, t, g, h) && m in g.locks && m in h.locks && d.own(m) == t
    ensures SameOs(d, t, Freed(g, m), Freed(h, m))
  {
    assert SameLock(d, t, g, h, m) && UsersOf(Freed(g, m), m) == UsersOf(g, m) && UsersOf(Freed(h, m), m) == UsersOf(h, m);
    SameAfter(d, t, g, h, m, Freed(g, m), Freed(h, m));
  }

  /** Each lock belongs to somebody in the ring. */
  ghost predicate Owning(d: Shares) {
    d.ring != [] && forall m :: d.own(m) in d.ring
  }

  lemma SoloOwns(d: Shares, t: Tid, m: LockId)
    requires Owning(d) && |d.ring| == 1 && t in d.ring
    ensures d.own(m) == t
  {
    assert d.own(m) in d.ring;
  }

  ghost predicate Counted(g: Os, m: LockId) {
    m in g.locks ==> g.locks[m].users >= 0
  }

  /** The same access to two locks that look the same. */
  lemma AccessMatches(d: Shares, e: Lock, f: Lock, v: set<Tid>, w: set<Tid>, t: Tid, single: bool, pc: Pc, p: Pc, own: bool)
    requires SameWho(d, t, v, w)
    requires !pc.Idle? && e.last == f.last && Cat(e.users) == Cat(f.users) && e.users >= 0 && f.users >= 0
    requires own ==> e.acquired == f.acquired && e.budget == f.budget
    requires pc.Tests? || pc.Sets? || pc.Counts? ==> own
    requires p == pc || (pc.Writes? && p.Writes? && p.m == pc.m && pc.v >= 1 && p.v >= 1)
    ensures var r, q := M.Access(e, t, single, pc), M.Access(f, t, single, p);
            && r.got == q.got && r.lock.last == q.lock.last && Cat(r.lock.users) == Cat(q.lock.users)
            && (own ==> r.lock.acquired == q.lock.acquired && r.lock.budget == q.lock.budget)
            && (r.pc == q.pc || (r.pc.Writes? && q.pc.Writes? && r.pc.m == q.pc.m && r.pc.v == e.users && q.pc.v == f.users))
    ensures SameWho(d, t, AfterAccess(e, v, t, pc), AfterAccess(f, w, t, p))
  {
  }

  /** A step in mutex_lock, when nothing about the lock is hidden from t but whether it is taken. */
  lemma LockMatches<L>(d: Shares, t: Tid, c: Ctx<L>, e: Ctx<L>, pc: Pc, p: Pc, next: L, g: Os, h: Os)
    requires SameOs(d, t, g, h) && c.ctl == Locking(pc, next) && e.ctl == Locking(p, next) && SameCtx(d.open, c, e)
    requires !pc.Idle? && (pc.Wants? || pc.Denied? || (pc.m in g.locks && pc.m in h.locks ==> !d.open(pc.m) && Counted(g, pc.m)))
    requires pc.Tests? || pc.Sets? || pc.Counts? ==> d.own(pc.m) == t
    requires pc.Writes? ==> pc.v >= 1
    requires pc.Bumps? && pc.m in g.locks ==> g.locks[pc.m].users >= 1
    ensures SameAction(d, t, TryLock(t, c, pc, next, g), TryLock(t, e, p, next, h))
  {
    var m := pc.m;
    assert SameLock(d, t, g, h, m);
    if pc.Denied? {
      SameQueue(d, t, g, h, Q.PutToken);
    } else if !pc.Wants? && m in g.locks {
      TryMatches(d, t, c, e, pc, p, next, g, h);
    } else if pc.Wants? && c.token && m in g.locks {
      WantsMatches(d, t, c, e, pc, next, g, h);
    }
  }

  /** One lock changed alike. */
  lemma SameWith(d: Shares, t: Tid, g: Os, h: Os, m: LockId, e: Lock, f: Lock, got: bool, v: set<Tid>, w: set<Tid>)
    requires SameOs(d, t, g, h) && m in g.locks && m in h.locks && SameWho(d, t, v, w)
    requires e.last == f.last && Cat(e.users) == Cat(f.users) && (e.users >= 0 <==> f.users >= 0)
    requires d.own(m) == t ==> e.acquired == f.acquired && e.budget == f.budget
    ensures SameOs(d, t, WithLock(g, t, m, e, got, v), WithLock(h, t, m, f, got, w))
  {
    var x, y := WithLock(g, t, m, e, got, v), WithLock(h, t, m, f, got, w);
    forall n ensures SameLock(d, t, x, y, n) {
      assert SameLock(d, t, g, h, n);
      if n != m { assert UsersOf(x, n) == UsersOf(g, n) && UsersOf(y, n) == UsersOf(h, n); }
    }
  }

  lemma TryMatches<L>(d: Shares, t: Tid, c: Ctx<L>, e: Ctx<L>, pc: Pc, p: Pc, next: L, g: Os, h: Os)
    requires SameOs(d, t, g, h) && c == e.(ctl := c.ctl)
    requires !pc.Idle? && !pc.Wants? && !pc.Denied? && SameLock(d, t, g, h, pc.m)
    requires pc.m in g.locks && !d.open(pc.m) && g.locks[pc.m].users >= 0
    requires pc.Tests? || pc.Sets? || pc.Counts? ==> d.own(pc.m) == t
    requires pc.Writes? ==> pc.v >= 1
    requires pc.Bumps? ==> g.locks[pc.m].users >= 1
    requires p == pc || (pc.Writes? && p.Writes? && p.m == pc.m && pc.v >= 1 && p.v >= 1)
    ensures SameAction(d, t, TryLock(t, c, pc, next, g), TryLock(t, e, p, next, h))
  {
    var m := pc.m;
    var v, w := UsersOf(g, m), UsersOf(h, m);
    AccessMatches(d, g.locks[m], h.locks[m], v, w, t, Single(g), pc, p, d.own(m) == t);
    var r, q := M.Access(g.locks[m], t, Single(g), pc), M.Access(h.locks[m], t, Single(h), p);
    SameWith(d, t, g, h, m, r.lock, q.lock, r.got, AfterAccess(g.locks[m], v, t, pc), AfterAccess(h.locks[m], w, t, p));
  }

  /** With the token a thread goes on to test the lock. */
  lemma WantsMatches<L>(d: Shares, t: Tid, c: Ctx<L>, e: Ctx<L>, pc: Pc, next: L, g: Os, h: Os)
    requires SameOs(d, t, g, h) && pc.Wants? && c.token && SameCtx(d.open, c, e) && pc.m in g.locks
    ensures SameAction(d, t, TryLock(t, c, pc, next, g), TryLock(t, e, pc, next, h))
  {
    var m := pc.m;
    assert SameLock(d, t, g, h, m);
    var a, b := TryLock(t, c, pc, next, g), TryLock(t, e, pc, next, h);
    assert UsersOf(a.g, m) == UsersOf(g, m) && UsersOf(b.g, m) == UsersOf(h, m);
    assert SameLock(d, t, a.g, b.g, m);
    SameAfter(d, t, g, h, m, a.g, b.g);
  }

  lemma EnterMatches<L>(d: Shares, t: Tid, c: Ctx<L>, m: LockId, next: L, g: Os, h: Os)
    requires SameOs(d, t, g, h) && !d.open(m) && Counted(g, m)
    ensures SameAction(d, t, EnterLock(t, c, m, next, g), EnterLock(t, c, m, next, h))
  {
    assert SameLock(d, t, g, h, m);
    if m in g.locks {
      var a, b := EnterLock(t, c, m, next, g), EnterLock(t, c, m, next, h);
      assert SameLock(d, t, a.g, b.g, m);
      assert a.g.locks == g.locks[m := a.g.locks[m]] && b.g.locks == h.locks[m := b.g.locks[m]];
      SameAfter(d, t, g, h, m, a.g, b.g);
    }
  }

  lemma WakenMatches<L>(d: Shares, t: Tid, c: Ctx<L>, cond: int, all: bool, g: Os, h: Os)
    requires SameOs(d, t, g, h)
    ensures SameAction(d, t, Waken(c, cond, all, g), Waken(c, cond, all, h))
  {
    SameQueue(d, t, g, h, Q.Broadcast(cond));
    SameQueue(d, t, g, h, Q.Signal(cond));
  }

  lemma CallMatches<L>(d: Shares, t: Tid, c: Ctx<L>, call: Call<L>, g: Os, h: Os)
    requires SameOs(d, t, g, h) && c.ctl.User?
    requires call.MutexUnlock? || call.CondWait? ==> d.own(call.m) == t
    ensures SameAction(d, t, Begin(t, c, call, g), Begin(t, c, call, h))
  {
    match call
    case MutexLock(m, _) => assert SameLock(d, t, g, h, m);
    case MutexUnlock(m, _) =>
      assert SameLock(d, t, g, h, m);
      if m in g.locks { SameFreed(d, t, g, h, m); }
    case CondWait(cond, m, _) =>
      assert SameLock(d, t, g, h, m);
      if m in g.locks {
        SameFreed(d, t, g, h, m);
        SameQueue(d, t, Freed(g, m), Freed(h, m), Q.CondWait(cond));
      }
    case CondSignal(cond, next) => if c.token { WakenMatches(d, t, c.(st := next), cond, false, g, h); }
    case CondBroadcast(cond, next) => if c.token { WakenMatches(d, t, c.(st := next), cond, true, g, h); }
    case _ =>
  }

  lemma TurnMatches<L>(d: Shares, t: Tid, c: Ctx<L>, call: Call<L>, g: Os, h: Os)
    requires SameOs(d, t, g, h)
    ensures SameAction(d, t, TakeTurn(t, c, call, g), TakeTurn(t, c, call, h))
  {
    match call
    case CondSignal(cond, next) => WakenMatches(d, t, c.(ctl := Handing(next)), cond, false, g, h);
    case CondBroadcast(cond, next) => WakenMatches(d, t, c.(ctl := Handing(next)), cond, true, g, h);
    case BarrierWait(b, _) => SameQueue(d, t, g, h, Q.BarrierWait(b));
    case _ =>
  }

  lemma RetakeMatches<L>(d: Shares, t: Tid, c: Ctx<L>, m: LockId, next: L, g: Os, h: Os)
    requires SameOs(d, t, g, h) && !d.open(m) && d.own(m) == t && Counted(g, m)
    ensures SameAction(d, t, Retake(t, c, m, next, g), Retake(t, c, m, next, h))
  {
    assert SameLock(d, t, g, h, m);
    if m in g.locks {
      var e, f, v, w := g.locks[m], h.locks[m], UsersOf(g, m), UsersOf(h, m);
      var r, q := Acquire(e, t, Single(g)), Acquire(f, t, Single(h));
      SameWith(d, t, g, h, m, r.lock, q.lock, r.ok,
               if e.acquired then v else AfterCount(e, v, t), if f.acquired then w else AfterCount(f, w, t));
    }
  }
}
