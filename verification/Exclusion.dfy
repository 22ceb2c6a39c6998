/** Locks of programs: who is between mutex_lock and mutex_unlock of a lock, in runs of the calls of Kernel. */
module Exclusion {
  import opened Counting
  import opened Pages
  import opened Runs
  import opened Machine
  import opened M = Mutex
  import opened Kernel
  import KR = KernelRuns
  import D = Determinism
  import Memory
  import Runtime

  /** Threads and the locks that they have locked and not unlocked since. */
  type Holding = set<(Tid, LockId)>

  ghost function CallOf<L>(code: Code<L>, s: Sys<Ctx<L>, Os>, t: Tid): Call<L>
    requires t in s.th
  {
    code(t, s.th[t].st.st, View(s.sh, s.th[t].dirty))
  }

  /** t calls mutex_unlock, or gives the lock up in cond_wait. */
  ghost predicate Unlocks<L>(code: Code<L>, s: Sys<Ctx<L>, Os>, t: Tid)
    requires t in s.th
  {
    s.th[t].st.ctl.User? && (CallOf(code, s, t).MutexUnlock? || CallOf(code, s, t).CondWait?)
  }

  /** The lock that t is about to get, in mutex_lock or at the end of cond_wait. */
  ghost predicate Asks<L>(c: Ctx<L>, m: LockId) {
    (c.ctl.Locking? && !c.ctl.pc.Idle? && c.ctl.pc.m == m) || (c.ctl.Waking? && c.ctl.m == m)
  }

  /** Whoever comes back to user code from mutex_lock or cond_wait holds the lock, until it unlocks it. */
  ghost function HeldNext<L>(code: Code<L>, s: Sys<Ctx<L>, Os>, t: Tid, held: Holding): Holding
    requires t in s.th
  {
    var c, q := s.th[t].st, Step(Compiled(code), false, s, t);
    if !Memory.Acts(s) then held
    else if Unlocks(code, s, t) then held - {(t, CallOf(code, s, t).m)}
    else if c.ctl.Locking? && !c.ctl.pc.Idle? && t in q.th && q.th[t].st.ctl.User? then held + {(t, c.ctl.pc.m)}
    else if c.ctl.Waking? && t in q.th && q.th[t].st.ctl.User? then held + {(t, c.ctl.m)}
    else held
  }

  /** Only held locks are unlocked, and a thread that comes back from cond_wait gets its lock. */
  ghost predicate Civil<L>(code: Code<L>, s: Sys<Ctx<L>, Os>, t: Tid, held: Holding)
    requires t in s.th
  {
    Memory.Acts(s) ==>
      && (Unlocks(code, s, t) ==> (t, CallOf(code, s, t).m) in held)
      && (s.th[t].st.ctl.Waking? && s.th[t].st.ctl.m in s.g.locks ==> Acquire(s.g.locks[s.th[t].st.ctl.m], t, Single(s.g)).ok)
  }

  // ---------- the invariant ----------

  ghost predicate Taken(g: Os, m: LockId) {
    m in g.locks && g.locks[m].acquired
  }

  ghost predicate SetsAt<L>(s: Sys<Ctx<L>, Os>, t: Tid, m: LockId) {
    t in s.th && var ctl := s.th[t].st.ctl; ctl.Locking? && ctl.pc.Sets? && ctl.pc.m == m
  }

  ghost predicate CountsAt<L>(s: Sys<Ctx<L>, Os>, t: Tid, m: LockId) {
    t in s.th && var ctl := s.th[t].st.ctl; ctl.Locking? && ctl.pc.Counts? && ctl.pc.m == m
  }

  ghost predicate AcquiringAt<L>(s: Sys<Ctx<L>, Os>, t: Tid, m: LockId) {
    t in s.th && var ctl := s.th[t].st.ctl; ctl.Locking? && Acquiring(ctl.pc) && ctl.pc.m == m
  }

  /** Somebody holds the lock, or is about to. */
  ghost predicate Somebody<L>(s: Sys<Ctx<L>, Os>, held: Holding, m: LockId) {
    exists u :: (u, m) in held || CountsAt(s, u, m)
  }

  ghost predicate LockInv<L>(s: Sys<Ctx<L>, Os>, held: Holding, m: LockId) {
    && (forall t, u :: (t, m) in held && (u, m) in held ==> t == u)
    && (forall t :: (t, m) in held ==> Taken(s.g, m))
    && (forall t :: SetsAt(s, t, m) ==> !Taken(s.g, m))
    && (forall t :: CountsAt(s, t, m) ==> Taken(s.g, m) && forall u :: (u, m) !in held)
    && (Taken(s.g, m) ==> Somebody(s, held, m))
  }

  /** Only the lock's first user, a thread alone or the token holder is in lock_acquire. */
  ghost predicate InTurn<L>(s: Sys<Ctx<L>, Os>, t: Tid, m: LockId) {
    t in s.ring &&
    if s.pending == 0 then s.ring == [t] || (m in s.g.locks && s.g.locks[m].users >= 1 && s.g.locks[m].last == t)
    else s.ring[0] == t
  }

  ghost function Mine(held: Holding, t: Tid): set<(Tid, LockId)> {
    set p | p in held && p.0 == t
  }

  /** _lock_count counts the locks held, and one that the thread is about to get; with the token in user code a thread
      holds some lock. */
  ghost predicate CountOk<L>(c: Ctx<L>, held: Holding, t: Tid) {
    && c.count == |Mine(held, t)| + (if c.ctl.Entering? || c.ctl.Locking? || c.ctl.Waking? then 1 else 0)
    && (c.token && c.ctl.User? ==> Mine(held, t) != {})
    && (c.ctl.Waking? ==> (t, c.ctl.m) !in held)
  }

  ghost predicate Exclusive<L>(s: Sys<Ctx<L>, Os>, held: Holding) {
    && (forall m :: LockInv(s, held, m))
    && (forall t, m :: AcquiringAt(s, t, m) ==> InTurn(s, t, m))
    && forall t :: t in s.th ==> CountOk(s.th[t].st, held, t)
  }

  // ---------- what a step leaves alone ----------

  ghost predicate OnlyBy<L>(s: Sys<Ctx<L>, Os>, r: Sys<Ctx<L>, Os>, t: Tid) {
    && t in s.th && (forall u :: u in s.th <==> u in r.th) && forall u :: u in s.th && u != t ==> r.th[u].st == s.th[u].st
  }

  lemma StepOnly<L>(code: Code<L>, s: Sys<Ctx<L>, Os>, t: Tid)
    requires KR.Inv(s) && Enabled(Compiled(code), s, t)
    ensures OnlyBy(s, Step(Compiled(code), false, s, t), t)
    ensures var a, r := Next(Compiled(code), s, t), Step(Compiled(code), false, s, t);
            if Memory.Acts(s) then r.g == Effect(a, s.g) && (r.th[t].st == a.next || (a.Store? && r.th[t].st == s.th[t].st))
            else r.g == s.g && r.th[t].st == s.th[t].st && r.ring == s.ring && r.pending == s.pending
  {
    if Memory.Acts(s) {
      assert KR.ThreadOk(s, t) && (s.pending == 0 ==> KR.Rested(s, t));
      if s.pending == 0 { KR.QuietAction(code, t, s.th[t].st, View(s.sh, s.th[t].dirty), s.g); }
      Memory.GoesOn(Compiled(code), s, t);
    }
  }

  /** A lock that the step is not about. */
  lemma Frame<L>(s: Sys<Ctx<L>, Os>, r: Sys<Ctx<L>, Os>, t: Tid, held: Holding, after: Holding, m: LockId)
    requires LockInv(s, held, m) && OnlyBy(s, r, t) && (Taken(r.g, m) <==> Taken(s.g, m))
    requires forall u :: (u, m) in after <==> (u, m) in held
    requires !SetsAt(s, t, m) && !CountsAt(s, t, m) && !SetsAt(r, t, m) && !CountsAt(r, t, m)
    ensures LockInv(r, after, m)
  {
    forall u ensures (SetsAt(r, u, m) <==> SetsAt(s, u, m)) && (CountsAt(r, u, m) <==> CountsAt(s, u, m)) {}
    if Taken(r.g, m) {
      var u :| (u, m) in held || CountsAt(s, u, m);
      assert (u, m) in after || CountsAt(r, u, m);
    }
  }

  /** At most one thread is in lock_acquire of a lock. */
  lemma OneAcquires<L>(s: Sys<Ctx<L>, Os>, t: Tid, u: Tid, m: LockId)
    requires InTurn(s, t, m) && InTurn(s, u, m)
    ensures t == u
  {
  }

  // ---------- mutex_lock ----------

  /** The step of t from one place in mutex_lock to the next. */
  ghost predicate Locks<L>(s: Sys<Ctx<L>, Os>, r: Sys<Ctx<L>, Os>, t: Tid, pc: Pc, next: L) {
    && OnlyBy(s, r, t) && s.th[t].st.ctl == Locking(pc, next) && !pc.Idle? && !pc.Denied? && pc.m in s.g.locks
    && var c, a := s.th[t].st, M.Access(s.g.locks[pc.m], t, Single(s.g), pc);
       && r.g.locks == s.g.locks[pc.m := a.lock]
       && r.th[t].st == (if a.got then c.(st := next, ctl := User) else c.(ctl := Locking(a.pc, next)))
  }

  /** The lock itself. */
  lemma LockedInv<L>(s: Sys<Ctx<L>, Os>, r: Sys<Ctx<L>, Os>, t: Tid, pc: Pc, next: L, held: Holding)
    requires Locks(s, r, t, pc, next) && LockInv(s, held, pc.m)
    requires forall u :: u != t ==> !(AcquiringAt(s, t, pc.m) && AcquiringAt(s, u, pc.m))
    ensures LockInv(r, if r.th[t].st.ctl.User? then held + {(t, pc.m)} else held, pc.m)
    ensures r.th[t].st.ctl.User? ==> Taken(r.g, pc.m) && forall u :: (u, pc.m) !in held
  {
    var m, after := pc.m, if r.th[t].st.ctl.User? then held + {(t, pc.m)} else held;
    if pc.Sets? {
      assert SetsAt(s, t, m) && CountsAt(r, t, m) && Taken(r.g, m);
      forall u | CountsAt(r, u, m) ensures u == t { assert CountsAt(s, u, m) || u == t; assert AcquiringAt(s, u, m); }
      forall u | SetsAt(r, u, m) ensures false { assert AcquiringAt(s, u, m); }
    } else if pc.Counts? {
      assert CountsAt(s, t, m);
      forall u ensures !CountsAt(r, u, m) && !SetsAt(r, u, m) {
        if CountsAt(r, u, m) || SetsAt(r, u, m) { assert u != t && AcquiringAt(s, u, m) && AcquiringAt(s, t, m); }
      }
      if r.th[t].st.ctl.User? { assert (t, m) in after; }
    } else if pc.Tests? && !s.g.locks[m].acquired {
      forall u ensures CountsAt(r, u, m) <==> CountsAt(s, u, m) {}
    } else {
      Frame(s, r, t, held, after, m);
    }
  }

  lemma UniqueAcquirer<L>(s: Sys<Ctx<L>, Os>, held: Holding, t: Tid, m: LockId)
    requires Exclusive(s, held)
    ensures forall u :: u != t ==> !(AcquiringAt(s, t, m) && AcquiringAt(s, u, m))
  {
    forall u | u != t ensures !(AcquiringAt(s, t, m) && AcquiringAt(s, u, m)) {
      if AcquiringAt(s, t, m) && AcquiringAt(s, u, m) { OneAcquires(s, t, u, m); }
    }
  }

  /** In mutex_lock a thread passes the token when it is denied, goes for it, or makes an access. */
  ghost predicate LockingGoes<L>(s: Sys<Ctx<L>, Os>, r: Sys<Ctx<L>, Os>, t: Tid)
    requires t in s.th && s.th[t].st.ctl.Locking?
  {
    var c := s.th[t].st;
    && !c.ctl.pc.Idle? && t in r.th
    && if c.ctl.pc.Denied? || (c.ctl.pc.Wants? && !c.token)
       then r.g.locks == s.g.locks && r.th[t].st.ctl == Locking(Wants(c.ctl.pc.m), c.ctl.next) && r.th[t].st.count == c.count
       else Locks(s, r, t, c.ctl.pc, c.ctl.next)
  }

  lemma LockingStep<L>(code: Code<L>, s: Sys<Ctx<L>, Os>, t: Tid)
    requires KR.Inv(s) && Enabled(Compiled(code), s, t) && Memory.Acts(s) && s.th[t].st.ctl.Locking?
    ensures LockingGoes(s, Step(Compiled(code), false, s, t), t)
  {
    assert KR.ThreadOk(s, t);
    StepOnly(code, s, t);
  }

  lemma LockingKeeps<L>(code: Code<L>, s: Sys<Ctx<L>, Os>, t: Tid, held: Holding, m: LockId)
    requires KR.Inv(s) && Exclusive(s, held) && Enabled(Compiled(code), s, t) && Memory.Acts(s) && s.th[t].st.ctl.Locking?
    ensures LockInv(Step(Compiled(code), false, s, t), HeldNext(code, s, t, held), m)
  {
    var c, r, after := s.th[t].st, Step(Compiled(code), false, s, t), HeldNext(code, s, t, held);
    LockingStep(code, s, t);
    StepOnly(code, s, t);
    assert KR.ThreadOk(s, t) && LockInv(s, held, m);
    UniqueAcquirer(s, held, t, m);
    if m == c.ctl.pc.m && Locks(s, r, t, c.ctl.pc, c.ctl.next) {
      LockedInv(s, r, t, c.ctl.pc, c.ctl.next, held);
    } else {
      Frame(s, r, t, held, after, m);
    }
  }

  // ---------- mutex_unlock and cond_wait ----------

  /** After mutex_unlock, and when a thread goes to sleep in cond_wait, the lock may be taken. */
  lemma UnlockFrees<L>(code: Code<L>, s: Sys<Ctx<L>, Os>, t: Tid)
    requires KR.Inv(s) && Enabled(Compiled(code), s, t) && Memory.Acts(s) && Unlocks(code, s, t)
    ensures var m, r := CallOf(code, s, t).m, Step(Compiled(code), false, s, t);
            && t in r.th && m in s.g.locks && r.g.locks == s.g.locks[m := M.Release(s.g.locks[m])] && !Taken(r.g, m)
            && (r.th[t].st.ctl.User? || r.th[t].st.ctl.Handing? || r.th[t].st.ctl == Waking(m, CallOf(code, s, t).next))
  {
    StepOnly(code, s, t);
  }

  lemma UnlockKeeps<L>(code: Code<L>, s: Sys<Ctx<L>, Os>, t: Tid, held: Holding, m: LockId)
    requires KR.Inv(s) && Exclusive(s, held) && Enabled(Compiled(code), s, t) && Memory.Acts(s) && Unlocks(code, s, t)
    requires (t, CallOf(code, s, t).m) in held
    ensures LockInv(Step(Compiled(code), false, s, t), HeldNext(code, s, t, held), m)
  {
    var r, after := Step(Compiled(code), false, s, t), HeldNext(code, s, t, held);
    UnlockFrees(code, s, t);
    StepOnly(code, s, t);
    assert LockInv(s, held, m);
    if m == CallOf(code, s, t).m {
      forall u ensures !CountsAt(r, u, m) { assert !CountsAt(s, u, m); }
    } else {
      Frame(s, r, t, held, after, m);
    }
  }

  /** The end of cond_wait. */
  lemma RetakeStep<L>(code: Code<L>, s: Sys<Ctx<L>, Os>, t: Tid)
    requires KR.Inv(s) && Enabled(Compiled(code), s, t) && Memory.Acts(s) && s.th[t].st.ctl.Waking?
    ensures var c, r := s.th[t].st, Step(Compiled(code), false, s, t);
            && c.ctl.m in s.g.locks && r.th[t].st == c.(st := c.ctl.next, ctl := User) && s.pending > 0
            && r.g.locks == s.g.locks[c.ctl.m := Acquire(s.g.locks[c.ctl.m], t, Single(s.g)).lock]
  {
    assert KR.ThreadOk(s, t) && (s.pending == 0 ==> KR.Rested(s, t));
    StepOnly(code, s, t);
  }

  lemma RetakeKeeps<L>(code: Code<L>, s: Sys<Ctx<L>, Os>, t: Tid, held: Holding, m: LockId)
    requires KR.Inv(s) && Exclusive(s, held) && Enabled(Compiled(code), s, t) && Memory.Acts(s) && s.th[t].st.ctl.Waking?
    requires Civil(code, s, t, held)
    ensures LockInv(Step(Compiled(code), false, s, t), HeldNext(code, s, t, held), m)
  {
    var r, after := Step(Compiled(code), false, s, t), HeldNext(code, s, t, held);
    RetakeStep(code, s, t);
    StepOnly(code, s, t);
    assert LockInv(s, held, m);
    if m == s.th[t].st.ctl.m {
      forall u ensures !SetsAt(r, u, m) && !CountsAt(r, u, m) { NotBeside(s, held, t, u, m); }
      assert (t, m) in after;
    } else {
      Frame(s, r, t, held, after, m);
    }
  }

  /** While the token holder is elsewhere nobody is in lock_acquire. */
  lemma NotBeside<L>(s: Sys<Ctx<L>, Os>, held: Holding, t: Tid, u: Tid, m: LockId)
    requires Exclusive(s, held) && s.pending > 0 && s.ring != [] && t == s.ring[0] && !AcquiringAt(s, t, m)
    ensures !AcquiringAt(s, u, m)
  {
    assert AcquiringAt(s, u, m) ==> InTurn(s, u, m);
  }

  // ---------- all steps ----------

  /** Calls besides mutex_lock, mutex_unlock and cond_wait. */
  lemma OtherAction<L>(code: Code<L>, t: Tid, c: Ctx<L>, v: seq<Page>, g: Os)
    requires !c.ctl.Locking? && !c.ctl.Waking? && !Do(code, t, c, v, g).Stuck?
    requires c.ctl.User? ==> !code(t, c.st, v).MutexUnlock? && !code(t, c.st, v).CondWait?
    ensures var a := Do(code, t, c, v, g);
            Effect(a, g).locks == g.locks && (a.next.ctl.Locking? ==> !a.next.ctl.pc.Sets? && !a.next.ctl.pc.Counts?)
  {
  }

  lemma OtherStep<L>(code: Code<L>, s: Sys<Ctx<L>, Os>, t: Tid)
    requires KR.Inv(s) && Enabled(Compiled(code), s, t) && Memory.Acts(s)
    requires !(s.th[t].st.ctl.Locking? || s.th[t].st.ctl.Waking? || Unlocks(code, s, t))
    ensures var r := Step(Compiled(code), false, s, t);
            r.g.locks == s.g.locks && forall m :: !SetsAt(r, t, m) && !CountsAt(r, t, m)
  {
    OtherAction(code, t, s.th[t].st, View(s.sh, s.th[t].dirty), s.g);
    StepOnly(code, s, t);
  }

  lemma LocksKeep<L>(code: Code<L>, s: Sys<Ctx<L>, Os>, t: Tid, held: Holding, m: LockId)
    requires KR.Inv(s) && Exclusive(s, held) && Enabled(Compiled(code), s, t) && Civil(code, s, t, held)
    ensures LockInv(Step(Compiled(code), false, s, t), HeldNext(code, s, t, held), m)
  {
    var r, after := Step(Compiled(code), false, s, t), HeldNext(code, s, t, held);
    if !Memory.Acts(s) {
      StillInv(code, s, t, held, m);
    } else if s.th[t].st.ctl.Locking? {
      LockingKeeps(code, s, t, held, m);
    } else if s.th[t].st.ctl.Waking? {
      RetakeKeeps(code, s, t, held, m);
    } else if Unlocks(code, s, t) {
      UnlockKeeps(code, s, t, held, m);
    } else {
      OtherStep(code, s, t);
      StepOnly(code, s, t);
      assert LockInv(s, held, m);
      Frame(s, r, t, held, after, m);
    }
  }

  /** The commit that comes with the token. */
  lemma StillInv<L>(code: Code<L>, s: Sys<Ctx<L>, Os>, t: Tid, held: Holding, m: LockId)
    requires KR.Inv(s) && Exclusive(s, held) && Enabled(Compiled(code), s, t) && !Memory.Acts(s)
    ensures LockInv(Step(Compiled(code), false, s, t), held, m)
  {
    var r := Step(Compiled(code), false, s, t);
    StepOnly(code, s, t);
    assert LockInv(s, held, m);
    forall u ensures (SetsAt(r, u, m) <==> SetsAt(s, u, m)) && (CountsAt(r, u, m) <==> CountsAt(s, u, m)) {}
    if Taken(r.g, m) {
      var u :| (u, m) in held || CountsAt(s, u, m);
      assert (u, m) in held || CountsAt(r, u, m);
    }
  }

  // ---------- who may be in lock_acquire ----------

  /** How a step brings its thread into lock_acquire, or keeps it there. */
  lemma ActionAcquires<L>(code: Code<L>, t: Tid, c: Ctx<L>, v: seq<Page>, g: Os)
    requires KR.LocksOk(g) && KR.CtlOk(g, t, c) && !Do(code, t, c, v, g).Stuck?
    requires var a := Do(code, t, c, v, g); a.next.ctl.Locking? && Acquiring(a.next.ctl.pc)
    ensures var a := Do(code, t, c, v, g); var m := a.next.ctl.pc.m;
            && a.Access? && m in g.locks
            && ((c.ctl.Locking? && Acquiring(c.ctl.pc) && c.ctl.pc.m == m) || Single(g) || c.token
                || (g.locks[m].users >= 1 && g.locks[m].last == t))
  {
  }

  lemma StoreFromUser<L>(code: Code<L>, t: Tid, c: Ctx<L>, v: seq<Page>, g: Os)
    ensures var a := Do(code, t, c, v, g); a.Store? ==> c.ctl.User? && code(t, c.st, v).Write? && a.next.ctl.User? && a.next.count == c.count && a.next.token == c.token
  {
  }

  lemma AcquirerNext<L>(code: Code<L>, s: Sys<Ctx<L>, Os>, t: Tid, m: LockId)
    requires KR.Inv(s) && Enabled(Compiled(code), s, t) && Memory.Acts(s) && AcquiringAt(Step(Compiled(code), false, s, t), t, m)
    ensures var a := Next(Compiled(code), s, t); !a.Stuck? && a.next.ctl.Locking? && Acquiring(a.next.ctl.pc) && a.next.ctl.pc.m == m
    ensures Step(Compiled(code), false, s, t).g == Effect(Next(Compiled(code), s, t), s.g)
  {
    StepOnly(code, s, t);
    StoreFromUser(code, t, s.th[t].st, View(s.sh, s.th[t].dirty), s.g);
  }

  lemma AcquirerAccesses<L>(code: Code<L>, s: Sys<Ctx<L>, Os>, t: Tid, m: LockId)
    requires KR.Inv(s) && Enabled(Compiled(code), s, t) && Memory.Acts(s) && AcquiringAt(Step(Compiled(code), false, s, t), t, m)
    ensures Next(Compiled(code), s, t).Access? && m in s.g.locks
    ensures AcquiringAt(s, t, m) || Single(s.g) || s.pending > 0 || (s.g.locks[m].users >= 1 && s.g.locks[m].last == t)
    ensures KR.Grows(s.g, Step(Compiled(code), false, s, t).g)
  {
    var c, v := s.th[t].st, View(s.sh, s.th[t].dirty);
    assert KR.ThreadOk(s, t) && (s.pending == 0 ==> KR.Rested(s, t));
    AcquirerNext(code, s, t, m);
    ActionAcquires(code, t, c, v, s.g);
    KR.ActionOk(code, t, c, v, s.g);
  }

  lemma AcquirerInTurn<L>(code: Code<L>, s: Sys<Ctx<L>, Os>, held: Holding, t: Tid, m: LockId)
    requires KR.Inv(s) && Exclusive(s, held) && Enabled(Compiled(code), s, t) && Memory.Acts(s)
    requires AcquiringAt(Step(Compiled(code), false, s, t), t, m)
    ensures InTurn(Step(Compiled(code), false, s, t), t, m)
  {
    AcquirerAccesses(code, s, t, m);
    Memory.QuietHides(Compiled(code), s, t);
    StillInTurn(s, Step(Compiled(code), false, s, t), t, m);
  }

  lemma StillInTurn<L>(s: Sys<Ctx<L>, Os>, r: Sys<Ctx<L>, Os>, t: Tid, m: LockId)
    requires KR.Queued(s) && t in s.ring && r.ring == s.ring && r.pending == s.pending && t in s.th && KR.Grows(s.g, r.g) && m in s.g.locks
    requires s.pending > 0 ==> s.ring[0] == t
    requires InTurn(s, t, m) || Single(s.g) || (s.pending > 0) || (s.g.locks[m].users >= 1 && s.g.locks[m].last == t)
    ensures InTurn(r, t, m)
  {
    KR.SingleIsAlone(s, t);
  }

  /** The others are as they were, or the phase is over and nobody is in lock_acquire. */
  lemma OthersInTurn<L>(code: Code<L>, s: Sys<Ctx<L>, Os>, held: Holding, t: Tid, u: Tid, m: LockId)
    requires KR.Inv(s) && Exclusive(s, held) && Enabled(Compiled(code), s, t)
    requires u != t || !Memory.Acts(s)
    requires AcquiringAt(Step(Compiled(code), false, s, t), u, m)
    ensures InTurn(Step(Compiled(code), false, s, t), u, m)
  {
    StepOnly(code, s, t);
    assert AcquiringAt(s, u, m) && InTurn(s, u, m);
    if s.pending == 0 { ParallelInTurn(code, s, t, u, m); }
  }

  lemma ParallelInTurn<L>(code: Code<L>, s: Sys<Ctx<L>, Os>, t: Tid, u: Tid, m: LockId)
    requires KR.Inv(s) && Enabled(Compiled(code), s, t) && s.pending == 0 && InTurn(s, u, m)
    requires AcquiringAt(Step(Compiled(code), false, s, t), u, m)
    ensures InTurn(Step(Compiled(code), false, s, t), u, m)
  {
    var r := Step(Compiled(code), false, s, t);
    StepOnly(code, s, t);
    KR.StepKeepsInv(code, s, t);
    assert KR.ThreadOk(r, u) && KR.ThreadOk(s, t) && KR.Rested(s, t);
    D.StepIsLocal(Compiled(code), s, t);
    KR.ActionOk(code, t, s.th[t].st, View(s.sh, s.th[t].dirty), s.g);
    assert !r.th[u].waiting;
  }

  // ---------- _lock_count ----------

  lemma MineWith(held: Holding, t: Tid, m: LockId, u: Tid)
    ensures Mine(held + {(t, m)}, u) == (if u == t then Mine(held, u) + {(t, m)} else Mine(held, u))
    ensures Mine(held - {(t, m)}, u) == (if u == t then Mine(held, u) - {(t, m)} else Mine(held, u))
  {
  }

  /** What a call does to the count, and where the thread goes. */
  lemma CountAction<L>(code: Code<L>, t: Tid, c: Ctx<L>, v: seq<Page>, g: Os, held: Holding, after: Holding)
    requires KR.CtlOk(g, t, c) && !Do(code, t, c, v, g).Stuck? && CountOk(c, held, t)
    requires var a := Do(code, t, c, v, g);
             after == if c.ctl.User? && (code(t, c.st, v).MutexUnlock? || code(t, c.st, v).CondWait?) then held - {(t, code(t, c.st, v).m)}
                      else if c.ctl.Locking? && a.next.ctl.User? then held + {(t, c.ctl.pc.m)}
                      else if c.ctl.Waking? then held + {(t, c.ctl.m)} else held
    requires c.ctl.User? && (code(t, c.st, v).MutexUnlock? || code(t, c.st, v).CondWait?) ==> (t, code(t, c.st, v).m) in held
    requires c.ctl.Locking? && Do(code, t, c, v, g).next.ctl.User? ==> (t, c.ctl.pc.m) !in held
    ensures CountOk(Do(code, t, c, v, g).next, after, t)
  {
    match c.ctl
    case User => CallCounts(t, c, code(t, c.st, v), g, held, after);
    case Locking(pc, _) => MineWith(held, t, pc.m, t);
    case Waking(m, _) => MineWith(held, t, m, t);
    case _ =>
  }

  lemma CallCounts<L>(t: Tid, c: Ctx<L>, call: Call<L>, g: Os, held: Holding, after: Holding)
    requires c.ctl.User? && !Begin(t, c, call, g).Stuck? && CountOk(c, held, t)
    requires after == if call.MutexUnlock? || call.CondWait? then held - {(t, call.m)} else held
    requires call.MutexUnlock? || call.CondWait? ==> (t, call.m) in held
    ensures CountOk(Begin(t, c, call, g).next, after, t)
  {
    if call.MutexUnlock? || call.CondWait? {
      MineWith(held, t, call.m, t);
      assert (t, call.m) in Mine(held, t);
    }
  }

  /** The thread is still in mutex_lock of the same lock, or has come out of it. */
  ghost predicate InOrOut<L>(c: Ctx<L>, e: Ctx<L>, m: LockId) {
    if e.ctl.Locking? then Asks(e, m) && c.ctl.Locking? && e.ctl.next == c.ctl.next
    else c.ctl.Locking? && e == c.(st := c.ctl.next, ctl := User)
  }

  lemma LocksOut<L>(code: Code<L>, s: Sys<Ctx<L>, Os>, t: Tid, m: LockId)
    requires KR.Inv(s) && Enabled(Compiled(code), s, t) && Memory.Acts(s) && s.th[t].st.ctl.Locking? && Asks(s.th[t].st, m)
    ensures var r := Step(Compiled(code), false, s, t); t in r.th && InOrOut(s.th[t].st, r.th[t].st, m)
  {
    LockingStep(code, s, t);
    StepOnly(code, s, t);
  }

  /** A thread comes out of mutex_lock only with the lock, which nobody held. */
  lemma LocksAlone<L>(code: Code<L>, s: Sys<Ctx<L>, Os>, t: Tid, held: Holding, m: LockId)
    requires KR.Inv(s) && Exclusive(s, held) && Enabled(Compiled(code), s, t) && Memory.Acts(s)
    requires s.th[t].st.ctl.Locking? && Asks(s.th[t].st, m)
    ensures var r := Step(Compiled(code), false, s, t);
            t in r.th && InOrOut(s.th[t].st, r.th[t].st, m) && (r.th[t].st.ctl.User? ==> Taken(r.g, m) && forall u :: (u, m) !in held)
  {
    var c, r := s.th[t].st, Step(Compiled(code), false, s, t);
    LocksOut(code, s, t, m);
    if r.th[t].st.ctl.User? {
      LockingStep(code, s, t);
      assert LockInv(s, held, m);
      UniqueAcquirer(s, held, t, m);
      LockedInv(s, r, t, c.ctl.pc, c.ctl.next, held);
    }
  }

  lemma CountsKeep<L>(code: Code<L>, s: Sys<Ctx<L>, Os>, t: Tid, held: Holding, u: Tid)
    requires KR.Inv(s) && Exclusive(s, held) && Enabled(Compiled(code), s, t) && Civil(code, s, t, held) && u in s.th
    ensures var r := Step(Compiled(code), false, s, t); u in r.th && CountOk(r.th[u].st, HeldNext(code, s, t, held), u)
  {
    var r, after := Step(Compiled(code), false, s, t), HeldNext(code, s, t, held);
    StepOnly(code, s, t);
    assert CountOk(s.th[u].st, held, u) && KR.ThreadOk(s, t);
    if u != t {
      assert Mine(after, u) == Mine(held, u);
    } else if Memory.Acts(s) {
      OwnCount(code, s, t, held);
    }
  }

  lemma OwnCount<L>(code: Code<L>, s: Sys<Ctx<L>, Os>, t: Tid, held: Holding)
    requires KR.Inv(s) && Exclusive(s, held) && Enabled(Compiled(code), s, t) && Civil(code, s, t, held) && Memory.Acts(s)
    ensures var r := Step(Compiled(code), false, s, t); t in r.th && CountOk(r.th[t].st, HeldNext(code, s, t, held), t)
  {
    var c, v, a := s.th[t].st, View(s.sh, s.th[t].dirty), Next(Compiled(code), s, t);
    var r := Step(Compiled(code), false, s, t);
    StepOnly(code, s, t);
    assert CountOk(c, held, t) && KR.ThreadOk(s, t);
    StoreFromUser(code, t, c, v, s.g);
    if a.Store? {
      StoresHoldNothing(code, s, t, held);
    } else {
      if c.ctl.Locking? { LocksAlone(code, s, t, held, c.ctl.pc.m); }
      if c.ctl.Waking? { RetakeStep(code, s, t); }
      CountAction(code, t, c, v, s.g, held, HeldNext(code, s, t, held));
    }
  }

  lemma StoresHoldNothing<L>(code: Code<L>, s: Sys<Ctx<L>, Os>, t: Tid, held: Holding)
    requires t in s.th && Next(Compiled(code), s, t).Store?
    ensures HeldNext(code, s, t, held) == held
  {
    StoreFromUser(code, t, s.th[t].st, View(s.sh, s.th[t].dirty), s.g);
  }

  /** Every step of every program keeps locks and counts in order, as long as only held locks are unlocked and threads
      get their locks back in cond_wait. */
  lemma StepKeeps<L>(code: Code<L>, s: Sys<Ctx<L>, Os>, t: Tid, held: Holding)
    requires KR.Inv(s) && Exclusive(s, held) && Enabled(Compiled(code), s, t) && Civil(code, s, t, held)
    ensures Exclusive(Step(Compiled(code), false, s, t), HeldNext(code, s, t, held))
  {
    var r, after := Step(Compiled(code), false, s, t), HeldNext(code, s, t, held);
    StepOnly(code, s, t);
    forall m ensures LockInv(r, after, m) { LocksKeep(code, s, t, held, m); }
    forall u, m | AcquiringAt(r, u, m) ensures InTurn(r, u, m) {
      if u == t && Memory.Acts(s) { AcquirerInTurn(code, s, held, t, m); } else { OthersInTurn(code, s, held, t, u, m); }
    }
    forall u | u in r.th ensures CountOk(r.th[u].st, after, u) { CountsKeep(code, s, t, held, u); }
  }

  /** The result of lock_acquire at the end of cond_wait, which nobody looks at, decides: locks stay in order if and only
      if it is true. */
  lemma RetakeIff<L>(code: Code<L>, s: Sys<Ctx<L>, Os>, t: Tid, held: Holding)
    requires KR.Inv(s) && Exclusive(s, held) && Enabled(Compiled(code), s, t) && Memory.Acts(s) && s.th[t].st.ctl.Waking?
    ensures s.th[t].st.ctl.m in s.g.locks
    ensures Exclusive(Step(Compiled(code), false, s, t), HeldNext(code, s, t, held))
            <==> Acquire(s.g.locks[s.th[t].st.ctl.m], t, Single(s.g)).ok
  {
    var m, r, after := s.th[t].st.ctl.m, Step(Compiled(code), false, s, t), HeldNext(code, s, t, held);
    RetakeStep(code, s, t);
    if Acquire(s.g.locks[m], t, Single(s.g)).ok {
      StepKeeps(code, s, t, held);
    } else {
      assert (t, m) in after && LockInv(s, held, m) && CountOk(s.th[t].st, held, t);
      if Taken(s.g, m) {
        var u :| (u, m) in held || CountsAt(s, u, m);
        if CountsAt(s, u, m) { NotBeside(s, held, t, u, m); }
        assert (u, m) in after && u != t;
      }
      assert !LockInv(r, after, m);
    }
  }

  /** Whoever has the token in user code holds a lock. */
  lemma TokenHolds<L>(s: Sys<Ctx<L>, Os>, t: Tid, held: Holding)
    requires Exclusive(s, held) && t in s.th && s.th[t].st.token && s.th[t].st.ctl.User?
    ensures Mine(held, t) != {}
  {
    assert CountOk(s.th[t].st, held, t);
  }

  lemma UnlockHands<L>(code: Code<L>, t: Tid, c: Ctx<L>, v: seq<Page>, g: Os)
    requires c.ctl.User? && code(t, c.st, v).MutexUnlock? && !Do(code, t, c, v, g).Stuck?
    ensures var a := Do(code, t, c, v, g); !a.Store? && (a.next.ctl.Handing? <==> c.token && c.count == 1)
  {
  }

  lemma LastOne<L>(c: Ctx<L>, held: Holding, t: Tid, m: LockId)
    requires CountOk(c, held, t) && c.ctl.User? && (t, m) in held
    ensures c.count == 1 <==> Mine(held - {(t, m)}, t) == {}
  {
    MineWith(held, t, m, t);
    var mine, p := Mine(held, t), (t, m);
    assert p in mine && Mine(held - {p}, t) == mine - {p} && |mine - {p}| == |mine| - 1;
  }

  /** It passes the token when it unlocks the last one. */
  lemma TokenTillUnlocked<L>(code: Code<L>, s: Sys<Ctx<L>, Os>, t: Tid, held: Holding)
    requires KR.Inv(s) && Exclusive(s, held) && Enabled(Compiled(code), s, t) && Civil(code, s, t, held) && Memory.Acts(s)
    requires s.th[t].st.token && s.th[t].st.ctl.User? && CallOf(code, s, t).MutexUnlock?
    ensures var r := Step(Compiled(code), false, s, t);
            t in r.th && (r.th[t].st.ctl.Handing? <==> Mine(held - {(t, CallOf(code, s, t).m)}, t) == {})
  {
    StepOnly(code, s, t);
    UnlockHands(code, t, s.th[t].st, View(s.sh, s.th[t].dirty), s.g);
    LastOne(s.th[t].st, held, t, CallOf(code, s, t).m);
  }

  // ---------- whole runs ----------

  ghost function HeldAfter<L(!new)>(code: Code<L>, s: Sys<Ctx<L>, Os>, sched: seq<Tid>, held: Holding): Holding
    decreases |sched|
  {
    if sched == [] || sched[0] !in s.th then held
    else HeldAfter(code, Step(Compiled(code), false, s, sched[0]), sched[1..], HeldNext(code, s, sched[0], held))
  }

  ghost predicate CivilRun<L(!new)>(code: Code<L>, s: Sys<Ctx<L>, Os>, sched: seq<Tid>, held: Holding)
    decreases |sched|
  {
    sched == [] || sched[0] !in s.th ||
      (Civil(code, s, sched[0], held)
       && CivilRun(code, Step(Compiled(code), false, s, sched[0]), sched[1..], HeldNext(code, s, sched[0], held)))
  }

  lemma {:induction false} RunKeeps<L(!new)>(code: Code<L>, s: Sys<Ctx<L>, Os>, sched: seq<Tid>, held: Holding)
    requires KR.Inv(s) && Exclusive(s, held) && Valid(System(Compiled(code), false), s, sched) && CivilRun(code, s, sched, held)
    ensures Exclusive(Exec(System(Compiled(code), false), s, sched), HeldAfter(code, s, sched, held))
    decreases |sched|
  {
    if sched != [] {
      var t := sched[0];
      StepKeeps(code, s, t, held);
      KR.StepKeepsInv(code, s, t);
      RunKeeps(code, Step(Compiled(code), false, s, t), sched[1..], HeldNext(code, s, t, held));
    }
  }

  /** At the start nobody holds a lock. */
  ghost predicate Unlocked<L>(s: Sys<Ctx<L>, Os>) {
    (forall m :: !Taken(s.g, m)) && forall t :: t in s.th ==> s.th[t].st.count == 0 && KR.Free(s.th[t].st)
  }

  lemma UnlockedIsExclusive<L>(s: Sys<Ctx<L>, Os>)
    requires Unlocked(s)
    ensures Exclusive(s, {})
  {
    forall t | t in s.th ensures CountOk(s.th[t].st, {}, t) { assert Mine({}, t) == {}; }
  }

  lemma RuntimeKeeps<L(!new)>(code: Code<L>, cores: int, s: Runtime.Rt<Ctx<L>, Os>, run: seq<Runtime.Event>)
    requires KR.Start(s) && Unlocked(s.mem) && Valid(Runtime.System(Compiled(code), cores), s, run)
    requires CivilRun(code, s.mem, Runtime.Schedule(Compiled(code), cores, s, run), {})
    ensures Exclusive(Exec(Runtime.System(Compiled(code), cores), s, run).mem, HeldAfter(code, s.mem, Runtime.Schedule(Compiled(code), cores, s, run), {}))
  {
    KR.CompiledSteady(code);
    KR.StartInv(s);
    Runtime.InitialInv(Compiled(code), s);
    Runtime.RunIsMachineRun(Compiled(code), cores, s, run);
    UnlockedIsExclusive(s.mem);
    RunKeeps(code, s.mem, Runtime.Schedule(Compiled(code), cores, s, run), {});
  }

  /** Mutual exclusion, through the whole runtime: at most one thread is between mutex_lock and mutex_unlock of a lock,
      and the lock is marked as taken exactly while somebody is, or is about to be. */
  lemma ProgramsExclude<L(!new)>(code: Code<L>, cores: int, s: Runtime.Rt<Ctx<L>, Os>, run: seq<Runtime.Event>, t: Tid, u: Tid, m: LockId)
    requires KR.Start(s) && Unlocked(s.mem) && Valid(Runtime.System(Compiled(code), cores), s, run)
    requires CivilRun(code, s.mem, Runtime.Schedule(Compiled(code), cores, s, run), {})
    ensures var q, held := Exec(Runtime.System(Compiled(code), cores), s, run).mem,
                           HeldAfter(code, s.mem, Runtime.Schedule(Compiled(code), cores, s, run), {});
            && ((t, m) in held && (u, m) in held ==> t == u)
            && (Taken(q.g, m) <==> Somebody(q, held, m))
            && (t in q.th ==> CountOk(q.th[t].st, held, t))
  {
    var q, held := Exec(Runtime.System(Compiled(code), cores), s, run).mem,
                   HeldAfter(code, s.mem, Runtime.Schedule(Compiled(code), cores, s, run), {});
    RuntimeKeeps(code, cores, s, run);
    assert LockInv(q, held, m);
  }

  // ---------- mutex_lock as a whole ----------

  /** It is for t to go on: in a parallel phase, or with the token. */
  ghost predicate MayGo<L>(s: Sys<Ctx<L>, Os>, t: Tid) {
    && KR.Inv(s) && !s.sh.overrun && t in s.th && t in s.ring
    && if s.pending == 0 then !s.th[t].waiting else s.began && s.ring[0] == t
  }

  /** The lock and t's place are now these, and nothing else has changed. */
  ghost predicate Went<L>(s: Sys<Ctx<L>, Os>, r: Sys<Ctx<L>, Os>, t: Tid, m: LockId, e: Lock, st: Ctx<L>) {
    && r.sh == s.sh && r.ring == s.ring && r.pending == s.pending && r.began == s.began && r.round == s.round && r.g.q == s.g.q
    && OnlyBy(s, r, t) && (forall u :: u in s.th ==> u in r.th && r.th[u].waiting == s.th[u].waiting)
    && MayGo(r, t) && m in s.g.locks && r.g.locks == s.g.locks[m := e] && r.th[t].st == st
  }

  lemma WentOn<L>(s: Sys<Ctx<L>, Os>, a: Sys<Ctx<L>, Os>, r: Sys<Ctx<L>, Os>, t: Tid, m: LockId, e: Lock, st: Ctx<L>, f: Lock, end: Ctx<L>)
    requires Went(s, a, t, m, e, st) && Went(a, r, t, m, f, end)
    ensures Went(s, r, t, m, f, end)
  {
  }

  ghost function Place<L>(c: Ctx<L>, a: Accessed, next: L): Ctx<L> {
    if a.got then c.(st := next, ctl := User) else c.(ctl := Locking(a.pc, next))
  }

  /** The next access can be made without the fence. */
  ghost predicate Goes(token: bool, pc: Pc) {
    !pc.Idle? && !pc.Denied? && !(pc.Wants? && !token)
  }

  lemma AccessGoes<L>(code: Code<L>, s: Sys<Ctx<L>, Os>, t: Tid, pc: Pc, next: L)
    requires MayGo(s, t) && s.th[t].st.ctl == Locking(pc, next) && Goes(s.th[t].st.token, pc)
    ensures pc.m in s.g.locks && Enabled(Compiled(code), s, t)
    ensures var a := M.Access(s.g.locks[pc.m], t, Single(s.g), pc);
            Went(s, Step(Compiled(code), false, s, t), t, pc.m, a.lock, Place(s.th[t].st, a, next))
  {
    assert KR.ThreadOk(s, t);
    LockingStep(code, s, t);
    KR.StepKeepsInv(code, s, t);
    StepOnly(code, s, t);
    Memory.QuietHides(Compiled(code), s, t);
  }

  ghost function Steps<L>(code: Code<L>, s: Sys<Ctx<L>, Os>, t: Tid, n: nat): Sys<Ctx<L>, Os>
    decreases n
  {
    if n == 0 then s else Steps(code, Step(Compiled(code), false, s, t), t, n - 1)
  }

  /** None of the next n accesses needs the fence, and none but the last gets the lock. */
  ghost predicate GoesFor(e: Lock, t: Tid, single: bool, token: bool, pc: Pc, n: nat)
    decreases n
  {
    n == 0 || (Goes(token, pc) && var a := M.Access(e, t, single, pc); (n > 1 ==> !a.got && GoesFor(a.lock, t, single, token, a.pc, n - 1)))
  }

  /** Undisturbed, t makes its accesses one after the other. */
  lemma {:induction false} StepsGo<L>(code: Code<L>, s: Sys<Ctx<L>, Os>, t: Tid, pc: Pc, next: L, n: nat)
    requires MayGo(s, t) && s.th[t].st.ctl == Locking(pc, next) && !pc.Idle? && pc.m in s.g.locks && n > 0
    requires GoesFor(s.g.locks[pc.m], t, Single(s.g), s.th[t].st.token, pc, n)
    ensures var u := Undisturbed(s.g.locks[pc.m], t, Single(s.g), pc, n);
            Went(s, Steps(code, s, t, n), t, pc.m, u.lock, Place(s.th[t].st, u, next))
    decreases n
  {
    if n == 1 {
      OneGoes(code, s, t, pc, next);
    } else {
      NextGoes(code, s, t, pc, next, n);
      var a, r := M.Access(s.g.locks[pc.m], t, Single(s.g), pc), Step(Compiled(code), false, s, t);
      StepsGo(code, r, t, a.pc, next, n - 1);
      StepsGoOn(code, s, r, t, pc, next, n, a, Undisturbed(a.lock, t, Single(s.g), a.pc, n - 1));
    }
  }

  lemma StepsGoOn<L>(code: Code<L>, s: Sys<Ctx<L>, Os>, r: Sys<Ctx<L>, Os>, t: Tid, pc: Pc, next: L, n: nat, a: Accessed, u: Accessed)
    requires t in s.th && !pc.Idle? && pc.m in s.g.locks && n > 1 && r == Step(Compiled(code), false, s, t) && !a.got
    requires a == M.Access(s.g.locks[pc.m], t, Single(s.g), pc) && u == Undisturbed(a.lock, t, Single(s.g), a.pc, n - 1)
    requires Went(s, r, t, pc.m, a.lock, s.th[t].st.(ctl := Locking(a.pc, next)))
    requires Went(r, Steps(code, r, t, n - 1), t, pc.m, u.lock, Place(s.th[t].st.(ctl := Locking(a.pc, next)), u, next))
    ensures var w := Undisturbed(s.g.locks[pc.m], t, Single(s.g), pc, n);
            Went(s, Steps(code, s, t, n), t, pc.m, w.lock, Place(s.th[t].st, w, next))
  {
    var c := s.th[t].st.(ctl := Locking(a.pc, next));
    WentOn(s, r, Steps(code, r, t, n - 1), t, pc.m, a.lock, c, u.lock, Place(c, u, next));
  }

  lemma OneGoes<L>(code: Code<L>, s: Sys<Ctx<L>, Os>, t: Tid, pc: Pc, next: L)
    requires MayGo(s, t) && s.th[t].st.ctl == Locking(pc, next) && Goes(s.th[t].st.token, pc) && pc.m in s.g.locks
    ensures var u := Undisturbed(s.g.locks[pc.m], t, Single(s.g), pc, 1);
            Went(s, Steps(code, s, t, 1), t, pc.m, u.lock, Place(s.th[t].st, u, next))
  {
    AccessGoes(code, s, t, pc, next);
    OneStep(code, s, t, pc, next);
  }

  lemma OneStep<L>(code: Code<L>, s: Sys<Ctx<L>, Os>, t: Tid, pc: Pc, next: L)
    requires pc.Idle? || pc.m in s.g.locks
    ensures Steps(code, s, t, 1) == Step(Compiled(code), false, s, t)
    ensures !pc.Idle? ==> Undisturbed(s.g.locks[pc.m], t, Single(s.g), pc, 1) == M.Access(s.g.locks[pc.m], t, Single(s.g), pc)
  {
    if !pc.Idle? {
      var a := M.Access(s.g.locks[pc.m], t, Single(s.g), pc);
      assert Undisturbed(a.lock, t, Single(s.g), a.pc, 0) == Accessed(a.lock, a.pc, false);
    }
  }

  lemma NextGoes<L>(code: Code<L>, s: Sys<Ctx<L>, Os>, t: Tid, pc: Pc, next: L, n: nat)
    requires MayGo(s, t) && s.th[t].st.ctl == Locking(pc, next) && !pc.Idle? && pc.m in s.g.locks && n > 1
    requires GoesFor(s.g.locks[pc.m], t, Single(s.g), s.th[t].st.token, pc, n)
    ensures var a, r := M.Access(s.g.locks[pc.m], t, Single(s.g), pc), Step(Compiled(code), false, s, t);
            && Went(s, r, t, pc.m, a.lock, s.th[t].st.(ctl := Locking(a.pc, next))) && !a.pc.Idle? && a.pc.m == pc.m && pc.m in r.g.locks
            && r.g.locks[pc.m] == a.lock && Single(r.g) == Single(s.g)
            && GoesFor(a.lock, t, Single(s.g), s.th[t].st.token, a.pc, n - 1) && !a.got
  {
    AccessGoes(code, s, t, pc, next);
    SamePlace(s.g.locks[pc.m], t, Single(s.g), pc);
  }

  lemma SamePlace(e: Lock, t: Tid, single: bool, pc: Pc)
    requires !pc.Idle?
    ensures var a := M.Access(e, t, single, pc); !a.got ==> !a.pc.Idle? && a.pc.m == pc.m
  {
  }

  lemma OwnerGoes(e: Lock, t: Tid, single: bool, token: bool, m: LockId)
    ensures GoesFor(e, t, single, token, Enter(e, single, m), if e.users != 1 then 0 else if e.last == t then 1 else 3)
  {
    var a := M.Access(e, t, single, Looks(m));
    var b := M.Access(a.lock, t, single, a.pc);
    if e.users == 1 && e.last != t {
      assert GoesFor(b.lock, t, single, token, b.pc, 1);
      assert GoesFor(a.lock, t, single, token, a.pc, 2);
    }
  }

  lemma AcquireGoes(e: Lock, t: Tid, single: bool, token: bool, m: LockId, fast: bool)
    ensures GoesFor(e, t, single, token, Tests(m, fast), if e.acquired then 1 else 3)
  {
    if !e.acquired {
      assert GoesFor(e.(acquired := true), t, single, token, Counts(m, fast), 1);
      assert GoesFor(e, t, single, token, Sets(m, fast), 2);
    }
  }

  lemma EnterGoes<L>(code: Code<L>, s: Sys<Ctx<L>, Os>, t: Tid, m: LockId, next: L)
    requires MayGo(s, t) && s.th[t].st.ctl == Entering(m, next)
    ensures m in s.g.locks && Enabled(Compiled(code), s, t)
    ensures Went(s, Step(Compiled(code), false, s, t), t, m, s.g.locks[m],
                 s.th[t].st.(ctl := Locking(Enter(s.g.locks[m], Single(s.g), m), next)))
  {
    assert KR.ThreadOk(s, t);
    StepOnly(code, s, t);
    KR.StepKeepsInv(code, s, t);
    Memory.QuietHides(Compiled(code), s, t);
    assert s.g.locks[m := s.g.locks[m]] == s.g.locks;
  }

  lemma {:induction false} GoesForAdd(e: Lock, t: Tid, single: bool, token: bool, pc: Pc, i: nat, j: nat, n: nat)
    requires GoesFor(e, t, single, token, pc, i) && !Undisturbed(e, t, single, pc, i).got && n == i + j
    requires var u := Undisturbed(e, t, single, pc, i); GoesFor(u.lock, t, single, token, u.pc, j)
    ensures GoesFor(e, t, single, token, pc, n)
    ensures var u := Undisturbed(e, t, single, pc, i); Undisturbed(e, t, single, pc, n) == Undisturbed(u.lock, t, single, u.pc, j)
    decreases i
  {
    if i > 0 {
      var a := M.Access(e, t, single, pc);
      assert !a.got;
      GoesForAdd(a.lock, t, single, token, a.pc, i - 1, j, n - 1);
    }
  }

  /** Where lock_acquire leads. */
  ghost function Answer<L>(c: Ctx<L>, q: Tried, m: LockId, fast: bool, next: L): Ctx<L> {
    if q.ok then c.(st := next, ctl := User) else c.(ctl := Locking(Refused(m, fast), next))
  }

  /** lock_isowner, and lock_acquire for those that do not need the token, access by access. */
  lemma WholeAccesses(e: Lock, t: Tid, single: bool, token: bool, m: LockId) returns (n: nat)
    ensures GoesFor(e, t, single, token, Enter(e, single, m), n)
    ensures var o, u := IsOwner(e, t), Undisturbed(e, t, single, Enter(e, single, m), n);
            var q := Acquire(o.lock, t, single);
            if o.ok || single then u == Accessed(q.lock, if q.ok then Idle else Wants(m), q.ok) else u == Accessed(o.lock, Wants(m), false)
  {
    var i := if e.users != 1 then 0 else if e.last == t then 1 else 3;
    var o := IsOwner(e, t);
    OwnerSteps(e, t, single, m);
    OwnerGoes(e, t, single, token, m);
    n := i;
    if o.ok || single {
      var j := if o.lock.acquired then 1 else 3;
      AcquireSteps(o.lock, t, single, m, true);
      AcquireGoes(o.lock, t, single, token, m, true);
      n := i + j;
      GoesForAdd(e, t, single, token, Enter(e, single, m), i, j, n);
    }
  }

  /** mutex_lock of a thread that nobody comes between: its owner, or a thread alone, gets the lock by lock_acquire as a
      whole, without the fence; anybody else is counted in by lock_isowner and goes for the token. */
  lemma LocksAsAWhole<L>(code: Code<L>, s: Sys<Ctx<L>, Os>, t: Tid, m: LockId, next: L) returns (n: nat)
    requires MayGo(s, t) && s.th[t].st.ctl == Entering(m, next)
    ensures m in s.g.locks
    ensures var o, c := IsOwner(s.g.locks[m], t), s.th[t].st;
            var q := Acquire(o.lock, t, Single(s.g));
            if o.ok || Single(s.g) then Went(s, Steps(code, s, t, n), t, m, q.lock, Answer(c, q, m, true, next))
            else Went(s, Steps(code, s, t, n), t, m, o.lock, c.(ctl := Locking(Wants(m), next)))
  {
    EnterGoes(code, s, t, m, next);
    var e, single := s.g.locks[m], Single(s.g);
    var k := WholeAccesses(e, t, single, s.th[t].st.token, m);
    n := k + 1;
    if k > 0 { EnterThen(code, s, Step(Compiled(code), false, s, t), t, m, next, k); }
  }

  /** The accesses after the call. */
  lemma EnterThen<L>(code: Code<L>, s: Sys<Ctx<L>, Os>, r: Sys<Ctx<L>, Os>, t: Tid, m: LockId, next: L, k: nat)
    requires t in s.th && m in s.g.locks && k > 0
    requires Went(s, r, t, m, s.g.locks[m], s.th[t].st.(ctl := Locking(Enter(s.g.locks[m], Single(s.g), m), next)))
    requires GoesFor(s.g.locks[m], t, Single(s.g), s.th[t].st.token, Enter(s.g.locks[m], Single(s.g), m), k)
    ensures var u := Undisturbed(s.g.locks[m], t, Single(s.g), Enter(s.g.locks[m], Single(s.g), m), k);
            Went(s, Steps(code, r, t, k), t, m, u.lock, Place(s.th[t].st, u, next))
  {
    var e, pc := s.g.locks[m], Enter(s.g.locks[m], Single(s.g), m);
    var u := Undisturbed(e, t, Single(s.g), pc, k);
    StepsGo(code, r, t, pc, next, k);
    WentOn(s, r, Steps(code, r, t, k), t, m, e, r.th[t].st, u.lock, Place(r.th[t].st, u, next));
  }

  // ---------- mutex_lock under the token ----------

  lemma DeniedPasses<L>(code: Code<L>, s: Sys<Ctx<L>, Os>, t: Tid, m: LockId, next: L)
    requires MayGo(s, t) && s.pending > 0 && s.th[t].st.ctl == Locking(Denied(m), next)
    ensures Enabled(Compiled(code), s, t)
    ensures var r := Step(Compiled(code), false, s, t);
            && r.g.locks == s.g.locks && r.ring == s.ring[1..] + [t] && r.pending == s.pending - 1
            && t in r.th && r.th[t].st == s.th[t].st.(token := false, ctl := Locking(Wants(m), next))
  {
    assert KR.ThreadOk(s, t);
    StepOnly(code, s, t);
    SerialTurn(false, s, t, Next(Compiled(code), s, t));
  }

  /** Up to the answer of lock_acquire. */
  lemma Asked<L>(code: Code<L>, s: Sys<Ctx<L>, Os>, t: Tid, m: LockId, next: L) returns (n: nat)
    requires MayGo(s, t) && s.pending > 0 && s.th[t].st.token && s.th[t].st.ctl == Locking(Wants(m), next) && m in s.g.locks
    ensures var q := Acquire(s.g.locks[m], t, Single(s.g)); Went(s, Steps(code, s, t, n), t, m, q.lock, Answer(s.th[t].st, q, m, false, next))
  {
    var e, single := s.g.locks[m], Single(s.g);
    var j := if e.acquired then 1 else 3;
    n := 1 + j;
    AcquireSteps(e, t, single, m, false);
    AcquireGoes(e, t, single, true, m, false);
    assert GoesFor(e, t, single, true, Wants(m), n);
    StepsGo(code, s, t, Wants(m), next, n);
  }

  /** lock_acquire has given its answer, and a thread that was refused has passed the token. */
  ghost predicate Answered<L>(s: Sys<Ctx<L>, Os>, r: Sys<Ctx<L>, Os>, t: Tid, m: LockId, next: L, q: Tried)
    requires t in s.th && s.ring != []
  {
    && r.g.locks == s.g.locks[m := q.lock] && t in r.th
    && if q.ok then r.ring == s.ring && r.pending == s.pending && r.th[t].st == s.th[t].st.(st := next, ctl := User)
       else r.ring == s.ring[1..] + [t] && r.pending == s.pending - 1
            && r.th[t].st == s.th[t].st.(token := false, ctl := Locking(Wants(m), next))
  }

  lemma ThenDenied<L>(code: Code<L>, s: Sys<Ctx<L>, Os>, a: Sys<Ctx<L>, Os>, t: Tid, m: LockId, next: L, q: Tried)
    requires s.pending > 0 && t in s.th && s.ring != [] && !q.ok && Went(s, a, t, m, q.lock, Answer(s.th[t].st, q, m, false, next))
    ensures Answered(s, Step(Compiled(code), false, a, t), t, m, next, q)
  {
    DeniedPasses(code, a, t, m, next);
  }

  lemma ThenGranted<L>(s: Sys<Ctx<L>, Os>, a: Sys<Ctx<L>, Os>, t: Tid, m: LockId, next: L, q: Tried)
    requires s.pending > 0 && t in s.th && s.ring != [] && q.ok && Went(s, a, t, m, q.lock, Answer(s.th[t].st, q, m, false, next))
    ensures Answered(s, a, t, m, next, q)
  {
  }

  /** Under the token mutex_lock is lock_acquire; a thread that is refused passes the token, and asks again in its next
      turn. */
  lemma TokenLock<L>(code: Code<L>, s: Sys<Ctx<L>, Os>, t: Tid, m: LockId, next: L) returns (n: nat, r: Sys<Ctx<L>, Os>)
    requires MayGo(s, t) && s.pending > 0 && s.th[t].st.token && s.th[t].st.ctl == Locking(Wants(m), next)
    ensures m in s.g.locks && var q := Acquire(s.g.locks[m], t, Single(s.g));
            && Answered(s, r, t, m, next, q)
            && r == if q.ok then Steps(code, s, t, n) else Step(Compiled(code), false, Steps(code, s, t, n), t)
  {
    assert KR.ThreadOk(s, t);
    n := Asked(code, s, t, m, next);
    r := Steps(code, s, t, n);
    var q := Acquire(s.g.locks[m], t, Single(s.g));
    if q.ok {
      ThenGranted(s, r, t, m, next, q);
    } else {
      ThenDenied(code, s, r, t, m, next, q);
      r := Step(Compiled(code), false, r, t);
    }
  }
}
