/** Locks (determ.h, xrun.h): whoever has the token takes locks, and the only user of a lock may take it without
    the token, within a budget.  The steps are those of Mutex: nobody else touches what is read and written within one. */
module Locks {
  import opened Mutex
  import opened Counting
  import opened Runs
  import F = Fence
  import P = Phases

  // ---------- threads, step by step ----------

  /** Who is between a successful lock_acquire and its lock_release is history. */
  datatype State = State(ph: P.State, locks: map<LockId, Lock>, pc: map<Tid, Pc>, holds: set<(Tid, LockId)>)

  datatype Event = Lk(t: Tid, m: LockId) | Go(t: Tid) | Unlock(t: Tid, m: LockId) | Phase(t: Tid, e: P.Event)

  ghost function PcOf(s: State, t: Tid): Pc {
    if t in s.pc then s.pc[t] else Idle
  }

  ghost predicate Running(s: State, t: Tid) {
    P.StageOf(s.ph, t) == P.User || P.StageOf(s.ph, t) == P.Holding
  }

  /** isSingleWorkingThread */
  ghost predicate Single(s: State) {
    s.ph.f.max == 1
  }

  ghost predicate Between(pc: Pc) {
    pc.Idle? || pc.Wants? || pc.Denied?
  }

  ghost predicate Moves(t: Tid, e: P.Event) {
    match e
    case Sync(u) => u == t
    case InFence(g) => P.FenceMove(g) && g.t == t
    case GetToken(u) => u == t
    case PutToken(u) => u == t
    case _ => false
  }

  ghost predicate Enabled(s: State, e: Event) {
    match e
    case Lk(t, m) => Running(s, t) && PcOf(s, t) == Idle && m in s.locks
    case Go(t) => Running(s, t) && (!Between(PcOf(s, t)) || (PcOf(s, t).Wants? && P.StageOf(s.ph, t) == P.Holding))
                  && PcOf(s, t).m in s.locks
    case Unlock(t, m) => Running(s, t) && PcOf(s, t) == Idle && (t, m) in s.holds && m in s.locks
    case Phase(t, g) => Moves(t, g) && P.Enabled(s.ph, g) && Between(PcOf(s, t))
                        && (PcOf(s, t).Denied? ==> g.PutToken?)
  }

  ghost function At(s: State, t: Tid, pc: Pc): State {
    s.(pc := s.pc[t := pc])
  }

  ghost function With(s: State, m: LockId, e: Lock): State {
    s.(locks := s.locks[m := e])
  }

  /** The thread's next access to the lock. */
  ghost function Micro(s: State, t: Tid): State
    requires !PcOf(s, t).Idle? && PcOf(s, t).m in s.locks
  {
    var m := PcOf(s, t).m;
    var r := Access(s.locks[m], t, Single(s), PcOf(s, t));
    var q := At(With(s, m, r.lock), t, r.pc);
    if r.got then q.(holds := s.holds + {(t, m)}) else q
  }

  ghost function Step(s: State, cores: int, e: Event): State {
    if !Enabled(s, e) then s else
    match e
    case Lk(t, m) => At(s, t, Enter(s.locks[m], Single(s), m))
    case Go(t) => Micro(s, t)
    case Unlock(t, m) => With(s, m, Release(s.locks[m])).(holds := s.holds - {(t, m)})
    case Phase(t, g) =>
      var q := s.(ph := P.Step(s.ph, cores, g));
      if PcOf(s, t).Denied? then At(q, t, Wants(PcOf(s, t).m)) else q
  }

  // ---------- the invariant ----------

  /** What entitles a thread to be in lock_acquire: the token, the lock's ownership, or being alone. */
  ghost predicate Entitled(s: State, t: Tid, m: LockId)
    requires m in s.locks
  {
    || P.StageOf(s.ph, t) == P.Holding
    || (s.locks[m].users >= 1 && s.locks[m].last == t)
    || s.ph.f.counted == {t}
  }

  ghost predicate ThreadOk(s: State, t: Tid) {
    var pc := PcOf(s, t);
    && (!pc.Idle? ==> pc.m in s.locks)
    && (!Between(pc) || pc.Denied? ==> Running(s, t))
    && (pc.Denied? ==> P.StageOf(s.ph, t) == P.Holding)
    && (pc.Looks? || pc.Bumps? || pc.Writes? ==> s.locks[pc.m].users >= 1)
    && (pc.Writes? ==> pc.v >= 1)
    && (Acquiring(pc) ==> Entitled(s, t, pc.m) && (!pc.fast ==> P.StageOf(s.ph, t) == P.Holding))
    && (pc.Sets? ==> !s.locks[pc.m].acquired)
    && (pc.Counts? ==> s.locks[pc.m].acquired && forall u :: (u, pc.m) !in s.holds)
  }

  ghost predicate HoldsOk(s: State) {
    && (forall t, m :: (t, m) in s.holds ==> m in s.locks && s.locks[m].acquired)
    && (forall t, u, m :: (t, m) in s.holds && (u, m) in s.holds ==> t == u)
  }

  ghost predicate Inv(s: State) {
    && P.Inv(s.ph) && HoldsOk(s)
    && (forall m :: m in s.locks ==> s.locks[m].users >= 0)
    && (forall t :: ThreadOk(s, t))
  }

  /** No two threads are in lock_acquire of the same lock. */
  lemma OneAcquires(s: State, t: Tid, u: Tid)
    requires Inv(s) && t != u && Acquiring(PcOf(s, t)) && Acquiring(PcOf(s, u))
    ensures PcOf(s, t).m != PcOf(s, u).m
  {
    assert ThreadOk(s, t) && ThreadOk(s, u);
    P.OwnStage(s.ph, t);
    P.OwnStage(s.ph, u);
    if P.StageOf(s.ph, t) == P.Holding { P.PhaseSeparation(s.ph, t, u); }
    if P.StageOf(s.ph, u) == P.Holding { P.PhaseSeparation(s.ph, u, t); }
  }

  /** What a step on a lock must leave for the other threads in their operations on it. */
  ghost predicate Kind(s: State, r: State, m: LockId, pc: Pc)
    requires m in s.locks && m in r.locks
  {
    var e, q := s.locks[m], r.locks[m];
    && (e.users >= 1 ==> q.users >= 1 && q.last == e.last)
    && (pc.Sets? || pc.Counts? ==> q.acquired == e.acquired && forall v :: (v, m) in r.holds ==> (v, m) in s.holds)
  }

  lemma OtherOk(s: State, r: State, t: Tid, u: Tid)
    requires Inv(s) && u != t && PcOf(r, u) == PcOf(s, u) && r.ph == s.ph && r.locks.Keys == s.locks.Keys
    requires !PcOf(s, u).Idle? ==> PcOf(s, u).m in r.locks && Kind(s, r, PcOf(s, u).m, PcOf(s, u))
    ensures ThreadOk(r, u)
  {
    assert ThreadOk(s, u);
  }

  /** A step of t on lock m that keeps the lock as it is, or changes it in a way that suits the others. */
  lemma LockStep(s: State, r: State, t: Tid, m: LockId)
    requires Inv(s) && m in s.locks && m in r.locks && r.ph == s.ph && r.locks == s.locks[m := r.locks[m]]
    requires r.pc == s.pc[t := PcOf(r, t)] && ThreadOk(r, t) && HoldsOk(r) && r.locks[m].users >= 0
    requires forall v, n :: n != m && (v, n) in r.holds ==> (v, n) in s.holds
    requires forall u :: u != t && !PcOf(s, u).Idle? && PcOf(s, u).m == m ==> Kind(s, r, m, PcOf(s, u))
    ensures Inv(r)
  {
    forall u ensures ThreadOk(r, u) {
      if u != t {
        assert ThreadOk(s, u);
        OtherOk(s, r, t, u);
      }
    }
  }

  lemma LkKeepsInv(s: State, cores: int, t: Tid, m: LockId)
    requires Inv(s) && Enabled(s, Lk(t, m))
    ensures Inv(Step(s, cores, Lk(t, m)))
  {
    var r := Step(s, cores, Lk(t, m));
    assert r.locks == s.locks[m := r.locks[m]];
    if Single(s) { AloneIfSingle(s, t); }
    LockStep(s, r, t, m);
  }

  lemma AloneIfSingle(s: State, t: Tid)
    requires Inv(s) && Running(s, t) && Single(s)
    ensures s.ph.f.counted == {t}
  {
    P.OwnStage(s.ph, t);
    var rest := s.ph.f.counted - {t};
    assert |rest| == 0;
    assert s.ph.f.counted == rest + {t};
  }

  lemma MicroPlain(s: State, t: Tid)
    requires Inv(s) && Enabled(s, Go(t)) && !PcOf(s, t).Sets? && !PcOf(s, t).Counts? && !PcOf(s, t).Writes?
    ensures Inv(Micro(s, t))
  {
    var r, m := Micro(s, t), PcOf(s, t).m;
    assert ThreadOk(s, t);
    assert r.locks == s.locks[m := r.locks[m]];
    LockStep(s, r, t, m);
  }

  lemma WritesKeepsInv(s: State, t: Tid)
    requires Inv(s) && Enabled(s, Go(t)) && PcOf(s, t).Writes?
    ensures Inv(Micro(s, t))
  {
    var r, m := Micro(s, t), PcOf(s, t).m;
    assert ThreadOk(s, t);
    if Single(s) { AloneIfSingle(s, t); }
    LockStep(s, r, t, m);
  }

  lemma SetsKeepsInv(s: State, t: Tid)
    requires Inv(s) && Enabled(s, Go(t)) && PcOf(s, t).Sets?
    ensures Inv(Micro(s, t))
  {
    var r, m := Micro(s, t), PcOf(s, t).m;
    assert ThreadOk(s, t);
    forall u | u != t && !PcOf(s, u).Idle? && PcOf(s, u).m == m ensures Kind(s, r, m, PcOf(s, u)) {
      if Acquiring(PcOf(s, u)) { OneAcquires(s, t, u); }
    }
    LockStep(s, r, t, m);
  }

  lemma CountsKeepsInv(s: State, t: Tid)
    requires Inv(s) && Enabled(s, Go(t)) && PcOf(s, t).Counts?
    ensures Inv(Micro(s, t))
  {
    var r, m := Micro(s, t), PcOf(s, t).m;
    assert ThreadOk(s, t);
    forall u | u != t && !PcOf(s, u).Idle? && PcOf(s, u).m == m ensures Kind(s, r, m, PcOf(s, u)) {
      if Acquiring(PcOf(s, u)) { OneAcquires(s, t, u); }
    }
    LockStep(s, r, t, m);
  }

  lemma UnlockKeepsInv(s: State, cores: int, t: Tid, m: LockId)
    requires Inv(s) && Enabled(s, Unlock(t, m))
    ensures Inv(Step(s, cores, Unlock(t, m)))
  {
    var r := Step(s, cores, Unlock(t, m));
    assert ThreadOk(s, t);
    forall u | u != t && !PcOf(s, u).Idle? && PcOf(s, u).m == m ensures Kind(s, r, m, PcOf(s, u)) {
      assert ThreadOk(s, u);
    }
    assert r.pc == s.pc;
    forall u ensures ThreadOk(r, u) {
      assert ThreadOk(s, u);
      if u != t { OtherOk(s, r, t, u); }
    }
  }

  lemma PhaseMoves(ph: P.State, cores: int, t: Tid, e: P.Event)
    requires P.Inv(ph) && Moves(t, e) && P.Enabled(ph, e)
    ensures var r := P.Step(ph, cores, e);
            P.Inv(r) && r.f.counted == ph.f.counted && r.f.max == ph.f.max && forall u :: u != t ==> P.StageOf(r, u) == P.StageOf(ph, u)
  {
    P.StepKeepsInv(ph, cores, e);
  }

  lemma PhaseThreadOk(s: State, r: State, t: Tid, u: Tid)
    requires Inv(s) && r.locks == s.locks && r.holds == s.holds && r.ph.f.counted == s.ph.f.counted
    requires u != t ==> P.StageOf(r.ph, u) == P.StageOf(s.ph, u) && PcOf(r, u) == PcOf(s, u)
    requires u == t ==> Between(PcOf(s, t)) && PcOf(r, t) == if PcOf(s, t).Denied? then Wants(PcOf(s, t).m) else PcOf(s, t)
    ensures ThreadOk(r, u)
  {
    assert ThreadOk(s, u);
  }

  lemma PhaseInv(s: State, r: State, t: Tid)
    requires Inv(s) && P.Inv(r.ph) && r.locks == s.locks && r.holds == s.holds && r.ph.f.counted == s.ph.f.counted
    requires forall u :: u != t ==> P.StageOf(r.ph, u) == P.StageOf(s.ph, u) && PcOf(r, u) == PcOf(s, u)
    requires Between(PcOf(s, t)) && PcOf(r, t) == if PcOf(s, t).Denied? then Wants(PcOf(s, t).m) else PcOf(s, t)
    ensures Inv(r)
  {
    forall u ensures ThreadOk(r, u) { PhaseThreadOk(s, r, t, u); }
  }

  lemma PhaseKeepsInv(s: State, cores: int, t: Tid, e: P.Event)
    requires Inv(s) && Enabled(s, Phase(t, e))
    ensures Inv(Step(s, cores, Phase(t, e)))
  {
    PhaseMoves(s.ph, cores, t, e);
    PhaseStep(s, cores, t, e);
    PhaseInv(s, Step(s, cores, Phase(t, e)), t);
  }

  lemma PhaseStep(s: State, cores: int, t: Tid, e: P.Event)
    requires Enabled(s, Phase(t, e))
    ensures var r, pc := Step(s, cores, Phase(t, e)), PcOf(s, t);
            && r.ph == P.Step(s.ph, cores, e) && r.locks == s.locks && r.holds == s.holds && Between(pc)
            && PcOf(r, t) == (if pc.Denied? then Wants(pc.m) else pc) && forall u :: u != t ==> PcOf(r, u) == PcOf(s, u)
  {
  }

  lemma StepKeepsInv(s: State, cores: int, e: Event)
    requires Inv(s) && Enabled(s, e)
    ensures Inv(Step(s, cores, e))
  {
    match e
    case Lk(t, m) => LkKeepsInv(s, cores, t, m);
    case Unlock(t, m) => UnlockKeepsInv(s, cores, t, m);
    case Phase(t, g) => PhaseKeepsInv(s, cores, t, g);
    case Go(t) =>
      match PcOf(s, t)
      case Writes(_, _) => WritesKeepsInv(s, t);
      case Sets(_, _) => SetsKeepsInv(s, t);
      case Counts(_, _) => CountsKeepsInv(s, t);
      case _ => MicroPlain(s, t);
  }

  // ---------- mutual exclusion ----------

  ghost function System(cores: int): Rules<State, Event> {
    Rules((s, e) => Enabled(s, e), (s, e) => Step(s, cores, e))
  }

  /** After startFence: nobody holds a lock, or is about to take one. */
  ghost predicate Initial(s: State) {
    && P.Initial(s.ph) && s.holds == {} && s.pc == map[]
    && (forall m :: m in s.locks ==> s.locks[m].users >= 0)
  }

  lemma InitialInv(s: State)
    requires Initial(s)
    ensures Inv(s)
  {
    assert P.Inv(s.ph) by {
      forall t | t in s.ph.ring ensures P.Fits(s.ph, t) { assert s.ph.stage[t] == P.User; }
    }
  }

  lemma RunKeepsInv(cores: int, s: State, run: seq<Event>)
    requires Inv(s) && Valid(System(cores), s, run)
    ensures Inv(Exec(System(cores), s, run))
  {
    var r := System(cores);
    forall q, e | Inv(q) && r.enabled(q, e) ensures Inv(r.step(q, e)) {
      StepKeepsInv(q, cores, e);
    }
    RunPreserves(r, q => Inv(q), s, run);
  }

  /** A thread comes out of mutex_lock only by getting the lock, which nobody held. */
  lemma ComesOutHolding(s: State, cores: int, e: Event, t: Tid)
    requires Inv(s) && Enabled(s, e) && !PcOf(s, t).Idle? && PcOf(Step(s, cores, e), t).Idle?
    ensures var m, r := PcOf(s, t).m, Step(s, cores, e);
            r.holds == s.holds + {(t, m)} && (forall u :: (u, m) !in s.holds) && m in r.locks && r.locks[m].acquired
  {
    assert ThreadOk(s, t);
  }

  /** After an unlock nobody holds the lock, and it may be taken. */
  lemma UnlockReleases(s: State, cores: int, t: Tid, m: LockId)
    requires Inv(s) && Enabled(s, Unlock(t, m))
    ensures var r := Step(s, cores, Unlock(t, m)); m in r.locks && !r.locks[m].acquired && forall u :: (u, m) !in r.holds
  {
  }

  /** In every run of locks, unlocks, fence regions and token steps, at most one thread is between a successful
      lock_acquire and its lock_release, although owners take locks without the token. */
  lemma MutualExclusion(cores: int, s: State, run: seq<Event>, t: Tid, u: Tid, m: LockId)
    requires Initial(s) && Valid(System(cores), s, run)
    requires (t, m) in Exec(System(cores), s, run).holds && (u, m) in Exec(System(cores), s, run).holds
    ensures t == u
  {
    InitialInv(s);
    RunKeepsInv(cores, s, run);
  }

  // ---------- ownership ends ----------

  lemma StaysShared(s: State, cores: int, e: Event, m: LockId)
    requires Inv(s) && Enabled(s, e) && m in s.locks && s.locks[m].users >= 2
    ensures m in Step(s, cores, e).locks && Step(s, cores, e).locks[m].users >= 2
  {
    if e.Go? { assert ThreadOk(s, e.t); }
  }

  /** Once two threads have used a lock it never looks owned again: no later mutex_lock goes by ownership. */
  lemma OwnershipEnds(cores: int, s: State, run: seq<Event>, m: LockId, t: Tid)
    requires Inv(s) && Valid(System(cores), s, run) && m in s.locks && s.locks[m].users >= 2
    ensures var q := Exec(System(cores), s, run);
            && m in q.locks && q.locks[m].users >= 2 && !IsOwner(q.locks[m], t).ok
            && (Enabled(q, Lk(t, m)) && !Single(q) ==> PcOf(Step(q, cores, Lk(t, m)), t) == Wants(m))
  {
    var r := System(cores);
    var inv := (q: State) => Inv(q) && m in q.locks && q.locks[m].users >= 2;
    forall q, e | inv(q) && r.enabled(q, e) ensures inv(r.step(q, e)) {
      StepKeepsInv(q, cores, e);
      StaysShared(q, cores, e, m);
    }
    RunPreserves(r, inv, s, run);
  }

  lemma Extend(cores: int, s: State, run: seq<Event>, e: Event) returns (more: seq<Event>)
    requires Valid(System(cores), s, run) && Enabled(Exec(System(cores), s, run), e)
    ensures more == run + [e] && Valid(System(cores), s, more)
    ensures Exec(System(cores), s, more) == Step(Exec(System(cores), s, run), cores, e)
  {
    var r := System(cores);
    var q := Exec(r, s, run);
    more := run + [e];
    assert [e][1..] == [];
    assert Valid(r, q, [e]);
    RunAppend(r, s, run, [e]);
  }

  /** Threads in user code that are not in mutex_lock. */
  ghost predicate Free(s: State, t: Tid) {
    P.StageOf(s.ph, t) == P.User && PcOf(s, t) == Idle
  }

  lemma LkStep(cores: int, s: State, run: seq<Event>, q: State, t: Tid, m: LockId) returns (more: seq<Event>, r: State)
    requires Valid(System(cores), s, run) && q == Exec(System(cores), s, run)
    requires Running(q, t) && PcOf(q, t) == Idle && m in q.locks && !Single(q)
    ensures Valid(System(cores), s, more) && r == Exec(System(cores), s, more) && more == run + [Lk(t, m)]
    ensures r == At(q, t, if q.locks[m].users == 1 then Looks(m) else Wants(m))
  {
    more := Extend(cores, s, run, Lk(t, m));
    r := Step(q, cores, Lk(t, m));
  }

  lemma GoStep(cores: int, s: State, run: seq<Event>, q: State, t: Tid) returns (more: seq<Event>, r: State)
    requires Valid(System(cores), s, run) && q == Exec(System(cores), s, run)
    requires Running(q, t) && !Between(PcOf(q, t)) && PcOf(q, t).m in q.locks
    ensures Valid(System(cores), s, more) && r == Exec(System(cores), s, more) && r == Micro(q, t) && more == run + [Go(t)]
  {
    more := Extend(cores, s, run, Go(t));
    r := Step(q, cores, Go(t));
  }

  // ---------- the number of users ----------

  /** A parallel phase in which a is the only user of m so far, and nobody is in mutex_lock of m; of the other threads
      these call it. */
  ghost predicate Owned(s: State, a: Tid, m: LockId, callers: set<Tid>) {
    && Inv(s) && !s.ph.serial && !Single(s) && P.StageOf(s.ph, a) == P.User
    && m in s.locks && s.locks[m].users == 1 && s.locks[m].last == a
    && (forall t :: !Entering(PcOf(s, t), m))
    && forall t :: t in callers ==> t != a && Free(s, t)
  }

  /** On the way to counting itself in. */
  ghost predicate Entering(pc: Pc, m: LockId) {
    (pc.Looks? || pc.Bumps? || pc.Writes?) && pc.m == m
  }

  /** No step ends the parallel phase: threads may come to the fence, but not all of them. */
  ghost predicate WithinPhase(cores: int, s: State, run: seq<Event>)
    decreases |run|
  {
    run == [] || (!Step(s, cores, run[0]).ph.serial && WithinPhase(cores, Step(s, cores, run[0]), run[1..]))
  }

  /** Only these threads call mutex_lock of m. */
  ghost predicate Calls(run: seq<Event>, m: LockId, callers: set<Tid>) {
    forall i :: 0 <= i < |run| ==> MayCall(run[i], m, callers)
  }

  ghost predicate MayCall(e: Event, m: LockId, callers: set<Tid>) {
    e.Lk? && e.m == m ==> e.t in callers
  }

  /** Those that have been through, or need not count themselves in any more. */
  ghost function Done(s: State, callers: set<Tid>, m: LockId): set<Tid> {
    set t | t in callers && PcOf(s, t) == Wants(m)
  }

  /** How far the number of users may have got in the phase. */
  ghost predicate Grown(s: State, a: Tid, m: LockId, callers: set<Tid>) {
    && Inv(s) && !s.ph.serial && !Single(s) && m in s.locks && s.locks[m].last == a
    && 1 <= s.locks[m].users <= 1 + |Done(s, callers, m)|
    && forall t {:trigger PcOf(s, t)} :: Entering(PcOf(s, t), m) ==>
         (t in callers || (t == a && PcOf(s, t).Looks?)) && (PcOf(s, t).Writes? ==> PcOf(s, t).v <= 1 + |Done(s, callers, m)|)
  }

  lemma DoneGrows(s: State, r: State, t: Tid, m: LockId, callers: set<Tid>)
    requires forall u :: u != t ==> PcOf(r, u) == PcOf(s, u)
    requires PcOf(s, t) == Wants(m) ==> PcOf(r, t) == Wants(m)
    ensures Done(s, callers, m) <= Done(r, callers, m) && |Done(s, callers, m)| <= |Done(r, callers, m)|
    ensures t in callers && PcOf(s, t) != Wants(m) && PcOf(r, t) == Wants(m) ==> |Done(r, callers, m)| == |Done(s, callers, m)| + 1
  {
    SubsetSize(Done(s, callers, m), Done(r, callers, m));
    if t in callers && PcOf(s, t) != Wants(m) && PcOf(r, t) == Wants(m) {
      assert Done(r, callers, m) == Done(s, callers, m) + {t};
    }
  }

  /** What a step within the phase does to m, and to the thread's place in mutex_lock. */
  ghost predicate UsersAfter(s: State, r: State, e: Event, a: Tid, m: LockId, callers: set<Tid>)
    requires m in s.locks
  {
    var pc, after := PcOf(s, e.t), PcOf(r, e.t);
    && (Single(r) <==> Single(s)) && m in r.locks && r.locks[m].last == a
    && (forall u :: u != e.t ==> PcOf(r, u) == PcOf(s, u))
    && (pc == Wants(m) ==> after == Wants(m))
    && (if e.Go? && pc.Writes? && pc.m == m then r.locks[m].users == pc.v + 1 && after == Wants(m)
        else r.locks[m].users == s.locks[m].users)
    && (Entering(after, m) && !Entering(pc, m) ==> after.Looks? && e.t in callers + {a})
    && (Entering(after, m) && Entering(pc, m) ==>
          after == pc || if pc.Looks? then after.Bumps? && e.t != a else after == Writes(m, s.locks[m].users))
  }

  lemma UsersStep(s: State, cores: int, e: Event, a: Tid, m: LockId, callers: set<Tid>)
    requires Grown(s, a, m, callers) && Enabled(s, e) && MayCall(e, m, callers + {a})
    ensures Inv(Step(s, cores, e)) && UsersAfter(s, Step(s, cores, e), e, a, m, callers)
  {
    StepKeepsInv(s, cores, e);
    if e.Phase? { PhaseUsers(s, cores, e, a, m, callers); } else { LockUsers(s, cores, e, a, m, callers); }
  }

  lemma LockUsers(s: State, cores: int, e: Event, a: Tid, m: LockId, callers: set<Tid>)
    requires Grown(s, a, m, callers) && Enabled(s, e) && MayCall(e, m, callers + {a}) && !e.Phase?
    ensures UsersAfter(s, Step(s, cores, e), e, a, m, callers)
  {
    var t := e.t;
    assert ThreadOk(s, t);
    if Running(s, t) { P.OwnStage(s.ph, t); }
    if e.Go? { GoUsers(s, t, a, m); }
  }

  lemma PhaseUsers(s: State, cores: int, e: Event, a: Tid, m: LockId, callers: set<Tid>)
    requires Grown(s, a, m, callers) && Enabled(s, e) && e.Phase?
    ensures UsersAfter(s, Step(s, cores, e), e, a, m, callers)
  {
    var t := e.t;
    assert ThreadOk(s, t);
    if P.StageOf(s.ph, t) == P.Holding { P.HolderFacts(s.ph, t); }
    PhaseMoves(s.ph, cores, t, e.e);
  }

  /** Whoever counts itself in at the end of lock_acquire leaves the number of users alone when it is the owner. */
  lemma GoUsers(s: State, t: Tid, a: Tid, m: LockId)
    requires Inv(s) && !s.ph.serial && !Single(s) && Enabled(s, Go(t)) && m in s.locks && s.locks[m].last == a && s.locks[m].users >= 1
    ensures var r := Micro(s, t);
            && m in r.locks && r.locks[m].last == a
            && (if PcOf(s, t).Writes? && PcOf(s, t).m == m then r.locks[m].users == PcOf(s, t).v + 1
                else r.locks[m].users == s.locks[m].users)
  {
    assert ThreadOk(s, t);
    P.OwnStage(s.ph, t);
    assert s.ph.f.counted != {t} by { assert |{t}| == 1; }
  }

  lemma GrownStep(s: State, cores: int, e: Event, a: Tid, m: LockId, callers: set<Tid>)
    requires Grown(s, a, m, callers) && Enabled(s, e) && MayCall(e, m, callers + {a}) && !Step(s, cores, e).ph.serial
    ensures Grown(Step(s, cores, e), a, m, callers)
    ensures |callers| <= 2 ==> Step(s, cores, e).locks[m].users >= s.locks[m].users
  {
    var r, t := Step(s, cores, e), e.t;
    UsersStep(s, cores, e, a, m, callers);
    DoneGrows(s, r, t, m, callers);
    assert ThreadOk(s, t);
    if e.Go? && PcOf(s, t).Writes? && PcOf(s, t).m == m {
      assert Entering(PcOf(s, t), m);
      assert t in callers && t !in Done(s, callers, m);
      SubsetSize(Done(s, callers, m), callers - {t});
    }
    forall u | Entering(PcOf(r, u), m)
      ensures (u in callers || (u == a && PcOf(r, u).Looks?)) && (PcOf(r, u).Writes? ==> PcOf(r, u).v <= 1 + |Done(r, callers, m)|)
    {
      assert u != t ==> Entering(PcOf(s, u), m);
    }
  }

  lemma {:induction false} GrownRun(cores: int, s: State, run: seq<Event>, a: Tid, m: LockId, callers: set<Tid>)
    requires Grown(s, a, m, callers) && Valid(System(cores), s, run) && Calls(run, m, callers + {a}) && WithinPhase(cores, s, run)
    ensures Grown(Exec(System(cores), s, run), a, m, callers)
    decreases |run|
  {
    if run != [] {
      var e, rest := run[0], run[1..];
      assert MayCall(e, m, callers + {a});
      GrownStep(s, cores, e, a, m, callers);
      assert forall i :: 0 <= i < |rest| ==> rest[i] == run[i + 1];
      GrownRun(cores, Step(s, cores, e), rest, a, m, callers);
    }
  }

  /** After this run of the phase the step e lowers the number of users of m. */
  ghost predicate Lowers(cores: int, s: State, run: seq<Event>, e: Event, m: LockId, callers: set<Tid>) {
    && Valid(System(cores), s, run) && Calls(run, m, callers) && WithinPhase(cores, s, run) && MayCall(e, m, callers)
    && var q := Exec(System(cores), s, run);
       Enabled(q, e) && !Step(q, cores, e).ph.serial && m in q.locks && m in Step(q, cores, e).locks && Step(q, cores, e).locks[m].users < q.locks[m].users
  }

  /** The number of users may go down: of three threads that count themselves in at once, one may write a number it
      read before the others. */
  lemma UsersMayDecrease(cores: int, s: State, a: Tid, b: Tid, c: Tid, d: Tid, m: LockId) returns (run: seq<Event>, last: Event)
    requires Owned(s, a, m, {b, c, d}) && b != c && b != d && c != d
    ensures Valid(System(cores), s, run) && Calls(run, m, {b, c, d}) && WithinPhase(cores, s, run) && MayCall(last, m, {b, c, d})
    ensures var q := Exec(System(cores), s, run);
            && Enabled(q, last) && !Step(q, cores, last).ph.serial && m in q.locks && q.locks[m].users == 3
            && m in Step(q, cores, last).locks && Step(q, cores, last).locks[m].users == 2
  {
    var q: State;
    run, q := ThreeRead(cores, s, b, c, d, m);
    run, q := GoStep(cores, s, run, q, b);
    run, q := WritesRun(cores, s, run, q, c, m);
    run, q := WritesRun(cores, s, run, q, d, m);
    last := Go(b);
    ThreeCall(run, b, c, d, m);
    StaysParallel(cores, s, run);
  }

  lemma ThreeRead(cores: int, s: State, b: Tid, c: Tid, d: Tid, m: LockId) returns (run: seq<Event>, q: State)
    requires Free(s, b) && Free(s, c) && Free(s, d) && b != c && b != d && c != d && !Single(s)
    requires m in s.locks && s.locks[m].users == 1 && s.locks[m].last !in {b, c, d}
    ensures run == [] + [Lk(b, m), Go(b)] + [Lk(c, m), Go(c)] + [Lk(d, m), Go(d)]
    ensures Valid(System(cores), s, run) && q == Exec(System(cores), s, run)
    ensures q == At(At(At(s, b, Bumps(m)), c, Bumps(m)), d, Bumps(m))
  {
    run, q := ReadsRun(cores, s, [], s, b, m);
    run, q := ReadsRun(cores, s, run, q, c, m);
    run, q := ReadsRun(cores, s, run, q, d, m);
  }

  lemma ThreeCall(run: seq<Event>, b: Tid, c: Tid, d: Tid, m: LockId)
    requires run == [] + [Lk(b, m), Go(b)] + [Lk(c, m), Go(c)] + [Lk(d, m), Go(d)] + [Go(b)] + [Go(c), Go(c)] + [Go(d), Go(d)]
    ensures Calls(run, m, {b, c, d}) && NoPhases(run)
  {
  }

  ghost predicate NoPhases(run: seq<Event>) {
    forall i :: 0 <= i < |run| ==> !run[i].Phase?
  }

  lemma {:induction false} StaysParallel(cores: int, s: State, run: seq<Event>)
    requires Valid(System(cores), s, run) && NoPhases(run) && !s.ph.serial
    ensures WithinPhase(cores, s, run) && Exec(System(cores), s, run).ph == s.ph
    decreases |run|
  {
    if run != [] {
      var e, rest := run[0], run[1..];
      assert !e.Phase? && Step(s, cores, e).ph == s.ph;
      assert forall i :: 0 <= i < |rest| ==> rest[i] == run[i + 1];
      StaysParallel(cores, Step(s, cores, e), rest);
    }
  }

  /** A thread that is not the owner comes to where it reads the number of users. */
  lemma ReadsRun(cores: int, s: State, run: seq<Event>, q: State, t: Tid, m: LockId) returns (more: seq<Event>, r: State)
    requires Valid(System(cores), s, run) && q == Exec(System(cores), s, run)
    requires Free(q, t) && !Single(q) && m in q.locks && q.locks[m].users == 1 && q.locks[m].last != t
    ensures Valid(System(cores), s, more) && r == Exec(System(cores), s, more) && more == run + [Lk(t, m), Go(t)]
    ensures r == At(q, t, Bumps(m))
  {
    more, r := LkStep(cores, s, run, q, t, m);
    more, r := GoStep(cores, s, more, r, t);
    assert q.locks[m := q.locks[m]] == q.locks;
  }

  /** It reads the number, and writes it back plus one. */
  lemma WritesRun(cores: int, s: State, run: seq<Event>, q: State, t: Tid, m: LockId) returns (more: seq<Event>, r: State)
    requires Valid(System(cores), s, run) && q == Exec(System(cores), s, run)
    requires P.StageOf(q.ph, t) == P.User && PcOf(q, t) == Bumps(m) && !Single(q) && m in q.locks
    ensures Valid(System(cores), s, more) && r == Exec(System(cores), s, more) && more == run + [Go(t), Go(t)]
    ensures r == At(With(q, m, q.locks[m].(users := q.locks[m].users + 1)), t, Wants(m))
  {
    more, r := GoStep(cores, s, run, q, t);
    more, r := GoStep(cores, s, more, r, t);
  }

  lemma ThreeOf(callers: set<Tid>) returns (b: Tid, c: Tid, d: Tid)
    requires |callers| >= 3
    ensures {b, c, d} <= callers && b != c && b != d && c != d
  {
    b := Some(callers);
    var two := callers - {b};
    assert |two| == |callers| - 1;
    c := Some(two);
    var one := two - {c};
    assert |one| == |two| - 1;
    d := Some(one);
  }

  /** Some interleaving of the phase lowers the number of users of an owned lock if and only if at least three threads
      other than its owner call mutex_lock in the phase. */
  lemma UsersFallIff(cores: int, s: State, a: Tid, m: LockId, callers: set<Tid>)
    requires Owned(s, a, m, callers)
    ensures (exists run, e :: Lowers(cores, s, run, e, m, callers + {a})) <==> |callers| >= 3
  {
    if |callers| >= 3 {
      var b, c, d := ThreeOf(callers);
      var run, e := UsersMayDecrease(cores, s, a, b, c, d, m);
      assert forall i :: 0 <= i < |run| ==> MayCall(run[i], m, {b, c, d});
      assert Lowers(cores, s, run, e, m, callers + {a});
    }
    forall run, e | Lowers(cores, s, run, e, m, callers + {a}) ensures |callers| >= 3 {
      GrownRun(cores, s, run, a, m, callers);
      GrownStep(Exec(System(cores), s, run), cores, e, a, m, callers);
    }
  }

  // ---------- the owner's check is a race ----------

  /** What one thread's mutex_lock did, seen from the others. */
  ghost predicate Did(q: State, r: State, t: Tid, m: LockId, e: Lock, pc: Pc) {
    && r.ph == q.ph && r.locks == q.locks[m := e] && PcOf(r, t) == pc
    && forall u :: u != t ==> PcOf(r, u) == PcOf(q, u)
  }

  /** A thread that is not the owner counts itself in, and then needs the token. */
  lemma BumpRun(cores: int, s: State, run: seq<Event>, q: State, t: Tid, m: LockId) returns (more: seq<Event>, r: State)
    requires Valid(System(cores), s, run) && q == Exec(System(cores), s, run)
    requires Free(q, t) && !Single(q) && m in q.locks && q.locks[m].users == 1 && q.locks[m].last != t
    ensures Valid(System(cores), s, more) && r == Exec(System(cores), s, more) && more == run + [Lk(t, m), Go(t), Go(t), Go(t)]
    ensures Did(q, r, t, m, q.locks[m].(users := 2), Wants(m)) && r.holds == q.holds
  {
    more, r := ReadsRun(cores, s, run, q, t, m);
    more, r := WritesRun(cores, s, more, r, t, m);
  }

  /** The owner's way through mutex_lock up to where it marks the lock. */
  lemma OwnerTests(cores: int, s: State, run: seq<Event>, q: State, t: Tid, m: LockId) returns (more: seq<Event>, r: State)
    requires Valid(System(cores), s, run) && q == Exec(System(cores), s, run)
    requires Free(q, t) && !Single(q) && m in q.locks && q.locks[m].users == 1 && q.locks[m].last == t && !q.locks[m].acquired
    ensures Valid(System(cores), s, more) && r == Exec(System(cores), s, more)
    ensures Did(q, r, t, m, q.locks[m], Sets(m, true)) && r.holds == q.holds
  {
    more, r := LkStep(cores, s, run, q, t, m);
    more, r := GoStep(cores, s, more, r, t);
    more, r := GoStep(cores, s, more, r, t);
  }

  /** The owner takes its lock without the token. */
  lemma TakeRun(cores: int, s: State, run: seq<Event>, q: State, t: Tid, m: LockId) returns (more: seq<Event>, r: State)
    requires Valid(System(cores), s, run) && q == Exec(System(cores), s, run)
    requires Free(q, t) && !Single(q) && m in q.locks && q.locks[m] == Lock(1, t, false, LOCK_OWNER_BUDGET)
    ensures Valid(System(cores), s, more) && r == Exec(System(cores), s, more)
    ensures Did(q, r, t, m, Lock(1, t, true, LOCK_OWNER_BUDGET - 1), Idle) && r.holds == q.holds + {(t, m)}
  {
    more, r := OwnerTests(cores, s, run, q, t, m);
    more, r := GoStep(cores, s, more, r, t);
    more, r := GoStep(cores, s, more, r, t);
  }

  /** Two threads in one parallel phase, each calling mutex_lock once and going as far as it can: whether the owner
      gets the lock at once depends on who goes first.  So two runs of one program may differ here. */
  lemma OwnerRace(cores: int, s: State, a: Tid, b: Tid, m: LockId) returns (first: seq<Event>, second: seq<Event>)
    requires Initial(s) && Free(s, a) && Free(s, b) && a != b && !Single(s)
    requires m in s.locks && s.locks[m] == Lock(1, a, false, LOCK_OWNER_BUDGET)
    ensures Valid(System(cores), s, first) && Valid(System(cores), s, second)
    ensures (a, m) in Exec(System(cores), s, first).holds && PcOf(Exec(System(cores), s, first), b) == Wants(m)
    ensures PcOf(Exec(System(cores), s, second), a) == Wants(m) && PcOf(Exec(System(cores), s, second), b) == Wants(m)
    ensures Exec(System(cores), s, second).holds == {}
  {
    var q: State, r: State;
    first, q := TakeRun(cores, s, [], s, a, m);
    first, q := BumpRun(cores, s, first, q, b, m);
    second, r := BumpRun(cores, s, [], s, b, m);
    second, r := LkStep(cores, s, second, r, a, m);
  }

  /** Whether a, when it calls mutex_lock after this run of the phase, finds itself the owner. */
  ghost predicate FindsOwner(cores: int, s: State, run: seq<Event>, a: Tid, m: LockId) {
    var q := Exec(System(cores), s, run);
    m in q.locks && IsOwner(q.locks[m], a).ok
  }

  ghost predicate Interleaving(cores: int, s: State, run: seq<Event>, m: LockId, callers: set<Tid>) {
    Valid(System(cores), s, run) && Calls(run, m, callers) && WithinPhase(cores, s, run)
  }

  /** All interleavings of the phase agree on whether the owner finds itself the owner. */
  ghost predicate Agrees(cores: int, s: State, a: Tid, m: LockId, callers: set<Tid>) {
    forall x, y :: Interleaving(cores, s, x, m, callers) && Interleaving(cores, s, y, m, callers) ==>
                     FindsOwner(cores, s, x, a, m) == FindsOwner(cores, s, y, a, m)
  }

  /** Whether the owner finds itself the owner does not depend on the schedule of the phase if and only if no other
      thread calls mutex_lock on its lock in the phase. */
  lemma FastPathIff(cores: int, s: State, a: Tid, m: LockId, callers: set<Tid>)
    requires Owned(s, a, m, callers)
    ensures Agrees(cores, s, a, m, callers + {a}) <==> callers == {}
  {
    if callers == {} {
      forall x | Interleaving(cores, s, x, m, {a}) ensures FindsOwner(cores, s, x, a, m) {
        assert callers + {a} == {a};
        GrownRun(cores, s, x, a, m, callers);
        assert Done(Exec(System(cores), s, x), callers, m) == {};
      }
      assert callers + {a} == {a};
    } else {
      var b := Some(callers);
      var run, r := BumpRun(cores, s, [], s, b, m);
      StaysParallel(cores, s, run);
      assert Interleaving(cores, s, run, m, callers + {a}) && Interleaving(cores, s, [], m, callers + {a});
      assert !FindsOwner(cores, s, run, a, m) && FindsOwner(cores, s, [], a, m);
    }
  }
}
