/** An input on which cond_wait breaks mutual exclusion: a thread that waits on one condition keeps another lock, and
    the next thread wakes up, is refused that lock, and goes on all the same. */
module Lapse {
  import opened Counting
  import opened Pages
  import opened Runs
  import opened Machine
  import opened M = Mutex
  import opened Kernel
  import opened Exclusion
  import KR = KernelRuns
  import Q = Conserve
  import C = Calls
  import D = Determinism
  import Memory
  import TwinCommit
  import Runtime

  type Line = int

  /** Thread 0 locks 1 and waits on condition 1.  Thread 1 locks 1, signals condition 1, locks 2 and waits on
      condition 2. */
  function Script(t: Tid, line: Line): Call<Line> {
    if line == 0 then MutexLock(1, 1)
    else if t == 0 then CondWait(1, 1, 2)
    else if line == 1 then CondSignal(1, 2)
    else if line == 2 then MutexLock(2, 3)
    else CondWait(2, 2, 4)
  }

  ghost function Program(): Code<Line> {
    (t, line, v) => Script(t, line)
  }

  type State = Sys<Ctx<Line>, Os>

  /** What of a state matters here. */
  datatype Shot = Shot(ring: seq<Tid>, pending: nat, began: bool, ctx: map<Tid, Ctx<Line>>, waiting: set<Tid>,
                       locks: map<LockId, Lock>, lists: map<int, seq<Tid>>, held: Holding)

  ghost predicate At(s: State, v: Shot) {
    KR.Inv(s) && Looks(s, v)
  }

  ghost predicate Looks(s: State, v: Shot) {
    && !s.sh.overrun && s.sh.share == []
    && s.ring == v.ring && s.pending == v.pending && s.began == v.began && s.g.locks == v.locks
    && (forall t :: t in s.th <==> t in v.ctx) && (forall t :: t in s.th ==> s.th[t].st == v.ctx[t] && (s.th[t].waiting <==> t in v.waiting))
    && (forall c :: c in s.g.q.conds <==> c in v.lists) && forall c :: c in v.lists ==> s.g.q.conds[c].list == v.lists[c]
  }

  /** It is for t to go on. */
  ghost predicate Going(v: Shot, t: Tid) {
    t in v.ctx && t in v.ring && if v.pending == 0 then t !in v.waiting else v.ring != [] && v.ring[0] == t
  }

  /** The step of t leads from s to r. */
  ghost predicate Takes(code: Code<Line>, s: State, t: Tid, held: Holding, r: State, after: Holding) {
    && Enabled(Compiled(code), s, t) && Civil(code, s, t, held)
    && r == Step(Compiled(code), false, s, t) && after == HeldNext(code, s, t, held)
  }

  ghost function With(v: Shot, t: Tid, c: Ctx<Line>): Shot {
    v.(ctx := v.ctx[t := c])
  }

  /** mutex_lock is called. */
  ghost function Called(v: Shot, t: Tid, m: LockId, next: Line): Shot
    requires t in v.ctx
  {
    With(v, t, v.ctx[t].(count := v.ctx[t].count + 1, ctl := Entering(m, next)))
  }

  lemma Calls(code: Code<Line>, s: State, v: Shot, t: Tid, m: LockId, next: Line) returns (r: State)
    requires At(s, v) && Going(v, t) && (v.pending == 0 || v.began) && v.ctx[t].ctl.User? && m in v.locks && t in s.th
    requires CallOf(code, s, t) == MutexLock(m, next)
    ensures Takes(code, s, t, v.held, r, v.held)
    ensures At(r, Called(v, t, m, next))
  {
    r := Step(Compiled(code), false, s, t);
    CallTakes(code, s, v, t, m, next);
    CallLooks(code, s, v, t, m, next);
    KR.StepKeepsInv(code, s, t);
  }

  lemma CallTakes(code: Code<Line>, s: State, v: Shot, t: Tid, m: LockId, next: Line)
    requires At(s, v) && Going(v, t) && (v.pending == 0 || v.began) && v.ctx[t].ctl.User? && m in v.locks && t in s.th
    requires CallOf(code, s, t) == MutexLock(m, next)
    ensures Takes(code, s, t, v.held, Step(Compiled(code), false, s, t), v.held)
  {
  }

  lemma CallLooks(code: Code<Line>, s: State, v: Shot, t: Tid, m: LockId, next: Line)
    requires At(s, v) && Enabled(Compiled(code), s, t) && Memory.Acts(s) && t in v.ctx && v.ctx[t].ctl.User? && CallOf(code, s, t) == MutexLock(m, next)
    ensures Looks(Step(Compiled(code), false, s, t), Called(v, t, m, next))
  {
    C.LockCalls(code, s, t);
    Memory.QuietHides(Compiled(code), s, t);
    SameLook(s, Step(Compiled(code), false, s, t), v, t, v.ctx[t].(count := v.ctx[t].count + 1, ctl := Entering(m, next)));
  }

  lemma SameLook(s: State, r: State, v: Shot, t: Tid, c: Ctx<Line>)
    requires Looks(s, v) && r.sh == s.sh && r.ring == s.ring && r.pending == s.pending && r.began == s.began && r.g == s.g
    requires t in s.th && Memory.OthersAsBefore(s, r, t) && r.th[t].st == c && r.th[t].waiting == s.th[t].waiting
    ensures Looks(r, With(v, t, c))
  {
  }

  lemma WentAt(s: State, r: State, v: Shot, t: Tid, m: LockId, e: Lock, c: Ctx<Line>)
    requires Looks(s, v) && Went(s, r, t, m, e, c)
    ensures m in v.locks && At(r, With(v, t, c).(locks := v.locks[m := e]))
  {
  }

  lemma Enters(code: Code<Line>, s: State, v: Shot, t: Tid, m: LockId, next: Line) returns (r: State)
    requires At(s, v) && Going(v, t) && (v.pending == 0 || v.began) && v.ctx[t].ctl == Entering(m, next)
    ensures m in v.locks && Takes(code, s, t, v.held, r, v.held)
    ensures At(r, With(v, t, v.ctx[t].(ctl := Locking(Enter(v.locks[m], |v.ring| == 1, m), next))))
  {
    r := Step(Compiled(code), false, s, t);
    EnterWent(code, s, v, t, m, next);
    EnterHolds(code, s, v, t, m, next);
    assert v.locks[m := v.locks[m]] == v.locks;
    WentAt(s, r, v, t, m, v.locks[m], v.ctx[t].(ctl := Locking(Enter(v.locks[m], |v.ring| == 1, m), next)));
  }

  lemma EnterWent(code: Code<Line>, s: State, v: Shot, t: Tid, m: LockId, next: Line)
    requires At(s, v) && Going(v, t) && (v.pending == 0 || v.began) && v.ctx[t].ctl == Entering(m, next)
    ensures m in v.locks && Enabled(Compiled(code), s, t)
    ensures Went(s, Step(Compiled(code), false, s, t), t, m, v.locks[m], v.ctx[t].(ctl := Locking(Enter(v.locks[m], |v.ring| == 1, m), next)))
  {
    EnterGoes(code, s, t, m, next);
    KR.SingleIsAlone(s, t);
  }

  lemma EnterHolds(code: Code<Line>, s: State, v: Shot, t: Tid, m: LockId, next: Line)
    requires Looks(s, v) && (v.pending == 0 || v.began) && t in v.ctx && v.ctx[t].ctl == Entering(m, next)
    ensures HeldNext(code, s, t, v.held) == v.held && Civil(code, s, t, v.held)
  {
  }

  ghost function Advanced(v: Shot, t: Tid, pc: Pc, next: Line): Shot
    requires t in v.ctx && !pc.Idle? && pc.m in v.locks
  {
    var a := M.Access(v.locks[pc.m], t, |v.ring| == 1, pc);
    With(v, t, Place(v.ctx[t], a, next)).(locks := v.locks[pc.m := a.lock], held := if a.got then v.held + {(t, pc.m)} else v.held)
  }

  lemma Accesses(code: Code<Line>, s: State, v: Shot, t: Tid, pc: Pc, next: Line) returns (r: State)
    requires At(s, v) && Going(v, t) && (v.pending == 0 || v.began) && v.ctx[t].ctl == Locking(pc, next) && Goes(v.ctx[t].token, pc)
    ensures pc.m in v.locks && Takes(code, s, t, v.held, r, Advanced(v, t, pc, next).held) && At(r, Advanced(v, t, pc, next))
  {
    AccessWent(code, s, v, t, pc, next);
    r := Step(Compiled(code), false, s, t);
    var a := M.Access(v.locks[pc.m], t, |v.ring| == 1, pc);
    WentAt(s, r, v, t, pc.m, a.lock, Place(v.ctx[t], a, next));
    LockingHolds(code, s, v, t, pc, next, a);
  }

  lemma AccessWent(code: Code<Line>, s: State, v: Shot, t: Tid, pc: Pc, next: Line)
    requires At(s, v) && Going(v, t) && (v.pending == 0 || v.began) && v.ctx[t].ctl == Locking(pc, next) && Goes(v.ctx[t].token, pc)
    ensures pc.m in v.locks && Enabled(Compiled(code), s, t)
    ensures var a := M.Access(v.locks[pc.m], t, |v.ring| == 1, pc);
            Went(s, Step(Compiled(code), false, s, t), t, pc.m, a.lock, Place(v.ctx[t], a, next))
  {
    AccessGoes(code, s, t, pc, next);
    KR.SingleIsAlone(s, t);
  }

  lemma LockingHolds(code: Code<Line>, s: State, v: Shot, t: Tid, pc: Pc, next: Line, a: Accessed)
    requires Looks(s, v) && (v.pending == 0 || v.began) && t in v.ctx && v.ctx[t].ctl == Locking(pc, next) && !pc.Idle?
    requires var r := Step(Compiled(code), false, s, t); t in r.th && r.th[t].st == Place(v.ctx[t], a, next)
    ensures HeldNext(code, s, t, v.held) == (if a.got then v.held + {(t, pc.m)} else v.held) && Civil(code, s, t, v.held)
  {
  }

  /** Nobody has anything uncommitted where there are no pages. */
  lemma NothingDirty(s: State, t: Tid)
    requires KR.Inv(s) && !s.sh.overrun && s.sh.share == [] && t in s.th
    ensures s.th[t].dirty == map[] && TwinCommit.Commit(s.sh, s.th[t].dirty) == s.sh
  {
    forall p ensures p !in s.th[t].dirty { assert p in Dirt(s)[t] ==> 0 <= p < |s.sh.share|; }
  }

  /** The thread comes to the fence, last or not. */
  ghost function Arrived(v: Shot, t: Tid): Shot
    requires t in v.ctx
  {
    var w := With(v, t, v.ctx[t].(token := true)).(waiting := v.waiting + {t});
    if forall u :: u in v.ring ==> u in w.waiting then w.(pending := |v.ring|, began := false) else w
  }

  lemma Arrives(code: Code<Line>, s: State, v: Shot, t: Tid, m: LockId, next: Line) returns (r: State)
    requires At(s, v) && Going(v, t) && v.pending == 0 && v.ctx[t].ctl == Locking(Wants(m), next) && !v.ctx[t].token
    ensures Takes(code, s, t, v.held, r, v.held)
    ensures At(r, Arrived(v, t))
  {
    r := DoArrive(s, t, Action.Sync(v.ctx[t].(token := true)));
    ArrivesStep(code, s, v, t, m, next);
    KR.StepKeepsInv(code, s, t);
    ArrivesLooks(s, v, t);
  }

  lemma ArrivesStep(code: Code<Line>, s: State, v: Shot, t: Tid, m: LockId, next: Line)
    requires At(s, v) && Going(v, t) && v.pending == 0 && v.ctx[t].ctl == Locking(Wants(m), next) && !v.ctx[t].token
    ensures Takes(code, s, t, v.held, DoArrive(s, t, Action.Sync(v.ctx[t].(token := true))), v.held)
  {
    assert Next(Compiled(code), s, t) == Action.Sync(v.ctx[t].(token := true));
  }

  lemma ArrivesLooks(s: State, v: Shot, t: Tid)
    requires Looks(s, v) && Going(v, t) && v.pending == 0 && forall u :: u in s.ring ==> u in s.th
    ensures Looks(DoArrive(s, t, Action.Sync(v.ctx[t].(token := true))), Arrived(v, t))
  {
    var x := s.(th := s.th[t := s.th[t].(waiting := true, st := v.ctx[t].(token := true))]);
    assert AllWaiting(x) <==> forall u :: u in v.ring ==> u in v.waiting + {t};
  }

  /** It gets the token. */
  ghost function Got(v: Shot, t: Tid): Shot {
    v.(began := true, waiting := v.waiting - {t})
  }

  lemma Gets(code: Code<Line>, s: State, v: Shot, t: Tid) returns (r: State)
    requires At(s, v) && Going(v, t) && v.pending > 0 && !v.began
    ensures Takes(code, s, t, v.held, r, v.held) && At(r, Got(v, t))
  {
    r := Step(Compiled(code), false, s, t);
    KR.StepKeepsInv(code, s, t);
    NothingDirty(s, t);
  }

  // ---------- cond_wait and cond_signal ----------

  /** The ring goes on without t, or ends its phase. */
  ghost function TurnOver(v: Shot, ring: seq<Tid>, pending: nat): Shot {
    v.(ring := ring, pending := pending, began := false)
  }

  ghost function Waited(v: Shot, t: Tid, cond: int, m: LockId, next: Line): Shot
    requires t in v.ctx && cond in v.lists && m in v.locks && v.ring != [] && v.pending > 0
  {
    TurnOver(With(v, t, v.ctx[t].(ctl := Waking(m, next))), v.ring[1..], v.pending - 1).(
      lists := v.lists[cond := v.lists[cond] + [t]], locks := v.locks[m := M.Release(v.locks[m])], held := v.held - {(t, m)})
  }

  lemma Waits(code: Code<Line>, s: State, v: Shot, t: Tid, cond: int, m: LockId, next: Line) returns (r: State)
    requires At(s, v) && Going(v, t) && v.pending > 0 && v.began && v.ctx[t].ctl.User? && v.ctx[t].token && t in s.th && t !in v.waiting
    requires CallOf(code, s, t) == CondWait(cond, m, next) && cond in v.lists && m in v.locks && (t, m) in v.held
    ensures Takes(code, s, t, v.held, r, Waited(v, t, cond, m, next).held)
    ensures At(r, Waited(v, t, cond, m, next))
  {
    r := Step(Compiled(code), false, s, t);
    WaitTakes(code, s, v, t, cond, m, next);
    KR.StepKeepsInv(code, s, t);
  }

  lemma WaitTakes(code: Code<Line>, s: State, v: Shot, t: Tid, cond: int, m: LockId, next: Line)
    requires At(s, v) && Going(v, t) && v.pending > 0 && v.began && v.ctx[t].ctl.User? && v.ctx[t].token && t in s.th && t !in v.waiting
    requires CallOf(code, s, t) == CondWait(cond, m, next) && cond in v.lists && m in v.locks && (t, m) in v.held
    ensures var r, w := Step(Compiled(code), false, s, t), Waited(v, t, cond, m, next); Takes(code, s, t, v.held, r, w.held) && Looks(r, w)
  {
    assert Enabled(Compiled(code), s, t);
    C.WaitSleeps(code, s, t, cond, m, next);
    UnlockFrees(code, s, t);
    NothingDirty(s, t);
    SerialTurn(false, s, t, Next(Compiled(code), s, t));
  }

  ghost function Signalled(v: Shot, t: Tid, cond: int, next: Line): Shot
    requires t in v.ctx && cond in v.lists && v.lists[cond] != [] && v.ring != []
  {
    With(v, t, v.ctx[t].(st := next)).(ring := [t] + [v.lists[cond][0]] + v.ring[1..], pending := v.pending + 1,
                                       lists := v.lists[cond := v.lists[cond][1..]])
  }

  lemma Signals(code: Code<Line>, s: State, v: Shot, t: Tid, cond: int, next: Line) returns (r: State)
    requires At(s, v) && Going(v, t) && v.pending > 0 && v.began && v.ctx[t].ctl.User? && v.ctx[t].token && t in s.th && t !in v.waiting
    requires CallOf(code, s, t) == CondSignal(cond, next) && cond in v.lists && v.lists[cond] != []
    ensures Takes(code, s, t, v.held, r, v.held)
    ensures At(r, Signalled(v, t, cond, next))
  {
    r := Step(Compiled(code), false, s, t);
    SignalTakes(code, s, v, t, cond, next);
    KR.StepKeepsInv(code, s, t);
  }

  lemma SignalTakes(code: Code<Line>, s: State, v: Shot, t: Tid, cond: int, next: Line)
    requires At(s, v) && Going(v, t) && v.pending > 0 && v.began && v.ctx[t].ctl.User? && v.ctx[t].token && t in s.th && t !in v.waiting
    requires CallOf(code, s, t) == CondSignal(cond, next) && cond in v.lists && v.lists[cond] != []
    ensures var r := Step(Compiled(code), false, s, t); Takes(code, s, t, v.held, r, v.held) && Looks(r, Signalled(v, t, cond, next))
  {
    assert Enabled(Compiled(code), s, t);
    C.SignalWakes(code, s, t, cond, next, false);
    NothingDirty(s, t);
    KR.CondSleeps(s, cond);
  }

  // ---------- runs ----------

  /** Some run leads from s, where these locks are held, to q. */
  ghost predicate Run(code: Code<Line>, s: State, held: Holding, q: State, after: Holding) {
    exists sched :: Traced(code, s, held, sched, q, after)
  }

  /** The run sched does, and is civil. */
  ghost predicate Traced(code: Code<Line>, s: State, held: Holding, sched: seq<Tid>, q: State, after: Holding) {
    && Valid(System(Compiled(code), false), s, sched) && q == Exec(System(Compiled(code), false), s, sched)
    && CivilRun(code, s, sched, held) && after == HeldAfter(code, s, sched, held)
  }

  lemma {:induction false} TracedMore(code: Code<Line>, s: State, held: Holding, sched: seq<Tid>, q: State, mid: Holding, t: Tid, r: State, after: Holding)
    requires Traced(code, s, held, sched, q, mid) && Takes(code, q, t, mid, r, after)
    ensures Traced(code, s, held, sched + [t], r, after)
    decreases |sched|
  {
    if sched == [] {
      assert sched + [t] == [t] && [t][1..] == [];
    } else {
      var u := sched[0];
      TracedMore(code, Step(Compiled(code), false, s, u), HeldNext(code, s, u, held), sched[1..], q, mid, t, r, after);
      assert (sched + [t])[1..] == sched[1..] + [t];
    }
  }

  lemma NoRun(code: Code<Line>, s: State, held: Holding)
    ensures Run(code, s, held, s, held)
  {
    assert Traced(code, s, held, [], s, held);
  }

  lemma RunMore(code: Code<Line>, s: State, held: Holding, q: State, mid: Holding, t: Tid, r: State, after: Holding)
    requires Run(code, s, held, q, mid) && Takes(code, q, t, mid, r, after)
    ensures Run(code, s, held, r, after)
  {
    var sched :| Traced(code, s, held, sched, q, mid);
    TracedMore(code, s, held, sched, q, mid, t, r, after);
  }

  /** The run from b has come to s, which looks like v. */
  ghost predicate Come(code: Code<Line>, b: State, s: State, v: Shot) {
    At(s, v) && Run(code, b, {}, s, v.held)
  }

  /** mutex_lock is called and goes for the token. */
  ghost function Asking(v: Shot, t: Tid, m: LockId, next: Line): Shot
    requires t in v.ctx
  {
    With(v, t, v.ctx[t].(count := v.ctx[t].count + 1, ctl := Locking(Wants(m), next)))
  }

  lemma Asks(code: Code<Line>, b: State, s: State, v: Shot, t: Tid, m: LockId, next: Line) returns (r: State)
    requires Come(code, b, s, v) && Going(v, t) && (v.pending == 0 || v.began) && v.ctx[t].ctl.User? && m in v.locks && t in s.th
    requires CallOf(code, s, t) == MutexLock(m, next) && v.locks[m].users == 0 && |v.ring| > 1
    ensures Come(code, b, r, Asking(v, t, m, next))
  {
    var x := OneCall(code, b, s, v, t, m, next);
    r := OneEnter(code, b, x, Called(v, t, m, next), t, m, next);
    AskingIs(v, t, m, next);
  }

  lemma OneCall(code: Code<Line>, b: State, s: State, v: Shot, t: Tid, m: LockId, next: Line) returns (r: State)
    requires Come(code, b, s, v) && Going(v, t) && (v.pending == 0 || v.began) && v.ctx[t].ctl.User? && m in v.locks && t in s.th
    requires CallOf(code, s, t) == MutexLock(m, next)
    ensures Come(code, b, r, Called(v, t, m, next))
  {
    r := Calls(code, s, v, t, m, next);
    RunMore(code, b, {}, s, v.held, t, r, v.held);
  }

  ghost function Entered(v: Shot, t: Tid, m: LockId, next: Line): Shot
    requires t in v.ctx && m in v.locks
  {
    With(v, t, v.ctx[t].(ctl := Locking(Enter(v.locks[m], |v.ring| == 1, m), next)))
  }

  lemma OneEnter(code: Code<Line>, b: State, s: State, v: Shot, t: Tid, m: LockId, next: Line) returns (r: State)
    requires Come(code, b, s, v) && Going(v, t) && (v.pending == 0 || v.began) && v.ctx[t].ctl == Entering(m, next) && m in v.locks
    ensures Come(code, b, r, Entered(v, t, m, next))
  {
    r := Enters(code, s, v, t, m, next);
    RunMore(code, b, {}, s, v.held, t, r, v.held);
  }

  lemma AskingIs(v: Shot, t: Tid, m: LockId, next: Line)
    requires t in v.ctx && m in v.locks && v.locks[m].users == 0 && |v.ring| > 1
    ensures Entered(Called(v, t, m, next), t, m, next) == Asking(v, t, m, next)
  {
    assert Entered(Called(v, t, m, next), t, m, next).ctx == Asking(v, t, m, next).ctx;
  }

  /** With the token, it gets the lock. */
  ghost function Granted(v: Shot, t: Tid, m: LockId, next: Line): Shot
    requires t in v.ctx && m in v.locks
  {
    With(v, t, v.ctx[t].(st := next, ctl := User)).(
      locks := v.locks[m := M.Acquire(v.locks[m], t, |v.ring| == 1).lock], held := v.held + {(t, m)})
  }

  lemma OneAccess(code: Code<Line>, b: State, s: State, v: Shot, t: Tid, pc: Pc, next: Line) returns (r: State)
    requires Come(code, b, s, v) && Going(v, t) && v.pending > 0 && v.began && v.ctx[t].ctl == Locking(pc, next) && Goes(v.ctx[t].token, pc)
    ensures pc.m in v.locks && Come(code, b, r, Advanced(v, t, pc, next))
  {
    r := Accesses(code, s, v, t, pc, next);
    RunMore(code, b, {}, s, v.held, t, r, Advanced(v, t, pc, next).held);
  }

  lemma FourAccesses(v: Shot, t: Tid, m: LockId, next: Line)
    requires t in v.ctx && m in v.locks && v.ctx[t].ctl == Locking(Wants(m), next) && !v.locks[m].acquired && M.Acquire(v.locks[m], t, |v.ring| == 1).ok
    ensures var w := Advanced(Advanced(Advanced(v, t, Wants(m), next), t, Tests(m, false), next), t, Sets(m, false), next);
            w.ctx[t].ctl == Locking(Counts(m, false), next) && Advanced(w, t, Counts(m, false), next) == Granted(v, t, m, next)
  {
    var x := Advanced(v, t, Wants(m), next);
    var y := Advanced(x, t, Tests(m, false), next);
    var w := Advanced(y, t, Sets(m, false), next);
    assert w.locks == v.locks[m := v.locks[m].(acquired := true)];
    assert Advanced(w, t, Counts(m, false), next).locks == Granted(v, t, m, next).locks;
  }

  lemma Locks(code: Code<Line>, b: State, s: State, v: Shot, t: Tid, m: LockId, next: Line) returns (r: State)
    requires Come(code, b, s, v) && Going(v, t) && v.pending > 0 && v.began && v.ctx[t].ctl == Locking(Wants(m), next) && v.ctx[t].token
    requires m in v.locks && !v.locks[m].acquired && M.Acquire(v.locks[m], t, |v.ring| == 1).ok
    ensures Come(code, b, r, Granted(v, t, m, next))
  {
    FourAccesses(v, t, m, next);
    var x := Advanced(v, t, Wants(m), next);
    var y := Advanced(x, t, Tests(m, false), next);
    var w := Advanced(y, t, Sets(m, false), next);
    r := OneAccess(code, b, s, v, t, Wants(m), next);
    r := OneAccess(code, b, r, x, t, Tests(m, false), next);
    r := OneAccess(code, b, r, y, t, Sets(m, false), next);
    r := OneAccess(code, b, r, w, t, Counts(m, false), next);
  }

  // ---------- the scenario ----------

  ghost function Opening(): Shot {
    Shot([0, 1], 0, false, map[0 := Ctx(0, User, 0, false), 1 := Ctx(0, User, 0, false)], {},
         map[1 := Lock(0, 0, false, 0), 2 := Lock(0, 0, false, 0)], map[1 := [], 2 := []], {})
  }

  lemma Opens() returns (s: Runtime.Rt<Ctx<Line>, Os>)
    ensures KR.Start(s) && Unlocked(s.mem) && At(s.mem, Opening())
  {
    s := KR.Begins([0, 1], [], _ => 0, map[1 := 0, 2 := 0], {1, 2}, map[]);
    KR.StartInv(s);
    OpeningLooks(s.mem);
    UnlockedAt(s.mem);
  }

  lemma OpeningLooks(s: State)
    requires s.ring == [0, 1] && Initial(s) && !s.began && s.sh.share == [] && s.g.locks == KR.NewLocks(map[1 := 0, 2 := 0])
    requires (forall t :: t in s.th ==> s.th[t].st == Ctx(0, User, 0, false)) && forall t :: t in s.th <==> t in s.ring
    requires s.g.q == Q.Start([0, 1], {1, 2}, map[], map[])
    ensures Looks(s, Opening())
  {
    assert s.g.locks == Opening().locks;
  }

  lemma UnlockedAt(s: State)
    requires (forall t :: t in s.th ==> s.th[t].st == Ctx(0, User, 0, false)) && forall m :: m in s.g.locks ==> !s.g.locks[m].acquired
    ensures Unlocked(s)
  {
  }

  lemma OneArrive(code: Code<Line>, b: State, s: State, v: Shot, t: Tid, m: LockId, next: Line) returns (r: State)
    requires Come(code, b, s, v) && Going(v, t) && v.pending == 0 && v.ctx[t].ctl == Locking(Wants(m), next) && !v.ctx[t].token
    ensures Come(code, b, r, Arrived(v, t))
  {
    r := Arrives(code, s, v, t, m, next);
    RunMore(code, b, {}, s, v.held, t, r, v.held);
  }

  lemma OneGet(code: Code<Line>, b: State, s: State, v: Shot, t: Tid) returns (r: State)
    requires Come(code, b, s, v) && Going(v, t) && v.pending > 0 && !v.began
    ensures Come(code, b, r, Got(v, t))
  {
    r := Gets(code, s, v, t);
    RunMore(code, b, {}, s, v.held, t, r, v.held);
  }

  lemma OneWait(code: Code<Line>, b: State, s: State, v: Shot, t: Tid, cond: int, m: LockId, next: Line) returns (r: State)
    requires Come(code, b, s, v) && Going(v, t) && v.pending > 0 && v.began && v.ctx[t].ctl.User? && v.ctx[t].token && t in s.th && t !in v.waiting
    requires CallOf(code, s, t) == CondWait(cond, m, next) && cond in v.lists && m in v.locks && (t, m) in v.held
    ensures Come(code, b, r, Waited(v, t, cond, m, next))
  {
    r := Waits(code, s, v, t, cond, m, next);
    RunMore(code, b, {}, s, v.held, t, r, Waited(v, t, cond, m, next).held);
  }

  lemma OneSignal(code: Code<Line>, b: State, s: State, v: Shot, t: Tid, cond: int, next: Line) returns (r: State)
    requires Come(code, b, s, v) && Going(v, t) && v.pending > 0 && v.began && v.ctx[t].ctl.User? && v.ctx[t].token && t in s.th && t !in v.waiting
    requires CallOf(code, s, t) == CondSignal(cond, next) && cond in v.lists && v.lists[cond] != []
    ensures Come(code, b, r, Signalled(v, t, cond, next))
  {
    r := Signals(code, s, v, t, cond, next);
    RunMore(code, b, {}, s, v.held, t, r, v.held);
  }

  const New := Lock(0, 0, false, 0)

  /** Both ask for lock 1, and come to the fence. */
  ghost function Asked(): Shot {
    Shot([0, 1], 2, false, map[0 := Ctx(0, Locking(Wants(1), 1), 1, true), 1 := Ctx(0, Locking(Wants(1), 1), 1, true)], {0, 1},
         map[1 := New, 2 := New], map[1 := [], 2 := []], {})
  }

  /** Thread 0 has had lock 1, and waits on condition 1. */
  ghost function Asleep(): Shot {
    Shot([1], 1, false, map[0 := Ctx(1, Waking(1, 2), 1, true), 1 := Ctx(0, Locking(Wants(1), 1), 1, true)], {1},
         map[1 := Lock(1, 0, false, 10), 2 := New], map[1 := [0], 2 := []], {})
  }

  /** Thread 1 has lock 1, and has woken thread 0. */
  ghost function Woken(): Shot {
    Shot([1, 0], 2, true, map[0 := Ctx(1, Waking(1, 2), 1, true), 1 := Ctx(2, User, 1, true)], {},
         map[1 := Lock(2, 0, true, 10), 2 := New], map[1 := [], 2 := []], {(1, 1)})
  }

  /** Thread 1 has had lock 2 as well, waits on condition 2, and keeps lock 1; and thread 0 has the token. */
  ghost function Kept(): Shot {
    Shot([0], 1, true, map[0 := Ctx(1, Waking(1, 2), 1, true), 1 := Ctx(3, Waking(2, 4), 2, true)], {},
         map[1 := Lock(2, 0, true, 10), 2 := Lock(1, 1, false, 10)], map[1 := [], 2 := [1]], {(1, 1)})
  }

  ghost function Opening1(): Shot {
    Opening().(ctx := map[0 := Ctx(0, Locking(Wants(1), 1), 1, false), 1 := Ctx(0, User, 0, false)])
  }

  lemma ToOpening1(b: State, s: State) returns (r: State)
    requires Come(Program(), b, s, Opening())
    ensures Come(Program(), b, r, Opening1())
  {
    Opening1Is();
    r := Asks(Program(), b, s, Opening(), 0, 1, 1);
  }

  lemma Opening1Is()
    ensures Asking(Opening(), 0, 1, 1) == Opening1()
  {
    var v := Asking(Opening(), 0, 1, 1);
    assert v.ctx == Opening1().ctx && v.locks == Opening1().locks && v.lists == Opening1().lists && v.held == Opening1().held && v.waiting == Opening1().waiting && v.ring == Opening1().ring;
  }

  ghost function Opening2(): Shot {
    Opening().(ctx := map[0 := Ctx(0, Locking(Wants(1), 1), 1, false), 1 := Ctx(0, Locking(Wants(1), 1), 1, false)])
  }

  lemma ToOpening2(b: State, s: State) returns (r: State)
    requires Come(Program(), b, s, Opening1())
    ensures Come(Program(), b, r, Opening2())
  {
    Opening2Is();
    r := Asks(Program(), b, s, Opening1(), 1, 1, 1);
  }

  lemma Opening2Is()
    ensures Asking(Opening1(), 1, 1, 1) == Opening2()
  {
    var v := Asking(Opening1(), 1, 1, 1);
    assert v.ctx == Opening2().ctx && v.locks == Opening2().locks && v.lists == Opening2().lists && v.held == Opening2().held && v.waiting == Opening2().waiting && v.ring == Opening2().ring;
  }

  ghost function Opening3(): Shot {
    Opening().(ctx := map[0 := Ctx(0, Locking(Wants(1), 1), 1, true), 1 := Ctx(0, Locking(Wants(1), 1), 1, false)], waiting := {0})
  }

  lemma ToOpening3(b: State, s: State) returns (r: State)
    requires Come(Program(), b, s, Opening2())
    ensures Come(Program(), b, r, Opening3())
  {
    Opening3Is();
    r := OneArrive(Program(), b, s, Opening2(), 0, 1, 1);
  }

  lemma Opening3Is()
    ensures Arrived(Opening2(), 0) == Opening3()
  {
    var v := Arrived(Opening2(), 0);
    assert 1 in Opening2().ring && 1 !in {0};
    assert v.ctx == Opening3().ctx && v.locks == Opening3().locks && v.lists == Opening3().lists && v.held == Opening3().held && v.waiting == Opening3().waiting && v.ring == Opening3().ring;
  }

  lemma ToAsked(b: State, s: State) returns (r: State)
    requires Come(Program(), b, s, Opening3())
    ensures Come(Program(), b, r, Asked())
  {
    AskedIs();
    r := OneArrive(Program(), b, s, Opening3(), 1, 1, 1);
  }

  lemma AskedIs()
    ensures Arrived(Opening3(), 1) == Asked()
  {
    var v := Arrived(Opening3(), 1);
    assert v.ctx == Asked().ctx && v.locks == Asked().locks && v.lists == Asked().lists && v.held == Asked().held && v.waiting == Asked().waiting && v.ring == Asked().ring;
  }

  ghost function Asked1(): Shot {
    Asked().(began := true, waiting := {1})
  }

  lemma ToAsked1(b: State, s: State) returns (r: State)
    requires Come(Program(), b, s, Asked())
    ensures Come(Program(), b, r, Asked1())
  {
    Asked1Is();
    r := OneGet(Program(), b, s, Asked(), 0);
  }

  lemma Asked1Is()
    ensures Got(Asked(), 0) == Asked1()
  {
    var v := Got(Asked(), 0);
    assert v.ctx == Asked1().ctx && v.locks == Asked1().locks && v.lists == Asked1().lists && v.held == Asked1().held && v.waiting == Asked1().waiting && v.ring == Asked1().ring;
  }

  ghost function Asked2(): Shot {
    Asked().(began := true, waiting := {1}, ctx := map[0 := Ctx(1, User, 1, true), 1 := Ctx(0, Locking(Wants(1), 1), 1, true)],
               locks := map[1 := Lock(1, 0, true, 10), 2 := New], held := {(0, 1)})
  }

  lemma ToAsked2(b: State, s: State) returns (r: State)
    requires Come(Program(), b, s, Asked1())
    ensures Come(Program(), b, r, Asked2())
  {
    Asked2Is();
    r := Locks(Program(), b, s, Asked1(), 0, 1, 1);
  }

  lemma Asked2Is()
    ensures Granted(Asked1(), 0, 1, 1) == Asked2()
  {
    var v := Granted(Asked1(), 0, 1, 1);
    assert v.ctx == Asked2().ctx && v.locks == Asked2().locks && v.lists == Asked2().lists && v.held == Asked2().held && v.waiting == Asked2().waiting && v.ring == Asked2().ring;
  }

  lemma ToAsleep(b: State, s: State) returns (r: State)
    requires Come(Program(), b, s, Asked2())
    ensures Come(Program(), b, r, Asleep())
  {
    AsleepIs();
    r := OneWait(Program(), b, s, Asked2(), 0, 1, 1, 2);
  }

  lemma AsleepIs()
    ensures Waited(Asked2(), 0, 1, 1, 2) == Asleep()
  {
    var v := Waited(Asked2(), 0, 1, 1, 2);
    assert v.lists[1] == [0];
    assert v.ctx == Asleep().ctx && v.locks == Asleep().locks && v.lists == Asleep().lists && v.held == Asleep().held && v.waiting == Asleep().waiting && v.ring == Asleep().ring;
  }

  ghost function Asleep1(): Shot {
    Asleep().(began := true, waiting := {})
  }

  lemma ToAsleep1(b: State, s: State) returns (r: State)
    requires Come(Program(), b, s, Asleep())
    ensures Come(Program(), b, r, Asleep1())
  {
    Asleep1Is();
    r := OneGet(Program(), b, s, Asleep(), 1);
  }

  lemma Asleep1Is()
    ensures Got(Asleep(), 1) == Asleep1()
  {
    var v := Got(Asleep(), 1);
    assert v.ctx == Asleep1().ctx && v.locks == Asleep1().locks && v.lists == Asleep1().lists && v.held == Asleep1().held && v.waiting == Asleep1().waiting && v.ring == Asleep1().ring;
  }

  ghost function Asleep2(): Shot {
    Asleep().(began := true, waiting := {}, ctx := map[0 := Ctx(1, Waking(1, 2), 1, true), 1 := Ctx(1, User, 1, true)],
                locks := map[1 := Lock(2, 0, true, 10), 2 := New], held := {(1, 1)})
  }

  lemma ToAsleep2(b: State, s: State) returns (r: State)
    requires Come(Program(), b, s, Asleep1())
    ensures Come(Program(), b, r, Asleep2())
  {
    Asleep2Is();
    r := Locks(Program(), b, s, Asleep1(), 1, 1, 1);
  }

  lemma Asleep2Is()
    ensures Granted(Asleep1(), 1, 1, 1) == Asleep2()
  {
    var v := Granted(Asleep1(), 1, 1, 1);
    assert v.ctx == Asleep2().ctx && v.locks == Asleep2().locks && v.lists == Asleep2().lists && v.held == Asleep2().held && v.waiting == Asleep2().waiting && v.ring == Asleep2().ring;
  }

  lemma ToWoken(b: State, s: State) returns (r: State)
    requires Come(Program(), b, s, Asleep2())
    ensures Come(Program(), b, r, Woken())
  {
    WokenIs();
    r := OneSignal(Program(), b, s, Asleep2(), 1, 1, 2);
  }

  lemma WokenIs()
    ensures Signalled(Asleep2(), 1, 1, 2) == Woken()
  {
    var v := Signalled(Asleep2(), 1, 1, 2);
    assert v.lists[1] == [] && v.ring == [1, 0];
    assert v.ctx == Woken().ctx && v.locks == Woken().locks && v.lists == Woken().lists && v.held == Woken().held && v.waiting == Woken().waiting && v.ring == Woken().ring;
  }

  ghost function Woken1(): Shot {
    Woken().(ctx := map[0 := Ctx(1, Waking(1, 2), 1, true), 1 := Ctx(2, Locking(Wants(2), 3), 2, true)])
  }

  lemma ToWoken1(b: State, s: State) returns (r: State)
    requires Come(Program(), b, s, Woken())
    ensures Come(Program(), b, r, Woken1())
  {
    Woken1Is();
    r := Asks(Program(), b, s, Woken(), 1, 2, 3);
  }

  lemma Woken1Is()
    ensures Asking(Woken(), 1, 2, 3) == Woken1()
  {
    var v := Asking(Woken(), 1, 2, 3);
    assert v.ctx == Woken1().ctx && v.locks == Woken1().locks && v.lists == Woken1().lists && v.held == Woken1().held && v.waiting == Woken1().waiting && v.ring == Woken1().ring;
  }

  ghost function Woken2(): Shot {
    Woken().(ctx := map[0 := Ctx(1, Waking(1, 2), 1, true), 1 := Ctx(3, User, 2, true)],
               locks := map[1 := Lock(2, 0, true, 10), 2 := Lock(1, 1, true, 10)], held := {(1, 1), (1, 2)})
  }

  lemma ToWoken2(b: State, s: State) returns (r: State)
    requires Come(Program(), b, s, Woken1())
    ensures Come(Program(), b, r, Woken2())
  {
    Woken2Is();
    r := Locks(Program(), b, s, Woken1(), 1, 2, 3);
  }

  lemma Woken2Is()
    ensures Granted(Woken1(), 1, 2, 3) == Woken2()
  {
    var v := Granted(Woken1(), 1, 2, 3);
    assert v.ctx == Woken2().ctx && v.locks == Woken2().locks && v.lists == Woken2().lists && v.held == Woken2().held && v.waiting == Woken2().waiting && v.ring == Woken2().ring;
  }

  ghost function Woken3(): Shot {
    Kept().(began := false)
  }

  lemma ToWoken3(b: State, s: State) returns (r: State)
    requires Come(Program(), b, s, Woken2())
    ensures Come(Program(), b, r, Woken3())
  {
    Woken3Is();
    r := OneWait(Program(), b, s, Woken2(), 1, 2, 2, 4);
  }

  lemma Woken3Is()
    ensures Waited(Woken2(), 1, 2, 2, 4) == Woken3()
  {
    var v := Waited(Woken2(), 1, 2, 2, 4);
    assert v.lists[2] == [1];
    assert v.ctx == Woken3().ctx && v.locks == Woken3().locks && v.lists == Woken3().lists && v.held == Woken3().held && v.waiting == Woken3().waiting && v.ring == Woken3().ring;
  }

  lemma ToKept(b: State, s: State) returns (r: State)
    requires Come(Program(), b, s, Woken3())
    ensures Come(Program(), b, r, Kept())
  {
    KeptIs();
    r := OneGet(Program(), b, s, Woken3(), 0);
  }

  lemma KeptIs()
    ensures Got(Woken3(), 0) == Kept()
  {
    var v := Got(Woken3(), 0);
    assert v.ctx == Kept().ctx && v.locks == Kept().locks && v.lists == Kept().lists && v.held == Kept().held && v.waiting == Kept().waiting && v.ring == Kept().ring;
  }

  /** From a start of two threads, by a run in which locks are used as they should: thread 1 is between mutex_lock and
      mutex_unlock of lock 1, and thread 0 comes back from cond_wait into the same. */
  lemma TwoHold() returns (s: Runtime.Rt<Ctx<Line>, Os>, sched: seq<Tid>, q: State, held: Holding)
    ensures KR.Start(s) && Unlocked(s.mem) && Traced(Program(), s.mem, {}, sched, q, held)
    ensures Enabled(Compiled(Program()), q, 0) && Memory.Acts(q) && q.th[0].st.ctl == Waking(1, 2)
    ensures (1, 1) in held && (0, 1) in HeldNext(Program(), q, 0, held) && (1, 1) in HeldNext(Program(), q, 0, held)
  {
    s := Opens();
    NoRun(Program(), s.mem, {});
    q := s.mem;
    q := ToOpening1(s.mem, q);
    q := ToOpening2(s.mem, q);
    q := ToOpening3(s.mem, q);
    q := ToAsked(s.mem, q);
    q := ToAsked1(s.mem, q);
    q := ToAsked2(s.mem, q);
    q := ToAsleep(s.mem, q);
    q := ToAsleep1(s.mem, q);
    q := ToAsleep2(s.mem, q);
    q := ToWoken(s.mem, q);
    q := ToWoken1(s.mem, q);
    q := ToWoken2(s.mem, q);
    q := ToWoken3(s.mem, q);
    q := ToKept(s.mem, q);
    held := {(1, 1)};
    sched :| Traced(Program(), s.mem, {}, sched, q, held);
    GoesOnAnyway(q);
  }

  lemma GoesOnAnyway(q: State)
    requires At(q, Kept())
    ensures Enabled(Compiled(Program()), q, 0) && Memory.Acts(q) && q.th[0].st.ctl == Waking(1, 2)
    ensures var after := HeldNext(Program(), q, 0, {(1, 1)}); (0, 1) in after && (1, 1) in after
  {
    RefusedMayGo(Program(), q);
    RetakeStep(Program(), q, 0);
  }

  lemma RefusedMayGo(code: Code<Line>, q: State)
    requires At(q, Kept())
    ensures Enabled(Compiled(code), q, 0) && Memory.Acts(q) && q.th[0].st.ctl == Waking(1, 2)
  {
  }
}
