/** What each call of a program does, end to end: to the ring, to the queues, to its own thread, and whether it
    commits. */
module Calls {
  import opened Counting
  import opened Pages
  import opened Runs
  import opened Machine
  import opened M = Mutex
  import opened Kernel
  import KR = KernelRuns
  import E = Exclusion
  import Q = Conserve
  import R = Ring
  import Memory
  import D = Determinism
  import TC = TwinCommit

  /** t has the token, and its next step is this call: made in user code, or one that has waited for the token. */
  ghost predicate Makes<L>(code: Code<L>, s: Sys<Ctx<L>, Os>, t: Tid, call: Call<L>) {
    && KR.Inv(s) && Enabled(Compiled(code), s, t) && s.pending > 0 && s.began
    && (s.th[t].st.ctl == Turn(call) || (s.th[t].st.ctl.User? && s.th[t].st.token && E.CallOf(code, s, t) == call))
  }

  /** The step commits, and then t's own state and the ring are these. */
  ghost predicate Does<L>(code: Code<L>, s: Sys<Ctx<L>, Os>, t: Tid, st: Ctx<L>, ring: seq<Tid>, pending: int) {
    var r := Step(Compiled(code), false, s, t);
    && t in s.th && Memory.Commits(Compiled(code), s, t) && E.OnlyBy(s, r, t)
    && r.th[t].st == st && r.ring == ring && r.pending == pending
  }

  ghost function Signalling<L>(all: bool, cond: int, next: L): Call<L> {
    if all then CondBroadcast(cond, next) else CondSignal(cond, next)
  }

  /** Those whom a signal or a broadcast wakes. */
  ghost function Woken(list: seq<Tid>, all: bool): seq<Tid> {
    if all || list == [] then list else [list[0]]
  }

  lemma WakenQueues(g: Os, cond: int, all: bool)
    requires Q.Inv(g.q) && g.q.ring != [] && g.q.ring[0] !in g.q.back && cond in g.q.conds && g.q.conds[cond].list != []
    ensures var list, e := g.q.conds[cond].list, if all then Q.Broadcast(cond) else Q.Signal(cond);
            var q, who := Q.Step(g.q, e), Woken(list, all);
            && q.ring == [g.q.ring[0]] + who + g.q.ring[1..] && q.conds == g.q.conds[cond := q.conds[cond]] && cond in q.conds
            && q.conds[cond].list == list[|who|..] && q.barriers == g.q.barriers
  {
    if all { BroadcastQueues(g.q, cond); } else { SignalQueues(g.q, cond); }
  }

  lemma BroadcastQueues(q: Q.State, cond: int)
    requires Q.Inv(q) && q.ring != [] && q.ring[0] !in q.back && cond in q.conds && q.conds[cond].list != []
    ensures var list, r := q.conds[cond].list, Q.Step(q, Q.Broadcast(cond));
            && r.ring == [q.ring[0]] + list + q.ring[1..] && r.conds == q.conds[cond := r.conds[cond]] && cond in r.conds
            && r.conds[cond].list == list[|list|..] && r.barriers == q.barriers
  {
    R.Behind(q.ring, q.conds[cond].list);
  }

  lemma SignalQueues(q: Q.State, cond: int)
    requires Q.Inv(q) && q.ring != [] && q.ring[0] !in q.back && cond in q.conds && q.conds[cond].list != []
    ensures var list, r := q.conds[cond].list, Q.Step(q, Q.Signal(cond));
            && r.ring == [q.ring[0]] + [list[0]] + q.ring[1..] && r.conds == q.conds[cond := r.conds[cond]] && cond in r.conds
            && r.conds[cond].list == list[1..] && r.barriers == q.barriers
  {
    R.Behind(q.ring, [q.conds[cond].list[0]]);
  }

  /** Its own state after a call that keeps the token in user code, or passes it next. */
  ghost function After<L>(c: Ctx<L>, next: L): Ctx<L> {
    if c.ctl.User? then c.(st := next) else c.(ctl := Handing(next))
  }

  lemma SignalDoes<L>(code: Code<L>, t: Tid, c: Ctx<L>, v: seq<Page>, g: Os, cond: int, next: L, all: bool)
    requires !Do(code, t, c, v, g).Stuck?
    requires var call := Signalling(all, cond, next); c.ctl == Turn(call) || (c.ctl.User? && c.token && code(t, c.st, v) == call)
    ensures cond in g.q.conds && Do(code, t, c, v, g) == Waken(After(c, next), cond, all, g)
  {
  }

  lemma SignalAction<L>(code: Code<L>, s: Sys<Ctx<L>, Os>, t: Tid, cond: int, next: L, all: bool)
    requires Makes(code, s, t, Signalling(all, cond, next))
    ensures cond in s.g.q.conds && Next(Compiled(code), s, t) == Waken(After(s.th[t].st, next), cond, all, s.g)
  {
    SignalDoes(code, t, s.th[t].st, View(s.sh, s.th[t].dirty), s.g, cond, next, all);
  }

  /** cond_signal wakes the longest waiter and cond_broadcast all, in the order in which they have come to wait: they go
      behind the caller, which keeps the token, and commits. */
  lemma SignalWakes<L>(code: Code<L>, s: Sys<Ctx<L>, Os>, t: Tid, cond: int, next: L, all: bool)
    requires Makes(code, s, t, Signalling(all, cond, next))
    ensures cond in s.g.q.conds
    ensures var list := s.g.q.conds[cond].list;
            var who := Woken(list, all);
            Does(code, s, t, After(s.th[t].st, next), [t] + who + s.ring[1..], s.pending + |who|)
    ensures var r, list := Step(Compiled(code), false, s, t), s.g.q.conds[cond].list;
            && r.g.locks == s.g.locks && r.g.q.barriers == s.g.q.barriers && cond in r.g.q.conds
            && r.g.q.conds == s.g.q.conds[cond := r.g.q.conds[cond]] && r.g.q.conds[cond].list == list[|Woken(list, all)|..]
  {
    SignalAction(code, s, t, cond, next, all);
    if s.g.q.conds[cond].list == [] {
      WakesNobody(code, s, t, cond, next, all);
      assert s.ring == [t] + [] + s.ring[1..] && s.g.q.conds[cond := s.g.q.conds[cond]] == s.g.q.conds;
    } else {
      WakesSomebody(code, s, t, cond, next, all);
    }
  }

  lemma WakesNobody<L>(code: Code<L>, s: Sys<Ctx<L>, Os>, t: Tid, cond: int, next: L, all: bool)
    requires Makes(code, s, t, Signalling(all, cond, next)) && cond in s.g.q.conds && s.g.q.conds[cond].list == []
    requires Next(Compiled(code), s, t) == Action.Publish(After(s.th[t].st, next), s.g)
    ensures Does(code, s, t, After(s.th[t].st, next), s.ring, s.pending) && Step(Compiled(code), false, s, t).g == s.g
  {
    E.StepOnly(code, s, t);
    PublishTurn(s, t, Next(Compiled(code), s, t));
  }

  lemma PublishTurn<L>(s: Sys<Ctx<L>, Os>, t: Tid, a: Action<Ctx<L>, Os>)
    requires TC.WellFormed(s.sh) && t in s.th && s.pending > 0 && s.ring != [] && InRange(s.sh, a) && a.Publish?
    ensures var r := DoTurn(false, s, t, a); r.ring == s.ring && r.pending == s.pending
  {
  }

  lemma WakesSomebody<L>(code: Code<L>, s: Sys<Ctx<L>, Os>, t: Tid, cond: int, next: L, all: bool)
    requires Makes(code, s, t, Signalling(all, cond, next)) && cond in s.g.q.conds && s.g.q.conds[cond].list != []
    requires Next(Compiled(code), s, t) == Waken(After(s.th[t].st, next), cond, all, s.g)
    ensures var who := Woken(s.g.q.conds[cond].list, all);
            Does(code, s, t, After(s.th[t].st, next), [t] + who + s.ring[1..], s.pending + |who|)
    ensures var r, list := Step(Compiled(code), false, s, t), s.g.q.conds[cond].list;
            && r.g.locks == s.g.locks && r.g.q.barriers == s.g.q.barriers && cond in r.g.q.conds
            && r.g.q.conds == s.g.q.conds[cond := r.g.q.conds[cond]] && r.g.q.conds[cond].list == list[|Woken(list, all)|..]
  {
    E.StepOnly(code, s, t);
    WakenQueues(s.g, cond, all);
    SignalRing(code, s, t, cond, all);
  }

  lemma SignalRing<L>(code: Code<L>, s: Sys<Ctx<L>, Os>, t: Tid, cond: int, all: bool)
    requires KR.Inv(s) && Enabled(Compiled(code), s, t) && s.pending > 0 && s.began && cond in s.g.q.conds && s.g.q.conds[cond].list != []
    requires var a := Next(Compiled(code), s, t); a.Wake? && a.who == Woken(s.g.q.conds[cond].list, all)
    ensures var r, who := Step(Compiled(code), false, s, t), Woken(s.g.q.conds[cond].list, all);
            r.ring == [t] + who + s.ring[1..] && r.pending == s.pending + |who|
  {
    KR.CondSleeps(s, cond);
    SignalTurn(s, t, Next(Compiled(code), s, t));
  }

  lemma SignalTurn<L>(s: Sys<Ctx<L>, Os>, t: Tid, a: Action<Ctx<L>, Os>)
    requires TC.WellFormed(s.sh) && t in s.th && s.pending > 0 && s.ring != [] && InRange(s.sh, a) && a.Wake? && Sleeping(s, a.who)
    ensures var r := DoTurn(false, s, t, a); r.ring == [t] + a.who + s.ring[1..] && r.pending == s.pending + |a.who|
  {
  }

  /** cond_wait, by a thread with the token: it leaves the ring for the end of the condition's list, gives the lock up, and
      commits. */
  lemma WaitSleeps<L>(code: Code<L>, s: Sys<Ctx<L>, Os>, t: Tid, cond: int, m: LockId, next: L)
    requires KR.Inv(s) && Enabled(Compiled(code), s, t) && Memory.Acts(s) && s.th[t].st.ctl.User? && E.CallOf(code, s, t) == CondWait(cond, m, next)
    ensures s.pending > 0 && s.ring != [] && Does(code, s, t, s.th[t].st.(ctl := Waking(m, next)), s.ring[1..], s.pending - 1)
    ensures var r := Step(Compiled(code), false, s, t);
            && cond in s.g.q.conds && cond in r.g.q.conds && r.g.q.conds[cond].list == s.g.q.conds[cond].list + [t] && !E.Taken(r.g, m)
            && r.g.q.conds == s.g.q.conds[cond := r.g.q.conds[cond]] && r.g.q.barriers == s.g.q.barriers
  {
    assert KR.ThreadOk(s, t) && (s.pending == 0 ==> KR.Rested(s, t));
    E.StepOnly(code, s, t);
    E.UnlockFrees(code, s, t);
    SerialTurn(false, s, t, Next(Compiled(code), s, t));
  }

  /** barrier_wait: the last thread puts all others before itself into the ring, and the parallel phase begins; any other
      leaves the ring for the barrier's list.  Both commit. */
  lemma BarrierWaits<L>(code: Code<L>, s: Sys<Ctx<L>, Os>, t: Tid, b: int, next: L)
    requires Makes(code, s, t, BarrierWait(b, next))
    ensures s.ring != [] && b in s.g.q.barriers
    ensures var q, st := s.g.q.barriers[b], s.th[t].st.(st := next, ctl := User);
            if |q.list| + 1 == q.max then s.ring == [t] && Does(code, s, t, st, q.list + [t], 0)
            else Does(code, s, t, st, s.ring[1..], s.pending - 1)
    ensures var r, q := Step(Compiled(code), false, s, t), s.g.q.barriers[b];
            && b in r.g.q.barriers && r.g.q.barriers[b].list == (if |q.list| + 1 == q.max then [] else q.list + [t])
            && r.g.q.barriers == s.g.q.barriers[b := r.g.q.barriers[b]] && r.g.q.conds == s.g.q.conds && r.g.locks == s.g.locks
  {
    BarrierAction(code, s, t, b, next);
    BarrierTurn(code, s, t, b, next);
    BarrierQueues(s.g.q, b);
    E.StepOnly(code, s, t);
  }

  lemma BarrierAction<L>(code: Code<L>, s: Sys<Ctx<L>, Os>, t: Tid, b: int, next: L)
    requires Makes(code, s, t, BarrierWait(b, next))
    ensures var a := Next(Compiled(code), s, t);
            (a.Sleep? || a.Gather?) && a.next == s.th[t].st.(st := next, ctl := User) && a.g == Queue(s.g, Q.BarrierWait(b)) && b in s.g.q.barriers
  {
    assert KR.ThreadOk(s, t);
  }

  lemma BarrierQueues(q: Q.State, b: int)
    requires Q.Inv(q) && q.ring != [] && q.ring[0] !in q.back && b in q.barriers
    ensures var r, l := Q.Step(q, Q.BarrierWait(b)), q.barriers[b];
            && b in r.barriers && r.barriers[b].list == (if |l.list| + 1 == l.max then [] else l.list + [q.ring[0]])
            && r.barriers == q.barriers[b := r.barriers[b]] && r.conds == q.conds
  {
  }

  lemma BarrierTurn<L>(code: Code<L>, s: Sys<Ctx<L>, Os>, t: Tid, b: int, next: L)
    requires Makes(code, s, t, BarrierWait(b, next))
    ensures s.ring != [] && s.ring[0] == t && b in s.g.q.barriers && s.th[t].st.ctl.Turn?
    ensures var q, r := s.g.q.barriers[b], Step(Compiled(code), false, s, t);
            q.count == |q.list|
            && if q.count + 1 == q.max then s.ring == [t] && r.ring == q.list + [t] && r.pending == 0
               else r.ring == s.ring[1..] && r.pending == s.pending - 1
  {
    var a := Next(Compiled(code), s, t);
    KR.BarrierSleeps(s, b);
    if a.Gather? { SerialGather(false, s, t, a); } else { SerialTurn(false, s, t, a); }
  }

  /** After the last unlock, and after a signal that had to wait for it, the token goes to the next thread of the ring. */
  lemma HandingPasses<L>(code: Code<L>, s: Sys<Ctx<L>, Os>, t: Tid)
    requires KR.Inv(s) && Enabled(Compiled(code), s, t) && Memory.Acts(s) && s.th[t].st.ctl.Handing?
    ensures var c := s.th[t].st;
            s.pending > 0 && s.ring != [] && Does(code, s, t, c.(st := c.ctl.next, ctl := User, token := false), s.ring[1..] + [t], s.pending - 1)
  {
    assert KR.ThreadOk(s, t) && (s.pending == 0 ==> KR.Rested(s, t));
    E.StepOnly(code, s, t);
    SerialTurn(false, s, t, Next(Compiled(code), s, t));
  }

  lemma CallSyncs<L>(code: Code<L>, t: Tid, c: Ctx<L>, v: seq<Page>, g: Os)
    requires c.ctl.User? && !c.token && var call := code(t, c.st, v); call.CondSignal? || call.CondBroadcast? || call.BarrierWait?
    ensures Do(code, t, c, v, g) == Action.Sync(c.(ctl := Turn(code(t, c.st, v))))
  {
  }

  /** Without the token these calls wait for it at the fence, and are made then. */
  lemma CallsWait<L>(code: Code<L>, s: Sys<Ctx<L>, Os>, t: Tid)
    requires KR.Inv(s) && Enabled(Compiled(code), s, t) && s.pending == 0 && s.th[t].st.ctl.User? && !s.th[t].st.token
    requires var call := E.CallOf(code, s, t); call.CondSignal? || call.CondBroadcast? || call.BarrierWait?
    ensures var r := Step(Compiled(code), false, s, t);
            t in r.th && r.th[t].st == s.th[t].st.(ctl := Turn(E.CallOf(code, s, t))) && r.g == s.g && r.th[t].waiting
  {
    CallSyncs(code, t, s.th[t].st, View(s.sh, s.th[t].dirty), s.g);
    E.StepOnly(code, s, t);
    D.StepIsLocal(Compiled(code), s, t);
  }

  /** mutex_lock and mutex_unlock return to the program, or go on, without a commit: what is written under a lock is
      committed when the token passes. */
  lemma LockCalls<L>(code: Code<L>, s: Sys<Ctx<L>, Os>, t: Tid)
    requires KR.Inv(s) && Enabled(Compiled(code), s, t) && Memory.Acts(s) && s.th[t].st.ctl.User?
    requires E.CallOf(code, s, t).MutexLock? || E.CallOf(code, s, t).MutexUnlock?
    ensures var c, call, r := s.th[t].st, E.CallOf(code, s, t), Step(Compiled(code), false, s, t);
            && r.sh == s.sh && r.ring == s.ring && r.pending == s.pending && r.g.q == s.g.q && t in r.th && r.th[t].dirty == s.th[t].dirty
            && (call.MutexLock? ==> r.th[t].st == c.(count := c.count + 1, ctl := Entering(call.m, call.next)) && r.g == s.g)
            && (call.MutexUnlock? ==>
                  r.th[t].st == if c.token && c.count == 1 then c.(count := 0, ctl := Handing(call.next)) else c.(count := c.count - 1, st := call.next))
  {
    E.StepOnly(code, s, t);
    Memory.QuietHides(Compiled(code), s, t);
  }
}
