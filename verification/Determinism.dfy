/** Whatever order the threads of a parallel phase run in, the memory at the next fence exit is the same, if no step is a
    race. */
module Determinism {
  import opened Pages
  import opened Runs
  import opened TwinCommit
  import opened Machine

  // ---------- one thread by itself in a parallel phase ----------

  /** A thread and what it sees of queues and locks. */
  datatype Solo<L, G> = Solo(x: Thread<L>, g: G)

  /** A thread's own step: it depends on the thread, on shared pages and versions, and on g, not on user counts. */
  ghost function LocalStep<L, G>(prog: Program<L, G>, sh: Shared, t: Tid, w: Solo<L, G>): Solo<L, G>
    requires WellFormed(sh)
  {
    var x := w.x;
    var a := prog(t, x.st, View(sh, x.dirty), w.g);
    if x.waiting || !InRange(sh, a) then w
    else if a.Access? then Solo(x.(st := a.next), a.g)
    else if !a.Store? then w.(x := x.(waiting := true, st := a.next))
    else if a.p !in x.dirty then w.(x := x.(dirty := Put(x.dirty, a.p, Snapshot(sh, a.p))))
    else var d := x.dirty[a.p]; w.(x := x.(dirty := Put(x.dirty, a.p, d.(page := d.page[a.off := a.byte])), st := a.next))
  }

  ghost predicate SameButUsers(a: Shared, b: Shared) {
    && WellFormed(a) && WellFormed(b)
    && a == b.(users := a.users)
  }

  lemma LocalStepSame<L, G>(prog: Program<L, G>, a: Shared, b: Shared, t: Tid, w: Solo<L, G>)
    requires SameButUsers(a, b)
    ensures LocalStep(prog, a, t, w) == LocalStep(prog, b, t, w)
  {
    assert View(a, w.x.dirty) == View(b, w.x.dirty);
  }

  // ---------- a parallel phase ----------

  /** A schedule whose steps are all taken in the parallel phase; the last one may end it. */
  ghost predicate InPhase<L(!new), G(!new)>(r: Rules<Sys<L, G>, Tid>, s: Sys<L, G>, sched: seq<Tid>)
    decreases |sched|
  {
    sched == [] || (s.pending == 0 && r.enabled(s, sched[0]) && InPhase(r, r.step(s, sched[0]), sched[1..]))
  }

  lemma {:induction false} InPhaseValid<L(!new), G(!new)>(r: Rules<Sys<L, G>, Tid>, s: Sys<L, G>, sched: seq<Tid>)
    requires InPhase(r, s, sched)
    ensures Valid(r, s, sched)
    decreases |sched|
  {
    if sched != [] { InPhaseValid(r, r.step(s, sched[0]), sched[1..]); }
  }

  /** A step of a parallel phase: thread t's own step, and the flip to the serial phase if it was the last. */
  ghost predicate ParallelStep<L, G>(prog: Program<L, G>, s: Sys<L, G>, t: Tid, q: Sys<L, G>) {
    && SameButUsers(q.sh, s.sh) && q.ring == s.ring && q.round == s.round
    && t in s.ring && t in s.th
    && (var w := LocalStep(prog, s.sh, t, Solo(s.th[t], s.g)); q.th == s.th[t := w.x] && q.g == w.g)
    && (q.pending != 0 ==> q.pending == |q.ring| && !q.began && AllWaiting(q))
  }

  ghost predicate StepsLocally<L(!new), G(!new)>(r: Rules<Sys<L, G>, Tid>, prog: Program<L, G>) {
    forall s: Sys<L, G>, t: Tid :: s.pending == 0 && r.enabled(s, t) ==> ParallelStep(prog, s, t, r.step(s, t))
  }

  /** The machine without certain steps. */
  ghost function Calm<L(!new), G(!new)>(prog: Program<L, G>, good: (Sys<L, G>, Tid) -> bool): Rules<Sys<L, G>, Tid> {
    Rules((s, t) => Enabled(prog, s, t) && good(s, t), (s, t) => Step(prog, false, s, t))
  }

  lemma SystemStepsLocally<L(!new), G(!new)>(prog: Program<L, G>, good: (Sys<L, G>, Tid) -> bool)
    ensures StepsLocally(Calm(prog, good), prog)
  {
    var r := Calm(prog, good);
    forall s: Sys<L, G>, t: Tid | s.pending == 0 && r.enabled(s, t) ensures ParallelStep(prog, s, t, r.step(s, t)) {
      StepIsLocal(prog, s, t);
    }
  }

  lemma StepIsLocal<L, G>(prog: Program<L, G>, s: Sys<L, G>, t: Tid)
    requires s.pending == 0 && Enabled(prog, s, t)
    ensures ParallelStep(prog, s, t, Step(prog, false, s, t))
  {
    var a, q := Next(prog, s, t), Step(prog, false, s, t);
    if !a.Store? && !a.Access? {
      assert q.th == s.th[t := s.th[t].(waiting := true, st := a.next)];
    } else {
      assert q.th == s.th[t := LocalStep(prog, s.sh, t, Solo(s.th[t], s.g)).x];
    }
  }

  /** A parallel phase changes no shared page, version, slot or ring. */
  lemma {:induction false} PhaseShares<L(!new), G(!new)>(r: Rules<Sys<L, G>, Tid>, prog: Program<L, G>, s: Sys<L, G>, sched: seq<Tid>)
    requires StepsLocally(r, prog) && InPhase(r, s, sched) && WellFormed(s.sh)
    ensures var e := Exec(r, s, sched);
            && SameButUsers(e.sh, s.sh) && e.ring == s.ring && e.round == s.round
            && (forall t :: t in e.th <==> t in s.th)
            && (s.pending == 0 && e.pending != 0 ==> e.pending == |e.ring| && !e.began && AllWaiting(e))
    decreases |sched|
  {
    if sched != [] {
      var t := sched[0];
      var q := r.step(s, t);
      assert ParallelStep(prog, s, t, q);
      PhaseShares(r, prog, q, sched[1..]);
    }
  }

  /** Threads outside the ring. */
  lemma {:induction false} PhaseOutside<L(!new), G(!new)>(r: Rules<Sys<L, G>, Tid>, prog: Program<L, G>, s: Sys<L, G>, sched: seq<Tid>, u: Tid)
    requires StepsLocally(r, prog) && InPhase(r, s, sched) && WellFormed(s.sh) && u in s.th && u !in s.ring
    ensures u in Exec(r, s, sched).th && Exec(r, s, sched).th[u] == s.th[u]
    decreases |sched|
  {
    if sched != [] {
      var t := sched[0];
      var q := r.step(s, t);
      assert ParallelStep(prog, s, t, q);
      PhaseOutside(r, prog, q, sched[1..], u);
    }
  }

  /** The user counts are determined by who has which pages dirty. */
  lemma SameUsers<L, G>(r: Sys<L, G>, q: Sys<L, G>)
    requires Inv(r) && Inv(q) && !r.sh.overrun && !q.sh.overrun
    requires SameButUsers(r.sh, q.sh) && Dirt(r) == Dirt(q)
    ensures r.sh == q.sh
  {
    forall p: nat | p < |r.sh.share| ensures r.sh.users[p] == q.sh.users[p] {
      assert PageInv(r.sh, Dirt(r), Holder(r), p) && PageInv(q.sh, Dirt(q), Holder(q), p);
    }
    assert r.sh.users == q.sh.users;
  }

  // ---------- what the threads see of it ----------

  ghost function Of<L, G>(s: Sys<L, G>, t: Tid): Solo<L, G>
    requires t in s.th
  {
    Solo(s.th[t], s.g)
  }

  /** How a phase looks to its threads: when two states are the same to a thread, what its next step is as far as it can
      tell, and whether it may take that step without a race. */
  datatype Lens<!L, !G> = Lens(same: (Tid, Solo<L, G>, Solo<L, G>) -> bool, next: (Tid, Solo<L, G>) -> Solo<L, G>, ok: (Tid, Solo<L, G>) -> bool)

  ghost predicate Equivalence<L(!new), G(!new)>(z: Lens<L, G>) {
    && (forall t: Tid, v: Solo<L, G> :: z.same(t, v, v))
    && (forall t: Tid, v: Solo<L, G>, w: Solo<L, G> :: z.same(t, v, w) ==> z.same(t, w, v))
    && (forall t: Tid, v: Solo<L, G>, w: Solo<L, G>, x: Solo<L, G> {:trigger Linked(z, t, v, w, x)} ::
          z.same(t, v, w) && z.same(t, w, x) ==> Linked(z, t, v, w, x))
  }

  /** The same by way of w. */
  ghost predicate Linked<L, G>(z: Lens<L, G>, t: Tid, v: Solo<L, G>, w: Solo<L, G>, x: Solo<L, G>) {
    z.same(t, v, x)
  }

  /** A thread knows whether it has come to the fence, and stays there. */
  ghost predicate Settles<L(!new), G(!new)>(z: Lens<L, G>) {
    && (forall t: Tid, v: Solo<L, G>, w: Solo<L, G> :: z.same(t, v, w) ==> v.x.waiting == w.x.waiting)
    && (forall t: Tid, w: Solo<L, G> :: w.x.waiting ==> z.next(t, w) == w)
  }

  /** A step of t, to which the state is the same as w: to itself nothing has happened yet, or what it expected; to the
      others nothing. */
  ghost predicate Seen<L, G>(prog: Program<L, G>, z: Lens<L, G>, fit: Sys<L, G> -> bool, s: Sys<L, G>, t: Tid, w: Solo<L, G>) {
    var q := Step(prog, false, s, t);
    && fit(q) && t in q.th && (z.same(t, Of(q, t), w) || z.same(t, Of(q, t), z.next(t, w)))
    && forall u :: u in s.ring && u != t && u in s.th ==> u in q.th && z.same(u, Of(q, u), Of(s, u))
  }

  ghost predicate Focuses<L(!new), G(!new)>(prog: Program<L, G>, z: Lens<L, G>, fit: Sys<L, G> -> bool) {
    forall s: Sys<L, G>, t: Tid, w: Solo<L, G> {:trigger Seen(prog, z, fit, s, t, w)} ::
      fit(s) && s.pending == 0 && Enabled(prog, s, t) && z.same(t, Of(s, t), w) && z.ok(t, w) ==> Seen(prog, z, fit, s, t, w)
  }

  /** Good steps are without a race, as the thread sees it. */
  ghost predicate Shows<L(!new), G(!new)>(prog: Program<L, G>, good: (Sys<L, G>, Tid) -> bool, z: Lens<L, G>, fit: Sys<L, G> -> bool) {
    forall s: Sys<L, G>, t: Tid, w: Solo<L, G> {:trigger good(s, t), z.ok(t, w)} ::
      fit(s) && s.pending == 0 && Enabled(prog, s, t) && good(s, t) && z.same(t, Of(s, t), w) ==> z.ok(t, w)
  }

  ghost predicate Clear<L(!new), G(!new)>(prog: Program<L, G>, good: (Sys<L, G>, Tid) -> bool, z: Lens<L, G>, fit: Sys<L, G> -> bool) {
    Equivalence(z) && Settles(z) && Focuses(prog, z, fit) && Shows(prog, good, z, fit)
  }

  /** Thread t after n steps by itself. */
  ghost function Along<L, G>(z: Lens<L, G>, t: Tid, w: Solo<L, G>, n: nat): Solo<L, G> {
    if n == 0 then w else z.next(t, Along(z, t, w, n - 1))
  }

  ghost predicate OkBelow<L, G>(z: Lens<L, G>, t: Tid, w: Solo<L, G>, n: nat) {
    forall i: nat {:trigger Along(z, t, w, i)} :: i < n ==> z.ok(t, Along(z, t, w, i))
  }

  lemma {:induction false} AlongStays<L(!new), G(!new)>(z: Lens<L, G>, t: Tid, w: Solo<L, G>, m: nat, n: nat)
    requires Settles(z) && m <= n && Along(z, t, w, m).x.waiting
    ensures Along(z, t, w, n) == Along(z, t, w, m)
    decreases n
  {
    if m < n { AlongStays(z, t, w, m, n - 1); }
  }

  /** A good step of t, seen by u on its way. */
  lemma CalmStep<L(!new), G(!new)>(prog: Program<L, G>, good: (Sys<L, G>, Tid) -> bool, z: Lens<L, G>, fit: Sys<L, G> -> bool,
                                   s: Sys<L, G>, t: Tid, u: Tid, w: Solo<L, G>, n: nat) returns (k: nat)
    requires Clear(prog, good, z, fit) && fit(s) && s.pending == 0 && Enabled(prog, s, t) && good(s, t)
    requires u in s.ring && u in s.th && z.same(u, Of(s, u), Along(z, u, w, n)) && OkBelow(z, u, w, n)
    ensures var q := Step(prog, false, s, t); fit(q) && u in q.th && z.same(u, Of(q, u), Along(z, u, w, k)) && OkBelow(z, u, w, k)
  {
    var q := Step(prog, false, s, t);
    k := n;
    if t == u {
      var v := Along(z, u, w, n);
      GoodSeen(prog, good, z, fit, s, t, v);
      if !z.same(t, Of(q, t), v) {
        k := n + 1;
        assert Along(z, u, w, k) == z.next(u, v);
      }
    } else {
      GoodSeen(prog, good, z, fit, s, t, Of(s, t));
      assert Linked(z, u, Of(q, u), Of(s, u), Along(z, u, w, n));
    }
  }

  lemma GoodSeen<L(!new), G(!new)>(prog: Program<L, G>, good: (Sys<L, G>, Tid) -> bool, z: Lens<L, G>, fit: Sys<L, G> -> bool,
                                   s: Sys<L, G>, t: Tid, v: Solo<L, G>)
    requires Clear(prog, good, z, fit) && fit(s) && s.pending == 0 && Enabled(prog, s, t) && good(s, t)
    requires z.same(t, Of(s, t), v)
    ensures z.ok(t, v) && Seen(prog, z, fit, s, t, v)
  {
    assert good(s, t) && z.ok(t, v);
  }

  /** Where a schedule of good steps leaves a thread: as far as it got by itself. */
  lemma {:induction false} CalmPath<L(!new), G(!new)>(prog: Program<L, G>, good: (Sys<L, G>, Tid) -> bool, z: Lens<L, G>, fit: Sys<L, G> -> bool,
                                                      s: Sys<L, G>, sched: seq<Tid>, u: Tid, w: Solo<L, G>, n: nat) returns (k: nat)
    requires Clear(prog, good, z, fit) && InPhase(Calm(prog, good), s, sched) && fit(s)
    requires u in s.ring && u in s.th && z.same(u, Of(s, u), Along(z, u, w, n)) && OkBelow(z, u, w, n)
    ensures var e := Exec(Calm(prog, good), s, sched); fit(e) && u in e.th && z.same(u, Of(e, u), Along(z, u, w, k)) && OkBelow(z, u, w, k)
    decreases |sched|
  {
    k := n;
    if sched != [] {
      var t := sched[0];
      var q := Step(prog, false, s, t);
      var m := CalmStep(prog, good, z, fit, s, t, u, w, n);
      StepIsLocal(prog, s, t);
      k := CalmPath(prog, good, z, fit, q, sched[1..], u, w, m);
    }
  }

  /** u is on its way from where it was in s. */
  ghost predicate OnWay<L, G>(z: Lens<L, G>, s: Sys<L, G>, q: Sys<L, G>, u: Tid) {
    u in s.th && u in q.th && exists m: nat {:trigger Along(z, u, Of(s, u), m)} :: z.same(u, Of(q, u), Along(z, u, Of(s, u), m))
  }

  /** From s the thread u comes to the fence without a race. */
  ghost predicate Comes<L, G>(z: Lens<L, G>, s: Sys<L, G>, u: Tid) {
    u in s.th && exists n: nat {:trigger Along(z, u, Of(s, u), n)} :: OkBelow(z, u, Of(s, u), n) && Along(z, u, Of(s, u), n).x.waiting
  }

  ghost function AnyStep<L, G>(): (Sys<L, G>, Tid) -> bool {
    (s, t) => true
  }

  /** Whoever comes to the fence without a race has none before. */
  lemma StillOk<L(!new), G(!new)>(z: Lens<L, G>, s: Sys<L, G>, q: Sys<L, G>, t: Tid) returns (m: nat)
    requires Equivalence(z) && Settles(z) && OnWay(z, s, q, t) && Comes(z, s, t) && !q.th[t].waiting
    ensures z.same(t, Of(q, t), Along(z, t, Of(s, t), m)) && z.ok(t, Along(z, t, Of(s, t), m))
  {
    var w := Of(s, t);
    m :| z.same(t, Of(q, t), Along(z, t, w, m));
    var n: nat :| OkBelow(z, t, w, n) && Along(z, t, w, n).x.waiting;
    if n <= m {
      AlongStays(z, t, w, n, m);
      assert false;
    }
    assert z.ok(t, Along(z, t, w, m));
  }

  /** Any step of t, when all threads of the ring have such a way. */
  lemma FreeStep<L(!new), G(!new)>(prog: Program<L, G>, good: (Sys<L, G>, Tid) -> bool, z: Lens<L, G>, fit: Sys<L, G> -> bool,
                                   s: Sys<L, G>, q: Sys<L, G>, t: Tid)
    requires Clear(prog, good, z, fit) && fit(q) && q.pending == 0 && Enabled(prog, q, t)
    requires forall u :: u in q.ring ==> OnWay(z, s, q, u) && Comes(z, s, u)
    ensures fit(Step(prog, false, q, t)) && forall u :: u in q.ring ==> OnWay(z, s, Step(prog, false, q, t), u)
  {
    var r := Step(prog, false, q, t);
    var m := StillOk(z, s, q, t);
    var w := Along(z, t, Of(s, t), m);
    assert Seen(prog, z, fit, q, t, w);
    forall u | u in q.ring ensures OnWay(z, s, r, u) {
      if u == t {
        assert Along(z, t, Of(s, t), m + 1) == z.next(t, w);
      } else {
        var i: nat :| z.same(u, Of(q, u), Along(z, u, Of(s, u), i));
        assert Linked(z, u, Of(r, u), Of(q, u), Along(z, u, Of(s, u), i));
      }
    }
  }

  lemma {:induction false} FreeWay<L(!new), G(!new)>(prog: Program<L, G>, good: (Sys<L, G>, Tid) -> bool, z: Lens<L, G>, fit: Sys<L, G> -> bool,
                                                     s: Sys<L, G>, q: Sys<L, G>, sched: seq<Tid>)
    requires Clear(prog, good, z, fit) && fit(q) && InPhase(Calm(prog, AnyStep()), q, sched)
    requires forall u :: u in q.ring ==> OnWay(z, s, q, u) && Comes(z, s, u)
    ensures var e := Exec(Calm(prog, AnyStep()), q, sched); fit(e) && forall u :: u in q.ring ==> OnWay(z, s, e, u)
    decreases |sched|
  {
    if sched != [] {
      var t := sched[0];
      FreeStep(prog, good, z, fit, s, q, t);
      StepIsLocal(prog, q, t);
      FreeWay(prog, good, z, fit, s, Step(prog, false, q, t), sched[1..]);
    }
  }

  /** Two ways of u to the fence end alike. */
  lemma SameEnd<L(!new), G(!new)>(z: Lens<L, G>, s: Sys<L, G>, u: Tid, x: Sys<L, G>, y: Sys<L, G>)
    requires Equivalence(z) && Settles(z) && OnWay(z, s, x, u) && OnWay(z, s, y, u) && x.th[u].waiting && y.th[u].waiting
    ensures z.same(u, Of(x, u), Of(y, u))
  {
    var w := Of(s, u);
    var m: nat :| z.same(u, Of(x, u), Along(z, u, w, m));
    var n: nat :| z.same(u, Of(y, u), Along(z, u, w, n));
    if m <= n { AlongStays(z, u, w, m, n); } else { AlongStays(z, u, w, n, m); }
    assert z.same(u, Along(z, u, w, n), Of(y, u));
    assert Linked(z, u, Of(x, u), Along(z, u, w, n), Of(y, u));
  }

  /** Two complete interleavings of one parallel phase, from states that are the same to all threads.  If in the first no
      step is a race, the second ends in a state that is the same to all threads, whatever its steps are. */
  lemma PhaseDeterminism<L(!new), G(!new)>(prog: Program<L, G>, good: (Sys<L, G>, Tid) -> bool, z: Lens<L, G>, fit: Sys<L, G> -> bool,
                                           s: Sys<L, G>, q: Sys<L, G>, a: seq<Tid>, b: seq<Tid>)
    requires Clear(prog, good, z, fit) && fit(s) && fit(q) && WellFormed(s.sh) && WellFormed(q.sh) && s.pending == q.pending == 0 && s.ring == q.ring
    requires InPhase(Calm(prog, good), s, a) && InPhase(Calm(prog, AnyStep()), q, b)
    requires Exec(Calm(prog, good), s, a).pending != 0 && Exec(Calm(prog, AnyStep()), q, b).pending != 0
    requires forall u :: u in s.ring ==> u in s.th && u in q.th && z.same(u, Of(q, u), Of(s, u))
    ensures var x, y := Exec(Calm(prog, good), s, a), Exec(Calm(prog, AnyStep()), q, b);
            fit(x) && fit(y) && forall u :: u in s.ring ==> u in x.th && u in y.th && z.same(u, Of(x, u), Of(y, u))
  {
    var x, y := Exec(Calm(prog, good), s, a), Exec(Calm(prog, AnyStep()), q, b);
    SystemStepsLocally(prog, good);
    SystemStepsLocally(prog, AnyStep<L, G>());
    PhaseShares(Calm(prog, good), prog, s, a);
    PhaseShares(Calm(prog, AnyStep()), prog, q, b);
    forall u | u in s.ring ensures OnWay(z, s, x, u) && Comes(z, s, u) && OnWay(z, s, q, u) && fit(x) {
      var w := Of(s, u);
      assert Along(z, u, w, 0) == w;
      var n := CalmPath(prog, good, z, fit, s, a, u, w, 0);
    }
    FreeWay(prog, good, z, fit, s, q, b);
    forall u | u in s.ring ensures u in x.th && u in y.th && z.same(u, Of(x, u), Of(y, u)) { SameEnd(z, s, u, x, y); }
    FitEnd(prog, good, z, fit, s, a);
  }

  lemma {:induction false} FitEnd<L(!new), G(!new)>(prog: Program<L, G>, good: (Sys<L, G>, Tid) -> bool, z: Lens<L, G>, fit: Sys<L, G> -> bool,
                                                    s: Sys<L, G>, sched: seq<Tid>)
    requires Clear(prog, good, z, fit) && InPhase(Calm(prog, good), s, sched) && fit(s)
    ensures fit(Exec(Calm(prog, good), s, sched))
    decreases |sched|
  {
    if sched != [] {
      var t := sched[0];
      GoodSeen(prog, good, z, fit, s, t, Of(s, t));
      FitEnd(prog, good, z, fit, Step(prog, false, s, t), sched[1..]);
    }
  }

  // ---------- whole runs ----------

  /** The schedule stops at the moment when serial phase number k is over. */
  ghost predicate Reaches<L(!new), G(!new)>(r: Rules<Sys<L, G>, Tid>, s: Sys<L, G>, sched: seq<Tid>, k: int)
    decreases |sched|
  {
    if sched == [] then s.round == k
    else s.round < k && r.enabled(s, sched[0]) && Reaches(r, r.step(s, sched[0]), sched[1..], k)
  }

  /** In the rules r the steps of a parallel phase do not end a round. */
  ghost predicate ParallelKeepsRound<L(!new), G(!new)>(r: Rules<Sys<L, G>, Tid>) {
    forall s: Sys<L, G>, t: Tid :: s.pending == 0 && r.enabled(s, t) ==> r.step(s, t).round == s.round
  }

  /** The part of a schedule up to the end of the parallel phase. */
  lemma {:induction false} SplitPhase<L(!new), G(!new)>(r: Rules<Sys<L, G>, Tid>, s: Sys<L, G>, sched: seq<Tid>, k: int) returns (i: nat)
    requires ParallelKeepsRound(r)
    requires s.pending == 0 && s.round < k && Reaches(r, s, sched, k)
    ensures 0 < i <= |sched| && InPhase(r, s, sched[..i])
    ensures var m := Exec(r, s, sched[..i]);
            m.pending != 0 && Reaches(r, m, sched[i..], k) && Exec(r, s, sched) == Exec(r, m, sched[i..])
    decreases |sched|
  {
    var t, rest := sched[0], sched[1..];
    var q := r.step(s, t);
    if q.pending != 0 {
      i := 1;
      assert sched[..1] == [sched[0]] && [sched[0]][1..] == [];
    } else {
      var j := SplitPhase(r, q, rest, k);
      i := j + 1;
      assert sched[..i][1..] == rest[..j] && sched[i..] == rest[j..];
    }
  }

  /** A serial phase leaves no choice: only one thread is enabled. */
  ghost predicate SerialIsForced<L(!new), G(!new)>(r: Rules<Sys<L, G>, Tid>) {
    forall s: Sys<L, G>, t: Tid, u: Tid :: s.pending != 0 && r.enabled(s, t) && r.enabled(s, u) ==> t == u
  }

  /** States that differ in nothing that matters between phases. */
  ghost predicate Frames<L, G>(s: Sys<L, G>, q: Sys<L, G>) {
    s.ring == q.ring && s.pending == q.pending && s.round == q.round && s.sh == q.sh
  }

  /** A step of a serial phase, taken in two states. */
  ghost predicate StepsAlike<L, G>(prog: Program<L, G>, alike: (Sys<L, G>, Sys<L, G>) -> bool, s: Sys<L, G>, q: Sys<L, G>, t: Tid) {
    Enabled(prog, q, t) && alike(Step(prog, false, s, t), Step(prog, false, q, t))
  }

  /** A parallel phase, run in two ways. */
  ghost predicate PhasesAlike<L(!new), G(!new)>(prog: Program<L, G>, good: (Sys<L, G>, Tid) -> bool, alike: (Sys<L, G>, Sys<L, G>) -> bool,
                                                s: Sys<L, G>, q: Sys<L, G>, a: seq<Tid>, b: seq<Tid>) {
    && InPhase(Calm(prog, good), s, a) && InPhase(Calm(prog, AnyStep()), q, b)
    && Exec(Calm(prog, good), s, a).pending != 0 && Exec(Calm(prog, AnyStep()), q, b).pending != 0
    ==> alike(Exec(Calm(prog, good), s, a), Exec(Calm(prog, AnyStep()), q, b))
  }

  /** What makes two runs agree: an invariant, what the start of a parallel phase is like, and when two states are alike. */
  datatype Terms<!L, !G> = Terms(inv: Sys<L, G> -> bool, starts: Sys<L, G> -> bool, alike: (Sys<L, G>, Sys<L, G>) -> bool)

  /** Alike states stay alike: in serial phases step by step, in parallel phases from beginning to end if the first
      run takes good steps. */
  ghost predicate Governs<L(!new), G(!new)>(prog: Program<L, G>, good: (Sys<L, G>, Tid) -> bool, w: Terms<L, G>) {
    && Preserves(Calm(prog, AnyStep()), w.inv)
    && (forall s: Sys<L, G> :: w.inv(s) ==> Inv(s) && WellFormed(s.sh))
    && (forall s: Sys<L, G>, q: Sys<L, G> :: w.alike(s, q) ==> Frames(s, q))
    && (forall s: Sys<L, G>, t: Tid {:trigger w.starts(Step(prog, false, s, t))} ::
          w.inv(s) && s.pending != 0 && Enabled(prog, s, t) && Step(prog, false, s, t).pending == 0 ==> w.starts(Step(prog, false, s, t)))
    && (forall s: Sys<L, G>, q: Sys<L, G>, t: Tid {:trigger StepsAlike(prog, w.alike, s, q, t)} ::
          w.inv(s) && w.inv(q) && w.alike(s, q) && s.pending != 0 && Enabled(prog, s, t) ==> StepsAlike(prog, w.alike, s, q, t))
    && (forall s: Sys<L, G>, q: Sys<L, G>, a: seq<Tid>, b: seq<Tid> {:trigger PhasesAlike(prog, good, w.alike, s, q, a, b)} ::
          w.inv(s) && w.inv(q) && w.alike(s, q) && s.pending == 0 && w.starts(s) && w.starts(q) ==> PhasesAlike(prog, good, w.alike, s, q, a, b))
  }

  lemma CalmSteps<L(!new), G(!new)>(prog: Program<L, G>, good: (Sys<L, G>, Tid) -> bool)
    ensures ParallelKeepsRound(Calm(prog, good)) && SerialIsForced(Calm(prog, good))
  {
    var r := Calm(prog, good);
    SystemStepsLocally(prog, good);
    forall q: Sys<L, G>, t: Tid | q.pending == 0 && r.enabled(q, t) ensures r.step(q, t).round == q.round {
      assert ParallelStep(prog, q, t, r.step(q, t));
    }
    forall q: Sys<L, G>, t: Tid, u: Tid | q.pending != 0 && r.enabled(q, t) && r.enabled(q, u) ensures t == u {
      assert Enabled(prog, q, t) && Enabled(prog, q, u);
    }
  }

  lemma CalmPreserves<L(!new), G(!new)>(prog: Program<L, G>, good: (Sys<L, G>, Tid) -> bool, inv: Sys<L, G> -> bool)
    requires Preserves(Calm(prog, AnyStep()), inv)
    ensures Preserves(Calm(prog, good), inv)
  {
    var r, any := Calm(prog, good), Calm(prog, AnyStep<L, G>());
    forall s: Sys<L, G>, t: Tid | inv(s) && r.enabled(s, t) ensures inv(r.step(s, t)) {
      assert any.enabled(s, t) && any.step(s, t) == r.step(s, t);
    }
  }

  /** All runs of the machine are runs without a restriction. */
  lemma {:induction false} AnyValid<L(!new), G(!new)>(prog: Program<L, G>, s: Sys<L, G>, sched: seq<Tid>)
    requires Valid(System(prog, false), s, sched)
    ensures Valid(Calm(prog, AnyStep()), s, sched) && Exec(Calm(prog, AnyStep()), s, sched) == Exec(System(prog, false), s, sched)
    decreases |sched|
  {
    if sched != [] { AnyValid(prog, Step(prog, false, s, sched[0]), sched[1..]); }
  }

  ghost predicate Ready<L, G>(w: Terms<L, G>, s: Sys<L, G>) {
    w.inv(s) && (s.pending == 0 ==> w.starts(s))
  }

  lemma SerialAgree<L(!new), G(!new)>(prog: Program<L, G>, good: (Sys<L, G>, Tid) -> bool, w: Terms<L, G>, s: Sys<L, G>, q: Sys<L, G>, t: Tid, u: Tid)
    requires Governs(prog, good, w) && Ready(w, s) && Ready(w, q) && w.alike(s, q) && s.pending != 0
    requires Enabled(prog, s, t) && Enabled(prog, q, u)
    ensures t == u
    ensures var x, y := Step(prog, false, s, t), Step(prog, false, q, t); w.alike(x, y) && Ready(w, x) && Ready(w, y)
  {
    var x, y, any := Step(prog, false, s, t), Step(prog, false, q, t), Calm(prog, AnyStep<L, G>());
    assert Frames(s, q);
    assert StepsAlike(prog, w.alike, s, q, t);
    assert any.enabled(s, t) && any.step(s, t) == x && any.enabled(q, t) && any.step(q, t) == y;
    assert x.pending == 0 ==> w.starts(Step(prog, false, s, t));
    assert y.pending == 0 ==> w.starts(Step(prog, false, q, t));
  }

  /** Determinism: of two runs from states that are alike, the first one of good steps, those parts that stop at the same
      fence exit end alike. */
  lemma {:induction false} RunsAgree<L(!new), G(!new)>(prog: Program<L, G>, good: (Sys<L, G>, Tid) -> bool, w: Terms<L, G>,
                                                       s: Sys<L, G>, q: Sys<L, G>, a: seq<Tid>, b: seq<Tid>, k: int)
    requires Governs(prog, good, w) && Ready(w, s) && Ready(w, q) && w.alike(s, q)
    requires Reaches(Calm(prog, good), s, a, k) && Reaches(Calm(prog, AnyStep()), q, b, k)
    ensures var x, y := Exec(Calm(prog, good), s, a), Exec(Calm(prog, AnyStep()), q, b); w.alike(x, y) && Ready(w, x) && Ready(w, y)
    decreases |a|
  {
    assert Frames(s, q);
    if s.round < k {
      if s.pending != 0 {
        SerialAgree(prog, good, w, s, q, a[0], b[0]);
        RunsAgree(prog, good, w, Step(prog, false, s, a[0]), Step(prog, false, q, a[0]), a[1..], b[1..], k);
      } else {
        var i, j := PhaseAgrees(prog, good, w, s, q, a, b, k);
        RunsAgree(prog, good, w, Exec(Calm(prog, good), s, a[..i]), Exec(Calm(prog, AnyStep()), q, b[..j]), a[i..], b[j..], k);
      }
    }
  }

  /** The parallel phases that two runs begin with. */
  lemma PhaseAgrees<L(!new), G(!new)>(prog: Program<L, G>, good: (Sys<L, G>, Tid) -> bool, w: Terms<L, G>,
                                      s: Sys<L, G>, q: Sys<L, G>, a: seq<Tid>, b: seq<Tid>, k: int) returns (i: nat, j: nat)
    requires Governs(prog, good, w) && Ready(w, s) && Ready(w, q) && w.alike(s, q) && s.pending == q.pending == 0 && s.round == q.round < k
    requires Reaches(Calm(prog, good), s, a, k) && Reaches(Calm(prog, AnyStep()), q, b, k)
    ensures 0 < i <= |a| && 0 < j <= |b|
    ensures var x, y := Exec(Calm(prog, good), s, a[..i]), Exec(Calm(prog, AnyStep()), q, b[..j]);
            && w.alike(x, y) && Ready(w, x) && Ready(w, y)
            && Reaches(Calm(prog, good), x, a[i..], k) && Reaches(Calm(prog, AnyStep()), y, b[j..], k)
            && Exec(Calm(prog, good), s, a) == Exec(Calm(prog, good), x, a[i..])
            && Exec(Calm(prog, AnyStep()), q, b) == Exec(Calm(prog, AnyStep()), y, b[j..])
  {
    GovernsInv(prog, good, w);
    i := PhasePrefix(prog, good, w.inv, s, a, k);
    j := PhasePrefix(prog, AnyStep<L, G>(), w.inv, q, b, k);
    PhasesEnd(prog, good, w, s, q, a[..i], b[..j]);
  }

  lemma GovernsInv<L(!new), G(!new)>(prog: Program<L, G>, good: (Sys<L, G>, Tid) -> bool, w: Terms<L, G>)
    requires Governs(prog, good, w)
    ensures Preserves(Calm(prog, good), w.inv) && Preserves(Calm(prog, AnyStep()), w.inv)
  {
    CalmPreserves(prog, good, w.inv);
  }

  lemma PhasesEnd<L(!new), G(!new)>(prog: Program<L, G>, good: (Sys<L, G>, Tid) -> bool, w: Terms<L, G>,
                                    s: Sys<L, G>, q: Sys<L, G>, a: seq<Tid>, b: seq<Tid>)
    requires Governs(prog, good, w) && Ready(w, s) && Ready(w, q) && w.alike(s, q) && s.pending == q.pending == 0
    requires InPhase(Calm(prog, good), s, a) && InPhase(Calm(prog, AnyStep()), q, b)
    requires Exec(Calm(prog, good), s, a).pending != 0 && Exec(Calm(prog, AnyStep()), q, b).pending != 0
    ensures w.alike(Exec(Calm(prog, good), s, a), Exec(Calm(prog, AnyStep()), q, b))
  {
    assert PhasesAlike(prog, good, w.alike, s, q, a, b);
  }

  /** The parallel phase that a run begins with. */
  lemma PhasePrefix<L(!new), G(!new)>(prog: Program<L, G>, good: (Sys<L, G>, Tid) -> bool, inv: Sys<L, G> -> bool, s: Sys<L, G>, sched: seq<Tid>, k: int)
    returns (i: nat)
    requires Preserves(Calm(prog, good), inv) && inv(s) && s.pending == 0 && s.round < k && Reaches(Calm(prog, good), s, sched, k)
    ensures 0 < i <= |sched| && InPhase(Calm(prog, good), s, sched[..i])
    ensures var m := Exec(Calm(prog, good), s, sched[..i]);
            m.pending != 0 && inv(m) && Reaches(Calm(prog, good), m, sched[i..], k)
            && Exec(Calm(prog, good), s, sched) == Exec(Calm(prog, good), m, sched[i..])
  {
    var r := Calm(prog, good);
    CalmSteps(prog, good);
    i := SplitPhase(r, s, sched, k);
    InPhaseValid(r, s, sched[..i]);
    RunPreserves(r, inv, s, sched[..i]);
  }

  /** What a step may do to the round, and that the shared state keeps its shape. */
  ghost predicate Counted<L, G>(s: Sys<L, G>, r: Sys<L, G>) {
    && WellFormed(r.sh) && s.round <= r.round
    && (s.pending != 0 && r.pending == 0 ==> s.round < r.round)
  }

  /** Rounds never go back, and a serial phase that is over has ended a round. */
  ghost predicate RoundsCount<L(!new), G(!new)>(r: Rules<Sys<L, G>, Tid>) {
    forall s: Sys<L, G>, t: Tid :: r.enabled(s, t) ==> Counted(s, r.step(s, t))
  }

  lemma {:induction false} RoundsGrow<L(!new), G(!new)>(r: Rules<Sys<L, G>, Tid>, s: Sys<L, G>, sched: seq<Tid>)
    requires RoundsCount(r) && Valid(r, s, sched) && WellFormed(s.sh)
    ensures Counted(s, Exec(r, s, sched))
    decreases |sched|
  {
    if sched != [] {
      var t := sched[0];
      var q := r.step(s, t);
      assert Counted(s, q);
      RoundsGrow(r, q, sched[1..]);
    }
  }

  lemma {:induction false} StillInPhase<L(!new), G(!new)>(r: Rules<Sys<L, G>, Tid>, s: Sys<L, G>, sched: seq<Tid>)
    requires RoundsCount(r) && Valid(r, s, sched) && WellFormed(s.sh)
    requires Exec(r, s, sched).pending == 0 && Exec(r, s, sched).round == s.round
    ensures s.pending == 0 && InPhase(r, s, sched)
    decreases |sched|
  {
    RoundsGrow(r, s, sched);
    if sched != [] {
      var t := sched[0];
      var q := r.step(s, t);
      assert Counted(s, q);
      RoundsGrow(r, q, sched[1..]);
      StillInPhase(r, q, sched[1..]);
    }
  }

  /** The part of a schedule up to the last fence exit. */
  lemma {:induction false} LastExit<L(!new), G(!new)>(r: Rules<Sys<L, G>, Tid>, s: Sys<L, G>, sched: seq<Tid>) returns (i: nat)
    requires RoundsCount(r) && Valid(r, s, sched) && WellFormed(s.sh) && Exec(r, s, sched).pending == 0
    ensures i <= |sched| && Reaches(r, s, sched[..i], Exec(r, s, sched).round)
    ensures var m := Exec(r, s, sched[..i]);
            WellFormed(m.sh) && InPhase(r, m, sched[i..]) && Exec(r, m, sched[i..]) == Exec(r, s, sched)
    decreases |sched|
  {
    RoundsGrow(r, s, sched);
    if Exec(r, s, sched).round == s.round {
      StillInPhase(r, s, sched);
      i := 0;
      assert sched[..0] == [] && sched[0..] == sched;
    } else {
      var t, rest := sched[0], sched[1..];
      var q := r.step(s, t);
      assert Counted(s, q);
      var j := LastExit(r, q, rest);
      i := j + 1;
      assert sched[..i][1..] == rest[..j] && sched[i..] == rest[j..];
    }
  }

  lemma SerialCounts<L, G>(s: Sys<L, G>, t: Tid, a: Action<L, G>)
    requires WellFormed(s.sh) && t in s.th && s.pending > 0 && |s.ring| > 0 && InRange(s.sh, a)
    ensures Counted(s, DoTurn(false, s, t, a))
  {
    if !a.Stuck? {
      var r := DoCommit(false, s, t, a.next);
      assert Counted(s, r);
    }
    if a.Store? { assert Counted(s, DoStore(s, t, a)); }
  }

  lemma StepCounts<L, G>(prog: Program<L, G>, s: Sys<L, G>, t: Tid)
    requires Enabled(prog, s, t)
    ensures Counted(s, Step(prog, false, s, t))
  {
    if s.pending != 0 && s.began { SerialCounts(s, t, Next(prog, s, t)); }
  }

  lemma SystemRoundsCount<L(!new), G(!new)>(prog: Program<L, G>, good: (Sys<L, G>, Tid) -> bool)
    ensures RoundsCount(Calm(prog, good))
  {
    var r := Calm(prog, good);
    forall s: Sys<L, G>, t: Tid | r.enabled(s, t) ensures Counted(s, r.step(s, t)) {
      StepCounts(prog, s, t);
    }
  }

  /** Between two serial phases the shared pages, their versions and the ring depend only on the program, on
      the state the run started from and on the number of serial phases so far. */
  lemma SharedMemoryAgrees<L(!new), G(!new)>(prog: Program<L, G>, good: (Sys<L, G>, Tid) -> bool, w: Terms<L, G>, s: Sys<L, G>, a: seq<Tid>, b: seq<Tid>)
    returns (m: Sys<L, G>, n: Sys<L, G>, x: seq<Tid>, y: seq<Tid>)
    requires Governs(prog, good, w) && Ready(w, s) && w.alike(s, s) && Valid(Calm(prog, good), s, a) && Valid(Calm(prog, AnyStep()), s, b)
    requires var x, y := Exec(Calm(prog, good), s, a), Exec(Calm(prog, AnyStep()), s, b);
             x.pending == 0 && y.pending == 0 && x.round == y.round
    ensures var x, y := Exec(Calm(prog, good), s, a), Exec(Calm(prog, AnyStep()), s, b);
            SameButUsers(x.sh, y.sh) && x.ring == y.ring
    ensures w.inv(m) && w.inv(n) && w.alike(m, n) && InPhase(Calm(prog, good), m, x) && InPhase(Calm(prog, AnyStep()), n, y)
    ensures Exec(Calm(prog, good), m, x) == Exec(Calm(prog, good), s, a) && Exec(Calm(prog, AnyStep()), n, y) == Exec(Calm(prog, AnyStep()), s, b)
  {
    var r, any := Calm(prog, good), Calm(prog, AnyStep<L, G>());
    SystemRoundsCount(prog, good);
    SystemRoundsCount(prog, AnyStep<L, G>());
    SystemStepsLocally(prog, good);
    SystemStepsLocally(prog, AnyStep<L, G>());
    var i := LastExit(r, s, a);
    var j := LastExit(any, s, b);
    RunsAgree(prog, good, w, s, s, a[..i], b[..j], Exec(r, s, a).round);
    m, n, x, y := Exec(r, s, a[..i]), Exec(any, s, b[..j]), a[i..], b[j..];
    assert Frames(m, n);
    PhaseShares(r, prog, m, x);
    PhaseShares(any, prog, n, y);
  }
}
