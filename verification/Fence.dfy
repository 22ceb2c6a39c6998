/** waitFence (determ.h): a cyclic barrier whose number of threads changes while threads are inside, with two
    ways to wait.  A step is a region under the global lock or one look at the phase flag of an unlocked spin. */
module Fence {
  import opened Counting
  import opened Runs

  type Tid = int

  /** Where a thread is in waitFence: waiting for the arrival phase (spinning or blocked), about to take the
      lock because its spin saw the arrival phase, arrived (spinning or blocked), or about to take the lock
      because its spin saw the fence open. */
  datatype Pc = Out | KnockSpin | KnockBlocked | SawArrival | InSpin | InBlocked | SawOpen

  /** `max`, `curr` and `arrival` are the shared counters and the phase flag.  The threads that count, the
      number of openings and each thread's arrivals and departures are what the counters are about. */
  datatype Fence = Fence(max: int, curr: int, arrival: bool, pc: map<Tid, Pc>, counted: set<Tid>,
                         gen: int, arrived: map<Tid, int>, left: map<Tid, int>)

  datatype Event =
    | Enter(t: Tid) | SpinSees(t: Tid) | ArriveAfterSpin(t: Tid) | ArriveUnblocked(t: Tid)
    | SpinSeesOpen(t: Tid) | LeaveAfterSpin(t: Tid) | LeaveUnblocked(t: Tid)
    | Incr(t: Tid) | Decr(t: Tid) | Start(children: set<Tid>)

  ghost function At(f: Fence, t: Tid): Pc {
    if t in f.pc then f.pc[t] else Out
  }

  ghost predicate Inside(p: Pc) {
    p == InSpin || p == InBlocked || p == SawOpen
  }

  ghost predicate Knocking(p: Pc) {
    p == KnockSpin || p == KnockBlocked || p == SawArrival
  }

  // ---------- the regions of waitFence ----------

  ghost function Move(f: Fence, t: Tid, p: Pc): Fence {
    f.(pc := f.pc[t := p])
  }

  /** One more arrival; the last one opens the fence and leaves at once. */
  ghost function Arrive(f: Fence, cores: int, t: Tid): Fence
    requires t in f.arrived && t in f.left
  {
    var g := f.(curr := f.curr + 1, arrived := f.arrived[t := f.arrived[t] + 1]);
    if g.curr >= g.max then Leave(g.(arrival := false, gen := f.gen + 1), t)
    else Move(g, t, if g.max <= cores then InSpin else InBlocked)
  }

  /** One departure; the last one starts the next arrival phase. */
  ghost function Leave(f: Fence, t: Tid): Fence
    requires t in f.left
  {
    var g := Move(f.(curr := f.curr - 1, left := f.left[t := f.left[t] + 1]), t, Out);
    if g.curr == 0 then g.(arrival := true) else g
  }

  ghost function IncrFence(f: Fence, t: Tid): Fence {
    f.(max := f.max + 1, counted := f.counted + {t}, arrived := f.arrived[t := f.gen], left := f.left[t := f.gen])
  }

  ghost function DecrFence(f: Fence, t: Tid): Fence {
    var g := f.(max := f.max - 1, counted := f.counted - {t});
    if g.curr >= g.max && g.arrival && g.max != 0 then g.(arrival := false, gen := f.gen + 1) else g
  }

  /** startFence, by the only thread that runs. */
  ghost function StartFence(f: Fence, children: set<Tid>): Fence {
    f.(max := f.max + |children|, arrival := true, counted := f.counted + children,
       arrived := map t | t in f.arrived.Keys + children :: if t in children then f.gen else f.arrived[t],
       left := map t | t in f.left.Keys + children :: if t in children then f.gen else f.left[t])
  }

  ghost predicate Enabled(f: Fence, e: Event) {
    match e
    case Enter(t) => t in f.counted && At(f, t) == Out
    case SpinSees(t) => At(f, t) == KnockSpin && f.arrival
    case ArriveAfterSpin(t) => At(f, t) == SawArrival
    case ArriveUnblocked(t) => At(f, t) == KnockBlocked && f.arrival
    case SpinSeesOpen(t) => At(f, t) == InSpin && !f.arrival
    case LeaveAfterSpin(t) => At(f, t) == SawOpen
    case LeaveUnblocked(t) => At(f, t) == InBlocked && !f.arrival
    case Incr(t) => t !in f.counted
    case Decr(t) => t in f.counted && At(f, t) == Out
    case Start(children) => f.curr == 0 && children !! f.counted
  }

  ghost function Step(f: Fence, cores: int, e: Event): Fence {
    if e.Start? then StartFence(f, e.children)
    else if e.Incr? then IncrFence(f, e.t)
    else if e.Decr? then DecrFence(f, e.t)
    else if e.t !in f.arrived || e.t !in f.left then f
    else match e
      case Enter(t) =>
        if f.arrival then Arrive(f, cores, t)
        else Move(f, t, if f.max <= cores then KnockSpin else KnockBlocked)
      case SpinSees(t) => Move(f, t, SawArrival)
      case ArriveAfterSpin(t) => Arrive(f, cores, t)
      case ArriveUnblocked(t) => Arrive(f, cores, t)
      case SpinSeesOpen(t) => Move(f, t, SawOpen)
      case LeaveAfterSpin(t) => Leave(f, t)
      case LeaveUnblocked(t) => Leave(f, t)
      case _ => f
  }

  /** A thread that has to wait spins if all threads have a core, and blocks otherwise. */
  lemma WaysToWait(f: Fence, cores: int, e: Event)
    requires Enabled(f, e) && (e.Enter? || e.ArriveAfterSpin? || e.ArriveUnblocked?) && e.t in f.arrived && e.t in f.left
    ensures var p := At(Step(f, cores, e), e.t);
            && (f.max <= cores ==> p == KnockSpin || p == InSpin || p == Out)
            && (f.max > cores ==> p == KnockBlocked || p == InBlocked || p == Out)
            && (p == Out <==> f.curr + 1 >= f.max && (f.arrival || !e.Enter?))
  {
  }

  // ---------- the invariant ----------

  ghost function Insiders(f: Fence): set<Tid> {
    set t | t in f.counted && Inside(At(f, t))
  }

  /** A thread outside is level with the openings; an arrived one is an arrival ahead before the fence opens,
      and a departure behind afterwards. */
  ghost predicate InStep(f: Fence, t: Tid) {
    && t in f.arrived && t in f.left
    && (!Inside(At(f, t)) ==> f.arrived[t] == f.gen && f.left[t] == f.gen)
    && (Inside(At(f, t)) && f.arrival ==> f.arrived[t] == f.gen + 1 && f.left[t] == f.gen)
    && (Inside(At(f, t)) && !f.arrival ==> f.arrived[t] == f.gen && f.left[t] == f.gen - 1)
  }

  ghost predicate Inv(f: Fence) {
    && f.max == |f.counted| && f.curr == |Insiders(f)|
    && (forall t :: t !in f.counted ==> At(f, t) == Out)
    && (forall t :: t in f.counted ==> InStep(f, t))
    && (f.arrival ==> (Insiders(f) != f.counted || f.counted == {}) && forall t :: At(f, t) != SawOpen)
    && (!f.arrival ==> Insiders(f) != {} && forall t :: At(f, t) != SawArrival)
  }

  // ---------- the abstract barrier ----------

  /** A cyclic barrier on sets: members may come and go outside it; it opens when all members are inside, and
      closes when the last of them has left. */
  datatype Barrier = Barrier(members: set<Tid>, inside: set<Tid>, open: bool, gen: int)

  ghost function Abs(f: Fence): Barrier {
    Barrier(f.counted, Insiders(f), !f.arrival, f.gen)
  }

  ghost function OpenIfFull(b: Barrier): Barrier {
    if !b.open && b.inside == b.members && b.members != {} then b.(open := true, gen := b.gen + 1) else b
  }

  ghost function BArrive(b: Barrier, t: Tid): Barrier
    requires !b.open && t in b.members && t !in b.inside
  {
    OpenIfFull(b.(inside := b.inside + {t}))
  }

  ghost function BLeave(b: Barrier, t: Tid): Barrier
    requires b.open && t in b.inside
  {
    var i := b.inside - {t};
    b.(inside := i, open := i != {})
  }

  ghost function BJoin(b: Barrier, t: Tid): Barrier
    requires t !in b.members
  {
    b.(members := b.members + {t})
  }

  ghost function BQuit(b: Barrier, t: Tid): Barrier
    requires t in b.members && t !in b.inside
  {
    OpenIfFull(b.(members := b.members - {t}))
  }

  // ---------- every region refines the barrier and keeps the invariant ----------

  lemma MoveCorrect(f: Fence, t: Tid, p: Pc)
    requires Inv(f) && t in f.counted && Inside(p) == Inside(At(f, t))
    requires p == SawOpen ==> !f.arrival
    requires p == SawArrival ==> f.arrival
    ensures Inv(Move(f, t, p)) && Abs(Move(f, t, p)) == Abs(f)
  {
    assert Insiders(Move(f, t, p)) == Insiders(f);
  }

  lemma EarlyInsiders(f: Fence, cores: int, t: Tid)
    requires t in f.counted && t in f.arrived && t in f.left && !Inside(At(f, t)) && f.curr + 1 < f.max
    requires f.max == |f.counted| && f.curr == |Insiders(f)|
    ensures var g := Arrive(f, cores, t);
            Insiders(g) == Insiders(f) + {t} && |Insiders(g)| == g.curr && Insiders(g) != f.counted && f.counted != {}
  {
    assert Insiders(Arrive(f, cores, t)) == Insiders(f) + {t};
  }

  lemma EarlyArrival(f: Fence, cores: int, t: Tid)
    requires Inv(f) && t in f.counted && !Inside(At(f, t)) && f.arrival && f.curr + 1 < f.max
    ensures var g := Arrive(f, cores, t);
            && Inv(g) && Insiders(g) == Insiders(f) + {t} && Insiders(g) != f.counted
            && g.counted == f.counted && g.arrival && g.gen == f.gen && Inside(At(g, t))
  {
    EarlyInsiders(f, cores, t);
    var g := Arrive(f, cores, t);
    forall u | u in g.counted ensures InStep(g, u) { assert InStep(f, u); }
  }

  /** Arriving under the lock.  Needs the arrival phase: the spin that saw it cannot have missed a flip. */
  lemma ArriveCorrect(f: Fence, cores: int, t: Tid)
    requires Inv(f) && t in f.counted && !Inside(At(f, t)) && f.arrival
    ensures Inv(Arrive(f, cores, t))
    ensures var b := BArrive(Abs(f), t); Abs(Arrive(f, cores, t)) == if b.open then BLeave(b, t) else b
    ensures At(Arrive(f, cores, t), t) == Out <==> BArrive(Abs(f), t).open
  {
    if f.curr + 1 >= f.max {
      AllArrived(f, t);
      LastArrival(f, cores, t);
    } else {
      EarlyArrival(f, cores, t);
    }
  }

  lemma AllArrived(f: Fence, t: Tid)
    requires Inv(f) && t in f.counted && !Inside(At(f, t)) && f.curr + 1 >= f.max
    ensures Insiders(f) + {t} == f.counted && Insiders(f) == f.counted - {t}
  {
    SubsetSize(Insiders(f) + {t}, f.counted);
  }

  lemma LastArrival(f: Fence, cores: int, t: Tid)
    requires Inv(f) && t in f.counted && !Inside(At(f, t)) && f.arrival && f.curr + 1 >= f.max
    requires Insiders(f) + {t} == f.counted
    ensures Inv(Arrive(f, cores, t)) && At(Arrive(f, cores, t), t) == Out
    ensures Insiders(Arrive(f, cores, t)) == Insiders(f)
    ensures Arrive(f, cores, t).gen == f.gen + 1 && Arrive(f, cores, t).counted == f.counted
    ensures Arrive(f, cores, t).arrival <==> Insiders(f) == {}
  {
    var g := Arrive(f, cores, t);
    assert Insiders(g) == Insiders(f);
    forall u | u in g.counted ensures InStep(g, u) {
      assert InStep(f, u);
      assert u != t ==> u in Insiders(f);
    }
    assert forall u :: At(g, u) == SawOpen || At(g, u) == SawArrival ==> u in f.counted && u != t;
  }

  lemma LeaveCorrect(f: Fence, t: Tid)
    requires Inv(f) && t in f.counted && Inside(At(f, t)) && !f.arrival
    ensures Inv(Leave(f, t)) && Abs(Leave(f, t)) == BLeave(Abs(f), t)
  {
    var g := Leave(f, t);
    assert Insiders(g) == Insiders(f) - {t};
    forall u | u in g.counted ensures InStep(g, u) {
      assert InStep(f, u);
      if g.arrival { assert u !in Insiders(g); }
    }
    assert forall u :: At(g, u) == SawOpen ==> u in Insiders(g);
  }

  lemma IncrCorrect(f: Fence, t: Tid)
    requires Inv(f) && t !in f.counted
    ensures Inv(IncrFence(f, t)) && Abs(IncrFence(f, t)) == BJoin(Abs(f), t)
  {
    assert Insiders(IncrFence(f, t)) == Insiders(f);
  }

  lemma DecrCorrect(f: Fence, t: Tid)
    requires Inv(f) && t in f.counted && At(f, t) == Out
    ensures Inv(DecrFence(f, t)) && Abs(DecrFence(f, t)) == BQuit(Abs(f), t)
  {
    var rest := f.counted - {t};
    assert Insiders(f) <= rest;
    SubsetSize(Insiders(f), rest);
    assert Insiders(DecrFence(f, t)) == Insiders(f);
  }

  /** When a thread quits, the arrival phase ends exactly if somebody remains and all who do are inside. */
  lemma DecrOpens(f: Fence, t: Tid)
    requires Inv(f) && t in f.counted && At(f, t) == Out
    ensures DecrFence(f, t).arrival <==> f.arrival && !(f.counted != {t} && Insiders(f) == f.counted - {t})
    ensures DecrFence(f, t).max == |f.counted - {t}| && DecrFence(f, t).curr == |Insiders(f)|
  {
    var rest := f.counted - {t};
    assert Insiders(f) <= rest;
    SubsetSize(Insiders(f), rest);
    if rest == {} { assert f.counted == {t}; }
  }

  lemma StartInStep(f: Fence, children: set<Tid>, t: Tid)
    requires Inv(f) && f.curr == 0 && children !! f.counted && t in f.counted + children
    ensures InStep(StartFence(f, children), t) && !Inside(At(f, t))
  {
    assert Insiders(f) == {};
    if t in f.counted {
      assert InStep(f, t) && t !in Insiders(f);
    }
  }

  lemma StartInsiders(f: Fence, children: set<Tid>)
    requires Inv(f) && f.curr == 0 && children !! f.counted
    ensures Insiders(f) == {} && Insiders(StartFence(f, children)) == {}
  {
    forall t | t in Insiders(StartFence(f, children)) ensures false {
      StartInStep(f, children, t);
    }
  }

  lemma NobodyInside(g: Fence)
    requires g.max == |g.counted| && g.curr == 0 && g.arrival && Insiders(g) == {}
    requires forall t :: At(g, t) != SawOpen && (t !in g.counted ==> At(g, t) == Out)
    requires forall t :: t in g.counted ==> InStep(g, t)
    ensures Inv(g)
  {
  }

  lemma StartCorrect(f: Fence, children: set<Tid>)
    requires Inv(f) && f.curr == 0 && children !! f.counted
    ensures Inv(StartFence(f, children))
    ensures Abs(StartFence(f, children)) == Abs(f).(members := f.counted + children)
  {
    StartInsiders(f, children);
    StartCounts(f.counted, children);
    StartThreads(f, children);
    NobodyInside(StartFence(f, children));
  }

  lemma StartCounts(counted: set<Tid>, children: set<Tid>)
    requires children !! counted
    ensures |counted + children| == |counted| + |children|
  {
  }

  lemma StartThreads(f: Fence, children: set<Tid>)
    requires Inv(f) && f.curr == 0 && children !! f.counted
    ensures var g := StartFence(f, children);
            && (forall t :: t in g.counted ==> InStep(g, t))
            && (forall t :: At(g, t) != SawOpen && (t !in g.counted ==> At(g, t) == Out))
  {
    var g := StartFence(f, children);
    forall t | t in g.counted ensures InStep(g, t) {
      StartInStep(f, children, t);
    }
    forall t ensures At(g, t) != SawOpen && (t !in g.counted ==> At(g, t) == Out) {
      assert At(g, t) == At(f, t);
      if t in f.counted { StartInStep(f, children, t); }
    }
  }

  // ---------- runs ----------

  ghost function System(cores: int): Rules<Fence, Event> {
    Rules((f, e) => Enabled(f, e), (f, e) => Step(f, cores, e))
  }

  /** The steps of the abstract barrier that one region amounts to. */
  ghost predicate Refines(b: Barrier, e: Event, c: Barrier) {
    || c == b
    || (e.Start? && c == b.(members := b.members + e.children))
    || (e.Incr? && e.t !in b.members && c == BJoin(b, e.t))
    || (e.Decr? && e.t in b.members && e.t !in b.inside && c == BQuit(b, e.t))
    || (!e.Start? && b.open && e.t in b.inside && c == BLeave(b, e.t))
    || (!e.Start? && !b.open && e.t in b.members && e.t !in b.inside
        && var d := BArrive(b, e.t); c == if d.open then BLeave(d, e.t) else d)
  }

  lemma StepCorrect(f: Fence, cores: int, e: Event)
    requires Inv(f) && Enabled(f, e)
    ensures Inv(Step(f, cores, e)) && Refines(Abs(f), e, Abs(Step(f, cores, e)))
  {
    match e
    case Start(children) => StartCorrect(f, children);
    case Incr(t) => IncrCorrect(f, t);
    case Decr(t) => DecrCorrect(f, t);
    case Enter(t) =>
      if f.arrival { ArriveCorrect(f, cores, t); } else { MoveCorrect(f, t, if f.max <= cores then KnockSpin else KnockBlocked); }
    case SpinSees(t) => MoveCorrect(f, t, SawArrival);
    case ArriveAfterSpin(t) => ArriveCorrect(f, cores, t);
    case ArriveUnblocked(t) => ArriveCorrect(f, cores, t);
    case SpinSeesOpen(t) => MoveCorrect(f, t, SawOpen);
    case LeaveAfterSpin(t) => LeaveCorrect(f, t);
    case LeaveUnblocked(t) => LeaveCorrect(f, t);
  }

  // ---------- what the fence promises ----------

  /** No thread has left a round that some counted thread has not arrived in, and none is a round ahead. */
  lemma RoundSafety(f: Fence, t: Tid, u: Tid)
    requires Inv(f) && t in f.counted && u in f.counted
    ensures f.left[t] <= f.arrived[u] <= f.left[t] + 1
  {
    assert InStep(f, t) && InStep(f, u);
    if Inside(At(f, u)) && !f.arrival { assert u in Insiders(f); }
  }

  /** A member of the barrier holds up the phase that it waits for. */
  lemma MemberHolds(b: Barrier, e: Event, c: Barrier, t: Tid)
    requires Refines(b, e, c) && t in b.members && !e.Start? && e.t != t
    ensures t !in b.inside && !b.open ==> !c.open && c.gen == b.gen
    ensures t in b.inside && b.open ==> c.open
  {
    assert t in b.inside ==> t in b.inside - {e.t};
  }

  /** Nor can a spin miss a phase: until the waiting thread itself moves on, nobody ends the phase it waits for. */
  lemma NoMissedPhase(f: Fence, cores: int, e: Event, t: Tid)
    requires Inv(f) && Enabled(f, e) && t in f.counted && !e.Start? && e.t != t
    ensures !Inside(At(f, t)) && f.arrival ==> Step(f, cores, e).arrival && Step(f, cores, e).gen == f.gen
    ensures Inside(At(f, t)) && !f.arrival ==> !Step(f, cores, e).arrival
  {
    StepCorrect(f, cores, e);
    MemberHolds(Abs(f), e, Abs(Step(f, cores, e)), t);
    assert t in Insiders(f) <==> Inside(At(f, t));
  }

  /** What one region of waitFence does to thread e.t and to the phase. */
  datatype Outcome = Stays | Arrives | Opens | Leaves

  ghost predicate Results(f: Fence, g: Fence, t: Tid, o: Outcome) {
    && g.counted == f.counted && (forall u :: u != t ==> At(g, u) == At(f, u))
    && match o
       case Stays => g.arrival == f.arrival && g.gen == f.gen && Inside(At(g, t)) == Inside(At(f, t)) && At(g, t) != Out
       case Arrives => f.arrival && g.arrival && g.gen == f.gen && !Inside(At(f, t)) && Inside(At(g, t))
       case Opens => f.arrival && g.gen == f.gen + 1 && !Inside(At(f, t)) && At(g, t) == Out
                     && (forall u :: u in f.counted && u != t ==> Inside(At(f, u)))
                     && (g.arrival <==> f.counted == {t})
       case Leaves => !f.arrival && g.gen == f.gen && Inside(At(f, t)) && At(g, t) == Out
                      && (g.arrival <==> forall u :: u in f.counted && u != t ==> !Inside(At(f, u)))
  }

  lemma ArriveResult(f: Fence, cores: int, t: Tid) returns (o: Outcome)
    requires Inv(f) && t in f.counted && !Inside(At(f, t)) && f.arrival
    ensures Results(f, Arrive(f, cores, t), t, o) && (o == Opens || o == Arrives)
  {
    if f.curr + 1 >= f.max {
      AllArrived(f, t);
      LastArrival(f, cores, t);
      forall u | u in f.counted && u != t ensures Inside(At(f, u)) { assert u in Insiders(f); }
      assert Insiders(f) == {} <==> f.counted == {t};
      o := Opens;
    } else {
      EarlyArrival(f, cores, t);
      o := Arrives;
    }
  }

  lemma StepResult(f: Fence, cores: int, e: Event) returns (o: Outcome)
    requires Inv(f) && Enabled(f, e) && !e.Incr? && !e.Decr? && !e.Start?
    ensures Results(f, Step(f, cores, e), e.t, o)
  {
    var g, t := Step(f, cores, e), e.t;
    match e
    case Enter(_) => if f.arrival { o := ArriveResult(f, cores, t); } else { o := Stays; }
    case ArriveAfterSpin(_) => o := ArriveResult(f, cores, t);
    case ArriveUnblocked(_) => o := ArriveResult(f, cores, t);
    case LeaveAfterSpin(_) => LeaveResult(f, t); o := Leaves;
    case LeaveUnblocked(_) => LeaveResult(f, t); o := Leaves;
    case _ => o := Stays;
  }

  /** A thread that does not get further in is knocking, or inside all along. */
  lemma StaysWhere(f: Fence, cores: int, e: Event)
    requires Inv(f) && Enabled(f, e) && !e.Incr? && !e.Decr? && !e.Start?
    requires Results(f, Step(f, cores, e), e.t, Stays)
    ensures Inside(At(f, e.t)) || Knocking(At(Step(f, cores, e), e.t))
    ensures Knocking(At(f, e.t)) || e.Enter? || Inside(At(f, e.t))
  {
  }

  lemma LeaveResult(f: Fence, t: Tid)
    requires Inv(f) && t in f.counted && Inside(At(f, t)) && !f.arrival
    ensures Results(f, Leave(f, t), t, Leaves)
  {
    LeaveCorrect(f, t);
    var g := Leave(f, t);
    assert g.arrival <==> Insiders(f) - {t} == {};
    assert forall u :: u in f.counted ==> (u in Insiders(f) <==> Inside(At(f, u)));
    if !g.arrival {
      var u :| u in Insiders(f) - {t};
      assert u in f.counted && u != t && Inside(At(f, u));
    }
  }

  lemma RunKeepsInv(cores: int, f: Fence, run: seq<Event>)
    requires Inv(f) && Valid(System(cores), f, run)
    ensures Inv(Exec(System(cores), f, run))
  {
    var r := System(cores);
    forall g, e | Inv(g) && r.enabled(g, e) ensures Inv(r.step(g, e)) {
      StepCorrect(g, cores, e);
    }
    RunPreserves(r, g => Inv(g), f, run);
  }
}
