/** How threads drive the fence and the token (xrun.h, determ.h): a synchronisation waits on the fence, takes
    the token, commits, passes the token and waits on the same fence again.  Parallel and serial phases are
    nothing the code has; they are what follows from the fence's counters. */
module Phases {
  import opened Counting
  import F = Fence
  import opened Runs

  type Tid = int

  /** Running user code; in the fence before the serial phase; past it and waiting for the token; holding the
      token; past putToken; in the fence after the serial phase; asleep in a condition or barrier queue. */
  datatype Stage = User | ToSerial | AwaitToken | Holding | Passed | ToParallel | Asleep

  /** The active list from the token on, and each thread's stage.  How many threads have the token still to
      come, and whether the last opening began a serial phase, are history. */
  datatype State = State(f: F.Fence, stage: map<Tid, Stage>, ring: seq<Tid>, pending: nat, serial: bool)

  datatype Event =
    | Sync(t: Tid)                    // waitToken or waitFence calls waitFence
    | InFence(e: F.Event)             // a later region of waitFence
    | GetToken(t: Tid)
    | PutToken(t: Tid)
    | Sleep(t: Tid)                   // cond_wait, or barrier_wait but for the last thread
    | Wake(t: Tid, who: seq<Tid>)     // cond_signal, cond_broadcast
    | Gather(t: Tid, who: seq<Tid>)   // barrier_wait by the last thread of a full barrier

  ghost function StageOf(s: State, t: Tid): Stage {
    if t in s.stage then s.stage[t] else Asleep
  }

  ghost predicate FenceMove(e: F.Event) {
    !e.Enter? && !e.Incr? && !e.Decr? && !e.Start?
  }

  ghost predicate Sleepers(s: State, who: seq<Tid>) {
    Distinct(who) && forall u :: u in who ==> StageOf(s, u) == Asleep && u in s.stage
  }

  ghost predicate Enabled(s: State, e: Event) {
    match e
    case Sync(t) => StageOf(s, t) == User || StageOf(s, t) == Passed
    case InFence(g) => FenceMove(g) && g.t in s.ring && F.Enabled(s.f, g)
    case GetToken(t) => StageOf(s, t) == AwaitToken && s.ring != [] && s.ring[0] == t
    case PutToken(t) => StageOf(s, t) == Holding && s.ring != []
    case Sleep(t) => StageOf(s, t) == Holding && s.ring != []
    case Wake(t, who) => StageOf(s, t) == Holding && s.ring != [] && Sleepers(s, who)
    case Gather(t, who) => StageOf(s, t) == Holding && s.ring == [t] && Sleepers(s, who)
  }

  // ---------- steps ----------

  ghost function Before(st: Stage): Stage {
    if st == User then ToSerial else if st == Passed then ToParallel else st
  }

  ghost function After(st: Stage): Stage {
    if st == ToSerial then AwaitToken else if st == ToParallel then User else st
  }

  /** Thread t has gone from fence state s.f to g: out of the fence it is one stage further, and an opening
      turns the phase. */
  ghost function WithFence(s: State, g: F.Fence, t: Tid, st: Stage): State {
    var flips := g.gen != s.f.gen;
    s.(f := g,
       stage := s.stage[t := if F.At(g, t) == F.Out then After(st) else st],
       serial := if flips then !s.serial else s.serial,
       pending := if flips && !s.serial then |s.ring| else s.pending)
  }

  ghost function IncrAll(f: F.Fence, who: seq<Tid>): F.Fence
    decreases |who|
  {
    if who == [] then f else IncrAll(F.IncrFence(f, who[0]), who[1..])
  }

  ghost function StageAll(stage: map<Tid, Stage>, who: seq<Tid>, st: Stage): (r: map<Tid, Stage>)
    ensures forall u :: u in r <==> u in stage || u in who
    ensures forall u :: u in r ==> r[u] == if u in who then st else stage[u]
  {
    stage + map u | u in who :: st
  }

  ghost function Step(s: State, cores: int, e: Event): State {
    if !Enabled(s, e) then s else
    match e
    case Sync(t) => WithFence(s, F.Step(s.f, cores, F.Enter(t)), t, Before(StageOf(s, t)))
    case InFence(g) => WithFence(s, F.Step(s.f, cores, g), g.t, StageOf(s, g.t))
    case GetToken(t) => s.(stage := s.stage[t := Holding])
    case PutToken(t) => s.(stage := s.stage[t := Passed], ring := s.ring[1..] + [t], pending := if s.pending > 0 then s.pending - 1 else 0)
    case Sleep(t) =>
      var g := F.DecrFence(s.f, t);
      s.(f := g, stage := s.stage[t := Asleep], ring := s.ring[1..],
         pending := if s.pending > 0 then s.pending - 1 else 0,
         serial := if g.gen != s.f.gen then !s.serial else s.serial)
    case Wake(t, who) =>
      s.(f := IncrAll(s.f, who), stage := StageAll(s.stage, who, AwaitToken),
         ring := [t] + who + s.ring[1..], pending := s.pending + |who|)
    case Gather(t, who) =>
      s.(f := IncrAll(s.f, who), stage := StageAll(s.stage, [t] + who, User), ring := who + [t], pending := 0, serial := false)
  }

  // ---------- the invariant ----------

  ghost predicate Waiting(st: Stage) {
    st == AwaitToken || st == Holding || st == Passed
  }

  /** A thread's stage fits the phase and its place in the fence. */
  ghost predicate Fits(s: State, t: Tid) {
    var p, st := F.At(s.f, t), StageOf(s, t);
    if !s.serial then
      && (p == F.Out ==> st == User)
      && (F.Knocking(p) ==> st == ToSerial)
      && (F.Inside(p) ==> st == if s.f.arrival then ToSerial else ToParallel)
    else
      && (p == F.Out ==> Waiting(st))
      && (F.Knocking(p) ==> st == ToParallel)
      && (F.Inside(p) ==> st == if s.f.arrival then ToParallel else ToSerial)
  }

  /** In a serial phase the threads with a turn to come are at the front of the ring, and only its first
      thread holds the token. */
  ghost predicate Turns(s: State, i: nat)
    requires i < |s.ring|
  {
    var st := StageOf(s, s.ring[i]);
    && (s.serial && i < s.pending ==> st == ToSerial || st == AwaitToken || (st == Holding && i == 0))
    && (s.serial && i >= s.pending ==> st == Passed || st == ToParallel)
  }

  ghost predicate Inv(s: State) {
    && F.Inv(s.f) && Distinct(s.ring) && s.f.counted == Elements(s.ring)
    && s.pending <= |s.ring| && (!s.serial ==> s.pending == 0)
    && (forall t :: t in s.ring ==> t in s.stage && Fits(s, t))
    && (forall t :: t in s.stage && t !in s.ring ==> s.stage[t] == Asleep)
    && (forall i :: 0 <= i < |s.ring| ==> Turns(s, i))
  }

  // ---------- what it says ----------

  /** While one thread holds the token, and so may commit, no other thread runs user code. */
  lemma PhaseSeparation(s: State, t: Tid, u: Tid)
    requires Inv(s) && StageOf(s, t) == Holding
    ensures StageOf(s, u) != User && (u != t ==> StageOf(s, u) != Holding)
    ensures s.serial && s.pending > 0 && s.ring[0] == t
  {
    assert t in s.ring && Fits(s, t);
    if u in s.ring {
      assert Fits(s, u);
      var i :| 0 <= i < |s.ring| && s.ring[i] == u;
      assert Turns(s, i);
    }
    var j :| 0 <= j < |s.ring| && s.ring[j] == t;
    assert Turns(s, j);
  }

  /** The two fences of a synchronisation stay in step: nobody is inside one while somebody is inside the other. */
  lemma FencesInStep(s: State, t: Tid, u: Tid)
    requires Inv(s) && t in s.ring && u in s.ring && F.Inside(F.At(s.f, t)) && F.Inside(F.At(s.f, u))
    ensures StageOf(s, t) == StageOf(s, u)
    ensures StageOf(s, t) == ToSerial || StageOf(s, t) == ToParallel
  {
    assert Fits(s, t) && Fits(s, u);
  }

  // ---------- every step keeps it ----------

  /** A thread on its way through the fence, as it stands before one of the fence's regions. */
  ghost predicate Crossing(s: State, t: Tid, st: Stage) {
    && t in s.ring && t in s.stage
    && if s.stage[t] == User then st == ToSerial && !s.serial
       else if s.stage[t] == Passed then st == ToParallel && s.serial
       else (st == ToSerial || st == ToParallel) && st == s.stage[t]
  }

  lemma CrossingTurn(s: State, t: Tid, st: Stage, i: nat)
    requires Inv(s) && Crossing(s, t, st) && i < |s.ring| && s.ring[i] == t && s.serial
    ensures st == ToParallel <==> i >= s.pending
  {
    assert Turns(s, i);
  }

  lemma NoFlipTurn(s: State, g: F.Fence, t: Tid, st: Stage, o: F.Outcome, i: nat)
    requires Inv(s) && Crossing(s, t, st) && F.Inv(g) && F.Results(s.f, g, t, o) && o != F.Opens && i < |s.ring|
    ensures Turns(WithFence(s, g, t, st), i)
  {
    assert Turns(s, i);
    if s.serial && s.ring[i] == t { CrossingTurn(s, t, st, i); }
  }

  /** A region of the fence that does not open it. */
  lemma NoFlipKeepsInv(s: State, g: F.Fence, t: Tid, st: Stage, o: F.Outcome)
    requires Inv(s) && Crossing(s, t, st) && F.Inv(g) && F.Results(s.f, g, t, o) && o != F.Opens
    requires o == F.Stays ==> (F.Inside(F.At(s.f, t)) || (F.Knocking(F.At(g, t)) && (st == ToSerial <==> !s.serial)))
    requires o == F.Arrives ==> (st == ToSerial <==> !s.serial)
    ensures Inv(WithFence(s, g, t, st))
  {
    var r := WithFence(s, g, t, st);
    assert Fits(s, t);
    forall u | u in r.ring ensures Fits(r, u) {
      assert Fits(s, u);
    }
    forall i | 0 <= i < |r.ring| ensures Turns(r, i) { NoFlipTurn(s, g, t, st, o, i); }
  }

  lemma FlipTurn(s: State, g: F.Fence, t: Tid, st: Stage, i: nat)
    requires Inv(s) && Crossing(s, t, st) && F.Inv(g) && F.Results(s.f, g, t, F.Opens)
    requires (st == ToSerial <==> !s.serial) && i < |s.ring|
    ensures Turns(WithFence(s, g, t, st), i)
    ensures s.serial ==> i >= s.pending
  {
    assert Turns(s, i) && Fits(s, s.ring[i]) && s.ring[i] in s.f.counted;
    if s.serial && s.ring[i] == t { CrossingTurn(s, t, st, i); }
  }

  /** The region that opens the fence: from user code into the serial phase, or back. */
  lemma FlipKeepsInv(s: State, g: F.Fence, t: Tid, st: Stage)
    requires Inv(s) && Crossing(s, t, st) && F.Inv(g) && F.Results(s.f, g, t, F.Opens)
    requires st == ToSerial <==> !s.serial
    ensures Inv(WithFence(s, g, t, st))
  {
    var r := WithFence(s, g, t, st);
    forall u | u in r.ring ensures Fits(r, u) {
      assert Fits(s, u);
      assert u in s.f.counted;
    }
    forall i | 0 <= i < |r.ring| ensures Turns(r, i) { FlipTurn(s, g, t, st, i); }
    if s.serial { FlipTurn(s, g, t, st, 0); }
  }

  lemma FenceStepKeepsInv(s: State, cores: int, e: F.Event, st: Stage)
    requires Inv(s) && (e.Enter? || FenceMove(e)) && F.Enabled(s.f, e) && Crossing(s, e.t, st)
    requires e.Enter? <==> s.stage[e.t] == User || s.stage[e.t] == Passed
    ensures Inv(WithFence(s, F.Step(s.f, cores, e), e.t, st))
  {
    var t, g := e.t, F.Step(s.f, cores, e);
    F.StepCorrect(s.f, cores, e);
    var o := F.StepResult(s.f, cores, e);
    RegionStage(s, cores, e, st, o);
    if o == F.Opens {
      FlipKeepsInv(s, g, t, st);
    } else {
      NoFlipKeepsInv(s, g, t, st, o);
    }
  }

  /** Who comes to the fence comes to the one of the phase. */
  lemma RegionStage(s: State, cores: int, e: F.Event, st: Stage, o: F.Outcome)
    requires Inv(s) && (e.Enter? || FenceMove(e)) && F.Enabled(s.f, e) && Crossing(s, e.t, st)
    requires e.Enter? <==> s.stage[e.t] == User || s.stage[e.t] == Passed
    requires F.Results(s.f, F.Step(s.f, cores, e), e.t, o)
    ensures o == F.Opens || o == F.Arrives ==> (st == ToSerial <==> !s.serial)
    ensures o == F.Stays ==> F.Inside(F.At(s.f, e.t)) || (F.Knocking(F.At(F.Step(s.f, cores, e), e.t)) && (st == ToSerial <==> !s.serial))
  {
    assert Fits(s, e.t);
    if o == F.Stays { F.StaysWhere(s.f, cores, e); }
  }

  lemma OwnStage(s: State, t: Tid)
    requires Inv(s) && StageOf(s, t) != Asleep
    ensures t in s.stage && t in s.ring && t in s.f.counted && Fits(s, t)
  {
  }

  lemma SyncKeepsInv(s: State, cores: int, t: Tid)
    requires Inv(s) && Enabled(s, Sync(t))
    ensures Inv(Step(s, cores, Sync(t)))
  {
    OwnStage(s, t);
    FenceStepKeepsInv(s, cores, F.Enter(t), Before(StageOf(s, t)));
  }

  lemma InFenceKeepsInv(s: State, cores: int, e: F.Event)
    requires Inv(s) && Enabled(s, InFence(e))
    ensures Inv(Step(s, cores, InFence(e)))
  {
    var t := e.t;
    assert t in s.stage && Fits(s, t);
    FenceStepKeepsInv(s, cores, e, StageOf(s, t));
  }

  // ---------- token steps ----------

  /** The token holder: first in the ring, outside the fence, in a serial phase. */
  lemma HolderFacts(s: State, t: Tid)
    requires Inv(s) && StageOf(s, t) == Holding
    ensures s.serial && s.pending > 0 && s.ring != [] && s.ring[0] == t && t in s.f.counted && F.At(s.f, t) == F.Out
    ensures t !in s.ring[1..] && Distinct(s.ring[1..]) && Distinct(s.ring[1..] + [t])
    ensures Elements(s.ring[1..]) == s.f.counted - {t}
    ensures Elements(s.ring[1..] + [t]) == s.f.counted
  {
    PhaseSeparation(s, t, t);
    assert Fits(s, t);
    Turn(s.ring);
  }

  lemma GetTokenKeepsInv(s: State, cores: int, t: Tid)
    requires Inv(s) && Enabled(s, GetToken(t))
    ensures Inv(Step(s, cores, GetToken(t)))
  {
    var r := Step(s, cores, GetToken(t));
    OwnStage(s, t);
    forall u | u in r.ring ensures u in r.stage && Fits(r, u) { assert Fits(s, u); }
    forall i | 0 <= i < |r.ring| ensures Turns(r, i) { assert Turns(s, i) && Turns(s, 0); }
  }

  lemma PutTokenKeepsInv(s: State, cores: int, t: Tid)
    requires Inv(s) && Enabled(s, PutToken(t))
    ensures Inv(Step(s, cores, PutToken(t)))
  {
    var r := Step(s, cores, PutToken(t));
    HolderFacts(s, t);
    forall u | u in r.ring ensures u in r.stage && Fits(r, u) { assert u in s.ring && Fits(s, u); }
    forall i | 0 <= i < |r.ring| ensures Turns(r, i) {
      if i + 1 < |s.ring| { assert r.ring[i] == s.ring[i + 1] && Turns(s, i + 1); }
    }
  }

  /** decrFence by the holder may open the fence for the threads that have all arrived at the second one. */
  lemma SleepOpens(s: State, t: Tid, i: nat)
    requires Inv(s) && StageOf(s, t) == Holding && 0 < i < |s.ring|
    requires F.DecrFence(s.f, t).gen != s.f.gen
    ensures i >= s.pending && F.Inside(F.At(s.f, s.ring[i])) && StageOf(s, s.ring[i]) == ToParallel
  {
    var g := F.DecrFence(s.f, t);
    HolderFacts(s, t);
    F.DecrCorrect(s.f, t);
    assert s.ring[i] in s.ring[1..] by { assert s.ring[1..][i - 1] == s.ring[i]; }
    assert s.ring[i] in F.Insiders(s.f);
    assert Fits(s, s.ring[i]) && Turns(s, i);
  }

  /** The phase machine after the holder has gone to sleep. */
  ghost predicate Slept(s: State, r: State, t: Tid) {
    && r.f == F.DecrFence(s.f, t) && |s.ring| > 0 && r.ring == s.ring[1..] && r.stage == s.stage[t := Asleep] && r.pending == s.pending - 1
    && r.serial == if r.f.gen != s.f.gen then !s.serial else s.serial
  }

  lemma SleepTurns(s: State, r: State, t: Tid, i: nat)
    requires Inv(s) && StageOf(s, t) == Holding && i + 1 < |s.ring| && Slept(s, r, t)
    ensures Turns(r, i)
    ensures r.f.gen != s.f.gen ==> i + 1 >= s.pending
  {
    HolderFacts(s, t);
    assert r.ring[i] == s.ring[i + 1] && Turns(s, i + 1);
    if r.f.gen != s.f.gen { SleepOpens(s, t, i + 1); }
  }

  lemma SleepFits(s: State, r: State, t: Tid, i: nat)
    requires Inv(s) && StageOf(s, t) == Holding && i + 1 < |s.ring| && Slept(s, r, t)
    ensures r.ring[i] in r.stage && Fits(r, r.ring[i])
  {
    HolderFacts(s, t);
    assert r.ring[i] == s.ring[i + 1] && Fits(s, s.ring[i + 1]);
    if r.f.gen != s.f.gen { SleepOpens(s, t, i + 1); }
  }

  lemma SleepKeepsInv(s: State, cores: int, t: Tid)
    requires Inv(s) && Enabled(s, Sleep(t))
    ensures Inv(Step(s, cores, Sleep(t)))
  {
    var r := Step(s, cores, Sleep(t));
    HolderFacts(s, t);
    F.DecrCorrect(s.f, t);
    forall i | 0 <= i < |r.ring|
      ensures Turns(r, i) && r.ring[i] in r.stage && Fits(r, r.ring[i])
    {
      SleepTurns(s, r, t, i);
      SleepFits(s, r, t, i);
    }
    assert r.pending <= |r.ring|;
    assert !r.serial ==> r.pending == 0 by {
      if r.f.gen != s.f.gen && r.pending > 0 { SleepTurns(s, r, t, 0); }
    }
  }

  /** The fence g is f with the threads of `who` counted too. */
  ghost predicate Counts(f: F.Fence, who: set<Tid>, g: F.Fence) {
    F.Inv(g) && g.counted == f.counted + who && g.pc == f.pc && g.arrival == f.arrival && g.gen == f.gen
  }

  lemma IncrCounts(f: F.Fence, t: Tid)
    requires F.Inv(f) && t !in f.counted
    ensures Counts(f, {t}, F.IncrFence(f, t))
  {
    F.IncrCorrect(f, t);
  }

  lemma CountsTwice(f: F.Fence, a: set<Tid>, g: F.Fence, b: set<Tid>, h: F.Fence)
    requires Counts(f, a, g) && Counts(g, b, h)
    ensures Counts(f, a + b, h)
  {
  }

  lemma FirstElement(who: seq<Tid>)
    requires Distinct(who) && who != []
    ensures who[0] in Elements(who) && Distinct(who[1..])
    ensures Elements(who[1..]) == Elements(who) - {who[0]} && Elements(who) == {who[0]} + Elements(who[1..])
  {
    Turn(who);
  }

  lemma {:induction false} IncrAllCorrect(f: F.Fence, who: seq<Tid>)
    requires F.Inv(f) && Distinct(who) && Elements(who) !! f.counted
    ensures Counts(f, Elements(who), IncrAll(f, who))
    decreases |who|
  {
    if who != [] {
      var t, rest := who[0], who[1..];
      var g := F.IncrFence(f, t);
      FirstElement(who);
      IncrCounts(f, t);
      IncrAllCorrect(g, rest);
      CountsTwice(f, {t}, g, Elements(rest), IncrAll(g, rest));
    }
  }

  lemma SleepersOutside(s: State, who: seq<Tid>, u: Tid)
    requires Inv(s) && Sleepers(s, who) && u in who
    ensures u !in s.ring && u !in s.f.counted && F.At(s.f, u) == F.Out
  {
    assert !Fits(s, u);
  }

  lemma AwakeCounts(s: State, who: seq<Tid>)
    requires Inv(s) && Sleepers(s, who)
    ensures Counts(s.f, Elements(who), IncrAll(s.f, who))
  {
    forall u | u in who ensures u !in s.f.counted { SleepersOutside(s, who, u); }
    IncrAllCorrect(s.f, who);
  }

  lemma InsertSleepers(s: State, t: Tid, who: seq<Tid>)
    requires Inv(s) && StageOf(s, t) == Holding && Sleepers(s, who)
    ensures Distinct([t] + who + s.ring[1..]) && Distinct(who + [t])
    ensures Elements([t] + who + s.ring[1..]) == s.f.counted + Elements(who)
    ensures Elements(who + [t]) == Elements(who) + {t}
  {
    PhaseSeparation(s, t, t);
    forall u | u in who ensures u !in s.ring { SleepersOutside(s, who, u); }
    Insert(s.ring, who);
  }

  lemma AwakeFits(s: State, r: State, t: Tid, who: seq<Tid>, u: Tid)
    requires Inv(s) && Enabled(s, Wake(t, who)) && u in [t] + who + s.ring[1..]
    requires r.f.pc == s.f.pc && r.f.arrival == s.f.arrival && r.serial == s.serial
    requires r.stage == StageAll(s.stage, who, AwaitToken)
    ensures u in r.stage && Fits(r, u)
  {
    HolderFacts(s, t);
    if u in who {
      SleepersOutside(s, who, u);
    } else {
      assert u in s.ring && Fits(s, u);
    }
  }

  lemma RestAsleep(s: State, t: Tid, who: seq<Tid>, i: nat)
    requires Inv(s) && Enabled(s, Wake(t, who)) && i < |s.ring|
    ensures s.ring[i] !in who
  {
    if s.ring[i] in who { SleepersOutside(s, who, s.ring[i]); }
  }

  lemma AwakeTurns(s: State, r: State, t: Tid, who: seq<Tid>, i: nat)
    requires Inv(s) && Enabled(s, Wake(t, who)) && i < |s.ring| + |who|
    requires r.serial == s.serial && r.pending == s.pending + |who| && r.ring == [t] + who + s.ring[1..]
    requires r.stage == StageAll(s.stage, who, AwaitToken)
    ensures Turns(r, i)
  {
    HolderFacts(s, t);
    if 0 < i <= |who| {
      assert r.ring[i] in who;
    } else {
      RestTurns(s, r, t, who, i, if i == 0 then 0 else i - |who|);
    }
  }

  lemma RestTurns(s: State, r: State, t: Tid, who: seq<Tid>, i: nat, j: nat)
    requires Inv(s) && Enabled(s, Wake(t, who)) && i < |r.ring| && j < |s.ring| && r.ring[i] == s.ring[j]
    requires r.serial == s.serial && r.pending == s.pending + |who| && r.stage == StageAll(s.stage, who, AwaitToken)
    requires i == (if j == 0 then 0 else j + |who|) && s.pending > 0
    ensures Turns(r, i)
  {
    assert Turns(s, j);
    RestAsleep(s, t, who, j);
  }

  lemma WakeKeepsInv(s: State, cores: int, t: Tid, who: seq<Tid>)
    requires Inv(s) && Enabled(s, Wake(t, who))
    ensures Inv(Step(s, cores, Wake(t, who)))
  {
    var r := Step(s, cores, Wake(t, who));
    HolderFacts(s, t);
    InsertSleepers(s, t, who);
    AwakeCounts(s, who);
    forall u | u in r.ring ensures u in r.stage && Fits(r, u) { AwakeFits(s, r, t, who, u); }
    forall i | 0 <= i < |r.ring| ensures Turns(r, i) { AwakeTurns(s, r, t, who, i); }
  }

  lemma GatheredFits(s: State, r: State, t: Tid, who: seq<Tid>, u: Tid)
    requires Inv(s) && Enabled(s, Gather(t, who)) && u in who + [t]
    requires r.f.pc == s.f.pc && !r.serial && r.stage == StageAll(s.stage, [t] + who, User)
    ensures u in r.stage && Fits(r, u)
  {
    HolderFacts(s, t);
    if u in who { SleepersOutside(s, who, u); }
  }

  lemma GatheredRing(s: State, t: Tid, who: seq<Tid>)
    requires Inv(s) && Enabled(s, Gather(t, who))
    ensures Distinct(who + [t]) && Elements(who + [t]) == s.f.counted + Elements(who)
    ensures forall u :: u in s.stage && u !in who + [t] ==> s.stage[u] == Asleep
  {
    HolderFacts(s, t);
    InsertSleepers(s, t, who);
    assert s.f.counted == {t};
  }

  lemma GatheredInv(s: State, r: State, t: Tid, who: seq<Tid>)
    requires Inv(s) && Enabled(s, Gather(t, who)) && Counts(s.f, Elements(who), r.f)
    requires r.pending == 0 && !r.serial && r.ring == who + [t] && r.stage == StageAll(s.stage, [t] + who, User)
    ensures Inv(r)
  {
    GatheredRing(s, t, who);
    forall u | u in r.ring ensures u in r.stage && Fits(r, u) { GatheredFits(s, r, t, who, u); }
  }

  lemma GatherKeepsInv(s: State, cores: int, t: Tid, who: seq<Tid>)
    requires Inv(s) && Enabled(s, Gather(t, who))
    ensures Inv(Step(s, cores, Gather(t, who)))
  {
    AwakeCounts(s, who);
    GatheredInv(s, Step(s, cores, Gather(t, who)), t, who);
  }

  lemma StepKeepsInv(s: State, cores: int, e: Event)
    requires Inv(s) && Enabled(s, e)
    ensures Inv(Step(s, cores, e))
  {
    match e
    case Sync(t) => SyncKeepsInv(s, cores, t);
    case InFence(g) => InFenceKeepsInv(s, cores, g);
    case GetToken(t) => GetTokenKeepsInv(s, cores, t);
    case PutToken(t) => PutTokenKeepsInv(s, cores, t);
    case Sleep(t) => SleepKeepsInv(s, cores, t);
    case Wake(t, who) => WakeKeepsInv(s, cores, t, who);
    case Gather(t, who) => GatherKeepsInv(s, cores, t, who);
  }

  // ---------- runs ----------

  ghost function System(cores: int): Rules<State, Event> {
    Rules((s, e) => Enabled(s, e), (s, e) => Step(s, cores, e))
  }

  /** After startFence: everybody runs user code outside the fence. */
  ghost predicate Initial(s: State) {
    && F.Inv(s.f) && Distinct(s.ring) && s.f.counted == Elements(s.ring) && s.pending == 0 && !s.serial && s.f.arrival
    && (forall t :: t in s.stage <==> t in s.ring)
    && (forall t :: t in s.ring ==> s.stage[t] == User && F.At(s.f, t) == F.Out)
  }

  /** One thread alone, before startFence. */
  ghost function Alone(master: Tid): F.Fence {
    F.Fence(1, 0, true, map[], {master}, 0, map[master := 0], map[master := 0])
  }

  lemma AloneInv(master: Tid)
    ensures F.Inv(Alone(master))
  {
    assert F.Insiders(Alone(master)) == {};
  }

  /** startFence makes such a state: the master starts the fence for its children. */
  lemma Begins(ring: seq<Tid>) returns (s: State)
    requires Distinct(ring) && ring != []
    ensures Initial(s) && s.ring == ring && s.f == F.StartFence(Alone(ring[0]), Elements(ring[1..]))
  {
    var f, children := Alone(ring[0]), Elements(ring[1..]);
    AloneInv(ring[0]);
    assert ring[0] !in children;
    F.StartCorrect(f, children);
    assert Elements(ring) == {ring[0]} + children;
    s := State(F.StartFence(f, children), map t | t in ring :: User, ring, 0, false);
  }

  /** In every reachable state: whoever holds the token is alone, and everybody else is out of user code. */
  lemma RunSeparation(cores: int, s: State, run: seq<Event>, t: Tid, u: Tid)
    requires Initial(s) && Valid(System(cores), s, run)
    ensures var r := Exec(System(cores), s, run);
            Inv(r) && (StageOf(r, t) == Holding ==> StageOf(r, u) != User && (u != t ==> StageOf(r, u) != Holding))
  {
    var sys := System(cores);
    forall q, e | Inv(q) && sys.enabled(q, e) ensures Inv(sys.step(q, e)) {
      StepKeepsInv(q, cores, e);
    }
    RunPreserves(sys, q => Inv(q), s, run);
    var r := Exec(sys, s, run);
    if StageOf(r, t) == Holding { PhaseSeparation(r, t, u); }
  }
}
