/** Phases come to an end: fence and token never get stuck while a thread is awake, and between two wake-ups each
    thread can take only so many steps before the phase changes. */
module Progress {
  import opened Counting
  import opened Runs
  import F = Fence
  import opened Phases

  /** How many steps thread t can still take in this phase, at most. */
  ghost function Weight(s: State, t: Tid): (w: nat)
    ensures w <= 8
  {
    var p, st := F.At(s.f, t), StageOf(s, t);
    if F.Inside(p) then (if s.f.arrival then 0 else if p == F.SawOpen then 7 else 8)
    else if p == F.SawArrival then 1
    else if F.Knocking(p) then 2
    else if st == User || st == AwaitToken then 6
    else if st == Holding then 5
    else 4
  }

  ghost function Total(s: State, ring: seq<Tid>): (n: nat)
    ensures n <= 8 * |ring|
  {
    if ring == [] then 0 else Weight(s, ring[0]) + Total(s, ring[1..])
  }

  lemma {:induction false} TotalFalls(s: State, r: State, ring: seq<Tid>, t: Tid)
    requires Distinct(ring) && Weight(r, t) < Weight(s, t)
    requires forall u :: u in ring && u != t ==> Weight(r, u) == Weight(s, u)
    ensures t in ring ==> Total(r, ring) < Total(s, ring)
    ensures t !in ring ==> Total(r, ring) == Total(s, ring)
    decreases |ring|
  {
    if ring != [] { TotalFalls(s, r, ring[1..], t); }
  }

  lemma {:induction false} TotalLast(s: State, ring: seq<Tid>, t: Tid)
    ensures Total(s, ring + [t]) == Total(s, ring) + Weight(s, t)
    decreases |ring|
  {
    if ring == [] {
      assert [] + [t] == [t];
    } else {
      assert (ring + [t])[1..] == ring[1..] + [t];
      TotalLast(s, ring[1..], t);
    }
  }

  // ---------- every step brings the end of the phase nearer ----------

  /** The thread that takes a region of the fence. */
  lemma RegionWeight(s: State, cores: int, e: F.Event, st: Stage, o: F.Outcome)
    requires Inv(s) && (e.Enter? || FenceMove(e)) && F.Enabled(s.f, e) && Crossing(s, e.t, st)
    requires e.Enter? <==> s.stage[e.t] == User || s.stage[e.t] == Passed
    requires F.Results(s.f, F.Step(s.f, cores, e), e.t, o) && o != F.Opens
    ensures Weight(WithFence(s, F.Step(s.f, cores, e), e.t, st), e.t) < Weight(s, e.t)
  {
    var t := e.t;
    assert Fits(s, t) && t in s.f.counted && F.InStep(s.f, t);
  }

  lemma FenceFalls(s: State, cores: int, e: F.Event, st: Stage)
    requires Inv(s) && (e.Enter? || FenceMove(e)) && F.Enabled(s.f, e) && Crossing(s, e.t, st)
    requires e.Enter? <==> s.stage[e.t] == User || s.stage[e.t] == Passed
    requires F.Step(s.f, cores, e).gen == s.f.gen
    ensures Total(WithFence(s, F.Step(s.f, cores, e), e.t, st), s.ring) < Total(s, s.ring)
  {
    var t, r := e.t, WithFence(s, F.Step(s.f, cores, e), e.t, st);
    var o := F.StepResult(s.f, cores, e);
    RegionWeight(s, cores, e, st, o);
    forall u | u in s.ring && u != t ensures Weight(r, u) == Weight(s, u) {
      assert u in s.f.counted && F.At(r.f, u) == F.At(s.f, u);
    }
    TotalFalls(s, r, s.ring, t);
  }

  lemma PutFalls(s: State, cores: int, t: Tid)
    requires Inv(s) && Enabled(s, PutToken(t))
    ensures var r := Step(s, cores, PutToken(t)); Total(r, r.ring) < Total(s, s.ring)
  {
    var r, rest := Step(s, cores, PutToken(t)), s.ring[1..];
    PutWeights(s, cores, t);
    SameTotal(s, r, rest);
    TotalLast(r, rest, t);
  }

  lemma PutWeights(s: State, cores: int, t: Tid)
    requires Inv(s) && Enabled(s, PutToken(t))
    ensures var r := Step(s, cores, PutToken(t));
            && s.ring[0] == t && r.ring == s.ring[1..] + [t] && Weight(r, t) < Weight(s, t)
            && forall u :: u in s.ring[1..] ==> Weight(r, u) == Weight(s, u)
  {
    HolderFacts(s, t);
  }

  lemma SleepFalls(s: State, cores: int, t: Tid)
    requires Inv(s) && Enabled(s, Sleep(t)) && Step(s, cores, Sleep(t)).serial == s.serial
    ensures var r := Step(s, cores, Sleep(t)); Total(r, r.ring) < Total(s, s.ring)
  {
    HolderFacts(s, t);
    SameTotal(s, Step(s, cores, Sleep(t)), s.ring[1..]);
  }

  lemma {:induction false} SameTotal(s: State, r: State, ring: seq<Tid>)
    requires forall u :: u in ring ==> Weight(r, u) == Weight(s, u)
    ensures Total(r, ring) == Total(s, ring)
    decreases |ring|
  {
    if ring != [] { SameTotal(s, r, ring[1..]); }
  }

  lemma StepFalls(s: State, cores: int, e: Event)
    requires Inv(s) && Enabled(s, e) && !e.Wake? && Step(s, cores, e).serial == s.serial
    ensures var r := Step(s, cores, e); Total(r, r.ring) < Total(s, s.ring)
  {
    var r := Step(s, cores, e);
    match e
    case Sync(t) => OwnStage(s, t); FenceFalls(s, cores, F.Enter(t), Before(StageOf(s, t)));
    case InFence(g) =>
      assert g.t in s.stage && Fits(s, g.t);
      FenceFalls(s, cores, g, StageOf(s, g.t));
    case GetToken(t) => OwnStage(s, t); TotalFalls(s, r, s.ring, t);
    case PutToken(t) => PutFalls(s, cores, t);
    case Sleep(t) => SleepFalls(s, cores, t);
    case Gather(t, _) => HolderFacts(s, t);
  }

  /** The run stays in one phase, and nobody is woken. */
  ghost predicate OnePhase(s: State, cores: int, run: seq<Event>)
    decreases |run|
  {
    run == [] ||
    (var r := Step(s, cores, run[0]); !run[0].Wake? && r.serial == s.serial && OnePhase(r, cores, run[1..]))
  }

  /** However threads, spins and wake-ups of blocked threads interleave, a phase in which nobody is woken is over
      after at most eight steps for each thread in the ring. */
  lemma {:induction false} PhaseEnds(s: State, cores: int, run: seq<Event>)
    requires Inv(s) && Valid(System(cores), s, run) && OnePhase(s, cores, run)
    ensures |run| <= Total(s, s.ring) <= 8 * |s.ring|
    decreases |run|
  {
    if run != [] {
      var e := run[0];
      StepKeepsInv(s, cores, e);
      StepFalls(s, cores, e);
      PhaseEnds(Step(s, cores, e), cores, run[1..]);
    }
  }

  // ---------- and there is always a step ----------

  /** While the fence is open somebody is inside and can leave. */
  lemma SomebodyLeaves(s: State) returns (e: Event)
    requires Inv(s) && !s.f.arrival
    ensures e.InFence? && Enabled(s, e)
  {
    var t :| t in F.Insiders(s.f);
    var p := F.At(s.f, t);
    assert t in s.ring;
    e := InFence(if p == F.InSpin then F.SpinSeesOpen(t) else if p == F.InBlocked then F.LeaveUnblocked(t) else F.LeaveAfterSpin(t));
  }

  /** Somebody is not yet inside. */
  lemma SomebodyMissing(f: F.Fence) returns (t: Tid)
    requires F.Inv(f) && f.arrival && f.counted != {}
    ensures t in f.counted && !F.Inside(F.At(f, t))
  {
    assert F.Insiders(f) <= f.counted;
    assert f.counted <= F.Insiders(f) ==> F.Insiders(f) == f.counted;
    t :| t in f.counted && t !in F.Insiders(f);
  }

  /** The first of the ring has the token, or can take it. */
  lemma FirstHasTurn(s: State) returns (e: Event)
    requires Inv(s) && s.f.arrival && s.serial && s.pending > 0
    ensures (e.GetToken? || e.PutToken?) && Enabled(s, e)
  {
    var t := s.ring[0];
    assert Turns(s, 0) && t in s.ring && Fits(s, t);
    e := if StageOf(s, t) == Holding then PutToken(t) else GetToken(t);
  }

  /** As long as anybody is awake, somebody can go on; nobody need be woken for that. */
  lemma NeverStuck(s: State) returns (e: Event)
    requires Inv(s) && s.ring != []
    ensures Enabled(s, e) && !e.Wake? && !e.Gather? && !e.Sleep?
  {
    if !s.f.arrival {
      e := SomebodyLeaves(s);
    } else {
      assert s.ring[0] in s.f.counted;
      var t := SomebodyMissing(s.f);
      var p := F.At(s.f, t);
      assert t in s.ring && Fits(s, t);
      if p == F.Out {
        if StageOf(s, t) == User || StageOf(s, t) == Passed {
          e := Sync(t);
        } else {
          var i :| 0 <= i < |s.ring| && s.ring[i] == t;
          assert Turns(s, i);
          e := FirstHasTurn(s);
        }
      } else {
        e := InFence(if p == F.KnockSpin then F.SpinSees(t) else if p == F.SawArrival then F.ArriveAfterSpin(t) else F.ArriveUnblocked(t));
      }
    }
  }

  /** So the phase that begins in s comes to an end whatever is chosen: a run without wake-ups can be continued as
      long as a thread is awake, and one of more steps than that has left the phase. */
  lemma PhaseTurns(s: State, cores: int, run: seq<Event>)
    requires Inv(s) && Valid(System(cores), s, run) && (forall i :: 0 <= i < |run| ==> !run[i].Wake?)
    requires |run| > 8 * |s.ring|
    ensures exists k :: 0 < k <= |run| && Exec(System(cores), s, run[..k]).serial != s.serial
  {
    if OnePhase(s, cores, run) {
      PhaseEnds(s, cores, run);
      assert false;
    }
    var k := Leaves(s, cores, run);
  }

  /** The step at which a run leaves the phase. */
  lemma {:induction false} Leaves(s: State, cores: int, run: seq<Event>) returns (k: nat)
    requires Valid(System(cores), s, run) && !OnePhase(s, cores, run) && (forall i :: 0 <= i < |run| ==> !run[i].Wake?)
    ensures 0 < k <= |run| && Exec(System(cores), s, run[..k]).serial != s.serial
    decreases |run|
  {
    var r := Step(s, cores, run[0]);
    if r.serial != s.serial {
      k := 1;
      assert run[..1][1..] == [];
      assert Exec(System(cores), s, run[..1]) == Exec(System(cores), r, []);
    } else {
      var m := Leaves(r, cores, run[1..]);
      k := m + 1;
      assert run[..k][1..] == run[1..][..m];
    }
  }
}
