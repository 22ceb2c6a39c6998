/** The runtime as a whole (xrun.h): fence and token drive the commit protocol.  What the commit protocol takes
    for granted about phases and turns is what the fence's counters and the token give. */
module Runtime {
  import opened Counting
  import opened Runs
  import F = Fence
  import P = Phases
  import opened Machine
  import TwinCommit
  import Pages
  import opened Determinism

  type Tid = int

  datatype Rt<L, G> = Rt(ph: P.State, mem: Sys<L, G>)

  /** A thread's next program action; a region of waitFence; taking the token and committing; calling
      waitFence after putToken. */
  datatype Event = Go(t: Tid) | Region(t: Tid, g: F.Event) | Token(t: Tid) | Again(t: Tid)

  datatype Driven = Nothing | Drives(e: P.Event)

  /** What a thread may do without the token. */
  ghost predicate UserAction<L, G>(a: Action<L, G>) {
    a.Store? || a.Access? || a.Sync?
  }

  ghost predicate Enabled<L(!new), G(!new)>(prog: Program<L, G>, s: Rt<L, G>, e: Event) {
    && !s.mem.sh.overrun
    && match e
       case Go(t) => && (P.StageOf(s.ph, t) == P.User || P.StageOf(s.ph, t) == P.Holding)
                     && t in s.mem.th && InRange(s.mem.sh, Next(prog, s.mem, t))
                     && (P.StageOf(s.ph, t) == P.User ==> UserAction(Next(prog, s.mem, t)))
       case Region(t, g) => P.Enabled(s.ph, P.InFence(g)) && g.t == t
       case Token(t) => P.Enabled(s.ph, P.GetToken(t))
       case Again(t) => P.StageOf(s.ph, t) == P.Passed
  }

  /** What a program action means to fence and token: in user code any synchronisation waits for the serial
      phase; the token holder may pass the token, sleep or wake. */
  ghost function GoDrives<L(!new), G(!new)>(ph: P.State, t: Tid, a: Action<L, G>): Driven {
    if P.StageOf(ph, t) == P.User then (if a.Store? || a.Access? then Nothing else Drives(P.Sync(t)))
    else match a
      case Wake(who, _, _) => if P.Sleepers(ph, who) then Drives(P.Wake(t, who)) else Nothing
      case Release(_, _) => Drives(P.PutToken(t))
      case Sleep(_, _) => Drives(P.Sleep(t))
      case Gather(who, _, _) => if ph.ring == [t] && P.Sleepers(ph, who) then Drives(P.Gather(t, who)) else Drives(P.PutToken(t))
      case _ => Nothing
  }

  ghost function Phase<L(!new), G(!new)>(prog: Program<L, G>, s: Rt<L, G>, e: Event): Driven {
    match e
    case Go(t) => if t in s.mem.th then GoDrives(s.ph, t, Next(prog, s.mem, t)) else Nothing
    case Region(_, g) => Drives(P.InFence(g))
    case Token(t) => Drives(P.GetToken(t))
    case Again(t) => Drives(P.Sync(t))
  }

  ghost function NextPhase<L(!new), G(!new)>(prog: Program<L, G>, cores: int, s: Rt<L, G>, e: Event): P.State {
    var d := Phase(prog, s, e);
    if d.Drives? then P.Step(s.ph, cores, d.e) else s.ph
  }

  /** Thread t has come to the fence between f and g: it waits there, or was the last and opened it. */
  ghost predicate Arrives(f: F.Fence, g: F.Fence, t: Tid) {
    !F.Inside(F.At(f, t)) && (F.Inside(F.At(g, t)) || g.gen != f.gen)
  }

  /** The memory takes a step when the program stores, when a thread comes to the fence before the serial
      phase, when a thread gets the token, and at everything the token holder does. */
  ghost predicate Touches<L(!new), G(!new)>(prog: Program<L, G>, s: Rt<L, G>, e: Event, ph: P.State) {
    match e
    case Go(t) => P.StageOf(s.ph, t) == P.Holding || Phase(prog, s, e) == Nothing || Arrives(s.ph.f, ph.f, t)
    case Region(t, _) => P.StageOf(s.ph, t) == P.ToSerial && Arrives(s.ph.f, ph.f, t)
    case Token(_) => true
    case Again(_) => false
  }

  ghost function Step<L(!new), G(!new)>(prog: Program<L, G>, cores: int, s: Rt<L, G>, e: Event): Rt<L, G> {
    var ph := NextPhase(prog, cores, s, e);
    Rt(ph, if Touches(prog, s, e, ph) then Machine.Step(prog, false, s.mem, e.t) else s.mem)
  }

  ghost function System<L(!new), G(!new)>(prog: Program<L, G>, cores: int): Rules<Rt<L, G>, Event> {
    Rules((s, e) => Enabled(prog, s, e), (s, e) => Step(prog, cores, s, e))
  }

  // ---------- how the two halves fit ----------

  /** A thread waits in the memory's eyes from its arrival until it has the token; one still knocking has a
      synchronisation to do next. */
  ghost predicate ThreadLink<L(!new), G(!new)>(prog: Program<L, G>, s: Rt<L, G>, t: Tid)
    requires t in s.mem.th
  {
    var st, p := P.StageOf(s.ph, t), F.At(s.ph.f, t);
    && (s.mem.th[t].waiting ==> (st == P.ToSerial && F.Inside(p)) || st == P.AwaitToken)
    && (!s.ph.serial && st == P.ToSerial && F.Inside(p) ==> s.mem.th[t].waiting)
    && (st == P.ToSerial && !F.Inside(p) ==> Next(prog, s.mem, t).Sync?)
  }

  /** Whether a thread asks for the serial phase does not depend on queues and locks. */
  ghost predicate Steady<L(!new), G(!new)>(prog: Program<L, G>) {
    forall t: Tid, l: L, v: seq<Pages.Page>, g: G, h: G {:trigger prog(t, l, v, g), prog(t, l, v, h)} ::
      prog(t, l, v, g).Sync? ==> prog(t, l, v, h) == prog(t, l, v, g)
  }

  ghost predicate Begun(ph: P.State) {
    ph.pending > 0 && |ph.ring| > 0 && P.StageOf(ph, ph.ring[0]) == P.Holding
  }

  ghost predicate Linked<L(!new), G(!new)>(prog: Program<L, G>, s: Rt<L, G>) {
    && s.mem.ring == s.ph.ring && s.mem.pending == s.ph.pending && (s.mem.began <==> Begun(s.ph))
    && (forall t :: t in s.mem.th <==> t in s.ph.stage)
    && (forall t :: t in s.mem.th ==> ThreadLink(prog, s, t))
  }

  ghost predicate Inv<L(!new), G(!new)>(prog: Program<L, G>, s: Rt<L, G>) {
    Steady(prog) && P.Inv(s.ph) && Machine.Inv(s.mem) && TwinCommit.WellFormed(s.mem.sh) && Linked(prog, s)
  }

  /** After startFence all threads of the ring run user code with nothing dirty. */
  ghost predicate Initial<L(!new), G(!new)>(s: Rt<L, G>) {
    && P.Initial(s.ph) && Machine.Initial(s.mem) && !s.mem.began
    && s.mem.ring == s.ph.ring && (forall t :: t in s.mem.th <==> t in s.ph.stage)
  }

  lemma InitialInv<L(!new), G(!new)>(prog: Program<L, G>, s: Rt<L, G>)
    requires Initial(s) && Steady(prog)
    ensures Inv(prog, s)
  {
    Machine.InitialInv(s.mem);
    forall t | t in s.ph.ring ensures P.Fits(s.ph, t) {
      assert s.ph.stage[t] == P.User;
    }
    forall t | t in s.mem.th ensures ThreadLink(prog, s, t) {
      assert t in s.ph.ring && s.ph.stage[t] == P.User;
    }
  }

  /** Any threads can begin, on any pages and with any states of their own. */
  lemma Begins<L(!new), G(!new)>(ring: seq<Tid>, pages: seq<Pages.Page>, local: Tid -> L, g: G) returns (s: Rt<L, G>)
    requires Distinct(ring) && ring != [] && forall t :: t in ring ==> t >= 0
    ensures Initial(s) && s.ph.ring == ring && s.ph.f == F.StartFence(P.Alone(ring[0]), Elements(ring[1..]))
    ensures s.mem.sh.share == pages && s.mem.g == g && forall t :: t in ring ==> t in s.mem.th && s.mem.th[t].st == local(t)
  {
    var ph := P.Begins(ring);
    var m := MemoryBegins(ring, pages, local, g);
    s := Rt(ph, m);
  }

  lemma MemoryBegins<L(!new), G(!new)>(ring: seq<Tid>, pages: seq<Pages.Page>, local: Tid -> L, g: G) returns (m: Sys<L, G>)
    requires Distinct(ring) && forall t :: t in ring ==> t >= 0
    ensures Machine.Initial(m) && !m.began && m.ring == ring && m.sh.share == pages && m.g == g
    ensures forall t :: t in m.th <==> t in ring
    ensures forall t :: t in ring ==> m.th[t].st == local(t)
  {
    var none := seq(|pages|, _ => 0);
    var sh := TwinCommit.Shared(pages, none, none, none, map[], 1, false);
    m := Sys(sh, map t | t in ring :: Thread(local(t), map[], false), ring, 0, false, 0, g);
  }

  // ---------- memory steps are allowed ----------

  /** Outside the fence's arrivals: a thread in user code is in a parallel phase and has not arrived. */
  lemma UserMay<L(!new), G(!new)>(prog: Program<L, G>, s: Rt<L, G>, t: Tid)
    requires Inv(prog, s) && !s.mem.sh.overrun && t in s.mem.th && InRange(s.mem.sh, Next(prog, s.mem, t))
    requires P.StageOf(s.ph, t) == P.User
    ensures Machine.Enabled(prog, s.mem, t) && s.mem.pending == 0 && !s.ph.serial && t in s.ph.ring
  {
    P.OwnStage(s.ph, t);
    assert ThreadLink(prog, s, t);
  }

  lemma KnockerMay<L(!new), G(!new)>(prog: Program<L, G>, s: Rt<L, G>, t: Tid)
    requires Inv(prog, s) && !s.mem.sh.overrun && P.StageOf(s.ph, t) == P.ToSerial && !F.Inside(F.At(s.ph.f, t))
    ensures Machine.Enabled(prog, s.mem, t) && s.mem.pending == 0 && !s.ph.serial && t in s.ph.ring
    ensures Next(prog, s.mem, t).Sync?
  {
    P.OwnStage(s.ph, t);
    assert ThreadLink(prog, s, t);
  }

  lemma HolderMay<L(!new), G(!new)>(prog: Program<L, G>, s: Rt<L, G>, t: Tid)
    requires Inv(prog, s) && !s.mem.sh.overrun && t in s.mem.th && InRange(s.mem.sh, Next(prog, s.mem, t))
    requires P.StageOf(s.ph, t) == P.Holding
    ensures Machine.Enabled(prog, s.mem, t) && s.mem.pending > 0 && s.mem.began && t == s.mem.ring[0]
    ensures s.ph.serial && s.ph.pending > 0 && s.ph.ring != [] && s.ph.ring[0] == t
  {
    P.HolderFacts(s.ph, t);
    P.OwnStage(s.ph, t);
  }

  lemma TokenMay<L(!new), G(!new)>(prog: Program<L, G>, s: Rt<L, G>, t: Tid)
    requires Inv(prog, s) && !s.mem.sh.overrun && P.Enabled(s.ph, P.GetToken(t))
    ensures Machine.Enabled(prog, s.mem, t) && s.mem.pending > 0 && !s.mem.began && s.ph.serial
  {
    P.OwnStage(s.ph, t);
    assert P.Turns(s.ph, 0);
  }

  // ---------- threads that take no step ----------

  lemma OtherLink<L(!new), G(!new)>(prog: Program<L, G>, s: Rt<L, G>, r: Rt<L, G>, u: Tid)
    requires Steady(prog) && P.Inv(s.ph) && u in s.mem.th && ThreadLink(prog, s, u) && u in r.mem.th && r.mem.th[u] == s.mem.th[u]
    requires P.StageOf(r.ph, u) == P.StageOf(s.ph, u) && F.At(r.ph.f, u) == F.At(s.ph.f, u)
    requires s.ph.serial || r.mem.sh.share == s.mem.sh.share
    requires s.ph.serial && !r.ph.serial ==> P.StageOf(s.ph, u) != P.ToSerial
    ensures ThreadLink(prog, r, u)
  {
    if P.StageOf(s.ph, u) == P.ToSerial && !F.Inside(F.At(s.ph.f, u)) {
      P.OwnStage(s.ph, u);
      var l, v := s.mem.th[u].st, View(s.mem.sh, s.mem.th[u].dirty);
      assert View(r.mem.sh, r.mem.th[u].dirty) == v;
      assert prog(u, l, v, s.mem.g).Sync? ==> prog(u, l, v, r.mem.g) == prog(u, l, v, s.mem.g);
    }
  }

  /** What a memory step of t leaves alone. */
  ghost predicate OnlyBy<L(!new), G(!new)>(m: Sys<L, G>, r: Sys<L, G>, t: Tid) {
    && (forall u :: u in r.th <==> u in m.th)
    && (forall u :: u in m.th && u != t ==> r.th[u] == m.th[u])
  }

  // ---------- steps of the parallel phase ----------

  lemma StoreLink<L(!new), G(!new)>(prog: Program<L, G>, cores: int, s: Rt<L, G>, t: Tid)
    requires Inv(prog, s) && Enabled(prog, s, Go(t)) && P.StageOf(s.ph, t) == P.User && !Next(prog, s.mem, t).Sync?
    ensures Linked(prog, Step(prog, cores, s, Go(t)))
  {
    var r := Step(prog, cores, s, Go(t));
    UserMay(prog, s, t);
    assert OnlyBy(s.mem, r.mem, t) && r.mem.th[t].waiting == s.mem.th[t].waiting;
    forall u | u in r.mem.th ensures ThreadLink(prog, r, u) {
      assert ThreadLink(prog, s, u);
      if u != t { OtherLink(prog, s, r, u); }
    }
  }

  // ---------- regions of waitFence ----------

  /** The last arrival at the fence is the last thread the memory has been waiting for. */
  lemma LastArrival<L(!new), G(!new)>(prog: Program<L, G>, s: Rt<L, G>, g: F.Fence, t: Tid, o: F.Outcome)
    requires Inv(prog, s) && !s.ph.serial && t in s.ph.ring && F.Inv(g) && F.Results(s.ph.f, g, t, o)
    requires o == F.Opens || o == F.Arrives
    ensures o == F.Opens <==> forall u :: u in s.ph.ring && u != t ==> s.mem.th[u].waiting
  {
    if o == F.Opens {
      forall u | u in s.ph.ring && u != t ensures s.mem.th[u].waiting {
        assert u in s.ph.f.counted && P.Fits(s.ph, u) && ThreadLink(prog, s, u);
      }
    } else {
      assert F.Insiders(g) != g.counted;
      var u :| u in g.counted && u !in F.Insiders(g);
      assert u != t && P.Fits(s.ph, u) && ThreadLink(prog, s, u);
    }
  }

  /** What a region does to the phase machine: thread t's stage, and the phase if the fence opens. */
  ghost predicate Crossed(ph: P.State, r: P.State, t: Tid, st: P.Stage, o: F.Outcome) {
    && F.Inv(r.f) && F.Results(ph.f, r.f, t, o) && r.ring == ph.ring
    && (forall u :: u in r.stage <==> u in ph.stage) && t in ph.stage
    && (forall u :: u in ph.stage && u != t ==> r.stage[u] == ph.stage[u])
    && r.stage[t] == (if F.At(r.f, t) == F.Out then P.After(st) else st)
    && r.serial == (if o == F.Opens then !ph.serial else ph.serial)
    && r.pending == (if o == F.Opens && !ph.serial then |ph.ring| else ph.pending)
  }

  lemma Crosses(ph: P.State, cores: int, e: F.Event, st: P.Stage) returns (o: F.Outcome)
    requires P.Inv(ph) && (e.Enter? || P.FenceMove(e)) && F.Enabled(ph.f, e) && P.Crossing(ph, e.t, st)
    ensures Crossed(ph, P.WithFence(ph, F.Step(ph.f, cores, e), e.t, st), e.t, st, o)
  {
    F.StepCorrect(ph.f, cores, e);
    o := F.StepResult(ph.f, cores, e);
  }

  ghost predicate Arrived<L(!new), G(!new)>(m: Sys<L, G>, r: Sys<L, G>, t: Tid) {
    && OnlyBy(m, r, t) && t in m.th && r.th[t].waiting && r.ring == m.ring && r.sh == m.sh
    && var all := forall u :: u in m.ring && u != t ==> u in m.th && m.th[u].waiting;
       r.pending == (if all then |m.ring| else m.pending) && r.began == (if all then false else m.began)
  }

  lemma ArriveEffect<L(!new), G(!new)>(prog: Program<L, G>, m: Sys<L, G>, t: Tid)
    requires Machine.Enabled(prog, m, t) && m.pending == 0 && Next(prog, m, t).Sync?
    ensures Arrived(m, Machine.Step(prog, false, m, t), t)
  {
    var a := Next(prog, m, t);
    var r := m.(th := m.th[t := m.th[t].(waiting := true, st := a.next)]);
    assert AllWaiting(r) <==> forall u :: u in m.ring && u != t ==> u in m.th && m.th[u].waiting;
  }

  /** A thread comes to the fence before the serial phase. */
  lemma ArriveLink<L(!new), G(!new)>(prog: Program<L, G>, s: Rt<L, G>, r: Rt<L, G>, t: Tid, o: F.Outcome)
    requires Inv(prog, s) && P.Inv(r.ph) && !s.ph.serial && t in s.ph.ring && (o == F.Opens || o == F.Arrives)
    requires Crossed(s.ph, r.ph, t, P.ToSerial, o) && Arrived(s.mem, r.mem, t)
    ensures Linked(prog, r)
  {
    LastArrival(prog, s, r.ph.f, t, o);
    forall u | u in r.mem.th ensures ThreadLink(prog, r, u) {
      assert ThreadLink(prog, s, u);
      if u != t { OtherLink(prog, s, r, u); }
    }
    BeganFalse(s.ph, r.ph, t);
  }

  /** A region leaves no thread holding the token that did not hold it before. */
  lemma BeganFalse(ph: P.State, r: P.State, t: Tid)
    requires P.Inv(ph) && P.Inv(r) && r.ring == ph.ring && P.StageOf(ph, t) != P.Holding && P.StageOf(r, t) != P.Holding
    requires forall u :: u != t ==> P.StageOf(r, u) == P.StageOf(ph, u)
    ensures Begun(r) <==> Begun(ph)
  {
    if |ph.ring| > 0 {
      if P.StageOf(ph, ph.ring[0]) == P.Holding { P.PhaseSeparation(ph, ph.ring[0], t); P.PhaseSeparation(r, ph.ring[0], t); }
    }
  }

  /** Any other region: the memory takes no part. */
  lemma RegionLink<L(!new), G(!new)>(prog: Program<L, G>, s: Rt<L, G>, r: Rt<L, G>, t: Tid, st: P.Stage, o: F.Outcome)
    requires Inv(prog, s) && P.Inv(r.ph) && P.Crossing(s.ph, t, st) && r.mem == s.mem
    requires Crossed(s.ph, r.ph, t, st, o)
    requires o == F.Opens || o == F.Arrives ==> st == P.ToParallel && s.ph.serial
    requires P.StageOf(s.ph, t) == P.User ==> Next(prog, s.mem, t).Sync?
    ensures Linked(prog, r)
  {
    assert P.Fits(s.ph, t) && P.Fits(r.ph, t) && ThreadLink(prog, s, t);
    forall u | u in r.mem.th ensures ThreadLink(prog, r, u) {
      assert ThreadLink(prog, s, u);
      if u != t {
        if o == F.Opens && P.StageOf(s.ph, u) == P.ToSerial { P.OwnStage(s.ph, u); }
        OtherLink(prog, s, r, u);
      }
    }
    BeganFalse(s.ph, r.ph, t);
  }

  /** One step, whole: the invariant stays, and a memory step is one that the commit protocol allows. */
  ghost predicate Correct<L(!new), G(!new)>(prog: Program<L, G>, cores: int, s: Rt<L, G>, e: Event) {
    && Inv(prog, Step(prog, cores, s, e))
    && (Touches(prog, s, e, NextPhase(prog, cores, s, e)) ==> Machine.Enabled(prog, s.mem, e.t))
  }

  /** The two halves keep their own invariants if the memory steps are allowed. */
  lemma HalvesKeepInv<L(!new), G(!new)>(prog: Program<L, G>, cores: int, s: Rt<L, G>, e: Event)
    requires Inv(prog, s) && (Phase(prog, s, e).Drives? ==> P.Enabled(s.ph, Phase(prog, s, e).e))
    requires Touches(prog, s, e, NextPhase(prog, cores, s, e)) ==> Machine.Enabled(prog, s.mem, e.t)
    ensures var r := Step(prog, cores, s, e); P.Inv(r.ph) && Machine.Inv(r.mem) && TwinCommit.WellFormed(r.mem.sh)
  {
    var d := Phase(prog, s, e);
    if d.Drives? { P.StepKeepsInv(s.ph, cores, d.e); }
    if Touches(prog, s, e, NextPhase(prog, cores, s, e)) {
      Machine.StepKeepsInv(prog, s.mem, e.t);
      StepCounts(prog, s.mem, e.t);
    }
  }

  /** A region crosses, and whether thread t arrives shows in its outcome. */
  lemma CrossOutcome(ph: P.State, r: P.State, t: Tid, st: P.Stage, o: F.Outcome)
    requires P.Inv(ph) && P.Inv(r) && P.Crossing(ph, t, st) && Crossed(ph, r, t, st, o)
    ensures Arrives(ph.f, r.f, t) <==> o == F.Opens || o == F.Arrives
    ensures o == F.Opens || o == F.Arrives ==> (st == P.ToParallel <==> ph.serial)
  {
    assert P.Fits(ph, t) && P.Fits(r, t);
  }

  lemma SyncCorrect<L(!new), G(!new)>(prog: Program<L, G>, cores: int, s: Rt<L, G>, t: Tid)
    requires Inv(prog, s) && Enabled(prog, s, Go(t)) && P.StageOf(s.ph, t) == P.User && Next(prog, s.mem, t).Sync?
    ensures Correct(prog, cores, s, Go(t))
  {
    var e, r := Go(t), Step(prog, cores, s, Go(t));
    UserMay(prog, s, t);
    P.OwnStage(s.ph, t);
    HalvesKeepInv(prog, cores, s, e);
    var o := Crosses(s.ph, cores, F.Enter(t), P.ToSerial);
    CrossOutcome(s.ph, r.ph, t, P.ToSerial, o);
    if o == F.Opens || o == F.Arrives {
      ArriveEffect(prog, s.mem, t);
      ArriveLink(prog, s, r, t, o);
    } else {
      RegionLink(prog, s, r, t, P.ToSerial, o);
    }
  }

  lemma KnockerCorrect<L(!new), G(!new)>(prog: Program<L, G>, cores: int, s: Rt<L, G>, t: Tid, g: F.Event, o: F.Outcome)
    requires Inv(prog, s) && Enabled(prog, s, Region(t, g)) && P.StageOf(s.ph, t) == P.ToSerial
    requires Crossed(s.ph, NextPhase(prog, cores, s, Region(t, g)), t, P.ToSerial, o) && (o == F.Opens || o == F.Arrives)
    ensures Correct(prog, cores, s, Region(t, g))
  {
    KnockerMay(prog, s, t);
    HalvesKeepInv(prog, cores, s, Region(t, g));
    ArriveEffect(prog, s.mem, t);
    ArriveLink(prog, s, Step(prog, cores, s, Region(t, g)), t, o);
  }

  lemma RegionCorrect<L(!new), G(!new)>(prog: Program<L, G>, cores: int, s: Rt<L, G>, t: Tid, g: F.Event)
    requires Inv(prog, s) && Enabled(prog, s, Region(t, g))
    ensures Correct(prog, cores, s, Region(t, g))
  {
    var e, st := Region(t, g), P.StageOf(s.ph, t);
    var r := Step(prog, cores, s, e);
    assert t in s.ph.stage && P.Fits(s.ph, t);
    P.InFenceKeepsInv(s.ph, cores, g);
    var o := Crosses(s.ph, cores, g, st);
    CrossOutcome(s.ph, r.ph, t, st, o);
    if (o == F.Opens || o == F.Arrives) && st == P.ToSerial {
      KnockerCorrect(prog, cores, s, t, g, o);
    } else {
      RegionLink(prog, s, r, t, st, o);
    }
  }

  lemma AgainCorrect<L(!new), G(!new)>(prog: Program<L, G>, cores: int, s: Rt<L, G>, t: Tid)
    requires Inv(prog, s) && Enabled(prog, s, Again(t))
    ensures Correct(prog, cores, s, Again(t))
  {
    var r := Step(prog, cores, s, Again(t));
    P.OwnStage(s.ph, t);
    HalvesKeepInv(prog, cores, s, Again(t));
    var o := Crosses(s.ph, cores, F.Enter(t), P.ToParallel);
    CrossOutcome(s.ph, r.ph, t, P.ToParallel, o);
    RegionLink(prog, s, r, t, P.ToParallel, o);
  }

  // ---------- steps under the token ----------

  /** What the memory step of the token holder does; `began` is about the next turn once the turn is over. */
  ghost predicate Held<L(!new), G(!new)>(m: Sys<L, G>, r: Sys<L, G>, t: Tid, ring: seq<Tid>, pending: nat, began: bool) {
    && OnlyBy(m, r, t) && t in m.th && (r.th[t].waiting ==> m.th[t].waiting)
    && r.ring == ring && r.pending == pending && r.began == began
  }

  /** A step that leaves the phase machine's other threads alone. */
  lemma HeldLink<L(!new), G(!new)>(prog: Program<L, G>, s: Rt<L, G>, r: Rt<L, G>, t: Tid)
    requires Inv(prog, s) && P.Inv(r.ph) && s.ph.serial
    requires OnlyBy(s.mem, r.mem, t) && t in s.mem.th && !r.mem.th[t].waiting
    requires r.mem.ring == r.ph.ring && r.mem.pending == r.ph.pending && (r.mem.began <==> Begun(r.ph))
    requires t in s.ph.stage && forall u :: u in r.ph.stage <==> u in s.ph.stage
    requires P.StageOf(r.ph, t) != P.ToSerial && r.ph.f.pc == s.ph.f.pc
    requires forall u :: u != t && u in s.ph.stage ==>
               r.ph.stage[u] == s.ph.stage[u] || (s.ph.stage[u] == P.Asleep && r.ph.stage[u] != P.ToSerial)
    requires !r.ph.serial ==> forall u :: u in s.ph.stage && u != t ==> s.ph.stage[u] != P.ToSerial
    ensures Linked(prog, r)
  {
    forall u | u in r.mem.th ensures ThreadLink(prog, r, u) {
      assert ThreadLink(prog, s, u);
      if u != t && r.ph.stage[u] == s.ph.stage[u] { OtherLink(prog, s, r, u); }
    }
  }

  lemma TokenCorrect<L(!new), G(!new)>(prog: Program<L, G>, cores: int, s: Rt<L, G>, t: Tid)
    requires Inv(prog, s) && Enabled(prog, s, Token(t))
    ensures Correct(prog, cores, s, Token(t))
  {
    TokenMay(prog, s, t);
    HalvesKeepInv(prog, cores, s, Token(t));
    TokenEffect(prog, s.mem, t);
    TokenStays(s.ph, cores, t);
    HeldLink(prog, s, Step(prog, cores, s, Token(t)), t);
  }

  lemma TokenEffect<L(!new), G(!new)>(prog: Program<L, G>, m: Sys<L, G>, t: Tid)
    requires Machine.Enabled(prog, m, t) && m.pending > 0 && !m.began && TwinCommit.WellFormed(m.sh)
    ensures Held(m, Machine.Step(prog, false, m, t), t, m.ring, m.pending, true) && !Machine.Step(prog, false, m, t).th[t].waiting
  {
  }

  lemma TokenStays(ph: P.State, cores: int, t: Tid)
    requires P.Inv(ph) && P.Enabled(ph, P.GetToken(t)) && ph.pending > 0
    ensures var r := P.Step(ph, cores, P.GetToken(t));
            && r.serial == ph.serial && r.f == ph.f && r.ring == ph.ring && r.pending == ph.pending && Begun(r)
            && t in ph.stage && r.stage == ph.stage[t := P.Holding]
  {
    P.OwnStage(ph, t);
  }

  lemma HolderStep<L(!new), G(!new)>(prog: Program<L, G>, cores: int, s: Rt<L, G>, t: Tid)
    requires Inv(prog, s) && Enabled(prog, s, Go(t)) && P.StageOf(s.ph, t) == P.Holding
    ensures Machine.Enabled(prog, s.mem, t) && s.mem.began
    ensures s.ph.serial && s.ph.pending > 0 && s.ph.ring != [] && s.ph.ring[0] == t && t in s.ph.stage
    ensures |s.mem.ring| > 0 && s.mem.pending > 0
    ensures Step(prog, cores, s, Go(t)).mem == DoTurn(false, s.mem, t, Next(prog, s.mem, t))
    ensures var r := Step(prog, cores, s, Go(t)); P.Inv(r.ph) && Machine.Inv(r.mem) && TwinCommit.WellFormed(r.mem.sh)
  {
    HolderMay(prog, s, t);
    HalvesKeepInv(prog, cores, s, Go(t));
  }

  /** What the token holder may do without fence or token. */
  lemma StayCorrect<L(!new), G(!new)>(prog: Program<L, G>, cores: int, s: Rt<L, G>, t: Tid)
    requires Inv(prog, s) && Enabled(prog, s, Go(t)) && P.StageOf(s.ph, t) == P.Holding
    requires Phase(prog, s, Go(t)) == Nothing
    ensures Correct(prog, cores, s, Go(t))
  {
    HolderStep(prog, cores, s, t);
    assert ThreadLink(prog, s, t);
    SameSleepers(prog, s, t);
    StayEffect(s.mem, t, Next(prog, s.mem, t));
    HeldLink(prog, s, Step(prog, cores, s, Go(t)), t);
  }

  lemma StayEffect<L(!new), G(!new)>(m: Sys<L, G>, t: Tid, a: Action<L, G>)
    requires TwinCommit.WellFormed(m.sh) && t in m.th && m.pending > 0 && |m.ring| > 0 && m.ring[0] == t && InRange(m.sh, a)
    requires a.Store? || a.Access? || a.Sync? || a.Publish? || (a.Wake? && !Sleeping(m, a.who))
    ensures Held(m, DoTurn(false, m, t, a), t, m.ring, m.pending, m.began)
  {
  }

  lemma SameSleepers<L(!new), G(!new)>(prog: Program<L, G>, s: Rt<L, G>, t: Tid)
    requires Inv(prog, s)
    ensures forall who: seq<Tid> :: P.Sleepers(s.ph, who) <==> Sleeping(s.mem, who)
  {
    forall who: seq<Tid> ensures P.Sleepers(s.ph, who) <==> Sleeping(s.mem, who) {
      if Sleeping(s.mem, who) {
        forall u | u in who ensures P.StageOf(s.ph, u) == P.Asleep && u in s.ph.stage { assert u in s.mem.th; }
      } else if P.Sleepers(s.ph, who) {
        forall u | u in who ensures u !in s.ph.ring { P.SleepersOutside(s.ph, who, u); }
      }
    }
  }

  /** The phase machine after the turn of t. */
  ghost predicate TurnOver(ph: P.State, r: P.State, t: Tid, ring: seq<Tid>) {
    && r.ring == ring && ph.pending > 0 && r.pending == ph.pending - 1 && r.f.pc == ph.f.pc
    && (r.stage == ph.stage[t := P.Passed] || r.stage == ph.stage[t := P.Asleep])
    && (!r.serial ==> forall u :: u in ph.stage && u != t ==> ph.stage[u] != P.ToSerial)
  }

  lemma PutTokenEnds(ph: P.State, cores: int, t: Tid)
    requires P.Inv(ph) && P.Enabled(ph, P.PutToken(t))
    ensures TurnOver(ph, P.Step(ph, cores, P.PutToken(t)), t, ph.ring[1..] + [t])
  {
    P.HolderFacts(ph, t);
  }

  lemma SleepEnds(ph: P.State, cores: int, t: Tid)
    requires P.Inv(ph) && P.Enabled(ph, P.Sleep(t))
    ensures TurnOver(ph, P.Step(ph, cores, P.Sleep(t)), t, ph.ring[1..])
  {
    P.HolderFacts(ph, t);
    var r := P.Step(ph, cores, P.Sleep(t));
    forall u | !r.serial && u in ph.stage && u != t ensures ph.stage[u] != P.ToSerial {
      if ph.stage[u] == P.ToSerial {
        P.OwnStage(ph, u);
        var i :| 0 <= i < |ph.ring| && ph.ring[i] == u;
        P.SleepOpens(ph, t, i);
      }
    }
  }

  lemma TurnOverLink<L(!new), G(!new)>(prog: Program<L, G>, s: Rt<L, G>, r: Rt<L, G>, t: Tid, ring: seq<Tid>)
    requires Inv(prog, s) && P.Inv(r.ph) && P.StageOf(s.ph, t) == P.Holding && s.ph.serial && t in s.ph.stage
    requires TurnOver(s.ph, r.ph, t, ring) && Held(s.mem, r.mem, t, ring, s.mem.pending - 1, false) && !r.mem.th[t].waiting
    ensures Linked(prog, r)
  {
    NobodyHolds(s.ph, r.ph, t);
    HeldLink(prog, s, r, t);
  }

  /** The turn ends with the token passed on. */
  lemma PutTokenCorrect<L(!new), G(!new)>(prog: Program<L, G>, cores: int, s: Rt<L, G>, t: Tid)
    requires Inv(prog, s) && Enabled(prog, s, Go(t)) && P.StageOf(s.ph, t) == P.Holding
    requires Phase(prog, s, Go(t)) == Drives(P.PutToken(t))
    ensures Correct(prog, cores, s, Go(t))
  {
    HolderStep(prog, cores, s, t);
    SameSleepers(prog, s, t);
    EndTurnEffect(s.mem, t, Next(prog, s.mem, t));
    PutTokenEnds(s.ph, cores, t);
    TurnOverLink(prog, s, Step(prog, cores, s, Go(t)), t, s.ph.ring[1..] + [t]);
  }

  /** The turn ends with the holder asleep. */
  lemma SleepCorrect<L(!new), G(!new)>(prog: Program<L, G>, cores: int, s: Rt<L, G>, t: Tid)
    requires Inv(prog, s) && Enabled(prog, s, Go(t)) && P.StageOf(s.ph, t) == P.Holding
    requires Phase(prog, s, Go(t)) == Drives(P.Sleep(t))
    ensures Correct(prog, cores, s, Go(t))
  {
    HolderStep(prog, cores, s, t);
    EndTurnEffect(s.mem, t, Next(prog, s.mem, t));
    SleepEnds(s.ph, cores, t);
    TurnOverLink(prog, s, Step(prog, cores, s, Go(t)), t, s.ph.ring[1..]);
  }

  /** When the holder's turn is over nobody holds the token. */
  lemma NobodyHolds(ph: P.State, r: P.State, t: Tid)
    requires P.Inv(ph) && P.StageOf(ph, t) == P.Holding
    requires forall u :: P.StageOf(r, u) == P.Holding ==> P.StageOf(ph, u) == P.Holding && u != t
    ensures !Begun(r)
  {
    if Begun(r) { P.PhaseSeparation(ph, t, r.ring[0]); }
  }

  lemma EndTurnEffect<L(!new), G(!new)>(m: Sys<L, G>, t: Tid, a: Action<L, G>)
    requires TwinCommit.WellFormed(m.sh) && t in m.th && m.pending > 0 && |m.ring| > 0 && m.ring[0] == t
    requires a.Release? || a.Sleep? || (a.Gather? && !Alone(m, a.who))
    ensures Held(m, DoTurn(false, m, t, a), t, if a.Sleep? then m.ring[1..] else m.ring[1..] + [t], m.pending - 1, false)
    ensures !DoTurn(false, m, t, a).th[t].waiting
  {
    if a.Gather? { SerialGather(false, m, t, a); }
  }

  /** Sleepers come in behind the holder. */
  lemma WakeCorrect<L(!new), G(!new)>(prog: Program<L, G>, cores: int, s: Rt<L, G>, t: Tid, who: seq<Tid>)
    requires Inv(prog, s) && Enabled(prog, s, Go(t)) && P.StageOf(s.ph, t) == P.Holding
    requires Phase(prog, s, Go(t)) == Drives(P.Wake(t, who))
    ensures Correct(prog, cores, s, Go(t))
  {
    HolderStep(prog, cores, s, t);
    SameSleepers(prog, s, t);
    WakeEffect(s.mem, t, Next(prog, s.mem, t));
    WakeStays(s.ph, cores, t, who);
    WakeLink(prog, s, Step(prog, cores, s, Go(t)), t, who);
  }

  lemma WakeLink<L(!new), G(!new)>(prog: Program<L, G>, s: Rt<L, G>, r: Rt<L, G>, t: Tid, who: seq<Tid>)
    requires Inv(prog, s) && P.Inv(r.ph) && s.ph.serial && P.StageOf(s.ph, t) == P.Holding && t in s.ph.stage && s.mem.began
    requires |s.mem.ring| > 0 && Held(s.mem, r.mem, t, [t] + who + s.mem.ring[1..], s.mem.pending + |who|, true) && !r.mem.th[t].waiting
    requires P.Sleepers(s.ph, who) && t !in who && r.ph.stage == P.StageAll(s.ph.stage, who, P.AwaitToken)
    requires r.ph.serial && r.ph.f.pc == s.ph.f.pc && r.ph.ring == r.mem.ring && r.ph.pending == r.mem.pending && Begun(r.ph)
    ensures Linked(prog, r)
  {
    HeldLink(prog, s, r, t);
  }

  lemma WakeEffect<L(!new), G(!new)>(m: Sys<L, G>, t: Tid, a: Action<L, G>)
    requires TwinCommit.WellFormed(m.sh) && t in m.th && m.pending > 0 && |m.ring| > 0 && m.ring[0] == t
    requires a.Wake? && Sleeping(m, a.who)
    ensures Held(m, DoTurn(false, m, t, a), t, [t] + a.who + m.ring[1..], m.pending + |a.who|, m.began)
    ensures !DoTurn(false, m, t, a).th[t].waiting
  {
  }

  lemma WakeStays(ph: P.State, cores: int, t: Tid, who: seq<Tid>)
    requires P.Inv(ph) && P.Enabled(ph, P.Wake(t, who))
    ensures var r := P.Step(ph, cores, P.Wake(t, who));
            && r.serial && r.f.pc == ph.f.pc && r.ring == [t] + who + ph.ring[1..] && r.pending == ph.pending + |who|
            && Begun(r) && r.stage == P.StageAll(ph.stage, who, P.AwaitToken) && t !in who
  {
    P.HolderFacts(ph, t);
    P.AwakeCounts(ph, who);
    if t in who { P.SleepersOutside(ph, who, t); }
  }

  /** The last thread at a full barrier: everybody runs on at once. */
  lemma GatherCorrect<L(!new), G(!new)>(prog: Program<L, G>, cores: int, s: Rt<L, G>, t: Tid, who: seq<Tid>)
    requires Inv(prog, s) && Enabled(prog, s, Go(t)) && P.StageOf(s.ph, t) == P.Holding
    requires Phase(prog, s, Go(t)) == Drives(P.Gather(t, who))
    ensures Correct(prog, cores, s, Go(t))
  {
    HolderStep(prog, cores, s, t);
    SameSleepers(prog, s, t);
    GatherEffect(s.mem, t, Next(prog, s.mem, t));
    GatherStays(s.ph, cores, t, who);
    HeldLink(prog, s, Step(prog, cores, s, Go(t)), t);
  }

  lemma GatherEffect<L(!new), G(!new)>(m: Sys<L, G>, t: Tid, a: Action<L, G>)
    requires TwinCommit.WellFormed(m.sh) && t in m.th && m.pending > 0 && |m.ring| > 0 && m.ring[0] == t
    requires a.Gather? && Alone(m, a.who)
    ensures Held(m, DoTurn(false, m, t, a), t, a.who + [t], 0, false)
    ensures !DoTurn(false, m, t, a).th[t].waiting
  {
    SerialGather(false, m, t, a);
  }

  lemma GatherStays(ph: P.State, cores: int, t: Tid, who: seq<Tid>)
    requires P.Inv(ph) && P.Enabled(ph, P.Gather(t, who))
    ensures var r := P.Step(ph, cores, P.Gather(t, who));
            && !r.serial && r.f.pc == ph.f.pc && r.ring == who + [t] && r.pending == 0
            && r.stage == P.StageAll(ph.stage, [t] + who, P.User)
    ensures forall u :: u in ph.stage && u != t ==> ph.stage[u] == P.Asleep
  {
    P.AwakeCounts(ph, who);
  }

  lemma GoCorrect<L(!new), G(!new)>(prog: Program<L, G>, cores: int, s: Rt<L, G>, t: Tid)
    requires Inv(prog, s) && Enabled(prog, s, Go(t))
    ensures Correct(prog, cores, s, Go(t))
  {
    if P.StageOf(s.ph, t) == P.User {
      if !Next(prog, s.mem, t).Sync? {
        UserMay(prog, s, t);
        HalvesKeepInv(prog, cores, s, Go(t));
        StoreLink(prog, cores, s, t);
      } else {
        SyncCorrect(prog, cores, s, t);
      }
    } else {
      var d := Phase(prog, s, Go(t));
      if d == Nothing { StayCorrect(prog, cores, s, t); }
      else if d.e.Wake? { WakeCorrect(prog, cores, s, t, d.e.who); }
      else if d.e.Gather? { GatherCorrect(prog, cores, s, t, d.e.who); }
      else if d.e.Sleep? { SleepCorrect(prog, cores, s, t); }
      else { PutTokenCorrect(prog, cores, s, t); }
    }
  }

  /** Every step keeps the invariant, and its memory step is one the commit protocol allows. */
  lemma StepCorrect<L(!new), G(!new)>(prog: Program<L, G>, cores: int, s: Rt<L, G>, e: Event)
    requires Inv(prog, s) && Enabled(prog, s, e)
    ensures Correct(prog, cores, s, e)
  {
    match e
    case Go(t) => GoCorrect(prog, cores, s, t);
    case Region(t, g) => RegionCorrect(prog, cores, s, t, g);
    case Token(t) => TokenCorrect(prog, cores, s, t);
    case Again(t) => AgainCorrect(prog, cores, s, t);
  }

  // ---------- runs ----------

  lemma RunKeepsInv<L(!new), G(!new)>(prog: Program<L, G>, cores: int, s: Rt<L, G>, run: seq<Event>)
    requires Inv(prog, s) && Valid(System(prog, cores), s, run)
    ensures Inv(prog, Exec(System(prog, cores), s, run))
  {
    var r := System(prog, cores);
    forall q, e | Inv(prog, q) && r.enabled(q, e) ensures Inv(prog, r.step(q, e)) {
      StepCorrect(prog, cores, q, e);
    }
    RunPreserves(r, (q: Rt<L, G>) => Inv(prog, q), s, run);
  }

  /** The threads whose steps touched the memory, in order. */
  ghost function Schedule<L(!new), G(!new)>(prog: Program<L, G>, cores: int, s: Rt<L, G>, run: seq<Event>): seq<Tid>
    decreases |run|
  {
    if run == [] then [] else
      var rest := Schedule(prog, cores, Step(prog, cores, s, run[0]), run[1..]);
      if Touches(prog, s, run[0], NextPhase(prog, cores, s, run[0])) then [run[0].t] + rest else rest
  }

  /** In any interleaving of fence regions, spins, token steps and program actions, what happens to the memory is a
      run of the commit protocol's machine: the fence and the token give it the phases and the turns it needs. */
  lemma {:induction false} RunIsMachineRun<L(!new), G(!new)>(prog: Program<L, G>, cores: int, s: Rt<L, G>, run: seq<Event>)
    requires Inv(prog, s) && Valid(System(prog, cores), s, run)
    ensures Valid(Machine.System(prog, false), s.mem, Schedule(prog, cores, s, run))
    ensures Exec(Machine.System(prog, false), s.mem, Schedule(prog, cores, s, run)) == Exec(System(prog, cores), s, run).mem
    decreases |run|
  {
    if run != [] {
      var e, rest, q := run[0], run[1..], Step(prog, cores, s, run[0]);
      StepCorrect(prog, cores, s, e);
      RunIsMachineRun(prog, cores, q, rest);
      var sched := Schedule(prog, cores, q, rest);
      if Touches(prog, s, e, NextPhase(prog, cores, s, e)) {
        assert ([e.t] + sched)[1..] == sched;
      }
    }
  }

  /** Conversely, nothing that a program does is lost on the way: each action of a thread in user code, or with the token,
      is a step of the memory, and so is taking the token; but a synchronisation in user code is to come. */
  lemma ActionsHappen<L(!new), G(!new)>(prog: Program<L, G>, cores: int, s: Rt<L, G>, e: Event)
    requires Inv(prog, s) && Enabled(prog, s, e)
    requires e.Token? || (e.Go? && !(P.StageOf(s.ph, e.t) == P.User && Next(prog, s.mem, e.t).Sync?))
    ensures Machine.Enabled(prog, s.mem, e.t) && Step(prog, cores, s, e).mem == Machine.Step(prog, false, s.mem, e.t)
  {
    StepCorrect(prog, cores, s, e);
  }

  /** It comes when the thread does to the fence before the serial phase; and that is all that happens to memory. */
  lemma ArrivalsHappen<L(!new), G(!new)>(prog: Program<L, G>, cores: int, s: Rt<L, G>, e: Event)
    requires Inv(prog, s) && Enabled(prog, s, e)
    requires e.Again? || e.Region? || (e.Go? && P.StageOf(s.ph, e.t) == P.User && Next(prog, s.mem, e.t).Sync?)
    ensures var r := Step(prog, cores, s, e);
            if !e.Again? && (P.StageOf(s.ph, e.t) == P.User || P.StageOf(s.ph, e.t) == P.ToSerial) && Arrives(s.ph.f, r.ph.f, e.t)
            then Machine.Enabled(prog, s.mem, e.t) && Next(prog, s.mem, e.t).Sync? && r.mem == Machine.Step(prog, false, s.mem, e.t)
            else r.mem == s.mem
  {
    StepCorrect(prog, cores, s, e);
    if e.Region? && P.StageOf(s.ph, e.t) == P.ToSerial && !F.Inside(F.At(s.ph.f, e.t)) { KnockerMay(prog, s, e.t); }
  }

  /** All steps of the run that touch the memory are good ones. */
  ghost predicate CalmRun<L(!new), G(!new)>(prog: Program<L, G>, cores: int, good: (Sys<L, G>, Tid) -> bool, s: Rt<L, G>, run: seq<Event>)
    decreases |run|
  {
    run != [] ==>
      && (Touches(prog, s, run[0], NextPhase(prog, cores, s, run[0])) ==> good(s.mem, run[0].t))
      && CalmRun(prog, cores, good, Step(prog, cores, s, run[0]), run[1..])
  }

  lemma {:induction false} CalmSchedule<L(!new), G(!new)>(prog: Program<L, G>, cores: int, good: (Sys<L, G>, Tid) -> bool, s: Rt<L, G>, run: seq<Event>)
    requires Inv(prog, s) && Valid(System(prog, cores), s, run) && CalmRun(prog, cores, good, s, run)
    ensures Valid(Calm(prog, good), s.mem, Schedule(prog, cores, s, run))
    ensures Exec(Calm(prog, good), s.mem, Schedule(prog, cores, s, run)) == Exec(System(prog, cores), s, run).mem
    decreases |run|
  {
    if run != [] {
      var e, rest, q := run[0], run[1..], Step(prog, cores, s, run[0]);
      StepCorrect(prog, cores, s, e);
      CalmSchedule(prog, cores, good, q, rest);
      var sched := Schedule(prog, cores, q, rest);
      if Touches(prog, s, e, NextPhase(prog, cores, s, e)) {
        assert ([e.t] + sched)[1..] == sched;
      }
    }
  }

  /** Determinism of the whole runtime: however the threads, their spins and their wake-ups interleave, between two
      serial phases the shared pages, versions and the ring depend only on the program, on the initial state and on
      the number of serial phases so far, if one of the two runs takes good steps only.  At the start of the parallel
      phase that they are in both have come through states that are alike. */
  lemma MemoryIsDeterministic<L(!new), G(!new)>(prog: Program<L, G>, cores: int, good: (Sys<L, G>, Tid) -> bool, w: Terms<L, G>,
                                                s: Rt<L, G>, a: seq<Event>, b: seq<Event>)
    returns (m: Sys<L, G>, n: Sys<L, G>, i: seq<Tid>, j: seq<Tid>)
    requires Initial(s) && Steady(prog) && Valid(System(prog, cores), s, a) && Valid(System(prog, cores), s, b)
    requires CalmRun(prog, cores, good, s, a) && Governs(prog, good, w) && Ready(w, s.mem) && w.alike(s.mem, s.mem)
    requires var x, y := Exec(System(prog, cores), s, a).mem, Exec(System(prog, cores), s, b).mem;
             x.pending == 0 && y.pending == 0 && x.round == y.round
    ensures var x, y := Exec(System(prog, cores), s, a).mem, Exec(System(prog, cores), s, b).mem;
            && SameButUsers(x.sh, y.sh) && x.ring == y.ring
            && w.inv(m) && w.inv(n) && w.alike(m, n) && InPhase(Calm(prog, good), m, i) && InPhase(Calm(prog, AnyStep()), n, j)
            && x == Exec(Calm(prog, good), m, i) && y == Exec(Calm(prog, AnyStep()), n, j)
  {
    InitialInv(prog, s);
    CalmSchedule(prog, cores, good, s, a);
    AnySchedule(prog, cores, s, b);
    m, n, i, j := SharedMemoryAgrees(prog, good, w, s.mem, Schedule(prog, cores, s, a), Schedule(prog, cores, s, b));
  }

  lemma AnySchedule<L(!new), G(!new)>(prog: Program<L, G>, cores: int, s: Rt<L, G>, run: seq<Event>)
    requires Inv(prog, s) && Valid(System(prog, cores), s, run)
    ensures Valid(Calm(prog, AnyStep()), s.mem, Schedule(prog, cores, s, run))
    ensures Exec(Calm(prog, AnyStep()), s.mem, Schedule(prog, cores, s, run)) == Exec(System(prog, cores), s, run).mem
  {
    RunIsMachineRun(prog, cores, s, run);
    AnyValid(prog, s.mem, Schedule(prog, cores, s, run));
  }

  /** A step that changes shared pages is one by the token holder. */
  lemma WriterHolds<L(!new), G(!new)>(prog: Program<L, G>, cores: int, q: Rt<L, G>, e: Event)
    requires Inv(prog, q) && Enabled(prog, q, e) && Step(prog, cores, q, e).mem.sh.share != q.mem.sh.share
    ensures q.ph.pending > 0 && q.ph.serial && q.ph.ring != [] && q.ph.ring[0] == e.t
  {
    StepCorrect(prog, cores, q, e);
    SerialWrites(prog, q.mem, e.t);
  }

  lemma NobodyInUserCode(ph: P.State, u: Tid)
    requires P.Inv(ph) && ph.serial && ph.pending > 0
    ensures P.StageOf(ph, u) != P.User && (P.StageOf(ph, u) == P.Holding ==> u == ph.ring[0])
  {
    if P.StageOf(ph, u) != P.Asleep {
      P.OwnStage(ph, u);
      if P.StageOf(ph, u) == P.Holding { P.PhaseSeparation(ph, u, u); }
    }
  }

  /** Whenever the shared pages change, at the head of the ring the writer alone may hold the token, and no
      thread is in user code. */
  lemma CommitsAlone<L(!new), G(!new)>(prog: Program<L, G>, cores: int, s: Rt<L, G>, run: seq<Event>, q: Rt<L, G>, e: Event, u: Tid)
    requires Initial(s) && Steady(prog) && Valid(System(prog, cores), s, run) && q == Exec(System(prog, cores), s, run)
    requires Enabled(prog, q, e) && Step(prog, cores, q, e).mem.sh.share != q.mem.sh.share
    ensures P.StageOf(q.ph, u) != P.User && (P.StageOf(q.ph, u) == P.Holding ==> u == e.t)
    ensures q.ph.ring != [] && q.ph.ring[0] == e.t
  {
    InitialInv(prog, s);
    RunKeepsInv(prog, cores, s, run);
    WriterHolds(prog, cores, q, e);
    NobodyInUserCode(q.ph, u);
  }

  /** Shared pages change only under the token. */
  lemma SerialWrites<L(!new), G(!new)>(prog: Program<L, G>, m: Sys<L, G>, t: Tid)
    requires Machine.Enabled(prog, m, t) && m.pending <= |m.ring|
    requires Machine.Step(prog, false, m, t).sh.share != m.sh.share
    ensures m.pending > 0 && m.ring[0] == t
  {
  }
}
