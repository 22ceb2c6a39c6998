/** How long the twin slots last: they are handed out afresh after each serial phase, and within one no page takes a
    second slot. */
module Slots {
  import opened Counting
  import opened Runs
  import opened TwinCommit
  import opened Machine
  import Bitmap

  /** The pages that get a twin at the next step of t. */
  ghost function Twinned<L, G>(prog: Program<L, G>, s: Sys<L, G>, t: Tid): set<int>
    requires WellFormed(s.sh) && t in s.th
  {
    if s.pending > 0 && (!s.began || TakesCommit(Next(prog, s, t))) then Twinless(s.sh, s.th[t].dirty.Keys) else {}
  }

  /** A serial phase that goes on counts its twins, and a new phase starts to count anew. */
  lemma StepTakes<L, G>(prog: Program<L, G>, s: Sys<L, G>, t: Tid)
    requires Inv(s) && Enabled(prog, s, t) && HasRoom(prog, s, t)
    ensures var r := Step(prog, false, s, t);
            !r.sh.overrun && r.sh.cur == if r.pending == 0 then 1 else s.sh.cur + |Twinned(prog, s, t)|
  {
    StepKeepsInv(prog, s, t);
    OverrunsIff(prog, s, t);
    OverrunIff(s.sh, s.th[t].dirty);
    assert Twinless(s.sh, Below(s.th[t].dirty, |s.sh.share|)) == Twinless(s.sh, s.th[t].dirty.Keys);
    if s.pending > 0 && s.began { TurnTakes(s, t, Next(prog, s, t)); }
  }

  lemma TurnTakes<L, G>(s: Sys<L, G>, t: Tid, a: Action<L, G>)
    requires WellFormed(s.sh) && t in s.th && s.pending > 0 && |s.ring| > 0 && InRange(s.sh, a)
    ensures var r := DoTurn(false, s, t, a);
            r.pending != 0 ==> r.sh.cur == if TakesCommit(a) then Commit(s.sh, s.th[t].dirty).cur else s.sh.cur
  {
    if a.Gather? { SerialGather(false, s, t, a); }
  }

  /** How many pages have got a twin in this serial phase, after the step of t. */
  ghost function Counted<L, G>(prog: Program<L, G>, s: Sys<L, G>, t: Tid, used: nat): nat
    requires WellFormed(s.sh) && t in s.th
  {
    used + |Twinned(prog, s, t)|
  }

  /** The same, and none if a new phase has begun. */
  ghost function CountedOn<L, G>(prog: Program<L, G>, s: Sys<L, G>, t: Tid, used: nat): nat
    requires WellFormed(s.sh) && t in s.th
  {
    if Step(prog, false, s, t).pending == 0 then 0 else Counted(prog, s, t, used)
  }

  /** In no serial phase more pages get a twin than there are slots; in the one going on `used` have got one so far. */
  ghost predicate Frugal<L(!new), G(!new)>(prog: Program<L, G>, s: Sys<L, G>, sched: seq<Tid>, used: nat)
    requires Valid(System(prog, false), s, sched)
    decreases |sched|
  {
    sched == [] ||
      (Counted(prog, s, sched[0], used) <= Bitmap.LAST_SLOT
       && Frugal(prog, Step(prog, false, s, sched[0]), sched[1..], CountedOn(prog, s, sched[0], used)))
  }

  /** One step of the count. */
  lemma RoomStep<L, G>(prog: Program<L, G>, s: Sys<L, G>, t: Tid, used: nat)
    requires Inv(s) && Enabled(prog, s, t) && s.sh.cur == 1 + used && used <= Bitmap.LAST_SLOT
    ensures HasRoom(prog, s, t) <==> Counted(prog, s, t, used) <= Bitmap.LAST_SLOT
    ensures var r := Step(prog, false, s, t);
            HasRoom(prog, s, t) ==> Inv(r) && !r.sh.overrun && r.sh.cur == 1 + CountedOn(prog, s, t, used)
  {
    if HasRoom(prog, s, t) {
      StepKeepsInv(prog, s, t);
      StepTakes(prog, s, t);
    }
  }

  lemma {:induction false} RoomIsFrugal<L(!new), G(!new)>(prog: Program<L, G>, s: Sys<L, G>, sched: seq<Tid>, used: nat)
    requires Inv(s) && !s.sh.overrun && s.sh.cur == 1 + used && used <= Bitmap.LAST_SLOT
    requires Valid(System(prog, false), s, sched) && RunHasRoom(prog, s, sched)
    ensures Frugal(prog, s, sched, used)
    decreases |sched|
  {
    if sched != [] {
      RoomStep(prog, s, sched[0], used);
      RoomIsFrugal(prog, Step(prog, false, s, sched[0]), sched[1..], CountedOn(prog, s, sched[0], used));
    }
  }

  lemma {:induction false} FrugalHasRoom<L(!new), G(!new)>(prog: Program<L, G>, s: Sys<L, G>, sched: seq<Tid>, used: nat)
    requires Inv(s) && !s.sh.overrun && s.sh.cur == 1 + used && used <= Bitmap.LAST_SLOT
    requires Valid(System(prog, false), s, sched) && Frugal(prog, s, sched, used)
    ensures RunHasRoom(prog, s, sched)
    decreases |sched|
  {
    if sched != [] {
      RoomStep(prog, s, sched[0], used);
      FrugalHasRoom(prog, Step(prog, false, s, sched[0]), sched[1..], CountedOn(prog, s, sched[0], used));
    }
  }

  /** A run never lacks a slot if and only if each of its serial phases, by itself, makes do with the slots there are. */
  lemma RoomIff<L(!new), G(!new)>(prog: Program<L, G>, s: Sys<L, G>, sched: seq<Tid>, used: nat)
    requires Inv(s) && !s.sh.overrun && s.sh.cur == 1 + used && used <= Bitmap.LAST_SLOT && Valid(System(prog, false), s, sched)
    ensures RunHasRoom(prog, s, sched) <==> Frugal(prog, s, sched, used)
  {
    if RunHasRoom(prog, s, sched) { RoomIsFrugal(prog, s, sched, used); }
    if Frugal(prog, s, sched, used) { FrugalHasRoom(prog, s, sched, used); }
  }

  // ---------- one twin for each page ----------

  /** Some other thread than h has yet to commit the page. */
  ghost predicate Awaits<L, G>(s: Sys<L, G>, h: int, p: int) {
    exists t :: t in s.th && t != h && p in s.th[t].dirty
  }

  /** The pages that may yet need a twin in this serial phase. */
  ghost function Awaited<L, G>(s: Sys<L, G>): set<int> {
    set p | 0 <= p < |s.sh.share| && (p < |s.sh.slot| ==> s.sh.slot[p] == 0) && Awaits(s, Holder(s), p)
  }

  ghost function Written<L, G>(s: Sys<L, G>): set<int> {
    set p | 0 <= p < |s.sh.share| && Awaits(s, NOBODY, p)
  }

  /** What the holder's commit needs twins for, others have yet to commit. */
  lemma TwinlessAwaited<L, G>(s: Sys<L, G>, t: Tid)
    requires Inv(s) && !s.sh.overrun && s.pending > 0 && t == s.ring[0]
    ensures Twinless(s.sh, s.th[t].dirty.Keys) <= Awaited(s)
  {
    forall p | p in Twinless(s.sh, s.th[t].dirty.Keys) ensures p in Awaited(s) {
      var ds := Dirtiers(Dirt(s), p);
      assert PageInv(s.sh, Dirt(s), t, p);
      assert ds == (ds - {t}) + {t};
      var u := Some(ds - {t});
      assert u in s.th && p in s.th[u].dirty;
    }
  }

  /** A step of the holder as the others see it: their pages stay, and if it commits its own are gone. */
  ghost predicate HolderOnly<L, G>(s: Sys<L, G>, r: Sys<L, G>, t: Tid, commits: bool)
    requires WellFormed(s.sh) && t in s.th
  {
    && (forall u :: u in r.th <==> u in s.th)
    && (forall u :: u in s.th && u != t ==> r.th[u].dirty == s.th[u].dirty)
    && (if commits then r.th[t].dirty == map[] && r.sh.slot == Commit(s.sh, s.th[t].dirty).slot
        else r.sh.slot == s.sh.slot && r.ring == s.ring && r.pending == s.pending)
    && |r.sh.share| == |s.sh.share|
  }

  lemma TurnIsOnly<L, G>(s: Sys<L, G>, t: Tid, a: Action<L, G>)
    requires WellFormed(s.sh) && t in s.th && s.pending > 0 && |s.ring| > 0 && InRange(s.sh, a)
    ensures HolderOnly(s, DoTurn(false, s, t, a), t, TakesCommit(a))
  {
    if a.Gather? { SerialGather(false, s, t, a); }
  }

  lemma SerialIsOnly<L, G>(prog: Program<L, G>, s: Sys<L, G>, t: Tid)
    requires Enabled(prog, s, t) && s.pending > 0
    ensures HolderOnly(s, Step(prog, false, s, t), t, !s.began || TakesCommit(Next(prog, s, t)))
  {
    if s.began { TurnIsOnly(s, t, Next(prog, s, t)); }
  }

  lemma AwaitedFalls<L, G>(s: Sys<L, G>, r: Sys<L, G>, t: Tid, commits: bool)
    requires Inv(s) && !s.sh.overrun && s.pending > 0 && t == s.ring[0] && WellFormed(r.sh) && t in s.th
    requires HolderOnly(s, r, t, commits) && (commits ==> Room(s.sh, s.th[t].dirty.Keys))
    ensures Awaited(r) <= Awaited(s) - (if commits then Twinless(s.sh, s.th[t].dirty.Keys) else {})
  {
    var c, dirty := Commit(s.sh, s.th[t].dirty), s.th[t].dirty;
    OverrunIff(s.sh, dirty);
    forall p | p in Awaited(r) ensures p in Awaited(s) - (if commits then Twinless(s.sh, dirty.Keys) else {}) {
      var u :| u in r.th && u != Holder(r) && p in r.th[u].dirty;
      assert u != t && p in s.th[u].dirty && Awaits(s, t, p);
      if commits { TwinStays(s, t, u, p); }
    }
  }

  /** A page that another thread has yet to commit keeps its twin, or gets one if t commits it. */
  lemma TwinStays<L, G>(s: Sys<L, G>, t: Tid, u: Tid, p: nat)
    requires Inv(s) && !s.sh.overrun && t in s.th && u in s.th && u != t && p in s.th[u].dirty && p < |s.sh.share|
    requires Took(s.sh, Commit(s.sh, s.th[t].dirty), s.th[t].dirty, |s.sh.share|)
    ensures Commit(s.sh, s.th[t].dirty).slot[p] == 0 ==> s.sh.slot[p] == 0 && p !in s.th[t].dirty
  {
    var ds := Dirtiers(Dirt(s), p);
    assert PageInv(s.sh, Dirt(s), Holder(s), p) && u in ds;
    if p in s.th[t].dirty {
      assert t in ds;
      SubsetSize({t, u}, ds);
    }
  }

  /** In a serial phase slots are taken only by pages awaited, each once. */
  lemma StepAwaits<L, G>(prog: Program<L, G>, s: Sys<L, G>, t: Tid)
    requires Inv(s) && Enabled(prog, s, t) && s.pending > 0 && HasRoom(prog, s, t)
    ensures var r := Step(prog, false, s, t); r.pending > 0 ==> r.sh.cur + |Awaited(r)| <= s.sh.cur + |Awaited(s)|
  {
    var r := Step(prog, false, s, t);
    var commits := !s.began || TakesCommit(Next(prog, s, t));
    StepTakes(prog, s, t);
    StepKeepsInv(prog, s, t);
    SerialIsOnly(prog, s, t);
    AwaitedFalls(s, r, t, commits);
    TwinlessAwaited(s, t);
    SubsetSize(Awaited(r), Awaited(s) - Twinned(prog, s, t));
  }

  /** No serial phase begins with more than n pages uncommitted. */
  ghost predicate Modest<L(!new), G(!new)>(prog: Program<L, G>, s: Sys<L, G>, sched: seq<Tid>, n: nat)
    requires Valid(System(prog, false), s, sched)
    decreases |sched|
  {
    sched == [] ||
      var r := Step(prog, false, s, sched[0]);
      (s.pending == 0 && r.pending > 0 ==> |Written(r)| <= n) && Modest(prog, r, sched[1..], n)
  }

  /** There are slots for all twins that this serial phase may yet need. */
  ghost predicate Provided<L, G>(s: Sys<L, G>) {
    s.pending > 0 ==> s.sh.cur - 1 + |Awaited(s)| <= Bitmap.LAST_SLOT
  }

  lemma PhaseProvided<L, G>(prog: Program<L, G>, s: Sys<L, G>, t: Tid)
    requires Inv(s) && Enabled(prog, s, t) && s.pending == 0
    requires var r := Step(prog, false, s, t); r.pending > 0 ==> |Written(r)| <= Bitmap.LAST_SLOT
    ensures Provided(Step(prog, false, s, t))
  {
    var r := Step(prog, false, s, t);
    SubsetSize(Awaited(r), Written(r));
  }

  lemma ProvidedHasRoom<L, G>(prog: Program<L, G>, s: Sys<L, G>, t: Tid)
    requires Inv(s) && Enabled(prog, s, t) && Provided(s)
    ensures HasRoom(prog, s, t)
  {
    if s.pending > 0 {
      TwinlessAwaited(s, t);
      SubsetSize(Twinless(s.sh, s.th[t].dirty.Keys), Awaited(s));
    }
  }

  /** If no serial phase begins with more uncommitted pages than there are slots, no slot is ever lacking: whatever
      threads write under the token, and however often, a page takes one slot at most. */
  lemma {:induction false} ModestHasRoom<L(!new), G(!new)>(prog: Program<L, G>, s: Sys<L, G>, sched: seq<Tid>)
    requires Inv(s) && !s.sh.overrun && Provided(s)
    requires Valid(System(prog, false), s, sched) && Modest(prog, s, sched, Bitmap.LAST_SLOT)
    ensures RunHasRoom(prog, s, sched)
    decreases |sched|
  {
    if sched != [] {
      var t := sched[0];
      ProvidedHasRoom(prog, s, t);
      StepKeepsInv(prog, s, t);
      StepTakes(prog, s, t);
      if s.pending == 0 { PhaseProvided(prog, s, t); } else { StepAwaits(prog, s, t); }
      ModestHasRoom(prog, Step(prog, false, s, t), sched[1..]);
    }
  }

  lemma SameSize<L, G>(prog: Program<L, G>, s: Sys<L, G>, t: Tid)
    requires Enabled(prog, s, t)
    ensures |Step(prog, false, s, t).sh.share| == |s.sh.share|
  {
    if s.pending > 0 { SerialIsOnly(prog, s, t); }
  }

  lemma {:induction false} FewAreModest<L(!new), G(!new)>(prog: Program<L, G>, s: Sys<L, G>, sched: seq<Tid>, n: nat)
    requires |s.sh.share| <= n && Valid(System(prog, false), s, sched)
    ensures Modest(prog, s, sched, n)
    decreases |sched|
  {
    if sched != [] {
      var r := Step(prog, false, s, sched[0]);
      SameSize(prog, s, sched[0]);
      SubsetSize(Written(r), Range(|r.sh.share|));
      FewAreModest(prog, r, sched[1..], n);
    }
  }

  /** With no more pages than slots every run, of every program, refines the merging machine. */
  lemma FewPagesRefine<L(!new), G(!new)>(prog: Program<L, G>, s: Sys<L, G>, sched: seq<Tid>)
    requires Initial(s) && |s.sh.share| <= Bitmap.LAST_SLOT && Valid(System(prog, false), s, sched)
    ensures Valid(System(prog, true), s, sched) && !Exec(System(prog, false), s, sched).sh.overrun
    ensures Sim(Exec(System(prog, false), s, sched), Exec(System(prog, true), s, sched))
  {
    InitialInv(s);
    FewAreModest(prog, s, sched, Bitmap.LAST_SLOT);
    ModestHasRoom(prog, s, sched);
    NeverOverruns(prog, s, sched);
    RunRefines(prog, s, s, sched);
  }

  lemma {:induction false} NeverOverruns<L(!new), G(!new)>(prog: Program<L, G>, s: Sys<L, G>, sched: seq<Tid>)
    requires !s.sh.overrun && Valid(System(prog, false), s, sched) && RunHasRoom(prog, s, sched)
    ensures !Exec(System(prog, false), s, sched).sh.overrun
    decreases |sched|
  {
    if sched != [] {
      OverrunsIff(prog, s, sched[0]);
      NeverOverruns(prog, Step(prog, false, s, sched[0]), sched[1..]);
    }
  }
}
