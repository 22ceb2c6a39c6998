/** What programs see: a thread reads what it last wrote itself, until it commits; what others wrote it sees once they
    have committed, and after its own commit all of it. */
module Memory {
  import opened Counting
  import opened Bytes
  import opened Pages
  import opened Runs
  import opened TwinCommit
  import opened Machine

  /** The memory as t sees it. */
  ghost function Sees<L, G>(s: Sys<L, G>, t: Tid): seq<Page>
    requires t in s.th
  {
    View(s.sh, s.th[t].dirty)
  }

  /** The next step of t is what its program does, not the commit that comes with the token. */
  ghost predicate Acts<L, G>(s: Sys<L, G>) {
    s.pending == 0 || s.began
  }

  ghost predicate OthersAsBefore<L, G>(s: Sys<L, G>, r: Sys<L, G>, t: Tid) {
    && (forall u :: u in r.th <==> u in s.th) && (forall u :: u in s.th && u != t ==> r.th[u] == s.th[u])
  }

  /** Nobody else's view, and nothing of the share, has changed. */
  ghost predicate Unseen<L, G>(s: Sys<L, G>, r: Sys<L, G>, t: Tid) {
    && OthersAsBefore(s, r, t) && r.sh.share == s.sh.share
    && forall u :: u in s.th && u != t ==> Sees(r, u) == Sees(s, u)
  }

  ghost function Written(v: seq<Page>, p: nat, off: nat, b: Byte): seq<Page>
    requires p < |v| && off < PAGE_SIZE
  {
    v[p := v[p][off := b]]
  }

  /** Thread t has stored: it sees the byte, and nobody else sees any difference. */
  ghost predicate Stored<L, G>(s: Sys<L, G>, r: Sys<L, G>, t: Tid, a: Action<L, G>)
    requires t in s.th && a.Store? && InRange(s.sh, a)
  {
    && Unseen(s, r, t) && r.th[t].st == a.next && Sees(r, t) == Written(Sees(s, t), a.p, a.off, a.byte)
    && r.th[t].dirty.Keys == s.th[t].dirty.Keys + {a.p}
    && r.ring == s.ring && r.pending == s.pending && r.g == s.g
  }

  /** A store to a dirty page changes one byte, for its own thread. */
  lemma StoreStores<L, G>(prog: Program<L, G>, s: Sys<L, G>, t: Tid)
    requires Enabled(prog, s, t) && Acts(s) && Next(prog, s, t).Store? && Next(prog, s, t).p in s.th[t].dirty
    ensures Stored(s, Step(prog, false, s, t), t, Next(prog, s, t))
  {
    var a, r := Next(prog, s, t), Step(prog, false, s, t);
    assert r == DoStore(s, t, a) && r.sh == s.sh;
    ViewWritten(s.sh, s.th[t].dirty, r.th[t].dirty, a.p, a.off, a.byte);
    assert r.th[t].dirty.Keys == s.th[t].dirty.Keys + {a.p};
  }

  lemma ViewWritten(sh: Shared, d: DirtyPages, e: DirtyPages, p: nat, off: nat, b: Byte)
    requires p < |sh.share| && off < PAGE_SIZE && p in d && e == Put(d, p, d[p].(page := d[p].page[off := b]))
    ensures View(sh, e) == Written(View(sh, d), p, off, b)
  {
  }

  /** A store to any other page faults: nobody sees a difference, and the store comes again, now to a dirty page. */
  lemma FaultHides<L, G>(prog: Program<L, G>, s: Sys<L, G>, t: Tid)
    requires Enabled(prog, s, t) && Acts(s) && Next(prog, s, t).Store? && Next(prog, s, t).p !in s.th[t].dirty
    ensures var a, r := Next(prog, s, t), Step(prog, false, s, t);
            && Unseen(s, r, t) && r.th[t].st == s.th[t].st && Sees(r, t) == Sees(s, t)
            && r.th[t].dirty.Keys == s.th[t].dirty.Keys + {a.p} && r.th[t].dirty[a.p].base == s.sh.share[a.p]
            && r.ring == s.ring && r.pending == s.pending && r.g == s.g
            && Enabled(prog, r, t) && Acts(r) && Next(prog, r, t) == a
  {
    var a, r := Next(prog, s, t), Step(prog, false, s, t);
    assert Sees(r, t) == Sees(s, t);
    assert r.th[t].dirty.Keys == s.th[t].dirty.Keys + {a.p};
    forall u | u in s.th && u != t ensures Sees(r, u) == Sees(s, u) {}
  }

  lemma StoredAfter<L, G>(s: Sys<L, G>, f: Sys<L, G>, r: Sys<L, G>, t: Tid, a: Action<L, G>)
    requires t in s.th && t in f.th && a.Store? && InRange(s.sh, a) && InRange(f.sh, a)
    requires Unseen(s, f, t) && Sees(f, t) == Sees(s, t) && f.th[t].dirty.Keys == s.th[t].dirty.Keys + {a.p}
    requires f.ring == s.ring && f.pending == s.pending && f.g == s.g && Stored(f, r, t, a)
    ensures Stored(s, r, t, a)
  {
  }

  lemma Once<L(!new), G(!new)>(prog: Program<L, G>, s: Sys<L, G>, t: Tid)
    requires Enabled(prog, s, t)
    ensures Valid(System(prog, false), s, [t]) && Exec(System(prog, false), s, [t]) == Step(prog, false, s, t)
  {
    assert [t][1..] == [];
  }

  lemma Twice<L(!new), G(!new)>(prog: Program<L, G>, s: Sys<L, G>, t: Tid)
    requires Enabled(prog, s, t) && Enabled(prog, Step(prog, false, s, t), t)
    ensures Valid(System(prog, false), s, [t, t])
    ensures Exec(System(prog, false), s, [t, t]) == Step(prog, false, Step(prog, false, s, t), t)
  {
    Once(prog, Step(prog, false, s, t), t);
    assert [t, t][1..] == [t];
  }

  /** A store, with the fault that may come first, changes one byte of what its thread sees, and nothing else. */
  lemma StoreTakes<L(!new), G(!new)>(prog: Program<L, G>, s: Sys<L, G>, t: Tid) returns (run: seq<Tid>)
    requires Enabled(prog, s, t) && Acts(s) && Next(prog, s, t).Store?
    ensures run == if Next(prog, s, t).p in s.th[t].dirty then [t] else [t, t]
    ensures Valid(System(prog, false), s, run) && Stored(s, Exec(System(prog, false), s, run), t, Next(prog, s, t))
  {
    var a, f := Next(prog, s, t), Step(prog, false, s, t);
    if a.p in s.th[t].dirty {
      StoreStores(prog, s, t);
      Once(prog, s, t);
      run := [t];
    } else {
      FaultHides(prog, s, t);
      StoreStores(prog, f, t);
      Twice(prog, s, t);
      StoredAfter(s, f, Step(prog, false, f, t), t, a);
      run := [t, t];
    }
  }

  /** What is neither store nor commit shows nobody anything. */
  lemma QuietHides<L, G>(prog: Program<L, G>, s: Sys<L, G>, t: Tid)
    requires Enabled(prog, s, t) && Acts(s)
    requires var a := Next(prog, s, t); !a.Store? && (s.pending == 0 || a.Access? || a.Sync?)
    ensures var a, r := Next(prog, s, t), Step(prog, false, s, t);
            && Unseen(s, r, t) && Sees(r, t) == Sees(s, t) && r.th[t].st == a.next && r.th[t].dirty == s.th[t].dirty
            && r.sh == s.sh && r.ring == s.ring && (a.Access? || a.Sync? ==> r.g == Effect(a, s.g)) && (a.Access? ==> r.th[t].waiting == s.th[t].waiting && r.pending == s.pending)
  {
  }

  /** The next step of t commits. */
  ghost predicate Commits<L, G>(prog: Program<L, G>, s: Sys<L, G>, t: Tid)
    requires t in s.th
  {
    s.pending > 0 && (!s.began || TakesCommit(Next(prog, s, t)))
  }

  /** Thread t has committed: its changes are merged into the share, and it sees the share.  So do the others, but for
      the pages that they have dirty. */
  ghost predicate Shown<L, G>(s: Sys<L, G>, r: Sys<L, G>, t: Tid)
    requires t in s.th
  {
    && OthersAsBefore(s, r, t) && r.sh.share == Merge(s.sh.share, s.th[t].dirty)
    && Sees(r, t) == r.sh.share && r.th[t].dirty == map[] && !r.th[t].waiting
    && forall u :: u in s.th && u != t ==> SeesMore(s, r, u)
  }

  ghost predicate SeesMore<L, G>(s: Sys<L, G>, r: Sys<L, G>, u: Tid)
    requires u in s.th && u in r.th && |r.sh.share| == |s.sh.share|
  {
    forall p :: 0 <= p < |s.sh.share| ==> Sees(r, u)[p] == if p in s.th[u].dirty then Sees(s, u)[p] else r.sh.share[p]
  }

  /** When it takes the token and at each synchronisation under it a thread commits, and sees all that has been
      committed. */
  lemma CommitShows<L, G>(prog: Program<L, G>, s: Sys<L, G>, t: Tid)
    requires Inv(s) && Enabled(prog, s, t) && Commits(prog, s, t) && Room(s.sh, s.th[t].dirty.Keys)
    ensures var r := Step(prog, false, s, t);
            !r.sh.overrun && Shown(s, r, t) && r.th[t].st == if s.began then Next(prog, s, t).next else s.th[t].st
  {
    var st := if s.began then Next(prog, s, t).next else s.th[t].st;
    HolderCommits(s, t, st);
    CommitStep(prog, s, t, st);
    ShareShows(s, Step(prog, false, s, t), t, st);
  }

  lemma ShareShows<L, G>(s: Sys<L, G>, r: Sys<L, G>, t: Tid, st: L)
    requires WellFormed(s.sh) && t in s.th && r.th == s.th[t := Thread(st, map[], false)] && r.sh.share == Merge(s.sh.share, s.th[t].dirty)
    ensures Shown(s, r, t)
  {
    assert Sees(r, t) == r.sh.share;
  }

  lemma CommitStep<L, G>(prog: Program<L, G>, s: Sys<L, G>, t: Tid, st: L)
    requires Enabled(prog, s, t) && Commits(prog, s, t) && st == if s.began then Next(prog, s, t).next else s.th[t].st
    ensures var r, c := Step(prog, false, s, t), DoCommit(false, s, t, st);
            r.th == c.th && r.sh.share == c.sh.share && r.sh.overrun == c.sh.overrun
  {
    if s.began { TurnCommits(s, t, Next(prog, s, t)); }
  }

  lemma TurnCommits<L, G>(s: Sys<L, G>, t: Tid, a: Action<L, G>)
    requires WellFormed(s.sh) && t in s.th && s.pending > 0 && |s.ring| > 0 && InRange(s.sh, a) && TakesCommit(a)
    ensures var r, c := DoTurn(false, s, t, a), DoCommit(false, s, t, a.next);
            r.th == c.th && r.sh.share == c.sh.share && r.sh.overrun == c.sh.overrun
  {
    if a.Gather? { SerialGather(false, s, t, a); }
  }

  /** What a step of t does besides: its own state goes on, and queues and locks are as its action says. */
  lemma GoesOn<L, G>(prog: Program<L, G>, s: Sys<L, G>, t: Tid)
    requires Enabled(prog, s, t) && Acts(s)
    requires var a := Next(prog, s, t); s.pending == 0 ==> a.Store? || a.Access? || a.Sync?
    ensures var a, r := Next(prog, s, t), Step(prog, false, s, t);
            OthersAsBefore(s, r, t) && r.g == Effect(a, s.g) && (r.th[t].st == a.next || (a.Store? && r.th[t].st == s.th[t].st))
  {
    var a := Next(prog, s, t);
    if a.Store? {
      if a.p in s.th[t].dirty { StoreStores(prog, s, t); } else { FaultHides(prog, s, t); }
    } else if Commits(prog, s, t) {
      CommitStep(prog, s, t, a.next);
    } else {
      QuietHides(prog, s, t);
    }
  }

  // ---------- from the store to the share ----------

  /** t has the byte in its private page, which was as base has it when the page became dirty. */
  ghost predicate Has<L, G>(s: Sys<L, G>, t: Tid, p: nat, off: nat, b: Byte, base: Byte) {
    && t in s.th && p in s.th[t].dirty && p < |s.sh.share| && off < PAGE_SIZE
    && Sees(s, t)[p][off] == b && s.th[t].dirty[p].base[off] == base
  }

  /** The step is a commit by t, or its store to that byte. */
  ghost predicate Disturbs<L, G>(prog: Program<L, G>, s: Sys<L, G>, t: Tid, p: nat, off: nat, u: Tid)
    requires t in s.th
  {
    var a := Next(prog, s, t);
    u == t && (Commits(prog, s, t) || (Acts(s) && a.Store? && a.p == p && a.off == off))
  }

  /** In the run thread t neither commits nor stores to that byte. */
  ghost predicate Leaves<L(!new), G(!new)>(prog: Program<L, G>, s: Sys<L, G>, t: Tid, p: nat, off: nat, sched: seq<Tid>)
    decreases |sched|
  {
    sched == [] || (t in s.th && !Disturbs(prog, s, t, p, off, sched[0]) && Leaves(prog, Step(prog, false, s, sched[0]), t, p, off, sched[1..]))
  }

  lemma KeepsByte<L, G>(prog: Program<L, G>, s: Sys<L, G>, t: Tid, u: Tid, p: nat, off: nat, b: Byte, base: Byte)
    requires Enabled(prog, s, u) && Has(s, t, p, off, b, base) && !Disturbs(prog, s, t, p, off, u)
    ensures Has(Step(prog, false, s, u), t, p, off, b, base)
  {
    var r := Step(prog, false, s, u);
    if s.pending > 0 && s.began && TakesCommit(Next(prog, s, u)) { TurnCommits(s, u, Next(prog, s, u)); }
  }

  /** A thread reads what it wrote, whatever the others do and commit in between. */
  lemma {:induction false} StoreLasts<L(!new), G(!new)>(prog: Program<L, G>, s: Sys<L, G>, t: Tid, p: nat, off: nat, b: Byte, base: Byte, sched: seq<Tid>)
    requires Has(s, t, p, off, b, base) && Valid(System(prog, false), s, sched) && Leaves(prog, s, t, p, off, sched)
    ensures Has(Exec(System(prog, false), s, sched), t, p, off, b, base)
    decreases |sched|
  {
    if sched != [] {
      KeepsByte(prog, s, t, sched[0], p, off, b, base);
      StoreLasts(prog, Step(prog, false, s, sched[0]), t, p, off, b, base, sched[1..]);
    }
  }

  /** And at its next commit the byte reaches the share, if it has changed since the page became dirty; if not, what
      others have committed there stays. */
  lemma StoreReachesShare<L(!new), G(!new)>(prog: Program<L, G>, s: Sys<L, G>, t: Tid, p: nat, off: nat, b: Byte, base: Byte, sched: seq<Tid>)
    requires Inv(s) && Has(s, t, p, off, b, base) && Valid(System(prog, false), s, sched) && Leaves(prog, s, t, p, off, sched)
    requires var q := Exec(System(prog, false), s, sched); Enabled(prog, q, t) && Commits(prog, q, t) && Room(q.sh, q.th[t].dirty.Keys)
    ensures var q := Exec(System(prog, false), s, sched); var r := Step(prog, false, q, t);
            p < |r.sh.share| == |q.sh.share| && r.sh.share[p][off] == if b != base then b else q.sh.share[p][off]
  {
    StoreLasts(prog, s, t, p, off, b, base, sched);
    RunKeepsInv(prog, s, sched);
    CommitShows(prog, Exec(System(prog, false), s, sched), t);
  }
}
