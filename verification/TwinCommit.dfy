/** Page versions, user counts and twin pages (xpersist.h): how a thread's faults and commits change the
    shared state, and why one twin per page serves every writer that has yet to commit. */
module TwinCommit {
  import opened Counting
  import opened Pages
  import Bitmap

  type Tid = int

  /** A dirty page: the version seen at the fault and the private copy.  `base` is the page as it was at
      the fault; no operation reads it. */
  datatype Dirty = Dirty(version: nat, page: Page, base: Page)

  type DirtyPages = map<int, Dirty>

  /** What all threads share: pages, versions, and for each page its users and its twin's slot (0: none).
      `overrun` is set when a twin is needed and the slots are used up. */
  datatype Shared = Shared(share: seq<Page>, versions: seq<nat>, users: seq<int>, slot: seq<nat>,
                           twins: map<nat, Page>, cur: nat, overrun: bool)

  ghost predicate WellFormed(sh: Shared) {
    |sh.versions| == |sh.users| == |sh.slot| == |sh.share|
  }

  // ---------- operations ----------

  /** handleWrite: one more user, and the page's version and contents are remembered. */
  ghost function Fault(sh: Shared, p: nat): Shared
    requires WellFormed(sh) && p < |sh.share|
  {
    sh.(users := sh.users[p := sh.users[p] + 1])
  }

  ghost function Snapshot(sh: Shared, p: nat): Dirty
    requires WellFormed(sh) && p < |sh.share|
  {
    Dirty(sh.versions[p], sh.share[p], sh.share[p])
  }

  ghost function CreateTwin(sh: Shared, p: nat): Shared
    requires WellFormed(sh) && p < |sh.share|
  {
    if sh.cur > Bitmap.LAST_SLOT then sh.(overrun := true)
    else sh.(slot := sh.slot[p := sh.cur], twins := sh.twins[sh.cur := sh.share[p]], cur := sh.cur + 1)
  }

  /** The fast path copies the page; the slow path merges what differs from the twin. */
  ghost function WriteBack(sh: Shared, p: nat, d: Dirty): Page
    requires WellFormed(sh) && p < |sh.share|
  {
    if d.version == sh.versions[p] then d.page
    else if sh.slot[p] in sh.twins then Overlay(sh.share[p], d.page, sh.twins[sh.slot[p]])
    else sh.share[p]
  }

  ghost function Retire(sh: Shared, p: nat): Shared
    requires WellFormed(sh) && p < |sh.share|
  {
    sh.(slot := if sh.users[p] == 1 then sh.slot[p := 0] else sh.slot,
        users := sh.users[p := sh.users[p] - 1],
        versions := sh.versions[p := sh.versions[p] + 1])
  }

  /** One turn of the loop in checkandcommit(false). */
  ghost function CommitPage(sh: Shared, p: nat, d: Dirty): Shared
    requires WellFormed(sh) && p < |sh.share|
  {
    var s := if sh.users[p] > 1 && sh.slot[p] == 0 then CreateTwin(sh, p) else sh;
    if s.overrun then s else Retire(s.(share := s.share[p := WriteBack(s, p, d)]), p)
  }

  ghost function CommitBelow(sh: Shared, dirty: DirtyPages, k: nat): (r: Shared)
    requires WellFormed(sh) && k <= |sh.share|
    ensures WellFormed(r) && |r.share| == |sh.share|
  {
    if k == 0 then sh else
      var s := CommitBelow(sh, dirty, k - 1);
      if s.overrun || k - 1 !in dirty then s else CommitPage(s, k - 1, dirty[k - 1])
  }

  /** checkandcommit(false): the dirty pages in order of their numbers. */
  ghost function Commit(sh: Shared, dirty: DirtyPages): (r: Shared)
    requires WellFormed(sh)
    ensures WellFormed(r) && |r.share| == |sh.share|
  {
    CommitBelow(sh, dirty, |sh.share|)
  }

  // ---------- when the slots suffice ----------

  ghost predicate NeedsTwin(sh: Shared, p: int)
    requires WellFormed(sh)
  {
    0 <= p < |sh.share| && sh.users[p] > 1 && sh.slot[p] == 0
  }

  /** Those of the pages that several threads write and that have no twin yet. */
  ghost function Twinless(sh: Shared, pages: set<int>): set<int>
    requires WellFormed(sh)
  {
    set p | p in pages && NeedsTwin(sh, p)
  }

  /** There are slots for the twins that a commit of these pages needs. */
  ghost predicate Room(sh: Shared, pages: set<int>)
    requires WellFormed(sh)
  {
    !sh.overrun && (Twinless(sh, pages) == {} || sh.cur + |Twinless(sh, pages)| <= Bitmap.LAST_SLOT + 1)
  }

  ghost function Below(dirty: DirtyPages, k: nat): set<int> {
    set p | p in dirty && p < k
  }

  lemma TwinlessNext(sh: Shared, dirty: DirtyPages, k: nat)
    requires WellFormed(sh)
    ensures Twinless(sh, Below(dirty, k + 1)) == Twinless(sh, Below(dirty, k)) + (if k in dirty && NeedsTwin(sh, k) then {k} else {})
    ensures k !in Twinless(sh, Below(dirty, k))
  {
  }

  /** What the pages below k leave to the others, and the slots they take. */
  ghost predicate Took(sh: Shared, r: Shared, dirty: DirtyPages, k: nat) {
    && WellFormed(sh) && WellFormed(r) && |r.share| == |sh.share|
    && r.cur == sh.cur + |Twinless(sh, Below(dirty, k))|
    && (forall p :: 0 <= p < |sh.share| && (p !in dirty || p >= k) ==> r.users[p] == sh.users[p] && r.slot[p] == sh.slot[p])
    && (forall p :: 0 <= p < |sh.share| && p in dirty && p < k ==>
          r.users[p] == sh.users[p] - 1 && (sh.cur >= 1 && sh.users[p] > 1 ==> r.slot[p] != 0))
  }

  lemma TookPage(sh: Shared, s: Shared, dirty: DirtyPages, p: nat)
    requires WellFormed(sh) && p < |sh.share| && Took(sh, s, dirty, p) && p in dirty && !s.overrun
    ensures var r := CommitPage(s, p, dirty[p]);
            if r.overrun then NeedsTwin(sh, p) && s.cur > Bitmap.LAST_SLOT else Took(sh, r, dirty, p + 1) && (NeedsTwin(sh, p) ==> s.cur <= Bitmap.LAST_SLOT)
  {
    TwinlessNext(sh, dirty, p);
  }

  /** The pages below k have been committed, unless there was no room for their twins. */
  ghost predicate OverrunOr(sh: Shared, r: Shared, dirty: DirtyPages, k: nat)
    requires WellFormed(sh)
  {
    if Room(sh, Below(dirty, k)) then !r.overrun && Took(sh, r, dirty, k) else r.overrun
  }

  lemma OverrunNext(sh: Shared, s: Shared, dirty: DirtyPages, p: nat)
    requires WellFormed(sh) && WellFormed(s) && p < |sh.share| == |s.share| && OverrunOr(sh, s, dirty, p)
    ensures OverrunOr(sh, if s.overrun || p !in dirty then s else CommitPage(s, p, dirty[p]), dirty, p + 1)
  {
    TwinlessNext(sh, dirty, p);
    if p in dirty && !s.overrun { TookPage(sh, s, dirty, p); }
  }

  lemma {:induction false} OverrunBelowIff(sh: Shared, dirty: DirtyPages, k: nat)
    requires WellFormed(sh) && k <= |sh.share|
    ensures OverrunOr(sh, CommitBelow(sh, dirty, k), dirty, k)
  {
    if k == 0 {
      assert Twinless(sh, Below(dirty, 0)) == {};
    } else {
      OverrunBelowIff(sh, dirty, k - 1);
      OverrunNext(sh, CommitBelow(sh, dirty, k - 1), dirty, k - 1);
    }
  }

  /** A commit runs out of slots if and only if, beforehand, there are fewer free ones than pages it commits that have
      another uncommitted writer and no twin. */
  lemma OverrunIff(sh: Shared, dirty: DirtyPages)
    requires WellFormed(sh)
    ensures Commit(sh, dirty).overrun <==> !Room(sh, dirty.Keys)
    ensures !Commit(sh, dirty).overrun ==> Took(sh, Commit(sh, dirty), dirty, |sh.share|)
  {
    OverrunBelowIff(sh, dirty, |sh.share|);
    assert Twinless(sh, Below(dirty, |sh.share|)) == Twinless(sh, dirty.Keys);
  }

  /** Two commits, one after the other. */
  lemma RoomTwice(sh: Shared, a: DirtyPages, b: DirtyPages)
    requires WellFormed(sh) && sh.cur >= 1 && Room(sh, a.Keys + b.Keys)
    ensures Room(sh, a.Keys) && Room(Commit(sh, a), b.Keys)
  {
    var all, first := Twinless(sh, a.Keys + b.Keys), Twinless(sh, a.Keys);
    SubsetSize(first, all);
    assert first <= all && Room(sh, a.Keys);
    OverrunIff(sh, a);
    var r := Commit(sh, a);
    assert Took(sh, r, a, |sh.share|);
    assert Twinless(sh, Below(a, |sh.share|)) == first;
    forall p ensures p in Twinless(r, b.Keys) <==> p in all - first {
      if 0 <= p < |sh.share| {
        assert p in a ==> r.users[p] == sh.users[p] - 1 && (sh.users[p] > 1 ==> r.slot[p] != 0);
        assert p !in a ==> r.users[p] == sh.users[p] && r.slot[p] == sh.slot[p];
        assert p in all <==> (p in a || p in b) && NeedsTwin(sh, p);
        assert p in first <==> p in a && NeedsTwin(sh, p);
        assert p in all - first <==> p in b && p !in a && NeedsTwin(sh, p);
        assert NeedsTwin(r, p) <==> p !in a && NeedsTwin(sh, p);
      }
    }
    assert Twinless(r, b.Keys) == all - first;
  }

  // ---------- the twin invariant ----------

  type Dirtiness = map<Tid, DirtyPages>

  ghost function Dirtiers(D: Dirtiness, p: nat): set<Tid> {
    set t | t in D && p in D[t]
  }

  /** The page was faulted at the version and contents that the shared page has now. */
  ghost predicate Current(sh: Shared, p: nat, d: Dirty)
    requires WellFormed(sh) && p < |sh.share|
  {
    d.version == sh.versions[p] && d.base == sh.share[p]
  }

  /** The page has been committed since by somebody, and its twin is what this thread started from. */
  ghost predicate Behind(sh: Shared, p: nat, d: Dirty)
    requires WellFormed(sh) && p < |sh.share|
  {
    d.version < sh.versions[p] && sh.slot[p] in sh.twins && d.base == sh.twins[sh.slot[p]]
  }

  ghost predicate PageInv(sh: Shared, D: Dirtiness, holder: int, p: nat)
    requires WellFormed(sh) && p < |sh.share|
  {
    && sh.users[p] == |Dirtiers(D, p)|
    && (Dirtiers(D, p) == {} ==> sh.slot[p] == 0)
    && (sh.slot[p] == 0 ==> forall t :: t in Dirtiers(D, p) ==> Current(sh, p, D[t][p]))
    && (sh.slot[p] != 0 ==> forall t :: t in Dirtiers(D, p) ==> (t == holder && Current(sh, p, D[t][p])) || Behind(sh, p, D[t][p]))
  }

  ghost predicate SlotsInv(sh: Shared)
    requires WellFormed(sh)
  {
    && sh.cur >= 1
    && (forall p :: 0 <= p < |sh.slot| && sh.slot[p] != 0 ==> sh.slot[p] < sh.cur && sh.slot[p] in sh.twins)
    && (forall p, q :: 0 <= p < q < |sh.slot| && sh.slot[p] != 0 ==> sh.slot[p] != sh.slot[q])
  }

  ghost predicate TwinInv(sh: Shared, D: Dirtiness, holder: int) {
    && WellFormed(sh) && SlotsInv(sh)
    && (forall t, p :: t in D && p in D[t] ==> 0 <= p < |sh.share|)
    && (forall p :: 0 <= p < |sh.share| ==> PageInv(sh, D, holder, p))
  }

  // ---------- what a commit does ----------

  ghost function Without(D: Dirtiness, t: Tid, p: nat): Dirtiness
    requires t in D
  {
    D[t := D[t] - {p}]
  }

  lemma DirtiersWithout(D: Dirtiness, t: Tid, p: nat, q: nat)
    requires t in D && p in D[t]
    ensures Dirtiers(Without(D, t, p), q) == if q == p then Dirtiers(D, p) - {t} else Dirtiers(D, q)
    ensures |Dirtiers(Without(D, t, p), p)| == |Dirtiers(D, p)| - 1
    ensures forall s :: s in Dirtiers(Without(D, t, p), q) ==> Without(D, t, p)[s][q] == D[s][q]
  {
    assert Dirtiers(Without(D, t, p), p) == Dirtiers(D, p) - {t};
  }

  /** Whichever branch runs, the share gains exactly the bytes changed since the fault. */
  lemma CommitPageEffect(sh: Shared, D: Dirtiness, h: Tid, p: nat)
    requires TwinInv(sh, D, h) && h in D && p in D[h]
    requires !CommitPage(sh, p, D[h][p]).overrun
    ensures var r := CommitPage(sh, p, D[h][p]);
            r.share == sh.share[p := Overlay(sh.share[p], D[h][p].page, D[h][p].base)]
  {
    assert PageInv(sh, D, h, p);
    assert h in Dirtiers(D, p);
    CopyIsOverlay(D[h][p].page, D[h][p].base);
  }

  lemma CommitPageKeepsSlots(sh: Shared, D: Dirtiness, h: Tid, p: nat)
    requires TwinInv(sh, D, h) && h in D && p in D[h]
    requires !CommitPage(sh, p, D[h][p]).overrun
    ensures SlotsInv(CommitPage(sh, p, D[h][p]))
  {
  }

  lemma CommitPageKeepsPage(sh: Shared, D: Dirtiness, h: Tid, p: nat, q: nat)
    requires TwinInv(sh, D, h) && h in D && p in D[h] && q < |sh.share|
    requires !CommitPage(sh, p, D[h][p]).overrun
    ensures PageInv(CommitPage(sh, p, D[h][p]), Without(D, h, p), h, q)
  {
    assert PageInv(sh, D, h, p) && PageInv(sh, D, h, q);
    DirtiersWithout(D, h, p, q);
    var r := CommitPage(sh, p, D[h][p]);
    if q == p && sh.users[p] == 1 {
      assert Dirtiers(Without(D, h, p), p) == {};
    }
  }

  lemma CommitPageKeeps(sh: Shared, D: Dirtiness, h: Tid, p: nat)
    requires TwinInv(sh, D, h) && h in D && p in D[h]
    requires !CommitPage(sh, p, D[h][p]).overrun
    ensures TwinInv(CommitPage(sh, p, D[h][p]), Without(D, h, p), h)
  {
    CommitPageKeepsSlots(sh, D, h, p);
    forall q: nat | q < |sh.share| ensures PageInv(CommitPage(sh, p, D[h][p]), Without(D, h, p), h, q) {
      CommitPageKeepsPage(sh, D, h, p, q);
    }
  }

  // ---------- whole commits ----------

  ghost function From(dirty: DirtyPages, k: nat): (r: DirtyPages)
    ensures forall p :: p in r <==> p in dirty && p >= k
    ensures forall p :: p in r ==> r[p] == dirty[p]
  {
    map p | p in dirty && p >= k :: dirty[p]
  }

  /** The bytes the thread changed, merged into the share: no versions, no twins. */
  ghost function Merge(share: seq<Page>, dirty: DirtyPages): (r: seq<Page>)
    ensures |r| == |share|
    ensures forall p :: 0 <= p < |share| ==>
              r[p] == if p in dirty then Overlay(share[p], dirty[p].page, dirty[p].base) else share[p]
  {
    seq(|share|, p requires 0 <= p < |share| => if p in dirty then Overlay(share[p], dirty[p].page, dirty[p].base) else share[p])
  }

  ghost function Bump(versions: seq<nat>, dirty: DirtyPages): (r: seq<nat>)
    ensures |r| == |versions|
    ensures forall p :: 0 <= p < |versions| ==> r[p] == if p in dirty then versions[p] + 1 else versions[p]
  {
    seq(|versions|, p requires 0 <= p < |versions| => if p in dirty then versions[p] + 1 else versions[p])
  }

  /** The pages below k have been merged and have their new versions; the others are as they were. */
  ghost predicate MergedBelow(sh: Shared, r: Shared, dirty: DirtyPages, k: nat) {
    && WellFormed(sh) && WellFormed(r) && |r.share| == |sh.share|
    && (forall p :: 0 <= p < |sh.share| ==>
          r.share[p] == if p in dirty && p < k then Overlay(sh.share[p], dirty[p].page, dirty[p].base) else sh.share[p])
    && (forall p :: 0 <= p < |sh.share| ==> r.versions[p] == if p in dirty && p < k then sh.versions[p] + 1 else sh.versions[p])
  }

  lemma FromAll(D: Dirtiness, h: Tid)
    requires h in D && forall p :: p in D[h] ==> p >= 0
    ensures D[h := From(D[h], 0)] == D
  {
    assert From(D[h], 0) == D[h];
  }

  lemma FromNext(dirty: DirtyPages, p: nat)
    ensures From(dirty, p + 1) == From(dirty, p) - {p}
    ensures p !in dirty ==> From(dirty, p + 1) == From(dirty, p)
  {
    assert From(dirty, p + 1) == From(dirty, p) - {p};
    if p !in dirty { assert From(dirty, p + 1) == From(dirty, p); }
  }

  lemma {:induction false} CommitBelowCorrect(sh: Shared, D: Dirtiness, h: Tid, k: nat)
    requires TwinInv(sh, D, h) && h in D && k <= |sh.share|
    requires !CommitBelow(sh, D[h], k).overrun
    ensures TwinInv(CommitBelow(sh, D[h], k), D[h := From(D[h], k)], h)
    ensures MergedBelow(sh, CommitBelow(sh, D[h], k), D[h], k)
  {
    if k == 0 {
      FromAll(D, h);
    } else {
      CommitBelowCorrect(sh, D, h, k - 1);
      NextPage(sh, CommitBelow(sh, D[h], k - 1), D, h, k - 1);
    }
  }

  lemma NextPage(sh: Shared, s: Shared, D: Dirtiness, h: Tid, p: nat)
    requires h in D && TwinInv(s, D[h := From(D[h], p)], h) && p < |s.share| && MergedBelow(sh, s, D[h], p)
    requires !s.overrun && (p in D[h] ==> !CommitPage(s, p, D[h][p]).overrun)
    ensures var r := if p in D[h] then CommitPage(s, p, D[h][p]) else s;
            TwinInv(r, D[h := From(D[h], p + 1)], h) && MergedBelow(sh, r, D[h], p + 1)
  {
    if p in D[h] { CommitNext(sh, s, D, h, p); } else { SkipNext(sh, s, D, h, p); }
  }

  lemma SkipNext(sh: Shared, s: Shared, D: Dirtiness, h: Tid, p: nat)
    requires h in D && p !in D[h] && TwinInv(s, D[h := From(D[h], p)], h) && MergedBelow(sh, s, D[h], p)
    ensures TwinInv(s, D[h := From(D[h], p + 1)], h) && MergedBelow(sh, s, D[h], p + 1)
  {
    FromNext(D[h], p);
  }

  lemma CommitNext(sh: Shared, s: Shared, D: Dirtiness, h: Tid, p: nat)
    requires h in D && p in D[h] && TwinInv(s, D[h := From(D[h], p)], h) && p < |s.share|
    requires MergedBelow(sh, s, D[h], p)
    requires !CommitPage(s, p, D[h][p]).overrun
    ensures TwinInv(CommitPage(s, p, D[h][p]), D[h := From(D[h], p + 1)], h)
    ensures MergedBelow(sh, CommitPage(s, p, D[h][p]), D[h], p + 1)
  {
    var E := D[h := From(D[h], p)];
    CommitPageEffect(s, E, h, p);
    CommitPageKeeps(s, E, h, p);
    FromNext(D[h], p);
    assert Without(E, h, p) == D[h := From(D[h], p + 1)];
  }

  /** checkandcommit by the token holder: exactly the bytes changed since the fault reach the share, each
      committed page gets a new version, and every other writer's pages stay committable. */
  lemma CommitCorrect(sh: Shared, D: Dirtiness, h: Tid)
    requires TwinInv(sh, D, h) && h in D && Room(sh, D[h].Keys)
    ensures !Commit(sh, D[h]).overrun && TwinInv(Commit(sh, D[h]), D[h := map[]], h)
    ensures Commit(sh, D[h]).share == Merge(sh.share, D[h])
    ensures Commit(sh, D[h]).versions == Bump(sh.versions, D[h])
  {
    var n := |sh.share|;
    OverrunIff(sh, D[h]);
    CommitBelowCorrect(sh, D, h, n);
    assert From(D[h], n) == map[];
  }

  // ---------- faults ----------

  ghost function Put(dirty: DirtyPages, p: int, d: Dirty): (r: DirtyPages)
    ensures forall q :: q in r <==> q in dirty || q == p
    ensures forall q :: q in r ==> r[q] == if q == p then d else dirty[q]
  {
    dirty + map[p := d]
  }

  lemma FaultKeepsPage(sh: Shared, D: Dirtiness, holder: int, t: Tid, p: nat, q: nat)
    requires TwinInv(sh, D, holder) && t in D && p !in D[t] && p < |sh.share| && q < |sh.share|
    requires t == holder || sh.slot[p] == 0
    ensures PageInv(Fault(sh, p), D[t := Put(D[t], p, Snapshot(sh, p))], holder, q)
  {
    var E := D[t := Put(D[t], p, Snapshot(sh, p))];
    assert PageInv(sh, D, holder, q);
    assert Dirtiers(E, q) == if q == p then Dirtiers(D, q) + {t} else Dirtiers(D, q);
  }

  /** A fault by the token holder, or by anybody while the page has no twin, starts from the current page. */
  lemma FaultCorrect(sh: Shared, D: Dirtiness, holder: int, t: Tid, p: nat)
    requires TwinInv(sh, D, holder) && t in D && p !in D[t] && p < |sh.share|
    requires t == holder || sh.slot[p] == 0
    ensures TwinInv(Fault(sh, p), D[t := Put(D[t], p, Snapshot(sh, p))], holder)
  {
    var r, E := Fault(sh, p), D[t := Put(D[t], p, Snapshot(sh, p))];
    forall q: nat | q < |sh.share| ensures PageInv(r, E, holder, q) {
      FaultKeepsPage(sh, D, holder, t, p, q);
    }
  }

  lemma StoreCorrect(sh: Shared, D: Dirtiness, holder: int, t: Tid, p: nat, page: Page)
    requires TwinInv(sh, D, holder) && t in D && p in D[t]
    ensures TwinInv(sh, D[t := Put(D[t], p, D[t][p].(page := page))], holder)
  {
    var E := D[t := Put(D[t], p, D[t][p].(page := page))];
    forall q: nat | q < |sh.share| ensures PageInv(sh, E, holder, q) {
      assert PageInv(sh, D, holder, q);
      assert Dirtiers(E, q) == Dirtiers(D, q);
    }
  }

  // ---------- between commits ----------

  /** The token may pass on once its holder has nothing uncommitted. */
  lemma PassToken(sh: Shared, D: Dirtiness, holder: int, next: int)
    requires TwinInv(sh, D, holder) && (holder in D ==> D[holder] == map[])
    ensures TwinInv(sh, D, next)
  {
    forall p: nat | p < |sh.share| ensures PageInv(sh, D, next, p) {
      assert PageInv(sh, D, holder, p);
    }
  }

  /** When everybody has committed no page has a twin, so the slots may be handed out from the start again. */
  lemma AllCommitted(sh: Shared, D: Dirtiness, holder: int, next: int)
    requires TwinInv(sh, D, holder) && forall t :: t in D ==> D[t] == map[]
    ensures forall p :: 0 <= p < |sh.slot| ==> sh.slot[p] == 0 && sh.users[p] == 0
    ensures TwinInv(sh.(cur := 1), D, next)
  {
    forall p: nat | p < |sh.share|
      ensures sh.slot[p] == 0 && sh.users[p] == 0
      ensures PageInv(sh.(cur := 1), D, next, p)
    {
      assert PageInv(sh, D, holder, p);
      forall t ensures t !in Dirtiers(D, p) {
        if t in D { assert D[t] == map[]; }
      }
      assert Dirtiers(D, p) == {};
    }
  }

  /** Two writers whose changed bytes are disjoint may commit in either order. */
  lemma DisjointCommitsCommute(sh: Shared, D: Dirtiness, a: Tid, b: Tid)
    requires TwinInv(sh, D, a) && TwinInv(sh, D, b) && a in D && b in D && a != b
    requires forall p :: p in D[a] && p in D[b] ==> DisjointWrites(D[a][p].page, D[a][p].base, D[b][p].page, D[b][p].base)
    requires Room(sh, D[a].Keys + D[b].Keys)
    ensures Commit(Commit(sh, D[a]), D[b]).share == Commit(Commit(sh, D[b]), D[a]).share
  {
    CommitTwice(sh, D, a, b);
    assert D[b].Keys + D[a].Keys == D[a].Keys + D[b].Keys;
    CommitTwice(sh, D, b, a);
    var x, y := Merge(Merge(sh.share, D[a]), D[b]), Merge(Merge(sh.share, D[b]), D[a]);
    forall p | 0 <= p < |sh.share| ensures x[p] == y[p] {
      if p in D[a] && p in D[b] {
        OverlaysCommute(sh.share[p], D[a][p].page, D[a][p].base, D[b][p].page, D[b][p].base);
      }
    }
  }

  lemma CommitTwice(sh: Shared, D: Dirtiness, a: Tid, b: Tid)
    requires TwinInv(sh, D, a) && a in D && b in D && a != b
    requires Room(sh, D[a].Keys + D[b].Keys)
    ensures Commit(Commit(sh, D[a]), D[b]).share == Merge(Merge(sh.share, D[a]), D[b])
  {
    var s, E := Commit(sh, D[a]), D[a := map[]];
    RoomTwice(sh, D[a], D[b]);
    CommitCorrect(sh, D, a);
    PassToken(s, E, a, b);
    CommitCorrect(s, E, b);
  }

  /** Where both changed a byte, the later committer's byte stays. */
  lemma LaterCommitWins(sh: Shared, D: Dirtiness, a: Tid, b: Tid, p: nat, i: nat)
    requires TwinInv(sh, D, a) && a in D && b in D && a != b
    requires Room(sh, D[a].Keys + D[b].Keys)
    requires p in D[a] && p in D[b] && i < PAGE_SIZE
    requires D[a][p].page[i] != D[a][p].base[i] && D[b][p].page[i] != D[b][p].base[i]
    ensures p < |sh.share| && Commit(Commit(sh, D[a]), D[b]).share[p][i] == D[b][p].page[i]
  {
    CommitTwice(sh, D, a, b);
  }

  // ---------- the assertions in checkandcommit ----------

  /** Page p can be committed from here: its twin exists if it is needed. */
  ghost predicate Committable(sh: Shared, p: nat, d: Dirty)
    requires WellFormed(sh) && p < |sh.share|
  {
    var s := if sh.users[p] > 1 && sh.slot[p] == 0 then CreateTwin(sh, p) else sh;
    d.version == s.versions[p] || s.slot[p] != 0
  }

  /** No assertion fails while the pages below k are committed. */
  ghost predicate AssertsBelow(sh: Shared, dirty: DirtyPages, k: nat)
    requires WellFormed(sh) && k <= |sh.share|
  {
    forall p: nat :: p in dirty && p < k ==> AssertsAt(sh, dirty, p)
  }

  /** When the loop comes to page p. */
  ghost predicate AssertsAt(sh: Shared, dirty: DirtyPages, p: nat)
    requires WellFormed(sh) && p in dirty && p < |sh.share|
  {
    Committable(CommitBelow(sh, dirty, p), p, dirty[p])
  }

  ghost predicate AssertsHold(sh: Shared, dirty: DirtyPages)
    requires WellFormed(sh)
  {
    AssertsBelow(sh, dirty, |sh.share|)
  }

  lemma AssertsNext(sh: Shared, dirty: DirtyPages, k: nat)
    requires WellFormed(sh) && k < |sh.share|
    ensures AssertsBelow(sh, dirty, k + 1) <==> AssertsBelow(sh, dirty, k) && (k in dirty ==> AssertsAt(sh, dirty, k))
  {
  }

  lemma {:induction false} OverrunBelow(sh: Shared, dirty: DirtyPages, j: nat, k: nat)
    requires WellFormed(sh) && j <= k <= |sh.share| && CommitBelow(sh, dirty, j).overrun
    ensures CommitBelow(sh, dirty, k).overrun
    decreases k
  {
    if j < k { OverrunBelow(sh, dirty, j, k - 1); }
  }

  lemma NotYetOverrun(sh: Shared, dirty: DirtyPages, k: nat)
    requires WellFormed(sh) && k <= |sh.share| && !Commit(sh, dirty).overrun
    ensures !CommitBelow(sh, dirty, k).overrun
  {
    if CommitBelow(sh, dirty, k).overrun { OverrunBelow(sh, dirty, k, |sh.share|); }
  }

  /** The token holder never meets a page whose twin is missing. */
  lemma HolderAsserts(sh: Shared, D: Dirtiness, h: Tid)
    requires TwinInv(sh, D, h) && h in D && Room(sh, D[h].Keys)
    ensures AssertsHold(sh, D[h])
  {
    OverrunIff(sh, D[h]);
    forall p: nat | p in D[h] && p < |sh.share| ensures AssertsAt(sh, D[h], p) {
      var s, E := CommitBelow(sh, D[h], p), D[h := From(D[h], p)];
      NotYetOverrun(sh, D[h], p);
      CommitBelowCorrect(sh, D, h, p);
      assert PageInv(s, E, h, p) && h in Dirtiers(E, p);
    }
  }
}
