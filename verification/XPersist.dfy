/** One process's view of a protected area (xpersist.h): shared pages in one array, its own copies of the pages it
    has written in another, and the shared versions, user counts and twin slots. */
module Persist {
  import opened Bytes
  import opened Pages
  import opened TwinCommit
  import opened Bitmap

  ghost function PagesOf(a: seq<Byte>): (r: seq<Page>)
    ensures |r| == |a| / PAGE_SIZE
    ensures forall p :: 0 <= p < |r| ==> r[p] == PageAt(a, p)
  {
    seq(|a| / PAGE_SIZE, p requires 0 <= p < |a| / PAGE_SIZE => PageAt(a, p))
  }

  ghost predicate SameBut(before: seq<Byte>, after: seq<Byte>, d: nat) {
    && d + PAGE_SIZE <= |before| == |after|
    && after[..d] == before[..d] && after[d + PAGE_SIZE..] == before[d + PAGE_SIZE..]
  }

  lemma OtherPage(before: seq<Byte>, after: seq<Byte>, d: nat, q: nat)
    requires SameBut(before, after, d) && (q + PAGE_SIZE <= d || d + PAGE_SIZE <= q) && q + PAGE_SIZE <= |before|
    ensures after[q..q + PAGE_SIZE] == before[q..q + PAGE_SIZE]
  {
    forall i | q <= i < q + PAGE_SIZE ensures after[i] == before[i] {
      if i < d {
        assert after[..d][i] == before[..d][i];
      } else {
        assert after[d + PAGE_SIZE..][i - (d + PAGE_SIZE)] == before[d + PAGE_SIZE..][i - (d + PAGE_SIZE)];
      }
    }
  }

  lemma OnePage(before: seq<Byte>, after: seq<Byte>, p: nat)
    requires SameBut(before, after, p * PAGE_SIZE)
    ensures PagesOf(after) == PagesOf(before)[p := PageAt(after, p)]
  {
    forall q: nat | q < |PagesOf(before)| && q != p ensures PageAt(after, q) == PageAt(before, q) {
      OtherPage(before, after, p * PAGE_SIZE, q * PAGE_SIZE);
    }
  }

  ghost function Twins(area: Area): (r: map<nat, Page>) {
    map s: nat | 1 <= s <= LAST_SLOT :: TwinAt(area, s)
  }

  lemma OneTwin(before: Area, after: Area, slot: nat)
    requires 1 <= slot <= LAST_SLOT && SameBut(before, after, Address(slot))
    ensures Twins(after) == Twins(before)[slot := TwinAt(after, slot)]
  {
    forall s: nat | 1 <= s <= LAST_SLOT && s != slot ensures TwinAt(after, s) == TwinAt(before, s) {
      OtherPage(before, after, Address(slot), Address(s));
    }
  }

  lemma VersionKeepsTwins(area: Area, slot: nat, v: nat)
    requires slot <= LAST_SLOT
    ensures Twins(WithVersion(area, slot, v)) == Twins(area)
  {
    forall s: nat | 1 <= s <= LAST_SLOT ensures TwinAt(WithVersion(area, slot, v), s) == TwinAt(area, s) {
      VersionKeepsTwin(area, slot, v, s);
    }
  }

  /** The private pages: versions and contents at the fault, and the contents now. */
  ghost function DirtOf(dirtied: map<int, nat>, local: seq<Byte>, bases: map<int, Page>): DirtyPages
    requires forall p :: p in dirtied ==> 0 <= p < |local| / PAGE_SIZE && p in bases
  {
    map p | p in dirtied :: Dirty(dirtied[p], PageAt(local, p), bases[p])
  }

  lemma DirtPut(dirtied: map<int, nat>, before: seq<Byte>, after: seq<Byte>, bases: map<int, Page>, p: nat, v: nat, page: Page)
    requires forall p :: p in dirtied ==> 0 <= p < |before| / PAGE_SIZE && p in bases
    requires p !in dirtied && SameBut(before, after, p * PAGE_SIZE) && PageAt(after, p) == page
    ensures DirtOf(dirtied[p := v], after, bases[p := page]) == Put(DirtOf(dirtied, before, bases), p, Dirty(v, page, page))
  {
    forall q | q in dirtied ensures PageAt(after, q) == PageAt(before, q) {
      OtherPage(before, after, p * PAGE_SIZE, q * PAGE_SIZE);
    }
  }

  /** A slot's page and version are written. */
  lemma TwinWritten(before: Area, copied: Area, slot: nat, version: nat, page: Page)
    requires 1 <= slot <= LAST_SLOT && SameBut(before, copied, Address(slot)) && TwinAt(copied, slot) == page
    ensures Twins(WithVersion(copied, slot, version)) == Twins(before)[slot := page]
  {
    OneTwin(before, copied, slot);
    VersionKeepsTwins(copied, slot, version);
  }

  class XPersist {
    const persistent: array<Byte>
    const transient: array<Byte>
    const versions: array<nat>
    const users: array<int>
    const slots: array<nat>
    const bitmap: XBitmap

    /** The pages written since the last commit, with the versions they had then. */
    var dirtied: map<int, nat>
    /** What those pages held then. */
    ghost var bases: map<int, Page>

    ghost predicate Valid()
      reads this, bitmap, slots
    {
      && persistent.Length == transient.Length && persistent.Length % PAGE_SIZE == 0
      && versions.Length == users.Length == slots.Length == persistent.Length / PAGE_SIZE
      && versions != slots && persistent != transient && persistent != bitmap.area && transient != bitmap.area
      && bitmap.Valid()
      && (forall p :: 0 <= p < slots.Length ==> slots[p] < 65536)
      && (forall p :: p in dirtied ==> 0 <= p < versions.Length && p in bases)
    }

    /** Slots still fit: see SafeSlots. */
    ghost predicate Slotted()
      reads this, slots, bitmap
    {
      bitmap.cur <= LAST_SLOT + 1 && forall p :: 0 <= p < slots.Length ==> slots[p] <= LAST_SLOT
    }

    /** The shared state that the arrays hold. */
    ghost function Abs(): (r: Shared)
      requires Valid()
      reads this, persistent, versions, users, slots, bitmap, bitmap.area
      ensures WellFormed(r)
    {
      Shared(PagesOf(persistent[..]), versions[..], users[..], slots[..], Twins(bitmap.area[..]), bitmap.cur, false)
    }

    ghost function Dirt(): DirtyPages
      requires Valid()
      reads this, transient, bitmap, slots
    {
      DirtOf(dirtied, transient[..], bases)
    }

    /** An area of fresh zero pages, mapped before any thread is spawned. */
    constructor (pages: nat, bitmap: XBitmap)
      requires bitmap.Valid()
      ensures Valid() && versions.Length == pages && this.bitmap == bitmap && dirtied == map[]
      ensures fresh(persistent) && fresh(transient) && fresh(versions) && fresh(users) && fresh(slots)
      ensures forall p :: 0 <= p < pages ==> versions[p] == 0 && users[p] == 0 && slots[p] == 0
    {
      persistent := new Byte[pages * PAGE_SIZE];
      transient := new Byte[pages * PAGE_SIZE];
      versions := new nat[pages](_ => 0);
      users := new int[pages](_ => 0);
      slots := new nat[pages](_ => 0);
      this.bitmap := bitmap;
      dirtied, bases := map[], map[];
    }

    /** The fault handler, and the private copy that the store it lets through makes. */
    method HandleWrite(p: nat)
      requires Valid() && p < versions.Length && p !in dirtied
      modifies this, users, transient
      ensures Valid() && (old(Slotted()) ==> Slotted())
      ensures Abs() == Fault(old(Abs()), p)
      ensures Dirt() == Put(old(Dirt()), p, Snapshot(old(Abs()), p))
    {
      users[p] := users[p] + 1;
      dirtied := dirtied[p := versions[p]];
      bases := bases[p := PageAt(persistent[..], p)];
      CopyPage(persistent, p * PAGE_SIZE, transient, p * PAGE_SIZE);
      DirtPut(old(dirtied), old(transient[..]), transient[..], old(bases), p, versions[p], PageAt(persistent[..], p));
    }

    /** The twin in the given slot becomes a copy of page p. */
    method FillTwin(p: nat, slot: nat)
      requires Valid() && p < versions.Length && 1 <= slot < INITIAL_PAGES
      modifies bitmap.area
      ensures slot <= LAST_SLOT ==> Twins(bitmap.area[..]) == old(Twins(bitmap.area[..]))[slot := PageAt(persistent[..], p)]
    {
      CopyPage(persistent, p * PAGE_SIZE, bitmap.area, Address(slot));
      ghost var copied := bitmap.area[..];
      bitmap.SetVersion(slot, versions[p]);
      if slot <= LAST_SLOT {
        TwinWritten(old(bitmap.area[..]), copied, slot, versions[p], PageAt(persistent[..], p));
      }
    }

    /** createTwinPage; not ok when the allocator has no slot. */
    method CreateTwinPage(p: nat) returns (ok: bool)
      requires Valid() && p < versions.Length
      modifies bitmap, bitmap.area, slots
      ensures Valid()
      ensures old(Slotted()) && old(bitmap.cur) <= LAST_SLOT ==> ok && Slotted() && Abs() == CreateTwin(old(Abs()), p)
    {
      var index: nat;
      ok, index := bitmap.Get();
      if !ok { return; }
      slots[p] := index % 65536;
      FillTwin(p, index);
    }

    /** The write-back of one page: memcpy if nobody has committed it since the fault, and otherwise only what differs
        from its twin.  Not ok when there is no twin. */
    method WritePage(p: nat) returns (ok: bool)
      requires Valid() && p in dirtied
      modifies persistent
      ensures ok <==> dirtied[p] == versions[p] || slots[p] != 0
      ensures ok && Slotted() ==> PagesOf(persistent[..]) == old(PagesOf(persistent[..]))[p := old(WriteBack(Abs(), p, Dirt()[p]))]
      ensures !ok ==> persistent[..] == old(persistent[..])
    {
      var d := p * PAGE_SIZE;
      ok := true;
      if dirtied[p] == versions[p] {
        CopyPage(transient, d, persistent, d);
      } else if slots[p] != 0 {
        WritePageDiffs(transient, d, bitmap.area, Address(slots[p]), persistent, d);
      } else {
        return false;
      }
      OnePage(old(persistent[..]), persistent[..], p);
    }

    /** The end of the loop in checkandcommit. */
    method Retire(p: nat)
      requires Valid() && p < versions.Length
      modifies users, slots, versions
      ensures Valid() && (old(Slotted()) ==> Slotted())
      ensures Abs() == TwinCommit.Retire(old(Abs()), p)
    {
      if users[p] == 1 {
        slots[p] := 0;
      }
      users[p] := users[p] - 1;
      versions[p] := versions[p] + 1;
    }

    method CommitOne(p: nat) returns (ok: bool)
      requires Valid() && p in dirtied
      modifies persistent, versions, users, slots, bitmap, bitmap.area
      ensures Valid()
      ensures old(Slotted()) && !CommitPage(old(Abs()), p, old(Dirt())[p]).overrun ==>
                && Slotted() && (ok <==> Committable(old(Abs()), p, old(Dirt())[p]))
                && (ok ==> Abs() == CommitPage(old(Abs()), p, old(Dirt())[p]))
    {
      if users[p] > 1 && slots[p] == 0 {
        ok := CreateTwinPage(p);
        if !ok { return; }
      }
      ok := WritePage(p);
      if !ok { return; }
      Retire(p);
    }

    /** The pages below p are committed. */
    ghost predicate CommittedBelow(sh: Shared, dirty: DirtyPages, p: nat)
      requires Valid() && TwinCommit.WellFormed(sh) && p <= |sh.share|
      reads this, persistent, versions, users, slots, bitmap, bitmap.area
    {
      Slotted() && Abs() == CommitBelow(sh, dirty, p) && AssertsBelow(sh, dirty, p)
    }

    /** One turn of the loop in checkandcommit.  Not ok when an assertion fails. */
    method CommitTo(ghost sh: Shared, ghost dirty: DirtyPages, p: nat) returns (ok: bool)
      requires Valid() && Dirt() == dirty && TwinCommit.WellFormed(sh) && |sh.share| == versions.Length && p < versions.Length
      modifies persistent, versions, users, slots, bitmap, bitmap.area
      ensures Valid() && Dirt() == dirty
      ensures old(CommittedBelow(sh, dirty, p)) && !CommitBelow(sh, dirty, p + 1).overrun ==>
                && Slotted() && (ok <==> (p in dirty ==> AssertsAt(sh, dirty, p)))
                && (ok ==> CommittedBelow(sh, dirty, p + 1))
    {
      ok := true;
      if p in dirtied { ok := CommitOne(p); }
      AssertsNext(sh, dirty, p);
    }

    /** checkandcommit(false): all dirty pages, in order, if there are slots for the twins.  Not ok when an assertion
        fails. */
    method CheckAndCommit() returns (ok: bool)
      requires Valid()
      modifies persistent, versions, users, slots, bitmap, bitmap.area
      ensures Valid() && Dirt() == old(Dirt())
      ensures old(Slotted()) && Room(old(Abs()), old(Dirt()).Keys) ==>
                && Slotted() && (ok <==> AssertsHold(old(Abs()), old(Dirt())))
                && (ok ==> Abs() == Commit(old(Abs()), old(Dirt())))
    {
      OverrunIff(Abs(), Dirt());
      ok := CommitAll();
    }

    method CommitAll() returns (ok: bool)
      requires Valid()
      modifies persistent, versions, users, slots, bitmap, bitmap.area
      ensures Valid() && Dirt() == old(Dirt())
      ensures old(Slotted()) && !Commit(old(Abs()), old(Dirt())).overrun ==>
                && Slotted() && (ok <==> AssertsHold(old(Abs()), old(Dirt())))
                && (ok ==> Abs() == Commit(old(Abs()), old(Dirt())))
    {
      ghost var sh, dirty := Abs(), Dirt();
      ghost var roomy := Slotted() && !Commit(sh, dirty).overrun;
      var p := 0;
      while p < versions.Length
        invariant 0 <= p <= versions.Length && Valid() && Dirt() == dirty && (roomy ==> CommittedBelow(sh, dirty, p))
      {
        if roomy { NotYetOverrun(sh, dirty, p + 1); }
        ok := CommitTo(sh, dirty, p);
        if !ok { return; }
        p := p + 1;
      }
      ok := true;
    }

    /** updateAll(true): the private copies are dropped. */
    method UpdateAll()
      requires Valid()
      modifies this`dirtied, this`bases
      ensures Valid() && Dirt() == map[] && Abs() == old(Abs())
    {
      dirtied, bases := map[], map[];
    }

    /** What the token holder h does at a synchronisation, atomicEnd(false) and atomicBegin(true), in terms of all the
        threads' uncommitted pages D: no assertion fails, exactly the bytes it changed reach the shared pages, it starts
        afresh, and the others' pages stay committable. */
    method CommitTurn(ghost D: Dirtiness, ghost h: TwinCommit.Tid) returns (ok: bool)
      requires Valid() && Slotted() && h in D && D[h] == Dirt() && TwinInv(Abs(), D, h)
      requires Room(Abs(), Dirt().Keys)
      modifies this`dirtied, this`bases, persistent, versions, users, slots, bitmap, bitmap.area
      ensures ok && Valid() && Slotted() && Dirt() == map[] && TwinInv(Abs(), D[h := map[]], h)
      ensures PagesOf(persistent[..]) == Merge(old(PagesOf(persistent[..])), old(Dirt()))
      ensures versions[..] == Bump(old(versions[..]), old(Dirt()))
    {
      HolderAsserts(Abs(), D, h);
      CommitCorrect(Abs(), D, h);
      ok := CheckAndCommit();
      UpdateAll();
    }
  }
}
