/** The area that holds twin pages and their versions (xbitmap.h), byte for byte: a counter, then one version
    word per slot, and from the third page on the twin pages themselves. */
module Bitmap {
  import opened Bytes
  import opened Pages

  const INITIAL_PAGES := 81920
  const AREA_SIZE := PAGE_SIZE * (INITIAL_PAGES + 10)
  const PAGE_START := 2 * PAGE_SIZE

  /** The last slot whose version word is not part of a twin page. */
  const LAST_SLOT := 3070

  type Area = a: seq<Byte> | |a| == AREA_SIZE witness seq(AREA_SIZE, i => 0)

  function Address(slot: nat): nat {
    PAGE_START + slot * PAGE_SIZE
  }

  /** Version words follow the counter, which is four bytes too. */
  function VersionAddress(slot: nat): nat {
    4 + 4 * slot
  }

  ghost function TwinAt(area: Area, slot: nat): Page
    requires slot < INITIAL_PAGES
  {
    area[Address(slot)..Address(slot) + PAGE_SIZE]
  }

  /** A version is kept in a 32-bit word; higher bits are lost. */
  function Word(v: nat): (w: seq<Byte>)
    ensures w == [v % 256, v / 256 % 256, v / 65536 % 256, v / 16777216 % 256]
  {
    assert LE(v / 16777216, 1) == [v / 16777216 % 256];
    assert LE(v / 65536, 2) == [v / 65536 % 256] + LE(v / 65536 / 256, 1);
    assert LE(v / 256, 3) == [v / 256 % 256] + LE(v / 256 / 256, 2);
    LE(v, 4)
  }

  lemma WordRoundTrip(v: nat)
    ensures FromLE(Word(v)) == v % 0x1_0000_0000
  {
    Truncates(v, 4);
    assert Pow256(1) == 256 * Pow256(0);
    assert Pow256(2) == 65536 && Pow256(3) == 0x100_0000 && Pow256(4) == 0x1_0000_0000;
  }

  ghost function WithVersion(area: Area, slot: nat, v: nat): Area
    requires slot < INITIAL_PAGES
  {
    var a := VersionAddress(slot);
    area[..a] + Word(v) + area[a + 4..]
  }

  // ---------- which slots are safe ----------

  /** Setting the version of a slot changes no twin page. */
  ghost predicate Safe(slot: nat)
    requires slot < INITIAL_PAGES
  {
    forall area: Area, v: nat, t: nat :: 1 <= t < INITIAL_PAGES ==> TwinAt(WithVersion(area, slot, v), t) == TwinAt(area, t)
  }

  lemma VersionKeepsTwin(area: Area, slot: nat, v: nat, t: nat)
    requires slot <= LAST_SLOT && 1 <= t < INITIAL_PAGES
    ensures TwinAt(WithVersion(area, slot, v), t) == TwinAt(area, t)
  {
  }

  /** Beyond the last slot a version word lands in the twin page of another slot. */
  lemma VersionHitsTwin(slot: nat)
    requires LAST_SLOT < slot < INITIAL_PAGES
    ensures !Safe(slot)
  {
    var area: Area := seq(AREA_SIZE, i => 0);
    var a, b := VersionAddress(slot), WithVersion(area, slot, 1);
    var t := (a - PAGE_START) / PAGE_SIZE;
    var k := a - Address(t);
    assert b[a] == 1 && area[a] == 0;
    assert TwinAt(b, t)[k] == 1 && TwinAt(area, t)[k] == 0;
  }

  /** The slots that may be used are far fewer than the allocator hands out. */
  lemma SafeSlots(slot: nat)
    requires slot < INITIAL_PAGES
    ensures Safe(slot) <==> slot <= LAST_SLOT
  {
    if slot <= LAST_SLOT {
      forall area: Area, v: nat, t: nat | 1 <= t < INITIAL_PAGES
        ensures TwinAt(WithVersion(area, slot, v), t) == TwinAt(area, t)
      {
        VersionKeepsTwin(area, slot, v, t);
      }
    } else {
      VersionHitsTwin(slot);
    }
  }

  /** Versions of different slots do not disturb each other. */
  lemma VersionsApart(area: Area, slot: nat, v: nat, other: nat)
    requires slot < INITIAL_PAGES && other < INITIAL_PAGES
    ensures var b, o := WithVersion(area, slot, v), VersionAddress(other);
            FromLE(b[o..o + 4]) == if other == slot then v % 0x1_0000_0000 else FromLE(area[o..o + 4])
  {
    var b, a, o := WithVersion(area, slot, v), VersionAddress(slot), VersionAddress(other);
    if other == slot {
      assert b[a..a + 4] == Word(v);
      WordRoundTrip(v);
    } else {
      assert b[o..o + 4] == area[o..o + 4];
    }
  }

  class XBitmap {
    const area: array<Byte>
    var cur: nat

    ghost predicate Valid()
      reads this
    {
      area.Length == AREA_SIZE && 1 <= cur < INITIAL_PAGES
    }

    constructor ()
      ensures Valid() && fresh(area) && cur == 1
    {
      area := new Byte[AREA_SIZE];
      cur := 1;
    }

    /** The next slot; not ok when all are handed out. */
    method Get() returns (ok: bool, index: nat)
      requires Valid()
      modifies this`cur
      ensures Valid() && 1 <= index < INITIAL_PAGES
      ensures ok <==> old(cur) + 1 < INITIAL_PAGES
      ensures index == old(cur) && cur == if ok then old(cur) + 1 else old(cur)
    {
      index := cur;
      ok := cur + 1 < INITIAL_PAGES;
      if ok { cur := cur + 1; }
    }

    method SetVersion(index: nat, version: nat)
      requires Valid() && index < INITIAL_PAGES
      modifies area
      ensures area[..] == WithVersion(old(area[..]), index, version)
    {
      var a := VersionAddress(index);
      area[a] := version % 256;
      area[a + 1] := version / 256 % 256;
      area[a + 2] := version / 65536 % 256;
      area[a + 3] := version / 16777216 % 256;
    }

    method GetVersion(index: nat) returns (version: nat)
      requires Valid() && 1 <= index < INITIAL_PAGES
      ensures version == FromLE(area[..][VersionAddress(index)..VersionAddress(index) + 4])
    {
      var a := VersionAddress(index);
      version := FromLE(area[a..a + 4]);
    }

    /** All slots are free again. */
    method Cleanup()
      requires Valid()
      modifies this`cur
      ensures Valid() && cur == 1
    {
      cur := 1;
    }
  }
}
