/** Power-of-two size classes (kingsleyheap.h). */
module Kingsley {
  import Division

  const NUMBINS := 29

  /** The classes of 8 to 128 bytes, by eighths. */
  const CL: seq<nat> := [0, 1, 2, 2, 3, 3, 3, 3, 4, 4, 4, 4, 4, 4, 4, 4]

  function Pow2(n: nat): (r: nat)
    ensures r > 0
  {
    if n == 0 then 1 else 2 * Pow2(n - 1)
  }

  function Class2Size(i: nat): nat {
    Pow2(i + 3)
  }

  /** c is the class of the objects that sz bytes go into: the least that is large enough. */
  ghost predicate IsClass(sz: nat, c: nat) {
    Class2Size(c) >= sz && (c > 0 ==> Class2Size(c - 1) < sz)
  }

  lemma {:induction false} Pow2Grows(m: nat, n: nat)
    requires m < n
    ensures 2 * Pow2(m) <= Pow2(n)
    decreases n
  {
    if m < n - 1 { Pow2Grows(m, n - 1); }
  }

  lemma SmallPowers()
    ensures Class2Size(0) == 8 && Class2Size(1) == 16 && Class2Size(2) == 32 && Class2Size(3) == 64 && Class2Size(4) == 128
    ensures Class2Size(5) == 256
  {
    assert Pow2(1) == 2 && Pow2(2) == 4 && Pow2(3) == 8 && Pow2(4) == 16 && Pow2(5) == 32 && Pow2(6) == 64 && Pow2(7) == 128;
  }

  method Size2Class(size: nat) returns (c: nat)
    ensures IsClass(if size < 8 then 8 else size, c)
  {
    SmallPowers();
    var sz := if size < 8 then 8 else size;
    if sz <= 128 {
      return CL[(sz - 1) / 8];
    }
    c := 5;
    var sz1 := (sz - 1) / 32;
    ghost var unit := 32;
    while sz1 > 7
      invariant c >= 5 && Class2Size(c) == 8 * unit && sz1 == (sz - 1) / unit
      invariant sz1 >= 4 && unit > 0
      decreases sz1
    {
      Halves(sz - 1, unit);
      sz1 := sz1 / 2;
      unit := 2 * unit;
      c := c + 1;
    }
    Between(sz - 1, unit, sz1);
  }

  lemma Halves(n: nat, unit: nat)
    requires unit > 0
    ensures n / unit / 2 == n / (2 * unit)
  {
    var q, r := n / unit, n % unit;
    var q2, r2 := q / 2, q % 2;
    assert n == unit * q + r && q == 2 * q2 + r2;
    assert n == (2 * unit) * q2 + (unit * r2 + r);
    assert 0 <= unit * r2 + r < 2 * unit;
    Division.Unique(n, 2 * unit, q2, unit * r2 + r);
  }

  lemma Between(n: nat, unit: nat, q: nat)
    requires unit > 0 && q == n / unit && 4 <= q <= 7
    ensures 4 * unit <= n < 8 * unit
  {
    assert n == unit * q + n % unit;
    assert unit * q >= unit * 4 && unit * q <= unit * 7;
  }

  /** There is only one. */
  lemma ClassIsUnique(sz: nat, c: nat, d: nat)
    requires IsClass(sz, c) && IsClass(sz, d)
    ensures c == d
  {
    if c < d - 1 { Pow2Grows(c + 3, d - 1 + 3); }
    if d < c - 1 { Pow2Grows(d + 3, c - 1 + 3); }
  }

  /** A class holds objects of its own size, so that the two functions are inverse on class sizes. */
  lemma ClassOfItsSize(c: nat)
    ensures IsClass(Class2Size(c), c)
  {
    if c > 0 { Pow2Grows(c - 1 + 3, c + 3); }
  }

  /** The class, from c on. */
  ghost function ClassFrom(sz: nat, c: nat): (r: nat)
    requires c < NUMBINS && sz <= Class2Size(NUMBINS - 1) && (c > 0 ==> Class2Size(c - 1) < sz)
    ensures r < NUMBINS && IsClass(sz, r)
    decreases NUMBINS - c
  {
    if sz <= Class2Size(c) then c else ClassFrom(sz, c + 1)
  }

  /** Sizes up to that of the last class have a class below NUMBINS. */
  lemma ClassInRange(sz: nat, c: nat)
    requires IsClass(sz, c) && sz <= Class2Size(NUMBINS - 1)
    ensures c < NUMBINS
  {
    if c >= NUMBINS {
      if c > NUMBINS { Pow2Grows(NUMBINS - 1 + 3, c - 1 + 3); }
      assert false;
    }
  }
}
