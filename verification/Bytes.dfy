/** Bytes, and numbers as little-endian bytes. */
module Bytes {
  import Division

  type Byte = b: int | 0 <= b < 256

  ghost function Pow256(k: nat): nat {
    if k == 0 then 1 else 256 * Pow256(k - 1)
  }

  /** The low k bytes of n. */
  function LE(n: nat, k: nat): (r: seq<Byte>)
    ensures |r| == k
    decreases k
  {
    if k == 0 then [] else [n % 256] + LE(n / 256, k - 1)
  }

  function FromLE(b: seq<Byte>): nat {
    if b == [] then 0 else b[0] as int + 256 * FromLE(b[1..])
  }

  lemma {:induction false} RoundTrip(n: nat, k: nat)
    ensures n < Pow256(k) ==> FromLE(LE(n, k)) == n
    decreases k
  {
    if k > 0 { RoundTrip(n / 256, k - 1); }
  }

  /** And the other way round: bytes are those of the number that they spell. */
  lemma {:induction false} TripRound(b: seq<Byte>)
    ensures FromLE(b) < Pow256(|b|) && LE(FromLE(b), |b|) == b
    decreases |b|
  {
    if b != [] { TripRound(b[1..]); }
  }

  /** What does not fit is lost. */
  lemma {:induction false} Truncates(n: nat, k: nat)
    ensures Pow256(k) > 0 && FromLE(LE(n, k)) == n % Pow256(k)
    decreases k
  {
    if k > 0 {
      Truncates(n / 256, k - 1);
      var p := Pow256(k - 1);
      assert LE(n, k)[1..] == LE(n / 256, k - 1);
      DivMod(n, p);
    }
  }

  lemma DivMod(n: nat, p: nat)
    requires p > 0
    ensures n % (256 * p) == n % 256 + 256 * (n / 256 % p)
  {
    var q, m := n / 256 / p, n / 256 % p;
    assert n / 256 == p * q + m;
    assert n == 256 * (p * q + m) + n % 256;
    assert n == (256 * p) * q + (256 * m + n % 256);
    assert 256 * m + n % 256 < 256 * p;
    Division.Unique(n, 256 * p, q, 256 * m + n % 256);
  }
}
