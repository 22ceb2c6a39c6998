/** Pages of bytes, and the two ways xpersist.h writes a page's changes to the shared copy. */
module Pages {
  import opened Bytes

  const PAGE_SIZE := 4096
  const WORD_SIZE := 8
  const CHUNK_SIZE := 16

  type Page = p: seq<Byte> | |p| == PAGE_SIZE witness seq(PAGE_SIZE, i => 0)

  /** dest with the bytes that local changed since base. */
  function Overlay(dest: seq<Byte>, local: seq<Byte>, base: seq<Byte>): (r: seq<Byte>)
    requires |dest| == |local| == |base|
    ensures |r| == |dest|
    ensures forall i :: 0 <= i < |dest| ==> r[i] == if local[i] != base[i] then local[i] else dest[i]
  {
    seq(|dest|, i requires 0 <= i < |dest| => if local[i] != base[i] then local[i] else dest[i])
  }

  /** Copying a whole page is right when the destination still is the page's base. */
  lemma CopyIsOverlay(local: seq<Byte>, base: seq<Byte>)
    requires |local| == |base|
    ensures Overlay(base, local, base) == local
  {
    assert forall i :: 0 <= i < |base| ==> Overlay(base, local, base)[i] == local[i];
  }

  ghost predicate DisjointWrites(l1: seq<Byte>, b1: seq<Byte>, l2: seq<Byte>, b2: seq<Byte>) {
    && |l1| == |b1| == |l2| == |b2|
    && forall i :: 0 <= i < |l1| ==> l1[i] == b1[i] || l2[i] == b2[i]
  }

  /** The order of two overlays matters only for bytes that both change. */
  lemma OverlaysCommute(dest: seq<Byte>, l1: seq<Byte>, b1: seq<Byte>, l2: seq<Byte>, b2: seq<Byte>)
    requires |dest| == |l1| && DisjointWrites(l1, b1, l2, b2)
    ensures Overlay(Overlay(dest, l1, b1), l2, b2) == Overlay(Overlay(dest, l2, b2), l1, b1)
  {
    var r, s := Overlay(Overlay(dest, l1, b1), l2, b2), Overlay(Overlay(dest, l2, b2), l1, b1);
    assert forall i :: 0 <= i < |dest| ==> r[i] == s[i];
  }

  /** Page number p of a flat memory area. */
  ghost function PageAt(a: seq<Byte>, p: nat): Page
    requires (p + 1) * PAGE_SIZE <= |a|
  {
    a[p * PAGE_SIZE..(p + 1) * PAGE_SIZE]
  }

  /** Where `before` was, `after` has merged n bytes from d on, and changed nothing else. */
  ghost predicate Merged(before: seq<Byte>, after: seq<Byte>, local: seq<Byte>, l: nat, twin: seq<Byte>, t: nat, d: nat, n: nat)
  {
    && l + n <= |local| && t + n <= |twin| && d + n <= |before| == |after|
    && forall k :: 0 <= k < |before| ==>
         after[k] == if d <= k < d + n && local[l + (k - d)] != twin[t + (k - d)] then local[l + (k - d)] else before[k]
  }

  lemma MergedPage(before: seq<Byte>, after: seq<Byte>, local: seq<Byte>, l: nat, twin: seq<Byte>, t: nat, d: nat)
    requires Merged(before, after, local, l, twin, t, d, PAGE_SIZE)
    ensures after[..d] == before[..d] && after[d + PAGE_SIZE..] == before[d + PAGE_SIZE..]
    ensures after[d..d + PAGE_SIZE] == Overlay(before[d..d + PAGE_SIZE], local[l..l + PAGE_SIZE], twin[t..t + PAGE_SIZE])
  {
  }

  /** One word of the slow path: byte by byte. */
  method CommitWord(src: array<Byte>, s: nat, twin: array<Byte>, t: nat, dest: array<Byte>, d: nat)
    requires s + WORD_SIZE <= src.Length && t + WORD_SIZE <= twin.Length && d + WORD_SIZE <= dest.Length
    requires dest != src && dest != twin
    modifies dest
    ensures Merged(old(dest[..]), dest[..], src[..], s, twin[..], t, d, WORD_SIZE)
  {
    for i := 0 to WORD_SIZE
      invariant Merged(old(dest[..]), dest[..], src[..], s, twin[..], t, d, i)
    {
      if src[s + i] != twin[t + i] {
        dest[d + i] := src[s + i];
      }
    }
  }

  /** The comparison of two 64-bit words. */
  method SameWord(a: array<Byte>, i: nat, b: array<Byte>, j: nat) returns (same: bool)
    requires i + WORD_SIZE <= a.Length && j + WORD_SIZE <= b.Length
    ensures same <==> forall k :: i <= k < i + WORD_SIZE ==> a[k] == b[j + (k - i)]
  {
    var x, y := a[i..i + WORD_SIZE], b[j..j + WORD_SIZE];
    same := x == y;
    if same {
      forall k | i <= k < i + WORD_SIZE ensures a[k] == b[j + (k - i)] {
        assert x[k - i] == y[k - i];
      }
    } else {
      var k :| 0 <= k < WORD_SIZE && x[k] != y[k];
      assert a[i + k] != b[j + ((i + k) - i)];
    }
  }

  /** The slow path without SSE: words that are equal are skipped. */
  method WritePageDiffs(local: array<Byte>, l: nat, twin: array<Byte>, t: nat, dest: array<Byte>, d: nat)
    requires l + PAGE_SIZE <= local.Length && t + PAGE_SIZE <= twin.Length && d + PAGE_SIZE <= dest.Length
    requires dest != local && dest != twin
    modifies dest
    ensures dest[..][..d] == old(dest[..])[..d] && dest[..][d + PAGE_SIZE..] == old(dest[..])[d + PAGE_SIZE..]
    ensures dest[..][d..d + PAGE_SIZE] == Overlay(old(dest[..])[d..d + PAGE_SIZE], local[..][l..l + PAGE_SIZE], twin[..][t..t + PAGE_SIZE])
  {
    for i := 0 to PAGE_SIZE / WORD_SIZE
      invariant Merged(old(dest[..]), dest[..], local[..], l, twin[..], t, d, i * WORD_SIZE)
    {
      var k := i * WORD_SIZE;
      var same := SameWord(local, l + k, twin, t + k);
      if !same {
        CommitWord(local, l + k, twin, t + k, dest, d + k);
      }
    }
    MergedPage(old(dest[..]), dest[..], local[..], l, twin[..], t, d);
  }

  /** The slow path with SSE: a mask of the differing bytes selects what a chunk stores. */
  method WritePageDiffsMasked(local: array<Byte>, l: nat, twin: array<Byte>, t: nat, dest: array<Byte>, d: nat)
    requires l + PAGE_SIZE <= local.Length && t + PAGE_SIZE <= twin.Length && d + PAGE_SIZE <= dest.Length
    requires dest != local && dest != twin
    modifies dest
    ensures dest[..][..d] == old(dest[..])[..d] && dest[..][d + PAGE_SIZE..] == old(dest[..])[d + PAGE_SIZE..]
    ensures dest[..][d..d + PAGE_SIZE] == Overlay(old(dest[..])[d..d + PAGE_SIZE], local[..][l..l + PAGE_SIZE], twin[..][t..t + PAGE_SIZE])
  {
    for i := 0 to PAGE_SIZE / CHUNK_SIZE
      invariant Merged(old(dest[..]), dest[..], local[..], l, twin[..], t, d, i * CHUNK_SIZE)
    {
      var k := i * CHUNK_SIZE;
      var differs := seq(CHUNK_SIZE, b requires 0 <= b < CHUNK_SIZE reads local, twin => !(local[l + k + b] == twin[t + k + b]));
      forall b | 0 <= b < CHUNK_SIZE && differs[b] {
        dest[d + k + b] := local[l + k + b];
      }
    }
    MergedPage(old(dest[..]), dest[..], local[..], l, twin[..], t, d);
  }

  /** memcpy of one page. */
  method CopyPage(src: array<Byte>, s: nat, dest: array<Byte>, d: nat)
    requires s + PAGE_SIZE <= src.Length && d + PAGE_SIZE <= dest.Length && src != dest
    modifies dest
    ensures dest[..][..d] == old(dest[..])[..d] && dest[..][d + PAGE_SIZE..] == old(dest[..])[d + PAGE_SIZE..]
    ensures dest[..][d..d + PAGE_SIZE] == src[..][s..s + PAGE_SIZE]
  {
    forall i | 0 <= i < PAGE_SIZE {
      dest[d + i] := src[s + i];
    }
  }
}
