/** Sizes of finite sets of indices. */
module Counting {

  /** The numbers 0 .. n - 1. */
  ghost function Range(n: nat): (r: set<int>)
    ensures forall x :: x in r <==> 0 <= x < n
    ensures |r| == n
  {
    if n == 0 then {} else Range(n - 1) + {n - 1}
  }

  lemma {:induction false} SubsetSize<T>(a: set<T>, b: set<T>)
    requires a <= b
    ensures |a| <= |b|
    ensures |a| == |b| ==> a == b
  {
    if a != {} {
      var x :| x in a;
      SubsetSize(a - {x}, b - {x});
    } else if b != {} {
      var x :| x in b;
      assert |b| > 0;
    }
  }

  ghost predicate Distinct<T>(s: seq<T>) {
    forall i, j :: 0 <= i < j < |s| ==> s[i] != s[j]
  }

  ghost function Elements<T>(s: seq<T>): set<T> {
    set x | x in s
  }

  /** A sequence has at most as many different elements as places, and exactly as many if they differ. */
  lemma {:induction false} ElementsSize<T>(s: seq<T>)
    ensures |Elements(s)| <= |s|
    ensures Distinct(s) ==> |Elements(s)| == |s|
  {
    if s != [] {
      var q, x := s[..|s| - 1], s[|s| - 1];
      ElementsSize(q);
      assert s == q + [x];
      assert Elements(s) == Elements(q) + {x};
    }
  }

  lemma DistinctConcat<T>(a: seq<T>, b: seq<T>)
    requires Distinct(a) && Distinct(b) && forall x :: x in a ==> x !in b
    ensures Distinct(a + b)
  {
    forall i, j | 0 <= i < j < |a + b| ensures (a + b)[i] != (a + b)[j] {
      if i < |a| <= j { assert a[i] in a && b[j - |a|] in b; }
    }
  }

  lemma ElementsConcat<T>(a: seq<T>, b: seq<T>)
    ensures Elements(a + b) == Elements(a) + Elements(b)
  {
  }

  /** A ring without its first element, and turned by one. */
  lemma Turn<T>(ring: seq<T>)
    requires Distinct(ring) && ring != []
    ensures Distinct(ring[1..]) && Distinct(ring[1..] + [ring[0]]) && ring[0] !in ring[1..]
    ensures Elements(ring[1..]) == Elements(ring) - {ring[0]} && Elements(ring[1..] + [ring[0]]) == Elements(ring)
  {
    assert ring == [ring[0]] + ring[1..];
    DistinctConcat(ring[1..], [ring[0]]);
  }

  /** A ring with new elements behind its first. */
  lemma Insert<T>(ring: seq<T>, who: seq<T>)
    requires Distinct(ring) && Distinct(who) && ring != [] && forall x :: x in who ==> x !in ring
    ensures Distinct([ring[0]] + who + ring[1..])
    ensures Elements([ring[0]] + who + ring[1..]) == Elements(ring) + Elements(who)
    ensures Distinct(who + [ring[0]]) && Elements(who + [ring[0]]) == Elements(who) + {ring[0]}
  {
    Turn(ring);
    DistinctConcat([ring[0]], who);
    ElementsConcat([ring[0]], who);
    DistinctConcat([ring[0]] + who, ring[1..]);
    ElementsConcat([ring[0]] + who, ring[1..]);
    DistinctConcat(who, [ring[0]]);
    ElementsConcat(who, [ring[0]]);
  }

  lemma Some<T>(s: set<T>) returns (x: T)
    requires s != {}
    ensures x in s
  {
    x :| x in s;
  }
}
