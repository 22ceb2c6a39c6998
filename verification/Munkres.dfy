/** The assignment solver of ferret (assign.c): Munkres' form of the Hungarian method, run in place on
    a matrix of reduced costs and a matrix of marks.  Costs are reals; rounding is not modelled. */
module Munkres {
  import opened Counting

  const STAR := 1
  const PRIME := 2
  const FLIP := 4

  // ---------- what the solver is for ----------

  ghost predicate IsAssignment(p: seq<int>, n: nat) {
    && |p| == n
    && (forall i :: 0 <= i < n ==> 0 <= p[i] < n)
    && (forall i, j :: 0 <= i < j < n ==> p[i] != p[j])
  }

  ghost function CostUpTo(c: array2<real>, p: seq<int>, k: nat): real
    requires k <= |p| && k <= c.Length0
    requires forall i :: 0 <= i < |p| ==> 0 <= p[i] < c.Length1
    reads c
  {
    if k == 0 then 0.0 else CostUpTo(c, p, k - 1) + c[k - 1, p[k - 1]]
  }

  ghost predicate Square<T>(a: array2<T>, n: nat) {
    a.Length0 == n && a.Length1 == n
  }

  /** No assignment of the n rows to the n columns costs less than `result`. */
  ghost predicate IsLowerBound(c: array2<real>, n: nat, result: real)
    requires Square(c, n)
    reads c
  {
    forall p: seq<int> {:trigger IsAssignment(p, n)} :: IsAssignment(p, n) ==> result <= CostUpTo(c, p, n)
  }

  // ---------- sums over assignments ----------

  ghost function Sum(s: seq<real>): real {
    if s == [] then 0.0 else Sum(s[..|s| - 1]) + s[|s| - 1]
  }

  lemma {:induction false} SumConcat(a: seq<real>, b: seq<real>)
    ensures Sum(a + b) == Sum(a) + Sum(b)
    decreases |b|
  {
    if b == [] {
      assert a + b == a;
    } else {
      SumConcat(a, b[..|b| - 1]);
      assert (a + b)[..|a + b| - 1] == a + b[..|b| - 1];
    }
  }

  ghost function Gather(v: seq<real>, p: seq<int>): (r: seq<real>)
    requires forall i :: 0 <= i < |p| ==> 0 <= p[i] < |v|
    ensures |r| == |p|
    ensures forall i :: 0 <= i < |p| ==> r[i] == v[p[i]]
  {
    seq(|p|, i requires 0 <= i < |p| => v[p[i]])
  }

  /** An injective map of 0 .. n - 1 into itself is onto. */
  lemma AssignmentIsOnto(p: seq<int>, n: nat, k: int)
    requires IsAssignment(p, n) && 0 <= k < n
    ensures k in p
  {
    ElementsSize(p);
    assert Elements(p) <= Range(n);
    SubsetSize(Elements(p), Range(n));
    assert k in Elements(p);
  }

  lemma SumOne(x: real)
    ensures Sum([x]) == x
  {
    assert [x][..0] == [];
  }

  lemma SumRemove(s: seq<real>, k: nat)
    requires k < |s|
    ensures Sum(s) == Sum(s[..k] + s[k + 1..]) + s[k]
  {
    var a, x, b := s[..k], s[k], s[k + 1..];
    assert s == a + ([x] + b);
    SumConcat(a, [x] + b);
    SumConcat([x], b);
    SumConcat(a, b);
    SumOne(x);
  }

  lemma {:induction false} PermutedSum(v: seq<real>, p: seq<int>)
    requires IsAssignment(p, |v|)
    ensures Sum(Gather(v, p)) == Sum(v)
    decreases |v|
  {
    if v == [] {
      assert Gather(v, p) == [];
    } else {
      var m := |v| - 1;
      var q := WithoutLast(v, p, m);
      PermutedSum(v[..m], q);
      SumLast(v, m);
    }
  }

  lemma SumLast(v: seq<real>, m: nat)
    requires |v| == m + 1
    ensures Sum(v) == Sum(v[..m]) + v[m]
  {
  }

  /** The last column, wherever it is assigned, taken out of the sum. */
  lemma WithoutLast(v: seq<real>, p: seq<int>, m: nat) returns (q: seq<int>)
    requires IsAssignment(p, |v|) && |v| == m + 1
    ensures IsAssignment(q, m) && Sum(Gather(v, p)) == Sum(Gather(v[..m], q)) + v[m]
  {
    AssignmentIsOnto(p, |v|, m);
    var k :| 0 <= k < |p| && p[k] == m;
    q := RemoveLastColumn(v, p, k, m);
    GatherWithout(v, p, k, m, q);
    SumRemove(Gather(v, p), k);
  }

  lemma RemoveLastColumn(v: seq<real>, p: seq<int>, k: nat, m: nat) returns (q: seq<int>)
    requires IsAssignment(p, |v|) && |v| == m + 1 && k < |p| && p[k] == m
    ensures q == p[..k] + p[k + 1..] && IsAssignment(q, m)
  {
    q := p[..k] + p[k + 1..];
    forall i | 0 <= i < m
      ensures q[i] == p[if i < k then i else i + 1] && 0 <= q[i] < m
    {
      assert p[if i < k then i else i + 1] != p[k];
    }
    forall i, j | 0 <= i < j < m ensures q[i] != q[j] {
      assert p[if i < k then i else i + 1] != p[if j < k then j else j + 1];
    }
  }

  lemma GatherWithout(v: seq<real>, p: seq<int>, k: nat, m: nat, q: seq<int>)
    requires (forall i :: 0 <= i < |p| ==> 0 <= p[i] < |v|) && |v| == m + 1 && k < |p| && q == p[..k] + p[k + 1..]
    requires forall i :: 0 <= i < |q| ==> 0 <= q[i] < m
    ensures Gather(v[..m], q) == Gather(v, p)[..k] + Gather(v, p)[k + 1..]
  {
  }

  // ---------- the dual: reduced costs ----------

  /** cost is the input less a potential for each row and each column, and is nowhere negative. */
  ghost predicate Reduced(n: nat, c: array2<real>, cost: array2<real>, u: seq<real>, v: seq<real>)
    requires Square(c, n) && Square(cost, n)
    reads c, cost
  {
    && |u| == |v| == n
    && forall i, j {:trigger cost[i, j]} :: 0 <= i < n && 0 <= j < n ==>
         cost[i, j] == c[i, j] - u[i] - v[j] && cost[i, j] >= 0.0
  }

  /** Weak duality: the potentials bound every assignment from below, tightly where all its cells are zero. */
  lemma {:induction false} Duality(n: nat, c: array2<real>, cost: array2<real>, u: seq<real>, v: seq<real>, p: seq<int>, k: nat)
    requires Square(c, n) && Square(cost, n) && Reduced(n, c, cost, u, v)
    requires IsAssignment(p, n) && k <= n
    ensures Sum(u[..k]) + Sum(Gather(v, p)[..k]) <= CostUpTo(c, p, k)
    ensures (forall i :: 0 <= i < k ==> cost[i, p[i]] == 0.0) ==>
              Sum(u[..k]) + Sum(Gather(v, p)[..k]) == CostUpTo(c, p, k)
    decreases k
  {
    if k > 0 {
      Duality(n, c, cost, u, v, p, k - 1);
      assert u[..k][..k - 1] == u[..k - 1];
      assert Gather(v, p)[..k][..k - 1] == Gather(v, p)[..k - 1];
      assert cost[k - 1, p[k - 1]] >= 0.0;
    }
  }

  lemma Optimal(n: nat, c: array2<real>, cost: array2<real>, u: seq<real>, v: seq<real>, star: seq<int>)
    requires Square(c, n) && Square(cost, n) && Reduced(n, c, cost, u, v)
    requires IsAssignment(star, n)
    requires forall i :: 0 <= i < n ==> cost[i, star[i]] == 0.0
    ensures IsLowerBound(c, n, CostUpTo(c, star, n))
  {
    forall p: seq<int> | IsAssignment(p, n)
      ensures CostUpTo(c, star, n) <= CostUpTo(c, p, n)
    {
      Duality(n, c, cost, u, v, p, n);
      Duality(n, c, cost, u, v, star, n);
      PermutedSum(v, p);
      PermutedSum(v, star);
      assert Gather(v, p)[..n] == Gather(v, p) && Gather(v, star)[..n] == Gather(v, star);
    }
  }

  // ---------- marks: at most one star and one prime in a row ----------

  /** Partial assignments: a column for each row, or -1. */
  ghost predicate Partial(n: nat, s: seq<int>) {
    |s| == n && forall i :: 0 <= i < n ==> -1 <= s[i] < n
  }

  ghost predicate OnZeros(n: nat, cost: array2<real>, s: seq<int>)
    requires Square(cost, n) && Partial(n, s)
    reads cost
  {
    forall i :: 0 <= i < n && s[i] >= 0 ==> cost[i, s[i]] == 0.0
  }

  ghost predicate Independent(s: seq<int>) {
    forall i, j :: 0 <= i < j < |s| && s[i] >= 0 ==> s[i] != s[j]
  }

  ghost predicate MarksDiffer(n: nat, star: seq<int>, prime: seq<int>)
    requires Partial(n, star) && Partial(n, prime)
  {
    forall i :: 0 <= i < n && prime[i] >= 0 ==> prime[i] != star[i]
  }

  ghost function Mark(star: int, prime: int, flipped: bool, j: int): int {
    if j == star then (if flipped then STAR + FLIP else STAR)
    else if j == prime then (if flipped then PRIME + FLIP else PRIME)
    else 0
  }

  /** M holds exactly these stars and primes; the marks of the rows in `flipped` carry the flip bit. */
  ghost predicate Marked(n: nat, M: array2<int>, star: seq<int>, prime: seq<int>, flipped: set<int>)
    requires Square(M, n) && Partial(n, star) && Partial(n, prime)
    reads M
  {
    forall i, j {:trigger M[i, j]} :: 0 <= i < n && 0 <= j < n ==> M[i, j] == Mark(star[i], prime[i], i in flipped, j)
  }

  ghost function None(n: nat): (s: seq<int>)
    ensures Partial(n, s)
    ensures forall i :: 0 <= i < n ==> s[i] == -1
  {
    seq(n, i => -1)
  }

  ghost function StarredRows(star: seq<int>): set<int> {
    set i | 0 <= i < |star| && star[i] >= 0
  }

  lemma AllStarred(star: seq<int>)
    ensures |StarredRows(star)| <= |star|
    ensures |StarredRows(star)| == |star| <==> forall i :: 0 <= i < |star| ==> star[i] >= 0
  {
    SubsetSize(StarredRows(star), Range(|star|));
    assert StarredRows(star) <= Range(|star|);
    if i :| 0 <= i < |star| && star[i] < 0 {
      assert i in Range(|star|) && i !in StarredRows(star);
    } else {
      assert StarredRows(star) == Range(|star|);
    }
  }

  /** While a row has no star, some column has none. */
  lemma FreeColumn(n: nat, star: seq<int>, r: int) returns (c: int)
    requires Partial(n, star) && 0 <= r < n && star[r] < 0
    ensures 0 <= c < n && c !in star
  {
    var rest := star[..r] + star[r + 1..];
    ElementsSize(rest);
    if Range(n) <= Elements(rest) {
      SubsetSize(Range(n), Elements(rest));
      assert false;
    }
    c :| c in Range(n) && c !in Elements(rest);
    assert star == star[..r] + [star[r]] + star[r + 1..];
  }

  // ---------- covers, and the order in which primes were made ----------

  /** Every star lies under exactly one line: its column's, or its row's once the row has a prime.
      `rank` numbers the primes in the order they were made; the star in a prime's column, if there is
      one, belongs to a row that was primed before. */
  ghost predicate Covered(n: nat, rcov: array<bool>, ccov: array<bool>, star: seq<int>, prime: seq<int>, rank: seq<int>)
    requires Partial(n, star) && Partial(n, prime) && |rank| == n && rcov.Length == ccov.Length == n
    reads rcov, ccov
  {
    && (forall i :: 0 <= i < n ==> (rcov[i] <==> prime[i] >= 0))
    && (forall i :: 0 <= i < n && prime[i] >= 0 ==> star[i] >= 0 && !ccov[prime[i]])
    && (forall i :: 0 <= i < n && star[i] >= 0 ==> (ccov[star[i]] <==> prime[i] < 0))
    && (forall j :: 0 <= j < n && ccov[j] ==> j in star)
    && Ranked(n, star, prime, rank)
  }

  ghost predicate Ranked(n: nat, star: seq<int>, prime: seq<int>, rank: seq<int>)
    requires Partial(n, star) && Partial(n, prime) && |rank| == n
  {
    && (forall i :: 0 <= i < n && prime[i] >= 0 ==> 0 <= rank[i])
    && (forall i, q :: 0 <= i < n && 0 <= q < n && prime[i] >= 0 && star[q] == prime[i] ==>
          prime[q] >= 0 && rank[q] < rank[i])
  }

  ghost predicate State(n: nat, c: array2<real>, cost: array2<real>, M: array2<int>, u: seq<real>, v: seq<real>, star: seq<int>, prime: seq<int>)
    requires Square(c, n) && Square(cost, n) && Square(M, n)
    reads c, cost, M
  {
    && Reduced(n, c, cost, u, v)
    && Partial(n, star) && Partial(n, prime)
    && OnZeros(n, cost, star) && OnZeros(n, cost, prime) && Independent(star)
    && MarksDiffer(n, star, prime)
    && Marked(n, M, star, prime, {})
  }

  // ---------- preprocessing ----------

  method SubtractRowMinima(n: nat, c: array2<real>, cost: array2<real>) returns (ghost u: seq<real>)
    requires Square(c, n) && Square(cost, n) && c != cost
    modifies cost
    ensures |u| == n
    ensures forall i, j {:trigger cost[i, j]} :: 0 <= i < n && 0 <= j < n ==> cost[i, j] == c[i, j] - u[i] && cost[i, j] >= 0.0
  {
    u := [];
    for i := 0 to n
      invariant |u| == i
      invariant forall r, j {:trigger cost[r, j]} :: 0 <= r < i && 0 <= j < n ==> cost[r, j] == c[r, j] - u[r] && cost[r, j] >= 0.0
    {
      var min := c[i, 0];
      for j := 1 to n
        invariant forall k :: 0 <= k < j ==> min <= c[i, k]
      {
        if c[i, j] < min { min := c[i, j]; }
      }
      for j := 0 to n
        invariant forall r, k {:trigger cost[r, k]} :: 0 <= r < i && 0 <= k < n ==> cost[r, k] == c[r, k] - u[r] && cost[r, k] >= 0.0
        invariant forall k :: 0 <= k < j ==> cost[i, k] == c[i, k] - min
      {
        cost[i, j] := c[i, j] - min;
      }
      u := u + [min];
    }
  }

  method SubtractColumnMinima(n: nat, c: array2<real>, cost: array2<real>, ghost u: seq<real>) returns (ghost v: seq<real>)
    requires Square(c, n) && Square(cost, n) && c != cost && |u| == n
    requires forall i, j {:trigger cost[i, j]} :: 0 <= i < n && 0 <= j < n ==> cost[i, j] == c[i, j] - u[i] && cost[i, j] >= 0.0
    modifies cost
    ensures Reduced(n, c, cost, u, v)
  {
    v := [];
    for j := 0 to n
      invariant |v| == j
      invariant forall r, k {:trigger cost[r, k]} :: 0 <= r < n && 0 <= k < j ==> cost[r, k] == c[r, k] - u[r] - v[k] && cost[r, k] >= 0.0
      invariant forall r, k {:trigger cost[r, k]} :: 0 <= r < n && j <= k < n ==> cost[r, k] == c[r, k] - u[r] && cost[r, k] >= 0.0
    {
      var min := cost[0, j];
      for i := 1 to n
        invariant forall r :: 0 <= r < i ==> min <= cost[r, j]
      {
        if cost[i, j] < min { min := cost[i, j]; }
      }
      label start:
      for i := 0 to n
        invariant forall r, k {:trigger cost[r, k]} :: 0 <= r < n && 0 <= k < n && (k != j || i <= r) ==> cost[r, k] == old@start(cost[r, k])
        invariant forall r :: 0 <= r < i ==> cost[r, j] == old@start(cost[r, j]) - min
      {
        cost[i, j] := cost[i, j] - min;
      }
      v := v + [min];
    }
  }

  // ---------- the numbered steps ----------

  /** Step 1: star each zero that shares no row or column with an earlier star. */
  ghost predicate CoversStars(n: nat, rcov: array<bool>, ccov: array<bool>, star: seq<int>)
    reads rcov, ccov
  {
    && rcov.Length == ccov.Length == |star| == n
    && (forall r :: 0 <= r < n ==> (rcov[r] <==> star[r] >= 0))
    && (forall k :: 0 <= k < n ==> (ccov[k] <==> k in star))
  }

  ghost predicate StarsOnly(n: nat, M: array2<int>, star: seq<int>, i: nat, j: nat)
    requires Square(M, n) && |star| == n
    reads M
  {
    forall r, k {:trigger M[r, k]} :: 0 <= r < n && 0 <= k < n && (r < i || (r == i && k < j)) ==> M[r, k] == Mark(star[r], -1, false, k)
  }

  method StarZeros(n: nat, cost: array2<real>, M: array2<int>) returns (ghost star: seq<int>)
    requires Square(cost, n) && Square(M, n)
    modifies M
    ensures Partial(n, star) && Independent(star) && OnZeros(n, cost, star)
    ensures Marked(n, M, star, None(n), {})
  {
    var rcov, ccov := new bool[n], new bool[n];
    Clear(rcov);
    Clear(ccov);
    star := None(n);
    for i := 0 to n
      invariant Partial(n, star) && Independent(star) && OnZeros(n, cost, star) && CoversStars(n, rcov, ccov, star)
      invariant forall r :: i <= r < n ==> star[r] < 0
      invariant StarsOnly(n, M, star, i, 0)
    {
      star := StarInRow(n, cost, M, rcov, ccov, star, i);
    }
  }

  /** The zeros of row i: the first one in a column without a star gets one. */
  method StarInRow(n: nat, cost: array2<real>, M: array2<int>, rcov: array<bool>, ccov: array<bool>, ghost star0: seq<int>, i: nat)
    returns (ghost star: seq<int>)
    requires Square(cost, n) && Square(M, n) && i < n && rcov != ccov
    requires Partial(n, star0) && Independent(star0) && OnZeros(n, cost, star0) && CoversStars(n, rcov, ccov, star0)
    requires (forall r :: i <= r < n ==> star0[r] < 0) && StarsOnly(n, M, star0, i, 0)
    modifies M, rcov, ccov
    ensures Partial(n, star) && Independent(star) && OnZeros(n, cost, star) && CoversStars(n, rcov, ccov, star)
    ensures (forall r :: i < r < n ==> star[r] < 0) && StarsOnly(n, M, star, i + 1, 0)
  {
    star := star0;
    for j := 0 to n
      invariant Partial(n, star) && Independent(star) && OnZeros(n, cost, star) && CoversStars(n, rcov, ccov, star)
      invariant (forall r :: i < r < n ==> star[r] < 0) && star[i] < j && StarsOnly(n, M, star, i, j)
    {
      if cost[i, j] == 0.0 && !rcov[i] && !ccov[j] {
        rcov[i] := true;
        ccov[j] := true;
        M[i, j] := STAR;
        AddStar(n, cost, star, i, j);
        star := star[i := j];
      } else {
        M[i, j] := 0;
      }
    }
  }

  lemma AddStar(n: nat, cost: array2<real>, star: seq<int>, i: nat, j: nat)
    requires Square(cost, n) && i < n && j < n
    requires Partial(n, star) && Independent(star) && OnZeros(n, cost, star)
    requires star[i] < 0 && j !in star && cost[i, j] == 0.0
    ensures Partial(n, star[i := j]) && Independent(star[i := j]) && OnZeros(n, cost, star[i := j])
    ensures forall k :: 0 <= k < n ==> (k in star[i := j] <==> k in star || k == j)
  {
    var s := star[i := j];
    forall k | 0 <= k < n && (k in star || k == j) ensures k in s {
      if k in star {
        var r :| 0 <= r < n && star[r] == k;
        assert s[r] == k;
      } else {
        assert s[i] == j;
      }
    }
  }

  method Clear(a: array<bool>)
    modifies a
    ensures forall i :: 0 <= i < a.Length ==> !a[i]
  {
    for i := 0 to a.Length
      invariant forall k :: 0 <= k < i ==> !a[k]
    {
      a[i] := false;
    }
  }

  /** Step 2: cover the columns of the stars, and count the stars. */
  method CoverStarColumns(n: nat, M: array2<int>, rcov: array<bool>, ccov: array<bool>, ghost star: seq<int>)
    returns (cnt: nat)
    requires Square(M, n) && rcov.Length == ccov.Length == n && rcov != ccov
    requires Partial(n, star) && Marked(n, M, star, None(n), {})
    modifies rcov, ccov
    ensures cnt == |StarredRows(star)|
    ensures Covered(n, rcov, ccov, star, None(n), None(n))
  {
    cnt := 0;
    Clear(rcov);
    Clear(ccov);
    ghost var counted: set<int> := {};
    for i := 0 to n
      invariant forall r :: 0 <= r < n ==> !rcov[r]
      invariant counted == (set r | 0 <= r < i && star[r] >= 0) && cnt == |counted|
      invariant forall r :: 0 <= r < i && star[r] >= 0 ==> ccov[star[r]]
      invariant forall k :: 0 <= k < n && ccov[k] ==> k in star
    {
      ghost var before := counted;
      for j := 0 to n
        invariant counted == before && cnt == |counted|
        invariant !(0 <= star[i] < j)
        invariant forall r :: 0 <= r < i && star[r] >= 0 ==> ccov[star[r]]
        invariant forall k :: 0 <= k < n && ccov[k] ==> k in star
        invariant forall r :: 0 <= r < n ==> !rcov[r]
      {
        if M[i, j] == STAR {
          assert star[i] == j;
          ccov[j] := true;
          cnt := cnt + 1;
          counted := counted + {i};
          break;
        }
      }
    }
    assert counted == StarredRows(star);
  }

  /** Step 3, the search: an uncovered zero, first by column and then by row. */
  method FindUncoveredZero(n: nat, cost: array2<real>, rcov: array<bool>, ccov: array<bool>) returns (found: bool, i: nat, j: nat)
    requires Square(cost, n) && rcov.Length == ccov.Length == n
    ensures found ==> i < n && j < n && !rcov[i] && !ccov[j] && cost[i, j] == 0.0
    ensures !found ==> forall r, k {:trigger cost[r, k]} :: 0 <= r < n && 0 <= k < n && !rcov[r] && !ccov[k] ==> cost[r, k] != 0.0
  {
    found, i, j := false, 0, 0;
    while j < n
      invariant 0 <= j <= n
      invariant forall r, k {:trigger cost[r, k]} :: 0 <= r < n && 0 <= k < j && !rcov[r] && !ccov[k] ==> cost[r, k] != 0.0
    {
      if !ccov[j] {
        i := 0;
        while i < n
          invariant 0 <= i <= n
          invariant forall r :: 0 <= r < i && !rcov[r] ==> cost[r, j] != 0.0
        {
          if !rcov[i] && cost[i, j] == 0.0 {
            found := true;
            return;
          }
          i := i + 1;
        }
      }
      j := j + 1;
    }
  }

  /** The first star of row i, or n. */
  method FindStarInRow(n: nat, M: array2<int>, i: nat, ghost star: seq<int>, ghost prime: seq<int>) returns (k: nat)
    requires Square(M, n) && i < n && Partial(n, star) && Partial(n, prime)
    requires Marked(n, M, star, prime, {})
    ensures k <= n
    ensures k == if star[i] >= 0 then star[i] else n
  {
    k := 0;
    while k < n
      invariant 0 <= k <= n
      invariant !(0 <= star[i] < k)
    {
      if M[i, k] == STAR { return; }
      k := k + 1;
    }
  }

  /** Step 5: move the least uncovered cost, capped at the largest number, from the uncovered columns to
      the covered rows. */
  method ShiftCosts(n: nat, cost: array2<real>, rcov: array<bool>, ccov: array<bool>, maxFloat: real) returns (min: real)
    requires Square(cost, n) && rcov.Length == ccov.Length == n
    modifies cost
    ensures min <= maxFloat
    ensures forall i, j {:trigger cost[i, j]} :: 0 <= i < n && 0 <= j < n && !rcov[i] && !ccov[j] ==> min <= old(cost[i, j])
    ensures min == maxFloat || exists i, j :: 0 <= i < n && 0 <= j < n && !rcov[i] && !ccov[j] && min == old(cost[i, j])
    ensures forall i, j {:trigger cost[i, j]} :: 0 <= i < n && 0 <= j < n ==>
              cost[i, j] == old(cost[i, j]) + (if rcov[i] then min else 0.0) - (if ccov[j] then 0.0 else min)
  {
    min := maxFloat;
    for i := 0 to n
      invariant min <= maxFloat
      invariant forall r, k {:trigger cost[r, k]} :: 0 <= r < i && 0 <= k < n && !rcov[r] && !ccov[k] ==> min <= cost[r, k]
      invariant min == maxFloat || exists r, k :: 0 <= r < n && 0 <= k < n && !rcov[r] && !ccov[k] && min == cost[r, k]
    {
      if !rcov[i] {
        for j := 0 to n
          invariant min <= maxFloat
          invariant forall r, k {:trigger cost[r, k]} :: 0 <= r < n && 0 <= k < n && (r < i || (r == i && k < j)) && !rcov[r] && !ccov[k] ==> min <= cost[r, k]
          invariant min == maxFloat || exists r, k :: 0 <= r < n && 0 <= k < n && !rcov[r] && !ccov[k] && min == cost[r, k]
        {
          if !ccov[j] {
            if cost[i, j] < min { min := cost[i, j]; }
          }
        }
      }
    }
    for i := 0 to n
      invariant forall r, k {:trigger cost[r, k]} :: i <= r < n && 0 <= k < n ==> cost[r, k] == old(cost[r, k])
      invariant forall r, k {:trigger cost[r, k]} :: 0 <= r < i && 0 <= k < n ==>
                  cost[r, k] == old(cost[r, k]) + (if rcov[r] then min else 0.0) - (if ccov[k] then 0.0 else min)
    {
      for j := 0 to n
        invariant forall r, k {:trigger cost[r, k]} :: 0 <= r < n && 0 <= k < n && (r > i || (r == i && k >= j)) ==> cost[r, k] == old(cost[r, k])
        invariant forall r, k {:trigger cost[r, k]} :: 0 <= r < n && 0 <= k < n && (r < i || (r == i && k < j)) ==>
                    cost[r, k] == old(cost[r, k]) + (if rcov[r] then min else 0.0) - (if ccov[k] then 0.0 else min)
      {
        if rcov[i] { cost[i, j] := cost[i, j] + min; }
        if !ccov[j] { cost[i, j] := cost[i, j] - min; }
      }
    }
  }

  // ---------- step 4: the alternating path ----------

  /** Row r's column once the rows in `path` have exchanged their star for their prime. */
  ghost function Flip(star: seq<int>, prime: seq<int>, path: set<int>): (s: seq<int>)
    requires |star| == |prime|
    ensures |s| == |star|
    ensures forall r :: 0 <= r < |s| ==> s[r] == if r in path then prime[r] else star[r]
  {
    seq(|star|, r requires 0 <= r < |star| => if r in path then prime[r] else star[r])
  }

  /** The alternating path so far: it ends in row i, every earlier prime stands in the column of a star
      already on the path, and all its primes are at least as young as row i's. */
  ghost predicate OnPath(n: nat, star: seq<int>, prime: seq<int>, rank: seq<int>, path: set<int>, i: int)
    requires Partial(n, star) && Partial(n, prime) && |rank| == n
  {
    && 0 <= i < n && i in path
    && (forall r :: r in path ==> 0 <= r < n && prime[r] >= 0 && rank[i] <= rank[r])
    && (forall r, q :: r in path && q in path && r != q ==> prime[r] != prime[q])
    && (forall r {:trigger StarOnPath(star, path, prime[r])} :: r in path && r != i ==> StarOnPath(star, path, prime[r]))
  }

  /** A star of the path is in column j. */
  ghost predicate StarOnPath(star: seq<int>, path: set<int>, j: int)
    requires forall r :: r in path ==> 0 <= r < |star|
  {
    exists q :: q in path && star[q] == j
  }

  lemma ExtendPath(n: nat, star: seq<int>, prime: seq<int>, rank: seq<int>, path: set<int>, i: int, q: int)
    requires Partial(n, star) && Partial(n, prime) && |rank| == n
    requires Ranked(n, star, prime, rank) && OnPath(n, star, prime, rank, path, i) && MarksDiffer(n, star, prime)
    requires 0 <= q < n && star[q] == prime[i]
    ensures q !in path && 0 <= rank[q] < rank[i]
    ensures OnPath(n, star, prime, rank, path + {q}, q)
  {
    var longer := path + {q};
    forall r | r in path ensures prime[r] != prime[q] {
      YoungerPrimeDiffers(n, star, prime, rank, path, i, q, r);
    }
    forall r | r in longer && r != q ensures StarOnPath(star, longer, prime[r]) {
      if r == i {
        assert q in longer;
      } else {
        assert StarOnPath(star, path, prime[r]);
      }
    }
  }

  lemma YoungerPrimeDiffers(n: nat, star: seq<int>, prime: seq<int>, rank: seq<int>, path: set<int>, i: int, q: int, r: int)
    requires Partial(n, star) && Partial(n, prime) && |rank| == n
    requires Ranked(n, star, prime, rank) && OnPath(n, star, prime, rank, path, i) && MarksDiffer(n, star, prime)
    requires 0 <= q < n && star[q] == prime[i] && r in path
    ensures prime[r] != prime[q]
  {
    assert prime[q] >= 0 && rank[q] < rank[i];
    if r != i {
      assert StarOnPath(star, path, prime[r]);
      var s :| s in path && star[s] == prime[r];
      assert rank[i] <= rank[s];
    }
  }

  /** When the column of the last prime has no star, exchanging stars and primes along the path keeps the
      stars independent and stars one row more. */
  lemma Augment(n: nat, star: seq<int>, prime: seq<int>, rank: seq<int>, path: set<int>, i: int, first: int)
    requires Partial(n, star) && Partial(n, prime) && |rank| == n
    requires Independent(star) && OnPath(n, star, prime, rank, path, i)
    requires prime[i] !in star
    requires first in path && star[first] < 0 && forall r :: r in path && r != first ==> star[r] >= 0
    ensures Independent(Flip(star, prime, path))
    ensures |StarredRows(Flip(star, prime, path))| == |StarredRows(star)| + 1
  {
    var s := Flip(star, prime, path);
    forall a, b | 0 <= a < b < n && s[a] >= 0 ensures s[a] != s[b] {
      if a in path && b !in path {
        NotShared(n, star, prime, rank, path, i, a, b);
      } else if a !in path && b in path {
        NotShared(n, star, prime, rank, path, i, b, a);
      }
    }
    assert StarredRows(s) == StarredRows(star) + {first};
    assert first !in StarredRows(star);
  }

  lemma NotShared(n: nat, star: seq<int>, prime: seq<int>, rank: seq<int>, path: set<int>, i: int, a: int, b: int)
    requires Partial(n, star) && Partial(n, prime) && |rank| == n
    requires Independent(star) && OnPath(n, star, prime, rank, path, i)
    requires prime[i] !in star
    requires a in path && 0 <= b < n && b !in path
    ensures prime[a] != star[b]
  {
    if a == i {
      assert star[b] in star;
    } else {
      assert StarOnPath(star, path, prime[a]);
      var q :| q in path && star[q] == prime[a];
      assert q != b && star[q] >= 0;
      assert star[q] != star[b];
    }
  }

  method FindStarInColumn(n: nat, M: array2<int>, j: nat, ghost star: seq<int>, ghost prime: seq<int>, ghost path: set<int>) returns (i: nat)
    requires Square(M, n) && j < n && Partial(n, star) && Partial(n, prime) && Marked(n, M, star, prime, path)
    ensures i <= n
    ensures i < n ==> star[i] == j && i !in path
    ensures i == n ==> forall r :: 0 <= r < n && r !in path ==> star[r] != j
  {
    i := 0;
    while i < n
      invariant 0 <= i <= n
      invariant forall r :: 0 <= r < i && r !in path ==> star[r] != j
    {
      if M[i, j] == STAR { return; }
      i := i + 1;
    }
  }

  /** The search whose success step 4 asserts: a row with a prime yields the prime's column. */
  method FindPrimeInRow(n: nat, M: array2<int>, i: nat, ghost p: int) returns (j: nat)
    requires Square(M, n) && i < n && 0 <= p < n
    requires M[i, p] == PRIME && forall k :: 0 <= k < n && k != p ==> M[i, k] != PRIME
    ensures j < n && j == p
  {
    j := 0;
    while j < n
      invariant 0 <= j <= p
    {
      if M[i, j] == PRIME { break; }
      j := j + 1;
    }
    assert j < n;
  }

  /** The end of step 4: flipped primes and unflipped stars become the stars. */
  method CollapseMarks(n: nat, M: array2<int>, ghost star: seq<int>, ghost prime: seq<int>, ghost path: set<int>)
    requires Square(M, n) && Partial(n, star) && Partial(n, prime) && Marked(n, M, star, prime, path)
    requires forall i :: i in path ==> 0 <= i < n && prime[i] >= 0
    requires MarksDiffer(n, star, prime)
    modifies M
    ensures Marked(n, M, Flip(star, prime, path), None(n), {})
  {
    ghost var s := Flip(star, prime, path);
    for i := 0 to n
      invariant forall r, k {:trigger M[r, k]} :: 0 <= r < i && 0 <= k < n ==> M[r, k] == Mark(s[r], -1, false, k)
      invariant forall r, k {:trigger M[r, k]} :: i <= r < n && 0 <= k < n ==> M[r, k] == Mark(star[r], prime[r], r in path, k)
    {
      for j := 0 to n
        invariant forall r, k {:trigger M[r, k]} :: 0 <= r < n && 0 <= k < n && (r < i || (r == i && k < j)) ==> M[r, k] == Mark(s[r], -1, false, k)
        invariant forall r, k {:trigger M[r, k]} :: 0 <= r < n && 0 <= k < n && (i < r || (r == i && j <= k)) ==>
                    M[r, k] == Mark(star[r], prime[r], r in path, k)
      {
        if M[i, j] == FLIP + PRIME || M[i, j] == STAR {
          M[i, j] := STAR;
        } else {
          M[i, j] := 0;
        }
      }
    }
  }

  /** One step along the path: flip the star of row q and then the row's prime. */
  method FlipRow(n: nat, M: array2<int>, q: nat, j: nat, ghost star: seq<int>, ghost prime: seq<int>, ghost path: set<int>) returns (j': nat)
    requires Square(M, n) && Partial(n, star) && Partial(n, prime) && Marked(n, M, star, prime, path)
    requires q < n && q !in path && star[q] == j && prime[q] >= 0 && prime[q] != j
    modifies M
    ensures j' == prime[q] && Marked(n, M, star, prime, path + {q})
  {
    assert M[q, j] == STAR;
    M[q, j] := M[q, j] + FLIP;
    j' := FindPrimeInRow(n, M, q, prime[q]);
    M[q, j'] := M[q, j'] + FLIP;
  }

  /** Step 4, the path itself: it never returns to a row, because each prime is older than the one before. */
  method FlipPath(n: nat, M: array2<int>, i0: nat, j0: nat, ghost star: seq<int>, ghost prime: seq<int>, ghost rank: seq<int>)
    returns (ghost path: set<int>, ghost last: int)
    requires Square(M, n) && |rank| == n && Partial(n, star) && Partial(n, prime)
    requires MarksDiffer(n, star, prime) && Ranked(n, star, prime, rank) && Marked(n, M, star, prime, {})
    requires i0 < n && star[i0] < 0 && prime[i0] == j0
    modifies M
    ensures Marked(n, M, star, prime, path)
    ensures i0 in path && OnPath(n, star, prime, rank, path, last) && prime[last] !in star
  {
    var i, j := i0, j0;
    M[i, j] := M[i, j] + FLIP;
    path := {i};
    while true
      invariant 0 <= i < n && 0 <= j < n && j == prime[i]
      invariant Marked(n, M, star, prime, path)
      invariant OnPath(n, star, prime, rank, path, i) && i0 in path
      decreases rank[i]
    {
      var q := FindStarInColumn(n, M, j, star, prime, path);
      if q >= n { break; }
      ExtendPath(n, star, prime, rank, path, i, q);
      j := FlipRow(n, M, q, j, star, prime, path);
      path := path + {q};
      i := q;
    }
    last := i;
    forall r | 0 <= r < n ensures star[r] != prime[i] {
      if star[r] == prime[i] {
        ExtendPath(n, star, prime, rank, path, i, r);
      }
    }
  }

  /** Step 4: exchange stars and primes along the path; one more row has a star, and no primes remain. */
  method AugmentStars(n: nat, c: array2<real>, cost: array2<real>, M: array2<int>, i0: nat, j0: nat,
                      ghost u: seq<real>, ghost v: seq<real>, ghost star: seq<int>, ghost prime: seq<int>, ghost rank: seq<int>)
    returns (ghost star': seq<int>)
    requires Square(c, n) && Square(cost, n) && Square(M, n) && |rank| == n
    requires State(n, c, cost, M, u, v, star, prime) && Ranked(n, star, prime, rank)
    requires forall i :: 0 <= i < n && i != i0 && prime[i] >= 0 ==> star[i] >= 0
    requires i0 < n && star[i0] < 0 && prime[i0] == j0
    modifies M
    ensures State(n, c, cost, M, u, v, star', None(n))
    ensures |StarredRows(star')| == |StarredRows(star)| + 1
  {
    ghost var path, last := FlipPath(n, M, i0, j0, star, prime, rank);
    star' := Flip(star, prime, path);
    Augment(n, star, prime, rank, path, last, i0);
    CollapseMarks(n, M, star, prime, path);
  }

  /** Step 3, once a zero is found at an uncovered (i, j): prime it. */
  lemma PrimeZero(n: nat, cost: array2<real>, rcov: array<bool>, ccov: array<bool>,
                  star: seq<int>, prime: seq<int>, rank: seq<int>, t: nat, i: nat, j: nat)
    requires Square(cost, n) && rcov.Length == ccov.Length == n && i < n && j < n && |rank| == n
    requires Partial(n, star) && Partial(n, prime) && Independent(star) && OnZeros(n, cost, prime) && MarksDiffer(n, star, prime)
    requires Covered(n, rcov, ccov, star, prime, rank) && forall r :: 0 <= r < n ==> rank[r] < t
    requires !rcov[i] && !ccov[j] && cost[i, j] == 0.0
    ensures OnZeros(n, cost, prime[i := j]) && MarksDiffer(n, star, prime[i := j])
    ensures Ranked(n, star, prime[i := j], rank[i := t])
    ensures prime[i] < 0 && star[i] != j
  {
  }

  /** Stars and primes keep their zeros when costs are shifted, and the dual stays feasible. */
  lemma Shifted(n: nat, rcov: array<bool>, ccov: array<bool>, star: seq<int>, prime: seq<int>, rank: seq<int>, i: int)
    requires rcov.Length == ccov.Length == n && |rank| == n && 0 <= i < n
    requires Partial(n, star) && Partial(n, prime) && Covered(n, rcov, ccov, star, prime, rank)
    ensures star[i] >= 0 ==> (rcov[i] <==> !ccov[star[i]])
    ensures prime[i] >= 0 ==> rcov[i] && !ccov[prime[i]]
  {
  }

  /** Some cell is uncovered while some row has no star. */
  lemma UncoveredCell(n: nat, rcov: array<bool>, ccov: array<bool>, star: seq<int>, prime: seq<int>, rank: seq<int>)
    returns (i: nat, j: nat)
    requires rcov.Length == ccov.Length == n && |rank| == n
    requires Partial(n, star) && Partial(n, prime) && Covered(n, rcov, ccov, star, prime, rank)
    requires |StarredRows(star)| < n
    ensures i < n && j < n && !rcov[i] && !ccov[j]
  {
    AllStarred(star);
    i :| 0 <= i < n && star[i] < 0;
    j := FreeColumn(n, star, i);
  }

  ghost function UncoveredRows(rcov: array<bool>): set<int>
    reads rcov
  {
    set i | 0 <= i < rcov.Length && !rcov[i]
  }

  datatype Step = Two | Three | Four | Five | Done

  ghost function Order(s: Step): nat {
    match s case Two => 4 case Three => 3 case Four => 2 case Five => 1 case Done => 0
  }

  ghost predicate NoUncoveredZero(n: nat, cost: array2<real>, rcov: array<bool>, ccov: array<bool>)
    requires Square(cost, n) && rcov.Length == ccov.Length == n
    reads cost, rcov, ccov
  {
    forall i, j {:trigger cost[i, j]} :: 0 <= i < n && 0 <= j < n && !rcov[i] && !ccov[j] ==> cost[i, j] != 0.0
  }

  /** Step 3: prime an uncovered zero; cover its row instead of its star's column if the row has a star,
      start step 4 there if it has none, and go to step 5 when there is no uncovered zero. */
  method PrimeUncoveredZero(n: nat, c: array2<real>, cost: array2<real>, M: array2<int>, rcov: array<bool>, ccov: array<bool>,
                            ghost u: seq<real>, ghost v: seq<real>, ghost star: seq<int>, ghost prime: seq<int>, ghost rank: seq<int>, ghost t: nat)
    returns (step: Step, i: nat, j: nat, ghost prime': seq<int>, ghost rank': seq<int>)
    requires Square(c, n) && Square(cost, n) && Square(M, n) && rcov.Length == ccov.Length == n && rcov != ccov
    requires State(n, c, cost, M, u, v, star, prime)
    requires |rank| == n && Covered(n, rcov, ccov, star, prime, rank) && forall r :: 0 <= r < n ==> rank[r] < t
    modifies M, rcov, ccov
    ensures State(n, c, cost, M, u, v, star, prime')
    ensures |rank'| == n && forall r :: 0 <= r < n ==> rank'[r] <= t
    ensures step == Three || step == Four || step == Five
    ensures step == Three ==> Covered(n, rcov, ccov, star, prime', rank') && |UncoveredRows(rcov)| < |old(UncoveredRows(rcov))|
    ensures step == Four ==> i < n && star[i] < 0 && prime'[i] == j && Ranked(n, star, prime', rank')
    ensures step == Four ==> forall r :: 0 <= r < n && r != i && prime'[r] >= 0 ==> star[r] >= 0
    ensures step == Four || step == Five ==> unchanged(rcov) && unchanged(ccov)
    ensures step == Five ==> prime' == prime && rank' == rank && NoUncoveredZero(n, cost, rcov, ccov)
  {
    var found;
    found, i, j := FindUncoveredZero(n, cost, rcov, ccov);
    prime', rank' := prime, rank;
    if !found {
      step := Five;
      return;
    }
    PrimeZero(n, cost, rcov, ccov, star, prime, rank, t, i, j);
    prime', rank' := prime[i := j], rank[i := t];
    M[i, j] := PRIME;
    var k := FindStarInRow(n, M, i, star, prime');
    if k >= n {
      step := Four;
    } else {
      CoverRow(n, rcov, ccov, i, k, star, prime, rank, j, t);
      step := Three;
    }
  }

  method CoverRow(n: nat, rcov: array<bool>, ccov: array<bool>, i: nat, k: nat,
                  ghost star: seq<int>, ghost prime: seq<int>, ghost rank: seq<int>, ghost j: nat, ghost t: nat)
    requires rcov.Length == ccov.Length == n && rcov != ccov && i < n && j < n && |rank| == n
    requires Partial(n, star) && Partial(n, prime) && Independent(star) && Covered(n, rcov, ccov, star, prime, rank)
    requires star[i] == k && !rcov[i] && !ccov[j]
    requires Ranked(n, star, prime[i := j], rank[i := t])
    modifies rcov, ccov
    ensures Covered(n, rcov, ccov, star, prime[i := j], rank[i := t])
    ensures |UncoveredRows(rcov)| < |old(UncoveredRows(rcov))|
  {
    ccov[k] := false;
    rcov[i] := true;
    assert UncoveredRows(rcov) == old(UncoveredRows(rcov)) - {i};
  }

  ghost predicate UncoveredCostAtMost(n: nat, cost: array2<real>, rcov: array<bool>, ccov: array<bool>, bound: real)
    requires Square(cost, n) && rcov.Length == ccov.Length == n
    reads cost, rcov, ccov
  {
    exists i, j :: 0 <= i < n && 0 <= j < n && !rcov[i] && !ccov[j] && cost[i, j] <= bound
  }

  /** Step 5: the dual stays feasible, marks stay on zeros, and an uncovered cost comes closer to zero. */
  method ShiftPotentials(n: nat, c: array2<real>, cost: array2<real>, M: array2<int>, rcov: array<bool>, ccov: array<bool>, maxFloat: real,
                         ghost u: seq<real>, ghost v: seq<real>, ghost star: seq<int>, ghost prime: seq<int>, ghost rank: seq<int>, ghost bound: real)
    returns (ghost u': seq<real>, ghost v': seq<real>)
    requires Square(c, n) && Square(cost, n) && Square(M, n) && rcov.Length == ccov.Length == n && c != cost
    requires State(n, c, cost, M, u, v, star, prime) && |rank| == n && Covered(n, rcov, ccov, star, prime, rank)
    requires 0.0 < maxFloat <= bound && UncoveredCostAtMost(n, cost, rcov, ccov, bound)
    modifies cost
    ensures State(n, c, cost, M, u', v', star, prime)
    ensures UncoveredCostAtMost(n, cost, rcov, ccov, bound - maxFloat)
  {
    var min := ShiftCosts(n, cost, rcov, ccov, maxFloat);
    assert min >= 0.0;
    u', v' := ShiftRows(n, rcov, u, min), ShiftColumns(n, ccov, v, min);
    forall i | 0 <= i < n
      ensures star[i] >= 0 ==> cost[i, star[i]] == 0.0
      ensures prime[i] >= 0 ==> cost[i, prime[i]] == 0.0
    {
      Shifted(n, rcov, ccov, star, prime, rank, i);
    }
    assert UncoveredCostAtMost(n, cost, rcov, ccov, bound - maxFloat) by {
      if min == maxFloat {
        var a, b :| 0 <= a < n && 0 <= b < n && !rcov[a] && !ccov[b] && old(cost[a, b]) <= bound;
        assert cost[a, b] <= bound - maxFloat;
      } else {
        var a, b :| 0 <= a < n && 0 <= b < n && !rcov[a] && !ccov[b] && min == old(cost[a, b]);
        assert cost[a, b] == 0.0;
      }
    }
  }

  ghost function ShiftRows(n: nat, rcov: array<bool>, u: seq<real>, min: real): (u': seq<real>)
    requires rcov.Length == |u| == n
    reads rcov
    ensures |u'| == n && forall i :: 0 <= i < n ==> u'[i] == if rcov[i] then u[i] - min else u[i]
  {
    seq(n, i requires 0 <= i < n && rcov.Length == |u| == n reads rcov => if rcov[i] then u[i] - min else u[i])
  }

  ghost function ShiftColumns(n: nat, ccov: array<bool>, v: seq<real>, min: real): (v': seq<real>)
    requires ccov.Length == |v| == n
    reads ccov
    ensures |v'| == n && forall j :: 0 <= j < n ==> v'[j] == if ccov[j] then v[j] else v[j] + min
  {
    seq(n, j requires 0 <= j < n && ccov.Length == |v| == n reads ccov => if ccov[j] then v[j] else v[j] + min)
  }

  /** k * step, by repeated addition. */
  ghost function Multiple(k: nat, step: real): real {
    if k == 0 then 0.0 else Multiple(k - 1, step) + step
  }

  lemma {:induction false} MultipleIsProduct(k: nat, step: real)
    ensures Multiple(k, step) == k as real * step
  {
    if k > 0 { MultipleIsProduct(k - 1, step); }
  }

  /** A whole number of steps of size maxFloat reaches any cost. */
  lemma StepsFor(cost: real, maxFloat: real) returns (steps: nat)
    requires maxFloat > 0.0
    ensures cost <= Multiple(steps, maxFloat)
  {
    var q := cost / maxFloat;
    steps := if q <= 0.0 then 0 else q.Floor + 1;
    MultipleIsProduct(steps, maxFloat);
    assert q <= steps as real;
    assert q * maxFloat == cost;
  }

  lemma {:induction false} MultipleGrows(k: nat, step: real)
    requires step > 0.0 && k > 0
    ensures Multiple(k, step) >= step
  {
    if k > 1 { MultipleGrows(k - 1, step); }
  }

  /** Step 5 is entered with a step still to go, because every uncovered cost is positive. */
  lemma StepsLeft(n: nat, cost: array2<real>, rcov: array<bool>, ccov: array<bool>, maxFloat: real, steps: nat)
    requires Square(cost, n) && rcov.Length == ccov.Length == n && maxFloat > 0.0
    requires NoUncoveredZero(n, cost, rcov, ccov) && UncoveredCostAtMost(n, cost, rcov, ccov, Multiple(steps, maxFloat))
    requires forall i, j {:trigger cost[i, j]} :: 0 <= i < n && 0 <= j < n ==> cost[i, j] >= 0.0
    ensures steps > 0 && Multiple(steps, maxFloat) >= maxFloat
    ensures Multiple(steps - 1, maxFloat) == Multiple(steps, maxFloat) - maxFloat
  {
    if steps > 0 { MultipleGrows(steps, maxFloat); }
  }

  /** Step 2, with its branch: done when every row has a star. */
  method CoverAndCount(n: nat, M: array2<int>, rcov: array<bool>, ccov: array<bool>, ghost star: seq<int>) returns (step: Step)
    requires Square(M, n) && rcov.Length == ccov.Length == n && rcov != ccov
    requires Partial(n, star) && Marked(n, M, star, None(n), {})
    modifies rcov, ccov
    ensures step == if |StarredRows(star)| == n then Done else Three
    ensures Covered(n, rcov, ccov, star, None(n), None(n))
  {
    var cnt := CoverStarColumns(n, M, rcov, ccov, star);
    step := if cnt == n then Done else Three;
  }

  /** The closing loop: the input costs of all marked cells. */
  method SumMarked(n: nat, c: array2<real>, M: array2<int>, ghost star: seq<int>) returns (result: real)
    requires Square(c, n) && Square(M, n) && IsAssignment(star, n)
    requires forall i, j {:trigger M[i, j]} :: 0 <= i < n && 0 <= j < n ==> M[i, j] == if star[i] == j then STAR else 0
    ensures result == CostUpTo(c, star, n)
  {
    result := 0.0;
    for i := 0 to n
      invariant result == CostUpTo(c, star, i)
    {
      for j := 0 to n
        invariant result == CostUpTo(c, star, if star[i] < j then i + 1 else i)
      {
        if M[i, j] != 0 { result := result + c[i, j]; }
      }
    }
  }

  /** What the loop over the steps knows besides its arrays: the dual, the marks, and how far step 5 still
      is from exposing a zero (`bounded` is 1 once `steps` bounds that). */
  datatype Proof = Proof(u: seq<real>, v: seq<real>, star: seq<int>, prime: seq<int>, rank: seq<int>, t: nat,
                         bounded: nat, steps: nat)

  ghost predicate Common(n: nat, c: array2<real>, cost: array2<real>, M: array2<int>, rcov: array<bool>, ccov: array<bool>, g: Proof)
    reads c, cost, M, rcov, ccov
  {
    && Square(c, n) && Square(cost, n) && Square(M, n) && rcov.Length == ccov.Length == n
    && State(n, c, cost, M, g.u, g.v, g.star, g.prime)
    && |StarredRows(g.star)| <= n && |g.rank| == n && g.bounded <= 1
    && forall r :: 0 <= r < n ==> g.rank[r] < g.t
  }

  ghost predicate FoundPathStart(n: nat, i: nat, j: nat, g: Proof)
    requires |g.rank| == n && Partial(n, g.star) && Partial(n, g.prime)
  {
    && i < n && g.star[i] < 0 && g.prime[i] == j && Ranked(n, g.star, g.prime, g.rank)
    && forall r :: 0 <= r < n && r != i && g.prime[r] >= 0 ==> g.star[r] >= 0
  }

  ghost predicate Searching(n: nat, cost: array2<real>, rcov: array<bool>, ccov: array<bool>, maxFloat: real, g: Proof)
    requires Square(cost, n) && rcov.Length == ccov.Length == n && |g.rank| == n && Partial(n, g.star) && Partial(n, g.prime)
    reads cost, rcov, ccov
  {
    && Covered(n, rcov, ccov, g.star, g.prime, g.rank)
    && |StarredRows(g.star)| < n
    && (g.bounded == 1 ==> UncoveredCostAtMost(n, cost, rcov, ccov, Multiple(g.steps, maxFloat)))
  }

  ghost function Uncovered(n: nat, step: Step, rcov: array<bool>): nat
    reads rcov
  {
    if step == Two then n + 1 else |UncoveredRows(rcov)|
  }

  method DoTwo(n: nat, c: array2<real>, cost: array2<real>, M: array2<int>, rcov: array<bool>, ccov: array<bool>, maxFloat: real, ghost g: Proof)
    returns (step: Step, ghost g': Proof)
    requires Common(n, c, cost, M, rcov, ccov, g) && g.prime == None(n) && rcov != ccov
    modifies rcov, ccov
    ensures Common(n, c, cost, M, rcov, ccov, g') && g'.star == g.star && |UncoveredRows(rcov)| <= n
    ensures step == if |StarredRows(g.star)| == n then Done else Three
    ensures step == Three ==> Searching(n, cost, rcov, ccov, maxFloat, g')
    ensures step == Done ==> g'.prime == None(n)
  {
    step := CoverAndCount(n, M, rcov, ccov, g.star);
    g' := g.(rank := None(n), t := 0, bounded := 0, steps := 0);
    SubsetSize(UncoveredRows(rcov), Range(n));
  }

  method DoThree(n: nat, c: array2<real>, cost: array2<real>, M: array2<int>, rcov: array<bool>, ccov: array<bool>, maxFloat: real, ghost g: Proof)
    returns (step: Step, i: nat, j: nat, ghost g': Proof)
    requires Common(n, c, cost, M, rcov, ccov, g) && Searching(n, cost, rcov, ccov, maxFloat, g) && rcov != ccov && maxFloat > 0.0
    modifies M, rcov, ccov
    ensures Common(n, c, cost, M, rcov, ccov, g') && g'.star == g.star
    ensures step == Three || step == Four || step == Five
    ensures step == Three ==> Searching(n, cost, rcov, ccov, maxFloat, g') && |UncoveredRows(rcov)| < |old(UncoveredRows(rcov))|
    ensures step == Four ==> FoundPathStart(n, i, j, g')
    ensures step == Five ==> Searching(n, cost, rcov, ccov, maxFloat, g') && g'.bounded == 1 && NoUncoveredZero(n, cost, rcov, ccov)
    ensures step != Three ==> unchanged(rcov) && (g'.bounded > g.bounded || (g'.bounded == g.bounded && g'.steps == g.steps))
  {
    ghost var prime, rank;
    step, i, j, prime, rank := PrimeUncoveredZero(n, c, cost, M, rcov, ccov, g.u, g.v, g.star, g.prime, g.rank, g.t);
    g' := g.(prime := prime, rank := rank, t := g.t + 1);
    if step == Three {
      g' := g'.(bounded := 0);
    } else if step == Five && g.bounded == 0 {
      ghost var a, b := UncoveredCell(n, rcov, ccov, g.star, prime, rank);
      ghost var steps := StepsFor(cost[a, b], maxFloat);
      g' := g'.(steps := steps, bounded := 1);
    }
  }

  method DoFour(n: nat, c: array2<real>, cost: array2<real>, M: array2<int>, rcov: array<bool>, ccov: array<bool>, i: nat, j: nat, ghost g: Proof)
    returns (ghost g': Proof)
    requires Common(n, c, cost, M, rcov, ccov, g) && FoundPathStart(n, i, j, g)
    modifies M
    ensures Common(n, c, cost, M, rcov, ccov, g') && g'.prime == None(n)
    ensures |StarredRows(g'.star)| == |StarredRows(g.star)| + 1
  {
    ghost var star := AugmentStars(n, c, cost, M, i, j, g.u, g.v, g.star, g.prime, g.rank);
    g' := g.(star := star, prime := None(n));
    AllStarred(star);
  }

  method DoFive(n: nat, c: array2<real>, cost: array2<real>, M: array2<int>, rcov: array<bool>, ccov: array<bool>, maxFloat: real, ghost g: Proof)
    returns (ghost g': Proof)
    requires Common(n, c, cost, M, rcov, ccov, g) && Searching(n, cost, rcov, ccov, maxFloat, g)
    requires g.bounded == 1 && NoUncoveredZero(n, cost, rcov, ccov) && maxFloat > 0.0 && c != cost
    modifies cost
    ensures Common(n, c, cost, M, rcov, ccov, g') && Searching(n, cost, rcov, ccov, maxFloat, g')
    ensures g'.star == g.star && g'.bounded == g.bounded && g'.steps < g.steps
  {
    StepsLeft(n, cost, rcov, ccov, maxFloat, g.steps);
    ghost var bound := Multiple(g.steps, maxFloat);
    ghost var u, v := ShiftPotentials(n, c, cost, M, rcov, ccov, maxFloat, g.u, g.v, g.star, g.prime, g.rank, bound);
    g' := g.(u := u, v := v, steps := g.steps - 1);
    assert UncoveredCostAtMost(n, cost, rcov, ccov, Multiple(g'.steps, maxFloat));
  }

  /** The jumps between the steps.  Each augmentation stars one more row; between augmentations step 3
      covers one more row; and between those step 5 lowers the number of steps to a new zero. */
  method RunSteps(n: nat, c: array2<real>, cost: array2<real>, M: array2<int>, maxFloat: real, ghost g0: Proof) returns (ghost g: Proof)
    requires Square(c, n) && Square(cost, n) && Square(M, n) && maxFloat > 0.0 && c != cost
    requires State(n, c, cost, M, g0.u, g0.v, g0.star, g0.prime)
    requires g0 == Proof(g0.u, g0.v, g0.star, None(n), None(n), 0, 0, 0)
    modifies cost, M
    ensures State(n, c, cost, M, g.u, g.v, g.star, g.prime)
    ensures g.prime == None(n) && |StarredRows(g.star)| == n
  {
    var rcov, ccov := new bool[n], new bool[n];
    g := g0;
    AllStarred(g.star);
    var step := Two;
    var i: nat, j: nat := 0, 0;
    while step != Done
      invariant Common(n, c, cost, M, rcov, ccov, g)
      invariant step == Two || step == Done ==> g.prime == None(n)
      invariant step == Three || step == Five ==> Searching(n, cost, rcov, ccov, maxFloat, g)
      invariant step == Four ==> FoundPathStart(n, i, j, g)
      invariant step == Five ==> g.bounded == 1 && NoUncoveredZero(n, cost, rcov, ccov)
      invariant step == Done ==> |StarredRows(g.star)| == n
      decreases n - |StarredRows(g.star)|, Uncovered(n, step, rcov), 1 - g.bounded, g.steps, Order(step)
    {
      match step
      case Two => step, g := DoTwo(n, c, cost, M, rcov, ccov, maxFloat, g);
      case Three => step, i, j, g := DoThree(n, c, cost, M, rcov, ccov, maxFloat, g);
      case Four =>
        g := DoFour(n, c, cost, M, rcov, ccov, i, j, g);
        step := Two;
      case Five =>
        g := DoFive(n, c, cost, M, rcov, ccov, maxFloat, g);
        step := Three;
    }
  }

  /** as_solve: M ends as the permutation matrix of a cheapest assignment, whose cost is returned. */
  method Solve(n: nat, c: array2<real>, M: array2<int>, maxFloat: real) returns (result: real, ghost star: seq<int>)
    requires Square(c, n) && Square(M, n) && maxFloat > 0.0
    modifies M
    ensures IsAssignment(star, n)
    ensures forall i, j {:trigger M[i, j]} :: 0 <= i < n && 0 <= j < n ==> M[i, j] == if star[i] == j then STAR else 0
    ensures result == CostUpTo(c, star, n)
    ensures IsLowerBound(c, n, result)
  {
    var cost := new real[n, n];
    ghost var u := SubtractRowMinima(n, c, cost);
    ghost var v := SubtractColumnMinima(n, c, cost, u);
    star := StarZeros(n, cost, M);
    ghost var g := RunSteps(n, c, cost, M, maxFloat, Proof(u, v, star, None(n), None(n), 0, 0, 0));
    star := g.star;
    AllStarred(star);
    assert IsAssignment(star, n);
    result := SumMarked(n, c, M, star);
    Optimal(n, c, cost, g.u, g.v, star);
  }
}
