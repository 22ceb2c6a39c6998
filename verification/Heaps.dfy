/** The protected heap: per-thread heaps of size classes over bump arenas over one page-wise bump heap (warpheap.h,
    segheap.h, zoneheap.h, sllist.h, xheap.h).  Object headers and free-list links lie in the memory that is managed. */
module Heaps {
  import opened Counting
  import opened Kingsley

  const HEADER := 16
  const ARENA_SIZE := 32
  const PAGE_SIZE := 4096
  const CHUNK_SIZE := 10485760
  const MAGIC := 0xCAFEBABE

  /** The part of an arena that is not handed out. */
  datatype Arena = Arena(space: int, remaining: int)

  /** A heap's list for one size class. */
  datatype Bin = Bin(heap: int, class_: int)

  datatype Where = Live | Binned(bin: Bin) | Dropped

  // ---------- the layout ----------

  predicate Aligned(x: int) {
    x % 8 == 0
  }

  lemma AlignedSum(x: int, y: int)
    requires Aligned(x) && Aligned(y)
    ensures Aligned(x + y) && Aligned(x - y)
  {
  }

  ghost predicate Disjoint(lo: int, hi: int, lo2: int, hi2: int) {
    hi <= lo2 || hi2 <= lo
  }

  /** Two objects with their headers. */
  ghost predicate ObjectsApart(objects: map<int, int>, a: int, b: int)
    requires a in objects && b in objects
  {
    Disjoint(a - HEADER, a + objects[a], b - HEADER, b + objects[b])
  }

  ghost predicate ArenaApart(x: Arena, lo: int, hi: int) {
    Disjoint(x.space, x.space + x.remaining, lo, hi)
  }

  ghost predicate ObjectOk(a: int, size: int, base: int, position: int) {
    size >= HEADER && Aligned(size) && Aligned(a) && base <= a - HEADER && a + size <= position
  }

  ghost predicate ArenaOk(x: Arena, base: int, position: int) {
    x.remaining >= 0 && Aligned(x.remaining) && Aligned(x.space) && base <= x.space && x.space + x.remaining <= position
  }

  /** Objects with their headers, and what is left of the arenas, lie below position and do not overlap. */
  ghost predicate Laid(objects: map<int, int>, arenas: seq<Arena>, base: int, position: int) {
    && 0 < base <= position && Aligned(base) && Aligned(position)
    && (forall a :: a in objects ==> ObjectOk(a, objects[a], base, position))
    && (forall a, b :: a in objects && b in objects && a != b ==> ObjectsApart(objects, a, b))
    && (forall h :: 0 <= h < |arenas| ==> ArenaOk(arenas[h], base, position))
    && (forall h, g :: 0 <= h < |arenas| && 0 <= g < |arenas| && h != g ==>
          ArenaApart(arenas[h], arenas[g].space, arenas[g].space + arenas[g].remaining))
    && (forall h, a :: 0 <= h < |arenas| && a in objects ==> ArenaApart(arenas[h], a - HEADER, a + objects[a]))
  }

  lemma CarvedObjects(objects: map<int, int>, arenas: seq<Arena>, base: int, position: int, h: int, size: int, a: int)
    requires Laid(objects, arenas, base, position) && 0 <= h < |arenas| && a == arenas[h].space + HEADER
    requires size >= HEADER && Aligned(size) && arenas[h].remaining >= HEADER + size
    ensures a !in objects && ObjectOk(a, size, base, position)
    ensures var more := objects[a := size]; forall b, c :: b in more && c in more && b != c ==> ObjectsApart(more, b, c)
  {
    var x, more := arenas[h], objects[a := size];
    assert ArenaOk(x, base, position);
    AlignedSum(x.space, HEADER);
    forall b | b in objects ensures b != a {
      assert ObjectOk(b, objects[b], base, position) && ArenaApart(x, b - HEADER, b + objects[b]);
    }
    forall b, c | b in more && c in more && b != c ensures ObjectsApart(more, b, c) {
      if b == a {
        assert ArenaApart(x, c - HEADER, c + objects[c]);
      } else if c == a {
        assert ArenaApart(x, b - HEADER, b + objects[b]);
      } else {
        assert ObjectsApart(objects, b, c);
      }
    }
  }

  /** What is left of heap h's arena. */
  ghost function Rest(arenas: seq<Arena>, h: int, size: int): seq<Arena>
    requires 0 <= h < |arenas|
  {
    arenas[h := Arena(arenas[h].space + HEADER + size, arenas[h].remaining - HEADER - size)]
  }

  lemma CarvedArena(objects: map<int, int>, arenas: seq<Arena>, base: int, position: int, h: int, size: int, a: int, g: int)
    requires Laid(objects, arenas, base, position) && 0 <= h < |arenas| && a == arenas[h].space + HEADER && 0 <= g < |arenas|
    requires size >= HEADER && Aligned(size) && arenas[h].remaining >= HEADER + size
    ensures ArenaOk(Rest(arenas, h, size)[g], base, position)
    ensures ArenaApart(Rest(arenas, h, size)[g], a - HEADER, a + size)
    ensures forall b :: b in objects ==> ArenaApart(Rest(arenas, h, size)[g], b - HEADER, b + objects[b])
  {
    var x := arenas[h];
    assert ArenaOk(x, base, position) && ArenaOk(arenas[g], base, position);
    AlignedSum(HEADER, size);
    AlignedSum(x.space, HEADER + size);
    AlignedSum(x.remaining, HEADER + size);
    if g != h { assert ArenaApart(arenas[g], x.space, x.space + x.remaining); }
    forall b | b in objects ensures ArenaApart(Rest(arenas, h, size)[g], b - HEADER, b + objects[b]) {
      assert ArenaApart(arenas[g], b - HEADER, b + objects[b]);
    }
  }

  lemma CarvedArenas(arenas: seq<Arena>, h: int, size: int, g: int, i: int)
    requires 0 <= h < |arenas| && 0 <= g < |arenas| && 0 <= i < |arenas| && size >= 0 && arenas[h].remaining >= HEADER + size
    requires ArenaApart(arenas[g], arenas[i].space, arenas[i].space + arenas[i].remaining)
    ensures ArenaApart(Rest(arenas, h, size)[g], Rest(arenas, h, size)[i].space, Rest(arenas, h, size)[i].space + Rest(arenas, h, size)[i].remaining)
  {
  }

  /** An object is carved from the current arena of heap h. */
  lemma Carved(objects: map<int, int>, arenas: seq<Arena>, base: int, position: int, h: int, size: int, a: int)
    requires Laid(objects, arenas, base, position) && 0 <= h < |arenas| && a == arenas[h].space + HEADER
    requires size >= HEADER && Aligned(size) && arenas[h].remaining >= HEADER + size
    ensures a !in objects && Aligned(a) && a > 0
    ensures Laid(objects[a := size], Rest(arenas, h, size), base, position)
  {
    CarvedObjects(objects, arenas, base, position, h, size, a);
    var more, rest := objects[a := size], Rest(arenas, h, size);
    forall g | 0 <= g < |rest|
      ensures ArenaOk(rest[g], base, position) && forall b :: b in more ==> ArenaApart(rest[g], b - HEADER, b + more[b])
    {
      CarvedArena(objects, arenas, base, position, h, size, a, g);
    }
    forall g, i | 0 <= g < |rest| && 0 <= i < |rest| && g != i ensures ArenaApart(rest[g], rest[i].space, rest[i].space + rest[i].remaining) {
      CarvedArenas(arenas, h, size, g, i);
    }
  }

  /** A new arena from beyond the old position. */
  lemma NewArena(objects: map<int, int>, arenas: seq<Arena>, base: int, position: int, h: int, alloc: int, next: int)
    requires Laid(objects, arenas, base, position) && 0 <= h < |arenas|
    requires alloc >= 0 && Aligned(alloc) && Aligned(next) && position + ARENA_SIZE + alloc <= next
    ensures Laid(objects, arenas[h := Arena(position + ARENA_SIZE, alloc)], base, next)
  {
    AlignedSum(position, ARENA_SIZE);
  }

  // ---------- headers and free lists, in memory ----------

  type Words = map<int, int>

  ghost predicate Headed(objects: map<int, int>, word: Words) {
    forall a :: a in objects ==> HasHeader(word, a, objects[a])
  }

  ghost predicate HasHeader(word: Words, a: int, size: int) {
    && a - HEADER in word && word[a - HEADER] == MAGIC
    && a - 8 in word && word[a - 8] == size
  }

  /** From the pointer head on, the words of the freed objects link the list l. */
  ghost predicate Chain(word: Words, head: int, l: seq<int>)
    decreases |l|
  {
    if l == [] then head == 0
    else head == l[0] && head in word && Chain(word, word[head], l[1..])
  }

  /** Words elsewhere may change. */
  lemma {:induction false} ChainSame(word: Words, after: Words, head: int, l: seq<int>)
    requires Chain(word, head, l) && forall x :: x in l ==> x in word && x in after && after[x] == word[x]
    ensures Chain(after, head, l)
    decreases |l|
  {
    if l != [] {
      assert l[0] in l;
      ChainSame(word, after, word[head], l[1..]);
    }
  }

  /** The list of a bin: freed objects, all of exactly the size of the class. */
  ghost predicate BinOk(b: Bin, head: int, l: seq<int>, word: Words, objects: map<int, int>, at: map<int, Where>) {
    && 0 <= b.class_ && Distinct(l) && Chain(word, head, l)
    && (forall x :: x in l <==> x in at && at[x] == Binned(b))
    && (forall x :: x in l ==> x in objects && objects[x] == Class2Size(b.class_))
  }

  /** Every object is live, in the list of one bin, or too large and lost. */
  ghost predicate BinsOk(heads: map<Bin, int>, lists: map<Bin, seq<int>>, word: Words, objects: map<int, int>, at: map<int, Where>) {
    && at.Keys == objects.Keys && heads.Keys == lists.Keys
    && (forall x :: x in at && at[x].Binned? ==> at[x].bin in heads)
    && (forall b :: b in heads ==> BinOk(b, heads[b], lists[b], word, objects, at))
  }

  lemma ObjectWords(objects: map<int, int>, arenas: seq<Arena>, base: int, position: int, a: int, x: int, b: int)
    requires Laid(objects, arenas, base, position) && a in objects && b in objects && a != b && a <= x < a + objects[a]
    ensures x != b && x != b - 8 && x != b - HEADER && x != a - 8 && x != a - HEADER
  {
    assert ObjectsApart(objects, a, b) && ObjectOk(b, objects[b], base, position);
  }

  /** A word inside an object that is in no list may be written. */
  lemma WriteInside(objects: map<int, int>, arenas: seq<Arena>, base: int, position: int, heads: map<Bin, int>, lists: map<Bin, seq<int>>,
                    word: Words, at: map<int, Where>, a: int, x: int, v: int)
    requires Laid(objects, arenas, base, position) && Headed(objects, word) && BinsOk(heads, lists, word, objects, at)
    requires a in objects && a <= x < a + objects[a] && !at[a].Binned?
    ensures Headed(objects, word[x := v]) && BinsOk(heads, lists, word[x := v], objects, at)
  {
    var after := word[x := v];
    forall b | b in objects ensures HasHeader(after, b, objects[b]) {
      assert HasHeader(word, b, objects[b]);
      if b != a { ObjectWords(objects, arenas, base, position, a, x, b); }
    }
    forall b | b in heads ensures BinOk(b, heads[b], lists[b], after, objects, at) {
      assert BinOk(b, heads[b], lists[b], word, objects, at);
      InWord(word, heads[b], lists[b]);
      forall y | y in lists[b] ensures y != x { ObjectWords(objects, arenas, base, position, a, x, y); }
      ChainSame(word, after, heads[b], lists[b]);
    }
  }

  lemma {:induction false} InWord(word: Words, head: int, l: seq<int>)
    requires Chain(word, head, l)
    ensures forall x :: x in l ==> x in word
    decreases |l|
  {
    if l != [] { InWord(word, word[head], l[1..]); }
  }

  // ---------- what the operations do to the lists ----------

  ghost predicate Heap(objects: map<int, int>, heads: map<Bin, int>, lists: map<Bin, seq<int>>, word: Words, at: map<int, Where>) {
    Headed(objects, word) && BinsOk(heads, lists, word, objects, at)
  }

  /** A new object gets its header, and is live. */
  lemma Adds(objects: map<int, int>, arenas: seq<Arena>, base: int, position: int, heads: map<Bin, int>, lists: map<Bin, seq<int>>,
             word: Words, at: map<int, Where>, a: int, size: int)
    requires Heap(objects, heads, lists, word, at) && a !in objects && Laid(objects[a := size], arenas, base, position)
    ensures Heap(objects[a := size], heads, lists, word[a - HEADER := MAGIC][a - 8 := size], at[a := Live])
  {
    var more, after, where := objects[a := size], word[a - HEADER := MAGIC][a - 8 := size], at[a := Live];
    forall b | b in objects ensures b != a - HEADER && b != a - 8 && b - 8 != a - HEADER && b - 8 != a - 8 && b - HEADER != a - HEADER && b - HEADER != a - 8 {
      assert b in more && ObjectsApart(more, a, b) && ObjectOk(b, more[b], base, position) && ObjectOk(a, size, base, position);
    }
    forall b | b in more ensures HasHeader(after, b, more[b]) {
      if b != a { assert HasHeader(word, b, objects[b]); }
    }
    forall b | b in heads ensures BinOk(b, heads[b], lists[b], after, more, where) {
      assert BinOk(b, heads[b], lists[b], word, objects, at);
      InWord(word, heads[b], lists[b]);
      ChainSame(word, after, heads[b], lists[b]);
    }
  }

  /** SLList::get */
  lemma Pops(objects: map<int, int>, heads: map<Bin, int>, lists: map<Bin, seq<int>>, word: Words, at: map<int, Where>, b: Bin)
    requires Heap(objects, heads, lists, word, at) && b in heads && heads[b] != 0
    ensures heads[b] in word && heads[b] in objects && at[heads[b]] == Binned(b) && objects[heads[b]] == Class2Size(b.class_)
    ensures Heap(objects, heads[b := word[heads[b]]], lists[b := lists[b][1..]], word, at[heads[b] := Live])
  {
    var a, l := heads[b], lists[b];
    assert BinOk(b, a, l, word, objects, at);
    assert l[0] == a && l == [a] + l[1..] && a in l;
    var where := at[a := Live];
    forall c | c in heads ensures BinOk(c, heads[b := word[a]][c], lists[b := l[1..]][c], word, objects, where) {
      assert BinOk(c, heads[c], lists[c], word, objects, at);
    }
  }

  /** SLList::insert */
  lemma Pushes(objects: map<int, int>, arenas: seq<Arena>, base: int, position: int, heads: map<Bin, int>, lists: map<Bin, seq<int>>,
               word: Words, at: map<int, Where>, b: Bin, a: int)
    requires Laid(objects, arenas, base, position) && Heap(objects, heads, lists, word, at) && b in heads
    requires a in objects && at[a] == Live && objects[a] == Class2Size(b.class_)
    ensures Heap(objects, heads[b := a], lists[b := [a] + lists[b]], word[a := heads[b]], at[a := Binned(b)])
  {
    assert ObjectOk(a, objects[a], base, position);
    WriteInside(objects, arenas, base, position, heads, lists, word, at, a, a, heads[b]);
    var after, where := word[a := heads[b]], at[a := Binned(b)];
    forall c | c in heads ensures BinOk(c, heads[b := a][c], lists[b := [a] + lists[b]][c], after, objects, where) {
      assert BinOk(c, heads[c], lists[c], after, objects, at);
      if c == b {
        assert ([a] + lists[b])[1..] == lists[b];
      }
    }
  }

  /** Objects have the size of a class, or are too large for any. */
  ghost predicate Classed(objects: map<int, int>) {
    forall a :: a in objects ==> HasClass(objects[a])
  }

  ghost predicate HasClass(size: int) {
    size > Class2Size(NUMBINS - 1) || exists c: nat :: c < NUMBINS && size == Class2Size(c)
  }

  ghost predicate Kept(before: Words, after: Words, a: int, size: int) {
    forall x :: x in before && a <= x < a + size ==> x in after && after[x] == before[x]
  }

  ghost predicate AllBins(heads: map<Bin, int>, heaps: nat) {
    forall h, c {:trigger Bin(h, c)} :: Bin(h, c) in heads <==> 0 <= h < heaps && 0 <= c < NUMBINS
  }

  ghost predicate Sound(objects: map<int, int>, arenas: seq<Arena>, base: int, position: int, heads: map<Bin, int>,
                        lists: map<Bin, seq<int>>, word: Words, at: map<int, Where>) {
    Laid(objects, arenas, base, position) && Heap(objects, heads, lists, word, at) && Classed(objects)
  }

  // ---------- the heaps ----------

  function Align(sz: nat): (r: nat)
    ensures r >= sz && Aligned(r) && r < sz + 8
  {
    (sz + 7) / 8 * 8
  }

  /** What AdaptHeap and the layers above make of a size. */
  function Whole(size: nat): (r: nat)
    ensures r >= size && r >= HEADER && Aligned(r) && (r < size + 8 || r < HEADER + 8)
  {
    Align(if size < HEADER then HEADER else size)
  }

  function PageRound(n: nat): (r: nat)
    ensures r >= n && r % PAGE_SIZE == 0 && r < n + PAGE_SIZE
  {
    PAGE_SIZE * ((n + PAGE_SIZE - 1) / PAGE_SIZE)
  }

  lemma AlignedTimes(q: int)
    ensures Aligned(8 * q)
  {
  }

  lemma PagesAligned(n: nat)
    ensures Aligned(PageRound(n))
  {
    var q := (n + PAGE_SIZE - 1) / PAGE_SIZE;
    AlignedTimes(512 * q);
    assert PageRound(n) == 8 * (512 * q);
  }

  // ---------- a heap's arena ----------

  /** The current arena of a heap, and the pages that nobody has got yet. */
  datatype Zone = Zone(arena: Arena, position: int, remaining: int)

  datatype Bumped = Bumped(ok: bool, p: int, zone: Zone)

  /** zoneMalloc: sz bytes from the arena, or from a new one that takes its place. */
  function ZoneMalloc(z: Zone, sz: nat): Bumped {
    var x := z.arena;
    if x.remaining >= sz then Bumped(true, x.space, z.(arena := Arena(x.space + sz, x.remaining - sz)))
    else
      var alloc := if CHUNK_SIZE < sz then sz else CHUNK_SIZE;
      var pages := PageRound(ARENA_SIZE + alloc);
      if z.remaining == 0 || z.remaining < pages then Bumped(false, 0, z)
      else
        var space := z.position + ARENA_SIZE;
        Bumped(true, space, Zone(Arena(space + sz, alloc - sz), z.position + pages, z.remaining - pages))
  }

  /** The zone after n requests of sz bytes. */
  function ZoneAfter(z: Zone, sz: nat, n: nat): Zone {
    if n == 0 then z else ZoneMalloc(ZoneAfter(z, sz, n - 1), sz).zone
  }

  /** As long as the arena suffices, requests succeed and lie side by side. */
  lemma {:induction false} SideBySide(z: Zone, sz: nat, n: nat)
    requires z.arena.remaining >= 0 && n * sz <= z.arena.remaining
    ensures ZoneAfter(z, sz, n) == z.(arena := Arena(z.arena.space + n * sz, z.arena.remaining - n * sz))
  {
    if n > 0 { SideBySide(z, sz, n - 1); }
  }

  /** A request that the arena does not suffice for succeeds exactly if there are pages for a chunk, or for the request
      if that is larger; the rest of a chunk is left. */
  lemma NewChunk(z: Zone, sz: nat)
    requires 0 <= z.arena.remaining < sz && z.remaining >= 0
    ensures var b := ZoneMalloc(z, sz);
            && (b.ok <==> z.remaining >= PageRound(ARENA_SIZE + CHUNK_SIZE) && z.remaining >= PageRound(ARENA_SIZE + sz))
            && (b.ok && sz <= CHUNK_SIZE ==> b.zone.arena.remaining == CHUNK_SIZE - sz && b.zone.position == z.position + PageRound(ARENA_SIZE + CHUNK_SIZE))
            && (b.ok && sz > CHUNK_SIZE ==> b.zone.arena.remaining == 0 && b.zone.position == z.position + PageRound(ARENA_SIZE + sz))
            && (b.ok ==> b.p == z.position + ARENA_SIZE && b.zone.arena.space == b.p + sz)
  {
    PagesGrow(sz);
  }

  /** From a new chunk as many requests of the same size succeed, side by side, as there is room for in it, without any
      page more; the next one needs another arena. */
  lemma ChunkServes(z: Zone, sz: nat, n: nat)
    requires 0 <= z.arena.remaining < sz && z.remaining >= 0 && ZoneMalloc(z, sz).ok && n >= 1 && n * sz <= CHUNK_SIZE
    ensures var b, c := ZoneMalloc(z, sz), ZoneMalloc(ZoneAfter(z, sz, n), sz);
            if (n + 1) * sz <= CHUNK_SIZE then c.ok && c.p == b.p + n * sz && c.zone.position == b.zone.position
            else c.ok ==> c.p == b.zone.position + ARENA_SIZE
  {
    var x, used := ZoneMalloc(z, sz).zone, (n - 1) * sz;
    NewChunk(z, sz);
    FirstOf(z, sz, n);
    Multiples(sz, n);
    SideBySide(x, sz, n - 1);
    NextOf(z, x, x.(arena := Arena(x.arena.space + used, x.arena.remaining - used)), sz, used);
  }

  lemma Multiples(sz: nat, n: nat)
    requires n >= 1
    ensures n * sz == (n - 1) * sz + sz && (n + 1) * sz == n * sz + sz && (n - 1) * sz >= 0
  {
  }

  lemma NextOf(z: Zone, x: Zone, y: Zone, sz: nat, used: nat)
    requires x == ZoneMalloc(z, sz).zone && x.arena.remaining == CHUNK_SIZE - sz && y == x.(arena := Arena(x.arena.space + used, x.arena.remaining - used))
    requires used + sz <= CHUNK_SIZE && x.arena.space == z.position + ARENA_SIZE + sz
    ensures var c := ZoneMalloc(y, sz);
            if used + 2 * sz <= CHUNK_SIZE then c.ok && c.p == z.position + ARENA_SIZE + used + sz && c.zone.position == x.position
            else c.ok ==> c.p == x.position + ARENA_SIZE
  {
  }

  lemma {:induction false} FirstOf(z: Zone, sz: nat, n: nat)
    requires n >= 1
    ensures ZoneAfter(z, sz, n) == ZoneAfter(ZoneMalloc(z, sz).zone, sz, n - 1)
  {
    if n > 1 { FirstOf(z, sz, n - 1); }
  }

  lemma PagesGrow(sz: nat)
    ensures PageRound(ARENA_SIZE + CHUNK_SIZE) > 0 && PageRound(ARENA_SIZE + sz) > 0
    ensures sz <= CHUNK_SIZE ==> PageRound(ARENA_SIZE + sz) <= PageRound(ARENA_SIZE + CHUNK_SIZE)
    ensures sz >= CHUNK_SIZE ==> PageRound(ARENA_SIZE + CHUNK_SIZE) <= PageRound(ARENA_SIZE + sz)
  {
  }

  class PPHeap {
    const heaps: nat
    const base: int
    const end: int
    /** xheap */
    var position: int
    var remaining: int
    /** The current arena of each heap's ZoneHeap; nothing remains of one that is not there. */
    var arenas: seq<Arena>
    /** The SLList heads. */
    var heads: map<Bin, int>
    var word: Words
    ghost var objects: map<int, int>
    ghost var lists: map<Bin, seq<int>>
    ghost var at: map<int, Where>

    ghost predicate Valid()
      reads this
    {
      && |arenas| == heaps && position + remaining == end && remaining >= 0
      && AllBins(heads, heaps) && Sound(objects, arenas, base, position, heads, lists, word, at)
    }

    constructor (heaps: nat, base: int, pages: nat)
      requires base > 0 && Aligned(base)
      ensures Valid() && objects == map[] && this.heaps == heaps && remaining == pages * PAGE_SIZE
    {
      this.heaps, this.base, end := heaps, base, base + pages * PAGE_SIZE;
      position, remaining := base, pages * PAGE_SIZE;
      arenas := seq(heaps, _ => Arena(base, 0));
      heads := map h: int, c: int | 0 <= h < heaps && 0 <= c < NUMBINS :: Bin(h, c) := 0;
      word, objects, at := map[], map[], map[];
      lists := map h: int, c: int | 0 <= h < heaps && 0 <= c < NUMBINS :: Bin(h, c) := [];
    }

    /** xheap: whole pages; the program ends when there are not enough. */
    method PageMalloc(size: nat) returns (ok: bool, p: int)
      requires Valid()
      modifies this`position, this`remaining
      ensures ok <==> old(remaining) > 0 && old(remaining) >= PageRound(size)
      ensures ok ==> p == old(position) && position == p + PageRound(size) && Aligned(position)
      ensures !ok ==> position == old(position)
      ensures position + remaining == end && remaining >= 0
    {
      var sz := PageRound(size);
      PagesAligned(size);
      assert Aligned(position + sz) by { AlignedSum(position, sz); }
      p := position;
      if remaining == 0 || remaining < sz { return false, p; }
      remaining := remaining - sz;
      position := position + sz;
      ok := true;
    }

    ghost function ZoneOf(h: nat): Zone
      requires h < |arenas|
      reads this
    {
      Zone(arenas[h], position, remaining)
    }

    /** Room in the current arena of the heap h, or in a new one. */
    method Reserve(h: nat, sz: nat) returns (ok: bool)
      requires Valid() && h < heaps && Aligned(sz) && sz >= 2 * HEADER
      modifies this`position, this`remaining, this`arenas
      ensures Valid() && ok == old(ZoneMalloc(ZoneOf(h), sz).ok) && (ok ==> arenas[h].remaining >= sz)
      ensures ZoneMalloc(ZoneOf(h), sz) == old(ZoneMalloc(ZoneOf(h), sz)) && arenas == old(arenas)[h := arenas[h]]
      ensures !ok || old(arenas[h].remaining) >= sz ==> arenas == old(arenas) && position == old(position)
      ensures ok && old(arenas[h].remaining) < sz ==> arenas[h] == Arena(old(position) + ARENA_SIZE, if CHUNK_SIZE < sz then sz else CHUNK_SIZE)
    {
      if arenas[h].remaining >= sz { return true; }
      var alloc := CHUNK_SIZE;
      if alloc < sz { alloc := sz; }
      var p: int;
      ok, p := PageMalloc(ARENA_SIZE + alloc);
      if ok {
        NewArena(objects, arenas, base, p, h, alloc, position);
        arenas := arenas[h := Arena(p + ARENA_SIZE, alloc)];
      }
    }

    /** An object of sz bytes with its header, from the heap's zone. */
    method SourceMalloc(h: nat, sz: nat) returns (ok: bool, p: int)
      requires Valid() && h < heaps && Aligned(sz) && sz >= HEADER && HasClass(sz)
      modifies this`position, this`remaining, this`arenas, this`word, this`objects, this`at
      ensures Valid() && ok == old(ZoneMalloc(ZoneOf(h), HEADER + sz).ok)
      ensures ZoneOf(h) == old(ZoneMalloc(ZoneOf(h), HEADER + sz).zone) && (ok ==> p == old(ZoneMalloc(ZoneOf(h), HEADER + sz).p) + HEADER)
      ensures arenas == old(arenas)[h := arenas[h]]
      ensures ok ==> p > 0 && Aligned(p) && p !in old(objects) && objects == old(objects)[p := sz] && at == old(at)[p := Live]
      ensures ok ==> word == old(word)[p - HEADER := MAGIC][p - 8 := sz]
      ensures !ok ==> objects == old(objects) && at == old(at) && word == old(word) && arenas == old(arenas) && position == old(position)
    {
      p := 0;
      ok := Reserve(h, HEADER + sz);
      if ok { p := Carve(h, sz); }
    }

    /** An object from the current arena, with its header written. */
    method Carve(h: nat, sz: nat) returns (p: int)
      requires Valid() && h < heaps && Aligned(sz) && sz >= HEADER && HasClass(sz) && arenas[h].remaining >= HEADER + sz
      modifies this`arenas, this`word, this`objects, this`at
      ensures Valid() && p > 0 && Aligned(p) && p !in old(objects) && objects == old(objects)[p := sz]
      ensures at == old(at)[p := Live] && word == old(word)[p - HEADER := MAGIC][p - 8 := sz]
      ensures p == old(arenas[h].space) + HEADER && arenas == Rest(old(arenas), h, sz)
    {
      p := arenas[h].space + HEADER;
      ghost var rest := Rest(arenas, h, sz);
      Carved(objects, arenas, base, position, h, sz, p);
      Adds(objects, rest, base, position, heads, lists, word, at, p, sz);
      SoundMore(objects, rest, base, position, heads, lists, word[p - HEADER := MAGIC][p - 8 := sz], at[p := Live], p, sz);
      Advance(h, sz, p);
    }

    /** The arena shrinks from below, and the header is written. */
    method Advance(h: nat, sz: nat, p: int)
      requires |arenas| == heaps && position + remaining == end && remaining >= 0 && AllBins(heads, heaps)
      requires h < heaps && p == arenas[h].space + HEADER
      requires Sound(objects[p := sz], Rest(arenas, h, sz), base, position, heads, lists,
                     word[p - HEADER := MAGIC][p - 8 := sz], at[p := Live])
      modifies this`arenas, this`word, this`objects, this`at
      ensures Valid() && objects == old(objects)[p := sz] && at == old(at)[p := Live]
      ensures word == old(word)[p - HEADER := MAGIC][p - 8 := sz]
      ensures arenas == Rest(old(arenas), h, sz)
    {
      var x := arenas[h];
      arenas := arenas[h := Arena(x.space + HEADER + sz, x.remaining - HEADER - sz)];
      word := word[p - HEADER := MAGIC][p - 8 := sz];
      objects, at := objects[p := sz], at[p := Live];
    }

    static lemma SoundMore(objects: map<int, int>, arenas: seq<Arena>, base: int, position: int, heads: map<Bin, int>,
                           lists: map<Bin, seq<int>>, word: Words, at: map<int, Where>, p: int, sz: int)
      requires Laid(objects[p := sz], arenas, base, position) && Heap(objects[p := sz], heads, lists, word, at)
      requires Classed(objects) && HasClass(sz)
      ensures Sound(objects[p := sz], arenas, base, position, heads, lists, word, at)
    {
    }

    /** The words inside live objects are as before. */
    ghost predicate SameContents(before: Words, live: map<int, Where>, sizes: map<int, int>)
      reads this
    {
      forall a :: a in live && live[a] == Live && a in sizes ==> Kept(before, word, a, sizes[a])
    }

    /** A freed object from the bin, or a new one. */
    method SegMalloc(h: nat, sz: nat) returns (ok: bool, p: int, ghost c: nat)
      requires Valid() && h < heaps && Aligned(sz) && sz >= HEADER
      modifies this`position, this`remaining, this`arenas, this`word, this`objects, this`at, this`heads, this`lists
      ensures Valid()
      ensures ok ==> Gives(old(objects), old(at), p, sz)
      ensures !ok ==> objects == old(objects) && at == old(at)
      ensures SameContents(old(word), old(at), old(objects))
      ensures sz > Class2Size(NUMBINS - 1) ==> ok == old(ZoneMalloc(ZoneOf(h), HEADER + sz).ok) && (ok ==> objects[p] == sz && p !in old(objects))
      ensures sz <= Class2Size(NUMBINS - 1) ==>
                (c == ClassFrom(sz, 0) && c < NUMBINS
                 && FromClass(c, old(heads)[Bin(h, c)], old(ZoneMalloc(ZoneOf(h), HEADER + Class2Size(c)).ok), old(objects), ok, p))
      ensures sz > Class2Size(NUMBINS - 1) ==>
                ZoneOf(h) == old(ZoneMalloc(ZoneOf(h), HEADER + sz).zone) && (ok ==> p == old(ZoneMalloc(ZoneOf(h), HEADER + sz).p) + HEADER)
      ensures sz <= Class2Size(NUMBINS - 1) ==>
                if old(heads)[Bin(h, c)] != 0 then ZoneOf(h) == old(ZoneOf(h))
                else ZoneOf(h) == old(ZoneMalloc(ZoneOf(h), HEADER + Class2Size(c)).zone)
                     && (ok ==> p == old(ZoneMalloc(ZoneOf(h), HEADER + Class2Size(c)).p) + HEADER)
      ensures arenas == old(arenas)[h := arenas[h]]
    {
      if sz <= Class2Size(NUMBINS - 1) {
        ok, p, c := SmallMalloc(h, sz);
      } else {
        c := 0;
        ok, p := NewObject(h, sz);
      }
    }

    method SmallMalloc(h: nat, sz: nat) returns (ok: bool, p: int, ghost c: nat)
      requires Valid() && h < heaps && HEADER <= sz <= Class2Size(NUMBINS - 1)
      modifies this`position, this`remaining, this`arenas, this`word, this`objects, this`at, this`heads, this`lists
      ensures Valid()
      ensures ok ==> Gives(old(objects), old(at), p, sz)
      ensures !ok ==> objects == old(objects) && at == old(at)
      ensures SameContents(old(word), old(at), old(objects))
      ensures c == ClassFrom(sz, 0) && c < NUMBINS
      ensures FromClass(c, old(heads)[Bin(h, c)], old(ZoneMalloc(ZoneOf(h), HEADER + Class2Size(c)).ok), old(objects), ok, p)
      ensures if old(heads)[Bin(h, c)] != 0 then ZoneOf(h) == old(ZoneOf(h))
              else ZoneOf(h) == old(ZoneMalloc(ZoneOf(h), HEADER + Class2Size(c)).zone)
                   && (ok ==> p == old(ZoneMalloc(ZoneOf(h), HEADER + Class2Size(c)).p) + HEADER)
      ensures arenas == old(arenas)[h := arenas[h]]
    {
      var i := SizeClass(sz);
      c := i;
      ok, p := ClassMalloc(h, i);
    }

    method SizeClass(sz: nat) returns (c: nat)
      requires HEADER <= sz <= Class2Size(NUMBINS - 1)
      ensures c == ClassFrom(sz, 0) && c < NUMBINS && sz <= Class2Size(c)
    {
      c := Size2Class(sz);
      ClassInRange(sz, c);
      ClassIsUnique(sz, c, ClassFrom(sz, 0));
    }

    /** An object that was not live is live, and large enough; nothing else happens to objects. */
    ghost predicate Gives(before: map<int, int>, was: map<int, Where>, p: int, sz: int)
      reads this
    {
      && p > 0 && Aligned(p) && p in objects && objects[p] >= sz
      && (p in before ==> before[p] == objects[p] && p in was && was[p].Binned?)
      && objects == before[p := objects[p]] && at == was[p := Live]
    }

    /** The first object of the bin, or a new one. */
    method ClassMalloc(h: nat, c: nat) returns (ok: bool, p: int)
      requires Valid() && h < heaps && c < NUMBINS && Class2Size(c) >= HEADER
      modifies this`position, this`remaining, this`arenas, this`word, this`objects, this`at, this`heads, this`lists
      ensures Valid()
      ensures ok ==> Gives(old(objects), old(at), p, Class2Size(c))
      ensures !ok ==> objects == old(objects) && at == old(at)
      ensures SameContents(old(word), old(at), old(objects))
      ensures FromClass(c, old(heads)[Bin(h, c)], old(ZoneMalloc(ZoneOf(h), HEADER + Class2Size(c)).ok), old(objects), ok, p)
      ensures if old(heads)[Bin(h, c)] != 0 then ZoneOf(h) == old(ZoneOf(h))
              else ZoneOf(h) == old(ZoneMalloc(ZoneOf(h), HEADER + Class2Size(c)).zone)
                   && (ok ==> p == old(ZoneMalloc(ZoneOf(h), HEADER + Class2Size(c)).p) + HEADER)
      ensures arenas == old(arenas)[h := arenas[h]]
    {
      var b := Bin(h, c);
      p := heads[b];
      if p != 0 {
        TakeFromBin(b);
        ok := true;
      } else {
        EightDivides(c);
        assert HasClass(Class2Size(c));
        ok, p := NewObject(h, Class2Size(c));
      }
    }

    /** An object of the class c: the first of its bin, or a new one if the bin is empty and there is room. */
    ghost predicate FromClass(c: nat, head: int, room: bool, before: map<int, int>, ok: bool, p: int)
      reads this
    {
      && (if head != 0 then ok && p == head else ok == room && (ok ==> p !in before))
      && (ok ==> p in objects && objects[p] == Class2Size(c))
    }

    method TakeFromBin(b: Bin)
      requires Valid() && b in heads && heads[b] != 0
      modifies this`heads, this`lists, this`at
      ensures Valid() && Gives(objects, old(at), old(heads[b]), Class2Size(b.class_)) && objects[old(heads[b])] == Class2Size(b.class_)
    {
      ghost var p := heads[b];
      Pops(objects, heads, lists, word, at, b);
      assert ObjectOk(p, objects[p], base, position);
      at := at[p := Live];
      lists := lists[b := lists[b][1..]];
      heads := heads[b := word[heads[b]]];
      assert objects == objects[p := objects[p]];
    }

    method NewObject(h: nat, sz: nat) returns (ok: bool, p: int)
      requires Valid() && h < heaps && Aligned(sz) && sz >= HEADER && HasClass(sz)
      modifies this`position, this`remaining, this`arenas, this`word, this`objects, this`at
      ensures Valid() && ok == old(ZoneMalloc(ZoneOf(h), HEADER + sz).ok)
      ensures ZoneOf(h) == old(ZoneMalloc(ZoneOf(h), HEADER + sz).zone) && (ok ==> p == old(ZoneMalloc(ZoneOf(h), HEADER + sz).p) + HEADER)
      ensures arenas == old(arenas)[h := arenas[h]]
      ensures ok ==> Gives(old(objects), old(at), p, sz) && p !in old(objects) && objects[p] == sz
      ensures !ok ==> objects == old(objects) && at == old(at)
      ensures SameContents(old(word), old(at), old(objects))
    {
      ok, p := SourceMalloc(h, sz);
      if ok {
        forall a | a in old(objects) ensures Kept(old(word), word, a, objects[a]) {
          assert ObjectsApart(objects, a, p) && ObjectOk(p, objects[p], base, position);
        }
      }
    }

    /** malloc on heap h: at least two words, and whole ones; c is their class. */
    method Malloc(h: nat, size: nat) returns (ok: bool, p: int, ghost c: nat)
      requires Valid() && h < heaps
      modifies this`position, this`remaining, this`arenas, this`word, this`objects, this`at, this`heads, this`lists
      ensures Valid()
      ensures ok ==> Gives(old(objects), old(at), p, size)
      ensures !ok ==> objects == old(objects) && at == old(at)
      ensures SameContents(old(word), old(at), old(objects))
      ensures var sz := Whole(size); sz > Class2Size(NUMBINS - 1) ==>
                ok == old(ZoneMalloc(ZoneOf(h), HEADER + sz).ok) && (ok ==> objects[p] == sz && p !in old(objects))
      ensures var sz := Whole(size); sz <= Class2Size(NUMBINS - 1) ==>
                (c == ClassFrom(sz, 0) && c < NUMBINS
                 && FromClass(c, old(heads)[Bin(h, c)], old(ZoneMalloc(ZoneOf(h), HEADER + Class2Size(c)).ok), old(objects), ok, p))
      ensures var sz := Whole(size); sz > Class2Size(NUMBINS - 1) ==>
                ZoneOf(h) == old(ZoneMalloc(ZoneOf(h), HEADER + sz).zone) && (ok ==> p == old(ZoneMalloc(ZoneOf(h), HEADER + sz).p) + HEADER)
      ensures var sz := Whole(size); sz <= Class2Size(NUMBINS - 1) ==>
                if old(heads)[Bin(h, c)] != 0 then ZoneOf(h) == old(ZoneOf(h))
                else ZoneOf(h) == old(ZoneMalloc(ZoneOf(h), HEADER + Class2Size(c)).zone)
                     && (ok ==> p == old(ZoneMalloc(ZoneOf(h), HEADER + Class2Size(c)).p) + HEADER)
      ensures arenas == old(arenas)[h := arenas[h]]
      ensures Whole(size) <= Class2Size(NUMBINS - 1) ==> IsClass(if size < HEADER then HEADER else size, c)
    {
      ok, p, c := SegMalloc(h, Whole(size));
      if Whole(size) <= Class2Size(NUMBINS - 1) { WholeClass(size, c); }
    }

    /** free on heap h, by whatever thread: the object goes to the bin of exactly its size there; a very large one is lost. */
    method Free(h: nat, p: int)
      requires Valid() && h < heaps && p in objects && at[p] == Live
      modifies this`word, this`at, this`heads, this`lists
      ensures Valid()
      ensures at == old(at)[p := if objects[p] > Class2Size(NUMBINS - 1) then Dropped else at[p]]
      ensures objects[p] <= Class2Size(NUMBINS - 1) ==>
                at[p].Binned? && at[p].bin.heap == h && at[p].bin.class_ >= 0 && objects[p] == Class2Size(at[p].bin.class_)
      ensures SameContents(old(word), at, objects)
    {
      assert HasHeader(word, p, objects[p]) && ObjectOk(p, objects[p], base, position);
      var size := word[p - 8];
      if size > Class2Size(NUMBINS - 1) {
        at := at[p := Dropped];
      } else {
        var c: nat := Size2Class(size);
        ClassExact(size, c);
        if Class2Size(c) > size {
          assert false;
        }
        PutIntoBin(Bin(h, c), p);
      }
    }

    /** AdaptHeap's free: the object becomes the first of the list. */
    method PutIntoBin(b: Bin, p: int)
      requires Valid() && b in heads && p in objects && at[p] == Live && objects[p] == Class2Size(b.class_)
      modifies this`word, this`at, this`heads, this`lists
      ensures Valid() && at == old(at)[p := Binned(b)] && SameContents(old(word), at, objects)
      ensures word == old(word)[p := old(heads[b])] && heads == old(heads)[b := p] && lists == old(lists)[b := [p] + old(lists[b])]
    {
      OthersKept(objects, arenas, base, position, word, p, heads[b]);
      PutSound(objects, arenas, base, position, heads, lists, word, at, b, p);
      Push(b, p);
    }

    /** SLList::insert: the object's first word links it to the list. */
    method Push(b: Bin, p: int)
      requires |arenas| == heaps && position + remaining == end && remaining >= 0 && AllBins(heads, heaps) && b in heads && b in lists
      requires Sound(objects, arenas, base, position, heads[b := p], lists[b := [p] + lists[b]], word[p := heads[b]], at[p := Binned(b)])
      modifies this`word, this`at, this`heads, this`lists
      ensures Valid() && at == old(at)[p := Binned(b)] && word == old(word)[p := old(heads[b])]
      ensures heads == old(heads)[b := p] && lists == old(lists)[b := [p] + old(lists[b])]
    {
      word, heads := word[p := heads[b]], heads[b := p];
      at, lists := at[p := Binned(b)], lists[b := [p] + lists[b]];
    }

    static lemma PutSound(objects: map<int, int>, arenas: seq<Arena>, base: int, position: int, heads: map<Bin, int>,
                          lists: map<Bin, seq<int>>, word: Words, at: map<int, Where>, b: Bin, p: int)
      requires Sound(objects, arenas, base, position, heads, lists, word, at) && b in heads && p in objects && at[p] == Live
      requires objects[p] == Class2Size(b.class_)
      ensures Sound(objects, arenas, base, position, heads[b := p], lists[b := [p] + lists[b]], word[p := heads[b]], at[p := Binned(b)])
    {
      Pushes(objects, arenas, base, position, heads, lists, word, at, b, p);
    }

    /** The program writes a word of a live object. */
    method Store(p: int, offset: int, v: int)
      requires Valid() && p in objects && at[p] == Live && 0 <= offset < objects[p]
      modifies this`word
      ensures Valid() && word == old(word)[p + offset := v]
    {
      WriteInside(objects, arenas, base, position, heads, lists, word, at, p, p + offset, v);
      word := word[p + offset := v];
    }

    /** Live objects, and their headers, do not overlap, wherever they were allocated. */
    lemma LiveApart(p: int, q: int)
      requires Valid() && p in at && q in at && at[p] == Live && at[q] == Live && p != q
      ensures p in objects && q in objects && Disjoint(p - HEADER, p + objects[p], q - HEADER, q + objects[q])
    {
      assert ObjectsApart(objects, p, q);
    }

    /** An object is in one bin only, and its bin has its size. */
    lemma OneBin(p: int, b: Bin, c: Bin)
      requires Valid() && b in lists && c in lists && p in lists[b] && p in lists[c]
      ensures b == c && p in objects && objects[p] == Class2Size(b.class_) && at[p] != Live
    {
      assert BinOk(b, heads[b], lists[b], word, objects, at) && BinOk(c, heads[c], lists[c], word, objects, at);
    }
  }

  /** A word of one object is in no other. */
  lemma OthersKept(objects: map<int, int>, arenas: seq<Arena>, base: int, position: int, word: Words, p: int, v: int)
    requires Laid(objects, arenas, base, position) && p in objects
    ensures forall a :: a in objects && a != p ==> Kept(word, word[p := v], a, objects[a])
  {
    forall a | a in objects && a != p ensures Kept(word, word[p := v], a, objects[a]) {
      assert ObjectsApart(objects, a, p) && ObjectOk(p, objects[p], base, position);
    }
  }

  /** Objects of a class are found in that class again. */
  lemma ClassExact(size: nat, c: nat)
    requires HasClass(size) && size <= Class2Size(NUMBINS - 1) && IsClass(size, c)
    ensures Class2Size(c) == size && c < NUMBINS
  {
    var d: nat :| d < NUMBINS && size == Class2Size(d);
    ClassOfItsSize(d);
    ClassIsUnique(size, c, d);
  }

  /** The class of a rounded size is that of the size. */
  lemma WholeClass(size: nat, c: nat)
    requires IsClass(Whole(size), c)
    ensures IsClass(if size < HEADER then HEADER else size, c)
  {
    if c > 0 { EightDivides(c - 1); }
  }

  lemma EightDivides(c: nat)
    ensures Aligned(Class2Size(c))
  {
    assert Pow2(c + 3) == 2 * Pow2(c + 2) && Pow2(c + 2) == 2 * Pow2(c + 1) && Pow2(c + 1) == 2 * Pow2(c);
    assert Class2Size(c) == 8 * Pow2(c);
  }
}
