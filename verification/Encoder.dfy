/** From coarse chunks to a file (encoder.c, without threads): segmenting, looking up and compressing each chunk, and
    writing. */
module Encoder {
  import opened Bytes
  import opened Writer
  import opened FileFormat
  import opened Reorder

  const MAX_RABIN_CHUNK_SIZE := 60 * 1024

  /** rabinseg gives the length of the next segment of what it is shown. */
  type Segmenter = f: seq<Byte> -> nat | forall b: seq<Byte> :: b != [] ==> 1 <= f(b) <= |b| witness (b: seq<Byte>) => |b|

  /** The segments of a coarse chunk, none of them empty or too long. */
  ghost predicate Segments(start: seq<Byte>, parts: seq<Chunk>) {
    Concat(parts) == start && forall i :: 0 <= i < |parts| ==> 0 < |parts[i]| <= MAX_RABIN_CHUNK_SIZE
  }

  lemma ConcatMore(parts: seq<Chunk>, last: Chunk)
    ensures Concat(parts + [last]) == Concat(parts) + last
  {
    assert (parts + [last])[..|parts|] == parts;
  }

  /** The segments of what is left of a coarse chunk; they never get longer than n. */
  ghost function Cut(start: seq<Byte>, n: nat, rabinseg: Segmenter): seq<Chunk>
    requires n > 0
    decreases |start|
  {
    if start == [] then [] else
      var m := if |start| < n then |start| else n;
      var l := rabinseg(start[..m]);
      [start[..l]] + Cut(start[l..], m, rabinseg)
  }

  lemma CutNext(start: seq<Byte>, p: nat, n: nat, rabinseg: Segmenter, m: nat, l: nat)
    requires p < |start| && n > 0 && m == (if |start| - p < n then |start| - p else n) && l == rabinseg(start[p..p + m])
    ensures 1 <= l <= m && Cut(start[p..], n, rabinseg) == [start[p..p + l]] + Cut(start[p + l..], m, rabinseg)
  {
    var rest := start[p..];
    assert rest[..m] == start[p..p + m];
    assert rest[..l] == start[p..p + l] && rest[l..] == start[p + l..];
  }

  /** The segments up to p are done. */
  ghost predicate Cutting(start: seq<Byte>, p: nat, n: nat, rabinseg: Segmenter, parts: seq<Chunk>) {
    && p <= |start| && 0 < n <= MAX_RABIN_CHUNK_SIZE && Segments(start[..p], parts) && (p > 0 ==> parts != [])
    && parts + Cut(start[p..], n, rabinseg) == Cut(start, MAX_RABIN_CHUNK_SIZE, rabinseg)
  }

  lemma SegmentsMore(start: seq<Byte>, anchor: nat, p: nat, parts: seq<Chunk>, part: Chunk)
    requires anchor < p <= |start| && p - anchor <= MAX_RABIN_CHUNK_SIZE && part == start[anchor..p] && Segments(start[..anchor], parts)
    ensures Segments(start[..p], parts + [part])
  {
    ConcatMore(parts, part);
    assert start[..p] == start[..anchor] + part;
  }

  lemma CutOne(start: seq<Byte>, anchor: nat, n: nat, rabinseg: Segmenter, parts: seq<Chunk>, m: nat, p: nat, part: Chunk)
    requires Cutting(start, anchor, n, rabinseg, parts) && anchor < |start|
    requires m == (if |start| - anchor < n then |start| - anchor else n) && p == anchor + rabinseg(start[anchor..anchor + m])
    requires p <= |start| && part == start[anchor..p]
    ensures anchor < p && Cutting(start, p, m, rabinseg, parts + [part])
  {
    CutNext(start, anchor, n, rabinseg, m, p - anchor);
    SegmentsMore(start, anchor, p, parts, part);
    Assoc(parts, [part], Cut(start[p..], m, rabinseg));
  }

  method Segment(start: seq<Byte>, rabinseg: Segmenter) returns (parts: seq<Chunk>)
    ensures Segments(start, parts) && (start != [] ==> parts != []) && parts == Cut(start, MAX_RABIN_CHUNK_SIZE, rabinseg)
  {
    var anchor: nat, n: nat := 0, MAX_RABIN_CHUNK_SIZE;
    parts := [];
    CutBegins(start, rabinseg);
    while anchor < |start|
      invariant Cutting(start, anchor, n, rabinseg, parts)
      decreases |start| - anchor
    {
      var part;
      anchor, n, part := SegmentOne(start, anchor, n, rabinseg, parts);
      parts := parts + [part];
    }
    CutEnds(start, n, rabinseg, parts);
    if |start| - anchor > 0 {
      assert false;
    }
  }

  /** One segment, from the anchor on; n shrinks towards the end. */
  method SegmentOne(start: seq<Byte>, anchor: nat, n: nat, rabinseg: Segmenter, ghost parts: seq<Chunk>)
    returns (p: nat, m: nat, part: Chunk)
    requires Cutting(start, anchor, n, rabinseg, parts) && anchor < |start|
    ensures p > anchor && Cutting(start, p, m, rabinseg, parts + [part])
  {
    m := if |start| - anchor < n then |start| - anchor else n;
    var l := rabinseg(start[anchor..anchor + m]);
    p := anchor + l;
    part := start[anchor..p];
    CutOne(start, anchor, n, rabinseg, parts, m, p, part);
  }

  lemma CutBegins(start: seq<Byte>, rabinseg: Segmenter)
    ensures Cutting(start, 0, MAX_RABIN_CHUNK_SIZE, rabinseg, [])
  {
    assert start[0..] == start && start[..0] == [];
  }

  lemma CutEnds(start: seq<Byte>, n: nat, rabinseg: Segmenter, parts: seq<Chunk>)
    requires Cutting(start, |start|, n, rabinseg, parts)
    ensures Segments(start, parts) && parts == Cut(start, MAX_RABIN_CHUNK_SIZE, rabinseg)
  {
    assert start[..|start|] == start && start[|start|..] == [];
  }

  /** All chunks of the input. */
  ghost function ChunksOf(coarse: seq<seq<Byte>>, rabinseg: Segmenter): seq<Chunk> {
    if coarse == [] then [] else
      var n := |coarse| - 1;
      ChunksOf(coarse[..n], rabinseg) + Cut(coarse[n], MAX_RABIN_CHUNK_SIZE, rabinseg)
  }

  // ---------- sub_ChunkProcess and sub_Compress ----------

  /** Chunks that have been seen are in the cache with the data of a chunk of the same digest. */
  ghost predicate Cached(k: Codec, chunks: seq<Chunk>, cache: map<Key, PContent>) {
    && (forall i :: 0 <= i < |chunks| ==> k.sha(chunks[i]) in cache)
    && (forall d :: d in cache ==> exists i :: 0 <= i < |chunks| && d == k.sha(chunks[i]) && cache[d] == Data(k, chunks[i]))
  }

  /** A chunk that is not in the cache is put there, and compressed. */
  method Process(k: Codec, chunk: Chunk, cache: map<Key, PContent>, ghost chunks: seq<Chunk>) returns (r: map<Key, PContent>, key: Key)
    requires Cached(k, chunks, cache)
    ensures key == k.sha(chunk) && Cached(k, chunks + [chunk], r)
  {
    key := k.sha(chunk);
    r := cache;
    ghost var all := chunks + [chunk];
    forall i | 0 <= i < |chunks| ensures all[i] == chunks[i] {}
    assert all[|chunks|] == chunk;
    if key !in cache {
      r := r[key := PContent(0, [], Occupy)];
      var pstr := k.zip(chunk);
      r := r[key := PContent(|pstr|, pstr, DataReady)];
    }
    forall d | d in r ensures exists i :: 0 <= i < |all| && d == k.sha(all[i]) && r[d] == Data(k, all[i]) {
      if d in cache {
        var i :| 0 <= i < |chunks| && d == k.sha(chunks[i]) && cache[d] == Data(k, chunks[i]);
        assert d == k.sha(all[i]) && r[d] == Data(k, all[i]);
      } else {
        assert d == k.sha(all[|chunks|]) && r[d] == Data(k, all[|chunks|]);
      }
    }
  }

  lemma CachedIsFilled(k: Codec, chunks: seq<Chunk>, cache: map<Key, PContent>)
    requires Good(k, chunks) && Cached(k, chunks, cache)
    ensures FileFormat.Filled(k, chunks, cache)
  {
    forall i | 0 <= i < |chunks|
      ensures var d := k.sha(chunks[i]); d in cache && cache[d] == Data(k, chunks[i])
    {
      var d := k.sha(chunks[i]);
      var j :| 0 <= j < |chunks| && d == k.sha(chunks[j]) && cache[d] == Data(k, chunks[j]);
    }
  }

  // ---------- the items ----------

  /** The items stand in the order of their places, and there is one for each place. */
  ghost predicate Covers(items: seq<Item>, counts: seq<nat>) {
    && (forall i :: 0 <= i < |items| ==> InRange(counts, items[i].place))
    && (forall i, j :: 0 <= i < j < |items| ==> Before(items[i].place, items[j].place))
    && (forall p :: InRange(counts, p) ==> exists i :: 0 <= i < |items| && items[i].place == p)
  }

  /** What each item says of its chunk. */
  ghost predicate Describe(k: Codec, items: seq<Item>, chunks: seq<Chunk>) {
    |items| == |chunks| && forall i :: 0 <= i < |items| ==> items[i].len == SHA1_LEN && items[i].key == k.sha(chunks[i])
  }

  lemma CoversAnchor(items: seq<Item>, counts: seq<nat>)
    requires Covers(items, counts)
    ensures Covers(items, counts + [0])
  {
    forall p | InRange(counts + [0], p) ensures exists i :: 0 <= i < |items| && items[i].place == p {
      assert InRange(counts, p);
    }
  }

  lemma CoversNext(items: seq<Item>, counts: seq<nat>, x: Item)
    requires counts != [] && Covers(items, counts) && x.place == Place(|counts| - 1, counts[|counts| - 1])
    ensures Covers(items + [x], counts[|counts| - 1 := counts[|counts| - 1] + 1])
  {
    var a := |counts| - 1;
    var all, more := items + [x], counts[a := counts[a] + 1];
    forall i, j | 0 <= i < j < |all| ensures Before(all[i].place, all[j].place) {
      assert InRange(counts, items[i].place);
    }
    forall p | InRange(more, p) ensures exists i :: 0 <= i < |all| && all[i].place == p {
      if p == x.place {
        assert all[|items|].place == p;
      } else {
        assert InRange(counts, p);
        var i :| 0 <= i < |items| && items[i].place == p;
        assert all[i].place == p;
      }
    }
  }

  /** The state of the pipeline between two chunks. */
  ghost predicate Piped(k: Codec, chunks: seq<Chunk>, items: seq<Item>, counts: seq<nat>, cache: map<Key, PContent>) {
    Covers(items, counts) && Describe(k, items, chunks) && Cached(k, chunks, cache)
  }

  /** The next chunk of the last anchor goes through the pipeline. */
  method PipeOne(k: Codec, part: Chunk, items0: seq<Item>, counts0: seq<nat>, c: nat, cache0: map<Key, PContent>, ghost chunks: seq<Chunk>)
    returns (items: seq<Item>, cache: map<Key, PContent>)
    requires Piped(k, chunks, items0, counts0 + [c], cache0)
    ensures Piped(k, chunks + [part], items, counts0 + [c + 1], cache)
  {
    var key: Key;
    cache, key := Process(k, part, cache0, chunks);
    var x := Item(Place(|counts0|, c), SHA1_LEN, key);
    CoversNext(items0, counts0 + [c], x);
    assert (counts0 + [c])[|counts0| := c + 1] == counts0 + [c + 1];
    items := items0 + [x];
  }

  /** The chunks of one coarse chunk. */
  method Anchor(k: Codec, parts: seq<Chunk>, items0: seq<Item>, counts0: seq<nat>, cache0: map<Key, PContent>, ghost chunks0: seq<Chunk>)
    returns (items: seq<Item>, counts: seq<nat>, cache: map<Key, PContent>)
    requires Piped(k, chunks0, items0, counts0, cache0)
    ensures counts == counts0 + [|parts|] && Piped(k, chunks0 + parts, items, counts, cache)
  {
    items, cache := items0, cache0;
    ghost var chunks := chunks0;
    CoversAnchor(items, counts0);
    for c := 0 to |parts|
      invariant chunks == chunks0 + parts[..c] && Piped(k, chunks, items, counts0 + [c], cache)
    {
      items, cache := PipeOne(k, parts[c], items, counts0, c, cache, chunks);
      PrefixLast(parts, c + 1);
      Assoc(chunks0, parts[..c], [parts[c]]);
      chunks := chunks + [parts[c]];
    }
    assert parts[..|parts|] == parts;
    counts := counts0 + [|parts|];
  }

  lemma {:induction false} ConcatAppend(a: seq<Chunk>, b: seq<Chunk>)
    ensures Concat(a + b) == Concat(a) + Concat(b)
    decreases |b|
  {
    if b == [] {
      assert a + b == a;
    } else {
      var n := |b| - 1;
      assert a + b == (a + b[..n]) + [b[n]];
      ConcatMore(a + b[..n], b[n]);
      ConcatAppend(a, b[..n]);
    }
  }

  /** The chunks of the first coarse chunks are these. */
  ghost predicate Lists(coarse: seq<seq<Byte>>, rabinseg: Segmenter, chunks: seq<Chunk>) {
    Concat(chunks) == Concat(coarse) && chunks == ChunksOf(coarse, rabinseg)
  }

  lemma ListsNext(coarse: seq<seq<Byte>>, a: nat, rabinseg: Segmenter, chunks: seq<Chunk>, parts: seq<Chunk>)
    requires a < |coarse| && Lists(coarse[..a], rabinseg, chunks)
    requires Concat(parts) == coarse[a] && parts == Cut(coarse[a], MAX_RABIN_CHUNK_SIZE, rabinseg)
    ensures Lists(coarse[..a + 1], rabinseg, chunks + parts)
  {
    ConcatAppend(chunks, parts);
    ConcatMore(coarse[..a], coarse[a]);
    PrefixLast(coarse, a + 1);
    assert coarse[..a + 1][..a] == coarse[..a];
  }

  lemma OneMoreCount(counts: seq<nat>, n: nat)
    requires Positive(counts) && n > 0
    ensures Positive(counts + [n])
  {
  }

  /** The pipeline up to the writer. */
  method Pipeline(k: Codec, coarse: seq<seq<Byte>>, rabinseg: Segmenter)
    returns (items: seq<Item>, counts: seq<nat>, cache: map<Key, PContent>, ghost chunks: seq<Chunk>)
    requires forall i :: 0 <= i < |coarse| ==> coarse[i] != []
    ensures Piped(k, chunks, items, counts, cache) && Lists(coarse, rabinseg, chunks) && Positive(counts)
  {
    items, counts, cache, chunks := [], [], map[], [];
    for a := 0 to |coarse|
      invariant Piped(k, chunks, items, counts, cache) && Lists(coarse[..a], rabinseg, chunks) && Positive(counts)
    {
      ghost var c0 := counts;
      var parts := Segment(coarse[a], rabinseg);
      items, counts, cache := Anchor(k, parts, items, counts, cache, chunks);
      OneMoreCount(c0, |parts|);
      ListsNext(coarse, a, rabinseg, chunks, parts);
      chunks := chunks + parts;
    }
    assert coarse[..|coarse|] == coarse;
  }

  lemma CoversComplete(items: seq<Item>, counts: seq<nat>)
    requires Covers(items, counts) && Positive(counts)
    ensures Complete(items, counts) && InFileOrder(items, items)
  {
  }

  lemma EncodesFile(k: Codec, chunks: seq<Chunk>, items: seq<Item>, cache: map<Key, PContent>, head: seq<Byte>)
    requires Good(k, chunks) && Cached(k, chunks, cache) && Describe(k, items, chunks)
    ensures WriteBlocks(Output(FileFormat.Header(head), cache, 0), ToWrite(items)).file + [TYPE_FINISH] == FileOf(k, head, chunks)
  {
    CachedIsFilled(k, chunks, cache);
    var blocks := BlocksOf(k, chunks);
    assert ToWrite(items) == blocks;
    assert blocks[..|chunks|] == blocks;
    WriterMakesFile(k, chunks, Output(FileFormat.Header(head), cache, 0), |chunks|);
  }

  /** Encode: the file lists the chunks of the input, and their concatenation is the input. */
  method Encode(k: Codec, coarse: seq<seq<Byte>>, rabinseg: Segmenter, head: seq<Byte>) returns (file: seq<Byte>)
    requires forall i :: 0 <= i < |coarse| ==> coarse[i] != []
    ensures Good(k, ChunksOf(coarse, rabinseg)) ==> file == FileOf(k, head, ChunksOf(coarse, rabinseg))
    ensures Concat(ChunksOf(coarse, rabinseg)) == Concat(coarse)
  {
    var items, counts, cache;
    ghost var chunks;
    items, counts, cache, chunks := Pipeline(k, coarse, rabinseg);
    CoversComplete(items, counts);
    file := WriteOut(items, counts, cache, head);
    if Good(k, chunks) { EncodesFile(k, chunks, items, cache, head); }
  }

  method WriteOut(items: seq<Item>, counts: seq<nat>, cache: map<Key, PContent>, head: seq<Byte>) returns (file: seq<Byte>)
    requires Complete(items, counts) && InFileOrder(items, items)
    ensures file == WriteBlocks(Output(FileFormat.Header(head), cache, 0), ToWrite(items)).file + [TYPE_FINISH]
  {
    var f := new OutputFile(cache);
    assert [] + FileFormat.Header(head) == FileFormat.Header(head);
    var T;
    ghost var out;
    T, out := SendBlock(items, counts, f, head);
    OneOrder(out, items);
    file := f.file;
  }
}
