/** From a file back to the input (decoder.c): the four stages, one after the other. */
module Decoder {
  import opened Bytes
  import opened Writer
  import opened FileFormat

  const NUM_BUF := 1024 * 1024

  /** The buffers between the stages: they hold one item less than they have places, and nobody checks. */
  class CircularBuffer {
    const buf: array<Part>
    var head: nat
    var tail: nat
    ghost var contents: seq<Part>

    ghost predicate Valid()
      reads this, buf
    {
      && buf.Length == NUM_BUF && head < NUM_BUF && tail < NUM_BUF && |contents| < NUM_BUF
      && head == Wrap(tail + |contents|)
      && forall i :: 0 <= i < |contents| ==> contents[i] == buf[Wrap(tail + i)]
    }

    ghost function Wrap(i: nat): nat {
      if i < NUM_BUF then i else i - NUM_BUF
    }

    constructor ()
      ensures Valid() && contents == [] && fresh(buf)
    {
      buf := new Part[NUM_BUF](_ => Part(0, 0, []));
      head, tail, contents := 0, 0, [];
    }

    method IsEmpty() returns (r: bool)
      requires Valid()
      ensures r <==> contents == []
    {
      r := tail == head;
    }

    method Put(x: Part)
      requires Valid() && |contents| + 1 < NUM_BUF
      modifies this, buf
      ensures Valid() && contents == old(contents) + [x]
    {
      buf[head] := x;
      head := head + 1;
      if head == NUM_BUF { head := 0; }
      contents := contents + [x];
    }

    method Take() returns (x: Part)
      requires Valid() && contents != []
      modifies this
      ensures Valid() && x == old(contents)[0] && contents == old(contents)[1..]
    {
      x := buf[tail];
      tail := tail + 1;
      if tail == NUM_BUF { tail := 0; }
      contents := contents[1..];
    }
  }

  ghost function OfType(parts: seq<Part>, typ: Byte): seq<Part> {
    if parts == [] then [] else
      var n := |parts| - 1;
      OfType(parts[..n], typ) + (if parts[n].typ == typ then [parts[n]] else [])
  }

  lemma OfTypeNext(parts: seq<Part>, p: Part, typ: Byte)
    ensures OfType(parts + [p], typ) == OfType(parts, typ) + (if p.typ == typ then [p] else [])
  {
    assert (parts + [p])[..|parts|] == parts;
  }

  lemma {:induction false} OfTypeSize(parts: seq<Part>, typ: Byte)
    ensures |OfType(parts, typ)| <= |parts|
    decreases |parts|
  {
    if parts != [] { OfTypeSize(parts[..|parts| - 1], typ); }
  }

  /** The first stage has read up to pos, and handed on `parts`. */
  ghost predicate Read(file: seq<Byte>, pos: nat, parts: seq<Part>) {
    pos <= |file| && Parse(file) == PrependAll(parts, Parse(file[pos..]))
  }

  ghost predicate Sorted(parts: seq<Part>, data: CircularBuffer, digests: CircularBuffer, ready: CircularBuffer)
    reads data, digests, ready
  {
    && data.contents == OfType(parts, TYPE_COMPRESS) && digests.contents == OfType(parts, TYPE_FINGERPRINT)
    && ready.contents == OfType(parts, TYPE_HEAD)
  }

  lemma ReadNext(file: seq<Byte>, pos: nat, parts: seq<Part>, p: Part, next: nat)
    requires Read(file, pos, parts) && pos <= next <= |file| && Parse(file[pos..]) == Prepend(p, Parse(file[next..]))
    ensures Read(file, next, parts + [p])
  {
    PrependOne(parts, p, Parse(file[next..]));
  }

  /** A part goes to the stage for its type. */
  method Dispatch(p: Part, data: CircularBuffer, digests: CircularBuffer, ready: CircularBuffer, ghost parts: seq<Part>)
    requires data.Valid() && digests.Valid() && ready.Valid() && Sorted(parts, data, digests, ready) && |parts| + 1 < NUM_BUF
    requires data != digests && data != ready && digests != ready
    requires data.buf != digests.buf && data.buf != ready.buf && digests.buf != ready.buf
    requires p.typ == TYPE_COMPRESS || p.typ == TYPE_FINGERPRINT || p.typ == TYPE_HEAD
    modifies data, data.buf, digests, digests.buf, ready, ready.buf
    ensures data.Valid() && digests.Valid() && ready.Valid() && Sorted(parts + [p], data, digests, ready)
  {
    OfTypeSize(parts, p.typ);
    OfTypeNext(parts, p, TYPE_COMPRESS);
    OfTypeNext(parts, p, TYPE_FINGERPRINT);
    OfTypeNext(parts, p, TYPE_HEAD);
    if p.typ == TYPE_COMPRESS {
      data.Put(p);
    } else if p.typ == TYPE_FINGERPRINT {
      digests.Put(p);
    } else {
      ready.Put(p);
    }
  }

  datatype Got = End | Bad | Nothing | Got(p: Part)

  lemma SuffixSlice(file: seq<Byte>, pos: nat, i: nat, j: nat)
    requires i <= j && pos + j <= |file|
    ensures file[pos..][i..j] == file[pos + i..pos + j] && file[pos..][j..] == file[pos + j..]
  {
  }

  /** What is read from pos on, up to next. */
  ghost predicate ReadsAs(file: seq<Byte>, pos: nat, g: Got, next: nat)
    requires pos <= |file|
  {
    var r := Parse(file[pos..]);
    match g
    case End => r == Parsed([], true)
    case Bad => r == Parsed([], false)
    case Nothing => pos < next <= |file| && r == Parse(file[next..])
    case Got(p) => pos < next <= |file| && r == Prepend(p, Parse(file[next..]))
                   && (p.typ == TYPE_COMPRESS || p.typ == TYPE_FINGERPRINT || p.typ == TYPE_HEAD)
  }

  /** One item of the file. */
  method ReadOne(file: seq<Byte>, pos: nat) returns (g: Got, next: nat)
    requires pos <= |file|
    ensures ReadsAs(file, pos, g, next)
  {
    next := pos;
    if pos == |file| { return Bad, pos; }
    var typ := file[pos];
    if typ == TYPE_FINISH { return End, pos; }
    if typ == TYPE_HEAD {
      if pos + 5 + HEAD_LEN > |file| { return Bad, pos; }
      SuffixSlice(file, pos, 1, 5);
      SuffixSlice(file, pos, 5, 5 + HEAD_LEN);
      if FromLE(file[pos + 1..pos + 5]) != CHECKBIT { return Bad, pos; }
      return Got(Part(TYPE_HEAD, 0, file[pos + 5..pos + 5 + HEAD_LEN])), pos + 5 + HEAD_LEN;
    } else if typ == TYPE_FINGERPRINT || typ == TYPE_COMPRESS {
      g, next := ReadRecord(file, pos, typ);
    } else {
      SuffixSlice(file, pos, 0, 1);
      return Nothing, pos + 1;
    }
  }

  method ReadRecord(file: seq<Byte>, pos: nat, typ: Byte) returns (g: Got, next: nat)
    requires pos < |file| && file[pos] == typ && (typ == TYPE_FINGERPRINT || typ == TYPE_COMPRESS)
    ensures ReadsAs(file, pos, g, next)
  {
    if pos + 13 > |file| { return Bad, pos; }
    SuffixSlice(file, pos, 1, 5);
    SuffixSlice(file, pos, 5, 13);
    var number, len := FromLE(file[pos + 1..pos + 5]), FromLE(file[pos + 5..pos + 13]);
    if pos + 13 + len > |file| { return Bad, pos; }
    SuffixSlice(file, pos, 13, 13 + len);
    next := pos + 13 + len;
    g := if len > 0 then Got(Part(typ, number, file[pos + 13..pos + 13 + len])) else Nothing;
  }

  method RecvBlock(file: seq<Byte>, data: CircularBuffer, digests: CircularBuffer, ready: CircularBuffer) returns (ok: bool)
    requires data.Valid() && digests.Valid() && ready.Valid() && data.contents == digests.contents == ready.contents == []
    requires data != digests && data != ready && digests != ready
    requires data.buf != digests.buf && data.buf != ready.buf && digests.buf != ready.buf
    requires |Parse(file).parts| + 1 < NUM_BUF
    modifies data, data.buf, digests, digests.buf, ready, ready.buf
    ensures data.Valid() && digests.Valid() && ready.Valid()
    ensures ok == Parse(file).ok && Sorted(Parse(file).parts, data, digests, ready)
  {
    var pos := 0;
    ghost var parts: seq<Part> := [];
    assert file[0..] == file && [] + Parse(file).parts == Parse(file).parts;
    while true
      invariant Read(file, pos, parts) && data.Valid() && digests.Valid() && ready.Valid()
      invariant Sorted(parts, data, digests, ready)
      decreases |file| - pos
    {
      var g, next := ReadOne(file, pos);
      if g.End? || g.Bad? {
        assert parts + [] == parts;
        return g.End?;
      }
      if g.Got? {
        ReadNext(file, pos, parts, g.p, next);
        Dispatch(g.p, data, digests, ready, parts);
        parts := parts + [g.p];
      }
      pos := next;
    }
  }

  // ---------- Decompress and CheckCache ----------

  ghost function Unzipped(k: Codec, parts: seq<Part>): (r: seq<Part>)
    ensures |r| == |parts|
    ensures forall i :: 0 <= i < |r| ==> r[i] == parts[i].(content := k.unzip(parts[i].content))
  {
    seq(|parts|, i requires 0 <= i < |parts| => parts[i].(content := k.unzip(parts[i].content)))
  }

  /** What the cache holds once the first n parts have been unzipped; of two with one digest the later is found. */
  ghost function CacheOf(k: Codec, parts: seq<Part>): map<Key, Chunk> {
    if parts == [] then map[] else
      var c := k.unzip(parts[|parts| - 1].content);
      CacheOf(k, parts[..|parts| - 1])[k.sha(c) := c]
  }

  lemma CacheNext(k: Codec, parts: seq<Part>, n: nat)
    requires n < |parts|
    ensures var c := k.unzip(parts[n].content); CacheOf(k, parts[..n + 1]) == CacheOf(k, parts[..n])[k.sha(c) := c]
  {
    assert parts[..n + 1][..n] == parts[..n];
  }

  method Uncompress(k: Codec, item: Part, cache: map<Key, Chunk>, ready: CircularBuffer) returns (r: map<Key, Chunk>)
    requires ready.Valid() && |ready.contents| + 1 < NUM_BUF
    modifies ready, ready.buf
    ensures ready.Valid() && ready.contents == old(ready.contents) + [item.(content := k.unzip(item.content))]
    ensures var c := k.unzip(item.content); r == cache[k.sha(c) := c]
  {
    var pstr := k.unzip(item.content);
    var key := k.sha(pstr);
    r := cache[key := pstr];
    ready.Put(item.(content := pstr));
  }

  method Decompress(k: Codec, data: CircularBuffer, ready: CircularBuffer) returns (cache: map<Key, Chunk>)
    requires data.Valid() && ready.Valid() && data != ready && data.buf != ready.buf
    requires |ready.contents| + |data.contents| + 1 < NUM_BUF
    modifies data, ready, ready.buf
    ensures data.Valid() && ready.Valid() && cache == CacheOf(k, old(data.contents))
    ensures ready.contents == old(ready.contents) + Unzipped(k, old(data.contents))
  {
    cache := map[];
    ghost var parts, n, before := data.contents, 0, ready.contents;
    var empty := data.IsEmpty();
    while !empty
      invariant 0 <= n <= |parts| && Unzipping(k, data, ready, before, parts, n, cache) && (empty <==> n == |parts|)
      decreases |parts| - n
    {
      cache := DecompressOne(k, data, ready, before, parts, n, cache);
      n := n + 1;
      empty := data.IsEmpty();
    }
    assert parts[..n] == parts;
  }

  /** The first n parts have been unzipped and handed on. */
  ghost predicate Unzipping(k: Codec, data: CircularBuffer, ready: CircularBuffer, before: seq<Part>, parts: seq<Part>, n: nat, cache: map<Key, Chunk>)
    reads data, data.buf, ready, ready.buf
  {
    && n <= |parts| && data.Valid() && ready.Valid() && data.contents == parts[n..] && |before| + |parts| + 1 < NUM_BUF
    && cache == CacheOf(k, parts[..n]) && ready.contents == before + Unzipped(k, parts)[..n]
  }

  method DecompressOne(k: Codec, data: CircularBuffer, ready: CircularBuffer, ghost before: seq<Part>, ghost parts: seq<Part>, ghost n: nat,
                       cache: map<Key, Chunk>) returns (r: map<Key, Chunk>)
    requires data != ready && data.buf != ready.buf && n < |parts| && Unzipping(k, data, ready, before, parts, n, cache)
    modifies data, ready, ready.buf
    ensures Unzipping(k, data, ready, before, parts, n + 1, r)
  {
    var item := data.Take();
    r := Uncompress(k, item, cache, ready);
    CacheNext(k, parts, n);
  }

  ghost function Looked(cache: map<Key, Chunk>, parts: seq<Part>): (r: seq<Part>)
    requires forall i :: 0 <= i < |parts| ==> parts[i].content in cache
    ensures |r| == |parts|
    ensures forall i :: 0 <= i < |r| ==> r[i] == parts[i].(content := cache[parts[i].content])
  {
    seq(|parts|, i requires 0 <= i < |parts| => parts[i].(content := cache[parts[i].content]))
  }

  /** A digest that is not in the cache would be looked for for ever. */
  method CheckCache(cache: map<Key, Chunk>, digests: CircularBuffer, ready: CircularBuffer)
    requires digests.Valid() && ready.Valid() && digests != ready && digests.buf != ready.buf
    requires |ready.contents| + |digests.contents| + 1 < NUM_BUF
    requires forall i :: 0 <= i < |digests.contents| ==> digests.contents[i].content in cache
    modifies digests, ready, ready.buf
    ensures digests.Valid() && ready.Valid()
    ensures ready.contents == old(ready.contents) + Looked(cache, old(digests.contents))
  {
    ghost var parts, n := digests.contents, 0;
    var empty := digests.IsEmpty();
    while !empty
      invariant 0 <= n <= |parts| && digests.Valid() && ready.Valid() && digests.contents == parts[n..] && (empty <==> n == |parts|)
      invariant ready.contents == old(ready.contents) + Looked(cache, parts)[..n]
      decreases |parts| - n
    {
      var item := digests.Take();
      ready.Put(item.(content := cache[item.content]));
      n := n + 1;
      empty := digests.IsEmpty();
    }
  }

  // ---------- the list of chunks that came too early ----------

  class ChunkNode {
    var next: ChunkNode?
    const cid: nat
    const content: Chunk

    constructor (cid: nat, content: Chunk)
      ensures this.cid == cid && this.content == content && next == null
    {
      next := null;
      this.cid, this.content := cid, content;
    }
  }

  ghost function Succ(s: seq<ChunkNode>, i: nat): ChunkNode?
    requires i < |s|
  {
    if i + 1 < |s| then s[i + 1] else null
  }

  /** The list from `first` on, by increasing number. */
  ghost predicate List(first: ChunkNode?, s: seq<ChunkNode>)
    reads s
  {
    && first == (if s == [] then null else s[0])
    && (forall i {:trigger s[i].next} :: 0 <= i < |s| ==> s[i].next == Succ(s, i))
    && forall i, j {:trigger s[i].cid, s[j].cid} :: 0 <= i < j < |s| ==> s[i].cid < s[j].cid
  }

  /** The node p has been linked in at place k. */
  lemma Inserted(first: ChunkNode?, s: seq<ChunkNode>, p: ChunkNode, k: nat)
    requires k <= |s| && first == (if k == 0 then p else s[0])
    requires forall i {:trigger s[i].next} :: 0 <= i < |s| ==> s[i].next == if i + 1 == k then p else Succ(s, i)
    requires p.next == if k < |s| then s[k] else null
    requires forall i, j {:trigger s[i].cid, s[j].cid} :: 0 <= i < j < |s| ==> s[i].cid < s[j].cid
    requires forall i {:trigger s[i].cid} :: 0 <= i < |s| ==> if i < k then s[i].cid < p.cid else p.cid < s[i].cid
    ensures List(first, s[..k] + [p] + s[k..])
  {
    var t := s[..k] + [p] + s[k..];
    forall j | 0 <= j < |t| ensures t[j] == (if j < k then s[j] else if j == k then p else s[j - 1]) && t[j].next == Succ(t, j) {
    }
    forall i, j | 0 <= i < j < |t| ensures t[i].cid < t[j].cid {
      assert t[i] == if i < k then s[i] else if i == k then p else s[i - 1];
      assert t[j] == if j < k then s[j] else if j == k then p else s[j - 1];
    }
  }

  /** list_insert, and what its callers do with the new node. */
  method ListInsert(first: ChunkNode?, cid: nat, content: Chunk, ghost s: seq<ChunkNode>)
    returns (r: ChunkNode, ghost p: ChunkNode, ghost k: nat)
    requires List(first, s) && forall i {:trigger s[i].cid} :: 0 <= i < |s| ==> s[i].cid != cid
    modifies s`next
    ensures k <= |s| && fresh(p) && p.cid == cid && p.content == content
    ensures List(r, s[..k] + [p] + s[k..])
  {
    var node := new ChunkNode(cid, content);
    p, k, r := node, 0, node;
    if first == null {
    } else if cid < first.cid {
      node.next := first;
    } else {
      k := InsertAfter(first, node, s);
      r := first;
    }
    Inserted(r, s, p, k);
  }

  method InsertAfter(first: ChunkNode, node: ChunkNode, ghost s: seq<ChunkNode>) returns (ghost k: nat)
    requires List(first, s) && node !in s && first.cid < node.cid && forall i {:trigger s[i].cid} :: 0 <= i < |s| ==> s[i].cid != node.cid
    modifies s`next, node`next
    ensures 0 < k <= |s| && node.next == if k < |s| then s[k] else null
    ensures forall i {:trigger s[i].next} :: 0 <= i < |s| ==> s[i].next == if i + 1 == k then node else Succ(s, i)
    ensures forall i {:trigger s[i].cid} :: 0 <= i < |s| ==> if i < k then s[i].cid < node.cid else node.cid < s[i].cid
  {
    var q, i := first, 0;
    while q.next != null && node.cid > q.next.cid
      invariant 0 <= i < |s| && q == s[i] && s[i].cid < node.cid
      decreases |s| - i
    {
      i := i + 1;
      q := q.next;
    }
    node.next := q.next;
    q.next := node;
    k := i + 1;
  }

  // ---------- Reassemble ----------

  /** Each chunk comes once, with its number. */
  ghost predicate Permuted(parts: seq<Part>, chunks: seq<Chunk>) {
    && (forall j :: 0 <= j < |parts| ==> parts[j].typ != TYPE_HEAD && parts[j].number < |chunks| && parts[j].content == chunks[parts[j].number])
    && (forall i, j :: 0 <= i < j < |parts| ==> parts[i].number != parts[j].number)
    && (forall n :: 0 <= n < |chunks| ==> Comes(parts, |parts|, n))
  }

  /** Chunk n is among the first m parts. */
  ghost predicate Comes(parts: seq<Part>, m: nat, n: nat)
    requires m <= |parts|
  {
    exists j :: 0 <= j < m && parts[j].number == n
  }

  ghost predicate InList(s: seq<ChunkNode>, n: nat) {
    exists i :: 0 <= i < |s| && s[i].cid == n
  }

  /** The chunks before count are written; of the first m parts the others are in the list. */
  ghost predicate Early(first: ChunkNode?, s: seq<ChunkNode>, parts: seq<Part>, m: nat, count: nat, chunks: seq<Chunk>)
    requires m <= |parts|
    reads s
  {
    && List(first, s) && count <= |chunks|
    && (forall i {:trigger s[i].cid} :: 0 <= i < |s| ==>
          count <= s[i].cid < |chunks| && s[i].content == chunks[s[i].cid] && Comes(parts, m, s[i].cid))
    && (forall j :: 0 <= j < m ==> parts[j].number < count || InList(s, parts[j].number))
    && (forall n :: 0 <= n < count ==> Comes(parts, m, n))
  }

  lemma Tail(first: ChunkNode?, s: seq<ChunkNode>)
    requires s != [] && List(first, s)
    ensures List(s[0].next, s[1..]) && forall i {:trigger s[1..][i].cid} :: 0 <= i < |s| - 1 ==> s[0].cid < s[1..][i].cid
  {
    var t := s[1..];
    assert s[0].next == Succ(s, 0);
    forall i {:trigger t[i].next} | 0 <= i < |t| ensures t[i].next == Succ(t, i) { assert s[i + 1].next == Succ(s, i + 1); }
    forall i, j {:trigger t[i].cid, t[j].cid} | 0 <= i < j < |t| ensures t[i].cid < t[j].cid { assert s[i + 1].cid < s[j + 1].cid; }
    forall i {:trigger t[i].cid} | 0 <= i < |t| ensures s[0].cid < t[i].cid { assert s[0].cid < s[i + 1].cid; }
  }

  /** The head of the list is next: it is written. */
  lemma Dropped(first: ChunkNode?, s: seq<ChunkNode>, parts: seq<Part>, m: nat, count: nat, chunks: seq<Chunk>)
    requires m <= |parts| && s != [] && s[0].cid == count && Early(first, s, parts, m, count, chunks)
    ensures Early(s[0].next, s[1..], parts, m, count + 1, chunks) && s[0].content == chunks[count]
  {
    var t := s[1..];
    Tail(first, s);
    forall i {:trigger t[i].cid} | 0 <= i < |t|
      ensures count + 1 <= t[i].cid < |chunks| && t[i].content == chunks[t[i].cid] && Comes(parts, m, t[i].cid)
    {
      assert s[0].cid < t[i].cid && t[i] == s[i + 1];
    }
    forall j | 0 <= j < m ensures parts[j].number < count + 1 || InList(t, parts[j].number) {
      if parts[j].number > count { InTail(s, parts[j].number); }
    }
  }

  lemma InTail(s: seq<ChunkNode>, n: nat)
    requires s != [] && InList(s, n) && s[0].cid != n
    ensures InList(s[1..], n)
  {
    var i :| 0 <= i < |s| && s[i].cid == n;
    assert s[1..][i - 1].cid == n;
  }

  /** Whatever in the list is next, and what is next then, is written. */
  method Flush(first0: ChunkNode?, count0: nat, file0: seq<Byte>, ghost s0: seq<ChunkNode>, ghost parts: seq<Part>, ghost m: nat, ghost chunks: seq<Chunk>)
    returns (first: ChunkNode?, count: nat, file: seq<Byte>, ghost s: seq<ChunkNode>)
    requires m <= |parts| && Early(first0, s0, parts, m, count0, chunks) && file0 == Concat(chunks[..count0])
    ensures Early(first, s, parts, m, count, chunks) && file == Concat(chunks[..count])
    ensures forall i :: 0 <= i < |s| ==> s[i] in s0
    ensures !InList(s, count)
  {
    first, count, file, s := first0, count0, file0, s0;
    while first != null && first.cid == count
      invariant Early(first, s, parts, m, count, chunks) && file == Concat(chunks[..count])
      invariant forall i :: 0 <= i < |s| ==> s[i] in s0
      decreases |s|
    {
      Dropped(first, s, parts, m, count, chunks);
      ConcatNext(chunks, count);
      file := file + first.content;
      count := count + 1;
      first := first.next;
      s := s[1..];
    }
    if s != [] {
      forall i | 0 <= i < |s| ensures s[i].cid != count {
        if i > 0 { assert s[0].cid < s[i].cid; }
      }
    }
  }

  lemma ConcatNext(chunks: seq<Chunk>, n: nat)
    requires n < |chunks|
    ensures Concat(chunks[..n + 1]) == Concat(chunks[..n]) + chunks[n]
  {
    assert chunks[..n + 1][..n] == chunks[..n];
  }

  /** A part that comes has neither been written nor put into the list. */
  lemma NewPart(first: ChunkNode?, s: seq<ChunkNode>, parts: seq<Part>, m: nat, count: nat, chunks: seq<Chunk>)
    requires Permuted(parts, chunks) && m < |parts| && Early(first, s, parts, m, count, chunks)
    ensures parts[m].number >= count && forall i {:trigger s[i].cid} :: 0 <= i < |s| ==> s[i].cid != parts[m].number
  {
    assert !Comes(parts, m, parts[m].number);
  }

  lemma ComesNext(parts: seq<Part>, m: nat, n: nat)
    requires m < |parts| && (Comes(parts, m, n) || parts[m].number == n)
    ensures Comes(parts, m + 1, n)
  {
    if parts[m].number == n { assert 0 <= m < m + 1 && parts[m].number == n; }
  }

  lemma WrittenNext(first: ChunkNode?, s: seq<ChunkNode>, parts: seq<Part>, m: nat, count: nat, chunks: seq<Chunk>)
    requires Permuted(parts, chunks) && m < |parts| && Early(first, s, parts, m, count, chunks) && !InList(s, count)
    requires parts[m].number == count
    ensures Early(first, s, parts, m + 1, count + 1, chunks)
  {
    forall i {:trigger s[i].cid} | 0 <= i < |s| ensures count + 1 <= s[i].cid && Comes(parts, m + 1, s[i].cid) {
      ComesNext(parts, m, s[i].cid);
    }
    var q := m + 1;
    forall n | 0 <= n < count + 1 ensures Comes(parts, q, n) { ComesNext(parts, m, n); }
  }

  lemma StillListed(s: seq<ChunkNode>, p: ChunkNode, k: nat, n: nat)
    requires k <= |s| && InList(s, n)
    ensures InList(s[..k] + [p] + s[k..], n)
  {
    var t := s[..k] + [p] + s[k..];
    var i :| 0 <= i < |s| && s[i].cid == n;
    assert t[if i < k then i else i + 1].cid == n;
  }

  lemma ListedNext(s: seq<ChunkNode>, p: ChunkNode, k: nat, r: ChunkNode, parts: seq<Part>, m: nat, count: nat, chunks: seq<Chunk>)
    requires Permuted(parts, chunks) && m < |parts| && k <= |s| && List(r, s[..k] + [p] + s[k..]) && count <= |chunks|
    requires forall i {:trigger s[i].cid} :: 0 <= i < |s| ==>
               count <= s[i].cid < |chunks| && s[i].content == chunks[s[i].cid] && Comes(parts, m, s[i].cid)
    requires forall j :: 0 <= j < m ==> parts[j].number < count || InList(s, parts[j].number)
    requires forall n :: 0 <= n < count ==> Comes(parts, m, n)
    requires p.cid == parts[m].number > count && p.content == parts[m].content && !InList(s, count)
    ensures Early(r, s[..k] + [p] + s[k..], parts, m + 1, count, chunks) && !InList(s[..k] + [p] + s[k..], count)
  {
    var t := s[..k] + [p] + s[k..];
    forall i {:trigger t[i].cid} | 0 <= i < |t|
      ensures count < t[i].cid < |chunks| && t[i].content == chunks[t[i].cid] && Comes(parts, m + 1, t[i].cid)
    {
      assert t[i] == if i < k then s[i] else if i == k then p else s[i - 1];
      ComesNext(parts, m, t[i].cid);
    }
    forall j | 0 <= j < m + 1 ensures parts[j].number < count || InList(t, parts[j].number) {
      if j == m { assert t[k].cid == parts[j].number; } else if parts[j].number >= count { StillListed(s, p, k, parts[j].number); }
    }
    var q := m + 1;
    forall n | 0 <= n < count ensures Comes(parts, q, n) { ComesNext(parts, m, n); }
  }

  ghost predicate Within(s: seq<ChunkNode>, nodes: set<ChunkNode>) {
    forall i :: 0 <= i < |s| ==> s[i] in nodes
  }

  /** Where things stand after m parts: nothing that waits is next. */
  ghost predicate Standing(first: ChunkNode?, s: seq<ChunkNode>, nodes: set<ChunkNode>, parts: seq<Part>, m: nat, count: nat,
                           chunks: seq<Chunk>, file: seq<Byte>)
    reads s
  {
    && m <= |parts| && Early(first, s, parts, m, count, chunks) && !InList(s, count) && Within(s, nodes)
    && file == Concat(chunks[..count])
  }

  /** A chunk that is next is written, with what has been waiting for it; any other goes to the list. */
  method Accept(item: Part, first0: ChunkNode?, count0: nat, file0: seq<Byte>, ghost s0: seq<ChunkNode>, ghost nodes: set<ChunkNode>,
                ghost parts: seq<Part>, ghost m: nat, ghost chunks: seq<Chunk>)
    returns (first: ChunkNode?, count: nat, file: seq<Byte>, ghost s: seq<ChunkNode>, ghost more: set<ChunkNode>)
    requires Permuted(parts, chunks) && m < |parts| && item == parts[m]
    requires Standing(first0, s0, nodes, parts, m, count0, chunks, file0)
    modifies nodes`next
    ensures Standing(first, s, nodes + more, parts, m + 1, count, chunks, file) && fresh(more)
  {
    NewPart(first0, s0, parts, m, count0, chunks);
    if item.number == count0 {
      WrittenNext(first0, s0, parts, m, count0, chunks);
      ConcatNext(chunks, count0);
      first, count, file, s := Flush(first0, count0 + 1, file0 + item.content, s0, parts, m + 1, chunks);
      more := {};
      assert forall i :: 0 <= i < |s0| ==> s0[i] in nodes;
    } else {
      count, file := count0, file0;
      first, s, more := Enlist(item, first0, count, file, s0, nodes, parts, m, chunks);
    }
  }

  /** The first m parts have been taken from the buffer, and stand as they should. */
  ghost predicate Reading(ready: CircularBuffer, first: ChunkNode?, s: seq<ChunkNode>, nodes: set<ChunkNode>, parts: seq<Part>, m: nat,
                          count: nat, chunks: seq<Chunk>, file: seq<Byte>)
    reads ready, ready.buf, s
  {
    m <= |parts| && ready.Valid() && ready.contents == parts[m..] && Standing(first, s, nodes, parts, m, count, chunks, file)
  }

  method AcceptNext(ready: CircularBuffer, first0: ChunkNode?, count0: nat, file0: seq<Byte>, ghost s0: seq<ChunkNode>,
                    ghost nodes: set<ChunkNode>, ghost parts: seq<Part>, ghost m: nat, ghost chunks: seq<Chunk>)
    returns (first: ChunkNode?, count: nat, file: seq<Byte>, ghost s: seq<ChunkNode>, ghost more: set<ChunkNode>)
    requires Permuted(parts, chunks) && m < |parts| && Reading(ready, first0, s0, nodes, parts, m, count0, chunks, file0)
    modifies nodes`next, ready
    ensures Reading(ready, first, s, nodes + more, parts, m + 1, count, chunks, file) && fresh(more)
  {
    var item := ready.Take();
    first, count, file, s, more := Accept(item, first0, count0, file0, s0, nodes, parts, m, chunks);
  }

  method Enlist(item: Part, first0: ChunkNode?, ghost count: nat, ghost file: seq<Byte>, ghost s0: seq<ChunkNode>, ghost nodes: set<ChunkNode>,
                ghost parts: seq<Part>, ghost m: nat, ghost chunks: seq<Chunk>)
    returns (first: ChunkNode?, ghost s: seq<ChunkNode>, ghost more: set<ChunkNode>)
    requires Permuted(parts, chunks) && m < |parts| && item == parts[m] && item.number > count
    requires Standing(first0, s0, nodes, parts, m, count, chunks, file)
    modifies nodes`next
    ensures Standing(first, s, nodes + more, parts, m + 1, count, chunks, file) && fresh(more)
  {
    NewPart(first0, s0, parts, m, count, chunks);
    ghost var p, k;
    first, p, k := ListInsert(first0, item.number, item.content, s0);
    s, more := s0[..k] + [p] + s0[k..], {p};
    ListedNext(s0, p, k, first, parts, m, count, chunks);
    forall i | 0 <= i < |s| ensures s[i] in nodes + more { Pieces(s0, p, k, i); }
  }

  lemma Pieces(s: seq<ChunkNode>, p: ChunkNode, k: nat, i: nat)
    requires k <= |s| && i < |s| + 1
    ensures var t := s[..k] + [p] + s[k..]; t[i] in s || t[i] == p
  {
    assert i < k ==> s[i] in s;
    assert i > k ==> s[i - 1] in s;
  }

  /** Nothing is in the list once everything has come. */
  lemma Complete(first: ChunkNode?, s: seq<ChunkNode>, parts: seq<Part>, count: nat, chunks: seq<Chunk>)
    requires Permuted(parts, chunks) && Early(first, s, parts, |parts|, count, chunks) && !InList(s, count)
    ensures first == null && count == |chunks|
  {
    forall j | 0 <= j < |parts| ensures parts[j].number != count {
      assert parts[j].number < count || InList(s, parts[j].number);
    }
    assert !Comes(parts, |parts|, count);
    assert count == |chunks|;
  }

  lemma Begins(parts: seq<Part>, chunks: seq<Chunk>)
    requires Permuted(parts, chunks)
    ensures Standing(null, [], {}, parts, 0, 0, chunks, [])
  {
    assert chunks[..0] == [];
  }

  lemma Ends(first: ChunkNode?, s: seq<ChunkNode>, nodes: set<ChunkNode>, parts: seq<Part>, count: nat, chunks: seq<Chunk>, file: seq<Byte>)
    requires Permuted(parts, chunks) && Standing(first, s, nodes, parts, |parts|, count, chunks, file)
    ensures file == Concat(chunks)
  {
    Complete(first, s, parts, count, chunks);
    assert chunks[..count] == chunks;
  }

  /** The header first, which opens the file, and then the chunks in any order: their contents in the right order. */
  method Reassemble(ready: CircularBuffer, ghost chunks: seq<Chunk>) returns (file: seq<Byte>)
    requires ready.Valid() && ready.contents != [] && ready.contents[0].typ == TYPE_HEAD
    requires Permuted(ready.contents[1..], chunks)
    modifies ready
    ensures file == Concat(chunks)
  {
    ghost var parts := ready.contents[1..];
    var head := ready.Take();
    file := ReassembleChunks(ready, parts, chunks);
  }

  method ReassembleChunks(ready: CircularBuffer, ghost parts: seq<Part>, ghost chunks: seq<Chunk>) returns (file: seq<Byte>)
    requires ready.Valid() && ready.contents == parts && Permuted(parts, chunks)
    modifies ready
    ensures file == Concat(chunks)
  {
    file := [];
    var count: nat := 0;
    var first: ChunkNode? := null;
    ghost var m: nat, s: seq<ChunkNode>, nodes: set<ChunkNode> := 0, [], {};
    Begins(parts, chunks);
    var empty := ready.IsEmpty();
    while !empty
      invariant Reading(ready, first, s, nodes, parts, m, count, chunks, file) && fresh(nodes)
      invariant empty <==> m == |parts|
      decreases |parts| - m
    {
      ghost var more;
      first, count, file, s, more := AcceptNext(ready, first, count, file, s, nodes, parts, m, chunks);
      nodes := nodes + more;
      m := m + 1;
      empty := ready.IsEmpty();
    }
    Ends(first, s, nodes, parts, count, chunks, file);
  }

  // ---------- Decode ----------

  lemma {:induction false} InOfType(parts: seq<Part>, typ: Byte, i: nat)
    requires i < |parts| && parts[i].typ == typ
    ensures parts[i] in OfType(parts, typ)
    decreases |parts|
  {
    var n := |parts| - 1;
    if i < n { InOfType(parts[..n], typ, i); }
  }

  lemma {:induction false} OfTypeIn(parts: seq<Part>, typ: Byte, p: Part)
    requires p in OfType(parts, typ)
    ensures p in parts && p.typ == typ
    decreases |parts|
  {
    var n := |parts| - 1;
    if p in OfType(parts[..n], typ) { OfTypeIn(parts[..n], typ, p); }
  }

  /** Numbers go up. */
  ghost predicate Rising(parts: seq<Part>) {
    forall i, j :: 0 <= i < j < |parts| ==> parts[i].number < parts[j].number
  }

  lemma {:induction false} OfTypeRises(parts: seq<Part>, typ: Byte)
    requires Rising(parts)
    ensures Rising(OfType(parts, typ))
    decreases |parts|
  {
    if parts != [] {
      var n := |parts| - 1;
      OfTypeRises(parts[..n], typ);
      var r := OfType(parts[..n], typ);
      forall i | 0 <= i < |r| ensures r[i].number < parts[n].number {
        OfTypeIn(parts[..n], typ, r[i]);
      }
    }
  }

  /** A digest in the file is that of an earlier chunk whose data is in the file. */
  lemma {:induction false} FirstOf(k: Codec, chunks: seq<Chunk>, i: nat) returns (j: nat)
    requires i < |chunks|
    ensures j <= i && Fresh(k, chunks, j) && k.sha(chunks[j]) == k.sha(chunks[i])
    decreases i
  {
    if Fresh(k, chunks, i) {
      j := i;
    } else {
      var m :| 0 <= m < i && k.sha(chunks[m]) == k.sha(chunks[i]);
      j := FirstOf(k, chunks, m);
    }
  }

  /** Data parts: the compressed chunks with their numbers. */
  ghost predicate DataOf(k: Codec, parts: seq<Part>, chunks: seq<Chunk>) {
    forall j :: 0 <= j < |parts| ==> parts[j].number < |chunks| && parts[j].content == k.zip(chunks[parts[j].number])
  }

  lemma {:induction false} CacheHas(k: Codec, parts: seq<Part>, chunks: seq<Chunk>, j: nat)
    requires Good(k, chunks) && DataOf(k, parts, chunks) && j < |parts|
    ensures var c := chunks[parts[j].number]; k.sha(c) in CacheOf(k, parts) && CacheOf(k, parts)[k.sha(c)] == c
    decreases |parts|
  {
    var n := |parts| - 1;
    var a, b := parts[j].number, parts[n].number;
    assert parts[n].content == k.zip(chunks[b]);
    if k.sha(chunks[a]) == k.sha(chunks[b]) {
      SameDigest(k, chunks, a, b);
    } else {
      assert j < n;
      CacheHas(k, parts[..n], chunks, j);
    }
  }

  lemma SameDigest(k: Codec, chunks: seq<Chunk>, a: nat, b: nat)
    requires Good(k, chunks) && a < |chunks| && b < |chunks| && k.sha(chunks[a]) == k.sha(chunks[b])
    ensures chunks[a] == chunks[b]
  {
    if a < b { assert chunks[a] == chunks[b]; } else if b < a { assert chunks[b] == chunks[a]; }
  }

  /** The two kinds of parts of a file. */
  ghost function Datas(k: Codec, chunks: seq<Chunk>): seq<Part> {
    OfType(PartsOf(k, chunks), TYPE_COMPRESS)
  }

  ghost function Digests(k: Codec, chunks: seq<Chunk>): seq<Part> {
    OfType(PartsOf(k, chunks), TYPE_FINGERPRINT)
  }

  lemma DatasAre(k: Codec, chunks: seq<Chunk>)
    ensures DataOf(k, Datas(k, chunks), chunks)
    ensures forall j :: 0 <= j < |Datas(k, chunks)| ==> var i := Datas(k, chunks)[j].number; Fresh(k, chunks, i)
    ensures Rising(Datas(k, chunks)) && Rising(Digests(k, chunks))
  {
    var parts, r := PartsOf(k, chunks), Datas(k, chunks);
    forall j | 0 <= j < |r|
      ensures r[j].number < |chunks| && r[j].content == k.zip(chunks[r[j].number]) && Fresh(k, chunks, r[j].number)
    {
      OfTypeIn(parts, TYPE_COMPRESS, r[j]);
    }
    OfTypeRises(parts, TYPE_COMPRESS);
    OfTypeRises(parts, TYPE_FINGERPRINT);
  }

  /** Every digest is found, and stands for its chunk. */
  lemma DigestFound(k: Codec, chunks: seq<Chunk>, j: nat)
    requires Good(k, chunks) && j < |Digests(k, chunks)|
    ensures var p, cache := Digests(k, chunks)[j], CacheOf(k, Datas(k, chunks));
            && p.number < |chunks| && !Fresh(k, chunks, p.number) && p.content == k.sha(chunks[p.number])
            && p.content in cache && cache[p.content] == chunks[p.number]
  {
    var parts, p, data := PartsOf(k, chunks), Digests(k, chunks)[j], Datas(k, chunks);
    OfTypeIn(parts, TYPE_FINGERPRINT, p);
    var i := FirstOf(k, chunks, p.number);
    InOfType(parts, TYPE_COMPRESS, i);
    var m :| 0 <= m < |data| && data[m] == parts[i];
    DatasAre(k, chunks);
    CacheHas(k, data, chunks, m);
    SameDigest(k, chunks, i, p.number);
  }

  lemma AllDigestsFound(k: Codec, chunks: seq<Chunk>)
    requires Good(k, chunks)
    ensures forall j :: 0 <= j < |Digests(k, chunks)| ==> Digests(k, chunks)[j].content in CacheOf(k, Datas(k, chunks))
  {
    forall j | 0 <= j < |Digests(k, chunks)| ensures Digests(k, chunks)[j].content in CacheOf(k, Datas(k, chunks)) {
      DigestFound(k, chunks, j);
    }
  }

  /** What reaches the last stage after the header. */
  ghost function Gathered(k: Codec, chunks: seq<Chunk>): seq<Part>
    requires Good(k, chunks)
  {
    AllDigestsFound(k, chunks);
    Unzipped(k, Datas(k, chunks)) + Looked(CacheOf(k, Datas(k, chunks)), Digests(k, chunks))
  }

  lemma GatheredPart(k: Codec, chunks: seq<Chunk>, j: nat)
    requires Good(k, chunks) && j < |Gathered(k, chunks)|
    ensures var p, n := Gathered(k, chunks)[j], |Datas(k, chunks)|;
            && p.typ != TYPE_HEAD && p.number < |chunks| && p.content == chunks[p.number]
            && (j < n <==> Fresh(k, chunks, p.number))
            && p.number == if j < n then Datas(k, chunks)[j].number else Digests(k, chunks)[j - n].number
  {
    var data, digests := Datas(k, chunks), Digests(k, chunks);
    if j < |data| {
      DataPart(k, chunks, j);
    } else {
      DigestFound(k, chunks, j - |data|);
      OfTypeIn(PartsOf(k, chunks), TYPE_FINGERPRINT, digests[j - |data|]);
    }
  }

  lemma DataPart(k: Codec, chunks: seq<Chunk>, j: nat)
    requires Good(k, chunks) && j < |Datas(k, chunks)|
    ensures var p := Datas(k, chunks)[j];
            p.number < |chunks| && p.typ == TYPE_COMPRESS && Fresh(k, chunks, p.number) && k.unzip(p.content) == chunks[p.number]
  {
    DatasAre(k, chunks);
    OfTypeIn(PartsOf(k, chunks), TYPE_COMPRESS, Datas(k, chunks)[j]);
  }

  lemma GatheredIsPermuted(k: Codec, chunks: seq<Chunk>)
    requires Good(k, chunks)
    ensures Permuted(Gathered(k, chunks), chunks)
  {
    var r, data, digests := Gathered(k, chunks), Datas(k, chunks), Digests(k, chunks);
    DatasAre(k, chunks);
    forall j | 0 <= j < |r| ensures r[j].typ != TYPE_HEAD && r[j].number < |chunks| && r[j].content == chunks[r[j].number] {
      GatheredPart(k, chunks, j);
    }
    forall i, j | 0 <= i < j < |r| ensures r[i].number != r[j].number {
      GatheredPart(k, chunks, i);
      GatheredPart(k, chunks, j);
    }
    forall n | 0 <= n < |chunks| ensures Comes(r, |r|, n) {
      GatheredComes(k, chunks, n);
    }
  }

  lemma GatheredComes(k: Codec, chunks: seq<Chunk>, n: nat)
    requires Good(k, chunks) && n < |chunks|
    ensures Comes(Gathered(k, chunks), |Gathered(k, chunks)|, n)
  {
    var parts, r, data, digests := PartsOf(k, chunks), Gathered(k, chunks), Datas(k, chunks), Digests(k, chunks);
    if Fresh(k, chunks, n) {
      InOfType(parts, TYPE_COMPRESS, n);
      var j :| 0 <= j < |data| && data[j] == parts[n];
      assert r[j].number == n;
    } else {
      InOfType(parts, TYPE_FINGERPRINT, n);
      var j :| 0 <= j < |digests| && digests[j] == parts[n];
      assert r[|data| + j].number == n;
    }
  }

  lemma {:induction false} HeadFirst(h: Part, parts: seq<Part>, typ: Byte)
    ensures OfType([h] + parts, typ) == (if h.typ == typ then [h] else []) + OfType(parts, typ)
    decreases |parts|
  {
    if parts == [] {
      OfTypeNext([], h, typ);
      assert [h] + parts == [] + [h];
    } else {
      var n := |parts| - 1;
      HeadFirst(h, parts[..n], typ);
      OfTypeNext([h] + parts[..n], parts[n], typ);
      assert [h] + parts == ([h] + parts[..n]) + [parts[n]];
    }
  }

  lemma {:induction false} NoHeads(k: Codec, chunks: seq<Chunk>)
    ensures OfType(PartsOf(k, chunks), TYPE_HEAD) == []
  {
    var r := OfType(PartsOf(k, chunks), TYPE_HEAD);
    if r != [] {
      OfTypeIn(PartsOf(k, chunks), TYPE_HEAD, r[0]);
      assert false;
    }
  }

  lemma FileParts(k: Codec, head: seq<Byte>, chunks: seq<Chunk>)
    requires Good(k, chunks) && |head| == HEAD_LEN
    ensures var r := Parse(FileOf(k, head, chunks));
            && r.ok && |r.parts| == |chunks| + 1 && OfType(r.parts, TYPE_HEAD) == [Part(TYPE_HEAD, 0, head)]
            && OfType(r.parts, TYPE_COMPRESS) == Datas(k, chunks) && OfType(r.parts, TYPE_FINGERPRINT) == Digests(k, chunks)
  {
    var h, parts := Part(TYPE_HEAD, 0, head), PartsOf(k, chunks);
    ParseFile(k, head, chunks);
    HeadFirst(h, parts, TYPE_COMPRESS);
    HeadFirst(h, parts, TYPE_FINGERPRINT);
    HeadFirst(h, parts, TYPE_HEAD);
    NoHeads(k, chunks);
  }

  lemma {:induction false} KindsFit(parts: seq<Part>)
    ensures |OfType(parts, TYPE_COMPRESS)| + |OfType(parts, TYPE_FINGERPRINT)| <= |parts|
    decreases |parts|
  {
    if parts != [] { KindsFit(parts[..|parts| - 1]); }
  }

  /** The stages after the first. */
  method Finish(k: Codec, data: CircularBuffer, digests: CircularBuffer, ready: CircularBuffer, ghost h: Part, ghost chunks: seq<Chunk>)
    returns (output: seq<Byte>)
    requires Good(k, chunks) && data.Valid() && digests.Valid() && ready.Valid() && |chunks| + 2 < NUM_BUF
    requires data.contents == Datas(k, chunks) && digests.contents == Digests(k, chunks) && ready.contents == [h] && h.typ == TYPE_HEAD
    requires data != digests && data != ready && digests != ready
    requires data.buf != digests.buf && data.buf != ready.buf && digests.buf != ready.buf
    modifies data, digests, ready, ready.buf
    ensures output == Concat(chunks)
  {
    KindsFit(PartsOf(k, chunks));
    var cache := Decompress(k, data, ready);
    AllDigestsFound(k, chunks);
    ghost var before := ready.contents;
    CheckCache(cache, digests, ready);
    assert ready.contents == before + Looked(cache, Digests(k, chunks));
    GatheredIsPermuted(k, chunks);
    AfterHead(h, Unzipped(k, Datas(k, chunks)), Looked(cache, Digests(k, chunks)));
    output := Reassemble(ready, chunks);
  }

  lemma AfterHead(h: Part, a: seq<Part>, b: seq<Part>)
    ensures ([h] + a + b)[1..] == a + b && ([h] + a + b)[0] == h
  {
  }

  /** Decode undoes Encode, for files of fewer chunks than the buffers hold. */
  method Decode(k: Codec, file: seq<Byte>, ghost head: seq<Byte>, ghost chunks: seq<Chunk>) returns (output: seq<Byte>)
    requires Good(k, chunks) && |head| == HEAD_LEN && file == FileOf(k, head, chunks) && |chunks| + 2 < NUM_BUF
    ensures output == Concat(chunks)
  {
    var data := new CircularBuffer();
    var digests := new CircularBuffer();
    var ready := new CircularBuffer();
    FileParts(k, head, chunks);
    var ok := RecvBlock(file, data, digests, ready);
    output := Finish(k, data, digests, ready, Part(TYPE_HEAD, 0, head), chunks);
  }
}
