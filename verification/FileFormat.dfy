/** The file that holds a list of chunks (encoder.c, decoder.c), and its reading back. */
module FileFormat {
  import opened Bytes
  import opened Writer

  const HEAD_LEN := 104

  type Chunk = seq<Byte>

  /** zlib and SHA-1. */
  datatype Codec = Codec(sha: Chunk -> Key, zip: Chunk -> seq<Byte>, unzip: seq<Byte> -> Chunk)

  /** What is asked of them: unzip undoes zip, which gives at least a byte, and no two of the chunks have the same digest. */
  ghost predicate Good(k: Codec, chunks: seq<Chunk>) {
    && |chunks| < Pow256(4)
    && (forall i :: 0 <= i < |chunks| ==> k.unzip(k.zip(chunks[i])) == chunks[i] && 0 < |k.zip(chunks[i])| < Pow256(8))
    && (forall i :: 0 <= i < |chunks| ==> |k.sha(chunks[i])| == SHA1_LEN)
    && (forall i, j :: 0 <= i < j < |chunks| && k.sha(chunks[i]) == k.sha(chunks[j]) ==> chunks[i] == chunks[j])
  }

  ghost function Concat(chunks: seq<seq<Byte>>): seq<Byte> {
    if chunks == [] then [] else Concat(chunks[..|chunks| - 1]) + chunks[|chunks| - 1]
  }

  ghost predicate Fresh(k: Codec, chunks: seq<Chunk>, i: nat)
    requires i < |chunks|
  {
    forall j :: 0 <= j < i ==> k.sha(chunks[j]) != k.sha(chunks[i])
  }

  /** Chunk i in the file: its data when it is the first with its digest, and else the digest. */
  ghost function RecordOf(k: Codec, chunks: seq<Chunk>, i: nat): seq<Byte>
    requires i < |chunks|
  {
    if Fresh(k, chunks, i) then Record(TYPE_COMPRESS, i, |k.zip(chunks[i])|, k.zip(chunks[i]))
    else Record(TYPE_FINGERPRINT, i, SHA1_LEN, k.sha(chunks[i]))
  }

  ghost function RecordsOf(k: Codec, chunks: seq<Chunk>, n: nat): seq<Byte>
    requires n <= |chunks|
  {
    if n == 0 then [] else RecordsOf(k, chunks, n - 1) + RecordOf(k, chunks, n - 1)
  }

  function Header(head: seq<Byte>): seq<Byte> {
    [TYPE_HEAD] + LE(CHECKBIT, 4) + head
  }

  ghost function FileOf(k: Codec, head: seq<Byte>, chunks: seq<Chunk>): seq<Byte> {
    Header(head) + RecordsOf(k, chunks, |chunks|) + [TYPE_FINISH]
  }

  // ---------- the writer makes that file ----------

  /** The cache once all chunks have been compressed: every digest with the data of a chunk that has it. */
  ghost predicate Filled(k: Codec, chunks: seq<Chunk>, cache: map<Key, PContent>) {
    forall i :: 0 <= i < |chunks| ==>
      var d := k.sha(chunks[i]); d in cache && cache[d] == Data(k, chunks[i])
  }

  ghost function BlocksOf(k: Codec, chunks: seq<Chunk>): (r: seq<Block>)
    ensures |r| == |chunks|
    ensures forall i :: 0 <= i < |r| ==> r[i] == Block(SHA1_LEN, k.sha(chunks[i]))
  {
    seq(|chunks|, i requires 0 <= i < |chunks| => Block(SHA1_LEN, k.sha(chunks[i])))
  }

  ghost predicate Seen(k: Codec, chunks: seq<Chunk>, n: nat, d: Key)
    requires n <= |chunks|
  {
    exists j :: 0 <= j < n && k.sha(chunks[j]) == d
  }

  ghost function Data(k: Codec, c: Chunk): PContent {
    PContent(|k.zip(c)|, k.zip(c), DataReady)
  }

  ghost predicate Entry(k: Codec, chunks: seq<Chunk>, n: nat, cache: map<Key, PContent>, m: nat)
    requires n <= |chunks| && m < |chunks|
  {
    var d := k.sha(chunks[m]);
    && d in cache && (cache[d].tag == Written <==> Seen(k, chunks, n, d))
    && (cache[d].tag != Written ==> cache[d] == Data(k, chunks[m]))
  }

  /** After n blocks the cache has as written what has been written. */
  ghost predicate CacheAfter(k: Codec, chunks: seq<Chunk>, n: nat, cache: map<Key, PContent>)
    requires n <= |chunks|
  {
    forall m: nat :: m < |chunks| ==> Entry(k, chunks, n, cache, m)
  }

  lemma SeenNext(k: Codec, chunks: seq<Chunk>, n: nat, d: Key)
    requires n < |chunks|
    ensures Seen(k, chunks, n + 1, d) <==> Seen(k, chunks, n, d) || d == k.sha(chunks[n])
    ensures Fresh(k, chunks, n) <==> !Seen(k, chunks, n, k.sha(chunks[n]))
  {
    if d == k.sha(chunks[n]) { assert 0 <= n < n + 1 && k.sha(chunks[n]) == d; }
  }

  lemma WriteLast(o: Output, blocks: seq<Block>, b: Block)
    ensures WriteBlocks(o, blocks + [b]) == WriteBlock(WriteBlocks(o, blocks), b)
  {
    assert (blocks + [b])[..|blocks|] == blocks;
  }

  lemma PrefixLast<T>(s: seq<T>, n: nat)
    requires 0 < n <= |s|
    ensures s[..n] == s[..n - 1] + [s[n - 1]]
  {
  }

  lemma Assoc<T>(a: seq<T>, b: seq<T>, c: seq<T>)
    ensures (a + b) + c == a + (b + c)
  {
  }

  lemma {:induction false} WriterMakesFile(k: Codec, chunks: seq<Chunk>, o: Output, n: nat)
    requires Good(k, chunks) && Filled(k, chunks, o.cache) && o.seq_count == 0 && n <= |chunks|
    ensures Wrote(k, chunks, o, n, WriteBlocks(o, BlocksOf(k, chunks)[..n]))
    decreases n
  {
    if n == 0 {
      assert BlocksOf(k, chunks)[..0] == [];
      forall m: nat | m < |chunks| ensures Entry(k, chunks, 0, o.cache, m) {}
    } else {
      var i := n - 1;
      WriterMakesFile(k, chunks, o, i);
      WritesNext(k, chunks, o, i, n);
    }
  }

  /** The records of the first n chunks have been written. */
  ghost predicate Wrote(k: Codec, chunks: seq<Chunk>, o: Output, n: nat, r: Output)
    requires n <= |chunks|
  {
    r.file == o.file + RecordsOf(k, chunks, n) && r.seq_count == n && CacheAfter(k, chunks, n, r.cache)
  }

  lemma WritesNext(k: Codec, chunks: seq<Chunk>, o: Output, i: nat, n: nat)
    requires Good(k, chunks) && n == i + 1 <= |chunks| && Wrote(k, chunks, o, i, WriteBlocks(o, BlocksOf(k, chunks)[..i]))
    ensures Wrote(k, chunks, o, n, WriteBlocks(o, BlocksOf(k, chunks)[..n]))
  {
    var blocks := BlocksOf(k, chunks);
    var r := WriteBlocks(o, blocks[..i]);
    PrefixLast(blocks, n);
    WriteLast(o, blocks[..i], blocks[i]);
    NextRecord(k, chunks, r, i);
    Assoc(o.file, RecordsOf(k, chunks, i), RecordOf(k, chunks, i));
  }

  lemma NextRecord(k: Codec, chunks: seq<Chunk>, r: Output, i: nat)
    requires Good(k, chunks) && i < |chunks| && r.seq_count == i && CacheAfter(k, chunks, i, r.cache)
    ensures var q := WriteBlock(r, Block(SHA1_LEN, k.sha(chunks[i])));
            q.file == r.file + RecordOf(k, chunks, i) && q.seq_count == i + 1 && CacheAfter(k, chunks, i + 1, q.cache)
  {
    var d := k.sha(chunks[i]);
    var q := WriteBlock(r, Block(SHA1_LEN, d));
    var after, n := q.cache, i + 1;
    assert Entry(k, chunks, i, r.cache, i);
    SeenNext(k, chunks, i, d);
    forall m: nat | m < |chunks| ensures Entry(k, chunks, n, after, m) {
      assert Entry(k, chunks, i, r.cache, m);
      SeenNext(k, chunks, i, k.sha(chunks[m]));
    }
  }

  // ---------- reading it back ----------

  /** What RecvBlock makes of a file: chunks by number, as compressed data or as digests. */
  datatype Part = Part(typ: Byte, number: nat, content: seq<Byte>)

  datatype Parsed = Parsed(parts: seq<Part>, ok: bool)

  ghost function Prepend(p: Part, rest: Parsed): Parsed {
    rest.(parts := [p] + rest.parts)
  }

  /** The records from here on.  A data record is its type, a number of 4 bytes, a length of 8 bytes and the content;
      one without content is dropped.  Bytes that are no type are skipped.  Not ok: the file ends too soon, or
      its header is wrong; what came before has been handed on. */
  ghost function Parse(f: seq<Byte>): Parsed
    decreases |f|
  {
    if f == [] then Parsed([], false)
    else if f[0] == TYPE_FINISH then Parsed([], true)
    else if f[0] == TYPE_HEAD then
      if |f| < 5 + HEAD_LEN || FromLE(f[1..5]) != CHECKBIT then Parsed([], false)
      else Prepend(Part(TYPE_HEAD, 0, f[5..5 + HEAD_LEN]), Parse(f[5 + HEAD_LEN..]))
    else if f[0] == TYPE_FINGERPRINT || f[0] == TYPE_COMPRESS then
      if |f| < 13 then Parsed([], false) else
        var number, len := FromLE(f[1..5]), FromLE(f[5..13]);
        if |f| < 13 + len then Parsed([], false)
        else if len == 0 then Parse(f[13..])
        else Prepend(Part(f[0], number, f[13..13 + len]), Parse(f[13 + len..]))
    else Parse(f[1..])
  }

  lemma Slices(typ: Byte, a: seq<Byte>, b: seq<Byte>, content: seq<Byte>, rest: seq<Byte>)
    requires |a| == 4 && |b| == 8
    ensures var f := [typ] + a + b + content + rest;
            f[1..5] == a && f[5..13] == b && f[13..13 + |content|] == content && f[13 + |content|..] == rest
  {
  }

  lemma ParseRecord(typ: Byte, number: nat, content: seq<Byte>, rest: seq<Byte>)
    requires (typ == TYPE_FINGERPRINT || typ == TYPE_COMPRESS) && number < Pow256(4) && 0 < |content| < Pow256(8)
    ensures Parse(Record(typ, number, |content|, content) + rest) == Prepend(Part(typ, number, content), Parse(rest))
  {
    var a, b := LE(number, 4), LE(|content|, 8);
    assert content[..|content|] == content;
    RoundTrip(number, 4);
    RoundTrip(|content|, 8);
    Slices(typ, a, b, content, rest);
  }

  ghost function PartOf(k: Codec, chunks: seq<Chunk>, i: nat): Part
    requires i < |chunks|
  {
    if Fresh(k, chunks, i) then Part(TYPE_COMPRESS, i, k.zip(chunks[i])) else Part(TYPE_FINGERPRINT, i, k.sha(chunks[i]))
  }

  ghost function PartsOf(k: Codec, chunks: seq<Chunk>): (r: seq<Part>)
    ensures |r| == |chunks|
    ensures forall i :: 0 <= i < |r| ==> r[i] == PartOf(k, chunks, i)
  {
    seq(|chunks|, i requires 0 <= i < |chunks| => PartOf(k, chunks, i))
  }

  ghost function PrependAll(parts: seq<Part>, rest: Parsed): Parsed {
    rest.(parts := parts + rest.parts)
  }

  lemma ParseOne(k: Codec, chunks: seq<Chunk>, i: nat, rest: seq<Byte>)
    requires Good(k, chunks) && i < |chunks|
    ensures Parse(RecordOf(k, chunks, i) + rest) == Prepend(PartOf(k, chunks, i), Parse(rest))
  {
    assert Pow256(8) > SHA1_LEN by { assert Pow256(2) == 65536 && Pow256(3) > SHA1_LEN && Pow256(4) > SHA1_LEN && Pow256(6) > SHA1_LEN; }
    var p := PartOf(k, chunks, i);
    ParseRecord(p.typ, i, p.content, rest);
  }

  /** The first n records come before the rest. */
  ghost predicate ParsesMany(k: Codec, chunks: seq<Chunk>, n: nat, rest: seq<Byte>)
    requires n <= |chunks|
  {
    Parse(RecordsOf(k, chunks, n) + rest) == PrependAll(PartsOf(k, chunks)[..n], Parse(rest))
  }

  lemma {:induction false} ParseMany(k: Codec, chunks: seq<Chunk>, n: nat, rest: seq<Byte>)
    requires Good(k, chunks) && n <= |chunks|
    ensures ParsesMany(k, chunks, n, rest)
    decreases n
  {
    if n == 0 {
      ParseNone(k, chunks, rest);
    } else {
      var i := n - 1;
      ParseMany(k, chunks, i, RecordOf(k, chunks, i) + rest);
      ParseNext(k, chunks, i, n, rest);
    }
  }

  lemma ParseNext(k: Codec, chunks: seq<Chunk>, i: nat, n: nat, rest: seq<Byte>)
    requires Good(k, chunks) && n == i + 1 <= |chunks| && ParsesMany(k, chunks, i, RecordOf(k, chunks, i) + rest)
    ensures ParsesMany(k, chunks, n, rest)
  {
    var parts := PartsOf(k, chunks);
    Assoc(RecordsOf(k, chunks, i), RecordOf(k, chunks, i), rest);
    ParseOne(k, chunks, i, rest);
    PrefixLast(parts, n);
    PrependOne(parts[..i], PartOf(k, chunks, i), Parse(rest));
  }

  lemma ParseNone(k: Codec, chunks: seq<Chunk>, rest: seq<Byte>)
    ensures ParsesMany(k, chunks, 0, rest)
  {
    assert [] + rest == rest && PartsOf(k, chunks)[..0] == [];
    assert [] + Parse(rest).parts == Parse(rest).parts;
  }

  lemma PrependOne(parts: seq<Part>, p: Part, rest: Parsed)
    ensures PrependAll(parts, Prepend(p, rest)) == PrependAll(parts + [p], rest)
  {
    assert parts + ([p] + rest.parts) == (parts + [p]) + rest.parts;
  }

  lemma ParseHeader(head: seq<Byte>, rest: seq<Byte>)
    requires |head| == HEAD_LEN
    ensures Parse(Header(head) + rest) == Prepend(Part(TYPE_HEAD, 0, head), Parse(rest))
  {
    var a, f := LE(CHECKBIT, 4), Header(head) + rest;
    assert CHECKBIT < Pow256(4) by { assert Pow256(2) == 65536 && Pow256(3) == 0x100_0000; }
    RoundTrip(CHECKBIT, 4);
    assert f == [TYPE_HEAD] + (a + (head + rest));
    assert f[1..5] == a && f[5..5 + HEAD_LEN] == head && f[5 + HEAD_LEN..] == rest;
  }

  /** The record format: RecvBlock sees the header, and every chunk with its number. */
  lemma ParseFile(k: Codec, head: seq<Byte>, chunks: seq<Chunk>)
    requires Good(k, chunks) && |head| == HEAD_LEN
    ensures Parse(FileOf(k, head, chunks)) == Parsed([Part(TYPE_HEAD, 0, head)] + PartsOf(k, chunks), true)
  {
    var n, end := |chunks|, [TYPE_FINISH];
    Assoc(Header(head), RecordsOf(k, chunks, n), end);
    ParseHeader(head, RecordsOf(k, chunks, n) + end);
    ParseMany(k, chunks, n, end);
    assert PartsOf(k, chunks)[..n] == PartsOf(k, chunks);
    assert PartsOf(k, chunks) + [] == PartsOf(k, chunks);
  }

  /** Deduplication: each chunk has its own record, with its data only if no chunk before has the same digest, and with
      the digest alone otherwise. */
  lemma StoredOnce(k: Codec, head: seq<Byte>, chunks: seq<Chunk>)
    requires Good(k, chunks) && |head| == HEAD_LEN
    ensures var parts := Parse(FileOf(k, head, chunks)).parts;
            && |parts| == |chunks| + 1 && parts[0] == Part(TYPE_HEAD, 0, head)
            && (forall i :: 0 <= i < |chunks| ==>
                  parts[i + 1] == if exists j :: 0 <= j < i && k.sha(chunks[j]) == k.sha(chunks[i]) then Part(TYPE_FINGERPRINT, i, k.sha(chunks[i]))
                                  else Part(TYPE_COMPRESS, i, k.zip(chunks[i])))
  {
    ParseFile(k, head, chunks);
  }
}
