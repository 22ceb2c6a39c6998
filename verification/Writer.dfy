/** The records of a compressed file, and the writing of one block (encoder.c): the data the first time, and its
    fingerprint afterwards. */
module Writer {
  import opened Bytes

  const TYPE_FINGERPRINT: Byte := 0
  const TYPE_COMPRESS: Byte := 1
  const TYPE_HEAD: Byte := 3
  const TYPE_FINISH: Byte := 4
  const CHECKBIT := 123456
  const SHA1_LEN := 20

  type Key = seq<Byte>

  datatype Tag = Occupy | DataReady | Written

  /** A cache entry.  Once it is written its length gives way to the number of the block. */
  datatype PContent = PContent(len: nat, content: seq<Byte>, tag: Tag)

  datatype Block = Block(len: nat, key: Key)

  /** The file so far, the cache, and the number of blocks written. */
  datatype Output = Output(file: seq<Byte>, cache: map<Key, PContent>, seq_count: nat)

  function Record(typ: Byte, number: nat, len: nat, content: seq<Byte>): seq<Byte> {
    [typ] + LE(number, 4) + LE(len, 8) + (if len <= |content| then content[..len] else content)
  }

  /** The block is written, and the next one has the next number.  A block whose data is not ready, or not there,
      is skipped with a message. */
  function WriteBlock(o: Output, b: Block): Output {
    var n := o.seq_count;
    var next := o.(seq_count := n + 1);
    if b.key !in o.cache then next else
      var value := o.cache[b.key];
      match value.tag
      case Written => next.(file := o.file + Record(TYPE_FINGERPRINT, n, b.len, b.key))
      case DataReady => next.(file := o.file + Record(TYPE_COMPRESS, n, value.len, value.content),
                              cache := o.cache[b.key := value.(len := n, tag := Written)])
      case Occupy => next
  }

  function WriteBlocks(o: Output, blocks: seq<Block>): Output {
    if blocks == [] then o else WriteBlock(WriteBlocks(o, blocks[..|blocks| - 1]), blocks[|blocks| - 1])
  }

  lemma Joined(f: seq<Byte>, a: seq<Byte>, b: seq<Byte>, c: seq<Byte>, d: seq<Byte>)
    ensures f + a + b + c + d == f + (a + b + c + d)
  {
  }

  class OutputFile {
    var file: seq<Byte>
    var cache: map<Key, PContent>
    var seq_count: nat

    constructor (cache: map<Key, PContent>)
      ensures Value() == Output([], cache, 0)
    {
      file, this.cache, seq_count := [], cache, 0;
    }

    ghost function Value(): Output
      reads this
    {
      Output(file, cache, seq_count)
    }

    method WriteFile(typ: Byte, number: nat, len: nat, content: seq<Byte>)
      modifies this`file
      ensures file == old(file) + Record(typ, number, len, content)
    {
      var a, b, c, d := [typ], LE(number, 4), LE(len, 8), if len <= |content| then content[..len] else content;
      file := file + a;
      file := file + b;
      file := file + c;
      file := file + d;
      Joined(old(file), a, b, c, d);
    }

    method Write(b: Block)
      modifies this
      ensures Value() == WriteBlock(old(Value()), b)
    {
      if b.key in cache {
        var value := cache[b.key];
        if value.tag == Written {
          WriteFile(TYPE_FINGERPRINT, seq_count, b.len, b.key);
        } else if value.tag == DataReady {
          WriteFile(TYPE_COMPRESS, seq_count, value.len, value.content);
          cache := cache[b.key := value.(len := seq_count, tag := Written)];
        }
      }
      seq_count := seq_count + 1;
    }

    method Put(bytes: seq<Byte>)
      modifies this`file
      ensures file == old(file) + bytes
    {
      file := file + bytes;
    }
  }
}
