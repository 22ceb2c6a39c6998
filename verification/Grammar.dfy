/** Which files decoder.c accepts, byte by byte, whoever wrote them. */
module Grammar {
  import opened Bytes
  import opened Writer
  import opened FileFormat

  /** What a file consists of up to its end: a header, a numbered record, or a byte that means nothing. */
  datatype Item = Head(head: seq<Byte>) | Numbered(typ: Byte, number: nat, content: seq<Byte>) | Noise(b: Byte)

  ghost predicate Proper(x: Item) {
    match x
    case Head(head) => |head| == HEAD_LEN
    case Numbered(typ, number, content) =>
      (typ == TYPE_FINGERPRINT || typ == TYPE_COMPRESS) && number < Pow256(4) && |content| < Pow256(8)
    case Noise(b) => b != TYPE_FINGERPRINT && b != TYPE_COMPRESS && b != TYPE_HEAD && b != TYPE_FINISH
  }

  ghost predicate AllProper(items: seq<Item>) {
    forall x :: x in items ==> Proper(x)
  }

  ghost function BytesOf(x: Item): seq<Byte> {
    match x
    case Head(head) => Header(head)
    case Numbered(typ, number, content) => Record(typ, number, |content|, content)
    case Noise(b) => [b]
  }

  ghost function AllBytes(items: seq<Item>): seq<Byte> {
    if items == [] then [] else BytesOf(items[0]) + AllBytes(items[1..])
  }

  /** The part that is handed on, if it has any content. */
  ghost function PartsFrom(x: Item): seq<Part> {
    match x
    case Head(head) => [Part(TYPE_HEAD, 0, head)]
    case Numbered(typ, number, content) => if content == [] then [] else [Part(typ, number, content)]
    case Noise(_) => []
  }

  ghost function AllParts(items: seq<Item>): seq<Part> {
    if items == [] then [] else PartsFrom(items[0]) + AllParts(items[1..])
  }

  /** The items, then the byte that ends the file, and then anything. */
  ghost predicate IsFile(f: seq<Byte>, items: seq<Item>, rest: seq<Byte>) {
    AllProper(items) && f == AllBytes(items) + [TYPE_FINISH] + rest
  }

  lemma ParseEmpty(typ: Byte, number: nat, rest: seq<Byte>)
    requires (typ == TYPE_FINGERPRINT || typ == TYPE_COMPRESS) && number < Pow256(4)
    ensures Parse(Record(typ, number, 0, []) + rest) == Parse(rest)
  {
    RoundTrip(0, 8);
    assert Pow256(8) > 0;
    Slices(typ, LE(number, 4), LE(0, 8), [], rest);
  }

  lemma ParseItem(x: Item, rest: seq<Byte>)
    requires Proper(x)
    ensures Parse(BytesOf(x) + rest) == PrependAll(PartsFrom(x), Parse(rest))
  {
    assert [] + Parse(rest).parts == Parse(rest).parts;
    match x
    case Head(head) => ParseHeader(head, rest);
    case Numbered(typ, number, content) =>
      if content == [] { ParseEmpty(typ, number, rest); } else { ParseRecord(typ, number, content, rest); }
    case Noise(b) => assert ([b] + rest)[1..] == rest;
  }

  /** Every such file is accepted, and its parts are handed on in order. */
  lemma {:induction false} Accepts(items: seq<Item>, rest: seq<Byte>)
    requires AllProper(items)
    ensures Parse(AllBytes(items) + [TYPE_FINISH] + rest) == Parsed(AllParts(items), true)
  {
    var end := [TYPE_FINISH] + rest;
    assert AllBytes(items) + [TYPE_FINISH] + rest == AllBytes(items) + end;
    if items == [] {
      assert [] + end == end;
    } else {
      var more := items[1..];
      assert items[0] in items && forall x :: x in more ==> x in items;
      Accepts(more, rest);
      assert AllBytes(more) + [TYPE_FINISH] + rest == AllBytes(more) + end;
      Assoc(BytesOf(items[0]), AllBytes(more), end);
      ParseItem(items[0], AllBytes(more) + end);
    }
  }

  /** What stands at the beginning of an accepted file. */
  ghost predicate Begins(f: seq<Byte>, x: Item, rest: seq<Byte>) {
    Proper(x) && f == BytesOf(x) + rest && |rest| < |f| && Parse(rest).ok
  }

  lemma FirstHead(f: seq<Byte>) returns (x: Item, rest: seq<Byte>)
    requires Parse(f).ok && f[0] == TYPE_HEAD
    ensures Begins(f, x, rest)
  {
    TripRound(f[1..5]);
    x, rest := Head(f[5..5 + HEAD_LEN]), f[5 + HEAD_LEN..];
    assert LE(CHECKBIT, 4) == f[1..5];
    assert f == [TYPE_HEAD] + f[1..5] + f[5..5 + HEAD_LEN] + rest;
  }

  lemma FirstRecord(f: seq<Byte>) returns (x: Item, rest: seq<Byte>)
    requires Parse(f).ok && (f[0] == TYPE_FINGERPRINT || f[0] == TYPE_COMPRESS)
    ensures Begins(f, x, rest)
  {
    var number, len := FromLE(f[1..5]), FromLE(f[5..13]);
    TripRound(f[1..5]);
    TripRound(f[5..13]);
    var content := f[13..13 + len];
    x, rest := Numbered(f[0], number, content), f[13 + len..];
    assert content[..|content|] == content;
    assert f == [f[0]] + f[1..5] + f[5..13] + content + rest;
  }

  lemma FirstItem(f: seq<Byte>) returns (x: Item, rest: seq<Byte>)
    requires Parse(f).ok && f[0] != TYPE_FINISH
    ensures Begins(f, x, rest)
  {
    if f[0] == TYPE_HEAD {
      x, rest := FirstHead(f);
    } else if f[0] == TYPE_FINGERPRINT || f[0] == TYPE_COMPRESS {
      x, rest := FirstRecord(f);
    } else {
      x, rest := Noise(f[0]), f[1..];
    }
  }

  lemma {:induction false} Accepted(f: seq<Byte>) returns (items: seq<Item>, rest: seq<Byte>)
    requires Parse(f).ok
    ensures IsFile(f, items, rest)
    decreases |f|
  {
    if f[0] == TYPE_FINISH {
      items, rest := [], f[1..];
    } else {
      var x, more := FirstItem(f);
      var xs: seq<Item>;
      xs, rest := Accepted(more);
      items := [x] + xs;
      assert items[0] == x && items[1..] == xs;
      Assoc(BytesOf(x), AllBytes(xs), [TYPE_FINISH]);
      Assoc(BytesOf(x), AllBytes(xs) + [TYPE_FINISH], rest);
    }
  }

  /** A file is read to its end if and only if it is made of headers with the check word, complete records and
      meaningless bytes up to the byte that ends it; and then what is handed on is what they hold. */
  lemma AcceptedIff(f: seq<Byte>)
    ensures Parse(f).ok <==> exists items, rest :: IsFile(f, items, rest)
    ensures forall items, rest :: IsFile(f, items, rest) ==> Parse(f).parts == AllParts(items)
  {
    forall items, rest | IsFile(f, items, rest) ensures Parse(f) == Parsed(AllParts(items), true) { Accepts(items, rest); }
    if Parse(f).ok { var items, rest := Accepted(f); }
  }
}
