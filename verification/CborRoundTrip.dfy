/** Whole items through the encoder, and from the encoder's buffer back through the iterator. */
module CborRoundTrip {
  import opened Bytes
  import opened CborFormat
  import opened CborParser
  import opened CborTraversal
  import opened CborEncoder

  lemma {:induction false} EncodeAllAppend(xs: seq<Item>, x: Item)
    requires AllEncodable(xs) && Encodable(x)
    ensures AllEncodable(xs + [x]) && EncodeAll(xs + [x]) == EncodeAll(xs) + Encode(x)
  {
    if xs == [] {
      assert [] + [x] == [x];
      assert [x][1..] == [];
    } else {
      EncodeAllAppend(xs[1..], x);
      assert (xs + [x])[1..] == xs[1..] + [x];
    }
  }

  lemma {:induction false} PrefixEncodable(xs: seq<Item>, i: nat)
    requires AllEncodable(xs) && i <= |xs|
    ensures AllEncodable(xs[..i])
    ensures i < |xs| ==> Encodable(xs[i])
  {
    if xs != [] && i > 0 {
      PrefixEncodable(xs[1..], i - 1);
      assert xs[..i][1..] == xs[1..][..i - 1];
    }
  }

  /** Writes an item with the encoder's calls, running on past the end of the buffer: every
      byte is accounted for, written or not, and the item counts as one. */
  method WriteItem(enc: Encoder, x: Item) returns (err: CborError)
    requires enc.Valid() && Encodable(x)
    modifies enc, enc.buffer
    ensures enc.Appended(Encode(x), 1, err)
    decreases x, 1
  {
    hide EncodeAll, Head, LongHead;
    match x
    case ByteString(s) => err := enc.EncodeString(s, BYTE_STRING_TYPE);
    case TextString(s) => err := enc.EncodeString(s, TEXT_STRING_TYPE);
    case Array(xs) => err := WriteContainer(enc, ARRAY_TYPE, xs);
    case Map(xs) => err := WriteContainer(enc, MAP_TYPE, xs);
    case Tagged(t, y) => err := WriteTagged(enc, t, y);
    case _ => err := WriteScalar(enc, x);
  }

  method WriteScalar(enc: Encoder, x: Item) returns (err: CborError)
    requires enc.Valid() && Encodable(x)
    requires !x.ByteString? && !x.TextString? && !x.Array? && !x.Map? && !x.Tagged?
    modifies enc, enc.buffer
    ensures enc.Appended(Encode(x), 1, err)
  {
    hide BigEndian, EncodeAll;
    match x
    case UInt(v) => err := enc.EncodeUInt(v);
    case NInt(v) => err := enc.EncodeNegativeInt((v + 1) % 0x1_0000_0000_0000_0000);
    case Simple(n) => err := enc.EncodeSimpleValue(n);
    case Half(b) => PowersOf256(); err := enc.EncodeFloatingPoint(0xf9, b);
    case Single(b) => PowersOf256(); err := enc.EncodeFloatingPoint(0xfa, b);
    case Double(b) => PowersOf256(); err := enc.EncodeFloatingPoint(0xfb, b);
  }

  method WriteTagged(enc: Encoder, t: nat, y: Item) returns (err: CborError)
    requires enc.Valid() && Encodable(Tagged(t, y))
    modifies enc, enc.buffer
    ensures enc.Appended(Encode(Tagged(t, y)), 1, err)
    decreases y, 2
  {
    TaggedEncoding(t, y);
    hide Encode, Encodable, Head;
    ghost var before, head := enc.stream, Head(6, t);
    err := enc.EncodeTag(t);
    err := WriteItem(enc, y);
    assert before + (head + Encode(y)) == before + head + Encode(y);
  }

  lemma TaggedEncoding(t: nat, y: Item)
    requires Encodable(Tagged(t, y))
    ensures t <= UINT64_MAX && Encodable(y) && Encode(Tagged(t, y)) == Head(6, t) + Encode(y)
  {
  }

  lemma {:induction false} ContainerEncoding(major: nat, xs: seq<Item>)
    requires 4 <= major <= 5 && Encodable(Container(major, xs))
    ensures EntryCount(major, xs) <= if major == 5 then SIZE_MAX / 2 else SIZE_MAX - 1
    ensures |xs| == if major == 5 then 2 * EntryCount(major, xs) else EntryCount(major, xs)
    ensures AllEncodable(xs)
    ensures Encode(Container(major, xs)) == Head(major, EntryCount(major, xs)) + EncodeAll(xs)
  {
  }

  method WriteContainer(enc: Encoder, typ: byte, xs: seq<Item>) returns (err: CborError)
    requires enc.Valid() && (typ == ARRAY_TYPE || typ == MAP_TYPE) && Encodable(Container(typ / 32, xs))
    modifies enc, enc.buffer
    ensures enc.Appended(Encode(Container(typ / 32, xs)), 1, err)
    decreases xs, 1
  {
    hide Encode, Head, Encodable, AllEncodable, EncodeAll;
    ContainerEncoding(typ / 32, xs);
    var n := EntryCount(typ / 32, xs);
    ghost var before, head := enc.stream, Head(typ / 32, n);
    var child;
    err, child := enc.CreateContainer(n, typ);
    WriteItems(child, xs);
    assert before + (head + EncodeAll(xs)) == before + head + EncodeAll(xs);
    err := enc.CloseContainer(child);
  }

  method WriteItems(enc: Encoder, xs: seq<Item>)
    requires enc.Valid() && AllEncodable(xs)
    modifies enc, enc.buffer
    ensures enc.Grew(EncodeAll(xs), |xs|)
    decreases xs, 0
  {
    for i := 0 to |xs|
      invariant AllEncodable(xs[..i]) && enc.Grew(EncodeAll(xs[..i]), i)
    {
      PrefixEncodable(xs, i);
      assert xs[..i + 1] == xs[..i] + [xs[i]];
      EncodeAllAppend(xs[..i], xs[i]);
      hide Encode, Encodable, AllEncodable, EncodeAll;
      ghost var before, done := old(enc.stream), EncodeAll(xs[..i]);
      var err := WriteItem(enc, xs[i]);
      assert before + done + Encode(xs[i]) == before + (done + Encode(xs[i]));
    }
    assert xs[..|xs|] == xs;
  }

  // Reads the item a buffer starts with.
  method ReadFresh(buffer: seq<byte>) returns (err: CborError, item: Item, end: nat)
    requires |buffer| <= SIZE_MAX
    ensures var r := Decode(buffer, 0, LENIENT, MAX_RECURSIONS);
      if err == NoError then r == Some((item, end)) else r == None
  {
    hide Decode;
    item, end := Simple(0), 0;
    var it;
    err, it := ParserInit(buffer);
    if err != NoError {
      UnreadableHead(buffer, 0, LENIENT, MAX_RECURSIONS);
      return;
    }
    it.TailIsItemThenRest(LENIENT, MAX_RECURSIONS);
    err, item := ReadItem(it, MAX_RECURSIONS);
    end := it.ptr;
  }

  /** Encoding an item into a buffer and reading it back, whatever else the buffer holds.
      With enough room the reader finds the same item and stops at the end of its bytes,
      exactly when no simple value 24 occurs and nesting stays within the limit; without,
      room plus the reported shortage is the size of the encoding. */
  method WriteAndReadBack(x: Item, buffer: array<byte>)
      returns (written: CborError, shortage: nat, read: CborError, item: Item, end: nat)
    requires Encodable(x) && buffer.Length <= SIZE_MAX
    modifies buffer
    ensures |Encode(x)| > buffer.Length ==> written == OutOfMemory && buffer.Length + shortage == |Encode(x)|
    ensures |Encode(x)| <= buffer.Length ==>
      && written == NoError && shortage == 0 && At(buffer[..], 0, Encode(x))
      && (read == NoError <==> Readable(x, false, MAX_RECURSIONS))
      && (read == NoError ==> item == x && end == |Encode(x)|)
  {
    hide Decode, Encode, Encodable;
    read, item, end := NoError, Simple(0), 0;
    var enc := new Encoder.Init(buffer, buffer.Length);
    written := WriteItem(enc, x);
    assert [] + Encode(x) == Encode(x);
    shortage := enc.GetExtraBytesNeeded();
    if written != NoError { return; }
    ghost var n := enc.GetBufferSize();
    assert buffer[..][0..0 + n] == buffer[..n] == Encode(x);
    DecodeInvertsEncode(buffer[..], 0, x, LENIENT, MAX_RECURSIONS);
    read, item, end := ReadFresh(buffer[..]);
  }

  /** Simple value 24 is the item the encoder takes and no reader gives back. */
  lemma Simple24DoesNotReadBack(m: Mode, depth: nat)
    ensures Encodable(Simple(24)) && Decode(Encode(Simple(24)), 0, m, depth) == None
  {
    var s := Encode(Simple(24));
    assert s[0..0 + |s|] == s;
    DecodeInvertsEncode(s, 0, Simple(24), m, depth);
  }
}
