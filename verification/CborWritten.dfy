/** The entry points of reader, validator and encoder, said of the ways items are written. */
module CborWritten {
  import opened Bytes
  import opened CborFormat
  import opened CborForms
  import opened CborParser
  import opened CborRoundTrip
  import opened CborTraversal
  import opened CborValidation

  // ----- Reading -----

  // The buffer starts with that form of an item, which nests no deeper than the reader goes.
  predicate StartsWith(buffer: seq<byte>, f: Form) {
    Written(f) && Nesting(f, false) <= 1024 && At(buffer, 0, BytesOf(f))
  }

  lemma AnythingAllowed(f: Form)
    ensures Allowed(f, false, false)
    decreases f, 1
  {
    match f
    case Counted(_, _, fs) => AllAnythingAllowed(fs);
    case Open(_, fs) => AllAnythingAllowed(fs);
    case Tag(_, _, g) => AnythingAllowed(g);
    case _ =>
  }

  lemma {:induction false} AllAnythingAllowed(fs: seq<Form>)
    ensures AllAllowed(fs, false, false)
    decreases fs, 0
  {
    if fs != [] {
      AnythingAllowed(fs[0]);
      AllAnythingAllowed(fs[1..]);
    }
  }

  lemma StartsWithFits(buffer: seq<byte>, f: Form)
    ensures StartsWith(buffer, f) <==> Fits(buffer, 0, f, LENIENT, MAX_RECURSIONS)
  {
    hide At, BytesOf, Written, Nesting, Allowed;
    AnythingAllowed(f);
  }

  lemma LenientReads(buffer: seq<byte>, f: Form)
    requires StartsWith(buffer, f)
    ensures Decode(buffer, 0, LENIENT, MAX_RECURSIONS) == Some((ItemOf(f), |BytesOf(f)|))
  {
    hide Decode, StartsWith, Fits;
    StartsWithFits(buffer, f);
    FormEnds(buffer, 0, f, LENIENT, MAX_RECURSIONS);
  }

  lemma LenientForm(buffer: seq<byte>) returns (f: Form)
    requires Decode(buffer, 0, LENIENT, MAX_RECURSIONS).Some?
    ensures StartsWith(buffer, f)
  {
    hide Decode, StartsWith, Fits;
    f := FormOf(buffer, 0, LENIENT, MAX_RECURSIONS);
    StartsWithFits(buffer, f);
  }

  /** Reading succeeds exactly on buffers that start with some form of an item, and gives that item
      and the end of its bytes. */
  method ReadWritten(buffer: seq<byte>) returns (err: CborError, item: Item, end: nat)
    requires |buffer| <= SIZE_MAX
    ensures err == NoError <==> exists f :: StartsWith(buffer, f)
    ensures forall f :: StartsWith(buffer, f) ==> item == ItemOf(f) && end == |BytesOf(f)|
  {
    hide Decode, At, Written, Nesting, BytesOf;
    err, item, end := ReadFresh(buffer);
    if err == NoError { ghost var f := LenientForm(buffer); }
    forall f | StartsWith(buffer, f) ensures err == NoError && item == ItemOf(f) && end == |BytesOf(f)| {
      LenientReads(buffer, f);
    }
  }

  lemma DecodedHead(buffer: seq<byte>, p: nat)
    requires p <= |buffer| && Decode(buffer, p, LENIENT, MAX_RECURSIONS).Some?
    ensures HeadReadable(buffer, p)
  {
    hide ShortestForm, ReadHeader;
  }

  // The type in the first byte, and where the tagged item begins.
  lemma {:induction false} FirstOfForm(buffer: seq<byte>, f: Form)
    requires StartsWith(buffer, f)
    ensures HeadReadable(buffer, 0) && (ReadHeader(buffer, 0).value.major == 6 <==> f.Tag?)
    ensures f.Tag? ==>
      var n := ReadHeader(buffer, 0).value.size; n == |BytesOf(f)| - |BytesOf(f.form)| && HeadReadable(buffer, n)
  {
    hide HeadBytes, At, HeadReadable, ReadHeader;
    LenientReads(buffer, f);
    DecodedHead(buffer, 0);
    HeadMajor(buffer, f);
    if f.Tag? {
      var head := HeadBytes(6, f.width, f.tag);
      AtSplit(buffer, 0, head, BytesOf(f.form));
      HeadRead(buffer, 0, 6, f.width, f.tag);
      AnythingAllowed(f.form);
      AtFits(buffer, 0, BytesOf(f));
      FormEnds(buffer, |head|, f.form, LENIENT, MAX_RECURSIONS);
      DecodedHead(buffer, |head|);
    }
  }

  lemma {:induction false} HeadMajor(buffer: seq<byte>, f: Form)
    requires StartsWith(buffer, f) && HeadReadable(buffer, 0)
    ensures ReadHeader(buffer, 0).value.major == 6 <==> f.Tag?
  {
    hide At, Nesting, ShortestForm, TwoBytes, FourBytes;
    StringThere(buffer, 0, BytesOf(f));
    assert buffer[0] == buffer[0..0 + |BytesOf(f)|][0] == BytesOf(f)[0];
  }

  /** So does skipping, with a tag excepted, of which only the head is passed. */
  method AdvanceWritten(buffer: seq<byte>) returns (err: CborError, end: nat)
    requires |buffer| <= SIZE_MAX
    ensures forall f :: StartsWith(buffer, f) ==> err == NoError
    ensures forall f :: StartsWith(buffer, f) ==> end == |BytesOf(f)| - if f.Tag? then |BytesOf(f.form)| else 0
    ensures err == NoError ==> (exists f :: StartsWith(buffer, f)) || (buffer != [] && buffer[0] / 32 == 6)
  {
    hide Decode, At, Nesting, BytesOf, HeadReadable, ReadHeader;
    err, end := AdvanceFresh(buffer);
    forall f | StartsWith(buffer, f)
      ensures err == NoError && end == |BytesOf(f)| - if f.Tag? then |BytesOf(f.form)| else 0 {
      FirstOfForm(buffer, f);
      LenientReads(buffer, f);
    }
    MajorOfHead(buffer);
    if Decode(buffer, 0, LENIENT, MAX_RECURSIONS).Some? { ghost var f := LenientForm(buffer); }
  }

  lemma MajorOfHead(buffer: seq<byte>)
    ensures HeadReadable(buffer, 0) ==> buffer != [] && ReadHeader(buffer, 0).value.major == buffer[0] / 32
  {
  }

  // ----- Validating -----

  /** Validation accepts exactly the forms its flags allow, where tags count as nesting. */
  method ValidateWritten(buffer: seq<byte>, flags: ValidationFlags) returns (err: CborError)
    requires |buffer| <= SIZE_MAX
    ensures err == NoError <==>
      exists f ::
        && Written(f) && Allowed(f, flags.shortestIntegrals, flags.noIndeterminateLength) && Nesting(f, true) <= 1023
        && At(buffer, 0, BytesOf(f)) && (flags.completeData ==> |BytesOf(f)| == |buffer|)
  {
    hide Decode, At, Written, Nesting, BytesOf, Allowed;
    var m := ModeOf(flags);
    err := ValidateFresh(buffer, flags);
    if err == NoError {
      ghost var f := FormOf(buffer, 0, m, MAX_RECURSIONS - 1);
      FormEnds(buffer, 0, f, m, MAX_RECURSIONS - 1);
    }
    forall f | Fits(buffer, 0, f, m, MAX_RECURSIONS - 1)
      ensures Decode(buffer, 0, m, MAX_RECURSIONS - 1) == Some((ItemOf(f), |BytesOf(f)|)) {
      FormEnds(buffer, 0, f, m, MAX_RECURSIONS - 1);
    }
  }

  // ----- Writing -----

  function WidthFor(v: nat): Width {
    if v < 24 then W0 else if v < 0x100 then W1 else if v < 0x1_0000 then W2
    else if v < 0x1_0000_0000 then W4 else W8
  }

  // An item with the narrowest heads and counted lengths.
  function Narrowest(x: Item): Form {
    match x
    case UInt(v) => Unsigned(WidthFor(v), v)
    case NInt(v) => Negative(WidthFor(v), v)
    case ByteString(s) => Form.Whole(false, WidthFor(|s|), s)
    case TextString(s) => Form.Whole(true, WidthFor(|s|), s)
    case Array(xs) => Counted(false, WidthFor(|xs|), AllNarrowest(xs))
    case Map(xs) => Counted(true, WidthFor(|xs| / 2), AllNarrowest(xs))
    case Tagged(t, y) => Tag(WidthFor(t), t, Narrowest(y))
    case Simple(n) => Value(n)
    case Half(b) => HalfBits(b)
    case Single(b) => SingleBits(b)
    case Double(b) => DoubleBits(b)
  }

  function AllNarrowest(xs: seq<Item>): (fs: seq<Form>)
    ensures |fs| == |xs|
  {
    if xs == [] then [] else [Narrowest(xs[0])] + AllNarrowest(xs[1..])
  }

  lemma NarrowestHead(major: nat, v: nat)
    requires major < 8 && v <= UINT64_MAX
    ensures Holds(WidthFor(v), v) && CborForms.Tight(WidthFor(v), v)
    ensures HeadBytes(major, WidthFor(v), v) == Head(major, v)
  {
    hide HeadBytes, BigEndian;
    HeadBytesAre(major, WidthFor(v), v);
  }

  lemma NarrowestValue(x: Item)
    requires Encodable(x) && (x.Simple? || x.Half? || x.Single? || x.Double?)
    ensures Written(Narrowest(x)) <==> x != Simple(24)
    ensures x != Simple(24) ==> BytesOf(Narrowest(x)) == Encode(x)
  {
    hide BigEndian, TwoBytes, FourBytes;
    match x
    case Simple(n) =>
      if n < 24 { HeadBytesAre(7, W0, n); } else { HeadBytesAre(7, W1, n); }
      NarrowestHead(7, n);
    case Half(b) => HeadBytesAre(7, W2, b);
    case Single(b) => HeadBytesAre(7, W4, b);
    case Double(b) => HeadBytesAre(7, W8, b);
  }

  /** What the encoder writes is the narrowest form of an item; simple value 24 has none. */
  lemma {:induction false} EncodesNarrowest(x: Item)
    requires Encodable(x)
    ensures ItemOf(Narrowest(x)) == x
    ensures Written(Narrowest(x)) ==> BytesOf(Narrowest(x)) == Encode(x) && Allowed(Narrowest(x), true, true)
    decreases x, 1
  {
    hide HeadBytes, Head;
    match x
    case UInt(v) => NarrowestHead(0, v);
    case NInt(v) => NarrowestHead(1, v);
    case ByteString(s) => NarrowestHead(2, |s|);
    case TextString(s) => NarrowestHead(3, |s|);
    case Array(xs) =>
      NarrowestHead(4, |xs|);
      AllEncodeNarrowest(xs);
    case Map(xs) =>
      NarrowestHead(5, |xs| / 2);
      AllEncodeNarrowest(xs);
    case Tagged(t, y) =>
      NarrowestHead(6, t);
      EncodesNarrowest(y);
    case _ => NarrowestValue(x);
  }

  lemma {:induction false} AllEncodeNarrowest(xs: seq<Item>)
    requires AllEncodable(xs)
    ensures ItemsOf(AllNarrowest(xs)) == xs
    ensures AllWritten(AllNarrowest(xs)) ==>
      AllBytes(AllNarrowest(xs)) == EncodeAll(xs) && AllAllowed(AllNarrowest(xs), true, true)
    decreases xs, 0
  {
    hide Encode, Encodable, BytesOf, Written, Allowed, ItemOf;
    if xs != [] {
      EncodesNarrowest(xs[0]);
      AllEncodeNarrowest(xs[1..]);
      assert AllNarrowest(xs)[1..] == AllNarrowest(xs[1..]);
    }
  }

  // ----- Examples of Appendix A of RFC 8949 -----

  // All of these bytes are read as that item.
  predicate ReadAs(s: seq<byte>, x: Item) {
    Decode(s, 0, LENIENT, MAX_RECURSIONS) == Some((x, |s|))
  }

  lemma FormReadAs(s: seq<byte>, f: Form)
    requires Written(f) && Nesting(f, false) <= 1024 && BytesOf(f) == s
    ensures ReadAs(s, ItemOf(f))
  {
    hide Decode, Written, BytesOf;
    assert s[0..0 + |s|] == s;
    LenientReads(s, f);
  }

  lemma NumbersRead()
    ensures ReadAs([0x17], UInt(23)) && ReadAs([0x18, 0x18], UInt(24)) && ReadAs([0x19, 0x03, 0xe8], UInt(1000))
    ensures ReadAs([0x38, 0x63], NInt(99))
  {
    hide ReadAs;
    FormReadAs([0x17], Unsigned(W0, 23));
    FormReadAs([0x18, 0x18], Unsigned(W1, 24));
    FormReadAs([0x19, 0x03, 0xe8], Unsigned(W2, 1000));
    FormReadAs([0x38, 0x63], Negative(W1, 99));
  }

  lemma LongNumbersRead()
    ensures ReadAs([0x1a, 0x00, 0x0f, 0x42, 0x40], UInt(1_000_000))
    ensures ReadAs([0x1b, 0x00, 0x00, 0x00, 0xe8, 0xd4, 0xa5, 0x10, 0x00], UInt(1_000_000_000_000))
  {
    hide ReadAs;
    FormReadAs([0x1a, 0x00, 0x0f, 0x42, 0x40], Unsigned(W4, 1_000_000));
    FormReadAs([0x1b, 0x00, 0x00, 0x00, 0xe8, 0xd4, 0xa5, 0x10, 0x00], Unsigned(W8, 1_000_000_000_000));
  }

  lemma OthersRead()
    ensures ReadAs([0xf5], Simple(21)) && ReadAs([0xf8, 0xff], Simple(255)) && ReadAs([0xf9, 0x3c, 0x00], Half(0x3c00))
    ensures ReadAs([0x62, 0xc3, 0xbc], TextString([0xc3, 0xbc])) && ReadAs([0xc1, 0x17], Tagged(1, UInt(23)))
  {
    hide ReadAs;
    FormReadAs([0xf5], Value(21));
    FormReadAs([0xf8, 0xff], Value(255));
    FormReadAs([0xf9, 0x3c, 0x00], HalfBits(0x3c00));
    FormReadAs([0x62, 0xc3, 0xbc], Form.Whole(true, W0, [0xc3, 0xbc]));
    FormReadAs([0xc1, 0x17], Tag(W0, 1, Unsigned(W0, 23)));
  }

  lemma ArraysRead()
    ensures ReadAs([0x82, 0x01, 0x02], Array([UInt(1), UInt(2)]))
    ensures ReadAs([0x9f, 0x01, 0x02, 0xff], Array([UInt(1), UInt(2)]))
  {
    hide ReadAs, AllBytes, AllWritten, ItemsOf, Deepest;
    var numbers := [Unsigned(W0, 1), Unsigned(W0, 2)];
    TwoForms(Unsigned(W0, 1), Unsigned(W0, 2));
    FormReadAs([0x82, 0x01, 0x02], Counted(false, W0, numbers));
    FormReadAs([0x9f, 0x01, 0x02, 0xff], Open(false, numbers));
  }

  lemma MapsRead()
    ensures ReadAs([0xa1, 0x61, 0x61, 0x01], Map([TextString([0x61]), UInt(1)]))
    ensures ReadAs([0xbf, 0x61, 0x61, 0x01, 0xff], Map([TextString([0x61]), UInt(1)]))
  {
    hide ReadAs, AllBytes, AllWritten, ItemsOf, Deepest;
    var key := Form.Whole(true, W0, [0x61]);
    TwoForms(key, Unsigned(W0, 1));
    assert BytesOf(key) == [0x61, 0x61];
    FormReadAs([0xa1, 0x61, 0x61, 0x01], Counted(true, W0, [key, Unsigned(W0, 1)]));
    FormReadAs([0xbf, 0x61, 0x61, 0x01, 0xff], Open(true, [key, Unsigned(W0, 1)]));
  }

  lemma ChunksReadAs()
    ensures ReadAs([0x5f, 0x42, 0x01, 0x02, 0x41, 0x03, 0xff], ByteString([1, 2, 3]))
  {
    hide ReadAs;
    var cs := [Chunk(W0, [1, 2]), Chunk(W0, [3])];
    assert cs[1..] == [Chunk(W0, [3])] && cs[1..][1..] == [];
    assert ChunkBytes(false, cs[1..]) == [0x41, 3] + ChunkBytes(false, []) && ChunksWritten(cs[1..]);
    assert ChunkBytes(false, cs) == [0x42, 1, 2] + ChunkBytes(false, cs[1..]);
    assert Joined(cs[1..]) == [3] && Joined(cs) == [1, 2, 3];
    FormReadAs([0x5f, 0x42, 0x01, 0x02, 0x41, 0x03, 0xff], Chunked(false, cs));
  }

  lemma TwoForms(f: Form, g: Form)
    ensures AllWritten([f, g]) <==> Written(f) && Written(g)
    ensures Written(f) && Written(g) ==> AllBytes([f, g]) == BytesOf(f) + BytesOf(g)
    ensures ItemsOf([f, g]) == [ItemOf(f), ItemOf(g)]
    ensures Nesting(f, false) == Nesting(g, false) == 0 ==> Deepest([f, g], false) == 0
  {
    hide BytesOf, Written, ItemOf, Nesting;
    assert [f, g][1..] == [g] && [g][1..] == [];
    assert AllWritten([g]) <==> Written(g);
    assert Written(g) ==> AllBytes([g]) == BytesOf(g) + AllBytes([]);
    assert Nesting(g, false) == 0 ==> Deepest([g], false) == 0;
    assert ItemsOf([g]) == [ItemOf(g)];
  }
}
