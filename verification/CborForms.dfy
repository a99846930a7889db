/**
 * The ways a data item may be written, byte by byte from section 3 of RFC 8949: heads of every
 * width, definite and indefinite lengths, strings in chunks. A reader accepts exactly these.
 */
module CborForms {
  import opened Bytes
  import opened CborFormat

  // ----- Heads -----

  // How many bytes the argument takes behind the initial byte.
  datatype Width = W0 | W1 | W2 | W4 | W8

  predicate Holds(w: Width, v: nat) {
    match w
    case W0 => v < 24
    case W1 => v < 0x100
    case W2 => v < 0x1_0000
    case W4 => v < 0x1_0000_0000
    case W8 => v < 0x1_0000_0000_0000_0000
  }

  // No smaller width holds the argument.
  predicate Tight(w: Width, v: nat) {
    match w
    case W0 => true
    case W1 => v >= 24
    case W2 => v >= 0x100
    case W4 => v >= 0x1_0000
    case W8 => v >= 0x1_0000_0000
  }

  function TwoBytes(v: nat): (s: seq<byte>)
    requires v < 0x1_0000
    ensures |s| == 2
  {
    [v / 0x100, v % 0x100]
  }

  function FourBytes(v: nat): (s: seq<byte>)
    requires v < 0x1_0000_0000
    ensures |s| == 4
  {
    TwoBytes(v / 0x1_0000) + TwoBytes(v % 0x1_0000)
  }

  // Major type and argument; numbers are in network byte order.
  function HeadBytes(major: nat, w: Width, v: nat): (s: seq<byte>)
    requires major < 8 && Holds(w, v)
    ensures |s| >= 1
  {
    match w
    case W0 => [major * 32 + v]
    case W1 => [major * 32 + 24, v]
    case W2 => [major * 32 + 25] + TwoBytes(v)
    case W4 => [major * 32 + 26] + FourBytes(v)
    case W8 => [major * 32 + 27] + FourBytes(v / 0x1_0000_0000) + FourBytes(v % 0x1_0000_0000)
  }

  // ----- Items as they are written -----

  datatype Chunk = Chunk(width: Width, s: seq<byte>)

  datatype Form =
    | Unsigned(width: Width, value: nat)
    | Negative(width: Width, value: nat)                // the integer -1 - value
    | Whole(text: bool, width: Width, s: seq<byte>)
    | Chunked(text: bool, chunks: seq<Chunk>)
    | Counted(isMap: bool, width: Width, children: seq<Form>)
    | Open(isMap: bool, children: seq<Form>)              // closed by a break byte
    | Tag(width: Width, tag: nat, form: Form)
    | Value(number: nat)
    | HalfBits(bits: nat)
    | SingleBits(bits: nat)
    | DoubleBits(bits: nat)

  function Entries(isMap: bool, n: nat): nat {
    if isMap then n / 2 else n
  }

  // Numbers fit their fields, keys have values, and counts are below the readers' limits.
  predicate Written(f: Form) {
    match f
    case Unsigned(w, v) => Holds(w, v)
    case Negative(w, v) => Holds(w, v)
    case Whole(_, w, s) => Holds(w, |s|)
    case Chunked(_, cs) => ChunksWritten(cs)
    case Counted(isMap, w, fs) =>
      && Holds(w, Entries(isMap, |fs|)) && (isMap ==> |fs| % 2 == 0) && |fs| < 0xffff_ffff && AllWritten(fs)
    case Open(isMap, fs) => (isMap ==> |fs| % 2 == 0) && AllWritten(fs)
    case Tag(w, t, g) => Holds(w, t) && Written(g)
    case Value(n) => n < 24 || 32 <= n < 0x100
    case HalfBits(b) => b < 0x1_0000
    case SingleBits(b) => b < 0x1_0000_0000
    case DoubleBits(b) => b < 0x1_0000_0000_0000_0000
  }

  predicate AllWritten(fs: seq<Form>) {
    fs == [] || (Written(fs[0]) && AllWritten(fs[1..]))
  }

  predicate ChunksWritten(cs: seq<Chunk>) {
    cs == [] || (Holds(cs[0].width, |cs[0].s|) && ChunksWritten(cs[1..]))
  }

  // The bytes.
  function BytesOf(f: Form): (s: seq<byte>)
    requires Written(f)
    ensures |s| >= 1
  {
    match f
    case Unsigned(w, v) => HeadBytes(0, w, v)
    case Negative(w, v) => HeadBytes(1, w, v)
    case Whole(text, w, s) => HeadBytes(if text then 3 else 2, w, |s|) + s
    case Chunked(text, cs) => [if text then 0x7f else 0x5f] + ChunkBytes(text, cs) + [0xff]
    case Counted(isMap, w, fs) => HeadBytes(if isMap then 5 else 4, w, Entries(isMap, |fs|)) + AllBytes(fs)
    case Open(isMap, fs) => [if isMap then 0xbf else 0x9f] + AllBytes(fs) + [0xff]
    case Tag(w, t, g) => HeadBytes(6, w, t) + BytesOf(g)
    case Value(n) => if n < 24 then [0xe0 + n] else [0xf8, n]
    case HalfBits(b) => [0xf9] + TwoBytes(b)
    case SingleBits(b) => [0xfa] + FourBytes(b)
    case DoubleBits(b) => [0xfb] + FourBytes(b / 0x1_0000_0000) + FourBytes(b % 0x1_0000_0000)
  }

  function AllBytes(fs: seq<Form>): seq<byte>
    requires AllWritten(fs)
  {
    if fs == [] then [] else BytesOf(fs[0]) + AllBytes(fs[1..])
  }

  function ChunkBytes(text: bool, cs: seq<Chunk>): seq<byte>
    requires ChunksWritten(cs)
  {
    if cs == [] then []
    else HeadBytes(if text then 3 else 2, cs[0].width, |cs[0].s|) + cs[0].s + ChunkBytes(text, cs[1..])
  }

  // What they mean.
  function ItemOf(f: Form): Item {
    match f
    case Unsigned(_, v) => UInt(v)
    case Negative(_, v) => NInt(v)
    case Whole(text, _, s) => if text then TextString(s) else ByteString(s)
    case Chunked(text, cs) => if text then TextString(Joined(cs)) else ByteString(Joined(cs))
    case Counted(isMap, _, fs) => if isMap then Map(ItemsOf(fs)) else Array(ItemsOf(fs))
    case Open(isMap, fs) => if isMap then Map(ItemsOf(fs)) else Array(ItemsOf(fs))
    case Tag(_, t, g) => Tagged(t, ItemOf(g))
    case Value(n) => Simple(n)
    case HalfBits(b) => Half(b)
    case SingleBits(b) => Single(b)
    case DoubleBits(b) => Double(b)
  }

  function ItemsOf(fs: seq<Form>): (xs: seq<Item>)
    ensures |xs| == |fs|
  {
    if fs == [] then [] else [ItemOf(fs[0])] + ItemsOf(fs[1..])
  }

  function Joined(cs: seq<Chunk>): seq<byte> {
    if cs == [] then [] else cs[0].s + Joined(cs[1..])
  }

  // How deep arrays and maps nest, and tags where these count.
  function Nesting(f: Form, tagsNest: bool): nat {
    match f
    case Counted(_, _, fs) => 1 + Deepest(fs, tagsNest)
    case Open(_, fs) => 1 + Deepest(fs, tagsNest)
    case Tag(_, _, g) => Nesting(g, tagsNest) + if tagsNest then 1 else 0
    case _ => 0
  }

  function Deepest(fs: seq<Form>, tagsNest: bool): nat {
    if fs == [] then 0
    else
      var first, rest := Nesting(fs[0], tagsNest), Deepest(fs[1..], tagsNest);
      if first > rest then first else rest
  }

  // What a strict reader allows: heads no wider than they need to be, lengths that are counted.
  predicate Allowed(f: Form, shortest: bool, definite: bool) {
    match f
    case Unsigned(w, v) => shortest ==> Tight(w, v)
    case Negative(w, v) => shortest ==> Tight(w, v)
    case Whole(_, w, s) => shortest ==> Tight(w, |s|)
    case Chunked(_, cs) => !definite && (shortest ==> ChunksTight(cs))
    case Counted(isMap, w, fs) => (shortest ==> Tight(w, Entries(isMap, |fs|))) && AllAllowed(fs, shortest, definite)
    case Open(_, fs) => !definite && AllAllowed(fs, shortest, definite)
    case Tag(w, t, g) => (shortest ==> Tight(w, t)) && Allowed(g, shortest, definite)
    case _ => true
  }

  predicate AllAllowed(fs: seq<Form>, shortest: bool, definite: bool) {
    fs == [] || (Allowed(fs[0], shortest, definite) && AllAllowed(fs[1..], shortest, definite))
  }

  predicate ChunksTight(cs: seq<Chunk>) {
    cs == [] || (Tight(cs[0].width, |cs[0].s|) && ChunksTight(cs[1..]))
  }

  // ----- Heads are read as they are written -----

  function InfoOf(w: Width, v: nat): nat {
    match w
    case W0 => v
    case W1 => 24
    case W2 => 25
    case W4 => 26
    case W8 => 27
  }

  lemma {:induction false} BigEndianJoins(s: seq<byte>, t: seq<byte>)
    ensures FromBigEndian(s + t) == FromBigEndian(s) * Pow256(|t|) + FromBigEndian(t)
    decreases t
  {
    if t == [] {
      assert s + t == s;
    } else {
      var init := t[..|t| - 1];
      assert (s + t)[..|s + t| - 1] == s + init;
      BigEndianJoins(s, init);
    }
  }

  lemma TwoBytesRead(v: nat)
    requires v < 0x1_0000
    ensures FromBigEndian(TwoBytes(v)) == v && BigEndian(v, 2) == TwoBytes(v)
  {
    var s := TwoBytes(v);
    assert s[..1] == [v / 0x100] && s[..1][..0] == [];
    assert FromBigEndian(s[..1]) == v / 0x100;
    BigEndianInverts(s);
  }

  lemma FourBytesRead(v: nat)
    requires v < 0x1_0000_0000
    ensures FromBigEndian(FourBytes(v)) == v && BigEndian(v, 4) == FourBytes(v)
  {
    hide FromBigEndian, BigEndian, TwoBytes;
    PowersOf256();
    TwoBytesRead(v / 0x1_0000);
    TwoBytesRead(v % 0x1_0000);
    BigEndianJoins(TwoBytes(v / 0x1_0000), TwoBytes(v % 0x1_0000));
    BigEndianInverts(FourBytes(v));
  }

  lemma EightBytesRead(v: nat)
    requires v < 0x1_0000_0000_0000_0000
    ensures BigEndian(v, 8) == FourBytes(v / 0x1_0000_0000) + FourBytes(v % 0x1_0000_0000)
  {
    hide FromBigEndian, BigEndian, FourBytes;
    PowersOf256();
    FourBytesRead(v / 0x1_0000_0000);
    FourBytesRead(v % 0x1_0000_0000);
    BigEndianJoins(FourBytes(v / 0x1_0000_0000), FourBytes(v % 0x1_0000_0000));
    BigEndianInverts(FourBytes(v / 0x1_0000_0000) + FourBytes(v % 0x1_0000_0000));
  }

  lemma HeadBytesAre(major: nat, w: Width, v: nat)
    requires major < 8 && Holds(w, v)
    ensures InfoOf(w, v) <= 27 && HeadBytes(major, w, v) == LongHead(major, InfoOf(w, v), v)
  {
    hide BigEndian;
    match w
    case W0 => NoBytes(v);
    case W1 => OneByte(v);
    case W2 => TwoBytesRead(v);
    case W4 => FourBytesRead(v);
    case W8 => EightBytesRead(v);
  }

  lemma NoBytes(v: nat)
    ensures BigEndian(v, 0) == []
  {
  }

  lemma OneByte(v: nat)
    requires v < 0x100
    ensures BigEndian(v, 1) == [v]
  {
    assert BigEndian(v, 1) == BigEndian(v / 256, 0) + [v % 256];
  }

  /** A head is read back as it was written, and it is in shortest form exactly if it is tight. */
  lemma HeadRead(buf: seq<byte>, p: nat, major: nat, w: Width, v: nat)
    requires major < 8 && Holds(w, v) && At(buf, p, HeadBytes(major, w, v))
    ensures ReadHeader(buf, p) == Some(Header(major, InfoOf(w, v), v, |HeadBytes(major, w, v)|))
    ensures ShortestForm(ReadHeader(buf, p).value) <==> Tight(w, v)
  {
    hide BigEndian, FromBigEndian;
    HeadBytesAre(major, w, v);
    PowersOf256();
    if w == W0 {
      assert buf[p] == buf[p..p + 1][0];
    } else {
      LongHeadReadsBack(buf, p, major, InfoOf(w, v), v);
    }
  }

  // ----- Every form is read -----

  // What reading at p should give where the bytes of f stand.
  function Got(f: Form, p: nat, tagsNest: bool, depth: nat): Decoded<Item>
    requires Written(f)
  {
    if Nesting(f, tagsNest) <= depth then Some((ItemOf(f), p + |BytesOf(f)|)) else None
  }

  function AllGot(fs: seq<Form>, p: nat, tagsNest: bool, depth: nat): Decoded<seq<Item>>
    requires AllWritten(fs)
  {
    if Deepest(fs, tagsNest) <= depth then Some((ItemsOf(fs), p + |AllBytes(fs)|)) else None
  }

  predicate MayRead(f: Form, m: Mode) {
    Allowed(f, m.shortest, m.definite)
  }

  lemma HeadMayBeRead(h: Header, w: Width, v: nat, m: Mode)
    requires h.info == InfoOf(w, v) <= 27 && h.major < 7 && (m.shortest ==> Tight(w, v))
    requires ShortestForm(h) <==> Tight(w, v)
    ensures HeaderAllowed(h, m)
  {
  }

  lemma NumberRead(buf: seq<byte>, p: nat, f: Form, m: Mode, depth: nat)
    requires Written(f) && MayRead(f, m) && At(buf, p, BytesOf(f)) && (f.Unsigned? || f.Negative?)
    ensures Decode(buf, p, m, depth) == Got(f, p, m.tagsNest, depth)
  {
    hide HeadBytes, ReadHeader, ShortestForm, HeaderAllowed;
    var major := if f.Unsigned? then 0 else 1;
    HeadRead(buf, p, major, f.width, f.value);
    HeadMayBeRead(ReadHeader(buf, p).value, f.width, f.value, m);
  }

  lemma SimpleRead(buf: seq<byte>, p: nat, f: Form, m: Mode, depth: nat)
    requires Written(f) && At(buf, p, BytesOf(f)) && (f.Value? || f.HalfBits? || f.SingleBits? || f.DoubleBits?)
    ensures Decode(buf, p, m, depth) == Got(f, p, m.tagsNest, depth)
  {
    hide ReadHeader, TwoBytes, FourBytes;
    match f
    case Value(n) => HeadRead(buf, p, 7, if n < 24 then W0 else W1, n);
    case HalfBits(b) => HeadRead(buf, p, 7, W2, b);
    case SingleBits(b) => HeadRead(buf, p, 7, W4, b);
    case DoubleBits(b) => HeadRead(buf, p, 7, W8, b);
  }

  lemma WholeRead(buf: seq<byte>, p: nat, f: Form, m: Mode, depth: nat)
    requires Written(f) && MayRead(f, m) && At(buf, p, BytesOf(f)) && f.Whole?
    ensures Decode(buf, p, m, depth) == Got(f, p, m.tagsNest, depth)
  {
    hide HeadBytes, ReadHeader, ShortestForm, HeaderAllowed;
    var major := if f.text then 3 else 2;
    var head := HeadBytes(major, f.width, |f.s|);
    AtSplit(buf, p, head, f.s);
    HeadRead(buf, p, major, f.width, |f.s|);
    var h := ReadHeader(buf, p).value;
    HeadMayBeRead(h, f.width, |f.s|, m);
    assert DecodeString(buf, p, h, m) == Some((f.s, p + |head + f.s|));
  }

  lemma OpenHeadRead(buf: seq<byte>, p: nat, major: nat)
    requires 2 <= major <= 5 && p < |buf| && buf[p] == major * 32 + 31
    ensures ReadHeader(buf, p) == Some(Header(major, 31, 0, 1))
  {
  }

  lemma ByteAt(buf: seq<byte>, p: nat, b: byte)
    ensures At(buf, p, [b]) <==> p < |buf| && buf[p] == b
  {
    if p < |buf| { assert buf[p..p + 1] == [buf[p]]; }
  }

  lemma HeadByte(buf: seq<byte>, p: nat, major: nat, w: Width, v: nat)
    requires major < 8 && Holds(w, v) && At(buf, p, HeadBytes(major, w, v))
    ensures p < |buf| && buf[p] == HeadBytes(major, w, v)[0] == major * 32 + InfoOf(w, v) && InfoOf(w, v) <= 27
  {
    hide TwoBytes, FourBytes;
    var s := HeadBytes(major, w, v);
    assert buf[p] == buf[p..p + |s|][0];
  }

  // One chunk more in front of those that are read from r on.
  lemma ChunkRead(buf: seq<byte>, p: nat, text: bool, c: Chunk, rest: Decoded<seq<byte>>, m: Mode)
    requires Holds(c.width, |c.s|) && (m.shortest ==> Tight(c.width, |c.s|))
    requires var head := HeadBytes(if text then 3 else 2, c.width, |c.s|);
      && At(buf, p, head) && At(buf, p + |head|, c.s)
      && rest == DecodeChunks(buf, p + |head| + |c.s|, if text then 3 else 2, m)
    ensures DecodeChunks(buf, p, if text then 3 else 2, m) == if rest.None? then None
      else Some((c.s + rest.value.0, rest.value.1))
  {
    hide HeadBytes, ReadHeader, ShortestForm, At;
    var major := if text then 3 else 2;
    HeadRead(buf, p, major, c.width, |c.s|);
    HeadByte(buf, p, major, c.width, |c.s|);
    StringThere(buf, p + |HeadBytes(major, c.width, |c.s|)|, c.s);
  }

  lemma {:induction false} ChunksRead(buf: seq<byte>, p: nat, text: bool, cs: seq<Chunk>, m: Mode)
    requires ChunksWritten(cs) && (m.shortest ==> ChunksTight(cs)) && At(buf, p, ChunkBytes(text, cs) + [0xff])
    ensures p <= |buf|
    ensures DecodeChunks(buf, p, if text then 3 else 2, m) == Some((Joined(cs), p + |ChunkBytes(text, cs)| + 1))
    decreases cs
  {
    hide HeadBytes, At, DecodeChunks;
    AtFits(buf, p, ChunkBytes(text, cs) + [0xff]);
    if cs == [] {
      assert ChunkBytes(text, cs) + [0xff] == [0xff];
      ByteAt(buf, p, 0xff);
      LastChunk(buf, p, text, m);
    } else {
      var c, rest := cs[0], ChunkBytes(text, cs[1..]);
      var head := HeadBytes(if text then 3 else 2, c.width, |c.s|);
      assert ChunkBytes(text, cs) + [0xff] == head + (c.s + (rest + [0xff]));
      AtSplit(buf, p, head, c.s + (rest + [0xff]));
      AtSplit(buf, p + |head|, c.s, rest + [0xff]);
      ChunksRead(buf, p + |head| + |c.s|, text, cs[1..], m);
      ChunkRead(buf, p, text, c, DecodeChunks(buf, p + |head| + |c.s|, if text then 3 else 2, m), m);
    }
  }

  lemma LastChunk(buf: seq<byte>, p: nat, text: bool, m: Mode)
    requires p < |buf| && buf[p] == 0xff
    ensures DecodeChunks(buf, p, if text then 3 else 2, m) == Some(([], p + 1))
  {
  }

  lemma StringThere(buf: seq<byte>, p: nat, s: seq<byte>)
    requires At(buf, p, s)
    ensures p + |s| <= |buf| && buf[p..p + |s|] == s
  {
  }

  lemma ChunkedRead(buf: seq<byte>, p: nat, f: Form, m: Mode, depth: nat)
    requires Written(f) && MayRead(f, m) && At(buf, p, BytesOf(f)) && f.Chunked?
    ensures Decode(buf, p, m, depth) == Got(f, p, m.tagsNest, depth)
  {
    hide ReadHeader, ShortestForm, At, DecodeChunks, ChunkBytes;
    var first: seq<byte> := [if f.text then 0x7f else 0x5f];
    assert BytesOf(f) == first + (ChunkBytes(f.text, f.chunks) + [0xff]);
    AtSplit(buf, p, first, ChunkBytes(f.text, f.chunks) + [0xff]);
    ByteAt(buf, p, first[0]);
    OpenHeadRead(buf, p, if f.text then 3 else 2);
    ChunksRead(buf, p + 1, f.text, f.chunks, m);
  }

  lemma {:induction false} FirstByte(buf: seq<byte>, p: nat, f: Form)
    requires Written(f) && At(buf, p, BytesOf(f))
    ensures p < |buf| && buf[p] < 0xff
  {
    hide HeadBytes, TwoBytes, FourBytes;
    assert buf[p] == buf[p..p + |BytesOf(f)|][0] == BytesOf(f)[0];
    match f
    case Unsigned(w, v) => FirstOfHead(0, w, v);
    case Negative(w, v) => FirstOfHead(1, w, v);
    case Whole(text, w, s) => FirstOfHead(if text then 3 else 2, w, |s|);
    case Counted(isMap, w, fs) => FirstOfHead(if isMap then 5 else 4, w, Entries(isMap, |fs|));
    case Tag(w, t, _) => FirstOfHead(6, w, t);
    case _ =>
  }

  lemma FirstOfHead(major: nat, w: Width, v: nat)
    requires major < 8 && Holds(w, v)
    ensures HeadBytes(major, w, v)[0] <= major * 32 + 27
  {
    hide TwoBytes, FourBytes;
  }

  /** Whatever reader allows its form, an item is read as what it means, up to its last byte, at any
      place in any buffer; unless it nests too deep, and then nothing is read. */
  lemma {:induction false} FormRead(buf: seq<byte>, p: nat, f: Form, m: Mode, depth: nat)
    requires Written(f) && MayRead(f, m) && At(buf, p, BytesOf(f))
    ensures Decode(buf, p, m, depth) == Got(f, p, m.tagsNest, depth)
    decreases f, 2
  {
    match f
    case Unsigned(_, _) => NumberRead(buf, p, f, m, depth);
    case Negative(_, _) => NumberRead(buf, p, f, m, depth);
    case Whole(_, _, _) => WholeRead(buf, p, f, m, depth);
    case Chunked(_, _) => ChunkedRead(buf, p, f, m, depth);
    case Counted(_, _, _) => CountedRead(buf, p, f, m, depth);
    case Open(_, _) => OpenRead(buf, p, f, m, depth);
    case Tag(_, _, _) => TagRead(buf, p, f, m, depth);
    case _ => SimpleRead(buf, p, f, m, depth);
  }

  lemma {:induction false} TagRead(buf: seq<byte>, p: nat, f: Form, m: Mode, depth: nat)
    requires Written(f) && MayRead(f, m) && At(buf, p, BytesOf(f)) && f.Tag?
    ensures Decode(buf, p, m, depth) == Got(f, p, m.tagsNest, depth)
    decreases f, 1
  {
    hide HeadBytes, ReadHeader, ShortestForm, HeaderAllowed, At;
    var head := HeadBytes(6, f.width, f.tag);
    AtSplit(buf, p, head, BytesOf(f.form));
    HeadRead(buf, p, 6, f.width, f.tag);
    HeadMayBeRead(ReadHeader(buf, p).value, f.width, f.tag, m);
    HeadByte(buf, p, 6, f.width, f.tag);
    if !(m.tagsNest && depth == 0) {
      FormRead(buf, p + |head|, f.form, m, if m.tagsNest then depth - 1 else depth);
    }
  }

  lemma {:induction false} CountedRead(buf: seq<byte>, p: nat, f: Form, m: Mode, depth: nat)
    requires Written(f) && MayRead(f, m) && At(buf, p, BytesOf(f)) && f.Counted?
    ensures Decode(buf, p, m, depth) == Got(f, p, m.tagsNest, depth)
    decreases f, 1
  {
    hide HeadBytes, ReadHeader, ShortestForm, HeaderAllowed, At, DecodeMany, AllBytes, AllWritten, AllAllowed;
    var major, n := if f.isMap then 5 else 4, Entries(f.isMap, |f.children|);
    var head := HeadBytes(major, f.width, n);
    AtSplit(buf, p, head, AllBytes(f.children));
    HeadRead(buf, p, major, f.width, n);
    HeadMayBeRead(ReadHeader(buf, p).value, f.width, n, m);
    HeadByte(buf, p, major, f.width, n);
    if depth > 0 { FormsRead(buf, p + |head|, f.children, m, depth - 1); }
  }

  lemma {:induction false} FormsRead(buf: seq<byte>, p: nat, fs: seq<Form>, m: Mode, depth: nat)
    requires AllWritten(fs) && AllAllowed(fs, m.shortest, m.definite) && At(buf, p, AllBytes(fs))
    ensures DecodeMany(buf, p, |fs|, m, depth) == AllGot(fs, p, m.tagsNest, depth)
    decreases fs, 0
  {
    hide Decode, At, Written, Allowed, BytesOf;
    AtFits(buf, p, AllBytes(fs));
    if fs != [] {
      AtSplit(buf, p, BytesOf(fs[0]), AllBytes(fs[1..]));
      FormRead(buf, p, fs[0], m, depth);
      FormsRead(buf, p + |BytesOf(fs[0])|, fs[1..], m, depth);
    }
  }

  lemma AtFits(buf: seq<byte>, p: nat, s: seq<byte>)
    requires At(buf, p, s)
    ensures p + |s| <= |buf|
  {
  }

  lemma {:induction false} OpenRead(buf: seq<byte>, p: nat, f: Form, m: Mode, depth: nat)
    requires Written(f) && MayRead(f, m) && At(buf, p, BytesOf(f)) && f.Open?
    ensures Decode(buf, p, m, depth) == Got(f, p, m.tagsNest, depth)
    decreases f, 1
  {
    hide ReadHeader, ShortestForm, At, DecodeUntilBreak, AllBytes, AllWritten, AllAllowed;
    var first: seq<byte> := [if f.isMap then 0xbf else 0x9f];
    assert BytesOf(f) == first + (AllBytes(f.children) + [0xff]);
    AtSplit(buf, p, first, AllBytes(f.children) + [0xff]);
    ByteAt(buf, p, first[0]);
    OpenHeadRead(buf, p, if f.isMap then 5 else 4);
    if depth > 0 { FormsReadUntilBreak(buf, p + 1, f.children, f.isMap, false, m, depth - 1); }
  }

  lemma {:induction false} FormsReadUntilBreak(buf: seq<byte>, p: nat, fs: seq<Form>, isMap: bool, odd: bool, m: Mode,
                                               depth: nat)
    requires AllWritten(fs) && AllAllowed(fs, m.shortest, m.definite) && At(buf, p, AllBytes(fs) + [0xff])
    requires isMap ==> (|fs| % 2 == 1) == odd
    ensures var all := AllGot(fs, p, m.tagsNest, depth);
      DecodeUntilBreak(buf, p, isMap, odd, m, depth) == if all.None? then None else Some((all.value.0, all.value.1 + 1))
    decreases fs, 0
  {
    hide Decode, At, Written, Allowed, BytesOf, AllBytes, AllWritten;
    if fs == [] {
      OnlyBreakAhead(buf, p);
    } else {
      FirstAhead(buf, p, fs);
      FormRead(buf, p, fs[0], m, depth);
      FormsReadUntilBreak(buf, p + |BytesOf(fs[0])|, fs[1..], isMap, !odd, m, depth);
    }
  }

  lemma OnlyBreakAhead(buf: seq<byte>, p: nat)
    requires At(buf, p, AllBytes([]) + [0xff])
    ensures p < |buf| && buf[p] == 0xff && AllBytes([]) == []
  {
    assert AllBytes([]) + [0xff] == [0xff];
    ByteAt(buf, p, 0xff);
  }

  lemma FirstAhead(buf: seq<byte>, p: nat, fs: seq<Form>)
    requires AllWritten(fs) && fs != [] && At(buf, p, AllBytes(fs) + [0xff])
    ensures Written(fs[0]) && AllWritten(fs[1..]) && At(buf, p, BytesOf(fs[0])) && p < |buf| && buf[p] != 0xff
    ensures At(buf, p + |BytesOf(fs[0])|, AllBytes(fs[1..]) + [0xff])
    ensures |AllBytes(fs)| == |BytesOf(fs[0])| + |AllBytes(fs[1..])|
  {
    hide At, Written, BytesOf;
    var first, rest := BytesOf(fs[0]), AllBytes(fs[1..]);
    assert AllBytes(fs) + [0xff] == first + (rest + [0xff]);
    AtSplit(buf, p, first, rest + [0xff]);
    FirstByte(buf, p, fs[0]);
  }

  // ----- Whatever is read has a form -----

  predicate Fits(buf: seq<byte>, p: nat, f: Form, m: Mode, depth: nat) {
    Written(f) && MayRead(f, m) && Nesting(f, m.tagsNest) <= depth && At(buf, p, BytesOf(f))
  }

  predicate AllFit(buf: seq<byte>, p: nat, fs: seq<Form>, m: Mode, depth: nat) {
    && AllWritten(fs) && AllAllowed(fs, m.shortest, m.definite) && Deepest(fs, m.tagsNest) <= depth
    && At(buf, p, AllBytes(fs))
  }

  function WidthOf(info: nat): Width {
    match info
    case 24 => W1
    case 25 => W2
    case 26 => W4
    case 27 => W8
    case _ => W0
  }

  lemma HeadThere(buf: seq<byte>, p: nat)
    requires ReadHeader(buf, p).Some? && ReadHeader(buf, p).value.info != 31
    ensures var h := ReadHeader(buf, p).value;
      && h.major < 8 && Holds(WidthOf(h.info), h.arg)
      && At(buf, p, HeadBytes(h.major, WidthOf(h.info), h.arg))
      && h.size == |HeadBytes(h.major, WidthOf(h.info), h.arg)|
      && (ShortestForm(h) <==> Tight(WidthOf(h.info), h.arg))
  {
    hide BigEndian, FromBigEndian, TwoBytes, FourBytes, ReadHeader, At;
    var h := ReadHeader(buf, p).value;
    LongHeadIsThere(buf, p);
    PowersOf256();
    HeadBytesAre(h.major, WidthOf(h.info), h.arg);
    HeadRead(buf, p, h.major, WidthOf(h.info), h.arg);
  }

  lemma {:induction false} NumberForm(buf: seq<byte>, p: nat, m: Mode, depth: nat) returns (f: Form)
    requires p <= |buf| && Decode(buf, p, m, depth).Some? && ReadHeader(buf, p).value.major < 2
    ensures Fits(buf, p, f, m, depth)
  {
    hide ReadHeader, HeadBytes, ShortestForm;
    HeadThere(buf, p);
    var h := ReadHeader(buf, p).value;
    f := if h.major == 0 then Unsigned(WidthOf(h.info), h.arg) else Negative(WidthOf(h.info), h.arg);
  }

  lemma {:induction false} SimpleForm(buf: seq<byte>, p: nat, m: Mode, depth: nat) returns (f: Form)
    requires p <= |buf| && Decode(buf, p, m, depth).Some? && ReadHeader(buf, p).value.major == 7
    ensures Fits(buf, p, f, m, depth)
  {
    hide ReadHeader, TwoBytes, FourBytes, ShortestForm, At;
    HeadThere(buf, p);
    HeadShape(buf, p);
    var h := ReadHeader(buf, p).value;
    match h.info {
      case 25 => f := HalfBits(h.arg);
      case 26 => f := SingleBits(h.arg);
      case 27 => f := DoubleBits(h.arg);
      case _ => f := Value(h.arg);
    }
  }

  lemma HeadShape(buf: seq<byte>, p: nat)
    requires ReadHeader(buf, p).Some?
    ensures var h := ReadHeader(buf, p).value; (h.info < 24 ==> h.arg == h.info) && (h.info <= 27 || h.info == 31)
  {
  }

  lemma {:induction false} ChunksForm(buf: seq<byte>, p: nat, text: bool, m: Mode) returns (cs: seq<Chunk>)
    requires p <= |buf| && DecodeChunks(buf, p, if text then 3 else 2, m).Some?
    ensures ChunksWritten(cs) && (m.shortest ==> ChunksTight(cs)) && At(buf, p, ChunkBytes(text, cs) + [0xff])
    decreases |buf| - p
  {
    hide ReadHeader, HeadBytes, ShortestForm, At;
    if buf[p] == 0xff {
      cs := [];
      ByteAt(buf, p, 0xff);
      assert ChunkBytes(text, []) + [0xff] == [0xff];
    } else {
      HeadThere(buf, p);
      var h := ReadHeader(buf, p).value;
      var q, r := p + h.size, p + h.size + h.arg;
      var rest := ChunksForm(buf, r, text, m);
      var c, head := Chunk(WidthOf(h.info), buf[q..r]), HeadBytes(h.major, WidthOf(h.info), h.arg);
      cs := [c] + rest;
      SliceThere(buf, q, r);
      AtSplit(buf, q, c.s, ChunkBytes(text, rest) + [0xff]);
      AtSplit(buf, p, head, c.s + (ChunkBytes(text, rest) + [0xff]));
      assert cs[1..] == rest && ChunkBytes(text, cs) + [0xff] == head + (c.s + (ChunkBytes(text, rest) + [0xff]));
    }
  }

  lemma SliceThere(buf: seq<byte>, q: nat, r: nat)
    requires q <= r <= |buf|
    ensures At(buf, q, buf[q..r]) && |buf[q..r]| == r - q
  {
  }

  lemma OpenHeadThere(buf: seq<byte>, p: nat)
    requires ReadHeader(buf, p).Some? && ReadHeader(buf, p).value.info == 31
    ensures p < |buf| && buf[p] == ReadHeader(buf, p).value.major * 32 + 31
    ensures ReadHeader(buf, p).value.size == 1
  {
  }

  lemma {:induction false} StringForm(buf: seq<byte>, p: nat, m: Mode, depth: nat) returns (f: Form)
    requires p <= |buf| && Decode(buf, p, m, depth).Some? && 2 <= ReadHeader(buf, p).value.major <= 3
    ensures Fits(buf, p, f, m, depth)
  {
    hide ReadHeader, HeadBytes, ShortestForm, At, DecodeChunks, ChunkBytes;
    var h := ReadHeader(buf, p).value;
    var text := h.major == 3;
    if h.info == 31 {
      OpenHeadThere(buf, p);
      var cs := ChunksForm(buf, p + 1, text, m);
      f := Chunked(text, cs);
      var first: seq<byte> := [if text then 0x7f else 0x5f];
      ByteAt(buf, p, first[0]);
      AtSplit(buf, p, first, ChunkBytes(text, cs) + [0xff]);
      assert BytesOf(f) == first + (ChunkBytes(text, cs) + [0xff]);
    } else {
      HeadThere(buf, p);
      var q := p + h.size;
      f := Form.Whole(text, WidthOf(h.info), buf[q..q + h.arg]);
      SliceThere(buf, q, q + h.arg);
      AtSplit(buf, p, HeadBytes(h.major, WidthOf(h.info), h.arg), f.s);
    }
  }

  /** And whatever a reader accepts was written in a form it allows. */
  lemma {:induction false} FormOf(buf: seq<byte>, p: nat, m: Mode, depth: nat) returns (f: Form)
    requires p <= |buf| && Decode(buf, p, m, depth).Some?
    ensures Fits(buf, p, f, m, depth)
    decreases |buf| - p, 2
  {
    hide Fits;
    var major := ReadHeader(buf, p).value.major;
    if major < 2 { f := NumberForm(buf, p, m, depth); }
    else if major < 4 { f := StringForm(buf, p, m, depth); }
    else if major < 6 { f := ContainerForm(buf, p, m, depth); }
    else if major == 6 { f := TagForm(buf, p, m, depth); }
    else { f := SimpleForm(buf, p, m, depth); }
  }

  lemma {:induction false} TagForm(buf: seq<byte>, p: nat, m: Mode, depth: nat) returns (f: Form)
    requires p <= |buf| && Decode(buf, p, m, depth).Some? && ReadHeader(buf, p).value.major == 6
    ensures Fits(buf, p, f, m, depth)
    decreases |buf| - p, 1
  {
    hide Decode, ReadHeader, HeadBytes, ShortestForm, At;
    TagDecodes(buf, p, m, depth);
    HeadThere(buf, p);
    var h := ReadHeader(buf, p).value;
    var g := FormOf(buf, p + h.size, m, if m.tagsNest then depth - 1 else depth);
    f := Tag(WidthOf(h.info), h.arg, g);
    AtSplit(buf, p, HeadBytes(6, WidthOf(h.info), h.arg), BytesOf(g));
  }

  lemma {:induction false} ContainerForm(buf: seq<byte>, p: nat, m: Mode, depth: nat) returns (f: Form)
    requires p <= |buf| && Decode(buf, p, m, depth).Some? && 4 <= ReadHeader(buf, p).value.major <= 5
    ensures Fits(buf, p, f, m, depth)
    decreases |buf| - p, 1
  {
    hide ReadHeader, HeadBytes, ShortestForm, At, DecodeMany, DecodeUntilBreak, AllBytes, AllWritten, AllAllowed;
    var h := ReadHeader(buf, p).value;
    var isMap := h.major == 5;
    if h.info == 31 {
      OpenHeadThere(buf, p);
      var fs := FormsUntilBreak(buf, p + 1, isMap, false, m, depth - 1);
      f := Open(isMap, fs);
      var first: seq<byte> := [if isMap then 0xbf else 0x9f];
      ByteAt(buf, p, first[0]);
      AtSplit(buf, p, first, AllBytes(fs) + [0xff]);
      assert BytesOf(f) == first + (AllBytes(fs) + [0xff]);
    } else {
      HeadThere(buf, p);
      var fs := FormsOf(buf, p + h.size, if isMap then 2 * h.arg else h.arg, m, depth - 1);
      f := Counted(isMap, WidthOf(h.info), fs);
      AtSplit(buf, p, HeadBytes(h.major, WidthOf(h.info), h.arg), AllBytes(fs));
    }
  }

  lemma NoForms(buf: seq<byte>, p: nat, m: Mode, depth: nat)
    requires p <= |buf|
    ensures AllFit(buf, p, [], m, depth)
  {
  }

  lemma MoreForms(buf: seq<byte>, p: nat, f: Form, fs: seq<Form>, m: Mode, depth: nat)
    requires Fits(buf, p, f, m, depth) && AllFit(buf, p + |BytesOf(f)|, fs, m, depth)
    ensures AllFit(buf, p, [f] + fs, m, depth) && AllBytes([f] + fs) == BytesOf(f) + AllBytes(fs)
  {
    hide At, Written, Allowed, Nesting, BytesOf;
    assert ([f] + fs)[1..] == fs;
    AtSplit(buf, p, BytesOf(f), AllBytes(fs));
  }

  lemma {:induction false} FormsOf(buf: seq<byte>, p: nat, n: nat, m: Mode, depth: nat) returns (fs: seq<Form>)
    requires p <= |buf| && DecodeMany(buf, p, n, m, depth).Some?
    ensures |fs| == n && AllFit(buf, p, fs, m, depth)
    decreases |buf| - p, 3
  {
    hide Decode, Fits, AllFit;
    if n == 0 {
      fs := [];
      NoForms(buf, p, m, depth);
    } else {
      var f := FormOf(buf, p, m, depth);
      FormEnds(buf, p, f, m, depth);
      var rest := FormsOf(buf, p + |BytesOf(f)|, n - 1, m, depth);
      MoreForms(buf, p, f, rest, m, depth);
      fs := [f] + rest;
    }
  }

  lemma FormEnds(buf: seq<byte>, p: nat, f: Form, m: Mode, depth: nat)
    requires Fits(buf, p, f, m, depth)
    ensures Written(f) && Decode(buf, p, m, depth) == Some((ItemOf(f), p + |BytesOf(f)|))
  {
    hide Decode, BytesOf, Written, Allowed, At;
    FormRead(buf, p, f, m, depth);
  }

  lemma {:induction false} FormsUntilBreak(buf: seq<byte>, p: nat, isMap: bool, odd: bool, m: Mode, depth: nat)
    returns (fs: seq<Form>)
    requires p <= |buf| && DecodeUntilBreak(buf, p, isMap, odd, m, depth).Some?
    ensures AllFit(buf, p, fs, m, depth) && AllWritten(fs) && At(buf, p, AllBytes(fs) + [0xff])
    ensures isMap ==> (|fs| % 2 == 1) == odd
    decreases |buf| - p, 3
  {
    hide Decode, Fits, AllFit, At, BytesOf, Written;
    if p < |buf| && buf[p] == 0xff {
      fs := [];
      NoForms(buf, p, m, depth);
      ByteAt(buf, p, 0xff);
      assert AllBytes([]) + [0xff] == [0xff];
    } else {
      var f := FormOf(buf, p, m, depth);
      FormEnds(buf, p, f, m, depth);
      var rest := FormsUntilBreak(buf, p + |BytesOf(f)|, isMap, !odd, m, depth);
      FitBeforeBreak(buf, p, f, rest, m, depth);
      fs := [f] + rest;
    }
  }

  lemma FitBeforeBreak(buf: seq<byte>, p: nat, f: Form, fs: seq<Form>, m: Mode, depth: nat)
    requires Fits(buf, p, f, m, depth) && AllFit(buf, p + |BytesOf(f)|, fs, m, depth) && AllWritten(fs)
    requires At(buf, p + |BytesOf(f)|, AllBytes(fs) + [0xff])
    ensures AllFit(buf, p, [f] + fs, m, depth) && AllWritten([f] + fs) && At(buf, p, AllBytes([f] + fs) + [0xff])
  {
    hide Decode, Fits, AllFit, At, BytesOf, AllBytes, AllWritten;
    MoreForms(buf, p, f, fs, m, depth);
    AtHead(buf, p, f, m, depth);
    WrittenAll(buf, p, [f] + fs, m, depth);
    AtSplit(buf, p, BytesOf(f), AllBytes(fs) + [0xff]);
    assert AllBytes([f] + fs) + [0xff] == BytesOf(f) + (AllBytes(fs) + [0xff]);
  }

  lemma AtHead(buf: seq<byte>, p: nat, f: Form, m: Mode, depth: nat)
    requires Fits(buf, p, f, m, depth)
    ensures Written(f) && At(buf, p, BytesOf(f))
  {
  }

  lemma WrittenAll(buf: seq<byte>, p: nat, fs: seq<Form>, m: Mode, depth: nat)
    requires AllFit(buf, p, fs, m, depth)
    ensures AllWritten(fs)
  {
  }

  /** A reader finds an item exactly where it is written in a form that the reader allows and that
      does not nest too deep. */
  lemma ReadersReadForms(buf: seq<byte>, p: nat, m: Mode, depth: nat, x: Item, e: nat)
    requires p <= |buf|
    ensures Decode(buf, p, m, depth) == Some((x, e)) <==>
      exists f :: Fits(buf, p, f, m, depth) && ItemOf(f) == x && e == p + |BytesOf(f)|
  {
    hide Decode, BytesOf, Written, Allowed, Nesting, At, ItemOf;
    if Decode(buf, p, m, depth) == Some((x, e)) {
      var f := FormOf(buf, p, m, depth);
      FormEnds(buf, p, f, m, depth);
    }
    if f: Form :| Fits(buf, p, f, m, depth) && ItemOf(f) == x && e == p + |BytesOf(f)| {
      FormEnds(buf, p, f, m, depth);
    }
  }
}
