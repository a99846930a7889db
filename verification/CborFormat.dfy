/**
 * The CBOR data format: data items, their canonical encoding, and the decoding
 * relation of section 3 and Appendix C of RFC 8949.
 */
module CborFormat {
  import opened Bytes

  // A map is the flat list key, value, key, value, ... of its entries, in order.
  // Floating-point numbers stay bit patterns.
  datatype Item =
    | UInt(value: nat)
    | NInt(value: nat)          // the integer -1 - value
    | ByteString(s: seq<byte>)
    | TextString(s: seq<byte>)
    | Array(items: seq<Item>)
    | Map(entries: seq<Item>)
    | Tagged(tag: nat, item: Item)
    | Simple(number: nat)       // false, true, null and undefined are 20 to 23
    | Half(bits: nat)
    | Single(bits: nat)
    | Double(bits: nat)

  // ----- Encoding -----

  // The additional information of the shortest head with argument v, and the number
  // of argument bytes it announces.
  function ShortestInfo(v: nat): (info: nat)
    ensures info <= 27
    ensures info < 24 ==> info == v
  {
    if v < 24 then v
    else if v <= UINT8_MAX then 24
    else if v <= UINT16_MAX then 25
    else if v <= UINT32_MAX then 26
    else 27
  }

  function ArgumentSize(info: nat): (n: nat)
    ensures n <= 8
  {
    if info < 24 then 0 else if info == 24 then 1 else if info == 25 then 2 else if info == 26 then 4 else 8
  }

  // The head of an item: major type, and the shortest form of its argument.
  function Head(major: nat, v: nat): (s: seq<byte>)
    requires major < 8 && v <= UINT64_MAX
    ensures |s| == 1 + ArgumentSize(ShortestInfo(v))
  {
    LongHead(major, ShortestInfo(v), v)
  }

  function LongHead(major: nat, info: nat, v: nat): (s: seq<byte>)
    requires major < 8 && info <= 27
    ensures |s| == 1 + ArgumentSize(info)
  {
    [major * 32 + info] + BigEndian(v, ArgumentSize(info))
  }

  // Items whose numbers fit their CBOR fields.
  predicate Encodable(x: Item) {
    match x
    case UInt(v) => v <= UINT64_MAX
    case NInt(v) => v <= UINT64_MAX
    case ByteString(s) => |s| <= SIZE_MAX
    case TextString(s) => |s| <= SIZE_MAX
    case Array(xs) => |xs| < SIZE_MAX && AllEncodable(xs)
    case Map(xs) => |xs| % 2 == 0 && |xs| / 2 <= SIZE_MAX / 2 && AllEncodable(xs)
    case Tagged(t, y) => t <= UINT64_MAX && Encodable(y)
    case Simple(n) => n < 25 || 32 <= n <= UINT8_MAX
    case Half(b) => b <= UINT16_MAX
    case Single(b) => b <= UINT32_MAX
    case Double(b) => b <= UINT64_MAX
  }

  predicate AllEncodable(xs: seq<Item>) {
    xs == [] || (Encodable(xs[0]) && AllEncodable(xs[1..]))
  }

  function Encode(x: Item): (s: seq<byte>)
    requires Encodable(x)
    ensures |s| >= 1
  {
    match x
    case UInt(v) => Head(0, v)
    case NInt(v) => Head(1, v)
    case ByteString(s) => Head(2, |s|) + s
    case TextString(s) => Head(3, |s|) + s
    case Array(xs) => Head(4, |xs|) + EncodeAll(xs)
    case Map(xs) => Head(5, |xs| / 2) + EncodeAll(xs)
    case Tagged(t, y) => Head(6, t) + Encode(y)
    case Simple(n) => Head(7, n)
    case Half(b) => LongHead(7, 25, b)
    case Single(b) => LongHead(7, 26, b)
    case Double(b) => LongHead(7, 27, b)
  }

  function EncodeAll(xs: seq<Item>): seq<byte>
    requires AllEncodable(xs)
  {
    if xs == [] then [] else Encode(xs[0]) + EncodeAll(xs[1..])
  }

  // The number an array or map head announces for the children xs.
  function EntryCount(major: nat, xs: seq<Item>): nat {
    if major == 5 then |xs| / 2 else |xs|
  }

  // The array (major 4) or map (major 5) with the given children.
  function Container(major: nat, xs: seq<Item>): Item {
    if major == 5 then Map(xs) else Array(xs)
  }

  // ----- Decoding -----

  // arg is the argument and size the number of bytes of the head; info 31 is the
  // indefinite-length form, which has no argument.
  datatype Header = Header(major: nat, info: nat, arg: nat, size: nat)

  function ReadHeader(buf: seq<byte>, p: nat): (h: Option<Header>)
    ensures h.Some? ==> p + h.value.size <= |buf| && 1 <= h.value.size <= 9
    ensures h.Some? ==> h.value.major < 8 && h.value.arg <= UINT64_MAX
  {
    if p >= |buf| then None
    else
      var major, info := buf[p] / 32, buf[p] % 32;
      if info < 24 then Some(Header(major, info, info, 1))
      else if info <= 27 then
        var n := ArgumentSize(info);
        if p + 1 + n > |buf| then None
        else
          ArgumentFits(buf[p + 1..p + 1 + n]);
          Some(Header(major, info, FromBigEndian(buf[p + 1..p + 1 + n]), 1 + n))
      else if info == 31 then Some(Header(major, 31, 0, 1))
      else None
  }

  // How strict a reader is: whether it insists on shortest-form arguments, whether
  // it refuses indefinite lengths, and whether tags count as a nesting level.
  datatype Mode = Mode(shortest: bool, definite: bool, tagsNest: bool)

  predicate ShortestForm(h: Header) {
    match h.size
    case 1 => true
    case 2 => h.arg >= 24
    case 3 => h.arg > UINT8_MAX
    case 5 => h.arg > UINT16_MAX
    case _ => h.arg > UINT32_MAX
  }

  // Floating-point numbers are not arguments, so shortest form does not bind them.
  predicate HeaderAllowed(h: Header, m: Mode) {
    if h.info == 31 then 2 <= h.major <= 5 && !m.definite
    else
      && (m.shortest && !(h.major == 7 && h.info >= 25) ==> ShortestForm(h))
      && (h.major == 7 && h.info == 24 ==> h.arg >= 32)
  }

  type Decoded<T> = Option<(T, nat)>

  function End<T>(r: Decoded<T>): Option<nat> {
    if r.None? then None else Some(r.value.1)
  }

  // The item that starts at p together with the position just past it. depth is
  // the number of nesting levels still allowed.
  function Decode(buf: seq<byte>, p: nat, m: Mode, depth: nat): (r: Decoded<Item>)
    requires p <= |buf|
    ensures r.Some? ==> p < r.value.1 <= |buf|
    decreases |buf| - p, 2
  {
    var h := ReadHeader(buf, p);
    if h.None? || !HeaderAllowed(h.value, m) then None
    else
      var h := h.value;
      var q := p + h.size;
      match h.major
      case 0 => Some((UInt(h.arg), q))
      case 1 => Some((NInt(h.arg), q))
      case 2 =>
        var c := DecodeString(buf, p, h, m);
        if c.None? then None else Some((ByteString(c.value.0), c.value.1))
      case 3 =>
        var c := DecodeString(buf, p, h, m);
        if c.None? then None else Some((TextString(c.value.0), c.value.1))
      case 4 | 5 =>
        if depth == 0 then None
        else WrapContainer(h.major, DecodeContent(buf, p, h, m, depth - 1))
      case 6 =>
        if m.tagsNest && depth == 0 then None
        else WrapTag(h.arg, Decode(buf, q, m, if m.tagsNest then depth - 1 else depth))
      case _ =>
        if h.info == 25 then Some((Half(h.arg), q))
        else if h.info == 26 then Some((Single(h.arg), q))
        else if h.info == 27 then Some((Double(h.arg), q))
        else Some((Simple(h.arg), q))
  }

  function DecodeString(buf: seq<byte>, p: nat, h: Header, m: Mode): (r: Decoded<seq<byte>>)
    requires p + h.size <= |buf| && h.size >= 1
    ensures r.Some? ==> p < r.value.1 <= |buf|
  {
    var q := p + h.size;
    if h.info == 31 then DecodeChunks(buf, q, h.major, m)
    else if q + h.arg > |buf| then None
    else Some((buf[q..q + h.arg], q + h.arg))
  }

  // The chunks of an indefinite-length string, up to and including the break byte.
  function DecodeChunks(buf: seq<byte>, p: nat, major: nat, m: Mode): (r: Decoded<seq<byte>>)
    requires p <= |buf|
    ensures r.Some? ==> p < r.value.1 <= |buf|
    decreases |buf| - p
  {
    if p < |buf| && buf[p] == 0xff then Some(([], p + 1))
    else
      var h := ReadHeader(buf, p);
      if h.None? || h.value.major != major || h.value.info == 31 || (m.shortest && !ShortestForm(h.value)) then None
      else
        var q := p + h.value.size + h.value.arg;
        if q > |buf| then None
        else
          var rest := DecodeChunks(buf, q, major, m);
          if rest.None? then None
          else Some((buf[p + h.value.size..q] + rest.value.0, rest.value.1))
  }

  // The children of the array or map whose head is at p. The reader keeps counts in
  // 32 bits and reserves the largest number for "unknown".
  function DecodeContent(buf: seq<byte>, p: nat, h: Header, m: Mode, depth: nat): (r: Decoded<seq<Item>>)
    requires p + h.size <= |buf| && h.size >= 1
    ensures r.Some? ==> p < r.value.1 <= |buf|
    decreases |buf| - p, 1
  {
    var q := p + h.size;
    if h.info == 31 then DecodeUntilBreak(buf, q, h.major == 5, false, m, depth)
    else if h.major == 5 then
      if h.arg > UINT32_MAX / 2 then None else DecodeMany(buf, q, 2 * h.arg, m, depth)
    else
      if h.arg >= UINT32_MAX then None else DecodeMany(buf, q, h.arg, m, depth)
  }

  function DecodeMany(buf: seq<byte>, p: nat, n: nat, m: Mode, depth: nat): (r: Decoded<seq<Item>>)
    requires p <= |buf|
    ensures r.Some? ==> p <= r.value.1 <= |buf|
    decreases |buf| - p, 3
  {
    if n == 0 then Some(([], p))
    else
      var first := Decode(buf, p, m, depth);
      if first.None? then None
      else Prepend(first.value.0, DecodeMany(buf, first.value.1, n - 1, m, depth))
  }

  // odd says that a map key has been read whose value is still missing.
  function DecodeUntilBreak(buf: seq<byte>, p: nat, isMap: bool, odd: bool, m: Mode,
                            depth: nat): (r: Decoded<seq<Item>>)
    requires p <= |buf|
    ensures r.Some? ==> p < r.value.1 <= |buf|
    decreases |buf| - p, 3
  {
    if p < |buf| && buf[p] == 0xff then
      if isMap && odd then None else Some(([], p + 1))
    else
      var first := Decode(buf, p, m, depth);
      if first.None? then None
      else Prepend(first.value.0, DecodeUntilBreak(buf, first.value.1, isMap, !odd, m, depth))
  }

  function WrapTag(t: nat, r: Decoded<Item>): Decoded<Item> {
    if r.None? then None else Some((Tagged(t, r.value.0), r.value.1))
  }

  function WrapContainer(major: nat, r: Decoded<seq<Item>>): Decoded<Item> {
    if r.None? then None else Some((Container(major, r.value.0), r.value.1))
  }

  function Prepend(x: Item, r: Decoded<seq<Item>>): (s: Decoded<seq<Item>>) {
    if r.None? then None else Some(([x] + r.value.0, r.value.1))
  }

  // ----- The two directions -----

  // The encodable items a reader takes with depth nesting levels left: no simple value
  // 24 occurs in them, and arrays and maps (and tags, where these count) do not nest
  // deeper than that.
  predicate Readable(x: Item, tagsNest: bool, depth: nat) {
    match x
    case Array(xs) => depth > 0 && AllReadable(xs, tagsNest, depth - 1)
    case Map(xs) => depth > 0 && AllReadable(xs, tagsNest, depth - 1)
    case Tagged(_, y) => if tagsNest then depth > 0 && Readable(y, tagsNest, depth - 1)
      else Readable(y, tagsNest, depth)
    case Simple(n) => n != 24
    case _ => true
  }

  predicate AllReadable(xs: seq<Item>, tagsNest: bool, depth: nat) {
    xs == [] || (Readable(xs[0], tagsNest, depth) && AllReadable(xs[1..], tagsNest, depth))
  }

  predicate At(buf: seq<byte>, p: nat, s: seq<byte>) {
    p + |s| <= |buf| && buf[p..p + |s|] == s
  }

  lemma AtSplit(buf: seq<byte>, p: nat, s: seq<byte>, t: seq<byte>)
    ensures At(buf, p, s + t) <==> At(buf, p, s) && At(buf, p + |s|, t)
  {
    if p + |s + t| <= |buf| {
      assert buf[p..p + |s + t|] == buf[p..p + |s|] + buf[p + |s|..p + |s + t|];
      assert buf[p..p + |s + t|][..|s|] == buf[p..p + |s|];
      assert (s + t)[..|s|] == s && (s + t)[|s|..] == t;
      assert buf[p..p + |s + t|][|s|..] == buf[p + |s|..p + |s + t|];
    }
  }

  lemma ArgumentFits(s: seq<byte>)
    requires |s| <= 8
    ensures FromBigEndian(s) <= UINT64_MAX
  {
    BigEndianInverts(s);
    PowersOf256();
    PowIncreases(|s|, 8);
  }

  lemma LongHeadReadsBack(buf: seq<byte>, p: nat, major: nat, info: nat, v: nat)
    requires major < 8 && 24 <= info <= 27 && v < Pow256(ArgumentSize(info))
    requires At(buf, p, LongHead(major, info, v))
    ensures ReadHeader(buf, p) == Some(Header(major, info, v, 1 + ArgumentSize(info)))
  {
    hide BigEndian, FromBigEndian, Pow256;
    var n := ArgumentSize(info);
    var s := LongHead(major, info, v);
    assert buf[p] == buf[p..p + |s|][0] == s[0];
    assert buf[p + 1..p + 1 + n] == s[1..] == BigEndian(v, n);
    FromBigEndianInverts(v, n);
  }

  lemma HeadReadsBack(buf: seq<byte>, p: nat, major: nat, v: nat)
    requires major < 8 && v <= UINT64_MAX && At(buf, p, Head(major, v))
    ensures ReadHeader(buf, p) == Some(Header(major, ShortestInfo(v), v, |Head(major, v)|))
    ensures ShortestForm(ReadHeader(buf, p).value)
  {
    if v < 24 {
      assert buf[p] == buf[p..p + 1][0];
    } else {
      PowersOf256();
      LongHeadReadsBack(buf, p, major, ShortestInfo(v), v);
    }
  }

  // What reading at p should give where x's encoding stands.
  function Whole(x: Item, p: nat, tagsNest: bool, depth: nat): Decoded<Item>
    requires Encodable(x)
  {
    if Readable(x, tagsNest, depth) then Some((x, p + |Encode(x)|)) else None
  }

  function WholeAll(xs: seq<Item>, p: nat, tagsNest: bool, depth: nat): Decoded<seq<Item>>
    requires AllEncodable(xs)
  {
    if AllReadable(xs, tagsNest, depth) then Some((xs, p + |EncodeAll(xs)|)) else None
  }

  lemma ScalarReadsBack(buf: seq<byte>, p: nat, x: Item, m: Mode, depth: nat)
    requires Encodable(x) && At(buf, p, Encode(x))
    requires x.UInt? || x.NInt? || x.Simple? || x.Half? || x.Single? || x.Double?
    ensures Decode(buf, p, m, depth) == Whole(x, p, m.tagsNest, depth)
  {
    PowersOf256();
    hide Head, LongHead;
    match x
    case UInt(v) => HeadReadsBack(buf, p, 0, v);
    case NInt(v) => HeadReadsBack(buf, p, 1, v);
    case Simple(n) => HeadReadsBack(buf, p, 7, n);
    case Half(b) => LongHeadReadsBack(buf, p, 7, 25, b);
    case Single(b) => LongHeadReadsBack(buf, p, 7, 26, b);
    case Double(b) => LongHeadReadsBack(buf, p, 7, 27, b);
  }

  lemma StringReadsBack(buf: seq<byte>, p: nat, major: nat, s: seq<byte>, m: Mode, depth: nat)
    requires 2 <= major <= 3 && |s| <= SIZE_MAX && At(buf, p, Head(major, |s|) + s)
    ensures Decode(buf, p, m, depth) == Whole(if major == 2 then ByteString(s) else TextString(s), p, m.tagsNest, depth)
  {
    AtSplit(buf, p, Head(major, |s|), s);
    HeadReadsBack(buf, p, major, |s|);
    var h := ReadHeader(buf, p).value;
    assert HeaderAllowed(h, m);
    assert DecodeString(buf, p, h, m) == Some((s, p + |Head(major, |s|) + s|));
  }

  // An array or map whose head announces n entries decodes just when its children do.
  lemma ContainerHeadReadsBack(buf: seq<byte>, p: nat, major: nat, n: nat, m: Mode, depth: nat)
    requires 4 <= major <= 5 && depth > 0
    requires if major == 5 then n <= UINT32_MAX / 2 else n < UINT32_MAX
    requires At(buf, p, Head(major, n))
    ensures Decode(buf, p, m, depth) ==
      WrapContainer(major, DecodeMany(buf, p + |Head(major, n)|, if major == 5 then 2 * n else n, m, depth - 1))
  {
    HeadReadsBack(buf, p, major, n);
    var h := ReadHeader(buf, p).value;
    assert HeaderAllowed(h, m);
    assert DecodeContent(buf, p, h, m, depth - 1) ==
      DecodeMany(buf, p + |Head(major, n)|, if major == 5 then 2 * n else n, m, depth - 1);
  }

  lemma TagHeadReadsBack(buf: seq<byte>, p: nat, t: nat, m: Mode, depth: nat)
    requires t <= UINT64_MAX && At(buf, p, Head(6, t))
    ensures Decode(buf, p, m, depth) ==
      if m.tagsNest && depth == 0 then None
      else WrapTag(t, Decode(buf, p + |Head(6, t)|, m, if m.tagsNest then depth - 1 else depth))
  {
    HeadReadsBack(buf, p, 6, t);
  }

  lemma NoRoomForContainer(buf: seq<byte>, p: nat, major: nat, n: nat, m: Mode)
    requires 4 <= major <= 5 && n <= UINT64_MAX && At(buf, p, Head(major, n))
    ensures Decode(buf, p, m, 0) == None
  {
    HeadReadsBack(buf, p, major, n);
  }

  lemma WholeContainer(major: nat, xs: seq<Item>, p: nat, tagsNest: bool, depth: nat)
    requires 4 <= major <= 5 && Encodable(Container(major, xs)) && depth > 0
    ensures Whole(Container(major, xs), p, tagsNest, depth) ==
      WrapContainer(major, WholeAll(xs, p + |Head(major, EntryCount(major, xs))|, tagsNest, depth - 1))
  {
  }

  lemma WholeCons(xs: seq<Item>, p: nat, tagsNest: bool, depth: nat)
    requires xs != [] && AllEncodable(xs)
    ensures WholeAll(xs, p, tagsNest, depth) ==
      var first := Whole(xs[0], p, tagsNest, depth);
      if first.None? then None
      else Prepend(xs[0], WholeAll(xs[1..], p + |Encode(xs[0])|, tagsNest, depth))
  {
    assert xs == [xs[0]] + xs[1..];
  }

  /** Whatever follows an encoding, decoding at its start gives the item back and
      stops exactly past it, just when the item is readable. */
  lemma {:induction false} DecodeInvertsEncode(buf: seq<byte>, p: nat, x: Item, m: Mode, depth: nat)
    requires Encodable(x) && At(buf, p, Encode(x))
    ensures Decode(buf, p, m, depth) == Whole(x, p, m.tagsNest, depth)
    decreases x, 0
  {
    match x
    case ByteString(s) => StringReadsBack(buf, p, 2, s, m, depth);
    case TextString(s) => StringReadsBack(buf, p, 3, s, m, depth);
    case Array(xs) => ContainerInverts(buf, p, 4, xs, m, depth);
    case Map(xs) => ContainerInverts(buf, p, 5, xs, m, depth);
    case Tagged(t, y) => TagInverts(buf, p, t, y, m, depth);
    case _ => ScalarReadsBack(buf, p, x, m, depth);
  }

  lemma {:induction false} ContainerInverts(buf: seq<byte>, p: nat, major: nat, xs: seq<Item>, m: Mode, depth: nat)
    requires 4 <= major <= 5 && Encodable(Container(major, xs))
    requires At(buf, p, Encode(Container(major, xs)))
    ensures Decode(buf, p, m, depth) == Whole(Container(major, xs), p, m.tagsNest, depth)
    decreases xs, 2
  {
    hide Decode, Head, At;
    var n := EntryCount(major, xs);
    var head := Head(major, n);
    assert Encode(Container(major, xs)) == head + EncodeAll(xs);
    AtSplit(buf, p, head, EncodeAll(xs));
    if depth == 0 {
      NoRoomForContainer(buf, p, major, n, m);
    } else {
      ContainerHeadReadsBack(buf, p, major, n, m, depth);
      DecodeManyInvertsEncodeAll(buf, p + |head|, xs, m, depth - 1);
      WholeContainer(major, xs, p, m.tagsNest, depth);
    }
  }

  lemma {:induction false} TagInverts(buf: seq<byte>, p: nat, t: nat, x: Item, m: Mode, depth: nat)
    requires Encodable(Tagged(t, x)) && At(buf, p, Encode(Tagged(t, x)))
    ensures Decode(buf, p, m, depth) == Whole(Tagged(t, x), p, m.tagsNest, depth)
    decreases x, 1
  {
    hide Decode, Head, At;
    AtSplit(buf, p, Head(6, t), Encode(x));
    TagHeadReadsBack(buf, p, t, m, depth);
    if !(m.tagsNest && depth == 0) {
      DecodeInvertsEncode(buf, p + |Head(6, t)|, x, m, if m.tagsNest then depth - 1 else depth);
    }
  }

  lemma {:induction false} DecodeManyInvertsEncodeAll(buf: seq<byte>, p: nat, xs: seq<Item>, m: Mode, depth: nat)
    requires AllEncodable(xs) && At(buf, p, EncodeAll(xs))
    ensures DecodeMany(buf, p, |xs|, m, depth) == WholeAll(xs, p, m.tagsNest, depth)
    decreases xs, 1
  {
    if xs != [] { ConsInverts(buf, p, xs, m, depth); }
  }

  lemma {:induction false} ConsInverts(buf: seq<byte>, p: nat, xs: seq<Item>, m: Mode, depth: nat)
    requires xs != [] && AllEncodable(xs) && At(buf, p, EncodeAll(xs))
    ensures DecodeMany(buf, p, |xs|, m, depth) == WholeAll(xs, p, m.tagsNest, depth)
    decreases xs, 0
  {
    hide Decode, Head, Encode, Encodable, Readable, AllReadable, At;
    var x, ys := xs[0], xs[1..];
    AtSplit(buf, p, Encode(x), EncodeAll(ys));
    DecodeInvertsEncode(buf, p, x, m, depth);
    DecodeManyInvertsEncodeAll(buf, p + |Encode(x)|, ys, m, depth);
    hide WholeAll;
    WholeCons(xs, p, m.tagsNest, depth);
  }

  // What a successful decoding promises about the item x it found in buf[p..e].
  predicate Sound(buf: seq<byte>, p: nat, x: Item, e: nat, m: Mode, depth: nat) {
    && Encodable(x) && Readable(x, m.tagsNest, depth)
    && (m.shortest && m.definite ==> At(buf, p, Encode(x)) && e == p + |Encode(x)|)
  }

  predicate AllSound(buf: seq<byte>, p: nat, xs: seq<Item>, e: nat, m: Mode, depth: nat) {
    && AllEncodable(xs) && AllReadable(xs, m.tagsNest, depth) && p + |xs| <= e
    && (m.shortest && m.definite ==> At(buf, p, EncodeAll(xs)) && e == p + |EncodeAll(xs)|)
  }

  lemma LongHeadIsThere(buf: seq<byte>, p: nat)
    requires ReadHeader(buf, p).Some? && ReadHeader(buf, p).value.info != 31
    ensures var h := ReadHeader(buf, p).value;
      && h.info <= 27 && h.size == 1 + ArgumentSize(h.info) && (h.info >= 24 || h.arg == h.info)
      && h.arg < Pow256(if h.info < 24 then 1 else ArgumentSize(h.info))
      && At(buf, p, LongHead(h.major, h.info, h.arg))
  {
    var h := ReadHeader(buf, p).value;
    PowersOf256();
    var n := ArgumentSize(h.info);
    if h.info >= 24 { BigEndianInverts(buf[p + 1..p + 1 + n]); }
    assert buf[p..p + 1 + n] == [buf[p]] + buf[p + 1..p + 1 + n];
    assert LongHead(h.major, h.info, h.arg) == [buf[p]] + BigEndian(h.arg, n);
  }

  lemma ShortHeadIsThere(buf: seq<byte>, p: nat)
    requires ReadHeader(buf, p).Some? && ReadHeader(buf, p).value.info != 31
    requires ShortestForm(ReadHeader(buf, p).value)
    ensures var h := ReadHeader(buf, p).value;
      && At(buf, p, Head(h.major, h.arg)) && h.size == |Head(h.major, h.arg)|
  {
    PowersOf256();
    LongHeadIsThere(buf, p);
  }

  lemma {:induction false} ChunksFit(buf: seq<byte>, p: nat, major: nat, m: Mode)
    requires p <= |buf| && DecodeChunks(buf, p, major, m).Some?
    ensures var (s, e) := DecodeChunks(buf, p, major, m).value; p + |s| <= e
    decreases |buf| - p
  {
    if buf[p] != 0xff {
      var h := ReadHeader(buf, p).value;
      ChunksFit(buf, p + h.size + h.arg, major, m);
    }
  }

  lemma ScalarIsSound(buf: seq<byte>, p: nat, m: Mode, depth: nat)
    requires p <= |buf| && Decode(buf, p, m, depth).Some?
    requires ReadHeader(buf, p).value.major in {0, 1, 7}
    ensures var (x, e) := Decode(buf, p, m, depth).value; Sound(buf, p, x, e, m, depth)
  {
    hide Head, LongHead, BigEndian, FromBigEndian, ReadHeader, ShortestForm, At;
    PowersOf256();
    LongHeadIsThere(buf, p);
    var h := ReadHeader(buf, p).value;
    if ShortestForm(h) { ShortHeadIsThere(buf, p); }
  }

  lemma StringBytesAreSound(buf: seq<byte>, p: nat, h: Header, m: Mode)
    requires p <= |buf| <= SIZE_MAX && ReadHeader(buf, p) == Some(h) && HeaderAllowed(h, m) && h.major < 7
    requires DecodeString(buf, p, h, m).Some?
    ensures var (s, e) := DecodeString(buf, p, h, m).value;
      && |s| <= SIZE_MAX
      && (m.shortest && m.definite ==>
          At(buf, p, Head(h.major, |s|) + s) && e == p + |Head(h.major, |s|) + s|)
  {
    var (s, e) := DecodeString(buf, p, h, m).value;
    if h.info == 31 {
      ChunksFit(buf, p + h.size, h.major, m);
    } else if m.shortest {
      ShortHeadIsThere(buf, p);
      AtSplit(buf, p, Head(h.major, |s|), s);
    }
  }

  lemma StringIsSound(buf: seq<byte>, p: nat, m: Mode, depth: nat)
    requires p <= |buf| <= SIZE_MAX && Decode(buf, p, m, depth).Some?
    requires ReadHeader(buf, p).value.major in {2, 3}
    ensures var (x, e) := Decode(buf, p, m, depth).value; Sound(buf, p, x, e, m, depth)
  {
    StringBytesAreSound(buf, p, ReadHeader(buf, p).value, m);
  }

  /** A decoded item is encodable and readable, and a reader that insists on the
      canonical form only ever accepts the item's own encoding. */
  lemma {:induction false} EncodeInvertsDecode(buf: seq<byte>, p: nat, m: Mode, depth: nat)
    requires p <= |buf| <= SIZE_MAX && Decode(buf, p, m, depth).Some?
    ensures var (x, e) := Decode(buf, p, m, depth).value; Sound(buf, p, x, e, m, depth)
    decreases |buf| - p, 2
  {
    var h := ReadHeader(buf, p).value;
    if h.major in {0, 1, 7} { ScalarIsSound(buf, p, m, depth); }
    else if h.major in {2, 3} { StringIsSound(buf, p, m, depth); }
    else if h.major == 6 { TagIsSound(buf, p, m, depth); }
    else { ContainerIsSound(buf, p, m, depth); }
  }

  lemma {:induction false} TagIsSound(buf: seq<byte>, p: nat, m: Mode, depth: nat)
    requires p <= |buf| <= SIZE_MAX && Decode(buf, p, m, depth).Some?
    requires ReadHeader(buf, p).value.major == 6
    ensures var (x, e) := Decode(buf, p, m, depth).value; Sound(buf, p, x, e, m, depth)
    decreases |buf| - p, 1
  {
    hide Decode, Encode, Encodable, Readable, Head, ReadHeader, ShortestForm, At;
    TagDecodes(buf, p, m, depth);
    var h := ReadHeader(buf, p).value;
    var inner := if m.tagsNest then depth - 1 else depth;
    var y := Decode(buf, p + h.size, m, inner).value.0;
    EncodeInvertsDecode(buf, p + h.size, m, inner);
    TaggedWhole(h.arg, y, m.tagsNest, depth);
    if m.shortest && m.definite {
      ShortHeadIsThere(buf, p);
      AtSplit(buf, p, Head(6, h.arg), Encode(y));
    }
  }

  lemma TagDecodes(buf: seq<byte>, p: nat, m: Mode, depth: nat)
    requires p <= |buf| && Decode(buf, p, m, depth).Some?
    requires ReadHeader(buf, p).value.major == 6
    ensures !(m.tagsNest && depth == 0) && ReadHeader(buf, p).Some? && HeaderAllowed(ReadHeader(buf, p).value, m)
    ensures var h := ReadHeader(buf, p).value;
      Decode(buf, p, m, depth) == WrapTag(h.arg, Decode(buf, p + h.size, m, if m.tagsNest then depth - 1 else depth))
  {
  }

  lemma TaggedWhole(t: nat, y: Item, tagsNest: bool, depth: nat)
    requires t <= UINT64_MAX && Encodable(y) && !(tagsNest && depth == 0)
    ensures Encodable(Tagged(t, y)) && Encode(Tagged(t, y)) == Head(6, t) + Encode(y)
    ensures Readable(Tagged(t, y), tagsNest, depth) == Readable(y, tagsNest, if tagsNest then depth - 1 else depth)
  {
  }

  lemma {:induction false} ContainerIsSound(buf: seq<byte>, p: nat, m: Mode, depth: nat)
    requires p <= |buf| <= SIZE_MAX && Decode(buf, p, m, depth).Some?
    requires ReadHeader(buf, p).value.major in {4, 5}
    ensures var (x, e) := Decode(buf, p, m, depth).value; Sound(buf, p, x, e, m, depth)
    decreases |buf| - p, 1
  {
    ContentIsSound(buf, p, ReadHeader(buf, p).value, m, depth - 1);
  }

  predicate ContentSound(buf: seq<byte>, p: nat, major: nat, xs: seq<Item>, e: nat, m: Mode, depth: nat) {
    && 4 <= major <= 5 && (major == 5 ==> |xs| % 2 == 0)
    && |xs| < SIZE_MAX && AllEncodable(xs) && AllReadable(xs, m.tagsNest, depth)
    && (m.shortest && m.definite ==>
        var s := Head(major, EntryCount(major, xs)) + EncodeAll(xs);
        At(buf, p, s) && e == p + |s|)
  }

  lemma {:induction false} ContentIsSound(buf: seq<byte>, p: nat, h: Header, m: Mode, depth: nat)
    requires p <= |buf| <= SIZE_MAX && ReadHeader(buf, p) == Some(h) && HeaderAllowed(h, m) && 4 <= h.major <= 5
    requires DecodeContent(buf, p, h, m, depth).Some?
    ensures var (xs, e) := DecodeContent(buf, p, h, m, depth).value;
      ContentSound(buf, p, h.major, xs, e, m, depth)
    decreases |buf| - p, 0
  {
    hide ReadHeader, ShortestForm, At, Head, EncodeAll, AllEncodable, AllReadable, DecodeMany, DecodeUntilBreak;
    var q := p + h.size;
    var (xs, e) := DecodeContent(buf, p, h, m, depth).value;
    if h.info == 31 {
      UntilBreakIsSound(buf, q, h.major == 5, false, m, depth);
    } else {
      ManyIsSound(buf, q, if h.major == 5 then 2 * h.arg else h.arg, m, depth);
      DefiniteContentIsSound(buf, p, h, xs, e, m, depth);
    }
  }

  lemma DefiniteContentIsSound(buf: seq<byte>, p: nat, h: Header, xs: seq<Item>, e: nat, m: Mode, depth: nat)
    requires ReadHeader(buf, p) == Some(h) && HeaderAllowed(h, m) && 4 <= h.major <= 5 && h.info != 31
    requires |xs| == if h.major == 5 then 2 * h.arg else h.arg
    requires e <= |buf| <= SIZE_MAX && AllSound(buf, p + h.size, xs, e, m, depth)
    ensures ContentSound(buf, p, h.major, xs, e, m, depth)
  {
    hide ReadHeader, ShortestForm, At, Head, EncodeAll, AllEncodable, AllReadable;
    if m.shortest && m.definite {
      ShortHeadIsThere(buf, p);
      AtSplit(buf, p, Head(h.major, h.arg), EncodeAll(xs));
    }
  }

  lemma {:induction false} ManyIsSound(buf: seq<byte>, p: nat, n: nat, m: Mode, depth: nat)
    requires p <= |buf| <= SIZE_MAX && DecodeMany(buf, p, n, m, depth).Some?
    ensures var (xs, e) := DecodeMany(buf, p, n, m, depth).value;
      |xs| == n && AllSound(buf, p, xs, e, m, depth)
    decreases |buf| - p, 3
  {
    hide Decode, Encode, Encodable, Readable;
    if n > 0 {
      var (x, q) := Decode(buf, p, m, depth).value;
      EncodeInvertsDecode(buf, p, m, depth);
      ManyIsSound(buf, q, n - 1, m, depth);
      var (ys, e) := DecodeMany(buf, q, n - 1, m, depth).value;
      ConsIsSound(buf, p, x, q, ys, e, m, depth);
    }
  }

  lemma {:induction false} UntilBreakIsSound(buf: seq<byte>, p: nat, isMap: bool, odd: bool, m: Mode, depth: nat)
    requires p <= |buf| <= SIZE_MAX && !m.definite && DecodeUntilBreak(buf, p, isMap, odd, m, depth).Some?
    ensures var (xs, e) := DecodeUntilBreak(buf, p, isMap, odd, m, depth).value;
      && (isMap ==> (|xs| % 2 == 1) == odd) && p + |xs| < e && AllSound(buf, p, xs, e, m, depth)
    decreases |buf| - p, 3
  {
    hide Decode, Encode, Encodable, Readable;
    if !(p < |buf| && buf[p] == 0xff) {
      var (x, q) := Decode(buf, p, m, depth).value;
      EncodeInvertsDecode(buf, p, m, depth);
      UntilBreakIsSound(buf, q, isMap, !odd, m, depth);
      var (ys, e) := DecodeUntilBreak(buf, q, isMap, !odd, m, depth).value;
      ConsIsSound(buf, p, x, q, ys, e, m, depth);
    }
  }

  lemma ConsIsSound(buf: seq<byte>, p: nat, x: Item, q: nat, ys: seq<Item>, e: nat, m: Mode, depth: nat)
    requires p < q && Sound(buf, p, x, q, m, depth) && AllSound(buf, q, ys, e, m, depth)
    ensures AllSound(buf, p, [x] + ys, e, m, depth)
  {
    assert ([x] + ys)[1..] == ys;
    if m.shortest && m.definite { AtSplit(buf, p, Encode(x), EncodeAll(ys)); }
  }

  /** A buffer is accepted by a canonical reader exactly when it starts with the
      encoding of a readable item; that item and its end are what the reader reports. */
  lemma CanonicalReaderAcceptsEncodings(buf: seq<byte>, p: nat, m: Mode, depth: nat, x: Item, e: nat)
    requires p <= |buf| <= SIZE_MAX && m.shortest && m.definite
    ensures Decode(buf, p, m, depth) == Some((x, e)) <==>
            Encodable(x) && Readable(x, m.tagsNest, depth) && At(buf, p, Encode(x)) && e == p + |Encode(x)|
  {
    if Decode(buf, p, m, depth) == Some((x, e)) {
      EncodeInvertsDecode(buf, p, m, depth);
    } else if Encodable(x) && At(buf, p, Encode(x)) {
      DecodeInvertsEncode(buf, p, x, m, depth);
    }
  }

  /** Re-encoding what any reader accepted, however it was written, gives a buffer that
      any other reader decodes to the same item. */
  lemma DecodedItemsRoundTrip(buf: seq<byte>, p: nat, m: Mode, depth: nat, m': Mode)
    requires p <= |buf| <= SIZE_MAX && Decode(buf, p, m, depth).Some? && m.tagsNest == m'.tagsNest
    ensures var x := Decode(buf, p, m, depth).value.0;
      Encodable(x) && Decode(Encode(x), 0, m', depth) == Some((x, |Encode(x)|))
  {
    EncodeInvertsDecode(buf, p, m, depth);
    var x := Decode(buf, p, m, depth).value.0;
    assert Encode(x)[0..0 + |Encode(x)|] == Encode(x);
    DecodeInvertsEncode(Encode(x), 0, x, m', depth);
  }
}
