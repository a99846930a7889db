/**
 * Whole items read through the iterator: skipping one (cbor_value_advance), copying a
 * string out, and reading an item back as a tree with the enter / leave protocol.
 */
module CborTraversal {
  import opened Bytes
  import opened CborFormat
  import opened CborParser

  // ----- What the decoding of the current item looks like, kind by kind -----

  function ScalarItem(h: Header): Item {
    match h.major
    case 0 => UInt(h.arg)
    case 1 => NInt(h.arg)
    case _ =>
      if h.info == 25 then Half(h.arg) else if h.info == 26 then Single(h.arg)
      else if h.info == 27 then Double(h.arg) else Simple(h.arg)
  }

  lemma ScalarAhead(it: Value, m: Mode, d: nat)
    requires it.Valid() && it.remaining > 0 && IsFixedType(it.typ) && it.typ != TAG_TYPE
    requires HeaderAllowed(it.Current(), m)
    ensures it.ptr + it.Current().size <= |it.buf|
    ensures Decode(it.buf, it.ptr, m, d) == Some((ScalarItem(it.Current()), it.ptr + it.Current().size))
    ensures it.Tail(m, d) == Prepend(ScalarItem(it.Current()), it.AfterItem(it.ptr + it.Current().size, m, d))
  {
    it.TailIsItemThenRest(m, d);
    hide Value.Tail, Value.AfterItem;
  }

  lemma TagAhead(it: Value, m: Mode, d: nat)
    requires it.Valid() && it.remaining > 0 && it.typ == TAG_TYPE && HeaderAllowed(it.Current(), m)
    ensures !it.unknownLength
    ensures it.ptr + it.Current().size <= |it.buf|
    ensures m.tagsNest && d == 0 ==> Decode(it.buf, it.ptr, m, d) == None && it.Tail(m, d) == None
    ensures !(m.tagsNest && d == 0) ==>
      var q, d' := it.ptr + it.Current().size, if m.tagsNest then d - 1 else d;
      Decode(it.buf, it.ptr, m, d) == WrapTag(it.Current().arg, Decode(it.buf, q, m, d'))
  {
    it.TailIsItemThenRest(m, d);
    hide Value.Tail, Value.AfterItem;
  }

  lemma StringAhead(it: Value, m: Mode, d: nat)
    requires it.Valid() && it.remaining > 0 && (it.typ == BYTE_STRING_TYPE || it.typ == TEXT_STRING_TYPE)
    requires HeaderAllowed(it.Current(), m)
    ensures Decode(it.buf, it.ptr, m, d) ==
      WrapString(it.typ, DecodeString(it.buf, it.ptr, it.Current(), m))
  {
  }

  function WrapString(typ: byte, r: Decoded<seq<byte>>): Decoded<Item> {
    if r.None? then None
    else Some((StringItem(typ, r.value.0), r.value.1))
  }

  function StringItem(typ: byte, s: seq<byte>): Item {
    if typ == BYTE_STRING_TYPE then ByteString(s) else TextString(s)
  }

  lemma ContainerAhead(it: Value, m: Mode, d: nat)
    requires it.IsContainer() && HeaderAllowed(it.Current(), m)
    ensures d == 0 ==> Decode(it.buf, it.ptr, m, d) == None
    ensures d > 0 ==>
      Decode(it.buf, it.ptr, m, d) ==
      WrapContainer(it.typ / 32, DecodeContent(it.buf, it.ptr, it.Current(), m, d - 1))
  {
  }

  lemma UnreadableHead(buf: seq<byte>, p: nat, m: Mode, d: nat)
    requires p <= |buf| && !HeadReadable(buf, p)
    ensures Decode(buf, p, m, d) == None
  {
  }

  // ----- Strings -----

  lemma PrependBytesTwice(s: seq<byte>, c: seq<byte>, r: Decoded<seq<byte>>)
    ensures PrependBytes(s, PrependBytes(c, r)) == PrependBytes(s + c, r)
  {
    if r.Some? { assert s + (c + r.value.0) == s + c + r.value.0; }
  }

  ghost predicate Unchanged(now: seq<byte>, before: seq<byte>, at: nat, n: nat) {
    |now| == |before| && forall i :: 0 <= i < |now| && !(at <= i < at + n) ==> now[i] == before[i]
  }

  // The chunk loop of iterate_string_chunks: with a destination it copies, without one it
  // only measures. s is the string that was walked.
  method IterateChunks(it: Value, dst: array?<byte>, at: nat, buflen: nat)
      returns (err: CborError, total: nat, copiedAll: bool, ghost s: seq<byte>)
    requires it.InString() && buflen <= SIZE_MAX && (dst != null ==> at + buflen <= dst.Length)
    modifies it, if dst == null then {} else {dst}
    ensures it.SamePlace() && err != OutOfMemory
    ensures err == NoError ==>
      && it.InString() && it.EndPosition() <= |it.buf| && it.ptr >= old(it.ptr)
      && old(it.Chunks(LENIENT)) == Some((s, it.EndPosition()))
      && total == |s| <= |it.buf| && (copiedAll <==> |s| <= buflen)
    ensures err != NoError ==> old(it.Chunks(LENIENT)) == None
    ensures dst != null ==> Unchanged(dst[..], old(dst[..]), at, buflen)
    ensures dst != null && err == NoError && copiedAll ==>
      dst[at..at + total] == s && (total < buflen ==> dst[at + total] == 0)
  {
    hide Decode, DecodeChunks, DecodeString, ReadHeader, ShortestForm;
    ghost var whole := it.Chunks(LENIENT);
    s, total, copiedAll := [], 0, true;
    assert whole == PrependBytes(s, it.Chunks(LENIENT)) by {
      if whole.Some? { assert [] + whole.value.0 == whole.value.0; }
    }
    while true
      invariant it.InString() && it.SamePlace() && old(it.ptr) <= it.ptr && total <= it.ptr
      invariant whole == PrependBytes(s, it.Chunks(LENIENT))
      invariant total == |s| && (copiedAll <==> |s| <= buflen)
      invariant dst != null ==> Unchanged(dst[..], old(dst[..]), at, buflen)
      invariant dst != null && copiedAll ==> dst[at..at + total] == s
      decreases |it.buf| - it.ptr
    {
      ghost var before := it.Chunks(LENIENT);
      var start, len;
      err, start, len := it.GetStringChunk(LENIENT);
      if err == NoMoreStringChunks { break; }
      if err != NoError { return; }
      ghost var chunk := it.buf[start..start + len];
      PrependBytesTwice(s, chunk, it.Chunks(LENIENT));
      if total + len > SIZE_MAX { assert false; return DataTooLarge, total, copiedAll, s; }
      if copiedAll && buflen >= total + len {
        if dst != null { AppendChunk(it.buf, start, len, dst, at, buflen, total, s); }
      } else {
        copiedAll := false;
      }
      s, total := s + chunk, total + len;
    }
    assert s + [] == s;
    if copiedAll && buflen > total && dst != null { dst[at + total] := 0; }
    err := NoError;
  }

  // The next chunk behind the bytes s that are copied already.
  method AppendChunk(src: seq<byte>, start: nat, len: nat, dst: array<byte>, at: nat, buflen: nat, total: nat,
                     ghost s: seq<byte>)
    requires start + len <= |src| && at + buflen <= dst.Length && total + len <= buflen
    requires dst[at..at + total] == s
    modifies dst
    ensures dst[at..at + total + len] == s + src[start..start + len]
    ensures Unchanged(dst[..], old(dst[..]), at, buflen)
  {
    CopyBytes(src, start, len, dst, at + total);
    assert dst[at..at + total] == s;
  }

  method CopyBytes(src: seq<byte>, start: nat, len: nat, dst: array<byte>, at: nat)
    requires start + len <= |src| && at + len <= dst.Length
    modifies dst
    ensures dst[..] == old(dst[..at]) + src[start..start + len] + old(dst[at + len..])
  {
    forall i | 0 <= i < len { dst[at + i] := src[start + i]; }
  }

  // _cbor_value_copy_string: the string's length comes back in total, its bytes and, given
  // room, a terminating NUL go to the destination.
  method CopyString(it: Value, dst: array?<byte>, at: nat, buflen: nat, ghost d: nat)
      returns (err: CborError, total: nat, ghost s: seq<byte>)
    requires it.Valid() && it.remaining > 0 && (it.typ == BYTE_STRING_TYPE || it.typ == TEXT_STRING_TYPE)
    requires buflen <= SIZE_MAX && (dst != null ==> at + buflen <= dst.Length)
    modifies it, if dst == null then {} else {dst}
    ensures err == NoError || err == OutOfMemory ==>
      && it.Valid() && it.ptr > old(it.ptr) && total == |s| <= |it.buf|
      && old(Decode(it.buf, it.ptr, LENIENT, d)) == Some((StringItem(old(it.typ), s), it.ptr))
      && old(it.Tail(LENIENT, d)) == Prepend(StringItem(old(it.typ), s), it.Tail(LENIENT, d))
      && it.PastItem()
      && (err == NoError <==> total <= buflen)
    ensures err != NoError && err != OutOfMemory ==> old(it.Tail(LENIENT, d)) == None
    ensures dst != null ==> Unchanged(dst[..], old(dst[..]), at, buflen)
    ensures dst != null && err == NoError ==> dst[at..at + total] == s && (total < buflen ==> dst[at + total] == 0)
  {
    hide Decode, DecodeMany, DecodeUntilBreak, DecodeString, DecodeChunks, ReadHeader, ShortestForm, TypeOf;
    StringAhead(it, LENIENT, d);
    it.TailIsItemThenRest(LENIENT, d);
    it.BeginStringIteration(LENIENT);
    var copiedAll;
    err, total, copiedAll, s := IterateChunks(it, dst, at, buflen);
    if err != NoError { return; }
    err := it.FinishStringIteration(LENIENT, d);
    if err == NoError && !copiedAll { err := OutOfMemory; }
  }

  // ----- Skipping -----

  method AdvanceRecursive(it: Value, nestingLevel: nat) returns (err: CborError)
    requires it.Valid() && it.remaining > 0
    modifies it
    ensures err == NoError ==> it.Valid() && it.ptr > old(it.ptr)
    ensures if err == NoError then End(it.Tail(LENIENT, nestingLevel)) == End(old(it.Tail(LENIENT, nestingLevel)))
            else old(it.Tail(LENIENT, nestingLevel)) == None
    ensures old(it.typ) != TAG_TYPE && err == NoError ==> it.PastItem()
    ensures old(it.typ) == TAG_TYPE ==>
            && it.ptr == old(it.ptr) + old(it.Current().size)
            && (err == NoError ==> it.remaining == old(it.remaining))
            && (err == NoError <==> HeadReadable(it.buf, it.ptr))
    decreases nestingLevel, 1
  {
    hide Decode, DecodeMany, DecodeUntilBreak, ReadHeader, ShortestForm;
    ghost var d := nestingLevel;
    if IsFixedType(it.typ) {
      if it.typ == TAG_TYPE { TagAhead(it, LENIENT, d); } else { ScalarAhead(it, LENIENT, d); }
      it.TailIsItemThenRest(LENIENT, d);
      err := it.AdvanceFixed(LENIENT, d);
      return;
    }
    if it.typ == BYTE_STRING_TYPE || it.typ == TEXT_STRING_TYPE {
      var n;
      ghost var s;
      err, n, s := CopyString(it, null, 0, SIZE_MAX, d);
      return;
    }
    ContainerAhead(it, LENIENT, d);
    it.TailIsItemThenRest(LENIENT, d);
    if nestingLevel == 0 { return NestingTooDeep; }
    err := SkipContainer(it, nestingLevel);
  }

  // The last part of advance_recursive: enter, skip every child, leave.
  method SkipContainer(it: Value, nestingLevel: nat) returns (err: CborError)
    requires it.IsContainer() && nestingLevel > 0
    modifies it
    ensures err == NoError ==> it.Valid() && it.ptr > old(it.ptr)
    ensures if err == NoError then End(it.Tail(LENIENT, nestingLevel)) == End(old(it.Tail(LENIENT, nestingLevel)))
            else old(it.Tail(LENIENT, nestingLevel)) == None
    ensures err == NoError ==> it.PastItem()
    decreases nestingLevel, 0
  {
    hide Decode, DecodeContent, DecodeMany, DecodeUntilBreak, ReadHeader, ShortestForm;
    ghost var d := nestingLevel;
    ContainerAhead(it, LENIENT, d);
    it.TailIsItemThenRest(LENIENT, d);
    ghost var content := DecodeContent(it.buf, it.ptr, it.Current(), LENIENT, d - 1);
    var recursed;
    err, recursed := it.EnterContainer(LENIENT, d - 1);
    if err != NoError { return; }
    while recursed.remaining != 0
      invariant recursed.Valid() && recursed.ptr > it.ptr
      invariant End(recursed.Tail(LENIENT, d - 1)) == End(content)
      modifies recursed
      decreases |it.buf| - recursed.ptr
    {
      err := AdvanceRecursive(recursed, nestingLevel - 1);
      if err != NoError { return; }
    }
    err := it.LeaveContainer(recursed, LENIENT, d);
  }

  // ----- From a fresh iterator -----

  method ParserInit(buffer: seq<byte>) returns (err: CborError, it: Value)
    requires |buffer| <= SIZE_MAX
    ensures fresh(it) && it.buf == buffer && it.ptr == 0 && it.remaining == 1
    ensures err == NoError <==> HeadReadable(buffer, 0)
    ensures err == NoError ==> it.Valid()
    ensures !it.containerIsMap && !it.nextIsMapKey
  {
    it := new Value.Start(buffer);
    err := it.PreparseValue();
  }

  method Advance(it: Value) returns (err: CborError)
    requires it.Valid()
    modifies it
    ensures err == AdvancePastEOF <== old(it.remaining) == 0
    ensures old(it.remaining) == 0 ==> it.Valid() && it.ptr == old(it.ptr)
    ensures err == NoError ==> it.Valid() && it.ptr > old(it.ptr)
    ensures old(it.remaining) > 0 ==>
      if err == NoError then End(it.Tail(LENIENT, MAX_RECURSIONS)) == End(old(it.Tail(LENIENT, MAX_RECURSIONS)))
      else old(it.Tail(LENIENT, MAX_RECURSIONS)) == None
    ensures old(it.typ) != TAG_TYPE && old(it.remaining) > 0 && err == NoError ==> it.PastItem()
    ensures old(it.remaining) > 0 && old(it.typ) == TAG_TYPE ==>
            && it.ptr == old(it.ptr) + old(it.Current().size)
            && (err == NoError ==> it.remaining == old(it.remaining))
            && (err == NoError <==> HeadReadable(it.buf, it.ptr))
  {
    if it.remaining == 0 { return AdvancePastEOF; }
    err := AdvanceRecursive(it, MAX_RECURSIONS);
  }

  /** Advancing a fresh outermost iterator over an untagged item succeeds exactly when a
      well-formed item within the limits starts the buffer, and then stops just past it.
      Over a tag it looks no further than the head after the tag. */
  method AdvanceFresh(buffer: seq<byte>) returns (err: CborError, end: nat)
    requires |buffer| <= SIZE_MAX
    ensures HeadReadable(buffer, 0) && ReadHeader(buffer, 0).value.major == 6 ==>
      && end == ReadHeader(buffer, 0).value.size
      && (err == NoError <==> HeadReadable(buffer, end))
    ensures !(HeadReadable(buffer, 0) && ReadHeader(buffer, 0).value.major == 6) ==>
      var r := Decode(buffer, 0, LENIENT, MAX_RECURSIONS);
      && (err == NoError <==> r.Some?)
      && (err == NoError ==> 0 < end <= |buffer| && end == r.value.1)
  {
    end := 0;
    var it;
    err, it := ParserInit(buffer);
    if err != NoError { return; }
    ghost var r := Decode(buffer, 0, LENIENT, MAX_RECURSIONS);
    assert End(it.Tail(LENIENT, MAX_RECURSIONS)) == End(r) by {
      it.TailIsItemThenRest(LENIENT, MAX_RECURSIONS);
      hide Decode;
    }
    hide Decode;
    err := Advance(it);
    end := it.ptr;
  }

  /** A tag in front of a truncated string: advancing accepts it although no well-formed
      item starts the buffer. */
  lemma AdvanceOverTagIsPartial(buffer: seq<byte>)
    requires buffer == [0xc0, 0x61]
    ensures HeadReadable(buffer, 0) && ReadHeader(buffer, 0).value.major == 6 && HeadReadable(buffer, 1)
    ensures forall m, d: nat :: Decode(buffer, 0, m, d) == None
  {
    assert ReadHeader(buffer, 0) == Some(Header(6, 0, 0, 1));
    assert ReadHeader(buffer, 1) == Some(Header(3, 1, 1, 1));
    forall m, d: nat ensures Decode(buffer, 0, m, d) == None {
      assert Decode(buffer, 1, m, d) == None;
      if d > 0 { assert Decode(buffer, 1, m, d - 1) == None; }
    }
  }

  // ----- Reading an item back -----

  lemma PrependInjective(x: Item, a: Decoded<seq<Item>>, b: Decoded<seq<Item>>)
    requires Prepend(x, a) == Prepend(x, b)
    ensures a == b
  {
    if a.Some? {
      assert ([x] + a.value.0)[1..] == a.value.0;
      assert ([x] + b.value.0)[1..] == b.value.0;
    }
  }

  // Extends the list of children already read by one.
  function PrependAll(xs: seq<Item>, r: Decoded<seq<Item>>): Decoded<seq<Item>> {
    if r.None? then None else Some((xs + r.value.0, r.value.1))
  }

  lemma PrependAllStep(xs: seq<Item>, x: Item, r: Decoded<seq<Item>>)
    ensures PrependAll(xs, Prepend(x, r)) == PrependAll(xs + [x], r)
  {
    if r.Some? { assert xs + ([x] + r.value.0) == xs + [x] + r.value.0; }
  }

  // The accessors for fixed-size items.
  method ScalarValue(it: Value) returns (x: Item)
    requires it.Valid() && it.remaining > 0 && IsFixedType(it.typ) && it.typ != TAG_TYPE
    ensures x == ScalarItem(it.Current())
  {
    if it.typ == BOOLEAN_TYPE { return Simple(if it.extra != 0 then 21 else 20); }
    var v := it.ExtractNumber();
    if it.typ == INTEGER_TYPE { return if it.flag04 then NInt(v) else UInt(v); }
    if it.typ == HALF_FLOAT_TYPE { return Half(v); }
    if it.typ == FLOAT_TYPE { return Single(v); }
    if it.typ == DOUBLE_TYPE { return Double(v); }
    return Simple(v);
  }

  // What reading one item through the iterator must achieve.
  twostate predicate ItemRead(it: Value, err: CborError, item: Item, d: nat)
    requires old(it.Valid()) && old(it.remaining) > 0
    reads it
  {
    if err == NoError then
      && it.Valid() && it.ptr > old(it.ptr)
      && old(Decode(it.buf, it.ptr, LENIENT, d)) == Some((item, it.ptr))
      && old(it.Tail(LENIENT, d)) == Prepend(item, it.Tail(LENIENT, d))
    else old(it.Tail(LENIENT, d)) == None
  }

  /** Reads the item under the iterator into a tree, entering and leaving its containers. */
  method ReadItem(it: Value, nestingLevel: nat) returns (err: CborError, item: Item)
    requires it.Valid() && it.remaining > 0
    modifies it
    ensures ItemRead(it, err, item, nestingLevel)
    decreases |it.buf| - it.ptr, 1
  {
    ghost var d := nestingLevel;
    item := Simple(0);
    if it.typ == TAG_TYPE {
      err, item := ReadTagged(it, nestingLevel);
    } else if IsFixedType(it.typ) {
      ScalarAhead(it, LENIENT, d);
      hide Decode;
      item := ScalarValue(it);
      err := it.AdvanceFixed(LENIENT, d);
    } else if it.typ == BYTE_STRING_TYPE || it.typ == TEXT_STRING_TYPE {
      err, item := ReadString(it, d);
    } else if nestingLevel == 0 {
      ContainerAhead(it, LENIENT, d);
      it.TailIsItemThenRest(LENIENT, d);
      hide Decode;
      err := NestingTooDeep;
    } else {
      err, item := ReadContainer(it, nestingLevel);
    }
  }

  method ReadTagged(it: Value, nestingLevel: nat) returns (err: CborError, item: Item)
    requires it.Valid() && it.remaining > 0 && it.typ == TAG_TYPE
    modifies it
    ensures ItemRead(it, err, item, nestingLevel)
    decreases |it.buf| - it.ptr, 0
  {
    hide Decode, DecodeMany, DecodeUntilBreak, ReadHeader, ShortestForm;
    ghost var d := nestingLevel;
    item := Simple(0);
    TagAhead(it, LENIENT, d);
    it.TailIsItemThenRest(LENIENT, d);
    ghost var r := Decode(it.buf, it.ptr + it.Current().size, LENIENT, d);
    ghost var after := if r.Some? then it.AfterItem(r.value.1, LENIENT, d) else None;
    var tag := it.ExtractNumber();
    err := it.AdvanceFixed(LENIENT, d);
    if err != NoError { return; }
    var inner;
    err, inner := ReadItem(it, nestingLevel);
    if err != NoError { return; }
    PrependInjective(inner, after, it.Tail(LENIENT, d));
    item := Tagged(tag, inner);
  }

  method ReadString(it: Value, ghost d: nat) returns (err: CborError, item: Item)
    requires it.Valid() && it.remaining > 0 && (it.typ == BYTE_STRING_TYPE || it.typ == TEXT_STRING_TYPE)
    modifies it
    ensures ItemRead(it, err, item, d)
  {
    hide Decode, DecodeMany, DecodeUntilBreak;
    var copy := new Value.Copy(it);
    var typ, n := it.typ, 0;
    item := Simple(0);
    ghost var s, s';
    err, n, s := CopyString(copy, null, 0, SIZE_MAX, d);
    if err != NoError { return; }
    var bytes := new byte[n];
    err, n, s' := CopyString(it, bytes, 0, n, d);
    if err == NoError || err == OutOfMemory {
      assert StringItem(typ, s') == StringItem(typ, s);
    }
    assert bytes[..] == bytes[0..bytes.Length];
    item := StringItem(typ, bytes[..]);
  }

  method ReadContainer(it: Value, nestingLevel: nat) returns (err: CborError, item: Item)
    requires it.IsContainer() && nestingLevel > 0
    modifies it
    ensures ItemRead(it, err, item, nestingLevel)
    decreases |it.buf| - it.ptr, 0
  {
    hide Decode, DecodeContent, DecodeMany, DecodeUntilBreak, ReadHeader, ShortestForm;
    ghost var d := nestingLevel;
    item := Simple(0);
    ContainerAhead(it, LENIENT, d);
    it.TailIsItemThenRest(LENIENT, d);
    ghost var content := DecodeContent(it.buf, it.ptr, it.Current(), LENIENT, d - 1);
    var recursed;
    err, recursed := it.EnterContainer(LENIENT, d - 1);
    if err != NoError { return; }
    var items := [];
    PrependNothing(content);
    while recursed.remaining != 0
      invariant recursed.Valid() && recursed.ptr > it.ptr
      invariant content == PrependAll(items, recursed.Tail(LENIENT, d - 1))
      modifies recursed
      decreases |it.buf| - recursed.ptr
    {
      ghost var before := recursed.Tail(LENIENT, d - 1);
      var x;
      err, x := ReadItem(recursed, nestingLevel - 1);
      if err != NoError { return; }
      PrependAllStep(items, x, recursed.Tail(LENIENT, d - 1));
      items := items + [x];
    }
    var typ := it.typ;
    err := it.LeaveContainer(recursed, LENIENT, d);
    assert items + [] == items;
    item := Container(typ / 32, items);
  }

  lemma PrependNothing(r: Decoded<seq<Item>>)
    ensures PrependAll([], r) == r
  {
    if r.Some? { assert [] + r.value.0 == r.value.0; }
  }
}
