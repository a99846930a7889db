/**
 * cbor_value_validate under the flags for shortest integrals, no indeterminate lengths and
 * complete data. Its reader is the decoder that counts tags as nesting; with all three flags
 * it accepts exactly the canonical encodings.
 */
module CborValidation {
  import opened Bytes
  import opened CborFormat
  import opened CborParser
  import opened CborTraversal

  datatype ValidationFlags = ValidationFlags(
    shortestIntegrals: bool, noIndeterminateLength: bool, completeData: bool)

  function ModeOf(flags: ValidationFlags): Mode {
    Mode(flags.shortestIntegrals, flags.noIndeterminateLength, true)
  }

  // validate_number: whether the argument at ptr uses no more bytes than it needs.
  method ValidateNumber(buf: seq<byte>, ptr: nat, typ: byte, flags: ValidationFlags) returns (err: CborError)
    requires ReadHeader(buf, ptr).Some? && ReadHeader(buf, ptr).value.info != 31
    ensures err == NoError <==>
      (flags.shortestIntegrals && !(HALF_FLOAT_TYPE <= typ <= DOUBLE_TYPE) ==> ShortestForm(ReadHeader(buf, ptr).value))
    ensures err == NoError || err == OverlongEncoding
  {
    if !flags.shortestIntegrals { return NoError; }
    if HALF_FLOAT_TYPE <= typ <= DOUBLE_TYPE { return NoError; }
    var bytesUsed := ArgumentSize(buf[ptr] % 32);
    var value := if bytesUsed == 0 then buf[ptr] % 32 else FromBigEndian(buf[ptr + 1..ptr + 1 + bytesUsed]);
    var bytesNeeded := 0;
    if value >= 24 { bytesNeeded := bytesNeeded + 1; }
    if value > UINT8_MAX { bytesNeeded := bytesNeeded + 1; }
    if value > UINT16_MAX { bytesNeeded := bytesNeeded + 2; }
    if value > UINT32_MAX { bytesNeeded := bytesNeeded + 4; }
    return if bytesNeeded < bytesUsed then OverlongEncoding else NoError;
  }

  // What validating one item must achieve. The item may use di nesting levels; dr is how
  // deep the items after it may go.
  twostate predicate ItemValidated(it: Value, err: CborError, item: Item, m: Mode, di: nat, dr: nat)
    requires old(it.Valid()) && old(it.remaining) > 0
    reads it
  {
    var r := old(Decode(it.buf, it.ptr, m, di));
    if err == NoError then
      && it.Valid() && it.ptr > old(it.ptr) && it.PastItem()
      && r == Some((item, it.ptr))
      && it.Tail(m, dr) == old(it.AfterItem(r.value.1, m, dr))
    else r == None || old(it.AfterItem(r.value.1, m, dr)) == None
  }

  method ValidateValue(it: Value, flags: ValidationFlags, recursionLeft: nat, ghost dr: nat)
      returns (err: CborError, ghost item: Item)
    requires it.Valid() && it.remaining > 0 && recursionLeft > 0
    modifies it
    ensures ItemValidated(it, err, item, ModeOf(flags), recursionLeft - 1, dr)
    decreases |it.buf| - it.ptr, 2
  {
    ghost var m, d := ModeOf(flags), recursionLeft - 1;
    hide Decode, DecodeMany, DecodeUntilBreak, ReadHeader, ShortestForm, TypeOf;
    item := Simple(0);
    if !HeaderAllowed(it.Current(), m) { RefusedHead(it, m, d); }
    if !it.unknownLength {
      FloatByType(it);
      err := ValidateNumber(it.buf, it.ptr, it.typ, flags);
      if err != NoError { return; }
    } else if flags.noIndeterminateLength {
      return UnknownLength, item;
    }
    if it.typ == ARRAY_TYPE || it.typ == MAP_TYPE {
      err, item := ValidateRecursive(it, flags, recursionLeft, dr);
    } else if it.typ == BYTE_STRING_TYPE || it.typ == TEXT_STRING_TYPE {
      err, item := ValidateString(it, flags, d, dr);
    } else if it.typ == TAG_TYPE {
      err, item := ValidateTag(it, flags, recursionLeft, dr);
    } else {
      err, item := ValidateScalar(it, flags, d, dr);
    }
  }

  lemma RefusedHead(it: Value, m: Mode, d: nat)
    requires it.Valid() && it.remaining > 0 && !HeaderAllowed(it.Current(), m)
    ensures Decode(it.buf, it.ptr, m, d) == None
  {
  }

  // The types of floating-point numbers are those of their heads.
  lemma FloatByType(it: Value)
    requires it.Valid() && it.remaining > 0 && !it.unknownLength
    ensures var h := it.Current(); HALF_FLOAT_TYPE <= it.typ <= DOUBLE_TYPE <==> h.major == 7 && h.info >= 25
  {
  }

  method ValidateScalar(it: Value, flags: ValidationFlags, ghost d: nat, ghost dr: nat)
      returns (err: CborError, ghost item: Item)
    requires it.Valid() && it.remaining > 0 && IsFixedType(it.typ) && it.typ != TAG_TYPE
    requires HeaderAllowed(it.Current(), ModeOf(flags))
    modifies it
    ensures ItemValidated(it, err, item, ModeOf(flags), d, dr)
  {
    hide Decode, DecodeMany, DecodeUntilBreak, ReadHeader, ShortestForm;
    ghost var m := ModeOf(flags);
    ScalarAhead(it, m, d);
    item := ScalarItem(it.Current());
    err := it.AdvanceFixed(m, dr);
  }

  method ValidateTag(it: Value, flags: ValidationFlags, recursionLeft: nat, ghost dr: nat)
      returns (err: CborError, ghost item: Item)
    requires it.Valid() && it.remaining > 0 && it.typ == TAG_TYPE && recursionLeft > 0
    requires HeaderAllowed(it.Current(), ModeOf(flags))
    modifies it
    ensures ItemValidated(it, err, item, ModeOf(flags), recursionLeft - 1, dr)
    decreases |it.buf| - it.ptr, 1
  {
    ghost var m, d := ModeOf(flags), recursionLeft - 1;
    ghost var tag := it.Current().arg;
    hide Decode, DecodeMany, DecodeUntilBreak, ReadHeader, ShortestForm, TypeOf;
    item := Simple(0);
    TagAhead(it, m, d);
    err := it.AdvanceFixed(m, dr);
    if err == NoError && recursionLeft == 1 { err := NestingTooDeep; }
    if err != NoError {
      if d > 0 && !HeadReadable(it.buf, it.ptr) { UnreadableHead(it.buf, it.ptr, m, d - 1); }
      return;
    }
    ghost var inner;
    err, inner := ValidateValue(it, flags, recursionLeft - 1, dr);
    item := Tagged(tag, inner);
  }

  method ValidateString(it: Value, flags: ValidationFlags, ghost d: nat, ghost dr: nat)
      returns (err: CborError, ghost item: Item)
    requires it.Valid() && it.remaining > 0 && (it.typ == BYTE_STRING_TYPE || it.typ == TEXT_STRING_TYPE)
    requires HeaderAllowed(it.Current(), ModeOf(flags))
    modifies it
    ensures ItemValidated(it, err, item, ModeOf(flags), d, dr)
  {
    ghost var m := ModeOf(flags);
    StringAhead(it, m, d);
    hide Decode, DecodeString, DecodeChunks;
    it.BeginStringIteration(m);
    ghost var s;
    err, s := ValidateChunks(it, flags);
    item := StringItem(it.typ, s);
    if err != NoError { return; }
    err := it.FinishStringIteration(m, dr);
  }

  // One turn of the chunk loop in validate_value: the chunk passed, or the end of the string.
  method ValidateChunk(it: Value, flags: ValidationFlags) returns (err: CborError, ghost chunk: seq<byte>)
    requires it.InString()
    requires !it.unknownLength && it.flag04 && flags.shortestIntegrals ==>
      ShortestForm(ReadHeader(it.buf, it.ptr).value)
    modifies it
    ensures it.SamePlace()
    ensures err == NoError ==>
      && it.InString() && it.ptr > old(it.ptr) && !it.flag04
      && old(it.Chunks(ModeOf(flags))) == PrependBytes(chunk, it.Chunks(ModeOf(flags)))
    ensures err == NoMoreStringChunks ==>
      && it.InString() && it.ptr == old(it.ptr) && it.EndPosition() <= |it.buf|
      && old(it.Chunks(ModeOf(flags))) == Some(([], it.EndPosition()))
    ensures err != NoError && err != NoMoreStringChunks ==> old(it.Chunks(ModeOf(flags))) == None
  {
    hide ReadHeader, ShortestForm;
    ghost var m := ModeOf(flags);
    chunk := [];
    var next := new Value.Copy(it);
    var start, len;
    err, start, len := next.GetStringChunk(m);
    if err == NoError {
      err := ValidateNumber(it.buf, it.ptr, it.typ, flags);
      if err != NoError {
        ChunkAhead(it.buf, it.ptr, it.typ / 32, m);
        return;
      }
      chunk := it.buf[start..start + len];
    }
    it.Assign(next);
  }

  method ValidateChunks(it: Value, flags: ValidationFlags) returns (err: CborError, ghost s: seq<byte>)
    requires it.InString()
    requires !it.unknownLength && it.flag04 && flags.shortestIntegrals ==>
      ShortestForm(ReadHeader(it.buf, it.ptr).value)
    modifies it
    ensures it.SamePlace()
    ensures if err == NoError then
        && it.InString() && it.ptr >= old(it.ptr) && it.EndPosition() <= |it.buf|
        && old(it.Chunks(ModeOf(flags))) == Some((s, it.EndPosition()))
      else old(it.Chunks(ModeOf(flags))) == None
  {
    hide ReadHeader, ShortestForm, DecodeString, DecodeChunks;
    ghost var m := ModeOf(flags);
    ghost var whole := it.Chunks(m);
    s := [];
    assert whole == PrependBytes(s, it.Chunks(m)) by {
      if whole.Some? { assert [] + whole.value.0 == whole.value.0; }
    }
    while true
      invariant it.InString() && it.SamePlace() && it.ptr >= old(it.ptr)
      invariant whole == PrependBytes(s, it.Chunks(m))
      invariant !it.unknownLength && it.flag04 && m.shortest ==> ShortestForm(ReadHeader(it.buf, it.ptr).value)
      decreases |it.buf| - it.ptr
    {
      ghost var chunk;
      err, chunk := ValidateChunk(it, flags);
      if err == NoMoreStringChunks { break; }
      if err != NoError { return; }
      PrependBytesTwice(s, chunk, it.Chunks(m));
      s := s + chunk;
    }
    assert s + [] == s;
    err := NoError;
  }

  method ValidateRecursive(it: Value, flags: ValidationFlags, recursionLeft: nat, ghost dr: nat)
      returns (err: CborError, ghost item: Item)
    requires it.IsContainer() && recursionLeft > 0
    requires HeaderAllowed(it.Current(), ModeOf(flags))
    modifies it
    ensures ItemValidated(it, err, item, ModeOf(flags), recursionLeft - 1, dr)
    decreases |it.buf| - it.ptr, 1
  {
    ghost var m, d := ModeOf(flags), recursionLeft - 1;
    ghost var typ := it.typ;
    item := Simple(0);
    ContainerAhead(it, m, d);
    hide Decode, DecodeContent, DecodeMany, DecodeUntilBreak;
    var recursed;
    ghost var d' := if d > 0 then d - 1 else 0;
    err, recursed := it.EnterContainer(m, d');
    ghost var items := [];
    if err == NoError {
      err, items := ValidateContainer(recursed, it.typ == MAP_TYPE, flags, recursionLeft - 1);
    }
    if err != NoError {
      it.ptr := recursed.ptr;
      return;
    }
    err := it.LeaveContainer(recursed, m, dr);
    item := Container(typ / 32, items);
  }

  method ValidateContainer(it: Value, isMap: bool, flags: ValidationFlags, recursionLeft: nat)
      returns (err: CborError, ghost items: seq<Item>)
    requires it.Valid() && it.AtPairs(isMap)
    modifies it
    ensures recursionLeft == 0 ==> err == NestingTooDeep
    ensures recursionLeft > 0 ==>
      if err == NoError then
        && it.Valid() && it.remaining == 0
        && old(it.Tail(ModeOf(flags), recursionLeft - 1)) == Some((items, it.EndPosition()))
      else old(it.Tail(ModeOf(flags), recursionLeft - 1)) == None
    decreases |it.buf| - it.ptr, 4
  {
    items := [];
    if recursionLeft == 0 { return NestingTooDeep, items; }
    ghost var m, d := ModeOf(flags), recursionLeft - 1;
    hide Decode, DecodeMany, DecodeUntilBreak;
    ghost var whole := it.Tail(m, d);
    PrependNothing(whole);
    while it.remaining != 0
      invariant it.Valid() && it.ptr >= old(it.ptr) && it.AtPairs(isMap)
      invariant whole == PrependAll(items, it.Tail(m, d))
      decreases |it.buf| - it.ptr
    {
      err, items := ValidateChild(it, flags, recursionLeft, whole, items);
      if err != NoError { return; }
      if isMap {
        err, items := ValidateChild(it, flags, recursionLeft, whole, items);
        if err != NoError { return; }
      }
    }
    assert items + [] == items;
    err := NoError;
  }

  // One child of a container whose items decode to whole, those before it being items.
  method ValidateChild(it: Value, flags: ValidationFlags, recursionLeft: nat, ghost whole: Decoded<seq<Item>>,
                       ghost items: seq<Item>) returns (err: CborError, ghost items': seq<Item>)
    requires it.Valid() && it.remaining > 0 && recursionLeft > 0
    requires whole == PrependAll(items, it.Tail(ModeOf(flags), recursionLeft - 1))
    modifies it
    ensures if err == NoError then
        && it.Valid() && it.ptr > old(it.ptr) && it.PastItem()
        && whole == PrependAll(items', it.Tail(ModeOf(flags), recursionLeft - 1))
      else whole == None
    decreases |it.buf| - it.ptr, 3
  {
    ghost var m, d := ModeOf(flags), recursionLeft - 1;
    hide Decode, DecodeMany, DecodeUntilBreak;
    it.TailIsItemThenRest(m, d);
    ghost var x;
    items' := items;
    err, x := ValidateValue(it, flags, recursionLeft, d);
    if err != NoError { return; }
    PrependAllStep(items, x, it.Tail(m, d));
    items' := items + [x];
  }

  // cbor_value_validate, which works on a copy of the iterator. Behind the last item of a container
  // it finds nothing to validate; before it, it also reads the head of the item to come, so it may
  // fail because what follows (to a nesting depth of dr) does not decode.
  method Validate(it: Value, flags: ValidationFlags, ghost dr: nat) returns (err: CborError)
    requires it.Valid()
    ensures it.remaining == 0 ==> err != NoError
    ensures it.remaining > 0 ==>
      var r := Decode(it.buf, it.ptr, ModeOf(flags), MAX_RECURSIONS - 1);
      if r.None? || (flags.completeData && r.value.1 < |it.buf|) then err != NoError
      else err == NoError || it.AfterItem(r.value.1, ModeOf(flags), dr) == None
  {
    if it.remaining == 0 { return UnknownType; }
    var value := new Value.Copy(it);
    hide Decode, DecodeMany, DecodeUntilBreak;
    ghost var item;
    err, item := ValidateValue(value, flags, MAX_RECURSIONS, dr);
    if err != NoError { return; }
    if flags.completeData && |value.buf| - value.ptr >= 1 { return GarbageAtEnd; }
  }

  // From a fresh iterator, where nothing has to follow.
  method ValidateFresh(buffer: seq<byte>, flags: ValidationFlags) returns (err: CborError)
    requires |buffer| <= SIZE_MAX
    ensures var r := Decode(buffer, 0, ModeOf(flags), MAX_RECURSIONS - 1);
      err == NoError <==> r.Some? && (flags.completeData ==> r.value.1 == |buffer|)
  {
    hide Decode;
    var it;
    err, it := ParserInit(buffer);
    if err != NoError {
      UnreadableHead(buffer, 0, ModeOf(flags), MAX_RECURSIONS - 1);
      return;
    }
    err := Validate(it, flags, 0);
  }

  /** With all three flags, a buffer validates exactly when it is the encoding of a readable
      item (tags counting as nesting). */
  method ValidateCanonical(buffer: seq<byte>) returns (err: CborError)
    requires |buffer| <= SIZE_MAX
    ensures err == NoError <==>
      exists x :: Encodable(x) && Readable(x, true, MAX_RECURSIONS - 1) && Encode(x) == buffer
  {
    var flags := ValidationFlags(true, true, true);
    var m := ModeOf(flags);
    forall x | Encodable(x) && Readable(x, true, MAX_RECURSIONS - 1) && Encode(x) == buffer
      ensures Decode(buffer, 0, m, MAX_RECURSIONS - 1) == Some((x, |buffer|))
    {
      assert buffer[0..0 + |buffer|] == buffer;
      CanonicalReaderAcceptsEncodings(buffer, 0, m, MAX_RECURSIONS - 1, x, |buffer|);
    }
    hide Decode;
    err := ValidateFresh(buffer, flags);
    ghost var r := Decode(buffer, 0, m, MAX_RECURSIONS - 1);
    if err == NoError {
      CanonicalReaderAcceptsEncodings(buffer, 0, m, MAX_RECURSIONS - 1, r.value.0, r.value.1);
      assert buffer[0..0 + |buffer|] == buffer;
      assert Encode(r.value.0) == buffer;
    }
  }
}
