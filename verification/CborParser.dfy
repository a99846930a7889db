/**
 * The pull parser: a CborValue is an iterator over the items of a buffer. Its methods are
 * specified by what is left to read (Tail): a step that succeeds preserves it, and a step
 * that fails does so only when nothing well formed can be read.
 */
module CborParser {
  import opened Bytes
  import opened CborFormat

  datatype CborError =
    | NoError | UnknownLength | AdvancePastEOF | GarbageAtEnd | UnexpectedEOF | UnexpectedBreak
    | UnknownType | IllegalType | IllegalNumber | IllegalSimpleType | NoMoreStringChunks
    | OverlongEncoding | TooManyItems | TooFewItems | DataTooLarge | NestingTooDeep | OutOfMemory

  // Iterator types are the initial bytes (or their major-type part) of the items they stand for.
  const INTEGER_TYPE := 0x00
  const BYTE_STRING_TYPE := 0x40
  const TEXT_STRING_TYPE := 0x60
  const ARRAY_TYPE := 0x80
  const MAP_TYPE := 0xa0
  const TAG_TYPE := 0xc0
  const SIMPLE_TYPE := 0xe0
  const BOOLEAN_TYPE := 0xf5
  const HALF_FLOAT_TYPE := 0xf9
  const FLOAT_TYPE := 0xfa
  const DOUBLE_TYPE := 0xfb
  const INVALID_TYPE := 0xff
  const BREAK_BYTE := 0xff

  const MAX_RECURSIONS := 1024

  // The reader behind cbor_value_advance: any well-formed encoding, tags do not nest.
  const LENIENT := Mode(false, false, false)

  predicate IsFixedType(t: byte) {
    t != TEXT_STRING_TYPE && t != BYTE_STRING_TYPE && t != ARRAY_TYPE && t != MAP_TYPE
  }

  // The iterator type of an item with initial byte b and header h.
  function TypeOf(h: Header, b: byte): byte {
    if h.major <= 1 then INTEGER_TYPE
    else if h.major < 7 then b / 32 * 32
    else if h.info == 20 then BOOLEAN_TYPE
    else if 21 <= h.info <= 23 || 25 <= h.info <= 27 then b
    else SIMPLE_TYPE
  }

  predicate HeadReadable(buf: seq<byte>, p: nat) {
    ReadHeader(buf, p).Some? && HeaderAllowed(ReadHeader(buf, p).value, LENIENT)
  }

  // What the initial byte tells about the head.
  lemma HeadAt(buf: seq<byte>, p: nat)
    ensures var h := ReadHeader(buf, p);
      if p >= |buf| || 28 <= buf[p] % 32 <= 30 then h == None
      else
        var info := buf[p] % 32;
        if info <= 27 && p + 1 + ArgumentSize(info) > |buf| then h == None
        else
          && h.Some? && h.value.major == buf[p] / 32 && h.value.info == info
          && (info < 24 ==> h.value.arg == info)
          && (24 <= info <= 27 ==> h.value.arg == FromBigEndian(buf[p + 1..p + 1 + ArgumentSize(info)]))
  {
    hide FromBigEndian;
  }

  class Value {
    const buf: seq<byte>
    var ptr: nat
    var remaining: nat     // items left in this container, or UINT32_MAX when unknown
    var extra: nat
    var typ: byte
    // the iterator's flags, one field a bit
    var is64Bit: bool
    var tooLarge: bool
    var flag04: bool       // NegativeInteger, or BeforeFirstStringChunk while iterating a string
    var iteratingChunks: bool
    var unknownLength: bool
    var containerIsMap: bool
    var nextIsMapKey: bool

    constructor Copy(it: Value)
      ensures buf == it.buf && ptr == it.ptr && remaining == it.remaining && extra == it.extra && typ == it.typ
      ensures is64Bit == it.is64Bit && tooLarge == it.tooLarge && flag04 == it.flag04
      ensures iteratingChunks == it.iteratingChunks && unknownLength == it.unknownLength
      ensures containerIsMap == it.containerIsMap && nextIsMapKey == it.nextIsMapKey
    {
      buf, ptr, remaining, extra, typ := it.buf, it.ptr, it.remaining, it.extra, it.typ;
      is64Bit, tooLarge, flag04, iteratingChunks := it.is64Bit, it.tooLarge, it.flag04, it.iteratingChunks;
      unknownLength, containerIsMap, nextIsMapKey := it.unknownLength, it.containerIsMap, it.nextIsMapKey;
    }

    constructor Start(buffer: seq<byte>)
      ensures buf == buffer && ptr == 0 && remaining == 1
      ensures !unknownLength && !containerIsMap && !nextIsMapKey
    {
      buf, ptr, remaining, extra, typ := buffer, 0, 1, 0, INVALID_TYPE;
      is64Bit, tooLarge, flag04, iteratingChunks := false, false, false, false;
      unknownLength, containerIsMap, nextIsMapKey := false, false, false;
    }

    // *this = *it
    method Assign(it: Value)
      requires buf == it.buf
      modifies this
      ensures ptr == it.ptr && remaining == it.remaining && extra == it.extra && typ == it.typ
      ensures is64Bit == it.is64Bit && tooLarge == it.tooLarge && flag04 == it.flag04
      ensures iteratingChunks == it.iteratingChunks && unknownLength == it.unknownLength
      ensures containerIsMap == it.containerIsMap && nextIsMapKey == it.nextIsMapKey
    {
      ptr, remaining, extra, typ := it.ptr, it.remaining, it.extra, it.typ;
      AssignFlags(it);
    }

    method AssignFlags(it: Value)
      modifies this`is64Bit, this`tooLarge, this`flag04, this`iteratingChunks
      modifies this`unknownLength, this`containerIsMap, this`nextIsMapKey
      ensures is64Bit == it.is64Bit && tooLarge == it.tooLarge && flag04 == it.flag04
      ensures iteratingChunks == it.iteratingChunks && unknownLength == it.unknownLength
      ensures containerIsMap == it.containerIsMap && nextIsMapKey == it.nextIsMapKey
    {
      is64Bit, tooLarge, flag04, iteratingChunks := it.is64Bit, it.tooLarge, it.flag04, it.iteratingChunks;
      unknownLength, containerIsMap, nextIsMapKey := it.unknownLength, it.containerIsMap, it.nextIsMapKey;
    }

    // ----- What the fields mean -----

    ghost predicate Parsed()
      reads this
    {
      var h := ReadHeader(buf, ptr);
      && HeadReadable(buf, ptr)
      && typ == TypeOf(h.value, buf[ptr])
      && unknownLength == (h.value.info == 31)
      && is64Bit == (h.value.info == 27)
      && tooLarge == (26 <= h.value.info <= 27)
      && flag04 == (h.value.major == 1)
      && (h.value.info < 26 ==> extra == if h.value.major == 7 && h.value.info == 20 then 0 else h.value.arg)
    }

    ghost predicate Valid()
      reads this
    {
      && ptr <= |buf| <= SIZE_MAX && remaining <= UINT32_MAX
      && (if remaining > 0 then Parsed()
          else typ == INVALID_TYPE && (unknownLength ==> ptr < |buf| && buf[ptr] == BREAK_BYTE))
    }

    ghost function Current(): Header
      requires Valid() && remaining > 0
      reads this
    {
      ReadHeader(buf, ptr).value
    }

    // The items still to come in the container this iterator walks, and where they end.
    ghost function Tail(m: Mode, d: nat): Decoded<seq<Item>>
      requires Valid()
      reads this
    {
      if remaining == 0 then Some(([], EndPosition()))
      else if remaining == UINT32_MAX then DecodeUntilBreak(buf, ptr, containerIsMap, nextIsMapKey, m, d)
      else DecodeMany(buf, ptr, remaining, m, d)
    }

    ghost function EndPosition(): nat
      reads this
    {
      if unknownLength then ptr + 1 else ptr
    }

    // The items still to come once the current item turns out to end at e.
    ghost function AfterItem(e: nat, m: Mode, d: nat): Decoded<seq<Item>>
      requires e <= |buf| && remaining > 0
      reads this
    {
      if remaining == UINT32_MAX then DecodeUntilBreak(buf, e, containerIsMap, !nextIsMapKey, m, d)
      else DecodeMany(buf, e, remaining - 1, m, d)
    }

    // The items still to come when an item (not a break) must start at q.
    ghost function ItemThenRest(q: nat, m: Mode, d: nat): Decoded<seq<Item>>
      requires q <= |buf| && remaining > 0
      reads this
    {
      var r := Decode(buf, q, m, d);
      if r.None? then None else Prepend(r.value.0, AfterItem(r.value.1, m, d))
    }

    // How passing an item counts: down in a container of known size; elsewhere a map key
    // and its value take turns, and the end cannot come in between.
    twostate predicate PastItem()
      reads this
    {
      && containerIsMap == old(containerIsMap)
      && (remaining > 0 ==> nextIsMapKey == !old(nextIsMapKey))
      && if old(remaining) < UINT32_MAX then
           remaining == old(remaining) - 1 && (remaining == 0 ==> !unknownLength)
         else
           remaining == UINT32_MAX || (remaining == 0 && !(containerIsMap && !old(nextIsMapKey)))
    }

    // Passing a tag does not count.
    twostate predicate PastTag()
      reads this
    {
      && remaining == old(remaining)
      && containerIsMap == old(containerIsMap) && nextIsMapKey == old(nextIsMapKey)
    }

    lemma TailIsItemThenRest(m: Mode, d: nat)
      requires Valid() && remaining > 0
      ensures Tail(m, d) == ItemThenRest(ptr, m, d)
      ensures buf[ptr] != BREAK_BYTE
    {
    }

    // ----- Reading one head -----

    // The number after the initial byte; one of four or eight bytes is left where it is.
    method ReadArgument(descriptor: byte) returns (err: CborError)
      requires ptr < |buf| && descriptor == buf[ptr] % 32 <= 27 && extra == descriptor && !tooLarge && !is64Bit
      modifies this`extra, this`tooLarge, this`is64Bit
      ensures err == if ReadHeader(buf, ptr).Some? then NoError else UnexpectedEOF
      ensures err == NoError ==>
        var h := ReadHeader(buf, ptr).value;
        h.info == descriptor && h.major == buf[ptr] / 32 && (descriptor < 26 ==> extra == h.arg)
      ensures err == NoError ==> is64Bit == (descriptor == 27) && tooLarge == (26 <= descriptor)
    {
      hide BigEndian, FromBigEndian, ReadHeader;
      HeadAt(buf, ptr);
      var bytesNeeded := ArgumentSize(descriptor);
      if bytesNeeded > 0 {
        if |buf| - ptr < bytesNeeded + 1 { return UnexpectedEOF; }
        extra := 0;
        if bytesNeeded <= 2 {
          extra := FromBigEndian(buf[ptr + 1..ptr + 1 + bytesNeeded]);
        } else {
          tooLarge, is64Bit := true, descriptor == 27;
        }
      }
      return NoError;
    }

    // The last part of preparse_value: negative integers, simple values and floats get their types.
    method SettleType(descriptor: byte) returns (err: CborError)
      requires ReadHeader(buf, ptr).Some? && descriptor == buf[ptr] % 32 <= 27 && typ == buf[ptr] / 32 * 32
      requires var h := ReadHeader(buf, ptr).value;
        h.info == descriptor && h.major == buf[ptr] / 32 && (descriptor < 26 ==> extra == h.arg)
      requires !unknownLength && !flag04 && is64Bit == (descriptor == 27) && tooLarge == (26 <= descriptor)
      modifies this`typ, this`extra, this`tooLarge, this`flag04
      ensures err == NoError <==> HeadReadable(buf, ptr)
      ensures if err == NoError then Parsed() else err == IllegalSimpleType
    {
      hide ReadHeader, ShortestForm;
      if typ == 0x20 {
        flag04 := true;
        typ := INTEGER_TYPE;
      } else if typ == SIMPLE_TYPE {
        if descriptor == 20 {
          extra := 0;
          typ := BOOLEAN_TYPE;
        } else if 21 <= descriptor <= 23 || 25 <= descriptor <= 27 {
          tooLarge := tooLarge || 26 <= descriptor;
          typ := buf[ptr];
        } else if descriptor == 24 && extra < 32 {
          typ := INVALID_TYPE;
          return IllegalSimpleType;
        }
      }
      return NoError;
    }

    method PreparseValue() returns (err: CborError)
      requires ptr <= |buf|
      modifies this
      ensures err != OutOfMemory
      ensures ptr == old(ptr) && remaining == old(remaining)
      ensures containerIsMap == old(containerIsMap) && nextIsMapKey == old(nextIsMapKey)
      ensures err == NoError <==> HeadReadable(buf, ptr)
      ensures err == NoError ==> Parsed()
    {
      hide BigEndian, FromBigEndian, ShortestForm, ReadHeader;
      HeadAt(buf, ptr);
      typ := INVALID_TYPE;
      is64Bit, tooLarge, flag04, iteratingChunks, unknownLength := false, false, false, false, false;
      if ptr >= |buf| { return UnexpectedEOF; }
      var descriptor := buf[ptr] % 32;
      typ := buf[ptr] / 32 * 32;
      extra := descriptor;
      if descriptor > 27 {
        if descriptor != 31 { return if typ == SIMPLE_TYPE then UnknownType else IllegalNumber; }
        if !IsFixedType(typ) {
          unknownLength := true;
          return NoError;
        }
        return if typ == SIMPLE_TYPE then UnexpectedBreak else IllegalNumber;
      }
      err := ReadArgument(descriptor);
      if err != NoError { return; }
      err := SettleType(descriptor);
    }

    // The argument of the current head.
    method ExtractNumber() returns (v: nat)
      requires Valid() && remaining > 0 && !unknownLength && typ != BOOLEAN_TYPE
      ensures v == Current().arg
    {
      if tooLarge {
        v := FromBigEndian(buf[ptr + 1..ptr + 1 + if is64Bit then 8 else 4]);
      } else {
        v := extra;
      }
    }

    // Moves to whatever follows the item (or tag head) that ends at ptr.
    method PreparseNextValueNoDecrement(ghost m: Mode, ghost d: nat) returns (err: CborError)
      requires ptr <= |buf| <= SIZE_MAX && 0 < remaining <= UINT32_MAX
      modifies this
      ensures ptr == old(ptr) && err != OutOfMemory
      ensures containerIsMap == old(containerIsMap) && nextIsMapKey == old(nextIsMapKey)
      ensures remaining == old(remaining) || (old(remaining) == UINT32_MAX && remaining == 0)
      ensures err == NoError && remaining == 0 ==> !(containerIsMap && nextIsMapKey) && old(typ) != TAG_TYPE
      ensures err == NoError ==> Valid()
      ensures old(typ) == TAG_TYPE ==>
        && (err == NoError <==> HeadReadable(buf, ptr))
        && if err == NoError then PastTag() && Tail(m, d) == old(ItemThenRest(ptr, m, d))
           else old(ItemThenRest(ptr, m, d)) == None
      ensures old(typ) != TAG_TYPE && old(remaining) == UINT32_MAX ==>
        var r := DecodeUntilBreak(buf, ptr, old(containerIsMap), old(nextIsMapKey), m, d);
        if err == NoError then Tail(m, d) == r else r == None
      ensures old(typ) != TAG_TYPE && old(remaining) < UINT32_MAX ==>
        var r := DecodeMany(buf, ptr, old(remaining), m, d);
        if err == NoError then Tail(m, d) == r else r == None
    {
      if remaining == UINT32_MAX && ptr < |buf| && buf[ptr] == BREAK_BYTE {
        if (containerIsMap && nextIsMapKey) || typ == TAG_TYPE { return UnexpectedBreak; }
        typ := INVALID_TYPE;
        remaining := 0;
        unknownLength := true;
        return NoError;
      }
      err := PreparseValue();
    }

    method PreparseNextValue(ghost m: Mode, ghost d: nat) returns (err: CborError)
      requires ptr <= |buf| <= SIZE_MAX && 0 < remaining <= UINT32_MAX
      modifies this
      ensures ptr == old(ptr) && err != OutOfMemory
      ensures err == NoError ==> Valid()
      ensures old(typ) == TAG_TYPE ==>
        && (err == NoError <==> HeadReadable(buf, ptr))
        && if err == NoError then PastTag() && Tail(m, d) == old(ItemThenRest(ptr, m, d))
           else old(ItemThenRest(ptr, m, d)) == None
      ensures old(typ) != TAG_TYPE ==>
        if err == NoError then Tail(m, d) == old(AfterItem(ptr, m, d)) else old(AfterItem(ptr, m, d)) == None
      ensures old(typ) != TAG_TYPE && err == NoError ==> PastItem()
    {
      var itemCounts := typ != TAG_TYPE;
      if remaining != UINT32_MAX && itemCounts {
        remaining := remaining - 1;
        if remaining == 0 {
          typ := INVALID_TYPE;
          unknownLength := false;
          return NoError;
        }
      }
      if itemCounts { nextIsMapKey := !nextIsMapKey; }
      err := PreparseNextValueNoDecrement(m, d);
    }

    method AdvanceFixed(ghost m: Mode, ghost d: nat) returns (err: CborError)
      requires Valid() && remaining > 0 && IsFixedType(typ)
      modifies this
      ensures err == NoError ==> Valid()
      ensures ptr == old(ptr) + old(Current().size)
      ensures old(typ) == TAG_TYPE ==>
        && (err == NoError <==> HeadReadable(buf, ptr))
        && if err == NoError then PastTag() && Tail(m, d) == old(ItemThenRest(ptr + Current().size, m, d))
           else old(ItemThenRest(ptr + Current().size, m, d)) == None
      ensures old(typ) != TAG_TYPE ==>
        if err == NoError then Tail(m, d) == old(AfterItem(ptr + Current().size, m, d))
        else old(AfterItem(ptr + Current().size, m, d)) == None
      ensures old(typ) != TAG_TYPE && err == NoError ==> PastItem()
    {
      ptr := ptr + ArgumentSize(buf[ptr] % 32) + 1;
      err := PreparseNextValue(m, d);
    }

    // ----- Containers -----

    ghost predicate IsContainer()
      reads this
    {
      Valid() && remaining > 0 && (typ == ARRAY_TYPE || typ == MAP_TYPE)
    }

    // Between two pairs of a map, or anywhere in an array.
    ghost predicate AtPairs(isMap: bool)
      reads this
    {
      isMap ==>
        if remaining == UINT32_MAX then containerIsMap && !nextIsMapKey else remaining % 2 == 0
    }

    // How many items the current container announces. Counts that do not fit the iterator,
    // or would read as "unknown", are refused.
    method ContainerCount(ghost m: Mode, ghost d: nat) returns (err: CborError, n: nat)
      requires IsContainer() && !unknownLength
      ensures err == NoError ==>
        && n < UINT32_MAX && (typ == MAP_TYPE ==> n % 2 == 0)
        && DecodeContent(buf, ptr, Current(), m, d) == DecodeMany(buf, ptr + Current().size, n, m, d)
      ensures err != NoError ==> DecodeContent(buf, ptr, Current(), m, d) == None
    {
      hide Decode, DecodeMany, DecodeUntilBreak;
      var len := ExtractNumber();
      if len >= UINT32_MAX { return DataTooLarge, len; }
      if typ == MAP_TYPE {
        if len > UINT32_MAX / 2 { return DataTooLarge, len; }
        return NoError, 2 * len;
      }
      return NoError, len;
    }

    // The flags of an iterator over a container's items, and the first of them.
    method BeginItems(ghost m: Mode, ghost d: nat) returns (err: CborError)
      requires ptr <= |buf| <= SIZE_MAX && 0 < remaining <= UINT32_MAX && (typ == ARRAY_TYPE || typ == MAP_TYPE)
      requires typ == MAP_TYPE && remaining < UINT32_MAX ==> remaining % 2 == 0
      modifies this
      ensures ptr == old(ptr)
      ensures err == NoError ==> Valid() && AtPairs(old(typ) == MAP_TYPE)
      ensures var r := if old(remaining) == UINT32_MAX
        then DecodeUntilBreak(buf, ptr, old(typ) == MAP_TYPE, false, m, d)
          else DecodeMany(buf, ptr, old(remaining), m, d);
        if err == NoError then Tail(m, d) == r else r == None
    {
      hide Decode, DecodeMany, DecodeUntilBreak, ReadHeader;
      is64Bit, tooLarge, flag04 := false, false, false;
      iteratingChunks, unknownLength, nextIsMapKey := false, false, false;
      containerIsMap := typ == MAP_TYPE;
      err := PreparseNextValueNoDecrement(m, d);
    }

    method EnterContainer(ghost m: Mode, ghost d: nat) returns (err: CborError, recursed: Value)
      requires IsContainer()
      ensures fresh(recursed) && recursed.buf == buf
      ensures err == NoError ==> recursed.Valid() && recursed.ptr > ptr && recursed.AtPairs(typ == MAP_TYPE)
      ensures var r := DecodeContent(buf, ptr, Current(), m, d);
        if err == NoError then recursed.Tail(m, d) == r else r == None
    {
      hide Decode, DecodeUntilBreak, FromBigEndian;
      recursed := new Value.Copy(this);
      if unknownLength {
        recursed.remaining := UINT32_MAX;
        recursed.ptr := recursed.ptr + 1;
      } else {
        var n;
        err, n := ContainerCount(m, d);
        if err != NoError { return; }
        recursed.ptr := recursed.ptr + ArgumentSize(buf[ptr] % 32) + 1;
        recursed.remaining := n;
        if n == 0 {
          recursed.typ := INVALID_TYPE;
          return;
        }
      }
      err := recursed.BeginItems(m, d);
    }

    method LeaveContainer(recursed: Value, ghost m: Mode, ghost d: nat) returns (err: CborError)
      requires IsContainer() && recursed != this
      requires recursed.buf == buf && recursed.Valid() && recursed.remaining == 0
      modifies this
      ensures ptr == recursed.EndPosition()
      ensures err == NoError ==> Valid()
      ensures if err == NoError then Tail(m, d) == old(AfterItem(recursed.EndPosition(), m, d))
              else old(AfterItem(recursed.EndPosition(), m, d)) == None
      ensures err == NoError ==> PastItem()
    {
      ptr := recursed.ptr;
      if recursed.unknownLength { ptr := ptr + 1; }
      err := PreparseNextValue(m, d);
    }

    // ----- Strings -----

    // Between _cbor_value_begin_string_iteration and _cbor_value_finish_string_iteration:
    // ptr is at the next chunk's head, or past the only chunk of a definite-length string.
    ghost predicate InString()
      reads this
    {
      && ptr <= |buf| <= SIZE_MAX && 0 < remaining <= UINT32_MAX
      && (typ == BYTE_STRING_TYPE || typ == TEXT_STRING_TYPE)
      && (!unknownLength && flag04 ==>
          var h := ReadHeader(buf, ptr); h.Some? && h.value.major == typ / 32 && h.value.info != 31)
    }

    // The bytes of the string still to come.
    ghost function Chunks(m: Mode): Decoded<seq<byte>>
      requires InString()
      reads this
    {
      if unknownLength then DecodeChunks(buf, ptr, typ / 32, m)
      else if flag04 then DecodeString(buf, ptr, ReadHeader(buf, ptr).value, m)
      else Some(([], ptr))
    }

    // The iterator's place among the items around it, which chunk iteration leaves alone.
    twostate predicate SamePlace()
      reads this
    {
      && remaining == old(remaining) && typ == old(typ) && unknownLength == old(unknownLength)
      && containerIsMap == old(containerIsMap) && nextIsMapKey == old(nextIsMapKey)
    }

    method BeginStringIteration(ghost m: Mode)
      requires Valid() && remaining > 0 && (typ == BYTE_STRING_TYPE || typ == TEXT_STRING_TYPE)
      modifies this
      ensures InString() && SamePlace() && ptr >= old(ptr) && (!unknownLength ==> ptr == old(ptr))
      ensures Chunks(m) == old(DecodeString(buf, ptr, Current(), m))
    {
      iteratingChunks, flag04 := true, true;
      if unknownLength { ptr := ptr + 1; }
    }

    // get_string_chunk_size: where the chunk at ptr starts and how long it is.
    method GetStringChunkSize(ghost m: Mode) returns (err: CborError, offset: nat, len: nat)
      requires InString()
      ensures err != OutOfMemory
      ensures err == NoError ==>
        var h := ReadHeader(buf, ptr);
        && h.Some? && h.value.major == typ / 32 && h.value.info != 31 && (unknownLength || flag04)
        && offset == h.value.size && len == h.value.arg
      ensures err == NoMoreStringChunks ==>
        EndPosition() <= |buf| && Chunks(m) == Some(([], EndPosition()))
      ensures err != NoError && err != NoMoreStringChunks ==> Chunks(m) == None
    {
      offset, len := 1, 0;
      if !unknownLength && !flag04 { return NoMoreStringChunks, offset, len; }
      if ptr >= |buf| { return UnexpectedEOF, offset, len; }
      if buf[ptr] == BREAK_BYTE { return NoMoreStringChunks, offset, len; }
      if buf[ptr] / 32 * 32 != typ { return IllegalType, offset, len; }
      var descriptor := buf[ptr] % 32;
      if descriptor > 27 { return IllegalNumber, offset, len; }
      len := descriptor;
      var bytesNeeded := ArgumentSize(descriptor);
      if bytesNeeded > 0 {
        if |buf| - ptr < 1 + bytesNeeded { return UnexpectedEOF, offset, len; }
        len := FromBigEndian(buf[ptr + 1..ptr + 1 + bytesNeeded]);
        if len > SIZE_MAX { return DataTooLarge, offset, len; }
        offset := offset + bytesNeeded;
      }
      return NoError, offset, len;
    }

    method GetStringChunk(ghost m: Mode) returns (err: CborError, start: nat, len: nat)
      requires InString()
      modifies this
      ensures SamePlace() && start + len <= |buf| && err != OutOfMemory
      ensures err == NoError ==>
        && InString() && ptr == start + len && start > old(ptr) && !flag04 && (unknownLength || old(flag04))
        && ReadHeader(buf, old(ptr)).Some? && ReadHeader(buf, old(ptr)).value.info != 31
        && ReadHeader(buf, old(ptr)).value.major == typ / 32
        && ((m.shortest ==> ShortestForm(ReadHeader(buf, old(ptr)).value)) ==>
            old(Chunks(m)) == PrependBytes(buf[start..start + len], Chunks(m)))
      ensures err == NoMoreStringChunks ==>
        && ptr == old(ptr) && flag04 == old(flag04) && InString() && EndPosition() <= |buf|
        && Chunks(m) == Some(([], EndPosition()))
      ensures err != NoError && err != NoMoreStringChunks ==> old(Chunks(m)) == None
    {
      hide ReadHeader, ShortestForm, DecodeChunks;
      var offset;
      start := 0;
      err, offset, len := GetStringChunkSize(m);
      if err != NoError {
        len := 0;
        return;
      }
      ChunkAhead(buf, ptr, typ / 32, m);
      ptr := ptr + offset;
      if |buf| - ptr < len { return UnexpectedEOF, 0, 0; }
      start := ptr;
      ptr := ptr + len;
      flag04 := false;
      assert buf[start..start + len] + [] == buf[start..start + len];
    }

    method FinishStringIteration(ghost m: Mode, ghost d: nat) returns (err: CborError)
      requires InString() && EndPosition() <= |buf|
      modifies this
      ensures ptr == old(EndPosition()) && err != OutOfMemory
      ensures err == NoError ==> Valid()
      ensures if err == NoError then Tail(m, d) == old(AfterItem(EndPosition(), m, d))
              else old(AfterItem(EndPosition(), m, d)) == None
      ensures err == NoError ==> PastItem()
    {
      if unknownLength { ptr := ptr + 1; }
      err := PreparseNextValue(m, d);
    }
  }

  lemma ChunkAhead(buf: seq<byte>, p: nat, major: nat, m: Mode)
    requires p < |buf| && ReadHeader(buf, p).Some?
    requires ReadHeader(buf, p).value.major == major && ReadHeader(buf, p).value.info != 31
    ensures var h := ReadHeader(buf, p).value;
      var start, end := p + h.size, p + h.size + h.arg;
      DecodeChunks(buf, p, major, m) ==
        if end > |buf| || (m.shortest && !ShortestForm(h)) then None
        else PrependBytes(buf[start..end], DecodeChunks(buf, end, major, m))
  {
    assert buf[p] != 0xff;
  }

  function PrependBytes(s: seq<byte>, r: Decoded<seq<byte>>): Decoded<seq<byte>> {
    if r.None? then None else Some((s + r.value.0, r.value.1))
  }
}
