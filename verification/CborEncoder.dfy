/**
 * The streaming encoder: it appends to a caller's buffer until the room runs out, and from
 * then on only counts the bytes it could not write.
 */
module CborEncoder {
  import opened Bytes
  import opened CborFormat
  import opened CborParser

  const INDEFINITE_LENGTH := SIZE_MAX

  class Encoder {
    const buffer: array<byte>
    const size: nat            // how many of the buffer's bytes the encoder may use
    var data: nat              // next byte to write; once end is gone, the bytes still needed
    var end: Option<nat>
    var remaining: nat         // 1 + items still missing in this container; never below 0
    var unknownLength: bool
    var containerIsMap: bool

    // Every byte appended so far, written or not, and the items added to this container.
    ghost var stream: seq<byte>
    ghost var expected: nat
    ghost var added: nat

    // What remaining means while this container is open.
    ghost predicate CountsItems()
      reads this
    {
      && remaining <= SIZE_MAX
      && (!unknownLength ==>
          expected < SIZE_MAX && remaining == if added <= expected then expected + 1 - added else 0)
    }

    ghost predicate Valid()
      reads this, buffer
    {
      && size <= buffer.Length && CountsItems()
      && (end == None || end == Some(size))
      && (end.Some? ==> data == |stream| <= size && buffer[..data] == stream)
      && (end.None? ==> data + size == |stream| && |stream| > size)
    }

    // Whether everything appended so far found room, in terms of the whole stream.
    ghost predicate AllFits()
      reads this
    {
      |stream| <= size
    }

    // The stream grew by s and this many items, and nothing past the room was touched.
    twostate predicate Grew(s: seq<byte>, items: nat)
      reads this, buffer
    {
      && Valid() && stream == old(stream) + s
      && unknownLength == old(unknownLength) && expected == old(expected) && added == old(added) + items
      && forall i :: size <= i < buffer.Length ==> buffer[i] == old(buffer[i])
    }

    twostate predicate Appended(s: seq<byte>, items: nat, err: CborError)
      reads this, buffer
    {
      Grew(s, items) && err == if AllFits() then NoError else OutOfMemory
    }

    constructor Init(buffer: array<byte>, size: nat)
      requires size <= buffer.Length
      ensures Valid() && this.buffer == buffer && this.size == size && stream == []
      ensures !unknownLength && expected == 1 && added == 0
    {
      this.buffer, this.size := buffer, size;
      data, end, remaining, unknownLength, containerIsMap := 0, Some(size), 2, false, false;
      stream, expected, added := [], 1, 0;
    }

    constructor Nested(parent: Encoder, length: nat)
      ensures buffer == parent.buffer && size == parent.size && data == parent.data && end == parent.end
      ensures stream == parent.stream && remaining == (length + 1) % (SIZE_MAX + 1)
      ensures !unknownLength && !containerIsMap && expected == length && added == 0
    {
      buffer, size, data, end := parent.buffer, parent.size, parent.data, parent.end;
      remaining := (length + 1) % (SIZE_MAX + 1);
      unknownLength, containerIsMap := false, false;
      stream, expected, added := parent.stream, length, 0;
    }

    // ----- Appending -----

    // append_to_buffer. An append that does not fit leaves the rest of the room as it was.
    method Append(s: seq<byte>) returns (err: CborError)
      requires Valid()
      modifies this`data, this`end, this`stream, buffer
      ensures Appended(s, 0, err)
    {
      stream := stream + s;
      var room: int := if end.Some? then end.value - data else 0 - data;
      if room - |s| < 0 {
        var len: int := |s|;
        if end.Some? {
          len := len - (end.value - data);
          end, data := None, 0;
        }
        data := data + len;
        return OutOfMemory;
      }
      forall i | 0 <= i < |s| { buffer[data + i] := s[i]; }
      data := data + |s|;
      return NoError;
    }

    // encode_number_no_update
    method EncodeNumberNoUpdate(ui: nat, shiftedMajorType: byte) returns (err: CborError)
      requires Valid() && ui <= UINT64_MAX && shiftedMajorType % 32 == 0
      modifies this`data, this`end, this`stream, buffer
      ensures Appended(Head(shiftedMajorType / 32, ui), 0, err)
    {
      var head := AssembleHead(ui, shiftedMajorType);
      err := Append(head);
    }

    method SaturatedDecrement()
      requires Valid()
      modifies this`remaining, this`added
      ensures Valid() && added == old(added) + 1
    {
      added := added + 1;
      if remaining > 0 { remaining := remaining - 1; }
    }

    method EncodeNumber(ui: nat, shiftedMajorType: byte) returns (err: CborError)
      requires Valid() && ui <= UINT64_MAX && shiftedMajorType % 32 == 0
      modifies this, buffer
      ensures Appended(Head(shiftedMajorType / 32, ui), 1, err)
    {
      SaturatedDecrement();
      err := EncodeNumberNoUpdate(ui, shiftedMajorType);
    }

    // ----- The items -----

    method EncodeUInt(value: nat) returns (err: CborError)
      requires Valid() && value <= UINT64_MAX
      modifies this, buffer
      ensures Appended(Encode(UInt(value)), 1, err)
    {
      err := EncodeNumber(value, 0x00);
    }

    // Encodes -absoluteValue; zero stands for -2^64.
    method EncodeNegativeInt(absoluteValue: nat) returns (err: CborError)
      requires Valid() && absoluteValue <= UINT64_MAX
      modifies this, buffer
      ensures Appended(Encode(NInt(if absoluteValue == 0 then UINT64_MAX else absoluteValue - 1)), 1, err)
    {
      err := EncodeNumber((absoluteValue - 1) % 0x1_0000_0000_0000_0000, 0x20);
    }

    method EncodeInt(value: int) returns (err: CborError)
      requires Valid() && -0x8000_0000_0000_0000 <= value < 0x8000_0000_0000_0000
      modifies this, buffer
      ensures Appended(Encode(if value < 0 then NInt(-1 - value) else UInt(value)), 1, err)
    {
      var pattern := if value < 0 then value + 0x1_0000_0000_0000_0000 else value;  // two's complement
      var ui := if value < 0 then UINT64_MAX else 0;    // the sign, extended to the whole length
      var majorType := if value < 0 then 0x20 else 0;
      ui := if value < 0 then ui - pattern else pattern; // minus one minus the value
      err := EncodeNumber(ui, majorType);
    }

    // The numbers that head a float or the break byte are refused, and nothing is written.
    method EncodeSimpleValue(value: byte) returns (err: CborError)
      requires Valid()
      modifies this, buffer
      ensures 25 <= value <= 31 ==> err == IllegalSimpleType && Valid() && stream == old(stream) && added == old(added)
      ensures !(25 <= value <= 31) ==> Appended(Encode(Simple(value)), 1, err)
    {
      if 25 <= value <= 31 { return IllegalSimpleType; }
      err := EncodeNumber(value, 0xe0);
    }

    method EncodeFloatingPoint(fpType: byte, bits: nat) returns (err: CborError)
      requires Valid() && 0xf9 <= fpType <= 0xfb && bits < Pow256(ArgumentSize(fpType - 0xe0))
      modifies this, buffer
      ensures Appended(LongHead(7, fpType - 0xe0, bits), 1, err)
    {
      SaturatedDecrement();
      err := Append([fpType] + BigEndian(bits, ArgumentSize(fpType - 0xe0)));
    }

    // Tags do not count towards the items of a container.
    method EncodeTag(tag: nat) returns (err: CborError)
      requires Valid() && tag <= UINT64_MAX
      modifies this, buffer
      ensures Appended(Head(6, tag), 0, err)
    {
      err := EncodeNumberNoUpdate(tag, 0xc0);
    }

    method EncodeString(s: seq<byte>, shiftedMajorType: byte) returns (err: CborError)
      requires Valid() && |s| <= SIZE_MAX && shiftedMajorType % 32 == 0
      modifies this, buffer
      ensures Appended(Head(shiftedMajorType / 32, |s|) + s, 1, err)
    {
      err := EncodeNumber(|s|, shiftedMajorType);
      if err != NoError && err != OutOfMemory { return; }
      err := Append(s);
    }

    // ----- Containers -----

    // length is the number of elements, or of pairs for a map.
    method CreateContainer(length: nat, shiftedMajorType: byte) returns (err: CborError, container: Encoder)
      requires Valid() && length <= SIZE_MAX
      requires shiftedMajorType == ARRAY_TYPE || shiftedMajorType == MAP_TYPE
      requires shiftedMajorType == MAP_TYPE && length != INDEFINITE_LENGTH ==> length <= SIZE_MAX / 2
      modifies this`remaining, this`added, buffer
      ensures fresh(container) && container.buffer == buffer && container.size == size && container.Valid()
      ensures CountsItems() && added == old(added) + 1
      ensures container.added == 0 && container.unknownLength == (length == INDEFINITE_LENGTH)
      ensures length != INDEFINITE_LENGTH ==>
        && container.expected == (if shiftedMajorType == MAP_TYPE then 2 * length else length)
        && container.stream == old(stream) + Head(shiftedMajorType / 32, length)
      ensures length == INDEFINITE_LENGTH ==> container.stream == old(stream) + [shiftedMajorType + 31]
      ensures err == if container.AllFits() then NoError else OutOfMemory
      ensures forall i :: size <= i < buffer.Length ==> buffer[i] == old(buffer[i])
    {
      container := new Encoder.Nested(this, length);
      SaturatedDecrement();
      container.containerIsMap := shiftedMajorType == MAP_TYPE;
      if length == INDEFINITE_LENGTH {
        container.unknownLength := true;
        err := container.Append([shiftedMajorType + 31]);
      } else {
        if shiftedMajorType == MAP_TYPE {
          container.remaining := container.remaining + length;
          container.expected := 2 * length;
        }
        err := container.EncodeNumberNoUpdate(length, shiftedMajorType);
      }
    }

    method CreateArray(length: nat) returns (err: CborError, container: Encoder)
      requires Valid() && length <= SIZE_MAX
      modifies this`remaining, this`added, buffer
      ensures fresh(container) && container.buffer == buffer && container.size == size && container.Valid()
      ensures CountsItems() && added == old(added) + 1 && container.added == 0
      ensures container.unknownLength == (length == INDEFINITE_LENGTH)
      ensures length != INDEFINITE_LENGTH ==> container.expected == length
      ensures container.stream == old(stream) + if length == INDEFINITE_LENGTH then [0x9f] else Head(4, length)
      ensures err == if container.AllFits() then NoError else OutOfMemory
      ensures forall i :: size <= i < buffer.Length ==> buffer[i] == old(buffer[i])
    {
      err, container := CreateContainer(length, ARRAY_TYPE);
    }

    method CreateMap(length: nat) returns (err: CborError, container: Encoder?)
      requires Valid() && length <= SIZE_MAX
      modifies this`remaining, this`added, buffer
      ensures SIZE_MAX / 2 < length != INDEFINITE_LENGTH ==>
        err == DataTooLarge && Valid() && stream == old(stream) && added == old(added)
      ensures length <= SIZE_MAX / 2 || length == INDEFINITE_LENGTH ==>
        && container != null
        && fresh(container) && container.buffer == buffer && container.size == size && container.Valid()
        && CountsItems() && added == old(added) + 1 && container.added == 0
        && container.unknownLength == (length == INDEFINITE_LENGTH)
        && (length != INDEFINITE_LENGTH ==> container.expected == 2 * length)
        && container.stream == old(stream) + (if length == INDEFINITE_LENGTH then [0xbf] else Head(5, length))
        && err == if container.AllFits() then NoError else OutOfMemory
      ensures forall i :: size <= i < buffer.Length ==> buffer[i] == old(buffer[i])
    {
      if length != INDEFINITE_LENGTH && length > SIZE_MAX / 2 { return DataTooLarge, null; }
      err, container := CreateContainer(length, MAP_TYPE);
    }

    /** Closing takes over the nested stream, and succeeds on a container of definite length
        exactly when all its declared items were added and all of them fitted. */
    method CloseContainer(container: Encoder) returns (err: CborError)
      requires CountsItems()
      requires container != this && container.Valid() && container.buffer == buffer && container.size == size
      modifies this`data, this`end, this`stream, buffer
      ensures Valid()
      ensures stream == container.stream + if container.unknownLength then [BREAK_BYTE] else []
      ensures err ==
        if !container.unknownLength && container.added > container.expected then TooManyItems
        else if !container.unknownLength && container.added < container.expected then TooFewItems
        else if AllFits() then NoError else OutOfMemory
      ensures forall i :: size <= i < buffer.Length ==> buffer[i] == old(buffer[i])
    {
      end, data := container.end, container.data;
      stream := container.stream;
      if container.unknownLength {
        err := Append([BREAK_BYTE]);
        return;
      }
      assert stream + [] == stream;
      if container.remaining != 1 {
        return if container.remaining == 0 then TooManyItems else TooFewItems;
      }
      if end.None? { return OutOfMemory; }
      return NoError;
    }

    // cbor_encoder_get_buffer_size and cbor_encoder_get_extra_bytes_needed
    method GetBufferSize() returns (n: nat)
      requires Valid() && end.Some?
      ensures n == |stream| && buffer[..n] == stream
    {
      n := data;
    }

    /** Room plus shortage is the length of the stream, to the byte. */
    method GetExtraBytesNeeded() returns (n: nat)
      requires Valid()
      ensures AllFits() <==> n == 0
      ensures !AllFits() ==> size + n == |stream|
    {
      n := if end.Some? then 0 else data;
    }
  }

  // The scratch buffer of encode_number_no_update: the number is laid out at its end, most
  // significant byte first, and the head starts as late as the number allows.
  method AssembleHead(ui: nat, shiftedMajorType: byte) returns (s: seq<byte>)
    requires ui <= UINT64_MAX && shiftedMajorType % 32 == 0
    ensures s == Head(shiftedMajorType / 32, ui)
  {
    hide BigEndian;
    MajorTypeFits(shiftedMajorType);
    var buf := new byte[16](_ => 0);
    var be := BigEndian(ui, 8);
    forall i | 0 <= i < 8 { buf[8 + i] := be[i]; }
    assert buf[8..] == be;
    var bufstart := 15;
    if ui < 24 {
      SmallNumberIsItsLastByte(ui);
      assert buf[15] == buf[8..][7];
      buf[bufstart] := buf[bufstart] + shiftedMajorType;
      NoBytes(ui);
    } else {
      bufstart := PutInitialByte(buf, ui, shiftedMajorType);
    }
    s := buf[bufstart..];
    assert s == [buf[bufstart]] + buf[bufstart + 1..];
  }

  lemma MajorTypeFits(t: byte)
    requires t % 32 == 0
    ensures t <= 0xe0 && t == t / 32 * 32
  {
  }

  lemma NoBytes(v: nat)
    ensures BigEndian(v, 0) == []
  {
  }

  // The initial byte goes before the bytes that a number of 24 or more needs.
  method PutInitialByte(buf: array<byte>, ui: nat, shiftedMajorType: byte) returns (bufstart: nat)
    requires buf.Length == 16 && 24 <= ui <= UINT64_MAX && shiftedMajorType <= 0xe0 && buf[8..] == BigEndian(ui, 8)
    modifies buf
    ensures bufstart < 16 && buf[bufstart] == shiftedMajorType + ShortestInfo(ui)
    ensures buf[bufstart + 1..] == BigEndian(ui, ArgumentSize(ShortestInfo(ui)))
  {
    hide BigEndian;
    var more := 0;
    if ui > UINT8_MAX { more := more + 1; }
    if ui > UINT16_MAX { more := more + 1; }
    if ui > UINT32_MAX { more := more + 1; }
    var n := ArgumentSize(24 + more);
    BigEndianSuffix(ui, 8, n);
    assert buf[16 - n..] == buf[8..][8 - n..];
    bufstart := 15 - n;
    ghost var argument := buf[bufstart + 1..];
    buf[bufstart] := shiftedMajorType + 24 + more;
    assert buf[bufstart + 1..] == argument;
  }

  lemma SmallNumberIsItsLastByte(v: nat)
    requires v < 256
    ensures BigEndian(v, 8)[7] == v
  {
    BigEndianSuffix(v, 8, 1);
    assert BigEndian(v, 8)[7] == BigEndian(v, 8)[7..][0];
  }
}
