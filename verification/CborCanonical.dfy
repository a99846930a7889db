/** Canonical streams are fixed points of reading and writing. */
module CborCanonical {
  import opened Bytes
  import opened CborFormat
  import opened CborParser
  import opened CborTraversal
  import opened CborEncoder
  import opened CborValidation
  import opened CborNesting
  import opened CborRoundTrip

  lemma CanonicalItemReads(buffer: seq<byte>, x: Item)
    requires |buffer| <= SIZE_MAX && Encodable(x) && Readable(x, true, MAX_RECURSIONS - 1) && Encode(x) == buffer
    ensures Decode(buffer, 0, LENIENT, MAX_RECURSIONS) == Some((x, |buffer|))
  {
    LooserNesting(x, MAX_RECURSIONS - 1);
    assert buffer[0..0 + |buffer|] == buffer;
    DecodeInvertsEncode(buffer, 0, x, LENIENT, MAX_RECURSIONS);
  }

  /** Whatever validates with shortest integers, no indeterminate lengths and complete data is
      reproduced byte by byte when its item is read and written again in order. */
  method Reencode(buffer: seq<byte>, out: array<byte>) returns (valid: CborError, written: CborError)
    requires |buffer| <= SIZE_MAX && |buffer| <= out.Length <= SIZE_MAX
    modifies out
    ensures valid == NoError ==> written == NoError && out[..|buffer|] == buffer
    ensures valid != NoError ==> out[..] == old(out[..])
  {
    written := NoError;
    valid := ValidateCanonical(buffer);
    if valid != NoError { return; }
    ghost var x :| Encodable(x) && Readable(x, true, MAX_RECURSIONS - 1) && Encode(x) == buffer;
    CanonicalItemReads(buffer, x);
    var err, it, item;
    err, it := ParserInit(buffer);
    if err != NoError { assert false; return; }
    assert it.Tail(LENIENT, MAX_RECURSIONS) == it.ItemThenRest(0, LENIENT, MAX_RECURSIONS) by {
      it.TailIsItemThenRest(LENIENT, MAX_RECURSIONS);
    }
    hide Decode;
    err, item := ReadItem(it, MAX_RECURSIONS);
    if err != NoError { assert false; return; }
    var enc := new Encoder.Init(out, out.Length);
    written := WriteItem(enc, item);
    assert [] + Encode(item) == Encode(item);
    ghost var n := enc.GetBufferSize();
  }
}
