/**
 * How readers of the same strictness but different nesting rules compare: what one accepts,
 * another accepts exactly when the item is readable under the other's rules. So much for the
 * two validations without flags, which are documented to agree.
 */
module CborNesting {
  import opened Bytes
  import opened CborFormat
  import opened CborParser
  import opened CborTraversal
  import opened CborValidation

  predicate SameStrictness(m: Mode, n: Mode) {
    m.shortest == n.shortest && m.definite == n.definite
  }

  function Filtered<T>(ok: bool, r: Decoded<T>): Decoded<T> {
    if ok then r else None
  }

  lemma {:induction false} ChunksAgree(buf: seq<byte>, p: nat, major: nat, m: Mode, n: Mode)
    requires p <= |buf| && SameStrictness(m, n)
    ensures DecodeChunks(buf, p, major, m) == DecodeChunks(buf, p, major, n)
    decreases |buf| - p
  {
    var h := ReadHeader(buf, p);
    if !(p < |buf| && buf[p] == 0xff) && h.Some? && p + h.value.size + h.value.arg <= |buf| {
      ChunksAgree(buf, p + h.value.size + h.value.arg, major, m, n);
    }
  }

  /** Nesting rules only filter: what one reader decodes, the other decodes to the same item
      if that is readable to it, and refuses otherwise. */
  lemma {:induction false} NestingRulesFilter(buf: seq<byte>, p: nat, m: Mode, d: nat, n: Mode, e: nat)
    requires p <= |buf| && SameStrictness(m, n) && Decode(buf, p, m, d).Some?
    ensures var r := Decode(buf, p, m, d);
      Decode(buf, p, n, e) == Filtered(Readable(r.value.0, n.tagsNest, e), r)
    decreases |buf| - p, 2
  {
    var h := ReadHeader(buf, p).value;
    if h.major == 6 {
      TagFilter(buf, p, m, d, n, e);
    } else if h.major == 4 || h.major == 5 {
      if e > 0 { ContentFilter(buf, p, h, m, d - 1, n, e - 1); }
    } else if h.major == 2 || h.major == 3 {
      if h.info == 31 { ChunksAgree(buf, p + h.size, h.major, m, n); }
    }
  }

  lemma {:induction false} TagFilter(buf: seq<byte>, p: nat, m: Mode, d: nat, n: Mode, e: nat)
    requires p <= |buf| && SameStrictness(m, n) && Decode(buf, p, m, d).Some?
    requires ReadHeader(buf, p).value.major == 6
    ensures var r := Decode(buf, p, m, d);
      Decode(buf, p, n, e) == Filtered(Readable(r.value.0, n.tagsNest, e), r)
    decreases |buf| - p, 1
  {
    var h := ReadHeader(buf, p).value;
    if !(n.tagsNest && e == 0) {
      NestingRulesFilter(buf, p + h.size, m, if m.tagsNest then d - 1 else d, n, if n.tagsNest then e - 1 else e);
    }
  }

  lemma {:induction false} ContentFilter(buf: seq<byte>, p: nat, h: Header, m: Mode, d: nat, n: Mode, e: nat)
    requires p + h.size <= |buf| && h.size >= 1 && SameStrictness(m, n) && DecodeContent(buf, p, h, m, d).Some?
    ensures var r := DecodeContent(buf, p, h, m, d);
      DecodeContent(buf, p, h, n, e) == Filtered(AllReadable(r.value.0, n.tagsNest, e), r)
    decreases |buf| - p, 1
  {
    var q := p + h.size;
    if h.info == 31 {
      UntilBreakFilter(buf, q, h.major == 5, false, m, d, n, e);
    } else {
      ManyFilter(buf, q, if h.major == 5 then 2 * h.arg else h.arg, m, d, n, e);
    }
  }

  lemma ConsFilter(x: Item, a: bool, xs: seq<Item>, b: bool, end: nat, tagsNest: bool, e: nat)
    requires a == Readable(x, tagsNest, e) && b == AllReadable(xs, tagsNest, e)
    ensures AllReadable([x] + xs, tagsNest, e) == (a && b)
    ensures Prepend(x, Filtered(b, Some((xs, end)))) == Filtered(b, Prepend(x, Some((xs, end))))
  {
    assert ([x] + xs)[1..] == xs;
  }

  lemma {:induction false} ManyFilter(buf: seq<byte>, p: nat, k: nat, m: Mode, d: nat, n: Mode, e: nat)
    requires p <= |buf| && SameStrictness(m, n) && DecodeMany(buf, p, k, m, d).Some?
    ensures var r := DecodeMany(buf, p, k, m, d);
      DecodeMany(buf, p, k, n, e) == Filtered(AllReadable(r.value.0, n.tagsNest, e), r)
    decreases |buf| - p, 3
  {
    if k > 0 {
      hide Decode, Readable;
      var (x, q) := Decode(buf, p, m, d).value;
      var (xs, end) := DecodeMany(buf, q, k - 1, m, d).value;
      NestingRulesFilter(buf, p, m, d, n, e);
      ManyFilter(buf, q, k - 1, m, d, n, e);
      ConsFilter(x, Readable(x, n.tagsNest, e), xs, AllReadable(xs, n.tagsNest, e), end, n.tagsNest, e);
    }
  }

  lemma {:induction false} UntilBreakFilter(buf: seq<byte>, p: nat, isMap: bool, odd: bool, m: Mode, d: nat, n: Mode,
                                            e: nat)
    requires p <= |buf| && SameStrictness(m, n) && DecodeUntilBreak(buf, p, isMap, odd, m, d).Some?
    ensures var r := DecodeUntilBreak(buf, p, isMap, odd, m, d);
      DecodeUntilBreak(buf, p, isMap, odd, n, e) == Filtered(AllReadable(r.value.0, n.tagsNest, e), r)
    decreases |buf| - p, 3
  {
    if !(p < |buf| && buf[p] == 0xff) {
      hide Decode, Readable;
      var (x, q) := Decode(buf, p, m, d).value;
      var (xs, end) := DecodeUntilBreak(buf, q, isMap, !odd, m, d).value;
      NestingRulesFilter(buf, p, m, d, n, e);
      UntilBreakFilter(buf, q, isMap, !odd, m, d, n, e);
      ConsFilter(x, Readable(x, n.tagsNest, e), xs, AllReadable(xs, n.tagsNest, e), end, n.tagsNest, e);
    }
  }

  lemma {:induction false} LooserNesting(x: Item, d: nat)
    requires Readable(x, true, d)
    ensures Readable(x, false, d + 1)
    decreases x
  {
    match x
    case Array(xs) => AllLooserNesting(xs, d - 1);
    case Map(xs) => AllLooserNesting(xs, d - 1);
    case Tagged(_, y) => LooserNesting(y, d - 1); DeeperStillReadable(y, d);
    case _ =>
  }

  lemma {:induction false} AllLooserNesting(xs: seq<Item>, d: nat)
    requires AllReadable(xs, true, d)
    ensures AllReadable(xs, false, d + 1)
    decreases xs
  {
    if xs != [] {
      LooserNesting(xs[0], d);
      AllLooserNesting(xs[1..], d);
    }
  }

  lemma {:induction false} DeeperStillReadable(x: Item, d: nat)
    requires Readable(x, false, d)
    ensures Readable(x, false, d + 1)
    decreases x
  {
    match x
    case Array(xs) => AllDeeperStillReadable(xs, d - 1);
    case Map(xs) => AllDeeperStillReadable(xs, d - 1);
    case Tagged(_, y) => DeeperStillReadable(y, d);
    case _ =>
  }

  lemma {:induction false} AllDeeperStillReadable(xs: seq<Item>, d: nat)
    requires AllReadable(xs, false, d)
    ensures AllReadable(xs, false, d + 1)
    decreases xs
  {
    if xs != [] {
      DeeperStillReadable(xs[0], d);
      AllDeeperStillReadable(xs[1..], d);
    }
  }

  const NO_FLAGS := ValidationFlags(false, false, false)

  // The reader behind cbor_value_validate without flags, and the one behind cbor_value_advance.
  lemma NestingOfValidation(buf: seq<byte>, p: nat)
    requires p <= |buf|
    ensures var full := Decode(buf, p, ModeOf(NO_FLAGS), MAX_RECURSIONS - 1);
      var lenient := Decode(buf, p, LENIENT, MAX_RECURSIONS);
      && (lenient.Some? ==> full == Filtered(Readable(lenient.value.0, true, MAX_RECURSIONS - 1), lenient))
      && (lenient.None? ==> full.None?)
  {
    var m := ModeOf(NO_FLAGS);
    var full := Decode(buf, p, m, MAX_RECURSIONS - 1);
    var lenient := Decode(buf, p, LENIENT, MAX_RECURSIONS);
    if lenient.Some? {
      NestingRulesFilter(buf, p, LENIENT, MAX_RECURSIONS, m, MAX_RECURSIONS - 1);
    } else if full.Some? {
      NestingRulesFilter(buf, p, m, MAX_RECURSIONS - 1, LENIENT, MAX_RECURSIONS);
      NestingRulesFilter(buf, p, m, MAX_RECURSIONS - 1, m, MAX_RECURSIONS - 1);
      LooserNesting(full.value.0, MAX_RECURSIONS - 1);
    }
  }

  predicate StartsWithTag(buf: seq<byte>) {
    HeadReadable(buf, 0) && ReadHeader(buf, 0).value.major == 6
  }

  lemma WholeTag(buf: seq<byte>, m: Mode, d: nat)
    requires StartsWithTag(buf) && Decode(buf, 0, m, d).Some?
    ensures ReadHeader(buf, 0).value.size <= |buf| && HeadReadable(buf, ReadHeader(buf, 0).value.size)
  {
  }

  /** cbor_value_validate_basic, which advances, and cbor_value_validate without flags. What the
      latter accepts, the former does too. On an item without a tag in front they agree exactly
      unless it is well formed but no longer readable with tags counted as nesting and one level
      less; on one with a tag, exactly unless the head behind the tag is readable and the item is
      not. */
  method BasicValidations(buffer: seq<byte>) returns (basic: CborError, full: CborError)
    requires |buffer| <= SIZE_MAX
    ensures full == NoError <==> Decode(buffer, 0, ModeOf(NO_FLAGS), MAX_RECURSIONS - 1).Some?
    ensures full == NoError ==> basic == NoError
    ensures !StartsWithTag(buffer) ==>
      var r := Decode(buffer, 0, LENIENT, MAX_RECURSIONS);
      (basic == NoError <==> full == NoError) <==> (r.Some? ==> Readable(r.value.0, true, MAX_RECURSIONS - 1))
    ensures StartsWithTag(buffer) ==>
      ((basic == NoError <==> full == NoError) <==>
        (HeadReadable(buffer, ReadHeader(buffer, 0).value.size) <==>
          Decode(buffer, 0, ModeOf(NO_FLAGS), MAX_RECURSIONS - 1).Some?))
  {
    hide Decode, Readable, HeadReadable;
    var end;
    basic, end := AdvanceFresh(buffer);
    full := ValidateFresh(buffer, NO_FLAGS);
    NestingOfValidation(buffer, 0);
    if StartsWithTag(buffer) && full == NoError { WholeTag(buffer, ModeOf(NO_FLAGS), MAX_RECURSIONS - 1); }
  }

  /** A tag in front of a truncated string is accepted by the one and refused by the other. */
  method TaggedHeadDisagrees() returns (basic: CborError, full: CborError)
    ensures basic == NoError && full != NoError
  {
    var buffer := [0xc0, 0x61];
    AdvanceOverTagIsPartial(buffer);
    hide Decode;
    basic, full := BasicValidations(buffer);
  }

  // n arrays around one another, each with one element.
  function Nest(n: nat): (x: Item)
    ensures Encodable(x)
  {
    if n == 0 then UInt(0)
    else
      var y := Nest(n - 1);
      assert AllEncodable([y]) by { assert [y][1..] == []; }
      Array([y])
  }

  lemma {:induction false} NestNeeds(n: nat, tagsNest: bool, d: nat)
    ensures Readable(Nest(n), tagsNest, d) <==> n <= d
  {
    if n > 0 && d > 0 {
      NestNeeds(n - 1, tagsNest, d - 1);
      var y := Nest(n - 1);
      assert [y][1..] == [];
      assert Nest(n) == Array([y]);
      assert AllReadable([y], tagsNest, d - 1) <==> Readable(y, tagsNest, d - 1);
    }
  }

  lemma {:induction false} NestEncoded(n: nat)
    ensures |Encode(Nest(n))| == n + 1 && (n > 0 ==> Encode(Nest(n))[0] == 0x81)
  {
    if n > 0 {
      NestEncoded(n - 1);
      var y := Nest(n - 1);
      assert [y][1..] == [] && EncodeAll([y]) == Encode(y) + EncodeAll([]);
    }
  }

  /** 1024 nested arrays are accepted by the one and refused by the other. */
  method DeepestArrayDisagrees() returns (basic: CborError, full: CborError)
    ensures basic == NoError && full != NoError
  {
    hide Nest, Decode, Encode;
    ghost var x := Nest(MAX_RECURSIONS);
    var buffer := Encode(Nest(MAX_RECURSIONS));
    assert buffer[0..0 + |buffer|] == buffer;
    NestNeeds(MAX_RECURSIONS, false, MAX_RECURSIONS);
    NestNeeds(MAX_RECURSIONS, true, MAX_RECURSIONS - 1);
    NestEncoded(MAX_RECURSIONS);
    DecodeInvertsEncode(buffer, 0, x, LENIENT, MAX_RECURSIONS);
    basic, full := BasicValidations(buffer);
  }
}
