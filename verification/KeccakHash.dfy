/**
 * The hash: folding full blocks into a 200-byte buffer and XORing delimiter, final bit and tail
 * in place is absorbing the padded message, sections 4 and 5.1 of FIPS 202, with Keccak's
 * original suffix byte.
 */
module KeccakHash {
  import Keccak

  type Buffer = s: seq<bv8> | |s| == 200 witness seq(200, _ => 0)

  const RATE := 136
  const DELIM: bv8 := 0x01

  // ----- Bytes and lanes -----

  function Lane(b: seq<bv8>): bv64
    requires |b| == 8
  {
    (b[0] as bv64) | ((b[1] as bv64) << 8) | ((b[2] as bv64) << 16) | ((b[3] as bv64) << 24)
    | ((b[4] as bv64) << 32) | ((b[5] as bv64) << 40) | ((b[6] as bv64) << 48) | ((b[7] as bv64) << 56)
  }

  function LaneByte(x: bv64, k: nat): bv8
    requires k < 8
  {
    match k
    case 0 => (x & 0xff) as bv8
    case 1 => ((x >> 8) & 0xff) as bv8
    case 2 => ((x >> 16) & 0xff) as bv8
    case 3 => ((x >> 24) & 0xff) as bv8
    case 4 => ((x >> 32) & 0xff) as bv8
    case 5 => ((x >> 40) & 0xff) as bv8
    case 6 => ((x >> 48) & 0xff) as bv8
    case _ => ((x >> 56) & 0xff) as bv8
  }

  // The buffer as little-endian lanes, and back.
  function ToLanes(s: Buffer): Keccak.Lanes {
    seq(25, i requires 0 <= i < 25 => Lane(s[8 * i..8 * i + 8]))
  }

  function FromLanes(l: Keccak.Lanes): Buffer {
    seq(200, i requires 0 <= i < 200 => LaneByte(l[i / 8], i % 8))
  }

  lemma LaneOfBytes(x: bv64)
    ensures Lane(seq(8, k requires 0 <= k < 8 => LaneByte(x, k))) == x
  {
    var b := seq(8, k requires 0 <= k < 8 => LaneByte(x, k));
    assert b[0] == LaneByte(x, 0) && b[1] == LaneByte(x, 1) && b[2] == LaneByte(x, 2) && b[3] == LaneByte(x, 3);
    assert b[4] == LaneByte(x, 4) && b[5] == LaneByte(x, 5) && b[6] == LaneByte(x, 6) && b[7] == LaneByte(x, 7);
  }

  /** The two views of the buffer agree, so that nothing need be moved between rounds. */
  lemma LanesOfBuffer(l: Keccak.Lanes)
    ensures ToLanes(FromLanes(l)) == l
  {
    hide Lane, LaneByte;
    forall i | 0 <= i < 25 ensures ToLanes(FromLanes(l))[i] == l[i] {
      var bytes := seq(8, k requires 0 <= k < 8 => LaneByte(l[i], k));
      forall k | 0 <= k < 8 ensures FromLanes(l)[8 * i..8 * i + 8][k] == bytes[k] {
        assert (8 * i + k) / 8 == i && (8 * i + k) % 8 == k;
      }
      assert FromLanes(l)[8 * i..8 * i + 8] == bytes;
      LaneOfBytes(l[i]);
    }
  }

  // ----- The sponge -----

  function Permuted(s: Buffer): Buffer {
    FromLanes(Keccak.KeccakF(ToLanes(s)))
  }

  function XorBlock(s: Buffer, block: seq<bv8>): Buffer
    requires |block| <= 200
  {
    seq(200, i requires 0 <= i < 200 => if i < |block| then Xor(s[i], block[i]) else s[i])
  }

  function Xor(b: bv8, c: bv8): bv8 {
    b ^ c
  }

  // Between one and RATE bytes; the bits 1 0* 1 of section 5.1.
  function Padding(n: nat): (p: seq<bv8>)
    ensures |p| > 0 && (n + |p|) % RATE == 0
  {
    var q := RATE - n % RATE;
    if q == 1 then [0x81] else [0x01] + seq(q - 2, _ => 0) + [0x80]
  }

  function Absorb(s: Buffer, p: seq<bv8>): Buffer
    decreases |p|
  {
    if |p| < RATE then s else Absorb(Permuted(XorBlock(s, p[..RATE])), p[RATE..])
  }

  function Squeeze(s: Buffer, n: nat): (r: seq<bv8>)
    ensures |r| == n
    decreases n
  {
    if n <= RATE then s[..n] else s[..RATE] + Squeeze(Permuted(s), n - RATE)
  }

  function Hash(message: seq<bv8>, n: nat): seq<bv8> {
    Squeeze(Absorb(seq(200, _ => 0), message + Padding(|message|)), n)
  }

  // ----- In place -----

  method PermuteBuffer(a: array<bv8>)
    requires a.Length == 200
    modifies a
    ensures a[..] == Permuted(old(a[..]))
  {
    hide Keccak.KeccakF, ToLanes, FromLanes;
    var lanes := new bv64[25];
    LoadLanes(a, lanes);
    Keccak.Permute(lanes);
    StoreLanes(lanes, a);
  }

  method LoadLanes(a: array<bv8>, lanes: array<bv64>)
    requires a.Length == 200 && lanes.Length == 25
    modifies lanes
    ensures lanes[..] == ToLanes(a[..])
  {
    hide Lane;
    for i := 0 to 25
      invariant forall k :: 0 <= k < i ==> lanes[k] == ToLanes(a[..])[k]
    {
      assert a[..][8 * i..8 * i + 8] == a[8 * i..8 * i + 8];
      lanes[i] := Lane(a[8 * i..8 * i + 8]);
    }
  }

  method StoreLanes(lanes: array<bv64>, a: array<bv8>)
    requires a.Length == 200 && lanes.Length == 25
    modifies a
    ensures a[..] == FromLanes(lanes[..])
  {
    hide LaneByte;
    for i := 0 to 200
      invariant forall k :: 0 <= k < i ==> a[k] == FromLanes(lanes[..])[k]
    {
      a[i] := LaneByte(lanes[i / 8], i % 8);
    }
  }

  method Xorin(dst: array<bv8>, src: seq<bv8>)
    requires dst.Length == 200 && |src| <= 200
    modifies dst
    ensures dst[..] == XorBlock(old(dst[..]), src)
  {
    ghost var s: Buffer := dst[..];
    for i := 0 to |src|
      invariant forall k :: 0 <= k < 200 ==> dst[k] == if k < i then Xor(s[k], src[k]) else s[k]
    {
      dst[i] := Xor(dst[i], src[i]);
    }
    assert dst[..] == XorBlock(s, src);
  }

  method Setout(src: array<bv8>, dst: array<bv8>, at: nat, len: nat)
    requires src.Length == 200 && len <= 200 && at + len <= dst.Length && src != dst
    modifies dst
    ensures dst[..at + len] == old(dst[..at]) + src[..len]
  {
    for i := 0 to len
      invariant dst[..at + i] == old(dst[..at]) + src[..i]
    {
      dst[at + i] := src[i];
    }
  }

  // Padding that is one bit in two bytes, or two bits in one.
  lemma PaddedTail(s: Buffer, tail: seq<bv8>)
    requires |tail| < RATE
    ensures |tail + Padding(|tail|)| == RATE
    ensures var s1 := s[|tail| := Xor(s[|tail|], DELIM)];
      XorBlock(s1[RATE - 1 := Xor(s1[RATE - 1], 0x80)], tail) == XorBlock(s, tail + Padding(|tail|))
  {
    hide Padding, Xor;
    PaddingEnds(|tail|);
    var s1 := s[|tail| := Xor(s[|tail|], DELIM)];
    var l, r := XorBlock(s1[RATE - 1 := Xor(s1[RATE - 1], 0x80)], tail), XorBlock(s, tail + Padding(|tail|));
    forall i | 0 <= i < 200 ensures l[i] == r[i] {
      if |tail| <= i < RATE { PaddingByte(|tail|, i - |tail|); }
      PadBits(s[i]);
    }
  }

  lemma PaddingEnds(n: nat)
    requires n < RATE
    ensures |Padding(n)| == RATE - n
  {
  }

  lemma PaddingByte(n: nat, k: nat)
    requires k < |Padding(n)|
    ensures Padding(n)[k] == if |Padding(n)| == 1 then 0x81 else if k == 0 then 0x01
      else if k == |Padding(n)| - 1 then 0x80 else 0
  {
  }

  lemma PadBits(b: bv8)
    ensures Xor(Xor(b, DELIM), 0x80) == Xor(b, 0x81) && Xor(b, 0) == b
  {
  }

  lemma PaddingPeriodic(n: nat, m: nat)
    requires n % RATE == m % RATE
    ensures Padding(n) == Padding(m)
  {
  }

  lemma {:induction false} AbsorbBlock(s: Buffer, p: seq<bv8>, rest: seq<bv8>)
    requires |p| >= RATE
    ensures Absorb(s, p + rest) == Absorb(Permuted(XorBlock(s, p[..RATE])), p[RATE..] + rest)
  {
    hide Permuted, XorBlock;
    assert (p + rest)[..RATE] == p[..RATE] && (p + rest)[RATE..] == p[RATE..] + rest;
  }

  /** For every message and every output length the hash is the sponge's. */
  method ComputeHash(input: seq<bv8>, out: array<bv8>)
    modifies out
    ensures out[..] == Hash(input, out.Length)
  {
    hide Permuted, XorBlock, Absorb, Padding, Xor;
    var a := new bv8[200](i => 0);
    assert a[..] == seq(200, _ => 0);
    ghost var pad := Padding(|input|);
    var at := 0;
    while |input| - at >= RATE
      invariant at <= |input| && at % RATE == 0
      invariant Absorb(a[..], input[at..] + pad) == Absorb(seq(200, _ => 0), input + pad)
    {
      AbsorbBlock(a[..], input[at..], pad);
      assert input[at..][..RATE] == input[at..at + RATE] && input[at..][RATE..] == input[at + RATE..];
      Xorin(a, input[at..at + RATE]);
      PermuteBuffer(a);
      at := at + RATE;
    }
    AbsorbTail(a, input[at..]);
    PaddingPeriodic(|input|, |input[at..]|);
    SqueezeInto(a, out);
  }

  // The last block: delimiter and final bit first, then what is left of the message.
  method AbsorbTail(a: array<bv8>, tail: seq<bv8>)
    requires a.Length == 200 && |tail| < RATE
    modifies a
    ensures a[..] == Absorb(old(a[..]), tail + Padding(|tail|))
  {
    hide Permuted, XorBlock, Absorb, Padding, Xor;
    ghost var s: Buffer := a[..];
    a[|tail|] := Xor(a[|tail|], DELIM);
    a[RATE - 1] := Xor(a[RATE - 1], 0x80);
    PaddedTail(s, tail);
    Xorin(a, tail);
    PermuteBuffer(a);
    LastBlock(s, tail + Padding(|tail|));
  }

  lemma {:induction false} LastBlock(s: Buffer, p: seq<bv8>)
    requires |p| == RATE
    ensures Absorb(s, p) == Permuted(XorBlock(s, p))
  {
    hide Permuted, XorBlock;
    assert p[..RATE] == p && p[RATE..] == [];
  }

  method SqueezeInto(a: array<bv8>, out: array<bv8>)
    requires a.Length == 200 && a != out
    modifies a, out
    ensures out[..] == Squeeze(old(a[..]), out.Length)
  {
    hide Permuted, Squeeze;
    ghost var all := Squeeze(a[..], out.Length);
    var done := 0;
    assert out[..0] + all == all;
    while out.Length - done >= RATE
      invariant done <= out.Length
      invariant out[..done] + Squeeze(a[..], out.Length - done) == all
    {
      ghost var s: Buffer, before := a[..], out[..done];
      SqueezeBlock(s, out.Length - done);
      Setout(a, out, done, RATE);
      PermuteBuffer(a);
      assert before + (s[..RATE] + Squeeze(Permuted(s), out.Length - done - RATE))
        == before + s[..RATE] + Squeeze(Permuted(s), out.Length - done - RATE);
      done := done + RATE;
    }
    SqueezeLast(a[..], out.Length - done);
    Setout(a, out, done, out.Length - done);
    assert out[..] == out[..out.Length];
    for i := 0 to 200
      modifies a
    {
      a[i] := 0;
    }
  }

  lemma SqueezeLast(s: Buffer, n: nat)
    requires n <= RATE
    ensures Squeeze(s, n) == s[..n]
  {
  }

  lemma {:induction false} SqueezeBlock(s: Buffer, n: nat)
    requires n >= RATE
    ensures Squeeze(s, n) == s[..RATE] + Squeeze(Permuted(s), n - RATE)
  {
    hide Permuted;
  }
}
