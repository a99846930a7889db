/**
 * The hash bit by bit: padding, sponge and byte order of sections 4, 5.1 and 3.1 and Appendix B.1 of
 * FIPS 202, with the standard's permutation on bits between the blocks.
 */
module KeccakSponge {
  import opened Keccak
  import opened KeccakBits
  import opened KeccakHash

  // Bit j of byte m of a string of bytes; of a byte the low-order bit comes first.
  type Bytes = (nat, bv3) -> bool

  predicate BitAt(s: seq<bv8>, m: nat, j: bv3) {
    m < |s| && ByteBit(s[m], j)
  }

  // ----- Bytes and the state array -----

  // Byte and bit of the position z in a lane.
  function ByteOf(z: bv6): (k: nat)
    ensures k < 8
  {
    (z >> 3) as nat
  }

  function BitOf(z: bv6): bv3 {
    (z & 7) as bv3
  }

  lemma LaneHolds(b: seq<bv8>, z: bv6)
    requires |b| == 8
    ensures Bit(Lane(b), z) == ByteBit(b[ByteOf(z)], BitOf(z))
  {
    match z >> 3
    case 0 =>
    case 1 =>
    case 2 =>
    case 3 =>
    case 4 =>
    case 5 =>
    case 6 =>
    case _ =>
  }

  // The position in a lane of bit j of its k-th byte.
  function Position(k: nat, j: bv3): bv6
    requires k < 8
  {
    ((k as bv6) << 3) | (j as bv6)
  }

  lemma PositionSplits(k: nat, j: bv3)
    requires k < 8
    ensures ByteOf(Position(k, j)) == k && BitOf(Position(k, j)) == j
  {
    match k
    case 0 =>
    case 1 =>
    case 2 =>
    case 3 =>
    case 4 =>
    case 5 =>
    case 6 =>
    case _ =>
  }

  // Section 3.1: the state array of a string of 200 bytes, and back.
  function ArrayOf(b: Bytes): Bits {
    (x: nat, y: nat, z: bv6) => b(8 * (5 * y + x) + ByteOf(z), BitOf(z))
  }

  function BytesOf(a: Bits): Bytes {
    (m: nat, j: bv3) => a(m / 8 % 5, m / 40, Position(m % 8, j))
  }

  ghost function Permute(b: Bytes): Bytes {
    BytesOf(RoundsOfBits(ArrayOf(b), 24))
  }

  // ----- The sponge -----

  // Section 5.1 for a rate of 136 bytes: the message, a one, zeros, and a one.
  function BlockCount(message: seq<bv8>): nat {
    |message| / 136 + 1
  }

  predicate PaddedBit(message: seq<bv8>, m: nat, j: bv3) {
    if m < |message| then ByteBit(message[m], j)
    else (m == |message| && j == 0) || (m == 136 * BlockCount(message) - 1 && j == 7)
  }

  // The state after k blocks.
  ghost function Absorbed(message: seq<bv8>, k: nat): Bytes {
    if k == 0 then (m: nat, j: bv3) => false
    else
      var before := Absorbed(message, k - 1);
      Permute((m: nat, j: bv3) => before(m, j) != (m < 136 && PaddedBit(message, 136 * (k - 1) + m, j)))
  }

  // The state when the k-th block of the result is put out.
  ghost function Squeezed(message: seq<bv8>, k: nat): Bytes {
    if k == 0 then Absorbed(message, BlockCount(message)) else Permute(Squeezed(message, k - 1))
  }

  // ----- States of bytes -----

  ghost predicate Holds(s: Buffer, b: Bytes) {
    forall m: nat, j: bv3 :: m < 200 ==> ByteBit(s[m], j) == b(m, j)
  }

  lemma LanesHold(s: Buffer, b: Bytes, x: nat, y: nat, z: bv6)
    requires Holds(s, b) && x < 5 && y < 5
    ensures BitsOf(ToLanes(s))(x, y, z) == ArrayOf(b)(x, y, z)
  {
    hide Bit, ByteBit, Lane, ByteOf, BitOf;
    var i := 5 * y + x;
    LaneHolds(s[8 * i..8 * i + 8], z);
  }

  lemma BytesHold(l: Lanes, m: nat, j: bv3)
    requires m < 200
    ensures ByteBit(FromLanes(l)[m], j) == Bit(l[m / 8], Position(m % 8, j))
  {
    hide Bit, ByteBit, Lane, LaneByte, ByteOf, BitOf, Position;
    var i, k := m / 8, m % 8;
    LanesOfBuffer(l);
    LaneHolds(FromLanes(l)[8 * i..8 * i + 8], Position(k, j));
    PositionSplits(k, j);
    assert ToLanes(FromLanes(l))[i] == l[i];
  }

  lemma {:induction false} RoundsAlike(a: Bits, b: Bits, n: nat)
    requires Same(a, b)
    ensures Same(RoundsOfBits(a, n), RoundsOfBits(b, n))
    decreases n
  {
    hide Same, ThetaBits, RhoBits, PiBits, ChiBits, IotaBits;
    if n > 0 {
      RoundsAlike(a, b, n - 1);
      var a0, b0 := RoundsOfBits(a, n - 1), RoundsOfBits(b, n - 1);
      StepsAlike(a0, b0, n - 1);
      StepsAlike(ThetaBits(a0), ThetaBits(b0), n - 1);
      StepsAlike(RhoBits(ThetaBits(a0)), RhoBits(ThetaBits(b0)), n - 1);
      StepsAlike(PiBits(RhoBits(ThetaBits(a0))), PiBits(RhoBits(ThetaBits(b0))), n - 1);
      StepsAlike(ChiBits(PiBits(RhoBits(ThetaBits(a0)))), ChiBits(PiBits(RhoBits(ThetaBits(b0)))), n - 1);
    }
  }

  lemma LaneAt(l: Lanes, i: nat, z: bv6)
    requires i < 25
    ensures BitsOf(l)(i % 5, i / 5, z) == Bit(l[i], z)
  {
    hide Bit;
  }

  /** The permutation of the byte buffer is the standard's on the bits it holds. */
  lemma PermutedHolds(s: Buffer, b: Bytes)
    requires Holds(s, b)
    ensures Holds(Permuted(s), Permute(b))
  {
    hide Bit, ByteBit, ToLanes, FromLanes, BitsOf, ArrayOf, RoundsOfBits, Position, Rounds;
    var l := KeccakF(ToLanes(s));
    var a := RoundsOfBits(ArrayOf(b), 24);
    forall x: nat, y: nat, z: bv6 | x < 5 && y < 5 ensures BitsOf(ToLanes(s))(x, y, z) == ArrayOf(b)(x, y, z) {
      LanesHold(s, b, x, y, z);
    }
    RoundsAreBits(ToLanes(s), 24);
    RoundsAlike(BitsOf(ToLanes(s)), ArrayOf(b), 24);
    SameTrans(BitsOf(l), RoundsOfBits(BitsOf(ToLanes(s)), 24), a);
    forall m: nat, j: bv3 | m < 200 ensures ByteBit(Permuted(s)[m], j) == Permute(b)(m, j) {
      BytesHold(l, m, j);
      LaneAt(l, m / 8, Position(m % 8, j));
      assert m / 8 / 5 == m / 40;
    }
  }

  // ----- Absorbing -----

  lemma XorBits(b: bv8, c: bv8, j: bv3)
    ensures ByteBit(KeccakHash.Xor(b, c), j) == (ByteBit(b, j) != ByteBit(c, j))
  {
  }

  lemma PaddingBits(j: bv3)
    ensures ByteBit(0x81, j) == (j == 0 || j == 7) && ByteBit(0x01, j) == (j == 0)
    ensures ByteBit(0x80, j) == (j == 7) && !ByteBit(0, j)
  {
  }

  lemma PaddingLength(n: nat)
    ensures |Padding(n)| == 136 - n % 136 && n + |Padding(n)| == 136 * (n / 136 + 1)
  {
  }

  // The padded message, bit by bit.
  lemma PaddedHolds(message: seq<bv8>, m: nat, j: bv3)
    requires m < 136 * BlockCount(message)
    ensures |message + Padding(|message|)| == 136 * BlockCount(message)
    ensures ByteBit((message + Padding(|message|))[m], j) == PaddedBit(message, m, j)
  {
    hide ByteBit, Padding;
    var n := |message|;
    PaddingLength(n);
    PaddingBits(j);
    if m >= n { PaddingByte(n, m - n); }
  }

  lemma BlockHolds(message: seq<bv8>, k: nat, s: Buffer, b: Bytes)
    requires k < BlockCount(message) && Holds(s, b)
    ensures var p := message + Padding(|message|);
      && 136 * k + 136 <= |p|
      && Holds(XorBlock(s, p[136 * k..136 * k + 136]),
               (m: nat, j: bv3) => b(m, j) != (m < 136 && PaddedBit(message, 136 * k + m, j)))
  {
    hide ByteBit, Padding, KeccakHash.Xor, PaddedBit;
    PaddedHolds(message, 136 * k, 0);
    var block := (message + Padding(|message|))[136 * k..136 * k + 136];
    forall m: nat, j: bv3 | m < 136
      ensures ByteBit(XorBlock(s, block)[m], j) == (b(m, j) != PaddedBit(message, 136 * k + m, j)) {
      PaddedHolds(message, 136 * k + m, j);
      XorBits(s[m], block[m], j);
    }
  }

  lemma {:induction false} AbsorbHolds(message: seq<bv8>, k: nat, s: Buffer)
    requires k <= BlockCount(message) && Holds(s, Absorbed(message, k))
    ensures var p := message + Padding(|message|);
      && 136 * k <= |p| && Holds(Absorb(s, p[136 * k..]), Absorbed(message, BlockCount(message)))
    decreases BlockCount(message) - k
  {
    hide Holds, Permuted, XorBlock, Permute, Padding;
    var p, q := message + Padding(|message|), BlockCount(message);
    PaddingLength(|message|);
    if k < q {
      var rest, block := p[136 * k..], p[136 * k..136 * k + 136];
      BlockHolds(message, k, s, Absorbed(message, k));
      assert rest[..136] == block && rest[136..] == p[136 * (k + 1)..];
      var before := Absorbed(message, k);
      PermutedHolds(XorBlock(s, block),
        (m: nat, j: bv3) => before(m, j) != (m < 136 && PaddedBit(message, 136 * k + m, j)));
      AbsorbHolds(message, k + 1, Permuted(XorBlock(s, block)));
    }
  }

  // ----- Squeezing -----

  lemma {:induction false} SqueezeHolds(message: seq<bv8>, k: nat, s: Buffer, n: nat, m: nat, j: bv3)
    requires Holds(s, Squeezed(message, k)) && m < n
    ensures ByteBit(Squeeze(s, n)[m], j) == Squeezed(message, k + m / 136)(m % 136, j)
    decreases n
  {
    hide ByteBit, Permuted, Permute;
    if m >= 136 {
      PermutedHolds(s, Squeezed(message, k));
      SqueezeHolds(message, k + 1, Permuted(s), n - 136, m - 136, j);
      assert m / 136 == (m - 136) / 136 + 1 && m % 136 == (m - 136) % 136;
    }
  }

  /** Every bit of the hash, of any message and to any length, is the one that the standard's sponge
      with the standard's permutation puts out. */
  lemma HashBits(message: seq<bv8>, n: nat, m: nat, j: bv3)
    requires m < n
    ensures ByteBit(Hash(message, n)[m], j) == Squeezed(message, m / 136)(m % 136, j)
  {
    hide ByteBit, Padding, Absorb, Squeeze, Squeezed, Absorbed, Holds, Hash, BlockCount;
    var zero := HashFromZero(message, n);
    NothingAbsorbed(message, zero);
    AbsorbedWhole(message, zero);
    var p := message + Padding(|message|);
    FirstSqueezed(message);
    SqueezeHolds(message, 0, Absorb(zero, p), n, m, j);
  }

  lemma AbsorbedWhole(message: seq<bv8>, zero: Buffer)
    requires Holds(zero, Absorbed(message, 0))
    ensures Holds(Absorb(zero, message + Padding(|message|)), Absorbed(message, BlockCount(message)))
  {
    hide Padding, Absorb, Absorbed, Holds;
    var p := message + Padding(|message|);
    AbsorbHolds(message, 0, zero);
    assert p[0..] == p;
  }

  lemma HashFromZero(message: seq<bv8>, n: nat) returns (zero: Buffer)
    ensures forall m :: 0 <= m < 200 ==> zero[m] == 0
    ensures Hash(message, n) == Squeeze(Absorb(zero, message + Padding(|message|)), n)
  {
    hide Padding, Absorb, Squeeze;
    zero := seq(200, _ => 0);
  }

  lemma FirstSqueezed(message: seq<bv8>)
    ensures Squeezed(message, 0) == Absorbed(message, BlockCount(message))
  {
    hide Absorbed;
  }

  lemma NothingAbsorbed(message: seq<bv8>, zero: Buffer)
    requires forall m :: 0 <= m < 200 ==> zero[m] == 0
    ensures Holds(zero, Absorbed(message, 0))
  {
    hide ByteBit;
    forall m: nat, j: bv3 | m < 200 ensures !ByteBit(zero[m], j) { PaddingBits(j); }
  }
}
