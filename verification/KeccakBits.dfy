/**
 * The permutation bit by bit, as section 3.2 of FIPS 202 states it on the state array A[x, y, z]:
 * what the steps on lanes do is what it says of each bit.
 */
module KeccakBits {
  import opened Keccak

  // Whether A[x, y, z] is 1; the last coordinate is modulo the lane size of 64.
  type Bits = (nat, nat, bv6) -> bool

  predicate Bit(lane: bv64, z: bv6) {
    (lane >> z) & 1 == 1
  }

  function BitsOf(s: Lanes): Bits {
    (x: nat, y: nat, z: bv6) => x < 5 && y < 5 && Bit(s[5 * y + x], z)
  }

  ghost predicate Same(a: Bits, b: Bits) {
    forall x: nat, y: nat, z: bv6 :: x < 5 && y < 5 ==> a(x, y, z) == b(x, y, z)
  }

  // ----- The step mappings -----

  // Section 3.2.1: the parity of a column, and theta.
  predicate ColumnParity(a: Bits, x: nat, z: bv6) {
    a(x, 0, z) != (a(x, 1, z) != (a(x, 2, z) != (a(x, 3, z) != a(x, 4, z))))
  }

  function ThetaBits(a: Bits): Bits {
    (x: nat, y: nat, z: bv6) =>
      a(x, y, z) != (ColumnParity(a, (x + 4) % 5, z) != ColumnParity(a, (x + 1) % 5, z - 1))
  }

  // Section 3.2.2: the lane that is rotated in step t, and by how much.
  function Turning(t: nat): (lane: (nat, nat))
    ensures lane.0 < 5 && lane.1 < 5
  {
    if t == 0 then (1, 0)
    else
      var (x, y) := Turning(t - 1);
      (y, (2 * x + 3 * y) % 5)
  }

  function Turn(t: nat): (n: nat)
    ensures n < 64
  {
    (t + 1) * (t + 2) / 2 % 64
  }

  ghost function Offset(x: nat, y: nat): (n: nat)
    ensures n < 64
  {
    if exists t: nat :: t < 24 && Turning(t) == (x, y) then
      var t: nat :| t < 24 && Turning(t) == (x, y);
      Turn(t)
    else 0
  }

  ghost function RhoBits(a: Bits): Bits {
    (x: nat, y: nat, z: bv6) => a(x, y, z - Offset(x, y) as bv6)
  }

  // Section 3.2.3.
  function PiBits(a: Bits): Bits {
    (x: nat, y: nat, z: bv6) => a((x + 3 * y) % 5, x, z)
  }

  // Section 3.2.4.
  function ChiBits(a: Bits): Bits {
    (x: nat, y: nat, z: bv6) => a(x, y, z) != (!a((x + 1) % 5, y, z) && a((x + 2) % 5, y, z))
  }

  // Algorithm 5: the register's bits R[0] to R[7], and its first one after t steps.
  function RegisterBits(t: nat): (r: seq<bool>)
    ensures |r| == 8
  {
    if t == 0 then [true, false, false, false, false, false, false, false]
    else
      var r := RegisterBits(t - 1);
      [r[7], r[0], r[1], r[2], r[3] != r[7], r[4] != r[7], r[5] != r[7], r[6]]
  }

  // Section 3.2.5: of the lane (0, 0) the bits 2^j - 1 take part.
  predicate RoundBit(i: nat, z: bv6) {
    match z
    case 0 => RegisterBits(7 * i)[0]
    case 1 => RegisterBits(7 * i + 1)[0]
    case 3 => RegisterBits(7 * i + 2)[0]
    case 7 => RegisterBits(7 * i + 3)[0]
    case 15 => RegisterBits(7 * i + 4)[0]
    case 31 => RegisterBits(7 * i + 5)[0]
    case 63 => RegisterBits(7 * i + 6)[0]
    case _ => false
  }

  function IotaBits(a: Bits, i: nat): Bits {
    (x: nat, y: nat, z: bv6) => a(x, y, z) != (x == 0 && y == 0 && RoundBit(i, z))
  }

  // The first n rounds.
  ghost function RoundsOfBits(a: Bits, n: nat): Bits {
    if n == 0 then a else IotaBits(ChiBits(PiBits(RhoBits(ThetaBits(RoundsOfBits(a, n - 1))))), n - 1)
  }

  // ----- Bits of lanes -----

  lemma BitOfXor(p: bv64, q: bv64, z: bv6)
    ensures Bit(p ^ q, z) <==> Bit(p, z) != Bit(q, z)
  {
  }

  lemma BitOfOr(p: bv64, q: bv64, z: bv6)
    ensures Bit(p | q, z) <==> Bit(p, z) || Bit(q, z)
  {
  }

  lemma XorBit(p: bv64, q: bv64, z: bv6)
    ensures Bit(Xor(p, q), z) <==> Bit(p, z) != Bit(q, z)
  {
    hide Bit;
    BitOfXor(p, q, z);
  }

  lemma AndNotBit(q: bv64, r: bv64, z: bv6)
    ensures Bit(!q & r, z) <==> !Bit(q, z) && Bit(r, z)
  {
  }

  lemma MixBit(p: bv64, q: bv64, r: bv64, z: bv6)
    ensures Bit(Mix(p, q, r), z) <==> Bit(p, z) != (!Bit(q, z) && Bit(r, z))
  {
    hide Bit;
    AndNotBit(q, r, z);
    BitOfXor(p, !q & r, z);
  }

  lemma Xor3Bit(p: bv64, q: bv64, r: bv64, z: bv6)
    ensures Bit(Xor3(p, q, r), z) <==> Bit(p, z) != (Bit(q, z) != Bit(r, z))
  {
    hide Bit;
    BitOfXor(q, r, z);
    BitOfXor(p, q ^ r, z);
  }

  lemma RolOne(x: bv64, z: bv6)
    ensures Bit(Rol(x, 1), z) <==> Bit(x, z - 1)
  {
  }

  lemma ZeroBit(z: bv6)
    ensures !Bit(0, z)
  {
  }

  lemma Index(x: nat, y: nat)
    requires x < 5 && y < 5
    ensures 5 * y + x < 25 && (5 * y + x) % 5 == x && (5 * y + x) / 5 == y
  {
  }

  lemma LaneBit(s: Lanes, x: nat, y: nat, z: bv6)
    requires x < 5 && y < 5
    ensures BitsOf(s)(x, y, z) == Bit(At(s, x, y), z)
  {
    hide Bit;
  }

  lemma ParityUnfolds(s: Lanes, x: nat, n: nat)
    requires x < 5 && n < 5
    ensures Parity(s, x, n + 1) == Xor(Parity(s, x, n), At(s, x, n)) && Parity(s, x, 0) == 0
  {
    hide At, Xor;
  }

  lemma ParityStep(s: Lanes, x: nat, n: nat, z: bv6)
    requires x < 5 && n < 5
    ensures Bit(Parity(s, x, n + 1), z) <==> Bit(Parity(s, x, n), z) != BitsOf(s)(x, n, z)
  {
    hide Bit, Parity, At, BitsOf, Xor;
    ParityUnfolds(s, x, n);
    LaneBit(s, x, n, z);
    XorBit(Parity(s, x, n), At(s, x, n), z);
  }

  lemma ParityBit(s: Lanes, x: nat, z: bv6)
    requires x < 5
    ensures Bit(Parity(s, x, 5), z) <==> ColumnParity(BitsOf(s), x, z)
  {
    hide Bit, Parity, BitsOf;
    ZeroBit(z);
    ParityUnfolds(s, x, 0);
    ParityStep(s, x, 0, z);
    ParityStep(s, x, 1, z);
    ParityStep(s, x, 2, z);
    ParityStep(s, x, 3, z);
    ParityStep(s, x, 4, z);
  }

  lemma ThetaAt(s: Lanes, x: nat, y: nat)
    requires x < 5 && y < 5
    ensures At(Theta(s), x, y) == Xor3(At(s, x, y), Parity(s, (x + 4) % 5, 5), Rol(Parity(s, (x + 1) % 5, 5), 1))
  {
    hide Parity, Rol, Xor3;
    Index(x, y);
  }

  lemma ThetaLaneBit(s: Lanes, x: nat, y: nat, z: bv6)
    requires x < 5 && y < 5
    ensures var flips := ColumnParity(BitsOf(s), (x + 4) % 5, z) != ColumnParity(BitsOf(s), (x + 1) % 5, z - 1);
      Bit(At(Theta(s), x, y), z) <==> Bit(At(s, x, y), z) != flips
  {
    hide Bit, Parity, Rol, Xor3, ColumnParity, BitsOf, At, Theta;
    var l, r := Parity(s, (x + 4) % 5, 5), Parity(s, (x + 1) % 5, 5);
    ThetaAt(s, x, y);
    Xor3Bit(At(s, x, y), l, Rol(r, 1), z);
    RolOne(r, z);
    ParityBit(s, (x + 4) % 5, z);
    ParityBit(s, (x + 1) % 5, z - 1);
  }

  /** Theta flips a bit exactly if the parities of the two columns of section 3.2.1 differ. */
  lemma ThetaFlips(s: Lanes, x: nat, y: nat, z: bv6)
    requires x < 5 && y < 5
    ensures BitsOf(Theta(s))(x, y, z) == ThetaBits(BitsOf(s))(x, y, z)
  {
    hide Bit, ColumnParity, BitsOf, At, Theta;
    ThetaLaneBit(s, x, y, z);
    LaneBit(s, x, y, z);
    LaneBit(Theta(s), x, y, z);
  }

  lemma ChiAt(s: Lanes, x: nat, y: nat)
    requires x < 5 && y < 5
    ensures At(Chi(s), x, y) == Mix(At(s, x, y), At(s, (x + 1) % 5, y), At(s, (x + 2) % 5, y))
  {
    hide Mix;
    Index(x, y);
  }

  /** Chi flips a bit exactly if its neighbour in the row is 0 and the one after that is 1. */
  lemma ChiFlips(s: Lanes, x: nat, y: nat, z: bv6)
    requires x < 5 && y < 5
    ensures BitsOf(Chi(s))(x, y, z) == ChiBits(BitsOf(s))(x, y, z)
  {
    hide Bit, Mix, BitsOf, At, Chi;
    ChiAt(s, x, y);
    LaneBit(s, x, y, z);
    LaneBit(s, (x + 1) % 5, y, z);
    LaneBit(s, (x + 2) % 5, y, z);
    LaneBit(Chi(s), x, y, z);
    MixBit(At(s, x, y), At(s, (x + 1) % 5, y), At(s, (x + 2) % 5, y), z);
  }

  lemma PiAt(s: Lanes, x: nat, y: nat)
    requires x < 5 && y < 5
    ensures At(Pi(s), x, y) == At(s, (x + 3 * y) % 5, x)
  {
    Index(x, y);
  }

  lemma PiMoves(s: Lanes, x: nat, y: nat, z: bv6)
    requires x < 5 && y < 5
    ensures BitsOf(Pi(s))(x, y, z) == PiBits(BitsOf(s))(x, y, z)
  {
    hide Bit, BitsOf, At, Pi;
    PiAt(s, x, y);
    LaneBit(s, (x + 3 * y) % 5, x, z);
    LaneBit(Pi(s), x, y, z);
  }

  // ----- Rho -----

  lemma {:induction false} TurningIsChain(t: nat)
    ensures Chain(t) == 5 * Turning(t).1 + Turning(t).0
    decreases t
  {
    if t > 0 {
      TurningIsChain(t - 1);
      var (x, y) := Turning(t - 1);
      Index(x, y);
    }
  }

  lemma TurnInTable(t: nat)
    requires t < 24
    ensures OFFSETS[Chain(t)] as nat == Turn(t)
  {
    hide Chain;
    ChainSteps(t);
  }

  // Whatever step turns a lane, its offset is that of the table.
  lemma OffsetInTable(x: nat, y: nat)
    requires x < 5 && y < 5
    ensures OFFSETS[5 * y + x] as nat == Offset(x, y)
  {
    hide Chain, Turning, Turn, OFFSETS;
    FirstLaneStays();
    if t: nat :| t < 24 && Turning(t) == (x, y) {
      forall t: nat | t < 24 && Turning(t) == (x, y) ensures OFFSETS[5 * y + x] as nat == Turn(t) {
        TurningIsChain(t);
        TurnInTable(t);
      }
    } else if x > 0 || y > 0 {
      EveryLaneTurns(x, y);
    }
  }

  lemma FirstLaneStays()
    ensures |OFFSETS| == 25 && OFFSETS[0] as nat == 0
  {
  }

  lemma EveryLaneTurns(x: nat, y: nat)
    requires x < 5 && y < 5 && (x > 0 || y > 0)
    ensures exists t: nat :: t < 24 && Turning(t) == (x, y)
  {
    hide Chain, Turning;
    var i := 5 * y + x;
    ChainEnters(i);
    var t := if ENTERED[i] == 23 then 0 else ENTERED[i] + 1;
    LastTurn();
    if ENTERED[i] < 23 { ChainSteps(ENTERED[i]); }
    TurningIsChain(t);
    var (u, v) := Turning(t);
    Index(x, y);
    Index(u, v);
    assert Turning(t) == (x, y);
  }

  // The chain closes: its last step enters the lane that was turned first.
  lemma LastTurn()
    ensures PI[23] == 1 == Chain(0)
  {
  }

  // A rotation moves bits, row by row of the table of offsets.
  lemma RotationsRow0(x: bv64)
    ensures Rol(x, 1) == (x << 1) | (x >> 63)
    ensures Rol(x, 62) == (x << 62) | (x >> 2)
    ensures Rol(x, 28) == (x << 28) | (x >> 36)
    ensures Rol(x, 27) == (x << 27) | (x >> 37)
  {
  }

  lemma MovesRow0(x: bv64, z: bv6)
    ensures Bit((x << 1) | (x >> 63), z) <==> Bit(x, z - 1)
    ensures Bit((x << 62) | (x >> 2), z) <==> Bit(x, z - 62)
    ensures Bit((x << 28) | (x >> 36), z) <==> Bit(x, z - 28)
    ensures Bit((x << 27) | (x >> 37), z) <==> Bit(x, z - 27)
  {
  }

  lemma RotationsRow1(x: bv64)
    ensures Rol(x, 36) == (x << 36) | (x >> 28)
    ensures Rol(x, 44) == (x << 44) | (x >> 20)
    ensures Rol(x, 6) == (x << 6) | (x >> 58)
    ensures Rol(x, 55) == (x << 55) | (x >> 9)
    ensures Rol(x, 20) == (x << 20) | (x >> 44)
  {
  }

  lemma MovesRow1(x: bv64, z: bv6)
    ensures Bit((x << 36) | (x >> 28), z) <==> Bit(x, z - 36)
    ensures Bit((x << 44) | (x >> 20), z) <==> Bit(x, z - 44)
    ensures Bit((x << 6) | (x >> 58), z) <==> Bit(x, z - 6)
    ensures Bit((x << 55) | (x >> 9), z) <==> Bit(x, z - 55)
    ensures Bit((x << 20) | (x >> 44), z) <==> Bit(x, z - 20)
  {
  }

  lemma RotationsRow2(x: bv64)
    ensures Rol(x, 3) == (x << 3) | (x >> 61)
    ensures Rol(x, 10) == (x << 10) | (x >> 54)
    ensures Rol(x, 43) == (x << 43) | (x >> 21)
    ensures Rol(x, 25) == (x << 25) | (x >> 39)
    ensures Rol(x, 39) == (x << 39) | (x >> 25)
  {
  }

  lemma MovesRow2(x: bv64, z: bv6)
    ensures Bit((x << 3) | (x >> 61), z) <==> Bit(x, z - 3)
    ensures Bit((x << 10) | (x >> 54), z) <==> Bit(x, z - 10)
    ensures Bit((x << 43) | (x >> 21), z) <==> Bit(x, z - 43)
    ensures Bit((x << 25) | (x >> 39), z) <==> Bit(x, z - 25)
    ensures Bit((x << 39) | (x >> 25), z) <==> Bit(x, z - 39)
  {
  }

  lemma RotationsRow3(x: bv64)
    ensures Rol(x, 41) == (x << 41) | (x >> 23)
    ensures Rol(x, 45) == (x << 45) | (x >> 19)
    ensures Rol(x, 15) == (x << 15) | (x >> 49)
    ensures Rol(x, 21) == (x << 21) | (x >> 43)
    ensures Rol(x, 8) == (x << 8) | (x >> 56)
  {
  }

  lemma MovesRow3(x: bv64, z: bv6)
    ensures Bit((x << 41) | (x >> 23), z) <==> Bit(x, z - 41)
    ensures Bit((x << 45) | (x >> 19), z) <==> Bit(x, z - 45)
    ensures Bit((x << 15) | (x >> 49), z) <==> Bit(x, z - 15)
    ensures Bit((x << 21) | (x >> 43), z) <==> Bit(x, z - 21)
    ensures Bit((x << 8) | (x >> 56), z) <==> Bit(x, z - 8)
  {
  }

  lemma RotationsRow4(x: bv64)
    ensures Rol(x, 18) == (x << 18) | (x >> 46)
    ensures Rol(x, 2) == (x << 2) | (x >> 62)
    ensures Rol(x, 61) == (x << 61) | (x >> 3)
    ensures Rol(x, 56) == (x << 56) | (x >> 8)
    ensures Rol(x, 14) == (x << 14) | (x >> 50)
  {
  }

  lemma MovesRow4(x: bv64, z: bv6)
    ensures Bit((x << 18) | (x >> 46), z) <==> Bit(x, z - 18)
    ensures Bit((x << 2) | (x >> 62), z) <==> Bit(x, z - 2)
    ensures Bit((x << 61) | (x >> 3), z) <==> Bit(x, z - 61)
    ensures Bit((x << 56) | (x >> 8), z) <==> Bit(x, z - 56)
    ensures Bit((x << 14) | (x >> 50), z) <==> Bit(x, z - 14)
  {
  }

  lemma RolRow0(x: bv64, i: nat, z: bv6)
    requires 1 <= i < 5
    ensures OFFSETS[i] < 64 && (Bit(Rol(x, OFFSETS[i]), z) <==> Bit(x, z - OFFSETS[i] as bv6))
  {
    hide Bit, Rol;
    RotationsRow0(x);
    MovesRow0(x, z);
  }

  lemma RolRow1(x: bv64, i: nat, z: bv6)
    requires 5 <= i < 10
    ensures OFFSETS[i] < 64 && (Bit(Rol(x, OFFSETS[i]), z) <==> Bit(x, z - OFFSETS[i] as bv6))
  {
    hide Bit, Rol;
    RotationsRow1(x);
    MovesRow1(x, z);
  }

  lemma RolRow2(x: bv64, i: nat, z: bv6)
    requires 10 <= i < 15
    ensures OFFSETS[i] < 64 && (Bit(Rol(x, OFFSETS[i]), z) <==> Bit(x, z - OFFSETS[i] as bv6))
  {
    hide Bit, Rol;
    RotationsRow2(x);
    MovesRow2(x, z);
  }

  lemma RolRow3(x: bv64, i: nat, z: bv6)
    requires 15 <= i < 20
    ensures OFFSETS[i] < 64 && (Bit(Rol(x, OFFSETS[i]), z) <==> Bit(x, z - OFFSETS[i] as bv6))
  {
    hide Bit, Rol;
    RotationsRow3(x);
    MovesRow3(x, z);
  }

  lemma RolRow4(x: bv64, i: nat, z: bv6)
    requires 20 <= i < 25
    ensures OFFSETS[i] < 64 && (Bit(Rol(x, OFFSETS[i]), z) <==> Bit(x, z - OFFSETS[i] as bv6))
  {
    hide Bit, Rol;
    RotationsRow4(x);
    MovesRow4(x, z);
  }

  lemma RolBit(x: bv64, i: nat, z: bv6)
    requires 0 < i < 25
    ensures OFFSETS[i] < 64 && (Bit(Rol(x, OFFSETS[i]), z) <==> Bit(x, z - OFFSETS[i] as bv6))
  {
    hide Bit, Rol;
    if i < 5 { RolRow0(x, i, z); }
    else if i < 10 { RolRow1(x, i, z); }
    else if i < 15 { RolRow2(x, i, z); }
    else if i < 20 { RolRow3(x, i, z); }
    else { RolRow4(x, i, z); }
  }

  lemma RhoAt(s: Lanes, x: nat, y: nat)
    requires x < 5 && y < 5
    ensures At(Rho(s), x, y) == if x == 0 && y == 0 then At(s, x, y) else Rol(At(s, x, y), OFFSETS[5 * y + x])
  {
    hide Rol;
    Index(x, y);
  }

  lemma SameOffset(o: bv7, n: nat)
    requires o as nat == n < 64
    ensures o as bv6 == n as bv6
  {
  }

  lemma RhoLaneBit(s: Lanes, x: nat, y: nat, z: bv6)
    requires x < 5 && y < 5
    ensures Bit(At(Rho(s), x, y), z) <==> Bit(At(s, x, y), z - Offset(x, y) as bv6)
  {
    hide Bit, At, Rho, Rol, Offset, OFFSETS;
    FirstLaneStays();
    RhoAt(s, x, y);
    OffsetInTable(x, y);
    SameOffset(OFFSETS[5 * y + x], Offset(x, y));
    if x > 0 || y > 0 { RolBit(At(s, x, y), 5 * y + x, z); }
  }

  /** Rho moves the bits of a lane by the offset of the step that turns it, and leaves (0, 0) alone. */
  lemma RhoTurns(s: Lanes, x: nat, y: nat, z: bv6)
    requires x < 5 && y < 5
    ensures BitsOf(Rho(s))(x, y, z) == RhoBits(BitsOf(s))(x, y, z)
  {
    hide Bit, BitsOf, At, Rho, Offset;
    RhoLaneBit(s, x, y, z);
    LaneBit(Rho(s), x, y, z);
    LaneBit(s, x, y, z - Offset(x, y) as bv6);
  }

  // ----- Iota -----

  predicate ByteBit(r: bv8, k: bv3) {
    (r >> k) & 1 == 1
  }

  lemma ShiftBits(r: bv8)
    ensures ByteBit(Shift(r), 0) == ByteBit(r, 7) && ByteBit(Shift(r), 1) == ByteBit(r, 0)
    ensures ByteBit(Shift(r), 2) == ByteBit(r, 1) && ByteBit(Shift(r), 3) == ByteBit(r, 2)
    ensures ByteBit(Shift(r), 4) == (ByteBit(r, 3) != ByteBit(r, 7))
    ensures ByteBit(Shift(r), 5) == (ByteBit(r, 4) != ByteBit(r, 7))
    ensures ByteBit(Shift(r), 6) == (ByteBit(r, 5) != ByteBit(r, 7)) && ByteBit(Shift(r), 7) == ByteBit(r, 6)
  {
  }

  lemma {:induction false} RegisterIsBits(t: nat)
    ensures var r, bits := Register(t), RegisterBits(t);
      bits == [ByteBit(r, 0), ByteBit(r, 1), ByteBit(r, 2), ByteBit(r, 3),
               ByteBit(r, 4), ByteBit(r, 5), ByteBit(r, 6), ByteBit(r, 7)]
    decreases t
  {
    if t == 0 {
      FirstRegister();
    } else {
      hide ByteBit, Shift;
      RegisterIsBits(t - 1);
      ShiftBits(Register(t - 1));
    }
  }

  lemma FirstRegister()
    ensures ByteBit(1, 0) && !ByteBit(1, 1) && !ByteBit(1, 2) && !ByteBit(1, 3)
    ensures !ByteBit(1, 4) && !ByteBit(1, 5) && !ByteBit(1, 6) && !ByteBit(1, 7)
  {
  }

  // The bits the register puts out stand at the positions 2^j - 1.
  predicate Placed(b0: bool, b1: bool, b2: bool, b3: bool, b4: bool, b5: bool, b6: bool, z: bv6) {
    || (b0 && z == 0) || (b1 && z == 1) || (b2 && z == 3) || (b3 && z == 7) || (b4 && z == 15) || (b5 && z == 31)
    || (b6 && z == 63)
  }

  lemma PlaceBit(r: bv8, z: bv6)
    ensures Bit(Place(r, 0), z) <==> ByteBit(r, 0) && z == 0
    ensures Bit(Place(r, 1), z) <==> ByteBit(r, 0) && z == 1
    ensures Bit(Place(r, 3), z) <==> ByteBit(r, 0) && z == 3
    ensures Bit(Place(r, 7), z) <==> ByteBit(r, 0) && z == 7
    ensures Bit(Place(r, 15), z) <==> ByteBit(r, 0) && z == 15
    ensures Bit(Place(r, 31), z) <==> ByteBit(r, 0) && z == 31
    ensures Bit(Place(r, 63), z) <==> ByteBit(r, 0) && z == 63
  {
  }

  lemma OrBit(p: bv64, q: bv64, z: bv6)
    ensures Bit(Or(p, q), z) <==> Bit(p, z) || Bit(q, z)
  {
    hide Bit;
    BitOfOr(p, q, z);
  }

  lemma ConstantBit(r0: bv8, z: bv6)
    ensures var r1 := Shift(r0);
      var r2 := Shift(r1);
      var r3 := Shift(r2);
      var r4 := Shift(r3);
      var r5 := Shift(r4);
      var r6 := Shift(r5);
      Bit(Constant(r0), z) <==> Placed(ByteBit(r0, 0), ByteBit(r1, 0), ByteBit(r2, 0), ByteBit(r3, 0),
        ByteBit(r4, 0), ByteBit(r5, 0), ByteBit(r6, 0), z)
  {
    hide Bit, Place, Or, Shift, ByteBit, OutBit;
    var r1 := Shift(r0);
    var r2 := Shift(r1);
    var r3 := Shift(r2);
    var r4 := Shift(r3);
    var r5 := Shift(r4);
    var r6 := Shift(r5);
    PlaceBit(r0, z);
    PlaceBit(r1, z);
    PlaceBit(r2, z);
    PlaceBit(r3, z);
    PlaceBit(r4, z);
    PlaceBit(r5, z);
    PlaceBit(r6, z);
    var o1 := Or(Place(r0, 0), Place(r1, 1));
    var o2 := Or(o1, Place(r2, 3));
    var o3 := Or(o2, Place(r3, 7));
    var o4 := Or(o3, Place(r4, 15));
    var o5 := Or(o4, Place(r5, 31));
    OrBit(Place(r0, 0), Place(r1, 1), z);
    OrBit(o1, Place(r2, 3), z);
    OrBit(o2, Place(r3, 7), z);
    OrBit(o3, Place(r4, 15), z);
    OrBit(o4, Place(r5, 31), z);
    OrBit(o5, Place(r6, 63), z);
  }

  lemma OutIs(t: nat)
    ensures ByteBit(Register(t), 0) == RegisterBits(t)[0] && Register(t + 1) == Shift(Register(t))
  {
    hide ByteBit, Shift;
    RegisterIsBits(t);
  }

  lemma RoundConstantBit(i: nat, z: bv6)
    ensures Bit(RoundConstant(i), z) <==> RoundBit(i, z)
  {
    hide Bit, Constant, Register, RegisterBits, Shift, ByteBit;
    ConstantBit(Register(7 * i), z);
    OutIs(7 * i);
    OutIs(7 * i + 1);
    OutIs(7 * i + 2);
    OutIs(7 * i + 3);
    OutIs(7 * i + 4);
    OutIs(7 * i + 5);
    OutIs(7 * i + 6);
  }

  lemma IotaLaneBit(s: Lanes, c: bv64, x: nat, y: nat, z: bv6)
    requires x < 5 && y < 5
    ensures Bit(At(Iota(s, c), x, y), z) <==> Bit(At(s, x, y), z) != (x == 0 && y == 0 && Bit(c, z))
  {
    hide Bit, Xor;
    XorBit(At(s, 0, 0), c, z);
  }

  lemma IotaFlips(s: Lanes, i: nat, x: nat, y: nat, z: bv6)
    requires x < 5 && y < 5
    ensures BitsOf(Iota(s, RoundConstant(i)))(x, y, z) == IotaBits(BitsOf(s), i)(x, y, z)
  {
    hide Bit, BitsOf, RoundConstant, RoundBit, Iota, At;
    IotaLaneBit(s, RoundConstant(i), x, y, z);
    LaneBit(s, x, y, z);
    LaneBit(Iota(s, RoundConstant(i)), x, y, z);
    RoundConstantBit(i, z);
  }

  // ----- The permutation -----

  // Each step looks at bits of the state only.
  lemma StepsAlike(a: Bits, b: Bits, i: nat)
    requires Same(a, b)
    ensures Same(ThetaBits(a), ThetaBits(b)) && Same(RhoBits(a), RhoBits(b)) && Same(PiBits(a), PiBits(b))
    ensures Same(ChiBits(a), ChiBits(b)) && Same(IotaBits(a, i), IotaBits(b, i))
  {
    hide Offset, RoundBit;
  }

  lemma StepIsBits(s: Lanes, i: nat)
    ensures Same(BitsOf(Theta(s)), ThetaBits(BitsOf(s))) && Same(BitsOf(Rho(s)), RhoBits(BitsOf(s)))
    ensures Same(BitsOf(Pi(s)), PiBits(BitsOf(s))) && Same(BitsOf(Chi(s)), ChiBits(BitsOf(s)))
    ensures Same(BitsOf(Iota(s, RoundConstant(i))), IotaBits(BitsOf(s), i))
  {
    hide BitsOf, ThetaBits, RhoBits, PiBits, ChiBits, IotaBits, Theta, Rho, Pi, Chi, Iota, RoundConstant;
    forall x: nat, y: nat, z: bv6 | x < 5 && y < 5
      ensures BitsOf(Theta(s))(x, y, z) == ThetaBits(BitsOf(s))(x, y, z) { ThetaFlips(s, x, y, z); }
    forall x: nat, y: nat, z: bv6 | x < 5 && y < 5
      ensures BitsOf(Rho(s))(x, y, z) == RhoBits(BitsOf(s))(x, y, z) { RhoTurns(s, x, y, z); }
    forall x: nat, y: nat, z: bv6 | x < 5 && y < 5
      ensures BitsOf(Pi(s))(x, y, z) == PiBits(BitsOf(s))(x, y, z) { PiMoves(s, x, y, z); }
    forall x: nat, y: nat, z: bv6 | x < 5 && y < 5
      ensures BitsOf(Chi(s))(x, y, z) == ChiBits(BitsOf(s))(x, y, z) { ChiFlips(s, x, y, z); }
    forall x: nat, y: nat, z: bv6 | x < 5 && y < 5
      ensures BitsOf(Iota(s, RoundConstant(i)))(x, y, z)
        == IotaBits(BitsOf(s), i)(x, y, z) { IotaFlips(s, i, x, y, z); }
  }

  lemma SameTrans(a: Bits, b: Bits, c: Bits)
    requires Same(a, b) && Same(b, c)
    ensures Same(a, c)
  {
  }

  /** The rounds on lanes are the rounds of the standard on bits. */
  lemma {:induction false} RoundsAreBits(s: Lanes, n: nat)
    requires n <= 24
    ensures Same(BitsOf(Rounds(s, n)), RoundsOfBits(BitsOf(s), n))
    decreases n
  {
    hide BitsOf, ThetaBits, RhoBits, PiBits, ChiBits, IotaBits, Theta, Rho, Pi, Chi, Iota, RoundConstant, Same;
    if n == 0 {
      SameItself(BitsOf(s));
    } else {
      var l, b := Rounds(s, n - 1), RoundsOfBits(BitsOf(s), n - 1);
      RoundsAreBits(s, n - 1);
      var l1, b1 := Theta(l), ThetaBits(b);
      StepIsBits(l, n - 1);
      StepsAlike(BitsOf(l), b, n - 1);
      SameTrans(BitsOf(l1), ThetaBits(BitsOf(l)), b1);
      var l2, b2 := Rho(l1), RhoBits(b1);
      StepIsBits(l1, n - 1);
      StepsAlike(BitsOf(l1), b1, n - 1);
      SameTrans(BitsOf(l2), RhoBits(BitsOf(l1)), b2);
      var l3, b3 := Pi(l2), PiBits(b2);
      StepIsBits(l2, n - 1);
      StepsAlike(BitsOf(l2), b2, n - 1);
      SameTrans(BitsOf(l3), PiBits(BitsOf(l2)), b3);
      var l4, b4 := Chi(l3), ChiBits(b3);
      StepIsBits(l3, n - 1);
      StepsAlike(BitsOf(l3), b3, n - 1);
      SameTrans(BitsOf(l4), ChiBits(BitsOf(l3)), b4);
      StepIsBits(l4, n - 1);
      StepsAlike(BitsOf(l4), b4, n - 1);
      SameTrans(BitsOf(Iota(l4, RoundConstant(n - 1))), IotaBits(BitsOf(l4), n - 1), IotaBits(b4, n - 1));
    }
  }

  lemma SameItself(a: Bits)
    ensures Same(a, a)
  {
  }
}
