/**
 * The Keccak-f[1600] permutation: the in-place steps on 25 lanes, with one temporary for the
 * rho/pi chain, are the simultaneous step mappings of sections 3.2.1 to 3.2.5 of FIPS 202.
 * Lane (x, y) is at index 5 * y + x.
 */
module Keccak {
  type Lanes = s: seq<bv64> | |s| == 25 witness seq(25, _ => 0)

  // ----- Step mappings of FIPS 202 -----

  function Rol(x: bv64, n: bv7): bv64
    requires n <= 64
  {
    (x << n) | (x >> (64 - n))
  }

  function At(s: Lanes, x: nat, y: nat): bv64
    requires x < 5 && y < 5
  {
    s[5 * y + x]
  }

  // The parity of the first n lanes of column x.
  function Parity(s: Lanes, x: nat, n: nat): bv64
    requires x < 5 && n <= 5
  {
    if n == 0 then 0 else Xor(Parity(s, x, n - 1), At(s, x, n - 1))
  }

  function Theta(s: Lanes): Lanes {
    seq(25, i requires 0 <= i < 25 => ThetaLane(s, i % 5, i / 5))
  }

  // Lane (x, y) with the parities of the columns on either side, the right one rotated.
  function ThetaLane(s: Lanes, x: nat, y: nat): bv64
    requires x < 5 && y < 5
  {
    Xor3(At(s, x, y), Parity(s, (x + 4) % 5, 5), Rol(Parity(s, (x + 1) % 5, 5), 1))
  }

  function Xor(p: bv64, q: bv64): bv64 {
    p ^ q
  }

  function Xor3(p: bv64, q: bv64, r: bv64): bv64 {
    p ^ (q ^ r)
  }

  // Offsets of rho, Table 2 of FIPS 202, modulo the lane size, in the order of the lanes.
  const OFFSETS: seq<bv7> := [
    0, 1, 62, 28, 27,
    36, 44, 6, 55, 20,
    3, 10, 43, 25, 39,
    41, 45, 15, 21, 8,
    18, 2, 61, 56, 14]

  function RhoLane(s: Lanes, i: nat): bv64
    requires i < 25
  {
    if i == 0 then s[0] else Rol(s[i], OFFSETS[i])
  }

  function Rho(s: Lanes): Lanes {
    seq(25, i requires 0 <= i < 25 => RhoLane(s, i))
  }

  // Pi takes lane (x, y) from lane ((x + 3 * y) % 5, x).
  function PiSource(i: nat): (j: nat)
    requires i < 25
    ensures j < 25
  {
    var x, y := i % 5, i / 5;
    5 * x + (x + 3 * y) % 5
  }

  function Pi(s: Lanes): Lanes {
    seq(25, i requires 0 <= i < 25 => s[PiSource(i)])
  }

  function ChiLane(s: Lanes, x: nat, y: nat): bv64
    requires x < 5 && y < 5
  {
    Mix(At(s, x, y), At(s, (x + 1) % 5, y), At(s, (x + 2) % 5, y))
  }

  function Mix(p: bv64, q: bv64, r: bv64): bv64 {
    p ^ (!q & r)
  }

  function Chi(s: Lanes): Lanes {
    seq(25, i requires 0 <= i < 25 => ChiLane(s, i % 5, i / 5))
  }

  function Iota(s: Lanes, c: bv64): Lanes {
    s[0 := Xor(s[0], c)]
  }

  // ----- Tables -----

  const RHO: seq<bv7> := [
    1, 3, 6, 10, 15, 21,
    28, 36, 45, 55, 2, 14,
    27, 41, 56, 8, 25, 43,
    62, 18, 39, 61, 20, 44]

  const PI: seq<nat> := [
    10, 7, 11, 17, 18, 3,
    5, 16, 8, 21, 24, 4,
    15, 23, 19, 13, 12, 2,
    20, 14, 22, 9, 6, 1]

  const RC: seq<bv64> := [
    0x1, 0x8082, 0x800000000000808a, 0x8000000080008000,
    0x808b, 0x80000001, 0x8000000080008081, 0x8000000000008009,
    0x8a, 0x88, 0x80008009, 0x8000000a,
    0x8000808b, 0x800000000000008b, 0x8000000000008089, 0x8000000000008003,
    0x8000000000008002, 0x8000000000000080, 0x800a, 0x800000008000000a,
    0x8000000080008081, 0x8000000000008080, 0x80000001, 0x8000000080008008]

  // From lane (x, y) the chain goes to lane (y, (2 * x + 3 * y) % 5).
  function Next(i: nat): (j: nat)
    requires i < 25
    ensures j < 25
  {
    var x, y := i % 5, i / 5;
    5 * ((2 * x + 3 * y) % 5) + y
  }

  // Where the chain is after t steps; it starts at lane (1, 0).
  function Chain(t: nat): (i: nat)
    ensures i < 25
  {
    if t == 0 then 1 else Next(Chain(t - 1))
  }

  // The index in the table of the step that enters a lane other than lane 0.
  const ENTERED: seq<nat> := [
    24, 23, 17, 5, 11,
    6, 22, 1, 8, 21,
    0, 2, 16, 15, 19,
    12, 7, 3, 4, 14,
    18, 9, 20, 13, 10]

  /** The tables are those of the standard: the pi table is the chain's path, the rho table gives
      each lane on it the triangular number the standard rotates it by, and pi moves a lane
      along the chain. */
  lemma ChainSteps(t: nat)
    requires t < 24
    ensures Chain(t + 1) == PI[t] && PiSource(Chain(t + 1)) == Chain(t)
    ensures RHO[t] == OFFSETS[Chain(t)] && RHO[t] as nat == Triangular(t)
  {
    hide Next, PiSource, Triangular, Chain;
    ChainPath(t);
    RhoStep(t, Chain(t));
  }

  lemma {:induction false} ChainPath(t: nat)
    requires t < 24
    ensures Chain(t) == (if t == 0 then 1 else PI[t - 1]) && Chain(t + 1) == PI[t]
    ensures PiSource(Chain(t + 1)) == Chain(t)
    decreases t
  {
    hide Next, PiSource;
    if t > 0 { ChainPath(t - 1); }
    PiStep(t, if t == 0 then 1 else PI[t - 1]);
    NextComesFrom(Chain(t));
  }

  lemma PiStep(t: nat, i: nat)
    requires t < 24 && i == if t == 0 then 1 else PI[t - 1]
    ensures i < 25 && PI[t] == Next(i)
  {
    hide Next;
    if t < 12 { EarlyPi(t, i); } else { LatePi(t, i); }
  }

  lemma EarlyPi(t: nat, i: nat)
    requires t < 12 && i == if t == 0 then 1 else PI[t - 1]
    ensures i < 25 && PI[t] == Next(i)
  {
    match t
    case 0 | 1 | 2 | 3 | 4 | 5 =>
    case _ =>
  }

  lemma LatePi(t: nat, i: nat)
    requires 12 <= t < 24 && i == PI[t - 1]
    ensures i < 25 && PI[t] == Next(i)
  {
    match t
    case 12 | 13 | 14 | 15 | 16 | 17 =>
    case _ =>
  }

  lemma RhoStep(t: nat, i: nat)
    requires t < 24 && i == if t == 0 then 1 else PI[t - 1]
    ensures i < 25 && RHO[t] == OFFSETS[i] && RHO[t] as nat == Triangular(t)
  {
    hide Triangular;
    if t < 12 { EarlyRho(t, i); } else { LateRho(t, i); }
  }

  // The offsets of section 3.2.2 along the path.
  function Triangular(t: nat): nat {
    (t + 1) * (t + 2) / 2 % 64
  }

  lemma EarlyRho(t: nat, i: nat)
    requires t < 12 && i == if t == 0 then 1 else PI[t - 1]
    ensures i < 25 && RHO[t] == OFFSETS[i] && RHO[t] as nat == Triangular(t)
  {
    match t
    case 0 | 1 | 2 | 3 | 4 | 5 =>
    case _ =>
  }

  lemma LateRho(t: nat, i: nat)
    requires 12 <= t < 24 && i == PI[t - 1]
    ensures i < 25 && RHO[t] == OFFSETS[i] && RHO[t] as nat == Triangular(t)
  {
    match t
    case 12 | 13 | 14 | 15 | 16 | 17 =>
    case _ =>
  }

  lemma NextComesFrom(i: nat)
    requires i < 25
    ensures PiSource(Next(i)) == i
  {
    var x, y := i % 5, i / 5;
    InverseModFive(x, y);
    assert Next(i) == 5 * ((2 * x + 3 * y) % 5) + y;
  }

  lemma InverseModFive(x: nat, y: nat)
    requires x < 5 && y < 5
    ensures (y + 3 * ((2 * x + 3 * y) % 5)) % 5 == x
  {
    var k := (2 * x + 3 * y) / 5;
    assert y + 3 * ((2 * x + 3 * y) % 5) == x + 5 * (x + 2 * y - 3 * k);
  }

  lemma ChainEnters(i: nat)
    requires i < 25
    ensures if i == 0 then ENTERED[i] == 24 else ENTERED[i] < 24 && PI[ENTERED[i]] == i
  {
  }

  lemma StepsEnterOnce(t: nat)
    requires t < 24
    ensures 0 < PI[t] < 25 && ENTERED[PI[t]] == t
  {
  }

  // ----- Round constants -----

  // The register of Algorithm 5 of FIPS 202, bit k of the standard's R at bit k.
  function Shift(r: bv8): bv8 {
    (r << 1) ^ (if r & 0x80 != 0 then 0x71 else 0)
  }

  function Register(t: nat): bv8 {
    if t == 0 then 1 else Shift(Register(t - 1))
  }

  // Bit 2^j - 1 of the constant of round i is bit 0 of the register after j + 7 * i shifts.
  function RoundConstant(i: nat): bv64 {
    Constant(Register(7 * i))
  }

  function OutBit(r: bv8): bv64 {
    if r & 1 != 0 then 1 else 0
  }

  function Constant(r0: bv8): bv64 {
    var r1 := Shift(r0);
    var r2 := Shift(r1);
    var r3 := Shift(r2);
    var r4 := Shift(r3);
    var r5 := Shift(r4);
    var r6 := Shift(r5);
    Or(Or(Or(Or(Or(Or(Place(r0, 0), Place(r1, 1)), Place(r2, 3)), Place(r3, 7)), Place(r4, 15)), Place(r5, 31)),
      Place(r6, 63))
  }

  function Place(r: bv8, j: bv7): bv64
    requires j < 64
  {
    OutBit(r) << j
  }

  function Or(p: bv64, q: bv64): bv64 {
    p | q
  }

  function Shift7(r: bv8): bv8 {
    Shift(Shift(Shift(Shift(Shift(Shift(Shift(r)))))))
  }

  // The register at the start of each round.
  const REGISTERS: seq<bv8> := [
    0x01, 0x80, 0xd8, 0x1a, 0xdf, 0x09, 0x35, 0x4f, 0xca, 0x70, 0x41, 0xec, 0xd5,
    0xcd, 0x63, 0xab, 0xaa, 0x2a, 0xf2, 0xe8, 0x37, 0x3e, 0x0b, 0x44, 0x8e]

  lemma RegisterAhead(t: nat)
    ensures Register(t + 7) == Shift7(Register(t))
  {
    assert Register(t + 7) == Shift(Register(t + 6)) && Register(t + 6) == Shift(Register(t + 5));
    assert Register(t + 5) == Shift(Register(t + 4)) && Register(t + 4) == Shift(Register(t + 3));
    assert Register(t + 3) == Shift(Register(t + 2)) && Register(t + 2) == Shift(Register(t + 1));
  }

  lemma RegisterStep(i: nat)
    requires i < 24
    ensures Shift7(REGISTERS[i]) == REGISTERS[i + 1]
  {
    hide Shift7;
    if i < 12 { EarlyRegister(i); } else { LateRegister(i); }
  }

  lemma EarlyRegister(i: nat)
    requires i < 12
    ensures Shift7(REGISTERS[i]) == REGISTERS[i + 1]
  {
    match i
    case 0 | 1 | 2 | 3 | 4 | 5 =>
    case _ =>
  }

  lemma LateRegister(i: nat)
    requires 12 <= i < 24
    ensures Shift7(REGISTERS[i]) == REGISTERS[i + 1]
  {
    match i
    case 12 | 13 | 14 | 15 | 16 | 17 =>
    case _ =>
  }

  lemma ConstantOf(i: nat)
    requires i < 24
    ensures Constant(REGISTERS[i]) == RC[i]
  {
    hide Constant;
    if i < 6 { ConstantsTo6(i); } else if i < 12 { ConstantsTo12(i); } else if i < 18 { ConstantsTo18(i); }
    else { ConstantsTo24(i); }
  }

  lemma ConstantsTo6(i: nat)
    requires 0 <= i < 6
    ensures Constant(REGISTERS[i]) == RC[i]
  {
    match i
    case 0 | 1 | 2 =>
    case _ =>
  }

  lemma ConstantsTo12(i: nat)
    requires 6 <= i < 12
    ensures Constant(REGISTERS[i]) == RC[i]
  {
    match i
    case 6 | 7 | 8 =>
    case _ =>
  }

  lemma ConstantsTo18(i: nat)
    requires 12 <= i < 18
    ensures Constant(REGISTERS[i]) == RC[i]
  {
    match i
    case 12 | 13 | 14 =>
    case _ =>
  }

  lemma ConstantsTo24(i: nat)
    requires 18 <= i < 24
    ensures Constant(REGISTERS[i]) == RC[i]
  {
    match i
    case 18 | 19 | 20 =>
    case _ =>
  }

  lemma {:induction false} RegistersGenerated(i: nat)
    requires i <= 24
    ensures Register(7 * i) == REGISTERS[i]
    decreases i
  {
    hide Shift7, Register;
    if i > 0 {
      RegistersGenerated(i - 1);
      RegisterStep(i - 1);
      RegisterAhead(7 * (i - 1));
    } else {
      RegisterStarts();
    }
  }

  /** The round constants in the table are those the standard's register generates. */
  lemma ConstantsGenerated(i: nat)
    requires i < 24
    ensures RC[i] == RoundConstant(i)
  {
    hide Shift7, Constant, Register;
    RegistersGenerated(i);
    ConstantOf(i);
  }

  lemma RegisterStarts()
    ensures Register(0) == REGISTERS[0]
  {
  }

  // ----- The permutation -----

  function Round(s: Lanes, i: nat): Lanes
    requires i < 24
  {
    Iota(Chi(Pi(Rho(Theta(s)))), RoundConstant(i))
  }

  // The first n rounds.
  function Rounds(s: Lanes, n: nat): Lanes
    requires n <= 24
  {
    if n == 0 then s else Round(Rounds(s, n - 1), n - 1)
  }

  function KeccakF(s: Lanes): Lanes {
    Rounds(s, 24)
  }

  // ----- In place -----

  // Theta done on the columns before x, and on column x up to index y.
  function ThetaUpTo(s: Lanes, x: nat, y: nat): Lanes {
    seq(25, i requires 0 <= i < 25 => if i % 5 < x || (i % 5 == x && i < y) then ThetaLane(s, i % 5, i / 5) else s[i])
  }

  lemma ThetaNext(s: Lanes, x: nat, n: nat)
    requires x < 5 && n < 5
    ensures ThetaUpTo(s, x, 5 * n)[5 * n + x] == At(s, x, n)
    ensures ThetaUpTo(s, x, 5 * n)[5 * n + x := ThetaLane(s, x, n)] == ThetaUpTo(s, x, 5 * n + 5)
  {
    hide ThetaLane;
    forall i | 0 <= i < 25 && i != 5 * n + x && i % 5 == x ensures i < 5 * n <==> i < 5 * n + 5 {
      assert i == 5 * (i / 5) + x;
    }
  }

  lemma ThetaEnds(s: Lanes, x: nat)
    ensures ThetaUpTo(s, x, 25) == ThetaUpTo(s, x + 1, 0) && ThetaUpTo(s, 0, 0) == s && ThetaUpTo(s, 5, 0) == Theta(s)
  {
    hide ThetaLane;
  }

  lemma ThetaLaneIs(s: Lanes, x: nat, n: nat)
    requires x < 5 && n < 5
    ensures ThetaLane(s, x, n) == Xor3(At(s, x, n), Parity(s, (x + 4) % 5, 5), Rol(Parity(s, (x + 1) % 5, 5), 1))
  {
    hide Parity, Rol, At, Xor3;
  }

  method ThetaInPlace(a: array<bv64>, b: array<bv64>)
    requires a.Length == 25 && b.Length == 5 && a != b
    modifies a, b
    ensures a[..] == Theta(old(a[..]))
  {
    hide Theta, ThetaUpTo, ThetaLane, Rol, Parity, At, Xor3;
    ghost var s: Lanes := a[..];
    ColumnParities(a, b);
    ThetaEnds(s, 0);
    var x := 0;
    while x < 5
      invariant x <= 5 && forall k :: 0 <= k < 5 ==> b[k] == Parity(s, k, 5)
      invariant a[..] == ThetaUpTo(s, x, 0)
    {
      var y := 0;
      ghost var n := 0;
      while y < 25
        invariant n <= 5 && y == 5 * n && forall k :: 0 <= k < 5 ==> b[k] == Parity(s, k, 5)
        invariant a[..] == ThetaUpTo(s, x, y)
      {
        ThetaNext(s, x, n);
        ThetaLaneIs(s, x, n);
        a[y + x] := Xor3(a[y + x], b[(x + 4) % 5], Rol(b[(x + 1) % 5], 1));
        y := y + 5;
        n := n + 1;
      }
      ThetaEnds(s, x);
      x := x + 1;
    }
  }

  method ColumnParities(a: array<bv64>, b: array<bv64>)
    requires a.Length == 25 && b.Length == 5 && a != b
    modifies b
    ensures forall k :: 0 <= k < 5 ==> b[k] == Parity(a[..], k, 5)
  {
    hide Xor;
    ghost var s: Lanes := a[..];
    var x := 0;
    while x < 5
      invariant x <= 5 && forall k :: 0 <= k < x ==> b[k] == Parity(s, k, 5)
    {
      b[x] := 0;
      var y := 0;
      ghost var n := 0;
      while y < 25
        invariant n <= 5 && y == 5 * n && b[x] == Parity(s, x, n)
        invariant forall k :: 0 <= k < x ==> b[k] == Parity(s, k, 5)
      {
        b[x] := Xor(b[x], a[x + y]);
        y := y + 5;
        n := n + 1;
      }
      x := x + 1;
    }
  }

  // The lanes the chain enters in its first n steps have been replaced.
  function RhoPiUpTo(s: Lanes, n: nat): Lanes
    requires n <= 24
  {
    seq(25, i requires 0 <= i < 25 => if ENTERED[i] < n then RhoPiLane(s, ENTERED[i]) else s[i])
  }

  function RhoPiLane(s: Lanes, t: nat): bv64
    requires t < 24
  {
    ChainSteps(t);
    Rol(s[Chain(t)], RHO[t])
  }

  lemma RhoPiNext(s: Lanes, t: nat)
    requires t < 24
    ensures PI[t] < 25 && RhoPiUpTo(s, t)[PI[t]] == s[PI[t]]
    ensures RhoPiUpTo(s, t)[PI[t] := RhoPiLane(s, t)] == RhoPiUpTo(s, t + 1)
  {
    hide RhoPiLane;
    StepsEnterOnce(t);
    forall i | 0 <= i < 25 && i != PI[t] ensures ENTERED[i] != t { ChainEnters(i); }
  }

  lemma RhoPiEnds(s: Lanes)
    ensures RhoPiUpTo(s, 0) == s && RhoPiUpTo(s, 24) == Pi(Rho(s))
  {
    hide RhoPiLane, RhoLane;
    forall i | 0 <= i < 25 ensures RhoPiUpTo(s, 24)[i] == Pi(Rho(s))[i] {
      ChainEnters(i);
      if i > 0 { RhoPiLaneIs(s, i); } else { LaneZero(s); }
    }
  }

  lemma LaneZero(s: Lanes)
    ensures RhoLane(s, 0) == s[0] && PiSource(0) == 0 && ENTERED[0] == 24
  {
  }

  lemma RhoPiLaneIs(s: Lanes, i: nat)
    requires 0 < i < 25 && ENTERED[i] < 24
    ensures RhoPiLane(s, ENTERED[i]) == RhoLane(s, PiSource(i))
  {
    hide Rol, PiSource, Chain;
    ChainEnters(i);
    ChainSteps(ENTERED[i]);
    ChainNotZero(ENTERED[i]);
  }

  lemma {:induction false} ChainNotZero(t: nat)
    ensures Chain(t) > 0
    decreases t
  {
    if t > 0 {
      ChainNotZero(t - 1);
      NextComesFrom(Chain(t - 1));
      assert PiSource(0) == 0;
    }
  }

  // One temporary carries a lane along the chain: each step parks the lane it overwrites.
  method RhoPiInPlace(a: array<bv64>)
    requires a.Length == 25
    modifies a
    ensures a[..] == Pi(Rho(old(a[..])))
  {
    hide RhoPiUpTo, Rol, Pi, Rho, Next;
    ghost var s: Lanes := a[..];
    RhoPiEnds(s);
    var t, x := a[1], 0;
    while x < 24
      invariant x <= 24 && t == s[Chain(x)]
      invariant a[..] == RhoPiUpTo(s, x)
    {
      ChainSteps(x);
      RhoPiNext(s, x);
      var b0 := a[PI[x]];
      a[PI[x]] := Rol(t, RHO[x]);
      t := b0;
      x := x + 1;
    }
  }

  // Chi done on the lanes before index n.
  function ChiUpTo(s: Lanes, n: nat): Lanes {
    seq(25, i requires 0 <= i < 25 => if i < n then ChiLane(s, i % 5, i / 5) else s[i])
  }

  lemma ChiNext(s: Lanes, x: nat, n: nat)
    requires x < 5 && n < 5
    ensures ChiUpTo(s, 5 * n + x)[5 * n + x := ChiLane(s, x, n)] == ChiUpTo(s, 5 * n + x + 1)
    ensures ChiUpTo(s, 0) == s && ChiUpTo(s, 25) == Chi(s)
    ensures ChiUpTo(s, 5 * n)[5 * n + x] == At(s, x, n)
  {
    hide ChiLane;
  }

  method ChiInPlace(a: array<bv64>, b: array<bv64>)
    requires a.Length == 25 && b.Length == 5 && a != b
    modifies a, b
    ensures a[..] == Chi(old(a[..]))
  {
    hide Chi, ChiUpTo;
    ghost var s: Lanes := a[..];
    ChiNext(s, 0, 0);
    var y := 0;
    ghost var n := 0;
    while y < 25
      invariant n <= 5 && y == 5 * n && a[..] == ChiUpTo(s, y)
    {
      ChiRow(a, b, y, s, n);
      y := y + 5;
      n := n + 1;
    }
  }

  method ChiRow(a: array<bv64>, b: array<bv64>, y: nat, ghost s: Lanes, ghost n: nat)
    requires a.Length == 25 && b.Length == 5 && a != b
    requires n < 5 && y == 5 * n && a[..] == ChiUpTo(s, y)
    modifies a, b
    ensures a[..] == ChiUpTo(s, y + 5)
  {
    hide Chi, ChiUpTo, ChiLane, At, Mix;
    var x := 0;
    while x < 5
      invariant x <= 5 && a[..] == ChiUpTo(s, y) && forall k :: 0 <= k < x ==> b[k] == At(s, k, n)
    {
      ChiNext(s, x, n);
      b[x] := a[y + x];
      x := x + 1;
    }
    x := 0;
    while x < 5
      invariant x <= 5 && a[..] == ChiUpTo(s, y + x) && forall k :: 0 <= k < 5 ==> b[k] == At(s, k, n)
    {
      ChiNext(s, x, n);
      ChiLaneIs(s, x, n);
      a[y + x] := Mix(b[x], b[(x + 1) % 5], b[(x + 2) % 5]);
      x := x + 1;
    }
  }

  lemma ChiLaneIs(s: Lanes, x: nat, n: nat)
    requires x < 5 && n < 5
    ensures ChiLane(s, x, n) == Mix(At(s, x, n), At(s, (x + 1) % 5, n), At(s, (x + 2) % 5, n))
  {
  }

  /** The permutation in place is the 24 rounds of the standard. */
  method Permute(a: array<bv64>)
    requires a.Length == 25
    modifies a
    ensures a[..] == KeccakF(old(a[..]))
  {
    hide Theta, Rho, Pi, Chi, Iota, RoundConstant;
    ghost var s: Lanes := a[..];
    var b := new bv64[5];
    for i := 0 to 24
      invariant a[..] == Rounds(s, i)
    {
      ThetaInPlace(a, b);
      RhoPiInPlace(a);
      ChiInPlace(a, b);
      ConstantsGenerated(i);
      IotaInPlace(a, RC[i]);
    }
  }

  method IotaInPlace(a: array<bv64>, c: bv64)
    requires a.Length == 25
    modifies a
    ensures a[..] == Iota(old(a[..]), c)
  {
    ghost var before: Lanes := a[..];
    var x := a[0] ^ c;
    a[0] := x;
    assert a[..] == before[0 := x];
  }
}
