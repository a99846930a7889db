/**
 * Which command gets which reply, byte by byte: the conditions of the command handler as a host
 * would write them down, without the handler's steps.
 */
module ApduReplies {
  import opened Apdu
  import opened Bytes

  // ----- Data -----

  // The k-th number of five in little-endian order from a position on.
  function Number(s: seq<byte>, at: nat, k: nat): nat
    requires at + 4 * k + 4 <= |s|
  {
    var i := at + 4 * k;
    s[i] as int + 0x100 * s[i + 1] as int + 0x1_0000 * s[i + 2] as int + 0x100_0000 * s[i + 3] as int
  }

  // Five numbers: 44 and 118 or 60, hardened, then three of which the middle one is 0 and which are
  // no greater than 100 outside expert mode, hardened or not.
  predicate PathFits(s: seq<byte>, at: nat, expert: bool) {
    && at + 20 <= |s|
    && Number(s, at, 0) == 0x8000_002c && Number(s, at, 1) in {0x8000_0076, 0x8000_003c} && Number(s, at, 3) == 0
    && (expert || (Number(s, at, 2) % 0x8000_0000 <= 100 && Number(s, at, 4) % 0x8000_0000 <= 100))
  }

  // A prefix: its length, 1 to 83, and its bytes.
  predicate PrefixFits(s: seq<byte>, at: nat) {
    at < |s| && 1 <= s[at] <= 83 && at + 1 + s[at] <= |s|
  }

  // The chains that are supported under each kind of path.
  predicate ChainFits(coin: nat, prefix: string) {
    || (coin == 0x8000_0076
        && prefix in {"cosmos", "osmo", "dydx", "mantra", "xion", "celestia", "core", "neutron"})
    || (coin == 0x8000_003c && prefix in {"inj", "evmos", "xpla", "dym", "zeta", "bera", "human"})
  }

  function Characters(s: seq<byte>): string {
    seq(|s|, i requires 0 <= i < |s| => s[i] as char)
  }

  // An initialisation: a path, and a supported prefix or none, which is for Cosmos paths.
  predicate InitFits(s: seq<byte>, expert: bool) {
    && PathFits(s, 0, expert)
    && if |s| == 20 then Number(s, 0, 1) == 0x8000_0076
       else PrefixFits(s, 20) && ChainFits(Number(s, 0, 1), Characters(s[21..21 + s[20]]))
  }

  // An address command: a supported prefix and a path.
  predicate AddressFits(s: seq<byte>, expert: bool) {
    && PrefixFits(s, 0) && PathFits(s, 1 + s[0], expert)
    && ChainFits(Number(s, 1 + s[0], 1), Characters(s[1..1 + s[0]]))
  }

  // ----- Replies -----

  // A command of the application that is long enough, with the device unlocked.
  predicate Heard(c: Command, ins: int)
    requires WellSized(c)
  {
    c.io[0] == 0x55 && c.rx >= 5 && c.io[1] == ins && c.pinValidated
  }

  function Payload(c: Command): seq<byte>
    requires WellSized(c)
  {
    if c.rx < 5 then [] else c.io[5..c.rx]
  }

  predicate GoesUnderReview(m: Machine, c: Command, capacity: nat)
    requires |m.path| == 5 && WellSized(c)
  {
    && Heard(c, 0x02) && c.io[2] == 2 && m.phase == Receiving && |m.tx| + |Payload(c)| <= capacity
    && c.accepted && c.addressLen > 33 && (m.path[1] == 0x8000_003c ==> c.expert)
  }

  predicate AddressAnswered(m: Machine, c: Command)
    requires WellSized(c)
  {
    Heard(c, 0x04) && m.phase == Idle && AddressFits(Payload(c), c.expert) && c.addressLen > 0
  }

  function Expected(m: Machine, c: Command, capacity: nat): Reply
    requires |m.path| == 5 && WellSized(c)
  {
    if GoesUnderReview(m, c, capacity) || (AddressAnswered(m, c) && c.io[2] != 0) then Waits
    else if
      || (c.io[0] == 0x55 && c.rx >= 5 && c.io[1] == 0x00)
      || AddressAnswered(m, c)
      || (Heard(c, 0x02) && c.io[2] == 0 && m.phase == Idle && InitFits(Payload(c), c.expert))
      || (Heard(c, 0x02) && c.io[2] == 1 && m.phase == Receiving && |m.tx| + |Payload(c)| <= capacity)
    then Done
    else if
      || (Heard(c, 0x04) && m.phase != Idle)
      || (Heard(c, 0x02) && c.io[2] == 0 && m.phase != Idle)
      || (Heard(c, 0x02) && (c.io[2] == 1 || c.io[2] == 2) && m.phase != Receiving)
    then NotAllowed
    else Failed
  }

  lemma NumbersOfPath(s: seq<byte>, at: nat)
    requires at + 20 <= |s|
    ensures PathOf(s[at..])
      == [Number(s, at, 0), Number(s, at, 1), Number(s, at, 2), Number(s, at, 3), Number(s, at, 4)]
  {
    hide LittleEndian, Words;
    var d := s[at..][..20];
    FirstWord(d);
    FirstWord(d[4..]);
    FirstWord(d[8..]);
    FirstWord(d[12..]);
    FirstWord(d[16..]);
    assert d[4..][4..] == d[8..] && d[8..][4..] == d[12..] && d[12..][4..] == d[16..] && d[16..][4..] == [];
    NoWords();
  }

  lemma PathsAgree(s: seq<byte>, at: nat, expert: bool)
    requires at + 20 <= |s|
    ensures PathFits(s, at, expert) <==> PathAllowed(PathOf(s[at..]), expert)
  {
    hide PathOf, Number;
    NumbersOfPath(s, at);
    var p := PathOf(s[at..]);
    assert (forall i :: 2 <= i < 5 ==> p[i] % 0x8000_0000 <= 100) <==>
      p[2] % 0x8000_0000 <= 100 && p[3] % 0x8000_0000 <= 100 && p[4] % 0x8000_0000 <= 100;
  }

  lemma PrefixesAgree(s: seq<byte>, at: nat)
    requires at <= |s|
    ensures PrefixFits(s, at) <==> PrefixOf(s[at..]).Some?
    ensures PrefixFits(s, at) ==> PrefixOf(s[at..]) == Some(s[at + 1..at + 1 + s[at]])
  {
    if at < |s| && at + 1 + s[at] <= |s| { assert s[at..][1..1 + s[at]] == s[at + 1..at + 1 + s[at]]; }
  }

  lemma ChainsAgree(coin: nat, prefix: seq<byte>)
    ensures ChainFits(coin, Characters(prefix)) <==> ChainConfig(coin, prefix) != Unsupported
    ensures ChainFits(coin, Characters(prefix)) ==>
      ChainConfig(coin, prefix) == if coin == 0x8000_0076 then Cosmos else Eth
  {
    assert Characters(prefix) == Text(prefix);
  }

  lemma InitsAgree(s: seq<byte>, expert: bool)
    ensures InitFits(s, expert) <==> InitAllowed(s, expert)
  {
    hide PathAllowed, PrefixOf, ChainFits, ChainConfig, Number, PathOf, Characters;
    if |s| >= 20 {
      assert s[0..] == s;
      PathsAgree(s, 0, expert);
      NumbersOfPath(s, 0);
      PrefixesAgree(s, 20);
      if PrefixFits(s, 20) { ChainsAgree(Number(s, 0, 1), s[21..21 + s[20]]); }
    }
  }

  lemma AddressesAgree(m: Machine, c: Command)
    requires WellSized(c)
    ensures Address(m, c).1 ==
      if m.phase != Idle then NotAllowed
      else if !AddressFits(Data(c), c.expert) || c.addressLen == 0 then Failed else if c.io[2] != 0 then Waits else Done
  {
    hide PathAllowed, PrefixOf, ChainFits, ChainConfig, Number, PathOf, Data, Characters;
    var s := Data(c);
    assert s[0..] == s;
    PrefixesAgree(s, 0);
    if PrefixFits(s, 0) && |s| >= 21 + s[0] {
      PathsAgree(s, 1 + s[0], c.expert);
      NumbersOfPath(s, 1 + s[0]);
      ChainsAgree(Number(s, 1 + s[0], 1), s[1..1 + s[0]]);
    }
  }

  /** Every command gets the reply that its bytes, the phase and the device's answers call for, and
      that decides the phase. */
  lemma RepliesExpected(m: Machine, c: Command, capacity: nat)
    requires |m.path| == 5 && WellSized(c)
    ensures Handle(m, c, capacity).1 == Expected(m, c, capacity)
    ensures Handle(m, c, capacity).0.phase ==
      match Expected(m, c, capacity)
      case Waits => Reviewing
      case Failed => Idle
      case Done => if Heard(c, 0x02) && c.io[2] == 0 then Receiving else m.phase
      case NotAllowed => m.phase
  {
    hide Init, Address, InitFits, AddressFits, InitAllowed;
    InitsAgree(Data(c), c.expert);
    InitAcceptsAllowed(m, Data(c), c.expert);
    AddressesAgree(m, c);
    AddressWrites(m, c);
    assert Data(c) == Payload(c);
  }

  /** In particular a transaction goes under review exactly if the last chunk comes in time, fits, and
      passes, and it is then what was sent, with path and encoding as they were. */
  lemma LastChunkReviewed(m: Machine, c: Command, capacity: nat)
    requires |m.path| == 5 && WellSized(c) && Heard(c, 0x02) && c.io[2] == 2
    ensures var (m1, reply) := Handle(m, c, capacity);
      && (reply == Waits <==>
            && m.phase == Receiving && |m.tx| + (c.rx - 5) <= capacity && c.accepted && c.addressLen > 33
            && (m.path[1] == 0x8000_003c ==> c.expert))
      && (if reply == Waits then
            && m1.phase == Reviewing && m1.pending == SignTransaction && m1.parsed == Some(m1.tx)
            && m1.tx == m.tx + c.io[5..c.rx] && m1.path == m.path && m1.encoding == m.encoding
          else m1.pending == m.pending && m1.parsed == m.parsed)
  {
    hide Init, Address;
  }

  /** An accepted initialisation sets the path of its data, and the encoding of its chain. */
  lemma InitSets(m: Machine, c: Command, capacity: nat)
    requires |m.path| == 5 && WellSized(c) && Heard(c, 0x02) && c.io[2] == 0
    requires m.phase == Idle && InitFits(Payload(c), c.expert)
    ensures var s, m1 := Payload(c), Handle(m, c, capacity).0;
      && m1.phase == Receiving && m1.tx == [] && m1.pending == m.pending
      && m1.path == [0x8000_002c, Number(s, 0, 1), Number(s, 0, 2), 0, Number(s, 0, 4)]
      && m1.encoding == if Number(s, 0, 1) == 0x8000_0076 then Cosmos else Eth
  {
    hide PathAllowed, PrefixOf, ChainFits, ChainConfig, Number, PathOf;
    var s := Payload(c);
    assert Data(c) == s && s[0..] == s;
    InitsAgree(s, c.expert);
    InitWrites(m, s, c.expert);
    InitAcceptsAllowed(m, s, c.expert);
    NumbersOfPath(s, 0);
    PrefixesAgree(s, 20);
    if |s| > 20 { ChainsAgree(Number(s, 0, 1), s[21..21 + s[20]]); }
  }
}
