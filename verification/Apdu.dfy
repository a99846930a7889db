/**
 * The command handler: over every run of commands and user decisions, when what is signed is what
 * was sent since the last initialisation and what was parsed. An exception is a reply here.
 */
module Apdu {
  import opened Bytes

  datatype Phase = Idle | Receiving | Reviewing

  // What runs when the user approves what is on the screen.
  datatype Callback = NoCallback | SignTransaction | ReplyAddress

  datatype Encoding = Cosmos | Eth | Unsupported

  // Done and Failed are replies at once; a command that waits for the user gets none yet.
  datatype Reply = Done | NotAllowed | Failed | Waits

  const CLA := 0x55
  const INS_GET_VERSION := 0x00
  const INS_SIGN := 0x02
  const INS_GET_ADDR := 0x04
  const P1_INIT := 0
  const P1_ADD := 1
  const P1_LAST := 2
  const OFFSET_INS := 1
  const OFFSET_P1 := 2
  const OFFSET_DATA := 5
  const APDU_MIN_LENGTH := 5
  const HDPATH_SIZE := 20
  const HDPATH_0 := 0x8000_002c
  const HDPATH_1 := 0x8000_0076
  const HDPATH_ETH_1 := 0x8000_003c
  const HDPATH_3 := 0
  const MAX_HRP_LEN := 83
  const PK_LEN := 33

  // A command in the buffer, rx bytes of it, with what the device answers while it is handled:
  // the mode and PIN, the length of the address derived, and whether the transaction passes.
  datatype Command = Command(io: seq<byte>, rx: nat, expert: bool, pinValidated: bool, addressLen: nat, accepted: bool)

  predicate WellSized(c: Command) {
    |c.io| > APDU_MIN_LENGTH && c.rx <= |c.io|
  }

  datatype Machine = Machine(phase: Phase, path: seq<nat>, encoding: Encoding, tx: seq<byte>,
                             parsed: Option<seq<byte>>, pending: Callback)

  // ----- Paths and encodings -----

  function LittleEndian(s: seq<byte>): (v: nat) {
    if s == [] then 0 else (s[0] as int) + 256 * LittleEndian(s[1..])
  }

  function Words(s: seq<byte>): (w: seq<nat>)
    requires |s| % 4 == 0
    ensures |w| == |s| / 4
  {
    if s == [] then [] else [LittleEndian(s[..4])] + Words(s[4..])
  }

  // The path in an initialisation's data.
  function PathOf(data: seq<byte>): (p: seq<nat>)
    requires |data| >= HDPATH_SIZE
    ensures |p| == 5
  {
    Words(data[..HDPATH_SIZE])
  }

  predicate PathAllowed(p: seq<nat>, expert: bool)
    requires |p| == 5
  {
    && p[0] == HDPATH_0 && (p[1] == HDPATH_1 || p[1] == HDPATH_ETH_1) && p[3] == HDPATH_3
    && (expert || forall i :: 2 <= i < 5 ==> p[i] % 0x8000_0000 <= 100)
  }

  // Prefixes of the supported chains, as bytes, for each kind of path.
  const COSMOS_PREFIXES: seq<string> :=
    ["cosmos", "osmo", "dydx", "mantra", "xion", "celestia", "core", "neutron"]
  const ETH_PREFIXES: seq<string> := ["inj", "evmos", "xpla", "dym", "zeta", "bera", "human"]

  function Text(s: seq<byte>): string {
    seq(|s|, i requires 0 <= i < |s| => s[i] as char)
  }

  function ChainConfig(path1: nat, hrp: seq<byte>): Encoding {
    if path1 == HDPATH_1 && Text(hrp) in COSMOS_PREFIXES then Cosmos
    else if path1 == HDPATH_ETH_1 && Text(hrp) in ETH_PREFIXES then Eth
    else Unsupported
  }

  // The prefix that follows a path: a length and that many bytes.
  function PrefixOf(rest: seq<byte>): Option<seq<byte>> {
    if rest == [] || rest[0] == 0 || rest[0] > MAX_HRP_LEN || |rest| < 1 + rest[0] then None
    else Some(rest[1..1 + rest[0]])
  }

  // The encoding in an initialisation's data; the default if no prefix is sent.
  function EncodingOf(data: seq<byte>): Encoding
    requires |data| >= HDPATH_SIZE
  {
    if |data| == HDPATH_SIZE then
      if PathOf(data)[1] == HDPATH_ETH_1 then Unsupported else Cosmos
    else
      match PrefixOf(data[HDPATH_SIZE..])
      case None => Unsupported
      case Some(hrp) => ChainConfig(PathOf(data)[1], hrp)
  }

  function Data(c: Command): seq<byte>
    requires WellSized(c)
  {
    if c.rx < OFFSET_DATA then [] else c.io[OFFSET_DATA..c.rx]
  }

  predicate InitAllowed(data: seq<byte>, expert: bool) {
    |data| >= HDPATH_SIZE && PathAllowed(PathOf(data), expert) && EncodingOf(data) != Unsupported
  }

  // ----- One command -----

  // Starts a transaction: the buffer is emptied and the path overwritten before they are checked.
  function Init(m: Machine, data: seq<byte>, expert: bool): (r: (Machine, Reply)) {
    var m1 := m.(tx := []);
    if |data| < HDPATH_SIZE then (m1, Failed)
    else
      var m2 := m1.(path := PathOf(data));
      if !PathAllowed(m2.path, expert) then (m2, Failed)
      else if |data| > HDPATH_SIZE && PrefixOf(data[HDPATH_SIZE..]).None? then (m2.(encoding := Cosmos), Failed)
      else if EncodingOf(data) == Unsupported then
        (m2.(encoding := if |data| == HDPATH_SIZE then Cosmos else Unsupported), Failed)
      else (m2.(encoding := EncodingOf(data), phase := Receiving), Done)
  }

  /** An initialisation is accepted exactly if its data are allowed, and sets what they say. */
  lemma InitAcceptsAllowed(m: Machine, data: seq<byte>, expert: bool)
    ensures var (m1, reply) := Init(m, data, expert);
      && (reply == Done <==> InitAllowed(data, expert))
      && (reply == Done ==>
         m1.phase == Receiving && m1.tx == [] && m1.path == PathOf(data) && m1.encoding == EncodingOf(data))
      && (reply != Done ==> reply == Failed && m1.phase == m.phase)
  {
    hide PathOf, PathAllowed, ChainConfig;
  }

  // What an initialisation that is handled writes, accepted or not.
  function InitPath(data: seq<byte>): Option<seq<nat>> {
    if |data| < HDPATH_SIZE then None else Some(PathOf(data))
  }

  function InitEncoding(data: seq<byte>, expert: bool): Option<Encoding> {
    if |data| < HDPATH_SIZE || !PathAllowed(PathOf(data), expert) then None
    else if |data| == HDPATH_SIZE || PrefixOf(data[HDPATH_SIZE..]).None? then Some(Cosmos)
    else Some(EncodingOf(data))
  }

  function Later<T>(written: Option<T>, before: T): T {
    if written.Some? then written.value else before
  }

  lemma InitWrites(m: Machine, data: seq<byte>, expert: bool)
    ensures var m1 := Init(m, data, expert).0;
      m1 == m.(tx := [], path := Later(InitPath(data), m.path),
        encoding := Later(InitEncoding(data, expert), m.encoding),
               phase := if InitAllowed(data, expert) then Receiving else m.phase)
  {
    hide PathOf, PathAllowed;
  }

  function Append(m: Machine, data: seq<byte>, capacity: nat): (r: (Machine, Reply)) {
    if |m.tx| + |data| > capacity then (m, Failed) else (m.(tx := m.tx + data), Done)
  }

  // With the last chunk the transaction is parsed and put on the screen.
  function Finish(m: Machine, c: Command): (Machine, Reply)
    requires |m.path| == 5
  {
    if (m.path[1] == HDPATH_ETH_1 && !c.expert) || c.addressLen <= PK_LEN || !c.accepted then (m, Failed)
    else (m.(phase := Reviewing, parsed := Some(m.tx), pending := SignTransaction), Waits)
  }

  function Sign(m: Machine, c: Command, capacity: nat): (Machine, Reply)
    requires |m.path| == 5 && WellSized(c) && c.rx >= OFFSET_DATA
  {
    if c.io[OFFSET_P1] == P1_INIT then if m.phase != Idle then (m, NotAllowed) else Init(m, Data(c), c.expert)
    else if c.io[OFFSET_P1] != P1_ADD && c.io[OFFSET_P1] != P1_LAST then (m, Failed)
    else if m.phase != Receiving then (m, NotAllowed)
    else
      var (m1, reply) := Append(m, Data(c), capacity);
      if reply == Done && c.io[OFFSET_P1] == P1_LAST then Finish(m1, c) else (m1, reply)
  }

  // An address command carries the prefix before the path.
  function Address(m: Machine, c: Command): (Machine, Reply)
    requires WellSized(c)
  {
    var data := Data(c);
    if m.phase != Idle then (m, NotAllowed)
    else if PrefixOf(data).None? then (m, Failed)
    else
      var hrp := PrefixOf(data).value;
      var rest := data[1 + |hrp|..];
      if |rest| < HDPATH_SIZE then (m, Failed)
      else
        var m1 := m.(path := PathOf(rest));
        if !PathAllowed(m1.path, c.expert) then (m1, Failed)
        else
          var m2 := m1.(encoding := ChainConfig(m1.path[1], hrp));
          if m2.encoding == Unsupported || c.addressLen == 0 then (m2, Failed)
          else if c.io[OFFSET_P1] != 0 then (m2.(phase := Reviewing, pending := ReplyAddress), Waits)
          else (m2, Done)
  }

  // What an address command that is handled writes.
  function AddressPath(data: seq<byte>): Option<seq<nat>> {
    if PrefixOf(data).None? || |data| < 1 + |PrefixOf(data).value| + HDPATH_SIZE then None
    else Some(PathOf(data[1 + |PrefixOf(data).value|..]))
  }

  function AddressEncoding(data: seq<byte>, expert: bool): Option<Encoding> {
    if AddressPath(data).None? || |AddressPath(data).value| != 5 || !PathAllowed(AddressPath(data).value, expert)
      then None
    else Some(ChainConfig(AddressPath(data).value[1], PrefixOf(data).value))
  }

  lemma AddressWrites(m: Machine, c: Command)
    requires WellSized(c)
    ensures var (m1, reply) := Address(m, c);
      if reply == NotAllowed then m1 == m && m.phase != Idle
      else
        && m.phase == Idle
        && m1 == m.(path := Later(AddressPath(Data(c)), m.path),
           encoding := Later(AddressEncoding(Data(c), c.expert), m.encoding),
                    phase := m1.phase, pending := m1.pending)
        && (m1.phase, m1.pending) == if reply == Waits then (Reviewing, ReplyAddress) else (Idle, m.pending)
  {
    hide PathOf, PathAllowed, ChainConfig;
  }

  // The whole handler; an error, but not a refusal, makes it idle again.
  function Handle(m: Machine, c: Command, capacity: nat): (Machine, Reply)
    requires |m.path| == 5 && WellSized(c)
  {
    var (m1, reply) :=
      if c.io[0] != CLA || c.rx < APDU_MIN_LENGTH then (m, Failed)
      else if c.io[OFFSET_INS] == INS_GET_VERSION then (m, Done)
      else if c.io[OFFSET_INS] == INS_GET_ADDR then if c.pinValidated then Address(m, c) else (m, Failed)
      else if c.io[OFFSET_INS] == INS_SIGN then if c.pinValidated then Sign(m, c, capacity) else (m, Failed)
      else (m, Failed);
    (Settled(m1, reply), reply)
  }

  function Settled(m: Machine, reply: Reply): Machine {
    if reply == Failed then m.(phase := Idle) else m
  }

  lemma HandleKeepsPathSize(m: Machine, c: Command, capacity: nat)
    requires |m.path| == 5 && WellSized(c)
    ensures |Handle(m, c, capacity).0.path| == 5
  {
  }

  // ----- The handler -----

  class App {
    const capacity: nat
    var phase: Phase
    var hdPath: seq<nat>
    var encoding: Encoding
    var tx: seq<byte>
    var parsed: Option<seq<byte>>
    var pending: Callback

    constructor (capacity: nat)
      ensures this.capacity == capacity && Valid() && Now() == START
    {
      this.capacity := capacity;
      phase, hdPath, encoding, tx, parsed, pending := Idle, [0, 0, 0, 0, 0], Cosmos, [], None, NoCallback;
    }

    predicate Valid()
      reads this
    {
      |hdPath| == 5
    }

    function Now(): Machine
      reads this
    {
      Machine(phase, hdPath, encoding, tx, parsed, pending)
    }

    // Length and bytes of a prefix at an offset of the data.
    method ExtractHrp(data: seq<byte>, offset: nat) returns (ok: bool, hrp: seq<byte>)
      requires offset <= |data|
      ensures ok == PrefixOf(data[offset..]).Some? && (ok ==> hrp == PrefixOf(data[offset..]).value)
    {
      if |data| < offset + 1 { return false, []; }
      var len := data[offset];
      if len == 0 || len > MAX_HRP_LEN { return false, []; }
      if |data| < offset + 1 + len { return false, []; }
      hrp := data[offset + 1..offset + 1 + len];
      assert data[offset..][1..1 + len] == hrp;
      return true, hrp;
    }

    method ExtractHdPath(data: seq<byte>, offset: nat, expert: bool) returns (ok: bool)
      requires Valid() && offset <= |data|
      modifies this`hdPath
      ensures Valid()
      ensures |data| - offset < HDPATH_SIZE ==> !ok && hdPath == old(hdPath)
      ensures |data| - offset >= HDPATH_SIZE ==> hdPath == PathOf(data[offset..]) && ok == PathAllowed(hdPath, expert)
    {
      if |data| - offset < HDPATH_SIZE { return false; }
      assert data[offset..][..HDPATH_SIZE] == data[offset..offset + HDPATH_SIZE];
      hdPath := Words(data[offset..offset + HDPATH_SIZE]);
      if hdPath[0] != HDPATH_0 || (hdPath[1] != HDPATH_1 && hdPath[1] != HDPATH_ETH_1) || hdPath[3] != HDPATH_3 {
        return false;
      }
      if !expert {
        for i := 2 to 5
          invariant forall k :: 2 <= k < i ==> hdPath[k] % 0x8000_0000 <= 100
        {
          if hdPath[i] % 0x8000_0000 > 100 { return false; }
        }
      }
      return true;
    }

    method ExtractHdPathHrp(data: seq<byte>, expert: bool) returns (ok: bool)
      requires Valid()
      modifies this`hdPath, this`encoding
      ensures Valid()
      ensures var (m, reply) := Init(old(Now()), data, expert);
        hdPath == m.path && encoding == m.encoding && ok == (reply == Done)
    {
      hide Words, ChainConfig, PathAllowed;
      assert data[0..] == data;
      ok := ExtractHdPath(data, 0, expert);
      if !ok { return; }
      encoding := Cosmos;
      if |data| > HDPATH_SIZE {
        var hrp;
        ok, hrp := ExtractHrp(data, HDPATH_SIZE);
        if !ok { return; }
        encoding := ChainConfig(hdPath[1], hrp);
        if encoding == Unsupported { return false; }
      } else if hdPath[1] == HDPATH_ETH_1 {
        return false;
      }
      return true;
    }

    // True means that the last chunk has been added; the reply counts otherwise.
    method ProcessChunk(c: Command) returns (last: bool, reply: Reply)
      requires Valid() && WellSized(c) && c.rx >= OFFSET_DATA
      modifies this`phase, this`hdPath, this`encoding, this`tx
      ensures Valid()
      ensures last ==>
        && reply == Done && old(phase) == Receiving && c.io[OFFSET_P1] == P1_LAST
        && Append(old(Now()), Data(c), capacity) == (Now(), Done)
      ensures !last ==> (Now(), reply) == Sign(old(Now()), c, capacity)
    {
      hide PathOf, PathAllowed, EncodingOf, PrefixOf;
      var data := c.io[OFFSET_DATA..c.rx];
      match c.io[OFFSET_P1] {
        case 0 =>
          if phase != Idle { return false, NotAllowed; }
          tx := [];
          var ok := ExtractHdPathHrp(data, c.expert);
          if !ok { return false, Failed; }
          phase := Receiving;
          return false, Done;
        case 1 =>
          if phase != Receiving { return false, NotAllowed; }
          var ok := TxAppend(data);
          if !ok { return false, Failed; }
          return false, Done;
        case 2 =>
          if phase != Receiving { return false, NotAllowed; }
          var ok := TxAppend(data);
          if !ok { return false, Failed; }
          return true, Done;
        case _ =>
          return false, Failed;
      }
    }

    // All of the bytes, or a short count.
    method TxAppend(data: seq<byte>) returns (ok: bool)
      modifies this`tx
      ensures ok == (old(|tx|) + |data| <= capacity)
      ensures tx == if ok then old(tx) + data else old(tx)
    {
      if |tx| + |data| > capacity { return false; }
      tx := tx + data;
      return true;
    }

    method HandleSign(c: Command) returns (reply: Reply)
      requires Valid() && WellSized(c) && c.rx >= OFFSET_DATA
      modifies this
      ensures Valid() && (Now(), reply) == Sign(old(Now()), c, capacity)
    {
      hide Init;
      var last;
      last, reply := ProcessChunk(c);
      if !last { return; }
      if hdPath[1] == HDPATH_ETH_1 && !c.expert { return Failed; }
      if c.addressLen == 0 { return Failed; }
      if c.addressLen <= PK_LEN { return Failed; }
      if !c.accepted { return Failed; }
      parsed := Some(tx);
      phase := Reviewing;
      pending := SignTransaction;
      return Waits;
    }

    method HandleGetAddr(c: Command) returns (reply: Reply)
      requires Valid() && WellSized(c)
      modifies this`phase, this`hdPath, this`encoding, this`pending
      ensures Valid() && (Now(), reply) == Address(old(Now()), c)
    {
      hide PathOf, PathAllowed, ChainConfig;
      if phase != Idle { return NotAllowed; }
      var data := Data(c);
      assert data[0..] == data;
      var ok, hrp := ExtractHrp(data, 0);
      if !ok { return Failed; }
      ok := ExtractHdPath(data, 1 + |hrp|, c.expert);
      if !ok { return Failed; }
      encoding := ChainConfig(hdPath[1], hrp);
      if encoding == Unsupported { return Failed; }
      if c.addressLen == 0 { return Failed; }
      if c.io[OFFSET_P1] != 0 {
        phase := Reviewing;
        pending := ReplyAddress;
        return Waits;
      }
      return Done;
    }

    method HandleApdu(c: Command) returns (reply: Reply)
      requires Valid() && WellSized(c)
      modifies this
      ensures Valid() && (Now(), reply) == Handle(old(Now()), c, capacity)
    {
      hide Sign, Address;
      if c.io[0] != CLA || c.rx < APDU_MIN_LENGTH {
        reply := Failed;
      } else {
        match c.io[OFFSET_INS] {
          case 0 => reply := Done;
          case 4 =>
            if c.pinValidated { reply := HandleGetAddr(c); } else { reply := Failed; }
          case 2 =>
            if c.pinValidated { reply := HandleSign(c); } else { reply := Failed; }
          case _ => reply := Failed;
        }
      }
      if reply == Failed { phase := Idle; }
    }

    // The user approves: the callback set up last runs, once. A signature is over what is there now.
    method Approve() returns (signed: Option<Signing>)
      modifies this`phase, this`pending
      ensures signed == Signed(old(Now())) && Now() == Decided(old(Now()))
    {
      signed := None;
      match pending {
        case NoCallback =>
        case SignTransaction =>
          signed := Some(Signing(tx, hdPath, encoding));
          phase := Idle;
        case ReplyAddress =>
          phase := Idle;
      }
      pending := NoCallback;
    }

    method Reject()
      modifies this`phase, this`pending
      ensures Now() == Decided(old(Now())).(phase := Idle)
    {
      phase := Idle;
      pending := NoCallback;
    }

    method IoReset()
      modifies this`phase
      ensures Now() == old(Now()).(phase := Idle)
    {
      phase := Idle;
    }
  }

  // What the signature is computed from.
  datatype Signing = Signing(tx: seq<byte>, path: seq<nat>, encoding: Encoding)

  function Signed(m: Machine): Option<Signing> {
    if m.pending == SignTransaction then Some(Signing(m.tx, m.path, m.encoding)) else None
  }

  function Decided(m: Machine): Machine {
    m.(phase := if m.pending == NoCallback then m.phase else Idle, pending := NoCallback)
  }

  const START := Machine(Idle, [0, 0, 0, 0, 0], Cosmos, [], None, NoCallback)

  // ----- Runs -----

  datatype Event = Received(c: Command) | Approved | Rejected | Reset

  predicate WellFormed(e: Event) {
    e.Received? ==> WellSized(e.c)
  }

  function Step(m: Machine, e: Event, capacity: nat): (r: Machine)
    requires |m.path| == 5 && WellFormed(e)
    ensures |r.path| == 5
  {
    match e
    case Received(c) => HandleKeepsPathSize(m, c, capacity); Handle(m, c, capacity).0
    case Approved => Decided(m)
    case Rejected => Decided(m).(phase := Idle)
    case Reset => m.(phase := Idle)
  }

  // What the host has learnt from its commands and their replies: what it sent since the last
  // initialisation that was accepted; what went under review with the last transaction, unless a
  // decision or an address took its place; the command that put it there, with the verdict that
  // came with it; and what was overwritten since then.
  datatype Log = Log(init: Option<seq<byte>>, payloads: seq<seq<byte>>, reviewed: Option<Signing>,
                     last: Option<Command>, since: Overwritten)

  // New chunks for the buffer, a new path, a new encoding.
  datatype Overwritten = Overwritten(chunks: Option<seq<seq<byte>>>, path: Option<seq<nat>>, encoding: Option<Encoding>)

  const NOTHING := Overwritten(None, None, None)

  predicate IsSign(c: Command, p1: int)
    requires WellSized(c)
  {
    c.io[0] == CLA && c.io[OFFSET_INS] == INS_SIGN && c.io[OFFSET_P1] == p1
  }

  predicate IsAddress(c: Command)
    requires WellSized(c)
  {
    c.io[0] == CLA && c.io[OFFSET_INS] == INS_GET_ADDR
  }

  // Neither too short, nor before the PIN, nor refused because of what is going on.
  predicate TakenUp(c: Command, reply: Reply)
    requires WellSized(c)
  {
    c.rx >= APDU_MIN_LENGTH && c.pinValidated && reply != NotAllowed
  }

  function Either<T>(written: Option<T>, before: Option<T>): Option<T> {
    if written.Some? then written else before
  }

  function Overwrite(o: Overwritten, c: Command, reply: Reply, capacity: nat): Overwritten
    requires WellSized(c)
  {
    var data := Data(c);
    if !TakenUp(c, reply) then o
    else if IsSign(c, P1_INIT) then
      Overwritten(Some([]), Either(InitPath(data), o.path), Either(InitEncoding(data, c.expert), o.encoding))
    else if IsSign(c, P1_ADD) || IsSign(c, P1_LAST) then
      if o.chunks.Some? && |Concat(o.chunks.value)| + |data| <= capacity
        then o.(chunks := Some(o.chunks.value + [data])) else o
    else if IsAddress(c) then
      Overwritten(o.chunks, Either(AddressPath(data), o.path), Either(AddressEncoding(data, c.expert), o.encoding))
    else o
  }

  // What the payloads and the initialisation make of the buffer, the path and the encoding.
  function Sent(init: Option<seq<byte>>, payloads: seq<seq<byte>>): Option<Signing> {
    if init.None? || |init.value| < HDPATH_SIZE then None
    else Some(Signing(Concat(payloads), PathOf(init.value), EncodingOf(init.value)))
  }

  function Logged(log: Log, e: Event, reply: Reply, capacity: nat): Log
    requires WellFormed(e)
  {
    match e
    case Received(c) =>
      if IsSign(c, P1_LAST) && reply == Waits then
        var payloads := log.payloads + [Data(c)];
        Log(log.init, payloads, Sent(log.init, payloads), Some(c), NOTHING)
      else
        var since := Overwrite(log.since, c, reply, capacity);
        if IsSign(c, P1_INIT) && reply == Done then log.(init := Some(Data(c)), payloads := [], since := since)
        else if IsSign(c, P1_ADD) && reply == Done then log.(payloads := log.payloads + [Data(c)], since := since)
        else if IsAddress(c) && reply == Waits then log.(reviewed := None, since := since)
        else log.(since := since)
    case Approved | Rejected => log.(reviewed := None)
    case Reset => log
  }

  function Run(events: seq<Event>, capacity: nat): (r: (Machine, Log))
    requires forall e :: e in events ==> WellFormed(e)
    ensures |r.0.path| == 5
  {
    if events == [] then (START, Log(None, [], None, None, NOTHING))
    else
      var e := events[|events| - 1];
      var (m, log) := Run(events[..|events| - 1], capacity);
      (Step(m, e, capacity), Logged(log, e, if e.Received? then Handle(m, e.c, capacity).1 else Waits, capacity))
  }

  function Concat(parts: seq<seq<byte>>): seq<byte> {
    if parts == [] then [] else Concat(parts[..|parts| - 1]) + parts[|parts| - 1]
  }

  // The buffer, path and encoding are those the host sent.
  predicate AsSent(m: Machine, log: Log) {
    Sent(log.init, log.payloads) == Some(Signing(m.tx, m.path, m.encoding))
  }

  // With its last chunk a transaction passes if the parser accepts it, an address was derived, and
  // the path is not the Ethereum one, which is for expert mode only.
  predicate Passes(c: Command, path: seq<nat>) {
    c.accepted && c.addressLen > 33 && |path| == 5 && (path[1] == 0x8000_003c ==> c.expert)
  }

  // What is waiting for a signature was sent, passed and parsed, and what is there now differs from it by
  // what was overwritten since.
  predicate Pending(m: Machine, log: Log) {
    && log.reviewed.Some? && m.parsed == Some(log.reviewed.value.tx)
    && log.last.Some? && Passes(log.last.value, log.reviewed.value.path)
    && m.tx == (if log.since.chunks.Some? then Concat(log.since.chunks.value) else log.reviewed.value.tx)
    && m.path == Later(log.since.path, log.reviewed.value.path)
    && m.encoding == Later(log.since.encoding, log.reviewed.value.encoding)
    && (m.phase == Receiving ==> log.since.chunks.Some?)
    && (m.phase == Reviewing ==> log.since == NOTHING && log.reviewed == Sent(log.init, log.payloads))
  }

  predicate Consistent(m: Machine, log: Log) {
    && (m.phase == Receiving ==> AsSent(m, log))
    && (m.phase == Reviewing ==> m.pending != NoCallback)
    && (if m.pending == SignTransaction then Pending(m, log) else log.reviewed.None?)
  }

  // An error makes it idle, which keeps what is consistent.
  lemma IdleConsistent(m: Machine, log: Log)
    requires Consistent(m, log)
    ensures Consistent(m.(phase := Idle), log)
  {
    hide Sent, Concat, Later;
  }

  lemma {:induction false} InitConsistent(m: Machine, log: Log, c: Command, capacity: nat)
    requires |m.path| == 5 && WellSized(c) && Consistent(m, log) && m.phase == Idle
    requires IsSign(c, P1_INIT) && c.rx >= APDU_MIN_LENGTH && c.pinValidated
    ensures var (m1, reply) := Init(m, Data(c), c.expert);
      Consistent(Settled(m1, reply), Logged(log, Received(c), reply, capacity))
  {
    hide Init, PathOf, EncodingOf, PathAllowed, InitPath, InitEncoding, Data, Concat;
    NoPayloads();
    InitWrites(m, Data(c), c.expert);
    InitAcceptsAllowed(m, Data(c), c.expert);
  }

  lemma {:induction false} AddConsistent(m: Machine, log: Log, c: Command, capacity: nat)
    requires |m.path| == 5 && WellSized(c) && Consistent(m, log) && m.phase == Receiving
    requires IsSign(c, P1_ADD) && c.rx >= APDU_MIN_LENGTH && c.pinValidated
    ensures var (m1, reply) := Append(m, Data(c), capacity);
      Consistent(Settled(m1, reply), Logged(log, Received(c), reply, capacity))
  {
    hide PathOf, EncodingOf, Data, Concat;
    AddPayload(log.payloads, Data(c));
    if log.since.chunks.Some? { AddPayload(log.since.chunks.value, Data(c)); }
  }

  lemma {:induction false} LastConsistent(m: Machine, log: Log, c: Command, capacity: nat)
    requires |m.path| == 5 && WellSized(c) && Consistent(m, log) && m.phase == Receiving
    requires IsSign(c, P1_LAST) && c.rx >= APDU_MIN_LENGTH && c.pinValidated
    ensures var (m1, reply) := Sign(m, c, capacity);
      Consistent(Settled(m1, reply), Logged(log, Received(c), reply, capacity))
  {
    hide PathOf, EncodingOf, Data, Concat, Init;
    AddPayload(log.payloads, Data(c));
    if log.since.chunks.Some? { AddPayload(log.since.chunks.value, Data(c)); }
  }

  lemma {:induction false} AddressConsistent(m: Machine, log: Log, c: Command, capacity: nat)
    requires |m.path| == 5 && WellSized(c) && Consistent(m, log)
    requires IsAddress(c) && c.rx >= APDU_MIN_LENGTH && c.pinValidated
    ensures var (m1, reply) := Address(m, c);
      Consistent(Settled(m1, reply), Logged(log, Received(c), reply, capacity))
  {
    hide Address, PathOf, EncodingOf, AddressPath, AddressEncoding, Data, Concat;
    AddressWrites(m, c);
  }

  lemma {:induction false} HandleConsistent(m: Machine, log: Log, c: Command, capacity: nat)
    requires |m.path| == 5 && WellSized(c) && Consistent(m, log)
    ensures var (m1, reply) := Handle(m, c, capacity); Consistent(m1, Logged(log, Received(c), reply, capacity))
  {
    hide Init, Append, Finish, Address, Consistent, Sent;
    if c.rx >= APDU_MIN_LENGTH && c.pinValidated {
      if IsSign(c, P1_INIT) && m.phase == Idle { InitConsistent(m, log, c, capacity); }
      if IsSign(c, P1_ADD) && m.phase == Receiving { AddConsistent(m, log, c, capacity); }
      if IsSign(c, P1_LAST) && m.phase == Receiving { LastConsistent(m, log, c, capacity); }
      if IsAddress(c) { AddressConsistent(m, log, c, capacity); }
    }
    IdleConsistent(m, log);
  }

  lemma NoPayloads()
    ensures Concat([]) == []
  {
  }

  lemma AddPayload(parts: seq<seq<byte>>, s: seq<byte>)
    ensures Concat(parts + [s]) == Concat(parts) + s
  {
    assert (parts + [s])[..|parts|] == parts;
  }

  /** Over every run of commands and user decisions: while a transaction is under review the
      buffer is the concatenation of the payloads since the last initialisation, it is what was
      parsed, and path and encoding are those sent with that initialisation. */
  lemma {:induction false} EveryRunIsConsistent(events: seq<Event>, capacity: nat)
    requires forall e :: e in events ==> WellFormed(e)
    ensures var (m, log) := Run(events, capacity); Consistent(m, log)
    decreases events
  {
    if events != [] {
      var init, e := events[..|events| - 1], events[|events| - 1];
      EveryRunIsConsistent(init, capacity);
      assert e in events;
      if e.Received? {
        var (m, log) := Run(init, capacity);
        HandleConsistent(m, log, e.c, capacity);
      }
    }
  }

  /** Over every run, whatever an approval would sign, a transaction had gone under review with a last
      chunk for which the parser's verdict was that it is accepted. */
  lemma {:induction false} OnlyAcceptedSigned(events: seq<Event>, capacity: nat)
    requires forall e :: e in events ==> WellFormed(e)
    ensures var (m, log) := Run(events, capacity);
      Signed(m).Some? ==>
        && log.reviewed.Some? && log.last.Some? && Received(log.last.value) in events
        && log.last.value.accepted && log.last.value.addressLen > 33
        && |log.reviewed.value.path| == 5
        && (log.reviewed.value.path[1] == 0x8000_003c ==> log.last.value.expert)
  {
    EveryRunIsConsistent(events, capacity);
    LastIsReceived(events, capacity);
    hide Run, Concat, PathOf, EncodingOf;
  }

  lemma {:induction false} LastIsReceived(events: seq<Event>, capacity: nat)
    requires forall e :: e in events ==> WellFormed(e)
    ensures var log := Run(events, capacity).1; log.last.Some? ==> Received(log.last.value) in events
    decreases events
  {
    hide Handle, Overwrite, Step;
    if events != [] {
      LastIsReceived(events[..|events| - 1], capacity);
      assert events[|events| - 1] in events;
    }
  }

  // Whatever was overwritten was overwritten with the same.
  predicate Harmless(o: Overwritten, r: Signing) {
    && (o.chunks.Some? ==> Concat(o.chunks.value) == r.tx)
    && (o.path.Some? ==> o.path.value == r.path)
    && (o.encoding.Some? ==> o.encoding.value == r.encoding)
  }

  /** Over every run, an approval signs exactly if a transaction went under review and no decision
      or address took its place. It signs what was sent and parsed then exactly if the commands
      since have not overwritten buffer, path or encoding, or only with the same. */
  lemma ApprovalSigns(events: seq<Event>, capacity: nat)
    requires forall e :: e in events ==> WellFormed(e)
    ensures var (m, log) := Run(events, capacity);
      && (Signed(m).Some? <==> log.reviewed.Some?)
      && (log.reviewed.Some? ==>
            && m.parsed == Some(log.reviewed.value.tx)
            && (Signed(m) == log.reviewed <==> Harmless(log.since, log.reviewed.value)))
  {
    EveryRunIsConsistent(events, capacity);
    hide Run, Concat;
  }

  /** So approving a transaction while it is under review signs what the host sent and what was
      parsed. */
  lemma SignsWhatWasSent(events: seq<Event>, capacity: nat)
    requires forall e :: e in events ==> WellFormed(e)
    ensures var (m, log) := Run(events, capacity);
      m.phase == Reviewing && Signed(m).Some? ==>
        && log.init.Some? && |log.init.value| >= HDPATH_SIZE && m.parsed == Some(Concat(log.payloads))
        && Signed(m) == Some(Signing(Concat(log.payloads), PathOf(log.init.value), EncodingOf(log.init.value)))
  {
    EveryRunIsConsistent(events, capacity);
    hide Run, Concat, PathOf, EncodingOf;
  }

  /** An error during the review ends it without taking the approval back, and a new transaction may
      be begun: the approval then signs its empty buffer under its path, whatever was parsed. */
  lemma ApprovalAfterError(events: seq<Event>, wrong: Command, c: Command, capacity: nat)
    requires (forall e :: e in events ==> WellFormed(e)) && WellSized(wrong) && WellSized(c)
    requires var m := Run(events, capacity).0; m.phase == Reviewing && Signed(m).Some?
    requires wrong.io[0] != CLA
    requires IsSign(c, P1_INIT) && c.rx >= APDU_MIN_LENGTH && c.pinValidated && InitAllowed(Data(c), c.expert)
    ensures var after := events + [Received(wrong)] + [Received(c)];
      && (forall e :: e in after ==> WellFormed(e))
      && Run(after, capacity).0.parsed == Run(events, capacity).0.parsed
      && Signed(Run(after, capacity).0) == Some(Signing([], PathOf(Data(c)), EncodingOf(Data(c))))
  {
    var one := events + [Received(wrong)];
    RunOn(events, Received(wrong), capacity);
    RunOn(one, Received(c), capacity);
    hide Run;
    var m := Run(one, capacity).0;
    InitAcceptsAllowed(m, Data(c), c.expert);
    InitWrites(m, Data(c), c.expert);
    hide Init, PathOf, EncodingOf, Data;
  }

  lemma RunOn(events: seq<Event>, e: Event, capacity: nat)
    requires (forall e :: e in events ==> WellFormed(e)) && WellFormed(e)
    ensures forall d :: d in events + [e] ==> WellFormed(d)
    ensures Run(events + [e], capacity).0 == Step(Run(events, capacity).0, e, capacity)
    ensures var (m, log) := Run(events, capacity);
      Run(events + [e], capacity).1
        == Logged(log, e, if e.Received? then Handle(m, e.c, capacity).1 else Waits, capacity)
  {
    assert (events + [e])[..|events + [e]| - 1] == events;
  }

  // The commands of the shortest such run: a transaction of one byte, a command for another
  // application, and the beginning of another transaction.
  function PathBytes(last: byte): (s: seq<byte>)
    ensures |s| == HDPATH_SIZE
  {
    [0x2c, 0, 0, 0x80, 0x76, 0, 0, 0x80, 0, 0, 0, 0x80, 0, 0, 0, 0, last, 0, 0, 0]
  }

  function Sending(p1: byte, data: seq<byte>): (c: Command)
    requires data != []
    ensures WellSized(c) && Data(c) == data
  {
    var io := [0x55, 0x02, p1, 0, 0] + data;
    Command(io, |io|, false, true, 65, true)
  }

  lemma FirstWord(s: seq<byte>)
    requires |s| >= 4 && |s| % 4 == 0
    ensures Words(s) == [LittleEndian(s[..4])] + Words(s[4..])
    ensures LittleEndian(s[..4])
      == s[0] as int + 0x100 * s[1] as int + 0x1_0000 * s[2] as int + 0x100_0000 * s[3] as int
  {
    assert s[..4][1..] == s[1..4] && s[1..4][1..] == s[2..4] && s[2..4][1..] == s[3..4] && s[3..4][1..] == [];
    assert LittleEndian(s[3..4]) == s[3] as int;
    assert LittleEndian(s[2..4]) == s[2] as int + 256 * LittleEndian(s[3..4]);
    assert LittleEndian(s[1..4]) == s[1] as int + 256 * LittleEndian(s[2..4]);
  }

  lemma NoWords()
    ensures Words([]) == []
  {
  }

  lemma PathBytesRead(last: byte)
    ensures PathOf(PathBytes(last)) == [0x8000_002c as nat, 0x8000_0076, 0x8000_0000, 0, last]
  {
    hide LittleEndian, Words;
    var s := PathBytes(last);
    assert s[..HDPATH_SIZE] == s;
    FirstWord(s);
    FirstWord(s[4..]);
    FirstWord(s[8..]);
    FirstWord(s[12..]);
    FirstWord(s[16..]);
    NoWords();
    assert s[20..] == [];
  }

  lemma PathBytesAllowed(last: byte)
    requires last <= 100
    ensures PathOf(PathBytes(last)) == [0x8000_002c as nat, 0x8000_0076, 0x8000_0000, 0, last]
    ensures InitAllowed(PathBytes(last), false) && EncodingOf(PathBytes(last)) == Cosmos
  {
    hide PathOf;
    PathBytesRead(last);
  }

  lemma BegunByInit()
    ensures var m := Step(START, Received(Sending(P1_INIT, PathBytes(0))), 16);
      m.phase == Receiving && m.tx == [] && m.path == [HDPATH_0, HDPATH_1, 0x8000_0000, 0, 0]
  {
    hide PathOf, EncodingOf, PathBytes, InitAllowed, Init, Data;
    PathBytesAllowed(0);
    InitAcceptsAllowed(START, PathBytes(0), false);
  }

  lemma ReviewedAtLast(m: Machine)
    requires m.phase == Receiving && m.tx == [] && |m.path| == 5 && m.path[1] == HDPATH_1
    ensures var m1 := Step(m, Received(Sending(P1_LAST, [7])), 16);
      m1.phase == Reviewing && m1.pending == SignTransaction && m1.parsed == Some([7])
  {
    hide Data, Init;
    assert [] + [7 as byte] == [7];
  }

  lemma OneUnderReview()
    ensures var m := Run([Received(Sending(P1_INIT, PathBytes(0))), Received(Sending(P1_LAST, [7]))], 16).0;
      m.phase == Reviewing && m.pending == SignTransaction && m.parsed == Some([7])
  {
    hide PathBytes, Run, Step, Logged, Sending, Handle;
    var start, last := Received(Sending(P1_INIT, PathBytes(0))), Received(Sending(P1_LAST, [7]));
    NothingRun();
    RunOn([], start, 16);
    assert [] + [start] == [start];
    BegunByInit();
    RunOn([start], last, 16);
    assert [start] + [last] == [start, last];
    ReviewedAtLast(Run([start], 16).0);
  }

  lemma NothingRun()
    ensures Run([], 16).0 == START
  {
  }

  /** Such a run: what is signed is empty and was not parsed. */
  lemma UnparsedSigned()
    ensures var events := [Received(Sending(P1_INIT, PathBytes(0))), Received(Sending(P1_LAST, [7])),
        Received(Sending(P1_LAST, [7]).(io := [0, 0, 0, 0, 0, 0])), Received(Sending(P1_INIT, PathBytes(1)))];
      && (forall e :: e in events ==> WellFormed(e))
      && Run(events, 16).0.parsed == Some([7])
      && Signed(Run(events, 16).0) == Some(Signing([], [0x8000_002c, 0x8000_0076, 0x8000_0000, 0, 1], Cosmos))
  {
    hide PathOf, EncodingOf, PathBytes, InitAllowed, Init, Run, Handle, Data;
    var start, last := Sending(P1_INIT, PathBytes(0)), Sending(P1_LAST, [7]);
    var wrong, again := last.(io := [0, 0, 0, 0, 0, 0]), Sending(P1_INIT, PathBytes(1));
    PathBytesAllowed(0);
    PathBytesAllowed(1);
    OneUnderReview();
    var r := [Received(start), Received(last)];
    ApprovalAfterError(r, wrong, again, 16);
    assert r + [Received(wrong)] + [Received(again)]
      == [Received(start), Received(last), Received(wrong), Received(again)];
  }

  /** Over every run a decision ends the review it is about, a rejection and a reset end whatever is going
      on, and none of them touches the buffer, the path or the encoding. */
  lemma DecisionIdles(events: seq<Event>, e: Event, capacity: nat)
    requires (forall d :: d in events ==> WellFormed(d)) && !e.Received?
    ensures forall d :: d in events + [e] ==> WellFormed(d)
    ensures var m, m1 := Run(events, capacity).0, Run(events + [e], capacity).0;
      && (m.phase == Reviewing || e != Approved ==> m1.phase == Idle)
      && m1.tx == m.tx && m1.path == m.path && m1.encoding == m.encoding
  {
    hide Run;
    EveryRunIsConsistent(events, capacity);
    RunOn(events, e, capacity);
  }

  /** After a decision nothing is signed until a last chunk comes in again. */
  lemma {:induction false} DecisionEndsReview(events: seq<Event>, decision: Event, later: seq<Event>, capacity: nat)
    requires forall e :: e in events + [decision] + later ==> WellFormed(e)
    requires decision == Approved || decision == Rejected
    requires forall e :: e in later ==> WellFormed(e) && (e.Received? ==> !IsSign(e.c, P1_LAST))
    ensures Signed(Run(events + [decision] + later, capacity).0) == None
    decreases later
  {
    hide Run;
    var all := events + [decision] + later;
    if later == [] {
      assert all == events + [decision];
      assert forall e :: e in events ==> e in all;
      assert decision in all;
      RunOn(events, decision, capacity);
    } else {
      var more, e := later[..|later| - 1], later[|later| - 1];
      assert all == events + [decision] + more + [e];
      assert e in later && e in all && forall d :: d in events + [decision] + more ==> d in all;
      assert forall d :: d in more ==> d in later;
      DecisionEndsReview(events, decision, more, capacity);
      RunOn(events + [decision] + more, e, capacity);
      OnlyLastChunksPend(Run(events + [decision] + more, capacity).0, e, capacity);
    }
  }

  lemma OnlyLastChunksPend(m: Machine, e: Event, capacity: nat)
    requires |m.path| == 5 && WellFormed(e) && (e.Received? ==> !IsSign(e.c, P1_LAST)) && Signed(m) == None
    ensures Signed(Step(m, e, capacity)) == None
  {
    hide Init, PathOf, PathAllowed, PrefixOf, ChainConfig, Data;
    if e.Received? { InitWrites(m, Data(e.c), e.c.expert); }
  }

  /** A reset of the connection ends the sending of a transaction, whose further chunks are refused,
      but takes no approval back. */
  lemma ResetEndsSending(m: Machine, c: Command, capacity: nat)
    requires |m.path| == 5 && WellSized(c) && c.rx >= APDU_MIN_LENGTH && c.pinValidated
    requires IsSign(c, P1_ADD) || IsSign(c, P1_LAST)
    ensures var m1 := Step(m, Reset, capacity);
      Handle(m1, c, capacity) == (m1, NotAllowed) && Signed(m1) == Signed(m)
  {
  }

  /** No command handled during a review changes what is reviewed; it stays under review exactly
      if the command is not answered with an error, that is, if it asks for the version or is a
      refused address or signing command. */
  lemma ReviewUntouched(m: Machine, c: Command, capacity: nat)
    requires |m.path| == 5 && WellSized(c) && m.phase == Reviewing
    ensures var (m1, reply) := Handle(m, c, capacity);
      && m1 == m.(phase := m1.phase) && reply != Waits
      && (m1.phase == Reviewing <==>
            c.io[0] == CLA && c.rx >= APDU_MIN_LENGTH
            && (c.io[OFFSET_INS] == INS_GET_VERSION
                || (c.pinValidated && c.io[OFFSET_INS] == INS_GET_ADDR)
                || (c.pinValidated && c.io[OFFSET_INS] == INS_SIGN && c.io[OFFSET_P1] <= P1_LAST)))
      && (m1.phase != Reviewing ==> m1.phase == Idle && reply == Failed)
  {
    hide Init, Append, Finish, PrefixOf, PathOf, PathAllowed, ChainConfig;
  }
}
