/**
 The Modbus data source: reconnection with exponential backoff, reading of a
 register list, and the status a runner derives from the outcomes of reads.
 Durations are in nanoseconds.
 */
module Modbus {
  import opened Wrappers
  import opened Decoder

  const SECOND: int := 1_000_000_000
  const MAX_BACKOFF: int := 30 * SECOND

  datatype RegisterSpec = RegisterSpec(name: string, address: int, kind: string, length: int, format: RegisterFormat)

  datatype Reply = Data(bytes: seq<Byte>) | NoReply

  datatype ReadError = BackingOff | ConnectFailed | UnsupportedKind | BusError | BadValue

  datatype Readings = Readings(values: map<string, real>, strings: map<string, seq<Byte>>)

  /** The connection state of a data source. */
  datatype Link = Link(connected: bool, backoff: int, lastAttempt: Option<int>)

  const NEW_LINK: Link := Link(false, SECOND, None)

  function Min(a: int, b: int): int { if a < b then a else b }

  predicate Attempts(l: Link, now: int) {
    !l.connected && (l.lastAttempt.Some? ==> now - l.lastAttempt.value >= l.backoff)
  }

  /** What the connection part of a read does; accepts says whether the device accepts a connection. */
  function Reconnected(l: Link, now: int, accepts: bool): Link {
    if !Attempts(l, now) then l
    else if accepts then Link(true, SECOND, Some(now))
    else Link(false, Min(2 * l.backoff, MAX_BACKOFF), Some(now))
  }

  // ---- addresses ----

  /** Conversion to uint16 keeps the low 16 bits. */
  function Low16(a: int): nat { a % 0x1_0000 }

  function PduAddress(address: int, kind: string): nat {
    match kind
    case "holding" =>
      if address >= 400001 then Low16(address - 400001)
      else if address >= 40001 then Low16(address - 40001) else Low16(address)
    case "input" =>
      if address >= 300001 then Low16(address - 300001)
      else if address >= 30001 then Low16(address - 30001) else Low16(address)
    case "coil" =>
      if address >= 100001 then Low16(address - 100001)
      else if 1 <= address < 10000 then Low16(address - 1) else Low16(address)
    case "discrete" =>
      if address >= 200001 then Low16(address - 200001)
      else if 10001 <= address < 20000 then Low16(address - 10001) else Low16(address)
    case _ => Low16(address)
  }

  /** The five-digit and the six-digit notation of a register name the same device address. */
  lemma NotationsAgree(k: nat)
    requires k < 9999
    ensures PduAddress(40001 + k, "holding") == PduAddress(400001 + k, "holding") == k
    ensures PduAddress(30001 + k, "input") == PduAddress(300001 + k, "input") == k
    ensures PduAddress(1 + k, "coil") == PduAddress(100001 + k, "coil") == k
    ensures PduAddress(10001 + k, "discrete") == PduAddress(200001 + k, "discrete") == k
  {
  }

  /** The address on the wire for every address: a plain address is kept, one in the notation of its kind
      loses the base of that notation, and only the low 16 bits are sent. */
  lemma AddressMeans(a: int)
    ensures PduAddress(a, "holding") ==
      (a - if a >= 400001 then 400001 else if a >= 40001 then 40001 else 0) % 65536
    ensures PduAddress(a, "input") ==
      (a - if a >= 300001 then 300001 else if a >= 30001 then 30001 else 0) % 65536
    ensures PduAddress(a, "coil") ==
      (a - if a >= 100001 then 100001 else if 1 <= a <= 9999 then 1 else 0) % 65536
    ensures PduAddress(a, "discrete") ==
      (a - if a >= 200001 then 200001 else if 10001 <= a <= 19999 then 10001 else 0) % 65536
  {
  }

  // ---- requests ----

  /** What is asked of the device: function by register kind, address on the wire, and number of registers or bits. */
  datatype Request = Request(kind: string, address: nat, count: nat)

  /** Number of 16-bit registers a value occupies. */
  function RegisterCount(dataType: string, length: int): nat {
    match dataType
    case "uint32" => 2
    case "int32" => 2
    case "float32" => 2
    case "timestamp_unix" => 2
    case "float64" => 4
    case "string" => Low16(length)
    case _ => 1
  }

  function RequestFor(reg: RegisterSpec): Request {
    Request(reg.kind, PduAddress(reg.address, reg.kind),
            if reg.kind == "coil" || reg.kind == "discrete" then 1 else RegisterCount(reg.format.dataType, reg.length))
  }

  /** Bytes of a complete reply: two for each register, or bits packed eight to a byte. */
  function ReplySize(r: Request): nat {
    if r.kind == "coil" || r.kind == "discrete" then (r.count + 7) / 8 else 2 * r.count
  }

  predicate Numeric(dataType: string) {
    dataType in ["bool", "uint16", "int16", "uint32", "int32", "timestamp_unix", "float32", "float64"]
  }

  predicate UsesOrder(dataType: string) {
    dataType in ["uint32", "int32", "timestamp_unix", "float32", "float64"]
  }

  /** What is asked for a register: its own kind and address, one bit, or as many 16-bit registers as its
      type takes. */
  lemma RequestMeans(reg: RegisterSpec)
    ensures var q, t := RequestFor(reg), reg.format.dataType;
      && q.kind == reg.kind && q.address == PduAddress(reg.address, reg.kind)
      && (reg.kind in {"coil", "discrete"} ==> q.count == 1)
      && (reg.kind in {"holding", "input"} ==>
            && (t in {"bool", "uint16", "int16"} ==> q.count == 1)
            && (t in {"uint32", "int32", "float32", "timestamp_unix"} ==> q.count == 2)
            && (t == "float64" ==> q.count == 4)
            && (t == "string" ==> q.count == reg.length % 65536))
  {
  }

  /** A complete reply to the request made for a numeric register decodes exactly when its byte order is known,
      for types that use one, and, on a single-bit register, when its type is bool. */
  lemma CompleteReplyDecodes(reg: RegisterSpec, bytes: seq<Byte>, ieee: Ieee)
    requires KnownKind(reg.kind) && Numeric(reg.format.dataType) && |bytes| == ReplySize(RequestFor(reg))
    ensures Problem(reg, Data(bytes), ieee).None? <==>
      if reg.kind == "coil" || reg.kind == "discrete" then reg.format.dataType == "bool"
      else UsesOrder(reg.format.dataType) ==> OrderOf(reg.format.byteOrder) != Unknown
  {
  }

  // ---- reading registers ----

  /** Answers request k of a read. */
  type Bus = (nat, Request) -> Reply

  predicate KnownKind(kind: string) {
    kind == "holding" || kind == "input" || kind == "coil" || kind == "discrete"
  }

  /** The text without the zero bytes at its end. */
  function TrimNulls(s: seq<Byte>): (t: seq<Byte>)
    ensures t <= s && forall i | |t| <= i < |s| :: s[i] == 0
    ensures t != [] ==> t[|t| - 1] != 0
  {
    if s != [] && s[|s| - 1] == 0 then TrimNulls(s[..|s| - 1]) else s
  }

  /** The outcome for one register; None means it was read. */
  function Problem(reg: RegisterSpec, reply: Reply, ieee: Ieee): Option<ReadError> {
    if !KnownKind(reg.kind) then Some(UnsupportedKind)
    else if reply.NoReply? then Some(BusError)
    else if reg.format.dataType == "string" then None
    else if DecodeRegister(reply.bytes, reg.format, ieee).Failure? then Some(BadValue)
    else None
  }

  /** The outcome for one register, case by case, in the order in which the cases are looked at. */
  lemma ProblemMeans(reg: RegisterSpec, reply: Reply, ieee: Ieee)
    ensures Problem(reg, reply, ieee) == Some(UnsupportedKind) <==>
      reg.kind !in {"holding", "input", "coil", "discrete"}
    ensures Problem(reg, reply, ieee) == Some(BusError) <==>
      reg.kind in {"holding", "input", "coil", "discrete"} && reply == NoReply
    ensures Problem(reg, reply, ieee) == Some(BadValue) <==>
      && reg.kind in {"holding", "input", "coil", "discrete"} && reply != NoReply
      && reg.format.dataType != "string" && DecodeRegister(reply.bytes, reg.format, ieee).Failure?
    ensures Problem(reg, reply, ieee).Some? ==> Problem(reg, reply, ieee).value in {UnsupportedKind, BusError, BadValue}
  {
  }

  /** The connection part of a read, in nanoseconds: no attempt before a full wait is over, a wait of one
      second after success, and twice the last one, but at most 30 seconds, after failure. */
  lemma ReconnectMeans(l: Link, now: int, accepts: bool)
    ensures Attempts(l, now) <==> !l.connected && (l.lastAttempt == None || now - l.lastAttempt.value >= l.backoff)
    ensures !Attempts(l, now) ==> Reconnected(l, now, accepts) == l
    ensures Attempts(l, now) && accepts ==> Reconnected(l, now, accepts) == Link(true, 1_000_000_000, Some(now))
    ensures Attempts(l, now) && !accepts ==>
      Reconnected(l, now, accepts)
        == Link(false, if 2 * l.backoff < 30_000_000_000 then 2 * l.backoff else 30_000_000_000, Some(now))
  {
  }

  class ModbusDataSource {
    const registers: seq<RegisterSpec>
    const ieee: Ieee
    var connected: bool
    var backoff: int
    var lastAttempt: Option<int>

    constructor (registers: seq<RegisterSpec>, ieee: Ieee)
      ensures this.registers == registers && this.ieee == ieee
      ensures Connection() == NEW_LINK == Link(false, 1_000_000_000, None)
    {
      this.registers, this.ieee := registers, ieee;
      connected, backoff, lastAttempt := false, SECOND, None;
    }

    function Connection(): Link
      reads this
    {
      Link(connected, backoff, lastAttempt)
    }

    method Reconnect(now: int, accepts: bool) returns (error: Option<ReadError>)
      requires !connected
      modifies this
      ensures Connection() == Reconnected(old(Connection()), now, accepts)
      ensures error == if connected then None
        else Some(if Attempts(old(Connection()), now) then ConnectFailed else BackingOff)
    {
      if lastAttempt.Some? && now - lastAttempt.value < backoff { return Some(BackingOff); }
      lastAttempt := Some(now);
      if !accepts {
        backoff := Min(backoff * 2, MAX_BACKOFF);
        return Some(ConnectFailed);
      }
      connected := true;
      backoff := SECOND;
      return None;
    }

    /** Reads every register in turn and stops at the first problem; only a bus error drops the connection. */
    method ReadRegisters(bus: Bus) returns (r: Result<Readings, ReadError>)
      modifies this`connected
      ensures connected == (old(connected) && r != Failure(BusError))
      ensures r.Success? ==> AllRead(registers, bus, ieee, r.value)
      ensures r.Failure? ==> exists k | 0 <= k < |registers| :: FirstProblem(registers, bus, ieee, k, r.error)
    {
      var readings := Readings(map[], map[]);
      for k := 0 to |registers|
        invariant connected == old(connected)
        invariant AllRead(registers[..k], bus, ieee, readings)
      {
        var reg := registers[k];
        var reply := bus(k, RequestFor(reg));
        var problem := Problem(reg, reply, ieee);
        if problem.Some? {
          if problem.value == BusError { connected := false; }
          forall j | 0 <= j < k ensures Problem(registers[j], Answer(bus, registers, j), ieee).None? {
            assert registers[..k][j] == registers[j];
          }
          assert FirstProblem(registers, bus, ieee, k, problem.value);
          return Failure(problem.value);
        }
        ghost var before := readings;
        if reg.format.dataType == "string" {
          readings := readings.(strings := readings.strings[reg.name := TrimNulls(reply.bytes)]);
        } else {
          readings :=
            readings.(values := readings.values[reg.name := DecodeRegister(reply.bytes, reg.format, ieee).value]);
        }
        assert registers[..k + 1] == registers[..k] + [reg];
        OneMore(registers[..k], reg, bus, ieee, before, readings);
      }
      assert registers[..|registers|] == registers;
      return Success(readings);
    }

    /** Connects first if need be. A read succeeds only on a connected link whose every register was read;
        it drops the link exactly when the bus fails, and keeps it on a bad value or register kind. */
    method Read(now: int, accepts: bool, bus: Bus) returns (r: Result<Readings, ReadError>)
      modifies this
      ensures ghost var l := Reconnected(old(Connection()), now, accepts);
        && Connection() == (if r == Failure(BusError) then l.(connected := false) else l)
        && (r.Success? ==> l.connected && AllRead(registers, bus, ieee, r.value))
        && (r.Failure? && l.connected ==>
              exists k | 0 <= k < |registers| :: FirstProblem(registers, bus, ieee, k, r.error))
        && (!l.connected ==> r == Failure(if Attempts(old(Connection()), now) then ConnectFailed else BackingOff))
      ensures forall fs ::
        Connection() == AfterRead(Streak(old(Connection()), fs), ReadCall(now, accepts, r == Failure(BusError))).link
    {
      if !connected {
        var error := Reconnect(now, accepts);
        if error.Some? { return Failure(error.value); }
      }
      r := ReadRegisters(bus);
    }
  }

  function Answer(bus: Bus, regs: seq<RegisterSpec>, k: nat): Reply
    requires k < |regs|
  {
    bus(k, RequestFor(regs[k]))
  }

  predicate AllRead(regs: seq<RegisterSpec>, bus: Bus, ieee: Ieee, r: Readings) {
    && (forall k | 0 <= k < |regs| :: Problem(regs[k], Answer(bus, regs, k), ieee).None?)
    && (forall k | 0 <= k < |regs| && LastOfName(regs, k) :: Holding(r, regs[k], Answer(bus, regs, k), ieee))
  }

  /** A successful read had no problem, and holds for every name the decoded reply of its last register. */
  lemma AllReadMeans(regs: seq<RegisterSpec>, bus: Bus, ieee: Ieee, r: Readings, k: nat)
    requires AllRead(regs, bus, ieee, r) && k < |regs|
    requires forall j | k < j < |regs| :: regs[j].name != regs[k].name
    ensures var reg, reply := regs[k], bus(k, RequestFor(regs[k]));
      && reg.kind in {"holding", "input", "coil", "discrete"} && reply.Data?
      && (reg.format.dataType == "string" ==> reg.name in r.strings && r.strings[reg.name] == TrimNulls(reply.bytes))
      && (reg.format.dataType != "string" ==>
            reg.name in r.values && DecodeRegister(reply.bytes, reg.format, ieee) == Success(r.values[reg.name]))
  {
    assert LastOfName(regs, k);
  }

  predicate FirstProblem(regs: seq<RegisterSpec>, bus: Bus, ieee: Ieee, k: nat, error: ReadError)
    requires k < |regs|
  {
    Problem(regs[k], Answer(bus, regs, k), ieee) == Some(error)
    && forall j | 0 <= j < k :: Problem(regs[j], Answer(bus, regs, j), ieee).None?
  }

  lemma OneMore(regs: seq<RegisterSpec>, reg: RegisterSpec, bus: Bus, ieee: Ieee, before: Readings, after: Readings)
    requires AllRead(regs, bus, ieee, before) && Problem(reg, bus(|regs|, RequestFor(reg)), ieee).None?
    requires Holding(after, reg, bus(|regs|, RequestFor(reg)), ieee)
    requires forall n | n != reg.name && n in before.values :: n in after.values && after.values[n] == before.values[n]
    requires forall n | n != reg.name && n in before.strings ::
      n in after.strings && after.strings[n] == before.strings[n]
    ensures AllRead(regs + [reg], bus, ieee, after)
  {
    var longer := regs + [reg];
    forall k | 0 <= k < |longer| && LastOfName(longer, k)
      ensures Holding(after, longer[k], Answer(bus, longer, k), ieee)
    {
      if k < |regs| {
        assert longer[|regs|] == reg;
        forall j | k < j < |regs| ensures regs[j].name != regs[k].name { assert longer[j] == regs[j]; }
        assert LastOfName(regs, k);
      }
    }
  }

  /** No later register has this name. */
  predicate LastOfName(regs: seq<RegisterSpec>, k: nat)
    requires k < |regs|
  {
    forall j | k < j < |regs| :: regs[j].name != regs[k].name
  }

  predicate Holding(r: Readings, reg: RegisterSpec, reply: Reply, ieee: Ieee) {
    reply.Data? &&
    if reg.format.dataType == "string"
    then reg.name in r.strings && r.strings[reg.name] == TrimNulls(reply.bytes)
    else reg.name in r.values && DecodeRegister(reply.bytes, reg.format, ieee) == Success(r.values[reg.name])
  }

  // ---- the backoff law ----

  /** One read as the connection sees it: when, whether the device accepts, whether the bus then fails. */
  datatype ReadCall = ReadCall(now: int, accepts: bool, busFails: bool)

  /** The connection, and the times of the failed connects since the last successful one. */
  datatype Streak = Streak(link: Link, failures: seq<int>)

  function AfterRead(s: Streak, c: ReadCall): Streak {
    var l := Reconnected(s.link, c.now, c.accepts);
    Streak(if l.connected && c.busFails then l.(connected := false) else l,
           if !Attempts(s.link, c.now) then s.failures
           else if c.accepts then [] else s.failures + [c.now])
  }

  function AfterReads(s: Streak, calls: seq<ReadCall>): Streak {
    if calls == [] then s else AfterRead(AfterReads(s, calls[..|calls| - 1]), calls[|calls| - 1])
  }

  function Pow2(k: nat): nat {
    if k == 0 then 1 else 2 * Pow2(k - 1)
  }

  /** min(2^k, 30) seconds. */
  function Wait(k: nat): int {
    Min(Pow2(k) * SECOND, MAX_BACKOFF)
  }

  /** The waits in nanoseconds: 1, 2, 4, 8 and 16 seconds, and 30 from then on. */
  lemma {:induction false} WaitValues(k: nat)
    ensures Wait(0) == 1_000_000_000 && Wait(1) == 2_000_000_000 && Wait(2) == 4_000_000_000
    ensures Wait(3) == 8_000_000_000 && Wait(4) == 16_000_000_000
    ensures k >= 5 ==> Wait(k) == 30_000_000_000
  {
    assert Pow2(4) == 16 && Pow2(5) == 32;
    if k <= 5 {
    } else {
      WaitValues(k - 1);
      WaitDoubles(k - 1);
    }
  }

  /** The waits of 1..k added up. */
  function TotalWait(k: nat): int {
    if k == 0 then 0 else TotalWait(k - 1) + Wait(k)
  }

  lemma {:induction false} WaitDoubles(k: nat)
    ensures Min(2 * Wait(k), MAX_BACKOFF) == Wait(k + 1)
  {
    assert Pow2(k + 1) * SECOND == 2 * (Pow2(k) * SECOND);
  }

  predicate Lawful(s: Streak) {
    var f := |s.failures|;
    && s.link.backoff == Wait(f)
    && (f > 0 ==> s.link.lastAttempt == Some(s.failures[f - 1]) && !s.link.connected)
    && (forall k | 0 <= k < f :: s.failures[k] - s.failures[0] >= TotalWait(k))
  }

  lemma ReadKeepsLaw(s: Streak, c: ReadCall)
    requires Lawful(s)
    ensures Lawful(AfterRead(s, c))
  {
    WaitDoubles(|s.failures|);
  }

  /** Over any sequence of reads and connect outcomes, backoff is min(2^f, 30) seconds after f failed
      connects in a row, and attempt k of such a streak comes no sooner after its first than the sum
      of the waits in between. */
  lemma {:induction false} BackoffLaw(calls: seq<ReadCall>)
    ensures Lawful(AfterReads(Streak(NEW_LINK, []), calls))
  {
    if calls == [] {
      assert Pow2(0) == 1;
    } else {
      BackoffLaw(calls[..|calls| - 1]);
      ReadKeepsLaw(AfterReads(Streak(NEW_LINK, []), calls[..|calls| - 1]), calls[|calls| - 1]);
    }
  }

  /** While it backs off, a data source reports an error without touching the device, and it tries again
      at the first read that comes a full wait after the last attempt. */
  lemma NextAttempt(calls: seq<ReadCall>, now: int)
    ensures var s := AfterReads(Streak(NEW_LINK, []), calls);
      s.failures != [] ==>
        (Attempts(s.link, now) <==> now - s.failures[|s.failures| - 1] >= Wait(|s.failures|))
  {
    BackoffLaw(calls);
  }

  // ---- machine status ----

  /** How many of the last reads failed in a row. */
  function Trailing(outcomes: seq<bool>): (k: nat)
    ensures k <= |outcomes|
    ensures forall i | |outcomes| - k <= i < |outcomes| :: !outcomes[i]
    ensures k < |outcomes| ==> outcomes[|outcomes| - k - 1]
  {
    if outcomes == [] || outcomes[|outcomes| - 1] then 0 else 1 + Trailing(outcomes[..|outcomes| - 1])
  }

  predicate LastThreeFailed(outcomes: seq<bool>) {
    |outcomes| >= 3 && !outcomes[|outcomes| - 1] && !outcomes[|outcomes| - 2] && !outcomes[|outcomes| - 3]
  }

  predicate AnySucceeded(outcomes: seq<bool>) {
    exists i | 0 <= i < |outcomes| :: outcomes[i]
  }

  /** The polling loop: counts consecutive errors and writes the status,
      starting from whatever status the machine had. */
  method RunMachine(initial: string, outcomes: seq<bool>) returns (status: string)
    ensures status ==
      if LastThreeFailed(outcomes) then "error" else if AnySucceeded(outcomes) then "running" else initial
  {
    status := initial;
    var consecutiveErrors := 0;
    for k := 0 to |outcomes|
      invariant consecutiveErrors == Trailing(outcomes[..k])
      invariant status ==
        if LastThreeFailed(outcomes[..k]) then "error" else if AnySucceeded(outcomes[..k]) then "running" else initial
    {
      assert outcomes[..k + 1][..k] == outcomes[..k];
      if !outcomes[k] {
        consecutiveErrors := consecutiveErrors + 1;
        if consecutiveErrors >= 3 { status := "error"; }
      } else {
        consecutiveErrors := 0;
        status := "running";
        assert outcomes[..k + 1][k];
      }
      assert AnySucceeded(outcomes[..k]) ==> AnySucceeded(outcomes[..k + 1]) by {
        if i :| 0 <= i < k && outcomes[..k][i] { assert outcomes[..k + 1][i]; }
      }
    }
    assert outcomes[..|outcomes|] == outcomes;
  }

  /** Provisioning sets the status to running; from then on it is a function of the last three reads. */
  method RunProvisioned(outcomes: seq<bool>) returns (status: string)
    ensures var n := |outcomes|;
      status == if n >= 3 && !outcomes[n - 1] && !outcomes[n - 2] && !outcomes[n - 3] then "error" else "running"
  {
    status := RunMachine("running", outcomes);
  }
}
